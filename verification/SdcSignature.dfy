/** What a replay signature tells: everything it is meant to compare, up to hash collisions
    (_signature in torchtitan/observability/sdc_replayer.py). */
module SdcSignature {
  import opened SdcReplayer
  import opened Wrappers

  ghost predicate CollisionFree(hash: Tensor -> nat) {
    forall t: Tensor, u: Tensor {:trigger hash(t), hash(u)} :: t.meta == u.meta && hash(t) == hash(u) ==> t == u
  }

  /** d is the digest of a value, or of its absence. */
  predicate Shows(hash: Tensor -> nat, d: Digest, value: Option<Tensor>, isNone: bool) {
    match value
    case None => isNone && d.hash == 0
    case Some(t) => !isNone && d.entry.meta == t.meta && d.hash == hash(t)
  }

  predicate OfBuffer(hash: Tensor -> nat, d: Digest, buffers: map<BufferKey, Option<Tensor>>) {
    d.entry.tag.Buffer? && d.entry.tag.key in buffers && Shows(hash, d, buffers[d.entry.tag.key], d.entry.tag.isNone)
  }

  predicate OfGrad(hash: Tensor -> nat, d: Digest, grads: map<Param, Option<Tensor>>) {
    d.entry.tag.Gradient? && d.entry.tag.param in grads && Shows(hash, d, grads[d.entry.tag.param], d.entry.tag.isNone)
  }

  predicate HasBufferDigest(ds: seq<Digest>, k: BufferKey) {
    exists i :: 0 <= i < |ds| && ds[i].entry.tag.Buffer? && ds[i].entry.tag.key == k
  }

  predicate HasGradDigest(ds: seq<Digest>, p: Param) {
    exists i :: 0 <= i < |ds| && ds[i].entry.tag.Gradient? && ds[i].entry.tag.param == p
  }

  // ---------- the buffers ----------

  lemma {:induction false} BufferDigestsOf(hash: Tensor -> nat, walk: seq<ModuleInfo>, seen: set<BufferKey>,
                                           buffers: map<BufferKey, Option<Tensor>>, k: BufferKey)
    ensures forall d | d in BufferDigests(hash, walk, seen, buffers) :: OfBuffer(hash, d, buffers)
    ensures k in WalkedBuffers(walk) && k !in seen && k in buffers ==> HasBufferDigest(BufferDigests(hash, walk, seen, buffers), k)
    decreases |walk|, 0, 0
  {
    if walk != [] {
      ModuleBuffersOf(hash, walk, 0, seen, buffers, k);
      WalkedBuffersFirst(walk, k);
    }
  }

  lemma WalkedBuffersFirst(walk: seq<ModuleInfo>, k: BufferKey)
    requires walk != []
    ensures k in WalkedBuffers(walk) <==>
      k in WalkedBuffers(walk[1..]) || exists j | 0 <= j < |walk[0].buffers| :: k == BufferKey(walk[0].id, walk[0].buffers[j])
  {
    var rest := walk[1..];
    assert forall i | 0 <= i < |rest| :: rest[i] == walk[i + 1];
    if k in WalkedBuffers(walk) {
      var i, j :| 0 <= i < |walk| && 0 <= j < |walk[i].buffers| && k == BufferKey(walk[i].id, walk[i].buffers[j]);
      if i > 0 { assert rest[i - 1] == walk[i]; }
    }
  }

  /** From buffer j of the first module on. */
  lemma {:induction false} ModuleBuffersOf(hash: Tensor -> nat, walk: seq<ModuleInfo>, j: nat, seen: set<BufferKey>,
                                           buffers: map<BufferKey, Option<Tensor>>, k: BufferKey)
    requires walk != [] && j <= |walk[0].buffers|
    ensures forall d | d in ModuleBuffers(hash, walk, j, seen, buffers) :: OfBuffer(hash, d, buffers)
    ensures k !in seen && k in buffers &&
      (k in WalkedBuffers(walk[1..]) || exists i | j <= i < |walk[0].buffers| :: k == BufferKey(walk[0].id, walk[0].buffers[i]))
      ==> HasBufferDigest(ModuleBuffers(hash, walk, j, seen, buffers), k)
    decreases |walk| - 1, 1, |walk[0].buffers| - j
  {
    hide WalkedBuffers;
    if j == |walk[0].buffers| {
      BufferDigestsOf(hash, walk[1..], seen, buffers, k);
    } else {
      var key := BufferKey(walk[0].id, walk[0].buffers[j]);
      if key in seen || key !in buffers {
        ModuleBuffersOf(hash, walk, j + 1, seen, buffers, k);
      } else {
        ModuleBuffersOf(hash, walk, j + 1, seen + {key}, buffers, k);
        BufferFirst(hash, walk, j, seen, buffers, k);
      }
    }
  }

  lemma BufferFirst(hash: Tensor -> nat, walk: seq<ModuleInfo>, j: nat, seen: set<BufferKey>,
                    buffers: map<BufferKey, Option<Tensor>>, k: BufferKey)
    requires walk != [] && j < |walk[0].buffers|
    requires var key := BufferKey(walk[0].id, walk[0].buffers[j]); key !in seen && key in buffers
    ensures var key := BufferKey(walk[0].id, walk[0].buffers[j]);
      var ds, more := ModuleBuffers(hash, walk, j, seen, buffers), ModuleBuffers(hash, walk, j + 1, seen + {key}, buffers);
      && ds != [] && ds[1..] == more && OfBuffer(hash, ds[0], buffers)
      && (k == key || HasBufferDigest(more, k) ==> HasBufferDigest(ds, k))
  {
    var key := BufferKey(walk[0].id, walk[0].buffers[j]);
    var ds, more := ModuleBuffers(hash, walk, j, seen, buffers), ModuleBuffers(hash, walk, j + 1, seen + {key}, buffers);
    assert ds[0].entry.tag.Buffer? && ds[0].entry.tag.key == key && ds[1..] == more;
    if HasBufferDigest(more, k) {
      var i :| 0 <= i < |more| && more[i].entry.tag.Buffer? && more[i].entry.tag.key == k;
      assert ds[i + 1] == more[i];
    }
  }

  // ---------- the gradients ----------

  lemma {:induction false} GradDigestsOf(hash: Tensor -> nat, walk: seq<ModuleInfo>, seen: set<Param>,
                                         grads: map<Param, Option<Tensor>>, p: Param)
    ensures forall d | d in GradDigests(hash, walk, seen, grads) :: OfGrad(hash, d, grads)
    ensures p in WalkedParams(walk) && p !in seen && p in grads ==> HasGradDigest(GradDigests(hash, walk, seen, grads), p)
    decreases |walk|, 0, 0
  {
    if walk != [] {
      ModuleGradsOf(hash, walk, 0, seen, grads, p);
      WalkedParamsFirst(walk, p);
    }
  }

  lemma WalkedParamsFirst(walk: seq<ModuleInfo>, p: Param)
    requires walk != []
    ensures p in WalkedParams(walk) <==> p in WalkedParams(walk[1..]) || p in walk[0].params
  {
    var rest := walk[1..];
    assert forall i | 0 <= i < |rest| :: rest[i] == walk[i + 1];
    if p in WalkedParams(walk) {
      var i, j :| 0 <= i < |walk| && 0 <= j < |walk[i].params| && p == walk[i].params[j];
      if i > 0 { assert rest[i - 1] == walk[i]; }
    }
  }

  lemma {:induction false} ModuleGradsOf(hash: Tensor -> nat, walk: seq<ModuleInfo>, j: nat, seen: set<Param>,
                                         grads: map<Param, Option<Tensor>>, p: Param)
    requires walk != [] && j <= |walk[0].params|
    ensures forall d | d in ModuleGrads(hash, walk, j, seen, grads) :: OfGrad(hash, d, grads)
    ensures p !in seen && p in grads && (p in WalkedParams(walk[1..]) || p in walk[0].params[j..])
      ==> HasGradDigest(ModuleGrads(hash, walk, j, seen, grads), p)
    decreases |walk| - 1, 1, |walk[0].params| - j
  {
    hide WalkedParams;
    if j == |walk[0].params| {
      GradDigestsOf(hash, walk[1..], seen, grads, p);
    } else {
      var q := walk[0].params[j];
      assert walk[0].params[j..] == [q] + walk[0].params[j + 1..];
      if q in seen || q !in grads {
        ModuleGradsOf(hash, walk, j + 1, seen, grads, p);
      } else {
        ModuleGradsOf(hash, walk, j + 1, seen + {q}, grads, p);
        GradFirst(hash, walk, j, seen, grads, p);
      }
    }
  }

  lemma GradFirst(hash: Tensor -> nat, walk: seq<ModuleInfo>, j: nat, seen: set<Param>, grads: map<Param, Option<Tensor>>, p: Param)
    requires walk != [] && j < |walk[0].params| && walk[0].params[j] !in seen && walk[0].params[j] in grads
    ensures var q := walk[0].params[j];
      var ds, more := ModuleGrads(hash, walk, j, seen, grads), ModuleGrads(hash, walk, j + 1, seen + {q}, grads);
      && ds != [] && ds[1..] == more && OfGrad(hash, ds[0], grads)
      && (p == q || HasGradDigest(more, p) ==> HasGradDigest(ds, p))
  {
    var q := walk[0].params[j];
    var ds, more := ModuleGrads(hash, walk, j, seen, grads), ModuleGrads(hash, walk, j + 1, seen + {q}, grads);
    assert ds[0].entry.tag.Gradient? && ds[0].entry.tag.param == q && ds[1..] == more;
    if HasGradDigest(more, p) {
      var i :| 0 <= i < |more| && more[i].entry.tag.Gradient? && more[i].entry.tag.param == p;
      assert ds[i + 1] == more[i];
    }
  }

  // ---------- all digests ----------

  function States(accelerator: Option<seq<Tensor>>): seq<Tensor> {
    if accelerator.Some? then accelerator.value else []
  }

  /** A digest says what it is a digest of. */
  predicate Truthful(hash: Tensor -> nat, d: Digest, v: View, loss: Tensor) {
    match d.entry.tag
    case Loss => d.entry.meta == loss.meta && d.hash == hash(loss)
    case CpuRng => d.entry.meta == v.cpu.meta && d.hash == hash(v.cpu)
    case AcceleratorRng(i) => i < |States(v.accelerator)| &&
      d.entry.meta == States(v.accelerator)[i].meta && d.hash == hash(States(v.accelerator)[i])
    case Buffer(_, _, _) => OfBuffer(hash, d, v.buffers)
    case Gradient(_, _, _) => OfGrad(hash, d, v.grads)
    case _ => false
  }

  lemma AllTruthful(hash: Tensor -> nat, walk: seq<ModuleInfo>, v: View, loss: Tensor)
    ensures forall d | d in Digests(hash, walk, v, loss) :: Truthful(hash, d, v, loss)
  {
    hide BufferDigests, GradDigests;
    BufferDigestsOf(hash, walk, {}, v.buffers, BufferKey(0, ""));
    GradDigestsOf(hash, walk, {}, v.grads, 0);
  }

  lemma DigestsInclude(hash: Tensor -> nat, walk: seq<ModuleInfo>, v: View, loss: Tensor)
    ensures var ds := Digests(hash, walk, v, loss);
      && (forall d | d in BufferDigests(hash, walk, {}, v.buffers) || d in GradDigests(hash, walk, {}, v.grads) :: d in ds)
      && Digest(SchemaEntry(Loss, loss.meta), hash(loss)) in ds && Digest(SchemaEntry(CpuRng, v.cpu.meta), hash(v.cpu)) in ds
      && forall i | 0 <= i < |States(v.accelerator)| ::
        Digest(SchemaEntry(AcceleratorRng(i), States(v.accelerator)[i].meta), hash(States(v.accelerator)[i])) in ds
  {
    hide BufferDigests, GradDigests;
    var ds := Digests(hash, walk, v, loss);
    assert ds[0] == Digest(SchemaEntry(Loss, loss.meta), hash(loss)) && ds[1] == Digest(SchemaEntry(CpuRng, v.cpu.meta), hash(v.cpu));
    forall i | 0 <= i < |States(v.accelerator)|
      ensures Digest(SchemaEntry(AcceleratorRng(i), States(v.accelerator)[i].meta), hash(States(v.accelerator)[i])) in ds
    {
      assert ds[2 + i] == RngDigests(hash, v.accelerator.value)[i];
    }
  }

  /** The same value, if one digest shows both. */
  lemma ShownOnce(hash: Tensor -> nat, d: Digest, a: Option<Tensor>, b: Option<Tensor>, isNone: bool)
    requires CollisionFree(hash) && Shows(hash, d, a, isNone) && Shows(hash, d, b, isNone)
    ensures a == b
  {
  }

  /** Digests that are true of two views show that they agree. */
  lemma SameDigests(hash: Tensor -> nat, walk: seq<ModuleInfo>, v: View, w: View, loss: Tensor, loss': Tensor)
    requires CollisionFree(hash) && Digests(hash, walk, v, loss) == Digests(hash, walk, w, loss')
    requires v.buffers.Keys == w.buffers.Keys == WalkedBuffers(walk) && v.grads.Keys == w.grads.Keys == WalkedParams(walk)
    ensures loss == loss' && v.cpu == w.cpu && v.buffers == w.buffers && v.grads == w.grads
    ensures |States(v.accelerator)| <= |States(w.accelerator)|
    ensures forall i | 0 <= i < |States(v.accelerator)| :: States(v.accelerator)[i] == States(w.accelerator)[i]
  {
    hide Digests, BufferDigests, GradDigests, WalkedBuffers, WalkedParams;
    AllTruthful(hash, walk, v, loss);
    AllTruthful(hash, walk, w, loss');
    DigestsInclude(hash, walk, v, loss);
    var ds := Digests(hash, walk, v, loss);
    assert Truthful(hash, Digest(SchemaEntry(Loss, loss.meta), hash(loss)), w, loss');
    assert Truthful(hash, Digest(SchemaEntry(CpuRng, v.cpu.meta), hash(v.cpu)), w, loss');
    var n := |States(v.accelerator)|;
    if n > 0 {
      var t := States(v.accelerator)[n - 1];
      assert Truthful(hash, Digest(SchemaEntry(AcceleratorRng(n - 1), t.meta), hash(t)), w, loss');
    }
    forall i | 0 <= i < n ensures States(v.accelerator)[i] == States(w.accelerator)[i] {
      var t := States(v.accelerator)[i];
      assert Truthful(hash, Digest(SchemaEntry(AcceleratorRng(i), t.meta), hash(t)), w, loss');
    }
    forall k | k in v.buffers ensures v.buffers[k] == w.buffers[k] {
      BufferDigestsOf(hash, walk, {}, v.buffers, k);
      var bs := BufferDigests(hash, walk, {}, v.buffers);
      var i :| 0 <= i < |bs| && bs[i].entry.tag.Buffer? && bs[i].entry.tag.key == k;
      assert bs[i] in ds && Truthful(hash, bs[i], v, loss) && Truthful(hash, bs[i], w, loss');
      ShownOnce(hash, bs[i], v.buffers[k], w.buffers[k], bs[i].entry.tag.isNone);
    }
    forall p | p in v.grads ensures v.grads[p] == w.grads[p] {
      GradDigestsOf(hash, walk, {}, v.grads, p);
      var gs := GradDigests(hash, walk, {}, v.grads);
      var i :| 0 <= i < |gs| && gs[i].entry.tag.Gradient? && gs[i].entry.tag.param == p;
      assert gs[i] in ds && Truthful(hash, gs[i], v, loss) && Truthful(hash, gs[i], w, loss');
      ShownOnce(hash, gs[i], v.grads[p], w.grads[p], gs[i].entry.tag.isNone);
    }
  }

  lemma SameStates(names: seq<string>, a: map<string, int>, b: map<string, int>)
    requires a.Keys == b.Keys == (set n | n in names) && ScalarStates(names, a) == ScalarStates(names, b)
    ensures a == b
  {
    forall n | n in a ensures a[n] == b[n] {
      var i :| 0 <= i < |names| && names[i] == n;
      assert ScalarStates(names, a)[i] == ScalarStates(names, b)[i];
    }
  }

  /** Two signatures are equal exactly when the loss, every RNG, every scalar, every buffer and every gradient are: no
      difference in what an execution leaves escapes the comparison, except by a hash collision. */
  lemma SameSignature(hash: Tensor -> nat, walk: seq<ModuleInfo>, names: seq<string>, v: View, w: View, loss: Tensor, loss': Tensor)
    requires CollisionFree(hash)
    requires v.buffers.Keys == w.buffers.Keys == WalkedBuffers(walk) && v.grads.Keys == w.grads.Keys == WalkedParams(walk)
    requires v.scalars.Keys == w.scalars.Keys == set n | n in names
    ensures SignatureOf(hash, walk, names, v, loss) == SignatureOf(hash, walk, names, w, loss') <==>
      loss == loss' && v.python == w.python && v.cpu == w.cpu && States(v.accelerator) == States(w.accelerator) &&
      v.scalars == w.scalars && v.buffers == w.buffers && v.grads == w.grads
  {
    hide BufferDigests, GradDigests, WalkedBuffers, WalkedParams;
    var a, b := SignatureOf(hash, walk, names, v, loss), SignatureOf(hash, walk, names, w, loss');
    var ds, es := Digests(hash, walk, v, loss), Digests(hash, walk, w, loss');
    if a == b {
      assert |a.schema| == |ds| && |b.schema| == |es|;
      forall i | 0 <= i < |ds| ensures ds[i] == es[i] {
        assert a.schema[i] == ds[i].entry && b.schema[i] == es[i].entry && a.digests[i] == ds[i].hash && b.digests[i] == es[i].hash;
      }
      assert ds == es;
      SameDigests(hash, walk, v, w, loss, loss');
      SameDigests(hash, walk, w, v, loss', loss);
      assert States(v.accelerator) == States(w.accelerator);
      assert a.state[0] == b.state[0] && a.state[1..] == ScalarStates(names, v.scalars) && b.state[1..] == ScalarStates(names, w.scalars);
      SameStates(names, v.scalars, w.scalars);
    }
    if States(v.accelerator) == States(w.accelerator) {
      SameRng(hash, v.accelerator, w.accelerator);
    }
  }

  lemma SameRng(hash: Tensor -> nat, a: Option<seq<Tensor>>, b: Option<seq<Tensor>>)
    requires States(a) == States(b)
    ensures (if a.Some? then RngDigests(hash, a.value) else []) == (if b.Some? then RngDigests(hash, b.value) else [])
  {
  }
}
