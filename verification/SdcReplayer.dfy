/** Deterministic replay for silent data corruption detection
    (torchtitan/observability/sdc_replayer.py). Tensors live in an explicit store, so
    that which tensor object a buffer or gradient is bound to can be told from its value. */
module SdcReplayer {
  import opened Wrappers

  type Addr = nat
  type Param = nat

  /** meta stands for shape, dtype and device. */
  datatype Tensor = Tensor(meta: nat, data: seq<real>)

  /** One module met by the walk over the registered roots; a shared module is met once per root. */
  datatype ModuleInfo = ModuleInfo(root: nat, id: nat, buffers: seq<string>, params: seq<Param>)

  datatype BufferKey = BufferKey(id: nat, name: string)

  /** The state an execution may read: RNG, caller-owned scalars, parameters and inputs (fixed),
      the tensor store, and which tensor each buffer and each gradient is bound to. */
  datatype Machine = Machine(
    python: seq<int>, cpu: Tensor, accelerator: Option<seq<Tensor>>, scalars: map<string, int>, fixed: seq<Tensor>,
    store: map<Addr, Tensor>, buffers: map<BufferKey, Option<Addr>>, grads: map<Param, Option<Addr>>)

  // ---------- which machines the replayer is used on ----------

  function WalkedBuffers(walk: seq<ModuleInfo>): set<BufferKey> {
    set i, j | 0 <= i < |walk| && 0 <= j < |walk[i].buffers| :: BufferKey(walk[i].id, walk[i].buffers[j])
  }

  function WalkedParams(walk: seq<ModuleInfo>): set<Param> {
    set i, j | 0 <= i < |walk| && 0 <= j < |walk[i].params| :: walk[i].params[j]
  }

  predicate Bound(m: Machine) {
    && (forall k | k in m.buffers && m.buffers[k].Some? :: m.buffers[k].value in m.store)
    && (forall p | p in m.grads && m.grads[p].Some? :: m.grads[p].value in m.store)
  }

  /** No gradient shares its tensor with a buffer. */
  predicate Separate(m: Machine) {
    forall k, p | k in m.buffers && p in m.grads && m.buffers[k].Some? && m.grads[p].Some? ::
      m.buffers[k].value != m.grads[p].value
  }

  predicate Usable(walk: seq<ModuleInfo>, m: Machine) {
    m.buffers.Keys == WalkedBuffers(walk) && m.grads.Keys == WalkedParams(walk) && Bound(m) && Separate(m)
  }

  function ZeroLike(t: Tensor): Tensor {
    Tensor(t.meta, seq(|t.data|, i => 0.0))
  }

  /** The state after zero_grad: every gradient is None or zeros. */
  predicate NoPendingGrads(m: Machine)
    requires Bound(m)
  {
    forall p | p in m.grads && m.grads[p].Some? :: m.store[m.grads[p].value] == ZeroLike(m.store[m.grads[p].value])
  }

  // ---------- the state up to tensor identity ----------

  datatype View = View(
    python: seq<int>, cpu: Tensor, accelerator: Option<seq<Tensor>>, scalars: map<string, int>, fixed: seq<Tensor>,
    buffers: map<BufferKey, Option<Tensor>>, grads: map<Param, Option<Tensor>>)

  function ValueOf(store: map<Addr, Tensor>, a: Option<Addr>): Option<Tensor> {
    if a.Some? && a.value in store then Some(store[a.value]) else None
  }

  function ViewOf(m: Machine): View {
    View(m.python, m.cpu, m.accelerator, m.scalars, m.fixed,
         map k | k in m.buffers :: ValueOf(m.store, m.buffers[k]),
         map p | p in m.grads :: ValueOf(m.store, m.grads[p]))
  }

  type Execution = Machine -> (Machine, Addr)

  /** Everything stays allocated with its shape, and the keys stay. */
  predicate Grown(m: Machine, n: Machine) {
    && n.fixed == m.fixed && n.scalars.Keys == m.scalars.Keys && n.accelerator.Some? == m.accelerator.Some?
    && m.store.Keys <= n.store.Keys
    && forall a | a in m.store :: n.store[a].meta == m.store[a].meta && |n.store[a].data| == |m.store[a].data|
  }

  /** One forward/backward: run again with the same values in the same tensors it leaves the same values; it changes
      only RNG, scalars, buffers and gradients, and may rebind buffers and gradients to other tensors. */
  ghost predicate Deterministic(walk: seq<ModuleInfo>, execute: Execution) {
    && (forall m {:trigger execute(m)} | Usable(walk, m) ::
          Usable(walk, execute(m).0) && Grown(m, execute(m).0) && execute(m).1 in execute(m).0.store)
    && (forall m, n {:trigger execute(m), execute(n)} | Usable(walk, m) && Usable(walk, n) && ViewOf(m) == ViewOf(n) &&
          m.buffers == n.buffers && m.grads == n.grads ::
          && ViewOf(execute(m).0) == ViewOf(execute(n).0)
          && ValueOf(execute(m).0.store, Some(execute(m).1)) == ValueOf(execute(n).0.store, Some(execute(n).1)))
  }

  // ---------- snapshots ----------

  datatype BufferSnapshot = BufferSnapshot(key: BufferKey, original: Option<Addr>, value: Option<Tensor>)
  datatype GradSnapshot = GradSnapshot(param: Param, original: Option<Addr>)

  datatype Snapshot = Snapshot(
    python: seq<int>, cpu: Tensor, accelerator: Option<seq<Tensor>>, scalars: map<string, int>,
    buffers: seq<BufferSnapshot>, grads: seq<GradSnapshot>)

  /** s records m: every buffer with its tensor and a copy of the value, every gradient with its tensor. */
  ghost predicate Records(s: Snapshot, m: Machine) {
    && s.python == m.python && s.cpu == m.cpu && s.accelerator == m.accelerator && s.scalars == m.scalars
    && (forall i | 0 <= i < |s.buffers| :: RecordsBuffer(s.buffers[i], m))
    && (forall k | k in m.buffers :: HasBuffer(s.buffers, k))
    && (forall i | 0 <= i < |s.grads| :: RecordsGrad(s.grads[i], m))
    && (forall p | p in m.grads :: HasGrad(s.grads, p))
  }

  predicate HasBuffer(buffers: seq<BufferSnapshot>, k: BufferKey) {
    exists i :: 0 <= i < |buffers| && buffers[i].key == k
  }

  predicate HasGrad(grads: seq<GradSnapshot>, p: Param) {
    exists i :: 0 <= i < |grads| && grads[i].param == p
  }

  predicate RecordsGrad(g: GradSnapshot, m: Machine) {
    g.param in m.grads && g.original == m.grads[g.param]
  }

  predicate RecordsBuffer(b: BufferSnapshot, m: Machine) {
    b.key in m.buffers && b.original == m.buffers[b.key] && b.value == ValueOf(m.store, b.original)
  }

  lemma BufferAppended(buffers: seq<BufferSnapshot>, b: BufferSnapshot)
    ensures HasBuffer(buffers + [b], b.key)
    ensures forall k | HasBuffer(buffers, k) :: HasBuffer(buffers + [b], k)
  {
    var all := buffers + [b];
    assert all[|buffers|].key == b.key;
    forall k | HasBuffer(buffers, k) ensures HasBuffer(all, k) {
      var i :| 0 <= i < |buffers| && buffers[i].key == k;
      assert all[i].key == k;
    }
  }

  lemma GradAppended(grads: seq<GradSnapshot>, g: GradSnapshot)
    ensures HasGrad(grads + [g], g.param)
    ensures forall p | HasGrad(grads, p) :: HasGrad(grads + [g], p)
  {
    var all := grads + [g];
    assert all[|grads|].param == g.param;
    forall p | HasGrad(grads, p) ensures HasGrad(all, p) {
      var i :| 0 <= i < |grads| && grads[i].param == p;
      assert all[i].param == p;
    }
  }

  // ---------- one step of a restore ----------

  function BufferRestored(m: Machine, s: BufferSnapshot): Machine
    requires s.original.Some? ==> s.value.Some?
  {
    if s.original.None? then m.(buffers := m.buffers[s.key := None])
    else m.(buffers := m.buffers[s.key := s.original], store := m.store[s.original.value := s.value.value])
  }

  function GradRestored(m: Machine, s: GradSnapshot): Machine
    requires s.original.Some? ==> s.original.value in m.store
  {
    if s.original.None? then m.(grads := m.grads[s.param := None])
    else m.(grads := m.grads[s.param := s.original],
            store := m.store[s.original.value := ZeroLike(m.store[s.original.value])])
  }

  /** m has entry's keys, its RNG and scalars, and everything entry had allocated. */
  predicate Like(entry: Machine, m: Machine) {
    && Bound(entry) && Grown(entry, m) && m.buffers.Keys == entry.buffers.Keys && m.grads.Keys == entry.grads.Keys
    && m.python == entry.python && m.cpu == entry.cpu && m.accelerator == entry.accelerator && m.scalars == entry.scalars
  }

  predicate SameAt(entry: Machine, m: Machine, a: Option<Addr>) {
    a.Some? ==> a.value in entry.store && a.value in m.store && m.store[a.value] == entry.store[a.value]
  }

  predicate BufferBack(entry: Machine, m: Machine, k: BufferKey) {
    k in entry.buffers && k in m.buffers && m.buffers[k] == entry.buffers[k] && SameAt(entry, m, entry.buffers[k])
  }

  predicate GradBack(entry: Machine, m: Machine, p: Param) {
    p in entry.grads && p in m.grads && m.grads[p] == entry.grads[p] && SameAt(entry, m, entry.grads[p])
  }

  lemma BufferStep(entry: Machine, m: Machine, s: BufferSnapshot)
    requires Like(entry, m) && RecordsBuffer(s, entry)
    ensures s.original.Some? ==> s.value.Some?
    ensures Like(entry, BufferRestored(m, s)) && BufferBack(entry, BufferRestored(m, s), s.key)
    ensures forall k | BufferBack(entry, m, k) :: BufferBack(entry, BufferRestored(m, s), k)
  {
  }

  lemma ZerosAgree(t: Tensor, u: Tensor)
    requires t.meta == u.meta && |t.data| == |u.data| && u == ZeroLike(u)
    ensures ZeroLike(t) == u
  {
    assert ZeroLike(t).data == ZeroLike(u).data;
  }

  lemma GradStep(entry: Machine, m: Machine, s: GradSnapshot)
    requires Like(entry, m) && NoPendingGrads(entry) && RecordsGrad(s, entry)
    ensures s.original.Some? ==> s.original.value in m.store
    ensures Like(entry, GradRestored(m, s)) && GradBack(entry, GradRestored(m, s), s.param)
    ensures forall k | BufferBack(entry, m, k) :: BufferBack(entry, GradRestored(m, s), k)
    ensures forall p | GradBack(entry, m, p) :: GradBack(entry, GradRestored(m, s), p)
  {
    if s.original.Some? { ZerosAgree(m.store[s.original.value], entry.store[s.original.value]); }
  }

  lemma SameView(m: Machine, n: Machine)
    requires Bound(m) && Bound(n)
    ensures ViewOf(m) == ViewOf(n) <==>
      && m.python == n.python && m.cpu == n.cpu && m.accelerator == n.accelerator && m.scalars == n.scalars && m.fixed == n.fixed
      && SameTensors(m.store, m.buffers, n.store, n.buffers) && SameTensors(m.store, m.grads, n.store, n.grads)
  {
    SameMaps(m.store, m.buffers, n.store, n.buffers);
    SameMaps(m.store, m.grads, n.store, n.grads);
  }

  lemma SameMaps<K>(s: map<Addr, Tensor>, a: map<K, Option<Addr>>, t: map<Addr, Tensor>, b: map<K, Option<Addr>>)
    requires forall k | k in a && a[k].Some? :: a[k].value in s
    requires forall k | k in b && b[k].Some? :: b[k].value in t
    ensures (map k | k in a :: ValueOf(s, a[k])) == (map k | k in b :: ValueOf(t, b[k])) <==> SameTensors(s, a, t, b)
  {
    var v, w := map k | k in a :: ValueOf(s, a[k]), map k | k in b :: ValueOf(t, b[k]);
    if v == w {
      assert a.Keys == v.Keys == w.Keys == b.Keys;
      forall k | k in a ensures ValueOf(s, a[k]) == ValueOf(t, b[k]) { assert v[k] == w[k]; }
    }
    if SameTensors(s, a, t, b) { assert v.Keys == w.Keys; }
  }

  /** The same names are bound, and to tensors of the same content. */
  predicate SameTensors<K>(s: map<Addr, Tensor>, a: map<K, Option<Addr>>, t: map<Addr, Tensor>, b: map<K, Option<Addr>>)
    requires forall k | k in a && a[k].Some? :: a[k].value in s
    requires forall k | k in b && b[k].Some? :: b[k].value in t
  {
    a.Keys == b.Keys && forall k | k in a :: match (a[k], b[k])
      case (None, None) => true
      case (Some(x), Some(y)) => s[x] == t[y]
      case _ => false
  }

  lemma AllBack(walk: seq<ModuleInfo>, entry: Machine, m: Machine)
    requires Usable(walk, entry) && Like(entry, m)
    requires forall k | k in entry.buffers :: BufferBack(entry, m, k)
    requires forall p | p in entry.grads :: GradBack(entry, m, p)
    ensures Usable(walk, m) && ViewOf(m) == ViewOf(entry) && m.buffers == entry.buffers && m.grads == entry.grads
  {
    assert m.buffers == entry.buffers && m.grads == entry.grads;
    assert ViewOf(m).buffers == ViewOf(entry).buffers;
    assert ViewOf(m).grads == ViewOf(entry).grads;
  }

  // ---------- signatures ----------

  datatype Label =
    | Loss | CpuRng | AcceleratorRng(index: nat)
    | Buffer(root: nat, key: BufferKey, isNone: bool) | Gradient(root: nat, param: Param, isNone: bool)
    | PythonRng | Scalar(name: string) | SchemaDivergence | StateSchemaDivergence

  datatype StateValue = Rng(words: seq<int>) | Number(value: int)

  datatype SchemaEntry = SchemaEntry(tag: Label, meta: nat)

  datatype Signature = Signature(schema: seq<SchemaEntry>, digests: seq<nat>, state: seq<(Label, StateValue)>)

  datatype Digest = Digest(entry: SchemaEntry, hash: nat)

  predicate WellFormed(s: Signature) {
    |s.schema| == |s.digests|
  }

  const NONE_META: nat := 0

  function DigestOf(hash: Tensor -> nat, tag: bool -> Label, value: Option<Tensor>): Digest {
    match value
    case None => Digest(SchemaEntry(tag(true), NONE_META), 0)
    case Some(t) => Digest(SchemaEntry(tag(false), t.meta), hash(t))
  }

  function RngDigests(hash: Tensor -> nat, states: seq<Tensor>): seq<Digest> {
    seq(|states|, i requires 0 <= i < |states| => Digest(SchemaEntry(AcceleratorRng(i), states[i].meta), hash(states[i])))
  }

  /** Buffers in walk order, each once. */
  function BufferDigests(hash: Tensor -> nat, walk: seq<ModuleInfo>, seen: set<BufferKey>, buffers: map<BufferKey, Option<Tensor>>): seq<Digest>
    decreases |walk|, 0, 0
  {
    if walk == [] then []
    else ModuleBuffers(hash, walk, 0, seen, buffers)
  }

  function ModuleBuffers(hash: Tensor -> nat, walk: seq<ModuleInfo>, j: nat, seen: set<BufferKey>, buffers: map<BufferKey, Option<Tensor>>): seq<Digest>
    requires walk != [] && j <= |walk[0].buffers|
    decreases |walk| - 1, 1, |walk[0].buffers| - j
  {
    if j == |walk[0].buffers| then BufferDigests(hash, walk[1..], seen, buffers)
    else
      var key := BufferKey(walk[0].id, walk[0].buffers[j]);
      if key in seen || key !in buffers then ModuleBuffers(hash, walk, j + 1, seen, buffers)
      else [DigestOf(hash, none => Buffer(walk[0].root, key, none), buffers[key])] +
           ModuleBuffers(hash, walk, j + 1, seen + {key}, buffers)
  }

  /** Gradients in walk order, each parameter once. */
  function GradDigests(hash: Tensor -> nat, walk: seq<ModuleInfo>, seen: set<Param>, grads: map<Param, Option<Tensor>>): seq<Digest>
    decreases |walk|, 0, 0
  {
    if walk == [] then []
    else ModuleGrads(hash, walk, 0, seen, grads)
  }

  function ModuleGrads(hash: Tensor -> nat, walk: seq<ModuleInfo>, j: nat, seen: set<Param>, grads: map<Param, Option<Tensor>>): seq<Digest>
    requires walk != [] && j <= |walk[0].params|
    decreases |walk| - 1, 1, |walk[0].params| - j
  {
    if j == |walk[0].params| then GradDigests(hash, walk[1..], seen, grads)
    else
      var p := walk[0].params[j];
      if p in seen || p !in grads then ModuleGrads(hash, walk, j + 1, seen, grads)
      else [DigestOf(hash, none => Gradient(walk[0].root, p, none), grads[p])] +
           ModuleGrads(hash, walk, j + 1, seen + {p}, grads)
  }

  function ScalarStates(names: seq<string>, scalars: map<string, int>): seq<(Label, StateValue)> {
    seq(|names|, i requires 0 <= i < |names| =>
      (Scalar(names[i]), Number(if names[i] in scalars then scalars[names[i]] else 0)))
  }

  function Digests(hash: Tensor -> nat, walk: seq<ModuleInfo>, v: View, loss: Tensor): seq<Digest> {
    [Digest(SchemaEntry(Loss, loss.meta), hash(loss)), Digest(SchemaEntry(CpuRng, v.cpu.meta), hash(v.cpu))] +
    (if v.accelerator.Some? then RngDigests(hash, v.accelerator.value) else []) +
    BufferDigests(hash, walk, {}, v.buffers) + GradDigests(hash, walk, {}, v.grads)
  }

  /** _signature: it depends on values only, never on which tensors hold them. */
  function SignatureOf(hash: Tensor -> nat, walk: seq<ModuleInfo>, names: seq<string>, v: View, loss: Tensor): (s: Signature)
    ensures WellFormed(s) && |s.digests| > 0
  {
    var ds := Digests(hash, walk, v, loss);
    Signature(seq(|ds|, i requires 0 <= i < |ds| => ds[i].entry), seq(|ds|, i requires 0 <= i < |ds| => ds[i].hash),
              [(PythonRng, Rng(v.python))] + ScalarStates(names, v.scalars))
  }

  // ---------- comparison ----------

  function Labels(state: seq<(Label, StateValue)>): (s: seq<Label>)
    ensures |s| == |state| && forall i | 0 <= i < |state| :: s[i] == state[i].0
  {
    seq(|state|, i requires 0 <= i < |state| => state[i].0)
  }

  /** _compare_signature */
  predicate Differs(reference: Signature, candidate: Signature)
    requires WellFormed(reference) && WellFormed(candidate)
  {
    || reference.schema != candidate.schema
    || Labels(reference.state) != Labels(candidate.state)
    || (exists i :: 0 <= i < |reference.state| && reference.state[i].1 != candidate.state[i].1)
    || (exists i :: 0 <= i < |reference.digests| && reference.digests[i] != candidate.digests[i])
  }

  lemma DiffersIsInequality(reference: Signature, candidate: Signature)
    requires WellFormed(reference) && WellFormed(candidate)
    ensures Differs(reference, candidate) <==> reference != candidate
  {
    if !Differs(reference, candidate) {
      assert |Labels(reference.state)| == |Labels(candidate.state)|;
      forall i | 0 <= i < |reference.state| ensures reference.state[i] == candidate.state[i] {
        assert Labels(reference.state)[i] == Labels(candidate.state)[i];
      }
      assert reference.state == candidate.state && reference.digests == candidate.digests;
    }
  }

  method CompareSignature(reference: Signature, candidate: Signature) returns (mismatch: bool)
    requires WellFormed(reference) && WellFormed(candidate)
    ensures mismatch <==> Differs(reference, candidate)
    ensures mismatch <==> reference != candidate
  {
    DiffersIsInequality(reference, candidate);
    if reference.schema != candidate.schema {
      return true;
    }
    if Labels(reference.state) != Labels(candidate.state) {
      return true;
    }
    assert |reference.state| == |candidate.state| by {
      assert |Labels(reference.state)| == |Labels(candidate.state)|;
    }
    for i := 0 to |reference.state|
      invariant forall j | 0 <= j < i :: reference.state[j].1 == candidate.state[j].1
    {
      if reference.state[i].1 != candidate.state[i].1 {
        return true;
      }
    }
    mismatch := reference.digests != candidate.digests;
  }

  /** cause names the first difference: the schema, then the tensors in order, then the scalar state in order. */
  ghost predicate IsCause(reference: Signature, candidate: Signature, cause: Label)
    requires WellFormed(reference) && WellFormed(candidate)
  {
    if reference.schema != candidate.schema then cause == SchemaDivergence
    else if reference.digests != candidate.digests then
      exists i :: 0 <= i < |reference.digests| && cause == reference.schema[i].tag &&
        reference.digests[i] != candidate.digests[i] && reference.digests[..i] == candidate.digests[..i]
    else if Labels(reference.state) != Labels(candidate.state) then cause == StateSchemaDivergence
    else
      exists i :: 0 <= i < |reference.state| && i < |candidate.state| && cause == reference.state[i].0 &&
        reference.state[i].1 != candidate.state[i].1 && reference.state[..i] == candidate.state[..i]
  }

  /** _find_signature_mismatch: tensors come before scalar state. */
  method FindSignatureMismatch(reference: Signature, candidate: Signature) returns (cause: Option<Label>)
    requires WellFormed(reference) && WellFormed(candidate)
    ensures cause.Some? <==> Differs(reference, candidate)
    ensures cause.Some? ==> IsCause(reference, candidate, cause.value)
  {
    if reference.schema != candidate.schema {
      return Some(SchemaDivergence);
    }
    for i := 0 to |reference.digests|
      invariant reference.digests[..i] == candidate.digests[..i]
    {
      if reference.digests[i] != candidate.digests[i] {
        return Some(reference.schema[i].tag);
      }
    }
    assert reference.digests[..|reference.digests|] == reference.digests;
    if Labels(reference.state) != Labels(candidate.state) {
      return Some(StateSchemaDivergence);
    }
    assert |reference.state| == |candidate.state| by {
      assert |Labels(reference.state)| == |Labels(candidate.state)|;
    }
    assert forall j | 0 <= j < |reference.state| :: Labels(reference.state)[j] == Labels(candidate.state)[j];
    for i := 0 to |reference.state|
      invariant forall j | 0 <= j < i :: reference.state[j] == candidate.state[j]
    {
      if reference.state[i].1 != candidate.state[i].1 {
        assert reference.state[..i] == candidate.state[..i];
        return Some(reference.state[i].0);
      }
    }
    cause := None;
  }

  // ---------- agreement between ranks ----------

  datatype Mismatch = Mismatch(step: nat, localStep: nat, replay: nat, rank: nat, cause: Label)

  /** The first replay at which another rank's mismatch reaches this rank, and what is reported. */
  datatype PeerReport = PeerReport(replay: nat, rank: nat, cause: Label)

  function FirstSome<T>(s: seq<Option<T>>): Option<T> {
    if s == [] then None else if s[0].Some? then s[0] else FirstSome(s[1..])
  }

  lemma {:induction false} FirstSomeIsFirst<T>(s: seq<Option<T>>, k: nat)
    requires k < |s| && s[k].Some? && forall i | 0 <= i < k :: s[i].None?
    ensures FirstSome(s) == s[k]
  {
    if k > 0 { FirstSomeIsFirst(s[1..], k - 1); }
  }

  /** _raise_if_mismatch as rank `me` runs it: `flags` is what the MAX all-reduce combines, `causes`
      what the object gather collects, one entry per rank. */
  method RaiseIfMismatch(step: nat, localStep: nat, replay: nat, me: nat, flags: seq<bool>, causes: seq<Option<Label>>)
    returns (raised: Option<Mismatch>)
    requires me < |flags| == |causes|
    requires forall r | 0 <= r < |flags| :: causes[r].Some? <==> flags[r]
    ensures raised.None? <==> forall r | 0 <= r < |flags| :: !flags[r]
    ensures forall r | 0 <= r < |flags| && flags[r] && (forall q | 0 <= q < r :: !flags[q]) ::
      raised == Some(Mismatch(step, localStep, replay, r, causes[r].value))
  {
    var globalMismatch := exists r :: 0 <= r < |flags| && flags[r];
    if !globalMismatch {
      return None;
    }
    var gathered: seq<Option<(nat, Label)>> :=
      seq(|flags|, r requires 0 <= r < |flags| => if causes[r].Some? then Some((r, causes[r].value)) else None);
    ghost var first := LowestFlag(flags);
    FirstSomeIsFirst(gathered, first);
    var details := FirstSome(gathered).value;
    raised := Some(Mismatch(step, localStep, replay, details.0, details.1));
  }

  lemma {:induction false} LowestFlag(flags: seq<bool>) returns (k: nat)
    requires exists r :: 0 <= r < |flags| && flags[r]
    ensures k < |flags| && flags[k] && forall q | 0 <= q < k :: !flags[q]
  {
    if flags[0] {
      k := 0;
    } else {
      var r :| 0 <= r < |flags| && flags[r];
      assert flags[1..][r - 1];
      k := LowestFlag(flags[1..]);
      k := k + 1;
      forall q | 0 <= q < k ensures !flags[q] {
        if q > 0 { assert !flags[1..][q - 1]; }
      }
    }
  }

  /** The report names the lowest rank whose signatures differ, and what differs there. */
  ghost predicate IsReport(references: seq<Signature>, candidates: seq<Signature>, report: Mismatch)
    requires |references| == |candidates|
    requires forall r | 0 <= r < |references| :: WellFormed(references[r]) && WellFormed(candidates[r])
  {
    && report.rank < |references| && Differs(references[report.rank], candidates[report.rank])
    && (forall p | 0 <= p < report.rank :: !Differs(references[p], candidates[p]))
    && IsCause(references[report.rank], candidates[report.rank], report.cause)
  }

  /** One comparison on every rank: no rank raises, or every rank raises the same error, naming the
      lowest mismatching rank and the cause that rank found. */
  method CheckAllRanks(step: nat, localStep: nat, replay: nat, references: seq<Signature>, candidates: seq<Signature>)
    returns (raised: seq<Option<Mismatch>>)
    requires |references| == |candidates|
    requires forall r | 0 <= r < |references| :: WellFormed(references[r]) && WellFormed(candidates[r])
    ensures |raised| == |references| && forall r, q | 0 <= r < |raised| && 0 <= q < |raised| :: raised[r] == raised[q]
    ensures forall r | 0 <= r < |raised| ::
      raised[r].Some? <==> exists q :: 0 <= q < |references| && Differs(references[q], candidates[q])
    ensures forall r | 0 <= r < |raised| && raised[r].Some? ::
      IsReport(references, candidates, raised[r].value) &&
      raised[r].value == Mismatch(step, localStep, replay, raised[r].value.rank, raised[r].value.cause)
  {
    var flags: seq<bool>, causes: seq<Option<Label>> := [], [];
    for r := 0 to |references|
      invariant |flags| == |causes| == r
      invariant forall q | 0 <= q < r :: (flags[q] <==> Differs(references[q], candidates[q])) && (causes[q].Some? <==> flags[q])
      invariant forall q | 0 <= q < r && causes[q].Some? :: IsCause(references[q], candidates[q], causes[q].value)
    {
      var flag := CompareSignature(references[r], candidates[r]);
      var cause := FindSignatureMismatch(references[r], candidates[r]);
      flags, causes := flags + [flag], causes + [cause];
    }
    ghost var any := exists q :: 0 <= q < |flags| && flags[q];
    ghost var first := 0;
    if any { first := LowestFlag(flags); }
    raised := [];
    for r := 0 to |references|
      invariant |raised| == r
      invariant forall q | 0 <= q < r ::
        raised[q] == if any then Some(Mismatch(step, localStep, replay, first, causes[first].value)) else None
    {
      var one := RaiseIfMismatch(step, localStep, replay, r, flags, causes);
      raised := raised + [one];
    }
  }

  // ---------- the replayer ----------

  class SDCReplayer {
    const walk: seq<ModuleInfo>
    const names: seq<string>
    const hash: Tensor -> nat
    const numSteps: int
    const numReplays: nat
    var m: Machine
    var stepsSinceReset: nat

    constructor (walk: seq<ModuleInfo>, names: seq<string>, hash: Tensor -> nat, numSteps: int, numReplays: nat, m: Machine)
      requires (numSteps == -1 || numSteps >= 1) && numReplays >= 1
      ensures this.walk == walk && this.names == names && this.hash == hash && this.m == m
      ensures this.numSteps == numSteps && this.numReplays == numReplays && stepsSinceReset == 0
    {
      this.walk, this.names, this.hash, this.m := walk, names, hash, m;
      this.numSteps, this.numReplays := numSteps, numReplays;
      stepsSinceReset := 0;
    }

    method Capture() returns (s: Snapshot)
      requires Usable(walk, m)
      ensures Records(s, m)
    {
      var buffers: seq<BufferSnapshot> := [];
      var grads: seq<GradSnapshot> := [];
      var seen: set<Param> := {};
      for i := 0 to |walk|
        invariant forall b | 0 <= b < |buffers| :: RecordsBuffer(buffers[b], m)
        invariant forall g | 0 <= g < |grads| :: RecordsGrad(grads[g], m)
        invariant forall p | p in seen :: HasGrad(grads, p)
        invariant forall a, j | 0 <= a < i && 0 <= j < |walk[a].buffers| ::
          HasBuffer(buffers, BufferKey(walk[a].id, walk[a].buffers[j]))
        invariant forall a, j | 0 <= a < i && 0 <= j < |walk[a].params| :: walk[a].params[j] in seen
      {
        buffers := CaptureBuffers(i, buffers);
        grads, seen := CaptureGrads(i, grads, seen);
      }
      s := Snapshot(m.python, m.cpu, m.accelerator, m.scalars, buffers, grads);
      forall k | k in m.buffers ensures HasBuffer(s.buffers, k) {
        assert k in WalkedBuffers(walk);
      }
      forall p | p in m.grads ensures HasGrad(s.grads, p) {
        assert p in WalkedParams(walk);
      }
    }

    /** The buffers of walk[i]. */
    method CaptureBuffers(i: nat, before: seq<BufferSnapshot>) returns (buffers: seq<BufferSnapshot>)
      requires Usable(walk, m) && i < |walk|
      requires forall b | 0 <= b < |before| :: RecordsBuffer(before[b], m)
      ensures forall b | 0 <= b < |buffers| :: RecordsBuffer(buffers[b], m)
      ensures forall k | HasBuffer(before, k) :: HasBuffer(buffers, k)
      ensures forall j | 0 <= j < |walk[i].buffers| :: HasBuffer(buffers, BufferKey(walk[i].id, walk[i].buffers[j]))
    {
      buffers := before;
      for j := 0 to |walk[i].buffers|
        invariant forall b | 0 <= b < |buffers| :: RecordsBuffer(buffers[b], m)
        invariant forall k | HasBuffer(before, k) :: HasBuffer(buffers, k)
        invariant forall k | 0 <= k < j :: HasBuffer(buffers, BufferKey(walk[i].id, walk[i].buffers[k]))
      {
        var key := BufferKey(walk[i].id, walk[i].buffers[j]);
        assert key in WalkedBuffers(walk);
        var original := m.buffers[key];
        var snapshot := BufferSnapshot(key, original, if original.None? then None else Some(m.store[original.value]));
        BufferAppended(buffers, snapshot);
        buffers := buffers + [snapshot];
      }
    }

    /** The parameters of walk[i] not met before. */
    method CaptureGrads(i: nat, before: seq<GradSnapshot>, met: set<Param>) returns (grads: seq<GradSnapshot>, seen: set<Param>)
      requires Usable(walk, m) && i < |walk|
      requires forall g | 0 <= g < |before| :: RecordsGrad(before[g], m)
      requires forall p | p in met :: HasGrad(before, p)
      ensures forall g | 0 <= g < |grads| :: RecordsGrad(grads[g], m)
      ensures met <= seen && forall p | p in seen :: HasGrad(grads, p)
      ensures forall j | 0 <= j < |walk[i].params| :: walk[i].params[j] in seen
    {
      grads, seen := before, met;
      for j := 0 to |walk[i].params|
        invariant forall g | 0 <= g < |grads| :: RecordsGrad(grads[g], m)
        invariant met <= seen && forall p | p in seen :: HasGrad(grads, p)
        invariant forall k | 0 <= k < j :: walk[i].params[k] in seen
      {
        var p := walk[i].params[j];
        if p !in seen {
          assert p in WalkedParams(walk);
          seen := seen + {p};
          GradAppended(grads, GradSnapshot(p, m.grads[p]));
          grads := grads + [GradSnapshot(p, m.grads[p])];
        }
      }
    }

    /** Rebuilds the captured machine: same values, and the same tensors bound, even if m rebound them. */
    method Restore(s: Snapshot, ghost entry: Machine)
      requires Usable(walk, entry) && NoPendingGrads(entry) && Records(s, entry)
      requires Usable(walk, m) && Grown(entry, m)
      modifies this`m
      ensures Usable(walk, m) && Grown(entry, m) && ViewOf(m) == ViewOf(entry)
      ensures m.buffers == entry.buffers && m.grads == entry.grads
    {
      m := m.(python := s.python, cpu := s.cpu, accelerator := s.accelerator, scalars := s.scalars);
      RestoreBuffers(s.buffers, entry);
      RestoreGrads(s.buffers, s.grads, entry);
      forall k | k in entry.buffers ensures BufferBack(entry, m, k) { assert HasBuffer(s.buffers, k); }
      forall p | p in entry.grads ensures GradBack(entry, m, p) { assert HasGrad(s.grads, p); }
      AllBack(walk, entry, m);
    }

    method RestoreBuffers(buffers: seq<BufferSnapshot>, ghost entry: Machine)
      requires Like(entry, m) && forall i | 0 <= i < |buffers| :: RecordsBuffer(buffers[i], entry)
      modifies this`m
      ensures Like(entry, m) && forall i | 0 <= i < |buffers| :: BufferBack(entry, m, buffers[i].key)
    {
      for i := 0 to |buffers|
        invariant Like(entry, m) && forall j | 0 <= j < i :: BufferBack(entry, m, buffers[j].key)
      {
        BufferStep(entry, m, buffers[i]);
        RestoreBuffer(buffers[i]);
      }
    }

    method RestoreGrads(ghost buffers: seq<BufferSnapshot>, grads: seq<GradSnapshot>, ghost entry: Machine)
      requires Like(entry, m) && NoPendingGrads(entry) && forall i | 0 <= i < |grads| :: RecordsGrad(grads[i], entry)
      requires forall i | 0 <= i < |buffers| :: BufferBack(entry, m, buffers[i].key)
      modifies this`m
      ensures Like(entry, m) && forall i | 0 <= i < |buffers| :: BufferBack(entry, m, buffers[i].key)
      ensures forall i | 0 <= i < |grads| :: GradBack(entry, m, grads[i].param)
    {
      for i := 0 to |grads|
        invariant Like(entry, m) && forall j | 0 <= j < |buffers| :: BufferBack(entry, m, buffers[j].key)
        invariant forall j | 0 <= j < i :: GradBack(entry, m, grads[j].param)
      {
        GradStep(entry, m, grads[i]);
        RestoreGrad(grads[i]);
      }
    }

    method RestoreBuffer(snapshot: BufferSnapshot)
      requires snapshot.key in m.buffers && (snapshot.original.Some? ==> snapshot.value.Some?)
      modifies this`m
      ensures m == BufferRestored(old(m), snapshot)
    {
      var current := m.buffers[snapshot.key];
      if snapshot.original.None? {
        m := m.(buffers := m.buffers[snapshot.key := None]);
        return;
      }
      if current != snapshot.original {
        m := m.(buffers := m.buffers[snapshot.key := snapshot.original]);
      }
      assert m.buffers == old(m).buffers[snapshot.key := snapshot.original];
      m := m.(store := m.store[snapshot.original.value := snapshot.value.value]);
    }

    method RestoreGrad(snapshot: GradSnapshot)
      requires snapshot.param in m.grads && (snapshot.original.Some? ==> snapshot.original.value in m.store)
      modifies this`m
      ensures m == GradRestored(old(m), snapshot)
    {
      if snapshot.original.None? {
        m := m.(grads := m.grads[snapshot.param := None]);
      } else {
        if m.grads[snapshot.param] != snapshot.original {
          m := m.(grads := m.grads[snapshot.param := snapshot.original]);
        }
        assert m.grads == old(m).grads[snapshot.param := snapshot.original];
        m := m.(store := m.store[snapshot.original.value := ZeroLike(m.store[snapshot.original.value])]);
      }
    }

    method Execute(execute: Execution) returns (loss: Addr, signature: Signature)
      requires Usable(walk, m) && Deterministic(walk, execute)
      modifies this`m
      ensures m == execute(old(m)).0 && loss == execute(old(m)).1 && loss in m.store
      ensures signature == SignatureOf(hash, walk, names, ViewOf(m), m.store[loss])
    {
      var (n, l) := execute(m);
      m, loss := n, l;
      signature := SignatureOf(hash, walk, names, ViewOf(m), m.store[loss]);
    }

    /** _run_checked on this rank. Unless another rank reports a mismatch the run never raises, and its
        result and final state are those of one execution from the entry state. */
    method RunChecked(execute: Execution, step: nat, localStep: nat, peer: Option<PeerReport>)
      returns (r: Result<Addr, Mismatch>)
      requires Usable(walk, m) && NoPendingGrads(m) && Deterministic(walk, execute) && numReplays >= 1
      modifies this`m
      ensures r.Err? <==> peer.Some? && 1 <= peer.value.replay <= numReplays
      ensures r.Ok? ==> IsRun(old(m), execute, m, r.value)
      ensures r.Err? ==> r.error == Mismatch(step, localStep, peer.value.replay, peer.value.rank, peer.value.cause)
    {
      ghost var entry := m;
      var baseline := Capture();
      var firstLoss, reference := RunReference(execute);
      var finalLoss, raised := ReplayAll(execute, baseline, reference, peer, entry, firstLoss);
      r := if !raised then Ok(finalLoss)
           else Err(Mismatch(step, localStep, peer.value.replay, peer.value.rank, peer.value.cause));
    }

    /** The replay loop, stopped by the first mismatch anywhere. */
    method ReplayAll(execute: Execution, baseline: Snapshot, reference: Signature, peer: Option<PeerReport>,
                     ghost entry: Machine, firstLoss: Addr)
      returns (finalLoss: Addr, raised: bool)
      requires Usable(walk, entry) && NoPendingGrads(entry) && Records(baseline, entry) && Deterministic(walk, execute)
      requires IsRun(entry, execute, m, firstLoss) && Signed(reference, m, firstLoss)
      modifies this`m
      ensures !raised ==> IsRun(entry, execute, m, finalLoss)
      ensures raised <==> peer.Some? && 1 <= peer.value.replay <= numReplays
    {
      finalLoss, raised := firstLoss, false;
      for replay := 1 to numReplays + 1
        invariant IsRun(entry, execute, m, finalLoss) && Signed(reference, m, finalLoss)
        invariant peer.Some? && 1 <= peer.value.replay ==> replay <= peer.value.replay
      {
        var candidate, localMismatch;
        finalLoss, candidate, localMismatch := ReplayOnce(execute, baseline, reference, entry, finalLoss);
        if localMismatch || (peer.Some? && peer.value.replay == replay) {
          raised := true;
          return;
        }
      }
    }

    /** m looks like entry after one execution, and loss holds that execution's loss. */
    ghost predicate IsRun(entry: Machine, execute: Execution, m: Machine, loss: Addr) {
      && Usable(walk, m) && Grown(entry, m) && ViewOf(m) == ViewOf(execute(entry).0)
      && loss in m.store && execute(entry).1 in execute(entry).0.store
      && m.store[loss] == execute(entry).0.store[execute(entry).1]
    }

    ghost predicate Signed(signature: Signature, m: Machine, loss: Addr) {
      loss in m.store && signature == SignatureOf(hash, walk, names, ViewOf(m), m.store[loss])
    }

    method RunReference(execute: Execution) returns (loss: Addr, reference: Signature)
      requires Usable(walk, m) && Deterministic(walk, execute)
      modifies this`m
      ensures IsRun(old(m), execute, m, loss) && Signed(reference, m, loss)
    {
      loss, reference := Execute(execute);
    }

    /** Restore, execute, compare: a deterministic execution shows no local mismatch. */
    method ReplayOnce(execute: Execution, baseline: Snapshot, reference: Signature, ghost entry: Machine, ghost last: Addr)
      returns (loss: Addr, candidate: Signature, localMismatch: bool)
      requires Usable(walk, entry) && NoPendingGrads(entry) && Records(baseline, entry) && Deterministic(walk, execute)
      requires IsRun(entry, execute, m, last) && Signed(reference, m, last)
      modifies this`m
      ensures IsRun(entry, execute, m, loss) && Signed(reference, m, loss) && candidate == reference && !localMismatch
    {
      Restore(baseline, entry);
      SameRun(walk, execute, m, entry);
      loss, candidate := Execute(execute);
      localMismatch := CompareSignature(reference, candidate);
    }

    /** run_fwd_bwd: the first numSteps steps since the last reset are checked (all of them for -1). */
    method RunFwdBwd(execute: Execution, step: nat, peer: Option<PeerReport>) returns (r: Result<Addr, Mismatch>)
      requires Usable(walk, m) && NoPendingGrads(m) && Deterministic(walk, execute) && numReplays >= 1
      modifies this`m, this`stepsSinceReset
      ensures r.Err? <==>
        (numSteps == -1 || old(stepsSinceReset) < numSteps) && peer.Some? && 1 <= peer.value.replay <= numReplays
      ensures r.Err? ==>
        r.error == Mismatch(step, old(stepsSinceReset) + 1, peer.value.replay, peer.value.rank, peer.value.cause)
      ensures r.Ok? ==> IsRun(old(m), execute, m, r.value)
      ensures stepsSinceReset == old(stepsSinceReset) + if r.Ok? then 1 else 0
    {
      var localStep := stepsSinceReset;
      if numSteps == -1 || localStep < numSteps {
        r := RunChecked(execute, step, localStep + 1, peer);
        if r.Err? {
          return;
        }
      } else {
        var (n, loss) := execute(m);
        m := n;
        r := Ok(loss);
      }
      stepsSinceReset := localStep + 1;
    }

    method ResetSchedule()
      modifies this`stepsSinceReset
      ensures stepsSinceReset == 0
    {
      stepsSinceReset := 0;
    }
  }

  /** Two runs from machines that look the same and bind the same tensors look the same and lose the same. */
  lemma SameRun(walk: seq<ModuleInfo>, execute: Execution, m: Machine, n: Machine)
    requires Deterministic(walk, execute) && Usable(walk, m) && Usable(walk, n)
    requires ViewOf(m) == ViewOf(n) && m.buffers == n.buffers && m.grads == n.grads
    ensures ViewOf(execute(m).0) == ViewOf(execute(n).0)
    ensures execute(m).1 in execute(m).0.store && execute(n).1 in execute(n).0.store
    ensures execute(m).0.store[execute(m).1] == execute(n).0.store[execute(n).1]
  {
    assert ValueOf(execute(m).0.store, Some(execute(m).1)) == ValueOf(execute(n).0.store, Some(execute(n).1));
  }
}
