/** Executions that work in place, as autograd and stateful modules do, are ones the replayer is right about
    (torchtitan/observability/sdc_replayer.py). */
module SdcInPlace {
  import opened SdcReplayer
  import opened Wrappers

  /** One write of a forward/backward, computed from what the execution sees: a gradient or a buffer is added to in
      place, and a gradient that is None becomes a new tensor. */
  datatype Write =
    | AddToGrad(param: Param, meta: nat, delta: View -> seq<real>)
    | AddToBuffer(key: BufferKey, delta': View -> seq<real>)

  function Plus(a: seq<real>, b: seq<real>): (s: seq<real>)
    ensures |s| == |a|
  {
    seq(|a|, i requires 0 <= i < |a| => a[i] + if i < |b| then b[i] else 0.0)
  }

  ghost function NewAddr(s: set<Addr>): (a: Addr)
    ensures forall b | b in s :: b < a
  {
    if s == {} then 0
    else
      var b :| b in s;
      var a := NewAddr(s - {b});
      assert forall c | c in s :: c == b || c in s - {b};
      if a <= b then b + 1 else a
  }

  ghost function AddedAt(m: Machine, a: Addr, delta: seq<real>): Machine
    requires a in m.store
  {
    m.(store := m.store[a := m.store[a].(data := Plus(m.store[a].data, delta))])
  }

  ghost function NewGrad(m: Machine, p: Param, t: Tensor): Machine {
    var a := NewAddr(m.store.Keys);
    m.(store := m.store[a := t], grads := m.grads[p := Some(a)])
  }

  ghost function Written(m: Machine, w: Write): Machine
    requires Bound(m)
  {
    match w
    case AddToGrad(p, meta, delta) =>
      if p !in m.grads then m
      else if m.grads[p].Some? then AddedAt(m, m.grads[p].value, delta(ViewOf(m)))
      else NewGrad(m, p, Tensor(meta, delta(ViewOf(m))))
    case AddToBuffer(k, delta) =>
      if k !in m.buffers || m.buffers[k].None? then m else AddedAt(m, m.buffers[k].value, delta(ViewOf(m)))
  }

  predicate SameBuffer(m: Machine, j: BufferKey, k: BufferKey) {
    j in m.buffers && k in m.buffers && m.buffers[j].Some? && m.buffers[j] == m.buffers[k]
  }

  predicate SameGrad(m: Machine, p: Param, q: Param) {
    p in m.grads && q in m.grads && m.grads[p].Some? && m.grads[p] == m.grads[q]
  }

  /** The same values, shared in the same way. */
  ghost predicate Twins(walk: seq<ModuleInfo>, m: Machine, n: Machine) {
    && ViewOf(m) == ViewOf(n) && Usable(walk, m) && Usable(walk, n)
    && (forall j, k :: SameBuffer(m, j, k) <==> SameBuffer(n, j, k))
    && (forall p, q :: SameGrad(m, p, q) <==> SameGrad(n, p, q))
  }

  /** What equal views say of one buffer and of one gradient. */
  lemma SameValues(m: Machine, n: Machine)
    requires ViewOf(m) == ViewOf(n) && Bound(m) && Bound(n)
    ensures m.buffers.Keys == n.buffers.Keys && m.grads.Keys == n.grads.Keys
    ensures forall k | k in m.buffers :: ValueOf(m.store, m.buffers[k]) == ValueOf(n.store, n.buffers[k])
    ensures forall p | p in m.grads :: ValueOf(m.store, m.grads[p]) == ValueOf(n.store, n.grads[p])
  {
    assert m.buffers.Keys == ViewOf(m).buffers.Keys && n.buffers.Keys == ViewOf(n).buffers.Keys;
    assert m.grads.Keys == ViewOf(m).grads.Keys && n.grads.Keys == ViewOf(n).grads.Keys;
    forall k | k in m.buffers ensures ValueOf(m.store, m.buffers[k]) == ValueOf(n.store, n.buffers[k]) {
      assert ViewOf(m).buffers[k] == ViewOf(n).buffers[k];
    }
    forall p | p in m.grads ensures ValueOf(m.store, m.grads[p]) == ValueOf(n.store, n.grads[p]) {
      assert ViewOf(m).grads[p] == ViewOf(n).grads[p];
    }
  }

  /** The views agree once every buffer and every gradient does. */
  lemma ViewsAgree(m: Machine, n: Machine)
    requires m.python == n.python && m.cpu == n.cpu && m.accelerator == n.accelerator && m.scalars == n.scalars
    requires m.fixed == n.fixed && m.buffers.Keys == n.buffers.Keys && m.grads.Keys == n.grads.Keys
    requires forall k | k in m.buffers :: ValueOf(m.store, m.buffers[k]) == ValueOf(n.store, n.buffers[k])
    requires forall p | p in m.grads :: ValueOf(m.store, m.grads[p]) == ValueOf(n.store, n.grads[p])
    ensures ViewOf(m) == ViewOf(n)
  {
    assert ViewOf(m).buffers == ViewOf(n).buffers;
    assert ViewOf(m).grads == ViewOf(n).grads;
  }

  lemma AddGradTwins(walk: seq<ModuleInfo>, m: Machine, n: Machine, p: Param, delta: seq<real>)
    requires Twins(walk, m, n) && p in m.grads && p in n.grads && m.grads[p].Some? && n.grads[p].Some?
    ensures Twins(walk, AddedAt(m, m.grads[p].value, delta), AddedAt(n, n.grads[p].value, delta))
  {
    hide WalkedBuffers, WalkedParams, ViewOf;
    var m', n' := AddedAt(m, m.grads[p].value, delta), AddedAt(n, n.grads[p].value, delta);
    SameValues(m, n);
    SameFixed(m, n);
    forall q | q in m'.grads ensures ValueOf(m'.store, m'.grads[q]) == ValueOf(n'.store, n'.grads[q]) {
      assert SameGrad(m, p, q) <==> SameGrad(n, p, q);
    }
    ViewsAgree(m', n');
    assert forall j, k :: SameBuffer(m, j, k) == SameBuffer(m', j, k) && SameBuffer(n, j, k) == SameBuffer(n', j, k);
    assert forall q, r :: SameGrad(m, q, r) == SameGrad(m', q, r) && SameGrad(n, q, r) == SameGrad(n', q, r);
  }

  lemma AddBufferTwins(walk: seq<ModuleInfo>, m: Machine, n: Machine, k: BufferKey, delta: seq<real>)
    requires Twins(walk, m, n) && k in m.buffers && k in n.buffers && m.buffers[k].Some? && n.buffers[k].Some?
    ensures Twins(walk, AddedAt(m, m.buffers[k].value, delta), AddedAt(n, n.buffers[k].value, delta))
  {
    hide WalkedBuffers, WalkedParams, ViewOf;
    var m', n' := AddedAt(m, m.buffers[k].value, delta), AddedAt(n, n.buffers[k].value, delta);
    SameValues(m, n);
    SameFixed(m, n);
    forall j | j in m'.buffers ensures ValueOf(m'.store, m'.buffers[j]) == ValueOf(n'.store, n'.buffers[j]) {
      assert SameBuffer(m, k, j) <==> SameBuffer(n, k, j);
    }
    ViewsAgree(m', n');
    assert forall i, j :: SameBuffer(m, i, j) == SameBuffer(m', i, j) && SameBuffer(n, i, j) == SameBuffer(n', i, j);
    assert forall q, r :: SameGrad(m, q, r) == SameGrad(m', q, r) && SameGrad(n, q, r) == SameGrad(n', q, r);
  }

  /** n is m with a new gradient tensor for p, shared with nothing. */
  ghost predicate HasNewGrad(m: Machine, n: Machine, p: Param, t: Tensor) {
    && n.(store := m.store, grads := m.grads) == m && n.grads.Keys == m.grads.Keys
    && (forall k | k in m.buffers :: ValueOf(n.store, m.buffers[k]) == ValueOf(m.store, m.buffers[k]))
    && (forall q | q in m.grads :: ValueOf(n.store, n.grads[q]) == if q == p then Some(t) else ValueOf(m.store, m.grads[q]))
    && (forall q, r :: SameGrad(n, q, r) <==> if q == p || r == p then q == r else SameGrad(m, q, r))
  }

  lemma NewGradApart(walk: seq<ModuleInfo>, m: Machine, p: Param, t: Tensor)
    requires Usable(walk, m) && p in m.grads
    ensures Usable(walk, NewGrad(m, p, t)) && HasNewGrad(m, NewGrad(m, p, t), p, t)
  {
    hide WalkedBuffers, WalkedParams, ViewOf;
    var a := NewAddr(m.store.Keys);
    assert forall q | q in m.grads && m.grads[q].Some? :: m.grads[q].value < a;
    assert forall k | k in m.buffers && m.buffers[k].Some? :: m.buffers[k].value < a;
  }

  lemma NewGradTwins(walk: seq<ModuleInfo>, m: Machine, n: Machine, p: Param, t: Tensor)
    requires Twins(walk, m, n) && p in m.grads && p in n.grads && m.grads[p].None? && n.grads[p].None?
    ensures Twins(walk, NewGrad(m, p, t), NewGrad(n, p, t))
  {
    hide NewGrad, SameGrad, ValueOf, ViewOf, Bound, Separate, WalkedBuffers, WalkedParams;
    TwinsBasics(walk, m, n);
    SameValues(m, n);
    NewGradApart(walk, m, p, t);
    NewGradApart(walk, n, p, t);
    var m', n' := NewGrad(m, p, t), NewGrad(n, p, t);
    SameFixed(m, n);
    ViewsAgree(m', n');
    assert forall j, k :: SameBuffer(m, j, k) == SameBuffer(m', j, k) && SameBuffer(n, j, k) == SameBuffer(n', j, k);
  }

  lemma SameFixed(m: Machine, n: Machine)
    requires ViewOf(m) == ViewOf(n)
    ensures m.python == n.python && m.cpu == n.cpu && m.accelerator == n.accelerator && m.scalars == n.scalars
    ensures m.fixed == n.fixed
  {
  }

  /** Machines with the same values, shared in the same way, stay so through a write. */
  lemma WriteTwins(walk: seq<ModuleInfo>, m: Machine, n: Machine, w: Write)
    requires Twins(walk, m, n)
    ensures Twins(walk, Written(m, w), Written(n, w))
  {
    hide Twins, AddedAt, NewGrad;
    TwinsBasics(walk, m, n);
    match w
    case AddToGrad(p, meta, delta) =>
      if p in m.grads {
        if m.grads[p].Some? {
          AddGradTwins(walk, m, n, p, delta(ViewOf(m)));
        } else {
          NewGradTwins(walk, m, n, p, Tensor(meta, delta(ViewOf(m))));
        }
      }
    case AddToBuffer(k, delta) =>
      if k in m.buffers && m.buffers[k].Some? {
        AddBufferTwins(walk, m, n, k, delta(ViewOf(m)));
      }
  }

  lemma TwinsBasics(walk: seq<ModuleInfo>, m: Machine, n: Machine)
    requires Twins(walk, m, n)
    ensures Bound(m) && Bound(n) && ViewOf(m) == ViewOf(n)
    ensures m.buffers.Keys == n.buffers.Keys && m.grads.Keys == n.grads.Keys
    ensures forall k | k in m.buffers :: m.buffers[k].Some? <==> n.buffers[k].Some?
    ensures forall p | p in m.grads :: m.grads[p].Some? <==> n.grads[p].Some?
  {
    SameValues(m, n);
  }

  // ---------- a whole execution ----------

  /** A write keeps every tensor allocated with its shape. */
  lemma WriteGrows(walk: seq<ModuleInfo>, m: Machine, w: Write)
    requires Usable(walk, m)
    ensures Grown(m, Written(m, w))
  {
    if w.AddToGrad? {
      assert NewAddr(m.store.Keys) !in m.store;
    }
  }

  ghost function AllWritten(walk: seq<ModuleInfo>, m: Machine, writes: seq<Write>): (n: Machine)
    requires Usable(walk, m)
    ensures Usable(walk, n) && Grown(m, n)
    decreases |writes|
  {
    if writes == [] then m
    else
      TwinOfItself(walk, m);
      WriteTwins(walk, m, m, writes[0]);
      UsableTwins(walk, Written(m, writes[0]), Written(m, writes[0]));
      WriteGrows(walk, m, writes[0]);
      AllWritten(walk, Written(m, writes[0]), writes[1..])
  }

  lemma TwinOfItself(walk: seq<ModuleInfo>, m: Machine)
    requires Usable(walk, m)
    ensures Twins(walk, m, m)
  {
  }

  lemma UsableTwins(walk: seq<ModuleInfo>, m: Machine, n: Machine)
    requires Twins(walk, m, n)
    ensures Usable(walk, m) && Usable(walk, n)
  {
  }

  lemma {:induction false} AllWrittenTwins(walk: seq<ModuleInfo>, m: Machine, n: Machine, writes: seq<Write>)
    requires Usable(walk, m) && Usable(walk, n) && Twins(walk, m, n)
    ensures Twins(walk, AllWritten(walk, m, writes), AllWritten(walk, n, writes))
    decreases |writes|
  {
    hide Twins, Written, WalkedBuffers, WalkedParams, Separate;
    if writes != [] {
      WriteTwins(walk, m, n, writes[0]);
      UsableTwins(walk, Written(m, writes[0]), Written(n, writes[0]));
      AllWrittenTwins(walk, Written(m, writes[0]), Written(n, writes[0]), writes[1..]);
    }
  }

  lemma TwinsFromBindings(walk: seq<ModuleInfo>, m: Machine, n: Machine)
    requires Usable(walk, m) && Usable(walk, n) && ViewOf(m) == ViewOf(n) && m.buffers == n.buffers && m.grads == n.grads
    ensures Twins(walk, m, n)
  {
  }

  /** A forward/backward that makes these writes in place and then returns its loss in a new tensor. */
  ghost function InPlace(walk: seq<ModuleInfo>, writes: seq<Write>, loss: View -> Tensor): Execution {
    m => if !Usable(walk, m) then (m, 0) else
      var n := AllWritten(walk, m, writes);
      var a := NewAddr(n.store.Keys);
      (n.(store := n.store[a := loss(ViewOf(n))]), a)
  }

  /** A new tensor that nothing is bound to is not seen. */
  lemma NewTensorUnseen(walk: seq<ModuleInfo>, m: Machine, t: Tensor)
    requires Usable(walk, m)
    ensures var a := NewAddr(m.store.Keys); var n := m.(store := m.store[a := t]);
      Usable(walk, n) && Grown(m, n) && ViewOf(n) == ViewOf(m)
  {
    var n := m.(store := m.store[NewAddr(m.store.Keys) := t]);
    ViewsAgree(n, m);
  }

  /** Executions that add to their gradients and buffers in place meet what the replayer asks of an execution: replaying
      one in the restored tensors leaves the same values, whichever tensors the gradients share. */
  lemma InPlaceIsDeterministic(walk: seq<ModuleInfo>, writes: seq<Write>, loss: View -> Tensor)
    ensures Deterministic(walk, InPlace(walk, writes, loss))
  {
    hide Twins, Written, WalkedBuffers, WalkedParams;
    var execute := InPlace(walk, writes, loss);
    forall m {:trigger execute(m)} | Usable(walk, m)
      ensures Usable(walk, execute(m).0) && Grown(m, execute(m).0) && execute(m).1 in execute(m).0.store
    {
      var n := AllWritten(walk, m, writes);
      NewTensorUnseen(walk, n, loss(ViewOf(n)));
    }
    forall m, n {:trigger execute(m), execute(n)} | Usable(walk, m) && Usable(walk, n) && ViewOf(m) == ViewOf(n) &&
        m.buffers == n.buffers && m.grads == n.grads
      ensures ViewOf(execute(m).0) == ViewOf(execute(n).0)
      ensures ValueOf(execute(m).0.store, Some(execute(m).1)) == ValueOf(execute(n).0.store, Some(execute(n).1))
    {
      TwinsFromBindings(walk, m, n);
      AllWrittenTwins(walk, m, n, writes);
      TwinsBasics(walk, AllWritten(walk, m, writes), AllWritten(walk, n, writes));
      NewTensorUnseen(walk, AllWritten(walk, m, writes), loss(ViewOf(AllWritten(walk, m, writes))));
      NewTensorUnseen(walk, AllWritten(walk, n, writes), loss(ViewOf(AllWritten(walk, n, writes))));
    }
  }
}
