/** Exactly which accepted redistributions keep the tensor: those whose shard orders, leaving out axes of size 1,
    change by at most the changed axis joining or leaving as the innermost shard. */
module SpmdExactness {
  import opened Sums
  import opened SpmdTypes
  import opened SpmdTensors
  import opened SpmdCollectives
  import opened SpmdSoundness

  // ---------- axes of size 1 do not matter ----------

  /** The axes of size above 1. */
  function Trim(mesh: Mesh, axes: seq<Axis>): seq<Axis> {
    if axes == [] then []
    else (if Size(mesh, axes[0]) > 1 then [axes[0]] else []) + Trim(mesh, axes[1..])
  }

  predicate NoRepeats(axes: seq<Axis>) {
    axes == [] || (axes[0] !in axes[1..] && NoRepeats(axes[1..]))
  }

  predicate Large(mesh: Mesh, axes: seq<Axis>) {
    forall x | x in axes :: Size(mesh, x) > 1
  }

  lemma {:induction false} TrimMembers(mesh: Mesh, axes: seq<Axis>)
    ensures forall x :: x in Trim(mesh, axes) <==> x in axes && Size(mesh, x) > 1
    ensures NoRepeats(axes) ==> NoRepeats(Trim(mesh, axes))
  {
    if axes != [] {
      TrimMembers(mesh, axes[1..]);
      var rest := Trim(mesh, axes[1..]);
      if Size(mesh, axes[0]) > 1 { assert ([axes[0]] + rest)[1..] == rest; } else { assert [] + rest == rest; }
    }
  }

  lemma {:induction false} NoRepeatsIs(axes: seq<Axis>)
    requires forall i, j | 0 <= i < j < |axes| :: axes[i] != axes[j]
    ensures NoRepeats(axes)
  {
    if axes != [] { NoRepeatsIs(axes[1..]); }
  }

  lemma {:induction false} TrimEven(mesh: Mesh, axes: seq<Axis>, n: nat)
    requires MeshOk(mesh) && Even(mesh, axes, n)
    ensures Even(mesh, Trim(mesh, axes), n) && Extent(mesh, Trim(mesh, axes), n) == Extent(mesh, axes, n)
  {
    if axes != [] {
      var m := Share(n, Size(mesh, axes[0]));
      TrimEven(mesh, axes[1..], m);
      var rest := Trim(mesh, axes[1..]);
      if Size(mesh, axes[0]) > 1 {
        assert ([axes[0]] + rest)[1..] == rest;
      } else {
        ShareOfOne(n);
        assert [] + rest == rest;
      }
    }
  }

  lemma {:induction false} TrimPosition(mesh: Mesh, axes: seq<Axis>, c: Coord, n: nat, i: int)
    requires MeshOk(mesh) && Even(mesh, axes, n) && Even(mesh, Trim(mesh, axes), n) && ValidCoord(mesh, c)
    ensures Position(mesh, Trim(mesh, axes), c, n, i) == Position(mesh, axes, c, n, i)
  {
    if axes != [] {
      var m := Share(n, Size(mesh, axes[0]));
      TrimEven(mesh, axes[1..], m);
      TrimPosition(mesh, axes[1..], c, m, i);
      var rest := Trim(mesh, axes[1..]);
      if Size(mesh, axes[0]) > 1 {
        assert ([axes[0]] + rest)[1..] == rest;
      } else {
        ShareOfOne(n);
        assert [] + rest == rest;
        assert Get(c, axes[0]) == 0;
      }
    }
  }

  function TrimView(mesh: Mesh, v: View): (w: View)
    ensures |w.order| == |v.order| && w.partials == v.partials
    ensures forall d | 0 <= d < |v.order| :: w.order[d] == Trim(mesh, v.order[d])
  {
    View(seq(|v.order|, d requires 0 <= d < |v.order| => Trim(mesh, v.order[d])), v.partials)
  }

  lemma TrimFits(mesh: Mesh, v: View, shape: seq<nat>)
    requires MeshOk(mesh) && ViewFits(mesh, v, shape)
    ensures ViewFits(mesh, TrimView(mesh, v), shape)
    ensures LocalShape(mesh, TrimView(mesh, v), shape) == LocalShape(mesh, v, shape)
  {
    forall d | 0 <= d < |shape|
      ensures Even(mesh, Trim(mesh, v.order[d]), shape[d])
      ensures Extent(mesh, Trim(mesh, v.order[d]), shape[d]) == Extent(mesh, v.order[d], shape[d])
    {
      TrimEven(mesh, v.order[d], shape[d]);
    }
  }

  /** A view and its trimmed form mean the same. */
  lemma TrimRepresents(mesh: Mesh, axes: seq<Axis>, v: View, shape: seq<nat>, global: Coord -> (seq<int> -> real),
                       locals: Locals)
    requires MeshOk(mesh) && ViewFits(mesh, v, shape)
    ensures ViewFits(mesh, TrimView(mesh, v), shape)
    ensures Represents(mesh, axes, v, shape, global, locals)
       <==> Represents(mesh, axes, TrimView(mesh, v), shape, global, locals)
  {
    TrimFits(mesh, v, shape);
    var w := TrimView(mesh, v);
    forall c: Coord, idx: seq<int> | ValidCoord(mesh, c) && |idx| == |shape|
      ensures GlobalIndex(mesh, w, c, shape, idx) == GlobalIndex(mesh, v, c, shape, idx)
    {
      forall d | 0 <= d < |shape|
        ensures Position(mesh, w.order[d], c, shape[d], idx[d]) == Position(mesh, v.order[d], c, shape[d], idx[d])
      {
        TrimPosition(mesh, v.order[d], c, shape[d], idx[d]);
      }
    }
  }

  // ---------- an innermost step is sound ----------

  /** Axis a has type t in the view. */
  predicate Typed(v: View, a: Axis, t: AxisType) {
    (a in v.partials <==> t == P) &&
    (t.S? ==> 0 <= Norm(t.dim, |v.order|) < |v.order|) &&
    forall d | 0 <= d < |v.order| :: a in v.order[d] <==> t.S? && Norm(t.dim, |v.order|) == d
  }

  /** Two views that differ at most in axis a, which is of type s in one and t in the other. */
  ghost predicate Changing(mesh: Mesh, v: View, w: View, a: Axis, s: AxisType, t: AxisType) {
    |v.order| == |w.order| && Typed(v, a, s) && Typed(w, a, t) && v.partials - {a} == w.partials - {a} &&
    (forall d | 0 <= d < |v.order| :: NoRepeats(v.order[d]) && NoRepeats(w.order[d])) &&
    (forall d | 0 <= d < |v.order| :: Large(mesh, v.order[d]) && Large(mesh, w.order[d])) &&
    forall d, x | 0 <= d < |v.order| && x != a :: x in v.order[d] <==> x in w.order[d]
  }

  lemma {:induction false} LastOnce(order: seq<Axis>, a: Axis)
    requires NoRepeats(order + [a])
    ensures a !in order && NoRepeats(order)
  {
    if order != [] {
      assert (order + [a])[1..] == order[1..] + [a];
      LastOnce(order[1..], a);
      assert a in order[1..] + [a] && order[0] !in order[1..] + [a];
    }
  }

  /** At one dim of an innermost step: a joins what both sides share, or is in the same place on both. */
  lemma StepAt(v: seq<Axis>, w: seq<Axis>, a: Axis)
    requires InnermostStep(v, w, {a}) && NoRepeats(v) && NoRepeats(w)
    ensures (a in v <==> a in w) ==> v == w
    ensures a in v && a !in w ==> v == w + [a]
    ensures a !in v && a in w ==> w == v + [a]
  {
    if w == v + [a] { LastOnce(v, a); }
    if v == w + [a] { LastOnce(w, a); }
  }

  lemma StepSound(mesh: Mesh, axes: seq<Axis>, v: View, w: View, a: Axis, s: AxisType, t: AxisType, shape: seq<nat>,
                  global: Coord -> (seq<int> -> real), locals: Locals)
    requires Setting(mesh, axes, a, global) && Changing(mesh, v, w, a, s, t) && |v.order| == |shape|
    requires ViewFits(mesh, v, shape) && ViewFits(mesh, w, shape)
    requires forall d | 0 <= d < |v.order| :: InnermostStep(v.order[d], w.order[d], {a})
    requires Represents(mesh, axes, v, shape, global, locals)
    ensures Represents(mesh, axes, w, shape, global, AxisRedistribute(mesh, a, s, t, |shape|, locals))
  {
    hide Represents, InnermostStep, Large, NoRepeats, Even;
    forall d | 0 <= d < |v.order|
      ensures (a in v.order[d] <==> a in w.order[d]) ==> v.order[d] == w.order[d]
      ensures a in v.order[d] && a !in w.order[d] ==> v.order[d] == w.order[d] + [a]
      ensures a !in v.order[d] && a in w.order[d] ==> w.order[d] == v.order[d] + [a]
    {
      StepAt(v.order[d], w.order[d], a);
    }
    if s.S? && t.S? && Norm(s.dim, |shape|) == Norm(t.dim, |shape|) {
      assert v.partials - {a} == v.partials && w.partials - {a} == w.partials;
      assert v.order == w.order;
      GatherThenSlice(mesh, axes, v, a, Norm(s.dim, |shape|), shape, global, locals);
    } else {
      var mid := if s.S? then View(v.order[Norm(s.dim, |shape|) := w.order[Norm(s.dim, |shape|)]], v.partials - {a})
                 else View(v.order, v.partials - {a});
      assert Absent(mid, a);
      assert v == Join(mid, a, s);
      assert w.order == Join(mid, a, t).order && w.partials == Join(mid, a, t).partials;
      MidFits(mesh, mid, a, s, shape);
      LeaveAxis(mesh, axes, mid, a, s, shape, global, locals);
      JoinAxis(mesh, axes, mid, a, t, shape, global, ToReplicated(mesh, a, s, |shape|, locals));
    }
  }

  lemma {:induction false} ShareOfOffset(s: nat, m: nat)
    requires s > 0
    ensures Splits(Offset(s, m), s) && Share(Offset(s, m), s) == m
  {
    OffsetIsProduct(s, m);
    QuotientUnique(s * m, s, m, 0);
    SplitsIsDivisibility(s * m, s);
  }

  lemma BackAgain(mesh: Mesh, at: Reading, a: Axis, d: nat, m: nat, c: Coord, idx: seq<int>)
    requires a in c && c[a] >= 0 && d < |idx| && 0 <= idx[d] < m
    ensures SliceAt(GatherAt(at, a, d, m), a, d, m)(c, idx) == at(c, idx)
  {
    var moved := idx[d := Offset(c[a], m) + idx[d]];
    BlockOfOffset(c[a], m, idx[d]);
    assert Get(c, a) == c[a] && Component(idx, d) == idx[d] && Replace(idx, d, moved[d]) == moved;
    assert Component(moved, d) == moved[d] && Replace(moved, d, idx[d]) == idx && c[a := c[a]] == c;
    var gather := GatherAt(at, a, d, m);
    assert gather(c, moved) == at(c[a := c[a]], idx);
  }

  /** Gathering a dim and slicing it again by the same axis changes nothing, wherever the axis is nested. */
  lemma GatherThenSlice(mesh: Mesh, axes: seq<Axis>, v: View, a: Axis, d: nat, shape: seq<nat>,
                        global: Coord -> (seq<int> -> real), locals: Locals)
    requires Setting(mesh, axes, a, global) && d < |shape| && a !in v.partials && ViewFits(mesh, v, shape)
    requires Represents(mesh, axes, v, shape, global, locals)
    ensures Represents(mesh, axes, v, shape, global, Sliced(mesh, a, d, AllGathered(mesh, a, d, locals)))
  {
    hide Reads, Represents, ReadingOf, LocalShape, ViewFits, GatherAt, SliceAt, AllGathered, Sliced, Offset, Share, Splits;
    var local, at, s := LocalShape(mesh, v, shape), ReadingOf(mesh, v, shape), Size(mesh, a);
    var m := local[d];
    var gathered := AllGathered(mesh, a, d, locals);
    RepresentsReads(mesh, axes, v, shape, global, locals);
    GatherReads(mesh, axes, v.partials, local, at, global, locals, a, d);
    ShareOfOffset(s, m);
    SliceReads(mesh, axes, v.partials, local[d := Offset(s, m)], GatherAt(at, a, d, m), global, gathered, a, d);
    assert local[d := Offset(s, m)][d := m] == local;
    var back := SliceAt(GatherAt(at, a, d, m), a, d, m);
    forall c: Coord, idx: seq<int> | ValidCoord(mesh, c) && InShape(idx, local)
      ensures back(c, idx) == at(c, idx)
    {
      BackAgain(mesh, at, a, d, m, c, idx);
    }
    ReadsSame(mesh, axes, v.partials, local, back, at, global, Sliced(mesh, a, d, gathered));
    RepresentsReads(mesh, axes, v, shape, global, Sliced(mesh, a, d, gathered));
  }

  // ---------- which order an order is: the offset one step along each axis makes ----------

  function Origin(mesh: Mesh): Coord {
    map a | a in mesh :: 0
  }

  function OneAlong(mesh: Mesh, x: Axis): Coord {
    Origin(mesh)[x := 1]
  }

  /** The global position of the first element of the rank one step along x. */
  function Unit(mesh: Mesh, order: seq<Axis>, x: Axis, n: nat): int
    requires Even(mesh, order, n)
  {
    Position(mesh, order, OneAlong(mesh, x), n, 0)
  }

  lemma {:induction false} PositionAtOrigin(mesh: Mesh, order: seq<Axis>, x: Axis, n: nat, i: int)
    requires Even(mesh, order, n) && x !in order
    ensures Position(mesh, order, OneAlong(mesh, x), n, i) == i && Position(mesh, order, Origin(mesh), n, i) == i
  {
    if order != [] {
      PositionAtOrigin(mesh, order[1..], x, Share(n, Size(mesh, order[0])), i);
      assert Get(OneAlong(mesh, x), order[0]) == 0 == Get(Origin(mesh), order[0]);
    }
  }

  lemma SharePositive(n: nat, parts: nat)
    requires n > 0 && parts > 0 && Splits(n, parts)
    ensures Share(n, parts) > 0 && Share(n, parts) * parts == n && (parts > 1 ==> Share(n, parts) < n)
  {
    SplitsIsDivisibility(n, parts);
    var q := n / parts;
    assert q * parts == n;
    if parts > 1 { assert q * parts == q * 2 + q * (parts - 2); NonNegative(q, parts - 2); }
  }

  lemma NonNegative(a: nat, b: nat)
    ensures a * b >= 0
  {
  }

  lemma {:induction false} ExtentPositive(mesh: Mesh, order: seq<Axis>, n: nat)
    requires Even(mesh, order, n) && n > 0
    ensures 0 < Extent(mesh, order, n) <= n
  {
    if order != [] {
      SharePositive(n, Size(mesh, order[0]));
      ExtentPositive(mesh, order[1..], Share(n, Size(mesh, order[0])));
    }
  }

  /** The unit of the outermost axis is its share; any other axis adds up to less than the whole. */
  lemma {:induction false} UnitOfFirst(mesh: Mesh, order: seq<Axis>, n: nat)
    requires order != [] && NoRepeats(order) && Even(mesh, order, n)
    ensures Unit(mesh, order, order[0], n) == Share(n, Size(mesh, order[0]))
  {
    var x, m := order[0], Share(n, Size(mesh, order[0]));
    PositionAtOrigin(mesh, order[1..], x, m, 0);
    assert Offset(1, m) == Offset(0, m) + m == m;
  }

  lemma UnitOfLater(mesh: Mesh, order: seq<Axis>, x: Axis, n: nat)
    requires order != [] && order[0] != x && Even(mesh, order, n)
    ensures Unit(mesh, order, x, n) == Unit(mesh, order[1..], x, Share(n, Size(mesh, order[0])))
  {
    assert Get(OneAlong(mesh, x), order[0]) == 0;
  }

  lemma {:induction false} UnitBound(mesh: Mesh, order: seq<Axis>, x: Axis, n: nat)
    requires x in order && NoRepeats(order) && Large(mesh, order) && Even(mesh, order, n) && n > 0
    ensures 0 < Unit(mesh, order, x, n) && Unit(mesh, order, x, n) * Size(mesh, x) <= n
  {
    SharePositive(n, Size(mesh, order[0]));
    if order[0] == x {
      UnitOfFirst(mesh, order, n);
    } else {
      UnitOfLater(mesh, order, x, n);
      UnitBound(mesh, order[1..], x, Share(n, Size(mesh, order[0])));
    }
  }

  lemma FirstMember(order: seq<Axis>)
    requires order != []
    ensures order[0] in order
  {
  }

  /** Two orders of the same axes differ in the unit of some axis. */
  lemma {:induction false} UnitsDiffer(mesh: Mesh, p: seq<Axis>, q: seq<Axis>, n: nat) returns (x: Axis)
    requires p != q && NoRepeats(p) && NoRepeats(q) && Large(mesh, p) && forall y :: y in p <==> y in q
    requires Even(mesh, p, n) && Even(mesh, q, n) && n > 0
    ensures x in p && Unit(mesh, p, x, n) != Unit(mesh, q, x, n)
  {
    if p == [] {
      FirstMember(q);
      assert false;
    } else {
      FirstMember(p);
      assert q != [];
      FirstMember(q);
      var m := Share(n, Size(mesh, q[0]));
      SharePositive(n, Size(mesh, q[0]));
      x := p[0];
      if p[0] == q[0] {
        assert forall y :: y in p[1..] <==> y in p && y != p[0];
        assert forall y :: y in q[1..] <==> y in q && y != q[0];
        x := UnitsDiffer(mesh, p[1..], q[1..], m);
        UnitOfLater(mesh, p, x, n);
        UnitOfLater(mesh, q, x, n);
      } else {
        assert x in q[1..];
        UnitOfFirst(mesh, p, n);
        SharePositive(n, Size(mesh, x));
        UnitOfLater(mesh, q, x, n);
        UnitBound(mesh, q[1..], x, m);
      }
    }
  }

  lemma ExtentBelow(mesh: Mesh, order: seq<Axis>, n: nat)
    requires order != [] && Large(mesh, order) && Even(mesh, order, n) && n > 0
    ensures Extent(mesh, order, n) < n
  {
    assert order[0] in order;
    SharePositive(n, Size(mesh, order[0]));
    ExtentPositive(mesh, order[1..], Share(n, Size(mesh, order[0])));
  }

  /** Only the innermost axis has a unit as small as the local extent. */
  lemma {:induction false} UnitLast(mesh: Mesh, order: seq<Axis>, a: Axis, n: nat)
    requires a in order && NoRepeats(order) && Large(mesh, order) && Even(mesh, order, n) && n > 0
    ensures Unit(mesh, order, a, n) == Extent(mesh, order, n) ==> order[|order| - 1] == a
  {
    var m := Share(n, Size(mesh, order[0]));
    SharePositive(n, Size(mesh, order[0]));
    if order[0] == a {
      UnitOfFirst(mesh, order, n);
      if order[1..] != [] { ExtentBelow(mesh, order[1..], m); }
    } else {
      UnitOfLater(mesh, order, a, n);
      UnitLast(mesh, order[1..], a, m);
    }
  }

  lemma UnitOfInit(mesh: Mesh, order: seq<Axis>, a: Axis, x: Axis, n: nat)
    requires Even(mesh, order + [a], n) && x != a
    ensures Even(mesh, order, n) && Unit(mesh, order + [a], x, n) == Unit(mesh, order, x, n)
  {
    assert Get(OneAlong(mesh, x), a) == 0;
    EvenAppend(mesh, order, a, n);
    PositionAppend(mesh, order, a, OneAlong(mesh, x), n, 0);
  }

  // ---------- where the entries lie after a one-axis redistribution ----------

  function ReplicatedShape(mesh: Mesh, v: View, a: Axis, s: AxisType, shape: seq<nat>): (r: seq<nat>)
    requires ViewFits(mesh, v, shape) && (s.S? ==> 0 <= Norm(s.dim, |shape|) < |shape|)
    ensures |r| == |shape|
  {
    var local := LocalShape(mesh, v, shape);
    if s.S? then local[Norm(s.dim, |shape|) := Offset(Size(mesh, a), local[Norm(s.dim, |shape|)])] else local
  }

  function ReplicatedReading(mesh: Mesh, v: View, a: Axis, s: AxisType, shape: seq<nat>): Reading
    requires ViewFits(mesh, v, shape) && (s.S? ==> 0 <= Norm(s.dim, |shape|) < |shape|)
  {
    var at := ReadingOf(mesh, v, shape);
    if s.S? then GatherAt(at, a, Norm(s.dim, |shape|), LocalShape(mesh, v, shape)[Norm(s.dim, |shape|)]) else at
  }

  lemma ReplicatedReads(mesh: Mesh, axes: seq<Axis>, v: View, a: Axis, s: AxisType, shape: seq<nat>,
                        global: Coord -> (seq<int> -> real), locals: Locals)
    requires Setting(mesh, axes, a, global) && |v.order| == |shape| && Typed(v, a, s) && ViewFits(mesh, v, shape)
    requires Represents(mesh, axes, v, shape, global, locals)
    ensures Reads(mesh, axes, v.partials - {a}, ReplicatedShape(mesh, v, a, s, shape),
                  ReplicatedReading(mesh, v, a, s, shape), global, ToReplicated(mesh, a, s, |shape|, locals))
  {
    RepresentsReads(mesh, axes, v, shape, global, locals);
    var local, at := LocalShape(mesh, v, shape), ReadingOf(mesh, v, shape);
    hide Reads, Represents, ReadingOf, LocalShape, ViewFits;
    match s
    case P => ReduceReads(mesh, axes, v.partials, local, at, global, locals, a);
    case S(dim) =>
      assert v.partials - {a} == v.partials;
      GatherReads(mesh, axes, v.partials, local, at, global, locals, a, Norm(dim, |shape|));
    case _ => assert v.partials - {a} == v.partials;
  }

  function NewShape(mesh: Mesh, a: Axis, t: AxisType, whole: seq<nat>): seq<nat>
    requires t.S? ==> 0 <= Norm(t.dim, |whole|) < |whole| && Divisible(whole[Norm(t.dim, |whole|)], Size(mesh, a))
  {
    if t.S? then whole[Norm(t.dim, |whole|) := Share(whole[Norm(t.dim, |whole|)], Size(mesh, a))] else whole
  }

  function NewReading(mesh: Mesh, a: Axis, t: AxisType, whole: seq<nat>, at: Reading): Reading
    requires t.S? ==> 0 <= Norm(t.dim, |whole|) < |whole| && Divisible(whole[Norm(t.dim, |whole|)], Size(mesh, a))
  {
    match t
    case P => (c, idx) => at(c[a := 0], idx)
    case S(dim) => SliceAt(at, a, Norm(dim, |whole|), Share(whole[Norm(dim, |whole|)], Size(mesh, a)))
    case _ => at
  }

  lemma NewReads(mesh: Mesh, axes: seq<Axis>, partials: set<Axis>, whole: seq<nat>, at: Reading, a: Axis, t: AxisType,
                 global: Coord -> (seq<int> -> real), locals: Locals)
    requires Setting(mesh, axes, a, global) && a !in partials && Reads(mesh, axes, partials, whole, at, global, locals)
    requires t.S? ==> 0 <= Norm(t.dim, |whole|) < |whole| && Divisible(whole[Norm(t.dim, |whole|)], Size(mesh, a))
    ensures Reads(mesh, axes, if t == P then partials + {a} else partials, NewShape(mesh, a, t, whole),
                  NewReading(mesh, a, t, whole, at), global, FromReplicated(mesh, a, t, |whole|, locals))
  {
    match t
    case P => PartialReads(mesh, axes, partials, whole, at, global, locals, a);
    case S(dim) => SliceReads(mesh, axes, partials, whole, at, global, locals, a, Norm(dim, |whole|));
    case _ =>
  }

  // ---------- any other step shows on a ramp ----------

  function Ramp(d: nat): seq<int> -> real {
    idx => if d < |idx| then idx[d] as real else 0.0
  }

  /** The tensor whose entries are their own positions along d, the same on every rank. */
  function Ramps(d: nat): Coord -> (seq<int> -> real) {
    c => Ramp(d)
  }

  lemma TwoReadings(mesh: Mesh, axes: seq<Axis>, partials: set<Axis>, shape: seq<nat>, at: Reading, shape': seq<nat>,
                    at': Reading, d: nat, locals: Locals, c: Coord, idx: seq<int>)
    requires Reads(mesh, axes, partials, shape, at, Ramps(d), locals)
    requires Reads(mesh, axes, partials, shape', at', Ramps(d), locals)
    requires ValidCoord(mesh, c) && InShape(idx, shape')
    requires d < |at(c, idx)| && d < |at'(c, idx)|
    ensures shape == shape' && at(c, idx)[d] == at'(c, idx)[d]
  {
    assert Ramps(d)(c) == Ramp(d);
  }

  function Zeros(n: nat): (z: seq<int>)
    ensures |z| == n && forall i | 0 <= i < n :: z[i] == 0
  {
    seq(n, i => 0)
  }

  predicate NonEmpty(shape: seq<nat>) {
    forall d | 0 <= d < |shape| :: shape[d] > 0
  }

  lemma LocalPositive(mesh: Mesh, v: View, shape: seq<nat>)
    requires ViewFits(mesh, v, shape) && NonEmpty(shape)
    ensures NonEmpty(LocalShape(mesh, v, shape))
  {
    forall d | 0 <= d < |shape| ensures LocalShape(mesh, v, shape)[d] > 0 {
      ExtentPositive(mesh, v.order[d], shape[d]);
    }
  }

  lemma OriginValid(mesh: Mesh, x: Axis)
    requires MeshOk(mesh) && Size(mesh, x) > 1
    ensures ValidCoord(mesh, Origin(mesh)) && ValidCoord(mesh, OneAlong(mesh, x))
  {
  }

  lemma FirstOfBlock(q: nat, m: nat)
    requires m > 0
    ensures BlockOf(Offset(q, m), m) == q && Within(Offset(q, m), m) == 0
  {
    BlockOfOffset(q, m, 0);
  }

  /** One step along another axis: the first entry is the first entry of that rank before. */
  lemma SourceAlong(mesh: Mesh, v: View, a: Axis, s: AxisType, t: AxisType, shape: seq<nat>, whole: seq<nat>, x: Axis)
    requires MeshOk(mesh) && ViewFits(mesh, v, shape) && NonEmpty(shape) && a in mesh && x != a
    requires s.S? ==> 0 <= Norm(s.dim, |shape|) < |shape|
    requires whole == ReplicatedShape(mesh, v, a, s, shape)
    requires t.S? ==> 0 <= Norm(t.dim, |shape|) < |shape| && Divisible(whole[Norm(t.dim, |shape|)], Size(mesh, a))
    ensures var c, z := OneAlong(mesh, x), Zeros(|shape|);
            NewReading(mesh, a, t, whole, ReplicatedReading(mesh, v, a, s, shape))(c, z) == GlobalIndex(mesh, v, c, shape, z)
  {
    var c, z, at := OneAlong(mesh, x), Zeros(|shape|), ReplicatedReading(mesh, v, a, s, shape);
    LocalPositive(mesh, v, shape);
    assert c[a := 0] == c && Get(c, a) == 0;
    assert at(c, z) == GlobalIndex(mesh, v, c, shape, z) by {
      if s.S? {
        var e, m := Norm(s.dim, |shape|), LocalShape(mesh, v, shape)[Norm(s.dim, |shape|)];
        FirstOfBlock(0, m);
        assert Component(z, e) == 0 && Replace(z, e, 0) == z;
      }
    }
    if t.S? {
      var f, m := Norm(t.dim, |shape|), Share(whole[Norm(t.dim, |shape|)], Size(mesh, a));
      assert Offset(0, m) == 0 && Component(z, f) == 0 && Replace(z, f, 0) == z;
    }
  }

  /** The first entry past the first block of a gathered dim is the first entry one step along a. */
  lemma SourceOfGathered(mesh: Mesh, v: View, a: Axis, s: AxisType, t: AxisType, shape: seq<nat>, whole: seq<nat>, d: nat)
    requires MeshOk(mesh) && ViewFits(mesh, v, shape) && NonEmpty(shape) && a in mesh
    requires s.S? && d == Norm(s.dim, |shape|) < |shape| && !(t.S? && Norm(t.dim, |shape|) == d)
    requires whole == ReplicatedShape(mesh, v, a, s, shape)
    requires t.S? ==> 0 <= Norm(t.dim, |shape|) < |shape| && Divisible(whole[Norm(t.dim, |shape|)], Size(mesh, a))
    ensures var idx := Zeros(|shape|)[d := Extent(mesh, v.order[d], shape[d])];
            var at := ReplicatedReading(mesh, v, a, s, shape);
            NewReading(mesh, a, t, whole, at)(Origin(mesh), idx) ==
            GlobalIndex(mesh, v, OneAlong(mesh, a), shape, Zeros(|shape|))
  {
    var m, z, at := LocalShape(mesh, v, shape)[d], Zeros(|shape|), ReplicatedReading(mesh, v, a, s, shape);
    var c, idx := Origin(mesh), z[d := m];
    LocalPositive(mesh, v, shape);
    assert c[a := 0] == c && Get(c, a) == 0;
    assert at(c, idx) == GlobalIndex(mesh, v, OneAlong(mesh, a), shape, z) by {
      FirstOfBlock(1, m);
      assert Offset(1, m) == Offset(0, m) + m == m;
      assert Component(idx, d) == m && Replace(idx, d, 0) == z && c[a := 1] == OneAlong(mesh, a);
    }
    if t.S? {
      var f, n := Norm(t.dim, |shape|), Share(whole[Norm(t.dim, |shape|)], Size(mesh, a));
      assert Offset(0, n) == 0 && Component(idx, f) == 0 && Replace(idx, f, 0) == idx;
    }
  }

  /** One step along a, the first entry of a sliced dim is entry m of what was whole. */
  lemma SourceOfSliced(mesh: Mesh, v: View, a: Axis, s: AxisType, t: AxisType, shape: seq<nat>, whole: seq<nat>, d: nat)
    requires MeshOk(mesh) && ViewFits(mesh, v, shape) && NonEmpty(shape) && a in mesh
    requires t.S? && d == Norm(t.dim, |shape|) < |shape| && !(s.S? && Norm(s.dim, |shape|) == d) && a !in v.order[d]
    requires s.S? ==> 0 <= Norm(s.dim, |shape|) < |shape|
    requires whole == ReplicatedShape(mesh, v, a, s, shape) && Divisible(whole[d], Size(mesh, a))
    ensures var at := ReplicatedReading(mesh, v, a, s, shape);
            var from := NewReading(mesh, a, t, whole, at)(OneAlong(mesh, a), Zeros(|shape|));
            |from| == |shape| && from[d] == Share(whole[d], Size(mesh, a))
  {
    var m, z, at := Share(whole[d], Size(mesh, a)), Zeros(|shape|), ReplicatedReading(mesh, v, a, s, shape);
    var c, idx := OneAlong(mesh, a), z[d := m];
    LocalPositive(mesh, v, shape);
    assert Offset(1, m) == Offset(0, m) + m == m;
    assert Get(c, a) == 1 && Component(z, d) == 0 && Replace(z, d, m) == idx;
    PositionAtOrigin(mesh, v.order[d], a, shape[d], m);
    if s.S? {
      var e, n := Norm(s.dim, |shape|), LocalShape(mesh, v, shape)[Norm(s.dim, |shape|)];
      FirstOfBlock(0, n);
      assert Component(idx, e) == 0 && Replace(idx, e, 0) == idx && c[a := 0] == Origin(mesh);
      assert at(c, idx) == GlobalIndex(mesh, v, Origin(mesh), shape, idx);
    } else {
      assert at(c, idx) == GlobalIndex(mesh, v, c, shape, idx);
    }
  }

  /** Gathered and sliced along one dim, a rank's first entry is the one it had. */
  lemma SourceOfBoth(mesh: Mesh, v: View, a: Axis, s: AxisType, t: AxisType, shape: seq<nat>, whole: seq<nat>, d: nat)
    requires MeshOk(mesh) && ViewFits(mesh, v, shape) && NonEmpty(shape) && a in mesh
    requires s.S? && t.S? && d == Norm(s.dim, |shape|) == Norm(t.dim, |shape|) < |shape|
    requires whole == ReplicatedShape(mesh, v, a, s, shape) && Divisible(whole[d], Size(mesh, a))
    ensures NewReading(mesh, a, t, whole, ReplicatedReading(mesh, v, a, s, shape))(OneAlong(mesh, a), Zeros(|shape|))
         == GlobalIndex(mesh, v, OneAlong(mesh, a), shape, Zeros(|shape|))
  {
    var m := LocalShape(mesh, v, shape)[d];
    LocalPositive(mesh, v, shape);
    ShareOfOffset(Size(mesh, a), m);
    BackAgain(mesh, ReadingOf(mesh, v, shape), a, d, m, OneAlong(mesh, a), Zeros(|shape|));
  }

  lemma SliceDivides(mesh: Mesh, axes: seq<Axis>, w: View, a: Axis, t: AxisType, shape: seq<nat>, whole: seq<nat>,
                     global: Coord -> (seq<int> -> real), between: Locals)
    requires MeshOk(mesh) && |w.order| == |shape| == |whole| && Typed(w, a, t) && ViewFits(mesh, w, shape) && NonEmpty(shape)
    requires Size(mesh, a) > 1 && forall c | ValidCoord(mesh, c) :: between(c).shape == whole
    requires Represents(mesh, axes, w, shape, global, FromReplicated(mesh, a, t, |shape|, between))
    ensures t.S? ==> Divisible(whole[Norm(t.dim, |shape|)], Size(mesh, a))
  {
    if t.S? {
      var c, f := Origin(mesh), Norm(t.dim, |shape|);
      OriginValid(mesh, a);
      LocalPositive(mesh, w, shape);
      var sliced := Sliced(mesh, a, f, between);
      assert sliced(c).shape == LocalShape(mesh, w, shape);
      assert between(c).shape == whole && DimOf(between(c), f) == whole[f];
      assert sliced(c).shape[f] == if Divisible(whole[f], Size(mesh, a)) then Share(whole[f], Size(mesh, a)) else 0;
    }
  }

  lemma SameUnit(mesh: Mesh, axes: seq<Axis>, v: View, w: View, shape: seq<nat>, after: seq<nat>, from: Reading,
                 result: Locals, d: nat, x: Axis)
    requires MeshOk(mesh) && Size(mesh, x) > 1 && d < |shape| && NonEmpty(shape) && ViewFits(mesh, v, shape) && ViewFits(mesh, w, shape)
    requires Reads(mesh, axes, w.partials, after, from, Ramps(d), result)
    requires Represents(mesh, axes, w, shape, Ramps(d), result)
    requires from(OneAlong(mesh, x), Zeros(|shape|)) == GlobalIndex(mesh, v, OneAlong(mesh, x), shape, Zeros(|shape|))
    ensures Unit(mesh, v.order[d], x, shape[d]) == Unit(mesh, w.order[d], x, shape[d])
  {
    RepresentsReads(mesh, axes, w, shape, Ramps(d), result);
    OriginValid(mesh, x);
    LocalPositive(mesh, w, shape);
    var c, z := OneAlong(mesh, x), Zeros(|shape|);
    assert ReadingOf(mesh, w, shape)(c, z) == GlobalIndex(mesh, w, c, shape, z);
    TwoReadings(mesh, axes, w.partials, after, from, LocalShape(mesh, w, shape), ReadingOf(mesh, w, shape), d, result, c, z);
  }

  lemma GatheredLast(mesh: Mesh, axes: seq<Axis>, v: View, w: View, a: Axis, shape: seq<nat>, after: seq<nat>,
                     from: Reading, result: Locals, d: nat)
    requires MeshOk(mesh) && Size(mesh, a) > 1 && d < |shape| && NonEmpty(shape) && ViewFits(mesh, v, shape) && ViewFits(mesh, w, shape)
    requires Reads(mesh, axes, w.partials, after, from, Ramps(d), result)
    requires Represents(mesh, axes, w, shape, Ramps(d), result)
    requires a !in w.order[d] && |after| == |shape|
    requires after[d] == Offset(Size(mesh, a), Extent(mesh, v.order[d], shape[d]))
    requires from(Origin(mesh), Zeros(|shape|)[d := Extent(mesh, v.order[d], shape[d])])
          == GlobalIndex(mesh, v, OneAlong(mesh, a), shape, Zeros(|shape|))
    ensures Unit(mesh, v.order[d], a, shape[d]) == Extent(mesh, v.order[d], shape[d])
  {
    RepresentsReads(mesh, axes, w, shape, Ramps(d), result);
    OriginValid(mesh, a);
    LocalPositive(mesh, w, shape);
    LocalPositive(mesh, v, shape);
    var c, m := Origin(mesh), Extent(mesh, v.order[d], shape[d]);
    var idx := Zeros(|shape|)[d := m];
    OffsetBound(1, Size(mesh, a), m);
    assert Offset(1, m) == Offset(0, m) + m == m && m > 0;
    assert after == LocalShape(mesh, w, shape);
    assert ReadingOf(mesh, w, shape)(c, idx) == GlobalIndex(mesh, w, c, shape, idx);
    TwoReadings(mesh, axes, w.partials, after, from, LocalShape(mesh, w, shape), ReadingOf(mesh, w, shape), d, result, c, idx);
    PositionAtOrigin(mesh, w.order[d], a, shape[d], m);
  }

  lemma SlicedLast(mesh: Mesh, axes: seq<Axis>, w: View, a: Axis, shape: seq<nat>, after: seq<nat>, from: Reading,
                   result: Locals, d: nat)
    requires MeshOk(mesh) && Size(mesh, a) > 1 && d < |shape| && NonEmpty(shape) && ViewFits(mesh, w, shape)
    requires Reads(mesh, axes, w.partials, after, from, Ramps(d), result)
    requires Represents(mesh, axes, w, shape, Ramps(d), result)
    requires |after| == |shape| == |from(OneAlong(mesh, a), Zeros(|shape|))|
    requires from(OneAlong(mesh, a), Zeros(|shape|))[d] == after[d]
    ensures Unit(mesh, w.order[d], a, shape[d]) == Extent(mesh, w.order[d], shape[d])
  {
    RepresentsReads(mesh, axes, w, shape, Ramps(d), result);
    OriginValid(mesh, a);
    LocalPositive(mesh, w, shape);
    var c, z := OneAlong(mesh, a), Zeros(|shape|);
    assert ReadingOf(mesh, w, shape)(c, z) == GlobalIndex(mesh, w, c, shape, z);
    TwoReadings(mesh, axes, w.partials, after, from, LocalShape(mesh, w, shape), ReadingOf(mesh, w, shape), d, result, c, z);
  }

  /** On a ramp along d, only an innermost step at d represents the same tensor afterwards. */
  lemma StepNeeded(mesh: Mesh, axes: seq<Axis>, v: View, w: View, a: Axis, s: AxisType, t: AxisType, shape: seq<nat>,
                   locals: Locals, d: nat)
    requires Setting(mesh, axes, a, Ramps(d)) && Size(mesh, a) > 1 && Changing(mesh, v, w, a, s, t)
    requires |v.order| == |shape| && d < |shape| && NonEmpty(shape) && ViewFits(mesh, v, shape) && ViewFits(mesh, w, shape)
    requires Represents(mesh, axes, v, shape, Ramps(d), locals)
    requires Represents(mesh, axes, w, shape, Ramps(d), AxisRedistribute(mesh, a, s, t, |shape|, locals))
    ensures InnermostStep(v.order[d], w.order[d], {a})
  {
    hide Reads, Represents, GatherAt, SliceAt, ReadingOf, ToReplicated, FromReplicated, Ramps, Unit, Position, Extent, Even;
    var whole, at := ReplicatedShape(mesh, v, a, s, shape), ReplicatedReading(mesh, v, a, s, shape);
    var between, result := ToReplicated(mesh, a, s, |shape|, locals), AxisRedistribute(mesh, a, s, t, |shape|, locals);
    ReplicatedReads(mesh, axes, v, a, s, shape, Ramps(d), locals);
    ShapesRead(mesh, axes, v.partials - {a}, whole, at, Ramps(d), between);
    SliceDivides(mesh, axes, w, a, t, shape, whole, Ramps(d), between);
    NewReads(mesh, axes, v.partials - {a}, whole, at, a, t, Ramps(d), between);
    var after, from := NewShape(mesh, a, t, whole), NewReading(mesh, a, t, whole, at);
    assert w.partials == if t == P then v.partials - {a} + {a} else v.partials - {a};
    hide NewReading, ReplicatedReading, NewShape, ReplicatedShape;
    AnyOtherAxis(mesh, axes, v, w, a, s, t, shape, whole, after, from, result, d);
    if a in v.order[d] && a in w.order[d] {
      SourceOfBoth(mesh, v, a, s, t, shape, whole, d);
      SameUnit(mesh, axes, v, w, shape, after, from, result, d, a);
    } else if a in v.order[d] {
      SourceOfGathered(mesh, v, a, s, t, shape, whole, d);
      GatheredShape(mesh, v, a, s, t, shape, whole, after, d);
      GatheredLast(mesh, axes, v, w, a, shape, after, from, result, d);
      UnitLast(mesh, v.order[d], a, shape[d]);
    } else if a in w.order[d] {
      SourceOfSliced(mesh, v, a, s, t, shape, whole, d);
      SlicedShape(mesh, v, a, t, whole, after, d);
      SlicedLast(mesh, axes, w, a, shape, after, from, result, d);
      UnitLast(mesh, w.order[d], a, shape[d]);
    }
    UnitsDecide(mesh, v.order[d], w.order[d], a, shape[d]);
  }

  lemma ShapesRead(mesh: Mesh, axes: seq<Axis>, partials: set<Axis>, shape: seq<nat>, at: Reading,
                   global: Coord -> (seq<int> -> real), locals: Locals)
    requires Reads(mesh, axes, partials, shape, at, global, locals)
    ensures forall c | ValidCoord(mesh, c) :: locals(c).shape == shape
  {
  }

  lemma GatheredShape(mesh: Mesh, v: View, a: Axis, s: AxisType, t: AxisType, shape: seq<nat>, whole: seq<nat>,
                      after: seq<nat>, d: nat)
    requires ViewFits(mesh, v, shape) && s.S? && d == Norm(s.dim, |shape|) < |shape| && !(t.S? && Norm(t.dim, |shape|) == d)
    requires whole == ReplicatedShape(mesh, v, a, s, shape)
    requires t.S? ==> 0 <= Norm(t.dim, |shape|) < |shape| && Divisible(whole[Norm(t.dim, |shape|)], Size(mesh, a))
    requires after == NewShape(mesh, a, t, whole)
    ensures |after| == |shape| && after[d] == Offset(Size(mesh, a), Extent(mesh, v.order[d], shape[d]))
  {
  }

  lemma SlicedShape(mesh: Mesh, v: View, a: Axis, t: AxisType, whole: seq<nat>, after: seq<nat>, d: nat)
    requires t.S? && d == Norm(t.dim, |whole|) < |whole| && Divisible(whole[d], Size(mesh, a))
    requires after == NewShape(mesh, a, t, whole)
    ensures |after| == |whole| && after[d] == Share(whole[d], Size(mesh, a))
  {
  }

  /** Every axis but a has the same unit on both sides. */
  lemma AnyOtherAxis(mesh: Mesh, axes: seq<Axis>, v: View, w: View, a: Axis, s: AxisType, t: AxisType, shape: seq<nat>,
                     whole: seq<nat>, after: seq<nat>, from: Reading, result: Locals, d: nat)
    requires MeshOk(mesh) && a in mesh && d < |shape| && NonEmpty(shape) && ViewFits(mesh, v, shape) && ViewFits(mesh, w, shape)
    requires s.S? ==> 0 <= Norm(s.dim, |shape|) < |shape|
    requires whole == ReplicatedShape(mesh, v, a, s, shape)
    requires t.S? ==> 0 <= Norm(t.dim, |shape|) < |shape| && Divisible(whole[Norm(t.dim, |shape|)], Size(mesh, a))
    requires from == NewReading(mesh, a, t, whole, ReplicatedReading(mesh, v, a, s, shape))
    requires Reads(mesh, axes, w.partials, after, from, Ramps(d), result)
    requires Represents(mesh, axes, w, shape, Ramps(d), result)
    ensures forall x | x != a && Size(mesh, x) > 1 :: Unit(mesh, v.order[d], x, shape[d]) == Unit(mesh, w.order[d], x, shape[d])
  {
    hide Reads, Represents, GatherAt, SliceAt, ReadingOf, Ramps, Unit, NewReading, ReplicatedReading, ReplicatedShape;
    forall x | x != a && Size(mesh, x) > 1
      ensures Unit(mesh, v.order[d], x, shape[d]) == Unit(mesh, w.order[d], x, shape[d])
    {
      SourceAlong(mesh, v, a, s, t, shape, whole, x);
      SameUnit(mesh, axes, v, w, shape, after, from, result, d, x);
    }
  }

  /** Orders whose other units agree, with a innermost on the one side that has it, are one innermost step apart. */
  lemma UnitsDecide(mesh: Mesh, p: seq<Axis>, q: seq<Axis>, a: Axis, n: nat)
    requires NoRepeats(p) && NoRepeats(q) && Large(mesh, p) && Large(mesh, q) && n > 0
    requires Even(mesh, p, n) && Even(mesh, q, n) && forall y | y != a :: y in p <==> y in q
    requires forall x | x != a && Size(mesh, x) > 1 :: Unit(mesh, p, x, n) == Unit(mesh, q, x, n)
    requires a in p && a in q ==> Unit(mesh, p, a, n) == Unit(mesh, q, a, n)
    requires a in p && a !in q ==> p[|p| - 1] == a
    requires a !in p && a in q ==> q[|q| - 1] == a
    ensures InnermostStep(p, q, {a})
  {
    if a in p && a !in q {
      SameButLast(mesh, q, p, a, n);
      assert p == q + [a];
    } else if a !in p && a in q {
      SameButLast(mesh, p, q, a, n);
      assert q == p + [a];
    } else if p != q {
      var x := UnitsDiffer(mesh, p, q, n);
      assert false;
    }
  }

  lemma SameButLast(mesh: Mesh, p: seq<Axis>, q: seq<Axis>, a: Axis, n: nat)
    requires NoRepeats(p) && NoRepeats(q) && Large(mesh, p) && Large(mesh, q) && n > 0
    requires Even(mesh, p, n) && Even(mesh, q, n) && (forall y | y != a :: y in p <==> y in q) && a !in p
    requires forall x | x != a && Size(mesh, x) > 1 :: Unit(mesh, p, x, n) == Unit(mesh, q, x, n)
    requires q != [] && q[|q| - 1] == a
    ensures q == p + [a]
  {
    var init := q[..|q| - 1];
    assert q == init + [a];
    LastOnce(init, a);
    EvenAppend(mesh, init, a, n);
    if init != p {
      assert forall y :: y in p <==> y in init;
      var x := UnitsDiffer(mesh, p, init, n);
      UnitOfInit(mesh, init, a, x, n);
      assert false;
    }
  }

  /** Locals that stand for one ramp under two views: the orders are the same. */
  lemma SameNeeded(mesh: Mesh, axes: seq<Axis>, v: View, w: View, shape: seq<nat>, locals: Locals, d: nat)
    requires MeshOk(mesh) && d < |shape| && NonEmpty(shape) && ViewFits(mesh, v, shape) && ViewFits(mesh, w, shape)
    requires v.partials == w.partials && NoRepeats(v.order[d]) && NoRepeats(w.order[d])
    requires Large(mesh, v.order[d]) && forall x :: x in v.order[d] <==> x in w.order[d]
    requires Represents(mesh, axes, v, shape, Ramps(d), locals) && Represents(mesh, axes, w, shape, Ramps(d), locals)
    ensures v.order[d] == w.order[d]
  {
    if v.order[d] != w.order[d] {
      var x := UnitsDiffer(mesh, v.order[d], w.order[d], shape[d]);
      RepresentsReads(mesh, axes, v, shape, Ramps(d), locals);
      SameUnit(mesh, axes, v, w, shape, LocalShape(mesh, v, shape), ReadingOf(mesh, v, shape), locals, d, x);
      assert false;
    }
  }

  // ---------- every view stands for some ramp ----------

  function Placed(mesh: Mesh, v: View, shape: seq<nat>, d: nat): Locals
    requires ViewFits(mesh, v, shape)
  {
    c => Tensor(LocalShape(mesh, v, shape), idx => Ramp(d)(ReadingOf(mesh, v, shape)(c, idx)))
  }

  lemma PlacedRepresents(mesh: Mesh, axes: seq<Axis>, v: View, shape: seq<nat>, d: nat)
    requires ViewFits(mesh, v, shape) && v.partials == {}
    ensures Represents(mesh, axes, v, shape, Ramps(d), Placed(mesh, v, shape, d))
  {
    var locals, at := Placed(mesh, v, shape, d), ReadingOf(mesh, v, shape);
    forall c: Coord, idx: seq<int> | ValidCoord(mesh, c) && InShape(idx, LocalShape(mesh, v, shape))
      ensures Total(mesh, axes, {}, c, Entry(locals, idx)) == Ramps(d)(c)(at(c, idx))
    {
      NoPartials(mesh, axes, c, Entry(locals, idx));
      assert Ramps(d)(c) == Ramp(d) && locals(c).at(idx) == Ramp(d)(at(c, idx));
    }
    RepresentsReads(mesh, axes, v, shape, Ramps(d), locals);
  }

  lemma {:induction false} Witness(mesh: Mesh, axes: seq<Axis>, v: View, partials: set<Axis>, shape: seq<nat>, d: nat)
    returns (locals: Locals)
    requires MeshOk(mesh) && IsMeshOrder(mesh, axes) && ViewFits(mesh, v, shape) && v.partials == {}
    requires forall a | a in partials :: Absent(v, a)
    ensures Represents(mesh, axes, v.(partials := partials), shape, Ramps(d), locals)
    decreases |partials|
  {
    if partials == {} {
      locals := Placed(mesh, v, shape, d);
      PlacedRepresents(mesh, axes, v, shape, d);
      assert v == v.(partials := {});
    } else {
      var a :| a in partials;
      var rest := v.(partials := partials - {a});
      locals := Witness(mesh, axes, v, partials - {a}, shape, d);
      assert rest.(partials := rest.partials + {a}) == v.(partials := partials);
      if a in mesh {
        RampsSame(d, a);
        AsPartialLeg(mesh, axes, rest, a, shape, Ramps(d), locals);
        locals := AsPartial(a, locals);
      } else {
        SizeOnePartial(mesh, axes, rest, a, shape, Ramps(d), locals);
      }
    }
  }

  lemma RampsSame(d: nat, a: Axis)
    ensures SameAlong(Ramps(d), a)
  {
  }

  // ---------- the exact condition ----------

  /** Without axes of size 1, each dim keeps its shard axes, or gains or loses the changed axis innermost. */
  predicate OrdersKept(mesh: Mesh, src: Layout, dst: Layout, ndim: nat)
    requires WellFormed(src, ndim) && WellFormed(dst, ndim)
  {
    forall d | 0 <= d < ndim ::
      InnermostStep(Trim(mesh, Order(src, ndim)[d]), Trim(mesh, Order(dst, ndim)[d]), Changed(PerAxis(src), PerAxis(dst)))
  }

  /** Redistributing keeps every tensor of the shape: locals that represent it under src become locals that represent
      it under dst, partial sums included. */
  ghost predicate Sound(mesh: Mesh, axes: seq<Axis>, src: Layout, dst: Layout, shape: seq<nat>)
    requires WellFormed(src, |shape|) && WellFormed(dst, |shape|)
    requires ViewFits(mesh, ViewOf(src, |shape|), shape) && ViewFits(mesh, ViewOf(dst, |shape|), shape)
  {
    forall global: Coord -> (seq<int> -> real), locals: Locals, result: Locals ::
      (forall a | a in PerAxis(src) && PerAxis(src)[a] != V :: SameAlong(global, a)) &&
      IsRedistributed(mesh, src, dst, |shape|, locals, result) &&
      Represents(mesh, axes, ViewOf(src, |shape|), shape, global, locals)
      ==> Represents(mesh, axes, ViewOf(dst, |shape|), shape, global, result)
  }

  lemma LayoutTyped(mesh: Mesh, layout: Layout, ndim: nat, a: Axis)
    requires WellFormed(layout, ndim) && a in PerAxis(layout) && Size(mesh, a) > 1
    ensures Typed(TrimView(mesh, ViewOf(layout, ndim)), a, PerAxis(layout)[a])
  {
    hide WellFormed, PerAxis, Order;
    var v, t := ViewOf(layout, ndim), PerAxis(layout)[a];
    if t.S? { ShardDimInRange(layout, ndim, a); }
    forall d | 0 <= d < ndim ensures a in Trim(mesh, v.order[d]) <==> t.S? && Norm(t.dim, ndim) == d {
      TypeMatchesOrder(layout, ndim, a, d);
      TrimMembers(mesh, v.order[d]);
    }
  }

  /** Each dim of a trimmed order: distinct axes, all larger than 1. */
  lemma TrimmedOrder(mesh: Mesh, layout: Layout, ndim: nat, d: nat)
    requires WellFormed(layout, ndim) && d < ndim
    ensures var order := Trim(mesh, Order(layout, ndim)[d]); NoRepeats(order) && Large(mesh, order)
  {
    OrderDistinct(ShardList(layout), ndim, d);
    NoRepeatsIs(Order(layout, ndim)[d]);
    TrimMembers(mesh, Order(layout, ndim)[d]);
  }

  /** An axis with the same type on both sides shards the same dims. */
  lemma SameMember(mesh: Mesh, src: Layout, dst: Layout, ndim: nat, d: nat, x: Axis)
    requires WellFormed(src, ndim) && WellFormed(dst, ndim) && d < ndim
    requires PerAxis(src).Keys == PerAxis(dst).Keys && x !in Changed(PerAxis(src), PerAxis(dst))
    ensures x in Trim(mesh, Order(src, ndim)[d]) <==> x in Trim(mesh, Order(dst, ndim)[d])
  {
    TypeMatchesOrder(src, ndim, x, d);
    TypeMatchesOrder(dst, ndim, x, d);
    TrimMembers(mesh, Order(src, ndim)[d]);
    TrimMembers(mesh, Order(dst, ndim)[d]);
  }

  lemma PartialsDiffer(src: Layout, dst: Layout, ndim: nat, a: Axis)
    requires WellFormed(src, ndim) && WellFormed(dst, ndim)
    requires PerAxis(src).Keys == PerAxis(dst).Keys && Changed(PerAxis(src), PerAxis(dst)) <= {a}
    ensures ViewOf(src, ndim).partials - {a} == ViewOf(dst, ndim).partials - {a}
  {
    forall x | x != a ensures x in ViewOf(src, ndim).partials <==> x in ViewOf(dst, ndim).partials {
      assert x !in Changed(PerAxis(src), PerAxis(dst));
    }
  }

  lemma LayoutsChanging(mesh: Mesh, src: Layout, dst: Layout, ndim: nat, a: Axis)
    requires WellFormed(src, ndim) && WellFormed(dst, ndim) && Size(mesh, a) > 1
    requires PerAxis(src).Keys == PerAxis(dst).Keys && Changed(PerAxis(src), PerAxis(dst)) == {a}
    ensures a in PerAxis(src) && a in PerAxis(dst)
    ensures Changing(mesh, TrimView(mesh, ViewOf(src, ndim)), TrimView(mesh, ViewOf(dst, ndim)), a, PerAxis(src)[a], PerAxis(dst)[a])
  {
    hide WellFormed, Order, PerAxis, Typed;
    assert a in Changed(PerAxis(src), PerAxis(dst));
    LayoutTyped(mesh, src, ndim, a);
    LayoutTyped(mesh, dst, ndim, a);
    PartialsDiffer(src, dst, ndim, a);
    forall d | 0 <= d < ndim
      ensures var order := Trim(mesh, Order(src, ndim)[d]); NoRepeats(order) && Large(mesh, order)
      ensures var order := Trim(mesh, Order(dst, ndim)[d]); NoRepeats(order) && Large(mesh, order)
    {
      TrimmedOrder(mesh, src, ndim, d);
      TrimmedOrder(mesh, dst, ndim, d);
    }
    forall d, x | 0 <= d < ndim && x != a
      ensures x in Trim(mesh, Order(src, ndim)[d]) <==> x in Trim(mesh, Order(dst, ndim)[d])
    {
      SameMember(mesh, src, dst, ndim, d, x);
    }
  }

  /** Views with the same orders, whose partial axes differ at most by one of size 1, mean the same. */
  lemma SameMeaning(mesh: Mesh, axes: seq<Axis>, v: View, w: View, a: Axis, shape: seq<nat>,
                    global: Coord -> (seq<int> -> real), locals: Locals)
    requires MeshOk(mesh) && IsMeshOrder(mesh, axes) && ViewFits(mesh, v, shape) && v.order == w.order
    requires v.partials - {a} == w.partials - {a} && (v.partials != w.partials ==> Size(mesh, a) == 1)
    ensures ViewFits(mesh, w, shape)
    ensures Represents(mesh, axes, v, shape, global, locals) <==> Represents(mesh, axes, w, shape, global, locals)
  {
    assert forall x | x != a :: x in v.partials <==> x in v.partials - {a};
    assert forall x | x != a :: x in w.partials <==> x in w.partials - {a};
    if v.partials == w.partials {
      assert v == w;
    } else if a in v.partials {
      assert v.partials == w.partials + {a};
      SizeOnePartial(mesh, axes, w, a, shape, global, locals);
    } else {
      assert w.partials == v.partials + {a};
      SizeOnePartial(mesh, axes, v, a, shape, global, locals);
    }
  }

  /** Without an axis of size above 1 that changes, the orders must agree outright. */
  lemma NoChange(mesh: Mesh, src: Layout, dst: Layout, ndim: nat, d: nat)
    requires WellFormed(src, ndim) && WellFormed(dst, ndim) && d < ndim
    requires forall a | a in Changed(PerAxis(src), PerAxis(dst)) :: Size(mesh, a) <= 1
    requires InnermostStep(Trim(mesh, Order(src, ndim)[d]), Trim(mesh, Order(dst, ndim)[d]), Changed(PerAxis(src), PerAxis(dst)))
    ensures Trim(mesh, Order(src, ndim)[d]) == Trim(mesh, Order(dst, ndim)[d])
  {
    TrimMembers(mesh, Order(src, ndim)[d]);
    TrimMembers(mesh, Order(dst, ndim)[d]);
  }

  lemma KeptIsSound(mesh: Mesh, axes: seq<Axis>, src: Layout, dst: Layout, shape: seq<nat>,
                    global: Coord -> (seq<int> -> real), locals: Locals, result: Locals)
    requires MeshOk(mesh) && IsMeshOrder(mesh, axes)
    requires WellFormed(src, |shape|) && WellFormed(dst, |shape|)
    requires ViewFits(mesh, ViewOf(src, |shape|), shape) && ViewFits(mesh, ViewOf(dst, |shape|), shape)
    requires OneChange(src, dst) && OrdersKept(mesh, src, dst, |shape|)
    requires forall a | a in PerAxis(src) && PerAxis(src)[a] != V :: SameAlong(global, a)
    requires IsRedistributed(mesh, src, dst, |shape|, locals, result)
    requires Represents(mesh, axes, ViewOf(src, |shape|), shape, global, locals)
    ensures Represents(mesh, axes, ViewOf(dst, |shape|), shape, global, result)
  {
    hide WellFormed, Order, PerAxis, Represents, ViewFits;
    var ndim, changed := |shape|, Changed(PerAxis(src), PerAxis(dst));
    var v, w := ViewOf(src, ndim), ViewOf(dst, ndim);
    TrimRepresents(mesh, axes, v, shape, global, locals);
    TrimRepresents(mesh, axes, w, shape, global, result);
    if a :| a in changed && Size(mesh, a) > 1 {
      AtMostOne(changed, a);
      LayoutsChanging(mesh, src, dst, ndim, a);
      StepSound(mesh, axes, TrimView(mesh, v), TrimView(mesh, w), a, PerAxis(src)[a], PerAxis(dst)[a], shape, global, locals);
    } else {
      forall d | 0 <= d < ndim ensures Trim(mesh, v.order[d]) == Trim(mesh, w.order[d]) {
        NoChange(mesh, src, dst, ndim, d);
      }
      var a := OnlyChange(mesh, src, dst, ndim);
      SameMeaning(mesh, axes, TrimView(mesh, v), TrimView(mesh, w), a, shape, global, locals);
    }
  }

  /** The axis, if any, that changes. */
  lemma OnlyChange(mesh: Mesh, src: Layout, dst: Layout, ndim: nat) returns (a: Axis)
    requires MeshOk(mesh) && WellFormed(src, ndim) && WellFormed(dst, ndim) && OneChange(src, dst)
    requires forall x | x in Changed(PerAxis(src), PerAxis(dst)) :: Size(mesh, x) <= 1
    ensures ViewOf(src, ndim).partials - {a} == ViewOf(dst, ndim).partials - {a}
    ensures ViewOf(src, ndim).partials != ViewOf(dst, ndim).partials ==> Size(mesh, a) == 1
  {
    var changed := Changed(PerAxis(src), PerAxis(dst));
    if changed == {} {
      a := "";
      PartialsDiffer(src, dst, ndim, a);
      NothingChanged(PerAxis(src), PerAxis(dst));
      assert ViewOf(src, ndim).partials == ViewOf(dst, ndim).partials;
    } else {
      a :| a in changed;
      AtMostOne(changed, a);
      PartialsDiffer(src, dst, ndim, a);
    }
  }

  lemma SoundIsKept(mesh: Mesh, axes: seq<Axis>, src: Layout, dst: Layout, shape: seq<nat>, d: nat)
    requires MeshOk(mesh) && IsMeshOrder(mesh, axes) && d < |shape| && NonEmpty(shape)
    requires WellFormed(src, |shape|) && WellFormed(dst, |shape|)
    requires ViewFits(mesh, ViewOf(src, |shape|), shape) && ViewFits(mesh, ViewOf(dst, |shape|), shape)
    requires OneChange(src, dst) && Sound(mesh, axes, src, dst, shape)
    ensures InnermostStep(Trim(mesh, Order(src, |shape|)[d]), Trim(mesh, Order(dst, |shape|)[d]), Changed(PerAxis(src), PerAxis(dst)))
  {
    hide WellFormed, Order, PerAxis, Represents, ViewFits;
    var ndim, changed := |shape|, Changed(PerAxis(src), PerAxis(dst));
    var v, w := ViewOf(src, ndim), ViewOf(dst, ndim);
    var locals := LayoutWitness(mesh, axes, src, shape, d);
    forall a ensures SameAlong(Ramps(d), a) { RampsSame(d, a); }
    if a :| a in changed && Size(mesh, a) > 1 {
      AtMostOne(changed, a);
      LayoutsChanging(mesh, src, dst, ndim, a);
      var result := AxisRedistribute(mesh, a, PerAxis(src)[a], PerAxis(dst)[a], ndim, locals);
      assert IsRedistributed(mesh, src, dst, ndim, locals, result);
      TrimRepresents(mesh, axes, v, shape, Ramps(d), locals);
      TrimRepresents(mesh, axes, w, shape, Ramps(d), result);
      StepNeeded(mesh, axes, TrimView(mesh, v), TrimView(mesh, w), a, PerAxis(src)[a], PerAxis(dst)[a], shape, locals, d);
    } else {
      assert IsRedistributed(mesh, src, dst, ndim, locals, locals);
      SameOrders(mesh, axes, src, dst, shape, locals, d);
    }
  }

  lemma LayoutWitness(mesh: Mesh, axes: seq<Axis>, layout: Layout, shape: seq<nat>, d: nat) returns (locals: Locals)
    requires MeshOk(mesh) && IsMeshOrder(mesh, axes) && WellFormed(layout, |shape|)
    requires ViewFits(mesh, ViewOf(layout, |shape|), shape)
    ensures Represents(mesh, axes, ViewOf(layout, |shape|), shape, Ramps(d), locals)
  {
    hide WellFormed, Order, PerAxis, Represents;
    var v := ViewOf(layout, |shape|);
    var bare := View(v.order, {});
    forall a | a in v.partials ensures Absent(bare, a) {
      forall e | 0 <= e < |shape| ensures a !in v.order[e] { TypeMatchesOrder(layout, |shape|, a, e); }
    }
    locals := Witness(mesh, axes, bare, v.partials, shape, d);
    assert bare.(partials := v.partials) == v;
  }

  lemma SameOrders(mesh: Mesh, axes: seq<Axis>, src: Layout, dst: Layout, shape: seq<nat>, locals: Locals, d: nat)
    requires MeshOk(mesh) && IsMeshOrder(mesh, axes) && d < |shape| && NonEmpty(shape)
    requires WellFormed(src, |shape|) && WellFormed(dst, |shape|) && OneChange(src, dst)
    requires ViewFits(mesh, ViewOf(src, |shape|), shape) && ViewFits(mesh, ViewOf(dst, |shape|), shape)
    requires forall a | a in Changed(PerAxis(src), PerAxis(dst)) :: Size(mesh, a) <= 1
    requires Represents(mesh, axes, ViewOf(src, |shape|), shape, Ramps(d), locals)
    requires Represents(mesh, axes, ViewOf(dst, |shape|), shape, Ramps(d), locals)
    ensures Trim(mesh, Order(src, |shape|)[d]) == Trim(mesh, Order(dst, |shape|)[d])
  {
    hide WellFormed, Order, PerAxis, Represents, ViewFits;
    var ndim := |shape|;
    var v, w := ViewOf(src, ndim), ViewOf(dst, ndim);
    var both := View(w.order, v.partials);
    var a := OnlyChange(mesh, src, dst, ndim);
    SameMeaning(mesh, axes, w, both, a, shape, Ramps(d), locals);
    TrimRepresents(mesh, axes, v, shape, Ramps(d), locals);
    TrimRepresents(mesh, axes, both, shape, Ramps(d), locals);
    TrimmedOrder(mesh, src, ndim, d);
    TrimmedOrder(mesh, dst, ndim, d);
    TrimMembers(mesh, Order(src, ndim)[d]);
    TrimMembers(mesh, Order(dst, ndim)[d]);
    forall x ensures x in Trim(mesh, v.order[d]) <==> x in Trim(mesh, w.order[d]) {
      if Size(mesh, x) > 1 { SameMember(mesh, src, dst, ndim, d, x); }
    }
    SameNeeded(mesh, axes, TrimView(mesh, v), TrimView(mesh, both), shape, locals, d);
  }

  /** The redistributions of one axis that keep every tensor are exactly those that keep the shard orders, but for the
      changed axis joining or leaving innermost and for axes of size 1. */
  lemma RedistributionExact(mesh: Mesh, axes: seq<Axis>, src: Layout, dst: Layout, shape: seq<nat>)
    requires MeshOk(mesh) && IsMeshOrder(mesh, axes)
    requires WellFormed(src, |shape|) && WellFormed(dst, |shape|)
    requires ViewFits(mesh, ViewOf(src, |shape|), shape) && ViewFits(mesh, ViewOf(dst, |shape|), shape)
    requires OneChange(src, dst)
    ensures OrdersKept(mesh, src, dst, |shape|) ==> Sound(mesh, axes, src, dst, shape)
    ensures NonEmpty(shape) && Sound(mesh, axes, src, dst, shape) ==> OrdersKept(mesh, src, dst, |shape|)
  {
    hide WellFormed, Order, PerAxis, Represents, ViewFits, IsRedistributed, Changed;
    if OrdersKept(mesh, src, dst, |shape|) {
      forall global: Coord -> (seq<int> -> real), locals: Locals, result: Locals |
        (forall a | a in PerAxis(src) && PerAxis(src)[a] != V :: SameAlong(global, a)) &&
        IsRedistributed(mesh, src, dst, |shape|, locals, result) &&
        Represents(mesh, axes, ViewOf(src, |shape|), shape, global, locals)
        ensures Represents(mesh, axes, ViewOf(dst, |shape|), shape, global, result)
      {
        KeptIsSound(mesh, axes, src, dst, shape, global, locals, result);
      }
    }
    if NonEmpty(shape) && Sound(mesh, axes, src, dst, shape) {
      forall d | 0 <= d < |shape|
        ensures InnermostStep(Trim(mesh, Order(src, |shape|)[d]), Trim(mesh, Order(dst, |shape|)[d]), Changed(PerAxis(src), PerAxis(dst)))
      {
        SoundIsKept(mesh, axes, src, dst, shape, d);
      }
    }
  }

  // ---------- what the check itself guarantees ----------

  lemma {:induction false} TrimAppend(mesh: Mesh, order: seq<Axis>, a: Axis)
    ensures Trim(mesh, order + [a]) == Trim(mesh, order) + if Size(mesh, a) > 1 then [a] else []
  {
    if order == [] {
      assert (order + [a])[1..] == [] && order + [a] == [a];
    } else {
      assert (order + [a])[1..] == order[1..] + [a];
      TrimAppend(mesh, order[1..], a);
    }
  }

  /** With at most one axis per dim where there is no PartitionSpec, acceptance is soundness. */
  lemma RedistributionSound(mesh: Mesh, axes: seq<Axis>, src: Layout, dst: Layout, shape: seq<nat>)
    requires MeshOk(mesh) && IsMeshOrder(mesh, axes)
    requires WellFormed(src, |shape|) && WellFormed(dst, |shape|)
    requires OneAxisPerDim(src, |shape|) && OneAxisPerDim(dst, |shape|)
    requires ViewFits(mesh, ViewOf(src, |shape|), shape) && ViewFits(mesh, ViewOf(dst, |shape|), shape)
    requires Accepts(src, dst)
    ensures Sound(mesh, axes, src, dst, shape)
  {
    hide WellFormed, PerAxis, SpecsAccepted, Represents, ViewFits;
    var ndim, changed := |shape|, Changed(PerAxis(src), PerAxis(dst));
    AcceptedOrders(src, dst, ndim);
    forall d | 0 <= d < ndim
      ensures InnermostStep(Trim(mesh, Order(src, ndim)[d]), Trim(mesh, Order(dst, ndim)[d]), changed)
    {
      TrimStep(mesh, Order(src, ndim)[d], Order(dst, ndim)[d], changed);
    }
    RedistributionExact(mesh, axes, src, dst, shape);
  }

  lemma TrimStep(mesh: Mesh, p: seq<Axis>, q: seq<Axis>, changed: set<Axis>)
    requires InnermostStep(p, q, changed)
    ensures InnermostStep(Trim(mesh, p), Trim(mesh, q), changed)
  {
    if p != q {
      var a :| a in changed && (q == p + [a] || p == q + [a]);
      TrimAppend(mesh, p, a);
      TrimAppend(mesh, q, a);
    }
  }

  lemma {:induction false} TrimLarge(mesh: Mesh, axes: seq<Axis>)
    requires Large(mesh, axes)
    ensures Trim(mesh, axes) == axes
  {
    if axes != [] { TrimLarge(mesh, axes[1..]); }
  }

  /** All axes the layout shards by are larger than 1. */
  predicate LargeAxes(mesh: Mesh, layout: Layout, ndim: nat)
    requires WellFormed(layout, ndim)
  {
    forall d | 0 <= d < ndim :: Large(mesh, Order(layout, ndim)[d])
  }

  /** On axes larger than 1, and with at most one axis per dim where there is no PartitionSpec, the check lets through
      exactly the one-axis pairs whose redistribution keeps every tensor: nothing that would break one, and nothing
      less. */
  lemma ValidationExact(mesh: Mesh, axes: seq<Axis>, src: Layout, dst: Layout, shape: seq<nat>)
    requires MeshOk(mesh) && IsMeshOrder(mesh, axes) && NonEmpty(shape)
    requires WellFormed(src, |shape|) && WellFormed(dst, |shape|)
    requires OneAxisPerDim(src, |shape|) && OneAxisPerDim(dst, |shape|)
    requires LargeAxes(mesh, src, |shape|) && LargeAxes(mesh, dst, |shape|)
    requires ViewFits(mesh, ViewOf(src, |shape|), shape) && ViewFits(mesh, ViewOf(dst, |shape|), shape)
    ensures Accepts(src, dst) <==> OneChange(src, dst) && Sound(mesh, axes, src, dst, shape)
  {
    hide WellFormed, Order, PerAxis, Represents, ViewFits, Accepts, OneChange, InnermostStep, Sound, Changed;
    AcceptedExactly(src, dst, |shape|);
    forall d | 0 <= d < |shape|
      ensures Trim(mesh, Order(src, |shape|)[d]) == Order(src, |shape|)[d]
      ensures Trim(mesh, Order(dst, |shape|)[d]) == Order(dst, |shape|)[d]
    {
      TrimLarge(mesh, Order(src, |shape|)[d]);
      TrimLarge(mesh, Order(dst, |shape|)[d]);
    }
    if OneChange(src, dst) {
      RedistributionExact(mesh, axes, src, dst, shape);
    }
  }
}
