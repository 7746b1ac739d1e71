/** The single-axis collectives behind spmd.redistribute and spmd.shard, and what each does
    to the tensor the locals represent. A redistribution is the collective that makes the
    axis replicated followed by the one that takes it to its destination type. */
module SpmdCollectives {
  import opened Sums
  import opened SpmdTypes
  import opened SpmdTensors

  function Component(idx: seq<int>, d: nat): int {
    if d < |idx| then idx[d] else 0
  }

  function Replace(idx: seq<int>, d: nat, i: int): seq<int> {
    if d < |idx| then idx[d := i] else idx
  }

  function DimOf(t: Tensor, d: nat): nat {
    if d < |t.shape| then t.shape[d] else 0
  }

  function WithDim(shape: seq<nat>, d: nat, n: nat): seq<nat> {
    if d < |shape| then shape[d := n] else shape
  }

  // ---------- to replicated ----------

  /** all-reduce: P -> R */
  function AllReduced(mesh: Mesh, a: Axis, locals: Locals): Locals {
    c => Tensor(locals(c).shape, idx => TotalAlong(mesh, Size(mesh, a), a, [], {}, c, Entry(locals, idx)))
  }

  /** all-gather on dim d: S(d) -> R. Rank q's block covers positions q * m .. q * m + m. */
  function AllGathered(mesh: Mesh, a: Axis, d: nat, locals: Locals): Locals {
    c => var m := DimOf(locals(c), d);
         Tensor(WithDim(locals(c).shape, d, Offset(Size(mesh, a), m)),
                idx => locals(c[a := BlockOf(Component(idx, d), m)]).at(Replace(idx, d, Within(Component(idx, d), m))))
  }

  function ToReplicated(mesh: Mesh, a: Axis, t: AxisType, ndim: nat, locals: Locals): Locals {
    match t
    case P => AllReduced(mesh, a, locals)
    case S(dim) => if 0 <= Norm(dim, ndim) then AllGathered(mesh, a, Norm(dim, ndim), locals) else locals
    case _ => locals
  }

  // ---------- from replicated ----------

  /** R -> P: rank 0 keeps the value, the others contribute zero. */
  function AsPartial(a: Axis, locals: Locals): Locals {
    c => Tensor(locals(c).shape, idx => if Get(c, a) == 0 then locals(c).at(idx) else 0.0)
  }

  predicate Divisible(n: nat, parts: nat) {
    parts > 0 && Splits(n, parts)
  }

  /** R -> S(d): each rank keeps its own block. */
  function Sliced(mesh: Mesh, a: Axis, d: nat, locals: Locals): Locals {
    c => var n := DimOf(locals(c), d);
         var m := if Divisible(n, Size(mesh, a)) then Share(n, Size(mesh, a)) else 0;
         Tensor(WithDim(locals(c).shape, d, m),
                idx => locals(c).at(Replace(idx, d, (if Get(c, a) >= 0 then Offset(Get(c, a), m) else 0) + Component(idx, d))))
  }

  function FromReplicated(mesh: Mesh, a: Axis, t: AxisType, ndim: nat, locals: Locals): Locals {
    match t
    case P => AsPartial(a, locals)
    case S(dim) => if 0 <= Norm(dim, ndim) then Sliced(mesh, a, Norm(dim, ndim), locals) else locals
    case _ => locals
  }

  /** spmd.redistribute on one axis. */
  function AxisRedistribute(mesh: Mesh, a: Axis, src: AxisType, dst: AxisType, ndim: nat, locals: Locals): Locals {
    FromReplicated(mesh, a, dst, ndim, ToReplicated(mesh, a, src, ndim, locals))
  }

  // ---------- where in the global tensor each local entry lies ----------

  type Reading = (Coord, seq<int>) -> seq<int>

  /** Every local entry, summed over the partial axes, is the entry of the global tensor that the reading names. */
  ghost predicate Reads(mesh: Mesh, axes: seq<Axis>, partials: set<Axis>, shape: seq<nat>, at: Reading,
                        global: Coord -> (seq<int> -> real), locals: Locals) {
    forall c | ValidCoord(mesh, c) ::
      && locals(c).shape == shape
      && forall idx | InShape(idx, shape) ::
           Total(mesh, axes, partials, c, Entry(locals, idx)) == global(c)(at(c, idx))
  }

  lemma ReadsEntry(mesh: Mesh, axes: seq<Axis>, partials: set<Axis>, shape: seq<nat>, at: Reading,
                   global: Coord -> (seq<int> -> real), locals: Locals, c: Coord, idx: seq<int>)
    requires Reads(mesh, axes, partials, shape, at, global, locals) && ValidCoord(mesh, c) && InShape(idx, shape)
    ensures locals(c).shape == shape
    ensures Total(mesh, axes, partials, c, Entry(locals, idx)) == global(c)(at(c, idx))
  {
  }

  /** Two readings that agree on the mesh and inside the shape. */
  ghost predicate SameReading(mesh: Mesh, shape: seq<nat>, at: Reading, at': Reading) {
    forall c: Coord, idx: seq<int> | ValidCoord(mesh, c) && InShape(idx, shape) :: at(c, idx) == at'(c, idx)
  }

  lemma ReadsSame(mesh: Mesh, axes: seq<Axis>, partials: set<Axis>, shape: seq<nat>, at: Reading, at': Reading,
                  global: Coord -> (seq<int> -> real), locals: Locals)
    requires SameReading(mesh, shape, at, at') && Reads(mesh, axes, partials, shape, at, global, locals)
    ensures Reads(mesh, axes, partials, shape, at', global, locals)
  {
  }

  /** Everything a leg needs to know about the mesh and the axis. */
  ghost predicate Setting(mesh: Mesh, axes: seq<Axis>, a: Axis, global: Coord -> (seq<int> -> real)) {
    MeshOk(mesh) && IsMeshOrder(mesh, axes) && a in mesh && SameAlong(global, a)
  }

  lemma SameGlobal(global: Coord -> (seq<int> -> real), a: Axis, c: Coord, j: int)
    requires SameAlong(global, a) && a in c
    ensures global(c[a := j]) == global(c)
  {
    assert EqualExcept(c[a := j], c, a);
  }

  /** Total only reads valid coordinates. */
  lemma {:induction false} TotalOnMesh(mesh: Mesh, axes: seq<Axis>, partials: set<Axis>, c: Coord, f: Coord -> real, g: Coord -> real)
    requires ValidCoord(mesh, c) && forall a | a in axes :: a in mesh
    requires forall b | ValidCoord(mesh, b) :: f(b) == g(b)
    ensures Total(mesh, axes, partials, c, f) == Total(mesh, axes, partials, c, g)
    decreases |axes|, 0
  {
    if axes != [] {
      if axes[0] in partials {
        AlongOnMesh(mesh, Size(mesh, axes[0]), axes[0], axes[1..], partials, c, f, g);
      } else {
        TotalOnMesh(mesh, axes[1..], partials, c, f, g);
      }
    }
  }

  lemma {:induction false} AlongOnMesh(mesh: Mesh, n: nat, x: Axis, rest: seq<Axis>, partials: set<Axis>, c: Coord, f: Coord -> real, g: Coord -> real)
    requires ValidCoord(mesh, c) && x in mesh && n <= mesh[x] && forall a | a in rest :: a in mesh
    requires forall b | ValidCoord(mesh, b) :: f(b) == g(b)
    ensures TotalAlong(mesh, n, x, rest, partials, c, f) == TotalAlong(mesh, n, x, rest, partials, c, g)
    decreases |rest|, 1 + n
  {
    if n > 0 {
      AlongOnMesh(mesh, n - 1, x, rest, partials, c, f, g);
      assert ValidCoord(mesh, c[x := n - 1]);
      TotalOnMesh(mesh, rest, partials, c[x := n - 1], f, g);
    }
  }

  /** Gathering: entry i along the dim is entry i % m of rank i / m. */
  function GatherAt(at: Reading, a: Axis, d: nat, m: nat): Reading {
    (c, idx) => at(c[a := BlockOf(Component(idx, d), m)], Replace(idx, d, Within(Component(idx, d), m)))
  }

  lemma GatherReads(mesh: Mesh, axes: seq<Axis>, partials: set<Axis>, shape: seq<nat>, at: Reading,
                    global: Coord -> (seq<int> -> real), locals: Locals, a: Axis, d: nat)
    requires Setting(mesh, axes, a, global) && d < |shape| && a !in partials
    requires Reads(mesh, axes, partials, shape, at, global, locals)
    ensures Reads(mesh, axes, partials, shape[d := Offset(Size(mesh, a), shape[d])], GatherAt(at, a, d, shape[d]), global,
                  AllGathered(mesh, a, d, locals))
  {
    var s, m := Size(mesh, a), shape[d];
    var wide, gathered := shape[d := Offset(s, m)], AllGathered(mesh, a, d, locals);
    forall c: Coord, idx: seq<int> | ValidCoord(mesh, c) && InShape(idx, wide)
      ensures Total(mesh, axes, partials, c, Entry(gathered, idx)) == global(c)(GatherAt(at, a, d, m)(c, idx))
    {
      var q, k := Locate(idx[d], s, m);
      BlockOfOffset(q, m, k);
      assert Component(idx, d) == idx[d] && Replace(idx, d, k) == idx[d := k];
      assert GatherAt(at, a, d, m)(c, idx) == at(c[a := q], idx[d := k]);
      TotalGathered(mesh, axes, partials, locals, a, d, m, c, idx, q, k);
      assert ValidCoord(mesh, c[a := q]) && InShape(idx[d := k], shape);
      ReadsEntry(mesh, axes, partials, shape, at, global, locals, c[a := q], idx[d := k]);
      SameGlobal(global, a, c, q);
    }
  }

  lemma TotalGathered(mesh: Mesh, axes: seq<Axis>, partials: set<Axis>, locals: Locals, a: Axis, d: nat, m: nat, c: Coord,
                      idx: seq<int>, q: nat, k: nat)
    requires a !in partials && IsMeshOrder(mesh, axes) && ValidCoord(mesh, c) && d < |idx|
    requires forall b | ValidCoord(mesh, b) :: DimOf(locals(b), d) == m
    requires BlockOf(idx[d], m) == q && Within(idx[d], m) == k
    ensures Total(mesh, axes, partials, c, Entry(AllGathered(mesh, a, d, locals), idx))
         == Total(mesh, axes, partials, c[a := q], Entry(locals, idx[d := k]))
  {
    var f, g := Entry(locals, idx[d := k]), Entry(AllGathered(mesh, a, d, locals), idx);
    var h := (b: Coord) => f(b[a := q]);
    TotalFix(mesh, axes, partials, c, a, q, f, h);
    assert Component(idx, d) == idx[d] && Replace(idx, d, k) == idx[d := k];
    forall b | ValidCoord(mesh, b) ensures g(b) == h(b) { assert DimOf(locals(b), d) == m; }
    TotalOnMesh(mesh, axes, partials, c, g, h);
  }

  /** All-reducing a partial axis moves nothing. */
  lemma ReduceReads(mesh: Mesh, axes: seq<Axis>, partials: set<Axis>, shape: seq<nat>, at: Reading,
                    global: Coord -> (seq<int> -> real), locals: Locals, a: Axis)
    requires Setting(mesh, axes, a, global) && a in partials
    requires Reads(mesh, axes, partials, shape, at, global, locals)
    ensures Reads(mesh, axes, partials - {a}, shape, at, global, AllReduced(mesh, a, locals))
  {
    var reduced := AllReduced(mesh, a, locals);
    forall c: Coord, idx: seq<int> | ValidCoord(mesh, c) && InShape(idx, shape)
      ensures Total(mesh, axes, partials - {a}, c, Entry(reduced, idx)) == global(c)(at(c, idx))
    {
      var f, g := Entry(locals, idx), Entry(reduced, idx);
      forall b ensures g(b) == TotalAlong(mesh, Size(mesh, a), a, [], partials, b, f) {
        AlongSamePartials(mesh, Size(mesh, a), a, [], {}, partials, b, f);
      }
      TotalReduce(mesh, axes, partials, c, a, f, g);
      ReadsEntry(mesh, axes, partials, shape, at, global, locals, c, idx);
    }
  }

  /** Slicing: entry i of rank j is entry j * m + i of what was whole along the dim. */
  function SliceAt(at: Reading, a: Axis, d: nat, m: nat): Reading {
    (c, idx) => at(c, Replace(idx, d, (if Get(c, a) >= 0 then Offset(Get(c, a), m) else 0) + Component(idx, d)))
  }

  lemma SliceReads(mesh: Mesh, axes: seq<Axis>, partials: set<Axis>, shape: seq<nat>, at: Reading,
                   global: Coord -> (seq<int> -> real), locals: Locals, a: Axis, d: nat)
    requires Setting(mesh, axes, a, global) && d < |shape| && a !in partials && Splits(shape[d], Size(mesh, a))
    requires Reads(mesh, axes, partials, shape, at, global, locals)
    ensures var m := Share(shape[d], Size(mesh, a));
            Reads(mesh, axes, partials, shape[d := m], SliceAt(at, a, d, m), global, Sliced(mesh, a, d, locals))
  {
    var s, m := Size(mesh, a), Share(shape[d], Size(mesh, a));
    var sliced := Sliced(mesh, a, d, locals);
    forall c: Coord, idx: seq<int> | ValidCoord(mesh, c) && InShape(idx, shape[d := m])
      ensures Total(mesh, axes, partials, c, Entry(sliced, idx)) == global(c)(SliceAt(at, a, d, m)(c, idx))
    {
      var j := c[a];
      var outer := idx[d := Offset(j, m) + idx[d]];
      SharesCover(shape[d], s);
      OffsetBound(j, s, m);
      assert InShape(outer, shape);
      assert Get(c, a) == j && Component(idx, d) == idx[d] && Replace(idx, d, Offset(j, m) + idx[d]) == outer;
      assert SliceAt(at, a, d, m)(c, idx) == at(c, outer);
      TotalSliced(mesh, axes, partials, locals, a, d, shape[d], c, idx, outer);
      ReadsEntry(mesh, axes, partials, shape, at, global, locals, c, outer);
    }
  }

  lemma TotalSliced(mesh: Mesh, axes: seq<Axis>, partials: set<Axis>, locals: Locals, a: Axis, d: nat, n: nat, c: Coord,
                    idx: seq<int>, outer: seq<int>)
    requires MeshOk(mesh) && IsMeshOrder(mesh, axes) && a in mesh && a !in partials && ValidCoord(mesh, c) && d < |idx|
    requires Splits(n, Size(mesh, a)) && forall b | ValidCoord(mesh, b) :: DimOf(locals(b), d) == n
    requires outer == idx[d := Offset(c[a], Share(n, Size(mesh, a))) + idx[d]]
    ensures Total(mesh, axes, partials, c, Entry(Sliced(mesh, a, d, locals), idx))
         == Total(mesh, axes, partials, c, Entry(locals, outer))
  {
    var j, f, g := c[a], Entry(locals, outer), Entry(Sliced(mesh, a, d, locals), idx);
    var h := (b: Coord) => if ValidCoord(mesh, b) then g(b) else f(b);
    TotalOnMesh(mesh, axes, partials, c, g, h);
    forall b | Get(b, a) == j ensures h(b) == f(b) {
      if ValidCoord(mesh, b) {
        assert DimOf(locals(b), d) == n && Divisible(n, Size(mesh, a)) && b[a] == j;
        assert Replace(idx, d, Offset(j, Share(n, Size(mesh, a))) + Component(idx, d)) == outer;
      }
    }
    TotalAgree(mesh, axes, partials, c, a, j, f, h);
  }

  /** Rank 0 keeping the value is a partial sum of what it read. */
  lemma PartialReads(mesh: Mesh, axes: seq<Axis>, partials: set<Axis>, shape: seq<nat>, at: Reading,
                     global: Coord -> (seq<int> -> real), locals: Locals, a: Axis)
    requires Setting(mesh, axes, a, global) && a !in partials
    requires Reads(mesh, axes, partials, shape, at, global, locals)
    ensures Reads(mesh, axes, partials + {a}, shape, (c, idx) => at(c[a := 0], idx), global, AsPartial(a, locals))
  {
    var w, partial := partials + {a}, AsPartial(a, locals);
    forall c: Coord, idx: seq<int> | ValidCoord(mesh, c) && InShape(idx, shape)
      ensures Total(mesh, axes, w, c, Entry(partial, idx)) == global(c)(at(c[a := 0], idx))
    {
      var f, g, s := Entry(locals, idx), Entry(partial, idx), Size(mesh, a);
      var sum := (b: Coord) => f(b[a := 0]);
      forall b ensures sum(b) == TotalAlong(mesh, s, a, [], w, b, g) {
        ZeroButFirst(mesh, s, a, w, b, f, g);
      }
      TotalReduce(mesh, axes, w, c, a, g, sum);
      assert w - {a} == partials;
      TotalFix(mesh, axes, partials, c, a, 0, f, sum);
      assert ValidCoord(mesh, c[a := 0]);
      ReadsEntry(mesh, axes, partials, shape, at, global, locals, c[a := 0], idx);
      SameGlobal(global, a, c, 0);
    }
  }

  lemma {:induction false} ZeroButFirst(mesh: Mesh, n: nat, a: Axis, partials: set<Axis>, b: Coord, f: Coord -> real, g: Coord -> real)
    requires n >= 1
    requires forall x {:trigger g(x)} :: g(x) == if Get(x, a) == 0 then f(x) else 0.0
    ensures TotalAlong(mesh, n, a, [], partials, b, g) == f(b[a := 0])
  {
    if n > 1 {
      ZeroButFirst(mesh, n - 1, a, partials, b, f, g);
      assert Get(b[a := n - 1], a) == n - 1;
    } else {
      assert Get(b[a := 0], a) == 0;
      assert TotalAlong(mesh, 0, a, [], partials, b, g) == 0.0;
    }
  }

  // ---------- the same for views ----------

  predicate Absent(v: View, a: Axis) {
    a !in v.partials && forall d | 0 <= d < |v.order| :: a !in v.order[d]
  }

  function Nested(v: View, d: nat, a: Axis): View
    requires d < |v.order|
  {
    v.(order := v.order[d := v.order[d] + [a]])
  }

  lemma NestedFits(mesh: Mesh, v: View, d: nat, a: Axis, shape: seq<nat>)
    requires d < |v.order| && ViewFits(mesh, Nested(v, d, a), shape)
    ensures ViewFits(mesh, v, shape)
    ensures LocalShape(mesh, Nested(v, d, a), shape) ==
            LocalShape(mesh, v, shape)[d := Extent(mesh, v.order[d] + [a], shape[d])]
  {
    EvenAppend(mesh, v.order[d], a, shape[d]);
    forall e | 0 <= e < |shape| ensures Even(mesh, v.order[e], shape[e]) {
      if e != d { assert Nested(v, d, a).order[e] == v.order[e]; }
    }
  }

  /** The same element, seen through the extra shard and without it. */
  lemma NestedIndex(mesh: Mesh, v: View, d: nat, a: Axis, c: Coord, shape: seq<nat>, idx: seq<int>)
    requires d < |v.order| && ViewFits(mesh, Nested(v, d, a), shape) && |idx| == |shape|
    requires Absent(v, a) && Get(c, a) >= 0
    ensures ViewFits(mesh, v, shape)
    ensures GlobalIndex(mesh, Nested(v, d, a), c, shape, idx) ==
            GlobalIndex(mesh, v, c, shape, idx[d := Offset(Get(c, a), Extent(mesh, v.order[d] + [a], shape[d])) + idx[d]])
  {
    NestedFits(mesh, v, d, a, shape);
    var w := Nested(v, d, a);
    var moved := idx[d := Offset(Get(c, a), Extent(mesh, v.order[d] + [a], shape[d])) + idx[d]];
    forall e | 0 <= e < |shape|
      ensures Position(mesh, w.order[e], c, shape[e], idx[e]) == Position(mesh, v.order[e], c, shape[e], moved[e])
    {
      if e == d { PositionAppend(mesh, v.order[d], a, c, shape[d], idx[d]); }
    }
  }

  lemma IndexIgnores(mesh: Mesh, v: View, c: Coord, a: Axis, j: int, shape: seq<nat>, idx: seq<int>)
    requires ViewFits(mesh, v, shape) && |idx| == |shape| && Absent(v, a)
    ensures GlobalIndex(mesh, v, c[a := j], shape, idx) == GlobalIndex(mesh, v, c, shape, idx)
  {
    forall d | 0 <= d < |shape|
      ensures Position(mesh, v.order[d], c[a := j], shape[d], idx[d]) == Position(mesh, v.order[d], c, shape[d], idx[d])
    {
      PositionIgnores(mesh, v.order[d], c, a, j, shape[d], idx[d]);
    }
  }

  /** The reading of a view. */
  function ReadingOf(mesh: Mesh, v: View, shape: seq<nat>): Reading
    requires ViewFits(mesh, v, shape)
  {
    (c, idx) => if |idx| == |shape| then GlobalIndex(mesh, v, c, shape, idx) else idx
  }

  lemma RepresentsReads(mesh: Mesh, axes: seq<Axis>, v: View, shape: seq<nat>, global: Coord -> (seq<int> -> real),
                        locals: Locals)
    requires ViewFits(mesh, v, shape)
    ensures Represents(mesh, axes, v, shape, global, locals)
       <==> Reads(mesh, axes, v.partials, LocalShape(mesh, v, shape), ReadingOf(mesh, v, shape), global, locals)
  {
  }

  /** Gathering the innermost shard of a dim. */
  lemma AllGatherLeg(mesh: Mesh, axes: seq<Axis>, v: View, d: nat, a: Axis, shape: seq<nat>, global: Coord -> (seq<int> -> real), locals: Locals)
    requires Setting(mesh, axes, a, global) && d < |v.order| && Absent(v, a)
    requires ViewFits(mesh, Nested(v, d, a), shape)
    requires Represents(mesh, axes, Nested(v, d, a), shape, global, locals)
    ensures ViewFits(mesh, v, shape)
    ensures Represents(mesh, axes, v, shape, global, AllGathered(mesh, a, d, locals))
  {
    var w := Nested(v, d, a);
    NestedFits(mesh, v, d, a, shape);
    EvenAppend(mesh, v.order[d], a, shape[d]);
    var inner, s, m := LocalShape(mesh, w, shape), Size(mesh, a), Extent(mesh, v.order[d] + [a], shape[d]);
    SharesCover(Extent(mesh, v.order[d], shape[d]), s);
    RepresentsReads(mesh, axes, w, shape, global, locals);
    RepresentsReads(mesh, axes, v, shape, global, AllGathered(mesh, a, d, locals));
    GatherReads(mesh, axes, v.partials, inner, ReadingOf(mesh, w, shape), global, locals, a, d);
    assert inner[d := Offset(s, m)] == LocalShape(mesh, v, shape);
    hide Reads, Represents, GlobalIndex, LocalShape, Offset, Share, Even, Extent;
    var gather, whole := GatherAt(ReadingOf(mesh, w, shape), a, d, m), ReadingOf(mesh, v, shape);
    forall c: Coord, idx: seq<int> | ValidCoord(mesh, c) && InShape(idx, LocalShape(mesh, v, shape))
      ensures gather(c, idx) == whole(c, idx)
    {
      GatherUndoesNesting(mesh, v, d, a, shape, c, idx);
    }
    ReadsSame(mesh, axes, v.partials, LocalShape(mesh, v, shape), gather, whole, global, AllGathered(mesh, a, d, locals));
  }

  lemma GatherUndoesNesting(mesh: Mesh, v: View, d: nat, a: Axis, shape: seq<nat>, c: Coord, idx: seq<int>)
    requires MeshOk(mesh) && a in mesh && d < |v.order| && Absent(v, a) && ValidCoord(mesh, c)
    requires ViewFits(mesh, Nested(v, d, a), shape) && ViewFits(mesh, v, shape)
    requires InShape(idx, LocalShape(mesh, v, shape))
    ensures GatherAt(ReadingOf(mesh, Nested(v, d, a), shape), a, d, Extent(mesh, v.order[d] + [a], shape[d]))(c, idx)
         == ReadingOf(mesh, v, shape)(c, idx)
  {
    var s, m := Size(mesh, a), Extent(mesh, v.order[d] + [a], shape[d]);
    EvenAppend(mesh, v.order[d], a, shape[d]);
    SharesCover(Extent(mesh, v.order[d], shape[d]), s);
    var q, k := Locate(idx[d], s, m);
    BlockOfOffset(q, m, k);
    NestedIndex(mesh, v, d, a, c[a := q], shape, idx[d := k]);
    assert idx[d := k][d := Offset(q, m) + k] == idx;
    IndexIgnores(mesh, v, c, a, q, shape, idx);
    assert Component(idx, d) == idx[d] && Replace(idx, d, k) == idx[d := k];
  }

  /** All-reducing a partial axis. */
  lemma AllReduceLeg(mesh: Mesh, axes: seq<Axis>, v: View, a: Axis, shape: seq<nat>, global: Coord -> (seq<int> -> real), locals: Locals)
    requires Setting(mesh, axes, a, global) && a in v.partials && ViewFits(mesh, v, shape)
    requires Represents(mesh, axes, v, shape, global, locals)
    ensures Represents(mesh, axes, v.(partials := v.partials - {a}), shape, global, AllReduced(mesh, a, locals))
  {
    var w := v.(partials := v.partials - {a});
    RepresentsReads(mesh, axes, v, shape, global, locals);
    RepresentsReads(mesh, axes, w, shape, global, AllReduced(mesh, a, locals));
    ReduceReads(mesh, axes, v.partials, LocalShape(mesh, v, shape), ReadingOf(mesh, v, shape), global, locals, a);
    PartialsMoveNothing(mesh, v, w, shape);
    ReadsSame(mesh, axes, w.partials, LocalShape(mesh, w, shape), ReadingOf(mesh, v, shape), ReadingOf(mesh, w, shape),
              global, AllReduced(mesh, a, locals));
  }

  lemma PartialsMoveNothing(mesh: Mesh, v: View, w: View, shape: seq<nat>)
    requires v.order == w.order && ViewFits(mesh, v, shape)
    ensures ViewFits(mesh, w, shape) && LocalShape(mesh, v, shape) == LocalShape(mesh, w, shape)
    ensures SameReading(mesh, LocalShape(mesh, w, shape), ReadingOf(mesh, v, shape), ReadingOf(mesh, w, shape))
  {
    forall c: Coord, idx: seq<int> | ValidCoord(mesh, c) && InShape(idx, LocalShape(mesh, w, shape))
      ensures ReadingOf(mesh, v, shape)(c, idx) == ReadingOf(mesh, w, shape)(c, idx)
    {
      assert GlobalIndex(mesh, v, c, shape, idx) == GlobalIndex(mesh, w, c, shape, idx);
    }
  }

  /** Taking a slice makes the axis the innermost shard of the dim. */
  lemma SliceLeg(mesh: Mesh, axes: seq<Axis>, v: View, d: nat, a: Axis, shape: seq<nat>, global: Coord -> (seq<int> -> real), locals: Locals)
    requires Setting(mesh, axes, a, global) && d < |v.order| && Absent(v, a)
    requires ViewFits(mesh, Nested(v, d, a), shape) && ViewFits(mesh, v, shape)
    requires Represents(mesh, axes, v, shape, global, locals)
    ensures Represents(mesh, axes, Nested(v, d, a), shape, global, Sliced(mesh, a, d, locals))
  {
    var w := Nested(v, d, a);
    NestedFits(mesh, v, d, a, shape);
    EvenAppend(mesh, v.order[d], a, shape[d]);
    var outer, m := LocalShape(mesh, v, shape), Extent(mesh, v.order[d] + [a], shape[d]);
    RepresentsReads(mesh, axes, v, shape, global, locals);
    RepresentsReads(mesh, axes, w, shape, global, Sliced(mesh, a, d, locals));
    SliceReads(mesh, axes, v.partials, outer, ReadingOf(mesh, v, shape), global, locals, a, d);
    assert outer[d := m] == LocalShape(mesh, w, shape);
    hide Reads, Represents, GlobalIndex, LocalShape, Offset, Share, Even, Extent;
    var slice, part := SliceAt(ReadingOf(mesh, v, shape), a, d, m), ReadingOf(mesh, w, shape);
    forall c: Coord, idx: seq<int> | ValidCoord(mesh, c) && InShape(idx, LocalShape(mesh, w, shape))
      ensures slice(c, idx) == part(c, idx)
    {
      SliceIsNesting(mesh, v, d, a, shape, c, idx);
    }
    ReadsSame(mesh, axes, w.partials, LocalShape(mesh, w, shape), slice, part, global, Sliced(mesh, a, d, locals));
  }

  lemma SliceIsNesting(mesh: Mesh, v: View, d: nat, a: Axis, shape: seq<nat>, c: Coord, idx: seq<int>)
    requires a in mesh && d < |v.order| && Absent(v, a) && ValidCoord(mesh, c)
    requires ViewFits(mesh, Nested(v, d, a), shape) && ViewFits(mesh, v, shape) && |idx| == |shape|
    ensures SliceAt(ReadingOf(mesh, v, shape), a, d, Extent(mesh, v.order[d] + [a], shape[d]))(c, idx)
         == ReadingOf(mesh, Nested(v, d, a), shape)(c, idx)
  {
    var m := Extent(mesh, v.order[d] + [a], shape[d]);
    var moved := idx[d := Offset(c[a], m) + idx[d]];
    assert Get(c, a) == c[a] && Component(idx, d) == idx[d] && Replace(idx, d, moved[d]) == moved;
    NestedIndex(mesh, v, d, a, c, shape, idx);
  }

  /** Rank 0 keeping the value is a partial sum of it. */
  lemma AsPartialLeg(mesh: Mesh, axes: seq<Axis>, v: View, a: Axis, shape: seq<nat>, global: Coord -> (seq<int> -> real), locals: Locals)
    requires Setting(mesh, axes, a, global) && Absent(v, a) && ViewFits(mesh, v, shape)
    requires Represents(mesh, axes, v, shape, global, locals)
    ensures Represents(mesh, axes, v.(partials := v.partials + {a}), shape, global, AsPartial(a, locals))
  {
    var w := v.(partials := v.partials + {a});
    RepresentsReads(mesh, axes, v, shape, global, locals);
    RepresentsReads(mesh, axes, w, shape, global, AsPartial(a, locals));
    var at := ReadingOf(mesh, v, shape);
    PartialReads(mesh, axes, v.partials, LocalShape(mesh, v, shape), at, global, locals, a);
    PartialsMoveNothing(mesh, v, w, shape);
    var zero: Reading := (c, idx) => at(c[a := 0], idx);
    forall c: Coord, idx: seq<int> | ValidCoord(mesh, c) && InShape(idx, LocalShape(mesh, w, shape))
      ensures zero(c, idx) == ReadingOf(mesh, w, shape)(c, idx)
    {
      IndexIgnores(mesh, v, c, a, 0, shape, idx);
      assert at(c, idx) == ReadingOf(mesh, w, shape)(c, idx);
    }
    ReadsSame(mesh, axes, w.partials, LocalShape(mesh, w, shape), zero, ReadingOf(mesh, w, shape), global, AsPartial(a, locals));
  }
}
