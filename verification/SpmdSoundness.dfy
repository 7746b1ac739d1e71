/** spmd_distribute_tensor defines what a layout means; every redistribution that the
    validator accepts, run as one per-axis collective, keeps that meaning. */
module SpmdSoundness {
  import opened Wrappers
  import opened Sums
  import opened SpmdTypes
  import opened SpmdTensors
  import opened SpmdCollectives

  // ---------- the order in which axes shard each dim ----------

  /** axis_shard_dims for local types: the S axes in dict order. */
  function LocalShards(entries: seq<(Axis, AxisType)>): seq<(Axis, int)> {
    if entries == [] then []
    else
      var (axis, axisType) := entries[|entries| - 1];
      LocalShards(entries[..|entries| - 1]) + if axisType.S? then [(axis, axisType.dim)] else []
  }

  function DimShards(axes: seq<Axis>, dim: int): (s: seq<(Axis, int)>)
    ensures |s| == |axes| && forall i | 0 <= i < |axes| :: s[i] == (axes[i], dim)
  {
    seq(|axes|, i requires 0 <= i < |axes| => (axes[i], dim))
  }

  /** axis_shard_dims for a PartitionSpec: dim by dim, each tuple in its own order. */
  function SpecShards(spec: seq<seq<Axis>>): seq<(Axis, int)> {
    if spec == [] then []
    else SpecShards(spec[..|spec| - 1]) + DimShards(spec[|spec| - 1], |spec| - 1)
  }

  function ShardList(layout: Layout): seq<(Axis, int)> {
    match layout.spec
    case None => LocalShards(layout.localType)
    case Some(spec) => SpecShards(spec)
  }

  predicate DimsInRange(shards: seq<(Axis, int)>, ndim: nat) {
    forall k | 0 <= k < |shards| :: 0 <= Norm(shards[k].1, ndim) < ndim
  }

  /** Sharding in list order nests each new axis inside the earlier ones of its dim. */
  function OrderOf(shards: seq<(Axis, int)>, ndim: nat): (order: seq<seq<Axis>>)
    requires DimsInRange(shards, ndim)
    ensures |order| == ndim
  {
    if shards == [] then seq(ndim, d => [])
    else
      var (axis, dim) := shards[|shards| - 1];
      var rest := OrderOf(shards[..|shards| - 1], ndim);
      rest[Norm(dim, ndim) := rest[Norm(dim, ndim)] + [axis]]
  }

  // ---------- well-formed layouts ----------

  predicate DistinctAxes(shards: seq<(Axis, int)>) {
    forall i, j | 0 <= i < j < |shards| :: shards[i].0 != shards[j].0
  }

  /** A layout for a tensor of rank ndim: dict keys are distinct, an axis shards at most one dim,
      and beside a PartitionSpec the local types name no shards of their own. */
  predicate WellFormed(layout: Layout, ndim: nat) {
    && (forall i, j | 0 <= i < j < |layout.localType| :: layout.localType[i].0 != layout.localType[j].0)
    && DistinctAxes(ShardList(layout)) && DimsInRange(ShardList(layout), ndim)
    && (layout.spec.Some? ==> |layout.spec.value| == ndim)
    && (layout.spec.Some? ==> forall i | 0 <= i < |layout.localType| :: !layout.localType[i].1.S?)
  }

  function Order(layout: Layout, ndim: nat): (order: seq<seq<Axis>>)
    requires WellFormed(layout, ndim)
    ensures |order| == ndim
  {
    OrderOf(ShardList(layout), ndim)
  }

  function ViewOf(layout: Layout, ndim: nat): View
    requires WellFormed(layout, ndim)
  {
    View(Order(layout, ndim), set a | a in PerAxis(layout) && PerAxis(layout)[a] == P)
  }

  /** Without a PartitionSpec, at most one axis shards each dim. */
  predicate OneAxisPerDim(layout: Layout, ndim: nat)
    requires WellFormed(layout, ndim)
  {
    layout.spec.None? ==> forall d | 0 <= d < ndim :: |Order(layout, ndim)[d]| <= 1
  }

  // ---------- orders and types agree ----------

  predicate ShardedBy(shards: seq<(Axis, int)>, a: Axis, d: int, ndim: nat) {
    exists k :: 0 <= k < |shards| && shards[k].0 == a && Norm(shards[k].1, ndim) == d
  }

  lemma {:induction false} OrderMembers(shards: seq<(Axis, int)>, ndim: nat, a: Axis, d: nat)
    requires DimsInRange(shards, ndim) && d < ndim
    ensures a in OrderOf(shards, ndim)[d] <==> ShardedBy(shards, a, d, ndim)
  {
    if shards != [] {
      var n := |shards| - 1;
      var init := shards[..n];
      OrderMembers(init, ndim, a, d);
      if ShardedBy(init, a, d, ndim) {
        var k :| 0 <= k < |init| && init[k].0 == a && Norm(init[k].1, ndim) == d;
        assert shards[k] == init[k];
      }
      if ShardedBy(shards, a, d, ndim) && !(shards[n].0 == a && Norm(shards[n].1, ndim) == d) {
        var k :| 0 <= k < |shards| && shards[k].0 == a && Norm(shards[k].1, ndim) == d;
        assert init[k] == shards[k];
      }
    }
  }

  /** No axis repeats inside one dim's order. */
  lemma {:induction false} OrderDistinct(shards: seq<(Axis, int)>, ndim: nat, d: nat)
    requires DimsInRange(shards, ndim) && DistinctAxes(shards) && d < ndim
    ensures forall i, j | 0 <= i < j < |OrderOf(shards, ndim)[d]| :: OrderOf(shards, ndim)[d][i] != OrderOf(shards, ndim)[d][j]
  {
    if shards != [] {
      var n := |shards| - 1;
      var init := shards[..n];
      OrderDistinct(init, ndim, d);
      OrderMembers(init, ndim, shards[n].0, d);
    }
  }

  lemma {:induction false} LocalTypeOf(entries: seq<(Axis, AxisType)>, k: nat)
    requires k < |entries|
    requires forall i, j | 0 <= i < j < |entries| :: entries[i].0 != entries[j].0
    ensures entries[k].0 in LocalTypes(entries) && LocalTypes(entries)[entries[k].0] == entries[k].1
  {
    var n := |entries| - 1;
    if k < n { LocalTypeOf(entries[..n], k); }
  }

  lemma {:induction false} LocalTypeFrom(entries: seq<(Axis, AxisType)>, a: Axis) returns (k: nat)
    requires a in LocalTypes(entries)
    ensures k < |entries| && entries[k].0 == a && entries[k].1 == LocalTypes(entries)[a]
  {
    var n := |entries| - 1;
    if entries[n].0 == a { k := n; } else { k := LocalTypeFrom(entries[..n], a); }
  }

  lemma {:induction false} LocalShardFrom(entries: seq<(Axis, AxisType)>, m: nat) returns (k: nat)
    requires m < |LocalShards(entries)|
    ensures k < |entries| && entries[k] == (LocalShards(entries)[m].0, S(LocalShards(entries)[m].1))
  {
    var n := |entries| - 1;
    if m < |LocalShards(entries[..n])| { k := LocalShardFrom(entries[..n], m); } else { k := n; }
  }

  lemma {:induction false} LocalShardOf(entries: seq<(Axis, AxisType)>, k: nat) returns (m: nat)
    requires k < |entries| && entries[k].1.S?
    ensures m < |LocalShards(entries)| && LocalShards(entries)[m] == (entries[k].0, entries[k].1.dim)
  {
    var n := |entries| - 1;
    if k < n { m := LocalShardOf(entries[..n], k); } else { m := |LocalShards(entries[..n])|; }
  }

  lemma {:induction false} WithShardsAt(types: AxisTypes, axes: seq<Axis>, dim: int, a: Axis)
    ensures a in axes ==> a in WithShards(types, axes, dim) && WithShards(types, axes, dim)[a] == S(dim)
    ensures a !in axes ==> (a in WithShards(types, axes, dim) <==> a in types)
    ensures a !in axes && a in types ==> WithShards(types, axes, dim)[a] == types[a]
  {
    if axes != [] {
      var n := |axes| - 1;
      assert axes == axes[..n] + [axes[n]];
      WithShardsAt(types, axes[..n], dim, a);
    }
  }

  /** The last dim that lists a, or -1. */
  function LastDim(spec: seq<seq<Axis>>, a: Axis): int {
    if spec == [] then -1
    else if a in spec[|spec| - 1] then |spec| - 1
    else LastDim(spec[..|spec| - 1], a)
  }

  lemma {:induction false} LastDimIs(spec: seq<seq<Axis>>, a: Axis, d: int)
    requires -1 <= d < |spec| && (d >= 0 ==> a in spec[d])
    requires forall e | d < e < |spec| :: a !in spec[e]
    ensures LastDim(spec, a) == d
  {
    if d < |spec| - 1 { LastDimIs(spec[..|spec| - 1], a, d); }
  }

  lemma {:induction false} WithSpecLast(types: AxisTypes, spec: seq<seq<Axis>>, a: Axis)
    ensures LastDim(spec, a) == -1 ==> (a in WithSpec(types, spec) <==> a in types)
    ensures LastDim(spec, a) == -1 && a in types ==> WithSpec(types, spec)[a] == types[a]
    ensures LastDim(spec, a) >= 0 ==> a in WithSpec(types, spec) && WithSpec(types, spec)[a] == S(LastDim(spec, a))
    ensures LastDim(spec, a) >= -1
  {
    hide WithShards;
    if spec != [] {
      var n := |spec| - 1;
      WithSpecLast(types, spec[..n], a);
      WithShardsAt(WithSpec(types, spec[..n]), spec[n], n, a);
    }
  }

  /** In spec order, the last dim that lists a decides its type. */
  lemma WithSpecAt(types: AxisTypes, spec: seq<seq<Axis>>, a: Axis)
    ensures (forall d | 0 <= d < |spec| :: a !in spec[d]) ==> (a in WithSpec(types, spec) <==> a in types)
    ensures (forall d | 0 <= d < |spec| :: a !in spec[d]) && a in types ==> WithSpec(types, spec)[a] == types[a]
    ensures forall d | 0 <= d < |spec| && a in spec[d] && (forall e | d < e < |spec| :: a !in spec[e]) ::
      a in WithSpec(types, spec) && WithSpec(types, spec)[a] == S(d)
  {
    hide WithSpec, LastDim;
    WithSpecLast(types, spec, a);
    if forall d | 0 <= d < |spec| :: a !in spec[d] {
      LastDimIs(spec, a, -1);
    }
    forall d | 0 <= d < |spec| && a in spec[d] && (forall e | d < e < |spec| :: a !in spec[e]) ensures LastDim(spec, a) == d {
      LastDimIs(spec, a, d);
    }
  }

  lemma OrderStep(shards: seq<(Axis, int)>, axis: Axis, d: nat, ndim: nat)
    requires DimsInRange(shards, ndim) && d < ndim
    ensures DimsInRange(shards + [(axis, d)], ndim)
    ensures OrderOf(shards + [(axis, d)], ndim) == OrderOf(shards, ndim)[d := OrderOf(shards, ndim)[d] + [axis]]
  {
    var all := shards + [(axis, d as int)];
    assert all[..|all| - 1] == shards && all[|all| - 1] == (axis, d as int);
    assert forall k | 0 <= k < |all| :: k < |shards| ==> all[k] == shards[k];
    assert Norm(d, ndim) == d;
  }

  lemma {:induction false} AppendShards(shards: seq<(Axis, int)>, axes: seq<Axis>, d: nat, ndim: nat)
    requires DimsInRange(shards, ndim) && d < ndim
    ensures DimsInRange(shards + DimShards(axes, d), ndim)
    ensures OrderOf(shards + DimShards(axes, d), ndim) == OrderOf(shards, ndim)[d := OrderOf(shards, ndim)[d] + axes]
  {
    hide OrderOf;
    if axes == [] {
      assert shards + DimShards(axes, d) == shards;
      assert OrderOf(shards, ndim)[d] + axes == OrderOf(shards, ndim)[d];
    } else {
      var n := |axes| - 1;
      AppendShards(shards, axes[..n], d, ndim);
      var init := shards + DimShards(axes[..n], d);
      OrderStep(init, axes[n], d, ndim);
      assert shards + DimShards(axes, d) == init + [(axes[n], d as int)];
      assert (OrderOf(shards, ndim)[d] + axes[..n]) + [axes[n]] == OrderOf(shards, ndim)[d] + axes;
    }
  }

  predicate OrderIsSpec(order: seq<seq<Axis>>, spec: seq<seq<Axis>>) {
    forall d | 0 <= d < |order| :: order[d] == if d < |spec| then spec[d] else []
  }

  /** Listing a PartitionSpec dim by dim nests the axes exactly as its tuples say. */
  lemma {:induction false} SpecOrder(spec: seq<seq<Axis>>, ndim: nat)
    requires |spec| <= ndim
    ensures DimsInRange(SpecShards(spec), ndim)
    ensures OrderIsSpec(OrderOf(SpecShards(spec), ndim), spec)
  {
    if spec != [] {
      var n := |spec| - 1;
      SpecOrder(spec[..n], ndim);
      AppendShards(SpecShards(spec[..n]), spec[n], n, ndim);
      SpecOrderStep(OrderOf(SpecShards(spec[..n]), ndim), spec, ndim);
    } else {
      assert SpecShards(spec) == [];
    }
  }

  lemma SpecOrderStep(order: seq<seq<Axis>>, spec: seq<seq<Axis>>, ndim: nat)
    requires 0 < |spec| <= ndim == |order| && OrderIsSpec(order, spec[..|spec| - 1])
    ensures OrderIsSpec(order[|spec| - 1 := order[|spec| - 1] + spec[|spec| - 1]], spec)
  {
    var n := |spec| - 1;
    assert [] + spec[n] == spec[n];
    forall d | 0 <= d < ndim && d != n ensures order[d] == if d < |spec| then spec[d] else [] {
      if d < n { assert spec[..n][d] == spec[d]; }
    }
  }

  /** An axis shards dim d in the order exactly when its type says so. */
  lemma TypeMatchesOrder(layout: Layout, ndim: nat, a: Axis, d: nat)
    requires WellFormed(layout, ndim) && d < ndim
    ensures a in Order(layout, ndim)[d] <==>
            a in PerAxis(layout) && PerAxis(layout)[a].S? && Norm(PerAxis(layout)[a].dim, ndim) == d
  {
    var shards := ShardList(layout);
    OrderMembers(shards, ndim, a, d);
    match layout.spec
    case None =>
      var entries := layout.localType;
      if ShardedBy(shards, a, d, ndim) {
        var m :| 0 <= m < |shards| && shards[m].0 == a && Norm(shards[m].1, ndim) == d;
        var k := LocalShardFrom(entries, m);
        LocalTypeOf(entries, k);
      }
      if a in PerAxis(layout) && PerAxis(layout)[a].S? && Norm(PerAxis(layout)[a].dim, ndim) == d {
        var k := LocalTypeFrom(entries, a);
        var m := LocalShardOf(entries, k);
        assert shards[m].0 == a && Norm(shards[m].1, ndim) == d;
      }
    case Some(spec) =>
      SpecTypeMatches(layout, spec, ndim, a, d);
  }

  lemma SpecTypeMatches(layout: Layout, spec: seq<seq<Axis>>, ndim: nat, a: Axis, d: nat)
    requires WellFormed(layout, ndim) && layout.spec == Some(spec) && d < ndim
    ensures a in Order(layout, ndim)[d] <==>
            a in PerAxis(layout) && PerAxis(layout)[a].S? && Norm(PerAxis(layout)[a].dim, ndim) == d
  {
    hide OrderOf, DistinctAxes, WithSpec;
    SpecOrder(spec, ndim);
    var order := Order(layout, ndim);
    assert forall e | 0 <= e < ndim :: order[e] == spec[e];
    var types := LocalTypes(layout.localType);
    WithSpecAt(types, spec, a);
    if a in types {
      var k := LocalTypeFrom(layout.localType, a);
      assert !types[a].S?;
    }
    forall e | 0 <= e < ndim && a in spec[e] ensures forall g | 0 <= g < ndim && g != e :: a !in spec[g] {
      forall g | 0 <= g < ndim && g != e ensures a !in spec[g] {
        if a in spec[g] { OneDimOnly(ShardList(layout), ndim, a, e, g); }
      }
    }
  }

  /** Distinct axes shard at most one dim. */
  lemma OneDimOnly(shards: seq<(Axis, int)>, ndim: nat, a: Axis, d: nat, e: nat)
    requires DimsInRange(shards, ndim) && DistinctAxes(shards) && d < ndim && e < ndim
    requires a in OrderOf(shards, ndim)[d] && a in OrderOf(shards, ndim)[e]
    ensures d == e
  {
    OrderMembers(shards, ndim, a, d);
    OrderMembers(shards, ndim, a, e);
    var j :| 0 <= j < |shards| && shards[j].0 == a && Norm(shards[j].1, ndim) == d;
    var k :| 0 <= k < |shards| && shards[k].0 == a && Norm(shards[k].1, ndim) == e;
  }

  // ---------- distributing a tensor establishes the meaning of its layout ----------

  lemma {:induction false} PrefixFits(mesh: Mesh, shards: seq<(Axis, int)>, k: nat, shape: seq<nat>)
    requires k <= |shards| && DimsInRange(shards, |shape|)
    requires ViewFits(mesh, View(OrderOf(shards, |shape|), {}), shape)
    ensures ViewFits(mesh, View(OrderOf(shards[..k], |shape|), {}), shape)
    decreases |shards| - k
  {
    if k == |shards| {
      assert shards[..k] == shards;
    } else {
      PrefixFits(mesh, shards, k + 1, shape);
      var v, d := View(OrderOf(shards[..k], |shape|), {}), Norm(shards[k].1, |shape|);
      assert shards[..k + 1][..k] == shards[..k];
      assert Nested(v, d, shards[k].0) == View(OrderOf(shards[..k + 1], |shape|), {});
      NestedFits(mesh, v, d, shards[k].0, shape);
    }
  }

  lemma LaterAxisAbsent(shards: seq<(Axis, int)>, k: nat, ndim: nat)
    requires k < |shards| && DimsInRange(shards, ndim) && DistinctAxes(shards)
    ensures Absent(View(OrderOf(shards[..k], ndim), {}), shards[k].0)
  {
    forall d | 0 <= d < ndim ensures shards[k].0 !in OrderOf(shards[..k], ndim)[d] {
      OrderMembers(shards[..k], ndim, shards[k].0, d);
    }
  }

  /** The tensor, whole on every rank. */
  lemma WholeTensor(mesh: Mesh, axes: seq<Axis>, tensor: Tensor, locals: Locals)
    requires forall c :: locals(c) == tensor
    ensures ViewFits(mesh, View(OrderOf([], |tensor.shape|), {}), tensor.shape)
    ensures Represents(mesh, axes, View(OrderOf([], |tensor.shape|), {}), tensor.shape, c => tensor.at, locals)
  {
    var shape := tensor.shape;
    var v := View(OrderOf([], |shape|), {});
    assert LocalShape(mesh, v, shape) == shape;
    forall c, idx | ValidCoord(mesh, c) && InShape(idx, shape)
      ensures Total(mesh, axes, {}, c, Entry(locals, idx)) == tensor.at(GlobalIndex(mesh, v, c, shape, idx))
    {
      NoPartials(mesh, axes, c, Entry(locals, idx));
      assert GlobalIndex(mesh, v, c, shape, idx) == idx;
    }
  }

  lemma {:induction false} NoPartials(mesh: Mesh, axes: seq<Axis>, c: Coord, f: Coord -> real)
    ensures Total(mesh, axes, {}, c, f) == f(c)
  {
    if axes != [] { NoPartials(mesh, axes[1..], c, f); }
  }

  /** spmd_distribute_tensor: shard by each axis in turn, skipping axes of size 1. */
  method DistributeTensor(tensor: Tensor, mesh: Mesh, layout: Layout, ghost axes: seq<Axis>) returns (locals: Locals)
    requires MeshOk(mesh) && IsMeshOrder(mesh, axes)
    requires WellFormed(layout, |tensor.shape|)
    requires ViewFits(mesh, View(Order(layout, |tensor.shape|), {}), tensor.shape)
    ensures Represents(mesh, axes, View(Order(layout, |tensor.shape|), {}), tensor.shape, c => tensor.at, locals)
  {
    var ndim := |tensor.shape|;
    var shards := ShardList(layout);
    ghost var global := (c: Coord) => tensor.at;
    locals := c => tensor;
    WholeTensor(mesh, axes, tensor, locals);
    for k := 0 to |shards|
      invariant ViewFits(mesh, View(OrderOf(shards[..k], ndim), {}), tensor.shape)
      invariant Represents(mesh, axes, View(OrderOf(shards[..k], ndim), {}), tensor.shape, global, locals)
    {
      var (axis, dim) := shards[k];
      ghost var v := View(OrderOf(shards[..k], ndim), {});
      LaterAxisAbsent(shards, k, ndim);
      PrefixFits(mesh, shards, k + 1, tensor.shape);
      assert shards[..k + 1][..k] == shards[..k];
      assert Nested(v, Norm(dim, ndim), axis) == View(OrderOf(shards[..k + 1], ndim), {});
      var size := if axis in mesh then mesh[axis] else 1;
      if size > 1 {
        SliceLeg(mesh, axes, v, Norm(dim, ndim), axis, tensor.shape, global, locals);
        locals := Sliced(mesh, axis, Norm(dim, ndim), locals);
      } else {
        SizeOneShard(mesh, axes, v, Norm(dim, ndim), axis, tensor.shape, global, locals);
      }
    }
    assert shards[..|shards|] == shards;
  }

  // ---------- axes of size 1 ----------

  lemma ShareOfOne(n: nat)
    ensures Splits(n, 1) && Share(n, 1) == n
  {
    SplitsIsDivisibility(n, 1);
  }

  /** A shard over an axis of size 1 changes nothing. */
  lemma SizeOneShard(mesh: Mesh, axes: seq<Axis>, v: View, d: nat, a: Axis, shape: seq<nat>, global: Coord -> (seq<int> -> real), locals: Locals)
    requires MeshOk(mesh) && d < |v.order| && Absent(v, a) && Size(mesh, a) == 1
    requires ViewFits(mesh, v, shape) && ViewFits(mesh, Nested(v, d, a), shape)
    ensures Represents(mesh, axes, v, shape, global, locals) <==> Represents(mesh, axes, Nested(v, d, a), shape, global, locals)
  {
    NestedFits(mesh, v, d, a, shape);
    EvenAppend(mesh, v.order[d], a, shape[d]);
    ShareOfOne(Extent(mesh, v.order[d], shape[d]));
    assert LocalShape(mesh, Nested(v, d, a), shape) == LocalShape(mesh, v, shape);
    forall c: Coord, idx | ValidCoord(mesh, c) && |idx| == |shape|
      ensures GlobalIndex(mesh, Nested(v, d, a), c, shape, idx) == GlobalIndex(mesh, v, c, shape, idx)
    {
      NestedIndex(mesh, v, d, a, c, shape, idx);
      assert Get(c, a) == 0;
      assert idx[d := 0 + idx[d]] == idx;
    }
  }

  lemma {:induction false} TotalSizeOne(mesh: Mesh, axes: seq<Axis>, p: set<Axis>, c: Coord, a: Axis, f: Coord -> real)
    requires MeshOk(mesh) && ValidCoord(mesh, c) && Size(mesh, a) == 1 && forall x | x in axes :: x in mesh
    ensures Total(mesh, axes, p + {a}, c, f) == Total(mesh, axes, p - {a}, c, f)
    decreases |axes|, 0
  {
    if axes != [] {
      var x, rest := axes[0], axes[1..];
      if x == a {
        assert c[a := 0] == c;
        assert TotalAlong(mesh, 0, a, rest, p + {a}, c, f) == 0.0;
        TotalSizeOne(mesh, rest, p, c, a, f);
      } else if x in p {
        AlongSizeOne(mesh, Size(mesh, x), x, rest, p, c, a, f);
      } else {
        TotalSizeOne(mesh, rest, p, c, a, f);
      }
    }
  }

  lemma {:induction false} AlongSizeOne(mesh: Mesh, n: nat, x: Axis, rest: seq<Axis>, p: set<Axis>, c: Coord, a: Axis, f: Coord -> real)
    requires MeshOk(mesh) && ValidCoord(mesh, c) && Size(mesh, a) == 1 && forall y | y in rest :: y in mesh
    requires x in mesh && n <= mesh[x]
    ensures TotalAlong(mesh, n, x, rest, p + {a}, c, f) == TotalAlong(mesh, n, x, rest, p - {a}, c, f)
    decreases |rest|, 1 + n
  {
    if n > 0 {
      AlongSizeOne(mesh, n - 1, x, rest, p, c, a, f);
      assert ValidCoord(mesh, c[x := n - 1]);
      TotalSizeOne(mesh, rest, p, c[x := n - 1], a, f);
    }
  }

  lemma SizeOnePartial(mesh: Mesh, axes: seq<Axis>, v: View, a: Axis, shape: seq<nat>, global: Coord -> (seq<int> -> real), locals: Locals)
    requires MeshOk(mesh) && IsMeshOrder(mesh, axes) && Size(mesh, a) == 1 && ViewFits(mesh, v, shape) && a !in v.partials
    ensures Represents(mesh, axes, v, shape, global, locals) <==>
            Represents(mesh, axes, v.(partials := v.partials + {a}), shape, global, locals)
  {
    var w := v.(partials := v.partials + {a});
    assert LocalShape(mesh, w, shape) == LocalShape(mesh, v, shape);
    assert v.partials - {a} == v.partials;
    forall c, idx | ValidCoord(mesh, c) && |idx| == |shape|
      ensures Total(mesh, axes, w.partials, c, Entry(locals, idx)) == Total(mesh, axes, v.partials, c, Entry(locals, idx))
      ensures GlobalIndex(mesh, w, c, shape, idx) == GlobalIndex(mesh, v, c, shape, idx)
    {
      TotalSizeOne(mesh, axes, v.partials, c, a, Entry(locals, idx));
      assert GlobalIndex(mesh, w, c, shape, idx) == GlobalIndex(mesh, v, c, shape, idx);
    }
  }

  // ---------- one axis leaves, or joins, a view ----------

  /** Adding axis a, so far absent, with type t. */
  function Join(v: View, a: Axis, t: AxisType): View
    requires t.S? ==> 0 <= Norm(t.dim, |v.order|) < |v.order|
  {
    match t
    case P => v.(partials := v.partials + {a})
    case S(dim) => Nested(v, Norm(dim, |v.order|), a)
    case _ => v
  }

  lemma LeaveAxis(mesh: Mesh, axes: seq<Axis>, mid: View, a: Axis, t: AxisType, shape: seq<nat>,
                  global: Coord -> (seq<int> -> real), locals: Locals)
    requires Setting(mesh, axes, a, global) && Absent(mid, a) && |mid.order| == |shape|
    requires t.S? ==> 0 <= Norm(t.dim, |shape|) < |shape|
    requires ViewFits(mesh, Join(mid, a, t), shape) && Represents(mesh, axes, Join(mid, a, t), shape, global, locals)
    ensures ViewFits(mesh, mid, shape)
    ensures Represents(mesh, axes, mid, shape, global, ToReplicated(mesh, a, t, |shape|, locals))
  {
    match t
    case P =>
      AllReduceLeg(mesh, axes, Join(mid, a, t), a, shape, global, locals);
      assert Join(mid, a, t).(partials := Join(mid, a, t).partials - {a}) == mid;
    case S(dim) =>
      AllGatherLeg(mesh, axes, mid, Norm(dim, |shape|), a, shape, global, locals);
    case _ =>
  }

  lemma JoinAxis(mesh: Mesh, axes: seq<Axis>, mid: View, a: Axis, t: AxisType, shape: seq<nat>,
                 global: Coord -> (seq<int> -> real), locals: Locals)
    requires Setting(mesh, axes, a, global) && Absent(mid, a) && |mid.order| == |shape|
    requires t.S? ==> 0 <= Norm(t.dim, |shape|) < |shape|
    requires ViewFits(mesh, Join(mid, a, t), shape) && ViewFits(mesh, mid, shape)
    requires Represents(mesh, axes, mid, shape, global, locals)
    ensures Represents(mesh, axes, Join(mid, a, t), shape, global, FromReplicated(mesh, a, t, |shape|, locals))
  {
    match t
    case P => AsPartialLeg(mesh, axes, mid, a, shape, global, locals);
    case S(dim) => SliceLeg(mesh, axes, mid, Norm(dim, |shape|), a, shape, global, locals);
    case _ =>
  }

  lemma MidFits(mesh: Mesh, mid: View, a: Axis, t: AxisType, shape: seq<nat>)
    requires |mid.order| == |shape| && (t.S? ==> 0 <= Norm(t.dim, |shape|) < |shape|)
    requires ViewFits(mesh, Join(mid, a, t), shape)
    ensures ViewFits(mesh, mid, shape)
  {
    if t.S? { NestedFits(mesh, mid, Norm(t.dim, |shape|), a, shape); }
  }

  // ---------- what the validator's acceptance means for the orders ----------

  lemma {:induction false} NormalizedOrder(entries: seq<(Axis, AxisType)>, ndim: nat)
    requires ShardDimsInRange(entries, ndim) && DimsInRange(LocalShards(entries), ndim)
    requires forall d | 0 <= d < ndim :: |OrderOf(LocalShards(entries), ndim)[d]| <= 1
    ensures Normalized(entries, ndim) == OrderOf(LocalShards(entries), ndim)
  {
    if entries != [] {
      var n := |entries| - 1;
      var init, shards := entries[..n], LocalShards(entries);
      if entries[n].1.S? {
        var m := |shards| - 1;
        assert shards[..m] == LocalShards(init);
        var d := Norm(entries[n].1.dim, ndim);
        var rest := OrderOf(LocalShards(init), ndim);
        assert OrderOf(shards, ndim) == rest[d := rest[d] + [entries[n].0]];
        forall e | 0 <= e < ndim ensures |rest[e]| <= 1 && (e == d ==> rest[e] == []) {
          assert |OrderOf(shards, ndim)[e]| <= 1;
        }
        NormalizedOrder(init, ndim);
        assert rest[d] + [entries[n].0] == [entries[n].0];
        assert Normalized(entries, ndim) == rest[d := [entries[n].0]];
      } else {
        assert shards == LocalShards(init);
        NormalizedOrder(init, ndim);
      }
    }
  }

  /** All dims step by at most the changed axis, added or removed innermost. */
  predicate OrdersStep(src: seq<seq<Axis>>, dst: seq<seq<Axis>>, changed: set<Axis>) {
    |src| == |dst| && forall d | 0 <= d < |src| :: InnermostStep(src[d], dst[d], changed)
  }

  lemma AcceptedOrders(src: Layout, dst: Layout, ndim: nat)
    requires WellFormed(src, ndim) && WellFormed(dst, ndim) && OneAxisPerDim(src, ndim) && OneAxisPerDim(dst, ndim)
    requires Accepts(src, dst)
    ensures OrdersStep(Order(src, ndim), Order(dst, ndim), Changed(PerAxis(src), PerAxis(dst)))
  {
    if src.spec.None? && dst.spec.None? {
      forall d | 0 <= d < ndim
        ensures InnermostStep(Order(src, ndim)[d], Order(dst, ndim)[d], Changed(PerAxis(src), PerAxis(dst)))
      {
        SpecFreeStep(src, dst, ndim, d);
      }
    } else {
      EntriesAreOrder(src, ndim);
      EntriesAreOrder(dst, ndim);
    }
  }

  lemma DimsComparable(layout: Layout, ndim: nat)
    requires WellFormed(layout, ndim)
    ensures Comparable(layout, ndim)
  {
    if layout.spec.None? {
      forall k | 0 <= k < |layout.localType| && layout.localType[k].1.S?
        ensures 0 <= Norm(layout.localType[k].1.dim, ndim) < ndim
      {
        var m := LocalShardOf(layout.localType, k);
      }
    }
  }

  /** The check lets through exactly the one-axis changes in which every dim keeps its shard axes, or gains or loses the
      changed axis innermost. */
  lemma AcceptedExactly(src: Layout, dst: Layout, ndim: nat)
    requires WellFormed(src, ndim) && WellFormed(dst, ndim) && OneAxisPerDim(src, ndim) && OneAxisPerDim(dst, ndim)
    ensures Accepts(src, dst) <==>
      OneChange(src, dst) && OrdersStep(Order(src, ndim), Order(dst, ndim), Changed(PerAxis(src), PerAxis(dst)))
  {
    hide InnermostStep, DistinctAxes, DimsInRange, OrderOf, PerAxis, OneChange;
    if Accepts(src, dst) {
      AcceptedOrders(src, dst, ndim);
    }
    DimsComparable(src, ndim);
    DimsComparable(dst, ndim);
    EntriesAreOrder(src, ndim);
    EntriesAreOrder(dst, ndim);
  }

  /** The layouts of a ShardingConfig: inputs by name, and one output. */
  datatype ShardingConfig = ShardingConfig(inSrc: map<string, Layout>, inDst: map<string, Layout>,
                                           outSrc: Option<Layout>, outDst: Option<Layout>)

  predicate Plain(src: Layout, dst: Layout, ndim: nat) {
    WellFormed(src, ndim) && WellFormed(dst, ndim) && OneAxisPerDim(src, ndim) && OneAxisPerDim(dst, ndim)
  }

  /** One axis, not from or to varying, changes, and only as the innermost shard of a dim. */
  predicate SingleCollective(src: Layout, dst: Layout, ndim: nat)
    requires Plain(src, dst, ndim)
  {
    OneChange(src, dst) && OrdersStep(Order(src, ndim), Order(dst, ndim), Changed(PerAxis(src), PerAxis(dst)))
  }

  /** spmd_validate_redistributions, for tensors of the given ranks: it passes exactly when every pair is one collective. */
  method ValidateRedistributions(config: ShardingConfig, ghost ranks: map<string, nat>, ghost outRank: nat)
    returns (error: Option<LayoutError>)
    requires forall name | name in config.inSrc && name in config.inDst ::
      name in ranks && Plain(config.inSrc[name], config.inDst[name], ranks[name])
    requires config.outSrc.Some? && config.outDst.Some? ==> Plain(config.outSrc.value, config.outDst.value, outRank)
    ensures error.None? <==>
      (forall name | name in config.inSrc && name in config.inDst ::
         SingleCollective(config.inSrc[name], config.inDst[name], ranks[name])) &&
      (config.outSrc.Some? && config.outDst.Some? ==> SingleCollective(config.outSrc.value, config.outDst.value, outRank))
  {
    hide WellFormed, OneAxisPerDim, OneChange, OrdersStep, Accepts, Order, PerAxis, Changed;
    var names := config.inSrc.Keys * config.inDst.Keys;
    while names != {}
      invariant names <= config.inSrc.Keys * config.inDst.Keys
      invariant forall name | name in config.inSrc && name in config.inDst && name !in names ::
        SingleCollective(config.inSrc[name], config.inDst[name], ranks[name])
    {
      var name :| name in names;
      error := ValidatePair(config.inSrc[name], config.inDst[name]);
      AcceptedExactly(config.inSrc[name], config.inDst[name], ranks[name]);
      if error.Some? {
        return;
      }
      names := names - {name};
    }
    error := None;
    if config.outSrc.Some? && config.outDst.Some? {
      error := ValidatePair(config.outSrc.value, config.outDst.value);
      AcceptedExactly(config.outSrc.value, config.outDst.value, outRank);
    }
  }

  lemma EntriesAreOrder(layout: Layout, ndim: nat)
    requires WellFormed(layout, ndim) && OneAxisPerDim(layout, ndim) && Comparable(layout, ndim)
    ensures Entries(layout, ndim) == Order(layout, ndim)
  {
    if layout.spec.Some? {
      SpecOrder(layout.spec.value, ndim);
    } else {
      assert Order(layout, ndim) == OrderOf(LocalShards(layout.localType), ndim);
      NormalizedOrder(layout.localType, ndim);
    }
  }

  /** With one axis per dim, the types alone fix the order. */
  lemma SpecFreeStep(src: Layout, dst: Layout, ndim: nat, d: nat)
    requires WellFormed(src, ndim) && WellFormed(dst, ndim) && OneAxisPerDim(src, ndim) && OneAxisPerDim(dst, ndim)
    requires Accepts(src, dst) && src.spec.None? && dst.spec.None? && d < ndim
    ensures InnermostStep(Order(src, ndim)[d], Order(dst, ndim)[d], Changed(PerAxis(src), PerAxis(dst)))
  {
    hide OrderOf, DistinctAxes, DimsInRange, SpecsAccepted, LocalTypes;
    var s, t, changed := Order(src, ndim)[d], Order(dst, ndim)[d], Changed(PerAxis(src), PerAxis(dst));
    if s != t {
      if s != [] {
        TypeMatchesOrder(src, ndim, s[0], d);
        TypeMatchesOrder(dst, ndim, s[0], d);
        assert s[0] in changed;
      }
      if t != [] {
        TypeMatchesOrder(src, ndim, t[0], d);
        TypeMatchesOrder(dst, ndim, t[0], d);
        assert t[0] in changed;
      }
      if s != [] && t != [] {
        AtMostOne(changed, s[0]);
        assert false;
      }
      if s == [] { assert t == s + [t[0]]; } else { assert s == t + [s[0]]; }
    }
  }

  lemma SpecDim(layout: Layout, ndim: nat, a: Axis, d: nat)
    requires WellFormed(layout, ndim) && layout.spec.Some? && d < ndim && a in Order(layout, ndim)[d]
    ensures a in PerAxis(layout) && PerAxis(layout)[a] == S(d)
  {
    hide OrderOf, DistinctAxes;
    var spec := layout.spec.value;
    SpecOrder(spec, ndim);
    WithSpecAt(LocalTypes(layout.localType), spec, a);
    forall e | d < e < ndim ensures a !in spec[e] {
      if a in spec[e] { OneDimOnly(ShardList(layout), ndim, a, d, e); }
    }
  }

  lemma ShardDimInRange(layout: Layout, ndim: nat, a: Axis)
    requires WellFormed(layout, ndim) && a in PerAxis(layout) && PerAxis(layout)[a].S?
    ensures 0 <= Norm(PerAxis(layout)[a].dim, ndim) < ndim
  {
    match layout.spec
    case None =>
      var k := LocalTypeFrom(layout.localType, a);
      var m := LocalShardOf(layout.localType, k);
      assert 0 <= Norm(ShardList(layout)[m].1, ndim) < ndim;
    case Some(spec) =>
      SpecTypeInRange(layout, spec, ndim, a);
  }

  lemma SpecTypeInRange(layout: Layout, spec: seq<seq<Axis>>, ndim: nat, a: Axis)
    requires WellFormed(layout, ndim) && layout.spec == Some(spec) && a in PerAxis(layout) && PerAxis(layout)[a].S?
    ensures 0 <= Norm(PerAxis(layout)[a].dim, ndim) < ndim
  {
    var types := LocalTypes(layout.localType);
    WithSpecAt(types, spec, a);
    if forall d | 0 <= d < |spec| :: a !in spec[d] {
      var k := LocalTypeFrom(layout.localType, a);
      assert false;
    } else {
      var d :| 0 <= d < |spec| && a in spec[d];
      SpecOrder(spec, ndim);
      SpecDim(layout, ndim, a, d);
    }
  }

  /** What spmd_redistribute_per_axis computes for an accepted pair: one collective, or nothing. */
  ghost predicate IsRedistributed(mesh: Mesh, src: Layout, dst: Layout, ndim: nat, locals: Locals, result: Locals) {
    var s, t := PerAxis(src), PerAxis(dst);
    && (forall a | a in Changed(s, t) && a in s && a in t && Size(mesh, a) > 1 ::
         result == AxisRedistribute(mesh, a, s[a], t[a], ndim, locals))
    && ((forall a | a in Changed(s, t) :: Size(mesh, a) <= 1) ==> result == locals)
  }

  method RedistributePerAxis(locals: Locals, mesh: Option<Mesh>, src: Layout, dst: Layout, ndim: nat) returns (x: Locals)
    requires Accepts(src, dst)
    ensures mesh.None? ==> x == locals
    ensures mesh.Some? ==> IsRedistributed(mesh.value, src, dst, ndim, locals, x)
  {
    x := locals;
    if mesh.None? {
      return;
    }
    var srcTypes := PerAxisTypes(src);
    var dstTypes := PerAxisTypes(dst);
    ghost var changed := Changed(srcTypes, dstTypes);
    var remaining := dstTypes.Keys;
    while remaining != {}
      invariant remaining <= dstTypes.Keys
      invariant (forall a | a in changed && a !in remaining :: Size(mesh.value, a) <= 1) ==> x == locals
      invariant forall a | a in changed && a !in remaining && Size(mesh.value, a) > 1 ::
        x == AxisRedistribute(mesh.value, a, srcTypes[a], dstTypes[a], ndim, locals)
    {
      var axis :| axis in remaining;
      var axisSize := if axis in mesh.value then mesh.value[axis] else 1;
      if axis in changed { AtMostOne(changed, axis); }
      if !(srcTypes[axis] == dstTypes[axis] || axisSize <= 1) {
        x := AxisRedistribute(mesh.value, axis, srcTypes[axis], dstTypes[axis], ndim, x);
      }
      remaining := remaining - {axis};
    }
  }

  lemma NothingChanged(s: AxisTypes, t: AxisTypes)
    requires s.Keys == t.Keys && Changed(s, t) == {}
    ensures s == t
  {
    forall a | a in s ensures s[a] == t[a] {
      assert a !in Changed(s, t);
    }
  }
}
