/** SPMD layouts and the check that a redistribution is one single-axis collective
    (torchtitan/distributed/spmd_types.py). */
module SpmdTypes {
  import opened Wrappers

  type Axis = string

  /** Replicated, invariant, varying, partial sum, or sharded on a tensor dim (negative counts from the end). */
  datatype AxisType = R | I | V | P | S(dim: int)

  /** localType is the axis dict in insertion order; spec lists, per tensor dim, its shard axes outermost first. */
  datatype Layout = Layout(localType: seq<(Axis, AxisType)>, spec: Option<seq<seq<Axis>>>)

  type AxisTypes = map<Axis, AxisType>

  // ---------- _per_axis_types ----------

  function LocalTypes(entries: seq<(Axis, AxisType)>): AxisTypes {
    if entries == [] then map[]
    else LocalTypes(entries[..|entries| - 1])[entries[|entries| - 1].0 := entries[|entries| - 1].1]
  }

  function WithShards(types: AxisTypes, axes: seq<Axis>, dim: int): AxisTypes {
    if axes == [] then types
    else WithShards(types, axes[..|axes| - 1], dim)[axes[|axes| - 1] := S(dim)]
  }

  function WithSpec(types: AxisTypes, spec: seq<seq<Axis>>): AxisTypes {
    if spec == [] then types
    else WithShards(WithSpec(types, spec[..|spec| - 1]), spec[|spec| - 1], |spec| - 1)
  }

  /** The type of every axis: PartitionSpec entries override the local types. */
  function PerAxis(layout: Layout): AxisTypes {
    match layout.spec
    case None => LocalTypes(layout.localType)
    case Some(spec) => WithSpec(LocalTypes(layout.localType), spec)
  }

  method PerAxisTypes(layout: Layout) returns (result: AxisTypes)
    ensures result == PerAxis(layout)
  {
    result := map[];
    var entries := layout.localType;
    for i := 0 to |entries|
      invariant result == LocalTypes(entries[..i])
    {
      assert entries[..i + 1][..i] == entries[..i];
      result := result[entries[i].0 := entries[i].1];
    }
    assert entries[..|entries|] == entries;
    if layout.spec.Some? {
      var spec, base := layout.spec.value, result;
      for dim := 0 to |spec|
        invariant result == WithSpec(base, spec[..dim])
      {
        ghost var before := result;
        for k := 0 to |spec[dim]|
          invariant result == WithShards(before, spec[dim][..k], dim)
        {
          assert spec[dim][..k + 1][..k] == spec[dim][..k];
          result := result[spec[dim][k] := S(dim)];
        }
        assert spec[dim][..|spec[dim]|] == spec[dim];
        assert spec[..dim + 1][..dim] == spec[..dim];
      }
      assert spec[..|spec|] == spec;
    }
  }

  // ---------- spmd_validate_redistributions ----------

  function Changed(src: AxisTypes, dst: AxisTypes): set<Axis> {
    set a | a in src.Keys + dst.Keys && !(a in src && a in dst && src[a] == dst[a])
  }

  /** The tensor dim a shard dim names, out of range when it is out of range. */
  function Norm(dim: int, ndim: nat): int {
    if dim >= 0 then dim else ndim + dim
  }

  predicate ShardDimsInRange(entries: seq<(Axis, AxisType)>, ndim: nat) {
    forall k | 0 <= k < |entries| && entries[k].1.S? :: 0 <= Norm(entries[k].1.dim, ndim) < ndim
  }

  /** _normalize_partition_spec: one axis per dim, the last one listed. */
  function Normalized(entries: seq<(Axis, AxisType)>, ndim: nat): (spec: seq<seq<Axis>>)
    requires ShardDimsInRange(entries, ndim)
    ensures |spec| == ndim
  {
    if entries == [] then seq(ndim, i => [])
    else
      var (axis, axisType) := entries[|entries| - 1];
      var rest := Normalized(entries[..|entries| - 1], ndim);
      if axisType.S? then rest[Norm(axisType.dim, ndim) := [axis]] else rest
  }

  /** The changed axis may only be added or removed as the innermost shard. */
  predicate InnermostStep(src: seq<Axis>, dst: seq<Axis>, changed: set<Axis>) {
    || src == dst
    || (exists a | a in changed :: dst == src + [a])
    || (exists a | a in changed :: src == dst + [a])
  }

  function Rank(src: Layout, dst: Layout): nat
    requires src.spec.Some? || dst.spec.Some?
  {
    if dst.spec.None? then |src.spec.value| else |dst.spec.value|
  }

  predicate Comparable(layout: Layout, ndim: nat) {
    layout.spec.None? ==> ShardDimsInRange(layout.localType, ndim)
  }

  function Entries(layout: Layout, ndim: nat): seq<seq<Axis>>
    requires Comparable(layout, ndim)
  {
    if layout.spec.Some? then layout.spec.value else Normalized(layout.localType, ndim)
  }

  /** zip stops at the shorter of the two specs. */
  predicate OrderKept(src: seq<seq<Axis>>, dst: seq<seq<Axis>>, changed: set<Axis>) {
    forall d | 0 <= d < |src| && d < |dst| :: InnermostStep(src[d], dst[d], changed)
  }

  predicate SpecsAccepted(src: Layout, dst: Layout) {
    if src.spec.None? && dst.spec.None? then true
    else
      var ndim := Rank(src, dst);
      && Comparable(src, ndim) && Comparable(dst, ndim)
      && OrderKept(Entries(src, ndim), Entries(dst, ndim), Changed(PerAxis(src), PerAxis(dst)))
  }

  /** The same axes on both sides, and at most one of them changes, not from or to varying. */
  predicate OneChange(src: Layout, dst: Layout) {
    var s, d := PerAxis(src), PerAxis(dst);
    && s.Keys == d.Keys
    && |Changed(s, d)| <= 1
    && (forall a | a in Changed(s, d) :: s[a] != V && d[a] != V)
  }

  /** The pairs spmd_validate_redistributions lets through. */
  predicate Accepts(src: Layout, dst: Layout) {
    OneChange(src, dst) && SpecsAccepted(src, dst)
  }

  datatype LayoutError = KeysDiffer | ManyAxesChange | VaryingAxisChanges | ShardDimOutOfRange | ShardOrderChanges

  method NormalizePartitionSpec(entries: seq<(Axis, AxisType)>, ndim: nat) returns (r: Result<seq<seq<Axis>>, LayoutError>)
    ensures r.Ok? <==> ShardDimsInRange(entries, ndim)
    ensures r.Ok? ==> r.value == Normalized(entries, ndim)
    ensures r.Err? ==> r.error == ShardDimOutOfRange
  {
    var spec: seq<seq<Axis>> := seq(ndim, i => []);
    for k := 0 to |entries|
      invariant ShardDimsInRange(entries[..k], ndim) && spec == Normalized(entries[..k], ndim)
    {
      assert entries[..k + 1][..k] == entries[..k];
      var (axis, axisType) := entries[k];
      if axisType.S? {
        var dim := if axisType.dim >= 0 then axisType.dim else ndim + axisType.dim;
        if dim < 0 || dim >= ndim {
          assert entries[k].1.S? && !(0 <= Norm(entries[k].1.dim, ndim) < ndim);
          return Err(ShardDimOutOfRange);
        }
        spec := spec[dim := [axis]];
      }
    }
    assert entries[..|entries|] == entries;
    r := Ok(spec);
  }

  lemma AtMostOne(changed: set<Axis>, a: Axis)
    requires a in changed
    ensures |changed| <= 1 <==> changed == {a}
  {
    assert |changed - {a}| == |changed| - 1;
    if |changed| <= 1 { assert changed - {a} == {}; }
  }

  method CheckOrder(src: seq<seq<Axis>>, dst: seq<seq<Axis>>, changedAxis: Option<Axis>, ghost changed: set<Axis>)
    returns (ok: bool)
    requires changed == (if changedAxis.Some? then {changedAxis.value} else {})
    ensures ok <==> OrderKept(src, dst, changed)
  {
    var n := if |src| < |dst| then |src| else |dst|;
    for dim := 0 to n
      invariant forall d | 0 <= d < dim :: InnermostStep(src[d], dst[d], changed)
    {
      if src[dim] == dst[dim] {
        continue;
      }
      if changedAxis.Some? && dst[dim] == src[dim] + [changedAxis.value] {
        continue;
      }
      if changedAxis.Some? && src[dim] == dst[dim] + [changedAxis.value] {
        continue;
      }
      assert !InnermostStep(src[dim], dst[dim], changed);
      return false;
    }
    ok := true;
  }

  /** _validate_redistribute_spmd_pair: None means accepted. */
  method ValidatePair(src: Layout, dst: Layout) returns (error: Option<LayoutError>)
    ensures error.None? <==> Accepts(src, dst)
    ensures error == Some(KeysDiffer) <==> PerAxis(src).Keys != PerAxis(dst).Keys
    ensures error == Some(ManyAxesChange) <==>
      PerAxis(src).Keys == PerAxis(dst).Keys && |Changed(PerAxis(src), PerAxis(dst))| > 1
    ensures error == Some(VaryingAxisChanges) <==>
      PerAxis(src).Keys == PerAxis(dst).Keys &&
      exists a :: Changed(PerAxis(src), PerAxis(dst)) == {a} && a in PerAxis(src) && (PerAxis(src)[a] == V || PerAxis(dst)[a] == V)
    ensures error == Some(ShardDimOutOfRange) <==>
      OneChange(src, dst) && (src.spec.Some? != dst.spec.Some?) &&
      var types, ndim := (if src.spec.None? then src else dst).localType, Rank(src, dst);
      exists k :: 0 <= k < |types| && types[k].1.S? && (types[k].1.dim < 0 - ndim || types[k].1.dim >= ndim)
  {
    var srcTypes := PerAxisTypes(src);
    var dstTypes := PerAxisTypes(dst);
    if srcTypes.Keys != dstTypes.Keys {
      return Some(KeysDiffer);
    }
    var changed := set a | a in srcTypes.Keys && srcTypes[a] != dstTypes[a];
    assert changed == Changed(srcTypes, dstTypes);
    if |changed| > 1 {
      return Some(ManyAxesChange);
    }
    var changedAxis: Option<Axis> := None;
    if changed != {} {
      var a :| a in changed;
      AtMostOne(changed, a);
      changedAxis := Some(a);
      if srcTypes[a] == V || dstTypes[a] == V {
        return Some(VaryingAxisChanges);
      }
    }
    if src.spec.None? && dst.spec.None? {
      return None;
    }
    var ndim := if dst.spec.None? then |src.spec.value| else |dst.spec.value|;
    var srcSpec, dstSpec := [], [];
    if src.spec.Some? {
      srcSpec := src.spec.value;
    } else {
      var r := NormalizePartitionSpec(src.localType, ndim);
      if r.Err? { return Some(r.error); }
      srcSpec := r.value;
    }
    if dst.spec.Some? {
      dstSpec := dst.spec.value;
    } else {
      var r := NormalizePartitionSpec(dst.localType, ndim);
      if r.Err? { return Some(r.error); }
      dstSpec := r.value;
    }
    var ok := CheckOrder(srcSpec, dstSpec, changedAxis, changed);
    return if ok then None else Some(ShardOrderChanges);
  }
}
