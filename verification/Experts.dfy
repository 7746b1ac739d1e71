/** Splitting a grouped expert weight into single experts and stacking them back, whatever the order they arrive in
    (torchtitan/models/utils.py, torchtitan/models/deepseek_v3/state_dict_adapter.py). */
module Experts {
  import opened MeshViews
  import opened Sums
  import opened Wrappers

  // ---------- which experts a rank holds ----------

  datatype Placement = Replicate | Shard(dim: nat) | StridedShard(dim: nat)

  datatype Error = UnevenSplit | UnexpectedPlacement | UnsupportedPlacements | ShapeMismatch

  /** A mesh axis: how many ranks it has and which of them this one is. */
  datatype MeshAxis = MeshAxis(degree: pos, rank: nat)

  predicate OnDim(p: Placement, dim: nat) { !p.Replicate? && p.dim == dim }

  /** The axes that shard a dimension, in mesh order. */
  function Sharding(placements: seq<Placement>, axes: seq<MeshAxis>, dim: nat): seq<(Placement, MeshAxis)>
    requires |placements| == |axes|
  {
    if axes == [] then []
    else
      var n := |axes| - 1;
      Sharding(placements[..n], axes[..n], dim)
      + if OnDim(placements[n], dim) then [(placements[n], axes[n])] else []
  }

  /** _calculate_strided_shard_shard_indices: the Shard axis cuts first, the StridedShard axis cuts inside it. */
  function StridedIndices(strided: MeshAxis, shard: MeshAxis, size: nat): Result<(nat, nat), Error> {
    var block := Quot(size, Times(strided.degree, shard.degree));
    if block * Times(strided.degree, shard.degree) != size then Err(UnevenSplit)
    else
      var start := block * At(shard.rank, strided.degree, strided.rank);
      Ok((start, start + block))
  }

  function ShardIndices(shard: MeshAxis, size: nat): Result<(nat, nat), Error> {
    var block := Quot(size, shard.degree);
    if block * shard.degree != size then Err(UnevenSplit)
    else Ok((block * shard.rank, block * shard.rank + block))
  }

  function Indices(sharding: seq<(Placement, MeshAxis)>, size: nat): Result<(nat, nat), Error> {
    if |sharding| == 2 then
      if sharding[0].0.StridedShard? then StridedIndices(sharding[0].1, sharding[1].1, size)
      else Err(UnexpectedPlacement)
    else if |sharding| == 1 then
      if sharding[0].0.StridedShard? then Err(UnexpectedPlacement) else ShardIndices(sharding[0].1, size)
    else if sharding == [] then Ok((0, size))
    else Err(UnsupportedPlacements)
  }

  lemma EvenSplit(size: nat, parts: pos)
    ensures Quot(size, parts) * parts == size <==> size % parts == 0
  {
    QuotRem(size, parts);
  }

  /** at lists, in order, the mesh axes whose placement shards the dimension; sharding is what they hold. */
  ghost predicate Picks(at: seq<nat>, placements: seq<Placement>, axes: seq<MeshAxis>, dim: nat,
                        sharding: seq<(Placement, MeshAxis)>)
    requires |placements| == |axes|
  {
    && |at| == |sharding| && (forall j | 1 <= j < |at| :: at[j - 1] < at[j])
    && (forall j | 0 <= j < |at| :: at[j] < |axes| && sharding[j] == (placements[at[j]], axes[at[j]]))
    && (forall j | 0 <= j < |at| :: !placements[at[j]].Replicate? && placements[at[j]].dim == dim)
    && (forall k | 0 <= k < |axes| && !placements[k].Replicate? && placements[k].dim == dim :: k in at)
  }

  lemma {:induction false} ShardingAxes(placements: seq<Placement>, axes: seq<MeshAxis>, dim: nat)
    requires |placements| == |axes|
    ensures exists at: seq<nat> :: Picks(at, placements, axes, dim, Sharding(placements, axes, dim))
  {
    hide Picks;
    if axes == [] {
      NoPicks(placements, axes, dim);
      assert Picks([], placements, axes, dim, Sharding(placements, axes, dim));
    } else {
      var n := |axes| - 1;
      ShardingAxes(placements[..n], axes[..n], dim);
      var before := Sharding(placements[..n], axes[..n], dim);
      var at: seq<nat> :| Picks(at, placements[..n], axes[..n], dim, before);
      PicksNext(at, placements, axes, dim, before);
      if OnDim(placements[n], dim) {
        assert Picks(at + [n], placements, axes, dim, Sharding(placements, axes, dim));
      } else {
        assert Sharding(placements, axes, dim) == before;
      }
    }
  }

  lemma NoPicks(placements: seq<Placement>, axes: seq<MeshAxis>, dim: nat)
    requires placements == [] && axes == []
    ensures Picks([], placements, axes, dim, [])
  {
  }

  lemma PicksNext(at: seq<nat>, placements: seq<Placement>, axes: seq<MeshAxis>, dim: nat, before: seq<(Placement, MeshAxis)>)
    requires |placements| == |axes| > 0
    requires Picks(at, placements[..|axes| - 1], axes[..|axes| - 1], dim, before)
    ensures var n := |axes| - 1;
      if !placements[n].Replicate? && placements[n].dim == dim
      then Picks(at + [n], placements, axes, dim, before + [(placements[n], axes[n])])
      else Picks(at, placements, axes, dim, before)
  {
    var n := |axes| - 1;
    forall k | 0 <= k < n && !placements[k].Replicate? && placements[k].dim == dim ensures k in at {
      assert placements[..n][k] == placements[k];
    }
    assert n in at + [n];
  }

  /** _caculate_indices_from_placements */
  method CalculateIndices(dim: nat, size: nat, placements: seq<Placement>, axes: seq<MeshAxis>)
    returns (r: Result<(nat, nat), Error>)
    requires |placements| == |axes|
    ensures r == Indices(Sharding(placements, axes, dim), size)
    ensures var s := Sharding(placements, axes, dim);
      && (s == [] ==> r == Ok((0, size)))
      && (|s| == 1 ==> (r.Ok? <==> !s[0].0.StridedShard? && size % s[0].1.degree == 0))
      && (|s| == 2 ==> (r.Ok? <==> s[0].0.StridedShard? && size % (s[0].1.degree * s[1].1.degree) == 0))
      && (|s| > 2 <==> r == Err(UnsupportedPlacements))
  {
    hide Quot, Rem;
    var sharding := [];
    var i := 0;
    while i < |axes|
      invariant 0 <= i <= |axes| && sharding == Sharding(placements[..i], axes[..i], dim)
    {
      assert placements[..i + 1][..i] == placements[..i] && axes[..i + 1][..i] == axes[..i];
      if OnDim(placements[i], dim) {
        sharding := sharding + [(placements[i], axes[i])];
      }
      i := i + 1;
    }
    assert placements[..i] == placements && axes[..i] == axes;
    r := Indices(sharding, size);
    if |sharding| == 1 { EvenSplit(size, sharding[0].1.degree); }
    if |sharding| == 2 { EvenSplit(size, Times(sharding[0].1.degree, sharding[1].1.degree)); }
  }

  // ---------- the ranges of all ranks partition the experts ----------

  /** The same sharding seen from another place in the mesh. */
  function From(sharding: seq<(Placement, MeshAxis)>, ranks: seq<nat>): seq<(Placement, MeshAxis)>
    requires |ranks| == |sharding|
  {
    seq(|sharding|, k requires 0 <= k < |sharding| => (sharding[k].0, MeshAxis(sharding[k].1.degree, ranks[k])))
  }

  predicate Within(sharding: seq<(Placement, MeshAxis)>, ranks: seq<nat>) {
    |ranks| == |sharding| && forall k | 0 <= k < |ranks| :: ranks[k] < sharding[k].1.degree
  }

  predicate Holds(range: (nat, nat), i: nat) { range.0 <= i < range.1 }

  /** The place in the mesh that holds expert i. */
  function Owner(sharding: seq<(Placement, MeshAxis)>, size: nat, i: nat): seq<nat>
    requires Indices(sharding, size).Ok? && i < size
  {
    if |sharding| == 2 then
      var part := Times(sharding[0].1.degree, sharding[1].1.degree);
      BlockPositive(size, part);
      var block := Quot(i, Quot(size, part));
      [Rem(block, sharding[0].1.degree), Quot(block, sharding[0].1.degree)]
    else if |sharding| == 1 then
      BlockPositive(size, sharding[0].1.degree);
      [Quot(i, Quot(size, sharding[0].1.degree))]
    else []
  }

  lemma BlockPositive(size: nat, parts: pos)
    requires size > 0 && Quot(size, parts) * parts == size
    ensures Quot(size, parts) >= 1
  {
  }

  lemma InBlock(i: nat, block: pos, k: nat)
    ensures block * k <= i < block * k + block <==> Quot(i, block) == k
  {
    QuotRem(i, block);
    if block * k <= i < block * k + block { AtQuotRem(k, block, i - block * k); }
  }

  /** Whether the split is accepted does not depend on the rank, and when it is, every expert is held at exactly one
      place of the mesh. */
  lemma RangesPartition(sharding: seq<(Placement, MeshAxis)>, size: nat, ranks: seq<nat>, i: nat)
    requires Within(sharding, ranks) && i < size
    ensures var r := Indices(From(sharding, ranks), size);
            if Indices(sharding, size).Err? then r == Indices(sharding, size)
            else r.Ok? && Within(sharding, Owner(sharding, size, i)) &&
                 (Holds(r.value, i) <==> ranks == Owner(sharding, size, i))
  {
    hide Quot, Rem, At, Times;
    if Indices(sharding, size).Ok? {
      if |sharding| == 2 {
        var s, h := sharding[0].1.degree, sharding[1].1.degree;
        StridedPartition(s, h, size, ranks[0], ranks[1], i);
      } else if |sharding| == 1 {
        var d := sharding[0].1.degree;
        var block := Quot(size, d);
        BlockPositive(size, d);
        InBlock(i, block, ranks[0]);
        QuotientInside(i, block, d, size);
      }
    }
  }

  lemma QuotientInside(i: nat, block: pos, parts: pos, size: nat)
    requires block * parts == size && i < size
    ensures Quot(i, block) < parts
  {
    QuotRem(i, block);
    AtBelow(Quot(i, block), parts, block, Rem(i, block));
  }

  lemma StridedPartition(s: pos, h: pos, size: nat, sr: nat, hr: nat, i: nat)
    requires Quot(size, Times(s, h)) * Times(s, h) == size && sr < s && hr < h && i < size
    ensures Quot(size, Times(s, h)) >= 1
    ensures var block := Quot(size, Times(s, h));
            var b := Quot(i, block);
            Quot(b, s) < h && Rem(b, s) < s &&
            (block * At(hr, s, sr) <= i < block * At(hr, s, sr) + block <==> sr == Rem(b, s) && hr == Quot(b, s))
  {
    hide Quot, Rem, At, Times;
    var block := Quot(size, Times(s, h));
    BlockPositive(size, Times(s, h));
    var b := Quot(i, block);
    InBlock(i, block, At(hr, s, sr));
    QuotientInside(i, block, Times(s, h), size);
    QuotRem(b, s);
    AtQuotRem(hr, s, sr);
    Commutes(s, h);
    AtBelow(Quot(b, s), h, s, Rem(b, s));
  }

  lemma Commutes(a: pos, b: pos)
    ensures Times(a, b) == Times(b, a)
  {
  }

  /** The strided range is the strided-th of equal blocks inside the shard-th block: the nesting the placements mean. */
  lemma StridedIsNested(strided: MeshAxis, shard: MeshAxis, size: nat)
    requires StridedIndices(strided, shard, size).Ok?
    ensures ShardIndices(shard, size).Ok?
    ensures var outer := ShardIndices(shard, size).value;
            var inner := ShardIndices(strided, outer.1 - outer.0);
            inner.Ok? && StridedIndices(strided, shard, size).value == (outer.0 + inner.value.0, outer.0 + inner.value.1)
  {
    var s, h := strided.degree, shard.degree;
    var block := Quot(size, Times(s, h));
    assert size == (block * s) * h by { Regroup(block, s, h); }
    QuotientUnique(size, h, block * s, 0);
    QuotientUnique(block * s, s, block, 0);
    Distribute(block, shard.rank, s, strided.rank);
  }

  lemma Regroup(block: nat, s: pos, h: pos)
    ensures block * Times(s, h) == (block * s) * h
  {
  }

  lemma Distribute(block: nat, q: nat, s: pos, m: nat)
    ensures block * At(q, s, m) == (block * s) * q + block * m
  {
  }

  // ---------- experts collected per layer and key ----------

  datatype Group = Group(layer: nat, key: string)

  datatype Entry<W> = Entry(group: Group, id: nat, weight: W)

  type ByLayer<W> = map<nat, map<string, map<nat, W>>>

  /** The experts collected so far for a group. */
  function Held<W>(n: ByLayer<W>, g: Group): map<nat, W> {
    if g.layer in n && g.key in n[g.layer] then n[g.layer][g.key] else map[]
  }

  /** No entry is kept for a group without experts or a layer without groups. */
  predicate Tidy<W>(n: ByLayer<W>) {
    (forall l | l in n :: n[l] != map[]) && forall l, k | l in n && k in n[l] :: n[l][k] != map[]
  }

  function Layer<W>(n: ByLayer<W>, l: nat): map<string, map<nat, W>> {
    if l in n then n[l] else map[]
  }

  function Put<W>(n: ByLayer<W>, g: Group, experts: map<nat, W>): ByLayer<W> {
    n[g.layer := Layer(n, g.layer)[g.key := experts]]
  }

  function Drop<W>(n: ByLayer<W>, g: Group): ByLayer<W> {
    var rest := Layer(n, g.layer) - {g.key};
    if rest.Keys == {} then n - {g.layer} else n[g.layer := rest]
  }

  lemma PutHolds<W>(n: ByLayer<W>, g: Group, experts: map<nat, W>, h: Group)
    requires Tidy(n) && experts != map[]
    ensures Tidy(Put(n, g, experts))
    ensures Held(Put(n, g, experts), h) == if h == g then experts else Held(n, h)
  {
    assert g.key in Put(n, g, experts)[g.layer];
  }

  lemma DropHolds<W>(n: ByLayer<W>, g: Group, h: Group)
    requires Tidy(n)
    ensures Tidy(Drop(n, g))
    ensures Held(Drop(n, g), h) == if h == g then map[] else Held(n, h)
  {
    var rest := Layer(n, g.layer) - {g.key};
    assert h.layer == g.layer && h.key != g.key && h.layer in n && h.key in n[h.layer] ==> h.key in rest.Keys;
  }

  predicate Ascending(ids: seq<nat>) { forall k | 1 <= k < |ids| :: ids[k - 1] < ids[k] }

  lemma {:induction false} AscendingBounds(ids: seq<nat>, lo: nat, hi: nat, k: nat)
    requires Ascending(ids) && k < |ids| && forall j | 0 <= j < |ids| :: lo <= ids[j] < hi
    ensures lo + k <= ids[k] <= hi - (|ids| - k)
    decreases |ids|
  {
    var n := |ids| - 1;
    if n > 0 {
      if k < n {
        BelowLast(ids);
        AscendingBounds(ids[..n], lo, ids[n], k);
      } else {
        BelowLast(ids);
        AscendingBounds(ids[..n], lo, ids[n], n - 1);
      }
    }
  }

  lemma {:induction false} BelowLast(ids: seq<nat>)
    requires Ascending(ids) && ids != []
    ensures forall j | 0 <= j < |ids| - 1 :: ids[j] < ids[|ids| - 1]
    decreases |ids|
  {
    var n := |ids| - 1;
    if n > 0 {
      BelowLast(ids[..n]);
      forall j | 0 <= j < n
        ensures ids[j] < ids[n]
      {
        assert ids[..n][j] == ids[j] && ids[..n][n - 1] == ids[n - 1];
      }
    }
  }

  method SortedIds(keys: set<nat>) returns (ids: seq<nat>)
    ensures Ascending(ids) && |ids| == |keys| && forall k | 0 <= k < |ids| :: ids[k] in keys
  {
    ids := [];
    var rest := keys;
    while rest != {}
      invariant rest <= keys && Ascending(ids) && |ids| + |rest| == |keys|
      invariant forall k | 0 <= k < |ids| :: ids[k] in keys
      invariant forall x | x in rest && ids != [] :: ids[|ids| - 1] < x
      decreases |rest|
    {
      var m := Smallest(rest);
      ids := ids + [m];
      rest := rest - {m};
    }
  }

  method Smallest(s: set<nat>) returns (m: nat)
    requires s != {}
    ensures m in s && forall x | x in s :: m <= x
  {
    m :| m in s;
    var rest := s - {m};
    while rest != {}
      invariant m in s && rest <= s && forall x | x in s && x !in rest :: m <= x
      decreases |rest|
    {
      var x :| x in rest;
      if x < m {
        m := x;
      }
      rest := rest - {x};
    }
  }

  lemma {:induction false} SubsetOfRange(s: set<nat>, lo: nat, hi: nat)
    requires lo <= hi && forall x | x in s :: lo <= x < hi
    ensures |s| <= hi - lo
    decreases hi
  {
    if lo < hi {
      SubsetOfRange(s - {hi - 1}, lo, hi - 1);
    } else {
      assert s == {};
    }
  }

  /** The rows of the stack are the experts of the range in order. */
  ghost predicate Stacks<W>(experts: map<nat, W>, range: (nat, nat), rows: seq<W>) {
    range.0 <= range.1 && |rows| == range.1 - range.0 &&
    forall id | range.0 <= id < range.1 :: id in experts && rows[id - range.0] == experts[id]
  }

  function Rows<W>(experts: map<nat, W>, ids: seq<nat>): seq<W>
    requires forall k | 0 <= k < |ids| :: ids[k] in experts
  {
    seq(|ids|, k requires 0 <= k < |ids| => experts[ids[k]])
  }

  lemma RowsStack<W>(experts: map<nat, W>, ids: seq<nat>, range: (nat, nat))
    requires forall k | 0 <= k < |ids| :: ids[k] in experts && Holds(range, ids[k])
    requires Ascending(ids) && range.0 <= range.1 && |ids| == range.1 - range.0
    ensures Stacks(experts, range, Rows(experts, ids))
  {
    hide Ascending;
    var rows := Rows(experts, ids);
    forall id | range.0 <= id < range.1
      ensures id in experts && rows[id - range.0] == experts[id]
    {
      AscendingBounds(ids, range.0, range.1, id - range.0);
    }
  }

  class Pending<W(==)> {
    var byLayer: ByLayer<W>

    constructor ()
      ensures byLayer == map[]
    {
      byLayer := map[];
    }

    /** Files an expert under its layer and key, opening either when it is the first. */
    method Store(g: Group, id: nat, weight: W)
      requires Tidy(byLayer)
      modifies this
      ensures Tidy(byLayer) && Held(byLayer, g) == Held(old(byLayer), g)[id := weight]
      ensures forall h | h != g :: Held(byLayer, h) == Held(old(byLayer), h)
    {
      ghost var before := byLayer;
      if g.layer !in byLayer {
        byLayer := byLayer[g.layer := map[]];
      }
      var layer := byLayer[g.layer];
      if g.key !in layer {
        layer := layer[g.key := map[]];
      }
      layer := layer[g.key := layer[g.key][id := weight]];
      byLayer := byLayer[g.layer := layer];
      ghost var experts := Held(before, g)[id := weight];
      assert layer == Layer(before, g.layer)[g.key := experts];
      assert byLayer == Put(before, g, experts);
      assert id in experts;
      hide Put, Held, Tidy;
      forall h
        ensures Tidy(byLayer) && Held(byLayer, h) == if h == g then experts else Held(before, h)
      {
        PutHolds(before, g, experts, h);
      }
    }

    /** Stacks a group by expert id once it is complete, and drops it and then its layer if that is left empty. */
    method Concatenate(g: Group, range: (nat, nat)) returns (stacked: Option<seq<W>>)
      requires Tidy(byLayer) && Held(byLayer, g) != map[] && range.0 <= range.1
      requires forall id | id in Held(byLayer, g) :: Holds(range, id)
      modifies this
      ensures Tidy(byLayer) && forall h | h != g :: Held(byLayer, h) == Held(old(byLayer), h)
      ensures |Held(old(byLayer), g)| < range.1 - range.0
          ==> stacked == None && Held(byLayer, g) == Held(old(byLayer), g)
      ensures |Held(old(byLayer), g)| >= range.1 - range.0
          ==> Held(byLayer, g) == map[] && stacked.Some? && Stacks(Held(old(byLayer), g), range, stacked.value)
    {
      hide Rows, Ascending, Stacks, Put, Tidy;
      assert g.layer in byLayer && g.key in byLayer[g.layer];
      var experts := byLayer[g.layer][g.key];
      if |experts| < range.1 - range.0 {
        return None;
      }
      SubsetOfRange(experts.Keys, range.0, range.1);
      var ids := SortedIds(experts.Keys);
      stacked := Some(Rows(experts, ids));
      RowsStack(experts, ids, range);
      byLayer := byLayer[g.layer := byLayer[g.layer] - {g.key}];
      if byLayer[g.layer].Keys == {} {
        byLayer := byLayer - {g.layer};
      }
      assert byLayer == Drop(old(byLayer), g);
      hide Drop, Held, Tidy;
      forall h
        ensures Tidy(byLayer) && Held(byLayer, h) == if h == g then map[] else Held(old(byLayer), h)
      {
        DropHolds(old(byLayer), g, h);
      }
    }
  }

  // ---------- a whole load ----------

  /** The experts of a group among the entries, the latest weight of each. */
  function Arrived<W>(entries: seq<Entry<W>>, g: Group): map<nat, W> {
    if entries == [] then map[]
    else
      var last := entries[|entries| - 1];
      var before := Arrived(entries[..|entries| - 1], g);
      if last.group == g then before[last.id := last.weight] else before
  }

  /** No expert comes twice: the keys of a state dict are distinct. */
  predicate Distinct<W>(entries: seq<Entry<W>>) {
    entries == [] ||
    var n := |entries| - 1;
    Distinct(entries[..n]) && entries[n].id !in Arrived(entries[..n], entries[n].group)
  }

  predicate Complete<W>(arrived: map<nat, W>, range: (nat, nat)) {
    arrived != map[] && range.0 + |arrived| >= range.1
  }

  /** What the loop knows of one group: emitted and forgotten once complete, pending until then. */
  ghost predicate Settled<W>(arrived: map<nat, W>, range: (nat, nat), held: map<nat, W>, out: map<Group, seq<W>>,
                             g: Group) {
    if Complete(arrived, range) then held == map[] && g in out && Stacks(arrived, range, out[g])
    else held == arrived && g !in out
  }

  lemma MoreToCome<W>(arrived: map<nat, W>, range: (nat, nat), id: nat)
    requires range.0 <= range.1 && (forall k | k in arrived :: Holds(range, k))
    requires id !in arrived && Holds(range, id)
    ensures !Complete(arrived, range) && |arrived| < range.1 - range.0
  {
    SubsetOfRange(arrived.Keys + {id}, range.0, range.1);
  }

  lemma {:induction false} DistinctPrefix<W>(entries: seq<Entry<W>>, i: nat)
    requires Distinct(entries) && i <= |entries|
    ensures Distinct(entries[..i])
    decreases |entries|
  {
    if i == |entries| {
      assert entries[..i] == entries;
    } else {
      var n := |entries| - 1;
      DistinctPrefix(entries[..n], i);
      assert entries[..n][..i] == entries[..i];
    }
  }

  lemma ArrivedStep<W>(before: seq<Entry<W>>, e: Entry<W>, g: Group)
    ensures Arrived(before + [e], g)
         == if e.group == g then Arrived(before, g)[e.id := e.weight] else Arrived(before, g)
    ensures Distinct(before + [e]) ==> Distinct(before) && e.id !in Arrived(before, e.group)
  {
    assert (before + [e])[..|before|] == before;
  }

  lemma NothingHeld<W>(n: ByLayer<W>)
    requires n == map[]
    ensures Tidy(n)
  {
  }

  lemma Unstarted<W>(entries: seq<Entry<W>>, range: (nat, nat), n: ByLayer<W>, out: map<Group, seq<W>>, g: Group)
    requires entries == [] && n == map[] && out == map[]
    ensures Settled(Arrived(entries, g), range, Held(n, g), out, g)
  {
  }

  /** Storing an expert and stacking its group if complete settles every group for one more entry. */
  lemma SettleStep<W>(before: seq<Entry<W>>, e: Entry<W>, range: (nat, nat), stacked: Option<seq<W>>,
                      held: map<nat, W>, out: map<Group, seq<W>>)
    requires var stored := Arrived(before, e.group)[e.id := e.weight];
             if |stored| < range.1 - range.0 then stacked == None && held == stored
             else held == map[] && stacked.Some? && Stacks(stored, range, stacked.value)
    requires e.group !in out && range.0 <= range.1
    ensures var next := if stacked.Some? then out[e.group := stacked.value] else out;
            Settled(Arrived(before + [e], e.group), range, held, next, e.group)
  {
    ArrivedStep(before, e, e.group);
    assert e.id in Arrived(before + [e], e.group);
  }

  class StateDictAdapter<W(==)> {
    const numExperts: nat
    var localExpertsIndices: map<string, (nat, nat)>

    constructor (numExperts: nat)
      ensures this.numExperts == numExperts && localExpertsIndices == map[]
    {
      this.numExperts := numExperts;
      localExpertsIndices := map[];
    }

    /** The experts a group waits for: the local ones after to_hf, otherwise all of them. */
    function RangeOf(key: string): (nat, nat)
      reads this
    {
      if key in localExpertsIndices then localExpertsIndices[key] else (0, numExperts)
    }

    /** _get_local_experts_weights: expert id is row id - start of the local weight. */
    method GetLocalExperts(key: string, placements: seq<Placement>, axes: seq<MeshAxis>, size: nat, local: seq<W>)
      returns (r: Result<map<nat, W>, Error>)
      requires |placements| == |axes|
      modifies this
      ensures var range := Indices(Sharding(placements, axes, 0), size);
              if range.Err? then
                r == Err(range.error) && localExpertsIndices == old(localExpertsIndices)
              else
                localExpertsIndices == old(localExpertsIndices)[key := range.value] &&
                (r.Ok? <==> |local| == range.value.1 - range.value.0) && (r.Err? ==> r.error == ShapeMismatch) &&
                (r.Ok? ==> (forall id :: id in r.value <==> Holds(range.value, id)) &&
                           Stacks(r.value, range.value, local))
    {
      var range := CalculateIndices(0, size, placements, axes);
      if range.Err? {
        return Err(range.error);
      }
      localExpertsIndices := localExpertsIndices[key := range.value];
      var start, end := range.value.0, range.value.1;
      if |local| != end - start {
        return Err(ShapeMismatch);
      }
      var experts: map<nat, W> := map[];
      var id := start;
      while id < end
        invariant start <= id <= end
        invariant forall k :: k in experts <==> start <= k < id
        invariant forall k | start <= k < id :: experts[k] == local[k - start]
      {
        experts := experts[id := local[id - start]];
        id := id + 1;
      }
      return Ok(experts);
    }

    predicate InRange(entries: seq<Entry<W>>)
      reads this
    {
      forall j | 0 <= j < |entries| ::
        var range := RangeOf(entries[j].group.key);
        range.0 <= range.1 && Holds(range, entries[j].id)
    }

    lemma {:induction false} ArrivedInRange(entries: seq<Entry<W>>, g: Group)
      requires InRange(entries)
      ensures forall id | id in Arrived(entries, g) :: Holds(RangeOf(g.key), id)
    {
      if entries != [] {
        ArrivedInRange(entries[..|entries| - 1], g);
      }
    }

    /** One expert entry of from_hf. */
    method Receive(before: seq<Entry<W>>, e: Entry<W>, pending: Pending<W>, out: map<Group, seq<W>>)
      returns (next: map<Group, seq<W>>)
      requires Tidy(pending.byLayer) && Distinct(before + [e]) && InRange(before + [e])
      requires forall g :: Settled(Arrived(before, g), RangeOf(g.key), Held(pending.byLayer, g), out, g)
      modifies pending
      ensures Tidy(pending.byLayer)
      ensures forall g :: Settled(Arrived(before + [e], g), RangeOf(g.key), Held(pending.byLayer, g), next, g)
    {
      hide Held, Tidy, Distinct, Arrived, Stacks, Complete;
      var range := RangeOf(e.group.key);
      ghost var held := pending.byLayer;
      EntryInRange(before, e);
      assert InRange(before) by { PrefixInRange(before, e); }
      ArrivedInRange(before, e.group);
      ArrivedStep(before, e, e.group);
      MoreToCome(Arrived(before, e.group), range, e.id);
      assert Settled(Arrived(before, e.group), range, Held(held, e.group), out, e.group);
      pending.Store(e.group, e.id, e.weight);
      var stacked := pending.Concatenate(e.group, range);
      next := if stacked.Some? then out[e.group := stacked.value] else out;
      SettleStep(before, e, range, stacked, Held(pending.byLayer, e.group), out);
      forall g
        ensures Settled(Arrived(before + [e], g), RangeOf(g.key), Held(pending.byLayer, g), next, g)
      {
        ArrivedStep(before, e, g);
        assert Settled(Arrived(before, g), RangeOf(g.key), Held(held, g), out, g);
      }
    }

    lemma EntryInRange(before: seq<Entry<W>>, e: Entry<W>)
      requires InRange(before + [e])
      ensures RangeOf(e.group.key).0 <= RangeOf(e.group.key).1 && Holds(RangeOf(e.group.key), e.id)
    {
      assert (before + [e])[|before|] == e;
    }

    lemma PrefixInRange(before: seq<Entry<W>>, e: Entry<W>)
      requires InRange(before + [e])
      ensures InRange(before)
    {
      assert forall j | 0 <= j < |before| :: (before + [e])[j] == before[j];
    }

    /** from_hf: every group whose experts have all come is emitted as their stack in id order, exactly those groups
        are emitted, and what is left pending is exactly the experts of the others. */
    method FromHf(entries: seq<Entry<W>>, pending: Pending<W>) returns (out: map<Group, seq<W>>)
      requires pending.byLayer == map[] && Distinct(entries) && InRange(entries)
      modifies pending
      ensures Tidy(pending.byLayer)
      ensures forall g :: Settled(Arrived(entries, g), RangeOf(g.key), Held(pending.byLayer, g), out, g)
    {
      hide Held, Tidy, Distinct, Arrived, Settled;
      out := map[];
      var i := 0;
      NothingHeld(pending.byLayer);
      forall g
        ensures Settled(Arrived(entries[..0], g), RangeOf(g.key), Held(pending.byLayer, g), out, g)
      {
        Unstarted(entries[..0], RangeOf(g.key), pending.byLayer, out, g);
      }
      while i < |entries|
        modifies pending
        invariant 0 <= i <= |entries| && Tidy(pending.byLayer)
        invariant forall g :: Settled(Arrived(entries[..i], g), RangeOf(g.key), Held(pending.byLayer, g), out, g)
      {
        assert entries[..i] + [entries[i]] == entries[..i + 1];
        DistinctPrefix(entries, i + 1);
        out := Receive(entries[..i], entries[i], pending, out);
        i := i + 1;
      }
      assert entries[..i] == entries;
    }
  }

  // ---------- to_hf and back ----------

  /** Every entry of the group is the row of the local weight that its id names. */
  ghost predicate FromLocal<W>(entries: seq<Entry<W>>, g: Group, range: (nat, nat), local: seq<W>)
    requires range.0 <= range.1 && |local| == range.1 - range.0
  {
    forall j | 0 <= j < |entries| && entries[j].group == g ::
      Holds(range, entries[j].id) && entries[j].weight == local[entries[j].id - range.0]
  }

  lemma {:induction false} ArrivedFromLocal<W>(entries: seq<Entry<W>>, g: Group, range: (nat, nat), local: seq<W>)
    requires range.0 <= range.1 && |local| == range.1 - range.0 && FromLocal(entries, g, range, local)
    ensures forall id | id in Arrived(entries, g) ::
              Holds(range, id) && Arrived(entries, g)[id] == local[id - range.0]
  {
    if entries != [] {
      ArrivedFromLocal(entries[..|entries| - 1], g, range, local);
    }
  }

  predicate AllArrived<W>(arrived: map<nat, W>, range: (nat, nat)) {
    forall id: nat | range.0 <= id < range.1 :: id in arrived
  }

  lemma CompleteIsAllArrived<W>(arrived: map<nat, W>, range: (nat, nat))
    requires range.0 < range.1 && forall id | id in arrived :: Holds(range, id)
    ensures Complete(arrived, range) <==> AllArrived(arrived, range)
  {
    if AllArrived(arrived, range) {
      assert range.0 in arrived;
      RangeSubset(arrived.Keys, range.0, range.1);
    } else {
      var id: nat :| range.0 <= id < range.1 && id !in arrived;
      MoreToCome(arrived, range, id);
    }
  }

  lemma {:induction false} RangeSubset(s: set<nat>, lo: nat, hi: nat)
    requires lo <= hi && forall x: nat | lo <= x < hi :: x in s
    ensures |s| >= hi - lo
    decreases hi
  {
    if lo < hi {
      RangeSubset(s - {hi - 1}, lo, hi - 1);
    }
  }

  /** The experts of a local weight, arriving in any order among any others, give back that weight: it is emitted
      exactly when all of them have come, equal to the original, and nothing of it stays pending. */
  lemma LocalWeightRebuilt<W>(entries: seq<Entry<W>>, g: Group, range: (nat, nat), local: seq<W>,
                              held: map<nat, W>, out: map<Group, seq<W>>)
    requires range.0 < range.1 && |local| == range.1 - range.0 && FromLocal(entries, g, range, local)
    requires Settled(Arrived(entries, g), range, held, out, g)
    ensures g in out <==> AllArrived(Arrived(entries, g), range)
    ensures g in out ==> out[g] == local && held == map[]
  {
    ArrivedFromLocal(entries, g, range, local);
    var arrived := Arrived(entries, g);
    CompleteIsAllArrived(arrived, range);
    if g in out {
      forall k | 0 <= k < |local|
        ensures out[g][k] == local[k]
      {
        assert range.0 + k in arrived;
      }
    }
  }

  /** What reaches from_hf: an expert of the weight that was saved, or an entry of another group. */
  datatype Arrival<W> = Own(id: nat) | Foreign(entry: Entry<W>)

  /** Every expert of the range arrives, and nothing else under its group. */
  ghost predicate Arrives<W>(arrivals: seq<Arrival<W>>, g: Group, range: (nat, nat)) {
    && (forall j | 0 <= j < |arrivals| ::
          if arrivals[j].Own? then Holds(range, arrivals[j].id) else arrivals[j].entry.group != g)
    && (forall id: nat | Holds(range, id) :: Own(id) in arrivals)
  }

  /** The entries, with the weights the saved experts have. */
  function Entries<W>(arrivals: seq<Arrival<W>>, g: Group, range: (nat, nat), experts: map<nat, W>): (s: seq<Entry<W>>)
    requires Arrives(arrivals, g, range) && forall id: nat | Holds(range, id) :: id in experts
    ensures |s| == |arrivals|
    ensures forall j | 0 <= j < |s| ::
      s[j] == if arrivals[j].Own? then Entry(g, arrivals[j].id, experts[arrivals[j].id]) else arrivals[j].entry
  {
    seq(|arrivals|, j requires 0 <= j < |arrivals| =>
      if arrivals[j].Own? then Entry(g, arrivals[j].id, experts[arrivals[j].id]) else arrivals[j].entry)
  }

  lemma {:induction false} ArrivedHas<W>(entries: seq<Entry<W>>, j: nat)
    requires j < |entries|
    ensures entries[j].id in Arrived(entries, entries[j].group)
  {
    if j < |entries| - 1 { ArrivedHas(entries[..|entries| - 1], j); }
  }

  lemma EntriesFromLocal<W>(arrivals: seq<Arrival<W>>, g: Group, range: (nat, nat), experts: map<nat, W>, local: seq<W>)
    requires Arrives(arrivals, g, range) && Stacks(experts, range, local)
    ensures var entries := Entries(arrivals, g, range, experts);
      FromLocal(entries, g, range, local) && AllArrived(Arrived(entries, g), range)
  {
    var entries := Entries(arrivals, g, range, experts);
    forall id: nat | range.0 <= id < range.1 ensures id in Arrived(entries, g) {
      assert Own(id) in arrivals;
      var j :| 0 <= j < |arrivals| && arrivals[j] == Own(id);
      ArrivedHas(entries, j);
    }
  }

  /** Other groups' experts are ones their group waits for, once key has range. */
  ghost predicate ForeignInRange<W>(adapter: StateDictAdapter<W>, arrivals: seq<Arrival<W>>, key: string, range: (nat, nat))
    reads adapter
  {
    forall j | 0 <= j < |arrivals| && arrivals[j].Foreign? ::
      var e := arrivals[j].entry;
      var waits := if e.group.key == key then range else adapter.RangeOf(e.group.key);
      waits.0 <= waits.1 && Holds(waits, e.id)
  }

  /** The experts an accepted local weight splits into. */
  ghost function LocalExperts<W>(range: (nat, nat), local: seq<W>): map<nat, W>
    requires range.0 <= range.1 && |local| == range.1 - range.0
  {
    map id: nat | range.0 <= id < range.1 && Holds(range, id) :: local[id - range.0]
  }

  ghost predicate Splittable<W>(range: Result<(nat, nat), Error>, local: seq<W>) {
    range.Ok? && |local| == range.value.1 - range.value.0
  }

  /** to_hf and then from_hf on one adapter: the local weight is split into experts, they arrive in any order among any
      others, and the same weight comes back. */
  method SaveThenLoad<W(==)>(adapter: StateDictAdapter<W>, g: Group, placements: seq<Placement>, axes: seq<MeshAxis>, size: nat,
                             local: seq<W>, arrivals: seq<Arrival<W>>, pending: Pending<W>)
    returns (r: Result<map<Group, seq<W>>, Error>)
    requires |placements| == |axes| && pending.byLayer == map[]
    requires var range := Indices(Sharding(placements, axes, 0), size);
      Splittable(range, local) ==>
        Arrives(arrivals, g, range.value) && ForeignInRange(adapter, arrivals, g.key, range.value) &&
        Distinct(Entries(arrivals, g, range.value, LocalExperts(range.value, local)))
    modifies adapter, pending
    ensures r.Ok? <==> Splittable(Indices(Sharding(placements, axes, 0), size), local)
    ensures r.Ok? && local != [] ==> g in r.value && r.value[g] == local && Held(pending.byLayer, g) == map[]
  {
    var experts := adapter.GetLocalExperts(g.key, placements, axes, size, local);
    if experts.Err? {
      return Err(experts.error);
    }
    var range := adapter.localExpertsIndices[g.key];
    assert experts.value == LocalExperts(range, local);
    var entries := Entries(arrivals, g, range, experts.value);
    var out := adapter.FromHf(entries, pending);
    EntriesFromLocal(arrivals, g, range, experts.value, local);
    if local != [] {
      LocalWeightRebuilt(entries, g, range, local, Held(pending.byLayer, g), out);
    }
    r := Ok(out);
  }
}
