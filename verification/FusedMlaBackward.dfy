/** The packed KV backward kernel and its relation to the forward (torchtitan/overrides/fused_mla.py). */
module FusedMlaBackward {
  import opened FusedMla
  import opened Matrices
  import opened Sums
  import opened Tiling

  /** The gradients of a token's heads, one row per head. */
  type Heads = seq<Row>

  predicate Wide(rows: Heads, width: nat) {
    forall h | 0 <= h < |rows| :: |rows[h]| == width
  }

  /** Feature i of every head. */
  function FeatureOf(rows: Heads, i: int): int -> real {
    h => if 0 <= h < |rows| && 0 <= i < |rows[h]| then rows[h][i] else 0.0
  }

  /** The packed gradient of one head: the nope part of dK, then dV. */
  function GradKvRow(gradK: Row, gradV: Row, nope: nat): Row
    requires |gradK| >= nope
  {
    gradK[..nope] + gradV
  }

  /** The shared rotary gradient: the heads' sum, rotated back. */
  function HeadSum(gradK: Heads, nope: nat, d: int): real {
    Sum(|gradK|, FeatureOf(gradK, nope + d))
  }

  function SummedRow(gradK: Heads, nope: nat, pairs: nat): (row: Row)
    ensures |row| == 2 * pairs && forall d | 0 <= d < 2 * pairs :: row[d] == HeadSum(gradK, nope, d)
  {
    seq(2 * pairs, d => HeadSum(gradK, nope, d))
  }

  function GradKPeRow(gradK: Heads, nope: nat, pairs: nat, a: Angles): (row: Row)
    ensures |row| == 2 * pairs
  {
    RotatedRow(SummedRow(gradK, nope, pairs), 0, pairs, a, true)
  }

  // ---------- inner products ----------

  function Terms(a: Row, b: Row): int -> real {
    i => if 0 <= i < |a| && i < |b| then a[i] * b[i] else 0.0
  }

  function Dot(a: Row, b: Row): real {
    Sum(|a|, Terms(a, b))
  }

  /** Rows of a head as they are split into parts. */
  lemma DotParts(a: Row, b: Row, c: Row, d: Row)
    requires |a| == |c|
    ensures Dot(a + b, c + d) == Dot(a, c) + Dot(b, d)
  {
    var f := Terms(a + b, c + d);
    SumSplit(|a|, |b|, f);
    SumExt(|a|, f, Terms(a, c));
    SumFromExt(|a|, |b|, f, Terms(b, d));
  }

  /** The terms of pair p. */
  function PairTerms(a: Row, b: Row): int -> real {
    p => Terms(a, b)(2 * p) + Terms(a, b)(2 * p + 1)
  }

  lemma {:induction false} DotPairs(a: Row, b: Row, pairs: nat)
    requires |a| == 2 * pairs
    ensures Dot(a, b) == Sum(pairs, PairTerms(a, b))
  {
    SumPairs(pairs, Terms(a, b), PairTerms(a, b));
  }

  lemma {:induction false} SumPairs(n: nat, f: int -> real, g: int -> real)
    requires forall p {:trigger g(p)} :: g(p) == f(2 * p) + f(2 * p + 1)
    ensures Sum(2 * n, f) == Sum(n, g)
  {
    if n > 0 {
      SumPairs(n - 1, f, g);
      assert g(n - 1) == f(2 * n - 2) + f(2 * n - 1);
    }
  }

  /** Rotating one side forward is rotating the other side back: the rotation's adjoint is its inverse. */
  lemma RotationAdjoint(g: Row, x: Row, pairs: nat, a: Angles)
    requires |g| == |x| == 2 * pairs
    ensures Dot(g, RotatedRow(x, 0, pairs, a, false)) == Dot(RotatedRow(g, 0, pairs, a, true), x)
  {
    var rx, rg := RotatedRow(x, 0, pairs, a, false), RotatedRow(g, 0, pairs, a, true);
    DotPairs(g, rx, pairs);
    DotPairs(rg, x, pairs);
    forall p | 0 <= p < pairs ensures PairTerms(g, rx)(p) == PairTerms(rg, x)(p) {
      PairAdjoint(g, x, pairs, a, p);
    }
    SumExt(pairs, PairTerms(g, rx), PairTerms(rg, x));
  }

  lemma PairAdjoint(g: Row, x: Row, pairs: nat, a: Angles, p: nat)
    requires |g| == |x| == 2 * pairs && p < pairs
    ensures PairTerms(g, RotatedRow(x, 0, pairs, a, false))(p) == PairTerms(RotatedRow(g, 0, pairs, a, true), x)(p)
  {
    hide RotEven, RotOdd, Rotated, Dot;
    RotateEntries(x, 0, pairs, a, false, p);
    RotateEntries(g, 0, pairs, a, true, p);
    RotationTerms(g[2 * p], g[2 * p + 1], x[2 * p], x[2 * p + 1], a.cos(p), a.sin(p));
    var rx, rg := RotatedRow(x, 0, pairs, a, false), RotatedRow(g, 0, pairs, a, true);
    var f, h := Terms(g, rx), Terms(rg, x);
    assert f(2 * p) == g[2 * p] * rx[2 * p] && f(2 * p + 1) == g[2 * p + 1] * rx[2 * p + 1];
    assert h(2 * p) == rg[2 * p] * x[2 * p] && h(2 * p + 1) == rg[2 * p + 1] * x[2 * p + 1];
  }

  lemma RotationTerms(ge: real, go: real, xe: real, xo: real, c: real, s: real)
    ensures ge * RotEven(xe, xo, c, s, false) + go * RotOdd(xe, xo, c, s, false) ==
            RotEven(ge, go, c, s, true) * xe + RotOdd(ge, go, c, s, true) * xo
  {
    assert ge * (xe * c - xo * s) == (ge * c) * xe - (ge * s) * xo;
    assert go * (xe * s + xo * c) == (go * s) * xe + (go * c) * xo;
  }

  /** The rotary parts of the heads. */
  function RopeDots(gradK: Heads, nope: nat, x: Row): int -> real {
    h => if 0 <= h < |gradK| && |gradK[h]| >= nope then Dot(gradK[h][nope..], x) else 0.0
  }

  function Products2(gradK: Heads, nope: nat, x: Row): (int, int) -> real {
    (h, d) => if 0 <= d < |x| then x[d] * FeatureOf(gradK, nope + d)(h) else 0.0
  }

  lemma RopeDotIs(gradK: Heads, nope: nat, x: Row, h: nat)
    requires Wide(gradK, nope + |x|) && h < |gradK|
    ensures RopeDots(gradK, nope, x)(h) == RowSum(|x|, Products2(gradK, nope, x))(h)
  {
    var f := Products2(gradK, nope, x);
    var part := gradK[h][nope..];
    forall d | 0 <= d < |x| ensures Terms(part, x)(d) == f(h, d) {
      var feature := FeatureOf(gradK, nope + d);
      assert part[d] == gradK[h][nope + d] == feature(h);
    }
    SumExt(|x|, Terms(part, x), d => f(h, d));
  }

  lemma SummedTermIs(gradK: Heads, nope: nat, x: Row, pairs: nat, d: nat)
    requires Wide(gradK, nope + |x|) && |x| == 2 * pairs && d < |x|
    ensures RowSum(|gradK|, Flip(Products2(gradK, nope, x)))(d) == Terms(SummedRow(gradK, nope, pairs), x)(d)
  {
    var f, g := Flip(Products2(gradK, nope, x)), FeatureOf(gradK, nope + d);
    SumScale(|gradK|, x[d], g);
    SumExt(|gradK|, h => f(d, h), h => x[d] * g(h));
  }

  /** Summing over heads before or after the inner product with the shared rotary row. */
  lemma SharedRow(gradK: Heads, nope: nat, x: Row, pairs: nat)
    requires Wide(gradK, nope + |x|) && |x| == 2 * pairs
    ensures Sum(|gradK|, RopeDots(gradK, nope, x)) == Dot(SummedRow(gradK, nope, pairs), x)
  {
    var f := Products2(gradK, nope, x);
    Fubini(|gradK|, |x|, f);
    forall h | 0 <= h < |gradK| ensures RopeDots(gradK, nope, x)(h) == RowSum(|x|, f)(h) { RopeDotIs(gradK, nope, x, h); }
    SumExt(|gradK|, RopeDots(gradK, nope, x), RowSum(|x|, f));
    forall d | 0 <= d < |x| ensures RowSum(|gradK|, Flip(f))(d) == Terms(SummedRow(gradK, nope, pairs), x)(d) {
      SummedTermIs(gradK, nope, x, pairs, d);
    }
    SumExt(|x|, RowSum(|gradK|, Flip(f)), Terms(SummedRow(gradK, nope, pairs), x));
  }

  // ---------- forward and backward of one token ----------

  /** <dK, K> + <dV, V> of head h. */
  function ForwardDots(gradK: Heads, gradV: Heads, kv: Heads, kPe: Row, nope: nat, pairs: nat, a: Angles): int -> real {
    h => if 0 <= h < |gradK| && h < |gradV| && h < |kv| && |kv[h]| >= nope && |kPe| == 2 * pairs
         then Dot(gradK[h], KRow(kv[h], kPe, nope, pairs, a)) + Dot(gradV[h], kv[h][nope..]) else 0.0
  }

  /** <dKV, KV> of head h. */
  function BackwardDots(gradK: Heads, gradV: Heads, kv: Heads, nope: nat): int -> real {
    h => if 0 <= h < |gradK| && h < |gradV| && h < |kv| && |gradK[h]| >= nope
         then Dot(GradKvRow(gradK[h], gradV[h], nope), kv[h]) else 0.0
  }

  lemma HeadAdjoint(gradK: Row, gradV: Row, kv: Row, kPe: Row, nope: nat, pairs: nat, a: Angles)
    requires |gradK| == nope + 2 * pairs && |kPe| == 2 * pairs && |kv| == nope + |gradV|
    ensures Dot(gradK, KRow(kv, kPe, nope, pairs, a)) + Dot(gradV, kv[nope..]) ==
            Dot(GradKvRow(gradK, gradV, nope), kv) + Dot(gradK[nope..], RotatedRow(kPe, 0, pairs, a, false))
  {
    hide RotatedRow, Dot;
    assert gradK == gradK[..nope] + gradK[nope..] && kv == kv[..nope] + kv[nope..];
    DotParts(gradK[..nope], gradK[nope..], kv[..nope], RotatedRow(kPe, 0, pairs, a, false));
    DotParts(gradK[..nope], gradV, kv[..nope], kv[nope..]);
  }

  /** The backward of a token is the adjoint of its forward: <dK, K> + <dV, V> == <dKV, KV> + <dKpe, Kpe>. */
  lemma BackwardIsAdjoint(gradK: Heads, gradV: Heads, kv: Heads, kPe: Row, nope: nat, pairs: nat, vDim: nat, a: Angles)
    requires |gradK| == |gradV| == |kv| && Wide(gradK, nope + 2 * pairs) && Wide(gradV, vDim) && Wide(kv, nope + vDim)
    requires |kPe| == 2 * pairs
    ensures Sum(|gradK|, ForwardDots(gradK, gradV, kv, kPe, nope, pairs, a)) ==
            Sum(|gradK|, BackwardDots(gradK, gradV, kv, nope)) + Dot(GradKPeRow(gradK, nope, pairs, a), kPe)
  {
    hide RotatedRow, Dot, GradKvRow, KRow;
    var n, rotated := |gradK|, RotatedRow(kPe, 0, pairs, a, false);
    var f, g, r := ForwardDots(gradK, gradV, kv, kPe, nope, pairs, a), BackwardDots(gradK, gradV, kv, nope), RopeDots(gradK, nope, rotated);
    forall h | 0 <= h < n ensures f(h) == g(h) + r(h) {
      HeadAdjoint(gradK[h], gradV[h], kv[h], kPe, nope, pairs, a);
    }
    SumExt(n, f, h => g(h) + r(h));
    SumAdd(n, g, r);
    SharedRow(gradK, nope, rotated, pairs);
    RotationAdjoint(SummedRow(gradK, nope, pairs), kPe, pairs, a);
  }

  // ---------- the kernel ----------

  function HeadsOf(t: array3<Row>, b: int, l: int): (rows: Heads)
    requires 0 <= b < t.Length0 && 0 <= l < t.Length1
    reads t
    ensures |rows| == t.Length2 && forall h | 0 <= h < |rows| :: rows[h] == t[b, l, h]
  {
    seq(t.Length2, h requires 0 <= h < t.Length2 reads t => t[b, l, h])
  }

  /** The even (parity 0) or odd (parity 1) lanes of the heads' sum over the first n heads. */
  predicate PartialSums(sums: Row, rows: Heads, nope: nat, pairs: nat, parity: nat, n: nat) {
    |sums| == pairs && forall p | 0 <= p < pairs :: sums[p] == Sum(n, FeatureOf(rows, nope + 2 * p + parity))
  }

  predicate TileSums(sums: Row, rows: Heads, nope: nat, pairs: nat, parity: nat, from: nat, n: nat) {
    |sums| == pairs && forall p | 0 <= p < pairs :: sums[p] == SumFrom(from, n, FeatureOf(rows, nope + 2 * p + parity))
  }

  function AddRows(a: Row, b: Row): (c: Row)
    requires |a| == |b|
    ensures |c| == |a| && forall i | 0 <= i < |a| :: c[i] == a[i] + b[i]
  {
    seq(|a|, i requires 0 <= i < |a| => a[i] + b[i])
  }

  /** One head's lanes of a tile reduction, zero where the pair mask is off. */
  function PairLanes(row: Row, nope: nat, pairs: nat, parity: nat): (lanes: Row)
    requires |row| == nope + 2 * pairs && parity < 2
    ensures |lanes| == pairs && forall p | 0 <= p < pairs :: lanes[p] == row[nope + 2 * p + parity]
  {
    seq(pairs, p requires 0 <= p < pairs => row[nope + 2 * p + parity])
  }

  function Zeros(n: nat): Row {
    seq(n, _ => 0.0)
  }

  lemma NoHeads(rows: Heads, nope: nat, pairs: nat, parity: nat)
    ensures PartialSums(Zeros(pairs), rows, nope, pairs, parity, 0)
  {
  }

  lemma NoTileHeads(rows: Heads, nope: nat, pairs: nat, parity: nat, from: nat)
    ensures TileSums(Zeros(pairs), rows, nope, pairs, parity, from, 0)
  {
  }

  lemma AddTile(pos: Row, tile: Row, rows: Heads, nope: nat, pairs: nat, parity: nat, from: nat, n: nat)
    requires PartialSums(pos, rows, nope, pairs, parity, from) && TileSums(tile, rows, nope, pairs, parity, from, n)
    ensures |pos| == |tile| == pairs && PartialSums(AddRows(pos, tile), rows, nope, pairs, parity, from + n)
  {
    forall p | 0 <= p < pairs ensures AddRows(pos, tile)[p] == Sum(from + n, FeatureOf(rows, nope + 2 * p + parity)) {
      SumSplit(from, n, FeatureOf(rows, nope + 2 * p + parity));
    }
  }

  lemma AddHead(tile: Row, rows: Heads, nope: nat, pairs: nat, parity: nat, from: nat, n: nat)
    requires TileSums(tile, rows, nope, pairs, parity, from, n) && from + n < |rows| && Wide(rows, nope + 2 * pairs) && parity < 2
    ensures |tile| == pairs
    ensures TileSums(AddRows(tile, PairLanes(rows[from + n], nope, pairs, parity)), rows, nope, pairs, parity, from, n + 1)
  {
    var next := AddRows(tile, PairLanes(rows[from + n], nope, pairs, parity));
    forall p | 0 <= p < pairs ensures next[p] == SumFrom(from, n + 1, FeatureOf(rows, nope + 2 * p + parity)) {
      var f := FeatureOf(rows, nope + 2 * p + parity);
      assert f(from + n) == rows[from + n][nope + 2 * p + parity];
    }
  }

  /** Feature d of a packed gradient is stored by exactly one lane: of dK's nope part or of dV. */
  datatype KvLane = FromK(dim: nat) | FromV(dim: nat)

  function Widest(a: nat, b: nat): nat {
    if a < b then b else a
  }

  predicate KvKept(lane: KvLane, nope: nat, vDim: nat) {
    lane.dim < NextPowerOf2(Widest(nope, vDim)) && lane.dim < if lane.FromK? then nope else vDim
  }

  function KvStores(lane: KvLane, nope: nat): nat {
    if lane.FromK? then lane.dim else nope + lane.dim
  }

  lemma EachKvFeatureStoredOnce(nope: nat, vDim: nat, d: nat)
    ensures d < nope + vDim <==> exists lane :: KvKept(lane, nope, vDim) && KvStores(lane, nope) == d
    ensures forall x, y | KvKept(x, nope, vDim) && KvKept(y, nope, vDim) && KvStores(x, nope) == KvStores(y, nope) :: x == y
  {
    NextPowerCovers(Widest(nope, vDim));
    if d < nope + vDim {
      var lane := if d < nope then FromK(d) else FromV(d - nope);
      assert KvKept(lane, nope, vDim) && KvStores(lane, nope) == d;
    }
  }

  /** The packed gradient row of one head, lane by lane. */
  method StoreKv(gradK: Row, gradV: Row, gradKv: Row, nope: nat) returns (out: Row)
    requires |gradK| >= nope && |gradKv| == nope + |gradV|
    ensures out == GradKvRow(gradK, gradV, nope) && |out| == nope + |gradV|
  {
    var vDim := |gradV|;
    var lanes := NextPowerOf2(Widest(nope, vDim));
    NextPowerCovers(Widest(nope, vDim));
    out := gradKv;
    for dim := 0 to lanes
      invariant |out| == nope + vDim && forall d | 0 <= d < dim && d < nope :: out[d] == gradK[d]
    {
      if KvKept(FromK(dim), nope, vDim) {
        out := out[KvStores(FromK(dim), nope) := gradK[dim]];
      }
    }
    for dim := 0 to lanes
      invariant |out| == nope + vDim && forall d | 0 <= d < nope :: out[d] == gradK[d]
      invariant forall d | 0 <= d < dim && d < vDim :: out[nope + d] == gradV[d]
    {
      if KvKept(FromV(dim), nope, vDim) {
        out := out[KvStores(FromV(dim), nope) := gradV[dim]];
      }
    }
    var row := GradKvRow(gradK, gradV, nope);
    forall d | 0 <= d < |row| ensures out[d] == row[d] {
      if d >= nope { assert out[nope + (d - nope)] == gradV[d - nope]; }
    }
  }

  /** One tile of heads: their packed gradients, and the tile's sums of the rotary gradients. */
  method HeadTile(gradK: array3<Row>, gradV: array3<Row>, gradKv: array3<Row>, g: Grid, nope: nat, pairs: nat, vDim: nat,
                  b: nat, l: nat, from: nat)
    returns (even: Row, odd: Row, n: nat)
    requires b < g.batch && l < g.seqLen && from < g.heads && Good(g) && gradKv != gradK && gradKv != gradV
    requires Shaped(gradK, g, nope + 2 * pairs) && Shaped(gradV, g, vDim) && Shaped(gradKv, g, nope + vDim)
    modifies gradKv
    ensures n == if from + g.blockH <= g.heads then g.blockH else g.heads - from
    ensures TileSums(even, HeadsOf(gradK, b, l), nope, pairs, 0, from, n)
    ensures TileSums(odd, HeadsOf(gradK, b, l), nope, pairs, 1, from, n)
    ensures Shaped(gradKv, g, nope + vDim)
    ensures forall h | from <= h < from + n :: gradKv[b, l, h] == GradKvRow(gradK[b, l, h], gradV[b, l, h], nope)
    ensures forall x, y, h | InGrid(g, x, y, h) && !(x == b && y == l && from <= h < from + n) :: gradKv[x, y, h] == old(gradKv[x, y, h])
  {
    hide TileSums, GradKvRow, AddRows, PairLanes;
    even, odd, n := Zeros(pairs), Zeros(pairs), 0;
    ghost var rows := HeadsOf(gradK, b, l);
    NoTileHeads(rows, nope, pairs, 0, from);
    NoTileHeads(rows, nope, pairs, 1, from);
    for i := 0 to g.blockH
      invariant n == if from + i <= g.heads then i else g.heads - from
      invariant TileSums(even, rows, nope, pairs, 0, from, n) && TileSums(odd, rows, nope, pairs, 1, from, n)
      invariant Shaped(gradKv, g, nope + vDim)
      invariant forall h | from <= h < from + n :: gradKv[b, l, h] == GradKvRow(gradK[b, l, h], gradV[b, l, h], nope)
      invariant forall x, y, h | InGrid(g, x, y, h) && !(x == b && y == l && from <= h < from + n) :: gradKv[x, y, h] == old(gradKv[x, y, h])
    {
      var head := from + i;
      if head < g.heads {
        var row := StoreKv(gradK[b, l, head], gradV[b, l, head], gradKv[b, l, head], nope);
        gradKv[b, l, head] := row;
        AddHead(even, rows, nope, pairs, 0, from, n);
        AddHead(odd, rows, nope, pairs, 1, from, n);
        even, odd := AddRows(even, PairLanes(gradK[b, l, head], nope, pairs, 0)), AddRows(odd, PairLanes(gradK[b, l, head], nope, pairs, 1));
        n := n + 1;
      }
    }
  }

  function TokenGrid(batch: nat, seqLen: nat): Grid {
    Grid(batch, seqLen, 1, 1)
  }

  function GradKPeAt(rope: Rope, gradK: Heads, nope: nat, pairs: nat, b: int, l: int): Row {
    GradKPeRow(gradK, nope, pairs, AnglesAt(rope, b, l))
  }

  /** The rotary stores: the summed pairs, rotated back. */
  method StoreKPe(even: Row, odd: Row, gradKPe: Row, rows: Heads, nope: nat, pairs: nat, a: Angles) returns (out: Row)
    requires PartialSums(even, rows, nope, pairs, 0, |rows|) && PartialSums(odd, rows, nope, pairs, 1, |rows|)
    requires |gradKPe| == 2 * pairs
    ensures out == GradKPeRow(rows, nope, pairs, a)
  {
    hide RotEven, RotOdd, GradKPeRow;
    NextPowerCovers(pairs);
    out := gradKPe;
    ghost var target := GradKPeRow(rows, nope, pairs, a);
    for pair := 0 to NextPowerOf2(pairs)
      invariant |out| == 2 * pairs
      invariant forall d | 0 <= d < 2 * pair && d < 2 * pairs :: out[d] == target[d]
    {
      if Kept(Even(pair), 0, pairs) && Kept(Odd(pair), 0, pairs) {
        var x, y, c, s := even[pair], odd[pair], a.cos(pair), a.sin(pair);
        TargetPair(even, odd, rows, nope, pairs, a, pair);
        out := out[Stores(Even(pair), 0) := RotEven(x, y, c, s, true)];
        out := out[Stores(Odd(pair), 0) := RotOdd(x, y, c, s, true)];
      }
    }
    assert out == target;
  }

  lemma TargetPair(even: Row, odd: Row, rows: Heads, nope: nat, pairs: nat, a: Angles, p: nat)
    requires PartialSums(even, rows, nope, pairs, 0, |rows|) && PartialSums(odd, rows, nope, pairs, 1, |rows|) && p < pairs
    ensures GradKPeRow(rows, nope, pairs, a)[2 * p] == RotEven(even[p], odd[p], a.cos(p), a.sin(p), true)
    ensures GradKPeRow(rows, nope, pairs, a)[2 * p + 1] == RotOdd(even[p], odd[p], a.cos(p), a.sin(p), true)
  {
    hide RotEven, RotOdd;
    var summed := SummedRow(rows, nope, pairs);
    RotateEntries(summed, 0, pairs, a, true, p);
    assert summed[2 * p] == HeadSum(rows, nope, 2 * p) == even[p];
    assert summed[2 * p + 1] == HeadSum(rows, nope, 2 * p + 1) == odd[p];
  }

  /** The token of a program. */
  predicate Handles(g: Grid, program: nat, b: int, l: int)
    requires g.seqLen > 0
  {
    b == program / g.seqLen && l == program % g.seqLen
  }

  lemma HandlesIsProgram(g: Grid, program: nat, b: int, l: int)
    requires g.seqLen > 0 && 0 <= b < g.batch && 0 <= l < g.seqLen && program < g.batch * g.seqLen
    ensures ProgramOf(TokenGrid(g.batch, g.seqLen), b, l, 0) < g.batch * g.seqLen
    ensures Handles(g, program, b, l) <==> program == ProgramOf(TokenGrid(g.batch, g.seqLen), b, l, 0)
  {
    ProgramsPartition(TokenGrid(g.batch, g.seqLen), program, b, l, 0);
  }

  /** The tile of the head loop that holds a head. */
  predicate InHeadTile(tile: nat, blockH: nat, h: nat) {
    tile * blockH <= h < tile * blockH + blockH
  }

  /** Where an element of the packed gradient is stored: a program, a turn of its head loop, and a lane. */
  datatype KvStore = KvStore(program: nat, tile: nat, lane: KvLane)

  predicate StoresKv(g: Grid, nope: nat, vDim: nat, s: KvStore, b: nat, l: nat, h: nat, d: nat)
    requires g.seqLen > 0
  {
    s.program < g.batch * g.seqLen && Handles(g, s.program, b, l) && InHeadTile(s.tile, g.blockH, h) &&
    KvKept(s.lane, nope, vDim) && KvStores(s.lane, nope) == d
  }

  /** Every element of the packed gradient is stored exactly once. */
  lemma EachKvElementStoredOnce(g: Grid, nope: nat, vDim: nat, b: nat, l: nat, h: nat, d: nat)
    requires Good(g) && InGrid(g, b, l, h) && d < nope + vDim
    ensures exists s :: StoresKv(g, nope, vDim, s, b, l, h, d)
    ensures forall s, t | StoresKv(g, nope, vDim, s, b, l, h, d) && StoresKv(g, nope, vDim, t, b, l, h, d) :: s == t
  {
    hide Handles, KvKept, KvStores, InHeadTile, ProgramOf;
    EachKvFeatureStoredOnce(nope, vDim, d);
    var lane :| KvKept(lane, nope, vDim) && KvStores(lane, nope) == d;
    var program, tile := ProgramOf(TokenGrid(g.batch, g.seqLen), b, l, 0), h / g.blockH;
    TokenInGrid(g, b, l);
    HandlesIsProgram(g, program, b, l);
    OneHeadTile(g.blockH, h, tile);
    assert StoresKv(g, nope, vDim, KvStore(program, tile, lane), b, l, h, d);
    forall s | StoresKv(g, nope, vDim, s, b, l, h, d) ensures s == KvStore(program, tile, lane) {
      HandlesIsProgram(g, s.program, b, l);
      OneHeadTile(g.blockH, h, s.tile);
    }
  }

  lemma TokenInGrid(g: Grid, b: nat, l: nat)
    requires b < g.batch && l < g.seqLen
    ensures ProgramOf(TokenGrid(g.batch, g.seqLen), b, l, 0) < g.batch * g.seqLen
  {
    TileOfProgram(TokenGrid(g.batch, g.seqLen), b, l, 0);
  }

  lemma OneHeadTile(blockH: nat, h: nat, tile: nat)
    requires blockH > 0
    ensures InHeadTile(tile, blockH, h) <==> tile == h / blockH
  {
    if InHeadTile(tile, blockH, h) { QuotientUnique(h, blockH, tile, h - tile * blockH); }
  }

  /** Every element of the shared rotary gradient is stored by exactly one lane of exactly one program. */
  lemma EachKPeElementStoredOnce(g: Grid, pairs: nat, b: nat, l: nat, d: nat)
    requires b < g.batch && l < g.seqLen && d < 2 * pairs
    ensures exists program, lane :: 0 <= program < g.batch * g.seqLen && Handles(g, program, b, l) &&
                                    Kept(lane, 0, pairs) && Stores(lane, 0) == d
    ensures forall p, q, x, y | 0 <= p < g.batch * g.seqLen && 0 <= q < g.batch * g.seqLen &&
              Handles(g, p, b, l) && Handles(g, q, b, l) &&
              Kept(x, 0, pairs) && Stores(x, 0) == d && Kept(y, 0, pairs) && Stores(y, 0) == d :: p == q && x == y
  {
    hide Handles, Kept, Stores, ProgramOf;
    EachFeatureStoredOnce(0, pairs, d);
    var lane :| Kept(lane, 0, pairs) && Stores(lane, 0) == d;
    var program := ProgramOf(TokenGrid(g.batch, g.seqLen), b, l, 0);
    TokenInGrid(g, b, l);
    HandlesIsProgram(g, program, b, l);
    forall p: nat | p < g.batch * g.seqLen && Handles(g, p, b, l) ensures p == program {
      HandlesIsProgram(g, p, b, l);
    }
  }

  /** The packed gradient of one head, feature by feature. */
  ghost predicate IsGradKv(nope: nat, gradK: Row, gradV: Row, gradKv: Row) {
    && |gradK| >= nope && |gradKv| == nope + |gradV|
    && (forall d | 0 <= d < nope :: gradKv[d] == gradK[d])
    && (forall d | 0 <= d < |gradV| :: gradKv[nope + d] == gradV[d])
  }

  /** The shared rotary gradient of the token at position m: feature sums over the heads, turned back by row m. */
  ghost predicate IsGradKPe(rope: Rope, m: int, nope: nat, pairs: nat, gradK: Heads, gradKPe: Row) {
    |gradKPe| == 2 * pairs && forall p | 0 <= p < pairs ::
      Turned(Sum(|gradK|, FeatureOf(gradK, nope + 2 * p)), Sum(|gradK|, FeatureOf(gradK, nope + 2 * p + 1)),
             rope.cos(m, p), rope.sin(m, p), true, gradKPe[2 * p], gradKPe[2 * p + 1])
  }

  lemma GradKPeIs(rope: Rope, gradK: Heads, nope: nat, pairs: nat, b: int, l: int)
    ensures IsGradKPe(rope, rope.position(b, l), nope, pairs, gradK, GradKPeAt(rope, gradK, nope, pairs, b, l))
  {
    hide RotatedRow, Turned, AnglesAt, Sum, FeatureOf;
    var summed, m := SummedRow(gradK, nope, pairs), rope.position(b, l);
    var out := QRow(rope, 0, pairs, true, b, l, summed);
    assert out == GradKPeAt(rope, gradK, nope, pairs, b, l);
    forall p | 0 <= p < pairs
      ensures Turned(summed[2 * p], summed[2 * p + 1], rope.cos(m, p), rope.sin(m, p), true, out[2 * p], out[2 * p + 1])
      ensures summed[2 * p] == Sum(|gradK|, FeatureOf(gradK, nope + 2 * p))
      ensures summed[2 * p + 1] == Sum(|gradK|, FeatureOf(gradK, nope + 2 * p + 1))
    {
      PairTurned(rope, 0, pairs, true, b, l, summed, p);
      assert summed[2 * p] == HeadSum(gradK, nope, 2 * p) && summed[2 * p + 1] == HeadSum(gradK, nope, 2 * p + 1);
    }
  }

  lemma GradKvIs(gradK: Row, gradV: Row, nope: nat)
    requires |gradK| >= nope
    ensures IsGradKv(nope, gradK, gradV, GradKvRow(gradK, gradV, nope))
  {
  }

  /** One program: all heads of one token, tile by tile. */
  method KvBackwardProgram(gradK: array3<Row>, gradV: array3<Row>, gradKv: array3<Row>, gradKPe: array2<Row>, g: Grid, rope: Rope,
                           nope: nat, pairs: nat, vDim: nat, program: nat)
    requires Good(g) && g.seqLen > 0 && program < g.batch * g.seqLen && gradKv != gradK && gradKv != gradV
    requires Shaped(gradK, g, nope + 2 * pairs) && Shaped(gradV, g, vDim) && Shaped(gradKv, g, nope + vDim) && Shaped2(gradKPe, g, 2 * pairs)
    modifies gradKv, gradKPe
    ensures Shaped(gradKv, g, nope + vDim) && Shaped2(gradKPe, g, 2 * pairs)
    ensures forall b, l, h | InGrid(g, b, l, h) && Handles(g, program, b, l) ::
      gradKv[b, l, h] == GradKvRow(gradK[b, l, h], gradV[b, l, h], nope)
    ensures forall b, l | 0 <= b < g.batch && 0 <= l < g.seqLen && Handles(g, program, b, l) ::
      gradKPe[b, l] == GradKPeAt(rope, HeadsOf(gradK, b, l), nope, pairs, b, l)
    ensures forall b, l, h | InGrid(g, b, l, h) && Handles(g, program, b, l) ::
      IsGradKv(nope, gradK[b, l, h], gradV[b, l, h], gradKv[b, l, h])
    ensures forall b, l | 0 <= b < g.batch && 0 <= l < g.seqLen && Handles(g, program, b, l) ::
      IsGradKPe(rope, rope.position(b, l), nope, pairs, HeadsOf(gradK, b, l), gradKPe[b, l])
    ensures forall b, l, h | InGrid(g, b, l, h) && !Handles(g, program, b, l) ::
      gradKv[b, l, h] == old(gradKv[b, l, h])
    ensures forall b, l | 0 <= b < g.batch && 0 <= l < g.seqLen && !Handles(g, program, b, l) ::
      gradKPe[b, l] == old(gradKPe[b, l])
  {
    hide TileSums, PartialSums, GradKvRow, GradKPeRow, AddRows, IsGradKv, IsGradKPe, AnglesAt;
    var l, b := program % g.seqLen, program / g.seqLen;
    QuotientWithin(program, g.batch, g.seqLen);
    assert forall x, y :: Handles(g, program, x, y) <==> x == b && y == l;
    hide Handles;
    var even, odd, from := Zeros(pairs), Zeros(pairs), 0;
    var rows := HeadsOf(gradK, b, l);
    NoHeads(rows, nope, pairs, 0);
    NoHeads(rows, nope, pairs, 1);
    while from < g.heads
      modifies gradKv
      invariant from <= g.heads
      invariant PartialSums(even, rows, nope, pairs, 0, from) && PartialSums(odd, rows, nope, pairs, 1, from)
      invariant Shaped(gradKv, g, nope + vDim)
      invariant forall h | 0 <= h < from :: gradKv[b, l, h] == GradKvRow(gradK[b, l, h], gradV[b, l, h], nope)
      invariant forall x, y, h | InGrid(g, x, y, h) && !(x == b && y == l) :: gradKv[x, y, h] == old(gradKv[x, y, h])
    {
      var tileEven, tileOdd, n := HeadTile(gradK, gradV, gradKv, g, nope, pairs, vDim, b, l, from);
      AddTile(even, tileEven, rows, nope, pairs, 0, from, n);
      AddTile(odd, tileOdd, rows, nope, pairs, 1, from, n);
      even, odd, from := AddRows(even, tileEven), AddRows(odd, tileOdd), from + n;
    }
    var row := StoreKPe(even, odd, gradKPe[b, l], rows, nope, pairs, AnglesAt(rope, b, l));
    gradKPe[b, l] := row;
    GradKPeIs(rope, rows, nope, pairs, b, l);
    forall h | 0 <= h < g.heads ensures IsGradKv(nope, gradK[b, l, h], gradV[b, l, h], gradKv[b, l, h]) {
      GradKvIs(gradK[b, l, h], gradV[b, l, h], nope);
    }
  }

  /** The launch, one program per token in any order: the packed gradients of every token. */
  method LaunchKvBackward(gradK: array3<Row>, gradV: array3<Row>, gradKv: array3<Row>, gradKPe: array2<Row>, rope: Rope,
                          nope: nat, pairs: nat, vDim: nat, order: seq<nat>)
    requires var g := Grid(gradK.Length0, gradK.Length1, gradK.Length2, BlockH(64, gradK.Length2));
             g.heads > 0 && gradKv != gradK && gradKv != gradV && Permutation(order, Programs(TokenGrid(g.batch, g.seqLen))) &&
             Shaped(gradK, g, nope + 2 * pairs) && Shaped(gradV, g, vDim) && Shaped(gradKv, g, nope + vDim) && Shaped2(gradKPe, g, 2 * pairs)
    modifies gradKv, gradKPe
    ensures forall b, l, h | 0 <= b < gradK.Length0 && 0 <= l < gradK.Length1 && 0 <= h < gradK.Length2 ::
      gradKv[b, l, h] == GradKvRow(gradK[b, l, h], gradV[b, l, h], nope)
    ensures forall b, l | 0 <= b < gradK.Length0 && 0 <= l < gradK.Length1 ::
      gradKPe[b, l] == GradKPeAt(rope, HeadsOf(gradK, b, l), nope, pairs, b, l)
    ensures forall b, l, h | 0 <= b < gradK.Length0 && 0 <= l < gradK.Length1 && 0 <= h < gradK.Length2 ::
      IsGradKv(nope, gradK[b, l, h], gradV[b, l, h], gradKv[b, l, h])
    ensures forall b, l | 0 <= b < gradK.Length0 && 0 <= l < gradK.Length1 ::
      IsGradKPe(rope, rope.position(b, l), nope, pairs, HeadsOf(gradK, b, l), gradKPe[b, l])
  {
    hide IsGradKv, IsGradKPe, GradKvRow, GradKPeAt;
    var g := Grid(gradK.Length0, gradK.Length1, gradK.Length2, BlockH(64, gradK.Length2));
    var tokens := TokenGrid(g.batch, g.seqLen);
    NextPowerCovers(g.heads);
    for n := 0 to |order|
      invariant Shaped(gradKv, g, nope + vDim) && Shaped2(gradKPe, g, 2 * pairs)
      invariant forall b, l, h | InGrid(g, b, l, h) && ProgramOf(tokens, b, l, 0) in order[..n] ::
        gradKv[b, l, h] == GradKvRow(gradK[b, l, h], gradV[b, l, h], nope)
      invariant forall b, l | InGrid(tokens, b, l, 0) && ProgramOf(tokens, b, l, 0) in order[..n] ::
        gradKPe[b, l] == GradKPeAt(rope, HeadsOf(gradK, b, l), nope, pairs, b, l)
    {
      GridNotEmpty(tokens, order[n]);
      forall b, l | InGrid(tokens, b, l, 0)
        ensures Handles(g, order[n], b, l) <==> order[n] == ProgramOf(tokens, b, l, 0)
      {
        ProgramsPartition(tokens, order[n], b, l, 0);
      }
      KvBackwardProgram(gradK, gradV, gradKv, gradKPe, g, rope, nope, pairs, vDim, order[n]);
    }
    forall b, l | InGrid(tokens, b, l, 0) ensures ProgramOf(tokens, b, l, 0) in order { TileOfProgram(tokens, b, l, 0); }
    assert order[..|order|] == order;
    forall b, l | 0 <= b < g.batch && 0 <= l < g.seqLen
      ensures IsGradKPe(rope, rope.position(b, l), nope, pairs, HeadsOf(gradK, b, l), gradKPe[b, l])
    {
      GradKPeIs(rope, HeadsOf(gradK, b, l), nope, pairs, b, l);
    }
    forall b, l, h | 0 <= b < g.batch && 0 <= l < g.seqLen && 0 <= h < g.heads
      ensures IsGradKv(nope, gradK[b, l, h], gradV[b, l, h], gradKv[b, l, h])
    {
      GradKvIs(gradK[b, l, h], gradV[b, l, h], nope);
    }
  }

  // ---------- forward and backward launches together ----------

  /** The inner product of the rows of head h. */
  function HeadDots(a: Heads, b: Heads): int -> real {
    h => if 0 <= h < |a| && h < |b| then Dot(a[h], b[h]) else 0.0
  }

  /** V is a view of KV past the nope features. */
  function Values(kv: Heads, nope: nat): (v: Heads)
    requires forall h | 0 <= h < |kv| :: |kv[h]| >= nope
    ensures |v| == |kv| && forall h | 0 <= h < |v| :: v[h] == kv[h][nope..]
  {
    seq(|kv|, h requires 0 <= h < |kv| => kv[h][nope..])
  }

  /** One token, from what the launches leave in its rows. */
  lemma TokenAdjoint(gradK: Heads, gradV: Heads, kv: Heads, kPe: Row, k: Heads, gradKv: Heads, gradKPe: Row,
                     nope: nat, pairs: nat, vDim: nat, a: Angles)
    requires |gradK| == |gradV| == |kv| == |k| == |gradKv| && |kPe| == 2 * pairs
    requires Wide(gradK, nope + 2 * pairs) && Wide(gradV, vDim) && Wide(kv, nope + vDim)
    requires forall h | 0 <= h < |k| :: k[h] == KRow(kv[h], kPe, nope, pairs, a)
    requires forall h | 0 <= h < |gradKv| :: gradKv[h] == GradKvRow(gradK[h], gradV[h], nope)
    requires gradKPe == GradKPeRow(gradK, nope, pairs, a)
    ensures Sum(|gradK|, HeadDots(gradK, k)) + Sum(|gradK|, HeadDots(gradV, Values(kv, nope)))
         == Sum(|gradK|, HeadDots(gradKv, kv)) + Dot(gradKPe, kPe)
  {
    hide Dot, KRow, GradKvRow, GradKPeRow;
    var n := |gradK|;
    BackwardIsAdjoint(gradK, gradV, kv, kPe, nope, pairs, vDim, a);
    var f, g := HeadDots(gradK, k), HeadDots(gradV, Values(kv, nope));
    SumAdd(n, f, g);
    SumExt(n, h => f(h) + g(h), ForwardDots(gradK, gradV, kv, kPe, nope, pairs, a));
    SumExt(n, HeadDots(gradKv, kv), BackwardDots(gradK, gradV, kv, nope));
  }

  /** _FusedMLAKV forward and then backward, each in any order of programs: on every token, for any batch, sequence and
      head counts and any cache, <dK, K> + <dV, V> == <dKV, KV> + <dKpe, Kpe>. */
  method ForwardThenBackward(kv: array3<Row>, kPe: array2<Row>, k: array3<Row>, gradK: array3<Row>, gradV: array3<Row>,
                             gradKv: array3<Row>, gradKPe: array2<Row>, rope: Rope, nope: nat, pairs: nat, vDim: nat,
                             order: seq<nat>, back: seq<nat>)
    requires var g := KGrid(kv.Length0, kv.Length1, kv.Length2);
             g.heads > 0 && Shaped(kv, g, nope + vDim) && Shaped2(kPe, g, 2 * pairs) && Shaped(k, g, nope + 2 * pairs) &&
             Shaped(gradK, g, nope + 2 * pairs) && Shaped(gradV, g, vDim) && Shaped(gradKv, g, nope + vDim) &&
             Shaped2(gradKPe, g, 2 * pairs) && Permutation(order, Programs(g)) &&
             Permutation(back, Programs(TokenGrid(g.batch, g.seqLen)))
    requires k !in {kv, gradK, gradV, gradKv} && gradKv !in {kv, gradK, gradV} && gradKPe != kPe
    modifies k, gradKv, gradKPe
    ensures forall b, l | 0 <= b < kv.Length0 && 0 <= l < kv.Length1 ::
      (forall h | 0 <= h < kv.Length2 :: |kv[b, l, h]| >= nope) &&
      Sum(kv.Length2, HeadDots(HeadsOf(gradK, b, l), HeadsOf(k, b, l)))
      + Sum(kv.Length2, HeadDots(HeadsOf(gradV, b, l), Values(HeadsOf(kv, b, l), nope)))
      == Sum(kv.Length2, HeadDots(HeadsOf(gradKv, b, l), HeadsOf(kv, b, l))) + Dot(gradKPe[b, l], kPe[b, l])
  {
    hide Sum, HeadDots, Dot, KRow, GradKvRow, GradKPeRow, Permutation, Programs, IsGradKv, IsGradKPe, IsKHead;
    LaunchK(kv, kPe, k, rope, nope, pairs, order);
    LaunchKvBackward(gradK, gradV, gradKv, gradKPe, rope, nope, pairs, vDim, back);
    forall b, l | 0 <= b < kv.Length0 && 0 <= l < kv.Length1
      ensures (forall h | 0 <= h < kv.Length2 :: |kv[b, l, h]| >= nope) &&
        Sum(kv.Length2, HeadDots(HeadsOf(gradK, b, l), HeadsOf(k, b, l)))
        + Sum(kv.Length2, HeadDots(HeadsOf(gradV, b, l), Values(HeadsOf(kv, b, l), nope)))
        == Sum(kv.Length2, HeadDots(HeadsOf(gradKv, b, l), HeadsOf(kv, b, l))) + Dot(gradKPe[b, l], kPe[b, l])
    {
      assert forall h | 0 <= h < kv.Length2 :: InGrid(KGrid(kv.Length0, kv.Length1, kv.Length2), b, l, h);
      TokenAdjoint(HeadsOf(gradK, b, l), HeadsOf(gradV, b, l), HeadsOf(kv, b, l), kPe[b, l], HeadsOf(k, b, l),
                   HeadsOf(gradKv, b, l), gradKPe[b, l], nope, pairs, vDim, AnglesAt(rope, b, l));
    }
  }

  // ---------- the backward of Q ----------

  /** The inverse rotation is the adjoint of the rotation, for any cos and sin: <g, Rot(x)> == <Rot^-1(g), x>. */
  lemma QRowAdjoint(g: Row, x: Row, nope: nat, pairs: nat, a: Angles)
    requires |g| == |x| == nope + 2 * pairs
    ensures Dot(g, RotatedRow(x, nope, pairs, a, false)) == Dot(RotatedRow(g, nope, pairs, a, true), x)
  {
    hide RotatedRow, EagerRope, Dot;
    var gt, xt := g[nope..], x[nope..];
    RotatedRowIsEager(x, nope, pairs, a, false);
    RotatedRowIsEager(g, nope, pairs, a, true);
    RotatedRowIsEager(xt, 0, pairs, a, false);
    RotatedRowIsEager(gt, 0, pairs, a, true);
    assert xt[0..] == xt && gt[0..] == gt && xt[..0] == [] == gt[..0];
    assert RotatedRow(xt, 0, pairs, a, false) == EagerRope(xt, pairs, a, false);
    assert RotatedRow(gt, 0, pairs, a, true) == EagerRope(gt, pairs, a, true);
    assert g == g[..nope] + gt && x == x[..nope] + xt;
    DotParts(g[..nope], gt, x[..nope], EagerRope(xt, pairs, a, false));
    DotParts(g[..nope], EagerRope(gt, pairs, a, true), x[..nope], xt);
    RotationAdjoint(gt, xt, pairs, a);
  }

  /** _FusedMLAQ.backward: the inverse launch turns the gradient of the rotated Q into the gradient of Q, so that its
      inner product with any row is that of the incoming gradient with the rotated row. */
  method BackwardQ(gradQ: array3<Row>, rope: Rope, nope: nat, pairs: nat, order: seq<nat>)
    requires var g := QGrid(gradQ.Length0, gradQ.Length1, gradQ.Length2);
             gradQ.Length2 > 0 && Shaped(gradQ, g, nope + 2 * pairs) && Permutation(order, Programs(g))
    modifies gradQ
    ensures forall b, l, h, x: Row |
      InGrid(QGrid(gradQ.Length0, gradQ.Length1, gradQ.Length2), b, l, h) && |x| == nope + 2 * pairs ::
      Dot(gradQ[b, l, h], x) == Dot(old(gradQ[b, l, h]), QRow(rope, nope, pairs, false, b, l, x))
    ensures forall b, l, h | InGrid(QGrid(gradQ.Length0, gradQ.Length1, gradQ.Length2), b, l, h) ::
      IsRotated(rope, rope.position(b, l), nope, pairs, true, old(gradQ[b, l, h]), gradQ[b, l, h])
  {
    hide IsRotated;
    LaunchQ(gradQ, rope, nope, pairs, true, order);
    forall b, l, h, x: Row |
      InGrid(QGrid(gradQ.Length0, gradQ.Length1, gradQ.Length2), b, l, h) && |x| == nope + 2 * pairs
      ensures Dot(gradQ[b, l, h], x) == Dot(old(gradQ[b, l, h]), QRow(rope, nope, pairs, false, b, l, x))
    {
      QRowAdjoint(old(gradQ[b, l, h]), x, nope, pairs, AnglesAt(rope, b, l));
    }
  }
}
