/** The SwiGLU feed-forward with one interleaved gate/up weight, on one device and
    under tensor parallelism (torchtitan/overrides/fused_swiglu.py). */
module FusedSwiGLU {
  import opened Sums
  import opened Matrices
  import opened Wrappers
  import opened DistLinear

  // ---------- the interleaved layout ----------

  /** Row 2k is row k of a (gate, w1), row 2k + 1 is row k of b (up, w3). */
  function Interleave(a: Matrix, b: Matrix): (m: Matrix)
    requires a.rows == b.rows && a.cols == b.cols
    ensures m.rows == 2 * a.rows && m.cols == a.cols
  {
    Build(2 * a.rows, a.cols, (i, j) => if i % 2 == 0 then At(a, i / 2, j) else At(b, i / 2, j))
  }

  lemma InterleaveAt(a: Matrix, b: Matrix, k: nat, j: nat)
    requires a.rows == b.rows && a.cols == b.cols && k < a.rows && j < a.cols
    ensures At(Interleave(a, b), 2 * k, j) == At(a, k, j)
    ensures At(Interleave(a, b), 2 * k + 1, j) == At(b, k, j)
  {
    assert (2 * k) / 2 == k && (2 * k) % 2 == 0 && (2 * k + 1) / 2 == k && (2 * k + 1) % 2 == 1;
  }

  /** Index `half` of the trailing axis of unflatten(0, (-1, 2)): every second row. */
  function HalfRows(m: Matrix, half: nat): (a: Matrix)
    requires half < 2 && m.rows % 2 == 0
    ensures a.rows == m.rows / 2 && a.cols == m.cols
    ensures forall k, j | 0 <= k < a.rows && 0 <= j < a.cols :: At(a, k, j) == At(m, 2 * k + half, j)
  {
    Build(m.rows / 2, m.cols, (k, j) => At(m, 2 * k + half, j))
  }

  /** unflatten(-1, (-1, 2)).unbind(-1)[half]: every second column. */
  function HalfCols(m: Matrix, half: nat): (a: Matrix)
    requires half < 2 && m.cols % 2 == 0
    ensures a.rows == m.rows && a.cols == m.cols / 2
    ensures forall i, k | 0 <= i < a.rows && 0 <= k < a.cols :: At(a, i, k) == At(m, i, 2 * k + half)
  {
    Build(m.rows, m.cols / 2, (i, k) => At(m, i, 2 * k + half))
  }

  lemma HalvesOfInterleave(a: Matrix, b: Matrix)
    requires a.rows == b.rows && a.cols == b.cols
    ensures HalfRows(Interleave(a, b), 0) == a && HalfRows(Interleave(a, b), 1) == b
  {
    forall k, j | 0 <= k < a.rows && 0 <= j < a.cols
      ensures At(HalfRows(Interleave(a, b), 0), k, j) == At(a, k, j) && At(HalfRows(Interleave(a, b), 1), k, j) == At(b, k, j)
    {
      InterleaveAt(a, b, k, j);
    }
    MatrixEq(HalfRows(Interleave(a, b), 0), a);
    MatrixEq(HalfRows(Interleave(a, b), 1), b);
  }

  lemma InterleaveOfHalves(m: Matrix)
    requires m.rows % 2 == 0
    ensures Interleave(HalfRows(m, 0), HalfRows(m, 1)) == m
  {
    var n := Interleave(HalfRows(m, 0), HalfRows(m, 1));
    forall i, j | 0 <= i < m.rows && 0 <= j < m.cols ensures At(n, i, j) == At(m, i, j) {
      InterleavedEntry(HalfRows(m, 0), HalfRows(m, 1), m, i, j);
    }
    MatrixEq(n, m);
  }

  lemma InterleavedEntry(a: Matrix, b: Matrix, m: Matrix, i: nat, j: nat)
    requires a.rows == b.rows && a.cols == b.cols && i < 2 * a.rows && j < a.cols
    requires At(a, i / 2, j) == At(m, 2 * (i / 2), j) && At(b, i / 2, j) == At(m, 2 * (i / 2) + 1, j)
    ensures At(Interleave(a, b), i, j) == At(m, i, j)
  {
    InterleaveAt(a, b, i / 2, j);
    if i % 2 == 0 { assert i == 2 * (i / 2); } else { assert i == 2 * (i / 2) + 1; }
  }

  /** The even output columns are the gate projection, the odd ones the up projection. */
  lemma HalvesOfProduct(x: Matrix, a: Matrix, b: Matrix, half: nat)
    requires a.rows == b.rows && a.cols == b.cols == x.cols && half < 2
    ensures HalfCols(Mul(x, Transpose(Interleave(a, b))), half) == Mul(x, Transpose(if half == 0 then a else b))
  {
    var w, p := Interleave(a, b), if half == 0 then a else b;
    var l, r := HalfCols(Mul(x, Transpose(w)), half), Mul(x, Transpose(p));
    forall i, k | 0 <= i < l.rows && 0 <= k < l.cols ensures At(l, i, k) == At(r, i, k) {
      HalfEntry(x, a, b, half, i, k);
    }
    MatrixEq(l, r);
  }

  lemma HalfEntry(x: Matrix, a: Matrix, b: Matrix, half: nat, i: nat, k: nat)
    requires a.rows == b.rows && a.cols == b.cols == x.cols && half < 2 && i < x.rows && k < a.rows
    ensures At(Mul(x, Transpose(Interleave(a, b))), i, 2 * k + half) == At(Mul(x, Transpose(if half == 0 then a else b)), i, k)
  {
    var w, p := Interleave(a, b), if half == 0 then a else b;
    forall j | 0 <= j < x.cols ensures At(w, 2 * k + half, j) == At(p, k, j) { InterleaveAt(a, b, k, j); }
    ProjectedEntry(x, w, p, i, 2 * k + half, k);
  }

  lemma ProjectedEntry(x: Matrix, w: Matrix, p: Matrix, i: nat, n: nat, k: nat)
    requires w.cols == p.cols == x.cols && i < x.rows && n < w.rows && k < p.rows
    requires forall j | 0 <= j < x.cols :: At(w, n, j) == At(p, k, j)
    ensures At(Mul(x, Transpose(w)), i, n) == At(Mul(x, Transpose(p)), i, k)
  {
    var wt, pt := Transpose(w), Transpose(p);
    forall j | 0 <= j < x.cols ensures At(wt, j, n) == At(pt, j, k) {
      assert At(wt, j, n) == At(w, n, j) && At(pt, j, k) == At(p, k, j);
    }
    SumExt(x.cols, Term(x, wt, i, n), Term(x, pt, i, k));
  }

  lemma {:induction false} OffsetDouble(r: nat, size: nat)
    ensures Offset(r, 2 * size) == 2 * Offset(r, size)
  {
    if r > 0 { OffsetDouble(r - 1, size); }
  }

  lemma {:induction false} SplitsDouble(n: nat, parts: nat)
    requires parts > 0 && Splits(n, parts)
    ensures Splits(2 * n, parts) && Share(2 * n, parts) == 2 * Share(n, parts)
  {
    if n > 0 {
      SplitsDouble(n - parts, parts);
      assert 2 * n - parts == 2 * (n - parts) + parts;
    }
  }

  lemma InterleaveOfRows(a: Matrix, b: Matrix, from: nat, n: nat)
    requires a.rows == b.rows && a.cols == b.cols && from + n <= a.rows
    ensures Rows(Interleave(a, b), 2 * from, 2 * n) == Interleave(Rows(a, from, n), Rows(b, from, n))
  {
    hide Build;
    var whole := Interleave(a, b);
    var l, x, y := Rows(whole, 2 * from, 2 * n), Rows(a, from, n), Rows(b, from, n);
    forall i, j | 0 <= i < 2 * n && 0 <= j < a.cols ensures At(l, i, j) == At(Interleave(x, y), i, j) {
      var k := i / 2;
      InterleaveAt(a, b, from + k, j);
      assert 2 * from + 2 * k == 2 * (from + k) && 2 * from + (2 * k + 1) == 2 * (from + k) + 1;
      InterleavedEntry(x, y, l, i, j);
    }
    MatrixEq(l, Interleave(x, y));
  }

  /** Sharding the interleaved weight gives each rank matching slices of both projections. */
  lemma ShardOfInterleave(a: Matrix, b: Matrix, parts: nat, r: nat)
    requires a.rows == b.rows && a.cols == b.cols && r < parts && Splits(a.rows, parts)
    ensures Splits(2 * a.rows, parts)
    ensures RowShard(Interleave(a, b), parts, r) == Interleave(RowShard(a, parts, r), RowShard(b, parts, r))
  {
    SplitsDouble(a.rows, parts);
    OffsetDouble(r, Share(a.rows, parts));
    ShareBound(r, a.rows, parts);
    InterleaveOfRows(a, b, Offset(r, Share(a.rows, parts)), Share(a.rows, parts));
  }

  // ---------- the activation ----------

  /** silu(gate) * up, for any activation function in the place of silu. */
  function SiluAndMul(silu: real -> real, gate: Matrix, up: Matrix): (m: Matrix)
    requires gate.rows == up.rows && gate.cols == up.cols
    ensures m.rows == gate.rows && m.cols == gate.cols
    ensures forall i, j | 0 <= i < m.rows && 0 <= j < m.cols :: At(m, i, j) == silu(At(gate, i, j)) * At(up, i, j)
  {
    Build(gate.rows, gate.cols, (i, j) => silu(At(gate, i, j)) * At(up, i, j))
  }

  lemma SiluOfCols(silu: real -> real, gate: Matrix, up: Matrix, from: nat, n: nat)
    requires gate.rows == up.rows && gate.cols == up.cols && from + n <= gate.cols
    ensures SiluAndMul(silu, Cols(gate, from, n), Cols(up, from, n)) == Cols(SiluAndMul(silu, gate, up), from, n)
  {
    MatrixEq(SiluAndMul(silu, Cols(gate, from, n), Cols(up, from, n)), Cols(SiluAndMul(silu, gate, up), from, n));
  }

  lemma SiluOfColShards(silu: real -> real, gate: Matrix, up: Matrix, parts: nat, r: nat)
    requires gate.rows == up.rows && gate.cols == up.cols && r < parts && Splits(gate.cols, parts)
    ensures SiluAndMul(silu, ColShard(gate, parts, r), ColShard(up, parts, r)) == ColShard(SiluAndMul(silu, gate, up), parts, r)
  {
    ShareBound(r, gate.cols, parts);
    SiluOfCols(silu, gate, up, Offset(r, Share(gate.cols, parts)), Share(gate.cols, parts));
  }

  // ---------- the layer ----------

  /** The stock feed-forward: w2(silu(w1 x) * (w3 x)), with an optional w2 bias. */
  function FeedForward(silu: real -> real, x: Matrix, w1: Matrix, w3: Matrix, w2: Matrix, bias: Option<Matrix>): (y: Matrix)
    requires w1.rows == w3.rows && w1.cols == w3.cols == x.cols && w2.cols == w1.rows
    requires bias.Some? ==> bias.value.rows == 1 && bias.value.cols == w2.rows
    ensures y.rows == x.rows && y.cols == w2.rows
  {
    Linear(SiluAndMul(silu, Linear(x, w1, None), Linear(x, w3, None)), w2, bias)
  }

  /** FusedSwiGLU.forward on one device. */
  function FusedForward(silu: real -> real, x: Matrix, w13: Matrix, w2: Matrix, bias: Option<Matrix>): Matrix
    requires w13.rows % 2 == 0 && w13.cols == x.cols && w2.cols == w13.rows / 2
    requires bias.Some? ==> bias.value.rows == 1 && bias.value.cols == w2.rows
  {
    var h := Linear(x, w13, None);
    Linear(SiluAndMul(silu, HalfCols(h, 0), HalfCols(h, 1)), w2, bias)
  }

  /** One GEMM on the interleaved weight computes the stock layer. */
  lemma FusedIsFeedForward(silu: real -> real, x: Matrix, w1: Matrix, w3: Matrix, w2: Matrix, bias: Option<Matrix>)
    requires w1.rows == w3.rows && w1.cols == w3.cols == x.cols && w2.cols == w1.rows
    requires bias.Some? ==> bias.value.rows == 1 && bias.value.cols == w2.rows
    ensures FusedForward(silu, x, Interleave(w1, w3), w2, bias) == FeedForward(silu, x, w1, w3, w2, bias)
  {
    HalvesOfProduct(x, w1, w3, 0);
    HalvesOfProduct(x, w1, w3, 1);
  }

  /** What each rank feeds to the down projection. */
  function ActivationsOnRanks(silu: real -> real, hs: seq<Matrix>): seq<Matrix>
    requires Blocks(hs) && hs[0].cols % 2 == 0
  {
    seq(|hs|, r requires 0 <= r < |hs| => SiluAndMul(silu, HalfCols(hs[r], 0), HalfCols(hs[r], 1)))
  }

  /** Rank r's activation is column shard r of the whole activation. */
  lemma ActivationShard(silu: real -> real, x: Matrix, w1: Matrix, w3: Matrix, parts: nat, r: nat)
    requires w1.rows == w3.rows && w1.cols == w3.cols == x.cols && r < parts && Splits(w1.rows, parts)
    ensures Splits(2 * w1.rows, parts) && Share(2 * w1.rows, parts) % 2 == 0
    ensures var h := ColShard(Linear(x, Interleave(w1, w3), None), parts, r);
            SiluAndMul(silu, HalfCols(h, 0), HalfCols(h, 1)) ==
            ColShard(SiluAndMul(silu, Linear(x, w1, None), Linear(x, w3, None)), parts, r)
  {
    SplitsDouble(w1.rows, parts);
    OutputShard(x, Interleave(w1, w3), None, parts, r);
    ShardOfInterleave(w1, w3, parts, r);
    var a, b := RowShard(w1, parts, r), RowShard(w3, parts, r);
    HalvesOfProduct(x, a, b, 0);
    HalvesOfProduct(x, a, b, 1);
    OutputShard(x, w1, None, parts, r);
    OutputShard(x, w3, None, parts, r);
    SiluOfColShards(silu, Linear(x, w1, None), Linear(x, w3, None), parts, r);
  }

  lemma ActivationShards(silu: real -> real, x: Matrix, w1: Matrix, w3: Matrix, parts: nat)
    requires w1.rows == w3.rows && w1.cols == w3.cols == x.cols && parts > 0 && Splits(w1.rows, parts)
    ensures Splits(2 * w1.rows, parts) && Share(2 * w1.rows, parts) % 2 == 0
    ensures ActivationsOnRanks(silu, ColShards(Linear(x, Interleave(w1, w3), None), parts)) ==
            ColShards(SiluAndMul(silu, Linear(x, w1, None), Linear(x, w3, None)), parts)
  {
    hide Build, At;
    SplitsDouble(w1.rows, parts);
    var hs := ColShards(Linear(x, Interleave(w1, w3), None), parts);
    var act := SiluAndMul(silu, Linear(x, w1, None), Linear(x, w3, None));
    var locals := ActivationsOnRanks(silu, hs);
    forall r | 0 <= r < parts ensures locals[r] == ColShard(act, parts, r) {
      ActivationShard(silu, x, w1, w3, parts, r);
    }
    assert locals == ColShards(act, parts);
  }

  /** DistGEMMFusedSwiGLU on all ranks of the TP group. */
  class DistGEMMFusedSwiGLU {
    const w13: seq<Matrix>
    const w2: seq<Matrix>
    const bias: Option<Matrix>
    ghost const w1Full: Matrix
    ghost const w3Full: Matrix
    ghost const w2Full: Matrix

    ghost predicate Valid() {
      var parts := |w13|;
      && parts > 0 && |w2| == parts
      && w1Full.rows == w3Full.rows && w1Full.cols == w3Full.cols && w2Full.cols == w1Full.rows
      && Splits(w1Full.rows, parts) && Splits(2 * w1Full.rows, parts)
      && w13 == RowShards(Interleave(w1Full, w3Full), parts) && w2 == ColShards(w2Full, parts)
      && (bias.Some? ==> bias.value.rows == 1 && bias.value.cols == w2Full.rows)
    }

    constructor (w13: seq<Matrix>, w2: seq<Matrix>, bias: Option<Matrix>,
                 ghost w1Full: Matrix, ghost w3Full: Matrix, ghost w2Full: Matrix)
      ensures this.w13 == w13 && this.w2 == w2 && this.bias == bias
      ensures this.w1Full == w1Full && this.w3Full == w3Full && this.w2Full == w2Full
    {
      this.w13, this.w2, this.bias := w13, w2, bias;
      this.w1Full, this.w3Full, this.w2Full := w1Full, w3Full, w2Full;
    }

    /** Every rank ends with its row shard of the one-device result; the w2 bias is added once. It fails only where the
        up projection finds no chunk of the input to save. */
    method Forward(silu: real -> real, xs: seq<Matrix>, ghost x: Matrix) returns (ys: Option<seq<Matrix>>)
      requires Valid() && |xs| == |w13| && x.cols == w1Full.cols && Splits(x.rows, |xs|)
      requires xs == RowShards(x, |xs|)
      ensures ys.Some? <==> EveryRankHasChunk(x.cols, |xs|)
      ensures ys.Some? ==> ys.value == RowShards(FeedForward(silu, x, w1Full, w3Full, w2Full, bias), |xs|)
      ensures Splits(x.cols, |xs|) ==> ys.Some?
    {
      var up := new AllGatherLinear();
      var hs := up.Forward(xs, w13, None, x, Interleave(w1Full, w3Full), None);
      if hs.None? {
        return None;
      }
      ActivationShards(silu, x, w1Full, w3Full, |xs|);
      ghost var act := SiluAndMul(silu, Linear(x, w1Full, None), Linear(x, w3Full, None));
      var down := new LinearReduceScatter();
      var out := down.Forward(ActivationsOnRanks(silu, hs.value), w2, bias, act, w2Full);
      ys := Some(out);
    }
  }

  // ---------- checkpoint layout hooks ----------

  /** A state-dict value: a 2D weight, or the former native (hidden, 2, dim) weight as its two planes. */
  datatype Entry = Weight(weight: Matrix) | Native(gate: Matrix, up: Matrix)

  predicate WellFormed(e: Entry) {
    e.Native? ==> e.gate.rows == e.up.rows && e.gate.cols == e.up.cols
  }

  type StateDict = map<string, Entry>

  function W1(prefix: string): string { prefix + "w1.weight" }
  function W3(prefix: string): string { prefix + "w3.weight" }
  function W13(prefix: string): string { prefix + "w13.weight" }
  function NativeKey(prefix: string): string { prefix + "w13" }

  lemma KeysDistinct(prefix: string)
    ensures W1(prefix) != W3(prefix) && W1(prefix) != W13(prefix) && W3(prefix) != W13(prefix)
    ensures NativeKey(prefix) != W1(prefix) && NativeKey(prefix) != W3(prefix) && NativeKey(prefix) != W13(prefix)
  {
    var n := |prefix|;
    assert W1(prefix)[n..] == "w1.weight" && W3(prefix)[n..] == "w3.weight";
    assert W13(prefix)[n..] == "w13.weight" && NativeKey(prefix)[n..] == "w13";
    assert "w1.weight"[1] != "w3.weight"[1] && |"w13.weight"| == 10 && |"w1.weight"| == 9;
  }

  predicate Savable(d: StateDict, prefix: string) {
    W13(prefix) in d && d[W13(prefix)].Weight? && d[W13(prefix)].weight.rows % 2 == 0
  }

  /** The stock layout written by a save. */
  function SplitOnSave(d: StateDict, prefix: string): StateDict
    requires Savable(d, prefix)
  {
    var w13 := d[W13(prefix)].weight;
    (d - {W13(prefix)})[W1(prefix) := Weight(HalfRows(w13, 0))][W3(prefix) := Weight(HalfRows(w13, 1))]
  }

  predicate Stackable(d: StateDict, prefix: string) {
    var k1, k3 := W1(prefix), W3(prefix);
    k1 in d && k3 in d ==>
      d[k1].Weight? && d[k3].Weight? && d[k1].weight.rows == d[k3].weight.rows && d[k1].weight.cols == d[k3].weight.cols
  }

  predicate Loadable(d: StateDict, prefix: string) {
    && Stackable(d, prefix)
    && (NativeKey(prefix) in d ==> d[NativeKey(prefix)].Native? && WellFormed(d[NativeKey(prefix)]))
  }

  function MergeStock(d: StateDict, prefix: string): StateDict
    requires Stackable(d, prefix)
  {
    var k1, k3 := W1(prefix), W3(prefix);
    if k1 in d && k3 in d then (d - {k1, k3})[W13(prefix) := Weight(Interleave(d[k1].weight, d[k3].weight))] else d
  }

  function MergeNative(d: StateDict, prefix: string): StateDict
    requires NativeKey(prefix) in d ==> d[NativeKey(prefix)].Native? && WellFormed(d[NativeKey(prefix)])
  {
    var k := NativeKey(prefix);
    if k in d then (d - {k})[W13(prefix) := Weight(Interleave(d[k].gate, d[k].up))] else d
  }

  lemma NativeSurvivesMerge(d: StateDict, prefix: string)
    requires Loadable(d, prefix)
    ensures NativeKey(prefix) in MergeStock(d, prefix) <==> NativeKey(prefix) in d
    ensures NativeKey(prefix) in d ==> MergeStock(d, prefix)[NativeKey(prefix)] == d[NativeKey(prefix)]
  {
    KeysDistinct(prefix);
  }

  /** What a load hands to the default loader. */
  function MergeOnLoad(d: StateDict, prefix: string): StateDict
    requires Loadable(d, prefix)
  {
    NativeSurvivesMerge(d, prefix);
    MergeNative(MergeStock(d, prefix), prefix)
  }

  /** What a load leaves in the fused weight, read as projections: the native planes if there are any, else the stock
      weights, the gate in the even rows and the up projection in the odd ones; the keys it came from are gone and all
      others are as they were. */
  lemma LoadedProjections(d: StateDict, prefix: string)
    requires Loadable(d, prefix)
    ensures var e := MergeOnLoad(d, prefix); var k, k1, k3 := NativeKey(prefix), W1(prefix), W3(prefix);
      && (k in d || (k1 in d && k3 in d) ==> Savable(e, prefix))
      && (k in d ==> HalfRows(e[W13(prefix)].weight, 0) == d[k].gate && HalfRows(e[W13(prefix)].weight, 1) == d[k].up)
      && (k !in d && k1 in d && k3 in d ==>
            HalfRows(e[W13(prefix)].weight, 0) == d[k1].weight && HalfRows(e[W13(prefix)].weight, 1) == d[k3].weight)
      && k !in e && (k1 in d && k3 in d ==> k1 !in e && k3 !in e)
      && forall key | key !in {k, k1, k3, W13(prefix)} :: (key in e <==> key in d) && (key in d ==> e[key] == d[key])
  {
    hide Build, At, Interleave, HalfRows;
    KeysDistinct(prefix);
    var k, k1, k3 := NativeKey(prefix), W1(prefix), W3(prefix);
    if k in d { HalvesOfInterleave(d[k].gate, d[k].up); }
    if k1 in d && k3 in d { HalvesOfInterleave(d[k1].weight, d[k3].weight); }
  }

  /** The module's state dict, edited in place by the two hooks. */
  class CheckpointHooks {
    var dict: StateDict

    constructor (d: StateDict)
      ensures dict == d
    {
      dict := d;
    }

    method SplitW13OnSave(prefix: string)
      requires Savable(dict, prefix)
      modifies this
      ensures dict == SplitOnSave(old(dict), prefix)
    {
      var w13 := dict[W13(prefix)].weight;
      dict := dict - {W13(prefix)};
      dict := dict[W1(prefix) := Weight(HalfRows(w13, 0))];
      dict := dict[W3(prefix) := Weight(HalfRows(w13, 1))];
    }

    method MergeW13OnLoad(prefix: string)
      requires Loadable(dict, prefix)
      modifies this
      ensures dict == MergeOnLoad(old(dict), prefix)
    {
      NativeSurvivesMerge(dict, prefix);
      var k1, k3, native := W1(prefix), W3(prefix), NativeKey(prefix);
      if k1 in dict && k3 in dict {
        var gate, up := dict[k1].weight, dict[k3].weight;
        dict := dict - {k1, k3};
        dict := dict[W13(prefix) := Weight(Interleave(gate, up))];
      }
      if native in dict {
        var planes := dict[native];
        dict := dict - {native};
        dict := dict[W13(prefix) := Weight(Interleave(planes.gate, planes.up))];
      }
    }
  }

  /** Saving in the stock layout and loading it again restores the fused state dict. */
  lemma LoadAfterSave(d: StateDict, prefix: string)
    requires Savable(d, prefix)
    requires W1(prefix) !in d && W3(prefix) !in d && NativeKey(prefix) !in d
    ensures Loadable(SplitOnSave(d, prefix), prefix)
    ensures MergeOnLoad(SplitOnSave(d, prefix), prefix) == d
  {
    hide Build, At, Interleave, HalfRows;
    KeysDistinct(prefix);
    InterleaveOfHalves(d[W13(prefix)].weight);
  }

  /** A stock checkpoint survives being loaded into, and saved from, the fused module. */
  lemma SaveAfterLoad(d: StateDict, prefix: string)
    requires Loadable(d, prefix) && W1(prefix) in d && W3(prefix) in d
    requires W13(prefix) !in d && NativeKey(prefix) !in d
    ensures Savable(MergeOnLoad(d, prefix), prefix)
    ensures SplitOnSave(MergeOnLoad(d, prefix), prefix) == d
  {
    KeysDistinct(prefix);
    HalvesOfInterleave(d[W1(prefix)].weight, d[W3(prefix)].weight);
  }
}
