/** Tensor-parallel linears that fold the collective into the GEMM
    (torchtitan/distributed/linear.py). One object stands for one autograd node on
    all ranks of the TP group: sequences are indexed by rank, and the fields are
    the ctx that forward writes and backward reads. */
module DistLinear {
  import opened Sums
  import opened Matrices
  import opened VocabShards
  import opened Wrappers

  // ---------- the single-device reference ----------

  predicate LinearShapes(x: Matrix, w: Matrix, bias: Option<Matrix>) {
    x.cols == w.cols && (bias.Some? ==> bias.value.rows == 1 && bias.value.cols == w.rows)
  }

  /** y = x w^T + bias */
  function Linear(x: Matrix, w: Matrix, bias: Option<Matrix>): (y: Matrix)
    requires LinearShapes(x, w, bias)
    ensures y.rows == x.rows && y.cols == w.rows
  {
    match bias
    case None => Mul(x, Transpose(w))
    case Some(b) => AddRow(Mul(x, Transpose(w)), b)
  }

  function GradInput(w: Matrix, dy: Matrix): Matrix
    requires dy.cols == w.rows
  {
    Mul(dy, w)
  }

  function GradWeight(x: Matrix, dy: Matrix): Matrix
    requires dy.rows == x.rows
  {
    Mul(Transpose(dy), x)
  }

  /** The two gradients are the adjoints of the linear map in each of its arguments. */
  lemma GradientsAreAdjoint(x: Matrix, w: Matrix, dy: Matrix)
    requires x.cols == w.cols && dy.rows == x.rows && dy.cols == w.rows
    ensures Inner(Linear(x, w, None), dy) == Inner(x, GradInput(w, dy))
    ensures Inner(Linear(x, w, None), dy) == Inner(w, GradWeight(x, dy))
  {
    MulAdjointLeft(x, Transpose(w), dy);
    TransposeTwice(w);
    MulAdjointRight(x, Transpose(w), dy);
    InnerTranspose(w, GradWeight(x, dy));
    TransposeMul(Transpose(dy), x);
    TransposeTwice(dy);
  }

  /** The bias gradient is the adjoint of broadcasting the bias over the rows. */
  lemma BiasGradientIsAdjoint(b: Matrix, dy: Matrix)
    requires b.rows == 1 && b.cols == dy.cols
    ensures Inner(AddRow(Zero(dy.rows, dy.cols), b), dy) == Inner(b, ColumnSum(dy))
  {
    hide Build, Sum;
    var wide, sums := AddRow(Zero(dy.rows, dy.cols), b), ColumnSum(dy);
    var f := (i: int, j: int) => At(b, 0, j) * At(dy, i, j);
    InnerAsDoubleSum(wide, dy, f);
    Fubini(dy.rows, dy.cols, f);
    BiasColumns(b, dy, f);
    SumExt(dy.cols, RowSum(dy.rows, Flip(f)), Products(b, sums, 0));
    SumSingle(1, 0, i => RowDot(b, sums, i));
  }

  lemma BiasColumns(b: Matrix, dy: Matrix, f: (int, int) -> real)
    requires b.rows == 1 && b.cols == dy.cols
    requires forall i, j :: f(i, j) == At(b, 0, j) * At(dy, i, j)
    ensures forall j | 0 <= j < dy.cols :: RowSum(dy.rows, Flip(f))(j) == Products(b, ColumnSum(dy), 0)(j)
  {
    var g := Flip(f);
    forall j | 0 <= j < dy.cols ensures RowSum(dy.rows, g)(j) == Products(b, ColumnSum(dy), 0)(j) {
      ScaledColumn(dy, j, At(b, 0, j), i => g(j, i));
    }
  }

  lemma ScaledColumn(a: Matrix, j: nat, x: real, f: int -> real)
    requires j < a.cols && forall i | 0 <= i < a.rows :: f(i) == x * At(a, i, j)
    ensures Sum(a.rows, f) == x * At(ColumnSum(a), 0, j)
  {
    var h := i => At(a, i, j);
    SumScale(a.rows, x, h);
    SumExt(a.rows, f, i => x * h(i));
    SumExt(a.rows, h, k => At(a, k, j));
  }

  // ---------- inner products summed over ranks ----------

  function RankInner(a: seq<Matrix>, b: seq<Matrix>): real
    requires |a| == |b|
  {
    Sum(|a|, r => if 0 <= r < |a| then Inner(a[r], b[r]) else 0.0)
  }

  lemma RankInnerOfRows(a: Matrix, b: Matrix, parts: nat)
    requires a.rows == b.rows && a.cols == b.cols && parts > 0 && Splits(a.rows, parts)
    ensures RankInner(RowShards(a, parts), RowShards(b, parts)) == Inner(a, b)
  {
    var size, f := Share(a.rows, parts), (i: int) => RowDot(a, b, i);
    var x, y := RowShards(a, parts), RowShards(b, parts);
    var g := r => if 0 <= r < |x| then Inner(x[r], y[r]) else 0.0;
    forall r | 0 <= r < parts ensures g(r) == SumFrom(Offset(r, size), size, f) {
      ShareBound(r, a.rows, parts);
      InnerOfBlock(a, b, Offset(r, size), size, f);
    }
    SumBlocks(parts, size, f, g);
    SharesCover(a.rows, parts);
  }

  lemma InnerOfBlock(a: Matrix, b: Matrix, from: nat, n: nat, f: int -> real)
    requires a.rows == b.rows && a.cols == b.cols && from + n <= a.rows
    requires forall i :: f(i) == RowDot(a, b, i)
    ensures Inner(Rows(a, from, n), Rows(b, from, n)) == SumFrom(from, n, f)
  {
    var x, y := Rows(a, from, n), Rows(b, from, n);
    forall i | 0 <= i < n ensures RowDot(x, y, i) == RowDot(a, b, from + i) {
      SumExt(a.cols, Products(x, y, i), Products(a, b, from + i));
    }
    SumFromExt(from, n, f, i => RowDot(x, y, i));
  }

  lemma RankInnerOfCols(a: Matrix, b: Matrix, parts: nat)
    requires a.rows == b.rows && a.cols == b.cols && parts > 0 && Splits(a.cols, parts)
    ensures RankInner(ColShards(a, parts), ColShards(b, parts)) == Inner(a, b)
  {
    hide Build, At;
    var ta, tb := Transpose(a), Transpose(b);
    RankInnerOfRows(ta, tb, parts);
    InnerTranspose(a, b);
    var x, y, u, v := ColShards(a, parts), ColShards(b, parts), RowShards(ta, parts), RowShards(tb, parts);
    forall r | 0 <= r < parts ensures Inner(x[r], y[r]) == Inner(u[r], v[r]) {
      TransposeColShard(a, parts, r);
      TransposeColShard(b, parts, r);
      InnerTranspose(x[r], y[r]);
    }
    SumExt(parts, r => if 0 <= r < |x| then Inner(x[r], y[r]) else 0.0, r => if 0 <= r < |u| then Inner(u[r], v[r]) else 0.0);
  }

  // ---------- the fused collectives ----------

  /** Rank r's result of fused_all_gather_matmul on dim 0: the gathered A and its product with r's B. */
  function AllGatherMatmul(a: seq<Matrix>, b: Matrix): (Matrix, Matrix)
    requires Blocks(a) && a[0].cols == b.rows
  {
    (StackRows(a), Mul(StackRows(a), b))
  }

  predicate Multipliable(a: seq<Matrix>, b: seq<Matrix>) {
    Blocks(a) && Blocks(b) && |a| == |b| && a[0].cols == b[0].rows
  }

  function LocalProducts(a: seq<Matrix>, b: seq<Matrix>): (s: seq<Matrix>)
    requires Multipliable(a, b)
    ensures |s| == |a| && Blocks(s) && s[0].rows == a[0].rows && s[0].cols == b[0].cols
    ensures forall q | 0 <= q < |a| :: s[q] == Mul(a[q], b[q])
  {
    seq(|a|, q requires 0 <= q < |a| => Mul(a[q], b[q]))
  }

  /** fused_matmul_reduce_scatter with "sum" on dim 0: every rank multiplies, rank r keeps row block r of the sum. */
  function MatmulReduceScatter(a: seq<Matrix>, b: seq<Matrix>): seq<Matrix>
    requires Multipliable(a, b) && Splits(a[0].rows, |a|)
  {
    RowShards(SumBlocksOf(LocalProducts(a, b)), |a|)
  }

  lemma ReduceScatterOfShards(a: Matrix, b: Matrix, parts: nat)
    requires parts > 0 && a.cols == b.rows && Splits(a.cols, parts) && Splits(a.rows, parts)
    ensures Multipliable(ColShards(a, parts), RowShards(b, parts))
    ensures MatmulReduceScatter(ColShards(a, parts), RowShards(b, parts)) == RowShards(Mul(a, b), parts)
  {
    PartialProductsSum(a, b, parts);
    assert LocalProducts(ColShards(a, parts), RowShards(b, parts)) == PartialProducts(a, b, parts);
  }

  /** dist.all_reduce(SUM), in place on every rank's buffer. */
  method AllReduce(buffers: array<Matrix>)
    requires Blocks(buffers[..])
    modifies buffers
    ensures forall r | 0 <= r < buffers.Length :: buffers[r] == SumBlocksOf(old(buffers[..]))
  {
    var total := SumBlocksOf(buffers[..]);
    for r := 0 to buffers.Length
      invariant forall q | 0 <= q < r :: buffers[q] == total
    {
      buffers[r] := total;
    }
  }

  function Transposes(a: seq<Matrix>): (s: seq<Matrix>)
    ensures |s| == |a| && forall r | 0 <= r < |a| :: s[r] == Transpose(a[r])
    ensures Blocks(a) ==> Blocks(s)
  {
    seq(|a|, r requires 0 <= r < |a| => Transpose(a[r]))
  }

  lemma TransposesOfColShards(a: Matrix, parts: nat)
    requires parts > 0 && Splits(a.cols, parts)
    ensures Transposes(ColShards(a, parts)) == RowShards(Transpose(a), parts)
  {
    forall r | 0 <= r < parts ensures Transpose(ColShard(a, parts, r)) == RowShard(Transpose(a), parts, r) {
      TransposeColShard(a, parts, r);
    }
  }

  /** Gathering the transposed K-shards rebuilds x^T, although no rank kept all of x. */
  lemma GatherOfKShards(x: Matrix, parts: nat)
    requires parts > 0 && Splits(x.cols, parts)
    ensures Blocks(Transposes(ColShards(x, parts)))
    ensures StackRows(Transposes(ColShards(x, parts))) == Transpose(x)
  {
    TransposesOfColShards(x, parts);
    StackOfShards(Transpose(x), parts);
  }

  /** The wgrad of one rank: (x^T dy_r)^T is the rank's row shard of dy^T x. */
  lemma WeightGradShard(x: Matrix, dy: Matrix, parts: nat, r: nat)
    requires r < parts && dy.rows == x.rows && Splits(dy.cols, parts)
    ensures Transpose(Mul(Transpose(x), ColShard(dy, parts, r))) == RowShard(GradWeight(x, dy), parts, r)
  {
    TransposeMul(Transpose(x), ColShard(dy, parts, r));
    TransposeTwice(x);
    TransposeColShard(dy, parts, r);
    RowShardOfMul(Transpose(dy), x, parts, r);
  }

  function ColumnSums(a: seq<Matrix>): (s: seq<Matrix>)
    requires Blocks(a)
    ensures |s| == |a| && Blocks(s) && forall r | 0 <= r < |a| :: s[r] == ColumnSum(a[r])
  {
    seq(|a|, r requires 0 <= r < |a| => ColumnSum(a[r]))
  }

  lemma ColumnSumOfCols(a: Matrix, from: nat, n: nat)
    requires from + n <= a.cols
    ensures ColumnSum(Cols(a, from, n)) == Cols(ColumnSum(a), from, n)
  {
    var c := Cols(a, from, n);
    var x, y := ColumnSum(c), Cols(ColumnSum(a), from, n);
    forall j | 0 <= j < n ensures At(x, 0, j) == At(y, 0, j) {
      SumExt(a.rows, i => At(c, i, j), i => At(a, i, from + j));
    }
    MatrixEq(x, y);
  }

  /** Each rank holds every row of dy, so its column sums are already complete. */
  lemma ColumnSumOfColShards(a: Matrix, parts: nat)
    requires parts > 0 && Splits(a.cols, parts)
    ensures ColumnSums(ColShards(a, parts)) == ColShards(ColumnSum(a), parts)
  {
    forall r | 0 <= r < parts ensures ColumnSum(ColShard(a, parts, r)) == ColShard(ColumnSum(a), parts, r) {
      ShareBound(r, a.cols, parts);
      ColumnSumOfCols(a, Offset(r, Share(a.cols, parts)), Share(a.cols, parts));
    }
  }

  lemma AddRowOfCols(y: Matrix, b: Matrix, from: nat, n: nat)
    requires b.rows == 1 && b.cols == y.cols && from + n <= y.cols
    ensures AddRow(Cols(y, from, n), Cols(b, from, n)) == Cols(AddRow(y, b), from, n)
  {
    MatrixEq(AddRow(Cols(y, from, n), Cols(b, from, n)), Cols(AddRow(y, b), from, n));
  }

  /** Rank r's column-parallel output is column shard r of the whole output, bias included. */
  lemma OutputShard(x: Matrix, w: Matrix, bias: Option<Matrix>, parts: nat, r: nat)
    requires LinearShapes(x, w, bias) && r < parts && Splits(w.rows, parts)
    ensures Linear(x, RowShard(w, parts, r), LocalBias(bias, parts, r)) == ColShard(Linear(x, w, bias), parts, r)
  {
    TransposeShard(w, parts, r);
    ColShardOfMul(x, Transpose(w), parts, r);
    if bias.Some? {
      ShareBound(r, w.rows, parts);
      AddRowOfCols(Mul(x, Transpose(w)), bias.value, Offset(r, Share(w.rows, parts)), Share(w.rows, parts));
    }
  }

  function LocalBias(bias: Option<Matrix>, parts: nat, r: nat): (b: Option<Matrix>)
    requires r < parts && (bias.Some? ==> bias.value.rows == 1 && Splits(bias.value.cols, parts))
    ensures b.Some? <==> bias.Some?
  {
    if bias.Some? then Some(ColShard(bias.value, parts, r)) else None
  }

  // ---------- AllGatherLinear ----------

  predicate ForwardShapes(xs: seq<Matrix>, ws: seq<Matrix>, biases: Option<seq<Matrix>>) {
    && Blocks(xs) && Blocks(ws) && |xs| == |ws| && xs[0].cols == ws[0].cols
    && (biases.Some? ==> |biases.value| == |xs|)
    && (biases.Some? ==> forall r | 0 <= r < |xs| :: biases.value[r].rows == 1 && biases.value[r].cols == ws[r].rows)
  }

  /** What each rank's forward returns. */
  function ForwardOnRanks(xs: seq<Matrix>, ws: seq<Matrix>, biases: Option<seq<Matrix>>): seq<Matrix>
    requires ForwardShapes(xs, ws, biases)
  {
    seq(|xs|, r requires 0 <= r < |xs| =>
      var y := AllGatherMatmul(xs, Transpose(ws[r])).1;
      if biases.Some? then AddRow(y, biases.value[r]) else y)
  }

  /** torch.chunk along K drops empty chunks, so a rank may find none to save; only zero columns give all ranks one. */
  predicate EveryRankHasChunk(cols: nat, parts: nat)
    requires parts > 0
  {
    cols == 0 || forall r | 0 <= r < parts :: LocalSize(cols, parts, r) > 0
  }

  /** A chunk for every rank exactly when the chunks before the last do not already cover the columns. */
  lemma ChunksReachEveryRank(cols: nat, parts: nat)
    requires parts > 0
    ensures EveryRankHasChunk(cols, parts) <==> cols == 0 || (parts - 1) * ((cols + parts - 1) / parts) < cols
  {
    var chunk := ChunkSize(cols, parts);
    forall r: nat | r < parts ensures LocalSize(cols, parts, r) > 0 <==> r * chunk < cols {
      OffsetIsProduct(r, chunk);
      if cols > 0 { ChunkPositive(cols, parts); }
    }
    forall r: nat | r < parts ensures r * chunk <= (parts - 1) * chunk { LessTimes(r, parts - 1, chunk); }
    assert LocalSize(cols, parts, parts - 1) > 0 <==> (parts - 1) * chunk < cols;
  }

  lemma ChunkPositive(n: nat, parts: nat)
    requires n > 0 && parts > 0
    ensures ChunkSize(n, parts) > 0
  {
  }

  lemma LessTimes(a: nat, b: nat, c: nat)
    requires a <= b
    ensures a * c <= b * c
  {
    assert b * c - a * c == (b - a) * c;
  }

  /** What each rank saves: its chunk of the gathered input's columns, of the ceiling size but for the last. */
  function KShards(xs: seq<Matrix>): seq<Matrix>
    requires Blocks(xs) && EveryRankHasChunk(xs[0].cols, |xs|)
  {
    AllShards(StackRows(xs), |xs|)
  }

  lemma EvenChunkSize(n: nat, parts: nat)
    requires parts > 0 && Splits(n, parts)
    ensures ChunkSize(n, parts) == Share(n, parts)
  {
    SplitsIsDivisibility(n, parts);
    QuotientUnique(n + parts - 1, parts, n / parts, parts - 1);
  }

  /** When K divides evenly the chunks are the even shards. */
  lemma EvenChunks(x: Matrix, parts: nat)
    requires parts > 0 && Splits(x.cols, parts)
    ensures EveryRankHasChunk(x.cols, parts) && AllShards(x, parts) == ColShards(x, parts)
  {
    hide Build, At, Splits, Share, ChunkSize;
    EvenChunkSize(x.cols, parts);
    SomeShare(x.cols, parts);
    forall r | 0 <= r < parts
      ensures LocalSize(x.cols, parts, r) == Share(x.cols, parts) && VocabShard(x, parts, r) == ColShard(x, parts, r)
    {
      ShareBound(r, x.cols, parts);
    }
  }

  lemma SomeShare(n: nat, parts: nat)
    requires parts > 0 && Splits(n, parts)
    ensures n > 0 ==> Share(n, parts) > 0
  {
  }

  lemma ForwardShards(xs: seq<Matrix>, ws: seq<Matrix>, biases: Option<seq<Matrix>>, x: Matrix, w: Matrix, bias: Option<Matrix>)
    requires |xs| == |ws| > 0 && LinearShapes(x, w, bias)
    requires Splits(x.rows, |xs|) && Splits(w.rows, |xs|)
    requires xs == RowShards(x, |xs|) && ws == RowShards(w, |xs|)
    requires biases.Some? == bias.Some?
    requires biases.Some? ==> biases.value == ColShards(bias.value, |xs|)
    ensures ForwardShapes(xs, ws, biases) && xs[0].cols == x.cols && StackRows(xs) == x
    ensures ForwardOnRanks(xs, ws, biases) == ColShards(Linear(x, w, bias), |xs|)
  {
    hide Build, At;
    StackOfShards(x, |xs|);
    var ys := ForwardOnRanks(xs, ws, biases);
    forall r | 0 <= r < |xs| ensures ys[r] == ColShard(Linear(x, w, bias), |xs|, r) {
      OutputShard(x, w, bias, |xs|, r);
    }
  }

  /** Each rank's wgrad: gather the transposed K-shards, multiply by the local dy, transpose back. */
  function WeightGradsOnRanks(savedX: seq<Matrix>, dys: seq<Matrix>): seq<Matrix>
    requires Blocks(savedX) && Blocks(dys) && |savedX| == |dys| && savedX[0].rows == dys[0].rows
  {
    seq(|dys|, r requires 0 <= r < |dys| => WeightGradOnRank(savedX, dys, r))
  }

  function WeightGradOnRank(savedX: seq<Matrix>, dys: seq<Matrix>, r: nat): Matrix
    requires Blocks(savedX) && Blocks(dys) && |savedX| == |dys| && savedX[0].rows == dys[0].rows && r < |dys|
  {
    Transpose(AllGatherMatmul(Transposes(savedX), dys[r]).1)
  }

  lemma WeightGradShards(x: Matrix, dy: Matrix, parts: nat)
    requires parts > 0 && dy.rows == x.rows && Splits(dy.cols, parts) && Splits(x.cols, parts)
    ensures WeightGradsOnRanks(ColShards(x, parts), ColShards(dy, parts)) == RowShards(GradWeight(x, dy), parts)
  {
    hide Build, At;
    GatherOfKShards(x, parts);
    forall r | 0 <= r < parts
      ensures Transpose(Mul(Transpose(x), ColShard(dy, parts, r))) == RowShard(GradWeight(x, dy), parts, r)
    {
      WeightGradShard(x, dy, parts, r);
    }
  }

  class AllGatherLinear {
    var savedX: seq<Matrix>
    var savedW: seq<Matrix>
    var hasBias: bool
    ghost var x: Matrix  // the global input and weight the shards belong to
    ghost var w: Matrix

    ghost predicate Valid()
      reads this
    {
      var parts := |savedX|;
      && parts > 0 && x.cols == w.cols
      && Splits(x.rows, parts) && Splits(x.cols, parts) && Splits(w.rows, parts)
      && savedX == ColShards(x, parts) && savedW == RowShards(w, parts)
    }

    constructor () {
      savedX, savedW, hasBias := [], [], false;
    }

    /** Every rank's forward: gather the row shards, multiply by the local weight, keep one K-chunk of x. It fails only
        on ranks that find no chunk; with even chunks, backward can follow. */
    method Forward(xs: seq<Matrix>, ws: seq<Matrix>, biases: Option<seq<Matrix>>,
                   ghost gx: Matrix, ghost gw: Matrix, ghost bias: Option<Matrix>)
      returns (ys: Option<seq<Matrix>>)
      requires |xs| == |ws| > 0 && LinearShapes(gx, gw, bias)
      requires Splits(gx.rows, |xs|) && Splits(gw.rows, |xs|)
      requires xs == RowShards(gx, |xs|) && ws == RowShards(gw, |xs|)
      requires biases.Some? == bias.Some?
      requires biases.Some? ==> biases.value == ColShards(bias.value, |xs|)
      modifies this
      ensures ys.Some? <==> EveryRankHasChunk(gx.cols, |xs|)
      ensures ys.Some? ==> ys.value == ColShards(Linear(gx, gw, bias), |xs|)
      ensures ys.Some? ==> savedX == AllShards(gx, |xs|) && x == gx && w == gw && hasBias == bias.Some?
      ensures Splits(gx.cols, |xs|) ==> ys.Some? && Valid()
    {
      hide Build, At, LocalSize, VocabShard, Linear, ForwardOnRanks, RowShard, ColShard, Splits, Share;
      ForwardShards(xs, ws, biases, gx, gw, bias);
      if Splits(gx.cols, |xs|) {
        EvenChunks(gx, |xs|);
      }
      if !EveryRankHasChunk(xs[0].cols, |xs|) {
        return None;
      }
      ys := Some(ForwardOnRanks(xs, ws, biases));
      savedX := KShards(xs);
      savedW, hasBias := ws, biases.Some?;
      x, w := gx, gw;
    }

    /** Every rank's backward: gradients from the saved K-shards only. */
    method Backward(dys: seq<Matrix>, ghost dy: Matrix)
      returns (dxs: seq<Matrix>, dws: seq<Matrix>, dbs: Option<seq<Matrix>>)
      requires Valid() && |dys| == |savedX| && dy.rows == x.rows && dy.cols == w.rows
      requires dys == ColShards(dy, |savedX|)
      ensures dxs == RowShards(GradInput(w, dy), |savedX|)
      ensures dws == RowShards(GradWeight(x, dy), |savedX|)
      ensures dbs == if hasBias then Some(ColShards(ColumnSum(dy), |savedX|)) else None
    {
      ReduceScatterOfShards(dy, w, |savedX|);
      WeightGradShards(x, dy, |savedX|);
      dxs := MatmulReduceScatter(dys, savedW);
      dws := WeightGradsOnRanks(savedX, dys);
      if hasBias {
        ColumnSumOfColShards(dy, |savedX|);
        dbs := Some(ColumnSums(dys));
      } else {
        dbs := None;
      }
    }
  }

  // ---------- AllGatherLinearMulti ----------

  /** One product of the concatenations is the sum of the two products. */
  lemma CatProduct(ya: Matrix, yb: Matrix, wa: Matrix, wb: Matrix)
    requires ya.rows == yb.rows && wa.cols == wb.cols && ya.cols == wa.rows && yb.cols == wb.rows
    ensures Mul(CatCols(ya, yb), CatRows(wa, wb)) == Add(Mul(ya, wa), Mul(yb, wb))
  {
    var l, r := Mul(CatCols(ya, yb), CatRows(wa, wb)), Add(Mul(ya, wa), Mul(yb, wb));
    forall i, j | 0 <= i < l.rows && 0 <= j < l.cols ensures At(l, i, j) == At(r, i, j) {
      CatEntry(ya, yb, wa, wb, i, j);
    }
    MatrixEq(l, r);
  }

  lemma CatEntry(ya: Matrix, yb: Matrix, wa: Matrix, wb: Matrix, i: nat, j: nat)
    requires ya.rows == yb.rows && wa.cols == wb.cols && ya.cols == wa.rows && yb.cols == wb.rows
    requires i < ya.rows && j < wa.cols
    ensures At(Mul(CatCols(ya, yb), CatRows(wa, wb)), i, j) == At(Mul(ya, wa), i, j) + At(Mul(yb, wb), i, j)
  {
    hide Build, At, Sum;
    var f := Term(CatCols(ya, yb), CatRows(wa, wb), i, j);
    CatTermsLeft(ya, yb, wa, wb, i, j, f);
    CatTermsRight(ya, yb, wa, wb, i, j, f);
    SumSplit(ya.cols, yb.cols, f);
  }

  /** The k-th term of a concatenated product belongs to one of the two products. */
  lemma CatTerm(ya: Matrix, yb: Matrix, wa: Matrix, wb: Matrix, i: nat, j: nat, k: nat)
    requires ya.rows == yb.rows && wa.cols == wb.cols && ya.cols == wa.rows && yb.cols == wb.rows
    requires i < ya.rows && j < wa.cols
    ensures k < ya.cols ==> Term(CatCols(ya, yb), CatRows(wa, wb), i, j)(k) == Term(ya, wa, i, j)(k)
    ensures k < yb.cols ==> Term(CatCols(ya, yb), CatRows(wa, wb), i, j)(ya.cols + k) == Term(yb, wb, i, j)(k)
  {
    hide Build, At;
    var y, w := CatCols(ya, yb), CatRows(wa, wb);
    if k < ya.cols { assert At(y, i, k) == At(ya, i, k) && At(w, k, j) == At(wa, k, j); }
    if k < yb.cols { assert At(y, i, ya.cols + k) == At(yb, i, k) && At(w, ya.cols + k, j) == At(wb, k, j); }
  }

  lemma CatTermsLeft(ya: Matrix, yb: Matrix, wa: Matrix, wb: Matrix, i: nat, j: nat, f: int -> real)
    requires ya.rows == yb.rows && wa.cols == wb.cols && ya.cols == wa.rows && yb.cols == wb.rows
    requires i < ya.rows && j < wa.cols && f == Term(CatCols(ya, yb), CatRows(wa, wb), i, j)
    ensures Sum(ya.cols, f) == Sum(ya.cols, Term(ya, wa, i, j))
  {
    hide Build, At, Sum, Term, CatCols, CatRows;
    forall k | 0 <= k < ya.cols ensures f(k) == Term(ya, wa, i, j)(k) {
      CatTerm(ya, yb, wa, wb, i, j, k);
    }
    SumExt(ya.cols, f, Term(ya, wa, i, j));
  }

  lemma CatTermsRight(ya: Matrix, yb: Matrix, wa: Matrix, wb: Matrix, i: nat, j: nat, f: int -> real)
    requires ya.rows == yb.rows && wa.cols == wb.cols && ya.cols == wa.rows && yb.cols == wb.rows
    requires i < ya.rows && j < wa.cols && f == Term(CatCols(ya, yb), CatRows(wa, wb), i, j)
    ensures SumFrom(ya.cols, yb.cols, f) == Sum(yb.cols, Term(yb, wb, i, j))
  {
    hide Build, At, Sum, Term, CatCols, CatRows;
    forall k | 0 <= k < yb.cols ensures f(ya.cols + k) == Term(yb, wb, i, j)(k) {
      CatTerm(ya, yb, wa, wb, i, j, k);
    }
    SumFromExt(ya.cols, yb.cols, f, Term(yb, wb, i, j));
  }

  lemma SumOfSums(a: seq<Matrix>, b: seq<Matrix>, c: seq<Matrix>)
    requires Blocks(a) && Blocks(b) && Blocks(c) && |a| == |b| == |c|
    requires a[0].rows == b[0].rows && a[0].cols == b[0].cols
    requires forall q | 0 <= q < |a| :: c[q] == Add(a[q], b[q])
    ensures SumBlocksOf(c) == Add(SumBlocksOf(a), SumBlocksOf(b))
  {
    hide Build, At;
    var l, r := SumBlocksOf(c), Add(SumBlocksOf(a), SumBlocksOf(b));
    forall i, j | 0 <= i < l.rows && 0 <= j < l.cols ensures At(l, i, j) == At(r, i, j) {
      var f := q => if 0 <= q < |a| then At(a[q], i, j) else 0.0;
      var g := q => if 0 <= q < |b| then At(b[q], i, j) else 0.0;
      SumAdd(|a|, f, g);
      SumExt(|a|, q => if 0 <= q < |c| then At(c[q], i, j) else 0.0, q => f(q) + g(q));
    }
    MatrixEq(l, r);
  }

  function CatColsOnRanks(a: seq<Matrix>, b: seq<Matrix>): (s: seq<Matrix>)
    requires Blocks(a) && Blocks(b) && |a| == |b| && a[0].rows == b[0].rows
    ensures |s| == |a| && forall r | 0 <= r < |a| :: s[r] == CatCols(a[r], b[r])
    ensures Blocks(s) && s[0].rows == a[0].rows && s[0].cols == a[0].cols + b[0].cols
  {
    seq(|a|, r requires 0 <= r < |a| => CatCols(a[r], b[r]))
  }

  function CatRowsOnRanks(a: seq<Matrix>, b: seq<Matrix>): (s: seq<Matrix>)
    requires Blocks(a) && Blocks(b) && |a| == |b| && a[0].cols == b[0].cols
    ensures |s| == |a| && forall r | 0 <= r < |a| :: s[r] == CatRows(a[r], b[r])
    ensures Blocks(s) && s[0].rows == a[0].rows + b[0].rows && s[0].cols == a[0].cols
  {
    seq(|a|, r requires 0 <= r < |a| => CatRows(a[r], b[r]))
  }

  /** On each rank, the product of the concatenations is the sum of the two partial products. */
  lemma ConcatenatedProducts(dya: Matrix, dyb: Matrix, wa: Matrix, wb: Matrix, parts: nat, dys: seq<Matrix>, ws: seq<Matrix>)
    requires parts > 0 && dya.rows == dyb.rows && wa.cols == wb.cols && dya.cols == wa.rows && dyb.cols == wb.rows
    requires Splits(dya.cols, parts) && Splits(dyb.cols, parts)
    requires dys == CatColsOnRanks(ColShards(dya, parts), ColShards(dyb, parts))
    requires ws == CatRowsOnRanks(RowShards(wa, parts), RowShards(wb, parts))
    ensures Multipliable(dys, ws)
    ensures forall q | 0 <= q < parts ::
      LocalProducts(dys, ws)[q] == Add(PartialProducts(dya, wa, parts)[q], PartialProducts(dyb, wb, parts)[q])
  {
    forall q | 0 <= q < parts
      ensures Mul(dys[q], ws[q]) == Add(Mul(ColShard(dya, parts, q), RowShard(wa, parts, q)), Mul(ColShard(dyb, parts, q), RowShard(wb, parts, q)))
    {
      CatProduct(ColShard(dya, parts, q), ColShard(dyb, parts, q), RowShard(wa, parts, q), RowShard(wb, parts, q));
    }
  }

  /** Summed over ranks, the concatenated local products are dya wa + dyb wb. */
  lemma ConcatenatedGrad(dya: Matrix, dyb: Matrix, wa: Matrix, wb: Matrix, parts: nat, dys: seq<Matrix>, ws: seq<Matrix>)
    requires parts > 0 && dya.rows == dyb.rows && wa.cols == wb.cols && dya.cols == wa.rows && dyb.cols == wb.rows
    requires Splits(dya.rows, parts) && Splits(dya.cols, parts) && Splits(dyb.cols, parts)
    requires dys == CatColsOnRanks(ColShards(dya, parts), ColShards(dyb, parts))
    requires ws == CatRowsOnRanks(RowShards(wa, parts), RowShards(wb, parts))
    ensures Multipliable(dys, ws) && dys[0].rows == dya.rows
    ensures MatmulReduceScatter(dys, ws) == RowShards(Add(Mul(dya, wa), Mul(dyb, wb)), parts)
  {
    ConcatenatedProducts(dya, dyb, wa, wb, parts, dys, ws);
    SumOfSums(PartialProducts(dya, wa, parts), PartialProducts(dyb, wb, parts), LocalProducts(dys, ws));
    PartialProductsSum(dya, wa, parts);
    PartialProductsSum(dyb, wb, parts);
  }

  class AllGatherLinearMulti {
    var savedX: seq<Matrix>
    var savedA: seq<Matrix>
    var savedB: seq<Matrix>
    ghost var x: Matrix
    ghost var wa: Matrix
    ghost var wb: Matrix

    ghost predicate Valid()
      reads this
    {
      var parts := |savedX|;
      && parts > 0 && x.cols == wa.cols == wb.cols
      && Splits(x.rows, parts) && Splits(x.cols, parts) && Splits(wa.rows, parts) && Splits(wb.rows, parts)
      && savedX == ColShards(x, parts) && savedA == RowShards(wa, parts) && savedB == RowShards(wb, parts)
    }

    constructor () {
      savedX, savedA, savedB := [], [], [];
    }

    /** One gather feeds both column-parallel products. */
    method Forward(xs: seq<Matrix>, was: seq<Matrix>, wbs: seq<Matrix>,
                   ghost gx: Matrix, ghost ga: Matrix, ghost gb: Matrix)
      returns (ys: Option<(seq<Matrix>, seq<Matrix>)>)
      requires |xs| == |was| == |wbs| > 0 && gx.cols == ga.cols == gb.cols
      requires Splits(gx.rows, |xs|) && Splits(ga.rows, |xs|) && Splits(gb.rows, |xs|)
      requires xs == RowShards(gx, |xs|) && was == RowShards(ga, |xs|) && wbs == RowShards(gb, |xs|)
      modifies this
      ensures ys.Some? <==> EveryRankHasChunk(gx.cols, |xs|)
      ensures ys.Some? ==> ys.value.0 == ColShards(Linear(gx, ga, None), |xs|)
      ensures ys.Some? ==> ys.value.1 == ColShards(Linear(gx, gb, None), |xs|)
      ensures ys.Some? ==> savedX == AllShards(gx, |xs|) && x == gx && wa == ga && wb == gb
      ensures Splits(gx.cols, |xs|) ==> ys.Some? && Valid()
    {
      hide Build, At, LocalSize, VocabShard, Linear, ForwardOnRanks, RowShard, ColShard, Splits, Share;
      ForwardShards(xs, was, None, gx, ga, None);
      ForwardShards(xs, wbs, None, gx, gb, None);
      if Splits(gx.cols, |xs|) {
        EvenChunks(gx, |xs|);
      }
      if !EveryRankHasChunk(xs[0].cols, |xs|) {
        return None;
      }
      ys := Some((ForwardOnRanks(xs, was, None), ForwardOnRanks(xs, wbs, None)));
      savedX := KShards(xs);
      savedA, savedB := was, wbs;
      x, wa, wb := gx, ga, gb;
    }

    /** dgrad is one reduce-scatter of the concatenated operands; it equals the sum of both input gradients. */
    method Backward(dyas: seq<Matrix>, dybs: seq<Matrix>, ghost dya: Matrix, ghost dyb: Matrix)
      returns (dxs: seq<Matrix>, dwas: seq<Matrix>, dwbs: seq<Matrix>)
      requires Valid() && |dyas| == |dybs| == |savedX|
      requires dya.rows == dyb.rows == x.rows && dya.cols == wa.rows && dyb.cols == wb.rows
      requires dyas == ColShards(dya, |savedX|) && dybs == ColShards(dyb, |savedX|)
      ensures dxs == RowShards(Add(GradInput(wa, dya), GradInput(wb, dyb)), |savedX|)
      ensures dwas == RowShards(GradWeight(x, dya), |savedX|)
      ensures dwbs == RowShards(GradWeight(x, dyb), |savedX|)
    {
      var dys, ws := CatColsOnRanks(dyas, dybs), CatRowsOnRanks(savedA, savedB);
      ConcatenatedGrad(dya, dyb, wa, wb, |savedX|, dys, ws);
      WeightGradShards(x, dya, |savedX|);
      WeightGradShards(x, dyb, |savedX|);
      dxs := MatmulReduceScatter(dys, ws);
      dwas, dwbs := WeightGradsOnRanks(savedX, dyas), WeightGradsOnRanks(savedX, dybs);
    }
  }

  // ---------- LinearReduceScatter ----------

  function AddRowOnRanks(ys: seq<Matrix>, b: Matrix): seq<Matrix>
    requires Blocks(ys) && b.rows == 1 && b.cols == ys[0].cols
  {
    seq(|ys|, r requires 0 <= r < |ys| => AddRow(ys[r], b))
  }

  lemma AddRowOfRows(y: Matrix, b: Matrix, from: nat, n: nat)
    requires b.rows == 1 && b.cols == y.cols && from + n <= y.rows
    ensures AddRow(Rows(y, from, n), b) == Rows(AddRow(y, b), from, n)
  {
    MatrixEq(AddRow(Rows(y, from, n), b), Rows(AddRow(y, b), from, n));
  }

  /** Adding the whole bias to each row shard of the sum adds it once to the output. */
  lemma AddRowToShards(y: Matrix, b: Matrix, parts: nat)
    requires parts > 0 && Splits(y.rows, parts) && b.rows == 1 && b.cols == y.cols
    ensures AddRowOnRanks(RowShards(y, parts), b) == RowShards(AddRow(y, b), parts)
  {
    forall r | 0 <= r < parts ensures AddRow(RowShard(y, parts, r), b) == RowShard(AddRow(y, b), parts, r) {
      ShareBound(r, y.rows, parts);
      AddRowOfRows(y, b, Offset(r, Share(y.rows, parts)), Share(y.rows, parts));
    }
  }

  /** Each rank's dgrad: the gathered dy times the local weight shard. */
  function InputGradsOnRanks(dys: seq<Matrix>, ws: seq<Matrix>): seq<Matrix>
    requires Blocks(dys) && Blocks(ws) && |dys| == |ws| && dys[0].cols == ws[0].rows
  {
    seq(|dys|, r requires 0 <= r < |dys| => InputGradOnRank(dys, ws, r))
  }

  function InputGradOnRank(dys: seq<Matrix>, ws: seq<Matrix>, r: nat): Matrix
    requires Blocks(dys) && Blocks(ws) && |dys| == |ws| && dys[0].cols == ws[0].rows && r < |dys|
  {
    AllGatherMatmul(dys, ws[r]).1
  }

  /** Each rank's wgrad: the gathered dy, transposed, times the local input shard. */
  function RowWeightGradsOnRanks(dys: seq<Matrix>, xs: seq<Matrix>): seq<Matrix>
    requires Blocks(dys) && Blocks(xs) && |dys| == |xs| && StackRows(dys).rows == xs[0].rows
  {
    seq(|dys|, r requires 0 <= r < |dys| => Mul(Transpose(StackRows(dys)), xs[r]))
  }

  lemma ScatteredInputGrads(w: Matrix, dy: Matrix, parts: nat)
    requires parts > 0 && dy.cols == w.rows && Splits(dy.rows, parts) && Splits(w.cols, parts)
    ensures InputGradsOnRanks(RowShards(dy, parts), ColShards(w, parts)) == ColShards(GradInput(w, dy), parts)
  {
    hide Build, At, Splits, Share, StackRows, Mul, ColShard, RowShard;
    var dys, ws := RowShards(dy, parts), ColShards(w, parts);
    StackOfShards(dy, parts);
    forall r | 0 <= r < parts ensures InputGradOnRank(dys, ws, r) == ColShard(GradInput(w, dy), parts, r) {
      ColShardOfMul(dy, w, parts, r);
    }
  }

  lemma ScatteredWeightGrads(x: Matrix, dy: Matrix, parts: nat)
    requires parts > 0 && dy.rows == x.rows && Splits(x.rows, parts) && Splits(x.cols, parts)
    ensures StackRows(RowShards(dy, parts)).rows == x.rows
    ensures RowWeightGradsOnRanks(RowShards(dy, parts), ColShards(x, parts)) == ColShards(GradWeight(x, dy), parts)
  {
    StackOfShards(dy, parts);
    forall r | 0 <= r < parts ensures Mul(Transpose(dy), ColShard(x, parts, r)) == ColShard(GradWeight(x, dy), parts, r) {
      ColShardOfMul(Transpose(dy), x, parts, r);
    }
  }

  lemma ColumnSumOfBlock(a: Matrix, from: nat, n: nat, j: nat, f: int -> real)
    requires from + n <= a.rows && j < a.cols && forall i :: f(i) == At(a, i, j)
    ensures At(ColumnSum(Rows(a, from, n)), 0, j) == SumFrom(from, n, f)
  {
    var b := Rows(a, from, n);
    SumFromExt(from, n, f, k => At(b, k, j));
  }

  /** All-reducing the ranks' own column sums gives the column sum over every row. */
  lemma ColumnSumOfRowShards(a: Matrix, parts: nat)
    requires parts > 0 && Splits(a.rows, parts)
    ensures SumBlocksOf(ColumnSums(RowShards(a, parts))) == ColumnSum(a)
  {
    var sums := ColumnSums(RowShards(a, parts));
    var x, y := SumBlocksOf(sums), ColumnSum(a);
    forall j | 0 <= j < a.cols ensures At(x, 0, j) == At(y, 0, j) {
      ColumnOfRowShards(a, parts, j, k => At(a, k, j));
    }
    MatrixEq(x, y);
  }

  lemma ColumnOfRowShards(a: Matrix, parts: nat, j: nat, f: int -> real)
    requires parts > 0 && Splits(a.rows, parts) && j < a.cols && forall i :: f(i) == At(a, i, j)
    ensures At(SumBlocksOf(ColumnSums(RowShards(a, parts))), 0, j) == Sum(a.rows, f)
  {
    var sums, size := ColumnSums(RowShards(a, parts)), Share(a.rows, parts);
    var g := q => if 0 <= q < |sums| then At(sums[q], 0, j) else 0.0;
    forall q | 0 <= q < parts ensures g(q) == SumFrom(Offset(q, size), size, f) {
      ShareBound(q, a.rows, parts);
      ColumnSumOfBlock(a, Offset(q, size), size, j, f);
    }
    SumBlocks(parts, size, f, g);
    SharesCover(a.rows, parts);
  }

  /** Each rank sums its own rows; the in-place all-reduce completes the bias gradient everywhere. */
  method ReducedBiasGrad(dys: seq<Matrix>, ghost dy: Matrix) returns (dbs: seq<Matrix>)
    requires |dys| > 0 && Splits(dy.rows, |dys|) && dys == RowShards(dy, |dys|)
    ensures |dbs| == |dys| && forall r | 0 <= r < |dys| :: dbs[r] == ColumnSum(dy)
  {
    var sums := ColumnSums(dys);
    var buffers := new Matrix[|sums|](r requires 0 <= r < |sums| => sums[r]);
    assert buffers[..] == sums;
    AllReduce(buffers);
    ColumnSumOfRowShards(dy, |dys|);
    dbs := buffers[..];
  }

  class LinearReduceScatter {
    var savedX: seq<Matrix>
    var savedW: seq<Matrix>
    var hasBias: bool
    ghost var x: Matrix
    ghost var w: Matrix

    ghost predicate Valid()
      reads this
    {
      var parts := |savedX|;
      && parts > 0 && x.cols == w.cols
      && Splits(x.rows, parts) && Splits(x.cols, parts)
      && savedX == ColShards(x, parts) && savedW == ColShards(w, parts)
    }

    constructor () {
      savedX, savedW, hasBias := [], [], false;
    }

    /** Local partial products, one reduce-scatter, and the bias added once, after the sum. */
    method Forward(xs: seq<Matrix>, ws: seq<Matrix>, bias: Option<Matrix>, ghost gx: Matrix, ghost gw: Matrix)
      returns (ys: seq<Matrix>)
      requires |xs| == |ws| > 0 && LinearShapes(gx, gw, bias)
      requires Splits(gx.rows, |xs|) && Splits(gx.cols, |xs|)
      requires xs == ColShards(gx, |xs|) && ws == ColShards(gw, |xs|)
      modifies this
      ensures Valid() && |savedX| == |xs| && x == gx && w == gw && hasBias == bias.Some?
      ensures ys == RowShards(Linear(gx, gw, bias), |xs|)
    {
      TransposesOfColShards(gw, |xs|);
      ReduceScatterOfShards(gx, Transpose(gw), |xs|);
      ys := MatmulReduceScatter(xs, Transposes(ws));
      if bias.Some? {
        AddRowToShards(Mul(gx, Transpose(gw)), bias.value, |xs|);
        ys := AddRowOnRanks(ys, bias.value);
      }
      savedX, savedW, hasBias := xs, ws, bias.Some?;
      x, w := gx, gw;
    }

    /** One gather of dy serves dgrad and wgrad; dbias needs an in-place all-reduce. */
    method Backward(dys: seq<Matrix>, ghost dy: Matrix)
      returns (dxs: seq<Matrix>, dws: seq<Matrix>, dbs: Option<seq<Matrix>>)
      requires Valid() && |dys| == |savedX| && dy.rows == x.rows && dy.cols == w.rows
      requires dys == RowShards(dy, |savedX|)
      ensures dxs == ColShards(GradInput(w, dy), |savedX|)
      ensures dws == ColShards(GradWeight(x, dy), |savedX|)
      ensures hasBias == dbs.Some?
      ensures hasBias ==> |dbs.value| == |savedX| && forall r | 0 <= r < |savedX| :: dbs.value[r] == ColumnSum(dy)
    {
      ScatteredInputGrads(w, dy, |savedX|);
      ScatteredWeightGrads(x, dy, |savedX|);
      dxs, dws := InputGradsOnRanks(dys, savedW), RowWeightGradsOnRanks(dys, savedX);
      dbs := None;
      if hasBias {
        var sums := ReducedBiasGrad(dys, dy);
        dbs := Some(sums);
      }
    }
  }

  // ---------- backward is the adjoint of forward, summed over ranks ----------

  /** For the column-parallel layout: <y, dy>, <x, dx> and <w, dw> agree when every rank adds up its own shards. */
  lemma AllGatherBackwardIsAdjoint(x: Matrix, w: Matrix, dy: Matrix, parts: nat)
    requires parts > 0 && x.cols == w.cols && dy.rows == x.rows && dy.cols == w.rows
    requires Splits(x.rows, parts) && Splits(w.rows, parts)
    ensures RankInner(ColShards(Linear(x, w, None), parts), ColShards(dy, parts)) ==
            RankInner(RowShards(x, parts), RowShards(GradInput(w, dy), parts))
    ensures RankInner(ColShards(Linear(x, w, None), parts), ColShards(dy, parts)) ==
            RankInner(RowShards(w, parts), RowShards(GradWeight(x, dy), parts))
  {
    GradientsAreAdjoint(x, w, dy);
    RankInnerOfCols(Linear(x, w, None), dy, parts);
    RankInnerOfRows(x, GradInput(w, dy), parts);
    RankInnerOfRows(w, GradWeight(x, dy), parts);
  }

  /** The same for the row-parallel layout. */
  lemma ReduceScatterBackwardIsAdjoint(x: Matrix, w: Matrix, dy: Matrix, parts: nat)
    requires parts > 0 && x.cols == w.cols && dy.rows == x.rows && dy.cols == w.rows
    requires Splits(x.rows, parts) && Splits(x.cols, parts)
    ensures RankInner(RowShards(Linear(x, w, None), parts), RowShards(dy, parts)) ==
            RankInner(ColShards(x, parts), ColShards(GradInput(w, dy), parts))
    ensures RankInner(RowShards(Linear(x, w, None), parts), RowShards(dy, parts)) ==
            RankInner(ColShards(w, parts), ColShards(GradWeight(x, dy), parts))
  {
    GradientsAreAdjoint(x, w, dy);
    RankInnerOfRows(Linear(x, w, None), dy, parts);
    RankInnerOfCols(x, GradInput(w, dy), parts);
    RankInnerOfCols(w, GradWeight(x, dy), parts);
  }
}
