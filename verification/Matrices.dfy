/** Dense real matrices as values: product, transpose, row and column shards,
    concatenation, and the block laws that relate them. */
module Matrices {
  import opened Sums

  datatype RawMatrix = Mat(rows: nat, cols: nat, data: seq<seq<real>>)

  predicate Rectangular(m: RawMatrix) {
    |m.data| == m.rows && forall i | 0 <= i < m.rows :: |m.data[i]| == m.cols
  }

  type Matrix = m: RawMatrix | Rectangular(m) witness Mat(0, 0, [])

  /** Entry (i, j); zero outside the matrix, so that At is total. */
  function At(m: Matrix, i: int, j: int): real {
    if 0 <= i < m.rows && 0 <= j < m.cols then m.data[i][j] else 0.0
  }

  function BuildRow(i: int, cols: nat, f: (int, int) -> real): (s: seq<real>)
    ensures |s| == cols && forall j | 0 <= j < cols :: s[j] == f(i, j)
  {
    if cols == 0 then [] else BuildRow(i, cols - 1, f) + [f(i, cols - 1)]
  }

  function BuildRows(rows: nat, cols: nat, f: (int, int) -> real): (s: seq<seq<real>>)
    ensures |s| == rows && forall i | 0 <= i < rows :: |s[i]| == cols
    ensures forall i, j | 0 <= i < rows && 0 <= j < cols :: s[i][j] == f(i, j)
  {
    if rows == 0 then [] else BuildRows(rows - 1, cols, f) + [BuildRow(rows - 1, cols, f)]
  }

  /** The rows x cols matrix with entry f(i, j) at (i, j). */
  function Build(rows: nat, cols: nat, f: (int, int) -> real): (m: Matrix)
    ensures m.rows == rows && m.cols == cols
    ensures forall i, j | 0 <= i < rows && 0 <= j < cols :: At(m, i, j) == f(i, j)
  {
    Mat(rows, cols, BuildRows(rows, cols, f))
  }

  /** Two matrices with the same shape and entries are the same value. */
  lemma MatrixEq(a: Matrix, b: Matrix)
    requires a.rows == b.rows && a.cols == b.cols
    requires forall i, j | 0 <= i < a.rows && 0 <= j < a.cols :: At(a, i, j) == At(b, i, j)
    ensures a == b
  {
    forall i | 0 <= i < a.rows ensures a.data[i] == b.data[i] {
      forall j | 0 <= j < a.cols ensures a.data[i][j] == b.data[i][j] {
        assert At(a, i, j) == At(b, i, j);
      }
    }
    assert a.data == b.data;
  }

  // ---------- the usual operations ----------

  function Transpose(a: Matrix): (m: Matrix)
    ensures m.rows == a.cols && m.cols == a.rows
    ensures forall i, j :: At(m, i, j) == At(a, j, i)
  {
    Build(a.cols, a.rows, (i, j) => At(a, j, i))
  }

  function Term(a: Matrix, b: Matrix, i: int, j: int): int -> real {
    k => At(a, i, k) * At(b, k, j)
  }

  function Mul(a: Matrix, b: Matrix): (m: Matrix)
    requires a.cols == b.rows
    ensures m.rows == a.rows && m.cols == b.cols
    ensures forall i, j | 0 <= i < a.rows && 0 <= j < b.cols :: At(m, i, j) == Sum(a.cols, Term(a, b, i, j))
  {
    Build(a.rows, b.cols, (i, j) => Sum(a.cols, Term(a, b, i, j)))
  }

  function Add(a: Matrix, b: Matrix): (m: Matrix)
    requires a.rows == b.rows && a.cols == b.cols
    ensures m.rows == a.rows && m.cols == a.cols
    ensures forall i, j :: At(m, i, j) == At(a, i, j) + At(b, i, j)
  {
    Build(a.rows, a.cols, (i, j) => At(a, i, j) + At(b, i, j))
  }

  function Zero(rows: nat, cols: nat): (m: Matrix)
    ensures m.rows == rows && m.cols == cols
    ensures forall i, j :: At(m, i, j) == 0.0
  {
    Build(rows, cols, (i, j) => 0.0)
  }

  /** Adds the 1 x cols row vector b to every row. */
  function AddRow(a: Matrix, b: Matrix): (m: Matrix)
    requires b.rows == 1 && b.cols == a.cols
    ensures m.rows == a.rows && m.cols == a.cols
    ensures forall i, j | 0 <= i < a.rows && 0 <= j < a.cols :: At(m, i, j) == At(a, i, j) + At(b, 0, j)
  {
    Build(a.rows, a.cols, (i, j) => At(a, i, j) + At(b, 0, j))
  }

  /** Column sums, as a 1 x cols row vector. */
  function ColumnSum(a: Matrix): (m: Matrix)
    ensures m.rows == 1 && m.cols == a.cols
    ensures forall j | 0 <= j < a.cols :: At(m, 0, j) == Sum(a.rows, i => At(a, i, j))
  {
    Build(1, a.cols, (i, j) => Sum(a.rows, k => At(a, k, j)))
  }

  function Products(a: Matrix, b: Matrix, i: int): int -> real {
    j => At(a, i, j) * At(b, i, j)
  }

  function RowDot(a: Matrix, b: Matrix, i: int): real {
    Sum(a.cols, Products(a, b, i))
  }

  /** Sum of the entrywise products. */
  function Inner(a: Matrix, b: Matrix): real {
    Sum(a.rows, i => RowDot(a, b, i))
  }

  // ---------- shards ----------

  /** Rows [from, from + n). */
  function Rows(a: Matrix, from: nat, n: nat): (m: Matrix)
    requires from + n <= a.rows
    ensures m.rows == n && m.cols == a.cols
    ensures forall i, j | 0 <= i < n && 0 <= j < a.cols :: At(m, i, j) == At(a, from + i, j)
  {
    Build(n, a.cols, (i, j) => At(a, from + i, j))
  }

  function Cols(a: Matrix, from: nat, n: nat): (m: Matrix)
    requires from + n <= a.cols
    ensures m.rows == a.rows && m.cols == n
    ensures forall i, j | 0 <= i < a.rows && 0 <= j < n :: At(m, i, j) == At(a, i, from + j)
  {
    Build(a.rows, n, (i, j) => At(a, i, from + j))
  }

  /** Rank r's even shard of the rows, among `parts` ranks. */
  function RowShard(a: Matrix, parts: nat, r: nat): (m: Matrix)
    requires r < parts && Splits(a.rows, parts)
    ensures m.rows == Share(a.rows, parts) && m.cols == a.cols
  {
    ShareBound(r, a.rows, parts);
    Rows(a, Offset(r, Share(a.rows, parts)), Share(a.rows, parts))
  }

  /** Rank r's even shard of the columns. */
  function ColShard(a: Matrix, parts: nat, r: nat): (m: Matrix)
    requires r < parts && Splits(a.cols, parts)
    ensures m.rows == a.rows && m.cols == Share(a.cols, parts)
  {
    ShareBound(r, a.cols, parts);
    Cols(a, Offset(r, Share(a.cols, parts)), Share(a.cols, parts))
  }

  /** At least one block, all of one shape. */
  predicate Blocks(blocks: seq<Matrix>) {
    |blocks| > 0 && forall r | 0 <= r < |blocks| :: blocks[r].rows == blocks[0].rows && blocks[r].cols == blocks[0].cols
  }

  function RowShards(a: Matrix, parts: nat): (s: seq<Matrix>)
    requires parts > 0 && Splits(a.rows, parts)
    ensures |s| == parts && forall r | 0 <= r < parts :: s[r] == RowShard(a, parts, r)
    ensures Blocks(s) && s[0].rows == Share(a.rows, parts) && s[0].cols == a.cols
  {
    seq(parts, r requires 0 <= r < parts => RowShard(a, parts, r))
  }

  function ColShards(a: Matrix, parts: nat): (s: seq<Matrix>)
    requires parts > 0 && Splits(a.cols, parts)
    ensures |s| == parts && forall r | 0 <= r < parts :: s[r] == ColShard(a, parts, r)
    ensures Blocks(s) && s[0].rows == a.rows && s[0].cols == Share(a.cols, parts)
  {
    seq(parts, r requires 0 <= r < parts => ColShard(a, parts, r))
  }

  /** torch.cat(dim=0) */
  function CatRows(a: Matrix, b: Matrix): (m: Matrix)
    requires a.cols == b.cols
    ensures m.rows == a.rows + b.rows && m.cols == a.cols
    ensures forall i, j | 0 <= i < a.rows && 0 <= j < m.cols :: At(m, i, j) == At(a, i, j)
    ensures forall i, j | 0 <= i < b.rows && 0 <= j < m.cols :: At(m, a.rows + i, j) == At(b, i, j)
  {
    Build(a.rows + b.rows, a.cols, (i, j) => if i < a.rows then At(a, i, j) else At(b, i - a.rows, j))
  }

  /** torch.cat(dim=1) */
  function CatCols(a: Matrix, b: Matrix): (m: Matrix)
    requires a.rows == b.rows
    ensures m.rows == a.rows && m.cols == a.cols + b.cols
    ensures forall i, j | 0 <= i < m.rows && 0 <= j < a.cols :: At(m, i, j) == At(a, i, j)
    ensures forall i, j | 0 <= i < m.rows && 0 <= j < b.cols :: At(m, i, a.cols + j) == At(b, i, j)
  {
    Build(a.rows, a.cols + b.cols, (i, j) => if j < a.cols then At(a, i, j) else At(b, i, j - a.cols))
  }

  /** The blocks stacked on top of each other: an all-gather on dim 0. */
  function StackRows(blocks: seq<Matrix>): (m: Matrix)
    requires Blocks(blocks)
    ensures m.rows == Offset(|blocks|, blocks[0].rows) && m.cols == blocks[0].cols
  {
    if |blocks| == 1 then blocks[0]
    else CatRows(StackRows(blocks[..|blocks| - 1]), blocks[|blocks| - 1])
  }

  /** Row i of block r is row Offset(r, size) + i of the stack. */
  lemma {:induction false} StackAt(blocks: seq<Matrix>, r: nat, i: nat, j: nat)
    requires Blocks(blocks) && r < |blocks| && i < blocks[0].rows && j < blocks[0].cols
    ensures Offset(r, blocks[0].rows) + i < StackRows(blocks).rows
    ensures At(StackRows(blocks), Offset(r, blocks[0].rows) + i, j) == At(blocks[r], i, j)
  {
    hide Build;
    OffsetBound(r, |blocks|, blocks[0].rows);
    if |blocks| > 1 && r < |blocks| - 1 { StackAt(blocks[..|blocks| - 1], r, i, j); }
  }

  /** The entrywise sum of the blocks: an all-reduce. */
  function SumBlocksOf(blocks: seq<Matrix>): (m: Matrix)
    requires Blocks(blocks)
    ensures m.rows == blocks[0].rows && m.cols == blocks[0].cols
    ensures forall i, j | 0 <= i < m.rows && 0 <= j < m.cols ::
      At(m, i, j) == Sum(|blocks|, q => if 0 <= q < |blocks| then At(blocks[q], i, j) else 0.0)
  {
    Build(blocks[0].rows, blocks[0].cols,
          (i, j) => Sum(|blocks|, q => if 0 <= q < |blocks| then At(blocks[q], i, j) else 0.0))
  }

  /** Gathering the shards rebuilds the whole. */
  lemma StackOfShards(a: Matrix, parts: nat)
    requires parts > 0 && Splits(a.rows, parts)
    ensures Blocks(RowShards(a, parts)) && StackRows(RowShards(a, parts)) == a
  {
    SharesCover(a.rows, parts);
    forall i, j | 0 <= i < a.rows && 0 <= j < a.cols ensures At(StackRows(RowShards(a, parts)), i, j) == At(a, i, j) {
      StackedRow(a, parts, i, j);
    }
    MatrixEq(StackRows(RowShards(a, parts)), a);
  }

  lemma StackedRow(a: Matrix, parts: nat, i: nat, j: nat)
    requires parts > 0 && Splits(a.rows, parts) && i < a.rows && j < a.cols
    ensures At(StackRows(RowShards(a, parts)), i, j) == At(a, i, j)
  {
    hide Build, At, RowShard, Splits, Share, Offset;
    SharesCover(a.rows, parts);
    var r, k := Locate(i, parts, Share(a.rows, parts));
    StackAt(RowShards(a, parts), r, k, j);
    ShardAt(a, parts, r, k, j);
  }

  lemma ShardAt(a: Matrix, parts: nat, r: nat, k: nat, j: nat)
    requires r < parts && Splits(a.rows, parts) && k < Share(a.rows, parts) && j < a.cols
    ensures Offset(r, Share(a.rows, parts)) + k < a.rows
    ensures At(RowShard(a, parts, r), k, j) == At(a, Offset(r, Share(a.rows, parts)) + k, j)
  {
    ShareBound(r, a.rows, parts);
  }

  // ---------- block laws of the product ----------

  lemma TransposeTwice(a: Matrix)
    ensures Transpose(Transpose(a)) == a
  {
    MatrixEq(Transpose(Transpose(a)), a);
  }

  lemma TransposeMul(a: Matrix, b: Matrix)
    requires a.cols == b.rows
    ensures Transpose(Mul(a, b)) == Mul(Transpose(b), Transpose(a))
  {
    var l, r := Transpose(Mul(a, b)), Mul(Transpose(b), Transpose(a));
    forall i, j | 0 <= i < l.rows && 0 <= j < l.cols ensures At(l, i, j) == At(r, i, j) {
      SumExt(a.cols, Term(a, b, j, i), Term(Transpose(b), Transpose(a), i, j));
    }
    MatrixEq(l, r);
  }

  lemma RowsOfMul(a: Matrix, b: Matrix, from: nat, n: nat)
    requires a.cols == b.rows && from + n <= a.rows
    ensures Rows(Mul(a, b), from, n) == Mul(Rows(a, from, n), b)
  {
    var x, y := Rows(Mul(a, b), from, n), Mul(Rows(a, from, n), b);
    forall i, j | 0 <= i < n && 0 <= j < b.cols ensures At(x, i, j) == At(y, i, j) {
      SumExt(a.cols, Term(a, b, from + i, j), Term(Rows(a, from, n), b, i, j));
    }
    MatrixEq(x, y);
  }

  lemma ColsOfMul(a: Matrix, b: Matrix, from: nat, n: nat)
    requires a.cols == b.rows && from + n <= b.cols
    ensures Cols(Mul(a, b), from, n) == Mul(a, Cols(b, from, n))
  {
    var x, y := Cols(Mul(a, b), from, n), Mul(a, Cols(b, from, n));
    forall i, j | 0 <= i < a.rows && 0 <= j < n ensures At(x, i, j) == At(y, i, j) {
      SumExt(a.cols, Term(a, b, i, from + j), Term(a, Cols(b, from, n), i, j));
    }
    MatrixEq(x, y);
  }

  /** A row shard of a product needs only that row shard of the left factor. */
  lemma RowShardOfMul(a: Matrix, b: Matrix, parts: nat, r: nat)
    requires a.cols == b.rows && r < parts && Splits(a.rows, parts)
    ensures RowShard(Mul(a, b), parts, r) == Mul(RowShard(a, parts, r), b)
  {
    ShareBound(r, a.rows, parts);
    RowsOfMul(a, b, Offset(r, Share(a.rows, parts)), Share(a.rows, parts));
  }

  /** A column shard of a product needs only that column shard of the right factor. */
  lemma ColShardOfMul(a: Matrix, b: Matrix, parts: nat, r: nat)
    requires a.cols == b.rows && r < parts && Splits(b.cols, parts)
    ensures ColShard(Mul(a, b), parts, r) == Mul(a, ColShard(b, parts, r))
  {
    ShareBound(r, b.cols, parts);
    ColsOfMul(a, b, Offset(r, Share(b.cols, parts)), Share(b.cols, parts));
  }

  lemma TransposeShard(a: Matrix, parts: nat, r: nat)
    requires r < parts && Splits(a.rows, parts)
    ensures Transpose(RowShard(a, parts, r)) == ColShard(Transpose(a), parts, r)
  {
    ShareBound(r, a.rows, parts);
    MatrixEq(Transpose(RowShard(a, parts, r)), ColShard(Transpose(a), parts, r));
  }

  lemma TransposeColShard(a: Matrix, parts: nat, r: nat)
    requires r < parts && Splits(a.cols, parts)
    ensures Transpose(ColShard(a, parts, r)) == RowShard(Transpose(a), parts, r)
  {
    ShareBound(r, a.cols, parts);
    MatrixEq(Transpose(ColShard(a, parts, r)), RowShard(Transpose(a), parts, r));
  }

  function PartialProducts(a: Matrix, b: Matrix, parts: nat): (s: seq<Matrix>)
    requires parts > 0 && a.cols == b.rows && Splits(a.cols, parts)
    ensures |s| == parts && Blocks(s)
    ensures forall q | 0 <= q < parts :: s[q] == Mul(ColShard(a, parts, q), RowShard(b, parts, q))
    ensures s[0].rows == a.rows && s[0].cols == b.cols
  {
    seq(parts, q requires 0 <= q < parts => Mul(ColShard(a, parts, q), RowShard(b, parts, q)))
  }

  lemma PartialEntry(a: Matrix, b: Matrix, from: nat, n: nat, i: nat, j: nat)
    requires a.cols == b.rows && from + n <= a.cols && i < a.rows && j < b.cols
    ensures At(Mul(Cols(a, from, n), Rows(b, from, n)), i, j) == SumFrom(from, n, Term(a, b, i, j))
  {
    var c, d := Cols(a, from, n), Rows(b, from, n);
    forall k | 0 <= k < n ensures Term(a, b, i, j)(from + k) == Term(c, d, i, j)(k) {
      assert At(c, i, k) == At(a, i, from + k) && At(d, k, j) == At(b, from + k, j);
    }
    SumFromExt(from, n, Term(a, b, i, j), Term(c, d, i, j));
  }

  lemma BlockEntry(a: Matrix, b: Matrix, parts: nat, q: nat, i: nat, j: nat)
    requires q < parts && a.cols == b.rows && Splits(a.cols, parts) && i < a.rows && j < b.cols
    ensures At(PartialProducts(a, b, parts)[q], i, j) ==
            SumFrom(Offset(q, Share(a.cols, parts)), Share(a.cols, parts), Term(a, b, i, j))
  {
    ShareBound(q, a.cols, parts);
    PartialEntry(a, b, Offset(q, Share(a.cols, parts)), Share(a.cols, parts), i, j);
  }

  lemma PartialProductsEntry(a: Matrix, b: Matrix, parts: nat, i: nat, j: nat)
    requires parts > 0 && a.cols == b.rows && Splits(a.cols, parts) && i < a.rows && j < b.cols
    ensures At(SumBlocksOf(PartialProducts(a, b, parts)), i, j) == At(Mul(a, b), i, j)
  {
    var size, ps, f := Share(a.cols, parts), PartialProducts(a, b, parts), Term(a, b, i, j);
    var partial := q => if 0 <= q < |ps| then At(ps[q], i, j) else 0.0;
    forall q | 0 <= q < parts ensures partial(q) == SumFrom(Offset(q, size), size, f) {
      BlockEntry(a, b, parts, q, i, j);
    }
    SumBlocks(parts, size, f, partial);
    SharesCover(a.cols, parts);
  }

  /** Splitting the contracted dimension: the ranks' partial products sum to the whole product. */
  lemma PartialProductsSum(a: Matrix, b: Matrix, parts: nat)
    requires parts > 0 && a.cols == b.rows && Splits(a.cols, parts)
    ensures SumBlocksOf(PartialProducts(a, b, parts)) == Mul(a, b)
  {
    var s, m := SumBlocksOf(PartialProducts(a, b, parts)), Mul(a, b);
    forall i, j | 0 <= i < a.rows && 0 <= j < b.cols ensures At(s, i, j) == At(m, i, j) {
      PartialProductsEntry(a, b, parts, i, j);
    }
    MatrixEq(s, m);
  }

  // ---------- the adjoint relation that defines gradients ----------

  function Flip(f: (int, int) -> real): (int, int) -> real { (i, j) => f(j, i) }

  function RowSum(n: nat, f: (int, int) -> real): int -> real { i => Sum(n, j => f(i, j)) }

  lemma Fubini(m: nat, n: nat, f: (int, int) -> real)
    ensures Sum(m, RowSum(n, f)) == Sum(n, RowSum(m, Flip(f)))
  {
    SumSwap(m, n, f);
    SumExt(m, RowSum(n, f), i => Sum(n, j => f(i, j)));
    forall j | 0 <= j < n ensures Sum(m, i => f(i, j)) == RowSum(m, Flip(f))(j) {
      var g := Flip(f);
      SumExt(m, i => f(i, j), i => g(j, i));
    }
    SumExt(n, RowSum(m, Flip(f)), j => Sum(m, i => f(i, j)));
  }

  lemma InnerAsDoubleSum(a: Matrix, b: Matrix, f: (int, int) -> real)
    requires forall i, j | 0 <= i < a.rows && 0 <= j < a.cols :: f(i, j) == At(a, i, j) * At(b, i, j)
    ensures Inner(a, b) == Sum(a.rows, RowSum(a.cols, f))
  {
    forall i | 0 <= i < a.rows ensures RowDot(a, b, i) == RowSum(a.cols, f)(i) {
      SumExt(a.cols, Products(a, b, i), j => f(i, j));
    }
    SumExt(a.rows, i => RowDot(a, b, i), RowSum(a.cols, f));
  }

  lemma InnerTranspose(a: Matrix, b: Matrix)
    requires a.rows == b.rows && a.cols == b.cols
    ensures Inner(Transpose(a), Transpose(b)) == Inner(a, b)
  {
    var f := (i: int, j: int) => At(a, i, j) * At(b, i, j);
    InnerAsDoubleSum(a, b, f);
    InnerAsDoubleSum(Transpose(a), Transpose(b), Flip(f));
    Fubini(a.rows, a.cols, f);
  }

  /** <a b, y> == <a, y b^T>: multiplying by b^T is the adjoint of multiplying by b. */
  lemma MulAdjointLeft(a: Matrix, b: Matrix, y: Matrix)
    requires a.cols == b.rows && y.rows == a.rows && y.cols == b.cols
    ensures Inner(Mul(a, b), y) == Inner(a, Mul(y, Transpose(b)))
  {
    var ab, yb := Mul(a, b), Mul(y, Transpose(b));
    forall i | 0 <= i < a.rows ensures RowDot(ab, y, i) == RowDot(a, yb, i) {
      RowAdjoint(a, b, y, i);
    }
    SumExt(a.rows, i => RowDot(ab, y, i), i => RowDot(a, yb, i));
  }

  function Triple(a: Matrix, b: Matrix, y: Matrix, i: int): (int, int) -> real {
    (j, k) => At(y, i, j) * (At(a, i, k) * At(b, k, j))
  }

  lemma RowAdjoint(a: Matrix, b: Matrix, y: Matrix, i: nat)
    requires a.cols == b.rows && y.rows == a.rows && y.cols == b.cols && i < a.rows
    ensures RowDot(Mul(a, b), y, i) == RowDot(a, Mul(y, Transpose(b)), i)
  {
    hide *;
    Fubini(b.cols, a.cols, Triple(a, b, y, i));
    RowByColumns(a, b, y, i);
    RowByRows(a, b, y, i);
  }

  lemma RowByColumns(a: Matrix, b: Matrix, y: Matrix, i: nat)
    requires a.cols == b.rows && y.rows == a.rows && y.cols == b.cols && i < a.rows
    ensures RowDot(Mul(a, b), y, i) == Sum(b.cols, RowSum(a.cols, Triple(a, b, y, i)))
  {
    hide Build, Sum;
    var f := Triple(a, b, y, i);
    forall j | 0 <= j < b.cols ensures Products(Mul(a, b), y, i)(j) == RowSum(a.cols, f)(j) {
      EntryTimes(a, b, i, j, At(y, i, j), k => f(j, k));
    }
    SumExt(b.cols, Products(Mul(a, b), y, i), RowSum(a.cols, f));
  }

  lemma RowByRows(a: Matrix, b: Matrix, y: Matrix, i: nat)
    requires a.cols == b.rows && y.rows == a.rows && y.cols == b.cols && i < a.rows
    ensures RowDot(a, Mul(y, Transpose(b)), i) == Sum(a.cols, RowSum(b.cols, Flip(Triple(a, b, y, i))))
  {
    hide Build, Sum;
    var f := Triple(a, b, y, i);
    forall k | 0 <= k < a.cols ensures Products(a, Mul(y, Transpose(b)), i)(k) == RowSum(b.cols, Flip(f))(k) {
      ColumnAdjoint(a, b, y, i, k);
    }
    SumExt(a.cols, Products(a, Mul(y, Transpose(b)), i), RowSum(b.cols, Flip(f)));
  }

  lemma ColumnAdjoint(a: Matrix, b: Matrix, y: Matrix, i: nat, k: nat)
    requires a.cols == b.rows && y.rows == a.rows && y.cols == b.cols && i < a.rows && k < a.cols
    ensures Products(a, Mul(y, Transpose(b)), i)(k) == RowSum(b.cols, Flip(Triple(a, b, y, i)))(k)
  {
    var g := Flip(Triple(a, b, y, i));
    forall j | 0 <= j < b.cols ensures g(k, j) == At(a, i, k) * (At(y, i, j) * At(Transpose(b), j, k)) {
      Rearrange(At(a, i, k), At(y, i, j), At(b, k, j));
    }
    EntryTimes(y, Transpose(b), i, k, At(a, i, k), j => g(k, j));
  }

  lemma EntryTimes(a: Matrix, b: Matrix, i: nat, j: nat, x: real, g: int -> real)
    requires a.cols == b.rows && i < a.rows && j < b.cols
    requires forall k | 0 <= k < a.cols :: g(k) == x * (At(a, i, k) * At(b, k, j))
    ensures Sum(a.cols, g) == x * At(Mul(a, b), i, j)
  {
    var t := Term(a, b, i, j);
    SumScale(a.cols, x, t);
    SumExt(a.cols, g, k => x * t(k));
  }

  lemma Rearrange(x: real, y: real, z: real)
    ensures x * (y * z) == y * (x * z)
  {
  }

  /** <a b, y> == <b, a^T y>. */
  lemma MulAdjointRight(a: Matrix, b: Matrix, y: Matrix)
    requires a.cols == b.rows && y.rows == a.rows && y.cols == b.cols
    ensures Inner(Mul(a, b), y) == Inner(b, Mul(Transpose(a), y))
  {
    InnerTranspose(Mul(a, b), y);
    TransposeMul(a, b);
    MulAdjointLeft(Transpose(b), Transpose(a), Transpose(y));
    TransposeTwice(a);
    InnerTranspose(b, Mul(Transpose(a), y));
    TransposeMul(Transpose(a), y);
  }
}
