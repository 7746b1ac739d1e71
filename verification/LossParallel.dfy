/** Vocab-parallel cross-entropy (_LossParallelCrossEntropy in torchtitan/components/loss.py) over exact reals; exp and
    log are functions with the laws below. */
module LossParallel {
  import opened Matrices
  import opened Sums
  import opened VocabShards
  import opened Wrappers

  const IGNORE_INDEX := -100

  type RealFn = real -> real

  predicate LogOfExp(exp: RealFn, log: RealFn, x: real) { log(exp(x)) == x }

  predicate ExpOfLog(exp: RealFn, log: RealFn, x: real) { x > 0.0 ==> exp(log(x)) == x }

  predicate ExpAdds(exp: RealFn, x: real, y: real) { exp(x + y) == exp(x) * exp(y) }

  predicate LogMultiplies(log: RealFn, x: real, y: real) { x > 0.0 && y > 0.0 ==> log(x * y) == log(x) + log(y) }

  ghost predicate ExpLog(exp: RealFn, log: RealFn) {
    && (forall x {:trigger exp(x)} :: exp(x) > 0.0)
    && (forall x :: LogOfExp(exp, log, x) && ExpOfLog(exp, log, x))
    && (forall x, y :: ExpAdds(exp, x, y) && LogMultiplies(log, x, y))
  }

  // ---------- the unsharded loss ----------

  function ExpTerms(exp: RealFn, z: Matrix, i: int, shift: real): int -> real {
    k => exp(At(z, i, k) - shift)
  }

  function SumExp(exp: RealFn, z: Matrix, i: int): real {
    Sum(z.cols, ExpTerms(exp, z, i, 0.0))
  }

  function LogSoftmax(exp: RealFn, log: RealFn, z: Matrix): (m: Matrix)
    ensures m.rows == z.rows && m.cols == z.cols
    ensures forall i, j | 0 <= i < z.rows && 0 <= j < z.cols :: At(m, i, j) == At(z, i, j) - log(SumExp(exp, z, i))
  {
    Build(z.rows, z.cols, (i, j) => At(z, i, j) - log(SumExp(exp, z, i)))
  }

  /** One token's negative log-likelihood, zero for an ignored label. */
  function Nll(exp: RealFn, log: RealFn, z: Matrix, i: int, y: int): real {
    if y == IGNORE_INDEX then 0.0 else log(SumExp(exp, z, i)) - At(z, i, y)
  }

  function Softmax(exp: RealFn, z: Matrix, i: int, j: int): real
    requires SumExp(exp, z, i) != 0.0
  {
    exp(At(z, i, j)) / SumExp(exp, z, i)
  }

  lemma {:induction false} SumPositive(n: nat, f: int -> real)
    requires n > 0 && forall k | 0 <= k < n :: f(k) > 0.0
    ensures Sum(n, f) > 0.0
  {
    if n > 1 { SumPositive(n - 1, f); }
  }

  lemma SumExpPositive(exp: RealFn, log: RealFn, z: Matrix, i: int)
    requires ExpLog(exp, log) && z.cols > 0
    ensures SumExp(exp, z, i) > 0.0
  {
    SumPositive(z.cols, ExpTerms(exp, z, i, 0.0));
  }

  lemma {:induction false} SumQuotient(n: nat, f: int -> real, g: int -> real, d: real)
    requires d != 0.0 && forall k | 0 <= k < n :: g(k) == f(k) / d
    ensures Sum(n, g) == Sum(n, f) / d
  {
    if n > 0 { SumQuotient(n - 1, f, g, d); }
  }

  function Probabilities(exp: RealFn, z: Matrix, i: int): int -> real
    requires SumExp(exp, z, i) != 0.0
  {
    k => if SumExp(exp, z, i) != 0.0 then Softmax(exp, z, i, k) else 0.0
  }

  /** The probabilities of a row add up to 1. */
  lemma SoftmaxSumsToOne(exp: RealFn, log: RealFn, z: Matrix, i: int)
    requires ExpLog(exp, log) && z.cols > 0
    ensures SumExp(exp, z, i) > 0.0 && Sum(z.cols, Probabilities(exp, z, i)) == 1.0
  {
    SumExpPositive(exp, log, z, i);
    hide ExpLog, Sum;
    var d, f, g := SumExp(exp, z, i), ExpTerms(exp, z, i, 0.0), Probabilities(exp, z, i);
    forall k | 0 <= k < z.cols ensures g(k) == f(k) / d {
      assert At(z, i, k) - 0.0 == At(z, i, k);
    }
    SumQuotient(z.cols, f, g, d);
    assert Sum(z.cols, f) == d && d / d == 1.0;
  }

  /** They are positive and in the proportions of the exponentials of the logits. */
  lemma SoftmaxProportions(exp: RealFn, log: RealFn, z: Matrix, i: int, j: int, k: int)
    requires ExpLog(exp, log) && z.cols > 0
    ensures SumExp(exp, z, i) > 0.0 && Softmax(exp, z, i, j) > 0.0
    ensures Softmax(exp, z, i, j) * exp(At(z, i, k)) == Softmax(exp, z, i, k) * exp(At(z, i, j))
  {
    SumExpPositive(exp, log, z, i);
    assert exp(At(z, i, j)) > 0.0;
    hide ExpLog, SumExp;
    SameProportion(exp(At(z, i, j)), exp(At(z, i, k)), SumExp(exp, z, i));
  }

  lemma SameProportion(x: real, y: real, d: real)
    requires d != 0.0
    ensures (x / d) * y == (y / d) * x
  {
    assert (x / d) * y == (x * y) / d && (y / d) * x == (x * y) / d;
  }

  lemma LogOfProduct(exp: RealFn, log: RealFn, x: real, y: real)
    requires ExpLog(exp, log) && x > 0.0 && y > 0.0
    ensures log(x * y) == log(x) + log(y)
  {
    assert LogMultiplies(log, x, y);
  }

  /** A token's loss is minus the log of its label's probability. */
  lemma NllIsNegativeLog(exp: RealFn, log: RealFn, z: Matrix, i: int, y: int)
    requires ExpLog(exp, log) && z.cols > 0 && y != IGNORE_INDEX
    ensures SumExp(exp, z, i) > 0.0 && Softmax(exp, z, i, y) > 0.0
    ensures Nll(exp, log, z, i, y) == -log(Softmax(exp, z, i, y))
  {
    SoftmaxProportions(exp, log, z, i, y, y);
    var s, p := SumExp(exp, z, i), Softmax(exp, z, i, y);
    var l := At(z, i, y);
    assert exp(l) > 0.0 && p == exp(l) / s && s * p == exp(l);
    LogOfProduct(exp, log, s, p);
    assert LogOfExp(exp, log, l);
  }

  /** A shift of the logits factors out of the sum. */
  lemma ShiftedSum(exp: RealFn, log: RealFn, z: Matrix, i: int, m: real)
    requires ExpLog(exp, log)
    ensures Sum(z.cols, ExpTerms(exp, z, i, m)) == exp(-m) * SumExp(exp, z, i)
  {
    hide ExpLog;
    hide Sum;
    var f, g, e := ExpTerms(exp, z, i, m), ExpTerms(exp, z, i, 0.0), exp(-m);
    SumScale(z.cols, e, g);
    forall k | 0 <= k < z.cols ensures f(k) == e * g(k) {
      ShiftedTerm(exp, log, At(z, i, k), m);
    }
    SumExt(z.cols, f, k => e * g(k));
  }

  lemma ShiftedTerm(exp: RealFn, log: RealFn, x: real, m: real)
    requires ExpLog(exp, log)
    ensures exp(x - m) == exp(-m) * exp(x - 0.0)
  {
    assert ExpAdds(exp, -m, x);
    assert -m + x == x - m && x - 0.0 == x;
  }

  /** The shift cancels in the log-probability. */
  lemma ShiftCancels(exp: RealFn, log: RealFn, z: Matrix, i: int, j: int, m: real)
    requires ExpLog(exp, log) && z.cols > 0
    ensures At(z, i, j) - m - log(Sum(z.cols, ExpTerms(exp, z, i, m))) == At(z, i, j) - log(SumExp(exp, z, i))
  {
    ShiftedSum(exp, log, z, i, m);
    SumExpPositive(exp, log, z, i);
    assert LogMultiplies(log, exp(-m), SumExp(exp, z, i)) && LogOfExp(exp, log, -m);
  }

  // ---------- the collectives ----------

  /** torch.amax over the local classes. */
  function RowMaxUpTo(a: Matrix, i: int, n: nat): real
    requires n > 0
  {
    if n == 1 then At(a, i, 0) else MaxOf(RowMaxUpTo(a, i, n - 1), At(a, i, n - 1))
  }

  function MaxOf(x: real, y: real): real {
    if x < y then y else x
  }

  /** all_reduce with MAX. */
  function GlobalMax(locals: seq<Matrix>, i: int): real
    requires locals != [] && forall r | 0 <= r < |locals| :: locals[r].cols > 0
  {
    var last := locals[|locals| - 1];
    var here := RowMaxUpTo(last, i, last.cols);
    if |locals| == 1 then here else MaxOf(GlobalMax(locals[..|locals| - 1], i), here)
  }

  lemma {:induction false} RowMaxBounds(a: Matrix, i: int, n: nat, k: nat)
    requires k < n
    ensures At(a, i, k) <= RowMaxUpTo(a, i, n)
  {
    if k < n - 1 { RowMaxBounds(a, i, n - 1, k); }
  }

  /** No shifted logit is positive, so no exponential overflows. */
  lemma {:induction false} GlobalMaxBounds(locals: seq<Matrix>, i: int, r: nat, k: nat)
    requires forall q | 0 <= q < |locals| :: locals[q].cols > 0
    requires r < |locals| && k < locals[r].cols
    ensures At(locals[r], i, k) - GlobalMax(locals, i) <= 0.0
    decreases |locals|
  {
    var n := |locals| - 1;
    if r == n { RowMaxBounds(locals[n], i, locals[n].cols, k); } else { GlobalMaxBounds(locals[..n], i, r, k); }
  }

  /** all_reduce with SUM of the ranks' shifted exponentials. */
  function ShiftedSumExp(exp: RealFn, locals: seq<Matrix>, i: int, m: real): real {
    Sum(|locals|, RankSums(exp, locals, i, m))
  }

  function RankSums(exp: RealFn, locals: seq<Matrix>, i: int, m: real): int -> real {
    r => if 0 <= r < |locals| then Sum(locals[r].cols, ExpTerms(exp, locals[r], i, m)) else 0.0
  }

  predicate Shards(z: Matrix, locals: seq<Matrix>) {
    locals != [] && locals == AllShards(z, |locals|) && forall r | 0 <= r < |locals| :: locals[r].cols > 0
  }

  lemma SumsOverRanks(exp: RealFn, z: Matrix, locals: seq<Matrix>, i: int, m: real)
    requires Shards(z, locals) && 0 <= i < z.rows
    ensures ShiftedSumExp(exp, locals, i, m) == Sum(z.cols, ExpTerms(exp, z, i, m))
  {
    var n, f, parts := |locals|, ExpTerms(exp, z, i, m), RankSums(exp, locals, i, m);
    forall r {:trigger parts(r)} | 0 <= r < n
      ensures parts(r) == SumFrom(Start(z.cols, n, r), LocalSize(z.cols, n, r), f)
    {
      RankSumIs(exp, z, n, r, i, m);
    }
    SumOverShards(z.cols, n, n, f, parts);
    ShardsCover(z.cols, n);
  }

  lemma RankSumIs(exp: RealFn, z: Matrix, n: nat, r: nat, i: int, m: real)
    requires r < n && 0 <= i < z.rows
    ensures SumFrom(Start(z.cols, n, r), LocalSize(z.cols, n, r), ExpTerms(exp, z, i, m)) ==
            Sum(VocabShard(z, n, r).cols, ExpTerms(exp, VocabShard(z, n, r), i, m))
  {
    var f, g := ExpTerms(exp, z, i, m), ExpTerms(exp, VocabShard(z, n, r), i, m);
    forall k | 0 <= k < LocalSize(z.cols, n, r) ensures f(Start(z.cols, n, r) + k) == g(k) { }
    SumFromExt(Start(z.cols, n, r), LocalSize(z.cols, n, r), f, g);
  }

  function LogProb(exp: RealFn, log: RealFn, locals: seq<Matrix>, r: nat, i: int, k: int): real
    requires r < |locals| && forall q | 0 <= q < |locals| :: locals[q].cols > 0
  {
    var m := GlobalMax(locals, i);
    At(locals[r], i, k) - m - log(ShiftedSumExp(exp, locals, i, m))
  }

  /** log_probs on one rank. */
  function LogProbs(exp: RealFn, log: RealFn, locals: seq<Matrix>, r: nat): (m: Matrix)
    requires r < |locals| && forall q | 0 <= q < |locals| :: locals[q].cols > 0
    ensures m.rows == locals[r].rows && m.cols == locals[r].cols
    ensures forall i, k | 0 <= i < m.rows && 0 <= k < m.cols :: At(m, i, k) == LogProb(exp, log, locals, r, i, k)
  {
    Build(locals[r].rows, locals[r].cols, (i, k) => LogProb(exp, log, locals, r, i, k))
  }

  /** The distributed log-softmax is the shard of the unsharded one. */
  lemma LogProbsAreShards(exp: RealFn, log: RealFn, z: Matrix, locals: seq<Matrix>, r: nat)
    requires ExpLog(exp, log) && Shards(z, locals) && r < |locals|
    ensures LogProbs(exp, log, locals, r) == VocabShard(LogSoftmax(exp, log, z), |locals|, r)
  {
    hide Build;
    var n := |locals|;
    var l, m := LogProbs(exp, log, locals, r), VocabShard(LogSoftmax(exp, log, z), n, r);
    forall i, k | 0 <= i < l.rows && 0 <= k < l.cols ensures At(l, i, k) == At(m, i, k) {
      var shift := GlobalMax(locals, i);
      SumsOverRanks(exp, z, locals, i, shift);
      ShardsCover(z.cols, n);
      StartGrows(z.cols, n, r + 1, n);
      ShardsTouch(z.cols, n, r);
      ShiftCancels(exp, log, z, i, Start(z.cols, n, r) + k, shift);
    }
    MatrixEq(l, m);
  }

  // ---------- labels ----------

  /** torch.where(labels != IGNORE_INDEX, labels, 0) */
  function Safe(y: int): int {
    if y != IGNORE_INDEX then y else 0
  }

  predicate InShard(start: nat, size: nat, y: int) {
    start <= Safe(y) < start + size
  }

  predicate GoodLabel(vocab: nat, y: int) {
    y == IGNORE_INDEX || 0 <= y < vocab
  }

  function LocalLabel(start: nat, size: nat, y: int): int {
    if InShard(start, size, y) then Safe(y) - start else 0
  }

  /** Local labels, with those of other shards overwritten by 0. */
  method MaskLabels(labels: seq<int>, start: nat, size: nat) returns (local: array<int>, outOfRange: array<bool>)
    ensures fresh(local) && fresh(outOfRange) && local.Length == outOfRange.Length == |labels|
    ensures forall i | 0 <= i < |labels| :: outOfRange[i] == !InShard(start, size, labels[i])
    ensures forall i | 0 <= i < |labels| :: local[i] == LocalLabel(start, size, labels[i])
  {
    local, outOfRange := new int[|labels|], new bool[|labels|];
    for i := 0 to |labels|
      invariant forall k | 0 <= k < i :: outOfRange[k] == !InShard(start, size, labels[k]) && local[k] == Safe(labels[k]) - start
    {
      outOfRange[i] := Safe(labels[i]) < start || Safe(labels[i]) >= start + size;
      local[i] := Safe(labels[i]) - start;
    }
    for i := 0 to |labels|
      invariant forall k | 0 <= k < |labels| :: outOfRange[k] == !InShard(start, size, labels[k])
      invariant forall k | 0 <= k < i :: local[k] == LocalLabel(start, size, labels[k])
      invariant forall k | i <= k < |labels| :: local[k] == Safe(labels[k]) - start
    {
      if outOfRange[i] {
        local[i] := 0;
      }
    }
  }

  /** What a rank contributes for a token: the label's log-probability if it owns the label. */
  function Contribution(lp: Matrix, start: nat, size: nat, i: int, y: int): real {
    if InShard(start, size, y) then At(lp, i, Safe(y) - start) else 0.0
  }

  method Gather(lp: Matrix, labels: seq<int>, start: nat, size: nat) returns (picked: seq<real>)
    requires size > 0 && lp.cols == size && lp.rows == |labels|
    ensures |picked| == |labels|
    ensures forall i | 0 <= i < |labels| :: picked[i] == Contribution(lp, start, size, i, labels[i])
  {
    var local, outOfRange := MaskLabels(labels, start, size);
    picked := [];
    for i := 0 to |labels|
      invariant |picked| == i
      invariant forall k | 0 <= k < i :: picked[k] == Contribution(lp, start, size, k, labels[k])
    {
      var value := At(lp, i, local[i]);
      if outOfRange[i] {
        value := 0.0;
      }
      picked := picked + [value];
    }
  }

  /** all_reduce with SUM of one token's contributions. */
  function Contributions(lp: Matrix, n: nat, i: int, y: int): int -> real
    requires n > 0
  {
    r => if 0 <= r < n then Contribution(VocabShard(lp, n, r), Start(lp.cols, n, r), LocalSize(lp.cols, n, r), i, y) else 0.0
  }

  /** Exactly one rank contributes, and it contributes the label's log-probability. */
  lemma OneContribution(lp: Matrix, n: nat, i: nat, y: int)
    requires n > 0 && i < lp.rows && 0 <= Safe(y) < lp.cols
    ensures Sum(n, Contributions(lp, n, i, y)) == At(lp, i, Safe(y))
  {
    ShardsPartition(lp.cols, n, Safe(y));
    var r :| 0 <= r < n && Owns(lp.cols, n, r, Safe(y));
    var f := Contributions(lp, n, i, y);
    forall q | 0 <= q < n ensures f(q) == if q == r then At(lp, i, Safe(y)) else 0.0 {
      ContributionIs(lp, n, q, i, y);
    }
    SumSingle(n, r, f);
  }

  lemma ContributionIs(lp: Matrix, n: nat, q: nat, i: nat, y: int)
    requires q < n && i < lp.rows && 0 <= Safe(y) < lp.cols
    ensures Contributions(lp, n, i, y)(q) == if Owns(lp.cols, n, q, Safe(y)) then At(lp, i, Safe(y)) else 0.0
  {
    hide Build, Start, LocalSize;
    ShardsTouch(lp.cols, n, q);
  }

  // ---------- the gradient ----------

  /** (softmax - onehot) times upstream, zero rows for ignored labels. */
  function GradEntry(exp: RealFn, lp: Matrix, labels: seq<int>, up: seq<real>, i: int, j: int): real
    requires 0 <= i < |labels| && |up| == |labels|
  {
    LocalGrad(exp(At(lp, i, j)), j, labels[i], up[i])
  }

  /** One entry of it, at class j of a token with label y. */
  function LocalGrad(probability: real, j: int, y: int, up: real): real {
    (probability - if j == Safe(y) then 1.0 else 0.0) * if y != IGNORE_INDEX then up else 0.0
  }

  function CrossEntropyGrad(exp: RealFn, lp: Matrix, labels: seq<int>, up: seq<real>): (m: Matrix)
    requires lp.rows == |labels| == |up|
    ensures m.rows == lp.rows && m.cols == lp.cols
    ensures forall i, j | 0 <= i < m.rows && 0 <= j < m.cols :: At(m, i, j) == GradEntry(exp, lp, labels, up, i, j)
  {
    Build(lp.rows, lp.cols, (i, j) => if 0 <= i < |labels| then GradEntry(exp, lp, labels, up, i, j) else 0.0)
  }

  /** exp of the log-softmax is the softmax. */
  lemma ExpOfLogSoftmax(exp: RealFn, log: RealFn, z: Matrix, i: nat, j: nat)
    requires ExpLog(exp, log) && i < z.rows && j < z.cols
    ensures SumExp(exp, z, i) > 0.0 && exp(At(LogSoftmax(exp, log, z), i, j)) == Softmax(exp, z, i, j)
  {
    SumExpPositive(exp, log, z, i);
    var s, x, l := SumExp(exp, z, i), At(z, i, j), log(SumExp(exp, z, i));
    assert ExpAdds(exp, x - l, l) && ExpOfLog(exp, log, s);
    assert x - l + l == x;
    assert exp(x) == exp(x - l) * s;
  }

  /** Rank-local fused backward from the saved log-probabilities. */
  method GradOnRank(exp: RealFn, lp: Matrix, labels: seq<int>, start: nat, size: nat, up: seq<real>) returns (grad: Matrix)
    requires size > 0 && lp.cols == size && lp.rows == |labels| == |up|
    ensures grad.rows == lp.rows && grad.cols == lp.cols
    ensures forall i, k | 0 <= i < lp.rows && 0 <= k < size ::
      At(grad, i, k) == LocalGrad(exp(At(lp, i, k)), start + k, labels[i], up[i])
  {
    var local, outOfRange := MaskLabels(labels, start, size);
    var gradInput := Zero(lp.rows, lp.cols);
    for i := 0 to |labels|
      invariant gradInput.rows == lp.rows && gradInput.cols == lp.cols
      invariant forall q, k | 0 <= q < lp.rows && 0 <= k < size ::
        At(gradInput, q, k) == if q < i && start + k == Safe(labels[q]) then -1.0 else 0.0
    {
      var update := (if outOfRange[i] then 1.0 else 0.0) - 1.0;
      gradInput := SetEntry(gradInput, i, local[i], update);
    }
    var g := gradInput;
    grad := Build(lp.rows, lp.cols, (i, k) =>
      (At(g, i, k) + exp(At(lp, i, k))) * if 0 <= i < |labels| && labels[i] != IGNORE_INDEX then up[i] else 0.0);
  }

  /** a[i, j] = x */
  function SetEntry(a: Matrix, i: nat, j: nat, x: real): (m: Matrix)
    requires i < a.rows && j < a.cols
    ensures m.rows == a.rows && m.cols == a.cols
    ensures forall p, q | 0 <= p < a.rows && 0 <= q < a.cols :: At(m, p, q) == if p == i && q == j then x else At(a, p, q)
  {
    Mat(a.rows, a.cols, a.data[i := a.data[i][j := x]])
  }

  // ---------- the autograd function on all ranks ----------

  datatype LossError = WrongLocalSize(rank: nat) | EmptyShard(rank: nat) | BadLabel

  predicate GoodShapes(vocab: nat, locals: seq<Matrix>) {
    locals != [] && forall r | 0 <= r < |locals| :: locals[r].cols == LocalSize(vocab, |locals|, r) && locals[r].cols > 0
  }

  predicate GoodLabels(vocab: nat, labels: seq<int>) {
    forall i | 0 <= i < |labels| :: GoodLabel(vocab, labels[i])
  }

  method CheckInputs(vocab: nat, locals: seq<Matrix>, labels: seq<int>) returns (error: Option<LossError>)
    requires locals != []
    ensures error.None? <==> GoodShapes(vocab, locals) && GoodLabels(vocab, labels)
    ensures error.None? ==> forall i | 0 <= i < |labels| :: labels[i] == -100 || 0 <= labels[i] < vocab
    ensures error == Some(BadLabel) ==> exists i :: 0 <= i < |labels| && labels[i] != -100 && !(0 <= labels[i] < vocab)
    ensures error.Some? && error.value.EmptyShard? ==> var r := error.value.rank; r < |locals| && locals[r].cols == 0
    ensures error.Some? && error.value.WrongLocalSize? ==>
      var r := error.value.rank; r < |locals| && locals[r].cols != LocalSize(vocab, |locals|, r)
  {
    for r := 0 to |locals|
      invariant forall q | 0 <= q < r :: locals[q].cols == LocalSize(vocab, |locals|, q) && locals[q].cols > 0
    {
      if locals[r].cols != LocalSize(vocab, |locals|, r) {
        return Some(WrongLocalSize(r));
      }
      if locals[r].cols == 0 {
        return Some(EmptyShard(r));
      }
    }
    for i := 0 to |labels|
      invariant forall k | 0 <= k < i :: GoodLabel(vocab, labels[k])
    {
      if !GoodLabel(vocab, labels[i]) {
        return Some(BadLabel);
      }
    }
    error := None;
  }

  class LossParallelCrossEntropy {
    const exp: RealFn
    const log: RealFn
    var logProbs: seq<Matrix>
    var labels: seq<int>
    ghost var z: Matrix  // the unsharded logits

    constructor (exp: RealFn, log: RealFn)
      requires ExpLog(exp, log)
      ensures this.exp == exp && this.log == log && logProbs == []
    {
      this.exp, this.log := exp, log;
      logProbs, labels, z := [], [], Mat(0, 0, []);
    }

    /** The saved log-probabilities are the shards of the unsharded log-softmax. */
    ghost predicate Valid()
      reads this
    {
      && ExpLog(exp, log) && logProbs != [] && z.rows == |labels|
      && logProbs == AllShards(LogSoftmax(exp, log, z), |logProbs|)
      && forall r | 0 <= r < |logProbs| :: logProbs[r].cols > 0
    }

    /** Per-token losses on every rank: those of the unsharded cross-entropy. */
    method Forward(vocab: nat, locals: seq<Matrix>, labels: seq<int>, ghost z: Matrix) returns (r: Result<seq<real>, LossError>)
      requires ExpLog(exp, log) && locals != [] && z.cols == vocab && z.rows == |labels|
      requires GoodShapes(vocab, locals) ==> locals == AllShards(z, |locals|)
      modifies this
      ensures r.Ok? <==> GoodShapes(vocab, locals) && GoodLabels(vocab, labels)
      ensures r.Ok? ==> Valid() && this.z == z && this.labels == labels && |logProbs| == |locals|
      ensures r.Ok? ==> |r.value| == |labels| && forall i | 0 <= i < |labels| :: r.value[i] == Nll(exp, log, z, i, labels[i])
    {
      var error := CheckInputs(vocab, locals, labels);
      if error.Some? {
        return Err(error.value);
      }
      hide Nll, LogSoftmax, GatheredFrom, LogProbsOnRanks;
      assert Shards(z, locals);
      assert z.cols > 0 by { SizesPositive(z, |locals|); }
      var lps := LogProbsOnRanks(exp, log, locals);
      ShardsOfLogSoftmax(exp, log, z, locals);
      var picked := GatherOnRanks(vocab, lps, labels, LogSoftmax(exp, log, z));
      var nlls := TokenLosses(labels, picked, exp, log, z);
      logProbs, this.labels, this.z := lps, labels, z;
      r := Ok(nlls);
    }

    /** Fused backward on every rank, without collectives: the shards of the unsharded gradient. */
    method Backward(vocab: nat, gradOutput: GradOutput) returns (grads: seq<Matrix>)
      requires Valid() && vocab == z.cols && (gradOutput.TokenGrads? ==> |gradOutput.gs| == |labels|)
      ensures grads == AllShards(CrossEntropyGrad(exp, LogSoftmax(exp, log, z), labels, Upstream(gradOutput, |labels|)), |logProbs|)
    {
      hide ExpLog, LogSoftmax, CrossEntropyGrad, VocabShard;
      var up, n := Upstream(gradOutput, |labels|), |logProbs|;
      ghost var whole := CrossEntropyGrad(exp, LogSoftmax(exp, log, z), labels, up);
      grads := [];
      for r := 0 to n
        invariant |grads| == r && forall q | 0 <= q < r :: grads[q] == VocabShard(whole, n, q)
      {
        var grad := GradShard(vocab, r, up);
        grads := grads + [grad];
      }
      assert grads == AllShards(whole, n);
    }

    method GradShard(vocab: nat, r: nat, up: seq<real>) returns (grad: Matrix)
      requires Valid() && vocab == z.cols && |up| == |labels| && r < |logProbs|
      ensures grad == VocabShard(CrossEntropyGrad(exp, LogSoftmax(exp, log, z), labels, up), |logProbs|, r)
    {
      hide CrossEntropyGrad, Start, LocalSize, Build, ExpLog;
      grad := GradOnRank(exp, logProbs[r], labels, Start(vocab, |logProbs|, r), LocalSize(vocab, |logProbs|, r), up);
      GradIsShard(exp, LogSoftmax(exp, log, z), labels, up, |logProbs|, r, grad);
    }
  }

  /** The gradient on rank r is the shard of the unsharded one. */
  lemma GradIsShard(exp: RealFn, lp: Matrix, labels: seq<int>, up: seq<real>, n: nat, r: nat, grad: Matrix)
    requires r < n && lp.rows == |labels| == |up|
    requires grad.rows == lp.rows && grad.cols == LocalSize(lp.cols, n, r)
    requires forall i, k | 0 <= i < grad.rows && 0 <= k < grad.cols ::
      At(grad, i, k) == LocalGrad(exp(At(VocabShard(lp, n, r), i, k)), Start(lp.cols, n, r) + k, labels[i], up[i])
    ensures grad == VocabShard(CrossEntropyGrad(exp, lp, labels, up), n, r)
  {
    hide Build, Start, LocalSize, LocalGrad;
    var shard, whole := VocabShard(lp, n, r), CrossEntropyGrad(exp, lp, labels, up);
    ShardFits(lp.cols, n, r);
    forall i, k | 0 <= i < grad.rows && 0 <= k < grad.cols ensures At(grad, i, k) == At(VocabShard(whole, n, r), i, k) {
      var j := Start(lp.cols, n, r) + k;
      assert At(shard, i, k) == At(lp, i, j);
      assert At(whole, i, j) == GradEntry(exp, lp, labels, up, i, j);
    }
    MatrixEq(grad, VocabShard(whole, n, r));
  }

  lemma ShardFits(vocab: nat, n: nat, r: nat)
    requires r < n
    ensures Start(vocab, n, r) + LocalSize(vocab, n, r) <= vocab
  {
  }

  /** Each entry of the gradient is the softmax, less one at the label, times upstream. */
  lemma GradIsSoftmaxLessOneHot(exp: RealFn, log: RealFn, z: Matrix, labels: seq<int>, up: seq<real>, i: nat, j: nat)
    requires ExpLog(exp, log) && z.rows == |labels| == |up| && i < z.rows && j < z.cols
    ensures SumExp(exp, z, i) > 0.0
    ensures At(CrossEntropyGrad(exp, LogSoftmax(exp, log, z), labels, up), i, j) ==
            if labels[i] == IGNORE_INDEX then 0.0
            else (Softmax(exp, z, i, j) - if j == labels[i] then 1.0 else 0.0) * up[i]
  {
    hide Build;
    ExpOfLogSoftmax(exp, log, z, i, j);
  }

  datatype GradOutput = ScalarGrad(g: real) | TokenGrads(gs: seq<real>)

  /** The upstream gradient of each token: "sum" broadcasts a scalar. */
  function Upstream(g: GradOutput, tokens: nat): (up: seq<real>)
    requires g.TokenGrads? ==> |g.gs| == tokens
    ensures |up| == tokens
  {
    match g case ScalarGrad(x) => seq(tokens, _ => x) case TokenGrads(gs) => gs
  }

  lemma SizesPositive(z: Matrix, n: nat)
    requires n > 0 && LocalSize(z.cols, n, 0) > 0
    ensures z.cols > 0
  {
  }

  function LogProbsOnRanks(exp: RealFn, log: RealFn, locals: seq<Matrix>): (lps: seq<Matrix>)
    requires forall q | 0 <= q < |locals| :: locals[q].cols > 0
    ensures |lps| == |locals| && forall r | 0 <= r < |locals| :: lps[r] == LogProbs(exp, log, locals, r)
  {
    seq(|locals|, r requires 0 <= r < |locals| => LogProbs(exp, log, locals, r))
  }

  lemma ShardsOfLogSoftmax(exp: RealFn, log: RealFn, z: Matrix, locals: seq<Matrix>)
    requires ExpLog(exp, log) && Shards(z, locals)
    ensures LogProbsOnRanks(exp, log, locals) == AllShards(LogSoftmax(exp, log, z), |locals|)
  {
    var lps := LogProbsOnRanks(exp, log, locals);
    forall r | 0 <= r < |locals| ensures lps[r] == AllShards(LogSoftmax(exp, log, z), |locals|)[r] {
      LogProbsAreShards(exp, log, z, locals, r);
    }
  }

  /** Entry i of every rank. */
  function Column(picked: seq<seq<real>>, i: int): int -> real {
    r => if 0 <= r < |picked| && 0 <= i < |picked[r]| then picked[r][i] else 0.0
  }

  predicate GatheredFrom(picked: seq<seq<real>>, lp: Matrix, labels: seq<int>) {
    picked != [] && forall r | 0 <= r < |picked| :: RankGathered(picked[r], lp, |picked|, r, labels)
  }

  predicate RankGathered(row: seq<real>, lp: Matrix, n: nat, r: nat, labels: seq<int>)
    requires r < n
  {
    |row| == |labels| && forall i | 0 <= i < |labels| :: row[i] == Contributions(lp, n, i, labels[i])(r)
  }

  lemma GatheredIsContribution(row: seq<real>, lp: Matrix, n: nat, r: nat, labels: seq<int>)
    requires r < n && |row| == |labels|
    requires forall i | 0 <= i < |labels| ::
      row[i] == Contribution(VocabShard(lp, n, r), Start(lp.cols, n, r), LocalSize(lp.cols, n, r), i, labels[i])
    ensures RankGathered(row, lp, n, r, labels)
  {
    forall i | 0 <= i < |labels| ensures row[i] == Contributions(lp, n, i, labels[i])(r) {
    }
  }

  method GatherOnRanks(vocab: nat, lps: seq<Matrix>, labels: seq<int>, ghost lp: Matrix) returns (picked: seq<seq<real>>)
    requires lps != [] && lps == AllShards(lp, |lps|) && lp.rows == |labels| && lp.cols == vocab
    requires forall r | 0 <= r < |lps| :: lps[r].cols > 0
    ensures |picked| == |lps| && GatheredFrom(picked, lp, labels)
  {
    picked := [];
    for r := 0 to |lps|
      invariant |picked| == r && forall q | 0 <= q < r :: RankGathered(picked[q], lp, |lps|, q, labels)
    {
      var local := Gather(lps[r], labels, Start(vocab, |lps|, r), LocalSize(vocab, |lps|, r));
      GatheredIsContribution(local, lp, |lps|, r, labels);
      picked := picked + [local];
    }
  }

  method TokenLosses(labels: seq<int>, picked: seq<seq<real>>, exp: RealFn, log: RealFn, ghost z: Matrix) returns (nlls: seq<real>)
    requires picked != [] && GatheredFrom(picked, LogSoftmax(exp, log, z), labels)
    requires z.rows == |labels| && GoodLabels(z.cols, labels) && z.cols > 0
    ensures |nlls| == |labels| && forall i | 0 <= i < |labels| :: nlls[i] == Nll(exp, log, z, i, labels[i])
  {
    nlls := [];
    for i := 0 to |labels|
      invariant |nlls| == i && forall k | 0 <= k < i :: nlls[k] == Nll(exp, log, z, k, labels[k])
    {
      var result := -Sum(|picked|, Column(picked, i));
      GatheredNll(exp, log, z, |picked|, picked, i, labels);
      nlls := nlls + [if labels[i] != IGNORE_INDEX then result else 0.0];
    }
  }

  lemma GatheredNll(exp: RealFn, log: RealFn, z: Matrix, n: nat, picked: seq<seq<real>>, i: nat, labels: seq<int>)
    requires |picked| == n > 0 && GatheredFrom(picked, LogSoftmax(exp, log, z), labels) && z.rows == |labels| && i < |labels|
    requires GoodLabel(z.cols, labels[i]) && z.cols > 0
    ensures (if labels[i] != IGNORE_INDEX then -Sum(n, Column(picked, i)) else 0.0) == Nll(exp, log, z, i, labels[i])
  {
    var lp := LogSoftmax(exp, log, z);
    OneContribution(lp, n, i, labels[i]);
    assert forall r | 0 <= r < n :: RankGathered(picked[r], lp, n, r, labels);
    SumExt(n, Column(picked, i), Contributions(lp, n, i, labels[i]));
  }
}
