/** How columns are cut into chunks of the ceiling size, possibly uneven: the vocabulary's tensor-parallel shards
    (the bounds computed in _LossParallelCrossEntropy.forward, torchtitan/components/loss.py) and torch.chunk. */
module VocabShards {
  import opened Matrices
  import opened Sums

  function ChunkSize(vocab: nat, ranks: nat): nat
    requires ranks > 0
  {
    (vocab + ranks - 1) / ranks
  }

  function Min(a: nat, b: nat): nat {
    if a < b then a else b
  }

  /** vocab_start of a rank; Offset(r, chunk) is chunk * r. */
  function Start(vocab: nat, ranks: nat, r: nat): nat
    requires ranks > 0
  {
    Min(vocab, Offset(r, ChunkSize(vocab, ranks)))
  }

  function LocalSize(vocab: nat, ranks: nat, r: nat): nat
    requires ranks > 0
  {
    Min(vocab, Start(vocab, ranks, r) + ChunkSize(vocab, ranks)) - Start(vocab, ranks, r)
  }

  lemma ShardsTouch(vocab: nat, ranks: nat, r: nat)
    requires ranks > 0
    ensures Start(vocab, ranks, 0) == 0 && Start(vocab, ranks, r) + LocalSize(vocab, ranks, r) == Start(vocab, ranks, r + 1)
  {
  }

  lemma ShardsCover(vocab: nat, ranks: nat)
    requires ranks > 0
    ensures Start(vocab, ranks, ranks) == vocab
  {
    var c := ChunkSize(vocab, ranks);
    OffsetIsProduct(ranks, c);
    CeilingCovers(vocab, ranks);
  }

  lemma CeilingCovers(n: nat, d: nat)
    requires d > 0
    ensures d * ((n + d - 1) / d) >= n
  {
    var q, m := (n + d - 1) / d, (n + d - 1) % d;
    assert n + d - 1 == d * q + m;
  }

  lemma {:induction false} StartGrows(vocab: nat, ranks: nat, q: nat, r: nat)
    requires ranks > 0 && q <= r
    ensures Start(vocab, ranks, q) <= Start(vocab, ranks, r)
    decreases r
  {
    if q < r {
      StartGrows(vocab, ranks, q, r - 1);
      ShardsTouch(vocab, ranks, r - 1);
    }
  }

  predicate Owns(vocab: nat, ranks: nat, r: nat, y: int)
    requires ranks > 0
  {
    Start(vocab, ranks, r) <= y < Start(vocab, ranks, r) + LocalSize(vocab, ranks, r)
  }

  /** Every class is owned by some rank ... */
  lemma {:induction false} OwnerUpTo(vocab: nat, ranks: nat, n: nat, y: nat) returns (r: nat)
    requires ranks > 0 && y < Start(vocab, ranks, n)
    ensures r < n && Owns(vocab, ranks, r, y)
  {
    ShardsTouch(vocab, ranks, n - 1);
    if y < Start(vocab, ranks, n - 1) { r := OwnerUpTo(vocab, ranks, n - 1, y); } else { r := n - 1; }
  }

  /** ... and by one only. */
  lemma OneOwner(vocab: nat, ranks: nat, q: nat, r: nat, y: int)
    requires ranks > 0 && Owns(vocab, ranks, q, y) && Owns(vocab, ranks, r, y)
    ensures q == r
  {
    ShardsTouch(vocab, ranks, q);
    ShardsTouch(vocab, ranks, r);
    if q < r { StartGrows(vocab, ranks, q + 1, r); }
    if r < q { StartGrows(vocab, ranks, r + 1, q); }
  }

  /** The shards partition the vocabulary: each class has exactly one owner. */
  lemma ShardsPartition(vocab: nat, ranks: nat, y: int)
    requires ranks > 0
    ensures 0 <= y < vocab <==> exists r :: 0 <= r < ranks && Owns(vocab, ranks, r, y)
    ensures forall q, r | 0 <= q < ranks && 0 <= r < ranks && Owns(vocab, ranks, q, y) && Owns(vocab, ranks, r, y) :: q == r
  {
    if 0 <= y < vocab {
      ShardsCover(vocab, ranks);
      var r := OwnerUpTo(vocab, ranks, ranks, y);
    }
    forall q, r | 0 <= q < ranks && 0 <= r < ranks && Owns(vocab, ranks, q, y) && Owns(vocab, ranks, r, y) ensures q == r {
      OneOwner(vocab, ranks, q, r, y);
    }
  }

  /** Summing each shard, then the ranks, is summing the whole vocabulary. */
  lemma {:induction false} SumOverShards(vocab: nat, ranks: nat, n: nat, f: int -> real, parts: int -> real)
    requires ranks > 0
    requires forall r {:trigger parts(r)} | 0 <= r < n :: parts(r) == SumFrom(Start(vocab, ranks, r), LocalSize(vocab, ranks, r), f)
    ensures Sum(n, parts) == Sum(Start(vocab, ranks, n), f)
  {
    hide LocalSize, ChunkSize;
    ShardsTouch(vocab, ranks, 0);
    hide Start;
    if n > 0 {
      SumOverShards(vocab, ranks, n - 1, f, parts);
      ShardsTouch(vocab, ranks, n - 1);
      SumSplit(Start(vocab, ranks, n - 1), LocalSize(vocab, ranks, n - 1), f);
    }
  }

  /** Rank r's columns. */
  function VocabShard(a: Matrix, ranks: nat, r: nat): (m: Matrix)
    requires r < ranks
    ensures m.rows == a.rows && m.cols == LocalSize(a.cols, ranks, r)
    ensures forall i, k | 0 <= i < m.rows && 0 <= k < m.cols :: At(m, i, k) == At(a, i, Start(a.cols, ranks, r) + k)
  {
    Cols(a, Start(a.cols, ranks, r), LocalSize(a.cols, ranks, r))
  }

  function AllShards(a: Matrix, ranks: nat): (s: seq<Matrix>)
    requires ranks > 0
    ensures |s| == ranks && forall r | 0 <= r < ranks :: s[r] == VocabShard(a, ranks, r)
  {
    seq(ranks, r requires 0 <= r < ranks => VocabShard(a, ranks, r))
  }
}
