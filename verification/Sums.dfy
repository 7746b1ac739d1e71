/** Finite sums of reals over an index range, with the laws block algebra needs. */
module Sums {

  /** f(0) + ... + f(n-1) */
  function Sum(n: nat, f: int -> real): real {
    if n == 0 then 0.0 else Sum(n - 1, f) + f(n - 1)
  }

  lemma {:induction false} SumExt(n: nat, f: int -> real, g: int -> real)
    requires forall i | 0 <= i < n :: f(i) == g(i)
    ensures Sum(n, f) == Sum(n, g)
  {
    if n > 0 { SumExt(n - 1, f, g); }
  }

  lemma {:induction false} SumZero(n: nat, f: int -> real)
    requires forall i | 0 <= i < n :: f(i) == 0.0
    ensures Sum(n, f) == 0.0
  {
    if n > 0 { SumZero(n - 1, f); }
  }

  lemma {:induction false} SumAdd(n: nat, f: int -> real, g: int -> real)
    ensures Sum(n, i => f(i) + g(i)) == Sum(n, f) + Sum(n, g)
  {
    if n > 0 { SumAdd(n - 1, f, g); }
  }

  lemma {:induction false} SumScale(n: nat, k: real, f: int -> real)
    ensures Sum(n, i => k * f(i)) == k * Sum(n, f)
  {
    if n > 0 { SumScale(n - 1, k, f); }
  }

  /** The order of two summations does not matter. */
  lemma {:induction false} SumSwap(m: nat, n: nat, f: (int, int) -> real)
    ensures Sum(m, i => Sum(n, j => f(i, j))) == Sum(n, j => Sum(m, i => f(i, j)))
  {
    if m == 0 {
      SumZero(n, j => Sum(m, i => f(i, j)));
    } else {
      SumSwap(m - 1, n, f);
      var head := j => Sum(m - 1, i => f(i, j));
      var last := j => f(m - 1, j);
      SumAdd(n, head, last);
      SumExt(n, j => Sum(m, i => f(i, j)), j => head(j) + last(j));
    }
  }

  /** f(lo) + ... + f(lo + n - 1) */
  function SumFrom(lo: int, n: nat, f: int -> real): real {
    if n == 0 then 0.0 else SumFrom(lo, n - 1, f) + f(lo + n - 1)
  }

  lemma {:induction false} SumFromExt(lo: int, n: nat, f: int -> real, g: int -> real)
    requires forall i | 0 <= i < n :: f(lo + i) == g(i)
    ensures SumFrom(lo, n, f) == Sum(n, g)
  {
    if n > 0 {
      SumFromExt(lo, n - 1, f, g);
      assert f(lo + (n - 1)) == g(n - 1);
    }
  }

  lemma {:induction false} SumSplit(m: nat, n: nat, f: int -> real)
    ensures Sum(m + n, f) == Sum(m, f) + SumFrom(m, n, f)
  {
    if n > 0 { SumSplit(m, n - 1, f); }
  }

  // ---------- even splits, by repeated addition so that no product of variables is needed ----------

  /** r blocks of `size`: the product r * size. */
  function Offset(r: nat, size: nat): nat {
    if r == 0 then 0 else Offset(r - 1, size) + size
  }

  /** n splits evenly into `parts` blocks. */
  predicate Splits(n: nat, parts: nat)
    requires parts > 0
  {
    n == 0 || (n >= parts && Splits(n - parts, parts))
  }

  /** The size of one block. */
  function Share(n: nat, parts: nat): (size: nat)
    requires parts > 0 && Splits(n, parts)
  {
    if n == 0 then 0 else 1 + Share(n - parts, parts)
  }

  lemma {:induction false} OffsetIsProduct(r: nat, size: nat)
    ensures Offset(r, size) == r * size
  {
    if r > 0 {
      OffsetIsProduct(r - 1, size);
      assert r * size == (r - 1) * size + size;
    }
  }

  /** Splits is divisibility and Share is the quotient. */
  lemma {:induction false} SplitsIsDivisibility(n: nat, parts: nat)
    requires parts > 0
    ensures Splits(n, parts) <==> n % parts == 0
    ensures Splits(n, parts) ==> Share(n, parts) == n / parts
  {
    if n >= parts {
      SplitsIsDivisibility(n - parts, parts);
      assert n % parts == (n - parts) % parts && n / parts == (n - parts) / parts + 1 by { StepDown(n, parts); }
    }
  }

  lemma StepDown(n: nat, parts: nat)
    requires n >= parts > 0
    ensures n % parts == (n - parts) % parts && n / parts == (n - parts) / parts + 1
  {
    var q, m := (n - parts) / parts, (n - parts) % parts;
    assert n == (q + 1) * parts + m;
    QuotientUnique(n, parts, q + 1, m);
  }

  lemma ProductAtLeast(e: nat, d: nat)
    requires e > 0
    ensures e * d >= d
  {
  }

  lemma NegativeProduct(e: int, d: nat)
    requires e < 0
    ensures e * d + d <= 0
  {
  }

  lemma QuotientUnique(n: nat, d: nat, q: int, m: nat)
    requires d > 0 && n == q * d + m && m < d
    ensures n / d == q && n % d == m
  {
    var e := n / d - q;
    assert e * d == m - n % d;
    if e > 0 { ProductAtLeast(e, d); }
    if e < 0 { NegativeProduct(e, d); }
  }

  lemma {:induction false} OffsetSwap(r: nat, size: nat)
    ensures Offset(r, size + 1) == Offset(r, size) + r
  {
    if r > 0 { OffsetSwap(r - 1, size); }
  }

  /** `parts` shares make up the whole. */
  lemma {:induction false} SharesCover(n: nat, parts: nat)
    requires parts > 0 && Splits(n, parts)
    ensures Offset(parts, Share(n, parts)) == n
  {
    if n == 0 {
      OffsetZero(parts);
    } else {
      SharesCover(n - parts, parts);
      OffsetSwap(parts, Share(n - parts, parts));
    }
  }

  lemma {:induction false} OffsetZero(r: nat)
    ensures Offset(r, 0) == 0
  {
    if r > 0 { OffsetZero(r - 1); }
  }

  /** Block r ends where block r + 1 starts, and inside the whole. */
  lemma {:induction false} OffsetBound(r: nat, parts: nat, size: nat)
    requires r < parts
    ensures Offset(r, size) + size <= Offset(parts, size)
  {
    if r < parts - 1 { OffsetBound(r, parts - 1, size); }
  }

  lemma ShareBound(r: nat, n: nat, parts: nat)
    requires r < parts && Splits(n, parts)
    ensures Offset(r, Share(n, parts)) + Share(n, parts) <= n
  {
    SharesCover(n, parts);
    OffsetBound(r, parts, Share(n, parts));
  }

  /** The block an index lies in. */
  lemma {:induction false} Locate(i: nat, parts: nat, size: nat) returns (r: nat, k: nat)
    requires i < Offset(parts, size)
    ensures r < parts && k < size && i == Offset(r, size) + k
  {
    if i < Offset(parts - 1, size) {
      r, k := Locate(i, parts - 1, size);
    } else {
      r, k := parts - 1, i - Offset(parts - 1, size);
    }
  }

  /** The block of `size` elements that index i lies in, and its position there. */
  function BlockOf(i: int, size: nat): nat {
    if size == 0 || i < size then 0 else 1 + BlockOf(i - size, size)
  }

  function Within(i: int, size: nat): int {
    if size == 0 || i < size then i else Within(i - size, size)
  }

  lemma {:induction false} BlockOfOffset(r: nat, size: nat, k: nat)
    requires k < size
    ensures BlockOf(Offset(r, size) + k, size) == r && Within(Offset(r, size) + k, size) == k
  {
    if r > 0 { BlockOfOffset(r - 1, size, k); }
  }

  /** Summing the sums of r blocks of k terms is summing all of them. */
  lemma {:induction false} SumBlocks(r: nat, k: nat, f: int -> real, blocks: int -> real)
    requires forall b {:trigger blocks(b)} | 0 <= b < r :: blocks(b) == SumFrom(Offset(b, k), k, f)
    ensures Sum(r, blocks) == Sum(Offset(r, k), f)
  {
    if r > 0 {
      SumBlocks(r - 1, k, f, blocks);
      SumSplit(Offset(r - 1, k), k, f);
    }
  }

  /** A sum with a single nonzero term is that term. */
  lemma {:induction false} SumSingle(n: nat, k: nat, f: int -> real)
    requires k < n
    requires forall i | 0 <= i < n && i != k :: f(i) == 0.0
    ensures Sum(n, f) == f(k)
  {
    if k == n - 1 { SumZero(n - 1, f); } else { SumSingle(n - 1, k, f); }
  }
}
