/** Row-major views of one world mesh: coordinates, ranks, and folding neighbouring axes
    (torchtitan/distributed/parallel_dims.py). */
module MeshViews {
  import opened Sums

  type pos = x: int | 1 <= x witness 1

  function Times(a: pos, b: pos): (p: pos)
    ensures p == a * b
  {
    ProductAtLeast(a, b);
    a * b
  }

  function Quot(n: nat, d: pos): nat { n / d }

  function Rem(n: nat, d: pos): (m: nat)
    ensures m < d
  {
    n % d
  }

  function Product(d: seq<pos>): pos
    decreases |d|
  {
    if d == [] then 1 else Times(Product(d[..|d| - 1]), d[|d| - 1])
  }

  /** Coordinates of a rank in a mesh of the given degrees, the last axis varying fastest. */
  function Coordinates(rank: nat, d: seq<pos>): (c: seq<nat>)
    ensures |c| == |d|
    decreases |d|
  {
    if d == [] then []
    else Coordinates(Quot(rank, d[|d| - 1]), d[..|d| - 1]) + [Rem(rank, d[|d| - 1])]
  }

  /** The rank at the given coordinates. */
  function RankAt(c: seq<nat>, d: seq<pos>): nat
    requires |c| == |d|
    decreases |d|
  {
    if d == [] then 0 else At(RankAt(c[..|c| - 1], d[..|d| - 1]), d[|d| - 1], c[|c| - 1])
  }

  function At(q: nat, d: pos, m: nat): nat { q * d + m }

  predicate Inside(c: seq<nat>, d: seq<pos>) {
    |c| == |d| && forall i | 0 <= i < |d| :: c[i] < d[i]
  }

  lemma QuotRem(n: nat, d: pos)
    ensures At(Quot(n, d), d, Rem(n, d)) == n
  {
  }

  lemma AtQuotRem(q: nat, d: pos, m: nat)
    requires m < d
    ensures Quot(At(q, d, m), d) == q && Rem(At(q, d, m), d) == m
  {
    QuotientUnique(q * d + m, d, q, m);
  }

  lemma AtBelow(q: nat, a: pos, d: pos, m: nat)
    requires m < d
    ensures At(q, d, m) < Times(a, d) <==> q < a
  {
    if q < a {
      assert a * d == q * d + (a - q) * d;
      ProductAtLeast(a - q, d);
    } else {
      assert q * d == a * d + (q - a) * d;
      NonNegativeProduct(q - a, d);
    }
  }

  lemma NonNegativeProduct(a: nat, b: nat)
    ensures a * b >= 0
  {
  }

  lemma {:induction false} CoordinatesInside(rank: nat, d: seq<pos>)
    ensures Inside(Coordinates(rank, d), d)
    decreases |d|
  {
    if d != [] {
      hide Quot, Rem;
      var init, last := d[..|d| - 1], d[|d| - 1];
      CoordinatesInside(Quot(rank, last), init);
      var c := Coordinates(rank, d);
      assert forall i | 0 <= i < |init| :: c[i] == Coordinates(Quot(rank, last), init)[i] && d[i] == init[i];
    }
  }

  /** Every rank is where its coordinates say ... */
  lemma {:induction false} RankOfCoordinates(rank: nat, d: seq<pos>)
    requires rank < Product(d)
    ensures RankAt(Coordinates(rank, d), d) == rank
    decreases |d|
  {
    if d != [] {
      hide Times, Quot, Rem, At;
      var init, last := d[..|d| - 1], d[|d| - 1];
      var q, m := Quot(rank, last), Rem(rank, last);
      QuotRem(rank, last);
      AtBelow(q, Product(init), last, m);
      RankOfCoordinates(q, init);
      assert (Coordinates(q, init) + [m])[..|d| - 1] == Coordinates(q, init);
    }
  }

  /** ... and every coordinate is some rank's: a view is a bijection. */
  lemma {:induction false} CoordinatesOfRank(c: seq<nat>, d: seq<pos>)
    requires Inside(c, d)
    ensures RankAt(c, d) < Product(d) && Coordinates(RankAt(c, d), d) == c
    decreases |d|
  {
    if d != [] {
      hide Times, Quot, Rem, At;
      var n := |d| - 1;
      var q := RankAt(c[..n], d[..n]);
      CoordinatesOfRank(c[..n], d[..n]);
      AtQuotRem(q, d[n], c[n]);
      AtBelow(q, Product(d[..n]), d[n], c[n]);
    }
  }

  lemma AtNested(x: nat, a: pos, y: nat, b: pos, m: nat)
    ensures At(At(x, a, y), b, m) == At(x, Times(a, b), At(y, b, m))
  {
    assert (x * a + y) * b == x * (a * b) + y * b;
  }

  lemma DivDiv(r: nat, a: pos, b: pos)
    ensures Quot(Quot(r, b), a) == Quot(r, Times(a, b))
    ensures At(Rem(Quot(r, b), a), b, Rem(r, b)) == Rem(r, Times(a, b))
  {
    hide Times, Quot, Rem, At;
    var q, m := Quot(r, b), Rem(r, b);
    var x, y := Quot(q, a), Rem(q, a);
    QuotRem(r, b);
    QuotRem(q, a);
    AtNested(x, a, y, b, m);
    AtBelow(y, a, b, m);
    AtQuotRem(x, Times(a, b), At(y, b, m));
  }

  /** Axes k and k + 1 of a coordinate combined row-major into one. */
  function FoldedAt(c: seq<nat>, k: nat, y: pos): seq<nat>
    requires k + 1 < |c|
  {
    c[..k] + [At(c[k], y, c[k + 1])] + c[k + 2..]
  }

  lemma FoldedAppend(c: seq<nat>, k: nat, y: pos, m: nat)
    requires k + 1 < |c|
    ensures FoldedAt(c + [m], k, y) == FoldedAt(c, k, y) + [m]
  {
    assert (c + [m])[..k] == c[..k] && (c + [m])[k + 2..] == c[k + 2..] + [m];
  }

  /** Replacing two neighbouring degrees by their product combines the two coordinates and keeps the others. */
  lemma {:induction false} FoldAxes(rank: nat, before: seq<pos>, x: pos, y: pos, after: seq<pos>)
    ensures Coordinates(rank, before + [Times(x, y)] + after)
         == FoldedAt(Coordinates(rank, before + [x, y] + after), |before|, y)
    ensures Product(before + [Times(x, y)] + after) == Product(before + [x, y] + after)
    decreases |after|
  {
    hide Times, Quot, Rem, At;
    var k := |before|;
    var d, e := before + [x, y] + after, before + [Times(x, y)] + after;
    if after == [] {
      FoldLast(rank, before, x, y);
      assert d == before + [x, y] && e == before + [Times(x, y)];
    } else {
      var init, last := after[..|after| - 1], after[|after| - 1];
      var q := Quot(rank, last);
      FoldAxes(q, before, x, y, init);
      assert d[..|d| - 1] == before + [x, y] + init && e[..|e| - 1] == before + [Times(x, y)] + init;
      var c := Coordinates(q, before + [x, y] + init);
      FoldedAppend(c, k, y, Rem(rank, last));
    }
  }

  lemma FoldLast(rank: nat, before: seq<pos>, x: pos, y: pos)
    ensures Coordinates(rank, before + [Times(x, y)])
         == FoldedAt(Coordinates(rank, before + [x, y]), |before|, y)
    ensures Product(before + [Times(x, y)]) == Product(before + [x, y])
  {
    hide Times, Quot, Rem, At;
    var d, e := before + [x, y], before + [Times(x, y)];
    assert d[..|d| - 1] == before + [x] && (before + [x])[..|before|] == before && e[..|e| - 1] == before;
    DivDiv(rank, x, y);
    Associates(Product(before), x, y);
  }

  lemma Associates(a: pos, b: pos, c: pos)
    ensures Times(Times(a, b), c) == Times(a, Times(b, c))
  {
  }

  // ---------- which ranks a set of axes tells apart ----------

  lemma AtInjective(q: nat, m: nat, q': nat, m': nat, d: pos)
    requires m < d && m' < d
    ensures q * d + m == q' * d + m' <==> q == q' && m == m'
  {
    AtQuotRem(q, d, m);
    AtQuotRem(q', d, m');
  }

  predicate AgreeOutside(c: seq<nat>, e: seq<nat>, lo: nat, hi: nat)
    requires lo <= hi <= |c| == |e|
  {
    forall i | 0 <= i < |c| && !(lo <= i < hi) :: c[i] == e[i]
  }

  /** The boundary in the unfolded view of a boundary in the folded one. */
  function Unfolded(k: nat, i: nat): nat { if i <= k then i else i + 1 }

  /** Two folded coordinates agree outside some axes exactly when the unfolded ones agree outside the axes those
      stand for. */
  lemma AgreeFolded(c: seq<nat>, e: seq<nat>, k: nat, y: pos, lo: nat, hi: nat)
    requires k + 1 < |c| == |e| && lo <= hi < |c| && c[k + 1] < y && e[k + 1] < y
    ensures AgreeOutside(FoldedAt(c, k, y), FoldedAt(e, k, y), lo, hi)
       <==> AgreeOutside(c, e, Unfolded(k, lo), Unfolded(k, hi))
  {
    var f, g := FoldedAt(c, k, y), FoldedAt(e, k, y);
    var lo', hi' := Unfolded(k, lo), Unfolded(k, hi);
    AtInjective(c[k], c[k + 1], e[k], e[k + 1], y);
    if AgreeOutside(f, g, lo, hi) {
      forall i | 0 <= i < |c| && !(lo' <= i < hi') ensures c[i] == e[i] {
        assert f[if i <= k then i else i - 1] == g[if i <= k then i else i - 1];
      }
    }
    if AgreeOutside(c, e, lo', hi') {
      forall j | 0 <= j < |f| && !(lo <= j < hi) ensures f[j] == g[j] {
        assert c[if j <= k then j else j + 1] == e[if j <= k then j else j + 1];
      }
    }
  }
}
