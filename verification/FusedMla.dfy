/** The tiled MLA forward kernels (torchtitan/overrides/fused_mla.py): rotary embedding of Q in place and assembly of K.
    A tensor holds one row of features per (batch, sequence, head); programs run in any order. */
module FusedMla {
  import opened Tiling

  type Row = seq<real>

  /** The rotary cache and the positions of the tokens. */
  datatype Rope = Rope(cos: (int, int) -> real, sin: (int, int) -> real, position: (int, int) -> int)

  /** cos and sin of a token's pairs. */
  datatype Angles = Angles(cos: int -> real, sin: int -> real)

  function AnglesAt(r: Rope, b: int, l: int): Angles {
    Angles(p => r.cos(r.position(b, l), p), p => r.sin(r.position(b, l), p))
  }

  // ---------- one row ----------

  function RotEven(x: real, y: real, c: real, s: real, inverse: bool): real {
    if inverse then x * c + y * s else x * c - y * s
  }

  function RotOdd(x: real, y: real, c: real, s: real, inverse: bool): real {
    if inverse then y * c - x * s else x * s + y * c
  }

  /** Entry d of a row whose last 2 * pairs features are rotated. */
  function Rotated(row: Row, nope: nat, pairs: nat, a: Angles, inverse: bool, d: int): real
    requires |row| == nope + 2 * pairs && 0 <= d < |row|
  {
    if d < nope then row[d]
    else
      var p := (d - nope) / 2;
      var x, y := row[nope + 2 * p], row[nope + 2 * p + 1];
      if (d - nope) % 2 == 0 then RotEven(x, y, a.cos(p), a.sin(p), inverse) else RotOdd(x, y, a.cos(p), a.sin(p), inverse)
  }

  function RotatedRow(row: Row, nope: nat, pairs: nat, a: Angles, inverse: bool): (out: Row)
    requires |row| == nope + 2 * pairs
    ensures |out| == |row| && forall d | 0 <= d < |row| :: out[d] == Rotated(row, nope, pairs, a, inverse, d)
  {
    seq(|row|, d requires 0 <= d < |row| => Rotated(row, nope, pairs, a, inverse, d))
  }

  lemma PairIndex(nope: nat, p: nat)
    ensures (nope + 2 * p - nope) / 2 == p && (nope + 2 * p + 1 - nope) / 2 == p
    ensures (nope + 2 * p - nope) % 2 == 0 && (nope + 2 * p + 1 - nope) % 2 == 1
  {
  }

  lemma RotateEntries(row: Row, nope: nat, pairs: nat, a: Angles, inverse: bool, p: nat)
    requires |row| == nope + 2 * pairs && p < pairs
    ensures var out := RotatedRow(row, nope, pairs, a, inverse); var x, y := row[nope + 2 * p], row[nope + 2 * p + 1];
            out[nope + 2 * p] == RotEven(x, y, a.cos(p), a.sin(p), inverse) &&
            out[nope + 2 * p + 1] == RotOdd(x, y, a.cos(p), a.sin(p), inverse)
  {
    PairIndex(nope, p);
  }

  lemma RotatesBack(x: real, y: real, c: real, s: real)
    requires c * c + s * s == 1.0
    ensures RotEven(RotEven(x, y, c, s, false), RotOdd(x, y, c, s, false), c, s, true) == x
    ensures RotOdd(RotEven(x, y, c, s, false), RotOdd(x, y, c, s, false), c, s, true) == y
  {
    assert RotEven(RotEven(x, y, c, s, false), RotOdd(x, y, c, s, false), c, s, true) == x * (c * c + s * s);
    assert RotOdd(RotEven(x, y, c, s, false), RotOdd(x, y, c, s, false), c, s, true) == y * (c * c + s * s);
  }

  /** The inverse rotation restores a row when cos^2 + sin^2 = 1. */
  lemma InverseRestoresRow(row: Row, nope: nat, pairs: nat, a: Angles)
    requires |row| == nope + 2 * pairs
    requires forall p | 0 <= p < pairs :: a.cos(p) * a.cos(p) + a.sin(p) * a.sin(p) == 1.0
    ensures RotatedRow(RotatedRow(row, nope, pairs, a, false), nope, pairs, a, true) == row
  {
    hide RotEven, RotOdd, RotatedRow;
    var once := RotatedRow(row, nope, pairs, a, false);
    var twice := RotatedRow(once, nope, pairs, a, true);
    forall d | 0 <= d < |row| ensures twice[d] == row[d] {
      if d >= nope { InverseRestoresPair(row, nope, pairs, a, (d - nope) / 2); }
    }
  }

  lemma InverseRestoresPair(row: Row, nope: nat, pairs: nat, a: Angles, p: nat)
    requires |row| == nope + 2 * pairs && p < pairs && a.cos(p) * a.cos(p) + a.sin(p) * a.sin(p) == 1.0
    ensures var twice := RotatedRow(RotatedRow(row, nope, pairs, a, false), nope, pairs, a, true);
            twice[nope + 2 * p] == row[nope + 2 * p] && twice[nope + 2 * p + 1] == row[nope + 2 * p + 1]
  {
    hide RotEven, RotOdd, Rotated;
    RotateEntries(row, nope, pairs, a, false, p);
    RotateEntries(RotatedRow(row, nope, pairs, a, false), nope, pairs, a, true, p);
    RotatesBack(row[nope + 2 * p], row[nope + 2 * p + 1], a.cos(p), a.sin(p));
  }

  // ---------- the eager form: complex products (torchtitan/models/common/rope.py) ----------

  datatype Complex = Complex(re: real, im: real)

  function Multiply(x: Complex, y: Complex): Complex {
    Complex(x.re * y.re - x.im * y.im, x.re * y.im + x.im * y.re)
  }

  /** The cache entry of a pair, conjugated for the inverse. */
  function CacheEntry(a: Angles, p: int, inverse: bool): Complex {
    Complex(a.cos(p), if inverse then -a.sin(p) else a.sin(p))
  }

  /** apply_rotary_emb: adjacent features as complex numbers, times the cache, back to adjacent features. */
  function EagerRope(row: Row, pairs: nat, a: Angles, inverse: bool): (out: Row)
    requires |row| == 2 * pairs
    ensures |out| == |row|
  {
    seq(2 * pairs, d requires 0 <= d < 2 * pairs =>
      var p := d / 2;
      var z := Multiply(Complex(row[2 * p], row[2 * p + 1]), CacheEntry(a, p, inverse));
      if d % 2 == 0 then z.re else z.im)
  }

  lemma EagerPair(row: Row, pairs: nat, a: Angles, inverse: bool, p: nat)
    requires |row| == 2 * pairs && p < pairs
    ensures EagerRope(row, pairs, a, inverse)[2 * p] == RotEven(row[2 * p], row[2 * p + 1], a.cos(p), a.sin(p), inverse)
    ensures EagerRope(row, pairs, a, inverse)[2 * p + 1] == RotOdd(row[2 * p], row[2 * p + 1], a.cos(p), a.sin(p), inverse)
  {
    PairIndex(0, p);
    assert (2 * p) / 2 == p && (2 * p + 1) / 2 == p;
  }

  /** The fused rotation is the eager one on the positional features, and leaves the others alone. */
  lemma RotatedRowIsEager(row: Row, nope: nat, pairs: nat, a: Angles, inverse: bool)
    requires |row| == nope + 2 * pairs
    ensures RotatedRow(row, nope, pairs, a, inverse) == row[..nope] + EagerRope(row[nope..], pairs, a, inverse)
  {
    hide RotatedRow, EagerRope, RotEven, RotOdd;
    var out, eager := RotatedRow(row, nope, pairs, a, inverse), EagerRope(row[nope..], pairs, a, inverse);
    forall d | 0 <= d < |row|
      ensures out[d] == (row[..nope] + eager)[d]
    {
      if d >= nope { EagerPair(row[nope..], pairs, a, inverse, (d - nope) / 2); }
    }
  }

  // ---------- the Q kernel ----------

  /** One lane of heads: load every pair of the row, rotate it, store it back. */
  method RopeLane(row: Row, nope: nat, pairs: nat, a: Angles, inverse: bool) returns (out: Row)
    requires |row| == nope + 2 * pairs
    ensures out == RotatedRow(row, nope, pairs, a, inverse)
  {
    var blockPairs := NextPowerOf2(pairs);
    NextPowerCovers(pairs);
    ghost var target := RotatedRow(row, nope, pairs, a, inverse);
    out := row;
    for pair := 0 to blockPairs
      invariant |out| == |row|
      invariant forall d | 0 <= d < |row| :: out[d] == if d < nope + 2 * pair then target[d] else row[d]
    {
      if pair < pairs {
        var x, y, c, s := row[nope + 2 * pair], row[nope + 2 * pair + 1], a.cos(pair), a.sin(pair);
        RotateEntries(row, nope, pairs, a, inverse, pair);
        out := out[nope + 2 * pair := RotEven(x, y, c, s, inverse)];
        out := out[nope + 2 * pair + 1 := RotOdd(x, y, c, s, inverse)];
      }
    }
    assert out == target;
  }

  ghost predicate Shaped(t: array3<Row>, g: Grid, width: nat)
    reads t
  {
    && t.Length0 == g.batch && t.Length1 == g.seqLen && t.Length2 == g.heads
    && forall b, l, h | InGrid(g, b, l, h) :: |t[b, l, h]| == width
  }

  /** Q's row of a token after the rotation. */
  function QRow(rope: Rope, nope: nat, pairs: nat, inverse: bool, b: int, l: int, row: Row): Row
    requires |row| == nope + 2 * pairs
  {
    RotatedRow(row, nope, pairs, AnglesAt(rope, b, l), inverse)
  }

  /** (u, v) is (x, y) turned by the angle of (c, s), or back. */
  predicate Turned(x: real, y: real, c: real, s: real, inverse: bool, u: real, v: real) {
    if inverse then u == x * c + y * s && v == y * c - x * s else u == x * c - y * s && v == x * s + y * c
  }

  /** What storing the rotation means, feature by feature: the token at position m gets row m of the cache. */
  ghost predicate IsRotated(rope: Rope, m: int, nope: nat, pairs: nat, inverse: bool, row: Row, out: Row) {
    && |row| == |out| == nope + 2 * pairs && out[..nope] == row[..nope]
    && forall p | 0 <= p < pairs ::
      Turned(row[nope + 2 * p], row[nope + 2 * p + 1], rope.cos(m, p), rope.sin(m, p), inverse,
             out[nope + 2 * p], out[nope + 2 * p + 1])
  }

  lemma PairTurned(rope: Rope, nope: nat, pairs: nat, inverse: bool, b: int, l: int, row: Row, p: nat)
    requires |row| == nope + 2 * pairs && p < pairs
    ensures var m, out := rope.position(b, l), QRow(rope, nope, pairs, inverse, b, l, row);
      Turned(row[nope + 2 * p], row[nope + 2 * p + 1], rope.cos(m, p), rope.sin(m, p), inverse,
             out[nope + 2 * p], out[nope + 2 * p + 1])
  {
    hide RotatedRow, Rotated;
    var m, a := rope.position(b, l), AnglesAt(rope, b, l);
    assert a.cos(p) == rope.cos(m, p) && a.sin(p) == rope.sin(m, p);
    RotateEntries(row, nope, pairs, a, inverse, p);
  }

  lemma QRowIs(rope: Rope, nope: nat, pairs: nat, inverse: bool, b: int, l: int, row: Row)
    requires |row| == nope + 2 * pairs
    ensures IsRotated(rope, rope.position(b, l), nope, pairs, inverse, row, QRow(rope, nope, pairs, inverse, b, l, row))
  {
    hide RotatedRow, RotEven, RotOdd, Turned, AnglesAt;
    forall p | 0 <= p < pairs
      ensures var m, out := rope.position(b, l), QRow(rope, nope, pairs, inverse, b, l, row);
        Turned(row[nope + 2 * p], row[nope + 2 * p + 1], rope.cos(m, p), rope.sin(m, p), inverse,
               out[nope + 2 * p], out[nope + 2 * p + 1])
    {
      PairTurned(rope, nope, pairs, inverse, b, l, row, p);
    }
  }

  /** The first n heads of a tile. */
  predicate InSpan(t: Tile, first: int, n: int, b: int, l: int, h: int) {
    b == t.batch && l == t.pos && first <= h < first + n
  }

  lemma TileIsSpan(g: Grid, t: Tile)
    ensures forall b, l, h :: InTile(g, t, b, l, h) <==> InSpan(t, t.block * g.blockH, g.blockH, b, l, h)
  {
  }

  method QProgram(q: array3<Row>, g: Grid, rope: Rope, nope: nat, pairs: nat, inverse: bool, program: nat)
    requires Good(g) && g.seqLen > 0 && HeadBlocks(g) > 0 && program < Programs(g) && Shaped(q, g, nope + 2 * pairs)
    modifies q
    ensures Shaped(q, g, nope + 2 * pairs)
    ensures forall b, l, h | InGrid(g, b, l, h) && InTile(g, TileOf(g, program), b, l, h) ::
      q[b, l, h] == QRow(rope, nope, pairs, inverse, b, l, old(q[b, l, h]))
    ensures forall b, l, h | InGrid(g, b, l, h) && InTile(g, TileOf(g, program), b, l, h) ::
      IsRotated(rope, rope.position(b, l), nope, pairs, inverse, old(q[b, l, h]), q[b, l, h])
    ensures forall b, l, h | InGrid(g, b, l, h) && !InTile(g, TileOf(g, program), b, l, h) :: q[b, l, h] == old(q[b, l, h])
  {
    hide RotatedRow, Programs, HeadBlocks, TileOf, InTile, IsRotated, AnglesAt;
    var t := TileOf(g, program);
    TileInGrid(g, program);
    var a, first := AnglesAt(rope, t.batch, t.pos), t.block * g.blockH;
    TileIsSpan(g, t);
    for i := 0 to g.blockH
      invariant forall b, l, h | InGrid(g, b, l, h) && InSpan(t, first, i, b, l, h) ::
        q[b, l, h] == QRow(rope, nope, pairs, inverse, b, l, old(q[b, l, h]))
      invariant forall b, l, h | InGrid(g, b, l, h) && !InSpan(t, first, i, b, l, h) :: q[b, l, h] == old(q[b, l, h])
    {
      var head := first + i;
      if head < g.heads {
        var row := RopeLane(q[t.batch, t.pos, head], nope, pairs, a, inverse);
        q[t.batch, t.pos, head] := row;
      }
    }
    forall b, l, h | InGrid(g, b, l, h) && InTile(g, t, b, l, h)
      ensures IsRotated(rope, rope.position(b, l), nope, pairs, inverse, old(q[b, l, h]), q[b, l, h])
    {
      QRowIs(rope, nope, pairs, inverse, b, l, old(q[b, l, h]));
    }
  }

  /** block_h = min(most, next_power_of_2(n_heads)) */
  function BlockH(most: nat, heads: nat): nat {
    if NextPowerOf2(heads) < most then NextPowerOf2(heads) else most
  }

  function QGrid(batch: nat, seqLen: nat, heads: nat): (g: Grid)
    ensures heads > 0 ==> Good(g)
  {
    NextPowerCovers(heads);
    Grid(batch, seqLen, heads, BlockH(64, heads))
  }

  /** The launch, in any order of programs: every row is rotated once, and only its rotary part. */
  method LaunchQ(q: array3<Row>, rope: Rope, nope: nat, pairs: nat, inverse: bool, order: seq<nat>)
    requires var g := QGrid(q.Length0, q.Length1, q.Length2);
             q.Length2 > 0 && Shaped(q, g, nope + 2 * pairs) && Permutation(order, Programs(g))
    modifies q
    ensures forall b, l, h | InGrid(QGrid(q.Length0, q.Length1, q.Length2), b, l, h) ::
      q[b, l, h] == QRow(rope, nope, pairs, inverse, b, l, old(q[b, l, h]))
    ensures forall b, l, h | InGrid(QGrid(q.Length0, q.Length1, q.Length2), b, l, h) ::
      IsRotated(rope, rope.position(b, l), nope, pairs, inverse, old(q[b, l, h]), q[b, l, h])
  {
    hide IsRotated;
    var g := QGrid(q.Length0, q.Length1, q.Length2);
    NextPowerCovers(g.heads);
    for n := 0 to |order|
      invariant Shaped(q, g, nope + 2 * pairs)
      invariant forall b, l, h | InGrid(g, b, l, h) && ProgramOf(g, b, l, h) in order[..n] ::
        q[b, l, h] == QRow(rope, nope, pairs, inverse, b, l, old(q[b, l, h]))
      invariant forall b, l, h | InGrid(g, b, l, h) && ProgramOf(g, b, l, h) !in order[..n] :: q[b, l, h] == old(q[b, l, h])
    {
      GridNotEmpty(g, order[n]);
      forall b, l, h | InGrid(g, b, l, h)
        ensures InTile(g, TileOf(g, order[n]), b, l, h) <==> order[n] == ProgramOf(g, b, l, h)
      {
        ProgramsPartition(g, order[n], b, l, h);
      }
      QProgram(q, g, rope, nope, pairs, inverse, order[n]);
    }
    forall b, l, h | InGrid(g, b, l, h) ensures ProgramOf(g, b, l, h) in order { TileOfProgram(g, b, l, h); }
    assert order[..|order|] == order;
    forall b, l, h | InGrid(g, b, l, h)
      ensures IsRotated(rope, rope.position(b, l), nope, pairs, inverse, old(q[b, l, h]), q[b, l, h])
    {
      QRowIs(rope, nope, pairs, inverse, b, l, old(q[b, l, h]));
    }
  }

  /** cos^2 + sin^2 = 1 throughout the cache. */
  ghost predicate UnitCache(rope: Rope, pairs: nat) {
    forall m, p | 0 <= p < pairs :: rope.cos(m, p) * rope.cos(m, p) + rope.sin(m, p) * rope.sin(m, p) == 1.0
  }

  lemma UnitAngles(rope: Rope, pairs: nat, b: int, l: int)
    requires UnitCache(rope, pairs)
    ensures var a := AnglesAt(rope, b, l); forall p | 0 <= p < pairs :: a.cos(p) * a.cos(p) + a.sin(p) * a.sin(p) == 1.0
  {
    var a, m := AnglesAt(rope, b, l), rope.position(b, l);
    forall p | 0 <= p < pairs ensures a.cos(p) * a.cos(p) + a.sin(p) * a.sin(p) == 1.0 {
      assert a.cos(p) == rope.cos(m, p) && a.sin(p) == rope.sin(m, p);
    }
  }

  /** The inverse launch restores Q, whatever the two orders of programs. */
  method RotateAndBack(q: array3<Row>, rope: Rope, nope: nat, pairs: nat, order: seq<nat>, back: seq<nat>)
    requires var g := QGrid(q.Length0, q.Length1, q.Length2);
             q.Length2 > 0 && Shaped(q, g, nope + 2 * pairs) &&
             Permutation(order, Programs(g)) && Permutation(back, Programs(g))
    requires UnitCache(rope, pairs)
    modifies q
    ensures forall b, l, h | InGrid(QGrid(q.Length0, q.Length1, q.Length2), b, l, h) :: q[b, l, h] == old(q[b, l, h])
  {
    hide IsRotated;
    LaunchQ(q, rope, nope, pairs, false, order);
    LaunchQ(q, rope, nope, pairs, true, back);
    forall b, l, h | InGrid(QGrid(q.Length0, q.Length1, q.Length2), b, l, h)
      ensures q[b, l, h] == old(q[b, l, h])
    {
      UnitAngles(rope, pairs, b, l);
      InverseRestoresRow(old(q[b, l, h]), nope, pairs, AnglesAt(rope, b, l));
    }
  }

  // ---------- the K kernel ----------

  /** A head of K: its own nope part, and the token's shared rotary part. */
  function KRow(kv: Row, kPe: Row, nope: nat, pairs: nat, a: Angles): (k: Row)
    requires |kv| >= nope && |kPe| == 2 * pairs
    ensures |k| == nope + 2 * pairs
  {
    kv[..nope] + RotatedRow(kPe, 0, pairs, a, false)
  }

  /** K's row is what the eager code concatenates: the head's nope part and the complex product of the shared row. */
  lemma KRowIsEager(kv: Row, kPe: Row, nope: nat, pairs: nat, a: Angles)
    requires |kv| >= nope && |kPe| == 2 * pairs
    ensures KRow(kv, kPe, nope, pairs, a) == kv[..nope] + EagerRope(kPe, pairs, a, false)
  {
    RotatedRowIsEager(kPe, 0, pairs, a, false);
    assert kPe[..0] == [] && kPe[0..] == kPe;
  }

  /** Feature d of a head is stored by exactly one lane: a nope lane, or the even or odd store of a pair lane. */
  datatype Lane = Nope(dim: nat) | Even(pair: nat) | Odd(pair: nat)

  predicate Kept(lane: Lane, nope: nat, pairs: nat) {
    match lane
    case Nope(dim) => dim < NextPowerOf2(nope) && dim < nope
    case Even(pair) => pair < NextPowerOf2(pairs) && pair < pairs
    case Odd(pair) => pair < NextPowerOf2(pairs) && pair < pairs
  }

  function Stores(lane: Lane, nope: nat): nat {
    match lane case Nope(dim) => dim case Even(pair) => nope + 2 * pair case Odd(pair) => nope + 2 * pair + 1
  }

  lemma EachFeatureStoredOnce(nope: nat, pairs: nat, d: nat)
    ensures d < nope + 2 * pairs <==> exists lane :: Kept(lane, nope, pairs) && Stores(lane, nope) == d
    ensures forall x, y | Kept(x, nope, pairs) && Kept(y, nope, pairs) && Stores(x, nope) == Stores(y, nope) :: x == y
  {
    NextPowerCovers(nope);
    NextPowerCovers(pairs);
    if d < nope {
      assert Kept(Nope(d), nope, pairs) && Stores(Nope(d), nope) == d;
    } else if d < nope + 2 * pairs {
      var p := (d - nope) / 2;
      var lane := if (d - nope) % 2 == 0 then Even(p) else Odd(p);
      assert Kept(lane, nope, pairs) && Stores(lane, nope) == d;
    }
  }

  /** Every element of the output is stored by exactly one lane of exactly one program. */
  lemma EachElementStoredOnce(g: Grid, nope: nat, pairs: nat, b: int, l: int, h: int, d: nat)
    requires Good(g) && InGrid(g, b, l, h) && d < nope + 2 * pairs
    ensures HeadBlocks(g) > 0
    ensures exists program, lane :: 0 <= program < Programs(g) && InTile(g, TileOf(g, program), b, l, h) &&
                                    Kept(lane, nope, pairs) && Stores(lane, nope) == d
    ensures forall p, q, x, y | 0 <= p < Programs(g) && 0 <= q < Programs(g) &&
              InTile(g, TileOf(g, p), b, l, h) && InTile(g, TileOf(g, q), b, l, h) &&
              Kept(x, nope, pairs) && Stores(x, nope) == d && Kept(y, nope, pairs) && Stores(y, nope) == d :: p == q && x == y
  {
    var program := ProgramOf(g, b, l, h);
    TileOfProgram(g, b, l, h);
    EachFeatureStoredOnce(nope, pairs, d);
    var lane :| Kept(lane, nope, pairs) && Stores(lane, nope) == d;
    assert InTile(g, TileOf(g, program), b, l, h) && Kept(lane, nope, pairs);
    forall p | 0 <= p < Programs(g) && InTile(g, TileOf(g, p), b, l, h) ensures p == program {
      OneProgram(g, p, b, l, h);
    }
  }

  /** The stores of one head of K, lane by lane: the nope lanes first, then both lanes of every pair. */
  method KLane(kv: Row, k: Row, rotated: Row, nope: nat, pairs: nat, ghost kPe: Row, ghost a: Angles) returns (out: Row)
    requires |kv| >= nope && |k| == nope + 2 * pairs && |kPe| == 2 * pairs && rotated == RotatedRow(kPe, 0, pairs, a, false)
    ensures out == KRow(kv, kPe, nope, pairs, a)
  {
    NextPowerCovers(nope);
    NextPowerCovers(pairs);
    out := k;
    for dim := 0 to NextPowerOf2(nope)
      invariant |out| == |k| && forall d | 0 <= d < dim && d < nope :: out[d] == kv[d]
    {
      if Kept(Nope(dim), nope, pairs) {
        out := out[Stores(Nope(dim), nope) := kv[dim]];
      }
    }
    for pair := 0 to NextPowerOf2(pairs)
      invariant |out| == |k| && forall d | 0 <= d < nope :: out[d] == kv[d]
      invariant forall d | 0 <= d < 2 * pair && d < 2 * pairs :: out[nope + d] == rotated[d]
    {
      if Kept(Even(pair), nope, pairs) {
        out := out[Stores(Even(pair), nope) := rotated[2 * pair]];
      }
      if Kept(Odd(pair), nope, pairs) {
        out := out[Stores(Odd(pair), nope) := rotated[2 * pair + 1]];
      }
    }
    var row := kv[..nope] + rotated;
    forall d | 0 <= d < |k| ensures out[d] == row[d] {
      if d >= nope { assert out[nope + (d - nope)] == rotated[d - nope]; }
    }
  }

  ghost predicate AtLeast(t: array3<Row>, g: Grid, width: nat)
    reads t
  {
    && t.Length0 == g.batch && t.Length1 == g.seqLen && t.Length2 == g.heads
    && forall b, l, h | InGrid(g, b, l, h) :: |t[b, l, h]| >= width
  }

  ghost predicate Shaped2(t: array2<Row>, g: Grid, width: nat)
    reads t
  {
    t.Length0 == g.batch && t.Length1 == g.seqLen && forall b, l | 0 <= b < g.batch && 0 <= l < g.seqLen :: |t[b, l]| == width
  }

  function KRowAt(rope: Rope, nope: nat, pairs: nat, b: int, l: int, kv: Row, kPe: Row): Row
    requires |kv| >= nope && |kPe| == 2 * pairs
  {
    KRow(kv, kPe, nope, pairs, AnglesAt(rope, b, l))
  }

  /** K's row feature by feature: the head's own nope part, then the shared row turned by row m of the cache. */
  ghost predicate IsKHead(rope: Rope, m: int, nope: nat, pairs: nat, kv: Row, kPe: Row, k: Row) {
    && |kv| >= nope && |kPe| == 2 * pairs && |k| == nope + 2 * pairs && k[..nope] == kv[..nope]
    && forall p | 0 <= p < pairs ::
      Turned(kPe[2 * p], kPe[2 * p + 1], rope.cos(m, p), rope.sin(m, p), false, k[nope + 2 * p], k[nope + 2 * p + 1])
  }

  lemma KRowIs(rope: Rope, nope: nat, pairs: nat, b: int, l: int, kv: Row, kPe: Row)
    requires |kv| >= nope && |kPe| == 2 * pairs
    ensures IsKHead(rope, rope.position(b, l), nope, pairs, kv, kPe, KRowAt(rope, nope, pairs, b, l, kv, kPe))
  {
    hide RotatedRow, RotEven, RotOdd, Turned, AnglesAt;
    var m, rotated, k := rope.position(b, l), QRow(rope, 0, pairs, false, b, l, kPe), KRowAt(rope, nope, pairs, b, l, kv, kPe);
    assert k == kv[..nope] + rotated;
    forall p | 0 <= p < pairs
      ensures Turned(kPe[2 * p], kPe[2 * p + 1], rope.cos(m, p), rope.sin(m, p), false, k[nope + 2 * p], k[nope + 2 * p + 1])
    {
      PairTurned(rope, 0, pairs, false, b, l, kPe, p);
    }
  }

  method KProgram(kv: array3<Row>, kPe: array2<Row>, k: array3<Row>, g: Grid, rope: Rope, nope: nat, pairs: nat, program: nat)
    requires Good(g) && g.seqLen > 0 && HeadBlocks(g) > 0 && program < Programs(g) && k != kv
    requires AtLeast(kv, g, nope) && Shaped2(kPe, g, 2 * pairs) && Shaped(k, g, nope + 2 * pairs)
    modifies k
    ensures Shaped(k, g, nope + 2 * pairs)
    ensures forall b, l, h | InGrid(g, b, l, h) && InTile(g, TileOf(g, program), b, l, h) ::
      k[b, l, h] == KRowAt(rope, nope, pairs, b, l, kv[b, l, h], kPe[b, l])
    ensures forall b, l, h | InGrid(g, b, l, h) && InTile(g, TileOf(g, program), b, l, h) ::
      IsKHead(rope, rope.position(b, l), nope, pairs, kv[b, l, h], kPe[b, l], k[b, l, h])
    ensures forall b, l, h | InGrid(g, b, l, h) && !InTile(g, TileOf(g, program), b, l, h) :: k[b, l, h] == old(k[b, l, h])
  {
    hide RotatedRow, KRow, Programs, HeadBlocks, TileOf, InTile, IsKHead, AnglesAt;
    var t := TileOf(g, program);
    TileInGrid(g, program);
    var a, first := AnglesAt(rope, t.batch, t.pos), t.block * g.blockH;
    TileIsSpan(g, t);
    var rotated := RopeLane(kPe[t.batch, t.pos], 0, pairs, a, false);
    for i := 0 to g.blockH
      invariant Shaped(k, g, nope + 2 * pairs)
      invariant forall b, l, h | InGrid(g, b, l, h) && InSpan(t, first, i, b, l, h) ::
        k[b, l, h] == KRowAt(rope, nope, pairs, b, l, kv[b, l, h], kPe[b, l])
      invariant forall b, l, h | InGrid(g, b, l, h) && !InSpan(t, first, i, b, l, h) :: k[b, l, h] == old(k[b, l, h])
    {
      var head := first + i;
      if head < g.heads {
        var row := KLane(kv[t.batch, t.pos, head], k[t.batch, t.pos, head], rotated, nope, pairs, kPe[t.batch, t.pos], a);
        k[t.batch, t.pos, head] := row;
      }
    }
    forall b, l, h | InGrid(g, b, l, h) && InTile(g, t, b, l, h)
      ensures IsKHead(rope, rope.position(b, l), nope, pairs, kv[b, l, h], kPe[b, l], k[b, l, h])
    {
      KRowIs(rope, nope, pairs, b, l, kv[b, l, h], kPe[b, l]);
    }
  }

  function KGrid(batch: nat, seqLen: nat, heads: nat): (g: Grid)
    ensures heads > 0 ==> Good(g)
  {
    NextPowerCovers(heads);
    Grid(batch, seqLen, heads, BlockH(16, heads))
  }

  /** The launch, in any order of programs, fills K completely, whatever was in it. */
  method LaunchK(kv: array3<Row>, kPe: array2<Row>, k: array3<Row>, rope: Rope, nope: nat, pairs: nat, order: seq<nat>)
    requires var g := KGrid(kv.Length0, kv.Length1, kv.Length2);
             kv.Length2 > 0 && k != kv && AtLeast(kv, g, nope) && Shaped2(kPe, g, 2 * pairs) && Shaped(k, g, nope + 2 * pairs) &&
             Permutation(order, Programs(g))
    modifies k
    ensures forall b, l, h | InGrid(KGrid(kv.Length0, kv.Length1, kv.Length2), b, l, h) ::
      k[b, l, h] == KRowAt(rope, nope, pairs, b, l, kv[b, l, h], kPe[b, l])
    ensures forall b, l, h | InGrid(KGrid(kv.Length0, kv.Length1, kv.Length2), b, l, h) ::
      IsKHead(rope, rope.position(b, l), nope, pairs, kv[b, l, h], kPe[b, l], k[b, l, h])
  {
    hide IsKHead;
    var g := KGrid(kv.Length0, kv.Length1, kv.Length2);
    NextPowerCovers(g.heads);
    for n := 0 to |order|
      invariant Shaped(k, g, nope + 2 * pairs)
      invariant forall b, l, h | InGrid(g, b, l, h) && ProgramOf(g, b, l, h) in order[..n] ::
        k[b, l, h] == KRowAt(rope, nope, pairs, b, l, kv[b, l, h], kPe[b, l])
    {
      GridNotEmpty(g, order[n]);
      forall b, l, h | InGrid(g, b, l, h)
        ensures InTile(g, TileOf(g, order[n]), b, l, h) <==> order[n] == ProgramOf(g, b, l, h)
      {
        ProgramsPartition(g, order[n], b, l, h);
      }
      KProgram(kv, kPe, k, g, rope, nope, pairs, order[n]);
    }
    forall b, l, h | InGrid(g, b, l, h) ensures ProgramOf(g, b, l, h) in order { TileOfProgram(g, b, l, h); }
    assert order[..|order|] == order;
    forall b, l, h | InGrid(g, b, l, h)
      ensures IsKHead(rope, rope.position(b, l), nope, pairs, kv[b, l, h], kPe[b, l], k[b, l, h])
    {
      KRowIs(rope, nope, pairs, b, l, kv[b, l, h], kPe[b, l]);
    }
  }
}
