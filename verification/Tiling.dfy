/** Launch grids that cut (batch, sequence, head) into programs of a tile of heads each (torchtitan/overrides/fused_mla.py). */
module Tiling {
  import opened Sums

  /** triton.next_power_of_2 */
  function NextPowerOf2(n: nat): nat {
    if n == 0 then 0 else Doubled(n, 1)
  }

  function Doubled(n: nat, p: nat): nat
    requires p > 0
    decreases n - p
  {
    if p >= n then p else Doubled(n, 2 * p)
  }

  lemma {:induction false} DoubledCovers(n: nat, p: nat)
    requires p > 0
    ensures Doubled(n, p) >= n && Doubled(n, p) > 0
    decreases n - p
  {
    if p < n { DoubledCovers(n, 2 * p); }
  }

  lemma NextPowerCovers(n: nat)
    ensures NextPowerOf2(n) >= n && (n > 0 ==> NextPowerOf2(n) > 0)
  {
    if n > 0 { DoubledCovers(n, 1); }
  }

  function Power(k: nat): (p: nat)
    ensures p > 0
  {
    if k == 0 then 1 else 2 * Power(k - 1)
  }

  lemma {:induction false} PowersGrow(j: nat, k: nat)
    requires j <= k
    ensures Power(j) <= Power(k)
    decreases k
  {
    if j < k { PowersGrow(j, k - 1); }
  }

  lemma {:induction false} DoubledIsLeast(n: nat, k: nat) returns (j: nat)
    requires k > 0 ==> Power(k - 1) < n
    ensures Doubled(n, Power(k)) == Power(j) >= n && (j > 0 ==> Power(j - 1) < n)
    decreases n - Power(k)
  {
    if Power(k) >= n {
      j := k;
    } else {
      assert Power(k + 1) == 2 * Power(k);
      j := DoubledIsLeast(n, k + 1);
    }
  }

  /** The result is a power of two, and no smaller one covers n. */
  lemma NextPowerIsLeast(n: nat)
    requires n > 0
    ensures exists j :: NextPowerOf2(n) == Power(j)
    ensures forall k | Power(k) >= n :: Power(k) >= NextPowerOf2(n)
  {
    var j := DoubledIsLeast(n, 0);
    assert NextPowerOf2(n) == Power(j);
    forall k | Power(k) >= n ensures Power(k) >= NextPowerOf2(n) {
      if k < j { PowersGrow(k, j - 1); } else { PowersGrow(j, k); }
    }
  }

  /** The grid of a kernel: batch x seqLen tokens, and the heads of each cut into tiles of blockH. */
  datatype Grid = Grid(batch: nat, seqLen: nat, heads: nat, blockH: nat)

  predicate Good(g: Grid) {
    g.blockH > 0
  }

  /** triton.cdiv(n_heads, block_h) */
  function HeadBlocks(g: Grid): nat
    requires Good(g)
  {
    (g.heads + g.blockH - 1) / g.blockH
  }

  function Programs(g: Grid): nat
    requires Good(g)
  {
    g.batch * g.seqLen * HeadBlocks(g)
  }

  datatype Tile = Tile(batch: nat, pos: nat, block: nat)

  /** What a program computes from its program_id. */
  function TileOf(g: Grid, program: nat): Tile
    requires Good(g) && g.seqLen > 0 && HeadBlocks(g) > 0
  {
    var token := program / HeadBlocks(g);
    Tile(token / g.seqLen, token % g.seqLen, program % HeadBlocks(g))
  }

  /** The program that handles a head of a token. */
  function ProgramOf(g: Grid, b: nat, l: nat, h: nat): nat
    requires Good(g)
  {
    (b * g.seqLen + l) * HeadBlocks(g) + h / g.blockH
  }

  predicate InGrid(g: Grid, b: int, l: int, h: int) {
    0 <= b < g.batch && 0 <= l < g.seqLen && 0 <= h < g.heads
  }

  /** head_block * BLOCK_H + i, for a lane i that the head mask keeps. */
  predicate InTile(g: Grid, t: Tile, b: int, l: int, h: int) {
    b == t.batch && l == t.pos && t.block * g.blockH <= h < t.block * g.blockH + g.blockH
  }

  lemma HeadBlock(g: Grid, h: nat)
    requires Good(g) && h < g.heads
    ensures h / g.blockH < HeadBlocks(g)
  {
    QuotientBelow(h, g.heads + g.blockH - 1, g.blockH);
  }

  lemma QuotientBelow(h: nat, n: nat, d: nat)
    requires d > 0 && h + d <= n
    ensures h / d < n / d
  {
    var q, r := h / d, n / d;
    assert h == q * d + h % d && n == r * d + n % d;
    assert (q - r) * d == q * d - r * d;
    if q >= r { NonNegative(q - r, d); }
  }

  lemma NonNegative(a: nat, b: nat)
    ensures a * b >= 0
  {
  }

  lemma QuotientBound(b: nat, n: nat, l: nat, m: nat)
    requires b < n && l < m
    ensures b * m + l < n * m
  {
    assert n * m == b * m + (n - b) * m;
    ProductAtLeast(n - b, m);
  }

  /** A head's program decodes to the tile that holds the head. */
  lemma TileOfProgram(g: Grid, b: nat, l: nat, h: nat)
    requires Good(g) && InGrid(g, b, l, h)
    ensures HeadBlocks(g) > 0 && ProgramOf(g, b, l, h) < Programs(g)
    ensures TileOf(g, ProgramOf(g, b, l, h)) == Tile(b, l, h / g.blockH)
    ensures InTile(g, TileOf(g, ProgramOf(g, b, l, h)), b, l, h)
  {
    hide HeadBlocks;
    HeadBlock(g, h);
    var nb, token := HeadBlocks(g), b * g.seqLen + l;
    QuotientUnique(token * nb + h / g.blockH, nb, token, h / g.blockH);
    QuotientUnique(token, g.seqLen, b, l);
    QuotientBound(b, g.batch, l, g.seqLen);
    QuotientBound(token, g.batch * g.seqLen, h / g.blockH, nb);
    assert h == (h / g.blockH) * g.blockH + h % g.blockH;
  }

  /** No other program handles the head. */
  lemma OneProgram(g: Grid, program: nat, b: nat, l: nat, h: nat)
    requires Good(g) && InGrid(g, b, l, h) && HeadBlocks(g) > 0 && InTile(g, TileOf(g, program), b, l, h)
    ensures program == ProgramOf(g, b, l, h)
  {
    var nb := HeadBlocks(g);
    var token := program / nb;
    assert program == token * nb + program % nb && token == b * g.seqLen + l;
    var block := program % nb;
    QuotientUnique(h, g.blockH, block, h - block * g.blockH);
  }

  lemma TileInGrid(g: Grid, program: nat)
    requires Good(g) && program < Programs(g) && g.seqLen > 0 && HeadBlocks(g) > 0
    ensures TileOf(g, program).batch < g.batch && TileOf(g, program).pos < g.seqLen && TileOf(g, program).block < HeadBlocks(g)
  {
    var nb := HeadBlocks(g);
    var token := program / nb;
    QuotientWithin(program, g.batch * g.seqLen, nb);
    QuotientWithin(token, g.batch, g.seqLen);
  }

  lemma QuotientWithin(n: nat, bound: nat, d: nat)
    requires d > 0 && n < bound * d
    ensures n / d < bound
  {
    var q := n / d;
    assert n == q * d + n % d;
    assert (q - bound) * d == q * d - bound * d;
    if q >= bound { NonNegative(q - bound, d); }
  }

  /** The programs of a grid partition its heads: each head is in the tile of exactly one program. */
  lemma ProgramsPartition(g: Grid, program: nat, b: int, l: int, h: int)
    requires Good(g) && InGrid(g, b, l, h) && program < Programs(g)
    ensures HeadBlocks(g) > 0 && ProgramOf(g, b, l, h) < Programs(g)
    ensures InTile(g, TileOf(g, program), b, l, h) <==> program == ProgramOf(g, b, l, h)
  {
    TileOfProgram(g, b, l, h);
    if InTile(g, TileOf(g, program), b, l, h) { OneProgram(g, program, b, l, h); }
  }

  /** A grid with a program has heads to handle. */
  lemma GridNotEmpty(g: Grid, program: nat)
    requires Good(g) && program < Programs(g)
    ensures g.seqLen > 0 && HeadBlocks(g) > 0
  {
  }

  ghost predicate Permutation(order: seq<nat>, n: nat) {
    && (forall i | 0 <= i < |order| :: order[i] < n)
    && (forall i, j | 0 <= i < j < |order| :: order[i] != order[j])
    && (forall p | 0 <= p < n :: p in order)
  }
}
