/** The tiled silu-and-mul kernels, forward and backward, limited to the rows below the last group offset
    (torchtitan/overrides/fused_swiglu.py). */
module SiluKernels {
  import opened MeshViews
  import opened Tiling
  import opened Wrappers

  type Tensor = array2<real>

  // ---------- one element ----------

  function Silu(sigmoid: real -> real, x: real): real { x * sigmoid(x) }

  function SiluGrad(sigmoid: real -> real, x: real): real { sigmoid(x) * (1.0 + x * (1.0 - sigmoid(x))) }

  function SiluMul(sigmoid: real -> real, gate: real, up: real): real { Silu(sigmoid, gate) * up }

  function GradGate(sigmoid: real -> real, g: real, gate: real, up: real): real { g * up * SiluGrad(sigmoid, gate) }

  function GradUp(sigmoid: real -> real, g: real, gate: real): real { g * Silu(sigmoid, gate) }

  /** A number with its derivative along some direction. */
  datatype Dual = Dual(value: real, slope: real)

  function Product(x: Dual, y: Dual): Dual { Dual(x.value * y.value, x.slope * y.value + x.value * y.slope) }

  /** sigmoid' = sigmoid * (1 - sigmoid) */
  function SigmoidOf(sigmoid: real -> real, x: Dual): Dual {
    Dual(sigmoid(x.value), sigmoid(x.value) * (1.0 - sigmoid(x.value)) * x.slope)
  }

  /** The dual number of silu(gate) * up. */
  function Output(sigmoid: real -> real, gate: Dual, up: Dual): Dual {
    Product(Product(gate, SigmoidOf(sigmoid, gate)), up)
  }

  lemma OutputValue(sigmoid: real -> real, gate: Dual, up: Dual)
    ensures Output(sigmoid, gate, up).value == SiluMul(sigmoid, gate.value, up.value)
  {
  }

  lemma OutputSlope(sigmoid: real -> real, gate: Dual, up: Dual)
    ensures Output(sigmoid, gate, up).slope
         == SiluGrad(sigmoid, gate.value) * gate.slope * up.value + Silu(sigmoid, gate.value) * up.slope
  {
    SiluSlope(gate.value, gate.slope, sigmoid(gate.value));
    var silu := Product(gate, SigmoidOf(sigmoid, gate));
    assert silu.slope == SiluGrad(sigmoid, gate.value) * gate.slope && silu.value == Silu(sigmoid, gate.value);
    hide SiluGrad, Silu, SigmoidOf;
    assert Product(silu, up).slope == silu.slope * up.value + silu.value * up.slope;
  }

  lemma SiluSlope(x: real, dx: real, s: real)
    ensures dx * s + x * (s * (1.0 - s) * dx) == s * (1.0 + x * (1.0 - s)) * dx
  {
  }

  /** The stored gradients are the chain rule's: weighted by the upstream gradient, the derivative of the output along
      any direction is the inner product of the two gradients with that direction. */
  lemma GradientsAreChainRule(sigmoid: real -> real, g: real, gate: Dual, up: Dual)
    ensures g * Output(sigmoid, gate, up).slope
         == GradGate(sigmoid, g, gate.value, up.value) * gate.slope + GradUp(sigmoid, g, gate.value) * up.slope
  {
    OutputSlope(sigmoid, gate, up);
    hide Output, SiluGrad, Silu;
    Distribute(g, SiluGrad(sigmoid, gate.value), gate.slope, up.value, Silu(sigmoid, gate.value), up.slope);
  }

  lemma Distribute(g: real, d: real, dx: real, u: real, v: real, du: real)
    ensures g * (d * dx * u + v * du) == g * u * d * dx + g * v * du
  {
  }

  // ---------- the grid ----------

  const BLOCK_M: pos := 4
  const MAX_BLOCK_N: pos := 2048

  function BlockN(cols: nat): pos
    requires cols > 0
  {
    NextPowerCovers(cols);
    if NextPowerOf2(cols) < MAX_BLOCK_N then NextPowerOf2(cols) else MAX_BLOCK_N
  }

  /** triton.cdiv */
  function Blocks(n: nat, block: pos): nat { Quot(n + block - 1, block) }

  type Program = (nat, nat)

  predicate InRowTile(p: nat, block: pos, i: int) { p * block <= i < p * block + block }

  predicate InTile(p: Program, bn: pos, i: int, j: int) { InRowTile(p.0, BLOCK_M, i) && InRowTile(p.1, bn, j) }

  lemma BlockOfIndex(i: nat, n: nat, block: pos, p: nat)
    requires i < n
    ensures Quot(i, block) < Blocks(n, block)
    ensures InRowTile(p, block, i) <==> p == Quot(i, block)
  {
    QuotRem(i, block);
    QuotientBelow(i, n + block - 1, block);
    if InRowTile(p, block, i) { AtQuotRem(p, block, i - p * block); }
  }

  /** Every element is in the tile of exactly one program of the grid. */
  lemma OneTile(rows: nat, cols: nat, i: nat, j: nat, p: Program)
    requires i < rows && j < cols
    ensures var bn := BlockN(cols);
            var owner := (Quot(i, BLOCK_M), Quot(j, bn));
            owner.0 < Blocks(rows, BLOCK_M) && owner.1 < Blocks(cols, bn) && (InTile(p, bn, i, j) <==> p == owner)
  {
    BlockOfIndex(i, rows, BLOCK_M, p.0);
    BlockOfIndex(j, cols, BlockN(cols), p.1);
  }

  /** The programs of the grid, in any order. */
  ghost predicate Schedule(order: seq<Program>, rows: nat, cols: nat)
    requires cols > 0
  {
    forall p: Program | p.0 < Blocks(rows, BLOCK_M) && p.1 < Blocks(cols, BlockN(cols)) :: p in order
  }

  predicate SameShape(a: Tensor, b: Tensor) { a.Length0 == b.Length0 && a.Length1 == b.Length1 }

  datatype Error = EmptyOffsets

  /** The rows the kernel treats: all, or those below the last group offset. */
  function RowLimit(offsets: Option<seq<nat>>, rows: nat): nat
    requires offsets.Some? ==> offsets.value != []
  {
    if offsets.Some? then offsets.value[|offsets.value| - 1] else rows
  }

  // ---------- the forward kernel ----------

  method ForwardProgram(sigmoid: real -> real, gate: Tensor, up: Tensor, out: Tensor, p: Program, bn: pos,
                        limit: nat, hasOffsets: bool)
    requires SameShape(gate, up) && SameShape(gate, out) && out != gate && out != up && limit <= gate.Length0
    modifies out
    ensures forall i, j | 0 <= i < out.Length0 && 0 <= j < out.Length1 ::
      out[i, j] == if InTile(p, bn, i, j) && i < limit then SiluMul(sigmoid, gate[i, j], up[i, j]) else old(out[i, j])
  {
    var row, col := p.0 * BLOCK_M, p.1 * bn;
    if hasOffsets && row >= limit {
      return;
    }
    for m := 0 to BLOCK_M
      invariant forall i, j | 0 <= i < out.Length0 && 0 <= j < out.Length1 ::
        out[i, j] == if row <= i < row + m && col <= j < col + bn && i < limit then SiluMul(sigmoid, gate[i, j], up[i, j])
                     else old(out[i, j])
    {
      for n := 0 to bn
        invariant forall i, j | 0 <= i < out.Length0 && 0 <= j < out.Length1 ::
          out[i, j] == if ((row <= i < row + m && col <= j < col + bn) || (i == row + m && col <= j < col + n)) && i < limit
                       then SiluMul(sigmoid, gate[i, j], up[i, j]) else old(out[i, j])
      {
        var i, j := row + m, col + n;
        if i < limit && j < gate.Length1 {
          out[i, j] := Silu(sigmoid, gate[i, j]) * up[i, j];
        }
      }
    }
  }

  /** In any order of programs, the rows below the limit are filled with silu(gate) * up and the others are left as
      they were. */
  method Forward(sigmoid: real -> real, gate: Tensor, up: Tensor, offsets: Option<seq<nat>>, out: Tensor,
                 order: seq<Program>)
    returns (e: Option<Error>)
    requires SameShape(gate, up) && SameShape(gate, out) && out != gate && out != up && gate.Length1 > 0
    requires Schedule(order, gate.Length0, gate.Length1)
    requires offsets.Some? && offsets.value != [] ==> RowLimit(offsets, gate.Length0) <= gate.Length0
    modifies out
    ensures e.Some? <==> offsets == Some([])
    ensures e.None? ==> var limit := if offsets.Some? then offsets.value[|offsets.value| - 1] else gate.Length0;
      forall i, j | 0 <= i < out.Length0 && 0 <= j < out.Length1 ::
        out[i, j] == if i < limit then SiluMul(sigmoid, gate[i, j], up[i, j]) else old(out[i, j])
  {
    if offsets == Some([]) {
      return Some(EmptyOffsets);
    }
    var bn := BlockN(gate.Length1);
    var limit := RowLimit(offsets, gate.Length0);
    ghost var done: set<Program> := {};
    for n := 0 to |order|
      invariant forall k | 0 <= k < n :: order[k] in done
      invariant forall i, j | 0 <= i < out.Length0 && 0 <= j < out.Length1 ::
        out[i, j] == if (Quot(i, BLOCK_M), Quot(j, bn)) in done && i < limit
                     then SiluMul(sigmoid, gate[i, j], up[i, j]) else old(out[i, j])
    {
      forall i, j | 0 <= i < out.Length0 && 0 <= j < out.Length1
        ensures InTile(order[n], bn, i, j) <==> order[n] == (Quot(i, BLOCK_M), Quot(j, bn))
      {
        OneTile(out.Length0, out.Length1, i, j, order[n]);
      }
      ForwardProgram(sigmoid, gate, up, out, order[n], bn, limit, offsets.Some?);
      done := done + {order[n]};
    }
    forall i, j | 0 <= i < out.Length0 && 0 <= j < out.Length1
      ensures (Quot(i, BLOCK_M), Quot(j, bn)) in done
    {
      OneTile(out.Length0, out.Length1, i, j, (0, 0));
    }
    return None;
  }

  // ---------- the backward kernel ----------

  method BackwardProgram(sigmoid: real -> real, gradOut: Tensor, gate: Tensor, up: Tensor, gradGate: Tensor,
                         gradUp: Tensor, p: Program, bn: pos, limit: nat, hasOffsets: bool)
    requires SameShape(gate, up) && SameShape(gate, gradOut) && SameShape(gate, gradGate) && SameShape(gate, gradUp)
    requires gradGate != gradUp && {gradGate, gradUp} !! {gradOut, gate, up} && limit <= gate.Length0
    modifies gradGate, gradUp
    ensures forall i, j | 0 <= i < gate.Length0 && 0 <= j < gate.Length1 ::
      gradGate[i, j] == if InTile(p, bn, i, j) && i < limit then GradGate(sigmoid, gradOut[i, j], gate[i, j], up[i, j])
                        else old(gradGate[i, j])
    ensures forall i, j | 0 <= i < gate.Length0 && 0 <= j < gate.Length1 ::
      gradUp[i, j] == if InTile(p, bn, i, j) && i < limit then GradUp(sigmoid, gradOut[i, j], gate[i, j])
                      else old(gradUp[i, j])
  {
    var row, col := p.0 * BLOCK_M, p.1 * bn;
    if hasOffsets && row >= limit {
      return;
    }
    hide GradGate, GradUp;
    for m := 0 to BLOCK_M
      invariant forall i, j | 0 <= i < gate.Length0 && 0 <= j < gate.Length1 ::
        gradGate[i, j] == if row <= i < row + m && col <= j < col + bn && i < limit
                          then GradGate(sigmoid, gradOut[i, j], gate[i, j], up[i, j]) else old(gradGate[i, j])
      invariant forall i, j | 0 <= i < gate.Length0 && 0 <= j < gate.Length1 ::
        gradUp[i, j] == if row <= i < row + m && col <= j < col + bn && i < limit
                        then GradUp(sigmoid, gradOut[i, j], gate[i, j]) else old(gradUp[i, j])
    {
      for n := 0 to bn
        invariant forall i, j | 0 <= i < gate.Length0 && 0 <= j < gate.Length1 ::
          gradGate[i, j] == if ((row <= i < row + m && col <= j < col + bn) || (i == row + m && col <= j < col + n)) && i < limit
                            then GradGate(sigmoid, gradOut[i, j], gate[i, j], up[i, j]) else old(gradGate[i, j])
        invariant forall i, j | 0 <= i < gate.Length0 && 0 <= j < gate.Length1 ::
          gradUp[i, j] == if ((row <= i < row + m && col <= j < col + bn) || (i == row + m && col <= j < col + n)) && i < limit
                          then GradUp(sigmoid, gradOut[i, j], gate[i, j]) else old(gradUp[i, j])
      {
        var i, j := row + m, col + n;
        if i < limit && j < gate.Length1 {
          gradGate[i, j] := GradGate(sigmoid, gradOut[i, j], gate[i, j], up[i, j]);
          gradUp[i, j] := GradUp(sigmoid, gradOut[i, j], gate[i, j]);
        }
      }
    }
  }

  /** Both gradients on every row below the limit, and neither touched elsewhere, in any order of programs. */
  method Backward(sigmoid: real -> real, gradOut: Tensor, gate: Tensor, up: Tensor, offsets: Option<seq<nat>>,
                  gradGate: Tensor, gradUp: Tensor, order: seq<Program>)
    returns (e: Option<Error>)
    requires SameShape(gate, up) && SameShape(gate, gradOut) && SameShape(gate, gradGate) && SameShape(gate, gradUp)
    requires gradGate != gradUp && {gradGate, gradUp} !! {gradOut, gate, up} && gate.Length1 > 0
    requires Schedule(order, gate.Length0, gate.Length1)
    requires offsets.Some? && offsets.value != [] ==> RowLimit(offsets, gate.Length0) <= gate.Length0
    modifies gradGate, gradUp
    ensures e.Some? <==> offsets == Some([])
    ensures e.None? ==> var limit := if offsets.Some? then offsets.value[|offsets.value| - 1] else gate.Length0;
      forall i, j | 0 <= i < gate.Length0 && 0 <= j < gate.Length1 ::
        gradGate[i, j] == if i < limit then GradGate(sigmoid, gradOut[i, j], gate[i, j], up[i, j]) else old(gradGate[i, j])
    ensures e.None? ==> var limit := if offsets.Some? then offsets.value[|offsets.value| - 1] else gate.Length0;
      forall i, j | 0 <= i < gate.Length0 && 0 <= j < gate.Length1 ::
        gradUp[i, j] == if i < limit then GradUp(sigmoid, gradOut[i, j], gate[i, j]) else old(gradUp[i, j])
  {
    if offsets == Some([]) {
      return Some(EmptyOffsets);
    }
    hide GradGate, GradUp;
    var bn := BlockN(gate.Length1);
    var limit := RowLimit(offsets, gate.Length0);
    ghost var done: set<Program> := {};
    for n := 0 to |order|
      invariant forall k | 0 <= k < n :: order[k] in done
      invariant forall i, j | 0 <= i < gate.Length0 && 0 <= j < gate.Length1 ::
        gradGate[i, j] == if (Quot(i, BLOCK_M), Quot(j, bn)) in done && i < limit
                          then GradGate(sigmoid, gradOut[i, j], gate[i, j], up[i, j]) else old(gradGate[i, j])
      invariant forall i, j | 0 <= i < gate.Length0 && 0 <= j < gate.Length1 ::
        gradUp[i, j] == if (Quot(i, BLOCK_M), Quot(j, bn)) in done && i < limit
                        then GradUp(sigmoid, gradOut[i, j], gate[i, j]) else old(gradUp[i, j])
    {
      forall i, j | 0 <= i < gate.Length0 && 0 <= j < gate.Length1
        ensures InTile(order[n], bn, i, j) <==> order[n] == (Quot(i, BLOCK_M), Quot(j, bn))
      {
        OneTile(gate.Length0, gate.Length1, i, j, order[n]);
      }
      BackwardProgram(sigmoid, gradOut, gate, up, gradGate, gradUp, order[n], bn, limit, offsets.Some?);
      done := done + {order[n]};
    }
    forall i, j | 0 <= i < gate.Length0 && 0 <= j < gate.Length1
      ensures (Quot(i, BLOCK_M), Quot(j, bn)) in done
    {
      OneTile(gate.Length0, gate.Length1, i, j, (0, 0));
    }
    return None;
  }
}
