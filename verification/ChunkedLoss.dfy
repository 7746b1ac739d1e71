/** The chunk loop of ChunkedLossWrapper and its GradAccumulator (torchtitan/components/loss.py). */
module ChunkedLoss {
  import opened Sums
  import opened Wrappers

  type Row = seq<real>

  datatype AddError = TooManyChunks | ShapeMismatch

  /** Collects chunk gradients, in order, in one buffer of rows. */
  class GradAccumulator {
    const numChunks: nat
    var nextIdx: nat
    var buffer: array<Row>

    constructor (rows: nat, width: nat, numChunks: nat)
      ensures fresh(buffer) && buffer.Length == rows && nextIdx == 0 && this.numChunks == numChunks
      ensures forall i | 0 <= i < rows :: buffer[i] == seq(width, _ => 0.0)
    {
      this.numChunks, nextIdx := numChunks, 0;
      buffer := new Row[rows](i => seq(width, _ => 0.0));
    }

    /** Writes the chunk where its index and its own length put it; rows past the end cannot be assigned, except that a
        single row broadcasts to no rows at all. */
    method Add(chunk: seq<Row>) returns (error: Option<AddError>)
      modifies this`nextIdx, buffer
      ensures error == Some(TooManyChunks) <==> old(nextIdx) >= numChunks
      ensures error.None? <==>
        old(nextIdx) < numChunks && (|chunk| == 1 || Offset(old(nextIdx), |chunk|) + |chunk| <= buffer.Length)
      ensures error.Some? ==> nextIdx == old(nextIdx) && buffer[..] == old(buffer[..])
      ensures error.None? ==> nextIdx == old(nextIdx) + 1
      ensures error.None? ==> forall i | 0 <= i < buffer.Length :: var start := Offset(old(nextIdx), |chunk|);
        buffer[i] == if start <= i < start + |chunk| then chunk[i - start] else old(buffer[i])
    {
      if nextIdx >= numChunks {
        return Some(TooManyChunks);
      }
      var start := Offset(nextIdx, |chunk|);
      if start + |chunk| <= buffer.Length {
        for k := 0 to |chunk|
          invariant nextIdx == old(nextIdx)
          invariant forall i | 0 <= i < buffer.Length ::
            buffer[i] == if start <= i < start + k then chunk[i - start] else old(buffer[i])
        {
          buffer[start + k] := chunk[k];
        }
      } else if |chunk| != 1 {
        return Some(ShapeMismatch);
      }
      nextIdx := nextIdx + 1;
      error := None;
    }
  }

  // ---------- the chunk loop ----------

  /** A loss that is a sum over tokens: each token's loss and the gradient of its hidden state. */
  datatype TokenLoss = TokenLoss(loss: (Row, int) -> real, grad: (Row, int) -> Row)

  function LossAt(f: TokenLoss, h: seq<Row>, labels: seq<int>): int -> real {
    i => if 0 <= i < |h| && i < |labels| then f.loss(h[i], labels[i]) else 0.0
  }

  /** The loss of the tokens of a (whole or partial) sequence. */
  function SequenceLoss(f: TokenLoss, h: seq<Row>, labels: seq<int>): real {
    Sum(|h|, LossAt(f, h, labels))
  }

  function SequenceGrad(f: TokenLoss, h: seq<Row>, labels: seq<int>): (g: seq<Row>)
    requires |h| == |labels|
    ensures |g| == |h| && forall i | 0 <= i < |h| :: g[i] == f.grad(h[i], labels[i])
  {
    seq(|h|, i requires 0 <= i < |h| => f.grad(h[i], labels[i]))
  }

  /** Chunk c of a sequence cut into chunks of len. */
  function Chunk<T>(s: seq<T>, c: nat, len: nat): seq<T>
    requires Offset(c, len) + len <= |s|
  {
    s[Offset(c, len)..Offset(c, len) + len]
  }

  lemma ChunkLoss(f: TokenLoss, h: seq<Row>, labels: seq<int>, c: nat, len: nat)
    requires |h| == |labels| && Offset(c, len) + len <= |h|
    ensures Sum(Offset(c + 1, len), LossAt(f, h, labels)) ==
            Sum(Offset(c, len), LossAt(f, h, labels)) + SequenceLoss(f, Chunk(h, c, len), Chunk(labels, c, len))
  {
    var all, part := LossAt(f, h, labels), LossAt(f, Chunk(h, c, len), Chunk(labels, c, len));
    SumSplit(Offset(c, len), len, all);
    forall i | 0 <= i < len ensures all(Offset(c, len) + i) == part(i) { }
    SumFromExt(Offset(c, len), len, all, part);
  }

  lemma GradOfChunk(f: TokenLoss, h: seq<Row>, labels: seq<int>, c: nat, len: nat)
    requires |h| == |labels| && Offset(c, len) + len <= |h|
    ensures |SequenceGrad(f, Chunk(h, c, len), Chunk(labels, c, len))| == len
    ensures forall k | 0 <= k < len ::
      SequenceGrad(f, Chunk(h, c, len), Chunk(labels, c, len))[k] == SequenceGrad(f, h, labels)[Offset(c, len) + k]
  {
  }

  datatype ChunkError = NotDivisible

  lemma ChunkBounds(n: nat, chunks: nat, c: nat)
    requires chunks > 0 && n % chunks == 0 && c < chunks
    ensures Offset(c, n / chunks) + n / chunks <= n && Offset(chunks, n / chunks) == n && Offset(0, n / chunks) == 0
    ensures Offset(c + 1, n / chunks) == Offset(c, n / chunks) + n / chunks
  {
    SplitsIsDivisibility(n, chunks);
    SharesCover(n, chunks);
    OffsetBound(c, chunks, n / chunks);
  }

  /** One chunk's gradient, put in its place. */
  method AddChunk(f: TokenLoss, h: seq<Row>, labels: seq<int>, c: nat, len: nat, accumulator: GradAccumulator)
    requires |h| == |labels| == accumulator.buffer.Length && Offset(c, len) + len <= |h|
    requires accumulator.nextIdx == c < accumulator.numChunks
    modifies accumulator`nextIdx, accumulator.buffer
    ensures accumulator.nextIdx == c + 1
    ensures forall i | Offset(c, len) <= i < Offset(c, len) + len :: accumulator.buffer[i] == SequenceGrad(f, h, labels)[i]
    ensures forall i | 0 <= i < Offset(c, len) :: accumulator.buffer[i] == old(accumulator.buffer[i])
  {
    var g := SequenceGrad(f, Chunk(h, c, len), Chunk(labels, c, len));
    GradOfChunk(f, h, labels, c, len);
    var error := accumulator.Add(g);
    assert error.None?;
  }

  /** Cutting the tokens into equal chunks changes neither the loss nor, with gradients on, the gradient. */
  method Loss(f: TokenLoss, h: seq<Row>, labels: seq<int>, width: nat, numChunks: nat, requiresGrad: bool)
    returns (r: Result<(real, Option<seq<Row>>), ChunkError>)
    requires numChunks > 0 && |h| == |labels|
    ensures r.Ok? <==> |h| % numChunks == 0
    ensures r.Ok? ==> r.value.0 == SequenceLoss(f, h, labels)
    ensures r.Ok? ==> r.value.1 == if requiresGrad then Some(SequenceGrad(f, h, labels)) else None
  {
    hide Offset, LossAt;
    if |h| % numChunks != 0 {
      return Err(NotDivisible);
    }
    var len := |h| / numChunks;
    ChunkBounds(|h|, numChunks, 0);
    var accumulator := new GradAccumulator(|h|, width, numChunks);
    var total := 0.0;
    ghost var whole := SequenceGrad(f, h, labels);
    for c := 0 to numChunks
      invariant accumulator.buffer.Length == |h| && accumulator.numChunks == numChunks && fresh(accumulator.buffer)
      invariant total == Sum(Offset(c, len), LossAt(f, h, labels)) && Offset(c, len) <= |h|
      invariant requiresGrad ==> accumulator.nextIdx == c
      invariant requiresGrad ==> forall i | 0 <= i < Offset(c, len) :: accumulator.buffer[i] == whole[i]
    {
      ChunkBounds(|h|, numChunks, c);
      ChunkLoss(f, h, labels, c, len);
      var hChunk, labelChunk := Chunk(h, c, len), Chunk(labels, c, len);
      total := total + SequenceLoss(f, hChunk, labelChunk);
      if requiresGrad {
        AddChunk(f, h, labels, c, len, accumulator);
      }
    }
    if !requiresGrad {
      return Ok((total, None));
    }
    assert accumulator.buffer[..] == whole;
    r := Ok((total, Some(accumulator.buffer[..])));
  }
}
