/** How one window of a byte request is laid over whole sectors (StagedRequest.h). */
module StagedRequest {

  datatype Chunk = Chunk(mediaOffset: nat, bufferOffset: nat, requestBytes: nat, mediaBytes: nat) {
    predicate IsValid() { requestBytes != 0 && mediaBytes != 0 }

    predicate NeedsReadBeforeWrite() { bufferOffset != 0 || requestBytes != mediaBytes }
  }

  const NO_CHUNK := Chunk(0, 0, 0, 0)

  function Plan(requestOffset: nat, remainingBytes: nat, blockSize: nat, stagingSize: nat): Chunk {
    if remainingBytes == 0 || blockSize == 0 || stagingSize < blockSize || stagingSize % blockSize != 0
    then NO_CHUNK
    else
      var bufferOffset := requestOffset % blockSize;
      var mediaOffset := requestOffset - bufferOffset;
      var capacity := stagingSize - bufferOffset;
      var requestBytes := if remainingBytes > capacity then capacity else remainingBytes;
      var occupied := bufferOffset + requestBytes;
      var mediaBytes := (occupied + blockSize - 1) / blockSize * blockSize;
      if mediaBytes > stagingSize then NO_CHUNK
      else Chunk(mediaOffset, bufferOffset, requestBytes, mediaBytes)
  }

  // ---- rounding ----------------------------------------------------------------------

  lemma Multiply(x: int, b: nat)
    ensures x >= 1 ==> x * b >= b
    ensures x <= -1 ==> x * b <= -(b as int)
    ensures x >= 0 ==> x * b >= 0
  {
  }

  lemma MultipleMod(q: nat, b: nat)
    requires b > 0
    ensures (q * b) % b == 0
  {
    var d, r := (q * b) / b, (q * b) % b;
    assert (q - d) * b == r;
    Multiply(q - d, b);
  }

  lemma Quotient(x: nat, b: nat)
    requires b > 0
    ensures x == (x / b) * b + x % b
  {
  }

  /** Rounding up to whole blocks covers `x`, wastes less than a block, and stays below any whole
      number of blocks that covers `x`. */
  lemma RoundUp(x: nat, b: nat, q: nat)
    requires b > 0 && x <= q * b
    ensures var k := (x + b - 1) / b; x <= k * b < x + b && k * b <= q * b
  {
    var k := (x + b - 1) / b;
    Quotient(x + b - 1, b);
    assert (k - q) * b == k * b - q * b;
    Multiply(k - q, b);
    Multiply(q - k, b);
    assert (q - k) * b == q * b - k * b;
  }

  predicate GoodGeometry(blockSize: nat, stagingSize: nat) {
    0 < blockSize <= stagingSize && stagingSize % blockSize == 0
  }

  /** A window is planned exactly when there is something to move and the staging buffer holds whole
      blocks; in particular the final range check never refuses anything. */
  lemma PlanIsValidExactly(requestOffset: nat, remaining: nat, blockSize: nat, stagingSize: nat)
    ensures Plan(requestOffset, remaining, blockSize, stagingSize).IsValid()
       <==> remaining > 0 && GoodGeometry(blockSize, stagingSize)
  {
    if remaining > 0 && GoodGeometry(blockSize, stagingSize) {
      PlanCovers(requestOffset, remaining, blockSize, stagingSize);
    }
  }

  /** A planned window starts where the request stands, moves as much of it as fits, is the smallest
      run of whole blocks around it, and fits the staging buffer. */
  lemma PlanCovers(requestOffset: nat, remaining: nat, blockSize: nat, stagingSize: nat)
    requires remaining > 0 && GoodGeometry(blockSize, stagingSize)
    ensures var c := Plan(requestOffset, remaining, blockSize, stagingSize);
      && c.IsValid()
      && c.mediaOffset + c.bufferOffset == requestOffset && c.bufferOffset < blockSize
      && 0 < c.requestBytes <= remaining
      && (c.requestBytes == remaining || c.bufferOffset + c.requestBytes == stagingSize)
      && c.bufferOffset + c.requestBytes <= c.mediaBytes < c.bufferOffset + c.requestBytes + blockSize
      && c.mediaBytes <= stagingSize
      && c.mediaOffset % blockSize == 0 && c.mediaBytes % blockSize == 0
  {
    var b := blockSize;
    var bufferOffset := requestOffset % b;
    var capacity := stagingSize - bufferOffset;
    var requestBytes := if remaining > capacity then capacity else remaining;
    var occupied := bufferOffset + requestBytes;
    Quotient(stagingSize, b);
    RoundUp(occupied, b, stagingSize / b);
    Quotient(requestOffset, b);
    MultipleMod(requestOffset / b, b);
    MultipleMod((occupied + b - 1) / b, b);
  }

  /** A window of a request that ends inside a whole-block device ends inside it too. */
  lemma PlanStaysOnDevice(requestOffset: nat, remaining: nat, blockSize: nat, stagingSize: nat, blocks: nat)
    requires remaining > 0 && GoodGeometry(blockSize, stagingSize)
    requires requestOffset + remaining <= blocks * blockSize
    ensures var c := Plan(requestOffset, remaining, blockSize, stagingSize);
      c.mediaOffset + c.mediaBytes <= blocks * blockSize
  {
    hide Plan;
    var b := blockSize;
    var c := Plan(requestOffset, remaining, b, stagingSize);
    PlanCovers(requestOffset, remaining, b, stagingSize);
    Quotient(c.mediaOffset, b);
    Quotient(c.mediaBytes, b);
    var first, count := c.mediaOffset / b, c.mediaBytes / b;
    var beyond := first + count - blocks;
    assert beyond * b == c.mediaOffset + c.mediaBytes - blocks * b;
    Multiply(beyond, b);
    Multiply(-beyond, b);
    assert (-beyond) * b == -(beyond * b);
  }

  /** Only a window whose both ends lie on block boundaries is written without reading first. */
  lemma ReadSkippedOnlyWhenAligned(requestOffset: nat, remaining: nat, blockSize: nat, stagingSize: nat)
    requires remaining > 0 && GoodGeometry(blockSize, stagingSize)
    ensures var c := Plan(requestOffset, remaining, blockSize, stagingSize);
      !c.NeedsReadBeforeWrite() <==>
        requestOffset % blockSize == 0 && (requestOffset + c.requestBytes) % blockSize == 0
  {
    hide Plan;
    var b := blockSize;
    var c := Plan(requestOffset, remaining, b, stagingSize);
    PlanCovers(requestOffset, remaining, b, stagingSize);
    AlignedHead(requestOffset, c.mediaOffset, b);
    if c.bufferOffset == 0 {
      AlignedTail(requestOffset, c.requestBytes, c.mediaBytes, b);
    }
  }

  /** The block-aligned start below `x` is `x` itself exactly when `x` is aligned. */
  lemma AlignedHead(x: nat, start: nat, b: nat)
    requires b > 0 && start % b == 0 && start <= x < start + b
    ensures x == start <==> x % b == 0
  {
    Quotient(x, b);
    Quotient(start, b);
    var d := x / b - start / b;
    assert d * b == (x / b) * b - (start / b) * b;
    Multiply(d, b);
  }

  lemma AlignedTail(start: nat, bytes: nat, covering: nat, b: nat)
    requires b > 0 && start % b == 0 && covering % b == 0 && bytes <= covering < bytes + b
    ensures bytes == covering <==> (start + bytes) % b == 0
  {
    var end := start + bytes;
    Quotient(start, b);
    Quotient(covering, b);
    Quotient(end, b);
    var d := start / b + covering / b - end / b;
    assert d * b == (start / b) * b + (covering / b) * b - (end / b) * b;
    Multiply(d, b);
  }
}
