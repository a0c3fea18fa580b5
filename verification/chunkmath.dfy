/**
 The chunk arithmetic shared by the request validator, the upload service and the two splitters.
 */
module ChunkMath {
  import opened Wrappers
  import opened Numbers

  // The count validateRequest demands for a file.
  function ChunkCount(size: int, chunkSize: int): int
    requires size >= 0 && chunkSize > 0
  {
    size / chunkSize + (if size % chunkSize != 0 then 1 else 0)
  }

  // The exact number of bytes the upload service accepts for one chunk.
  function ExpectedChunkSize(size: int, chunkSize: int, chunkCount: int, index: nat): Option<int> {
    if index >= chunkCount || chunkSize <= 0 || size < 0 then None
    else if index < chunkCount - 1 then Some(chunkSize)
    else Some(size - index * chunkSize)
  }

  // The bytes of the first n chunks.
  ghost function TotalOfFirst(size: int, chunkSize: int, chunkCount: int, n: nat): int
    requires size >= 0 && chunkSize > 0 && n <= chunkCount
  {
    if n == 0 then 0
    else
      var last := ExpectedChunkSize(size, chunkSize, chunkCount, n - 1).value;
      TotalOfFirst(size, chunkSize, chunkCount, n - 1) + last
  }

  lemma {:induction false} TotalBeforeLast(size: int, chunkSize: int, chunkCount: int, n: nat)
    requires size >= 0 && chunkSize > 0 && n < chunkCount
    ensures TotalOfFirst(size, chunkSize, chunkCount, n) == n * chunkSize
  {
    if n > 0 {
      TotalBeforeLast(size, chunkSize, chunkCount, n - 1);
    }
  }

  lemma CountBounds(size: int, chunkSize: int)
    requires size >= 0 && chunkSize > 0
    ensures var n := ChunkCount(size, chunkSize);
      n >= 0 && (n == 0 <==> size == 0) && (n > 0 ==> (n - 1) * chunkSize < size <= n * chunkSize)
  {
    var q, r := size / chunkSize, size % chunkSize;
    assert size == q * chunkSize + r;
    if r == 0 && q > 0 {
      assert (q - 1) * chunkSize == q * chunkSize - chunkSize;
    }
    if r != 0 {
      assert (q + 1) * chunkSize == q * chunkSize + chunkSize;
    }
  }

  // A quotient is pinned by the interval its multiple falls in.
  lemma CountUnique(size: int, chunkSize: int, a: int, b: int)
    requires chunkSize > 0
    requires (a - 1) * chunkSize < size <= a * chunkSize
    requires (b - 1) * chunkSize < size <= b * chunkSize
    ensures a == b
  {
    MulMonotone(a, b - 1, chunkSize);
    MulMonotone(b, a - 1, chunkSize);
  }

  // An accepted count makes the expected sizes add up to the declared size.
  lemma ExpectedSizesAddUp(size: int, chunkSize: int)
    requires size >= 0 && chunkSize > 0
    ensures var n := ChunkCount(size, chunkSize);
      n >= 0 && TotalOfFirst(size, chunkSize, n, n) == size
  {
    CountBounds(size, chunkSize);
    var n := ChunkCount(size, chunkSize);
    if n > 0 {
      TotalBeforeLast(size, chunkSize, n, n - 1);
    }
  }

  // The validator's count is the only one for which every chunk is non-empty and fits a buffer, and
  // which leaves no chunk to a file exactly when the file is empty.
  lemma AcceptedCountIffChunksFit(size: int, chunkSize: int, chunkCount: int)
    requires size >= 0 && chunkSize > 0
    ensures chunkCount == ChunkCount(size, chunkSize) <==>
      && chunkCount >= 0 && (chunkCount == 0 ==> size == 0)
      && forall i: nat :: i < chunkCount ==> ChunkFits(size, chunkSize, chunkCount, i)
  {
    CountBounds(size, chunkSize);
    if chunkCount > 0 {
      var last: nat := chunkCount - 1;
      assert chunkCount * chunkSize == last * chunkSize + chunkSize;
      if forall i: nat :: i < chunkCount ==> ChunkFits(size, chunkSize, chunkCount, i) {
        assert ChunkFits(size, chunkSize, chunkCount, last);
        assert 0 <= last * chunkSize;
        CountUnique(size, chunkSize, chunkCount, ChunkCount(size, chunkSize));
      }
    }
  }

  predicate ChunkFits(size: int, chunkSize: int, chunkCount: int, i: nat) {
    var expected := ExpectedChunkSize(size, chunkSize, chunkCount, i);
    expected.Some? && 0 < expected.value <= chunkSize
  }
}
