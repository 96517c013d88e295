/**
 * How the client cuts a file into chunks (onboard/uploader.py).
 * A file is a sequence of bytes; chunk `idx` is what `f.seek(idx * chunk_size)`
 * followed by `f.read(chunk_size)` returns.
 */
module Chunking {
  newtype byte = x: int | 0 <= x < 256

  function Min(a: int, b: int): int { if a <= b then a else b }

  /** Facts about `(a + b - 1) / b` that make it the ceiling of `a / b`. */
  lemma CeilingDivision(a: nat, b: nat)
    requires b > 0
    ensures a <= ((a + b - 1) / b) * b
    ensures (a + b - 1) / b == 0 || ((a + b - 1) / b - 1) * b < a
  {
    var q, r := (a + b - 1) / b, (a + b - 1) % b;
    assert a + b - 1 == q * b + r && 0 <= r < b;
    assert (q - 1) * b == q * b - b;
  }

  /**
   * The number of chunks, `(file_size + chunk_size - 1) // chunk_size`: the least
   * count whose chunks cover the file, hence 0 for an empty file.
   */
  function TotalChunks(fileSize: nat, chunkSize: nat): (n: nat)
    requires chunkSize > 0
    ensures fileSize <= n * chunkSize
    ensures n == 0 || (n - 1) * chunkSize < fileSize
    ensures n == 0 <==> fileSize == 0
  {
    CeilingDivision(fileSize, chunkSize);
    (fileSize + chunkSize - 1) / chunkSize
  }

  /** Multiplying by a size keeps order; kept apart to keep multiplication out of the proofs that use it. */
  lemma MulMonotonic(a: nat, b: nat, c: nat)
    requires a <= b
    ensures a * c <= b * c
  {
  }

  /** Where chunk `idx` starts relative to the end of the file, by its position among the chunks. */
  lemma ChunkStartBounds(fileSize: nat, idx: nat, chunkSize: nat)
    requires chunkSize > 0
    ensures var n := TotalChunks(fileSize, chunkSize);
      && (idx < n ==> idx * chunkSize < fileSize)
      && (idx >= n ==> idx * chunkSize >= fileSize)
      && (idx + 1 < n ==> idx * chunkSize + chunkSize <= fileSize)
  {
    var n := TotalChunks(fileSize, chunkSize);
    if idx < n {
      MulMonotonic(idx, n - 1, chunkSize);
    } else {
      MulMonotonic(n, idx, chunkSize);
    }
    if idx + 1 < n {
      MulMonotonic(idx + 1, n - 1, chunkSize);
      assert (idx + 1) * chunkSize == idx * chunkSize + chunkSize;
    }
  }

  /** The bytes the client reads for chunk `idx`; empty at or past the end of the file. */
  function ChunkOf(file: seq<byte>, idx: nat, chunkSize: nat): (c: seq<byte>)
    requires chunkSize > 0
    ensures |c| <= chunkSize
    ensures forall k :: 0 <= k < |c| ==> idx * chunkSize + k < |file| && c[k] == file[idx * chunkSize + k]
    ensures |c| == 0 <==> idx >= TotalChunks(|file|, chunkSize)
    ensures idx + 1 < TotalChunks(|file|, chunkSize) ==> |c| == chunkSize
    ensures idx < TotalChunks(|file|, chunkSize) ==> idx * chunkSize + |c| == Min(|file|, idx * chunkSize + chunkSize)
  {
    var start := idx * chunkSize;
    ChunkStartBounds(|file|, idx, chunkSize);
    if start >= |file| then []
    else
      var end := Min(|file|, start + chunkSize);
      assert |file[start .. end]| == end - start;
      file[start .. end]
  }
}
