/**
 * What the server's `complete` writes (upload_server.py): the stored chunks, smallest
 * index first, one after the other. `Assemble` is the reference definition; `Concat`
 * is what a loop over an ascending list of indices builds.
 */
module Assembly {
  import opened Chunking

  predicate StrictlyIncreasing(s: seq<int>) {
    forall i, j :: 0 <= i < j < |s| ==> s[i] < s[j]
  }

  /** The integers `lo, lo + 1, ..., hi - 1` (Python's `range(lo, hi)`). */
  function Range(lo: int, hi: int): (r: seq<int>)
    decreases hi - lo
    ensures |r| == if lo < hi then hi - lo else 0
    ensures forall k :: 0 <= k < |r| ==> r[k] == lo + k
    ensures StrictlyIncreasing(r)
    ensures forall x :: x in r <==> lo <= x < hi
  {
    if lo >= hi then [] else [lo] + Range(lo + 1, hi)
  }

  /** The contents of the chunks `ks` of `m`, in the order of `ks`. */
  function Concat(m: map<int, seq<byte>>, ks: seq<int>): seq<byte>
    requires forall i :: 0 <= i < |ks| ==> ks[i] in m
  {
    if ks == [] then [] else m[ks[0]] + Concat(m, ks[1..])
  }

  lemma NonEmptyHasElement(s: set<int>)
    requires s != {}
    ensures exists x :: x in s
  {
    if forall x :: x !in s {
      assert false;
    }
  }

  /** The smallest element of a non-empty set of integers. */
  ghost function Least(s: set<int>): (k: int)
    requires s != {}
    ensures k in s && forall j :: j in s ==> k <= j
  {
    NonEmptyHasElement(s);
    var x :| x in s;
    if s - {x} == {} then
      assert forall j :: j in s ==> j == x by {
        forall j | j in s ensures j == x { assert j in s - {x} || j == x; }
      }
      x
    else
      var y := Least(s - {x});
      assert forall j :: j in s ==> j == x || j in s - {x};
      if x < y then x else y
  }

  /** The chunks of `m` concatenated in ascending index order, whatever the indices are. */
  ghost function Assemble(m: map<int, seq<byte>>): (r: seq<byte>)
    ensures m == map[] ==> r == []
    ensures m != map[] ==> |m[Least(m.Keys)]| <= |r| && r[..|m[Least(m.Keys)]|] == m[Least(m.Keys)]
    ensures forall k :: k in m ==> |m[k]| <= |r|
    decreases m.Keys
  {
    if m.Keys == {} then []
    else
      var k := Least(m.Keys);
      assert (m - {k}).Keys < m.Keys;
      assert forall j :: j in m - {k} ==> (m - {k})[j] == m[j];
      m[k] + Assemble(m - {k})
  }

  lemma {:induction false} ConcatAgree(m1: map<int, seq<byte>>, m2: map<int, seq<byte>>, ks: seq<int>)
    requires forall i :: 0 <= i < |ks| ==> ks[i] in m1 && ks[i] in m2 && m1[ks[i]] == m2[ks[i]]
    ensures Concat(m1, ks) == Concat(m2, ks)
  {
    if ks != [] {
      ConcatAgree(m1, m2, ks[1..]);
    }
  }

  /** The first of strictly ascending indices that list every key is the least key. */
  lemma HeadIsLeast(m: map<int, seq<byte>>, ks: seq<int>)
    requires ks != [] && StrictlyIncreasing(ks)
    requires forall i :: 0 <= i < |ks| ==> ks[i] in m
    requires forall k :: k in m ==> k in ks
    ensures ks[0] in m.Keys && Least(m.Keys) == ks[0]
  {
    assert ks[0] in m;
    forall j | j in m ensures ks[0] <= j {
      var i :| 0 <= i < |ks| && ks[i] == j;
      assert i == 0 || ks[0] < ks[i];
    }
  }

  /** Dropping the least key and the first index keeps the two in agreement. */
  lemma TailListsRest(m: map<int, seq<byte>>, ks: seq<int>)
    requires ks != [] && StrictlyIncreasing(ks)
    requires forall i :: 0 <= i < |ks| ==> ks[i] in m
    requires forall k :: k in m ==> k in ks
    ensures StrictlyIncreasing(ks[1..])
    ensures forall i :: 0 <= i < |ks[1..]| ==> ks[1..][i] in m - {ks[0]}
    ensures forall k :: k in m - {ks[0]} ==> k in ks[1..]
  {
    forall i | 0 <= i < |ks[1..]| ensures ks[1..][i] in m - {ks[0]} {
      assert ks[1..][i] == ks[i + 1] && ks[0] < ks[i + 1];
    }
    forall k | k in m - {ks[0]} ensures k in ks[1..] {
      var i :| 0 <= i < |ks| && ks[i] == k;
      assert ks[1..][i - 1] == k;
    }
  }

  /** Walking the stored indices in strictly ascending order yields the reference assembly. */
  lemma {:induction false} AscendingConcatIsAssemble(m: map<int, seq<byte>>, ks: seq<int>)
    requires StrictlyIncreasing(ks)
    requires forall i :: 0 <= i < |ks| ==> ks[i] in m
    requires forall k :: k in m ==> k in ks
    ensures Concat(m, ks) == Assemble(m)
  {
    if ks == [] {
      assert forall k :: k !in m.Keys;
    } else {
      HeadIsLeast(m, ks);
      TailListsRest(m, ks);
      var rest := m - {ks[0]};
      AscendingConcatIsAssemble(rest, ks[1..]);
      ConcatAgree(m, rest, ks[1..]);
    }
  }

  /** The chunks the client sends for a whole file: index `i` carries `ChunkOf(file, i, chunkSize)`. */
  function FileChunks(file: seq<byte>, chunkSize: nat): (m: map<int, seq<byte>>)
    requires chunkSize > 0
    ensures forall i :: i in m <==> 0 <= i < TotalChunks(|file|, chunkSize)
    ensures forall i :: i in m ==> m[i] == ChunkOf(file, i, chunkSize)
  {
    map i | 0 <= i < TotalChunks(|file|, chunkSize) :: ChunkOf(file, i, chunkSize)
  }

  /** Chunk `j + 1` starts one chunk after chunk `j`; kept apart to keep multiplication out of the proofs that use it. */
  lemma NextChunkStart(j: nat, chunkSize: nat)
    ensures (j + 1) * chunkSize == j * chunkSize + chunkSize
  {
  }

  /** Chunk `j` followed by everything from chunk `j + 1` on is everything from chunk `j` on. */
  lemma ChunkThenRest(file: seq<byte>, chunkSize: nat, j: nat)
    requires chunkSize > 0
    requires j < TotalChunks(|file|, chunkSize)
    ensures ChunkOf(file, j, chunkSize) + file[Min(|file|, (j + 1) * chunkSize)..]
            == file[Min(|file|, j * chunkSize)..]
  {
    var start := j * chunkSize;
    NextChunkStart(j, chunkSize);
    ChunkStartBounds(|file|, j, chunkSize);
    var end := Min(|file|, start + chunkSize);
    assert ChunkOf(file, j, chunkSize) == file[start .. end];
    assert file[start..] == file[start .. end] + file[end..];
  }

  lemma {:induction false} ChunksCoverSuffix(file: seq<byte>, chunkSize: nat, j: nat)
    requires chunkSize > 0
    requires j <= TotalChunks(|file|, chunkSize)
    ensures Concat(FileChunks(file, chunkSize), Range(j, TotalChunks(|file|, chunkSize)))
            == file[Min(|file|, j * chunkSize)..]
    decreases TotalChunks(|file|, chunkSize) - j
  {
    var n := TotalChunks(|file|, chunkSize);
    var m := FileChunks(file, chunkSize);
    if j < n {
      assert Range(j, n)[1..] == Range(j + 1, n);
      ChunksCoverSuffix(file, chunkSize, j + 1);
      ChunkThenRest(file, chunkSize, j);
    } else {
      ChunkStartBounds(|file|, j, chunkSize);
    }
  }

  /** Sending every chunk of a file and assembling them gives back the file. */
  lemma AssembleFileChunks(file: seq<byte>, chunkSize: nat)
    requires chunkSize > 0
    ensures Assemble(FileChunks(file, chunkSize)) == file
  {
    var n := TotalChunks(|file|, chunkSize);
    ChunksCoverSuffix(file, chunkSize, 0);
    AscendingConcatIsAssemble(FileChunks(file, chunkSize), Range(0, n));
  }

  /** Every stored chunk is the chunk of `file` at its index. */
  ghost predicate Consistent(m: map<int, seq<byte>>, file: seq<byte>, chunkSize: nat)
    requires chunkSize > 0
  {
    forall i :: i in m ==> 0 <= i < TotalChunks(|file|, chunkSize) && m[i] == ChunkOf(file, i, chunkSize)
  }

  /** Stored chunks that are all correct and leave no index out assemble to the file. */
  lemma CoveredChunksAssembleFile(m: map<int, seq<byte>>, file: seq<byte>, chunkSize: nat)
    requires chunkSize > 0
    requires Consistent(m, file, chunkSize)
    requires forall i :: 0 <= i < TotalChunks(|file|, chunkSize) ==> i in m
    ensures Assemble(m) == file
  {
    assert m == FileChunks(file, chunkSize);
    AssembleFileChunks(file, chunkSize);
  }

  /** Assembly does not look for gaps: a missing index 1 silently shortens the output. */
  lemma AssemblySkipsGaps(a: seq<byte>, b: seq<byte>)
    ensures Assemble(map[0 := a, 2 := b]) == a + b
  {
    var m := map[0 := a, 2 := b];
    AscendingConcatIsAssemble(m, [0, 2]);
    assert Concat(m, [0, 2]) == a + Concat(m, [2]);
    assert Concat(m, [2]) == b + Concat(m, []);
  }
}
