/**
 * The upload server (upload_server.py). Everything lives under one upload root: a
 * directory per session, named by its upload id, holding `meta_filename.txt` and one
 * `chunk_{i}.part` per stored chunk, and beside them the assembled files
 * `<upload_id>__<original_name>`. The root is a map from entry names to entries.
 */
module UploadServer {
  import opened Wrappers
  import opened Chunking
  import opened ChunkNames
  import opened Assembly

  /** The chunk size every session is handed out: 10 MiB. */
  const CHUNK_SIZE: nat := 10 * 1024 * 1024
  /** The name an assembled file gets when the stored filename is blank. */
  const DefaultArtifactName: string := "assembled.bin"

  /** A session directory: the text of `meta_filename.txt` and the chunk files by index. */
  datatype Session = Session(filename: string, chunks: map<int, seq<byte>>)

  /** An entry of the upload root. */
  datatype Entry = SessionDir(session: Session) | StoredFile(contents: seq<byte>)

  /** The HTTP errors the handlers raise: 404, 400 and 500. */
  datatype Error = NotFound | BadRequest | InternalError

  datatype Reply<T> = Ok(value: T) | Fail(error: Error)

  datatype InitiateResponse = InitiateResponse(uploadId: string, chunkSize: nat)

  predicate IsSession(root: map<string, Entry>, id: string) {
    id in root && root[id].SessionDir?
  }

  predicate IsStoredFile(root: map<string, Entry>, id: string) {
    id in root && root[id].StoredFile?
  }

  /** The entries `upload_chunk` has written into a session directory. */
  function ChunkEntries(chunks: map<int, seq<byte>>): set<string> {
    set i | i in chunks :: ChunkName(i)
  }

  lemma ChunkEntriesParse(chunks: map<int, seq<byte>>)
    ensures forall n :: n in ChunkEntries(chunks) ==> ParseChunkName(n).Some? && ParseChunkName(n).value in chunks
  {
    forall n | n in ChunkEntries(chunks)
      ensures ParseChunkName(n).Some? && ParseChunkName(n).value in chunks
    {
      var i :| i in chunks && ChunkName(i) == n;
      ChunkNameRoundTrip(i);
    }
  }

  /**
   * What `os.listdir` returns for a session directory: the filename entry and one entry
   * per stored chunk, each of which parses back to an index that is stored.
   */
  function Listing(s: Session): (names: set<string>)
    ensures MetaFileName in names && ParseChunkName(MetaFileName) == None
    ensures forall i :: i in s.chunks ==> ChunkName(i) in names
    ensures forall n :: n in names && n != MetaFileName ==>
              ParseChunkName(n).Some? && ParseChunkName(n).value in s.chunks
  {
    ChunkEntriesParse(s.chunks);
    MetaFileIsNotAChunk();
    {MetaFileName} + ChunkEntries(s.chunks)
  }

  /**
   * What reading back a text file written with `written` gives on a POSIX system: text mode
   * with universal newlines turns every `\r\n` and every other `\r` into `\n`.
   */
  function TextModeRead(written: string): (text: string)
    ensures '\r' !in text
    ensures '\r' !in written ==> text == written
    ensures (forall k :: 0 <= k < |written| ==> IsSpace(written[k])) ==> forall k :: 0 <= k < |text| ==> IsSpace(text[k])
  {
    if written == [] then []
    else if written[0] == '\r' then
      "\n" + TextModeRead(if |written| > 1 && written[1] == '\n' then written[2..] else written[1..])
    else [written[0]] + TextModeRead(written[1..])
  }

  /** `s.replace("\r\n", "\n")`: each `\r\n`, matched from the left, becomes `\n`. */
  function ReplaceCrLf(s: string): string {
    if s == [] then []
    else if |s| > 1 && s[0] == '\r' && s[1] == '\n' then "\n" + ReplaceCrLf(s[2..])
    else [s[0]] + ReplaceCrLf(s[1..])
  }

  /** `s.replace("\r", "\n")`. */
  function ReplaceCr(s: string): string {
    if s == [] then [] else [if s[0] == '\r' then '\n' else s[0]] + ReplaceCr(s[1..])
  }

  /**
   * The text-mode read is the translation of universal newlines written as two passes:
   * first every `\r\n` becomes `\n`, then every `\r` left over does.
   */
  lemma {:induction false} TextModeReadReplaces(written: string)
    ensures TextModeRead(written) == ReplaceCr(ReplaceCrLf(written))
    decreases |written|
  {
    if written == [] {
    } else if |written| > 1 && written[0] == '\r' && written[1] == '\n' {
      TextModeReadReplaces(written[2..]);
      var rest := ReplaceCrLf(written[2..]);
      assert ("\n" + rest)[1..] == rest;
    } else {
      TextModeReadReplaces(written[1..]);
      var rest := ReplaceCrLf(written[1..]);
      assert ([written[0]] + rest)[1..] == rest;
    }
  }

  /** The fallback name is not blank at either end and holds no `\r`. */
  lemma DefaultArtifactNameShape()
    ensures var d := DefaultArtifactName;
      d != [] && !IsSpace(d[0]) && !IsSpace(d[|d| - 1]) && '\r' !in d
  {
    assert DefaultArtifactName[0] == 'a' && DefaultArtifactName[|DefaultArtifactName| - 1] == 'n';
  }

  /**
   * `f.read().strip() or "assembled.bin"` on the `meta_filename.txt` that holds `stored`:
   * the stripped text as read back, or `assembled.bin` when nothing is left.
   */
  function OriginalName(stored: string): (name: string)
    ensures name != [] && !IsSpace(name[0]) && !IsSpace(name[|name| - 1]) && '\r' !in name
    ensures Strip(TextModeRead(stored)) != [] ==> name == Strip(TextModeRead(stored))
    ensures '\r' !in stored && Strip(stored) != [] ==> name == Strip(stored)
    ensures name == DefaultArtifactName <== (forall k :: 0 <= k < |stored| ==> IsSpace(stored[k]))
  {
    var text := TextModeRead(stored);
    StripShape(text);
    DefaultArtifactNameShape();
    var n := Strip(text);
    if n == [] then DefaultArtifactName else n
  }

  /** A name of one no-break space falls back to `assembled.bin`. */
  lemma NoBreakSpaceFallsBack()
    ensures OriginalName("\U{00A0}") == DefaultArtifactName
  {
    var t := "\U{00A0}";
    assert TextModeRead(t) == t;
    assert TrimLeft(t) == TrimLeft(t[1..]) == [];
    assert Strip(t) == [];
  }

  /** A trailing ideographic space is stripped, as Python strips it. */
  lemma IdeographicSpaceStripped()
    ensures OriginalName("ab\U{3000}") == "ab"
  {
    var t := "ab\U{3000}";
    assert TextModeRead(t) == t;
    assert TrimLeft(t) == t;
    assert t[..|t| - 1] == "ab";
    assert TrimRight(t) == TrimRight("ab") == "ab";
  }

  /** A carriage return inside the stored name is read back as a newline. */
  lemma CarriageReturnReadsAsNewline()
    ensures OriginalName("a\rb") == "a\nb"
  {
    var t := "a\rb";
    assert t[1..] == "\rb" && t[1..][1..] == "b";
    assert TextModeRead("b") == "b";
    assert TextModeRead("\rb") == "\n" + TextModeRead("b");
    var u := TextModeRead(t);
    assert u == "a\nb";
    assert TrimLeft(u) == u;
    assert TrimRight(u) == u;
  }

  /** Where `complete` writes the assembled file: `<upload_id>__<original_name>`. */
  function ArtifactName(id: string, stored: string): (path: string)
    ensures |path| > |id| && path[..|id|] == id
  {
    id + "__" + OriginalName(stored)
  }

  /** The root after `initiate(filename)` drew `uid`: `os.makedirs(exist_ok=True)`, then the filename is written. */
  function AfterInitiate(root: map<string, Entry>, filename: string, uid: string): map<string, Entry> {
    if IsStoredFile(root, uid) then root
    else root[uid := SessionDir(Session(filename, if uid in root then root[uid].session.chunks else map[]))]
  }

  /** The root after `upload_chunk(id, index, data)`: the chunk file is written or overwritten. */
  function AfterPut(root: map<string, Entry>, id: string, index: int, data: seq<byte>): map<string, Entry> {
    if IsSession(root, id) then
      var s := root[id].session;
      root[id := SessionDir(s.(chunks := s.chunks[index := data]))]
    else root
  }

  /** When `complete(id)` succeeds: a session with at least one chunk, and a target path that is not a directory. */
  predicate CanComplete(root: map<string, Entry>, id: string) {
    IsSession(root, id) && root[id].session.chunks != map[]
    && !IsSession(root, ArtifactName(id, root[id].session.filename))
  }

  /** The root after `complete(id)`: the assembled file is written, then the session directory removed. */
  ghost function AfterComplete(root: map<string, Entry>, id: string): map<string, Entry> {
    if CanComplete(root, id) then
      var s := root[id].session;
      root[ArtifactName(id, s.filename) := StoredFile(Assemble(s.chunks))] - {id}
    else root
  }

  predicate Sorted(s: seq<int>) {
    forall i, j :: 0 <= i < j < |s| ==> s[i] <= s[j]
  }

  /** One step of insertion sort: `x` placed before the first element not below it. */
  function Insert(x: int, s: seq<int>): (r: seq<int>)
    ensures |r| == |s| + 1
    ensures multiset(r) == multiset(s) + multiset{x}
  {
    if s == [] || x <= s[0] then [x] + s
    else
      assert s == [s[0]] + s[1..];
      [s[0]] + Insert(x, s[1..])
  }

  lemma InsertMembers(x: int, s: seq<int>)
    ensures forall y :: y in Insert(x, s) <==> y == x || y in s
  {
    var r := Insert(x, s);
    assert forall y :: y in r <==> y in multiset(r);
    assert forall y :: y in s <==> y in multiset(s);
  }

  /** Every element of a sorted list is at least its head. */
  lemma SortedHeadIsLeast(s: seq<int>)
    requires Sorted(s) && s != []
    ensures forall y :: y in s[1..] ==> s[0] <= y
  {
    forall y | y in s[1..] ensures s[0] <= y {
      var k :| 0 <= k < |s[1..]| && s[1..][k] == y;
      assert s[k + 1] == y;
    }
  }

  /** A sorted list stays sorted behind a head no greater than any of its elements. */
  lemma ConsSorted(h: int, t: seq<int>)
    requires Sorted(t) && forall y :: y in t ==> h <= y
    ensures Sorted([h] + t)
  {
    var r := [h] + t;
    forall i, j | 0 <= i < j < |r| ensures r[i] <= r[j] {
      assert r[j] == t[j - 1] && t[j - 1] in t;
    }
  }

  lemma {:induction false} InsertSorted(x: int, s: seq<int>)
    requires Sorted(s)
    ensures Sorted(Insert(x, s))
  {
    if s != [] && x > s[0] {
      var t := Insert(x, s[1..]);
      InsertSorted(x, s[1..]);
      InsertMembers(x, s[1..]);
      SortedHeadIsLeast(s);
      ConsSorted(s[0], t);
    }
  }

  /** Every later element of a strictly increasing list is above its head. */
  lemma StrictHeadIsLeast(s: seq<int>)
    requires StrictlyIncreasing(s) && s != []
    ensures forall y :: y in s[1..] ==> s[0] < y
  {
    forall y | y in s[1..] ensures s[0] < y {
      var k :| 0 <= k < |s[1..]| && s[1..][k] == y;
      assert s[k + 1] == y;
    }
  }

  /** A strictly increasing list stays so behind a head below all of its elements. */
  lemma ConsStrict(h: int, t: seq<int>)
    requires StrictlyIncreasing(t) && forall y :: y in t ==> h < y
    ensures StrictlyIncreasing([h] + t)
  {
    var r := [h] + t;
    forall i, j | 0 <= i < j < |r| ensures r[i] < r[j] {
      assert r[j] == t[j - 1] && t[j - 1] in t;
    }
  }

  lemma {:induction false} InsertStrict(x: int, s: seq<int>)
    requires StrictlyIncreasing(s) && x !in s
    ensures StrictlyIncreasing(Insert(x, s))
  {
    if s != [] && x > s[0] {
      var t := Insert(x, s[1..]);
      assert x !in s[1..];
      InsertStrict(x, s[1..]);
      InsertMembers(x, s[1..]);
      StrictHeadIsLeast(s);
      ConsStrict(s[0], t);
    }
  }

  predicate Distinct(s: seq<int>) {
    forall j, k :: 0 <= j < k < |s| ==> s[j] != s[k]
  }

  /** Python's `list.sort()` on integers: a permutation of its input, in ascending order. */
  function SortIndices(s: seq<int>): (r: seq<int>)
    ensures Sorted(r) && |r| == |s|
    ensures multiset(r) == multiset(s)
  {
    if s == [] then []
    else
      assert s == [s[0]] + s[1..];
      var t := SortIndices(s[1..]);
      InsertSorted(s[0], t);
      Insert(s[0], t)
  }

  lemma SortKeepsMembers(s: seq<int>)
    ensures forall y :: y in SortIndices(s) <==> y in s
  {
    var r := SortIndices(s);
    assert forall y :: y in r <==> y in multiset(r);
    assert forall y :: y in s <==> y in multiset(s);
  }

  /** Sorting indices that are all different gives a strictly ascending list. */
  lemma {:induction false} SortDistinct(s: seq<int>)
    requires Distinct(s)
    ensures StrictlyIncreasing(SortIndices(s))
  {
    if s != [] {
      assert s == [s[0]] + s[1..];
      var t := SortIndices(s[1..]);
      assert Distinct(s[1..]) by {
        forall j, k | 0 <= j < k < |s[1..]| ensures s[1..][j] != s[1..][k] {
          assert s[1..][j] == s[j + 1] && s[1..][k] == s[k + 1];
        }
      }
      SortDistinct(s[1..]);
      SortKeepsMembers(s[1..]);
      assert s[0] !in s[1..] by {
        forall k | 0 <= k < |s[1..]| ensures s[1..][k] != s[0] {
          assert s[1..][k] == s[k + 1];
        }
      }
      InsertStrict(s[0], t);
    }
  }

  /** The names a session directory holds: each one that parses is the canonical name of its index. */
  ghost predicate Canonical(names: set<string>) {
    forall n :: n in names && ParseChunkName(n).Some? ==> ChunkName(ParseChunkName(n).value) == n
  }

  /** A listed name that parses is the name of a stored chunk with that index. */
  lemma ParsedListedName(s: Session, name: string)
    requires name in Listing(s) && ParseChunkName(name).Some?
    ensures ChunkName(ParseChunkName(name).value) == name
  {
    MetaFileIsNotAChunk();
    assert name in ChunkEntries(s.chunks);
    var i :| i in s.chunks && ChunkName(i) == name;
    ChunkNameRoundTrip(i);
  }

  lemma ListingIsCanonical(s: Session)
    ensures Canonical(Listing(s))
  {
    forall n | n in Listing(s) && ParseChunkName(n).Some?
      ensures ChunkName(ParseChunkName(n).value) == n
    {
      ParsedListedName(s, n);
    }
  }

  /** The indices read off a listing are exactly the stored chunk indices. */
  lemma ListingIndices(s: Session, found: seq<int>)
    requires forall i :: i in found ==> ChunkName(i) in Listing(s)
    requires forall n :: n in Listing(s) && ParseChunkName(n).Some? ==> ParseChunkName(n).value in found
    ensures forall i :: i in found <==> i in s.chunks
  {
    MetaFileIsNotAChunk();
    var names := Listing(s);
    forall i | i in found ensures i in s.chunks {
      ChunkNameRoundTrip(i);
      assert ChunkName(i) in names && ChunkName(i) != MetaFileName;
    }
    forall i | i in s.chunks ensures i in found {
      ChunkNameRoundTrip(i);
      assert ChunkName(i) in names;
    }
  }

  /**
   * The listing loop shared by `status` and `complete`: every entry of the session
   * directory, in whatever order `os.listdir` gives them, is parsed as a chunk name;
   * the ones that parse contribute their index.
   */
  method ParseListing(names: set<string>) returns (found: seq<int>)
    requires Canonical(names)
    ensures forall i :: i in found ==> ChunkName(i) in names
    ensures forall n :: n in names && ParseChunkName(n).Some? ==> ParseChunkName(n).value in found
    ensures Distinct(found)
  {
    var remaining := names;
    ghost var seen: set<string> := {};
    found := [];
    while remaining != {}
      invariant remaining + seen == names && remaining !! seen
      invariant forall i :: i in found ==> ChunkName(i) in seen
      invariant forall n :: n in seen && ParseChunkName(n).Some? ==> ParseChunkName(n).value in found
      invariant Distinct(found)
      decreases remaining
    {
      var name :| name in remaining;
      var parsed := ParseChunkName(name);
      if parsed.Some? {
        assert ChunkName(parsed.value) == name;
        assert parsed.value !in found;
        found := found + [parsed.value];
      }
      remaining := remaining - {name};
      seen := seen + {name};
    }
  }

  /** The chunk indices of a session, as its directory listing gives them. */
  method CollectIndices(s: Session) returns (found: seq<int>)
    ensures forall i :: i in found <==> i in s.chunks
    ensures found == [] <==> s.chunks == map[]
    ensures Distinct(found)
  {
    ListingIsCanonical(s);
    found := ParseListing(Listing(s));
    ListingIndices(s, found);
    if found != [] {
      assert found[0] in found;
    } else {
      assert forall i :: i !in s.chunks;
    }
  }

  /** The listing of `status` and `complete` followed by `sorted(...)`: the stored indices, ascending. */
  method ChunkOrder(s: Session) returns (order: seq<int>)
    ensures StrictlyIncreasing(order)
    ensures forall i :: i in order <==> i in s.chunks
    ensures order == [] <==> s.chunks == map[]
  {
    var found := CollectIndices(s);
    SortKeepsMembers(found);
    SortDistinct(found);
    order := SortIndices(found);
    if order != [] {
      assert order[0] in order;
    } else {
      assert forall i :: i !in s.chunks;
    }
  }

  /** The write loop of `complete`: the chunk files appended to the output one by one in the order given. */
  method WriteInOrder(m: map<int, seq<byte>>, order: seq<int>) returns (out: seq<byte>)
    requires forall i :: 0 <= i < |order| ==> order[i] in m
    ensures out == Concat(m, order)
  {
    out := [];
    var k := 0;
    while k < |order|
      invariant 0 <= k <= |order|
      invariant out + Concat(m, order[k..]) == Concat(m, order)
    {
      assert order[k..][1..] == order[k + 1..];
      out := out + m[order[k]];
      k := k + 1;
    }
    assert order[k..] == [];
  }

  class Server {
    var root: map<string, Entry>

    constructor ()
      ensures root == map[]
    {
      root := map[];
    }

    /**
     * `initiate`: `uid` is what `uuid.uuid4()` drew. A fresh id gets an empty session
     * directory holding the filename; the reply carries the id and `CHUNK_SIZE`.
     */
    method Initiate(filename: string, uid: string) returns (r: Reply<InitiateResponse>)
      modifies this
      ensures root == AfterInitiate(old(root), filename, uid)
      ensures r == if IsStoredFile(old(root), uid) then Fail(InternalError) else Ok(InitiateResponse(uid, CHUNK_SIZE))
    {
      if uid in root && root[uid].StoredFile? {
        // os.makedirs refuses a path that names a file
        return Fail(InternalError);
      }
      var chunks := if uid in root then root[uid].session.chunks else map[];
      root := root[uid := SessionDir(Session(filename, chunks))];
      return Ok(InitiateResponse(uid, CHUNK_SIZE));
    }

    /** `status`: the stored chunk indices, ascending. */
    method Status(id: string) returns (r: Reply<seq<int>>)
      ensures id !in root ==> r == Fail(NotFound)
      ensures IsStoredFile(root, id) ==> r == Fail(InternalError)
      ensures IsSession(root, id) ==>
        && r.Ok?
        && StrictlyIncreasing(r.value)
        && forall i :: i in r.value <==> i in root[id].session.chunks
    {
      if id !in root {
        return Fail(NotFound);
      }
      match root[id]
      case StoredFile(_) =>
        // os.listdir on a file
        return Fail(InternalError);
      case SessionDir(s) =>
        var order := ChunkOrder(s);
        return Ok(order);
    }

    /** `upload_chunk`: writes chunk `index` of session `id`, replacing what was there. */
    method UploadChunk(id: string, index: int, data: seq<byte>) returns (r: Reply<int>)
      modifies this
      ensures root == AfterPut(old(root), id, index, data)
      ensures id !in old(root) ==> r == Fail(NotFound)
      ensures IsStoredFile(old(root), id) ==> r == Fail(InternalError)
      ensures IsSession(old(root), id) ==> r == Ok(index)
    {
      if id !in root {
        return Fail(NotFound);
      }
      match root[id]
      case StoredFile(_) =>
        // opening `<id>/chunk_{index}.part` under a file fails; the handler answers 500
        return Fail(InternalError);
      case SessionDir(s) =>
        root := root[id := SessionDir(s.(chunks := s.chunks[index := data]))];
        return Ok(index);
    }

    /**
     * `complete`: concatenates the stored chunks in ascending index order into
     * `<id>__<original_name>` and removes the session directory. It refuses a session
     * without chunks but does not check that the indices have no gaps.
     */
    method Complete(id: string) returns (r: Reply<string>)
      modifies this
      ensures root == AfterComplete(old(root), id)
      ensures id !in old(root) ==> r == Fail(NotFound)
      ensures IsStoredFile(old(root), id) ==> r == Fail(InternalError)
      ensures IsSession(old(root), id) && old(root)[id].session.chunks == map[] ==> r == Fail(BadRequest)
      ensures IsSession(old(root), id) && old(root)[id].session.chunks != map[] && !CanComplete(old(root), id)
              ==> r == Fail(InternalError)
      ensures CanComplete(old(root), id) ==> r == Ok(ArtifactName(id, old(root)[id].session.filename))
    {
      if id !in root {
        return Fail(NotFound);
      }
      if root[id].StoredFile? {
        // os.listdir on a file
        return Fail(InternalError);
      }
      var s := root[id].session;
      var order := ChunkOrder(s);
      if order == [] {
        return Fail(BadRequest);
      }
      var finalPath := ArtifactName(id, s.filename);
      if finalPath in root && root[finalPath].SessionDir? {
        // open(final_path, "wb") on a directory; the handler answers 500
        return Fail(InternalError);
      }
      forall i | 0 <= i < |order| ensures order[i] in s.chunks {
        assert order[i] in order;
      }
      var out := WriteInOrder(s.chunks, order);
      AscendingConcatIsAssemble(s.chunks, order);
      root := root[finalPath := StoredFile(out)];
      root := root - {id};
      return Ok(finalPath);
    }
  }

  /** Uploading the same bytes under the same index twice leaves the state of uploading them once. */
  lemma PutIsIdempotent(root: map<string, Entry>, id: string, index: int, data: seq<byte>)
    ensures AfterPut(AfterPut(root, id, index, data), id, index, data) == AfterPut(root, id, index, data)
  {
    if IsSession(root, id) {
      var s := root[id].session;
      var once := AfterPut(root, id, index, data);
      assert once[id].session == s.(chunks := s.chunks[index := data]);
      assert s.chunks[index := data][index := data] == s.chunks[index := data];
    }
  }

  /** An upload touches one index of one session: other indices, the filename and other entries stay. */
  lemma PutTouchesOneChunk(root: map<string, Entry>, id: string, index: int, data: seq<byte>)
    requires IsSession(root, id)
    ensures var after := AfterPut(root, id, index, data);
      && after.Keys == root.Keys
      && IsSession(after, id)
      && after[id].session.filename == root[id].session.filename
      && after[id].session.chunks == root[id].session.chunks[index := data]
      && forall k :: k in root && k != id ==> after[k] == root[k]
  {
  }

  /** Uploading or completing under an id that is not a session directory changes nothing. */
  lemma UnknownSessionUnchanged(root: map<string, Entry>, id: string, index: int, data: seq<byte>)
    requires !IsSession(root, id)
    ensures AfterPut(root, id, index, data) == root
    ensures AfterComplete(root, id) == root
  {
  }

  /** A fresh id gets a session with the filename and no chunks; nothing else changes. */
  lemma InitiateCreatesEmptySession(root: map<string, Entry>, filename: string, uid: string)
    requires uid !in root
    ensures var after := AfterInitiate(root, filename, uid);
      && after == root[uid := SessionDir(Session(filename, map[]))]
      && IsSession(after, uid)
  {
  }

  /** After completion the session is gone (a later `status` answers 404) and the file holds its assembly. */
  lemma CompletionRemovesSession(root: map<string, Entry>, id: string)
    requires CanComplete(root, id)
    ensures var after := AfterComplete(root, id);
      var s := root[id].session;
      && id !in after
      && ArtifactName(id, s.filename) in after
      && after[ArtifactName(id, s.filename)] == StoredFile(Assemble(s.chunks))
      && forall k :: k in root && k != id && k != ArtifactName(id, s.filename) ==> k in after && after[k] == root[k]
  {
  }
}
