/**
 * The resumable client (onboard/uploader.py). `run_upload` cuts a file into chunks,
 * asks the server which it already holds, sends the others with retries and finally
 * asks for assembly, keeping a progress file beside the file so that a later run can
 * resume the same session.
 *
 * The world the client talks to is a `Transport`: the server, reached over HTTP
 * through a schedule that says for each request whether it arrives and whether its
 * reply comes back; the progress file; and a ghost trace of everything the client did.
 */
module Uploader {
  import opened Wrappers
  import opened Chunking
  import opened Assembly
  import opened UploadServer

  /** The pauses between attempts at one chunk, in seconds. Only their number matters here. */
  const RETRY_BACKOFF: seq<nat> := [1, 2, 5, 10]

  /** How many requests one chunk takes: at least one, and at most one per backoff delay. */
  type AttemptCount = n: nat | 1 <= n <= |RETRY_BACKOFF| witness 1

  /** The hex digest `md5_of_file` returns. */
  type Digest = string

  type PosInt = n: int | n > 0 witness 1

  /** The record the progress file holds: `upload_id`, `chunk_size`, `file_size`, `filename`, `file_md5`. */
  datatype Record = Record(uploadId: string, chunkSize: PosInt, fileSize: nat, filename: string, fileMd5: Digest)

  /** The progress file `<file>.uploadmeta.json`: absent, not valid JSON, or a record. */
  datatype MetaFile = NoMeta | Unreadable | Saved(record: Record)

  /** The fate of one HTTP exchange. */
  datatype Delivery = Delivered | RequestLost | ReplyLost

  /** What a call through `requests` ends with: a reply, an HTTP error status, or a connection error. */
  datatype Response<T> = Answer(value: T) | HttpError(error: Error) | NetworkError

  datatype Request =
    | InitiateReq(filename: string)
    | StatusReq(uploadId: string)
    | ChunkReq(uploadId: string, index: int, data: seq<byte>)
    | CompleteReq(uploadId: string)

  /** What the client does that leaves a trace: a request sent, the progress file written or removed. */
  datatype Event = Sent(request: Request) | MetaWritten(record: Record) | MetaRemoved

  /** How `run_upload` ends: `True`, `False`, or an exception it does not catch. */
  datatype RunResult = Completed | Incomplete | Crashed

  /** Why the chunk loop stopped. */
  datatype Stop = AllSent | CapReached | RetriesExhausted

  /** The schedule runs out into perfect delivery. */
  function Head(s: seq<Delivery>): Delivery { if s == [] then Delivered else s[0] }
  function Tail(s: seq<Delivery>): seq<Delivery> { if s == [] then [] else s[1..] }

  /** A schedule that loses nothing. */
  predicate Quiet(s: seq<Delivery>) {
    forall i :: 0 <= i < |s| ==> s[i] == Delivered
  }

  /** What remains of a schedule that loses nothing loses nothing either. */
  lemma QuietTail(s: seq<Delivery>)
    requires Quiet(s)
    ensures Quiet(Tail(s))
  {
    if s != [] {
      forall i | 0 <= i < |s| - 1 ensures s[1..][i] == Delivered {
        assert s[1..][i] == s[i + 1];
      }
    }
  }

  /** The schedule `n` exchanges later. */
  function Drop(s: seq<Delivery>, n: nat): seq<Delivery>
    decreases n
  {
    if n == 0 then s else Drop(Tail(s), n - 1)
  }

  lemma {:induction false} DropStep(s: seq<Delivery>, n: nat)
    ensures Drop(s, n + 1) == Tail(Drop(s, n))
    decreases n
  {
    if n > 0 {
      DropStep(Tail(s), n - 1);
    }
  }

  /**
   * How many of the next `n` exchanges fail before the first one that is delivered:
   * `n` when none of them is.
   */
  function FirstDelivered(s: seq<Delivery>, n: nat): (k: nat)
    ensures k <= n
    decreases n
  {
    if n == 0 || Head(s) == Delivered then 0 else 1 + FirstDelivered(Tail(s), n - 1)
  }

  /** On a schedule that loses nothing, every later schedule loses nothing either. */
  lemma {:induction false} QuietDrop(s: seq<Delivery>, n: nat)
    requires Quiet(s)
    ensures Quiet(Drop(s, n))
    decreases n
  {
    if n > 0 {
      QuietTail(s);
      QuietDrop(Tail(s), n - 1);
    }
  }

  /** On a schedule that loses nothing, the first exchange is delivered. */
  lemma QuietFirst(s: seq<Delivery>, n: nat)
    requires Quiet(s)
    ensures FirstDelivered(s, n) == 0
  {
  }

  /**
   * When the first `k` of the next `n` exchanges all failed, exchange `k` decides: delivered,
   * it is the first delivery; lost, the first `k + 1` all failed.
   */
  lemma {:induction false} FirstDeliveredStep(s: seq<Delivery>, k: nat, n: nat)
    requires k < n && FirstDelivered(s, k) == k
    ensures Head(Drop(s, k)) == Delivered ==> FirstDelivered(s, n) == k
    ensures Head(Drop(s, k)) != Delivered ==> FirstDelivered(s, k + 1) == k + 1
    decreases k
  {
    if k > 0 {
      FirstDeliveredStep(Tail(s), k - 1, n - 1);
    }
  }

  /**
   * The schedule after the chunk loop delivered chunks with `tries[0]`, `tries[1]`, ...
   * attempts in turn.
   */
  function ScheduleAfter(s: seq<Delivery>, tries: seq<nat>): seq<Delivery>
    decreases |tries|
  {
    if tries == [] then s else Drop(ScheduleAfter(s, tries[..|tries| - 1]), tries[|tries| - 1])
  }

  /**
   * Each delivered chunk took one attempt more than the exchanges that failed before the
   * first delivered one: a chunk goes through at its first delivered PUT.
   */
  predicate EachDelivered(s: seq<Delivery>, tries: seq<nat>) {
    forall k :: 0 <= k < |tries| ==> tries[k] == FirstDelivered(ScheduleAfter(s, tries[..k]), |RETRY_BACKOFF|) + 1
  }

  lemma DeliveredStep(s: seq<Delivery>, tries: seq<nat>, n: nat)
    ensures ScheduleAfter(s, tries + [n]) == Drop(ScheduleAfter(s, tries), n)
    ensures EachDelivered(s, tries + [n]) <==>
              EachDelivered(s, tries) && n == FirstDelivered(ScheduleAfter(s, tries), |RETRY_BACKOFF|) + 1
  {
    assert (tries + [n])[..|tries|] == tries;
    forall k | 0 <= k < |tries| ensures (tries + [n])[..k] == tries[..k] {}
  }

  /** What the client sees of a server reply over an exchange with fate `d`. */
  function Deliver<T>(d: Delivery, reply: Reply<T>): Response<T> {
    if d != Delivered then NetworkError
    else match reply
      case Ok(v) => Answer(v)
      case Fail(e) => HttpError(e)
  }

  function Max0(m: int): nat { if m < 0 then 0 else m }

  /** `n` copies of `e`. */
  function Repeat(e: Event, n: nat): (r: seq<Event>)
    ensures |r| == n && forall k :: 0 <= k < n ==> r[k] == e
  {
    if n == 0 then [] else Repeat(e, n - 1) + [e]
  }

  predicate IsAttempt(e: Event, index: int) {
    e.Sent? && e.request.ChunkReq? && e.request.index == index
  }

  /** The number of requests in `t` that carry chunk `index`. */
  function Attempts(t: seq<Event>, index: int): nat {
    if t == [] then 0
    else Attempts(t[..|t| - 1], index) + (if IsAttempt(t[|t| - 1], index) then 1 else 0)
  }

  lemma {:induction false} AttemptsAppend(a: seq<Event>, b: seq<Event>, index: int)
    ensures Attempts(a + b, index) == Attempts(a, index) + Attempts(b, index)
    decreases |b|
  {
    if b == [] {
      assert a + b == a;
    } else {
      var b' := b[..|b| - 1];
      assert (a + b)[..|a + b| - 1] == a + b';
      AttemptsAppend(a, b', index);
    }
  }

  lemma {:induction false} AttemptsRepeat(e: Event, n: nat, index: int)
    ensures Attempts(Repeat(e, n), index) == if IsAttempt(e, index) then n else 0
  {
    if n > 0 {
      assert Repeat(e, n)[..n - 1] == Repeat(e, n - 1);
      AttemptsRepeat(e, n - 1, index);
    }
  }

  /**
   * The indices below `n` that `uploaded` lacks, ascending: the ones the chunk loop
   * sends, in the order it sends them.
   */
  function Missing(n: nat, uploaded: set<int>): seq<nat> {
    if n == 0 then []
    else Missing(n - 1, uploaded) + (if n - 1 in uploaded then [] else [n - 1])
  }

  /** The missing indices are ascending, below `n`, and exactly the ones `uploaded` lacks. */
  lemma {:induction false} MissingShape(n: nat, uploaded: set<int>)
    ensures var r := Missing(n, uploaded);
      && StrictlyIncreasing(r)
      && (forall k :: 0 <= k < |r| ==> 0 <= r[k] < n)
      && (forall i :: i in r <==> 0 <= i < n && i !in uploaded)
  {
    if n > 0 {
      MissingShape(n - 1, uploaded);
      var shorter := Missing(n - 1, uploaded);
      var r := Missing(n, uploaded);
      if n - 1 !in uploaded {
        assert r == shorter + [n - 1];
        forall k | 0 <= k < |r| ensures 0 <= r[k] < n && (k < |shorter| ==> r[k] == shorter[k]) { }
        forall i, j | 0 <= i < j < |r| ensures r[i] < r[j] {
          assert r[i] == shorter[i];
        }
      } else {
        assert r == shorter;
      }
    }
  }

  /** The loop's progress after `m` indices is a prefix of what it sends in all. */
  lemma {:induction false} MissingPrefix(m: nat, n: nat, uploaded: set<int>)
    requires m <= n
    ensures |Missing(m, uploaded)| <= |Missing(n, uploaded)|
    ensures Missing(m, uploaded) == Missing(n, uploaded)[..|Missing(m, uploaded)|]
    decreases n - m
  {
    if m < n {
      MissingPrefix(m, n - 1, uploaded);
      var shorter := Missing(n - 1, uploaded);
      var last: seq<int> := if n - 1 in uploaded then [] else [n - 1];
      var len := |Missing(m, uploaded)|;
      assert (shorter + last)[..len] == shorter[..len];
    }
  }


  /** Stopping at a missing index leaves a proper prefix of what the loop would have sent. */
  lemma StoppedShort(idx: nat, n: nat, uploaded: set<int>)
    requires idx < n && idx !in uploaded
    ensures var sent := Missing(idx, uploaded);
      |sent| < |Missing(n, uploaded)| && sent == Missing(n, uploaded)[..|sent|] && Missing(n, uploaded)[|sent|] == idx
  {
    MissingPrefix(idx, n, uploaded);
    MissingPrefix(idx + 1, n, uploaded);
    assert Missing(idx + 1, uploaded) == Missing(idx, uploaded) + [idx];
  }

  /** With nothing uploaded, every index is missing. */
  lemma {:induction false} NothingUploaded(n: nat)
    ensures Missing(n, {}) == Range(0, n)
  {
    if n > 0 {
      NothingUploaded(n - 1);
      assert Range(0, n) == Range(0, n - 1) + [n - 1];
    }
  }

  /** The attempts at chunk `index` of `file` after which the retry loop moves on. */
  function Retries(rec: Record, file: seq<byte>, index: nat, n: nat): seq<Event> {
    Repeat(Sent(ChunkReq(rec.uploadId, index, ChunkOf(file, index, rec.chunkSize))), n)
  }

  /**
   * The trace the chunk loop leaves once it has delivered the indices `done`, index `done[k]`
   * after `tries[k]` attempts: for each in turn, its attempts and then the rewrite of the
   * progress file.
   */
  function LoopTrace(rec: Record, file: seq<byte>, done: seq<nat>, tries: seq<nat>): seq<Event>
    requires |done| == |tries|
    decreases |done|
  {
    if done == [] then []
    else
      var k := |done| - 1;
      LoopTrace(rec, file, done[..k], tries[..k]) + Retries(rec, file, done[k], tries[k]) + [MetaWritten(rec)]
  }

  lemma LoopTraceStep(rec: Record, file: seq<byte>, done: seq<nat>, tries: seq<nat>, index: nat, n: nat)
    requires |done| == |tries|
    ensures LoopTrace(rec, file, done + [index], tries + [n])
            == LoopTrace(rec, file, done, tries) + Retries(rec, file, index, n) + [MetaWritten(rec)]
  {
    assert (done + [index])[..|done|] == done;
    assert (tries + [n])[..|tries|] == tries;
  }

  /** A request the chunk loop sends: a chunk of `file` for the session of `rec`, with the bytes of its index. */
  predicate CarriesChunk(e: Event, rec: Record, file: seq<byte>) {
    && e.Sent? && e.request.ChunkReq? && e.request.uploadId == rec.uploadId && e.request.index >= 0
    && e.request.data == ChunkOf(file, e.request.index, rec.chunkSize)
  }

  /** The chunk loop sends nothing but the chunks it delivers, with their own bytes, and rewrites of `rec`. */
  lemma {:induction false} LoopTraceRequests(rec: Record, file: seq<byte>, done: seq<nat>, tries: seq<nat>)
    requires |done| == |tries|
    ensures forall e :: e in LoopTrace(rec, file, done, tries) ==>
              e == MetaWritten(rec) || (CarriesChunk(e, rec, file) && e.request.index in done)
    decreases |done|
  {
    if done != [] {
      var k := |done| - 1;
      LoopTraceRequests(rec, file, done[..k], tries[..k]);
      var before := LoopTrace(rec, file, done[..k], tries[..k]);
      var retries := Retries(rec, file, done[k], tries[k]);
      forall e | e in LoopTrace(rec, file, done, tries)
        ensures e == MetaWritten(rec) || (CarriesChunk(e, rec, file) && e.request.index in done)
      {
        assert e in before || e in retries || e == MetaWritten(rec);
        if e in before && e != MetaWritten(rec) {
          var j :| 0 <= j < |done[..k]| && done[..k][j] == e.request.index;
          assert done[j] == e.request.index;
        }
      }
    }
  }

  /**
   * In the trace of deliveries at strictly ascending indices, each delivered index is
   * attempted exactly its own number of times, and no other index at all.
   */
  lemma {:induction false} LoopTraceAttempts(rec: Record, file: seq<byte>, done: seq<nat>, tries: seq<nat>, index: int)
    requires |done| == |tries| && StrictlyIncreasing(done)
    ensures index !in done ==> Attempts(LoopTrace(rec, file, done, tries), index) == 0
    ensures forall j :: 0 <= j < |done| && done[j] == index ==> Attempts(LoopTrace(rec, file, done, tries), index) == tries[j]
    decreases |done|
  {
    if done != [] {
      var k := |done| - 1;
      var init := done[..k];
      assert StrictlyIncreasing(init);
      LoopTraceAttempts(rec, file, init, tries[..k], index);
      var before := LoopTrace(rec, file, init, tries[..k]);
      var retries := Retries(rec, file, done[k], tries[k]);
      AttemptsAppend(before + retries, [MetaWritten(rec)], index);
      AttemptsAppend(before, retries, index);
      AttemptsRepeat(Sent(ChunkReq(rec.uploadId, done[k], ChunkOf(file, done[k], rec.chunkSize))), tries[k], index);
      assert [MetaWritten(rec)][..0] == [];
      if index == done[k] {
        assert index !in init by {
          forall j | 0 <= j < |init| ensures init[j] != index {
            assert init[j] == done[j] && done[j] < done[k];
          }
        }
      }
      forall j | 0 <= j < |done| && done[j] == index
        ensures Attempts(LoopTrace(rec, file, done, tries), index) == tries[j]
      {
        if j < k {
          assert init[j] == index && done[j] < done[k];
        }
      }
      if index !in done {
        assert index !in init;
      }
    }
  }

  /**
   * In a run's chunk loop, which sent a prefix of the missing indices, no index is
   * attempted more than `|RETRY_BACKOFF|` times, and an index that was listed as stored,
   * or lies outside the file, is not attempted at all.
   */
  lemma RunAttemptsBounded(rec: Record, file: seq<byte>, uploaded: set<int>, sent: seq<nat>, tries: seq<AttemptCount>, index: int)
    requires |tries| == |sent|
    requires var all := Missing(TotalChunks(|file|, rec.chunkSize), uploaded);
      |sent| <= |all| && sent == all[..|sent|]
    ensures Attempts(LoopTrace(rec, file, sent, tries), index) <= |RETRY_BACKOFF|
    ensures Attempts(LoopTrace(rec, file, sent, tries), index) > 0 ==>
              0 <= index < TotalChunks(|file|, rec.chunkSize) && index !in uploaded
  {
    var n := TotalChunks(|file|, rec.chunkSize);
    MissingShape(n, uploaded);
    var all := Missing(n, uploaded);
    assert StrictlyIncreasing(sent) by {
      forall i, j | 0 <= i < j < |sent| ensures sent[i] < sent[j] {
        assert sent[i] == all[i] && sent[j] == all[j];
      }
    }
    LoopTraceAttempts(rec, file, sent, tries, index);
    if index in sent {
      var j :| 0 <= j < |sent| && sent[j] == index;
      assert all[j] == index;
    }
  }

  /**
   * Every request of a run's chunk loop is a chunk of this file for this session, at an
   * index the status answer did not list, carrying exactly that chunk's bytes; the only
   * other events are rewrites of the same record.
   */
  lemma RunRequestsMissingChunks(rec: Record, file: seq<byte>, uploaded: set<int>, sent: seq<nat>, tries: seq<AttemptCount>)
    requires |tries| == |sent|
    requires var all := Missing(TotalChunks(|file|, rec.chunkSize), uploaded);
      |sent| <= |all| && sent == all[..|sent|]
    ensures forall e :: e in LoopTrace(rec, file, sent, tries) ==>
              || e == MetaWritten(rec)
              || (CarriesChunk(e, rec, file) && e.request.index < TotalChunks(|file|, rec.chunkSize) && e.request.index !in uploaded)
  {
    var n := TotalChunks(|file|, rec.chunkSize);
    MissingShape(n, uploaded);
    LoopTraceRequests(rec, file, sent, tries);
    forall e | e in LoopTrace(rec, file, sent, tries) && e != MetaWritten(rec)
      ensures e.request.index < n && e.request.index !in uploaded
    {
      var j :| 0 <= j < |sent| && sent[j] == e.request.index;
      assert Missing(n, uploaded)[j] == e.request.index;
    }
  }

  /** Stored chunks that were rewritten now hold the bytes of `file`; none was dropped. */
  ghost predicate Refreshes(before: map<int, seq<byte>>, after: map<int, seq<byte>>, file: seq<byte>, chunkSize: PosInt) {
    && before.Keys <= after.Keys
    && forall i :: i in after ==>
         (i in before && after[i] == before[i])
         || (0 <= i < TotalChunks(|file|, chunkSize) && after[i] == ChunkOf(file, i, chunkSize))
  }

  /** What chunk uploads of `file` to session `id` can do to the server: rewrite chunks of that session, nothing else. */
  ghost predicate SessionRefreshed(before: map<string, Entry>, after: map<string, Entry>, id: string, file: seq<byte>, chunkSize: PosInt) {
    && after.Keys == before.Keys
    && (forall k :: k in before && k != id ==> after[k] == before[k])
    && (!IsSession(before, id) ==> after == before)
    && (IsSession(before, id) ==>
          && IsSession(after, id)
          && after[id].session.filename == before[id].session.filename
          && Refreshes(before[id].session.chunks, after[id].session.chunks, file, chunkSize))
  }

  lemma PutRefreshes(root: map<string, Entry>, id: string, index: int, file: seq<byte>, chunkSize: PosInt)
    requires 0 <= index < TotalChunks(|file|, chunkSize)
    ensures SessionRefreshed(root, AfterPut(root, id, index, ChunkOf(file, index, chunkSize)), id, file, chunkSize)
  {
  }

  lemma RefreshedTransitive(a: map<string, Entry>, b: map<string, Entry>, c: map<string, Entry>, id: string, file: seq<byte>, chunkSize: PosInt)
    requires SessionRefreshed(a, b, id, file, chunkSize) && SessionRefreshed(b, c, id, file, chunkSize)
    ensures SessionRefreshed(a, c, id, file, chunkSize)
  {
  }

  /** Rewriting chunks with the bytes of the same file keeps a consistent session consistent. */
  lemma RefreshKeepsConsistent(before: map<int, seq<byte>>, after: map<int, seq<byte>>, file: seq<byte>, chunkSize: PosInt)
    requires Consistent(before, file, chunkSize) && Refreshes(before, after, file, chunkSize)
    ensures Consistent(after, file, chunkSize)
  {
  }

  /** Every index in `sent` is stored with the bytes of `file` at that index. */
  ghost predicate Holds(m: map<int, seq<byte>>, sent: seq<int>, file: seq<byte>, chunkSize: PosInt) {
    forall k :: 0 <= k < |sent| ==> 0 <= sent[k] && sent[k] in m && m[sent[k]] == ChunkOf(file, sent[k], chunkSize)
  }

  /**
   * What a run that does not resume does before its status query: a stale record removed,
   * the initiate request, and the new record written once the server answered.
   */
  function InitiationEvents(meta: MetaFile, filename: string, rec: Option<Record>): seq<Event> {
    (if meta.Saved? then [MetaRemoved] else []) + [Sent(InitiateReq(filename))]
    + (if rec.Some? then [MetaWritten(rec.value)] else [])
  }

  /** The progress file holds a record for this very file (same digest), so the run resumes it. */
  predicate Resumes(meta: MetaFile, fileMd5: Digest) {
    meta.Saved? && meta.record.fileMd5 == fileMd5
  }

  /** The sessions the chunk loop of a run starts from: as they were when it resumes, after its initiate request otherwise. */
  function OpenedRoot(root: map<string, Entry>, meta: MetaFile, fileMd5: Digest, filename: string, uid: string): map<string, Entry> {
    if Resumes(meta, fileMd5) then root else AfterInitiate(root, filename, uid)
  }

  /** The schedule the chunk loop of a run starts from: past its initiate request, when it sends one, and its status query. */
  function LoopSchedule(s: seq<Delivery>, meta: MetaFile, fileMd5: Digest): seq<Delivery> {
    Drop(s, if Resumes(meta, fileMd5) then 1 else 2)
  }

  /** The schedule the status query of a run meets: past its initiate request, when it sends one. */
  function StatusSchedule(s: seq<Delivery>, meta: MetaFile, fileMd5: Digest): seq<Delivery> {
    Drop(s, if Resumes(meta, fileMd5) then 0 else 1)
  }

  class Transport {
    const server: Server
    var schedule: seq<Delivery>
    var meta: MetaFile
    ghost var trace: seq<Event>

    constructor (server: Server, schedule: seq<Delivery>, meta: MetaFile)
      ensures this.server == server && this.schedule == schedule && this.meta == meta && trace == []
    {
      this.server := server;
      this.schedule := schedule;
      this.meta := meta;
      trace := [];
    }

    /** The fate of the next exchange. */
    method Exchange() returns (d: Delivery)
      modifies this
      ensures d == Head(old(schedule)) && schedule == Tail(old(schedule))
      ensures meta == old(meta) && trace == old(trace)
    {
      d := Head(schedule);
      schedule := Tail(schedule);
    }

    /** `initiate_upload`; `uid` stands for the id the server draws. */
    method PostInitiate(filename: string, uid: string) returns (r: Response<InitiateResponse>)
      modifies this, server
      ensures schedule == Tail(old(schedule)) && meta == old(meta)
      ensures trace == old(trace) + [Sent(InitiateReq(filename))]
      ensures server.root == if Head(old(schedule)) == RequestLost then old(server.root)
                             else AfterInitiate(old(server.root), filename, uid)
      ensures r == Deliver(Head(old(schedule)),
                           if IsStoredFile(old(server.root), uid) then Fail(InternalError)
                           else Ok(InitiateResponse(uid, CHUNK_SIZE)))
    {
      var d := Exchange();
      trace := trace + [Sent(InitiateReq(filename))];
      if d == RequestLost {
        return NetworkError;
      }
      var reply := server.Initiate(filename, uid);
      r := Deliver(d, reply);
    }

    /** A GET of `/upload/{id}/status`. */
    method GetStatus(id: string) returns (r: Response<seq<int>>)
      modifies this
      ensures schedule == Tail(old(schedule)) && meta == old(meta)
      ensures trace == old(trace) + [Sent(StatusReq(id))]
      ensures Head(old(schedule)) != Delivered ==> r == NetworkError
      ensures Head(old(schedule)) == Delivered ==>
        && (id !in server.root ==> r == HttpError(NotFound))
        && (IsStoredFile(server.root, id) ==> r == HttpError(InternalError))
        && (IsSession(server.root, id) ==>
              && r.Answer?
              && StrictlyIncreasing(r.value)
              && forall i :: i in r.value <==> i in server.root[id].session.chunks)
    {
      var d := Exchange();
      trace := trace + [Sent(StatusReq(id))];
      if d == RequestLost {
        return NetworkError;
      }
      var reply := server.Status(id);
      r := Deliver(d, reply);
    }

    /** A PUT of one chunk. */
    method PutChunk(id: string, index: int, data: seq<byte>) returns (r: Response<int>)
      modifies this, server
      ensures schedule == Tail(old(schedule)) && meta == old(meta)
      ensures trace == old(trace) + [Sent(ChunkReq(id, index, data))]
      ensures server.root == if Head(old(schedule)) == RequestLost then old(server.root)
                             else AfterPut(old(server.root), id, index, data)
      ensures r.Answer? <==> Head(old(schedule)) == Delivered && IsSession(old(server.root), id)
    {
      var d := Exchange();
      trace := trace + [Sent(ChunkReq(id, index, data))];
      if d == RequestLost {
        return NetworkError;
      }
      var reply := server.UploadChunk(id, index, data);
      r := Deliver(d, reply);
    }

    /** A POST of `/upload/{id}/complete`. */
    method PostComplete(id: string) returns (r: Response<string>)
      modifies this, server
      ensures schedule == Tail(old(schedule)) && meta == old(meta)
      ensures trace == old(trace) + [Sent(CompleteReq(id))]
      ensures server.root == if Head(old(schedule)) == RequestLost then old(server.root)
                             else AfterComplete(old(server.root), id)
      ensures r.Answer? <==> Head(old(schedule)) == Delivered && CanComplete(old(server.root), id)
    {
      var d := Exchange();
      trace := trace + [Sent(CompleteReq(id))];
      if d == RequestLost {
        return NetworkError;
      }
      var reply := server.Complete(id);
      r := Deliver(d, reply);
    }

    /** `save_meta`. */
    method SaveMeta(rec: Record)
      modifies this
      ensures meta == Saved(rec) && schedule == old(schedule)
      ensures trace == old(trace) + [MetaWritten(rec)]
    {
      meta := Saved(rec);
      trace := trace + [MetaWritten(rec)];
    }

    /** `os.remove` of the progress file; a missing file is ignored. */
    method RemoveMeta()
      modifies this
      ensures meta == NoMeta && schedule == old(schedule)
      ensures trace == old(trace) + [MetaRemoved]
    {
      meta := NoMeta;
      trace := trace + [MetaRemoved];
    }
  }

  /** `get_uploaded_chunks`: `None` when it raises. A 404 means no chunks. */
  method GetUploadedChunks(net: Transport, id: string) returns (r: Option<seq<int>>)
    modifies net
    ensures net.schedule == Tail(old(net.schedule)) && net.meta == old(net.meta)
    ensures net.trace == old(net.trace) + [Sent(StatusReq(id))]
    ensures Head(old(net.schedule)) == Delivered && id !in net.server.root ==> r == Some([])
    ensures Head(old(net.schedule)) == Delivered && IsSession(net.server.root, id) ==>
      && r.Some?
      && StrictlyIncreasing(r.value)
      && forall i :: i in r.value <==> i in net.server.root[id].session.chunks
    ensures Head(old(net.schedule)) != Delivered || IsStoredFile(net.server.root, id) ==> r == None
  {
    var resp := net.GetStatus(id);
    match resp
    case Answer(list) => return Some(list);
    case HttpError(e) => return if e == NotFound then Some([]) else None;
    case NetworkError => return None;
  }

  /** The status query of `run_upload`: whatever goes wrong, it carries on believing nothing is stored. */
  method QueryUploaded(net: Transport, id: string) returns (uploaded: set<int>)
    modifies net
    ensures net.schedule == Tail(old(net.schedule)) && net.meta == old(net.meta)
    ensures net.trace == old(net.trace) + [Sent(StatusReq(id))]
    ensures uploaded == if Head(old(net.schedule)) == Delivered && IsSession(net.server.root, id)
                        then net.server.root[id].session.chunks.Keys else {}
  {
    var r := GetUploadedChunks(net, id);
    if r.Some? {
      uploaded := set i | i in r.value;
    } else {
      uploaded := {};
    }
  }

  /**
   * The retry loop for one chunk: up to one attempt per entry of `RETRY_BACKOFF`, each a
   * fresh PUT; any failure, an HTTP error status included, is retried. After the first
   * success the progress file is rewritten with `rec` and the loop ends.
   */
  method SendChunk(net: Transport, rec: Record, index: int, data: seq<byte>) returns (ok: bool, ghost attempts: nat)
    modifies net, net.server
    ensures 1 <= attempts <= |RETRY_BACKOFF| && (ok || attempts == |RETRY_BACKOFF|)
    ensures net.trace == old(net.trace) + Repeat(Sent(ChunkReq(rec.uploadId, index, data)), attempts)
                         + (if ok then [MetaWritten(rec)] else [])
    ensures net.meta == if ok then Saved(rec) else old(net.meta)
    ensures Quiet(old(net.schedule)) ==> Quiet(net.schedule)
    ensures net.server.root == old(net.server.root)
            || net.server.root == AfterPut(old(net.server.root), rec.uploadId, index, data)
    ensures ok ==> IsSession(old(net.server.root), rec.uploadId)
                   && net.server.root == AfterPut(old(net.server.root), rec.uploadId, index, data)
    ensures Quiet(old(net.schedule)) && IsSession(old(net.server.root), rec.uploadId) ==> ok && attempts == 1
    ensures ok <==> IsSession(old(net.server.root), rec.uploadId)
                    && FirstDelivered(old(net.schedule), |RETRY_BACKOFF|) < |RETRY_BACKOFF|
    ensures ok ==> attempts == FirstDelivered(old(net.schedule), |RETRY_BACKOFF|) + 1
    ensures net.schedule == Drop(old(net.schedule), attempts)
  {
    var id := rec.uploadId;
    ok := false;
    var attempt := 0;
    while attempt < |RETRY_BACKOFF|
      invariant 0 <= attempt <= |RETRY_BACKOFF|
      invariant net.schedule == Drop(old(net.schedule), attempt)
      invariant IsSession(old(net.server.root), id) ==> FirstDelivered(old(net.schedule), attempt) == attempt
      invariant net.trace == old(net.trace) + Repeat(Sent(ChunkReq(id, index, data)), attempt)
      invariant net.meta == old(net.meta)
      invariant net.server.root == old(net.server.root)
                || net.server.root == AfterPut(old(net.server.root), id, index, data)
    {
      PutIsIdempotent(old(net.server.root), id, index, data);
      DropStep(old(net.schedule), attempt);
      if IsSession(old(net.server.root), id) {
        FirstDeliveredStep(old(net.schedule), attempt, |RETRY_BACKOFF|);
      }
      var r := net.PutChunk(id, index, data);
      attempt := attempt + 1;
      if r.Answer? {
        net.SaveMeta(rec);
        ok := true;
        attempts := attempt;
        break;
      }
      // time.sleep(RETRY_BACKOFF[attempt - 1]) is not modelled
    }
    if !ok {
      attempts := attempt;
    }
    if Quiet(old(net.schedule)) {
      QuietDrop(old(net.schedule), attempts);
      QuietFirst(old(net.schedule), |RETRY_BACKOFF|);
    }
  }

  /**
   * What the chunk loop has done to the server since `start`: only chunks of its own session
   * rewritten, with bytes of `file`, and every index in `sent` stored.
   */
  ghost predicate ServerProgress(start: map<string, Entry>, now: map<string, Entry>, rec: Record, file: seq<byte>, sent: seq<nat>) {
    && SessionRefreshed(start, now, rec.uploadId, file, rec.chunkSize)
    && (sent != [] ==> IsSession(start, rec.uploadId))
    && (IsSession(start, rec.uploadId) ==> Holds(now[rec.uploadId].session.chunks, sent, file, rec.chunkSize))
  }


  /** The server holds a session for the loop's id now exactly when it did at the start. */
  lemma ProgressKeepsSession(start: map<string, Entry>, now: map<string, Entry>, rec: Record, file: seq<byte>, sent: seq<nat>)
    requires ServerProgress(start, now, rec, file, sent)
    ensures IsSession(now, rec.uploadId) <==> IsSession(start, rec.uploadId)
  {
  }

  /** Attempts at a chunk above every sent index, whether they reached the server or not, keep the progress. */
  lemma ServerAfterAttempts(start: map<string, Entry>, before: map<string, Entry>, after: map<string, Entry>,
                            rec: Record, file: seq<byte>, sent: seq<nat>, index: nat)
    requires ServerProgress(start, before, rec, file, sent)
    requires index < TotalChunks(|file|, rec.chunkSize)
    requires forall k :: 0 <= k < |sent| ==> sent[k] < index
    requires after == before || after == AfterPut(before, rec.uploadId, index, ChunkOf(file, index, rec.chunkSize))
    ensures ServerProgress(start, after, rec, file, sent)
  {
    if after != before {
      PutRefreshes(before, rec.uploadId, index, file, rec.chunkSize);
      RefreshedTransitive(start, before, after, rec.uploadId, file, rec.chunkSize);
    }
  }

  /** A chunk delivered above every sent index joins the stored ones. */
  lemma ServerAfterDelivery(start: map<string, Entry>, before: map<string, Entry>, rec: Record, file: seq<byte>, sent: seq<nat>, index: nat)
    requires ServerProgress(start, before, rec, file, sent)
    requires index < TotalChunks(|file|, rec.chunkSize)
    requires forall k :: 0 <= k < |sent| ==> sent[k] < index
    requires IsSession(before, rec.uploadId)
    ensures IsSession(start, rec.uploadId)
    ensures ServerProgress(start, AfterPut(before, rec.uploadId, index, ChunkOf(file, index, rec.chunkSize)), rec, file, sent + [index])
  {
    var after := AfterPut(before, rec.uploadId, index, ChunkOf(file, index, rec.chunkSize));
    PutRefreshes(before, rec.uploadId, index, file, rec.chunkSize);
    RefreshedTransitive(start, before, after, rec.uploadId, file, rec.chunkSize);
    HoldsAfterPut(before, rec.uploadId, sent, index, file, rec.chunkSize);
  }

  /** A successful PUT of chunk `index` keeps every chunk sent before it, and stores this one. */
  lemma HoldsAfterPut(root: map<string, Entry>, id: string, sent: seq<nat>, index: nat, file: seq<byte>, chunkSize: PosInt)
    requires IsSession(root, id) && Holds(root[id].session.chunks, sent, file, chunkSize)
    requires forall k :: 0 <= k < |sent| ==> sent[k] < index
    ensures var after := AfterPut(root, id, index, ChunkOf(file, index, chunkSize));
      IsSession(after, id) && Holds(after[id].session.chunks, sent + [index], file, chunkSize)
  {
    var after := AfterPut(root, id, index, ChunkOf(file, index, chunkSize));
    var m := after[id].session.chunks;
    forall k | 0 <= k < |sent + [index]|
      ensures 0 <= (sent + [index])[k] && (sent + [index])[k] in m
              && m[(sent + [index])[k]] == ChunkOf(file, (sent + [index])[k], chunkSize)
    {
      if k < |sent| {
        assert (sent + [index])[k] == sent[k];
      }
    }
  }

  /**
   * One missing index of the chunk loop (its bytes read from the file and sent with retries)
   * for a loop that has delivered `sent` since `start` and `schedule0`.
   */
  method ReadAndSend(net: Transport, rec: Record, file: seq<byte>, idx: nat, ghost start: map<string, Entry>,
                     ghost trace0: seq<Event>, ghost sent: seq<nat>, ghost tries: seq<nat>)
    returns (ok: bool, ghost attempts: AttemptCount)
    requires idx < TotalChunks(|file|, rec.chunkSize)
    requires |tries| == |sent| && net.trace == trace0 + LoopTrace(rec, file, sent, tries)
    requires forall k :: 0 <= k < |sent| ==> sent[k] < idx
    requires ServerProgress(start, net.server.root, rec, file, sent)
    modifies net, net.server
    ensures ok || attempts == |RETRY_BACKOFF|
    ensures ok ==> net.trace == trace0 + LoopTrace(rec, file, sent + [idx], tries + [attempts])
    ensures !ok ==> net.trace == trace0 + LoopTrace(rec, file, sent, tries) + Retries(rec, file, idx, attempts)
    ensures net.meta == if ok then Saved(rec) else old(net.meta)
    ensures Quiet(old(net.schedule)) ==> Quiet(net.schedule)
    ensures ServerProgress(start, net.server.root, rec, file, if ok then sent + [idx] else sent)
    ensures !ok ==> !(Quiet(old(net.schedule)) && IsSession(start, rec.uploadId))
    ensures ok <==> IsSession(start, rec.uploadId)
                    && FirstDelivered(old(net.schedule), |RETRY_BACKOFF|) < |RETRY_BACKOFF|
    ensures ok ==> attempts == FirstDelivered(old(net.schedule), |RETRY_BACKOFF|) + 1
    ensures net.schedule == Drop(old(net.schedule), attempts)
  {
    var data := ChunkOf(file, idx, rec.chunkSize);
    ghost var before := net.server.root;
    ProgressKeepsSession(start, before, rec, file, sent);
    ok, attempts := SendChunk(net, rec, idx, data);
    ghost var done := LoopTrace(rec, file, sent, tries);
    ghost var retries := Retries(rec, file, idx, attempts);
    if ok {
      LoopTraceStep(rec, file, sent, tries, idx, attempts);
      ServerAfterDelivery(start, before, rec, file, sent, idx);
    } else {
      ServerAfterAttempts(start, before, net.server.root, rec, file, sent, idx);
      ProgressKeepsSession(start, before, rec, file, sent);
    }
  }

  /**
   * One turn of the chunk loop, at index `idx` of a loop that has delivered `sent` since
   * `start` and `trace0`: an index the status answer listed is skipped; the loop stops when
   * the cap is reached, and otherwise the chunk is read and sent with retries.
   */
  method VisitIndex(net: Transport, rec: Record, file: seq<byte>, uploaded: set<int>, maxChunks: Option<int>,
                    idx: nat, chunksSent: nat, ghost start: map<string, Entry>, ghost trace0: seq<Event>,
                    ghost schedule0: seq<Delivery>, ghost sent: seq<nat>, ghost tries: seq<AttemptCount>)
    returns (stop: Stop, chunksSent': nat, ghost sent': seq<nat>, ghost tries': seq<AttemptCount>)
    requires idx < TotalChunks(|file|, rec.chunkSize)
    requires sent == Missing(idx, uploaded) && chunksSent == |sent| && |tries| == |sent|
    requires maxChunks.Some? ==> |sent| <= Max0(maxChunks.value)
    requires net.trace == trace0 + LoopTrace(rec, file, sent, tries)
    requires net.meta == Saved(rec)
    requires ServerProgress(start, net.server.root, rec, file, sent)
    requires EachDelivered(schedule0, tries) && net.schedule == ScheduleAfter(schedule0, tries)
    modifies net, net.server
    ensures stop == AllSent ==>
      && sent' == Missing(idx + 1, uploaded) && chunksSent' == |sent'| && |tries'| == |sent'|
      && (maxChunks.Some? ==> |sent'| <= Max0(maxChunks.value))
      && net.trace == trace0 + LoopTrace(rec, file, sent', tries')
    ensures stop != AllSent ==> idx !in uploaded && sent' == sent && tries' == tries
    ensures stop == CapReached ==> maxChunks.Some? && |sent| >= maxChunks.value && net.trace == old(net.trace)
    ensures stop == RetriesExhausted ==>
      && net.trace == trace0 + LoopTrace(rec, file, sent, tries) + Retries(rec, file, idx, |RETRY_BACKOFF|)
      && !(Quiet(old(net.schedule)) && IsSession(start, rec.uploadId))
    ensures EachDelivered(schedule0, tries')
    ensures stop != RetriesExhausted ==> net.schedule == ScheduleAfter(schedule0, tries')
    ensures stop == RetriesExhausted ==>
      && !(maxChunks.Some? && chunksSent >= maxChunks.value)
      && net.schedule == Drop(ScheduleAfter(schedule0, tries'), |RETRY_BACKOFF|)
      && !(IsSession(start, rec.uploadId)
           && FirstDelivered(ScheduleAfter(schedule0, tries'), |RETRY_BACKOFF|) < |RETRY_BACKOFF|)
    ensures net.meta == Saved(rec)
    ensures Quiet(old(net.schedule)) ==> Quiet(net.schedule)
    ensures ServerProgress(start, net.server.root, rec, file, sent')
  {
    sent', tries', chunksSent' := sent, tries, chunksSent;
    if idx in uploaded {
      assert Missing(idx + 1, uploaded) == sent;
      return AllSent, chunksSent', sent', tries';
    }
    assert Missing(idx + 1, uploaded) == sent + [idx];
    if maxChunks.Some? && chunksSent >= maxChunks.value {
      return CapReached, chunksSent', sent', tries';
    }
    MissingShape(idx, uploaded);
    var ok;
    ghost var attempts;
    ok, attempts := ReadAndSend(net, rec, file, idx, start, trace0, sent, tries);
    if !ok {
      return RetriesExhausted, chunksSent', sent', tries';
    }
    DeliveredStep(schedule0, tries, attempts);
    return AllSent, chunksSent + 1, sent + [idx], tries + [attempts];
  }

  /**
   * The chunk loop of `run_upload`: every index below the chunk count that `uploaded`
   * lacks, in ascending order, is sent with retries, and the progress file rewritten
   * after each success. It stops early, at index `at`, when the cap `maxChunks` on new
   * chunks is reached before a missing index, or when one chunk exhausts its retries.
   * `sent` is what this run delivered, index `sent[k]` after `tries[k]` attempts.
   */
  method TransferLoop(net: Transport, rec: Record, file: seq<byte>, uploaded: set<int>, maxChunks: Option<int>)
    returns (stop: Stop, ghost at: nat, ghost sent: seq<nat>, ghost tries: seq<AttemptCount>)
    requires net.meta == Saved(rec)
    modifies net, net.server
    ensures at <= TotalChunks(|file|, rec.chunkSize) && sent == Missing(at, uploaded)
    ensures stop == AllSent <==> at == TotalChunks(|file|, rec.chunkSize)
    ensures stop != AllSent ==> at !in uploaded
    ensures maxChunks.Some? ==> |sent| <= Max0(maxChunks.value)
    ensures stop == CapReached ==> maxChunks.Some? && |sent| >= maxChunks.value
    ensures stop == RetriesExhausted ==> !(Quiet(old(net.schedule)) && IsSession(old(net.server.root), rec.uploadId))
    ensures |tries| == |sent|
    ensures net.trace == old(net.trace) + LoopTrace(rec, file, sent, tries)
              + (if stop == RetriesExhausted then Retries(rec, file, at, |RETRY_BACKOFF|) else [])
    ensures net.meta == Saved(rec)
    ensures Quiet(old(net.schedule)) ==> Quiet(net.schedule)
    ensures ServerProgress(old(net.server.root), net.server.root, rec, file, sent)
    ensures EachDelivered(old(net.schedule), tries)
    ensures stop != RetriesExhausted ==> net.schedule == ScheduleAfter(old(net.schedule), tries)
    ensures stop == RetriesExhausted ==>
      && net.schedule == Drop(ScheduleAfter(old(net.schedule), tries), |RETRY_BACKOFF|)
      && !(maxChunks.Some? && |sent| >= maxChunks.value)
      && !(IsSession(old(net.server.root), rec.uploadId)
           && FirstDelivered(ScheduleAfter(old(net.schedule), tries), |RETRY_BACKOFF|) < |RETRY_BACKOFF|)
  {
    var total := TotalChunks(|file|, rec.chunkSize);
    var chunksSent := 0;
    sent, tries := [], [];
    stop, at := AllSent, total;
    for idx := 0 to total
      invariant stop == AllSent
      invariant sent == Missing(idx, uploaded) && chunksSent == |sent|
      invariant maxChunks.Some? ==> |sent| <= Max0(maxChunks.value)
      invariant |tries| == |sent|
      invariant net.trace == old(net.trace) + LoopTrace(rec, file, sent, tries)
      invariant net.meta == Saved(rec)
      invariant Quiet(old(net.schedule)) ==> Quiet(net.schedule)
      invariant ServerProgress(old(net.server.root), net.server.root, rec, file, sent)
      invariant EachDelivered(old(net.schedule), tries)
      invariant net.schedule == ScheduleAfter(old(net.schedule), tries)
    {
      var st;
      st, chunksSent, sent, tries := VisitIndex(net, rec, file, uploaded, maxChunks, idx, chunksSent,
                                                old(net.server.root), old(net.trace), old(net.schedule), sent, tries);
      if st != AllSent {
        stop, at := st, idx;
        break;
      }
    }
  }

  /**
   * The chunk loop seen from the whole run: what it delivered is a prefix of the missing
   * indices, all of them exactly when it was not stopped, and a chunk whose retries ran
   * out is the next missing index.
   */
  method TransferChunks(net: Transport, rec: Record, file: seq<byte>, uploaded: set<int>, maxChunks: Option<int>)
    returns (stop: Stop, ghost sent: seq<nat>, ghost tries: seq<AttemptCount>)
    requires net.meta == Saved(rec)
    modifies net, net.server
    ensures var all := Missing(TotalChunks(|file|, rec.chunkSize), uploaded);
      && |sent| <= |all| && sent == all[..|sent|]
      && (stop == AllSent <==> sent == all)
      && (stop == CapReached <==> maxChunks.Some? && |sent| >= Max0(maxChunks.value) && sent != all)
    ensures maxChunks.Some? ==> |sent| <= Max0(maxChunks.value)
    ensures stop == CapReached ==> maxChunks.Some? && |sent| == Max0(maxChunks.value)
    ensures stop == RetriesExhausted ==> !(Quiet(old(net.schedule)) && IsSession(old(net.server.root), rec.uploadId))
    ensures |tries| == |sent|
    ensures net.trace == old(net.trace) + LoopTrace(rec, file, sent, tries)
              + (if stop == RetriesExhausted
                 then Retries(rec, file, Missing(TotalChunks(|file|, rec.chunkSize), uploaded)[|sent|], |RETRY_BACKOFF|)
                 else [])
    ensures net.meta == Saved(rec)
    ensures Quiet(old(net.schedule)) ==> Quiet(net.schedule)
    ensures ServerProgress(old(net.server.root), net.server.root, rec, file, sent)
    ensures EachDelivered(old(net.schedule), tries)
    ensures stop != RetriesExhausted ==> net.schedule == ScheduleAfter(old(net.schedule), tries)
    ensures stop == RetriesExhausted ==>
      && net.schedule == Drop(ScheduleAfter(old(net.schedule), tries), |RETRY_BACKOFF|)
      && !(maxChunks.Some? && |sent| >= maxChunks.value)
      && !(IsSession(old(net.server.root), rec.uploadId)
           && FirstDelivered(ScheduleAfter(old(net.schedule), tries), |RETRY_BACKOFF|) < |RETRY_BACKOFF|)
  {
    ghost var at;
    stop, at, sent, tries := TransferLoop(net, rec, file, uploaded, maxChunks);
    var total := TotalChunks(|file|, rec.chunkSize);
    if stop != AllSent {
      StoppedShort(at, total, uploaded);
    }
  }

  /**
   * How `run_upload` picks its session (lines 89-114). A record for the same digest is
   * resumed as it stands; a record for other contents is removed first; otherwise a
   * session is initiated and its record saved. `None` stands for an exception that
   * `run_upload` does not catch: a progress file that is not JSON, or an initiate request
   * that fails (`raise_for_status` or a connection error).
   */
  method OpenSession(net: Transport, fileSize: nat, filename: string, fileMd5: Digest, uid: string)
    returns (rec: Option<Record>)
    modifies net, net.server
    ensures old(net.meta).Unreadable? || Resumes(old(net.meta), fileMd5) ==>
      && rec == (if Resumes(old(net.meta), fileMd5) then Some(old(net.meta).record) else None)
      && net.meta == old(net.meta) && net.trace == old(net.trace)
      && net.schedule == old(net.schedule) && net.server.root == old(net.server.root)
    ensures Quiet(old(net.schedule)) ==> Quiet(net.schedule)
    ensures !old(net.meta).Unreadable? && !Resumes(old(net.meta), fileMd5) ==>
      && net.schedule == Tail(old(net.schedule))
      && net.server.root == (if Head(old(net.schedule)) == RequestLost then old(net.server.root)
                             else AfterInitiate(old(net.server.root), filename, uid))
      && (rec.Some? <==> Head(old(net.schedule)) == Delivered && !IsStoredFile(old(net.server.root), uid))
      && (rec.Some? ==> rec.value == Record(uid, CHUNK_SIZE, fileSize, filename, fileMd5))
      && net.meta == (if rec.Some? then Saved(rec.value) else NoMeta)
      && net.trace == old(net.trace) + InitiationEvents(old(net.meta), filename, rec)
  {
    if Quiet(net.schedule) {
      QuietTail(net.schedule);
    }
    if net.meta.Unreadable? {
      // json.load raises
      return None;
    }
    if Resumes(net.meta, fileMd5) {
      return Some(net.meta.record);
    }
    ghost var meta0 := net.meta;
    if net.meta.Saved? {
      net.RemoveMeta();
    }
    var resp := net.PostInitiate(filename, uid);
    if resp.Answer? {
      rec := Some(Record(resp.value.uploadId, resp.value.chunkSize, fileSize, filename, fileMd5));
      net.SaveMeta(rec.value);
    } else {
      rec := None;
    }
  }

  /** Every chunk the server holds for session `id` is the right chunk of `file`. */
  ghost predicate ChunksFit(root: map<string, Entry>, id: string, file: seq<byte>, chunkSize: PosInt) {
    IsSession(root, id) ==> Consistent(root[id].session.chunks, file, chunkSize)
  }

  /** What the initiate request of a fresh run leaves for the rest of the run. */
  lemma FreshSession(root: map<string, Entry>, filename: string, uid: string, file: seq<byte>, chunkSize: PosInt)
    ensures ChunksFit(root, uid, file, chunkSize) ==> ChunksFit(AfterInitiate(root, filename, uid), uid, file, chunkSize)
    ensures uid !in root ==>
      && AfterInitiate(root, filename, uid) == root[uid := SessionDir(Session(filename, map[]))]
      && (!IsSession(root, ArtifactName(uid, filename)) ==>
            !IsSession(AfterInitiate(root, filename, uid), ArtifactName(uid, filename)))
  {
    if ChunksFit(root, uid, file, chunkSize) {
      InitiateKeepsFit(root, filename, uid, file, chunkSize);
    }
    if uid !in root {
      InitiateCreatesEmptySession(root, filename, uid);
      assert ArtifactName(uid, filename) != uid;
    }
  }

  /** Initiating keeps the chunks a directory of the same id already held, so their fit too. */
  lemma InitiateKeepsFit(root: map<string, Entry>, filename: string, uid: string, file: seq<byte>, chunkSize: PosInt)
    requires ChunksFit(root, uid, file, chunkSize)
    ensures ChunksFit(AfterInitiate(root, filename, uid), uid, file, chunkSize)
    ensures IsSession(AfterInitiate(root, filename, uid), uid) <==> !IsStoredFile(root, uid)
  {
    var after := AfterInitiate(root, filename, uid);
    if !IsStoredFile(root, uid) {
      assert after[uid].session.chunks == if uid in root then root[uid].session.chunks else map[];
    }
  }

  /**
   * Resuming is sound: when the session held only right chunks, the status answer listed
   * some of them, and every other index was sent, what `complete` assembles is the file.
   */
  lemma AllIndicesStored(start: map<string, Entry>, now: map<string, Entry>, rec: Record, file: seq<byte>, uploaded: set<int>)
    requires IsSession(start, rec.uploadId) && uploaded <= start[rec.uploadId].session.chunks.Keys
    requires ServerProgress(start, now, rec, file, Missing(TotalChunks(|file|, rec.chunkSize), uploaded))
    ensures IsSession(now, rec.uploadId)
    ensures forall i :: 0 <= i < TotalChunks(|file|, rec.chunkSize) ==> i in now[rec.uploadId].session.chunks
  {
    var total := TotalChunks(|file|, rec.chunkSize);
    var all := Missing(total, uploaded);
    var after := now[rec.uploadId].session.chunks;
    MissingShape(total, uploaded);
    forall i | 0 <= i < total ensures i in after {
      if i !in uploaded {
        var k :| 0 <= k < |all| && all[k] == i;
        assert all[k] in after;
      }
    }
  }

  /**
   * After a loop that sent every missing chunk of a non-empty file, the session can be
   * completed, unless its target path was already a directory.
   */
  lemma ReadyToComplete(start: map<string, Entry>, now: map<string, Entry>, rec: Record, file: seq<byte>, uploaded: set<int>)
    requires IsSession(start, rec.uploadId) && uploaded <= start[rec.uploadId].session.chunks.Keys
    requires ServerProgress(start, now, rec, file, Missing(TotalChunks(|file|, rec.chunkSize), uploaded))
    requires |file| > 0 && !IsSession(start, ArtifactName(rec.uploadId, start[rec.uploadId].session.filename))
    ensures CanComplete(now, rec.uploadId)
  {
    AllIndicesStored(start, now, rec, file, uploaded);
    assert 0 in now[rec.uploadId].session.chunks;
  }

  /**
   * A file of zero bytes has no chunks, so a session holding only right chunks of it holds
   * none, and `complete` refuses it with 400.
   */
  lemma EmptyFileCannotComplete(start: map<string, Entry>, now: map<string, Entry>, rec: Record, file: seq<byte>, sent: seq<nat>)
    requires |file| == 0 && ChunksFit(start, rec.uploadId, file, rec.chunkSize)
    requires ServerProgress(start, now, rec, file, sent)
    ensures !CanComplete(now, rec.uploadId)
  {
    if IsSession(now, rec.uploadId) {
      ProgressKeepsSession(start, now, rec, file, sent);
      var after := now[rec.uploadId].session.chunks;
      RefreshKeepsConsistent(start[rec.uploadId].session.chunks, after, file, rec.chunkSize);
      assert TotalChunks(|file|, rec.chunkSize) == 0;
      assert forall i :: i !in after;
    }
  }


  lemma CompletedRunStoresFile(start: map<string, Entry>, now: map<string, Entry>, rec: Record, file: seq<byte>, uploaded: set<int>)
    requires ChunksFit(start, rec.uploadId, file, rec.chunkSize)
    requires IsSession(start, rec.uploadId) ==> uploaded <= start[rec.uploadId].session.chunks.Keys
    requires ServerProgress(start, now, rec, file, Missing(TotalChunks(|file|, rec.chunkSize), uploaded))
    requires CanComplete(now, rec.uploadId)
    ensures IsSession(start, rec.uploadId)
    ensures now[rec.uploadId].session.filename == start[rec.uploadId].session.filename
    ensures Assemble(now[rec.uploadId].session.chunks) == file
  {
    var id, cs := rec.uploadId, rec.chunkSize;
    ProgressKeepsSession(start, now, rec, file, Missing(TotalChunks(|file|, cs), uploaded));
    var before, after := start[id].session.chunks, now[id].session.chunks;
    RefreshKeepsConsistent(before, after, file, cs);
    AllIndicesStored(start, now, rec, file, uploaded);
    CoveredChunksAssembleFile(after, file, cs);
  }

  /**
   * Lines 168-182: the complete request, and the progress file removed only when it
   * succeeded. `start` is the server before the chunk loop, which sent every index that
   * was missing from `uploaded`.
   */
  method FinishUpload(net: Transport, rec: Record, ghost file: seq<byte>, ghost start: map<string, Entry>, ghost uploaded: set<int>,
                      ghost sent: seq<nat>, ghost tries: seq<AttemptCount>)
    returns (result: RunResult, ghost run: RunInfo)
    requires IsSession(start, rec.uploadId) ==> uploaded <= start[rec.uploadId].session.chunks.Keys
    requires sent == Missing(TotalChunks(|file|, rec.chunkSize), uploaded) && |tries| == |sent|
    requires ServerProgress(start, net.server.root, rec, file, sent)
    modifies net, net.server
    ensures run == RunInfo(rec, uploaded, AllSent, sent, tries, old(net.server.root), run.artifact) && result != Crashed
    ensures result == Completed <==> Head(old(net.schedule)) == Delivered && CanComplete(old(net.server.root), rec.uploadId)
    ensures net.schedule == Tail(old(net.schedule))
    ensures net.server.root == if Head(old(net.schedule)) == RequestLost then old(net.server.root)
                               else AfterComplete(old(net.server.root), rec.uploadId)
    ensures net.meta == if result == Completed then NoMeta else old(net.meta)
    ensures net.trace == old(net.trace) + ClosingEvents(run, file, result)
    ensures result == Completed ==>
      && rec.uploadId !in net.server.root && IsSession(start, rec.uploadId)
      && run.artifact == ArtifactName(rec.uploadId, start[rec.uploadId].session.filename)
    ensures result == Completed && ChunksFit(start, rec.uploadId, file, rec.chunkSize) ==>
      run.artifact in net.server.root && net.server.root[run.artifact] == StoredFile(file)
    ensures Quiet(old(net.schedule)) && |file| > 0 && IsSession(start, rec.uploadId)
            && !IsSession(start, ArtifactName(rec.uploadId, start[rec.uploadId].session.filename))
            ==> result == Completed
    ensures |file| == 0 && ChunksFit(start, rec.uploadId, file, rec.chunkSize) ==> result != Completed
    ensures Quiet(old(net.schedule)) ==> Quiet(net.schedule)
  {
    ghost var before := net.server.root;
    if |file| == 0 && ChunksFit(start, rec.uploadId, file, rec.chunkSize) {
      EmptyFileCannotComplete(start, before, rec, file, sent);
    }
    if Quiet(net.schedule) {
      QuietTail(net.schedule);
      assert Head(net.schedule) == Delivered;
      if IsSession(start, rec.uploadId) && |file| > 0
         && !IsSession(start, ArtifactName(rec.uploadId, start[rec.uploadId].session.filename)) {
        ReadyToComplete(start, before, rec, file, uploaded);
      }
    }
    var resp := net.PostComplete(rec.uploadId);
    result := if resp.Answer? then Completed else Incomplete;
    ghost var artifact := "";
    if resp.Answer? {
      net.RemoveMeta();
      artifact := ArtifactName(rec.uploadId, before[rec.uploadId].session.filename);
      if ChunksFit(start, rec.uploadId, file, rec.chunkSize) {
        CompletedRunStoresFile(start, before, rec, file, uploaded);
      } else {
        ProgressKeepsSession(start, before, rec, file, sent);
      }
      CompletionRemovesSession(before, rec.uploadId);
    }
    run := RunInfo(rec, uploaded, AllSent, sent, tries, before, artifact);
  }


  /** What one run did: its record, the status answer, how the chunk loop ended and what it sent. */
  /** A run seen from outside: its record, the status answer, how the chunk loop ended, the server root it left, and the artifact name. */
  datatype RunInfo = RunInfo(rec: Record, uploaded: set<int>, stop: Stop, sent: seq<nat>, tries: seq<AttemptCount>,
                             loopRoot: map<string, Entry>, artifact: string)

  /** What a run does after the chunk loop. */
  function ClosingEvents(run: RunInfo, file: seq<byte>, result: RunResult): seq<Event>
    requires run.stop == RetriesExhausted ==> |run.sent| < |Missing(TotalChunks(|file|, run.rec.chunkSize), run.uploaded)|
  {
    match run.stop
    case AllSent => [Sent(CompleteReq(run.rec.uploadId))] + (if result == Completed then [MetaRemoved] else [])
    case CapReached => []
    case RetriesExhausted =>
      Retries(run.rec, file, Missing(TotalChunks(|file|, run.rec.chunkSize), run.uploaded)[|run.sent|], |RETRY_BACKOFF|)
  }

  /**
   * Lines 116-182 of `run_upload` for the session of `rec`: the status query, the chunk loop,
   * and, when it sent every missing chunk, completion. The result is `True` or `False`.
   */
  method UploadChunks(net: Transport, rec: Record, file: seq<byte>, maxChunks: Option<int>)
    returns (result: RunResult, ghost run: RunInfo)
    requires net.meta == Saved(rec)
    modifies net, net.server
    ensures result != Crashed && run.rec == rec
    ensures var all := Missing(TotalChunks(|file|, rec.chunkSize), run.uploaded);
      && |run.sent| <= |all| && run.sent == all[..|run.sent|]
      && (run.stop == AllSent <==> run.sent == all)
      && (run.stop == CapReached <==> maxChunks.Some? && |run.sent| >= Max0(maxChunks.value) && run.sent != all)
      && |run.tries| == |run.sent|
      && (maxChunks.Some? ==> |run.sent| <= Max0(maxChunks.value))
      && (run.stop == CapReached ==> maxChunks.Some? && |run.sent| == Max0(maxChunks.value))
    ensures net.trace == old(net.trace) + [Sent(StatusReq(rec.uploadId))] + LoopTrace(rec, file, run.sent, run.tries)
                         + ClosingEvents(run, file, result)
    ensures result == Incomplete ==> net.meta == Saved(rec)
    ensures result == Completed ==>
      && run.stop == AllSent && net.meta == NoMeta && rec.uploadId !in net.server.root
      && IsSession(old(net.server.root), rec.uploadId)
      && run.artifact == ArtifactName(rec.uploadId, old(net.server.root)[rec.uploadId].session.filename)
    ensures result == Completed && ChunksFit(old(net.server.root), rec.uploadId, file, rec.chunkSize) ==>
      run.artifact in net.server.root && net.server.root[run.artifact] == StoredFile(file)
    ensures run.uploaded == if Head(old(net.schedule)) == Delivered && IsSession(old(net.server.root), rec.uploadId)
                            then old(net.server.root)[rec.uploadId].session.chunks.Keys else {}
    ensures run.stop != AllSent ==> SessionRefreshed(old(net.server.root), net.server.root, rec.uploadId, file, rec.chunkSize)
    /* The chunk loop only refreshes the session; completion, when the loop sent everything,
       acts on what the loop left unless its request is lost. */
    ensures SessionRefreshed(old(net.server.root), run.loopRoot, rec.uploadId, file, rec.chunkSize)
    ensures net.server.root == if run.stop != AllSent || Head(ScheduleAfter(Tail(old(net.schedule)), run.tries)) == RequestLost
                               then run.loopRoot else AfterComplete(run.loopRoot, rec.uploadId)
    ensures run.stop == RetriesExhausted ==> !(Quiet(old(net.schedule)) && IsSession(old(net.server.root), rec.uploadId))
    ensures Quiet(old(net.schedule)) && maxChunks.None? && |file| > 0 && IsSession(old(net.server.root), rec.uploadId)
            && !IsSession(old(net.server.root), ArtifactName(rec.uploadId, old(net.server.root)[rec.uploadId].session.filename))
            ==> result == Completed
    ensures |file| == 0 && ChunksFit(old(net.server.root), rec.uploadId, file, rec.chunkSize) ==> result != Completed
    ensures Quiet(old(net.schedule)) ==> Quiet(net.schedule)
    ensures EachDelivered(Tail(old(net.schedule)), run.tries)
    ensures run.stop == RetriesExhausted ==>
      && net.schedule == Drop(ScheduleAfter(Tail(old(net.schedule)), run.tries), |RETRY_BACKOFF|)
      && !(maxChunks.Some? && |run.sent| >= maxChunks.value)
      && !(IsSession(old(net.server.root), rec.uploadId)
           && FirstDelivered(ScheduleAfter(Tail(old(net.schedule)), run.tries), |RETRY_BACKOFF|) < |RETRY_BACKOFF|)
  {
    ghost var root1 := net.server.root;
    var uploaded := QueryUploaded(net, rec.uploadId);
    if Quiet(old(net.schedule)) {
      QuietTail(old(net.schedule));
    }
    var stop, sent, tries := TransferChunks(net, rec, file, uploaded, maxChunks);
    ghost var trace3 := net.trace;
    if stop != AllSent {
      result := Incomplete;
      run := RunInfo(rec, uploaded, stop, sent, tries, net.server.root, "");
      return;
    }
    ghost var base := old(net.trace) + [Sent(StatusReq(rec.uploadId))] + LoopTrace(rec, file, sent, tries);
    // The loop added no retries; dropping the empty tail takes the solver these two steps.
    assert trace3 == base + [];
    assert trace3 == base;
    result, run := FinishUpload(net, rec, file, root1, uploaded, sent, tries);
  }

  /**
   * `run_upload(file_path, server, max_chunks)` on a file with contents `file`, digest
   * `fileMd5` and base name `filename`; `uid` stands for the id the server would draw.
   */
  method RunUpload(net: Transport, file: seq<byte>, filename: string, fileMd5: Digest, uid: string, maxChunks: Option<int>)
    returns (result: RunResult, ghost run: RunInfo)
    modifies net, net.server
    ensures result == Crashed <==>
      old(net.meta).Unreadable?
      || (!Resumes(old(net.meta), fileMd5) && !(Head(old(net.schedule)) == Delivered && !IsStoredFile(old(net.server.root), uid)))
    ensures result == Crashed ==> net.meta == if old(net.meta).Unreadable? then Unreadable else NoMeta
    ensures result != Crashed ==>
      run.rec == if Resumes(old(net.meta), fileMd5) then old(net.meta).record else Record(uid, CHUNK_SIZE, |file|, filename, fileMd5)
    ensures result != Crashed ==>
      var all := Missing(TotalChunks(|file|, run.rec.chunkSize), run.uploaded);
      && |run.sent| <= |all| && run.sent == all[..|run.sent|]
      && (run.stop == AllSent <==> run.sent == all)
      && (run.stop == CapReached <==> maxChunks.Some? && |run.sent| >= Max0(maxChunks.value) && run.sent != all)
      && |run.tries| == |run.sent|
      && (maxChunks.Some? ==> |run.sent| <= Max0(maxChunks.value))
      && (run.stop == CapReached ==> maxChunks.Some? && |run.sent| == Max0(maxChunks.value))
    ensures result != Crashed ==>
      net.trace == old(net.trace)
                   + (if Resumes(old(net.meta), fileMd5) then [] else InitiationEvents(old(net.meta), filename, Some(run.rec)))
                   + [Sent(StatusReq(run.rec.uploadId))]
                   + LoopTrace(run.rec, file, run.sent, run.tries)
                   + ClosingEvents(run, file, result)
    ensures result == Incomplete ==> net.meta == Saved(run.rec)
    ensures result == Completed ==>
      && run.stop == AllSent
      && net.meta == NoMeta
      && run.rec.uploadId !in net.server.root
      && (Resumes(old(net.meta), fileMd5) ==>
            && IsSession(old(net.server.root), run.rec.uploadId)
            && run.artifact == ArtifactName(run.rec.uploadId, old(net.server.root)[run.rec.uploadId].session.filename))
      && (!Resumes(old(net.meta), fileMd5) ==> run.artifact == ArtifactName(uid, filename))
    ensures result == Completed && ChunksFit(old(net.server.root), run.rec.uploadId, file, run.rec.chunkSize) ==>
      run.artifact in net.server.root && net.server.root[run.artifact] == StoredFile(file)
    /* The chunks the status query reports: those of the session as the run opened it, or none
       when the query is lost or the session is gone. */
    ensures result != Crashed ==>
      var start := OpenedRoot(old(net.server.root), old(net.meta), fileMd5, filename, uid);
      run.uploaded == if Head(StatusSchedule(old(net.schedule), old(net.meta), fileMd5)) == Delivered
                         && IsSession(start, run.rec.uploadId)
                      then start[run.rec.uploadId].session.chunks.Keys else {}
    ensures result != Crashed && !Resumes(old(net.meta), fileMd5) && uid !in old(net.server.root) ==> run.uploaded == {}
    ensures result == Crashed ==>
      net.server.root == if old(net.meta).Unreadable? || Head(old(net.schedule)) == RequestLost then old(net.server.root)
                         else AfterInitiate(old(net.server.root), filename, uid)
    ensures result != Crashed ==>
      && SessionRefreshed(OpenedRoot(old(net.server.root), old(net.meta), fileMd5, filename, uid),
                          run.loopRoot, run.rec.uploadId, file, run.rec.chunkSize)
      && net.server.root == if run.stop != AllSent
                               || Head(ScheduleAfter(LoopSchedule(old(net.schedule), old(net.meta), fileMd5), run.tries)) == RequestLost
                            then run.loopRoot else AfterComplete(run.loopRoot, run.rec.uploadId)
    ensures result != Crashed && run.stop != AllSent ==>
      SessionRefreshed(OpenedRoot(old(net.server.root), old(net.meta), fileMd5, filename, uid),
                       net.server.root, run.rec.uploadId, file, run.rec.chunkSize)
    ensures result != Crashed && run.stop == RetriesExhausted ==>
      !Quiet(old(net.schedule)) || (Resumes(old(net.meta), fileMd5) && !IsSession(old(net.server.root), run.rec.uploadId))
    /* A fresh upload on a network that loses nothing stores the file. */
    ensures && !old(net.meta).Unreadable? && !Resumes(old(net.meta), fileMd5)
            && Quiet(old(net.schedule)) && maxChunks.None? && |file| > 0
            && uid !in old(net.server.root) && !IsSession(old(net.server.root), ArtifactName(uid, filename))
            ==> result == Completed && run.artifact in net.server.root && net.server.root[run.artifact] == StoredFile(file)
    /* Resuming a live session on a network that loses nothing completes it. */
    ensures && Resumes(old(net.meta), fileMd5) && Quiet(old(net.schedule)) && maxChunks.None? && |file| > 0
            && IsSession(old(net.server.root), old(net.meta).record.uploadId)
            && !IsSession(old(net.server.root), ArtifactName(old(net.meta).record.uploadId,
                                                            old(net.server.root)[old(net.meta).record.uploadId].session.filename))
            ==> result == Completed
    ensures |file| == 0 && result != Crashed && ChunksFit(old(net.server.root), run.rec.uploadId, file, run.rec.chunkSize)
            ==> result != Completed
    ensures Quiet(old(net.schedule)) ==> Quiet(net.schedule)
    /* Past the initiate request (when one is sent) and the status query, each chunk goes
       through at its first delivered PUT, and the run gives up exactly when four PUTs in a
       row are lost or the session is gone. */
    ensures result != Crashed ==> EachDelivered(LoopSchedule(old(net.schedule), old(net.meta), fileMd5), run.tries)
    ensures result != Crashed && run.stop == RetriesExhausted ==> !(maxChunks.Some? && |run.sent| >= maxChunks.value)
    ensures result != Crashed && run.stop == RetriesExhausted ==>
      !(&& IsSession(OpenedRoot(old(net.server.root), old(net.meta), fileMd5, filename, uid), run.rec.uploadId)
        && FirstDelivered(ScheduleAfter(LoopSchedule(old(net.schedule), old(net.meta), fileMd5), run.tries),
                          |RETRY_BACKOFF|) < |RETRY_BACKOFF|)
  {
    ghost var root0, meta0, schedule0 := net.server.root, net.meta, net.schedule;
    var chosen := OpenSession(net, |file|, filename, fileMd5, uid);
    if chosen.None? {
      return Crashed, RunInfo(Record(uid, CHUNK_SIZE, |file|, filename, fileMd5), {}, AllSent, [], [], net.server.root, "");
    }
    var rec := chosen.value;
    if !Resumes(meta0, fileMd5) {
      FreshSession(root0, filename, uid, file, rec.chunkSize);
    }
    ghost var opening := if Resumes(meta0, fileMd5) then [] else InitiationEvents(meta0, filename, Some(rec));
    assert net.trace == old(net.trace) + opening;
    ghost var schedule1 := net.schedule;
    assert StatusSchedule(schedule0, meta0, fileMd5) == schedule1;
    assert LoopSchedule(schedule0, meta0, fileMd5) == Tail(schedule1);
    assert net.server.root == OpenedRoot(root0, meta0, fileMd5, filename, uid);
    result, run := UploadChunks(net, rec, file, maxChunks);
  }
}
