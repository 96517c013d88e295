# Resumable chunked upload

This project models the resumable chunked file upload of an onboard drone toolkit and proves properties of it. It has two sides.

The client side is `run_upload` in `onboard/uploader.py`. It does the following:
- computes the file's MD5 and reads the progress file `<file>.uploadmeta.json`;
- resumes the recorded session when the digest matches, and otherwise discards the record and initiates a new session;
- asks the server which chunk indices it already holds;
- sends every other index below `ceil(file_size / chunk_size)` in ascending order, with up to four attempts per chunk;
- optionally stops once `max_chunks` new chunks have been sent;
- finally asks the server to assemble the file, removing the progress file only when that succeeds.

The server side is `upload_server.py`. Its handlers are `initiate`, `status`, `upload_chunk` and `complete`. They work on one upload root. That root holds a directory per session, containing `meta_filename.txt` and `chunk_{i}.part` files, and the assembled files `<upload_id>__<original_name>` beside those directories.

Modules:

- `Wrappers` (wrappers.dfy): `Option`.
- `Chunking` (chunking.dfy): bytes, the chunk count and the bytes of chunk `idx`.
- `Assembly` (assembly.dfy):
  - `Assemble`, the reference assembly: the stored chunks in ascending index order;
  - `Concat`, what a loop over a list of indices writes;
  - the proof that sending every chunk of a file and assembling gives the file back.
- `ChunkNames` (chunk_names.dfy):
  - the `chunk_{index}.part` naming;
  - the parse `int(name.split("_")[1].split(".")[0])` that `status` and `complete` apply to directory entries;
  - the Python routines those two rely on: `str(int)`, `int(str)`, `split` and `strip`.
- `UploadServer` (upload_server.dfy): the class `Server`.
  - Its field `root` maps entry names of the upload root to session directories or stored files.
  - `upload_dir(id)` is the key `id` of that map.
  - Its `Initiate`, `Status`, `UploadChunk` and `Complete` methods are the handlers. `Status` and `Complete` build their index lists with the listing loop (`ParseListing`) and a sort (`SortIndices`), and `Complete` writes with a copy loop (`WriteInOrder`).
- `Uploader` (uploader.dfy): the client.
  - The class `Transport` holds the server, a delivery schedule, the progress file and a ghost trace of the client's actions. The schedule says, for each HTTP exchange in turn, whether the request arrives and whether the reply comes back.
  - `RunUpload` is `run_upload`. It is split along the source's line ranges:
    - `OpenSession`: lines 89-114;
    - `QueryUploaded`: lines 118-123;
    - `TransferChunks` and `TransferLoop`: the loop at lines 131-166;
    - `VisitIndex`, `ReadAndSend` and `SendChunk`: one index and its retries;
    - `FinishUpload`: lines 168-182.
  - Each method is proved against specification functions:
    - `Missing`: the indices the run must send;
    - `LoopTrace`, `InitiationEvents` and `ClosingEvents`: the exact sequence of requests and progress-file writes;
    - `AfterInitiate`, `AfterPut` and `AfterComplete`: the server state;
    - `Drop`, `FirstDelivered`, `ScheduleAfter` and `EachDelivered`: which exchanges of the schedule each chunk's attempts use, and that a chunk goes through at its first delivered PUT.
    - `OpenedRoot`, `StatusSchedule` and `LoopSchedule`: the server state and the schedule once the session is open, at the status query and at the chunk loop.
- `ResumeDemo` (resume_demo.dfy): the scenario of `backend/demo_upload_resume.py`. A capped run stops early, and an uncapped run resumes it. On a network that loses nothing, the server then holds exactly the original bytes.

## Model

| member | source | states |
|---|---|---|
| Chunking.CeilingDivision | onboard/uploader.py:116 | `(a + b - 1) / b` chunks of size `b` cover `a` bytes, and one chunk fewer does not |
| Chunking.TotalChunks | onboard/uploader.py:116 | the chunk count is the least count whose chunks cover the file; it is 0 exactly for an empty file |
| Chunking.ChunkStartBounds | onboard/uploader.py:145-146 | chunk `idx` starts inside the file exactly when `idx` is below the chunk count; every chunk but the last ends inside the file |
| Chunking.ChunkOf | onboard/uploader.py:145-146 | chunk `idx` is the bytes `[idx*chunk_size, min(size, (idx+1)*chunk_size))`: below the chunk count it starts at `idx*chunk_size` and ends at `min(size, idx*chunk_size + chunk_size)`; it has at most `chunk_size` bytes and exactly that many unless it is the last; it is empty exactly at or past the chunk count |
| Assembly.Range | onboard/uploader.py:132 | `range(lo, hi)`: strictly ascending, its `k`-th element is `lo + k`, and it holds exactly `lo <= x < hi` |
| Assembly.Least | upload_server.py:110 | the smallest index of a non-empty set, which is where an ascending sort starts |
| Assembly.Assemble | upload_server.py:110-121 | the chunks in ascending index order: empty for no chunks, otherwise it starts with the chunk of the least index and is at least as long as every chunk |
| Assembly.AscendingConcatIsAssemble | upload_server.py:110-121 | writing the stored chunks in a strictly ascending list that names every stored index gives the reference assembly |
| Assembly.FileChunks | onboard/uploader.py:132-153 | the chunks a full run delivers: exactly the indices below the chunk count, each with its own bytes |
| Assembly.ChunksCoverSuffix | onboard/uploader.py:145-146 | the chunks from `j` up to the last, concatenated, are the file from byte `j*chunk_size` on |
| Assembly.AssembleFileChunks | upload_server.py:117-121 | assembling every chunk of a file gives the file back |
| Assembly.CoveredChunksAssembleFile | upload_server.py:117-121 | stored chunks that are all right and leave no index below the chunk count out assemble to the file |
| Assembly.AssemblySkipsGaps | upload_server.py:107-121 | assembly does not look for gaps: chunks 0 and 2 without 1 assemble to the two concatenated |
| ChunkNames.TrimLeftShape | upload_server.py:113 | `lstrip` removes only whitespace, with whitespace as Python's `str.isspace` has it (ASCII and Unicode spaces), and leaves a suffix that does not start with any |
| ChunkNames.TrimRightShape | upload_server.py:113 | `rstrip` removes only whitespace in Python's sense, and leaves a prefix that does not end with any |
| ChunkNames.StripShape | upload_server.py:113 | `strip` leaves no whitespace in Python's sense at either end, keeps only characters of its input, and leaves nothing exactly when the text is all whitespace |
| ChunkNames.NatToDecimal | upload_server.py:75 | the decimal form of a number is a non-empty string of digits |
| ChunkNames.DecimalRoundTrip | upload_server.py:58 | reading back the decimal form of `n` gives `n` |
| ChunkNames.IntToString | upload_server.py:75 | `str(index)` is non-empty, has no surrounding whitespace, and holds neither `_` nor `.` |
| ChunkNames.ParseInt | upload_server.py:58 | `int(s)` on ASCII digits: a result means the stripped text is an optional sign and digits only, and a negative result means the sign was `-` |
| ChunkNames.ParseIntRoundTrip | upload_server.py:58 | `int(str(i)) == i` for every integer, negative ones included |
| ChunkNames.Before | upload_server.py:58 | `s.split(c)[0]` is the longest prefix of `s` without `c` |
| ChunkNames.ChunkName | upload_server.py:75 | the name of a chunk file starts with `chunk_` and ends with `.part` |
| ChunkNames.ParseChunkName | upload_server.py:56-58 | a name gives an index only when it starts with `chunk_` and ends with `.part`; its partner `ChunkNames.ChunkNameRoundTrip` states that every name `upload_chunk` writes gives back its own index |
| ChunkNames.ChunkNameRoundTrip | upload_server.py:55-59 | the listing parse reads back the index of every name `upload_chunk` writes |
| ChunkNames.ChunkNameInjective | upload_server.py:75 | distinct indices are stored under distinct names |
| ChunkNames.MetaFileIsNotAChunk | upload_server.py:41 | `meta_filename.txt` is never parsed as a chunk and never written as one |
| UploadServer.Listing | upload_server.py:55 | `os.listdir` of a session directory: `meta_filename.txt`, which parses as no chunk, and an entry for every stored chunk; every other entry parses as a stored index |
| UploadServer.OriginalName | upload_server.py:112-113 | the name read back, stripped: never empty, no whitespace at either end and no `\r`; exactly the stripped stored name when that has no `\r` and is not empty; `assembled.bin` when the stored name is all whitespace |
| UploadServer.TextModeRead | upload_server.py:112 | the text read back holds no `\r`, is the written text when that holds none, and is all whitespace when the written text is; `UploadServer.TextModeReadReplaces` ties it to the two-pass translation |
| UploadServer.TextModeReadReplaces | upload_server.py:112 | for every written text, the text-mode read equals `.replace("\r\n", "\n")` followed by `.replace("\r", "\n")`, Python's universal-newline translation |
| UploadServer.NoBreakSpaceFallsBack | upload_server.py:112-113 | a name of one no-break space (a Unicode space) is stripped to nothing and falls back to `assembled.bin` |
| UploadServer.IdeographicSpaceStripped | upload_server.py:112-113 | a trailing ideographic space is stripped from the name |
| UploadServer.CarriageReturnReadsAsNewline | upload_server.py:112-113 | a `\r` inside the stored name comes back as `\n` in the final path |
| UploadServer.ArtifactName | upload_server.py:115 | the final path starts with the upload id and is longer than it |
| UploadServer.Insert | upload_server.py:62 | one insertion step adds exactly one copy of `x` |
| UploadServer.InsertSorted | upload_server.py:62 | inserting into a sorted list keeps it sorted |
| UploadServer.InsertStrict | upload_server.py:62 | inserting a new element into a strictly ascending list keeps it strictly ascending |
| UploadServer.SortIndices | upload_server.py:62 | `list.sort()`: a sorted permutation of its input |
| UploadServer.SortKeepsMembers | upload_server.py:62 | sorting keeps exactly the same elements |
| UploadServer.SortDistinct | upload_server.py:110 | sorting distinct indices gives a strictly ascending list |
| UploadServer.ListingIsCanonical | upload_server.py:55-61 | every entry of a session directory that parses as a chunk name is the canonical name of its index |
| UploadServer.ListingIndices | upload_server.py:55-61 | the indices read off a listing are exactly the stored chunk indices |
| UploadServer.ParseListing | upload_server.py:55-61 | the listing loop, in any order: every index it collects names a listed entry, every parsing entry contributes its index, and none twice |
| UploadServer.CollectIndices | upload_server.py:99-106 | the collected indices are exactly the stored ones, without repeats, and the list is empty exactly when no chunk is stored |
| UploadServer.ChunkOrder | upload_server.py:99-110 | listing then sorting gives the stored indices, strictly ascending, and is empty exactly when none is stored |
| UploadServer.WriteInOrder | upload_server.py:117-121 | the copy loop writes the chunks one after the other in the given order |
| UploadServer.Server.constructor | upload_server.py:13-15 | a first start: the upload root starts empty. `makedirs(exist_ok=True)` keeps a root that already exists; `ResumeDemo.DropThenResume` sets such a root after construction |
| UploadServer.Server.Initiate | upload_server.py:37-43 | the root becomes `AfterInitiate`: a directory for `uid` with the filename, keeping any chunks already there; the reply is `uid` with `CHUNK_SIZE`, or 500 when `uid` names a stored file |
| UploadServer.Server.Status | upload_server.py:50-63 | 404 for an unknown id, 500 for an id naming a stored file, otherwise exactly the stored indices, strictly ascending |
| UploadServer.Server.UploadChunk | upload_server.py:71-86 | the root becomes `AfterPut`: chunk `index` of session `id` set to the bytes; 404 for an unknown id, 500 for a stored file, otherwise the index |
| UploadServer.Server.Complete | upload_server.py:94-131 | the root becomes `AfterComplete`: 404 for an unknown id, 400 when no chunk is stored, 500 when the id or the target path is not what it must be; otherwise `<id>__<name>` holds the ascending assembly, the session is gone and the reply is the final path |
| UploadServer.PutIsIdempotent | upload_server.py:75-83 | uploading the same bytes under the same index twice gives the state of uploading them once |
| UploadServer.PutTouchesOneChunk | upload_server.py:75-83 | an upload changes one index of one session; other indices, the filename and every other entry stay |
| UploadServer.UnknownSessionUnchanged | upload_server.py:72-96 | an upload or a completion for an id that is not a session directory changes nothing |
| UploadServer.InitiateCreatesEmptySession | upload_server.py:37-43 | a fresh id gets a session with the filename and no chunks; nothing else changes |
| UploadServer.CompletionRemovesSession | upload_server.py:115-131 | after completion the session is gone, so a later status is 404, and the final path holds the assembly; every other entry stays |
| Uploader.QuietTail | onboard/uploader.py:151-153 | after a lossless exchange, the rest of a lossless schedule is still lossless |
| Uploader.Repeat | onboard/uploader.py:151 | `n` identical attempts |
| Uploader.AttemptsAppend | onboard/uploader.py:151-153 | attempts at an index add up over concatenated traces |
| Uploader.AttemptsRepeat | onboard/uploader.py:151-153 | `n` attempts at one index count `n` for it and 0 for every other |
| Uploader.MissingShape | onboard/uploader.py:132-136 | the indices the loop sends are strictly ascending, below the chunk count, and exactly those the status answer lacks |
| Uploader.MissingPrefix | onboard/uploader.py:132-136 | what the loop sends over the first `m` indices is a prefix of what it sends over all |
| Uploader.StoppedShort | onboard/uploader.py:139-142 | stopping at a missing index leaves a proper prefix of the missing indices, and the next missing index is the one stopped at |
| Uploader.NothingUploaded | onboard/uploader.py:119-123 | with nothing reported stored, every index is sent, in order |
| Uploader.LoopTraceStep | onboard/uploader.py:151-158 | the loop's trace grows by one chunk's attempts and one progress-file rewrite per delivered chunk |
| Uploader.LoopTraceRequests | onboard/uploader.py:145-155 | the loop sends only chunks of this session, each with the bytes of its own index, at indices it delivered, and otherwise only rewrites the same record |
| Uploader.LoopTraceAttempts | onboard/uploader.py:151-158 | in the loop's trace each delivered index is attempted exactly its own number of times, and no other index at all |
| Uploader.RunAttemptsBounded | onboard/uploader.py:151-166 | no index is attempted more than `len(RETRY_BACKOFF)` = 4 times, and an attempted index is below the chunk count and was not reported stored |
| Uploader.RunRequestsMissingChunks | onboard/uploader.py:132-153 | every request of the loop is a chunk of this file at an index below the chunk count that the status answer did not list |
| Uploader.PutRefreshes | onboard/uploader.py:145-153 | sending a right chunk only rewrites a chunk of the run's own session with the file's bytes |
| Uploader.RefreshedTransitive | onboard/uploader.py:131-166 | such rewrites compose over the whole loop |
| Uploader.RefreshKeepsConsistent | onboard/uploader.py:145-153 | rewriting chunks with the bytes of the same file keeps a session consistent with it |
| Uploader.Transport.constructor | onboard/uploader.py:81-89 | the world a run starts in: a server, a delivery schedule and the progress file |
| Uploader.Transport.PostInitiate | onboard/uploader.py:43-47 | the initiate request: the server initiates unless the request is lost, and the client sees the reply only when it comes back |
| Uploader.Transport.GetStatus | onboard/uploader.py:50-52 | the status request: the server's answer when delivered, otherwise a connection error |
| Uploader.Transport.PutChunk | onboard/uploader.py:59-64 | the PUT of a chunk: the server stores it unless the request is lost; an answer comes back exactly when delivered to a live session |
| Uploader.Transport.PostComplete | onboard/uploader.py:67-71 | the complete request: the server completes unless the request is lost; an answer comes back exactly when delivered and completion succeeds |
| Uploader.Transport.SaveMeta | onboard/uploader.py:38-40 | the progress file now holds the record |
| Uploader.Transport.RemoveMeta | onboard/uploader.py:93-96 | the progress file is gone; a missing file is no error |
| Uploader.GetUploadedChunks | onboard/uploader.py:50-56 | a 404 reads as no chunks stored, a session's answer as its stored indices, anything else as an exception |
| Uploader.QueryUploaded | onboard/uploader.py:118-123 | the run believes the session's stored indices when the status query succeeds, and nothing stored otherwise, a 404 included |
| Uploader.SendChunk | onboard/uploader.py:151-166 | success exactly when the session is live and one of the next 4 exchanges is delivered; then the attempts are one more than the lost exchanges before the first delivered one, otherwise 4; exactly that many exchanges of the schedule are used; the attempts are identical; the record is rewritten exactly on success; the server is left as it was or with the chunk stored |
| Uploader.FirstDeliveredStep | onboard/uploader.py:151-161 | when the first `k` exchanges were all lost, exchange `k` is the first delivered one if it is delivered, and otherwise the first `k + 1` were all lost |
| Uploader.DeliveredStep | onboard/uploader.py:151-158 | a chunk delivered after `n` attempts moves the schedule on by `n` exchanges, and keeps each chunk's attempts tied to its first delivered PUT exactly when `n` is that count for this chunk |
| Uploader.QuietDrop | onboard/uploader.py:151-166 | on a lossless schedule, every later schedule is lossless too |
| Uploader.ServerAfterAttempts | onboard/uploader.py:151-166 | failed attempts at a chunk above every sent one keep what the loop has stored |
| Uploader.ServerAfterDelivery | onboard/uploader.py:153-158 | a delivered chunk joins the ones the loop has stored |
| Uploader.HoldsAfterPut | onboard/uploader.py:153-154 | a successful PUT keeps every chunk sent before it and stores this one |
| Uploader.ProgressKeepsSession | onboard/uploader.py:131-166 | the chunk loop neither creates nor removes the session |
| Uploader.ReadAndSend | onboard/uploader.py:144-166 | one missing index, its bytes read and sent with retries: success exactly when the session is live and one of the next 4 exchanges is delivered, after one more attempt than the lost ones before it; on success the loop's trace and stored chunks grow by this index, on failure the trace grows by 4 attempts only |
| Uploader.VisitIndex | onboard/uploader.py:132-166 | one turn of the loop: an index the status answer listed is skipped with nothing sent; at the cap the loop stops with nothing sent; otherwise the chunk is sent with retries and the loop goes on exactly when it was delivered; each delivered chunk's attempts stay tied to its first delivered PUT, and giving up means the 4 exchanges were lost or the session is dead |
| Uploader.TransferLoop | onboard/uploader.py:129-166 | the loop runs through the indices in order up to the one it stops at, which is a missing one, or to the chunk count; everything missing below that point is sent; at most `max_chunks` with a cap; the trace is exact; the session holds every sent index with its bytes; every delivered chunk took one attempt more than the losses before its first delivered PUT; it gives up only when the next 4 exchanges are all lost or the session is dead, and not at the cap |
| Uploader.TransferChunks | onboard/uploader.py:129-166 | what the loop sends is a prefix of the missing indices in ascending order, all of them exactly when it ends normally; at most `max_chunks` with a cap, and exactly that many when the cap stops it, and the cap stops it exactly when that many were sent and some are still missing; retries never run out once the cap is reached, since the cap is checked before each PUT; a chunk whose retries ran out is the next missing index; each delivered chunk was sent until its first delivered PUT; retries run out only when the 4 exchanges after the delivered chunks are all lost or the session is dead |
| Uploader.OpenSession | onboard/uploader.py:89-114 | a record with the same digest is resumed untouched; an unreadable progress file raises; otherwise a stale record is removed, a session is initiated, and its record `{upload_id, chunk_size, file_size, filename, file_md5}` is saved before anything else |
| Uploader.InitiateKeepsFit | upload_server.py:38-42 | initiating keeps the chunks a directory of the same id already held, so whether they fit the file too |
| Uploader.FreshSession | upload_server.py:37-43 | after the initiate of a fresh id the session is new and empty, whatever the root held for other ids; chunks that fit the file still fit; a target path that was not a directory still is not |
| Uploader.AllIndicesStored | onboard/uploader.py:116-166 | after a loop that sent every missing index, the session holds every index below the chunk count |
| Uploader.ReadyToComplete | onboard/uploader.py:168-172 | after such a loop over a non-empty file, completion succeeds unless the target path is a directory |
| Uploader.EmptyFileCannotComplete | onboard/uploader.py:116-172 | a zero-byte file has no chunks, so when its session holds no chunk that differs from the file's (`ChunksFit`), completion is refused (the server answers 400) |
| Uploader.CompletedRunStoresFile | onboard/uploader.py:168-179 | when completion succeeds after the loop on a session holding only right chunks, the assembly is the file |
| Uploader.FinishUpload | onboard/uploader.py:168-182 | completion succeeds exactly when the request and reply get through and the server can complete; the root is the completion of the one it met unless the request is lost; the progress file is removed exactly then; the trace grows by the complete request and that removal; success stores the file under `<id>__<name>` and removes the session; on a lossless network it succeeds for a non-empty file |
| Uploader.UploadChunks | onboard/uploader.py:116-182 | the status query, the chunk loop and completion, with the exact trace; `True` only after every missing index was sent and completion succeeded; `False` keeps the record; the loop only refreshes the session (`run.loopRoot`), and the final root is that one, or the completion of it when the loop sent everything and the complete request got through; a cap or exhausted retries never reach completion, and the cap stops the run exactly when it was reached with chunks still missing; the indices skipped are exactly those the status answer lists for the session, or none when that answer is lost or the session is gone; past the status query each chunk goes through at its first delivered PUT, and retries run out only when 4 exchanges in a row are lost or the session is dead |
| Uploader.RunUpload | onboard/uploader.py:74-182 | the whole run: when it raises, which record it uses, the exact trace; the cap and retry bounds, with the cap checked before each PUT; the indices skipped are exactly those the status answer lists for the session as the run opened it, or none when that answer is lost or the session is gone; `True` stores the file and removes the progress file; a fresh or resumed run on a lossless network completes; an empty file never does while its session holds no foreign chunk (`ChunksFit`); the root it leaves: on a crash, as before or after the initiate; otherwise the loop only refreshes the opened session, and completion acts on that root unless its request is lost, so other entries stay and a failed completion keeps the session; past the initiate and status requests each chunk goes through at its first delivered PUT, and the run gives up on retries exactly when 4 exchanges in a row are lost or the session is dead |
| ResumeDemo.CappedRun | backend/demo_upload_resume.py:62-72 | the capped first run on a lossless network returns `False`, saves the record of its session, and leaves that session with only the file's chunks under the run's filename |
| ResumeDemo.DropThenResume | backend/demo_upload_resume.py:62-107 | on a lossless network and a server holding nothing under the new id and no directory where the file goes, a run capped below the chunk count returns `False`, the resumed run returns `True`, and the server file equals the source bytes |

## Behaviour of the code worth knowing

The model follows the code in each of these cases:
- `total_chunks` is 0 for a zero-byte file. The run then reaches `complete` without sending anything, and the server refuses it with 400 as long as the session holds no chunk placed there by another client (`Uploader.EmptyFileCannotComplete`, under `ChunksFit`).
- `complete` does not check that the stored indices cover `0..total-1`. It only refuses a session with no chunks, and it assembles whatever is stored (`Assembly.AssemblySkipsGaps`).
- A progress file that is not valid JSON makes `json.load` raise, and the run ends with that exception (`Crashed` in the model).
- A run that initiates a new session still asks the server for its stored chunks before sending.
- The assembled file is written in place under its final name; the model's step is atomic.
- `status` answers 404 for an unknown session (upload_server.py:51-52) and an empty list for a session with no chunks. `get_uploaded_chunks` (onboard/uploader.py:53-54) reads the 404 as "nothing stored", so the client cannot tell the two apart (`Uploader.GetUploadedChunks`).
- The stored filename is read back in text mode, so a `\r` in it becomes `\n`, and `strip()` removes Unicode spaces as well as ASCII ones (`UploadServer.OriginalName`).

## Left out

- HTTP, `requests` and FastAPI routing. Each endpoint is a method on the server state, and each exchange's fate is the next entry of the transport's delivery schedule (delivered, request lost, reply lost). An empty schedule delivers everything.
- The `UploadFile` streaming in 1 MiB pieces and `shutil.copyfileobj`: a chunk is written as one value.
- `time.sleep` and the backoff delays: only the number of attempts, `len(RETRY_BACKOFF)`, is modelled.
- `md5_of_file`: the digest is a parameter of the run.
- `uuid.uuid4`: the id the server draws is a parameter.
- File names and paths: the file is given by its bytes and base name.
- JSON encoding of the progress file: it is absent, unreadable, or a record. A JSON value of another shape (an empty object, missing keys) is not modelled.
- Uploader.OpenSession: a `chunk_size` missing from the initiate reply (the `.get` default) cannot happen, because the server always sends it.
- Uploader.RunUpload: a hand-edited progress file with `chunk_size` of 0 or below is not modelled (`Record.chunkSize` is positive), so neither is the `ZeroDivisionError` it would cause.
- The `uploaded.add(idx)` at uploader.py:154 adds to the set that line 133 tests, but only the index the loop is at, and the loop's index only grows, so the test never meets an added index; the model keeps the set the status query answered.
- The EOF `break` at uploader.py:147-148 cannot be taken: a file is a value, and every index below the chunk count has a non-empty chunk (`Chunking.ChunkOf`).
- The `save_meta` after each chunk rewrites the same record; the model records the write in the trace.
- Uploader.Transport.PutChunk: states whether an answer comes back, not its JSON body, which `run_upload` ignores.
- Uploader.Transport.PostComplete: states whether an answer comes back, not its JSON body, which `run_upload` only prints.
- A completion whose reply is lost leaves the file assembled and the session removed, but the progress file kept, so a later run resumes a session that no longer exists. `Uploader.FinishUpload` states the three effects, and `Uploader.RunUpload` states that such a later run never completes (its `Completed` case on a resumed record has the session present at the start, and with no session its chunk PUTs all fail); nothing more is proved about that run.
- Exception handling inside `complete` for a failed write (the 500 at upload_server.py:122-123) and the ignored `rmtree` failure (lines 126-129): the file system is modelled as never failing. The cases where the write does fail: an artifact name `<id>__<name>` (line 115) over the usual 255-byte limit on a file name, that is a stored name over about 217 bytes after the 36-character id and `__`; a `/` in a name sent by a caller other than `run_upload` (which sends a base name, onboard/uploader.py:82), which points into a missing directory; and a NUL character. The model stores the artifact under its name in every case. Only the two structural failures are modelled: a path that names a stored file where a directory is needed, and one that names a directory where a file is needed.
- tqdm progress bars, prints and the command-line parser.
- Only the PUT has a timeout (onboard/uploader.py:62). The initiate, status and complete requests (lines 45, 52 and 69) have none, so a reply lost there can block the client forever; the model turns every lost reply into a connection error.
- Client disk errors: the `save_meta` calls at onboard/uploader.py:109 and 155 can raise (a full disk, no permission), and so can reading the file; the client's files are modelled as always readable and writable.
- ChunkNames.ParseInt: accepts ASCII digits only. Python's `int` also accepts other Unicode decimal digits and `_` between digits; no name `upload_chunk` writes holds either (`ChunkNames.ChunkNameRoundTrip`), so only entries placed in a session directory by hand could parse differently.
- UploadServer.ParseListing: requires the listed names to be canonical chunk names, which holds because a session maps each index to one chunk (`UploadServer.ListingIsCanonical`). A file placed in the directory by hand, such as `chunk_05.part` beside `chunk_5.part`, would make `status` report 5 twice and `complete` copy both files; such directories are not modelled.
- UploadServer.TextModeRead: reads as on a POSIX system with UTF-8. On Windows, text-mode writing would also turn `\n` into `\r\n`, which reads back as `\n`, so the name read back is the same.
- The rest of the repository (telemetry, anomaly detection, the MAVLink listener, simulators, benchmarks, database scripts) is not part of this model.
