/**
 * The resume scenario of backend/demo_upload_resume.py, on a network that loses nothing:
 * a server without the upload, a first run with `--max-chunks k` that stops early, and a second run
 * without a cap that resumes the same session. The server then holds the file.
 */
module ResumeDemo {
  import opened Wrappers
  import opened Chunking
  import opened Assembly
  import opened UploadServer
  import opened Uploader

  /** With nothing stored, every chunk of the file is missing. */
  lemma AllMissing(n: nat)
    ensures |Missing(n, {})| == n
  {
    NothingUploaded(n);
  }

  /**
   * The first run of the scenario: capped at `k` chunks of a file with more, it ends `False`.
   * It leaves the progress file naming its session, and a session for `uid` holding only
   * the file's own chunks under the same filename.
   */
  method CappedRun(net: Transport, file: seq<byte>, filename: string, fileMd5: Digest, uid: string, k: nat)
    returns (first: RunResult)
    requires k < TotalChunks(|file|, CHUNK_SIZE)
    requires net.meta == NoMeta && Quiet(net.schedule)
    requires uid !in net.server.root && !IsSession(net.server.root, ArtifactName(uid, filename))
    modifies net, net.server
    ensures first == Incomplete
    ensures net.meta == Saved(Record(uid, CHUNK_SIZE, |file|, filename, fileMd5)) && Quiet(net.schedule)
    ensures IsSession(net.server.root, uid) && net.server.root[uid].session.filename == filename
    ensures ChunksFit(net.server.root, uid, file, CHUNK_SIZE)
    ensures !IsSession(net.server.root, ArtifactName(uid, filename))
  {
    ghost var root0 := net.server.root;
    ghost var run;
    first, run := RunUpload(net, file, filename, fileMd5, uid, Some(k));
    AllMissing(TotalChunks(|file|, CHUNK_SIZE));
    ghost var root1 := net.server.root;
    InitiateCreatesEmptySession(root0, filename, uid);
    RefreshKeepsConsistent(map[], root1[uid].session.chunks, file, CHUNK_SIZE);
    assert ArtifactName(uid, filename) != uid;
  }

  /**
   * A capped run of a file with more than `k` chunks ends `False`, and the run after it
   * ends `True` with the assembled file equal to the original, stored as
   * `<upload_id>__<filename>`. The server's upload directory starts as `root0`: it may hold
   * anything but an entry for the new upload id or a directory where the file is to go.
   */
  method DropThenResume(root0: map<string, Entry>, file: seq<byte>, filename: string, fileMd5: Digest, uid: string, k: nat)
    returns (first: RunResult, second: RunResult, stored: Option<Entry>)
    requires k < TotalChunks(|file|, CHUNK_SIZE)
    requires uid !in root0 && !IsSession(root0, ArtifactName(uid, filename))
    ensures first == Incomplete && second == Completed
    ensures stored == Some(StoredFile(file))
  {
    var server := new Server();
    server.root := root0;
    var net := new Transport(server, [], NoMeta);
    first := CappedRun(net, file, filename, fileMd5, uid, k);
    ghost var run2;
    second, run2 := RunUpload(net, file, filename, fileMd5, uid, None);
    var name := ArtifactName(uid, filename);
    stored := if name in server.root then Some(server.root[name]) else None;
  }
}
