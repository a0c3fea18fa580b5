/**
 The chunk store under concurrency: every store call and every file operation of UploadChunk,
 Complete and the cleaner is a step of its own, and any number of calls interleave.
 */
module ChunkStore {
  import opened Wrappers
  import opened Requests
  import opened ChunkMath
  import opened Tables

  datatype Path = ChunkPath(file: Id, index: nat, digest: Bytes) | WholePath(file: Id) | TempPath(call: nat)

  datatype FileInfo = FileInfo(size: int, sha256: Bytes, chunkSize: int, chunkCount: int, status: FileStatus)

  datatype ChunkKey = ChunkKey(file: Id, index: nat)

  datatype Chunk = Chunk(index: nat, size: int, sha256: Bytes, path: Path)

  // Where one UploadChunk call stands.
  datatype UploadPhase = Accepted | Written | Verified | Renamed | Refused | Stored

  datatype Upload = Upload(file: Id, index: nat, digest: Bytes, size: int, phase: UploadPhase)

  // Where one Complete call stands: the chunk rows it read and the pieces it has copied.
  datatype CompletionPhase = Copying | Published

  datatype Completion = Completion(file: Id, rows: seq<Chunk>, pieces: seq<Bytes>, phase: CompletionPhase)

  datatype State = State(
    disk: map<Path, Bytes>,
    files: map<Id, FileInfo>,
    chunks: map<ChunkKey, Chunk>,
    uploads: map<nat, Upload>,
    completions: map<nat, Completion>,
    picked: set<Id>)

  const START := State(map[], map[], map[], map[], map[], {})

  predicate ValidInfo(info: FileInfo) {
    && info.size >= 0 && info.chunkSize > 0
    && info.chunkCount == ChunkCount(info.size, info.chunkSize)
    && info.status.Uploading?
  }

  function Concat(pieces: seq<Bytes>): Bytes {
    if pieces == [] then [] else Concat(pieces[..|pieces| - 1]) + pieces[|pieces| - 1]
  }

  datatype Event =
    | AddFile(file: Id, info: FileInfo)
    // UploadChunk
    | PrepareUpload(call: nat, file: Id, index: nat, digest: Bytes)
    | WriteTemporary(call: nat, body: Bytes)
    | VerifyTemporary(call: nat)
    | AbandonUpload(call: nat)
    | RenameChunk(call: nat)
    | RecordChunk(call: nat)
    | RemoveRefused(call: nat)
    // Complete
    | PrepareCompletion(call: nat, file: Id, rows: seq<Chunk>)
    | CopyPiece(call: nat)
    | AbandonCompletion(call: nat)
    | PublishFile(call: nat)
    | RecordCompletion(call: nat)
    // the cleaner
    | PickFile(file: Id)
    | DeletePath(path: Path)
    | MarkExpired(file: Id)

  // The size the upload service expects at one position.
  function SizeOf(s: State, file: Id, index: nat): Option<int> {
    if file in s.files
    then ExpectedChunkSize(s.files[file].size, s.files[file].chunkSize, s.files[file].chunkCount, index)
    else None
  }

  predicate Recordable(s: State, u: Upload) {
    u.file in s.files && s.files[u.file].status.Uploading? && ChunkKey(u.file, u.index) !in s.chunks
  }

  // RecordChunk also succeeds when the row is already there with the same digest.
  predicate AlreadyRecorded(s: State, u: Upload) {
    ChunkKey(u.file, u.index) in s.chunks && s.chunks[ChunkKey(u.file, u.index)].sha256 == u.digest
  }

  // The complete rows of a file in index order, as the query returns them.
  ghost predicate RowsOf(s: State, file: Id, rows: seq<Chunk>) {
    && (forall i :: 0 <= i < |rows| ==>
      ChunkKey(file, rows[i].index) in s.chunks && s.chunks[ChunkKey(file, rows[i].index)] == rows[i])
    && (forall k :: k in s.chunks && k.file == file ==> s.chunks[k] in rows)
    && (forall i, j :: 0 <= i < j < |rows| ==> rows[i].index < rows[j].index)
  }

  // A copied piece must have the recorded index, size and digest.
  predicate Copyable(sha: Bytes -> Bytes, s: State, c: Completion) {
    var n := |c.pieces|;
    && n < |c.rows| && c.rows[n].index == n && c.rows[n].path in s.disk
    && |s.disk[c.rows[n].path]| == c.rows[n].size
    && sha(s.disk[c.rows[n].path]) == c.rows[n].sha256
  }

  // ---- UploadChunk, one function per step ----

  function AfterPrepareUpload(s: State, call: nat, file: Id, index: nat, digest: Bytes): State {
    if call in s.uploads || call in s.completions || file !in s.files || !s.files[file].status.Uploading?
       || ChunkKey(file, index) in s.chunks then s
    else
      match SizeOf(s, file, index)
      case None => s
      case Some(size) => s.(uploads := s.uploads[call := Upload(file, index, digest, size, Accepted)])
  }

  function AfterWrite(s: State, call: nat, body: Bytes): State {
    if call !in s.uploads || !s.uploads[call].phase.Accepted? then s
    else
      s.(disk := s.disk[TempPath(call) := body], uploads := s.uploads[call := s.uploads[call].(phase := Written)])
  }

  function AfterVerify(sha: Bytes -> Bytes, s: State, call: nat): State {
    if call !in s.uploads || !s.uploads[call].phase.Written? || TempPath(call) !in s.disk then s
    else
      var u, body := s.uploads[call], s.disk[TempPath(call)];
      if |body| == u.size && sha(body) == u.digest
      then s.(uploads := s.uploads[call := u.(phase := Verified)])
      else s.(disk := s.disk - {TempPath(call)}, uploads := s.uploads - {call})
  }

  // Any failure before the rename: the deferred cleanup removes the temporary file.
  function AfterAbandonUpload(s: State, call: nat): State {
    if call !in s.uploads || s.uploads[call].phase !in {Accepted, Written, Verified} then s
    else s.(disk := s.disk - {TempPath(call)}, uploads := s.uploads - {call})
  }

  function AfterRename(s: State, call: nat): State {
    if call !in s.uploads || !s.uploads[call].phase.Verified? || TempPath(call) !in s.disk then s
    else
      var u := s.uploads[call];
      var published := s.disk[ChunkPath(u.file, u.index, u.digest) := s.disk[TempPath(call)]];
      s.(disk := published - {TempPath(call)}, uploads := s.uploads[call := u.(phase := Renamed)])
  }

  function AfterRecord(s: State, call: nat): State {
    if call !in s.uploads || !s.uploads[call].phase.Renamed? then s
    else
      var u := s.uploads[call];
      if Recordable(s, u) then
        s.(chunks := s.chunks[ChunkKey(u.file, u.index) :=
             Chunk(u.index, u.size, u.digest, ChunkPath(u.file, u.index, u.digest))],
           uploads := s.uploads[call := u.(phase := Stored)])
      else if AlreadyRecorded(s, u) then s.(uploads := s.uploads[call := u.(phase := Stored)])
      else s.(uploads := s.uploads[call := u.(phase := Refused)])
  }

  function AfterRemoveRefused(s: State, call: nat): State {
    if call !in s.uploads || !s.uploads[call].phase.Refused? then s
    else
      var u := s.uploads[call];
      s.(disk := s.disk - {ChunkPath(u.file, u.index, u.digest)}, uploads := s.uploads - {call})
  }

  // ---- Complete, one function per step ----

  ghost function AfterPrepareCompletion(s: State, call: nat, file: Id, rows: seq<Chunk>): State {
    if call in s.uploads || call in s.completions || file !in s.files || !s.files[file].status.Uploading?
       || !RowsOf(s, file, rows) || |rows| != s.files[file].chunkCount then s
    else s.(completions := s.completions[call := Completion(file, rows, [], Copying)])
  }

  ghost function AfterCopy(sha: Bytes -> Bytes, s: State, call: nat): State {
    if call !in s.completions || !s.completions[call].phase.Copying?
       || |s.completions[call].pieces| == |s.completions[call].rows| then s
    else
      var c := s.completions[call];
      if !Copyable(sha, s, c) then s.(completions := s.completions - {call})
      else
        s.(completions := s.completions[call := c.(pieces := c.pieces + [s.disk[c.rows[|c.pieces|].path]])])
  }

  function AfterAbandonCompletion(s: State, call: nat): State {
    if call !in s.completions || !s.completions[call].phase.Copying? then s
    else s.(completions := s.completions - {call})
  }

  function AfterPublish(sha: Bytes -> Bytes, s: State, call: nat): State {
    if call !in s.completions || !s.completions[call].phase.Copying?
       || |s.completions[call].pieces| != |s.completions[call].rows| || s.completions[call].file !in s.files then s
    else
      var c := s.completions[call];
      if sha(Concat(c.pieces)) != s.files[c.file].sha256 then s.(completions := s.completions - {call})
      else
        s.(disk := s.disk[WholePath(c.file) := Concat(c.pieces)],
           completions := s.completions[call := c.(phase := Published)])
  }

  function AfterRecordCompletion(s: State, call: nat): State {
    if call !in s.completions || !s.completions[call].phase.Published? || s.completions[call].file !in s.files then s
    else
      var file := s.completions[call].file;
      var done := s.completions - {call};
      if s.files[file].status.Uploading?
      then s.(files := s.files[file := s.files[file].(status := OnNode)], completions := done)
      else s.(disk := s.disk - {WholePath(file)}, completions := done)
  }

  // ---- the cleaner ----

  // The file a stored path belongs to; a temporary path belongs to no file.
  predicate OwnedByPicked(s: State, path: Path) {
    match path
    case ChunkPath(file, _, _) => file in s.picked
    case WholePath(file) => file in s.picked
    case TempPath(_) => false
  }

  function AfterDelete(s: State, path: Path): State {
    if OwnedByPicked(s, path) then s.(disk := s.disk - {path}) else s
  }

  function AfterMarkExpired(s: State, file: Id): State {
    if file !in s.picked || file !in s.files then s
    else
      s.(files := s.files[file := s.files[file].(status := FileExpired)],
         chunks := map k | k in s.chunks && k.file != file :: s.chunks[k])
  }

  function AfterAddFile(s: State, file: Id, info: FileInfo): State {
    if file in s.files || !ValidInfo(info) then s else s.(files := s.files[file := info])
  }

  function AfterPick(s: State, file: Id): State {
    if file in s.files then s.(picked := s.picked + {file}) else s
  }

  ghost function Step(sha: Bytes -> Bytes, s: State, e: Event): State {
    match e
    case AddFile(file, info) => AfterAddFile(s, file, info)
    case PrepareUpload(call, file, index, digest) => AfterPrepareUpload(s, call, file, index, digest)
    case WriteTemporary(call, body) => AfterWrite(s, call, body)
    case VerifyTemporary(call) => AfterVerify(sha, s, call)
    case AbandonUpload(call) => AfterAbandonUpload(s, call)
    case RenameChunk(call) => AfterRename(s, call)
    case RecordChunk(call) => AfterRecord(s, call)
    case RemoveRefused(call) => AfterRemoveRefused(s, call)
    case PrepareCompletion(call, file, rows) => AfterPrepareCompletion(s, call, file, rows)
    case CopyPiece(call) => AfterCopy(sha, s, call)
    case AbandonCompletion(call) => AfterAbandonCompletion(s, call)
    case PublishFile(call) => AfterPublish(sha, s, call)
    case RecordCompletion(call) => AfterRecordCompletion(s, call)
    case PickFile(file) => AfterPick(s, file)
    case DeletePath(path) => AfterDelete(s, path)
    case MarkExpired(file) => AfterMarkExpired(s, file)
  }

  ghost function Run(sha: Bytes -> Bytes, s: State, events: seq<Event>): State {
    if events == [] then s
    else Step(sha, Run(sha, s, events[..|events| - 1]), events[|events| - 1])
  }

  // ---- files never change but for their status, and never start uploading again ----

  ghost predicate FilesKept(s: State, next: State) {
    forall f :: f in s.files ==>
      && f in next.files
      && next.files[f].(status := s.files[f].status) == s.files[f]
      && (next.files[f].status.Uploading? ==> s.files[f].status.Uploading?)
      && (next.files[f].status != s.files[f].status ==>
        s.files[f].status.Uploading? || (f in next.picked && next.files[f].status.FileExpired?))
  }

  lemma StepKeepsFiles(sha: Bytes -> Bytes, s: State, e: Event)
    ensures FilesKept(s, Step(sha, s, e)) && s.picked <= Step(sha, s, e).picked
    ensures forall f :: f in Step(sha, s, e).files && f !in s.files ==> ValidInfo(Step(sha, s, e).files[f])
  {
    hide Step, FilesKept, ValidInfo;
    if TouchesFiles(e) {
      TouchingStepKeepsFiles(sha, s, e);
    } else {
      OtherStepLeavesFiles(sha, s, e);
      SameFilesAreKept(s, Step(sha, s, e));
    }
  }

  predicate TouchesFiles(e: Event) {
    e.AddFile? || e.RecordCompletion? || e.PickFile? || e.MarkExpired?
  }

  lemma OtherStepLeavesFiles(sha: Bytes -> Bytes, s: State, e: Event)
    requires !TouchesFiles(e)
    ensures Step(sha, s, e).files == s.files && Step(sha, s, e).picked == s.picked
  {
    hide RowsOf, Copyable, Concat;
  }

  lemma TouchingStepKeepsFiles(sha: Bytes -> Bytes, s: State, e: Event)
    requires TouchesFiles(e)
    ensures FilesKept(s, Step(sha, s, e)) && s.picked <= Step(sha, s, e).picked
    ensures forall f :: f in Step(sha, s, e).files && f !in s.files ==> ValidInfo(Step(sha, s, e).files[f])
  {
  }

  lemma SameFilesAreKept(s: State, next: State)
    requires next.files == s.files
    ensures FilesKept(s, next)
  {
  }

  // ---- the invariant of the uploads ----

  // Whatever lies under a chunk path has the size its position demands and the digest in its name.
  ghost predicate ChunkPathsSound(sha: Bytes -> Bytes, s: State) {
    forall p :: p in s.disk && p.ChunkPath? ==>
      p.file in s.files && SizeOf(s, p.file, p.index) == Some(|s.disk[p]|) && sha(s.disk[p]) == p.digest
  }

  ghost predicate RowSound(s: State, k: ChunkKey)
    requires k in s.chunks
  {
    && k.file in s.files
    && s.chunks[k].index == k.index
    && SizeOf(s, k.file, k.index) == Some(s.chunks[k].size)
    && s.chunks[k].path == ChunkPath(k.file, k.index, s.chunks[k].sha256)
    && (k.file !in s.picked ==> s.chunks[k].path in s.disk)
  }

  ghost predicate UploadSound(sha: Bytes -> Bytes, s: State, call: nat)
    requires call in s.uploads
  {
    var u := s.uploads[call];
    && u.file in s.files && SizeOf(s, u.file, u.index) == Some(u.size)
    && (u.phase.Verified? && TempPath(call) in s.disk ==>
      |s.disk[TempPath(call)]| == u.size && sha(s.disk[TempPath(call)]) == u.digest)
    && (u.phase.Renamed? && u.file !in s.picked && Recordable(s, u) ==>
      ChunkPath(u.file, u.index, u.digest) in s.disk)
    && (u.phase.Refused? ==> !Recordable(s, u) && !AlreadyRecorded(s, u))
    && (u.phase.Stored? && u.file !in s.picked ==> AlreadyRecorded(s, u))
  }

  ghost predicate UploadsSound(sha: Bytes -> Bytes, s: State) {
    && ChunkPathsSound(sha, s)
    && (forall k :: k in s.chunks ==> RowSound(s, k))
    && (forall call :: call in s.uploads ==> UploadSound(sha, s, call))
  }

  lemma SizesKept(s: State, next: State)
    requires FilesKept(s, next)
    ensures forall f, i :: f in s.files ==> SizeOf(next, f, i) == SizeOf(s, f, i)
  {
  }

  // A removal by a refused upload spares every recorded path.
  lemma RefusedPathIsUnrecorded(sha: Bytes -> Bytes, s: State, call: nat)
    requires UploadsSound(sha, s)
    requires call in s.uploads && s.uploads[call].phase.Refused?
    ensures var u := s.uploads[call];
      forall k :: k in s.chunks ==> s.chunks[k].path != ChunkPath(u.file, u.index, u.digest)
  {
    assert UploadSound(sha, s, call);
    assert forall k :: k in s.chunks ==> RowSound(s, k);
  }

  // Steps that leave the rows and the published chunks alone.
  ghost predicate Calm(s: State, next: State) {
    && FilesKept(s, next) && s.picked <= next.picked && next.chunks == s.chunks
    && (forall p: Path :: p.ChunkPath? ==> (p in next.disk <==> p in s.disk))
    && (forall p: Path :: p.ChunkPath? && p in s.disk ==> next.disk[p] == s.disk[p])
  }

  lemma CalmKeepsRows(sha: Bytes -> Bytes, s: State, next: State)
    requires UploadsSound(sha, s) && Calm(s, next)
    ensures ChunkPathsSound(sha, next)
    ensures forall k :: k in next.chunks ==> RowSound(next, k)
    ensures forall u :: Recordable(next, u) ==> Recordable(s, u) || u.file !in s.files
    ensures forall u :: AlreadyRecorded(next, u) <==> AlreadyRecorded(s, u)
  {
    hide UploadSound, SizeOf;
    SizesKept(s, next);
    assert forall k :: k in s.chunks ==> RowSound(s, k);
  }

  // The calls other than `own` keep their phase and their temporary file.
  ghost predicate OthersKept(s: State, next: State, own: nat) {
    forall call :: call in next.uploads && call != own ==>
      && call in s.uploads && next.uploads[call] == s.uploads[call]
      && (TempPath(call) in next.disk ==>
        TempPath(call) in s.disk && next.disk[TempPath(call)] == s.disk[TempPath(call)])
  }

  lemma CalmKeepsUploads(sha: Bytes -> Bytes, s: State, next: State, own: nat)
    requires UploadsSound(sha, s) && Calm(s, next) && OthersKept(s, next, own)
    requires own in next.uploads ==> UploadSound(sha, next, own)
    ensures UploadsSound(sha, next)
  {
    CalmKeepsRows(sha, s, next);
    forall call | call in next.uploads && call != own
      ensures UploadSound(sha, next, call)
    {
      CalmKeepsUpload(sha, s, next, call);
    }
  }

  lemma CalmKeepsUpload(sha: Bytes -> Bytes, s: State, next: State, call: nat)
    requires UploadsSound(sha, s) && Calm(s, next)
    requires call in s.uploads && call in next.uploads && next.uploads[call] == s.uploads[call]
    requires TempPath(call) in next.disk ==>
      TempPath(call) in s.disk && next.disk[TempPath(call)] == s.disk[TempPath(call)]
    ensures UploadSound(sha, next, call)
  {
    hide SizeOf, ChunkPathsSound, RowSound;
    SizesKept(s, next);
    CalmKeepsRows(sha, s, next);
    assert UploadSound(sha, s, call);
  }

  predicate IsQuietUpload(e: Event) {
    e.PrepareUpload? || e.WriteTemporary? || e.VerifyTemporary? || e.AbandonUpload?
  }

  predicate IsCompletion(e: Event) {
    e.PrepareCompletion? || e.CopyPiece? || e.AbandonCompletion? || e.PublishFile? || e.RecordCompletion?
  }

  ghost predicate CalmFor(sha: Bytes -> Bytes, s: State, next: State, own: nat) {
    Calm(s, next) && OthersKept(s, next, own) && (own in next.uploads ==> UploadSound(sha, next, own))
  }

  lemma PrepareUploadIsCalm(sha: Bytes -> Bytes, s: State, call: nat, file: Id, index: nat, digest: Bytes)
    requires UploadsSound(sha, s)
    ensures CalmFor(sha, s, AfterPrepareUpload(s, call, file, index, digest), call)
  {
    hide RowSound, ChunkPathsSound;
    assert call in s.uploads ==> UploadSound(sha, s, call);
  }

  lemma WriteIsCalm(sha: Bytes -> Bytes, s: State, call: nat, body: Bytes)
    requires UploadsSound(sha, s)
    ensures CalmFor(sha, s, AfterWrite(s, call, body), call)
  {
    hide RowSound, ChunkPathsSound;
    assert call in s.uploads ==> UploadSound(sha, s, call);
  }

  lemma VerifyIsCalm(sha: Bytes -> Bytes, s: State, call: nat)
    requires UploadsSound(sha, s)
    ensures CalmFor(sha, s, AfterVerify(sha, s, call), call)
  {
    hide RowSound, ChunkPathsSound;
    assert call in s.uploads ==> UploadSound(sha, s, call);
  }

  lemma AbandonUploadIsCalm(sha: Bytes -> Bytes, s: State, call: nat)
    requires UploadsSound(sha, s)
    ensures CalmFor(sha, s, AfterAbandonUpload(s, call), call)
  {
    hide RowSound, ChunkPathsSound;
    assert call in s.uploads ==> UploadSound(sha, s, call);
  }

  lemma QuietUploadKeepsSound(sha: Bytes -> Bytes, s: State, e: Event)
    requires UploadsSound(sha, s) && IsQuietUpload(e)
    ensures UploadsSound(sha, Step(sha, s, e))
  {
    hide UploadsSound, AfterPrepareUpload, AfterWrite, AfterVerify, AfterAbandonUpload, Calm, OthersKept, UploadSound;
    match e {
      case PrepareUpload(call, file, index, digest) => PrepareUploadIsCalm(sha, s, call, file, index, digest);
      case WriteTemporary(call, body) => WriteIsCalm(sha, s, call, body);
      case VerifyTemporary(call) => VerifyIsCalm(sha, s, call);
      case AbandonUpload(call) => AbandonUploadIsCalm(sha, s, call);
    }
    CalmKeepsUploads(sha, s, Step(sha, s, e), e.call);
  }

  // A step of Complete touches neither the uploads nor any chunk or temporary file.
  ghost predicate LeavesUploads(s: State, next: State) {
    && Calm(s, next) && next.uploads == s.uploads
    && (forall p: Path :: p.TempPath? && p in next.disk ==> p in s.disk && next.disk[p] == s.disk[p])
  }

  lemma CompletionLeavesUploads(sha: Bytes -> Bytes, s: State, e: Event)
    requires IsCompletion(e)
    ensures LeavesUploads(s, Step(sha, s, e))
  {
    hide RowsOf, Copyable, Concat, FilesKept;
    CompletionKeepsFiles(sha, s, e);
  }

  lemma CompletionKeepsFiles(sha: Bytes -> Bytes, s: State, e: Event)
    requires IsCompletion(e)
    ensures FilesKept(s, Step(sha, s, e))
  {
    StepKeepsFiles(sha, s, e);
  }

  lemma CompletionKeepsSound(sha: Bytes -> Bytes, s: State, e: Event)
    requires UploadsSound(sha, s) && IsCompletion(e)
    ensures UploadsSound(sha, Step(sha, s, e))
  {
    hide Step, UploadSound, RowSound, ChunkPathsSound, Calm;
    var next := Step(sha, s, e);
    CompletionLeavesUploads(sha, s, e);
    if e.call in next.uploads {
      CalmKeepsUpload(sha, s, next, e.call);
    }
    CalmKeepsUploads(sha, s, next, e.call);
  }

  // Neither the files nor the rows nor the picks change.
  ghost predicate SameTables(s: State, next: State) {
    next.files == s.files && next.chunks == s.chunks && next.picked == s.picked
  }

  lemma SameTablesSameAnswers(s: State, next: State)
    requires SameTables(s, next)
    ensures forall u :: Recordable(next, u) == Recordable(s, u) && AlreadyRecorded(next, u) == AlreadyRecorded(s, u)
    ensures forall f, i :: SizeOf(next, f, i) == SizeOf(s, f, i)
  {
  }

  lemma RenameKeepsSound(sha: Bytes -> Bytes, s: State, call: nat)
    requires UploadsSound(sha, s)
    ensures UploadsSound(sha, AfterRename(s, call))
  {
    hide SizeOf, Recordable, AlreadyRecorded;
    var next := AfterRename(s, call);
    SameTablesSameAnswers(s, next);
    assert call in s.uploads ==> UploadSound(sha, s, call);
    assert forall k :: k in s.chunks ==> RowSound(s, k);
    assert forall c :: c in s.uploads ==> UploadSound(sha, s, c);
  }

  lemma RecordKeepsSound(sha: Bytes -> Bytes, s: State, call: nat)
    requires UploadsSound(sha, s)
    ensures UploadsSound(sha, AfterRecord(s, call))
  {
    hide UploadsSound, AfterRecord;
    if call in s.uploads && s.uploads[call].phase.Renamed? && Recordable(s, s.uploads[call]) {
      NewRowKeepsSound(sha, s, AfterRecord(s, call), call);
    } else {
      NoNewRowKeepsSound(sha, s, call);
    }
  }

  lemma NoNewRowKeepsSound(sha: Bytes -> Bytes, s: State, call: nat)
    requires UploadsSound(sha, s)
    requires !(call in s.uploads && s.uploads[call].phase.Renamed? && Recordable(s, s.uploads[call]))
    ensures UploadsSound(sha, AfterRecord(s, call))
  {
    hide SizeOf;
    assert call in s.uploads ==> UploadSound(sha, s, call);
    SameTablesSameAnswers(s, AfterRecord(s, call));
    assert forall k :: k in s.chunks ==> RowSound(s, k);
    assert forall c :: c in s.uploads ==> UploadSound(sha, s, c);
  }

  lemma NewRowKeepsSound(sha: Bytes -> Bytes, s: State, next: State, call: nat)
    requires UploadsSound(sha, s) && next == AfterRecord(s, call)
    requires call in s.uploads && s.uploads[call].phase.Renamed? && Recordable(s, s.uploads[call])
    ensures UploadsSound(sha, next)
  {
    hide SizeOf, ChunkPathsSound;
    var u := s.uploads[call];
    assert FilesKept(s, next);
    SizesKept(s, next);
    assert UploadSound(sha, s, call);
    assert forall k :: k in next.chunks ==> RowSound(next, k) by {
      assert forall k :: k in s.chunks ==> RowSound(s, k);
    }
    NewRowAnswers(s, next, call);
    assert forall c :: c in s.uploads ==> UploadSound(sha, s, c);
    assert ChunkPathsSound(sha, next) by { SameFilesSamePaths(sha, s, next); }
  }

  lemma SameFilesSamePaths(sha: Bytes -> Bytes, s: State, next: State)
    requires ChunkPathsSound(sha, s) && next.files == s.files && next.disk == s.disk
    ensures ChunkPathsSound(sha, next)
  {
  }

  // Recording a row makes nothing recordable, and settles only its own position.
  lemma NewRowAnswers(s: State, next: State, call: nat)
    requires next == AfterRecord(s, call)
    requires call in s.uploads && s.uploads[call].phase.Renamed? && Recordable(s, s.uploads[call])
    ensures forall u :: Recordable(next, u) ==> Recordable(s, u)
    ensures forall u :: AlreadyRecorded(next, u) ==> AlreadyRecorded(s, u) || Recordable(s, u)
  {
  }

  lemma RemoveRefusedKeepsSound(sha: Bytes -> Bytes, s: State, call: nat)
    requires UploadsSound(sha, s)
    ensures UploadsSound(sha, AfterRemoveRefused(s, call))
  {
    hide SizeOf;
    var next := AfterRemoveRefused(s, call);
    if call in s.uploads && s.uploads[call].phase.Refused? {
      RefusedPathIsUnrecorded(sha, s, call);
      assert UploadSound(sha, s, call);
      SameTablesSameAnswers(s, next);
      hide AlreadyRecorded;
      assert forall k :: k in s.chunks ==> RowSound(s, k);
      assert forall c :: c in s.uploads ==> UploadSound(sha, s, c);
    }
  }

  lemma CleanerKeepsSound(sha: Bytes -> Bytes, s: State, e: Event)
    requires UploadsSound(sha, s) && (e.AddFile? || e.PickFile? || e.DeletePath? || e.MarkExpired?)
    ensures UploadsSound(sha, Step(sha, s, e))
  {
    hide AfterAddFile, AfterPick, AfterDelete, AfterMarkExpired;
    match e
    case AddFile(file, info) => AddKeepsSound(sha, s, file, info);
    case PickFile(file) => PickKeepsSound(sha, s, file);
    case DeletePath(path) => DeleteKeepsSound(sha, s, path);
    case MarkExpired(file) => MarkKeepsSound(sha, s, file);
  }

  lemma AddKeepsSound(sha: Bytes -> Bytes, s: State, file: Id, info: FileInfo)
    requires UploadsSound(sha, s)
    ensures UploadsSound(sha, AfterAddFile(s, file, info))
  {
    hide SizeOf;
    var next := AfterAddFile(s, file, info);
    assert FilesKept(s, next);
    SizesKept(s, next);
    assert forall k :: k in s.chunks ==> RowSound(s, k);
    assert forall c :: c in s.uploads ==> UploadSound(sha, s, c);
  }

  lemma PickKeepsSound(sha: Bytes -> Bytes, s: State, file: Id)
    requires UploadsSound(sha, s)
    ensures UploadsSound(sha, AfterPick(s, file))
  {
    hide SizeOf;
    var next := AfterPick(s, file);
    assert FilesKept(s, next);
    SizesKept(s, next);
    assert forall k :: k in s.chunks ==> RowSound(s, k);
    assert forall c :: c in s.uploads ==> UploadSound(sha, s, c);
  }

  lemma DeleteKeepsSound(sha: Bytes -> Bytes, s: State, path: Path)
    requires UploadsSound(sha, s)
    ensures UploadsSound(sha, AfterDelete(s, path))
  {
    hide SizeOf, Recordable, AlreadyRecorded;
    var next := AfterDelete(s, path);
    SameTablesSameAnswers(s, next);
    assert forall k :: k in s.chunks ==> RowSound(s, k);
    assert forall c :: c in s.uploads ==> UploadSound(sha, s, c);
  }

  lemma MarkKeepsSound(sha: Bytes -> Bytes, s: State, file: Id)
    requires UploadsSound(sha, s)
    ensures UploadsSound(sha, AfterMarkExpired(s, file))
  {
    var next := AfterMarkExpired(s, file);
    MarkKeepsRows(sha, s, file);
    hide SizeOf, RowSound, UploadSound, ChunkPathsSound, AfterMarkExpired;
    forall call | call in next.uploads
      ensures UploadSound(sha, next, call)
    {
      MarkKeepsUpload(sha, s, file, call);
    }
  }

  lemma MarkKeepsRows(sha: Bytes -> Bytes, s: State, file: Id)
    requires UploadsSound(sha, s)
    ensures var next := AfterMarkExpired(s, file);
      && next.disk == s.disk && next.uploads == s.uploads && next.picked == s.picked
      && ChunkPathsSound(sha, next) && forall k :: k in next.chunks ==> RowSound(next, k)
  {
    hide SizeOf, UploadSound;
    var next := AfterMarkExpired(s, file);
    assert FilesKept(s, next);
    SizesKept(s, next);
    assert forall k :: k in s.chunks ==> RowSound(s, k);
  }

  lemma MarkKeepsUpload(sha: Bytes -> Bytes, s: State, file: Id, call: nat)
    requires UploadsSound(sha, s) && call in s.uploads
    ensures call in AfterMarkExpired(s, file).uploads && UploadSound(sha, AfterMarkExpired(s, file), call)
  {
    hide SizeOf, RowSound, ChunkPathsSound;
    var next := AfterMarkExpired(s, file);
    assert FilesKept(s, next);
    SizesKept(s, next);
    assert UploadSound(sha, s, call);
  }

  lemma StepKeepsSound(sha: Bytes -> Bytes, s: State, e: Event)
    requires UploadsSound(sha, s)
    ensures UploadsSound(sha, Step(sha, s, e))
  {
    hide UploadsSound, AfterRename, AfterRecord, AfterRemoveRefused;
    if IsQuietUpload(e) {
      QuietUploadKeepsSound(sha, s, e);
    } else if IsCompletion(e) {
      CompletionKeepsSound(sha, s, e);
    } else {
      match e
      case RenameChunk(call) => RenameKeepsSound(sha, s, call);
      case RecordChunk(call) => RecordKeepsSound(sha, s, call);
      case RemoveRefused(call) => RemoveRefusedKeepsSound(sha, s, call);
      case _ => CleanerKeepsSound(sha, s, e);
    }
  }

  lemma {:induction false} RunKeepsSound(sha: Bytes -> Bytes, s: State, events: seq<Event>)
    requires UploadsSound(sha, s)
    ensures UploadsSound(sha, Run(sha, s, events))
  {
    hide UploadsSound, Step;
    if events != [] {
      var init := events[..|events| - 1];
      RunKeepsSound(sha, s, init);
      StepKeepsSound(sha, Run(sha, s, init), events[|events| - 1]);
    }
  }

  // In every interleaving, the path of every recorded chunk of a file that cleanup has not picked
  // exists and holds bytes of the recorded size and digest, and the size is the one its position demands.
  lemma RecordedChunksAreStored(sha: Bytes -> Bytes, events: seq<Event>)
    ensures var s := Run(sha, START, events);
      forall k :: k in s.chunks && k.file !in s.picked ==>
        var row := s.chunks[k];
        && row.path in s.disk && |s.disk[row.path]| == row.size && sha(s.disk[row.path]) == row.sha256
        && SizeOf(s, k.file, k.index) == Some(row.size)
  {
    RunKeepsSound(sha, START, events);
    var s := Run(sha, START, events);
    assert forall k :: k in s.chunks ==> RowSound(s, k);
  }

  // In every interleaving, an upload that answered success has its digest on record, and the removal
  // that follows a refusal leaves every recorded path as it is.
  lemma UploadOutcomes(sha: Bytes -> Bytes, events: seq<Event>, call: nat)
    requires call in Run(sha, START, events).uploads
    ensures var s := Run(sha, START, events);
      var u := s.uploads[call];
      && (u.phase.Stored? && u.file !in s.picked ==> AlreadyRecorded(s, u))
      && (u.phase.Refused? ==> forall k :: k in s.chunks ==>
        (s.chunks[k].path in s.disk <==> s.chunks[k].path in AfterRemoveRefused(s, call).disk))
  {
    RunKeepsSound(sha, START, events);
    var s := Run(sha, START, events);
    assert UploadSound(sha, s, call);
    if s.uploads[call].phase.Refused? {
      RefusedPathIsUnrecorded(sha, s, call);
    }
  }
}
