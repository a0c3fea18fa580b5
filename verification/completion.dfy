/**
 Assembly under concurrency. Whatever lies under a file's path is its recorded pieces in order; when
 it is still there once all completions have finished is decided by how often it was published.
 */
module Completions {
  import opened Requests
  import opened ChunkMath
  import opened Tables
  import opened ChunkStore

  // The first pieces of a file, each with the size and digest on record.
  ghost predicate PiecesFit(sha: Bytes -> Bytes, s: State, file: Id, pieces: seq<Bytes>) {
    forall j :: 0 <= j < |pieces| ==>
      && ChunkKey(file, j) in s.chunks
      && |pieces[j]| == s.chunks[ChunkKey(file, j)].size
      && sha(pieces[j]) == s.chunks[ChunkKey(file, j)].sha256
  }

  predicate SoundInfo(info: FileInfo) {
    info.size >= 0 && info.chunkSize > 0 && info.chunkCount == ChunkCount(info.size, info.chunkSize)
  }

  ghost predicate RowsOnRecord(s: State, file: Id, rows: seq<Chunk>) {
    forall i :: 0 <= i < |rows| ==>
      ChunkKey(file, rows[i].index) in s.chunks && s.chunks[ChunkKey(file, rows[i].index)] == rows[i]
  }

  ghost predicate AllIn(pieces: seq<Bytes>, written: set<Bytes>) {
    forall j :: 0 <= j < |pieces| ==> pieces[j] in written
  }

  // One Complete call: its rows are on record, its pieces fit them, and once it has published they
  // are all there with the declared digest.
  ghost predicate CallSound(sha: Bytes -> Bytes, s: State, written: set<Bytes>, call: nat)
    requires call in s.completions
  {
    var c := s.completions[call];
    && c.file in s.files && |c.rows| == s.files[c.file].chunkCount && |c.pieces| <= |c.rows|
    && AllIn(c.pieces, written) && (forall i :: 0 <= i < |c.rows| ==> c.rows[i].path.ChunkPath?)
    && (c.file !in s.picked ==> RowsOnRecord(s, c.file, c.rows) && PiecesFit(sha, s, c.file, c.pieces))
    && (c.phase.Published? ==> |c.pieces| == |c.rows| && sha(Concat(c.pieces)) == s.files[c.file].sha256)
  }

  // The pieces a whole file consists of.
  ghost predicate Makes(sha: Bytes -> Bytes, s: State, file: Id, pieces: seq<Bytes>)
    requires file in s.files
  {
    && |pieces| == s.files[file].chunkCount
    && PiecesFit(sha, s, file, pieces)
    && WholePath(file) in s.disk && s.disk[WholePath(file)] == Concat(pieces)
    && sha(Concat(pieces)) == s.files[file].sha256
  }

  // What it means for a file to be whole on disk.
  ghost predicate Whole(sha: Bytes -> Bytes, s: State, file: Id)
    requires file in s.files
  {
    exists pieces :: Makes(sha, s, file, pieces)
  }

  ghost predicate WholeFrom(sha: Bytes -> Bytes, s: State, written: set<Bytes>, file: Id)
    requires file in s.files
  {
    exists pieces :: Makes(sha, s, file, pieces) && AllIn(pieces, written)
  }

  // Chunks and temporary files hold bodies that some upload wrote.
  ghost predicate ContentsWritten(s: State, written: set<Bytes>) {
    forall p :: p in s.disk && !p.WholePath? ==> s.disk[p] in written
  }

  ghost predicate BodiesSound(sha: Bytes -> Bytes, s: State, written: set<Bytes>) {
    forall f :: WholePath(f) in s.disk ==> f in s.files && (f !in s.picked ==> WholeFrom(sha, s, written, f))
  }

  ghost predicate AssemblySound(sha: Bytes -> Bytes, s: State, written: set<Bytes>) {
    && (forall f :: f in s.files ==> SoundInfo(s.files[f]))
    && ContentsWritten(s, written)
    && (forall call :: call in s.completions ==> CallSound(sha, s, written, call))
    && BodiesSound(sha, s, written)
  }

  // ---- steps that are not part of a completion ----

  // For files cleanup has not picked, nothing a completion relies on changes.
  ghost predicate Unrelated(s: State, next: State) {
    && next.completions == s.completions && s.picked <= next.picked
    && (forall f :: f in s.files ==>
      f in next.files && next.files[f].(status := s.files[f].status) == s.files[f])
    && (forall f :: f in s.files && f !in next.picked ==> next.files[f] == s.files[f])
    && (forall f :: f in next.files && f !in s.files ==> ValidInfo(next.files[f]))
    && (forall k :: k in s.chunks && k.file !in next.picked ==> k in next.chunks && next.chunks[k] == s.chunks[k])
    && (forall f :: WholePath(f) in s.disk && f !in next.picked ==>
      WholePath(f) in next.disk && next.disk[WholePath(f)] == s.disk[WholePath(f)])
    && (forall f :: WholePath(f) in next.disk ==> WholePath(f) in s.disk)
  }

  function NewlyWritten(e: Event): set<Bytes> {
    if e.WriteTemporary? then {e.body} else {}
  }

  lemma StepKeepsContents(sha: Bytes -> Bytes, s: State, e: Event, written: set<Bytes>)
    requires ContentsWritten(s, written)
    ensures ContentsWritten(Step(sha, s, e), written + NewlyWritten(e))
  {
    hide RowsOf, Copyable, SizeOf, ValidInfo, Recordable, AlreadyRecorded;
  }

  lemma UnrelatedKeepsPieces(sha: Bytes -> Bytes, s: State, next: State, file: Id, pieces: seq<Bytes>)
    requires Unrelated(s, next) && file !in next.picked && PiecesFit(sha, s, file, pieces)
    ensures PiecesFit(sha, next, file, pieces)
  {
  }

  lemma UnrelatedKeepsWhole(
      sha: Bytes -> Bytes, s: State, next: State, written: set<Bytes>, more: set<Bytes>, file: Id)
    requires Unrelated(s, next) && file in s.files && file !in next.picked && WholeFrom(sha, s, written, file)
    requires written <= more
    ensures file in next.files && WholeFrom(sha, next, more, file)
  {
    var pieces :| Makes(sha, s, file, pieces) && AllIn(pieces, written);
    UnrelatedKeepsPieces(sha, s, next, file, pieces);
    assert Makes(sha, next, file, pieces) && AllIn(pieces, more);
  }

  lemma UnrelatedKeepsCall(
      sha: Bytes -> Bytes, s: State, next: State, written: set<Bytes>, more: set<Bytes>, call: nat)
    requires Unrelated(s, next) && call in s.completions && CallSound(sha, s, written, call) && written <= more
    ensures CallSound(sha, next, more, call)
  {
    hide PiecesFit;
    var c := s.completions[call];
    if c.file !in next.picked {
      UnrelatedKeepsPieces(sha, s, next, c.file, c.pieces);
    }
  }

  lemma UnrelatedKeepsAssembly(
      sha: Bytes -> Bytes, s: State, next: State, written: set<Bytes>, more: set<Bytes>)
    requires AssemblySound(sha, s, written) && Unrelated(s, next) && written <= more && ContentsWritten(next, more)
    ensures AssemblySound(sha, next, more)
  {
    hide CallSound, WholeFrom, ValidInfo, ContentsWritten;
    forall call | call in next.completions
      ensures CallSound(sha, next, more, call)
    {
      UnrelatedKeepsCall(sha, s, next, written, more, call);
    }
    forall f | WholePath(f) in next.disk
      ensures f in next.files && (f !in next.picked ==> WholeFrom(sha, next, more, f))
    {
      if f !in next.picked {
        UnrelatedKeepsWhole(sha, s, next, written, more, f);
      }
    }
    forall f | f in next.files
      ensures SoundInfo(next.files[f])
    {
      if f !in s.files {
        NewFileIsSound(s, next, f);
      }
    }
  }

  lemma NewFileIsSound(s: State, next: State, f: Id)
    requires Unrelated(s, next) && f in next.files && f !in s.files
    ensures SoundInfo(next.files[f]) && next.files[f].status.Uploading?
  {
  }

  lemma QuietUploadIsUnrelated(sha: Bytes -> Bytes, s: State, e: Event)
    requires IsQuietUpload(e)
    ensures Unrelated(s, Step(sha, s, e))
  {
    hide ValidInfo, SizeOf;
  }

  lemma LoudUploadIsUnrelated(sha: Bytes -> Bytes, s: State, e: Event)
    requires e.RenameChunk? || e.RecordChunk? || e.RemoveRefused?
    ensures Unrelated(s, Step(sha, s, e))
  {
    hide AlreadyRecorded, ValidInfo, SizeOf;
  }

  lemma AdmissionIsUnrelated(s: State, file: Id, info: FileInfo)
    ensures Unrelated(s, AfterAddFile(s, file, info)) && Unrelated(s, AfterPick(s, file))
  {
    hide ValidInfo;
  }

  lemma DeletionIsUnrelated(s: State, path: Path)
    ensures Unrelated(s, AfterDelete(s, path))
  {
    hide ValidInfo;
  }

  lemma MarkIsUnrelated(s: State, file: Id)
    ensures Unrelated(s, AfterMarkExpired(s, file))
  {
    hide ValidInfo;
  }

  lemma OtherStepsAreUnrelated(sha: Bytes -> Bytes, s: State, e: Event)
    requires !IsCompletion(e)
    ensures Unrelated(s, Step(sha, s, e))
  {
    hide Unrelated, AfterAddFile, AfterPick, AfterDelete, AfterMarkExpired;
    if IsQuietUpload(e) {
      QuietUploadIsUnrelated(sha, s, e);
    } else if e.RenameChunk? || e.RecordChunk? || e.RemoveRefused? {
      LoudUploadIsUnrelated(sha, s, e);
    } else {
      match e
      case AddFile(file, info) => AdmissionIsUnrelated(s, file, info);
      case PickFile(file) => AdmissionIsUnrelated(s, file, FileInfo(0, [], 0, 0, Uploading));
      case DeletePath(path) => DeletionIsUnrelated(s, path);
      case MarkExpired(file) => MarkIsUnrelated(s, file);
    }
  }

  // ---- the steps of Complete ----

  // A step of one call on one file: everything of the other files stays, and so do the other calls.
  ghost predicate OwnStep(s: State, next: State, own: nat, file: Id) {
    && next.chunks == s.chunks && next.picked == s.picked && next.files.Keys == s.files.Keys
    && (forall f :: f in s.files ==> next.files[f].(status := s.files[f].status) == s.files[f])
    && (forall f :: f in s.files && f != file ==> next.files[f] == s.files[f])
    && (own in s.completions ==> s.completions[own].file == file)
    && (own in next.completions ==> next.completions[own].file == file)
    && (forall call :: call != own ==> (call in next.completions <==> call in s.completions))
    && (forall call :: call in s.completions && call != own ==> next.completions[call] == s.completions[call])
    && (forall p: Path :: p.WholePath? && p.file != file ==> (p in next.disk <==> p in s.disk))
    && (forall p: Path :: p.WholePath? && p.file != file && p in s.disk ==> next.disk[p] == s.disk[p])
  }

  lemma SameRowsFit(sha: Bytes -> Bytes, s: State, next: State)
    requires next.chunks == s.chunks
    ensures forall f, pieces :: PiecesFit(sha, next, f, pieces) <==> PiecesFit(sha, s, f, pieces)
    ensures forall f, rows :: RowsOnRecord(next, f, rows) <==> RowsOnRecord(s, f, rows)
  {
  }

  lemma OwnStepKeepsWhole(sha: Bytes -> Bytes, s: State, next: State, written: set<Bytes>, own: nat, file: Id, f: Id)
    requires OwnStep(s, next, own, file) && f in s.files && WholeFrom(sha, s, written, f)
    requires WholePath(f) in next.disk && next.disk[WholePath(f)] == s.disk[WholePath(f)]
    ensures f in next.files && WholeFrom(sha, next, written, f)
  {
    SameRowsFit(sha, s, next);
    hide PiecesFit;
    var pieces :| Makes(sha, s, f, pieces) && AllIn(pieces, written);
    assert Makes(sha, next, f, pieces);
  }

  lemma OwnStepKeepsAssembly(sha: Bytes -> Bytes, s: State, next: State, written: set<Bytes>, own: nat, file: Id)
    requires AssemblySound(sha, s, written) && OwnStep(s, next, own, file) && ContentsWritten(next, written)
    requires own in next.completions ==> CallSound(sha, next, written, own)
    requires WholePath(file) in next.disk ==>
      file in s.files && (file !in s.picked ==> WholeFrom(sha, next, written, file))
    ensures AssemblySound(sha, next, written)
  {
    hide PiecesFit, RowsOnRecord, WholeFrom, ContentsWritten, AllIn;
    SameRowsFit(sha, s, next);
    forall call | call in next.completions && call != own
      ensures CallSound(sha, next, written, call)
    {
      assert CallSound(sha, s, written, call);
    }
    forall f | WholePath(f) in next.disk
      ensures f in next.files && (f !in next.picked ==> WholeFrom(sha, next, written, f))
    {
      if f != file && f !in next.picked {
        OwnStepKeepsWhole(sha, s, next, written, own, file, f);
      }
    }
  }

  lemma PrepareKeepsAssembly(
      sha: Bytes -> Bytes, s: State, written: set<Bytes>, call: nat, file: Id, rows: seq<Chunk>)
    requires UploadsSound(sha, s) && AssemblySound(sha, s, written)
    ensures AssemblySound(sha, AfterPrepareCompletion(s, call, file, rows), written)
  {
    hide AssemblySound, WholeFrom, UploadSound, ChunkPathsSound;
    var next := AfterPrepareCompletion(s, call, file, rows);
    if next != s {
      assert forall i :: 0 <= i < |rows| ==> RowSound(s, ChunkKey(file, rows[i].index));
      BodyStays(sha, s, next, written, call, file);
      OwnStepKeepsAssembly(sha, s, next, written, call, file);
    }
  }

  // A step that leaves the disk alone leaves a file as whole as it was.
  lemma BodyStays(sha: Bytes -> Bytes, s: State, next: State, written: set<Bytes>, own: nat, file: Id)
    requires AssemblySound(sha, s, written) && OwnStep(s, next, own, file) && next.disk == s.disk
    ensures ContentsWritten(next, written)
    ensures WholePath(file) in next.disk ==>
      file in s.files && (file !in s.picked ==> WholeFrom(sha, next, written, file))
  {
    hide WholeFrom;
    if WholePath(file) in s.disk && file !in s.picked {
      OwnStepKeepsWhole(sha, s, next, written, own, file, file);
    }
  }

  lemma CopiedPieceFits(sha: Bytes -> Bytes, s: State, written: set<Bytes>, call: nat)
    requires AssemblySound(sha, s, written)
    requires call in s.completions && s.completions[call].phase.Copying? && Copyable(sha, s, s.completions[call])
    ensures var next := AfterCopy(sha, s, call);
      call in next.completions && CallSound(sha, next, written, call)
  {
    assert CallSound(sha, s, written, call);
    var c := s.completions[call];
    var pieces := c.pieces + [s.disk[c.rows[|c.pieces|].path]];
    if c.file !in s.picked {
      assert PiecesFit(sha, s, c.file, pieces) by {
        assert ChunkKey(c.file, c.rows[|c.pieces|].index) in s.chunks;
      }
    }
  }

  lemma CopyKeepsAssembly(sha: Bytes -> Bytes, s: State, written: set<Bytes>, call: nat)
    requires AssemblySound(sha, s, written)
    ensures AssemblySound(sha, AfterCopy(sha, s, call), written)
  {
    hide AssemblySound, CallSound, WholeFrom, Concat;
    var next := AfterCopy(sha, s, call);
    if next != s {
      var c := s.completions[call];
      if Copyable(sha, s, c) {
        CopiedPieceFits(sha, s, written, call);
      }
      BodyStays(sha, s, next, written, call, c.file);
      OwnStepKeepsAssembly(sha, s, next, written, call, c.file);
    }
  }

  lemma AbandonKeepsAssembly(sha: Bytes -> Bytes, s: State, written: set<Bytes>, call: nat)
    requires AssemblySound(sha, s, written)
    ensures AssemblySound(sha, AfterAbandonCompletion(s, call), written)
  {
    hide AssemblySound, CallSound, WholeFrom;
    var next := AfterAbandonCompletion(s, call);
    if next != s {
      BodyStays(sha, s, next, written, call, s.completions[call].file);
      OwnStepKeepsAssembly(sha, s, next, written, call, s.completions[call].file);
    }
  }

  // Publishing puts the file's pieces under its path, whole.
  lemma PublishedIsWhole(sha: Bytes -> Bytes, s: State, written: set<Bytes>, call: nat)
    requires AssemblySound(sha, s, written) && call in s.completions
    requires var next := AfterPublish(sha, s, call); next != s && call in next.completions
    ensures var next, file := AfterPublish(sha, s, call), s.completions[call].file;
      && CallSound(sha, next, written, call) && file in s.files && WholePath(file) in next.disk
      && (file !in s.picked ==> WholeFrom(sha, next, written, file))
  {
    hide PiecesFit, RowsOnRecord, Concat, AllIn;
    var next, c := AfterPublish(sha, s, call), s.completions[call];
    SameRowsFit(sha, s, next);
    assert CallSound(sha, s, written, call);
    if c.file !in s.picked {
      assert Makes(sha, next, c.file, c.pieces);
    }
  }

  lemma PublishKeepsAssembly(sha: Bytes -> Bytes, s: State, written: set<Bytes>, call: nat)
    requires AssemblySound(sha, s, written)
    ensures AssemblySound(sha, AfterPublish(sha, s, call), written)
  {
    hide AssemblySound, CallSound, WholeFrom, Concat;
    var next := AfterPublish(sha, s, call);
    if next != s {
      var file := s.completions[call].file;
      OtherContents(sha, s, next, written);
      if call in next.completions {
        PublishedIsWhole(sha, s, written, call);
      } else {
        BodyStays(sha, s, next, written, call, file);
      }
      OwnStepKeepsAssembly(sha, s, next, written, call, file);
    }
  }

  lemma OtherContents(sha: Bytes -> Bytes, s: State, next: State, written: set<Bytes>)
    requires AssemblySound(sha, s, written)
    requires forall p :: p in next.disk && !p.WholePath? ==> p in s.disk && next.disk[p] == s.disk[p]
    ensures ContentsWritten(next, written)
  {
  }

  // Recording marks the file available or, for a loser, removes the body.
  lemma RecordKeepsAssembly(sha: Bytes -> Bytes, s: State, written: set<Bytes>, call: nat)
    requires AssemblySound(sha, s, written)
    ensures AssemblySound(sha, AfterRecordCompletion(s, call), written)
  {
    hide AssemblySound, CallSound, WholeFrom, ContentsWritten;
    var next := AfterRecordCompletion(s, call);
    if next != s {
      var file := s.completions[call].file;
      OtherContents(sha, s, next, written);
      RecordIsOwnStep(s, call);
      hide OwnStep;
      if s.files[file].status.Uploading? {
        BodyStays(sha, s, next, written, call, file);
      }
      OwnStepKeepsAssembly(sha, s, next, written, call, file);
    }
  }

  lemma RecordIsOwnStep(s: State, call: nat)
    requires AfterRecordCompletion(s, call) != s
    ensures OwnStep(s, AfterRecordCompletion(s, call), call, s.completions[call].file)
  {
  }

  lemma StepKeepsAssembly(sha: Bytes -> Bytes, s: State, e: Event, written: set<Bytes>)
    requires UploadsSound(sha, s) && AssemblySound(sha, s, written)
    ensures AssemblySound(sha, Step(sha, s, e), written + NewlyWritten(e))
  {
    hide AssemblySound, UploadsSound, Unrelated, ContentsWritten, AfterPrepareCompletion, AfterCopy,
         AfterAbandonCompletion, AfterPublish, AfterRecordCompletion;
    assert !e.WriteTemporary? ==> written + NewlyWritten(e) == written;
    match e
    case PrepareCompletion(call, file, rows) => PrepareKeepsAssembly(sha, s, written, call, file, rows);
    case CopyPiece(call) => CopyKeepsAssembly(sha, s, written, call);
    case AbandonCompletion(call) => AbandonKeepsAssembly(sha, s, written, call);
    case PublishFile(call) => PublishKeepsAssembly(sha, s, written, call);
    case RecordCompletion(call) => RecordKeepsAssembly(sha, s, written, call);
    case _ =>
      OtherStepsAreUnrelated(sha, s, e);
      SoundContents(sha, s, written);
      StepKeepsContents(sha, s, e, written);
      UnrelatedKeepsAssembly(sha, s, Step(sha, s, e), written, written + NewlyWritten(e));
  }

  lemma SoundContents(sha: Bytes -> Bytes, s: State, written: set<Bytes>)
    requires AssemblySound(sha, s, written)
    ensures ContentsWritten(s, written)
  {
  }

  // Every body some upload wrote in the run.
  function Written(events: seq<Event>): set<Bytes> {
    if events == [] then {} else Written(events[..|events| - 1]) + NewlyWritten(events[|events| - 1])
  }

  lemma StartIsSound(sha: Bytes -> Bytes)
    ensures UploadsSound(sha, START) && AssemblySound(sha, START, {})
  {
  }

  lemma {:induction false} RunKeepsAssembly(sha: Bytes -> Bytes, events: seq<Event>)
    ensures UploadsSound(sha, Run(sha, START, events))
    ensures AssemblySound(sha, Run(sha, START, events), Written(events))
  {
    StartIsSound(sha);
    RunKeepsSound(sha, START, events);
    hide AssemblySound, UploadsSound, Step;
    if events != [] {
      var init := events[..|events| - 1];
      RunKeepsAssembly(sha, init);
      StepKeepsAssembly(sha, Run(sha, START, init), events[|events| - 1], Written(init));
    }
  }

  // ---- how often a file was published and recorded ----

  // The calls that have published the file and not yet recorded it.
  function Pending(s: State, file: Id): set<nat> {
    set call | call in s.completions && s.completions[call].file == file && s.completions[call].phase.Published?
  }

  predicate Publishes(sha: Bytes -> Bytes, s: State, e: Event, file: Id) {
    && e.PublishFile? && e.call in s.completions && s.completions[e.call].file == file
    && s.completions[e.call].phase.Copying? && e.call in AfterPublish(sha, s, e.call).completions
    && AfterPublish(sha, s, e.call).completions[e.call].phase.Published?
  }

  predicate Records(s: State, e: Event, file: Id) {
    && e.RecordCompletion? && e.call in s.completions && s.completions[e.call].file == file
    && s.completions[e.call].phase.Published? && file in s.files
  }

  // How many Complete calls renamed an assembled body into place, and how many then tried to record it.
  ghost function Publications(sha: Bytes -> Bytes, events: seq<Event>, file: Id): nat {
    if events == [] then 0
    else
      var init := events[..|events| - 1];
      var last := if Publishes(sha, Run(sha, START, init), events[|events| - 1], file) then 1 else 0;
      Publications(sha, init, file) + last
  }

  ghost function Recordings(sha: Bytes -> Bytes, events: seq<Event>, file: Id): nat {
    if events == [] then 0
    else
      var init := events[..|events| - 1];
      var last := if Records(Run(sha, START, init), events[|events| - 1], file) then 1 else 0;
      Recordings(sha, init, file) + last
  }

  // The first to record keeps the body; each later one removes it, and it only comes back with a call
  // that is going to remove it again.
  ghost predicate Tallied(s: State, file: Id, published: nat, recorded: nat) {
    && (file !in s.files ==> published == 0 && recorded == 0)
    && (file in s.files && file !in s.picked ==>
      && published == recorded + |Pending(s, file)|
      && !s.files[file].status.FileExpired?
      && (s.files[file].status.Uploading? ==> recorded == 0 && (published > 0 ==> WholePath(file) in s.disk))
      && (s.files[file].status.OnNode? ==>
        && recorded > 0
        && (recorded == 1 ==> WholePath(file) in s.disk)
        && (WholePath(file) in s.disk ==> recorded == 1 || Pending(s, file) != {})))
  }

  ghost predicate CallsKnown(s: State) {
    forall call :: call in s.completions ==> s.completions[call].file in s.files
  }

  lemma SoundCallsAreKnown(sha: Bytes -> Bytes, s: State, written: set<Bytes>)
    requires AssemblySound(sha, s, written)
    ensures CallsKnown(s)
  {
    assert forall call :: call in s.completions ==> CallSound(sha, s, written, call);
  }

  lemma UnrelatedKeepsTally(s: State, next: State, file: Id, published: nat, recorded: nat)
    requires Unrelated(s, next) && CallsKnown(s) && Tallied(s, file, published, recorded)
    ensures Tallied(next, file, published, recorded)
  {
    hide ValidInfo;
    assert Pending(next, file) == Pending(s, file);
    if file in next.files && file !in s.files {
      NewFileIsSound(s, next, file);
      assert Pending(s, file) == {};
    }
  }

  // A step that leaves the tables, this file's body and its pending calls alone.
  lemma SameTally(s: State, next: State, file: Id, published: nat, recorded: nat)
    requires Tallied(s, file, published, recorded)
    requires next.files == s.files && next.picked == s.picked && Pending(next, file) == Pending(s, file)
    requires WholePath(file) in next.disk <==> WholePath(file) in s.disk
    ensures Tallied(next, file, published, recorded)
  {
    hide Pending;
  }

  lemma QuietCompletionKeepsTally(sha: Bytes -> Bytes, s: State, e: Event, file: Id, published: nat, recorded: nat)
    requires e.PrepareCompletion? || e.CopyPiece? || e.AbandonCompletion?
    requires Tallied(s, file, published, recorded)
    ensures Tallied(Step(sha, s, e), file, published, recorded)
  {
    hide RowsOf, Copyable, Tallied;
    assert Pending(Step(sha, s, e), file) == Pending(s, file);
    SameTally(s, Step(sha, s, e), file, published, recorded);
  }

  lemma PublishedPending(sha: Bytes -> Bytes, s: State, call: nat, file: Id)
    ensures var next := AfterPublish(sha, s, call);
      && next.files == s.files && next.picked == s.picked
      && if Publishes(sha, s, PublishFile(call), file)
        then file in s.files && WholePath(file) in next.disk
          && Pending(next, file) == Pending(s, file) + {call} && call !in Pending(s, file)
        else (WholePath(file) in next.disk <==> WholePath(file) in s.disk) && Pending(next, file) == Pending(s, file)
  {
    hide Concat;
    var next := AfterPublish(sha, s, call);
    if Publishes(sha, s, PublishFile(call), file) {
      assert Pending(next, file) == Pending(s, file) + {call};
    } else {
      assert Pending(next, file) == Pending(s, file);
    }
  }

  lemma PublishKeepsTally(sha: Bytes -> Bytes, s: State, call: nat, file: Id, published: nat, recorded: nat)
    requires Tallied(s, file, published, recorded)
    ensures var more := if Publishes(sha, s, PublishFile(call), file) then 1 else 0;
      Tallied(AfterPublish(sha, s, call), file, published + more, recorded)
  {
    hide AfterPublish, Publishes, Pending;
    PublishedPending(sha, s, call, file);
  }

  lemma RecordedPending(s: State, call: nat, file: Id)
    ensures var next := AfterRecordCompletion(s, call);
      && next.picked == s.picked && (file in next.files <==> file in s.files)
      && if Records(s, RecordCompletion(call), file)
        then call in Pending(s, file) && Pending(next, file) == Pending(s, file) - {call}
        else Pending(next, file) == Pending(s, file)
  {
    var next := AfterRecordCompletion(s, call);
    if Records(s, RecordCompletion(call), file) {
      assert Pending(next, file) == Pending(s, file) - {call};
    } else {
      assert Pending(next, file) == Pending(s, file);
    }
  }

  lemma RecordKeepsTally(s: State, call: nat, file: Id, published: nat, recorded: nat)
    requires Tallied(s, file, published, recorded)
    ensures var more := if Records(s, RecordCompletion(call), file) then 1 else 0;
      Tallied(AfterRecordCompletion(s, call), file, published, recorded + more)
  {
    hide Pending;
    RecordedPending(s, call, file);
  }

  lemma StepKeepsTally(
      sha: Bytes -> Bytes, s: State, e: Event, file: Id, published: nat, recorded: nat)
    requires CallsKnown(s) && Tallied(s, file, published, recorded)
    ensures Tallied(Step(sha, s, e), file,
                    published + (if Publishes(sha, s, e, file) then 1 else 0),
                    recorded + (if Records(s, e, file) then 1 else 0))
  {
    hide Tallied, Unrelated, AfterPublish, AfterRecordCompletion, AfterPrepareCompletion, AfterCopy,
         AfterAbandonCompletion;
    match e
    case PublishFile(call) => PublishKeepsTally(sha, s, call, file, published, recorded);
    case RecordCompletion(call) => RecordKeepsTally(s, call, file, published, recorded);
    case _ =>
      if IsCompletion(e) {
        QuietCompletionKeepsTally(sha, s, e, file, published, recorded);
      } else {
        OtherStepsAreUnrelated(sha, s, e);
        UnrelatedKeepsTally(s, Step(sha, s, e), file, published, recorded);
      }
  }

  lemma {:induction false} RunKeepsTally(sha: Bytes -> Bytes, events: seq<Event>, file: Id)
    ensures Tallied(Run(sha, START, events), file, Publications(sha, events, file), Recordings(sha, events, file))
  {
    if events != [] {
      hide Tallied, Step, AssemblySound, CallsKnown, Publishes, Records;
      var init := events[..|events| - 1];
      RunKeepsTally(sha, init, file);
      RunKeepsAssembly(sha, init);
      SoundCallsAreKnown(sha, Run(sha, START, init), Written(init));
      StepKeepsTally(sha, Run(sha, START, init), events[|events| - 1], file,
                     Publications(sha, init, file), Recordings(sha, init, file));
    }
  }

  // ---- the published file ----

  lemma {:induction false} ConcatLength(sha: Bytes -> Bytes, s: State, file: Id, pieces: seq<Bytes>)
    requires UploadsSound(sha, s) && file in s.files && SoundInfo(s.files[file])
    requires PiecesFit(sha, s, file, pieces) && |pieces| <= s.files[file].chunkCount
    ensures var info := s.files[file];
      |Concat(pieces)| == TotalOfFirst(info.size, info.chunkSize, info.chunkCount, |pieces|)
  {
    if pieces != [] {
      var n := |pieces| - 1;
      ConcatLength(sha, s, file, pieces[..n]);
      assert RowSound(s, ChunkKey(file, n));
    }
  }

  lemma WholeHasItsLength(sha: Bytes -> Bytes, s: State, written: set<Bytes>, file: Id)
    requires UploadsSound(sha, s) && AssemblySound(sha, s, written)
    requires file in s.files && file !in s.picked && WholePath(file) in s.disk
    ensures Whole(sha, s, file) && WholeFrom(sha, s, written, file)
    ensures sha(s.disk[WholePath(file)]) == s.files[file].sha256
    ensures |s.disk[WholePath(file)]| == s.files[file].size
  {
    hide UploadsSound, CallSound;
    var pieces :| Makes(sha, s, file, pieces) && AllIn(pieces, written);
    ConcatLength(sha, s, file, pieces);
    ExpectedSizesAddUp(s.files[file].size, s.files[file].chunkSize);
  }

  // In every interleaving whatsoever, the body under the path of a file that cleanup has not picked is
  // the concatenation of pieces that match the recorded chunks in index order, with the declared
  // digest and exactly the declared length.
  lemma BodiesAreExact(sha: Bytes -> Bytes, events: seq<Event>, file: Id)
    requires var s := Run(sha, START, events);
      WholePath(file) in s.disk && file !in s.picked
    ensures var s := Run(sha, START, events);
      && file in s.files && Whole(sha, s, file)
      && sha(s.disk[WholePath(file)]) == s.files[file].sha256
      && |s.disk[WholePath(file)]| == s.files[file].size
  {
    RunKeepsAssembly(sha, events);
    WholeHasItsLength(sha, Run(sha, START, events), Written(events), file);
  }

  // Once no completion of an available file is under way, its body is on disk, whole, exactly when one
  // single call ever published it: of several overlapping ones the last to record removes it.
  lemma BodySurvivesIff(sha: Bytes -> Bytes, events: seq<Event>, file: Id)
    requires var s := Run(sha, START, events);
      && file in s.files && file !in s.picked && s.files[file].status.OnNode?
      && forall call :: !Under(s, call, file)
    ensures var s := Run(sha, START, events);
      && (Whole(sha, s, file) <==> Publications(sha, events, file) == 1)
      && (WholePath(file) in s.disk <==> Publications(sha, events, file) == 1)
  {
    var s := Run(sha, START, events);
    RunKeepsTally(sha, events, file);
    assert forall call :: call in Pending(s, file) ==> Under(s, call, file);
    assert Pending(s, file) == {};
    hide Run;
    if WholePath(file) in s.disk {
      BodiesAreExact(sha, events, file);
    }
  }

  // ---- one completion of the file at a time ----

  // No Complete call for the file starts while another one for it is under way.
  ghost predicate Exclusive(s: State, e: Event, file: Id) {
    e.PrepareCompletion? && e.file == file ==>
      forall call :: !Under(s, call, file)
  }

  ghost predicate ExclusiveRun(sha: Bytes -> Bytes, s: State, events: seq<Event>, file: Id) {
    events == []
    || (ExclusiveRun(sha, s, events[..|events| - 1], file)
        && Exclusive(Run(sha, s, events[..|events| - 1]), events[|events| - 1], file))
  }

  // The call is a completion of the file under way.
  predicate Under(s: State, call: nat, file: Id) {
    call in s.completions && s.completions[call].file == file
  }

  // At most one call works on the file, and only while it is uploading; so it is recorded at most once.
  ghost predicate Alone(s: State, file: Id, recorded: nat) {
    && (forall a, b :: Under(s, a, file) && Under(s, b, file) ==> a == b)
    && (file in s.files && file !in s.picked && s.files[file].status.OnNode? ==>
      recorded == 1 && forall call :: !Under(s, call, file))
  }

  lemma StepKeepsAlone(
      sha: Bytes -> Bytes, s: State, e: Event, file: Id, published: nat, recorded: nat)
    requires Exclusive(s, e, file) && Alone(s, file, recorded) && Tallied(s, file, published, recorded)
    ensures Alone(Step(sha, s, e), file, recorded + (if Records(s, e, file) then 1 else 0))
  {
    if IsCompletion(e) {
      CompletionKeepsAlone(sha, s, e, file, published, recorded);
    } else {
      OtherStepsAreUnrelated(sha, s, e);
      UnrelatedKeepsAlone(s, Step(sha, s, e), file, recorded);
    }
  }

  lemma UnrelatedKeepsAlone(s: State, next: State, file: Id, recorded: nat)
    requires Unrelated(s, next) && Alone(s, file, recorded)
    ensures Alone(next, file, recorded)
  {
    assert forall call :: Under(next, call, file) <==> Under(s, call, file);
    if file in next.files && file !in s.files {
      NewFileIsSound(s, next, file);
    }
  }

  lemma CompletionKeepsAlone(
      sha: Bytes -> Bytes, s: State, e: Event, file: Id, published: nat, recorded: nat)
    requires IsCompletion(e)
    requires Exclusive(s, e, file) && Alone(s, file, recorded) && Tallied(s, file, published, recorded)
    ensures Alone(Step(sha, s, e), file, recorded + (if Records(s, e, file) then 1 else 0))
  {
    hide Alone, Tallied;
    match e
    case PrepareCompletion(call, f, rows) => PrepareKeepsAlone(s, call, f, rows, file, published, recorded);
    case RecordCompletion(call) => RecordKeepsAlone(s, call, file, published, recorded);
    case _ => FewerStayAlone(s, Step(sha, s, e), file, recorded);
  }

  lemma PrepareKeepsAlone(
      s: State, call: nat, f: Id, rows: seq<Chunk>, file: Id, published: nat, recorded: nat)
    requires Exclusive(s, PrepareCompletion(call, f, rows), file) && Alone(s, file, recorded)
    ensures Alone(AfterPrepareCompletion(s, call, f, rows), file, recorded)
  {
    hide RowsOf;
    var next := AfterPrepareCompletion(s, call, f, rows);
    assert forall c :: Under(next, c, file) ==> Under(s, c, file) || (c == call && f == file);
  }

  // A step that starts no call and leaves the files alone.
  lemma FewerStayAlone(s: State, next: State, file: Id, recorded: nat)
    requires Alone(s, file, recorded) && next.files == s.files && next.picked == s.picked
    requires forall call :: call in next.completions ==>
      call in s.completions && next.completions[call].file == s.completions[call].file
    ensures Alone(next, file, recorded)
  {
    assert forall call :: Under(next, call, file) ==> Under(s, call, file);
  }

  lemma RecordKeepsAlone(s: State, call: nat, file: Id, published: nat, recorded: nat)
    requires Alone(s, file, recorded) && Tallied(s, file, published, recorded)
    ensures Alone(AfterRecordCompletion(s, call), file,
                  recorded + (if Records(s, RecordCompletion(call), file) then 1 else 0))
  {
    hide Pending;
    var next := AfterRecordCompletion(s, call);
    assert forall c :: Under(next, c, file) ==> Under(s, c, file);
    assert Records(s, RecordCompletion(call), file) ==> Under(s, call, file) && !Under(next, call, file);
  }

  lemma {:induction false} RunKeepsAlone(sha: Bytes -> Bytes, events: seq<Event>, file: Id)
    requires ExclusiveRun(sha, START, events, file)
    ensures Alone(Run(sha, START, events), file, Recordings(sha, events, file))
  {
    if events != [] {
      hide Alone, Tallied, Step, Exclusive, Records;
      var init := events[..|events| - 1];
      RunKeepsAlone(sha, init, file);
      RunKeepsTally(sha, init, file);
      StepKeepsAlone(sha, Run(sha, START, init), events[|events| - 1], file,
                     Publications(sha, init, file), Recordings(sha, init, file));
    }
  }

  // With one completion of this file at a time, whatever the completions of other files do, an
  // available file has its body on disk, with the declared digest and exactly the declared length.
  lemma PublishedFileIsExact(sha: Bytes -> Bytes, events: seq<Event>, file: Id)
    requires ExclusiveRun(sha, START, events, file)
    requires var s := Run(sha, START, events);
      file in s.files && file !in s.picked && s.files[file].status.OnNode?
    ensures var s := Run(sha, START, events);
      && Whole(sha, s, file)
      && sha(s.disk[WholePath(file)]) == s.files[file].sha256
      && |s.disk[WholePath(file)]| == s.files[file].size
  {
    RunKeepsAlone(sha, events, file);
    RunKeepsTally(sha, events, file);
    hide Run, ExclusiveRun, Whole;
    BodiesAreExact(sha, events, file);
  }

  // The stored bodies of a file's chunks, in index order.
  ghost function BodiesOf(s: State, file: Id): seq<Bytes>
    requires file in s.files
  {
    seq(if s.files[file].chunkCount < 0 then 0 else s.files[file].chunkCount, i requires 0 <= i =>
      if ChunkKey(file, i) in s.chunks && s.chunks[ChunkKey(file, i)].path in s.disk
      then s.disk[s.chunks[ChunkKey(file, i)].path] else [])
  }

  // If no two bodies written in the run have the same digest, the published file is the concatenation
  // of the chunk bodies as they are stored.
  lemma PublishedFileIsItsChunks(sha: Bytes -> Bytes, events: seq<Event>, file: Id)
    requires var s := Run(sha, START, events);
      WholePath(file) in s.disk && file !in s.picked
    requires forall a, b :: a in Written(events) && b in Written(events) && sha(a) == sha(b) ==> a == b
    ensures var s := Run(sha, START, events);
      file in s.files && s.disk[WholePath(file)] == Concat(BodiesOf(s, file))
  {
    RunKeepsAssembly(sha, events);
    var s, written := Run(sha, START, events), Written(events);
    hide Run, Written;
    WholeHasItsLength(sha, s, written, file);
    var pieces :| Makes(sha, s, file, pieces) && AllIn(pieces, written);
    CountBounds(s.files[file].size, s.files[file].chunkSize);
    forall j | 0 <= j < |pieces|
      ensures pieces[j] == BodiesOf(s, file)[j]
    {
      assert RowSound(s, ChunkKey(file, j));
      var path := s.chunks[ChunkKey(file, j)].path;
      assert path in s.disk && path.ChunkPath? && s.disk[path] in written;
    }
    assert pieces == BodiesOf(s, file);
  }

  // ---- overlapping completions ----

  // A published call whose file is whole leaves it whole exactly when the file is still uploading.
  lemma RecordKeepsTheBodyIff(sha: Bytes -> Bytes, s: State, call: nat)
    requires call in s.completions && s.completions[call].phase.Published?
    requires s.completions[call].file in s.files && Whole(sha, s, s.completions[call].file)
    ensures var file := s.completions[call].file;
      Whole(sha, AfterRecordCompletion(s, call), file) <==> s.files[file].status.Uploading?
  {
    var file, next := s.completions[call].file, AfterRecordCompletion(s, call);
    if s.files[file].status.Uploading? {
      var pieces :| Makes(sha, s, file, pieces);
      assert Makes(sha, next, file, pieces);
    }
  }

  // Any two calls that have both published one file leave it available without a body.
  lemma BothPublishedLoseTheBody(s: State, a: nat, b: nat)
    requires a in s.completions && b in s.completions && a != b
    requires s.completions[a].phase.Published? && s.completions[b].phase.Published?
    requires var file := s.completions[a].file;
      s.completions[b].file == file && file in s.files && s.files[file].status.Uploading?
    ensures var file, next := s.completions[a].file, AfterRecordCompletion(AfterRecordCompletion(s, a), b);
      file in next.files && next.files[file].status.OnNode? && WholePath(file) !in next.disk
  {
  }

  lemma RunNext(sha: Bytes -> Bytes, s: State, events: seq<Event>, n: nat)
    requires n < |events|
    ensures Run(sha, s, events[..n + 1]) == Step(sha, Run(sha, s, events[..n]), events[n])
  {
    assert events[..n + 1][..n] == events[..n];
  }

  // Two completions of one empty file that overlap.
  function Overlap(sha: Bytes -> Bytes, file: Id): seq<Event> {
    [AddFile(file, FileInfo(0, sha([]), 1, 0, Uploading)),
     PrepareCompletion(1, file, []), PrepareCompletion(2, file, []),
     PublishFile(1), PublishFile(2), RecordCompletion(1), RecordCompletion(2)]
  }

  function Racing(sha: Bytes -> Bytes, file: Id, phase: CompletionPhase, disk: map<Path, Bytes>): State {
    var call := Completion(file, [], [], phase);
    START.(files := map[file := FileInfo(0, sha([]), 1, 0, Uploading)], disk := disk,
           completions := map[1 := call, 2 := call])
  }

  lemma OverlapPrepared(sha: Bytes -> Bytes, file: Id)
    ensures Run(sha, START, Overlap(sha, file)[..3]) == Racing(sha, file, Copying, map[])
  {
    var events := Overlap(sha, file);
    RunNext(sha, START, events, 0);
    RunNext(sha, START, events, 1);
    RunNext(sha, START, events, 2);
    hide Run, AfterPrepareCompletion;
    assert events[..0] == [] && Run(sha, START, events[..0]) == START by { RunNone(sha, START, events); }
    var files := map[file := FileInfo(0, sha([]), 1, 0, Uploading)];
    assert Run(sha, START, events[..1]) == START.(files := files);
    PrepareRacer(sha, file, 1, map[]);
    PrepareRacer(sha, file, 2, map[1 := Completion(file, [], [], Copying)]);
    assert Run(sha, START, events[..2])
        == START.(files := files, completions := map[1 := Completion(file, [], [], Copying)]);
  }

  // Preparing a completion of the empty file, with others of it perhaps under way.
  lemma PrepareRacer(sha: Bytes -> Bytes, file: Id, call: nat, others: map<nat, Completion>)
    requires call !in others
    ensures var s := START.(files := map[file := FileInfo(0, sha([]), 1, 0, Uploading)], completions := others);
      AfterPrepareCompletion(s, call, file, [])
        == s.(completions := others[call := Completion(file, [], [], Copying)])
  {
  }

  lemma RunNone(sha: Bytes -> Bytes, s: State, events: seq<Event>)
    ensures Run(sha, s, events[..0]) == s
  {
  }

  lemma PublishOne(sha: Bytes -> Bytes, file: Id, call: nat, s: State)
    requires call in s.completions && s.completions[call] == Completion(file, [], [], Copying)
    requires file in s.files && s.files[file].sha256 == sha([])
    ensures AfterPublish(sha, s, call)
      == s.(disk := s.disk[WholePath(file) := []],
            completions := s.completions[call := Completion(file, [], [], Published)])
  {
    assert Concat([]) == [];
  }

  lemma RacePublished(sha: Bytes -> Bytes, file: Id)
    ensures AfterPublish(sha, AfterPublish(sha, Racing(sha, file, Copying, map[]), 1), 2)
      == Racing(sha, file, Published, map[WholePath(file) := []])
  {
    hide AfterPublish;
    var s, call := Racing(sha, file, Copying, map[]), Completion(file, [], [], Published);
    PublishOne(sha, file, 1, s);
    var t := AfterPublish(sha, s, 1);
    PublishOne(sha, file, 2, t);
    assert AfterPublish(sha, t, 2).completions == map[1 := call, 2 := call];
    assert AfterPublish(sha, t, 2).disk == map[WholePath(file) := []];
  }

  lemma OverlapPublished(sha: Bytes -> Bytes, file: Id)
    ensures Run(sha, START, Overlap(sha, file)[..5])
      == Racing(sha, file, Published, map[WholePath(file) := []])
  {
    hide Run, AfterPublish, Racing;
    var events := Overlap(sha, file);
    OverlapPrepared(sha, file);
    RunNext(sha, START, events, 3);
    RunNext(sha, START, events, 4);
    RacePublished(sha, file);
  }

  // Such a state is reachable: of two overlapping completions of an empty file the
  // second loses the race to record and removes the body the first one published.
  lemma OverlappingCompletionsLoseTheBody(sha: Bytes -> Bytes, file: Id)
    ensures var s := Run(sha, START, Overlap(sha, file));
      file in s.files && s.files[file].status.OnNode? && file !in s.picked && WholePath(file) !in s.disk
  {
    var events := Overlap(sha, file);
    OverlapPrepared(sha, file);
    OverlapPublished(sha, file);
    RunNext(sha, START, events, 5);
    RunNext(sha, START, events, 6);
    hide Run;
    assert events[..7] == events;
    hide AfterRecordCompletion, Racing, AfterPrepareCompletion, AfterPublish;
    var s := Run(sha, START, events[..6]);
    assert s == AfterRecordCompletion(Racing(sha, file, Published, map[WholePath(file) := []]), 1);
    RacersLose(sha, file);
  }

  lemma RacersLose(sha: Bytes -> Bytes, file: Id)
    ensures var s := Racing(sha, file, Published, map[WholePath(file) := []]);
      var next := AfterRecordCompletion(AfterRecordCompletion(s, 1), 2);
      file in next.files && next.files[file].status.OnNode? && file !in next.picked && WholePath(file) !in next.disk
  {
    var s := Racing(sha, file, Published, map[WholePath(file) := []]);
    BothPublishedLoseTheBody(s, 1, 2);
  }
}
