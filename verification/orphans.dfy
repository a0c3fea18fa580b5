/**
 No chunk is lost track of: whatever lies under a chunk path is on record or still in the hands of an
 upload, except for a file the cleaner is working on.
 */
module Orphans {
  import opened Wrappers
  import opened Requests
  import opened Tables
  import opened ChunkStore

  // The upload has put its chunk under this path and will still record or remove it.
  predicate Holds(s: State, call: nat, p: Path) {
    && p.ChunkPath? && call in s.uploads && s.uploads[call].phase in {Renamed, Refused}
    && p == ChunkPath(s.uploads[call].file, s.uploads[call].index, s.uploads[call].digest)
  }

  predicate OnRecord(s: State, p: Path) {
    p.ChunkPath? && ChunkKey(p.file, p.index) in s.chunks && s.chunks[ChunkKey(p.file, p.index)].path == p
  }

  ghost predicate Tracked(s: State, p: Path) {
    OnRecord(s, p) || exists call :: Holds(s, call, p)
  }

  ghost predicate NoOrphans(s: State) {
    forall p: Path :: p in s.disk && p.ChunkPath? && p.file !in s.picked ==> Tracked(s, p)
  }

  // The path was there before and whoever tracked it still does.
  ghost predicate KeepsTrack(s: State, next: State) {
    && s.picked <= next.picked
    && (forall p: Path :: p in next.disk && p.ChunkPath? && p.file !in next.picked ==> p in s.disk)
    && (forall p: Path :: OnRecord(s, p) && p.file !in next.picked ==> OnRecord(next, p))
    && (forall call, p: Path :: Holds(s, call, p) && p in next.disk ==> Holds(next, call, p) || OnRecord(next, p))
  }

  lemma KeepsTrackOfAll(s: State, next: State)
    requires NoOrphans(s) && KeepsTrack(s, next)
    ensures NoOrphans(next)
  {
    hide Holds, OnRecord;
    forall p: Path | p in next.disk && p.ChunkPath? && p.file !in next.picked
      ensures Tracked(next, p)
    {
      assert Tracked(s, p);
      if !OnRecord(s, p) {
        var call :| Holds(s, call, p);
      }
    }
  }

  lemma QuietUploadKeepsTrack(sha: Bytes -> Bytes, s: State, e: Event)
    requires IsQuietUpload(e)
    ensures KeepsTrack(s, Step(sha, s, e))
  {
    hide SizeOf;
  }

  lemma CompletionKeepsTrack(sha: Bytes -> Bytes, s: State, e: Event)
    requires IsCompletion(e)
    ensures KeepsTrack(s, Step(sha, s, e))
  {
    hide RowsOf, Copyable, Concat;
  }

  lemma CleanerKeepsTrack(sha: Bytes -> Bytes, s: State, e: Event)
    requires e.AddFile? || e.PickFile? || e.DeletePath? || e.MarkExpired?
    ensures KeepsTrack(s, Step(sha, s, e))
  {
    hide ValidInfo;
  }

  lemma RemoveKeepsTrack(s: State, call: nat)
    ensures KeepsTrack(s, AfterRemoveRefused(s, call))
  {
  }

  lemma RenameKeepsTrack(s: State, call: nat)
    requires NoOrphans(s)
    ensures NoOrphans(AfterRename(s, call))
  {
    var next := AfterRename(s, call);
    forall p: Path | p in next.disk && p.ChunkPath? && p.file !in next.picked
      ensures Tracked(next, p)
    {
      if p !in s.disk {
        assert Holds(next, call, p);
      } else if !OnRecord(s, p) {
        var other :| Holds(s, other, p);
        assert Holds(next, other, p);
      }
    }
  }

  lemma RecordKeepsTrack(sha: Bytes -> Bytes, s: State, call: nat)
    requires UploadsSound(sha, s)
    ensures KeepsTrack(s, AfterRecord(s, call))
  {
    hide UploadSound, ChunkPathsSound, SizeOf;
    assert forall k :: k in s.chunks ==> RowSound(s, k);
  }

  lemma StepKeepsTrack(sha: Bytes -> Bytes, s: State, e: Event)
    requires UploadsSound(sha, s) && NoOrphans(s)
    ensures NoOrphans(Step(sha, s, e))
  {
    hide UploadsSound, NoOrphans, KeepsTrack, AfterRename, AfterRecord, AfterRemoveRefused;
    var next := Step(sha, s, e);
    if e.RenameChunk? {
      RenameKeepsTrack(s, e.call);
    } else {
      if IsQuietUpload(e) {
        QuietUploadKeepsTrack(sha, s, e);
      } else if IsCompletion(e) {
        CompletionKeepsTrack(sha, s, e);
      } else if e.RecordChunk? {
        RecordKeepsTrack(sha, s, e.call);
      } else if e.RemoveRefused? {
        RemoveKeepsTrack(s, e.call);
      } else {
        CleanerKeepsTrack(sha, s, e);
      }
      KeepsTrackOfAll(s, next);
    }
  }

  // In every interleaving, a chunk on disk is on record or held by an upload that will still record or
  // remove it, unless cleanup has picked its file.
  lemma {:induction false} ChunksAreTracked(sha: Bytes -> Bytes, events: seq<Event>)
    ensures NoOrphans(Run(sha, START, events))
  {
    if events != [] {
      hide NoOrphans, UploadsSound, Step;
      var init := events[..|events| - 1];
      ChunksAreTracked(sha, init);
      StartIsTracked(sha);
      RunKeepsSound(sha, START, init);
      StepKeepsTrack(sha, Run(sha, START, init), events[|events| - 1]);
    }
  }

  // A temporary file is some upload's that has written it and neither renamed nor dropped it yet.
  ghost predicate TemporariesHeld(s: State) {
    forall call :: TempPath(call) in s.disk ==> call in s.uploads && s.uploads[call].phase in {Written, Verified}
  }

  // In every interleaving, however its call ends, an upload leaves no temporary file.
  lemma {:induction false} NoTemporaryIsLeft(sha: Bytes -> Bytes, events: seq<Event>)
    ensures TemporariesHeld(Run(sha, START, events))
  {
    if events != [] {
      hide Step, TemporariesHeld;
      var init := events[..|events| - 1];
      NoTemporaryIsLeft(sha, init);
      StepHoldsTemporaries(sha, Run(sha, START, init), events[|events| - 1]);
    }
  }

  lemma StepHoldsTemporaries(sha: Bytes -> Bytes, s: State, e: Event)
    requires TemporariesHeld(s)
    ensures TemporariesHeld(Step(sha, s, e))
  {
    hide RowsOf, Copyable, SizeOf, ValidInfo, Recordable, AlreadyRecorded, Concat;
  }

  // What the cleaner's mark leaves behind: exactly the chunks of its file that are still on disk and
  // in the hands of no upload. Nobody tracks them any more.
  lemma MarkLeaksIff(s: State, file: Id, p: Path)
    requires file in s.picked && file in s.files && p.ChunkPath? && p.file == file
    ensures var next := AfterMarkExpired(s, file);
      p in next.disk && !Tracked(next, p) <==> p in s.disk && forall call :: !Holds(s, call, p)
  {
    var next := AfterMarkExpired(s, file);
    assert forall call :: Holds(next, call, p) <==> Holds(s, call, p);
  }

  lemma StartIsTracked(sha: Bytes -> Bytes)
    ensures UploadsSound(sha, START) && NoOrphans(START)
  {
  }

  // The exception is needed: a chunk recorded after the cleaner listed the file's paths and before it
  // marks the file stays on disk with nobody left to remove it.
  function Late(sha: Bytes -> Bytes, file: Id, body: Bytes): seq<Event> {
    [AddFile(file, FileInfo(1, sha(body), 1, 1, Uploading)),
     PrepareUpload(0, file, 0, sha(body)), WriteTemporary(0, body), VerifyTemporary(0), RenameChunk(0),
     PickFile(file), RecordChunk(0), MarkExpired(file)]
  }

  lemma RunStep(sha: Bytes -> Bytes, events: seq<Event>, n: nat, before: State, after: State)
    requires n < |events| && Run(sha, START, events[..n]) == before && Step(sha, before, events[n]) == after
    ensures Run(sha, START, events[..n + 1]) == after
  {
    assert events[..n + 1][..n] == events[..n];
  }

  function LateUpload(sha: Bytes -> Bytes, file: Id, body: Bytes, phase: UploadPhase): Upload {
    Upload(file, 0, sha(body), 1, phase)
  }

  function LateChunk(sha: Bytes -> Bytes, file: Id, body: Bytes): Path {
    ChunkPath(file, 0, sha(body))
  }

  // The run's states, by where the upload stands and what is on disk, with the file picked or not.
  function LateState(
      sha: Bytes -> Bytes, file: Id, body: Bytes, phase: UploadPhase, disk: map<Path, Bytes>, picked: set<Id>): State {
    START.(files := map[file := FileInfo(1, sha(body), 1, 1, Uploading)], disk := disk,
           uploads := map[0 := LateUpload(sha, file, body, phase)], picked := picked)
  }

  function LateAdded(sha: Bytes -> Bytes, file: Id, body: Bytes): State {
    START.(files := map[file := FileInfo(1, sha(body), 1, 1, Uploading)])
  }

  function LateRecorded(sha: Bytes -> Bytes, file: Id, body: Bytes): State {
    var p := LateChunk(sha, file, body);
    LateState(sha, file, body, Stored, map[p := body], {file}).(
      chunks := map[ChunkKey(file, 0) := Chunk(0, 1, sha(body), p)])
  }

  function LateMarked(sha: Bytes -> Bytes, file: Id, body: Bytes): State {
    LateState(sha, file, body, Stored, map[LateChunk(sha, file, body) := body], {file}).(
      files := map[file := FileInfo(1, sha(body), 1, 1, FileExpired)])
  }

  lemma LateChunkLeaks(sha: Bytes -> Bytes, file: Id, body: Bytes)
    requires |body| == 1
    ensures var s := Run(sha, START, Late(sha, file, body));
      var p := LateChunk(sha, file, body);
      p in s.disk && !Tracked(s, p) && file in s.files && s.files[file].status.FileExpired?
  {
    hide Run, AfterAddFile, AfterPrepareUpload, AfterWrite, AfterVerify, AfterRename, AfterRecord, AfterPick,
         AfterMarkExpired, LateState, LateAdded, LateRecorded, LateMarked, Tracked;
    var events, p := Late(sha, file, body), LateChunk(sha, file, body);
    var temporary, stored := map[TempPath(0) := body], map[p := body];
    RunNothing(sha, events);
    LateAdd(sha, file, body);
    RunStep(sha, events, 0, START, LateAdded(sha, file, body));
    LatePrepare(sha, file, body);
    RunStep(sha, events, 1, LateAdded(sha, file, body), LateState(sha, file, body, Accepted, map[], {}));
    LateWrite(sha, file, body);
    RunStep(sha, events, 2, LateState(sha, file, body, Accepted, map[], {}),
            LateState(sha, file, body, Written, temporary, {}));
    LateVerify(sha, file, body);
    RunStep(sha, events, 3, LateState(sha, file, body, Written, temporary, {}),
            LateState(sha, file, body, Verified, temporary, {}));
    LateRename(sha, file, body);
    RunStep(sha, events, 4, LateState(sha, file, body, Verified, temporary, {}),
            LateState(sha, file, body, Renamed, stored, {}));
    LatePick(sha, file, body);
    RunStep(sha, events, 5, LateState(sha, file, body, Renamed, stored, {}),
            LateState(sha, file, body, Renamed, stored, {file}));
    LateRecord(sha, file, body);
    RunStep(sha, events, 6, LateState(sha, file, body, Renamed, stored, {file}), LateRecorded(sha, file, body));
    LateMark(sha, file, body);
    RunStep(sha, events, 7, LateRecorded(sha, file, body), LateMarked(sha, file, body));
    assert events[..8] == events;
    NobodyTracks(sha, file, body);
  }

  lemma RunNothing(sha: Bytes -> Bytes, events: seq<Event>)
    ensures Run(sha, START, events[..0]) == START
  {
  }

  lemma NobodyTracks(sha: Bytes -> Bytes, file: Id, body: Bytes)
    ensures var s, p := LateMarked(sha, file, body), LateChunk(sha, file, body);
      p in s.disk && !Tracked(s, p) && file in s.files && s.files[file].status.FileExpired?
  {
  }

  lemma LateAdd(sha: Bytes -> Bytes, file: Id, body: Bytes)
    ensures AfterAddFile(START, file, FileInfo(1, sha(body), 1, 1, Uploading)) == LateAdded(sha, file, body)
  {
  }

  lemma LatePrepare(sha: Bytes -> Bytes, file: Id, body: Bytes)
    ensures AfterPrepareUpload(LateAdded(sha, file, body), 0, file, 0, sha(body))
         == LateState(sha, file, body, Accepted, map[], {})
  {
    hide SizeOf;
    LateSize(sha, file, body);
  }

  lemma LateSize(sha: Bytes -> Bytes, file: Id, body: Bytes)
    ensures SizeOf(LateAdded(sha, file, body), file, 0) == Some(1)
  {
  }

  lemma LateWrite(sha: Bytes -> Bytes, file: Id, body: Bytes)
    ensures AfterWrite(LateState(sha, file, body, Accepted, map[], {}), 0, body)
         == LateState(sha, file, body, Written, map[TempPath(0) := body], {})
  {
  }

  lemma LateVerify(sha: Bytes -> Bytes, file: Id, body: Bytes)
    requires |body| == 1
    ensures AfterVerify(sha, LateState(sha, file, body, Written, map[TempPath(0) := body], {}), 0)
         == LateState(sha, file, body, Verified, map[TempPath(0) := body], {})
  {
  }

  lemma LateRename(sha: Bytes -> Bytes, file: Id, body: Bytes)
    ensures AfterRename(LateState(sha, file, body, Verified, map[TempPath(0) := body], {}), 0)
         == LateState(sha, file, body, Renamed, map[LateChunk(sha, file, body) := body], {})
  {
    var disk: map<Path, Bytes> := map[TempPath(0) := body];
    var p := LateChunk(sha, file, body);
    assert disk[p := body] - {TempPath(0)} == map[p := body];
  }

  lemma LatePick(sha: Bytes -> Bytes, file: Id, body: Bytes)
    ensures AfterPick(LateState(sha, file, body, Renamed, map[LateChunk(sha, file, body) := body], {}), file)
         == LateState(sha, file, body, Renamed, map[LateChunk(sha, file, body) := body], {file})
  {
  }

  lemma LateRecord(sha: Bytes -> Bytes, file: Id, body: Bytes)
    ensures AfterRecord(LateState(sha, file, body, Renamed, map[LateChunk(sha, file, body) := body], {file}), 0)
         == LateRecorded(sha, file, body)
  {
  }

  lemma LateMark(sha: Bytes -> Bytes, file: Id, body: Bytes)
    ensures AfterMarkExpired(LateRecorded(sha, file, body), file) == LateMarked(sha, file, body)
  {
    assert AfterMarkExpired(LateRecorded(sha, file, body), file).chunks == map[];
  }
}
