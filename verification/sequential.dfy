/**
 The steps of one call with nothing in between: an upload of the right bytes is stored and recorded, and
 the completion of a file whose chunks are all there publishes exactly their concatenation.
 */
module Sequential {
  import opened Wrappers
  import opened Requests
  import opened ChunkMath
  import opened Tables
  import opened ChunkStore
  import opened Completions

  lemma {:induction false} RunOn(sha: Bytes -> Bytes, s: State, a: seq<Event>, b: seq<Event>)
    ensures Run(sha, s, a + b) == Run(sha, Run(sha, s, a), b)
  {
    if b == [] {
      assert a + b == a;
    } else {
      RunOn(sha, s, a, b[..|b| - 1]);
      assert (a + b)[..|a + b| - 1] == a + b[..|b| - 1];
    }
  }

  lemma RunOne(sha: Bytes -> Bytes, s: State, e: Event)
    ensures Run(sha, s, [e]) == Step(sha, s, e)
  {
    assert [e][..0] == [];
  }

  // ---- one upload ----

  function UploadSteps(call: nat, file: Id, index: nat, digest: Bytes, body: Bytes): seq<Event> {
    [PrepareUpload(call, file, index, digest)] + [WriteTemporary(call, body)] + [VerifyTemporary(call)]
    + [RenameChunk(call)] + [RecordChunk(call)]
  }

  // The chunk is offered for a free position of an uploading file, in the length left for it.
  predicate Offered(s: State, call: nat, file: Id, index: nat, body: Bytes) {
    && call !in s.uploads && call !in s.completions && TempPath(call) !in s.disk
    && file in s.files && s.files[file].status == Uploading && ChunkKey(file, index) !in s.chunks
    && index < s.files[file].chunkCount && s.files[file].chunkSize > 0 && s.files[file].size >= 0
    && |body| == if index == s.files[file].chunkCount - 1 then s.files[file].size - index * s.files[file].chunkSize
                 else s.files[file].chunkSize
  }

  lemma UploadRuns(sha: Bytes -> Bytes, s: State, call: nat, file: Id, index: nat, digest: Bytes, body: Bytes)
    ensures Run(sha, s, UploadSteps(call, file, index, digest, body))
         == AfterRecord(AfterRename(AfterVerify(sha, AfterWrite(AfterPrepareUpload(s, call, file, index, digest),
                                                                call, body), call), call), call)
  {
    hide AfterRecord, AfterRename, AfterVerify, AfterWrite, AfterPrepareUpload, Run;
    var first, second := [PrepareUpload(call, file, index, digest)], [WriteTemporary(call, body)];
    var third, fourth := [VerifyTemporary(call)], [RenameChunk(call)];
    RunOn(sha, s, first + second + third + fourth, [RecordChunk(call)]);
    RunOn(sha, s, first + second + third, fourth);
    RunOn(sha, s, first + second, third);
    RunOn(sha, s, first, second);
    RunOne(sha, s, PrepareUpload(call, file, index, digest));
    var prepared := AfterPrepareUpload(s, call, file, index, digest);
    RunOne(sha, prepared, WriteTemporary(call, body));
    var written := AfterWrite(prepared, call, body);
    RunOne(sha, written, VerifyTemporary(call));
    RunOne(sha, AfterVerify(sha, written, call), RenameChunk(call));
    RunOne(sha, AfterRename(AfterVerify(sha, written, call), call), RecordChunk(call));
  }

  // With the declared digest the chunk ends under its path and on record, and nothing else changes;
  // with another one nothing at all is left of the call.
  lemma UploadAlone(sha: Bytes -> Bytes, s: State, call: nat, file: Id, index: nat, digest: Bytes, body: Bytes)
    requires Offered(s, call, file, index, body)
    ensures var end := Run(sha, s, UploadSteps(call, file, index, digest, body));
      var path := ChunkPath(file, index, digest);
      if sha(body) == digest then
        && end.disk == s.disk[path := body]
        && end.chunks == s.chunks[ChunkKey(file, index) := Chunk(index, |body|, digest, path)]
        && end == s.(disk := end.disk, chunks := end.chunks, uploads := end.uploads)
        && end.uploads == s.uploads[call := Upload(file, index, digest, |body|, Stored)]
      else end == s
  {
    hide AfterRecord, AfterRename, AfterVerify, AfterWrite, AfterPrepareUpload, UploadSteps, Run;
    UploadRuns(sha, s, call, file, index, digest, body);
    OfferIsAccepted(s, call, file, index, digest, body);
    var written := s.(disk := s.disk[TempPath(call) := body],
                      uploads := s.uploads[call := Upload(file, index, digest, |body|, Written)]);
    WrittenIsVerified(sha, s, call, file, index, digest, body);
    if sha(body) == digest {
      VerifiedIsStored(s, call, file, index, digest, body);
    }
  }

  lemma OfferIsAccepted(s: State, call: nat, file: Id, index: nat, digest: Bytes, body: Bytes)
    requires Offered(s, call, file, index, body)
    ensures AfterWrite(AfterPrepareUpload(s, call, file, index, digest), call, body)
         == s.(disk := s.disk[TempPath(call) := body],
               uploads := s.uploads[call := Upload(file, index, digest, |body|, Written)])
  {
    assert SizeOf(s, file, index) == Some(|body|);
    var accepted := s.(uploads := s.uploads[call := Upload(file, index, digest, |body|, Accepted)]);
    assert AfterPrepareUpload(s, call, file, index, digest) == accepted;
  }

  lemma WrittenIsVerified(
      sha: Bytes -> Bytes, s: State, call: nat, file: Id, index: nat, digest: Bytes, body: Bytes)
    requires call !in s.uploads && TempPath(call) !in s.disk
    ensures var written := s.(disk := s.disk[TempPath(call) := body],
                              uploads := s.uploads[call := Upload(file, index, digest, |body|, Written)]);
      AfterVerify(sha, written, call) ==
        if sha(body) == digest
        then written.(uploads := s.uploads[call := Upload(file, index, digest, |body|, Verified)]) else s
    ensures sha(body) != digest ==>
      AfterRename(s, call) == s && AfterRecord(s, call) == s
  {
    var written := s.(disk := s.disk[TempPath(call) := body],
                      uploads := s.uploads[call := Upload(file, index, digest, |body|, Written)]);
    assert written.disk - {TempPath(call)} == s.disk && written.uploads - {call} == s.uploads;
  }

  lemma VerifiedIsStored(s: State, call: nat, file: Id, index: nat, digest: Bytes, body: Bytes)
    requires Offered(s, call, file, index, body)
    ensures var path := ChunkPath(file, index, digest);
      var verified := s.(disk := s.disk[TempPath(call) := body],
                         uploads := s.uploads[call := Upload(file, index, digest, |body|, Verified)]);
      AfterRecord(AfterRename(verified, call), call)
        == s.(disk := s.disk[path := body],
              chunks := s.chunks[ChunkKey(file, index) := Chunk(index, |body|, digest, path)],
              uploads := s.uploads[call := Upload(file, index, digest, |body|, Stored)])
  {
    var path := ChunkPath(file, index, digest);
    var verified := s.(disk := s.disk[TempPath(call) := body],
                       uploads := s.uploads[call := Upload(file, index, digest, |body|, Verified)]);
    var renamed := s.(disk := s.disk[path := body],
                      uploads := s.uploads[call := Upload(file, index, digest, |body|, Renamed)]);
    assert verified.disk[path := body] - {TempPath(call)} == renamed.disk;
    assert AfterRename(verified, call) == renamed;
  }

  // ---- one completion ----

  // Every position of the file is on record with a stored body of its size and digest.
  ghost predicate AllThere(sha: Bytes -> Bytes, s: State, file: Id, rows: seq<Chunk>) {
    && file in s.files && s.files[file].status == Uploading
    && RowsOf(s, file, rows) && |rows| == s.files[file].chunkCount
    && forall i :: 0 <= i < |rows| ==>
      && rows[i].index == i && rows[i].path in s.disk
      && |s.disk[rows[i].path]| == rows[i].size && sha(s.disk[rows[i].path]) == rows[i].sha256
  }

  ghost function StoredBodies(s: State, rows: seq<Chunk>): seq<Bytes>
    requires forall i :: 0 <= i < |rows| ==> rows[i].path in s.disk
  {
    seq(|rows|, i requires 0 <= i < |rows| => s.disk[rows[i].path])
  }

  function Copies(call: nat, n: nat): seq<Event> {
    seq(n, _ => CopyPiece(call))
  }

  lemma {:induction false} CopiesGather(
      sha: Bytes -> Bytes, s: State, call: nat, file: Id, rows: seq<Chunk>, n: nat)
    requires AllThere(sha, s, file, rows) && n <= |rows|
    ensures Run(sha, s.(completions := s.completions[call := Completion(file, rows, [], Copying)]), Copies(call, n))
         == s.(completions := s.completions[call := Completion(file, rows, StoredBodies(s, rows)[..n], Copying)])
  {
    hide AllThere, AfterCopy;
    OnDisk(sha, s, file, rows);
    if n == 0 {
      assert StoredBodies(s, rows)[..0] == [];
    } else {
      CopiesGather(sha, s, call, file, rows, n - 1);
      assert Copies(call, n)[..n - 1] == Copies(call, n - 1);
      CopyGathers(sha, s, call, file, rows, n - 1);
    }
  }

  lemma OnDisk(sha: Bytes -> Bytes, s: State, file: Id, rows: seq<Chunk>)
    requires AllThere(sha, s, file, rows)
    ensures forall i :: 0 <= i < |rows| ==> rows[i].path in s.disk
  {
  }

  lemma CopyGathers(sha: Bytes -> Bytes, s: State, call: nat, file: Id, rows: seq<Chunk>, n: nat)
    requires AllThere(sha, s, file, rows) && n < |rows|
    ensures var bodies := StoredBodies(s, rows);
      AfterCopy(sha, s.(completions := s.completions[call := Completion(file, rows, bodies[..n], Copying)]), call)
        == s.(completions := s.completions[call := Completion(file, rows, bodies[..n + 1], Copying)])
  {
    hide RowsOf;
    var bodies := StoredBodies(s, rows);
    var c := Completion(file, rows, bodies[..n], Copying);
    assert Copyable(sha, s.(completions := s.completions[call := c]), c);
    assert bodies[..n + 1] == bodies[..n] + [bodies[n]];
  }

  function CompletionSteps(call: nat, file: Id, rows: seq<Chunk>): seq<Event> {
    [PrepareCompletion(call, file, rows)] + Copies(call, |rows|) + [PublishFile(call)] + [RecordCompletion(call)]
  }

  // If the concatenation has the declared digest it is published and the file is available; otherwise
  // nothing is left of the call.
  lemma CompletionAlone(sha: Bytes -> Bytes, s: State, call: nat, file: Id, rows: seq<Chunk>)
    requires call !in s.uploads && call !in s.completions && AllThere(sha, s, file, rows)
    ensures var end := Run(sha, s, CompletionSteps(call, file, rows));
      var body := Concat(StoredBodies(s, rows));
      end == if sha(body) == s.files[file].sha256
             then s.(disk := s.disk[WholePath(file) := body],
                     files := s.files[file := s.files[file].(status := OnNode)])
             else s
  {
    hide Run, AfterPublish, AfterRecordCompletion, AfterPrepareCompletion, Concat, RowsOf;
    var prepare, copies := [PrepareCompletion(call, file, rows)], Copies(call, |rows|);
    RunOn(sha, s, prepare + copies + [PublishFile(call)], [RecordCompletion(call)]);
    RunOn(sha, s, prepare + copies, [PublishFile(call)]);
    RunOn(sha, s, prepare, copies);
    RunOne(sha, s, PrepareCompletion(call, file, rows));
    var started := s.(completions := s.completions[call := Completion(file, rows, [], Copying)]);
    CompletionStarts(sha, s, call, file, rows);
    CopiesGather(sha, s, call, file, rows, |rows|);
    var bodies := StoredBodies(s, rows);
    assert bodies[..|rows|] == bodies;
    var gathered := s.(completions := s.completions[call := Completion(file, rows, bodies, Copying)]);
    RunOne(sha, gathered, PublishFile(call));
    RunOne(sha, AfterPublish(sha, gathered, call), RecordCompletion(call));
    GatheredIsPublished(sha, s, call, file, rows, bodies);
  }

  lemma CompletionStarts(sha: Bytes -> Bytes, s: State, call: nat, file: Id, rows: seq<Chunk>)
    requires call !in s.uploads && call !in s.completions && AllThere(sha, s, file, rows)
    ensures AfterPrepareCompletion(s, call, file, rows)
         == s.(completions := s.completions[call := Completion(file, rows, [], Copying)])
  {
    hide RowsOf;
  }

  lemma GatheredIsPublished(
      sha: Bytes -> Bytes, s: State, call: nat, file: Id, rows: seq<Chunk>, bodies: seq<Bytes>)
    requires call !in s.completions && file in s.files && s.files[file].status == Uploading && |bodies| == |rows|
    ensures var gathered := s.(completions := s.completions[call := Completion(file, rows, bodies, Copying)]);
      AfterRecordCompletion(AfterPublish(sha, gathered, call), call) ==
        if sha(Concat(bodies)) == s.files[file].sha256
        then s.(disk := s.disk[WholePath(file) := Concat(bodies)],
                files := s.files[file := s.files[file].(status := OnNode)])
        else s
  {
    hide Concat;
    var gathered := s.(completions := s.completions[call := Completion(file, rows, bodies, Copying)]);
    assert gathered.completions - {call} == s.completions;
    var published := s.completions[call := Completion(file, rows, bodies, Published)];
    assert published - {call} == s.completions;
  }
}
