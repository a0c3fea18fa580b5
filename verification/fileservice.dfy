/**
 The upload service run by one caller at a time: UploadChunk and Complete as they are written, with
 exactly when they succeed and what they leave on disk and on record.
 */
module FileService {
  import opened Wrappers
  import opened Requests
  import opened ChunkMath
  import opened Tables
  import opened ChunkStore
  import opened Completions

  datatype Failure = InvalidOperation | ForbiddenOperation | ConflictingChunk | HashMismatch | MissingChunks

  ghost predicate Recorded(s: State, file: Id)
    requires file in s.files
  {
    forall i: nat :: i < s.files[file].chunkCount ==> ChunkKey(file, i) in s.chunks
  }

  datatype Sender = Sender(user: Id, device: Id)

  class ChunkService {
    const sha: Bytes -> Bytes
    // What the transfers say of a file: who sends it, and whether some receiver gets it through the node.
    const sender: Id -> Sender
    const routed: Id -> bool
    var disk: map<Path, Bytes>
    var files: map<Id, FileInfo>
    var chunks: map<ChunkKey, Chunk>

    function Snapshot(): State
      reads this
    {
      State(disk, files, chunks, map[], map[], {})
    }

    // Every recorded chunk is on disk as recorded, at a position its file has.
    ghost predicate Valid()
      reads this
    {
      UploadsSound(sha, Snapshot()) && forall f :: f in files ==> SoundInfo(files[f])
    }

    constructor (sha: Bytes -> Bytes, sender: Id -> Sender, routed: Id -> bool)
      ensures this.sha == sha && this.sender == sender && this.routed == routed
      ensures Valid() && Snapshot() == START
    {
      this.sha, this.sender, this.routed := sha, sender, routed;
      disk, files, chunks := map[], map[], map[];
      new;
      StartIsSound(sha);
    }

    // The caller is the sending user on the sending device.
    predicate Sends(session: Session, file: Id) {
      session.user == sender(file).user && session.device == Some(sender(file).device)
    }

    predicate MayUpload(session: Session, file: Id)
      reads this
    {
      file in files && files[file].status.Uploading? && Sends(session, file) && routed(file)
    }

    predicate MayComplete(session: Session, file: Id)
      reads this
    {
      file in files && !files[file].status.FileExpired? && Sends(session, file)
    }

    // What the service answers to one chunk: the stored chunk, or why not.
    function Answer(session: Session, file: Id, index: nat, digest: Bytes, body: Bytes): Result<Chunk, Failure>
      reads this
    {
      if file == "" || |digest| != 32 then Err(InvalidOperation)
      else if !MayUpload(session, file) then Err(ForbiddenOperation)
      else if ChunkKey(file, index) in chunks then
        if chunks[ChunkKey(file, index)].sha256 == digest then Ok(chunks[ChunkKey(file, index)])
        else Err(ConflictingChunk)
      else if SizeOf(Snapshot(), file, index) != Some(|body|) then Err(InvalidOperation)
      else if sha(body) != digest then Err(HashMismatch)
      else Ok(Chunk(index, |body|, digest, ChunkPath(file, index, digest)))
    }

    method UploadChunk(session: Session, file: Id, index: nat, digest: Bytes, body: Bytes)
      returns (r: Result<Chunk, Failure>)
      requires Valid()
      modifies this`disk, this`chunks
      ensures Valid()
      ensures r == old(Answer(session, file, index, digest, body))
      ensures r.Err? ==> disk == old(disk) && chunks == old(chunks)
      ensures r.Ok? ==>
        && chunks == old(chunks)[ChunkKey(file, index) := r.value]
        && r.value.sha256 == digest && r.value.path in disk
        && |disk[r.value.path]| == r.value.size && sha(disk[r.value.path]) == digest
        && (forall p :: p in old(disk) && p != r.value.path ==> p in disk && disk[p] == old(disk)[p])
      // At a position already recorded: the same digest gets the record again, another one a conflict.
      ensures ChunkKey(file, index) in old(chunks) && file != "" && |digest| == 32 ==>
        && disk == old(disk) && chunks == old(chunks)
        && r == if file !in files || files[file].status != Uploading
                   || session != Session(sender(file).user, Some(sender(file).device)) || !routed(file)
                then Err(ForbiddenOperation)
                else if chunks[ChunkKey(file, index)].sha256 == digest then Ok(chunks[ChunkKey(file, index)])
                else Err(ConflictingChunk)
      // At a free position: stored exactly when the sending device offers a chunk of an uploading file
      // some receiver gets from the node, of the length left for this position and with this digest.
      ensures ChunkKey(file, index) !in old(chunks) ==>
        (r.Ok? <==>
          && file != "" && |digest| == 32 && file in files && files[file].status == Uploading
          && session == Session(sender(file).user, Some(sender(file).device)) && routed(file)
          && index < files[file].chunkCount && sha(body) == digest
          && |body| == if index == files[file].chunkCount - 1 then files[file].size - index * files[file].chunkSize
                       else files[file].chunkSize)
      ensures r.Ok? ==> ChunkKey(file, index) in chunks && r.value == chunks[ChunkKey(file, index)]
    {
      if file == "" || |digest| != 32 {
        return Err(InvalidOperation);
      }
      if !MayUpload(session, file) {
        return Err(ForbiddenOperation);
      }
      var key := ChunkKey(file, index);
      assert key in chunks ==> RowSound(Snapshot(), key);
      if key in chunks {
        if chunks[key].sha256 == digest {
          assert chunks == chunks[key := chunks[key]];
          return Ok(chunks[key]);
        }
        return Err(ConflictingChunk);
      }
      var expected := SizeOf(Snapshot(), file, index);
      if expected != Some(|body|) {
        return Err(InvalidOperation);
      }
      if sha(body) != digest {
        return Err(HashMismatch);
      }
      var path := ChunkPath(file, index, digest);
      disk := disk[path := body];
      var chunk := Chunk(index, |body|, digest, path);
      chunks := chunks[key := chunk];
      StoredChunkIsSound(sha, old(Snapshot()), Snapshot(), key, body);
      return Ok(chunk);
    }

    // A sender that lost the answer offers the chunk again, and gets the record it would have got.
    method UploadAgain(session: Session, file: Id, index: nat, digest: Bytes, body: Bytes, again: Bytes)
      returns (first: Result<Chunk, Failure>, second: Result<Chunk, Failure>, ghost stored: State)
      requires Valid()
      modifies this`disk, this`chunks
      ensures Valid()
      ensures first.Ok? ==> second == first && Snapshot() == stored
      ensures first.Ok? ==>
        ChunkKey(file, index) in stored.chunks && stored.chunks[ChunkKey(file, index)] == first.value
    {
      first := UploadChunk(session, file, index, digest, body);
      stored := Snapshot();
      second := UploadChunk(session, file, index, digest, again);
    }

    // The rows of a file in index order.
    method ListRows(file: Id) returns (rows: seq<Chunk>)
      requires Valid() && file in files
      ensures RowsOf(Snapshot(), file, rows)
    {
      var s := Snapshot();
      rows := [];
      var count := files[file].chunkCount;
      CountBounds(files[file].size, files[file].chunkSize);
      for i := 0 to count
        invariant forall j :: 0 <= j < |rows| ==>
          rows[j].index < i && ChunkKey(file, rows[j].index) in chunks && chunks[ChunkKey(file,
              rows[j].index)] == rows[j]
        invariant forall k :: k in chunks && k.file == file && k.index < i ==> chunks[k] in rows
        invariant forall a, b :: 0 <= a < b < |rows| ==> rows[a].index < rows[b].index
      {
        if ChunkKey(file, i) in chunks {
          assert RowSound(s, ChunkKey(file, i));
          rows := rows + [chunks[ChunkKey(file, i)]];
        }
      }
      forall k | k in chunks && k.file == file
        ensures chunks[k] in rows
      {
        assert RowSound(s, k);
      }
    }

    // The rows' bytes in order, each checked against its row; a row out of place or damaged stops it.
    method Assemble(rows: seq<Chunk>) returns (r: Result<Bytes, Failure>)
      ensures r.Ok? <==> forall i :: 0 <= i < |rows| ==> Intact(sha, disk, rows[i], i)
      ensures r.Ok? ==> r.value == Concat(PiecesOf(disk, rows))
    {
      var assembled: Bytes := [];
      ghost var pieces := PiecesOf(disk, rows);
      for i := 0 to |rows|
        invariant assembled == Concat(pieces[..i])
        invariant forall j :: 0 <= j < i ==> Intact(sha, disk, rows[j], j)
      {
        if rows[i].index != i || rows[i].path !in disk {
          return Err(MissingChunks);
        }
        assembled := assembled + disk[rows[i].path];
        assert pieces[..i + 1][..i] == pieces[..i];
        if |disk[rows[i].path]| != rows[i].size || sha(disk[rows[i].path]) != rows[i].sha256 {
          return Err(HashMismatch);
        }
      }
      assert pieces[..|rows|] == pieces;
      return Ok(assembled);
    }

    // Complete succeeds exactly when the sender asks and the file is already available, or every chunk
    // is on record and their concatenation has the declared digest; then that concatenation is the
    // published file, of exactly the declared length.
    method Complete(session: Session, file: Id) returns (r: Result<FileInfo, Failure>)
      requires Valid()
      modifies this`disk, this`files
      ensures r.Ok? <==> old(file != "" && file in files
        && session == Session(sender(file).user, Some(sender(file).device))
        && (files[file].status == OnNode
            || (files[file].status == Uploading && Recorded(Snapshot(), file)
                && sha(Concat(BodiesOf(Snapshot(), file))) == files[file].sha256)))
      ensures r.Err? ==> r.error == old(
        if file == "" then InvalidOperation
        else if file !in files || files[file].status == FileExpired
                || session != Session(sender(file).user, Some(sender(file).device)) then ForbiddenOperation
        else if !Recorded(Snapshot(), file) then MissingChunks
        else HashMismatch)
      ensures r.Err? || old(files[file].status.OnNode?) ==> disk == old(disk) && files == old(files)
      ensures r.Ok? ==> file in files && r.value == files[file]
      ensures r.Ok? && !old(files[file].status.OnNode?) ==>
        && disk == old(disk)[WholePath(file) := old(Concat(BodiesOf(Snapshot(), file)))]
        && files == old(files)[file := old(files[file]).(status := OnNode)]
        && |disk[WholePath(file)]| == files[file].size && sha(disk[WholePath(file)]) == files[file].sha256
    {
      if file == "" {
        return Err(InvalidOperation);
      }
      if !MayComplete(session, file) {
        return Err(ForbiddenOperation);
      }
      if files[file].status.OnNode? {
        return Ok(files[file]);
      }
      var rows := ListRows(file);
      ghost var s := Snapshot();
      RowsFillPositions(s, file, rows);
      if |rows| != files[file].chunkCount {
        return Err(MissingChunks);
      }
      RecordedRowsAreIntact(sha, s, file, rows);
      var assembled := Assemble(rows);
      // Every piece is intact, so assembly cannot have failed.
      assert assembled.Ok?;
      if sha(assembled.value) != files[file].sha256 {
        return Err(HashMismatch);
      }
      BodiesFit(sha, s, file);
      disk := disk[WholePath(file) := assembled.value];
      files := files[file := files[file].(status := OnNode)];
      return Ok(files[file]);
    }
  }

  predicate Intact(sha: Bytes -> Bytes, disk: map<Path, Bytes>, row: Chunk, i: int) {
    && row.index == i && row.path in disk
    && |disk[row.path]| == row.size && sha(disk[row.path]) == row.sha256
  }

  ghost function PiecesOf(disk: map<Path, Bytes>, rows: seq<Chunk>): seq<Bytes> {
    seq(|rows|, i requires 0 <= i < |rows| => if rows[i].path in disk then disk[rows[i].path] else [])
  }

  lemma StoredChunkIsSound(sha: Bytes -> Bytes, s: State, next: State, key: ChunkKey, body: Bytes)
    requires UploadsSound(sha, s) && s.uploads == map[]
    requires SizeOf(s, key.file, key.index) == Some(|body|)
    requires var path := ChunkPath(key.file, key.index, sha(body));
      next == s.(disk := s.disk[path := body], chunks := s.chunks[key := Chunk(key.index, |body|, sha(body), path)])
    ensures UploadsSound(sha, next)
  {
    assert forall f, i :: SizeOf(next, f, i) == SizeOf(s, f, i);
    assert forall k :: k in s.chunks ==> RowSound(s, k);
  }

  // Sorted distinct indexes below the count that are as many as the count are 0, 1, 2, ...
  lemma RowsFillPositions(s: State, file: Id, rows: seq<Chunk>)
    requires RowsOf(s, file, rows) && file in s.files && s.files[file].chunkCount >= 0
    requires forall k :: k in s.chunks ==> RowSound(s, k)
    ensures |rows| == s.files[file].chunkCount <==> Recorded(s, file)
    ensures |rows| == s.files[file].chunkCount ==> forall i :: 0 <= i < |rows| ==> rows[i].index == i
  {
    var count := s.files[file].chunkCount;
    forall i | 0 <= i < |rows|
      ensures i <= rows[i].index <= count - |rows| + i
    {
      assert RowSound(s, ChunkKey(file, rows[i].index));
      IndexAtLeast(rows, i);
      forall j | 0 <= j < |rows|
        ensures rows[j].index < count
      {
        assert RowSound(s, ChunkKey(file, rows[j].index));
      }
      IndexAtMost(rows, count, i);
    }
    if |rows| == count {
      forall i: nat | i < count
        ensures ChunkKey(file, i) in s.chunks
      {
        assert rows[i].index == i;
      }
    }
    if Recorded(s, file) {
      forall i: nat | i < count
        ensures HasIndex(rows, i)
      {
        assert RowSound(s, ChunkKey(file, i));
        var j :| 0 <= j < |rows| && rows[j] == s.chunks[ChunkKey(file, i)];
      }
      EveryIndexPresent(rows, count);
      assert |rows| > 0 ==> 0 <= rows[0].index;
    }
  }

  lemma {:induction false} IndexAtLeast(rows: seq<Chunk>, i: nat)
    requires forall a, b :: 0 <= a < b < |rows| ==> rows[a].index < rows[b].index
    requires i < |rows|
    ensures i <= rows[i].index
  {
    if i > 0 {
      IndexAtLeast(rows, i - 1);
    }
  }

  lemma {:induction false} IndexAtMost(rows: seq<Chunk>, count: int, i: nat)
    requires forall a, b :: 0 <= a < b < |rows| ==> rows[a].index < rows[b].index
    requires forall a :: 0 <= a < |rows| ==> rows[a].index < count
    requires i < |rows|
    ensures rows[i].index <= count - |rows| + i
    decreases |rows| - i
  {
    if i + 1 < |rows| {
      IndexAtMost(rows, count, i + 1);
    }
  }

  predicate HasIndex(rows: seq<Chunk>, i: nat) {
    exists j :: 0 <= j < |rows| && rows[j].index == i
  }

  lemma {:induction false} EveryIndexPresent(rows: seq<Chunk>, count: nat)
    requires forall a, b :: 0 <= a < b < |rows| ==> rows[a].index < rows[b].index
    requires forall i: nat :: i < count ==> HasIndex(rows, i)
    ensures count <= |rows|
  {
    if count > 0 {
      assert HasIndex(rows, count - 1);
      var j :| 0 <= j < |rows| && rows[j].index == count - 1;
      forall i: nat | i < count - 1
        ensures HasIndex(rows[..j], i)
      {
        assert HasIndex(rows, i);
        var at :| 0 <= at < |rows| && rows[at].index == i;
        assert at < j && rows[..j][at] == rows[at];
      }
      EveryIndexPresent(rows[..j], count - 1);
    }
  }

  lemma RecordedRowsAreIntact(sha: Bytes -> Bytes, s: State, file: Id, rows: seq<Chunk>)
    requires UploadsSound(sha, s) && file in s.files && file !in s.picked
    requires RowsOf(s, file, rows) && |rows| == s.files[file].chunkCount
    requires forall i :: 0 <= i < |rows| ==> rows[i].index == i
    ensures forall i :: 0 <= i < |rows| ==> Intact(sha, s.disk, rows[i], i)
    ensures PiecesOf(s.disk, rows) == BodiesOf(s, file)
  {
    forall i | 0 <= i < |rows|
      ensures Intact(sha, s.disk, rows[i], i) && PiecesOf(s.disk, rows)[i] == BodiesOf(s, file)[i]
    {
      assert ChunkKey(file, rows[i].index) in s.chunks && rows[i].index == i;
      assert RowSound(s, ChunkKey(file, i));
    }
  }

  lemma BodiesFit(sha: Bytes -> Bytes, s: State, file: Id)
    requires UploadsSound(sha, s) && file in s.files && SoundInfo(s.files[file]) && file !in s.picked
    requires Recorded(s, file)
    ensures |Concat(BodiesOf(s, file))| == s.files[file].size
  {
    CountBounds(s.files[file].size, s.files[file].chunkSize);
    var bodies := BodiesOf(s, file);
    forall j | 0 <= j < |bodies|
      ensures ChunkKey(file, j) in s.chunks
      ensures |bodies[j]| == s.chunks[ChunkKey(file, j)].size && sha(bodies[j]) == s.chunks[ChunkKey(file, j)].sha256
    {
      assert RowSound(s, ChunkKey(file, j));
    }
    ConcatLength(sha, s, file, bodies);
    ExpectedSizesAddUp(s.files[file].size, s.files[file].chunkSize);
  }
}
