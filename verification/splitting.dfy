/**
 The two programs that cut a file into chunks, the manifest builder and the browser's encryption, and
 the two that check or undo it. Both have to agree with the arithmetic the server enforces.
 */
module Splitting {
  import opened Wrappers
  import opened Numbers
  import opened Requests
  import opened ChunkMath
  import ChunkStore

  // The largest value of the platform's int, which bounds the read buffer.
  const MAX_INT: int := INT64_MAX

  const PLAINTEXT_CHUNK: nat := 8 * 1024 * 1024
  const NONCE: nat := 12
  const TAG: nat := 16
  const OVERHEAD: nat := NONCE + TAG

  // ---- cutting ----

  function Cut(data: Bytes, n: int): (pieces: seq<Bytes>)
    requires n > 0
    ensures pieces == [] <==> data == []
    ensures forall i :: 0 <= i < |pieces| ==> 0 < |pieces[i]| <= n
    ensures forall i :: 0 <= i < |pieces| - 1 ==> |pieces[i]| == n
    decreases |data|
  {
    if |data| == 0 then []
    else if |data| <= n then [data]
    else [data[..n]] + Cut(data[n..], n)
  }

  lemma {:induction false} CutCount(data: Bytes, n: int)
    requires n > 0
    ensures |Cut(data, n)| == ChunkCount(|data|, n)
    decreases |data|
  {
    if |data| > n {
      CutCount(data[n..], n);
      QuotientStep(|data|, n);
    }
  }

  lemma QuotientStep(size: int, n: int)
    requires n > 0 && size >= n
    ensures ChunkCount(size, n) == 1 + ChunkCount(size - n, n)
  {
    CountBounds(size, n);
    CountBounds(size - n, n);
    var c := ChunkCount(size - n, n);
    assert (c + 1) * n == c * n + n && (c - 1) * n == c * n - n;
    CountUnique(size, n, ChunkCount(size, n), c + 1);
  }

  lemma {:induction false} ConcatPrepend(first: Bytes, rest: seq<Bytes>)
    ensures ChunkStore.Concat([first] + rest) == first + ChunkStore.Concat(rest)
  {
    if rest == [] {
      assert ([first] + rest)[..0] == [];
    } else {
      var n := |rest| - 1;
      ConcatPrepend(first, rest[..n]);
      assert ([first] + rest)[..n + 1] == [first] + rest[..n];
      assert first + ChunkStore.Concat(rest[..n]) + rest[n] == first + (ChunkStore.Concat(rest[..n]) + rest[n]);
    }
  }

  lemma {:induction false} CutLosesNothing(data: Bytes, n: int)
    requires n > 0
    ensures ChunkStore.Concat(Cut(data, n)) == data
    decreases |data|
  {
    if |data| > n {
      CutLosesNothing(data[n..], n);
      ConcatPrepend(data[..n], Cut(data[n..], n));
      assert data[..n] + data[n..] == data;
    } else if |data| > 0 {
      assert Cut(data, n)[..0] == [];
    }
  }

  // Full pieces with a last one that may be shorter are what cutting their concatenation gives back.
  lemma {:induction false} CutUndoesConcat(pieces: seq<Bytes>, n: int)
    requires n > 0
    requires forall i :: 0 <= i < |pieces| ==> 0 < |pieces[i]| <= n
    requires forall i :: 0 <= i < |pieces| - 1 ==> |pieces[i]| == n
    ensures Cut(ChunkStore.Concat(pieces), n) == pieces
  {
    if pieces != [] {
      var rest := pieces[1..];
      assert pieces == [pieces[0]] + rest;
      ConcatPrepend(pieces[0], rest);
      CutUndoesConcat(rest, n);
      var data := ChunkStore.Concat(pieces);
      if rest == [] {
        assert data == pieces[0];
      } else {
        assert |pieces[0]| == n;
        assert data[..n] == pieces[0] && data[n..] == ChunkStore.Concat(rest);
        assert ChunkStore.Concat(rest) != [] by {
          CutLosesNothing(ChunkStore.Concat(rest), n);
        }
      }
    }
  }

  // The pieces have exactly the sizes the upload service expects.
  lemma PiecesHaveExpectedSizes(pieces: seq<Bytes>, n: int)
    requires n > 0
    requires forall i :: 0 <= i < |pieces| ==> 0 < |pieces[i]| <= n
    requires forall i :: 0 <= i < |pieces| - 1 ==> |pieces[i]| == n
    ensures var size := |ChunkStore.Concat(pieces)|;
      && |pieces| == ChunkCount(size, n)
      && forall i: nat :: i < |pieces| ==> ExpectedChunkSize(size, n, |pieces|, i) == Some(|pieces[i]|)
  {
    CutUndoesConcat(pieces, n);
    CutCount(ChunkStore.Concat(pieces), n);
    if pieces != [] {
      FullPieces(pieces[..|pieces| - 1], n);
    }
  }

  lemma {:induction false} FullPieces(pieces: seq<Bytes>, n: int)
    requires forall i :: 0 <= i < |pieces| ==> |pieces[i]| == n
    ensures |ChunkStore.Concat(pieces)| == |pieces| * n
  {
    if pieces != [] {
      FullPieces(pieces[..|pieces| - 1], n);
      assert |pieces| * n == (|pieces| - 1) * n + n;
    }
  }

  // One turn of either splitter's loop: the piece from offset to end, then the cut of the rest.
  lemma CutStep(data: Bytes, n: int, pieces: seq<Bytes>, offset: nat, end: nat)
    requires n > 0 && offset < |data| && end == Min(offset + n, |data|)
    requires pieces + Cut(data[offset..], n) == Cut(data, n)
    ensures (pieces + [data[offset..end]]) + Cut(data[end..], n) == Cut(data, n)
  {
    assert end < |data| ==> data[offset..][n..] == data[end..];
    assert data[offset..][..end - offset] == data[offset..end];
    if end == |data| {
      assert data[offset..] == data[offset..end] && data[end..] == [];
    }
    var left := Cut(data[end..], n);
    assert Cut(data[offset..], n) == [data[offset..end]] + left;
    assert pieces + ([data[offset..end]] + left) == (pieces + [data[offset..end]]) + left;
  }

  // ---- the manifest builder ----

  datatype ManifestChunk = ManifestChunk(index: int, size: int, sha256: Bytes)

  datatype Manifest = Manifest(size: int, sha256: Bytes, chunkSize: int, chunks: seq<ManifestChunk>)

  datatype SplitError = InvalidChunkSize | ReadFailed

  function ChunksOf(sha: Bytes -> Bytes, pieces: seq<Bytes>): seq<ManifestChunk> {
    seq(|pieces|, i requires 0 <= i < |pieces| => ManifestChunk(i, |pieces[i]|, sha(pieces[i])))
  }

  lemma ChunksAppend(sha: Bytes -> Bytes, pieces: seq<Bytes>, piece: Bytes)
    ensures ChunksOf(sha, pieces + [piece])
         == ChunksOf(sha, pieces) + [ManifestChunk(|pieces|, |piece|, sha(piece))]
  {
  }

  // The reader hands out data and then ends, or fails if it is broken.
  method BuildManifest(sha: Bytes -> Bytes, data: Bytes, broken: bool, chunkSize: int)
    returns (r: Result<Manifest, SplitError>)
    ensures chunkSize <= 0 || chunkSize > MAX_INT ==> r == Err(InvalidChunkSize)
    ensures 0 < chunkSize <= MAX_INT && broken ==> r == Err(ReadFailed)
    ensures 0 < chunkSize <= MAX_INT && !broken ==>
      r == Ok(Manifest(|data|, sha(data), chunkSize, ChunksOf(sha, Cut(data, chunkSize))))
  {
    if chunkSize <= 0 {
      return Err(InvalidChunkSize);
    }
    if chunkSize > MAX_INT {
      return Err(InvalidChunkSize);
    }
    var hashed: Bytes, size, chunks: seq<ManifestChunk> := [], 0, [];
    ghost var pieces: seq<Bytes> := [];
    var index, more := 0, true;
    while more
      invariant 0 <= size <= |data| && hashed == data[..size]
      invariant |pieces| == index
      invariant chunks == ChunksOf(sha, pieces)
      invariant pieces + Cut(data[size..], chunkSize) == Cut(data, chunkSize)
      invariant !more ==> size == |data| && !broken
      decreases |data| - size, more
    {
      var read := Min(chunkSize, |data| - size);
      var short := read < chunkSize;
      if short && broken {
        return Err(ReadFailed);
      }
      if read > 0 {
        var piece := data[size..size + read];
        hashed := hashed + piece;
        CutStep(data, chunkSize, pieces, size, size + read);
        ChunksAppend(sha, pieces, piece);
        chunks := chunks + [ManifestChunk(index, read, sha(piece))];
        pieces := pieces + [piece];
        size := size + read;
        index := index + 1;
      }
      if short {
        more := false;
      }
    }
    assert data[size..] == [] && data[..size] == data;
    assert pieces == Cut(data, chunkSize);
    return Ok(Manifest(size, sha(hashed), chunkSize, chunks));
  }

  predicate VerifyChunk(sha: Bytes -> Bytes, m: Manifest, index: int, data: Bytes) {
    && 0 <= index < |m.chunks|
    && m.chunks[index].index == index && m.chunks[index].size == |data| && m.chunks[index].sha256 == sha(data)
  }

  predicate VerifyFile(sha: Bytes -> Bytes, m: Manifest, data: Bytes) {
    |data| == m.size && sha(data) == m.sha256
  }

  function ManifestOf(sha: Bytes -> Bytes, data: Bytes, chunkSize: int): Manifest
    requires chunkSize > 0
  {
    Manifest(|data|, sha(data), chunkSize, ChunksOf(sha, Cut(data, chunkSize)))
  }

  // A manifest names the count and the sizes the server demands, for every file and chunk size.
  lemma ManifestMeetsTheServer(sha: Bytes -> Bytes, data: Bytes, chunkSize: int)
    requires chunkSize > 0
    ensures var m := ManifestOf(sha, data, chunkSize);
      && |m.chunks| == ChunkCount(m.size, m.chunkSize)
      && forall i: nat :: i < |m.chunks| ==>
        ExpectedChunkSize(m.size, m.chunkSize, |m.chunks|, i) == Some(m.chunks[i].size)
  {
    CutLosesNothing(data, chunkSize);
    PiecesHaveExpectedSizes(Cut(data, chunkSize), chunkSize);
  }

  // It accepts its own file and pieces, and nothing of another length, position or digest.
  lemma ManifestAcceptsItsPieces(sha: Bytes -> Bytes, data: Bytes, chunkSize: int, index: int, body: Bytes)
    requires chunkSize > 0
    ensures var m, pieces := ManifestOf(sha, data, chunkSize), Cut(data, chunkSize);
      && (VerifyChunk(sha, m, index, body) <==>
        0 <= index < |pieces| && |body| == |pieces[index]| && sha(body) == sha(pieces[index]))
      && (0 <= index < |pieces| ==> VerifyChunk(sha, m, index, pieces[index]))
      && VerifyFile(sha, m, data)
  {
  }

  // Pieces that all pass, one per position, make a file of the declared length.
  lemma VerifiedPiecesHaveTheLength(sha: Bytes -> Bytes, data: Bytes, chunkSize: int, bodies: seq<Bytes>)
    requires chunkSize > 0
    requires |bodies| == |Cut(data, chunkSize)|
    requires forall i :: 0 <= i < |bodies| ==> VerifyChunk(sha, ManifestOf(sha, data, chunkSize), i, bodies[i])
    ensures |ChunkStore.Concat(bodies)| == |data|
  {
    var pieces := Cut(data, chunkSize);
    CutLosesNothing(data, chunkSize);
    SameSizesSameLength(bodies, pieces);
  }

  lemma {:induction false} SameSizesSameLength(a: seq<Bytes>, b: seq<Bytes>)
    requires |a| == |b| && forall i :: 0 <= i < |a| ==> |a[i]| == |b[i]|
    ensures |ChunkStore.Concat(a)| == |ChunkStore.Concat(b)|
  {
    if a != [] {
      SameSizesSameLength(a[..|a| - 1], b[..|b| - 1]);
    }
  }

  // ---- the browser ----

  // What the model knows of the cipher: the ciphertext is a tag longer, and opening undoes sealing.
  ghost predicate Aead(seal: (Bytes, Bytes) -> Bytes, open: (Bytes, Bytes) -> Option<Bytes>) {
    && (forall n: Bytes, p: Bytes :: |seal(n, p)| == |p| + TAG)
    && (forall n: Bytes, p: Bytes :: open(n, seal(n, p)) == Some(p))
  }

  // One encrypted piece: the nonce and then the ciphertext.
  function SealPiece(seal: (Bytes, Bytes) -> Bytes, nonce: Bytes, plain: Bytes): Bytes {
    nonce + seal(nonce, plain)
  }

  function SealAll(seal: (Bytes, Bytes) -> Bytes, nonces: nat -> Bytes, plains: seq<Bytes>): seq<Bytes> {
    seq(|plains|, i requires 0 <= i < |plains| => SealPiece(seal, nonces(i), plains[i]))
  }

  function Digit(n: nat): char
    requires n < 10
  {
    "0123456789"[n]
  }

  function Decimal(n: nat): (s: string)
    ensures s != [] && forall c :: c in s ==> '0' <= c <= '9'
  {
    if n < 10 then [Digit(n)] else Decimal(n / 10) + [Digit(n % 10)]
  }

  function EncryptedName(index: nat): string {
    "encrypted-" + Decimal(index) + ".nxd"
  }

  // The upload record of one encrypted file.
  function RecordOf(sha: Bytes -> Bytes, index: nat, pieces: seq<Bytes>): File {
    var whole := ChunkStore.Concat(pieces);
    File(EncryptedName(index), |whole|, sha(whole), PLAINTEXT_CHUNK + OVERHEAD, |pieces|)
  }

  // Typed-array set: the source's bytes land at the position, the rest of the buffer stays.
  method CopyInto(target: array<byte>, source: Bytes, position: nat)
    requires position + |source| <= target.Length
    modifies target
    ensures target[..] == old(target[..position]) + source + old(target[position + |source|..])
  {
    for i := 0 to |source|
      invariant target[..position] == old(target[..position])
      invariant target[position..position + i] == source[..i]
      invariant target[position + i..] == old(target[position + i..])
    {
      target[position + i] := source[i];
      assert target[position..position + i + 1] == source[..i] + [source[i]];
    }
    assert target[..] == target[..position] + target[position..position + |source|] + target[position + |source|..];
  }

  method Join(parts: seq<Bytes>) returns (complete: array<byte>)
    ensures fresh(complete) && complete[..] == ChunkStore.Concat(parts)
  {
    var total := 0;
    for i := 0 to |parts|
      invariant total == |ChunkStore.Concat(parts[..i])|
    {
      assert parts[..i + 1][..i] == parts[..i];
      total := total + |parts[i]|;
    }
    assert parts[..|parts|] == parts;
    complete := new byte[total](_ => 0);
    var position := 0;
    for i := 0 to |parts|
      invariant position == |ChunkStore.Concat(parts[..i])|
      invariant position + |ChunkStore.Concat(parts[i..])| == total == complete.Length
      invariant complete[..position] == ChunkStore.Concat(parts[..i])
    {
      assert parts[i..] == [parts[i]] + parts[i + 1..];
      ConcatPrepend(parts[i], parts[i + 1..]);
      ghost var before := complete[..position];
      CopyInto(complete, parts[i], position);
      assert complete[..position + |parts[i]|] == before + parts[i];
      assert parts[..i + 1][..i] == parts[..i];
      position := position + |parts[i]|;
    }
    assert parts[|parts|..] == [];
    assert complete[..position] == complete[..];
  }

  lemma SealAppend(seal: (Bytes, Bytes) -> Bytes, nonces: nat -> Bytes, plains: seq<Bytes>, plain: Bytes)
    ensures SealAll(seal, nonces, plains + [plain])
         == SealAll(seal, nonces, plains) + [SealPiece(seal, nonces(|plains|), plain)]
  {
  }

  method EncryptFile(sha: Bytes -> Bytes, seal: (Bytes, Bytes) -> Bytes, nonces: nat -> Bytes, index: nat, data: Bytes)
    returns (pieces: seq<Bytes>, record: File)
    ensures pieces == SealAll(seal, nonces, Cut(data, PLAINTEXT_CHUNK))
    ensures record == RecordOf(sha, index, pieces)
  {
    pieces := [];
    ghost var plains: seq<Bytes> := [];
    var offset := 0;
    while offset < |data|
      invariant pieces == SealAll(seal, nonces, plains)
      invariant plains + Cut(data[Min(offset, |data|)..], PLAINTEXT_CHUNK) == Cut(data, PLAINTEXT_CHUNK)
    {
      var end := Min(offset + PLAINTEXT_CHUNK, |data|);
      var plaintext := data[offset..end];
      var nonce := nonces(|pieces|);
      var ciphertext := seal(nonce, plaintext);
      CutStep(data, PLAINTEXT_CHUNK, plains, offset, end);
      SealAppend(seal, nonces, plains, plaintext);
      pieces := pieces + [nonce + ciphertext];
      plains := plains + [plaintext];
      offset := offset + PLAINTEXT_CHUNK;
    }
    assert plains == Cut(data, PLAINTEXT_CHUNK);
    var complete := Join(pieces);
    record := File(EncryptedName(index), complete.Length, sha(complete[..]), PLAINTEXT_CHUNK + OVERHEAD, |pieces|);
  }

  datatype EncryptedFile = EncryptedFile(pieces: seq<Bytes>, record: File)

  function EncryptedOf(
      sha: Bytes -> Bytes, seal: (Bytes, Bytes) -> Bytes, nonces: nat -> Bytes, index: nat,
          data: Bytes): EncryptedFile {
    var pieces := SealAll(seal, nonces, Cut(data, PLAINTEXT_CHUNK));
    EncryptedFile(pieces, RecordOf(sha, index, pieces))
  }

  // One content key for all files; every piece of every file draws its own nonce.
  method EncryptFiles(
      sha: Bytes -> Bytes, seal: (Bytes, Bytes) -> Bytes, nonces: nat -> (nat -> Bytes), files: seq<Bytes>)
    returns (encrypted: seq<EncryptedFile>)
    ensures |encrypted| == |files|
    ensures forall i :: 0 <= i < |files| ==> encrypted[i] == EncryptedOf(sha, seal, nonces(i), i, files[i])
  {
    encrypted := [];
    for i := 0 to |files|
      invariant |encrypted| == i
      invariant forall j :: 0 <= j < i ==> encrypted[j] == EncryptedOf(sha, seal, nonces(j), j, files[j])
    {
      var pieces, record := EncryptFile(sha, seal, nonces(i), i, files[i]);
      encrypted := encrypted + [EncryptedFile(pieces, record)];
    }
  }

  datatype DecryptError = InvalidEncryptedFile | WrongKeyOrDamaged

  predicate Opens(open: (Bytes, Bytes) -> Option<Bytes>, piece: Bytes) {
    |piece| >= OVERHEAD && open(piece[..NONCE], piece[NONCE..]).Some?
  }

  method DecryptFileChunks(open: (Bytes, Bytes) -> Option<Bytes>, pieces: seq<Bytes>)
    returns (r: Result<seq<Bytes>, DecryptError>)
    ensures r.Ok? <==> forall i :: 0 <= i < |pieces| ==> Opens(open, pieces[i])
    ensures r.Ok? ==>
      && |r.value| == |pieces|
      && forall i :: 0 <= i < |pieces| ==> open(pieces[i][..NONCE], pieces[i][NONCE..]) == Some(r.value[i])
  {
    var plaintext: seq<Bytes> := [];
    for i := 0 to |pieces|
      invariant |plaintext| == i
      invariant forall j :: 0 <= j < i ==>
        Opens(open, pieces[j]) && open(pieces[j][..NONCE], pieces[j][NONCE..]) == Some(plaintext[j])
    {
      if |pieces[i]| < OVERHEAD {
        return Err(InvalidEncryptedFile);
      }
      var plain := open(pieces[i][..NONCE], pieces[i][NONCE..]);
      if plain.None? {
        return Err(WrongKeyOrDamaged);
      }
      plaintext := plaintext + [plain.value];
    }
    return Ok(plaintext);
  }

  lemma SealedSizes(seal: (Bytes, Bytes) -> Bytes, open: (Bytes, Bytes) -> Option<Bytes>, nonces: nat -> Bytes,
      data: Bytes)
    requires Aead(seal, open) && forall i :: |nonces(i)| == NONCE
    ensures var pieces := SealAll(seal, nonces, Cut(data, PLAINTEXT_CHUNK));
      && (forall i :: 0 <= i < |pieces| ==> 0 < |pieces[i]| <= PLAINTEXT_CHUNK + OVERHEAD)
      && (forall i :: 0 <= i < |pieces| - 1 ==> |pieces[i]| == PLAINTEXT_CHUNK + OVERHEAD)
  {
    hide ChunkCount;
    var plains := Cut(data, PLAINTEXT_CHUNK);
    var pieces := SealAll(seal, nonces, plains);
    forall i | 0 <= i < |pieces|
      ensures |pieces[i]| == |plains[i]| + OVERHEAD
    {
      assert pieces[i] == nonces(i) + seal(nonces(i), plains[i]);
    }
  }

  // The server accepts the record the browser declares and every piece it then uploads.
  lemma EncryptedFileIsAccepted(
      sha: Bytes -> Bytes, seal: (Bytes, Bytes) -> Bytes, open: (Bytes, Bytes) -> Option<Bytes>,
      nonces: nat -> Bytes, index: nat, data: Bytes)
    requires Aead(seal, open) && forall i :: |nonces(i)| == NONCE
    requires forall b :: |sha(b)| == 32
    ensures var pieces := SealAll(seal, nonces, Cut(data, PLAINTEXT_CHUNK));
      var record := RecordOf(sha, index, pieces);
      && ValidFile(record)
      && forall i: nat :: i < |pieces| ==>
        ExpectedChunkSize(record.size, record.chunkSize, record.chunkCount, i) == Some(|pieces[i]|)
  {
    var pieces := SealAll(seal, nonces, Cut(data, PLAINTEXT_CHUNK));
    SealedSizes(seal, open, nonces, data);
    PiecesHaveExpectedSizes(pieces, PLAINTEXT_CHUNK + OVERHEAD);
    NameIsValid(index);
  }

  lemma NameIsValid(index: nat)
    ensures var name := EncryptedName(index);
      && name != "" && Trimmed(name) && '/' !in name && '\\' !in name && '\0' !in name
      && name != "." && name != ".."
  {
    var name := EncryptedName(index);
    assert name[0] == 'e' && name[|name| - 1] == 'd';
    assert forall c :: c in name ==> c in "encrypted-" || c in Decimal(index) || c in ".nxd";
  }

  // Decrypting the uploaded pieces restores the file, whatever nonces were drawn.
  lemma DecryptUndoesEncrypt(
      seal: (Bytes, Bytes) -> Bytes, open: (Bytes, Bytes) -> Option<Bytes>,
      nonces: nat -> Bytes, data: Bytes, plaintext: seq<Bytes>)
    requires Aead(seal, open) && forall i :: |nonces(i)| == NONCE
    ensures var pieces := SealAll(seal, nonces, Cut(data, PLAINTEXT_CHUNK));
      && (forall i :: 0 <= i < |pieces| ==> Opens(open, pieces[i]))
      && (|plaintext| == |pieces|
          && (forall i :: 0 <= i < |pieces| ==> open(pieces[i][..NONCE], pieces[i][NONCE..]) == Some(plaintext[i]))
          ==> ChunkStore.Concat(plaintext) == data)
  {
    var plains := Cut(data, PLAINTEXT_CHUNK);
    var pieces := SealAll(seal, nonces, plains);
    forall i | 0 <= i < |pieces|
      ensures Opens(open, pieces[i]) && open(pieces[i][..NONCE], pieces[i][NONCE..]) == Some(plains[i])
    {
      assert pieces[i] == nonces(i) + seal(nonces(i), plains[i]);
      assert pieces[i][..NONCE] == nonces(i) && pieces[i][NONCE..] == seal(nonces(i), plains[i]);
    }
    if |plaintext| == |pieces|
       && forall i :: 0 <= i < |pieces| ==> open(pieces[i][..NONCE], pieces[i][NONCE..]) == Some(plaintext[i]) {
      assert plaintext == plains;
      CutLosesNothing(data, PLAINTEXT_CHUNK);
    }
  }

  // The two splitters meet: a manifest of the published ciphertext has the uploaded pieces.
  lemma ManifestOfPublishedFileHasThePieces(
      sha: Bytes -> Bytes, seal: (Bytes, Bytes) -> Bytes, open: (Bytes, Bytes) -> Option<Bytes>,
      nonces: nat -> Bytes, index: nat, data: Bytes)
    requires Aead(seal, open) && forall i :: |nonces(i)| == NONCE
    ensures var pieces := SealAll(seal, nonces, Cut(data, PLAINTEXT_CHUNK));
      var record := RecordOf(sha, index, pieces);
      ManifestOf(sha, ChunkStore.Concat(pieces), record.chunkSize)
        == Manifest(record.size, record.sha256, record.chunkSize, ChunksOf(sha, pieces))
  {
    SealedSizes(seal, open, nonces, data);
    CutUndoesConcat(SealAll(seal, nonces, Cut(data, PLAINTEXT_CHUNK)), PLAINTEXT_CHUNK + OVERHEAD);
  }
}
