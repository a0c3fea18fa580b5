/**
 Validating a folder manifest: every check of every entry in order, with the running totals. Case
 folding is a parameter; a string stands for its bytes.
 */
module FolderManifest {
  import opened Wrappers
  import opened Numbers
  import opened Text
  import opened FolderPaths

  datatype EntryType = Directory | RegularFile | UnknownType

  datatype Entry = Entry(
    path: string, kind: EntryType, size: int, modifiedAt: int, sha256: string, mimeType: string, fileId: string)

  datatype Manifest = Manifest(version: int, rootName: string, entries: seq<Entry>)

  datatype Limits = Limits(maxEntries: int, maxPathBytes: int, maxManifestBytes: int, maxTotalBytes: int, maxDepth: int)

  function Positive(value: int, fallback: int): int {
    if value <= 0 then fallback else value
  }

  function Normalized(limits: Limits): Limits {
    Limits(
      Positive(limits.maxEntries, 100000),
      Positive(limits.maxPathBytes, 1024),
      Positive(limits.maxManifestBytes, 32 * 1024 * 1024),
      Positive(limits.maxTotalBytes, 16 * 1024 * 1024 * 1024 * 1024),
      Positive(limits.maxDepth, 64))
  }

  function TrimLeft(s: string): string {
    if s != "" && IsSpace(s[0]) then TrimLeft(s[1..]) else s
  }

  function TrimTail(s: string): string {
    if s != "" && IsSpace(s[|s| - 1]) then TrimTail(s[..|s| - 1]) else s
  }

  function Trim(s: string): string {
    TrimTail(TrimLeft(s))
  }

  predicate ValidSha256(value: string) {
    |value| == 64 && forall c :: c in value ==> '0' <= c <= '9' || 'a' <= c <= 'f'
  }

  predicate GoodHeader(m: Manifest, limits: Limits) {
    var root := Trim(m.rootName);
    && m.version == 1 && root != "" && '/' !in root && '\\' !in root && '\0' !in root && |root| <= 255
    && |m.entries| <= limits.maxEntries
  }

  // ---- what each entry adds and when it is refused ----

  function NormalPath(e: Entry): string {
    match Normalize(e.path)
    case Ok(result) => result.0
    case Err(_) => ""
  }

  function FileBytes(e: Entry): int {
    if e.kind.RegularFile? then e.size else 0
  }

  function ManifestBytes(e: Entry): int {
    |NormalPath(e)| + |e.sha256| + |e.mimeType| + |e.fileId| + 96
  }

  function Sum(entries: seq<Entry>, measure: Entry -> int): int {
    if entries == [] then 0
    else Sum(entries[..|entries| - 1], measure) + measure(entries[|entries| - 1])
  }

  predicate Collides(fold: string -> string, entries: seq<Entry>, i: nat)
    requires i < |entries|
  {
    exists j :: 0 <= j < i && fold(NormalPath(entries[j])) == fold(NormalPath(entries[i]))
  }

  predicate GoodFields(e: Entry) {
    match e.kind
    case Directory => e.size == 0 && e.sha256 == "" && e.fileId == ""
    case RegularFile => e.size >= 0 && e.fileId != "" && ValidSha256(e.sha256)
    case UnknownType => false
  }

  // The error entry i is refused with when all before it were accepted.
  function EntryError(fold: string -> string, limits: Limits, entries: seq<Entry>, i: nat): Option<FolderError>
    requires i < |entries|
  {
    var e := entries[i];
    match Normalize(e.path)
    case Err(error) => Some(error)
    case Ok((path, depth)) =>
      if |path| > limits.maxPathBytes || depth > limits.maxDepth then Some(LimitExceeded)
      else if Collides(fold, entries, i) then Some(PathCollision)
      else if !GoodFields(e) then Some(InvalidManifest)
      else if Sum(entries[..i + 1], FileBytes) > limits.maxTotalBytes then Some(LimitExceeded)
      else if Sum(entries[..i + 1], ManifestBytes) > limits.maxManifestBytes then Some(LimitExceeded)
      else None
  }

  // The first refusal from entry i on.
  function FirstError(fold: string -> string, limits: Limits, entries: seq<Entry>, i: nat): Option<FolderError>
    requires i <= |entries|
    decreases |entries| - i
  {
    if i == |entries| then None
    else if EntryError(fold, limits, entries, i).Some? then EntryError(fold, limits, entries, i)
    else FirstError(fold, limits, entries, i + 1)
  }

  function Renamed(entries: seq<Entry>): (r: seq<Entry>)
    ensures |r| == |entries|
  {
    seq(|entries|, i requires 0 <= i < |entries| => entries[i].(path := NormalPath(entries[i])))
  }

  function Outcome(fold: string -> string, m: Manifest, given: Limits): Result<Manifest, FolderError> {
    var limits := Normalized(given);
    if !GoodHeader(m, limits) then Err(InvalidManifest)
    else
      match FirstError(fold, limits, m.entries, 0)
      case Some(error) => Err(error)
      case None => Ok(Manifest(1, Trim(m.rootName), Renamed(m.entries)))
  }

  // ---- the validator ----

  // The checks by entry type, and the new total.
  method CountEntry(limits: Limits, entry: Entry, total: int) returns (r: Result<int, FolderError>)
    requires total <= limits.maxTotalBytes
    ensures r.Ok? <==> GoodFields(entry) && total + FileBytes(entry) <= limits.maxTotalBytes
    ensures r.Ok? ==> r.value == total + FileBytes(entry)
    ensures r.Err? ==> r.error == if GoodFields(entry) then LimitExceeded else InvalidManifest
  {
    if entry.kind.Directory? {
      if entry.size != 0 || entry.sha256 != "" || entry.fileId != "" {
        return Err(InvalidManifest);
      }
      return Ok(total);
    } else if entry.kind.RegularFile? {
      if entry.size < 0 || entry.fileId == "" || !ValidSha256(entry.sha256) {
        return Err(InvalidManifest);
      }
      if total > limits.maxTotalBytes - entry.size {
        return Err(LimitExceeded);
      }
      return Ok(total + entry.size);
    } else {
      return Err(InvalidManifest);
    }
  }

  method Validate(fold: string -> string, m: Manifest, given: Limits) returns (r: Result<Manifest, FolderError>)
    ensures r == Outcome(fold, m, given)
  {
    hide FirstError, Normalize, Sum, GoodFields, FileBytes, Trim, Collides;
    var limits := Normalized(given);
    var root := Trim(m.rootName);
    if m.version != 1 || root == "" || '/' in root || '\\' in root || '\0' in root || |root| > 255
       || |m.entries| > limits.maxEntries {
      return Err(InvalidManifest);
    }
    var seen: map<string, string>, total, estimated := map[], 0, 0;
    var entries: seq<Entry> := [];
    SumStart();
    assert m.entries[..0] == [];
    for i := 0 to |m.entries|
      invariant FirstError(fold, limits, m.entries, 0) == FirstError(fold, limits, m.entries, i)
      invariant SeenSoFar(fold, m.entries, i, seen)
      invariant total == Sum(m.entries[..i], FileBytes) <= limits.maxTotalBytes
      invariant estimated == Sum(m.entries[..i], ManifestBytes)
      invariant entries == Renamed(m.entries)[..i]
    {
      var entry := m.entries[i];
      EntryStep(fold, limits, m.entries, i);
      var normalized := NormalizePath(entry.path);
      if normalized.Err? {
        return Err(normalized.error);
      }
      var (path, depth) := normalized.value;
      if |path| > limits.maxPathBytes || depth > limits.maxDepth {
        return Err(LimitExceeded);
      }
      var folded := fold(path);
      SeenIffCollides(fold, m.entries, i, seen);
      if folded in seen {
        return Err(PathCollision);
      }
      seen := seen[folded := path];
      var counted := CountEntry(limits, entry, total);
      if counted.Err? {
        return Err(counted.error);
      }
      total := counted.value;
      estimated := estimated + (|path| + |entry.sha256| + |entry.mimeType| + |entry.fileId| + 96);
      if estimated > limits.maxManifestBytes {
        return Err(LimitExceeded);
      }
      entries := entries + [entry.(path := path)];
    }
    FirstErrorEnds(fold, limits, m.entries);
    assert Renamed(m.entries)[..|m.entries|] == Renamed(m.entries);
    return Ok(Manifest(1, root, entries));
  }

  lemma SumStart()
    ensures forall measure: Entry -> int :: Sum([], measure) == 0
  {
  }

  lemma FirstErrorEnds(fold: string -> string, limits: Limits, entries: seq<Entry>)
    ensures FirstError(fold, limits, entries, |entries|) == None
  {
  }

  // One turn of the loop: the first refusal is this entry's or a later one's, and both sums move on.
  lemma EntryStep(fold: string -> string, limits: Limits, entries: seq<Entry>, i: nat)
    requires i < |entries|
    ensures FirstError(fold, limits, entries, i)
         == if EntryError(fold, limits, entries, i).Some? then EntryError(fold, limits, entries, i)
            else FirstError(fold, limits, entries, i + 1)
    ensures Sum(entries[..i + 1], FileBytes) == Sum(entries[..i], FileBytes) + FileBytes(entries[i])
    ensures Sum(entries[..i + 1], ManifestBytes) == Sum(entries[..i], ManifestBytes) + ManifestBytes(entries[i])
  {
    hide EntryError, FileBytes, ManifestBytes;
    assert entries[..i + 1][..i] == entries[..i];
  }

  // The map holds exactly the folded paths of the first n entries.
  ghost predicate SeenSoFar(fold: string -> string, entries: seq<Entry>, n: nat, seen: map<string, string>)
    requires n <= |entries|
  {
    && (forall j :: 0 <= j < n ==> fold(NormalPath(entries[j])) in seen)
    && (forall key :: key in seen ==> exists j :: 0 <= j < n && fold(NormalPath(entries[j])) == key)
  }

  lemma SeenIffCollides(fold: string -> string, entries: seq<Entry>, i: nat, seen: map<string, string>)
    requires i < |entries| && SeenSoFar(fold, entries, i, seen)
    ensures fold(NormalPath(entries[i])) in seen <==> Collides(fold, entries, i)
  {
  }

  // ---- what acceptance means ----

  ghost predicate GoodEntry(limits: Limits, e: Entry) {
    && Normalize(e.path).Ok? && GoodFields(e)
    && |Normalize(e.path).value.0| <= limits.maxPathBytes && Normalize(e.path).value.1 <= limits.maxDepth
  }

  ghost predicate DistinctFolded(fold: string -> string, entries: seq<Entry>) {
    forall i, j :: 0 <= i < j < |entries| ==> fold(NormalPath(entries[i])) != fold(NormalPath(entries[j]))
  }

  // Nothing about the order of the entries decides acceptance.
  ghost predicate Acceptable(fold: string -> string, m: Manifest, given: Limits) {
    var limits := Normalized(given);
    && GoodHeader(m, limits)
    && (forall i :: 0 <= i < |m.entries| ==> GoodEntry(limits, m.entries[i]))
    && DistinctFolded(fold, m.entries)
    && Sum(m.entries, FileBytes) <= limits.maxTotalBytes
    && Sum(m.entries, ManifestBytes) <= limits.maxManifestBytes
  }

  lemma {:induction false} NoErrorIff(fold: string -> string, limits: Limits, entries: seq<Entry>, i: nat)
    requires i <= |entries|
    ensures FirstError(fold, limits, entries, i).None? <==>
      forall j :: i <= j < |entries| ==> EntryError(fold, limits, entries, j).None?
    decreases |entries| - i
  {
    hide EntryError;
    if i < |entries| {
      NoErrorIff(fold, limits, entries, i + 1);
    }
  }

  lemma {:induction false} SumGrows(entries: seq<Entry>, measure: Entry -> int, n: nat)
    requires n <= |entries|
    requires forall i :: 0 <= i < |entries| ==> measure(entries[i]) >= 0
    ensures 0 <= Sum(entries[..n], measure) <= Sum(entries, measure)
    decreases |entries|
  {
    if entries == [] {
      assert entries[..n] == entries;
    } else if n < |entries| {
      SumGrows(entries[..|entries| - 1], measure, n);
      assert entries[..|entries| - 1][..n] == entries[..n];
    } else {
      SumGrows(entries[..|entries| - 1], measure, n - 1);
      assert entries[..n] == entries && entries[..|entries| - 1][..n - 1] == entries[..n - 1];
    }
  }

  lemma PrefixSums(entries: seq<Entry>, n: nat)
    requires n <= |entries| && forall i :: 0 <= i < |entries| ==> GoodFields(entries[i])
    ensures 0 <= Sum(entries[..n], FileBytes) <= Sum(entries, FileBytes)
    ensures 0 <= Sum(entries[..n], ManifestBytes) <= Sum(entries, ManifestBytes)
  {
    SumGrows(entries, FileBytes, n);
    SumGrows(entries, ManifestBytes, n);
  }

  lemma AcceptedIff(fold: string -> string, m: Manifest, given: Limits)
    ensures Outcome(fold, m, given).Ok? <==> Acceptable(fold, m, given)
  {
    hide Normalize, GoodHeader, Sum;
    var limits, entries := Normalized(given), m.entries;
    NoErrorIff(fold, limits, entries, 0);
    if Acceptable(fold, m, given) {
      forall i | 0 <= i < |entries|
        ensures EntryError(fold, limits, entries, i).None?
      {
        PrefixSums(entries, i + 1);
        assert GoodEntry(limits, entries[i]);
      }
    }
    if Outcome(fold, m, given).Ok? {
      NoErrorMeans(fold, limits, entries);
    }
  }

  lemma NoErrorEntry(fold: string -> string, limits: Limits, entries: seq<Entry>, i: nat)
    requires i < |entries| && EntryError(fold, limits, entries, i).None?
    ensures GoodEntry(limits, entries[i]) && !Collides(fold, entries, i)
    ensures Sum(entries[..i + 1], FileBytes) <= limits.maxTotalBytes
    ensures Sum(entries[..i + 1], ManifestBytes) <= limits.maxManifestBytes
  {
    hide Normalize, Collides, GoodFields, Sum;
  }

  lemma NoErrorMeans(fold: string -> string, limits: Limits, entries: seq<Entry>)
    requires limits.maxTotalBytes > 0 && limits.maxManifestBytes > 0
    requires forall i :: 0 <= i < |entries| ==> EntryError(fold, limits, entries, i).None?
    ensures forall i :: 0 <= i < |entries| ==> GoodEntry(limits, entries[i])
    ensures DistinctFolded(fold, entries)
    ensures Sum(entries, FileBytes) <= limits.maxTotalBytes && Sum(entries, ManifestBytes) <= limits.maxManifestBytes
  {
    hide GoodEntry, EntryError, NormalPath;
    forall i | 0 <= i < |entries|
      ensures GoodEntry(limits, entries[i]) && !Collides(fold, entries, i)
    {
      NoErrorEntry(fold, limits, entries, i);
    }
    if entries != [] {
      var last: nat := |entries| - 1;
      assert entries[..last + 1] == entries;
      NoErrorEntry(fold, limits, entries, last);
    }
  }

  // At every entry the loop reaches, whether the manifest is then accepted or not, the running total
  // is within the limit, the difference the code compares it with fits 64 bits, and so does the new
  // total whenever the comparison lets it through.
  lemma TotalNeverOverflows(fold: string -> string, entries: seq<Entry>, given: Limits, n: nat)
    requires n < |entries| && given.maxTotalBytes <= INT64_MAX
    requires forall i :: 0 <= i < n ==> EntryError(fold, Normalized(given), entries, i).None?
    requires GoodFields(entries[n]) && entries[n].size <= INT64_MAX
    ensures var limit, total, size := Normalized(given).maxTotalBytes, Sum(entries[..n], FileBytes), entries[n].size;
      && 0 <= total <= limit <= INT64_MAX
      && -INT64_MAX <= limit - size <= INT64_MAX
      && (total <= limit - size ==> 0 <= total + size <= INT64_MAX)
  {
    hide Normalize;
    var limits := Normalized(given);
    forall i | 0 <= i < n
      ensures GoodFields(entries[..n][i])
    {
      NoErrorEntry(fold, limits, entries, i);
    }
    PrefixSums(entries[..n], n);
    assert entries[..n][..n] == entries[..n];
    if n > 0 {
      NoErrorEntry(fold, limits, entries, n - 1);
    }
  }

  // ---- the output ----

  // The output's paths are clean and pairwise distinct when folded, and its total is within the limit.
  lemma OutputIsSafe(fold: string -> string, m: Manifest, given: Limits)
    requires Outcome(fold, m, given).Ok?
    ensures var out := Outcome(fold, m, given).value;
      && |out.entries| == |m.entries|
      && (forall i :: 0 <= i < |out.entries| ==>
        && out.entries[i].path != "" && out.entries[i].path[0] != '/' && '\\' !in out.entries[i].path
        && |Split(out.entries[i].path, '/')| <= Normalized(given).maxDepth
        && forall x :: x in Split(out.entries[i].path, '/') ==> GoodSegment(x))
      && (forall i, j :: 0 <= i < j < |out.entries| ==> fold(out.entries[i].path) != fold(out.entries[j].path))
      && 0 <= Sum(out.entries, FileBytes) <= Normalized(given).maxTotalBytes
  {
    AcceptedIff(fold, m, given);
    hide Normalize, GoodSegment, GoodHeader, Sum;
    var out := Outcome(fold, m, given).value;
    forall i | 0 <= i < |out.entries|
      ensures out.entries[i].path != "" && out.entries[i].path[0] != '/' && '\\' !in out.entries[i].path
      ensures |Split(out.entries[i].path, '/')| <= Normalized(given).maxDepth
      ensures forall x :: x in Split(out.entries[i].path, '/') ==> GoodSegment(x)
      ensures GoodFields(m.entries[i])
    {
      assert GoodEntry(Normalized(given), m.entries[i]);
      NormalizedIsClean(m.entries[i].path);
    }
    SameSums(m.entries, out.entries, FileBytes);
    PrefixSums(m.entries, |m.entries|);
    assert m.entries[..|m.entries|] == m.entries;
  }

  lemma {:induction false} SameSums(a: seq<Entry>, b: seq<Entry>, measure: Entry -> int)
    requires |a| == |b| && forall i :: 0 <= i < |a| ==> measure(a[i]) == measure(b[i])
    ensures Sum(a, measure) == Sum(b, measure)
  {
    if a != [] {
      SameSums(a[..|a| - 1], b[..|b| - 1], measure);
    }
  }

  lemma {:induction false} TrimTailSettles(s: string)
    ensures var t := TrimTail(s);
      TrimTail(t) == t && (t != "" ==> s != "" && t[0] == s[0])
  {
    if s != "" && IsSpace(s[|s| - 1]) {
      TrimTailSettles(s[..|s| - 1]);
    }
  }

  lemma {:induction false} TrimLeftSettles(s: string)
    ensures TrimLeft(s) != "" ==> !IsSpace(TrimLeft(s)[0])
  {
    if s != "" && IsSpace(s[0]) {
      TrimLeftSettles(s[1..]);
    }
  }

  lemma TrimSettles(s: string)
    ensures Trim(Trim(s)) == Trim(s)
  {
    TrimLeftSettles(s);
    TrimTailSettles(TrimLeft(s));
  }

  ghost predicate NoDrives(m: Manifest) {
    forall i :: 0 <= i < |m.entries| ==> !DriveQualified(m.entries[i].path)
  }

  // Validating the output again accepts it unchanged exactly when none of its paths reads as a drive.
  lemma ValidateAgainIff(fold: string -> string, m: Manifest, given: Limits)
    requires Outcome(fold, m, given).Ok?
    ensures var out := Outcome(fold, m, given).value;
      Outcome(fold, out, given) == Ok(out) <==> NoDrives(out)
  {
    AcceptedIff(fold, m, given);
    var out := Outcome(fold, m, given).value;
    AcceptedIff(fold, out, given);
    hide Normalize, Sum, Trim, DriveQualified;
    var limits := Normalized(given);
    TrimSettles(m.rootName);
    forall i | 0 <= i < |m.entries|
      ensures Normalize(m.entries[i].path).Ok? && out.entries[i].path == Normalize(m.entries[i].path).value.0
      ensures Normalize(out.entries[i].path) == Normalize(m.entries[i].path) <==> !DriveQualified(out.entries[i].path)
      ensures DriveQualified(out.entries[i].path) ==> Normalize(out.entries[i].path).Err?
    {
      assert GoodEntry(limits, m.entries[i]);
      NormalizeAgainIff(m.entries[i].path);
    }
    if NoDrives(out) {
      SettledIsAcceptable(fold, m, out, given);
      forall i | 0 <= i < |out.entries|
        ensures Renamed(out.entries)[i] == out.entries[i]
      {
        assert Normalize(out.entries[i].path) == Normalize(m.entries[i].path);
      }
      assert Renamed(out.entries) == out.entries;
    } else {
      var i :| 0 <= i < |out.entries| && DriveQualified(out.entries[i].path);
      assert !GoodEntry(limits, out.entries[i]);
    }
  }

  lemma SettledIsAcceptable(fold: string -> string, m: Manifest, out: Manifest, given: Limits)
    requires Acceptable(fold, m, given)
    requires out == Manifest(1, Trim(m.rootName), Renamed(m.entries)) && Trim(out.rootName) == out.rootName
    requires forall i :: 0 <= i < |m.entries| ==> Normalize(out.entries[i].path) == Normalize(m.entries[i].path)
    ensures Acceptable(fold, out, given)
  {
    hide Normalize, Sum, Trim;
    var limits := Normalized(given);
    forall i | 0 <= i < |m.entries|
      ensures GoodEntry(limits, out.entries[i]) && NormalPath(out.entries[i]) == NormalPath(m.entries[i])
    {
      assert GoodEntry(limits, m.entries[i]);
    }
    SameSums(m.entries, out.entries, FileBytes);
    SameSums(m.entries, out.entries, ManifestBytes);
  }

  // ---- the checks by their fields ----

  lemma {:induction false} TrimLeftIs(s: string) returns (i: nat)
    ensures i <= |s| && TrimLeft(s) == s[i..] && forall j :: 0 <= j < i ==> IsSpace(s[j])
    ensures i < |s| ==> !IsSpace(s[i])
  {
    if s != "" && IsSpace(s[0]) {
      var rest := TrimLeftIs(s[1..]);
      i := rest + 1;
      assert s[1..][rest..] == s[i..];
      assert forall j :: 0 <= j < rest ==> s[1..][j] == s[j + 1];
      forall j | 0 <= j < i
        ensures IsSpace(s[j])
      {
        if j > 0 {
          assert IsSpace(s[1..][j - 1]);
        }
      }
    } else {
      i := 0;
    }
  }

  lemma {:induction false} TrimTailIs(s: string) returns (n: nat)
    ensures n <= |s| && TrimTail(s) == s[..n] && forall j :: n <= j < |s| ==> IsSpace(s[j])
    ensures n > 0 ==> !IsSpace(s[n - 1])
  {
    if s != "" && IsSpace(s[|s| - 1]) {
      n := TrimTailIs(s[..|s| - 1]);
      assert s[..|s| - 1][..n] == s[..n];
      assert forall j :: 0 <= j < |s| - 1 ==> s[..|s| - 1][j] == s[j];
    } else {
      n := |s|;
    }
  }

  // Trimming cuts the blanks at both ends and nothing else.
  lemma TrimIs(s: string) returns (i: nat, j: nat)
    ensures i <= j <= |s| && Trim(s) == s[i..j]
    ensures forall n :: 0 <= n < i || j <= n < |s| ==> Blank(s[n])
    ensures i < j ==> !Blank(s[i]) && !Blank(s[j - 1])
  {
    i := TrimLeftIs(s);
    var n := TrimTailIs(s[i..]);
    j := i + n;
    assert s[i..][..n] == s[i..j];
    forall m | j <= m < |s|
      ensures Blank(s[m])
    {
      assert s[i..][m - i] == s[m];
    }
  }

  // A lower-case hexadecimal digest of 32 bytes.
  predicate HexDigest(value: string) {
    |value| == 64 && forall i :: 0 <= i < 64 ==> '0' <= value[i] <= '9' || 'a' <= value[i] <= 'f'
  }

  // A directory carries no content, a file names its content; there is no third kind.
  lemma GoodFieldsIff(e: Entry)
    ensures GoodFields(e) <==>
      || (e.kind == Directory && e.size == 0 && e.sha256 == "" && e.fileId == "")
      || (e.kind == RegularFile && e.size >= 0 && e.fileId != "" && HexDigest(e.sha256))
  {
    assert forall i :: 0 <= i < |e.sha256| ==> e.sha256[i] in e.sha256;
  }

  // The limits where none is given: 100,000 entries, 1,024 bytes a path, 32 MiB of manifest, 16 TiB of
  // content and 64 levels.
  lemma LimitsApply(given: Limits)
    ensures var l := Normalized(given);
      && l.maxEntries == (if given.maxEntries > 0 then given.maxEntries else 100_000)
      && l.maxPathBytes == (if given.maxPathBytes > 0 then given.maxPathBytes else 1_024)
      && l.maxManifestBytes == (if given.maxManifestBytes > 0 then given.maxManifestBytes else 33_554_432)
      && l.maxTotalBytes == (if given.maxTotalBytes > 0 then given.maxTotalBytes else 17_592_186_044_416)
      && l.maxDepth == (if given.maxDepth > 0 then given.maxDepth else 64)
  {
  }

  // What the entries before position n amount to.
  ghost predicate TotalsAre(entries: seq<Entry>, n: nat, content: int, manifest: int)
    requires n <= |entries|
  {
    if n == 0 then content == 0 && manifest == 0
    else
      var e := entries[n - 1];
      var path := if Normalize(e.path).Ok? then |Normalize(e.path).value.0| else 0;
      TotalsAre(entries, n - 1, content - (if e.kind == RegularFile then e.size else 0),
                manifest - (path + |e.sha256| + |e.mimeType| + |e.fileId| + 96))
  }

  lemma {:induction false} TotalsFollow(entries: seq<Entry>, n: nat)
    requires n <= |entries|
    ensures TotalsAre(entries, n, Sum(entries[..n], FileBytes), Sum(entries[..n], ManifestBytes))
  {
    hide Normalize;
    if n > 0 {
      TotalsFollow(entries, n - 1);
      assert entries[..n][..n - 1] == entries[..n - 1];
    }
  }

  predicate FoldsTo(fold: string -> string, e: Entry, folded: string) {
    Normalize(e.path).Ok? && fold(Normalize(e.path).value.0) == folded
  }

  // Why an entry is refused when all before it were fine: in this order, its path, its length or depth,
  // an earlier path that folds alike, its fields, the content's total, the manifest's total.
  lemma RefusedFor(fold: string -> string, limits: Limits, entries: seq<Entry>, i: nat, content: int, manifest: int)
    requires i < |entries| && forall j :: 0 <= j < i ==> EntryError(fold, limits, entries, j).None?
    requires TotalsAre(entries, i + 1, content, manifest)
    ensures var e := entries[i];
      EntryError(fold, limits, entries, i) ==
        match Normalize(e.path)
        case Err(error) => Some(error)
        case Ok((path, depth)) =>
          if |path| > limits.maxPathBytes || depth > limits.maxDepth then Some(LimitExceeded)
          else if exists j :: 0 <= j < i && FoldsTo(fold, entries[j], fold(path)) then Some(PathCollision)
          else if !GoodFields(e) then Some(InvalidManifest)
          else if content > limits.maxTotalBytes || manifest > limits.maxManifestBytes then Some(LimitExceeded)
          else None
  {
    hide Normalize, GoodFields;
    TotalsFollow(entries, i + 1);
    TotalsAreFixed(entries, i + 1, content, manifest,
                   Sum(entries[..i + 1], FileBytes), Sum(entries[..i + 1], ManifestBytes));
    forall j | 0 <= j < i
      ensures Normalize(entries[j].path).Ok? && NormalPath(entries[j]) == Normalize(entries[j].path).value.0
    {
      NoErrorEntry(fold, limits, entries, j);
    }
  }

  lemma {:induction false} TotalsAreFixed(entries: seq<Entry>, n: nat, a: int, b: int, c: int, d: int)
    requires n <= |entries| && TotalsAre(entries, n, a, b) && TotalsAre(entries, n, c, d)
    ensures a == c && b == d
  {
    hide Normalize;
    if n > 0 {
      var e := entries[n - 1];
      var path := if Normalize(e.path).Ok? then |Normalize(e.path).value.0| else 0;
      var size := if e.kind == RegularFile then e.size else 0;
      var text := path + |e.sha256| + |e.mimeType| + |e.fileId| + 96;
      TotalsAreFixed(entries, n - 1, a - size, b - text, c - size, d - text);
    }
  }

  // The header: version 1, a root name of at most 255 bytes that is one path element, not too many entries.
  lemma RefusedHeader(fold: string -> string, m: Manifest, given: Limits)
    ensures var root := Trim(m.rootName);
      !GoodHeader(m, Normalized(given)) <==>
        || m.version != 1 || root == "" || |root| > 255 || |m.entries| > Normalized(given).maxEntries
        || exists i :: 0 <= i < |root| && (root[i] == '/' || root[i] == '\\' || root[i] == '\0')
    ensures !GoodHeader(m, Normalized(given)) ==> Outcome(fold, m, given) == Err(InvalidManifest)
  {
    hide Trim;
  }
}
