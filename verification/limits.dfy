/**
 The quotas in numbers: what an owner may have on the node, summed over the files themselves, in every
 run, and which requests still fit.
 */
module Limits {
  import opened Wrappers
  import opened Numbers
  import opened SetSum
  import opened Domain
  import opened Requests
  import opened Tables
  import opened Accounting
  import opened Transactions
  import opened Runs
  import opened Consistency
  import opened Quotas
  import opened Routes

  // ---- the files that count, by their own fields ----

  // Somebody receives the file through the node.
  ghost predicate GoesThroughNode(db: Database, f: Id) {
    exists d: Id :: FileKey(f, d) in db.fileTargets && db.fileTargets[FileKey(f, d)].route == Route.Node
  }

  ghost predicate OnTheNode(db: Database, f: Id, now: Time) {
    && f in db.files && db.files[f].status != FileExpired && now < db.files[f].expiresAt
    && db.files[f].transfer in db.tasks && GoesThroughNode(db, f)
  }

  // Whose file it is: a user's by who sent it, a group's by where it was sent.
  predicate BelongsTo(db: Database, owner: Owner, f: Id)
    requires f in db.files && db.files[f].transfer in db.tasks
  {
    match owner
    case UserOwner(user) => db.tasks[db.files[f].transfer].senderUser == user
    case GroupOwner(group) => db.tasks[db.files[f].transfer].group == group
  }

  // Sent on the UTC day of the given time, or after it.
  predicate SentToday(db: Database, f: Id, now: Time)
    requires f in db.files && db.files[f].transfer in db.tasks
  {
    db.tasks[db.files[f].transfer].createdAt / A_DAY >= now / A_DAY
  }

  ghost function StoredFiles(db: Database, now: Time): set<Id> {
    set f | f in db.files && OnTheNode(db, f, now)
  }

  ghost function FilesOf(db: Database, owner: Owner, now: Time): set<Id> {
    set f | f in db.files && OnTheNode(db, f, now) && BelongsTo(db, owner, f)
  }

  ghost function FilesToday(db: Database, owner: Owner, now: Time): set<Id> {
    set f | f in db.files && OnTheNode(db, f, now) && BelongsTo(db, owner, f) && SentToday(db, f, now)
  }

  function SizesOf(files: map<Id, FileRow>): Id -> int {
    f => if f in files then files[f].size else 0
  }

  ghost function Bytes(db: Database, files: set<Id>): int {
    Sum(files, SizesOf(db.files))
  }

  lemma LiveIff(db: Database, f: Id, now: Time)
    ensures f in LiveFiles(db, now) <==> OnTheNode(db, f, now)
  {
    if OnTheNode(db, f, now) {
      var d :| FileKey(f, d) in db.fileTargets && db.fileTargets[FileKey(f, d)].route == Route.Node;
    }
    if f in LiveFiles(db, now) {
      var k :| k in db.fileTargets && k.file == f && db.fileTargets[k].route.Node?;
      assert k == FileKey(f, k.device);
    }
  }

  lemma DayIff(createdAt: Time, now: Time)
    ensures createdAt >= StartOfDay(now) <==> createdAt / A_DAY >= now / A_DAY
  {
    assert StartOfDay(now) == now / A_DAY * A_DAY;
    if createdAt >= StartOfDay(now) {
      assert createdAt / A_DAY >= (now / A_DAY * A_DAY) / A_DAY;
    }
  }

  lemma CountedFiles(db: Database, owner: Owner, now: Time)
    ensures LiveFiles(db, now) == StoredFiles(db, now)
    ensures OwnedFiles(db, owner, now) == FilesOf(db, owner, now)
    ensures TodaysFiles(db, owner, now) == FilesToday(db, owner, now)
  {
    hide LiveFiles, StartOfDay, OnTheNode;
    LiveFilesExist(db, now);
    forall f
      ensures f in LiveFiles(db, now) <==> OnTheNode(db, f, now)
      ensures OnTheNode(db, f, now) ==> f in db.files && db.files[f].transfer in db.tasks
      ensures OnTheNode(db, f, now) ==>
        (db.tasks[db.files[f].transfer].createdAt >= StartOfDay(now) <==> SentToday(db, f, now))
    {
      LiveIff(db, f, now);
      if OnTheNode(db, f, now) {
        DayIff(db.tasks[db.files[f].transfer].createdAt, now);
      }
    }
  }

  // The usage sums are the bytes of these files.
  lemma UsageIsBytes(db: Database, owner: Owner, now: Time)
    ensures NodeUsage(db, now) == Bytes(db, StoredFiles(db, now))
    ensures Usage(db, owner, now) == Bytes(db, FilesOf(db, owner, now))
    ensures DailyUsage(db, owner, now) == Bytes(db, FilesToday(db, owner, now))
  {
    hide LiveFiles, OwnedFiles, TodaysFiles, StoredFiles, FilesOf, FilesToday;
    CountedFiles(db, owner, now);
    SumEqual(LiveFiles(db, now), SizeIn(db.files), SizesOf(db.files));
    SumEqual(OwnedFiles(db, owner, now), SizeIn(db.files), SizesOf(db.files));
    SumEqual(TodaysFiles(db, owner, now), SizeIn(db.files), SizesOf(db.files));
  }

  // ---- the limits, by the settings' own fields ----

  // An owner's own row wins over the default.
  function OwnLimit(settings: Settings, owner: Owner): int {
    match (if owner in settings.owners then settings.owners[owner].byteLimit else None)
    case Some(limit) => limit
    case None => match owner case UserOwner(_) => settings.userQuota case GroupOwner(_) => settings.groupQuota
  }

  function OwnDaily(settings: Settings, owner: Owner): int {
    match (if owner in settings.owners then settings.owners[owner].dailyLimit else None)
    case Some(limit) => limit
    case None => match owner case UserOwner(_) => settings.userDaily case GroupOwner(_) => settings.groupDaily
  }

  // The share of the node's cache at which it stops accepting.
  predicate SensibleNode(settings: Settings) {
    0 <= settings.nodeLimit && 0 <= settings.stopPercent && settings.nodeLimit * settings.stopPercent <= INT64_MAX
  }

  // The node holds so many bytes, in general: the product as 64-bit arithmetic leaves it, the share
  // rounded toward zero.
  predicate NodeHolds(settings: Settings, bytes: int) {
    var product := Wrapped(settings.nodeLimit * settings.stopPercent);
    if product >= 0 then 100 * bytes <= product else 100 * bytes < product + 100
  }

  // In every run from the empty database, with fixed settings and requests at non-decreasing times, at
  // the last request and ever after: the bytes an owner has on the node are at most its own limit if it
  // has one and the default if not, those it sent today at most its daily limit, and all of them at
  // most the given percentage of the node's cache.
  lemma EveryoneStaysWithin(node: Node, events: seq<Event>, start: Time, now: Time, owner: Owner)
    requires Clocked(events, start) && Latest(events, start) <= now
    requires owner.GroupOwner? ==> owner.id != ""
    ensures var db, settings := Run(node, EMPTY, events), node.settings;
      var mine, today, all :=
        Bytes(db, FilesOf(db, owner, now)), Bytes(db, FilesToday(db, owner, now)), Bytes(db, StoredFiles(db, now));
      && (mine == 0 || mine <= OwnLimit(settings, owner))
      && (today == 0 || today <= OwnDaily(settings, owner))
      && (all == 0 || NodeHolds(settings, all))
      && (SensibleNode(settings) ==> 100 * all <= settings.nodeLimit * settings.stopPercent)
  {
    hide Run, WithinQuotas, Consistent, SizesNonNegative, Clocked, Latest, Bytes, FilesOf, FilesToday, StoredFiles;
    EmptyIsWithin(node.settings, start);
    EmptyIsLinked();
    RunStaysWithinQuotas(node, EMPTY, events, start, now);
    WithinMeans(node.settings, Run(node, EMPTY, events), now, owner);
  }

  lemma WithinMeans(settings: Settings, db: Database, now: Time, owner: Owner)
    requires WithinQuotas(settings, db, now) && (owner.GroupOwner? ==> owner.id != "")
    ensures var mine, today, all :=
        Bytes(db, FilesOf(db, owner, now)), Bytes(db, FilesToday(db, owner, now)), Bytes(db, StoredFiles(db, now));
      && (mine == 0 || mine <= OwnLimit(settings, owner))
      && (today == 0 || today <= OwnDaily(settings, owner))
      && (all == 0 || NodeHolds(settings, all))
      && (SensibleNode(settings) ==> 100 * all <= settings.nodeLimit * settings.stopPercent)
  {
    hide Usage, DailyUsage, NodeUsage, NodeHolds, Bytes, FilesOf, FilesToday, StoredFiles, StopLimit;
    UsageIsBytes(db, owner, now);
    assert RealOwner(owner);
    StopIsPercentage(settings, NodeUsage(db, now));
  }

  lemma EmptyIsLinked()
    ensures Consistent(EMPTY) && SizesNonNegative(EMPTY)
  {
  }

  lemma EmptyIsWithin(settings: Settings, now: Time)
    ensures WithinQuotas(settings, EMPTY, now)
  {
    assert LiveFiles(EMPTY, now) == {};
    forall owner
      ensures Usage(EMPTY, owner, now) == 0 && DailyUsage(EMPTY, owner, now) == 0
    {
      assert OwnedFiles(EMPTY, owner, now) == {} && TodaysFiles(EMPTY, owner, now) == {};
    }
  }

  lemma StopIsPercentage(settings: Settings, bytes: int)
    ensures bytes <= StopLimit(settings) <==> NodeHolds(settings, bytes)
    ensures SensibleNode(settings) ==>
      (NodeHolds(settings, bytes) <==> 100 * bytes <= settings.nodeLimit * settings.stopPercent)
      && 0 <= settings.nodeLimit * settings.stopPercent
  {
    if SensibleNode(settings) {
      assert 0 <= settings.nodeLimit * settings.stopPercent;
    }
  }

  // ---- what still fits ----

  // The device gets the file through the node.
  predicate NeedsNode(request: Request, i: nat, device: Id)
    requires i < |request.files|
  {
    && !IsMessage(request) && !TooLarge(request, request.files[i].size)
    && (request.mode == NodeOnly || (request.mode == Automatic && device !in request.lanAvailable))
  }

  // The files of the request some device gets through the node, each once.
  ghost function Needed(request: Request, devices: seq<Id>): set<nat> {
    set i: nat | i < |request.files| && SomeNeedNode(request, i, devices)
  }

  ghost predicate SomeNeedNode(request: Request, i: nat, devices: seq<Id>)
    requires i < |request.files|
  {
    exists d :: d in devices && NeedsNode(request, i, d)
  }

  function SizesIn(request: Request): nat -> int {
    (i: nat) => if i < |request.files| then request.files[i].size else 0
  }

  ghost function NeededBytes(request: Request, devices: seq<Id>): int {
    Sum(Needed(request, devices), SizesIn(request))
  }

  // What the owner has, and has sent today, and what is asked for stay within its limits together.
  ghost predicate LeavesRoom(settings: Settings, db: Database, owner: Owner, needed: int, now: Time) {
    && Bytes(db, FilesOf(db, owner, now)) + needed <= OwnLimit(settings, owner)
    && Bytes(db, FilesToday(db, owner, now)) + needed <= OwnDaily(settings, owner)
  }

  ghost predicate Fits(settings: Settings, db: Database, user: Id, request: Request, devices: seq<Id>, now: Time) {
    var needed := NeededBytes(request, devices);
    && (forall i :: i in Needed(request, devices) ==> SizesIn(request)(i) <= settings.singleFileLimit)
    && needed <= INT64_MAX
    && LeavesRoom(settings, db, UserOwner(user), needed, now)
    && NodeHolds(settings, Bytes(db, StoredFiles(db, now)) + needed)
    && (request.group != "" ==> LeavesRoom(settings, db, GroupOwner(request.group), needed, now))
  }

  lemma NeededAreNodeFiles(request: Request, devices: seq<Id>, now: Time)
    requires ValidRequest(request)
    ensures NodeFiles(Prepare(request, devices, now)) == Needed(request, devices)
    ensures RequestedBytes(Prepare(request, devices, now)) == NeededBytes(request, devices)
  {
    hide FileRoute, NodeFiles, TargetRows, FileTargetRows, ValidFile;
    var prepared := Prepare(request, devices, now);
    TextHasNoFiles(request);
    NodeFilesInRange(request, devices, now);
    forall i: nat, d | i < |request.files|
      ensures !IsMessage(request) ==> (FileRoute(request, request.files[i], d).Node? <==> NeedsNode(request, i, d))
    {
      FileRowIsAsRequested(request, i, d);
    }
    assert forall i: nat :: i in NodeFiles(prepared) <==> i in Needed(request, devices);
    SumEqual(NodeFiles(prepared), SizeAt(prepared), SizesIn(request));
  }

  lemma BytesAreNotNegative(db: Database, files: set<Id>)
    requires SizesNonNegative(db)
    ensures Bytes(db, files) >= 0
  {
    SumNonNegative(files, SizesOf(db.files));
  }

  lemma RoomIff(settings: Settings, db: Database, owner: Owner, needed: int, now: Time)
    requires SizesNonNegative(db) && needed >= 0
    ensures OwnerAdmits(settings, db, owner, needed, now) <==> LeavesRoom(settings, db, owner, needed, now)
  {
    hide Usage, DailyUsage, Bytes, FilesOf, FilesToday, SizesNonNegative;
    UsageIsBytes(db, owner, now);
    BytesAreNotNegative(db, FilesOf(db, owner, now));
    BytesAreNotNegative(db, FilesToday(db, owner, now));
  }

  // The quotas admit a request exactly when nobody gets a file of it through the node, or its files
  // fit all these numbers.
  lemma AdmittedIffItFits(settings: Settings, db: Database, user: Id, request: Request, devices: seq<Id>, now: Time)
    requires SizesNonNegative(db) && ValidRequest(request)
    ensures Admits(settings, db, user, request.group, Prepare(request, devices, now))
      <==> Needed(request, devices) == {} || Fits(settings, db, user, request, devices, now)
  {
    hide Prepare, OwnerAdmits, LeavesRoom, NodeFiles, RequestedBytes, NeededBytes, Needed, SizesNonNegative, StopLimit,
         NodeUsage, NodeHolds, Bytes, StoredFiles, ValidRequest;
    var needed := NeededBytes(request, devices);
    NeededAreNodeFiles(request, devices, now);
    PreparedCopies(request, devices, now);
    NeededIsNotNegative(request, devices);
    RoomIff(settings, db, UserOwner(user), needed, now);
    RoomIff(settings, db, GroupOwner(request.group), needed, now);
    UsageIsBytes(db, UserOwner(user), now);
    BytesAreNotNegative(db, StoredFiles(db, now));
    StopIsPercentage(settings, Bytes(db, StoredFiles(db, now)) + needed);
  }

  // Some file is over the limit for one file.
  ghost predicate OneTooBig(settings: Settings, request: Request, devices: seq<Id>) {
    exists i :: i in Needed(request, devices) && SizesIn(request)(i) > settings.singleFileLimit
  }

  // Why a request is refused, in the order the limits are looked at: one file, the sum as a 64-bit
  // number, the sender, the node, the group. The first two are met in no particular order.
  lemma RefusedForIff(
    settings: Settings, db: Database, user: Id, request: Request, devices: seq<Id>, now: Time, error: Error)
    requires SizesNonNegative(db) && ValidRequest(request)
    ensures RefusedWith(settings, db, user, request.group, Prepare(request, devices, now), error) <==>
      var needed := NeededBytes(request, devices);
      if OneTooBig(settings, request, devices) || needed > INT64_MAX then
        (error == FileTooLarge && OneTooBig(settings, request, devices))
        || (error == QuotaExceeded && needed > INT64_MAX)
      else if !LeavesRoom(settings, db, UserOwner(user), needed, now) then error == QuotaExceeded
      else if !NodeHolds(settings, Bytes(db, StoredFiles(db, now)) + needed) then error == StorageFull
      else
        request.group != "" && !LeavesRoom(settings, db, GroupOwner(request.group), needed, now)
        && error == QuotaExceeded
  {
    hide Prepare, OwnerAdmits, LeavesRoom, NodeFiles, RequestedBytes, NeededBytes, Needed, SizesNonNegative, StopLimit,
         NodeUsage, NodeHolds, Bytes, StoredFiles, ValidRequest;
    var needed := NeededBytes(request, devices);
    NeededAreNodeFiles(request, devices, now);
    PreparedCopies(request, devices, now);
    NeededIsNotNegative(request, devices);
    RoomIff(settings, db, UserOwner(user), needed, now);
    RoomIff(settings, db, GroupOwner(request.group), needed, now);
    UsageIsBytes(db, UserOwner(user), now);
    BytesAreNotNegative(db, StoredFiles(db, now));
    StopIsPercentage(settings, Bytes(db, StoredFiles(db, now)) + needed);
  }

  lemma NeededIsNotNegative(request: Request, devices: seq<Id>)
    requires ValidRequest(request)
    ensures NeededBytes(request, devices) >= 0
  {
    RequestedSizes(request);
    SumNonNegative(Needed(request, devices), SizesIn(request));
  }

  // ---- who is created ----

  predicate NoneRepeated(rows: seq<PreparedFileTarget>) {
    forall i, j :: 0 <= i < j < |rows| ==> !SameRow(rows[i], rows[j])
  }

  lemma {:induction false} RowsAreDistinct(request: Request, devices: seq<Id>)
    requires forall i, j :: 0 <= i < j < |devices| ==> devices[i] != devices[j]
    ensures NoneRepeated(FileTargetRows(request, devices))
  {
    hide SameRow;
    if devices != [] {
      var n := |devices| - 1;
      var before := FileTargetRows(request, devices[..n]);
      var last := DeviceFileTargets(request, devices[n], |request.files|);
      RowsAreDistinct(request, devices[..n]);
      FileTargetsAreFullProduct(request, devices[..n]);
      DeviceFileTargetsExact(request, devices[n], |request.files|);
      assert FileTargetRows(request, devices) == before + last;
      forall i, j | 0 <= i < |before| && 0 <= j < |last|
        ensures !SameRow(before[i], last[j])
      {
        assert before[i] in before && devices[n] !in devices[..n];
        OtherDevice(before[i], last[j]);
      }
      forall i, j | 0 <= i < j < |last|
        ensures !SameRow(last[i], last[j])
      {
        OtherIndex(last[i], last[j]);
      }
      DistinctTogether(before, last);
    }
  }

  lemma OtherDevice(a: PreparedFileTarget, b: PreparedFileTarget)
    requires a.device != b.device
    ensures !SameRow(a, b)
  {
  }

  lemma OtherIndex(a: PreparedFileTarget, b: PreparedFileTarget)
    requires a.fileIndex != b.fileIndex
    ensures !SameRow(a, b)
  {
  }

  lemma DistinctTogether(a: seq<PreparedFileTarget>, b: seq<PreparedFileTarget>)
    requires NoneRepeated(a) && NoneRepeated(b)
    requires forall i, j :: 0 <= i < |a| && 0 <= j < |b| ==> !SameRow(a[i], b[j])
    ensures NoneRepeated(a + b)
  {
    hide SameRow;
  }

  lemma {:induction false} TargetRowsInOrder(request: Request, devices: seq<Id>)
    ensures |TargetRows(request, devices)| == |devices|
    ensures forall i :: 0 <= i < |devices| ==> TargetRows(request, devices)[i].device == devices[i]
  {
    if devices != [] {
      TargetRowsInOrder(request, devices[..|devices| - 1]);
    }
  }

  // The identifiers drawn are fresh, one per file, and no device is named twice.
  ghost predicate FreshRows(db: Database, request: Request, devices: seq<Id>, transfer: Id, ids: seq<Id>) {
    && transfer !in db.tasks && |ids| == |request.files|
    && (forall i, j :: 0 <= i < j < |ids| ==> ids[i] != ids[j]) && (forall i :: 0 <= i < |ids| ==> ids[i] !in db.files)
    && forall i, j :: 0 <= i < j < |devices| ==> devices[i] != devices[j]
  }

  lemma InsertableIff(db: Database, request: Request, devices: seq<Id>, now: Time, transfer: Id, ids: seq<Id>)
    requires ValidRequest(request)
    ensures Insertable(db, Prepare(request, devices, now), transfer, ids)
        <==> FreshRows(db, request, devices, transfer, ids)
  {
    hide FileTargetRows, TargetRows, ValidRequest, TargetRow, FileRoute;
    PreparedCopies(request, devices, now);
    TargetRowsInOrder(request, devices);
    FileTargetsAreFullProduct(request, devices);
    var prepared := Prepare(request, devices, now);
    if FreshRows(db, request, devices, transfer, ids) {
      RowsAreDistinct(request, devices);
      assert forall row :: row in prepared.fileTargets ==> row.fileIndex < |prepared.files|;
      forall i, j | 0 <= i < j < |prepared.targets|
        ensures prepared.targets[i].device != prepared.targets[j].device
      {
        assert prepared.targets[i].device == devices[i] && prepared.targets[j].device == devices[j];
      }
    }
    if Insertable(db, prepared, transfer, ids) {
      forall i, j | 0 <= i < j < |devices|
        ensures devices[i] != devices[j]
      {
        assert prepared.targets[i].device == devices[i] && prepared.targets[j].device == devices[j];
      }
    }
  }

  // A transfer is created exactly for a well-formed deliverable request under a key its device has not
  // used, whose files fit the quotas, under fresh identifiers.
  lemma CreatedIff(node: Node, db: Database, e: Event)
    requires SizesNonNegative(db) && e.CreateEvent?
    ensures Admitted(node, db, e) <==>
      && Creatable(e.session, e.request, e.devices)
      && (e.key != "" ==> forall t :: t in db.tasks ==>
        !(db.tasks[t].senderDevice == e.session.device.value && db.tasks[t].key == e.key))
      && (Needed(e.request, e.devices) == {}
          || Fits(node.settings, db, e.session.user, e.request, e.devices, e.now))
      && FreshRows(db, e.request, e.devices, e.transfer, e.ids)
  {
    hide Fits, Needed, Admits, Insertable, FreshRows, Prepare, SizesNonNegative, ValidRequest, Deliverable;
    if Creatable(e.session, e.request, e.devices) {
      AdmittedIffItFits(node.settings, db, e.session.user, e.request, e.devices, e.now);
      InsertableIff(db, e.request, e.devices, e.now, e.transfer, e.ids);
    }
  }
}
