/**
 What each transaction does to one target, said in terms of the rows it meets: which event touches the
 target, and what the target then holds.
 */
module Effects {
  import opened Wrappers
  import opened Domain
  import opened Requests
  import opened Tables
  import Accounting
  import opened Transactions
  import opened Runs
  import opened Consistency

  // The one thing that can happen to an existing target.
  datatype Touch =
    | Told(report: Progress, at: Time)
    | WasRead(at: Time)
    | WasRetried(at: Time)
    | WasCancelled(at: Time)
    | FileArrived
    | RanOut(at: Time)

  // A well-formed report by the target's own device or the sending one.
  predicate ComesFromEitherEnd(db: Database, session: Session, k: TargetKey, p: Progress)
    requires k.transfer in db.tasks
  {
    && k.transfer != "" && k.device != "" && p.device == k.device
    && (session.device == Some(k.device) || session.device == Some(db.tasks[k.transfer].senderDevice))
    && p.bytes >= 0 && p.status !in {Created, Cancelled, Expired}
    && p.route != Some(NoRoute) && p.route != Some(Mixed)
    && |p.errorCode| <= 100
    && forall c :: c in p.errorCode ==> c == '_' || '0' <= c <= '9' || 'A' <= c <= 'Z'
  }

  // The report's key is new to its device and target, or it has none.
  predicate IsNews(db: Database, session: Session, k: TargetKey, p: Progress) {
    p.key == "" || (session.device.Some? &&
      RecordKey(session.device.value, "/api/transfers/" + k.transfer + "/targets/" + k.device, p.key) !in db.records)
  }

  // The answer can be shown to the caller.
  predicate Sees(db: Database, session: Session, transfer: Id)
    requires transfer in db.tasks
  {
    && session.user !in db.tasks[transfer].hiddenFor
    && (db.tasks[transfer].senderUser == session.user
        || (session.device.Some? && TargetKey(transfer, session.device.value) in db.targets))
  }

  // From here the report leads on: along the table, or once more the status of a transfer under way.
  predicate LeadsOn(current: Status, next: Status) {
    && current !in {Read, Failed, Cancelled, Expired}
    && (current.CanTransitionTo(next) || (current == next && !current.Delivered?))
    && !(current in {SourceFileMissing, SourceFileChanged} && next.CheckingRoute?)
  }

  ghost predicate HasOtherLiveFile(db: Database, k: TargetKey, file: Id) {
    exists f :: f in db.files && f != file && db.files[f].transfer == k.transfer
      && db.files[f].status != FileExpired && FileKey(f, k.device) in db.fileTargets
  }

  ghost function TouchOf(db: Database, e: Event, k: TargetKey): Option<Touch>
    requires Consistent(db) && k in db.targets
  {
    var target, task := db.targets[k], db.tasks[k.transfer];
    match e
    case ReportEvent(session, transfer, p, now) =>
      if transfer == k.transfer && p.device == k.device && ComesFromEitherEnd(db, session, k, p)
         && db.executions[k] != [] && IsNews(db, session, k, p) && LeadsOn(target.status, p.status)
         && Sees(db, session, transfer)
      then Some(Told(p, now)) else None
    case ReadEvent(session, transfer, now) =>
      if transfer == k.transfer && session.device == Some(k.device) && target.status == Delivered
         && db.executions[k] != []
      then Some(WasRead(now)) else None
    case RetryEvent(session, transfer, device, key, now) =>
      if transfer == k.transfer != "" && device == k.device != "" && key != "" && session.device.Some?
         && task.senderUser == session.user && target.status in {Failed, Paused, SourceFileMissing, SourceFileChanged}
         && forall i :: 0 <= i < |db.executions[k]| ==> db.executions[k][i].key != Some(key)
      then Some(WasRetried(now)) else None
    case CancelEvent(session, transfer, now) =>
      if transfer == k.transfer && task.senderUser == session.user
         && task.status !in {Delivered, Read, Failed, Cancelled, Expired}
         && target.status !in {Delivered, Read, Failed, Cancelled, Expired}
      then Some(WasCancelled(now)) else None
    case CompleteEvent(session, file, _) =>
      if file in db.files && db.files[file].status == Uploading && db.files[file].transfer == k.transfer
         && session == Session(task.senderUser, Some(task.senderDevice)) && target.route == Route.Node
      then Some(FileArrived) else None
    case ExpireEvent(file, now) =>
      if file in db.files && db.files[file].status != FileExpired && db.files[file].transfer == k.transfer
         && !HasOtherLiveFile(db, k, file)
      then Some(RanOut(now)) else None
    case _ => None
  }

  // The row before and after one touch, field by field.
  predicate Moves(before: Target, touch: Touch, after: Target) {
    match touch
    case Told(p, now) =>
      && after.status == p.status
      && after.route == (if p.route.Some? then p.route.value else before.route)
      && before.bytes <= after.bytes && p.bytes <= after.bytes && after.bytes in {before.bytes, p.bytes}
      && after.startedAt == Some(if before.startedAt.Some? then before.startedAt.value else now)
      && after.completedAt == (if p.status in {Delivered, Read, Failed} then Some(now) else before.completedAt)
      && after.readAt == (if p.status == Read then Some(now) else before.readAt)
      && after.errorCode == p.errorCode
    case WasRead(now) => after == before.(status := Read, readAt := Some(now))
    case WasRetried(now) =>
      after == Target(before.route, CheckingRoute, before.bytes, Some(now), None, None, "")
    case WasCancelled(now) => after == before.(status := Cancelled, completedAt := Some(now))
    case FileArrived => after == before.(status := AvailableOnNode)
    case RanOut(now) => after == before.(status := Expired, completedAt := Some(now))
  }

  // ---- reports ----

  ghost predicate GoesThrough(db: Database, session: Session, transfer: Id, p: Progress, now: Time) {
    && ValidProgress(session, transfer, p)
    && (p.key == "" || KeyOf(session, transfer, p) !in db.records)
    && MayReport(db, session.device.value, transfer, p.device)
    && var current := db.targets[TargetKey(transfer, p.device)].status;
       !Repeats(current, p.status) && !Refuses(current, p.status)
       && Visible(ReportedDatabase(db, transfer, p, now), session, transfer)
  }

  lemma PlainReportRows(db: Database, session: Session, transfer: Id, p: Progress, now: Time)
    requires session.device.Some? && MayReport(db, session.device.value, transfer, p.device)
    ensures var (next, reply) := ApplyReport(db, session, transfer, p, now);
      var current := db.targets[TargetKey(transfer, p.device)].status;
      && next.records == db.records
      && (reply.Ok? && (Repeats(current, p.status) || Refuses(current, p.status)) ==> next == db)
      && (!Repeats(current, p.status) && !Refuses(current, p.status) ==>
        next == ReportedDatabase(db, transfer, p, now)
        && (reply.Ok? <==> Visible(ReportedDatabase(db, transfer, p, now), session, transfer)))
  {
    hide WithLatest, AggregatedStatus, Reported, Repeats, Refuses;
  }

  lemma RecordsDoNotMatter(
    db: Database, records: map<RecordKey, Record>, session: Session, transfer: Id, p: Progress, now: Time)
    requires transfer in db.tasks
    requires TargetKey(transfer, p.device) in db.targets && TargetKey(transfer, p.device) in db.executions
    ensures ReportedDatabase(db.(records := records), transfer, p, now)
         == ReportedDatabase(db, transfer, p, now).(records := records)
    ensures Visible(ReportedDatabase(db.(records := records), transfer, p, now), session, transfer)
        <==> Visible(ReportedDatabase(db, transfer, p, now), session, transfer)
  {
    hide WithLatest, AggregatedStatus, Reported;
  }

  lemma ReportRows(node: Node, db: Database, session: Session, transfer: Id, p: Progress, now: Time)
    ensures var next := Report(node, db, session, transfer, p, now).0;
      if GoesThrough(db, session, transfer, p, now) then SameRows(ReportedDatabase(db, transfer, p, now), next)
      else SameRows(db, next)
  {
    hide ValidProgress, ReportedDatabase, Repeats, Refuses, Visible, MayReport, ApplyReport, ViewOf;
    if ValidProgress(session, transfer, p) {
      HasReporter(session, transfer, p);
      if !MayReport(db, session.device.value, transfer, p.device) {
        RefusedReporter(db, session, transfer, p, now);
      } else {
        MayReportFacts(db, session.device.value, transfer, p.device);
        PlainReportRows(db, session, transfer, p, now);
      }
      if p.key != "" {
        KeyedReportRows(node, db, session, transfer, p, now);
      }
    }
  }

  lemma HasReporter(session: Session, transfer: Id, p: Progress)
    requires ValidProgress(session, transfer, p)
    ensures session.device.Some?
  {
  }

  lemma MayReportFacts(db: Database, device: Id, transfer: Id, target: Id)
    requires MayReport(db, device, transfer, target)
    ensures transfer in db.tasks
    ensures TargetKey(transfer, target) in db.targets && TargetKey(transfer, target) in db.executions
  {
  }

  lemma RefusedReporter(db: Database, session: Session, transfer: Id, p: Progress, now: Time)
    requires session.device.Some? && !MayReport(db, session.device.value, transfer, p.device)
    ensures ApplyReport(db, session, transfer, p, now).1.Err?
  {
  }

  lemma KeyedReportRows(node: Node, db: Database, session: Session, transfer: Id, p: Progress, now: Time)
    requires ValidProgress(session, transfer, p) && p.key != ""
    ensures var next := Report(node, db, session, transfer, p, now).0;
      if GoesThrough(db, session, transfer, p, now) then SameRows(ReportedDatabase(db, transfer, p, now), next)
      else SameRows(db, next)
  {
    hide ValidProgress, ReportedDatabase, Repeats, Refuses, Visible, MayReport, ApplyReport, ViewOf;
    HasReporter(session, transfer, p);
    var rk := KeyOf(session, transfer, p);
    if rk !in db.records {
      var records := db.records[rk := Record(node.progressHash(Body(p)), Processing, None)];
      var pending := db.(records := records);
      MayReportIgnoresRecords(db, records, session.device.value, transfer, p.device);
      if MayReport(db, session.device.value, transfer, p.device) {
        MayReportFacts(db, session.device.value, transfer, p.device);
        RecordsDoNotMatter(db, records, session, transfer, p, now);
        PlainReportRows(pending, session, transfer, p, now);
        PlainReportRows(db, session, transfer, p, now);
      } else {
        RefusedReporter(pending, session, transfer, p, now);
      }
    }
  }

  lemma MayReportIgnoresRecords(
    db: Database, records: map<RecordKey, Record>, device: Id, transfer: Id, target: Id)
    ensures MayReport(db.(records := records), device, transfer, target) <==> MayReport(db, device, transfer, target)
  {
  }

  // A report changes rows exactly when it touches its target.
  lemma ReportTouches(node: Node, db: Database, e: Event)
    requires Consistent(db) && e.ReportEvent?
    ensures var k, next := TargetKey(e.transfer, e.progress.device), Step(node, db, e);
      if k in db.targets && TouchOf(db, e, k).Some?
      then SameRows(ReportedDatabase(db, e.transfer, e.progress, e.now), next)
      else SameRows(db, next)
  {
    hide Report, ReportedDatabase, ValidProgress, Repeats, Refuses, Visible, LeadsOn, ComesFromEitherEnd, SameRows,
         Sees;
    ReportRows(node, db, e.session, e.transfer, e.progress, e.now);
    var k := TargetKey(e.transfer, e.progress.device);
    if k in db.targets {
      GoesThroughIff(db, e.session, k, e.progress, e.now);
    }
  }

  lemma GoesThroughIff(db: Database, session: Session, k: TargetKey, p: Progress, now: Time)
    requires Consistent(db) && k in db.targets && p.device == k.device
    ensures GoesThrough(db, session, k.transfer, p, now) <==>
      && ComesFromEitherEnd(db, session, k, p) && db.executions[k] != [] && IsNews(db, session, k, p)
      && LeadsOn(db.targets[k].status, p.status) && Sees(db, session, k.transfer)
  {
    hide ReportedDatabase, Repeats, Refuses, LeadsOn, Visible, ValidProgress, MayReport, ComesFromEitherEnd;
    LeadsOnIff(db.targets[k].status, p.status);
    SeesIff(db, session, k, p, now);
    EitherEndIff(db, session, k, p);
    assert KeyOfIs(session, k, p);
  }

  predicate KeyOfIs(session: Session, k: TargetKey, p: Progress) {
    session.device.Some? && p.device == k.device ==>
      KeyOf(session, k.transfer, p)
      == RecordKey(session.device.value, "/api/transfers/" + k.transfer + "/targets/" + k.device, p.key)
  }

  lemma EitherEndIff(db: Database, session: Session, k: TargetKey, p: Progress)
    requires Consistent(db) && k in db.targets && p.device == k.device
    ensures ComesFromEitherEnd(db, session, k, p) && db.executions[k] != [] <==>
      ValidProgress(session, k.transfer, p) && MayReport(db, session.device.value, k.transfer, p.device)
    ensures ComesFromEitherEnd(db, session, k, p) ==> session.device.Some?
  {
    if p.route.Some? {
      RoutesToReport(p.route.value);
    }
  }

  lemma RoutesToReport(route: Route)
    ensures ReportableRoute(route) <==> route != NoRoute && route != Mixed
  {
  }

  lemma LeadsOnIff(current: Status, next: Status)
    ensures LeadsOn(current, next) <==> !Repeats(current, next) && !Refuses(current, next)
  {
  }

  lemma SeesIff(db: Database, session: Session, k: TargetKey, p: Progress, now: Time)
    requires Consistent(db) && k in db.targets && p.device == k.device
    ensures Visible(ReportedDatabase(db, k.transfer, p, now), session, k.transfer)
        <==> Sees(db, session, k.transfer)
  {
    hide WithLatest, AggregatedStatus, Reported;
  }

  // ---- every transaction, table by table ----

  ghost predicate TargetFollows(db: Database, e: Event, k: TargetKey, next: Database)
    requires Consistent(db) && k in db.targets
  {
    && k in next.targets
    && match TouchOf(db, e, k)
       case Some(touch) => Moves(db.targets[k], touch, next.targets[k])
       case None => next.targets[k] == db.targets[k]
  }

  lemma ReportMoves(before: Target, p: Progress, now: Time)
    ensures Moves(before, Told(p, now), Reported(before, p, now))
  {
  }

  lemma ReportStep(node: Node, db: Database, e: Event, k: TargetKey)
    requires Consistent(db) && k in db.targets && e.ReportEvent?
    ensures TargetFollows(db, e, k, Step(node, db, e))
  {
    hide Report, TouchOf, WithLatest, AggregatedStatus, Moves, Reported;
    ReportTouches(node, db, e);
    ReportMoves(db.targets[k], e.progress, e.now);
    if k != TargetKey(e.transfer, e.progress.device) {
      OtherTargetsAreNotTold(db, e, k);
    }
    var own := TargetKey(e.transfer, e.progress.device);
    if own in db.targets && TouchOf(db, e, own).Some? {
      ToldTouch(db, e);
    }
  }

  lemma OtherTargetsAreNotTold(db: Database, e: Event, k: TargetKey)
    requires Consistent(db) && k in db.targets && e.ReportEvent? && k != TargetKey(e.transfer, e.progress.device)
    ensures TouchOf(db, e, k) == None
  {
  }

  lemma ToldTouch(db: Database, e: Event)
    requires Consistent(db) && e.ReportEvent? && TargetKey(e.transfer, e.progress.device) in db.targets
    requires TouchOf(db, e, TargetKey(e.transfer, e.progress.device)).Some?
    ensures TouchOf(db, e, TargetKey(e.transfer, e.progress.device)) == Some(Told(e.progress, e.now))
  {
  }

  lemma CreateStep(node: Node, db: Database, e: Event, k: TargetKey)
    requires Consistent(db) && k in db.targets && e.CreateEvent?
    ensures TargetFollows(db, e, k, Step(node, db, e))
  {
    hide Accounting.Admits, ValidRequest, Deliverable, Prepare, NewTask, Inserted, ExecutionEffect, FileEffect,
         FileTargetEffect, Consistent;
    if Creatable(e.session, e.request, e.devices)
       && Accepts(node, db, e.session, e.key, e.request.group, Prepare(e.request, e.devices, e.now),
                  e.transfer, e.ids) {
      CreatedRows(node, db, e.session, e.key, e.request, e.devices, e.transfer, e.ids, e.now);
      TargetsHaveTasks(db, k);
    }
  }

  lemma TargetsHaveTasks(db: Database, k: TargetKey)
    requires Consistent(db) && k in db.targets
    ensures k.transfer in db.tasks && k in db.executions
  {
  }

  lemma ReadStep(node: Node, db: Database, e: Event, k: TargetKey)
    requires Consistent(db) && k in db.targets && (e.ReadEvent? || e.HideEvent?)
    ensures TargetFollows(db, e, k, Step(node, db, e))
  {
    hide WithLatest, MayHide;
  }

  lemma RetryStep(node: Node, db: Database, e: Event, k: TargetKey)
    requires Consistent(db) && k in db.targets && e.RetryEvent?
    ensures TargetFollows(db, e, k, Step(node, db, e))
  {
    hide MaxAttempt;
  }

  lemma CancelStep(node: Node, db: Database, e: Event, k: TargetKey)
    requires Consistent(db) && k in db.targets && e.CancelEvent?
    ensures TargetFollows(db, e, k, Step(node, db, e))
  {
    hide CancelledFileTargets;
  }

  lemma CompleteStep(node: Node, db: Database, e: Event, k: TargetKey)
    requires Consistent(db) && k in db.targets && e.CompleteEvent?
    ensures TargetFollows(db, e, k, Step(node, db, e))
  {
  }

  lemma ExpireStep(node: Node, db: Database, e: Event, k: TargetKey)
    requires Consistent(db) && k in db.targets && e.ExpireEvent?
    ensures TargetFollows(db, e, k, Step(node, db, e))
  {
    hide AllTargetsIn, HasLiveFile, HasOtherLiveFile, FilesLinked, FullProduct;
    if e.file in db.files && !db.files[e.file].status.FileExpired? && db.files[e.file].transfer == k.transfer {
      LiveFileIff(node, db, e, k);
    }
  }

  lemma LiveFileIff(node: Node, db: Database, e: Event, k: TargetKey)
    requires e.ExpireEvent? && e.file in db.files && !db.files[e.file].status.FileExpired?
    ensures var next := Step(node, db, e);
      HasLiveFile(next.files, next.fileTargets, k.transfer, k.device) <==> HasOtherLiveFile(db, k, e.file)
  {
    hide ExpiredTargets, AllTargetsIn;
    var next := Step(node, db, e);
    assert forall f :: FileKey(f, k.device) in next.fileTargets <==> FileKey(f, k.device) in db.fileTargets;
  }

  // Every transaction moves a target by the one touch it is, and otherwise leaves it alone.
  lemma TargetStep(node: Node, db: Database, e: Event, k: TargetKey)
    requires Consistent(db) && k in db.targets
    ensures TargetFollows(db, e, k, Step(node, db, e))
  {
    hide Step, TargetFollows, Consistent;
    match e
    case CreateEvent(_, _, _, _, _, _, _) => CreateStep(node, db, e, k);
    case ReportEvent(_, _, _, _) => ReportStep(node, db, e, k);
    case RetryEvent(_, _, _, _, _) => RetryStep(node, db, e, k);
    case CancelEvent(_, _, _) => CancelStep(node, db, e, k);
    case ReadEvent(_, _, _) => ReadStep(node, db, e, k);
    case HideEvent(_, _) => ReadStep(node, db, e, k);
    case CompleteEvent(_, _, _) => CompleteStep(node, db, e, k);
    case ExpireEvent(_, _) => ExpireStep(node, db, e, k);
  }

  // Every target of the transfer has one of these statuses.
  ghost predicate AllHave(db: Database, transfer: Id, statuses: set<Status>) {
    forall k :: k in db.targets && k.transfer == transfer ==> db.targets[k].status in statuses
  }

  // What a report makes of the status of its task, given the targets it leaves.
  ghost predicate Decides(next: Database, transfer: Id, before: Status, reported: Status, after: Status) {
    if AllHave(next, transfer, {Read}) then after == Read
    else if AllHave(next, transfer, {Delivered, Read}) then after == Delivered
    else if AllHave(next, transfer, {Failed, Cancelled, Expired}) then after == Failed
    else after == if reported == Delivered || reported == Read || reported == Failed then before else reported
  }

  ghost predicate Touched(db: Database, e: Event, k: TargetKey) {
    Consistent(db) && k in db.targets && TouchOf(db, e, k).Some?
  }

  // The task's status after the event.
  ghost predicate StatusFollows(db: Database, e: Event, t: Id, next: Database)
    requires t in db.tasks && t in next.tasks
  {
    var before, after := db.tasks[t], next.tasks[t].status;
    match e
    case ReportEvent(_, transfer, p, _) =>
      if transfer == t && Touched(db, e, TargetKey(t, p.device))
      then Decides(next, t, before.status, p.status, after) else after == before.status
    case RetryEvent(_, transfer, device, _, _) =>
      after == if transfer == t && Touched(db, e, TargetKey(t, device)) then CheckingRoute else before.status
    case CancelEvent(session, transfer, _) =>
      after == if transfer == t && before.senderUser == session.user
                  && before.status !in {Delivered, Read, Failed, Cancelled, Expired}
               then Cancelled else before.status
    case ExpireEvent(file, _) =>
      after == if file in db.files && db.files[file].status != FileExpired && db.files[file].transfer == t
                  && AllHave(next, t, {Expired})
               then Expired else before.status
    case _ => after == before.status
  }

  // Hidden for one user more, the sender or the user of a receiving device, by a hide alone.
  ghost predicate HidingFollows(node: Node, db: Database, e: Event, t: Id, next: Database)
    requires t in db.tasks && t in next.tasks
  {
    var receiver := e.HideEvent? && e.session.device.Some?
      && exists k :: k in db.targets && k.transfer == t && node.deviceUser(k.device) == e.session.user;
    next.tasks[t].hiddenFor ==
      db.tasks[t].hiddenFor
      + (if e.HideEvent? && e.transfer == t && (db.tasks[t].senderUser == e.session.user || receiver)
         then {e.session.user} else {})
  }

  ghost predicate TaskFollows(node: Node, db: Database, e: Event, t: Id, next: Database)
    requires t in db.tasks
  {
    && t in next.tasks
    && db.tasks[t].(status := next.tasks[t].status, hiddenFor := next.tasks[t].hiddenFor) == next.tasks[t]
    && StatusFollows(db, e, t, next) && HidingFollows(node, db, e, t, next)
  }

  lemma ReportTask(node: Node, db: Database, e: Event, t: Id)
    requires Consistent(db) && t in db.tasks && e.ReportEvent?
    ensures TaskFollows(node, db, e, t, Step(node, db, e))
  {
    hide Report, TouchOf, WithLatest, Reported, Decides, AggregatedStatus, Consistent;
    ReportTouches(node, db, e);
    if Touched(db, e, TargetKey(e.transfer, e.progress.device)) {
      TargetsHaveTasks(db, TargetKey(e.transfer, e.progress.device));
      ReportDecides(db, e.transfer, e.progress, e.now);
      SameTargetsDecide(ReportedDatabase(db, e.transfer, e.progress, e.now), Step(node, db, e));
    }
  }

  lemma SameTargetsDecide(a: Database, b: Database)
    requires a.targets == b.targets
    ensures forall t, before, reported, after ::
      Decides(a, t, before, reported, after) ==> Decides(b, t, before, reported, after)
  {
    assert forall t, statuses :: AllHave(a, t, statuses) <==> AllHave(b, t, statuses);
  }

  lemma ReportDecides(db: Database, transfer: Id, p: Progress, now: Time)
    requires transfer in db.tasks
    requires TargetKey(transfer, p.device) in db.targets && TargetKey(transfer, p.device) in db.executions
    ensures var next := ReportedDatabase(db, transfer, p, now);
      Decides(next, transfer, db.tasks[transfer].status, p.status, next.tasks[transfer].status)
  {
    hide WithLatest, Reported;
    var next := ReportedDatabase(db, transfer, p, now);
    assert forall statuses :: AllHave(next, transfer, statuses) <==> AllTargetsIn(next.targets, transfer, statuses);
  }

  lemma CreateTask(node: Node, db: Database, e: Event, t: Id)
    requires t in db.tasks && e.CreateEvent?
    ensures TaskFollows(node, db, e, t, Step(node, db, e))
  {
    hide Accounting.Admits, ValidRequest, Deliverable, Prepare, NewTask, TargetInserts, ExecutionInserts, FileInserts,
         FileTargetInserts;
  }

  lemma ExpireTask(node: Node, db: Database, e: Event, t: Id)
    requires t in db.tasks && e.ExpireEvent?
    ensures TaskFollows(node, db, e, t, Step(node, db, e))
  {
    hide ExpiredTargets;
  }

  lemma RetryTouches(db: Database, e: Event)
    requires Consistent(db) && e.RetryEvent?
    ensures RetryAccepted(db, e.session, e.transfer, e.device, e.key)
        <==> Touched(db, e, TargetKey(e.transfer, e.device))
  {
  }

  lemma RetryTask(node: Node, db: Database, e: Event, t: Id)
    requires Consistent(db) && t in db.tasks && e.RetryEvent?
    ensures TaskFollows(node, db, e, t, Step(node, db, e))
  {
    hide MaxAttempt, Retried, Consistent, Touched, RetryAccepted;
    RetryTouches(db, e);
    if RetryAccepted(db, e.session, e.transfer, e.device, e.key) {
      AcceptedRetryFacts(db, e);
    }
  }

  lemma AcceptedRetryFacts(db: Database, e: Event)
    requires e.RetryEvent? && RetryAccepted(db, e.session, e.transfer, e.device, e.key)
    ensures e.transfer in db.tasks
    ensures TargetKey(e.transfer, e.device) in db.targets && TargetKey(e.transfer, e.device) in db.executions
  {
  }

  lemma OtherTask(node: Node, db: Database, e: Event, t: Id)
    requires t in db.tasks && (e.CancelEvent? || e.ReadEvent? || e.CompleteEvent?)
    ensures TaskFollows(node, db, e, t, Step(node, db, e))
  {
    hide CancelledTargets, CancelledFileTargets, WithLatest, AvailableTargets, TouchOf, AllHave;
  }

  lemma HideTask(node: Node, db: Database, e: Event, t: Id)
    requires t in db.tasks && e.HideEvent?
    ensures TaskFollows(node, db, e, t, Step(node, db, e))
  {
  }

  // The status of a task and who hides it change only so; the rest of it never changes.
  lemma TaskStep(node: Node, db: Database, e: Event, t: Id)
    requires Consistent(db) && t in db.tasks
    ensures TaskFollows(node, db, e, t, Step(node, db, e))
  {
    hide Step, TaskFollows, Consistent;
    match e
    case CreateEvent(_, _, _, _, _, _, _) => CreateTask(node, db, e, t);
    case ReportEvent(_, _, _, _) => ReportTask(node, db, e, t);
    case RetryEvent(_, _, _, _, _) => RetryTask(node, db, e, t);
    case ExpireEvent(_, _) => ExpireTask(node, db, e, t);
    case HideEvent(_, _) => HideTask(node, db, e, t);
    case _ => OtherTask(node, db, e, t);
  }

  // ---- attempts ----

  // The rows with the highest attempt number take the status.
  predicate LatestTakes(before: seq<Execution>, status: Status, after: seq<Execution>) {
    && |after| == |before|
    && forall i :: 0 <= i < |before| ==>
      after[i] == if forall j :: 0 <= j < |before| ==> before[j].attempt <= before[i].attempt
                  then before[i].(status := status) else before[i]
  }

  // One attempt more than any before, and at least the first.
  predicate NextAttempt(before: seq<Execution>, key: string, after: seq<Execution>) {
    && |after| == |before| + 1 && after[..|before|] == before
    && after[|before|].status == CheckingRoute && after[|before|].key == Some(key)
    && after[|before|].attempt >= 1
    && (forall j :: 0 <= j < |before| ==> before[j].attempt < after[|before|].attempt)
    && (after[|before|].attempt == 1
        || exists j :: 0 <= j < |before| && before[j].attempt == after[|before|].attempt - 1)
  }

  ghost predicate AttemptsFollow(db: Database, e: Event, k: TargetKey, next: Database)
    requires k in db.executions
  {
    && k in next.executions
    && var before, after := db.executions[k], next.executions[k];
       if e.ReportEvent? && Touched(db, e, k) then LatestTakes(before, e.progress.status, after)
       else if e.ReadEvent? && Touched(db, e, k) then LatestTakes(before, Read, after)
       else if e.RetryEvent? && Touched(db, e, k) then NextAttempt(before, e.key, after)
       else after == before
  }

  lemma {:induction false} MaxAttemptIsHighest(rows: seq<Execution>)
    ensures MaxAttempt(rows) >= 0
    ensures forall i :: 0 <= i < |rows| ==> rows[i].attempt <= MaxAttempt(rows)
    ensures MaxAttempt(rows) == 0 || exists i :: 0 <= i < |rows| && rows[i].attempt == MaxAttempt(rows)
  {
    if rows != [] {
      MaxAttemptIsHighest(rows[..|rows| - 1]);
    }
  }

  lemma LatestIsLatest(rows: seq<Execution>, status: Status)
    requires forall i :: 0 <= i < |rows| ==> rows[i].attempt >= 1
    ensures LatestTakes(rows, status, WithLatest(rows, status))
  {
    MaxAttemptIsHighest(rows);
    hide MaxAttempt;
    if rows != [] {
      assert rows[0].attempt >= 1;
      var m :| 0 <= m < |rows| && rows[m].attempt == MaxAttempt(rows);
    }
  }

  // A report and a read mark the latest attempt, a retry opens the next one, and nothing else does.
  lemma AttemptStep(node: Node, db: Database, e: Event, k: TargetKey)
    requires Consistent(db) && k in db.executions
    requires forall i :: 0 <= i < |db.executions[k]| ==> db.executions[k][i].attempt >= 1
    ensures AttemptsFollow(db, e, k, Step(node, db, e))
  {
    hide Step, AttemptsFollow, Consistent, LatestTakes;
    match e
    case CreateEvent(_, _, _, _, _, _, _) => CreateAttempts(node, db, e, k);
    case ReportEvent(_, _, _, _) => ReportAttempts(node, db, e, k);
    case ReadEvent(_, _, _) => ReadAttempts(node, db, e, k);
    case RetryEvent(_, _, _, _, _) => RetryAttempts(node, db, e, k);
    case _ => OtherAttempts(node, db, e, k);
  }

  lemma CreateAttempts(node: Node, db: Database, e: Event, k: TargetKey)
    requires Consistent(db) && k in db.executions && e.CreateEvent?
    ensures AttemptsFollow(db, e, k, Step(node, db, e))
  {
    hide Accounting.Admits, ValidRequest, Deliverable, Prepare, NewTask, Inserted, TargetEffect, FileEffect,
         FileTargetEffect, Consistent;
    if Creatable(e.session, e.request, e.devices)
       && Accepts(node, db, e.session, e.key, e.request.group, Prepare(e.request, e.devices, e.now),
                  e.transfer, e.ids) {
      CreatedRows(node, db, e.session, e.key, e.request, e.devices, e.transfer, e.ids, e.now);
      AttemptsHaveTasks(db, k);
    }
  }

  lemma AttemptsHaveTasks(db: Database, k: TargetKey)
    requires Consistent(db) && k in db.executions
    ensures k.transfer in db.tasks && k in db.targets
  {
  }

  lemma ReportAttempts(node: Node, db: Database, e: Event, k: TargetKey)
    requires Consistent(db) && k in db.executions && e.ReportEvent?
    requires forall i :: 0 <= i < |db.executions[k]| ==> db.executions[k][i].attempt >= 1
    ensures AttemptsFollow(db, e, k, Step(node, db, e))
  {
    hide Report, TouchOf, WithLatest, Reported, AggregatedStatus, Consistent, LatestTakes;
    ReportTouches(node, db, e);
    AttemptsHaveTasks(db, k);
    LatestIsLatest(db.executions[k], e.progress.status);
    if k != TargetKey(e.transfer, e.progress.device) {
      OtherTargetsAreNotTold(db, e, k);
    }
  }

  lemma ReadAttempts(node: Node, db: Database, e: Event, k: TargetKey)
    requires Consistent(db) && k in db.executions && e.ReadEvent?
    requires forall i :: 0 <= i < |db.executions[k]| ==> db.executions[k][i].attempt >= 1
    ensures AttemptsFollow(db, e, k, Step(node, db, e))
  {
    hide WithLatest, LatestTakes;
    LatestIsLatest(db.executions[k], Read);
  }

  lemma RetryAttempts(node: Node, db: Database, e: Event, k: TargetKey)
    requires Consistent(db) && k in db.executions && e.RetryEvent?
    ensures AttemptsFollow(db, e, k, Step(node, db, e))
  {
    hide Consistent, TouchOf, MaxAttempt, KeyUsed, Retryable;
    AttemptsHaveTasks(db, k);
    RetryTouches(db, e);
    MaxAttemptIsHighest(db.executions[k]);
    if k != TargetKey(e.transfer, e.device) {
      OtherTargetsAreNotRetried(db, e, k);
    }
  }

  lemma OtherTargetsAreNotRetried(db: Database, e: Event, k: TargetKey)
    requires Consistent(db) && k in db.targets && e.RetryEvent? && k != TargetKey(e.transfer, e.device)
    ensures TouchOf(db, e, k) == None
  {
  }

  lemma OtherAttempts(node: Node, db: Database, e: Event, k: TargetKey)
    requires k in db.executions && (e.CancelEvent? || e.HideEvent? || e.CompleteEvent? || e.ExpireEvent?)
    ensures AttemptsFollow(db, e, k, Step(node, db, e))
  {
    hide CancelledTargets, CancelledFileTargets, AvailableTargets, ExpiredTargets, AllTargetsIn, MayHide, TouchOf;
  }

  // ---- files and their rows by device ----

  ghost predicate Completes(db: Database, e: Event, file: Id) {
    && e.CompleteEvent? && e.file == file && file in db.files && db.files[file].status == Uploading
    && db.files[file].transfer in db.tasks
    && var task := db.tasks[db.files[file].transfer];
       e.session == Session(task.senderUser, Some(task.senderDevice))
  }

  predicate Expires(db: Database, e: Event, file: Id) {
    e.ExpireEvent? && e.file == file && file in db.files && db.files[file].status != FileExpired
  }

  // The cancel of an unsettled transfer by its sender.
  predicate Cancels(db: Database, e: Event, t: Id) {
    && e.CancelEvent? && e.transfer == t && t in db.tasks && db.tasks[t].senderUser == e.session.user
    && db.tasks[t].status !in {Delivered, Read, Failed, Cancelled, Expired}
  }

  ghost predicate FileFollows(db: Database, e: Event, f: Id, next: Database)
    requires f in db.files
  {
    && f in next.files
    && next.files[f] ==
      if Completes(db, e, f) then db.files[f].(status := OnNode, storagePath := e.path)
      else if Expires(db, e, f) then db.files[f].(status := FileExpired, storagePath := "")
      else db.files[f]
  }

  ghost predicate FileTargetFollows(db: Database, e: Event, k: FileKey, next: Database)
    requires k in db.fileTargets && k.file in db.files
  {
    var before := db.fileTargets[k];
    && k in next.fileTargets
    && next.fileTargets[k] ==
      if Completes(db, e, k.file) && before.route == Route.Node then FileTarget(before.route, AvailableOnNode)
      else if Expires(db, e, k.file) then FileTarget(before.route, Expired)
      else if Cancels(db, e, db.files[k.file].transfer)
              && before.status !in {Delivered, Read, Failed, Cancelled, Expired}
      then FileTarget(before.route, Cancelled)
      else before
  }

  lemma CreateLeavesFiles(node: Node, db: Database, e: Event)
    requires e.CreateEvent?
    ensures var next := Step(node, db, e);
      && (forall f :: f in db.files ==> f in next.files && next.files[f] == db.files[f])
      && (Consistent(db) ==> forall k :: k in db.fileTargets ==>
        k in next.fileTargets && next.fileTargets[k] == db.fileTargets[k])
  {
    hide Accounting.Admits, ValidRequest, Deliverable, Prepare, NewTask, Inserted, TargetEffect, ExecutionEffect,
         TargetsLinked, FullProduct;
    if Creatable(e.session, e.request, e.devices)
       && Accepts(node, db, e.session, e.key, e.request.group, Prepare(e.request, e.devices, e.now),
                  e.transfer, e.ids) {
      CreatedRows(node, db, e.session, e.key, e.request, e.devices, e.transfer, e.ids, e.now);
    }
  }

  // A file changes by its completion or its expiry alone.
  lemma FileStep(node: Node, db: Database, e: Event, f: Id)
    requires f in db.files
    ensures FileFollows(db, e, f, Step(node, db, e))
  {
    hide Create, Report, Retry, Cancel, ReadTransfer, Hide, AvailableTargets, ExpiredTargets, AllTargetsIn;
    match e
    case CreateEvent(_, _, _, _, _, _, _) => CreateLeavesFiles(node, db, e);
    case ReportEvent(_, _, _, _) => OtherFiles(node, db, e);
    case RetryEvent(_, _, _, _, _) => OtherFiles(node, db, e);
    case CancelEvent(_, _, _) => OtherFiles(node, db, e);
    case ReadEvent(_, _, _) => OtherFiles(node, db, e);
    case HideEvent(_, _) => OtherFiles(node, db, e);
    case _ =>
  }

  lemma OtherFiles(node: Node, db: Database, e: Event)
    requires e.ReportEvent? || e.RetryEvent? || e.CancelEvent? || e.ReadEvent? || e.HideEvent?
    ensures Step(node, db, e).files == db.files
    ensures !e.CancelEvent? ==> Step(node, db, e).fileTargets == db.fileTargets
  {
    hide Report, ReportedDatabase, WithLatest, MaxAttempt, CancelledTargets, CancelledFileTargets, MayHide;
    if e.ReportEvent? {
      ReportCases(node, db, e.session, e.transfer, e.progress, e.now);
      if ReportTakesEffect(db, e.transfer, e.progress) {
        ReportLeavesFiles(db, e.transfer, e.progress, e.now);
      }
    }
  }

  lemma ReportLeavesFiles(db: Database, transfer: Id, p: Progress, now: Time)
    requires ReportTakesEffect(db, transfer, p)
    ensures var next := ReportedDatabase(db, transfer, p, now);
      next.files == db.files && next.fileTargets == db.fileTargets
  {
  }

  // The row of a file and a device changes with its file, or by a cancel.
  lemma FileTargetStep(node: Node, db: Database, e: Event, k: FileKey)
    requires Consistent(db) && k in db.fileTargets
    ensures k.file in db.files && FileTargetFollows(db, e, k, Step(node, db, e))
  {
    hide Create, Report, Retry, ReadTransfer, Hide, AvailableTargets, ExpiredTargets, AllTargetsIn, CancelledTargets,
         TargetsLinked, FullProduct;
    match e
    case CreateEvent(_, _, _, _, _, _, _) => CreateLeavesFiles(node, db, e);
    case ReportEvent(_, _, _, _) => OtherFiles(node, db, e);
    case RetryEvent(_, _, _, _, _) => OtherFiles(node, db, e);
    case ReadEvent(_, _, _) => OtherFiles(node, db, e);
    case HideEvent(_, _) => OtherFiles(node, db, e);
    case _ =>
  }
}
