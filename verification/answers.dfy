/**
 What callers are told: what a transfer shows and to whom, how a report is answered in every case, and
 from where each status can be reported.
 */
module Answers {
  import opened Wrappers
  import opened Domain
  import opened Requests
  import opened Tables
  import opened Transactions
  import opened Runs
  import opened Consistency
  import opened Effects

  // The view holds the status of the task and, for each of its targets, route, status and bytes.
  ghost predicate Shows(db: Database, transfer: Id, view: View)
    requires transfer in db.tasks
  {
    && view.transfer == transfer && view.status == db.tasks[transfer].status
    && (forall d :: d in view.targets <==> TargetKey(transfer, d) in db.targets)
    && forall d :: d in view.targets ==>
      var target := db.targets[TargetKey(transfer, d)];
      view.targets[d] == TargetView(target.route, target.status, target.bytes)
  }

  // A transfer is shown to its sender and its receiving devices unless the user has hidden it.
  lemma ShownIff(db: Database, session: Session, transfer: Id)
    ensures var reply := GetTransfer(db, session, transfer);
      if transfer in db.tasks && Sees(db, session, transfer)
      then reply.Ok? && Shows(db, transfer, reply.value) else reply == Err(NotFound)
  {
    if transfer in db.tasks {
      ViewShows(db, transfer);
    }
  }

  lemma ViewShows(db: Database, transfer: Id)
    requires transfer in db.tasks
    ensures Shows(db, transfer, ViewOf(db, transfer))
  {
    var view := ViewOf(db, transfer);
    forall d | TargetKey(transfer, d) in db.targets
      ensures d in view.targets
    {
      assert TargetKey(transfer, d).device == d;
    }
  }

  // What a user has hidden stays hidden from that user, on every device and in every run.
  lemma {:induction false} HiddenStaysHidden(
    node: Node, db: Database, events: seq<Event>, session: Session, transfer: Id)
    requires Consistent(db) && transfer in db.tasks && session.user in db.tasks[transfer].hiddenFor
    ensures var end := Run(node, db, events);
      && transfer in end.tasks && session.user in end.tasks[transfer].hiddenFor
      && GetTransfer(end, session, transfer) == Err(NotFound)
  {
    hide Step, Consistent, StatusFollows;
    if events != [] {
      var init := events[..|events| - 1];
      HiddenStaysHidden(node, db, init, session, transfer);
      RunKeepsConsistent(node, db, init);
      TaskStep(node, Run(node, db, init), events[|events| - 1], transfer);
    }
  }

  // ---- reports ----

  // A report from either end, under no key or a new one: told twice it is answered alike, where it leads
  // on it is answered with the rows it leaves, and otherwise it conflicts.
  lemma ReportIsAnswered(node: Node, db: Database, session: Session, k: TargetKey, p: Progress, now: Time)
    requires Consistent(db) && k in db.targets && db.executions[k] != []
    requires ComesFromEitherEnd(db, session, k, p) && IsNews(db, session, k, p) && Sees(db, session, k.transfer)
    ensures var (next, reply) := Report(node, db, session, k.transfer, p, now);
      var current := db.targets[k].status;
      if current == p.status && current in {Delivered, Read, Failed, Cancelled, Expired}
      then reply.Ok? && Shows(db, k.transfer, reply.value) && next.targets == db.targets
      else if LeadsOn(current, p.status)
      then reply.Ok? && k.transfer in next.tasks && Shows(next, k.transfer, reply.value)
      else reply == Err(Conflict)
  {
    hide Report, ApplyReport, ValidProgress, MayReport, LeadsOn, Sees, Consistent, Shows;
    TargetsHaveTasks(db, k);
    EitherEndIff(db, session, k, p);
    LeadsOnIff(db.targets[k].status, p.status);
    if p.key == "" {
      PlainAnswer(db, session, k, p, now);
      UnkeyedReport(node, db, session, k, p, now);
    } else {
      var records := db.records[KeyOf(session, k.transfer, p) := Record(node.progressHash(Body(p)), Processing, None)];
      var pending := db.(records := records);
      SameButRecords(db, records, session, k, p);
      PlainAnswer(pending, session, k, p, now);
      assert KeyOfIs(session, k, p);
      KeyedReport(node, db, session, k, p, now);
      ShowsIgnoresRecords(pending, db, k.transfer);
      if ApplyReport(pending, session, k.transfer, p, now).1.Ok? {
        ShowsIgnoresRecords(ApplyReport(pending, session, k.transfer, p, now).0,
                            Report(node, db, session, k.transfer, p, now).0, k.transfer);
      }
    }
  }

  lemma SameButRecords(
    db: Database, records: map<RecordKey, Record>, session: Session, k: TargetKey, p: Progress)
    requires Consistent(db) && k in db.targets && session.device.Some?
    ensures Consistent(db.(records := records))
    ensures MayReport(db, session.device.value, k.transfer, p.device)
        <==> MayReport(db.(records := records), session.device.value, k.transfer, p.device)
    ensures Sees(db, session, k.transfer) <==> Sees(db.(records := records), session, k.transfer)
  {
  }

  lemma ShowsIgnoresRecords(a: Database, b: Database, transfer: Id)
    requires a.(records := b.records) == b
    ensures transfer in a.tasks ==> forall view :: Shows(a, transfer, view) <==> Shows(b, transfer, view)
  {
  }

  lemma PlainAnswer(db: Database, session: Session, k: TargetKey, p: Progress, now: Time)
    requires Consistent(db) && k in db.targets && p.device == k.device && session.device.Some?
    requires MayReport(db, session.device.value, k.transfer, p.device) && Sees(db, session, k.transfer)
    ensures var (next, reply) := ApplyReport(db, session, k.transfer, p, now);
      var current := db.targets[k].status;
      && k.transfer in next.tasks && next.records == db.records
      && if Repeats(current, p.status) then next == db && reply.Ok? && Shows(db, k.transfer, reply.value)
         else if Refuses(current, p.status) then reply == Err(Conflict)
         else reply.Ok? && Shows(next, k.transfer, reply.value)
  {
    hide Repeats, Refuses, ReportedDatabase, Visible, ViewOf, Shows;
    TargetsHaveTasks(db, k);
    SeesIff(db, session, k, p, now);
    VisibleIff(db, session, k.transfer);
    ViewShows(db, k.transfer);
    ReportedKeepsTask(db, k, p, now);
    ViewShows(ReportedDatabase(db, k.transfer, p, now), k.transfer);
  }

  lemma VisibleIff(db: Database, session: Session, transfer: Id)
    requires transfer in db.tasks
    ensures Visible(db, session, transfer) <==> Sees(db, session, transfer)
  {
  }

  lemma ReportedKeepsTask(db: Database, k: TargetKey, p: Progress, now: Time)
    requires k.transfer in db.tasks && k in db.targets && k in db.executions && p.device == k.device
    ensures var next := ReportedDatabase(db, k.transfer, p, now);
      k.transfer in next.tasks && next.records == db.records
  {
  }

  lemma UnkeyedReport(node: Node, db: Database, session: Session, k: TargetKey, p: Progress, now: Time)
    requires ValidProgress(session, k.transfer, p) && session.device.Some? && p.key == ""
    ensures var (applied, reply) := ApplyReport(db, session, k.transfer, p, now);
      Report(node, db, session, k.transfer, p, now) == if reply.Err? then (db, reply) else (applied, reply)
  {
    hide ApplyReport, ValidProgress;
  }

  lemma KeyedReport(node: Node, db: Database, session: Session, k: TargetKey, p: Progress, now: Time)
    requires ValidProgress(session, k.transfer, p) && session.device.Some? && p.key != ""
    requires KeyOf(session, k.transfer, p) !in db.records
    requires var rk := KeyOf(session, k.transfer, p);
      var pending := db.(records := db.records[rk := Record(node.progressHash(Body(p)), Processing, None)]);
      ApplyReport(pending, session, k.transfer, p, now).0.records == pending.records
    ensures var rk := KeyOf(session, k.transfer, p);
      var pending := db.(records := db.records[rk := Record(node.progressHash(Body(p)), Processing, None)]);
      var (applied, reply) := ApplyReport(pending, session, k.transfer, p, now);
      var (next, answer) := Report(node, db, session, k.transfer, p, now);
      && answer == reply
      && (reply.Ok? ==> applied.(records := next.records) == next)
  {
    hide ApplyReport, ValidProgress;
  }

  // A report from anywhere else, or on a target that does not exist, is forbidden and changes nothing.
  lemma StrangersAreForbidden(node: Node, db: Database, session: Session, transfer: Id, p: Progress, now: Time)
    requires ValidProgress(session, transfer, p) && p.key == ""
    requires transfer !in db.tasks || TargetKey(transfer, p.device) !in db.targets
      || (session.device != Some(p.device) && session.device != Some(db.tasks[transfer].senderDevice))
    ensures Report(node, db, session, transfer, p, now) == (db, Err(Forbidden))
  {
    hide ValidProgress;
    HasReporter(session, transfer, p);
  }

  // ---- the table, from where each status is reached ----

  // READ, for example, is reported from DELIVERED alone, and nothing leads back to CREATED.
  function ReachedFrom(next: Status): set<Status> {
    match next
    case Read => {Delivered}
    case Delivered => {Verifying}
    case Verifying => {TransferringLan, Downloading}
    case Downloading => {AvailableOnNode}
    case AvailableOnNode => {UploadingToNode}
    case UploadingToNode => {Queued}
    case Queued => {CheckingRoute}
    case TransferringLan => {CheckingRoute}
    case WaitingForTarget => {CheckingRoute}
    case WaitingForNode => {CheckingRoute}
    case WaitingForLan => {CheckingRoute}
    case CheckingRoute => {Created, WaitingForLan, SourceFileMissing, SourceFileChanged}
    case SourceFileMissing => {WaitingForLan}
    case SourceFileChanged => {WaitingForLan}
    case Paused => {UploadingToNode, Downloading, TransferringLan, WaitingForLan}
    case Failed => {CheckingRoute, UploadingToNode, Downloading, TransferringLan, Verifying}
    case Expired => {Queued, AvailableOnNode, WaitingForLan}
    case Cancelled =>
      {CheckingRoute, Queued, UploadingToNode, AvailableOnNode, TransferringLan, Downloading, WaitingForLan}
    case Created => {}
  }

  // How far a status is from being settled, at most, once the route is found.
  function Remaining(status: Status): nat {
    match status
    case Queued => 6
    case UploadingToNode => 5
    case AvailableOnNode => 4
    case Downloading => 3
    case TransferringLan => 3
    case Verifying => 2
    case Delivered => 1
    case _ => 0
  }

  lemma TransitionsIff(current: Status, next: Status)
    ensures current.CanTransitionTo(next) <==> current in ReachedFrom(next)
  {
    hide ReachedFrom;
    if current.CanTransitionTo(next) {
      Forwards(current, next);
    }
    if current in ReachedFrom(next) {
      Backwards(current, next);
    }
  }

  lemma Forwards(current: Status, next: Status)
    requires current.CanTransitionTo(next)
    ensures current in ReachedFrom(next)
  {
  }

  lemma Backwards(current: Status, next: Status)
    requires current in ReachedFrom(next)
    ensures current.CanTransitionTo(next)
  {
  }

  // Once the content is on its way every reported step brings the target closer to its end.
  lemma ProgressEnds(current: Status, next: Status)
    requires current.CanTransitionTo(next) && Remaining(current) > 0
    ensures Remaining(next) < Remaining(current)
  {
  }
}
