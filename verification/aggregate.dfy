/**
 The task status is a summary of its targets: DELIVERED means every target has it, READ means
 every target has read it, FAILED means every target has ended without.
 */
module Aggregate {
  import opened Domain
  import opened Requests
  import opened Tables
  import opened Transactions
  import opened Runs
  import opened Consistency

  ghost predicate TaskSummarises(db: Database, transfer: Id)
    requires transfer in db.tasks
  {
    && (db.tasks[transfer].status.Delivered? ==> AllTargetsIn(db.targets, transfer, {Delivered, Read}))
    && (db.tasks[transfer].status.Read? ==> AllTargetsIn(db.targets, transfer, {Read}))
    && (db.tasks[transfer].status.Failed? ==> AllTargetsIn(db.targets, transfer, {Failed, Cancelled, Expired}))
  }

  ghost predicate Summarised(db: Database) {
    forall t :: t in db.tasks ==> TaskSummarises(db, t)
  }

  lemma CreateKeepsSummary(node: Node, db: Database, e: Event)
    requires Consistent(db) && Summarised(db) && e.CreateEvent?
    ensures Summarised(Step(node, db, e))
  {
    hide Accounting.Admits, ValidRequest, Deliverable, TargetRow, FileRoute, Inserted, ExecutionEffect, FileEffect,
         FileTargetEffect, TargetRows, FileTargetRows;
    var prepared := Prepare(e.request, e.devices, e.now);
    var next := Step(node, db, e);
    if Creatable(e.session, e.request, e.devices)
       && Accepts(node, db, e.session, e.key, e.request.group, prepared, e.transfer, e.ids) {
      CreatedRows(node, db, e.session, e.key, e.request, e.devices, e.transfer, e.ids, e.now);
      assert prepared.status in {WaitingForLan, Queued};
      forall t | t in next.tasks
        ensures TaskSummarises(next, t)
      {
        if t != e.transfer {
          assert TaskSummarises(db, t);
          assert forall k :: k in next.targets && k.transfer == t ==>
            k in db.targets && next.targets[k] == db.targets[k];
        }
      }
    }
  }

  // A report on a delivered transfer can only mark a target READ, so the summary is recomputed upwards.
  lemma ReportKeepsSummary(node: Node, db: Database, e: Event)
    requires Summarised(db) && e.ReportEvent?
    ensures Summarised(Step(node, db, e))
  {
    hide Report, WithLatest, Reportable, ReportTakesEffect, ReportedDatabase, AllTargetsIn;
    ReportCases(node, db, e.session, e.transfer, e.progress, e.now);
    var next := Step(node, db, e);
    if SameRows(db, next) {
      assert forall t :: t in next.tasks ==> TaskSummarises(db, t);
    } else {
      var reported := Reporting(db, e.transfer, e.progress, e.now);
      assert forall t :: t in next.tasks ==> TaskSummarises(reported, t);
    }
  }

  // The one guarded update a report makes.
  lemma Reporting(db: Database, transfer: Id, p: Progress, now: Time) returns (next: Database)
    requires Summarised(db) && ReportTakesEffect(db, transfer, p)
    ensures next == ReportedDatabase(db, transfer, p, now) && Summarised(next)
  {
    hide WithLatest, Reportable;
    next := ReportedDatabase(db, transfer, p, now);
    forall t | t in next.tasks
      ensures TaskSummarises(next, t)
    {
      assert TaskSummarises(db, t);
    }
  }

  lemma RetryKeepsSummary(node: Node, db: Database, e: Event)
    requires Summarised(db) && e.RetryEvent?
    ensures Summarised(Step(node, db, e))
  {
    hide KeyUsed, MaxAttempt;
    var next := Step(node, db, e);
    forall t | t in next.tasks
      ensures TaskSummarises(next, t)
    {
      assert TaskSummarises(db, t);
    }
  }

  lemma CancelKeepsSummary(node: Node, db: Database, e: Event)
    requires Summarised(db) && e.CancelEvent?
    ensures Summarised(Step(node, db, e))
  {
    var next := Step(node, db, e);
    forall t | t in next.tasks
      ensures TaskSummarises(next, t)
    {
      assert TaskSummarises(db, t);
    }
  }

  lemma ReadKeepsSummary(node: Node, db: Database, e: Event)
    requires Summarised(db) && (e.ReadEvent? || e.HideEvent?)
    ensures Summarised(Step(node, db, e))
  {
    hide WithLatest;
    var next := Step(node, db, e);
    forall t | t in next.tasks
      ensures TaskSummarises(next, t)
    {
      assert TaskSummarises(db, t);
    }
  }

  // Another file of the same transfer that has not expired yet.
  ghost predicate HasSpareFile(db: Database, file: Id)
    requires file in db.files
  {
    exists f :: f in db.files && db.files[f].transfer == db.files[file].transfer && f != file
      && !db.files[f].status.FileExpired?
  }

  // With the full product of files and devices, expiring a file touches no target of its transfer
  // or every one of them.
  lemma ExpiryIsAllOrNothing(db: Database, file: Id, now: Time)
    requires Consistent(db) && file in db.files && !db.files[file].status.FileExpired?
    ensures var transfer, next := db.files[file].transfer, MarkFileExpired(db, file, now);
      if HasSpareFile(db, file) then next.targets == db.targets
      else AllTargetsIn(next.targets, transfer, {Expired})
  {
    hide ExpiredTargets, AllTargetsIn;
    var transfer, next := db.files[file].transfer, MarkFileExpired(db, file, now);
    assert next.targets == ExpiredTargets(next.files, next.fileTargets, db.targets, transfer, now);
    if HasSpareFile(db, file) {
      var f :| f in db.files && db.files[f].transfer == transfer && f != file && !db.files[f].status.FileExpired?;
      SpareFileKeepsTargets(db, next, transfer, f, now);
    } else {
      NoLiveFileExpiresTargets(next.files, next.fileTargets, db.targets, transfer, now);
    }
  }

  lemma NoLiveFileExpiresTargets(
    files: map<Id, FileRow>, fileTargets: map<FileKey, FileTarget>, targets: map<TargetKey, Target>,
    transfer: Id, now: Time)
    requires forall f :: f in files && files[f].transfer == transfer ==> files[f].status.FileExpired?
    ensures AllTargetsIn(ExpiredTargets(files, fileTargets, targets, transfer, now), transfer, {Expired})
  {
  }

  lemma SpareFileKeepsTargets(db: Database, next: Database, transfer: Id, spare: Id, now: Time)
    requires Consistent(db)
    requires next.targets == ExpiredTargets(next.files, next.fileTargets, db.targets, transfer, now)
    requires spare in db.files && db.files[spare].transfer == transfer
    requires spare in next.files && next.files[spare].transfer == transfer && !next.files[spare].status.FileExpired?
    requires next.fileTargets.Keys == db.fileTargets.Keys
    ensures next.targets == db.targets
  {
    forall k | k in db.targets && k.transfer == transfer
      ensures HasLiveFile(next.files, next.fileTargets, transfer, k.device)
    {
      assert FileKey(spare, k.device) in db.fileTargets.Keys;
      assert FileKey(spare, k.device) in next.fileTargets.Keys;
    }
  }

  lemma ExpireKeepsSummary(node: Node, db: Database, e: Event)
    requires Consistent(db) && Summarised(db) && e.ExpireEvent?
    ensures Summarised(Step(node, db, e))
  {
    hide Consistent;
    var next := Step(node, db, e);
    if e.file in db.files && !db.files[e.file].status.FileExpired? {
      ExpiryIsAllOrNothing(db, e.file, e.now);
      forall t | t in next.tasks
        ensures TaskSummarises(next, t)
      {
        assert TaskSummarises(db, t);
      }
    }
  }

  ghost predicate HasNodeTarget(targets: map<TargetKey, Target>, transfer: Id) {
    exists k :: k in targets && k.transfer == transfer && targets[k].route.Node?
  }

  // A completion keeps the summary exactly when the task is not DELIVERED, READ or FAILED, or no
  // target of the transfer is routed through the node.
  lemma CompletionKeepsSummaryIff(db: Database, session: Session, file: Id, path: string)
    requires Consistent(db) && Summarised(db) && CompletionAccepted(db, session, file)
    ensures var transfer := db.files[file].transfer;
      Summarised(CompleteFile(db, session, file, path)) <==>
        !(db.tasks[transfer].status in {Delivered, Read, Failed}) || !HasNodeTarget(db.targets, transfer)
  {
    hide AvailableTargets, AllTargetsIn, TargetsLinked, FullProduct;
    var transfer, next := db.files[file].transfer, CompleteFile(db, session, file, path);
    assert next.targets == AvailableTargets(db.targets, transfer) && next.tasks == db.tasks;
    AvailableTargetsElsewhere(db.targets, transfer);
    assert forall t :: t in next.tasks ==> TaskSummarises(db, t);
    if HasNodeTarget(db.targets, transfer) && db.tasks[transfer].status in {Delivered, Read, Failed} {
      AvailableTargetBreaksSummary(db.targets, transfer);
      assert !TaskSummarises(next, transfer);
    } else {
      assert TaskSummarises(next, transfer);
    }
  }

  lemma AvailableTargetsElsewhere(targets: map<TargetKey, Target>, transfer: Id)
    ensures forall t, statuses :: t != transfer && AllTargetsIn(targets, t, statuses) ==>
      AllTargetsIn(AvailableTargets(targets, transfer), t, statuses)
    ensures !HasNodeTarget(targets, transfer) ==> AvailableTargets(targets, transfer) == targets
  {
  }

  lemma AvailableTargetBreaksSummary(targets: map<TargetKey, Target>, transfer: Id)
    requires HasNodeTarget(targets, transfer)
    ensures forall statuses :: AvailableOnNode !in statuses ==>
      !AllTargetsIn(AvailableTargets(targets, transfer), transfer, statuses)
  {
    var k :| k in targets && k.transfer == transfer && targets[k].route.Node?;
    assert k in AvailableTargets(targets, transfer);
  }

  // A completion that breaks the summary: the task is already shown DELIVERED, READ or FAILED and some
  // target is routed through the node.
  ghost predicate BreaksSummary(db: Database, e: Event) {
    && e.CompleteEvent? && CompletionAccepted(db, e.session, e.file)
    && var transfer := db.files[e.file].transfer;
       db.tasks[transfer].status in {Delivered, Read, Failed} && HasNodeTarget(db.targets, transfer)
  }

  lemma StepKeepsSummaryIff(node: Node, db: Database, e: Event)
    requires Consistent(db) && Summarised(db)
    ensures Summarised(Step(node, db, e)) <==> !BreaksSummary(db, e)
  {
    hide Summarised, Consistent, HasNodeTarget, CompleteFile, Create, Report, Retry, Cancel, ReadTransfer, Hide,
         MarkFileExpired;
    match e
    case CreateEvent(_, _, _, _, _, _, _) => CreateKeepsSummary(node, db, e);
    case ReportEvent(_, _, _, _) => ReportKeepsSummary(node, db, e);
    case RetryEvent(_, _, _, _, _) => RetryKeepsSummary(node, db, e);
    case CancelEvent(_, _, _) => CancelKeepsSummary(node, db, e);
    case ReadEvent(_, _, _) => ReadKeepsSummary(node, db, e);
    case HideEvent(_, _) => ReadKeepsSummary(node, db, e);
    case ExpireEvent(_, _) => ExpireKeepsSummary(node, db, e);
    case CompleteEvent(session, file, path) =>
      if CompletionAccepted(db, session, file) {
        CompletionKeepsSummaryIff(db, session, file, path);
      } else {
        RefusedCompletion(db, session, file, path);
      }
  }

  lemma RefusedCompletion(db: Database, session: Session, file: Id, path: string)
    requires !CompletionAccepted(db, session, file)
    ensures CompleteFile(db, session, file, path) == db
  {
  }

  // At the end of the run and after every event before it.
  ghost predicate SummarisedThroughout(node: Node, db: Database, events: seq<Event>) {
    && Summarised(Run(node, db, events))
    && (events != [] ==> SummarisedThroughout(node, db, events[..|events| - 1]))
  }

  // No event of the run breaks the summary in the state it meets.
  ghost predicate NothingBreaksSummary(node: Node, db: Database, events: seq<Event>) {
    events != [] ==>
      var init, last := events[..|events| - 1], events[|events| - 1];
      NothingBreaksSummary(node, db, init)
      && Consistent(Run(node, db, init)) && !BreaksSummary(Run(node, db, init), last)
  }

  // From any consistent database that starts out summarised: a run stays summarised throughout
  // exactly when it makes none of those completions.
  lemma {:induction false} RunKeepsSummaryIff(node: Node, db: Database, events: seq<Event>)
    requires Consistent(db) && Summarised(db)
    ensures SummarisedThroughout(node, db, events) <==> NothingBreaksSummary(node, db, events)
  {
    hide Summarised, Consistent, BreaksSummary, Step;
    if events != [] {
      var init := events[..|events| - 1];
      RunKeepsSummaryIff(node, db, init);
      RunKeepsConsistent(node, db, init);
      if SummarisedThroughout(node, db, init) {
        StepKeepsSummaryIff(node, Run(node, db, init), events[|events| - 1]);
      }
    }
  }
}
