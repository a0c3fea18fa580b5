/**
 Early expiry is safe: what the cleanup scan saw still holds when it marks the file.
 */
module Cleanup {
  import opened Domain
  import opened Requests
  import opened Tables
  import opened Accounting
  import opened Transactions
  import opened Runs
  import opened Consistency
  import opened Aggregate

  // The file is alive, routed through the node, and everyone who receives it that way has it.
  ghost predicate Received(db: Database, file: Id) {
    && file in db.files && !db.files[file].status.FileExpired?
    && NodeRouted(db, file)
    && forall k :: k in NodeReceivers(db, file) ==> db.targets[k].status in {Delivered, Read}
  }

  // A receiver whose own route is the node.
  predicate HasNodeReceiver(db: Database, file: Id)
    requires file in db.files
  {
    exists k :: k in NodeReceivers(db, file) && db.targets[k].route.Node?
  }

  // What takes the file from its receivers: a second cleaner marking it, or an accepted completion in
  // the same transfer while some receiver's own route is the node.
  predicate TakesAway(db: Database, e: Event, file: Id)
    requires file in db.files
  {
    || (e.ExpireEvent? && e.file == file)
    || (e.CompleteEvent? && CompletionAccepted(db, e.session, e.file)
        && db.files[e.file].transfer == db.files[file].transfer && HasNodeReceiver(db, file))
  }

  lemma ScanFindsReceived(db: Database, file: Id, now: Time)
    requires Expirable(db, file, now) && now < db.files[file].expiresAt
    ensures Received(db, file)
    ensures Consistent(db) ==> NodeReceivers(db, file) != {}
  {
    var k :| k in db.fileTargets && k.file == file && db.fileTargets[k].route.Node?;
    if Consistent(db) {
      assert TargetKey(db.files[file].transfer, k.device) in NodeReceivers(db, file);
    }
  }

  // The rows Received depends on.
  ghost predicate SameReceivers(db: Database, next: Database, file: Id)
    requires file in db.files
  {
    && file in next.files && next.files[file].transfer == db.files[file].transfer
    && next.files[file].status == db.files[file].status && next.files[file].expiresAt == db.files[file].expiresAt
    && (forall k :: k in db.fileTargets && k.file == file ==>
      k in next.fileTargets && next.fileTargets[k].route == db.fileTargets[k].route)
    && (forall k :: k in next.fileTargets && k.file == file ==> k in db.fileTargets)
    && (forall k :: k in next.targets && k.transfer == db.files[file].transfer ==> k in db.targets)
    && (forall k :: k in db.targets && k.transfer == db.files[file].transfer ==>
      k in next.targets
      && (db.targets[k].status in {Delivered, Read} ==> next.targets[k].status in {Delivered, Read}))
  }

  lemma SameReceiversStayReceived(db: Database, next: Database, file: Id)
    requires Received(db, file) && SameReceivers(db, next, file)
    ensures Received(next, file) && NodeReceivers(next, file) == NodeReceivers(db, file)
  {
    var k :| k in db.fileTargets && k.file == file && db.fileTargets[k].route.Node?;
    assert NodeRouted(next, file);
    forall k | k in db.targets && k.transfer == db.files[file].transfer
      ensures k in NodeReceivers(next, file) <==> k in NodeReceivers(db, file)
    {
      assert FileKey(file, k.device) in db.fileTargets <==> FileKey(file, k.device) in next.fileTargets;
    }
  }

  lemma CreateKeepsReceivers(node: Node, db: Database, e: Event, file: Id)
    requires Consistent(db) && e.CreateEvent? && file in db.files
    ensures SameReceivers(db, Step(node, db, e), file)
  {
    hide Admits, ValidRequest, Deliverable, Prepare, NewTask, Inserted, TargetEffect, ExecutionEffect, FileEffect,
         FileTargetEffect, Consistent, SameReceivers;
    if Creatable(e.session, e.request, e.devices)
       && Accepts(node, db, e.session, e.key, e.request.group, Prepare(e.request, e.devices, e.now),
                  e.transfer, e.ids) {
      CreatedRows(node, db, e.session, e.key, e.request, e.devices, e.transfer, e.ids, e.now);
      PreparedCopies(e.request, e.devices, e.now);
      var next := Step(node, db, e);
      var expiresAt := Prepare(e.request, e.devices, e.now).expiresAt;
      EffectKeepsReceivers(db, next, e.request, e.devices, e.transfer, e.ids, expiresAt, file);
    } else {
      assert Step(node, db, e) == db;
      SelfReceivers(db, file);
    }
  }

  lemma SelfReceivers(db: Database, file: Id)
    requires file in db.files
    ensures SameReceivers(db, db, file)
  {
  }

  lemma EffectKeepsReceivers(db: Database, next: Database, request: Request, devices: seq<Id>,
                             transfer: Id, ids: seq<Id>, expiresAt: Time, file: Id)
    requires Consistent(db) && file in db.files && transfer !in db.tasks && |ids| == |request.files|
    requires forall i :: 0 <= i < |ids| ==> ids[i] !in db.files
    requires TargetEffect(db.targets, next.targets, request, devices, transfer)
    requires FileEffect(db.files, next.files, request.files, transfer, ids, expiresAt)
    requires FileTargetEffect(db.fileTargets, next.fileTargets, request, devices, ids)
    ensures SameReceivers(db, next, file)
  {
    hide TargetRow, FileRoute, NewTarget, NewFile, FullProduct;
    assert file !in ids;
    assert db.files[file].transfer != transfer;
  }

  lemma ReportKeepsReceivers(node: Node, db: Database, e: Event, file: Id)
    requires e.ReportEvent? && file in db.files
    ensures SameReceivers(db, Step(node, db, e), file)
  {
    hide Report, WithLatest, AggregatedStatus;
    ReportCases(node, db, e.session, e.transfer, e.progress, e.now);
  }

  lemma OtherExpiryKeepsReceivers(node: Node, db: Database, e: Event, file: Id)
    requires Consistent(db) && e.ExpireEvent? && e.file != file
    requires file in db.files && !db.files[file].status.FileExpired?
    ensures SameReceivers(db, Step(node, db, e), file)
  {
    hide Consistent, AllTargetsIn, HasLiveFile;
    if e.file in db.files && !db.files[e.file].status.FileExpired? {
      ExpiryIsAllOrNothing(db, e.file, e.now);
    }
  }

  // A completion in the window: completing a file of the transfer keeps this one received exactly
  // when no receiver's own route is the node.
  lemma SiblingCompletionIff(db: Database, session: Session, file: Id, sibling: Id, path: string)
    requires Consistent(db) && Received(db, file)
    requires CompletionAccepted(db, session, sibling)
    requires db.files[sibling].transfer == db.files[file].transfer
    ensures Received(CompleteFile(db, session, sibling, path), file) <==> !HasNodeReceiver(db, file)
  {
    hide CompleteFile, NodeRouted, NodeReceivers, Consistent;
    var next := CompleteFile(db, session, sibling, path);
    CompletionReceivers(db, session, file, sibling, path);
    ReceiversAreTargets(db, file);
    assert forall k :: k in NodeReceivers(db, file) ==>
      next.targets[k] == if db.targets[k].route.Node? then db.targets[k].(status := AvailableOnNode) else db.targets[k];
  }

  lemma CompletionReceivers(db: Database, session: Session, file: Id, sibling: Id, path: string)
    requires Received(db, file) && CompletionAccepted(db, session, sibling)
    ensures var next := CompleteFile(db, session, sibling, path);
      && file in next.files && !next.files[file].status.FileExpired? && NodeRouted(next, file)
      && NodeReceivers(next, file) == NodeReceivers(db, file)
      && next.targets == AvailableTargets(db.targets, db.files[sibling].transfer)
  {
    hide AvailableTargets;
    var next := CompleteFile(db, session, sibling, path);
    var k :| k in db.fileTargets && k.file == file && db.fileTargets[k].route.Node?;
    assert k in next.fileTargets;
    assert next.targets.Keys == db.targets.Keys by { AvailableKeys(db.targets, db.files[sibling].transfer); }
    assert forall k :: k in next.targets <==> k in db.targets;
    assert next.fileTargets.Keys == db.fileTargets.Keys;
    assert forall k :: k in next.fileTargets <==> k in db.fileTargets;
  }

  lemma ReceiversAreTargets(db: Database, file: Id)
    requires file in db.files
    ensures forall k :: k in NodeReceivers(db, file) ==> k in db.targets && k.transfer == db.files[file].transfer
  {
  }

  lemma AvailableKeys(targets: map<TargetKey, Target>, transfer: Id)
    ensures AvailableTargets(targets, transfer).Keys == targets.Keys
  {
  }

  lemma OtherStepKeepsReceived(node: Node, db: Database, e: Event, file: Id)
    requires Consistent(db) && Received(db, file) && !e.CompleteEvent?
    requires e.ExpireEvent? ==> e.file != file
    ensures Received(Step(node, db, e), file)
    ensures NodeReceivers(Step(node, db, e), file) == NodeReceivers(db, file)
  {
    hide Report, Create, MarkFileExpired, Consistent, NodeReceivers, KeyUsed, MaxAttempt, WithLatest;
    match e {
      case CreateEvent(_, _, _, _, _, _, _) => CreateKeepsReceivers(node, db, e, file);
      case ReportEvent(_, _, _, _) => ReportKeepsReceivers(node, db, e, file);
      case ExpireEvent(_, _) => OtherExpiryKeepsReceivers(node, db, e, file);
      case _ =>
    }
    SameReceiversStayReceived(db, Step(node, db, e), file);
  }

  lemma ElsewhereCompletionKeepsReceived(db: Database, session: Session, file: Id, other: Id, path: string)
    requires Received(db, file) && CompletionAccepted(db, session, other)
    requires db.files[other].transfer != db.files[file].transfer
    ensures Received(CompleteFile(db, session, other, path), file)
    ensures NodeReceivers(CompleteFile(db, session, other, path), file) == NodeReceivers(db, file)
  {
    hide CompleteFile, NodeRouted, NodeReceivers;
    CompletionReceivers(db, session, file, other, path);
    ReceiversAreTargets(db, file);
  }

  lemma StepKeepsReceivedIff(node: Node, db: Database, e: Event, file: Id)
    requires Consistent(db) && Received(db, file)
    ensures Received(Step(node, db, e), file) <==> !TakesAway(db, e, file)
    ensures Received(Step(node, db, e), file) ==> NodeReceivers(Step(node, db, e), file) == NodeReceivers(db, file)
  {
    hide Consistent, NodeReceivers, CompleteFile, Create, Report, Retry, Cancel, ReadTransfer, Hide;
    if !e.CompleteEvent? {
      if !(e.ExpireEvent? && e.file == file) {
        OtherStepKeepsReceived(node, db, e, file);
      }
    } else if !CompletionAccepted(db, e.session, e.file) {
      RefusedCompletion(db, e.session, e.file, e.path);
    } else if db.files[e.file].transfer != db.files[file].transfer {
      ElsewhereCompletionKeepsReceived(db, e.session, file, e.file, e.path);
    } else {
      SiblingCompletionIff(db, e.session, file, e.file, e.path);
      CompletionReceivers(db, e.session, file, e.file, e.path);
    }
  }

  // At the end of the run and after every event before it.
  ghost predicate ReceivedThroughout(node: Node, db: Database, events: seq<Event>, file: Id) {
    && Received(Run(node, db, events), file)
    && (events != [] ==> ReceivedThroughout(node, db, events[..|events| - 1], file))
  }

  // No event of the run takes the file away in the state it meets.
  ghost predicate NothingTakesAway(node: Node, db: Database, events: seq<Event>, file: Id) {
    events != [] ==>
      var init, last := events[..|events| - 1], events[|events| - 1];
      var met := Run(node, db, init);
      NothingTakesAway(node, db, init, file) && file in met.files && !TakesAway(met, last, file)
  }

  lemma {:induction false} RunKeepsReceivedIff(node: Node, db: Database, events: seq<Event>, file: Id)
    requires Consistent(db) && Received(db, file)
    ensures ReceivedThroughout(node, db, events, file) <==> NothingTakesAway(node, db, events, file)
    ensures ReceivedThroughout(node, db, events, file) ==>
      NodeReceivers(Run(node, db, events), file) == NodeReceivers(db, file)
  {
    hide NodeReceivers, Consistent, Step, TakesAway, NodeRouted;
    if events != [] {
      var init := events[..|events| - 1];
      RunKeepsReceivedIff(node, db, init, file);
      RunKeepsConsistent(node, db, init);
      if ReceivedThroughout(node, db, init, file) {
        StepKeepsReceivedIff(node, Run(node, db, init), events[|events| - 1], file);
      }
    }
  }

  // A file picked before its date: it stays in the hands of every device that receives it through the
  // node, of which there is at least one, until it is marked, exactly when nothing takes it away; all
  // creates, reports, retries, cancels, reads, hides, other expiries and harmless completions may run
  // in between.
  lemma EarlyExpiryIsSafeIff(node: Node, db: Database, file: Id, scanned: Time, events: seq<Event>)
    requires Consistent(db) && Expirable(db, file, scanned) && scanned < db.files[file].expiresAt
    ensures ReceivedThroughout(node, db, events, file) <==> NothingTakesAway(node, db, events, file)
    ensures NothingTakesAway(node, db, events, file) ==>
      var marked := Run(node, db, events);
      && file in marked.files && !marked.files[file].status.FileExpired?
      && NodeReceivers(marked, file) == NodeReceivers(db, file) != {}
      && forall k :: k in NodeReceivers(marked, file) ==> marked.targets[k].status in {Delivered, Read}
  {
    hide NodeReceivers, Expirable, Consistent, NodeRouted, TakesAway;
    ScanFindsReceived(db, file, scanned);
    RunKeepsReceivedIff(node, db, events, file);
  }
}
