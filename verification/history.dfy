/**
 How one target moves through its statuses, and how its execution attempts grow.
 */
module TargetHistory {
  import opened Wrappers
  import opened Domain
  import opened Requests
  import opened Tables
  import opened Transactions
  import opened Runs
  import opened Consistency

  // ---- how a target may move ----

  // The one way each kind of transaction may change a target's status: a report along the transition
  // table, a read of a delivered target, a retry of a retryable one, a cancel of an unsettled one, a
  // completion of a node-routed one, an expiry.
  ghost predicate MovesBy(db: Database, e: Event, k: TargetKey, before: Target, after: Target) {
    match e
    case ReportEvent(_, transfer, p, _) =>
      k == TargetKey(transfer, p.device) && after.status == p.status && before.status.CanTransitionTo(p.status)
    case ReadEvent(session, transfer, _) =>
      && session.device.Some? && k == TargetKey(transfer, session.device.value)
      && before.status.Delivered? && after.status.Read?
    case RetryEvent(_, transfer, device, _, _) =>
      k == TargetKey(transfer, device) && Retryable(before.status) && after.status.CheckingRoute?
    case CancelEvent(_, transfer, _) =>
      k.transfer == transfer && !before.status.IsSettled() && after.status.Cancelled?
    case CompleteEvent(_, file, _) =>
      && file in db.files && k.transfer == db.files[file].transfer
      && before.route.Node? && after.status.AvailableOnNode?
    case ExpireEvent(file, _) =>
      file in db.files && k.transfer == db.files[file].transfer && after.status.Expired?
    case _ => false
  }

  ghost predicate LegalMove(db: Database, e: Event, k: TargetKey, before: Target, after: Target) {
    before.bytes <= after.bytes && (after.status == before.status || MovesBy(db, e, k, before, after))
  }

  // A new target belongs to the transfer created and starts in the status its route calls for.
  ghost predicate LegalStart(e: Event, k: TargetKey, target: Target) {
    && e.CreateEvent? && k.transfer == e.transfer && k.device in e.devices
    && target.bytes == 0 && target.status == InitialStatus(target.route)
  }

  ghost predicate LegalMoves(db: Database, e: Event, after: map<TargetKey, Target>) {
    && (forall k :: k in db.targets ==> k in after && LegalMove(db, e, k, db.targets[k], after[k]))
    && (forall k :: k in after && k !in db.targets ==> LegalStart(e, k, after[k]))
  }

  lemma CreateMovesLegally(node: Node, db: Database, e: Event)
    requires Consistent(db) && e.CreateEvent?
    ensures LegalMoves(db, e, Step(node, db, e).targets)
  {
    hide Accounting.Admits, ValidRequest, Deliverable, Prepare, Inserted, TargetEffect, ExecutionEffect, FileEffect,
         FileTargetEffect, LegalMoves, FilesLinked, FullProduct;
    if Creatable(e.session, e.request, e.devices)
       && Accepts(node, db, e.session, e.key, e.request.group, Prepare(e.request, e.devices, e.now),
                  e.transfer, e.ids) {
      CreatedRows(node, db, e.session, e.key, e.request, e.devices, e.transfer, e.ids, e.now);
      NewTargetsStartLegally(db, Step(node, db, e).targets, e);
    } else {
      assert Step(node, db, e) == db;
      NothingMoved(db, e);
    }
  }

  lemma NothingMoved(db: Database, e: Event)
    ensures LegalMoves(db, e, db.targets)
  {
  }

  lemma NewTargetsStartLegally(db: Database, after: map<TargetKey, Target>, e: Event)
    requires e.CreateEvent? && TargetEffect(db.targets, after, e.request, e.devices, e.transfer)
    requires forall k :: k in db.targets ==> k.transfer != e.transfer
    ensures LegalMoves(db, e, after)
  {
    hide TargetRoute;
  }

  lemma ReportMovesLegally(node: Node, db: Database, e: Event)
    requires e.ReportEvent?
    ensures LegalMoves(db, e, Step(node, db, e).targets)
  {
    hide Report, WithLatest, AggregatedStatus;
    ReportCases(node, db, e.session, e.transfer, e.progress, e.now);
  }

  lemma RowMovesLegally(node: Node, db: Database, e: Event)
    requires e.RetryEvent? || e.ReadEvent? || e.HideEvent?
    ensures LegalMoves(db, e, Step(node, db, e).targets)
  {
    hide WithLatest, MaxAttempt, KeyUsed, MayHide;
  }

  lemma SweepMovesLegally(node: Node, db: Database, e: Event)
    requires e.CancelEvent? || e.CompleteEvent? || e.ExpireEvent?
    ensures LegalMoves(db, e, Step(node, db, e).targets)
  {
    hide HasLiveFile, AllTargetsIn;
  }

  lemma StepMovesLegally(node: Node, db: Database, e: Event)
    requires Consistent(db)
    ensures LegalMoves(db, e, Step(node, db, e).targets)
  {
    hide Step, LegalMoves;
    match e
    case CreateEvent(_, _, _, _, _, _, _) => CreateMovesLegally(node, db, e);
    case ReportEvent(_, _, _, _) => ReportMovesLegally(node, db, e);
    case RetryEvent(_, _, _, _, _) => RowMovesLegally(node, db, e);
    case ReadEvent(_, _, _) => RowMovesLegally(node, db, e);
    case HideEvent(_, _) => RowMovesLegally(node, db, e);
    case _ => SweepMovesLegally(node, db, e);
  }

  // ---- delivery is reached in order, and bytes never shrink ----

  // The database after the first i transactions.
  ghost function At(node: Node, db: Database, events: seq<Event>, i: nat): Database
    requires i <= |events|
  {
    Run(node, db, events[..i])
  }

  lemma AtStart(node: Node, db: Database, events: seq<Event>)
    ensures At(node, db, events, 0) == db
  {
  }

  lemma AtNext(node: Node, db: Database, events: seq<Event>, i: nat)
    requires i < |events|
    ensures At(node, db, events, i + 1) == Step(node, At(node, db, events, i), events[i])
  {
    assert events[..i + 1][..i] == events[..i];
  }

  ghost predicate Was(node: Node, db: Database, events: seq<Event>, i: nat, k: TargetKey, statuses: set<Status>)
    requires i <= |events|
  {
    k in At(node, db, events, i).targets && At(node, db, events, i).targets[k].status in statuses
  }

  // Where a delivered target can have come from in one transaction; none starts there.
  lemma MovedInto(db: Database, e: Event, after: map<TargetKey, Target>, k: TargetKey)
    requires LegalMoves(db, e, after) && k in after && after[k].status in {Read, Delivered, Verifying}
    ensures k in db.targets
    ensures after[k].status.Read? ==> db.targets[k].status in {Read, Delivered}
    ensures after[k].status.Delivered? ==> db.targets[k].status in {Delivered, Verifying}
    ensures after[k].status.Verifying? ==> db.targets[k].status in {Verifying, TransferringLan, Downloading}
  {
    hide LegalMove;
    assert k !in db.targets ==> LegalStart(e, k, after[k]);
    LegalOrigins(db, e, k, db.targets[k], after[k]);
  }

  lemma LegalOrigins(db: Database, e: Event, k: TargetKey, before: Target, after: Target)
    requires LegalMove(db, e, k, before, after)
    ensures after.status.Read? ==> before.status in {Read, Delivered}
    ensures after.status.Delivered? ==> before.status in {Delivered, Verifying}
    ensures after.status.Verifying? ==> before.status in {Verifying, TransferringLan, Downloading}
  {
  }

  // If a target has a status it never starts in, some earlier moment had it in a status that leads there.
  lemma {:induction false} CameFrom(
    node: Node, db: Database, events: seq<Event>, n: nat, k: TargetKey, goal: Status, origins: set<Status>)
    returns (i: nat)
    requires Consistent(db) && k !in db.targets && n <= |events|
    requires (goal, origins) in {
      (Read, {Delivered}), (Delivered, {Verifying}), (Verifying, {TransferringLan, Downloading})}
    requires Was(node, db, events, n, k, {goal})
    ensures i < n && Was(node, db, events, i, k, origins)
    decreases n
  {
    hide Step, Consistent, MovesBy, LegalMove, LegalStart;
    AtStart(node, db, events);
    if n == 0 {
      assert false;
    } else {
      AtNext(node, db, events, n - 1);
      RunKeepsConsistent(node, db, events[..n - 1]);
      StepMovesLegally(node, At(node, db, events, n - 1), events[n - 1]);
      MovedInto(At(node, db, events, n - 1), events[n - 1], At(node, db, events, n).targets, k);
      if Was(node, db, events, n - 1, k, {goal}) {
        i := CameFrom(node, db, events, n - 1, k, goal, origins);
      } else {
        i := n - 1;
      }
    }
  }

  // In every run, a READ target was DELIVERED before, VERIFYING before that, and before that it was
  // transferring over the LAN or downloading from the node.
  lemma ReadTargetWasVerified(node: Node, db: Database, events: seq<Event>, k: TargetKey)
    requires Consistent(db) && k !in db.targets
    requires Was(node, db, events, |events|, k, {Read})
    ensures exists a: nat, b: nat, c: nat ::
      a < b < c < |events|
      && Was(node, db, events, a, k, {TransferringLan, Downloading})
      && Was(node, db, events, b, k, {Verifying})
      && Was(node, db, events, c, k, {Delivered})
  {
    var c := CameFrom(node, db, events, |events|, k, Read, {Delivered});
    var b := CameFrom(node, db, events, c, k, Delivered, {Verifying});
    var a := CameFrom(node, db, events, b, k, Verifying, {TransferringLan, Downloading});
  }

  lemma {:induction false} BytesNeverShrink(node: Node, db: Database, events: seq<Event>, k: TargetKey)
    requires Consistent(db) && k in db.targets
    ensures k in Run(node, db, events).targets
    ensures db.targets[k].bytes <= Run(node, db, events).targets[k].bytes
  {
    if events != [] {
      var init := events[..|events| - 1];
      BytesNeverShrink(node, db, init, k);
      RunKeepsConsistent(node, db, init);
      StepMovesLegally(node, Run(node, db, init), events[|events| - 1]);
    }
  }

  // ---- terminal targets stay as they are ----

  ghost predicate ClientEvents(events: seq<Event>) {
    forall e :: e in events ==> !e.CompleteEvent? && !e.ExpireEvent?
  }

  ghost predicate Retries(db: Database, e: Event, k: TargetKey) {
    e.RetryEvent? && k == TargetKey(e.transfer, e.device)
    && RetryAccepted(db, e.session, e.transfer, e.device, e.key)
  }

  lemma CreateKeepsTargets(node: Node, db: Database, e: Event, k: TargetKey)
    requires Consistent(db) && k in db.targets && e.CreateEvent?
    ensures k in Step(node, db, e).targets && Step(node, db, e).targets[k] == db.targets[k]
  {
    hide Inserted, Accounting.Admits, Prepare, TargetRow, FileRoute, FileEffect, FileTargetEffect, ExecutionEffect;
    if Creatable(e.session, e.request, e.devices)
       && Accepts(node, db, e.session, e.key, e.request.group, Prepare(e.request, e.devices, e.now),
                  e.transfer, e.ids) {
      CreatedRows(node, db, e.session, e.key, e.request, e.devices, e.transfer, e.ids, e.now);
    }
  }

  lemma ReportKeepsTerminal(node: Node, db: Database, e: Event, k: TargetKey)
    requires k in db.targets && db.targets[k].status.IsTerminal() && e.ReportEvent?
    ensures k in Step(node, db, e).targets && Step(node, db, e).targets[k] == db.targets[k]
  {
    hide Report, WithLatest, AggregatedStatus;
    ReportCases(node, db, e.session, e.transfer, e.progress, e.now);
  }

  lemma StepKeepsTerminal(node: Node, db: Database, e: Event, k: TargetKey)
    requires Consistent(db) && k in db.targets && db.targets[k].status.IsTerminal()
    requires !e.CompleteEvent? && !e.ExpireEvent?
    ensures k in Step(node, db, e).targets
    ensures Step(node, db, e).targets[k] == db.targets[k] || (db.targets[k].status.Failed? && Retries(db, e, k))
  {
    hide Create, Report, MaxAttempt, KeyUsed, AggregatedStatus, WithLatest, Consistent;
    match e
    case CreateEvent(_, _, _, _, _, _, _) => CreateKeepsTargets(node, db, e, k);
    case ReportEvent(_, _, _, _) => ReportKeepsTerminal(node, db, e, k);
    case _ =>
  }

  // READ, CANCELLED and EXPIRED targets are frozen for good.
  lemma {:induction false} TerminalTargetsAreFrozen(node: Node, db: Database, events: seq<Event>, k: TargetKey)
    requires Consistent(db) && ClientEvents(events)
    requires k in db.targets && db.targets[k].status in {Read, Cancelled, Expired}
    ensures k in Run(node, db, events).targets && Run(node, db, events).targets[k] == db.targets[k]
  {
    if events != [] {
      var init := events[..|events| - 1];
      TerminalTargetsAreFrozen(node, db, init, k);
      RunKeepsConsistent(node, db, init);
      StepKeepsTerminal(node, Run(node, db, init), events[|events| - 1], k);
    }
  }

  // A FAILED target that changed was retried with a key none of its executions carried.
  lemma {:induction false} FailedLeavesOnlyByRetry(node: Node, db: Database, events: seq<Event>, k: TargetKey)
    requires Consistent(db) && ClientEvents(events)
    requires k in db.targets && db.targets[k].status.Failed?
    ensures k in Run(node, db, events).targets
    ensures Run(node, db, events).targets[k] == db.targets[k]
      || exists i: nat :: i < |events| && Retries(At(node, db, events, i), events[i], k)
           && At(node, db, events, i).targets[k] == db.targets[k]
  {
    hide Step, Consistent, LegalMove, MovesBy;
    if events != [] {
      var n := |events| - 1;
      var init := events[..n];
      FailedLeavesOnlyByRetry(node, db, init, k);
      RunKeepsConsistent(node, db, init);
      var before := Run(node, db, init);
      if before.targets[k] == db.targets[k] {
        StepKeepsTerminal(node, before, events[n], k);
        assert At(node, db, events, n) == before;
      } else {
        var i: nat :| i < |init| && Retries(At(node, db, init, i), init[i], k)
          && At(node, db, init, i).targets[k] == db.targets[k];
        assert init[..i] == events[..i];
        StepMovesLegally(node, before, events[n]);
      }
    }
  }

  // ---- execution attempts ----

  ghost predicate Numbered(rows: seq<Execution>, keys: seq<string>) {
    && |rows| == 1 + |keys|
    && (forall i :: 0 <= i < |rows| ==> rows[i].attempt == i + 1)
    && rows[0].key == None
    && (forall i :: 0 <= i < |keys| ==> rows[i + 1].key == Some(keys[i]))
    && (forall i, j :: 0 <= i < j < |keys| ==> keys[i] != keys[j])
  }

  // The keys of the retries this run accepted for one target, in order.
  ghost function AcceptedKeys(node: Node, db: Database, events: seq<Event>, k: TargetKey): seq<string> {
    if events == [] then []
    else
      var init, last := events[..|events| - 1], events[|events| - 1];
      var earlier := AcceptedKeys(node, db, init, k);
      if Retries(Run(node, db, init), last, k) then earlier + [last.key] else earlier
  }

  lemma {:induction false} MaxAttemptOfNumbered(rows: seq<Execution>)
    requires forall i :: 0 <= i < |rows| ==> rows[i].attempt == i + 1
    ensures MaxAttempt(rows) == |rows|
  {
    if rows != [] {
      MaxAttemptOfNumbered(rows[..|rows| - 1]);
    }
  }

  lemma StepNumbersAttempts(node: Node, db: Database, e: Event, k: TargetKey, keys: seq<string>)
    requires Consistent(db) && k in db.executions && Numbered(db.executions[k], keys)
    ensures k in Step(node, db, e).executions
    ensures Numbered(Step(node, db, e).executions[k], if Retries(db, e, k) then keys + [e.key] else keys)
  {
    hide Consistent, Step;
    if e.CreateEvent? {
      CreateKeepsExecutions(node, db, e, k);
    } else {
      RowStepNumbersAttempts(node, db, e, k, keys);
    }
  }

  lemma CreateKeepsExecutions(node: Node, db: Database, e: Event, k: TargetKey)
    requires Consistent(db) && k in db.executions && e.CreateEvent?
    ensures k in Step(node, db, e).executions && Step(node, db, e).executions[k] == db.executions[k]
  {
    hide Inserted, Accounting.Admits, Prepare, TargetEffect, FileEffect, FileTargetEffect, Consistent;
    if Creatable(e.session, e.request, e.devices)
       && Accepts(node, db, e.session, e.key, e.request.group, Prepare(e.request, e.devices, e.now),
                  e.transfer, e.ids) {
      CreatedRows(node, db, e.session, e.key, e.request, e.devices, e.transfer, e.ids, e.now);
      OldTargetsElsewhere(db, k, e.transfer);
    }
  }

  lemma RowStepNumbersAttempts(node: Node, db: Database, e: Event, k: TargetKey, keys: seq<string>)
    requires !e.CreateEvent? && k in db.executions && Numbered(db.executions[k], keys)
    ensures k in Step(node, db, e).executions
    ensures Numbered(Step(node, db, e).executions[k], if Retries(db, e, k) then keys + [e.key] else keys)
  {
    hide Report, AggregatedStatus, HasLiveFile, AllTargetsIn, MaxAttempt, MayHide, Reported, CancelledTargets,
         CancelledFileTargets, AvailableTargets;
    MaxAttemptOfNumbered(db.executions[k]);
    if e.ReportEvent? {
      ReportCases(node, db, e.session, e.transfer, e.progress, e.now);
    }
  }

  lemma OldTargetsElsewhere(db: Database, k: TargetKey, transfer: Id)
    requires Consistent(db) && k in db.executions && transfer !in db.tasks
    ensures k.transfer != transfer
  {
  }

  lemma FirstAttempt(node: Node, db: Database, e: Event, k: TargetKey)
    requires Consistent(db) && e.CreateEvent? && k !in db.executions && k in Step(node, db, e).executions
    ensures Numbered(Step(node, db, e).executions[k], [])
  {
    hide Accounting.Admits, Prepare, Inserted, TargetEffect, FileEffect, FileTargetEffect;
    if Creatable(e.session, e.request, e.devices)
       && Accepts(node, db, e.session, e.key, e.request.group, Prepare(e.request, e.devices, e.now),
                  e.transfer, e.ids) {
      CreatedRows(node, db, e.session, e.key, e.request, e.devices, e.transfer, e.ids, e.now);
    }
  }

  // In every run from an empty database, the attempts of a target are 1..n, and the n-1 retries behind
  // them carry exactly the accepted keys, all different.
  lemma {:induction false} AttemptsMatchAcceptedRetries(node: Node, events: seq<Event>, k: TargetKey)
    ensures var db := Run(node, EMPTY, events);
      if k in db.executions then Numbered(db.executions[k], AcceptedKeys(node, EMPTY, events, k))
      else AcceptedKeys(node, EMPTY, events, k) == []
  {
    if events != [] {
      var init, last := events[..|events| - 1], events[|events| - 1];
      var before := Run(node, EMPTY, init);
      AttemptsMatchAcceptedRetries(node, init, k);
      RunKeepsConsistent(node, EMPTY, init);
      if k in before.executions {
        StepNumbersAttempts(node, before, last, k, AcceptedKeys(node, EMPTY, init, k));
      } else if last.CreateEvent? {
        if k in Step(node, before, last).executions {
          FirstAttempt(node, before, last, k);
        }
      } else {
        StepKeepsShape(node, before, last);
        assert k in before.executions.Keys <==> k in Step(node, before, last).executions.Keys;
      }
    }
  }
}
