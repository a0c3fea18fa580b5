/**
 Runs of the store: a sequence of transactions applied one after the other.
 */
module Runs {
  import opened Wrappers
  import opened Domain
  import opened Requests
  import opened Tables
  import opened Transactions

  datatype Event =
    | CreateEvent(session: Session, key: string, request: Request, devices: seq<Id>,
                  transfer: Id, ids: seq<Id>, now: Time)
    | ReportEvent(session: Session, transfer: Id, progress: Progress, now: Time)
    | RetryEvent(session: Session, transfer: Id, device: Id, key: string, now: Time)
    | CancelEvent(session: Session, transfer: Id, now: Time)
    | ReadEvent(session: Session, transfer: Id, now: Time)
    | HideEvent(session: Session, transfer: Id)
    | CompleteEvent(session: Session, file: Id, path: string)
    | ExpireEvent(file: Id, now: Time)

  ghost function Step(node: Node, db: Database, e: Event): Database {
    match e
    case CreateEvent(session, key, request, devices, transfer, ids, now) =>
      Create(node, db, session, key, request, devices, transfer, ids, now)
    case ReportEvent(session, transfer, progress, now) => Report(node, db, session, transfer, progress, now).0
    case RetryEvent(session, transfer, device, key, now) => Retry(db, session, transfer, device, key, now)
    case CancelEvent(session, transfer, now) => Cancel(db, session, transfer, now)
    case ReadEvent(session, transfer, now) => ReadTransfer(db, session, transfer, now)
    case HideEvent(session, transfer) => Hide(node, db, session, transfer)
    case CompleteEvent(session, file, path) => CompleteFile(db, session, file, path)
    case ExpireEvent(file, now) => MarkFileExpired(db, file, now)
  }

  ghost function Run(node: Node, db: Database, events: seq<Event>): Database {
    if events == [] then db
    else Step(node, Run(node, db, events[..|events| - 1]), events[|events| - 1])
  }

  // Every table but the idempotency records.
  ghost predicate SameRows(a: Database, b: Database) {
    a.(records := b.records) == b
  }

  // A report changes nothing outside its records, or performs exactly the one guarded update.
  ghost predicate ReportTakesEffect(db: Database, transfer: Id, p: Progress) {
    && transfer in db.tasks
    && TargetKey(transfer, p.device) in db.targets && TargetKey(transfer, p.device) in db.executions
    && db.executions[TargetKey(transfer, p.device)] != []
    && Reportable(p.status)
    && var current := db.targets[TargetKey(transfer, p.device)].status;
       !Repeats(current, p.status) && !Refuses(current, p.status)
  }

  lemma ReportCases(node: Node, db: Database, session: Session, transfer: Id, p: Progress, now: Time)
    ensures var next := Report(node, db, session, transfer, p, now).0;
      SameRows(db, next)
      || (ReportTakesEffect(db, transfer, p) && SameRows(ReportedDatabase(db, transfer, p, now), next))
  {
  }

  // ---- what Create inserts ----

  lemma {:induction false} TargetInsertsExact(transfer: Id, request: Request, devices: seq<Id>)
    ensures var rows := TargetRows(request, devices);
      && (forall k: TargetKey ::
        k in TargetInserts(transfer, rows) <==> k.transfer == transfer && k.device in devices)
      && (forall d: Id :: d in devices ==>
        TargetInserts(transfer, rows)[TargetKey(transfer, d)] == NewTarget(TargetRow(request, d)))
      && (forall k: TargetKey ::
        k in ExecutionInserts(transfer, rows) <==> k.transfer == transfer && k.device in devices)
      && (forall d: Id :: d in devices ==>
        ExecutionInserts(transfer, rows)[TargetKey(transfer, d)]
        == [Execution(1, TargetRow(request, d).status, None)])
  {
    if devices != [] {
      var init, last := devices[..|devices| - 1], devices[|devices| - 1];
      TargetInsertsExact(transfer, request, init);
      var rows := TargetRows(request, devices);
      assert rows[..|rows| - 1] == TargetRows(request, init);
      assert devices == init + [last];
    }
  }

  lemma {:induction false} FileInsertsExact(transfer: Id, files: seq<File>, ids: seq<Id>, expiresAt: Time)
    requires |ids| == |files|
    requires forall i, j :: 0 <= i < j < |ids| ==> ids[i] != ids[j]
    ensures var rows := FileInserts(transfer, files, ids, expiresAt);
      && (forall f: Id :: f in rows <==> f in ids)
      && (forall i :: 0 <= i < |ids| ==>
        ids[i] in rows && rows[ids[i]] == NewFile(ids[i], transfer, files[i], expiresAt))
  {
    if files != [] {
      var n := |files| - 1;
      FileInsertsExact(transfer, files[..n], ids[..n], expiresAt);
      assert ids == ids[..n] + [ids[n]];
    }
  }

  lemma {:induction false} FileTargetInsertsKeys(ids: seq<Id>, rows: seq<PreparedFileTarget>)
    requires forall row :: row in rows ==> row.fileIndex < |ids|
    ensures forall k: FileKey :: k in FileTargetInserts(ids, rows) ==>
      exists row :: row in rows && k == FileKey(ids[row.fileIndex], row.device)
  {
    if rows != [] {
      var init, last := rows[..|rows| - 1], rows[|rows| - 1];
      FileTargetInsertsKeys(ids, init);
      assert rows == init + [last];
      assert last in rows;
    }
  }

  lemma {:induction false} FileTargetInsertsValues(ids: seq<Id>, rows: seq<PreparedFileTarget>)
    requires forall row :: row in rows ==> row.fileIndex < |ids|
    requires forall i, j :: 0 <= i < j < |ids| ==> ids[i] != ids[j]
    requires forall a, b :: a in rows && b in rows && a.fileIndex == b.fileIndex && a.device == b.device ==> a == b
    ensures forall row :: row in rows ==>
      FileKey(ids[row.fileIndex], row.device) in FileTargetInserts(ids, rows)
      && FileTargetInserts(ids, rows)[FileKey(ids[row.fileIndex], row.device)] == FileTarget(row.route, row.status)
  {
    if rows != [] {
      var init, last := rows[..|rows| - 1], rows[|rows| - 1];
      FileTargetInsertsValues(ids, init);
      assert rows == init + [last];
      forall row | row in rows
        ensures FileKey(ids[row.fileIndex], row.device) in FileTargetInserts(ids, rows)
        ensures FileTargetInserts(ids, rows)[FileKey(ids[row.fileIndex], row.device)]
          == FileTarget(row.route, row.status)
      {
        if row != last {
          assert row in init;
        }
      }
    }
  }
}
