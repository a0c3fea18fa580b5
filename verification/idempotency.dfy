/**
 Keyed requests. A report's first committed answer is its only answer; a create with a used key answers
 with the transfer first created.
 */
module Idempotency {
  import opened Wrappers
  import opened Domain
  import opened Requests
  import opened Tables
  import opened Accounting
  import opened Transactions
  import opened Runs
  import opened Consistency

  ghost predicate RecordsSettled(db: Database) {
    forall rk :: rk in db.records ==> db.records[rk].state.Completed? && db.records[rk].response.Some?
  }

  lemma ApplyReportKeepsRecords(db: Database, session: Session, transfer: Id, p: Progress, now: Time)
    requires session.device.Some?
    ensures ApplyReport(db, session, transfer, p, now).0.records == db.records
  {
  }

  // A report either leaves the records alone or adds one completed record for its own key.
  lemma ReportAddsOneRecord(node: Node, db: Database, session: Session, transfer: Id, p: Progress, now: Time)
    ensures var (next, reply) := Report(node, db, session, transfer, p, now);
      next.records == db.records
      || (session.device.Some? && KeyOf(session, transfer, p) !in db.records && reply.Ok?
          && next.records == db.records[KeyOf(session, transfer, p) :=
               Record(node.progressHash(Body(p)), Completed, Some(reply.value))])
  {
    hide ApplyReport;
    if session.device.Some? {
      var rk := KeyOf(session, transfer, p);
      var pending := db.(records := db.records[rk := Record(node.progressHash(Body(p)), Processing, None)]);
      ApplyReportKeepsRecords(pending, session, transfer, p, now);
      ApplyReportKeepsRecords(db, session, transfer, p, now);
    }
  }

  // A refused report commits nothing at all: not even the record it opened.
  lemma RefusedReportChangesNothing(node: Node, db: Database, session: Session, transfer: Id, p: Progress, now: Time)
    ensures Report(node, db, session, transfer, p, now).1.Err? ==>
      Report(node, db, session, transfer, p, now).0 == db
  {
    hide ApplyReport;
  }

  lemma StepKeepsRecords(node: Node, db: Database, e: Event)
    ensures forall rk :: rk in db.records ==>
      rk in Step(node, db, e).records && Step(node, db, e).records[rk] == db.records[rk]
    ensures RecordsSettled(db) ==> RecordsSettled(Step(node, db, e))
  {
    hide Report, Inserted, Accepts, AllTargetsIn, HasLiveFile, WithLatest;
    match e
    case CreateEvent(session, key, request, devices, transfer, ids, now) =>
      CreateKeepsRecords(node, db, session, key, request, devices, transfer, ids, now);
    case ReportEvent(session, transfer, progress, now) =>
      ReportAddsOneRecord(node, db, session, transfer, progress, now);
    case _ =>
  }

  lemma CreateKeepsRecords(node: Node, db: Database, session: Session, key: string, request: Request,
                           devices: seq<Id>, transfer: Id, ids: seq<Id>, now: Time)
    ensures Create(node, db, session, key, request, devices, transfer, ids, now).records == db.records
  {
    hide Admits, ValidRequest, Deliverable, Prepare;
  }

  lemma {:induction false} RunKeepsRecords(node: Node, db: Database, events: seq<Event>)
    ensures forall rk :: rk in db.records ==>
      rk in Run(node, db, events).records && Run(node, db, events).records[rk] == db.records[rk]
    ensures RecordsSettled(db) ==> RecordsSettled(Run(node, db, events))
  {
    hide Step;
    if events != [] {
      var init := events[..|events| - 1];
      RunKeepsRecords(node, db, init);
      StepKeepsRecords(node, Run(node, db, init), events[|events| - 1]);
    }
  }

  // In every run from an empty database no committed record is left PROCESSING.
  lemma NoRecordLeftProcessing(node: Node, events: seq<Event>)
    ensures forall rk :: rk in Run(node, EMPTY, events).records ==>
      !Run(node, EMPTY, events).records[rk].state.Processing?
  {
    RunKeepsRecords(node, EMPTY, events);
  }

  // After a keyed report was answered, any later report by the same device with the same resource and
  // key gets that first answer if its body hashes the same and a conflict otherwise; it changes nothing
  // either way, whatever ran in between.
  lemma RepeatedReportReplays(
    node: Node, db: Database, session: Session, transfer: Id, p: Progress, now: Time,
    events: seq<Event>, session': Session, transfer': Id, p': Progress, now': Time)
    requires RecordsSettled(db) && p.key != ""
    requires Report(node, db, session, transfer, p, now).1.Ok?
    requires ValidProgress(session', transfer', p')
    requires session.device.Some? && KeyOf(session', transfer', p') == KeyOf(session, transfer, p)
    ensures var (next, first) := Report(node, db, session, transfer, p, now);
      var later := Run(node, next, events);
      Report(node, later, session', transfer', p', now')
      == (later, if node.progressHash(Body(p')) == node.progressHash(Body(p)) then first
                 else Err(IdempotencyConflict))
  {
    hide ApplyReport, Run;
    var (next, first) := Report(node, db, session, transfer, p, now);
    var rk := KeyOf(session, transfer, p);
    AnsweredReportIsRecorded(node, db, session, transfer, p, now);
    RunKeepsRecords(node, next, events);
    assert Run(node, next, events).records[rk]
        == Record(node.progressHash(Body(p)), Completed, Some(first.value));
  }

  lemma AnsweredReportIsRecorded(node: Node, db: Database, session: Session, transfer: Id, p: Progress, now: Time)
    requires RecordsSettled(db) && p.key != "" && session.device.Some?
    requires Report(node, db, session, transfer, p, now).1.Ok?
    ensures var (next, first) := Report(node, db, session, transfer, p, now);
      var rk := KeyOf(session, transfer, p);
      rk in next.records
      && next.records[rk] == Record(node.progressHash(Body(p)), Completed, Some(first.value))
  {
    hide ApplyReport;
    var rk := KeyOf(session, transfer, p);
    var pending := db.(records := db.records[rk := Record(node.progressHash(Body(p)), Processing, None)]);
    ApplyReportKeepsRecords(pending, session, transfer, p, now);
  }

  // ---- keyed creates ----

  // A device used each of its keys for one transfer only.
  ghost predicate KeysUnique(db: Database) {
    forall device, key, t, u :: key != "" && IsOriginal(db, device, key, t) && IsOriginal(db, device, key, u) ==> t == u
  }

  // The task is still there, with its sender, key and fingerprint.
  ghost predicate SameOrigin(db: Database, next: Database, t: Id)
    requires t in db.tasks
  {
    && t in next.tasks
    && next.tasks[t].senderDevice == db.tasks[t].senderDevice && next.tasks[t].key == db.tasks[t].key
    && next.tasks[t].fingerprint == db.tasks[t].fingerprint
  }

  lemma ShapeKeepsOrigins(db: Database, next: Database)
    requires SameShape(db, next)
    ensures forall t :: t in db.tasks ==> SameOrigin(db, next, t)
    ensures KeysUnique(db) ==> KeysUnique(next)
  {
    forall t | t in db.tasks
      ensures SameOrigin(db, next, t)
    {
    }
    assert forall device, key, t :: IsOriginal(next, device, key, t) ==> IsOriginal(db, device, key, t);
  }

  lemma CreateKeepsOrigins(node: Node, db: Database, session: Session, key: string, fingerprint: Bytes,
                           group: string, prepared: Prepared, transfer: Id, ids: seq<Id>)
    requires session.device.Some?
    ensures var next := CreateTransfer(node, db, session, key, fingerprint, group, prepared, transfer, ids);
      && (forall t :: t in db.tasks ==> SameOrigin(db, next, t))
      && (KeysUnique(db) ==> KeysUnique(next))
      && (Accepts(node, db, session, key, group, prepared, transfer, ids) ==>
        IsOriginal(next, session.device.value, key, transfer) && next.tasks[transfer].fingerprint == fingerprint)
  {
    hide Admits, TargetInserts, ExecutionInserts, FileInserts, FileTargetInserts;
    var next := CreateTransfer(node, db, session, key, fingerprint, group, prepared, transfer, ids);
    assert forall d, k, t :: IsOriginal(next, d, k, t) && t in db.tasks ==> IsOriginal(db, d, k, t);
  }

  lemma StepKeepsOrigins(node: Node, db: Database, e: Event)
    ensures forall t :: t in db.tasks ==> SameOrigin(db, Step(node, db, e), t)
    ensures KeysUnique(db) ==> KeysUnique(Step(node, db, e))
  {
    hide SameOrigin, KeysUnique, SameShape, CreateTransfer, Creatable, Report, Retry, Cancel, ReadTransfer,
         CompleteFile, MarkFileExpired, Hide;
    if e.CreateEvent? {
      if Creatable(e.session, e.request, e.devices) {
        HasDevice(e.session, e.request, e.devices);
        CreateKeepsOrigins(node, db, e.session, e.key, node.requestHash(e.request), e.request.group,
                           Prepare(e.request, e.devices, e.now), e.transfer, e.ids);
      } else {
        SelfShape(db);
        ShapeKeepsOrigins(db, db);
      }
    } else {
      StepKeepsShape(node, db, e);
      ShapeKeepsOrigins(db, Step(node, db, e));
    }
  }

  lemma HasDevice(session: Session, request: Request, devices: seq<Id>)
    requires Creatable(session, request, devices)
    ensures session.device.Some?
  {
  }

  lemma {:induction false} RunKeepsOrigins(node: Node, db: Database, events: seq<Event>)
    ensures forall t :: t in db.tasks ==> SameOrigin(db, Run(node, db, events), t)
    ensures KeysUnique(db) ==> KeysUnique(Run(node, db, events))
  {
    hide Step, KeysUnique;
    if events != [] {
      var init := events[..|events| - 1];
      RunKeepsOrigins(node, db, init);
      StepKeepsOrigins(node, Run(node, db, init), events[|events| - 1]);
    }
  }

  // In every run from an empty database a device's key belongs to one transfer.
  lemma KeysStayUnique(node: Node, events: seq<Event>)
    ensures KeysUnique(Run(node, EMPTY, events))
  {
    RunKeepsOrigins(node, EMPTY, events);
  }

  // After a keyed create was accepted, any later create of the same device with that key answers with
  // the first transfer as it then is, or with a conflict if the request hashes differently; it changes
  // nothing either way, whatever ran in between.
  lemma RepeatedCreateReplays(
    node: Node, db: Database, session: Session, key: string, request: Request, devices: seq<Id>,
    transfer: Id, ids: seq<Id>, now: Time, events: seq<Event>,
    session': Session, request': Request, devices': seq<Id>, transfer': Id, ids': seq<Id>, now': Time, reply: Reply)
    requires KeysUnique(db) && key != "" && Creatable(session, request, devices)
    requires Accepts(node, db, session, key, request.group, Prepare(request, devices, now), transfer, ids)
    requires Creatable(session', request', devices') && session'.device == session.device
    ensures var next := Create(node, db, session, key, request, devices, transfer, ids, now);
      var later := Run(node, next, events);
      && Create(node, later, session', key, request', devices', transfer', ids', now') == later
      && (CreateAnswers(node, later, session', key, request', devices', transfer', ids', now', reply) ==>
        reply == if node.requestHash(request') == node.requestHash(request)
                 then GetTransfer(later, session', transfer) else Err(IdempotencyConflict))
  {
    hide Run, Prepare, GetTransfer, ValidRequest, Deliverable, Admits, Inserted;
    CreateKeepsOrigins(node, db, session, key, node.requestHash(request), request.group,
                       Prepare(request, devices, now), transfer, ids);
    var next := Create(node, db, session, key, request, devices, transfer, ids, now);
    RunKeepsOrigins(node, next, events);
    var later := Run(node, next, events);
    assert SameOrigin(next, later, transfer);
    assert IsOriginal(later, session.device.value, key, transfer);
  }
}
