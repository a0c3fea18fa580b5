/**
 What Create inserts, and referential consistency of every reachable database.
 */
module Consistency {
  import opened Wrappers
  import opened Domain
  import opened Requests
  import opened Tables
  import opened Accounting
  import opened Transactions
  import opened Runs

  // The rows an accepted request adds, table by table; everything else is untouched.
  ghost predicate TargetEffect(old': map<TargetKey, Target>, next: map<TargetKey, Target>,
                               request: Request, devices: seq<Id>, transfer: Id) {
    && (forall k :: k in next <==> k in old' || (k.transfer == transfer && k.device in devices))
    && (forall k :: k in old' && k.transfer != transfer ==> next[k] == old'[k])
    && (forall k :: k in next && k.transfer == transfer && k.device in devices ==>
      next[k] == NewTarget(TargetRow(request, k.device)))
  }

  ghost predicate ExecutionEffect(old': map<TargetKey, seq<Execution>>, next: map<TargetKey, seq<Execution>>,
                                  request: Request, devices: seq<Id>, transfer: Id) {
    && (forall k :: k in next <==> k in old' || (k.transfer == transfer && k.device in devices))
    && (forall k :: k in old' && k.transfer != transfer ==> next[k] == old'[k])
    && (forall k :: k in next && k.transfer == transfer && k.device in devices ==>
      next[k] == [Execution(1, TargetRow(request, k.device).status, None)])
  }

  ghost predicate FileEffect(old': map<Id, FileRow>, next: map<Id, FileRow>,
                             files: seq<File>, transfer: Id, ids: seq<Id>, expiresAt: Time)
    requires |ids| == |files|
  {
    && (forall f :: f in next <==> f in old' || f in ids)
    && (forall f :: f in old' && f !in ids ==> next[f] == old'[f])
    && (forall i :: 0 <= i < |ids| ==> next[ids[i]] == NewFile(ids[i], transfer, files[i], expiresAt))
  }

  function NewFileTarget(request: Request, file: File, device: Id): FileTarget {
    FileTarget(FileRoute(request, file, device), InitialStatus(FileRoute(request, file, device)))
  }

  ghost predicate FileTargetEffect(old': map<FileKey, FileTarget>, next: map<FileKey, FileTarget>,
                                   request: Request, devices: seq<Id>, ids: seq<Id>)
    requires |ids| == |request.files|
  {
    && (forall k :: k in next <==> k in old' || (k.file in ids && k.device in devices))
    && (forall k :: k in old' && k.file !in ids ==> next[k] == old'[k])
    && (forall i, k :: 0 <= i < |ids| && k in next && k.file == ids[i] && k.device in devices ==>
      next[k] == NewFileTarget(request, request.files[i], k.device))
  }

  ghost predicate CreateEffect(db: Database, next: Database, request: Request, devices: seq<Id>,
                               task: Task, transfer: Id, ids: seq<Id>, expiresAt: Time)
    requires |ids| == |request.files|
  {
    && next.tasks == db.tasks[transfer := task]
    && next.records == db.records
    && TargetEffect(db.targets, next.targets, request, devices, transfer)
    && ExecutionEffect(db.executions, next.executions, request, devices, transfer)
    && FileEffect(db.files, next.files, request.files, transfer, ids, expiresAt)
    && FileTargetEffect(db.fileTargets, next.fileTargets, request, devices, ids)
  }

  lemma CreatedRows(node: Node, db: Database, session: Session, key: string, request: Request,
                    devices: seq<Id>, transfer: Id, ids: seq<Id>, now: Time)
    requires Creatable(session, request, devices)
    requires Accepts(node, db, session, key, request.group, Prepare(request, devices, now), transfer, ids)
    ensures var prepared := Prepare(request, devices, now);
      CreateEffect(db, Create(node, db, session, key, request, devices, transfer, ids, now), request, devices,
                   NewTask(session, key, node.requestHash(request), request.group, prepared),
                   transfer, ids, prepared.expiresAt)
  {
    hide Admits, ValidRequest, Deliverable, AggregateStatus, TargetRow, FileRoute, SelectRoute, TargetEffect,
         ExecutionEffect, FileEffect, FileTargetEffect, TargetInserts, ExecutionInserts, FileInserts,
         FileTargetInserts, TargetRows, FileTargetRows;
    var prepared := Prepare(request, devices, now);
    TargetEffectOfInserts(db.targets, db.executions, request, devices, transfer);
    FileEffectOfInserts(db.files, request.files, transfer, ids, prepared.expiresAt);
    TextHasNoFiles(request);
    FileTargetEffectOfInserts(db.fileTargets, request, devices, ids, prepared.fileTargets);
  }

  lemma TargetEffectOfInserts(targets: map<TargetKey, Target>, executions: map<TargetKey, seq<Execution>>,
                              request: Request, devices: seq<Id>, transfer: Id)
    ensures TargetEffect(targets, targets + TargetInserts(transfer, TargetRows(request, devices)),
                         request, devices, transfer)
    ensures ExecutionEffect(executions, executions + ExecutionInserts(transfer, TargetRows(request, devices)),
                            request, devices, transfer)
  {
    hide TargetRow, TargetInserts, ExecutionInserts, TargetRows;
    TargetInsertsExact(transfer, request, devices);
  }

  lemma FileEffectOfInserts(files: map<Id, FileRow>, added: seq<File>, transfer: Id, ids: seq<Id>, expiresAt: Time)
    requires |ids| == |added|
    requires forall i, j :: 0 <= i < j < |ids| ==> ids[i] != ids[j]
    ensures FileEffect(files, files + FileInserts(transfer, added, ids, expiresAt), added, transfer, ids, expiresAt)
  {
    hide FileInserts;
    FileInsertsExact(transfer, added, ids, expiresAt);
  }

  lemma FileTargetEffectOfInserts(fileTargets: map<FileKey, FileTarget>, request: Request, devices: seq<Id>,
                                  ids: seq<Id>, rows: seq<PreparedFileTarget>)
    requires PreparedFor(request, devices, ids, rows)
    ensures FileTargetEffect(fileTargets, fileTargets + FileTargetInserts(ids, rows), request, devices, ids)
  {
    hide FileTargetInserts, FileRoute, PreparedFor;
    CreatedFileTargetKeys(request, devices, ids, rows);
    CreatedFileTargetRoutes(request, devices, ids, rows);
  }

  lemma TextHasNoFiles(request: Request)
    requires ValidRequest(request)
    ensures request.contentType.IsText() ==> request.files == []
  {
  }

  ghost predicate PreparedFor(request: Request, devices: seq<Id>, ids: seq<Id>, rows: seq<PreparedFileTarget>) {
    && |ids| == |request.files|
    && (forall i, j :: 0 <= i < j < |ids| ==> ids[i] != ids[j])
    && rows == (if request.contentType.IsText() then [] else FileTargetRows(request, devices))
    && (request.contentType.IsText() ==> request.files == [])
    && (forall row :: row in rows ==> row.fileIndex < |ids|)
  }

  lemma CreatedFileTargetKeys(request: Request, devices: seq<Id>, ids: seq<Id>, rows: seq<PreparedFileTarget>)
    requires PreparedFor(request, devices, ids, rows)
    ensures forall k: FileKey :: k in FileTargetInserts(ids, rows) <==> k.file in ids && k.device in devices
  {
    hide FileRoute, InitialStatus;
    FileTargetsAreFullProduct(request, devices);
    FileTargetInsertsKeys(ids, rows);
    forall k: FileKey | k.file in ids && k.device in devices
      ensures k in FileTargetInserts(ids, rows)
    {
      var i :| 0 <= i < |ids| && ids[i] == k.file;
      CreatedFileTargetRow(request, devices, ids, rows, i, k.device);
    }
  }

  lemma CreatedFileTargetRow(request: Request, devices: seq<Id>, ids: seq<Id>, rows: seq<PreparedFileTarget>,
                             i: nat, d: Id)
    requires PreparedFor(request, devices, ids, rows)
    requires i < |ids| && d in devices
    ensures FileKey(ids[i], d) in FileTargetInserts(ids, rows)
    ensures FileTargetInserts(ids, rows)[FileKey(ids[i], d)] == NewFileTarget(request, request.files[i], d)
  {
    hide FileRoute, InitialStatus;
    FileTargetsAreFullProduct(request, devices);
    FileTargetInsertsValues(ids, rows);
    assert FileTargetRow(request, i, d) in rows;
  }

  lemma CreatedFileTargetRoutes(request: Request, devices: seq<Id>, ids: seq<Id>, rows: seq<PreparedFileTarget>)
    requires PreparedFor(request, devices, ids, rows)
    ensures forall i, k: FileKey ::
      0 <= i < |ids| && k in FileTargetInserts(ids, rows) && k.file == ids[i] && k.device in devices ==>
        FileTargetInserts(ids, rows)[k] == NewFileTarget(request, request.files[i], k.device)
  {
    hide FileRoute, InitialStatus;
    forall i, k: FileKey |
      0 <= i < |ids| && k in FileTargetInserts(ids, rows) && k.file == ids[i] && k.device in devices
      ensures FileTargetInserts(ids, rows)[k] == NewFileTarget(request, request.files[i], k.device)
    {
      CreatedFileTargetRow(request, devices, ids, rows, i, k.device);
    }
  }
  // ---- referential consistency ----

  lemma EffectLinksTargets(db: Database, next: Database, request: Request, devices: seq<Id>, transfer: Id)
    requires TargetsLinked(db) && next.tasks.Keys == db.tasks.Keys + {transfer}
    requires TargetEffect(db.targets, next.targets, request, devices, transfer)
    requires ExecutionEffect(db.executions, next.executions, request, devices, transfer)
    ensures TargetsLinked(next)
  {
    hide TargetRow, NewTarget;
    assert forall t :: t in next.tasks <==> t in db.tasks || t == transfer;
  }

  lemma EffectLinksFiles(db: Database, next: Database, request: Request, devices: seq<Id>, transfer: Id,
                         ids: seq<Id>, expiresAt: Time)
    requires FilesLinked(db) && next.tasks.Keys == db.tasks.Keys + {transfer}
    requires |ids| == |request.files| && forall i :: 0 <= i < |ids| ==> ids[i] !in db.files
    requires TargetEffect(db.targets, next.targets, request, devices, transfer)
    requires FileEffect(db.files, next.files, request.files, transfer, ids, expiresAt)
    requires FileTargetEffect(db.fileTargets, next.fileTargets, request, devices, ids)
    ensures FilesLinked(next)
  {
    hide TargetRow, FileRoute, NewTarget;
    assert forall t :: t in next.tasks <==> t in db.tasks || t == transfer;
    assert forall f :: f in ids ==> next.files[f].transfer == transfer;
  }

  lemma EffectKeepsProduct(db: Database, next: Database, request: Request, devices: seq<Id>, transfer: Id,
                           ids: seq<Id>, expiresAt: Time)
    requires Consistent(db) && transfer !in db.tasks
    requires |ids| == |request.files|
    requires TargetEffect(db.targets, next.targets, request, devices, transfer)
    requires FileEffect(db.files, next.files, request.files, transfer, ids, expiresAt)
    requires FileTargetEffect(db.fileTargets, next.fileTargets, request, devices, ids)
    ensures FullProduct(next)
  {
    hide TargetRow, FileRoute, NewTarget;
    assert forall f :: f in ids ==> next.files[f].transfer == transfer;
  }

  lemma CreateKeepsConsistent(node: Node, db: Database, e: Event)
    requires Consistent(db) && e.CreateEvent?
    ensures Consistent(Step(node, db, e))
  {
    hide Admits, ValidRequest, Deliverable, Prepare, NewTask, Inserted, TargetsLinked, FilesLinked, FullProduct,
         TargetEffect, ExecutionEffect, FileEffect, FileTargetEffect;
    if Creatable(e.session, e.request, e.devices)
       && Accepts(node, db, e.session, e.key, e.request.group, Prepare(e.request, e.devices, e.now),
                  e.transfer, e.ids) {
      var next := Step(node, db, e);
      var expiresAt := Prepare(e.request, e.devices, e.now).expiresAt;
      PreparedCopies(e.request, e.devices, e.now);
      CreatedRows(node, db, e.session, e.key, e.request, e.devices, e.transfer, e.ids, e.now);
      EffectLinksTargets(db, next, e.request, e.devices, e.transfer);
      EffectLinksFiles(db, next, e.request, e.devices, e.transfer, e.ids, expiresAt);
      EffectKeepsProduct(db, next, e.request, e.devices, e.transfer, e.ids, expiresAt);
    }
  }

  // Every step but Create rewrites rows in place.
  ghost predicate SameShape(a: Database, b: Database) {
    && a.tasks.Keys == b.tasks.Keys && a.targets.Keys == b.targets.Keys
    && a.executions.Keys == b.executions.Keys
    && a.files.Keys == b.files.Keys && a.fileTargets.Keys == b.fileTargets.Keys
    && (forall f :: f in a.files ==>
      a.files[f].(status := b.files[f].status, storagePath := b.files[f].storagePath) == b.files[f])
    && (forall k :: k in a.fileTargets ==> a.fileTargets[k].route == b.fileTargets[k].route)
    && (forall t :: t in a.tasks ==>
      a.tasks[t].(status := b.tasks[t].status, hiddenFor := b.tasks[t].hiddenFor) == b.tasks[t])
  }

  lemma ReportKeepsShape(node: Node, db: Database, e: Event)
    requires e.ReportEvent?
    ensures SameShape(db, Step(node, db, e))
  {
    hide Report, AggregatedStatus, Reported, Refuses, Repeats, WithLatest;
    ReportCases(node, db, e.session, e.transfer, e.progress, e.now);
  }

  lemma CancelledTargetsKeys(targets: map<TargetKey, Target>, transfer: Id, now: Time)
    ensures CancelledTargets(targets, transfer, now).Keys == targets.Keys
  {
  }

  lemma CancelledFileTargetsKeepRoutes(
    files: map<Id, FileRow>, fileTargets: map<FileKey, FileTarget>, transfer: Id)
    ensures var next := CancelledFileTargets(files, fileTargets, transfer);
      next.Keys == fileTargets.Keys && forall k :: k in fileTargets ==> fileTargets[k].route == next[k].route
  {
  }

  lemma CancelKeepsShape(db: Database, session: Session, transfer: Id, now: Time)
    ensures SameShape(db, Cancel(db, session, transfer, now))
  {
    hide CancelledTargets, CancelledFileTargets;
    CancelledTargetsKeys(db.targets, transfer, now);
    CancelledFileTargetsKeepRoutes(db.files, db.fileTargets, transfer);
  }

  lemma CompleteKeepsShape(db: Database, session: Session, file: Id, path: string)
    ensures SameShape(db, CompleteFile(db, session, file, path))
  {
  }

  lemma ExpiredTargetsKeys(
    files: map<Id, FileRow>, fileTargets: map<FileKey, FileTarget>, targets: map<TargetKey, Target>,
    transfer: Id, now: Time)
    ensures ExpiredTargets(files, fileTargets, targets, transfer, now).Keys == targets.Keys
  {
    hide HasLiveFile;
  }

  lemma ExpireKeepsShape(db: Database, file: Id, now: Time)
    ensures SameShape(db, MarkFileExpired(db, file, now))
  {
    hide AllTargetsIn, ExpiredTargets;
    if file in db.files && !db.files[file].status.FileExpired? {
      var files := db.files[file := db.files[file].(status := FileExpired, storagePath := "")];
      var fileTargets := map k | k in db.fileTargets ::
        if k.file == file then db.fileTargets[k].(status := Expired) else db.fileTargets[k];
      ExpiredTargetsKeys(files, fileTargets, db.targets, db.files[file].transfer, now);
    }
  }

  lemma RetryKeepsShape(db: Database, session: Session, transfer: Id, device: Id, key: string, now: Time)
    ensures SameShape(db, Retry(db, session, transfer, device, key, now))
  {
    hide KeyUsed, MaxAttempt;
  }

  lemma ReadKeepsShape(db: Database, session: Session, transfer: Id, now: Time)
    ensures SameShape(db, ReadTransfer(db, session, transfer, now))
  {
    hide WithLatest;
  }

  lemma HideKeepsShape(node: Node, db: Database, session: Session, transfer: Id)
    ensures SameShape(db, Hide(node, db, session, transfer))
  {
    hide SameShape;
    SelfShape(db);
    if MayHide(node, db, session, transfer) {
      var task := db.tasks[transfer];
      TaskKeepsShape(db, transfer, task.(hiddenFor := task.hiddenFor + {session.user}));
    }
  }

  lemma SelfShape(db: Database)
    ensures SameShape(db, db)
  {
  }

  lemma TaskKeepsShape(db: Database, transfer: Id, task: Task)
    requires transfer in db.tasks
    requires db.tasks[transfer].(status := task.status, hiddenFor := task.hiddenFor) == task
    ensures SameShape(db, db.(tasks := db.tasks[transfer := task]))
  {
  }

  lemma StepKeepsShape(node: Node, db: Database, e: Event)
    requires !e.CreateEvent?
    ensures SameShape(db, Step(node, db, e))
  {
    hide Report, Retry, Cancel, ReadTransfer, CompleteFile, MarkFileExpired, Hide, SameShape;
    match e
    case ReportEvent(_, _, _, _) => ReportKeepsShape(node, db, e);
    case RetryEvent(session, transfer, device, key, now) => RetryKeepsShape(db, session, transfer, device, key, now);
    case CancelEvent(session, transfer, now) => CancelKeepsShape(db, session, transfer, now);
    case ReadEvent(session, transfer, now) => ReadKeepsShape(db, session, transfer, now);
    case HideEvent(session, transfer) => HideKeepsShape(node, db, session, transfer);
    case CompleteEvent(session, file, path) => CompleteKeepsShape(db, session, file, path);
    case ExpireEvent(file, now) => ExpireKeepsShape(db, file, now);
  }

  lemma ShapeKeepsConsistent(a: Database, b: Database)
    requires Consistent(a) && SameShape(a, b)
    ensures Consistent(b)
  {
    assert forall f :: f in a.files ==> a.files[f].transfer == b.files[f].transfer;
    assert forall k :: k in b.targets <==> k in a.targets;
    assert forall k :: k in b.executions <==> k in a.executions;
    assert forall t :: t in b.tasks <==> t in a.tasks;
    assert forall f :: f in b.files <==> f in a.files;
    assert forall k :: k in b.fileTargets <==> k in a.fileTargets;
  }

  lemma StepKeepsConsistent(node: Node, db: Database, e: Event)
    requires Consistent(db)
    ensures Consistent(Step(node, db, e))
  {
    hide Consistent, Step;
    if e.CreateEvent? {
      CreateKeepsConsistent(node, db, e);
    } else {
      StepKeepsShape(node, db, e);
      ShapeKeepsConsistent(db, Step(node, db, e));
    }
  }

  lemma {:induction false} RunKeepsConsistent(node: Node, db: Database, events: seq<Event>)
    requires Consistent(db)
    ensures Consistent(Run(node, db, events))
  {
    if events != [] {
      var init := events[..|events| - 1];
      RunKeepsConsistent(node, db, init);
      StepKeepsConsistent(node, Run(node, db, init), events[|events| - 1]);
    }
  }
}
