/**
 One function per store transaction: the database it leaves and, where a caller sees it, the reply.
 A transaction that fails leaves the database as it was.
 */
module Transactions {
  import opened Wrappers
  import opened Domain
  import opened Requests
  import opened Tables
  import opened Accounting

  // ---- create ----

  function NewTarget(row: PreparedTarget): Target {
    Target(row.route, row.status, 0, None, None, None, "")
  }

  function TargetInserts(transfer: Id, rows: seq<PreparedTarget>): map<TargetKey, Target> {
    if rows == [] then map[]
    else
      var last := rows[|rows| - 1];
      TargetInserts(transfer, rows[..|rows| - 1])[TargetKey(transfer, last.device) := NewTarget(last)]
  }

  function ExecutionInserts(transfer: Id, rows: seq<PreparedTarget>): map<TargetKey, seq<Execution>> {
    if rows == [] then map[]
    else
      var last := rows[|rows| - 1];
      ExecutionInserts(transfer, rows[..|rows| - 1])
      [TargetKey(transfer, last.device) := [Execution(1, last.status, None)]]
  }

  function NewFile(id: Id, transfer: Id, file: File, expiresAt: Time): FileRow {
    FileRow(transfer, file.size, file.sha256, file.chunkSize, file.chunkCount, Uploading, "pending/" + id, expiresAt)
  }

  function FileInserts(transfer: Id, files: seq<File>, ids: seq<Id>, expiresAt: Time): map<Id, FileRow>
    requires |ids| == |files|
  {
    if files == [] then map[]
    else
      var n := |files| - 1;
      FileInserts(transfer, files[..n], ids[..n], expiresAt)[ids[n] := NewFile(ids[n], transfer, files[n], expiresAt)]
  }

  function FileTargetInserts(ids: seq<Id>, rows: seq<PreparedFileTarget>): map<FileKey, FileTarget>
    requires forall row :: row in rows ==> row.fileIndex < |ids|
  {
    if rows == [] then map[]
    else
      var last := rows[|rows| - 1];
      FileTargetInserts(ids, rows[..|rows| - 1])
      [FileKey(ids[last.fileIndex], last.device) := FileTarget(last.route, last.status)]
  }

  predicate Reused(db: Database, device: Id, key: string) {
    key != "" && exists t :: t in db.tasks && IsOriginal(db, device, key, t)
  }

  // The primary keys of the new rows are free: fresh identifiers and no repeated device or row.
  ghost predicate Insertable(db: Database, prepared: Prepared, transfer: Id, ids: seq<Id>) {
    && transfer !in db.tasks
    && |ids| == |prepared.files|
    && (forall i, j :: 0 <= i < j < |ids| ==> ids[i] != ids[j])
    && (forall i :: 0 <= i < |ids| ==> ids[i] !in db.files)
    && (forall i, j :: 0 <= i < j < |prepared.targets| ==>
      prepared.targets[i].device != prepared.targets[j].device)
    && (forall row :: row in prepared.fileTargets ==> row.fileIndex < |prepared.files|)
    && (forall i, j :: 0 <= i < j < |prepared.fileTargets| ==>
      !SameRow(prepared.fileTargets[i], prepared.fileTargets[j]))
  }

  // Two rows with the same primary key.
  predicate SameRow(a: PreparedFileTarget, b: PreparedFileTarget) {
    a.fileIndex == b.fileIndex && a.device == b.device
  }

  ghost function Inserted(db: Database, task: Task, prepared: Prepared, transfer: Id, ids: seq<Id>): Database
    requires Insertable(db, prepared, transfer, ids)
  {
    Database(
      db.tasks[transfer := task],
      db.targets + TargetInserts(transfer, prepared.targets),
      db.executions + ExecutionInserts(transfer, prepared.targets),
      db.records,
      db.files + FileInserts(transfer, prepared.files, ids, prepared.expiresAt),
      db.fileTargets + FileTargetInserts(ids, prepared.fileTargets))
  }

  function NewTask(session: Session, key: string, fingerprint: Bytes, group: string, prepared: Prepared): Task
    requires session.device.Some?
  {
    Task(session.user, session.device.value, group, key, fingerprint,
         prepared.status, prepared.createdAt, prepared.expiresAt, {})
  }

  ghost predicate Accepts(node: Node, db: Database, session: Session, key: string, group: string,
                          prepared: Prepared, transfer: Id, ids: seq<Id>)
    requires session.device.Some?
  {
    && !Reused(db, session.device.value, key)
    && Admits(node.settings, db, session.user, group, prepared)
    && Insertable(db, prepared, transfer, ids)
  }

  ghost function CreateTransfer(node: Node, db: Database, session: Session, key: string, fingerprint: Bytes,
                                group: string, prepared: Prepared, transfer: Id, ids: seq<Id>): Database
    requires session.device.Some?
  {
    if Accepts(node, db, session, key, group, prepared, transfer, ids)
    then Inserted(db, NewTask(session, key, fingerprint, group, prepared), prepared, transfer, ids)
    else db
  }

  predicate Creatable(session: Session, request: Request, devices: seq<Id>) {
    session.device.Some? && ValidRequest(request) && Deliverable(request, devices)
  }

  ghost function Create(node: Node, db: Database, session: Session, key: string, request: Request,
                        devices: seq<Id>, transfer: Id, ids: seq<Id>, now: Time): Database {
    if Creatable(session, request, devices)
    then CreateTransfer(node, db, session, key, node.requestHash(request), request.group,
                        Prepare(request, devices, now), transfer, ids)
    else db
  }

  // Some earlier create of this device carried the key.
  predicate IsOriginal(db: Database, device: Id, key: string, t: Id) {
    t in db.tasks && db.tasks[t].senderDevice == device && db.tasks[t].key == key
  }

  // What the create transaction answers: a replay, a refusal or the new transfer.
  ghost predicate TransferAnswers(
    node: Node, db: Database, session: Session, key: string, fingerprint: Bytes, group: string,
    prepared: Prepared, transfer: Id, ids: seq<Id>, reply: Reply)
    requires session.device.Some?
  {
    var device := session.device.value;
    if Reused(db, device, key) then
      exists t :: IsOriginal(db, device, key, t)
        && reply == if db.tasks[t].fingerprint == fingerprint then GetTransfer(db, session, t)
                    else Err(IdempotencyConflict)
    else if !Admits(node.settings, db, session.user, group, prepared) then
      reply.Err? && RefusedWith(node.settings, db, session.user, group, prepared, reply.error)
    else if !Insertable(db, prepared, transfer, ids) then reply == Err(Conflict)
    else
      reply == GetTransfer(CreateTransfer(node, db, session, key, fingerprint, group, prepared, transfer, ids),
                           session, transfer)
  }

  ghost predicate CreateAnswers(
    node: Node, db: Database, session: Session, key: string, request: Request, devices: seq<Id>,
    transfer: Id, ids: seq<Id>, now: Time, reply: Reply) {
    if session.device.None? then reply == Err(Forbidden)
    else if !ValidRequest(request) || !Deliverable(request, devices) then reply == Err(Invalid)
    else
      TransferAnswers(node, db, session, key, node.requestHash(request), request.group,
                      Prepare(request, devices, now), transfer, ids, reply)
  }

  // ---- progress reports ----

  function MaxAttempt(rows: seq<Execution>): int {
    if rows == [] then 0
    else
      var rest := MaxAttempt(rows[..|rows| - 1]);
      if rows[|rows| - 1].attempt > rest then rows[|rows| - 1].attempt else rest
  }

  function WithLatest(rows: seq<Execution>, status: Status): seq<Execution> {
    seq(|rows|, i requires 0 <= i < |rows| =>
      if rows[i].attempt == MaxAttempt(rows) then rows[i].(status := status) else rows[i])
  }

  predicate ValidProgress(session: Session, transfer: Id, p: Progress) {
    && transfer != "" && session.device.Some? && p.device != "" && p.bytes >= 0
    && Reportable(p.status) && (p.route.Some? ==> ReportableRoute(p.route.value))
    && |p.errorCode| <= 100
    && forall c :: c in p.errorCode ==> 'A' <= c <= 'Z' || '0' <= c <= '9' || c == '_'
  }

  predicate MayReport(db: Database, device: Id, transfer: Id, target: Id) {
    && transfer in db.tasks
    && TargetKey(transfer, target) in db.targets
    && TargetKey(transfer, target) in db.executions
    && db.executions[TargetKey(transfer, target)] != []
    && (device == target || device == db.tasks[transfer].senderDevice)
  }

  predicate Repeats(current: Status, next: Status) {
    current == next && (current.IsTerminal() || current.Delivered?)
  }

  predicate Refuses(current: Status, next: Status) {
    || current.IsTerminal()
    || (current.Delivered? && !next.Read?)
    || (current in {SourceFileMissing, SourceFileChanged} && next.CheckingRoute?)
    || (current != next && !current.CanTransitionTo(next))
  }

  function Reported(target: Target, p: Progress, now: Time): Target {
    Target(
      if p.route.Some? then p.route.value else target.route,
      p.status,
      if p.bytes > target.bytes then p.bytes else target.bytes,
      if target.startedAt.Some? then target.startedAt else Some(now),
      if p.status in {Delivered, Read, Failed} then Some(now) else target.completedAt,
      if p.status.Read? then Some(now) else target.readAt,
      p.errorCode)
  }

  predicate AllTargetsIn(targets: map<TargetKey, Target>, transfer: Id, statuses: set<Status>) {
    forall k :: k in targets && k.transfer == transfer ==> targets[k].status in statuses
  }

  function AggregatedStatus(
    targets: map<TargetKey, Target>, transfer: Id, current: Status, reported: Status): Status {
    if AllTargetsIn(targets, transfer, {Read}) then Read
    else if AllTargetsIn(targets, transfer, {Delivered, Read}) then Delivered
    else if AllTargetsIn(targets, transfer, {Failed, Cancelled, Expired}) then Failed
    else if reported in {Delivered, Read, Failed} then current
    else reported
  }

  function ReportedDatabase(db: Database, transfer: Id, p: Progress, now: Time): Database
    requires transfer in db.tasks
    requires TargetKey(transfer, p.device) in db.targets && TargetKey(transfer, p.device) in db.executions
  {
    var k := TargetKey(transfer, p.device);
    var targets := db.targets[k := Reported(db.targets[k], p, now)];
    var task := db.tasks[transfer];
    db.(targets := targets,
        executions := db.executions[k := WithLatest(db.executions[k], p.status)],
        tasks := db.tasks[transfer := task.(
          status := AggregatedStatus(targets, transfer, task.status, p.status))])
  }

  // The part of a report after the idempotency lookup.
  function ApplyReport(db: Database, session: Session, transfer: Id, p: Progress, now: Time): (Database, Reply)
    requires session.device.Some?
  {
    if !MayReport(db, session.device.value, transfer, p.device) then (db, Err(Forbidden))
    else
      var current := db.targets[TargetKey(transfer, p.device)].status;
      if Repeats(current, p.status) then (db, GetTransfer(db, session, transfer))
      else if Refuses(current, p.status) then (db, Err(Conflict))
      else
        var next := ReportedDatabase(db, transfer, p, now);
        (next, GetTransfer(next, session, transfer))
  }

  // Completes the record this transaction opened; a missing or foreign record is a conflict.
  function CompleteRecord(db: Database, rk: RecordKey, hash: Bytes, view: View): Result<Database, Error> {
    if rk in db.records && db.records[rk].hash == hash && db.records[rk].state.Processing?
    then Ok(db.(records := db.records[rk := Record(hash, Completed, Some(view))]))
    else Err(IdempotencyConflict)
  }

  function KeyOf(session: Session, transfer: Id, p: Progress): RecordKey
    requires session.device.Some?
  {
    RecordKey(session.device.value, Resource(transfer, p.device), p.key)
  }

  ghost function ReportFresh(
    node: Node, db: Database, session: Session, transfer: Id, p: Progress, now: Time): (Database, Reply)
    requires session.device.Some?
  {
    var hash := node.progressHash(Body(p));
    var rk := KeyOf(session, transfer, p);
    var pending := db.(records := db.records[rk := Record(hash, Processing, None)]);
    var (applied, reply) := ApplyReport(pending, session, transfer, p, now);
    if reply.Err? then (db, reply)
    else
      match CompleteRecord(applied, rk, hash, reply.value)
      case Ok(completed) => (completed, reply)
      case Err(e) => (db, Err(e))
  }

  ghost function Report(
    node: Node, db: Database, session: Session, transfer: Id, p: Progress, now: Time): (Database, Reply) {
    if !ValidProgress(session, transfer, p) then (db, Err(Invalid))
    else if p.key == "" then
      var (applied, reply) := ApplyReport(db, session, transfer, p, now);
      if reply.Err? then (db, reply) else (applied, reply)
    else
      var rk := KeyOf(session, transfer, p);
      if rk !in db.records then ReportFresh(node, db, session, transfer, p, now)
      else
        var record := db.records[rk];
        if record.hash != node.progressHash(Body(p)) || !record.state.Completed? || record.response.None?
        then (db, Err(IdempotencyConflict))
        else (db, Ok(record.response.value))
  }

  // ---- retry, cancel, read, hide ----

  predicate KeyUsed(rows: seq<Execution>, key: string) {
    exists i :: 0 <= i < |rows| && rows[i].key == Some(key)
  }

  predicate Retryable(status: Status) {
    status in {Failed, Paused, SourceFileMissing, SourceFileChanged}
  }

  predicate RetryAccepted(db: Database, session: Session, transfer: Id, device: Id, key: string) {
    var k := TargetKey(transfer, device);
    && transfer != "" && device != "" && key != "" && session.device.Some?
    && transfer in db.tasks && db.tasks[transfer].senderUser == session.user
    && k in db.targets && k in db.executions
    && !KeyUsed(db.executions[k], key)
    && Retryable(db.targets[k].status)
  }

  function Retried(target: Target, now: Time): Target {
    target.(status := CheckingRoute, startedAt := Some(now), completedAt := None, readAt := None, errorCode := "")
  }

  ghost function Retry(db: Database, session: Session, transfer: Id, device: Id, key: string, now: Time): Database {
    if !RetryAccepted(db, session, transfer, device, key) then db
    else
      var k := TargetKey(transfer, device);
      var rows := db.executions[k];
      db.(targets := db.targets[k := Retried(db.targets[k], now)],
          executions := db.executions[k := rows + [Execution(MaxAttempt(rows) + 1, CheckingRoute, Some(key))]],
          tasks := db.tasks[transfer := db.tasks[transfer].(status := CheckingRoute)])
  }

  predicate CancelAccepted(db: Database, session: Session, transfer: Id) {
    && transfer in db.tasks && db.tasks[transfer].senderUser == session.user
    && !db.tasks[transfer].status.IsSettled()
  }

  function CancelledTargets(targets: map<TargetKey, Target>, transfer: Id, now: Time): map<TargetKey, Target> {
    map k | k in targets ::
      if k.transfer == transfer && !targets[k].status.IsSettled()
      then targets[k].(status := Cancelled, completedAt := Some(now)) else targets[k]
  }

  function CancelledFileTargets(
    files: map<Id, FileRow>, fileTargets: map<FileKey, FileTarget>, transfer: Id): map<FileKey, FileTarget> {
    map k | k in fileTargets ::
      if k.file in files && files[k.file].transfer == transfer && !fileTargets[k].status.IsSettled()
      then fileTargets[k].(status := Cancelled) else fileTargets[k]
  }

  ghost function Cancel(db: Database, session: Session, transfer: Id, now: Time): Database {
    if !CancelAccepted(db, session, transfer) then db
    else
      db.(tasks := db.tasks[transfer := db.tasks[transfer].(status := Cancelled)],
          targets := CancelledTargets(db.targets, transfer, now),
          fileTargets := CancelledFileTargets(db.files, db.fileTargets, transfer))
  }

  ghost function ReadTransfer(db: Database, session: Session, transfer: Id, now: Time): Database {
    if session.device.None? then db
    else
      var k := TargetKey(transfer, session.device.value);
      if k !in db.targets || !db.targets[k].status.Delivered? then db
      else if k !in db.executions || db.executions[k] == [] then db
      else
        db.(targets := db.targets[k := db.targets[k].(status := Read, readAt := Some(now))],
            executions := db.executions[k := WithLatest(db.executions[k], Read)])
  }

  // The sender may hide a transfer, and so may the user of a receiving device.
  predicate MayHide(node: Node, db: Database, session: Session, transfer: Id) {
    && transfer in db.tasks
    && (db.tasks[transfer].senderUser == session.user
        || (session.device.Some?
            && exists k :: k in db.targets && k.transfer == transfer && node.deviceUser(k.device) == session.user))
  }

  ghost function Hide(node: Node, db: Database, session: Session, transfer: Id): Database {
    if !MayHide(node, db, session, transfer) then db
    else
      var task := db.tasks[transfer];
      db.(tasks := db.tasks[transfer := task.(hiddenFor := task.hiddenFor + {session.user})])
  }

  // ---- files ----

  predicate CompletionAccepted(db: Database, session: Session, file: Id) {
    && file in db.files && db.files[file].status.Uploading?
    && db.files[file].transfer in db.tasks
    && db.tasks[db.files[file].transfer].senderUser == session.user
    && session.device == Some(db.tasks[db.files[file].transfer].senderDevice)
  }

  // Every node-routed target of the transfer becomes available, whatever it was.
  function AvailableTargets(targets: map<TargetKey, Target>, transfer: Id): map<TargetKey, Target> {
    map k | k in targets ::
      if k.transfer == transfer && targets[k].route.Node?
      then targets[k].(status := AvailableOnNode) else targets[k]
  }

  ghost function CompleteFile(db: Database, session: Session, file: Id, path: string): Database {
    if !CompletionAccepted(db, session, file) then db
    else
      var row := db.files[file];
      db.(files := db.files[file := row.(status := OnNode, storagePath := path)],
          fileTargets := map k | k in db.fileTargets ::
            if k.file == file && db.fileTargets[k].route.Node?
            then db.fileTargets[k].(status := AvailableOnNode) else db.fileTargets[k],
          targets := AvailableTargets(db.targets, row.transfer))
  }

  predicate HasLiveFile(
    files: map<Id, FileRow>, fileTargets: map<FileKey, FileTarget>, transfer: Id, device: Id) {
    exists f :: f in files && files[f].transfer == transfer && !files[f].status.FileExpired?
      && FileKey(f, device) in fileTargets
  }

  // The targets of the transfer that have no live file left expire.
  function ExpiredTargets(
    files: map<Id, FileRow>, fileTargets: map<FileKey, FileTarget>, targets: map<TargetKey, Target>,
    transfer: Id, now: Time): map<TargetKey, Target> {
    map k | k in targets ::
      if k.transfer == transfer && !HasLiveFile(files, fileTargets, transfer, k.device)
      then targets[k].(status := Expired, completedAt := Some(now)) else targets[k]
  }

  ghost function MarkFileExpired(db: Database, file: Id, now: Time): Database {
    if file !in db.files || db.files[file].status.FileExpired? then db
    else
      var transfer := db.files[file].transfer;
      var files := db.files[file := db.files[file].(status := FileExpired, storagePath := "")];
      var fileTargets := map k | k in db.fileTargets ::
        if k.file == file then db.fileTargets[k].(status := Expired) else db.fileTargets[k];
      var targets := ExpiredTargets(files, fileTargets, db.targets, transfer, now);
      var tasks :=
        if transfer in db.tasks && AllTargetsIn(targets, transfer, {Expired})
        then db.tasks[transfer := db.tasks[transfer].(status := Expired)] else db.tasks;
      db.(files := files, fileTargets := fileTargets, targets := targets, tasks := tasks)
  }

  // The scan cleanup acts on.
  predicate DeliveredLongAgo(db: Database, file: Id, now: Time)
    requires file in db.files
  {
    var receivers := NodeReceivers(db, file);
    && db.files[file].status.OnNode?
    && NodeRouted(db, file)
    && (forall k :: k in receivers ==> db.targets[k].status in {Delivered, Read})
    && (exists k :: k in receivers && db.targets[k].completedAt.Some?)
    && (forall k :: k in receivers && db.targets[k].completedAt.Some? ==>
      db.targets[k].completedAt.value <= now - DAY)
  }

  // The targets that receive this file through the node.
  function NodeReceivers(db: Database, file: Id): (r: set<TargetKey>)
    requires file in db.files
    ensures forall k :: k in r ==> k in db.targets
  {
    set k | k in db.targets && k.transfer == db.files[file].transfer
      && FileKey(file, k.device) in db.fileTargets && db.fileTargets[FileKey(file, k.device)].route.Node?
  }

  predicate Expirable(db: Database, file: Id, now: Time) {
    && file in db.files && !db.files[file].status.FileExpired?
    && (db.files[file].expiresAt <= now || DeliveredLongAgo(db, file, now))
  }
}
