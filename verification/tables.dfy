/**
 The rows a transfer lives in, gathered into one database value, and the rows a client sees.
 */
module Tables {
  import opened Wrappers
  import opened Domain
  import opened Requests

  datatype Session = Session(user: Id, device: Option<Id>)

  datatype Error =
    | Invalid | Forbidden | NotFound | Conflict | IdempotencyConflict
    | FileTooLarge | QuotaExceeded | StorageFull

  datatype Task = Task(
    senderUser: Id, senderDevice: Id, group: string, key: string, fingerprint: Bytes,
    status: Status, createdAt: Time, expiresAt: Time, hiddenFor: set<Id>)

  datatype Target = Target(
    route: Route, status: Status, bytes: int, startedAt: Option<Time>,
    completedAt: Option<Time>, readAt: Option<Time>, errorCode: string)

  datatype Execution = Execution(attempt: int, status: Status, key: Option<string>)

  datatype FileStatus = Uploading | OnNode | FileExpired

  datatype FileRow = FileRow(
    transfer: Id, size: int, sha256: Bytes, chunkSize: int, chunkCount: int,
    status: FileStatus, storagePath: string, expiresAt: Time)

  datatype FileTarget = FileTarget(route: Route, status: Status)

  datatype TargetKey = TargetKey(transfer: Id, device: Id)

  datatype FileKey = FileKey(file: Id, device: Id)

  datatype RecordKey = RecordKey(device: Id, resource: string, key: string)

  datatype RecordState = Processing | Completed

  datatype Record = Record(hash: Bytes, state: RecordState, response: Option<View>)

  datatype TargetView = TargetView(route: Route, status: Status, bytes: int)

  datatype View = View(transfer: Id, status: Status, targets: map<Id, TargetView>)

  type Reply = Result<View, Error>

  datatype Database = Database(
    tasks: map<Id, Task>,
    targets: map<TargetKey, Target>,
    executions: map<TargetKey, seq<Execution>>,
    records: map<RecordKey, Record>,
    files: map<Id, FileRow>,
    fileTargets: map<FileKey, FileTarget>)

  const EMPTY := Database(map[], map[], map[], map[], map[], map[])

  datatype Progress = Progress(
    key: string, device: Id, status: Status, route: Option<Route>, bytes: int, errorCode: string)

  // The part of a report that the idempotency hash covers: the key itself is not encoded.
  datatype ProgressBody = ProgressBody(
    device: Id, status: Status, route: Option<Route>, bytes: int, errorCode: string)

  function Body(p: Progress): ProgressBody {
    ProgressBody(p.device, p.status, p.route, p.bytes, p.errorCode)
  }

  function Resource(transfer: Id, device: Id): string {
    "/api/transfers/" + transfer + "/targets/" + device
  }

  datatype Owner = UserOwner(id: Id) | GroupOwner(id: Id)

  datatype OwnerQuota = OwnerQuota(byteLimit: Option<int>, dailyLimit: Option<int>)

  datatype Settings = Settings(
    singleFileLimit: int, userQuota: int, groupQuota: int, nodeLimit: int,
    userDaily: int, groupDaily: int, stopPercent: int, owners: map<Owner, OwnerQuota>)

  // The node settings, the user of each device, and the two digests, which stay abstract.
  datatype Node = Node(
    settings: Settings, deviceUser: Id -> Id, progressHash: ProgressBody -> Bytes, requestHash: Request -> Bytes)

  function ViewOf(db: Database, transfer: Id): View
    requires transfer in db.tasks
  {
    View(transfer, db.tasks[transfer].status,
         map k | k in db.targets && k.transfer == transfer ::
           k.device := TargetView(db.targets[k].route, db.targets[k].status, db.targets[k].bytes))
  }

  predicate Visible(db: Database, session: Session, transfer: Id) {
    && transfer in db.tasks
    && session.user !in db.tasks[transfer].hiddenFor
    && (db.tasks[transfer].senderUser == session.user
        || (session.device.Some? && TargetKey(transfer, session.device.value) in db.targets))
  }

  function GetTransfer(db: Database, session: Session, transfer: Id): Reply {
    if Visible(db, session, transfer) then Ok(ViewOf(db, transfer)) else Err(NotFound)
  }

  ghost predicate TargetsLinked(db: Database) {
    && (forall k :: k in db.targets ==> k.transfer in db.tasks && k in db.executions)
    && (forall k :: k in db.executions ==> k in db.targets)
  }

  ghost predicate FilesLinked(db: Database) {
    && (forall f :: f in db.files ==> db.files[f].transfer in db.tasks)
    && (forall k :: k in db.fileTargets ==>
      k.file in db.files && TargetKey(db.files[k.file].transfer, k.device) in db.targets)
  }

  // The file targets are the full product of a transfer's files and devices.
  ghost predicate FullProduct(db: Database) {
    forall k, f :: k in db.targets && f in db.files && db.files[f].transfer == k.transfer ==>
      FileKey(f, k.device) in db.fileTargets
  }

  // Every row points at rows that exist, and no file target is missing.
  ghost predicate Consistent(db: Database) {
    TargetsLinked(db) && FilesLinked(db) && FullProduct(db)
  }
}
