/**
 Quota arithmetic and the usage sums that admission compares against (internal/postgres/store.go).
 */
module Accounting {
  import opened Wrappers
  import opened Numbers
  import opened Domain
  import opened Requests
  import opened Tables
  import opened SetSum

  // Division that rounds toward zero.
  function Quotient(a: int, b: int): int
    requires b > 0
  {
    if a >= 0 then a / b else -((-a) / b)
  }

  predicate Exceeds(current: int, requested: int, limit: int) {
    limit < 0 || requested > limit || current > limit - requested
  }

  function StopLimit(settings: Settings): int {
    Quotient(Wrapped(settings.nodeLimit * settings.stopPercent), 100)
  }

  function ByteLimit(settings: Settings, owner: Owner): int {
    if owner in settings.owners && settings.owners[owner].byteLimit.Some?
    then settings.owners[owner].byteLimit.value
    else if owner.UserOwner? then settings.userQuota
    else settings.groupQuota
  }

  function DailyLimit(settings: Settings, owner: Owner): int {
    if owner in settings.owners && settings.owners[owner].dailyLimit.Some?
    then settings.owners[owner].dailyLimit.value
    else if owner.UserOwner? then settings.userDaily
    else settings.groupDaily
  }

  function StartOfDay(now: Time): Time {
    now - now % DAY
  }

  predicate NodeRouted(db: Database, file: Id) {
    exists k :: k in db.fileTargets && k.file == file && db.fileTargets[k].route.Node?
  }

  // Files that still count: not expired, not past their date, and routed through the node.
  function LiveFiles(db: Database, now: Time): set<Id> {
    set f | f in db.files && db.files[f].transfer in db.tasks
      && !db.files[f].status.FileExpired? && db.files[f].expiresAt > now && NodeRouted(db, f)
  }

  predicate OwnedBy(db: Database, owner: Owner, file: Id)
    requires file in db.files && db.files[file].transfer in db.tasks
  {
    var task := db.tasks[db.files[file].transfer];
    if owner.UserOwner? then task.senderUser == owner.id else task.group == owner.id
  }

  function OwnedFiles(db: Database, owner: Owner, now: Time): set<Id> {
    set f | f in LiveFiles(db, now) && OwnedBy(db, owner, f)
  }

  function TodaysFiles(db: Database, owner: Owner, now: Time): set<Id> {
    set f | f in OwnedFiles(db, owner, now)
      && db.tasks[db.files[f].transfer].createdAt >= StartOfDay(now)
  }

  function SizeIn(files: map<Id, FileRow>): Id -> int {
    f => if f in files then files[f].size else 0
  }

  ghost function NodeUsage(db: Database, now: Time): int {
    Sum(LiveFiles(db, now), SizeIn(db.files))
  }

  ghost function Usage(db: Database, owner: Owner, now: Time): int {
    Sum(OwnedFiles(db, owner, now), SizeIn(db.files))
  }

  ghost function DailyUsage(db: Database, owner: Owner, now: Time): int {
    Sum(TodaysFiles(db, owner, now), SizeIn(db.files))
  }

  // The distinct files of a request that some device receives through the node.
  function NodeFiles(prepared: Prepared): set<nat> {
    set row | row in prepared.fileTargets && row.route.Node? :: row.fileIndex
  }

  function SizeAt(prepared: Prepared): nat -> int {
    (i: nat) => if i < |prepared.files| then prepared.files[i].size else 0
  }

  ghost function RequestedBytes(prepared: Prepared): int {
    Sum(NodeFiles(prepared), SizeAt(prepared))
  }

  ghost predicate OwnerAdmits(settings: Settings, db: Database, owner: Owner, requested: int, now: Time) {
    && !Exceeds(Usage(db, owner, now), requested, ByteLimit(settings, owner))
    && !Exceeds(DailyUsage(db, owner, now), requested, DailyLimit(settings, owner))
  }

  // The request passes every quota; a request with no node file is not measured at all.
  ghost predicate Admits(settings: Settings, db: Database, user: Id, group: string, prepared: Prepared) {
    NodeFiles(prepared) == {} || (
      var requested := RequestedBytes(prepared);
      && (forall i :: i in NodeFiles(prepared) ==> SizeAt(prepared)(i) <= settings.singleFileLimit)
      && requested <= INT64_MAX
      && OwnerAdmits(settings, db, UserOwner(user), requested, prepared.createdAt)
      && !Exceeds(NodeUsage(db, prepared.createdAt), requested, StopLimit(settings))
      && (group != "" ==> OwnerAdmits(settings, db, GroupOwner(group), requested, prepared.createdAt)))
  }

  ghost predicate Measurable(settings: Settings, prepared: Prepared) {
    && RequestedBytes(prepared) <= INT64_MAX
    && forall i :: i in NodeFiles(prepared) ==> SizeAt(prepared)(i) <= settings.singleFileLimit
  }

  // The error of a refused request: the first limit exceeded, in the order they are compared. The
  // files are measured in no particular order, so either of their two errors may come first.
  ghost predicate RefusedWith(
    settings: Settings, db: Database, user: Id, group: string, prepared: Prepared, error: Error) {
    var requested, now := RequestedBytes(prepared), prepared.createdAt;
    if !Measurable(settings, prepared) then
      || (error == FileTooLarge
          && exists i :: i in NodeFiles(prepared) && SizeAt(prepared)(i) > settings.singleFileLimit)
      || (error == QuotaExceeded && requested > INT64_MAX)
    else if !OwnerAdmits(settings, db, UserOwner(user), requested, now) then error == QuotaExceeded
    else if Exceeds(NodeUsage(db, now), requested, StopLimit(settings)) then error == StorageFull
    else group != "" && !OwnerAdmits(settings, db, GroupOwner(group), requested, now) && error == QuotaExceeded
  }

  lemma LiveFilesExist(db: Database, now: Time)
    ensures forall f :: f in LiveFiles(db, now) ==> f in db.files && db.files[f].transfer in db.tasks
  {
  }

  // On the values the code passes, the overflow-free comparison is the plain one and no
  // intermediate result leaves the 64-bit range.
  lemma ExceedsIsPlainComparison(current: int, requested: int, limit: int)
    requires current >= 0 && requested >= 0
    requires Int64(current) && Int64(requested) && Int64(limit)
    ensures Exceeds(current, requested, limit) <==> current + requested > limit
    ensures limit >= 0 && requested <= limit ==> Int64(limit - requested)
  {
  }

  lemma StopLimitWithoutOverflow(settings: Settings)
    requires 0 <= settings.nodeLimit * settings.stopPercent <= INT64_MAX
    ensures StopLimit(settings) == settings.nodeLimit * settings.stopPercent / 100
  {
  }
}
