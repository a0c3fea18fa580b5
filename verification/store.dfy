/**
 The store itself: one table per field, one method per transaction. Every method is proved to leave
 the tables as the transaction function of the same name says, rollbacks included.
 */
module Store {
  import opened Numbers
  import opened Wrappers
  import opened Domain
  import opened Requests
  import opened Tables
  import opened SetSum
  import opened Accounting
  import opened Transactions
  import opened Runs
  import opened DueFiles

  class TransferStore {
    const node: Node
    var tasks: map<Id, Task>
    var targets: map<TargetKey, Target>
    var executions: map<TargetKey, seq<Execution>>
    var records: map<RecordKey, Record>
    var files: map<Id, FileRow>
    var fileTargets: map<FileKey, FileTarget>

    function Snapshot(): Database
      reads this
    {
      Database(tasks, targets, executions, records, files, fileTargets)
    }

    constructor (node: Node)
      ensures this.node == node && Snapshot() == EMPTY
    {
      this.node := node;
      tasks, targets, executions, records, files, fileTargets := map[], map[], map[], map[], map[], map[];
    }

    method Rollback(saved: Database)
      modifies this
      ensures Snapshot() == saved
    {
      tasks, targets, executions := saved.tasks, saved.targets, saved.executions;
      records, files, fileTargets := saved.records, saved.files, saved.fileTargets;
    }

    // ---- create ----

    // The three sums of the usage query, in one pass over the files.
    method MeasureUsage(owner: Owner, now: Time) returns (usage: int, nodeUsage: int, daily: int)
      ensures usage == Usage(Snapshot(), owner, now)
      ensures nodeUsage == NodeUsage(Snapshot(), now)
      ensures daily == DailyUsage(Snapshot(), owner, now)
    {
      hide LiveFiles, OwnedBy, StartOfDay;
      var db := Snapshot();
      LiveFilesExist(db, now);
      var rest := LiveFiles(db, now);
      ghost var seen: set<Id> := {};
      usage, nodeUsage, daily := 0, 0, 0;
      assert OwnedFiles(db, owner, now) * {} == {} && TodaysFiles(db, owner, now) * {} == {};
      while rest != {}
        invariant seen + rest == LiveFiles(db, now) && seen !! rest
        invariant nodeUsage == Sum(seen, SizeIn(db.files))
        invariant usage == Sum(OwnedFiles(db, owner, now) * seen, SizeIn(db.files))
        invariant daily == Sum(TodaysFiles(db, owner, now) * seen, SizeIn(db.files))
        decreases rest
      {
        var f :| f in rest;
        rest := rest - {f};
        var size := db.files[f].size;
        nodeUsage := nodeUsage + size;
        SumAdd(seen, SizeIn(db.files), f);
        SumOfMore(OwnedFiles(db, owner, now), seen, f, SizeIn(db.files));
        SumOfMore(TodaysFiles(db, owner, now), seen, f, SizeIn(db.files));
        if OwnedBy(db, owner, f) {
          usage := usage + size;
          if db.tasks[db.files[f].transfer].createdAt >= StartOfDay(now) {
            daily := daily + size;
          }
        }
        seen := seen + {f};
      }
      assert seen == LiveFiles(db, now);
      assert OwnedFiles(db, owner, now) * seen == OwnedFiles(db, owner, now);
      assert TodaysFiles(db, owner, now) * seen == TodaysFiles(db, owner, now);
    }

    // The size loop walks the distinct node files in no particular order.
    method MeasureRequest(prepared: Prepared) returns (verdict: Option<Error>, requested: int)
      requires forall i :: i in NodeFiles(prepared) ==> i < |prepared.files|
      requires forall f :: f in prepared.files ==> f.size >= 0
      ensures verdict.None? ==> requested == RequestedBytes(prepared)
      ensures verdict.None? <==>
        RequestedBytes(prepared) <= INT64_MAX
        && forall i :: i in NodeFiles(prepared) ==> SizeAt(prepared)(i) <= node.settings.singleFileLimit
      ensures verdict == Some(FileTooLarge) ==>
        exists i :: i in NodeFiles(prepared) && SizeAt(prepared)(i) > node.settings.singleFileLimit
      ensures verdict == Some(QuotaExceeded) ==> RequestedBytes(prepared) > INT64_MAX
      ensures verdict in {None, Some(FileTooLarge), Some(QuotaExceeded)}
    {
      var nodes := NodeFiles(prepared);
      var rest := nodes;
      ghost var seen: set<nat> := {};
      requested := 0;
      while rest != {}
        invariant seen + rest == nodes && seen !! rest
        invariant requested == Sum(seen, SizeAt(prepared)) && requested <= INT64_MAX
        invariant forall i :: i in seen ==> SizeAt(prepared)(i) <= node.settings.singleFileLimit
        decreases rest
      {
        var i :| i in rest;
        var size := prepared.files[i].size;
        if size > node.settings.singleFileLimit {
          return Some(FileTooLarge), requested;
        }
        SumAdd(seen, SizeAt(prepared), i);
        if requested > INT64_MAX - size {
          SumSubset(seen + {i}, nodes, SizeAt(prepared));
          return Some(QuotaExceeded), requested;
        }
        requested := requested + size;
        rest, seen := rest - {i}, seen + {i};
      }
      assert seen == nodes;
      return None, requested;
    }

    method EnforceTransferQuotas(user: Id, group: string, prepared: Prepared) returns (verdict: Option<Error>)
      requires forall i :: i in NodeFiles(prepared) ==> i < |prepared.files|
      requires forall f :: f in prepared.files ==> f.size >= 0
      ensures verdict.None? <==> Admits(node.settings, Snapshot(), user, group, prepared)
      ensures verdict.Some? ==> RefusedWith(node.settings, Snapshot(), user, group, prepared, verdict.value)
    {
      hide Exceeds, Usage, DailyUsage, NodeUsage, RequestedBytes, StopLimit, ByteLimit, DailyLimit;
      if NodeFiles(prepared) == {} {
        return None;
      }
      var settings, now := node.settings, prepared.createdAt;
      var requested;
      verdict, requested := MeasureRequest(prepared);
      if verdict.Some? {
        return;
      }
      var owner := UserOwner(user);
      var usage, nodeUsage, daily := MeasureUsage(owner, now);
      if Exceeds(usage, requested, ByteLimit(settings, owner)) || Exceeds(daily, requested, DailyLimit(settings,
          owner)) {
        return Some(QuotaExceeded);
      }
      if Exceeds(nodeUsage, requested, StopLimit(settings)) {
        return Some(StorageFull);
      }
      if group != "" {
        owner := GroupOwner(group);
        var groupUsage, _, groupDaily := MeasureUsage(owner, now);
        if Exceeds(groupUsage, requested, ByteLimit(settings, owner))
           || Exceeds(groupDaily, requested, DailyLimit(settings, owner)) {
          return Some(QuotaExceeded);
        }
      }
      return None;
    }

    // Inserts the target and first execution of every device; a second row for a device violates
    // the unique index.
    method InsertTargets(transfer: Id, rows: seq<PreparedTarget>) returns (inserted: bool)
      requires forall k :: k in targets ==> k.transfer != transfer
      modifies this`targets, this`executions
      ensures inserted <==> forall i, j :: 0 <= i < j < |rows| ==> rows[i].device != rows[j].device
      ensures inserted ==> targets == old(targets) + TargetInserts(transfer, rows)
      ensures inserted ==> executions == old(executions) + ExecutionInserts(transfer, rows)
    {
      hide NewTarget, TargetInserts, ExecutionInserts;
      TargetInsertsNone(transfer);
      for n := 0 to |rows|
        invariant forall i, j :: 0 <= i < j < n ==> rows[i].device != rows[j].device
        invariant targets == old(targets) + TargetInserts(transfer, rows[..n])
        invariant executions == old(executions) + ExecutionInserts(transfer, rows[..n])
        invariant forall i :: 0 <= i < n ==> TargetKey(transfer, rows[i].device) in targets
        invariant forall k :: k in targets && k.transfer == transfer ==>
          exists i :: 0 <= i < n && rows[i].device == k.device
      {
        TargetInsertsNext(transfer, rows, n);
        var k := TargetKey(transfer, rows[n].device);
        if k in targets {
          return false;
        }
        UpdateUnion(old(targets), TargetInserts(transfer, rows[..n]), k, NewTarget(rows[n]));
        UpdateUnion(old(executions), ExecutionInserts(transfer, rows[..n]), k, [Execution(1, rows[n].status, None)]);
        targets := targets[k := NewTarget(rows[n])];
        executions := executions[k := [Execution(1, rows[n].status, None)]];
        assert rows[n].device == k.device;
      }
      assert rows[..|rows|] == rows;
      return true;
    }

    method InsertFiles(transfer: Id, added: seq<File>, ids: seq<Id>, expiresAt: Time) returns (inserted: bool)
      requires |ids| == |added|
      modifies this`files
      ensures inserted <==>
        (forall i, j :: 0 <= i < j < |ids| ==> ids[i] != ids[j]) && forall i :: 0 <= i < |ids| ==> ids[i] !in old(files)
      ensures inserted ==> files == old(files) + FileInserts(transfer, added, ids, expiresAt)
    {
      hide FileInserts, NewFile;
      FileInsertsNone(transfer, expiresAt);
      assert ids[..0] == [] && added[..0] == [];
      for n := 0 to |ids|
        invariant forall i, j :: 0 <= i < j < n ==> ids[i] != ids[j]
        invariant forall i :: 0 <= i < n ==> ids[i] !in old(files)
        invariant files == old(files) + FileInserts(transfer, added[..n], ids[..n], expiresAt)
        invariant forall f :: f in files <==> f in old(files) || f in ids[..n]
      {
        FileInsertsNext(transfer, added, ids, expiresAt, n);
        assert ids[..n + 1] == ids[..n] + [ids[n]];
        if ids[n] in files {
          return false;
        }
        UpdateUnion(old(files), FileInserts(transfer, added[..n], ids[..n], expiresAt), ids[n],
                    NewFile(ids[n], transfer, added[n], expiresAt));
        files := files[ids[n] := NewFile(ids[n], transfer, added[n], expiresAt)];
      }
      assert ids[..|ids|] == ids && added[..|added|] == added;
      return true;
    }

    method InsertFileTargets(ids: seq<Id>, rows: seq<PreparedFileTarget>) returns (inserted: bool)
      requires forall row :: row in rows ==> row.fileIndex < |ids|
      requires forall i, j :: 0 <= i < j < |ids| ==> ids[i] != ids[j]
      requires forall k :: k in fileTargets ==> k.file !in ids
      modifies this`fileTargets
      ensures inserted <==> forall i, j :: 0 <= i < j < |rows| ==> !SameRow(rows[i], rows[j])
      ensures inserted ==> fileTargets == old(fileTargets) + FileTargetInserts(ids, rows)
    {
      hide FileTargetInserts, Placed, SameRow;
      FileTargetInsertsNone(ids);
      NonePlaced(ids, rows);
      for n := 0 to |rows|
        invariant forall i, j :: 0 <= i < j < n ==> !SameRow(rows[i], rows[j])
        invariant fileTargets == old(fileTargets) + FileTargetInserts(ids, rows[..n])
        invariant forall k :: k in fileTargets <==> k in old(fileTargets) || Placed(ids, rows, n, k)
      {
        FileTargetInsertsNext(ids, rows, n);
        PlacedNext(ids, rows, n);
        var row := rows[n];
        var k := FileKey(ids[row.fileIndex], row.device);
        if k in fileTargets {
          return false;
        }
        fileTargets := fileTargets[k := FileTarget(row.route, row.status)];
      }
      assert rows[..|rows|] == rows;
      return true;
    }

    method InsertTransfer(session: Session, key: string, fingerprint: Bytes, group: string,
                          prepared: Prepared, transfer: Id, ids: seq<Id>) returns (reply: Reply)
      requires session.device.Some? && Consistent(Snapshot())
      requires |ids| == |prepared.files|
      requires forall row :: row in prepared.fileTargets ==> row.fileIndex < |prepared.files|
      requires forall f :: f in prepared.files ==> f.size >= 0
      modifies this
      ensures Snapshot()
        == CreateTransfer(node, old(Snapshot()), session, key, fingerprint, group, prepared, transfer, ids)
      ensures TransferAnswers(
        node, old(Snapshot()), session, key, fingerprint, group, prepared, transfer, ids, reply)
    {
      hide Admits, RefusedWith, TargetInserts, ExecutionInserts, FileInserts, FileTargetInserts, GetTransfer;
      var device := session.device.value;
      var saved := Snapshot();
      if key != "" {
        if t :| t in tasks && tasks[t].senderDevice == device && tasks[t].key == key {
          assert IsOriginal(saved, device, key, t);
          return if tasks[t].fingerprint != fingerprint then Err(IdempotencyConflict)
                 else GetTransfer(Snapshot(), session, t);
        }
      }
      NodeFilesInFileTargets(prepared);
      var verdict := EnforceTransferQuotas(session.user, group, prepared);
      if verdict.Some? {
        return Err(verdict.value);
      }
      if transfer in tasks {
        return Err(Conflict);
      }
      tasks := tasks[transfer := NewTask(session, key, fingerprint, group, prepared)];
      var inserted := InsertFiles(transfer, prepared.files, ids, prepared.expiresAt);
      if inserted {
        inserted := InsertTargets(transfer, prepared.targets);
      }
      if inserted {
        inserted := InsertFileTargets(ids, prepared.fileTargets);
      }
      if !inserted {
        Rollback(saved);
        return Err(Conflict);
      }
      return GetTransfer(Snapshot(), session, transfer);
    }

    // Service.Create: validate, prepare the rows, insert them.
    method CreateRequest(session: Session, key: string, request: Request, devices: seq<Id>,
                         transfer: Id, ids: seq<Id>, now: Time) returns (reply: Reply)
      requires Consistent(Snapshot()) && |ids| == |request.files|
      modifies this
      ensures Snapshot() == Create(node, old(Snapshot()), session, key, request, devices, transfer, ids, now)
      ensures CreateAnswers(
        node, old(Snapshot()), session, key, request, devices, transfer, ids, now, reply)
    {
      if session.device.None? {
        return Err(Forbidden);
      }
      if !ValidRequest(request) || !Deliverable(request, devices) {
        return Err(Invalid);
      }
      var prepared := PrepareRows(request, devices, now);
      FileTargetsAreFullProduct(request, devices);
      reply := InsertTransfer(session, key, node.requestHash(request), request.group, prepared, transfer, ids);
    }

    // ---- progress ----

    method CompleteIdempotencyRecord(rk: RecordKey, hash: Bytes, view: View) returns (completed: bool)
      modifies this`records
      ensures match CompleteRecord(old(Snapshot()), rk, hash, view)
        case Ok(db) => completed && Snapshot() == db
        case Err(_) => !completed && Snapshot() == old(Snapshot())
    {
      completed := rk in records && records[rk].hash == hash && records[rk].state.Processing?;
      if completed {
        records := records[rk := Record(hash, Completed, Some(view))];
      }
    }

    method ApplyProgress(session: Session, transfer: Id, p: Progress, now: Time) returns (reply: Reply)
      requires session.device.Some?
      modifies this
      ensures (Snapshot(), reply) == ApplyReport(old(Snapshot()), session, transfer, p, now)
    {
      if !MayReport(Snapshot(), session.device.value, transfer, p.device) {
        return Err(Forbidden);
      }
      var k := TargetKey(transfer, p.device);
      var current := targets[k].status;
      if Repeats(current, p.status) {
        return GetTransfer(Snapshot(), session, transfer);
      }
      if Refuses(current, p.status) {
        return Err(Conflict);
      }
      targets := targets[k := Reported(targets[k], p, now)];
      executions := executions[k := WithLatest(executions[k], p.status)];
      var task := tasks[transfer];
      var status := task.status;
      if AllTargetsIn(targets, transfer, {Read}) {
        status := Read;
      } else if AllTargetsIn(targets, transfer, {Delivered, Read}) {
        status := Delivered;
      } else if AllTargetsIn(targets, transfer, {Failed, Cancelled, Expired}) {
        status := Failed;
      } else if p.status !in {Delivered, Read, Failed} {
        status := p.status;
      }
      tasks := tasks[transfer := task.(status := status)];
      return GetTransfer(Snapshot(), session, transfer);
    }

    method ReportTransferProgress(session: Session, transfer: Id, p: Progress, now: Time) returns (reply: Reply)
      modifies this
      ensures (Snapshot(), reply) == Report(node, old(Snapshot()), session, transfer, p, now)
    {
      hide ApplyReport;
      if !ValidProgress(session, transfer, p) {
        return Err(Invalid);
      }
      var saved := Snapshot();
      var rk := KeyOf(session, transfer, p);
      var hash := node.progressHash(Body(p));
      if p.key != "" {
        if rk in records {
          var record := records[rk];
          if record.hash != hash || !record.state.Completed? || record.response.None? {
            return Err(IdempotencyConflict);
          }
          return Ok(record.response.value);
        }
        records := records[rk := Record(hash, Processing, None)];
      }
      reply := ApplyProgress(session, transfer, p, now);
      if reply.Err? {
        Rollback(saved);
        return;
      }
      if p.key != "" {
        var completed := CompleteIdempotencyRecord(rk, hash, reply.value);
        if !completed {
          Rollback(saved);
          return Err(IdempotencyConflict);
        }
      }
    }

    // ---- retry, cancel, read, hide ----

    method RetryTransferTarget(session: Session, transfer: Id, device: Id, key: string, now: Time)
      returns (reply: Reply)
      modifies this
      ensures Snapshot() == Retry(old(Snapshot()), session, transfer, device, key, now)
      ensures var db, k := old(Snapshot()), TargetKey(transfer, device);
        reply ==
          if transfer == "" || device == "" || key == "" || session.device.None? then Err(Invalid)
          else if transfer !in db.tasks || db.tasks[transfer].senderUser != session.user
                  || k !in db.targets || k !in db.executions then Err(Forbidden)
          else if exists i :: 0 <= i < |db.executions[k]| && db.executions[k][i].key == Some(key)
          then GetTransfer(db, session, transfer)
          else if db.targets[k].status in {Failed, Paused, SourceFileMissing, SourceFileChanged}
          then GetTransfer(Snapshot(), session, transfer) else Err(Conflict)
    {
      if transfer == "" || device == "" || key == "" || session.device.None? {
        return Err(Invalid);
      }
      var k := TargetKey(transfer, device);
      if k !in targets || k !in executions || transfer !in tasks || tasks[transfer].senderUser != session.user {
        return Err(Forbidden);
      }
      var rows := executions[k];
      if KeyUsed(rows, key) {
        return GetTransfer(Snapshot(), session, transfer);
      }
      if !Retryable(targets[k].status) {
        return Err(Conflict);
      }
      executions := executions[k := rows + [Execution(MaxAttempt(rows) + 1, CheckingRoute, Some(key))]];
      targets := targets[k := Retried(targets[k], now)];
      tasks := tasks[transfer := tasks[transfer].(status := CheckingRoute)];
      return GetTransfer(Snapshot(), session, transfer);
    }

    method CancelTransfer(session: Session, transfer: Id, now: Time) returns (reply: Reply)
      modifies this
      ensures Snapshot() == Cancel(old(Snapshot()), session, transfer, now)
      ensures var db := old(Snapshot());
        reply ==
          if transfer in db.tasks && db.tasks[transfer].senderUser == session.user
             && db.tasks[transfer].status !in {Delivered, Read, Failed, Cancelled, Expired}
          then GetTransfer(Snapshot(), session, transfer) else Err(Forbidden)
    {
      if !CancelAccepted(Snapshot(), session, transfer) {
        return Err(Forbidden);
      }
      tasks := tasks[transfer := tasks[transfer].(status := Cancelled)];
      targets := CancelledTargets(targets, transfer, now);
      fileTargets := CancelledFileTargets(files, fileTargets, transfer);
      return GetTransfer(Snapshot(), session, transfer);
    }

    method MarkRead(session: Session, transfer: Id, now: Time) returns (reply: Reply)
      modifies this
      ensures Snapshot() == ReadTransfer(old(Snapshot()), session, transfer, now)
      ensures var db := old(Snapshot());
        reply ==
          if session.device.None? then Err(Forbidden)
          else
            var k := TargetKey(transfer, session.device.value);
            if k !in db.targets || db.targets[k].status !in {Delivered, Read} then Err(Forbidden)
            else if db.targets[k].status == Delivered && (k !in db.executions || db.executions[k] == [])
            then Err(NotFound) else GetTransfer(Snapshot(), session, transfer)
    {
      if session.device.None? {
        return Err(Forbidden);
      }
      var k := TargetKey(transfer, session.device.value);
      if k !in targets {
        return Err(Forbidden);
      }
      if !targets[k].status.Delivered? {
        if !targets[k].status.Read? {
          return Err(Forbidden);
        }
        return GetTransfer(Snapshot(), session, transfer);
      }
      if k !in executions || executions[k] == [] {
        return Err(NotFound);
      }
      targets := targets[k := targets[k].(status := Read, readAt := Some(now))];
      executions := executions[k := WithLatest(executions[k], Read)];
      return GetTransfer(Snapshot(), session, transfer);
    }

    // Hiding again succeeds without a change, even for a user who could not hide it now.
    method HideTransfer(session: Session, transfer: Id) returns (ok: bool)
      modifies this`tasks
      ensures Snapshot() == Hide(node, old(Snapshot()), session, transfer)
      ensures ok <==> transfer in tasks && session.user in tasks[transfer].hiddenFor
    {
      if MayHide(node, Snapshot(), session, transfer) {
        var task := tasks[transfer];
        tasks := tasks[transfer := task.(hiddenFor := task.hiddenFor + {session.user})];
      }
      ok := transfer in tasks && session.user in tasks[transfer].hiddenFor;
    }

    // ---- files ----

    method CompleteUpload(session: Session, file: Id, path: string) returns (accepted: bool)
      modifies this
      ensures Snapshot() == CompleteFile(old(Snapshot()), session, file, path)
      ensures var db := old(Snapshot());
        accepted <==>
          file in db.files && db.files[file].status == Uploading && db.files[file].transfer in db.tasks
          && session.user == db.tasks[db.files[file].transfer].senderUser
          && session.device == Some(db.tasks[db.files[file].transfer].senderDevice)
    {
      accepted := CompletionAccepted(Snapshot(), session, file);
      if accepted {
        var row := files[file];
        files := files[file := row.(status := OnNode, storagePath := path)];
        fileTargets := map k | k in fileTargets ::
          if k.file == file && fileTargets[k].route.Node?
          then fileTargets[k].(status := AvailableOnNode) else fileTargets[k];
        targets := AvailableTargets(targets, row.transfer);
      }
    }

    // The scan returns the expirable files, oldest date first, at most `limit` of them.
    method ScanExpired(now: Time, limit: nat) returns (picked: seq<Id>)
      ensures |picked| <= limit
      ensures forall f :: f in picked ==> f in files && Expirable(Snapshot(), f, now)
      ensures OldestFirst(files, picked)
      ensures forall f, g :: f in picked && g !in picked && g in files && Expirable(Snapshot(), g, now) ==>
        files[f].expiresAt <= files[g].expiresAt
      ensures |picked| < limit ==> forall f :: Expirable(Snapshot(), f, now) ==> f in picked
      ensures forall f :: f in picked ==> Overdue(Snapshot(), f, now) || TakenADayAgo(Snapshot(), f, now)
      ensures |picked| < limit ==>
        forall f :: Overdue(Snapshot(), f, now) || TakenADayAgo(Snapshot(), f, now) ==> f in picked
    {
      hide Overdue, TakenADayAgo, Expirable;
      DueExists(Snapshot(), now);
      picked := [];
      var due := set f | f in files && Expirable(Snapshot(), f, now);
      var rest := due;
      ghost var db := Snapshot();
      while rest != {} && |picked| < limit
        invariant rest <= due && |picked| <= limit
        invariant forall f :: f in due <==> f in rest || f in picked
        invariant forall f :: f in picked ==> f in due && f !in rest
        invariant OldestFirst(files, picked)
        invariant forall f, g :: f in picked && g in rest ==> files[f].expiresAt <= files[g].expiresAt
        decreases rest
      {
        SomeFileIsOldest(files, rest);
        var f :| f in rest && forall g :: g in rest ==> files[f].expiresAt <= files[g].expiresAt;
        picked := picked + [f];
        rest := rest - {f};
      }
      ScanMeans(db, picked, now);
    }

    method ExpireFile(file: Id, now: Time) returns (found: bool)
      modifies this
      ensures Snapshot() == MarkFileExpired(old(Snapshot()), file, now)
      ensures found == (file in old(files) && !old(files)[file].status.FileExpired?)
    {
      found := file in files && !files[file].status.FileExpired?;
      if found {
        var transfer := files[file].transfer;
        files := files[file := files[file].(status := FileExpired, storagePath := "")];
        fileTargets := map k | k in fileTargets ::
          if k.file == file then fileTargets[k].(status := Expired) else fileTargets[k];
        targets := ExpiredTargets(files, fileTargets, targets, transfer, now);
        if transfer in tasks && AllTargetsIn(targets, transfer, {Expired}) {
          tasks := tasks[transfer := tasks[transfer].(status := Expired)];
        }
      }
    }
  }

  // Distinct files in the order of their dates.
  ghost predicate OldestFirst(files: map<Id, FileRow>, picked: seq<Id>) {
    && (forall i :: 0 <= i < |picked| ==> picked[i] in files)
    && (forall i, j :: 0 <= i < j < |picked| ==>
      picked[i] != picked[j] && files[picked[i]].expiresAt <= files[picked[j]].expiresAt)
  }

  lemma DueExists(db: Database, now: Time)
    ensures forall f :: Expirable(db, f, now) ==> f in db.files
  {
  }

  lemma ScanMeans(db: Database, picked: seq<Id>, now: Time)
    requires forall f :: f in picked ==> Expirable(db, f, now)
    ensures forall f :: f in picked ==> Overdue(db, f, now) || TakenADayAgo(db, f, now)
    ensures (forall f :: Expirable(db, f, now) ==> f in picked) ==>
      forall f :: Overdue(db, f, now) || TakenADayAgo(db, f, now) ==> f in picked
  {
    hide Expirable, Overdue, TakenADayAgo;
    forall f
      ensures Expirable(db, f, now) <==> Overdue(db, f, now) || TakenADayAgo(db, f, now)
    {
      ExpirableIff(db, f, now);
    }
  }

  lemma {:induction false} SomeFileIsOldest(files: map<Id, FileRow>, due: set<Id>)
    requires due != {} && forall f :: f in due ==> f in files
    ensures exists f :: f in due && forall g :: g in due ==> files[f].expiresAt <= files[g].expiresAt
    decreases |due|
  {
    var f :| f in due;
    if due != {f} {
      SomeFileIsOldest(files, due - {f});
      var g :| g in due - {f} && forall h :: h in due - {f} ==> files[g].expiresAt <= files[h].expiresAt;
      var oldest := if files[f].expiresAt <= files[g].expiresAt then f else g;
      assert oldest in due && forall h :: h in due ==> files[oldest].expiresAt <= files[h].expiresAt;
    }
  }

  lemma SumOfMore(all: set<Id>, seen: set<Id>, f: Id, size: Id -> int)
    requires f !in seen
    ensures Sum(all * (seen + {f}), size) == Sum(all * seen, size) + (if f in all then size(f) else 0)
  {
    if f in all {
      SumAdd(all * seen, size, f);
      assert all * (seen + {f}) == all * seen + {f};
    } else {
      assert all * (seen + {f}) == all * seen;
    }
  }

  lemma UpdateUnion<K, V>(base: map<K, V>, added: map<K, V>, k: K, v: V)
    ensures (base + added)[k := v] == base + added[k := v]
  {
  }

  lemma TargetInsertsNone(transfer: Id)
    ensures TargetInserts(transfer, []) == map[] && ExecutionInserts(transfer, []) == map[]
  {
  }

  lemma TargetInsertsNext(transfer: Id, rows: seq<PreparedTarget>, n: nat)
    requires n < |rows|
    ensures TargetInserts(transfer, rows[..n + 1])
      == TargetInserts(transfer, rows[..n])[TargetKey(transfer, rows[n].device) := NewTarget(rows[n])]
    ensures ExecutionInserts(transfer, rows[..n + 1])
      == ExecutionInserts(transfer, rows[..n])
         [TargetKey(transfer, rows[n].device) := [Execution(1, rows[n].status, None)]]
  {
    assert rows[..n + 1][..n] == rows[..n];
  }

  lemma FileInsertsNone(transfer: Id, expiresAt: Time)
    ensures FileInserts(transfer, [], [], expiresAt) == map[]
  {
  }

  lemma FileInsertsNext(transfer: Id, added: seq<File>, ids: seq<Id>, expiresAt: Time, n: nat)
    requires |ids| == |added| && n < |ids|
    ensures FileInserts(transfer, added[..n + 1], ids[..n + 1], expiresAt)
      == FileInserts(transfer, added[..n], ids[..n], expiresAt)
         [ids[n] := NewFile(ids[n], transfer, added[n], expiresAt)]
  {
    assert ids[..n + 1][..n] == ids[..n] && added[..n + 1][..n] == added[..n];
  }

  // The key is one of the first n rows'.
  ghost predicate Placed(ids: seq<Id>, rows: seq<PreparedFileTarget>, n: nat, k: FileKey)
    requires n <= |rows| && forall row :: row in rows ==> row.fileIndex < |ids|
  {
    exists i :: 0 <= i < n && FileKey(ids[rows[i].fileIndex], rows[i].device) == k
  }

  lemma NonePlaced(ids: seq<Id>, rows: seq<PreparedFileTarget>)
    requires forall row :: row in rows ==> row.fileIndex < |ids|
    ensures forall k :: !Placed(ids, rows, 0, k)
  {
  }

  lemma PlacedNext(ids: seq<Id>, rows: seq<PreparedFileTarget>, n: nat)
    requires n < |rows| && forall row :: row in rows ==> row.fileIndex < |ids|
    requires forall i, j :: 0 <= i < j < |ids| ==> ids[i] != ids[j]
    ensures var key := FileKey(ids[rows[n].fileIndex], rows[n].device);
      && (forall k :: Placed(ids, rows, n + 1, k) <==> Placed(ids, rows, n, k) || k == key)
      && (Placed(ids, rows, n, key) <==> exists i :: 0 <= i < n && SameRow(rows[i], rows[n]))
  {
    var key := FileKey(ids[rows[n].fileIndex], rows[n].device);
    forall k
      ensures Placed(ids, rows, n + 1, k) <==> Placed(ids, rows, n, k) || k == key
    {
    }
    if Placed(ids, rows, n, key) {
      var i :| 0 <= i < n && FileKey(ids[rows[i].fileIndex], rows[i].device) == key;
      assert SameRow(rows[i], rows[n]);
    }
  }

  lemma FileTargetInsertsNone(ids: seq<Id>)
    ensures FileTargetInserts(ids, []) == map[]
  {
  }

  lemma FileTargetInsertsNext(ids: seq<Id>, rows: seq<PreparedFileTarget>, n: nat)
    requires n < |rows| && forall row :: row in rows ==> row.fileIndex < |ids|
    ensures FileTargetInserts(ids, rows[..n + 1])
      == FileTargetInserts(ids, rows[..n])
         [FileKey(ids[rows[n].fileIndex], rows[n].device) := FileTarget(rows[n].route, rows[n].status)]
  {
    assert rows[..n + 1][..n] == rows[..n];
  }

  lemma NodeFilesInFileTargets(prepared: Prepared)
    requires forall row :: row in prepared.fileTargets ==> row.fileIndex < |prepared.files|
    ensures forall i :: i in NodeFiles(prepared) ==> i < |prepared.files|
  {
  }
}
