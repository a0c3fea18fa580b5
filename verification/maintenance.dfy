/**
 One pass of the cleaner: scan, delete what is on disk, mark. Here no other transaction runs in
 between; the window between scan and mark is the subject of module Cleanup.
 */
module Maintenance {
  import opened Domain
  import opened Requests
  import opened Tables
  import opened Accounting
  import opened Transactions
  import opened Runs
  import opened Store
  import opened DueFiles

  function Expiries(files: seq<Id>, now: Time): seq<Event> {
    seq(|files|, i requires 0 <= i < |files| => ExpireEvent(files[i], now))
  }

  // Marking one file leaves every other file's row, and makes no other file due for cleanup.
  lemma MarkLeavesOtherFiles(db: Database, file: Id, now: Time)
    ensures var next := MarkFileExpired(db, file, now);
      && next.files.Keys == db.files.Keys
      && (forall g :: g in db.files && g != file ==> next.files[g] == db.files[g])
      && (file in db.files ==> next.files[file].status.FileExpired?)
  {
  }

  lemma MarkKeepsReceivers(db: Database, file: Id, now: Time, other: Id)
    requires other in db.files && other != file && !db.files[other].status.FileExpired?
    ensures var next := MarkFileExpired(db, file, now);
      && next.files[other] == db.files[other]
      && NodeReceivers(next, other) == NodeReceivers(db, other)
      && (forall k :: k in NodeReceivers(db, other) ==> next.targets[k] == db.targets[k])
      && (NodeRouted(next, other) ==> NodeRouted(db, other))
  {
    var next := MarkFileExpired(db, file, now);
    assert next.targets.Keys == db.targets.Keys && next.fileTargets.Keys == db.fileTargets.Keys;
    forall k | k in NodeReceivers(db, other)
      ensures next.targets[k] == db.targets[k]
    {
      assert HasLiveFile(next.files, next.fileTargets, k.transfer, k.device) by {
        assert other in next.files && FileKey(other, k.device) in next.fileTargets;
      }
    }
  }

  lemma MarkMakesNothingDue(db: Database, file: Id, now: Time, other: Id)
    requires Expirable(MarkFileExpired(db, file, now), other, now)
    ensures other != file && Expirable(db, other, now)
  {
    MarkLeavesOtherFiles(db, file, now);
    hide MarkFileExpired;
    if other != file {
      MarkKeepsReceivers(db, file, now, other);
    }
  }

  lemma {:induction false} PassMakesNothingDue(node: Node, db: Database, files: seq<Id>, now: Time, other: Id)
    requires Expirable(Run(node, db, Expiries(files, now)), other, now)
    ensures other !in files && Expirable(db, other, now)
  {
    hide Expirable, MarkFileExpired;
    if files != [] {
      var n := |files| - 1;
      RunExpiry(node, db, files[..n], files[n], now);
      assert files == files[..n] + [files[n]];
      MarkMakesNothingDue(Run(node, db, Expiries(files[..n], now)), files[n], now, other);
      PassMakesNothingDue(node, db, files[..n], now, other);
    }
  }

  lemma RunExpiry(node: Node, db: Database, files: seq<Id>, file: Id, now: Time)
    ensures Run(node, db, Expiries(files + [file], now))
         == MarkFileExpired(Run(node, db, Expiries(files, now)), file, now)
  {
    hide MarkFileExpired;
    var events := Expiries(files + [file], now);
    assert events[..|events| - 1] == Expiries(files, now);
  }

  // A disk of stored paths: which lie under the storage root, and which refuse to be deleted.
  datatype Rules = Rules(inside: string -> bool, stuck: string -> bool)

  class Cleaner {
    const store: TransferStore
    const rules: Rules
    var disk: set<string>

    constructor (store: TransferStore, rules: Rules, disk: set<string>)
      ensures this.store == store && this.rules == rules && this.disk == disk
    {
      this.store, this.rules, this.disk := store, rules, disk;
    }

    // Delete the paths in order, up to the first that lies outside the root or cannot be deleted.
    method DeletePaths(paths: seq<string>) returns (ok: bool, ghost done: nat)
      modifies this
      ensures done <= |paths| && disk == old(disk) - Named(paths[..done])
      ensures forall p :: p in Named(paths[..done]) ==> rules.inside(p) && !(p in old(disk) && rules.stuck(p))
      ensures ok <==> done == |paths|
      ensures !ok ==>
        paths[done] != "" && (!rules.inside(paths[done]) || (paths[done] in disk && rules.stuck(paths[done])))
    {
      done := 0;
      for i := 0 to |paths|
        invariant done == i && disk == old(disk) - Named(paths[..i])
        invariant forall p :: p in Named(paths[..i]) ==> rules.inside(p) && !(p in old(disk) && rules.stuck(p))
      {
        NamedNext(paths, i);
        if paths[i] == "" {
          done := i + 1;
          continue;
        }
        if !rules.inside(paths[i]) {
          return false, i;
        }
        if paths[i] in disk {
          if rules.stuck(paths[i]) {
            return false, i;
          }
          disk := disk - {paths[i]};
        }
        done := i + 1;
      }
      return true, |paths|;
    }

    // One scanned file: its paths, then its mark.
    method CleanFile(file: Id, now: Time, chunks: seq<string>) returns (ok: bool)
      requires file in store.files && !store.files[file].status.FileExpired?
      modifies this, store
      ensures store.Snapshot() ==
        if ok then MarkFileExpired(old(store.Snapshot()), file, now) else old(store.Snapshot())
      ensures disk <= old(disk)
      ensures ok ==> disk == old(disk) - Named([old(store.files[file].storagePath)] + chunks)
      ensures forall p :: p in old(disk) && p !in disk ==>
        rules.inside(p) && p in Named([old(store.files[file].storagePath)] + chunks)
    {
      hide MarkFileExpired;
      var paths := [store.files[file].storagePath] + chunks;
      ghost var was, done := store.Snapshot(), 0;
      ok, done := DeletePaths(paths);
      assert forall p :: p in Named(paths[..done]) ==> p in Named(paths);
      assert store.Snapshot() == was;
      if ok {
        assert paths[..done] == paths;
        var found := store.ExpireFile(file, now);
        assert found;
      }
    }

    // What was scanned is marked in order up to the first failure. Every path of a marked file is gone,
    // its own and its chunks'; nothing is deleted but the paths of scanned files, inside the root; and
    // when neither a failure nor the limit ended the pass, nothing due for cleanup is left.
    method RunOnce(now: Time, limit: int, chunkPaths: Id -> seq<string>)
      returns (cleaned: nat, ok: bool, ghost picked: seq<Id>)
      modifies this, store
      ensures limit <= 0 ==> picked == [] && ok
      ensures cleaned <= |picked| && (limit > 0 ==> |picked| <= limit) && (ok ==> cleaned == |picked|)
      ensures forall f :: f in picked ==> f in old(store.files) && Expirable(old(store.Snapshot()), f, now)
      ensures store.Snapshot() == Run(store.node, old(store.Snapshot()), Expiries(picked[..cleaned], now))
      ensures disk <= old(disk)
      ensures forall i :: 0 <= i < cleaned ==> disk !! PathsOf(old(store.files), picked[i], chunkPaths)
      ensures forall p :: p in old(disk) && p !in disk ==>
        rules.inside(p)
        && exists i :: 0 <= i < |picked| && i <= cleaned && p in PathsOf(old(store.files), picked[i], chunkPaths)
      ensures ok && cleaned < limit ==> forall f :: !Expirable(store.Snapshot(), f, now)
      ensures forall f :: f in picked ==>
        Overdue(old(store.Snapshot()), f, now) || TakenADayAgo(old(store.Snapshot()), f, now)
      ensures ok && cleaned < limit ==> forall f :: TakenADayAgo(old(store.Snapshot()), f, now) ==> f in picked
      ensures ok && cleaned < limit ==> forall f :: !TakenADayAgo(store.Snapshot(), f, now)
      ensures ok && cleaned < limit ==>
        forall f :: f in store.files && store.files[f].expiresAt <= now ==> store.files[f].status == FileExpired
    {
      hide Expirable, MarkFileExpired, Run, PathsOf, Overdue, TakenADayAgo;
      picked, cleaned := [], 0;
      RunNothing(store.node, store.Snapshot(), now);
      if limit <= 0 {
        return 0, true, [];
      }
      var scanned := store.ScanExpired(now, limit);
      picked := scanned;
      ghost var before := store.Snapshot();
      StartIsDue(before, scanned, now);
      hide StillDue, OldestFirst;
      while cleaned < |scanned|
        invariant cleaned <= |scanned|
        invariant store.Snapshot() == Run(store.node, before, Expiries(scanned[..cleaned], now))
        invariant StillDue(before.files, store.files, scanned, cleaned)
        invariant disk <= old(disk)
        invariant forall i :: 0 <= i < cleaned ==> disk !! PathsOf(before.files, scanned[i], chunkPaths)
        invariant forall p :: p in old(disk) && p !in disk ==>
          rules.inside(p) && exists i :: 0 <= i < cleaned && p in PathsOf(before.files, scanned[i], chunkPaths)
      {
        var file := scanned[cleaned];
        ghost var was := store.Snapshot();
        SamePaths(before.files, store.files, scanned, cleaned, chunkPaths);
        var cleanedOne := CleanFile(file, now, chunkPaths(file));
        if !cleanedOne {
          return cleaned, false, picked;
        }
        RunExpiry(store.node, before, scanned[..cleaned], file, now);
        NextStillDue(before.files, was, scanned, cleaned, now);
        assert scanned[..cleaned + 1] == scanned[..cleaned] + [file];
        cleaned := cleaned + 1;
      }
      assert scanned[..cleaned] == scanned;
      if cleaned < limit {
        forall f | Expirable(store.Snapshot(), f, now)
          ensures false
        {
          PassMakesNothingDue(store.node, before, scanned, now, f);
        }
        NothingDueLeft(store.Snapshot(), now);
      }
      return cleaned, true, picked;
    }
  }

  lemma NothingDueLeft(db: Database, now: Time)
    requires forall f :: !Expirable(db, f, now)
    ensures forall f :: f in db.files && db.files[f].expiresAt <= now ==> db.files[f].status == FileExpired
    ensures forall f :: !TakenADayAgo(db, f, now)
  {
    hide Expirable, TakenADayAgo;
    forall f
      ensures !Overdue(db, f, now) && !TakenADayAgo(db, f, now)
    {
      ExpirableIff(db, f, now);
    }
    forall f | f in db.files && db.files[f].expiresAt <= now
      ensures db.files[f].status == FileExpired
    {
      assert !Overdue(db, f, now);
    }
  }

  function Named(paths: seq<string>): set<string> {
    set p | p in paths && p != ""
  }

  // The stored paths of a file: its own and its chunks'.
  function PathsOf(files: map<Id, FileRow>, file: Id, chunkPaths: Id -> seq<string>): set<string>
    requires file in files
  {
    Named([files[file].storagePath] + chunkPaths(file))
  }

  lemma NamedNext(paths: seq<string>, i: nat)
    requires i < |paths|
    ensures Named(paths[..i + 1]) == Named(paths[..i]) + (if paths[i] == "" then {} else {paths[i]})
  {
    assert paths[..i + 1] == paths[..i] + [paths[i]];
  }

  // The files still to be cleaned are as they were scanned.
  ghost predicate StillDue(before: map<Id, FileRow>, files: map<Id, FileRow>, scanned: seq<Id>, n: nat) {
    && (forall i, j :: 0 <= i < j < |scanned| ==> scanned[i] != scanned[j])
    && (forall i :: 0 <= i < |scanned| ==> scanned[i] in before)
    && (forall j :: n <= j < |scanned| ==>
      scanned[j] in files && files[scanned[j]] == before[scanned[j]] && !files[scanned[j]].status.FileExpired?)
  }

  lemma StartIsDue(db: Database, scanned: seq<Id>, now: Time)
    requires OldestFirst(db.files, scanned) && forall f :: f in scanned ==> f in db.files && Expirable(db, f, now)
    ensures StillDue(db.files, db.files, scanned, 0)
    ensures forall f :: f in scanned ==> f in db.files
  {
    ExpirableIsLive(db, now);
  }

  lemma SamePaths(
      before: map<Id, FileRow>, files: map<Id, FileRow>, scanned: seq<Id>, n: nat, chunkPaths: Id -> seq<string>)
    requires StillDue(before, files, scanned, n) && n < |scanned|
    ensures scanned[n] in files && !files[scanned[n]].status.FileExpired?
    ensures PathsOf(before, scanned[n], chunkPaths) == Named([files[scanned[n]].storagePath] + chunkPaths(scanned[n]))
  {
  }

  lemma NextStillDue(before: map<Id, FileRow>, db: Database, scanned: seq<Id>, n: nat, now: Time)
    requires StillDue(before, db.files, scanned, n) && n < |scanned|
    ensures StillDue(before, MarkFileExpired(db, scanned[n], now).files, scanned, n + 1)
  {
    MarkLeavesOtherFiles(db, scanned[n], now);
    hide MarkFileExpired;
  }

  lemma RunNothing(node: Node, db: Database, now: Time)
    ensures Run(node, db, Expiries([], now)) == db
  {
  }

  lemma ExpirableIsLive(db: Database, now: Time)
    ensures forall f :: Expirable(db, f, now) ==> f in db.files && !db.files[f].status.FileExpired?
  {
  }
}
