/**
 When a stored file may go: its date has passed, or everyone who gets it from the node has had it for a
 day.
 */
module DueFiles {
  import opened Wrappers
  import opened Domain
  import opened Requests
  import opened Tables
  import Accounting
  import opened Transactions

  predicate Overdue(db: Database, f: Id, now: Time) {
    f in db.files && db.files[f].status != FileExpired && db.files[f].expiresAt <= now
  }

  // The row says that this file reaches its device through the node.
  predicate FromNode(db: Database, f: Id, k: FileKey) {
    k in db.fileTargets && k.file == f && db.fileTargets[k].route == Route.Node
  }

  function TargetOf(db: Database, f: Id, k: FileKey): TargetKey
    requires f in db.files
  {
    TargetKey(db.files[f].transfer, k.device)
  }

  // The target has the transfer, and the time it got it, if there is one, lies 24 hours back.
  predicate HasHadIt(target: Target, now: Time) {
    && (target.status == Delivered || target.status == Read)
    && (target.completedAt.Some? ==> now - target.completedAt.value >= 24 * 60 * 60 * 1_000_000_000)
  }

  ghost predicate TakenADayAgo(db: Database, f: Id, now: Time) {
    && f in db.files && db.files[f].status == OnNode
    && (exists k :: FromNode(db, f, k))
    && (forall k :: FromNode(db, f, k) && TargetOf(db, f, k) in db.targets ==>
      HasHadIt(db.targets[TargetOf(db, f, k)], now))
    && exists k ::
      FromNode(db, f, k) && TargetOf(db, f, k) in db.targets && db.targets[TargetOf(db, f, k)].completedAt.Some?
  }

  lemma TakenIff(db: Database, f: Id, now: Time)
    requires f in db.files
    ensures DeliveredLongAgo(db, f, now) <==> TakenADayAgo(db, f, now)
  {
    var receivers := NodeReceivers(db, f);
    if Accounting.NodeRouted(db, f) {
      var k :| k in db.fileTargets && k.file == f && db.fileTargets[k].route.Node?;
      assert FromNode(db, f, k);
    }
    forall k: FileKey | FromNode(db, f, k) && TargetOf(db, f, k) in db.targets
      ensures TargetOf(db, f, k) in receivers
    {
      assert k == FileKey(f, k.device);
    }
    forall t | t in receivers
      ensures FromNode(db, f, FileKey(f, t.device)) && TargetOf(db, f, FileKey(f, t.device)) == t
    {
    }
  }

  // The scan's condition comes to these two.
  lemma ExpirableIff(db: Database, f: Id, now: Time)
    ensures Expirable(db, f, now) <==> Overdue(db, f, now) || TakenADayAgo(db, f, now)
  {
    if f in db.files {
      TakenIff(db, f, now);
    }
  }
}
