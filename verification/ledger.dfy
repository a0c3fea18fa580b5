/**
 A target's row is the account of what touched it: over whole runs, every field is what the last touch
 concerning it said, and the bytes are the most ever reported.
 */
module Ledger {
  import opened Wrappers
  import opened Domain
  import opened Requests
  import opened Tables
  import opened Transactions
  import opened Runs
  import opened Consistency
  import opened Effects
  import TargetHistory
  import Aggregate

  ghost function Account(touch: Option<Touch>): seq<Touch> {
    if touch.Some? then [touch.value] else []
  }

  // Everything that touches the target in the run, in order.
  ghost function Touches(node: Node, db: Database, events: seq<Event>, k: TargetKey): seq<Touch> {
    if events == [] then []
    else
      var init, last := events[..|events| - 1], events[|events| - 1];
      var at := Run(node, db, init);
      Touches(node, db, init, k)
      + Account(if Consistent(at) && k in at.targets then TouchOf(at, last, k) else None)
  }

  function LastWhere(touches: seq<Touch>, concerns: Touch -> bool): Option<Touch> {
    if touches == [] then None
    else if concerns(touches[|touches| - 1]) then Some(touches[|touches| - 1])
    else LastWhere(touches[..|touches| - 1], concerns)
  }

  predicate NamesRoute(touch: Touch) {
    touch.Told? && touch.report.route.Some?
  }

  predicate Any(touch: Touch) {
    true
  }

  // Ends the attempt, or starts it over.
  predicate ConcernsCompletion(touch: Touch) {
    match touch
    case Told(p, _) => p.status == Delivered || p.status == Read || p.status == Failed
    case WasRetried(_) => true
    case WasCancelled(_) => true
    case RanOut(_) => true
    case _ => false
  }

  predicate ConcernsReading(touch: Touch) {
    match touch
    case Told(p, _) => p.status == Read
    case WasRead(_) => true
    case WasRetried(_) => true
    case _ => false
  }

  predicate ConcernsError(touch: Touch) {
    touch.Told? || touch.WasRetried?
  }

  function StatusAfter(touch: Touch): Status {
    match touch
    case Told(p, _) => p.status
    case WasRead(_) => Read
    case WasRetried(_) => CheckingRoute
    case WasCancelled(_) => Cancelled
    case FileArrived => AvailableOnNode
    case RanOut(_) => Expired
  }

  // A retry clears the time, every other touch concerning it sets it.
  function TimeAfter(touch: Touch): Option<Time> {
    if touch.WasRetried? || touch.FileArrived? then None else Some(touch.at)
  }

  predicate TimesFollow(start: Target, touches: seq<Touch>, end: Target) {
    && end.completedAt == (match LastWhere(touches, ConcernsCompletion)
                           case Some(touch) => TimeAfter(touch)
                           case None => start.completedAt)
    && end.readAt == (match LastWhere(touches, ConcernsReading)
                      case Some(touch) => TimeAfter(touch)
                      case None => start.readAt)
  }

  predicate WordsFollow(start: Target, touches: seq<Touch>, end: Target) {
    && end.status == (match LastWhere(touches, Any)
                      case Some(touch) => StatusAfter(touch)
                      case None => start.status)
    && end.route == (match LastWhere(touches, NamesRoute)
                     case Some(touch) => if touch.Told? && touch.report.route.Some? then touch.report.route.value
                                         else start.route
                     case None => start.route)
    && end.errorCode == (match LastWhere(touches, ConcernsError)
                         case Some(touch) => if touch.Told? then touch.report.errorCode else ""
                         case None => start.errorCode)
  }

  // The bytes are the largest ever told, or those it started with.
  ghost predicate BytesAreTheMost(start: int, touches: seq<Touch>, bytes: int) {
    && start <= bytes
    && (forall i :: 0 <= i < |touches| && touches[i].Told? ==> touches[i].report.bytes <= bytes)
    && (bytes == start || exists i :: 0 <= i < |touches| && touches[i].Told? && touches[i].report.bytes == bytes)
  }

  lemma OneMoreTouch(start: Target, touches: seq<Touch>, before: Target, touch: Touch, after: Target)
    requires TimesFollow(start, touches, before) && WordsFollow(start, touches, before) && Moves(before, touch, after)
    ensures TimesFollow(start, touches + [touch], after) && WordsFollow(start, touches + [touch], after)
  {
    assert (touches + [touch])[..|touches|] == touches;
  }

  lemma OneMoreTelling(start: int, touches: seq<Touch>, before: Target, touch: Touch, after: Target)
    requires BytesAreTheMost(start, touches, before.bytes) && Moves(before, touch, after)
    ensures BytesAreTheMost(start, touches + [touch], after.bytes)
  {
    var next := touches + [touch];
    assert forall i :: 0 <= i < |touches| ==> next[i] == touches[i];
    assert next[|touches|] == touch;
    if before.bytes != start {
      var i :| 0 <= i < |touches| && touches[i].Told? && touches[i].report.bytes == before.bytes;
      assert next[i].report.bytes == before.bytes;
    }
  }

  // In every run of all transactions: status, route, times and error code of a target are what the last
  // touch concerning them left, whatever else ran.
  lemma {:induction false} RowFollowsItsTouches(node: Node, db: Database, events: seq<Event>, k: TargetKey)
    requires Consistent(db) && k in db.targets
    ensures k in Run(node, db, events).targets
    ensures var start, end := db.targets[k], Run(node, db, events).targets[k];
      var touches := Touches(node, db, events, k);
      TimesFollow(start, touches, end) && WordsFollow(start, touches, end)
  {
    hide Step, TouchOf, Moves, Consistent, TimesFollow, WordsFollow;
    if events == [] {
      NoTouch(db.targets[k]);
    } else {
      var init, last := events[..|events| - 1], events[|events| - 1];
      RowFollowsItsTouches(node, db, init, k);
      RunKeepsConsistent(node, db, init);
      var at := Run(node, db, init);
      TargetStep(node, at, last, k);
      var touch := TouchOf(at, last, k);
      if touch.Some? {
        OneMoreTouch(db.targets[k], Touches(node, db, init, k), at.targets[k], touch.value,
                     Step(node, at, last).targets[k]);
      }
      assert touch.None? ==> Touches(node, db, events, k) == Touches(node, db, init, k);
    }
  }

  lemma NoTouch(start: Target)
    ensures TimesFollow(start, [], start) && WordsFollow(start, [], start)
  {
  }

  // In every run of all transactions, from before the target was created: its bytes are the largest any
  // of its reports named, or zero.
  lemma {:induction false} BytesAreTheLargestReported(node: Node, db: Database, events: seq<Event>, k: TargetKey)
    requires Consistent(db) && k !in db.targets
    ensures k in Run(node, db, events).targets ==>
      BytesAreTheMost(0, Touches(node, db, events, k), Run(node, db, events).targets[k].bytes)
    ensures k !in Run(node, db, events).targets ==> Touches(node, db, events, k) == []
  {
    hide Step, TouchOf, Moves, Consistent, BytesAreTheMost, TargetHistory.LegalMove;
    if events != [] {
      var init, last := events[..|events| - 1], events[|events| - 1];
      BytesAreTheLargestReported(node, db, init, k);
      RunKeepsConsistent(node, db, init);
      var at := Run(node, db, init);
      if k in at.targets {
        TargetStep(node, at, last, k);
        var touch := TouchOf(at, last, k);
        if touch.Some? {
          OneMoreTelling(0, Touches(node, db, init, k), at.targets[k], touch.value, Step(node, at, last).targets[k]);
        }
        assert touch.None? ==> Touches(node, db, events, k) == Touches(node, db, init, k);
      } else if k in Step(node, at, last).targets {
        TargetHistory.StepMovesLegally(node, at, last);
        NothingToldYet();
      }
    }
  }

  lemma NothingToldYet()
    ensures BytesAreTheMost(0, [], 0)
  {
  }

  // A report that takes effect leaves its task FAILED exactly when every target has ended in FAILED,
  // CANCELLED or EXPIRED, READ exactly when every one is READ, and DELIVERED exactly when every one is
  // DELIVERED or READ but not all are READ.
  lemma ReportedTaskIff(node: Node, db: Database, e: Event)
    requires Consistent(db) && Aggregate.Summarised(db) && e.ReportEvent?
    requires Touched(db, e, TargetKey(e.transfer, e.progress.device))
    ensures var t, next := e.transfer, Step(node, db, e);
      && t in next.tasks
      && (next.tasks[t].status == Failed <==> AllHave(next, t, {Failed, Cancelled, Expired}))
      && (next.tasks[t].status == Read <==> AllHave(next, t, {Read}))
      && (next.tasks[t].status == Delivered <==> AllHave(next, t, {Delivered, Read}) && !AllHave(next, t, {Read}))
  {
    hide Step, AllHave, TouchOf, Consistent;
    var t, k := e.transfer, TargetKey(e.transfer, e.progress.device);
    var next := Step(node, db, e);
    TargetsHaveTasks(db, k);
    TaskStep(node, db, e, t);
    TargetStep(node, db, e, k);
    ToldTouch(db, e);
    StillUnderWay(db, e);
    AllHaveIff(db);
    assert Aggregate.TaskSummarises(db, t);
    if db.tasks[t].status == Delivered {
      OthersStay(node, db, e);
    }
    KeptStatus(db, next, e);
  }

  lemma AllHaveIff(db: Database)
    ensures forall t, statuses :: AllTargetsIn(db.targets, t, statuses) <==> AllHave(db, t, statuses)
  {
  }

  lemma StillUnderWay(db: Database, e: Event)
    requires Consistent(db) && e.ReportEvent? && Touched(db, e, TargetKey(e.transfer, e.progress.device))
    ensures var current := db.targets[TargetKey(e.transfer, e.progress.device)].status;
      && current !in {Read, Failed, Cancelled, Expired}
      && (current == Delivered ==> e.progress.status == Read)
      && e.progress.status !in {Created, Cancelled, Expired}
  {
  }

  lemma OthersStay(node: Node, db: Database, e: Event)
    requires Consistent(db) && e.ReportEvent? && Touched(db, e, TargetKey(e.transfer, e.progress.device))
    requires AllHave(db, e.transfer, {Delivered, Read})
    ensures AllHave(Step(node, db, e), e.transfer, {Delivered, Read})
  {
    hide TouchOf, Report, WithLatest;
    StillUnderWay(db, e);
    ReportTouches(node, db, e);
  }

  lemma KeptStatus(db: Database, next: Database, e: Event)
    requires e.ReportEvent? && e.transfer in db.tasks && e.transfer in next.tasks
    requires var k, p := TargetKey(e.transfer, e.progress.device), e.progress;
      && k in db.targets && k in next.targets && next.targets[k].status == p.status
      && db.targets[k].status !in {Read, Failed, Cancelled, Expired}
      && (db.targets[k].status == Delivered ==> p.status == Read)
    requires var before := db.tasks[e.transfer].status;
      && (before == Failed ==> AllHave(db, e.transfer, {Failed, Cancelled, Expired}))
      && (before == Read ==> AllHave(db, e.transfer, {Read}))
      && (before == Delivered ==> AllHave(next, e.transfer, {Delivered, Read}))
      && Decides(next, e.transfer, before, e.progress.status, next.tasks[e.transfer].status)
    ensures var t := e.transfer;
      && (next.tasks[t].status == Failed <==> AllHave(next, t, {Failed, Cancelled, Expired}))
      && (next.tasks[t].status == Read <==> AllHave(next, t, {Read}))
      && (next.tasks[t].status == Delivered <==> AllHave(next, t, {Delivered, Read}) && !AllHave(next, t, {Read}))
  {
  }
}
