/**
 The recovery coordinator: one pass over the recoverable work items, the calls it makes on the store,
 the report it returns, and the backoff between attempts. Durations are nanoseconds.
 */
module Recovery {
  import opened Wrappers
  import opened Numbers

  const MILLISECOND: int := 1000000
  const SECOND: int := 1000 * MILLISECOND
  const MINUTE: int := 60 * SECOND

  datatype Classification =
    | Unclassified | RetryImmediately | RetryWithBackoff | WaitForReceiver | ReconcileState | TerminalFailure

  // A zero next attempt means none is set.
  datatype WorkItem = WorkItem(transfer: string, target: string, retryCount: nat, nextAttempt: int, errorCode: string)

  datatype Outcome = Outcome(
    completed: bool, receiverOffline: bool, inconsistent: bool, repaired: bool, errorCode: string)

  datatype Config = Config(baseBackoff: int, maxBackoff: int, maxRetries: int, leaseTTL: int)

  datatype Report = Report(scanned: nat, leased: nat, completed: nat, waiting: nat, repaired: nat, deadLetters: nat)

  function Normalized(c: Config): Config {
    var base := if c.baseBackoff <= 0 then 5 * SECOND else c.baseBackoff;
    Config(
      base,
      if c.maxBackoff < base then 30 * MINUTE else c.maxBackoff,
      if c.maxRetries <= 0 then 8 else c.maxRetries,
      if c.leaseTTL <= 0 then 2 * MINUTE else c.leaseTTL)
  }

  function StableError(o: Outcome, failed: bool): string {
    if o.errorCode != "" then o.errorCode else if !failed then "NONE" else "RECOVERY_FAILED"
  }

  function Classify(previous: string, o: Outcome, failed: bool): Classification {
    if o.completed && !failed then Unclassified
    else if o.receiverOffline || previous == "RECEIVER_OFFLINE" || o.errorCode == "RECEIVER_OFFLINE"
    then WaitForReceiver
    else if o.inconsistent || previous == "MISSING_CHUNK" || previous == "LOST_ACK" then ReconcileState
    else
      var code := StableError(o, failed);
      if code in {"DATABASE_UNAVAILABLE", "NETWORK_UNAVAILABLE", "TIMEOUT", "NODE_RESTARTED"} then RetryWithBackoff
      else if code == "STALE_LOCK" then RetryImmediately
      else if code in {"INVALID_MANIFEST", "HASH_MISMATCH", "PERMISSION_DENIED", "DEVICE_REVOKED",
          "STORAGE_QUOTA_EXHAUSTED"}
      then TerminalFailure
      else if failed then RetryWithBackoff else TerminalFailure
  }

  // ---- backoff ----

  function Jitter(hash: string -> nat, item: WorkItem): int {
    (hash(item.transfer + ":" + item.target) % 1000) * MILLISECOND
  }

  // The doubled base before the cap, as 64-bit arithmetic leaves it.
  function Doubled(base: int, count: nat): int {
    Wrapped(base * Power2(Min(count, 20)))
  }

  function BackoffFor(c: Config, count: nat, jitter: int): int {
    var capped := Min(Doubled(c.baseBackoff, count), c.maxBackoff);
    var total := Wrapped(capped + jitter);
    if total > c.maxBackoff then c.maxBackoff else total
  }

  function Backoff(hash: string -> nat, item: WorkItem, given: Config): int {
    BackoffFor(Normalized(given), item.retryCount, Jitter(hash, item))
  }

  lemma WrappedInRange(x: int)
    ensures Int64(x) ==> Wrapped(x) == x
    ensures INT64_MAX < x <= 2 * INT64_MAX + 1 ==> Wrapped(x) == x - 0x1_0000_0000_0000_0000
  {
    var y := x + 0x8000_0000_0000_0000;
    if INT64_MAX < x <= 2 * INT64_MAX + 1 {
      assert y - 0x1_0000_0000_0000_0000 == y % 0x1_0000_0000_0000_0000;
    }
  }

  // The largest doubling, and the largest sum with a jitter, fit 64 bits.
  predicate Fits(c: Config) {
    && c.baseBackoff * Power2(20) <= INT64_MAX
    && Min(c.baseBackoff * Power2(20), c.maxBackoff) + 999 * MILLISECOND <= INT64_MAX
  }

  ghost predicate WellBehaved(c: Config, count: nat, jitter: int) {
    && 0 < BackoffFor(c, count, jitter) <= c.maxBackoff
    && BackoffFor(c, count, jitter) <= BackoffFor(c, count + 1, jitter)
  }

  predicate PossibleJitter(jitter: int) {
    0 <= jitter <= 999 * MILLISECOND
  }

  lemma {:induction false} PowerMonotone(a: nat, b: nat)
    requires a <= b
    ensures Power2(a) <= Power2(b)
    decreases b
  {
    if a < b {
      PowerMonotone(a, b - 1);
    }
  }

  lemma DoubledFits(base: int, count: nat)
    requires base > 0 && base * Power2(20) <= INT64_MAX
    ensures Doubled(base, count) == base * Power2(Min(count, 20))
    ensures base <= Doubled(base, count) <= Doubled(base, count + 1) <= base * Power2(20)
  {
    var here, next := Power2(Min(count, 20)), Power2(Min(count + 1, 20));
    PowerMonotone(Min(count, 20), Min(count + 1, 20));
    PowerMonotone(Min(count + 1, 20), 20);
    Scale(base, 1, here);
    Scale(base, here, next);
    Scale(base, next, Power2(20));
    WrappedInRange(base * here);
    WrappedInRange(base * next);
  }

  lemma Scale(base: int, a: int, b: int)
    requires base > 0
    ensures a <= b ==> base * a <= base * b
  {
    MulMonotone(a, b, base);
  }

  lemma FittingIsWellBehaved(c: Config, count: nat, jitter: int)
    requires c.baseBackoff > 0 && c.maxBackoff > 0 && Fits(c) && PossibleJitter(jitter)
    ensures WellBehaved(c, count, jitter)
  {
    hide Doubled, Power2;
    DoubledFits(c.baseBackoff, count);
    DoubledFits(c.baseBackoff, count + 1);
    WrappedInRange(Min(Doubled(c.baseBackoff, count), c.maxBackoff) + jitter);
    WrappedInRange(Min(Doubled(c.baseBackoff, count + 1), c.maxBackoff) + jitter);
  }

  // The first doubling that leaves 64 bits turns negative.
  lemma {:induction false} FirstOverflow(base: int, n: nat) returns (s: nat)
    requires 0 < base <= INT64_MAX && base * Power2(n) > INT64_MAX
    ensures 0 < s <= n && base * Power2(s - 1) <= INT64_MAX < base * Power2(s) == 2 * (base * Power2(s - 1))
  {
    assert base * Power2(0) == base;
    assert base * Power2(n) == 2 * (base * Power2(n - 1));
    if base * Power2(n - 1) <= INT64_MAX {
      s := n;
    } else {
      s := FirstOverflow(base, n - 1);
    }
  }

  lemma OverflowMisbehaves(c: Config)
    requires 0 < c.baseBackoff <= INT64_MAX && 30 * MINUTE <= c.maxBackoff <= INT64_MAX
    requires c.baseBackoff * Power2(20) > INT64_MAX
    ensures exists count: nat :: !WellBehaved(c, count, 0)
  {
    var s := FirstOverflow(c.baseBackoff, 20);
    hide Power2;
    var before := c.baseBackoff * Power2(s - 1);
    WrappedInRange(before);
    WrappedInRange(2 * before);
    assert Doubled(c.baseBackoff, s - 1) == before && Doubled(c.baseBackoff, s) == 2 * before - 0x1_0000_0000_0000_0000;
    WrappedInRange(Min(before, c.maxBackoff));
    WrappedInRange(2 * before - 0x1_0000_0000_0000_0000);
    assert BackoffFor(c, s, 0) <= 0;
    assert !WellBehaved(c, s, 0);
  }

  lemma JitterMisbehaves(c: Config)
    requires 0 < c.baseBackoff && 0 < c.maxBackoff <= INT64_MAX && c.baseBackoff * Power2(20) <= INT64_MAX
    requires Min(c.baseBackoff * Power2(20), c.maxBackoff) + 999 * MILLISECOND > INT64_MAX
    ensures !WellBehaved(c, 20, 999 * MILLISECOND)
  {
    DoubledFits(c.baseBackoff, 20);
    hide Power2, Doubled;
    WrappedInRange(Min(Doubled(c.baseBackoff, 20), c.maxBackoff) + 999 * MILLISECOND);
  }

  // For every count and jitter the backoff is positive, at most the maximum and no shorter than the
  // one before, exactly when the configuration keeps its largest doubling and sum within 64 bits.
  lemma BackoffIsWellBehavedIff(given: Config)
    requires Int64(given.baseBackoff) && Int64(given.maxBackoff)
    ensures (forall count: nat, jitter :: PossibleJitter(jitter) ==> WellBehaved(Normalized(given), count, jitter))
      <==> Fits(Normalized(given))
  {
    hide WellBehaved, Power2;
    var c := Normalized(given);
    if Fits(c) {
      forall count: nat, jitter | PossibleJitter(jitter)
        ensures WellBehaved(c, count, jitter)
      {
        FittingIsWellBehaved(c, count, jitter);
      }
    } else if c.baseBackoff * Power2(20) > INT64_MAX {
      BigBaseHasRoom(given);
      OverflowMisbehaves(c);
      var count: nat :| !WellBehaved(c, count, 0);
      assert PossibleJitter(0);
    } else {
      JitterMisbehaves(c);
      assert PossibleJitter(999 * MILLISECOND);
    }
  }

  lemma BigBaseHasRoom(given: Config)
    requires Int64(given.baseBackoff) && Int64(given.maxBackoff)
    requires Normalized(given).baseBackoff * Power2(20) > INT64_MAX
    ensures 30 * MINUTE <= Normalized(given).maxBackoff <= INT64_MAX && Normalized(given).baseBackoff <= INT64_MAX
  {
    assert Power2(10) == 1024;
    assert Power2(20) == 1048576;
  }

  // ---- one pass ----

  // What the store and the runner answer for the item at each position.
  datatype Environment = Environment(
    lease: nat -> Option<bool>, resume: nat -> (Outcome, bool), marked: nat -> bool, released: nat -> bool)

  datatype Call =
    | Lease(item: nat, until: int)
    | Resume(item: nat)
    | MarkCompleted(item: nat)
    | MarkWaiting(item: nat, classification: Classification, next: int, code: string)
    | MarkDeadLetter(item: nat, code: string)
    | RecordRepair(item: nat)
    | Release(item: nat)

  predicate IsMark(c: Call) {
    c.MarkCompleted? || c.MarkWaiting? || c.MarkDeadLetter? || c.RecordRepair?
  }

  predicate Due(item: WorkItem, now: int) {
    item.transfer != "" && item.target != "" && !(item.nextAttempt != 0 && item.nextAttempt > now)
  }

  // The mark an attempt ends in.
  function MarkOf(hash: string -> nat, c: Config, item: WorkItem, i: nat, now: int, o: Outcome, failed: bool): Call {
    var code := StableError(o, failed);
    match Classify(item.errorCode, o, failed)
    case RetryImmediately => MarkWaiting(i, RetryImmediately, now, code)
    case RetryWithBackoff =>
      if item.retryCount >= c.maxRetries then MarkDeadLetter(i, code)
      else MarkWaiting(i, RetryWithBackoff, now + Backoff(hash, item, c), code)
    case WaitForReceiver => MarkWaiting(i, WaitForReceiver, now + c.maxBackoff, code)
    case ReconcileState =>
      if o.repaired then RecordRepair(i) else MarkWaiting(i, ReconcileState, now + c.baseBackoff, code)
    case TerminalFailure => MarkDeadLetter(i, code)
    case Unclassified => MarkCompleted(i)
  }

  function CountMark(r: Report, mark: Call): Report {
    match mark
    case MarkCompleted(_) => r.(completed := r.completed + 1)
    case MarkWaiting(_, _, _, _) => r.(waiting := r.waiting + 1)
    case MarkDeadLetter(_, _) => r.(deadLetters := r.deadLetters + 1)
    case RecordRepair(_) => r.(repaired := r.repaired + 1)
    case _ => r
  }

  datatype Progress = Progress(report: Report, calls: seq<Call>, failed: bool)

  function AfterItem(
      hash: string -> nat, c: Config, env: Environment, item: WorkItem, i: nat, now: int, p: Progress): Progress {
    if !Due(item, now) then p
    else
      var asked := p.calls + [Lease(i, now + c.leaseTTL)];
      match env.lease(i)
      case None => Progress(p.report, asked, true)
      case Some(false) => Progress(p.report, asked, false)
      case Some(true) =>
        var (o, failed) := env.resume(i);
        var mark := MarkOf(hash, c, item, i, now, o, failed);
        var report := CountMark(p.report.(leased := p.report.leased + 1), mark);
        var attempted := asked + [Resume(i), mark];
        if !env.marked(i) then Progress(report, attempted, true)
        else Progress(report, attempted + [Release(i)], !env.released(i))
  }

  // The pass stops at the first error.
  function AfterItems(
      hash: string -> nat, c: Config, env: Environment, items: seq<WorkItem>, n: nat, now: int): Progress
    requires n <= |items|
  {
    if n == 0 then Progress(Report(|items|, 0, 0, 0, 0, 0), [], false)
    else
      var before := AfterItems(hash, c, env, items, n - 1, now);
      if before.failed then before else AfterItem(hash, c, env, items[n - 1], n - 1, now, before)
  }

  class Coordinator {
    const hash: string -> nat
    const config: Config
    var calls: seq<Call>

    constructor (hash: string -> nat, given: Config)
      ensures this.hash == hash && config == Normalized(given) && calls == []
    {
      this.hash := hash;
      config := Normalized(given);
      calls := [];
    }

    method RunOnce(env: Environment, items: seq<WorkItem>, now: int) returns (report: Report, ok: bool)
      modifies this
      ensures var p := AfterItems(hash, config, env, items, |items|, now);
        report == p.report && calls == old(calls) + p.calls && ok == !p.failed
    {
      hide MarkOf, CountMark, Classify, Backoff;
      report := Report(|items|, 0, 0, 0, 0, 0);
      ghost var start := calls;
      for i := 0 to |items|
        invariant var p := AfterItems(hash, config, env, items, i, now);
          p.report == report && calls == start + p.calls && !p.failed
      {
        var item := items[i];
        if item.transfer == "" || item.target == "" || (item.nextAttempt != 0 && item.nextAttempt > now) {
          continue;
        }
        var leased := TryLease(env, i, now + config.leaseTTL);
        if leased.None? {
          StoppedAt(hash, config, env, items, i + 1, now);
          return report, false;
        }
        if !leased.value {
          continue;
        }
        report := report.(leased := report.leased + 1);
        var done;
        report, done := Attempt(env, item, i, now, report);
        if done {
          calls := calls + [Release(i)];
          done := env.released(i);
        }
        if !done {
          StoppedAt(hash, config, env, items, i + 1, now);
          return report, false;
        }
      }
      return report, true;
    }

    method TryLease(env: Environment, i: nat, until: int) returns (leased: Option<bool>)
      modifies this
      ensures leased == env.lease(i) && calls == old(calls) + [Lease(i, until)]
    {
      calls := calls + [Lease(i, until)];
      leased := env.lease(i);
    }

    // Resume the work, classify what came of it, and mark the item accordingly.
    method Attempt(env: Environment, item: WorkItem, i: nat, now: int, before: Report)
      returns (report: Report, done: bool)
      modifies this
      ensures var (o, failed) := env.resume(i);
        var mark := MarkOf(hash, config, item, i, now, o, failed);
        report == CountMark(before, mark) && calls == old(calls) + [Resume(i), mark] && done == env.marked(i)
    {
      report := before;
      calls := calls + [Resume(i)];
      var (o, failed) := env.resume(i);
      var code := StableError(o, failed);
      match Classify(item.errorCode, o, failed) {
        case RetryImmediately =>
          report := report.(waiting := report.waiting + 1);
          calls := calls + [MarkWaiting(i, RetryImmediately, now, code)];
        case RetryWithBackoff =>
          if item.retryCount >= config.maxRetries {
            report := report.(deadLetters := report.deadLetters + 1);
            calls := calls + [MarkDeadLetter(i, code)];
          } else {
            report := report.(waiting := report.waiting + 1);
            calls := calls + [MarkWaiting(i, RetryWithBackoff, now + Backoff(hash, item, config), code)];
          }
        case WaitForReceiver =>
          report := report.(waiting := report.waiting + 1);
          calls := calls + [MarkWaiting(i, WaitForReceiver, now + config.maxBackoff, code)];
        case ReconcileState =>
          if o.repaired {
            report := report.(repaired := report.repaired + 1);
            calls := calls + [RecordRepair(i)];
          } else {
            report := report.(waiting := report.waiting + 1);
            calls := calls + [MarkWaiting(i, ReconcileState, now + config.baseBackoff, code)];
          }
        case TerminalFailure =>
          report := report.(deadLetters := report.deadLetters + 1);
          calls := calls + [MarkDeadLetter(i, code)];
        case Unclassified =>
          // An item without a classification is a completed one; the code's error for any other is dead.
          UnclassifiedMeansCompleted(item.errorCode, o, failed);
          report := report.(completed := report.completed + 1);
          calls := calls + [MarkCompleted(i)];
      }
      done := env.marked(i);
    }
  }

  lemma UnclassifiedMeansCompleted(previous: string, o: Outcome, failed: bool)
    ensures Classify(previous, o, failed) == Unclassified <==> o.completed && !failed
  {
  }

  lemma {:induction false} StoppedAt(
      hash: string -> nat, c: Config, env: Environment, items: seq<WorkItem>, n: nat, now: int)
    requires n <= |items| && AfterItems(hash, c, env, items, n, now).failed
    ensures AfterItems(hash, c, env, items, |items|, now) == AfterItems(hash, c, env, items, n, now)
    decreases |items| - n
  {
    if n < |items| {
      StoppedAt(hash, c, env, items, n + 1, now);
    }
  }

  // ---- the report and the calls ----

  function Tally(calls: seq<Call>, counts: Call -> bool): nat {
    if calls == [] then 0
    else Tally(calls[..|calls| - 1], counts) + (if counts(calls[|calls| - 1]) then 1 else 0)
  }

  lemma {:induction false} TallyAdds(a: seq<Call>, b: seq<Call>, counts: Call -> bool)
    ensures Tally(a + b, counts) == Tally(a, counts) + Tally(b, counts)
  {
    if b == [] {
      assert a + b == a;
    } else {
      TallyAdds(a, b[..|b| - 1], counts);
      assert (a + b)[..|a + b| - 1] == a + b[..|b| - 1];
    }
  }

  predicate Resumes(c: Call) { c.Resume? }
  predicate Completes(c: Call) { c.MarkCompleted? }
  predicate Waits(c: Call) { c.MarkWaiting? }
  predicate Buries(c: Call) { c.MarkDeadLetter? }
  predicate Repairs(c: Call) { c.RecordRepair? }

  ghost predicate Agrees(r: Report, calls: seq<Call>) {
    && r.leased == Tally(calls, Resumes) && r.completed == Tally(calls, Completes)
    && r.waiting == Tally(calls, Waits) && r.repaired == Tally(calls, Repairs) && r.deadLetters == Tally(calls, Buries)
    && r.leased == r.completed + r.waiting + r.repaired + r.deadLetters
  }

  lemma {:induction false} TallySmall(calls: seq<Call>, counts: Call -> bool)
    requires |calls| <= 4
    ensures |calls| == 1 ==> Tally(calls, counts) == One(calls[0], counts)
    ensures |calls| == 3 ==> Tally(calls, counts) == One(calls[0], counts) + One(calls[1], counts) + One(calls[2],
        counts)
    ensures |calls| == 4 ==>
      Tally(calls, counts) == One(calls[0], counts) + One(calls[1], counts) + One(calls[2], counts) + One(calls[3],
          counts)
    decreases |calls|
  {
    if calls != [] {
      TallySmall(calls[..|calls| - 1], counts);
    }
    if |calls| == 3 {
      assert calls[..2][..1] == [calls[0]];
      TallySmall([calls[0]], counts);
    }
  }

  function One(c: Call, counts: Call -> bool): nat {
    if counts(c) then 1 else 0
  }

  // The calls one item adds.
  function ItemCalls(hash: string -> nat, c: Config, env: Environment, item: WorkItem, i: nat, now: int): seq<Call> {
    if !Due(item, now) then []
    else if env.lease(i) != Some(true) then [Lease(i, now + c.leaseTTL)]
    else
      var (o, failed) := env.resume(i);
      [Lease(i, now + c.leaseTTL), Resume(i), MarkOf(hash, c, item, i, now, o, failed)]
      + (if env.marked(i) then [Release(i)] else [])
  }

  lemma ItemAddsItsCalls(
      hash: string -> nat, c: Config, env: Environment, item: WorkItem, i: nat, now: int, p: Progress)
    ensures AfterItem(hash, c, env, item, i, now, p).calls == p.calls + ItemCalls(hash, c, env, item, i, now)
  {
  }

  lemma ItemKeepsAgreement(
      hash: string -> nat, c: Config, env: Environment, item: WorkItem, i: nat, now: int, p: Progress)
    requires Agrees(p.report, p.calls)
    ensures var next := AfterItem(hash, c, env, item, i, now, p);
      Agrees(next.report, next.calls) && next.report.leased <= p.report.leased + 1
      && next.report.scanned == p.report.scanned
  {
    hide MarkOf, Classify, Backoff, Tally;
    var own := ItemCalls(hash, c, env, item, i, now);
    ItemAddsItsCalls(hash, c, env, item, i, now, p);
    TallyAdds(p.calls, own, Resumes);
    TallyAdds(p.calls, own, Completes);
    TallyAdds(p.calls, own, Waits);
    TallyAdds(p.calls, own, Repairs);
    TallyAdds(p.calls, own, Buries);
    TallySmall(own, Resumes);
    TallySmall(own, Completes);
    TallySmall(own, Waits);
    TallySmall(own, Repairs);
    TallySmall(own, Buries);
    if Due(item, now) && env.lease(i) == Some(true) {
      var (o, failed) := env.resume(i);
      MarkIsAMark(hash, c, item, i, now, o, failed);
    }
  }

  lemma MarkIsAMark(hash: string -> nat, c: Config, item: WorkItem, i: nat, now: int, o: Outcome, failed: bool)
    ensures var mark := MarkOf(hash, c, item, i, now, o, failed);
      IsMark(mark) && mark.item == i
  {
  }

  // Every counter of the report is the number of calls it stands for, also when the pass stops early,
  // and the leased items are exactly the completed, waiting, repaired and dead ones.
  lemma {:induction false} ReportAgreesWithTheCalls(
      hash: string -> nat, c: Config, env: Environment, items: seq<WorkItem>, n: nat, now: int)
    requires n <= |items|
    ensures var p := AfterItems(hash, c, env, items, n, now);
      Agrees(p.report, p.calls) && p.report.leased <= n && p.report.scanned == |items|
  {
    hide Agrees, AfterItem;
    if n == 0 {
      NothingAgrees(|items|);
    } else {
      ReportAgreesWithTheCalls(hash, c, env, items, n - 1, now);
      var before := AfterItems(hash, c, env, items, n - 1, now);
      ItemKeepsAgreement(hash, c, env, items[n - 1], n - 1, now, before);
    }
  }

  lemma NothingAgrees(scanned: nat)
    ensures Agrees(Report(scanned, 0, 0, 0, 0, 0), [])
  {
  }

  function CallsOf(calls: seq<Call>, i: nat): seq<Call> {
    if calls == [] then []
    else
      var last := calls[|calls| - 1];
      CallsOf(calls[..|calls| - 1], i) + (if last.item == i then [last] else [])
  }

  lemma {:induction false} CallsOfAdds(a: seq<Call>, b: seq<Call>, i: nat)
    ensures (forall x :: x in b ==> x.item != i) ==> CallsOf(a + b, i) == CallsOf(a, i)
    ensures (forall x :: x in b ==> x.item == i) ==> CallsOf(a + b, i) == CallsOf(a, i) + b
  {
    if b == [] {
      assert a + b == a;
    } else {
      CallsOfAdds(a, b[..|b| - 1], i);
      assert (a + b)[..|a + b| - 1] == a + b[..|b| - 1];
      assert b == b[..|b| - 1] + [b[|b| - 1]];
    }
  }

  // One more item adds its own calls, unless the pass had stopped.
  lemma CallsStep(
      hash: string -> nat, c: Config, env: Environment, items: seq<WorkItem>, n: nat, now: int, i: nat)
    requires 0 < n <= |items|
    ensures var p, before := AfterItems(hash, c, env, items, n, now), AfterItems(hash, c, env, items, n - 1, now);
      CallsOf(p.calls, i) == CallsOf(before.calls, i)
        + (if i == n - 1 && !before.failed then ItemCalls(hash, c, env, items[i], i, now) else [])
  {
    hide AfterItem, ItemCalls, CallsOf;
    var before := AfterItems(hash, c, env, items, n - 1, now);
    ItemAddsItsCalls(hash, c, env, items[n - 1], n - 1, now, before);
    OwnCalls(hash, c, env, items[n - 1], n - 1, now);
    CallsOfAdds(before.calls, ItemCalls(hash, c, env, items[n - 1], n - 1, now), i);
  }

  // The calls of the items before position n are theirs, up to where the pass stopped.
  lemma {:induction false} EachItemMakesItsCalls(
      hash: string -> nat, c: Config, env: Environment, items: seq<WorkItem>, n: nat, now: int, i: nat)
    requires n <= |items| && i < |items|
    ensures var p := AfterItems(hash, c, env, items, n, now);
      && (n <= i ==> CallsOf(p.calls, i) == [])
      && (i < n && AfterItems(hash, c, env, items, i, now).failed ==> CallsOf(p.calls, i) == [])
      && (i < n && !AfterItems(hash, c, env, items, i, now).failed ==>
        CallsOf(p.calls, i) == ItemCalls(hash, c, env, items[i], i, now))
  {
    if n == 0 {
    } else {
      hide AfterItem, ItemCalls, CallsOf, AfterItems;
      EachItemMakesItsCalls(hash, c, env, items, n - 1, now, i);
      CallsStep(hash, c, env, items, n, now, i);
    }
  }

  lemma OwnCalls(hash: string -> nat, c: Config, env: Environment, item: WorkItem, i: nat, now: int)
    ensures forall x :: x in ItemCalls(hash, c, env, item, i, now) ==> x.item == i
  {
    if Due(item, now) && env.lease(i) == Some(true) {
      var (o, failed) := env.resume(i);
      MarkIsAMark(hash, c, item, i, now, o, failed);
    }
  }

  lemma {:induction false} StillStopped(
      hash: string -> nat, c: Config, env: Environment, items: seq<WorkItem>, i: nat, n: nat, now: int)
    requires i <= n <= |items| && AfterItems(hash, c, env, items, i, now).failed
    ensures AfterItems(hash, c, env, items, n, now) == AfterItems(hash, c, env, items, i, now)
  {
    if i < n {
      StillStopped(hash, c, env, items, i, n - 1, now);
    }
  }

  // An item that was leased was resumed once, marked once and then released once; only a failing store
  // call cuts this short, and then the pass ends with that item. No other item is marked or released.
  lemma LeasedItemsAreMarkedAndReleased(
      hash: string -> nat, c: Config, env: Environment, items: seq<WorkItem>, now: int, i: nat)
    requires i < |items|
    ensures var p := AfterItems(hash, c, env, items, |items|, now);
      var own := CallsOf(p.calls, i);
      if Resume(i) !in own then |own| <= 1 && (own == [] || own[0].Lease?)
      else
        && (|own| == 3 || (|own| == 4 && own[3] == Release(i)))
        && own[0].Lease? && own[1] == Resume(i) && IsMark(own[2])
        && (|own| == 3 ==> p.failed && forall j :: i < j < |items| ==> CallsOf(p.calls, j) == [])
  {
    hide Classify, Backoff, MarkOf;
    EachItemMakesItsCalls(hash, c, env, items, |items|, now, i);
    if Due(items[i], now) && env.lease(i) == Some(true) {
      var (o, failed) := env.resume(i);
      MarkIsAMark(hash, c, items[i], i, now, o, failed);
      if !AfterItems(hash, c, env, items, i, now).failed && !env.marked(i) {
        assert AfterItems(hash, c, env, items, i + 1, now).failed;
        StoppedAt(hash, c, env, items, i + 1, now);
        forall j | i < j < |items|
          ensures CallsOf(AfterItems(hash, c, env, items, |items|, now).calls, j) == []
        {
          EachItemMakesItsCalls(hash, c, env, items, |items|, now, j);
          StillStopped(hash, c, env, items, i + 1, j, now);
        }
      }
    }
  }

  // The store refuses this call.
  predicate Fails(env: Environment, call: Call) {
    match call
    case Lease(i, _) => env.lease(i) == None
    case Resume(_) => false
    case Release(i) => !env.released(i)
    case _ => !env.marked(call.item)
  }

  // The pass fails exactly when the store refuses one of its calls, and that call is then its last.
  lemma {:induction false} PassFailsIff(
      hash: string -> nat, c: Config, env: Environment, items: seq<WorkItem>, n: nat, now: int)
    requires n <= |items|
    ensures var p := AfterItems(hash, c, env, items, n, now);
      && (p.failed <==> exists k :: 0 <= k < |p.calls| && Fails(env, p.calls[k]))
      && forall k :: 0 <= k < |p.calls| - 1 ==> !Fails(env, p.calls[k])
  {
    hide AfterItem, Fails;
    if n > 0 {
      PassFailsIff(hash, c, env, items, n - 1, now);
      var before := AfterItems(hash, c, env, items, n - 1, now);
      if !before.failed {
        ItemFailsIff(hash, c, env, items[n - 1], n - 1, now, before);
      }
    }
  }

  lemma ItemFailsIff(
      hash: string -> nat, c: Config, env: Environment, item: WorkItem, i: nat, now: int, p: Progress)
    requires !p.failed && forall k :: 0 <= k < |p.calls| ==> !Fails(env, p.calls[k])
    ensures var next := AfterItem(hash, c, env, item, i, now, p);
      && (next.failed <==> exists k :: 0 <= k < |next.calls| && Fails(env, next.calls[k]))
      && forall k :: 0 <= k < |next.calls| - 1 ==> !Fails(env, next.calls[k])
  {
    hide Classify, Backoff, MarkOf;
    var next := AfterItem(hash, c, env, item, i, now, p);
    ItemAddsItsCalls(hash, c, env, item, i, now, p);
    assert forall k :: 0 <= k < |p.calls| ==> next.calls[k] == p.calls[k];
    if Due(item, now) && env.lease(i) == Some(true) {
      var (o, failed) := env.resume(i);
      MarkIsAMark(hash, c, item, i, now, o, failed);
    }
    if next.failed {
      assert Fails(env, next.calls[|next.calls| - 1]);
    }
  }

  // A postponed item comes back later than now, unless it is to be retried at once, and no later than
  // the larger of the two configured delays.
  lemma PostponedIntoTheFuture(
      hash: string -> nat, given: Config, item: WorkItem, i: nat, now: int, o: Outcome, failed: bool)
    requires Fits(Normalized(given))
    ensures var c := Normalized(given);
      var mark := MarkOf(hash, c, item, i, now, o, failed);
      mark.MarkWaiting? ==>
        if mark.classification == RetryImmediately then mark.next == now
        else now < mark.next <= now + Max(c.baseBackoff, c.maxBackoff)
  {
    hide Power2, Fits, BackoffFor, Jitter;
    var c := Normalized(given);
    assert Normalized(c) == c;
    JitterIsPossible(hash, item);
    FittingIsWellBehaved(c, item.retryCount, Jitter(hash, item));
  }

  lemma JitterIsPossible(hash: string -> nat, item: WorkItem)
    ensures PossibleJitter(Jitter(hash, item))
  {
  }

  // Only a terminal failure or a used-up backoff ends in the dead letters; an item that waits for its
  // receiver or for reconciliation never does, however often it was retried.
  lemma DeadLettersIff(hash: string -> nat, c: Config, item: WorkItem, i: nat, now: int, o: Outcome, failed: bool)
    ensures var waiting := o.receiverOffline || item.errorCode == "RECEIVER_OFFLINE"
      || o.errorCode == "RECEIVER_OFFLINE" || o.inconsistent
      || item.errorCode == "MISSING_CHUNK" || item.errorCode == "LOST_ACK";
      var code := StableError(o, failed);
      var transient := code in {"DATABASE_UNAVAILABLE", "NETWORK_UNAVAILABLE", "TIMEOUT", "NODE_RESTARTED"};
      var fatal := code in {"INVALID_MANIFEST", "HASH_MISMATCH", "PERMISSION_DENIED", "DEVICE_REVOKED",
          "STORAGE_QUOTA_EXHAUSTED"};
      MarkOf(hash, c, item, i, now, o, failed).MarkDeadLetter? <==>
        && !(o.completed && !failed) && !waiting && code != "STALE_LOCK"
        && (fatal || (!transient && !failed) || item.retryCount >= c.maxRetries)
  {
    hide Backoff;
  }

  // ---- what becomes of an attempt ----

  const WAITING := "RECEIVER_OFFLINE"
  const TRANSIENT := {"DATABASE_UNAVAILABLE", "NETWORK_UNAVAILABLE", "TIMEOUT", "NODE_RESTARTED"}
  const FATAL :=
    {"INVALID_MANIFEST", "HASH_MISMATCH", "PERMISSION_DENIED", "DEVICE_REVOKED", "STORAGE_QUOTA_EXHAUSTED"}

  predicate Done(o: Outcome, failed: bool) {
    o.completed && !failed
  }

  // The receiver is away, now or when the item was last tried.
  predicate ReceiverAway(previous: string, o: Outcome) {
    o.receiverOffline || previous == WAITING || o.errorCode == WAITING
  }

  predicate OutOfStep(previous: string, o: Outcome) {
    o.inconsistent || previous == "MISSING_CHUNK" || previous == "LOST_ACK"
  }

  // The error is one that passes, or an unknown one of a failed attempt.
  predicate MayPass(o: Outcome, failed: bool) {
    o.errorCode in TRANSIENT || (failed && o.errorCode != "STALE_LOCK" && o.errorCode !in FATAL)
  }

  // Each class by what was observed; the first that applies decides.
  lemma ClassifiedIff(previous: string, o: Outcome, failed: bool)
    ensures var class' := Classify(previous, o, failed);
      && (class' == Unclassified <==> Done(o, failed))
      && (class' == WaitForReceiver <==> !Done(o, failed) && ReceiverAway(previous, o))
      && (class' == ReconcileState <==>
        !Done(o, failed) && !ReceiverAway(previous, o) && OutOfStep(previous, o))
      && (class' == RetryImmediately <==>
        !Done(o, failed) && !ReceiverAway(previous, o) && !OutOfStep(previous, o) && o.errorCode == "STALE_LOCK")
      && (class' == RetryWithBackoff <==>
        !Done(o, failed) && !ReceiverAway(previous, o) && !OutOfStep(previous, o) && MayPass(o, failed))
  {
  }

  // The base doubled per retry, twenty times at most, with less than a second of jitter, cut at the
  // maximum before and after.
  predicate IsBackoff(c: Config, count: nat, delay: int) {
    exists jitter :: 0 <= jitter < 1000 && delay
      == Min(c.maxBackoff, Min(c.maxBackoff, c.baseBackoff * Power2(Min(20, count))) + jitter * 1_000_000)
  }

  // The same with the product and the sum as 64-bit arithmetic leaves them.
  predicate IsWrappedBackoff(c: Config, count: nat, delay: int) {
    exists jitter :: 0 <= jitter < 1000 && delay == Min(c.maxBackoff,
      Wrapped(Min(c.maxBackoff, Wrapped(c.baseBackoff * Power2(Min(20, count)))) + jitter * 1_000_000))
  }

  lemma BackoffIsDoubling(hash: string -> nat, given: Config, item: WorkItem)
    ensures var c := Normalized(given);
      && IsWrappedBackoff(c, item.retryCount, Backoff(hash, item, c))
      && (Fits(c) ==> IsBackoff(c, item.retryCount, Backoff(hash, item, c)))
  {
    hide Power2, Wrapped;
    var c := Normalized(given);
    assert Normalized(c) == c;
    var jitter := hash(item.transfer + ":" + item.target) % 1000;
    assert 0 <= jitter < 1000;
    if Fits(c) {
      DoubledFits(c.baseBackoff, item.retryCount);
      WrappedInRange(Min(Doubled(c.baseBackoff, item.retryCount), c.maxBackoff) + jitter * MILLISECOND);
    }
  }

  // The mark an attempt ends in, with the time and the code it carries.
  lemma MarkedAs(hash: string -> nat, given: Config, item: WorkItem, i: nat, now: int, o: Outcome, failed: bool)
    ensures var c := Normalized(given);
      var mark := MarkOf(hash, c, item, i, now, o, failed);
      var code := if o.errorCode != "" then o.errorCode else if failed then "RECOVERY_FAILED" else "NONE";
      if Done(o, failed) then mark == MarkCompleted(i)
      else if ReceiverAway(item.errorCode, o) then mark == MarkWaiting(i, WaitForReceiver, now + c.maxBackoff, code)
      else if OutOfStep(item.errorCode, o) then
        mark == if o.repaired then RecordRepair(i) else MarkWaiting(i, ReconcileState, now + c.baseBackoff, code)
      else if o.errorCode == "STALE_LOCK" then mark == MarkWaiting(i, RetryImmediately, now, code)
      else if MayPass(o, failed) && item.retryCount < c.maxRetries then
        && mark.MarkWaiting? && mark.classification == RetryWithBackoff && mark.code == code && mark.item == i
        && IsWrappedBackoff(c, item.retryCount, mark.next - now)
      else mark == MarkDeadLetter(i, code)
  {
    hide Classify, Backoff, Fits, IsBackoff, IsWrappedBackoff, Normalized;
    ClassifiedIff(item.errorCode, o, failed);
    BackoffIsDoubling(hash, given, item);
  }

  // The configuration the pass runs with: what was given where it makes sense, and else 5 seconds, 30
  // minutes, 8 retries and a 2 minute lease.
  lemma DefaultsApply(given: Config)
    ensures var c := Normalized(given);
      && c.baseBackoff == (if given.baseBackoff > 0 then given.baseBackoff else 5_000_000_000)
      && c.maxBackoff == (if given.maxBackoff >= c.baseBackoff then given.maxBackoff else 1_800_000_000_000)
      && c.maxRetries == (if given.maxRetries > 0 then given.maxRetries else 8)
      && c.leaseTTL == (if given.leaseTTL > 0 then given.leaseTTL else 120_000_000_000)
  {
  }

  // An item is taken up exactly when it names its transfer and target and its time has come, by asking
  // for a lease; it is resumed exactly when the lease is granted.
  lemma TakenUpIff(
      hash: string -> nat, c: Config, env: Environment, items: seq<WorkItem>, now: int, i: nat)
    requires i < |items| && !AfterItems(hash, c, env, items, i, now).failed
    ensures var own, item := CallsOf(AfterItems(hash, c, env, items, |items|, now).calls, i), items[i];
      && (own == [] <==>
        item.transfer == "" || item.target == "" || (item.nextAttempt > now && item.nextAttempt != 0))
      && (own != [] ==> own[0] == Lease(i, now + c.leaseTTL))
      && (Resume(i) in own <==> own != [] && env.lease(i) == Some(true))
      && (Resume(i) in own ==>
        |own| >= 3 && own[2] == MarkOf(hash, c, item, i, now, env.resume(i).0, env.resume(i).1))
  {
    hide MarkOf, AfterItem;
    EachItemMakesItsCalls(hash, c, env, items, |items|, now, i);
    if env.lease(i) == Some(true) {
      var (o, failed) := env.resume(i);
      MarkIsAMark(hash, c, items[i], i, now, o, failed);
      assert ItemCalls(hash, c, env, items[i], i, now) != [] ==>
        ItemCalls(hash, c, env, items[i], i, now)[1] == Resume(i);
    }
  }
}
