/**
 The fixed-window rate limiter: how much it lets through in any minute, and what its answers depend
 on. Times are nanoseconds; a window whose reset time is zero is no window.
 */
module RateLimit {
  const SECOND: nat := 1000000000
  const MINUTE: nat := 60 * SECOND

  datatype Window = Window(count: nat, reset: nat)

  datatype Call = Call(key: string, now: nat)

  const NO_WINDOW := Window(0, 0)

  function WindowOf(windows: map<string, Window>, key: string): Window {
    if key in windows then windows[key] else NO_WINDOW
  }

  // The window after one more call in it.
  function Hit(w: Window, now: nat): Window {
    if w.reset == 0 || now >= w.reset then Window(1, now + MINUTE) else Window(w.count + 1, w.reset)
  }

  class FixedWindowLimiter {
    const limit: int
    var windows: map<string, Window>

    constructor (limit: int)
      ensures this.limit == limit && windows == map[]
    {
      this.limit := limit;
      windows := map[];
    }

    method Allow(key: string, now: nat) returns (allowed: bool, retryAfter: int)
      modifies this
      ensures windows == old(windows)[key := Hit(WindowOf(old(windows), key), now)]
      ensures allowed <==> Hit(WindowOf(old(windows), key), now).count <= limit
      ensures retryAfter == Hit(WindowOf(old(windows), key), now).reset - now
    {
      var window := if key in windows then windows[key] else NO_WINDOW;
      if window.reset == 0 || now >= window.reset {
        window := Window(0, now + MINUTE);
      }
      window := window.(count := window.count + 1);
      windows := windows[key := window];
      return window.count <= limit, window.reset - now;
    }
  }

  // ---- counting what was allowed ----

  predicate InMinute(now: nat, t: int) {
    t <= now < t + MINUTE
  }

  // The calls on a key that are allowed within the minute from t, all calls in order.
  function AllowedFor(limit: int, windows: map<string, Window>, calls: seq<Call>, key: string, t: int): nat
    decreases |calls|
  {
    if calls == [] then 0
    else
      var call := calls[0];
      var w := Hit(WindowOf(windows, call.key), call.now);
      var counted := if call.key == key && InMinute(call.now, t) && w.count <= limit then 1 else 0;
      counted + AllowedFor(limit, windows[call.key := w], calls[1..], key, t)
  }

  function Times(calls: seq<Call>, key: string): seq<nat> {
    if calls == [] then []
    else (if calls[0].key == key then [calls[0].now] else []) + Times(calls[1..], key)
  }

  // The same for the calls of one key alone.
  function AllowedIn(limit: int, w: Window, times: seq<nat>, t: int): nat
    decreases |times|
  {
    if times == [] then 0
    else
      var next := Hit(w, times[0]);
      (if InMinute(times[0], t) && next.count <= limit then 1 else 0) + AllowedIn(limit, next, times[1..], t)
  }

  // Calls on other keys never change the answers for this one.
  lemma {:induction false} OtherKeysDoNotMatter(
      limit: int, windows: map<string, Window>, calls: seq<Call>, key: string, t: int)
    ensures AllowedFor(limit, windows, calls, key, t)
         == AllowedIn(limit, WindowOf(windows, key), Times(calls, key), t)
    decreases |calls|
  {
    if calls != [] {
      var call := calls[0];
      var next := windows[call.key := Hit(WindowOf(windows, call.key), call.now)];
      OtherKeysDoNotMatter(limit, next, calls[1..], key, t);
      assert call.key == key ==> Times(calls, key)[1..] == Times(calls[1..], key);
      assert call.key != key ==> Times(calls, key) == Times(calls[1..], key);
    }
  }

  ghost predicate NonDecreasing(times: seq<nat>) {
    forall i, j :: 0 <= i < j < |times| ==> times[i] <= times[j]
  }

  function Slots(limit: int, count: nat): nat {
    if count >= limit then 0 else limit - count
  }

  // What one minute can still let through, by where the current window ends relative to it.
  function Allowance(limit: int, w: Window, t: int): nat {
    if t + MINUTE <= w.reset then Slots(limit, w.count)
    else if t < w.reset then Slots(limit, w.count) + Slots(limit, 0)
    else if limit <= 0 then 0
    else 2 * limit - 1
  }

  lemma {:induction false} NothingAfterTheMinute(limit: int, w: Window, times: seq<nat>, t: int)
    requires forall i :: 0 <= i < |times| ==> times[i] >= t + MINUTE
    ensures AllowedIn(limit, w, times, t) == 0
    decreases |times|
  {
    if times != [] {
      NothingAfterTheMinute(limit, Hit(w, times[0]), times[1..], t);
    }
  }

  lemma {:induction false} AllowedWithinAllowance(limit: int, w: Window, times: seq<nat>, t: int)
    requires NonDecreasing(times) && t >= 0 && (w.reset == 0 ==> w.count == 0)
    ensures AllowedIn(limit, w, times, t) <= Allowance(limit, w, t)
    decreases |times|
  {
    if times != [] {
      var next := Hit(w, times[0]);
      if times[0] >= t + MINUTE {
        NothingAfterTheMinute(limit, w, times, t);
      } else {
        AllowedWithinAllowance(limit, next, times[1..], t);
      }
    }
  }

  // In every run with a clock that never goes back, any minute lets through at most one call less than
  // twice the limit, whatever happens on other keys.
  lemma MinuteLetsThroughLessThanTwice(limit: int, calls: seq<Call>, key: string, t: nat)
    requires forall i, j :: 0 <= i < j < |calls| ==> calls[i].now <= calls[j].now
    ensures AllowedFor(limit, map[], calls, key, t) <= if limit <= 0 then 0 else 2 * limit - 1
  {
    OtherKeysDoNotMatter(limit, map[], calls, key, t);
    TimesNonDecreasing(calls, key, 0);
    AllowedWithinAllowance(limit, NO_WINDOW, Times(calls, key), t);
  }

  lemma {:induction false} TimesNonDecreasing(calls: seq<Call>, key: string, low: nat)
    requires forall i, j :: 0 <= i < j < |calls| ==> calls[i].now <= calls[j].now
    requires forall i :: 0 <= i < |calls| ==> low <= calls[i].now
    ensures NonDecreasing(Times(calls, key)) && forall x :: x in Times(calls, key) ==> low <= x
  {
    if calls != [] {
      TimesNonDecreasing(calls[1..], key, calls[0].now);
      assert forall i :: 0 <= i < |Times(calls[1..], key)| ==> Times(calls[1..], key)[i] in Times(calls[1..], key);
    }
  }

  // ---- the bound is attained ----

  function Burst(n: nat, now: nat): seq<nat> {
    seq(n, _ => now)
  }

  lemma {:induction false} BurstIsAllowed(limit: int, w: Window, n: nat, now: nat, t: int, rest: seq<nat>)
    requires 0 < w.reset && now < w.reset && InMinute(now, t) && w.count + n <= limit
    ensures AllowedIn(limit, w, Burst(n, now) + rest, t) == n + AllowedIn(limit, Window(w.count + n, w.reset), rest, t)
    decreases n
  {
    if n == 0 {
      assert Burst(0, now) + rest == rest;
    } else {
      BurstIsAllowed(limit, Window(w.count + 1, w.reset), n - 1, now, t, rest);
      assert (Burst(n, now) + rest)[1..] == Burst(n - 1, now) + rest;
    }
  }

  // One call opens a window; the others of its limit come at its very end and a full limit right after.
  lemma BoundIsAttained(limit: int)
    requires limit >= 1
    ensures var times := [0] + (Burst(limit - 1, MINUTE - 1) + Burst(limit, MINUTE));
      NonDecreasing(times) && AllowedIn(limit, NO_WINDOW, times, MINUTE - 1) == 2 * limit - 1
  {
    var second := Burst(limit, MINUTE);
    var rest := Burst(limit - 1, MINUTE - 1) + second;
    assert ([0] + rest)[1..] == rest;
    BurstIsAllowed(limit, Window(1, MINUTE), limit - 1, MINUTE - 1, MINUTE - 1, second);
    assert second[1..] == Burst(limit - 1, MINUTE) + [];
    BurstIsAllowed(limit, Window(1, 2 * MINUTE), limit - 1, MINUTE, MINUTE - 1, []);
  }

  // ---- one window ----

  // Within one window at most the limit is allowed: the calls that find it with this many slots left.
  lemma {:induction false} WindowLetsThroughItsSlots(limit: int, w: Window, times: seq<nat>, t: int)
    requires forall i :: 0 <= i < |times| ==> times[i] < w.reset
    ensures AllowedIn(limit, w, times, t) <= Slots(limit, w.count)
    decreases |times|
  {
    if times != [] {
      WindowLetsThroughItsSlots(limit, Hit(w, times[0]), times[1..], t);
    }
  }

  // ---- retrying ----

  function RetryAfterSeconds(retryAfter: int): int
    requires retryAfter >= 0
  {
    if retryAfter / SECOND < 1 then 1 else retryAfter / SECOND
  }

  // A refused caller that waits as long as told and comes back first is allowed.
  lemma WaitingSuffices(limit: int, w: Window, now: nat)
    requires limit >= 1
    ensures var next := Hit(w, now);
      && 0 < next.reset - now && (w.reset <= now || w.reset - now <= MINUTE ==> next.reset - now <= MINUTE)
      && Hit(next, next.reset).count <= limit
  {
  }

  // The header drops the fraction of a second: waiting for it suffices exactly when there is none, or
  // less than one second is left.
  lemma HeaderSufficesIff(limit: int, w: Window, now: nat)
    requires limit >= 1 && Hit(w, now).count > limit
    ensures var next := Hit(w, now);
      var left := next.reset - now;
      Hit(next, now + RetryAfterSeconds(left) * SECOND).count <= limit <==> left % SECOND == 0 || left < SECOND
  {
    var next := Hit(w, now);
    var left := next.reset - now;
    var seconds := left / SECOND;
    assert left == seconds * SECOND + left % SECOND;
    if left < SECOND {
      assert seconds == 0;
    } else {
      assert seconds >= 1;
    }
  }

  // The failing case is reachable: two calls a nanosecond apart with a limit of one, and a third that
  // comes back when the header says.
  lemma HeaderMisleads(key: string)
    ensures var first := Hit(WindowOf(map[], key), 0);
      var second := Hit(WindowOf(map[key := first], key), 1);
      && first.count <= 1 < second.count
      && RetryAfterSeconds(second.reset - 1) == 59
      && Hit(second, 1 + 59 * SECOND).count > 1
  {
    assert (MINUTE - 1) / SECOND == 59;
  }
}
