/**
 Keyset pagination: a stateless cursor over a list that may grow between the calls, in the message
 service's form and in the transfer store's look-ahead form, and the read cursor.
 */
module Paging {
  import opened Wrappers
  import Lex
  import Sorting

  // A zero time means no time, as the language's zero value does.
  datatype Message = Message(id: string, createdAt: int)

  datatype Cursor = Cursor(createdAt: int, id: string)

  const NO_CURSOR := Cursor(0, "")

  function KeyOf(m: Message): Cursor {
    Cursor(m.createdAt, m.id)
  }

  // The later key; pages list later keys first.
  predicate Later(a: Cursor, b: Cursor) {
    a.createdAt > b.createdAt || (a.createdAt == b.createdAt && Lex.Less(b.id, a.id))
  }

  predicate Before(a: Message, b: Message) {
    Later(KeyOf(a), KeyOf(b))
  }

  lemma LaterIsStrictTotal(a: Cursor, b: Cursor, c: Cursor)
    ensures !Later(a, a)
    ensures a == b || Later(a, b) || Later(b, a)
    ensures Later(a, b) && Later(b, c) ==> Later(a, c)
  {
    Lex.Irreflexive(a.id);
    Lex.Total(a.id, b.id);
    if Lex.Less(b.id, a.id) && Lex.Less(c.id, b.id) {
      Lex.Transitive(c.id, b.id, a.id);
    }
  }

  // ---- sorting ----

  // What a stable descending sort returns.
  function Sorted(messages: seq<Message>): seq<Message> {
    Sorting.Sort(Before, messages)
  }

  ghost predicate DistinctKeys(messages: seq<Message>) {
    forall i, j :: 0 <= i < j < |messages| ==> messages[i] != messages[j]
  }

  ghost predicate Descending(messages: seq<Message>) {
    Sorting.Strict(Before, messages)
  }

  lemma BeforeIsTotal()
    ensures Sorting.TotalOrder(Before)
  {
    forall a, b, c: Message
      ensures !Before(a, a) && (a == b || Before(a, b) || Before(b, a))
      ensures Before(a, b) && Before(b, c) ==> Before(a, c)
      ensures !Before(a, b) && !Before(b, c) ==> !Before(a, c)
    {
      LaterIsStrictTotal(KeyOf(a), KeyOf(b), KeyOf(c));
      LaterIsStrictTotal(KeyOf(b), KeyOf(c), KeyOf(a));
      LaterIsStrictTotal(KeyOf(a), KeyOf(c), KeyOf(b));
    }
  }

  lemma SortedIsDescending(messages: seq<Message>)
    requires DistinctKeys(messages)
    ensures var r := Sorted(messages);
      Descending(r) && |r| == |messages| && forall x :: x in r <==> x in messages
  {
    BeforeIsTotal();
    Sorting.SortIsStrict(Before, messages);
  }

  // A descending list is determined by its elements.
  lemma DescendingIsUnique(a: seq<Message>, b: seq<Message>)
    requires Descending(a) && Descending(b)
    requires forall m :: m in a <==> m in b
    ensures a == b
  {
    BeforeIsTotal();
    Sorting.StrictIsUnique(Before, a, b);
  }

  // ---- one page ----

  // A message at or before the cursor in the listing has been returned already.
  predicate Skipped(after: Cursor, m: Message) {
    after.createdAt != 0 && !Later(after, KeyOf(m))
  }

  function Unskipped(ordered: seq<Message>, after: Cursor): seq<Message> {
    if ordered == [] then []
    else
      var last := ordered[|ordered| - 1];
      Unskipped(ordered[..|ordered| - 1], after) + (if Skipped(after, last) then [] else [last])
  }

  // Everything still to be listed after the cursor.
  function Rest(messages: seq<Message>, after: Cursor): seq<Message> {
    Unskipped(Sorted(messages), after)
  }

  lemma {:induction false} UnskippedKeepsOrder(ordered: seq<Message>, after: Cursor)
    requires Descending(ordered)
    ensures var r := Unskipped(ordered, after);
      Descending(r) && forall m :: m in r <==> m in ordered && !Skipped(after, m)
  {
    if ordered != [] {
      var n := |ordered| - 1;
      UnskippedKeepsOrder(ordered[..n], after);
      assert ordered == ordered[..n] + [ordered[n]];
      var init := Unskipped(ordered[..n], after);
      forall i | 0 <= i < |init|
        ensures Before(init[i], ordered[n])
      {
        assert init[i] in init;
      }
    }
  }

  lemma RestIsDescending(messages: seq<Message>, after: Cursor)
    requires DistinctKeys(messages)
    ensures var r := Rest(messages, after);
      Descending(r) && forall m :: m in r <==> m in messages && !Skipped(after, m)
  {
    SortedIsDescending(messages);
    UnskippedKeepsOrder(Sorted(messages), after);
  }

  lemma {:induction false} NothingSkipped(ordered: seq<Message>, after: Cursor)
    requires after.createdAt == 0
    ensures Unskipped(ordered, after) == ordered
  {
    if ordered != [] {
      NothingSkipped(ordered[..|ordered| - 1], after);
      assert ordered == ordered[..|ordered| - 1] + [ordered[|ordered| - 1]];
    }
  }

  function EffectiveLimit(limit: int): (n: nat)
    ensures 1 <= n <= 1000
  {
    if limit < 1 || limit > 1000 then 100 else limit
  }

  function Take(s: seq<Message>, n: nat): seq<Message> {
    if |s| <= n then s else s[..n]
  }

  // Where the next page starts: after a full page, or with look-ahead only if there is more.
  function NextCursor(rest: seq<Message>, limit: nat, lookAhead: bool): Cursor
    requires limit > 0
  {
    if |rest| < limit || (lookAhead && |rest| == limit) then NO_CURSOR else KeyOf(rest[limit - 1])
  }

  method Page(messages: seq<Message>, after: Cursor, limit: int) returns (result: seq<Message>, next: Cursor)
    ensures result == Take(Rest(messages, after), EffectiveLimit(limit))
    ensures next == NextCursor(Rest(messages, after), EffectiveLimit(limit), false)
  {
    hide Skipped, Sorted, Unskipped;
    var bound := if limit < 1 || limit > 1000 then 100 else limit;
    var ordered := Sorted(messages);
    result := [];
    assert Unskipped(ordered[..0], after) == [] by { NothingUnskipped(after); }
    var i := 0;
    while i < |ordered| && |result| < bound
      invariant 0 <= i <= |ordered| && |result| <= bound
      invariant result == Unskipped(ordered[..i], after)
    {
      NextUnskipped(ordered, after, i);
      if !Skipped(after, ordered[i]) {
        result := result + [ordered[i]];
      }
      i := i + 1;
    }
    UnskippedPrefix(ordered, after, i);
    assert i == |ordered| ==> ordered[..i] == ordered;
    if |result| == 0 || |result| < bound {
      return result, NO_CURSOR;
    }
    var last := result[|result| - 1];
    return result, Cursor(last.createdAt, last.id);
  }

  lemma NothingUnskipped(after: Cursor)
    ensures Unskipped([], after) == []
  {
  }

  lemma NextUnskipped(ordered: seq<Message>, after: Cursor, i: nat)
    requires i < |ordered|
    ensures Unskipped(ordered[..i + 1], after)
      == Unskipped(ordered[..i], after) + (if Skipped(after, ordered[i]) then [] else [ordered[i]])
  {
    assert ordered[..i + 1][..i] == ordered[..i];
  }

  lemma {:induction false} UnskippedPrefix(ordered: seq<Message>, after: Cursor, n: nat)
    requires n <= |ordered|
    ensures Unskipped(ordered[..n], after) <= Unskipped(ordered, after)
    decreases |ordered|
  {
    if n == |ordered| {
      assert ordered[..n] == ordered;
    } else {
      UnskippedPrefix(ordered[..|ordered| - 1], after, n);
      assert ordered[..|ordered| - 1][..n] == ordered[..n];
    }
  }

  // The transfer list reads one row more than asked for.
  method ListTransferPage(tasks: seq<Message>, visible: Message -> bool, after: Cursor, limit: int)
    returns (r: Option<(seq<Message>, Cursor)>)
    ensures r.Some? <==> 1 <= limit <= 100
    ensures r.Some? ==>
      r.value == (Take(Rest(Filtered(tasks, visible), after), limit),
                  NextCursor(Rest(Filtered(tasks, visible), after), limit, true))
  {
    if limit < 1 || limit > 100 {
      return None;
    }
    var rest := Rest(Filtered(tasks, visible), after);
    var keys := Take(rest, limit + 1);
    var next := NO_CURSOR;
    if |keys| > limit {
      assert keys[..limit] == rest[..limit];
      next := KeyOf(keys[limit - 1]);
      keys := keys[..limit];
    }
    return Some((keys, next));
  }

  function Filtered(tasks: seq<Message>, visible: Message -> bool): seq<Message> {
    if tasks == [] then []
    else (if visible(tasks[0]) then [tasks[0]] else []) + Filtered(tasks[1..], visible)
  }

  // ---- walking ----

  // Call after call with the cursor of the last one, each on the list as it then is, until a call
  // returns no cursor: what was listed, and whether the walk has ended.
  function Walk(lists: seq<seq<Message>>, after: Cursor, limit: nat, lookAhead: bool): (seq<Message>, bool)
    requires limit > 0
    decreases |lists|
  {
    if lists == [] then ([], false)
    else
      var rest := Rest(lists[0], after);
      var next := NextCursor(rest, limit, lookAhead);
      if next.createdAt == 0 then (Take(rest, limit), true)
      else
        var (more, ended) := Walk(lists[1..], next, limit, lookAhead);
        (Take(rest, limit) + more, ended)
  }

  ghost predicate ProperList(messages: seq<Message>) {
    DistinctKeys(messages) && forall m :: m in messages ==> m.createdAt != 0
  }

  // Nothing disappears, and whatever appears is newer than the cursor then in use.
  ghost predicate GrowsAhead(lists: seq<seq<Message>>, after: Cursor, limit: nat, lookAhead: bool)
    requires limit > 0
    decreases |lists|
  {
    |lists| > 1 ==>
      var next := NextCursor(Rest(lists[0], after), limit, lookAhead);
      && (forall m :: m in lists[0] ==> m in lists[1])
      && (next.createdAt != 0 ==> forall m :: m in lists[1] && m !in lists[0] ==> Skipped(next, m))
      && (next.createdAt != 0 ==> GrowsAhead(lists[1..], next, limit, lookAhead))
  }

  // The rest after a full page is the rest of the rest.
  lemma RestAfterPage(messages: seq<Message>, grown: seq<Message>, after: Cursor, limit: nat)
    requires DistinctKeys(messages) && DistinctKeys(grown)
    requires 0 < limit <= |Rest(messages, after)|
    requires Rest(messages, after)[limit - 1].createdAt != 0
    requires forall m :: m in messages ==> m in grown
    requires forall m :: m in grown && m !in messages ==> Skipped(KeyOf(Rest(messages, after)[limit - 1]), m)
    ensures Rest(grown, KeyOf(Rest(messages, after)[limit - 1])) == Rest(messages, after)[limit..]
  {
    var rest := Rest(messages, after);
    var last := rest[limit - 1];
    var next := KeyOf(last);
    RestIsDescending(messages, after);
    RestIsDescending(grown, next);
    forall m
      ensures m in Rest(grown, next) <==> m in rest[limit..]
    {
      if m in Rest(grown, next) {
        assert last in rest;
        LaterIsStrictTotal(after, next, KeyOf(m));
        assert m in rest;
        var i :| 0 <= i < |rest| && rest[i] == m;
        LaterIsStrictTotal(next, KeyOf(m), next);
        assert i >= limit;
      }
    }
    DescendingIsUnique(Rest(grown, next), rest[limit..]);
  }

  lemma CursorHasATime(messages: seq<Message>, after: Cursor, limit: nat)
    requires ProperList(messages) && limit > 0
    ensures |Rest(messages, after)| >= limit ==> Rest(messages, after)[limit - 1].createdAt != 0
  {
    RestIsDescending(messages, after);
    var rest := Rest(messages, after);
    assert |rest| >= limit ==> rest[limit - 1] in rest;
  }

  lemma GrownRest(messages: seq<Message>, grown: seq<Message>, after: Cursor, limit: nat)
    requires ProperList(messages) && ProperList(grown) && 0 < limit <= |Rest(messages, after)|
    requires forall m :: m in messages ==> m in grown
    requires forall m :: m in grown && m !in messages ==> Skipped(KeyOf(Rest(messages, after)[limit - 1]), m)
    ensures Rest(grown, KeyOf(Rest(messages, after)[limit - 1])) == Rest(messages, after)[limit..]
  {
    CursorHasATime(messages, after, limit);
    RestAfterPage(messages, grown, after, limit);
  }

  lemma TakeTwice(s: seq<Message>, n: nat, more: nat)
    requires n <= |s|
    ensures Take(s, n) + Take(s[n..], more) == Take(s, more + n)
  {
  }

  // n calls list exactly the first n pages of the list as it was at the start, each message once and
  // in order, however the list grew ahead of the cursor; the walk has ended when they are all listed.
  lemma {:induction false} WalkListsEverythingOnce(
      lists: seq<seq<Message>>, after: Cursor, limit: nat, lookAhead: bool)
    requires limit > 0 && lists != []
    requires forall i :: 0 <= i < |lists| ==> ProperList(lists[i])
    requires GrowsAhead(lists, after, limit, lookAhead)
    ensures var rest := Rest(lists[0], after);
      && Walk(lists, after, limit, lookAhead).0 == Take(rest, |lists| * limit)
      && (Walk(lists, after, limit, lookAhead).1 <==>
        if lookAhead then |rest| <= |lists| * limit else |rest| < |lists| * limit)
    decreases |lists|
  {
    hide Rest, Skipped, ProperList;
    var rest := Rest(lists[0], after);
    var next := NextCursor(rest, limit, lookAhead);
    var left := (|lists| - 1) * limit;
    assert |lists| * limit == left + limit && left >= 0;
    CursorHasATime(lists[0], after, limit);
    if next.createdAt != 0 && |lists| > 1 {
      WalkListsEverythingOnce(lists[1..], next, limit, lookAhead);
      GrownRest(lists[0], lists[1], after, limit);
      TakeTwice(rest, limit, left);
    } else if next.createdAt != 0 {
      assert left == 0;
      assert Walk(lists[1..], next, limit, lookAhead) == ([], false);
    }
  }

  // From the empty cursor: the initial messages, sorted.
  lemma WalkFromTheStart(lists: seq<seq<Message>>, limit: nat, lookAhead: bool)
    requires limit > 0 && lists != []
    requires forall i :: 0 <= i < |lists| ==> ProperList(lists[i])
    requires GrowsAhead(lists, NO_CURSOR, limit, lookAhead)
    ensures var (listed, ended) := Walk(lists, NO_CURSOR, limit, lookAhead);
      && listed == Take(Sorted(lists[0]), |lists| * limit)
      && Descending(listed)
      && (ended ==> |listed| == |lists[0]| && forall m :: m in listed <==> m in lists[0])
      && (|lists| * limit > |lists[0]| ==> ended)
  {
    WalkListsEverythingOnce(lists, NO_CURSOR, limit, lookAhead);
    NothingSkipped(Sorted(lists[0]), NO_CURSOR);
    SortedIsDescending(lists[0]);
  }

  // The look-ahead form lists the same messages and ends one call earlier on full pages.
  lemma BothFormsWalkTheSameList(messages: seq<Message>, calls: nat, limit: nat)
    requires limit > 0 && calls > 0 && ProperList(messages)
    ensures var lists := seq(calls, _ => messages);
      && Walk(lists, NO_CURSOR, limit, false).0 == Walk(lists, NO_CURSOR, limit, true).0
      && (Walk(lists, NO_CURSOR, limit, true).1 <==> |messages| <= calls * limit)
      && (Walk(lists, NO_CURSOR, limit, false).1 <==> |messages| < calls * limit)
  {
    var lists := seq(calls, _ => messages);
    ConstantListGrowsAhead(lists, NO_CURSOR, limit, false);
    ConstantListGrowsAhead(lists, NO_CURSOR, limit, true);
    WalkListsEverythingOnce(lists, NO_CURSOR, limit, false);
    WalkListsEverythingOnce(lists, NO_CURSOR, limit, true);
    NothingSkipped(Sorted(messages), NO_CURSOR);
    SortedIsDescending(messages);
  }

  lemma {:induction false} ConstantListGrowsAhead(
      lists: seq<seq<Message>>, after: Cursor, limit: nat, lookAhead: bool)
    requires limit > 0 && forall i, j :: 0 <= i < j < |lists| ==> lists[i] == lists[j]
    ensures GrowsAhead(lists, after, limit, lookAhead)
    decreases |lists|
  {
    if |lists| > 1 {
      ConstantListGrowsAhead(lists[1..], NextCursor(Rest(lists[0], after), limit, lookAhead), limit, lookAhead);
    }
  }

  // The zero time is the one that breaks a walk: after a full page the next one follows exactly when
  // the last message listed has a time; otherwise its cursor starts over.
  lemma NextPageFollowsIff(messages: seq<Message>, after: Cursor, limit: nat)
    requires DistinctKeys(messages) && 0 < limit <= |Rest(messages, after)|
    ensures var rest := Rest(messages, after);
      Rest(messages, KeyOf(rest[limit - 1])) == rest[limit..] <==> rest[limit - 1].createdAt != 0
  {
    var rest := Rest(messages, after);
    if rest[limit - 1].createdAt != 0 {
      RestAfterPage(messages, messages, after, limit);
    } else {
      NothingSkipped(Sorted(messages), KeyOf(rest[limit - 1]));
      UnskippedIsShorter(Sorted(messages), after);
    }
  }

  lemma {:induction false} UnskippedIsShorter(ordered: seq<Message>, after: Cursor)
    ensures |Unskipped(ordered, after)| <= |ordered|
  {
    if ordered != [] {
      UnskippedIsShorter(ordered[..|ordered| - 1], after);
    }
  }

  // ---- the read cursor ----

  function AdvanceRead(current: Cursor, candidate: Cursor): Cursor {
    if candidate.createdAt > current.createdAt
       || (candidate.createdAt == current.createdAt && Lex.Less(current.id, candidate.id))
    then candidate else current
  }

  function AdvanceAll(current: Cursor, candidates: seq<Cursor>): Cursor {
    if candidates == [] then current
    else AdvanceRead(AdvanceAll(current, candidates[..|candidates| - 1]), candidates[|candidates| - 1])
  }

  // The read cursor is the latest of all it has seen.
  lemma {:induction false} ReadCursorIsTheLatest(current: Cursor, candidates: seq<Cursor>)
    ensures var r := AdvanceAll(current, candidates);
      (r == current || r in candidates) && !Later(current, r) && forall c :: c in candidates ==> !Later(c, r)
  {
    LaterIsStrictTotal(current, current, current);
    if candidates != [] {
      var n := |candidates| - 1;
      ReadCursorIsTheLatest(current, candidates[..n]);
      assert candidates == candidates[..n] + [candidates[n]];
      var before, r := AdvanceAll(current, candidates[..n]), AdvanceAll(current, candidates);
      LaterIsStrictTotal(r, before, r);
      LaterIsStrictTotal(current, r, before);
      forall c | c in candidates
        ensures !Later(c, r)
      {
        LaterIsStrictTotal(c, r, before);
      }
    }
  }

  // So neither the order of the reports nor their repetition matters.
  lemma ReadReportsCommute(current: Cursor, a: seq<Cursor>, b: seq<Cursor>)
    requires forall c :: c in a <==> c in b
    ensures AdvanceAll(current, a) == AdvanceAll(current, b)
  {
    ReadCursorIsTheLatest(current, a);
    ReadCursorIsTheLatest(current, b);
    LaterIsStrictTotal(AdvanceAll(current, a), AdvanceAll(current, b), current);
  }

  // ---- the order and the cursor by their fields ----

  // A page and everything after it run from the latest to the earliest, with later identifiers first
  // among messages of one time; and nothing at or before the cursor is among them.
  lemma RestRunsFromTheLatest(messages: seq<Message>, after: Cursor, i: nat, j: nat)
    requires DistinctKeys(messages) && i < j < |Rest(messages, after)|
    ensures var a, b := Rest(messages, after)[i], Rest(messages, after)[j];
      a.createdAt > b.createdAt || (a.createdAt == b.createdAt && Lex.Less(b.id, a.id))
  {
    RestIsDescending(messages, after);
    assert Before(Rest(messages, after)[i], Rest(messages, after)[j]);
  }

  lemma RestIff(messages: seq<Message>, after: Cursor, m: Message)
    requires DistinctKeys(messages)
    ensures m in Rest(messages, after) <==>
      && m in messages
      && (after.createdAt == 0 || m.createdAt < after.createdAt
          || (m.createdAt == after.createdAt && Lex.Less(m.id, after.id)))
  {
    RestIsDescending(messages, after);
  }

  // Messages come by their limit from 1 to 1000, and by the hundred otherwise.
  lemma LimitApplies(limit: int)
    ensures if 1 <= limit <= 1000 then EffectiveLimit(limit) == limit else EffectiveLimit(limit) == 100
  {
  }

  lemma {:induction false} FilteredIff(tasks: seq<Message>, visible: Message -> bool, m: Message)
    ensures multiset(Filtered(tasks, visible))[m] == if visible(m) then multiset(tasks)[m] else 0
  {
    if tasks != [] {
      FilteredIff(tasks[1..], visible, m);
      assert tasks == [tasks[0]] + tasks[1..];
    }
  }

  // Reading up to a message moves the cursor forwards only, by time and then by identifier.
  lemma ReadingMovesForwards(current: Cursor, candidate: Cursor)
    ensures AdvanceRead(current, candidate) ==
      if candidate.createdAt != current.createdAt then
        if candidate.createdAt > current.createdAt then candidate else current
      else if Lex.Less(candidate.id, current.id) then current
      else candidate
  {
    Lex.Total(current.id, candidate.id);
    if Lex.Less(candidate.id, current.id) && Lex.Less(current.id, candidate.id) {
      Lex.Transitive(candidate.id, current.id, candidate.id);
      Lex.Irreflexive(candidate.id);
    }
  }
}
