/**
 Stable insertion sort by any order, and what every sorted list of this project relies on.
 */
module Sorting {

  // Before the first element that does not come earlier.
  function Insert<T>(less: (T, T) -> bool, x: T, ordered: seq<T>): seq<T> {
    if |ordered| == 0 || !less(ordered[0], x) then [x] + ordered
    else [ordered[0]] + Insert(less, x, ordered[1..])
  }

  // What a stable sort returns.
  function Sort<T>(less: (T, T) -> bool, s: seq<T>): seq<T> {
    if |s| == 0 then [] else Insert(less, s[0], Sort(less, s[1..]))
  }

  ghost predicate WeakOrder<T(!new)>(less: (T, T) -> bool) {
    && (forall x :: !less(x, x))
    && (forall x, y, z :: less(x, y) && less(y, z) ==> less(x, z))
    && (forall x, y, z :: !less(x, y) && !less(y, z) ==> !less(x, z))
  }

  ghost predicate TotalOrder<T(!new)>(less: (T, T) -> bool) {
    WeakOrder(less) && forall x, y :: x == y || less(x, y) || less(y, x)
  }

  // No element after a later one.
  ghost predicate InOrder<T(!new)>(less: (T, T) -> bool, s: seq<T>) {
    forall i, j :: 0 <= i < j < |s| ==> !less(s[j], s[i])
  }

  ghost predicate Strict<T(!new)>(less: (T, T) -> bool, s: seq<T>) {
    forall i, j :: 0 <= i < j < |s| ==> less(s[i], s[j])
  }

  lemma {:induction false} InsertMembers<T>(less: (T, T) -> bool, x: T, ordered: seq<T>)
    ensures multiset(Insert(less, x, ordered)) == multiset(ordered) + multiset{x}
  {
    if |ordered| != 0 && less(ordered[0], x) {
      assert ordered == [ordered[0]] + ordered[1..];
      InsertMembers(less, x, ordered[1..]);
    }
  }

  lemma {:induction false} SortMembers<T>(less: (T, T) -> bool, s: seq<T>)
    ensures multiset(Sort(less, s)) == multiset(s)
  {
    if |s| != 0 {
      assert s == [s[0]] + s[1..];
      SortMembers(less, s[1..]);
      InsertMembers(less, s[0], Sort(less, s[1..]));
    }
  }

  lemma {:induction false} InsertKeepsOrder<T(!new)>(less: (T, T) -> bool, x: T, ordered: seq<T>)
    requires WeakOrder(less) && InOrder(less, ordered)
    ensures InOrder(less, Insert(less, x, ordered))
  {
    if |ordered| == 0 {
    } else if !less(ordered[0], x) {
      assert forall j :: 0 <= j < |ordered| ==> !less(ordered[j], x);
    } else {
      var rest := Insert(less, x, ordered[1..]);
      InsertKeepsOrder(less, x, ordered[1..]);
      InsertMembers(less, x, ordered[1..]);
      forall j | 0 <= j < |rest|
        ensures !less(rest[j], ordered[0])
      {
        assert rest[j] in multiset(rest);
        assert rest[j] == x || rest[j] in ordered[1..];
      }
    }
  }

  lemma {:induction false} SortInOrder<T(!new)>(less: (T, T) -> bool, s: seq<T>)
    requires WeakOrder(less)
    ensures InOrder(less, Sort(less, s))
  {
    if |s| != 0 {
      SortInOrder(less, s[1..]);
      InsertKeepsOrder(less, s[0], Sort(less, s[1..]));
    }
  }

  lemma {:induction false} InsertKeepsStrict<T(!new)>(less: (T, T) -> bool, x: T, ordered: seq<T>)
    requires TotalOrder(less) && Strict(less, ordered) && x !in ordered
    ensures Strict(less, Insert(less, x, ordered))
    ensures |Insert(less, x, ordered)| == |ordered| + 1
    ensures forall y :: y in Insert(less, x, ordered) <==> y == x || y in ordered
  {
    if |ordered| != 0 {
      if less(ordered[0], x) {
        InsertKeepsStrict(less, x, ordered[1..]);
        assert ordered == [ordered[0]] + ordered[1..];
        var rest := Insert(less, x, ordered[1..]);
        forall j | 0 <= j < |rest|
          ensures less(ordered[0], rest[j])
        {
          assert rest[j] in rest;
        }
      } else {
        assert less(x, ordered[0]);
      }
    }
  }

  // Distinct elements come out strictly in order.
  lemma {:induction false} SortIsStrict<T(!new)>(less: (T, T) -> bool, s: seq<T>)
    requires TotalOrder(less) && forall i, j :: 0 <= i < j < |s| ==> s[i] != s[j]
    ensures Strict(less, Sort(less, s)) && |Sort(less, s)| == |s|
    ensures forall x :: x in Sort(less, s) <==> x in s
  {
    if |s| != 0 {
      SortIsStrict(less, s[1..]);
      assert s == [s[0]] + s[1..];
      InsertKeepsStrict(less, s[0], Sort(less, s[1..]));
    }
  }

  lemma HeadIsNotInTail<T(!new)>(less: (T, T) -> bool, s: seq<T>)
    requires WeakOrder(less) && Strict(less, s) && s != []
    ensures forall x :: x in s[1..] <==> x in s && x != s[0]
  {
    assert s == [s[0]] + s[1..];
  }

  // A strictly ordered list is determined by its elements.
  lemma {:induction false} StrictIsUnique<T(!new)>(less: (T, T) -> bool, a: seq<T>, b: seq<T>)
    requires WeakOrder(less) && Strict(less, a) && Strict(less, b)
    requires forall x :: x in a <==> x in b
    ensures a == b
  {
    if b != [] {
      assert b[0] in b;
    }
    if a != [] {
      assert a[0] in b;
      var j :| 0 <= j < |b| && b[j] == a[0];
      assert b[0] in a;
      var i :| 0 <= i < |a| && a[i] == b[0];
      assert i == 0 || j == 0;
      HeadIsNotInTail(less, a);
      HeadIsNotInTail(less, b);
      assert a == [a[0]] + a[1..] && b == [b[0]] + b[1..];
      StrictIsUnique(less, a[1..], b[1..]);
    }
  }
}
