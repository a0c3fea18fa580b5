/**
 Sums of a function over a finite set, with the few laws the accounting proofs need.
 */
module SetSum {

  ghost function Sum<T(!new)>(s: set<T>, f: T -> int): int
  {
    if s == {} then 0
    else
      var x :| x in s;
      f(x) + Sum(s - {x}, f)
  }

  lemma {:induction false} SumRemove<T(!new)>(s: set<T>, f: T -> int, x: T)
    requires x in s
    ensures Sum(s, f) == f(x) + Sum(s - {x}, f)
    decreases s
  {
    var y :| y in s && Sum(s, f) == f(y) + Sum(s - {y}, f);
    if y != x {
      SumRemove(s - {y}, f, x);
      SumRemove(s - {x}, f, y);
      assert s - {y} - {x} == s - {x} - {y};
    }
  }

  lemma {:induction false} SumAdd<T(!new)>(s: set<T>, f: T -> int, x: T)
    requires x !in s
    ensures Sum(s + {x}, f) == Sum(s, f) + f(x)
  {
    SumRemove(s + {x}, f, x);
    assert s + {x} - {x} == s;
  }

  lemma {:induction false} SumEqual<T(!new)>(s: set<T>, f: T -> int, g: T -> int)
    requires forall x :: x in s ==> f(x) == g(x)
    ensures Sum(s, f) == Sum(s, g)
    decreases s
  {
    if s != {} {
      var x :| x in s;
      SumRemove(s, f, x);
      SumRemove(s, g, x);
      SumEqual(s - {x}, f, g);
    }
  }

  lemma {:induction false} SumDisjoint<T(!new)>(s: set<T>, t: set<T>, f: T -> int)
    requires s !! t
    ensures Sum(s + t, f) == Sum(s, f) + Sum(t, f)
    decreases t
  {
    if t == {} {
      assert s + t == s;
    } else {
      var x :| x in t;
      SumDisjoint(s, t - {x}, f);
      assert s + t - {x} == s + (t - {x});
      SumRemove(s + t, f, x);
      SumRemove(t, f, x);
    }
  }

  lemma {:induction false} SumNonNegative<T(!new)>(s: set<T>, f: T -> int)
    requires forall x :: x in s ==> f(x) >= 0
    ensures Sum(s, f) >= 0
    decreases s
  {
    if s != {} {
      var x :| x in s;
      SumRemove(s, f, x);
      SumNonNegative(s - {x}, f);
    }
  }

  lemma {:induction false} SumSubset<T(!new)>(s: set<T>, t: set<T>, f: T -> int)
    requires s <= t
    requires forall x :: x in t ==> f(x) >= 0
    ensures Sum(s, f) <= Sum(t, f)
  {
    SumDisjoint(s, t - s, f);
    assert s + (t - s) == t;
    SumNonNegative(t - s, f);
  }

  ghost function Image<S(!new), T(!new)>(s: set<S>, g: S -> T): set<T> {
    set x | x in s :: g(x)
  }

  // Re-indexing a sum along an injective renaming.
  lemma {:induction false} SumImage<S(!new), T(!new)>(s: set<S>, g: S -> T, f: T -> int, h: S -> int)
    requires forall x, y :: x in s && y in s && g(x) == g(y) ==> x == y
    requires forall x :: x in s ==> h(x) == f(g(x))
    ensures Sum(Image(s, g), f) == Sum(s, h)
    decreases s
  {
    if s == {} {
      assert Image(s, g) == {};
    } else {
      var x :| x in s;
      SumImage(s - {x}, g, f, h);
      assert Image(s, g) - {g(x)} == Image(s - {x}, g);
      SumRemove(Image(s, g), f, g(x));
      SumRemove(s, h, x);
    }
  }
}
