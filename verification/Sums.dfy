/** Sizes of and sums over finite sets. */
module Sums {
  lemma {:induction false} SubsetCount<T>(a: set<T>, b: set<T>)
    requires a <= b
    ensures |a| <= |b|
  {
    assert b == a + (b - a);
  }

  ghost function Sum<T(!new)>(s: set<T>, f: T -> int): int {
    if s == {} then 0
    else
      var x :| x in s;
      f(x) + Sum(s - {x}, f)
  }

  lemma {:induction false} SumRemove<T(!new)>(s: set<T>, f: T -> int, x: T)
    requires x in s
    ensures Sum(s, f) == f(x) + Sum(s - {x}, f)
  {
    var y :| y in s && Sum(s, f) == f(y) + Sum(s - {y}, f);
    if y != x {
      SumRemove(s - {y}, f, x);
      SumRemove(s - {x}, f, y);
      assert s - {y} - {x} == s - {x} - {y};
    }
  }

  lemma SumAdd<T(!new)>(s: set<T>, f: T -> int, x: T)
    requires x !in s
    ensures Sum(s + {x}, f) == f(x) + Sum(s, f)
  {
    SumRemove(s + {x}, f, x);
    assert s + {x} - {x} == s;
  }

  lemma {:induction false} SumSame<T(!new)>(s: set<T>, f: T -> int, g: T -> int)
    requires forall x :: x in s ==> f(x) == g(x)
    ensures Sum(s, f) == Sum(s, g)
  {
    if s != {} {
      var x :| x in s;
      SumRemove(s, f, x);
      SumRemove(s, g, x);
      SumSame(s - {x}, f, g);
    }
  }

  lemma OneMore(n: nat, bound: int)
    ensures (n + 1) * bound == n * bound + bound
  {
  }

  lemma {:induction false} SumBounded<T(!new)>(s: set<T>, f: T -> int, bound: int)
    requires forall x :: x in s ==> 0 <= f(x) <= bound
    ensures 0 <= Sum(s, f) <= |s| * bound
  {
    if s != {} {
      var x :| x in s;
      SumRemove(s, f, x);
      SumBounded(s - {x}, f, bound);
      OneMore(|s - {x}|, bound);
    }
  }

  lemma {:induction false} SumNotNegative<T(!new)>(s: set<T>, f: T -> int)
    requires forall x :: x in s ==> 0 <= f(x)
    ensures 0 <= Sum(s, f)
  {
    if s != {} {
      var x :| x in s;
      SumRemove(s, f, x);
      SumNotNegative(s - {x}, f);
    }
  }

  /** Two sums over the same set that differ in one place only. */
  lemma SumChange<T(!new)>(s: set<T>, f: T -> int, g: T -> int, x: T)
    requires x in s && forall y :: y in s && y != x ==> f(y) == g(y)
    ensures Sum(s, g) == Sum(s, f) + g(x) - f(x)
  {
    SumRemove(s, f, x);
    SumRemove(s, g, x);
    SumSame(s - {x}, f, g);
  }
}
