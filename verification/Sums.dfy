/** Sums of an integer function over a finite set. */
module Sums {

  ghost function Sum<T(!new)>(s: set<T>, f: T -> int): int {
    if s == {} then 0 else var x :| x in s; f(x) + Sum(s - {x}, f)
  }

  /** Any element may be taken out first. */
  lemma {:induction false} SumTake<T(!new)>(s: set<T>, f: T -> int, x: T)
    requires x in s
    ensures Sum(s, f) == f(x) + Sum(s - {x}, f)
    decreases s
  {
    var y :| y in s && Sum(s, f) == f(y) + Sum(s - {y}, f);
    if y != x {
      SumTake(s - {y}, f, x);
      SumTake(s - {x}, f, y);
      assert s - {y} - {x} == s - {x} - {y};
    }
  }

  lemma SumAdd<T(!new)>(s: set<T>, f: T -> int, x: T)
    requires x !in s
    ensures Sum(s + {x}, f) == f(x) + Sum(s, f)
  {
    SumTake(s + {x}, f, x);
    assert s + {x} - {x} == s;
  }

  lemma {:induction false} SumSame<T(!new)>(s: set<T>, f: T -> int, g: T -> int)
    requires forall x <- s :: f(x) == g(x)
    ensures Sum(s, f) == Sum(s, g)
    decreases s
  {
    if s != {} {
      var x :| x in s;
      SumTake(s, f, x);
      SumTake(s, g, x);
      SumSame(s - {x}, f, g);
    }
  }

  /** Changing the function at one element changes the sum by that much. */
  lemma SumShift<T(!new)>(s: set<T>, f: T -> int, g: T -> int, x: T)
    requires x in s && forall y <- s :: y != x ==> f(y) == g(y)
    ensures Sum(s, g) == Sum(s, f) + g(x) - f(x)
  {
    SumTake(s, f, x);
    SumTake(s, g, x);
    SumSame(s - {x}, f, g);
  }

  lemma {:induction false} SumLess<T(!new)>(s: set<T>, f: T -> int, g: T -> int)
    requires forall x <- s :: f(x) <= g(x)
    ensures Sum(s, f) <= Sum(s, g)
    decreases s
  {
    if s != {} {
      var x :| x in s;
      SumTake(s, f, x);
      SumTake(s, g, x);
      SumLess(s - {x}, f, g);
    }
  }

  lemma OneTermMore(n: int, c: int)
    ensures (n + 1) * c == n * c + c
  {
  }

  /** If every term is at most c, so is the average. */
  lemma {:induction false} SumAtMost<T(!new)>(s: set<T>, f: T -> int, c: int)
    requires forall x <- s :: f(x) <= c
    ensures Sum(s, f) <= |s| * c
    decreases s
  {
    if s != {} {
      var x :| x in s;
      SumTake(s, f, x);
      SumAtMost(s - {x}, f, c);
      OneTermMore(|s| - 1, c);
    }
  }

  /** If every term is at least c, so is the average. */
  lemma {:induction false} SumAtLeast<T(!new)>(s: set<T>, f: T -> int, c: int)
    requires forall x <- s :: f(x) >= c
    ensures Sum(s, f) >= |s| * c
    decreases s
  {
    if s != {} {
      var x :| x in s;
      SumTake(s, f, x);
      SumAtLeast(s - {x}, f, c);
      OneTermMore(|s| - 1, c);
    }
  }
}
