/** Sums over finite sets, whatever order they are taken in. */
module Sums {

  ghost function Sum<T(!new)>(s: set<T>, f: T -> nat): nat
    decreases |s|
  {
    if |s| == 0 then 0 else var x := Choose(s); f(x) + Sum(s - {x}, f)
  }

  ghost function Choose<T(!new)>(s: set<T>): (x: T)
    requires |s| > 0
    ensures x in s
  {
    var x :| x in s; x
  }

  lemma {:induction false} SumRemove<T(!new)>(s: set<T>, f: T -> nat, x: T)
    requires x in s
    ensures Sum(s, f) == f(x) + Sum(s - {x}, f)
    decreases |s|
  {
    var y := Choose(s);
    if y != x {
      SumRemove(s - {y}, f, x);
      assert s - {y} - {x} == s - {x} - {y};
      SumRemove(s - {x}, f, y);
    }
  }

  lemma {:induction false} SumSame<T(!new)>(s: set<T>, f: T -> nat, g: T -> nat)
    requires forall x | x in s :: f(x) == g(x)
    ensures Sum(s, f) == Sum(s, g)
    decreases |s|
  {
    if |s| > 0 { SumSame(s - {Choose(s)}, f, g); }
  }

  /** Changing one term changes the sum by as much. */
  lemma SumPoint<T(!new)>(s: set<T>, f: T -> nat, g: T -> nat, x: T)
    requires x in s && forall y | y in s && y != x :: f(y) == g(y)
    ensures Sum(s, g) - Sum(s, f) == g(x) - f(x)
  {
    SumRemove(s, f, x);
    SumRemove(s, g, x);
    SumSame(s - {x}, f, g);
  }

  lemma {:induction false} SumZero<T(!new)>(s: set<T>, f: T -> nat)
    ensures Sum(s, f) == 0 <==> forall x | x in s :: f(x) == 0
    decreases |s|
  {
    if |s| > 0 {
      var x := Choose(s);
      SumZero(s - {x}, f);
      assert s == (s - {x}) + {x};
    } else {
      assert s == {};
    }
  }
}
