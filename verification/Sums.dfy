/**
 Sums of integer-valued functions over finite sets, the form in which the balance queries
 (`SELECT SUM(...) WHERE ...`) are stated.
 */
module Sums {

  ghost function SumOver<T(!new)>(s: set<T>, f: T -> int): int
  {
    if s == {} then 0
    else
      var x :| x in s;
      f(x) + SumOver(s - {x}, f)
  }

  /** Any element can be taken out first: the sum does not depend on the order of the rows. */
  lemma {:induction false} SumRemove<T(!new)>(s: set<T>, f: T -> int, x: T)
    requires x in s
    ensures SumOver(s, f) == f(x) + SumOver(s - {x}, f)
    decreases s
  {
    var y :| y in s && SumOver(s, f) == f(y) + SumOver(s - {y}, f);
    if x != y {
      SumRemove(s - {y}, f, x);
      SumRemove(s - {x}, f, y);
      assert s - {y} - {x} == s - {x} - {y};
    }
  }

  /** Two functions that agree on the set have the same sum over it. */
  lemma {:induction false} SumCongruence<T(!new)>(s: set<T>, f: T -> int, g: T -> int)
    requires forall x :: x in s ==> f(x) == g(x)
    ensures SumOver(s, f) == SumOver(s, g)
    decreases s
  {
    if s != {} {
      var x :| x in s;
      SumRemove(s, f, x);
      SumRemove(s, g, x);
      SumCongruence(s - {x}, f, g);
    }
  }
}
