/** Finite sums, as the token and evidence accounts use them. */
module Sums {

  ghost function SumOver<T>(s: set<T>, weight: T -> nat): nat {
    if s == {} then 0
    else
      var x :| x in s;
      weight(x) + SumOver(s - {x}, weight)
  }

  lemma {:induction false} SumOverTakes<T>(s: set<T>, x: T, weight: T -> nat)
    requires x in s
    ensures SumOver(s, weight) == weight(x) + SumOver(s - {x}, weight)
    decreases |s|
  {
    var y :| y in s && SumOver(s, weight) == weight(y) + SumOver(s - {y}, weight);
    if y != x {
      SumOverTakes(s - {y}, x, weight);
      SumOverTakes(s - {x}, y, weight);
      assert s - {y} - {x} == s - {x} - {y};
    }
  }

  lemma {:induction false} SumOverGrows<T>(small: set<T>, large: set<T>, weight: T -> nat)
    requires small <= large
    ensures SumOver(small, weight) <= SumOver(large, weight)
    decreases |small|
  {
    if small != {} {
      var x :| x in small;
      SumOverTakes(small, x, weight);
      SumOverTakes(large, x, weight);
      SumOverGrows(small - {x}, large - {x}, weight);
    }
  }

  lemma {:induction false} SumOverSame<T>(s: set<T>, v: T -> nat, w: T -> nat)
    requires forall x | x in s :: v(x) == w(x)
    ensures SumOver(s, v) == SumOver(s, w)
    decreases |s|
  {
    if s != {} {
      var x :| x in s;
      SumOverTakes(s, x, v);
      SumOverTakes(s, x, w);
      SumOverSame(s - {x}, v, w);
    }
  }

  method AddUp<T(==)>(s: set<T>, weight: T -> nat) returns (sum: nat)
    ensures sum == SumOver(s, weight)
  {
    var rest := s;
    sum := 0;
    while rest != {}
      invariant rest <= s && sum + SumOver(rest, weight) == SumOver(s, weight)
      decreases rest
    {
      var x :| x in rest;
      SumOverTakes(rest, x, weight);
      sum := sum + weight(x);
      rest := rest - {x};
    }
  }
}
