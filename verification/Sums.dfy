/** Sums over tables and over sets of row ids. */
module Sums {
  function Sum<T>(s: seq<T>, f: T -> int): int {
    if |s| == 0 then 0 else Sum(s[..|s| - 1], f) + f(s[|s| - 1])
  }

  lemma {:induction false} SumAppend<T>(s: seq<T>, x: T, f: T -> int)
    ensures Sum(s + [x], f) == Sum(s, f) + f(x)
  {
    assert (s + [x])[..|s|] == s;
  }

  lemma {:induction false} SumUpdate<T>(s: seq<T>, i: nat, x: T, f: T -> int)
    requires i < |s|
    ensures Sum(s[i := x], f) == Sum(s, f) - f(s[i]) + f(x)
  {
    var n := |s| - 1;
    if i == n {
      assert s[i := x][..n] == s[..n];
    } else {
      assert s[i := x][..n] == s[..n][i := x];
      SumUpdate(s[..n], i, x, f);
    }
  }

  lemma {:induction false} SumNonNegative<T>(s: seq<T>, f: T -> int)
    requires forall i | 0 <= i < |s| :: 0 <= f(s[i])
    ensures 0 <= Sum(s, f)
    ensures forall i | 0 <= i < |s| :: f(s[i]) <= Sum(s, f)
  {
    if |s| > 0 {
      var n := |s| - 1;
      assert forall i | 0 <= i < n :: s[..n][i] == s[i];
      SumNonNegative(s[..n], f);
      assert forall i | 0 <= i < n :: f(s[i]) == f(s[..n][i]);
    }
  }

  ghost function SumSet(s: set<nat>, f: nat -> int): int
    decreases |s|
  {
    if s == {} then 0
    else
      var x :| x in s;
      f(x) + SumSet(s - {x}, f)
  }

  /** The order in which a set is summed does not matter. */
  lemma {:induction false} SumSetRemove(s: set<nat>, x: nat, f: nat -> int)
    requires x in s
    ensures SumSet(s, f) == f(x) + SumSet(s - {x}, f)
    decreases |s|
  {
    var y :| y in s && SumSet(s, f) == f(y) + SumSet(s - {y}, f);
    if y != x {
      SumSetRemove(s - {y}, x, f);
      SumSetRemove(s - {x}, y, f);
      assert s - {y} - {x} == s - {x} - {y};
    }
  }

  lemma {:induction false} SumSetPlus(s: set<nat>, f: nat -> int, g: nat -> int, h: nat -> int)
    requires forall x | x in s :: h(x) == f(x) + g(x)
    ensures SumSet(s, h) == SumSet(s, f) + SumSet(s, g)
    decreases |s|
  {
    if s != {} {
      var x :| x in s;
      SumSetRemove(s, x, f);
      SumSetRemove(s, x, g);
      SumSetRemove(s, x, h);
      SumSetPlus(s - {x}, f, g, h);
    }
  }

  lemma {:induction false} SumSetZero(s: set<nat>, f: nat -> int)
    requires forall x | x in s :: f(x) == 0
    ensures SumSet(s, f) == 0
    decreases |s|
  {
    if s != {} {
      var x :| x in s;
      SumSetRemove(s, x, f);
      SumSetZero(s - {x}, f);
    }
  }

  lemma {:induction false} SumSetEqual(s: set<nat>, f: nat -> int, g: nat -> int)
    requires forall x | x in s :: f(x) == g(x)
    ensures SumSet(s, f) == SumSet(s, g)
    decreases |s|
  {
    if s != {} {
      var x :| x in s;
      SumSetRemove(s, x, f);
      SumSetRemove(s, x, g);
      SumSetEqual(s - {x}, f, g);
    }
  }
}
