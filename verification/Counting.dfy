/** Counting the elements of a sequence that satisfy a predicate; used to count threads by program counter. */
module Counting {

  function Count<T>(xs: seq<T>, p: T -> bool): nat {
    if xs == [] then 0
    else Count(xs[..|xs| - 1], p) + if p(xs[|xs| - 1]) then 1 else 0
  }

  /** Replacing one element changes the count by that element alone. */
  lemma {:induction false} CountUpdate<T>(xs: seq<T>, i: nat, x: T, p: T -> bool)
    requires i < |xs|
    ensures Count(xs[i := x], p) + (if p(xs[i]) then 1 else 0) == Count(xs, p) + (if p(x) then 1 else 0)
  {
    var last := |xs| - 1;
    if i == last {
      assert xs[i := x][..last] == xs[..last];
    } else {
      assert xs[i := x][..last] == xs[..last][i := x];
      CountUpdate(xs[..last], i, x, p);
    }
  }

  lemma {:induction false} CountNone<T>(xs: seq<T>, p: T -> bool)
    requires forall i :: 0 <= i < |xs| ==> !p(xs[i])
    ensures Count(xs, p) == 0
  {
    if xs == [] {
    } else {
      CountNone(xs[..|xs| - 1], p);
    }
  }

  /** A count is positive exactly when some element satisfies the predicate. */
  lemma {:induction false} CountPositive<T>(xs: seq<T>, p: T -> bool)
    ensures Count(xs, p) > 0 <==> exists i :: 0 <= i < |xs| && p(xs[i])
  {
    if xs == [] {
    } else {
      var init := xs[..|xs| - 1];
      CountPositive(init, p);
      if Count(init, p) > 0 {
        var i :| 0 <= i < |init| && p(init[i]);
        assert p(xs[i]);
      } else if p(xs[|xs| - 1]) {
      } else {
        forall i | 0 <= i < |xs| ensures !p(xs[i]) {
          if i < |init| { assert xs[i] == init[i]; }
        }
      }
    }
  }
}
