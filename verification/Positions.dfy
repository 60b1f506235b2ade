/** The position of an element in a sequence. */
module Positions {

  function IndexOf<T(==)>(xs: seq<T>, x: T): nat {
    if xs == [] || xs[0] == x then 0 else 1 + IndexOf(xs[1..], x)
  }

  lemma {:induction false} IndexOfIn<T>(xs: seq<T>, x: T)
    requires x in xs
    ensures IndexOf(xs, x) < |xs| && xs[IndexOf(xs, x)] == x
  {
    if xs[0] != x { IndexOfIn(xs[1..], x); }
  }

  lemma {:induction false} IndexOfAt<T>(xs: seq<T>, i: nat)
    requires i < |xs| && forall j, k :: 0 <= j < k < |xs| ==> xs[j] != xs[k]
    ensures IndexOf(xs, xs[i]) == i
  {
    if i > 0 {
      assert xs[1..][i - 1] == xs[i];
      IndexOfAt(xs[1..], i - 1);
    }
  }

  lemma {:induction false} IndexOfGrows<T>(xs: seq<T>, more: seq<T>, x: T)
    requires x in xs
    ensures IndexOf(xs + more, x) == IndexOf(xs, x)
  {
    if xs[0] != x {
      assert (xs + more)[1..] == xs[1..] + more;
      IndexOfGrows(xs[1..], more, x);
    }
  }

  lemma {:induction false} IndexOfNew<T>(xs: seq<T>, x: T)
    requires x !in xs
    ensures IndexOf(xs + [x], x) == |xs|
  {
    if xs != [] {
      assert (xs + [x])[1..] == xs[1..] + [x];
      IndexOfNew(xs[1..], x);
    }
  }
}
