/** Finite sets listed in some order. */
module Listings {
  // Storage and dictionaries promise no more.

  /** `xs` holds every element of `s`, once. */
  ghost predicate Lists<T(!new)>(xs: seq<T>, s: set<T>) {
    (forall x :: x in xs <==> x in s) && forall i, j :: 0 <= i < j < |xs| ==> xs[i] != xs[j]
  }

  ghost function Listing<T(!new)>(s: set<T>): (xs: seq<T>)
    ensures Lists(xs, s)
  {
    if s == {} then []
    else
      var x :| x in s;
      [x] + Listing(s - {x})
  }

  lemma SomeElement<T>(xs: seq<T>) returns (x: T)
    requires xs != []
    ensures x in xs
  {
    x := xs[0];
  }

  lemma ListsFewer<T(!new)>(order: seq<T>, s: set<T>)
    requires Lists(order, s) && |order| > 0
    ensures var last := order[|order| - 1];
            last in s && Lists(order[..|order| - 1], s - {last}) && |s| == |s - {last}| + 1
  {
    var n := |order| - 1;
    assert order == order[..n] + [order[n]];
    assert order[n] in order;
  }

  lemma {:induction false} ListsLength<T(!new)>(order: seq<T>, s: set<T>)
    requires Lists(order, s)
    ensures |order| == |s|
    decreases |order|
  {
    if |order| == 0 {
      assert s == {};
    } else {
      ListsFewer(order, s);
      ListsLength(order[..|order| - 1], s - {order[|order| - 1]});
    }
  }
}
