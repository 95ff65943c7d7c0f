/** Go walks a map in any order.  A walk is given as the sequence of the keys. */
module Iteration {

  /** Every name once. */
  ghost predicate IsOrderOf(order: seq<string>, names: set<string>) {
    && (forall n :: n in order <==> n in names)
    && forall i, j | 0 <= i < j < |order| :: order[i] != order[j]
  }

  function ToSet(order: seq<string>): set<string> { set n | n in order }

  lemma {:induction false} OrderLength(order: seq<string>, names: set<string>)
    requires IsOrderOf(order, names)
    ensures |order| == |names|
  {
    if order != [] {
      var name := order[|order| - 1];
      OrderLength(order[..|order| - 1], names - {name});
    } else {
      assert names == {};
    }
  }

  lemma EmptyOrder(order: seq<string>, names: set<string>)
    requires IsOrderOf(order, names)
    ensures order == [] <==> names == {}
  {
    if order != [] {
      assert order[0] in names;
    }
  }

  /** Some walk. */
  method Walk(names: set<string>) returns (order: seq<string>)
    ensures IsOrderOf(order, names)
  {
    order := [];
    var todo := names;
    while todo != {}
      invariant todo <= names && IsOrderOf(order, names - todo)
      decreases |todo|
    {
      var n :| n in todo;
      order := order + [n];
      todo := todo - {n};
    }
  }

  lemma {:induction false} SomeOrder(names: set<string>) returns (order: seq<string>)
    ensures IsOrderOf(order, names)
  {
    order := [];
    if names != {} {
      var n :| n in names;
      var rest := SomeOrder(names - {n});
      order := rest + [n];
    }
  }

  /** Walks that begin and end with a given name. */
  lemma OrderFrom(names: set<string>, first: string) returns (order: seq<string>)
    requires first in names
    ensures IsOrderOf(order, names) && order != [] && order[0] == first
  {
    var rest := SomeOrder(names - {first});
    order := [first] + rest;
  }

  lemma OrderTo(names: set<string>, last: string) returns (order: seq<string>)
    requires last in names
    ensures IsOrderOf(order, names) && order != [] && order[|order| - 1] == last
  {
    var rest := SomeOrder(names - {last});
    order := rest + [last];
  }
}
