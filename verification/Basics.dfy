/** The optional value shared by the modules of this project. */
module Basics {
  datatype Option<+T> = None | Some(value: T)
}

/** Ranging over a map or a set produces its elements once each, in any order. */
module Iteration {
  predicate Distinct(s: seq<string>) {
    forall i, j :: 0 <= i < j < |s| ==> s[i] != s[j]
  }

  ghost predicate Orders(order: seq<string>, keys: set<string>) {
    Distinct(order) && forall k :: k in keys <==> k in order
  }

  lemma SomeOrder(keys: set<string>) returns (order: seq<string>)
    ensures Orders(order, keys)
  {
    order := [];
    var left := keys;
    while left != {}
      invariant left <= keys && Orders(order, keys - left)
    {
      var k :| k in left;
      order, left := order + [k], left - {k};
    }
  }

  lemma SomeOrderOf(keys: set<string>)
    ensures exists order :: Orders(order, keys)
  {
    var order := SomeOrder(keys);
  }
}
