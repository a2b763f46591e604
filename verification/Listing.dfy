/** The order of the C locale, in which the shell lists names by their characters, as one the takeover is proved for. */
module Listing {
  import opened Iteration
  import opened Takeover
  import opened TakeoverSafety

  predicate Earlier(a: string, b: string) {
    b != [] && (a == [] || a[0] < b[0] || (a[0] == b[0] && Earlier(a[1..], b[1..])))
  }

  /** A name comes before those it begins, and otherwise the first difference decides. */
  lemma {:induction false} EarlierMeans(p: string, a: char, x: string, b: char, y: string)
    ensures Earlier(p, p + [a] + x)
    ensures a < b ==> Earlier(p + [a] + x, p + [b] + y)
    decreases |p|
  {
    if p != [] {
      EarlierMeans(p[1..], a, x, b, y);
      assert (p + [a] + x)[1..] == p[1..] + [a] + x && (p + [b] + y)[1..] == p[1..] + [b] + y;
    }
  }

  lemma {:induction false} EarlierOneWay(a: string, b: string)
    ensures Earlier(a, b) ==> !Earlier(b, a)
  {
    if a != [] && b != [] { EarlierOneWay(a[1..], b[1..]); }
  }

  lemma {:induction false} EarlierOrLater(a: string, b: string)
    requires a != b
    ensures Earlier(a, b) || Earlier(b, a)
  {
    if a != [] && b != [] && a[0] == b[0] {
      assert a == [a[0]] + a[1..] && b == [b[0]] + b[1..];
      EarlierOrLater(a[1..], b[1..]);
    }
  }

  lemma {:induction false} EarlierThrough(a: string, b: string, c: string)
    requires Earlier(a, b) && Earlier(b, c)
    ensures Earlier(a, c)
  {
    if a != [] && a[0] == b[0] && b[0] == c[0] { EarlierThrough(a[1..], b[1..], c[1..]); }
  }

  ghost predicate First(t: set<string>, m: string) {
    m in t && forall n :: n in t && n != m ==> Earlier(m, n)
  }

  lemma {:induction false} SomeFirst(t: set<string>) returns (m: string)
    requires t != {}
    ensures First(t, m)
    decreases t
  {
    m :| m in t;
    if t != {m} {
      var k := SomeFirst(t - {m});
      assert forall n :: n in t ==> n == m || n in t - {m};
      EarlierOrLater(m, k);
      if Earlier(k, m) {
        m := k;
      } else {
        forall n | n in t && n != m
          ensures Earlier(m, n)
        {
          if n != k { EarlierThrough(m, k, n); }
        }
      }
    }
  }

  lemma FirstExists(t: set<string>)
    requires t != {}
    ensures exists m :: First(t, m)
  {
    var m := SomeFirst(t);
  }

  ghost function List(t: set<string>): (names: seq<string>)
    ensures Orders(names, t) && Sorted(Earlier, names)
    decreases t
  {
    if t == {} then []
    else
      FirstExists(t);
      var m :| First(t, m);
      var rest := List(t - {m});
      Before(t, m, rest);
      [m] + rest
  }

  lemma Before(t: set<string>, m: string, rest: seq<string>)
    requires First(t, m) && Orders(rest, t - {m}) && Sorted(Earlier, rest)
    ensures Orders([m] + rest, t) && Sorted(Earlier, [m] + rest)
  {
    var names := [m] + rest;
    forall i, j | 0 <= i < j < |names|
      ensures names[i] != names[j] && Earlier(names[i], names[j])
    {
      assert names[j] == rest[j - 1] && rest[j - 1] in rest;
      if i > 0 {
        assert names[i] == rest[i - 1];
      }
    }
    forall n
      ensures n in t <==> n in names
    {
      assert n in names <==> n == m || n in rest;
    }
  }

  /** This order can be listed in: every set of names has its list. */
  lemma Listable()
    ensures Lists(Earlier, List)
  {
    forall a, b | Earlier(a, b)
      ensures !Earlier(b, a)
    {
      EarlierOneWay(a, b);
    }
  }

  /** So in the C locale the takeover ends well from just the safe disks. */
  lemma PassesInOrder(d: Disk)
    requires "" !in d.top
    ensures (forall es :: Listed(Earlier, es) && Exec(State(d, Booting), es).pc.Passed? ==>
               Finished(Exec(State(d, Booting), es).disk))
      <==> Safe(Earlier, d)
  {
    Listable();
    PassesFinishedExactly(Earlier, List, d);
  }
}
