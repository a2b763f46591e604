/**
 How the keys of a configuration map are brought to their canonical names and types:
 `FuzzyNames` and the type converters. Maps are ranged over in any order; entries put in while
 ranging may be produced or not (The Go Programming Language Specification, section "For
 statements with range clause"), so a run of the loop is the sequence of keys it produced.
 */
module Renaming {
  import opened Iteration

  type Names = map<string, string>

  // ---------- The table of names ----------

  /** The table after the fields of `order`, one after the other; `al` gives the names of a field. */
  function Build(al: string -> set<string>, order: seq<string>): Names {
    if order == [] then map[]
    else
      var names := Build(al, order[..|order| - 1]);
      var field := order[|order| - 1];
      Add(names, al(field), field)
  }

  /** `names` with every name of `more` leading to `field`. */
  function Add(names: Names, more: set<string>, field: string): Names {
    names + map a | a in more :: field
  }

  lemma AddTwice(names: Names, a: set<string>, b: set<string>, field: string)
    ensures Add(Add(names, a, field), b, field) == Add(names, a + b, field) && Add(names, {}, field) == names
  {}

  /** No alias belongs to two fields, leaving aside the ones that are overruled at the end. */
  ghost predicate Unshared(al: string -> set<string>, extra: Names, fields: set<string>) {
    forall f, g, a :: f in fields && g in fields && a in al(f) && a in al(g) && a !in extra ==> f == g
  }

  lemma {:induction false} BuildHas(al: string -> set<string>, order: seq<string>, i: nat, a: string)
    requires i < |order| && a in al(order[i])
    ensures a in Build(al, order)
  {
    if i < |order| - 1 {
      assert order[..|order| - 1][i] == order[i];
      BuildHas(al, order[..|order| - 1], i, a);
    }
  }

  lemma {:induction false} BuildLeads(al: string -> set<string>, order: seq<string>, a: string)
    requires a in Build(al, order)
    ensures Build(al, order)[a] in order && a in al(Build(al, order)[a])
  {
    if a !in al(order[|order| - 1]) {
      BuildLeads(al, order[..|order| - 1], a);
    }
  }

  /** The table holds the aliases of the fields, each leading to a field it belongs to. */
  lemma BuildMeans(al: string -> set<string>, order: seq<string>, a: string)
    ensures a in Build(al, order) ==> Build(al, order)[a] in order && a in al(Build(al, order)[a])
    ensures forall f :: f in order && a in al(f) ==> a in Build(al, order)
  {
    if a in Build(al, order) { BuildLeads(al, order, a); }
    forall f | f in order && a in al(f)
      ensures a in Build(al, order)
    {
      var i :| 0 <= i < |order| && order[i] == f;
      BuildHas(al, order, i, a);
    }
  }

  lemma BuildMore(al: string -> set<string>, order: seq<string>, f: string)
    ensures Build(al, order + [f]) == Add(Build(al, order), al(f), f)
  {
    assert (order + [f])[..|order|] == order;
  }

  lemma SameTable(al: string -> set<string>, extra: Names, fields: set<string>, o1: seq<string>, o2: seq<string>)
    requires Unshared(al, extra, fields) && Orders(o1, fields) && Orders(o2, fields)
    ensures Build(al, o1) + extra == Build(al, o2) + extra
  {
    forall a
      ensures a in Build(al, o1) <==> a in Build(al, o2)
      ensures a in Build(al, o1) && a !in extra ==> Build(al, o1)[a] == Build(al, o2)[a]
    {
      BuildMeans(al, o1, a);
      BuildMeans(al, o2, a);
    }
  }

  lemma LastWins(al: string -> set<string>, extra: Names, fields: set<string>, f: string, a: string)
    returns (order: seq<string>)
    requires f in fields && a in al(f) && a !in extra
    ensures Orders(order, fields) && a in Build(al, order) && (Build(al, order) + extra)[a] == f
  {
    var front := SomeOrder(fields - {f});
    order := front + [f];
    BuildMore(al, front, f);
  }

  ghost predicate OneTable(al: string -> set<string>, extra: Names, fields: set<string>) {
    forall o1, o2 :: Orders(o1, fields) && Orders(o2, fields) ==> Build(al, o1) + extra == Build(al, o2) + extra
  }

  /** Every order of the fields gives the same table exactly when no alias is shared. */
  lemma TableOrderExactly(al: string -> set<string>, extra: Names, fields: set<string>)
    ensures OneTable(al, extra, fields) <==> Unshared(al, extra, fields)
  {
    if Unshared(al, extra, fields) {
      forall o1, o2 | Orders(o1, fields) && Orders(o2, fields)
        ensures Build(al, o1) + extra == Build(al, o2) + extra
      {
        SameTable(al, extra, fields, o1, o2);
      }
    } else {
      var f, g, a :| f in fields && g in fields && a in al(f) && a in al(g) && a !in extra && f != g;
      var o1 := LastWins(al, extra, fields, f, a);
      var o2 := LastWins(al, extra, fields, g, a);
      assert (Build(al, o1) + extra)[a] != (Build(al, o2) + extra)[a];
    }
  }

  // ---------- Renaming the keys of a map ----------

  predicate IsAlias(names: Names, k: string) {
    k in names && names[k] != k
  }

  /** What a key is renamed to is not itself renamed. */
  predicate NoChain(names: Names) {
    forall k :: k in names ==> !IsAlias(names, names[k])
  }

  /** What a table without chains needs of the fields. */
  ghost predicate TidyFields(al: string -> set<string>, extra: Names, fields: set<string>) {
    && Unshared(al, extra, fields)
    && (forall f :: f in fields && f in extra ==> al(f) <= extra.Keys)
    && (forall e, f :: e in extra && f in fields && extra[e] in al(f) ==> f == extra[e])
    && (forall e :: e in extra ==> extra[e] !in extra)
    && (forall f, a :: f in fields && a in al(f) && a in fields ==> a in al(a))
  }

  /** A key of the table leads to a key that is no alias, and it is a field only if it was overruled. */
  ghost predicate NotChained(al: string -> set<string>, extra: Names, fields: set<string>, order: seq<string>,
          k: string)
    requires k in Build(al, order) + extra
  {
    var names := Build(al, order) + extra;
    !IsAlias(names, names[k]) && (IsAlias(names, k) && k in fields ==> k in extra)
  }

  /** An alias of a field leads to a field that stays. */
  lemma FieldStays(al: string -> set<string>, extra: Names, fields: set<string>, order: seq<string>, k: string)
    requires TidyFields(al, extra, fields) && Orders(order, fields) && k in Build(al, order) && k !in extra
    ensures Build(al, order)[k] !in extra
    ensures Build(al, order)[k] in Build(al, order) ==> Build(al, order)[Build(al, order)[k]] == Build(al, order)[k]
  {
    BuildLeads(al, order, k);
    var t := Build(al, order)[k];
    assert t in fields && t !in extra;
    if t in Build(al, order) {
      BuildLeads(al, order, t);
      assert t in al(t) && t in al(Build(al, order)[t]);
    }
  }

  lemma TidyKey(al: string -> set<string>, extra: Names, fields: set<string>, order: seq<string>, k: string)
    requires TidyFields(al, extra, fields) && Orders(order, fields) && k in Build(al, order) + extra
    ensures NotChained(al, extra, fields, order, k)
  {
    if k in extra {
      if extra[k] in Build(al, order) { BuildLeads(al, order, extra[k]); }
    } else {
      FieldStays(al, extra, fields, order, k);
      BuildLeads(al, order, k);
    }
  }

  /** The body of the loop, for the key `k`. */
  function Visit<V>(names: Names, data: map<string, V>, k: string): map<string, V> {
    if k in data && IsAlias(names, k) then data[names[k] := data[k]] else data
  }

  function Run<V>(names: Names, m: map<string, V>, visits: seq<string>): map<string, V> {
    if visits == [] then m
    else Visit(names, Run(names, m, visits[..|visits| - 1]), visits[|visits| - 1])
  }

  /** One more key produced. */
  lemma RunMore<V(!new)>(names: Names, m: map<string, V>, visits: seq<string>, k: string)
    ensures Run(names, m, visits + [k]) == Visit(names, Run(names, m, visits), k)
    ensures forall i :: 0 <= i <= |visits| ==> (visits + [k])[..i] == visits[..i]
  {
    assert (visits + [k])[..|visits|] == visits;
  }

  /** The key sequences a range loop may produce: each first key once, later ones at most once. */
  ghost predicate Legal<V(!new)>(names: Names, m: map<string, V>, visits: seq<string>) {
    && Distinct(visits)
    && (forall k :: k in m ==> k in visits)
    && Present(names, m, visits)
  }

  ghost function Seen(visits: seq<string>): set<string> {
    set k | k in visits
  }

  /** In the middle of the loop: `visits` have been produced, `pending` may still be. */
  ghost predicate Producing<V(!new)>(names: Names, m: map<string, V>, visits: seq<string>, d: map<string, V>,
          pending: set<string>)
  {
    && Distinct(visits) && d == Run(names, m, visits)
    && Seen(visits) + pending <= d.Keys <= m.Keys + names.Values && m.Keys <= Seen(visits) + pending
    && Seen(visits) !! pending
    && Present(names, m, visits)
  }

  /** A key that is produced is in the map at that time. */
  ghost predicate Present<V(!new)>(names: Names, m: map<string, V>, visits: seq<string>) {
    forall i :: 0 <= i < |visits| ==> visits[i] in Run(names, m, visits[..i])
  }

  lemma PresentMore<V(!new)>(names: Names, m: map<string, V>, visits: seq<string>, k: string)
    requires Present(names, m, visits) && k in Run(names, m, visits)
    ensures Present(names, m, visits + [k])
  {
    var more := visits + [k];
    forall i | 0 <= i < |more|
      ensures more[i] in Run(names, m, more[..i])
    {
      assert more[..i] == visits[..i];
    }
  }

  lemma SeenMore(visits: seq<string>, k: string)
    requires Distinct(visits) && k !in visits
    ensures Distinct(visits + [k]) && Seen(visits + [k]) == Seen(visits) + {k}
  {}

  lemma Produce<V(!new)>(names: Names, m: map<string, V>, visits: seq<string>, d: map<string, V>,
          pending: set<string>, k: string)
    requires Producing(names, m, visits, d, pending) && k in pending
    ensures Producing(names, m, visits + [k], Visit(names, d, k), pending - {k})
    ensures IsAlias(names, k) && names[k] !in d ==>
      Producing(names, m, visits + [k], Visit(names, d, k), pending - {k} + {names[k]})
    ensures k in m.Keys + names.Values && Seen(visits + [k]) == Seen(visits) + {k} && k !in Seen(visits)
  {
    RunMore(names, m, visits, k);
    assert k in Seen(visits) <==> k in visits;
    SeenMore(visits, k);
    PresentMore(names, m, visits, k);
  }

  ghost predicate IsSource<V(!new)>(names: Names, m: map<string, V>, k: string, t: string) {
    k in m && IsAlias(names, k) && names[k] == t
  }

  /** Spellings of one field that occur together carry the same value. */
  ghost predicate Unambiguous<V(!new)>(names: Names, m: map<string, V>) {
    forall j, k, t :: IsSource(names, m, j, t) && IsSource(names, m, k, t) ==> m[j] == m[k]
  }

  ghost predicate HasSource<V(!new)>(names: Names, m: map<string, V>, t: string) {
    exists k :: IsSource(names, m, k, t)
  }

  ghost function Renamed<V(!new)>(names: Names, m: map<string, V>): map<string, V> {
    map q | q in m.Keys + names.Values && (q in m || HasSource(names, m, q)) ::
      if HasSource(names, m, q) then var k :| IsSource(names, m, k, q); m[k] else m[q]
  }

  /** What is known of the data when the keys in `seen` have been produced. */
  ghost predicate Partly<V(!new)>(names: Names, m: map<string, V>, seen: seq<string>, d: map<string, V>) {
    && (forall q :: q in m ==> q in d)
    && (forall k, q :: k in seen && IsSource(names, m, k, q) ==> q in d)
    && (forall q :: q in d ==>
          (q in m && d[q] == m[q] && NoneSeen(names, m, seen, q)) || FromSeen(names, m, seen, q, d[q]))
  }

  ghost predicate NoneSeen<V(!new)>(names: Names, m: map<string, V>, seen: seq<string>, q: string) {
    forall k :: k in seen ==> !IsSource(names, m, k, q)
  }

  ghost predicate FromSeen<V(!new)>(names: Names, m: map<string, V>, seen: seq<string>, q: string, v: V) {
    exists k :: k in seen && IsSource(names, m, k, q) && v == m[k]
  }

  lemma PartlyStep<V(!new)>(names: Names, m: map<string, V>, seen: seq<string>, d: map<string, V>, k: string)
    requires NoChain(names) && Partly(names, m, seen, d)
    ensures Partly(names, m, seen + [k], Visit(names, d, k))
    ensures k in m && IsAlias(names, k) ==> Visit(names, d, k)[names[k]] == m[k]
  {
    var more, next := seen + [k], Visit(names, d, k);
    assert forall j :: j in more <==> j in seen || j == k;
    if k in d && IsAlias(names, k) {
      assert forall j :: !IsSource(names, m, j, k);
      assert k in m && d[k] == m[k] && IsSource(names, m, k, names[k]);
      forall q | q in next
        ensures (q in m && next[q] == m[q] && NoneSeen(names, m, more, q)) || FromSeen(names, m, more, q, next[q])
      {
        if q != names[k] && FromSeen(names, m, seen, q, d[q]) {
          var j :| j in seen && IsSource(names, m, j, q) && d[q] == m[j];
          assert j in more;
        }
      }
    } else {
      forall q | q in next
        ensures (q in m && next[q] == m[q] && NoneSeen(names, m, more, q)) || FromSeen(names, m, more, q, next[q])
      {
        if FromSeen(names, m, seen, q, d[q]) {
          var j :| j in seen && IsSource(names, m, j, q) && d[q] == m[j];
          assert j in more;
        }
      }
    }
  }

  lemma {:induction false} RunPartly<V(!new)>(names: Names, m: map<string, V>, visits: seq<string>)
    requires NoChain(names)
    ensures Partly(names, m, visits, Run(names, m, visits))
    decreases |visits|
  {
    if visits != [] {
      var n := |visits| - 1;
      RunPartly(names, m, visits[..n]);
      PartlyStep(names, m, visits[..n], Run(names, m, visits[..n]), visits[n]);
      assert visits[..n] + [visits[n]] == visits;
    }
  }

  /** What the renamed map holds. */
  lemma RenamedMeans<V(!new)>(names: Names, m: map<string, V>, q: string)
    requires Unambiguous(names, m)
    ensures q in Renamed(names, m) <==> q in m || HasSource(names, m, q)
    ensures forall k :: IsSource(names, m, k, q) ==> q in Renamed(names, m) && Renamed(names, m)[q] == m[k]
    ensures q in m && !HasSource(names, m, q) ==> q in Renamed(names, m) && Renamed(names, m)[q] == m[q]
  {
    if k :| IsSource(names, m, k, q) {
      assert q in names.Values && HasSource(names, m, q);
    }
  }

  lemma PartlyAt<V(!new)>(names: Names, m: map<string, V>, seen: seq<string>, d: map<string, V>, q: string)
    requires Partly(names, m, seen, d) && Unambiguous(names, m) && forall k :: k in m ==> k in seen
    ensures q in d <==> q in Renamed(names, m)
    ensures q in d ==> d[q] == Renamed(names, m)[q]
  {
    RenamedMeans(names, m, q);
    if k :| IsSource(names, m, k, q) {
      assert k in seen;
    }
  }

  lemma RunIsRenamed<V(!new)>(names: Names, m: map<string, V>, visits: seq<string>)
    requires NoChain(names) && Unambiguous(names, m) && Legal(names, m, visits)
    ensures Run(names, m, visits) == Renamed(names, m)
  {
    var d, r := Run(names, m, visits), Renamed(names, m);
    RunPartly(names, m, visits);
    forall q
      ensures q in d <==> q in r
      ensures q in d ==> d[q] == r[q]
    {
      PartlyAt(names, m, visits, d, q);
    }
    SameMaps(d, r);
  }

  lemma SameMaps<V>(d: map<string, V>, r: map<string, V>)
    requires forall q :: q in d <==> q in r
    requires forall q :: q in d ==> d[q] == r[q]
    ensures d == r
  {}

  lemma SomeVisits<V(!new)>(names: Names, m: map<string, V>, k: string) returns (visits: seq<string>)
    requires NoChain(names) && k in m && IsAlias(names, k)
    ensures Legal(names, m, visits) && names[k] in Run(names, m, visits) && Run(names, m, visits)[names[k]] == m[k]
  {
    var front := SomeOrder(m.Keys - {k});
    visits := front + [k];
    forall i | 0 <= i < |visits|
      ensures visits[i] in Run(names, m, visits[..i])
    {
      assert i < |front| ==> visits[i] in front;
      RunPartly(names, m, visits[..i]);
    }
    assert visits[..|front|] == front;
    RunPartly(names, m, front);
    PartlyStep(names, m, front, Run(names, m, front), k);
  }

  ghost predicate OneOutcome<V(!new)>(names: Names, m: map<string, V>) {
    forall v1, v2 :: Legal(names, m, v1) && Legal(names, m, v2) ==> Run(names, m, v1) == Run(names, m, v2)
  }

  /** Every order of the range loop gives the same map exactly when spellings that occur together agree. */
  lemma RenamingOrderExactly<V(!new)>(names: Names, m: map<string, V>)
    requires NoChain(names)
    ensures OneOutcome(names, m) <==> Unambiguous(names, m)
  {
    if Unambiguous(names, m) {
      forall v1, v2 | Legal(names, m, v1) && Legal(names, m, v2)
        ensures Run(names, m, v1) == Run(names, m, v2)
      {
        RunIsRenamed(names, m, v1);
        RunIsRenamed(names, m, v2);
      }
    } else {
      var j, k, t :| IsSource(names, m, j, t) && IsSource(names, m, k, t) && m[j] != m[k];
      var v1 := SomeVisits(names, m, j);
      var v2 := SomeVisits(names, m, k);
      assert Run(names, m, v1)[t] != Run(names, m, v2)[t];
    }
  }
}
