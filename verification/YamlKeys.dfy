/**
 `toYAMLKeys`: every map of a tree has its keys rewritten in place while the loop ranges over it.
 The Go Programming Language Specification, section "For statements with range clause", leaves
 open the order and whether an entry put in during the loop is visited; all choices are covered.
 */
module YamlKeys {
  import Keys

  datatype Value = Scalar(s: string) | List(items: seq<Value>) | Obj(m: map<string, Value>)

  type Data = map<string, Value>

  ghost predicate Idempotent(f: string -> string) {
    forall k :: f(f(k)) == f(k)
  }

  predicate DistinctKeys(f: string -> string, m: Data) {
    forall a, b :: a in m && b in m && f(a) == f(b) ==> a == b
  }

  /** No two keys of any map that the rewriting reaches get the same new name. */
  ghost predicate Injective(f: string -> string, v: Value)
    decreases v
  {
    v.Obj? ==> DistinctKeys(f, v.m) && forall k :: k in v.m ==> Injective(f, v.m[k])
  }

  ghost function NewNames(f: string -> string, ks: set<string>): set<string> {
    set k | k in ks :: f(k)
  }

  ghost function NewKeys(f: string -> string, m: Data): set<string> {
    NewNames(f, m.Keys)
  }

  /** The key that becomes `q`. */
  ghost function Origin(f: string -> string, m: Data, q: string): (k: string)
    requires q in NewKeys(f, m)
    ensures k in m && f(k) == q
  {
    var k :| k in m && f(k) == q; k
  }

  /** The recursive renaming: the same tree with every key in YAML form; lists are left alone. */
  ghost function Renamed(f: string -> string, v: Value): Value
    requires Injective(f, v)
    decreases v
  {
    match v
    case Obj(m) => Obj(map q | q in NewKeys(f, m) :: Renamed(f, m[Origin(f, m, q)]))
    case _ => v
  }

  lemma RenamedAt(f: string -> string, m: Data, k: string)
    requires Injective(f, Obj(m)) && k in m
    ensures Renamed(f, Obj(m)).Obj? && f(k) in Renamed(f, Obj(m)).m
    ensures Renamed(f, Obj(m)).m[f(k)] == Renamed(f, m[k])
  {
    assert f(k) in NewKeys(f, m);
    assert Origin(f, m, f(k)) == k;
  }

  /** The renaming in its own terms: only keys of maps change, and each map has just the new names of its keys. */
  lemma RenamedMeans(f: string -> string, v: Value)
    requires Injective(f, v)
    ensures !v.Obj? ==> Renamed(f, v) == v
    ensures v.Obj? ==>
      var r := Renamed(f, v);
      && r.Obj? && (forall k :: k in v.m ==> f(k) in r.m && r.m[f(k)] == Renamed(f, v.m[k]))
      && (forall q :: q in r.m ==> exists k :: k in v.m && f(k) == q)
  {
    if v.Obj? {
      forall k | k in v.m
        ensures f(k) in Renamed(f, v).m && Renamed(f, v).m[f(k)] == Renamed(f, v.m[k])
      {
        RenamedAt(f, v.m, k);
      }
    }
  }

  /** Renaming again changes nothing. */
  lemma {:induction false} RenamedTwice(f: string -> string, v: Value)
    requires Idempotent(f) && Injective(f, v)
    ensures Injective(f, Renamed(f, v)) && Renamed(f, Renamed(f, v)) == Renamed(f, v)
    decreases v
  {
    if v.Obj? {
      var r := Renamed(f, v).m;
      forall q | q in r
        ensures f(q) == q && Injective(f, r[q]) && Renamed(f, r[q]) == r[q]
      {
        var k := Origin(f, v.m, q);
        assert f(f(k)) == f(k);
        RenamedTwice(f, v.m[k]);
      }
      assert Injective(f, Obj(r));
      assert NewKeys(f, r) == r.Keys;
      forall q | q in r
        ensures Renamed(f, Obj(r)).m[q] == r[q]
      {
        RenamedAt(f, r, q);
      }
      assert Renamed(f, Obj(r)).m == r;
    }
  }

  /** `v` is nested at most `h` maps deep. */
  ghost predicate Within(v: Value, h: nat)
    decreases v
  {
    v.Obj? ==> h > 0 && forall k :: k in v.m ==> Within(v.m[k], h - 1)
  }

  lemma {:induction false} WithinMore(v: Value, h: nat, g: nat)
    requires Within(v, h) && h <= g
    ensures Within(v, g)
    decreases v
  {
    if v.Obj? {
      forall k | k in v.m ensures Within(v.m[k], g - 1) { WithinMore(v.m[k], h - 1, g - 1); }
    }
  }

  /** Every tree is nested to some depth. */
  lemma {:induction false} SomeDepth(v: Value) returns (h: nat)
    ensures Within(v, h)
    decreases v
  {
    h := 0;
    if v.Obj? {
      h := 1;
      var left := v.m.Keys;
      while left != {}
        invariant left <= v.m.Keys && h > 0
        invariant forall k :: k in v.m && k !in left ==> Within(v.m[k], h - 1)
      {
        var k :| k in left;
        var g := SomeDepth(v.m[k]);
        var top := if g + 1 > h then g + 1 else h;
        forall j | j in v.m && j !in left ensures Within(v.m[j], top - 1) { WithinMore(v.m[j], h - 1, top - 1); }
        WithinMore(v.m[k], g, top - 1);
        left, h := left - {k}, top;
      }
    }
  }

  lemma {:induction false} RenamedWithin(f: string -> string, v: Value, h: nat)
    requires Injective(f, v) && Within(v, h)
    ensures Within(Renamed(f, v), h)
    decreases v
  {
    if v.Obj? {
      var r := Renamed(f, v);
      forall q | q in r.m
        ensures Within(r.m[q], h - 1)
      {
        RenamedWithin(f, v.m[Origin(f, v.m, q)], h - 1);
      }
    }
  }

  // ---------- The loop over one map, for any renaming `f` and any goal ----------

  ghost predicate Renaming<V(!new)>(f: string -> string, m: map<string, V>, goal: map<string, V>) {
    && Idempotent(f)
    && (forall a, b :: a in m && b in m && f(a) == f(b) ==> a == b)
    && (forall k :: k in m ==> f(k) in goal)
    && (forall q :: q in goal ==> exists k :: k in m && f(k) == q)
  }

  /** The keys in `done` have been dealt with. */
  ghost predicate HalfWay<V(!new)>(f: string -> string, m: map<string, V>, goal: map<string, V>, done: set<string>,
          data: map<string, V>)
    requires done <= m.Keys && forall k :: k in m ==> f(k) in goal
  {
    && (forall k :: k in m && k !in done ==> k in data && data[k] == m[k])
    && (forall k :: k in done ==> f(k) in data && data[f(k)] == goal[f(k)])
    && (forall q :: q in data ==> (q in m && q !in done) || New(f, done, q))
  }

  ghost predicate New(f: string -> string, done: set<string>, q: string) {
    exists k :: k in done && f(k) == q
  }

  /** The keys the range loop may still produce: all not dealt with, and any of the new names. */
  ghost predicate Upcoming<V(!new)>(f: string -> string, m: map<string, V>, done: set<string>, pending: set<string>) {
    && (forall k :: k in m && k !in done ==> k in pending)
    && (forall q :: q in pending ==> (q in m && q !in done) || New(f, done, q))
  }

  lemma NewMore(f: string -> string, done: set<string>, k: string)
    ensures New(f, done + {k}, f(k)) && forall q :: New(f, done, q) ==> New(f, done + {k}, q)
  {
    forall q | New(f, done, q)
      ensures New(f, done + {k}, q)
    {
      var j :| j in done && f(j) == q;
      assert j in done + {k};
    }
    assert k in done + {k};
  }

  /** Keys apart from `k` and its new name do not meet them. */
  lemma Apart<V(!new)>(f: string -> string, m: map<string, V>, goal: map<string, V>, k: string, j: string)
    requires Renaming(f, m, goal) && k in m && j in m && j != k
    ensures f(j) != k && f(j) != f(k) && f(k) != j
  {
    assert f(f(j)) == f(j) && f(f(k)) == f(k);
  }

  lemma FirstVisit<V(!new)>(f: string -> string, m: map<string, V>, goal: map<string, V>, done: set<string>,
          data: map<string, V>, k: string, next: map<string, V>)
    requires Renaming(f, m, goal) && done <= m.Keys && HalfWay(f, m, goal, done, data) && k in m && k !in done
    requires next == (data - {k})[f(k) := goal[f(k)]]
    ensures HalfWay(f, m, goal, done + {k}, next)
  {
    forall j | j in m && j !in done + {k}
      ensures j in next && next[j] == m[j]
    {
      Apart(f, m, goal, k, j);
    }
    forall j | j in done + {k}
      ensures f(j) in next && next[f(j)] == goal[f(j)]
    {
      if j != k { Apart(f, m, goal, k, j); }
    }
    NewMore(f, done, k);
  }

  lemma FirstVisitPending<V(!new)>(f: string -> string, m: map<string, V>, done: set<string>, pending: set<string>,
          k: string, added: bool)
    requires Upcoming(f, m, done, pending) && k in m && k !in done
    ensures Upcoming(f, m, done + {k}, if added then pending - {k} + {f(k)} else pending - {k})
  {
    NewMore(f, done, k);
  }

  lemma SecondVisit<V(!new)>(f: string -> string, m: map<string, V>, goal: map<string, V>, done: set<string>,
          data: map<string, V>, pending: set<string>, k: string)
    requires Renaming(f, m, goal) && done <= m.Keys && HalfWay(f, m, goal, done, data) && Upcoming(f, m, done, pending)
      && k in done
    ensures (data - {f(k)})[f(k) := goal[f(k)]] == data && Upcoming(f, m, done, pending - {f(k)})
  {
    assert f(f(k)) == f(k);
  }

  lemma Finished<V(!new)>(f: string -> string, m: map<string, V>, goal: map<string, V>, data: map<string, V>)
    requires Renaming(f, m, goal) && HalfWay(f, m, goal, m.Keys, data)
    ensures data == goal
  {
    forall q
      ensures q in data <==> q in goal
      ensures q in data ==> data[q] == goal[q]
    {
      if q in goal {
        var k :| k in m && f(k) == q;
        assert k in m.Keys;
      }
    }
  }

  /** The loop over `m` has dealt with `done`, holds `data`, and may still produce `pending`. */
  ghost predicate Looping<V(!new)>(f: string -> string, m: map<string, V>, goal: map<string, V>, done: set<string>,
          data: map<string, V>, pending: set<string>)
  {
    && done <= m.Keys && Renaming(f, m, goal) && HalfWay(f, m, goal, done, data) && Upcoming(f, m, done, pending)
  }

  /** The original key behind a key that is produced. */
  lemma WhichKey<V(!new)>(f: string -> string, m: map<string, V>, goal: map<string, V>, done: set<string>,
          data: map<string, V>, pending: set<string>, q: string) returns (k: string)
    requires Looping(f, m, goal, done, data, pending) && q in pending
    ensures k in m && q in data
    ensures k !in done ==> q == k && data[q] == m[k]
    ensures k in done ==> q == f(k) && data[q] == goal[f(k)]
  {
    if q in m && q !in done {
      k := q;
    } else {
      assert New(f, done, q);
      k :| k in done && f(k) == q;
    }
  }

  /** What a visit does to the state of the loop. */
  lemma Advance<V(!new)>(f: string -> string, m: map<string, V>, goal: map<string, V>, done: set<string>,
          was: map<string, V>, pending: set<string>, q: string, k: string, data: map<string, V>)
    requires Looping(f, m, goal, done, was, pending) && k in m
    requires q == if k in done then f(k) else k
    requires data == (was - {q})[f(k) := goal[f(k)]]
    ensures Looping(f, m, goal, done + {k}, data, pending - {q})
    ensures k !in done ==> Looping(f, m, goal, done + {k}, data, pending - {q} + {f(q)})
  {
    if k in done {
      assert done + {k} == done;
      SecondVisit(f, m, goal, done, was, pending, k);
    } else {
      FirstVisit(f, m, goal, done, was, k, data);
      FirstVisitPending(f, m, done, pending, k, true);
      FirstVisitPending(f, m, done, pending, k, false);
    }
  }

  lemma Begins<V(!new)>(f: string -> string, m: map<string, V>, goal: map<string, V>)
    requires Renaming(f, m, goal)
    ensures Looping(f, m, goal, {}, m, m.Keys)
  {}

  lemma Ends<V(!new)>(f: string -> string, m: map<string, V>, goal: map<string, V>, done: set<string>,
          data: map<string, V>)
    requires Looping(f, m, goal, done, data, {})
    ensures data == goal
  {
    assert done == m.Keys;
    Finished(f, m, goal, data);
  }

  lemma RenamedIsGoal(f: string -> string, m: Data)
    requires Idempotent(f) && Injective(f, Obj(m))
    ensures Renaming(f, m, Renamed(f, Obj(m)).m)
  {
    forall q | q in Renamed(f, Obj(m)).m
      ensures exists k :: k in m && f(k) == q
    {
      var k := Origin(f, m, q);
    }
  }

  /** The value of a key: a map under it is rewritten, whether or not that was done before. */
  method VisitValue(f: string -> string, v: Value, ghost orig: Value, ghost h: nat) returns (r: Value)
    requires Idempotent(f) && Injective(f, orig) && Within(orig, h) && (v == orig || v == Renamed(f, orig))
    ensures r == Renamed(f, orig)
    decreases h, 2
  {
    RenamedTwice(f, orig);
    RenamedWithin(f, orig, h);
    r := v;
    if v.Obj? {
      var sub := ToYAMLKeys(f, v.m, h);
      r := Obj(sub);
    }
  }

  /** One pass through the body of the loop: the value is rewritten, and moved if its key changes. */
  method VisitKey(f: string -> string, data: Data, q: string, ghost k: string, ghost orig: Value, ghost h: nat)
    returns (next: Data, inserted: bool)
    requires Idempotent(f) && q in data && Injective(f, orig) && Within(orig, h)
    requires (q == k && data[q] == orig) || (q == f(k) && data[q] == Renamed(f, orig))
    ensures next == (data - {q})[f(k) := Renamed(f, orig)]
    ensures inserted <==> f(q) != q
    ensures f(q) == f(k)
    decreases h, 3
  {
    assert f(f(k)) == f(k);
    var v := VisitValue(f, data[q], orig, h);
    next := data[q := v];
    var newK := f(q);
    inserted := newK != q;
    if inserted {
      next := next - {q};
      next := next[newK := v];
    }
  }

  /** The same, seen from the loop over `m`; what was put in may be produced later or not. */
  method Visit(f: string -> string, m: Data, q: string, data: Data, pending: set<string>, ghost goal: Data,
          ghost done: set<string>, ghost h: nat)
    returns (next: Data, left: set<string>, ghost after: set<string>)
    requires Idempotent(f) && Injective(f, Obj(m)) && Within(Obj(m), h) && goal == Renamed(f, Obj(m)).m
    requires Looping(f, m, goal, done, data, pending) && q in pending
    ensures Looping(f, m, goal, after, next, left)
    ensures done < after || (done == after && |left| < |pending|)
    decreases h, 0
  {
    ghost var k := WhichKey(f, m, goal, done, data, pending, q);
    RenamedAt(f, m, k);
    var inserted;
    next, inserted := VisitKey(f, data, q, k, m[k], h - 1);
    Advance(f, m, goal, done, data, pending, q, k, next);
    left, after := pending - {q}, done + {k};
    if inserted {
      var produced: bool := *;
      left := if produced then left + {f(q)} else left;
    }
  }

  /**
   `toYAMLKeys` for every order of visits and every choice about entries put in on the way: the
   result is the recursive renaming. `h` is any depth of the tree.
   */
  method ToYAMLKeys(f: string -> string, m: Data, ghost h: nat) returns (data: Data)
    requires Idempotent(f) && Injective(f, Obj(m)) && Within(Obj(m), h)
    ensures Obj(data) == Renamed(f, Obj(m))
    decreases h, 1
  {
    RenamedIsGoal(f, m);
    ghost var goal := Renamed(f, Obj(m)).m;
    Begins(f, m, goal);
    data := m;
    ghost var done: set<string> := {};
    var pending := m.Keys;           // keys the range loop has yet to produce
    while pending != {}
      invariant Looping(f, m, goal, done, data, pending)
      decreases m.Keys - done, |pending|
    {
      var q :| q in pending;
      data, pending, done := Visit(f, m, q, data, pending, goal, done, h);
    }
    Ends(f, m, goal, done, data);
  }

  /** With the key function of the program. */
  method RewriteKeys(m: Data) returns (data: Data)
    requires Injective(Keys.ToYAMLKey, Obj(m))
    ensures Obj(data) == Renamed(Keys.ToYAMLKey, Obj(m))
  {
    forall k
      ensures Keys.ToYAMLKey(Keys.ToYAMLKey(k)) == Keys.ToYAMLKey(k)
    {
      Keys.YamlKeyIdempotent(k);
    }
    ghost var h := SomeDepth(Obj(m));
    data := ToYAMLKeys(Keys.ToYAMLKey, m, h);
  }
}
