/**
 How `readCmdline` gathers settings in a nested map, with the meaning of `values.GetValue` and
 `values.PutValue` for every list of keys, colliding ones included.
 */
module Accumulate {
  import opened Basics
  import Cmdline

  datatype Value = Str(s: string) | Strs(ss: seq<string>) | Obj(m: map<string, Value>)

  type Data = map<string, Value>
  type Path = seq<string>

  /** strings.Split(s, "."). */
  function SplitDots(s: string): (p: Path)
    ensures p != []
    decreases |s|
  {
    var q := Cmdline.Find(s, '.');
    if q == |s| then [s] else [s[..q]] + SplitDots(s[q + 1..])
  }

  /** `values.GetValue`: anything on the way that is no map counts as an empty one. */
  function Get(d: Data, p: Path): Option<Value>
    decreases |p|
  {
    if p == [] || p[0] !in d then None
    else if |p| == 1 then Some(d[p[0]])
    else if d[p[0]].Obj? then Get(d[p[0]].m, p[1..])
    else None
  }

  /** `values.PutValue`: it makes the maps that are missing, and gives up at anything on the way that is no map. */
  function Put(d: Data, v: Value, p: Path): Data
    decreases |p|
  {
    if p == [] then d
    else if |p| == 1 then d[p[0] := v]
    else if p[0] !in d then d[p[0] := Obj(Put(map[], v, p[1..]))]
    else if d[p[0]].Obj? then d[p[0] := Obj(Put(d[p[0]].m, v, p[1..]))]
    else d
  }

  datatype Entry = Entry(path: Path, value: string)

  /** The body of the loop for one token. */
  function Add(d: Data, e: Entry): Data {
    match Get(d, e.path)
    case None => Put(d, Str(e.value), e.path)
    case Some(Str(v)) => Put(d, Strs([v, e.value]), e.path)
    case Some(Strs(vs)) => Put(d, Strs(vs + [e.value]), e.path)
    case Some(Obj(_)) => d
  }

  // ---------- What GetValue finds after PutValue ----------

  /** Some strict beginning of `p` leads to a value that is no map. */
  predicate Blocked(d: Data, p: Path)
    decreases |p|
  {
    |p| >= 2 && p[0] in d && (d[p[0]].Obj? ==> Blocked(d[p[0]].m, p[1..]))
  }

  lemma {:induction false} PutBlocked(d: Data, v: Value, p: Path)
    requires Blocked(d, p)
    ensures Put(d, v, p) == d
    decreases |p|
  {
    if d[p[0]].Obj? { PutBlocked(d[p[0]].m, v, p[1..]); }
  }

  /** The map at a path, empty if there is none. */
  function Inside(d: Data, p: Path): Data {
    match Get(d, p)
    case Some(Obj(m)) => m
    case _ => map[]
  }

  /** Above the path of a store that is not blocked stands a map, with the value put into it. */
  lemma {:induction false} GetPutAbove(d: Data, v: Value, p: Path, q: Path)
    requires q != [] && q < p && !Blocked(d, p)
    ensures Get(Put(d, v, p), q) == Some(Obj(Put(Inside(d, q), v, p[|q|..])))
    decreases |p|
  {
    assert q[0] == p[0] && q[1..] <= p[1..];
    if |q| > 1 {
      var m := if p[0] in d then d[p[0]].m else map[];
      GetPutAbove(m, v, p[1..], q[1..]);
      assert p[1..][|q| - 1..] == p[|q|..];
    }
  }

  /** What a lookup finds elsewhere after such a store. */
  lemma {:induction false} GetPutFree(d: Data, v: Value, p: Path, q: Path)
    requires p != [] && q != [] && !Blocked(d, p)
    ensures q == p ==> Get(Put(d, v, p), q) == Some(v)
    ensures p < q ==> Get(Put(d, v, p), q) == if v.Obj? then Get(v.m, q[|p|..]) else None
    ensures !(q <= p) && !(p <= q) ==> Get(Put(d, v, p), q) == Get(d, q)
    decreases |p|
  {
    assert q <= p <==> q[0] == p[0] && q[1..] <= p[1..];
    assert p <= q <==> q[0] == p[0] && p[1..] <= q[1..];
    if q[0] == p[0] && |p| > 1 {
      assert |q| == 1 ==> q <= p;
      var m := if p[0] in d then d[p[0]].m else map[];
      if |q| > 1 {
        if q[1..] == p[1..] { assert q == [q[0]] + q[1..] && p == [p[0]] + p[1..]; }
        GetPutFree(m, v, p[1..], q[1..]);
        if p < q { assert q[1..][|p| - 1..] == q[|p|..]; }
      }
    }
  }

  /** What a lookup finds after any store: a store that is blocked changes nothing. */
  lemma GetPut(d: Data, v: Value, p: Path, q: Path)
    requires p != [] && q != []
    ensures Get(Put(d, v, p), q) ==
      if Blocked(d, p) then Get(d, q)
      else if q == p then Some(v)
      else if p < q then if v.Obj? then Get(v.m, q[|p|..]) else None
      else if q < p then Some(Obj(Put(Inside(d, q), v, p[|q|..])))
      else Get(d, q)
  {
    if Blocked(d, p) {
      PutBlocked(d, v, p);
    } else if q < p {
      GetPutAbove(d, v, p, q);
    } else {
      GetPutFree(d, v, p, q);
    }
  }

  lemma {:induction false} BlockedBy(d: Data, p: Path, r: Path)
    requires r != [] && r < p && Get(d, r).Some? && !Get(d, r).value.Obj?
    ensures Blocked(d, p)
    decreases |p|
  {
    if |r| > 1 { BlockedBy(d[p[0]].m, p[1..], r[1..]); }
  }

  lemma {:induction false} NotBlocked(d: Data, p: Path)
    requires forall r: Path :: r != [] && r < p && Get(d, r).Some? ==> Get(d, r).value.Obj?
    ensures !Blocked(d, p)
    decreases |p|
  {
    if |p| >= 2 && p[0] in d {
      var one := [p[0]];
      assert one < p && Get(d, one) == Some(d[p[0]]);
      var m := d[p[0]].m;
      forall r: Path | r != [] && r < p[1..] && Get(m, r).Some?
        ensures Get(m, r).value.Obj?
      {
        var s := one + r;
        assert s[1..] == r && s < p && Get(d, s) == Get(m, r);
      }
      NotBlocked(m, p[1..]);
    }
  }

  // ---------- Which settings count ----------

  predicate Comparable(p: Path, q: Path) {
    p < q || q < p
  }

  predicate PrefixFree(es: seq<Entry>) {
    forall i, j :: 0 <= i < |es| && 0 <= j < |es| ==> !Comparable(es[i].path, es[j].path)
  }

  /** The settings that are not shut out by an earlier one whose key is a strict part of theirs, or the reverse. */
  function Kept(es: seq<Entry>): (k: seq<Entry>)
    ensures forall i :: 0 <= i < |k| ==> k[i] in es
    ensures forall i, j :: 0 <= i < |k| && 0 <= j < |k| ==> !Comparable(k[i].path, k[j].path)
  {
    if es == [] then []
    else
      var k, e := Kept(es[..|es| - 1]), es[|es| - 1];
      if exists i :: 0 <= i < |k| && Comparable(k[i].path, e.path) then k else k + [e]
  }

  /** All values for one path, in the order they came. */
  function ValuesAt(k: seq<Entry>, p: Path): (vs: seq<string>)
    ensures vs == [] <==> forall i :: 0 <= i < |k| ==> k[i].path != p
  {
    if k == [] then []
    else
      var vs, e := ValuesAt(k[..|k| - 1], p), k[|k| - 1];
      assert forall i :: 0 <= i < |k| - 1 ==> k[..|k| - 1][i] == k[i];
      if e.path == p then vs + [e.value] else vs
  }

  predicate HasBelow(k: seq<Entry>, p: Path) {
    exists i :: 0 <= i < |k| && p < k[i].path
  }

  function Leaf(vs: seq<string>): Value
    requires vs != []
  {
    if |vs| == 1 then Str(vs[0]) else Strs(vs)
  }

  /** At every path the data holds the values given for it, a map if there are values below, or nothing. */
  ghost predicate Holds(d: Data, k: seq<Entry>) {
    forall p: Path {:trigger Get(d, p)} :: p != [] ==> HoldsAt(d, k, p)
  }

  predicate HoldsAt(d: Data, k: seq<Entry>, p: Path) {
    if ValuesAt(k, p) != [] then Get(d, p) == Some(Leaf(ValuesAt(k, p)))
    else if HasBelow(k, p) then Get(d, p).Some? && Get(d, p).value.Obj?
    else Get(d, p) == None
  }

  lemma ValuesAppend(t: seq<Entry>, e: Entry, p: Path)
    ensures ValuesAt(t + [e], p) == if e.path == p then ValuesAt(t, p) + [e.value] else ValuesAt(t, p)
  {
    assert (t + [e])[..|t|] == t;
  }

  lemma {:induction false} ValuesConcat(a: seq<Entry>, b: seq<Entry>, p: Path)
    ensures ValuesAt(a + b, p) == ValuesAt(a, p) + ValuesAt(b, p)
    decreases |b|
  {
    if b == [] {
      assert a + b == a;
    } else {
      var t, e := b[..|b| - 1], b[|b| - 1];
      assert b == t + [e] && a + b == (a + t) + [e];
      ValuesConcat(a, t, p);
      ValuesAppend(a + t, e, p);
      ValuesAppend(t, e, p);
    }
  }

  /** Settings of one key, with others before, between and after them. */
  function Woven(p: Path, vs: seq<string>, gaps: seq<seq<Entry>>): seq<Entry>
    requires |gaps| == |vs| + 1
  {
    if vs == [] then gaps[0] else gaps[0] + [Entry(p, vs[0])] + Woven(p, vs[1..], gaps[1..])
  }

  predicate Without(k: seq<Entry>, p: Path) {
    forall i :: 0 <= i < |k| ==> k[i].path != p
  }

  lemma {:induction false} ValuesOfWoven(p: Path, vs: seq<string>, gaps: seq<seq<Entry>>)
    requires |gaps| == |vs| + 1 && forall i :: 0 <= i < |gaps| ==> Without(gaps[i], p)
    ensures ValuesAt(Woven(p, vs, gaps), p) == vs
    decreases |vs|
  {
    assert ValuesAt(gaps[0], p) == [];
    if vs != [] {
      var rest := Woven(p, vs[1..], gaps[1..]);
      ValuesOfWoven(p, vs[1..], gaps[1..]);
      ValuesConcat(gaps[0] + [Entry(p, vs[0])], rest, p);
      ValuesAppend(gaps[0], Entry(p, vs[0]), p);
      assert vs == [vs[0]] + vs[1..];
    }
  }

  /** A key that comes once has its value, a key that comes more often the list of its values in their order. */
  lemma FoundInOrder(d: Data, p: Path, vs: seq<string>, gaps: seq<seq<Entry>>)
    requires |gaps| == |vs| + 1 && (forall i :: 0 <= i < |gaps| ==> Without(gaps[i], p)) && p != []
    requires Holds(d, Woven(p, vs, gaps))
    ensures |vs| == 1 ==> Get(d, p) == Some(Str(vs[0]))
    ensures |vs| >= 2 ==> Get(d, p) == Some(Strs(vs))
    ensures vs == [] ==> Get(d, p) == None || Get(d, p).value.Obj?
  {
    ValuesOfWoven(p, vs, gaps);
    assert HoldsAt(d, Woven(p, vs, gaps), p);
  }

  /** A setting counts unless one before it that counts has a key that is a strict part of its own, or the reverse. */
  lemma KeptAppend(t: seq<Entry>, e: Entry)
    ensures Kept(t + [e]) ==
      if exists i :: 0 <= i < |Kept(t)| && (Kept(t)[i].path < e.path || e.path < Kept(t)[i].path) then Kept(t)
      else Kept(t) + [e]
  {
    assert (t + [e])[..|t|] == t;
  }

  lemma FreeWay(d: Data, k: seq<Entry>, p: Path)
    requires Holds(d, k) && forall i :: 0 <= i < |k| ==> !Comparable(k[i].path, p)
    ensures !Blocked(d, p)
  {
    forall r: Path | r != [] && r < p && Get(d, r).Some?
      ensures Get(d, r).value.Obj?
    {
      assert HoldsAt(d, k, r);
      assert forall i :: 0 <= i < |k| ==> k[i].path != r;
    }
    NotBlocked(d, p);
  }

  /** What is on record strictly above and below a new path. */
  lemma NothingComparable(k: seq<Entry>, p: Path, q: Path)
    requires forall i :: 0 <= i < |k| ==> !Comparable(k[i].path, p)
    requires Comparable(p, q)
    ensures ValuesAt(k, q) == []
    ensures p < q ==> !HasBelow(k, q)
  {
    assert forall i :: 0 <= i < |k| ==> k[i].path != q;
    if p < q {
      forall i | 0 <= i < |k|
        ensures !(q < k[i].path)
      {
        var r := k[i].path;
        assert q < r ==> p < r;
      }
    }
  }

  lemma RecordGrows(k: seq<Entry>, e: Entry, q: Path)
    ensures ValuesAt(k + [e], q) == if e.path == q then ValuesAt(k, q) + [e.value] else ValuesAt(k, q)
    ensures HasBelow(k + [e], q) <==> HasBelow(k, q) || q < e.path
  {
    var k' := k + [e];
    assert k'[..|k|] == k && k'[|k|] == e;
    assert forall i :: 0 <= i < |k| ==> k'[i] == k[i];
  }

  lemma HoldsPut(d: Data, k: seq<Entry>, e: Entry, v: Value)
    requires Holds(d, k) && e.path != [] && v == Leaf(ValuesAt(k, e.path) + [e.value])
    requires forall i :: 0 <= i < |k| ==> !Comparable(k[i].path, e.path)
    ensures Holds(Put(d, v, e.path), k + [e])
  {
    FreeWay(d, k, e.path);
    forall q: Path | q != []
      ensures HoldsAt(Put(d, v, e.path), k + [e], q)
    {
      GetPut(d, v, e.path, q);
      RecordGrows(k, e, q);
      assert HoldsAt(d, k, q);
      if Comparable(e.path, q) { NothingComparable(k, e.path, q); }
    }
  }

  predicate RealPaths(es: seq<Entry>) {
    forall i :: 0 <= i < |es| ==> es[i].path != []
  }

  /** A setting that is shut out changes nothing. */
  lemma ShutOut(d: Data, k: seq<Entry>, e: Entry, i: nat)
    requires Holds(d, k) && RealPaths(k) && e.path != [] && i < |k| && Comparable(k[i].path, e.path)
    requires forall i, j :: 0 <= i < |k| && 0 <= j < |k| ==> !Comparable(k[i].path, k[j].path)
    ensures Add(d, e) == d
  {
    assert HoldsAt(d, k, e.path) && HoldsAt(d, k, k[i].path);
    var p := k[i].path;
    assert forall j :: 0 <= j < |k| ==> !Comparable(p, k[j].path);
    if p < e.path {
      assert forall j :: 0 <= j < |k| ==> k[j].path != e.path && !(e.path < k[j].path);
      assert Get(d, e.path).None?;
      assert ValuesAt(k, p) != [];
      BlockedBy(d, e.path, p);
      PutBlocked(d, Str(e.value), e.path);
    } else {
      assert forall j :: 0 <= j < |k| ==> k[j].path != e.path;
      assert HasBelow(k, e.path);
    }
  }

  /** One more token: it joins the settings that count, or changes nothing. */
  lemma HoldsAdd(d: Data, es: seq<Entry>, e: Entry)
    requires Holds(d, Kept(es)) && RealPaths(es) && e.path != []
    ensures Holds(Add(d, e), Kept(es + [e]))
  {
    var k := Kept(es);
    assert (es + [e])[..|es|] == es;
    if exists i :: 0 <= i < |k| && Comparable(k[i].path, e.path) {
      var i :| 0 <= i < |k| && Comparable(k[i].path, e.path);
      ShutOut(d, k, e, i);
    } else {
      AddIsPut(d, k, e);
      HoldsPut(d, k, e, Leaf(ValuesAt(k, e.path) + [e.value]));
    }
  }

  lemma AddIsPut(d: Data, k: seq<Entry>, e: Entry)
    requires Holds(d, k) && e.path != []
    requires forall i :: 0 <= i < |k| ==> !Comparable(k[i].path, e.path)
    ensures Add(d, e) == Put(d, Leaf(ValuesAt(k, e.path) + [e.value]), e.path)
  {
    assert HoldsAt(d, k, e.path);
    assert forall i :: 0 <= i < |k| ==> !(e.path < k[i].path);
    var vs := ValuesAt(k, e.path);
    if |vs| == 1 { assert vs + [e.value] == [vs[0], e.value]; }
  }

  lemma HoldsNothing()
    ensures Holds(map[], [])
  {
    forall p: Path
      ensures HoldsAt(map[], [], p)
    {
    }
  }

  function Entries(ss: seq<Cmdline.Setting>): (es: seq<Entry>)
    ensures |es| == |ss| && RealPaths(es)
  {
    if ss == [] then [] else Entries(ss[..|ss| - 1]) + [Entry(SplitDots(ss[|ss| - 1].key), ss[|ss| - 1].value)]
  }

  /** The body of the loop, once a token has been split. */
  method AddSetting(was: Data, e: Entry) returns (data: Data)
    ensures data == Add(was, e)
  {
    data := was;
    var existing := Get(data, e.path);
    if existing.Some? {
      match existing.value {
        case Str(v) => data := Put(data, Strs([v, e.value]), e.path);
        case Strs(vs) => data := Put(data, Strs(vs + [e.value]), e.path);
        case Obj(_) =>
      }
    } else {
      data := Put(data, Str(e.value), e.path);
    }
  }

  lemma HoldsNext(d: Data, settings: seq<Cmdline.Setting>, i: nat)
    requires i < |settings| && Holds(d, Kept(Entries(settings[..i])))
    ensures var e := Entry(SplitDots(settings[i].key), settings[i].value);
      Holds(Add(d, e), Kept(Entries(settings[..i + 1])))
  {
    assert settings[..i + 1][..i] == settings[..i];
    HoldsAdd(d, Entries(settings[..i]), Entry(SplitDots(settings[i].key), settings[i].value));
  }

  /** `readCmdline` on the text of `/proc/cmdline`: what it returns at every path. */
  method ReadCmdline(text: string) returns (data: Data)
    ensures Holds(data, Kept(Entries(Cmdline.ParseLine(text))))
  {
    data := map[];
    HoldsNothing();
    var items := Cmdline.Tokens(text);
    ghost var settings := Cmdline.ParseLine(text);
    assert settings[..0] == [];
    for i := 0 to |items|
      invariant Holds(data, Kept(Entries(settings[..i])))
    {
      var parsed := Cmdline.ParseToken(items[i]);
      ParsedAt(items, i);
      HoldsNext(data, settings, i);
      data := AddSetting(data, Entry(SplitDots(parsed.key), parsed.value));
    }
    assert settings[..|items|] == settings;
  }

  lemma {:induction false} ParsedAt(ts: seq<string>, i: nat)
    requires i < |ts|
    ensures Cmdline.ParseTokens(ts)[i] == Cmdline.ParseToken(ts[i])
    decreases |ts|
  {
    if i > 0 { ParsedAt(ts[1..], i - 1); }
  }

  /** If no key is a strict part of another, every setting counts: the leaves are exactly the given keys. */
  lemma {:induction false} PrefixFreeKeepsAll(es: seq<Entry>)
    requires PrefixFree(es)
    ensures Kept(es) == es
    decreases |es|
  {
    if es != [] {
      var t, e := es[..|es| - 1], es[|es| - 1];
      assert es == t + [e];
      PrefixFreeLess(t, e);
      PrefixFreeKeepsAll(t);
      KeptMore(t, e);
    }
  }

  lemma PrefixFreeLess(t: seq<Entry>, e: Entry)
    requires PrefixFree(t + [e])
    ensures PrefixFree(t) && forall i :: 0 <= i < |t| ==> !Comparable(t[i].path, e.path)
  {
    assert forall i :: 0 <= i < |t| ==> (t + [e])[i] == t[i];
    assert (t + [e])[|t|] == e;
  }

  lemma KeptMore(t: seq<Entry>, e: Entry)
    requires forall i :: 0 <= i < |Kept(t)| ==> !Comparable(Kept(t)[i].path, e.path)
    ensures Kept(t + [e]) == Kept(t) + [e]
  {
    assert (t + [e])[..|t|] == t;
  }

  /** Whatever the keys, a setting is left out only because of one that counts. */
  lemma {:induction false} LeftOutOnlyForOneKept(es: seq<Entry>, i: nat)
    requires i < |es|
    ensures es[i] in Kept(es) || exists j :: 0 <= j < |Kept(es)| && Comparable(Kept(es)[j].path, es[i].path)
    decreases |es|
  {
    var t, e := es[..|es| - 1], es[|es| - 1];
    var k, k' := Kept(t), Kept(es);
    if i == |es| - 1 {
      if !(exists j :: 0 <= j < |k| && Comparable(k[j].path, e.path)) {
        assert k'[|k|] == e;
      }
    } else {
      LeftOutOnlyForOneKept(t, i);
      if t[i] in k {
        var j :| 0 <= j < |k| && k[j] == t[i];
        assert k'[j] == k[j];
      } else {
        var j :| 0 <= j < |k| && Comparable(k[j].path, t[i].path);
        assert k'[j] == k[j];
      }
    }
  }

  function JoinDots(p: Path): string
    requires p != []
  {
    if |p| == 1 then p[0] else p[0] + "." + JoinDots(p[1..])
  }

  /** Splitting a key loses nothing, and leaves no dot in any part. */
  lemma {:induction false} SplitJoin(s: string)
    ensures JoinDots(SplitDots(s)) == s
    ensures forall i, j :: 0 <= i < |SplitDots(s)| && 0 <= j < |SplitDots(s)[i]| ==> SplitDots(s)[i][j] != '.'
    decreases |s|
  {
    var q := Cmdline.Find(s, '.');
    if q < |s| {
      SplitJoin(s[q + 1..]);
      assert SplitDots(s)[1..] == SplitDots(s[q + 1..]);
      assert s == s[..q] + "." + s[q + 1..];
    }
  }

  // ---------- The documented form for maps ----------

  lemma SplitAtDot(first: string, last: string)
    requires forall i :: 0 <= i < |first| ==> first[i] != '.'
    ensures SplitDots(first + ['.'] + last) == [first] + SplitDots(last)
  {
    var s := first + ['.'] + last;
    Cmdline.FindIn(first, '.', last);
    assert s[..|first|] == first && s[|first| + 1..] == last;
  }

  lemma NoDotsInFirst(s: string)
    ensures SplitDots(s)[0] <= s && forall i :: 0 <= i < |SplitDots(s)[0]| ==> SplitDots(s)[0][i] != '.'
    ensures |SplitDots(s)[0]| == Cmdline.Find(s, '.')
  {}

  /** What is put behind a key joins its last part. */
  lemma {:induction false} SplitAppend(a: string, x: string)
    ensures var p := SplitDots(a); SplitDots(a + x) == p[..|p| - 1] + SplitDots(p[|p| - 1] + x)
    decreases |a|
  {
    var q := Cmdline.Find(a, '.');
    if q < |a| {
      var first, last := a[..q], a[q + 1..];
      assert a == first + ['.'] + last;
      SplitAtDot(first, last);
      SplitFurther(first, last, x);
      SplitAppend(last, x);
    }
  }

  lemma SplitFurther(first: string, last: string, x: string)
    requires forall i :: 0 <= i < |first| ==> first[i] != '.'
    ensures SplitDots(first + ['.'] + last + x) == [first] + SplitDots(last + x)
  {
    Assoc(first + ['.'], last, x);
    SplitAtDot(first, last + x);
  }

  function Bracketed(a: string, b: string): string {
    a + ("[" + b + "]")
  }

  /** Where the key ends, the part with the bracket is longer than the last part without. */
  lemma BracketedPath(a: string, b: string)
    ensures var p, r := SplitDots(a), SplitDots(Bracketed(a, b));
      |r| >= |p| && r[..|p| - 1] == p[..|p| - 1] && |r[|p| - 1]| > |p[|p| - 1]|
  {
    var p := SplitDots(a);
    var last := p[|p| - 1];
    SplitAppend(a, "[" + b + "]");
    SplitJoin(a);
    var s := last + ("[" + b + "]");
    NoDotsInFirst(s);
    assert forall i :: 0 <= i < |last| ==> s[i] == last[i];
    assert s[|last|] == '[';
    assert Cmdline.Find(s, '.') > |last|;
  }

  /** What is found when one setting is all there is. */
  ghost predicate HoldsOne(d: Data, p: Path, v: string) {
    forall q: Path {:trigger Get(d, q)} :: q != [] ==> FoundOne(d, p, v, q)
  }

  predicate FoundOne(d: Data, p: Path, v: string, q: Path) {
    if q == p then Get(d, q) == Some(Str(v))
    else if q < p then Get(d, q).Some? && Get(d, q).value.Obj?
    else Get(d, q) == None
  }

  lemma OneAt(d: Data, e: Entry, q: Path)
    requires HoldsAt(d, [e], q)
    ensures FoundOne(d, e.path, e.value, q)
  {
    assert [e][..0] == [];
    assert ValuesAt([e], q) == if e.path == q then [e.value] else [];
    assert [e][0] == e && (HasBelow([e], q) <==> q < e.path);
  }

  lemma OneSetting(d: Data, key: string, v: string)
    requires Holds(d, Kept(Entries([Cmdline.Setting(key, v)])))
    ensures HoldsOne(d, SplitDots(key), v)
  {
    var e := Entry(SplitDots(key), v);
    OneEntry(key, v);
    forall q: Path | q != []
      ensures FoundOne(d, e.path, e.value, q)
    {
      assert HoldsAt(d, [e], q);
      OneAt(d, e, q);
    }
  }

  lemma OneEntry(key: string, v: string)
    ensures Kept(Entries([Cmdline.Setting(key, v)])) == [Entry(SplitDots(key), v)]
  {
    var s := Cmdline.Setting(key, v);
    assert [s][..0] == [] && Entries([]) == [];
    assert Entries([s]) == [Entry(SplitDots(key), v)];
    assert [Entry(SplitDots(key), v)][..0] == [];
  }

  /** A key with brackets is a key like any other: nothing is found where the map form would put the value. */
  lemma BracketsAreNoMap(d: Data, a: string, b: string, v: string)
    requires HoldsOne(d, SplitDots(Bracketed(a, b)), v)
    ensures Get(d, SplitDots(a) + [b]) == None
    ensures Get(d, SplitDots(Bracketed(a, b))) == Some(Str(v))
  {
    var p, r := SplitDots(a), SplitDots(Bracketed(a, b));
    BracketedPath(a, b);
    assert (p + [b])[|p| - 1] == p[|p| - 1];
    assert FoundOne(d, r, v, p + [b]) && FoundOne(d, r, v, r);
  }

  /** So it is for the text `a[b]=v`, quoted if `v` has white space in it, on a command line of its own. */
  lemma DocumentedFormIsNoMap(d: Data, a: string, b: string, v: string, text: string)
    requires Cmdline.Printable(Cmdline.Setting(Bracketed(a, b), v))
      && text == Cmdline.Render(Cmdline.Setting(Bracketed(a, b), v), false)
    requires Holds(d, Kept(Entries(Cmdline.ParseLine(text))))
    ensures HoldsOne(d, SplitDots(Bracketed(a, b)), v)
    ensures Get(d, SplitDots(a) + [b]) == None
  {
    var s := Cmdline.Setting(Bracketed(a, b), v);
    Cmdline.CmdlineRoundTrip([s], [false], [""]);
    assert Cmdline.Print([s], [false], [""]) == text;
    OneSetting(d, Bracketed(a, b), v);
    BracketsAreNoMap(d, a, b, v);
  }

  predicate NoDot(s: string) {
    forall i :: 0 <= i < |s| ==> s[i] != '.'
  }

  lemma NoDots(s: string)
    requires NoDot(s)
    ensures SplitDots(s) == [s]
  {
    Cmdline.FindIn(s, '.', []);
  }

  lemma TwoParts(a: string, b: string)
    requires NoDot(a) && NoDot(b)
    ensures SplitDots(a + "." + b) == [a, b]
  {
    assert a + "." + b == a + ['.'] + b;
    SplitAtDot(a, b);
    NoDots(b);
  }

  lemma ThreeParts(a: string, b: string, c: string)
    requires NoDot(a) && NoDot(b) && NoDot(c)
    ensures SplitDots(a + "." + (b + "." + c)) == [a, b, c]
  {
    assert a + "." + (b + "." + c) == a + ['.'] + (b + "." + c);
    SplitAtDot(a, b + "." + c);
    TwoParts(b, c);
  }

  lemma Assoc(x: string, y: string, z: string)
    ensures x + y + z == x + (y + z)
  {}

  /** The same text, cut at its two dots. */
  lemma Recut(a1: string, a2: string, b1: string, b2: string, dot: string, open: string, close: string)
    ensures (a1 + dot + a2) + (open + (b1 + dot + b2) + close) == a1 + dot + ((a2 + open + b1) + dot + (b2 + close))
  {
    var inner := b1 + dot + b2;
    Assoc(a1 + dot, a2, open + inner + close);
    Assoc(open, inner, close);
    Assoc(b1, dot, b2);
    Assoc(b1, dot + b2, close);
    Assoc(dot, b2, close);
    Assoc(a2, open, b1 + (dot + (b2 + close)));
    Assoc(a2 + open, b1, dot + (b2 + close));
    Assoc(a2 + open + b1, dot, b2 + close);
  }

  /** A bracketed key with a dot inside and one outside the brackets is cut at both. */
  lemma DottedBrackets(a1: string, a2: string, b1: string, b2: string)
    requires NoDot(a1) && NoDot(a2) && NoDot(b1) && NoDot(b2)
    ensures SplitDots(Bracketed(a1 + "." + a2, b1 + "." + b2)) == [a1, a2 + "[" + b1, b2 + "]"]
  {
    ThreeParts(a1, a2 + "[" + b1, b2 + "]");
    Recut(a1, a2, b1, b2, ".", "[", "]");
  }

  /** A dotted key of a dotted map, in the documented form, on a command line of its own. */
  lemma DottedMapKey(d: Data, a1: string, a2: string, b1: string, b2: string, v: string, text: string)
    requires NoDot(a1) && NoDot(a2) && NoDot(b1) && NoDot(b2)
    requires Cmdline.Printable(Cmdline.Setting(Bracketed(a1 + "." + a2, b1 + "." + b2), v))
    requires text == Cmdline.Render(Cmdline.Setting(Bracketed(a1 + "." + a2, b1 + "." + b2), v), false)
    requires Holds(d, Kept(Entries(Cmdline.ParseLine(text))))
    ensures Get(d, [a1, a2, b1 + "." + b2]) == None
    ensures Get(d, [a1, a2 + "[" + b1, b2 + "]"]) == Some(Str(v))
  {
    var a, b := a1 + "." + a2, b1 + "." + b2;
    DocumentedFormIsNoMap(d, a, b, v, text);
    BracketsAreNoMap(d, a, b, v);
    DottedBrackets(a1, a2, b1, b2);
    TwoParts(a1, a2);
    assert [a1, a2] + [b] == [a1, a2, b];
  }

  /** The example of the documentation: there is no `kernel.printk` under `sysctl`. */
  lemma DocumentedLine(d: Data, text: string)
    requires text == "k3os.sysctl[kernel.printk]=\"4 4 1 7\""
    requires Holds(d, Kept(Entries(Cmdline.ParseLine(text))))
    ensures Get(d, ["k3os", "sysctl", "kernel.printk"]) == None
    ensures Get(d, ["k3os", "sysctl[kernel", "printk]"]) == Some(Str("4 4 1 7"))
  {
    var a1, a2, b1, b2, v := "k3os", "sysctl", "kernel", "printk", "4 4 1 7";
    var key := "k3os.sysctl[kernel.printk]";
    DocumentedKey(a1, a2, b1, b2, key);
    DocumentedText(key, v, text);
    DottedMapKey(d, a1, a2, b1, b2, v, text);
  }

  lemma DocumentedKey(a1: string, a2: string, b1: string, b2: string, key: string)
    requires a1 == "k3os" && a2 == "sysctl" && b1 == "kernel" && b2 == "printk" && key == "k3os.sysctl[kernel.printk]"
    ensures b1 + "." + b2 == "kernel.printk" && a2 + "[" + b1 == "sysctl[kernel" && b2 + "]" == "printk]"
    ensures Bracketed(a1 + "." + a2, b1 + "." + b2) == key && NoDot(a1) && NoDot(a2) && NoDot(b1) && NoDot(b2)
  {}

  lemma DocumentedText(key: string, v: string, text: string)
    requires key == "k3os.sysctl[kernel.printk]" && v == "4 4 1 7" && text == "k3os.sysctl[kernel.printk]=\"4 4 1 7\""
    ensures Cmdline.Printable(Cmdline.Setting(key, v)) && Cmdline.Render(Cmdline.Setting(key, v), false) == text
  {
    DocumentedPrintable(key, v);
    assert Cmdline.IsSpace(v[1]);
  }

  lemma DocumentedPrintable(key: string, v: string)
    requires key == "k3os.sysctl[kernel.printk]" && v == "4 4 1 7"
    ensures Cmdline.Printable(Cmdline.Setting(key, v))
  {}

  /**
   From the documented text to the data: with keys none of which is a strict part of another, all settings
   are there.
   */
  lemma CmdlineEndToEnd(d: Data, ss: seq<Cmdline.Setting>, bare: seq<bool>, gaps: seq<string>)
    requires |ss| == |bare| == |gaps| && Cmdline.Gaps(gaps)
    requires forall i :: 0 <= i < |ss| ==> Cmdline.Printable(ss[i])
    requires PrefixFree(Entries(ss))
    requires Holds(d, Kept(Entries(Cmdline.ParseLine(Cmdline.Print(ss, bare, gaps)))))
    ensures Holds(d, Entries(ss))
    ensures forall i :: 0 <= i < |ss| ==>
      var p := SplitDots(ss[i].key);
      ss[i].value in ValuesAt(Entries(ss), p) && Get(d, p) == Some(Leaf(ValuesAt(Entries(ss), p)))
  {
    Cmdline.CmdlineRoundTrip(ss, bare, gaps);
    PrefixFreeKeepsAll(Entries(ss));
    forall i | 0 <= i < |ss|
      ensures var p := SplitDots(ss[i].key);
        ss[i].value in ValuesAt(Entries(ss), p) && Get(d, p) == Some(Leaf(ValuesAt(Entries(ss), p)))
    {
      EntryAt(ss, i);
      ValueAt(Entries(ss), i);
      assert HoldsAt(d, Entries(ss), SplitDots(ss[i].key));
    }
  }

  lemma {:induction false} EntryAt(ss: seq<Cmdline.Setting>, i: nat)
    requires i < |ss|
    ensures Entries(ss)[i] == Entry(SplitDots(ss[i].key), ss[i].value)
    decreases |ss|
  {
    if i < |ss| - 1 { EntryAt(ss[..|ss| - 1], i); }
  }

  lemma {:induction false} ValueAt(k: seq<Entry>, i: nat)
    requires i < |k|
    ensures k[i].value in ValuesAt(k, k[i].path)
    decreases |k|
  {
    if i < |k| - 1 { ValueAt(k[..|k| - 1], i); }
  }
}
