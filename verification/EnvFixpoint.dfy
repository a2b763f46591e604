/**
 When writing the entries of a configuration and reading them back under the same configuration
 changes nothing, whatever the keys are and in whatever order the entries are written.
 */
module EnvFixpoint {
  import opened Basics
  import opened Iteration
  import opened EnvFile
  import Quoting

  // ---------- What one printed entry contributes ----------

  /** A line of the file is longer than the scanner takes, so that the rest is not read. */
  predicate Stops(file: string)
    decreases |file|
  {
    if file == [] then false
    else
      var end := IndexOf(file, '\n');
      Bytes(file[..end]) > MAX_LINE || (end < |file| && Stops(file[end + 1..]))
  }

  function Text(lib: Lib, key: string, val: string): string {
    Line(lib, key, val) + "\n"
  }

  /** The entries that the text of one entry is read back as; several, if the key has line ends in it. */
  function Gives(lib: Lib, key: string, val: string): Env {
    Parse(lib, Text(lib, key, val), map[])
  }

  predicate Halts(lib: Lib, key: string, val: string) {
    Stops(Text(lib, key, val))
  }

  /** Entries already there are kept under what is read. */
  lemma {:induction false} ParseOn(lib: Lib, file: string, acc: Env)
    ensures Parse(lib, file, acc) == acc + Parse(lib, file, map[])
    decreases |file|
  {
    if file != [] {
      var end := IndexOf(file, '\n');
      if Bytes(file[..end]) <= MAX_LINE {
        AddLineOn(lib, acc, file[..end]);
        if end < |file| {
          ParseOn(lib, file[end + 1..], AddLine(lib, acc, file[..end]));
          ParseOn(lib, file[end + 1..], AddLine(lib, map[], file[..end]));
          ParseOnLine(lib, file, acc, end, file[end + 1..]);
        }
      }
    }
  }

  lemma ParseOnLine(lib: Lib, file: string, acc: Env, end: nat, rest: string)
    requires file != [] && end == IndexOf(file, '\n') < |file| && rest == file[end + 1..]
      && Bytes(file[..end]) <= MAX_LINE
    requires var line := AddLine(lib, map[], file[..end]);
      Parse(lib, rest, acc + line) == acc + line + Parse(lib, rest, map[])
        && Parse(lib, rest, line) == line + Parse(lib, rest, map[])
    requires AddLine(lib, acc, file[..end]) == acc + AddLine(lib, map[], file[..end])
    ensures Parse(lib, file, acc) == acc + Parse(lib, file, map[])
  {
    SumAssociates(acc, AddLine(lib, map[], file[..end]), Parse(lib, rest, map[]));
  }

  lemma AddLineOn(lib: Lib, acc: Env, line: string)
    ensures AddLine(lib, acc, line) == acc + AddLine(lib, map[], line)
  {}

  lemma SumAssociates(a: Env, b: Env, c: Env)
    ensures a + b + c == a + (b + c)
  {}

  /** Whole lines in front of a text. */
  lemma {:induction false} ParseConcat(lib: Lib, a: string, b: string, acc: Env)
    requires a != [] ==> a[|a| - 1] == '\n'
    ensures Parse(lib, a + b, acc) == if Stops(a) then Parse(lib, a, acc) else Parse(lib, b, Parse(lib, a, acc))
    decreases |a|
  {
    if a == [] {
      assert a + b == b;
    } else {
      var end := IndexOf(a, '\n');
      LineInFront(a, b);
      if Bytes(a[..end]) <= MAX_LINE {
        ParseConcat(lib, a[end + 1..], b, AddLine(lib, acc, a[..end]));
      }
    }
  }

  lemma LineInFront(a: string, b: string)
    requires a != [] && a[|a| - 1] == '\n'
    ensures var end := IndexOf(a, '\n');
      && end < |a| && IndexOf(a + b, '\n') == end && (a + b)[..end] == a[..end]
           && (a + b)[end + 1..] == a[end + 1..] + b
      && (a[end + 1..] != [] ==> a[end + 1..][|a[end + 1..]| - 1] == '\n')
  {
    var end := IndexOf(a, '\n');
    IndexOfIn(a, '\n');
    assert a + b == a[..end] + ['\n'] + (a[end + 1..] + b);
    IndexOfFirst(a[..end], '\n', a[end + 1..] + b);
  }

  lemma IndexOfIn(s: string, c: char)
    requires s != [] && s[|s| - 1] == c
    ensures IndexOf(s, c) < |s|
  {
    assert s[..|s|] == s;
  }

  // ---------- What a printed list is read back as ----------

  function Gather(lib: Lib, order: seq<string>, env: Env): Env
    requires forall k :: k in order ==> k in env
  {
    if order == [] then map[]
    else if Halts(lib, order[0], env[order[0]]) then Gives(lib, order[0], env[order[0]])
    else Gives(lib, order[0], env[order[0]]) + Gather(lib, order[1..], env)
  }

  lemma {:induction false} PrintGather(lib: Lib, order: seq<string>, env: Env)
    requires forall k :: k in order ==> k in env
    ensures Parse(lib, Print(lib, order, env), map[]) == Gather(lib, order, env)
    decreases |order|
  {
    if order != [] {
      var text, rest := Text(lib, order[0], env[order[0]]), Print(lib, order[1..], env);
      assert Print(lib, order, env) == text + rest;
      ParseConcat(lib, text, rest, map[]);
      ParseOn(lib, rest, Gives(lib, order[0], env[order[0]]));
      PrintGather(lib, order[1..], env);
    }
  }

  /** Every entry read back comes from a printed one. */
  lemma {:induction false} GatherFrom(lib: Lib, order: seq<string>, env: Env, q: string) returns (k: string)
    requires (forall k :: k in order ==> k in env) && q in Gather(lib, order, env)
    ensures k in order && q in Gives(lib, k, env[k]) && Gather(lib, order, env)[q] == Gives(lib, k, env[k])[q]
    decreases |order|
  {
    k := order[0];
    if !Halts(lib, k, env[k]) && q in Gather(lib, order[1..], env) {
      k := GatherFrom(lib, order[1..], env, q);
    }
  }

  /** If nothing stops the reading, every printed entry is read. */
  lemma {:induction false} GatherAll(lib: Lib, order: seq<string>, env: Env, k: string, q: string)
    requires (forall k :: k in order ==> k in env && !Halts(lib, k, env[k])) && k in order && q in Gives(lib, k, env[k])
    ensures q in Gather(lib, order, env)
    decreases |order|
  {
    if k != order[0] {
      GatherAll(lib, order[1..], env, k, q);
    }
  }

  /** If something does, the entry that stops it has the last word. */
  lemma {:induction false} GatherHalts(lib: Lib, order: seq<string>, env: Env, s: string, q: string, v: string)
    requires (forall k :: k in order ==> k in env) && s in order && Halts(lib, s, env[s])
    requires forall k :: k in order && Halts(lib, k, env[k]) ==>
      q in Gives(lib, k, env[k]) && Gives(lib, k, env[k])[q] == v
    ensures q in Gather(lib, order, env) && Gather(lib, order, env)[q] == v
    decreases |order|
  {
    if !Halts(lib, order[0], env[order[0]]) {
      GatherHalts(lib, order[1..], env, s, q, v);
    }
  }

  /** If nothing does, the last entry has. */
  lemma {:induction false} GatherLast(lib: Lib, front: seq<string>, k: string, env: Env, q: string)
    requires forall j :: j in front + [k] ==> j in env && !Halts(lib, j, env[j])
    requires q in Gives(lib, k, env[k])
    ensures q in Gather(lib, front + [k], env) && Gather(lib, front + [k], env)[q] == Gives(lib, k, env[k])[q]
    decreases |front|
  {
    var order := front + [k];
    assert k in order && forall j :: j in front ==> j in order;
    if front == [] {
      assert order[1..] == [];
    } else {
      assert order[0] == front[0] && order[1..] == front[1..] + [k];
      GatherLast(lib, front[1..], k, env, q);
    }
  }

  // ---------- The condition ----------

  ghost predicate NothingHalts(lib: Lib, m: Env) {
    forall k :: k in m ==> !Halts(lib, k, m[k])
  }

  /** For every order, `q` is read back with its value. */
  ghost predicate ReadBack(lib: Lib, m: Env, q: string)
    requires q in m
  {
    && (forall k :: k in m && Halts(lib, k, m[k]) ==> q in Gives(lib, k, m[k]) && Gives(lib, k, m[k])[q] == m[q])
    && (NothingHalts(lib, m) ==>
          && (exists k :: k in m && q in Gives(lib, k, m[k]))
          && (forall k :: k in m && q in Gives(lib, k, m[k]) ==> Gives(lib, k, m[k])[q] == m[q]))
  }

  /** The text of an entry is read back as entries that are there. */
  ghost predicate AddsNothing(lib: Lib, m: Env, k: string)
    requires k in m
  {
    forall q :: q in Gives(lib, k, m[k]) ==> q in m
  }

  /** No printed entry adds a key, and each key that the configuration does not set is read back. */
  ghost predicate Steady(lib: Lib, m: Env, config: Env) {
    && (forall k :: k in m ==> AddsNothing(lib, m, k))
    && (forall q :: q in m && q !in config ==> ReadBack(lib, m, q))
  }

  /** Reading back what was written in this order, under the same configuration. */
  ghost predicate SameAgain(lib: Lib, m: Env, config: Env, order: seq<string>) {
    Orders(order, m.Keys) ==> Parse(lib, Print(lib, order, m), map[]) + config == m
  }

  lemma SteadySuffices(lib: Lib, m: Env, config: Env, order: seq<string>)
    requires Steady(lib, m, config) && Orders(order, m.Keys) && forall k :: k in config ==> k in m && m[k] == config[k]
    ensures Parse(lib, Print(lib, order, m), map[]) + config == m
  {
    PrintGather(lib, order, m);
    var g := Gather(lib, order, m);
    forall q
      ensures q in g ==> q in m
      ensures q in m && q !in config ==> q in g && g[q] == m[q]
    {
      NoneAdded(lib, m, order, q);
      if q in m && q !in config { SteadyAt(lib, m, order, q); }
    }
    Overridden(g, config, m);
  }

  lemma Overridden(g: Env, config: Env, m: Env)
    requires forall k :: k in config ==> k in m && m[k] == config[k]
    requires forall q :: q in g ==> q in m
    requires forall q :: q in m && q !in config ==> q in g && g[q] == m[q]
    ensures g + config == m
  {}

  lemma NoneAdded(lib: Lib, m: Env, order: seq<string>, q: string)
    requires Orders(order, m.Keys) && forall k :: k in m ==> AddsNothing(lib, m, k)
    ensures q in Gather(lib, order, m) ==> q in m
  {
    if q in Gather(lib, order, m) {
      var k := GatherFrom(lib, order, m, q);
      assert AddsNothing(lib, m, k);
    }
  }

  lemma SteadyAt(lib: Lib, m: Env, order: seq<string>, q: string)
    requires Orders(order, m.Keys) && q in m && ReadBack(lib, m, q)
    ensures q in Gather(lib, order, m) && Gather(lib, order, m)[q] == m[q]
  {
    if s :| s in m && Halts(lib, s, m[s]) {
      GatherHalts(lib, order, m, s, q, m[q]);
    } else {
      var k :| k in m && q in Gives(lib, k, m[k]);
      GatherAll(lib, order, m, k, q);
      var j := GatherFrom(lib, order, m, q);
    }
  }

  /** An order that begins with `k`. */
  lemma OrderFrom(keys: set<string>, k: string) returns (order: seq<string>)
    requires k in keys
    ensures Orders(order, keys) && order[0] == k
  {
    var rest := SomeOrder(keys - {k});
    order := [k] + rest;
    assert forall j :: j in order <==> j == k || j in rest;
  }

  /** An order that ends with `k`. */
  lemma OrderTo(keys: set<string>, k: string) returns (front: seq<string>)
    requires k in keys
    ensures Orders(front + [k], keys)
  {
    front := SomeOrder(keys - {k});
  }

  lemma SteadyNeeded(lib: Lib, m: Env, config: Env)
    requires forall order :: SameAgain(lib, m, config, order)
    requires forall k :: k in config ==> k in m
    ensures Steady(lib, m, config)
  {
    forall k | k in m
      ensures AddsNothing(lib, m, k)
    {
      var order := OrderFrom(m.Keys, k);
      assert SameAgain(lib, m, config, order);
      PrintGather(lib, order, m);
    }
    forall q | q in m && q !in config
      ensures ReadBack(lib, m, q)
    {
      forall k | k in m && Halts(lib, k, m[k])
        ensures q in Gives(lib, k, m[k]) && Gives(lib, k, m[k])[q] == m[q]
      {
        var order := OrderFrom(m.Keys, k);
        assert SameAgain(lib, m, config, order);
        PrintGather(lib, order, m);
      }
      if NothingHalts(lib, m) { ReadBackNeeded(lib, m, config, q); }
    }
  }

  lemma ReadBackNeeded(lib: Lib, m: Env, config: Env, q: string)
    requires forall order :: SameAgain(lib, m, config, order)
    requires NothingHalts(lib, m) && q in m && q !in config
    ensures exists k :: k in m && q in Gives(lib, k, m[k])
    ensures forall k :: k in m && q in Gives(lib, k, m[k]) ==> Gives(lib, k, m[k])[q] == m[q]
  {
    var order := SomeOrder(m.Keys);
    assert SameAgain(lib, m, config, order);
    PrintGather(lib, order, m);
    var from := GatherFrom(lib, order, m, q);
    forall k | k in m && q in Gives(lib, k, m[k])
      ensures Gives(lib, k, m[k])[q] == m[q]
    {
      LastNeeded(lib, m, config, q, k);
    }
  }

  lemma LastNeeded(lib: Lib, m: Env, config: Env, q: string, k: string)
    requires forall order :: SameAgain(lib, m, config, order)
    requires NothingHalts(lib, m) && q in m && q !in config && k in m && q in Gives(lib, k, m[k])
    ensures Gives(lib, k, m[k])[q] == m[q]
  {
    var front := OrderTo(m.Keys, k);
    assert SameAgain(lib, m, config, front + [k]);
    PrintGather(lib, front + [k], m);
    GatherLast(lib, front, k, m, q);
  }

  /** Every order gives the same entries again exactly under that condition. */
  lemma SameAgainExactly(lib: Lib, m: Env, config: Env)
    requires forall k :: k in config ==> k in m && m[k] == config[k]
    ensures (forall order :: SameAgain(lib, m, config, order)) <==> Steady(lib, m, config)
  {
    if Steady(lib, m, config) {
      forall order
        ensures SameAgain(lib, m, config, order)
      {
        if Orders(order, m.Keys) { SteadySuffices(lib, m, config, order); }
      }
    }
    if forall order :: SameAgain(lib, m, config, order) {
      SteadyNeeded(lib, m, config);
    }
  }

  // ---------- Keys that one line can carry ----------

  lemma PlainGives(lib: Lib, key: string, val: string)
    requires Plain(key)
    ensures Gives(lib, key, val) == if Fits(lib, key, val) then PutBack(map[], key, val) else map[]
  {
    ParseHead(lib, key, val, [], map[]);
    assert Text(lib, key, val) + [] == Text(lib, key, val);
  }

  lemma StopsAtLine(line: string)
    requires '\n' !in line
    ensures Stops(line + "\n") <==> Bytes(line) > MAX_LINE
  {
    var text := line + ['\n'] + [];
    assert text == line + "\n";
    IndexOfFirst(line, '\n', []);
    assert text[..|line|] == line && text[|line| + 1..] == [];
  }

  lemma PlainHalts(lib: Lib, key: string, val: string)
    requires Plain(key)
    ensures Halts(lib, key, val) <==> !Fits(lib, key, val)
  {
    Quoting.EscapedOneLine(lib.printable, val);
    StopsAtLine(Line(lib, key, val));
  }

  /** `q` is read back in every order, for keys that one line can carry. */
  ghost predicate PlainBack(lib: Lib, m: Env, q: string)
    requires q in m
  {
    && (forall k :: k in m ==> Fits(lib, k, m[k]))
    && (exists k :: k in m && Readback(k) == Some(q))
    && (forall k :: k in m && Readback(k) == Some(q) ==> m[k] == m[q])
  }

  predicate PlainAddsNothing(lib: Lib, m: Env, k: string)
    requires k in m
  {
    Fits(lib, k, m[k]) && Readback(k).Some? ==> Readback(k).value in m
  }

  /** The condition for such keys, in terms of what each key is read back as. */
  ghost predicate SteadyPlain(lib: Lib, m: Env, config: Env) {
    && (forall k :: k in m ==> PlainAddsNothing(lib, m, k))
    && (forall q :: q in m && q !in config ==> PlainBack(lib, m, q))
  }

  lemma PlainGivesAt(lib: Lib, key: string, val: string, q: string)
    requires Plain(key)
    ensures q in Gives(lib, key, val) <==> Fits(lib, key, val) && Readback(key) == Some(q)
    ensures q in Gives(lib, key, val) ==> Gives(lib, key, val)[q] == val
  {
    PlainGives(lib, key, val);
  }

  lemma PlainBackExactly(lib: Lib, m: Env, q: string)
    requires (forall k :: k in m ==> Plain(k)) && q in m
    ensures ReadBack(lib, m, q) <==> PlainBack(lib, m, q)
  {
    forall k | k in m
      ensures Halts(lib, k, m[k]) <==> !Fits(lib, k, m[k])
      ensures q in Gives(lib, k, m[k]) <==> Fits(lib, k, m[k]) && Readback(k) == Some(q)
      ensures q in Gives(lib, k, m[k]) ==> Gives(lib, k, m[k])[q] == m[k]
    {
      PlainHalts(lib, k, m[k]);
      PlainGivesAt(lib, k, m[k], q);
    }
  }

  lemma SteadyPlainExactly(lib: Lib, m: Env, config: Env)
    requires forall k :: k in m ==> Plain(k)
    ensures Steady(lib, m, config) <==> SteadyPlain(lib, m, config)
  {
    forall q | q in m
      ensures ReadBack(lib, m, q) <==> PlainBack(lib, m, q)
    {
      PlainBackExactly(lib, m, q);
    }
    forall k | k in m
      ensures AddsNothing(lib, m, k) <==> PlainAddsNothing(lib, m, k)
    {
      PlainAdds(lib, m, k);
    }
  }

  lemma PlainAdds(lib: Lib, m: Env, k: string)
    requires k in m && Plain(k)
    ensures AddsNothing(lib, m, k) <==> PlainAddsNothing(lib, m, k)
  {
    forall q
      ensures q in Gives(lib, k, m[k]) <==> Fits(lib, k, m[k]) && Readback(k) == Some(q)
    {
      PlainGivesAt(lib, k, m[k], q);
    }
    if Readback(k).Some? { PlainGivesAt(lib, k, m[k], Readback(k).value); }
  }
}
