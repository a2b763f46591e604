/** The format of the environment file that `ApplyEnvironment` reads and writes. */
module EnvFile {
  import opened Basics
  import opened Iteration
  import opened Quoting

  type Env = map<string, string>

  /** What the format leaves to the libraries: which characters print, and odd literals. */
  datatype Lib = Lib(printable: char -> bool, foreign: string -> Option<string>)

  // ---------- Reading ----------

  function Width(c: char): (n: nat)
    ensures 1 <= n <= 4
  {
    if c as int < 0x80 then 1 else if c as int < 0x800 then 2 else if c as int < 0x10000 then 3 else 4
  }

  /** Length in bytes of UTF-8. */
  function Bytes(s: string): (n: nat)
    ensures n >= |s|
  {
    if s == [] then 0 else Width(s[0]) + Bytes(s[1..])
  }

  /** `unicode.IsSpace`. */
  predicate IsSpace(c: char) {
    var u := c as int;
    9 <= u <= 13 || u == 32 || u == 0x85 || u == 0xA0 || u == 0x1680 || 0x2000 <= u <= 0x200A
    || u == 0x2028 || u == 0x2029 || u == 0x202F || u == 0x205F || u == 0x3000
  }

  function TrimLeft(s: string): (t: string)
    ensures |t| <= |s| && (t != [] ==> !IsSpace(t[0]))
    ensures forall c :: c in t ==> c in s
  {
    if s != [] && IsSpace(s[0]) then TrimLeft(s[1..]) else s
  }

  function TrimRight(s: string): (t: string)
    ensures t <= s
  {
    if s != [] && IsSpace(s[|s| - 1]) then TrimRight(s[..|s| - 1]) else s
  }

  function TrimSpace(s: string): string {
    TrimRight(TrimLeft(s))
  }

  /** Position of the first `c`, or the length. */
  function IndexOf(s: string, c: char): (i: nat)
    ensures i <= |s| && c !in s[..i] && (i < |s| ==> s[i] == c)
  {
    if s == [] || s[0] == c then 0
    else
      var i := IndexOf(s[1..], c);
      assert s[..i + 1] == [s[0]] + s[1..][..i];
      i + 1
  }

  function DropReturn(line: string): string {
    if line != [] && line[|line| - 1] == '\r' then line[..|line| - 1] else line
  }

  function DropExport(line: string): string {
    if "export" <= line then line[6..] else line
  }

  /** The entry on a line, if there is one. */
  function ParseLine(lib: Lib, raw: string): Option<(string, string)> {
    var line := TrimSpace(DropReturn(raw));
    if "#" <= line then None
    else
      var rest := TrimSpace(DropExport(line));
      if Bytes(rest) <= 1 then None
      else
        var i := IndexOf(rest, '=');
        if i == |rest| then Some((rest, ""))
        else
          var val := Unquote(lib.foreign, rest[i + 1..]);
          Some((rest[..i], if val.Some? then val.value else rest[i + 1..]))
  }

  /** Longest line of a `bufio.Scanner`, its end not counted; a longer one ends the scan. */
  const MAX_LINE := 65535

  function AddLine(lib: Lib, env: Env, line: string): Env {
    var entry := ParseLine(lib, line);
    if entry.Some? then env[entry.value.0 := entry.value.1] else env
  }

  /** The entries of a file, on top of `env`. */
  function Parse(lib: Lib, file: string, env: Env): Env
    decreases |file|
  {
    if file == [] then env
    else
      var end := IndexOf(file, '\n');
      if Bytes(file[..end]) > MAX_LINE then env
      else
        var more := AddLine(lib, env, file[..end]);
        if end == |file| then more else Parse(lib, file[end + 1..], more)
  }

  // ---------- Writing ----------

  function Line(lib: Lib, key: string, val: string): string {
    key + "=" + Quote(lib.printable, val)
  }

  function Print(lib: Lib, order: seq<string>, env: Env): string
    requires forall k :: k in order ==> k in env
  {
    if order == [] then [] else Line(lib, order[0], env[order[0]]) + "\n" + Print(lib, order[1..], env)
  }

  lemma Assoc(x: string, y: string, z: string)
    ensures x + y + z == x + (y + z)
  {}

  lemma {:induction false} PrintMore(lib: Lib, order: seq<string>, env: Env, k: string)
    requires k in env && forall j :: j in order ==> j in env
    ensures forall j :: j in order + [k] ==> j in env
    ensures Print(lib, order + [k], env) == Print(lib, order, env) + (Line(lib, k, env[k]) + "\n")
    decreases |order|
  {
    var last := Line(lib, k, env[k]) + "\n";
    if order == [] {
      assert [k][1..] == [];
      assert last + [] == last && [] + last == last;
    } else {
      PrintMore(lib, order[1..], env, k);
      assert (order + [k])[1..] == order[1..] + [k];
      Assoc(Line(lib, order[0], env[order[0]]) + "\n", Print(lib, order[1..], env), last);
    }
  }

  // ---------- One line ----------

  predicate WellFormed(key: string) {
    '=' !in key && '\n' !in key && (key != [] ==> !IsSpace(key[0])) && !("#" <= key) && !("export" <= key)
  }

  predicate Fits(lib: Lib, key: string, val: string) {
    Bytes(Line(lib, key, val)) <= MAX_LINE
  }

  lemma TrimNothing(s: string)
    requires s != [] && !IsSpace(s[0]) && !IsSpace(s[|s| - 1])
    ensures TrimSpace(s) == s
  {}

  lemma IndexOfFirst(a: string, c: char, b: string)
    requires c !in a
    ensures IndexOf(a + [c] + b, c) == |a|
  {
    var s := a + [c] + b;
    assert s[|a|] == c && forall i :: 0 <= i < |a| ==> s[i] == a[i] && s[i] in a;
    assert forall i :: |a| < i <= |s| ==> s[..i][|a|] == c;
  }

  /** What is left of a printed line when the spaces are trimmed. */
  lemma LineTrimmed(lib: Lib, key: string, val: string)
    requires key != [] ==> !IsSpace(key[0])
    ensures TrimSpace(DropReturn(Line(lib, key, val))) == Line(lib, key, val)
    ensures "#" <= Line(lib, key, val) <==> "#" <= key
  {
    var line := Line(lib, key, val);
    assert line[|line| - 1] == '"' && line[0] == if key == [] then '=' else key[0];
    TrimNothing(line);
  }

  lemma ExportOfLine(lib: Lib, key: string, val: string)
    ensures "export" <= Line(lib, key, val) <==> "export" <= key
    ensures "export" <= key ==> DropExport(Line(lib, key, val)) == Line(lib, key[6..], val)
  {
    var line := Line(lib, key, val);
    assert forall i :: 0 <= i < |key| ==> line[i] == key[i];
    assert line[|key|] == '=' && forall i :: 0 <= i < 6 ==> "export"[i] != '=';
    if "export" <= key {
      assert line[6..] == key[6..] + "=" + Quote(lib.printable, val);
    }
  }

  /** The key and value of a line that has been trimmed. */
  lemma SplitLine(lib: Lib, key: string, val: string)
    requires '=' !in key
    ensures var line := Line(lib, key, val);
      Bytes(line) > 1 && IndexOf(line, '=') == |key| && line[..|key|] == key
        && Unquote(lib.foreign, line[|key| + 1..]) == Some(val)
  {
    var line := Line(lib, key, val);
    assert line == key + ['='] + Quote(lib.printable, val);
    IndexOfFirst(key, '=', Quote(lib.printable, val));
    assert line[|key| + 1..] == Quote(lib.printable, val);
    QuoteRoundTrip(lib.printable, lib.foreign, val);
  }

  /** Keys that a line of its own can carry. */
  predicate Plain(key: string) {
    '=' !in key && '\n' !in key && (key != [] ==> !IsSpace(key[0]))
  }

  /** The key that the line of `key` is read back with. */
  function Readback(key: string): Option<string> {
    if "#" <= key then None else if "export" <= key then Some(TrimLeft(key[6..])) else Some(key)
  }

  lemma {:induction false} TrimLine(lib: Lib, key: string, val: string)
    ensures TrimSpace(Line(lib, key, val)) == Line(lib, TrimLeft(key), val)
  {
    if key != [] && IsSpace(key[0]) {
      assert Line(lib, key, val)[1..] == Line(lib, key[1..], val);
      TrimLine(lib, key[1..], val);
    } else {
      LineTrimmed(lib, key, val);
      TrimNothing(Line(lib, key, val));
    }
  }

  lemma ParsePrinted(lib: Lib, key: string, val: string)
    requires Plain(key)
    ensures ParseLine(lib, Line(lib, key, val)) == if Readback(key).Some? then Some((Readback(key).value, val))
      else None
  {
    LineTrimmed(lib, key, val);
    ExportOfLine(lib, key, val);
    if "export" <= key {
      TrimLine(lib, key[6..], val);
      SplitLine(lib, TrimLeft(key[6..]), val);
    } else {
      TrimLine(lib, key, val);
      SplitLine(lib, key, val);
    }
  }

  // ---------- Whole files ----------

  function PutBack(env: Env, key: string, val: string): Env {
    if Readback(key).Some? then env[Readback(key).value := val] else env
  }

  /** What reading back the printed entries gives, on top of `acc`. */
  function After(lib: Lib, order: seq<string>, env: Env, acc: Env): Env
    requires forall k :: k in order ==> k in env
  {
    if order == [] || !Fits(lib, order[0], env[order[0]]) then acc
    else After(lib, order[1..], env, PutBack(acc, order[0], env[order[0]]))
  }

  lemma ParseFirst(lib: Lib, line: string, rest: string, acc: Env)
    requires '\n' !in line
    ensures Parse(lib, line + "\n" + rest, acc) == if Bytes(line) <= MAX_LINE
      then Parse(lib, rest, AddLine(lib, acc, line)) else acc
  {
    var file := line + "\n" + rest;
    assert file == line + ['\n'] + rest;
    IndexOfFirst(line, '\n', rest);
    assert file[..|line|] == line && file[|line| + 1..] == rest;
  }

  lemma ParseHead(lib: Lib, key: string, val: string, rest: string, acc: Env)
    requires Plain(key)
    ensures Parse(lib, Line(lib, key, val) + "\n" + rest, acc) ==
      if Fits(lib, key, val) then Parse(lib, rest, PutBack(acc, key, val)) else acc
  {
    EscapedOneLine(lib.printable, val);
    assert '\n' !in Line(lib, key, val);
    ParseFirst(lib, Line(lib, key, val), rest, acc);
    ParsePrinted(lib, key, val);
  }

  lemma {:induction false} ParsePrint(lib: Lib, order: seq<string>, env: Env, acc: Env)
    requires forall k :: k in order ==> k in env && Plain(k)
    ensures Parse(lib, Print(lib, order, env), acc) == After(lib, order, env, acc)
    decreases |order|
  {
    if order != [] {
      ParseHead(lib, order[0], env[order[0]], Print(lib, order[1..], env), acc);
      if Fits(lib, order[0], env[order[0]]) {
        ParsePrint(lib, order[1..], env, PutBack(acc, order[0], env[order[0]]));
      }
    }
  }

  /** An entry that survives being written and read. */
  predicate Survives(lib: Lib, key: string, val: string) {
    WellFormed(key) && Fits(lib, key, val)
  }

  lemma {:induction false} AllBack(lib: Lib, order: seq<string>, env: Env, acc: Env, key: string)
    requires forall k :: k in order ==> k in env && Survives(lib, k, env[k])
    ensures key in After(lib, order, env, acc) <==> key in acc || key in order
    ensures key in order ==> After(lib, order, env, acc)[key] == env[key]
    ensures key in acc && key !in order ==> After(lib, order, env, acc)[key] == acc[key]
    decreases |order|
  {
    if order != [] {
      AllBack(lib, order[1..], env, PutBack(acc, order[0], env[order[0]]), key);
      assert order == [order[0]] + order[1..];
    }
  }

  /** A key that is read back comes from an entry that fits. */
  lemma {:induction false} Origin(lib: Lib, order: seq<string>, env: Env, acc: Env, key: string) returns (from: string)
    requires (forall k :: k in order ==> k in env) && key !in acc && key in After(lib, order, env, acc)
    ensures from in order && Readback(from) == Some(key) && Fits(lib, from, env[from])
    decreases |order|
  {
    from := order[0];
    if Readback(from) != Some(key) {
      from := Origin(lib, order[1..], env, PutBack(acc, order[0], env[order[0]]), key);
    }
  }

  /** If every key is read back, every entry is one that survives: look at the longest that is not. */
  lemma {:induction false} BackMeansSurvives(lib: Lib, order: seq<string>, env: Env, key: string, longest: nat)
    requires (forall k :: k in order ==> k in env && Plain(k) && |k| <= longest) && key in order
    requires forall k :: k in order ==> k in After(lib, order, env, map[])
    ensures Survives(lib, key, env[key])
    decreases longest - |key|
  {
    var from := Origin(lib, order, env, map[], key);
    if from != key {
      BackMeansSurvives(lib, order, env, from, longest);
    }
  }

  lemma {:induction false} TrimRightChars(s: string, c: char)
    ensures c in TrimRight(s) ==> c in s
  {
    if c in TrimRight(s) { assert TrimRight(s) <= s; }
  }

  lemma ParseLinePlain(lib: Lib, raw: string)
    requires '\n' !in raw
    ensures ParseLine(lib, raw).Some? ==> Plain(ParseLine(lib, raw).value.0)
  {
    var line := TrimSpace(DropReturn(raw));
    TrimRightChars(TrimLeft(DropReturn(raw)), '\n');
    assert '\n' !in line;
    var rest := TrimSpace(DropExport(line));
    TrimRightChars(TrimLeft(DropExport(line)), '\n');
    assert '\n' !in rest;
    assert rest <= TrimLeft(DropExport(line));
  }

  lemma {:induction false} ParsePlain(lib: Lib, file: string, acc: Env)
    requires forall k :: k in acc ==> Plain(k)
    ensures forall k :: k in Parse(lib, file, acc) ==> Plain(k)
    decreases |file|
  {
    if file != [] {
      var end := IndexOf(file, '\n');
      ParseLinePlain(lib, file[..end]);
      if Bytes(file[..end]) <= MAX_LINE && end < |file| {
        ParsePlain(lib, file[end + 1..], AddLine(lib, acc, file[..end]));
      }
    }
  }

  lemma {:induction false} Longest(order: seq<string>) returns (n: nat)
    ensures forall k :: k in order ==> |k| <= n
  {
    n := 0;
    if order != [] {
      n := Longest(order[1..]);
      if |order[0]| > n { n := |order[0]|; }
    }
  }

  lemma SurvivorsBack(lib: Lib, env: Env, order: seq<string>)
    requires Orders(order, env.Keys) && forall k :: k in order ==> k in env && Survives(lib, k, env[k])
    ensures Parse(lib, Print(lib, order, env), map[]) == env
  {
    ParsePrint(lib, order, env, map[]);
    forall k
      ensures k in After(lib, order, env, map[]) <==> k in env
      ensures k in env ==> After(lib, order, env, map[])[k] == env[k]
    {
      AllBack(lib, order, env, map[], k);
    }
  }

  lemma OnlySurvivorsBack(lib: Lib, env: Env, order: seq<string>, key: string)
    requires Orders(order, env.Keys) && key in env && Parse(lib, Print(lib, order, env), map[]) == env
    ensures Survives(lib, key, env[key])
  {
    ParsePlain(lib, Print(lib, order, env), map[]);
    assert forall k :: k in order ==> k in env.Keys;
    ParsePrint(lib, order, env, map[]);
    var longest := Longest(order);
    BackMeansSurvives(lib, order, env, key, longest);
  }

  /**
   Reading back what was printed, in whatever order, gives the same map exactly when every entry
   is well formed and fits on a line.
   */
  lemma RoundTripExactly(lib: Lib, env: Env, order: seq<string>)
    requires Orders(order, env.Keys)
    ensures Parse(lib, Print(lib, order, env), map[]) == env <==> forall k :: k in env ==> Survives(lib, k, env[k])
  {
    if forall k :: k in env ==> Survives(lib, k, env[k]) {
      SurvivorsBack(lib, env, order);
    }
    if Parse(lib, Print(lib, order, env), map[]) == env {
      forall k | k in env
        ensures Survives(lib, k, env[k])
      {
        OnlySurvivorsBack(lib, env, order, k);
      }
    }
  }

  // ---------- Lines written by hand ----------

  predicate Padding(s: string) {
    forall i :: 0 <= i < |s| ==> s[i] == ' ' || s[i] == '\t'
  }

  lemma {:induction false} PadLeft(pad: string, x: string)
    requires Padding(pad) && (x != [] ==> !IsSpace(x[0]))
    ensures TrimLeft(pad + x) == x
  {
    if pad == [] {
      assert pad + x == x;
    } else {
      assert (pad + x)[1..] == pad[1..] + x;
      PadLeft(pad[1..], x);
    }
  }

  lemma {:induction false} PadRight(x: string, pad: string)
    requires Padding(pad) && (x != [] ==> !IsSpace(x[|x| - 1]))
    ensures TrimRight(x + pad) == x
    decreases |pad|
  {
    if pad == [] {
      assert x + pad == x;
    } else {
      assert (x + pad)[..|x + pad| - 1] == x + pad[..|pad| - 1];
      PadRight(x, pad[..|pad| - 1]);
    }
  }

  lemma PadBoth(pad: string, x: string, end: string)
    requires Padding(pad) && Padding(end) && x != [] && !IsSpace(x[0]) && !IsSpace(x[|x| - 1])
    ensures TrimSpace(pad + x + end) == x
  {
    Assoc(pad, x, end);
    PadLeft(pad, x + end);
    PadRight(x, end);
  }

  /** A key and a value as one writes them, without quotes. */
  predicate Bare(lib: Lib, key: string, val: string) {
    && key != [] && '=' !in key && !IsSpace(key[0]) && key[0] != '#' && !("export" <= key)
    && (val != [] ==> !IsSpace(val[|val| - 1]) && val[0] != '"') && lib.foreign(val).None?
  }

  lemma BareAssignment(lib: Lib, key: string, val: string)
    requires Bare(lib, key, val)
    ensures var x := key + "=" + val;
      && x != [] && !IsSpace(x[0]) && !IsSpace(x[|x| - 1]) && !("#" <= x) && Bytes(x) > 1
      && IndexOf(x, '=') == |key| && x[..|key|] == key && x[|key| + 1..] == val
      && Unquote(lib.foreign, val) == None
  {
    var x := key + "=" + val;
    assert x == key + ['='] + val && x[0] == key[0];
    IndexOfFirst(key, '=', val);
    assert x[|x| - 1] == if val == [] then '=' else val[|val| - 1];
  }

  lemma NoExport(key: string, val: string)
    requires '=' !in key && !("export" <= key)
    ensures DropExport(key + "=" + val) == key + "=" + val
  {
    var x := key + "=" + val;
    assert forall i :: 0 <= i < |key| ==> x[i] == key[i];
    assert x[|key|] == '=' && forall i :: 0 <= i < 6 ==> "export"[i] != '=';
  }

  /** `KEY=value`, with blanks around it, gives the key and the value as it stands. */
  lemma ParseBare(lib: Lib, pad: string, key: string, val: string, end: string)
    requires Bare(lib, key, val) && Padding(pad) && Padding(end)
    ensures ParseLine(lib, pad + (key + "=" + val) + end) == Some((key, val))
  {
    var x := key + "=" + val;
    BareAssignment(lib, key, val);
    NoReturn(pad, x, end);
    PadBoth(pad, x, end);
    NoExport(key, val);
    PadBoth([], x, []);
    assert [] + x + [] == x;
  }

  lemma NoReturn(pad: string, x: string, end: string)
    requires Padding(end) && x != [] && !IsSpace(x[|x| - 1])
    ensures DropReturn(pad + x + end) == pad + x + end
  {
    var s := pad + x + end;
    assert s[|s| - 1] == if end == [] then x[|x| - 1] else end[|end| - 1];
  }

  /** So does `export KEY=value`. */
  lemma ParseExported(lib: Lib, pad: string, gap: string, key: string, val: string, end: string)
    requires Bare(lib, key, val) && Padding(pad) && Padding(gap) && Padding(end)
    ensures ParseLine(lib, pad + ("export" + (gap + (key + "=" + val))) + end) == Some((key, val))
  {
    var x := key + "=" + val;
    var y := "export" + (gap + x);
    BareAssignment(lib, key, val);
    assert y[|y| - 1] == x[|x| - 1] && y[0] == 'e';
    NoReturn(pad, y, end);
    PadBoth(pad, y, end);
    assert y[6..] == gap + x && "export" <= y;
    PadBoth(gap, x, []);
    assert gap + x + [] == gap + x;
  }

  /** A comment gives nothing. */
  lemma ParseComment(lib: Lib, pad: string, text: string)
    requires Padding(pad)
    ensures ParseLine(lib, pad + ("#" + text)) == None
  {
    CommentLine(pad, text);
  }

  predicate Capitals(s: string) {
    forall i :: 0 <= i < |s| ==> 'A' <= s[i] <= 'Z'
  }

  lemma WordTrimmed(pad: string, word: string)
    requires Padding(pad) && word != [] && Capitals(word)
    ensures TrimSpace(DropReturn(pad + word)) == word && TrimSpace(word) == word
  {
    assert pad + word + [] == pad + word && [] + word + [] == word;
    NoReturn(pad, word, []);
    PadBoth(pad, word, []);
    PadBoth([], word, []);
  }

  lemma WordPlain(word: string)
    requires word != [] && Capitals(word)
    ensures !("#" <= word) && DropExport(word) == word && IndexOf(word, '=') == |word| && Bytes(word) >= |word|
    ensures |word| == 1 ==> Bytes(word) == 1
  {
    assert word[0] != "export"[0];
    assert forall i :: 0 <= i < |word| ==> word[i] != '=';
  }

  /** A word alone is a key with no value; a letter alone is nothing. */
  lemma ParseWord(lib: Lib, pad: string, word: string)
    requires Padding(pad) && word != [] && Capitals(word)
    ensures ParseLine(lib, pad + word) == if |word| == 1 then None else Some((word, ""))
  {
    WordTrimmed(pad, word);
    WordPlain(word);
  }

  lemma CommentLine(pad: string, text: string)
    requires Padding(pad)
    ensures "#" <= TrimSpace(DropReturn(pad + ("#" + text)))
  {
    var line := pad + ("#" + text);
    var s := DropReturn(line);
    assert line[|pad|] == '#';
    var rest := s[|pad|..];
    assert s == pad + rest;
    assert rest != [] && rest[0] == '#';
    PadLeft(pad, rest);
    TrimRightKeeps(rest);
  }

  lemma {:induction false} TrimRightKeeps(s: string)
    requires s != [] && !IsSpace(s[0])
    ensures TrimRight(s) != [] && TrimRight(s)[0] == s[0]
  {
    if IsSpace(s[|s| - 1]) { TrimRightKeeps(s[..|s| - 1]); }
  }

  // ---------- Lengths ----------

  lemma {:induction false} BytesConcat(a: string, b: string)
    ensures Bytes(a + b) == Bytes(a) + Bytes(b)
  {
    if a == [] {
      assert a + b == b;
    } else {
      assert (a + b)[1..] == a[1..] + b;
      BytesConcat(a[1..], b);
    }
  }

  /** One byte for an ASCII character, and up to four for others. */
  lemma {:induction false} BytesMean(s: string, c: char)
    ensures (forall i :: 0 <= i < |s| ==> s[i] as int < 0x80) ==> Bytes(s) == |s|
    ensures 0x80 <= c as int < 0x800 ==> Bytes([c]) == 2
    ensures 0x800 <= c as int < 0x10000 ==> Bytes([c]) == 3
    ensures 0x10000 <= c as int ==> Bytes([c]) == 4
  {
    assert Bytes([c][1..]) == 0;
    if s != [] { BytesMean(s[1..], c); }
  }

  /** A line of 65535 bytes is read, a longer one ends the reading. */
  lemma LineLimit(lib: Lib, line: string, rest: string, env: Env)
    requires '\n' !in line
    ensures Bytes(line) <= 65535 ==> Parse(lib, line + "\n" + rest, env) == Parse(lib, rest, AddLine(lib, env, line))
    ensures Bytes(line) > 65535 ==> Parse(lib, line + "\n" + rest, env) == env
  {
    ParseFirst(lib, line, rest, env);
  }
}
