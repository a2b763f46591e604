/**
 How `readCmdline` takes `/proc/cmdline` apart: the matches of
 `("[^"]+")|([^\s]+=("[^"]+")|([^\s]+))`, leftmost first, and the key and value in each.
 */
module Cmdline {
  /** The class `\s` of Go's regular expressions. */
  predicate IsSpace(c: char) {
    c == ' ' || c == '\t' || c == '\n' || c == '\r' || c == 12 as char
  }

  predicate NoSpace(s: string) {
    forall i :: 0 <= i < |s| ==> !IsSpace(s[i])
  }

  predicate AllSpace(s: string) {
    forall i :: 0 <= i < |s| ==> IsSpace(s[i])
  }

  predicate NoQuote(s: string) {
    forall i :: 0 <= i < |s| ==> s[i] != '"'
  }

  // ---------- The three alternatives of the pattern, at the beginning of a text ----------

  /** A quoted text from `a` up to `e`. */
  predicate QuotedAt(s: string, a: nat, e: nat) {
    a + 3 <= e <= |s| && s[a] == '"' && s[e - 1] == '"' && forall i :: a < i < e - 1 ==> s[i] != '"'
  }

  predicate WordTo(s: string, e: nat) {
    1 <= e <= |s| && forall i :: 0 <= i < e ==> !IsSpace(s[i])
  }

  /** A word, an equals sign at `k`, and a quoted text up to `e`. */
  predicate AssignTo(s: string, k: nat, e: nat) {
    WordTo(s, k) && k < |s| && s[k] == '=' && QuotedAt(s, k + 1, e)
  }

  // ---------- Matching ----------

  /** The position of the first `c` from `from` on, or the length. */
  function Find(s: string, c: char, from: nat := 0): (q: nat)
    requires from <= |s|
    ensures from <= q <= |s|
    ensures q < |s| ==> s[q] == c
    ensures forall i :: from <= i < q ==> s[i] != c
    decreases |s| - from
  {
    if from == |s| || s[from] == c then from else Find(s, c, from + 1)
  }

  /** The length of the longest beginning of `s` without white space. */
  function WordLength(s: string, from: nat := 0): (q: nat)
    requires from <= |s| && forall i :: 0 <= i < from ==> !IsSpace(s[i])
    ensures from <= q <= |s| && forall i :: 0 <= i < q ==> !IsSpace(s[i])
    ensures q < |s| ==> IsSpace(s[q])
    decreases |s| - from
  {
    if from == |s| || IsSpace(s[from]) then from else WordLength(s, from + 1)
  }

  /** The end of the quoted text at position `a`, or 0. */
  function QuotedEnd(s: string, a: nat): (e: nat)
    ensures e != 0 ==> QuotedAt(s, a, e)
    ensures e == 0 ==> forall i: nat :: !QuotedAt(s, a, i)
  {
    if a >= |s| || s[a] != '"' then 0
    else
      var q := Find(s, '"', a + 1);
      if q == |s| || q == a + 1 then 0 else q + 1
  }

  /** The last equals sign up to position `top` that a quoted text follows, or 0. */
  function LastAssign(s: string, top: nat): (k: nat)
    requires top < |s|
    ensures k <= top
    ensures k != 0 ==> s[k] == '=' && QuotedEnd(s, k + 1) != 0
    ensures forall i :: k < i <= top ==> s[i] != '=' || QuotedEnd(s, i + 1) == 0
  {
    if top == 0 then 0
    else if s[top] == '=' && QuotedEnd(s, top + 1) != 0 then top
    else LastAssign(s, top - 1)
  }

  /** The length of the match at the beginning of a text that begins with no white space. */
  function TokenLength(s: string): (n: nat)
    requires s != [] && !IsSpace(s[0])
    ensures 1 <= n <= |s|
  {
    var w := WordLength(s);
    if QuotedEnd(s, 0) != 0 then QuotedEnd(s, 0)
    else
      var k := LastAssign(s, w - 1);
      if k != 0 then QuotedEnd(s, k + 1) else w
  }

  /** `FindAllString`: the matches from left to right, each begun where the last one ended. */
  function Tokens(s: string): seq<string>
    decreases |s|
  {
    if s == [] then []
    else if IsSpace(s[0]) then Tokens(s[1..])
    else [s[..TokenLength(s)]] + Tokens(s[TokenLength(s)..])
  }

  /**
   The match is the one the pattern prefers: a quoted text if there is one, else an assignment with
   the longest possible word before its equals sign, else the longest word.
   */
  lemma TokenIsPreferred(s: string)
    requires s != [] && !IsSpace(s[0])
    ensures var n := TokenLength(s);
      if exists e: nat :: QuotedAt(s, 0, e) then QuotedAt(s, 0, n)
      else if exists k: nat, e: nat :: AssignTo(s, k, e)
      then exists k: nat :: AssignTo(s, k, n) && forall j: nat, e: nat :: k < j ==> !AssignTo(s, j, e)
      else WordTo(s, n) && !(n < |s| && WordTo(s, n + 1))
  {
    if QuotedEnd(s, 0) == 0 {
      var w := WordLength(s);
      var k := LastAssign(s, w - 1);
      forall j: nat, e: nat | AssignTo(s, j, e)
        ensures j < w && s[j] == '=' && QuotedEnd(s, j + 1) != 0
      {
        assert !IsSpace(s[j]);
      }
      if k != 0 {
        assert AssignTo(s, k, TokenLength(s));
      }
    }
  }

  // ---------- Keys and values ----------

  function TrimLeft(s: string): string {
    if s != [] && s[0] == '"' then TrimLeft(s[1..]) else s
  }

  function TrimRight(s: string): string {
    if s != [] && s[|s| - 1] == '"' then TrimRight(s[..|s| - 1]) else s
  }

  /** strings.Trim with the cutset of one quote. */
  function TrimQuotes(s: string): string {
    TrimRight(TrimLeft(s))
  }

  /** One key with its value, as the loop of `readCmdline` takes them out of a token. */
  datatype Setting = Setting(key: string, value: string)

  function ParseToken(t: string): Setting {
    var q := Find(t, '=');
    Setting(TrimQuotes(t[..q]), if q == |t| then "true" else TrimQuotes(t[q + 1..]))
  }

  function ParseTokens(ts: seq<string>): (r: seq<Setting>)
    ensures |r| == |ts|
  {
    if ts == [] then [] else [ParseToken(ts[0])] + ParseTokens(ts[1..])
  }

  function ParseLine(s: string): seq<Setting> {
    ParseTokens(Tokens(s))
  }

  // ---------- What tokens, keys and values are, in terms of the text ----------

  predicate OnlyQuotes(s: string) {
    forall i :: 0 <= i < |s| ==> s[i] == '"'
  }

  lemma {:induction false} TrimLeftMeans(s: string) returns (a: nat)
    ensures a <= |s| && OnlyQuotes(s[..a]) && TrimLeft(s) == s[a..] && (a < |s| ==> s[a] != '"')
  {
    a := 0;
    if s != [] && s[0] == '"' {
      a := TrimLeftMeans(s[1..]);
      a := a + 1;
      assert s[..a] == [s[0]] + s[1..][..a - 1];
    }
  }

  lemma {:induction false} TrimRightMeans(s: string) returns (b: nat)
    ensures b <= |s| && OnlyQuotes(s[b..]) && TrimRight(s) == s[..b] && (b > 0 ==> s[b - 1] != '"')
  {
    b := |s|;
    if s != [] && s[|s| - 1] == '"' {
      var t := s[..|s| - 1];
      b := TrimRightMeans(t);
      assert s[b..] == t[b..] + ['"'];
    }
  }

  /** Trimming takes all the quotes at both ends, and nothing else. */
  lemma TrimQuotesMeans(s: string) returns (a: nat, b: nat)
    ensures a <= b <= |s| && OnlyQuotes(s[..a]) && OnlyQuotes(s[b..]) && TrimQuotes(s) == s[a..b]
    ensures a < b ==> s[a] != '"' && s[b - 1] != '"'
  {
    a := TrimLeftMeans(s);
    b := TrimRightMeans(s[a..]);
    assert s[a..][b..] == s[a + b..] && s[a..][..b] == s[a..a + b];
    b := a + b;
  }

  /** The key is what stands before the first equals sign, the value what stands after it, or `true` without one. */
  lemma ParseTokenMeans(k: string, v: string)
    requires '=' !in k
    ensures ParseToken(k + "=" + v) == Setting(TrimQuotes(k), TrimQuotes(v))
    ensures ParseToken(k) == Setting(TrimQuotes(k), "true")
  {
    assert forall i :: 0 <= i < |k| ==> k[i] in k;
    FindIn(k, '=', v);
    var t := k + "=" + v;
    assert t == k + ['='] + v && t[..|k|] == k && t[|k| + 1..] == v && k[..|k|] == k;
  }

  /** A setting that is quoted as a whole is one token, and is read without its quotes. */
  lemma QuotedWhole(k: string, v: string, rest: string)
    requires '=' !in k && '"' !in k && '"' !in v && v != []
    ensures var t := "\"" + k + "=" + v + "\""; TokenLength(t + rest) == |t|
    ensures k != [] ==> ParseToken("\"" + k + "=" + v + "\"") == Setting(k, v)
  {
    QuotedWholeToken(k + "=" + v, rest);
    var t := "\"" + k + "=" + v + "\"";
    assert t == "\"" + (k + "=" + v) + "\"";
    assert t == ("\"" + k) + "=" + (v + "\"");
    ParseTokenMeans("\"" + k, v + "\"");
    if k != [] {
      TrimFront(k);
      TrimBack(v);
    }
  }

  lemma QuotedWholeToken(x: string, rest: string)
    requires '"' !in x && x != []
    ensures TokenLength("\"" + x + "\"" + rest) == |x| + 2
  {
    var s := "\"" + x + "\"" + rest;
    assert s[0] == '"' && s[|x| + 1] == '"';
    assert forall i :: 0 < i <= |x| ==> s[i] == x[i - 1] && x[i - 1] in x;
    assert Find(s, '"', 1) == |x| + 1;
  }

  lemma TrimFront(k: string)
    requires '"' !in k && k != []
    ensures TrimQuotes("\"" + k) == k
  {
    var s := "\"" + k;
    assert s[1..] == k && k[0] in k && k[|k| - 1] in k;
    assert TrimLeft(s) == TrimLeft(k) == k;
  }

  lemma TrimBack(v: string)
    requires '"' !in v && v != []
    ensures TrimQuotes(v + "\"") == v
  {
    var s := v + "\"";
    assert s[..|v|] == v && v[0] in v && v[|v| - 1] in v && s[0] == v[0];
    assert TrimLeft(s) == s;
    assert TrimRight(s) == TrimRight(v) == v;
  }

  predicate Blank(c: char) {
    c == ' ' || c == '\t' || c == '\n' || c == '\r' || c as int == 12
  }

  /** How much white space a text begins with. */
  function Gap(s: string): (n: nat)
    ensures n <= |s| && (forall i :: 0 <= i < n ==> Blank(s[i])) && (n < |s| ==> !Blank(s[n]))
  {
    if s == [] || !Blank(s[0]) then 0 else 1 + Gap(s[1..])
  }

  /** The tokens one by one: after any white space the preferred match, then the tokens of what follows it. */
  lemma {:induction false} TokensOneByOne(s: string)
    ensures Gap(s) == |s| ==> Tokens(s) == []
    ensures Gap(s) < |s| ==>
      var t := s[Gap(s)..];
      !IsSpace(t[0]) && Tokens(s) == [t[..TokenLength(t)]] + Tokens(t[TokenLength(t)..])
    decreases |s|
  {
    if s != [] && Blank(s[0]) {
      TokensOneByOne(s[1..]);
      assert s[Gap(s)..] == s[1..][Gap(s[1..])..];
    } else if s != [] {
      assert s[0..] == s;
    }
  }

  // ---------- The documented way to write settings ----------

  predicate PlainKey(k: string) {
    k != [] && NoSpace(k) && NoQuote(k) && forall i :: 0 <= i < |k| ==> k[i] != '='
  }

  predicate Printable(s: Setting) {
    PlainKey(s.key) && NoQuote(s.value)
  }

  /** `key` for true, `key=value`, or `key="value"` for a value with white space. */
  function Render(s: Setting, bare: bool): string {
    if bare && s.value == "true" then s.key
    else if NoSpace(s.value) then s.key + "=" + s.value
    else s.key + "=\"" + s.value + "\""
  }

  /** The settings one after the other, each followed by white space of any kind and amount. */
  function Print(ss: seq<Setting>, bare: seq<bool>, gaps: seq<string>): string
    requires |ss| == |bare| == |gaps|
  {
    if ss == [] then [] else Render(ss[0], bare[0]) + gaps[0] + Print(ss[1..], bare[1..], gaps[1..])
  }

  predicate Gaps(gaps: seq<string>) {
    forall i :: 0 <= i < |gaps| ==> AllSpace(gaps[i]) && (i < |gaps| - 1 ==> gaps[i] != [])
  }

  lemma TokensSkip(gap: string, rest: string)
    requires AllSpace(gap)
    ensures Tokens(gap + rest) == Tokens(rest)
  {
    if gap == [] {
      assert gap + rest == rest;
    } else {
      assert (gap + rest)[1..] == gap[1..] + rest;
      TokensSkip(gap[1..], rest);
    }
  }

  lemma TrimNothing(s: string)
    requires NoQuote(s)
    ensures TrimQuotes(s) == s
  {
  }

  lemma TrimOnePair(v: string)
    requires NoQuote(v) && v != []
    ensures TrimQuotes("\"" + v + "\"") == v
  {
    var s := "\"" + v + "\"";
    var t := v + "\"";
    assert s[0] == '"' && s[1..] == t;
    assert t[0] == v[0];
    assert TrimLeft(s) == TrimLeft(t) == t;
    assert t[|t| - 1] == '"' && t[..|v|] == v;
    assert TrimRight(t) == TrimRight(v) == v;
  }

  lemma FindIn(a: string, c: char, b: string)
    requires forall i :: 0 <= i < |a| ==> a[i] != c
    ensures Find(a + [c] + b, c) == |a|
    ensures Find(a, c) == |a|
  {
    var s := a + [c] + b;
    assert s[|a|] == c && forall i :: 0 <= i < |a| ==> s[i] == a[i];
  }

  /** A rendered setting without white space is one token. */
  lemma PlainToken(r: string, rest: string)
    requires r != [] && NoSpace(r) && NoQuote(r) && (rest != [] ==> IsSpace(rest[0]))
    ensures TokenLength(r + rest) == |r|
  {
    var s := r + rest;
    assert forall i :: 0 <= i < |r| ==> s[i] == r[i];
    assert rest != [] ==> s[|r|] == rest[0];
    assert WordLength(s) == |r|;
    assert forall j :: 2 <= j <= |r| ==> QuotedEnd(s, j) == 0;
  }

  lemma QuotedLetters(key: string, v: string, rest: string)
    ensures var s, k := key + "=\"" + v + "\"" + rest, |key|;
      && (forall i :: 0 <= i < k ==> s[i] == key[i])
      && s[k] == '=' && s[k + 1] == '"' && s[k + |v| + 2] == '"'
      && (forall i :: k + 2 <= i < k + |v| + 2 ==> s[i] == v[i - (k + 2)])
  {}

  /** So is one with a quoted value. */
  lemma QuotedToken(key: string, v: string, rest: string)
    requires PlainKey(key) && NoQuote(v) && !NoSpace(v)
    ensures TokenLength(key + "=\"" + v + "\"" + rest) == |key| + |v| + 3
  {
    var s := key + "=\"" + v + "\"" + rest;
    var k := |key|;
    QuotedLetters(key, v, rest);
    assert QuotedAt(s, k + 1, k + |v| + 3);
    assert Find(s, '"', k + 2) == k + |v| + 2;
    var f :| 0 <= f < |v| && IsSpace(v[f]);
    assert s[k + 2 + f] == v[f];
    var w := WordLength(s);
    assert k < w <= k + 2 + f;
    assert forall j :: k + 2 <= j <= w ==> QuotedEnd(s, j) == 0;
    assert LastAssign(s, w - 1) == k;
    assert QuotedEnd(s, 0) == 0;
  }

  lemma SplitAssignment(key: string, text: string)
    requires PlainKey(key)
    ensures ParseToken(key + "=" + text) == Setting(key, TrimQuotes(text))
  {
    FindIn(key, '=', text);
    var r := key + "=" + text;
    assert r == key + ['='] + text;
    assert r[..|key|] == key && r[|key| + 1..] == text;
    TrimNothing(key);
  }

  lemma RenderedBare(s: Setting, rest: string)
    requires Printable(s) && s.value == "true" && (rest != [] ==> IsSpace(rest[0]))
    ensures var r := Render(s, true); TokenLength(r + rest) == |r| && ParseToken(r) == s
  {
    var r := Render(s, true);
    PlainToken(r, rest);
    FindIn(r, '=', "");
    TrimNothing(s.key);
    assert r[..|r|] == r;
  }

  lemma RenderedPlain(s: Setting, rest: string)
    requires Printable(s) && NoSpace(s.value) && (rest != [] ==> IsSpace(rest[0]))
    ensures var r := Render(s, false); TokenLength(r + rest) == |r| && ParseToken(r) == s
  {
    PlainToken(Render(s, false), rest);
    SplitAssignment(s.key, s.value);
    TrimNothing(s.value);
  }

  lemma Regroup(k: string, v: string)
    ensures k + "=\"" + v + "\"" == k + "=" + ("\"" + v + "\"")
  {}

  lemma QuotedParsed(s: Setting)
    requires Printable(s) && s.value != []
    ensures ParseToken(s.key + "=" + ("\"" + s.value + "\"")) == s
  {
    SplitAssignment(s.key, "\"" + s.value + "\"");
    TrimOnePair(s.value);
  }

  lemma RenderedQuoted(s: Setting, rest: string)
    requires Printable(s) && !NoSpace(s.value) && (rest != [] ==> IsSpace(rest[0]))
    ensures var r := Render(s, false); TokenLength(r + rest) == |r| && ParseToken(r) == s
  {
    var r := Render(s, false);
    QuotedToken(s.key, s.value, rest);
    Regroup(s.key, s.value);
    QuotedParsed(s);
  }

  /** A rendered setting in front of white space is one token, and is parsed to itself. */
  lemma RenderedToken(s: Setting, bare: bool, rest: string)
    requires Printable(s) && (rest != [] ==> IsSpace(rest[0]))
    ensures var r := Render(s, bare); r != [] && !IsSpace(r[0]) && TokenLength(r + rest) == |r| && ParseToken(r) == s
  {
    assert Render(s, bare)[0] == s.key[0];
    if bare && s.value == "true" {
      RenderedBare(s, rest);
    } else if NoSpace(s.value) {
      RenderedPlain(s, rest);
    } else {
      RenderedQuoted(s, rest);
    }
  }

  lemma FirstToken(r: string, gap: string, rest: string)
    requires r != [] && !IsSpace(r[0]) && TokenLength(r + (gap + rest)) == |r|
    requires forall i :: 0 <= i < |gap| ==> IsSpace(gap[i])
    ensures Tokens(r + gap + rest) == [r] + Tokens(rest)
  {
    var s := r + gap + rest;
    assert s == r + (gap + rest);
    assert s[..|r|] == r && s[|r|..] == gap + rest;
    TokensSkip(gap, rest);
    assert s[0] == r[0];
  }

  /** The first token of a printed list is its first setting. */
  lemma HeadToken(ss: seq<Setting>, bare: seq<bool>, gaps: seq<string>)
    requires |ss| == |bare| == |gaps| && Gaps(gaps) && ss != [] && Printable(ss[0])
    ensures ParseToken(Render(ss[0], bare[0])) == ss[0]
    ensures Tokens(Print(ss, bare, gaps)) == [Render(ss[0], bare[0])] + Tokens(Print(ss[1..], bare[1..], gaps[1..]))
  {
    var r := Render(ss[0], bare[0]);
    var rest := Print(ss[1..], bare[1..], gaps[1..]);
    var tail := gaps[0] + rest;
    assert |ss| == 1 ==> rest == [];
    assert tail != [] ==> IsSpace(tail[0]) by {
      if |ss| > 1 { assert gaps[0] != []; }
    }
    RenderedToken(ss[0], bare[0], tail);
    FirstToken(r, gaps[0], rest);
  }

  /** What is written in the documented form is read back, in the same order, for any white space between. */
  lemma {:induction false} CmdlineRoundTrip(ss: seq<Setting>, bare: seq<bool>, gaps: seq<string>)
    requires |ss| == |bare| == |gaps| && Gaps(gaps)
    requires forall i :: 0 <= i < |ss| ==> Printable(ss[i])
    ensures ParseLine(Print(ss, bare, gaps)) == ss
    decreases |ss|
  {
    if ss != [] {
      HeadToken(ss, bare, gaps);
      ParseMore(Render(ss[0], bare[0]), Tokens(Print(ss[1..], bare[1..], gaps[1..])));
      CmdlineRoundTrip(ss[1..], bare[1..], gaps[1..]);
    }
  }

  lemma ParseMore(t: string, ts: seq<string>)
    ensures ParseTokens([t] + ts) == [ParseToken(t)] + ParseTokens(ts)
  {
    assert ([t] + ts)[1..] == ts;
  }
}
