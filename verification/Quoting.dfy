/**
 `strconv.Quote` and the double-quoted part of `strconv.Unquote` as of Go 1.13, on strings of runes.
 `printable` is `strconv.IsPrint` above ASCII, whatever it says; `foreign` is what `Unquote` makes of
 single-quoted and back-quoted literals, octal escapes and anything malformed.
 */
module Quoting {
  import opened Basics

  function HexDigit(d: nat): (c: char)
    requires d < 16
    ensures HexValue(c) == Some(d)
  {
    "0123456789abcdef"[d]
  }

  function HexValue(c: char): Option<nat> {
    if '0' <= c <= '9' then Some(c as int - '0' as int)
    else if 'a' <= c <= 'f' then Some(c as int - 'a' as int + 10)
    else if 'A' <= c <= 'F' then Some(c as int - 'A' as int + 10)
    else None
  }

  /** `v` in `n` hexadecimal digits. */
  function Hex(n: nat, v: nat): (s: string)
    ensures |s| == n
  {
    if n == 0 then [] else Hex(n - 1, v / 16) + [HexDigit(v % 16)]
  }

  function UnHex(s: string): Option<nat> {
    if s == [] then Some(0)
    else
      var high := UnHex(s[..|s| - 1]);
      var low := HexValue(s[|s| - 1]);
      if high.Some? && low.Some? then Some(high.value * 16 + low.value) else None
  }

  function Power(n: nat): nat {
    if n == 0 then 1 else 16 * Power(n - 1)
  }

  lemma {:induction false} HexRoundTrip(n: nat, v: nat)
    requires v < Power(n)
    ensures UnHex(Hex(n, v)) == Some(v)
  {
    if n > 0 {
      assert v / 16 < Power(n - 1);
      HexRoundTrip(n - 1, v / 16);
      assert Hex(n, v)[..n - 1] == Hex(n - 1, v / 16);
    }
  }

  /** The letter after the backslash, for characters that have one. */
  function Short(c: char): Option<char> {
    match c as int
    case 7 => Some('a')
    case 8 => Some('b')
    case 12 => Some('f')
    case 10 => Some('n')
    case 13 => Some('r')
    case 9 => Some('t')
    case 11 => Some('v')
    case 34 => Some('"')
    case 92 => Some('\\')
    case _ => None
  }

  function UnShort(c: char): Option<char> {
    match c
    case 'a' => Some(7 as char)
    case 'b' => Some(8 as char)
    case 'f' => Some(12 as char)
    case 'n' => Some(10 as char)
    case 'r' => Some(13 as char)
    case 't' => Some(9 as char)
    case 'v' => Some(11 as char)
    case '"' => Some('"')
    case '\\' => Some('\\')
    case _ => None
  }

  predicate Verbatim(printable: char -> bool, c: char) {
    Short(c).None? && (' ' <= c <= '~' || (c as int >= 0x80 && printable(c)))
  }

  function Escape(printable: char -> bool, c: char): string {
    if Short(c).Some? then ['\\', Short(c).value]
    else if Verbatim(printable, c) then [c]
    else if c < ' ' then ['\\', 'x'] + Hex(2, c as int)
    else if c as int < 0x10000 then ['\\', 'u'] + Hex(4, c as int)
    else ['\\', 'U'] + Hex(8, c as int)
  }

  function Escaped(printable: char -> bool, s: string): string {
    if s == [] then [] else Escape(printable, s[0]) + Escaped(printable, s[1..])
  }

  function Quote(printable: char -> bool, s: string): string {
    ['"'] + Escaped(printable, s) + ['"']
  }

  /** The value of a hexadecimal escape, if it is a character a string of runes can hold. */
  function Scalar(s: string, bound: nat): Option<char> {
    var v := UnHex(s);
    if v.Some? && v.value < bound && (v.value < 0xD800 || 0xE000 <= v.value < 0x110000)
    then Some(v.value as char)
    else None
  }

  /** `strconv.UnquoteChar`: the first character and how much it takes. */
  function FirstChar(s: string): (r: Option<(char, nat)>)
    requires s != []
    ensures r.Some? ==> 0 < r.value.1 <= |s|
  {
    if s[0] == '"' || s[0] == '\n' then None
    else if s[0] != '\\' then Some((s[0], 1))
    else if |s| == 1 then None
    else if UnShort(s[1]).Some? then Some((UnShort(s[1]).value, 2))
    else
      var n := if s[1] == 'x' then 2 else if s[1] == 'u' then 4 else if s[1] == 'U' then 8 else 0;
      if n == 0 || |s| < n + 2 then None
      else
        var c := Scalar(s[2..n + 2], if n == 2 then 0x80 else 0x110000);
        if c.None? then None else Some((c.value, n + 2))
  }

  function Unescaped(s: string): Option<string>
    decreases |s|
  {
    if s == [] then Some([])
    else
      var first := FirstChar(s);
      if first.None? then None
      else
        var rest := Unescaped(s[first.value.1..]);
        if rest.None? then None else Some([first.value.0] + rest.value)
  }

  function Unquote(foreign: string -> Option<string>, s: string): Option<string> {
    if |s| >= 2 && s[0] == '"' && s[|s| - 1] == '"' && Unescaped(s[1..|s| - 1]).Some? then
      Unescaped(s[1..|s| - 1])
    else foreign(s)
  }

  // ---------- Unquoting undoes quoting ----------

  lemma ScalarOfHex(n: nat, c: char, bound: nat)
    requires c as int < Power(n) && (c as int) < bound
    ensures Scalar(Hex(n, c as int), bound) == Some(c)
  {
    HexRoundTrip(n, c as int);
  }

  lemma Powers()
    ensures Power(2) == 0x100 && Power(4) == 0x10000 && Power(8) == 0x1_0000_0000
  {
    assert Power(1) == 16 && Power(2) == 0x100 && Power(3) == 0x1000 && Power(4) == 0x10000;
    assert Power(5) == 0x10_0000 && Power(6) == 0x100_0000 && Power(7) == 0x1000_0000;
  }

  lemma FirstOfShort(c: char, rest: string)
    requires Short(c).Some?
    ensures FirstChar(['\\', Short(c).value] + rest) == Some((c, 2))
  {
    var s := ['\\', Short(c).value] + rest;
    assert s[0] == '\\' && s[1] == Short(c).value;
  }

  lemma FirstOfHex(c: char, mark: char, n: nat, rest: string)
    requires (mark == 'x' && n == 2 && c as int < 0x80) || (mark == 'u' && n == 4 && c as int < 0x10000)
      || (mark == 'U' && n == 8)
    ensures FirstChar(['\\', mark] + Hex(n, c as int) + rest) == Some((c, n + 2))
  {
    var s := ['\\', mark] + Hex(n, c as int) + rest;
    assert s[0] == '\\' && s[1] == mark;
    assert s[2..n + 2] == Hex(n, c as int);
    Powers();
    ScalarOfHex(n, c, if n == 2 then 0x80 else 0x110000);
  }

  /** The text of an escape in front of anything is read back as the character. */
  lemma FirstOfEscape(printable: char -> bool, c: char, rest: string)
    ensures FirstChar(Escape(printable, c) + rest) == Some((c, |Escape(printable, c)|))
  {
    if Short(c).Some? {
      FirstOfShort(c, rest);
    } else if Verbatim(printable, c) {
      assert (Escape(printable, c) + rest)[0] == c;
    } else if c < ' ' {
      FirstOfHex(c, 'x', 2, rest);
    } else if c as int < 0x10000 {
      FirstOfHex(c, 'u', 4, rest);
    } else {
      FirstOfHex(c, 'U', 8, rest);
    }
  }

  lemma {:induction false} UnescapedEscaped(printable: char -> bool, s: string)
    ensures Unescaped(Escaped(printable, s)) == Some(s)
  {
    if s != [] {
      var rest := Escaped(printable, s[1..]);
      FirstOfEscape(printable, s[0], rest);
      UnescapedEscaped(printable, s[1..]);
      assert (Escape(printable, s[0]) + rest)[|Escape(printable, s[0])|..] == rest;
      assert [s[0]] + s[1..] == s;
    }
  }

  /** Unquoting a quoted string gives it back, whatever is printable and however odd literals are read. */
  lemma QuoteRoundTrip(printable: char -> bool, foreign: string -> Option<string>, s: string)
    ensures Unquote(foreign, Quote(printable, s)) == Some(s)
  {
    UnescapedEscaped(printable, s);
    assert Quote(printable, s)[1..|Quote(printable, s)| - 1] == Escaped(printable, s);
  }

  /** A quoted string stays on one line. */
  lemma {:induction false} EscapedOneLine(printable: char -> bool, s: string)
    ensures '\n' !in Escaped(printable, s)
  {
    if s != [] {
      EscapedOneLine(printable, s[1..]);
      EscapeOneLine(printable, s[0]);
    }
  }

  lemma {:induction false} HexOneLine(n: nat, v: nat)
    ensures '\n' !in Hex(n, v)
  {
    if n > 0 { HexOneLine(n - 1, v / 16); }
  }

  lemma EscapeOneLine(printable: char -> bool, c: char)
    ensures '\n' !in Escape(printable, c)
  {
    HexOneLine(2, c as int);
    HexOneLine(4, c as int);
    HexOneLine(8, c as int);
  }

  // ---------- Text without escapes ----------

  predicate Unmarked(s: string) {
    forall i :: 0 <= i < |s| ==> s[i] != '"' && s[i] != '\\' && s[i] != '\n'
  }

  lemma {:induction false} UnescapedPlain(s: string)
    requires Unmarked(s)
    ensures Unescaped(s) == Some(s)
  {
    if s != [] {
      UnescapedPlain(s[1..]);
      assert s == [s[0]] + s[1..];
    }
  }

  lemma {:induction false} UnescapedStops(a: string, c: char, b: string)
    requires Unmarked(a) && (c == '"' || c == '\n')
    ensures Unescaped(a + [c] + b) == None
    decreases |a|
  {
    if a != [] {
      assert (a + [c] + b)[1..] == a[1..] + [c] + b;
      UnescapedStops(a[1..], c, b);
    }
  }

  /** Between quotes stands what is meant, if there is nothing to escape; a quote or a line end may not stand there. */
  lemma UnquotePlain(foreign: string -> Option<string>, a: string, c: char, b: string)
    requires Unmarked(a) && (c == '"' || c == '\n')
    ensures Unquote(foreign, "\"" + a + "\"") == Some(a)
    ensures var s := "\"" + (a + [c] + b) + "\""; Unquote(foreign, s) == foreign(s)
  {
    UnescapedPlain(a);
    UnescapedStops(a, c, b);
    assert ("\"" + a + "\"")[1..|a| + 1] == a;
    var x := a + [c] + b;
    assert ("\"" + x + "\"")[1..|x| + 1] == x;
  }

  // ---------- What a quoted string looks like ----------

  /** Plain ASCII text is only put in quotes. */
  lemma {:induction false} QuotePlain(printable: char -> bool, s: string)
    requires forall i :: 0 <= i < |s| ==> ' ' <= s[i] <= '~' && s[i] != '"' && s[i] != '\\'
    ensures Escaped(printable, s) == s && Quote(printable, s) == "\"" + s + "\""
  {
    if s != [] {
      QuotePlain(printable, s[1..]);
      assert Escape(printable, s[0]) == [s[0]];
      assert s == [s[0]] + s[1..];
    }
  }

  lemma {:induction false} QuoteConcat(printable: char -> bool, a: string, b: string)
    ensures Escaped(printable, a + b) == Escaped(printable, a) + Escaped(printable, b)
  {
    if a == [] {
      assert a + b == b;
    } else {
      assert (a + b)[1..] == a[1..] + b;
      QuoteConcat(printable, a[1..], b);
    }
  }

  /** The characters that have a letter of their own, and the others below the space. */
  lemma QuoteControl(printable: char -> bool, c: char)
    requires c < ' ' || c == '"' || c == '\\'
    ensures c as int == 7 ==> Escape(printable, c) == "\\a"
    ensures c as int == 8 ==> Escape(printable, c) == "\\b"
    ensures c == '\t' ==> Escape(printable, c) == "\\t"
    ensures c == '\n' ==> Escape(printable, c) == "\\n"
    ensures c as int == 11 ==> Escape(printable, c) == "\\v"
    ensures c as int == 12 ==> Escape(printable, c) == "\\f"
    ensures c == '\r' ==> Escape(printable, c) == "\\r"
    ensures c == '"' ==> Escape(printable, c) == "\\\""
    ensures c == '\\' ==> Escape(printable, c) == "\\\\"
    ensures c < ' ' && !(7 <= c as int <= 13) ==>
      Escape(printable, c) == ['\\', 'x', "0123456789abcdef"[c as int / 16], "0123456789abcdef"[c as int % 16]]
  {
    if c < ' ' { HexTwo(c as int); }
  }

  lemma HexTwo(v: nat)
    requires v < 256
    ensures Hex(2, v) == ["0123456789abcdef"[v / 16], "0123456789abcdef"[v % 16]]
  {
    assert Hex(0, v / 16 / 16) == [];
    assert Hex(1, v / 16) == [] + [HexDigit(v / 16 % 16)];
  }

  /** Above ASCII a character that does not print becomes an escape with four digits, or eight. */
  lemma QuoteWide(printable: char -> bool, c: char)
    requires c as int >= 0x80
    ensures printable(c) ==> Escape(printable, c) == [c]
    ensures !printable(c) && c as int < 0x10000 ==>
      && "\\u" <= Escape(printable, c) && |Escape(printable, c)| == 6
      && UnHex(Escape(printable, c)[2..]) == Some(c as int)
    ensures !printable(c) && c as int >= 0x10000 ==>
      && "\\U" <= Escape(printable, c) && |Escape(printable, c)| == 10
      && UnHex(Escape(printable, c)[2..]) == Some(c as int)
  {
    Powers();
    if !printable(c) {
      var n := if c as int < 0x10000 then 4 else 8;
      HexRoundTrip(n, c as int);
      assert Escape(printable, c)[2..] == Hex(n, c as int);
    }
  }
}
