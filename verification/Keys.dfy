/** `convert.ToYAMLKey` and `strings.ToLower`, with the ASCII letters as the letters that have case. */
module Keys {
  predicate IsUpper(c: char) {
    'A' <= c <= 'Z'
  }

  function Lower(c: char): (l: char)
    ensures if 'A' <= c <= 'Z' then l as int == c as int + ('a' as int - 'A' as int) else l == c
  {
    if IsUpper(c) then ((c as int) + 32) as char else c
  }

  function ToLower(s: string): (t: string)
    ensures |t| == |s|
  {
    seq(|s|, i requires 0 <= i < |s| => Lower(s[i]))
  }

  /** The part after the first character; `cap` while only capitals have been seen. */
  function YamlRest(s: string, cap: bool): string {
    if s == [] then []
    else if IsUpper(s[0]) then (if cap then [Lower(s[0])] else ['_', Lower(s[0])]) + YamlRest(s[1..], cap)
    else [s[0]] + YamlRest(s[1..], false)
  }

  function ToYAMLKey(s: string): string {
    if s == [] then [] else [Lower(s[0])] + YamlRest(s[1..], IsUpper(s[0]))
  }

  predicate NoUpper(s: string) {
    forall i :: 0 <= i < |s| ==> !IsUpper(s[i])
  }

  lemma {:induction false} YamlRestNoUpper(s: string, cap: bool)
    ensures NoUpper(YamlRest(s, cap))
    ensures NoUpper(s) ==> YamlRest(s, cap) == s
    decreases |s|
  {
    if s != [] {
      YamlRestNoUpper(s[1..], if IsUpper(s[0]) then cap else false);
      if NoUpper(s) { assert s == [s[0]] + s[1..]; }
    }
  }

  /** A key in YAML form has no capitals and is its own YAML form. */
  lemma YamlKeyIdempotent(s: string)
    ensures NoUpper(ToYAMLKey(s)) && ToYAMLKey(ToYAMLKey(s)) == ToYAMLKey(s)
    ensures NoUpper(s) ==> ToYAMLKey(s) == s && ToLower(s) == s
  {
    if s != [] { YamlRestNoUpper(s[1..], IsUpper(s[0])); }
    YamlKeyOfLower(ToYAMLKey(s));
    if NoUpper(s) { YamlKeyOfLower(s); }
  }

  lemma YamlKeyOfLower(s: string)
    requires NoUpper(s)
    ensures ToYAMLKey(s) == s && ToLower(s) == s
  {
    if s != [] {
      YamlRestNoUpper(s[1..], false);
      assert s == [s[0]] + s[1..];
    }
  }

  // ---------- What a key in YAML form looks like ----------

  predicate LowerCase(s: string) {
    forall i :: 0 <= i < |s| ==> !('A' <= s[i] <= 'Z')
  }

  /** A word as it stands in a name in camel case: a capital and small letters. */
  predicate Capitalised(s: string) {
    s != [] && 'A' <= s[0] <= 'Z' && LowerCase(s[1..])
  }

  function Concat(words: seq<string>): string {
    if words == [] then [] else words[0] + Concat(words[1..])
  }

  /** The words in small letters, each after an underscore. */
  function Underscored(words: seq<string>): string {
    if words == [] then [] else "_" + ToLower(words[0]) + Underscored(words[1..])
  }

  lemma {:induction false} RestOfLower(s: string, rest: string, cap: bool)
    requires LowerCase(s)
    ensures YamlRest(s + rest, cap) == s + YamlRest(rest, if s == [] then cap else false)
    decreases |s|
  {
    if s == [] {
      assert s + rest == rest;
    } else {
      assert (s + rest)[1..] == s[1..] + rest;
      RestOfLower(s[1..], rest, false);
      assert s == [s[0]] + s[1..];
      assert [s[0]] + (s[1..] + YamlRest(rest, false)) == s + YamlRest(rest, false);
    }
  }

  lemma RestOfWord(w: string, rest: string)
    requires Capitalised(w)
    ensures YamlRest(w + rest, false) == "_" + ToLower(w) + YamlRest(rest, false)
  {
    assert (w + rest)[1..] == w[1..] + rest;
    var c, t := w[0], w[1..];
    RestOfLower(t, rest, false);
    YamlKeyOfLower(t);
    assert w == [c] + t;
    LowerHead(c, t);
    assert ['_', Lower(c)] == "_" + [Lower(c)];
    Assoc("_" + [Lower(c)], t, YamlRest(rest, false));
    Assoc("_", [Lower(c)], t);
  }

  lemma {:induction false} RestOfWords(words: seq<string>)
    requires forall i :: 0 <= i < |words| ==> Capitalised(words[i])
    ensures YamlRest(Concat(words), false) == Underscored(words)
    decreases |words|
  {
    if words != [] {
      RestOfWord(words[0], Concat(words[1..]));
      RestOfWords(words[1..]);
    }
  }

  /** A name in camel case: `sshAuthorizedKeys` becomes `ssh_authorized_keys`. */
  lemma YamlOfCamel(first: string, words: seq<string>)
    requires first != [] && LowerCase(first) && forall i :: 0 <= i < |words| ==> Capitalised(words[i])
    ensures ToYAMLKey(first + Concat(words)) == first + Underscored(words)
  {
    LowerFirst(first, Concat(words));
    RestOfWords(words);
  }

  lemma LowerFirst(first: string, rest: string)
    requires first != [] && LowerCase(first)
    ensures ToYAMLKey(first + rest) == first + YamlRest(rest, false)
  {
    var c, t := first[0], first[1..];
    assert first == [c] + t;
    Assoc([c], t, rest);
    YamlHead(c, t + rest);
    RestOfLower(t, rest, false);
    Assoc([c], t, YamlRest(rest, false));
  }

  lemma Assoc(a: string, b: string, c: string)
    ensures a + b + c == a + (b + c)
  {}

  lemma YamlHead(c: char, rest: string)
    ensures ToYAMLKey([c] + rest) == [Lower(c)] + YamlRest(rest, IsUpper(c))
  {
    assert ([c] + rest)[1..] == rest;
  }

  lemma LowerHead(c: char, rest: string)
    ensures ToLower([c] + rest) == [Lower(c)] + ToLower(rest)
  {}

  lemma {:induction false} RestOfCapitals(caps: string, rest: string)
    requires forall i :: 0 <= i < |caps| ==> 'A' <= caps[i] <= 'Z'
    ensures YamlRest(caps + rest, true) == ToLower(caps) + YamlRest(rest, true)
    decreases |caps|
  {
    if caps == [] {
      assert caps + rest == rest;
    } else {
      assert (caps + rest)[1..] == caps[1..] + rest;
      RestOfCapitals(caps[1..], rest);
      assert ToLower(caps) == [Lower(caps[0])] + ToLower(caps[1..]);
      assert [Lower(caps[0])] + (ToLower(caps[1..]) + YamlRest(rest, true)) == ToLower(caps) + YamlRest(rest, true);
    }
  }

  /** Capitals at the beginning stay together: `DNSNameservers` becomes `dnsnameservers`, `K3OS` becomes `k3_o_s`. */
  lemma YamlOfCapitals(caps: string, small: string, words: seq<string>)
    requires caps != [] && (forall i :: 0 <= i < |caps| ==> 'A' <= caps[i] <= 'Z') && small != [] && LowerCase(small)
    requires forall i :: 0 <= i < |words| ==> Capitalised(words[i])
    ensures ToYAMLKey(caps + small + Concat(words)) == ToLower(caps) + small + Underscored(words)
  {
    var more := Concat(words);
    Assoc(caps, small, more);
    CapitalsFirst(caps, small + more);
    RestOfLower(small, more, true);
    RestOfWords(words);
    Assoc(ToLower(caps), small, Underscored(words));
  }

  lemma CapitalsFirst(caps: string, rest: string)
    requires caps != [] && forall i :: 0 <= i < |caps| ==> 'A' <= caps[i] <= 'Z'
    ensures ToYAMLKey(caps + rest) == ToLower(caps) + YamlRest(rest, true)
  {
    var c, t := caps[0], caps[1..];
    assert caps == [c] + t;
    Assoc([c], t, rest);
    YamlHead(c, t + rest);
    RestOfCapitals(t, rest);
    LowerHead(c, t);
    Assoc([Lower(c)], ToLower(t), YamlRest(rest, true));
  }
}
