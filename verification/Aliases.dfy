/** The names a field is known by. */
module Aliases {
  import Keys
  import opened Renaming

  function Spellings(name: string): set<string> {
    {Keys.ToLower(name), Keys.ToYAMLKey(name), Keys.ToLower(Keys.ToYAMLKey(name))}
  }

  predicate EndsIn(s: string, suffix: string) {
    |suffix| < |s| && s[|s| - |suffix|..] == suffix
  }

  /** The field's name, and the name without a plural ending. */
  function Bases(field: string): set<string> {
    {field}
    + (if EndsIn(field, "s") then {field[..|field| - 1]} else {})
    + (if EndsIn(field, "es") then {field[..|field| - 2]} else {})
  }

  function Of(field: string): set<string> {
    set b, a | b in Bases(field) && a in Spellings(b) :: a
  }

  /** A field without capitals or a plural ending is its only alias. */
  lemma SingularOnly(field: string)
    requires Keys.NoUpper(field) && !EndsIn(field, "s") && !EndsIn(field, "es")
    ensures Of(field) == {field}
  {
    OfUnion(field);
    SpellingsAre(field);
    Keys.YamlKeyIdempotent(field);
  }

  lemma OfUnion(field: string)
    ensures Of(field) ==
      (if EndsIn(field, "s") then Spellings(field[..|field| - 1]) else {})
      + (if EndsIn(field, "es") then Spellings(field[..|field| - 2]) else {})
      + Spellings(field)
  {
    forall a, b | b in Bases(field) && a in Spellings(b)
      ensures a in Of(field)
    {}
    if EndsIn(field, "s") { assert field[..|field| - 1] in Bases(field); }
    if EndsIn(field, "es") { assert field[..|field| - 2] in Bases(field); }
    assert field in Bases(field);
  }

  /** The aliases of a field: it and what is before its `s` or `es`, in small letters and in YAML form. */
  lemma AliasesExactly(field: string, a: string)
    ensures a in Of(field) <==>
      exists b :: (b == field || (b != "" && (field == b + "s" || field == b + "es")))
                  && (a == Keys.ToLower(b) || a == Keys.ToYAMLKey(b))
  {
    if a in Of(field) {
      var b :| b in Bases(field) && a in Spellings(b);
      SpellingsAre(b);
      if b != field { EndingCut(field, b); }
    }
    if b :| (b == field || (b != "" && (field == b + "s" || field == b + "es")))
            && (a == Keys.ToLower(b) || a == Keys.ToYAMLKey(b)) {
      SpellingsAre(b);
      assert b in Bases(field) && a in Spellings(b);
    }
  }

  lemma EndingCut(field: string, b: string)
    requires b in Bases(field) && b != field
    ensures b != "" && (field == b + "s" || field == b + "es")
  {
    if b == field[..|field| - 1] && EndsIn(field, "s") {
      assert field == b + "s";
    } else {
      assert field == b + "es";
    }
  }

  function Overruled(): Names {
    map["pass" := "passphrase", "password" := "passphrase"]
  }

  lemma Overrule(names: Names)
    ensures names["pass" := "passphrase"]["password" := "passphrase"] == names + Overruled()
  {}

  lemma SpellingsAre(name: string)
    ensures Spellings(name) == {Keys.ToLower(name), Keys.ToYAMLKey(name)}
  {
    Keys.YamlKeyIdempotent(name);
    Keys.YamlKeyIdempotent(Keys.ToYAMLKey(name));
  }

  /** Aliases have no capitals, and a field without capitals is its own alias. */
  lemma OwnAlias(field: string)
    ensures forall a :: a in Of(field) ==> Keys.NoUpper(a)
    ensures Keys.NoUpper(field) ==> field in Of(field)
  {
    forall a | a in Of(field)
      ensures Keys.NoUpper(a)
    {
      var b :| b in Bases(field) && a in Spellings(b);
      SpellingsAre(b);
      Keys.YamlKeyIdempotent(b);
    }
    if Keys.NoUpper(field) {
      Keys.YamlKeyIdempotent(field);
      assert field in Bases(field) && field in Spellings(field);
    }
  }

  /** The characters up to `i` after the first are no capitals. */
  predicate PlainTo(s: string, i: nat) {
    i + 2 < |s| && forall j :: 0 < j <= i ==> !Keys.IsUpper(s[j])
  }

  lemma {:induction false} RestAt(s: string, cap: bool, i: nat)
    requires i < |s| && forall j :: 0 <= j <= i ==> !Keys.IsUpper(s[j])
    ensures i < |Keys.YamlRest(s, cap)| && Keys.YamlRest(s, cap)[i] == s[i]
  {
    if i > 0 { RestAt(s[1..], false, i - 1); }
  }

  /** Aliases keep the beginning of a field, but for case. */
  lemma AliasAt(field: string, a: string, i: nat)
    requires a in Of(field) && PlainTo(field, i)
    ensures i < |a| && a[i] == Keys.Lower(field[i])
  {
    var b :| b in Bases(field) && a in Spellings(b);
    SpellingsAre(b);
    assert |b| > i && forall j :: 0 <= j <= i ==> b[j] == field[j];
    if i > 0 {
      forall j | 0 <= j <= i - 1
        ensures !Keys.IsUpper(b[1..][j])
      {
        assert b[1..][j] == field[j + 1];
      }
      RestAt(b[1..], Keys.IsUpper(b[0]), i - 1);
    }
  }

  /** Two fields that differ in a letter, case aside, before the first capital and the last two letters. */
  predicate ToldApart(f: string, g: string) {
    exists i :: 0 <= i < |f| && PlainTo(f, i) && PlainTo(g, i) && Keys.Lower(f[i]) != Keys.Lower(g[i])
  }

  lemma NoneInCommon(f: string, g: string, a: string)
    requires ToldApart(f, g) && a in Of(f)
    ensures a !in Of(g)
  {
    var i :| 0 <= i < |f| && PlainTo(f, i) && PlainTo(g, i) && Keys.Lower(f[i]) != Keys.Lower(g[i]);
    AliasAt(f, a, i);
    if a in Of(g) { AliasAt(g, a, i); }
  }

  lemma ApartUnshared(fields: set<string>)
    requires forall f, g :: f in fields && g in fields && f != g ==> ToldApart(f, g)
    ensures Unshared(Of, Overruled(), fields)
  {
    forall f, g, a | f in fields && g in fields && a in Of(f) && a in Of(g)
      ensures f == g
    {
      if f != g { NoneInCommon(f, g, a); }
    }
  }
}
