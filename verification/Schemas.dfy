/** The program's own schemas: none of their fields get in each other's way. */
module Schemas {
  import Aliases
  import Keys
  import opened Normalise
  import opened Renaming

  /** A schema given by its fields and those of types `array[string]`, `map[string]` and `boolean`. */
  function Typed(fields: seq<string>, arrays: seq<string>, maps: seq<string>, flags: seq<string>): Types {
    map f | f in fields :: if f in arrays then Array else if f in maps then Map else if f in flags then Boolean
      else Plain
  }

  // ---------- What makes a schema tidy ----------

  ghost predicate AllApart(fields: seq<string>) {
    forall i, j :: 0 <= i < j < |fields| ==> Aliases.ToldApart(fields[i], fields[j])
  }

  /** `passphrase` is no alias of a field but itself. */
  ghost predicate LeavesPassphrase(f: string) {
    "passphrase" in Aliases.Of(f) ==> f == "passphrase"
  }

  /** Fields that are told apart, and apart from `passphrase`, make a tidy schema. */
  lemma ApartTidy(fields: seq<string>, arrays: seq<string>, maps: seq<string>, flags: seq<string>)
    requires AllApart(fields) && forall i :: 0 <= i < |fields| ==> LeavesPassphrase(fields[i]) && fields[i] != "pass"
    requires "password" !in arrays && "password" !in maps && "password" !in flags
    ensures Tidy(Typed(fields, arrays, maps, flags))
  {
    var types := Typed(fields, arrays, maps, flags);
    TypedUnshared(fields, types);
    forall f | f in types && f in Aliases.Overruled()
      ensures types[f] == Plain && Aliases.Of(f) <= Aliases.Overruled().Keys
    {
      OnlyPassword(f);
    }
    forall f | f in types && "passphrase" in Aliases.Of(f)
      ensures f == "passphrase"
    {
      assert LeavesPassphrase(f);
    }
  }

  lemma OnlyPassword(f: string)
    requires f in Aliases.Overruled() && f != "pass"
    ensures f == "password" && Aliases.Of(f) <= Aliases.Overruled().Keys
  {
    PasswordAlone();
  }

  lemma TypedUnshared(fields: seq<string>, types: Types)
    requires AllApart(fields) && forall f :: f in types ==> f in fields
    ensures Unshared(Aliases.Of, Aliases.Overruled(), types.Keys)
  {
    forall f, g | f in types && g in types && f != g
      ensures Aliases.ToldApart(f, g)
    {
      var i :| 0 <= i < |fields| && fields[i] == f;
      var j :| 0 <= j < |fields| && fields[j] == g;
      if j < i { ApartSymmetric(g, f); }
    }
    Aliases.ApartUnshared(types.Keys);
  }

  lemma ApartSymmetric(f: string, g: string)
    requires Aliases.ToldApart(f, g)
    ensures Aliases.ToldApart(g, f)
  {
    var i :| 0 <= i < |f| && Aliases.PlainTo(f, i) && Aliases.PlainTo(g, i) && Keys.Lower(f[i]) != Keys.Lower(g[i]);
    assert 0 <= i < |g|;
  }

  lemma PasswordAlone()
    ensures Aliases.Of("password") == {"password"}
  {
    Aliases.SingularOnly("password");
  }

  lemma PathAlone()
    ensures Aliases.Of("path") == {"path"}
  {
    Aliases.SingularOnly("path");
  }

  // ---------- Fields told apart by two letters ----------

  /** Long enough to keep two letters, the second no capital, whatever ending is cut off. */
  predicate Headed(f: string) {
    |f| > 3 && !Keys.IsUpper(f[1])
  }

  /** `f` comes before `g` by the first two letters, case aside. */
  predicate Before(f: string, g: string)
    requires Headed(f) && Headed(g)
  {
    Keys.Lower(f[0]) < Keys.Lower(g[0]) || (Keys.Lower(f[0]) == Keys.Lower(g[0]) && Keys.Lower(f[1]) < Keys.Lower(g[1]))
  }

  /** In alphabetical order by two letters that differ. */
  ghost predicate TwoLetters(fields: seq<string>) {
    && (forall i :: 0 <= i < |fields| ==> Headed(fields[i]))
    && (forall i :: 0 < i < |fields| ==> Before(fields[i - 1], fields[i]))
  }

  lemma {:induction false} InOrder(fields: seq<string>, i: nat, j: nat)
    requires TwoLetters(fields) && i < j < |fields|
    ensures Before(fields[i], fields[j])
  {
    if i < j - 1 {
      InOrder(fields, i, j - 1);
    }
    assert Before(fields[j - 1], fields[j]);
  }

  lemma BeforeApart(f: string, g: string)
    requires Headed(f) && Headed(g) && Before(f, g)
    ensures Aliases.ToldApart(f, g)
  {
    var at := if Keys.Lower(f[0]) != Keys.Lower(g[0]) then 0 else 1;
    assert 0 <= at < |f| && Aliases.PlainTo(f, at) && Aliases.PlainTo(g, at) && Keys.Lower(f[at]) != Keys.Lower(g[at]);
  }

  lemma TwoLettersApart(fields: seq<string>)
    requires TwoLetters(fields)
    ensures AllApart(fields)
  {
    forall i, j | 0 <= i < j < |fields|
      ensures Aliases.ToldApart(fields[i], fields[j])
    {
      InOrder(fields, i, j);
      BeforeApart(fields[i], fields[j]);
    }
  }

  /** It does not begin with the letters of `passphrase`, or is one of the three fields that do. */
  predicate OtherLetters(f: string)
    requires Headed(f)
  {
    Keys.Lower(f[0]) == 'p' && Keys.Lower(f[1]) == 'a' ==> f == "password" || f == "passphrase" || f == "path"
  }

  lemma OtherLettersLeave(f: string)
    requires Headed(f) && OtherLetters(f)
    ensures LeavesPassphrase(f)
  {
    if "passphrase" in Aliases.Of(f) {
      Aliases.AliasAt(f, "passphrase", 0);
      Aliases.AliasAt(f, "passphrase", 1);
      PasswordAlone();
      PathAlone();
    }
  }

  lemma OtherLettersNoPass(f: string)
    requires Headed(f) && OtherLetters(f)
    ensures f != "pass"
  {
    assert |"password"| == 8 && |"passphrase"| == 10 && "path"[2] == 't' && "pass"[2] == 's';
    assert "pass"[0] == 'p' && "pass"[1] == 'a';
  }

  /** Two different letters make a schema tidy. */
  lemma TwoLettersTidy(fields: seq<string>, arrays: seq<string>, maps: seq<string>, flags: seq<string>)
    requires TwoLetters(fields) && forall i :: 0 <= i < |fields| ==> OtherLetters(fields[i])
    requires "password" !in arrays && "password" !in maps && "password" !in flags
    ensures Tidy(Typed(fields, arrays, maps, flags))
  {
    TwoLettersApart(fields);
    forall i | 0 <= i < |fields|
      ensures LeavesPassphrase(fields[i]) && fields[i] != "pass"
    {
      OtherLettersLeave(fields[i]);
      OtherLettersNoPass(fields[i]);
    }
    ApartTidy(fields, arrays, maps, flags);
  }

  // ---------- K3OS, CloudConfig, Wifi, File ----------

  function K3osFields(): seq<string> {
    ["dataSources", "dnsNameservers", "environment", "install", "k3sArgs", "labels", "modules", "ntpServers",
     "password", "serverUrl", "sysctls", "taints", "token", "wifi"]
  }

  function K3osArrays(): seq<string> {
    ["dataSources", "modules", "ntpServers", "dnsNameservers", "k3sArgs", "taints"]
  }

  function K3osMaps(): seq<string> {
    ["sysctls", "labels", "environment"]
  }

  function CloudConfigFields(): seq<string> {
    ["bootCmd", "hostname", "initCmd", "k3os", "runCmd", "sshAuthorizedKeys", "writeFiles"]
  }

  function CloudConfigArrays(): seq<string> {
    ["sshAuthorizedKeys", "runCmd", "bootCmd", "initCmd"]
  }

  function FileFields(): seq<string> {
    ["content", "encoding", "owner", "path", "permissions"]
  }

  lemma K3osHeaded()
    ensures forall i :: 0 <= i < |K3osFields()| ==> Headed(K3osFields()[i])
  {}

  lemma K3osFirst(i: nat)
    requires 0 < i <= 7 && forall j :: 0 <= j < 14 ==> Headed(K3osFields()[j])
    ensures Before(K3osFields()[i - 1], K3osFields()[i])
  {}

  lemma K3osLast(i: nat)
    requires 7 < i < 14 && forall j :: 0 <= j < 14 ==> Headed(K3osFields()[j])
    ensures Before(K3osFields()[i - 1], K3osFields()[i])
  {}

  lemma K3osOrder()
    ensures TwoLetters(K3osFields())
  {
    K3osHeaded();
    forall i | 0 < i < 14
      ensures Before(K3osFields()[i - 1], K3osFields()[i])
    {
      if i <= 7 { K3osFirst(i); } else { K3osLast(i); }
    }
  }

  lemma CloudConfigHeaded()
    ensures forall i :: 0 <= i < |CloudConfigFields()| ==> Headed(CloudConfigFields()[i])
  {}

  lemma CloudConfigOrder()
    ensures TwoLetters(CloudConfigFields())
  {
    CloudConfigHeaded();
  }

  lemma FileOrder()
    ensures TwoLetters(FileFields()) && forall i :: 0 <= i < |FileFields()| ==> OtherLetters(FileFields()[i])
  {}

  lemma PasswordPlain()
    ensures "password" !in K3osArrays() && "password" !in K3osMaps() && "password" !in CloudConfigArrays()
  {}

  lemma K3osTidy()
    ensures Tidy(Typed(K3osFields(), K3osArrays(), K3osMaps(), []))
  {
    PasswordPlain();
    K3osOrder();
    TwoLettersTidy(K3osFields(), K3osArrays(), K3osMaps(), []);
  }

  lemma CloudConfigTidy()
    ensures Tidy(Typed(CloudConfigFields(), CloudConfigArrays(), [], []))
  {
    PasswordPlain();
    CloudConfigOrder();
    TwoLettersTidy(CloudConfigFields(), CloudConfigArrays(), [], []);
  }

  // ---------- Install ----------

  function InstallFields(): seq<string> {
    ["configUrl", "debug", "device", "forceEfi", "isoUrl", "noFormat", "powerOff", "silent", "tty"]
  }

  function InstallFlags(): seq<string> {
    ["forceEfi", "silent", "powerOff", "noFormat", "debug"]
  }

  /** All but `debug` and `device` are told apart by their first letters. */
  function Initial(i: nat): char
    requires i < 9
  {
    "cddfinpst"[i]
  }

  lemma InstallInitials(i: nat)
    requires i < 9
    ensures |InstallFields()[i]| >= 3 && InstallFields()[i][0] == Initial(i) && Aliases.PlainTo(InstallFields()[i], 0)
  {}

  lemma InitialsRise(i: nat, j: nat)
    requires i < j < 9 && (i, j) != (1, 2)
    ensures Initial(i) != Initial(j)
  {}

  lemma InstallApart(i: nat, j: nat)
    requires i < j < 9
    ensures Aliases.ToldApart(InstallFields()[i], InstallFields()[j])
  {
    if (i, j) == (1, 2) {
      DebugDevice("debug", "device");
    } else {
      InstallInitials(i);
      InstallInitials(j);
      InitialsRise(i, j);
      FirstLetterApart(InstallFields()[i], InstallFields()[j]);
    }
  }

  lemma DebugDevice(f: string, g: string)
    requires f == "debug" && g == "device"
    ensures Aliases.ToldApart(f, g)
  {
    assert Aliases.PlainTo(f, 2) && Aliases.PlainTo(g, 2) && Keys.Lower(f[2]) != Keys.Lower(g[2]);
  }

  lemma FirstLetterApart(f: string, g: string)
    requires Aliases.PlainTo(f, 0) && Aliases.PlainTo(g, 0) && Keys.Lower(f[0]) != Keys.Lower(g[0])
    ensures Aliases.ToldApart(f, g)
  {}

  lemma InstallLeaves(i: nat)
    requires i < 9
    ensures LeavesPassphrase(InstallFields()[i]) && InstallFields()[i] != "pass"
  {
    InstallInitials(i);
    if i == 6 {
      PowerOff(InstallFields()[i]);
    } else {
      OtherInitial(InstallFields()[i]);
    }
  }

  lemma PowerOff(f: string)
    requires f == "powerOff"
    ensures LeavesPassphrase(f) && f != "pass"
  {
    assert Aliases.PlainTo(f, 1);
    if "passphrase" in Aliases.Of(f) { Aliases.AliasAt(f, "passphrase", 1); }
  }

  lemma OtherInitial(f: string)
    requires Aliases.PlainTo(f, 0) && f[0] in "cdfinst"
    ensures LeavesPassphrase(f) && f != "pass"
  {
    if "passphrase" in Aliases.Of(f) { Aliases.AliasAt(f, "passphrase", 0); }
  }

  lemma InstallTidy()
    ensures Tidy(Typed(InstallFields(), [], [], InstallFlags()))
  {
    forall i, j | 0 <= i < j < 9
      ensures Aliases.ToldApart(InstallFields()[i], InstallFields()[j])
    {
      InstallApart(i, j);
    }
    forall i | 0 <= i < 9
      ensures LeavesPassphrase(InstallFields()[i]) && InstallFields()[i] != "pass"
    {
      InstallLeaves(i);
    }
    NoPasswordFlag();
    ApartTidy(InstallFields(), [], [], InstallFlags());
  }

  lemma NoPasswordFlag()
    ensures "password" !in InstallFlags()
  {}

  lemma FileTidy()
    ensures Tidy(Typed(FileFields(), [], [], []))
  {
    FileOrder();
    TwoLettersTidy(FileFields(), [], [], []);
  }

  lemma WifiTidy()
    ensures Tidy(Typed(["name", "passphrase"], [], [], []))
  {
    TwoLettersTidy(["name", "passphrase"], [], [], []);
  }

  /** All five schemas are tidy. */
  lemma OwnSchemasTidy()
    ensures Tidy(Typed(K3osFields(), K3osArrays(), K3osMaps(), []))
    ensures Tidy(Typed(CloudConfigFields(), CloudConfigArrays(), [], []))
    ensures Tidy(Typed(InstallFields(), [], [], InstallFlags()))
    ensures Tidy(Typed(FileFields(), [], [], []))
    ensures Tidy(Typed(["name", "passphrase"], [], [], []))
  {
    K3osTidy();
    CloudConfigTidy();
    InstallTidy();
    FileTidy();
    WifiTidy();
  }
}
