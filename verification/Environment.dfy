/** `ApplyEnvironment`: the environment file is read, overridden by the configuration and written back. */
module Environment {
  import opened Basics
  import opened Iteration
  import opened EnvFile
  import opened EnvFixpoint

  /** How writing the file goes; `Stopped` leaves only the first characters of the text. */
  datatype Write = Done | Refused | Stopped(n: nat)

  function Written(was: Option<string>, text: string, write: Write): Option<string> {
    match write
    case Done => Some(text)
    case Refused => was
    case Stopped(n) => Some(if n < |text| then text[..n] else text)
  }

  /** The entries of the file, if it can be read, under those of the configuration. */
  function Merged(lib: Lib, file: Option<string>, config: Env): Env {
    (if file.Some? then Parse(lib, file.value, map[]) else map[]) + config
  }

  lemma MergedAdd(lib: Lib, file: Option<string>, config: Env)
    ensures Merged(lib, file, map[]) + config == Merged(lib, file, config)
  {}

  class Host {
    /** Contents of the environment file; `None` when it cannot be read. */
    var file: Option<string>

    constructor (file: Option<string>)
      ensures this.file == file
    {
      this.file := file;
    }

    /** The scanner loop. */
    method Read(lib: Lib) returns (env: Env)
      ensures env == Merged(lib, file, map[])
    {
      env := map[];
      if file.Some? {
        var rest := file.value;
        while rest != []
          invariant Parse(lib, rest, env) == Parse(lib, file.value, map[])
          decreases |rest|
        {
          var end := IndexOf(rest, '\n');
          var line := rest[..end];
          if Bytes(line) > MAX_LINE {
            break;
          }
          var entry := ParseLine(lib, line);
          if entry.Some? {
            env := env[entry.value.0 := entry.value.1];
          }
          rest := if end < |rest| then rest[end + 1..] else [];
        }
      }
    }

    /** `order` is the order in which the entries were written. */
    method Print(lib: Lib, env: Env) returns (text: string, ghost order: seq<string>)
      ensures Orders(order, env.Keys) && text == EnvFile.Print(lib, order, env)
    {
      text, order := [], [];
      var left := env.Keys;
      while left != {}
        invariant left <= env.Keys && Orders(order, env.Keys - left)
        invariant (forall k :: k in order ==> k in env) && text == EnvFile.Print(lib, order, env)
      {
        var k :| k in left;
        PrintMore(lib, order, env, k);
        text := text + (Line(lib, k, env[k]) + "\n");
        order, left := order + [k], left - {k};
      }
    }

    method ApplyEnvironment(lib: Lib, config: Env, write: Write) returns (ok: bool, ghost order: seq<string>)
      modifies this
      ensures config == map[] ==> ok && file == old(file)
      ensures config != map[] ==> (ok <==> write.Done?) && Orders(order, Merged(lib, old(file), config).Keys)
      ensures config != map[] ==>
        file == Written(old(file), EnvFile.Print(lib, order, Merged(lib, old(file), config)), write)
      ensures config != map[] ==>
        var text := EnvFile.Print(lib, order, Merged(lib, old(file), config));
        && (write.Done? ==> file == Some(text)) && (write.Refused? ==> file == old(file))
        && (write.Stopped? ==> file.Some? && file.value <= text && (write.n <= |text| ==> |file.value| == write.n))
    {
      if config == map[] {
        return true, [];
      }
      var env := Read(lib);
      MergedAdd(lib, file, config);
      env := AddConfig(env, config);
      ok, order := WriteBack(lib, env, write);
    }

    method WriteBack(lib: Lib, env: Env, write: Write) returns (ok: bool, ghost order: seq<string>)
      modifies this
      ensures (ok <==> write.Done?) && Orders(order, env.Keys)
      ensures file == Written(old(file), EnvFile.Print(lib, order, env), write)
      ensures var text := EnvFile.Print(lib, order, env);
        && (write.Done? ==> file == Some(text)) && (write.Refused? ==> file == old(file))
        && (write.Stopped? ==> file.Some? && file.value <= text && (write.n <= |text| ==> |file.value| == write.n))
    {
      var text;
      text, order := Print(lib, env);
      file := Written(file, text, write);
      ok := write.Done?;
    }

    method AddConfig(was: Env, config: Env) returns (env: Env)
      ensures env == was + config
    {
      env := was;
      var left := config.Keys;
      while left != {}
        invariant left <= config.Keys
        invariant env == was + map k | k in config && k !in left :: config[k]
      {
        var k :| k in left;
        env, left := env[k := config[k]], left - {k};
      }
      assert (map k | k in config && k !in left :: config[k]) == config;
    }
  }

  /** What the file holds after a call, if every entry survives: what is configured, and what else was there before. */
  lemma AppliedMeans(lib: Lib, file: Option<string>, config: Env, order: seq<string>, key: string)
    requires Orders(order, Merged(lib, file, config).Keys)
    requires forall k :: k in Merged(lib, file, config) ==> Survives(lib, k, Merged(lib, file, config)[k])
    ensures var e := Parse(lib, EnvFile.Print(lib, order, Merged(lib, file, config)), map[]);
      && (key in config ==> key in e && e[key] == config[key])
      && (key !in config && file.Some? && key in Parse(lib, file.value, map[]) ==>
            key in e && e[key] == Parse(lib, file.value, map[])[key])
      && (key in e ==> key in config || (file.Some? && key in Parse(lib, file.value, map[])))
  {
    RoundTripExactly(lib, Merged(lib, file, config), order);
  }

  /** What is merged the second time, if the entries of the first time were written in this order. */
  function MergedAgain(lib: Lib, file: Option<string>, config: Env, order: seq<string>): Env
    requires forall k :: k in order ==> k in Merged(lib, file, config)
  {
    Merged(lib, Some(EnvFile.Print(lib, order, Merged(lib, file, config))), config)
  }

  lemma AgainIsSame(lib: Lib, file: Option<string>, config: Env, order: seq<string>)
    requires Orders(order, Merged(lib, file, config).Keys)
    ensures SameAgain(lib, Merged(lib, file, config), config, order)
      <==> MergedAgain(lib, file, config, order) == Merged(lib, file, config)
  {}

  ghost predicate AllTheSame(lib: Lib, file: Option<string>, config: Env) {
    forall order :: Orders(order, Merged(lib, file, config).Keys) ==>
      MergedAgain(lib, file, config, order) == Merged(lib, file, config)
  }

  /**
   The boot phases apply the same configuration again. The entries stay as they are after the first
   time, whatever order they were written in, exactly if no written entry adds a key and every key
   that the configuration does not set is read back with its value.
   */
  lemma ApplyAgainExactly(lib: Lib, file: Option<string>, config: Env)
    ensures AllTheSame(lib, file, config) <==> Steady(lib, Merged(lib, file, config), config)
  {
    var m := Merged(lib, file, config);
    SameAgainExactly(lib, m, config);
    forall order | Orders(order, m.Keys)
      ensures SameAgain(lib, m, config, order) <==> MergedAgain(lib, file, config, order) == m
    {
      AgainIsSame(lib, file, config, order);
    }
  }

  /** Entries that all survive being written and read stay as they are. */
  lemma ApplyAgain(lib: Lib, file: Option<string>, config: Env)
    requires forall k :: k in Merged(lib, file, config) ==> Survives(lib, k, Merged(lib, file, config)[k])
    ensures AllTheSame(lib, file, config)
  {
    var m := Merged(lib, file, config);
    forall order | Orders(order, m.Keys)
      ensures MergedAgain(lib, file, config, order) == m
    {
      RoundTripExactly(lib, m, order);
    }
  }

  /** For a configuration whose keys one line can carry, in terms of what each key is read back as. */
  lemma ApplyAgainPlainly(lib: Lib, file: Option<string>, config: Env)
    requires forall k :: k in config ==> Plain(k)
    ensures AllTheSame(lib, file, config) <==> SteadyPlain(lib, Merged(lib, file, config), config)
  {
    ApplyAgainExactly(lib, file, config);
    if file.Some? { ParsePlain(lib, file.value, map[]); }
    SteadyPlainExactly(lib, Merged(lib, file, config), config);
  }

  /** Three boot phases, from any file: the entries after the first are the entries after the third. */
  method Boot(host: Host, lib: Lib, config: Env) returns (ghost env: Env, ghost order: seq<string>)
    requires Steady(lib, Merged(lib, host.file, config), config) && config != map[]
    modifies host
    ensures env == Merged(lib, old(host.file), config)
    ensures Orders(order, env.Keys) && host.file == Some(EnvFile.Print(lib, order, env))
      && Merged(lib, host.file, config) == env
  {
    env := Merged(lib, host.file, config);
    order := [];
    var phase := 0;
    while phase < 3
      invariant Merged(lib, host.file, config) == env
      invariant phase > 0 ==> Orders(order, env.Keys) && host.file == Some(EnvFile.Print(lib, order, env))
    {
      var ok;
      ok, order := host.ApplyEnvironment(lib, config, Done);
      SteadySuffices(lib, env, config, order);
      phase := phase + 1;
    }
  }

  /** A configuration of one entry on a fresh system: only `export` at the beginning of its key does harm, not `#`. */
  lemma OneEntryExactly(lib: Lib, key: string, val: string)
    requires Plain(key)
    ensures AllTheSame(lib, None, map[key := val]) <==> !(Fits(lib, key, val) && "export" <= key)
  {
    var m := map[key := val];
    assert Merged(lib, None, m) == m;
    ApplyAgainPlainly(lib, None, m);
    assert "export" <= key ==> !("#" <= key) && |TrimLeft(key[6..])| < |key|;
    assert key in m && (PlainAddsNothing(lib, m, key) <==> !(Fits(lib, key, val) && "export" <= key));
  }

  /**
   An entry whose key begins with `export` does not come back: what is left of the key is added
   beside it, so applying the same configuration twice gives one entry more.
   */
  lemma ExportedKeyGrows(lib: Lib, key: string, val: string, env: Env)
    requires Plain(key) && "export" <= key && Fits(lib, key, val) && env == map[key := val]
    ensures Merged(lib, None, env) == env && TrimLeft(key[6..]) != key
    ensures Merged(lib, Some(EnvFile.Print(lib, [key], env)), env) == map[TrimLeft(key[6..]) := val] + env
  {
    ParsePrint(lib, [key], env, map[]);
    OneAfter(lib, key, val, env);
  }

  lemma OneAfter(lib: Lib, key: string, val: string, env: Env)
    requires "export" <= key && Fits(lib, key, val) && env == map[key := val]
    ensures After(lib, [key], env, map[]) == map[TrimLeft(key[6..]) := val]
  {
    assert !("#" <= key) && [key][1..] == [];
  }
}
