/** `mode-disk` in the form the script has, proved to make the steps of the machine. */
module ModeDisk {
  import opened Iteration
  import opened Takeover
  import opened TakeoverSafety

  datatype Outcome = Through | Halted | Dead

  /** `e` has no more than `d`, and the same names at the top. */
  predicate Within(e: Disk, d: Disk) {
    && e.top == d.top && e.sbinIsLink == d.sbinIsLink
    && e.sbin <= d.sbin && e.boot <= d.boot && (e.takeover ==> d.takeover) && (e.factoryReset ==> d.factoryReset)
    && (e.ephemeral ==> d.ephemeral) && (e.poweroff ==> d.poweroff) && (e.data ==> d.data)
  }

  /** What `rm -rf name` may have made of `d` when the power fails on the way. */
  predicate Partly(d: Disk, name: string, e: Disk) {
    RemoveTop(e, name) == RemoveTop(d, name) && Within(e, d)
  }

  /** What the loop over the top level may have made of `d`, with `k` of the words gone. */
  ghost predicate Broken(d: Disk, words: seq<string>, k: nat, e: Disk) {
    k < |words| && Partly(RemoveAll(d, words[..k]), words[k], e)
  }

  ghost function GNames(names: set<string>): set<string> {
    set n | n in names && BeginsWithG(n)
  }

  /** The disk after an uncut takeover, for the list of names at the top. */
  ghost function Taken(d: Disk, names: seq<string>): Disk {
    var e := RemoveAll(Unlink(d).(factoryReset := true), Doomed(names));
    e.(sbin := e.sbin * KEPT_SBIN, boot := GNames(e.boot), takeover := false, data := false, poweroff := false)
  }

  /** What removing top-level names leaves of the directories among them. */
  lemma {:induction false} RemoveAllDirs(d: Disk, ws: seq<string>)
    ensures var e := RemoveAll(d, ws);
      && e.sbin == (if "sbin" in ws then {} else d.sbin) && e.sbinIsLink == (d.sbinIsLink && "sbin" !in ws)
      && e.boot == (if "boot" in ws then {} else d.boot)
    decreases |ws|
  {
    if ws != [] {
      RemoveAllDirs(RemoveTop(d, ws[0]), ws[1..]);
      assert "sbin" in ws <==> ws[0] == "sbin" || "sbin" in ws[1..];
      assert "boot" in ws <==> ws[0] == "boot" || "boot" in ws[1..];
    }
  }

  /** And of the markers and the data. */
  lemma {:induction false} RemoveAllMarks(d: Disk, ws: seq<string>)
    ensures var e := RemoveAll(d, ws);
      && e.takeover == (d.takeover && "k3os" !in ws) && e.factoryReset == (d.factoryReset && "k3os" !in ws)
      && e.ephemeral == (d.ephemeral && "k3os" !in ws) && e.poweroff == (d.poweroff && "k3os" !in ws)
      && e.data == (d.data && "k3os" !in ws)
    decreases |ws|
  {
    if ws != [] {
      RemoveAllMarks(RemoveTop(d, ws[0]), ws[1..]);
      assert "k3os" in ws <==> ws[0] == "k3os" || "k3os" in ws[1..];
    }
  }

  /**
   The disk after an uncut takeover, in plain words: the words of names that are to go are gone, kept names
   among them.
   */
  lemma TakenMeans(d: Disk, names: seq<string>)
    ensures var r, ws := Taken(d, names), Doomed(names);
      && r.top == d.top - (if d.sbinIsLink then {"sbin"} else {}) - (set w | w in ws)
      && r.sbin == (if d.sbinIsLink || "sbin" in ws then {} else d.sbin * {"init", "k3s", "k3os"}) && !r.sbinIsLink
      && r.boot == (if "boot" in ws then {} else set n | n in d.boot && n != "" && n[0] == 'g')
      && !r.takeover && !r.data && !r.poweroff
      && r.factoryReset == ("k3os" !in ws) && r.ephemeral == (d.ephemeral && "k3os" !in ws)
  {
    var e := Unlink(d).(factoryReset := true);
    RemoveAllTop(e, Doomed(names));
    RemoveAllDirs(e, Doomed(names));
    RemoveAllMarks(e, Doomed(names));
  }

  /** Of a disk without blanks in names: what is left, name by name. */
  lemma TakenPlainly(d: Disk, names: seq<string>, n: string)
    requires Orders(names, Unlink(d).top)
    requires forall m :: m in d.top ==> m != "" && ' ' !in m && '\t' !in m && '\n' !in m
    ensures var r := Taken(d, names);
      && (n in r.top <==> n in d.top && (n == "boot" || n == "k3os" || (n == "sbin" && !d.sbinIsLink)))
      && (n in r.sbin <==> n in d.sbin && !d.sbinIsLink && (n == "init" || n == "k3s" || n == "k3os"))
      && (n in r.boot <==> n in d.boot && n != "" && n[0] == 'g')
      && r.factoryReset && r.ephemeral == d.ephemeral && !r.takeover && !r.data && !r.poweroff && !r.sbinIsLink
  {
    var top := Unlink(d).top;
    TakenMeans(d, names);
    DoomedIn(names);
    forall w | w in Doomed(names)
      ensures w in top && w !in KEPT
    {
      var m :| m in names && m !in KEPT && w in Words(m);
      UndividedWord(m);
    }
    ClearedPlainly(top);
    assert DoomedSet(top) == set w | w in Doomed(names);
    assert Taken(d, names).top == top * {"boot", "k3os", "sbin"};
  }

  /** A finished disk. */
  lemma FinishedMeans(d: Disk)
    ensures Finished(d) <==>
      && !d.takeover && !d.data && !d.factoryReset && !d.sbinIsLink
      && (forall n :: n in d.top ==> n == "boot" || n == "k3os" || n == "sbin" || ' ' in n || '\t' in n || '\n' in n)
      && (forall n :: n in d.sbin ==> n == "init" || n == "k3s" || n == "k3os")
      && (forall n :: n in d.boot ==> n != "" && n[0] == 'g')
  {
    forall n | n in d.top
      ensures Spaced(n) <==> ' ' in n || '\t' in n || '\n' in n
    {
      if ' ' !in n && '\t' !in n && '\n' !in n && n != "" { UndividedWord(n); }
    }
  }

  lemma {:induction false} RemoveAllConcat(d: Disk, a: seq<string>, b: seq<string>)
    ensures RemoveAll(d, a + b) == RemoveAll(RemoveAll(d, a), b)
    decreases |a|
  {
    if a == [] {
      assert a + b == b;
    } else {
      assert (a + b)[1..] == a[1..] + b;
      RemoveAllConcat(RemoveTop(d, a[0]), a[1..], b);
    }
  }

  lemma RemoveOneMore(d: Disk, words: seq<string>, k: nat)
    requires k < |words|
    ensures RemoveAll(d, words[..k + 1]) == RemoveTop(RemoveAll(d, words[..k]), words[k])
  {
    assert words[..k + 1] == words[..k] + [words[k]];
    RemoveAllConcat(d, words[..k], [words[k]]);
    assert [words[k]][1..] == [];
  }

  /** After `run` the machine is where `s` is: whatever happens next, it does the same. */
  ghost predicate Led(first: State, run: seq<Event>, s: State) {
    forall more :: Exec(first, run + more) == Exec(s, more)
  }

  lemma LedOn(first: State, run: seq<Event>, s: State, e: Event)
    requires Led(first, run, s)
    ensures Led(first, run + [e], Step(s, e))
  {
    forall more
      ensures Exec(first, run + [e] + more) == Exec(Step(s, e), more)
    {
      assert run + [e] + more == run + ([e] + more) && ([e] + more)[1..] == more;
      assert Exec(s, [e] + more) == Exec(Step(s, e), more);
    }
  }

  lemma LedEnds(first: State, run: seq<Event>, s: State)
    requires Led(first, run, s)
    ensures Exec(first, run) == s
  {
    assert run + [] == run && Exec(s, []) == s;
  }

  lemma TrimPartly(d: Disk, name: string, p: Piece)
    ensures Partly(d, name, Trim(d, name, p))
  {
    TrimmedGoes(d, name, p);
    TrimmedWithin(d, name, p);
  }

  lemma TrimmedWithin(d: Disk, name: string, p: Piece)
    ensures Within(Trim(d, name, p), d)
  {
    match p
    case InSbin(n) => SbinWithin(d, name, n);
    case InBoot(n) => BootWithin(d, name, n);
    case _ => MarkWithin(d, name, p);
  }

  lemma SbinWithin(d: Disk, name: string, n: string)
    ensures Within(Trim(d, name, InSbin(n)), d)
  {}

  lemma BootWithin(d: Disk, name: string, n: string)
    ensures Within(Trim(d, name, InBoot(n)), d)
  {}

  lemma MarkWithin(d: Disk, name: string, p: Piece)
    requires !p.InSbin? && !p.InBoot?
    ensures Within(Trim(d, name, p), d)
  {
    if name != "k3os" {
      assert Trim(d, name, p) == d;
    }
  }

  lemma TrimmedGoes(d: Disk, name: string, p: Piece)
    ensures RemoveTop(Trim(d, name, p), name) == RemoveTop(d, name)
  {}

  /** Where the list of names stands in the list of words. */
  lemma DoomedNext(names: seq<string>, all: seq<string>, i: nat, k: nat)
    requires i < |names| && k <= |all| && all[k..] == Doomed(names[i..])
    ensures var words := if names[i] in KEPT then [] else Words(names[i]);
      k + |words| <= |all| && all[k..k + |words|] == words && all[k + |words|..] == Doomed(names[i + 1..])
  {
    var words := if names[i] in KEPT then [] else Words(names[i]);
    assert names[i..][1..] == names[i + 1..];
    assert all[k..] == words + Doomed(names[i + 1..]);
    assert all[k..k + |words|] == all[k..][..|words|] && all[k + |words|..] == all[k..][|words|..];
  }

  /** The whole loop takes the words of the names that are to go, and nothing else. */
  lemma ClearedTop(d: Disk, names: seq<string>)
    requires Orders(names, d.top)
    ensures RemoveAll(d, Doomed(names)).top == d.top - DoomedSet(d.top)
  {
    RemoveAllTop(d, Doomed(names));
    DoomedIn(names);
    assert DoomedSet(d.top) == set w | w in Doomed(names);
  }

  lemma ListNext(names: seq<string>, i: nat)
    requires i < |names|
    ensures names[i..][0] == names[i] && names[i..][1..] == names[i + 1..]
    ensures forall n :: n in names[i..] <==> n == names[i] || n in names[i + 1..]
  {
    assert names[i..] == [names[i]] + names[i + 1..];
  }

  class Machine {
    var d: Disk
    ghost var run: seq<Event>                      // what has happened so far
    ghost const first: State                       // since the disk was this
    ghost const before: (string, string) -> bool   // the order in which the shell lists names
    const glob: set<string> -> seq<string>
    const power: nat -> bool                       // whether the power is on after each step
    var steps: nat

    constructor (d: Disk, glob: set<string> -> seq<string>, ghost before: (string, string) -> bool, power: nat -> bool)
      requires Lists(before, glob)
      ensures this.d == d && this.glob == glob && this.before == before && this.power == power && steps == 0
      ensures first == State(d, Booting) && run == [] && At(Booting)
    {
      this.d, this.glob, this.before, this.power, steps := d, glob, before, power, 0;
      first, run := State(d, Booting), [];
      new;
      assert forall more: seq<Event> :: [] + more == more;
    }

    /** The script stands where the machine does after the same events. */
    ghost predicate At(pc: Pc)
      reads this`d, this`run
    {
      Lists(before, glob) && Listed(before, run) && Led(first, run, State(d, pc))
    }

    /** The power never fails. */
    ghost predicate On() {
      forall k :: power(k)
    }

    ghost method Record(e: Event, pc: Pc, s: State)
      requires At(pc) && (e.Glob? ==> Sorted(before, e.names)) && Step(State(d, pc), e) == s
      modifies this`run
      ensures Listed(before, run) && Led(first, run, s)
    {
      LedOn(first, run, State(d, pc), e);
      run := run + [e];
    }

    /** Whether the power stays on. */
    method Power(ghost pc: Pc) returns (on: bool)
      requires At(pc) && !pc.Passed?
      modifies this`run, this`steps
      ensures At(if on then pc else Booting)
      ensures steps == old(steps) + 1 && on == power(old(steps))
    {
      on := power(steps);
      steps := steps + 1;
      if !on { Record(Cut, pc, State(d, Booting)); }
    }

    /** `setup_init`; a link `sbin` is followed to a directory outside this model. */
    method SetupInit() returns (done: bool)
      requires At(Booting)
      modifies this`d, this`run, this`steps
      ensures On() ==> done
      ensures At(if done then Testing else Booting)
      ensures done ==> d == Init(old(d))
      ensures !done ==> d == old(d) || d == old(d).(top := old(d).top + {"sbin"}) || d == Init(old(d))
    {
      if !d.sbinIsLink && !("sbin" in d.top && "init" in d.sbin) {
        Record(Go, Booting, State(d.(top := d.top + {"sbin"}), Initing));
        d := d.(top := d.top + {"sbin"});
        done := Power(Initing);
        if done { done := LinkInit(); }
      } else {
        Record(Go, Booting, State(d, Testing));
        done := Power(Testing);
      }
    }

    method LinkInit() returns (done: bool)
      requires At(Initing)
      modifies this`d, this`run, this`steps
      ensures On() ==> done
      ensures At(if done then Testing else Booting) && d == old(d).(sbin := old(d).sbin + {"init"})
    {
      var e := d.(sbin := d.sbin + {"init"});
      Record(Go, Initing, State(e, Testing));
      d := e;
      done := Power(Testing);
    }

    /** Lines 112 to 116. */
    method Mark() returns (done: bool)
      requires At(Testing) && d.takeover
      modifies this`d, this`run, this`steps
      ensures On() ==> done
      ensures At(if done then Unlinked else Booting)
      ensures done ==> d == Unlink(old(d)).(factoryReset := true)
    {
      Record(Go, Testing, State(d.(factoryReset := true), Marked));
      d := d.(factoryReset := true);
      done := Power(Marked);
      if !done { return; }
      Record(Go, Marked, State(Unlink(d), Unlinked));
      if d.sbinIsLink {
        d := d.(top := d.top - {"sbin"}, sbinIsLink := false, sbin := {});
      }
      done := Power(Unlinked);
    }

    /** `rm -rf` of one name has deleted one more piece of it. */
    method DeletePiece(name: string, ghost todo: seq<string>) returns (done: bool)
      requires At(Top(todo)) && todo != [] && todo[0] == name
      modifies this`d, this`run, this`steps
      ensures On() ==> done
      ensures At(if done then Top(todo) else Booting)
      ensures Partly(old(d), name, d)
    {
      var p: Piece := *;
      TrimPartly(d, name, p);
      var e := Trim(d, name, p);
      Record(Part(p), Top(todo), State(e, Top(todo)));
      d := e;
      done := Power(Top(todo));
    }

    /** `rm -rf` of one name; it deletes pieces of it in some order first. */
    method RemoveTree(name: string, ghost todo: seq<string>) returns (done: bool)
      requires At(Top(todo)) && todo != [] && todo[0] == name
      modifies this`d, this`run, this`steps
      ensures On() ==> done
      ensures At(if done then Top(todo[1..]) else Booting)
      ensures if done then d == RemoveTop(old(d), name) else Partly(old(d), name, d)
    {
      var pieces: nat := *;
      done := Power(Top(todo));
      while done && pieces > 0
        invariant At(if done then Top(todo) else Booting) && Partly(old(d), name, d) && (On() ==> done)
        decreases pieces
      {
        done := DeletePiece(name, todo);
        pieces := pieces - 1;
      }
      if done {
        FinishTree(name, todo);
      }
    }

    method FinishTree(name: string, ghost todo: seq<string>)
      requires At(Top(todo)) && todo != [] && todo[0] == name
      modifies this`d, this`run, this`steps
      ensures At(Top(todo[1..])) && d == RemoveTop(old(d), name)
    {
      Record(Go, Top(todo), State(RemoveTop(d, name), Top(todo[1..])));
      d := RemoveTop(d, name);
    }

    /** The names that the star stands for. */
    method ListTop() returns (names: seq<string>)
      requires At(Unlinked)
      modifies this`run
      ensures Orders(names, d.top) && Sorted(before, names) && At(Top(Doomed(names)))
    {
      names := glob(d.top);
      Record(Glob(names), Unlinked, State(d, Top(Doomed(names))));
    }

    /** Lines 118 to 125: the names are taken down at the start, then removed word by word. */
    method ClearTop() returns (done: bool, ghost names: seq<string>, ghost k: nat)
      requires At(Unlinked)
      modifies this`d, this`run, this`steps
      ensures On() ==> done
      ensures Orders(names, old(d).top) && Sorted(before, names)
      ensures At(if done then Top([]) else Booting)
      ensures done ==> d == RemoveAll(old(d), Doomed(names)) && d.top == old(d).top - DoomedSet(old(d).top)
      ensures !done ==> Broken(old(d), Doomed(names), k, d)
    {
      var list := ListTop();
      names, k := list, 0;
      ghost var all := Doomed(list);
      var i := 0;
      assert list[..0] == [] && list[0..] == list && all[..0] == [] && all[0..] == all;
      while i < |list|
        invariant i <= |list| && k <= |all| && all[k..] == Doomed(list[i..])
        invariant At(Top(all[k..])) && d == RemoveAll(old(d), all[..k])
        decreases |list| - i
      {
        DoomedNext(list, all, i, k);
        if list[i] !in KEPT {
          done, k := RemoveWords(Words(list[i]), old(d), all, k);
          if !done { return; }
        }
        i := i + 1;
      }
      done := true;
      assert all[..k] == all;
      ClearedTop(old(d), names);
    }

    /** `rm -rf` with several operands, the `k`-th to the `|words|`-th next of all words. */
    method RemoveWords(words: seq<string>, ghost was: Disk, ghost all: seq<string>, ghost from: nat)
      returns (done: bool, ghost k: nat)
      requires from + |words| <= |all| && all[from..from + |words|] == words
      requires At(Top(all[from..])) && d == RemoveAll(was, all[..from])
      modifies this`d, this`run, this`steps
      ensures On() ==> done
      ensures done ==> k == from + |words| && At(Top(all[k..])) && d == RemoveAll(was, all[..k])
      ensures !done ==> At(Booting) && Broken(was, all, k, d)
    {
      var i := 0;
      k, done := from, true;
      while i < |words|
        invariant i <= |words| && k == from + i && done
        invariant At(Top(all[k..])) && d == RemoveAll(was, all[..k])
        decreases |words| - i
      {
        assert all[k] == words[i] && all[k..][1..] == all[k + 1..];
        RemoveOneMore(was, all, k);
        done := RemoveTree(words[i], all[k..]);
        if !done { return; }
        i, k := i + 1, k + 1;
      }
    }

    /** One turn of the second loop. */
    method PassSbin(name: string, ghost todo: seq<string>) returns (done: bool)
      requires At(Sbin(todo)) && todo != [] && todo[0] == name
      modifies this`d, this`run, this`steps
      ensures On() ==> done
      ensures At(if done then Sbin(todo[1..]) else Booting)
      ensures d == if done && name !in KEPT_SBIN then old(d).(sbin := old(d).sbin - {name}) else old(d)
    {
      done := Power(Sbin(todo));
      if !done { return; }
      if name in KEPT_SBIN {
        Record(Go, Sbin(todo), State(d, Sbin(todo[1..])));
      } else {
        Record(Go, Sbin(todo), State(d.(sbin := d.sbin - {name}), Sbin(todo[1..])));
        d := d.(sbin := d.sbin - {name});
      }
    }

    /** Lines 126 to 133. */
    method ClearSbin() returns (done: bool)
      requires At(Top([]))
      modifies this`d, this`run, this`steps
      ensures On() ==> done
      ensures At(if done then Sbin([]) else Booting)
      ensures d == old(d).(sbin := d.sbin) && old(d).sbin * KEPT_SBIN <= d.sbin <= old(d).sbin
      ensures done ==> d.sbin == old(d).sbin * KEPT_SBIN
    {
      var names := glob(d.sbin);
      Record(Glob(names), Top([]), State(d, Sbin(names)));
      var i := 0;
      done := true;
      assert names[0..] == names;
      while i < |names|
        invariant i <= |names| && At(Sbin(names[i..])) && done
        invariant d == old(d).(sbin := d.sbin) && d.sbin <= old(d).sbin
        invariant forall n :: n in old(d).sbin && n in KEPT_SBIN ==> n in d.sbin
        invariant forall n :: n in d.sbin ==> n in KEPT_SBIN || n in names[i..]
        decreases |names| - i
      {
        ListNext(names, i);
        done := PassSbin(names[i], names[i..]);
        if !done { return; }
        i := i + 1;
      }
    }

    /** One name of line 135. */
    method PassBoot(name: string, ghost todo: seq<string>) returns (done: bool)
      requires At(BootDir(todo)) && todo != [] && todo[0] == name
      modifies this`d, this`run, this`steps
      ensures On() ==> done
      ensures At(if done then BootDir(todo[1..]) else Booting)
      ensures d == if done && !BeginsWithG(name) then old(d).(boot := old(d).boot - {name}) else old(d)
    {
      done := Power(BootDir(todo));
      if !done { return; }
      if BeginsWithG(name) {
        Record(Go, BootDir(todo), State(d, BootDir(todo[1..])));
      } else {
        Record(Go, BootDir(todo), State(d.(boot := d.boot - {name}), BootDir(todo[1..])));
        d := d.(boot := d.boot - {name});
      }
    }

    /** Line 135. */
    method ClearBoot() returns (done: bool)
      requires At(Sbin([]))
      modifies this`d, this`run, this`steps
      ensures On() ==> done
      ensures At(if done then BootDir([]) else Booting)
      ensures d == old(d).(boot := d.boot) && GNames(old(d).boot) <= d.boot <= old(d).boot
      ensures done ==> d.boot == GNames(old(d).boot)
    {
      var names := glob(d.boot);
      Record(Glob(names), Sbin([]), State(d, BootDir(names)));
      var i := 0;
      done := true;
      assert names[0..] == names;
      while i < |names|
        invariant i <= |names| && At(BootDir(names[i..])) && done
        invariant d == old(d).(boot := d.boot) && d.boot <= old(d).boot
        invariant forall n :: n in old(d).boot && BeginsWithG(n) ==> n in d.boot
        invariant forall n :: n in d.boot ==> BeginsWithG(n) || n in names[i..]
        decreases |names| - i
      {
        ListNext(names, i);
        done := PassBoot(names[i], names[i..]);
        if !done { return; }
        i := i + 1;
      }
    }

    /** Lines 136 to 145. */
    method Conclude() returns (outcome: Outcome)
      requires At(BootDir([]))
      modifies this`d, this`run, this`steps
      ensures On() ==> outcome != Dead
      ensures At(if outcome == Through then ResetTest else Booting)
      ensures outcome != Dead ==> d == old(d).(takeover := false, data := false, poweroff := false)
    {
      Record(Go, BootDir([]), State(d.(takeover := false), Unmarked));
      d := d.(takeover := false);
      var on := Power(Unmarked);
      if !on { return Dead; }
      Record(Go, Unmarked, State(d.(data := false), Emptied));
      d := d.(data := false);
      on := Power(Emptied);
      if !on { return Dead; }
      var halts: bool := *;
      Record(if halts then Go else Stay, Emptied, State(d.(poweroff := false), if halts then Booting else ResetTest));
      d := d.(poweroff := false);
      return if halts then Halted else Through;
    }

    /** `takeover`: whether the script goes on, the machine halts, or the power fails. */
    method TakeOver() returns (outcome: Outcome, ghost names: seq<string>)
      requires At(Testing)
      modifies this`d, this`run, this`steps
      ensures On() ==> outcome != Dead
      ensures At(if outcome == Through then ResetTest else Booting)
      ensures !old(d).takeover ==> outcome == Through && d == old(d)
      ensures old(d).takeover && outcome != Dead ==>
        Orders(names, Unlink(old(d)).top) && Sorted(before, names) && d == Taken(old(d), names)
    {
      names := [];
      if !d.takeover {
        Record(Go, Testing, State(d, ResetTest));
        return Through, names;
      }
      var done := Mark();
      if !done { return Dead, names; }
      ghost var k;
      done, names, k := ClearTop();
      if !done { return Dead, names; }
      done := ClearSbin();
      if !done { return Dead, names; }
      done := ClearBoot();
      if !done { return Dead, names; }
      outcome := Conclude();
    }

    /** Lines 158 to 160. */
    method FactoryReset() returns (outcome: Outcome)
      requires At(ResetTest)
      modifies this`d, this`run, this`steps
      ensures On() ==> outcome != Dead
      ensures outcome == Through || outcome == Dead
      ensures At(if outcome == Through then Passed else Booting)
      ensures outcome == Through ==>
        d == if old(d).factoryReset || old(d).ephemeral then old(d).(data := false, factoryReset := false) else old(d)
      ensures outcome == Dead ==> d == old(d) || d == old(d).(data := false)
    {
      var on := Power(ResetTest);
      if !on { return Dead; }
      Record(Go, ResetTest, Reset(d));
      if d.factoryReset || d.ephemeral {
        d := d.(data := false);
        on := Power(Resetting);
        if !on { return Dead; }
        Record(Go, Resetting, State(d.(factoryReset := false), Passed));
        d := d.(factoryReset := false);
      }
      return Through;
    }

    /** One boot, up to line 160. */
    method Boot() returns (outcome: Outcome)
      requires At(Booting)
      modifies this`d, this`run, this`steps
      ensures At(if outcome == Through then Passed else Booting)
      ensures On() ==> outcome == Through || (outcome == Halted && old(d).takeover && !d.takeover)
    {
      var done := SetupInit();
      if !done { return Dead; }
      ghost var names;
      outcome, names := TakeOver();
      if outcome == Through {
        outcome := FactoryReset();
      }
    }

    /**
     Any number of boots, each cut anywhere: from a safe disk the first that passes line 160 finds the
     takeover and the reset done, and beside the kept names just the names with blanks are left.
     */
    method Boots(tries: nat) returns (passed: bool)
      requires At(Booting) && first == State(d, Booting) && run == [] && "" !in d.top
      modifies this`d, this`run, this`steps
      ensures At(if passed then Passed else Booting)
      ensures On() && tries >= 2 ==> passed
      ensures passed && Safe(before, old(d)) ==>
        Finished(d) && d.top - KEPT == SpacedNames(old(d)) && (d.top <= KEPT <==> SpacedNames(old(d)) == {})
    {
      passed := false;
      var n := 0;
      while n < tries && !passed
        invariant n <= tries && At(if passed then Passed else Booting)
        invariant On() && n > 0 && !passed ==> n == 1 && !d.takeover
      {
        var outcome := Boot();
        passed := outcome == Through;
        n := n + 1;
      }
      if passed && Safe(before, old(d)) {
        LedEnds(first, run, State(d, Passed));
        PassesFinishedExactly(before, glob, old(d));
        PassesLeaves(before, old(d), run);
      }
    }
  }
}
