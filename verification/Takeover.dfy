/**
 `mode-disk`: taking over a disk, and the factory reset behind it, as a machine that makes one step
 after the other. The machine may lose power between any two; the next boot starts the script again.
 */
module Takeover {
  import opened Iteration

  // No name is empty or begins with a dot: the shell's stars leave the others alone.
  datatype Disk = Disk(
    top: set<string>,      // names at the top level
    sbinIsLink: bool,
    sbin: set<string>,     // names in sbin
    boot: set<string>,     // names in boot
    takeover: bool,        // the markers in k3os/system
    factoryReset: bool,
    ephemeral: bool,
    poweroff: bool,
    data: bool             // k3os/data exists
  )

  const KEPT: set<string> := {"boot", "k3os", "sbin"}
  const KEPT_SBIN: set<string> := {"init", "k3s", "k3os"}

  // ---------- Unquoted names ----------

  predicate IsBlank(c: char) {
    c == ' ' || c == '\t' || c == '\n'
  }

  predicate Spaced(name: string) {
    exists i :: 0 <= i < |name| && IsBlank(name[i])
  }

  /** The words that the shell makes of an unquoted name; `word` has been begun. */
  function Split(s: string, word: string): seq<string> {
    var whole := if word == [] then [] else [word];
    if s == [] then whole
    else if IsBlank(s[0]) then whole + Split(s[1..], [])
    else Split(s[1..], word + [s[0]])
  }

  function Words(name: string): seq<string> {
    Split(name, [])
  }

  lemma {:induction false} SplitPlain(s: string, word: string)
    requires !Spaced(word)
    ensures forall w :: w in Split(s, word) ==> !Spaced(w)
    ensures !Spaced(s) && word + s != [] ==> Split(s, word) == [word + s]
    decreases |s|
  {
    if s == [] {
      assert word + s == word;
    } else if IsBlank(s[0]) {
      SplitPlain(s[1..], []);
    } else {
      SplitPlain(s[1..], word + [s[0]]);
      assert word + [s[0]] + s[1..] == word + s;
      if !Spaced(s) {
        assert forall i :: 0 <= i < |s| - 1 ==> s[1..][i] == s[i + 1];
      }
    }
  }

  /** A name without blanks is its only word; a name with blanks is a word of no name. */
  lemma WordsMean(name: string)
    ensures forall w :: w in Words(name) ==> !Spaced(w)
    ensures !Spaced(name) && name != [] ==> Words(name) == [name]
  {
    SplitPlain(name, []);
    assert [] + name == name;
  }

  /** The words are what stands between spaces, tabs and line ends: with `WordsMean` this says what they are. */
  lemma {:induction false} WordsSplit(a: string, c: char, b: string)
    requires c == ' ' || c == '\t' || c == '\n'
    ensures Words(a + [c] + b) == Words(a) + Words(b)
    ensures Words("") == []
  {
    SplitAt(a, [], c, b);
  }

  lemma {:induction false} SplitAt(a: string, word: string, c: char, b: string)
    requires c == ' ' || c == '\t' || c == '\n'
    ensures Split(a + [c] + b, word) == Split(a, word) + Split(b, [])
    decreases |a|
  {
    var s := a + [c] + b;
    if a == [] {
      assert s[1..] == b;
    } else {
      assert s[1..] == a[1..] + [c] + b;
      SplitAt(a[1..], if IsBlank(a[0]) then [] else word + [a[0]], c, b);
    }
  }

  /** Only those three divide. */
  lemma UndividedWord(name: string)
    requires name != "" && ' ' !in name && '\t' !in name && '\n' !in name
    ensures Words(name) == [name] && !Spaced(name)
  {
    forall i | 0 <= i < |name|
      ensures !IsBlank(name[i])
    {
      assert name[i] in name;
    }
    WordsMean(name);
  }

  lemma KeptPlain()
    ensures forall n :: n in KEPT ==> !Spaced(n) && n != []
  {}

  // ---------- What the loop over the top level removes ----------

  /** The words that line 123 removes for a list of names, in their order. */
  function Doomed(names: seq<string>): seq<string> {
    if names == [] then []
    else (if names[0] in KEPT then [] else Words(names[0])) + Doomed(names[1..])
  }

  /** The words of the names that are to go. */
  ghost function DoomedSet(names: set<string>): set<string> {
    set n, w | n in names && n !in KEPT && w in Words(n) :: w
  }

  lemma {:induction false} DoomedIn(names: seq<string>)
    ensures forall w :: w in Doomed(names) <==> exists n :: n in names && n !in KEPT && w in Words(n)
  {
    if names != [] {
      DoomedIn(names[1..]);
      var first := if names[0] in KEPT then [] else Words(names[0]);
      assert Doomed(names) == first + Doomed(names[1..]);
      assert forall n :: n in names <==> n == names[0] || n in names[1..];
    }
  }

  /** Every name without blanks that is to go is removed, and no name with blanks is. */
  lemma DoomedMeans(top: set<string>)
    ensures forall n :: n in top && n != [] && n !in KEPT && !Spaced(n) ==> n in DoomedSet(top)
    ensures forall n :: n in DoomedSet(top) ==> !Spaced(n)
  {
    forall n | n in top
      ensures n != [] && n !in KEPT && !Spaced(n) ==> n in DoomedSet(top)
      ensures forall w :: w in Words(n) ==> !Spaced(w)
    {
      WordsMean(n);
      assert n in [n];
    }
  }

  /** The loop leaves just the kept names exactly when no name has blanks. */
  lemma ClearedExactly(top: set<string>)
    requires "" !in top
    ensures top - DoomedSet(top) == top * KEPT <==> forall n :: n in top ==> !Spaced(n)
  {
    KeptPlain();
    DoomedMeans(top);
    if forall n :: n in top ==> !Spaced(n) {
      forall n | n in top
        ensures n in DoomedSet(top) <==> n !in KEPT
      {
        if n in DoomedSet(top) {
          var m :| m in top && m !in KEPT && n in Words(m);
          WordsMean(m);
        }
      }
      assert forall n :: n in top - DoomedSet(top) <==> n in top * KEPT;
    } else {
      var n :| n in top && Spaced(n);
      assert n in top - DoomedSet(top);
      assert n !in KEPT;
    }
  }

  /** Without blanks in names: `boot`, `k3os` and `sbin` are left. */
  lemma ClearedPlainly(top: set<string>)
    requires forall n :: n in top ==> n != "" && ' ' !in n && '\t' !in n && '\n' !in n
    ensures top - DoomedSet(top) == top * {"boot", "k3os", "sbin"}
  {
    forall n | n in top
      ensures !Spaced(n)
    {
      UndividedWord(n);
    }
    ClearedExactly(top);
  }

  /** A name with blanks can take a kept name with it. */
  lemma KeptNameLost(top: set<string>)
    requires "a boot" in top
    ensures "boot" in DoomedSet(top)
  {
    var s := "a boot";
    assert s[1..] == " boot" && s[1..][1..] == "boot";
    assert Split("boot", []) == ["boot"] by {
      KeptPlain();
      WordsMean("boot");
    }
    assert "boot" in Words(s) && |s| == 6 && forall k :: k in KEPT ==> |k| == 4;
  }

  // ---------- Steps ----------

  /** Something that `rm -rf` of a top-level name deletes on its way. */
  datatype Piece =
    | InSbin(name: string) | InBoot(name: string)
    | TakeoverMark | ResetMark | EphemeralMark | PoweroffMark | Data

  function Trim(d: Disk, name: string, p: Piece): Disk {
    match p
    case InSbin(n) => if name == "sbin" then d.(sbin := d.sbin - {n}) else d
    case InBoot(n) => if name == "boot" then d.(boot := d.boot - {n}) else d
    case TakeoverMark => if name == "k3os" then d.(takeover := false) else d
    case ResetMark => if name == "k3os" then d.(factoryReset := false) else d
    case EphemeralMark => if name == "k3os" then d.(ephemeral := false) else d
    case PoweroffMark => if name == "k3os" then d.(poweroff := false) else d
    case Data => if name == "k3os" then d.(data := false) else d
  }

  /** `rm -rf` of one top-level name. */
  function RemoveTop(d: Disk, name: string): Disk {
    var e := d.(top := d.top - {name});
    if name == "sbin" then e.(sbinIsLink := false, sbin := {})
    else if name == "boot" then e.(boot := {})
    else if name == "k3os" then
      e.(takeover := false, factoryReset := false, ephemeral := false, poweroff := false, data := false)
    else e
  }

  /** `rm -rf` of several, one after the other. */
  function RemoveAll(d: Disk, names: seq<string>): Disk
    decreases |names|
  {
    if names == [] then d else RemoveAll(RemoveTop(d, names[0]), names[1..])
  }

  predicate HasInit(d: Disk) {
    d.sbinIsLink || ("sbin" in d.top && "init" in d.sbin)
  }

  function Unlink(d: Disk): Disk {
    if d.sbinIsLink then d.(top := d.top - {"sbin"}, sbinIsLink := false, sbin := {}) else d
  }

  /** Where the script stands; `todo` is what a loop still has to go through. */
  datatype Pc =
    | Booting | Initing                                                           // setup_init
    | Testing | Marked | Unlinked                                                 // lines 108 to 117
    | Top(todo: seq<string>) | Sbin(todo: seq<string>) | BootDir(todo: seq<string>)  // lines 118 to 135
    | Unmarked | Emptied                                                          // lines 136 to 145
    | ResetTest | Resetting                                                       // lines 158 to 160
    | Passed

  datatype State = State(disk: Disk, pc: Pc)

  datatype Event =
    | Go                         // the next step is done; at the end of a takeover the machine halts
    | Glob(names: seq<string>)   // the shell lists the names that a star stands for
    | Part(piece: Piece)         // `rm -rf` has deleted one more piece
    | Stay                       // the machine does not halt, and the script goes on
    | Cut                        // the power fails

  function Reset(d: Disk): State {
    if d.factoryReset || d.ephemeral then State(d.(data := false), Resetting) else State(d, Passed)
  }

  /** One step of a loop that has something left to do. */
  function LoopStep(d: Disk, pc: Pc, e: Event): State
    requires (pc.Top? || pc.Sbin? || pc.BootDir?) && pc.todo != []
  {
    var name, rest := pc.todo[0], pc.todo[1..];
    match pc
    case Top(_) =>
      if e.Part? then State(Trim(d, name, e.piece), pc)
      else if e.Go? then State(RemoveTop(d, name), Top(rest))
      else State(d, pc)
    case Sbin(_) =>
      if e.Go? then State(if name in KEPT_SBIN then d else d.(sbin := d.sbin - {name}), Sbin(rest)) else State(d, pc)
    case BootDir(_) =>
      if e.Go? then State(if BeginsWithG(name) then d else d.(boot := d.boot - {name}), BootDir(rest)) else State(d, pc)
  }

  predicate BeginsWithG(name: string) {
    name != [] && name[0] == 'g'
  }

  ghost function Step(s: State, e: Event): State {
    var d := s.disk;
    if s.pc.Passed? then s
    else if e.Cut? then State(d, Booting)
    else if (s.pc.Top? || s.pc.Sbin? || s.pc.BootDir?) && s.pc.todo != [] then LoopStep(d, s.pc, e)
    else if e.Glob? then
      match s.pc
      case Unlinked => if Orders(e.names, d.top) then State(d, Top(Doomed(e.names))) else s
      case Top(_) => if Orders(e.names, d.sbin) then State(d, Sbin(e.names)) else s
      case Sbin(_) => if Orders(e.names, d.boot) then State(d, BootDir(e.names)) else s
      case _ => s
    else if e.Go? then
      match s.pc
      case Booting => if HasInit(d) then State(d, Testing) else State(d.(top := d.top + {"sbin"}), Initing)
      case Initing => State(d.(sbin := d.sbin + {"init"}), Testing)
      case Testing => if d.takeover then State(d.(factoryReset := true), Marked) else State(d, ResetTest)
      case Marked => State(Unlink(d), Unlinked)
      case BootDir(_) => State(d.(takeover := false), Unmarked)
      case Unmarked => State(d.(data := false), Emptied)
      case Emptied => State(d.(poweroff := false), Booting)
      case ResetTest => Reset(d)
      case Resetting => State(d.(factoryReset := false), Passed)
      case _ => s
    else if e.Stay? && s.pc.Emptied? then State(d.(poweroff := false), ResetTest)
    else s
  }

  ghost function Exec(s: State, es: seq<Event>): State
    decreases |es|
  {
    if es == [] then s else Exec(Step(s, es[0]), es[1..])
  }

  lemma {:induction false} ExecAppend(s: State, es: seq<Event>, e: Event)
    ensures Exec(s, es + [e]) == Step(Exec(s, es), e)
    decreases |es|
  {
    if es == [] {
      assert [e][1..] == [];
    } else {
      assert (es + [e])[1..] == es[1..] + [e];
      ExecAppend(Step(s, es[0]), es[1..], e);
    }
  }

  /** The power can fail after one piece of the name whose removal has been begun, with that piece gone. */
  lemma CutInRemoval(d: Disk, name: string, rest: seq<string>, p: Piece)
    ensures var s := Exec(State(d, Top([name] + rest)), [Part(p), Cut]);
      && s.pc.Booting? && s.disk.top == d.top && s.disk.sbinIsLink == d.sbinIsLink
      && s.disk.sbin == (if name == "sbin" && p.InSbin? then d.sbin - {p.name} else d.sbin)
      && s.disk.boot == (if name == "boot" && p.InBoot? then d.boot - {p.name} else d.boot)
      && (s.disk.takeover <==> d.takeover && !(name == "k3os" && p.TakeoverMark?))
      && (s.disk.factoryReset <==> d.factoryReset && !(name == "k3os" && p.ResetMark?))
      && (s.disk.ephemeral <==> d.ephemeral && !(name == "k3os" && p.EphemeralMark?))
      && (s.disk.poweroff <==> d.poweroff && !(name == "k3os" && p.PoweroffMark?))
      && (s.disk.data <==> d.data && !(name == "k3os" && p.Data?))
  {
    PartThenCut(d, [name] + rest, p);
  }

  lemma PartThenCut(d: Disk, todo: seq<string>, p: Piece)
    requires todo != []
    ensures Exec(State(d, Top(todo)), [Part(p), Cut]) == State(Trim(d, todo[0], p), Booting)
  {
    var s1 := State(Trim(d, todo[0], p), Top(todo));
    assert Step(State(d, Top(todo)), Part(p)) == LoopStep(d, Top(todo), Part(p)) == s1;
    TwoSteps(State(d, Top(todo)), Part(p), Cut);
  }

  lemma TwoSteps(s: State, e: Event, f: Event)
    ensures Exec(s, [e, f]) == Step(Step(s, e), f)
  {
    ExecAppend(s, [e], f);
    assert [e] + [f] == [e, f] && [e][1..] == [];
    assert Exec(s, [e]) == Exec(Step(s, e), []);
  }

  lemma {:induction false} ExecConcat(s: State, a: seq<Event>, b: seq<Event>)
    ensures Exec(s, a + b) == Exec(Exec(s, a), b)
    decreases |a|
  {
    if a == [] {
      assert a + b == b;
    } else {
      assert (a + b)[1..] == a[1..] + b;
      ExecConcat(Step(s, a[0]), a[1..], b);
    }
  }
}
