/** From which disks the takeover always ends well, wherever the power fails. */
module TakeoverSafety {
  import opened Iteration
  import opened Takeover

  // ---------- The order in which a star is listed ----------

  ghost predicate Sorted(before: (string, string) -> bool, names: seq<string>) {
    forall i, j :: 0 <= i < j < |names| ==> before(names[i], names[j])
  }

  ghost predicate Asymmetric(before: (string, string) -> bool) {
    forall a, b :: before(a, b) ==> !before(b, a)
  }

  /** `glob` lists every set of names in the order `before`. */
  ghost predicate Lists(before: (string, string) -> bool, glob: set<string> -> seq<string>) {
    Asymmetric(before) && forall t :: Orders(glob(t), t) && Sorted(before, glob(t))
  }

  /** The shell has listed all names in that order. */
  ghost predicate Listed(before: (string, string) -> bool, es: seq<Event>) {
    forall i :: 0 <= i < |es| && es[i].Glob? ==> Sorted(before, es[i].names)
  }

  // ---------- What a boot must find ----------

  /** Nothing is left that is to go, but for names with blanks. */
  ghost predicate Clean(d: Disk) {
    && (forall n :: n in d.top ==> n in KEPT || Spaced(n))
    && !d.sbinIsLink && d.sbin <= KEPT_SBIN
    && (forall n :: n in d.boot ==> BeginsWithG(n))
  }

  ghost predicate Finished(d: Disk) {
    !d.takeover && !d.data && !d.factoryReset && Clean(d)
  }

  ghost predicate NamesLast(top: set<string>, gone: set<string>) {
    forall n :: n in top ==> n in KEPT || Spaced(n) || n in gone
  }

  /** Nothing that is to go, no data among it, is left once `gone` has been removed. */
  ghost predicate Last(d: Disk, gone: set<string>) {
    && !d.data && NamesLast(d.top, gone)
    && (d.sbinIsLink || "sbin" in gone || d.sbin <= KEPT_SBIN)
    && ("boot" in gone || forall n :: n in d.boot ==> BeginsWithG(n))
  }

  /** The names that are to go and take `k3os` with them. */
  ghost predicate Takes(top: set<string>, m: string) {
    m in top && m !in KEPT && "k3os" in Words(m)
  }

  /** The words that come before the first `k3os`. */
  ghost function UpTo(words: seq<string>): set<string> {
    if words == [] || words[0] == "k3os" then {} else {words[0]} + UpTo(words[1..])
  }

  /** What has been removed when the loop comes to the word `k3os` of `m`. */
  ghost function Early(before: (string, string) -> bool, top: set<string>, m: string): set<string> {
    (set n, w | n in top && n !in KEPT && before(n, m) && w in Words(n) :: w) + UpTo(Words(m))
  }

  /** When the markers are deleted by way of a name with blanks, nothing else is left to be done. */
  ghost predicate Spares(before: (string, string) -> bool, d: Disk) {
    forall m :: Takes(d.top, m) ==> Last(d, Early(before, d.top, m))
  }

  /** A takeover that no name cuts short, or what one leaves. */
  ghost predicate Safe(before: (string, string) -> bool, d: Disk) {
    if d.takeover then Spares(before, d) else Clean(d) && (d.data ==> d.factoryReset || d.ephemeral)
  }

  // ---------- The first `k3os` in the list of doomed words ----------

  /** The loop at `todo` will not delete the markers too early. */
  ghost predicate Due(d: Disk, todo: seq<string>)
    decreases |todo|
  {
    todo != [] ==> if todo[0] == "k3os" then Last(d, {}) else Due(RemoveTop(d, todo[0]), todo[1..])
  }

  lemma LastAfter(d: Disk, w: string, gone: set<string>)
    requires w != "k3os"
    ensures Last(RemoveTop(d, w), gone) <==> Last(d, {w} + gone)
  {
    NamesAfter(d.top, w, gone);
  }

  lemma NamesAfter(top: set<string>, w: string, gone: set<string>)
    ensures NamesLast(top - {w}, gone) <==> NamesLast(top, {w} + gone)
  {
    assert forall n :: n in top ==> n == w || n in top - {w};
  }

  lemma {:induction false} DueMeans(d: Disk, todo: seq<string>)
    ensures Due(d, todo) <==> ("k3os" in todo ==> Last(d, UpTo(todo)))
    decreases |todo|
  {
    if todo != [] && todo[0] != "k3os" {
      var w := todo[0];
      DueMeans(RemoveTop(d, w), todo[1..]);
      LastAfter(d, w, UpTo(todo[1..]));
    }
  }

  lemma {:induction false} UpToConcat(a: seq<string>, b: seq<string>)
    ensures UpTo(a + b) == if "k3os" in a then UpTo(a) else UpTo(a) + UpTo(b)
    ensures "k3os" !in a ==> forall w :: w in UpTo(a) <==> w in a
    decreases |a|
  {
    if a == [] {
      assert a + b == b;
    } else {
      assert (a + b)[1..] == a[1..] + b;
      UpToConcat(a[1..], b);
      assert a == [a[0]] + a[1..];
    }
  }

  lemma {:induction false} DoomedConcat(a: seq<string>, b: seq<string>)
    ensures Doomed(a + b) == Doomed(a) + Doomed(b)
    decreases |a|
  {
    if a == [] {
      assert a + b == b;
    } else {
      assert (a + b)[1..] == a[1..] + b;
      DoomedConcat(a[1..], b);
    }
  }

  /** The first name of a list that takes `k3os` with it. */
  lemma FirstTaker(names: seq<string>) returns (j: nat)
    requires "k3os" in Doomed(names)
    ensures j < |names| && names[j] !in KEPT && "k3os" in Words(names[j]) && "k3os" !in Doomed(names[..j])
    ensures UpTo(Doomed(names)) == UpTo(Doomed(names[..j])) + UpTo(Words(names[j]))
  {
    j := 0;
    assert names[..|names|] == names;
    while names[j] in KEPT || "k3os" !in Words(names[j])
      invariant j < |names| && "k3os" !in Doomed(names[..j])
      decreases |names| - j
    {
      assert names[..j + 1] == names[..j] + [names[j]];
      DoomedConcat(names[..j], [names[j]]);
      assert [names[j]][1..] == [];
      j := j + 1;
    }
    var a, m, c := names[..j], names[j], names[j + 1..];
    assert names == a + ([m] + c) && ([m] + c)[1..] == c;
    DoomedConcat(a, [m] + c);
    UpToConcat(Doomed(a), Words(m) + Doomed(c));
    UpToConcat(Words(m), Doomed(c));
  }

  /** What has been removed when the loop over sorted names comes to its first `k3os`. */
  lemma EarlyMeans(before: (string, string) -> bool, names: seq<string>, top: set<string>, j: nat)
    requires Asymmetric(before) && Sorted(before, names) && Orders(names, top)
    requires j < |names| && "k3os" !in Doomed(names[..j])
    ensures UpTo(Doomed(names[..j])) + UpTo(Words(names[j])) == Early(before, top, names[j])
  {
    var m, a := names[j], names[..j];
    DoomedIn(a);
    UpToConcat(Doomed(a), []);
    forall n | n in top
      ensures n in a <==> before(n, m)
    {
      var i :| 0 <= i < |names| && names[i] == n;
      if n in a {
        var k :| 0 <= k < j && names[k] == n;
      }
      if i < j {
        assert a[i] == n;
      }
    }
    assert forall n :: n in a ==> n in names;
  }

  lemma UpToIn(words: seq<string>)
    ensures forall w :: w in UpTo(words) ==> w in words
  {
    if words != [] { UpToIn(words[1..]); }
  }

  /** A later name that takes `k3os` with it comes when more is gone. */
  lemma LaterTaker(before: (string, string) -> bool, names: seq<string>, top: set<string>, j: nat, m: string)
    requires Asymmetric(before) && Sorted(before, names) && Orders(names, top)
    requires j < |names| && names[j] !in KEPT && "k3os" !in Doomed(names[..j]) && Takes(top, m)
    ensures Early(before, top, names[j]) <= Early(before, top, m)
  {
    var f := names[j];
    var k :| 0 <= k < |names| && names[k] == m;
    DoomedIn(names[..j]);
    assert forall i :: 0 <= i < j ==> names[i] in names[..j];
    UpToIn(Words(f));
    forall w | w in Early(before, top, f)
      ensures w in Early(before, top, m)
    {
      if w !in UpTo(Words(f)) {
        var n :| n in top && n !in KEPT && before(n, f) && w in Words(n);
        var i :| 0 <= i < |names| && names[i] == n;
        assert i < j <= k;
      }
    }
  }

  lemma LastMore(d: Disk, less: set<string>, more: set<string>)
    requires Last(d, less) && less <= more
    ensures Last(d, more)
  {}

  /** The condition on the disk is the one on the list the shell makes of it. */
  lemma SparesExactly(before: (string, string) -> bool, d: Disk, names: seq<string>)
    requires Asymmetric(before) && Sorted(before, names) && Orders(names, d.top)
    ensures Spares(before, d) <==> Due(d, Doomed(names))
  {
    DueMeans(d, Doomed(names));
    DoomedIn(names);
    if "k3os" in Doomed(names) {
      var j := FirstTaker(names);
      EarlyMeans(before, names, d.top, j);
      assert Takes(d.top, names[j]);
      if Due(d, Doomed(names)) {
        forall m | Takes(d.top, m)
          ensures Last(d, Early(before, d.top, m))
        {
          LaterTaker(before, names, d.top, j, m);
          LastMore(d, Early(before, d.top, names[j]), Early(before, d.top, m));
        }
      }
    } else {
      assert forall m :: m in d.top ==> m in names;
    }
  }

  // ---------- What every step keeps ----------

  ghost function SpacedNames(d: Disk): set<string> {
    set n | n in d.top && Spaced(n)
  }

  /** Removing names, adding kept ones: the condition stays, as names with blanks do. */
  lemma SparesKept(before: (string, string) -> bool, d: Disk, e: Disk)
    requires Spares(before, d) && "" !in d.top
    requires forall n :: n in e.top ==> n in d.top || n in KEPT
    requires SpacedNames(d) == SpacedNames(e) && (e.data ==> d.data) && e.boot <= d.boot
    requires e.sbinIsLink || e.sbin <= KEPT_SBIN || (!d.sbinIsLink && e.sbin <= d.sbin + KEPT_SBIN)
    ensures Spares(before, e)
  {
    forall m | Takes(e.top, m)
      ensures Last(e, Early(before, e.top, m))
    {
      var gone := Early(before, d.top, m);
      forall w | w in gone && (w in e.top || w in KEPT)
        ensures w in KEPT || w in Early(before, e.top, m)
        ensures w == "sbin" || w == "boot" ==> w in Early(before, e.top, m)
      {
        EarlyKept(before, d, e, m, w);
      }
    }
  }

  lemma EarlyKept(before: (string, string) -> bool, d: Disk, e: Disk, m: string, w: string)
    requires "" !in d.top && SpacedNames(d) == SpacedNames(e)
    requires w in Early(before, d.top, m) && (w in e.top || w in KEPT)
    ensures w in Early(before, e.top, m)
  {
    if w !in UpTo(Words(m)) {
      var n :| n in d.top && n !in KEPT && before(n, m) && w in Words(n);
      WordsMean(n);
      assert Spaced(n) ==> n in SpacedNames(d);
      assert !Spaced(n) ==> n == w;
    }
  }

  /** The takeover is under way, or has been cut short where it does no harm. */
  ghost predicate Going(before: (string, string) -> bool, d: Disk) {
    && !d.sbinIsLink
    && if d.takeover then Spares(before, d) && (d.data ==> d.factoryReset || d.ephemeral) else Clean(d) && !d.data
  }

  ghost predicate TopClean(d: Disk, todo: seq<string>) {
    forall n :: n in d.top ==> n in KEPT || Spaced(n) || n in todo
  }

  ghost predicate SbinClean(d: Disk, todo: seq<string>) {
    forall n :: n in d.sbin ==> n in KEPT_SBIN || n in todo
  }

  ghost predicate BootClean(d: Disk, todo: seq<string>) {
    forall n :: n in d.boot ==> BeginsWithG(n) || n in todo
  }

  /** What holds wherever the script stands. */
  ghost predicate Inv(before: (string, string) -> bool, spaced: set<string>, s: State) {
    var d := s.disk;
    && "" !in d.top && SpacedNames(d) == spaced
    && match s.pc
       case Booting => Safe(before, d)
       case Initing => Safe(before, d) && !d.sbinIsLink
       case Testing => Safe(before, d)
       case Marked => d.takeover && d.factoryReset && Spares(before, d)
       case Unlinked => d.takeover && d.factoryReset && Spares(before, d) && !d.sbinIsLink
       case Top(todo) => Going(before, d) && Due(d, todo) && TopClean(d, todo) && forall w :: w in todo ==> !Spaced(w)
       case Sbin(todo) => Going(before, d) && TopClean(d, []) && SbinClean(d, todo)
       case BootDir(todo) => Going(before, d) && TopClean(d, []) && SbinClean(d, []) && BootClean(d, todo)
       case Unmarked => !d.takeover && Safe(before, d)
       case Emptied => !d.takeover && Clean(d) && !d.data
       case ResetTest => !d.takeover && Safe(before, d)
       case Resetting => !d.takeover && Clean(d) && !d.data
       case Passed => Finished(d)
  }

  /** With nothing left that is to go the loop can do no harm. */
  lemma {:induction false} DueWhenLast(d: Disk, todo: seq<string>)
    requires Last(d, {})
    ensures Due(d, todo)
    decreases |todo|
  {
    if todo != [] && todo[0] != "k3os" {
      DueWhenLast(RemoveTop(d, todo[0]), todo[1..]);
    }
  }

  lemma RemoveKeeps(before: (string, string) -> bool, spaced: set<string>, d: Disk, todo: seq<string>)
    requires Inv(before, spaced, State(d, Top(todo))) && todo != []
    ensures Inv(before, spaced, State(RemoveTop(d, todo[0]), Top(todo[1..])))
  {
    var w, e := todo[0], RemoveTop(d, todo[0]);
    assert SpacedNames(e) == SpacedNames(d);
    assert forall n :: n in todo <==> n == w || n in todo[1..];
    if w == "k3os" {
      assert Last(e, {});
      DueWhenLast(e, todo[1..]);
    } else if d.takeover {
      SparesKept(before, d, e);
    }
  }

  lemma TrimKeeps(before: (string, string) -> bool, spaced: set<string>, d: Disk, todo: seq<string>, p: Piece)
    requires Inv(before, spaced, State(d, Top(todo))) && todo != []
    ensures Inv(before, spaced, State(Trim(d, todo[0], p), Top(todo)))
  {
    var w, e := todo[0], Trim(d, todo[0], p);
    assert SpacedNames(e) == SpacedNames(d);
    DueTrimmed(d, todo, p);
    if d.takeover {
      SparesKept(before, d, e);
    }
  }

  /** A removal that is under way takes nothing but what it takes in the end. */
  lemma DueTrimmed(d: Disk, todo: seq<string>, p: Piece)
    requires todo != [] && Due(d, todo)
    ensures Due(Trim(d, todo[0], p), todo)
  {
    var w, e := todo[0], Trim(d, todo[0], p);
    if w == "k3os" {
      assert Last(e, {});
    } else {
      assert RemoveTop(e, w) == RemoveTop(d, w);
    }
  }

  lemma SmallerKeeps(before: (string, string) -> bool, d: Disk, e: Disk)
    requires Going(before, d) && "" !in d.top
    requires e == d.(sbin := e.sbin, boot := e.boot) && e.sbin <= d.sbin && e.boot <= d.boot
    ensures Going(before, e) && SpacedNames(e) == SpacedNames(d)
  {
    if d.takeover { SparesKept(before, d, e); }
  }

  lemma LoopKeeps(before: (string, string) -> bool, spaced: set<string>, s: State, e: Event)
    requires Inv(before, spaced, s) && (s.pc.Top? || s.pc.Sbin? || s.pc.BootDir?) && s.pc.todo != []
    ensures Inv(before, spaced, LoopStep(s.disk, s.pc, e))
  {
    var next := LoopStep(s.disk, s.pc, e);
    var todo := s.pc.todo;
    assert forall n :: n in todo <==> n == todo[0] || n in todo[1..];
    match s.pc
    case Top(_) =>
      if e.Part? { TrimKeeps(before, spaced, s.disk, todo, e.piece); }
      if e.Go? { RemoveKeeps(before, spaced, s.disk, todo); }
    case Sbin(_) => SmallerKeeps(before, s.disk, next.disk);
    case BootDir(_) => SmallerKeeps(before, s.disk, next.disk);
  }

  lemma GlobKeeps(before: (string, string) -> bool, spaced: set<string>, d: Disk, names: seq<string>)
    requires Inv(before, spaced, State(d, Unlinked))
    requires Asymmetric(before) && Sorted(before, names) && Orders(names, d.top)
    ensures Inv(before, spaced, State(d, Top(Doomed(names))))
  {
    SparesExactly(before, d, names);
    DoomedIn(names);
    forall n | n in d.top && n !in KEPT && !Spaced(n)
      ensures n in Doomed(names)
    {
      WordsMean(n);
      assert n in [n];
    }
    forall w | w in Doomed(names)
      ensures !Spaced(w)
    {
      var n :| n in names && n !in KEPT && w in Words(n);
      WordsMean(n);
    }
  }

  lemma BootingKeeps(before: (string, string) -> bool, spaced: set<string>, s: State)
    requires Inv(before, spaced, s) && (s.pc.Booting? || s.pc.Initing? || s.pc.Testing? || s.pc.Marked?)
    ensures Inv(before, spaced, Step(s, Go))
  {
    var d, e := s.disk, Step(s, Go).disk;
    KeptPlain();
    assert "sbin" in KEPT && "init" in KEPT_SBIN;
    assert SpacedNames(e) == SpacedNames(d);
    if d.takeover { SparesKept(before, d, e); }
  }

  predicate Closing(pc: Pc) {
    pc.BootDir? || pc.Unmarked? || pc.Emptied? || pc.ResetTest? || pc.Resetting?
  }

  lemma ClosingKeeps(before: (string, string) -> bool, spaced: set<string>, s: State, e: Event)
    requires Inv(before, spaced, s) && (e.Go? || e.Stay?)
    requires Closing(s.pc) && (s.pc.BootDir? ==> s.pc.todo == [])
    ensures Inv(before, spaced, Step(s, e))
  {
    assert SpacedNames(Step(s, e).disk) == SpacedNames(s.disk);
  }

  /** Wherever the power fails, the next boot finds a safe disk. */
  lemma CutKeeps(before: (string, string) -> bool, spaced: set<string>, s: State)
    requires Inv(before, spaced, s) && !s.pc.Passed?
    ensures Inv(before, spaced, State(s.disk, Booting))
  {}

  lemma StepKeeps(before: (string, string) -> bool, spaced: set<string>, s: State, e: Event)
    requires Asymmetric(before) && Inv(before, spaced, s) && (e.Glob? ==> Sorted(before, e.names))
    ensures Inv(before, spaced, Step(s, e))
  {
    if s.pc.Passed? {
    } else if e.Cut? {
      CutKeeps(before, spaced, s);
    } else if (s.pc.Top? || s.pc.Sbin? || s.pc.BootDir?) && s.pc.todo != [] {
      LoopKeeps(before, spaced, s, e);
    } else if s.pc.Unlinked? && e.Glob? && Orders(e.names, s.disk.top) {
      GlobKeeps(before, spaced, s.disk, e.names);
    } else if (s.pc.Booting? || s.pc.Initing? || s.pc.Testing? || s.pc.Marked?) && e.Go? {
      BootingKeeps(before, spaced, s);
    } else if (e.Go? || e.Stay?) && Closing(s.pc) {
      ClosingKeeps(before, spaced, s, e);
    }
  }

  lemma {:induction false} ExecKeeps(before: (string, string) -> bool, spaced: set<string>, s: State, es: seq<Event>)
    requires Asymmetric(before) && Inv(before, spaced, s) && Listed(before, es)
    ensures Inv(before, spaced, Exec(s, es))
    decreases |es|
  {
    if es != [] {
      StepKeeps(before, spaced, s, es[0]);
      assert forall i :: 0 <= i < |es| - 1 ==> es[1..][i] == es[i + 1];
      ExecKeeps(before, spaced, Step(s, es[0]), es[1..]);
    }
  }

  // ---------- Runs that end badly ----------

  predicate AllGo(es: seq<Event>) {
    forall i :: 0 <= i < |es| ==> es[i].Go?
  }

  lemma ListedConcat(before: (string, string) -> bool, a: seq<Event>, b: seq<Event>)
    requires Listed(before, a) && Listed(before, b)
    ensures Listed(before, a + b)
  {}

  function Init(d: Disk): Disk {
    if HasInit(d) then d else d.(top := d.top + {"sbin"}, sbin := d.sbin + {"init"})
  }

  lemma InitMeans(d: Disk)
    ensures Init(d) == if d.sbinIsLink then d else d.(top := d.top + {"sbin"}, sbin := d.sbin + {"init"})
  {
    if "sbin" in d.top && "init" in d.sbin {
      assert d.top + {"sbin"} == d.top && d.sbin + {"init"} == d.sbin;
    }
  }

  /** `setup_init` makes a disk neither safer nor less safe. */
  lemma InitSame(before: (string, string) -> bool, d: Disk)
    requires "" !in d.top
    ensures Clean(Init(d)) <==> Clean(d)
    ensures Spares(before, Unlink(Init(d)).(factoryReset := true)) ==> Spares(before, d)
  {
    var e := Unlink(Init(d)).(factoryReset := true);
    KeptPlain();
    assert "sbin" in KEPT && "init" in KEPT_SBIN;
    assert SpacedNames(e) == SpacedNames(d);
    if Spares(before, e) { SparesKept(before, e, d); }
  }

  lemma DriveToTest(d: Disk) returns (es: seq<Event>)
    ensures Exec(State(d, Booting), es) == State(Init(d), Testing)
    ensures AllGo(es)
  {
    var s := State(d, Booting);
    es := [Go];
    ExecAppend(s, [], Go);
    assert [] + [Go] == es;
    if !HasInit(d) {
      ExecAppend(s, es, Go);
      es := es + [Go];
    }
  }

  /** Without a takeover to do a boot passes, and ends well from just the safe disks. */
  lemma DriveThrough(before: (string, string) -> bool, d: Disk) returns (es: seq<Event>)
    requires !d.takeover && "" !in d.top
    ensures var s := Exec(State(d, Booting), es); s.pc.Passed? && (Finished(s.disk) <==> Safe(before, d))
    ensures AllGo(es)
  {
    var s0 := State(d, Booting);
    es := DriveToTest(d);
    InitSame(before, d);
    ExecAppend(s0, es, Go);
    var more := DriveReset(Init(d));
    ExecConcat(s0, es + [Go], more);
    es := es + [Go] + more;
  }

  lemma DriveReset(d: Disk) returns (es: seq<Event>)
    requires !d.takeover
    ensures var s := Exec(State(d, ResetTest), es);
      s.pc.Passed? && (Finished(s.disk) <==> Clean(d) && (d.data ==> d.factoryReset || d.ephemeral))
    ensures AllGo(es)
  {
    es := if d.factoryReset || d.ephemeral then [Go, Go] else [Go];
    assert [Go, Go][1..] == [Go] && [Go][1..] == [];
    assert Exec(State(d, ResetTest), es) == Exec(Step(State(d, ResetTest), Go), es[1..]);
  }

  /** The loop comes to a `k3os` with other things left to do. */
  lemma {:induction false} DriveToMarkers(d: Disk, todo: seq<string>) returns (es: seq<Event>, i: nat)
    requires !Due(d, todo) && !d.sbinIsLink
    ensures i < |todo| && todo[i] == "k3os"
      && Exec(State(d, Top(todo)), es) == State(RemoveAll(d, todo[..i]), Top(todo[i..]))
    ensures var e := RemoveAll(d, todo[..i]); !e.sbinIsLink && !Last(e, {})
    ensures AllGo(es)
    decreases |todo|
  {
    if todo[0] == "k3os" {
      es, i := [], 0;
    } else {
      var more, k := DriveToMarkers(RemoveTop(d, todo[0]), todo[1..]);
      es, i := [Go] + more, k + 1;
      assert es[1..] == more && todo[..i][1..] == todo[1..][..k];
    }
  }

  /** From there a cut leaves a disk without the markers. */
  lemma CutAtMarkers(before: (string, string) -> bool, d: Disk, todo: seq<string>) returns (es: seq<Event>)
    requires todo != [] && todo[0] == "k3os" && !d.sbinIsLink && !Last(d, {}) && "" !in d.top
    ensures var s := Exec(State(d, Top(todo)), es);
      s.pc.Booting? && !s.disk.takeover && !Safe(before, s.disk) && s.disk.top <= d.top
    ensures Listed(before, es)
  {
    var s0 := State(d, Top(todo));
    if Clean(d) {
      es := [Part(TakeoverMark)];
      ExecAppend(s0, [], Part(TakeoverMark));
      assert [] + [Part(TakeoverMark)] == es;
      ExecAppend(s0, es, Part(ResetMark));
      ExecAppend(s0, es + [Part(ResetMark)], Part(EphemeralMark));
      es := es + [Part(ResetMark)] + [Part(EphemeralMark)];
    } else {
      es := [Go];
      ExecAppend(s0, [], Go);
      assert [] + [Go] == es;
      assert !Clean(RemoveTop(d, "k3os"));
    }
    ExecAppend(s0, es, Cut);
    es := es + [Cut];
  }

  lemma {:induction false} RemoveAllTop(d: Disk, names: seq<string>)
    ensures RemoveAll(d, names).top == d.top - set w | w in names
    decreases |names|
  {
    if names != [] {
      RemoveAllTop(RemoveTop(d, names[0]), names[1..]);
      assert forall w :: w in names <==> w == names[0] || w in names[1..];
    }
  }

  /** A boot that begins a takeover it may not survive, up to the loop. */
  lemma DriveToLoop(before: (string, string) -> bool, names: seq<string>, d: Disk) returns (es: seq<Event>)
    requires d.takeover && Sorted(before, names) && Orders(names, Unlink(Init(d)).top)
    ensures Exec(State(d, Booting), es) == State(Unlink(Init(d)).(factoryReset := true), Top(Doomed(names)))
    ensures Listed(before, es)
  {
    var s0 := State(d, Booting);
    es := DriveToTest(d);
    ExecAppend(s0, es, Go);
    ExecAppend(s0, es + [Go], Go);
    es := es + [Go] + [Go];
    ExecAppend(s0, es, Glob(names));
    es := es + [Glob(names)];
  }

  /** From the loop, with something else left to do when the markers go: a cut, and a boot that passes. */
  lemma CutLoop(before: (string, string) -> bool, d: Disk, todo: seq<string>) returns (es: seq<Event>)
    requires !Due(d, todo) && !d.sbinIsLink && "" !in d.top
    ensures var s := Exec(State(d, Top(todo)), es); s.pc.Passed? && !Finished(s.disk)
    ensures Listed(before, es)
  {
    var s0 := State(d, Top(todo));
    var a, i := DriveToMarkers(d, todo);
    RemoveAllTop(d, todo[..i]);
    var d1 := RemoveAll(d, todo[..i]);
    var b := CutAtMarkers(before, d1, todo[i..]);
    var d2 := Exec(State(d1, Top(todo[i..])), b).disk;
    var c := DriveThrough(before, d2);
    ExecConcat(s0, a, b);
    ExecConcat(s0, a + b, c);
    es := a + b + c;
    ListedConcat(before, a, b);
    ListedConcat(before, a + b, c);
  }

  /** The boot that is cut just then, and the next one, which passes with the takeover unfinished. */
  lemma CutShort(before: (string, string) -> bool, glob: set<string> -> seq<string>, d: Disk) returns (es: seq<Event>)
    requires Lists(before, glob) && d.takeover && !Spares(before, d) && "" !in d.top
    ensures var s := Exec(State(d, Booting), es); s.pc.Passed? && !Finished(s.disk)
    ensures Listed(before, es)
  {
    var d1 := Unlink(Init(d)).(factoryReset := true);
    var names := glob(d1.top);
    InitSame(before, d);
    SparesExactly(before, d1, names);
    var a := DriveToLoop(before, names, d);
    var b := CutLoop(before, d1, Doomed(names));
    ExecConcat(State(d, Booting), a, b);
    ListedConcat(before, a, b);
    es := a + b;
  }

  /**
   Over any number of boots, each cut anywhere, the first that passes line 160 finds the takeover and the
   reset done: exactly from the safe disks.
   */
  lemma PassesFinishedExactly(before: (string, string) -> bool, glob: set<string> -> seq<string>, d: Disk)
    requires Lists(before, glob) && "" !in d.top
    ensures (forall es :: Listed(before, es) && Exec(State(d, Booting), es).pc.Passed? ==>
               Finished(Exec(State(d, Booting), es).disk))
      <==> Safe(before, d)
  {
    var s0 := State(d, Booting);
    if Safe(before, d) {
      forall es | Listed(before, es) && Exec(s0, es).pc.Passed?
        ensures Finished(Exec(s0, es).disk)
      {
        ExecKeeps(before, SpacedNames(d), s0, es);
      }
    } else {
      var es;
      if d.takeover {
        es := CutShort(before, glob, d);
      } else {
        es := DriveThrough(before, d);
      }
      assert Listed(before, es) && Exec(s0, es).pc.Passed? && !Finished(Exec(s0, es).disk);
    }
  }

  /** What such a boot leaves beside the kept names are exactly the names with blanks. */
  lemma PassesLeaves(before: (string, string) -> bool, d: Disk, es: seq<Event>)
    requires Asymmetric(before) && "" !in d.top && Safe(before, d)
    requires Listed(before, es) && Exec(State(d, Booting), es).pc.Passed?
    ensures Exec(State(d, Booting), es).disk.top - KEPT == SpacedNames(d)
  {
    ExecKeeps(before, SpacedNames(d), State(d, Booting), es);
    KeptPlain();
  }

  /** Without a name that takes `k3os` with it, every disk with a takeover to do is safe. */
  lemma NoTakerIsSafe(before: (string, string) -> bool, d: Disk)
    requires d.takeover && "k3os" !in DoomedSet(d.top)
    ensures Safe(before, d)
  {
    assert forall m :: Takes(d.top, m) ==> "k3os" in DoomedSet(d.top);
  }
}
