/** What the results of `copyFS` mean for the old tree, and where the last walk goes too far. */
module RelocationOutcome {
  import opened Basics
  import opened RootTree
  import opened Relocation

  /** The new root in terms of the old tree alone: what lies on the root device, and the mount points on it, empty. */
  lemma AgreesMeans(t: Node, dst: Files, p: Path)
    requires Agrees(t, dst)
    ensures p in dst <==> Lookup(t, p).Some? && forall i :: 0 <= i < |p| ==> OnRoot(t, p[..i])
    ensures p in dst ==>
      match Lookup(t, p).value
      case Dir(_, _) => dst[p] == IDir
      case File(_, data) => dst[p] == IFile(data)
      case Link(_, target) => dst[p] == ILink(target)
      case Fifo(_) => dst[p] == IFifo
      case Device(_) => dst[p] == Odd
      case Socket(_) => dst[p] == ISocket
      case Unknown(_) => dst[p] == IUnknown
    ensures p in dst && Lookup(t, p).value.dev != t.dev ==> forall q :: q in dst ==> !Below(p, q)
  {
    ReachExactly(t, p);
    if p in dst && Lookup(t, p).value.dev != t.dev {
      forall q | q in dst
        ensures !Below(p, q)
      {
        if Below(p, q) { ReachBelow(t, p, q); }
      }
    }
  }

  lemma {:induction false} StuckAbove(t: Node, p: Path)
    requires t.Dir? && StuckAt(t, p)
    ensures p[0] in t.kids && Stuck(t.dev, t.kids[p[0]])
    decreases |p|
  {
    var up := p[..|p| - 1];
    if |p| > 1 {
      assert Lookup(t, up).value.Dir? && p[|p| - 1] in Lookup(t, up).value.kids;
      assert StuckAt(t, up);
      StuckAbove(t, up);
    } else {
      assert p == [p[0]] && up == [];
    }
  }

  lemma TopStuck(t: Node, name: string)
    requires t.Dir? && name in t.kids
    ensures StuckAt(t, [name]) <==> Stuck(t.dev, t.kids[name])
  {
    assert [name][..0] == [];
    LookupChild(t, [], name);
    assert [] + [name] == [name];
  }

  /** No mount lies deeper than the top, and no file at the top is one. */
  ghost predicate NoneDeeper(t: Node)
    requires t.Dir?
  {
    forall name :: name in t.kids && name !in TopMounts(t) ==> !Stuck(t.dev, t.kids[name])
  }

  /** Nothing but the root and the mounts at the top is left. */
  ghost predicate OnlyMountsLeft(t: Node, src: Files)
    requires t.Dir?
  {
    forall p :: p in src && p != [] ==> p[0] in TopMounts(t)
  }

  /** The last walk, if no removal fails, leaves only the mounts at the top exactly when no mount lies deeper. */
  lemma DeletedExactly(t: Node, was: Files, src: Files)
    requires t.Dir? && Mirrors(t, was) && Emptied(t, was, src, true)
    ensures OnlyMountsLeft(t, src) <==> NoneDeeper(t)
  {
    if NoneDeeper(t) {
      forall p | p in src && p != []
        ensures p[0] in TopMounts(t)
      {
        if p[0] !in TopMounts(t) { StuckAbove(t, p); }
      }
    }
    if OnlyMountsLeft(t, src) {
      forall name | name in t.kids && name !in TopMounts(t)
        ensures !Stuck(t.dev, t.kids[name])
      {
        TopStuck(t, name);
        assert [name][0] == name;
      }
    }
  }

  // ---------- Other file systems ----------

  /** A directory holds only mount points and what leads to them, at every depth. */
  predicate OnlyStuck(n: Node)
    decreases n
  {
    n.Dir? ==> forall name :: name in n.kids ==> Stuck(n.dev, n.kids[name]) && OnlyStuck(n.kids[name])
  }

  /** So does every mount on the way down from a directory. */
  predicate Spared(root: nat, n: Node)
    decreases n
  {
    n.Dir? ==> if n.dev != root then OnlyStuck(n) else forall name :: name in n.kids ==> Spared(root, n.kids[name])
  }

  /** Every mount below a directory at the top holds only mount points and what leads to them. */
  ghost predicate MountsHollow(t: Node)
    requires t.Dir?
  {
    forall name :: name in t.kids && name !in TopMounts(t) ==> Spared(t.dev, t.kids[name])
  }

  /** Everything below is stuck. */
  ghost predicate StuckBelow(t: Node, q: Path) {
    forall p :: Below(q, p) && Lookup(t, p).Some? ==> StuckAt(t, p)
  }

  /** Everything below that the walks do not come to is stuck. */
  ghost predicate HiddenStuck(t: Node, q: Path) {
    forall p :: Below(q, p) && Lookup(t, p).Some? && Reach(t, p).None? ==> StuckAt(t, p)
  }

  lemma ChildStuck(t: Node, q: Path, name: string)
    requires Lookup(t, q).Some? && Lookup(t, q).value.Dir? && name in Lookup(t, q).value.kids
    ensures Lookup(t, q + [name]) == Some(Lookup(t, q).value.kids[name]) && Below(q, q + [name])
    ensures StuckAt(t, q + [name]) <==> Stuck(Lookup(t, q).value.dev, Lookup(t, q).value.kids[name])
  {
    LookupChild(t, q, name);
    assert (q + [name])[..|q|] == q;
  }

  /** Each entry below is a child, or below one. */
  lemma ByChild(t: Node, q: Path, p: Path)
    requires Below(q, p) && Lookup(t, p).Some?
    ensures Lookup(t, q).Some? && Lookup(t, q).value.Dir? && p[|q|] in Lookup(t, q).value.kids
    ensures p == q + [p[|q|]] || Below(q + [p[|q|]], p)
  {
    LookupBelow(t, q, p);
    BelowChild(q, p[|q|], p);
  }

  lemma {:induction false} OnlyStuckExactly(t: Node, q: Path, n: Node)
    requires Lookup(t, q) == Some(n)
    ensures OnlyStuck(n) <==> StuckBelow(t, q)
    decreases n
  {
    if n.Dir? {
      forall name | name in n.kids
        ensures OnlyStuck(n.kids[name]) <==> StuckBelow(t, q + [name])
        ensures StuckAt(t, q + [name]) <==> Stuck(n.dev, n.kids[name])
      {
        ChildStuck(t, q, name);
        OnlyStuckExactly(t, q + [name], n.kids[name]);
      }
      if OnlyStuck(n) { StuckBelowChildren(t, q, n); }
      if StuckBelow(t, q) {
        forall name | name in n.kids
          ensures StuckAt(t, q + [name]) && StuckBelow(t, q + [name])
        {
          ChildStuck(t, q, name);
          forall p | Below(q + [name], p)
            ensures Below(q, p)
          {
            BelowChild(q, name, p);
          }
        }
      }
    } else {
      forall p | Below(q, p)
        ensures Lookup(t, p).None?
      {
        if Lookup(t, p).Some? { LookupBelow(t, q, p); }
      }
    }
  }

  lemma StuckBelowChildren(t: Node, q: Path, n: Node)
    requires Lookup(t, q) == Some(n) && n.Dir?
    requires forall name :: name in n.kids ==> StuckAt(t, q + [name]) && StuckBelow(t, q + [name])
    ensures StuckBelow(t, q)
  {
    forall p | Below(q, p) && Lookup(t, p).Some?
      ensures StuckAt(t, p)
    {
      ByChild(t, q, p);
      assert StuckAt(t, q + [p[|q|]]) && StuckBelow(t, q + [p[|q|]]);
    }
  }

  lemma HiddenBelowMount(t: Node, q: Path)
    requires Reach(t, q).Some? && Reach(t, q).value.dev != t.dev
    ensures HiddenStuck(t, q) <==> StuckBelow(t, q)
  {
    forall p | Below(q, p)
      ensures Reach(t, p).None?
    {
      if Reach(t, p).Some? { ReachBelow(t, q, p); }
    }
  }

  lemma HiddenBelowDir(t: Node, q: Path, n: Node)
    requires Reach(t, q) == Some(n) && n.Dir? && n.dev == t.dev
    ensures HiddenStuck(t, q) <==> forall name :: name in n.kids ==> HiddenStuck(t, q + [name])
  {
    ReachExactly(t, q);
    forall name | name in n.kids
      ensures Reach(t, q + [name]).Some?
      ensures forall p :: Below(q + [name], p) ==> Below(q, p)
    {
      ReachChild(t, q, name);
      forall p | Below(q + [name], p)
        ensures Below(q, p)
      {
        BelowChild(q, name, p);
      }
    }
    forall p | Below(q, p) && Lookup(t, p).Some? && Reach(t, p).None?
      ensures p[|q|] in n.kids && Below(q + [p[|q|]], p)
    {
      ByChild(t, q, p);
    }
  }

  lemma {:induction false} SparedExactly(t: Node, q: Path, n: Node)
    requires Reach(t, q) == Some(n)
    ensures Spared(t.dev, n) <==> HiddenStuck(t, q)
    decreases n
  {
    ReachExactly(t, q);
    if n.Dir? && n.dev == t.dev {
      forall name | name in n.kids
        ensures Spared(t.dev, n.kids[name]) <==> HiddenStuck(t, q + [name])
      {
        ReachChild(t, q, name);
        SparedExactly(t, q + [name], n.kids[name]);
      }
      HiddenBelowDir(t, q, n);
    } else if n.Dir? {
      OnlyStuckExactly(t, q, n);
      HiddenBelowMount(t, q);
    } else {
      forall p | Below(q, p)
        ensures Lookup(t, p).None?
      {
        if Lookup(t, p).Some? { LookupBelow(t, q, p); }
      }
    }
  }

  /** Nothing that lies on another file system was deleted. */
  ghost predicate OthersKept(t: Node, was: Files, src: Files) {
    forall p :: p in was && Reach(t, p).None? ==> p in src
  }

  /**
   The last walk, meant to stay on its device, deletes nothing from other file systems exactly if
   every mount below a directory at the top holds only mount points and what leads to them.
   */
  lemma OthersKeptExactly(t: Node, was: Files, src: Files)
    requires t.Dir? && Mirrors(t, was) && Emptied(t, was, src, true)
    ensures OthersKept(t, was, src) <==> MountsHollow(t)
  {
    if MountsHollow(t) { HollowKeeps(t, was, src); }
    if OthersKept(t, was, src) { KeptHollow(t, was, src); }
  }

  lemma TopSpared(t: Node, name: string)
    requires t.Dir? && name in t.kids
    ensures Spared(t.dev, t.kids[name]) <==> HiddenStuck(t, [name])
  {
    ReachChild(t, [], name);
    assert [] + [name] == [name];
    SparedExactly(t, [name], t.kids[name]);
  }

  lemma HollowKeeps(t: Node, was: Files, src: Files)
    requires t.Dir? && Mirrors(t, was) && Emptied(t, was, src, true) && MountsHollow(t)
    ensures OthersKept(t, was, src)
  {
    forall p | p in was && Reach(t, p).None?
      ensures p in src
    {
      ByTop(t, p);
      TopSpared(t, p[0]);
      if p[0] !in TopMounts(t) { assert HiddenStuck(t, [p[0]]); }
    }
  }

  lemma KeptHollow(t: Node, was: Files, src: Files)
    requires t.Dir? && Mirrors(t, was) && Emptied(t, was, src, true) && OthersKept(t, was, src)
    ensures MountsHollow(t)
  {
    forall name | name in t.kids && name !in TopMounts(t)
      ensures Spared(t.dev, t.kids[name])
    {
      forall p | Below([name], p) && Lookup(t, p).Some? && Reach(t, p).None?
        ensures StuckAt(t, p)
      {
        assert p in was && p[..1] == [name] && p[0] == name;
      }
      TopSpared(t, name);
    }
  }

  lemma ByTop(t: Node, p: Path)
    requires t.Dir? && Lookup(t, p).Some? && Reach(t, p).None?
    ensures p != [] && p[0] in t.kids && Below([p[0]], p)
  {
    ByChild(t, [], p);
    ReachChild(t, [], p[0]);
    assert [] + [p[0]] == [p[0]];
  }

  /** A file system mounted below a directory loses its files. */
  lemma NestedMountEmptied(t: Node, was: Files, src: Files)
    requires t == Dir(0, map["var" := Dir(0, map["data" := Dir(1, map["f" := File(1, "x")])])])
    requires Mirrors(t, was) && Emptied(t, was, src, true)
    ensures ["var", "data", "f"] in was && Reach(t, ["var", "data", "f"]).None?
    ensures ["var"] in src && ["var", "data"] in src && ["var", "data", "f"] !in src
  {
    var p := ["var", "data", "f"];
    assert p[..2] == ["var", "data"] && ["var", "data"][..1] == ["var"] && ["var"][..0] == [];
    assert Lookup(t, []) == Some(t) && Reach(t, []) == Some(t);
    var data := Dir(1, map["f" := File(1, "x")]);
    assert Lookup(t, ["var"]) == Some(Dir(0, map["data" := data])) && Reach(t, ["var"]) == Lookup(t, ["var"]);
    assert Lookup(t, ["var", "data"]) == Some(data) && Reach(t, ["var", "data"]) == Some(data);
    assert Lookup(t, p) == Some(File(1, "x"));
    assert Stuck(0, data) && "var" !in TopMounts(t);
    assert StuckAt(t, ["var", "data"]) && StuckAt(t, ["var"]) && !StuckAt(t, p);
  }
}
