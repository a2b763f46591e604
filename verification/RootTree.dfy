/** The root file system as a tree, and how the walks of `copyFS` see it. */
module RootTree {
  import opened Basics

  type Path = seq<string>

  /** An entry; a device other than that of the directory above makes it a mount point. */
  datatype Node =
    | Dir(dev: nat, kids: map<string, Node>)
    | File(dev: nat, data: string)
    | Link(dev: nat, target: string)
    | Fifo(dev: nat)
    | Device(dev: nat)
    | Socket(dev: nat)
    | Unknown(dev: nat)

  /** What is at a path, children aside; `Odd` is what Mknod makes of the mode bits it is given. */
  datatype Item = IDir | IFile(data: string) | ILink(target: string) | IFifo | IDevice | ISocket | IUnknown | Odd

  type Files = map<Path, Item>

  function ItemOf(n: Node): Item {
    match n
    case Dir(_, _) => IDir
    case File(_, data) => IFile(data)
    case Link(_, target) => ILink(target)
    case Fifo(_) => IFifo
    case Device(_) => IDevice
    case Socket(_) => ISocket
    case Unknown(_) => IUnknown
  }

  /** What the second walk makes of an entry. */
  function CopyOf(n: Node): Item {
    if n.Device? then Odd else ItemOf(n)
  }

  function Lookup(t: Node, p: Path): Option<Node> {
    if p == [] then Some(t)
    else
      var up := Lookup(t, p[..|p| - 1]);
      if up.Some? && up.value.Dir? && p[|p| - 1] in up.value.kids then Some(up.value.kids[p[|p| - 1]]) else None
  }

  /** What a walk that does not change devices comes to. */
  function Reach(t: Node, p: Path): Option<Node> {
    if p == [] then Some(t)
    else
      var up := Reach(t, p[..|p| - 1]);
      if up.Some? && up.value.Dir? && up.value.dev == t.dev && p[|p| - 1] in up.value.kids
        then Some(up.value.kids[p[|p| - 1]]) else None
  }

  predicate Below(path: Path, p: Path) {
    |path| < |p| && p[..|path|] == path
  }

  lemma ReachChild(t: Node, path: Path, name: string)
    requires Reach(t, path).Some? && Reach(t, path).value.Dir? && Reach(t, path).value.dev == t.dev
    ensures name in Reach(t, path).value.kids ==> Reach(t, path + [name]) == Some(Reach(t, path).value.kids[name])
    ensures name !in Reach(t, path).value.kids ==> Reach(t, path + [name]) == None
  {
    assert (path + [name])[..|path|] == path;
  }

  /** Below a path there is something only if it is a directory on the device, and then by way of a child. */
  lemma {:induction false} ReachBelow(t: Node, path: Path, p: Path)
    requires Below(path, p) && Reach(t, p).Some?
    ensures Reach(t, path).Some? && Reach(t, path).value.Dir? && Reach(t, path).value.dev == t.dev
    ensures p[|path|] in Reach(t, path).value.kids
  {
    var up := p[..|p| - 1];
    if |up| > |path| {
      assert up[..|path|] == path && up[|path|] == p[|path|];
      ReachBelow(t, path, up);
    } else {
      assert up == path;
    }
  }

  lemma BelowChild(path: Path, name: string, p: Path)
    ensures (p == path + [name] || Below(path + [name], p)) <==> (Below(path, p) && p[|path|] == name)
  {
    if Below(path, p) && p[|path|] == name { assert p[..|path| + 1] == path + [name]; }
    if Below(path + [name], p) { assert p[..|path|] == (path + [name])[..|path|] == path; }
  }

  lemma LookupChild(t: Node, path: Path, name: string)
    requires Lookup(t, path).Some? && Lookup(t, path).value.Dir?
    ensures name in Lookup(t, path).value.kids ==> Lookup(t, path + [name]) == Some(Lookup(t, path).value.kids[name])
    ensures name !in Lookup(t, path).value.kids ==> Lookup(t, path + [name]) == None
  {
    assert (path + [name])[..|path|] == path;
  }

  lemma {:induction false} LookupBelow(t: Node, path: Path, p: Path)
    requires Below(path, p) && Lookup(t, p).Some?
    ensures Lookup(t, path).Some? && Lookup(t, path).value.Dir? && p[|path|] in Lookup(t, path).value.kids
  {
    var up := p[..|p| - 1];
    if |up| > |path| {
      assert up[..|path|] == path && up[|path|] == p[|path|];
      LookupBelow(t, path, up);
    } else {
      assert up == path;
    }
  }

  /** The walks come to an entry exactly when every directory above it is on the root device. */
  lemma {:induction false} ReachExactly(t: Node, p: Path)
    ensures Reach(t, p).Some? ==> Reach(t, p) == Lookup(t, p)
    ensures Reach(t, p).Some? <==> Lookup(t, p).Some? && forall i :: 0 <= i < |p| ==> OnRoot(t, p[..i])
  {
    if p != [] {
      var up := p[..|p| - 1];
      ReachExactly(t, up);
      assert forall i :: 0 <= i < |up| ==> up[..i] == p[..i];
      if Reach(t, p).Some? {
        assert OnRoot(t, up);
        forall i | 0 <= i < |p| ensures OnRoot(t, p[..i]) { if i < |up| { assert OnRoot(t, up[..i]); } }
      }
      if Lookup(t, p).Some? && forall i :: 0 <= i < |p| ==> OnRoot(t, p[..i]) {
        assert OnRoot(t, p[..|p| - 1]);
        forall i | 0 <= i < |up| ensures OnRoot(t, up[..i]) { assert OnRoot(t, p[..i]); }
      }
    }
  }

  predicate OnRoot(t: Node, p: Path) {
    Lookup(t, p).Some? && Lookup(t, p).value.dev == t.dev
  }

  // ---------- Mount points ----------

  /** An entry that cannot be removed from a directory on `dev`: a mount point, or one that leads to a mount point. */
  predicate Stuck(dev: nat, n: Node)
    decreases n
  {
    n.dev != dev || (n.Dir? && exists name :: name in n.kids && Stuck(n.dev, n.kids[name]))
  }

  predicate StuckAt(t: Node, p: Path) {
    p != [] && Lookup(t, p).Some? && Stuck(Lookup(t, p[..|p| - 1]).value.dev, Lookup(t, p).value)
  }

  // ---------- Bytes held ----------

  function Size(i: Item): nat {
    if i.IFile? then |i.data| else 0
  }

  ghost function Pick(m: Files): (p: Path)
    requires m != map[]
    ensures p in m
  {
    var p :| p in m; p
  }

  ghost function Total(m: Files): nat
    decreases |m|
  {
    if m == map[] then 0 else Size(m[Pick(m)]) + Total(m - {Pick(m)})
  }

  lemma {:induction false} TotalWithout(m: Files, p: Path)
    requires p in m
    ensures Total(m) == Size(m[p]) + Total(m - {p})
    decreases |m|
  {
    var q := Pick(m);
    if q != p {
      TotalWithout(m - {q}, p);
      TotalWithout(m - {p}, q);
      assert m - {q} - {p} == m - {p} - {q};
    }
  }

  /** The bytes of files count, and nothing else does. */
  lemma TotalMeans(m: Files, p: Path, data: string, target: string)
    requires p !in m
    ensures Total(map[]) == 0
    ensures Total(m[p := IFile(data)]) == Total(m) + |data|
    ensures Total(m[p := IDir]) == Total(m) && Total(m[p := ILink(target)]) == Total(m)
    ensures Total(m[p := IFifo]) == Total(m) && Total(m[p := Odd]) == Total(m)
  {
    TotalPut(m, p, IFile(data));
    TotalPut(m, p, IDir);
    TotalPut(m, p, ILink(target));
    TotalPut(m, p, IFifo);
    TotalPut(m, p, Odd);
  }

  lemma TotalPut(m: Files, p: Path, i: Item)
    ensures Total(m[p := i]) == Size(i) + Total(m) - if p in m then Size(m[p]) else 0
  {
    TotalWithout(m[p := i], p);
    if p in m {
      TotalWithout(m, p);
      assert m[p := i] - {p} == m - {p};
    } else {
      assert m[p := i] - {p} == m;
    }
  }
}
