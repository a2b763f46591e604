/** `copyFS`: the root file system is moved to a new root file by file, then what is left is deleted. */
module Relocation {
  import opened Basics
  import opened RootTree

  /** Both roots, the copied files that could not be removed, and the file that is being copied. */
  datatype State = State(src: Files, dst: Files, stayed: Files, open: Option<Path>)

  predicate IsFileAt(t: Node, p: Path) {
    Reach(t, p).Some? && Reach(t, p).value.File?
  }

  /** The parent is a directory of the new root and the name is free. */
  predicate Creatable(s: State, p: Path) {
    p != [] && p !in s.dst && p[..|p| - 1] in s.dst && s.dst[p[..|p| - 1]] == IDir
  }

  function Put(s: State, p: Path, i: Item): State {
    s.(dst := s.dst[p := i])
  }

  // ---------- What a system call does ----------

  const BUFFER: nat := 32768

  datatype Act =
    | Make(path: Path)                   // Mkdir, Symlink, Mknod, Mkfifo, or creating a file
    | Open(path: Path)                   // opening the old file
    | Write(path: Path, piece: string)   // one piece of the buffer's size or less
    | Remove(path: Path)                 // removing a file that has been copied
    | Stay(path: Path)                   // which does not work
    | Delete(path: Path)                 // removing what is left

  /** What is made of an entry: of a file, an empty one. */
  function Blank(n: Node): Item {
    if n.File? then IFile("") else CopyOf(n)
  }

  /** Removing the file works: it is no mount point, and nothing else is in the way. */
  predicate Removable(t: Node, removes: Path -> bool, p: Path)
    requires Reach(t, p).Some?
  {
    Reach(t, p).value.dev == t.dev && removes(p)
  }

  /** When a call is made; `removes` says which files can be removed. */
  ghost predicate Allowed(t: Node, removes: Path -> bool, s: State, a: Act) {
    match a
    case Make(p) => s.open.None? && Reach(t, p).Some? && Creatable(s, p)
    case Open(p) =>
      && s.open.None? && IsFileAt(t, p) && p !in s.stayed
      && p in s.src && s.src[p] == ItemOf(Reach(t, p).value) && p in s.dst && s.dst[p] == IFile("")
    case Write(p, piece) =>
      && s.open == Some(p) && IsFileAt(t, p) && 0 < |piece| <= BUFFER
      && p in s.dst && s.dst[p].IFile? && s.dst[p].data + piece <= Reach(t, p).value.data
    case Remove(p) =>
      && s.open == Some(p) && IsFileAt(t, p) && Removable(t, removes, p)
      && p in s.dst && s.dst[p] == ItemOf(Reach(t, p).value)
    case Stay(p) =>
      && s.open == Some(p) && IsFileAt(t, p) && !Removable(t, removes, p)
      && p in s.dst && s.dst[p] == ItemOf(Reach(t, p).value)
    case Delete(p) => s.open.None? && Delivered(t, s) && p in s.src && !StuckAt(t, p)
  }

  function Do(t: Node, s: State, a: Act): State {
    match a
    case Make(p) => if Reach(t, p).Some? then Put(s, p, Blank(Reach(t, p).value)) else s
    case Open(p) => s.(open := Some(p))
    case Write(p, piece) => if p in s.dst && s.dst[p].IFile? then Put(s, p, IFile(s.dst[p].data + piece)) else s
    case Remove(p) => s.(src := s.src - {p}, open := None)
    case Stay(p) => s.(stayed := if p in s.dst then s.stayed[p := s.dst[p]] else s.stayed, open := None)
    case Delete(p) => s.(src := s.src - {p})
  }

  /** One call leads from `a` to `b`. */
  ghost predicate Next(t: Node, removes: Path -> bool, a: State, b: State) {
    exists act :: Allowed(t, removes, a, act) && b == Do(t, a, act)
  }

  // ---------- What holds at every step ----------

  predicate Holds(s: State, p: Path, data: string) {
    (p in s.src && s.src[p] == IFile(data)) || (p in s.dst && s.dst[p] == IFile(data))
  }

  /** Every regular file that the walks come to is complete at its old path or at its new path. */
  ghost predicate Conserved(t: Node, s: State) {
    forall p :: IsFileAt(t, p) ==> Holds(s, p, Reach(t, p).value.data)
  }

  /** Every file the walks came to is complete in the new root. */
  ghost predicate Delivered(t: Node, s: State) {
    forall p :: IsFileAt(t, p) ==> p in s.dst && s.dst[p] == IFile(Reach(t, p).value.data)
  }

  /** The files left behind have been copied, and are such as cannot be removed. */
  ghost predicate StayedOk(t: Node, removes: Path -> bool, s: State) {
    forall p :: p in s.stayed ==>
      && IsFileAt(t, p) && !Removable(t, removes, p)
      && s.stayed[p] == ItemOf(Reach(t, p).value) && p in s.dst && s.dst[p] == s.stayed[p]
  }

  /** The file being copied is still there, and a beginning of it in the new root. */
  ghost predicate OpenOk(t: Node, s: State) {
    s.open.Some? ==>
      var p := s.open.value;
      && IsFileAt(t, p) && p !in s.stayed && p in s.src && s.src[p] == ItemOf(Reach(t, p).value)
      && p in s.dst && s.dst[p].IFile? && s.dst[p].data <= Reach(t, p).value.data
  }

  /** How much of the file being copied is in the new root. */
  function Busy(s: State): nat {
    if s.open.Some? && s.open.value in s.dst then Size(s.dst[s.open.value]) else 0
  }

  /** Both roots hold no more than there was, what has been copied of one file, and the files left behind. */
  ghost predicate Bounded(bytes: nat, s: State) {
    Total(s.src) + Total(s.dst) <= bytes + Busy(s) + Total(s.stayed)
  }

  ghost predicate Good(t: Node, removes: Path -> bool, bytes: nat, s: State) {
    Conserved(t, s) && StayedOk(t, removes, s) && OpenOk(t, s) && Bounded(bytes, s)
  }

  lemma MakeGood(t: Node, removes: Path -> bool, bytes: nat, s: State, p: Path)
    requires Good(t, removes, bytes, s) && Allowed(t, removes, s, Make(p))
    ensures Good(t, removes, bytes, Do(t, s, Make(p)))
  {
    var n := Do(t, s, Make(p));
    TotalPut(s.dst, p, Blank(Reach(t, p).value));
    forall q | IsFileAt(t, q)
      ensures Holds(n, q, Reach(t, q).value.data)
    {
      assert Holds(s, q, Reach(t, q).value.data);
    }
  }

  lemma OpenGood(t: Node, removes: Path -> bool, bytes: nat, s: State, p: Path)
    requires Good(t, removes, bytes, s) && Allowed(t, removes, s, Open(p))
    ensures Good(t, removes, bytes, Do(t, s, Open(p)))
  {
    forall q | IsFileAt(t, q)
      ensures Holds(Do(t, s, Open(p)), q, Reach(t, q).value.data)
    {
      assert Holds(s, q, Reach(t, q).value.data);
    }
  }

  /** A piece written goes over no file that is complete only there, and the bound grows by its bytes. */
  lemma WriteGood(t: Node, removes: Path -> bool, bytes: nat, s: State, p: Path, piece: string)
    requires Good(t, removes, bytes, s) && Allowed(t, removes, s, Write(p, piece))
    ensures Good(t, removes, bytes, Do(t, s, Write(p, piece)))
  {
    var n := Do(t, s, Write(p, piece));
    TotalPut(s.dst, p, n.dst[p]);
    forall q | IsFileAt(t, q)
      ensures Holds(n, q, Reach(t, q).value.data)
    {
      assert Holds(s, q, Reach(t, q).value.data);
    }
  }

  /** Removing a file is safe because its copy is complete, and frees what the copy has taken. */
  lemma RemoveGood(t: Node, removes: Path -> bool, bytes: nat, s: State, p: Path)
    requires Good(t, removes, bytes, s) && Allowed(t, removes, s, Remove(p))
    ensures Good(t, removes, bytes, Do(t, s, Remove(p)))
  {
    var n := Do(t, s, Remove(p));
    TotalWithout(s.src, p);
    forall q | IsFileAt(t, q)
      ensures Holds(n, q, Reach(t, q).value.data)
    {
      assert Holds(s, q, Reach(t, q).value.data);
    }
  }

  lemma StayGood(t: Node, removes: Path -> bool, bytes: nat, s: State, p: Path)
    requires Good(t, removes, bytes, s) && Allowed(t, removes, s, Stay(p))
    ensures Good(t, removes, bytes, Do(t, s, Stay(p)))
  {
    var n := Do(t, s, Stay(p));
    TotalPut(s.stayed, p, s.dst[p]);
    forall q | IsFileAt(t, q)
      ensures Holds(n, q, Reach(t, q).value.data)
    {
      assert Holds(s, q, Reach(t, q).value.data);
    }
  }

  /** When every file has been delivered, nothing that is deleted is missed. */
  lemma DeleteGood(t: Node, removes: Path -> bool, bytes: nat, s: State, p: Path)
    requires Good(t, removes, bytes, s) && Allowed(t, removes, s, Delete(p))
    ensures Good(t, removes, bytes, Do(t, s, Delete(p))) && Delivered(t, Do(t, s, Delete(p)))
  {
    var n := Do(t, s, Delete(p));
    TotalWithout(s.src, p);
    forall q | IsFileAt(t, q)
      ensures Holds(n, q, Reach(t, q).value.data)
    {}
  }

  /** Whatever the call, what was good stays good. */
  lemma ActGood(t: Node, removes: Path -> bool, bytes: nat, s: State, a: Act)
    requires Good(t, removes, bytes, s) && Allowed(t, removes, s, a)
    ensures Good(t, removes, bytes, Do(t, s, a))
  {
    match a
    case Make(p) => MakeGood(t, removes, bytes, s, p);
    case Open(p) => OpenGood(t, removes, bytes, s, p);
    case Write(p, piece) => WriteGood(t, removes, bytes, s, p, piece);
    case Remove(p) => RemoveGood(t, removes, bytes, s, p);
    case Stay(p) => StayGood(t, removes, bytes, s, p);
    case Delete(p) => DeleteGood(t, removes, bytes, s, p);
  }

  /** While a file is open it grows by at least one byte and at most the buffer at a time, and nothing else does. */
  lemma WritesAreSmall(t: Node, removes: Path -> bool, a: State, b: State, p: Path)
    requires Next(t, removes, a, b) && OpenOk(t, a) && a.open == Some(p) && b.open == Some(p)
    ensures b.src == a.src && p in b.dst && b.dst[p].IFile? && b.dst == a.dst[p := b.dst[p]]
    ensures a.dst[p].data < b.dst[p].data <= Reach(t, p).value.data
    ensures 1 <= |b.dst[p].data| - |a.dst[p].data| <= 32768
  {
    var act :| Allowed(t, removes, a, act) && b == Do(t, a, act);
    assert act.Write? && act.path == p;
  }

  /** Every state is a call after the one before. */
  ghost predicate Calls(t: Node, removes: Path -> bool, states: seq<State>) {
    forall i :: 0 < i < |states| ==> Next(t, removes, states[i - 1], states[i])
  }

  /**
   What it costs: both roots together never hold more than there was, the largest file, and copies of files
   that cannot be removed; so if every file can be removed, no more than there was and the largest file.
   */
  lemma MemoryBound(t: Node, removes: Path -> bool, bytes: nat, s: State, largest: nat)
    requires Good(t, removes, bytes, s) && forall p :: IsFileAt(t, p) ==> |Reach(t, p).value.data| <= largest
    ensures Total(s.src) + Total(s.dst) <= bytes + Total(s.stayed) + if s.open.Some? then largest else 0
    ensures (forall p :: IsFileAt(t, p) ==> Removable(t, removes, p)) ==> s.stayed == map[] && Total(s.stayed) == 0
  {
    if s.open.Some? {
      assert Busy(s) <= |Reach(t, s.open.value).value.data|;
    }
    if forall p :: IsFileAt(t, p) ==> Removable(t, removes, p) {
      assert forall p :: p !in s.stayed;
    }
  }

  // ---------- The first walk ----------

  predicate IsDirAt(t: Node, p: Path) {
    Reach(t, p).Some? && Reach(t, p).value.Dir?
  }

  predicate AtOrBelow(path: Path, p: Path) {
    p == path || Below(path, p)
  }

  /** `b` is `a` with the directories at and below `path` in the new root. */
  ghost predicate Grown(t: Node, a: State, b: State, path: Path) {
    && b == a.(dst := b.dst)
    && (forall p :: p in b.dst ==> p in a.dst || (AtOrBelow(path, p) && IsDirAt(t, p)))
    && (forall p :: p in a.dst ==> p in b.dst)
    && (forall p :: AtOrBelow(path, p) && IsDirAt(t, p) ==> p in b.dst)
    && (forall p :: p in b.dst ==> b.dst[p] == IDir)
  }

  /** The same below `path` only, but for the children in `left`. */
  ghost predicate Skeleton(t: Node, was: State, s: State, path: Path, left: set<string>) {
    && s == was.(dst := s.dst)
    && (forall p :: p in s.dst ==> p in was.dst || (Below(path, p) && p[|path|] !in left && IsDirAt(t, p)))
    && (forall p :: p in was.dst ==> p in s.dst)
    && (forall p :: Below(path, p) && p[|path|] !in left && IsDirAt(t, p) ==> p in s.dst)
    && (forall p :: p in s.dst ==> s.dst[p] == IDir)
  }

  lemma SkeletonStarts(t: Node, s: State, path: Path, node: Node)
    requires Reach(t, path) == Some(node) && node.Dir? && forall p :: p in s.dst ==> !Below(path, p) && s.dst[p] == IDir
    ensures Skeleton(t, s, s, path, node.kids.Keys)
  {
    forall p | Below(path, p) && IsDirAt(t, p)
      ensures p[|path|] in node.kids
    {
      ReachBelow(t, path, p);
    }
  }

  lemma SkeletonStep(t: Node, was: State, a: State, b: State, path: Path, left: set<string>, name: string)
    requires Skeleton(t, was, a, path, left) && name in left && Grown(t, a, b, path + [name])
    ensures Skeleton(t, was, b, path, left - {name})
  {
    forall p
      ensures AtOrBelow(path + [name], p) <==> Below(path, p) && p[|path|] == name
    {
      BelowChild(path, name, p);
    }
  }

  lemma SkeletonSkip(t: Node, was: State, a: State, path: Path, left: set<string>, name: string)
    requires Skeleton(t, was, a, path, left) && name in left
    requires Reach(t, path + [name]).Some? && !Reach(t, path + [name]).value.Dir?
    ensures Skeleton(t, was, a, path, left - {name})
  {
    forall p | Below(path, p) && p[|path|] == name
      ensures !IsDirAt(t, p)
    {
      BelowChild(path, name, p);
      if Below(path + [name], p) && Reach(t, p).Some? {
        ReachBelow(t, path + [name], p);
      }
    }
  }

  /** When all children are done, everything below is. */
  lemma SkeletonDone(t: Node, was: State, s: State, path: Path, before: State)
    requires Skeleton(t, was, s, path, {}) && IsDirAt(t, path) && path !in before.dst && was == Put(before, path, IDir)
    ensures Grown(t, before, s, path)
  {}

  lemma OtherDevice(t: Node, before: State, path: Path)
    requires IsDirAt(t, path) && Reach(t, path).value.dev != t.dev
    requires forall p :: p in before.dst ==> before.dst[p] == IDir
    ensures Grown(t, before, Put(before, path, IDir), path)
  {
    forall p | Below(path, p)
      ensures Reach(t, p).None?
    {
      if Reach(t, p).Some? { ReachBelow(t, path, p); }
    }
  }

  /** There is nothing yet at or below a child whose turn it is. */
  lemma FreeChild(t: Node, was: State, s: State, path: Path, left: set<string>, name: string)
    requires Skeleton(t, was, s, path, left) && name in left
    requires path in was.dst && was.dst[path] == IDir && forall p :: p in was.dst ==> !Below(path, p)
    ensures Creatable(s, path + [name]) && forall p :: p in s.dst ==> !Below(path + [name], p)
  {
    assert (path + [name])[..|path|] == path;
    forall p | p in s.dst
      ensures !AtOrBelow(path + [name], p)
    {
      BelowChild(path, name, p);
    }
  }

  // ---------- The second walk ----------

  predicate Movable(n: Node) {
    !n.Socket? && !n.Unknown?
  }

  ghost predicate AllMovable(t: Node, path: Path) {
    forall p :: Below(path, p) && Reach(t, p).Some? ==> Movable(Reach(t, p).value)
  }

  /** Everything can be moved if the walk comes to no socket and to nothing of an unknown type. */
  lemma AllMovableMeans(t: Node)
    requires t.Dir?
    ensures AllMovable(t, []) <==>
      forall p :: Reach(t, p).Some? ==> !Reach(t, p).value.Socket? && !Reach(t, p).value.Unknown?
  {
    if AllMovable(t, []) {
      forall p | Reach(t, p).Some?
        ensures !Reach(t, p).value.Socket? && !Reach(t, p).value.Unknown?
      {
        if p != [] { assert Below([], p) && Movable(Reach(t, p).value); }
      }
    } else {
      var p :| Below([], p) && Reach(t, p).Some? && !Movable(Reach(t, p).value);
      assert Reach(t, p).value.Socket? || Reach(t, p).value.Unknown?;
    }
  }

  /** Not moved yet: a directory has its copy, anything else has none and is still there. */
  predicate Ready(t: Node, s: State, p: Path)
    requires Reach(t, p).Some?
  {
    var n := Reach(t, p).value;
    if n.Dir? then p in s.dst && s.dst[p] == IDir
    else p !in s.dst && p in s.src && s.src[p] == ItemOf(n) && p !in s.stayed
  }

  /** Moved, and a file that is still there is one that was left behind. */
  predicate Moved(t: Node, s: State, p: Path)
    requires Reach(t, p).Some?
  {
    && p in s.dst && s.dst[p] == CopyOf(Reach(t, p).value) && Movable(Reach(t, p).value)
    && (Reach(t, p).value.File? && p in s.src ==> p in s.stayed)
  }

  ghost predicate SameAt(a: State, b: State, p: Path) {
    && (p in a.src <==> p in b.src) && (p in a.src ==> a.src[p] == b.src[p])
    && (p in a.dst <==> p in b.dst) && (p in a.dst ==> a.dst[p] == b.dst[p])
    && (p in a.stayed <==> p in b.stayed)
  }

  /** From `a` to `b` only copies were made, and only files of the root device were removed. */
  ghost predicate Forward(t: Node, a: State, b: State) {
    && (forall p :: p in b.src ==> p in a.src && b.src[p] == a.src[p])
    && (forall p :: p in a.src && p !in b.src ==>
         Reach(t, p).Some? && Reach(t, p).value.File? && Reach(t, p).value.dev == t.dev)
    && (forall p :: p in a.dst ==> p in b.dst)
    && (forall p :: p in b.dst ==> p in a.dst || Reach(t, p).Some?)
  }

  /** The children of `path` not in `left` have been moved with all below them, the others are ready. */
  ghost predicate Progress(t: Node, was: State, s: State, path: Path, left: set<string>) {
    && (forall p :: Below(path, p) && Reach(t, p).Some? ==>
         if p[|path|] in left then Ready(t, s, p) else Moved(t, s, p))
    && (forall p :: !Below(path, p) ==> SameAt(was, s, p))
    && Forward(t, was, s)
  }

  ghost predicate ReadyBelow(t: Node, s: State, path: Path) {
    forall p :: Below(path, p) && Reach(t, p).Some? ==> Ready(t, s, p)
  }

  /** From `a` to `b`, what is at and below `path` was moved, and nothing else changed. */
  ghost predicate MovedAll(t: Node, a: State, b: State, path: Path) {
    && (forall p :: AtOrBelow(path, p) && Reach(t, p).Some? ==> Moved(t, b, p))
    && (forall p :: !AtOrBelow(path, p) ==> SameAt(a, b, p))
    && Forward(t, a, b)
  }

  lemma ForwardTrans(t: Node, a: State, b: State, c: State)
    requires Forward(t, a, b) && Forward(t, b, c)
    ensures Forward(t, a, c)
  {}

  lemma ProgressStep(t: Node, was: State, a: State, b: State, path: Path, left: set<string>, name: string)
    requires Progress(t, was, a, path, left) && name in left && MovedAll(t, a, b, path + [name])
    ensures Progress(t, was, b, path, left - {name})
  {
    ForwardTrans(t, was, a, b);
    forall p | Below(path, p) && Reach(t, p).Some?
      ensures if p[|path|] in left - {name} then Ready(t, b, p) else Moved(t, b, p)
    {
      BelowChild(path, name, p);
      if p[|path|] != name { assert SameAt(a, b, p); }
    }
    forall p | !Below(path, p)
      ensures SameAt(was, b, p)
    {
      BelowChild(path, name, p);
      assert SameAt(a, b, p);
    }
  }

  lemma ReadyChild(t: Node, was: State, s: State, path: Path, left: set<string>, name: string)
    requires Progress(t, was, s, path, left) && name in left && Reach(t, path + [name]).Some?
    ensures Ready(t, s, path + [name]) && ReadyBelow(t, s, path + [name])
    ensures AllMovable(t, path) ==> AllMovable(t, path + [name]) && Movable(Reach(t, path + [name]).value)
  {
    forall p | AtOrBelow(path + [name], p) && Reach(t, p).Some?
      ensures Below(path, p) && Ready(t, s, p)
    {
      BelowChild(path, name, p);
    }
    BelowChild(path, name, path + [name]);
  }

  /** A directory on another device has been dealt with when its copy is there. */
  lemma SkipDir(t: Node, s: State, path: Path)
    requires IsDirAt(t, path) && Reach(t, path).value.dev != t.dev && Ready(t, s, path)
    ensures MovedAll(t, s, s, path)
  {
    forall p | Below(path, p)
      ensures Reach(t, p).None?
    {
      if Reach(t, p).Some? { ReachBelow(t, path, p); }
    }
  }

  lemma DirMoved(t: Node, a: State, b: State, path: Path)
    requires IsDirAt(t, path) && Ready(t, a, path) && Progress(t, a, b, path, {})
    ensures MovedAll(t, a, b, path)
  {
    assert SameAt(a, b, path);
  }

  lemma LeafMoved(t: Node, a: State, b: State, path: Path)
    requires Reach(t, path).Some? && !IsDirAt(t, path) && Moved(t, b, path) && path !in a.dst
    requires b.dst == a.dst[path := CopyOf(Reach(t, path).value)]
    requires forall p :: p != path ==> (p in a.stayed <==> p in b.stayed)
    requires b.src == a.src
      || (b.src == a.src - {path} && path in a.src && Reach(t, path).value.File? && Reach(t, path).value.dev == t.dev)
    ensures MovedAll(t, a, b, path)
  {
    forall p | Below(path, p)
      ensures Reach(t, p).None?
    {
      if Reach(t, p).Some? { ReachBelow(t, path, p); }
    }
  }

  lemma SpecialMoved(t: Node, a: State, path: Path, node: Node)
    requires Reach(t, path) == Some(node) && (node.Link? || node.Device? || node.Fifo?) && path !in a.dst
    ensures MovedAll(t, a, Put(a, path, Blank(node)), path)
  {
    LeafMoved(t, a, Put(a, path, Blank(node)), path);
  }

  lemma Starts(t: Node, s: State, path: Path, left: set<string>)
    requires Reach(t, path).Some? && Reach(t, path).value.Dir? && left == Reach(t, path).value.kids.Keys
      && ReadyBelow(t, s, path)
    ensures Progress(t, s, s, path, left)
  {
    forall p | Below(path, p) && Reach(t, p).Some?
      ensures p[|path|] in left
    {
      ReachBelow(t, path, p);
    }
  }

  lemma ParentStays(t: Node, was: State, s: State, path: Path, left: set<string>, name: string)
    requires Progress(t, was, s, path, left) && name in left && Reach(t, path + [name]).Some?
      && Ready(t, s, path + [name])
    requires path in was.dst && was.dst[path] == IDir
    ensures !IsDirAt(t, path + [name]) ==> Creatable(s, path + [name])
  {
    assert SameAt(was, s, path);
    assert (path + [name])[..|path|] == path;
  }

  lemma ProgressMovable(t: Node, was: State, s: State, path: Path)
    requires Progress(t, was, s, path, {})
    ensures AllMovable(t, path)
  {}

  // ---------- The third walk ----------

  /** The old root holds entries of the tree only, and every one that cannot be removed. */
  ghost predicate Rest(t: Node, src: Files) {
    && (forall p :: p in src ==> Lookup(t, p).Some?)
    && (forall p :: StuckAt(t, p) ==> p in src)
  }

  /** From `a` to `b` the old root lost entries at and below `path` only: all that can go, if `all`. */
  ghost predicate Cleared(t: Node, a: Files, b: Files, path: Path, all: bool) {
    && (forall p :: p in b ==> p in a && b[p] == a[p])
    && (forall p :: p in a && !AtOrBelow(path, p) ==> p in b)
    && (all ==> forall p :: p in b && AtOrBelow(path, p) ==> StuckAt(t, p))
  }

  /** The same below `path` only, but for the children in `left`. */
  ghost predicate Clearing(t: Node, a: Files, b: Files, path: Path, left: set<string>, all: bool) {
    && (forall p :: p in b ==> p in a && b[p] == a[p])
    && (forall p :: p in a && (!Below(path, p) || p[|path|] in left) ==> p in b)
    && (all ==> forall p :: p in b && Below(path, p) && p[|path|] !in left ==> StuckAt(t, p))
  }

  lemma ClearingStep(t: Node, was: Files, a: Files, b: Files, path: Path, left: set<string>, name: string,
          all: bool)
    requires Clearing(t, was, a, path, left, all) && name in left && Cleared(t, a, b, path + [name], all)
    ensures Clearing(t, was, b, path, left - {name}, all)
  {
    forall p
      ensures AtOrBelow(path + [name], p) <==> Below(path, p) && p[|path|] == name
    {
      BelowChild(path, name, p);
    }
  }

  /** One entry of the root has been dealt with. */
  lemma RestStep(t: Node, was: Files, a: Files, b: Files, left: set<string>, name: string, all: bool)
    requires t.Dir? && name in left && Clearing(t, was, a, [], left + TopMounts(t), all)
    requires if name in TopMounts(t) then b == a else Cleared(t, a, b, [name], all)
    ensures Clearing(t, was, b, [], left - {name} + TopMounts(t), all)
  {
    var mounts := TopMounts(t);
    if name in mounts {
      assert left - {name} + mounts == left + mounts;
    } else {
      assert [] + [name] == [name];
      ClearingStep(t, was, a, b, [], left + mounts, name, all);
      assert left + mounts - {name} == left - {name} + mounts;
    }
  }

  /** An emptied directory that is no mount point leads to none. */
  lemma EmptyFree(t: Node, src: Files, path: Path, node: Node)
    requires path != [] && Lookup(t, path) == Some(node) && node.Dir? && Rest(t, src)
    requires Lookup(t, path[..|path| - 1]).Some? && node.dev == Lookup(t, path[..|path| - 1]).value.dev
    requires forall name :: name in node.kids ==> path + [name] !in src
    ensures !StuckAt(t, path)
  {
    forall name | name in node.kids
      ensures !Stuck(node.dev, node.kids[name])
    {
      LookupChild(t, path, name);
      assert (path + [name])[..|path|] == path;
      assert !StuckAt(t, path + [name]);
    }
  }

  /** A directory that is not emptied leads to a mount point, if everything that can go has gone. */
  lemma FullStuck(t: Node, was: Files, src: Files, path: Path, node: Node, name: string)
    requires path != [] && Lookup(t, path) == Some(node) && node.Dir? && Clearing(t, was, src, path, {}, true)
    requires name in node.kids && path + [name] in src
    ensures StuckAt(t, path)
  {
    LookupChild(t, path, name);
    assert (path + [name])[..|path|] == path && Below(path, path + [name]);
    assert Stuck(node.dev, node.kids[name]);
  }

  lemma ClearedDir(t: Node, was: Files, a: Files, b: Files, path: Path, all: bool)
    requires Clearing(t, was, a, path, {}, all) && (b == a || b == a - {path})
    requires all ==> path !in b || StuckAt(t, path)
    ensures Cleared(t, was, b, path, all)
  {}

  lemma ClearedLeaf(t: Node, was: Files, b: Files, path: Path, all: bool)
    requires Lookup(t, path).Some? && !Lookup(t, path).value.Dir? && (forall p :: p in was ==> Lookup(t, p).Some?)
    requires b == was || b == was - {path}
    requires all ==> path !in b || StuckAt(t, path)
    ensures Cleared(t, was, b, path, all)
  {
    forall p | Below(path, p)
      ensures p !in was
    {
      if Lookup(t, p).Some? { LookupBelow(t, path, p); }
    }
  }

  lemma ClearingStarts(t: Node, src: Files, path: Path, node: Node)
    requires Lookup(t, path) == Some(node) && node.Dir? && forall p :: p in src ==> Lookup(t, p).Some?
    ensures Clearing(t, src, src, path, node.kids.Keys, true) && Clearing(t, src, src, path, node.kids.Keys, false)
  {
    forall p | p in src && Below(path, p)
      ensures p[|path|] in node.kids
    {
      LookupBelow(t, path, p);
    }
  }

  // ---------- All three ----------

  /** The top-level directories on other devices: the third walk leaves them alone. */
  ghost function TopMounts(t: Node): set<string>
    requires t.Dir?
  {
    set name | name in t.kids && t.kids[name].Dir? && t.kids[name].dev != t.dev
  }

  ghost predicate Mirrors(t: Node, src: Files) {
    && (forall p :: p in src <==> Lookup(t, p).Some?)
    && (forall p :: p in src ==> src[p] == ItemOf(Lookup(t, p).value))
  }

  /** The new root agrees with what the walks saw of the old one, and holds nothing else. */
  ghost predicate Agrees(t: Node, dst: Files) {
    && (forall p :: p in dst <==> Reach(t, p).Some?)
    && (forall p :: p in dst ==> dst[p] == CopyOf(Reach(t, p).value))
  }

  lemma MirrorReach(t: Node, src: Files, p: Path)
    requires Mirrors(t, src) && Reach(t, p).Some?
    ensures p in src && src[p] == ItemOf(Reach(t, p).value)
  {
    ReachExactly(t, p);
  }

  lemma StartGood(t: Node, removes: Path -> bool, s: State)
    requires Mirrors(t, s.src) && s.open.None? && s.stayed == map[]
    ensures Good(t, removes, Total(s.src) + Total(s.dst), s)
  {
    forall p | IsFileAt(t, p)
      ensures Holds(s, p, Reach(t, p).value.data)
    {
      MirrorReach(t, s.src, p);
    }
  }

  lemma ReadyAfter(t: Node, was: State, s: State)
    requires Mirrors(t, s.src) && was.dst == map[[] := IDir] && s.stayed == map[] && Skeleton(t, was, s, [], {})
    ensures ReadyBelow(t, s, [])
  {
    forall p | Below([], p) && Reach(t, p).Some?
      ensures Ready(t, s, p)
    {
      MirrorReach(t, s.src, p);
    }
  }

  lemma AgreesAfter(t: Node, was: State, a: State, b: State)
    requires t.Dir? && was.dst == map[[] := IDir] && Skeleton(t, was, a, [], {}) && Progress(t, a, b, [], {})
    ensures Agrees(t, b.dst) && Delivered(t, b)
  {
    assert SameAt(a, b, []) && [] in was.dst && Reach(t, []) == Some(t);
    forall p
      ensures p in b.dst <==> Reach(t, p).Some?
      ensures p in b.dst ==> b.dst[p] == CopyOf(Reach(t, p).value)
    {
      if p != [] {
        assert Below([], p);
        assert p in a.dst ==> IsDirAt(t, p);
      }
    }
  }

  lemma RestAfter(t: Node, was: State, b: State)
    requires t.Dir? && Mirrors(t, was.src) && Forward(t, was, b)
    ensures Rest(t, b.src)
  {
    forall p | StuckAt(t, p)
      ensures p in b.src
    {
      assert p in was.src;
      if p !in b.src { FileNotStuck(t, p); }
    }
  }

  lemma FileNotStuck(t: Node, p: Path)
    requires Reach(t, p).Some? && Reach(t, p).value.File? && Reach(t, p).value.dev == t.dev && t.Dir?
    ensures !StuckAt(t, p)
  {
    ReachExactly(t, p);
    if p != [] { ReachExactly(t, p[..|p| - 1]); }
  }

  /**
   After the last walk: the mounts at the top as they were, and of the rest, if `all` was removed that can
   be, what is stuck.
   */
  ghost predicate Emptied(t: Node, was: Files, src: Files, all: bool)
    requires t.Dir?
  {
    && (forall p :: p in src ==> p in was)
    && (forall p :: p in was && p != [] && p[0] in TopMounts(t) ==> p in src)
    && (all ==> forall p :: p != [] && p[0] !in TopMounts(t) ==> (p in src <==> StuckAt(t, p)))
  }

  lemma MountsKept(t: Node, a: State, b: State, src: Files, all: bool)
    requires t.Dir? && Mirrors(t, a.src) && Forward(t, a, b) && Rest(t, src)
      && Clearing(t, b.src, src, [], TopMounts(t), all)
    ensures Emptied(t, a.src, src, all)
  {
    forall p | p in a.src && p != [] && p[0] in TopMounts(t)
      ensures p in src
    {
      assert Below([], p);
      if p !in b.src { MountNotReached(t, p); }
    }
    forall p | p != []
      ensures Below([], p)
    {}
  }

  lemma MountNotReached(t: Node, p: Path)
    requires t.Dir? && p != [] && p[0] in TopMounts(t) && Reach(t, p).Some?
    ensures Reach(t, p).value.Dir?
  {
    ReachChild(t, [], p[0]);
    assert [] + [p[0]] == [p[0]];
    if |p| > 1 {
      assert p[..1] == [p[0]] && Below([p[0]], p);
      ReachBelow(t, [p[0]], p);
    } else {
      assert p == [p[0]];
    }
  }

  /** What the new root holds, if there is nothing that cannot be moved. */
  lemma AgreesPlainly(t: Node, dst: Files)
    requires t.Dir? && Agrees(t, dst) && AllMovable(t, [])
    ensures forall p :: p in dst ==> Reach(t, p).Some?
    ensures forall p :: p in dst && Reach(t, p).Some? ==>
      match Reach(t, p).value
      case Dir(_, _) => dst[p] == IDir
      case File(_, data) => dst[p] == IFile(data)
      case Link(_, target) => dst[p] == ILink(target)
      case Fifo(_) => dst[p] == IFifo
      case Device(_) => dst[p] == Odd
      case _ => false
  {
    forall p | p in dst && p != []
      ensures Below([], p) && Movable(Reach(t, p).value)
    {}
  }

  /** With a file still there only if it was left behind, those that could be removed are gone. */
  lemma ReleasedAfter(t: Node, removes: Path -> bool, bytes: nat, a: State, b: State)
    requires t.Dir? && Progress(t, a, b, [], {}) && Good(t, removes, bytes, b)
    ensures forall p :: IsFileAt(t, p) && Removable(t, removes, p) ==> p !in b.src
  {
    forall p | IsFileAt(t, p) && Removable(t, removes, p)
      ensures p !in b.src
    {
      assert p != [] && Below([], p) && Moved(t, b, p);
    }
  }

  /** How the calls turn out: those whose failure counts, in their order, and the two kinds of removal. */
  datatype Outcomes = Outcomes(works: nat -> bool, removes: Path -> bool, deletes: Path -> bool)

  class Mover {
    const tree: Node
    const mnt: string          // the new root, a directory of the old one with another device on it
    const out: Outcomes
    ghost const bytes: nat
    var s: State
    var calls: nat             // how many calls whose failure counts have been made
    ghost var history: seq<State>

    constructor (tree: Node, mnt: string, src: Files, out: Outcomes)
      requires tree.Dir? && Mirrors(tree, src)
      ensures this.tree == tree && this.mnt == mnt && this.out == out && bytes == Total(src) + Total(map[[] := IDir])
      ensures s == State(src, map[[] := IDir], map[], None) && history == [s] && Idle() && calls == 0
    {
      this.tree, this.mnt, this.out := tree, mnt, out;
      s := State(src, map[[] := IDir], map[], None);
      bytes := Total(src) + Total(map[[] := IDir]);
      calls := 0;
      history := [State(src, map[[] := IDir], map[], None)];
      StartGood(tree, out.removes, State(src, map[[] := IDir], map[], None));
    }

    /** The states there have been, each a call after the one before, were good, and `s` is the last. */
    ghost predicate Valid()
      reads this`s, this`history
    {
      && |history| > 0 && history[|history| - 1] == s && Calls(tree, out.removes, history)
      && bytes == Total(history[0].src) + Total(history[0].dst)
      && forall i :: 0 <= i < |history| ==> Good(tree, out.removes, bytes, history[i])
    }

    /** No call has failed whose failure counts. */
    ghost predicate Fine()
      reads this`calls
    {
      forall k :: 0 <= k < calls ==> out.works(k)
    }

    /** Everything can be deleted that is no mount point. */
    ghost predicate Deletes() {
      forall p :: out.deletes(p)
    }

    /** Nothing is being copied. */
    ghost predicate Idle()
      reads this
    {
      Valid() && s.open.None? && Fine()
    }

    /** A system call whose failure counts. */
    method Call() returns (ok: bool)
      requires Fine()
      modifies this`calls
      ensures calls == old(calls) + 1 && ok == out.works(old(calls))
      ensures ok <==> Fine()
    {
      ok := out.works(calls);
      calls := calls + 1;
    }

    /** What a walk does before the callback: Lstat, and for a directory reading its names. */
    method Look(node: Node) returns (ok: bool)
      requires Fine()
      modifies this`calls
      ensures ok <==> Fine()
      ensures ok ==> calls == old(calls) + if node.Dir? then 2 else 1
    {
      ok := Call();
      if ok && node.Dir? {
        ok := Call();
      }
    }

    /** Every change of the file systems is one of these. */
    method Step(a: Act)
      requires Valid() && Allowed(tree, out.removes, s, a)
      modifies this`s, this`history
      ensures Valid() && s == Do(tree, old(s), a) && history == old(history) + [s]
    {
      ActGood(tree, out.removes, bytes, s, a);
      var next := Do(tree, s, a);
      assert Next(tree, out.removes, s, next);
      s := next;
      history := history + [next];
    }

    /** Mkdir, Symlink, Mkfifo, Mknod, and opening a file that is to be created. */
    method Create(p: Path) returns (ok: bool)
      requires Idle() && Reach(tree, p).Some?
      modifies this`s, this`history, this`calls
      ensures Valid() && old(history) <= history
      ensures ok ==> Creatable(old(s), p) && s == Put(old(s), p, Blank(Reach(tree, p).value)) && Idle()
      ensures Creatable(old(s), p) ==> (ok <==> Fine())
      ensures calls == old(calls) + 1
    {
      ok := Call();
      if ok && Creatable(s, p) {
        Step(Make(p));
      } else {
        ok := false;
      }
    }

    /** The callback of the first walk for a directory other than the root, and the walk below it. */
    method MakeDir(path: Path, ghost node: Node) returns (ok: bool)
      requires Idle() && IsDirAt(tree, path) && node == Reach(tree, path).value && Creatable(s, path)
      requires forall p :: p in s.dst ==> !Below(path, p) && s.dst[p] == IDir
      modifies this`s, this`history, this`calls
      ensures Valid() && old(history) <= history
      ensures ok <==> Fine()
      ensures ok ==> Idle() && Grown(tree, old(s), s, path)
      decreases node, 1
    {
      ghost var before := s;
      ok := Create(path);
      if ok {
        ok := Call();                    // the metadata
      }
      if ok {
        if Reach(tree, path).value.dev != tree.dev {
          OtherDevice(tree, before, path);
        } else {
          ghost var was := s;
          ok := MakeDirs(path, Reach(tree, path).value);
          if ok {
            SkeletonDone(tree, was, s, path, before);
          }
        }
      }
    }

    /** The first walk at one entry. */
    method MakeEntry(path: Path, node: Node) returns (ok: bool)
      requires Idle() && Reach(tree, path) == Some(node) && Creatable(s, path)
      requires forall p :: p in s.dst ==> !Below(path, p) && s.dst[p] == IDir
      modifies this`s, this`history, this`calls
      ensures Valid() && old(history) <= history
      ensures ok <==> Fine()
      ensures ok ==> Idle() && if node.Dir? then Grown(tree, old(s), s, path) else s == old(s)
      decreases node, 2
    {
      ok := Look(node);
      if ok && node.Dir? {
        ok := MakeDir(path, node);
      }
    }

    /** The first walk below a directory on the root device. */
    method MakeDirs(path: Path, node: Node) returns (ok: bool)
      requires Idle() && IsDirAt(tree, path) && node == Reach(tree, path).value && node.dev == tree.dev
      requires path in s.dst && forall p :: p in s.dst ==> !Below(path, p) && s.dst[p] == IDir
      modifies this`s, this`history, this`calls
      ensures Valid() && old(history) <= history
      ensures ok <==> Fine()
      ensures ok ==> Idle() && Skeleton(tree, old(s), s, path, {})
      decreases node, 0
    {
      ghost var was := s;
      var left := node.kids.Keys;
      SkeletonStarts(tree, s, path, node);
      ok := true;
      while left != {}
        invariant left <= node.kids.Keys && Idle() && old(history) <= history && ok
        invariant Skeleton(tree, was, s, path, left)
      {
        var name :| name in left;
        ghost var a := s;
        ReachChild(tree, path, name);
        FreeChild(tree, was, s, path, left, name);
        ok := MakeEntry(path + [name], node.kids[name]);
        if !ok {
          return;
        }
        if node.kids[name].Dir? {
          SkeletonStep(tree, was, a, s, path, left, name);
        } else {
          SkeletonSkip(tree, was, s, path, left, name);
        }
        left := left - {name};
      }
    }

    /** One piece read and written. */
    method CopyPiece(path: Path, data: string, n: nat) returns (ok: bool, m: nat)
      requires Valid() && Fine() && s.open == Some(path) && IsFileAt(tree, path) && data == Reach(tree, path).value.data
      requires n < |data| && path in s.dst && s.dst[path] == IFile(data[..n])
      modifies this`s, this`history, this`calls
      ensures Valid() && old(history) <= history && (ok <==> Fine())
      ensures ok ==> n < m <= |data| && s == Put(old(s), path, IFile(data[..m]))
      ensures calls == old(calls) + 1
    {
      m := n;
      ok := Call();
      if ok {
        m :| n < m <= |data| && m <= n + BUFFER;
        assert data[..n] + data[n..m] == data[..m];
        Step(Write(path, data[n..m]));
      }
    }

    /** The copying of a file between opening and closing, in pieces no larger than the buffer. */
    method CopyData(path: Path, data: string) returns (ok: bool)
      requires Valid() && Fine() && s.open == Some(path) && IsFileAt(tree, path) && data == Reach(tree, path).value.data
      requires path in s.dst && s.dst[path] == IFile("")
      modifies this`s, this`history, this`calls
      ensures Valid() && old(history) <= history && (ok <==> Fine())
      ensures ok ==> s == Put(old(s), path, IFile(data))
    {
      ghost var was := s;
      ok := true;
      var n := 0;
      assert data[..0] == "" && s == Put(was, path, IFile(data[..0]));
      while n < |data|
        invariant 0 <= n <= |data| && Valid() && Fine() && old(history) <= history && ok
        invariant s == Put(was, path, IFile(data[..n]))
      {
        ok, n := CopyPiece(path, data, n);
        if !ok {
          return;
        }
        assert s == Put(was, path, IFile(data[..n]));
      }
      assert data[..n] == data;
    }

    /** A regular file: create, copy, close, remove. That it cannot be removed is no failure. */
    method MoveFile(path: Path, node: Node) returns (ok: bool)
      requires Idle() && node.File? && Reach(tree, path) == Some(node) && Ready(tree, s, path) && Creatable(s, path)
      modifies this`s, this`history, this`calls
      ensures Valid() && old(history) <= history && (ok <==> Fine())
      ensures ok ==> Idle() && MovedAll(tree, old(s), s, path)
    {
      ghost var was := s;
      ok := OpenBoth(path, node);
      if ok {
        ok := CopyData(path, node.data);
      }
      if ok {
        assert s == Put(was, path, ItemOf(node)).(open := Some(path));
        ok := Close(path, node);
      }
      if ok {
        FileMoved(path, node, was);
      }
    }

    lemma FileMoved(path: Path, node: Node, was: State)
      requires node.File? && Reach(tree, path) == Some(node) && Ready(tree, was, path) && was.open.None?
      ensures MovedAll(tree, was, Freed(Put(was, path, ItemOf(node)).(open := Some(path)), path), path)
    {
      LeafMoved(tree, was, Freed(Put(was, path, ItemOf(node)).(open := Some(path)), path), path);
    }

    method Close(path: Path, node: Node) returns (ok: bool)
      requires node.File? && Reach(tree, path) == Some(node) && Valid() && Fine() && s.open == Some(path)
      requires path in s.dst && s.dst[path] == ItemOf(node)
      modifies this`s, this`history, this`calls
      ensures Valid() && old(history) <= history && (ok <==> Fine())
      ensures ok ==> Idle() && s == Freed(old(s), path) && calls == old(calls) + 3
    {
      ok := Call();                    // closing the old file
      if ok {
        ok := Call();                  // closing the new file
      }
      if ok {
        RemoveOld(path, node);
        ok := Call();                  // the metadata
      }
    }

    method OpenBoth(path: Path, node: Node) returns (ok: bool)
      requires Idle() && node.File? && Reach(tree, path) == Some(node) && Ready(tree, s, path) && Creatable(s, path)
      modifies this`s, this`history, this`calls
      ensures Valid() && old(history) <= history && (ok <==> Fine())
      ensures ok ==> s == Put(old(s), path, IFile("")).(open := Some(path)) && calls == old(calls) + 2
    {
      ok := Create(path);
      if ok {
        ok := Call();                  // opening the old file
      }
      if ok {
        Step(Open(path));
      }
    }

    /** The state when the copied file has been removed, or could not be. */
    ghost function Freed(was: State, path: Path): State
      requires IsFileAt(tree, path)
    {
      if Removable(tree, out.removes, path) then was.(src := was.src - {path}, open := None)
      else was.(stayed := was.stayed[path := ItemOf(Reach(tree, path).value)], open := None)
    }

    /** Removing a file that has been copied; a mount point stays, and failing is no failure. */
    method RemoveOld(path: Path, node: Node)
      requires node.File? && Reach(tree, path) == Some(node) && Valid() && Fine() && s.open == Some(path)
      requires path in s.dst && s.dst[path] == ItemOf(node)
      modifies this`s, this`history
      ensures Idle() && old(history) <= history && s == Freed(old(s), path)
    {
      if node.dev == tree.dev && out.removes(path) {
        Step(Remove(path));
      } else {
        Step(Stay(path));
      }
    }

    /** Anything that is no directory. */
    method MoveOne(path: Path, node: Node) returns (ok: bool)
      requires Idle() && !node.Dir? && Reach(tree, path) == Some(node) && Ready(tree, s, path) && Creatable(s, path)
      modifies this`s, this`history, this`calls
      ensures Valid() && old(history) <= history
      ensures ok <==> Fine() && Movable(node)
      ensures ok ==> Idle() && MovedAll(tree, old(s), s, path)
    {
      if node.File? {
        ok := MoveFile(path, node);
      } else if !Movable(node) {
        ok := false;
      } else {
        ok := MoveSpecial(path, node);
      }
    }

    /** A link, a device or a pipe. */
    method MoveSpecial(path: Path, node: Node) returns (ok: bool)
      requires Idle() && (node.Link? || node.Device? || node.Fifo?) && Reach(tree, path) == Some(node)
      requires Ready(tree, s, path) && Creatable(s, path)
      modifies this`s, this`history, this`calls
      ensures Valid() && old(history) <= history
      ensures ok <==> Fine()
      ensures ok ==> Idle() && MovedAll(tree, old(s), s, path)
      ensures ok ==> calls == old(calls) + if node.Link? then 3 else 2
    {
      SpecialMoved(tree, s, path, node);
      if node.Link? {
        ok := Call();                  // reading the link
        if !ok {
          return;
        }
      }
      ok := Create(path);
      if ok {
        ok := Call();                  // the metadata
      }
    }

    /** The second walk at one entry. */
    method MoveEntry(path: Path, node: Node) returns (ok: bool)
      requires Idle() && Reach(tree, path) == Some(node) && Ready(tree, s, path) && ReadyBelow(tree, s, path)
      requires !node.Dir? ==> Creatable(s, path)
      modifies this`s, this`history, this`calls
      ensures Valid() && old(history) <= history
      ensures ok ==> Fine() && Idle() && MovedAll(tree, old(s), s, path)
      ensures Fine() && Movable(node) && AllMovable(tree, path) ==> ok
      decreases node, 1
    {
      ghost var a := s;
      ok := Look(node);
      if !ok {
        return;
      }
      if !node.Dir? {
        ok := MoveOne(path, node);
      } else if node.dev != tree.dev {
        SkipDir(tree, s, path);
      } else {
        ok := MoveBelow(path, node);
        if ok {
          DirMoved(tree, a, s, path);
        }
      }
    }

    /** The second walk below a directory on the root device. */
    method MoveBelow(path: Path, node: Node) returns (ok: bool)
      requires Idle() && Reach(tree, path) == Some(node) && node.Dir? && node.dev == tree.dev
      requires path in s.dst && s.dst[path] == IDir && ReadyBelow(tree, s, path)
      modifies this`s, this`history, this`calls
      ensures Valid() && old(history) <= history
      ensures ok <==> Fine() && AllMovable(tree, path)
      ensures ok ==> Idle() && Progress(tree, old(s), s, path, {})
      decreases node, 0
    {
      ghost var was := s;
      var left := node.kids.Keys;
      Starts(tree, s, path, left);
      ok := true;
      while left != {}
        invariant left <= node.kids.Keys && Idle() && old(history) <= history && ok
        invariant Progress(tree, was, s, path, left)
      {
        var name :| name in left;
        ghost var a := s;
        ReachChild(tree, path, name);
        ReadyChild(tree, was, s, path, left, name);
        ParentStays(tree, was, s, path, left, name);
        ok := MoveEntry(path + [name], node.kids[name]);
        if !ok {
          return;
        }
        ProgressStep(tree, was, a, s, path, left, name);
        left := left - {name};
      }
      ProgressMovable(tree, was, s, path);
    }

    ghost predicate Clean()
      reads this`s, this`history
    {
      Valid() && s.open.None? && Delivered(tree, s) && Rest(tree, s.src)
    }

    /** Removing one entry that is neither a mount point nor a directory with something in it. */
    method Unlink(path: Path)
      requires Clean() && !StuckAt(tree, path)
      modifies this`s, this`history
      ensures Clean() && old(history) <= history
      ensures s == if out.deletes(path) then old(s).(src := old(s).src - {path}) else old(s)
    {
      if path in s.src && out.deletes(path) {
        DeleteGood(tree, out.removes, bytes, s, path);
        Step(Delete(path));
      } else {
        assert path !in s.src ==> s.src - {path} == s.src;
      }
    }

    /** `os.RemoveAll`, which goes into mounts; mount points themselves stay. */
    method RemoveAll(path: Path, node: Node, dev: nat)
      requires Clean() && path != [] && path[0] != mnt && Lookup(tree, path) == Some(node)
      requires Lookup(tree, path[..|path| - 1]).Some? && Lookup(tree, path[..|path| - 1]).value.dev == dev
      modifies this`s, this`history
      ensures Clean() && old(history) <= history && s == old(s).(src := s.src)
      ensures Cleared(tree, old(s).src, s.src, path, Deletes())
      decreases node, 1
    {
      ghost var was := s.src;
      if node.Dir? {
        RemoveBelow(path, node);
        RemoveDir(path, node, dev, was);
      } else {
        RemoveLeaf(path, node, dev);
      }
    }

    /** Removing an entry that is no directory. */
    method RemoveLeaf(path: Path, node: Node, dev: nat)
      requires Clean() && path != [] && path[0] != mnt && Lookup(tree, path) == Some(node) && !node.Dir?
      requires Lookup(tree, path[..|path| - 1]).Some? && Lookup(tree, path[..|path| - 1]).value.dev == dev
      modifies this`s, this`history
      ensures Clean() && old(history) <= history && s == old(s).(src := s.src)
      ensures Cleared(tree, old(s).src, s.src, path, Deletes())
    {
      ghost var was := s.src;
      if node.dev == dev {
        Unlink(path);
      }
      ClearedLeaf(tree, was, s.src, path, Deletes());
    }

    /** Removing a directory when everything in it has been tried. */
    method RemoveDir(path: Path, node: Node, dev: nat, ghost was: Files)
      requires Clean() && path != [] && path[0] != mnt && Lookup(tree, path) == Some(node) && node.Dir?
      requires Lookup(tree, path[..|path| - 1]).Some? && Lookup(tree, path[..|path| - 1]).value.dev == dev
      requires Clearing(tree, was, s.src, path, {}, Deletes())
      modifies this`s, this`history
      ensures Clean() && old(history) <= history && s == old(s).(src := s.src)
      ensures Cleared(tree, was, s.src, path, Deletes())
    {
      ghost var a := s.src;
      var empty := forall name :: name in node.kids ==> path + [name] !in s.src;
      if empty && node.dev == dev {
        EmptyFree(tree, s.src, path, node);
        Unlink(path);
      } else if Deletes() && !empty {
        var name :| name in node.kids && path + [name] in s.src;
        FullStuck(tree, was, s.src, path, node, name);
      }
      ClearedDir(tree, was, a, s.src, path, Deletes());
    }

    method RemoveBelow(path: Path, node: Node)
      requires Clean() && path != [] && path[0] != mnt && Lookup(tree, path) == Some(node) && node.Dir?
      modifies this`s, this`history
      ensures Clean() && old(history) <= history && s == old(s).(src := s.src)
      ensures Clearing(tree, old(s).src, s.src, path, {}, Deletes())
      decreases node, 0
    {
      ghost var was := s;
      var left := node.kids.Keys;
      ClearingStarts(tree, s.src, path, node);
      while left != {}
        invariant left <= node.kids.Keys && Clean() && old(history) <= history && s == was.(src := s.src)
        invariant Clearing(tree, was.src, s.src, path, left, Deletes())
      {
        var name :| name in left;
        ghost var a := s.src;
        LookupChild(tree, path, name);
        assert (path + [name])[..|path|] == path;
        RemoveAll(path + [name], node.kids[name], node.dev);
        ClearingStep(tree, was.src, a, s.src, path, left, name, Deletes());
        left := left - {name};
      }
    }

    /** The third walk at one entry of the root; a file that is gone is not listed any more. */
    method DeleteEntry(name: string) returns (ok: bool)
      requires Clean() && Fine() && tree.Dir? && name in tree.kids && mnt in TopMounts(tree)
      modifies this`s, this`history, this`calls
      ensures Clean() && old(history) <= history && s == old(s).(src := s.src) && (ok <==> Fine())
      ensures name in TopMounts(tree) ==> s == old(s)
      ensures ok && name !in TopMounts(tree) ==> Cleared(tree, old(s).src, s.src, [name], Deletes())
    {
      var node := tree.kids[name];
      LookupChild(tree, [], name);
      assert [] + [name] == [name] && [name][..0] == [];
      ok := true;
      if node.Dir? || [name] in s.src {
        ok := Look(node);
        if ok {
          DeleteTop(name, node);
        }
      } else {
        ClearedLeaf(tree, s.src, s.src, [name], Deletes());
      }
    }

    method DeleteTop(name: string, node: Node)
      requires Clean() && tree.Dir? && name in tree.kids && mnt in TopMounts(tree) && node == tree.kids[name]
      requires Lookup(tree, [name]) == Some(node) && [name][..0] == []
      modifies this`s, this`history
      ensures Clean() && old(history) <= history && s == old(s).(src := s.src)
      ensures name in TopMounts(tree) ==> s == old(s)
      ensures name !in TopMounts(tree) ==> Cleared(tree, old(s).src, s.src, [name], Deletes())
    {
      if !node.Dir? {
        RemoveLeaf([name], node, tree.dev);
      } else if node.dev == tree.dev {
        RemoveAll([name], node, tree.dev);
      }
    }

    /** The third walk. It does not go into the new root, nor into any other mount at the top. */
    method DeleteRest() returns (ok: bool)
      requires Clean() && Fine() && tree.Dir? && mnt in TopMounts(tree)
      modifies this`s, this`history, this`calls
      ensures Clean() && old(history) <= history && s == old(s).(src := s.src) && (ok <==> Fine())
      ensures ok ==> Clearing(tree, old(s).src, s.src, [], TopMounts(tree), Deletes())
    {
      ghost var was := s;
      ghost var mounts := TopMounts(tree);
      var left := tree.kids.Keys;
      ClearingStarts(tree, s.src, [], tree);
      assert left + mounts == left;
      ok := Look(tree);
      while ok && left != {}
        invariant left <= tree.kids.Keys && Clean() && old(history) <= history && s == was.(src := s.src)
        invariant ok <==> Fine()
        invariant ok ==> Clearing(tree, was.src, s.src, [], left + mounts, Deletes())
        decreases left, ok
      {
        var name :| name in left;
        ghost var a := s.src;
        ok := DeleteEntry(name);
        if ok {
          RestStep(tree, was.src, a, s.src, left, name, Deletes());
          left := left - {name};
        }
      }
      assert left == {} ==> left + mounts == mounts;
    }

    /** Every file that could be removed is gone from the old root. */
    ghost predicate Released()
      reads this`s
    {
      forall p :: IsFileAt(tree, p) && Removable(tree, out.removes, p) ==> p !in s.src
    }

    /** `copyFS`. */
    method CopyFS() returns (ok: bool)
      requires tree.Dir? && mnt in TopMounts(tree) && Mirrors(tree, s.src) && s.dst == map[[] := IDir]
      requires Idle() && s.stayed == map[] && history == [s]
      modifies this`s, this`history, this`calls
      ensures Valid() && old(history) <= history
      ensures ok <==> Fine() && AllMovable(tree, [])
      ensures (forall k :: out.works(k)) ==>
        (ok <==> forall p :: Reach(tree, p).Some? ==> !Reach(tree, p).value.Socket? && !Reach(tree, p).value.Unknown?)
      ensures ok ==> Agrees(tree, s.dst) && Released()
      ensures ok ==> forall p :: p in s.dst ==> Reach(tree, p).Some?
      ensures ok ==> forall p :: p in s.dst && Reach(tree, p).Some? ==>
        match Reach(tree, p).value
        case Dir(_, _) => s.dst[p] == IDir
        case File(_, data) => s.dst[p] == IFile(data)
        case Link(_, target) => s.dst[p] == ILink(target)
        case Fifo(_) => s.dst[p] == IFifo
        case Device(_) => s.dst[p] == Odd
        case _ => false
      ensures ok ==> Emptied(tree, old(s).src, s.src, Deletes())
    {
      ghost var a;
      AllMovableMeans(tree);
      ok, a := Copies();
      if ok {
        AgreesPlainly(tree, s.dst);
        ok := Deletions(a);
      }
    }

    /** Entering the new root, the third walk, and moving the mount, chroot and chdir. */
    method Deletions(ghost a: State) returns (ok: bool)
      requires Clean() && Fine() && tree.Dir? && mnt in TopMounts(tree) && Mirrors(tree, a.src) && Forward(tree, a, s)
      modifies this`s, this`history, this`calls
      ensures Valid() && old(history) <= history && s == old(s).(src := s.src) && (ok <==> Fine())
      ensures ok ==> Emptied(tree, a.src, s.src, Deletes()) && forall p :: p in s.src ==> p in old(s).src
    {
      ghost var b := s;
      ok := Call();                    // chdir to the new root
      if !ok {
        return;
      }
      ok := DeleteRest();
      if !ok {
        return;
      }
      MountsKept(tree, a, b, s.src, Deletes());
      ok := MoveMount();
    }

    /** The new root in the place of the old one. */
    method MoveMount() returns (ok: bool)
      requires Fine()
      modifies this`calls
      ensures (ok <==> Fine()) && (ok ==> calls == old(calls) + 3)
    {
      ok := Call();                    // moving the mount
      if ok {
        ok := Call();                  // chroot
      }
      if ok {
        ok := Call();                  // chdir
      }
    }

    /** The first two walks; `a` is the state between them. */
    method Copies() returns (ok: bool, ghost a: State)
      requires tree.Dir? && Mirrors(tree, s.src) && s.dst == map[[] := IDir] && Idle() && s.stayed == map[]
      modifies this`s, this`history, this`calls
      ensures Valid() && old(history) <= history
      ensures ok <==> Fine() && AllMovable(tree, [])
      ensures ok ==> Clean() && Agrees(tree, s.dst) && a.src == old(s).src && Forward(tree, a, s) && Released()
    {
      ghost var was := s;
      ok := Skeletons();
      a := s;
      if !ok {
        return;
      }
      ReadyAfter(tree, was, s);
      ok := Moves();
      if ok {
        AgreesAfter(tree, was, a, s);
        RestAfter(tree, a, s);
        ReleasedAfter(tree, out.removes, bytes, a, s);
      }
    }

    /** The second walk. */
    method Moves() returns (ok: bool)
      requires tree.Dir? && Idle() && [] in s.dst && s.dst[[]] == IDir && ReadyBelow(tree, s, [])
      modifies this`s, this`history, this`calls
      ensures Valid() && old(history) <= history
      ensures ok <==> Fine() && AllMovable(tree, [])
      ensures ok ==> Idle() && Progress(tree, old(s), s, [], {})
    {
      ok := Look(tree);
      if ok {
        ok := MoveBelow([], tree);
      }
    }

    /** Looking at the root, mounting the new one, and the first walk. */
    method Skeletons() returns (ok: bool)
      requires tree.Dir? && Idle() && s.dst == map[[] := IDir]
      modifies this`s, this`history, this`calls
      ensures Valid() && old(history) <= history && (ok <==> Fine())
      ensures ok ==> Idle() && Skeleton(tree, old(s), s, [], {})
    {
      ok := Call();                    // the stat of the root
      if ok {
        ok := Call();                  // mounting the new one
      }
      if ok {
        ok := Look(tree);
      }
      if ok {
        ok := Call();                  // the mode of the new root
      }
      if ok {
        ok := Call();                  // its metadata
      }
      if ok {
        ok := MakeDirs([], tree);
      }
    }
  }
}
