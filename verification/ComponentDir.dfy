/**
 One component directory (`<root>/<key>`) as the upgrade code sees it: a flat map from
 entry name to entry, with the meaning that the calls of Go's `os` package have on Linux.
 */
module ComponentDir {
  import opened Basics

  type Name = string

  /** What stands at one relative path inside a version directory. */
  datatype Item = Folder | Data(bytes: seq<nat>) | Alias(path: string)

  type Files = map<string, Item>

  datatype Entry =
    | Link(target: Name)
    | Plain
    | Version(mode: nat, files: Files)

  type Dir = map<Name, Entry>

  const CURRENT: Name := "current"
  const PREVIOUS: Name := "previous"
  const CURRENT_TMP: Name := "current.tmp"

  /** `<name>.old`, where an existing version directory is moved aside. */
  function Old(n: Name): Name {
    n + ".old"
  }

  predicate Reserved(n: Name) {
    n == CURRENT || n == PREVIOUS || n == CURRENT_TMP
  }

  /** The number of symbolic links Linux follows before it reports ELOOP. */
  const MAX_LINKS: nat := 40

  datatype StatResult = Missing | NotDir | IsDir(mode: nat, files: Files)

  /** `os.Stat`: the entry behind `n` after following links. */
  function Stat(d: Dir, n: Name, hops: nat := MAX_LINKS): StatResult
    decreases hops
  {
    if n !in d then Missing
    else
      match d[n]
      case Version(m, f) => IsDir(m, f)
      case Plain => NotDir
      case Link(t) => if hops == 0 then Missing else Stat(d, t, hops - 1)
  }

  /** What a stat finds, but for the mode and the contents of a directory. */
  lemma {:induction false} StatAlike(a: Dir, b: Dir, n: Name, hops: nat)
    requires a.Keys == b.Keys && forall k :: k in a ==> a[k] == b[k] || (a[k].Version? && b[k].Version?)
    ensures Stat(a, n, hops).IsDir? <==> Stat(b, n, hops).IsDir?
    ensures Stat(a, n, hops).NotDir? <==> Stat(b, n, hops).NotDir?
    decreases hops
  {
    assert n in a <==> n in b;
    if n in a && a[n].Link? && hops > 0 {
      StatAlike(a, b, a[n].target, hops - 1);
    }
  }

  /** `m` is what following `k` links from `n` leads to. */
  predicate Leads(d: Dir, n: Name, k: nat, m: Name)
    decreases k
  {
    if k == 0 then n == m else n in d && d[n].Link? && Leads(d, d[n].target, k - 1, m)
  }

  /** A stat finds what at most so many links lead to. */
  lemma {:induction false} StatFollows(d: Dir, n: Name, hops: nat, k: nat, m: Name)
    requires k <= hops && Leads(d, n, k, m) && m in d && !d[m].Link?
    ensures Stat(d, n, hops) == if d[m].Plain? then NotDir else IsDir(d[m].mode, d[m].files)
    decreases k
  {
    if k > 0 { StatFollows(d, d[n].target, hops - 1, k - 1, m); }
  }

  lemma {:induction false} StatFinds(d: Dir, n: Name, hops: nat) returns (k: nat, m: Name)
    requires !Stat(d, n, hops).Missing?
    ensures k <= hops && Leads(d, n, k, m) && m in d && !d[m].Link?
    decreases hops
  {
    if d[n].Link? {
      k, m := StatFinds(d, d[n].target, hops - 1);
      k := k + 1;
    } else {
      k, m := 0, n;
    }
  }

  predicate Found(d: Dir, n: Name, hops: nat, k: nat, m: Name) {
    k <= hops && Leads(d, n, k, m) && m in d && !d[m].Link?
  }

  /** It finds something exactly if so many links, forty for the system, lead to an entry that is none. */
  lemma StatMeans(d: Dir, n: Name, hops: nat)
    ensures !Stat(d, n, hops).Missing? <==> exists k: nat, m :: Found(d, n, hops, k, m)
    ensures forall k: nat, m :: Found(d, n, hops, k, m) ==>
      Stat(d, n, hops) == if d[m].Plain? then NotDir else IsDir(d[m].mode, d[m].files)
    ensures MAX_LINKS == 40
  {
    if !Stat(d, n, hops).Missing? {
      var k, m := StatFinds(d, n, hops);
      assert Found(d, n, hops, k, m);
    }
    forall k: nat, m | Found(d, n, hops, k, m)
      ensures Stat(d, n, hops) == if d[m].Plain? then NotDir else IsDir(d[m].mode, d[m].files)
    {
      StatFollows(d, n, hops, k, m);
    }
  }

  /** `StatComponentVersion(root, key, "current")`: the name `current` stands for. */
  function StatVersion(d: Dir): Option<Name> {
    if Stat(d, CURRENT).IsDir? && d[CURRENT].Link? && Stat(d, d[CURRENT].target).IsDir?
    then Some(d[CURRENT].target)
    else None
  }

  predicate EmptyVersion(e: Entry) {
    e.Version? && e.files == map[]
  }

  /**
   An existing target is replaced only if neither is a directory: `os.Rename` looks at the target
   first and refuses a directory, empty or not, and the system call puts none over anything else.
   */
  predicate CanReplace(e: Entry, target: Entry) {
    !e.Version? && !target.Version?
  }

  /** `os.Rename` inside one directory. */
  function Rename(d: Dir, a: Name, b: Name): Option<Dir> {
    if a !in d then None
    else if b in d && !CanReplace(d[a], d[b]) then None
    else Some((d - {a})[b := d[a]])
  }

  /** `os.Remove`: unlink, or rmdir of an empty directory; None when neither works. */
  function Remove(d: Dir, n: Name): Option<Dir> {
    if n in d && (d[n].Version? ==> EmptyVersion(d[n])) then Some(d - {n}) else None
  }

  /** Only a directory that holds something is not removed. */
  lemma RemoveMeans(d: Dir, n: Name)
    ensures Remove(d, n).Some? <==> n in d && (d[n].Version? ==> d[n].files == map[])
    ensures Remove(d, n).Some? ==> Remove(d, n).value == d - {n}
  {}

  /** A rename moves the entry, over another one only if neither is a directory. */
  lemma RenameMeans(d: Dir, a: Name, b: Name)
    requires a != b
    ensures Rename(d, a, b).Some? <==> a in d && (b in d ==> !d[a].Version? && !d[b].Version?)
    ensures Rename(d, a, b).Some? ==>
      var r := Rename(d, a, b).value;
      && a !in r && b in r && r[b] == d[a]
      && forall m :: m != a && m != b ==> (m in r <==> m in d) && (m in d ==> r[m] == d[m])
  {}

  /** The contents `current` gives access to through one link, if it does. */
  function Current(d: Dir): Option<Files> {
    if CURRENT in d && d[CURRENT].Link? && d[CURRENT].target in d && d[d[CURRENT].target].Version?
    then Some(d[d[CURRENT].target].files)
    else None
  }
}
