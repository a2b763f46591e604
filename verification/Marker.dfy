/**
 `inFile`: the search for the end of the marker that separates the executable from the appended
 root image. It is an automaton that falls back to its start on a mismatch and does not look at
 the mismatching byte again, so it is not a string search. Bytes are written as characters.
 */
module Marker {
  import opened Basics

  /** The bytes of `_sqmagic_`. */
  function Mark(i: nat): (c: char)
    requires i < 9
    ensures c == '_' <==> i == 0 || i == 8
  {
    if i == 0 then '_' else if i == 1 then 's' else if i == 2 then 'q' else if i == 3 then 'm' else if i == 4 then 'a'
    else if i == 5 then 'g' else if i == 6 then 'i' else if i == 7 then 'c' else '_'
  }

  const MARKER: string := seq(9, i requires 0 <= i < 9 => Mark(i))

  lemma MarkerText()
    ensures MARKER == "_sqmagic_"
  {}

  /** An occurrence is the text of the marker. */
  lemma OccursMeans(s: string, e: nat)
    ensures Occurs(s, e) <==> 9 <= e <= |s| && s[e - 9..e] == "_sqmagic_"
  {
    MarkerText();
    if 9 <= e <= |s| {
      if Occurs(s, e) {
        assert forall i :: 0 <= i < 9 ==> s[e - 9..e][i] == Mark(i) == MARKER[i];
      }
      if s[e - 9..e] == MARKER {
        forall p | e - 9 <= p < e
          ensures s[p] == Mark(p - (e - 9))
        {
          assert s[p] == s[e - 9..e][p - (e - 9)];
        }
      }
    }
  }

  /** The occurrence of the marker that ends just before position `e`. */
  predicate Occurs(s: string, e: nat) {
    9 <= e <= |s| && forall p :: e - 9 <= p < e ==> s[p] == Mark(p - (e - 9))
  }

  predicate EndsWithBlock(s: string, j: nat) {
    1 <= j <= 8 && j <= |s| && forall p :: |s| - j <= p < |s| ==> s[p] == Mark(p - (|s| - j))
  }

  /** The length of the proper prefix of the marker that `s` ends with, or 0. */
  ghost function LastBlock(s: string): (j: nat)
    ensures j != 0 ==> EndsWithBlock(s, j)
    ensures j == 0 ==> forall i: nat :: !EndsWithBlock(s, i)
  {
    if exists i: nat :: EndsWithBlock(s, i) then
      var i: nat :| EndsWithBlock(s, i); i
    else 0
  }

  /** Proper prefixes of the marker that stand one after the other end `s`, as many as fit: is their number even? */
  ghost predicate EvenBlocks(s: string)
    decreases |s|
  {
    var j := LastBlock(s);
    j == 0 || !EvenBlocks(s[..|s| - j])
  }

  /** The occurrences the scan reports: those after an even number of marker prefixes. */
  ghost predicate Hit(s: string, e: nat) {
    Occurs(s, e) && EvenBlocks(s[..e - 9])
  }

  /** The state after the bytes of `s`: how much of the marker has been matched; 9 stays. */
  function After(s: string): (k: nat)
    ensures k <= 9
    decreases |s|
  {
    if s == [] then 0
    else
      var k := After(s[..|s| - 1]);
      if k == 9 then 9 else if s[|s| - 1] == Mark(k) then k + 1 else 0
  }

  /** A block starts at the last underscore. */
  lemma BlockStart(s: string, j: nat)
    requires EndsWithBlock(s, j)
    ensures s[|s| - j] == '_'
    ensures forall p :: |s| - j < p < |s| ==> s[p] != '_'
  {
  }

  lemma OneBlock(s: string, j: nat)
    requires EndsWithBlock(s, j)
    ensures LastBlock(s) == j
  {
    BlockStart(s, j);
    BlockStart(s, LastBlock(s));
  }

  lemma BlockGrows(t: string, b: char, j: nat)
    requires 2 <= j <= 8
    ensures EndsWithBlock(t + [b], j) <==> EndsWithBlock(t, j - 1) && b == Mark(j - 1)
  {
    var s := t + [b];
    if EndsWithBlock(s, j) {
      assert forall p :: |t| - (j - 1) <= p < |t| ==> t[p] == s[p];
      assert s[|t|] == Mark(j - 1);
    }
  }

  /** How the blocks change with an underscore. */
  lemma UnderscoreStep(t: string)
    ensures var s := t + ['_']; LastBlock(s) == 1 && EvenBlocks(s) == !EvenBlocks(t)
  {
    var s := t + ['_'];
    OneBlock(s, 1);
    assert s[..|s| - 1] == t;
  }

  /** How they change with any other byte. */
  lemma OtherStep(t: string, b: char)
    requires b != '_'
    ensures var s := t + [b]; var k := LastBlock(t);
      if 0 < k < 8 && b == Mark(k) then LastBlock(s) == k + 1 && EvenBlocks(s) == EvenBlocks(t)
      else LastBlock(s) == 0 && EvenBlocks(s)
  {
    var s, k := t + [b], LastBlock(t);
    if 0 < k < 8 && b == Mark(k) {
      BlockGrows(t, b, k + 1);
      OneBlock(s, k + 1);
      assert s[..|s| - (k + 1)] == t[..|t| - k];
    } else {
      var j := LastBlock(s);
      assert s[|s| - 1] == b;
      if j >= 2 {
        BlockGrows(t, b, j);
        OneBlock(t, j - 1);
      }
    }
  }

  lemma OccursStep(t: string, b: char)
    ensures Occurs(t + [b], |t| + 1) <==> LastBlock(t) == 8 && b == '_'
  {
    var s := t + [b];
    if EndsWithBlock(t, 8) {
      OneBlock(t, 8);
    }
    if Occurs(s, |s|) {
      assert forall p :: |t| - 8 <= p < |t| ==> t[p] == s[p];
      assert s[|t|] == Mark(8);
    }
  }

  ghost predicate NoHit(s: string) {
    forall e :: 0 <= e <= |s| ==> !Hit(s, e)
  }

  lemma HitPrefix(t: string, u: string, e: nat)
    requires e <= |t|
    ensures Hit(t + u, e) <==> Hit(t, e)
  {
    if e >= 9 {
      assert (t + u)[..e - 9] == t[..e - 9];
      assert forall p :: e - 9 <= p < e ==> (t + u)[p] == t[p];
    }
  }

  lemma LastHit(t: string, b: char)
    ensures Hit(t + [b], |t| + 1) <==> LastBlock(t) == 8 && b == '_' && !EvenBlocks(t)
  {
    var s := t + [b];
    OccursStep(t, b);
    if LastBlock(t) == 8 {
      assert s[..|s| - 9] == t[..|t| - 8];
    }
  }

  lemma NoHitAppend(t: string, u: string)
    ensures NoHit(t + u) <==> NoHit(t) && forall e :: |t| < e <= |t + u| ==> !Hit(t + u, e)
  {
    forall e | 0 <= e <= |t|
      ensures Hit(t + u, e) <==> Hit(t, e)
    {
      HitPrefix(t, u, e);
    }
  }

  lemma HitStep(t: string, b: char)
    ensures NoHit(t + [b]) <==> NoHit(t) && !(LastBlock(t) == 8 && b == '_' && !EvenBlocks(t))
  {
    NoHitAppend(t, [b]);
    LastHit(t, b);
  }

  /** Until the first hit the automaton holds the last block if the number of blocks is odd. */
  ghost predicate Follows(s: string) {
    if NoHit(s) then After(s) == if !EvenBlocks(s) then LastBlock(s) else 0
    else After(s) == 9
  }

  lemma FollowsStep(t: string, b: char)
    requires Follows(t)
    ensures Follows(t + [b])
  {
    var s := t + [b];
    assert s[..|s| - 1] == t;
    HitStep(t, b);
    if b == '_' { UnderscoreStep(t); } else { OtherStep(t, b); }
    assert LastBlock(t) == 0 ==> EvenBlocks(t);
  }

  lemma {:induction false} AfterMeans(s: string)
    ensures Follows(s)
    decreases |s|
  {
    if s == [] {
      assert LastBlock(s) == 0;
    } else {
      AfterMeans(s[..|s| - 1]);
      FollowsStep(s[..|s| - 1], s[|s| - 1]);
      assert s == s[..|s| - 1] + [s[|s| - 1]];
    }
  }

  /** `r` is the end of the first hit, if there is one. */
  ghost predicate Answers(s: string, r: Option<nat>) {
    match r
    case None => NoHit(s)
    case Some(e) => Hit(s, e) && forall i :: 0 <= i < e ==> !Hit(s, i)
  }

  /** One call of Read: the bytes it delivers, and the error it reports with them. */
  datatype ReadError = NoError | Eof | Other
  datatype Read = Read(bytes: string, error: ReadError)

  datatype Outcome = At(offset: nat) | NotFound | Failed

  /** The bytes that are scanned, and whether an error ends them. */
  function Content(calls: seq<Read>): string
    decreases |calls|
  {
    if calls == [] || !calls[0].error.NoError? then [] else calls[0].bytes + Content(calls[1..])
  }

  predicate Broken(calls: seq<Read>)
    decreases |calls|
  {
    calls != [] &&
    if calls[0].error.NoError? then Broken(calls[1..]) else !(calls[0].error.Eof? && calls[0].bytes == [])
  }

  lemma AfterStep(t: string, b: char)
    requires After(t) < 9
    ensures After(t + [b]) == if b == Mark(After(t)) then After(t) + 1 else 0
  {
    assert (t + [b])[..|t|] == t;
  }

  lemma HitAtEnd(t: string, b: char)
    requires After(t) < 9 && After(t + [b]) == 9
    ensures NoHit(t) && Hit(t + [b], |t| + 1)
  {
    AfterMeans(t);
    AfterMeans(t + [b]);
    HitStep(t, b);
    LastHit(t, b);
  }

  /** The first byte that takes the automaton to its end is the last byte of the first hit. */
  lemma FirstHit(t: string, b: char, u: string)
    requires After(t) < 9 && After(t + [b]) == 9
    ensures Answers(t + [b] + u, Some(|t| + 1))
  {
    HitAtEnd(t, b);
    AnswerExtends(t, b, u);
  }

  lemma AnswerExtends(t: string, b: char, u: string)
    requires Hit(t + [b], |t| + 1) && NoHit(t)
    ensures Answers(t + [b] + u, Some(|t| + 1))
  {
    HitPrefix(t + [b], u, |t| + 1);
    assert t + [b] + u == t + ([b] + u);
    forall e | 0 <= e <= |t|
      ensures !Hit(t + [b] + u, e)
    {
      HitPrefix(t, [b] + u, e);
    }
  }

  lemma HitIn(s: string, t: string, b: char, u: string, e: nat)
    requires s == t + [b] + u && e == |t| + 1 && After(t) < 9 && After(t + [b]) == 9
    ensures Answers(s, Some(e))
  {
    FirstHit(t, b, u);
  }

  lemma Cut(done: string, n: string, i: nat)
    requires i < |n|
    ensures done + n == done + n[..i] + [n[i]] + n[i + 1..]
    ensures done + n[..i + 1] == done + n[..i] + [n[i]]
  {
    assert n == n[..i] + [n[i]] + n[i + 1..];
  }

  /** The loop over one buffer; `done` is what earlier buffers held. */
  method ScanBuffer(n: string, found0: nat, ghost done: string) returns (found: nat, hit: Option<nat>)
    requires found0 == After(done) < 9
    ensures hit.None? ==> found == After(done + n) < 9
    ensures hit.Some? ==> hit.value < |n| && Answers(done + n, Some(|done| + hit.value + 1))
  {
    found := found0;
    assert done + n[..0] == done;
    for i := 0 to |n|
      invariant found == After(done + n[..i]) < 9
    {
      ghost var t := done + n[..i];
      AfterStep(t, n[i]);
      Cut(done, n, i);
      if n[i] == Mark(found) {
        found := found + 1;
        if found == 9 {
          HitIn(done + n, t, n[i], n[i + 1..], |done| + i + 1);
          return found, Some(i);
        }
      } else {
        found := 0;
      }
    }
    assert n[..|n|] == n;
    return found, None;
  }

  lemma AnswerStays(s: string, u: string, e: nat)
    requires Answers(s, Some(e))
    ensures Answers(s + u, Some(e))
  {
    HitPrefix(s, u, e);
    forall i | 0 <= i < e
      ensures !Hit(s + u, i)
    {
      HitPrefix(s, u, i);
    }
  }

  /** `inFile` over the reads that succeed or fail; the file is at its end when the list is. */
  method InFile(calls: seq<Read>) returns (r: Outcome)
    ensures r.At? ==> Answers(Content(calls), Some(r.offset))
    ensures !r.At? ==> NoHit(Content(calls)) && (r.Failed? <==> Broken(calls))
  {
    var offset, found := 0, 0;
    ghost var done := "";
    var left := calls;
    while left != []
      invariant offset == |done| && found == After(done) < 9
      invariant Content(calls) == done + Content(left)
      invariant Broken(calls) == Broken(left)
      decreases |left|
    {
      var n, err := left[0].bytes, left[0].error;
      if err.Eof? && n == [] {
        break;
      } else if !err.NoError? {
        assert Content(calls) == done;
        AfterMeans(done);
        return Failed;
      }
      assert Content(calls) == done + n + Content(left[1..]);
      var hit;
      found, hit := ScanBuffer(n, found, done);
      if hit.Some? {
        var e := offset + hit.value + 1;
        AnswerStays(done + n, Content(left[1..]), e);
        assert Answers(Content(calls), Some(e));
        return At(e);
      }
      offset, done := offset + |n|, done + n;
      left := left[1..];
    }
    assert Content(calls) == done;
    AfterMeans(done);
    return NotFound;
  }

  /** Whatever is returned is the end of an occurrence of the marker, and the answer is unique. */
  lemma ScanIsSound(s: string, a: Option<nat>, b: Option<nat>)
    requires Answers(s, a) && Answers(s, b)
    ensures a == b && (a.Some? ==> Occurs(s, a.value))
  {
  }

  predicate FirstOccurrence(s: string, e: nat) {
    Occurs(s, e) && forall i :: 0 <= i < e ==> !Occurs(s, i)
  }

  /** The scan finds the first occurrence exactly when an even number of marker prefixes stands before it. */
  lemma ScanIsComplete(s: string, e: nat, a: Option<nat>)
    requires FirstOccurrence(s, e) && Answers(s, a)
    ensures a == Some(e) <==> EvenBlocks(s[..e - 9])
    ensures LastBlock(s[..e - 9]) == 0 ==> a == Some(e)
  {
    if Hit(s, e) {
      assert Answers(s, Some(e));
      ScanIsSound(s, a, Some(e));
    }
  }

  /** An executable, the marker, an image: the scan returns where the image starts. */
  lemma PackagedImage(exe: string, image: string, a: Option<nat>)
    requires Answers(exe + MARKER + image, a)
    requires forall i :: 0 <= i < |exe| + 9 ==> !Occurs(exe + MARKER + image, i)
    ensures a == Some(|exe| + 9) <==> EvenBlocks(exe)
    ensures EvenBlocks(exe) ==> (exe + MARKER + image)[a.value..] == image
  {
    Slices(exe, MARKER, image);
    MarkerOccurs(exe, image);
    ScanIsComplete(exe + MARKER + image, |exe| + 9, a);
  }

  lemma Slices(exe: string, mid: string, image: string)
    ensures (exe + mid + image)[..|exe|] == exe && (exe + mid + image)[|exe| + |mid|..] == image
    ensures forall p :: |exe| <= p < |exe| + |mid| ==> (exe + mid + image)[p] == mid[p - |exe|]
  {
  }

  lemma MarkerOccurs(exe: string, image: string)
    ensures Occurs(exe + MARKER + image, |exe| + 9)
  {
    Slices(exe, MARKER, image);
  }

  /** The shortest file with a marker that is missed: one underscore before it. */
  lemma UnderscoreHidesMarker()
    ensures Occurs("_" + MARKER, 10) && Answers("_" + MARKER, None)
  {
    var s := "_" + MARKER;
    assert s[..1] == [] + ['_'];
    UnderscoreStep([]);
    assert LastBlock([]) == 0 && EvenBlocks([]);
    assert !Occurs(s, 9) by { assert s[1] == '_'; }
  }
}
