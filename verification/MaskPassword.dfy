/** `MaskPassword`: reading a password byte by byte while showing one mask for each kept byte. */
module MaskPassword {
  const MAX_BYTES: nat := 512

  /** What one call of Read on a one-byte buffer gives. */
  datatype Read = Read(n: nat, b: nat, failed: bool)

  datatype Char = Char(b: nat) | Error

  datatype Failure = NoFailure | ReadError | Interrupted | TooLong

  datatype Shown = Mask | RubOut   // "*" and "\b \b"

  /** `getCharacter`: no byte without an error, and an error even with a byte, are errors. */
  function GetCharacter(r: Read): (c: Char)
    ensures c.Error? <==> r.n == 0 || r.failed
  {
    if r.n == 0 || r.failed then Error else Char(r.b)
  }

  predicate IsErase(b: nat) { b == 127 || b == 8 }

  predicate IsEnd(b: nat) { b == 13 || b == 10 }

  /** A byte after which the editor goes on. */
  predicate GoesOn(r: Read) {
    GetCharacter(r).Char? && !IsEnd(r.b) && r.b != 3
  }

  /** The stack editor: push, pop, ignore. */
  function Edit(s: seq<Read>): (p: seq<nat>)
    ensures |p| <= |s|
  {
    if s == [] then []
    else
      var p, b := Edit(s[..|s| - 1]), s[|s| - 1].b;
      if IsErase(b) then if p == [] then [] else p[..|p| - 1]
      else if b == 0 then p
      else p + [b]
  }

  /** The number of masks on the screen after what was written. */
  function Visible(w: seq<Shown>): int {
    if w == [] then 0
    else Visible(w[..|w| - 1]) + if w[|w| - 1].Mask? then 1 else -1
  }

  /** The input is ended at position `i`, by a line end within the limit. */
  predicate EndsAt(s: seq<Read>, i: nat) {
    && i <= MAX_BYTES && i < |s|
    && GetCharacter(s[i]).Char? && IsEnd(s[i].b)
    && forall j :: 0 <= j < i ==> GoesOn(s[j])
  }

  /** The same byte by byte: 10 and 13 end the input, 3 interrupts it, and 513 bytes are the limit. */
  lemma EndsAtMeans(s: seq<Read>, i: nat)
    ensures EndsAt(s, i) <==>
      && i <= 512 && i < |s| && s[i].n > 0 && !s[i].failed && (s[i].b == 10 || s[i].b == 13)
      && forall j :: 0 <= j < i ==> s[j].n > 0 && !s[j].failed && s[j].b != 10 && s[j].b != 13 && s[j].b != 3
  {
    if i < |s| {
      forall j | 0 <= j < i
        ensures GoesOn(s[j]) <==> s[j].n > 0 && !s[j].failed && s[j].b != 10 && s[j].b != 13 && s[j].b != 3
      {}
    }
  }

  /** One byte more: 8 and 127 erase the last byte kept, 0 is ignored, and any other byte is kept. */
  lemma EditMeans(t: seq<Read>, c: Read)
    ensures c.b != 8 && c.b != 127 && c.b != 0 ==> Edit(t + [c]) == Edit(t) + [c.b]
    ensures c.b == 0 ==> Edit(t + [c]) == Edit(t)
    ensures c.b == 8 || c.b == 127 ==> Edit(t + [c]) == if Edit(t) == [] then [] else Edit(t)[..|Edit(t)| - 1]
    ensures Edit([]) == []
  {
    assert (t + [c])[..|t|] == t;
  }

  /** On the screen there is a mask more, or one is rubbed out. */
  lemma VisibleMeans(w: seq<Shown>)
    ensures Visible([]) == 0 && Visible(w + [Mask]) == Visible(w) + 1 && Visible(w + [RubOut]) == Visible(w) - 1
  {
    assert (w + [Mask])[..|w|] == w && (w + [RubOut])[..|w|] == w;
  }

  /**
   The loop of `MaskPassword`; Read reports the end of the input once `s` is used up. Success means
   exactly that a line end comes in time, and gives the edited bytes before it.
   */
  method MaskPassword(s: seq<Read>) returns (p: seq<nat>, err: Failure, written: seq<Shown>)
    ensures err.NoFailure? <==> exists i: nat :: EndsAt(s, i)
    ensures forall i: nat :: EndsAt(s, i) ==> p == Edit(s[..i])
    ensures err.NoFailure? ==> |p| <= MAX_BYTES
    ensures Visible(written) == |p|
    ensures err.TooLong? <==> |s| > MAX_BYTES && forall j :: 0 <= j <= MAX_BYTES ==> GoesOn(s[j])
    ensures err.Interrupted? <==> exists i ::
      0 <= i <= MAX_BYTES && i < |s| && GetCharacter(s[i]) == Char(3) && forall j :: 0 <= j < i ==> GoesOn(s[j])
  {
    p, err, written := [], NoFailure, [];
    var i := 0;
    while i <= MAX_BYTES
      invariant 0 <= i <= MAX_BYTES + 1 && i <= |s|
      invariant forall j :: 0 <= j < i ==> GoesOn(s[j])
      invariant p == Edit(s[..i]) && Visible(written) == |p|
      invariant err.NoFailure?
    {
      var c := if i < |s| then GetCharacter(s[i]) else Error;
      if c.Error? {
        err := ReadError;
        break;
      }
      assert s[..i + 1][..i] == s[..i];
      if IsErase(c.b) {
        if |p| > 0 {
          p := p[..|p| - 1];
          written := written + [RubOut];
        }
      } else if IsEnd(c.b) {
        assert EndsAt(s, i);
        break;
      } else if c.b == 3 {
        err := Interrupted;
        break;
      } else if c.b != 0 {
        p := p + [c.b];
        written := written + [Mask];
      }
      i := i + 1;
    }
    if i > MAX_BYTES {
      err := TooLong;
    }
    assert forall k: nat :: EndsAt(s, k) ==> k == i;
  }

  /** The number of bytes typed minus the number erased from position `i` to `j`. */
  function Balance(s: seq<Read>, i: nat, j: nat): int
    requires i <= j <= |s|
    decreases j - i
  {
    if i == j then 0
    else Balance(s, i, j - 1) + (if IsErase(s[j - 1].b) then -1 else if s[j - 1].b == 0 then 0 else 1)
  }

  /** The byte typed at `i` is still there at the end: what follows never takes away more than it adds. */
  predicate Survives(s: seq<Read>, i: nat) {
    i < |s| && !IsErase(s[i].b) && s[i].b != 0 && forall j :: i < j <= |s| ==> Balance(s, i, j) >= 1
  }

  lemma {:induction false} BalancePrefix(s: seq<Read>, c: Read, i: nat, j: nat)
    requires i <= j <= |s|
    ensures Balance(s + [c], i, j) == Balance(s, i, j)
    decreases j - i
  {
    if i < j { BalancePrefix(s, c, i, j - 1); }
  }

  lemma SurvivesStep(s: seq<Read>, c: Read, i: nat)
    requires i < |s|
    ensures Survives(s + [c], i) <==> Survives(s, i) && Balance(s + [c], i, |s| + 1) >= 1
  {
    forall j | i < j <= |s|
      ensures Balance(s + [c], i, j) == Balance(s, i, j)
    {
      BalancePrefix(s, c, i, j);
    }
  }

  /** `x` lists the surviving positions of `s` in order, the last typed with the least on top of it. */
  ghost predicate Lists(s: seq<Read>, x: seq<nat>) {
    && (forall k, l :: 0 <= k < l < |x| ==> x[k] < x[l])
    && (forall k :: 0 <= k < |x| ==> x[k] < |s| && Balance(s, x[k], |s|) == |x| - k)
    && (forall i: nat :: i in x <==> Survives(s, i))
  }

  function Weight(c: Read): int {
    if IsErase(c.b) then -1 else if c.b == 0 then 0 else 1
  }

  /** What one more byte does to the survivors. */
  lemma SurvivorsStep(t: seq<Read>, c: Read)
    ensures forall i: nat :: i < |t| ==> Balance(t + [c], i, |t| + 1) == Balance(t, i, |t|) + Weight(c)
    ensures forall i: nat :: i < |t| ==>
      (Survives(t + [c], i) <==> Survives(t, i) && Balance(t, i, |t|) + Weight(c) >= 1)
    ensures Balance(t + [c], |t|, |t| + 1) == Weight(c)
    ensures forall i: nat :: i >= |t| ==> (Survives(t + [c], i) <==> i == |t| && Weight(c) == 1)
  {
    var s := t + [c];
    forall i: nat | i < |t|
      ensures Balance(s, i, |s|) == Balance(t, i, |t|) + Weight(c)
      ensures Survives(s, i) <==> Survives(t, i) && Balance(t, i, |t|) + Weight(c) >= 1
    {
      BalancePrefix(t, c, i, |t|);
      SurvivesStep(t, c, i);
    }
    assert Balance(s, |t|, |t|) == 0;
  }

  lemma Push(t: seq<Read>, c: Read, y: seq<nat>)
    requires Lists(t, y) && Weight(c) == 1
    ensures Lists(t + [c], y + [|t|])
  {
    SurvivorsStep(t, c);
    var x := y + [|t|];
    forall i: nat
      ensures i in x <==> Survives(t + [c], i)
    {
      assert i in x <==> i in y || i == |t|;
    }
  }

  lemma Ignore(t: seq<Read>, c: Read, y: seq<nat>)
    requires Lists(t, y) && Weight(c) == 0
    ensures Lists(t + [c], y)
  {
    SurvivorsStep(t, c);
    forall i: nat
      ensures i in y <==> Survives(t + [c], i)
    {
    }
  }

  lemma Pop(t: seq<Read>, c: Read, y: seq<nat>)
    requires Lists(t, y) && Weight(c) == -1
    ensures Lists(t + [c], if y == [] then [] else y[..|y| - 1])
  {
    SurvivorsStep(t, c);
    if y != [] {
      var x, last := y[..|y| - 1], y[|y| - 1];
      assert Balance(t, last, |t|) == 1;
      forall i: nat
        ensures i in x <==> Survives(t + [c], i)
      {
        if i in y {
          var k :| 0 <= k < |y| && y[k] == i;
          assert k < |x| ==> x[k] == i;
        }
      }
    }
  }

  /** The editor keeps, in order, exactly the bytes that survive. */
  lemma {:induction false} EditKeepsSurvivors(s: seq<Read>) returns (x: seq<nat>)
    ensures Lists(s, x) && |x| == |Edit(s)|
    ensures forall k :: 0 <= k < |x| ==> Edit(s)[k] == s[x[k]].b
    decreases |s|
  {
    if s == [] {
      x := [];
    } else {
      var t, c := s[..|s| - 1], s[|s| - 1];
      assert s == t + [c];
      var y := EditKeepsSurvivors(t);
      if Weight(c) == 1 {
        Push(t, c, y);
        x := y + [|t|];
      } else if Weight(c) == 0 {
        Ignore(t, c, y);
        x := y;
      } else {
        Pop(t, c, y);
        x := if y == [] then [] else y[..|y| - 1];
      }
    }
  }
}
