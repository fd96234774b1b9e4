/** The loop of `main` that reads a session's rolls from the console: each
    value read with `cin >> valor` is kept when it is a face of the die,
    skipped with a warning otherwise, and the first input that is not an
    `int` ends the session, which is then recorded on the character. */
module RollEntry {
  import opened Decimal
  import opened Characters
  import opened Statistics
  import opened Sequences

  /** One extraction `cin >> valor`: an `int` (an input outside the `int`
      range fails like any other unreadable input), or a failure. */
  datatype Token = Num(value: Int32) | Unparsable

  predicate IsFace(v: int) {
    MinRoll <= v <= MaxRoll
  }

  /** The tokens read before the first failure. */
  function BeforeStop(ts: seq<Token>): (r: seq<Token>)
    ensures r <= ts
    ensures forall i :: 0 <= i < |r| ==> r[i].Num?
    ensures |r| < |ts| ==> ts[|r|] == Unparsable
  {
    if ts == [] || ts[0] == Unparsable then [] else [ts[0]] + BeforeStop(ts[1..])
  }

  /** The values of `ts` that are faces of the die, in order. */
  function Faces(ts: seq<Token>): seq<Int32> {
    if ts == [] then []
    else
      var last := ts[|ts| - 1];
      Faces(ts[..|ts| - 1]) + (if last.Num? && IsFace(last.value) then [last.value] else [])
  }

  /** The rolls the loop records for the input `ts`. */
  function Accepted(ts: seq<Token>): seq<Int32> {
    Faces(BeforeStop(ts))
  }

  /** The loop itself: `rolls` is what it records and `read` the number of
      tokens it reads before stopping (the failing one not counted). */
  method ReadRolls(ts: seq<Token>) returns (rolls: seq<Int32>, read: nat)
    ensures rolls == Accepted(ts)
    ensures read == |BeforeStop(ts)|
  {
    rolls := [];
    var i := 0;
    while i < |ts|
      invariant 0 <= i <= |ts|
      invariant forall j :: 0 <= j < i ==> ts[j].Num?
      invariant rolls == Faces(ts[..i])
    {
      match ts[i]
      case Unparsable =>
        break;
      case Num(v) =>
        assert ts[..i + 1][..i] == ts[..i];
        if IsFace(v) {
          rolls := rolls + [v];
        }
        i := i + 1;
    }
    BeforeStopIsPrefix(ts, i);
    read := i;
  }

  /** Reads a session's rolls and records them on the character (`main`,
      after a character is chosen). */
  method EnterSession(c: Character, ts: seq<Token>)
    requires c.Valid()
    modifies c
    ensures c.Valid()
    ensures c.rolls == Accepted(ts) && c.dailyMean == Mean(Accepted(ts))
    ensures Accepted(ts) == [] ==> c.history == old(c.history) && c.totalMean == old(c.totalMean)
    ensures Accepted(ts) != [] ==>
      c.history == old(c.history) + [Accepted(ts)] && c.totalMean == Mean(Flatten(c.history))
  {
    var rolls, _ := ReadRolls(ts);
    c.RecordSession(rolls);
  }

  // ---------------------------------------------------------------------
  // Lemmas

  /** When the first `n` tokens are numbers and token `n` is not (or there
      are only `n`), those `n` tokens are what is read. */
  lemma {:induction false} BeforeStopIsPrefix(ts: seq<Token>, n: nat)
    requires n <= |ts|
    requires forall j :: 0 <= j < n ==> ts[j].Num?
    requires n < |ts| ==> ts[n] == Unparsable
    ensures BeforeStop(ts) == ts[..n]
    decreases n
  {
    if n > 0 {
      assert forall j :: 0 <= j < n - 1 ==> ts[1..][j] == ts[j + 1];
      BeforeStopIsPrefix(ts[1..], n - 1);
      assert ts[..n] == [ts[0]] + ts[1..][..n - 1];
    }
  }

  lemma {:induction false} FacesAppend(a: seq<Token>, b: seq<Token>)
    ensures Faces(a + b) == Faces(a) + Faces(b)
    decreases |b|
  {
    if b == [] {
      assert a + b == a;
    } else {
      var init := b[..|b| - 1];
      FacesAppend(a, init);
      assert (a + b)[..|a + b| - 1] == a + init;
      assert (a + b)[|a + b| - 1] == b[|b| - 1];
    }
  }

  /** Every recorded roll is a face of the die. */
  lemma {:induction false} AcceptedAreFaces(ts: seq<Token>)
    ensures forall i :: 0 <= i < |Accepted(ts)| ==> IsFace(Accepted(ts)[i])
  {
    FacesAreFaces(BeforeStop(ts));
  }

  lemma {:induction false} FacesAreFaces(ts: seq<Token>)
    ensures forall i :: 0 <= i < |Faces(ts)| ==> IsFace(Faces(ts)[i])
  {
    if ts != [] {
      FacesAreFaces(ts[..|ts| - 1]);
    }
  }

  /** A value that is not a face of the die is skipped, and the loop goes on. */
  lemma {:induction false} OutOfRangeSkipped(v: Int32, ts: seq<Token>)
    requires !IsFace(v)
    ensures Accepted([Num(v)] + ts) == Accepted(ts)
  {
    BeforeStopOfNum(v, ts);
    FacesAppend([Num(v)], BeforeStop(ts));
    FacesOfOne(Num(v));
    EmptyPlus(Accepted(ts));
  }

  /** A face of the die is recorded, in input order. */
  lemma {:induction false} FaceKept(v: Int32, ts: seq<Token>)
    requires IsFace(v)
    ensures Accepted([Num(v)] + ts) == [v] + Accepted(ts)
  {
    BeforeStopOfNum(v, ts);
    FacesAppend([Num(v)], BeforeStop(ts));
    FacesOfOne(Num(v));
  }

  lemma BeforeStopOfNum(v: Int32, ts: seq<Token>)
    ensures BeforeStop([Num(v)] + ts) == [Num(v)] + BeforeStop(ts)
  {
    assert ([Num(v)] + ts)[1..] == ts;
  }

  lemma FacesOfOne(t: Token)
    ensures Faces([t]) == if t.Num? && IsFace(t.value) then [t.value] else []
  {
    assert [t][..0] == [];
    EmptyPlus(if t.Num? && IsFace(t.value) then [t.value] else []);
  }

  /** Nothing after the first unreadable input is read. */
  lemma {:induction false} StopsAtFirstFailure(a: seq<Token>, b: seq<Token>)
    requires forall i :: 0 <= i < |a| ==> a[i].Num?
    ensures Accepted(a + [Unparsable] + b) == Faces(a)
  {
    var ts := a + [Unparsable] + b;
    assert forall j :: 0 <= j < |a| ==> ts[j] == a[j];
    assert ts[|a|] == Unparsable;
    BeforeStopIsPrefix(ts, |a|);
    assert ts[..|a|] == a;
  }

  /** Input made only of faces of the die is recorded as it is. */
  lemma {:induction false} AllFacesRecorded(vs: seq<Int32>)
    requires forall i :: 0 <= i < |vs| ==> IsFace(vs[i])
    ensures Accepted(Tokens(vs)) == vs
  {
    NumbersReadToTheEnd(vs);
    FacesOfFaces(vs);
  }

  /** The tokens of the values `vs`. */
  function Tokens(vs: seq<Int32>): (r: seq<Token>)
    ensures |r| == |vs|
    ensures forall i :: 0 <= i < |vs| ==> r[i] == Num(vs[i])
  {
    if vs == [] then [] else Tokens(vs[..|vs| - 1]) + [Num(vs[|vs| - 1])]
  }

  lemma {:induction false} NumbersReadToTheEnd(vs: seq<Int32>)
    ensures BeforeStop(Tokens(vs)) == Tokens(vs)
  {
    var ts := Tokens(vs);
    BeforeStopIsPrefix(ts, |ts|);
    assert ts[..|ts|] == ts;
  }

  lemma {:induction false} FacesOfFaces(vs: seq<Int32>)
    requires forall i :: 0 <= i < |vs| ==> IsFace(vs[i])
    ensures Faces(Tokens(vs)) == vs
  {
    if vs != [] {
      var init := vs[..|vs| - 1];
      assert forall i :: 0 <= i < |init| ==> init[i] == vs[i];
      FacesOfFaces(init);
      var ts := Tokens(vs);
      assert ts[..|ts| - 1] == Tokens(init);
      assert vs == init + [vs[|vs| - 1]];
    }
  }

  /** For valid rolls, the counts of the faces of the die add up to the
      number of rolls recorded. */
  lemma {:induction false} RecordedCountsCoverFaces(ts: seq<Token>)
    ensures CountsBetween(Accepted(ts), MinRoll, MaxRoll) == |Accepted(ts)|
  {
    AcceptedAreFaces(ts);
    CountsCoverAllRolls(Accepted(ts), MinRoll, MaxRoll);
  }
}
