/** Where the main program's loader and the plotting script's reader of the
    history file agree, and inputs on which they differ. */
module ParserAgreement {
  import opened Wrappers
  import opened Decimal
  import opened Strings
  import opened IntParsing
  import opened HistoryFormat
  import opened PlotHistory
  import opened Sequences

  /** A line on which `stoi` and `int()` read the same value, if it is a
      roll line at all. */
  predicate ValuesAgree(line: string) {
    RollLike(line) ==>
      Stoi(AfterLast(line, ':')).Some? && PyRollValue(line) == Some(Stoi(AfterLast(line, ':')).value as int)
  }

  /** The two loops are in step once a marker has been read: the same
      session being read and the same stored sessions, numbers aside. */
  predicate InStep(c: LoadState, p: PyState) {
    c.reading && c.current == p.current && c.history == RollsOf(p.history)
  }

  lemma {:induction false} FlushesAgree(c: LoadState, p: PyState)
    requires InStep(c, p)
    ensures Flushed(c) == RollsOf(PyFlushed(p))
  {
    if p.current != [] {
      var h := p.history + [NumberedSession(p.number, p.current)];
      assert h[..|h| - 1] == p.history;
    }
  }

  lemma {:induction false} StepsAgree(c: LoadState, p: PyState, line: string)
    requires InStep(c, p) && ValuesAgree(line)
    ensures LoadStep(c, line).Some? && PyStep(p, line).Some?
    ensures InStep(LoadStep(c, line).value, PyStep(p, line).value)
  {
    if Contains(line, SessionMarker) {
      FlushesAgree(c, p);
    }
  }

  lemma {:induction false} FeedsAgree(c: LoadState, p: PyState, lines: seq<string>)
    requires InStep(c, p)
    requires forall i :: 0 <= i < |lines| ==> ValuesAgree(lines[i])
    ensures LoadFeed(c, lines).Some? && PyFeed(p, lines).Some?
    ensures InStep(LoadFeed(c, lines).value, PyFeed(p, lines).value)
    decreases |lines|
  {
    if lines != [] {
      StepsAgree(c, p, lines[0]);
      var rest := lines[1..];
      assert forall i :: 0 <= i < |rest| ==> rest[i] == lines[i + 1];
      FeedsAgree(LoadStep(c, lines[0]).value, PyStep(p, lines[0]).value, rest);
    }
  }

  /** Lines before the first marker that are not roll lines change neither
      loop. */
  lemma {:induction false} PreambleIgnored(pre: seq<string>)
    requires forall i :: 0 <= i < |pre| ==> !Contains(pre[i], SessionMarker) && !RollLike(pre[i])
    ensures LoadFeed(LoadStart, pre) == Some(LoadStart)
    ensures PyFeed(PyStart, pre) == Some(PyStart)
    decreases |pre|
  {
    if pre != [] {
      var rest := pre[1..];
      assert forall i :: 0 <= i < |rest| ==> rest[i] == pre[i + 1];
      PreambleIgnored(rest);
    }
  }

  /** When no roll line comes before the first session marker and `stoi`
      and `int()` read every roll line alike, both readers succeed, and
      the script's sessions without their numbers are the loader's. */
  lemma {:induction false} ReadersAgree(pre: seq<string>, rest: seq<string>)
    requires forall i :: 0 <= i < |pre| ==> !Contains(pre[i], SessionMarker) && !RollLike(pre[i])
    requires rest != [] && Contains(rest[0], SessionMarker)
    requires forall i :: 0 <= i < |rest| ==> ValuesAgree(rest[i])
    ensures LoadedHistory(pre + rest).Some? && ParsedHistory(pre + rest).Some?
    ensures LoadedHistory(pre + rest).value == RollsOf(ParsedHistory(pre + rest).value)
  {
    PreambleIgnored(pre);
    LoadFeedAppend(LoadStart, pre, rest);
    PyFeedAppend(PyStart, pre, rest);
    var c := LoadStep(LoadStart, rest[0]).value;
    var p := PyStep(PyStart, rest[0]).value;
    assert InStep(c, p);
    FeedsAgree(c, p, rest[1..]);
    var cEnd := LoadFeed(c, rest[1..]).value;
    var pEnd := PyFeed(p, rest[1..]).value;
    FlushesAgree(cEnd, pEnd);
  }

  /** `split('\n')` of a file that ends in a newline gives one more, empty,
      line than `getline` does; the loader would ignore that line too. */
  lemma {:induction false} LoadIgnoresFinalEmptyLine(lines: seq<string>)
    ensures LoadedHistory(lines + [""]) == LoadedHistory(lines)
  {
    LoadFeedAppend(LoadStart, lines, [""]);
    if LoadFeed(LoadStart, lines).Some? {
      var st := LoadFeed(LoadStart, lines).value;
      BlankLineStep(st);
      assert LoadFeed(st, [""]) == LoadFeed(st, []);
    }
  }

  /** A file the serialiser wrote, as each reader sees it: `getline` gives the
      lines of `HistoryText`, `split('\n')` those and a final empty one. Both
      readers then give the same sessions. */
  lemma {:induction false} SavedFileReadAlike(name: string, h: seq<seq<Int32>>)
    requires HeaderIgnored(name)
    ensures LoadedHistory(HistoryText(name, h)).Some?
    ensures LoadedHistory(HistoryText(name, h)).value
      == RollsOf(ExtractHistory(Some(HistoryText(name, h) + [""])))
  {
    LoadAfterSave(name, h);
    ExtractAfterSave(name, h);
    NumberedRolls(0, h);
  }

  // ---------------------------------------------------------------------
  // Differences

  /** A roll value of more than 4300 digits, which the serialiser never
      writes: `int()` raises on it, so the script returns the empty list. */
  lemma {:induction false} LongRollValueNotParsed(k: nat, j: nat, v: nat)
    requires |NatToString(v)| > PyMaxStrDigits
    ensures ExtractHistory(Some([SessionLine(k), RollLine(j, v)])) == []
  {
    var line := RollLine(j, v);
    var lines := [SessionLine(k), line];
    var d := NatToString(v);
    assert IntToString(v) == d;
    RollLineShape(j, v);
    var t := AfterLast(line, ':');
    assert t == " " + d;
    StripPaddedDigits(" ", d, []);
    assert " " + d + [] == t;
    LongDigitsRejected(d);
    assert PyRollValue(line) == PyInt(d);
    assert PyBadRollLine(lines[1]);
    ParseFailsIff(lines);
  }

  /** A roll line before any session marker: the loader ignores it, the
      script stores it as session 0. */
  lemma {:induction false} RollBeforeMarkerDiffers(j: nat, v: Int32)
    ensures LoadedHistory([RollLine(j, v)]) == Some([])
    ensures ParsedHistory([RollLine(j, v)]) == Some([NumberedSession(0, [v])])
  {
    NoSessionMarkerInRollLine(j, v);
    LoadFeedOne(LoadStart, RollLine(j, v));
    assert LoadStep(LoadStart, RollLine(j, v)) == Some(LoadStart);
    PyFeedOne(PyStart, RollLine(j, v));
    PyRollLineStep(PyStart, j, v);
    EmptyPlus([v]);
    assert PyStart.(current := PyStart.current + [v]) == PyState([v], 0, []);
    EmptyPlus([NumberedSession(0, [v])]);
    assert PyFlushed(PyState([v], 0, [])) == [NumberedSession(0, [v])];
  }

  /** `int()` rejects text with a space inside it (past a possible sign). */
  lemma {:induction false} PyIntRejectsInnerSpace(t: string, i: nat)
    requires 0 < i < |t| && t[i] == ' '
    ensures PyIntLiteral(t) == None
  {
    var u := DropSign(t);
    assert u == t || u == t[1..];
    if u == t[1..] {
      assert u[i - 1] == ' ';
    } else {
      assert u[i] == ' ';
    }
  }

  /** A roll line with words after the value, past a space, is a roll line
      from which `stoi` reads the value. */
  lemma {:induction false} AnnotatedRollLineReadByStoi(j: nat, v: Int32, note: string)
    requires note != [] && note[0] == ' '
    requires ':' !in note && 'S' !in note
    ensures RollLike(RollLine(j, v) + note)
    ensures AfterLast(RollLine(j, v) + note, ':') == " " + IntToString(v) + note
    ensures Stoi(AfterLast(RollLine(j, v) + note, ':')) == Some(v)
  {
    AnnotatedRollLineShape(j, v, note);
    StoiOfIntToString(" ", v, note);
  }

  /** `int()` rejects a value followed by words past a space. */
  lemma {:induction false} IntRejectsAnnotatedValue(v: Int32, note: string)
    requires note != [] && note[0] == ' ' && !IsPySpace(note[|note| - 1])
    ensures PyInt(PyStrip(" " + IntToString(v) + note)) == None
  {
    var digits := IntToString(v);
    IntToStringChars(v);
    var x := digits + note;
    assert " " + digits + note == [' '] + x + [];
    PyStripPadded([' '], x, []);
    PyStripUnpadded(x);
    assert x[|digits|] == ' ';
    PyIntRejectsInnerSpace(x, |digits|);
  }

  /** ... and one on which `int()` raises. */
  lemma {:induction false} AnnotatedRollLineRejectedByInt(j: nat, v: Int32, note: string)
    requires note != [] && note[0] == ' ' && !IsPySpace(note[|note| - 1])
    requires ':' !in note && 'S' !in note
    ensures PyBadRollLine(RollLine(j, v) + note)
  {
    AnnotatedRollLineReadByStoi(j, v, note);
    IntRejectsAnnotatedValue(v, note);
  }

  lemma {:induction false} TrailingTextLoaded(k: nat, j: nat, v: Int32, note: string)
    requires note != [] && note[0] == ' '
    requires ':' !in note && 'S' !in note
    ensures LoadedHistory([SessionLine(k), RollLine(j, v) + note]) == Some([[v]])
  {
    var line := RollLine(j, v) + note;
    AnnotatedRollLineReadByStoi(j, v, note);
    var started := LoadState(true, [], []);
    SessionLineStep(LoadStart, k);
    assert LoadStep(LoadStart, SessionLine(k)) == Some(started);
    LoadFeedTwo(LoadStart, SessionLine(k), line);
    LoadFeedOne(started, line);
    EmptyPlus([v]);
    assert LoadStep(started, line) == Some(LoadState(true, [v], []));
    EmptyPlus([[v]]);
    assert Flushed(LoadState(true, [v], [])) == [[v]];
  }

  lemma {:induction false} TrailingTextNotParsed(k: nat, j: nat, v: Int32, note: string)
    requires note != [] && note[0] == ' ' && !IsPySpace(note[|note| - 1])
    requires ':' !in note && 'S' !in note
    ensures ExtractHistory(Some([SessionLine(k), RollLine(j, v) + note])) == []
  {
    var line := RollLine(j, v) + note;
    var lines := [SessionLine(k), line];
    AnnotatedRollLineRejectedByInt(j, v, note);
    assert PyBadRollLine(lines[1]);
    ParseFailsIff(lines);
  }

  /** Words after the value, past a space: `stoi` reads the leading number,
      `int()` raises and the script returns the empty list. */
  lemma {:induction false} TrailingTextDiffers(k: nat, j: nat, v: Int32, note: string)
    requires note != [] && note[0] == ' ' && !IsPySpace(note[|note| - 1])
    requires ':' !in note && 'S' !in note
    ensures LoadedHistory([SessionLine(k), RollLine(j, v) + note]) == Some([[v]])
    ensures ExtractHistory(Some([SessionLine(k), RollLine(j, v) + note])) == []
  {
    TrailingTextLoaded(k, j, v, note);
    TrailingTextNotParsed(k, j, v, note);
  }

  lemma {:induction false} EmptySessionLoaded(j: nat, v: Int32)
    ensures LoadedHistory([SessionLine(1), SessionLine(2), RollLine(j, v)]) == Some([[v]])
  {
    var c1 := LoadState(true, [], []);
    SessionLineStep(LoadStart, 1);
    SessionLineStep(c1, 2);
    RollLineStep(c1, j, v);
    LoadFeedThree(LoadStart, SessionLine(1), SessionLine(2), RollLine(j, v));
    LoadFeedTwo(c1, SessionLine(2), RollLine(j, v));
    LoadFeedOne(c1, RollLine(j, v));
    EmptyPlus([v]);
    assert c1.(current := c1.current + [v]) == LoadState(true, [v], []);
    EmptyPlus([[v]]);
    assert Flushed(LoadState(true, [v], [])) == [[v]];
  }

  lemma {:induction false} EmptySessionParsed(j: nat, v: Int32)
    ensures ParsedHistory([SessionLine(1), SessionLine(2), RollLine(j, v)]) == Some([NumberedSession(2, [v])])
  {
    var p1 := PyState([], 1, []);
    var p2 := PyState([], 2, []);
    PySessionLineStep(PyStart, 1);
    assert PyStep(PyStart, SessionLine(1)) == Some(p1);
    PySessionLineStep(p1, 2);
    assert PyStep(p1, SessionLine(2)) == Some(p2);
    PyRollLineStep(p2, j, v);
    PyFeedThree(PyStart, SessionLine(1), SessionLine(2), RollLine(j, v));
    PyFeedTwo(p1, SessionLine(2), RollLine(j, v));
    PyFeedOne(p2, RollLine(j, v));
    assert p2.(current := p2.current + [v]) == PyState([v], 2, []);
    EmptyPlus([NumberedSession(2, [v])]);
    assert PyFlushed(PyState([v], 2, [])) == [NumberedSession(2, [v])];
  }

  /** A marker without rolls leaves no session in either reader, but the
      script's counter still advances: its next session has number 2. */
  lemma {:induction false} EmptySessionSkipsNumber(j: nat, v: Int32)
    ensures LoadedHistory([SessionLine(1), SessionLine(2), RollLine(j, v)]) == Some([[v]])
    ensures ParsedHistory([SessionLine(1), SessionLine(2), RollLine(j, v)]) == Some([NumberedSession(2, [v])])
  {
    EmptySessionLoaded(j, v);
    EmptySessionParsed(j, v);
  }

  // ---------------------------------------------------------------------
  // Unfolding both loops over a few lines

  lemma LoadFeedOne(st: LoadState, l1: string)
    ensures LoadFeed(st, [l1]) == LoadStep(st, l1)
  {
    assert [l1][1..] == [];
  }

  lemma LoadFeedTwo(st: LoadState, l1: string, l2: string)
    ensures LoadFeed(st, [l1, l2]) == match LoadStep(st, l1)
                                      case None => None
                                      case Some(m) => LoadFeed(m, [l2])
  {
    assert [l1, l2][1..] == [l2];
  }

  lemma LoadFeedThree(st: LoadState, l1: string, l2: string, l3: string)
    ensures LoadFeed(st, [l1, l2, l3]) == match LoadStep(st, l1)
                                          case None => None
                                          case Some(m) => LoadFeed(m, [l2, l3])
  {
    assert [l1, l2, l3][1..] == [l2, l3];
  }

  lemma PyFeedOne(p: PyState, l1: string)
    ensures PyFeed(p, [l1]) == PyStep(p, l1)
  {
    assert [l1][1..] == [];
  }

  lemma PyFeedTwo(p: PyState, l1: string, l2: string)
    ensures PyFeed(p, [l1, l2]) == match PyStep(p, l1)
                                   case None => None
                                   case Some(m) => PyFeed(m, [l2])
  {
    assert [l1, l2][1..] == [l2];
  }

  lemma PyFeedThree(p: PyState, l1: string, l2: string, l3: string)
    ensures PyFeed(p, [l1, l2, l3]) == match PyStep(p, l1)
                                       case None => None
                                       case Some(m) => PyFeed(m, [l2, l3])
  {
    assert [l1, l2, l3][1..] == [l2, l3];
  }
}
