/** The text format of a character's history file and the main program's
    loader for it (`Personagem::salvarHistorico` and
    `Personagem::carregarHistorico`). A file is modelled as its sequence of
    lines, as `std::getline` returns them. */
module HistoryFormat {
  import opened Wrappers
  import opened Decimal
  import opened Strings
  import opened IntParsing
  import opened Sequences

  // ---------------------------------------------------------------------
  // The format, as the serialiser writes it

  const SessionMarker: string := "Sessão"
  const RollMarker: string := "Rolagem"
  const HeaderPrefix: string := "Histórico de rolagens para "

  function HeaderLine(name: string): string {
    HeaderPrefix + name
  }

  /** The line that opens the block of session number `k`. */
  function SessionLine(k: nat): string {
    SessionMarker + " " + NatToString(k) + ":"
  }

  /** The line for roll number `j` of a session, of value `v`. */
  function RollLine(j: nat, v: int): string {
    RollMarker + " " + NatToString(j) + ": " + IntToString(v)
  }

  /** The roll lines of one session: roll `j` (0-based) is written as roll
      number `j + 1`. */
  function RollLines(s: seq<int>): seq<string> {
    if s == [] then [] else RollLines(s[..|s| - 1]) + [RollLine(|s|, s[|s| - 1])]
  }

  /** The marker line, the roll lines and the blank line of session number `k`. */
  function SessionBlock(k: nat, s: seq<int>): seq<string> {
    [SessionLine(k)] + RollLines(s) + [""]
  }

  /** The blocks of all sessions: session `i` (0-based) is session number `i + 1`. */
  function SessionBlocks(h: seq<seq<int>>): seq<string> {
    if h == [] then [] else SessionBlocks(h[..|h| - 1]) + SessionBlock(|h|, h[|h| - 1])
  }

  /** The whole file `salvarHistorico` writes: the header line, a blank line,
      then the block of every session in order. */
  function HistoryText(name: string, h: seq<seq<int>>): seq<string> {
    [HeaderLine(name), ""] + SessionBlocks(h)
  }

  // ---------------------------------------------------------------------
  // Sessions

  predicate NoEmptySession(h: seq<seq<int>>) {
    forall i :: 0 <= i < |h| ==> h[i] != []
  }

  /** `h` without its empty sessions, in order. */
  function NonEmptySessions(h: seq<seq<Int32>>): (r: seq<seq<Int32>>)
    ensures NoEmptySession(r)
    ensures NoEmptySession(h) ==> r == h
  {
    if h == [] then []
    else
      var last := h[|h| - 1];
      assert h == h[..|h| - 1] + [last];
      NonEmptySessions(h[..|h| - 1]) + (if last == [] then [] else [last])
  }

  // ---------------------------------------------------------------------
  // The loader, as a state machine over the lines

  /** The loop variables of `carregarHistorico`: the `lendoRolagens` flag,
      the session being read (`sessaoRolagens`) and the sessions already
      pushed onto the history. */
  datatype LoadState = LoadState(reading: bool, current: seq<Int32>, history: seq<seq<Int32>>)

  const LoadStart: LoadState := LoadState(false, [], [])

  /** The history once the session being read is pushed, if it is not empty. */
  function Flushed(st: LoadState): seq<seq<Int32>> {
    if st.current == [] then st.history else st.history + [st.current]
  }

  /** One iteration of the loop on `line`. `None` is `stoi` throwing, which
      ends the load (and, since the loader runs in the constructor, the
      program). */
  function LoadStep(st: LoadState, line: string): Option<LoadState> {
    if Contains(line, SessionMarker) then
      Some(LoadState(true, [], Flushed(st)))
    else if st.reading && Contains(line, RollMarker) && ':' in line then
      match Stoi(AfterLast(line, ':'))
      case None => None
      case Some(v) => Some(st.(current := st.current + [v]))
    else
      Some(st)
  }

  /** The loop run over `lines` from state `st`. */
  function LoadFeed(st: LoadState, lines: seq<string>): Option<LoadState>
    decreases |lines|
  {
    if lines == [] then Some(st)
    else
      match LoadStep(st, lines[0])
      case None => None
      case Some(next) => LoadFeed(next, lines[1..])
  }

  /** The sessions `carregarHistorico` reads from a file: the loop, then the
      final flush. `None` when `stoi` throws. */
  function LoadedHistory(lines: seq<string>): (r: Option<seq<seq<Int32>>>)
    ensures r.Some? ==> NoEmptySession(r.value)
  {
    LoadFeedKeepsSessionsNonEmpty(LoadStart, lines);
    match LoadFeed(LoadStart, lines)
    case None => None
    case Some(st) => Some(Flushed(st))
  }

  // ---------------------------------------------------------------------
  // Lemmas about the loader

  lemma {:induction false} LoadFeedAppend(st: LoadState, a: seq<string>, b: seq<string>)
    ensures LoadFeed(st, a + b) == match LoadFeed(st, a)
                                   case None => None
                                   case Some(mid) => LoadFeed(mid, b)
    decreases |a|
  {
    if a != [] {
      assert (a + b)[0] == a[0];
      assert (a + b)[1..] == a[1..] + b;
      match LoadStep(st, a[0])
      case None =>
      case Some(next) => LoadFeedAppend(next, a[1..], b);
    } else {
      assert a + b == b;
    }
  }

  /** `st` with the sessions `h` loaded before its own. */
  function WithEarlier(st: LoadState, h: seq<seq<Int32>>): LoadState {
    st.(history := h + st.history)
  }

  lemma {:induction false} LoadStepWithEarlier(st: LoadState, h: seq<seq<Int32>>, line: string)
    ensures LoadStep(st, line).None? ==> LoadStep(WithEarlier(st, h), line).None?
    ensures LoadStep(st, line).Some? ==>
      LoadStep(WithEarlier(st, h), line) == Some(WithEarlier(LoadStep(st, line).value, h))
  {
    if Contains(line, SessionMarker) && st.current != [] {
      assert h + (st.history + [st.current]) == (h + st.history) + [st.current];
    }
  }

  /** Loading onto a history that already holds sessions `h` gives `h`
      followed by what loading onto an empty history gives, and fails
      exactly when that does. */
  lemma {:induction false} LoadFeedWithEarlier(st: LoadState, h: seq<seq<Int32>>, lines: seq<string>)
    ensures LoadFeed(st, lines).None? ==> LoadFeed(WithEarlier(st, h), lines).None?
    ensures LoadFeed(st, lines).Some? ==>
      LoadFeed(WithEarlier(st, h), lines) == Some(WithEarlier(LoadFeed(st, lines).value, h))
    decreases |lines|
  {
    if lines != [] {
      LoadStepWithEarlier(st, h, lines[0]);
      match LoadStep(st, lines[0])
      case None =>
      case Some(next) => LoadFeedWithEarlier(next, h, lines[1..]);
    }
  }

  lemma {:induction false} FlushedWithEarlier(st: LoadState, h: seq<seq<Int32>>)
    ensures Flushed(WithEarlier(st, h)) == h + Flushed(st)
  {
    if st.current != [] {
      assert h + (st.history + [st.current]) == (h + st.history) + [st.current];
    }
  }

  /** The history never gains an empty session. */
  lemma {:induction false} LoadFeedKeepsSessionsNonEmpty(st: LoadState, lines: seq<string>)
    requires NoEmptySession(st.history)
    ensures LoadFeed(st, lines).Some? ==> NoEmptySession(Flushed(LoadFeed(st, lines).value))
    decreases |lines|
  {
    if lines != [] {
      match LoadStep(st, lines[0])
      case None =>
      case Some(next) => LoadFeedKeepsSessionsNonEmpty(next, lines[1..]);
    }
  }

  /** Every character of a roll line is a letter of "Rolagem", a space, a
      ':', a '-' or a digit; in particular there is no 'S'. */
  lemma {:induction false} NoSessionMarkerInRollLine(j: nat, v: int)
    ensures 'S' !in RollLine(j, v)
    ensures !Contains(RollLine(j, v), SessionMarker)
  {
    var line := RollLine(j, v);
    var a := RollMarker + " ";
    var b := NatToString(j);
    var c := ": " + IntToString(v);
    assert line == a + b + c;
    assert 'S' !in a;
    assert 'S' !in b by { assert AllDigits(b); }
    assert 'S' !in c by {
      IntToStringChars(v);
      assert forall i :: 2 <= i < |c| ==> c[i] == IntToString(v)[i - 2];
    }
    FirstCharAbsent(line, SessionMarker);
  }

  /** A roll line contributes its value while a session is being read. */
  lemma {:induction false} RollLineStep(st: LoadState, j: nat, v: Int32)
    requires st.reading
    ensures LoadStep(st, RollLine(j, v)) == Some(st.(current := st.current + [v]))
  {
    RollLineShape(j, v);
    StoiOfIntToString(" ", v, []);
    assert " " + IntToString(v) + [] == " " + IntToString(v);
  }

  /** A roll line holds the roll marker, no session marker, and its value,
      after a space, follows its last ':'. */
  lemma {:induction false} RollLineShape(j: nat, v: int)
    ensures Contains(RollLine(j, v), RollMarker) && !Contains(RollLine(j, v), SessionMarker)
    ensures ':' in RollLine(j, v)
    ensures AfterLast(RollLine(j, v), ':') == " " + IntToString(v)
  {
    AnnotatedRollLineShape(j, v, []);
    assert RollLine(j, v) + [] == RollLine(j, v);
    assert " " + IntToString(v) + [] == " " + IntToString(v);
  }

  /** The same, for a roll line followed by text with no ':' and no 'S'. */
  lemma {:induction false} AnnotatedRollLineShape(j: nat, v: int, note: string)
    requires ':' !in note && 'S' !in note
    ensures Contains(RollLine(j, v) + note, RollMarker)
    ensures !Contains(RollLine(j, v) + note, SessionMarker)
    ensures ':' in RollLine(j, v) + note
    ensures AfterLast(RollLine(j, v) + note, ':') == " " + IntToString(v) + note
  {
    RollLineMarkers(j, v, note);
    RollLineValueText(j, v, note);
  }

  lemma {:induction false} RollLineMarkers(j: nat, v: int, note: string)
    requires 'S' !in note
    ensures Contains(RollLine(j, v) + note, RollMarker)
    ensures !Contains(RollLine(j, v) + note, SessionMarker)
  {
    var line := RollLine(j, v) + note;
    NoSessionMarkerInRollLine(j, v);
    assert 'S' !in line;
    FirstCharAbsent(line, SessionMarker);
    assert RollMarker <= line;
    PrefixContained(line, RollMarker);
  }

  lemma {:induction false} RollLineValueText(j: nat, v: int, note: string)
    requires ':' !in note
    ensures ':' in RollLine(j, v) + note
    ensures AfterLast(RollLine(j, v) + note, ':') == " " + IntToString(v) + note
  {
    var line := RollLine(j, v) + note;
    var a := RollMarker + " " + NatToString(j);
    var value := " " + IntToString(v);
    assert ':' !in value by {
      IntToStringChars(v);
      assert forall i :: 1 <= i < |value| ==> value[i] == IntToString(v)[i - 1];
    }
    assert RollLine(j, v) == a + [':'] + value;
    Associate(a + [':'], value, note);
    AfterLastOfJoin(a, ':', value + note);
    assert line[|a|] == ':';
  }

  /** Roll `j` (0-based) of a session is written as roll number `j + 1`. */
  lemma {:induction false} RollLinesAt(s: seq<int>)
    ensures |RollLines(s)| == |s|
    ensures forall j :: 0 <= j < |s| ==> RollLines(s)[j] == RollLine(j + 1, s[j])
  {
    if s != [] {
      var init := s[..|s| - 1];
      RollLinesAt(init);
      assert RollLines(s) == RollLines(init) + [RollLine(|s|, s[|s| - 1])];
      forall j | 0 <= j < |s|
        ensures RollLines(s)[j] == RollLine(j + 1, s[j])
      {
        if j < |s| - 1 {
          assert s[j] == init[j];
          assert RollLines(s)[j] == RollLines(init)[j];
        }
      }
    }
  }

  /** The roll lines of a session add exactly its rolls to the session being read. */
  lemma {:induction false} RollLinesFeed(st: LoadState, s: seq<Int32>)
    requires st.reading
    ensures LoadFeed(st, RollLines(s)) == Some(st.(current := st.current + s))
  {
    if s == [] {
      assert st.current + s == st.current;
    } else {
      var init := s[..|s| - 1];
      var last := s[|s| - 1];
      var line := RollLine(|s|, last);
      assert RollLines(s) == RollLines(init) + [line];
      RollLinesFeed(st, init);
      var mid := st.(current := st.current + init);
      LoadFeedAppend(st, RollLines(init), [line]);
      assert LoadFeed(st, RollLines(s)) == LoadFeed(mid, [line]);
      RollLineStep(mid, |s|, last);
      var after := mid.(current := mid.current + [last]);
      assert LoadFeed(mid, [line]) == LoadFeed(after, []);
      AppendInitLast(st.current, s);
    }
  }

  lemma {:induction false} SessionLineStep(st: LoadState, k: nat)
    ensures LoadStep(st, SessionLine(k)) == Some(LoadState(true, [], Flushed(st)))
  {
    assert SessionMarker <= SessionLine(k);
    PrefixContained(SessionLine(k), SessionMarker);
  }

  lemma {:induction false} BlankLineStep(st: LoadState)
    ensures LoadStep(st, "") == Some(st)
  {
    TooShortAbsent("", SessionMarker);
    TooShortAbsent("", RollMarker);
  }

  /** The block of one session flushes what was being read and leaves the
      session's rolls as the session being read. */
  lemma {:induction false} SessionBlockFeed(st: LoadState, k: nat, s: seq<Int32>)
    ensures LoadFeed(st, SessionBlock(k, s)) == Some(LoadState(true, s, Flushed(st)))
  {
    var started := LoadState(true, [], Flushed(st));
    SessionLineStep(st, k);
    assert LoadFeed(st, [SessionLine(k)]) == Some(started);
    LoadFeedAppend(st, [SessionLine(k)], RollLines(s));
    RollLinesFeed(started, s);
    assert started.(current := started.current + s) == LoadState(true, s, Flushed(st));
    LoadFeedAppend(st, [SessionLine(k)] + RollLines(s), [""]);
    BlankLineStep(LoadState(true, s, Flushed(st)));
  }

  lemma {:induction false} SessionBlocksFeed(st: LoadState, h: seq<seq<Int32>>)
    ensures LoadFeed(st, SessionBlocks(h)).Some?
    ensures Flushed(LoadFeed(st, SessionBlocks(h)).value) == Flushed(st) + NonEmptySessions(h)
  {
    if h == [] {
      assert Flushed(st) + [] == Flushed(st);
    } else {
      var init := h[..|h| - 1];
      var last := h[|h| - 1];
      SessionBlocksFeed(st, init);
      var mid := LoadFeed(st, SessionBlocks(init)).value;
      LoadFeedAppend(st, SessionBlocks(init), SessionBlock(|h|, last));
      SessionBlockFeed(mid, |h|, last);
      assert Flushed(st) + NonEmptySessions(init) + (if last == [] then [] else [last])
          == Flushed(st) + NonEmptySessions(h);
    }
  }

  /** The header and the blank line after it leave nothing to flush,
      whatever the name holds. */
  lemma {:induction false} HeaderFeed(name: string)
    ensures LoadFeed(LoadStart, [HeaderLine(name), ""]).Some?
    ensures Flushed(LoadFeed(LoadStart, [HeaderLine(name), ""]).value) == []
  {
    var after := LoadStep(LoadStart, HeaderLine(name)).value;
    assert after.current == [] && after.history == [];
    LoadFeedAppend(LoadStart, [HeaderLine(name)], [""]);
    BlankLineStep(after);
    assert LoadFeed(after, [""]) == Some(after);
  }

  /** Loading what was saved gives back every non-empty session, in order. */
  lemma {:induction false} LoadAfterSave(name: string, h: seq<seq<Int32>>)
    ensures LoadedHistory(HistoryText(name, h)) == Some(NonEmptySessions(h))
  {
    HeaderFeed(name);
    var st := LoadFeed(LoadStart, [HeaderLine(name), ""]).value;
    LoadFeedAppend(LoadStart, [HeaderLine(name), ""], SessionBlocks(h));
    SessionBlocksFeed(st, h);
    assert [] + NonEmptySessions(h) == NonEmptySessions(h);
  }

  /** The round trip of the history file: for the histories the program
      records (no empty session), load after save is the identity. */
  lemma {:induction false} LoadAfterSaveIdentity(name: string, h: seq<seq<Int32>>)
    requires NoEmptySession(h)
    ensures LoadedHistory(HistoryText(name, h)) == Some(h)
  {
    LoadAfterSave(name, h);
  }

  /** Lines before the first session marker are ignored, roll lines included:
      the reading flag starts false. */
  lemma {:induction false} LinesBeforeFirstMarkerIgnored(pre: seq<string>, rest: seq<string>)
    requires forall i :: 0 <= i < |pre| ==> !Contains(pre[i], SessionMarker)
    ensures LoadedHistory(pre + rest) == LoadedHistory(rest)
    decreases |pre|
  {
    if pre == [] {
      assert pre + rest == rest;
    } else {
      assert LoadStep(LoadStart, pre[0]) == Some(LoadStart);
      assert LoadFeed(LoadStart, [pre[0]]) == Some(LoadStart);
      assert pre + rest == [pre[0]] + (pre[1..] + rest);
      LoadFeedAppend(LoadStart, [pre[0]], pre[1..] + rest);
      LinesBeforeFirstMarkerIgnored(pre[1..], rest);
    }
  }

  /** The flush at the end of the file is the flush a further session marker
      would do: one more marker line at the end changes nothing. */
  lemma {:induction false} TrailingMarkerChangesNothing(lines: seq<string>, marker: string)
    requires Contains(marker, SessionMarker)
    ensures LoadedHistory(lines + [marker]) == LoadedHistory(lines)
  {
    LoadFeedAppend(LoadStart, lines, [marker]);
  }

  /** A line that is not a session marker but that both readers take for a
      roll line: it holds "Rolagem" and a ':'. */
  predicate RollLike(line: string) {
    !Contains(line, SessionMarker) && Contains(line, RollMarker) && ':' in line
  }

  /** A roll line whose value `stoi` cannot read. */
  predicate BadRollLine(line: string) {
    RollLike(line) && Stoi(AfterLast(line, ':')).None?
  }

  /** Some line before index `i` is a session marker. */
  predicate MarkerBefore(lines: seq<string>, i: int) {
    exists j :: 0 <= j < i && j < |lines| && Contains(lines[j], SessionMarker)
  }

  /** Line `i` makes a load that starts with `reading` fail. */
  predicate FailsAt(reading: bool, lines: seq<string>, i: int) {
    0 <= i < |lines| && BadRollLine(lines[i]) && (reading || MarkerBefore(lines, i))
  }

  /** Past a first line that is a session marker, every later line is read
      as if the load were already reading. */
  lemma ShiftPastMarker(reading: bool, lines: seq<string>, i: int)
    requires |lines| > 0 && Contains(lines[0], SessionMarker) && 1 <= i
    ensures FailsAt(reading, lines, i) <==> FailsAt(true, lines[1..], i - 1)
  {
    if i < |lines| {
      assert lines[i] == lines[1..][i - 1];
    }
  }

  /** Past a first line that is not a session marker, nothing changes but the indices. */
  lemma ShiftPastOther(reading: bool, lines: seq<string>, i: int)
    requires |lines| > 0 && !Contains(lines[0], SessionMarker) && 1 <= i
    ensures FailsAt(reading, lines, i) <==> FailsAt(reading, lines[1..], i - 1)
  {
    var rest := lines[1..];
    if i < |lines| {
      assert lines[i] == rest[i - 1];
      if MarkerBefore(lines, i) {
        var j :| 0 <= j < i && j < |lines| && Contains(lines[j], SessionMarker);
        assert j != 0;
        assert lines[j] == rest[j - 1];
      }
      if MarkerBefore(rest, i - 1) {
        var j :| 0 <= j < i - 1 && j < |rest| && Contains(rest[j], SessionMarker);
        assert lines[j + 1] == rest[j];
      }
    }
  }

  lemma {:induction false} LoadFeedFailsIff(st: LoadState, lines: seq<string>)
    ensures LoadFeed(st, lines).None? <==> exists i :: FailsAt(st.reading, lines, i)
    decreases |lines|
  {
    if lines != [] {
      var rest := lines[1..];
      StepFailsAtFirst(st, lines);
      match LoadStep(st, lines[0])
      case None =>
        assert FailsAt(st.reading, lines, 0);
      case Some(next) =>
        LoadFeedFailsIff(next, rest);
        if LoadFeed(next, rest).None? {
          var k :| FailsAt(next.reading, rest, k);
          ShiftPast(st.reading, lines, k + 1);
          assert FailsAt(st.reading, lines, k + 1);
        }
        if exists i :: FailsAt(st.reading, lines, i) {
          var k :| FailsAt(st.reading, lines, k);
          assert k != 0;
          ShiftPast(st.reading, lines, k);
          assert FailsAt(next.reading, rest, k - 1);
        }
    }
  }

  /** The first line fails the load exactly when its step fails; otherwise
      the load is reading afterwards if it was or the line is a marker. */
  lemma StepFailsAtFirst(st: LoadState, lines: seq<string>)
    requires lines != []
    ensures LoadStep(st, lines[0]).None? <==> FailsAt(st.reading, lines, 0)
    ensures LoadStep(st, lines[0]).Some? ==>
      LoadStep(st, lines[0]).value.reading == (st.reading || Contains(lines[0], SessionMarker))
    ensures LoadStep(st, lines[0]).Some? ==> LoadFeed(st, lines) == LoadFeed(LoadStep(st, lines[0]).value, lines[1..])
  {
    assert !MarkerBefore(lines, 0);
  }

  lemma ShiftPast(reading: bool, lines: seq<string>, i: int)
    requires |lines| > 0 && 1 <= i
    ensures FailsAt(reading, lines, i) <==> FailsAt(reading || Contains(lines[0], SessionMarker), lines[1..], i - 1)
  {
    if Contains(lines[0], SessionMarker) {
      ShiftPastMarker(reading, lines, i);
    } else {
      ShiftPastOther(reading, lines, i);
    }
  }

  /** The load fails exactly when a line after some session marker is a roll
      line whose value `stoi` rejects. */
  lemma {:induction false} LoadFailsIff(lines: seq<string>)
    ensures LoadedHistory(lines).None? <==>
      exists i :: 0 <= i < |lines| && BadRollLine(lines[i]) && MarkerBefore(lines, i)
  {
    LoadFeedFailsIff(LoadStart, lines);
    assert LoadedHistory(lines).None? <==> LoadFeed(LoadStart, lines).None?;
    forall i
      ensures FailsAt(false, lines, i) <==>
        (0 <= i < |lines| && BadRollLine(lines[i]) && MarkerBefore(lines, i))
    {
    }
  }
}
