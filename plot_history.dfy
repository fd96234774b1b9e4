/** `extrair_historico` of the plotting script: a second reader of the
    history file, with a session counter instead of a reading flag. The
    file is modelled as the list `conteudo.split('\n')` returns. */
module PlotHistory {
  import opened Wrappers
  import opened Decimal
  import opened Strings
  import opened IntParsing
  import opened HistoryFormat
  import opened Sequences

  /** One entry of the returned list: `{'sessao': session, 'rolagens': rolls}`. */
  datatype NumberedSession = NumberedSession(session: nat, rolls: seq<int>)

  /** The loop variables: `sessao_atual`, `sessao_num` and `historico`. */
  datatype PyState = PyState(current: seq<int>, number: nat, history: seq<NumberedSession>)

  const PyStart: PyState := PyState([], 0, [])

  /** The history once the session being read is stored, if it is not empty. */
  function PyFlushed(p: PyState): seq<NumberedSession> {
    if p.current == [] then p.history else p.history + [NumberedSession(p.number, p.current)]
  }

  /** The value Python reads from a roll line: `int(linha.split(':')[-1].strip())`. */
  function PyRollValue(line: string): Option<int> {
    PyInt(PyStrip(AfterLast(line, ':')))
  }

  /** One iteration of the loop on `line`; `None` is `int()` raising. */
  function PyStep(p: PyState, line: string): Option<PyState> {
    if Contains(line, SessionMarker) then
      Some(PyState([], p.number + 1, PyFlushed(p)))
    else if Contains(line, RollMarker) && ':' in line then
      match PyRollValue(line)
      case None => None
      case Some(v) => Some(p.(current := p.current + [v]))
    else
      Some(p)
  }

  function PyFeed(p: PyState, lines: seq<string>): Option<PyState>
    decreases |lines|
  {
    if lines == [] then Some(p)
    else
      match PyStep(p, lines[0])
      case None => None
      case Some(next) => PyFeed(next, lines[1..])
  }

  /** The loop and the final store; `None` when an exception is raised. */
  function ParsedHistory(lines: seq<string>): Option<seq<NumberedSession>> {
    match PyFeed(PyStart, lines)
    case None => None
    case Some(p) => Some(PyFlushed(p))
  }

  /** `extrair_historico`: `file` is the split text, or `None` when the file
      cannot be opened; every exception gives the empty list. */
  function ExtractHistory(file: Option<seq<string>>): seq<NumberedSession> {
    if file.None? then []
    else
      match ParsedHistory(file.value)
      case None => []
      case Some(h) => h
  }

  /** The loop of `extrair_historico`. */
  method ExtractHistoryLoop(file: Option<seq<string>>) returns (historico: seq<NumberedSession>)
    ensures historico == ExtractHistory(file)
  {
    if file.None? {
      return [];
    }
    var lines := file.value;
    historico := [];
    var current: seq<int> := [];
    var number: nat := 0;
    var i := 0;
    while i < |lines|
      invariant 0 <= i <= |lines|
      invariant PyFeed(PyState(current, number, historico), lines[i..]) == PyFeed(PyStart, lines)
    {
      PyFeedAt(PyState(current, number, historico), lines, i);
      var ok;
      ok, current, number, historico := ReadLine(current, number, historico, lines[i]);
      if !ok {
        return [];
      }
      i := i + 1;
    }
    if current != [] {
      historico := historico + [NumberedSession(number, current)];
    }
  }

  /** The body of the loop of `extrair_historico` on one line; `ok` is false
      when `int()` raises. */
  method ReadLine(current: seq<int>, number: nat, historico: seq<NumberedSession>, line: string)
    returns (ok: bool, current': seq<int>, number': nat, historico': seq<NumberedSession>)
    ensures ok <==> PyStep(PyState(current, number, historico), line).Some?
    ensures ok ==> PyStep(PyState(current, number, historico), line) == Some(PyState(current', number', historico'))
  {
    ghost var p := PyState(current, number, historico);
    ok, current', number', historico' := true, current, number, historico;
    if Contains(line, SessionMarker) {
      PyMarkerStep(p, line);
      if current != [] {
        historico' := historico + [NumberedSession(number, current)];
      }
      current' := [];
      number' := number + 1;
    } else if Contains(line, RollMarker) && ':' in line {
      PyRollStep(p, line);
      var value := PyInt(PyStrip(AfterLast(line, ':')));
      if value.None? {
        ok := false;
      } else {
        current' := current + [value.value];
      }
    } else {
      PyOtherStep(p, line);
    }
  }

  lemma PyMarkerStep(p: PyState, line: string)
    requires Contains(line, SessionMarker)
    ensures PyStep(p, line) == Some(PyState([], p.number + 1, PyFlushed(p)))
  {
  }

  lemma PyRollStep(p: PyState, line: string)
    requires !Contains(line, SessionMarker) && Contains(line, RollMarker) && ':' in line
    ensures PyRollValue(line).None? ==> PyStep(p, line).None?
    ensures PyRollValue(line).Some? ==> PyStep(p, line) == Some(p.(current := p.current + [PyRollValue(line).value]))
  {
  }

  lemma PyOtherStep(p: PyState, line: string)
    requires !Contains(line, SessionMarker) && !(Contains(line, RollMarker) && ':' in line)
    ensures PyStep(p, line) == Some(p)
  {
  }

  lemma PyFeedAt(p: PyState, lines: seq<string>, i: nat)
    requires i < |lines|
    ensures PyStep(p, lines[i]).None? ==> PyFeed(p, lines[i..]).None?
    ensures PyStep(p, lines[i]).Some? ==> PyFeed(p, lines[i..]) == PyFeed(PyStep(p, lines[i]).value, lines[i + 1..])
  {
    assert lines[i..][0] == lines[i] && lines[i..][1..] == lines[i + 1..];
  }

  // ---------------------------------------------------------------------
  // Numbering

  /** The number of session-marker lines. */
  function MarkerCount(lines: seq<string>): nat
    decreases |lines|
  {
    if lines == [] then 0
    else (if Contains(lines[0], SessionMarker) then 1 else 0) + MarkerCount(lines[1..])
  }

  predicate NoEmptyEntry(h: seq<NumberedSession>) {
    forall i :: 0 <= i < |h| ==> h[i].rolls != []
  }

  predicate StrictlyIncreasing(h: seq<NumberedSession>) {
    forall i, j :: 0 <= i < j < |h| ==> h[i].session < h[j].session
  }

  /** What the loop keeps true: stored sessions are non-empty, in strictly
      increasing order, and numbered below the counter. */
  predicate PyInv(p: PyState) {
    NoEmptyEntry(p.history) && StrictlyIncreasing(p.history)
    && forall i :: 0 <= i < |p.history| ==> p.history[i].session < p.number
  }

  lemma {:induction false} PyStepKeepsInv(p: PyState, line: string)
    requires PyInv(p)
    ensures PyStep(p, line).Some? ==> PyInv(PyStep(p, line).value)
    ensures PyStep(p, line).Some? ==>
      PyStep(p, line).value.number == p.number + (if Contains(line, SessionMarker) then 1 else 0)
  {
  }

  lemma {:induction false} PyFeedKeepsInv(p: PyState, lines: seq<string>)
    requires PyInv(p)
    ensures PyFeed(p, lines).Some? ==> PyInv(PyFeed(p, lines).value)
    ensures PyFeed(p, lines).Some? ==> PyFeed(p, lines).value.number == p.number + MarkerCount(lines)
    decreases |lines|
  {
    if lines != [] {
      PyStepKeepsInv(p, lines[0]);
      match PyStep(p, lines[0])
      case None =>
      case Some(next) => PyFeedKeepsInv(next, lines[1..]);
    }
  }

  /** Every stored session is non-empty; session numbers strictly increase
      (they skip the numbers of empty sessions) and none exceeds the number
      of session markers, since the counter goes up on every marker. */
  lemma {:induction false} ParsedHistoryNumbering(lines: seq<string>)
    ensures ParsedHistory(lines).Some? ==>
      var h := ParsedHistory(lines).value;
      NoEmptyEntry(h) && StrictlyIncreasing(h)
      && forall i :: 0 <= i < |h| ==> h[i].session <= MarkerCount(lines)
  {
    PyFeedKeepsInv(PyStart, lines);
  }

  /** Without any session marker, every roll read belongs to session 0. */
  lemma {:induction false} NoMarkerSessionZero(lines: seq<string>)
    requires forall i :: 0 <= i < |lines| ==> !Contains(lines[i], SessionMarker)
    ensures ParsedHistory(lines).Some? ==>
      forall i :: 0 <= i < |ParsedHistory(lines).value| ==> ParsedHistory(lines).value[i].session == 0
  {
    NoMarkerCount(lines);
    ParsedHistoryNumbering(lines);
  }

  /** Rolls read before the first session marker are stored by that marker
      as session 0, ahead of everything the rest of the file stores. */
  lemma {:induction false} RollsBeforeFirstMarker(pre: seq<string>, rest: seq<string>, q: PyState)
    requires forall i :: 0 <= i < |pre| ==> !Contains(pre[i], SessionMarker)
    requires rest != [] && Contains(rest[0], SessionMarker)
    requires PyFeed(PyStart, pre) == Some(q) && q.current != []
    ensures ParsedHistory(pre + rest).Some? ==>
      var h := ParsedHistory(pre + rest).value;
      |h| > 0 && h[0] == NumberedSession(0, q.current)
  {
    NoMarkerPrefixState(pre, q);
    PyFeedAppend(PyStart, pre, rest);
    FirstMarkerStores(q, rest);
  }

  /** Before any marker the counter is 0 and nothing is stored yet. */
  lemma NoMarkerPrefixState(pre: seq<string>, q: PyState)
    requires forall i :: 0 <= i < |pre| ==> !Contains(pre[i], SessionMarker)
    requires PyFeed(PyStart, pre) == Some(q)
    ensures q.number == 0 && q.history == []
  {
    NoMarkerCount(pre);
    PyFeedKeepsInv(PyStart, pre);
  }

  /** A marker met with rolls pending and nothing stored stores them first. */
  lemma FirstMarkerStores(q: PyState, rest: seq<string>)
    requires q.history == [] && q.current != []
    requires rest != [] && Contains(rest[0], SessionMarker)
    ensures PyFeed(q, rest).Some? ==>
      var h := PyFlushed(PyFeed(q, rest).value);
      |h| > 0 && h[0] == NumberedSession(q.number, q.current)
  {
    var stored := PyState([], q.number + 1, [NumberedSession(q.number, q.current)]);
    EmptyPlus([NumberedSession(q.number, q.current)]);
    PyMarkerStep(q, rest[0]);
    assert PyStep(q, rest[0]) == Some(stored);
    PyFeedAt(q, rest, 0);
    assert rest[0..] == rest;
    PyFeedExtendsHistory(stored, rest[1..]);
  }

  /** The loop only ever appends to the stored sessions. */
  lemma {:induction false} PyFeedExtendsHistory(p: PyState, lines: seq<string>)
    ensures PyFeed(p, lines).Some? ==> p.history <= PyFlushed(PyFeed(p, lines).value)
    decreases |lines|
  {
    if lines != [] {
      match PyStep(p, lines[0])
      case None =>
      case Some(next) =>
        assert p.history <= next.history;
        PyFeedExtendsHistory(next, lines[1..]);
    }
  }

  lemma {:induction false} NoMarkerCount(lines: seq<string>)
    requires forall i :: 0 <= i < |lines| ==> !Contains(lines[i], SessionMarker)
    ensures MarkerCount(lines) == 0
    decreases |lines|
  {
    if lines != [] {
      assert forall i :: 0 <= i < |lines| - 1 ==> lines[1..][i] == lines[i + 1];
      NoMarkerCount(lines[1..]);
    }
  }

  // ---------------------------------------------------------------------
  // Failure

  /** A roll line whose value `int()` rejects. */
  predicate PyBadRollLine(line: string) {
    RollLike(line) && PyRollValue(line).None?
  }

  lemma {:induction false} PyFeedFailsIff(p: PyState, lines: seq<string>)
    ensures PyFeed(p, lines).None? <==> exists i :: 0 <= i < |lines| && PyBadRollLine(lines[i])
    decreases |lines|
  {
    if lines != [] {
      var rest := lines[1..];
      assert forall i :: 0 <= i < |rest| ==> rest[i] == lines[i + 1];
      match PyStep(p, lines[0])
      case None =>
        assert PyBadRollLine(lines[0]);
      case Some(next) =>
        PyFeedFailsIff(next, rest);
        assert !PyBadRollLine(lines[0]);
        if exists i :: 0 <= i < |lines| && PyBadRollLine(lines[i]) {
          var k :| 0 <= k < |lines| && PyBadRollLine(lines[k]);
          assert k != 0;
          assert PyBadRollLine(rest[k - 1]);
        }
    }
  }

  /** The parse fails exactly when some roll line, wherever it is, holds a
      value `int()` rejects; the whole call then returns the empty list. */
  lemma {:induction false} ParseFailsIff(lines: seq<string>)
    ensures ParsedHistory(lines).None? <==> exists i :: 0 <= i < |lines| && PyBadRollLine(lines[i])
    ensures (exists i :: 0 <= i < |lines| && PyBadRollLine(lines[i])) ==> ExtractHistory(Some(lines)) == []
  {
    PyFeedFailsIff(PyStart, lines);
  }

  // ---------------------------------------------------------------------
  // Reading a file the main program saved

  /** The sessions of `h`, session `i` (0-based) numbered `base + i + 1`,
      without the empty ones. */
  function Numbered(base: nat, h: seq<seq<int>>): seq<NumberedSession> {
    if h == [] then []
    else
      var last := h[|h| - 1];
      Numbered(base, h[..|h| - 1]) + (if last == [] then [] else [NumberedSession(base + |h|, last)])
  }

  /** A header line neither parser reads: no marker and no ':'. */
  predicate HeaderIgnored(name: string) {
    !Contains(HeaderLine(name), SessionMarker) && ':' !in HeaderLine(name)
  }

  lemma {:induction false} PyRollLineStep(p: PyState, j: nat, v: Int32)
    ensures PyStep(p, RollLine(j, v)) == Some(p.(current := p.current + [v]))
  {
    RollLineShape(j, v);
    PyIntOfPaddedIntToString(" ", v, []);
    assert " " + IntToString(v) + [] == " " + IntToString(v);
  }

  lemma {:induction false} PyRollLinesFeed(p: PyState, s: seq<Int32>)
    ensures PyFeed(p, RollLines(s)) == Some(p.(current := p.current + s))
  {
    if s == [] {
      assert p.current + s == p.current;
    } else {
      var init := s[..|s| - 1];
      var last := s[|s| - 1];
      var line := RollLine(|s|, last);
      assert RollLines(s) == RollLines(init) + [line];
      PyRollLinesFeed(p, init);
      var mid := p.(current := p.current + init);
      PyFeedAppend(p, RollLines(init), [line]);
      PyRollLineStep(mid, |s|, last);
      var after := mid.(current := mid.current + [last]);
      assert PyFeed(mid, [line]) == PyFeed(after, []);
      AppendInitLast(p.current, s);
    }
  }

  lemma {:induction false} PyFeedAppend(p: PyState, a: seq<string>, b: seq<string>)
    ensures PyFeed(p, a + b) == match PyFeed(p, a)
                                case None => None
                                case Some(mid) => PyFeed(mid, b)
    decreases |a|
  {
    if a != [] {
      assert (a + b)[0] == a[0];
      assert (a + b)[1..] == a[1..] + b;
      match PyStep(p, a[0])
      case None =>
      case Some(next) => PyFeedAppend(next, a[1..], b);
    } else {
      assert a + b == b;
    }
  }

  lemma {:induction false} PySessionLineStep(p: PyState, k: nat)
    ensures PyStep(p, SessionLine(k)) == Some(PyState([], p.number + 1, PyFlushed(p)))
  {
    assert SessionMarker <= SessionLine(k);
    PrefixContained(SessionLine(k), SessionMarker);
  }

  lemma {:induction false} PyBlankLineStep(p: PyState)
    ensures PyStep(p, "") == Some(p)
  {
    TooShortAbsent("", SessionMarker);
  }

  lemma {:induction false} PySessionBlockFeed(p: PyState, k: nat, s: seq<Int32>)
    ensures PyFeed(p, SessionBlock(k, s)) == Some(PyState(s, p.number + 1, PyFlushed(p)))
  {
    var started := PyState([], p.number + 1, PyFlushed(p));
    PySessionLineStep(p, k);
    assert PyFeed(p, [SessionLine(k)]) == Some(started);
    PyFeedAppend(p, [SessionLine(k)], RollLines(s));
    PyRollLinesFeed(started, s);
    assert started.(current := started.current + s) == PyState(s, p.number + 1, PyFlushed(p));
    PyFeedAppend(p, [SessionLine(k)] + RollLines(s), [""]);
    PyBlankLineStep(PyState(s, p.number + 1, PyFlushed(p)));
  }

  lemma {:induction false} PySessionBlocksFeed(p: PyState, h: seq<seq<Int32>>)
    ensures PyFeed(p, SessionBlocks(h)).Some?
    ensures PyFeed(p, SessionBlocks(h)).value.number == p.number + |h|
    ensures PyFlushed(PyFeed(p, SessionBlocks(h)).value) == PyFlushed(p) + Numbered(p.number, h)
  {
    if h == [] {
      assert PyFlushed(p) + [] == PyFlushed(p);
    } else {
      var init := h[..|h| - 1];
      var last := h[|h| - 1];
      PySessionBlocksFeed(p, init);
      var mid := PyFeed(p, SessionBlocks(init)).value;
      var q := PyState(last, mid.number + 1, PyFlushed(mid));
      PySessionBlocksSnoc(p, h, mid);
      assert q.number == p.number + |h|;
      var tail := if last == [] then [] else [NumberedSession(p.number + |h|, last)];
      FlushedAsAppend(q);
      assert PyFlushed(q) == PyFlushed(mid) + tail;
      assert Numbered(p.number, h) == Numbered(p.number, init) + tail;
      Associate(PyFlushed(p), Numbered(p.number, init), tail);
      assert PyFlushed(q) == PyFlushed(p) + Numbered(p.number, h);
    }
  }

  lemma PySessionBlocksSnoc(p: PyState, h: seq<seq<Int32>>, mid: PyState)
    requires h != [] && PyFeed(p, SessionBlocks(h[..|h| - 1])) == Some(mid)
    ensures PyFeed(p, SessionBlocks(h)) == Some(PyState(h[|h| - 1], mid.number + 1, PyFlushed(mid)))
  {
    var init, last := h[..|h| - 1], h[|h| - 1];
    assert SessionBlocks(h) == SessionBlocks(init) + SessionBlock(|h|, last);
    PyFeedAppend(p, SessionBlocks(init), SessionBlock(|h|, last));
    PySessionBlockFeed(mid, |h|, last);
  }

  lemma FlushedAsAppend(q: PyState)
    ensures PyFlushed(q) == q.history + (if q.current == [] then [] else [NumberedSession(q.number, q.current)])
  {
    if q.current == [] {
      assert q.history + [] == q.history;
    }
  }

  lemma {:induction false} PyHeaderFeed(name: string)
    requires HeaderIgnored(name)
    ensures PyFeed(PyStart, [HeaderLine(name), ""]) == Some(PyStart)
  {
    PyFeedAppend(PyStart, [HeaderLine(name)], [""]);
    PyBlankLineStep(PyStart);
  }

  /** The plotting script reads a saved file (the text ends with a newline,
      so the split gives one more, empty, line) as every non-empty session
      of the history, session `i` (0-based) numbered `i + 1`, provided the
      header line holds neither a marker nor a ':'. */
  lemma {:induction false} ExtractAfterSave(name: string, h: seq<seq<Int32>>)
    requires HeaderIgnored(name)
    ensures ExtractHistory(Some(HistoryText(name, h) + [""])) == Numbered(0, h)
  {
    PyHeaderFeed(name);
    PyFeedAppend(PyStart, [HeaderLine(name), ""], SessionBlocks(h));
    PySessionBlocksFeed(PyStart, h);
    var end := PyFeed(PyStart, HistoryText(name, h)).value;
    PyFeedAppend(PyStart, HistoryText(name, h), [""]);
    PyBlankLineStep(end);
    assert [] + Numbered(0, h) == Numbered(0, h);
  }

  /** Without the numbers, what the script reads is what the main program
      loads. */
  lemma {:induction false} NumberedRolls(base: nat, h: seq<seq<Int32>>)
    ensures RollsOf(Numbered(base, h)) == NonEmptySessions(h)
  {
    if h != [] {
      var init := h[..|h| - 1];
      var last := h[|h| - 1];
      NumberedRolls(base, init);
      var tail := if last == [] then [] else [NumberedSession(base + |h|, last)];
      RollsOfAppend(Numbered(base, init), tail);
    }
  }

  /** For a history without empty sessions, entry `i` is session `i` of the
      history, numbered `i + 1`. */
  lemma {:induction false} NumberedAt(h: seq<seq<int>>)
    requires NoEmptySession(h)
    ensures |Numbered(0, h)| == |h|
    ensures forall i :: 0 <= i < |h| ==> Numbered(0, h)[i] == NumberedSession(i + 1, h[i])
  {
    if h != [] {
      var init := h[..|h| - 1];
      assert forall i :: 0 <= i < |init| ==> init[i] == h[i];
      NumberedAt(init);
      forall i | 0 <= i < |h|
        ensures Numbered(0, h)[i] == NumberedSession(i + 1, h[i])
      {
        if i < |h| - 1 {
          assert Numbered(0, h)[i] == Numbered(0, init)[i];
        }
      }
    }
  }

  /** The roll lists of the entries, in order. */
  function RollsOf(h: seq<NumberedSession>): (r: seq<seq<int>>)
    ensures |r| == |h|
  {
    if h == [] then [] else RollsOf(h[..|h| - 1]) + [h[|h| - 1].rolls]
  }

  lemma {:induction false} RollsOfAppend(a: seq<NumberedSession>, b: seq<NumberedSession>)
    ensures RollsOf(a + b) == RollsOf(a) + RollsOf(b)
    decreases |b|
  {
    if b == [] {
      assert a + b == a;
    } else {
      var init := b[..|b| - 1];
      RollsOfAppend(a, init);
      assert (a + b)[..|a + b| - 1] == a + init;
      assert (a + b)[|a + b| - 1] == b[|b| - 1];
    }
  }

  /** The names of the main program's characters. */
  const Roster: seq<string> := ["Nicolle", "Jaeyk", "Thorne", "Riley", "Imugi", "Dean", "Mestre"]

  lemma {:induction false} PlainNameIgnored(name: string)
    requires 'S' !in name && ':' !in name
    ensures HeaderIgnored(name)
  {
    var line := HeaderLine(name);
    assert 'S' !in HeaderPrefix && ':' !in HeaderPrefix;
    assert forall c :: c in line ==> c in HeaderPrefix || c in name;
    FirstCharAbsent(line, SessionMarker);
  }

  /** Every character's saved file is read back by the script. */
  lemma RosterHeadersIgnored()
    ensures forall i :: 0 <= i < |Roster| ==> HeaderIgnored(Roster[i])
  {
    forall i | 0 <= i < |Roster|
      ensures HeaderIgnored(Roster[i])
    {
      PlainNameIgnored(Roster[i]);
    }
  }
}
