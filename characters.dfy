/** The main program's `Personagem`: a character's current session of
    rolls, the history of every recorded session, and the means computed
    over them. The history file is handed in and out as its sequence of
    lines; opening, reading and writing the file are not modelled. */
module Characters {
  import opened Wrappers
  import opened Decimal
  import opened Strings
  import opened IntParsing
  import opened HistoryFormat
  import opened Statistics
  import opened Sequences

  /** The faces of the die: the distribution has an entry for each. */
  const MinRoll: int := 1
  const MaxRoll: int := 20

  /** The figures `processar` writes to a character's statistics file. */
  datatype Report = Report(
    sessionRolls: nat,
    dailyMean: real,
    sessions: nat,
    totalRolls: nat,
    totalMean: real,
    distribution: map<int, real>,
    rolls: seq<Int32>)

  class Character {
    const name: string
    /** `rolagens`: the rolls of the current session. */
    var rolls: seq<Int32>
    /** `historicoRolagens`: every recorded session, oldest first. */
    var history: seq<seq<Int32>>
    /** `mediaDiaria` and `mediaTotal`. */
    var dailyMean: real
    var totalMean: real

    /** Only non-empty sessions are ever recorded or loaded. */
    predicate Valid()
      reads this
    {
      NoEmptySession(history)
    }

    /** The field initialisation of the constructor; the history file is
        then loaded by `LoadHistory` (see `Open`). */
    constructor(name: string)
      ensures this.name == name
      ensures rolls == [] && history == []
      ensures dailyMean == 0.0 && totalMean == 0.0
      ensures Valid()
    {
      this.name := name;
      rolls := [];
      history := [];
      dailyMean := 0.0;
      totalMean := 0.0;
    }

    /** `carregarHistorico`: `file` is the file's lines, or `None` when it
        does not exist. The sessions read are appended to the history;
        `ok` is false when `stoi` throws on a roll line, which ends the
        program with the sessions read so far in place. */
    method LoadHistory(file: Option<seq<string>>) returns (ok: bool)
      requires Valid()
      modifies this
      ensures Valid()
      ensures rolls == old(rolls) && dailyMean == old(dailyMean) && totalMean == old(totalMean)
      ensures file.None? ==> ok && history == old(history)
      ensures file.Some? ==> (ok <==> LoadedHistory(file.value).Some?)
      ensures file.Some? && ok ==> history == old(history) + LoadedHistory(file.value).value
      ensures old(history) <= history
    {
      if file.None? {
        return true;
      }
      var lines := file.value;
      ghost var start := LoadState(false, [], old(history));
      LoadFeedWithEarlier(LoadStart, old(history), lines);
      assert WithEarlier(LoadStart, old(history)) == start;
      var current: seq<Int32> := [];
      var reading := false;
      var i := 0;
      while i < |lines|
        invariant 0 <= i <= |lines|
        invariant rolls == old(rolls) && dailyMean == old(dailyMean) && totalMean == old(totalMean)
        invariant old(history) <= history
        invariant NoEmptySession(history)
        invariant LoadFeed(LoadState(reading, current, history), lines[i..]) == LoadFeed(start, lines)
      {
        LoadFeedAt(LoadState(reading, current, history), lines, i);
        ok, reading, current := LoadLine(reading, current, lines[i]);
        if !ok {
          return;
        }
        i := i + 1;
      }
      if current != [] {
        history := history + [current];
      }
      ok := true;
      var final := LoadFeed(LoadStart, lines).value;
      FlushedWithEarlier(final, old(history));
    }

    /** The body of the loop of `carregarHistorico` on one line: a session
        marker stores the session being read, if it is not empty, and
        starts the next; a roll line of a session adds its value. `ok` is
        false when `stoi` throws. */
    method LoadLine(reading: bool, current: seq<Int32>, line: string)
      returns (ok: bool, reading': bool, current': seq<Int32>)
      requires NoEmptySession(history)
      modifies this
      ensures NoEmptySession(history)
      ensures rolls == old(rolls) && dailyMean == old(dailyMean) && totalMean == old(totalMean)
      ensures old(history) <= history
      ensures ok <==> LoadStep(LoadState(reading, current, old(history)), line).Some?
      ensures ok ==> LoadStep(LoadState(reading, current, old(history)), line) == Some(LoadState(reading', current', history))
    {
      ok, reading', current' := true, reading, current;
      if Contains(line, SessionMarker) {
        if current != [] {
          history := history + [current];
          current' := [];
        }
        reading' := true;
      } else if reading && Contains(line, RollMarker) {
        var pos := LastIndexOf(line, ':');
        if pos.Some? {
          var value := Stoi(line[pos.value + 1..]);
          if value.None? {
            ok := false;
          } else {
            current' := current + [value.value];
          }
        }
      }
    }

    /** `salvarHistorico`: the lines of the history file. */
    method SaveHistory() returns (lines: seq<string>)
      ensures lines == HistoryText(name, history)
    {
      lines := [HeaderLine(name), ""];
      var i := 0;
      while i < |history|
        invariant 0 <= i <= |history|
        invariant lines == HistoryText(name, history[..i])
      {
        lines := WriteSession(lines, i + 1, history[i]);
        HistoryTextSnoc(name, history, i);
        i := i + 1;
      }
      assert history[..i] == history;
    }

    /** `setRolagem`: the rolls become the current session and its mean
        the daily mean; a non-empty session is appended to the history and
        the total mean recomputed over every recorded roll. */
    method RecordSession(r: seq<Int32>)
      requires Valid()
      modifies this
      ensures Valid()
      ensures rolls == r && dailyMean == Mean(r)
      ensures r == [] ==> history == old(history) && totalMean == old(totalMean)
      ensures r != [] ==> history == old(history) + [r] && totalMean == Mean(Flatten(history))
    {
      rolls := r;
      SetDailyMean(r);
      UpdateTotalMean();
    }

    /** `setMediaDiaria`, without the standard deviation and variance. */
    method SetDailyMean(r: seq<Int32>)
      modifies this
      ensures dailyMean == Mean(r)
      ensures rolls == old(rolls) && history == old(history) && totalMean == old(totalMean)
    {
      dailyMean := ComputeMean(r);
    }

    /** `atualizarMediaTotal`, without the standard deviation and variance. */
    method UpdateTotalMean()
      requires Valid()
      modifies this
      ensures Valid()
      ensures rolls == old(rolls) && dailyMean == old(dailyMean)
      ensures rolls == [] ==> history == old(history) && totalMean == old(totalMean)
      ensures rolls != [] ==> history == old(history) + [rolls] && totalMean == Mean(Flatten(history))
    {
      if rolls == [] {
        return;
      }
      history := history + [rolls];
      var all: seq<int> := [];
      var i := 0;
      while i < |history|
        invariant 0 <= i <= |history|
        invariant all == Flatten(history[..i])
      {
        assert history[..i + 1][..i] == history[..i];
        all := all + history[i];
        i := i + 1;
      }
      assert history[..i] == history;
      totalMean := ComputeMean(all);
    }

    /** The counting loops of `calcularDistribuicaoNormal`: an entry for
        every face of the die and for every other value rolled, holding the
        number of current rolls equal to it. */
    method CountRolls() returns (counts: map<int, nat>)
      ensures forall k :: k in counts <==> (MinRoll <= k <= MaxRoll || k in rolls)
      ensures forall k :: k in counts ==> counts[k] == Count(rolls, k)
    {
      counts := map[];
      var k := MinRoll;
      while k <= MaxRoll
        invariant MinRoll <= k <= MaxRoll + 1
        invariant forall x :: x in counts <==> MinRoll <= x < k
        invariant forall x :: x in counts ==> counts[x] == 0
      {
        counts := counts[k := 0];
        k := k + 1;
      }
      var i := 0;
      while i < |rolls|
        invariant 0 <= i <= |rolls|
        invariant forall x :: x in counts <==> (MinRoll <= x <= MaxRoll || x in rolls[..i])
        invariant forall x :: x in counts ==> counts[x] == Count(rolls[..i], x)
      {
        var value := rolls[i];
        assert rolls[..i + 1] == rolls[..i] + [value];
        forall x {
          CountSnoc(rolls[..i], value, x);
        }
        if value !in counts {
          CountIsMultiplicity(rolls[..i], value);
        }
        var seen := if value in counts then counts[value] else 0;
        counts := counts[value := seen + 1];
        i := i + 1;
      }
      assert rolls[..i] == rolls;
    }

    /** `calcularDistribuicaoNormal`: the counts, turned into percentages
        of the number of current rolls when there are any. */
    method Distribution() returns (dist: map<int, real>)
      ensures forall k :: k in dist <==> (MinRoll <= k <= MaxRoll || k in rolls)
      ensures forall k :: k in dist ==> dist[k] == Percentage(Count(rolls, k), |rolls|)
    {
      var counts := CountRolls();
      var total := |rolls|;
      if total > 0 {
        dist := map k | k in counts :: (counts[k] as real / total as real) * 100.0;
      } else {
        dist := map k | k in counts :: counts[k] as real;
      }
    }

    /** The loop of `processar` that adds up the sizes of all sessions: the
        number of rolls in all sessions together. */
    method TotalRollCount() returns (n: nat)
      ensures n == SizesSum(history)
      ensures n == |Flatten(history)|
    {
      n := 0;
      var i := 0;
      while i < |history|
        invariant 0 <= i <= |history|
        invariant n == SizesSum(history[..i])
      {
        assert history[..i + 1][..i] == history[..i];
        n := n + |history[i]|;
        i := i + 1;
      }
      assert history[..i] == history;
      FlattenLength(history);
    }

    /** `processar`: the statistics it writes, then the lines of the history
        file it saves. */
    method Process() returns (report: Report, lines: seq<string>)
      ensures report.sessionRolls == |rolls| && report.rolls == rolls
      ensures report.dailyMean == dailyMean && report.totalMean == totalMean
      ensures report.sessions == |history|
      ensures report.totalRolls == |Flatten(history)|
      ensures forall k :: k in report.distribution <==> (MinRoll <= k <= MaxRoll || k in rolls)
      ensures forall k :: k in report.distribution ==>
        report.distribution[k] == Percentage(Count(rolls, k), |rolls|)
      ensures lines == HistoryText(name, history)
    {
      var dist := Distribution();
      var total := TotalRollCount();
      report := Report(|rolls|, dailyMean, |history|, total, totalMean, dist, rolls);
      lines := SaveHistory();
    }
  }

  /** One pass of the outer loop of `salvarHistorico`: the marker line of
      session number `k`, its roll lines, and a blank line. */
  method WriteSession(lines: seq<string>, k: nat, session: seq<Int32>) returns (out: seq<string>)
    ensures out == lines + SessionBlock(k, session)
  {
    out := lines + [SessionLine(k)];
    var j := 0;
    while j < |session|
      invariant 0 <= j <= |session|
      invariant out == lines + [SessionLine(k)] + RollLines(session[..j])
    {
      RollLinesSnoc(session, j);
      out := out + [RollLine(j + 1, session[j])];
      j := j + 1;
    }
    assert session[..j] == session;
    BlockJoin(lines, [SessionLine(k)], RollLines(session), [""]);
    out := out + [""];
  }

  /** `Personagem`'s constructor as a whole: the fields are initialised and
      the history file loaded. `ok` is false when the load throws. */
  method Open(name: string, file: Option<seq<string>>) returns (c: Character, ok: bool)
    ensures fresh(c) && c.name == name && c.Valid()
    ensures c.rolls == [] && c.dailyMean == 0.0 && c.totalMean == 0.0
    ensures ok <==> (file.None? || LoadedHistory(file.value).Some?)
    ensures ok ==> c.history == (if file.None? then [] else LoadedHistory(file.value).value)
  {
    c := new Character(name);
    ok := c.LoadHistory(file);
    if file.Some? && ok {
      EmptyPlus(LoadedHistory(file.value).value);
    }
  }

  lemma LoadFeedAt(st: LoadState, lines: seq<string>, i: nat)
    requires i < |lines|
    ensures LoadStep(st, lines[i]).None? ==> LoadFeed(st, lines[i..]).None?
    ensures LoadStep(st, lines[i]).Some? ==> LoadFeed(st, lines[i..]) == LoadFeed(LoadStep(st, lines[i]).value, lines[i + 1..])
  {
    assert lines[i..][0] == lines[i] && lines[i..][1..] == lines[i + 1..];
  }

  /** A character whose history was saved, opened again from that file,
      has the same history. */
  method SaveThenReopen(c: Character) returns (d: Character)
    requires c.Valid()
    ensures fresh(d) && d.name == c.name && d.history == c.history
  {
    var lines := c.SaveHistory();
    var ok;
    d, ok := Open(c.name, Some(lines));
    LoadAfterSaveIdentity(c.name, c.history);
  }

  // ---------------------------------------------------------------------
  // Sequence facts for the loops of `SaveHistory`

  lemma RollLinesSnoc(s: seq<Int32>, j: nat)
    requires j < |s|
    ensures RollLines(s[..j + 1]) == RollLines(s[..j]) + [RollLine(j + 1, s[j])]
  {
    assert s[..j + 1][..j] == s[..j];
  }

  lemma BlockJoin(a: seq<string>, b: seq<string>, c: seq<string>, d: seq<string>)
    ensures a + b + c + d == a + (b + c + d)
  {
  }

  lemma HistoryTextSnoc(name: string, h: seq<seq<Int32>>, i: nat)
    requires i < |h|
    ensures HistoryText(name, h[..i + 1]) == HistoryText(name, h[..i]) + SessionBlock(i + 1, h[i])
  {
    assert h[..i + 1][..i] == h[..i];
    var pre := [HeaderLine(name), ""];
    assert pre + (SessionBlocks(h[..i]) + SessionBlock(i + 1, h[i]))
        == (pre + SessionBlocks(h[..i])) + SessionBlock(i + 1, h[i]);
  }
}
