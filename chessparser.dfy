/** `GameState` and the parts of `ChessParser` (`chess_parser.py`) that act
    on it: `process_moves`, which turns a finished game's move lines into
    CSV rows, and `should_reject_game`, which judges one header line. */
module ChessParser {
  import opened Results
  import opened PyText
  import opened Converters
  import opened MovePattern
  import opened RowEmitter

  /** The contents of a `GameState`, as a value. */
  datatype Game = Game(moves: seq<string>, metadata: map<string, string>, hasClkEval: bool, reject: bool, prev: Prev)

  /** A `GameState()` as constructed: no moves, no metadata, no flags, no
      clocks and an eval of 0.0. */
  function NewGame(): Game {
    Game([], map[], false, false, Prev(0.0, None, None))
  }

  /** The state of the game being read: its move lines and headers, and
      the fields `process_moves` carries from one move to the next. */
  class GameState {
    var moves: seq<string>
    var metadata: map<string, string>
    var hasClkEval: bool
    var reject: bool
    var prevWhiteClock: Option<int>
    var prevBlackClock: Option<int>
    var prevEval: real

    constructor()
      ensures Value() == NewGame()
    {
      moves := [];
      metadata := map[];
      hasClkEval := false;
      reject := false;
      prevWhiteClock := None;
      prevBlackClock := None;
      prevEval := 0.0;
    }

    function Value(): Game
      reads this
    {
      Game(moves, metadata, hasClkEval, reject, Carried())
    }

    /** The fields carried from one move to the next. */
    function Carried(): Prev
      reads this
    {
      Prev(prevEval, prevWhiteClock, prevBlackClock)
    }
  }

  /** The `csv_buffer` list the rows are appended to. */
  class RowBuffer {
    var rows: seq<Row>

    constructor()
      ensures rows == []
    {
      rows := [];
    }

    method Append(r: Row)
      modifies this
      ensures rows == old(rows) + [r]
    {
      rows := rows + [r];
    }

    method Clear()
      modifies this
      ensures rows == []
    {
      rows := [];
    }
  }

  /** `metadata.get('TimeControl', '0+0')`. */
  function TimeControlText(g: Game): string {
    if "TimeControl" in g.metadata then g.metadata["TimeControl"] else "0+0"
  }

  /** What `process_moves` does with a game: nothing for a game without
      moves, without clock and eval annotations, or rejected; otherwise the
      rows of every matched unit of every move line, in order. */
  function GameRows(g: Game): (e: Emission)
    ensures e.rows != [] ==> g.moves != [] && g.hasClkEval && !g.reject
    ensures e.outcome.Fail? ==> g.moves != [] && g.hasClkEval && !g.reject
  {
    if g.moves == [] || !g.hasClkEval || g.reject then Emission([], g.prev, Pass)
    else
      match ParseTimeControl(TimeControlText(g))
      case Err(err) => Emission([], g.prev, Fail(err))
      case Ok(tc) => EmitUnits(LinesUnits(g.moves), g.prev, tc, PyReaders())
  }

  /** `process_moves(state, csv_buffer, min_elo)`: the rows are appended to
      `csv`, the carried fields of `state` end as the rows leave them, and
      nothing else of `state` changes.  A conversion that raises is
      `Fail`, with the rows and fields as far as they got. */
  method ProcessMoves(state: GameState, csv: RowBuffer) returns (outcome: Outcome)
    modifies state`prevEval, state`prevWhiteClock, state`prevBlackClock, csv
    ensures csv.rows == old(csv.rows) + GameRows(old(state.Value())).rows
    ensures state.Carried() == GameRows(old(state.Value())).after
    ensures outcome == GameRows(old(state.Value())).outcome
  {
    ghost var g0 := state.Value();
    ghost var e := GameRows(g0);
    if state.moves == [] || !state.hasClkEval || state.reject {
      assert e == Emission([], g0.prev, Pass);
      return Pass;
    }
    var tcText := if "TimeControl" in state.metadata then state.metadata["TimeControl"] else "0+0";
    var parsed := ParseTimeControl(tcText);
    assert tcText == TimeControlText(g0);
    if parsed.Err? {
      assert e == Emission([], g0.prev, Fail(parsed.error));
      return Fail(parsed.error);
    }
    var tc := parsed.value;
    assert e == EmitUnits(LinesUnits(g0.moves), g0.prev, tc, PyReaders());
    ghost var rows0 := csv.rows;
    var i := 0;
    while i < |state.moves|
      invariant 0 <= i <= |g0.moves| && state.moves == g0.moves
      invariant state.Carried() == EmitUnits(LinesUnits(g0.moves[..i]), g0.prev, tc, PyReaders()).after
      invariant csv.rows == rows0 + EmitUnits(LinesUnits(g0.moves[..i]), g0.prev, tc, PyReaders()).rows
      invariant EmitUnits(LinesUnits(g0.moves[..i]), g0.prev, tc, PyReaders()).outcome.Pass?
    {
      var matches := Scan(state.moves[i]);
      ghost var before := csv.rows;
      outcome := ProcessLine(state, csv, matches, tc, PyReaders());
      AppendAssoc(rows0, EmitUnits(LinesUnits(g0.moves[..i]), g0.prev, tc, PyReaders()).rows, csv.rows[|before|..]);
      LinesStep(g0.moves, i, g0.prev, tc, PyReaders());
      if outcome.Fail? {
        assert EmitUnits(LinesUnits(g0.moves), g0.prev, tc, PyReaders()) == EmitUnits(LinesUnits(g0.moves[..i + 1]), g0.prev, tc, PyReaders());
        assert csv.rows == rows0 + e.rows;
        return;
      }
      i := i + 1;
    }
    LinesAll(g0.moves, i);
    return Pass;
  }

  /** The inner loop of `process_moves`: the matches of one move line, in
      order, from the fields the game carries. */
  method ProcessLine(state: GameState, csv: RowBuffer, matches: seq<MoveUnit>, tc: TimeControl, rd: Readers) returns (outcome: Outcome)
    modifies state`prevEval, state`prevWhiteClock, state`prevBlackClock, csv
    ensures csv.rows == old(csv.rows) + EmitUnits(matches, old(state.Carried()), tc, rd).rows
    ensures state.Carried() == EmitUnits(matches, old(state.Carried()), tc, rd).after
    ensures outcome == EmitUnits(matches, old(state.Carried()), tc, rd).outcome
  {
    ghost var p0 := state.Carried();
    outcome := Pass;
    var j := 0;
    while j < |matches|
      invariant 0 <= j <= |matches|
      invariant state.Carried() == EmitUnits(matches[..j], p0, tc, rd).after
      invariant csv.rows == old(csv.rows) + EmitUnits(matches[..j], p0, tc, rd).rows
      invariant EmitUnits(matches[..j], p0, tc, rd).outcome.Pass? && outcome == Pass
    {
      EmitStep(matches, j, p0, tc, rd);
      ghost var before := csv.rows;
      outcome := ProcessMatch(state, csv, matches[j], tc, rd);
      AppendAssoc(old(csv.rows), EmitUnits(matches[..j], p0, tc, rd).rows, csv.rows[|before|..]);
      if outcome.Fail? {
        return;
      }
      j := j + 1;
    }
    assert matches[..j] == matches;
  }

  /** The body of the inner loop of `process_moves`, for one match:
      white's row, then black's half. */
  method ProcessMatch(state: GameState, csv: RowBuffer, u: MoveUnit, tc: TimeControl, rd: Readers) returns (outcome: Outcome)
    modifies state`prevEval, state`prevWhiteClock, state`prevBlackClock, csv
    ensures csv.rows == old(csv.rows) + EmitUnit(u, old(state.Carried()), tc, rd).rows
    ensures state.Carried() == EmitUnit(u, old(state.Carried()), tc, rd).after
    ensures outcome == EmitUnit(u, old(state.Carried()), tc, rd).outcome
  {
    ghost var p := state.Carried();
    ghost var d := EmitUnit(u, p, tc, rd);
    var whiteClock := rd.clock(u.whiteClock);
    if whiteClock.Err? {
      assert d == Emission([], p, Fail(whiteClock.error));
      return Fail(whiteClock.error);
    }
    var whiteClockSecs := whiteClock.value;
    var whiteTimeSpent := (if state.prevWhiteClock.None? then tc.initial - whiteClockSecs
                           else state.prevWhiteClock.value - whiteClockSecs) + tc.increment;
    var whiteEval := rd.eval(u.whiteEval);
    if whiteEval.Err? {
      assert d == Emission([], p, Fail(whiteEval.error));
      return Fail(whiteEval.error);
    }
    var whiteRow := Row(u.number + "w", whiteEval.value, Max0(state.prevEval - whiteEval.value), whiteClockSecs, whiteTimeSpent);
    assert whiteTimeSpent == Spent(p.white, tc, whiteClockSecs);
    assert d == Combine(Emission([whiteRow], p, Pass), BlackRows(u, whiteClockSecs, Prev(whiteEval.value, p.white, p.black), tc, rd));
    csv.Append(whiteRow);
    state.prevEval := whiteEval.value;
    ghost var rows1 := csv.rows;
    ghost var b := BlackRows(u, whiteClockSecs, state.Carried(), tc, rd);
    assert state.Carried() == Prev(whiteEval.value, p.white, p.black);
    outcome := ProcessBlack(state, csv, u, whiteClockSecs, tc, rd);
    assert csv.rows == old(csv.rows) + [whiteRow] + b.rows;
    AppendAssoc(old(csv.rows), [whiteRow], b.rows);
  }

  /** The black half of the loop body of `process_moves`, once white's row
      is written: black's row when there is a black move, and then
      `prev_white_clock` takes white's clock `whiteClockSecs`. */
  method ProcessBlack(state: GameState, csv: RowBuffer, u: MoveUnit, whiteClockSecs: int, tc: TimeControl, rd: Readers) returns (outcome: Outcome)
    modifies state`prevEval, state`prevWhiteClock, state`prevBlackClock, csv
    ensures csv.rows == old(csv.rows) + BlackRows(u, whiteClockSecs, old(state.Carried()), tc, rd).rows
    ensures state.Carried() == BlackRows(u, whiteClockSecs, old(state.Carried()), tc, rd).after
    ensures outcome == BlackRows(u, whiteClockSecs, old(state.Carried()), tc, rd).outcome
  {
    ghost var q := state.Carried();
    ghost var d := BlackRows(u, whiteClockSecs, q, tc, rd);
    if u.blackMove != [] {
      var blackClock := rd.clock(u.blackClock);
      if blackClock.Err? {
        assert d == Emission([], q, Fail(blackClock.error));
        return Fail(blackClock.error);
      }
      var blackClockSecs := blackClock.value;
      var blackTimeSpent := (if state.prevBlackClock.None? then tc.initial - blackClockSecs
                             else state.prevBlackClock.value - blackClockSecs) + tc.increment;
      var blackEval := rd.eval(u.blackEval);
      if blackEval.Err? {
        assert d == Emission([], q, Fail(blackEval.error));
        return Fail(blackEval.error);
      }
      var blackRow := Row(u.number + "b", blackEval.value, Max0(blackEval.value - state.prevEval), blackClockSecs, blackTimeSpent);
      assert blackTimeSpent == Spent(q.black, tc, blackClockSecs);
      assert d == Emission([blackRow], Prev(blackEval.value, Some(whiteClockSecs), Some(blackClockSecs)), Pass);
      csv.Append(blackRow);
      state.prevEval := blackEval.value;
      state.prevBlackClock := Some(blackClockSecs);
    } else {
      assert d == Emission([], Prev(q.eval, Some(whiteClockSecs), q.black), Pass);
    }
    state.prevWhiteClock := Some(whiteClockSecs);
    return Pass;
  }

  /** A game with no `TimeControl` header is read as `0+0`. */
  lemma {:induction false} DefaultTimeControl(g: Game)
    requires "TimeControl" !in g.metadata
    ensures ParseTimeControl(TimeControlText(g)) == Ok(TimeControl(0, 0))
  {
    assert IntText(0) + "+" + IntText(0) + "" == "0+0";
    TimeControlOfText(0, 0, "");
  }

  /** The rows of a played game: read off its units in order, each following
      from the rows before it, with no negative loss, and the carried fields
      afterwards summarising them when nothing raised. */
  lemma {:induction false} GameRowsMeaning(g: Game, tc: TimeControl)
    requires g.moves != [] && g.hasClkEval && !g.reject
    requires ParseTimeControl(TimeControlText(g)) == Ok(tc)
    ensures ReadOff(GameRows(g), Readings(LinesUnits(g.moves)), PyReaders())
    ensures GameRows(g).outcome.Fail? ==> GameRows(g).outcome.error == ValueError
    ensures Consistent(GameRows(g).rows, g.prev, tc)
    ensures forall k :: 0 <= k < |GameRows(g).rows| ==> GameRows(g).rows[k].loss >= 0.0
    ensures GameRows(g).outcome.Pass? ==> GameRows(g).after == Summary(GameRows(g).rows, g.prev)
  {
    var us := LinesUnits(g.moves);
    var e := EmitUnits(us, g.prev, tc, PyReaders());
    assert GameRows(g) == e;
    EmitReadOff(us, g.prev, tc, PyReaders());
    if e.outcome.Fail? {
      var d := Readings(us)[|e.rows|];
      assert e.outcome.error == ReadError(d, PyReaders());
      PyReadsValueErrors(d);
    }
    EmitFollows(us, g.prev, tc, PyReaders());
    LossNonNegative(us, g.prev, tc, PyReaders());
  }

  /** `clock_to_seconds` and `parse_eval` raise only `ValueError`. */
  lemma {:induction false} PyReadsValueErrors(d: Reading)
    ensures ReadError(d, PyReaders()) == ValueError
  {
    var c := ClockToSeconds(d.clockText);
    var v := ParseEval(d.evalText);
    assert c.Err? ==> c.error == ValueError;
    assert v.Err? ==> v.error == ValueError;
  }


  // ---------------------------------------------------------------------
  // should_reject_game

  /** `should_reject_game(line, state, min_elo)`: an Elo header below
      `min_elo`, or a `Termination` header mentioning `Abandoned`. An Elo
      header whose value cannot be read raises. */
  function ShouldRejectGame(line: string, minElo: int): (r: Result<bool>)
    ensures r.Err? ==> StartsWith(line, "[WhiteElo") || StartsWith(line, "[BlackElo")
    ensures !StartsWith(line, "[WhiteElo") && !StartsWith(line, "[BlackElo") && !StartsWith(line, "[Termination") ==> r == Ok(false)
  {
    if StartsWith(line, "[WhiteElo") || StartsWith(line, "[BlackElo") then
      var parts := Split(line, '"');
      if |parts| < 2 then Err(IndexError)
      else
        var elo :- ParseInt(parts[1]);
        Ok(elo < minElo)
    else if StartsWith(line, "[Termination") then Ok(Contains(line, "Abandoned"))
    else Ok(false)
  }

  /** A quoted rating is compared with `min_elo`. */
  lemma {:induction false} EloVerdict(key: string, rest: string, n: int, tail: string, minElo: int)
    requires key == "[WhiteElo" || key == "[BlackElo"
    requires '"' !in rest
    ensures ShouldRejectGame(key + rest + "\"" + IntText(n) + "\"" + tail, minElo) == Ok(n < minElo)
  {
    var line := key + rest + "\"" + IntText(n) + "\"" + tail;
    assert StartsWith(line, key) by {
      assert line[..|key|] == key;
    }
    assert |Split(line, '"')| >= 2 && Split(line, '"')[1] == IntText(n) by {
      EloParts(key + rest, n, tail);
    }
    ParseIntOfInt(n);
  }

  /** The second `"`-separated field of such a line is the rating. */
  lemma {:induction false} EloParts(head: string, n: int, tail: string)
    requires '"' !in head
    ensures var parts := Split(head + "\"" + IntText(n) + "\"" + tail, '"');
            |parts| >= 2 && parts[1] == IntText(n)
  {
    IntTextFree(n);
    assert head + "\"" + IntText(n) + "\"" + tail == head + ['"'] + (IntText(n) + ['"'] + tail);
    SplitPrefix(head, IntText(n) + ['"'] + tail, '"');
    SplitPrefix(IntText(n), tail, '"');
  }

  /** An Elo header without a quote has no value field: `IndexError`. */
  lemma {:induction false} EloUnquoted(line: string, minElo: int)
    requires StartsWith(line, "[WhiteElo") || StartsWith(line, "[BlackElo")
    requires '"' !in line
    ensures ShouldRejectGame(line, minElo) == Err(IndexError)
  {
    SplitOfFree(line, '"');
  }

  /** A `Termination` header rejects exactly when it mentions `Abandoned`. */
  lemma {:induction false} TerminationVerdict(line: string, minElo: int)
    requires StartsWith(line, "[Termination")
    ensures ShouldRejectGame(line, minElo) == Ok(Contains(line, "Abandoned"))
  {
    assert !StartsWith(line, "[WhiteElo") by {
      assert line[1] == 'T';
    }
    assert !StartsWith(line, "[BlackElo") by {
      assert line[1] == 'T';
    }
  }
}
