/** The rows `process_moves` (`chess_parser.py`) derives from the matched
    units of a finished game, as a specification the imperative model
    follows, together with what the rows mean: each row is fixed by the
    unit it reads and by the rows before it. */
module RowEmitter {
  import opened Results
  import opened Converters
  import opened MovePattern

  /** One CSV row: `Move Number`, `Eval`, `Centipawn Loss`, `Time Left`,
      `Time Spent`. */
  datatype Row = Row(move: string, eval: real, loss: real, timeLeft: int, timeSpent: int)

  /** The three carried fields of a game: `prev_eval`, `prev_white_clock`,
      `prev_black_clock`. */
  datatype Prev = Prev(eval: real, white: Option<int>, black: Option<int>)

  /** The rows appended, the carried fields afterwards, and whether the run
      reached the end or raised. */
  datatype Emission = Emission(rows: seq<Row>, after: Prev, outcome: Outcome)

  /** Python's `max(0, x)`. */
  function Max0(x: real): (r: real)
    ensures r >= 0.0 && r >= x && (r == x || r == 0.0)
  {
    if x > 0.0 then x else 0.0
  }

  /** Time spent on a move: the side's previous clock (or the initial time
      for its first move) minus the clock now, plus the increment.  It is not
      clamped. */
  function Spent(prev: Option<int>, tc: TimeControl, clock: int): int {
    (match prev case None => tc.initial - clock case Some(c) => c - clock) + tc.increment
  }

  /** How clock and eval texts are read: `clock_to_seconds` and
      `parse_eval` in the program (`PyReaders`).  The rows are defined for
      any readers, so that what is proved about them does not depend on the
      text formats. */
  datatype Readers = Readers(clock: string -> Result<int>, eval: string -> Result<real>)

  function PyReaders(): Readers {
    Readers(ClockToSeconds, ParseEval)
  }

  /** The loop body of `process_moves` for one unit: white's clock and eval
      are read and its row written, then black's half follows; a reading
      that raises stops it where it stands. */
  function EmitUnit(u: MoveUnit, p: Prev, tc: TimeControl, rd: Readers): Emission {
    match rd.clock(u.whiteClock)
    case Err(e) => Emission([], p, Fail(e))
    case Ok(wc) =>
      match rd.eval(u.whiteEval)
      case Err(e) => Emission([], p, Fail(e))
      case Ok(we) =>
        var wr := Row(u.number + "w", we, Max0(p.eval - we), wc, Spent(p.white, tc, wc));
        Combine(Emission([wr], p, Pass), BlackRows(u, wc, Prev(we, p.white, p.black), tc, rd))
  }

  /** The rest of the unit after white's row, from the fields as that row
      leaves them (`prev_eval` updated, `prev_white_clock` not yet): black's
      row if black's move text is non-empty, and then white's clock `wc` is
      carried. */
  function BlackRows(u: MoveUnit, wc: int, q: Prev, tc: TimeControl, rd: Readers): Emission {
    if u.blackMove == [] then Emission([], Prev(q.eval, Some(wc), q.black), Pass)
    else
      match rd.clock(u.blackClock)
      case Err(e) => Emission([], q, Fail(e))
      case Ok(bc) =>
        match rd.eval(u.blackEval)
        case Err(e) => Emission([], q, Fail(e))
        case Ok(be) =>
          var br := Row(u.number + "b", be, Max0(be - q.eval), bc, Spent(q.black, tc, bc));
          Emission([br], Prev(be, Some(wc), Some(bc)), Pass)
  }

  /** The units in order, each through `step`, from the carried fields
      `p0`; nothing after the first unit that raises. */
  function Run(us: seq<MoveUnit>, p0: Prev, step: (MoveUnit, Prev) -> Emission): Emission {
    if us == [] then Emission([], p0, Pass) else Then(Run(us[..|us| - 1], p0, step), us[|us| - 1], step)
  }

  /** One more unit after the emission `e`, unless `e` already raised. */
  function Then(e: Emission, u: MoveUnit, step: (MoveUnit, Prev) -> Emission): Emission {
    if e.outcome.Fail? then e else Combine(e, step(u, e.after))
  }

  /** `f` carried on after `e`: both rows, and where `f` ends. */
  function Combine(e: Emission, f: Emission): Emission {
    Emission(e.rows + f.rows, f.after, f.outcome)
  }

  function UnitStep(tc: TimeControl, rd: Readers): (MoveUnit, Prev) -> Emission {
    (u, p) => EmitUnit(u, p, tc, rd)
  }

  /** The rows of the units `us` of one game, in order. */
  function EmitUnits(us: seq<MoveUnit>, p0: Prev, tc: TimeControl, rd: Readers): Emission {
    Run(us, p0, UnitStep(tc, rd))
  }

  /** The matches of each move line. */
  function ScanLines(lines: seq<string>): seq<seq<MoveUnit>> {
    seq(|lines|, k requires 0 <= k < |lines| => Scan(lines[k]))
  }

  /** The units of several move lines: each line's matches, line by line. */
  function LinesUnits(lines: seq<string>): seq<MoveUnit> {
    Flatten(ScanLines(lines))
  }

  function Flatten<T>(xss: seq<seq<T>>): seq<T> {
    if xss == [] then [] else Flatten(xss[..|xss| - 1]) + xss[|xss| - 1]
  }

  // ---------------------------------------------------------------------
  // What the rows mean

  predicate IsWhiteRow(r: Row) {
    r.move != [] && r.move[|r.move| - 1] == 'w'
  }

  /** The carried fields as the rows so far leave them: the last eval, and
      each side's last clock. */
  function Summary(rows: seq<Row>, p0: Prev): Prev {
    if rows == [] then p0
    else
      var s := Summary(rows[..|rows| - 1], p0);
      var r := rows[|rows| - 1];
      if IsWhiteRow(r) then Prev(r.eval, Some(r.timeLeft), s.black)
      else Prev(r.eval, s.white, Some(r.timeLeft))
  }

  /** A row's loss and time spent, given the carried fields before it. */
  predicate RowFollows(r: Row, p: Prev, tc: TimeControl) {
    if IsWhiteRow(r) then r.loss == Max0(p.eval - r.eval) && r.timeSpent == Spent(p.white, tc, r.timeLeft)
    else r.loss == Max0(r.eval - p.eval) && r.timeSpent == Spent(p.black, tc, r.timeLeft)
  }

  /** Every row follows from the rows before it. */
  predicate Consistent(rows: seq<Row>, p0: Prev, tc: TimeControl) {
    forall k :: 0 <= k < |rows| ==> RowFollows(rows[k], Summary(rows[..k], p0), tc)
  }

  /** The text a row is read from: its move, and its eval and clock texts. */
  datatype Reading = Reading(move: string, evalText: string, clockText: string)

  function UnitReadings(u: MoveUnit): seq<Reading> {
    [Reading(u.number + "w", u.whiteEval, u.whiteClock)]
    + (if u.blackMove != [] then [Reading(u.number + "b", u.blackEval, u.blackClock)] else [])
  }

  function Readings(us: seq<MoveUnit>): seq<Reading> {
    if us == [] then [] else Readings(us[..|us| - 1]) + UnitReadings(us[|us| - 1])
  }

  predicate Readable(d: Reading, rd: Readers) {
    rd.clock(d.clockText).Ok? && rd.eval(d.evalText).Ok?
  }

  /** What reading `d` raises: the clock is read first. */
  function ReadError(d: Reading, rd: Readers): Error {
    if rd.clock(d.clockText).Err? then rd.clock(d.clockText).error
    else if rd.eval(d.evalText).Err? then rd.eval(d.evalText).error
    else ValueError
  }

  predicate ReadsAs(r: Row, d: Reading, rd: Readers) {
    r.move == d.move && rd.clock(d.clockText) == Ok(r.timeLeft) && rd.eval(d.evalText) == Ok(r.eval)
  }

  /** The rows are the readings in order, each converted; the run passes
      exactly when every reading converts, and otherwise stops at the first
      that does not. */
  predicate ReadOff(e: Emission, ds: seq<Reading>, rd: Readers) {
    |e.rows| <= |ds|
    && (forall k :: 0 <= k < |e.rows| ==> ReadsAs(e.rows[k], ds[k], rd))
    && (e.outcome.Pass? ==> |e.rows| == |ds| && forall k :: 0 <= k < |ds| ==> Readable(ds[k], rd))
    && (e.outcome.Fail? ==> |e.rows| < |ds| && !Readable(ds[|e.rows|], rd) && e.outcome.error == ReadError(ds[|e.rows|], rd))
  }

  lemma {:induction false} UnitReadOff(u: MoveUnit, p: Prev, tc: TimeControl, rd: Readers)
    ensures ReadOff(EmitUnit(u, p, tc, rd), UnitReadings(u), rd)
  {
  }

  lemma {:induction false} UnitFollows(u: MoveUnit, p: Prev, tc: TimeControl, rd: Readers, before: seq<Row>, p0: Prev)
    requires Summary(before, p0) == p
    ensures Consistent(before, p0, tc) ==> Consistent(before + EmitUnit(u, p, tc, rd).rows, p0, tc)
    ensures EmitUnit(u, p, tc, rd).outcome.Pass? ==> EmitUnit(u, p, tc, rd).after == Summary(before + EmitUnit(u, p, tc, rd).rows, p0)
  {
    var d := EmitUnit(u, p, tc, rd);
    if |d.rows| >= 1 {
      var w := d.rows[0];
      assert IsWhiteRow(w) && RowFollows(w, p, tc) by {
        assert w.move == u.number + "w";
        assert w.move[|w.move| - 1] == 'w';
      }
      SnocFollows(before, w, p0, tc);
      if |d.rows| == 2 {
        var b := d.rows[1];
        assert !IsWhiteRow(b) && RowFollows(b, Summary(before + [w], p0), tc) by {
          assert b.move == u.number + "b";
          assert b.move[|b.move| - 1] == 'b';
        }
        SnocFollows(before + [w], b, p0, tc);
        assert before + d.rows == before + [w] + [b];
      } else {
        assert before + d.rows == before + [w];
      }
    } else {
      assert before + d.rows == before;
    }
  }

  /** One row more: how it moves the summary, and that it keeps the rows
      consistent when it follows from those before it. */
  lemma {:induction false} SnocFollows(rows: seq<Row>, r: Row, p0: Prev, tc: TimeControl)
    ensures Summary(rows + [r], p0)
         == (if IsWhiteRow(r) then Prev(r.eval, Some(r.timeLeft), Summary(rows, p0).black)
             else Prev(r.eval, Summary(rows, p0).white, Some(r.timeLeft)))
    ensures Consistent(rows, p0, tc) && RowFollows(r, Summary(rows, p0), tc) ==> Consistent(rows + [r], p0, tc)
  {
    var all := rows + [r];
    assert all[..|rows|] == rows;
    if Consistent(rows, p0, tc) && RowFollows(r, Summary(rows, p0), tc) {
      forall k | 0 <= k < |all|
        ensures RowFollows(all[k], Summary(all[..k], p0), tc)
      {
        if k < |rows| {
          assert all[..k] == rows[..k];
        }
      }
    }
  }

  /** Emission by units agrees with the reference reading of the rows: the
      carried fields afterwards summarise the rows, and each row follows
      from the rows before it. */
  lemma {:induction false} EmitFollows(us: seq<MoveUnit>, p0: Prev, tc: TimeControl, rd: Readers)
    ensures Consistent(EmitUnits(us, p0, tc, rd).rows, p0, tc)
    ensures EmitUnits(us, p0, tc, rd).outcome.Pass? ==> EmitUnits(us, p0, tc, rd).after == Summary(EmitUnits(us, p0, tc, rd).rows, p0)
  {
    if us != [] {
      var e := EmitUnits(us[..|us| - 1], p0, tc, rd);
      EmitFollows(us[..|us| - 1], p0, tc, rd);
      if e.outcome.Pass? {
        UnitFollows(us[|us| - 1], e.after, tc, rd, e.rows, p0);
      }
    }
  }

  /** Emission by units reads the rows off the units' readings. */
  lemma {:induction false} EmitReadOff(us: seq<MoveUnit>, p0: Prev, tc: TimeControl, rd: Readers)
    ensures ReadOff(EmitUnits(us, p0, tc, rd), Readings(us), rd)
  {
    if us != [] {
      var pre := us[..|us| - 1];
      var e := EmitUnits(pre, p0, tc, rd);
      EmitReadOff(pre, p0, tc, rd);
      var ds := Readings(us);
      assert ds == Readings(pre) + UnitReadings(us[|us| - 1]);
      if e.outcome.Pass? {
        var d := EmitUnit(us[|us| - 1], e.after, tc, rd);
        UnitReadOff(us[|us| - 1], e.after, tc, rd);
        ReadOffAppend(e, d, Readings(pre), UnitReadings(us[|us| - 1]), rd);
      } else {
        assert ds[|e.rows|] == Readings(pre)[|e.rows|];
      }
    }
  }

  lemma {:induction false} ReadOffAppend(e: Emission, d: Emission, ds: seq<Reading>, es: seq<Reading>, rd: Readers)
    requires ReadOff(e, ds, rd) && e.outcome.Pass? && ReadOff(d, es, rd)
    ensures ReadOff(Emission(e.rows + d.rows, d.after, d.outcome), ds + es, rd)
  {
    assert forall k :: 0 <= k < |e.rows + d.rows| ==> ReadsAs((e.rows + d.rows)[k], (ds + es)[k], rd) by {
      RowsReadAppend(e.rows, d.rows, ds, es, rd);
    }
    if d.outcome.Pass? {
      ReadableAppend(ds, es, rd);
    } else {
      assert (ds + es)[|e.rows + d.rows|] == es[|d.rows|];
    }
  }

  lemma {:induction false} RowsReadAppend(rs: seq<Row>, ts: seq<Row>, ds: seq<Reading>, es: seq<Reading>, rd: Readers)
    requires |rs| == |ds| && |ts| <= |es|
    requires forall k :: 0 <= k < |rs| ==> ReadsAs(rs[k], ds[k], rd)
    requires forall k :: 0 <= k < |ts| ==> ReadsAs(ts[k], es[k], rd)
    ensures forall k :: 0 <= k < |rs + ts| ==> ReadsAs((rs + ts)[k], (ds + es)[k], rd)
  {
    forall k | 0 <= k < |rs + ts|
      ensures ReadsAs((rs + ts)[k], (ds + es)[k], rd)
    {
      if k < |rs| {
        assert (rs + ts)[k] == rs[k] && (ds + es)[k] == ds[k];
      } else {
        assert (rs + ts)[k] == ts[k - |rs|] && (ds + es)[k] == es[k - |ds|];
      }
    }
  }

  lemma {:induction false} ReadableAppend(ds: seq<Reading>, es: seq<Reading>, rd: Readers)
    requires forall k :: 0 <= k < |ds| ==> Readable(ds[k], rd)
    requires forall k :: 0 <= k < |es| ==> Readable(es[k], rd)
    ensures forall k :: 0 <= k < |ds + es| ==> Readable((ds + es)[k], rd)
  {
    forall k | 0 <= k < |ds + es|
      ensures Readable((ds + es)[k], rd)
    {
      if k < |ds| {
        assert (ds + es)[k] == ds[k];
      } else {
        assert (ds + es)[k] == es[k - |ds|];
      }
    }
  }

  /** No row has a negative loss. */
  lemma {:induction false} LossNonNegative(us: seq<MoveUnit>, p0: Prev, tc: TimeControl, rd: Readers)
    ensures forall k :: 0 <= k < |EmitUnits(us, p0, tc, rd).rows| ==> EmitUnits(us, p0, tc, rd).rows[k].loss >= 0.0
  {
    var rows := EmitUnits(us, p0, tc, rd).rows;
    EmitFollows(us, p0, tc, rd);
    forall k | 0 <= k < |rows|
      ensures rows[k].loss >= 0.0
    {
      assert RowFollows(rows[k], Summary(rows[..k], p0), tc);
    }
  }

  /** Once a unit raises, later units change nothing. */
  lemma {:induction false} RunStops(us: seq<MoveUnit>, vs: seq<MoveUnit>, p0: Prev, step: (MoveUnit, Prev) -> Emission)
    requires Run(us, p0, step).outcome.Fail?
    ensures Run(us + vs, p0, step) == Run(us, p0, step)
    decreases |vs|
  {
    if vs == [] {
      assert us + vs == us;
    } else {
      var ws := us + vs;
      assert ws[..|ws| - 1] == us + vs[..|vs| - 1];
      RunStops(us, vs[..|vs| - 1], p0, step);
    }
  }

  lemma AppendAssoc<T>(a: seq<T>, b: seq<T>, c: seq<T>)
    ensures a + b + c == a + (b + c)
  {
  }

  lemma {:induction false} ThenCombine(e: Emission, f: Emission, u: MoveUnit, step: (MoveUnit, Prev) -> Emission)
    requires e.outcome.Pass?
    ensures Then(Combine(e, f), u, step) == Combine(e, Then(f, u, step))
  {
    if f.outcome.Pass? {
      AppendAssoc(e.rows, f.rows, step(u, f.after).rows);
    }
  }

  /** A run splits at any point where nothing has raised: the second part
      starts from the fields the first leaves. */
  lemma {:induction false} RunAppend(us: seq<MoveUnit>, vs: seq<MoveUnit>, p0: Prev, step: (MoveUnit, Prev) -> Emission)
    requires Run(us, p0, step).outcome.Pass?
    ensures Run(us + vs, p0, step) == Combine(Run(us, p0, step), Run(vs, Run(us, p0, step).after, step))
    decreases |vs|
  {
    var e := Run(us, p0, step);
    if vs == [] {
      assert us + vs == us;
      assert e.rows + [] == e.rows;
    } else {
      var n := |vs|;
      var ws := us + vs;
      assert ws[..|ws| - 1] == us + vs[..n - 1] && ws[|ws| - 1] == vs[n - 1];
      RunAppend(us, vs[..n - 1], p0, step);
      ThenCombine(e, Run(vs[..n - 1], e.after, step), vs[n - 1], step);
    }
  }

  /** The prefix of `us` one unit longer than the first `j`; if that unit
      raises, it settles the run of all of `us`. */
  lemma {:induction false} RunStep(us: seq<MoveUnit>, j: nat, p0: Prev, step: (MoveUnit, Prev) -> Emission)
    requires j < |us|
    ensures Run(us[..j + 1], p0, step) == Then(Run(us[..j], p0, step), us[j], step)
    ensures Run(us[..j + 1], p0, step).outcome.Fail? ==> Run(us, p0, step) == Run(us[..j + 1], p0, step)
  {
    assert us[..j + 1][..j] == us[..j];
    if Run(us[..j + 1], p0, step).outcome.Fail? {
      assert us == us[..j + 1] + us[j + 1..];
      RunStops(us[..j + 1], us[j + 1..], p0, step);
    }
  }

  /** Groups of units, one group more: its run continues from where the
      earlier groups left it; if it raises, that settles the run of all
      the groups. */
  lemma {:induction false} FlatStep(xss: seq<seq<MoveUnit>>, i: nat, p0: Prev, step: (MoveUnit, Prev) -> Emission)
    requires i < |xss| && Run(Flatten(xss[..i]), p0, step).outcome.Pass?
    ensures var e := Run(Flatten(xss[..i]), p0, step);
            var f := Run(xss[i], e.after, step);
            Run(Flatten(xss[..i + 1]), p0, step) == Combine(e, f)
            && (f.outcome.Fail? ==> Run(Flatten(xss), p0, step) == Run(Flatten(xss[..i + 1]), p0, step))
  {
    assert xss[..i + 1] == xss[..i] + [xss[i]];
    FlattenSnoc(xss[..i], xss[i]);
    RunAppend(Flatten(xss[..i]), xss[i], p0, step);
    var e := Run(Flatten(xss[..i]), p0, step);
    if Run(xss[i], e.after, step).outcome.Fail? {
      assert xss == xss[..i + 1] + xss[i + 1..];
      FlattenAppend(xss[..i + 1], xss[i + 1..]);
      RunStops(Flatten(xss[..i + 1]), Flatten(xss[i + 1..]), p0, step);
    }
  }

  /** Once a unit of a game raises, the later units add no rows and change
      no field. */
  lemma {:induction false} EmitStops(us: seq<MoveUnit>, vs: seq<MoveUnit>, p0: Prev, tc: TimeControl, rd: Readers)
    requires EmitUnits(us, p0, tc, rd).outcome.Fail?
    ensures EmitUnits(us + vs, p0, tc, rd) == EmitUnits(us, p0, tc, rd)
  {
    RunStops(us, vs, p0, UnitStep(tc, rd));
  }

  /** The units of a game split where nothing has raised. */
  lemma {:induction false} EmitAppend(us: seq<MoveUnit>, vs: seq<MoveUnit>, p0: Prev, tc: TimeControl, rd: Readers)
    requires EmitUnits(us, p0, tc, rd).outcome.Pass?
    ensures EmitUnits(us + vs, p0, tc, rd) == Combine(EmitUnits(us, p0, tc, rd), EmitUnits(vs, EmitUnits(us, p0, tc, rd).after, tc, rd))
  {
    RunAppend(us, vs, p0, UnitStep(tc, rd));
  }

  /** One more unit of `us` after the first `j`, which have not raised: its
      rows follow theirs; if it raises, it settles the emission of all of
      `us`. */
  lemma {:induction false} EmitStep(us: seq<MoveUnit>, j: nat, p0: Prev, tc: TimeControl, rd: Readers)
    requires j < |us| && EmitUnits(us[..j], p0, tc, rd).outcome.Pass?
    ensures var e := EmitUnits(us[..j], p0, tc, rd);
            EmitUnits(us[..j + 1], p0, tc, rd) == Combine(e, EmitUnit(us[j], e.after, tc, rd))
    ensures EmitUnits(us[..j + 1], p0, tc, rd).outcome.Fail? ==> EmitUnits(us, p0, tc, rd) == EmitUnits(us[..j + 1], p0, tc, rd)
  {
    RunStep(us, j, p0, UnitStep(tc, rd));
  }

  /** The lines after the first `i`, one more: its matches continue the
      emission from where the earlier lines left it; if they raise, that
      settles the emission of all the lines. */
  lemma {:induction false} LinesStep(lines: seq<string>, i: nat, p0: Prev, tc: TimeControl, rd: Readers)
    requires i < |lines| && EmitUnits(LinesUnits(lines[..i]), p0, tc, rd).outcome.Pass?
    ensures var e := EmitUnits(LinesUnits(lines[..i]), p0, tc, rd);
            var f := EmitUnits(Scan(lines[i]), e.after, tc, rd);
            EmitUnits(LinesUnits(lines[..i + 1]), p0, tc, rd) == Combine(e, f)
            && (f.outcome.Fail? ==> EmitUnits(LinesUnits(lines), p0, tc, rd) == EmitUnits(LinesUnits(lines[..i + 1]), p0, tc, rd))
  {
    var xss := ScanLines(lines);
    assert ScanLines(lines[..i]) == xss[..i];
    assert ScanLines(lines[..i + 1]) == xss[..i + 1];
    assert xss[i] == Scan(lines[i]);
    FlatStep(xss, i, p0, UnitStep(tc, rd));
  }

  lemma {:induction false} LinesAll(lines: seq<string>, i: nat)
    requires i == |lines|
    ensures LinesUnits(lines[..i]) == LinesUnits(lines)
  {
    assert lines[..|lines|] == lines;
  }

  lemma {:induction false} FlattenSnoc<T>(xss: seq<seq<T>>, xs: seq<T>)
    ensures Flatten(xss + [xs]) == Flatten(xss) + xs
  {
    assert (xss + [xs])[..|xss + [xs]| - 1] == xss;
  }

  lemma {:induction false} FlattenAppend<T>(xss: seq<seq<T>>, yss: seq<seq<T>>)
    ensures Flatten(xss + yss) == Flatten(xss) + Flatten(yss)
    decreases |yss|
  {
    if yss == [] {
      assert xss + yss == xss;
    } else {
      var n := |yss|;
      assert xss + yss == (xss + yss[..n - 1]) + [yss[n - 1]];
      FlattenSnoc(xss + yss[..n - 1], yss[n - 1]);
      FlattenAppend(xss, yss[..n - 1]);
      assert yss == yss[..n - 1] + [yss[n - 1]];
      FlattenSnoc(yss[..n - 1], yss[n - 1]);
    }
  }
}
