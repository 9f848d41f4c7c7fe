/** `process_game_chunk` (`main.py`): the per-game state machine that reads
    one chunk of complete lines.  A `[Event ` line finishes the game so far
    (its rows go to the CSV buffer) and starts a fresh one; other header
    lines may reject the game or record its time control; move lines that
    carry both clock and eval annotations are kept for `process_moves`. */
module GameChunk {
  import opened Results
  import opened PyText
  import opened RowEmitter
  import opened ChessParser

  /** The fields of `ExperimentConfig` the experiment reads. */
  datatype Config = Config(minElo: int, requireClockAndEval: bool, maxCsvBufferSize: int, testMode: bool, testMaxLines: int)

  /** `ExperimentConfig()` with its defaults. */
  function DefaultConfig(): Config {
    Config(2000, true, 5000, true, 300000)
  }

  /** What one non-blank, stripped line does: the game afterwards, the rows
      it appends to the CSV buffer and whether it raised. */
  datatype Effect = Effect(game: Game, rows: seq<Row>, outcome: Outcome)

  /** The loop body of `process_game_chunk` for a stripped line `s`,
      before the test-mode counter. */
  function HandleLine(g: Game, s: string, cfg: Config): Effect {
    if s != [] && s[0] == '[' then
      if StartsWith(s, "[Event ") then EventLine(g)
      else if cfg.requireClockAndEval then HeaderLine(g, s, cfg.minElo)
      else Effect(g, [], Pass)
    else if Contains(s, "%clk") && Contains(s, "%eval") then
      Effect(g.(hasClkEval := true, moves := g.moves + [s]), [], Pass)
    else Effect(g, [], Pass)
  }

  /** `process_moves` on the game so far, then `state = GameState()`. */
  function EventLine(g: Game): Effect {
    var e := GameRows(g);
    if e.outcome.Fail? then Effect(g.(prev := e.after), e.rows, e.outcome)
    else Effect(NewGame(), e.rows, Pass)
  }

  /** A header line other than `[Event `, when clocks and evals are
      required: a rejecting header sets `reject`; otherwise a
      `[TimeControl` header stores the text between its first two quotes. */
  function HeaderLine(g: Game, s: string, minElo: int): Effect {
    match ShouldRejectGame(s, minElo)
    case Err(err) => Effect(g, [], Fail(err))
    case Ok(reject) =>
      if reject then Effect(g.(reject := true), [], Pass)
      else if StartsWith(s, "[TimeControl") then
        var parts := Split(s, '"');
        if |parts| < 2 then Effect(g, [], Fail(IndexError))
        else Effect(g.(metadata := g.metadata["TimeControl" := parts[1]]), [], Pass)
      else Effect(g, [], Pass)
  }

  /** Where `process_game_chunk` is after some of its lines: the game, the
      rows appended, `lines_processed`, whether something raised and
      whether the test-mode limit stopped the loop. */
  datatype Chunk = Chunk(game: Game, rows: seq<Row>, processed: int, outcome: Outcome, stopped: bool)

  predicate Live(c: Chunk) {
    c.outcome.Pass? && !c.stopped
  }

  /** One line of the loop: a blank line is skipped without being counted;
      any other line is handled, and in test mode counted, the loop
      stopping once the count reaches `test_max_lines`. */
  function ChunkStep(c: Chunk, line: string, cfg: Config): Chunk {
    var s := Strip(line);
    if s == [] then c
    else
      var f := HandleLine(c.game, s, cfg);
      if f.outcome.Fail? then Chunk(f.game, c.rows + f.rows, c.processed, f.outcome, false)
      else if !cfg.testMode then Chunk(f.game, c.rows + f.rows, c.processed, Pass, false)
      else Chunk(f.game, c.rows + f.rows, c.processed + 1, Pass, c.processed + 1 >= cfg.testMaxLines)
  }

  /** The loop of `process_game_chunk` over `lines`, from the game `g0`. */
  function ChunkRun(lines: seq<string>, g0: Game, cfg: Config): Chunk
    decreases |lines|
  {
    if lines == [] then Chunk(g0, [], 0, Pass, false)
    else
      var c := ChunkRun(lines[..|lines| - 1], g0, cfg);
      if Live(c) then ChunkStep(c, lines[|lines| - 1], cfg) else c
  }

  /** `process_game_chunk(lines, state, parser, csv_buffer, config)`: the
      returned state (the same object, or a fresh one after an `[Event `
      line), the rows appended to `csv` and `lines_processed` are those of
      `ChunkRun`; `outcome` is `Fail` when a conversion raised. */
  method ProcessGameChunk(lines: seq<string>, state: GameState, csv: RowBuffer, cfg: Config)
      returns (st: GameState, processed: int, outcome: Outcome)
    modifies state, csv
    ensures st == state || fresh(st)
    ensures st.Value() == ChunkRun(lines, old(state.Value()), cfg).game
    ensures csv.rows == old(csv.rows) + ChunkRun(lines, old(state.Value()), cfg).rows
    ensures processed == ChunkRun(lines, old(state.Value()), cfg).processed
    ensures outcome == ChunkRun(lines, old(state.Value()), cfg).outcome
  {
    ghost var g0 := state.Value();
    ghost var rows0 := csv.rows;
    st := state;
    processed := 0;
    outcome := Pass;
    var i := 0;
    while i < |lines|
      invariant 0 <= i <= |lines|
      invariant st == state || fresh(st)
      invariant Live(ChunkRun(lines[..i], g0, cfg)) && outcome == Pass
      invariant st.Value() == ChunkRun(lines[..i], g0, cfg).game
      invariant csv.rows == rows0 + ChunkRun(lines[..i], g0, cfg).rows
      invariant processed == ChunkRun(lines[..i], g0, cfg).processed
    {
      ChunkRunStep(lines, i, g0, cfg);
      var stop;
      st, processed, outcome, stop := ProcessChunkStep(st, csv, processed, lines[i], cfg, ChunkRun(lines[..i], g0, cfg), rows0);
      if outcome.Fail? || stop {
        ChunkStops(lines, i + 1, g0, cfg);
        return;
      }
      i := i + 1;
    }
    assert lines[..i] == lines;
  }

  /** The loop body of `process_game_chunk` for the line `line`, with the
      loop so far at `c`: a blank line changes nothing; `stop` is the
      test-mode `break`. */
  method ProcessChunkStep(state: GameState, csv: RowBuffer, processed: int, line: string, cfg: Config, ghost c: Chunk, ghost rows0: seq<Row>)
      returns (st: GameState, processed': int, outcome: Outcome, stop: bool)
    requires Live(c) && state.Value() == c.game && processed == c.processed && csv.rows == rows0 + c.rows
    modifies state, csv
    ensures st == state || fresh(st)
    ensures st.Value() == ChunkStep(c, line, cfg).game
    ensures csv.rows == rows0 + ChunkStep(c, line, cfg).rows
    ensures processed' == ChunkStep(c, line, cfg).processed
    ensures outcome == ChunkStep(c, line, cfg).outcome
    ensures stop == ChunkStep(c, line, cfg).stopped
  {
    st, processed', outcome, stop := state, processed, Pass, false;
    var s := Strip(line);
    if s == [] {
      return;
    }
    ghost var f := HandleLine(c.game, s, cfg);
    st, outcome := ProcessChunkLine(state, csv, s, cfg);
    AppendAssoc(rows0, c.rows, f.rows);
    if outcome.Pass? && cfg.testMode {
      processed' := processed + 1;
      stop := processed' >= cfg.testMaxLines;
    }
  }

  /** The loop body of `process_game_chunk` for a non-blank stripped line. */
  method ProcessChunkLine(state: GameState, csv: RowBuffer, s: string, cfg: Config) returns (st: GameState, outcome: Outcome)
    modifies state, csv
    ensures st == state || fresh(st)
    ensures st.Value() == HandleLine(old(state.Value()), s, cfg).game
    ensures csv.rows == old(csv.rows) + HandleLine(old(state.Value()), s, cfg).rows
    ensures outcome == HandleLine(old(state.Value()), s, cfg).outcome
  {
    st := state;
    outcome := Pass;
    if s != [] && s[0] == '[' {
      if StartsWith(s, "[Event ") {
        outcome := ProcessMoves(state, csv);
        if outcome.Pass? {
          st := new GameState();
        }
      } else if cfg.requireClockAndEval {
        var verdict := ShouldRejectGame(s, cfg.minElo);
        if verdict.Err? {
          outcome := Fail(verdict.error);
        } else if verdict.value {
          state.reject := true;
        } else if StartsWith(s, "[TimeControl") {
          var parts := Split(s, '"');
          if |parts| < 2 {
            outcome := Fail(IndexError);
          } else {
            state.metadata := state.metadata["TimeControl" := parts[1]];
          }
        }
      }
    } else if Contains(s, "%clk") && Contains(s, "%eval") {
      state.hasClkEval := true;
      state.moves := state.moves + [s];
    }
  }

  lemma {:induction false} ChunkRunStep(lines: seq<string>, i: nat, g0: Game, cfg: Config)
    requires i < |lines| && Live(ChunkRun(lines[..i], g0, cfg))
    ensures ChunkRun(lines[..i + 1], g0, cfg) == ChunkStep(ChunkRun(lines[..i], g0, cfg), lines[i], cfg)
  {
    assert lines[..i + 1][..i] == lines[..i];
  }

  /** Once the loop has stopped or raised, later lines are not read. */
  lemma {:induction false} ChunkStops(lines: seq<string>, i: nat, g0: Game, cfg: Config)
    requires i <= |lines| && !Live(ChunkRun(lines[..i], g0, cfg))
    ensures ChunkRun(lines, g0, cfg) == ChunkRun(lines[..i], g0, cfg)
    decreases |lines|
  {
    if i < |lines| {
      var n := |lines|;
      assert lines[..n - 1][..i] == lines[..i];
      ChunkStops(lines[..n - 1], i, g0, cfg);
    } else {
      assert lines[..i] == lines;
    }
  }

  // ---------------------------------------------------------------------
  // What the loop promises

  /** A whitespace-only line is skipped: nothing changes and, in test
      mode, it is not counted; any other line is counted unless it raised. */
  lemma {:induction false} BlankLineSkipped(c: Chunk, line: string, cfg: Config)
    requires Live(c)
    ensures AllSpace(line) ==> ChunkStep(c, line, cfg) == c
    ensures !AllSpace(line) && cfg.testMode && ChunkStep(c, line, cfg).outcome.Pass?
            ==> ChunkStep(c, line, cfg).processed == c.processed + 1
    ensures !cfg.testMode ==> ChunkStep(c, line, cfg).processed == c.processed
  {
    StripEmpty(line);
  }

  /** `lines_processed` stays 0 outside test mode; in test mode the loop
      stops as soon as it reaches `test_max_lines`, so with a positive
      limit it never exceeds it. */
  lemma {:induction false} ChunkCounter(lines: seq<string>, g0: Game, cfg: Config)
    ensures !cfg.testMode ==> ChunkRun(lines, g0, cfg).processed == 0 && !ChunkRun(lines, g0, cfg).stopped
    ensures cfg.testMaxLines >= 1 ==> 0 <= ChunkRun(lines, g0, cfg).processed <= cfg.testMaxLines
    ensures ChunkRun(lines, g0, cfg).stopped ==> cfg.testMode && ChunkRun(lines, g0, cfg).processed >= cfg.testMaxLines
    ensures Live(ChunkRun(lines, g0, cfg)) && ChunkRun(lines, g0, cfg).processed > 0 ==> ChunkRun(lines, g0, cfg).processed < cfg.testMaxLines
    decreases |lines|
  {
    if lines != [] {
      ChunkCounter(lines[..|lines| - 1], g0, cfg);
    }
  }

  /** No line of `lines` is an `[Event ` header once stripped. */
  predicate NoEvent(lines: seq<string>) {
    forall k :: 0 <= k < |lines| ==> !StartsWith(Strip(lines[k]), "[Event ")
  }

  /** A move line worth keeping: not a header, and carrying both a clock
      and an eval annotation. */
  predicate IsMoveLine(s: string) {
    !(s != [] && s[0] == '[') && Contains(s, "%clk") && Contains(s, "%eval")
  }

  /** The stripped move lines of `lines` that a game keeps, in order. */
  function Kept(lines: seq<string>): seq<string>
    decreases |lines|
  {
    if lines == [] then []
    else
      var s := Strip(lines[|lines| - 1]);
      Kept(lines[..|lines| - 1]) + (if IsMoveLine(s) then [s] else [])
  }

  /** A line other than `[Event ` appends no rows, leaves the carried
      fields alone, never clears `reject`, touches headers only when clocks
      and evals are required, and appends itself to `moves` exactly when it
      is a move line. */
  lemma {:induction false} HandleWithoutEvent(g: Game, s: string, cfg: Config)
    requires !StartsWith(s, "[Event ")
    ensures HandleLine(g, s, cfg).rows == [] && HandleLine(g, s, cfg).game.prev == g.prev
    ensures g.reject ==> HandleLine(g, s, cfg).game.reject
    ensures !cfg.requireClockAndEval ==> HandleLine(g, s, cfg).game.metadata == g.metadata && HandleLine(g, s, cfg).game.reject == g.reject
    ensures HandleLine(g, s, cfg).game.moves == g.moves + (if IsMoveLine(s) then [s] else [])
  {
    if s != [] && s[0] == '[' {
      assert !IsMoveLine(s);
    } else {
      assert g.moves + [] == g.moves;
    }
  }

  /** Within one game (no `[Event ` line): no rows are produced, `reject`
      once set stays set, and headers change nothing unless clocks and
      evals are required. */
  lemma {:induction false} ChunkWithoutEvent(lines: seq<string>, g0: Game, cfg: Config)
    requires NoEvent(lines)
    ensures ChunkRun(lines, g0, cfg).rows == [] && ChunkRun(lines, g0, cfg).game.prev == g0.prev
    ensures g0.reject ==> ChunkRun(lines, g0, cfg).game.reject
    ensures !cfg.requireClockAndEval ==> ChunkRun(lines, g0, cfg).game.metadata == g0.metadata && ChunkRun(lines, g0, cfg).game.reject == g0.reject
    decreases |lines|
  {
    if lines != [] {
      var n := |lines|;
      var init := lines[..n - 1];
      InitNoEvent(lines);
      ChunkWithoutEvent(init, g0, cfg);
      var c := ChunkRun(init, g0, cfg);
      var s := Strip(lines[n - 1]);
      if Live(c) && s != [] {
        assert !StartsWith(s, "[Event ");
        HandleWithoutEvent(c.game, s, cfg);
      }
    }
  }

  /** Within one game and outside test mode, a chunk that did not raise
      appended exactly its move lines to `moves`. */
  lemma {:induction false} MovesKept(lines: seq<string>, g0: Game, cfg: Config)
    requires NoEvent(lines) && !cfg.testMode
    ensures ChunkRun(lines, g0, cfg).outcome.Pass? ==> ChunkRun(lines, g0, cfg).game.moves == g0.moves + Kept(lines)
    decreases |lines|
  {
    if lines == [] {
      assert g0.moves + [] == g0.moves;
    } else {
      var n := |lines|;
      var init := lines[..n - 1];
      InitNoEvent(lines);
      MovesKept(init, g0, cfg);
      ChunkCounter(init, g0, cfg);
      var c := ChunkRun(init, g0, cfg);
      var s := Strip(lines[n - 1]);
      if Live(c) {
        if s == [] {
          assert !IsMoveLine(s);
          assert Kept(lines) == Kept(init) + [];
        } else {
          assert !StartsWith(s, "[Event ");
          HandleWithoutEvent(c.game, s, cfg);
          AppendAssoc(g0.moves, Kept(init), if IsMoveLine(s) then [s] else []);
        }
      }
    }
  }

  lemma {:induction false} InitNoEvent(lines: seq<string>)
    requires lines != [] && NoEvent(lines)
    ensures NoEvent(lines[..|lines| - 1])
  {
    var init := lines[..|lines| - 1];
    forall k | 0 <= k < |init|
      ensures !StartsWith(Strip(init[k]), "[Event ")
    {
      assert init[k] == lines[k];
    }
  }

  /** `has_clk_eval` is set exactly when there are moves, and every kept
      move line carries both annotations. */
  predicate MovesAnnotated(g: Game) {
    (g.hasClkEval <==> g.moves != [])
    && forall k :: 0 <= k < |g.moves| ==> Contains(g.moves[k], "%clk") && Contains(g.moves[k], "%eval")
  }

  lemma {:induction false} HandleKeepsAnnotated(g: Game, s: string, cfg: Config)
    requires MovesAnnotated(g)
    ensures MovesAnnotated(HandleLine(g, s, cfg).game)
  {
    if s != [] && s[0] == '[' {
      if StartsWith(s, "[Event ") {
        var e := GameRows(g);
        assert MovesAnnotated(NewGame());
      }
    } else if Contains(s, "%clk") && Contains(s, "%eval") {
      var ms := g.moves + [s];
      assert forall k :: 0 <= k < |g.moves| ==> ms[k] == g.moves[k];
    }
  }

  /** A fresh game is annotated trivially, and every chunk keeps it so. */
  lemma {:induction false} ChunkKeepsAnnotated(lines: seq<string>, g0: Game, cfg: Config)
    requires MovesAnnotated(g0)
    ensures MovesAnnotated(ChunkRun(lines, g0, cfg).game)
    decreases |lines|
  {
    if lines != [] {
      var init := lines[..|lines| - 1];
      ChunkKeepsAnnotated(init, g0, cfg);
      var c := ChunkRun(init, g0, cfg);
      if Live(c) {
        HandleKeepsAnnotated(c.game, Strip(lines[|lines| - 1]), cfg);
      }
    }
  }

  /** An `[Event ` line hands the game so far to `process_moves`; unless
      that raised, a fresh `GameState()` follows. */
  lemma {:induction false} EventStartsFresh(g: Game, s: string, cfg: Config)
    requires StartsWith(s, "[Event ")
    ensures HandleLine(g, s, cfg).rows == GameRows(g).rows
    ensures HandleLine(g, s, cfg).outcome == GameRows(g).outcome
    ensures GameRows(g).outcome.Pass? ==> HandleLine(g, s, cfg).game == NewGame()
  {
    assert s[0] == '[';
  }

  /** From a fresh game, every game the loop reaches without raising still
      has the carried fields of a fresh `GameState()`: only `process_moves`
      sets them, and an `[Event ` line replaces the game it finished. */
  lemma {:induction false} ChunkKeepsFreshPrev(lines: seq<string>, g0: Game, cfg: Config)
    requires g0.prev == NewGame().prev
    ensures ChunkRun(lines, g0, cfg).outcome.Pass? ==> ChunkRun(lines, g0, cfg).game.prev == NewGame().prev
    decreases |lines|
  {
    if lines != [] {
      var c := ChunkRun(lines[..|lines| - 1], g0, cfg);
      ChunkKeepsFreshPrev(lines[..|lines| - 1], g0, cfg);
      if Live(c) {
        var s := Strip(lines[|lines| - 1]);
        if s != [] && !StartsWith(s, "[Event ") {
          HandleWithoutEvent(c.game, s, cfg);
        }
      }
    }
  }

  /** The game an `[Event ` line finishes was read from a fresh
      `GameState()`, so `process_moves` times each side's first move from
      the initial time and judges the first eval against 0.0; its rows
      follow those of the loop so far. */
  lemma {:induction false} EventFinishesFreshGame(lines: seq<string>, i: nat, g0: Game, cfg: Config)
    requires g0.prev == NewGame().prev
    requires i < |lines| && Live(ChunkRun(lines[..i], g0, cfg))
    requires StartsWith(Strip(lines[i]), "[Event ")
    ensures ChunkRun(lines[..i], g0, cfg).game.prev == NewGame().prev
    ensures ChunkRun(lines[..i + 1], g0, cfg).rows
            == ChunkRun(lines[..i], g0, cfg).rows + GameRows(ChunkRun(lines[..i], g0, cfg).game).rows
  {
    var c := ChunkRun(lines[..i], g0, cfg);
    ChunkKeepsFreshPrev(lines[..i], g0, cfg);
    ChunkRunStep(lines, i, g0, cfg);
    var s := Strip(lines[i]);
    assert s != [] by {
      assert |"[Event "| == 7;
    }
    EventStartsFresh(c.game, s, cfg);
  }

  /** When clock and eval are required, `[TimeControl "v"]` stores `v`,
      the text between the quotes, and changes nothing else. */
  lemma {:induction false} TimeControlStored(g: Game, v: string, cfg: Config)
    requires cfg.requireClockAndEval && '"' !in v
    ensures HandleLine(g, "[TimeControl \"" + v + "\"]", cfg)
            == Effect(g.(metadata := g.metadata["TimeControl" := v]), [], Pass)
  {
    var s := "[TimeControl \"" + v + "\"]";
    assert s[0] == '[' && s[1] == 'T' && s[2] == 'i';
    assert ShouldRejectGame(s, cfg.minElo) == Ok(false) by {
      assert !StartsWith(s, "[WhiteElo") by { assert "[WhiteElo"[1] == 'W'; }
      assert !StartsWith(s, "[BlackElo") by { assert "[BlackElo"[1] == 'B'; }
      assert !StartsWith(s, "[Termination") by { assert "[Termination"[2] == 'e'; }
    }
    assert StartsWith(s, "[TimeControl") by {
      assert s[..12] == "[TimeControl";
    }
    assert Split(s, '"') == ["[TimeControl ", v, "]"] by {
      assert s == "[TimeControl " + ['"'] + v + ['"'] + "]";
      SplitOfThree("[TimeControl ", v, "]", '"');
    }
    assert HeaderLine(g, s, cfg.minElo) == Effect(g.(metadata := g.metadata["TimeControl" := v]), [], Pass);
    assert !StartsWith(s, "[Event ") by { assert "[Event "[1] == 'E'; }
  }
}
