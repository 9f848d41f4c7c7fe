/** The processing loop of `stream_decompress_and_process` (`main.py`):
    decoded chunks are appended to a text buffer, the complete lines are
    handed to `process_game_chunk`, the incomplete last line waits for the
    next chunk, the CSV buffer is flushed to the sink past a size threshold,
    and at the end of the stream the last game is finished and the buffer
    flushed once more.  The download, the decompressor and the CSV writer
    are replaced by the sequence of chunks `reader.read` returns and the
    sequence of rows written. */
module StreamDriver {
  import opened Results
  import opened PyText
  import opened Converters
  import opened RowEmitter
  import opened ChessParser
  import opened GameChunk

  /** What handles the complete lines of one read; the lemmas about text
      hold whatever it is. */
  type Runner = (seq<string>, Game) -> Chunk

  /** The loop's variables after some reads: the game being read, every row
      produced so far (flushed or still buffered), `buffer`, the complete
      lines handed on so far, the number of reads, `total_lines_processed`,
      whether something raised, and whether the loop has ended. */
  datatype Stream = Stream(game: Game, rows: seq<Row>, buffer: string, fed: seq<string>, read: nat, total: int, outcome: Outcome, ended: bool)

  /** The text of the chunks, in order. */
  function Concat(cs: seq<string>): string
    decreases |cs|
  {
    if cs == [] then [] else Concat(cs[..|cs| - 1]) + cs[|cs| - 1]
  }

  /** One read: an empty chunk is the end of the stream; otherwise the text
      is split into lines, all but the last go to `process_game_chunk` and
      the last becomes the buffer, and the loop ends when something raised
      or, in test mode, when the total reaches `test_max_lines`. */
  function FeedChunk(s: Stream, chunk: string, cfg: Config, run: Runner): Stream {
    if chunk == [] then s.(read := s.read + 1, ended := true)
    else
      var parts := Split(s.buffer + chunk, '\n');
      var lines := parts[..|parts| - 1];
      var c := run(lines, s.game);
      var total := s.total + c.processed;
      Stream(c.game, s.rows + c.rows, parts[|parts| - 1], s.fed + lines, s.read + 1, total, c.outcome,
             c.outcome.Fail? || (cfg.testMode && total >= cfg.testMaxLines))
  }

  /** The loop over the reads `cs`, from `buffer = ''`, an empty CSV buffer
      and a fresh `GameState()`. */
  function Feed(cs: seq<string>, cfg: Config, run: Runner): Stream
    decreases |cs|
  {
    if cs == [] then Stream(NewGame(), [], [], [], 0, 0, Pass, false)
    else
      var s := Feed(cs[..|cs| - 1], cfg, run);
      if s.ended then s else FeedChunk(s, cs[|cs| - 1], cfg, run)
  }

  /** `process_game_chunk` on the complete lines of one read, from the game
      the previous read left. */
  function ChunkProcessor(cfg: Config): Runner {
    (lines: seq<string>, g: Game) => ChunkRun(lines, g, cfg)
  }

  /** Everything the run writes and whether it raised. */
  datatype Output = Output(rows: seq<Row>, outcome: Outcome)

  /** After the loop: unless something raised, the last game goes through
      `process_moves` and its rows follow all the others. */
  function StreamOutput(cs: seq<string>, cfg: Config): Output {
    var s := Feed(cs, cfg, ChunkProcessor(cfg));
    if s.outcome.Fail? then Output(s.rows, s.outcome)
    else
      var e := GameRows(s.game);
      Output(s.rows + e.rows, e.outcome)
  }

  /** `stream_decompress_and_process`, with `reader.read` returning the
      chunks `chunks` and then the empty chunk: `written` is what reaches
      the CSV writer.  A run that raises has written a prefix of its rows;
      one that does not has written all of them, in order. */
  method StreamDecompressAndProcess(chunks: seq<string>, cfg: Config) returns (written: seq<Row>, outcome: Outcome)
    ensures outcome == StreamOutput(chunks, cfg).outcome
    ensures written <= StreamOutput(chunks, cfg).rows
    ensures outcome.Pass? ==> written == StreamOutput(chunks, cfg).rows
  {
    var buffer := "";
    var csv := new RowBuffer();
    var state := new GameState();
    var total := 0;
    written := [];
    outcome := Pass;
    ghost var run := ChunkProcessor(cfg);
    ghost var cur := Feed([], cfg, run);
    var ended := false;
    var k := 0;
    while k < |chunks| && !ended
      invariant 0 <= k <= |chunks|
      invariant fresh(state) && fresh(csv) && outcome == Pass
      invariant cur == Feed(chunks[..k], cfg, run)
      invariant cur.game == state.Value() && cur.rows == written + csv.rows && cur.buffer == buffer
      invariant cur.read == k && cur.total == total && cur.outcome == Pass && cur.ended == ended
      invariant |csv.rows| <= cfg.maxCsvBufferSize || csv.rows == []
      decreases |chunks| - k
    {
      FeedStep(chunks, k, cfg, run);
      ghost var t := FeedChunk(cur, chunks[k], cfg, run);
      FeedChunkEnds(cur, chunks[k], cfg, run);
      if chunks[k] == [] {
        ended := true;
      } else {
        ghost var before := written;
        state, buffer, written, total, outcome := ReadChunk(state, csv, buffer, written, total, chunks[k], cfg, cur);
        if outcome.Fail? {
          FeedStops(chunks, k + 1, cfg, run);
          assert before <= written <= t.rows;
          return;
        }
        ended := cfg.testMode && total >= cfg.testMaxLines;
      }
      cur := t;
      k := k + 1;
    }
    if ended {
      FeedStops(chunks, k, cfg, run);
    } else {
      assert chunks[..k] == chunks;
    }
    written, outcome := FinishStream(state, csv, written, cur);
  }

  /** After the loop: `process_moves` on the last game, and whatever the
      CSV buffer still holds goes to `written`. */
  method FinishStream(state: GameState, csv: RowBuffer, written: seq<Row>, ghost s: Stream) returns (written': seq<Row>, outcome: Outcome)
    requires s.game == state.Value() && s.rows == written + csv.rows
    modifies state`prevEval, state`prevWhiteClock, state`prevBlackClock, csv
    ensures outcome == GameRows(s.game).outcome
    ensures written <= written' <= s.rows + GameRows(s.game).rows
    ensures outcome.Pass? ==> written' == s.rows + GameRows(s.game).rows && csv.rows == []
  {
    written' := written;
    ghost var e := GameRows(state.Value());
    ghost var before := csv.rows;
    outcome := ProcessMoves(state, csv);
    AppendAssoc(written, before, e.rows);
    if outcome.Fail? {
      return;
    }
    if csv.rows != [] {
      written' := written' + csv.rows;
      csv.Clear();
    }
  }

  /** The loop body for a non-empty chunk, with the loop so far at `s`:
      the buffer takes the chunk, the complete lines go to
      `process_game_chunk`, and the CSV buffer is flushed to `written` once
      it holds more than `max_csv_buffer_size` rows. */
  method ReadChunk(state: GameState, csv: RowBuffer, buffer: string, written: seq<Row>, total: int, chunk: string, cfg: Config, ghost s: Stream)
      returns (state': GameState, buffer': string, written': seq<Row>, total': int, outcome: Outcome)
    requires chunk != [] && s.outcome.Pass?
    requires s.game == state.Value() && s.rows == written + csv.rows && s.buffer == buffer && s.total == total
    modifies state, csv
    ensures state' == state || fresh(state')
    ensures state'.Value() == FeedChunk(s, chunk, cfg, ChunkProcessor(cfg)).game
    ensures written' + csv.rows == FeedChunk(s, chunk, cfg, ChunkProcessor(cfg)).rows && written <= written'
    ensures buffer' == FeedChunk(s, chunk, cfg, ChunkProcessor(cfg)).buffer
    ensures total' == FeedChunk(s, chunk, cfg, ChunkProcessor(cfg)).total
    ensures outcome == FeedChunk(s, chunk, cfg, ChunkProcessor(cfg)).outcome
    ensures outcome.Pass? ==> |csv.rows| <= cfg.maxCsvBufferSize || csv.rows == []
    ensures outcome.Fail? ==> written' == written
    ensures outcome.Pass? && |FeedChunk(s, chunk, cfg, ChunkProcessor(cfg)).rows| - |written| <= cfg.maxCsvBufferSize
            ==> written' == written
    ensures outcome.Pass? && |FeedChunk(s, chunk, cfg, ChunkProcessor(cfg)).rows| - |written| > cfg.maxCsvBufferSize
            ==> written' == FeedChunk(s, chunk, cfg, ChunkProcessor(cfg)).rows && csv.rows == []
  {
    written' := written;
    buffer' := buffer + chunk;
    var parts := Split(buffer', '\n');
    buffer' := parts[|parts| - 1];
    var lines := parts[..|parts| - 1];
    ghost var c := ChunkRun(lines, state.Value(), cfg);
    assert c == ChunkProcessor(cfg)(lines, s.game);
    ghost var before := csv.rows;
    var n;
    state', n, outcome := ProcessGameChunk(lines, state, csv, cfg);
    AppendAssoc(written, before, c.rows);
    total' := total + n;
    if outcome.Fail? {
      return;
    }
    if |csv.rows| > cfg.maxCsvBufferSize {
      written' := written' + csv.rows;
      csv.Clear();
    }
  }

  /** How a read counts and when it ends the loop. */
  lemma {:induction false} FeedChunkEnds(s: Stream, chunk: string, cfg: Config, run: Runner)
    ensures chunk == [] ==> FeedChunk(s, chunk, cfg, run) == s.(read := s.read + 1, ended := true)
    ensures FeedChunk(s, chunk, cfg, run).read == s.read + 1
    ensures chunk != [] ==>
              (FeedChunk(s, chunk, cfg, run).ended
               == (FeedChunk(s, chunk, cfg, run).outcome.Fail? || (cfg.testMode && FeedChunk(s, chunk, cfg, run).total >= cfg.testMaxLines)))
  {
  }

  lemma {:induction false} FeedStep(cs: seq<string>, k: nat, cfg: Config, run: Runner)
    requires k < |cs| && !Feed(cs[..k], cfg, run).ended
    ensures Feed(cs[..k + 1], cfg, run) == FeedChunk(Feed(cs[..k], cfg, run), cs[k], cfg, run)
  {
    assert cs[..k + 1][..k] == cs[..k];
  }

  /** Once the loop has ended, later chunks are never read. */
  lemma {:induction false} FeedStops(cs: seq<string>, k: nat, cfg: Config, run: Runner)
    requires k <= |cs| && Feed(cs[..k], cfg, run).ended
    ensures Feed(cs, cfg, run) == Feed(cs[..k], cfg, run)
    decreases |cs|
  {
    if k < |cs| {
      var n := |cs|;
      assert cs[..n - 1][..k] == cs[..k];
      FeedStops(cs[..n - 1], k, cfg, run);
    } else {
      assert cs[..k] == cs;
    }
  }

  // ---------------------------------------------------------------------
  // What the loop promises

  /** A loop still running has read every chunk and raised nothing. */
  lemma {:induction false} FeedLive(cs: seq<string>, cfg: Config, run: Runner)
    ensures Feed(cs, cfg, run).read <= |cs|
    ensures !Feed(cs, cfg, run).ended ==> Feed(cs, cfg, run).read == |cs| && Feed(cs, cfg, run).outcome.Pass?
    decreases |cs|
  {
    if cs != [] {
      FeedLive(cs[..|cs| - 1], cfg, run);
    }
  }

  /** No text is lost at chunk edges: the lines handed on, each with its
      `'\n'`, followed by the buffer, are exactly the text read so far, and
      neither the buffer nor any line handed on holds a `'\n'`. */
  lemma {:induction false} NoTextLost(cs: seq<string>, cfg: Config, run: Runner)
    ensures Feed(cs, cfg, run).read <= |cs|
    ensures JoinTerminated(Feed(cs, cfg, run).fed, '\n') + Feed(cs, cfg, run).buffer == Concat(cs[..Feed(cs, cfg, run).read])
    ensures '\n' !in Feed(cs, cfg, run).buffer
    ensures forall k :: 0 <= k < |Feed(cs, cfg, run).fed| ==> '\n' !in Feed(cs, cfg, run).fed[k]
    decreases |cs|
  {
    if cs == [] {
      assert cs[..0] == [];
    } else {
      var n := |cs|;
      var init := cs[..n - 1];
      NoTextLost(init, cfg, run);
      FeedLive(init, cfg, run);
      var s := Feed(init, cfg, run);
      assert cs[..s.read] == init[..s.read];
      if !s.ended {
        var chunk := cs[n - 1];
        if chunk != [] {
          assert cs[..s.read + 1] == cs;
          assert cs[..n - 1] == init[..s.read];
          ChunkText(s, chunk, cfg, run);
        } else {
          assert cs[..s.read + 1][..s.read] == cs[..s.read];
          assert Concat(cs[..s.read + 1]) == Concat(cs[..s.read]) + [];
        }
      }
    }
  }

  /** One read keeps the text accounted for. */
  lemma {:induction false} ChunkText(s: Stream, chunk: string, cfg: Config, run: Runner)
    requires chunk != []
    requires '\n' !in s.buffer
    requires forall k :: 0 <= k < |s.fed| ==> '\n' !in s.fed[k]
    ensures JoinTerminated(FeedChunk(s, chunk, cfg, run).fed, '\n') + FeedChunk(s, chunk, cfg, run).buffer
            == JoinTerminated(s.fed, '\n') + s.buffer + chunk
    ensures '\n' !in FeedChunk(s, chunk, cfg, run).buffer
    ensures forall k :: 0 <= k < |FeedChunk(s, chunk, cfg, run).fed| ==> '\n' !in FeedChunk(s, chunk, cfg, run).fed[k]
  {
    var parts := Split(s.buffer + chunk, '\n');
    var m := |parts|;
    var lines := parts[..m - 1];
    SplitJoin(s.buffer + chunk, '\n');
    JoinAsTerminated(parts, '\n');
    TerminatedAppend(s.fed, lines, '\n');
    SplitPartsFree(s.buffer + chunk, '\n');
    var t := FeedChunk(s, chunk, cfg, run);
    assert t.fed == s.fed + lines && t.buffer == parts[m - 1];
    assert JoinTerminated(t.fed, '\n') + t.buffer == JoinTerminated(s.fed, '\n') + (JoinTerminated(lines, '\n') + parts[m - 1]);
    AppendAssoc(JoinTerminated(s.fed, '\n'), s.buffer, chunk);
    assert forall k :: 0 <= k < |t.fed| ==> '\n' !in t.fed[k] by {
      forall k | 0 <= k < |t.fed|
        ensures '\n' !in t.fed[k]
      {
        if k >= |s.fed| {
          assert t.fed[k] == parts[k - |s.fed|];
        }
      }
    }
  }

  /** The lines handed on are exactly the complete lines of the text read,
      and the buffer is what follows the last `'\n'`. */
  lemma {:induction false} FedLines(cs: seq<string>, cfg: Config, run: Runner)
    ensures Feed(cs, cfg, run).read <= |cs|
    ensures Split(Concat(cs[..Feed(cs, cfg, run).read]), '\n') == Feed(cs, cfg, run).fed + [Feed(cs, cfg, run).buffer]
  {
    var s := Feed(cs, cfg, run);
    NoTextLost(cs, cfg, run);
    var parts := s.fed + [s.buffer];
    assert parts[..|parts| - 1] == s.fed;
    JoinAsTerminated(parts, '\n');
    assert forall k :: 0 <= k < |parts| ==> '\n' !in parts[k] by {
      forall k | 0 <= k < |parts|
        ensures '\n' !in parts[k]
      {
        if k < |s.fed| {
          assert parts[k] == s.fed[k];
        }
      }
    }
    JoinSplit(parts, '\n');
  }

  /** Outside test mode, how the text is cut into chunks does not matter:
      the loop is one pass of `process_game_chunk`'s loop over all the
      complete lines read, from a fresh game. */
  lemma {:induction false} FeedIsOnePass(cs: seq<string>, cfg: Config)
    requires !cfg.testMode
    ensures Feed(cs, cfg, ChunkProcessor(cfg)).game == ChunkRun(Feed(cs, cfg, ChunkProcessor(cfg)).fed, NewGame(), cfg).game
    ensures Feed(cs, cfg, ChunkProcessor(cfg)).rows == ChunkRun(Feed(cs, cfg, ChunkProcessor(cfg)).fed, NewGame(), cfg).rows
    ensures Feed(cs, cfg, ChunkProcessor(cfg)).outcome == ChunkRun(Feed(cs, cfg, ChunkProcessor(cfg)).fed, NewGame(), cfg).outcome
    decreases |cs|
  {
    if cs != [] {
      var init := cs[..|cs| - 1];
      FeedIsOnePass(init, cfg);
      FeedLive(init, cfg, ChunkProcessor(cfg));
      var s := Feed(init, cfg, ChunkProcessor(cfg));
      var chunk := cs[|cs| - 1];
      if !s.ended && chunk != [] {
        var parts := Split(s.buffer + chunk, '\n');
        var lines := parts[..|parts| - 1];
        ChunkCounter(s.fed, NewGame(), cfg);
        assert ChunkProcessor(cfg)(lines, s.game) == ChunkRun(lines, s.game, cfg);
        ChunkRunAppend(s.fed, lines, NewGame(), cfg);
      }
    }
  }

  /** Outside test mode, what the run writes is one pass over the complete
      lines followed by `process_moves` on the game they leave: the text
      after the last `'\n'` of the stream never reaches the state machine. */
  lemma {:induction false} OutputOfCompleteLines(cs: seq<string>, cfg: Config)
    requires !cfg.testMode
    ensures var c := ChunkRun(Feed(cs, cfg, ChunkProcessor(cfg)).fed, NewGame(), cfg);
            StreamOutput(cs, cfg)
            == if c.outcome.Fail? then Output(c.rows, c.outcome)
               else Output(c.rows + GameRows(c.game).rows, GameRows(c.game).outcome)
  {
    FeedIsOnePass(cs, cfg);
  }

  /** Across reads, the game the loop hands on still has the carried fields
      of a fresh `GameState()` unless something raised: every game
      `process_moves` finishes, the last one included, starts from them. */
  lemma {:induction false} FeedKeepsFreshPrev(cs: seq<string>, cfg: Config)
    ensures Feed(cs, cfg, ChunkProcessor(cfg)).outcome.Pass? ==> Feed(cs, cfg, ChunkProcessor(cfg)).game.prev == NewGame().prev
    decreases |cs|
  {
    if cs != [] {
      var init := cs[..|cs| - 1];
      FeedKeepsFreshPrev(init, cfg);
      FeedLive(init, cfg, ChunkProcessor(cfg));
      var s := Feed(init, cfg, ChunkProcessor(cfg));
      var chunk := cs[|cs| - 1];
      if !s.ended && chunk != [] {
        var parts := Split(s.buffer + chunk, '\n');
        var lines := parts[..|parts| - 1];
        assert ChunkProcessor(cfg)(lines, s.game) == ChunkRun(lines, s.game, cfg);
        ChunkKeepsFreshPrev(lines, s.game, cfg);
      }
    }
  }

  /** The rows of the last game follow from the rows before them within
      that game, starting from the initial time and an eval of 0.0. */
  lemma {:induction false} LastGameFromFreshState(cs: seq<string>, cfg: Config, tc: TimeControl)
    requires Feed(cs, cfg, ChunkProcessor(cfg)).outcome.Pass?
    requires ParseTimeControl(TimeControlText(Feed(cs, cfg, ChunkProcessor(cfg)).game)) == Ok(tc)
    ensures Consistent(GameRows(Feed(cs, cfg, ChunkProcessor(cfg)).game).rows, NewGame().prev, tc)
  {
    var g := Feed(cs, cfg, ChunkProcessor(cfg)).game;
    FeedKeepsFreshPrev(cs, cfg);
    if g.moves != [] && g.hasClkEval && !g.reject {
      GameRowsMeaning(g, tc);
    }
  }

  /** Outside test mode, with no empty chunk (the end of the stream), a
      loop that has raised nothing reads every chunk. */
  lemma {:induction false} FeedReadsAll(cs: seq<string>, cfg: Config, run: Runner)
    requires !cfg.testMode
    requires forall k :: 0 <= k < |cs| ==> cs[k] != []
    ensures Feed(cs, cfg, run).outcome.Pass? ==> !Feed(cs, cfg, run).ended
    decreases |cs|
  {
    if cs != [] {
      var init := cs[..|cs| - 1];
      assert forall k :: 0 <= k < |init| ==> init[k] != [] by {
        forall k | 0 <= k < |init|
          ensures init[k] != []
        {
          assert init[k] == cs[k];
        }
      }
      FeedReadsAll(init, cfg, run);
    }
  }

  /** Outside test mode, where the stream is cut into chunks does not
      matter: two chunkings of the same text that raise nothing write the
      same rows. */
  lemma {:induction false} ChunkBoundaryInvariant(cs1: seq<string>, cs2: seq<string>, cfg: Config)
    requires !cfg.testMode && Concat(cs1) == Concat(cs2)
    requires forall k :: 0 <= k < |cs1| ==> cs1[k] != []
    requires forall k :: 0 <= k < |cs2| ==> cs2[k] != []
    requires Feed(cs1, cfg, ChunkProcessor(cfg)).outcome.Pass? && Feed(cs2, cfg, ChunkProcessor(cfg)).outcome.Pass?
    ensures StreamOutput(cs1, cfg) == StreamOutput(cs2, cfg)
  {
    var run := ChunkProcessor(cfg);
    var s1 := Feed(cs1, cfg, run);
    var s2 := Feed(cs2, cfg, run);
    FeedReadsAll(cs1, cfg, run);
    FeedReadsAll(cs2, cfg, run);
    FeedLive(cs1, cfg, run);
    FeedLive(cs2, cfg, run);
    FedLines(cs1, cfg, run);
    FedLines(cs2, cfg, run);
    assert cs1[..s1.read] == cs1 && cs2[..s2.read] == cs2;
    assert s1.fed == s2.fed by {
      var p1 := s1.fed + [s1.buffer];
      var p2 := s2.fed + [s2.buffer];
      assert p1 == p2;
      assert p1[..|p1| - 1] == s1.fed && p2[..|p2| - 1] == s2.fed;
    }
    OutputOfCompleteLines(cs1, cfg);
    OutputOfCompleteLines(cs2, cfg);
  }

  /** In test mode the result depends on where the chunks are cut, since
      `lines_processed` restarts at 0 in every `process_game_chunk` call:
      with the default configuration and a limit of two lines, three
      annotated move lines read in one chunk leave two of them in the game,
      but the same text read as two chunks leaves all three. */
  lemma {:induction false} TestModeCountsPerChunk()
    ensures var cfg := DefaultConfig().(testMaxLines := 2);
            var a := "%clk%eval";
            Concat([a + "\n" + a + "\n" + a + "\n"]) == Concat([a + "\n", a + "\n" + a + "\n"])
            && Feed([a + "\n" + a + "\n" + a + "\n"], cfg, ChunkProcessor(cfg)).game.moves == [a, a]
            && Feed([a + "\n", a + "\n" + a + "\n"], cfg, ChunkProcessor(cfg)).game.moves == [a, a, a]
  {
    var cfg := DefaultConfig().(testMaxLines := 2);
    var a := "%clk%eval";
    var one := a + "\n";
    var two := a + "\n" + a + "\n";
    var three := a + "\n" + a + "\n" + a + "\n";
    assert Concat([three]) == three by {
      assert [three][..0] == [];
    }
    assert Concat([one, two]) == three by {
      assert [one, two][..1] == [one];
      assert [one][..0] == [];
    }
    OneChunkKeepsTwo(cfg);
    TwoChunksKeepThree(cfg);
  }

  /** Three annotated move lines in one chunk, with a limit of two. */
  lemma {:induction false} OneChunkKeepsTwo(cfg: Config)
    requires cfg.testMode && cfg.testMaxLines == 2
    ensures var a := "%clk%eval";
            Feed([a + "\n" + a + "\n" + a + "\n"], cfg, ChunkProcessor(cfg)).game.moves == [a, a]
  {
    var a := "%clk%eval";
    var run := ChunkProcessor(cfg);
    var three := a + "\n" + a + "\n" + a + "\n";
    var cs := [three];
    LinesSplit(a);
    AnnotatedRuns(NewGame(), cfg);
    assert cs[..0] == [] && cs[..1] == cs;
    FeedStep(cs, 0, cfg, run);
    var s0 := Feed([], cfg, run);
    assert s0.buffer + three == three;
    FeedChunkOf(s0, three, cfg, [a, a, a], []);
  }

  /** The first of the two chunks: one line, counted once. */
  lemma {:induction false} FirstChunkCountsOne(cfg: Config)
    requires cfg.testMode && cfg.testMaxLines == 2
    ensures var a := "%clk%eval";
            Feed([a + "\n"], cfg, ChunkProcessor(cfg)).game.moves == [a]
            && Feed([a + "\n"], cfg, ChunkProcessor(cfg)).buffer == []
            && !Feed([a + "\n"], cfg, ChunkProcessor(cfg)).ended
  {
    var a := "%clk%eval";
    var run := ChunkProcessor(cfg);
    var one := a + "\n";
    var cs := [one];
    LinesSplit(a);
    AnnotatedRuns(NewGame(), cfg);
    assert cs[..0] == [] && cs[..1] == cs;
    FeedStep(cs, 0, cfg, run);
    var s0 := Feed([], cfg, run);
    assert s0.buffer + one == one;
    FeedChunkOf(s0, one, cfg, [a], []);
  }

  /** A read of two annotated move lines after a complete line: both are
      kept, the count starting again at 0. */
  lemma {:induction false} SecondChunkKeepsTwo(s: Stream, cfg: Config)
    requires cfg.testMode && cfg.testMaxLines == 2 && s.buffer == []
    ensures var a := "%clk%eval";
            FeedChunk(s, a + "\n" + a + "\n", cfg, ChunkProcessor(cfg)).game.moves == s.game.moves + [a, a]
  {
    var a := "%clk%eval";
    var two := a + "\n" + a + "\n";
    LinesSplit(a);
    assert s.buffer + two == two;
    FeedChunkOf(s, two, cfg, [a, a], []);
    AnnotatedRuns(s.game, cfg);
  }

  /** The same text as two chunks keeps all three lines. */
  lemma {:induction false} TwoChunksKeepThree(cfg: Config)
    requires cfg.testMode && cfg.testMaxLines == 2
    ensures var a := "%clk%eval";
            Feed([a + "\n", a + "\n" + a + "\n"], cfg, ChunkProcessor(cfg)).game.moves == [a, a, a]
  {
    var a := "%clk%eval";
    var run := ChunkProcessor(cfg);
    var one := a + "\n";
    var two := a + "\n" + a + "\n";
    var cs := [one, two];
    FirstChunkCountsOne(cfg);
    var s1 := Feed([one], cfg, run);
    assert cs[..1] == [one] && cs[..2] == cs;
    FeedStep(cs, 1, cfg, run);
    SecondChunkKeepsTwo(s1, cfg);
    assert [a] + [a, a] == [a, a, a];
  }

  /** One non-empty read whose text splits into the complete lines `lines`
      and the rest `rest`. */
  lemma {:induction false} FeedChunkOf(s: Stream, chunk: string, cfg: Config, lines: seq<string>, rest: string)
    requires chunk != [] && Split(s.buffer + chunk, '\n') == lines + [rest]
    ensures FeedChunk(s, chunk, cfg, ChunkProcessor(cfg)).game == ChunkRun(lines, s.game, cfg).game
    ensures FeedChunk(s, chunk, cfg, ChunkProcessor(cfg)).buffer == rest
    ensures FeedChunk(s, chunk, cfg, ChunkProcessor(cfg)).total == s.total + ChunkRun(lines, s.game, cfg).processed
    ensures FeedChunk(s, chunk, cfg, ChunkProcessor(cfg)).ended
            == (ChunkRun(lines, s.game, cfg).outcome.Fail?
                || (cfg.testMode && s.total + ChunkRun(lines, s.game, cfg).processed >= cfg.testMaxLines))
  {
    var parts := lines + [rest];
    assert parts[..|parts| - 1] == lines;
    assert ChunkProcessor(cfg)(lines, s.game) == ChunkRun(lines, s.game, cfg);
  }

  /** How one, two and three `'\n'`-terminated copies of a line split. */
  lemma {:induction false} LinesSplit(a: string)
    requires '\n' !in a
    ensures Split(a + "\n", '\n') == [a] + [[]]
    ensures Split(a + "\n" + a + "\n", '\n') == [a, a] + [[]]
    ensures Split(a + "\n" + a + "\n" + a + "\n", '\n') == [a, a, a] + [[]]
  {
    var one := a + "\n";
    var two := a + "\n" + a + "\n";
    assert one == a + ['\n'] + [];
    SplitPrefix(a, [], '\n');
    assert two == a + ['\n'] + one;
    SplitPrefix(a, one, '\n');
    assert a + "\n" + a + "\n" + a + "\n" == a + ['\n'] + two;
    SplitPrefix(a, two, '\n');
  }

  /** The loop over one, two and three annotated move lines in test mode
      with a limit of two: the count stops the loop at the second line. */
  lemma {:induction false} AnnotatedRuns(g: Game, cfg: Config)
    requires cfg.testMode && cfg.testMaxLines == 2
    ensures ChunkRun(["%clk%eval"], g, cfg).game.moves == g.moves + ["%clk%eval"]
    ensures ChunkRun(["%clk%eval"], g, cfg).processed == 1 && Live(ChunkRun(["%clk%eval"], g, cfg))
    ensures ChunkRun(["%clk%eval", "%clk%eval"], g, cfg).game.moves == g.moves + ["%clk%eval", "%clk%eval"]
    ensures ChunkRun(["%clk%eval", "%clk%eval"], g, cfg).outcome.Pass?
    ensures ChunkRun(["%clk%eval", "%clk%eval", "%clk%eval"], g, cfg).game.moves == g.moves + ["%clk%eval", "%clk%eval"]
  {
    var a := "%clk%eval";
    var c0 := Chunk(g, [], 0, Pass, false);
    assert [a][..0] == [];
    AnnotatedLineCounted(c0, cfg);
    var c1 := ChunkStep(c0, a, cfg);
    assert ChunkRun([a], g, cfg) == c1;
    AnnotatedLineCounted(c1, cfg);
    var c2 := ChunkStep(c1, a, cfg);
    assert [a, a][..1] == [a];
    assert ChunkRun([a, a], g, cfg) == c2;
    assert c2.stopped;
    assert [a, a, a][..2] == [a, a];
    assert ChunkRun([a, a, a], g, cfg) == c2;
    assert g.moves + [a] + [a] == g.moves + [a, a];
  }

  /** An annotated move line is kept, and in test mode counted. */
  lemma {:induction false} AnnotatedLineCounted(c: Chunk, cfg: Config)
    requires Live(c) && cfg.testMode
    ensures ChunkStep(c, "%clk%eval", cfg)
            == Chunk(c.game.(hasClkEval := true, moves := c.game.moves + ["%clk%eval"]), c.rows, c.processed + 1, Pass,
                     c.processed + 1 >= cfg.testMaxLines)
  {
    var a := "%clk%eval";
    StripOfUnpadded(a);
    assert a[..4] == "%clk";
    assert a[4..9] == "%eval";
    ContainsAt(a, "%eval", 4);
    assert c.rows + [] == c.rows;
  }

  /** Outside test mode, the loop over `xs + ys` is the loop over `xs`
      followed by the loop over `ys` from the game `xs` left. */
  lemma {:induction false} ChunkRunAppend(xs: seq<string>, ys: seq<string>, g0: Game, cfg: Config)
    requires !cfg.testMode && Live(ChunkRun(xs, g0, cfg))
    ensures ChunkRun(xs + ys, g0, cfg)
            == ChunkRun(ys, ChunkRun(xs, g0, cfg).game, cfg).(rows := ChunkRun(xs, g0, cfg).rows + ChunkRun(ys, ChunkRun(xs, g0, cfg).game, cfg).rows)
    decreases |ys|
  {
    var a := ChunkRun(xs, g0, cfg);
    ChunkCounter(xs, g0, cfg);
    if ys == [] {
      assert xs + ys == xs;
      assert a.rows + [] == a.rows;
    } else {
      var n := |ys|;
      var init := ys[..n - 1];
      assert (xs + ys)[..|xs + ys| - 1] == xs + init;
      assert (xs + ys)[|xs + ys| - 1] == ys[n - 1];
      ChunkRunAppend(xs, init, g0, cfg);
      var b := ChunkRun(init, a.game, cfg);
      if Live(b) {
        StepShift(b, a.rows, ys[n - 1], cfg);
      }
    }
  }

  /** One step of the loop does not look at the rows produced before it. */
  lemma {:induction false} StepShift(c: Chunk, pre: seq<Row>, line: string, cfg: Config)
    ensures ChunkStep(c.(rows := pre + c.rows), line, cfg)
            == ChunkStep(c, line, cfg).(rows := pre + ChunkStep(c, line, cfg).rows)
  {
    var s := Strip(line);
    if s != [] {
      AppendAssoc(pre, c.rows, HandleLine(c.game, s, cfg).rows);
    }
  }
}
