# Chess game stream parser, modelled in Dafny

The program reads a zstd-compressed PGN dump of chess games as a stream,
keeps the games whose players are rated at least `min_elo`, that were not
abandoned, and whose moves carry `[%eval …]` and `[%clk …]` annotations,
and writes one CSV row per half-move: the move number with `w` or `b`, the
engine evaluation, the evaluation lost by the side to move (never negative),
the clock left, and the time spent (the side's previous clock, or the
initial time for its first move, minus the clock now, plus the increment).

The model follows the program's structure:

- `PyText`: the Python `str` operations the code relies on (`isspace`,
  `strip`, `startswith`, `in`, `split`), with their properties. `Join`,
  which the code never calls, is there only to state that `split` loses
  nothing.
- `Converters`: `int()` and `float()` on text, and the three static
  converters `clock_to_seconds`, `parse_eval` and `parse_time_control`.
  A raised exception is an `Err` (`ValueError` or `IndexError`).
- `MovePattern`: `MOVE_PATTERN` and `finditer`, written as a scanner over
  the line, with round-trip lemmas. Each well-formed move unit's text is
  matched back into its seven groups.
- `RowEmitter`: the rows `process_moves` derives from the matched units, as
  a function. It comes with what the rows mean: each row is read off its
  unit's texts in order, and its loss and time spent follow from the rows
  before it.
- `ChessParser`: `GameState` and the CSV buffer as classes.
  `process_moves` is the imperative method `ProcessMoves`, proved against
  `GameRows`. `should_reject_game` is a function.
- `GameChunk`: `process_game_chunk` as the imperative method
  `ProcessGameChunk`, proved against the line-by-line function `ChunkRun`.
- `StreamDriver`: the main loop of `stream_decompress_and_process`.
  - The decompressed stream is the sequence of chunks `reader.read`
    returns; an empty chunk is the end of the stream.
  - The CSV file is the sequence of rows written so far.
  - The method is proved against `StreamOutput`, and the lemmas show that
    the buffer splitting loses no text and cuts the stream exactly at its
    newlines.

Where the code's behaviour may surprise a reader, the model follows the code:

- A clock written without a colon (`[%clk 180]`) reads as 0 seconds.
- A malformed `TimeControl` or Elo header raises rather than falling back
  to a default.
- Fields after a second `+` in a time control are ignored.
- `Abandoned` is looked for anywhere in a `Termination` line.
- `exclude_abandoned` has no effect.
- `int()` and `float()` do not skip the separators U+001C to U+001F, which
  `strip()` and `\s` treat as whitespace. A clock such as
  `[%clk 0:03:00\x1c]` keeps the separator in its group, and reading it
  raises `ValueError` (`Converters.SeparatorRejected`).
- The test-mode line counter restarts at zero for every chunk. In test
  mode, which is the default, the result therefore depends on where the
  stream is cut into chunks: with a limit of two lines, three move lines
  read as one chunk keep two, but read as two chunks they keep all three
  (`StreamDriver.TestModeCountsPerChunk`). Outside test mode the chunking
  does not matter (`StreamDriver.ChunkBoundaryInvariant`).

## Model

| member | source | states |
|---|---|---|
| PyText.Strip | main.py:36 | the stripped line starts and ends with a non-space character and is no longer than the line |
| PyText.StripEmpty | main.py:36-38 | a line strips to nothing exactly when it is all whitespace, which is what makes the line skipped |
| PyText.StripPadded | main.py:36 | stripping removes exactly the whitespace margins around a text that has none of its own |
| PyText.SplitPartsFree | main.py:105 | no part of `split(c)` contains `c` |
| PyText.SplitJoin | main.py:105-106 | joining the parts of a split with the separator gives the text back |
| PyText.JoinSplit | main.py:105 | splitting the join of separator-free parts gives the parts back |
| PyText.SplitCount | chess_parser.py:34-39 | a split has one part more than the text has separators |
| PyText.ContainsWitness | main.py:56 | a text that contains another has it at some position |
| PyText.ContainsAt | main.py:56 | a text with another at some position contains it |
| Converters.NumStripPadded | chess_parser.py:36-38 | the whitespace `int()` and `float()` skip is exactly the margins of that kind around a text without them |
| Converters.SeparatorRejected | chess_parser.py:36-46 | `int()` and `float()` raise `ValueError` on a text ending in one of U+001C to U+001F |
| Converters.ParseInt | chess_parser.py:36-38 | `int()` fails only with `ValueError` |
| Converters.ParseIntOfText | chess_parser.py:36-38 | `int()` reads back any integer's decimal text, even with whitespace it skips around it |
| Converters.ParseIntOfInt | chess_parser.py:105 | `int(str(n)) == n` for every integer, negative ones included |
| Converters.ParseIntOfNumeral | chess_parser.py:36-38 | a string of ASCII digits reads as its decimal value |
| Converters.ParseFloat | chess_parser.py:46 | `float()` fails only with `ValueError` |
| Converters.ParseFloatOfDecimal | chess_parser.py:46 | `float("W.F")` and `float("-W.F")` are plus or minus W + F / 10^len(F) |
| Converters.ClockToSeconds | chess_parser.py:32-39 | `clock_to_seconds` fails only with `ValueError` |
| Converters.ClockOfParts | chess_parser.py:34-39 | any number of `:`-fields other than two or three gives 0 |
| Converters.ClockOfOtherShape | chess_parser.py:34-39 | a clock text with neither one nor two colons gives 0 |
| Converters.ClockWithoutColon | chess_parser.py:34-39 | a clock text without a colon, such as `180`, gives 0 |
| Converters.ClockOfMs | chess_parser.py:35-36 | `M:S` gives 60·M + S |
| Converters.ClockOfHms | chess_parser.py:37-38 | `H:M:S` gives 3600·H + 60·M + S |
| Converters.ClockOfBadField | chess_parser.py:35-36 | `M:S` with a field `int()` rejects raises `ValueError` |
| Converters.ParseEval | chess_parser.py:42-46 | a mate score (`#…`) is -10 when it begins `#-` and 10 otherwise, and never fails; anything else is `float()` of the text |
| Converters.MateScore | chess_parser.py:44-45 | `#n` gives -10 when n is negative (`#-`) and 10 otherwise |
| Converters.ParseTimeControl | chess_parser.py:49-52 | a time control without `+` raises |
| Converters.TimeControlOfText | chess_parser.py:49-52 | `B+I`, with anything after a further `+`, reads as initial time B and increment I |
| MovePattern.Match | chess_parser.py:22-25 | a match consumes at least one character |
| MovePattern.TagOf | chess_parser.py:23 | a ` [key value]` tag is read back as its value, with the rest after `]` left |
| MovePattern.AnnotationOf | chess_parser.py:23-24 | `{ [%eval E] [%clk C] }` is read back as E and C |
| MovePattern.WhiteMoveOf | chess_parser.py:23 | white's move text before `{` is captured as written |
| MovePattern.BlackMoveOf | chess_parser.py:24 | black's move text before `{`, possibly empty, is captured as written |
| MovePattern.WhiteHalfOf | chess_parser.py:23 | white's move with its annotation is read back into its three groups |
| MovePattern.BlackHalfOf | chess_parser.py:24 | black's move with its annotation is read back into its three groups |
| MovePattern.MatchOf | chess_parser.py:22-25 | the text of a well-formed move unit matches with exactly its seven groups, leaving what follows |
| MovePattern.ScanUnit | chess_parser.py:63 | `finditer` on a unit's text yields that unit and then the matches of what follows |
| MovePattern.ScanSkipsSpace | chess_parser.py:22-25 | `finditer` finds nothing starting in whitespace, so leading whitespace does not change the matches |
| MovePattern.ScanOfUnits | chess_parser.py:63 | `finditer` on a move line of several units separated by spaces yields exactly those units in order, then the matches of the tail |
| MovePattern.MatchUsesTwoBraces | chess_parser.py:22-25 | every match consumes at least two `{` |
| MovePattern.ScanNeedsTwoBraces | chess_parser.py:22-25 | a text with fewer than two `{`, such as a last move by white alone, yields no match |
| MovePattern.BlackMoveEmpty | chess_parser.py:24 | black's move group is empty exactly when only whitespace stands between white's `}` and the next `{` |
| RowEmitter.Max0 | chess_parser.py:77 | `max(0, x)` is at least 0, at least x, and one of the two |
| RowEmitter.UnitReadOff | chess_parser.py:65-98 | a unit's rows are white's reading, then black's if black moved, each converted; a conversion that raises stops there with its error |
| RowEmitter.UnitFollows | chess_parser.py:68-100 | a unit's rows follow from the carried fields, and afterwards the fields are those the rows leave |
| RowEmitter.EmitReadOff | chess_parser.py:62-98 | all units' rows are the readings in order, each converted; the run passes exactly when every reading converts, and otherwise stops at the first that does not with its error |
| RowEmitter.EmitFollows | chess_parser.py:62-100 | every row's loss and time spent follow from the rows before it, and a finished run leaves the carried fields summarising its rows |
| RowEmitter.LossNonNegative | chess_parser.py:74-96 | no row has a negative loss |
| RowEmitter.EmitStops | chess_parser.py:62-98 | once a unit raises, later units add no rows and change no fields |
| RowEmitter.EmitAppend | chess_parser.py:62-66 | processing two runs of units is the first run, then the second from where it left the fields |
| ChessParser.GameState.constructor | chess_parser.py:7-16 | a new game state has no moves, no metadata, no flags, no clocks and an eval of 0.0 |
| ChessParser.RowBuffer.Append | chess_parser.py:74-80 | the row is added at the end of the buffer |
| ChessParser.RowBuffer.Clear | main.py:117 | the buffer is emptied |
| ChessParser.GameRows | chess_parser.py:56-57 | a game without moves, without annotations or rejected yields no rows and cannot raise |
| ChessParser.ProcessMoves | chess_parser.py:54-100 | the buffer gains exactly the game's rows; the carried fields end as those rows leave them and nothing else of the state changes; a conversion that raises is reported with the rows and fields as far as they got |
| ChessParser.ProcessLine | chess_parser.py:63-100 | one move line's matches are processed in order from the carried fields |
| ChessParser.ProcessMatch | chess_parser.py:66-100 | one match appends white's row, then black's, and updates the carried fields |
| ChessParser.ProcessBlack | chess_parser.py:84-98 | black's row is appended only when black moved |
| ChessParser.DefaultTimeControl | chess_parser.py:60 | a game without a `TimeControl` header is read as 0+0 |
| ChessParser.GameRowsMeaning | chess_parser.py:54-100 | a played game's rows are read off its units in order; each row follows from the rows before it, no loss is negative, and the only error is `ValueError` |
| ChessParser.PyReadsValueErrors | chess_parser.py:32-46 | reading a clock or an eval raises only `ValueError` |
| ChessParser.ShouldRejectGame | chess_parser.py:102-112 | only Elo headers can raise; a line that is not an Elo or `Termination` header never rejects |
| ChessParser.EloVerdict | chess_parser.py:104-109 | an Elo header with a quoted rating rejects exactly when the rating is below `min_elo` |
| ChessParser.EloUnquoted | chess_parser.py:104-108 | an Elo header without a quote raises `IndexError` |
| ChessParser.TerminationVerdict | chess_parser.py:110-111 | a `Termination` header rejects exactly when it contains `Abandoned` |
| GameChunk.ProcessGameChunk | main.py:14-66 | the returned state, the rows added to the buffer, the line count and the outcome are those of running the lines one by one, stopping at an exception or at the test-mode limit |
| GameChunk.ProcessChunkStep | main.py:35-64 | one line: blank lines are skipped without counting; otherwise the line is handled and counted in test mode |
| GameChunk.ProcessChunkLine | main.py:40-58 | an `[Event ` line finishes the previous game and starts a new state; other headers may reject the game or set its time control; annotated move lines are kept |
| GameChunk.ChunkStops | main.py:63-64 | once the run has stopped, the remaining lines change nothing |
| GameChunk.BlankLineSkipped | main.py:36-62 | an all-whitespace line changes nothing; any other line adds one to the count in test mode and none otherwise |
| GameChunk.ChunkCounter | main.py:61-64 | outside test mode nothing is counted and the run never stops early; in test mode the run stops only on reaching the limit, and for a positive limit the count never exceeds it |
| GameChunk.HandleWithoutEvent | main.py:48-58 | a line other than `[Event ` emits no rows, keeps the carried fields, never clears a rejection, and adds exactly the annotated move lines to the moves |
| GameChunk.ChunkWithoutEvent | main.py:48-53 | lines without `[Event ` emit no rows and never clear a rejection; with the filter off they change neither the metadata nor the rejection |
| GameChunk.MovesKept | main.py:54-58 | outside test mode, for lines without `[Event ` and a run that raises nothing, the moves gain exactly the non-header lines that carry both `%clk` and `%eval`, in order |
| GameChunk.HandleKeepsAnnotated | main.py:56-58 | a game has its annotation flag set exactly when it has moves, and all its moves carry both annotations; each line keeps this |
| GameChunk.ChunkKeepsAnnotated | main.py:56-58 | the same holds after any run of lines |
| GameChunk.EventStartsFresh | main.py:43-47 | an `[Event ` line emits the previous game's rows and, when they convert, starts from a new game state |
| GameChunk.ChunkKeepsFreshPrev | main.py:35-64 | from a fresh game, every game the loop reaches without raising still has the carried fields of a fresh state |
| GameChunk.EventFinishesFreshGame | main.py:43-47 | the game an `[Event ` line hands to `process_moves` has the carried fields of a fresh state, so each side's first move is timed from the initial time; its rows follow those of the loop so far |
| GameChunk.TimeControlStored | main.py:52-53 | with the filter on, a `[TimeControl "v"]` header stores `v` and changes nothing else |
| StreamDriver.StreamDecompressAndProcess | main.py:93-125 | the outcome is that of the whole stream; the rows written are a prefix of its rows, and all of them when nothing raised |
| StreamDriver.ReadChunk | main.py:104-117 | one chunk: the buffer is extended and split, the complete lines are processed and the rest is kept; the CSV buffer is written out and emptied exactly when it holds more than `max_csv_buffer_size` rows, and nothing is written when it holds fewer or when something raised |
| StreamDriver.FinishStream | main.py:122-125 | the last game is processed and every remaining row is written |
| StreamDriver.FeedStops | main.py:99-120 | once the stream has ended, further chunks change nothing |
| StreamDriver.FeedLive | main.py:99-120 | a stream still running has read every chunk and has not raised |
| StreamDriver.NoTextLost | main.py:104-106 | the lines handed on, each followed by a newline, then the kept buffer are exactly the text read so far; neither contains a newline |
| StreamDriver.ChunkText | main.py:104-106 | reading one chunk keeps the text consumed so far equal to the lines handed on plus the buffer |
| StreamDriver.FedLines | main.py:104-106 | splitting the text read so far at newlines gives the lines handed on, then the buffer |
| StreamDriver.ChunkRunAppend | main.py:35-64 | outside test mode, processing lines in two chunks is the same as processing them in one |
| StreamDriver.FeedIsOnePass | main.py:99-112 | outside test mode, the game, rows and outcome after any number of chunks are those of one pass over all the complete lines |
| StreamDriver.FeedKeepsFreshPrev | main.py:93-112 | across reads, the game handed on has the carried fields of a fresh state unless something raised |
| StreamDriver.LastGameFromFreshState | main.py:123 | when nothing raised before the end, the last game's rows follow from each other starting from the initial time and an eval of 0.0 |
| StreamDriver.FeedReadsAll | main.py:99-120 | outside test mode, with no empty chunk (an empty read ends the stream), a loop that raised nothing has read every chunk |
| StreamDriver.ChunkBoundaryInvariant | main.py:99-125 | outside test mode, two chunkings of the same text that contain no empty chunk and raise nothing write the same rows with the same outcome |
| StreamDriver.TestModeCountsPerChunk | main.py:61-64 | in test mode with a limit of two, the same three move lines keep two when read as one chunk and three when read as two |
| StreamDriver.OneChunkKeepsTwo | main.py:61-64 | three annotated move lines in one chunk keep two under a limit of two |
| StreamDriver.TwoChunksKeepThree | main.py:109-120 | the same lines cut after the first keep all three, since the count restarts for the second chunk |
| StreamDriver.OutputOfCompleteLines | main.py:104-125 | outside test mode, the whole output is one pass over the complete lines of the stream followed by the last game's rows; the incomplete last line is never processed |

## Left out

- The HTTP download, the status check, zstd decompression, the CSV file, its header row and its writer are left out. Chunks are the decoded text `reader.read` returns, and the file is the sequence of rows written.
- The UTF-8 decoding of each chunk with `errors='replace'` is left out: chunks are already text. A multi-byte character split across two chunks is not modelled.
- `chunk_size` is left out, because it only decides how the stream is cut into chunks, and the chunks are an input.
- Floating point is left out: evals are exact reals, so binary rounding is not modelled.
- Also missing from `float()` and `int()`: `inf`, `nan`, underscores in numerals and non-ASCII digits.
- Non-ASCII digits are not modelled in `MOVE_PATTERN` either. There `\d+` matches any Unicode decimal digit, but the scanner accepts ASCII digits only. A move numbered in, for example, Arabic-Indic digits yields rows in the program and none in the model.
- Converters.ParseIntOfInt: Python's limit of 4300 digits on converting an integer to or from text is not modelled. Python raises `ValueError` past it, while the lemma holds for integers of any length.
- Converters.ParseIntOfText: the same 4300-digit limit is not modelled here.
- The `min_elo` parameter of `process_moves` and the `state` parameter of `should_reject_game` are left out, because the code never uses them.
- `exclude_abandoned` in config.py is left out, because the code never reads it.
- `test_max_lines = None`, which makes the comparison raise `TypeError`, is not modelled: the limit is an integer.
- Profiling, argument parsing, `main`, plot.py and speed_test.py are not part of this model.
- StreamDriver.StreamDecompressAndProcess: when an exception stops the stream, it states only that the rows written are a prefix of the stream's rows, not which flush they stop at.
- RowEmitter states its properties for any clock and eval readers, so they do not depend on the text formats. ChessParser instantiates them with `clock_to_seconds` and `parse_eval`.
