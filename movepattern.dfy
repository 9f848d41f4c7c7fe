/** The move-unit pattern of the parser (`MOVE_PATTERN` in
    `chess_parser.py`) as a deterministic scanner, and `finditer` over it.

    The pattern reads one full move with both annotations:

        N. <white move> {[%eval E][%clk C]} <black move> {[%eval E][%clk C]}

    with optional whitespace between the pieces.  Every repeated group of the
    pattern stops at a fixed delimiter it cannot cross (`\d+` at `.`,
    `[^{]+` and `[^{]*` at the next `{`, `[^\]]*` at the next `]`), so all
    backtracking alternatives reach the same delimiter and continue from the
    same place: the pattern matches at a position exactly when the greedy
    reading below does, and the groups are the greedy ones.  Two consequences
    of greediness are kept: a move text keeps its trailing blanks (the `\s*`
    after the group matches nothing), and the black move is empty exactly
    when only whitespace separates the white annotation from the next `{`.
    The one exception is a white move that is absent: then `\s*` gives back
    its last whitespace character, which becomes the move text. */
module MovePattern {
  import opened Results
  import opened PyText
  import opened Converters

  /** The seven groups of one match, in pattern order. */
  datatype MoveUnit = MoveUnit(
    number: string,
    whiteMove: string, whiteEval: string, whiteClock: string,
    blackMove: string, blackEval: string, blackClock: string)

  /** A value read from the front of a text, and the text after it. */
  datatype Parsed<+T> = Parsed(value: T, rest: string)

  datatype Annot = Annot(eval: string, clock: string)

  /** `r` is what is left of `t` after a prefix has been read. */
  predicate IsSuffix(r: string, t: string) {
    |r| <= |t| && t[|t| - |r|..] == r
  }

  lemma {:induction false} SuffixTrans(a: string, b: string, c: string)
    requires IsSuffix(a, b) && IsSuffix(b, c)
    ensures IsSuffix(a, c)
  {
    assert c[|c| - |b|..][|b| - |a|..] == c[|c| - |a|..];
  }

  /** The length of the leading whitespace (`\s*`, greedy). */
  function SpaceRun(t: string): (n: nat)
    ensures n <= |t| && AllSpace(t[..n])
    ensures n < |t| ==> !IsSpace(t[n])
  {
    if t != [] && IsSpace(t[0]) then
      var n := 1 + SpaceRun(t[1..]);
      assert t[..n] == [t[0]] + t[1..][..n - 1];
      n
    else 0
  }

  function SkipSpace(t: string): (r: string)
    ensures |r| <= |t|
    ensures r == [] || !IsSpace(r[0])
  {
    t[SpaceRun(t)..]
  }

  /** The length of the text before the first `c`, or of all of it. */
  function UpTo(t: string, c: char): (n: nat)
    ensures n <= |t| && c !in t[..n]
    ensures n < |t| ==> t[n] == c
  {
    if t != [] && t[0] != c then
      var n := 1 + UpTo(t[1..], c);
      assert t[..n] == [t[0]] + t[1..][..n - 1];
      n
    else 0
  }

  /** `([^\]]*)\]`: the text up to the next `]`, which is then consumed. */
  function Field(t: string): (r: Option<Parsed<string>>)
    ensures r.Some? ==> |r.value.rest| < |t| && ']' !in r.value.value
  {
    var i := UpTo(t, ']');
    if i == |t| then None else Some(Parsed(t[..i], t[i + 1..]))
  }

  /** `\s*\[%key\s*([^\]]*)\]`, with `key` the bracket and tag name. */
  function Tag(t: string, key: string): (r: Option<Parsed<string>>)
    ensures r.Some? ==> |r.value.rest| < |t| && ']' !in r.value.value
  {
    var a := SkipSpace(t);
    if !StartsWith(a, key) then None
    else
      var b := SkipSpace(a[|key|..]);
      Field(b)
  }

  /** The annotation after a `{`:
      `\s*\[%eval\s*([^\]]*)\]\s*\[%clk\s*([^\]]*)\]\s*\}`. */
  function Annotation(t: string): (r: Option<Parsed<Annot>>)
    ensures r.Some? ==> |r.value.rest| < |t|
  {
    match Tag(t, "[%eval")
    case None => None
    case Some(e) =>
      match Tag(e.rest, "[%clk")
      case None => None
      case Some(c) =>
        var d := SkipSpace(c.rest);
        if d != [] && d[0] == '}' then
          Some(Parsed(Annot(e.value, c.value), d[1..]))
        else None
  }

  /** The text after a move: consumed up to and including its `{`. */
  predicate AfterBrace(r: string, t: string) {
    |r| < |t| && IsSuffix(r, t) && t[|t| - |r| - 1] == '{'
  }

  /** White's move, `\s*([^\{]+)\s*\{`, leaving the text after the `{`. */
  function WhiteMove(t: string): (r: Option<Parsed<string>>)
    ensures r.Some? ==> |r.value.rest| < |t|
    ensures r.Some? ==> r.value.value != [] && '{' !in r.value.value
  {
    var w := SpaceRun(t);
    var x := UpTo(t[w..], '{');
    if w + x == |t| || w + x == 0 then None
    else
      assert x == 0 ==> t[w - 1] != '{' by {
        if x == 0 { assert IsSpace(t[..w][w - 1]); }
      }
      Some(Parsed(if x > 0 then t[w..w + x] else [t[w - 1]], t[w + x + 1..]))
  }

  /** Black's move, `\s*([^\{]*)\s*\{`, possibly empty. */
  function BlackMove(t: string): (r: Option<Parsed<string>>)
    ensures r.Some? ==> |r.value.rest| < |t| && '{' !in r.value.value
  {
    var w := SpaceRun(t);
    var y := UpTo(t[w..], '{');
    if w + y == |t| then None else Some(Parsed(t[w..w + y], t[w + y + 1..]))
  }

  /** One side's part of a unit: its move text and annotation. */
  datatype Half = Half(move: string, eval: string, clock: string)

  /** White's move and annotation. */
  function WhiteHalf(t: string): (r: Option<Parsed<Half>>)
    ensures r.Some? ==> |r.value.rest| < |t|
  {
    match WhiteMove(t)
    case None => None
    case Some(m) =>
      match Annotation(m.rest)
      case None => None
      case Some(a) => Some(Parsed(Half(m.value, a.value.eval, a.value.clock), a.rest))
  }

  /** Black's move and annotation. */
  function BlackHalf(t: string): (r: Option<Parsed<Half>>)
    ensures r.Some? ==> |r.value.rest| < |t|
  {
    match BlackMove(t)
    case None => None
    case Some(m) =>
      match Annotation(m.rest)
      case None => None
      case Some(a) => Some(Parsed(Half(m.value, a.value.eval, a.value.clock), a.rest))
  }

  /** One match of the pattern at the front of `t`. */
  function Match(t: string): (r: Option<Parsed<MoveUnit>>)
    ensures r.Some? ==> |r.value.rest| < |t|
  {
    var n := DigitRun(t);
    if n == 0 || n == |t| || t[n] != '.' then None
    else
      match WhiteHalf(t[n + 1..])
      case None => None
      case Some(w) =>
        match BlackHalf(w.rest)
        case None => None
        case Some(b) =>
          Some(Parsed(MoveUnit(t[..n], w.value.move, w.value.eval, w.value.clock,
                               b.value.move, b.value.eval, b.value.clock), b.rest))
  }

  /** `finditer`: the matches from left to right, each search resuming where
      the previous match ended, or one character further after a miss. */
  function Scan(t: string): seq<MoveUnit>
    decreases |t|
  {
    if t == [] then []
    else
      match Match(t)
      case Some(m) => [m.value] + Scan(m.rest)
      case None => Scan(t[1..])
  }

  // ---------------------------------------------------------------------
  // The text of a unit, and the scanner reading it back

  /** A group value the pattern can hand back unchanged: free of its
      delimiter and not starting with whitespace the `\s*` before it eats. */
  predicate FieldText(v: string) {
    ']' !in v && (v == [] || !IsSpace(v[0]))
  }

  predicate WellFormed(u: MoveUnit) {
    Numeral(u.number)
    && u.whiteMove != [] && !IsSpace(u.whiteMove[0]) && '{' !in u.whiteMove
    && (u.blackMove == [] || !IsSpace(u.blackMove[0])) && '{' !in u.blackMove
    && FieldText(u.whiteEval) && FieldText(u.whiteClock)
    && FieldText(u.blackEval) && FieldText(u.blackClock)
  }

  /** ` [key value]` followed by `rest`. */
  function TagText(key: string, v: string, rest: string): string {
    " " + key + " " + v + "]" + rest
  }

  /** ` [%eval E] [%clk C] }` followed by `rest`: an annotation after its `{`. */
  function AnnotText(e: string, c: string, rest: string): string {
    TagText("[%eval", e, TagText("[%clk", c, " }" + rest))
  }

  /** The text of a unit as the game records write it, followed by `rest`:
      `N. white { [%eval E] [%clk C] } black { [%eval E] [%clk C] }`. */
  function UnitText(u: MoveUnit, rest: string): string {
    u.number + "." + (" " + u.whiteMove + "{"
      + AnnotText(u.whiteEval, u.whiteClock,
          " " + u.blackMove + "{" + AnnotText(u.blackEval, u.blackClock, rest)))
  }

  /** The texts of several units, separated by a space as in a game
      record's move line, then `tail`. */
  function UnitsText(us: seq<MoveUnit>, tail: string): string {
    if us == [] then tail
    else if |us| == 1 then UnitText(us[0], tail)
    else UnitText(us[0], " " + UnitsText(us[1..], tail))
  }

  lemma {:induction false} SpaceRunOf(ws: string, t: string)
    requires AllSpace(ws) && (t == [] || !IsSpace(t[0]))
    ensures SpaceRun(ws + t) == |ws|
    ensures SkipSpace(ws + t) == t
  {
    if ws != [] {
      assert (ws + t)[1..] == ws[1..] + t;
      SpaceRunOf(ws[1..], t);
    }
  }

  lemma {:induction false} UpToOf(x: string, c: char, t: string)
    requires c !in x
    ensures UpTo(x + [c] + t, c) == |x|
  {
    if x != [] {
      assert (x + [c] + t)[1..] == x[1..] + [c] + t;
      UpToOf(x[1..], c, t);
    }
  }

  lemma {:induction false} FieldOf(v: string, rest: string)
    requires ']' !in v
    ensures Field(v + "]" + rest) == Some(Parsed(v, rest))
  {
    UpToOf(v, ']', rest);
    var t := v + "]" + rest;
    assert t[..|v|] == v;
    assert t[|v| + 1..] == rest;
  }

  lemma {:induction false} TagOf(key: string, v: string, rest: string)
    requires key != [] && !IsSpace(key[0]) && FieldText(v)
    ensures Tag(TagText(key, v, rest), key) == Some(Parsed(v, rest))
  {
    var t := TagText(key, v, rest);
    var body := v + "]" + rest;
    assert t == " " + (key + (" " + body));
    SpaceRunOf(" ", key + (" " + body));
    var a := key + (" " + body);
    assert a[..|key|] == key;
    assert a[|key|..] == " " + body;
    assert body == [] || !IsSpace(body[0]) by {
      if v == [] { assert body[0] == ']'; } else { assert body[0] == v[0]; }
    }
    SpaceRunOf(" ", body);
    FieldOf(v, rest);
  }

  lemma {:induction false} AnnotationOf(e: string, c: string, rest: string)
    requires FieldText(e) && FieldText(c)
    ensures Annotation(AnnotText(e, c, rest)) == Some(Parsed(Annot(e, c), rest))
  {
    var r1 := TagText("[%clk", c, " }" + rest);
    assert Tag(AnnotText(e, c, rest), "[%eval") == Some(Parsed(e, r1)) by {
      TagOf("[%eval", e, r1);
    }
    assert Tag(r1, "[%clk") == Some(Parsed(c, " }" + rest)) by {
      TagOf("[%clk", c, " }" + rest);
    }
    CloseOf(rest);
    AnnotationSteps(AnnotText(e, c, rest), e, c, r1, " }" + rest, rest);
  }

  lemma {:induction false} CloseOf(rest: string)
    ensures SkipSpace(" }" + rest) == "}" + rest
  {
    assert " }" + rest == " " + ("}" + rest);
    SpaceRunOf(" ", "}" + rest);
  }

  lemma {:induction false} AnnotationSteps(t: string, e: string, c: string, r1: string, r2: string, rest: string)
    requires Tag(t, "[%eval") == Some(Parsed(e, r1)) && Tag(r1, "[%clk") == Some(Parsed(c, r2))
    requires SkipSpace(r2) == "}" + rest
    ensures Annotation(t) == Some(Parsed(Annot(e, c), rest))
  {
    assert ("}" + rest)[1..] == rest;
  }

  lemma {:induction false} WhiteMoveOf(m: string, rest: string)
    requires m != [] && !IsSpace(m[0]) && '{' !in m
    ensures WhiteMove(" " + m + "{" + rest) == Some(Parsed(m, rest))
  {
    var t := " " + m + "{" + rest;
    assert t == " " + (m + "{" + rest);
    SpaceRunOf(" ", m + "{" + rest);
    assert t[1..] == m + ['{'] + rest;
    UpToOf(m, '{', rest);
    assert t[1..1 + |m|] == m;
    assert t[|m| + 2..] == rest;
  }

  lemma {:induction false} BlackMoveOf(m: string, rest: string)
    requires (m == [] || !IsSpace(m[0])) && '{' !in m
    ensures BlackMove(" " + m + "{" + rest) == Some(Parsed(m, rest))
  {
    var t := " " + m + "{" + rest;
    assert t == " " + (m + "{" + rest);
    assert m + "{" + rest == [] || !IsSpace((m + "{" + rest)[0]) by {
      if m == [] { assert (m + "{" + rest)[0] == '{'; } else { assert (m + "{" + rest)[0] == m[0]; }
    }
    SpaceRunOf(" ", m + "{" + rest);
    assert t[1..] == m + ['{'] + rest;
    UpToOf(m, '{', rest);
    assert t[1..1 + |m|] == m;
    assert t[|m| + 2..] == rest;
  }

  lemma {:induction false} WhiteHalfOf(m: string, e: string, c: string, rest: string)
    requires m != [] && !IsSpace(m[0]) && '{' !in m && FieldText(e) && FieldText(c)
    ensures WhiteHalf(" " + m + "{" + AnnotText(e, c, rest)) == Some(Parsed(Half(m, e, c), rest))
  {
    WhiteMoveOf(m, AnnotText(e, c, rest));
    AnnotationOf(e, c, rest);
  }

  lemma {:induction false} BlackHalfOf(m: string, e: string, c: string, rest: string)
    requires (m == [] || !IsSpace(m[0])) && '{' !in m && FieldText(e) && FieldText(c)
    ensures BlackHalf(" " + m + "{" + AnnotText(e, c, rest)) == Some(Parsed(Half(m, e, c), rest))
  {
    BlackMoveOf(m, AnnotText(e, c, rest));
    AnnotationOf(e, c, rest);
  }

  /** The scanner reads a well-formed unit's text back as that unit, and
      stops right after it. */
  lemma {:induction false} MatchOf(u: MoveUnit, rest: string)
    requires WellFormed(u)
    ensures Match(UnitText(u, rest)) == Some(Parsed(u, rest))
  {
    var black := " " + u.blackMove + "{" + AnnotText(u.blackEval, u.blackClock, rest);
    var white := " " + u.whiteMove + "{" + AnnotText(u.whiteEval, u.whiteClock, black);
    var t := UnitText(u, rest);
    var n := |u.number|;
    assert DigitRun(t) == n && t[..n] == u.number && t[n] == '.' && t[n + 1..] == white by {
      assert t == u.number + ("." + white);
      DigitRunOfDigitsThen(u.number, "." + white);
    }
    assert WhiteHalf(white) == Some(Parsed(Half(u.whiteMove, u.whiteEval, u.whiteClock), black)) by {
      WhiteHalfOf(u.whiteMove, u.whiteEval, u.whiteClock, black);
    }
    assert BlackHalf(black) == Some(Parsed(Half(u.blackMove, u.blackEval, u.blackClock), rest)) by {
      BlackHalfOf(u.blackMove, u.blackEval, u.blackClock, rest);
    }
    MatchSteps(t, n, u, white, black, rest);
  }

  lemma {:induction false} MatchSteps(t: string, n: nat, u: MoveUnit, white: string, black: string, rest: string)
    requires u.number != [] && n < |t| && DigitRun(t) == n && t[..n] == u.number && t[n] == '.'
    requires t[n + 1..] == white
    requires WhiteHalf(white) == Some(Parsed(Half(u.whiteMove, u.whiteEval, u.whiteClock), black))
    requires BlackHalf(black) == Some(Parsed(Half(u.blackMove, u.blackEval, u.blackClock), rest))
    ensures Match(t) == Some(Parsed(u, rest))
  {
  }

  lemma {:induction false} ScanStep(t: string)
    requires t != [] && Match(t).Some?
    ensures Scan(t) == [Match(t).value.value] + Scan(Match(t).value.rest)
  {
  }

  /** `finditer` over a unit's text finds that unit first and resumes
      after it. */
  lemma {:induction false} ScanUnit(u: MoveUnit, rest: string)
    requires WellFormed(u)
    ensures Scan(UnitText(u, rest)) == [u] + Scan(rest)
  {
    MatchOf(u, rest);
    ScanStep(UnitText(u, rest));
  }

  /** `finditer` finds no match starting at whitespace: the pattern
      begins with a digit. */
  lemma {:induction false} ScanSkipsSpace(ws: string, t: string)
    requires AllSpace(ws)
    ensures Scan(ws + t) == Scan(t)
  {
    if ws != [] {
      assert (ws + t)[0] == ws[0];
      ScanMiss(ws + t);
      assert (ws + t)[1..] == ws[1..] + t;
      ScanSkipsSpace(ws[1..], t);
    } else {
      assert ws + t == t;
    }
  }

  /** A search position without a digit is passed over. */
  lemma {:induction false} ScanMiss(t: string)
    requires t != [] && !IsDigit(t[0])
    ensures Scan(t) == Scan(t[1..])
  {
    assert DigitRun(t) == 0;
  }

  /** `finditer` over a run of unit texts finds exactly those units first. */
  lemma {:induction false} ScanOfUnits(us: seq<MoveUnit>, tail: string)
    requires forall k :: 0 <= k < |us| ==> WellFormed(us[k])
    ensures Scan(UnitsText(us, tail)) == us + Scan(tail)
  {
    if us != [] {
      var rest := if |us| == 1 then tail else " " + UnitsText(us[1..], tail);
      assert Scan(UnitsText(us, tail)) == [us[0]] + Scan(rest) by {
        assert WellFormed(us[0]);
        ScanUnit(us[0], rest);
      }
      assert Scan(rest) == us[1..] + Scan(tail) by {
        if |us| > 1 {
          ScanSkipsSpace(" ", UnitsText(us[1..], tail));
          ScanOfUnits(us[1..], tail);
        }
      }
      ConsThen(us, Scan(tail));
    }
  }

  lemma {:induction false} ConsThen<T>(xs: seq<T>, ys: seq<T>)
    requires xs != []
    ensures [xs[0]] + (xs[1..] + ys) == xs + ys
  {
    assert [xs[0]] + xs[1..] == xs;
  }

  // ---------------------------------------------------------------------
  // A match needs both braced annotations

  lemma {:induction false} CountSuffix(r: string, t: string, c: char)
    requires IsSuffix(r, t)
    ensures Count(r, c) <= Count(t, c)
    decreases |t|
  {
    if |r| < |t| {
      assert IsSuffix(r, t[1..]) by {
        assert t[1..][|t| - 1 - |r|..] == t[|t| - |r|..];
      }
      CountSuffix(r, t[1..], c);
    } else {
      assert t[|t| - |r|..] == t;
    }
  }

  lemma {:induction false} CountAfter(r: string, t: string, c: char)
    requires |r| < |t| && IsSuffix(r, t) && t[|t| - |r| - 1] == c
    ensures Count(r, c) + 1 <= Count(t, c)
    decreases |t|
  {
    if |r| + 1 < |t| {
      assert t[1..][|t| - 1 - |r|..] == t[|t| - |r|..];
      assert t[1..][|t| - 1 - |r| - 1] == t[|t| - |r| - 1];
      CountAfter(r, t[1..], c);
    } else {
      assert t[1..] == r;
    }
  }

  lemma {:induction false} SkipSpaceSuffix(t: string)
    ensures IsSuffix(SkipSpace(t), t)
  {
  }

  lemma {:induction false} TagSuffix(t: string, key: string)
    requires Tag(t, key).Some?
    ensures IsSuffix(Tag(t, key).value.rest, t)
  {
    var a := SkipSpace(t);
    var a2 := a[|key|..];
    var b := SkipSpace(a2);
    var i := UpTo(b, ']');
    assert IsSuffix(a2, t) by {
      DropSuffix(t, SpaceRun(t));
      DropSuffix(a, |key|);
      SuffixTrans(a2, a, t);
    }
    assert IsSuffix(b[i + 1..], t) by {
      DropSuffix(a2, SpaceRun(a2));
      DropSuffix(b, i + 1);
      SuffixTrans(b[i + 1..], b, a2);
      SuffixTrans(b[i + 1..], a2, t);
    }
  }

  lemma {:induction false} DropSuffix(t: string, i: nat)
    requires i <= |t|
    ensures IsSuffix(t[i..], t)
  {
  }

  lemma {:induction false} AnnotationSuffix(t: string)
    requires Annotation(t).Some?
    ensures IsSuffix(Annotation(t).value.rest, t)
  {
    var e := Tag(t, "[%eval").value;
    var c := Tag(e.rest, "[%clk").value;
    var d := SkipSpace(c.rest);
    TagSuffix(t, "[%eval");
    TagSuffix(e.rest, "[%clk");
    SkipSpaceSuffix(c.rest);
    assert IsSuffix(d[1..], d);
    SuffixTrans(c.rest, e.rest, t);
    SuffixTrans(d, c.rest, t);
    SuffixTrans(d[1..], d, t);
  }

  lemma {:induction false} WhiteMoveAfter(t: string)
    requires WhiteMove(t).Some?
    ensures AfterBrace(WhiteMove(t).value.rest, t)
  {
  }

  lemma {:induction false} BlackMoveAfter(t: string)
    requires BlackMove(t).Some?
    ensures AfterBrace(BlackMove(t).value.rest, t)
  {
  }

  lemma {:induction false} WhiteHalfBrace(t: string)
    requires WhiteHalf(t).Some?
    ensures Count(WhiteHalf(t).value.rest, '{') + 1 <= Count(t, '{')
  {
    var m := WhiteMove(t).value;
    var a := Annotation(m.rest).value;
    WhiteMoveAfter(t);
    AnnotationSuffix(m.rest);
    BraceThenSuffix(t, m.rest, a.rest);
  }

  lemma {:induction false} BlackHalfBrace(t: string)
    requires BlackHalf(t).Some?
    ensures Count(BlackHalf(t).value.rest, '{') + 1 <= Count(t, '{')
  {
    var m := BlackMove(t).value;
    var a := Annotation(m.rest).value;
    BlackMoveAfter(t);
    AnnotationSuffix(m.rest);
    BraceThenSuffix(t, m.rest, a.rest);
  }

  lemma {:induction false} BraceThenSuffix(t: string, r1: string, r2: string)
    requires AfterBrace(r1, t) && IsSuffix(r2, r1)
    ensures Count(r2, '{') + 1 <= Count(t, '{')
  {
    CountAfter(r1, t, '{');
    CountSuffix(r2, r1, '{');
  }

  /** Each match consumes two `{`. */
  lemma {:induction false} MatchUsesTwoBraces(t: string)
    requires Match(t).Some?
    ensures Count(Match(t).value.rest, '{') + 2 <= Count(t, '{')
  {
    var n := DigitRun(t);
    var t1 := t[n + 1..];
    assert IsSuffix(t1, t);
    CountSuffix(t1, t, '{');
    WhiteHalfBrace(t1);
    BlackHalfBrace(WhiteHalf(t1).value.rest);
  }

  /** A text with fewer than two `{` holds no unit, so a final white move
      without a black annotation yields nothing. */
  lemma {:induction false} ScanNeedsTwoBraces(t: string)
    requires Count(t, '{') < 2
    ensures Scan(t) == []
    decreases |t|
  {
    if t != [] {
      if Match(t).Some? {
        MatchUsesTwoBraces(t);
        assert false;
      } else {
        assert Count(t[1..], '{') <= Count(t, '{');
        ScanNeedsTwoBraces(t[1..]);
      }
    }
  }

  /** The black move is empty exactly when only whitespace lies between
      white's annotation and the next `{`. */
  lemma {:induction false} BlackMoveEmpty(t: string)
    requires BlackMove(t).Some?
    ensures BlackMove(t).value.value == [] <==> AllSpace(t[..|t| - |BlackMove(t).value.rest| - 1])
  {
    var w := SpaceRun(t);
    var y := UpTo(t[w..], '{');
    var k := |t| - |BlackMove(t).value.rest| - 1;
    assert k == w + y;
    if y > 0 {
      assert t[..k][w] == t[w];
      assert !AllSpace(t[..k]);
    } else {
      assert t[..k] == t[..w];
    }
  }
}
