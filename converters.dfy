/** The value converters of the parser (`chess_parser.py`): clock text to
    seconds, evaluation text to a number, time-control text to base and
    increment, together with the parts of Python's `int()` and `float()`
    they rely on. */
module Converters {
  import opened Results
  import opened PyText

  predicate IsDigit(c: char) { '0' <= c <= '9' }

  predicate AllDigits(s: string) {
    forall k :: 0 <= k < |s| ==> IsDigit(s[k])
  }

  /** The value of a run of decimal digits (0 for the empty run); only ever
      applied to text of ASCII digits. */
  function DigitsValue(s: string): int {
    if s == [] then 0 else DigitsValue(s[..|s| - 1]) * 10 + (s[|s| - 1] as int - '0' as int)
  }

  function Pow10(n: nat): (p: nat)
    ensures p >= 1
  {
    if n == 0 then 1 else 10 * Pow10(n - 1)
  }

  /** `str(n)` for a natural number. */
  function NatText(n: nat): (r: string)
    ensures r != [] && AllDigits(r) && DigitsValue(r) == n
    ensures r[0] != '0' || n == 0
  {
    var d := ['0' + (n % 10) as char];
    if n < 10 then d
    else
      var r := NatText(n / 10) + d;
      assert r[..|r| - 1] == NatText(n / 10);
      r
  }

  /** `str(n)`. */
  function IntText(n: int): string {
    if n < 0 then "-" + NatText(-n) else NatText(n)
  }

  /** The length of the leading run of ASCII digits. */
  function DigitRun(s: string): (n: nat)
    ensures n <= |s| && AllDigits(s[..n])
    ensures n < |s| ==> !IsDigit(s[n])
  {
    if s != [] && IsDigit(s[0]) then
      var n := 1 + DigitRun(s[1..]);
      assert s[..n] == [s[0]] + s[1..][..n - 1];
      n
    else 0
  }

  // ---------------------------------------------------------------------
  // The whitespace int() and float() skip

  /** U+001C to U+001F: whitespace to `str.isspace()`, but not to `int()`
      and `float()`. */
  predicate IsSeparator(c: char) { '\U{1C}' <= c <= '\U{1F}' }

  /** The whitespace `int()` and `float()` skip around a number.  CPython's
      parsers first replace each non-ASCII whitespace character by `' '`,
      leaving every ASCII character as it is, and then skip only `\t`, `\n`,
      `\v`, `\f`, `\r` and `' '`; so the separators U+001C to U+001F stay,
      and a number next to one is a `ValueError`. */
  predicate NumSpace(c: char) {
    IsSpace(c) && !IsSeparator(c)
  }

  predicate AllNumSpace(s: string) {
    forall k :: 0 <= k < |s| ==> NumSpace(s[k])
  }

  predicate NoNumMargins(s: string) {
    s == [] || (!NumSpace(s[0]) && !NumSpace(s[|s| - 1]))
  }

  /** The text `int()` and `float()` read: `s` without the leading and
      trailing whitespace they skip. */
  function NumStrip(s: string): (r: string)
    ensures NoNumMargins(r)
    ensures |r| <= |s|
    decreases |s|
  {
    if s != [] && NumSpace(s[0]) then NumStrip(s[1..])
    else if s != [] && NumSpace(s[|s| - 1]) then NumStrip(s[..|s| - 1])
    else s
  }

  lemma {:induction false} NumStripOfUnpadded(s: string)
    requires NoNumMargins(s)
    ensures NumStrip(s) == s
  {
  }

  /** The skipping removes exactly the margins it is given. */
  lemma {:induction false} NumStripPadded(a: string, t: string, b: string)
    requires AllNumSpace(a) && AllNumSpace(b) && NoNumMargins(t)
    ensures NumStrip(a + t + b) == t
    decreases |a| + |b|
  {
    var s := a + t + b;
    if a != [] {
      assert s[0] == a[0];
      assert s[1..] == a[1..] + t + b;
      NumStripPadded(a[1..], t, b);
    } else if b != [] {
      assert s[|s| - 1] == b[|b| - 1];
      if t == [] {
        assert s[0] == b[0];
        assert s[1..] == a + t + b[1..];
        NumStripPadded(a, t, b[1..]);
      } else {
        assert s[0] == t[0];
        assert s[..|s| - 1] == a + t + b[..|b| - 1];
        NumStripPadded(a, t, b[..|b| - 1]);
      }
    } else {
      assert s == t;
    }
  }

  /** A last character the parsers do not skip is still the last one read. */
  lemma {:induction false} NumStripKeepsLast(s: string)
    requires s != [] && !NumSpace(s[|s| - 1])
    ensures NumStrip(s) != [] && NumStrip(s)[|NumStrip(s)| - 1] == s[|s| - 1]
    decreases |s|
  {
    if NumSpace(s[0]) {
      assert s[1..][|s| - 2] == s[|s| - 1];
      NumStripKeepsLast(s[1..]);
    }
  }

  /** Python's `int(text)` on base-10 text: surrounding whitespace, an
      optional sign and at least one digit; anything else is `ValueError`. */
  function ParseInt(s: string): (r: Result<int>)
    ensures r.Err? ==> r.error == ValueError
  {
    var t := NumStrip(s);
    if t != [] && (t[0] == '+' || t[0] == '-') then
      var u := t[1..];
      if u != [] && AllDigits(u) then Ok(if t[0] == '-' then -DigitsValue(u) else DigitsValue(u))
      else Err(ValueError)
    else if t != [] && AllDigits(t) then Ok(DigitsValue(t))
    else Err(ValueError)
  }

  /** `int()` reads back what `str()` writes, whatever whitespace surrounds it. */
  lemma {:induction false} ParseIntOfText(a: string, n: int, b: string)
    requires AllNumSpace(a) && AllNumSpace(b)
    ensures ParseInt(a + IntText(n) + b) == Ok(n)
  {
    var t := IntText(n);
    assert NoNumMargins(t) by {
      assert t[|t| - 1] == NatText(if n < 0 then -n else n)[|NatText(if n < 0 then -n else n)| - 1];
    }
    NumStripPadded(a, t, b);
    if n < 0 {
      assert t[1..] == NatText(-n);
    }
  }

  /** 10 raised to a possibly negative exponent. */
  function Scale(e: int): (x: real)
    ensures x > 0.0
  {
    if e >= 0 then Pow10(e) as real else 1.0 / Pow10(-e) as real
  }

  /** An exponent: an optional sign and at least one digit. */
  function Exponent(s: string): Option<int> {
    if s != [] && (s[0] == '+' || s[0] == '-') then
      var u := s[1..];
      if u != [] && AllDigits(u) then Some(if s[0] == '-' then -DigitsValue(u) else DigitsValue(u))
      else None
    else if s != [] && AllDigits(s) then Some(DigitsValue(s))
    else None
  }

  /** An unsigned finite decimal literal: digits, an optional `.` and
      fraction (at least one digit in all), and an optional exponent. */
  function UnsignedDecimal(u: string): Option<real> {
    var i := DigitRun(u);
    var whole := u[..i];
    var rest := u[i..];
    var hasPoint := rest != [] && rest[0] == '.';
    var f := if hasPoint then DigitRun(rest[1..]) else 0;
    var frac := if hasPoint then rest[1..][..f] else [];
    var tail := if hasPoint then rest[1..][f..] else rest;
    if whole == [] && frac == [] then None
    else
      var mantissa := PointValue(whole, frac);
      if tail == [] then Some(mantissa)
      else if tail[0] == 'e' || tail[0] == 'E' then
        match Exponent(tail[1..])
        case None => None
        case Some(e) => Some(Scaled(mantissa, e))
      else None
  }

  /** The value of the digits `whole.frac`. */
  function PointValue(whole: string, frac: string): real
    requires AllDigits(whole) && AllDigits(frac)
  {
    DigitsValue(whole) as real + DigitsValue(frac) as real / Pow10(|frac|) as real
  }

  /** `m` times ten to the power `e`. */
  function Scaled(m: real, e: int): real {
    m * Scale(e)
  }

  /** Python's `float(text)` on finite decimal text.  The decimal-to-binary
      rounding of a Python float is not modelled: the result is the exact
      rational value of the text. */
  function ParseFloat(s: string): (r: Result<real>)
    ensures r.Err? ==> r.error == ValueError
  {
    SignedDecimal(NumStrip(s))
  }

  /** A finite decimal literal with an optional sign, and nothing around it. */
  function SignedDecimal(t: string): (r: Result<real>)
    ensures r.Err? ==> r.error == ValueError
  {
    var signed := t != [] && (t[0] == '+' || t[0] == '-');
    var u := if signed then t[1..] else t;
    match UnsignedDecimal(u)
    case None => Err(ValueError)
    case Some(v) => Ok(if signed && t[0] == '-' then -v else v)
  }

  /** `float()` reads a point-decimal `whole.frac`, with an optional `-`,
      as the number it denotes. */
  lemma {:induction false} ParseFloatOfDecimal(negative: bool, whole: string, frac: string)
    requires AllDigits(whole) && AllDigits(frac) && whole != []
    ensures ParseFloat((if negative then "-" else "") + (whole + "." + frac))
         == Ok(if negative then -PointValue(whole, frac) else PointValue(whole, frac))
  {
    PointMargins(whole, frac);
    UnsignedPointDecimal(whole, frac);
    SignedFloat(negative, whole + "." + frac, PointValue(whole, frac));
  }

  lemma {:induction false} PointMargins(whole: string, frac: string)
    requires AllDigits(whole) && AllDigits(frac) && whole != []
    ensures NoMargins(whole + "." + frac) && IsDigit((whole + "." + frac)[0])
  {
    var u := whole + "." + frac;
    if frac == [] { assert u[|u| - 1] == '.'; } else { assert u[|u| - 1] == frac[|frac| - 1] && IsDigit(frac[|frac| - 1]); }
    assert u[0] == whole[0] && IsDigit(whole[0]);
  }

  lemma {:induction false} UnsignedPointDecimal(whole: string, frac: string)
    requires AllDigits(whole) && AllDigits(frac) && whole != []
    ensures UnsignedDecimal(whole + "." + frac) == Some(PointValue(whole, frac))
  {
    var u := whole + "." + frac;
    DigitRunOfDigitsThen(whole, "." + frac);
    assert u == whole + ("." + frac);
    assert u[|whole|..] == "." + frac;
    assert ("." + frac)[1..] == frac;
    DigitRunOfDigitsThen(frac, []);
    assert frac + [] == frac;
  }

  /** A sign in front of a bare unsigned literal negates its value. */
  lemma {:induction false} SignedFloat(negative: bool, u: string, v: real)
    requires NoMargins(u) && u != [] && IsDigit(u[0])
    requires UnsignedDecimal(u) == Some(v)
    ensures ParseFloat((if negative then "-" else "") + u) == Ok(if negative then -v else v)
  {
    if negative {
      MinusKeepsMargins(u);
      FloatOfUnpadded("-" + u);
      NegativeDecimal(u, v);
    } else {
      FloatOfUnpadded(u);
      PositiveDecimal(u, v);
      assert "" + u == u;
    }
  }

  lemma {:induction false} FloatOfUnpadded(s: string)
    requires NoMargins(s)
    ensures ParseFloat(s) == SignedDecimal(s)
  {
    NumStripOfUnpadded(s);
  }

  lemma {:induction false} NegativeDecimal(u: string, v: real)
    requires UnsignedDecimal(u) == Some(v)
    ensures SignedDecimal("-" + u) == Ok(-v)
  {
    assert ("-" + u)[1..] == u;
  }

  lemma {:induction false} PositiveDecimal(u: string, v: real)
    requires u != [] && IsDigit(u[0]) && UnsignedDecimal(u) == Some(v)
    ensures SignedDecimal(u) == Ok(v)
  {
  }

  lemma {:induction false} MinusKeepsMargins(u: string)
    requires NoMargins(u) && u != []
    ensures NoMargins("-" + u)
  {
    var s := "-" + u;
    assert s[|s| - 1] == u[|u| - 1];
  }

  /** `int()` and `float()` reject a text whose last character is one of
      U+001C to U+001F, such as `"5\x1c"`, although `strip()` would remove
      that character. */
  lemma {:induction false} SeparatorRejected(s: string)
    requires s != [] && IsSeparator(s[|s| - 1])
    ensures ParseInt(s) == Err(ValueError)
    ensures ParseFloat(s) == Err(ValueError)
  {
    NumStripKeepsLast(s);
    var t := NumStrip(s);
    if t[0] == '+' || t[0] == '-' {
      var u := t[1..];
      assert u != [] && u[|u| - 1] == t[|t| - 1];
      UnsignedRejectsSeparator(u);
    } else {
      UnsignedRejectsSeparator(t);
    }
  }

  /** A literal cannot end in a separator. */
  lemma {:induction false} UnsignedRejectsSeparator(u: string)
    requires u != [] && IsSeparator(u[|u| - 1])
    ensures !AllDigits(u)
    ensures UnsignedDecimal(u) == None
  {
    var i := DigitRun(u);
    assert i < |u|;
    var rest := u[i..];
    assert rest[|rest| - 1] == u[|u| - 1];
    if rest[0] == '.' {
      var r := rest[1..];
      assert r != [] && r[|r| - 1] == u[|u| - 1];
      var f := DigitRun(r);
      assert f < |r|;
      TailRejectsSeparator(r[f..]);
    } else {
      TailRejectsSeparator(rest);
    }
  }

  /** What follows the digits of a literal, ending in a separator, is no
      valid exponent part. */
  lemma {:induction false} TailRejectsSeparator(tail: string)
    requires tail != [] && IsSeparator(tail[|tail| - 1])
    ensures (tail[0] == 'e' || tail[0] == 'E') ==> Exponent(tail[1..]) == None
  {
    if tail[0] == 'e' || tail[0] == 'E' {
      var x := tail[1..];
      assert x != [] && x[|x| - 1] == tail[|tail| - 1];
      if x[0] == '+' || x[0] == '-' {
        assert x[1..] != [] && x[1..][|x| - 2] == x[|x| - 1];
      }
    }
  }

  lemma {:induction false} DigitRunOfDigitsThen(d: string, rest: string)
    requires AllDigits(d) && (rest == [] || !IsDigit(rest[0]))
    ensures DigitRun(d + rest) == |d|
    ensures (d + rest)[..|d|] == d
  {
    if d != [] {
      assert (d + rest)[1..] == d[1..] + rest;
      DigitRunOfDigitsThen(d[1..], rest);
    }
  }

  // ---------------------------------------------------------------------
  // clock_to_seconds

  /** `clock_to_seconds`: `MM:SS` or `HH:MM:SS`, each part read with
      `int()`; a text with any other number of `:`-separated parts is 0. */
  function ClockToSeconds(s: string): (r: Result<int>)
    ensures r.Err? ==> r.error == ValueError
  {
    ClockOfParts(Split(s, ':'))
  }

  /** A text with no `:` or more than two reads as 0. */
  lemma {:induction false} ClockOfOtherShape(s: string)
    requires Count(s, ':') != 1 && Count(s, ':') != 2
    ensures ClockToSeconds(s) == Ok(0)
  {
    SplitCount(s, ':');
  }

  /** The value of the `:`-separated parts of a clock text. */
  function ClockOfParts(parts: seq<string>): (r: Result<int>)
    ensures |parts| != 2 && |parts| != 3 ==> r == Ok(0)
    ensures r.Err? ==> r.error == ValueError
  {
    if |parts| == 2 then
      var m :- ParseInt(parts[0]);
      var sec :- ParseInt(parts[1]);
      Ok(m * 60 + sec)
    else if |parts| == 3 then
      var h :- ParseInt(parts[0]);
      var m :- ParseInt(parts[1]);
      var sec :- ParseInt(parts[2]);
      Ok(h * 3600 + m * 60 + sec)
    else Ok(0)
  }

  /** `H:M:S`, each field an `int()` text without a colon, reads as
      `3600*H + 60*M + S`. */
  lemma {:induction false} ClockOfHms(h: string, m: string, sec: string, hv: int, mv: int, sv: int)
    requires ':' !in h && ':' !in m && ':' !in sec
    requires ParseInt(h) == Ok(hv) && ParseInt(m) == Ok(mv) && ParseInt(sec) == Ok(sv)
    ensures ClockToSeconds(h + ":" + m + ":" + sec) == Ok(hv * 3600 + mv * 60 + sv)
  {
    SplitOfThree(h, m, sec, ':');
  }

  /** `M:S`, each field an `int()` text without a colon, reads as `60*M + S`. */
  lemma {:induction false} ClockOfMs(m: string, sec: string, mv: int, sv: int)
    requires ':' !in m && ':' !in sec
    requires ParseInt(m) == Ok(mv) && ParseInt(sec) == Ok(sv)
    ensures ClockToSeconds(m + ":" + sec) == Ok(mv * 60 + sv)
  {
    SplitOfTwo(m, sec, ':');
  }

  /** A field that `int()` rejects makes the whole clock text raise. */
  lemma {:induction false} ClockOfBadField(m: string, sec: string)
    requires ':' !in m && ':' !in sec
    requires ParseInt(m).Err? || ParseInt(sec).Err?
    ensures ClockToSeconds(m + ":" + sec) == Err(ValueError)
  {
    SplitOfTwo(m, sec, ':');
  }

  /** A non-empty run of ASCII digits. */
  predicate Numeral(d: string) {
    d != [] && AllDigits(d)
  }

  lemma {:induction false} ParseIntOfNumeral(d: string)
    requires Numeral(d)
    ensures ParseInt(d) == Ok(DigitsValue(d))
  {
    assert !IsSpace(d[0]) && !IsSpace(d[|d| - 1]);
    NumStripOfUnpadded(d);
  }

  lemma {:induction false} ParseIntOfInt(n: int)
    ensures ParseInt(IntText(n)) == Ok(n)
  {
    ParseIntOfText([], n, []);
    assert [] + IntText(n) + [] == IntText(n);
  }

  /** Text with no `:` at all, such as a bare number of seconds, reads as 0. */
  lemma {:induction false} ClockWithoutColon(s: string)
    requires ':' !in s
    ensures ClockToSeconds(s) == Ok(0)
  {
    CountOfAbsent(s, ':');
    ClockOfOtherShape(s);
  }

  lemma {:induction false} NumeralFree(d: string)
    requires AllDigits(d)
    ensures ':' !in d && '+' !in d && '"' !in d && '{' !in d && ']' !in d
  {
    assert forall k :: 0 <= k < |d| ==> IsDigit(d[k]);
  }

  lemma {:induction false} IntTextFree(n: int)
    ensures ':' !in IntText(n) && '+' !in IntText(n) && '"' !in IntText(n)
  {
    NumeralFree(NatText(if n < 0 then -n else n));
  }

  lemma {:induction false} CountOfAbsent(s: string, c: char)
    requires c !in s
    ensures Count(s, c) == 0
  {
    if s != [] {
      assert s[1..] <= s[1..];
      assert forall k :: 0 <= k < |s[1..]| ==> s[1..][k] == s[k + 1];
      CountOfAbsent(s[1..], c);
    }
  }

  // ---------------------------------------------------------------------
  // parse_eval

  /** `parse_eval`: a forced mate (`#…`) is the sentinel -10.0 when the
      text begins `#-` and +10.0 otherwise; any other text is `float()`. */
  function ParseEval(s: string): (r: Result<real>)
    ensures StartsWith(s, "#") ==> r == Ok(if StartsWith(s, "#-") then -10.0 else 10.0)
    ensures !StartsWith(s, "#") ==> r == ParseFloat(s)
  {
    if StartsWith(s, "#") then Ok(if StartsWith(s, "#-") then -10.0 else 10.0)
    else ParseFloat(s)
  }

  /** A mate in `n` scores ±10.0 by the sign of `n`, whatever its distance. */
  lemma {:induction false} MateScore(n: int)
    ensures ParseEval("#" + IntText(n)) == Ok(if n < 0 then -10.0 else 10.0)
  {
    var s := "#" + IntText(n);
    assert StartsWith(s, "#") by {
      assert s[..1] == "#";
    }
    assert StartsWith(s, "#-") <==> n < 0 by {
      if n < 0 {
        assert s[..2] == "#-";
      } else {
        assert s[1] == NatText(n)[0];
      }
    }
  }

  // ---------------------------------------------------------------------
  // parse_time_control

  datatype TimeControl = TimeControl(initial: int, increment: int)

  /** `parse_time_control`: the first two `+`-separated fields read with
      `int()`; the first field is read before the second is looked up. */
  function ParseTimeControl(tc: string): (r: Result<TimeControl>)
    ensures '+' !in tc ==> r.Err?
  {
    var parts := Split(tc, '+');
    assert '+' !in tc ==> |parts| == 1 by {
      if '+' !in tc { SplitOfFree(tc, '+'); }
    }
    var initial :- ParseInt(parts[0]);
    if |parts| < 2 then Err(IndexError)
    else
      var increment :- ParseInt(parts[1]);
      Ok(TimeControl(initial, increment))
  }

  /** `base+inc` reads as that pair, and any further `+` fields are ignored. */
  lemma {:induction false} TimeControlOfText(base: int, inc: int, extra: string)
    requires extra == [] || extra[0] == '+'
    ensures ParseTimeControl(IntText(base) + "+" + IntText(inc) + extra) == Ok(TimeControl(base, inc))
  {
    var parts := Split(IntText(base) + "+" + IntText(inc) + extra, '+');
    assert |parts| >= 2 && parts[0] == IntText(base) && parts[1] == IntText(inc) by {
      TimeControlParts(base, inc, extra);
    }
    ParseIntOfInt(base);
    ParseIntOfInt(inc);
  }

  /** The `+`-separated fields of such a text start with the two numbers. */
  lemma {:induction false} TimeControlParts(base: int, inc: int, extra: string)
    requires extra == [] || extra[0] == '+'
    ensures var parts := Split(IntText(base) + "+" + IntText(inc) + extra, '+');
            |parts| >= 2 && parts[0] == IntText(base) && parts[1] == IntText(inc)
  {
    IntTextFree(base); IntTextFree(inc);
    var s := IntText(base) + "+" + IntText(inc) + extra;
    assert s == IntText(base) + ['+'] + (IntText(inc) + extra);
    SplitPrefix(IntText(base), IntText(inc) + extra, '+');
    if extra == [] {
      assert IntText(inc) + extra == IntText(inc);
      SplitOfFree(IntText(inc), '+');
    } else {
      assert IntText(inc) + extra == IntText(inc) + ['+'] + extra[1..];
      SplitPrefix(IntText(inc), extra[1..], '+');
    }
  }
}
