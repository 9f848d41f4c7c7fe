/** The few Python `str` operations the parser relies on, with Python's
    semantics: `str.isspace`, `strip()`, `startswith`, the `in` substring
    test, `split(sep)` for a one-character separator, and its inverse
    `sep.join(parts)`. */
module PyText {

  /** `c.isspace()`: the characters Python treats as whitespace, which are
      also the characters of the regex class `\s` and the ones `strip()`
      removes.  `int()` and `float()` skip fewer (`Converters.NumSpace`). */
  predicate IsSpace(c: char) {
    ('\t' <= c <= '\r') || ('\U{1C}' <= c <= ' ') || c == '\U{85}' || c == '\U{A0}'
    || c == '\U{1680}' || ('\U{2000}' <= c <= '\U{200A}') || c == '\U{2028}'
    || c == '\U{2029}' || c == '\U{202F}' || c == '\U{205F}' || c == '\U{3000}'
  }

  predicate AllSpace(s: string) {
    forall k :: 0 <= k < |s| ==> IsSpace(s[k])
  }

  /** Neither the first nor the last character is whitespace. */
  predicate NoMargins(s: string) {
    s == [] || (!IsSpace(s[0]) && !IsSpace(s[|s| - 1]))
  }

  /** `s.strip()`: `s` without its leading and trailing whitespace. */
  function Strip(s: string): (r: string)
    ensures NoMargins(r)
    ensures |r| <= |s|
    decreases |s|
  {
    if s != [] && IsSpace(s[0]) then Strip(s[1..])
    else if s != [] && IsSpace(s[|s| - 1]) then Strip(s[..|s| - 1])
    else s
  }

  lemma {:induction false} StripOfUnpadded(s: string)
    requires NoMargins(s)
    ensures Strip(s) == s
  {
  }

  /** `strip()` leaves nothing exactly when the text is all whitespace. */
  lemma {:induction false} StripEmpty(s: string)
    ensures Strip(s) == [] <==> AllSpace(s)
    decreases |s|
  {
    if s != [] && IsSpace(s[0]) {
      StripEmpty(s[1..]);
      assert AllSpace(s[1..]) ==> AllSpace(s) by {
        if AllSpace(s[1..]) {
          forall k | 0 <= k < |s|
            ensures IsSpace(s[k])
          {
            if k > 0 {
              assert s[k] == s[1..][k - 1];
            }
          }
        }
      }
    } else if s != [] && IsSpace(s[|s| - 1]) {
      StripEmpty(s[..|s| - 1]);
      assert AllSpace(s[..|s| - 1]) ==> AllSpace(s) by {
        if AllSpace(s[..|s| - 1]) {
          forall k | 0 <= k < |s|
            ensures IsSpace(s[k])
          {
            if k < |s| - 1 {
              assert s[k] == s[..|s| - 1][k];
            }
          }
        }
      }
    } else if s != [] {
      assert !IsSpace(s[0]);
    }
  }

  /** `strip()` removes exactly the whitespace margins it is given. */
  lemma {:induction false} StripPadded(a: string, t: string, b: string)
    requires AllSpace(a) && AllSpace(b) && NoMargins(t)
    ensures Strip(a + t + b) == t
    decreases |a| + |b|
  {
    var s := a + t + b;
    if a != [] {
      assert s[0] == a[0];
      assert s[1..] == a[1..] + t + b;
      StripPadded(a[1..], t, b);
    } else if b != [] {
      assert s[|s| - 1] == b[|b| - 1];
      if t == [] {
        assert s[0] == b[0];
        assert s[1..] == a + t + b[1..];
        StripPadded(a, t, b[1..]);
      } else {
        assert s[0] == t[0];
        assert s[..|s| - 1] == a + t + b[..|b| - 1];
        StripPadded(a, t, b[..|b| - 1]);
      }
    } else {
      assert s == t;
    }
  }

  /** `s.startswith(p)`. */
  predicate StartsWith(s: string, p: string) {
    |p| <= |s| && s[..|p|] == p
  }

  /** `t in s`: some window of `s` equals `t`. */
  predicate Contains(s: string, t: string)
    decreases |s|
  {
    StartsWith(s, t) || (s != [] && Contains(s[1..], t))
  }

  lemma {:induction false} ContainsAt(s: string, t: string, i: nat)
    requires i + |t| <= |s| && s[i..i + |t|] == t
    ensures Contains(s, t)
  {
    if i > 0 {
      assert s[1..][i - 1..i - 1 + |t|] == s[i..i + |t|];
      ContainsAt(s[1..], t, i - 1);
    }
  }

  lemma {:induction false} ContainsWitness(s: string, t: string) returns (i: nat)
    requires Contains(s, t)
    ensures i + |t| <= |s| && s[i..i + |t|] == t
    decreases |s|
  {
    if StartsWith(s, t) {
      i := 0;
    } else {
      var j := ContainsWitness(s[1..], t);
      assert s[1..][j..j + |t|] == s[j + 1..j + 1 + |t|];
      i := j + 1;
    }
  }

  /** The number of occurrences of `c` in `s`. */
  function Count(s: string, c: char): nat {
    if s == [] then 0 else (if s[0] == c then 1 else 0) + Count(s[1..], c)
  }

  /** `s.split(c)` for a one-character separator: the maximal runs between
      occurrences of `c`, always at least one (possibly empty) part. */
  function Split(s: string, c: char): (parts: seq<string>)
    ensures |parts| >= 1
  {
    if s == [] then [[]]
    else
      var rest := Split(s[1..], c);
      if s[0] == c then [[]] + rest
      else [[s[0]] + rest[0]] + rest[1..]
  }

  /** No part of a split contains the separator. */
  lemma {:induction false} SplitPartsFree(s: string, c: char)
    ensures forall k :: 0 <= k < |Split(s, c)| ==> c !in Split(s, c)[k]
  {
    if s != [] {
      SplitPartsFree(s[1..], c);
      var rest := Split(s[1..], c);
      if s[0] != c {
        assert c !in [s[0]] + rest[0];
      }
    }
  }

  /** `c.join(parts)`. */
  function Join(parts: seq<string>, c: char): string
    requires |parts| >= 1
  {
    if |parts| == 1 then parts[0] else parts[0] + [c] + Join(parts[1..], c)
  }

  /** Every part followed by the separator: the text a sequence of complete
      lines occupies in a stream. */
  function JoinTerminated(parts: seq<string>, c: char): string {
    if parts == [] then [] else JoinTerminated(parts[..|parts| - 1], c) + parts[|parts| - 1] + [c]
  }

  /** `split` loses nothing: joining its parts gives the text back. */
  lemma {:induction false} SplitJoin(s: string, c: char)
    ensures Join(Split(s, c), c) == s
  {
    if s != [] {
      SplitJoin(s[1..], c);
      var rest := Split(s[1..], c);
      if s[0] != c && |rest| > 1 {
        assert ([[s[0]] + rest[0]] + rest[1..])[1..] == rest[1..];
      }
    }
  }

  /** `split` is the inverse of `join` on parts free of the separator. */
  lemma {:induction false} JoinSplit(parts: seq<string>, c: char)
    requires |parts| >= 1
    requires forall k :: 0 <= k < |parts| ==> c !in parts[k]
    ensures Split(Join(parts, c), c) == parts
  {
    if |parts| == 1 {
      SplitOfFree(parts[0], c);
    } else {
      JoinSplit(parts[1..], c);
      SplitPrefix(parts[0], Join(parts[1..], c), c);
      assert [parts[0]] + parts[1..] == parts;
    }
  }

  lemma {:induction false} SplitOfFree(s: string, c: char)
    requires c !in s
    ensures Split(s, c) == [s]
  {
    if s != [] {
      SplitOfFree(s[1..], c);
      assert [s[0]] + s[1..] == s;
    }
  }

  /** Splitting `a + [c] + b`, with `a` free of `c`: `a` is the first part. */
  lemma {:induction false} SplitPrefix(a: string, b: string, c: char)
    requires c !in a
    ensures Split(a + [c] + b, c) == [a] + Split(b, c)
  {
    if a == [] {
      assert ([c] + b)[1..] == b;
    } else {
      assert (a + [c] + b)[1..] == a[1..] + [c] + b;
      SplitPrefix(a[1..], b, c);
      assert [a[0]] + a[1..] == a;
    }
  }

  lemma {:induction false} SplitOfTwo(a: string, b: string, c: char)
    requires c !in a && c !in b
    ensures Split(a + [c] + b, c) == [a, b]
  {
    SplitPrefix(a, b, c);
    SplitOfFree(b, c);
  }

  lemma {:induction false} SplitOfThree(a: string, b: string, d: string, c: char)
    requires c !in a && c !in b && c !in d
    ensures Split(a + [c] + b + [c] + d, c) == [a, b, d]
  {
    assert a + [c] + b + [c] + d == a + [c] + (b + [c] + d);
    SplitPrefix(a, b + [c] + d, c);
    SplitOfTwo(b, d, c);
  }

  /** There is one part more than there are separators. */
  lemma {:induction false} SplitCount(s: string, c: char)
    ensures |Split(s, c)| == Count(s, c) + 1
  {
    if s != [] {
      SplitCount(s[1..], c);
    }
  }

  lemma {:induction false} JoinAsTerminated(parts: seq<string>, c: char)
    requires |parts| >= 1
    ensures Join(parts, c) == JoinTerminated(parts[..|parts| - 1], c) + parts[|parts| - 1]
  {
    if |parts| > 1 {
      JoinAsTerminated(parts[1..], c);
      var n := |parts|;
      TerminatedCons(parts[0], parts[1..n - 1], c);
      assert parts[1..][..n - 2] == parts[1..n - 1];
      assert [parts[0]] + parts[1..n - 1] == parts[..n - 1];
    }
  }

  lemma {:induction false} TerminatedCons(p: string, ps: seq<string>, c: char)
    ensures JoinTerminated([p] + ps, c) == p + [c] + JoinTerminated(ps, c)
    decreases |ps|
  {
    if ps != [] {
      var n := |ps|;
      assert ([p] + ps)[..n] == [p] + ps[..n - 1];
      TerminatedCons(p, ps[..n - 1], c);
    }
  }

  lemma {:induction false} TerminatedAppend(ps: seq<string>, qs: seq<string>, c: char)
    ensures JoinTerminated(ps + qs, c) == JoinTerminated(ps, c) + JoinTerminated(qs, c)
    decreases |qs|
  {
    if qs != [] {
      var n := |qs|;
      assert (ps + qs)[..|ps + qs| - 1] == ps + qs[..n - 1];
      TerminatedAppend(ps, qs[..n - 1], c);
    } else {
      assert ps + qs == ps;
    }
  }
}
