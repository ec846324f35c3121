/** The three Kotlin string operations the quest logic relies on: `trim()`, `isBlank()`
    and `equals(other, ignoreCase = true)`, on strings as sequences of characters. */
module Text {

  /** Kotlin's `Char.isWhitespace()` on the JVM: `Character.isWhitespace` or
      `Character.isSpaceChar`, spelled out as the code points it accepts. */
  predicate IsWhitespace(c: char) {
    var n := c as int;
    (0x09 <= n <= 0x0D) || (0x1C <= n <= 0x20) || n == 0xA0 || n == 0x1680
    || (0x2000 <= n <= 0x200A) || n == 0x2028 || n == 0x2029 || n == 0x202F
    || n == 0x205F || n == 0x3000
  }

  /** Kotlin's `isBlank()`: empty, or whitespace only. */
  predicate IsBlank(s: string) {
    forall i :: 0 <= i < |s| ==> IsWhitespace(s[i])
  }

  /** Neither end of `r` is whitespace. */
  predicate IsTrimmed(r: string) {
    r == [] || (!IsWhitespace(r[0]) && !IsWhitespace(r[|r| - 1]))
  }

  /** Kotlin's `trimStart()`: `s` without its leading whitespace.  What is left is no
      longer than `s` and does not start with whitespace. */
  function TrimStart(s: string): (r: string)
    ensures |r| <= |s|
    ensures r == [] || !IsWhitespace(r[0])
    decreases |s|
  {
    if s != [] && IsWhitespace(s[0]) then TrimStart(s[1..]) else s
  }

  /** Kotlin's `trimEnd()`: `s` without its trailing whitespace.  What is left is no
      longer than `s` and does not end with whitespace. */
  function TrimEnd(s: string): (r: string)
    ensures |r| <= |s|
    ensures r == [] || !IsWhitespace(r[|r| - 1])
    decreases |s|
  {
    if s != [] && IsWhitespace(s[|s| - 1]) then TrimEnd(s[..|s| - 1]) else s
  }

  /** Kotlin's `trim()`: `s` without its leading and trailing whitespace. */
  function Trim(s: string): (r: string)
    ensures |r| <= |s|
  {
    TrimEnd(TrimStart(s))
  }

  /** trimStart() removes a blank prefix and keeps the rest of `s` as it is. */
  lemma {:induction false} TrimStartSplit(s: string)
    ensures var n := |s| - |TrimStart(s)|; s == s[..n] + TrimStart(s) && IsBlank(s[..n])
    decreases |s|
  {
    if s != [] && IsWhitespace(s[0]) {
      var t := s[1..];
      TrimStartSplit(t);
      var r := TrimStart(s);
      var m := |t| - |r|;
      assert t == t[..m] + r;
      var pre := s[..m + 1];
      assert pre == [s[0]] + t[..m];
      assert s == [s[0]] + t;
      forall i | 0 <= i < m + 1 ensures IsWhitespace(pre[i]) {
        if i > 0 {
          assert pre[i] == t[..m][i - 1];
        }
      }
    } else {
      assert s[..0] == [];
    }
  }

  /** trimEnd() removes a blank suffix and keeps the rest of `s` as it is. */
  lemma {:induction false} TrimEndSplit(s: string)
    ensures s == TrimEnd(s) + s[|TrimEnd(s)|..] && IsBlank(s[|TrimEnd(s)|..])
    decreases |s|
  {
    if s != [] && IsWhitespace(s[|s| - 1]) {
      var t := s[..|s| - 1];
      TrimEndSplit(t);
      var r := TrimEnd(s);
      assert t == r + t[|r|..];
      assert s[|r|..] == t[|r|..] + [s[|s| - 1]];
      assert s == t + [s[|s| - 1]];
      forall i | 0 <= i < |s| - |r| ensures IsWhitespace(s[|r|..][i]) {
        if i < |s| - |r| - 1 {
          assert s[|r|..][i] == t[|r|..][i];
        }
      }
    } else {
      assert s[|s|..] == [];
    }
  }

  /** `s` is the trimmed string between a blank prefix `a` and a blank suffix `b`, and
      neither end of the trimmed string is whitespace. */
  lemma TrimShape(s: string) returns (a: string, b: string)
    ensures s == a + Trim(s) + b
    ensures IsBlank(a) && IsBlank(b) && IsTrimmed(Trim(s))
  {
    var t := TrimStart(s);
    var r := TrimEnd(t);
    TrimStartSplit(s);
    TrimEndSplit(t);
    a, b := s[..|s| - |t|], t[|r|..];
    assert s == a + t && t == r + b;
    if r != [] {
      assert t[0] == r[0];
    }
    assert s == a + r + b;
  }

  /** Simple case folding: ASCII capitals and the capitals of the basic Cyrillic block
      (U+0400 to U+042F) map to their small letters; every other character is itself. */
  function Fold(c: char): (f: char)
    ensures IsWhitespace(f) == IsWhitespace(c)
  {
    var n := c as int;
    if 0x41 <= n <= 0x5A || 0x410 <= n <= 0x42F then (n + 0x20) as char
    else if 0x400 <= n <= 0x40F then (n + 0x50) as char
    else c
  }

  /** `a.equals(b, ignoreCase = true)`: same length, and equal character by character
      once case is folded. */
  predicate EqualsIgnoreCase(a: string, b: string): (r: bool)
    ensures r ==> |a| == |b|
    decreases |a|
  {
    |a| == |b| && (a == [] || (Fold(a[0]) == Fold(b[0]) && EqualsIgnoreCase(a[1..], b[1..])))
  }

  /** EqualsIgnoreCase compares the folded characters position by position. */
  lemma {:induction false} EqualsIgnoreCaseIndexwise(a: string, b: string)
    ensures EqualsIgnoreCase(a, b) <==> |a| == |b| && forall i :: 0 <= i < |a| ==> Fold(a[i]) == Fold(b[i])
    decreases |a|
  {
    if |a| == |b| && a != [] {
      var a', b' := a[1..], b[1..];
      EqualsIgnoreCaseIndexwise(a', b');
      if EqualsIgnoreCase(a, b) {
        forall i | 0 <= i < |a| ensures Fold(a[i]) == Fold(b[i]) {
          if i > 0 {
            assert a[i] == a'[i - 1] && b[i] == b'[i - 1];
          }
        }
      }
      if forall i :: 0 <= i < |a| ==> Fold(a[i]) == Fold(b[i]) {
        forall i | 0 <= i < |a'| ensures Fold(a'[i]) == Fold(b'[i]) {
          assert a'[i] == a[i + 1] && b'[i] == b[i + 1];
        }
      }
    }
  }

  /** The answer test of the playback screen: the trimmed input equals the trimmed
      expected answer, ignoring case. */
  predicate AnswerMatches(input: string, expected: string): (r: bool)
    ensures r ==> |Trim(input)| == |Trim(expected)|
  {
    EqualsIgnoreCase(Trim(input), Trim(expected))
  }

  /** Two blank strings together are blank. */
  lemma BlankConcat(u: string, v: string)
    requires IsBlank(u) && IsBlank(v)
    ensures IsBlank(u + v)
  {
    forall i | 0 <= i < |u + v| ensures IsWhitespace((u + v)[i]) {
      if i >= |u| { assert (u + v)[i] == v[i - |u|]; }
    }
  }

  /** A blank prefix before a string that does not start with whitespace is exactly what
      trimStart() removes. */
  lemma {:induction false} TrimStartUnique(w: string, r: string)
    requires IsBlank(w) && (r == [] || !IsWhitespace(r[0]))
    ensures TrimStart(w + r) == r
    decreases |w|
  {
    if w == [] {
      assert w + r == r;
    } else {
      assert (w + r)[0] == w[0];
      assert (w + r)[1..] == w[1..] + r;
      TrimStartUnique(w[1..], r);
    }
  }

  /** A blank suffix after a string that does not end with whitespace is exactly what
      trimEnd() removes. */
  lemma {:induction false} TrimEndUnique(r: string, w: string)
    requires IsBlank(w) && (r == [] || !IsWhitespace(r[|r| - 1]))
    ensures TrimEnd(r + w) == r
    decreases |w|
  {
    if w == [] {
      assert r + w == r;
    } else {
      var u := w[..|w| - 1];
      assert (r + w)[|r + w| - 1] == w[|w| - 1];
      assert (r + w)[..|r + w| - 1] == r + u;
      TrimEndUnique(r, u);
    }
  }

  /** Trimming a blank prefix, a trimmed middle and a blank suffix gives the middle: the
      shape stated by TrimShape determines the result of Trim. */
  lemma TrimUnique(w1: string, r: string, w2: string)
    requires IsBlank(w1) && IsBlank(w2) && IsTrimmed(r)
    ensures Trim(w1 + r + w2) == r
  {
    assert w1 + r + w2 == w1 + (r + w2);
    if r == [] {
      assert r + w2 == w2;
      TrimStartUnique(w1 + w2, []);
      assert w1 + w2 + [] == w1 + w2;
      BlankConcat(w1, w2);
    } else {
      assert (r + w2)[0] == r[0];
      TrimStartUnique(w1, r + w2);
      TrimEndUnique(r, w2);
    }
  }

  /** Trimming twice is trimming once. */
  lemma TrimIdempotent(s: string)
    ensures Trim(Trim(s)) == Trim(s)
  {
    var a, b := TrimShape(s);
    TrimUnique([], Trim(s), []);
    assert [] + Trim(s) + [] == Trim(s);
  }

  /** Five pieces concatenated can be grouped as three. */
  lemma Regroup(w1: string, a: string, t: string, b: string, w2: string)
    ensures w1 + (a + t + b) + w2 == (w1 + a) + t + (b + w2)
  {
    assert w1 + (a + t + b) == (w1 + a) + t + b;
  }

  /** Whitespace added at either end of a string does not change its trimmed form. */
  lemma TrimIgnoresPadding(w1: string, s: string, w2: string)
    requires IsBlank(w1) && IsBlank(w2)
    ensures Trim(w1 + s + w2) == Trim(s)
  {
    var a, b := TrimShape(s);
    var t := Trim(s);
    Regroup(w1, a, t, b, w2);
    BlankConcat(w1, a);
    BlankConcat(b, w2);
    TrimUnique(w1 + a, t, b + w2);
  }

  /** Case-insensitive equality is an equivalence. */
  lemma EqualsIgnoreCaseEquivalence(a: string, b: string, c: string)
    ensures EqualsIgnoreCase(a, a)
    ensures EqualsIgnoreCase(a, b) ==> EqualsIgnoreCase(b, a)
    ensures EqualsIgnoreCase(a, b) && EqualsIgnoreCase(b, c) ==> EqualsIgnoreCase(a, c)
  {
    EqualsIgnoreCaseIndexwise(a, a);
    EqualsIgnoreCaseIndexwise(a, b);
    EqualsIgnoreCaseIndexwise(b, a);
    EqualsIgnoreCaseIndexwise(b, c);
    EqualsIgnoreCaseIndexwise(a, c);
  }

  /** Pieces cut at the same places from strings equal up to case are equal up to case. */
  lemma SliceEqualsIgnoreCase(a: string, b: string, lo: nat, hi: nat)
    requires EqualsIgnoreCase(a, b) && lo <= hi <= |a|
    ensures EqualsIgnoreCase(a[lo..hi], b[lo..hi])
  {
    EqualsIgnoreCaseIndexwise(a, b);
    EqualsIgnoreCaseIndexwise(a[lo..hi], b[lo..hi]);
    forall i | 0 <= i < hi - lo ensures Fold(a[lo..hi][i]) == Fold(b[lo..hi][i]) {
      assert a[lo..hi][i] == a[lo + i] && b[lo..hi][i] == b[lo + i];
    }
  }

  /** A string is its three pieces cut at `lo` and `hi`. */
  lemma SplitThree(s: string, lo: nat, hi: nat)
    requires lo <= hi <= |s|
    ensures s == s[..lo] + s[lo..hi] + s[hi..]
  {
  }

  /** Blankness and trimmedness do not depend on letter case. */
  lemma CaseKeepsShape(a: string, b: string)
    requires EqualsIgnoreCase(a, b)
    ensures IsBlank(a) ==> IsBlank(b)
    ensures IsTrimmed(a) ==> IsTrimmed(b)
  {
    EqualsIgnoreCaseIndexwise(a, b);
    forall i | 0 <= i < |a| ensures IsWhitespace(a[i]) == IsWhitespace(b[i]) {
      assert Fold(a[i]) == Fold(b[i]);
    }
  }

  /** Strings equal up to case have trimmed forms equal up to case: folding never turns
      whitespace into a letter or back. */
  lemma TrimRespectsCase(a: string, b: string)
    requires EqualsIgnoreCase(a, b)
    ensures EqualsIgnoreCase(Trim(a), Trim(b))
  {
    var pre, suf := TrimShape(a);
    var ta := Trim(a);
    var la, hi := |pre|, |pre| + |ta|;
    assert pre == a[..la] && ta == a[la..hi] && suf == a[hi..];
    assert a[..la] == a[0..la] && b[..la] == b[0..la];
    assert a[hi..] == a[hi..|a|] && b[hi..] == b[hi..|b|];
    SliceEqualsIgnoreCase(a, b, 0, la);
    SliceEqualsIgnoreCase(a, b, la, hi);
    SliceEqualsIgnoreCase(a, b, hi, |a|);
    CaseKeepsShape(a[..la], b[..la]);
    CaseKeepsShape(ta, b[la..hi]);
    CaseKeepsShape(a[hi..], b[hi..]);
    SplitThree(b, la, hi);
    TrimUnique(b[..la], b[la..hi], b[hi..]);
  }

  /** Surrounding whitespace on either side never changes whether an answer matches. */
  lemma MatchIgnoresPadding(w1: string, input: string, w2: string, v1: string, expected: string, v2: string)
    requires IsBlank(w1) && IsBlank(w2) && IsBlank(v1) && IsBlank(v2)
    ensures AnswerMatches(w1 + input + w2, v1 + expected + v2) == AnswerMatches(input, expected)
  {
    TrimIgnoresPadding(w1, input, w2);
    TrimIgnoresPadding(v1, expected, v2);
  }

  /** Letter case on either side never changes whether an answer matches. */
  lemma MatchIgnoresCase(input: string, input': string, expected: string, expected': string)
    requires EqualsIgnoreCase(input, input') && EqualsIgnoreCase(expected, expected')
    ensures AnswerMatches(input, expected) == AnswerMatches(input', expected')
  {
    TrimRespectsCase(input, input');
    TrimRespectsCase(expected, expected');
    var a, a', e, e' := Trim(input), Trim(input'), Trim(expected), Trim(expected');
    EqualsIgnoreCaseEquivalence(a, a', e);
    EqualsIgnoreCaseEquivalence(a', a, e');
    EqualsIgnoreCaseEquivalence(e', e, a);
    EqualsIgnoreCaseEquivalence(a, e, e');
    EqualsIgnoreCaseEquivalence(a', a, e);
    EqualsIgnoreCaseEquivalence(a', e', e);
    EqualsIgnoreCaseEquivalence(e, e', a');
  }

  /** The expected answer itself, typed exactly, always matches. */
  lemma MatchesOwnAnswer(expected: string)
    ensures AnswerMatches(expected, expected)
  {
    EqualsIgnoreCaseEquivalence(Trim(expected), Trim(expected), Trim(expected));
  }
}
