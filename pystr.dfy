/** The few Python `str` operations the configuration code relies on, stated
    over `seq<char>`: `isdigit`, `strip`, `upper`, `split(sep)`, `split()`,
    `rsplit(sep, 1)`, `startswith`, the `in` substring test and `int(text)`.
    Whitespace, letter case and `int()` are those of a Python 2 `str`. */
module PyStr {
  import opened Wrappers

  /** The characters `str.strip()` and `str.split()` treat as whitespace. */
  predicate IsSpace(c: char) {
    c == ' ' || c == '\t' || c == '\n' || c == '\r' || c as int == 11 || c as int == 12
  }

  predicate IsDigit(c: char) {
    '0' <= c <= '9'
  }

  predicate IsLower(c: char) {
    'a' <= c <= 'z'
  }

  predicate AllSpace(s: string) {
    forall i :: 0 <= i < |s| ==> IsSpace(s[i])
  }

  predicate NoSpace(s: string) {
    forall i :: 0 <= i < |s| ==> !IsSpace(s[i])
  }

  predicate AllDigits(s: string) {
    forall i :: 0 <= i < |s| ==> IsDigit(s[i])
  }

  /** `s.isdigit()`: true for a non-empty string of decimal digits. */
  predicate IsDigits(s: string) {
    |s| > 0 && AllDigits(s)
  }

  /** No character is an ASCII lower-case letter. */
  predicate NoLower(s: string) {
    forall i :: 0 <= i < |s| ==> !IsLower(s[i])
  }

  // ---------------------------------------------------------------- strip

  /** `s.lstrip()`. */
  function StripLeft(s: string): string {
    if s != [] && IsSpace(s[0]) then StripLeft(s[1..]) else s
  }

  /** `s.rstrip()`. */
  function StripRight(s: string): string {
    if s != [] && IsSpace(s[|s| - 1]) then StripRight(s[..|s| - 1]) else s
  }

  /** `s.strip()`. */
  function Strip(s: string): string {
    StripRight(StripLeft(s))
  }

  /** `lstrip` keeps a suffix, drops only whitespace, and stops at a
      non-whitespace character. */
  lemma {:induction false} StripLeftSpec(s: string)
    ensures var r := StripLeft(s);
            && |r| <= |s| && r == s[|s| - |r|..]
            && AllSpace(s[..|s| - |r|])
            && (r != [] ==> !IsSpace(r[0]))
  {
    if s != [] && IsSpace(s[0]) {
      StripLeftSpec(s[1..]);
      var r := StripLeft(s);
      assert s[..|s| - |r|] == [s[0]] + s[1..][..|s| - 1 - |r|];
    }
  }

  /** `rstrip` keeps a prefix, drops only whitespace, and stops at a
      non-whitespace character. */
  lemma {:induction false} StripRightSpec(s: string)
    ensures var r := StripRight(s);
            && |r| <= |s| && r == s[..|r|]
            && AllSpace(s[|r|..])
            && (r != [] ==> !IsSpace(r[|r| - 1]))
  {
    if s != [] && IsSpace(s[|s| - 1]) {
      StripRightSpec(s[..|s| - 1]);
      var r := StripRight(s);
      assert s[|r|..] == s[..|s| - 1][|r|..] + [s[|s| - 1]];
    }
  }

  /** The stripped text is empty exactly when `s` is all whitespace, which
      is what a Python truth test `if x.strip()` asks; otherwise it neither
      starts nor ends with whitespace. */
  lemma StripSpec(s: string)
    ensures Strip(s) == [] <==> AllSpace(s)
    ensures Strip(s) != [] ==> !IsSpace(Strip(s)[0]) && !IsSpace(Strip(s)[|Strip(s)| - 1])
  {
    var l := StripLeft(s);
    var r := StripRight(l);
    StripLeftSpec(s);
    StripRightSpec(l);
    if r == [] {
      assert l == [];
      assert s[..|s| - |l|] == s;
    } else {
      assert l[0] == r[0];
      assert s[|s| - |l|] == l[0];
    }
  }

  lemma {:induction false} StripLeftPadded(w: string, s: string)
    requires AllSpace(w)
    requires s == [] || !IsSpace(s[0])
    ensures StripLeft(w + s) == s
  {
    if w != [] {
      assert (w + s)[1..] == w[1..] + s;
      StripLeftPadded(w[1..], s);
    }
  }

  lemma {:induction false} StripRightPadded(s: string, w: string)
    requires AllSpace(w)
    requires s == [] || !IsSpace(s[|s| - 1])
    ensures StripRight(s + w) == s
  {
    if w != [] {
      assert (s + w)[..|s + w| - 1] == s + w[..|w| - 1];
      StripRightPadded(s, w[..|w| - 1]);
    } else {
      assert s + w == s;
    }
  }

  /** Stripping removes exactly the surrounding whitespace: a text without
      leading or trailing whitespace, padded with whitespace on both sides,
      strips back to itself. */
  lemma StripPadded(w1: string, s: string, w2: string)
    requires AllSpace(w1) && AllSpace(w2)
    requires s != [] ==> !IsSpace(s[0]) && !IsSpace(s[|s| - 1])
    ensures Strip(w1 + s + w2) == s
  {
    if s == [] {
      assert forall i :: 0 <= i < |w1 + s + w2| ==> IsSpace((w1 + s + w2)[i]) by {
        forall i | 0 <= i < |w1 + s + w2| ensures IsSpace((w1 + s + w2)[i]) {
          if i < |w1| { assert (w1 + s + w2)[i] == w1[i]; }
          else { assert (w1 + s + w2)[i] == w2[i - |w1|]; }
        }
      }
      StripSpec(w1 + s + w2);
    } else {
      assert w1 + s + w2 == w1 + (s + w2);
      StripLeftPadded(w1, s + w2);
      StripRightPadded(s, w2);
    }
  }

  // ---------------------------------------------------------------- upper

  /** ASCII `c.upper()`. */
  function UpperChar(c: char): (u: char)
    ensures !IsLower(u)
    ensures IsSpace(u) == IsSpace(c)
    ensures !IsLower(c) ==> u == c
    ensures IsLower(c) ==> u as int - 'A' as int == c as int - 'a' as int
  {
    if IsLower(c) then (c as int - 32) as char else c
  }

  /** `s.upper()`: every lower-case letter replaced, nothing else touched. */
  function Upper(s: string): (r: string)
    ensures |r| == |s| && NoLower(r)
    ensures forall i :: 0 <= i < |s| ==> r[i] == UpperChar(s[i])
    ensures AllSpace(r) == AllSpace(s)
    ensures NoLower(s) ==> r == s
  {
    var r := seq(|s|, i requires 0 <= i < |s| => UpperChar(s[i]));
    assert AllSpace(r) ==> AllSpace(s) by {
      if AllSpace(r) {
        forall i | 0 <= i < |s| ensures IsSpace(s[i]) {
          assert IsSpace(r[i]);
        }
      }
    }
    r
  }

  /** Upper-casing works piece by piece, and keeps the vertical bar. */
  lemma UpperConcat(a: string, bar: string, b: string)
    requires bar == "|"
    ensures Upper(a + bar + b) == Upper(a) + bar + Upper(b)
  {
    var s := a + bar + b;
    forall i | 0 <= i < |s| ensures Upper(s)[i] == (Upper(a) + bar + Upper(b))[i] {
      if i < |a| {
        assert s[i] == a[i];
      } else if i == |a| {
        assert s[i] == '|';
      } else {
        assert s[i] == b[i - |a| - 1];
      }
    }
  }

  lemma UpperIdempotent(s: string)
    ensures Upper(Upper(s)) == Upper(s)
  {
  }

  // ---------------------------------------------------------------- split(sep)

  /** The pieces glued back with `sep` between them: Python's `sep.join`. */
  function Join(pieces: seq<string>, sep: char): string
    requires |pieces| >= 1
  {
    if |pieces| == 1 then pieces[0] else pieces[0] + [sep] + Join(pieces[1..], sep)
  }

  /** `s.split(sep)` for a one-character separator: the texts between the
      separators, empty ones included. There is always at least one piece,
      no piece contains `sep`, and joining them with `sep` gives `s` back. */
  function Split(s: string, sep: char): (r: seq<string>)
    ensures |r| >= 1
    ensures forall i :: 0 <= i < |r| ==> sep !in r[i]
    ensures Join(r, sep) == s
  {
    if s == [] then [""]
    else
      var rest := Split(s[1..], sep);
      if s[0] == sep then
        assert Join([""] + rest, sep) == [sep] + Join(rest, sep) by {
          assert ([""] + rest)[1..] == rest;
        }
        [""] + rest
      else
        var r := [[s[0]] + rest[0]] + rest[1..];
        assert Join(r, sep) == [s[0]] + Join(rest, sep) by {
          if |rest| > 1 {
            assert r[1..] == rest[1..];
          }
        }
        r
  }

  /** A text without the separator is a single piece. */
  lemma {:induction false} SplitNoSep(s: string, sep: char)
    requires sep !in s
    ensures Split(s, sep) == [s]
  {
    if s != [] {
      assert sep !in s[1..];
      SplitNoSep(s[1..], sep);
    }
  }

  /** Splitting a text at one occurrence of the separator splits each half
      independently: `(a + sep + b).split(sep) == a.split(sep) + b.split(sep)`. */
  lemma {:induction false} SplitConcat(a: string, sep: char, b: string)
    ensures Split(a + [sep] + b, sep) == Split(a, sep) + Split(b, sep)
  {
    if a == [] {
      assert a + [sep] + b == [sep] + b;
      assert ([sep] + b)[1..] == b;
    } else {
      assert (a + [sep] + b)[1..] == a[1..] + [sep] + b;
      SplitConcat(a[1..], sep, b);
    }
  }

  // ---------------------------------------------------------------- rsplit(sep, 1)

  /** Index of the last occurrence of `c`, or None when `c` does not occur. */
  function LastIndex(s: string, c: char): (r: Option<nat>)
    ensures r.None? <==> c !in s
    ensures r.Some? ==> r.value < |s| && s[r.value] == c && c !in s[r.value + 1..]
  {
    if s == [] then None
    else if s[|s| - 1] == c then Some(|s| - 1)
    else
      var r := LastIndex(s[..|s| - 1], c);
      assert s == s[..|s| - 1] + [s[|s| - 1]];
      if r.Some? then
        assert s[r.value + 1..] == s[..|s| - 1][r.value + 1..] + [s[|s| - 1]];
        r
      else r
  }

  /** `s.rsplit(sep, 1)` when it yields two pieces: the text before the last
      separator and the text after it; None when `sep` does not occur (the
      Python list then has one element). */
  function RSplitOnce(s: string, sep: char): (r: Option<(string, string)>)
    ensures r.None? <==> sep !in s
    ensures r.Some? ==> s == r.value.0 + [sep] + r.value.1 && sep !in r.value.1
  {
    match LastIndex(s, sep)
    case None => None
    case Some(i) =>
      assert s == s[..i] + [sep] + s[i + 1..];
      Some((s[..i], s[i + 1..]))
  }

  /** The split point is the last separator, whatever precedes it. */
  lemma RSplitOnceOf(a: string, sep: char, b: string)
    requires sep !in b
    ensures RSplitOnce(a + [sep] + b, sep) == Some((a, b))
  {
    var s := a + [sep] + b;
    var r := RSplitOnce(s, sep);
    var i := LastIndex(s, sep).value;
    assert i == |a| by {
      assert s[|a|] == sep;
      assert s[|a| + 1..] == b;
    }
    assert s[..|a|] == a;
    assert s[|a| + 1..] == b;
  }

  // ---------------------------------------------------------------- split()

  /** Length of the leading run of non-whitespace characters. */
  function TokenLength(s: string): (n: nat)
    ensures n <= |s|
    ensures s != [] && !IsSpace(s[0]) ==> n >= 1
  {
    if s == [] || IsSpace(s[0]) then 0 else 1 + TokenLength(s[1..])
  }

  /** `s.split()`: the maximal runs of non-whitespace characters, in order. */
  function SplitWs(s: string): seq<string>
    decreases |s|
  {
    if s == [] then []
    else if IsSpace(s[0]) then SplitWs(s[1..])
    else
      var n := TokenLength(s);
      [s[..n]] + SplitWs(s[n..])
  }

  lemma {:induction false} TokenLengthSpec(s: string)
    ensures NoSpace(s[..TokenLength(s)])
    ensures TokenLength(s) < |s| ==> IsSpace(s[TokenLength(s)])
  {
    if s != [] && !IsSpace(s[0]) {
      TokenLengthSpec(s[1..]);
      var n := TokenLength(s);
      assert s[..n] == [s[0]] + s[1..][..n - 1];
    }
  }

  /** Every token of `s.split()` is non-empty and holds no whitespace. */
  lemma {:induction false} SplitWsTokens(s: string)
    ensures forall i :: 0 <= i < |SplitWs(s)| ==> SplitWs(s)[i] != [] && NoSpace(SplitWs(s)[i])
    decreases |s|
  {
    if s != [] {
      if IsSpace(s[0]) {
        SplitWsTokens(s[1..]);
      } else {
        var n := TokenLength(s);
        TokenLengthSpec(s);
        SplitWsTokens(s[n..]);
        var r := SplitWs(s);
        assert forall i :: 1 <= i < |r| ==> r[i] == SplitWs(s[n..])[i - 1];
      }
    }
  }

  /** `split()` finds no token exactly in all-whitespace text. */
  lemma {:induction false} SplitWsEmpty(s: string)
    ensures SplitWs(s) == [] <==> AllSpace(s)
    decreases |s|
  {
    if s != [] && IsSpace(s[0]) {
      SplitWsEmpty(s[1..]);
      assert forall i :: 1 <= i < |s| ==> s[i] == s[1..][i - 1];
    }
  }

  lemma {:induction false} SplitWsSkip(w: string, s: string)
    requires AllSpace(w)
    ensures SplitWs(w + s) == SplitWs(s)
  {
    if w != [] {
      assert (w + s)[1..] == w[1..] + s;
      SplitWsSkip(w[1..], s);
    } else {
      assert w + s == s;
    }
  }

  lemma {:induction false} TokenLengthOf(a: string, s: string)
    requires a != [] && NoSpace(a)
    requires s == [] || IsSpace(s[0])
    ensures TokenLength(a + s) == |a|
  {
    if |a| > 1 {
      assert (a + s)[1..] == a[1..] + s;
      TokenLengthOf(a[1..], s);
    } else {
      assert (a + s)[1..] == s;
    }
  }

  /** Whitespace, a token, then the end or more whitespace: the token comes
      first and the rest splits on its own, so no token is dropped and the
      tokens keep their order. */
  lemma SplitWsCons(w: string, a: string, s: string)
    requires AllSpace(w)
    requires a != [] && NoSpace(a)
    requires s == [] || IsSpace(s[0])
    ensures SplitWs(w + a + s) == [a] + SplitWs(s)
  {
    assert w + a + s == w + (a + s);
    SplitWsSkip(w, a + s);
    TokenLengthOf(a, s);
    assert (a + s)[..|a|] == a;
    assert (a + s)[|a|..] == s;
  }

  /** A text without outer whitespace that splits into one token is that
      token. */
  lemma SplitWsSingle(u: string)
    requires u != [] && !IsSpace(u[0]) && !IsSpace(u[|u| - 1])
    requires |SplitWs(u)| == 1
    ensures SplitWs(u) == [u]
  {
    var m := TokenLength(u);
    assert SplitWs(u) == [u[..m]] + SplitWs(u[m..]);
    SplitWsEmpty(u[m..]);
    assert AllSpace(u[m..]);
    assert m == |u|;
    assert u[..m] == u;
  }

  /** Text that starts with whitespace but does not end with it is some
      whitespace followed by a text without outer whitespace. */
  lemma LeadingSpace(rest: string) returns (w: string, u: string)
    requires rest != [] && IsSpace(rest[0]) && !IsSpace(rest[|rest| - 1])
    ensures rest == w + u && w != [] && AllSpace(w)
    ensures u != [] && !IsSpace(u[0]) && !IsSpace(u[|u| - 1])
  {
    u := StripLeft(rest);
    StripLeftSpec(rest);
    w := rest[..|rest| - |u|];
    assert rest == w + u;
    assert |u| > 0 by {
      assert |u| == 0 ==> w == rest;
    }
    assert u[|u| - 1] == rest[|rest| - 1];
    assert u[0] != rest[0];
    assert |w| > 0;
  }

  /** A text whose part from position `n` on is `w + u` is its first `n`
      characters followed by `w` and `u`. */
  lemma SplitPrefix(s: string, n: nat, w: string, u: string)
    requires n <= |s| && s[n..] == w + u
    ensures s == s[..n] + w + u
  {
    assert s == s[..n] + s[n..];
  }

  /** A text without outer whitespace that splits into exactly two tokens is
      the first token, some whitespace, and the second token. */
  lemma SplitWsPair(s: string) returns (w: string)
    requires s != [] && !IsSpace(s[0]) && !IsSpace(s[|s| - 1])
    requires |SplitWs(s)| == 2
    ensures w != [] && AllSpace(w) && s == SplitWs(s)[0] + w + SplitWs(s)[1]
  {
    var n := TokenLength(s);
    var rest := s[n..];
    assert SplitWs(s) == [s[..n]] + SplitWs(rest);
    TokenLengthSpec(s);
    SplitWsEmpty(rest);
    assert rest != [];
    assert rest[|rest| - 1] == s[|s| - 1];
    var u;
    w, u := LeadingSpace(rest);
    SplitWsSkip(w, u);
    SplitWsSingle(u);
    assert SplitWs(s)[0] == s[..n];
    assert SplitWs(s)[1] == u;
    SplitPrefix(s, n, w, u);
  }

  /** Two tokens separated by whitespace split back into exactly those two
      tokens: `(a + w + b).split() == [a, b]`. */
  lemma SplitWsTwo(a: string, w: string, b: string)
    requires a != [] && NoSpace(a) && b != [] && NoSpace(b)
    requires w != [] && AllSpace(w)
    ensures SplitWs(a + w + b) == [a, b]
  {
    var s := a + w + b;
    assert s == a + (w + b);
    TokenLengthOf(a, w + b);
    assert s[..|a|] == a;
    assert s[|a|..] == w + b;
    SplitWsSkip(w, b);
    TokenLengthOf(b, []);
    assert b + [] == b;
    assert b[..|b|] == b && b[|b|..] == [];
  }

  // ---------------------------------------------------------------- in, startswith

  /** `sub` occurs in `s` starting at index `i`. */
  predicate OccursAt(s: string, sub: string, i: nat) {
    i + |sub| <= |s| && forall k :: 0 <= k < |sub| ==> s[i + k] == sub[k]
  }

  /** Python's `sub in s`: `sub` occurs at some index of `s`. */
  predicate Contains(s: string, sub: string) {
    exists i :: 0 <= i <= |s| - |sub| && OccursAt(s, sub, i)
  }

  /** Python's `s.startswith(p)`. */
  predicate StartsWith(s: string, p: string) {
    p <= s
  }

  // ---------------------------------------------------------------- int()

  function DigitValue(c: char): nat
    requires IsDigit(c)
  {
    c as int - '0' as int
  }

  /** The number a string of decimal digits denotes (0 for the empty string). */
  function DigitsValue(s: string): nat
    requires AllDigits(s)
  {
    if s == [] then 0 else DigitsValue(s[..|s| - 1]) * 10 + DigitValue(s[|s| - 1])
  }

  /** The decimal spelling of `n`, the inverse of DigitsValue. */
  function DecimalString(n: nat): (r: string)
    ensures IsDigits(r)
    ensures DigitsValue(r) == n
  {
    var d := ['0' + (n % 10) as char];
    if n < 10 then d
    else
      var r := DecimalString(n / 10) + d;
      assert r[..|r| - 1] == DecimalString(n / 10);
      r
  }

  /** A text already without surrounding whitespace strips to itself. */
  lemma StripUnpadded(s: string)
    requires s != [] && !IsSpace(s[0]) && !IsSpace(s[|s| - 1])
    ensures Strip(s) == s
  {
    assert StripLeft(s) == s;
  }

  predicate IsSign(c: char) {
    c == '+' || c == '-'
  }

  /** A decimal literal as Python 2's `int()` reads it once the surrounding
      whitespace is gone: digits, or a sign, optional whitespace and digits. */
  predicate IsIntLiteral(t: string) {
    IsDigits(t) || (t != [] && IsSign(t[0]) && IsDigits(StripLeft(t[1..])))
  }

  /** The value of an integer literal without surrounding whitespace. */
  function Literal(t: string): (r: Option<int>)
    ensures r.Some? <==> IsIntLiteral(t)
    ensures IsDigits(t) ==> r == Some(DigitsValue(t))
  {
    if t != [] && IsSign(t[0]) then
      var digits := StripLeft(t[1..]);
      if IsDigits(digits) then
        var magnitude: int := DigitsValue(digits);
        Some(if t[0] == '-' then -magnitude else magnitude)
      else None
    else if IsDigits(t) then Some(DigitsValue(t))
    else None
  }

  /** A sign, whitespace, then digits: the digits' value with that sign. */
  lemma LiteralSigned(w: string, d: string)
    requires AllSpace(w) && IsDigits(d)
    ensures Literal("+" + w + d) == Some(DigitsValue(d))
    ensures Literal("-" + w + d) == Some(-(DigitsValue(d) as int))
  {
    StripLeftPadded(w, d);
    assert ("+" + w + d)[1..] == w + d;
    assert ("-" + w + d)[1..] == w + d;
  }

  /** Python 2's `int(text)` on a decimal literal: surrounding whitespace is
      allowed, then an optional sign, optional whitespace and at least one
      digit; anything else raises ValueError, here None. */
  function ParseInt(text: string): (r: Option<int>)
    ensures r.Some? <==> IsIntLiteral(Strip(text))
    ensures IsDigits(text) ==> r == Some(DigitsValue(text))
    ensures r.Some? ==> !AllSpace(text)
  {
    StripSpec(text);
    assert IsDigits(text) ==> Strip(text) == text by {
      if IsDigits(text) {
        StripUnpadded(text);
      }
    }
    Literal(Strip(text))
  }

  /** Whitespace around a literal does not change what `int()` reads: with the
      literal pinned by `Literal`, this fixes `int()` on every text. */
  lemma ParseIntPadded(w1: string, t: string, w2: string)
    requires AllSpace(w1) && AllSpace(w2)
    requires t != [] && !IsSpace(t[0]) && !IsSpace(t[|t| - 1])
    ensures ParseInt(w1 + t + w2) == Literal(t)
  {
    StripPadded(w1, t, w2);
  }

  /** `int(str(n)) == n` for every integer, negative ones included. */
  lemma ParseIntDecimal(n: int)
    ensures n >= 0 ==> ParseInt(DecimalString(n)) == Some(n)
    ensures n < 0 ==> ParseInt("-" + DecimalString(-n)) == Some(n)
  {
    if n < 0 {
      var s := "-" + DecimalString(-n);
      StripUnpadded(s);
      LiteralSigned("", DecimalString(-n));
      assert "-" + "" + DecimalString(-n) == s;
    }
  }

  /** A signed literal, with whitespace after the sign, is read with that
      sign. */
  lemma ParseIntSigned(w: string, d: string)
    requires AllSpace(w) && IsDigits(d)
    ensures ParseInt("+" + w + d) == Some(DigitsValue(d))
    ensures ParseInt("-" + w + d) == Some(-(DigitsValue(d) as int))
  {
    var plus, minus := "+" + w + d, "-" + w + d;
    assert plus[|plus| - 1] == d[|d| - 1] && minus[|minus| - 1] == d[|d| - 1];
    StripUnpadded(plus);
    StripUnpadded(minus);
    LiteralSigned(w, d);
  }
}
