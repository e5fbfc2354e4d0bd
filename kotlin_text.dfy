/**
 * The pieces of Kotlin's standard string library that the configuration
 * editor and the call view rely on: `String.toIntOrNull()` / `toInt()`,
 * `Int.toString()`, `String.trim()`, `String.lowercase()` and `endsWith`.
 */
module KotlinText {
  import opened Wrappers

  const MinInt: int := -0x8000_0000
  const MaxInt: int := 0x7FFF_FFFF

  /** Kotlin's `Int`: a 32-bit two's-complement integer. */
  type Int32 = x: int | MinInt <= x <= MaxInt

  predicate IsDigit(c: char) { '0' <= c <= '9' }

  function DigitValue(c: char): (d: nat)
    requires IsDigit(c)
    ensures d < 10
  {
    (c as int) - ('0' as int)
  }

  function DigitChar(d: nat): (c: char)
    requires d < 10
    ensures IsDigit(c) && DigitValue(c) == d
  {
    (('0' as int) + d) as char
  }

  predicate AllDigits(s: string) {
    forall i :: 0 <= i < |s| ==> IsDigit(s[i])
  }

  /** The value of a string of decimal digits, most significant first. */
  function DigitsValue(s: string): nat
    requires AllDigits(s)
  {
    if s == [] then 0 else DigitsValue(s[..|s| - 1]) * 10 + DigitValue(s[|s| - 1])
  }

  /** The text without one leading `-` or `+`. */
  function Unsigned(s: string): string {
    if |s| > 0 && (s[0] == '-' || s[0] == '+') then s[1..] else s
  }

  /** The value a sign and its digits denote, negated after a `-`. */
  function SignedValue(s: string): int
    requires AllDigits(Unsigned(s))
  {
    if |s| > 0 && s[0] == '-' then -(DigitsValue(Unsigned(s)) as int) else DigitsValue(Unsigned(s))
  }

  /**
   * `String.toIntOrNull()` in radix 10: an optional leading `-` or `+`,
   * then at least one digit, and a value inside the `Int` range; anything
   * else (the empty string, a lone sign, any other character, an overflow)
   * gives null. `String.toInt()` is the same parse, throwing where this
   * gives `None`.
   */
  function ParseInt(s: string): (r: Option<Int32>)
    ensures r.Some? <==> Unsigned(s) != [] && AllDigits(Unsigned(s)) && MinInt <= SignedValue(s) <= MaxInt
    ensures r.Some? ==> r.value == SignedValue(s)
    ensures s == [] ==> r.None?
    ensures r.Some? && r.value < 0 ==> s[0] == '-'
    ensures r.Some? && s[0] != '-' && s[0] != '+' ==> AllDigits(s) && r.value == DigitsValue(s)
    ensures |s| >= 1 && AllDigits(s) && DigitsValue(s) <= MaxInt ==> r == Some(DigitsValue(s))
  {
    if |s| == 0 then None
    else if s[0] == '-' || s[0] == '+' then
      if |s| == 1 || !AllDigits(s[1..]) then None
      else
        var v: int := if s[0] == '-' then -(DigitsValue(s[1..]) as int) else DigitsValue(s[1..]);
        if MinInt <= v <= MaxInt then Some(v) else None
    else if AllDigits(s) && DigitsValue(s) <= MaxInt then Some(DigitsValue(s))
    else None
  }

  /** The decimal digits of `n`, without leading zeros. */
  function NatToString(n: nat): (r: string)
    ensures |r| >= 1 && AllDigits(r)
    ensures |r| > 1 ==> r[0] != '0'
  {
    if n < 10 then [DigitChar(n)] else NatToString(n / 10) + [DigitChar(n % 10)]
  }

  /** `Int.toString()`: the decimal rendering, with `-` before a negative value. */
  function IntToString(n: int): (r: string)
    ensures |r| >= 1 && (r[0] == '-' <==> n < 0)
    ensures n >= 0 ==> AllDigits(r)
    ensures n < 0 ==> |r| >= 2 && AllDigits(r[1..])
  {
    if n < 0 then "-" + NatToString(-n) else NatToString(n)
  }

  lemma {:induction false} NatToStringValue(n: nat)
    ensures DigitsValue(NatToString(n)) == n
  {
    if n >= 10 {
      var s := NatToString(n);
      NatToStringValue(n / 10);
      assert s[..|s| - 1] == NatToString(n / 10);
    }
  }

  /** Parsing the rendering of any `Int` gives that `Int` back. */
  lemma ParseIntRoundTrip(n: Int32)
    ensures ParseInt(IntToString(n)) == Some(n)
  {
    if n < 0 {
      var m: nat := -(n as int);
      NatToStringValue(m);
      assert IntToString(n)[1..] == NatToString(m);
    } else {
      NatToStringValue(n);
    }
  }

  /**
   * The rendering is canonical: a string that parses and has no `+`, no
   * leading zero and no `-0` is the rendering of the value it parses to.
   */
  lemma CanonicalParse(s: string)
    requires ParseInt(s).Some?
    requires s[0] != '+'
    requires s[0] == '0' ==> |s| == 1
    requires s[0] == '-' ==> s[1] != '0'
    ensures IntToString(ParseInt(s).value) == s
  {
    if s[0] == '-' {
      DigitsRendering(s[1..]);
    } else {
      DigitsRendering(s);
    }
  }

  lemma {:induction false} DigitsRendering(s: string)
    requires |s| >= 1 && AllDigits(s)
    requires s[0] == '0' ==> |s| == 1
    ensures NatToString(DigitsValue(s)) == s
  {
    if |s| > 1 {
      var init := s[..|s| - 1];
      DigitsRendering(init);
      var v := DigitsValue(init);
      assert v != 0 by {
        if v == 0 { ZeroDigits(init); }
      }
      assert DigitsValue(s) / 10 == v && DigitsValue(s) % 10 == DigitValue(s[|s| - 1]);
      assert DigitChar(DigitValue(s[|s| - 1])) == s[|s| - 1];
      assert s == init + [s[|s| - 1]];
    } else {
      assert DigitChar(DigitValue(s[0])) == s[0];
    }
  }

  /** A digit string of value zero consisting of more than one digit starts with `0`. */
  lemma {:induction false} ZeroDigits(s: string)
    requires |s| >= 1 && AllDigits(s) && DigitsValue(s) == 0
    ensures s[0] == '0'
  {
    if |s| > 1 {
      ZeroDigits(s[..|s| - 1]);
    }
  }

  /**
   * Kotlin's `Char.isWhitespace()` on the JVM: `Character.isWhitespace` or
   * `Character.isSpaceChar`, that is the ASCII controls TAB to CR and
   * U+001C..U+001F, and every space, line and paragraph separator.
   */
  predicate IsWhitespace(c: char)
    ensures IsDigit(c) || 'a' <= c <= 'z' || 'A' <= c <= 'Z' || c == '-' || c == '_' ==> !IsWhitespace(c)
    ensures c == ' ' || c == '\t' || c == '\n' || c == '\r' ==> IsWhitespace(c)
  {
    || c == '\t' || c == '\n' || c == '\U{000B}' || c == '\U{000C}' || c == '\r'
    || ('\U{001C}' <= c <= '\U{001F}')
    || c == ' ' || c == '\U{00A0}' || c == '\U{1680}'
    || ('\U{2000}' <= c <= '\U{200A}')
    || c == '\U{2028}' || c == '\U{2029}' || c == '\U{202F}' || c == '\U{205F}' || c == '\U{3000}'
  }

  predicate AllWhitespace(s: string) {
    forall i :: 0 <= i < |s| ==> IsWhitespace(s[i])
  }

  /** No whitespace at either end. */
  predicate Trimmed(s: string) {
    s == [] || (!IsWhitespace(s[0]) && !IsWhitespace(s[|s| - 1]))
  }

  /** The number of whitespace characters `s` starts with. */
  function LeadingWhitespace(s: string): (n: nat)
    ensures n <= |s|
    ensures forall j :: 0 <= j < n ==> IsWhitespace(s[j])
    ensures n < |s| ==> !IsWhitespace(s[n])
  {
    if s != [] && IsWhitespace(s[0]) then
      var rest := s[1..];
      var n := LeadingWhitespace(rest);
      assert forall j :: 1 <= j <= n ==> s[j] == rest[j - 1];
      n + 1
    else 0
  }

  /** The number of whitespace characters `s` ends with. */
  function TrailingWhitespace(s: string): (n: nat)
    ensures n <= |s|
    ensures forall j :: |s| - n <= j < |s| ==> IsWhitespace(s[j])
    ensures n < |s| ==> !IsWhitespace(s[|s| - 1 - n])
  {
    if s != [] && IsWhitespace(s[|s| - 1]) then
      var init := s[..|s| - 1];
      var n := TrailingWhitespace(init);
      assert forall j :: |s| - 1 - n <= j < |s| - 1 ==> s[j] == init[j];
      n + 1
    else 0
  }

  /**
   * `String.trim()`: the string without its leading and trailing
   * whitespace. The result is trimmed, is empty exactly when the input is
   * all whitespace, and a trimmed input is returned unchanged.
   */
  function Trim(s: string): (r: string)
    ensures Trimmed(r)
    ensures |r| <= |s|
    ensures r == [] <==> AllWhitespace(s)
    ensures Trimmed(s) ==> r == s
  {
    var a := LeadingWhitespace(s);
    var t := s[a..];
    var b := TrailingWhitespace(t);
    TrimCutsTrimmed(s, a, t, b);
    TrimCutsEmpty(s, a, t, b);
    TrimCutsNothing(s, a, t, b);
    t[..|t| - b]
  }

  /** The cuts `Trim` makes leave no whitespace at either end. */
  lemma TrimCutsTrimmed(s: string, a: nat, t: string, b: nat)
    requires a == LeadingWhitespace(s) && t == s[a..] && b == TrailingWhitespace(t)
    ensures Trimmed(t[..|t| - b])
  {
    var r := t[..|t| - b];
    if r != [] {
      assert a < |s| && b < |t|;
      assert !IsWhitespace(s[a]) && !IsWhitespace(t[|t| - 1 - b]);
      assert r[0] == t[0] == s[a];
      assert r[|r| - 1] == t[|t| - 1 - b];
    }
  }

  /** The cuts `Trim` makes remove everything exactly when everything is whitespace. */
  lemma TrimCutsEmpty(s: string, a: nat, t: string, b: nat)
    requires a == LeadingWhitespace(s) && t == s[a..] && b == TrailingWhitespace(t)
    ensures t[..|t| - b] == [] <==> AllWhitespace(s)
  {
    assert a < |s| ==> t[0] == s[a] && !IsWhitespace(s[a]);
  }

  /** The cuts `Trim` makes remove nothing from a trimmed string. */
  lemma TrimCutsNothing(s: string, a: nat, t: string, b: nat)
    requires a == LeadingWhitespace(s) && t == s[a..] && b == TrailingWhitespace(t)
    ensures Trimmed(s) ==> t[..|t| - b] == s
  {
    if s != [] && Trimmed(s) {
      assert a == 0;
      assert t == s;
      assert b == 0;
    }
  }

  /** Trimming only cuts whitespace off the two ends: the result is an infix of the input. */
  /** `r` occurs in `s` at `i`, with only whitespace before and after it. */
  predicate WhitespaceAround(s: string, i: int, r: string) {
    0 <= i <= |s| - |r| && s[i..i + |r|] == r && AllWhitespace(s[..i]) && AllWhitespace(s[i + |r|..])
  }

  lemma TrimInfix(s: string)
    ensures exists i :: WhitespaceAround(s, i, Trim(s))
  {
    var a := LeadingWhitespace(s);
    var t := s[a..];
    var b := TrailingWhitespace(t);
    assert Trim(s) == t[..|t| - b];
    TrimCutsWhitespace(s, a, t, b);
    InfixAt(s, a, t, |t| - b);
    assert WhitespaceAround(s, a, Trim(s));
  }

  lemma InfixAt(s: string, a: nat, t: string, n: nat)
    requires a <= |s| && t == s[a..] && n <= |t|
    ensures a + n <= |s| && s[a..a + n] == t[..n] && s[a + n..] == s[a..][n..]
  {
  }


  /** What `Trim` cuts off its input is whitespace. */
  lemma TrimCutsWhitespace(s: string, a: nat, t: string, b: nat)
    requires a == LeadingWhitespace(s) && t == s[a..] && b == TrailingWhitespace(t)
    ensures AllWhitespace(s[..a]) && AllWhitespace(t[|t| - b..])
  {
    LeadingIsWhitespace(s);
    TrailingIsWhitespace(t);
  }

  lemma LeadingIsWhitespace(s: string)
    ensures AllWhitespace(s[..LeadingWhitespace(s)])
  {
    var before := s[..LeadingWhitespace(s)];
    assert forall k :: 0 <= k < |before| ==> before[k] == s[k];
  }

  lemma TrailingIsWhitespace(t: string)
    ensures AllWhitespace(t[|t| - TrailingWhitespace(t)..])
  {
    var b := TrailingWhitespace(t);
    var after := t[|t| - b..];
    assert forall k :: 0 <= k < |after| ==> after[k] == t[|t| - b + k];
  }



  /** Trimming twice is trimming once. */
  lemma TrimIdempotent(s: string)
    ensures Trim(Trim(s)) == Trim(s)
  {
  }

  /** `Char.lowercaseChar()` on the ASCII letters. */
  function LowerChar(c: char): char {
    if 'A' <= c <= 'Z' then ((c as int) + 32) as char else c
  }

  /** `String.lowercase()`, character by character. */
  function Lowercase(s: string): (r: string)
    ensures |r| == |s|
    ensures forall i :: 0 <= i < |s| ==> r[i] == LowerChar(s[i])
  {
    if s == [] then [] else [LowerChar(s[0])] + Lowercase(s[1..])
  }

  /** `String.endsWith(suffix)`. */
  predicate EndsWith(s: string, suffix: string) {
    |suffix| <= |s| && s[|s| - |suffix|..] == suffix
  }
}
