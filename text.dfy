/**
 * String helpers with the semantics of the Java and JavaScript library calls
 * the instrumentation layer uses: ASCII lower-casing, substring search,
 * prefix tests, left-to-right replacement, trimming, and the decimal
 * parsing and printing of Java `long` values.
 */
module Text {
  import opened Wrappers

  /** ASCII lower-casing of one character; every other character is kept. */
  function LowerChar(c: char): char {
    if 'A' <= c <= 'Z' then (c as int + 32) as char else c
  }

  /** `s.toLowerCase()`, restricted to ASCII letters. */
  function Lower(s: string): string {
    seq(|s|, i requires 0 <= i < |s| => LowerChar(s[i]))
  }

  /** Lower-casing works character by character, so it commutes with slicing. */
  lemma LowerSlice(s: string, i: int, j: int)
    requires 0 <= i <= j <= |s|
    ensures Lower(s)[i..j] == Lower(s[i..j])
  {
  }

  /** `sub` occurs in `s` starting at index `i`. */
  predicate OccursAt(s: string, sub: string, i: int) {
    0 <= i <= |s| - |sub| && s[i..i + |sub|] == sub
  }

  /** `s.contains(sub)`. */
  predicate Contains(s: string, sub: string) {
    exists i | 0 <= i <= |s| - |sub| :: OccursAt(s, sub, i)
  }

  /** `s.startsWith(prefix)`. */
  predicate StartsWith(s: string, prefix: string) {
    |prefix| <= |s| && s[..|prefix|] == prefix
  }

  /** Texts that differ in their first character do not start one with the other. */
  lemma FirstCharDiffers(s: string, prefix: string)
    requires s != [] && prefix != [] && s[0] != prefix[0]
    ensures !StartsWith(s, prefix)
  {
    if |prefix| <= |s| {
      assert s[..|prefix|][0] == s[0];
    }
  }

  lemma StartsWithConcat(prefix: string, rest: string)
    ensures StartsWith(prefix + rest, prefix)
  {
    assert (prefix + rest)[..|prefix|] == prefix;
  }

  /**
   * `s.replace(pat, repl)`: every occurrence of `pat`, found left to right
   * without overlap, is replaced by `repl`.
   */
  function ReplaceAll(s: string, pat: string, repl: string): (r: string)
    requires pat != []
    decreases |s|
  {
    if |s| < |pat| then s
    else if s[..|pat|] == pat then repl + ReplaceAll(s[|pat|..], pat, repl)
    else [s[0]] + ReplaceAll(s[1..], pat, repl)
  }

  /** Replacing a pattern that does not occur leaves the text unchanged. */
  lemma {:induction false} ReplaceAbsent(s: string, pat: string, repl: string)
    requires pat != [] && !Contains(s, pat)
    ensures ReplaceAll(s, pat, repl) == s
    decreases |s|
  {
    if |s| >= |pat| {
      assert !OccursAt(s, pat, 0);
      forall i | 0 <= i <= |s[1..]| - |pat| ensures !OccursAt(s[1..], pat, i) {
        assert s[1..][i..i + |pat|] == s[i + 1..i + 1 + |pat|];
        assert !OccursAt(s, pat, i + 1);
      }
      ReplaceAbsent(s[1..], pat, repl);
    }
  }

  /**
   * A text ending in the pattern, with no earlier occurrence of it (not even
   * one straddling the join), has just that last occurrence replaced.
   */
  lemma {:induction false} ReplaceAtEnd(a: string, pat: string, repl: string)
    requires pat != [] && forall i | 0 <= i < |a| :: !OccursAt(a + pat, pat, i)
    ensures ReplaceAll(a + pat, pat, repl) == a + repl
    decreases |a|
  {
    var s := a + pat;
    if a == [] {
      assert s == pat;
      assert s[..|pat|] == pat;
      assert s[|pat|..] == [];
    } else {
      assert !OccursAt(s, pat, 0);
      assert s[0..|pat|] != pat;
      var t := a[1..] + pat;
      assert s[1..] == t;
      forall i | 0 <= i < |a[1..]| ensures !OccursAt(t, pat, i) {
        assert t[i..i + |pat|] == s[i + 1..i + 1 + |pat|];
        assert !OccursAt(s, pat, i + 1);
      }
      ReplaceAtEnd(a[1..], pat, repl);
      calc {
        ReplaceAll(s, pat, repl);
        [s[0]] + ReplaceAll(t, pat, repl);
        [a[0]] + (a[1..] + repl);
        { assert [a[0]] + a[1..] == a; }
        a + repl;
      }
    }
  }

  /** A prefix in which the pattern's first character never appears is passed over untouched. */
  lemma {:induction false} ReplaceSkipsPrefix(a: string, b: string, pat: string, repl: string)
    requires pat != [] && forall i | 0 <= i < |a| :: a[i] != pat[0]
    ensures ReplaceAll(a + b, pat, repl) == a + ReplaceAll(b, pat, repl)
    decreases |a|
  {
    if a != [] {
      var s := a + b;
      assert s[0] == a[0];
      assert s[1..] == a[1..] + b;
      ReplaceSkipsPrefix(a[1..], b, pat, repl);
      if |s| < |pat| {
        assert ReplaceAll(s, pat, repl) == s;
        assert ReplaceAll(b, pat, repl) == b;
      } else {
        assert s[..|pat|] != pat by {
          assert s[..|pat|][0] == a[0];
        }
        calc {
          ReplaceAll(s, pat, repl);
          [s[0]] + ReplaceAll(s[1..], pat, repl);
          [a[0]] + (a[1..] + ReplaceAll(b, pat, repl));
          { assert [a[0]] + a[1..] == a; }
          a + ReplaceAll(b, pat, repl);
        }
      }
    } else {
      assert a + b == b;
    }
  }

  /** Removing a pattern never makes a text longer. */
  lemma {:induction false} RemoveShortens(s: string, pat: string)
    requires pat != []
    ensures |ReplaceAll(s, pat, "")| <= |s|
    decreases |s|
  {
    if |s| >= |pat| {
      if s[..|pat|] == pat {
        RemoveShortens(s[|pat|..], pat);
      } else {
        RemoveShortens(s[1..], pat);
      }
    }
  }

  /** The text left after dropping the leading and trailing characters that satisfy `blank`. */
  function Strip(s: string, blank: char -> bool): (r: string)
    decreases |s|
  {
    if s == [] then s
    else if blank(s[0]) then Strip(s[1..], blank)
    else if blank(s[|s| - 1]) then Strip(s[..|s| - 1], blank)
    else s
  }

  /** Stripping leaves nothing exactly when every character is blank. */
  lemma {:induction false} StripEmpty(s: string, blank: char -> bool)
    ensures Strip(s, blank) == [] <==> forall i | 0 <= i < |s| :: blank(s[i])
    decreases |s|
  {
    if s != [] {
      if blank(s[0]) {
        StripEmpty(s[1..], blank);
        if forall i | 0 <= i < |s[1..]| :: blank(s[1..][i]) {
          forall i | 0 <= i < |s| ensures blank(s[i]) {
            if i > 0 { assert s[i] == s[1..][i - 1]; }
          }
        }
      } else if blank(s[|s| - 1]) {
        StripEmpty(s[..|s| - 1], blank);
      }
    }
  }

  /** Java's `String.trim()` removes the characters up to and including U+0020. */
  predicate IsJavaBlank(c: char) {
    c <= ' '
  }

  /** `s.trim()` in Java. */
  function JavaTrim(s: string): string {
    Strip(s, IsJavaBlank)
  }

  /** The white space and line terminators JavaScript's `String.prototype.trim` removes. */
  predicate IsJsWhitespace(c: char) {
    c == '\t' || c == '\n' || c == '\U{000B}' || c == '\U{000C}' || c == '\r' || c == ' '
    || c == '\U{00A0}' || c == '\U{1680}' || ('\U{2000}' <= c <= '\U{200A}')
    || c == '\U{2028}' || c == '\U{2029}' || c == '\U{202F}' || c == '\U{205F}'
    || c == '\U{3000}' || c == '\U{FEFF}'
  }

  /** `s.trim()` in JavaScript. */
  function JsTrim(s: string): string {
    Strip(s, IsJsWhitespace)
  }

  /** True when `s.trim()` is the empty (falsy) string. */
  predicate IsBlank(s: string) {
    forall i | 0 <= i < |s| :: IsJsWhitespace(s[i])
  }

  /** `s.trim()` is empty exactly when every character of `s` is white space. */
  lemma JsTrimEmpty(s: string)
    ensures JsTrim(s) == [] <==> IsBlank(s)
  {
    StripEmpty(s, IsJsWhitespace);
  }

  // ---- Java `long` values in decimal ----

  const LONG_MIN: int := -0x8000_0000_0000_0000
  const LONG_MAX: int := 0x7FFF_FFFF_FFFF_FFFF

  predicate IsLong(n: int) {
    LONG_MIN <= n <= LONG_MAX
  }

  predicate IsDigit(c: char) {
    '0' <= c <= '9'
  }

  predicate AllDigits(s: string) {
    forall i | 0 <= i < |s| :: IsDigit(s[i])
  }

  function DigitChar(d: nat): char
    requires d < 10
  {
    ('0' as int + d) as char
  }

  /** The decimal digits of `n`, most significant first, without leading zeros. */
  function NatToString(n: nat): (r: string)
    ensures r != [] && AllDigits(r)
    decreases n
  {
    if n < 10 then [DigitChar(n)] else NatToString(n / 10) + [DigitChar(n % 10)]
  }

  /** `Long.toString(n)` (also how a `long` is rendered in a log line). */
  function IntToString(n: int): string {
    if n < 0 then "-" + NatToString(-n) else NatToString(n)
  }

  /** The number a string of decimal digits denotes. */
  function DigitsValue(s: string): nat
    requires AllDigits(s)
  {
    if s == [] then 0 else DigitsValue(s[..|s| - 1]) * 10 + (s[|s| - 1] as int - '0' as int)
  }

  /**
   * `Long.parseLong(s)`: an optional sign followed by at least one decimal
   * digit, denoting a value in the range of `long`; `None` stands for the
   * `NumberFormatException` it throws otherwise. Digits are ASCII only; Java
   * also accepts the other Unicode decimal digits.
   */
  function ParseLong(s: string): (r: Option<int>)
    ensures r.Some? ==> IsLong(r.value)
    ensures r.Some? ==> s != [] && (IsDigit(s[0]) || s[0] == '-' || s[0] == '+')
  {
    if s == [] then None
    else
      var signed := s[0] == '-' || s[0] == '+';
      var digits := if signed then s[1..] else s;
      if digits == [] || !AllDigits(digits) then None
      else
        var magnitude: int := DigitsValue(digits);
        var v := if s[0] == '-' then -magnitude else magnitude;
        if IsLong(v) then Some(v) else None
  }

  lemma {:induction false} NatToStringValue(n: nat)
    ensures DigitsValue(NatToString(n)) == n
    decreases n
  {
    if n >= 10 {
      var s := NatToString(n);
      assert s[..|s| - 1] == NatToString(n / 10);
      NatToStringValue(n / 10);
    }
  }

  /** Printing a `long` and parsing it back gives the same number. */
  lemma ParseLongRoundTrip(n: int)
    requires IsLong(n)
    ensures ParseLong(IntToString(n)) == Some(n)
  {
    var s := IntToString(n);
    if n < 0 {
      assert s[0] == '-' && s[1..] == NatToString(-n);
      NatToStringValue(-n);
      assert DigitsValue(s[1..]) == -n;
    } else {
      assert s == NatToString(n) && IsDigit(s[0]);
      assert s[0] != '-' && s[0] != '+';
      NatToStringValue(n);
      assert DigitsValue(s) == n;
    }
  }
}
