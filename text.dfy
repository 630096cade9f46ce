/**
 * Character-level text helpers: ASCII decimal digits, decimal numerals and
 * whitespace stripping. They replace the regular expressions, `int(...)`,
 * `f"{n:02}"` and `str.strip()` that the bookkeeping code relies on.
 */
module Text {

  // ---------------------------------------------------------------- digits

  predicate IsDigit(c: char) {
    '0' <= c <= '9'
  }

  function DigitValue(c: char): (v: nat)
    requires IsDigit(c)
    ensures v < 10
  {
    c as int - '0' as int
  }

  function DigitChar(v: nat): (c: char)
    requires v < 10
    ensures IsDigit(c) && DigitValue(c) == v
  {
    ('0' as int + v) as char
  }

  predicate AllDigits(s: string) {
    forall i :: 0 <= i < |s| ==> IsDigit(s[i])
  }

  /** The number a string of decimal digits denotes (Python's `int(s)` on such a string). */
  function Value(s: string): nat
    requires AllDigits(s)
  {
    if s == [] then 0 else Value(s[..|s| - 1]) * 10 + DigitValue(s[|s| - 1])
  }

  /** Length of the longest run of digits at the start of `s`. */
  function DigitRun(s: string): (n: nat)
    ensures n <= |s| && AllDigits(s[..n])
    ensures n < |s| ==> !IsDigit(s[n])
  {
    if s == [] || !IsDigit(s[0]) then 0
    else
      var n := 1 + DigitRun(s[1..]);
      assert s[..n] == [s[0]] + s[1..][..n - 1];
      n
  }

  lemma {:induction false} DigitRunOfDigits(y: string, rest: string)
    requires AllDigits(y)
    requires rest == [] || !IsDigit(rest[0])
    ensures DigitRun(y + rest) == |y|
  {
    if y != [] {
      assert (y + rest)[1..] == y[1..] + rest;
      DigitRunOfDigits(y[1..], rest);
    }
  }

  lemma {:induction false} ValueOfPrefix(s: string, c: char)
    requires AllDigits(s) && IsDigit(c)
    ensures AllDigits(s + [c]) && Value(s + [c]) == Value(s) * 10 + DigitValue(c)
  {
    assert (s + [c])[..|s|] == s;
  }

  /** A numeral without a leading zero denotes a positive number. */
  lemma {:induction false} ValuePositive(s: string)
    requires AllDigits(s) && s != [] && s[0] != '0'
    ensures Value(s) > 0
  {
    if |s| > 1 {
      var p := s[..|s| - 1];
      assert p[0] == s[0];
      ValuePositive(p);
    }
  }

  // -------------------------------------------------------------- numerals

  /** Decimal numeral of `n`, as Python's `str(n)` / `f"{n}"`. */
  function NatToString(n: nat): (r: string)
    ensures r != [] && AllDigits(r) && Value(r) == n
    ensures r[0] == '0' ==> n == 0 && r == "0"
  {
    if n < 10 then [DigitChar(n)]
    else
      var p := NatToString(n / 10);
      ValueOfPrefix(p, DigitChar(n % 10));
      p + [DigitChar(n % 10)]
  }

  /** Python's `f"{i}"` for any integer: a minus sign before negative numbers. */
  function IntToString(i: int): string
  {
    if i < 0 then "-" + NatToString(-i) else NatToString(i)
  }

  lemma NatToStringWidth(n: nat)
    requires 10 <= n < 1000
    ensures 2 <= |NatToString(n)| <= 3
  {
    assert NatToString(n) == NatToString(n / 10) + [DigitChar(n % 10)];
    if n / 10 >= 10 {
      assert NatToString(n / 10) == NatToString(n / 100) + [DigitChar(n / 10 % 10)];
    }
  }

  /** Reading a numeral without a leading zero and printing it back gives the numeral. */
  lemma {:induction false} NatToStringOfValue(s: string)
    requires AllDigits(s) && s != [] && s[0] != '0'
    ensures NatToString(Value(s)) == s
  {
    var p, c := s[..|s| - 1], s[|s| - 1];
    assert s == p + [c];
    DigitCharOfValue(c);
    if p != [] {
      assert p[0] == s[0];
      ValuePositive(p);
      NatToStringOfValue(p);
      var v := Value(s);
      SplitLastDigit(Value(p), DigitValue(c));
      assert NatToString(v) == NatToString(v / 10) + [DigitChar(v % 10)];
    }
  }

  lemma DigitCharOfValue(c: char)
    requires IsDigit(c)
    ensures DigitChar(DigitValue(c)) == c
  {
  }

  lemma SplitLastDigit(q: nat, r: nat)
    requires r < 10
    ensures (q * 10 + r) / 10 == q && (q * 10 + r) % 10 == r
  {
  }

  /** `f"{n:02}"` for a number below 100: always two digits. */
  function Pad2(n: nat): (r: string)
    requires n < 100
    ensures |r| == 2 && AllDigits(r) && Value(r) == n
  {
    var hi, lo := DigitChar(n / 10), DigitChar(n % 10);
    ValueOfPrefix([], hi);
    ValueOfPrefix([hi], lo);
    [hi] + [lo]
  }

  lemma Pad2OfValue(s: string)
    requires AllDigits(s) && |s| == 2
    ensures Value(s) < 100 && Pad2(Value(s)) == s
  {
    ValueOfPrefix([], s[0]);
    ValueOfPrefix([s[0]], s[1]);
    assert s == [s[0]] + [s[1]];
  }

  // ------------------------------------------------------------ whitespace

  /**
   * The characters Python's `str.isspace()` accepts: ASCII blanks and control
   * separators, NEL, no-break space and the Unicode space separators
   * (including the ideographic space U+3000).
   */
  predicate IsSpace(c: char) {
    || c == ' ' || c == '\t' || c == '\n' || c == '\r'
    || c == '\U{B}' || c == '\U{C}'
    || ('\U{1C}' <= c <= '\U{1F}')
    || c == '\U{85}' || c == '\U{A0}' || c == '\U{1680}'
    || ('\U{2000}' <= c <= '\U{200A}')
    || c == '\U{2028}' || c == '\U{2029}' || c == '\U{202F}'
    || c == '\U{205F}' || c == '\U{3000}'
  }

  predicate AllSpace(s: string) {
    forall i :: 0 <= i < |s| ==> IsSpace(s[i])
  }

  /** No whitespace at either end. */
  predicate Trimmed(s: string) {
    s != [] ==> !IsSpace(s[0]) && !IsSpace(s[|s| - 1])
  }

  /** Number of whitespace characters at the start of `s`. */
  function LeadingSpaces(s: string): (n: nat)
    ensures n <= |s| && AllSpace(s[..n])
    ensures n < |s| ==> !IsSpace(s[n])
  {
    if s == [] || !IsSpace(s[0]) then 0
    else
      var n := 1 + LeadingSpaces(s[1..]);
      assert s[..n] == [s[0]] + s[1..][..n - 1];
      n
  }

  /** Where the whitespace at the end of `s` begins. */
  function TrailingStart(s: string): (n: nat)
    ensures n <= |s| && AllSpace(s[n..])
    ensures n > 0 ==> !IsSpace(s[n - 1])
    ensures forall k :: 0 <= k < |s| && !IsSpace(s[k]) ==> k < n
  {
    if s == [] || !IsSpace(s[|s| - 1]) then |s|
    else
      var n := TrailingStart(s[..|s| - 1]);
      assert s[n..] == s[..|s| - 1][n..] + [s[|s| - 1]];
      n
  }

  /**
   * `str.strip()`: the middle part of `s` that is left once the whitespace at
   * both ends is cut off.
   */
  function Strip(s: string): (r: string)
    ensures |r| <= |s| && Trimmed(r)
  {
    var i := LeadingSpaces(s);
    if i == |s| then []
    else
      var j := TrailingStart(s);
      s[i..j]
  }

  /** Only whitespace is cut off, at the start and at the end. */
  lemma StripCutsSpace(s: string)
    ensures exists i, j :: 0 <= i <= j <= |s| && Strip(s) == s[i..j] && AllSpace(s[..i]) && AllSpace(s[j..])
  {
    var i := LeadingSpaces(s);
    if i == |s| {
      assert Strip(s) == s[i..i] && AllSpace(s[i..]);
    } else {
      var j := TrailingStart(s);
      assert Strip(s) == s[i..j];
    }
  }

  /** `s.strip() != ''` holds exactly when `s` has a character that is not whitespace. */
  lemma StripNonEmpty(s: string)
    ensures Strip(s) != [] <==> exists k :: 0 <= k < |s| && !IsSpace(s[k])
  {
    var i := LeadingSpaces(s);
    if i < |s| {
      assert !IsSpace(s[i]);
    } else {
      forall k | 0 <= k < |s| ensures IsSpace(s[k]) {
        assert s[..i][k] == s[k];
      }
    }
  }
}
