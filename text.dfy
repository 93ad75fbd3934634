/**
 * The small pieces of Python string behaviour the purchase-order generator
 * relies on: whitespace as `\s` and `str.strip()` see it, `str.isalnum()`,
 * `int()` on an already stripped string and `str()` on an integer. All of
 * them are modelled on ASCII.
 */
module Text {
  import opened Wrappers

  /** The ASCII characters for which Python's `str.isspace()` holds
      (tab, line feed, vertical tab, form feed, carriage return, the four
      information separators and space). */
  predicate IsSpace(c: char) {
    ('\t' <= c <= '\r') || ('\U{001C}' <= c <= ' ')
  }

  /** `s[i..j]` is all whitespace. */
  predicate SpacesIn(s: string, i: int, j: int)
    requires 0 <= i <= j <= |s|
  {
    forall k :: i <= k < j ==> IsSpace(s[k])
  }

  predicate AllSpace(s: string) {
    SpacesIn(s, 0, |s|)
  }

  predicate IsDigit(c: char) {
    '0' <= c <= '9'
  }

  predicate AllDigits(s: string) {
    forall i :: 0 <= i < |s| ==> IsDigit(s[i])
  }

  /** ASCII letters and digits, the ASCII part of `str.isalnum()`. */
  predicate IsAlnum(c: char) {
    IsDigit(c) || ('a' <= c <= 'z') || ('A' <= c <= 'Z')
  }

  /** The end of the longest run of whitespace starting at `i`. */
  function SkipSpaces(s: string, i: nat): (n: nat)
    requires i <= |s|
    ensures i <= n <= |s| && SpacesIn(s, i, n)
    ensures n < |s| ==> !IsSpace(s[n])
    decreases |s| - i
  {
    if i == |s| || !IsSpace(s[i]) then i else SkipSpaces(s, i + 1)
  }

  /** The start of the longest run of whitespace ending at `j`. */
  function SkipSpacesBack(s: string, j: nat): (n: nat)
    requires j <= |s|
    ensures n <= j && SpacesIn(s, n, j)
    ensures n > 0 ==> !IsSpace(s[n - 1])
  {
    if j == 0 || !IsSpace(s[j - 1]) then j else SkipSpacesBack(s, j - 1)
  }

  /** A maximal whitespace run starting at `i` ends where `SkipSpaces` says. */
  lemma {:induction false} SkipSpacesExact(s: string, i: nat, n: nat)
    requires i <= n <= |s| && SpacesIn(s, i, n) && (n < |s| ==> !IsSpace(s[n]))
    ensures SkipSpaces(s, i) == n
    decreases n - i
  {
    if i < n { SkipSpacesExact(s, i + 1, n); }
  }

  /** A maximal whitespace run ending at `j` starts where `SkipSpacesBack`
      says. */
  lemma {:induction false} SkipSpacesBackExact(s: string, j: nat, n: nat)
    requires n <= j <= |s| && SpacesIn(s, n, j) && (n > 0 ==> !IsSpace(s[n - 1]))
    ensures SkipSpacesBack(s, j) == n
    decreases j - n
  {
    if n < j { SkipSpacesBackExact(s, j - 1, n); }
  }

  /** Whitespace appended to a string is a whitespace run at its end. */
  lemma SpacesAppended(x: string, y: string)
    requires AllSpace(y)
    ensures SpacesIn(x + y, |x|, |x + y|)
  {
    forall k | |x| <= k < |x + y| ensures IsSpace((x + y)[k]) {
      assert (x + y)[k] == y[k - |x|];
    }
  }

  /** Appending to a string keeps the whitespace runs it had. */
  lemma SpacesKept(x: string, y: string, i: int, j: int)
    requires 0 <= i <= j <= |x| && SpacesIn(x, i, j)
    ensures SpacesIn(x + y, i, j)
  {
    forall k | i <= k < j ensures IsSpace((x + y)[k]) {
      assert (x + y)[k] == x[k];
    }
  }

  /** Neither end of `r` is whitespace. */
  predicate Trimmed(r: string) {
    r == [] || (!IsSpace(r[0]) && !IsSpace(r[|r| - 1]))
  }

  /** `s` is `r` with whitespace only around it, `r` starting at offset `a`. */
  ghost predicate Padded(s: string, a: int, r: string) {
    && 0 <= a && a + |r| <= |s|
    && s[a..a + |r|] == r
    && SpacesIn(s, 0, a) && SpacesIn(s, a + |r|, |s|)
    && Trimmed(r)
  }

  /** Python's `str.strip()` with no argument. */
  function Strip(s: string): string {
    var a := SkipSpaces(s, 0);
    if a == |s| then [] else s[a..SkipSpacesBack(s, |s|)]
  }

  /** The stripped string is `s` without its leading and trailing
      whitespace: it sits in `s` after the leading run, and is trimmed. */
  lemma StripPadded(s: string)
    ensures Padded(s, SkipSpaces(s, 0), Strip(s))
  {
  }

  /** Stripping is determined by the padding: whatever the offset, a trimmed
      `r` padded with whitespace strips back to `r`. */
  lemma StripUnique(s: string, a: int, r: string)
    requires Padded(s, a, r)
    ensures Strip(s) == r
  {
    if r == [] {
      SkipSpacesExact(s, 0, |s|);
    } else {
      assert s[a] == r[0];
      SkipSpacesExact(s, 0, a);
      var e := a + |r|;
      assert s[e - 1] == r[|r| - 1];
      SkipSpacesBackExact(s, |s|, e);
    }
  }

  /** Whitespace appended to a string does not change what strip returns. */
  lemma StripIgnoresTrailingSpace(x: string, y: string)
    requires AllSpace(y)
    ensures Strip(x + y) == Strip(x)
  {
    StripPadded(x);
    var r := Strip(x);
    var a := SkipSpaces(x, 0);
    var s := x + y;
    assert s[a..a + |r|] == x[a..a + |r|];
    assert forall k :: a + |r| <= k < |s| ==> IsSpace(s[k]) by {
      forall k | a + |r| <= k < |s| ensures IsSpace(s[k]) {
        if k >= |x| { assert s[k] == y[k - |x|]; }
      }
    }
    StripUnique(s, a, r);
  }

  // ---------------------------------------------------------------------
  // int() and str() on decimal integers

  function DigitValue(c: char): nat
    requires IsDigit(c)
  {
    (c as int) - ('0' as int)
  }

  function DigitChar(d: nat): (c: char)
    requires d < 10
    ensures IsDigit(c) && DigitValue(c) == d
  {
    ('0' as int + d) as char
  }

  /** The value of a run of decimal digits, most significant first. */
  function DigitsValue(s: string): nat
    requires AllDigits(s)
  {
    if s == [] then 0 else 10 * DigitsValue(s[..|s| - 1]) + DigitValue(s[|s| - 1])
  }

  /** Python's `int()` on a string that has already been stripped: an
      optional `+` or `-` followed by one or more decimal digits (leading
      zeros allowed); anything else is the `ValueError` case. */
  function ParseInt(s: string): Option<int>
  {
    if |s| > 0 && (s[0] == '-' || s[0] == '+') then
      var digits := s[1..];
      if |digits| > 0 && AllDigits(digits) then
        var v: int := DigitsValue(digits);
        Some(if s[0] == '-' then -v else v)
      else None
    else if |s| > 0 && AllDigits(s) then Some(DigitsValue(s))
    else None
  }

  /** Decimal digits of `n` without leading zeros. */
  function NatToString(n: nat): string {
    if n < 10 then [DigitChar(n)] else NatToString(n / 10) + [DigitChar(n % 10)]
  }

  /** The digits of `n` read back as `n`, with no leading zero. */
  lemma {:induction false} NatToStringDigits(n: nat)
    ensures var r := NatToString(n); |r| > 0 && AllDigits(r) && DigitsValue(r) == n
    ensures var r := NatToString(n); r[0] == '0' ==> r == "0"
  {
    if n >= 10 {
      NatToStringDigits(n / 10);
      var prefix := NatToString(n / 10);
      var r := NatToString(n);
      assert r[..|r| - 1] == prefix;
    }
  }

  /** Python's `str()` on an integer: a `-` before the digits of a negative
      value. */
  function IntToString(n: int): string {
    if n < 0 then "-" + NatToString(-n) else NatToString(n)
  }

  /** Reading the text of `str(n)` back with `int()` gives `n` again, and
      the text has no whitespace at either end. */
  lemma IntToStringRoundTrip(n: int)
    ensures ParseInt(IntToString(n)) == Some(n)
    ensures var r := IntToString(n); |r| > 0 && !IsSpace(r[0]) && !IsSpace(r[|r| - 1])
  {
    if n < 0 {
      NatToStringDigits(-n);
      var r := IntToString(n);
      assert r[1..] == NatToString(-n);
    } else {
      NatToStringDigits(n);
    }
  }

  /** Text that parses as an integer is not empty and has no whitespace at
      either end, so `strip()` leaves it alone. */
  lemma ParsedIsTrimmed(s: string)
    requires ParseInt(s).Some?
    ensures |s| > 0 && Strip(s) == s
  {
    assert IsDigit(s[|s| - 1]);
    assert s[0..|s|] == s;
    StripUnique(s, 0, s);
  }
}
