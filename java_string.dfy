/**
 * The few pieces of java.lang behaviour that the ledger's validation relies on:
 * nullable strings, String.trim, the regular expression "\d{n}" and a
 * restricted Double.parseDouble.
 */
module JavaString {

  /** A Java reference that may be null: None stands for null. */
  datatype Option<+T> = None | Some(value: T)

  /** Java's trim() removes every leading and trailing char <= U+0020. */
  predicate IsSpace(c: char) { c <= ' ' }

  predicate IsAsciiDigit(c: char) { '0' <= c <= '9' }

  /** Every char of s is an ASCII digit. */
  predicate AllDigits(s: string) {
    forall i :: 0 <= i < |s| ==> IsAsciiDigit(s[i])
  }

  /** What "value.trim().isEmpty()" tests, stated on the chars themselves. */
  predicate IsBlank(s: string) {
    forall i :: 0 <= i < |s| ==> IsSpace(s[i])
  }

  /** The index of the first char at or after i that is not a space char, or |s|. */
  function TrimStartIndex(s: string, i: nat): (a: nat)
    requires i <= |s|
    ensures i <= a <= |s|
    ensures forall k :: i <= k < a ==> IsSpace(s[k])
    ensures a < |s| ==> !IsSpace(s[a])
    decreases |s| - i
  {
    if i < |s| && IsSpace(s[i]) then TrimStartIndex(s, i + 1) else i
  }

  /** The end of s[lo..j] once its trailing space chars are dropped. */
  function TrimEndIndex(s: string, lo: nat, j: nat): (e: nat)
    requires lo <= j <= |s|
    ensures lo <= e <= j
    ensures forall k :: e <= k < j ==> IsSpace(s[k])
    ensures e > lo ==> !IsSpace(s[e - 1])
  {
    if j > lo && IsSpace(s[j - 1]) then TrimEndIndex(s, lo, j - 1) else j
  }

  /**
   * String.trim(): the slice of s left once the leading and trailing space
   * chars are removed. It starts at the first char that is not a space char;
   * everything before and after it is a space char, and it neither starts nor
   * ends with one, so it is the longest such slice.
   */
  function Trim(s: string): (r: string)
    ensures var a := TrimStartIndex(s, 0); a + |r| <= |s| && r == s[a..a + |r|]
    ensures forall i :: 0 <= i < TrimStartIndex(s, 0) ==> IsSpace(s[i])
    ensures forall i :: TrimStartIndex(s, 0) + |r| <= i < |s| ==> IsSpace(s[i])
    ensures r != [] ==> !IsSpace(r[0]) && !IsSpace(r[|r| - 1])
  {
    var a := TrimStartIndex(s, 0);
    s[a..TrimEndIndex(s, a, |s|)]
  }

  /** trim().isEmpty() holds exactly when every char is at most U+0020. */
  lemma TrimEmptyIffBlank(s: string)
    ensures Trim(s) == [] <==> IsBlank(s)
  {
  }

  /** A string with no space char is its own trim. */
  lemma TrimNoSpace(s: string)
    requires forall i :: 0 <= i < |s| ==> !IsSpace(s[i])
    ensures Trim(s) == s
  {
    if s != [] {
      assert !IsSpace(s[0]) && !IsSpace(s[|s| - 1]);
    }
  }

  /**
   * s.matches("\\d{n}"): a whole-string match of exactly n ASCII digits,
   * consuming one char per repetition of \d. It accepts exactly the strings of
   * n ASCII digits.
   */
  function MatchesDigits(s: string, n: nat): (matched: bool)
    ensures matched <==> |s| == n && AllDigits(s)
  {
    if n == 0 then s == []
    else if s == [] || !IsAsciiDigit(s[0]) then false
    else
      var rest := MatchesDigits(s[1..], n - 1);
      assert AllDigits(s) <==> AllDigits(s[1..]) by {
        assert forall i :: 0 < i < |s| ==> s[i] == s[1..][i - 1];
      }
      rest
  }

  function DigitValue(c: char): (d: nat)
    requires IsAsciiDigit(c)
    ensures d < 10
  {
    c as int - '0' as int
  }

  function DigitChar(d: nat): (c: char)
    requires d < 10
    ensures IsAsciiDigit(c) && DigitValue(c) == d
  {
    ('0' as int + d) as char
  }

  /** The base-10 value of a digit string, read left to right (the empty string reads as 0). */
  function DigitsValue(s: string): nat
    requires AllDigits(s)
  {
    if s == [] then 0 else DigitsValue(s[..|s| - 1]) * 10 + DigitValue(s[|s| - 1])
  }

  function Pow10(n: nat): (p: nat)
    ensures p >= 1
  {
    if n == 0 then 1 else 10 * Pow10(n - 1)
  }

  /** The index of the first '.' in s, or |s| when there is none. */
  function DotIndex(s: string): (i: nat)
    ensures i <= |s|
    ensures i < |s| ==> s[i] == '.'
    ensures forall j :: 0 <= j < i ==> s[j] != '.'
  {
    if s == [] || s[0] == '.' then 0 else 1 + DotIndex(s[1..])
  }

  /** The value of the decimal written whole + "." + frac. */
  function DecimalValue(whole: string, frac: string): (v: real)
    requires AllDigits(whole) && AllDigits(frac)
    ensures v >= 0.0
  {
    DigitsValue(whole) as real + DigitsValue(frac) as real / Pow10(|frac|) as real
  }

  /** An unsigned decimal: digits, optionally followed by '.' and more digits; at least one digit in all. */
  function ParseUnsigned(s: string): (r: Option<real>)
    ensures r.Some? ==> r.value >= 0.0
  {
    var i := DotIndex(s);
    if i == |s| then
      if s != [] && AllDigits(s) then Some(DigitsValue(s) as real) else None
    else
      var whole, frac := s[..i], s[i + 1..];
      if |whole| + |frac| > 0 && AllDigits(whole) && AllDigits(frac) then
        Some(DecimalValue(whole, frac))
      else None
  }

  /**
   * Double.parseDouble restricted to plain decimals: surrounding space chars are
   * trimmed, then an optional sign and an unsigned decimal. None stands for the
   * NumberFormatException.
   */
  function ParseDouble(s: string): (r: Option<real>)
    ensures r.Some? && Trim(s) != [] && Trim(s)[0] == '-' ==> r.value <= 0.0
    ensures r.Some? && Trim(s) != [] && Trim(s)[0] != '-' ==> r.value >= 0.0
    ensures r.Some? ==> Trim(s) != []
  {
    var t := Trim(s);
    if t == [] then None
    else if t[0] == '-' then
      match ParseUnsigned(t[1..])
      case Some(v) => Some(-v)
      case None => None
    else if t[0] == '+' then ParseUnsigned(t[1..])
    else ParseUnsigned(t)
  }

  /** Decimal digits of n, most significant first, without leading zeros. */
  function NatToDigits(n: nat): (s: string)
    ensures s != [] && AllDigits(s)
    ensures forall i :: 0 <= i < |s| ==> s[i] != '.' && !IsSpace(s[i])
  {
    if n < 10 then [DigitChar(n)] else NatToDigits(n / 10) + [DigitChar(n % 10)]
  }

  lemma {:induction false} DigitsRoundTrip(n: nat)
    ensures DigitsValue(NatToDigits(n)) == n
  {
    if n >= 10 {
      var s := NatToDigits(n);
      assert s[..|s| - 1] == NatToDigits(n / 10);
      DigitsRoundTrip(n / 10);
    }
  }

  /** The two digits of m < 100, tens first. */
  function TwoDigits(m: nat): (s: string)
    requires m < 100
    ensures |s| == 2 && AllDigits(s)
    ensures forall i :: 0 <= i < |s| ==> s[i] != '.' && !IsSpace(s[i])
  {
    [DigitChar(m / 10), DigitChar(m % 10)]
  }

  /** A monetary amount of c cents written with two decimals, "100.00" for 10000. */
  function FormatCents(c: nat): (s: string)
    ensures forall i :: 0 <= i < |s| ==> !IsSpace(s[i])
  {
    NatToDigits(c / 100) + "." + TwoDigits(c % 100)
  }

  /** The first '.' after a dot-free prefix is the one that follows it. */
  lemma {:induction false} DotIndexAfter(w: string, rest: string)
    requires forall j :: 0 <= j < |w| ==> w[j] != '.'
    ensures DotIndex(w + "." + rest) == |w|
  {
    if w != [] {
      assert (w + "." + rest)[1..] == w[1..] + "." + rest;
      DotIndexAfter(w[1..], rest);
    }
  }

  /** A digit string, a '.', and a digit string form one unsigned decimal. */
  lemma ParseUnsignedPoint(w: string, f: string)
    requires w != [] && AllDigits(w) && AllDigits(f)
    ensures ParseUnsigned(w + "." + f) == Some(DecimalValue(w, f))
  {
    var s := w + "." + f;
    DotIndexAfter(w, f);
    assert DotIndex(s) != |s|;
    assert s[..|w|] == w;
    assert s[|w| + 1..] == f;
    assert |w| + |f| > 0;
  }

  /** Text with no space char and no sign is parsed as an unsigned decimal. */
  lemma ParseDoubleUnsigned(s: string)
    requires s != [] && IsAsciiDigit(s[0])
    requires forall i :: 0 <= i < |s| ==> !IsSpace(s[i])
    ensures ParseDouble(s) == ParseUnsigned(s)
  {
    TrimNoSpace(s);
  }

  lemma TwoDigitsValue(m: nat)
    requires m < 100
    ensures DigitsValue(TwoDigits(m)) == m
  {
    var f := TwoDigits(m);
    assert f[..1] == [DigitChar(m / 10)];
    assert [DigitChar(m / 10)][..0] == [];
    assert DigitsValue(f[..1]) == m / 10;
    assert DigitsValue(f) == (m / 10) * 10 + m % 10;
  }

  lemma CentsValue(c: nat)
    ensures c as real / 100.0 == (c / 100) as real + (c % 100) as real / 100.0
  {
    var q, m := c / 100, c % 100;
    assert c == q * 100 + m;
  }

  /** A digit string, a '.', and a digit string, with no space and no sign, parse as that decimal. */
  lemma ParseDoublePoint(w: string, f: string)
    requires w != [] && AllDigits(w) && AllDigits(f)
    ensures ParseDouble(w + "." + f) == Some(DecimalValue(w, f))
  {
    var s := w + "." + f;
    assert s[0] == w[0];
    forall i | 0 <= i < |s| ensures !IsSpace(s[i]) {
      if i < |w| { assert s[i] == w[i]; }
      else if i > |w| { assert s[i] == f[i - |w| - 1]; }
    }
    ParseDoubleUnsigned(s);
    ParseUnsignedPoint(w, f);
  }

  /** The decimal whole part c / 100 and fraction c % 100 is worth c / 100. */
  lemma CentsDecimal(c: nat)
    ensures DecimalValue(NatToDigits(c / 100), TwoDigits(c % 100)) == c as real / 100.0
  {
    var q, m := c / 100, c % 100;
    DigitsRoundTrip(q);
    TwoDigitsValue(m);
    assert Pow10(2) == 100;
    assert DecimalValue(NatToDigits(q), TwoDigits(m)) == q as real + m as real / 100.0;
    CentsValue(c);
  }

  /** Two-decimal amounts parse exactly: no drift between the text and the value. */
  lemma FormatCentsRoundTrip(c: nat)
    ensures ParseDouble(FormatCents(c)) == Some(c as real / 100.0)
  {
    ParseDoublePoint(NatToDigits(c / 100), TwoDigits(c % 100));
    CentsDecimal(c);
  }
}
