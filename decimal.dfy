/** Decimal rendering of integers, as Python's `str(int)` (and hence an
    f-string `{n}`) produces it, together with the inverse reading used to
    state round trips. */
module Decimal {
  import opened Wrappers

  predicate IsDigit(c: char) { '0' <= c <= '9' }

  predicate AllDigits(s: string) { forall i :: 0 <= i < |s| ==> IsDigit(s[i]) }

  function DigitValue(c: char): (d: nat)
    requires IsDigit(c)
    ensures d < 10
  {
    c as int - '0' as int
  }

  function DigitChar(d: nat): (c: char)
    requires d < 10
    ensures IsDigit(c) && DigitValue(c) == d
  {
    ('0' as int + d) as char
  }

  /** A numeral in the form Python's `str` writes a non-negative `int`:
      non-empty, digits only, and no leading zero unless it is `"0"`. */
  predicate Canonical(s: string) {
    |s| > 0 && AllDigits(s) && (s[0] == '0' ==> |s| == 1)
  }

  /** The shortest decimal numeral of `n`. */
  function NatToDecimal(n: nat): (s: string)
    ensures Canonical(s)
    ensures s[0] == '0' <==> n == 0
    ensures n == 0 ==> s == "0"
    decreases n
  {
    if n < 10 then [DigitChar(n)] else NatToDecimal(n / 10) + [DigitChar(n % 10)]
  }

  /** The value of a string of decimal digits (the empty string reads as 0). */
  function DecimalValue(s: string): nat
    requires AllDigits(s)
    decreases |s|
  {
    if s == [] then 0 else DecimalValue(s[..|s| - 1]) * 10 + DigitValue(s[|s| - 1])
  }

  lemma {:induction false} DecimalRoundTrip(n: nat)
    ensures DecimalValue(NatToDecimal(n)) == n
  {
    if n >= 10 {
      var s := NatToDecimal(n);
      assert s[..|s| - 1] == NatToDecimal(n / 10);
      DecimalRoundTrip(n / 10);
    }
  }

  /** A canonical numeral is the rendering of its own value: each value has
      exactly one canonical numeral. */
  lemma {:induction false} CanonicalIsRendering(s: string)
    requires Canonical(s)
    ensures NatToDecimal(DecimalValue(s)) == s
    decreases |s|
  {
    if |s| == 1 {
      assert s == [DigitChar(DigitValue(s[0]))];
    } else {
      var init := s[..|s| - 1];
      assert Canonical(init);
      CanonicalIsRendering(init);
      var v := DecimalValue(s);
      assert DecimalValue(init) != 0;
      assert v / 10 == DecimalValue(init) && v % 10 == DigitValue(s[|s| - 1]);
      assert DigitChar(v % 10) == s[|s| - 1];
      assert s == init + [s[|s| - 1]];
    }
  }

  /** Python's `str(n)` for an `int`: a minus sign before the magnitude when
      negative, and the canonical numeral of the magnitude. */
  function IntToDecimal(n: int): (s: string)
    ensures |s| > 0
    ensures s[0] == '-' <==> n < 0
    ensures forall i :: 0 <= i < |s| ==> IsDigit(s[i]) || s[i] == '-'
    ensures var mag := if n < 0 then s[1..] else s;
            Canonical(mag) && DecimalValue(mag) == (if n < 0 then -n else n)
  {
    DecimalRoundTrip(if n < 0 then -n else n);
    var s := if n < 0 then "-" + NatToDecimal(-n) else NatToDecimal(n);
    assert n < 0 ==> s[1..] == NatToDecimal(-n);
    s
  }

  /** Reads a numeral in exactly the form `IntToDecimal` writes: an optional
      minus sign before a canonical numeral other than `"0"`, or a canonical
      numeral. Anything else, a leading zero or `"-0"` included, is rejected. */
  function ParseInt(s: string): (r: Option<int>)
    ensures r.Some? ==> s == IntToDecimal(r.value)
  {
    if |s| > 1 && s[0] == '-' && Canonical(s[1..]) && s[1..] != "0" then
      CanonicalIsRendering(s[1..]);
      var n := -(DecimalValue(s[1..]) as int);
      assert NatToDecimal(-n) == s[1..];
      assert s == "-" + s[1..];
      Some(n)
    else if Canonical(s) then
      CanonicalIsRendering(s);
      Some(DecimalValue(s))
    else None
  }

  lemma IntRoundTrip(n: int)
    ensures ParseInt(IntToDecimal(n)) == Some(n)
  {
  }

  /** Distinct integers render as distinct numerals. */
  lemma IntToDecimalInjective(a: int, b: int)
    ensures IntToDecimal(a) == IntToDecimal(b) ==> a == b
  {
  }
}
