/**
 * Signed decimal integers as `Integer.parseInt` and `Long.parseLong` read them:
 * an optional `+` or `-` followed by one or more digits, then a range check
 * against the 32- or 64-bit two's-complement bounds.
 */
module Decimal {
  import opened Wrappers

  const MinInt32: int := -0x8000_0000
  const MaxInt32: int := 0x7FFF_FFFF
  const MinInt64: int := -0x8000_0000_0000_0000
  const MaxInt64: int := 0x7FFF_FFFF_FFFF_FFFF

  predicate InInt32(n: int) { MinInt32 <= n <= MaxInt32 }
  predicate InInt64(n: int) { MinInt64 <= n <= MaxInt64 }

  predicate IsDigit(c: char) { '0' <= c <= '9' }

  function DigitValue(c: char): (d: nat)
    requires IsDigit(c)
    ensures d < 10
  {
    c as int - '0' as int
  }

  function DigitChar(d: nat): (c: char)
    requires d < 10
    ensures IsDigit(c) && DigitValue(c) == d
  {
    ('0' as int + d) as char
  }

  predicate AllDigits(s: string) {
    forall i :: 0 <= i < |s| ==> IsDigit(s[i])
  }

  predicate IsSign(c: char) { c == '-' || c == '+' }

  /** The accepted syntax: one or more digits, optionally preceded by a single sign. */
  predicate IsDecimal(s: string) {
    || (|s| > 0 && AllDigits(s))
    || (|s| > 1 && IsSign(s[0]) && AllDigits(s[1..]))
  }

  /** Value of a digit string, accumulated left to right (the most significant digit first). */
  function DigitsValue(s: string): nat
    requires AllDigits(s)
    decreases |s|
  {
    if |s| == 0 then 0 else DigitsValue(s[..|s| - 1]) * 10 + DigitValue(s[|s| - 1])
  }

  /** Parses an optionally signed decimal; `None` is the NumberFormatException of the source. */
  function ParseDecimal(s: string): (r: Option<int>)
    ensures r.Some? <==> IsDecimal(s)
    ensures r.Some? && s[0] == '-' ==> r.value <= 0
    ensures r.Some? && s[0] != '-' ==> r.value >= 0
  {
    if |s| == 0 then None
    else if IsSign(s[0]) then
      if |s| > 1 && AllDigits(s[1..]) then
        var magnitude: int := DigitsValue(s[1..]);
        Some(if s[0] == '-' then -magnitude else magnitude)
      else None
    else if AllDigits(s) then Some(DigitsValue(s))
    else None
  }

  /** `Integer.parseInt`: a decimal whose value lies in the 32-bit range. */
  function ParseInt32(s: string): (r: Option<int>)
    ensures r.Some? <==> IsDecimal(s) && InInt32(ParseDecimal(s).value)
    ensures r.Some? ==> r == ParseDecimal(s)
  {
    match ParseDecimal(s)
    case Some(n) => if InInt32(n) then Some(n) else None
    case None => None
  }

  /** `Long.parseLong`: a decimal whose value lies in the 64-bit range. */
  function ParseInt64(s: string): (r: Option<int>)
    ensures r.Some? <==> IsDecimal(s) && InInt64(ParseDecimal(s).value)
    ensures r.Some? ==> r == ParseDecimal(s)
  {
    match ParseDecimal(s)
    case Some(n) => if InInt64(n) then Some(n) else None
    case None => None
  }

  // ---------------------------------------------------------------------
  // Printing: the reference the parser is checked against.
  // ---------------------------------------------------------------------

  /** Canonical decimal digits of a natural number (no leading zeros). */
  function ShowNat(n: nat): (s: string)
    ensures |s| > 0 && AllDigits(s)
    decreases n
  {
    if n < 10 then [DigitChar(n)] else ShowNat(n / 10) + [DigitChar(n % 10)]
  }

  /** Canonical decimal text of an integer, as `Integer.toString`/`Long.toString` print it. */
  function ShowInt(n: int): (s: string)
    ensures |s| > 0
  {
    if n < 0 then "-" + ShowNat(-n) else ShowNat(n)
  }

  /** Digit strings without superfluous leading zeros. */
  predicate CanonicalDigits(s: string) {
    |s| > 0 && AllDigits(s) && (s[0] == '0' ==> |s| == 1)
  }

  /** Text that `ShowInt` can produce: no `+`, no leading zeros, no negative zero. */
  predicate Canonical(s: string) {
    || CanonicalDigits(s)
    || (|s| > 1 && s[0] == '-' && CanonicalDigits(s[1..]) && s[1] != '0')
  }

  lemma {:induction false} DigitsValueOfShowNat(n: nat)
    ensures DigitsValue(ShowNat(n)) == n
    decreases n
  {
    if n >= 10 {
      var s := ShowNat(n);
      assert s[..|s| - 1] == ShowNat(n / 10);
      DigitsValueOfShowNat(n / 10);
    }
  }

  lemma ShowNatIsCanonical(n: nat)
    ensures CanonicalDigits(ShowNat(n))
    ensures n > 0 ==> ShowNat(n)[0] != '0'
    decreases n
  {
    if n >= 10 {
      ShowNatIsCanonical(n / 10);
    }
  }

  /** Parsing what was printed gives the number back. */
  lemma ParseShowRoundTrip(n: int)
    ensures ParseDecimal(ShowInt(n)) == Some(n)
    ensures Canonical(ShowInt(n))
  {
    if n < 0 {
      var s := ShowInt(n);
      assert s[1..] == ShowNat(-n);
      DigitsValueOfShowNat(-n);
      ShowNatIsCanonical(-n);
    } else {
      DigitsValueOfShowNat(n);
      ShowNatIsCanonical(n);
    }
  }

  lemma {:induction false} LeadingNonZeroIsPositive(s: string)
    requires |s| > 0 && AllDigits(s) && s[0] != '0'
    ensures DigitsValue(s) > 0
    decreases |s|
  {
    if |s| > 1 {
      LeadingNonZeroIsPositive(s[..|s| - 1]);
    }
  }

  lemma {:induction false} ShowNatOfDigitsValue(s: string)
    requires CanonicalDigits(s)
    ensures ShowNat(DigitsValue(s)) == s
    decreases |s|
  {
    if |s| > 1 {
      var p := s[..|s| - 1];
      LeadingNonZeroIsPositive(p);
      ShowNatOfDigitsValue(p);
      var v := DigitsValue(s);
      assert v / 10 == DigitsValue(p) && v % 10 == DigitValue(s[|s| - 1]);
      assert DigitChar(v % 10) == s[|s| - 1];
    }
  }

  /** Printing what was parsed gives the text back, whenever that text is canonical. */
  lemma ShowParseRoundTrip(s: string)
    requires Canonical(s)
    ensures ParseDecimal(s).Some? && ShowInt(ParseDecimal(s).value) == s
  {
    if CanonicalDigits(s) {
      ShowNatOfDigitsValue(s);
    } else {
      var m := s[1..];
      LeadingNonZeroIsPositive(m);
      ShowNatOfDigitsValue(m);
      assert s == "-" + m;
    }
  }

  /** A leading zero does not change the value of a digit string. */
  lemma {:induction false} LeadingZeroIgnored(t: string)
    requires AllDigits(t)
    ensures AllDigits("0" + t) && DigitsValue("0" + t) == DigitsValue(t)
    decreases |t|
  {
    assert AllDigits("0" + t);
    if |t| > 0 {
      var p := t[..|t| - 1];
      assert ("0" + t)[..|"0" + t| - 1] == "0" + p;
      LeadingZeroIgnored(p);
    }
  }

  /** A leading `+` is accepted and changes nothing. */
  lemma PlusSignIgnored(t: string)
    requires |t| > 0 && AllDigits(t)
    ensures ParseDecimal("+" + t) == ParseDecimal(t)
  {
    assert ("+" + t)[1..] == t;
  }

  /** The digits with superfluous leading zeros removed. */
  function StripZeros(d: string): (c: string)
    requires |d| > 0 && AllDigits(d)
    ensures CanonicalDigits(c) && DigitsValue(c) == DigitsValue(d)
    decreases |d|
  {
    if |d| > 1 && d[0] == '0' then
      LeadingZeroIgnored(d[1..]);
      assert d == "0" + d[1..];
      StripZeros(d[1..])
    else d
  }

  /**
   * The canonical text of an accepted decimal: `+` dropped, leading zeros
   * dropped, and a negative zero read as zero.
   */
  function Canonicalize(s: string): (c: string)
    requires IsDecimal(s)
    ensures Canonical(c)
  {
    if IsSign(s[0]) then
      var m := StripZeros(s[1..]);
      if s[0] == '-' && m != "0" then "-" + m else m
    else StripZeros(s)
  }

  /**
   * The value of every accepted decimal, including text with a `+`, leading
   * zeros or a negative zero: it is the number whose printed form is the
   * text's canonical form.
   */
  lemma ParseDecimalValue(s: string)
    requires IsDecimal(s)
    ensures ParseDecimal(s).Some? && ShowInt(ParseDecimal(s).value) == Canonicalize(s)
  {
    var c := Canonicalize(s);
    ShowParseRoundTrip(c);
    if IsSign(s[0]) {
      var m := StripZeros(s[1..]);
      if s[0] == '-' && m != "0" {
        assert c[1..] == m;
      }
    }
    assert ParseDecimal(c) == ParseDecimal(s);
  }

  /** Non-canonical text accepted by the parsers, with the values they give. */
  lemma NonCanonicalExamples()
    ensures ParseDecimal("+42") == Some(42)
    ensures ParseDecimal("007") == Some(7)
    ensures ParseDecimal("-0") == Some(0)
    ensures ParseDecimal("-00012") == Some(-12)
  {
    assert "+42"[1..] == "42" && "42"[..1] == "4";
    assert DigitsValue("42") == 42;
    assert "-0"[1..] == "0";
    assert "-00012"[1..] == "00012";
    assert "007"[..2] == "00" && "00"[..1] == "0";
    assert "00012"[..4] == "0001" && "0001"[..3] == "000" && "000"[..2] == "00" && "00"[..1] == "0";
  }

  /** `Integer.parseInt` accepts the printed form of exactly the 32-bit integers. */
  lemma ParseInt32OfShowInt(n: int)
    ensures ParseInt32(ShowInt(n)) == (if InInt32(n) then Some(n) else None)
  {
    ParseShowRoundTrip(n);
  }

  /** `Long.parseLong` accepts the printed form of exactly the 64-bit integers. */
  lemma ParseInt64OfShowInt(n: int)
    ensures ParseInt64(ShowInt(n)) == (if InInt64(n) then Some(n) else None)
  {
    ParseShowRoundTrip(n);
  }
}
