/** Decimal text and the C conversions between it and numbers: the
    canonical spelling `std::to_string` produces for an unsigned value, and
    what `atoi` reads from the start of a string. */
module Decimal {
  import opened Records

  predicate IsDigit(c: char) {
    '0' <= c <= '9'
  }

  /** The white space C's `isspace` accepts in the default locale: blank,
      tab, line feed, vertical tab, form feed and carriage return. */
  predicate IsSpace(c: char) {
    c == ' ' || '\t' <= c <= '\r'
  }

  function DigitValue(c: char): nat
    requires IsDigit(c)
  {
    c as int - '0' as int
  }

  function DigitChar(d: nat): (c: char)
    requires d < 10
    ensures IsDigit(c) && DigitValue(c) == d
  {
    ('0' as int + d) as char
  }

  predicate AllDigits(s: string) {
    forall i :: 0 <= i < |s| ==> IsDigit(s[i])
  }

  /** The number an all-digit string spells, most significant digit first. */
  function DigitsValue(s: string): nat
    requires AllDigits(s)
  {
    if s == [] then 0 else DigitsValue(s[..|s| - 1]) * 10 + DigitValue(s[|s| - 1])
  }

  /** The spelling `std::to_string` gives an unsigned value: digits only,
      with no leading zero except for zero itself. */
  predicate Canonical(s: string) {
    s != [] && AllDigits(s) && (|s| > 1 ==> s[0] != '0')
  }

  function ToDecimal(n: nat): (s: string)
    ensures Canonical(s)
  {
    if n < 10 then [DigitChar(n)]
    else
      var p := ToDecimal(n / 10);
      assert |p| > 1 ==> p[0] != '0';
      p + [DigitChar(n % 10)]
  }

  /** Length of the leading run of white space. */
  function SpaceRun(s: string): (k: nat)
    ensures k <= |s|
    ensures k < |s| ==> !IsSpace(s[k])
  {
    if s == [] || !IsSpace(s[0]) then 0 else 1 + SpaceRun(s[1..])
  }

  /** Length of the leading run of digits. */
  function DigitRun(s: string): (k: nat)
    ensures k <= |s| && AllDigits(s[..k])
  {
    if s == [] || !IsDigit(s[0]) then 0
    else
      var k := DigitRun(s[1..]);
      assert s[..k + 1] == [s[0]] + s[1..][..k];
      1 + k
  }

  const LongMax: int := 0x7fff_ffff_ffff_ffff

  /** What `strtol(s, NULL, 10)` returns on a platform with a 64-bit
      `long`: white space is skipped, one sign is accepted, the digits that
      follow are read, and an out-of-range value is clamped. No digits
      read as zero. */
  function StrToLong(s: string): (v: int)
    ensures -(LongMax + 1) <= v <= LongMax
  {
    var t := s[SpaceRun(s)..];
    var signed := t != [] && (t[0] == '-' || t[0] == '+');
    var u := if signed then t[1..] else t;
    var magnitude: int := DigitsValue(u[..DigitRun(u)]);
    if signed && t[0] == '-' then
      (if magnitude > LongMax + 1 then -(LongMax + 1) else -magnitude)
    else
      (if magnitude > LongMax then LongMax else magnitude)
  }

  /** `atoi` stored into an unsigned 32-bit field: `atoi` truncates the
      `strtol` result to a 32-bit `int`, and the store reinterprets it as
      unsigned; together they reduce modulo 2^32. */
  function AtoiUnsigned(s: string): Uint32 {
    StrToLong(s) % 0x1_0000_0000
  }

  /** An all-digit string with a non-zero leading digit is worth at least
      one. */
  lemma {:induction false} DigitsValuePositive(s: string)
    requires AllDigits(s) && s != [] && s[0] != '0'
    ensures DigitsValue(s) >= 1
    decreases |s|
  {
    if |s| > 1 {
      DigitsValuePositive(s[..|s| - 1]);
    }
  }

  /** Reading back the spelling of `n` gives `n`. */
  lemma {:induction false} DigitsOfDecimal(n: nat)
    ensures DigitsValue(ToDecimal(n)) == n
    decreases n
  {
    if n >= 10 {
      DigitsOfDecimal(n / 10);
      var s := ToDecimal(n);
      assert s[..|s| - 1] == ToDecimal(n / 10);
    }
  }

  /** Spelling the value of a canonical string gives the string back. */
  lemma {:induction false} DecimalOfDigits(s: string)
    requires Canonical(s)
    ensures ToDecimal(DigitsValue(s)) == s
    decreases |s|
  {
    if |s| > 1 {
      var p := s[..|s| - 1];
      DigitsValuePositive(p);
      DecimalOfDigits(p);
      var v := DigitsValue(s);
      assert v / 10 == DigitsValue(p) && v % 10 == DigitValue(s[|s| - 1]);
      assert [DigitChar(v % 10)] == [s[|s| - 1]];
    }
  }

  /** `strtol` reads a canonical spelling back exactly when the value fits
      a `long`; a larger value is clamped to the largest `long`. */
  lemma StrToLongOfDecimal(n: nat)
    ensures StrToLong(ToDecimal(n)) == n <==> n <= LongMax
    ensures n > LongMax ==> StrToLong(ToDecimal(n)) == LongMax
  {
    var s := ToDecimal(n);
    assert SpaceRun(s) == 0;
    assert s[0..] == s;
    assert DigitRun(s) == |s| by {
      AllDigitsRun(s);
    }
    assert s[..|s|] == s;
    DigitsOfDecimal(n);
  }

  lemma {:induction false} AllDigitsRun(s: string)
    requires AllDigits(s)
    ensures DigitRun(s) == |s|
    decreases |s|
  {
    if s != [] {
      AllDigitsRun(s[1..]);
    }
  }

  /** A string survives the trip through `atoi` and `std::to_string`
      unchanged exactly when it is the canonical spelling of a value that
      fits in 32 unsigned bits. Signs, white space, leading zeros, trailing
      text and larger values all change it. */
  lemma AtoiRoundTrip(s: string)
    ensures ToDecimal(AtoiUnsigned(s)) == s <==> Canonical(s) && DigitsValue(s) < 0x1_0000_0000
  {
    if ToDecimal(AtoiUnsigned(s)) == s {
      AtoiRoundTripOnly(s);
    }
    if Canonical(s) && DigitsValue(s) < 0x1_0000_0000 {
      AtoiRoundTripIf(s);
    }
  }

  lemma AtoiRoundTripOnly(s: string)
    requires ToDecimal(AtoiUnsigned(s)) == s
    ensures Canonical(s) && DigitsValue(s) < 0x1_0000_0000
  {
    var n := AtoiUnsigned(s);
    DigitsOfDecimal(n);
  }

  lemma AtoiRoundTripIf(s: string)
    requires Canonical(s) && DigitsValue(s) < 0x1_0000_0000
    ensures ToDecimal(AtoiUnsigned(s)) == s
  {
    var n := DigitsValue(s);
    DecimalOfDigits(s);
    StrToLongOfDecimal(n);
    AtoiOfLong(s, n);
  }

  /** A `strtol` result that already fits in 32 unsigned bits is kept. */
  lemma AtoiOfLong(s: string, n: nat)
    requires n < 0x1_0000_0000 && StrToLong(s) == n
    ensures AtoiUnsigned(s) == n
  {
  }
}
