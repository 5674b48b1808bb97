/** Unsigned integers as the Rust code sees them: `u32` and `u64` as bounded
    naturals, `str::parse::<u32>()` / `str::parse::<u64>()` as a decimal
    parser that accepts one optional leading `+` and refuses values that do
    not fit, and decimal rendering as its inverse. */
module Numbers {
  import opened Outcomes
  import opened Strings

  const U32_LIMIT: nat := 0x1_0000_0000
  const U64_LIMIT: nat := 0x1_0000_0000_0000_0000

  type U32 = n: nat | n < 0x1_0000_0000
  type U64 = n: nat | n < 0x1_0000_0000_0000_0000

  predicate IsDigit(c: char) {
    '0' <= c <= '9'
  }

  predicate AllDigits(d: string) {
    forall i :: 0 <= i < |d| ==> IsDigit(d[i])
  }

  function DigitValue(c: char): nat
    requires IsDigit(c)
  {
    c as int - '0' as int
  }

  function DigitChar(n: nat): (c: char)
    requires n < 10
    ensures IsDigit(c) && DigitValue(c) == n
  {
    ('0' as int + n) as char
  }

  /** The number a digit string denotes, most significant digit first. */
  function DigitsValue(d: string): nat
    requires AllDigits(d)
  {
    if |d| == 0 then 0 else DigitsValue(d[..|d| - 1]) * 10 + DigitValue(d[|d| - 1])
  }

  /** The text without its one optional leading `+`. */
  function Unsigned(s: string): string {
    if |s| > 0 && s[0] == '+' then s[1..] else s
  }

  /** An optional `+` followed by at least one decimal digit. */
  predicate Numeral(s: string) {
    |Unsigned(s)| > 0 && AllDigits(Unsigned(s))
  }

  function NumeralValue(s: string): nat
    requires Numeral(s)
  {
    DigitsValue(Unsigned(s))
  }

  /** `str::parse` for an unsigned type whose values are below `limit`. */
  function ParseUnsigned(s: string, limit: nat): (r: Option<nat>)
    ensures r.Some? ==> r.value < limit
    ensures r.Some? ==> |s| > 0 && (s[0] == '+' || IsDigit(s[0]))
    ensures r.Some? ==> forall i :: 0 < i < |s| ==> IsDigit(s[i])
    ensures s == "+" ==> r.None?
  {
    var digits := Unsigned(s);
    if |digits| == 0 || !AllDigits(digits) then None
    else if DigitsValue(digits) < limit then Some(DigitsValue(digits))
    else None
  }

  /** `str::parse::<u32>()`: the value of a numeral that fits 32 bits, and
      an error for anything else. */
  function ParseU32(s: string): (r: Option<U32>)
    ensures r.Some? <==> Numeral(s) && NumeralValue(s) < U32_LIMIT
    ensures r.Some? ==> r.value == NumeralValue(s)
  {
    match ParseUnsigned(s, U32_LIMIT)
    case Some(v) => Some(v)
    case None => None
  }

  /** `str::parse::<u64>()`: the value of a numeral that fits 64 bits, and
      an error for anything else. */
  function ParseU64(s: string): (r: Option<U64>)
    ensures r.Some? <==> Numeral(s) && NumeralValue(s) < U64_LIMIT
    ensures r.Some? ==> r.value == NumeralValue(s)
  {
    match ParseUnsigned(s, U64_LIMIT)
    case Some(v) => Some(v)
    case None => None
  }

  /** `s.parse::<u64>().unwrap_or(0)`: the numeral's value when it fits, 0
      otherwise. */
  function U64OrZero(s: string): (r: U64)
    ensures Numeral(s) && NumeralValue(s) < U64_LIMIT ==> r == NumeralValue(s)
    ensures !(Numeral(s) && NumeralValue(s) < U64_LIMIT) ==> r == 0
  {
    ParseU64(s).GetOr(0)
  }

  /** Shortest decimal rendering of `n` (what `to_string` prints). */
  function Decimal(n: nat): (r: string)
    ensures |r| > 0 && AllDigits(r)
    ensures |r| > 1 ==> r[0] != '0'
  {
    if n < 10 then [DigitChar(n)] else Decimal(n / 10) + [DigitChar(n % 10)]
  }

  // ---------------------------------------------------------------------
  // Properties
  // ---------------------------------------------------------------------

  /** Rendering then reading the digits gives the number back. */
  lemma {:induction false} DecimalValue(n: nat)
    ensures DigitsValue(Decimal(n)) == n
  {
    if n >= 10 {
      var d := Decimal(n);
      assert d[..|d| - 1] == Decimal(n / 10);
      DecimalValue(n / 10);
    }
  }

  /** Every number below the limit parses back from its rendering, with or
      without a leading `+`; numbers at or above it are refused. */
  lemma ParseDecimal(n: nat, limit: nat)
    ensures n < limit ==> ParseUnsigned(Decimal(n), limit) == Some(n)
    ensures n < limit ==> ParseUnsigned("+" + Decimal(n), limit) == Some(n)
    ensures n >= limit ==> ParseUnsigned(Decimal(n), limit) == None
  {
    DecimalValue(n);
    assert ("+" + Decimal(n))[1..] == Decimal(n);
  }

  lemma ParseDecimalU32(n: U32)
    ensures ParseU32(Decimal(n)) == Some(n)
  {
    ParseDecimal(n, U32_LIMIT);
  }

  lemma ParseDecimalU64(n: U64)
    ensures ParseU64(Decimal(n)) == Some(n)
  {
    ParseDecimal(n, U64_LIMIT);
  }

  lemma U64OrZeroDecimal(n: U64)
    ensures U64OrZero(Decimal(n)) == n
  {
    ParseDecimalU64(n);
  }

  /** A leading zero does not change a digit string's value. */
  lemma {:induction false} LeadingZeroValue(d: string)
    requires AllDigits(d)
    ensures AllDigits("0" + d) && DigitsValue("0" + d) == DigitsValue(d)
    decreases |d|
  {
    var z := "0" + d;
    assert AllDigits(z) by {
      forall i | 0 <= i < |z| ensures IsDigit(z[i]) {
        if i > 0 { assert z[i] == d[i - 1]; }
      }
    }
    if |d| > 0 {
      assert z[..|z| - 1] == "0" + d[..|d| - 1];
      assert z[|z| - 1] == d[|d| - 1];
      LeadingZeroValue(d[..|d| - 1]);
    }
  }

  /** Leading zeros are accepted and ignored, as Rust's parser does. */
  lemma ParseLeadingZero(d: string, limit: nat)
    requires |d| > 0 && d[0] != '+'
    ensures ParseUnsigned("0" + d, limit) == ParseUnsigned(d, limit)
  {
    var z := "0" + d;
    assert z[0] == '0';
    if AllDigits(d) {
      LeadingZeroValue(d);
    } else {
      var i :| 0 <= i < |d| && !IsDigit(d[i]);
      assert z[i + 1] == d[i];
    }
  }

  /** A sign other than a single leading `+`, or any non-digit, is refused. */
  lemma ParseRejectsNonDigit(s: string, i: nat, limit: nat)
    requires i < |s| && !IsDigit(s[i]) && !(i == 0 && s[0] == '+')
    ensures ParseUnsigned(s, limit) == None
  {
  }

  /** Digits are never whitespace, so a digit string is one word. */
  lemma DigitsAreWord(d: string)
    requires |d| > 0 && AllDigits(d)
    ensures IsWord(d)
  {
    forall j | 0 <= j < |d| ensures d[j] !in WhiteSpace {
      assert IsDigit(d[j]);
    }
  }

  lemma DecimalIsOneWord(n: nat)
    ensures IsWord(Decimal(n))
  {
    DigitsAreWord(Decimal(n));
  }
}
