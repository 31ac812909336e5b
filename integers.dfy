/** The fixed-width integer types of the request parameters, and Rust's
    `str::parse::<i64>` (decimal, optional sign) together with the decimal
    `Display` of an `i64`, which is its inverse. */
module Integers {
  import opened Wrappers

  const I64_MIN: int := -0x8000_0000_0000_0000
  const I64_MAX: int := 0x7FFF_FFFF_FFFF_FFFF

  type i64 = x: int | I64_MIN <= x <= I64_MAX
  type u64 = x: int | 0 <= x < 0x1_0000_0000_0000_0000
  type u16 = x: int | 0 <= x < 0x1_0000
  type u8 = x: int | 0 <= x < 0x100

  /** `core::num::IntErrorKind`, as far as `parse::<i64>` can report it. */
  datatype IntErrorKind = Empty | InvalidDigit | PosOverflow | NegOverflow

  /** The `Display` text of a `ParseIntError`. */
  function IntErrorMessage(k: IntErrorKind): string {
    match k
    case Empty => "cannot parse integer from empty string"
    case InvalidDigit => "invalid digit found in string"
    case PosOverflow => "number too large to fit in target type"
    case NegOverflow => "number too small to fit in target type"
  }

  predicate IsDigit(c: char) {
    '0' <= c <= '9'
  }

  function DigitValue(c: char): nat
    requires IsDigit(c)
  {
    c as int - '0' as int
  }

  function DigitChar(d: nat): (c: char)
    requires d < 10
    ensures IsDigit(c) && DigitValue(c) == d
  {
    ('0' as int + d) as char
  }

  predicate AllDigits(s: string) {
    forall i :: 0 <= i < |s| ==> IsDigit(s[i])
  }

  /** The length of the run of digits `s` starts with. */
  function DigitRun(s: string): (n: nat)
    ensures n <= |s| && AllDigits(s[..n])
    ensures n < |s| ==> !IsDigit(s[n])
    decreases |s|
  {
    if s == [] || !IsDigit(s[0]) then 0
    else
      var n := 1 + DigitRun(s[1..]);
      assert forall i :: 1 <= i < n ==> s[..n][i] == s[1..][..n - 1][i - 1];
      n
  }

  /** The number the digits `s` denote when `m` has already been read before
      them, read left to right as a person would. */
  ghost function ValueAfter(s: string, m: nat): nat
    requires AllDigits(s)
    decreases |s|
  {
    if s == [] then m else ValueAfter(s[1..], m * 10 + DigitValue(s[0]))
  }

  /** A sign-free decimal text `s` with at least one digit whose value is `n`. */
  ghost predicate Denotes(s: string, n: int) {
    |s| > 0 && AllDigits(s) && ValueAfter(s, 0) == n
  }

  /** The digit loop of `from_str_radix`: reads `s` left to right into the
      magnitude `m`; the first character that is not a digit gives
      InvalidDigit and the first step past `limit` gives `overflow`. */
  function Accumulate(s: string, m: nat, limit: nat, overflow: IntErrorKind): (r: Result<nat, IntErrorKind>)
    requires m <= limit
    ensures r.Ok? ==> AllDigits(s) && r.value == ValueAfter(s, m) && r.value <= limit
    ensures AllDigits(s) && ValueAfter(s, m) <= limit ==> r.Ok?
    ensures r.Err? ==> r.error == if ValueAfter(s[..DigitRun(s)], m) > limit then overflow else InvalidDigit
    decreases |s|
  {
    if s == [] then Ok(m)
    else if !IsDigit(s[0]) then Err(InvalidDigit)
    else
      var next := m * 10 + DigitValue(s[0]);
      RunTail(s);
      if next > limit then
        ValueAfterAtLeast(s[1..], next);
        ValueAfterAtLeast(s[1..][..DigitRun(s[1..])], next);
        Err(overflow)
      else Accumulate(s[1..], next, limit, overflow)
  }

  /** The digit run of a text that starts with a digit is that digit and the
      digit run of the rest. */
  lemma RunTail(s: string)
    requires s != [] && IsDigit(s[0])
    ensures DigitRun(s) == 1 + DigitRun(s[1..])
    ensures s[..DigitRun(s)][1..] == s[1..][..DigitRun(s[1..])]
  {
  }

  lemma {:induction false} ValueAfterAtLeast(s: string, m: nat)
    ensures AllDigits(s) ==> ValueAfter(s, m) >= m
    decreases |s|
  {
    if s != [] && AllDigits(s) {
      assert AllDigits(s[1..]);
      ValueAfterAtLeast(s[1..], m * 10 + DigitValue(s[0]));
    }
  }

  /** `s.parse::<i64>()`: an optional `+` or `-` followed by decimal digits;
      the empty text and a lone sign are rejected, and a value outside the
      64-bit range is an overflow in the direction of its sign. */
  function ParseI64(s: string): (r: Result<i64, IntErrorKind>)
    ensures r == Err(Empty) <==> s == []
    ensures |s| == 1 && (s[0] == '+' || s[0] == '-') ==> r == Err(InvalidDigit)
    ensures s != [] && r.Err? ==>
      var body := if s[0] == '-' || s[0] == '+' then s[1..] else s;
      var limit := if s[0] == '-' then -I64_MIN else I64_MAX;
      r.error == if ValueAfter(body[..DigitRun(body)], 0) > limit
                 then (if s[0] == '-' then NegOverflow else PosOverflow)
                 else InvalidDigit
    ensures r.Ok? <==> exists n: i64 :: SignedText(s, n)
    ensures r.Ok? ==> SignedText(s, r.value)
  {
    if s == [] then Err(Empty)
    else if |s| == 1 && (s[0] == '+' || s[0] == '-') then Err(InvalidDigit)
    else if s[0] == '-' then
      match Accumulate(s[1..], 0, -I64_MIN, NegOverflow)
      case Ok(m) =>
        var n: i64 := -(m as int);
        assert SignedText(s, n);
        Ok(n)
      case Err(k) =>
        SignedTextUnique(s); Err(k)
    else
      var body := if s[0] == '+' then s[1..] else s;
      match Accumulate(body, 0, I64_MAX, PosOverflow)
      case Ok(m) =>
        assert SignedText(s, m);
        Ok(m)
      case Err(k) =>
        SignedTextUnique(s); Err(k)
  }

  /** `s` is an optional sign and a non-empty run of digits denoting `n`. */
  ghost predicate SignedText(s: string, n: int) {
    if |s| > 0 && s[0] == '-' then Denotes(s[1..], -n)
    else if |s| > 0 && s[0] == '+' then Denotes(s[1..], n)
    else Denotes(s, n)
  }

  lemma SignedTextUnique(s: string)
    requires |s| > 0
    ensures (exists n: i64 :: SignedText(s, n)) ==>
      var body := if s[0] == '-' || s[0] == '+' then s[1..] else s;
      AllDigits(body) && ValueAfter(body, 0) <= (if s[0] == '-' then -I64_MIN else I64_MAX)
  {
  }

  /** The decimal digits of `n`, most significant first, without leading zeros. */
  function FormatNat(n: nat): (s: string)
    ensures |s| > 0 && AllDigits(s)
    ensures s[0] == '0' <==> n == 0
    decreases n
  {
    if n < 10 then [DigitChar(n)] else FormatNat(n / 10) + [DigitChar(n % 10)]
  }

  /** `i64`'s `Display`: a leading `-` for negative values, then the digits. */
  function FormatI64(n: i64): (s: string)
    ensures |s| > 0 && s[0] != '+'
    ensures s[0] == '-' <==> n < 0
    ensures var digits := if n < 0 then s[1..] else s;
      |digits| > 0 && AllDigits(digits) && (digits[0] == '0' ==> digits == "0")
  {
    if n < 0 then "-" + FormatNat(-(n as int)) else FormatNat(n)
  }

  lemma {:induction false} ValueAfterAppend(s: string, c: char, m: nat)
    requires AllDigits(s) && IsDigit(c)
    ensures AllDigits(s + [c])
    ensures ValueAfter(s + [c], m) == ValueAfter(s, m) * 10 + DigitValue(c)
    decreases |s|
  {
    if s == [] {
      assert [c][1..] == [];
    } else {
      assert (s + [c])[1..] == s[1..] + [c];
      ValueAfterAppend(s[1..], c, m * 10 + DigitValue(s[0]));
    }
  }

  /** The digits `FormatNat` writes denote the number it was given. */
  lemma {:induction false} FormatNatDenotes(n: nat)
    ensures Denotes(FormatNat(n), n)
    decreases n
  {
    if n >= 10 {
      FormatNatDenotes(n / 10);
      ValueAfterAppend(FormatNat(n / 10), DigitChar(n % 10), 0);
    }
  }

  /** Parsing the decimal text of any `i64` gives the number back. */
  lemma ParseFormatI64(n: i64)
    ensures ParseI64(FormatI64(n)) == Ok(n)
  {
    var s := FormatI64(n);
    if n < 0 {
      FormatNatDenotes(-(n as int));
      assert s[1..] == FormatNat(-(n as int));
      assert SignedText(s, n);
    } else {
      FormatNatDenotes(n);
      assert SignedText(s, n);
    }
  }
}
