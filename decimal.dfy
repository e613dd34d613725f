/** Decimal text of unsigned integers: Rust's `u64::to_string` and `str::parse::<u64>`. */
module Decimal {
  import opened Wrappers

  /** 2^64: every `u64` is below it. */
  const U64_LIMIT: nat := 0x1_0000_0000_0000_0000

  predicate IsDigit(c: char) {
    '0' <= c <= '9'
  }

  predicate AllDigits(s: string) {
    forall i :: 0 <= i < |s| ==> IsDigit(s[i])
  }

  function DigitChar(d: nat): (c: char)
    requires d < 10
    ensures IsDigit(c) && c as int - '0' as int == d
  {
    ('0' as int + d) as char
  }

  /** The decimal text of `n`: digits only, and no leading zero unless `n` is zero. */
  function NatToString(n: nat): (s: string)
    ensures |s| >= 1 && AllDigits(s)
    ensures s[0] == '0' <==> n == 0
    decreases n
  {
    if n < 10 then [DigitChar(n)] else NatToString(n / 10) + [DigitChar(n % 10)]
  }

  /** The value of a run of decimal digits, read left to right (`acc * 10 + digit`). */
  function DigitsValue(s: string): nat
    requires AllDigits(s)
  {
    if s == [] then 0
    else DigitsValue(s[..|s| - 1]) * 10 + (s[|s| - 1] as int - '0' as int)
  }

  /** `str::parse::<u64>`: an optional leading '+', then at least one digit, and a value
      below 2^64; anything else (empty text, a lone sign, a '-', any other character,
      overflow) is an error. */
  function ParseU64(s: string): (r: Option<nat>)
    ensures r.Some? ==> r.value < U64_LIMIT
  {
    if |s| == 0 then None
    else
      var digits := if s[0] == '+' then s[1..] else s;
      if |digits| == 0 || !AllDigits(digits) then None
      else if DigitsValue(digits) < U64_LIMIT then Some(DigitsValue(digits))
      else None
  }

  lemma {:induction false} DigitsValueOfNatToString(n: nat)
    ensures DigitsValue(NatToString(n)) == n
    decreases n
  {
    if n >= 10 {
      var s := NatToString(n);
      assert s[..|s| - 1] == NatToString(n / 10);
      DigitsValueOfNatToString(n / 10);
    }
  }

  /** Parsing the decimal text of a `u64` gives the number back. */
  lemma ParseU64OfNatToString(n: nat)
    requires n < U64_LIMIT
    ensures ParseU64(NatToString(n)) == Some(n)
  {
    DigitsValueOfNatToString(n);
  }

  /** Text holding a character that is neither a digit nor a leading '+' is rejected,
      so a sign, a decimal point or an exponent never parses as a `u64`. */
  lemma ParseU64RejectsNonDigit(s: string, i: nat)
    requires i < |s| && !IsDigit(s[i]) && !(i == 0 && s[0] == '+')
    ensures ParseU64(s) == None
  {
    if s[0] == '+' {
      assert s[1..][i - 1] == s[i];
    }
  }
}
