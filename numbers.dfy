/** Decimal integers as the command line reads and writes them:
    `strconv.ParseInt(s, 10, 64)` and `strconv.Itoa`. */
module Numbers {
  import opened Optional

  const INT64_MIN: int := -0x8000_0000_0000_0000
  const INT64_MAX: int := 0x7FFF_FFFF_FFFF_FFFF

  predicate InInt64(n: int) {
    INT64_MIN <= n <= INT64_MAX
  }

  predicate IsDigit(c: char) {
    '0' <= c <= '9'
  }

  predicate AllDigits(s: string) {
    forall i :: 0 <= i < |s| ==> IsDigit(s[i])
  }

  function DigitValue(c: char): nat
    requires IsDigit(c)
  {
    c as int - '0' as int
  }

  function DigitChar(d: nat): (c: char)
    requires d < 10
    ensures IsDigit(c) && DigitValue(c) == d
  {
    ('0' as int + d) as char
  }

  /** The value of a string of decimal digits, most significant first. */
  function DigitsValue(s: string): nat
    requires AllDigits(s)
    decreases |s|
  {
    if |s| == 0 then 0 else DigitsValue(s[..|s| - 1]) * 10 + DigitValue(s[|s| - 1])
  }

  /** A signed decimal: an optional `+` or `-`, then one or more digits. */
  predicate IsSignedDecimal(s: string) {
    if |s| > 0 && (s[0] == '+' || s[0] == '-') then |s| > 1 && AllDigits(s[1..])
    else |s| > 0 && AllDigits(s)
  }

  /** The value a signed decimal denotes, without any range limit. */
  function SignedValue(s: string): int
    requires IsSignedDecimal(s)
  {
    if s[0] == '-' then -(DigitsValue(s[1..]) as int)
    else if s[0] == '+' then DigitsValue(s[1..])
    else DigitsValue(s)
  }

  /** `strconv.ParseInt(s, 10, 64)`: succeeds exactly on a signed decimal
      whose value fits in 64 bits; a leading `+` or `-` is accepted, nothing
      else (no blanks, no underscores, no base prefix). */
  function ParseDecimalInt64(s: string): Option<int> {
    if IsSignedDecimal(s) && InInt64(SignedValue(s)) then Some(SignedValue(s)) else None
  }

  /** The shortest decimal digits of a natural number: no leading zero
      unless the number is zero itself. */
  function NatDigits(n: nat): (r: string)
    ensures |r| > 0 && AllDigits(r)
    ensures DigitsValue(r) == n
    ensures |r| == 1 || r[0] != '0'
    decreases n
  {
    if n < 10 then [DigitChar(n)]
    else
      var r := NatDigits(n / 10) + [DigitChar(n % 10)];
      assert r[..|r| - 1] == NatDigits(n / 10);
      r
  }

  /** `strconv.Itoa`: the canonical decimal form, a minus sign for negative
      numbers only, then the digits without a leading zero. */
  function Itoa(n: int): (r: string)
    ensures |r| > 0
    ensures forall i :: 0 <= i < |r| ==> IsDigit(r[i]) || r[i] == '-'
    ensures n < 0 ==> r == "-" + NatDigits(-n)
    ensures n >= 0 ==> AllDigits(r) && (|r| == 1 || r[0] != '0')
    ensures n >= 0 ==> r == NatDigits(n)
  {
    if n < 0 then "-" + NatDigits(-n) else NatDigits(n)
  }

  /** Reading back what `Itoa` wrote gives the number again, for every
      64-bit integer. */
  lemma ItoaRoundTrip(n: int)
    requires InInt64(n)
    ensures ParseDecimalInt64(Itoa(n)) == Some(n)
  {
    var s := Itoa(n);
    if n < 0 {
      assert s[1..] == NatDigits(-n);
    } else {
      assert IsDigit(s[0]);
    }
  }
}
