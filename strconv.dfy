/**
 * Decimal rendering and parsing of integers, as Go's strconv.Itoa and
 * strconv.Atoi do them. Integers are unbounded here: Atoi's 64-bit range
 * error is not modelled, only its syntax error.
 */
module Strconv {
  import opened Wrappers

  /** The error Atoi reports: the function name and the rejected text
      (Go's *NumError with ErrSyntax). */
  datatype NumError = NumError(func: string, num: string)

  predicate IsDigit(c: char) {
    '0' <= c <= '9'
  }

  predicate AllDigits(s: string) {
    forall i :: 0 <= i < |s| ==> IsDigit(s[i])
  }

  /** The texts Atoi accepts: an optional sign followed by at least one digit. */
  predicate IsSignedDecimal(s: string) {
    || (|s| >= 1 && AllDigits(s))
    || (|s| >= 2 && (s[0] == '-' || s[0] == '+') && AllDigits(s[1..]))
  }

  function DigitChar(d: int): (c: char)
    requires 0 <= d < 10
    ensures IsDigit(c)
  {
    ('0' as int + d) as char
  }

  function DigitValue(c: char): (d: nat)
    requires IsDigit(c)
    ensures d < 10 && DigitChar(d) == c
  {
    c as int - '0' as int
  }

  /** The digits of n, most significant first, with no leading zero. */
  function NatDecimal(n: nat): (s: string)
    ensures |s| >= 1 && AllDigits(s)
    ensures s[0] == '0' ==> n == 0
    decreases n
  {
    if n < 10 then [DigitChar(n)] else NatDecimal(n / 10) + [DigitChar(n % 10)]
  }

  /** strconv.Itoa: a '-' for negative numbers, then the digits of the magnitude. */
  function Itoa(n: int): (s: string)
    ensures |s| >= 1
    ensures n >= 0 <==> AllDigits(s)
    ensures n < 0 <==> s[0] == '-'
    ensures n >= 0 && s[0] == '0' ==> n == 0
    ensures n < 0 ==> |s| >= 2 && s[1] != '0'
  {
    if n < 0 then
      var s := "-" + NatDecimal(-n);
      assert !IsDigit(s[0]);
      s
    else NatDecimal(n)
  }

  /** The number a string of digits denotes (leading zeros allowed). */
  function DecimalValue(s: string): (n: nat)
    requires AllDigits(s)
  {
    if s == [] then 0 else DecimalValue(s[..|s| - 1]) * 10 + DigitValue(s[|s| - 1])
  }

  /** strconv.Atoi: strip one sign, require a non-empty run of digits. */
  function Atoi(s: string): (r: Result<int, NumError>)
    ensures r.Ok? <==> IsSignedDecimal(s)
    ensures r.Err? ==> r.error == NumError("Atoi", s)
    ensures r.Ok? && s[0] == '-' ==> r.value <= 0
    ensures r.Ok? && s[0] != '-' ==> r.value >= 0
  {
    var digits := if |s| > 0 && (s[0] == '-' || s[0] == '+') then s[1..] else s;
    if |digits| == 0 || !AllDigits(digits) then Err(NumError("Atoi", s))
    else
      var magnitude: int := DecimalValue(digits);
      Ok(if s[0] == '-' then -magnitude else magnitude)
  }

  function Pow10(k: nat): (p: nat)
    ensures p >= 1
  {
    if k == 0 then 1 else 10 * Pow10(k - 1)
  }

  lemma {:induction false} DecimalValueOfNatDecimal(n: nat)
    ensures DecimalValue(NatDecimal(n)) == n
    decreases n
  {
    var s := NatDecimal(n);
    if n < 10 {
      assert s[..|s| - 1] == [];
    } else {
      DecimalValueOfNatDecimal(n / 10);
      assert s[..|s| - 1] == NatDecimal(n / 10);
    }
  }

  /** Parsing the rendering of any integer gives that integer back. */
  lemma {:induction false} AtoiItoa(n: int)
    ensures Atoi(Itoa(n)) == Ok(n)
  {
    var s := Itoa(n);
    if n < 0 {
      var digits := NatDecimal(-n);
      assert s == "-" + digits && s[1..] == digits;
      DecimalValueOfNatDecimal(-n);
      assert Atoi(s) == Ok(0 - DecimalValue(digits) as int);
    } else {
      assert s == NatDecimal(n);
      assert IsDigit(s[0]);
      DecimalValueOfNatDecimal(n);
      assert Atoi(s) == Ok(DecimalValue(s));
    }
  }

  /** Distinct integers have distinct renderings. */
  lemma ItoaInjective(a: int, b: int)
    requires Itoa(a) == Itoa(b)
    ensures a == b
  {
    AtoiItoa(a);
    AtoiItoa(b);
  }

  /** A number below 10^k has at most k digits. */
  lemma {:induction false} NatDecimalLength(n: nat, k: nat)
    requires k >= 1 && n < Pow10(k)
    ensures |NatDecimal(n)| <= k
    decreases k
  {
    if n >= 10 {
      assert k >= 2;
      NatDecimalLength(n / 10, k - 1);
    }
  }
}
