// Decimal printing and parsing as strconv does it, for 64-bit ints.
module Decimal {

  datatype Parsed = NotANumber | Number(n: int)

  const MAX_INT: int := 0x7fff_ffff_ffff_ffff
  const MIN_INT: int := -0x8000_0000_0000_0000

  function Digit(d: int): char
    requires 0 <= d < 10
  {
    '0' + d as char
  }

  predicate IsDigit(c: char) { '0' <= c <= '9' }

  function DigitValue(c: char): int
    requires IsDigit(c)
  {
    c as int - '0' as int
  }

  /** strconv.Itoa. */
  function Itoa(n: int): (s: string)
    ensures s != "" && forall c :: c in s ==> IsDigit(c) || c == '-'
    decreases n < 0, if n < 0 then -n else n
  {
    if n < 0 then "-" + Itoa(-n)
    else if n < 10 then [Digit(n)]
    else Itoa(n / 10) + [Digit(n % 10)]
  }

  predicate AllDigits(s: string) { forall i :: 0 <= i < |s| ==> IsDigit(s[i]) }

  function Value(s: string): nat
    requires AllDigits(s)
  {
    if s == "" then 0 else 10 * Value(s[..|s| - 1]) + DigitValue(s[|s| - 1])
  }

  /** strconv.Atoi: an optional sign, at least one digit, and a value in range. */
  function Atoi(s: string): Parsed {
    var body := if s != "" && (s[0] == '-' || s[0] == '+') then s[1..] else s;
    if body == "" || !AllDigits(body) then NotANumber
    else
      var v: int := Value(body);
      var n := if s[0] == '-' then -v else v;
      if MIN_INT <= n <= MAX_INT then Number(n) else NotANumber
  }

  lemma DigitsAreDecimal(d: int)
    requires 0 <= d < 10
    ensures Digit(d) == "0123456789"[d] && DigitValue(Digit(d)) == d
  {
  }

  lemma {:induction false} ValueOfItoa(n: nat)
    ensures AllDigits(Itoa(n)) && Value(Itoa(n)) == n
  {
    if n < 10 {
      assert Itoa(n)[..0] == "";
    } else {
      ValueOfItoa(n / 10);
      assert Itoa(n)[..|Itoa(n)| - 1] == Itoa(n / 10);
    }
  }

  /** Parsing undoes printing exactly on the values an int can hold. */
  lemma AtoiOfItoa(n: int)
    ensures Atoi(Itoa(n)) == Number(n) <==> MIN_INT <= n <= MAX_INT
  {
    if n < 0 {
      ValueOfItoa(-n);
      AtoiOfNegative(Itoa(-n));
    } else {
      ValueOfItoa(n);
      AtoiOfDigits(Itoa(n));
    }
  }

  lemma AtoiOfDigits(s: string)
    requires s != "" && AllDigits(s)
    ensures Atoi(s) == if Value(s) <= MAX_INT then Number(Value(s)) else NotANumber
  {
    assert IsDigit(s[0]);
  }

  lemma AtoiOfNegative(s: string)
    requires s != "" && AllDigits(s)
    ensures Atoi("-" + s) == if MIN_INT <= 0 - Value(s) then Number(0 - Value(s)) else NotANumber
  {
    assert ("-" + s)[1..] == s;
  }

  lemma ItoaInjective(m: int, n: int)
    ensures Itoa(m) == Itoa(n) <==> m == n
  {
    if m < 0 { ValueOfItoa(-m); NegativeHasSign(m); } else { ValueOfItoa(m); }
    if n < 0 { ValueOfItoa(-n); NegativeHasSign(n); } else { ValueOfItoa(n); }
  }

  lemma NegativeHasSign(n: int)
    requires n < 0
    ensures Itoa(n)[0] == '-' && Itoa(n)[1..] == Itoa(-n)
  {
  }
}
