/** Decimal rendering and parsing of integers, as strconv.FormatInt/Itoa and strconv.Atoi do it. */
module Decimal {
  import opened Wrappers

  const MIN_INT64 := -0x8000_0000_0000_0000
  const MAX_INT64 := 0x7fff_ffff_ffff_ffff

  predicate IsInt64(n: int) {
    MIN_INT64 <= n <= MAX_INT64
  }

  predicate IsDigit(c: char) {
    '0' <= c <= '9'
  }

  function DigitChar(d: nat): char
    requires d < 10
  {
    ('0' as int + d) as char
  }

  function DigitValue(c: char): nat
    requires IsDigit(c)
  {
    c as int - '0' as int
  }

  function Digits(n: nat): string {
    if n < 10 then [DigitChar(n)] else Digits(n / 10) + [DigitChar(n % 10)]
  }

  function Itoa(n: int): string {
    if n < 0 then "-" + Digits(-n) else Digits(n)
  }

  predicate AllDigits(s: string) {
    forall i | 0 <= i < |s| :: IsDigit(s[i])
  }

  function ParseDigits(s: string): nat
    requires AllDigits(s)
  {
    if s == "" then 0 else 10 * ParseDigits(s[..|s| - 1]) + DigitValue(s[|s| - 1])
  }

  /** The number a numeral denotes, of any size: an optional sign and at least one digit. */
  function ParseSigned(s: string): Option<int> {
    var signed := |s| > 0 && (s[0] == '-' || s[0] == '+');
    var body := if signed then s[1..] else s;
    if body == "" || !AllDigits(body) then None
    else if signed && s[0] == '-' then Some(0 - ParseDigits(body))
    else Some(ParseDigits(body))
  }

  /** strconv.Atoi also rejects a value that does not fit 64 bits. */
  function Atoi(s: string): Option<int> {
    match ParseSigned(s)
    case Some(n) => if IsInt64(n) then Some(n) else None
    case None => None
  }

  ghost predicate Denotes(digits: string, n: int) {
    digits != "" && AllDigits(digits) && ParseDigits(digits) == n
  }

  /** Atoi takes exactly the numerals with or without one sign whose number fits 64 bits. */
  lemma AtoiIs(s: string, n: int)
    ensures Atoi(s) == Some(n) <==>
              && IsInt64(n)
              && (Denotes(s, n) || (s != "" && s[0] == '+' && Denotes(s[1..], n))
                    || (s != "" && s[0] == '-' && Denotes(s[1..], -n)))
  {
    assert s != "" && (s[0] == '+' || s[0] == '-') ==> !IsDigit(s[0]);
  }

  lemma {:induction false} DigitsParse(n: nat)
    ensures Digits(n) != "" && AllDigits(Digits(n)) && ParseDigits(Digits(n)) == n
  {
    if n < 10 {
      assert Digits(n)[..0] == "";
    } else {
      DigitsParse(n / 10);
      var s := Digits(n);
      assert s[..|s| - 1] == Digits(n / 10);
    }
  }

  /** Printing an integer of any size and reading it back gives it back. */
  lemma ParseItoa(n: int)
    ensures ParseSigned(Itoa(n)) == Some(n)
  {
    DigitsParse(if n < 0 then -n else n);
    if n < 0 {
      assert Itoa(n)[1..] == Digits(-n);
    } else {
      assert IsDigit(Itoa(n)[0]);
    }
  }

  /** Distinct integers print differently. */
  lemma ItoaInjective(m: int, n: int)
    requires Itoa(m) == Itoa(n)
    ensures m == n
  {
    ParseItoa(m);
    ParseItoa(n);
  }
}
