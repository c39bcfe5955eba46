/** Natural numbers in decimal notation, as `str` and `json.dumps` write them. */
module Decimals {
  import opened RunEvents

  function Digit(d: nat): char requires d < 10 { "0123456789"[d] }

  function Decimal(n: nat): string { if n < 10 then [Digit(n)] else Decimal(n / 10) + [Digit(n % 10)] }

  function DigitValue(c: char): nat { if '0' <= c <= '9' then (c as int - '0' as int) as nat else 0 }

  function Value(s: string): nat { if s == "" then 0 else 10 * Value(Front(s)) + DigitValue(Last(s)) }

  /** A number is read back from its digits. */
  lemma {:induction false} DecimalForm(n: nat)
    ensures Decimal(n) != "" && Value(Decimal(n)) == n && forall i :: 0 <= i < |Decimal(n)| ==>
              '0' <= Decimal(n)[i] <= '9'
  {
    if n >= 10 {
      DecimalForm(n / 10);
      Snoc(Decimal(n / 10), Digit(n % 10));
    } else {
      assert Front(Decimal(n)) == "";
    }
  }

  /** No number but zero is written with a leading zero. */
  lemma {:induction false} NoLeadingZero(n: nat)
    ensures Decimal(n) != "" && (Decimal(n)[0] == '0' <==> n == 0)
  {
    if n >= 10 { NoLeadingZero(n / 10); }
  }
}
