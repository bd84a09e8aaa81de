/** Numbers in decimal, written and read. */
module Numerals {

  predicate IsDigit(c: char) { '0' <= c <= '9' }

  function DigitValue(c: char): nat
    requires IsDigit(c)
  {
    (c - '0') as int
  }

  type Digits = s: string | forall i :: 0 <= i < |s| ==> IsDigit(s[i])

  /** The number written by digits, read on from `n`. */
  function Number(s: Digits, n: nat): nat {
    if s == [] then n else Number(s[1..], 10 * n + DigitValue(s[0]))
  }

  /** %lld of a value that is not negative */
  function Decimal(n: nat): (s: Digits)
    ensures s != []
  {
    if n < 10 then ['0' + n as char] else Decimal(n / 10) + ['0' + (n % 10) as char]
  }

  lemma {:induction false} NumberSnoc(s: Digits, c: char, n: nat)
    requires IsDigit(c)
    ensures Number(s + [c], n) == 10 * Number(s, n) + DigitValue(c)
    decreases |s|
  {
    if s == [] {
      assert (s + [c])[1..] == [];
    } else {
      assert (s + [c])[1..] == s[1..] + [c];
      NumberSnoc(s[1..], c, 10 * n + DigitValue(s[0]));
    }
  }

  lemma {:induction false} DecimalReads(n: nat)
    ensures Number(Decimal(n), 0) == n
  {
    if n < 10 {
      assert Decimal(n)[1..] == [];
    } else {
      DecimalReads(n / 10);
      NumberSnoc(Decimal(n / 10), '0' + (n % 10) as char, 0);
    }
  }
}
