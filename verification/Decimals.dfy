/** Decimal numbers as text, and where a run of characters ends. */
module Decimals {
  import opened Text
  import opened LineGrammar

  function PowerOfTen(width: nat): (r: nat)
    ensures r > 0
  {
    if width == 0 then 1 else 10 * PowerOfTen(width - 1)
  }

  /** The last `width` decimal digits of a number. */
  function Digits(n: nat, width: nat): (r: string)
    ensures |r| == width && forall c | c in r :: IsDigit(c)
  {
    if width == 0 then [] else Digits(n / 10, width - 1) + ['0' + (n % 10) as char]
  }

  lemma {:induction false} DigitsRead(n: nat, width: nat)
    requires n < PowerOfTen(width)
    ensures Number(Digits(n, width)) == n
  {
    if width > 0 {
      DigitsRead(n / 10, width - 1);
      var digits := Digits(n, width);
      assert digits[..|digits| - 1] == Digits(n / 10, width - 1);
    }
  }

  lemma {:induction false} NumberBelow(digits: string)
    ensures Number(digits) < PowerOfTen(|digits|)
  {
    if digits != [] {
      NumberBelow(digits[..|digits| - 1]);
    }
  }

  lemma TenPowers()
    ensures PowerOfTen(1) == 10 && PowerOfTen(2) == 100 && PowerOfTen(7) == 10000000
  {
  }

  lemma {:induction false} RunIs(s: string, i: nat, j: nat, p: char -> bool)
    requires i <= j <= |s| && (forall k | i <= k < j :: p(s[k])) && (j < |s| ==> !p(s[j]))
    ensures RunEnd(s, i, p) == j
    decreases j - i
  {
    if i < j {
      RunIs(s, i + 1, j, p);
    }
  }
}
