/** Integers as decimal text. */
module Numerals {
  import opened Numbers

  function Digit(d: nat): char
    requires d < 10
  {
    ['0', '1', '2', '3', '4', '5', '6', '7', '8', '9'][d]
  }

  predicate IsDigit(c: char) { '0' <= c <= '9' }

  function DigitVal(c: char): (d: nat)
    requires IsDigit(c)
    ensures d < 10
  {
    c as int - '0' as int
  }

  function Digits(n: nat): string {
    if n < 10 then [Digit(n)] else Digits(n / 10) + [Digit(n % 10)]
  }

  /** How the printer writes an integer. */
  function Decimal(n: int): string {
    if n < 0 then "-" + Digits(-n) else Digits(n)
  }

  predicate AllDigits(s: string) {
    forall i :: 0 <= i < |s| ==> IsDigit(s[i])
  }

  function DigitsValue(s: string): nat
    requires AllDigits(s)
  {
    if s == "" then 0 else 10 * DigitsValue(s[..|s| - 1]) + DigitVal(s[|s| - 1])
  }

  function DigitRun(s: string): (n: nat)
    ensures n <= |s| && AllDigits(s[..n]) && (n < |s| ==> !IsDigit(s[n]))
  {
    if s == "" || !IsDigit(s[0]) then 0
    else
      var n := DigitRun(s[1..]);
      assert s[..1 + n] == [s[0]] + s[1..][..n];
      1 + n
  }

  lemma {:induction false} DigitsBack(n: nat)
    ensures Digits(n) != "" && AllDigits(Digits(n)) && DigitsValue(Digits(n)) == n
  {
    if n >= 10 {
      DigitsBack(n / 10);
      var s := Digits(n);
      assert s[..|s| - 1] == Digits(n / 10);
      assert DigitVal(Digit(n % 10)) == n % 10;
    } else {
      var s := Digits(n);
      assert DigitVal(Digit(n)) == n && s[..0] == "";
    }
  }

  lemma {:induction false} DigitsShort(n: nat, k: nat, bound: nat)
    requires n < bound && k >= 1 && bound == Ten(k)
    ensures |Digits(n)| <= k
    decreases k
  {
    if n >= 10 {
      assert k > 1;
      DigitsShort(n / 10, k - 1, Ten(k - 1));
    }
  }

  lemma {:induction false} DigitRunAll(s: string)
    requires AllDigits(s)
    ensures DigitRun(s) == |s|
  {
  }

  lemma {:induction false} DigitRunStops(s: string, t: string)
    requires AllDigits(s) && (t == "" || !IsDigit(t[0]))
    ensures DigitRun(s + t) == |s|
  {
    if s == "" {
      assert s + t == t;
    } else {
      DigitRunStops(s[1..], t);
      assert (s + t)[1..] == s[1..] + t;
    }
  }

  lemma {:induction false} DivTen(n: nat, i: nat)
    ensures n / 10 / Ten(i) == n / Ten(i + 1)
  {
    var q, d := n / 10, Ten(i);
    var u, v := q / d, q % d;
    assert q == d * u + v && n == 10 * q + n % 10;
    assert 10 * (d * u + v) == (10 * d) * u + 10 * v;
    assert 10 * v + n % 10 < 10 * d;
    DivUnique(n, Ten(i + 1), u, 10 * v + n % 10);
  }

  /** The digit i places from the right stands for 10^i, and no digit is missing. */
  lemma {:induction false} DigitsPlace(n: nat, i: nat)
    ensures i < |Digits(n)| ==> Digits(n)[|Digits(n)| - 1 - i] as int == '0' as int + n / Ten(i) % 10
    ensures i >= |Digits(n)| ==> n / Ten(i) == 0
    ensures n > 0 ==> Digits(n)[0] != '0'
  {
    if n >= 10 {
      DigitsHead(n / 10);
      if i > 0 {
        DigitsPlace(n / 10, i - 1);
        DivTen(n, i - 1);
      }
    } else if i > 0 {
      SmallTens(n, i);
    }
  }

  lemma {:induction false} SmallTens(n: nat, i: nat)
    requires n < 10 && i > 0
    ensures n / Ten(i) == 0
  {
    assert Ten(i) == 10 * Ten(i - 1);
    DivUnique(n, Ten(i), 0, n);
  }

  lemma {:induction false} DigitsHead(n: nat)
    ensures Digits(n) != "" && (n > 0 ==> Digits(n)[0] != '0')
  {
    if n >= 10 { DigitsHead(n / 10); }
  }
}
