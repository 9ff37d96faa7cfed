/** The level generator: a 64-bit xorshift and the height drawn from it.
    A word is its 64 bits, least significant first. */
module Rng {
  import opened Numbers

  const MAX_LEVEL: nat := 24
  const P: nat := 4

  type Word = w: seq<bool> | |w| == 64 witness seq(64, _ => false)

  const ZERO: Word := seq(64, _ => false)

  function Xor(a: Word, b: Word): Word {
    seq(64, i requires 0 <= i < 64 => a[i] != b[i])
  }

  function Shl(a: Word, k: nat): Word {
    seq(64, i requires 0 <= i < 64 => i >= k && a[i - k])
  }

  function Shr(a: Word, k: nat): Word {
    seq(64, i requires 0 <= i < 64 => i + k < 64 && a[i + k])
  }

  function Value(w: seq<bool>): nat {
    if w == [] then 0 else (if w[0] then 1 else 0) + 2 * Value(w[1..])
  }

  function Bits(n: nat, len: nat): (w: seq<bool>)
    ensures |w| == len
  {
    if len == 0 then [] else [n % 2 == 1] + Bits(n / 2, len - 1)
  }

  const GOLDEN: nat := 0x9e3779b97f4a7c15

  /** 0x9e3779b97f4a7c15 ^ (seed * 2654435761 + 1) on an unsigned 32-bit seed */
  function Initial(seed: nat): Word
    requires seed < 0x1_0000_0000
  {
    Xor(Bits(GOLDEN, 64), Bits(seed * 2654435761 + 1, 64))
  }

  function Next(x: Word): Word {
    var x1 := Xor(x, Shl(x, 13));
    var x2 := Xor(x1, Shr(x1, 7));
    Xor(x2, Shl(x2, 17))
  }

  // ----- heights -----

  /** How often P divides n. */
  function Multiplicity(n: nat): nat
    requires n > 0
  {
    if n % P == 0 then 1 + Multiplicity(n / P) else 0
  }

  /** 1 + min(23, how often 4 divides the state); a zero state would give the cap. */
  function Height(n: nat): nat {
    if n == 0 || Multiplicity(n) >= MAX_LEVEL then MAX_LEVEL else 1 + Multiplicity(n)
  }

  method DrawHeight(x: nat) returns (lvl: nat)
    ensures lvl == Height(x)
    ensures 1 <= lvl <= MAX_LEVEL
  {
    var n: nat := x;
    lvl := 1;
    while lvl < MAX_LEVEL && n % P == 0
      invariant 1 <= lvl <= MAX_LEVEL
      invariant x == 0 <==> n == 0
      invariant n != 0 ==> Multiplicity(x) == lvl - 1 + Multiplicity(n)
    {
      lvl := lvl + 1;
      n := n / P;
    }
  }

  // ----- the state never reaches zero -----

  lemma {:induction false} ShlBit(x: Word, y: Word, k: nat, i: nat)
    requires 0 < k && i < 64
    requires Xor(x, Shl(x, k)) == Xor(y, Shl(y, k))
    ensures x[i] == y[i]
  {
    assert Xor(x, Shl(x, k))[i] == Xor(y, Shl(y, k))[i];
    if i >= k {
      ShlBit(x, y, k, i - k);
    }
  }

  lemma {:induction false} ShrBit(x: Word, y: Word, k: nat, i: nat)
    requires 0 < k && i < 64
    requires Xor(x, Shr(x, k)) == Xor(y, Shr(y, k))
    ensures x[i] == y[i]
    decreases 64 - i
  {
    assert Xor(x, Shr(x, k))[i] == Xor(y, Shr(y, k))[i];
    if i + k < 64 {
      ShrBit(x, y, k, i + k);
    }
  }

  lemma {:induction false} ShlInjective(x: Word, y: Word, k: nat)
    requires 0 < k && Xor(x, Shl(x, k)) == Xor(y, Shl(y, k))
    ensures x == y
  {
    forall i | 0 <= i < 64 ensures x[i] == y[i] {
      ShlBit(x, y, k, i);
    }
  }

  lemma {:induction false} ShrInjective(x: Word, y: Word, k: nat)
    requires 0 < k && Xor(x, Shr(x, k)) == Xor(y, Shr(y, k))
    ensures x == y
  {
    forall i | 0 <= i < 64 ensures x[i] == y[i] {
      ShrBit(x, y, k, i);
    }
  }

  /** The xorshift step is injective. */
  lemma {:induction false} NextInjective(x: Word, y: Word)
    requires Next(x) == Next(y)
    ensures x == y
  {
    var x1, y1 := Xor(x, Shl(x, 13)), Xor(y, Shl(y, 13));
    ShlInjective(Xor(x1, Shr(x1, 7)), Xor(y1, Shr(y1, 7)), 17);
    ShrInjective(x1, y1, 7);
    ShlInjective(x, y, 13);
  }

  /** It maps zero, and only zero, to zero. */
  lemma {:induction false} NextZero(x: Word)
    ensures Next(x) == ZERO <==> x == ZERO
  {
    assert Xor(ZERO, Shl(ZERO, 13)) == ZERO && Xor(ZERO, Shr(ZERO, 7)) == ZERO && Xor(ZERO, Shl(ZERO, 17)) == ZERO;
    if Next(x) == ZERO {
      NextInjective(x, ZERO);
    }
  }

  lemma {:induction false} ValueOfBits(n: nat, len: nat)
    requires n < Pow2(len)
    ensures Value(Bits(n, len)) == n
  {
    if len > 0 {
      ValueOfBits(n / 2, len - 1);
      assert Bits(n, len)[1..] == Bits(n / 2, len - 1);
    }
  }

  lemma {:induction false} Pow2Of64()
    ensures Pow2(64) == 0x1_0000_0000_0000_0000
  {
    assert Pow2(8) == 256;
    assert Pow2(16) == 0x1_0000;
    assert Pow2(24) == 0x100_0000;
    assert Pow2(32) == 0x1_0000_0000;
    assert Pow2(40) == 0x100_0000_0000;
    assert Pow2(48) == 0x1_0000_0000_0000;
    assert Pow2(56) == 0x100_0000_0000_0000;
  }

  lemma {:induction false} InitialNonZero(seed: nat)
    requires seed < 0x1_0000_0000
    ensures Initial(seed) != ZERO
  {
    var mixed := seed * 2654435761 + 1;
    var a, b := Bits(GOLDEN, 64), Bits(mixed, 64);
    Pow2Of64();
    ValueOfBits(GOLDEN, 64);
    ValueOfBits(mixed, 64);
    assert a != b;
    var i :| 0 <= i < 64 && a[i] != b[i];
    assert Initial(seed)[i];
  }

  function Draws(x: Word, n: nat): Word {
    if n == 0 then x else Next(Draws(x, n - 1))
  }

  lemma {:induction false} DrawsNonZero(x: Word, n: nat)
    requires x != ZERO
    ensures Draws(x, n) != ZERO
  {
    if n > 0 {
      DrawsNonZero(x, n - 1);
      NextZero(Draws(x, n - 1));
    }
  }

  /** Whatever the seed and however many heights are drawn, the state stays non-zero. */
  lemma {:induction false} NeverZero(seed: nat, n: nat)
    requires seed < 0x1_0000_0000
    ensures Draws(Initial(seed), n) != ZERO
  {
    InitialNonZero(seed);
    DrawsNonZero(Initial(seed), n);
  }

  // ----- what a height says of the state -----

  lemma {:induction false} Pow2Sum(a: nat, b: nat)
    ensures Pow2(a + b) == Pow2(a) * Pow2(b)
  {
    if a > 0 {
      Pow2Sum(a - 1, b);
      Reassociate(2, Pow2(a - 1), Pow2(b));
    }
  }

  lemma {:induction false} Reassociate(a: nat, b: nat, c: nat)
    ensures a * (b * c) == (a * b) * c
  {
  }

  /** Taking out every factor of P. */
  lemma {:induction false} FactorsOut(n: nat) returns (q: nat)
    requires n > 0
    ensures n == Pow2(2 * Multiplicity(n)) * q && q % 4 != 0
  {
    if n % P == 0 {
      q := FactorsOut(n / P);
      var m := 2 * Multiplicity(n / P);
      assert Pow2(m + 2) == 4 * Pow2(m);
      Reassociate(4, Pow2(m), q);
    } else {
      q := n;
    }
  }

  lemma {:induction false} MultipleOf(d: nat, q: nat)
    requires d > 0
    ensures (d * q) % d == 0
  {
    DivUnique(d * q, d, q, 0);
  }

  lemma {:induction false} Expand(d: nat, u: nat, v: nat)
    ensures d * (4 * u + v) == (4 * d) * u + d * v
  {
    Reassociate(d, 4, u);
    assert d * (4 * u + v) == d * (4 * u) + d * v;
  }

  lemma {:induction false} UpToThree(d: nat, v: nat)
    requires d > 0 && 0 < v < 4
    ensures 0 < d * v < 4 * d
  {
    if v == 1 {
    } else if v == 2 {
    } else {
      assert v == 3;
    }
  }

  /** A multiple of d by a number that 4 does not divide is no multiple of 4 d. */
  lemma {:induction false} NotMultipleOf(d: nat, q: nat, u: nat, v: nat)
    requires d > 0 && q == 4 * u + v && 0 < v < 4
    ensures (d * q) % (4 * d) != 0
  {
    Expand(d, u, v);
    UpToThree(d, v);
    RestOf(d * q, 4 * d, u, d * v);
  }

  /** A height l below the cap is drawn exactly when 4^(l - 1) divides the state and 4^l does not; the cap
      when 4^23 does. */
  lemma {:induction false} HeightIs(x: nat, l: nat)
    requires x > 0 && 1 <= l <= 24 && l == Height(x)
    ensures x % Pow2(2 * (l - 1)) == 0
    ensures l < 24 ==> x % Pow2(2 * l) != 0
  {
    var q := FactorsOut(x);
    var m := Multiplicity(x);
    var d := Pow2(2 * (l - 1));
    Pow2Sum(2 * (l - 1), 2 * (m - (l - 1)));
    Reassociate(d, Pow2(2 * (m - (l - 1))), q);
    MultipleOf(d, Pow2(2 * (m - (l - 1))) * q);
    if l < 24 {
      assert Pow2(2 * l) == 4 * d;
      NotMultipleOf(d, q, q / 4, q % 4);
    }
  }

  // ----- the step as arithmetic on 64-bit values -----

  function Bit(v: nat, i: nat): nat { v / Pow2(i) % 2 }

  /** The number c is the exclusive or of a and b, bit by bit. */
  ghost predicate XorOf(c: nat, a: nat, b: nat) {
    c < Pow2(64) && forall i :: 0 <= i < 64 ==> Bit(c, i) == (Bit(a, i) + Bit(b, i)) % 2
  }

  lemma {:induction false} ValueBound(w: seq<bool>)
    ensures Value(w) < Pow2(|w|)
  {
    if w != [] { ValueBound(w[1..]); }
  }

  lemma {:induction false} ValueAppend(a: seq<bool>, b: seq<bool>)
    ensures Value(a + b) == Value(a) + Pow2(|a|) * Value(b)
  {
    if a == [] {
      assert a + b == b;
    } else {
      ValueAppend(a[1..], b);
      assert (a + b)[1..] == a[1..] + b;
      Reassociate(2, Pow2(|a| - 1), Value(b));
    }
  }

  lemma {:induction false} ValueSplit(w: seq<bool>, k: nat)
    requires k <= |w|
    ensures Value(w) == Value(w[..k]) + Pow2(k) * Value(w[k..]) && Value(w[..k]) < Pow2(k)
    ensures Value(w) / Pow2(k) == Value(w[k..])
  {
    assert w == w[..k] + w[k..];
    ValueAppend(w[..k], w[k..]);
    ValueBound(w[..k]);
    DivUnique(Value(w), Pow2(k), Value(w[k..]), Value(w[..k]));
  }

  lemma {:induction false} BitOf(w: seq<bool>, i: nat)
    requires i < |w|
    ensures Bit(Value(w), i) == if w[i] then 1 else 0
  {
    ValueSplit(w, i);
    assert w[i..][0] == w[i];
  }

  lemma {:induction false} XorBit(a: Word, b: Word, i: nat)
    requires i < 64
    ensures Bit(Value(Xor(a, b)), i) == (Bit(Value(a), i) + Bit(Value(b), i)) % 2
  {
    BitOf(a, i);
    BitOf(b, i);
    BitOf(Xor(a, b), i);
  }

  lemma {:induction false} XorIs(a: Word, b: Word)
    ensures XorOf(Value(Xor(a, b)), Value(a), Value(b))
  {
    ValueBound(Xor(a, b));
    forall i: nat | i < 64 ensures Bit(Value(Xor(a, b)), i) == (Bit(Value(a), i) + Bit(Value(b), i)) % 2 {
      XorBit(a, b, i);
    }
  }

  lemma {:induction false} ZerosValue(n: nat)
    ensures Value(seq(n, _ => false)) == 0
  {
    if n > 0 {
      ZerosValue(n - 1);
      assert seq(n, _ => false)[1..] == seq(n - 1, _ => false);
    }
  }

  lemma {:induction false} ShrIs(x: Word, k: nat)
    requires k <= 64
    ensures Value(Shr(x, k)) == Value(x) / Pow2(k)
  {
    var zeros := seq(k, _ => false);
    assert Shr(x, k) == x[k..] + zeros;
    ValueAppend(x[k..], zeros);
    ZerosValue(k);
    ValueSplit(x, k);
  }

  lemma {:induction false} ShlParts(x: Word, k: nat, n: nat)
    requires k <= n == 64
    ensures Value(Shl(x, k)) == Pow2(k) * Value(x[..n - k]) < Pow2(n)
    ensures Value(x) * Pow2(k) == Pow2(n) * Value(x[n - k..]) + Pow2(k) * Value(x[..n - k])
  {
    var zeros, lo := seq(k, _ => false), x[..n - k];
    assert Shl(x, k) == zeros + lo;
    ValueAppend(zeros, lo);
    ZerosValue(k);
    ValueBound(Shl(x, k));
    ValueSplit(x, n - k);
    Pow2Sum(k, n - k);
    ShiftedOut(Value(lo), Value(x[n - k..]), Pow2(k), Pow2(n - k));
  }

  lemma {:induction false} ShlIs(x: Word, k: nat, n: nat)
    requires k <= n == 64
    ensures Value(Shl(x, k)) == Value(x) * Pow2(k) % Pow2(n)
  {
    ShlParts(x, k, n);
    RestOf(Value(x) * Pow2(k), Pow2(n), Value(x[n - k..]), Value(Shl(x, k)));
  }

  lemma {:induction false} RestOf(v: nat, d: nat, q: nat, r: nat)
    requires d > 0 && r < d && v == d * q + r
    ensures v % d == r
  {
    DivUnique(v, d, q, r);
  }

  lemma {:induction false} ShiftedOut(lo: nat, hi: nat, a: nat, b: nat)
    ensures (lo + b * hi) * a == (a * b) * hi + a * lo
  {
    assert (lo + b * hi) * a == lo * a + (b * hi) * a;
    assert (b * hi) * a == (a * b) * hi;
  }

  /** The three steps of the generator on unsigned 64-bit values: exclusive or with itself shifted left by 13,
      right by 7 and left by 17, what is shifted out dropped. */
  lemma {:induction false} NextIs(x: Word) returns (v1: nat, v2: nat)
    ensures XorOf(v1, Value(x), Value(x) * Pow2(13) % Pow2(64))
    ensures XorOf(v2, v1, v1 / Pow2(7))
    ensures XorOf(Value(Next(x)), v2, v2 * Pow2(17) % Pow2(64))
  {
    var x1 := Xor(x, Shl(x, 13));
    var x2 := Xor(x1, Shr(x1, 7));
    v1, v2 := Value(x1), Value(x2);
    XorIs(x, Shl(x, 13));
    ShlIs(x, 13, 64);
    XorIs(x1, Shr(x1, 7));
    ShrIs(x1, 7);
    XorIs(x2, Shl(x2, 17));
    ShlIs(x2, 17, 64);
  }

  /** The state a list starts from. */
  lemma {:induction false} InitialIs(seed: nat)
    requires seed < 0x1_0000_0000
    ensures XorOf(Value(Initial(seed)), 0x9e3779b97f4a7c15, seed * 2654435761 + 1)
  {
    Pow2Of64();
    ValueOfBits(GOLDEN, 64);
    ValueOfBits(seed * 2654435761 + 1, 64);
    XorIs(Bits(GOLDEN, 64), Bits(seed * 2654435761 + 1, 64));
  }
}
