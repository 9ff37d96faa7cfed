/** Bucket arithmetic of the latency histogram (src/hist.c). */
module Buckets {
  import opened Numbers

  const W: nat := 0x1_0000_0000_0000_0000   // 2^64
  const SUB: nat := 64
  const OCT: nat := 40
  const BUCKETS: nat := 2560

  type U64 = v: nat | v < W

  /** 63 - clz: the position of the highest set bit. */
  function Log2(v: nat): nat
    requires v > 0
  {
    if v == 1 then 0 else 1 + Log2(v / 2)
  }

  function Octave(v: nat): nat
    requires v > 0
  {
    if Log2(v) >= OCT then OCT - 1 else Log2(v)
  }

  function Slot(v: nat, base: nat): nat
    requires 0 < base <= v
  {
    var s := ((v - base) * SUB) % 0x1_0000_0000_0000_0000 / base;
    if s >= SUB then SUB - 1 else s
  }

  lemma {:induction false} Log2Bounds(v: nat)
    requires v > 0
    ensures Pow2(Log2(v)) <= v < 2 * Pow2(Log2(v))
  {
    if v > 1 {
      Log2Bounds(v / 2);
    }
  }

  lemma {:induction false} Pow2Monotone(a: nat, b: nat)
    requires a <= b
    ensures Pow2(a) <= Pow2(b)
    decreases b
  {
    if a < b {
      Pow2Monotone(a, b - 1);
    }
  }

  lemma {:induction false} OctaveBase(v: nat)
    requires v > 0
    ensures Pow2(Octave(v)) <= v
  {
    Log2Bounds(v);
    if Log2(v) >= OCT { Pow2Monotone(OCT - 1, Log2(v)); }
  }

  function Index(v: U64): (i: nat)
    ensures i < BUCKETS
  {
    if v == 0 then 0
    else
      OctaveBase(v);
      Octave(v) * SUB + Slot(v, Pow2(Octave(v)))
  }

  function ValueAt(i: nat): nat {
    var base := Pow2(i / SUB);
    var width := if base / SUB == 0 then 1 else base / SUB;
    base + i % SUB * width + width / 2
  }

  // ----- constants and shapes -----

  const P32: nat := 0x1_0000_0000
  const P33: nat := 0x2_0000_0000
  const P39: nat := 0x80_0000_0000
  const P40: nat := 0x100_0000_0000

  lemma {:induction false} Pow2Values()
    ensures Pow2(6) == 64 && Pow2(33) == P33 && Pow2(39) == P39 && Pow2(40) == P40
  {
    assert Pow2(8) == 256 && Pow2(16) == 0x1_0000 && Pow2(24) == 0x100_0000 && Pow2(32) == P32;
  }

  lemma {:induction false} Log2Less(v: nat, k: nat)
    requires v > 0
    ensures Log2(v) < k <==> v < Pow2(k)
  {
    Log2Bounds(v);
    if Log2(v) < k {
      Pow2Monotone(Log2(v) + 1, k);
    } else {
      Pow2Monotone(k, Log2(v));
    }
  }

  lemma {:induction false} IndexParts(v: U64)
    requires v > 0
    ensures Pow2(Octave(v)) <= v
    ensures Index(v) / SUB == Octave(v) && Index(v) % SUB == Slot(v, Pow2(Octave(v)))
  {
    OctaveBase(v);
    var o, s := Octave(v), Slot(v, Pow2(Octave(v)));
    assert (o * 64 + s) / 64 == o && (o * 64 + s) % 64 == s;
  }

  lemma {:induction false} DivCancel(x: nat, w: nat)
    requires w > 0
    ensures (x * 64) / (64 * w) == x / w
  {
    var q, r := x / w, x % w;
    assert x == w * q + r;
    assert x * 64 == (64 * w) * q + r * 64;
    assert r * 64 < 64 * w;
    DivUnique(x * 64, 64 * w, q, r * 64);
  }

  lemma {:induction false} MidOctave(v: U64)
    requires 64 <= v < P40
    ensures 6 <= Octave(v) < 40 && Octave(v) == Log2(v)
    ensures Pow2(Octave(v)) <= P39 && Pow2(Octave(v)) <= v < 2 * Pow2(Octave(v))
  {
    Pow2Values();
    Log2Less(v, 6);
    Log2Less(v, 40);
    Log2Bounds(v);
    Pow2Monotone(Log2(v), 39);
  }

  lemma {:induction false} SlotExact(v: nat, w: nat)
    requires 0 < w && 64 * w <= v < 128 * w && 64 * w <= P39
    ensures Slot(v, 64 * w) == (v - 64 * w) / w < 64
  {
    var x := v - 64 * w;
    DivCancel(x, w);
    assert x * 64 < W;
    assert x == w * (x / w) + x % w;
    if x / w >= 64 {
      MulGap(w, 63, x / w);
    }
  }

  /** In the octaves from 64 up to 2^40 a slot is width w = base / 64 wide and nothing wraps or clamps. */
  lemma {:induction false} MidSlot(v: U64, w: nat)
    requires 64 <= v < P40 && w == Pow2(Octave(v)) / 64
    ensures w > 0 && Pow2(Octave(v)) == 64 * w
    ensures w == 1 || w % 2 == 0
    ensures 64 * w <= v < 128 * w
    ensures Slot(v, 64 * w) == (v - 64 * w) / w < 64
  {
    MidOctave(v);
    Pow2Shift(Octave(v));
    SlotExact(v, w);
  }

  lemma {:induction false} Pow2Shift(o: nat)
    requires o >= 6
    ensures Pow2(o) == 64 * Pow2(o - 6)
    ensures Pow2(o - 6) == 1 || Pow2(o - 6) % 2 == 0
    ensures Pow2(o) / 64 == Pow2(o - 6)
  {
    assert Pow2(o) == 2 * Pow2(o - 1) && Pow2(o - 1) == 2 * Pow2(o - 2) && Pow2(o - 2) == 2 * Pow2(o - 3);
    assert Pow2(o - 3) == 2 * Pow2(o - 4) && Pow2(o - 4) == 2 * Pow2(o - 5) && Pow2(o - 5) == 2 * Pow2(o - 6);
  }

  // ----- accuracy -----

  function Dist(a: int, b: int): nat {
    if a < b then b - a else a - b
  }

  /** Reading v back from its bucket is off by at most 1/128 of v. */
  predicate Accurate(v: U64) {
    128 * Dist(ValueAt(Index(v)), v) <= v
  }

  const TOP: nat := P40 - P32   // what the last bucket reads back as

  lemma {:induction false} HalfWidth(x: nat, w: nat)
    requires w == 1 || (w > 0 && w % 2 == 0)
    ensures Dist(x / w * w + w / 2, x) <= w / 2
  {
    assert x == w * (x / w) + x % w;
    assert x / w * w == w * (x / w);
  }

  lemma {:induction false} MidAccurate(v: U64)
    requires 64 <= v < P40
    ensures Accurate(v)
  {
    var w := Pow2(Octave(v)) / 64;
    MidSlot(v, w);
    IndexParts(v);
    HalfWidth(v - 64 * w, w);
  }

  predicate PowerOfTwo(v: nat) {
    v > 0 && v == Pow2(Log2(v))
  }

  lemma {:induction false} LowSlot(v: nat, base: nat)
    requires base in {1, 2, 4, 8, 16, 32} && base <= v < 2 * base
    ensures Slot(v, base) == (v - base) * (64 / base) < 64
    ensures base / 64 == 0 && 64 / base >= 2
  {
  }

  lemma {:induction false} LowOctave(v: nat)
    requires 0 < v < 64
    ensures Octave(v) == Log2(v) < 6 && Pow2(Octave(v)) in {1, 2, 4, 8, 16, 32}
    ensures Pow2(Octave(v)) <= v < 2 * Pow2(Octave(v))
  {
    Pow2Values();
    Log2Less(v, 6);
    Log2Bounds(v);
    assert Pow2(1) == 2 && Pow2(2) == 4 && Pow2(3) == 8 && Pow2(4) == 16 && Pow2(5) == 32;
  }

  /** Below 64 the width-0 fix-up spreads the slots out: only the powers of two read back right. */
  lemma {:induction false} LowSpread(base: nat, x: nat, v: nat, r: nat)
    requires base in {1, 2, 4, 8, 16, 32} && x < base && v == base + x && r == base + x * (64 / base)
    ensures 128 * Dist(r, v) <= v <==> x == 0
  {
  }

  lemma {:induction false} LowAccurate(v: U64)
    requires v < 64
    ensures Accurate(v) <==> PowerOfTwo(v)
  {
    if v > 0 {
      LowOctave(v);
      var base := Pow2(Octave(v));
      LowSlot(v, base);
      IndexParts(v);
      LowSpread(base, v - base, v, ValueAt(Index(v)));
    }
  }

  const WRAP: nat := 0x400_0080_0000_0000   // 2^58 + 2^39, where (v - base) * 64 first wraps

  lemma {:induction false} HighSlot(v: U64)
    requires v >= P40
    ensures Octave(v) == 39
    ensures v < WRAP ==> Slot(v, P39) == 63
    ensures v == WRAP ==> Slot(v, P39) == 0
  {
    Pow2Values();
    Log2Less(v, 40);
    assert v < WRAP ==> ((v - P39) * 64) % 0x1_0000_0000_0000_0000 == (v - P39) * 64 >= 64 * P39;
  }

  /** From 2^40 on every value is filed in the last octave, so it reads back as at most TOP. */
  lemma {:induction false} HighAccurate(v: U64)
    requires v >= P40
    ensures Accurate(v) <==> 127 * v <= 128 * TOP
  {
    Pow2Values();
    HighSlot(v);
    IndexParts(v);
    var s := Slot(v, P39);
    assert ValueAt(Index(v)) == P39 + s * P33 + P32;
  }

  /** Exactly which values a bucket reads back to within 1/128. */
  lemma {:induction false} AccurateIff(v: U64)
    ensures Accurate(v) <==> (v < 64 && PowerOfTwo(v)) || (64 <= v && 127 * v <= 128 * TOP)
  {
    if v < 64 {
      LowAccurate(v);
    } else if v < P40 {
      MidAccurate(v);
    } else {
      HighAccurate(v);
    }
  }

  /** 3 is filed in bucket 96, which reads back as 34. */
  lemma {:induction false} SmallValueMisread()
    ensures Index(3) == 96 && ValueAt(96) == 34 && !Accurate(3)
  {
    assert Log2(3) == 1 && Pow2(1) == 2;
  }

  // ----- order -----

  lemma {:induction false} DivMonotone(a: nat, b: nat, d: nat)
    requires a <= b && d > 0
    ensures a / d <= b / d
  {
    assert a == d * (a / d) + a % d && b == d * (b / d) + b % d;
    if b / d < a / d { MulGap(d, b / d, a / d); }
  }

  lemma {:induction false} OctaveMonotone(u: nat, v: nat)
    requires 0 < u <= v
    ensures Octave(u) <= Octave(v)
  {
    if Log2(v) < Log2(u) {
      Log2Less(v, Log2(u));
      Log2Bounds(u);
    }
  }

  lemma {:induction false} NoWrap(v: U64)
    requires 0 < v < WRAP
    ensures Pow2(Octave(v)) <= v && (v - Pow2(Octave(v))) * 64 < W
  {
    Pow2Values();
    OctaveBase(v);
    if Log2(v) >= 40 {
      assert Octave(v) == 39;
    } else {
      Log2Less(v, 40);
    }
  }

  lemma {:induction false} ModSmall(n: nat)
    requires n < W
    ensures n % 0x1_0000_0000_0000_0000 == n
  {
  }

  lemma {:induction false} SlotUnwrapped(v: nat, base: nat, q: nat)
    requires 0 < base <= v && (v - base) * 64 < W && q == ((v - base) * 64) / base
    ensures Slot(v, base) == if q >= 64 then 63 else q
  {
    ModSmall((v - base) * 64);
  }

  lemma {:induction false} SlotMonotone(u: nat, v: nat, base: nat)
    requires 0 < base <= u <= v && (v - base) * 64 < W
    ensures Slot(u, base) <= Slot(v, base)
  {
    var a, b := ((u - base) * 64) / base, ((v - base) * 64) / base;
    DivMonotone((u - base) * 64, (v - base) * 64, base);
    SlotUnwrapped(u, base, a);
    SlotUnwrapped(v, base, b);
  }

  lemma {:induction false} IndexMonotone(u: U64, v: U64)
    requires u <= v < WRAP
    ensures Index(u) <= Index(v)
  {
    if u > 0 {
      OctaveMonotone(u, v);
      NoWrap(u);
      NoWrap(v);
      var a, b := Octave(u), Octave(v);
      if a == b {
        SlotMonotone(u, v, Pow2(a));
      } else {
        assert a * 64 + 64 <= b * 64;
      }
    }
  }

  /** The index follows the order of the values up to 2^58 + 2^39 and no further. */
  lemma {:induction false} IndexMonotoneIff(bound: nat)
    requires bound <= W
    ensures (forall u: U64, v: U64 :: u <= v < bound ==> Index(u) <= Index(v)) <==> bound <= WRAP
  {
    if bound <= WRAP {
      forall u: U64, v: U64 | u <= v < bound ensures Index(u) <= Index(v) {
        IndexMonotone(u, v);
      }
    } else {
      Pow2Values();
      HighSlot(P40);
      HighSlot(WRAP);
      assert Index(P40) == 39 * 64 + 63 && Index(WRAP) == 39 * 64;
    }
  }
}
