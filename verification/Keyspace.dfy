/** Key formats of the workloads: zero-padded numbers and prefix ranges under byte order
    (workloads/mixed.lua, workloads/cart.lua). */
module Keyspace {
  import opened Numbers
  import opened KeyOrder

  /** The last w decimal digits of n, most significant first. */
  function Pad(n: nat, w: nat): (r: Bytes)
    ensures |r| == w
  {
    if w == 0 then [] else Pad(n / 10, w - 1) + [48 + n % 10]
  }

  function Width(n: nat): (w: nat)
    ensures w > 0
  {
    if n < 10 then 1 else 1 + Width(n / 10)
  }

  /** "%0wd": at least w digits, and as many as the number needs. */
  function Format(n: nat, w: nat): Bytes {
    Pad(n, if Width(n) < w then w else Width(n))
  }

  function MixedKey(i: nat): Bytes { [107, 58] + Format(i, 12) }

  // u:%010d:c: and u:%010d:c;
  function UserPart(uid: nat): Bytes { [117, 58] + Format(uid, 10) + [58, 99] }
  function CartLo(uid: nat): Bytes { UserPart(uid) + [58] }
  function CartHi(uid: nat): Bytes { UserPart(uid) + [59] }
  function LineKey(uid: nat, iid: nat): Bytes { CartLo(uid) + Format(iid, 10) }

  // ----- byte order -----

  lemma {:induction false} LtIff(a: Bytes, b: Bytes)
    ensures Lt(a, b) <==> exists i :: LessAt(a, b, i)
    ensures !Lt(a, b) <==> a == b || Lt(b, a)
  {
    KeyCmpIsLexicographic(a, b);
    KeyCmpIsLexicographic(b, a);
  }

  lemma {:induction false} LtPrefix(p: Bytes, a: Bytes, b: Bytes)
    ensures Lt(p + a, p + b) <==> Lt(a, b)
  {
    LtIff(a, b);
    LtIff(p + a, p + b);
    if Lt(a, b) {
      var i: nat :| LessAt(a, b, i);
      assert (p + a)[..|p| + i] == p + a[..i] && (p + b)[..|p| + i] == p + b[..i];
      assert LessAt(p + a, p + b, |p| + i);
    }
    if Lt(p + a, p + b) {
      var i: nat :| LessAt(p + a, p + b, i);
      assert i >= |p|;
      assert (p + a)[..i] == p + a[..i - |p|] && (p + b)[..i] == p + b[..i - |p|];
      assert a[..i - |p|] == (p + a)[..i][|p|..] && b[..i - |p|] == (p + b)[..i][|p|..];
      assert LessAt(a, b, i - |p|);
    }
  }

  /** For strings of one length, a last byte only matters when the rest is equal. */
  lemma {:induction false} LtSnoc(s: Bytes, t: Bytes, x: Byte, y: Byte)
    requires |s| == |t|
    ensures Lt(s + [x], t + [y]) <==> Lt(s, t) || (s == t && x < y)
  {
    LtIff(s, t);
    LtIff(s + [x], t + [y]);
    if Lt(s, t) {
      var i: nat :| LessAt(s, t, i);
      assert (s + [x])[..i] == s[..i] && (t + [y])[..i] == t[..i];
      assert LessAt(s + [x], t + [y], i);
    }
    if s == t && x < y {
      assert (s + [x])[..|s|] == s && (t + [y])[..|s|] == t;
      assert LessAt(s + [x], t + [y], |s|);
    }
    if Lt(s + [x], t + [y]) {
      var i: nat :| LessAt(s + [x], t + [y], i);
      if i < |s| {
        assert (s + [x])[..i] == s[..i] && (t + [y])[..i] == t[..i];
        assert LessAt(s, t, i);
      } else {
        assert (s + [x])[..|s|] == s && (t + [y])[..|s|] == t;
      }
    }
  }

  // ----- zero padding embeds the numeric order -----

  lemma {:induction false} TenDiv(n: nat, w: nat)
    requires w > 0
    ensures n < Ten(w) <==> n / 10 < Ten(w - 1)
  {
    assert Ten(w) == 10 * Ten(w - 1);
  }

  lemma {:induction false} PadOrder(a: nat, b: nat, w: nat)
    requires a < Ten(w) && b < Ten(w)
    ensures Pad(a, w) == Pad(b, w) <==> a == b
    ensures Lt(Pad(a, w), Pad(b, w)) <==> a < b
    decreases w
  {
    if w == 0 {
      LtIff([], []);
      KeyCmpIsLexicographic([], []);
    } else {
      TenDiv(a, w);
      TenDiv(b, w);
      PadOrder(a / 10, b / 10, w - 1);
      var s, t := Pad(a / 10, w - 1), Pad(b / 10, w - 1);
      LtSnoc(s, t, 48 + a % 10, 48 + b % 10);
      assert Pad(a, w)[..w - 1] == s && Pad(b, w)[..w - 1] == t;
      assert Pad(a, w)[w - 1] == 48 + a % 10 && Pad(b, w)[w - 1] == 48 + b % 10;
    }
  }

  lemma {:induction false} WidthBound(n: nat, w: nat)
    ensures Width(n) <= w <==> w > 0 && n < Ten(w)
    decreases w
  {
    if w > 0 {
      TenDiv(n, w);
      if n >= 10 { WidthBound(n / 10, w - 1); }
    }
  }

  lemma {:induction false} FormatWithin(n: nat, w: nat)
    requires w > 0 && n < Ten(w)
    ensures Format(n, w) == Pad(n, w)
  {
    WidthBound(n, w);
  }

  /** Keys of indices that fit their width order as the indices do. */
  lemma {:induction false} MixedKeyOrder(i: nat, j: nat)
    requires i < Ten(12) && j < Ten(12)
    ensures Lt(MixedKey(i), MixedKey(j)) <==> i < j
  {
    OrderWithin([107, 58], 12, i, j);
  }

  /** Different numbers have different text at any width. */
  lemma {:induction false} FormatInjective(i: nat, j: nat, w: nat)
    requires Format(i, w) == Format(j, w)
    ensures i == j
  {
    var n := if Width(i) < w then w else Width(i);
    WidthBound(i, n);
    WidthBound(j, n);
    PadOrder(i, j, n);
  }

  lemma {:induction false} MixedKeyInjective(i: nat, j: nat)
    requires MixedKey(i) == MixedKey(j)
    ensures i == j
  {
    assert MixedKey(i)[2..] == Format(i, 12) && MixedKey(j)[2..] == Format(j, 12);
    FormatInjective(i, j, 12);
  }

  /** The first number past the width sorts before the last tenth of those within it. */
  lemma {:induction false} FormatBreaks(n: nat, m: nat, w: nat)
    requires w > 0 && n == Ten(w) && 9 * Ten(w - 1) <= m < n
    ensures Lt(Format(n, w), Format(m, w)) && !Lt(Format(m, w), Format(n, w))
  {
    assert Ten(w) == 10 * Ten(w - 1);
    assert Ten(w + 1) == 10 * Ten(w);
    FormatWithin(m, w);
    WidthBound(n, w);
    WidthBound(n, w + 1);
    PadHead(n, w, 1);
    PadHead(m, w - 1, 9);
    var a, b := Format(n, w), Format(m, w);
    LtIff(a, b);
    assert a[..0] == b[..0];
    assert LessAt(a, b, 0);
    LtAsym(a, b);
  }

  /** Two numbers after a prefix compare as bytes the way they compare as numbers. */
  predicate InOrder(p: Bytes, w: nat, i: nat, j: nat) {
    Lt(p + Format(i, w), p + Format(j, w)) <==> i < j
  }

  lemma {:induction false} OrderWithin(p: Bytes, w: nat, i: nat, j: nat)
    requires w > 0 && i < Ten(w) && j < Ten(w)
    ensures InOrder(p, w, i, j)
  {
    FormatWithin(i, w);
    FormatWithin(j, w);
    LtPrefix(p, Pad(i, w), Pad(j, w));
    PadOrder(i, j, w);
  }

  /** Zero padding makes byte order numeric order for exactly the numbers that fit the width. */
  lemma {:induction false} OrderIff(p: Bytes, w: nat, bound: nat)
    requires w > 0
    ensures (forall i: nat, j: nat :: i < bound && j < bound ==> InOrder(p, w, i, j)) <==> bound <= Ten(w)
  {
    if bound <= Ten(w) {
      forall i: nat, j: nat | i < bound && j < bound ensures InOrder(p, w, i, j) {
        OrderWithin(p, w, i, j);
      }
    } else {
      var n := Ten(w);
      assert n == 10 * Ten(w - 1);
      FormatBreaks(n, n - 1, w);
      LtPrefix(p, Format(n, w), Format(n - 1, w));
      assert !InOrder(p, w, n, n - 1);
    }
  }

  /** Keys of indices below bound sort as the indices do exactly when bound is at most 10^12. */
  lemma {:induction false} MixedOrderIff(bound: nat)
    ensures (forall i: nat, j: nat :: i < bound && j < bound ==> (Lt(MixedKey(i), MixedKey(j)) <==> i < j)) <==> bound <= Ten(12)
  {
    var p := [107, 58];
    OrderIff(p, 12, bound);
    forall i: nat, j: nat ensures InOrder(p, 12, i, j) <==> (Lt(MixedKey(i), MixedKey(j)) <==> i < j) {
    }
  }

  lemma {:induction false} HeadDigit(n: nat, d: nat, t: nat)
    requires d * (10 * t) <= n < (d + 1) * (10 * t)
    ensures d * t <= n / 10 < (d + 1) * t
  {
    var a, b := d * t, (d + 1) * t;
    assert d * (10 * t) == 10 * a && (d + 1) * (10 * t) == 10 * b;
  }

  lemma {:induction false} PadHead(n: nat, w: nat, d: nat)
    requires d < 10 && d * Ten(w) <= n < (d + 1) * Ten(w)
    ensures Pad(n, w + 1)[0] == 48 + d
    decreases w
  {
    if w > 0 {
      var t := Ten(w - 1);
      assert Ten(w) == 10 * t;
      HeadDigit(n, d, t);
      PadHead(n / 10, w - 1, d);
    }
  }

  /** The key of i lies in the scan from the key of start to that of start + window. */
  predicate Scanned(start: nat, window: nat, i: nat) {
    !Lt(MixedKey(i), MixedKey(start)) && Lt(MixedKey(i), MixedKey(start + window))
  }

  lemma {:induction false} WindowWithin(start: nat, window: nat, i: nat)
    requires start + window < Ten(12) && i < Ten(12)
    ensures Scanned(start, window, i) <==> start <= i < start + window
  {
    MixedKeyOrder(i, start);
    MixedKeyOrder(i, start + window);
  }

  /** Over a keyspace of so many items, the workload's scans cover exactly the indices in their window,
      exactly when the last window ends below 10^12. */
  lemma {:induction false} WindowExactIff(items: nat, window: nat)
    requires items > 0 && 0 < window <= Ten(11)
    ensures (forall start: nat, i: nat :: start < items && i < items ==> (Scanned(start, window, i) <==> start <= i < start + window))
            <==> items - 1 + window < Ten(12)
  {
    if items - 1 + window < Ten(12) {
      forall start: nat, i: nat | start < items && i < items ensures Scanned(start, window, i) <==> start <= i < start + window {
        WindowWithin(start, window, i);
      }
    } else {
      var n := Ten(12);
      assert n == 10 * Ten(11);
      var start := n - window;
      FormatBreaks(n, start, 12);
      LtPrefix([107, 58], Format(start, 12), Format(n, 12));
      assert !Scanned(start, window, start);
    }
  }

  // ----- prefix ranges -----

  predicate StartsWith(s: Bytes, p: Bytes) { |p| <= |s| && s[..|p|] == p }

  /** From prefix + b up to prefix + (b + 1) lie exactly the strings that start with prefix + b. */
  lemma {:induction false} PrefixRange(p: Bytes, b: Byte, s: Bytes)
    requires b < 255
    ensures !Lt(s, p + [b]) && Lt(s, p + [b + 1]) <==> StartsWith(s, p + [b])
  {
    var lo, hi := p + [b], p + [b + 1];
    LtIff(s, lo);
    LtIff(s, hi);
    LtIff(lo, s);
    if StartsWith(s, lo) {
      assert s[..|p|] == lo[..|p|] == p == hi[..|p|];
      assert s[|p|] == lo[|p|] == b;
      assert LessAt(s, hi, |p|);
      if s != lo { assert LessAt(lo, s, |lo|); }
      LtAsym(lo, s);
    }
    if !Lt(s, lo) && Lt(s, hi) && s != lo {
      var i: nat :| LessAt(s, hi, i);
      var j: nat :| LessAt(lo, s, j);
      BetweenStarts(p, b, s, i, j);
    }
  }

  lemma {:induction false} LtAsym(a: Bytes, b: Bytes)
    ensures !(Lt(a, b) && Lt(b, a)) && !Lt(a, a)
  {
    KeyCmpTotalOrder(a, b, a);
    KeyCmpTotalOrder(a, a, a);
  }

  lemma {:induction false} BetweenStarts(p: Bytes, b: Byte, s: Bytes, i: nat, j: nat)
    requires b < 255 && LessAt(s, p + [b + 1], i) && LessAt(p + [b], s, j)
    ensures StartsWith(s, p + [b])
  {
    var lo, hi := p + [b], p + [b + 1];
    Agree(s, hi, i);
    Agree(lo, s, j);
    assert j >= |p|;
    assert s[..|p|] == p;
    assert j == |p| ==> i <= |p|;
    assert s[|p|] == b;
  }

  lemma {:induction false} Agree(a: Bytes, b: Bytes, i: nat)
    requires LessAt(a, b, i)
    ensures forall k :: 0 <= k < i ==> a[k] == b[k]
  {
    forall k | 0 <= k < i ensures a[k] == b[k] {
      assert a[k] == a[..i][k] && b[k] == b[..i][k];
    }
  }

  lemma {:induction false} FormatDigits(n: nat, w: nat, k: nat)
    requires k < |Format(n, w)|
    ensures 48 <= Format(n, w)[k] <= 57
  {
    PadDigits(n, if Width(n) < w then w else Width(n), k);
  }

  lemma {:induction false} PadDigits(n: nat, w: nat, k: nat)
    requires k < w
    ensures 48 <= Pad(n, w)[k] <= 57
    decreases w
  {
    if k < w - 1 { PadDigits(n / 10, w - 1, k); }
  }

  lemma {:induction false} LineKeyAt(uid: nat, iid: nat, k: nat)
    requires k <= |Format(uid, 10)|
    ensures |CartLo(uid)| == |Format(uid, 10)| + 5 <= |LineKey(uid, iid)|
    ensures CartLo(uid)[2 + k] == LineKey(uid, iid)[2 + k] == if k < |Format(uid, 10)| then Format(uid, 10)[k] else 58
  {
  }

  /** One user's part is a prefix of another's key only when the users are the same. */
  lemma {:induction false} UserPrefix(uid: nat, other: nat, iid: nat)
    requires StartsWith(LineKey(other, iid), CartLo(uid))
    ensures other == uid
  {
    var s, p := LineKey(other, iid), CartLo(uid);
    var a, b := Format(uid, 10), Format(other, 10);
    var n := if |a| < |b| then |a| else |b|;
    forall k | 0 <= k <= n ensures (if k < |a| then a[k] else 58) == (if k < |b| then b[k] else 58) {
      LineKeyAt(uid, iid, k);
      LineKeyAt(other, iid, k);
      assert s[2 + k] == s[..|p|][2 + k];
    }
    if |a| < |b| { FormatDigits(other, 10, n); }
    if |b| < |a| { FormatDigits(uid, 10, n); }
    assert a == b;
    FormatInjective(uid, other, 10);
  }

  /** The cart's range holds exactly one user's lines: every line of that user, and no other byte
      string than those starting with the user's part. */
  lemma {:induction false} CartRangeExact(uid: nat, other: nat, iid: nat, s: Bytes)
    ensures !Lt(s, CartLo(uid)) && Lt(s, CartHi(uid)) <==> StartsWith(s, CartLo(uid))
    ensures !Lt(LineKey(other, iid), CartLo(uid)) && Lt(LineKey(other, iid), CartHi(uid)) <==> other == uid
  {
    PrefixRange(UserPart(uid), 58, s);
    PrefixRange(UserPart(uid), 58, LineKey(other, iid));
    if other == uid {
      assert LineKey(uid, iid)[..|CartLo(uid)|] == CartLo(uid);
    } else if StartsWith(LineKey(other, iid), CartLo(uid)) {
      UserPrefix(uid, other, iid);
    }
  }

  /** And within it the lines sort by item exactly for item ids below 10^10. */
  lemma {:induction false} CartOrderIff(uid: nat, bound: nat)
    ensures (forall a: nat, b: nat :: a < bound && b < bound ==> (Lt(LineKey(uid, a), LineKey(uid, b)) <==> a < b)) <==> bound <= Ten(10)
  {
    var p := CartLo(uid);
    OrderIff(p, 10, bound);
    forall a: nat, b: nat ensures InOrder(p, 10, a, b) <==> (Lt(LineKey(uid, a), LineKey(uid, b)) <==> a < b) {
    }
  }
}
