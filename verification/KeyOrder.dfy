/** Byte strings and the order every engine keeps them in (src/bench.h). */
module KeyOrder {
  type Byte = b: int | 0 <= b < 256
  type Bytes = seq<Byte>

  /** memcmp over the first n bytes: the sign is that of the first difference, bytes unsigned. */
  function Memcmp(a: Bytes, b: Bytes, n: nat): int
    requires n <= |a| && n <= |b|
  {
    if n == 0 then 0
    else if a[0] != b[0] then a[0] - b[0]
    else Memcmp(a[1..], b[1..], n - 1)
  }

  function KeyCmp(a: Bytes, b: Bytes): int {
    var n := if |a| < |b| then |a| else |b|;
    var c := Memcmp(a, b, n);
    if c != 0 then c else (if |a| > |b| then 1 else 0) - (if |a| < |b| then 1 else 0)
  }

  predicate Lt(a: Bytes, b: Bytes) {
    KeyCmp(a, b) < 0
  }

  /** Lexicographic order by first difference, with a proper prefix before its extensions. */
  ghost predicate LessAt(a: Bytes, b: Bytes, i: nat) {
    && i <= |a| && i < |b|
    && a[..i] == b[..i]
    && (i == |a| || a[i] < b[i])
  }

  lemma {:induction false} MemcmpFirstDifference(a: Bytes, b: Bytes, n: nat) returns (i: nat)
    requires n <= |a| && n <= |b|
    ensures i <= n && a[..i] == b[..i]
    ensures i == n ==> Memcmp(a, b, n) == 0
    ensures i < n ==> a[i] != b[i] && Memcmp(a, b, n) == (a[i] as int) - (b[i] as int)
  {
    if n == 0 || a[0] != b[0] {
      i := 0;
    } else {
      var j := MemcmpFirstDifference(a[1..], b[1..], n - 1);
      i := j + 1;
      assert a[..i] == [a[0]] + a[1..][..j];
      assert b[..i] == [b[0]] + b[1..][..j];
    }
  }

  lemma {:induction false} LessAtExclusive(a: Bytes, b: Bytes, i: nat, j: nat)
    requires LessAt(a, b, i)
    ensures !LessAt(b, a, j) && a != b
  {
  }

  /** kv_keycmp decides the lexicographic order, in both directions, and equality. */
  lemma {:induction false} KeyCmpIsLexicographic(a: Bytes, b: Bytes)
    ensures KeyCmp(a, b) < 0 <==> exists i :: LessAt(a, b, i)
    ensures KeyCmp(a, b) > 0 <==> exists i :: LessAt(b, a, i)
    ensures KeyCmp(a, b) == 0 <==> a == b
  {
    var n := if |a| < |b| then |a| else |b|;
    var i := MemcmpFirstDifference(a, b, n);
    if a != b {
      assert LessAt(a, b, i) || LessAt(b, a, i);
    } else {
      assert i == n;
    }
    forall p, q | LessAt(a, b, p) ensures !LessAt(b, a, q) && a != b {
      LessAtExclusive(a, b, p, q);
    }
    forall q | LessAt(b, a, q) ensures a != b {
      LessAtExclusive(b, a, q, 0);
    }
  }

  lemma {:induction false} LessAtTransitive(a: Bytes, b: Bytes, c: Bytes, i: nat, j: nat)
    requires LessAt(a, b, i) && LessAt(b, c, j)
    ensures LessAt(a, c, if i < j then i else j)
  {
    var k := if i < j then i else j;
    assert a[..k] == a[..i][..k] && b[..k] == b[..i][..k] && b[..k] == b[..j][..k] && c[..k] == c[..j][..k];
    if i < j {
      assert b[i] == b[..j][i] == c[..j][i] == c[i];
    } else if j < i {
      assert a[j] == a[..i][j] == b[..i][j] == b[j];
    }
  }

  /** A strict total order on byte strings. */
  lemma {:induction false} KeyCmpTotalOrder(a: Bytes, b: Bytes, c: Bytes)
    ensures KeyCmp(a, b) == 0 <==> a == b
    ensures KeyCmp(a, b) < 0 <==> KeyCmp(b, a) > 0
    ensures KeyCmp(a, b) <= 0 && KeyCmp(b, c) <= 0 ==> KeyCmp(a, c) <= 0
    ensures KeyCmp(a, b) < 0 && KeyCmp(b, c) <= 0 ==> KeyCmp(a, c) < 0
    ensures KeyCmp(a, b) <= 0 && KeyCmp(b, c) < 0 ==> KeyCmp(a, c) < 0
  {
    KeyCmpIsLexicographic(a, b);
    KeyCmpIsLexicographic(b, a);
    KeyCmpIsLexicographic(b, c);
    KeyCmpIsLexicographic(a, c);
    if KeyCmp(a, b) < 0 && KeyCmp(b, c) < 0 {
      var i :| LessAt(a, b, i);
      var j :| LessAt(b, c, j);
      LessAtTransitive(a, b, c, i, j);
    }
  }
}
