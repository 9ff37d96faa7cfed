/** Sequences as multisets of their elements. */
module Sequences {
  /** A permutation of a holds a's first element somewhere, and the rest around it. */
  lemma {:induction false} RemoveBoth<T>(a: seq<T>, b: seq<T>) returns (b1: seq<T>, b2: seq<T>)
    requires a != [] && multiset(a) == multiset(b)
    ensures b == b1 + [a[0]] + b2 && multiset(a[1..]) == multiset(b1 + b2)
  {
    var x := a[0];
    assert a == [x] + a[1..];
    assert x in multiset(b);
    var i :| 0 <= i < |b| && b[i] == x;
    b1, b2 := b[..i], b[i + 1..];
    assert b == b1 + [x] + b2;
    assert multiset(b) == multiset(b1) + multiset([x]) + multiset(b2);
    assert multiset(a) == multiset([x]) + multiset(a[1..]);
    assert multiset(a[1..]) == multiset(a) - multiset([x]);
    assert multiset(b1 + b2) == multiset(b1) + multiset(b2) == multiset(b) - multiset([x]);
  }
}
