/** The combinatorics of a skiplist's levels, on heights alone.
    h[0] is the head's height and h[p] the height of the p-th node of level 0;
    a node takes part in level i exactly when its height exceeds i. */
module Levels {
  /** The position after p of the next node taking part in level i, or |h|. */
  function Succ(h: seq<nat>, p: nat, i: nat): (r: nat)
    requires p < |h|
    ensures p < r <= |h|
    ensures r < |h| ==> h[r] > i
    ensures forall q :: p < q < r ==> h[q] <= i
    decreases |h| - p
  {
    if p + 1 == |h| || h[p + 1] > i then p + 1 else Succ(h, p + 1, i)
  }

  lemma {:induction false} SuccUnique(h: seq<nat>, p: nat, i: nat, r: nat)
    requires p < r <= |h|
    requires r < |h| ==> h[r] > i
    requires forall q :: p < q < r ==> h[q] <= i
    ensures Succ(h, p, i) == r
  {
  }

  function Insert(h: seq<nat>, at: nat, l: nat): (h': seq<nat>)
    requires at <= |h|
  {
    h[..at] + [l] + h[at..]
  }

  function Delete(h: seq<nat>, at: nat): seq<nat>
    requires at < |h|
  {
    h[..at] + h[at + 1..]
  }

  /** Where a position goes when a node is inserted at, or deleted from, position `at`. */
  function Up(s: nat, at: nat): nat { if s < at then s else s + 1 }
  function Down(s: nat, at: nat): nat { if s <= at then s else s - 1 }

  /** p is the last position before `at` taking part in level i: the link a search for `at` crosses. */
  predicate IsPred(h: seq<nat>, p: nat, i: nat, at: nat) {
    p < at <= |h| && p < |h| && h[p] > i && Succ(h, p, i) >= at
  }

  lemma {:induction false} PredUnique(h: seq<nat>, p: nat, q: nat, i: nat, at: nat)
    requires IsPred(h, p, i, at)
    requires q < at && h[q] > i
    ensures q != p ==> Succ(h, q, i) < at
    ensures q <= p
  {
  }

  /** Inserting a node of height l re-routes, on each level below l, exactly the predecessor's link,
      and gives the new node the link its predecessor had. */
  lemma {:induction false} SuccInsert(h: seq<nat>, at: nat, l: nat, p: nat, q: nat, i: nat)
    requires IsPred(h, p, i, at)
    requires q < |h| && h[q] > i
    ensures Succ(Insert(h, at, l), Up(q, at), i) == if i < l && q == p then at else Up(Succ(h, q, i), at)
    ensures Succ(Insert(h, at, l), at, i) == Up(Succ(h, p, i), at)
  {
    var h' := Insert(h, at, l);
    if q < at {
      PredUnique(h, p, q, i, at);
    }
    SuccUnique(h', at, i, Up(Succ(h, p, i), at));
    SuccUnique(h', Up(q, at), i, if i < l && q == p then at else Up(Succ(h, q, i), at));
  }

  /** On levels the new node does not reach, nothing is re-routed. */
  lemma {:induction false} SuccInsertAbove(h: seq<nat>, at: nat, l: nat, q: nat, i: nat)
    requires q < |h| && at <= |h| && l <= i
    ensures Succ(Insert(h, at, l), Up(q, at), i) == Up(Succ(h, q, i), at)
  {
    SuccUnique(Insert(h, at, l), Up(q, at), i, Up(Succ(h, q, i), at));
  }

  /** Deleting a node makes whoever saw it see what it saw, and changes no other link. */
  lemma {:induction false} SuccDelete(h: seq<nat>, at: nat, q: nat, i: nat)
    requires q < |h| && at < |h| && q != at
    ensures Succ(Delete(h, at), Down(q, at), i) ==
            Down(if Succ(h, q, i) == at then Succ(h, at, i) else Succ(h, q, i), at)
  {
    var s := if Succ(h, q, i) == at then Succ(h, at, i) else Succ(h, q, i);
    SuccUnique(Delete(h, at), Down(q, at), i, Down(s, at));
  }

  /** The node at t is seen, on each level, from its predecessor's link alone. */
  lemma {:induction false} OnlyPredSees(h: seq<nat>, level: nat, pred: seq<nat>, t: nat, q: nat, i: nat)
    requires level <= |pred| && t < |h| && h[t] <= level
    requires forall j :: 0 <= j < level ==> IsPred(h, pred[j], j, t)
    requires q < |h| && i < h[q] && Succ(h, q, i) == t
    ensures i < level && q == pred[i]
  {
    PredUnique(h, pred[i], q, i, t);
  }

  /** What a walk along level i visits after position p. */
  function Walk(h: seq<nat>, p: nat, i: nat): seq<nat>
    requires p < |h|
    decreases |h| - p
  {
    var r := Succ(h, p, i);
    if r == |h| then [] else [r] + Walk(h, r, i)
  }

  /** The positions after p, in order, whose height exceeds i. */
  function Members(h: seq<nat>, p: nat, i: nat): seq<nat>
    requires p < |h|
    decreases |h| - p
  {
    if p + 1 == |h| then []
    else (if h[p + 1] > i then [p + 1] else []) + Members(h, p + 1, i)
  }

  /** Level i holds exactly the nodes with height above i, in level-0 order. */
  lemma {:induction false} WalkIsMembers(h: seq<nat>, p: nat, i: nat)
    requires p < |h|
    ensures Walk(h, p, i) == Members(h, p, i)
    decreases |h| - p
  {
    if p + 1 < |h| {
      WalkIsMembers(h, p + 1, i);
      if h[p + 1] <= i {
        SuccUnique(h, p, i, Succ(h, p + 1, i));
      }
    }
  }

  /** Each level is a sub-list of the one below it. */
  lemma {:induction false} LevelsNest(h: seq<nat>, p: nat, i: nat)
    requires p < |h|
    ensures forall q :: q in Members(h, p, i + 1) ==> q in Members(h, p, i)
    ensures forall q :: q in Members(h, p, i) <==> p < q < |h| && h[q] > i
    decreases |h| - p
  {
    if p + 1 < |h| {
      LevelsNest(h, p + 1, i);
    }
  }
}
