/** A writer of the locked skiplist taking a node out, link by link. */
module LockedDelete {
  import opened Wrappers
  import opened Levels
  import opened MapSpec
  import opened LockedSkipList
  import opened LockedInsert

  // ----- the writer: taking a node out -----

  /** Below level j the node at t is bypassed. */
  ghost predicate HalfBypassed(c: map<Addr, Cell>, v: View, t: nat, j: nat, p: nat)
    requires |v.order| == |v.hts| == |v.rows| + 1 && p < |v.order| && t < |v.order| && Placed(c, v, p)
  {
    forall i :: 0 <= i < v.hts[p] ==>
      c[v.order[p]].next[i] ==
      At(v.order, if i < j && p != t && Succ(v.hts, p, i) == t then Succ(v.hts, t, i) else Succ(v.hts, p, i))
  }

  ghost predicate HalfOut(m: Mem, v: View, y: Addr, j: nat, t: nat) {
    && Shape(v, m.head, m.level) && m.count == |v.rows|
    && m.cells.Keys == AddrSet(v.order)
    && 0 < t < |v.order| && v.order[t] == y
    && BypassedBelow(m.cells, v, t, j)
  }

  ghost predicate BypassedBelow(c: map<Addr, Cell>, v: View, t: nat, j: nat)
    requires |v.order| == |v.hts| == |v.rows| + 1 && t < |v.order|
  {
    forall p :: 0 <= p < |v.order| ==> BypassedAt(c, v, t, j, p)
  }

  ghost predicate BypassedAt(c: map<Addr, Cell>, v: View, t: nat, j: nat, p: nat)
    requires |v.order| == |v.hts| == |v.rows| + 1 && p < |v.order| && t < |v.order|
  {
    Placed(c, v, p) && HalfBypassed(c, v, t, j, p)
  }

  lemma {:induction false} StartUnlinking(m: Mem, v: View, y: Addr, t: nat)
    requires Structure(m, v) && 0 < t < |v.order| && v.order[t] == y
    ensures HalfOut(m, v, y, 0, t)
  {
    forall p | 0 <= p < |v.order| ensures BypassedAt(m.cells, v, t, 0, p) {
      assert Placed(m.cells, v, p) && Routed(m.cells, v, p);
    }
  }

  lemma {:induction false} UnlinkOneAt(c: map<Addr, Cell>, c': map<Addr, Cell>, v: View, t: nat, level: nat, j: nat, pred: seq<nat>, p: nat)
    requires |v.order| == |v.hts| == |v.rows| + 1 && p < |v.order| && 0 < t < |v.order| && v.hts[t] <= level
    requires j < level <= |pred| && forall i :: 0 <= i < level ==> IsPred(v.hts, pred[i], i, t)
    requires BypassedAt(c, v, t, j, p)
    requires v.order[p] in c' && c'[v.order[p]] ==
      if p == pred[j] && j < v.hts[p] && Succ(v.hts, p, j) == t
      then c[v.order[p]].(next := c[v.order[p]].next[j := At(v.order, Succ(v.hts, t, j))]) else c[v.order[p]]
    ensures BypassedAt(c', v, t, j + 1, p)
  {
    assert IsPred(v.hts, pred[j], j, t);
    if p != t && j < v.hts[p] && Succ(v.hts, p, j) == t {
      OnlyPredSees(v.hts, level, pred, t, p, j);
    }
  }

  lemma {:induction false} UnlinkReads(m: Mem, v: View, y: Addr, j: nat, q: nat, t: nat)
    requires HalfOut(m, v, y, j, t) && IsPred(v.hts, q, j, t)
    ensures CanRead(m, v.order[q], j)
    ensures m.cells[v.order[q]].next[j] == Some(y) <==> Succ(v.hts, q, j) == t
    ensures Succ(v.hts, q, j) == t ==> CanRead(m, y, j) && m.cells[y].next[j] == At(v.order, Succ(v.hts, t, j))
  {
    assert BypassedAt(m.cells, v, t, j, q);
    assert BypassedAt(m.cells, v, t, j, t);
    var s := Succ(v.hts, q, j);
    assert s < |v.order| && s != t ==> v.order[s] != v.order[t];
  }

  lemma {:induction false} UnlinkOne(m: Mem, v: View, op: Op, y: Addr, j: nat, update: seq<Addr>, pred: seq<nat>, t: nat)
    requires HalfOut(m, v, y, j, t) && Path(v, 0, m.level, update, pred, t) && j < m.level
    ensures var r := UnlinkStep(m, op, y, j, update);
            r.1 == Unlinking(op, y, j + 1, update) && HalfOut(r.0, v, y, j + 1, t) && r.0.level == m.level
  {
    assert IsPred(v.hts, pred[j], j, t);
    UnlinkReads(m, v, y, j, pred[j], t);
    var m' := UnlinkStep(m, op, y, j, update).0;
    UnlinkedCells(m.cells, m'.cells, v, m.level, j, pred, t);
    assert m'.cells.Keys == m.cells.Keys;
  }

  /** Node x at position q now links past the node at t on level j, if it linked to it. */
  ghost predicate Relinked(c: map<Addr, Cell>, c': map<Addr, Cell>, v: View, j: nat, x: Addr, q: nat, t: nat)
    requires |v.order| == |v.hts| && q < |v.hts| && t < |v.hts|
  {
    && x in c && j < |c[x].next|
    && c' == if Succ(v.hts, q, j) == t then c[x := c[x].(next := c[x].next[j := At(v.order, Succ(v.hts, t, j))])] else c
  }

  lemma {:induction false} UnlinkedCells(c: map<Addr, Cell>, c': map<Addr, Cell>, v: View, level: nat, j: nat, pred: seq<nat>, t: nat)
    requires |v.order| == |v.hts| == |v.rows| + 1 && 0 < t < |v.order| && v.hts[t] <= level && Distinct(v.order)
    requires j < level <= |pred| && forall i :: 0 <= i < level ==> IsPred(v.hts, pred[i], i, t)
    requires BypassedBelow(c, v, t, j)
    requires pred[j] < |v.order| && Relinked(c, c', v, j, v.order[pred[j]], pred[j], t)
    ensures BypassedBelow(c', v, t, j + 1)
  {
    var q, j' := pred[j], j + 1;
    forall p | 0 <= p < |v.order| ensures BypassedAt(c', v, t, j', p) {
      assert BypassedAt(c, v, t, j, p) && (p != q ==> v.order[p] != v.order[q]);
      UnlinkOneAt(c, c', v, t, level, j, pred, p);
    }
  }

  /** Every level is bypassed, and nothing else reaches above lvl. */
  ghost predicate Out(m: Mem, v: View, y: Addr, lvl: nat, t: nat) {
    && HalfOut(m, v, y, m.level, t) && 1 <= lvl <= m.level
    && forall p :: 0 < p < |v.hts| && p != t ==> v.hts[p] <= lvl
  }

  lemma {:induction false} HeadLink(m: Mem, v: View, y: Addr, lvl: nat, t: nat)
    requires Out(m, v, y, lvl, t)
    ensures CanRead(m, m.head, lvl - 1)
    ensures m.cells[m.head].next[lvl - 1].None? ==> forall p :: 0 < p < |v.hts| && p != t ==> v.hts[p] < lvl
    ensures m.cells[m.head].next[lvl - 1].Some? ==> exists p :: 0 < p < |v.hts| && p != t && v.hts[p] == lvl
  {
    assert BypassedAt(m.cells, v, t, m.level, 0);
    var i := lvl - 1;
    var s := Succ(v.hts, 0, i);
    var s' := if s == t then Succ(v.hts, t, i) else s;
    assert m.cells[m.head].next[i] == At(v.order, s');
    if s' < |v.order| {
      assert v.hts[s'] > i && s' != t;
    }
  }

  function Deleted(v: View, t: nat): View
    requires |v.order| == |v.hts| == |v.rows| + 1 && 0 < t < |v.order|
  {
    View(v.order[..t] + v.order[t + 1..], Delete(v.hts, t), v.rows[..t - 1] + v.rows[t..])
  }

  lemma {:induction false} DeleteTarget(order: seq<Addr>, h: seq<nat>, t: nat, q: nat, i: nat)
    requires |order| == |h| && t < |h| && q < |h| && q != t
    ensures At(order[..t] + order[t + 1..], Succ(Delete(h, t), Down(q, t), i)) ==
            At(order, if Succ(h, q, i) == t then Succ(h, t, i) else Succ(h, q, i))
  {
    SuccDelete(h, t, q, i);
  }

  lemma {:induction false} DeletedAt(c: map<Addr, Cell>, c': map<Addr, Cell>, v: View, t: nat, level: nat, q: nat)
    requires |v.order| == |v.hts| == |v.rows| + 1 && 0 < t < |v.order| && v.hts[t] <= level
    requires q < |v.order| && q != t && Placed(c, v, q) && HalfBypassed(c, v, t, level, q)
    requires v.order[q] in c' && c'[v.order[q]] == c[v.order[q]]
    ensures var v' := Deleted(v, t); var p := if q < t then q else q - 1; Placed(c', v', p) && Routed(c', v', p)
  {
    var v' := Deleted(v, t);
    var p := Down(q, t);
    assert v'.order[p] == v.order[q] && v'.hts[p] == v.hts[q];
    assert q > 0 ==> v'.rows[p - 1] == v.rows[q - 1];
    forall i | 0 <= i < v'.hts[p] ensures c'[v'.order[p]].next[i] == At(v'.order, Succ(v'.hts, p, i)) {
      DeleteTarget(v.order, v.hts, t, q, i);
    }
  }

  lemma {:induction false} DeletedDistinct(order: seq<Addr>, t: nat)
    requires Distinct(order) && t < |order|
    ensures Distinct(order[..t] + order[t + 1..])
    ensures AddrSet(order[..t] + order[t + 1..]) == AddrSet(order) - {order[t]}
  {
    var o := order[..t] + order[t + 1..];
    assert order == order[..t] + [order[t]] + order[t + 1..];
    forall p | 0 <= p < |o| ensures o[p] != order[t] {
      assert o[p] == order[if p < t then p else p + 1];
    }
    forall p, q | 0 <= p < q < |o| ensures o[p] != o[q] {
      assert o[p] == order[if p < t then p else p + 1];
      assert o[q] == order[if q < t then q else q + 1];
    }
  }

  lemma {:induction false} OneBypassed(c: map<Addr, Cell>, v: View, level: nat, t: nat, p: nat)
    requires |v.order| == |v.hts| == |v.rows| + 1 && 0 < t < |v.order| && v.hts[t] <= level && Distinct(v.order)
    requires BypassedBelow(c, v, t, level) && p < |v.order| - 1
    ensures Placed(c - {v.order[t]}, Deleted(v, t), p) && Routed(c - {v.order[t]}, Deleted(v, t), p)
  {
    var q := if p < t then p else p + 1;
    assert BypassedAt(c, v, t, level, q);
    assert v.order[q] != v.order[t];
    DeletedAt(c, c - {v.order[t]}, v, t, level, q);
  }

  lemma {:induction false} AllBypassed(c: map<Addr, Cell>, v: View, level: nat, t: nat)
    requires |v.order| == |v.hts| == |v.rows| + 1 && 0 < t < |v.order| && v.hts[t] <= level && Distinct(v.order)
    requires BypassedBelow(c, v, t, level)
    ensures var v' := Deleted(v, t);
            forall p :: 0 <= p < |v'.order| ==> Placed(c - {v.order[t]}, v', p) && Routed(c - {v.order[t]}, v', p)
  {
    var v' := Deleted(v, t);
    forall p | 0 <= p < |v'.order| ensures Placed(c - {v.order[t]}, v', p) && Routed(c - {v.order[t]}, v', p) {
      OneBypassed(c, v, level, t, p);
    }
  }

  lemma {:induction false} FreedTight(m: Mem, v: View, y: Addr, lvl: nat, t: nat)
    requires Out(m, v, y, lvl, t)
    requires lvl > 1 ==> CanRead(m, m.head, lvl - 1) && m.cells[m.head].next[lvl - 1].Some?
    ensures Tight(Delete(v.hts, t), lvl)
  {
    if lvl > 1 {
      HeadLink(m, v, y, lvl, t);
      var p :| 0 < p < |v.hts| && p != t && v.hts[p] == lvl;
      assert Delete(v.hts, t)[Down(p, t)] == lvl;
    }
  }

  /** At the right level the node is freed, and the memory is that of the shorter list. */
  lemma {:induction false} Freed(m: Mem, v: View, y: Addr, lvl: nat, t: nat)
    requires Out(m, v, y, lvl, t)
    requires lvl > 1 ==> CanRead(m, m.head, lvl - 1) && m.cells[m.head].next[lvl - 1].Some?
    ensures Structure(Mem(m.cells - {y}, m.head, lvl, m.count - 1), Deleted(v, t))
  {
    DeletedDistinct(v.order, t);
    AllBypassed(m.cells, v, m.level, t);
    FreedTight(m, v, y, lvl, t);
    assert (m.cells - {y}).Keys == AddrSet(v.order) - {y};
    assert forall p :: 0 < p < |v.hts| - 1 ==> Delete(v.hts, t)[p] == v.hts[if p < t then p else p + 1];
  }
}
