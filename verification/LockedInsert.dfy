/** A writer of the locked skiplist putting a node in, link by link. */
module LockedInsert {
  import opened Wrappers
  import opened SortedRows
  import opened Levels
  import opened MapSpec
  import opened LockedSkipList

  // ----- the writer: searching -----

  /** update holds the true predecessors of position t on the levels from `from` up. */
  ghost predicate Path(v: View, from: nat, level: nat, update: seq<Addr>, pred: seq<nat>, t: nat)
    requires |v.order| == |v.hts|
  {
    && |update| == |pred| == MAX_LEVEL && level <= MAX_LEVEL
    && (forall j :: from <= j < level ==> IsPred(v.hts, pred[j], j, t) && update[j] == v.order[pred[j]])
  }

  ghost predicate HasPath(v: View, from: nat, level: nat, update: seq<Addr>, t: nat)
    requires |v.order| == |v.hts|
  {
    exists pred :: Path(v, from, level, update, pred, t)
  }

  lemma {:induction false} PathDown(v: View, i: nat, level: nat, update: seq<Addr>, t: nat, x: Addr, pos: nat)
    requires |v.order| == |v.hts| && 0 < i <= level
    requires HasPath(v, i, level, update, t) && IsPred(v.hts, pos, i - 1, t) && x == v.order[pos]
    ensures i <= |update| && HasPath(v, i - 1, level, update[i - 1 := x], t)
  {
    var pred :| Path(v, i, level, update, pred, t);
    assert Path(v, i - 1, level, update[i - 1 := x], pred[i - 1 := pos], t);
  }

  // ----- the writer: linking a new node in -----

  ghost predicate HalfRouted(c: map<Addr, Cell>, v: View, n: Addr, j: nat, pred: seq<nat>, p: nat)
    requires |v.order| == |v.hts| == |v.rows| + 1 && p < |v.order| && Placed(c, v, p) && j <= |pred|
  {
    forall i :: 0 <= i < v.hts[p] ==>
      c[v.order[p]].next[i] == if i < j && p == pred[i] then Some(n) else At(v.order, Succ(v.hts, p, i))
  }

  /** The node n is linked in on the levels below j. */
  ghost predicate HalfIn(m: Mem, v: View, row: Row, n: Addr, j: nat, update: seq<Addr>, pred: seq<nat>, t: nat)
  {
    && Shape(v, m.head, m.level) && m.count == |v.rows|
    && n in m.cells && n !in v.order && m.cells.Keys == AddrSet(v.order) + {n}
    && Row(m.cells[n].key, m.cells[n].val) == row
    && 1 <= |m.cells[n].next| <= m.level && j <= |m.cells[n].next|
    && (Tight(v.hts, m.level) || |m.cells[n].next| == m.level)
    && 0 < t <= |v.order| && Path(v, 0, m.level, update, pred, t)
    && (forall p :: 0 <= p < |v.order| ==> Placed(m.cells, v, p) && HalfRouted(m.cells, v, n, j, pred, p))
    && (forall i :: 0 <= i < j ==> m.cells[n].next[i] == At(v.order, Succ(v.hts, pred[i], i)))
  }

  lemma {:induction false} LinkOneAt(c: map<Addr, Cell>, c': map<Addr, Cell>, v: View, n: Addr, j: nat, pred: seq<nat>, p: nat)
    requires |v.order| == |v.hts| == |v.rows| + 1 && p < |v.order| && j < |pred| && pred[j] < |v.order|
    requires Placed(c, v, p) && HalfRouted(c, v, n, j, pred, p)
    requires v.order[p] in c' && c'[v.order[p]] ==
      if p == pred[j] && j < v.hts[p] then c[v.order[p]].(next := c[v.order[p]].next[j := Some(n)]) else c[v.order[p]]
    ensures Placed(c', v, p) && HalfRouted(c', v, n, j + 1, pred, p)
  {
  }

  lemma {:induction false} LinkOne(m: Mem, v: View, op: Op, row: Row, n: Addr, j: nat, update: seq<Addr>, pred: seq<nat>, t: nat)
    requires HalfIn(m, v, row, n, j, update, pred, t) && j < |m.cells[n].next|
    ensures var r := LinkStep(m, op, n, j, update);
            r.1 == Linking(op, n, j + 1, update) && HalfIn(r.0, v, row, n, j + 1, update, pred, t)
  {
    var q := pred[j];
    assert IsPred(v.hts, q, j, t) && Placed(m.cells, v, q) && HalfRouted(m.cells, v, n, j, pred, q);
    var m' := LinkStep(m, op, n, j, update).0;
    forall p | 0 <= p < |v.order| ensures Placed(m'.cells, v, p) && HalfRouted(m'.cells, v, n, j + 1, pred, p) {
      assert p != q ==> v.order[p] != v.order[q];
      LinkOneAt(m.cells, m'.cells, v, n, j, pred, p);
    }
  }

  /** The list with the node n, of height l and holding row, inserted at position t. */
  function Inserted(v: View, row: Row, n: Addr, l: nat, t: nat): View
    requires |v.order| == |v.hts| == |v.rows| + 1 && 0 < t <= |v.order|
  {
    View(v.order[..t] + [n] + v.order[t..], Insert(v.hts, t, l), v.rows[..t - 1] + [row] + v.rows[t - 1..])
  }

  lemma {:induction false} InsertTarget(order: seq<Addr>, h: seq<nat>, n: Addr, l: nat, t: nat, pred: seq<nat>, q: nat, i: nat)
    requires |order| == |h| && t <= |h| && l <= |pred|
    requires i < l ==> IsPred(h, pred[i], i, t)
    requires q < |h| && i < h[q]
    ensures At(order[..t] + [n] + order[t..], Succ(Insert(h, t, l), Up(q, t), i)) ==
            if i < l && q == pred[i] then Some(n) else At(order, Succ(h, q, i))
  {
    if i < l {
      SuccInsert(h, t, l, pred[i], q, i);
    } else {
      SuccInsertAbove(h, t, l, q, i);
    }
  }

  lemma {:induction false} InsertOwnTarget(order: seq<Addr>, h: seq<nat>, n: Addr, l: nat, t: nat, p: nat, i: nat)
    requires |order| == |h| && IsPred(h, p, i, t)
    ensures At(order[..t] + [n] + order[t..], Succ(Insert(h, t, l), t, i)) == At(order, Succ(h, p, i))
  {
    SuccInsert(h, t, l, p, p, i);
  }

  lemma {:induction false} InsertedAt(c: map<Addr, Cell>, v: View, row: Row, n: Addr, l: nat, t: nat, pred: seq<nat>, q: nat)
    requires |v.order| == |v.hts| == |v.rows| + 1 && 0 < t <= |v.order| && l <= |pred|
    requires forall i :: 0 <= i < l ==> IsPred(v.hts, pred[i], i, t)
    requires q < |v.order| && Placed(c, v, q) && HalfRouted(c, v, n, l, pred, q)
    ensures var v' := Inserted(v, row, n, l, t); Placed(c, v', Up(q, t)) && Routed(c, v', Up(q, t))
  {
    var v' := Inserted(v, row, n, l, t);
    var p := Up(q, t);
    assert v'.order[p] == v.order[q] && v'.hts[p] == v.hts[q];
    assert q > 0 ==> v'.rows[p - 1] == v.rows[q - 1];
    forall i | 0 <= i < v'.hts[p] ensures c[v'.order[p]].next[i] == At(v'.order, Succ(v'.hts, p, i)) {
      InsertTarget(v.order, v.hts, n, l, t, pred, q, i);
    }
  }

  lemma {:induction false} InsertedNew(c: map<Addr, Cell>, v: View, n: Addr, t: nat, pred: seq<nat>)
    requires |v.order| == |v.hts| == |v.rows| + 1 && 0 < t <= |v.order|
    requires n in c && |c[n].next| <= |pred|
    requires forall i :: 0 <= i < |c[n].next| ==>
      IsPred(v.hts, pred[i], i, t) && c[n].next[i] == At(v.order, Succ(v.hts, pred[i], i))
    ensures var v' := Inserted(v, Row(c[n].key, c[n].val), n, |c[n].next|, t); Placed(c, v', t) && Routed(c, v', t)
  {
    var l := |c[n].next|;
    var v' := Inserted(v, Row(c[n].key, c[n].val), n, l, t);
    forall i | 0 <= i < l ensures c[n].next[i] == At(v'.order, Succ(v'.hts, t, i)) {
      InsertOwnTarget(v.order, v.hts, n, l, t, pred[i], i);
    }
  }

  lemma {:induction false} InsertedDistinct(order: seq<Addr>, n: Addr, t: nat)
    requires Distinct(order) && n !in order && t <= |order|
    ensures Distinct(order[..t] + [n] + order[t..])
    ensures AddrSet(order[..t] + [n] + order[t..]) == AddrSet(order) + {n}
  {
    var o := order[..t] + [n] + order[t..];
    assert order == order[..t] + order[t..];
    forall p, q | 0 <= p < q < |o| ensures o[p] != o[q] {
      assert p != t ==> o[p] == order[if p < t then p else p - 1];
      assert q != t ==> o[q] == order[if q < t then q else q - 1];
    }
  }

  lemma {:induction false} InsertedTight(h: seq<nat>, t: nat, l: nat, level: nat)
    requires 0 < t <= |h| && (Tight(h, level) || l == level)
    ensures Tight(Insert(h, t, l), level)
  {
    var h' := Insert(h, t, l);
    assert h'[t] == l;
    if l != level && level != 1 {
      var p :| 0 < p < |h| && h[p] == level;
      assert h'[Up(p, t)] == level;
    }
  }

  /** Every level of n is linked in, and n links on as its predecessors did. */
  ghost predicate LinkedIn(c: map<Addr, Cell>, v: View, n: Addr, t: nat, pred: seq<nat>) {
    && |v.order| == |v.hts| == |v.rows| + 1 && 0 < t <= |v.order| && n in c && |c[n].next| <= |pred|
    && (forall p :: 0 <= p < |v.order| ==> Placed(c, v, p) && HalfRouted(c, v, n, |c[n].next|, pred, p))
    && (forall i :: 0 <= i < |c[n].next| ==>
          IsPred(v.hts, pred[i], i, t) && c[n].next[i] == At(v.order, Succ(v.hts, pred[i], i)))
  }

  lemma {:induction false} LinkedAt(c: map<Addr, Cell>, v: View, n: Addr, t: nat, pred: seq<nat>, p: nat)
    requires LinkedIn(c, v, n, t, pred) && p <= |v.order|
    ensures var v' := Inserted(v, Row(c[n].key, c[n].val), n, |c[n].next|, t); Placed(c, v', p) && Routed(c, v', p)
  {
    if p == t {
      InsertedNew(c, v, n, t, pred);
    } else {
      var q := if p < t then p else p - 1;
      assert Placed(c, v, q) && HalfRouted(c, v, n, |c[n].next|, pred, q);
      InsertedAt(c, v, Row(c[n].key, c[n].val), n, |c[n].next|, t, pred, q);
    }
  }

  /** When every level is linked, the memory is that of the longer list. */
  lemma {:induction false} AllLinked(c: map<Addr, Cell>, v: View, n: Addr, t: nat, pred: seq<nat>)
    requires LinkedIn(c, v, n, t, pred)
    ensures var v' := Inserted(v, Row(c[n].key, c[n].val), n, |c[n].next|, t);
            forall p :: 0 <= p < |v'.order| ==> Placed(c, v', p) && Routed(c, v', p)
  {
    var v' := Inserted(v, Row(c[n].key, c[n].val), n, |c[n].next|, t);
    forall p | 0 <= p < |v'.order| ensures Placed(c, v', p) && Routed(c, v', p) {
      LinkedAt(c, v, n, t, pred, p);
    }
  }

  lemma {:induction false} InsertedShape(v: View, row: Row, n: Addr, l: nat, t: nat, head: Addr, level: nat)
    requires Shape(v, head, level) && n !in v.order && 0 < t <= |v.order| && 1 <= l <= level
    ensures Shape(Inserted(v, row, n, l, t), head, level)
  {
    InsertedDistinct(v.order, n, t);
    var h := Insert(v.hts, t, l);
    forall p | 0 < p < |h| ensures 1 <= h[p] <= level {
      assert p != t ==> h[p] == v.hts[if p < t then p else p - 1];
    }
  }

  lemma {:induction false} LinkDone(m: Mem, v: View, row: Row, n: Addr, j: nat, update: seq<Addr>, pred: seq<nat>, t: nat)
    requires HalfIn(m, v, row, n, j, update, pred, t) && j == |m.cells[n].next|
    ensures Structure(m.(count := m.count + 1), Inserted(v, row, n, j, t))
  {
    InsertedDistinct(v.order, n, t);
    InsertedShape(v, row, n, j, t, m.head, m.level);
    InsertedTight(v.hts, t, j, m.level);
    AllLinked(m.cells, v, n, t, pred);
  }

  lemma {:induction false} RaisedPath(m: Mem, v: View, update: seq<Addr>, height: nat, t: nat)
    requires Shape(v, m.head, m.level) && 0 < t <= |v.order| && HasPath(v, 0, m.level, update, t)
    requires 1 <= height <= MAX_LEVEL
    ensures HasPath(v, 0, NewLevel(m, height), Raised(m, update, height), t)
  {
    var pred :| Path(v, 0, m.level, update, pred, t);
    var pred' := seq(MAX_LEVEL, i requires 0 <= i < MAX_LEVEL => if i < m.level then pred[i] else 0);
    var up, level := Raised(m, update, height), NewLevel(m, height);
    forall i | 0 <= i < level ensures IsPred(v.hts, pred'[i], i, t) && up[i] == v.order[pred'[i]] {
      if i >= m.level { assert Succ(v.hts, 0, i) == |v.hts|; }
    }
    assert Path(v, 0, level, up, pred', t);
  }

  /** A put that found no such key has allocated its node and starts linking. */
  lemma {:induction false} StartLinking(m: Mem, v: View, op: Op, up: seq<Addr>, pred: seq<nat>, t: nat, height: nat, room: Addr)
    requires Structure(m, v) && op.Put? && 0 < t <= |v.order|
    requires 1 <= height <= MAX_LEVEL && room !in m.cells
    requires Path(v, 0, NewLevel(m, height), up, pred, t)
    ensures HalfIn(Allocate(m, op, height, room), v, Row(op.key, op.val), room, 0, up, pred, t)
  {
    var m' := Allocate(m, op, height, room);
    forall p | 0 <= p < |v.order| ensures Placed(m'.cells, v, p) && HalfRouted(m'.cells, v, room, 0, pred, p) {
      assert Placed(m.cells, v, p) && Routed(m.cells, v, p);
    }
  }

  /** A put that found its key replaces the value and no link. */
  lemma {:induction false} Overwrites(m: Mem, v: View, y: Addr, t: nat, w: Value)
    requires Structure(m, v) && 0 < t < |v.order| && y == v.order[t]
    ensures y in m.cells
    ensures Structure(m.(cells := m.cells[y := m.cells[y].(val := w)]),
                      v.(rows := v.rows[t - 1 := Row(v.rows[t - 1].key, w)]))
  {
    assert Placed(m.cells, v, t);
    var c := m.cells[y := m.cells[y].(val := w)];
    var v' := v.(rows := v.rows[t - 1 := Row(v.rows[t - 1].key, w)]);
    forall p | 0 <= p < |v.order| ensures Placed(c, v', p) && Routed(c, v', p) {
      assert Placed(m.cells, v, p) && Routed(m.cells, v, p);
      assert p != t ==> v.order[p] != v.order[t];
    }
  }
}
