/** Every step of a writer of the locked skiplist. */
module LockedWriter {
  import opened KeyOrder
  import opened SortedRows
  import opened MapSpec
  import opened LockedSkipList
  import opened LockedInsert
  import opened LockedDelete

  // ----- the writer as a whole -----

  /** v is the list as it was when the writer took the lock. */
  ghost predicate WriterOk(m: Mem, v: View, l: Local) {
    match l
    case Searching(op, x, i, update) => !ReadOnly(op) && Represents(m, v) && SearchOk(v, m.level, op.key, x, i, update)
    case Linking(op, n, j, update) =>
      && op.Put? && Sorted(v.rows) && !Has(v.rows, op.key)
      && LinkingOk(m, v, Row(op.key, op.val), n, j, update, Rank(v.rows, op.key) + 1)
    case Unlinking(op, y, j, update) =>
      && op.Del? && Sorted(v.rows) && Has(v.rows, op.key)
      && j <= m.level && HalfOut(m, v, y, j, Rank(v.rows, op.key) + 1)
      && HasPath(v, 0, m.level, update, Rank(v.rows, op.key) + 1)
    case Shrinking(op, y, lvl) =>
      && op.Del? && Sorted(v.rows) && Has(v.rows, op.key)
      && Out(m, v, y, lvl, Rank(v.rows, op.key) + 1)
    case Written(op, ans) =>
      !ReadOnly(op) && ans == Reply(v.rows, op) && Holds(m, After(v.rows, op))
    case _ => false
  }

  /** The search stands at a node that can still be the predecessor, and update has those above level i. */
  ghost predicate SearchOk(v: View, level: nat, k: Bytes, x: Addr, i: nat, update: seq<Addr>)
    requires |v.order| == |v.hts|
  {
    StandsSomewhere(v, level, Rank(v.rows, k) + 1, x, i) && HasPath(v, i, level, update, Rank(v.rows, k) + 1)
  }

  ghost predicate LinkingOk(m: Mem, v: View, row: Row, n: Addr, j: nat, update: seq<Addr>, t: nat) {
    exists pred :: HalfIn(m, v, row, n, j, update, pred, t)
  }

  /** The memory holds these rows. */
  ghost predicate Holds(m: Mem, rows: seq<Row>) {
    exists v: View :: Represents(m, v) && v.rows == rows
  }

  lemma {:induction false} SearchMoves(m: Mem, v: View, k: Bytes, x: Addr, i: nat, update: seq<Addr>)
    requires Represents(m, v) && i > 0 && SearchOk(v, m.level, k, x, i, update)
    ensures match Probe(m, k, x, i - 1)
            case Crash => false
            case Onward(y) => SearchOk(v, m.level, k, y, i, update)
            case Below => i <= |update| && SearchOk(v, m.level, k, x, i - 1, update[i - 1 := x])
  {
    var t := Rank(v.rows, k) + 1;
    var pos :| Standing(v, m.level, t, x, i, pos);
    ProbeMoves(m, v, k, x, i, pos);
    if Probe(m, k, x, i - 1).Below? {
      PathDown(v, i, m.level, update, t, x, pos);
    }
  }

  lemma {:induction false} SearchingKeepsOk(m: Mem, v: View, l: Local, height: nat, room: Addr)
    requires l.Searching? && l.i > 0 && WriterOk(m, v, l)
    ensures var r := WriterStep(m, l, height, room); r.0 == m && WriterOk(m, v, r.1)
  {
    SearchMoves(m, v, l.op.key, l.x, l.i, l.update);
  }

  /** The put's key is there: its value is replaced. */
  lemma {:induction false} PutReplaces(m: Mem, v: View, op: Op)
    requires op.Put? && Represents(m, v) && Has(v.rows, op.key)
    ensures var y := v.order[Rank(v.rows, op.key) + 1];
            y in m.cells && Holds(m.(cells := m.cells[y := m.cells[y].(val := op.val)]), After(v.rows, op))
  {
    var t := Rank(v.rows, op.key) + 1;
    Overwrites(m, v, v.order[t], t, op.val);
    UpsertSorted(v.rows, op.key, op.val);
    var v' := v.(rows := v.rows[t - 1 := Row(v.rows[t - 1].key, op.val)]);
    assert v'.rows == Upsert(v.rows, op.key, op.val);
    assert Represents(m.(cells := m.cells[v.order[t] := m.cells[v.order[t]].(val := op.val)]), v');
  }

  /** It is not there: a node is allocated and linking starts. */
  lemma {:induction false} PutAllocates(m: Mem, v: View, op: Op, update: seq<Addr>, height: nat, room: Addr)
    requires op.Put? && Represents(m, v) && HasPath(v, 0, m.level, update, Rank(v.rows, op.key) + 1)
    requires 1 <= height <= MAX_LEVEL && room !in m.cells
    ensures LinkingOk(Allocate(m, op, height, room), v, Row(op.key, op.val), room, 0, Raised(m, update, height),
                      Rank(v.rows, op.key) + 1)
  {
    var t, up := Rank(v.rows, op.key) + 1, Raised(m, update, height);
    RaisedPath(m, v, update, height, t);
    var pred :| Path(v, 0, NewLevel(m, height), up, pred, t);
    StartLinking(m, v, op, up, pred, t, height, room);
  }

  lemma {:induction false} PutDecides(m: Mem, v: View, op: Op, x: Addr, update: seq<Addr>, height: nat, room: Addr)
    requires op.Put? && WriterOk(m, v, Searching(op, x, 0, update))
    requires 1 <= height <= MAX_LEVEL && room !in m.cells
    ensures var r := Decide(m, op, x, update, height, room); WriterOk(r.0, v, r.1)
  {
    var t := Rank(v.rows, op.key) + 1;
    var pos :| Standing(v, m.level, t, x, 0, pos);
    ArriveAt(m, v, t, x, pos);
    if t < |v.order| { FoundIffHas(v, m.cells, op.key); }
    if Has(v.rows, op.key) {
      PutReplaces(m, v, op);
    } else {
      PutAllocates(m, v, op, update, height, room);
    }
  }

  lemma {:induction false} DelDecides(m: Mem, v: View, op: Op, x: Addr, update: seq<Addr>, height: nat, room: Addr)
    requires op.Del? && WriterOk(m, v, Searching(op, x, 0, update))
    ensures var r := Decide(m, op, x, update, height, room); WriterOk(r.0, v, r.1)
  {
    var t := Rank(v.rows, op.key) + 1;
    var pos :| Standing(v, m.level, t, x, 0, pos);
    ArriveAt(m, v, t, x, pos);
    if t < |v.order| { FoundIffHas(v, m.cells, op.key); }
    if Has(v.rows, op.key) {
      StartUnlinking(m, v, v.order[t], t);
    } else {
      assert Represents(m, v) && v.rows == After(v.rows, op);
    }
  }

  lemma {:induction false} LinkGoesOn(m: Mem, v: View, op: Op, row: Row, n: Addr, j: nat, update: seq<Addr>, t: nat)
    requires LinkingOk(m, v, row, n, j, update, t) && j < |m.cells[n].next|
    ensures var r := LinkStep(m, op, n, j, update);
            r.1 == Linking(op, n, j + 1, update) && LinkingOk(r.0, v, row, n, j + 1, update, t)
  {
    var pred :| HalfIn(m, v, row, n, j, update, pred, t);
    LinkOne(m, v, op, row, n, j, update, pred, t);
  }

  lemma {:induction false} LinkEnds(m: Mem, v: View, op: Op, n: Addr, j: nat, update: seq<Addr>)
    requires op.Put? && Sorted(v.rows) && !Has(v.rows, op.key)
    requires LinkingOk(m, v, Row(op.key, op.val), n, j, update, Rank(v.rows, op.key) + 1) && j == |m.cells[n].next|
    ensures Holds(m.(count := m.count + 1), After(v.rows, op))
  {
    var t, row := Rank(v.rows, op.key) + 1, Row(op.key, op.val);
    var pred :| HalfIn(m, v, row, n, j, update, pred, t);
    LinkDone(m, v, row, n, j, update, pred, t);
    UpsertSorted(v.rows, op.key, op.val);
    assert Represents(m.(count := m.count + 1), Inserted(v, row, n, j, t));
  }

  lemma {:induction false} LinkingKeepsOk(m: Mem, v: View, l: Local)
    requires l.Linking? && WriterOk(m, v, l)
    ensures var r := LinkStep(m, l.op, l.n, l.j, l.update); WriterOk(r.0, v, r.1)
  {
    if l.j < |m.cells[l.n].next| {
      LinkGoesOn(m, v, l.op, Row(l.op.key, l.op.val), l.n, l.j, l.update, Rank(v.rows, l.op.key) + 1);
    } else {
      LinkEnds(m, v, l.op, l.n, l.j, l.update);
    }
  }

  lemma {:induction false} UnlinkingKeepsOk(m: Mem, v: View, l: Local)
    requires l.Unlinking? && WriterOk(m, v, l)
    ensures var r := UnlinkStep(m, l.op, l.y, l.j, l.update); WriterOk(r.0, v, r.1)
  {
    var t := Rank(v.rows, l.op.key) + 1;
    if l.j < m.level {
      var pred :| Path(v, 0, m.level, l.update, pred, t);
      UnlinkOne(m, v, l.op, l.y, l.j, l.update, pred, t);
    }
  }

  lemma {:induction false} FreeingHolds(m: Mem, v: View, op: Op, y: Addr, lvl: nat)
    requires op.Del? && Sorted(v.rows) && Has(v.rows, op.key) && Out(m, v, y, lvl, Rank(v.rows, op.key) + 1)
    requires lvl > 1 ==> CanRead(m, m.head, lvl - 1) && m.cells[m.head].next[lvl - 1].Some?
    ensures Holds(Mem(m.cells - {y}, m.head, lvl, m.count - 1), After(v.rows, op))
  {
    var t := Rank(v.rows, op.key) + 1;
    Freed(m, v, y, lvl, t);
    RemoveSorted(v.rows, op.key);
    assert Represents(Mem(m.cells - {y}, m.head, lvl, m.count - 1), Deleted(v, t));
  }

  lemma {:induction false} ShrinkingKeepsOk(m: Mem, v: View, l: Local)
    requires l.Shrinking? && WriterOk(m, v, l)
    ensures var r := ShrinkStep(m, l.op, l.y, l.lvl); WriterOk(r.0, v, r.1)
  {
    var t := Rank(v.rows, l.op.key) + 1;
    HeadLink(m, v, l.y, l.lvl, t);
    if l.lvl == 1 || m.cells[m.head].next[l.lvl - 1].Some? {
      FreeingHolds(m, v, l.op, l.y, l.lvl);
    }
  }

  lemma {:induction false} WriterKeepsOk(m: Mem, v: View, l: Local, height: nat, room: Addr)
    requires WriterOk(m, v, l) && 1 <= height <= MAX_LEVEL && room !in m.cells
    ensures var r := WriterStep(m, l, height, room); WriterOk(r.0, v, r.1)
  {
    match l
    case Searching(op, x, i, update) =>
      if i > 0 {
        SearchingKeepsOk(m, v, l, height, room);
      } else if op.Put? {
        PutDecides(m, v, op, x, update, height, room);
      } else {
        DelDecides(m, v, op, x, update, height, room);
      }
    case Linking(op, n, j, update) => LinkingKeepsOk(m, v, l);
    case Unlinking(op, y, j, update) => UnlinkingKeepsOk(m, v, l);
    case Shrinking(op, y, lvl) => ShrinkingKeepsOk(m, v, l);
    case _ =>
  }
}
