/** The skiplist under its reader-writer lock, one memory step at a time.

    Threads run put, get, del and range as the engine does: take the lock, walk, write one link
    at a time, release. A schedule says which thread moves next; the draws of the level generator
    and the addresses the allocator returns are part of it. Reading or writing through a pointer
    that is not allocated, or past the end of a node's links, leads to Fault. */
module LockedSkipList {
  import opened Wrappers
  import opened KeyOrder
  import opened SortedRows
  import opened Levels
  import opened MapSpec
  import Rng

  type Addr = nat
  type Tid = nat

  const MAX_LEVEL := Rng.MAX_LEVEL

  datatype Cell = Cell(key: Bytes, val: Value, next: seq<Option<Addr>>)

  /** The shared memory: cells holds exactly the allocated nodes. */
  datatype Mem = Mem(cells: map<Addr, Cell>, head: Addr, level: nat, count: int)

  /** Where a thread is. The first three read-side states hold the read lock,
      the writing ones from Searching to Written hold the write lock. */
  datatype Local =
    | Idle
    | Reading(op: Op, x: Addr, i: nat)
    | Scanning(op: Op, at: Option<Addr>, out: seq<Row>)
    | Read(op: Op, ans: Answer)
    | Searching(op: Op, x: Addr, i: nat, update: seq<Addr>)
    | Linking(op: Op, n: Addr, j: nat, update: seq<Addr>)
    | Unlinking(op: Op, y: Addr, j: nat, update: seq<Addr>)
    | Shrinking(op: Op, y: Addr, lvl: nat)
    | Written(op: Op, ans: Answer)
    | Fault

  // ----- steps -----

  datatype Probed = Crash | Onward(to: Addr) | Below

  predicate CanRead(m: Mem, x: Addr, i: nat) {
    x in m.cells && i < |m.cells[x].next|
  }

  /** One turn of the inner search loop on level i. */
  function Probe(m: Mem, k: Bytes, x: Addr, i: nat): Probed {
    if !CanRead(m, x, i) then Crash
    else
      match m.cells[x].next[i]
      case None => Below
      case Some(y) =>
        if y !in m.cells then Crash
        else if KeyCmp(m.cells[y].key, k) < 0 then Onward(y)
        else Below
  }

  function SearchKey(op: Op): Bytes {
    if op.Range? then op.lo else op.key
  }

  predicate ReadOnly(op: Op) {
    op.Get? || op.Range?
  }

  /** After the search: read the candidate and answer, or start walking the range. */
  function Arrive(m: Mem, op: Op, x: Addr): Local {
    if !CanRead(m, x, 0) then Fault
    else
      var y := m.cells[x].next[0];
      if op.Range? then Scanning(op, y, [])
      else if y.None? then Read(op, Found(None))
      else if y.value !in m.cells then Fault
      else
        var c := m.cells[y.value];
        Read(op, Found(if KeyCmp(c.key, SearchKey(op)) == 0 then Some(c.val) else None))
  }

  function ScanStep(m: Mem, op: Op, y: Option<Addr>, out: seq<Row>): Local
    requires op.Range?
  {
    if y.None? || !(op.limit <= 0 || |out| < op.limit) then Read(op, Scanned(out, |out|))
    else if !CanRead(m, y.value, 0) then Fault
    else
      var c := m.cells[y.value];
      var next := out + [Row(c.key, c.val)];
      if KeyCmp(c.key, op.hi) >= 0 then Read(op, Scanned(out, |out|))
      else if op.stop(next) then Read(op, Scanned(next, |out|))
      else Scanning(op, c.next[0], next)
  }

  function ReaderStep(m: Mem, l: Local): Local {
    match l
    case Reading(op, x, i) =>
      if i == 0 then Arrive(m, op, x)
      else (match Probe(m, SearchKey(op), x, i - 1)
        case Crash => Fault
        case Onward(y) => Reading(op, y, i)
        case Below => Reading(op, x, i - 1))
    case Scanning(op, y, out) => if op.Range? then ScanStep(m, op, y, out) else l
    case _ => l
  }

  function SetLink(m: Mem, x: Addr, i: nat, to: Option<Addr>): Mem
    requires CanRead(m, x, i)
  {
    var c := m.cells[x];
    m.(cells := m.cells[x := c.(next := c.next[i := to])])
  }

  /** Above the old level the head is the predecessor. */
  function Raised(m: Mem, update: seq<Addr>, height: nat): seq<Addr> {
    if height > m.level then
      seq(MAX_LEVEL, i requires 0 <= i < MAX_LEVEL => if i < m.level && i < |update| then update[i] else m.head)
    else update
  }

  function NewLevel(m: Mem, height: nat): nat {
    if height > m.level then height else m.level
  }

  /** Raise the level if need be and bring in an unlinked node. */
  function Allocate(m: Mem, op: Op, height: nat, room: Addr): Mem
    requires op.Put?
  {
    m.(cells := m.cells[room := Cell(op.key, op.val, seq(height, _ => None))],
       level := NewLevel(m, height))
  }

  /** put and del at the end of their search. */
  function Decide(m: Mem, op: Op, x: Addr, update: seq<Addr>, height: nat, room: Addr): (Mem, Local) {
    if !CanRead(m, x, 0) then (m, Fault)
    else
      var y := m.cells[x].next[0];
      if y.Some? && y.value !in m.cells then (m, Fault)
      else if y.Some? && KeyCmp(m.cells[y.value].key, SearchKey(op)) == 0 then
        if op.Put? then
          (m.(cells := m.cells[y.value := m.cells[y.value].(val := op.val)]), Written(op, Done(0)))
        else
          (m, Unlinking(op, y.value, 0, update))
      else if op.Put? then
        (Allocate(m, op, height, room), Linking(op, room, 0, Raised(m, update, height)))
      else
        (m, Written(op, Done(0)))
  }

  function LinkStep(m: Mem, op: Op, n: Addr, j: nat, update: seq<Addr>): (Mem, Local) {
    if n !in m.cells then (m, Fault)
    else if j >= |m.cells[n].next| then (m.(count := m.count + 1), Written(op, Done(0)))
    else if j >= |update| || !CanRead(m, update[j], j) then (m, Fault)
    else
      var m1 := SetLink(m, n, j, m.cells[update[j]].next[j]);
      (SetLink(m1, update[j], j, Some(n)), Linking(op, n, j + 1, update))
  }

  function UnlinkStep(m: Mem, op: Op, y: Addr, j: nat, update: seq<Addr>): (Mem, Local) {
    if j >= m.level then (m, Shrinking(op, y, m.level))
    else if j >= |update| || !CanRead(m, update[j], j) then (m, Fault)
    else if m.cells[update[j]].next[j] != Some(y) then (m, Unlinking(op, y, j + 1, update))
    else if !CanRead(m, y, j) then (m, Fault)
    else (SetLink(m, update[j], j, m.cells[y].next[j]), Unlinking(op, y, j + 1, update))
  }

  /** Lower the level one at a time; at the end free the node. */
  function ShrinkStep(m: Mem, op: Op, y: Addr, lvl: nat): (Mem, Local) {
    if lvl > 1 && !CanRead(m, m.head, lvl - 1) then (m, Fault)
    else if lvl > 1 && m.cells[m.head].next[lvl - 1].None? then (m, Shrinking(op, y, lvl - 1))
    else (Mem(m.cells - {y}, m.head, lvl, m.count - 1), Written(op, Done(1)))
  }

  function WriterStep(m: Mem, l: Local, height: nat, room: Addr): (Mem, Local) {
    match l
    case Searching(op, x, i, update) =>
      if i == 0 then Decide(m, op, x, update, height, room)
      else (match Probe(m, SearchKey(op), x, i - 1)
        case Crash => (m, Fault)
        case Onward(y) => (m, Searching(op, y, i, update))
        case Below => if i <= |update| then (m, Searching(op, x, i - 1, update[i - 1 := x])) else (m, Fault))
    case Linking(op, n, j, update) => LinkStep(m, op, n, j, update)
    case Unlinking(op, y, j, update) => UnlinkStep(m, op, y, j, update)
    case Shrinking(op, y, lvl) => ShrinkStep(m, op, y, lvl)
    case _ => (m, l)
  }

  // ----- the list a quiescent memory represents -----

  datatype View = View(order: seq<Addr>, hts: seq<nat>, rows: seq<Row>)

  function At(order: seq<Addr>, p: nat): Option<Addr> {
    if p < |order| then Some(order[p]) else None
  }

  ghost predicate Distinct(order: seq<Addr>) {
    forall p, q :: 0 <= p < q < |order| ==> order[p] != order[q]
  }

  ghost predicate Shape(v: View, head: Addr, level: nat) {
    && |v.order| == |v.hts| == |v.rows| + 1
    && v.order[0] == head && v.hts[0] == MAX_LEVEL
    && 1 <= level <= MAX_LEVEL
    && (forall p :: 0 < p < |v.hts| ==> 1 <= v.hts[p] <= level)
    && Distinct(v.order)
  }

  /** The p-th cell is allocated, as tall as it should be, and holds its row. */
  ghost predicate Placed(c: map<Addr, Cell>, v: View, p: nat)
    requires |v.order| == |v.hts| == |v.rows| + 1 && p < |v.order|
  {
    && v.order[p] in c && |c[v.order[p]].next| == v.hts[p]
    && (p > 0 ==> Row(c[v.order[p]].key, c[v.order[p]].val) == v.rows[p - 1])
  }

  ghost predicate Routed(c: map<Addr, Cell>, v: View, p: nat)
    requires |v.order| == |v.hts| == |v.rows| + 1 && p < |v.order| && Placed(c, v, p)
  {
    forall i :: 0 <= i < v.hts[p] ==> c[v.order[p]].next[i] == At(v.order, Succ(v.hts, p, i))
  }

  ghost predicate Tight(h: seq<nat>, level: nat) {
    level == 1 || exists p :: 0 < p < |h| && h[p] == level
  }

  ghost function AddrSet(order: seq<Addr>): set<Addr> {
    set a | a in order
  }

  ghost predicate Structure(m: Mem, v: View) {
    && Shape(v, m.head, m.level)
    && (forall p :: 0 <= p < |v.order| ==> Placed(m.cells, v, p) && Routed(m.cells, v, p))
    && Tight(v.hts, m.level)
    && m.count == |v.rows|
    && m.cells.Keys == AddrSet(v.order)
  }

  ghost predicate Represents(m: Mem, v: View) {
    Structure(m, v) && Sorted(v.rows)
  }

  // ----- searching -----

  /** A search for the position t stands at pos, done with the levels above i. */
  ghost predicate Standing(v: View, level: nat, t: nat, x: Addr, i: nat, pos: nat)
    requires |v.order| == |v.hts|
  {
    && pos < |v.order| && v.order[pos] == x && pos < t <= |v.order|
    && i <= level && i <= v.hts[pos]
    && (i == 0 ==> IsPred(v.hts, pos, 0, t))
  }

  lemma {:induction false} ProbeMoves(m: Mem, v: View, k: Bytes, x: Addr, i: nat, pos: nat)
    requires Represents(m, v) && Standing(v, m.level, Rank(v.rows, k) + 1, x, i, pos) && i > 0
    ensures match Probe(m, k, x, i - 1)
            case Crash => false
            case Onward(y) => Standing(v, m.level, Rank(v.rows, k) + 1, y, i, Succ(v.hts, pos, i - 1))
            case Below =>
              Standing(v, m.level, Rank(v.rows, k) + 1, x, i - 1, pos) && IsPred(v.hts, pos, i - 1, Rank(v.rows, k) + 1)
  {
    assert Placed(m.cells, v, pos) && Routed(m.cells, v, pos);
    var r := Succ(v.hts, pos, i - 1);
    if r < |v.order| {
      assert Placed(m.cells, v, r);
      RankSplitsAt(v.rows, k, r - 1);
    }
  }

  /** At the end of the search the bottom link leads to the first row not below the key. */
  lemma {:induction false} ArriveAt(m: Mem, v: View, t: nat, x: Addr, pos: nat)
    requires Represents(m, v) && Standing(v, m.level, t, x, 0, pos)
    ensures CanRead(m, x, 0) && m.cells[x].next[0] == At(v.order, t)
    ensures t < |v.order| ==> Placed(m.cells, v, t)
  {
    assert Placed(m.cells, v, pos) && Routed(m.cells, v, pos);
    assert Succ(v.hts, pos, 0) == t;
  }

  lemma {:induction false} FoundIffHas(v: View, c: map<Addr, Cell>, k: Bytes)
    requires |v.order| == |v.hts| == |v.rows| + 1
    requires Rank(v.rows, k) + 1 < |v.order| && Placed(c, v, Rank(v.rows, k) + 1)
    ensures KeyCmp(c[v.order[Rank(v.rows, k) + 1]].key, k) == 0 <==> Has(v.rows, k)
  {
    KeyCmpTotalOrder(c[v.order[Rank(v.rows, k) + 1]].key, k, k);
  }

  // ----- readers -----

  ghost predicate StandsSomewhere(v: View, level: nat, t: nat, x: Addr, i: nat)
    requires |v.order| == |v.hts|
  {
    exists pos :: Standing(v, level, t, x, i, pos)
  }

  ghost predicate ReaderOk(v: View, level: nat, l: Local)
    requires |v.order| == |v.hts| == |v.rows| + 1
  {
    match l
    case Reading(op, x, i) =>
      ReadOnly(op) && StandsSomewhere(v, level, Rank(v.rows, SearchKey(op)) + 1, x, i)
    case Scanning(op, y, out) => op.Range? && ScanOk(v, op, y, out)
    case Read(op, ans) => ReadOnly(op) && ans == Reply(v.rows, op)
    case _ => false
  }

  /** The rows a range may hand out when nothing stops it. */
  function Selected(rows: seq<Row>, op: Op): seq<Row>
    requires op.Range?
  {
    Limited(Window(rows, op.lo, op.hi), op.limit)
  }

  /** The rows collected are the first ones selected, none stopped the scan, and y is the next node. */
  ghost predicate ScanOk(v: View, op: Op, y: Option<Addr>, out: seq<Row>)
    requires op.Range? && |v.order| == |v.rows| + 1
  {
    var a := Rank(v.rows, op.lo);
    && a + |out| < |v.order| && y == At(v.order, a + |out| + 1)
    && Halfway(Selected(v.rows, op), op.stop, out)
  }

  /** The row after those collected is selected exactly when the scan goes on to it. */
  lemma {:induction false} ScanExtends(rows: seq<Row>, op: Op, out: seq<Row>)
    requires Sorted(rows) && op.Range? && Halfway(Selected(rows, op), op.stop, out)
    ensures var at := Rank(rows, op.lo) + |out|; var sel := Selected(rows, op);
            if at < |rows| && (op.limit <= 0 || |out| < op.limit) && KeyCmp(rows[at].key, op.hi) < 0
            then |out| < |sel| && sel[|out|] == rows[at] else |out| == |sel|
  {
    var a, b, n := Rank(rows, op.lo), Rank(rows, op.hi), |out|;
    var sel := Selected(rows, op);
    WindowIsSlice(rows, op.lo, op.hi);
    if a + n < |rows| { RankSplitsAt(rows, op.hi, a + n); }
    if a + n < b && (op.limit <= 0 || n < op.limit) {
      SelectedNext(rows, a, b, op.limit, n, sel);
    } else {
      SelectedAll(rows, a, b, op.limit, n, sel);
    }
  }

  lemma {:induction false} ScanKeepsOk(m: Mem, v: View, op: Op, y: Option<Addr>, out: seq<Row>)
    requires Represents(m, v) && op.Range? && ScanOk(v, op, y, out)
    ensures ReaderOk(v, m.level, ScanStep(m, op, y, out))
  {
    var sel := Selected(v.rows, op);
    ScanExtends(v.rows, op, out);
    var p := Rank(v.rows, op.lo) + |out| + 1;
    if y.Some? {
      assert Placed(m.cells, v, p) && Routed(m.cells, v, p);
    }
    if |out| < |sel| {
      ScanGoesOn(sel, op.stop, out);
    } else {
      ScanEnds(sel, op.stop, out);
    }
  }

  lemma {:induction false} ArriveKeepsOk(m: Mem, v: View, op: Op, x: Addr, pos: nat)
    requires Represents(m, v) && ReadOnly(op) && Standing(v, m.level, Rank(v.rows, SearchKey(op)) + 1, x, 0, pos)
    ensures ReaderOk(v, m.level, Arrive(m, op, x))
  {
    var t := Rank(v.rows, SearchKey(op)) + 1;
    ArriveAt(m, v, t, x, pos);
    if op.Range? {
      ScanStarts(Selected(v.rows, op), op.stop);
    } else if t < |v.order| {
      FoundIffHas(v, m.cells, op.key);
    }
  }

  lemma {:induction false} ReadingKeepsOk(m: Mem, v: View, op: Op, x: Addr, i: nat)
    requires Represents(m, v) && ReaderOk(v, m.level, Reading(op, x, i))
    ensures ReaderOk(v, m.level, ReaderStep(m, Reading(op, x, i)))
  {
    var pos :| Standing(v, m.level, Rank(v.rows, SearchKey(op)) + 1, x, i, pos);
    if i > 0 {
      ProbeMoves(m, v, SearchKey(op), x, i, pos);
    } else {
      ArriveKeepsOk(m, v, op, x, pos);
    }
  }

  lemma {:induction false} ReaderKeepsOk(m: Mem, v: View, l: Local)
    requires Represents(m, v) && ReaderOk(v, m.level, l)
    ensures ReaderOk(v, m.level, ReaderStep(m, l))
  {
    match l
    case Reading(op, x, i) => ReadingKeepsOk(m, v, op, x, i);
    case Scanning(op, y, out) => ScanKeepsOk(m, v, op, y, out);
    case _ =>
  }
}
