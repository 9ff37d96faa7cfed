/** What an ordered store means: operations on sorted rows, the finite map they stand for,
    and whole runs of operations. */
module MapSpec {
  import opened Wrappers
  import opened KeyOrder
  import opened SortedRows

  datatype Op =
    | Put(key: Bytes, val: Value)
    | Get(key: Bytes)
    | Del(key: Bytes)
    | Range(lo: Bytes, hi: Bytes, limit: int, stop: StopRule)

  /** A range answers with the rows its callback saw and the count the engine returns. */
  datatype Answer = Done(rc: int) | Found(value: Option<Value>) | Scanned(rows: seq<Row>, count: int)

  /** The row at which the callback stopped the scan is not counted. */
  function Counted(rows: seq<Row>, stop: StopRule): int {
    |rows| - if Stopped(rows, stop) then 1 else 0
  }

  function After(rows: seq<Row>, op: Op): seq<Row> {
    match op
    case Put(k, v) => Upsert(rows, k, v)
    case Del(k) => Remove(rows, k)
    case _ => rows
  }

  function Reply(rows: seq<Row>, op: Op): Answer {
    match op
    case Put(_, _) => Done(0)
    case Get(k) => Found(Lookup(rows, k))
    case Del(k) => Done(if Has(rows, k) then 1 else 0)
    case Range(lo, hi, limit, stop) =>
      var out := Delivered(rows, lo, hi, limit, stop);
      Scanned(out, Counted(out, stop))
  }

  /** The rows after a run, and the answers the run gives. */
  function Replay(rows: seq<Row>, ops: seq<Op>): seq<Row> {
    if ops == [] then rows else After(Replay(rows, ops[..|ops| - 1]), ops[|ops| - 1])
  }

  function Answers(rows: seq<Row>, ops: seq<Op>): seq<Answer> {
    if ops == [] then []
    else
      var before := ops[..|ops| - 1];
      Answers(rows, before) + [Reply(Replay(rows, before), ops[|ops| - 1])]
  }

  lemma {:induction false} ReplaySnoc(rows: seq<Row>, ops: seq<Op>, op: Op)
    ensures Replay(rows, ops + [op]) == After(Replay(rows, ops), op)
    ensures Answers(rows, ops + [op]) == Answers(rows, ops) + [Reply(Replay(rows, ops), op)]
  {
    assert (ops + [op])[..|ops|] == ops;
  }

  // ----- the same on a finite map -----

  type Store = map<Bytes, Value>

  function MapAfter(m: Store, op: Op): Store {
    match op
    case Put(k, v) => m[k := v]
    case Del(k) => m - {k}
    case _ => m
  }

  /** What the map answers; a range answer is the increasing enumeration of the keys in the window. */
  ghost predicate MapReply(m: Store, op: Op, a: Answer) {
    match op
    case Put(_, _) => a == Done(0)
    case Get(k) => a == Found(if k in m then Some(m[k]) else None)
    case Del(k) => a == Done(if k in m then 1 else 0)
    case Range(lo, hi, limit, stop) =>
      a.Scanned? && Enumerates(m, lo, hi, limit, stop, a.rows) && a.count == Counted(a.rows, stop)
  }

  /** out lists, in increasing key order, bindings of m inside the window, no more than the limit and
      none after one at which the callback stops; what it leaves out of the window lies beyond its last
      row, and only because the limit is reached or that row stopped the scan. */
  ghost predicate Enumerates(m: Store, lo: Bytes, hi: Bytes, limit: int, stop: StopRule, out: seq<Row>) {
    && Sorted(out) && (0 < limit ==> |out| <= limit)
    && (forall j :: 0 < j < |out| ==> !stop(out[..j]))
    && (forall y :: y in out ==> y.key in m && m[y.key] == y.val && !Lt(y.key, lo) && Lt(y.key, hi))
    && (forall x :: x in m && !Lt(x, lo) && Lt(x, hi) && Row(x, m[x]) !in out ==>
          (0 < limit == |out| || Stopped(out, stop)) && Beyond(out, x))
  }

  ghost predicate Beyond(out: seq<Row>, x: Bytes) {
    forall y :: y in out ==> Lt(y.key, x)
  }

  lemma {:induction false} FirstDifference(a: seq<Row>, b: seq<Row>, j: nat)
    requires Sorted(a) && Sorted(b) && j < |a| && j <= |b| && a[..j] == b[..j]
    requires j < |b| ==> Lt(a[j].key, b[j].key)
    ensures a[j] !in b && !Lt(a[j].key, a[j].key) && (j < |b| ==> !Lt(b[j].key, a[j].key))
  {
    var k := a[j].key;
    KeyCmpTotalOrder(k, k, k);
    if j < |b| { KeyCmpTotalOrder(k, b[j].key, k); }
    forall i | 0 <= i < |b| ensures b[i] != a[j] {
      if i < j {
        assert b[i] == b[..j][i] == a[..j][i] == a[i];
      } else if i > j {
        KeyCmpTotalOrder(k, b[j].key, b[i].key);
      }
    }
  }

  /** Two enumerations of the same range cannot part: the one with the smaller key, or the longer one,
      shows the other to have left a binding out for no reason. */
  lemma {:induction false} NeverPart(m: Store, lo: Bytes, hi: Bytes, limit: int, stop: StopRule, a: seq<Row>, b: seq<Row>, j: nat)
    requires Enumerates(m, lo, hi, limit, stop, a) && Enumerates(m, lo, hi, limit, stop, b)
    requires j < |a| && j <= |b| && a[..j] == b[..j]
    ensures j < |b| && !Lt(a[j].key, b[j].key)
  {
    var y := a[j];
    assert y in a && Row(y.key, m[y.key]) == y;
    assert j < |b| ==> b[j] in b;
    assert j == |b| ==> a[..j] == b;
    if j == |b| || Lt(y.key, b[j].key) {
      FirstDifference(a, b, j);
    }
  }

  /** So the answer to a range is determined by the map alone. */
  lemma {:induction false} EnumerationUnique(m: Store, lo: Bytes, hi: Bytes, limit: int, stop: StopRule, a: seq<Row>, b: seq<Row>, j: nat)
    requires Enumerates(m, lo, hi, limit, stop, a) && Enumerates(m, lo, hi, limit, stop, b)
    requires j <= |a| && j <= |b| && a[..j] == b[..j]
    ensures a == b
    decreases |a| - j
  {
    if j < |a| {
      NeverPart(m, lo, hi, limit, stop, a, b, j);
      NeverPart(m, lo, hi, limit, stop, b, a, j);
      KeyCmpTotalOrder(a[j].key, b[j].key, a[j].key);
      assert a[j] in a && b[j] in b;
      assert a[..j + 1] == a[..j] + [a[j]] && b[..j + 1] == b[..j] + [b[j]];
      EnumerationUnique(m, lo, hi, limit, stop, a, b, j + 1);
    } else if j < |b| {
      NeverPart(m, lo, hi, limit, stop, b, a, j);
    } else {
      assert a == a[..j] && b == b[..j];
    }
  }

  ghost function MapReplay(m: Store, ops: seq<Op>): Store {
    if ops == [] then m else MapAfter(MapReplay(m, ops[..|ops| - 1]), ops[|ops| - 1])
  }

  lemma {:induction false} WindowMembers(rows: seq<Row>, lo: Bytes, hi: Bytes, y: Row)
    ensures y in Window(rows, lo, hi) <==> y in rows && !Lt(y.key, lo) && Lt(y.key, hi)
  {
    if rows != [] {
      WindowMembers(rows[1..], lo, hi, y);
      assert rows == [rows[0]] + rows[1..];
    }
  }

  lemma {:induction false} LimitReached(all: seq<Row>, limit: int, r: Row)
    requires r in all && r !in Limited(all, limit)
    ensures 0 < limit == |Limited(all, limit)|
  {
  }

  lemma {:induction false} PrefixBeyond(all: seq<Row>, out: seq<Row>, r: Row)
    requires Sorted(all) && out <= all && r in all && r !in out
    ensures Beyond(out, r.key)
  {
    var i :| 0 <= i < |all| && all[i] == r;
    assert i >= |out|;
  }

  /** The rows delivered are the first of the window, in order. */
  lemma {:induction false} DeliveredFromWindow(rows: seq<Row>, lo: Bytes, hi: Bytes, limit: int, stop: StopRule)
    requires Sorted(rows)
    ensures Sorted(Window(rows, lo, hi)) && Delivered(rows, lo, hi, limit, stop) <= Limited(Window(rows, lo, hi), limit)
    ensures Delivered(rows, lo, hi, limit, stop) <= Window(rows, lo, hi)
  {
    WindowIsSlice(rows, lo, hi);
    var sel := Limited(Window(rows, lo, hi), limit);
    DeliveredMeaning([], sel, stop);
    assert [] + sel == sel;
  }

  lemma {:induction false} DeliveredRow(rows: seq<Row>, lo: Bytes, hi: Bytes, limit: int, stop: StopRule, y: Row)
    requires Sorted(rows) && y in Delivered(rows, lo, hi, limit, stop)
    ensures y in rows && !Lt(y.key, lo) && Lt(y.key, hi)
  {
    DeliveredFromWindow(rows, lo, hi, limit, stop);
    assert y in Window(rows, lo, hi);
    WindowMembers(rows, lo, hi, y);
  }

  /** A row of the window left out lies beyond those delivered, for one of the two reasons. */
  lemma {:induction false} LeftOut(rows: seq<Row>, lo: Bytes, hi: Bytes, limit: int, stop: StopRule, y: Row)
    requires Sorted(rows) && y in rows && !Lt(y.key, lo) && Lt(y.key, hi) && y !in Delivered(rows, lo, hi, limit, stop)
    ensures var out := Delivered(rows, lo, hi, limit, stop); (0 < limit == |out| || Stopped(out, stop)) && Beyond(out, y.key)
  {
    var all := Window(rows, lo, hi);
    var sel := Limited(all, limit);
    var out := Delivered(rows, lo, hi, limit, stop);
    DeliveredFromWindow(rows, lo, hi, limit, stop);
    WindowMembers(rows, lo, hi, y);
    PrefixBeyond(all, out, y);
    DeliveredMeaning([], sel, stop);
    if y !in sel {
      LimitReached(all, limit, y);
    }
    assert [] + sel == sel;
  }

  lemma {:induction false} RangeReply(rows: seq<Row>, lo: Bytes, hi: Bytes, limit: int, stop: StopRule)
    requires Sorted(rows)
    ensures Enumerates(ToMap(rows), lo, hi, limit, stop, Delivered(rows, lo, hi, limit, stop))
  {
    var m, out := ToMap(rows), Delivered(rows, lo, hi, limit, stop);
    DeliveredFromWindow(rows, lo, hi, limit, stop);
    DeliveredMeaning([], Limited(Window(rows, lo, hi), limit), stop);
    forall y | y in out ensures y.key in m && m[y.key] == y.val && !Lt(y.key, lo) && Lt(y.key, hi) {
      DeliveredRow(rows, lo, hi, limit, stop, y);
      assert Row(y.key, y.val) in rows;
    }
    forall x | x in m && !Lt(x, lo) && Lt(x, hi) && Row(x, m[x]) !in out
      ensures (0 < limit == |out| || Stopped(out, stop)) && Beyond(out, x) {
      LeftOut(rows, lo, hi, limit, stop, Row(x, m[x]));
    }
  }

  lemma {:induction false} AfterRefinesMap(rows: seq<Row>, op: Op)
    requires Sorted(rows)
    ensures Sorted(After(rows, op)) && ToMap(After(rows, op)) == MapAfter(ToMap(rows), op)
  {
    match op
    case Put(k, v) => UpsertIsUpdate(rows, k, v);
    case Del(k) => RemoveIsErase(rows, k);
    case _ =>
  }

  lemma {:induction false} ReplyRefinesMap(rows: seq<Row>, op: Op)
    requires Sorted(rows)
    ensures MapReply(ToMap(rows), op, Reply(rows, op))
  {
    match op
    case Put(_, _) =>
    case Get(k) => LookupIsMapLookup(rows, k);
    case Del(k) => LookupIsMapLookup(rows, k);
    case Range(lo, hi, limit, stop) => RangeReply(rows, lo, hi, limit, stop);
  }

  /** The row operations are the map operations. */
  lemma {:induction false} RowsRefineMap(rows: seq<Row>, op: Op)
    requires Sorted(rows)
    ensures Sorted(After(rows, op)) && ToMap(After(rows, op)) == MapAfter(ToMap(rows), op)
    ensures MapReply(ToMap(rows), op, Reply(rows, op))
  {
    AfterRefinesMap(rows, op);
    ReplyRefinesMap(rows, op);
  }

  /** So are whole runs: the rows after any run stand for the map after it. */
  lemma {:induction false} RunsRefineMap(rows: seq<Row>, ops: seq<Op>)
    requires Sorted(rows)
    ensures Sorted(Replay(rows, ops)) && ToMap(Replay(rows, ops)) == MapReplay(ToMap(rows), ops)
    decreases |ops|
  {
    if ops != [] {
      RunsRefineMap(rows, ops[..|ops| - 1]);
      RowsRefineMap(Replay(rows, ops[..|ops| - 1]), ops[|ops| - 1]);
    }
  }

  lemma {:induction false} AnswerAt(rows: seq<Row>, ops: seq<Op>, i: nat)
    requires i < |ops|
    ensures |Answers(rows, ops)| == |ops|
    ensures Answers(rows, ops)[i] == Reply(Replay(rows, ops[..i]), ops[i])
    decreases |ops|
  {
    var before := ops[..|ops| - 1];
    if |before| > 0 {
      AnswerAt(rows, before, if i < |before| then i else 0);
      if i < |before| { assert before[..i] == ops[..i]; }
    }
  }

  /** and every answer of the run is the one the map gives at that point. */
  lemma {:induction false} AnswersAreMapAnswers(rows: seq<Row>, ops: seq<Op>, i: nat)
    requires Sorted(rows) && i < |ops|
    ensures |Answers(rows, ops)| == |ops|
    ensures MapReply(MapReplay(ToMap(rows), ops[..i]), ops[i], Answers(rows, ops)[i])
  {
    AnswerAt(rows, ops, i);
    RunsRefineMap(rows, ops[..i]);
    RowsRefineMap(Replay(rows, ops[..i]), ops[i]);
  }
}
