/** Whole runs of the skiplist, and its range against the loop of a cursor-based engine. */
module EngineRuns {
  import opened Wrappers
  import opened KeyOrder
  import opened SortedRows
  import opened MapSpec
  import opened SkipListEngine
  import Rng

  /** One operation on the engine is the same operation on the rows it holds. */
  method Apply(s: SkipList, op: Op) returns (a: Answer)
    requires s.Valid()
    modifies s.Repr
    ensures s.Valid() && fresh(s.Repr - old(s.Repr))
    ensures s.rows == After(old(s.rows), op)
    ensures a == Reply(old(s.rows), op)
  {
    match op
    case Put(k, v) =>
      var rc := s.Put(k, v);
      a := Done(rc);
    case Get(k) =>
      var found, v := s.Get(k);
      a := Found(if found == 1 then Some(v) else None);
    case Del(k) =>
      var rc := s.Del(k);
      a := Done(rc);
    case Range(lo, hi, limit, stop) =>
      var n, out := s.Range(lo, hi, limit, stop);
      a := Scanned(out, n);
  }

  /** Every run of operations keeps the invariant and answers as the sorted rows do. */
  method Run(s: SkipList, ops: seq<Op>) returns (answers: seq<Answer>)
    requires s.Valid()
    modifies s.Repr
    ensures s.Valid() && fresh(s.Repr - old(s.Repr))
    ensures s.rows == Replay(old(s.rows), ops)
    ensures answers == Answers(old(s.rows), ops)
    decreases |ops|
  {
    if ops == [] { return []; }
    var last := |ops| - 1;
    answers := Run(s, ops[..last]);
    var a := Apply(s, ops[last]);
    answers := answers + [a];
  }

  /** Any run from an empty engine: it ends holding exactly the map the run builds, with an exact count. */
  method RunFromEmpty(seed: nat, ops: seq<Op>) returns (s: SkipList, answers: seq<Answer>)
    requires seed < 0x1_0000_0000
    ensures s.Valid() && ToMap(s.rows) == MapReplay(map[], ops)
    ensures s.count == |MapReplay(map[], ops)| && s.rng != Rng.ZERO
    ensures |answers| == |ops|
    ensures forall i :: 0 <= i < |ops| ==> MapReply(MapReplay(map[], ops[..i]), ops[i], answers[i])
  {
    s := new SkipList(seed);
    answers := Run(s, ops);
    RunsRefineMap([], ops);
    MapSize(s.rows);
    AnswersAreAll(ops);
  }

  lemma {:induction false} AnswersAreAll(ops: seq<Op>)
    ensures |Answers([], ops)| == |ops|
    ensures forall i :: 0 <= i < |ops| ==> MapReply(MapReplay(map[], ops[..i]), ops[i], Answers([], ops)[i])
  {
    if ops != [] {
      AnswerAt([], ops, 0);
    }
    forall i | 0 <= i < |ops| ensures MapReply(MapReplay(map[], ops[..i]), ops[i], Answers([], ops)[i]) {
      AnswersAreMapAnswers([], ops, i);
    }
  }

  // ----- range against a cursor -----

  /** The loop of an engine with an ordered cursor, from the position it sought:
      it counts a row before the callback sees it. */
  method CursorLoop(rows: seq<Row>, from: nat, hi: Bytes, limit: int, stop: StopRule, ghost b: nat, ghost sel: seq<Row>)
    returns (n: nat, out: seq<Row>)
    requires from <= |rows| && b <= |rows| && sel == Limited(Slice(rows, from, b), limit)
    requires forall p :: 0 <= p < |rows| ==> (Lt(rows[p].key, hi) <==> p < b)
    ensures out == CutAtStop([], sel, stop) && n == |out|
  {
    var at := from;
    n, out := 0, [];
    ScanStarts(sel, stop);
    while at < |rows| && (limit <= 0 || n < limit)
      invariant n == |out| && Halfway(sel, stop, out) && at == from + n <= |rows|
      decreases |rows| - at
    {
      if KeyCmp(rows[at].key, hi) >= 0 { break; }
      SelectedNext(rows, from, b, limit, n, sel);
      ScanGoesOn(sel, stop, out);
      n := n + 1;
      out := out + [rows[at]];
      if stop(out) { return; }
      at := at + 1;
    }
    SelectedAll(rows, from, b, limit, n, sel);
    ScanEnds(sel, stop, out);
  }

  method CursorRange(rows: seq<Row>, lo: Bytes, hi: Bytes, limit: int, stop: StopRule)
    returns (n: nat, out: seq<Row>)
    requires Sorted(rows)
    ensures out == Delivered(rows, lo, hi, limit, stop)
    ensures n == |out|
  {
    WindowIsSlice(rows, lo, hi);
    RankSplits(rows, hi);
    n, out := CursorLoop(rows, Rank(rows, lo), hi, limit, stop, Rank(rows, hi), Limited(Window(rows, lo, hi), limit));
  }

  /** Both engines hand out the same rows; their counts agree unless the callback stopped the scan,
      and then the skiplist reports exactly one less. */
  method SameRange(s: SkipList, lo: Bytes, hi: Bytes, limit: int, stop: StopRule)
    returns (n: nat, out: seq<Row>, cn: nat, cout: seq<Row>)
    requires s.Valid()
    ensures out == cout == Delivered(s.rows, lo, hi, limit, stop)
    ensures cn - n == if Stopped(out, stop) then 1 else 0
  {
    n, out := s.Range(lo, hi, limit, stop);
    var rows := Snapshot(s);
    cn, cout := CursorRange(rows, lo, hi, limit, stop);
  }

  /** The rows in cursor order, read off level 0. */
  method Snapshot(s: SkipList) returns (rows: seq<Row>)
    requires s.Valid()
    ensures rows == s.rows
  {
    rows := [];
    assert Routed(s.nodes, s.hts, 0);
    var x := s.head.next[0];
    while x != null
      invariant |rows| < |s.nodes| && x == At(s.nodes, |rows| + 1)
      invariant rows == s.rows[..|rows|]
      decreases |s.nodes| - |rows|
    {
      assert Routed(s.nodes, s.hts, |rows| + 1);
      rows := rows + [Row(x.key, x.val)];
      x := x.next[0];
    }
  }
}
