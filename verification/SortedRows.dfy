/** The value-level specification of an ordered engine: a strictly sorted sequence of rows,
    its finite-map meaning, and the range query over it. */
module SortedRows {
  import opened Wrappers
  import opened KeyOrder

  type Value = Bytes
  datatype Row = Row(key: Bytes, val: Value)

  predicate Sorted(rows: seq<Row>) {
    forall i, j :: 0 <= i < j < |rows| ==> Lt(rows[i].key, rows[j].key)
  }

  /** The number of rows at the front whose keys are below k. */
  function Rank(rows: seq<Row>, k: Bytes): (r: nat)
    ensures r <= |rows|
  {
    if rows == [] || !Lt(rows[0].key, k) then 0 else 1 + Rank(rows[1..], k)
  }

  /** The rank separates the rows below k from the rest, and nothing else does. */
  lemma {:induction false} RankSplits(rows: seq<Row>, k: Bytes)
    requires Sorted(rows)
    ensures forall i :: 0 <= i < |rows| ==> (Lt(rows[i].key, k) <==> i < Rank(rows, k))
  {
    if rows == [] {
    } else if Lt(rows[0].key, k) {
      RankSplits(rows[1..], k);
      forall i | 0 <= i < |rows| ensures Lt(rows[i].key, k) <==> i < Rank(rows, k) {
        if i > 0 { assert rows[i] == rows[1..][i - 1]; }
      }
    } else {
      forall i | 0 < i < |rows| ensures !Lt(rows[i].key, k) {
        KeyCmpTotalOrder(rows[0].key, rows[i].key, k);
      }
    }
  }

  lemma {:induction false} RankSplitsAt(rows: seq<Row>, k: Bytes, i: nat)
    requires Sorted(rows) && i < |rows|
    ensures KeyCmp(rows[i].key, k) < 0 <==> i < Rank(rows, k)
  {
    RankSplits(rows, k);
  }

  predicate Has(rows: seq<Row>, k: Bytes) {
    var r := Rank(rows, k);
    r < |rows| && rows[r].key == k
  }

  function Lookup(rows: seq<Row>, k: Bytes): Option<Value> {
    if Has(rows, k) then Some(rows[Rank(rows, k)].val) else None
  }

  function Upsert(rows: seq<Row>, k: Bytes, v: Value): seq<Row> {
    var r := Rank(rows, k);
    if Has(rows, k) then rows[r := Row(k, v)] else rows[..r] + [Row(k, v)] + rows[r..]
  }

  function Remove(rows: seq<Row>, k: Bytes): seq<Row> {
    var r := Rank(rows, k);
    if Has(rows, k) then rows[..r] + rows[r + 1..] else rows
  }

  /** The finite map a sorted sequence of rows stands for. */
  ghost function ToMap(rows: seq<Row>): (m: map<Bytes, Value>)
    requires Sorted(rows)
    ensures forall x, w :: x in m && m[x] == w <==> Row(x, w) in rows
  {
    if rows == [] then map[]
    else
      var last := rows[|rows| - 1];
      var rest := rows[..|rows| - 1];
      KeysDistinct(rows);
      assert rows == rest + [last];
      ToMap(rest)[last.key := last.val]
  }

  lemma {:induction false} KeysDistinct(rows: seq<Row>)
    requires Sorted(rows)
    ensures forall i, j :: 0 <= i < j < |rows| ==> rows[i].key != rows[j].key
  {
    forall i, j | 0 <= i < j < |rows| ensures rows[i].key != rows[j].key {
      KeyCmpTotalOrder(rows[i].key, rows[j].key, rows[j].key);
    }
  }

  /** Where a key is, if it is anywhere. */
  lemma {:induction false} RankOfMember(rows: seq<Row>, i: nat)
    requires Sorted(rows) && i < |rows|
    ensures Rank(rows, rows[i].key) == i
  {
    var k := rows[i].key;
    RankSplits(rows, k);
    KeyCmpTotalOrder(k, k, k);
    var r := Rank(rows, k);
    assert r < |rows| ==> !Lt(rows[r].key, k);
  }

  /** Looking a key up in the rows is looking it up in the map. */
  lemma {:induction false} LookupIsMapLookup(rows: seq<Row>, k: Bytes)
    requires Sorted(rows)
    ensures Has(rows, k) <==> k in ToMap(rows)
    ensures Lookup(rows, k) == if k in ToMap(rows) then Some(ToMap(rows)[k]) else None
  {
    if k in ToMap(rows) {
      var i :| 0 <= i < |rows| && rows[i] == Row(k, ToMap(rows)[k]);
      RankOfMember(rows, i);
    } else if Has(rows, k) {
      assert Row(k, rows[Rank(rows, k)].val) in rows;
    }
  }

  lemma {:induction false} MapKeyIsRowKey(rows: seq<Row>, k: Bytes)
    requires Sorted(rows)
    ensures k in ToMap(rows) ==> exists i :: 0 <= i < |rows| && rows[i].key == k
  {
    if k in ToMap(rows) {
      assert Row(k, ToMap(rows)[k]) in rows;
    }
  }

  lemma {:induction false} MapSize(rows: seq<Row>)
    requires Sorted(rows)
    ensures |ToMap(rows)| == |rows|
  {
    if rows != [] {
      var rest := rows[..|rows| - 1];
      var last := rows[|rest|];
      MapSize(rest);
      KeysDistinct(rows);
      MapKeyIsRowKey(rest, last.key);
      assert ToMap(rows) == ToMap(rest)[last.key := last.val];
    }
  }

  lemma {:induction false} UpsertSorted(rows: seq<Row>, k: Bytes, v: Value)
    requires Sorted(rows)
    ensures Sorted(Upsert(rows, k, v))
  {
    RankSplits(rows, k);
    var r := Rank(rows, k);
    if !Has(rows, k) {
      forall j | r <= j < |rows| ensures Lt(k, rows[j].key) {
        KeyCmpTotalOrder(k, rows[r].key, rows[j].key);
        KeyCmpTotalOrder(rows[r].key, k, k);
      }
    }
  }

  lemma {:induction false} RemoveSorted(rows: seq<Row>, k: Bytes)
    requires Sorted(rows)
    ensures Sorted(Remove(rows, k))
  {
  }

  lemma {:induction false} SpliceMembers<T>(a: seq<T>, b: seq<T>, c: seq<T>, y: T)
    ensures y in a + b + c <==> y in a || y in b || y in c
  {
  }

  /** The rows other than the one for k, on either side of where k belongs. */
  lemma {:induction false} AroundRank(rows: seq<Row>, k: Bytes, y: Row)
    requires Sorted(rows)
    ensures var r := Rank(rows, k);
            y in rows[..r] || y in rows[(if Has(rows, k) then r + 1 else r)..] <==> y in rows && y.key != k
  {
    var r := Rank(rows, k);
    var e := if Has(rows, k) then r + 1 else r;
    forall i | 0 <= i < |rows| ensures rows[i].key == k <==> r <= i < e {
      if rows[i].key == k { RankOfMember(rows, i); }
    }
    if y in rows && y.key != k {
      var i :| 0 <= i < |rows| && rows[i] == y;
      assert if i < r then rows[..r][i] == y else rows[e..][i - e] == y;
    }
  }

  lemma {:induction false} UpsertMembers(rows: seq<Row>, k: Bytes, v: Value, y: Row)
    requires Sorted(rows)
    ensures y in Upsert(rows, k, v) <==> if y.key == k then y.val == v else y in rows
  {
    var r := Rank(rows, k);
    var e := if Has(rows, k) then r + 1 else r;
    assert Upsert(rows, k, v) == rows[..r] + [Row(k, v)] + rows[e..];
    SpliceMembers(rows[..r], [Row(k, v)], rows[e..], y);
    AroundRank(rows, k, y);
  }

  lemma {:induction false} RemoveMembers(rows: seq<Row>, k: Bytes, y: Row)
    requires Sorted(rows)
    ensures y in Remove(rows, k) <==> y.key != k && y in rows
  {
    var r := Rank(rows, k);
    var e := if Has(rows, k) then r + 1 else r;
    assert Remove(rows, k) == rows[..r] + [] + rows[e..];
    SpliceMembers(rows[..r], [], rows[e..], y);
    AroundRank(rows, k, y);
  }

  /** Upsert on rows is update on the map. */
  lemma {:induction false} UpsertIsUpdate(rows: seq<Row>, k: Bytes, v: Value)
    requires Sorted(rows)
    ensures Sorted(Upsert(rows, k, v))
    ensures ToMap(Upsert(rows, k, v)) == ToMap(rows)[k := v]
  {
    UpsertSorted(rows, k, v);
    var out := Upsert(rows, k, v);
    forall y ensures y in out <==> if y.key == k then y.val == v else y in rows {
      UpsertMembers(rows, k, v, y);
    }
    MapFromMembers(out, ToMap(rows)[k := v]);
  }

  lemma {:induction false} MapFromMembers(rows: seq<Row>, m: map<Bytes, Value>)
    requires Sorted(rows)
    requires forall y :: y in rows <==> y.key in m && m[y.key] == y.val
    ensures ToMap(rows) == m
  {
    forall x ensures x in m <==> x in ToMap(rows) {
      if x in m { assert Row(x, m[x]) in rows; }
      if x in ToMap(rows) { assert Row(x, ToMap(rows)[x]) in rows; }
    }
    forall x | x in m ensures m[x] == ToMap(rows)[x] {
      assert Row(x, m[x]) in rows;
    }
  }

  /** Remove on rows is domain removal on the map. */
  lemma {:induction false} RemoveIsErase(rows: seq<Row>, k: Bytes)
    requires Sorted(rows)
    ensures Sorted(Remove(rows, k))
    ensures ToMap(Remove(rows, k)) == ToMap(rows) - {k}
    ensures |Remove(rows, k)| == |rows| - if k in ToMap(rows) then 1 else 0
  {
    RemoveSorted(rows, k);
    LookupIsMapLookup(rows, k);
    var out := Remove(rows, k);
    forall y ensures y in out <==> y.key != k && y in rows {
      RemoveMembers(rows, k, y);
    }
    MapFromMembers(out, ToMap(rows) - {k});
  }

  // ----- range -----

  /** A callback decides from everything it has been handed so far whether to stop. */
  type StopRule = seq<Row> -> bool

  /** The rows with lo <= key < hi, in order. */
  function Window(rows: seq<Row>, lo: Bytes, hi: Bytes): seq<Row> {
    if rows == [] then []
    else (if !Lt(rows[0].key, lo) && Lt(rows[0].key, hi) then [rows[0]] else []) + Window(rows[1..], lo, hi)
  }

  /** At most the first `limit` rows; all of them when limit <= 0. */
  function Limited(rows: seq<Row>, limit: int): seq<Row> {
    if 0 < limit < |rows| then rows[..limit] else rows
  }

  /** Cut just after the first row at which the callback asks to stop. */
  function CutAtStop(seen: seq<Row>, rows: seq<Row>, stop: StopRule): seq<Row>
    decreases |rows|
  {
    if rows == [] then seen
    else if stop(seen + [rows[0]]) then seen + [rows[0]]
    else CutAtStop(seen + [rows[0]], rows[1..], stop)
  }

  /** What a range query hands to its callback. */
  function Delivered(rows: seq<Row>, lo: Bytes, hi: Bytes, limit: int, stop: StopRule): seq<Row> {
    CutAtStop([], Limited(Window(rows, lo, hi), limit), stop)
  }

  predicate Stopped(rows: seq<Row>, stop: StopRule) {
    rows != [] && stop(rows)
  }

  /** What "delivered" means: a prefix of the limited window that no earlier row stopped,
      and the whole of it unless its own last row did. */
  lemma {:induction false} DeliveredMeaning(seen: seq<Row>, rows: seq<Row>, stop: StopRule)
    ensures var out := CutAtStop(seen, rows, stop);
            && seen <= out <= seen + rows
            && (forall j :: |seen| < j < |out| ==> !stop(out[..j]))
            && (out == seen + rows || (|seen| < |out| && stop(out)))
    decreases |rows|
  {
    if rows != [] && !stop(seen + [rows[0]]) {
      DeliveredMeaning(seen + [rows[0]], rows[1..], stop);
      assert seen + rows == seen + [rows[0]] + rows[1..];
      var out := CutAtStop(seen, rows, stop);
      assert out[..|seen| + 1] == seen + [rows[0]];
    }
  }

  /** A scan has handed out these rows, the first of those selected, and none has stopped it. */
  ghost predicate Halfway(sel: seq<Row>, stop: StopRule, out: seq<Row>) {
    && out <= sel && !Stopped(out, stop)
    && CutAtStop(out, sel[|out|..], stop) == CutAtStop([], sel, stop)
  }

  lemma {:induction false} ScanStarts(sel: seq<Row>, stop: StopRule)
    ensures Halfway(sel, stop, [])
  {
    assert sel[0..] == sel;
  }

  /** The next row either stops the scan there or leaves it halfway still. */
  lemma {:induction false} ScanGoesOn(sel: seq<Row>, stop: StopRule, out: seq<Row>)
    requires Halfway(sel, stop, out) && |out| < |sel|
    ensures var next := out + [sel[|out|]];
            if stop(next) then CutAtStop([], sel, stop) == next && Stopped(next, stop) else Halfway(sel, stop, next)
  {
    var rest := sel[|out|..];
    assert rest[0] == sel[|out|] && rest[1..] == sel[|out| + 1..];
    assert out + [sel[|out|]] == sel[..|out| + 1];
  }

  lemma {:induction false} ScanEnds(sel: seq<Row>, stop: StopRule, out: seq<Row>)
    requires Halfway(sel, stop, out) && |out| == |sel|
    ensures CutAtStop([], sel, stop) == out && !Stopped(out, stop)
  {
    assert sel[|out|..] == [];
  }

  lemma {:induction false} RankZeroTail(rows: seq<Row>, k: Bytes)
    requires Sorted(rows) && rows != [] && !Lt(rows[0].key, k)
    ensures Rank(rows, k) == 0 && Rank(rows[1..], k) == 0
  {
    if |rows| > 1 {
      KeyCmpTotalOrder(rows[0].key, rows[1].key, k);
    }
  }

  function Slice(rows: seq<Row>, a: nat, b: nat): seq<Row>
    requires b <= |rows|
  {
    if a <= b then rows[a..b] else []
  }

  /** Below both bounds the next row of the slice is the next one selected. */
  lemma {:induction false} SelectedNext(rows: seq<Row>, a: nat, b: nat, limit: int, n: nat, sel: seq<Row>)
    requires b <= |rows| && sel == Limited(Slice(rows, a, b), limit)
    requires a + n < b && (limit <= 0 || n < limit)
    ensures n < |sel| && sel[n] == rows[a + n]
  {
    assert Slice(rows, a, b)[n] == rows[a + n];
  }

  /** At either bound nothing more is selected. */
  lemma {:induction false} SelectedAll(rows: seq<Row>, a: nat, b: nat, limit: int, n: nat, sel: seq<Row>)
    requires b <= |rows| && sel == Limited(Slice(rows, a, b), limit)
    requires a + n >= b || 0 < limit <= n
    ensures |sel| <= n
  {
  }

  lemma {:induction false} SliceShift(rows: seq<Row>, a: nat, b: nat)
    requires rows != [] && b < |rows|
    ensures Slice(rows, a + 1, b + 1) == Slice(rows[1..], a, b)
    ensures Slice(rows, 0, b + 1) == [rows[0]] + Slice(rows[1..], 0, b)
  {
    if a <= b {
      assert rows[a + 1..b + 1] == rows[1..][a..b];
    }
    assert rows[0..b + 1] == [rows[0]] + rows[1..][0..b];
  }

  /** The window is the stretch of rows between the two ranks. */
  lemma {:induction false} WindowIsSlice(rows: seq<Row>, lo: Bytes, hi: Bytes)
    requires Sorted(rows)
    ensures Window(rows, lo, hi) == Slice(rows, Rank(rows, lo), Rank(rows, hi))
  {
    if rows != [] {
      var rest := rows[1..];
      WindowIsSlice(rest, lo, hi);
      if !Lt(rows[0].key, hi) {
        RankZeroTail(rows, hi);
      } else if !Lt(rows[0].key, lo) {
        RankZeroTail(rows, lo);
        SliceShift(rows, 0, Rank(rest, hi));
      } else {
        SliceShift(rows, Rank(rest, lo), Rank(rest, hi));
      }
    }
  }
}
