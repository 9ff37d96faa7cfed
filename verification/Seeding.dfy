/** The sharded, batched load of the mixed workload, over every interleaving of its threads
    (workloads/mixed.lua, run by measure_setup in src/main.c over the batch fallback of src/store.c). */
module Seeding {
  import opened Numbers
  import opened KeyOrder
  import opened SortedRows
  import opened Keyspace
  import StoreLayer

  const SEED_BATCH: nat := 512
  const VALUE_BYTES: nat := 4096

  function Payload(): Value { seq(VALUE_BYTES, _ => 118) }

  function RowOf(i: nat): Row { Row(MixedKey(i), Payload()) }

  function Rows(s: seq<nat>): (r: seq<Row>)
    ensures |r| == |s| && forall k :: 0 <= k < |s| ==> r[k] == RowOf(s[k])
  {
    seq(|s|, k requires 0 <= k < |s| => RowOf(s[k]))
  }

  // ----- shards -----

  /** The indices below n that thread t of threads owns, in order. */
  function Shard(t: nat, threads: nat, n: nat): (r: seq<nat>)
    requires t < threads
    ensures forall k :: 0 <= k < |r| ==> r[k] < n && r[k] % threads == t
    ensures forall j, k :: 0 <= j < k < |r| ==> r[j] < r[k]
  {
    if n == 0 then []
    else if (n - 1) % threads == t then Shard(t, threads, n - 1) + [n - 1]
    else Shard(t, threads, n - 1)
  }

  lemma {:induction false} ShardHas(t: nat, threads: nat, n: nat, i: nat)
    requires t < threads && i < n && i % threads == t
    ensures i in Shard(t, threads, n)
  {
    if i < n - 1 { ShardHas(t, threads, n - 1, i); }
  }

  /** Indices of other threads add nothing. */
  lemma {:induction false} ShardSkips(t: nat, threads: nat, a: nat, b: nat)
    requires t < threads && a <= b && forall i :: a <= i < b ==> i % threads != t
    ensures Shard(t, threads, b) == Shard(t, threads, a)
    decreases b
  {
    if a < b { ShardSkips(t, threads, a, b - 1); }
  }

  /** Between one index of a thread and its next there is none of its own. */
  lemma {:induction false} NoneBetween(i: nat, threads: nat, j: nat)
    requires 0 < threads && i < j < i + threads
    ensures j % threads != i % threads
  {
    var q, p := i / threads, j / threads;
    assert i == threads * q + i % threads && j == threads * p + j % threads;
    if p > q {
      MulGap(threads, q, p);
    } else if p < q {
      MulGap(threads, p, q);
    }
  }

  lemma {:induction false} NextIndex(t: nat, threads: nat, i: nat)
    requires t < threads && i % threads == t
    ensures Shard(t, threads, i + 1) == Shard(t, threads, i) + [i]
    ensures (i + threads) % threads == t
    ensures forall b :: i < b <= i + threads ==> Shard(t, threads, b) == Shard(t, threads, i + 1)
  {
    assert (i + threads) % threads == i % threads by { AddTurn(i, threads); }
    forall b | i < b <= i + threads ensures Shard(t, threads, b) == Shard(t, threads, i + 1) {
      forall j | i + 1 <= j < b ensures j % threads != t {
        NoneBetween(i, threads, j);
      }
      ShardSkips(t, threads, i + 1, b);
    }
  }

  lemma {:induction false} AddTurn(i: nat, n: nat)
    requires n > 0
    ensures (i + n) % n == i % n
  {
    var q, r := i / n, i % n;
    assert i == n * q + r;
    assert i + n == n * (q + 1) + r;
    var q', r' := (i + n) / n, (i + n) % n;
    assert i + n == n * q' + r';
    if q' > q + 1 {
      MulGap(n, q + 1, q');
    } else if q' < q + 1 {
      MulGap(n, q', q + 1);
    }
  }

  // ----- one thread's load -----

  function Flat(batches: seq<seq<Row>>): seq<Row> {
    if batches == [] then [] else Flat(batches[..|batches| - 1]) + batches[|batches| - 1]
  }

  /** The thread's turn has come to index i, and past the end there is nothing more to own. */
  ghost predicate Turn(t: nat, threads: nat, i: nat, items: nat)
    requires t < threads
  {
    i % threads == t && (i >= items ==> Shard(t, threads, items) == Shard(t, threads, i))
  }

  lemma {:induction false} FirstTurn(t: nat, threads: nat, items: nat)
    requires t < threads
    ensures Turn(t, threads, t, items) && Covers([], [], t, threads, t)
  {
    forall i | 0 <= i < t ensures i % threads != t {
      SmallMod(i, threads);
    }
    SmallMod(t, threads);
    NoneOwned(t, threads, t);
    if items <= t { NoneOwned(t, threads, items); }
  }

  lemma {:induction false} SmallMod(i: nat, n: nat)
    requires i < n
    ensures i % n == i
  {
  }

  lemma {:induction false} NoneOwned(t: nat, threads: nat, n: nat)
    requires t < threads && forall i :: 0 <= i < n ==> i % threads != t
    ensures Shard(t, threads, n) == []
  {
    if n > 0 { NoneOwned(t, threads, n - 1); }
  }

  /** The batches sent and the rows still buffered are the shard up to index i. */
  ghost predicate Covers(batches: seq<seq<Row>>, pending: seq<Row>, t: nat, threads: nat, i: nat)
    requires t < threads
  {
    Flat(batches) + pending == Rows(Shard(t, threads, i))
  }

  lemma {:induction false} CoverNext(batches: seq<seq<Row>>, pending: seq<Row>, t: nat, threads: nat, i: nat, items: nat)
    requires t < threads && i < items && Turn(t, threads, i, items) && Covers(batches, pending, t, threads, i)
    ensures Covers(batches, pending + [RowOf(i)], t, threads, i + threads) && Turn(t, threads, i + threads, items)
  {
    NextIndex(t, threads, i);
    var s := Shard(t, threads, i);
    assert Rows(s + [i]) == Rows(s) + [RowOf(i)];
    assert Flat(batches) + (pending + [RowOf(i)]) == Flat(batches) + pending + [RowOf(i)];
  }

  lemma {:induction false} CoverSend(batches: seq<seq<Row>>, pending: seq<Row>, t: nat, threads: nat, i: nat)
    requires t < threads && Covers(batches, pending, t, threads, i)
    ensures Covers(batches + [pending], [], t, threads, i)
    ensures |Flat(batches + [pending])| == |Flat(batches)| + |pending|
  {
    var more := batches + [pending];
    assert more[..|more| - 1] == batches;
    assert Flat(more) + [] == Flat(batches) + pending;
  }

  /** The batches one thread sends: its shard in order, in full batches but for the last, and as many
      keys counted as it owns. */
  method LoadShard(thread: nat, threads: nat, items: nat) returns (batches: seq<seq<Row>>, ops: nat)
    requires thread < threads
    ensures Flat(batches) == Rows(Shard(thread, threads, items)) && ops == |Shard(thread, threads, items)|
    ensures forall k :: 0 <= k < |batches| ==> 0 < |batches[k]| <= SEED_BATCH
    ensures forall k :: 0 <= k < |batches| - 1 ==> |batches[k]| == SEED_BATCH
  {
    var buf := new Row[SEED_BATCH](_ => Row([], Payload()));
    batches, ops := [], 0;
    var n, i := 0, thread;
    FirstTurn(thread, threads, items);
    assert buf[..0] == [];
    while i < items
      invariant Turn(thread, threads, i, items) && n < SEED_BATCH && buf.Length == SEED_BATCH
      invariant Covers(batches, buf[..n], thread, threads, i)
      invariant ops == |Flat(batches)|
      invariant forall k :: 0 <= k < |batches| ==> |batches[k]| == SEED_BATCH
      decreases items - i
    {
      ghost var pending := buf[..n];
      CoverNext(batches, pending, thread, threads, i, items);
      buf[n] := RowOf(i);
      n := n + 1;
      i := i + threads;
      assert buf[..n] == pending + [buf[n - 1]];
      if n == SEED_BATCH {
        CoverSend(batches, buf[..n], thread, threads, i);
        batches := batches + [buf[..n]];
        ops := ops + n;
        n := 0;
      }
    }
    if n > 0 {
      CoverSend(batches, buf[..n], thread, threads, i);
      batches := batches + [buf[..n]];
      ops := ops + n;
    }
    assert Flat(batches) + [] == Flat(batches);
  }

  // ----- all threads together -----

  function Total(threads: nat, n: nat, upto: nat): nat
    requires upto <= threads
  {
    if upto == 0 then 0 else Total(threads, n, upto - 1) + |Shard(upto - 1, threads, n)|
  }

  lemma {:induction false} TotalStep(threads: nat, n: nat, upto: nat)
    requires 0 < threads && upto <= threads
    ensures Total(threads, n + 1, upto) == Total(threads, n, upto) + if n % threads < upto then 1 else 0
  {
    if upto > 0 { TotalStep(threads, n, upto - 1); }
  }

  lemma {:induction false} NoItems(threads: nat, upto: nat)
    requires upto <= threads
    ensures Total(threads, 0, upto) == 0
  {
    if upto > 0 { NoItems(threads, upto - 1); }
  }

  /** The threads' counts sum to the number of items. */
  lemma {:induction false} SeededOpsSum(threads: nat, items: nat)
    requires 0 < threads
    ensures Total(threads, items, threads) == items
  {
    if items == 0 {
      NoItems(threads, threads);
    } else {
      SeededOpsSum(threads, items - 1);
      TotalStep(threads, items - 1, threads);
    }
  }

  /** One atomic put of one thread. */
  datatype Step = Step(t: nat, row: Row)

  /** What thread t did in a run. */
  function Done(run: seq<Step>, t: nat): seq<Row> {
    if run == [] then []
    else Done(run[..|run| - 1], t) + if run[|run| - 1].t == t then [run[|run| - 1].row] else []
  }

  /** A run in which every thread finished its shard, the puts interleaved in any way. */
  ghost predicate Interleaving(run: seq<Step>, threads: nat, items: nat) {
    && (forall p :: 0 <= p < |run| ==> run[p].t < threads)
    && (forall t :: 0 <= t < threads ==> Done(run, t) == Rows(Shard(t, threads, items)))
  }

  /** The store after the run. */
  function After(run: seq<Step>): StoreLayer.Store {
    if run == [] then map[] else StoreLayer.Write(After(run[..|run| - 1]), run[|run| - 1].row, StoreLayer.Done)
  }

  /** What the workload means to load. */
  function Dataset(n: nat): StoreLayer.Store {
    if n == 0 then map[] else Dataset(n - 1)[MixedKey(n - 1) := Payload()]
  }

  ghost predicate IsKey(n: nat, k: Bytes) { exists i: nat :: i < n && k == MixedKey(i) }

  lemma {:induction false} IsKeyStep(n: nat, k: Bytes)
    ensures IsKey(n + 1, k) <==> IsKey(n, k) || k == MixedKey(n)
  {
    if IsKey(n, k) {
      var i: nat :| i < n && k == MixedKey(i);
      assert i < n + 1 && k == MixedKey(i);
    }
    if k == MixedKey(n) { assert n < n + 1 && k == MixedKey(n); }
  }

  lemma {:induction false} DatasetHas(n: nat, k: Bytes)
    ensures k in Dataset(n) <==> IsKey(n, k)
    ensures k in Dataset(n) ==> Dataset(n)[k] == Payload()
  {
    if n > 0 {
      DatasetHas(n - 1, k);
      IsKeyStep(n - 1, k);
    }
  }

  lemma {:induction false} NewKey(n: nat)
    ensures !IsKey(n, MixedKey(n))
  {
    if IsKey(n, MixedKey(n)) {
      var i: nat :| i < n && MixedKey(n) == MixedKey(i);
      MixedKeyInjective(n, i);
    }
  }

  lemma {:induction false} DatasetSize(n: nat)
    ensures |Dataset(n)| == n
  {
    if n > 0 {
      DatasetSize(n - 1);
      DatasetHas(n - 1, MixedKey(n - 1));
      NewKey(n - 1);
    }
  }

  /** Where a step stands among its thread's own. */
  lemma {:induction false} DoneAt(run: seq<Step>, p: nat)
    requires p < |run|
    ensures |Done(run[..p], run[p].t)| < |Done(run, run[p].t)|
    ensures Done(run, run[p].t)[|Done(run[..p], run[p].t)|] == run[p].row
  {
    var t, n := run[p].t, |run| - 1;
    if p < n {
      assert run[..n][..p] == run[..p];
      DoneAt(run[..n], p);
    }
  }

  lemma {:induction false} DoneGrows(run: seq<Step>, p: nat, q: nat)
    requires p < q <= |run|
    ensures |Done(run[..q], run[p].t)| > |Done(run[..p], run[p].t)|
    decreases q
  {
    var t := run[p].t;
    assert run[..q][..q - 1] == run[..q - 1];
    if p < q - 1 { DoneGrows(run, p, q - 1); }
  }

  lemma {:induction false} DoneFrom(run: seq<Step>, t: nat, k: nat) returns (p: nat)
    requires k < |Done(run, t)|
    ensures p < |run| && run[p].t == t && run[p].row == Done(run, t)[k]
  {
    var n := |run| - 1;
    if k < |Done(run[..n], t)| {
      p := DoneFrom(run[..n], t, k);
    } else {
      p := n;
    }
  }

  /** The step writes an index its thread owns. */
  lemma {:induction false} StepIndex(run: seq<Step>, threads: nat, items: nat, p: nat) returns (i: nat)
    requires Interleaving(run, threads, items) && p < |run|
    ensures i < items && run[p].row == RowOf(i) && i % threads == run[p].t
    ensures |Done(run[..p], run[p].t)| < |Shard(run[p].t, threads, items)|
    ensures i == Shard(run[p].t, threads, items)[|Done(run[..p], run[p].t)|]
  {
    DoneAt(run, p);
    i := Shard(run[p].t, threads, items)[|Done(run[..p], run[p].t)|];
  }

  /** Every index is written, and written once. */
  lemma {:induction false} WrittenOnce(run: seq<Step>, threads: nat, items: nat, i: nat) returns (p: nat)
    requires 0 < threads && Interleaving(run, threads, items) && i < items
    ensures p < |run| && run[p].row == RowOf(i)
    ensures forall q :: 0 <= q < |run| && run[q].row.key == MixedKey(i) ==> q == p
  {
    var t := i % threads;
    ShardHas(t, threads, items, i);
    var k :| 0 <= k < |Shard(t, threads, items)| && Shard(t, threads, items)[k] == i;
    p := DoneFrom(run, t, k);
    forall q | 0 <= q < |run| && run[q].row.key == MixedKey(i) ensures q == p {
      SameIndexSameStep(run, threads, items, p, q, i);
    }
  }

  lemma {:induction false} SameIndexSameStep(run: seq<Step>, threads: nat, items: nat, p: nat, q: nat, i: nat)
    requires Interleaving(run, threads, items) && p < |run| && q < |run|
    requires run[p].row.key == MixedKey(i) && run[q].row.key == MixedKey(i)
    ensures p == q
  {
    var a := StepIndex(run, threads, items, p);
    var b := StepIndex(run, threads, items, q);
    MixedKeyInjective(a, i);
    MixedKeyInjective(b, i);
    if p < q {
      DoneGrows(run, p, q);
    } else if q < p {
      DoneGrows(run, q, p);
    }
  }

  lemma {:induction false} AfterHas(run: seq<Step>, k: Bytes)
    ensures k in After(run) <==> exists p :: 0 <= p < |run| && run[p].row.key == k
    ensures (forall p :: 0 <= p < |run| ==> run[p].row.val == Payload()) ==> k in After(run) ==> After(run)[k] == Payload()
  {
    if run != [] {
      var n := |run| - 1;
      AfterHas(run[..n], k);
      if k in After(run[..n]) {
        var p :| 0 <= p < n && run[..n][p].row.key == k;
        assert run[p].row.key == k;
      }
      if run[n].row.key == k { assert run[n].row.key == k; }
      if exists p :: 0 <= p < |run| && run[p].row.key == k {
        var p :| 0 <= p < |run| && run[p].row.key == k;
        assert p < n ==> run[..n][p].row.key == k;
      }
    }
  }

  /** For every item count, thread count and interleaving, the load leaves exactly the dataset. */
  lemma {:induction false} LoadFillsStore(run: seq<Step>, threads: nat, items: nat)
    requires 0 < threads && Interleaving(run, threads, items)
    ensures After(run) == Dataset(items)
  {
    forall p | 0 <= p < |run| ensures run[p].row.val == Payload() {
      var i := StepIndex(run, threads, items, p);
    }
    forall k: Bytes ensures (k in After(run) <==> k in Dataset(items))
                            && (k in After(run) ==> After(run)[k] == Dataset(items)[k]) {
      AfterHas(run, k);
      DatasetHas(items, k);
      if k in After(run) {
        var p :| 0 <= p < |run| && run[p].row.key == k;
        var i := StepIndex(run, threads, items, p);
        assert i < items && k == MixedKey(i);
      }
      if k in Dataset(items) {
        var i: nat :| i < items && k == MixedKey(i);
        var p := WrittenOnce(run, threads, items, i);
        assert run[p].row.key == k;
      }
    }
  }
}
