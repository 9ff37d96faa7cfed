/** The load on the engines: a thread's batches through the store layer, and all threads together on
    the locked skiplist (workloads/mixed.lua over src/store.c and backends/skiplist/skiplist.c). */
module Loading {
  import opened SortedRows
  import opened Seeding
  import opened StoreLayer
  import MapSpec
  import LockedSkipList
  import LockedWriter
  import LockedRuns
  import LockedSchedules

  // ----- one thread through the store layer -----

  lemma {:induction false} WritesAppend(store: Store, a: seq<Row>, x: seq<Answer>, b: seq<Row>, y: seq<Answer>)
    requires |a| == |x| && |b| == |y|
    ensures Writes(store, a + b, x + y) == Writes(Writes(store, a, x), b, y)
    decreases |b|
  {
    if b == [] {
      assert a + b == a && x + y == x;
    } else {
      var n := |b| - 1;
      WritesAppend(store, a, x, b[..n], y[..n]);
      assert (a + b)[..|a| + n] == a + b[..n] && (x + y)[..|a| + n] == x + y[..n];
    }
  }

  lemma {:induction false} FlatNext(batches: seq<seq<Row>>, i: nat)
    requires i < |batches|
    ensures Flat(batches[..i + 1]) == Flat(batches[..i]) + batches[i]
  {
    assert batches[..i + 1][..i] == batches[..i];
  }

  /** A thread's load on an engine: its batches are sent one after another, and their codes are dropped. */
  method SendShard(be: Backend, thread: nat, threads: nat, items: nat) returns (ops: nat, ghost answers: seq<Answer>)
    requires thread < threads && Settles(be.answer, be.last)
    modifies be
    ensures ops == |answers| == |Shard(thread, threads, items)|
    ensures be.content == Writes(old(be.content), Rows(Shard(thread, threads, items)), answers)
  {
    var batches;
    batches, ops := LoadShard(thread, threads, items);
    answers := [];
    for i := 0 to |batches|
      invariant |answers| == |Flat(batches[..i])|
      invariant be.content == Writes(old(be.content), Flat(batches[..i]), answers)
    {
      ghost var before := answers;
      var rc, some := StorePutBatch(be, batches[i]);
      answers := answers + some;
      FlatNext(batches, i);
      WritesAppend(old(be.content), Flat(batches[..i]), before, batches[i], some);
    }
    assert batches[..|batches|] == batches;
  }

  // ----- all threads on the locked skiplist -----

  function PutOf(row: Row): MapSpec.Op { MapSpec.Put(row.key, row.val) }

  function PutsOf(rows: seq<Row>): (ops: seq<MapSpec.Op>)
    ensures |ops| == |rows| && forall i :: 0 <= i < |rows| ==> ops[i] == PutOf(rows[i])
  {
    seq(|rows|, i requires 0 <= i < |rows| => PutOf(rows[i]))
  }

  ghost predicate OnlyPuts(log: seq<LockedRuns.Entry>) {
    forall i :: 0 <= i < |log| ==> log[i].op.Put?
  }

  /** The completed puts with the threads that did them, in the order the lock was released. */
  function Steps(log: seq<LockedRuns.Entry>): (run: seq<Step>)
    requires forall i :: 0 <= i < |log| ==> log[i].op.Put?
  {
    seq(|log|, i requires 0 <= i < |log| => Step(log[i].tid, Row(log[i].op.key, log[i].op.val)))
  }

  /** The run on the map is the run of the load. */
  lemma {:induction false} MapRunIsLoad(log: seq<LockedRuns.Entry>)
    requires OnlyPuts(log)
    ensures MapSpec.MapReplay(map[], LockedRuns.Ops(log)) == After(Steps(log))
    decreases |log|
  {
    if log != [] {
      var n := |log| - 1;
      MapRunIsLoad(log[..n]);
      assert LockedRuns.Ops(log)[..n] == LockedRuns.Ops(log[..n]);
      assert Steps(log)[..n] == Steps(log[..n]);
    }
  }

  /** A thread's part of a log of puts is the rows it wrote. */
  lemma {:induction false} PartIsDone(log: seq<LockedRuns.Entry>, t: nat)
    requires OnlyPuts(log)
    ensures LockedSchedules.OpsBy(log, t) == PutsOf(Seeding.Done(Steps(log), t))
    decreases |log|
  {
    if log != [] {
      var n := |log| - 1;
      PartIsDone(log[..n], t);
      assert Steps(log)[..n] == Steps(log[..n]);
    }
  }

  lemma {:induction false} SamePuts(a: seq<Row>, b: seq<Row>)
    requires PutsOf(a) == PutsOf(b)
    ensures a == b
  {
    assert |a| == |PutsOf(a)| == |b|;
    forall i | 0 <= i < |a| ensures a[i] == b[i] {
      assert PutsOf(a)[i] == PutsOf(b)[i];
    }
  }

  lemma {:induction false} InOwnPart(log: seq<LockedRuns.Entry>, i: nat)
    requires i < |log|
    ensures log[i].op in LockedSchedules.OpsBy(log, log[i].tid)
  {
    var n := |log| - 1;
    if i < n { InOwnPart(log[..n], i); }
  }

  /** Thread t begins the puts of the rows of the batches it sends, in order, and a thread that sends none
      begins nothing. */
  function Sends(sent: seq<seq<seq<Row>>>, t: nat): seq<MapSpec.Op> {
    if t < |sent| then PutsOf(Flat(sent[t])) else []
  }

  /** The puts done are those sent, in each thread's order. */
  lemma {:induction false} SentInterleave(log: seq<LockedRuns.Entry>, sent: seq<seq<seq<Row>>>, items: nat)
    requires forall t :: LockedSchedules.OpsBy(log, t) == Sends(sent, t)
    requires forall t :: 0 <= t < |sent| ==> Flat(sent[t]) == Rows(Shard(t, |sent|, items))
    ensures OnlyPuts(log) && Interleaving(Steps(log), |sent|, items)
  {
    forall i | 0 <= i < |log| ensures log[i].op.Put? && log[i].tid < |sent| {
      InOwnPart(log, i);
      assert LockedSchedules.OpsBy(log, log[i].tid) == Sends(sent, log[i].tid);
    }
    forall t | 0 <= t < |sent| ensures Seeding.Done(Steps(log), t) == Rows(Shard(t, |sent|, items)) {
      PartIsDone(log, t);
      assert LockedSchedules.OpsBy(log, t) == Sends(sent, t);
      SamePuts(Seeding.Done(Steps(log), t), Flat(sent[t]));
    }
  }

  /** Every thread began the puts of the batches it sent, and all of them are between operations again. */
  ghost predicate AllLoaded(head: LockedSkipList.Addr, tids: set<LockedSkipList.Tid>,
                            schedule: seq<(LockedSkipList.Tid, LockedRuns.Event)>, sent: seq<seq<seq<Row>>>) {
    var start := LockedRuns.Initial(head, tids);
    && (forall t :: LockedSchedules.Begun(start, schedule, t) == Sends(sent, t))
    && (forall t :: t in LockedRuns.Run(start, schedule).threads ==> LockedRuns.Run(start, schedule).threads[t].Idle?)
  }

  lemma {:induction false} LoadedOps(head: LockedSkipList.Addr, tids: set<LockedSkipList.Tid>,
                                     schedule: seq<(LockedSkipList.Tid, LockedRuns.Event)>, sent: seq<seq<seq<Row>>>)
    requires AllLoaded(head, tids, schedule, sent)
    ensures var s := LockedRuns.Run(LockedRuns.Initial(head, tids), schedule);
            s.writer.None? && forall t :: LockedSchedules.OpsBy(s.log, t) == Sends(sent, t)
  {
    var s := LockedRuns.Run(LockedRuns.Initial(head, tids), schedule);
    LockedRuns.RunKeepsInv(head, tids, schedule);
    forall t ensures LockedSchedules.OpsBy(s.log, t) == Sends(sent, t) {
      LockedSchedules.OpsAreBegun(head, tids, schedule, t);
      assert LockedSchedules.Begun(LockedRuns.Initial(head, tids), schedule, t) == Sends(sent, t);
    }
  }

  /** The load of a workload on the engine it is measured on: on every schedule on which each thread begins
      the puts of its shard's batches in order and is done, the skiplist's memory holds the dataset, a row for
      each item and no other, and its count says so. */
  lemma {:induction false} LoadOnSkipList(head: LockedSkipList.Addr, tids: set<LockedSkipList.Tid>,
                                          schedule: seq<(LockedSkipList.Tid, LockedRuns.Event)>,
                                          sent: seq<seq<seq<Row>>>, items: nat)
    returns (rows: seq<Row>)
    requires sent != [] && forall t :: 0 <= t < |sent| ==> Flat(sent[t]) == Rows(Shard(t, |sent|, items))
    requires AllLoaded(head, tids, schedule, sent)
    ensures var s := LockedRuns.Run(LockedRuns.Initial(head, tids), schedule);
            && LockedWriter.Holds(s.mem, rows) && Sorted(rows) && ToMap(rows) == Dataset(items)
            && |rows| == items && s.mem.count == items
  {
    var s := LockedRuns.Run(LockedRuns.Initial(head, tids), schedule);
    LoadedOps(head, tids, schedule, sent);
    LockedRuns.Linearizable(head, tids, schedule);
    var ops := LockedRuns.Ops(s.log);
    rows := MapSpec.Replay([], ops);
    MapSpec.RunsRefineMap([], ops);
    SentInterleave(s.log, sent, items);
    MapRunIsLoad(s.log);
    LoadFillsStore(Steps(s.log), |sent|, items);
    MapSize(rows);
    DatasetSize(items);
  }
}
