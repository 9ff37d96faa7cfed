/** One timed run: splitting an operation budget over workers or stopping them by the clock, and merging what they
    recorded (src/main.c). */
module TimedRun {
  import opened Numbers
  import opened OpStats

  function Share(ops: int, n: nat, t: nat): int
    requires n > 0
  {
    TruncDiv(ops, n) + if t < TruncMod(ops, n) then 1 else 0
  }

  function Budget(share: int): nat { if share < 0 then 0 else share }

  function Units(ops: int, n: nat, upto: nat): nat
    requires n > 0
  {
    if upto == 0 then 0 else Units(ops, n, upto - 1) + Budget(Share(ops, n, upto - 1))
  }

  lemma {:induction false} ShareIs(ops: nat, n: nat, t: nat)
    requires n > 0
    ensures Share(ops, n, t) == ops / n + if t < ops % n then 1 else 0
    ensures Budget(Share(ops, n, t)) == Share(ops, n, t)
  {
    TruncOfNat(ops, n);
  }

  lemma {:induction false} SharesUpTo(ops: nat, n: nat, k: nat, q: nat, r: nat)
    requires 0 < n && k <= n && q == ops / n && r == ops % n
    ensures Units(ops, n, k) == k * q + if k < r then k else r
  {
    if k > 0 {
      SharesUpTo(ops, n, k - 1, q, r);
      ShareIs(ops, n, k - 1);
      TimesNext(k, q);
    }
  }

  lemma {:induction false} NegativeShare(ops: int, n: nat, t: nat)
    requires 0 < n && ops < 0
    ensures Share(ops, n, t) == TruncDiv(ops, n) <= 0
  {
    var q := (-ops) / n;
    assert q * n <= -ops;
    assert TruncMod(ops, n) == ops + q * n <= 0;
  }

  lemma {:induction false} NoSharesBelowZero(ops: int, n: nat, k: nat)
    requires 0 < n && k <= n && ops < 0
    ensures Units(ops, n, k) == 0
  {
    if k > 0 {
      NoSharesBelowZero(ops, n, k - 1);
      NegativeShare(ops, n, k - 1);
    }
  }

  lemma {:induction false} WholeBudget(ops: nat, n: nat)
    requires 0 < n
    ensures Units(ops, n, n) == ops
  {
    var q, r := ops / n, ops % n;
    SharesUpTo(ops, n, n, q, r);
    assert ops == n * q + r && r < n;
  }

  /** The whole budget is handed out, and shares differ by at most one with the larger ones first. */
  lemma {:induction false} BudgetSplit(ops: int, n: nat, t: nat, u: nat)
    requires 0 < n && t <= u < n
    ensures Units(ops, n, n) == if ops < 0 then 0 else ops
    ensures 0 <= Share(ops, n, t) - Share(ops, n, u) <= 1
  {
    if ops >= 0 {
      WholeBudget(ops, n);
      ShareIs(ops, n, t);
      ShareIs(ops, n, u);
    } else {
      NoSharesBelowZero(ops, n, n);
      NegativeShare(ops, n, t);
      NegativeShare(ops, n, u);
    }
  }

  // ----- what the workers issue -----

  /** One iteration of the workload: the verbs it calls, up to where it fails if it does. */
  datatype Iteration = Iteration(calls: seq<Call>, fails: bool)

  /** What iteration i of worker t does. */
  type Workload = (nat, nat) -> Iteration

  /** When a worker's loop ends: after so many iterations, or once the clock says so before one of them,
      which it does by the last at the latest. */
  datatype Limit = Ops(n: int) | Until(over: nat -> bool, last: nat)

  predicate Over(lim: Limit, i: nat) {
    match lim
    case Ops(n) => i >= n
    case Until(over, last) => i >= last || over(i)
  }

  function Bound(lim: Limit): (k: nat)
    ensures Over(lim, k)
  {
    match lim
    case Ops(n) => Budget(n)
    case Until(_, last) => last
  }

  /** A run on an operation budget split over the workers, or on the clock, which each worker reads for itself. */
  datatype Mode = ByOps(ops: int) | ByClock(over: (nat, nat) -> bool, last: nat)

  function LimitOf(mode: Mode, n: nat, t: nat): Limit
    requires n > 0
  {
    match mode
    case ByOps(ops) => Ops(Share(ops, n, t))
    case ByClock(over, last) => Until((i: nat) => over(t, i), last)
  }

  /** The iterations a worker completes from its i-th on: to its limit, or up to one that fails. */
  function Completed(work: Workload, t: nat, lim: Limit, i: nat): (k: nat)
    ensures i <= k && (Over(lim, k) || work(t, k).fails)
    ensures forall j :: i <= j < k ==> !Over(lim, j) && !work(t, j).fails
    decreases Bound(lim) - i
  {
    if Over(lim, i) || work(t, i).fails then i else Completed(work, t, lim, i + 1)
  }

  /** The calls of a worker's first k iterations. */
  function Issued(work: Workload, t: nat, k: nat): seq<Call> {
    if k == 0 then [] else Issued(work, t, k - 1) + work(t, k - 1).calls
  }

  /** A worker's calls, those of the failing iteration included. */
  function WorkerCalls(work: Workload, t: nat, lim: Limit): seq<Call> {
    var k := Completed(work, t, lim, 0);
    Issued(work, t, if Over(lim, k) then k else k + 1)
  }

  /** Iteration i is begun: the limit lets the worker reach it and none before it fails. */
  ghost predicate Begun(work: Workload, t: nat, lim: Limit, i: nat) {
    Reaches(lim, i) && forall j: nat :: j < i ==> !work(t, j).fails
  }

  lemma {:induction false} IssuedPrefix(work: Workload, t: nat, i: nat, k: nat)
    requires i <= k
    ensures Issued(work, t, i) <= Issued(work, t, k)
    decreases k - i
  {
    if i < k { IssuedPrefix(work, t, i, k - 1); }
  }

  /** A worker's calls are those of the iterations it begins, one after another: every one of them is there,
      the first that fails included, and no other. */
  lemma {:induction false} CallsOfBegun(work: Workload, t: nat, lim: Limit, i: nat)
    ensures Begun(work, t, lim, i) ==> Issued(work, t, i) + work(t, i).calls <= WorkerCalls(work, t, lim)
    ensures !Begun(work, t, lim, i) ==> WorkerCalls(work, t, lim) <= Issued(work, t, i)
  {
    var k := Completed(work, t, lim, 0);
    var n := if Over(lim, k) then k else k + 1;
    if Begun(work, t, lim, i) {
      assert i <= k && (Over(lim, k) ==> i < k);
      IssuedPrefix(work, t, i + 1, n);
    } else {
      BegunUpTo(work, t, lim, i);
      IssuedPrefix(work, t, n, i);
    }
  }

  lemma {:induction false} BegunUpTo(work: Workload, t: nat, lim: Limit, i: nat)
    requires !Begun(work, t, lim, i)
    ensures var k := Completed(work, t, lim, 0); i >= if Over(lim, k) then k else k + 1
  {
    var k := Completed(work, t, lim, 0);
    if i < k || (i == k && !Over(lim, k)) {
      assert Reaches(lim, i);
    }
  }

  /** The calls of every worker of a run. */
  function Shares(work: Workload, mode: Mode, n: nat): seq<seq<Call>>
    requires n > 0
  {
    seq(n, t requires 0 <= t < n => WorkerCalls(work, t, LimitOf(mode, n, t)))
  }

  /** The calls of all workers, one worker after another. */
  function CallsOf(shares: seq<seq<Call>>): seq<Call> {
    if shares == [] then [] else CallsOf(shares[..|shares| - 1]) + shares[|shares| - 1]
  }

  function RunUnits(work: Workload, mode: Mode, n: nat, upto: nat): nat
    requires n > 0
  {
    if upto == 0 then 0
    else RunUnits(work, mode, n, upto - 1) + Completed(work, upto - 1, LimitOf(mode, n, upto - 1), 0)
  }

  /** The worker gets to iteration i if none before it fails. */
  ghost predicate Reaches(lim: Limit, i: nat) {
    forall j: nat :: j <= i ==> !Over(lim, j)
  }

  /** No iteration within the worker's limit fails. */
  ghost predicate CleanWorker(work: Workload, t: nat, lim: Limit) {
    forall i: nat :: Reaches(lim, i) ==> !work(t, i).fails
  }

  ghost predicate Clean(work: Workload, mode: Mode, n: nat)
    requires n > 0
  {
    forall t: nat :: t < n ==> CleanWorker(work, t, LimitOf(mode, n, t))
  }

  lemma {:induction false} CleanIff(work: Workload, t: nat, lim: Limit)
    ensures CleanWorker(work, t, lim) <==> Over(lim, Completed(work, t, lim, 0))
    ensures CleanWorker(work, t, lim) && lim.Ops? ==> Completed(work, t, lim, 0) == Budget(lim.n)
  {
    var k := Completed(work, t, lim, 0);
    if !Over(lim, k) {
      assert Reaches(lim, k);
    } else {
      assert forall i: nat :: Reaches(lim, i) ==> i < k;
      assert k > 0 ==> !Over(lim, k - 1);
    }
  }

  lemma {:induction false} CleanUnits(work: Workload, ops: int, n: nat, upto: nat)
    requires n > 0 && upto <= n && Clean(work, ByOps(ops), n)
    ensures RunUnits(work, ByOps(ops), n, upto) == Units(ops, n, upto)
  {
    if upto > 0 {
      var t := upto - 1;
      CleanUnits(work, ops, n, t);
      CleanIff(work, t, LimitOf(ByOps(ops), n, t));
      assert CleanWorker(work, t, LimitOf(ByOps(ops), n, t));
    }
  }

  // ----- one worker -----

  /** The worker's loop: run until the limit or an iteration that fails, each verb filed in the worker's
      own context. */
  method WorkerLoop(work: Workload, t: nat, lim: Limit, ctx: Context) returns (units: nat, err: bool)
    requires ctx.Valid() && ctx.Model() == StatsOf([])
    modifies ctx, ctx.repr
    ensures units == Completed(work, t, lim, 0) && (!err <==> Over(lim, units))
    ensures ctx.Valid() && ctx.Model() == StatsOf(WorkerCalls(work, t, lim))
  {
    units, err := 0, false;
    while !Over(lim, units)
      invariant Completed(work, t, lim, units) == Completed(work, t, lim, 0) && !err
      invariant ctx.Valid() && ctx.Model() == StatsOf(Issued(work, t, units))
      decreases Bound(lim) - units
    {
      var iter := work(t, units);
      ctx.IssueAll(iter.calls, Issued(work, t, units));
      assert Issued(work, t, units + 1) == Issued(work, t, units) + iter.calls;
      if iter.fails { return units, true; }
      units := units + 1;
    }
  }

  // ----- the run -----

  /** A worker with its own context and what it ended with. */
  datatype WorkerEnd = WorkerEnd(ctx: Context, units: nat, err: bool)

  /** The worker's context holds the stats s. */
  ghost predicate Holds(w: WorkerEnd, s: Stats)
    reads w.ctx, w.ctx.repr
  {
    w.ctx.Valid() && w.ctx.Model() == s
  }

  ghost predicate AllFits(models: seq<Stats>) {
    forall t :: 0 <= t < |models| ==> Fit(models[t])
  }

  /** Stats merged one after another, starting from none. */
  function MergeAll(models: seq<Stats>): (s: Stats)
    requires AllFits(models)
    ensures Fit(s)
  {
    if models == [] then
      FitStats([]);
      StatsOf([])
    else
      var before, last := MergeAll(models[..|models| - 1]), models[|models| - 1];
      FitMerge(before, last);
      Merge(before, last)
  }

  /** What each worker recorded. */
  function ModelsOf(shares: seq<seq<Call>>): seq<Stats> {
    seq(|shares|, t requires 0 <= t < |shares| => StatsOf(shares[t]))
  }

  lemma {:induction false} FitModels(shares: seq<seq<Call>>)
    ensures AllFits(ModelsOf(shares))
  {
    forall t | 0 <= t < |shares| ensures Fit(ModelsOf(shares)[t]) {
      FitStats(shares[t]);
    }
  }

  lemma {:induction false} LastModel(shares: seq<seq<Call>>)
    requires shares != []
    ensures var n := |shares| - 1; ModelsOf(shares)[..n] == ModelsOf(shares[..n]) && ModelsOf(shares)[n] == StatsOf(shares[n])
  {
  }

  /** Merging what the workers recorded is recording all their calls in one place. */
  lemma {:induction false} MergeAllIsOne(shares: seq<seq<Call>>)
    ensures AllFits(ModelsOf(shares)) && MergeAll(ModelsOf(shares)) == StatsOf(CallsOf(shares))
  {
    FitModels(shares);
    if shares != [] {
      var before, last := shares[..|shares| - 1], shares[|shares| - 1];
      MergeAllIsOne(before);
      LastModel(shares);
      MergeStatsIsAppend(CallsOf(before), last);
    }
  }

  /** What worker t of the run ended with. */
  ghost predicate Ended(w: WorkerEnd, work: Workload, t: nat, lim: Limit) {
    w.units == Completed(work, t, lim, 0) && (!w.err <==> CleanWorker(work, t, lim))
  }

  /** What worker t of the run records. */
  ghost predicate Records(model: Stats, work: Workload, t: nat, lim: Limit) {
    model == StatsOf(WorkerCalls(work, t, lim))
  }

  lemma {:induction false} ModelsRecord(work: Workload, mode: Mode, n: nat)
    requires n > 0
    ensures |ModelsOf(Shares(work, mode, n))| == n
    ensures forall t {:trigger Records(ModelsOf(Shares(work, mode, n))[t], work, t, LimitOf(mode, n, t))} ::
              0 <= t < n ==> Records(ModelsOf(Shares(work, mode, n))[t], work, t, LimitOf(mode, n, t))
  {
  }

  /** One worker in a context of its own. */
  method RunWorker(work: Workload, t: nat, lim: Limit, ghost model: Stats) returns (w: WorkerEnd)
    requires Records(model, work, t, lim)
    ensures fresh(w.ctx) && fresh(w.ctx.repr) && Holds(w, model)
    ensures Ended(w, work, t, lim)
  {
    var ctx := new Context();
    var units, err := WorkerLoop(work, t, lim, ctx);
    CleanIff(work, t, lim);
    w := WorkerEnd(ctx, units, err);
  }

  /** The t-th worker on its share. */
  method RunShare(work: Workload, mode: Mode, n: nat, t: nat, ghost models: seq<Stats>) returns (w: WorkerEnd)
    requires t < n == |models|
    requires forall u {:trigger Records(models[u], work, u, LimitOf(mode, n, u))} ::
               0 <= u < n ==> Records(models[u], work, u, LimitOf(mode, n, u))
    ensures fresh(w.ctx) && fresh(w.ctx.repr) && Holds(w, models[t])
    ensures Ended(w, work, t, LimitOf(mode, n, t))
  {
    assert Records(models[t], work, t, LimitOf(mode, n, t));
    w := RunWorker(work, t, LimitOf(mode, n, t), models[t]);
  }

  /** Run every worker on its share. */
  method RunWorkers(work: Workload, mode: Mode, n: nat, ghost models: seq<Stats>) returns (ws: seq<WorkerEnd>)
    requires 0 < n == |models|
    requires forall t {:trigger Records(models[t], work, t, LimitOf(mode, n, t))} ::
               0 <= t < n ==> Records(models[t], work, t, LimitOf(mode, n, t))
    ensures |ws| == n
    ensures forall t :: 0 <= t < n ==> fresh(ws[t].ctx) && fresh(ws[t].ctx.repr) && Holds(ws[t], models[t])
    ensures forall t :: 0 <= t < n ==> Ended(ws[t], work, t, LimitOf(mode, n, t))
  {
    ws := [];
    for t := 0 to n
      invariant |ws| == t
      invariant forall u :: 0 <= u < t ==> fresh(ws[u].ctx) && fresh(ws[u].ctx.repr) && Holds(ws[u], models[u])
      invariant forall u :: 0 <= u < t ==> Ended(ws[u], work, u, LimitOf(mode, n, u))
    {
      var w := RunShare(work, mode, n, t, models);
      ws := ws + [w];
    }
  }

  function UnitsOf(ws: seq<WorkerEnd>): seq<nat> {
    seq(|ws|, t requires 0 <= t < |ws| => ws[t].units)
  }

  lemma {:induction false} UnitsNext(ws: seq<WorkerEnd>, t: nat)
    requires t < |ws|
    ensures Sum(UnitsOf(ws)[..t + 1]) == Sum(UnitsOf(ws)[..t]) + ws[t].units
  {
    assert UnitsOf(ws)[..t + 1] == UnitsOf(ws)[..t] + [ws[t].units];
    SumSnoc(UnitsOf(ws)[..t], ws[t].units);
  }

  lemma {:induction false} MergeAllNext(models: seq<Stats>, t: nat)
    requires t < |models| && AllFits(models)
    ensures AllFits(models[..t]) && AllFits(models[..t + 1]) && Fit(models[t])
    ensures MergeAll(models[..t + 1]) == Merge(MergeAll(models[..t]), models[t])
  {
    assert models[..t + 1][..t] == models[..t];
  }

  lemma {:induction false} Whole(models: seq<Stats>, ws: seq<WorkerEnd>)
    ensures models[..|models|] == models && UnitsOf(ws)[..|ws|] == UnitsOf(ws) && models[..0] == []
  {
  }

  /** The loop over the joined workers, into a context of its own. */
  method MergeWorkers(ws: seq<WorkerEnd>, ghost models: seq<Stats>, total: Context) returns (units: nat, ok: bool)
    requires |ws| == |models| && AllFits(models) && total.Valid() && total.Model() == StatsOf([])
    requires forall t :: 0 <= t < |ws| ==> total.Apart(ws[t].ctx)
    requires forall t :: 0 <= t < |ws| ==> Holds(ws[t], models[t])
    modifies total, total.repr
    ensures total.Valid() && total.Model() == MergeAll(models)
    ensures units == Sum(UnitsOf(ws)) && (ok <==> forall t :: 0 <= t < |ws| ==> !ws[t].err)
  {
    units, ok := 0, true;
    Whole(models, ws);
    for t := 0 to |ws|
      invariant total.Valid() && total.Model() == MergeAll(models[..t])
      invariant forall u :: t <= u < |ws| ==> Holds(ws[u], models[u])
      invariant units == Sum(UnitsOf(ws)[..t]) && (ok <==> forall u :: 0 <= u < t ==> !ws[u].err)
    {
      MergeAllNext(models, t);
      MergeNext(ws, models, t, total);
      UnitsNext(ws, t);
      units := units + ws[t].units;
      if ws[t].err { ok := false; }
    }
  }

  /** stats_merge of the next worker. */
  method MergeNext(ws: seq<WorkerEnd>, ghost models: seq<Stats>, t: nat, total: Context)
    requires t < |ws| == |models| && total.Valid()
    requires forall u :: 0 <= u < |ws| ==> total.Apart(ws[u].ctx)
    requires forall u :: t <= u < |ws| ==> Holds(ws[u], models[u])
    modifies total, total.repr
    ensures Fit(models[t]) && total.Valid() && total.Model() == Merge(old(total.Model()), models[t])
    ensures forall u :: t < u < |ws| ==> Holds(ws[u], models[u])
  {
    total.MergeFrom(ws[t].ctx);
  }

  lemma {:induction false} UnitsAre(ws: seq<WorkerEnd>, work: Workload, mode: Mode, n: nat, upto: nat)
    requires n > 0 && upto <= |ws| && forall t :: 0 <= t < |ws| ==> Ended(ws[t], work, t, LimitOf(mode, n, t))
    ensures Sum(UnitsOf(ws)[..upto]) == RunUnits(work, mode, n, upto)
  {
    if upto > 0 {
      UnitsAre(ws, work, mode, n, upto - 1);
      assert UnitsOf(ws)[..upto] == UnitsOf(ws)[..upto - 1] + [ws[upto - 1].units];
      SumSnoc(UnitsOf(ws)[..upto - 1], ws[upto - 1].units);
    }
  }

  method RunAndMerge(work: Workload, mode: Mode, n: nat, ghost models: seq<Stats>)
    returns (total: Context, units: nat, ok: bool, ghost ws: seq<WorkerEnd>)
    requires 0 < n == |models| && AllFits(models)
    requires forall t {:trigger Records(models[t], work, t, LimitOf(mode, n, t))} ::
               0 <= t < n ==> Records(models[t], work, t, LimitOf(mode, n, t))
    ensures total.Valid() && total.Model() == MergeAll(models)
    ensures |ws| == n && forall t :: 0 <= t < n ==> Ended(ws[t], work, t, LimitOf(mode, n, t))
    ensures units == Sum(UnitsOf(ws)) && (ok <==> forall t :: 0 <= t < n ==> !ws[t].err)
  {
    total := new Context();
    var workers := RunWorkers(work, mode, n, models);
    ws := workers;
    assert forall t :: 0 <= t < n ==> total.Apart(ws[t].ctx);
    units, ok := MergeWorkers(workers, models, total);
  }

  /** measure_timed: the workers' recorders are merged into one; it holds what one recorder would have seen
      of every verb any worker called. The run is good exactly when no worker hit an error, and then
      on a budget its units are the whole of it. */
  method MeasureTimed(work: Workload, mode: Mode, n: nat) returns (total: Context, units: nat, ok: bool)
    requires n > 0
    ensures total.Valid() && total.Model() == StatsOf(CallsOf(Shares(work, mode, n)))
    ensures Describes(total.Model(), CallsOf(Shares(work, mode, n)))
    ensures PrimsBalance(total.Model(), CallsOf(Shares(work, mode, n))) && LookupsBalance(total.Model(), CallsOf(Shares(work, mode, n)))
    ensures ok <==> Clean(work, mode, n)
    ensures units == RunUnits(work, mode, n, n) && (ok && mode.ByOps? ==> units == Budget(mode.ops))
  {
    ghost var models := ModelsOf(Shares(work, mode, n));
    ModelsRecord(work, mode, n);
    FitModels(Shares(work, mode, n));
    ghost var ws;
    total, units, ok, ws := RunAndMerge(work, mode, n, models);
    MergeAllIsOne(Shares(work, mode, n));
    RunEnds(ws, work, mode, n);
    RunAccounting(CallsOf(Shares(work, mode, n)));
  }

  lemma {:induction false} RunEnds(ws: seq<WorkerEnd>, work: Workload, mode: Mode, n: nat)
    requires n > 0 && |ws| == n && forall t :: 0 <= t < n ==> Ended(ws[t], work, t, LimitOf(mode, n, t))
    ensures Sum(UnitsOf(ws)) == RunUnits(work, mode, n, n)
    ensures (forall t :: 0 <= t < n ==> !ws[t].err) <==> Clean(work, mode, n)
    ensures Clean(work, mode, n) && mode.ByOps? ==> RunUnits(work, mode, n, n) == Budget(mode.ops)
  {
    UnitsAre(ws, work, mode, n, n);
    assert UnitsOf(ws)[..n] == UnitsOf(ws);
    if Clean(work, mode, n) && mode.ByOps? {
      CleanUnits(work, mode.ops, n, n);
      BudgetSplit(mode.ops, n, 0, 0);
    }
  }

  lemma {:induction false} RunAccounting(calls: seq<Call>)
    ensures Describes(StatsOf(calls), calls) && PrimsBalance(StatsOf(calls), calls) && LookupsBalance(StatsOf(calls), calls)
  {
    StatsDescribe(calls);
    PrimAccounting(calls);
    LookupAccounting(calls);
  }

  /** So for any order in which the workers' calls really interleaved, the reported stats are those of
      one recorder that saw them in that order. */
  lemma {:induction false} StatsOfAnyInterleaving(work: Workload, mode: Mode, n: nat, seen: seq<Call>)
    requires n > 0 && multiset(seen) == multiset(CallsOf(Shares(work, mode, n)))
    ensures StatsOf(CallsOf(Shares(work, mode, n))) == StatsOf(seen)
  {
    StatsOrderIrrelevant(CallsOf(Shares(work, mode, n)), seen);
  }
}
