/** Accounting of the workload verbs (src/kvlua.c): which histogram a call is filed in,
    how many primitive operations it counts for, and the hit, miss and error counters. */
module OpStats {
  import opened Numbers
  import opened Sequences
  import opened Buckets
  import opened Histogram

  const OP_PUT: nat := 0
  const OP_GET: nat := 1
  const OP_DEL: nat := 2
  const OP_RANGE: nat := 3
  const OP_MGET: nat := 4
  const OP_MPUT: nat := 5
  const OP_MDEL: nat := 6
  const OP_COUNT: nat := 7

  datatype Outcome = Hit | Miss | Error

  /** A lookup's code is positive when found and negative on an engine error. */
  function Judge(code: int): Outcome {
    if code > 0 then Hit else if code < 0 then Error else Miss
  }

  function Judged(codes: seq<int>): multiset<Outcome> {
    if codes == [] then multiset{} else Judged(codes[..|codes| - 1]) + multiset{Judge(codes[|codes| - 1])}
  }

  lemma {:induction false} JudgedSize(codes: seq<int>)
    ensures |Judged(codes)| == |codes|
  {
    if codes != [] { JudgedSize(codes[..|codes| - 1]); }
  }

  /** A verb call with its latency and the codes its lookups returned. */
  datatype Call =
    | Put(ns: U64)
    | Get(found: int, ns: U64)
    | Del(ns: U64)
    | Range(ns: U64)
    | Scan(ns: U64)
    | Mget(codes: seq<int>, ns: U64)
    | Mput(n: nat, ns: U64)
    | Mdel(n: nat, ns: U64)

  datatype Counters = Counters(prim: nat, hits: nat, misses: nat, errors: nat)
  datatype Stats = Stats(h: seq<Hist>, n: Counters)

  predicate AllFit(h: seq<Hist>) {
    |h| == OP_COUNT && forall i :: 0 <= i < OP_COUNT ==> Fits(h[i])
  }

  predicate Fit(s: Stats) {
    AllFit(s.h)
  }

  // ----- what a sequence of calls amounts to -----

  function Kind(c: Call): nat {
    match c
    case Put(_) => OP_PUT
    case Get(_, _) => OP_GET
    case Del(_) => OP_DEL
    case Range(_) => OP_RANGE
    case Scan(_) => OP_RANGE
    case Mget(_, _) => OP_MGET
    case Mput(_, _) => OP_MPUT
    case Mdel(_, _) => OP_MDEL
  }

  function Prims(c: Call): nat {
    match c
    case Mget(codes, _) => |codes|
    case Mput(n, _) => n
    case Mdel(n, _) => n
    case _ => 1
  }

  function Outcomes(c: Call, o: Outcome): nat {
    match c
    case Get(found, _) => if Judge(found) == o then 1 else 0
    case Mget(codes, _) => Judged(codes)[o]
    case _ => 0
  }

  function Latencies(calls: seq<Call>, op: nat): seq<U64> {
    if calls == [] then []
    else (if Kind(calls[0]) == op then [calls[0].ns] else []) + Latencies(calls[1..], op)
  }

  function HistsOf(calls: seq<Call>): seq<Hist> {
    seq(OP_COUNT, i requires 0 <= i < OP_COUNT => Of(Latencies(calls, i)))
  }

  function AddCounters(a: Counters, b: Counters): (c: Counters)
  {
    Counters(a.prim + b.prim, a.hits + b.hits, a.misses + b.misses, a.errors + b.errors)
  }

  function PrimsOf(calls: seq<Call>): seq<nat> {
    seq(|calls|, i requires 0 <= i < |calls| => Prims(calls[i]))
  }

  function OutcomesOf(calls: seq<Call>, o: Outcome): seq<nat> {
    seq(|calls|, i requires 0 <= i < |calls| => Outcomes(calls[i], o))
  }

  function CountersOf(calls: seq<Call>): Counters {
    Counters(Sum(PrimsOf(calls)), Sum(OutcomesOf(calls, Hit)), Sum(OutcomesOf(calls, Miss)), Sum(OutcomesOf(calls, Error)))
  }

  function StatsOf(calls: seq<Call>): Stats {
    Stats(HistsOf(calls), CountersOf(calls))
  }

  function MergeHists(a: seq<Hist>, b: seq<Hist>): seq<Hist>
    requires AllFit(a) && AllFit(b)
  {
    seq(OP_COUNT, i requires 0 <= i < OP_COUNT => Plus(a[i], b[i]))
  }

  /** stats_merge as a function. */
  function Merge(a: Stats, b: Stats): Stats
    requires Fit(a) && Fit(b)
  {
    Stats(MergeHists(a.h, b.h), AddCounters(a.n, b.n))
  }

  lemma {:induction false} LatenciesAppend(a: seq<Call>, b: seq<Call>, op: nat)
    ensures Latencies(a + b, op) == Latencies(a, op) + Latencies(b, op)
  {
    if a == [] {
      assert a + b == b;
    } else {
      var mine: seq<U64> := if Kind(a[0]) == op then [a[0].ns] else [];
      var rest, tail := Latencies(a[1..], op), Latencies(b, op);
      LatenciesAppend(a[1..], b, op);
      assert (a + b)[0] == a[0] && (a + b)[1..] == a[1..] + b;
      assert Latencies(a + b, op) == mine + (rest + tail) == (mine + rest) + tail;
    }
  }

  lemma {:induction false} FitHist(samples: seq<U64>)
    ensures Fits(Of(samples))
  {
    LeastBound(samples);
    GreatestBound(samples);
  }

  lemma {:induction false} GreatestBound(s: seq<U64>)
    ensures Greatest(s) < W
  {
    if s != [] { GreatestBound(s[1..]); }
  }

  lemma {:induction false} FitStats(calls: seq<Call>)
    ensures Fit(StatsOf(calls))
  {
    forall i | 0 <= i < OP_COUNT ensures Fits(StatsOf(calls).h[i]) {
      FitHist(Latencies(calls, i));
    }
  }

  lemma {:induction false} HistsAppend(a: seq<Call>, b: seq<Call>)
    requires Fit(StatsOf(a)) && Fit(StatsOf(b))
    ensures HistsOf(a + b) == MergeHists(HistsOf(a), HistsOf(b))
  {
    forall i | 0 <= i < OP_COUNT ensures Of(Latencies(a + b, i)) == Plus(Of(Latencies(a, i)), Of(Latencies(b, i))) {
      LatenciesAppend(a, b, i);
      MergeIsAppend(Latencies(a, i), Latencies(b, i));
    }
  }

  lemma {:induction false} PrimsAppend(a: seq<Call>, b: seq<Call>)
    ensures Sum(PrimsOf(a + b)) == Sum(PrimsOf(a)) + Sum(PrimsOf(b))
  {
    assert PrimsOf(a + b) == PrimsOf(a) + PrimsOf(b);
    SumAppend(PrimsOf(a), PrimsOf(b));
  }

  lemma {:induction false} OutcomesAppend(a: seq<Call>, b: seq<Call>, o: Outcome)
    ensures Sum(OutcomesOf(a + b, o)) == Sum(OutcomesOf(a, o)) + Sum(OutcomesOf(b, o))
  {
    assert OutcomesOf(a + b, o) == OutcomesOf(a, o) + OutcomesOf(b, o);
    SumAppend(OutcomesOf(a, o), OutcomesOf(b, o));
  }

  lemma {:induction false} CountersAdd(z: Counters, x: Counters, y: Counters)
    requires z.prim == x.prim + y.prim && z.hits == x.hits + y.hits
    requires z.misses == x.misses + y.misses && z.errors == x.errors + y.errors
    ensures AddCounters(x, y) == z
  {
  }

  lemma {:induction false} CountersAppend(a: seq<Call>, b: seq<Call>)
    ensures AddCounters(CountersOf(a), CountersOf(b)) == CountersOf(a + b)
  {
    var x, y, z := CountersOf(a), CountersOf(b), CountersOf(a + b);
    assert z.prim == x.prim + y.prim by { PrimsAppend(a, b); }
    assert z.hits == x.hits + y.hits by { OutcomesAppend(a, b, Hit); }
    assert z.misses == x.misses + y.misses by { OutcomesAppend(a, b, Miss); }
    assert z.errors == x.errors + y.errors by { OutcomesAppend(a, b, Error); }
    CountersAdd(z, x, y);
  }

  /** The stats of two recorders merged are the stats of one recorder that saw both. */
  lemma {:induction false} MergeStatsIsAppend(a: seq<Call>, b: seq<Call>)
    ensures Fit(StatsOf(a)) && Fit(StatsOf(b)) && StatsOf(a + b) == Merge(StatsOf(a), StatsOf(b))
  {
    FitStats(a);
    FitStats(b);
    HistsAppend(a, b);
    CountersAppend(a, b);
  }

  // ----- conservation -----

  function BatchKeys(calls: seq<Call>): nat {
    if calls == [] then 0
    else (if Kind(calls[0]) >= OP_MGET then Prims(calls[0]) else 0) + BatchKeys(calls[1..])
  }

  function MgetKeys(calls: seq<Call>): nat {
    if calls == [] then 0
    else (if calls[0].Mget? then |calls[0].codes| else 0) + MgetKeys(calls[1..])
  }

  lemma {:induction false} OutcomesAreAll(m: multiset<Outcome>)
    ensures m[Hit] + m[Miss] + m[Error] == |m|
  {
    var m1 := m[Hit := 0];
    var m2 := m1[Miss := 0];
    var m3 := m2[Error := 0];
    forall o: Outcome ensures m3[o] == 0 {
      match o
      case Hit =>
      case Miss =>
      case Error =>
    }
    assert m3 == multiset{};
    assert |m1| == |m| - m[Hit] && |m2| == |m1| - m1[Miss] && |m3| == |m2| - m2[Error];
  }

  lemma {:induction false} HeadCounters(calls: seq<Call>)
    requires calls != []
    ensures CountersOf(calls).prim == Prims(calls[0]) + CountersOf(calls[1..]).prim
    ensures CountersOf(calls).hits == Outcomes(calls[0], Hit) + CountersOf(calls[1..]).hits
    ensures CountersOf(calls).misses == Outcomes(calls[0], Miss) + CountersOf(calls[1..]).misses
    ensures CountersOf(calls).errors == Outcomes(calls[0], Error) + CountersOf(calls[1..]).errors
  {
    assert PrimsOf(calls)[1..] == PrimsOf(calls[1..]);
    assert OutcomesOf(calls, Hit)[1..] == OutcomesOf(calls[1..], Hit);
    assert OutcomesOf(calls, Miss)[1..] == OutcomesOf(calls[1..], Miss);
    assert OutcomesOf(calls, Error)[1..] == OutcomesOf(calls[1..], Error);
  }

  lemma {:induction false} PrimsConserved(calls: seq<Call>)
    ensures CountersOf(calls).prim ==
            |Latencies(calls, OP_PUT)| + |Latencies(calls, OP_GET)| + |Latencies(calls, OP_DEL)| +
            |Latencies(calls, OP_RANGE)| + BatchKeys(calls)
  {
    if calls != [] {
      PrimsConserved(calls[1..]);
      HeadCounters(calls);
    }
  }

  lemma {:induction false} LookupsConserved(calls: seq<Call>)
    ensures CountersOf(calls).hits + CountersOf(calls).misses + CountersOf(calls).errors ==
            |Latencies(calls, OP_GET)| + MgetKeys(calls)
  {
    if calls != [] {
      LookupsConserved(calls[1..]);
      HeadCounters(calls);
      if calls[0].Mget? {
        OutcomesAreAll(Judged(calls[0].codes));
        JudgedSize(calls[0].codes);
      }
    }
  }

  /** A worker's calls, or the merge of two earlier results, to any depth. */
  datatype History = Worker(calls: seq<Call>) | Joined(left: History, right: History)

  function AllCalls(t: History): seq<Call> {
    match t
    case Worker(calls) => calls
    case Joined(l, r) => AllCalls(l) + AllCalls(r)
  }

  /** s is what recording and merging along t produces. */
  ghost predicate Collects(t: History, s: Stats) {
    match t
    case Worker(calls) => s == StatsOf(calls)
    case Joined(l, r) => exists a, b :: Collects(l, a) && Collects(r, b) && Fit(a) && Fit(b) && s == Merge(a, b)
  }

  /** However the workers' stats were merged, the result is one recorder's view of all the calls. */
  lemma {:induction false} CollectsAll(t: History, s: Stats)
    requires Collects(t, s)
    ensures s == StatsOf(AllCalls(t))
  {
    if t.Joined? {
      var a, b :| Collects(t.left, a) && Collects(t.right, b) && Fit(a) && Fit(b) && s == Merge(a, b);
      CollectsAll(t.left, a);
      CollectsAll(t.right, b);
      MergeStatsIsAppend(AllCalls(t.left), AllCalls(t.right));
    }
  }

  lemma {:induction false} SampleCounts(calls: seq<Call>, op: nat)
    requires op < OP_COUNT
    ensures StatsOf(calls).h[op].count == |Latencies(calls, op)|
  {
  }

  /** Primitive operations are the single-verb samples plus the keys of the batches. */
  predicate PrimsBalance(s: Stats, calls: seq<Call>)
    requires |s.h| == OP_COUNT
  {
    s.n.prim == s.h[OP_PUT].count + s.h[OP_GET].count + s.h[OP_DEL].count + s.h[OP_RANGE].count + BatchKeys(calls)
  }

  /** Every lookup is a hit, a miss or an error. */
  predicate LookupsBalance(s: Stats, calls: seq<Call>)
    requires |s.h| == OP_COUNT
  {
    s.n.hits + s.n.misses + s.n.errors == s.h[OP_GET].count + MgetKeys(calls)
  }

  lemma {:induction false} PrimAccounting(calls: seq<Call>)
    ensures PrimsBalance(StatsOf(calls), calls)
  {
    PrimsConserved(calls);
    SampleCounts(calls, OP_PUT);
    SampleCounts(calls, OP_GET);
    SampleCounts(calls, OP_DEL);
    SampleCounts(calls, OP_RANGE);
  }

  lemma {:induction false} LookupAccounting(calls: seq<Call>)
    ensures LookupsBalance(StatsOf(calls), calls)
  {
    LookupsConserved(calls);
    SampleCounts(calls, OP_GET);
  }

  // ----- what the stats say about the calls -----

  /** The codes the lookups of a list of calls returned: one for each get, and one for each key of an mget. */
  function Codes(calls: seq<Call>): seq<int> {
    if calls == [] then []
    else
      (match calls[0] case Get(found, _) => [found] case Mget(codes, _) => codes case _ => []) + Codes(calls[1..])
  }

  /** How many numbers are above, at and below zero. */
  function Positive(s: seq<int>): nat { if s == [] then 0 else (if s[0] > 0 then 1 else 0) + Positive(s[1..]) }
  function Zero(s: seq<int>): nat { if s == [] then 0 else (if s[0] == 0 then 1 else 0) + Zero(s[1..]) }
  function Negative(s: seq<int>): nat { if s == [] then 0 else (if s[0] < 0 then 1 else 0) + Negative(s[1..]) }

  lemma {:induction false} SignsAppend(s: seq<int>, t: seq<int>)
    ensures Positive(s + t) == Positive(s) + Positive(t)
    ensures Zero(s + t) == Zero(s) + Zero(t)
    ensures Negative(s + t) == Negative(s) + Negative(t)
  {
    if s == [] {
      assert s + t == t;
    } else {
      SignsAppend(s[1..], t);
      assert (s + t)[1..] == s[1..] + t;
    }
  }

  lemma {:induction false} JudgedSigns(codes: seq<int>)
    ensures Judged(codes)[Hit] == Positive(codes) && Judged(codes)[Miss] == Zero(codes) && Judged(codes)[Error] == Negative(codes)
  {
    if codes != [] {
      var n := |codes| - 1;
      JudgedSigns(codes[..n]);
      SignsAppend(codes[..n], [codes[n]]);
      assert codes == codes[..n] + [codes[n]];
      assert [codes[n]][1..] == [];
    }
  }

  /** Hits are the codes above zero, misses those at zero, errors those below. */
  lemma {:induction false} CountersAreSigns(calls: seq<Call>)
    ensures CountersOf(calls).hits == Positive(Codes(calls))
    ensures CountersOf(calls).misses == Zero(Codes(calls))
    ensures CountersOf(calls).errors == Negative(Codes(calls))
  {
    if calls != [] {
      var c := calls[0];
      var own: seq<int> := match c case Get(found, _) => [found] case Mget(codes, _) => codes case _ => [];
      CountersAreSigns(calls[1..]);
      HeadCounters(calls);
      SignsAppend(own, Codes(calls[1..]));
      if c.Mget? { JudgedSigns(c.codes); }
      if c.Get? { assert own[1..] == []; }
    }
  }

  /** The latencies of the calls of one kind, in order. */
  function Times(calls: seq<Call>, kind: Call -> bool): seq<U64> {
    if calls == [] then [] else (if kind(calls[0]) then [calls[0].ns] else []) + Times(calls[1..], kind)
  }

  lemma {:induction false} TimesAre(calls: seq<Call>, kind: Call -> bool, op: nat)
    requires forall c :: c in calls ==> (kind(c) <==> Kind(c) == op)
    ensures Times(calls, kind) == Latencies(calls, op)
  {
    if calls != [] { TimesAre(calls[1..], kind, op); }
  }

  /** Every verb's recorder holds the latencies of its own calls, a scan's with the ranges. */
  ghost predicate RecordsVerbs(h: seq<Hist>, calls: seq<Call>)
    requires |h| == OP_COUNT
  {
    && h[0] == Of(Times(calls, (c: Call) => c.Put?))
    && h[1] == Of(Times(calls, (c: Call) => c.Get?))
    && h[2] == Of(Times(calls, (c: Call) => c.Del?))
    && h[3] == Of(Times(calls, (c: Call) => c.Range? || c.Scan?))
    && h[4] == Of(Times(calls, (c: Call) => c.Mget?))
    && h[5] == Of(Times(calls, (c: Call) => c.Mput?))
    && h[6] == Of(Times(calls, (c: Call) => c.Mdel?))
  }

  lemma {:induction false} StatsRecordVerbs(calls: seq<Call>)
    ensures RecordsVerbs(StatsOf(calls).h, calls)
  {
    TimesAre(calls, (c: Call) => c.Put?, 0);
    TimesAre(calls, (c: Call) => c.Get?, 1);
    TimesAre(calls, (c: Call) => c.Del?, 2);
    TimesAre(calls, (c: Call) => c.Range? || c.Scan?, 3);
    TimesAre(calls, (c: Call) => c.Mget?, 4);
    TimesAre(calls, (c: Call) => c.Mput?, 5);
    TimesAre(calls, (c: Call) => c.Mdel?, 6);
  }

  /** The primitive operations of a list of calls: one for a single verb, one for each key of a batch. */
  function Primitives(calls: seq<Call>): nat {
    if calls == [] then 0
    else
      (match calls[0] case Mget(codes, _) => |codes| case Mput(n, _) => n case Mdel(n, _) => n case _ => 1)
      + Primitives(calls[1..])
  }

  lemma {:induction false} PrimsArePrimitives(calls: seq<Call>)
    ensures CountersOf(calls).prim == Primitives(calls)
  {
    if calls != [] {
      PrimsArePrimitives(calls[1..]);
      HeadCounters(calls);
    }
  }

  /** What stats say about the calls they are of. */
  ghost predicate Describes(s: Stats, calls: seq<Call>)
    requires |s.h| == OP_COUNT
  {
    && RecordsVerbs(s.h, calls) && s.n.prim == Primitives(calls)
    && s.n.hits == Positive(Codes(calls)) && s.n.misses == Zero(Codes(calls)) && s.n.errors == Negative(Codes(calls))
  }

  lemma {:induction false} StatsDescribe(calls: seq<Call>)
    ensures Describes(StatsOf(calls), calls)
  {
    StatsRecordVerbs(calls);
    PrimsArePrimitives(calls);
    CountersAreSigns(calls);
  }

  /** However the workers' stats were merged, they say what the calls were and both balances hold. */
  lemma {:induction false} Accounting(t: History, s: Stats)
    requires Collects(t, s)
    ensures |s.h| == OP_COUNT && Describes(s, AllCalls(t)) && PrimsBalance(s, AllCalls(t)) && LookupsBalance(s, AllCalls(t))
  {
    CollectsAll(t, s);
    StatsDescribe(AllCalls(t));
    PrimAccounting(AllCalls(t));
    LookupAccounting(AllCalls(t));
  }

  // ----- any interleaving -----

  lemma {:induction false} FitMerge(a: Stats, b: Stats)
    requires Fit(a) && Fit(b)
    ensures Fit(Merge(a, b))
  {
    forall i | 0 <= i < OP_COUNT ensures Fits(Plus(a.h[i], b.h[i])) {
      FitPlus(a.h[i], b.h[i]);
    }
  }

  lemma {:induction false} FitPlus(a: Hist, b: Hist)
    requires Fits(a) && Fits(b)
    ensures Fits(Plus(a, b))
  {
  }

  lemma {:induction false} MergeHistLaws(a: Stats, b: Stats, c: Stats)
    requires Fit(a) && Fit(b) && Fit(c) && Fit(Merge(a, b)) && Fit(Merge(b, a)) && Fit(Merge(b, c))
    ensures Merge(a, b).h == Merge(b, a).h
    ensures Merge(Merge(a, b), c).h == Merge(a, Merge(b, c)).h
  {
    forall i | 0 <= i < OP_COUNT
      ensures Merge(a, b).h[i] == Merge(b, a).h[i]
      ensures Merge(Merge(a, b), c).h[i] == Merge(a, Merge(b, c)).h[i]
    {
      MergeLaws(a.h[i], b.h[i], c.h[i]);
    }
  }

  lemma {:induction false} AddLaws(a: Counters, b: Counters, c: Counters)
    ensures AddCounters(a, b) == AddCounters(b, a)
    ensures AddCounters(AddCounters(a, b), c) == AddCounters(a, AddCounters(b, c))
  {
  }

  /** stats_merge is commutative and associative, like the histogram merge it is built from. */
  lemma {:induction false} MergeStatsLaws(a: Stats, b: Stats, c: Stats)
    requires Fit(a) && Fit(b) && Fit(c)
    ensures Fit(Merge(a, b)) && Fit(Merge(b, a)) && Fit(Merge(b, c))
    ensures Merge(a, b) == Merge(b, a)
    ensures Merge(Merge(a, b), c) == Merge(a, Merge(b, c))
  {
    FitMerge(a, b);
    FitMerge(b, a);
    FitMerge(b, c);
    MergeHistLaws(a, b, c);
    AddLaws(a.n, b.n, c.n);
  }

  /** Two recorders that saw the same calls in different orders agree, so any interleaving of the
      workers' calls gives the merged stats. */
  lemma {:induction false} StatsOrderIrrelevant(a: seq<Call>, b: seq<Call>)
    requires multiset(a) == multiset(b)
    ensures StatsOf(a) == StatsOf(b)
    decreases |a|
  {
    if a == [] {
      assert |b| == |multiset(b)| == 0;
    } else {
      var b1, b2 := RemoveBoth(a, b);
      StatsOrderIrrelevant(a[1..], b1 + b2);
      assert a == [a[0]] + a[1..];
      MergeStatsIsAppend([a[0]], a[1..]);
      MergeStatsIsAppend([a[0]], b1 + b2);
      MoveToFront(a[0], b1, b2);
    }
  }

  lemma {:induction false} MoveToFront(x: Call, b1: seq<Call>, b2: seq<Call>)
    ensures StatsOf(b1 + [x] + b2) == StatsOf([x] + (b1 + b2))
  {
    MergeStatsIsAppend(b1, [x]);
    MergeStatsIsAppend(b1 + [x], b2);
    MergeStatsIsAppend(b1, b2);
    MergeStatsIsAppend([x], b1 + b2);
    MergeStatsLaws(StatsOf([x]), StatsOf(b1), StatsOf(b2));
  }

  // ----- the object -----

  lemma {:induction false} OneCall(c: Call, op: nat)
    requires op < OP_COUNT
    ensures HistsOf([c])[op] == if op == Kind(c) then Of([c.ns]) else Of([])
    ensures CountersOf([c]) == Counters(Prims(c), Outcomes(c, Hit), Outcomes(c, Miss), Outcomes(c, Error))
  {
    HeadCounters([c]);
    assert [c][1..] == [] && Latencies([], op) == [];
    var mine: seq<U64> := if Kind(c) == op then [c.ns] else [];
    assert Latencies([c], op) == mine + [] == mine;
  }

  /** What one call adds to the stats of those before it. */
  lemma {:induction false} AfterCall(s: Stats, c: Call)
    requires Fit(s)
    ensures Fit(StatsOf([c])) && Fit(Merge(s, StatsOf([c])))
    ensures Merge(s, StatsOf([c])) ==
            Stats(s.h[Kind(c) := Plus(s.h[Kind(c)], Of([c.ns]))],
                  Counters(s.n.prim + Prims(c), s.n.hits + Outcomes(c, Hit),
                           s.n.misses + Outcomes(c, Miss), s.n.errors + Outcomes(c, Error)))
  {
    FitStats([c]);
    FitMerge(s, StatsOf([c]));
    forall i | 0 <= i < OP_COUNT
      ensures Plus(s.h[i], HistsOf([c])[i]) == if i == Kind(c) then Plus(s.h[i], Of([c.ns])) else s.h[i]
    {
      OneCall(c, i);
      ResetIsIdentity(s.h[i]);
    }
    OneCall(c, 0);
  }

  lemma {:induction false} NextCall(before: seq<Call>, calls: seq<Call>, i: nat)
    requires i < |calls|
    ensures Fit(StatsOf(before + calls[..i])) && Fit(StatsOf([calls[i]]))
    ensures StatsOf(before + calls[..i + 1]) == Merge(StatsOf(before + calls[..i]), StatsOf([calls[i]]))
  {
    MergeStatsIsAppend(before + calls[..i], [calls[i]]);
    assert before + calls[..i] + [calls[i]] == before + calls[..i + 1];
  }

  lemma {:induction false} Prefixes(before: seq<Call>, calls: seq<Call>)
    ensures before + calls[..0] == before && before + calls[..|calls|] == before + calls
  {
  }

  /** The stats of one worker, a recorder for each verb. Each method below is the accounting part of a verb. */
  class Context {
    const h: seq<Recorder>
    ghost const repr: set<object>
    var prim: nat
    var hits: nat
    var misses: nat
    var errors: nat

    /** The two share no object. */
    ghost predicate Apart(other: Context) { {other} + other.repr !! {this} + repr }

    ghost predicate Valid()
      reads repr
    {
      && this !in repr && |h| == OP_COUNT
      && (forall i :: 0 <= i < OP_COUNT ==> h[i] in repr && h[i].buckets in repr && h[i].Valid())
      && (forall i, j :: 0 <= i < j < OP_COUNT ==> h[i] != h[j] && h[i].buckets != h[j].buckets)
    }

    ghost function HistAt(i: nat): (v: Hist)
      requires i < OP_COUNT && Valid()
      reads repr
      ensures Fits(v)
    {
      h[i].Model()
    }

    ghost function Hists(): (hs: seq<Hist>)
      requires Valid()
      reads repr
      ensures AllFit(hs) && forall i :: 0 <= i < OP_COUNT ==> hs[i] == HistAt(i)
    {
      seq(OP_COUNT, i requires 0 <= i < OP_COUNT && Valid() reads repr => HistAt(i))
    }

    ghost function Model(): (s: Stats)
      requires Valid()
      reads this, repr
      ensures Fit(s)
    {
      Stats(Hists(), Counters(prim, hits, misses, errors))
    }

    constructor ()
      ensures Valid() && fresh(repr) && Model() == StatsOf([])
    {
      var recorders := NewRecorders();
      h := recorders;
      repr := (set r: Recorder | r in recorders :: r as object) + (set r: Recorder | r in recorders :: r.buckets as object);
      prim, hits, misses, errors := 0, 0, 0, 0;
      new;
      FitStats([]);
      assert forall i :: 0 <= i < OP_COUNT ==> HistAt(i) == HistsOf([])[i];
    }

    method FileSample(op: nat, ns: U64)
      requires op < OP_COUNT && Valid()
      modifies repr
      ensures Valid() && Hists() == old(Hists())[op := Plus(old(Hists())[op], Of([ns]))]
    {
      ghost var before := Hists();
      h[op].Record(ns);
      assert forall i :: 0 <= i < OP_COUNT && i != op ==> h[i].Model() == before[i];
      assert h[op].Model() == Plus(before[op], Of([ns]));
    }

    method Put(ns: U64)
      requires Valid()
      modifies this, repr
      ensures Valid() && Model() == Merge(old(Model()), StatsOf([Call.Put(ns)]))
    {
      AfterCall(Model(), Call.Put(ns));
      FileSample(OP_PUT, ns);
      prim := prim + 1;
    }

    method Get(found: int, ns: U64)
      requires Valid()
      modifies this, repr
      ensures Valid() && Model() == Merge(old(Model()), StatsOf([Call.Get(found, ns)]))
    {
      AfterCall(Model(), Call.Get(found, ns));
      FileSample(OP_GET, ns);
      prim := prim + 1;
      CountCode(found);
    }

    method Del(ns: U64)
      requires Valid()
      modifies this, repr
      ensures Valid() && Model() == Merge(old(Model()), StatsOf([Call.Del(ns)]))
    {
      AfterCall(Model(), Call.Del(ns));
      FileSample(OP_DEL, ns);
      prim := prim + 1;
    }

    /** range and scan are both filed under range */
    method RangeOrScan(scan: bool, ns: U64)
      requires Valid()
      modifies this, repr
      ensures Valid() && Model() == Merge(old(Model()), StatsOf([if scan then Call.Scan(ns) else Call.Range(ns)]))
    {
      AfterCall(Model(), if scan then Call.Scan(ns) else Call.Range(ns));
      FileSample(OP_RANGE, ns);
      prim := prim + 1;
    }

    method Mget(codes: seq<int>, ns: U64)
      requires Valid()
      modifies this, repr
      ensures Valid() && Model() == Merge(old(Model()), StatsOf([Call.Mget(codes, ns)]))
    {
      AfterCall(Model(), Call.Mget(codes, ns));
      FileSample(OP_MGET, ns);
      prim := prim + |codes|;
      CountCodes(codes);
    }

    method CountCode(code: int)
      modifies this`hits, this`misses, this`errors
      ensures hits == old(hits) + if Judge(code) == Hit then 1 else 0
      ensures misses == old(misses) + if Judge(code) == Miss then 1 else 0
      ensures errors == old(errors) + if Judge(code) == Error then 1 else 0
    {
      if code > 0 { hits := hits + 1; }
      else if code < 0 { errors := errors + 1; }
      else { misses := misses + 1; }
    }

    method CountCodes(codes: seq<int>)
      modifies this`hits, this`misses, this`errors
      ensures hits == old(hits) + Judged(codes)[Hit]
      ensures misses == old(misses) + Judged(codes)[Miss]
      ensures errors == old(errors) + Judged(codes)[Error]
    {
      for i := 0 to |codes|
        invariant hits == old(hits) + Judged(codes[..i])[Hit]
        invariant misses == old(misses) + Judged(codes[..i])[Miss]
        invariant errors == old(errors) + Judged(codes[..i])[Error]
      {
        assert codes[..i + 1][..i] == codes[..i];
        CountCode(codes[i]);
      }
      assert codes[..|codes|] == codes;
    }

    method Mput(n: nat, ns: U64)
      requires Valid()
      modifies this, repr
      ensures Valid() && Model() == Merge(old(Model()), StatsOf([Call.Mput(n, ns)]))
    {
      AfterCall(Model(), Call.Mput(n, ns));
      FileSample(OP_MPUT, ns);
      prim := prim + n;
    }

    method Mdel(n: nat, ns: U64)
      requires Valid()
      modifies this, repr
      ensures Valid() && Model() == Merge(old(Model()), StatsOf([Call.Mdel(n, ns)]))
    {
      AfterCall(Model(), Call.Mdel(n, ns));
      FileSample(OP_MDEL, ns);
      prim := prim + n;
    }

    /** The verb a call names. */
    method Issue(c: Call)
      requires Valid()
      modifies this, repr
      ensures Valid() && Model() == Merge(old(Model()), StatsOf([c]))
    {
      match c
      case Put(ns) => Put(ns);
      case Get(found, ns) => Get(found, ns);
      case Del(ns) => Del(ns);
      case Range(ns) => RangeOrScan(false, ns);
      case Scan(ns) => RangeOrScan(true, ns);
      case Mget(codes, ns) => Mget(codes, ns);
      case Mput(n, ns) => Mput(n, ns);
      case Mdel(n, ns) => Mdel(n, ns);
    }

    /** Calls one after another: the stats of some calls become those of them and these. */
    method IssueAll(calls: seq<Call>, ghost before: seq<Call>)
      requires Valid() && Model() == StatsOf(before)
      modifies this, repr
      ensures Valid() && Model() == StatsOf(before + calls)
    {
      Prefixes(before, calls);
      for i := 0 to |calls|
        invariant Valid() && Model() == StatsOf(before + calls[..i])
      {
        NextCall(before, calls, i);
        Issue(calls[i]);
      }
    }

    /** hist_merge of one verb's recorder. */
    method MergeOne(src: Context, i: nat)
      requires i < OP_COUNT && Valid() && src.Valid() && (src == this || Apart(src))
      modifies h[i], h[i].buckets
      ensures Valid() && src.Valid()
      ensures Hists() == old(Hists())[i := Plus(old(Hists())[i], old(src.Hists())[i])]
      ensures src != this ==> src.Hists() == old(src.Hists())
    {
      ghost var mine := Hists();
      assert h[i] in repr && h[i].buckets in repr;
      assert src != this ==> h[i] !in src.repr && h[i].buckets !in src.repr;
      h[i].Merge(src.h[i]);
      assert forall j :: 0 <= j < OP_COUNT && j != i ==> h[j].Model() == mine[j];
    }

    method MergeEach(src: Context)
      requires Valid() && src.Valid() && (src == this || Apart(src))
      modifies repr
      ensures Valid() && Hists() == MergeHists(old(Hists()), old(src.Hists()))
    {
      ghost var mine, theirs := Hists(), src.Hists();
      for i := 0 to OP_COUNT
        invariant Valid() && src.Valid()
        invariant forall j :: 0 <= j < OP_COUNT ==> Hists()[j] == if j < i then Plus(mine[j], theirs[j]) else mine[j]
        invariant forall j :: i <= j < OP_COUNT ==> src.Hists()[j] == theirs[j]
      {
        MergeOne(src, i);
      }
      assert Hists() == MergeHists(mine, theirs);
    }

    /** stats_merge */
    method MergeFrom(src: Context)
      requires Valid() && src.Valid() && (src == this || Apart(src))
      modifies this, repr
      ensures Valid() && Model() == Merge(old(Model()), old(src.Model()))
    {
      MergeEach(src);
      AddCounts(src);
    }

    method AddCounts(src: Context)
      modifies this`prim, this`hits, this`misses, this`errors
      ensures prim == old(prim) + old(src.prim) && hits == old(hits) + old(src.hits)
      ensures misses == old(misses) + old(src.misses) && errors == old(errors) + old(src.errors)
    {
      prim := prim + src.prim;
      hits := hits + src.hits;
      misses := misses + src.misses;
      errors := errors + src.errors;
    }
  }

  method NewRecorders() returns (rs: seq<Recorder>)
    ensures |rs| == OP_COUNT
    ensures forall i :: 0 <= i < OP_COUNT ==> rs[i].Valid() && rs[i].Model() == Of([]) && fresh(rs[i]) && fresh(rs[i].buckets)
    ensures forall i, j :: 0 <= i < j < OP_COUNT ==> rs[i] != rs[j] && rs[i].buckets != rs[j].buckets
  {
    rs := [];
    for n := 0 to OP_COUNT
      invariant |rs| == n
      invariant forall i :: 0 <= i < n ==> rs[i].Valid() && rs[i].Model() == Of([]) && fresh(rs[i]) && fresh(rs[i].buckets)
      invariant forall i, j :: 0 <= i < j < n ==> rs[i] != rs[j] && rs[i].buckets != rs[j].buckets
    {
      var r := new Recorder();
      rs := rs + [r];
    }
  }
}
