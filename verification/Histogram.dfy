/** The latency histogram: recording, merging and percentiles (src/hist.c). */
module Histogram {
  import opened Numbers
  import opened Sequences
  import opened Buckets

  /** A histogram as a value. */
  datatype Hist = Hist(buckets: seq<nat>, count: nat, sum: nat, min: nat, max: nat)

  // ----- what a histogram of some samples is -----

  function CountAt(samples: seq<U64>, i: nat): nat {
    if samples == [] then 0 else (if Index(samples[0]) == i then 1 else 0) + CountAt(samples[1..], i)
  }

  function Least(samples: seq<U64>): nat {
    if samples == [] then W - 1
    else if samples[0] < Least(samples[1..]) then samples[0] else Least(samples[1..])
  }

  function Greatest(samples: seq<U64>): nat {
    if samples == [] then 0
    else if samples[0] > Greatest(samples[1..]) then samples[0] else Greatest(samples[1..])
  }

  function Of(samples: seq<U64>): Hist {
    Hist(seq(BUCKETS, i requires 0 <= i < BUCKETS => CountAt(samples, i)),
         |samples|, Sum(samples), Least(samples), Greatest(samples))
  }

  function Plus(a: Hist, b: Hist): Hist
    requires |a.buckets| == |b.buckets| == BUCKETS
  {
    Hist(seq(BUCKETS, i requires 0 <= i < BUCKETS => a.buckets[i] + b.buckets[i]),
         a.count + b.count, a.sum + b.sum,
         if b.min < a.min then b.min else a.min,
         if b.max > a.max then b.max else a.max)
  }

  lemma {:induction false} CountAppend(a: seq<U64>, b: seq<U64>, i: nat)
    ensures CountAt(a + b, i) == CountAt(a, i) + CountAt(b, i)
  {
    if a == [] {
      assert a + b == b;
    } else {
      CountAppend(a[1..], b, i);
      assert (a + b)[1..] == a[1..] + b;
    }
  }

  lemma {:induction false} TotalsAppend(a: seq<U64>, b: seq<U64>)
    ensures Sum(a + b) == Sum(a) + Sum(b)
    ensures Least(a + b) == if Least(b) < Least(a) then Least(b) else Least(a)
    ensures Greatest(a + b) == if Greatest(b) > Greatest(a) then Greatest(b) else Greatest(a)
    ensures Least(a) < W
  {
    if a == [] {
      assert a + b == b;
      LeastBound(b);
    } else {
      TotalsAppend(a[1..], b);
      assert (a + b)[1..] == a[1..] + b;
    }
  }

  lemma {:induction false} LeastBound(b: seq<U64>)
    ensures Least(b) < W
  {
    if b != [] { LeastBound(b[1..]); }
  }

  lemma {:induction false} MergeBuckets(a: seq<U64>, b: seq<U64>)
    ensures Of(a + b).buckets == Plus(Of(a), Of(b)).buckets
  {
    forall i | 0 <= i < BUCKETS ensures CountAt(a + b, i) == CountAt(a, i) + CountAt(b, i) {
      CountAppend(a, b, i);
    }
  }

  /** Merging is a homomorphism: the histogram of A ++ B is the merge of their histograms. */
  lemma {:induction false} MergeIsAppend(a: seq<U64>, b: seq<U64>)
    ensures Of(a + b) == Plus(Of(a), Of(b))
  {
    MergeBuckets(a, b);
    TotalsAppend(a, b);
  }

  /** Merge is associative and commutative, with the reset state as identity, on every histogram value. */
  lemma {:induction false} MergeLaws(a: Hist, b: Hist, c: Hist)
    requires |a.buckets| == |b.buckets| == |c.buckets| == BUCKETS
    ensures Plus(a, b) == Plus(b, a)
    ensures Plus(Plus(a, b), c) == Plus(a, Plus(b, c))
  {
    assert Plus(a, b).buckets == Plus(b, a).buckets;
    assert Plus(Plus(a, b), c).buckets == Plus(a, Plus(b, c)).buckets;
  }

  predicate Fits(h: Hist) {
    && |h.buckets| == BUCKETS
    && h.min < W
  }

  lemma {:induction false} ResetIsIdentity(h: Hist)
    requires Fits(h)
    ensures Plus(h, Of([])) == h && Plus(Of([]), h) == h
  {
    assert Plus(h, Of([])).buckets == h.buckets;
    assert Plus(Of([]), h).buckets == h.buckets;
  }

  // ----- any split over workers -----

  function Flatten(shares: seq<seq<U64>>): seq<U64> {
    if shares == [] then [] else Flatten(shares[..|shares| - 1]) + shares[|shares| - 1]
  }

  function MergeAll(shares: seq<seq<U64>>): Hist {
    if shares == [] then Of([]) else Plus(MergeAll(shares[..|shares| - 1]), Of(shares[|shares| - 1]))
  }

  lemma {:induction false} MergeAllIsFlat(shares: seq<seq<U64>>)
    ensures MergeAll(shares) == Of(Flatten(shares))
  {
    if shares != [] {
      MergeAllIsFlat(shares[..|shares| - 1]);
      MergeIsAppend(Flatten(shares[..|shares| - 1]), shares[|shares| - 1]);
    }
  }

  /** A histogram does not depend on the order its samples came in. */
  lemma {:induction false} OrderIrrelevant(a: seq<U64>, b: seq<U64>)
    requires multiset(a) == multiset(b)
    ensures Of(a) == Of(b)
    decreases |a|
  {
    if a == [] {
      assert |b| == |multiset(b)| == 0;
    } else {
      var b1, b2 := RemoveBoth(a, b);
      OrderIrrelevant(a[1..], b1 + b2);
      SwapInsert(a[0], b1, b2);
      assert a == [a[0]] + a[1..];
      MergeIsAppend([a[0]], a[1..]);
      MergeIsAppend([a[0]], b1 + b2);
    }
  }

  lemma {:induction false} SwapInsert(x: U64, b1: seq<U64>, b2: seq<U64>)
    ensures Of(b1 + [x] + b2) == Of([x] + (b1 + b2))
  {
    MergeIsAppend(b1, [x]);
    MergeIsAppend(b1 + [x], b2);
    MergeIsAppend(b1, b2);
    MergeIsAppend([x], b1 + b2);
    MergeLaws(Of([x]), Of(b1), Of(b2));
  }

  /** However the samples were split over workers and interleaved, merging the workers' histograms
      gives what one recorder would have. */
  lemma {:induction false} SplitIrrelevant(shares: seq<seq<U64>>, all: seq<U64>)
    requires multiset(Flatten(shares)) == multiset(all)
    ensures MergeAll(shares) == Of(all)
  {
    MergeAllIsFlat(shares);
    OrderIrrelevant(Flatten(shares), all);
  }

  // ----- the object -----

  class Recorder {
    const buckets: array<nat>
    var count: nat
    var sum: nat
    var min: nat
    var max: nat

    ghost function Model(): Hist
      reads this, buckets
    {
      Hist(buckets[..], count, sum, min, max)
    }

    ghost predicate Valid()
      reads this, buckets
    {
      Fits(Model())
    }

    constructor ()
      ensures Valid() && fresh(buckets) && Model() == Of([])
    {
      buckets := new nat[BUCKETS](_ => 0);
      count, sum, min, max := 0, 0, W - 1, 0;
      new;
      assert buckets[..] == Of([]).buckets;
    }

    method Record(v: U64)
      requires Valid()
      modifies this, buckets
      ensures Valid() && Model() == Plus(old(Model()), Of([v]))
    {
      var i := Index(v);
      ghost var before := buckets[..];
      buckets[i] := buckets[i] + 1;
      count := count + 1;
      sum := sum + v;
      if v < min { min := v; }
      if v > max { max := v; }
      assert buckets[..] == before[i := before[i] + 1];
      RecordIsPlus(old(Model()), v);
    }

    method Merge(src: Recorder)
      requires Valid() && src.Valid()
      modifies this, buckets
      ensures Valid() && Model() == Plus(old(Model()), old(src.Model()))
    {
      for i := 0 to BUCKETS
        invariant forall j :: 0 <= j < BUCKETS ==>
                    buckets[j] == if j < i then old(buckets[j]) + old(src.buckets[j]) else old(buckets[j])
        invariant src.buckets != buckets ==> forall j :: 0 <= j < BUCKETS ==> src.buckets[j] == old(src.buckets[j])
        invariant unchanged(this)
      {
        buckets[i] := buckets[i] + src.buckets[i];
      }
      count := count + src.count;
      sum := sum + src.sum;
      if src.min < min { min := src.min; }
      if src.max > max { max := src.max; }
      assert buckets[..] == Plus(old(Model()), old(src.Model())).buckets;
    }

    method FindBucket(target: nat) returns (s: Stop)
      requires Valid()
      ensures s == Walk(buckets[..], target, 0, 0)
    {
      var cum: nat := 0;
      for i := 0 to BUCKETS
        invariant Walk(buckets[..], target, 0, 0) == Walk(buckets[i..], target, i, cum)
      {
        assert buckets[i..][1..] == buckets[i + 1..];
        cum := cum + buckets[i];
        if cum >= target { return At(i); }
      }
      return Past;
    }

    method Percentile(p: real) returns (r: nat)
      requires Valid()
      ensures r == PercentileOf(Model(), p)
      ensures forall samples :: Model() == Of(samples) ==> AtEnds(samples, p, r)
    {
      forall samples | Model() == Of(samples) ensures AtEnds(samples, p, PercentileOf(Model(), p)) {
        PercentileAtEnds(samples, p);
      }
      if count == 0 { return 0; }
      if p <= 0.0 { return min; }
      if p >= 100.0 { return max; }
      var stop := FindBucket(Target(p, count));
      if stop.Past? { return max; }
      var v := ValueAt(stop.i);
      if v < min { v := min; }
      if v > max { v := max; }
      return v;
    }
  }

  lemma {:induction false} SingleSample(v: U64)
    ensures Of([v]).count == 1 && Of([v]).sum == v && Of([v]).min == v && Of([v]).max == v
  {
    var one: seq<U64> := [v];
    assert one[1..] == [];
    assert Sum(one) == v && Least(one) == v && Greatest(one) == v;
  }

  /** Recording one value is merging in the histogram of that value. */
  lemma {:induction false} RecordIsPlus(h: Hist, v: U64)
    requires Fits(h)
    ensures Plus(h, Of([v])) ==
            Hist(h.buckets[Index(v) := h.buckets[Index(v)] + 1], h.count + 1, h.sum + v,
                 if v < h.min then v else h.min, if v > h.max then v else h.max)
    ensures Fits(Plus(h, Of([v])))
  {
    SingleSample(v);
    RecordBuckets(h.buckets, v);
  }

  lemma {:induction false} RecordBuckets(b: seq<nat>, v: U64)
    requires |b| == BUCKETS
    ensures seq(BUCKETS, i requires 0 <= i < BUCKETS => b[i] + Of([v]).buckets[i]) ==
            b[Index(v) := b[Index(v)] + 1]
  {
    var one: seq<U64> := [v];
    forall i | 0 <= i < BUCKETS ensures Of(one).buckets[i] == if i == Index(v) then 1 else 0 {
      assert one[1..] == [] && CountAt(one, i) == (if Index(one[0]) == i then 1 else 0) + CountAt(one[1..], i);
    }
  }

  // ----- percentiles -----

  datatype Stop = At(i: nat) | Past

  /** Walk the remaining buckets, the first of them numbered i, with cum samples behind,
      until target samples are covered. */
  function Walk(rest: seq<nat>, target: nat, i: nat, cum: nat): Stop {
    if rest == [] then Past
    else
      var c := cum + rest[0];
      if c >= target then At(i) else Walk(rest[1..], target, i + 1, c)
  }

  function Target(p: real, count: nat): nat
    requires 0.0 < p < 100.0
  {
    var t := (p / 100.0 * count as real + 0.5).Floor;
    if t <= 0 then 1 else t
  }

  function Clamp(v: nat, lo: nat, hi: nat): nat {
    var w := if v < lo then lo else v;
    if w > hi then hi else w
  }

  function PercentileOf(h: Hist, p: real): nat
    requires |h.buckets| == BUCKETS
  {
    if h.count == 0 then 0
    else if p <= 0.0 then h.min
    else if p >= 100.0 then h.max
    else
      match Walk(h.buckets, Target(p, h.count), 0, 0)
      case At(i) => Clamp(ValueAt(i), h.min, h.max)
      case Past => h.max
  }

  /** How many samples are filed in buckets up to i. */
  function CountUpTo(samples: seq<U64>, i: int): nat {
    if samples == [] then 0 else (if Index(samples[0]) <= i then 1 else 0) + CountUpTo(samples[1..], i)
  }

  lemma {:induction false} CountUpToStep(samples: seq<U64>, i: nat)
    ensures CountUpTo(samples, i) == CountUpTo(samples, i - 1) + CountAt(samples, i)
    ensures CountUpTo(samples, i) <= |samples|
  {
    if samples != [] { CountUpToStep(samples[1..], i); }
  }

  lemma {:induction false} CountUpToEnds(samples: seq<U64>)
    ensures CountUpTo(samples, -1) == 0
    ensures CountUpTo(samples, BUCKETS - 1) == |samples|
  {
    if samples != [] { CountUpToEnds(samples[1..]); }
  }

  lemma {:induction false} WalkStep(samples: seq<U64>, i: nat)
    requires i < BUCKETS
    ensures CountUpTo(samples, i - 1) + CountAt(samples, i) == CountUpTo(samples, i)
  {
    CountUpToStep(samples, i);
  }

  /** The walk stops at the first bucket by which target samples are covered. */
  lemma {:induction false} WalkFinds(samples: seq<U64>, b: seq<nat>, target: nat, i: nat, k: nat)
    requires i <= k < BUCKETS && |b| == BUCKETS
    requires forall j :: 0 <= j < BUCKETS ==> b[j] == CountAt(samples, j)
    requires CountUpTo(samples, k) >= target
    requires forall j :: i <= j < k ==> CountUpTo(samples, j) < target
    ensures Walk(b[i..], target, i, CountUpTo(samples, i - 1)) == At(k)
    decreases k - i
  {
    WalkStep(samples, i);
    assert b[i..][0] == CountAt(samples, i) && b[i..][1..] == b[i + 1..];
    if i < k {
      WalkFinds(samples, b, target, i + 1, k);
    }
  }

  predicate Ascending(s: seq<U64>) {
    forall i, j :: 0 <= i <= j < |s| ==> s[i] <= s[j]
  }

  /** In sorted order the samples filed up to i come first, so k of them are covered
      exactly when the k-th is. */
  lemma {:induction false} CoveredIff(s: seq<U64>, k: nat, i: nat)
    requires Ascending(s) && 0 < k <= |s| && s[|s| - 1] < WRAP
    ensures CountUpTo(s, i) >= k <==> Index(s[k - 1]) <= i
    decreases |s|
  {
    var rest := s[1..];
    if Index(s[0]) > i {
      forall j | 0 <= j < |s| ensures Index(s[j]) > i {
        IndexMonotone(s[0], s[j]);
      }
      NoneCovered(s, i);
    } else if k > 1 {
      CoveredIff(rest, k - 1, i);
    }
  }

  lemma {:induction false} NoneCovered(s: seq<U64>, i: nat)
    requires forall j :: 0 <= j < |s| ==> Index(s[j]) > i
    ensures CountUpTo(s, i) == 0
  {
    if s != [] { NoneCovered(s[1..], i); }
  }

  lemma {:induction false} CountUpToAppend(a: seq<U64>, b: seq<U64>, i: nat)
    ensures CountUpTo(a + b, i) == CountUpTo(a, i) + CountUpTo(b, i)
  {
    if a == [] {
      assert a + b == b;
    } else {
      CountUpToAppend(a[1..], b, i);
      assert (a + b)[1..] == a[1..] + b;
    }
  }

  lemma {:induction false} CountUpToOrder(a: seq<U64>, b: seq<U64>, i: nat)
    requires multiset(a) == multiset(b)
    ensures CountUpTo(a, i) == CountUpTo(b, i)
    decreases |a|
  {
    if a == [] {
      assert |b| == |multiset(b)| == 0;
    } else {
      var b1, b2 := RemoveBoth(a, b);
      CountUpToOrder(a[1..], b1 + b2, i);
      CountUpToAppend(b1, b2, i);
      CountUpToAppend(b1, [a[0]], i);
      CountUpToAppend(b1 + [a[0]], b2, i);
      assert [a[0]][1..] == [];
    }
  }

  lemma {:induction false} TargetInRange(p: real, n: nat)
    requires 0.0 < p < 100.0 && n > 0
    ensures 1 <= Target(p, n) <= n
  {
    var f := p / 100.0;
    assert f < 1.0;
    assert f * n as real <= n as real;
  }

  /** k is the whole number nearest to p percent of n, halves rounded up, and at least 1. */
  predicate NearestRank(p: real, n: nat, k: int) {
    var exact := p * (n as real) / 100.0;
    (k as real - 0.5 <= exact < k as real + 0.5 && k >= 1) || (k == 1 && exact < 0.5)
  }

  /** There is one such rank, and it is that of a sample. */
  lemma {:induction false} TargetIsNearest(p: real, n: nat, k: int)
    requires 0.0 < p < 100.0 && n > 0
    ensures NearestRank(p, n, k) <==> k == Target(p, n)
    ensures NearestRank(p, n, k) ==> 1 <= k <= n
  {
    var exact := p * (n as real) / 100.0;
    PercentOf(p, n as real);
    TargetInRange(p, n);
  }

  lemma {:induction false} PercentOf(p: real, n: real)
    ensures p / 100.0 * n == p * n / 100.0
  {
  }

  lemma {:induction false} SamplesBetween(s: seq<U64>, j: nat)
    requires j < |s|
    ensures Least(s) <= s[j] <= Greatest(s)
  {
    if j > 0 { SamplesBetween(s[1..], j - 1); }
  }

  lemma {:induction false} ClampHelps(v: nat, x: nat, lo: nat, hi: nat)
    requires lo <= x <= hi
    ensures Dist(Clamp(v, lo, hi), x) <= Dist(v, x)
    ensures 128 * Dist(v, x) <= x ==> 128 * Dist(Clamp(v, lo, hi), x) <= x
  {
  }

  lemma {:induction false} RankSample(samples: seq<U64>, sorted: seq<U64>, k: nat)
    requires 0 < |samples| && 0 < k <= |sorted| && multiset(sorted) == multiset(samples)
    ensures Of(samples).buckets[Index(sorted[k - 1])] > 0
    ensures Of(samples).min <= sorted[k - 1] <= Of(samples).max
    ensures Of(samples).count == |samples|
  {
    assert sorted[k - 1] in multiset(samples);
    var at :| 0 <= at < |samples| && samples[at] == sorted[k - 1];
    SamplesBetween(samples, at);
    CountPositive(samples, at);
  }

  /** The walk always stops, at the bucket of the sample of the given rank. */
  lemma {:induction false} WalkStopsAtRank(samples: seq<U64>, sorted: seq<U64>, k: nat)
    requires 0 < |samples| && 0 < k <= |sorted|
    requires forall j :: 0 <= j < |samples| ==> samples[j] < WRAP
    requires multiset(sorted) == multiset(samples) && Ascending(sorted)
    ensures Walk(Of(samples).buckets, k, 0, 0) == At(Index(sorted[k - 1]))
  {
    RankBucket(samples, sorted, k);
    CountUpToEnds(samples);
    var b := Of(samples).buckets;
    WalkFinds(samples, b, k, 0, Index(sorted[k - 1]));
    assert b[0..] == b;
  }

  /** The answer for p comes from the non-empty bucket of x; clamping only brings it closer to x,
      and it is within 1/128 of x whenever the bucket reads x back that closely. */
  predicate AnswersRank(h: Hist, p: real, k: nat, x: U64)
    requires |h.buckets| == BUCKETS
  {
    var v := ValueAt(Index(x));
    var r := PercentileOf(h, p);
    && Walk(h.buckets, k, 0, 0) == At(Index(x)) && h.buckets[Index(x)] > 0
    && r == Clamp(v, h.min, h.max)
    && Dist(r, x) <= Dist(v, x)
    && (Accurate(x) ==> 128 * Dist(r, x) <= x)
  }

  lemma {:induction false} AnswerFromWalk(h: Hist, p: real, k: nat, x: U64)
    requires |h.buckets| == BUCKETS && h.count != 0 && 0.0 < p < 100.0 && k == Target(p, h.count)
    requires Walk(h.buckets, k, 0, 0) == At(Index(x)) && h.buckets[Index(x)] > 0 && h.min <= x <= h.max
    ensures AnswersRank(h, p, k, x)
  {
    ClampHelps(ValueAt(Index(x)), x, h.min, h.max);
  }

  /** The percentile walk against the true order statistic: for samples below 2^58 + 2^39 and
      0 < p < 100 the walk always stops, and at the sample whose rank is nearest to p percent of them
      in sorted order. */
  lemma {:induction false} PercentileIsOrderStatistic(samples: seq<U64>, sorted: seq<U64>, p: real, k: int)
    requires 0 < |samples| && 0.0 < p < 100.0 && NearestRank(p, |samples|, k)
    requires forall j :: 0 <= j < |samples| ==> samples[j] < WRAP
    requires multiset(sorted) == multiset(samples) && Ascending(sorted)
    ensures |sorted| == |samples| && 1 <= k <= |samples|
    ensures AnswersRank(Of(samples), p, k, sorted[k - 1])
  {
    assert |sorted| == |multiset(sorted)| == |samples|;
    TargetIsNearest(p, |samples|, k);
    RankSample(samples, sorted, k);
    WalkStopsAtRank(samples, sorted, k);
    AnswerFromWalk(Of(samples), p, k, sorted[k - 1]);
  }

  /** At and past the ends: 0 without samples, the least of them for p up to 0, the greatest from 100 on. */
  predicate AtEnds(samples: seq<U64>, p: real, r: nat) {
    && (samples == [] ==> r == 0)
    && (samples != [] && p <= 0.0 ==> r in samples && forall x :: x in samples ==> r <= x)
    && (samples != [] && p >= 100.0 ==> r in samples && forall x :: x in samples ==> x <= r)
  }

  lemma {:induction false} LeastIs(s: seq<U64>)
    requires s != []
    ensures Least(s) in s && forall x :: x in s ==> Least(s) <= x
  {
    if |s| > 1 { LeastIs(s[1..]); }
    assert s == [s[0]] + s[1..];
  }

  lemma {:induction false} GreatestIs(s: seq<U64>)
    requires s != []
    ensures Greatest(s) in s && forall x :: x in s ==> x <= Greatest(s)
  {
    if |s| > 1 { GreatestIs(s[1..]); }
    assert s == [s[0]] + s[1..];
  }

  lemma {:induction false} PercentileAtEnds(samples: seq<U64>, p: real)
    ensures AtEnds(samples, p, PercentileOf(Of(samples), p))
  {
    if samples != [] {
      LeastIs(samples);
      GreatestIs(samples);
    }
  }

  lemma {:induction false} CountPositive(s: seq<U64>, j: nat)
    requires j < |s|
    ensures 0 < CountAt(s, Index(s[j])) <= |s|
    ensures Of(s).buckets[Index(s[j])] > 0
  {
    if j > 0 { CountPositive(s[1..], j - 1); }
    CountUpToStep(s, Index(s[j]));
  }

  lemma {:induction false} RankBucket(samples: seq<U64>, sorted: seq<U64>, k: nat)
    requires forall j :: 0 <= j < |samples| ==> samples[j] < WRAP
    requires multiset(sorted) == multiset(samples) && Ascending(sorted) && 0 < k <= |sorted|
    ensures CountUpTo(samples, Index(sorted[k - 1])) >= k
    ensures forall j :: 0 <= j < Index(sorted[k - 1]) ==> CountUpTo(samples, j) < k
  {
    assert sorted[|sorted| - 1] in multiset(samples);
    forall j: nat ensures CountUpTo(samples, j) >= k <==> Index(sorted[k - 1]) <= j {
      CoveredIff(sorted, k, j);
      CountUpToOrder(samples, sorted, j);
    }
  }

  /** Latencies from 64 ns up to about 2^40 ns: every percentile is within 1/128 of the true one. */
  lemma {:induction false} PercentileWithin(samples: seq<U64>, sorted: seq<U64>, p: real, k: int)
    requires 0 < |samples| && 0.0 < p < 100.0 && NearestRank(p, |samples|, k)
    requires forall j :: 0 <= j < |samples| ==> 64 <= samples[j] && 127 * samples[j] <= 128 * TOP
    requires multiset(sorted) == multiset(samples) && Ascending(sorted)
    ensures |sorted| == |samples| && 1 <= k <= |samples|
    ensures 128 * Dist(PercentileOf(Of(samples), p), sorted[k - 1]) <= sorted[k - 1]
  {
    PercentileIsOrderStatistic(samples, sorted, p, k);
    var x := sorted[k - 1];
    assert x in multiset(samples);
    AccurateIff(x);
  }
}
