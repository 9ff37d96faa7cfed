/** The timeline sampler reading live worker counters one at a time (src/main.c). */
module Sampler {
  import opened Numbers

  /** The totals a scan read and their differences from the previous scan; low and high are what
      the counters really added up to when the scan began and when it ended. */
  datatype Sample = Sample(total: nat, delta: int, low: nat, high: nat)

  /** A scan in progress has read the first t counters, adding up to sum; was is what all the
      counters were when it began. */
  datatype Phase = Waiting | Scanning(t: nat, sum: nat, was: seq<nat>)

  /** One counter per worker. The sampler runs one of these for primitive operations and one for units. */
  datatype State = State(counters: seq<nat>, phase: Phase, prev: nat, samples: seq<Sample>)

  /** Worker w raises its counter by d, the sampler starts a scan, or it does its next read. */
  datatype Event = Work(w: nat, d: nat) | Begin | Read

  function Exec(s: State, e: Event): State {
    match e
    case Work(w, d) =>
      if w < |s.counters| then s.(counters := s.counters[w := s.counters[w] + d]) else s
    case Begin =>
      if s.phase.Waiting? then s.(phase := Scanning(0, 0, s.counters)) else s
    case Read =>
      if s.phase.Waiting? then s
      else if s.phase.t < |s.counters| then
        s.(phase := s.phase.(t := s.phase.t + 1, sum := s.phase.sum + s.counters[s.phase.t]))
      else
        s.(phase := Waiting, prev := s.phase.sum,
           samples := s.samples + [Sample(s.phase.sum, s.phase.sum - s.prev, Sum(s.phase.was), Sum(s.counters))])
  }

  function Run(s: State, events: seq<Event>): State {
    if events == [] then s else Exec(Run(s, events[..|events| - 1]), events[|events| - 1])
  }

  function Start(workers: nat): State {
    State(seq(workers, _ => 0), Waiting, 0, [])
  }

  function Deltas(samples: seq<Sample>): int {
    if samples == [] then 0 else Deltas(samples[..|samples| - 1]) + samples[|samples| - 1].delta
  }

  // ----- the invariant -----

  ghost predicate Below(a: seq<nat>, b: seq<nat>) {
    |a| == |b| && forall i :: 0 <= i < |a| ==> a[i] <= b[i]
  }

  ghost predicate Bracketed(samples: seq<Sample>, i: nat)
    requires i < |samples|
  {
    samples[i].low <= samples[i].total <= samples[i].high && samples[i].delta >= 0
  }

  ghost predicate Good(samples: seq<Sample>) {
    && (forall i :: 0 <= i < |samples| ==> Bracketed(samples, i))
    && (forall i, j :: 0 <= i <= j < |samples| ==> samples[i].total <= samples[j].total)
  }

  ghost predicate Inv(s: State) {
    && Good(s.samples)
    && s.prev == Deltas(s.samples)
    && s.prev == (if s.samples == [] then 0 else s.samples[|s.samples| - 1].total)
    && s.prev <= Sum(s.counters)
    && (s.phase.Scanning? ==>
          && s.phase.t <= |s.counters|
          && Below(s.phase.was, s.counters)
          && s.prev <= Sum(s.phase.was)
          && Sum(s.phase.was[..s.phase.t]) <= s.phase.sum <= Sum(s.counters[..s.phase.t]))
  }

  lemma {:induction false} SumMonotone(a: seq<nat>, b: seq<nat>)
    requires Below(a, b)
    ensures Sum(a) <= Sum(b)
  {
    if a != [] { SumMonotone(a[1..], b[1..]); }
  }

  lemma {:induction false} PrefixStep(s: seq<nat>, t: nat)
    requires t < |s|
    ensures Sum(s[..t + 1]) == Sum(s[..t]) + s[t]
  {
    SumSnoc(s[..t], s[t]);
    assert s[..t + 1] == s[..t] + [s[t]];
  }

  lemma {:induction false} WorkKeepsInv(s: State, w: nat, d: nat)
    requires Inv(s)
    ensures Inv(Exec(s, Work(w, d)))
  {
    if w < |s.counters| {
      var c := s.counters[w := s.counters[w] + d];
      SumMonotone(s.counters, c);
      if s.phase.Scanning? {
        SumMonotone(s.counters[..s.phase.t], c[..s.phase.t]);
      }
    }
  }

  lemma {:induction false} ScanEndKeepsInv(s: State)
    requires Inv(s) && s.phase.Scanning? && s.phase.t >= |s.counters|
    ensures Inv(Exec(s, Read))
  {
    var p := s.phase;
    assert p.was[..p.t] == p.was && s.counters[..p.t] == s.counters;
    var samples := Exec(s, Read).samples;
    assert samples[..|samples| - 1] == s.samples;
    forall i | 0 <= i < |samples| ensures Bracketed(samples, i) {
      if i < |s.samples| { assert Bracketed(s.samples, i); }
    }
  }

  lemma {:induction false} ReadKeepsInv(s: State)
    requires Inv(s) && s.phase.Scanning?
    ensures Inv(Exec(s, Read))
  {
    var p := s.phase;
    if p.t < |s.counters| {
      PrefixStep(s.counters, p.t);
      PrefixStep(p.was, p.t);
    } else {
      ScanEndKeepsInv(s);
    }
  }

  lemma {:induction false} ExecKeepsInv(s: State, e: Event)
    requires Inv(s)
    ensures Inv(Exec(s, e))
  {
    match e
    case Work(w, d) => WorkKeepsInv(s, w, d);
    case Begin =>
    case Read => if s.phase.Scanning? { ReadKeepsInv(s); }
  }

  lemma {:induction false} RunKeepsInv(workers: nat, events: seq<Event>)
    ensures Inv(Run(Start(workers), events))
    decreases |events|
  {
    if events != [] {
      RunKeepsInv(workers, events[..|events| - 1]);
      ExecKeepsInv(Run(Start(workers), events[..|events| - 1]), events[|events| - 1]);
    }
  }

  /** For every interleaving of the workers' increments with the sampler's reads: each total lies between
      what the counters really added up to at the start and at the end of its scan, totals never decrease,
      no difference is negative (so the unsigned one never wraps), and the differences add up to the last total. */
  lemma {:induction false} SamplesAreSound(workers: nat, events: seq<Event>)
    ensures var samples := Run(Start(workers), events).samples;
            && (forall i :: 0 <= i < |samples| ==>
                  samples[i].low <= samples[i].total <= samples[i].high && samples[i].delta >= 0)
            && (forall i, j :: 0 <= i <= j < |samples| ==> samples[i].total <= samples[j].total)
            && (samples != [] ==> Deltas(samples) == samples[|samples| - 1].total)
  {
    RunKeepsInv(workers, events);
    var samples := Run(Start(workers), events).samples;
    forall i | 0 <= i < |samples|
      ensures samples[i].low <= samples[i].total <= samples[i].high && samples[i].delta >= 0
    {
      assert Bracketed(samples, i);
    }
  }

  // ----- what the counters and the brackets are -----

  /** All that worker w did in the events. */
  function Raised(events: seq<Event>, w: nat): nat {
    if events == [] then 0
    else
      var last := events[|events| - 1];
      Raised(events[..|events| - 1], w) + if last.Work? && last.w == w then last.d else 0
  }

  /** All that the first n workers did. */
  function RaisedAll(events: seq<Event>, n: nat): nat {
    if events == [] then 0
    else
      var last := events[|events| - 1];
      RaisedAll(events[..|events| - 1], n) + if last.Work? && last.w < n then last.d else 0
  }

  lemma {:induction false} SumRaise(s: seq<nat>, i: nat, d: nat)
    requires i < |s|
    ensures Sum(s[i := s[i] + d]) == Sum(s) + d
  {
    var t := s[i := s[i] + d];
    if i > 0 {
      SumRaise(s[1..], i - 1, d);
      assert t[1..] == s[1..][i - 1 := s[i] + d];
    } else {
      assert t[1..] == s[1..];
    }
  }

  lemma {:induction false} SumZeros(n: nat)
    ensures Sum(seq(n, _ => 0)) == 0
  {
    if n > 0 {
      SumZeros(n - 1);
      var s: seq<nat> := seq(n, _ => 0);
      assert s[1..] == seq(n - 1, _ => 0);
    }
  }

  /** Each counter is what its worker did, and all of them together what the workers did. */
  lemma {:induction false} CountersAreWork(n: nat, events: seq<Event>)
    ensures |Run(Start(n), events).counters| == n
    ensures forall w :: 0 <= w < n ==> Run(Start(n), events).counters[w] == Raised(events, w)
    ensures Sum(Run(Start(n), events).counters) == RaisedAll(events, n)
    decreases |events|
  {
    if events == [] {
      SumZeros(n);
    } else {
      var before := events[..|events| - 1];
      CountersAreWork(n, before);
      var s, e := Run(Start(n), before), events[|events| - 1];
      if e.Work? && e.w < n { SumRaise(s.counters, e.w, e.d); }
    }
  }

  /** A scan under way began at some event and has been under way since. */
  ghost predicate ScanFrom(n: nat, events: seq<Event>, b: nat) {
    && b < |events| && events[b] == Begin && Run(Start(n), events[..b]).phase.Waiting?
    && forall j :: b < j <= |events| ==> Run(Start(n), events[..j]).phase.Scanning?
  }

  lemma {:induction false} ScanGoesOn(n: nat, events: seq<Event>, b: nat)
    requires events != [] && ScanFrom(n, events[..|events| - 1], b) && Run(Start(n), events).phase.Scanning?
    ensures ScanFrom(n, events, b)
  {
    var before := events[..|events| - 1];
    assert events[..b] == before[..b] && events[..|events|] == events;
    forall j | b < j <= |events| ensures Run(Start(n), events[..j]).phase.Scanning? {
      if j < |events| { assert events[..j] == before[..j]; }
    }
  }

  lemma {:induction false} ScanBegan(n: nat, events: seq<Event>) returns (b: nat)
    requires Run(Start(n), events).phase.Scanning?
    ensures ScanFrom(n, events, b)
    ensures Run(Start(n), events).phase.was == Run(Start(n), events[..b]).counters
    ensures Run(Start(n), events).samples == Run(Start(n), events[..b]).samples
    decreases |events|
  {
    var m := |events| - 1;
    var before := events[..m];
    assert events[..|events|] == events;
    if Run(Start(n), before).phase.Scanning? {
      b := ScanBegan(n, before);
      ScanGoesOn(n, events, b);
      assert events[..b] == before[..b];
    } else {
      b := m;
    }
  }

  /** The i-th sample is the i-th scan's: it began at b, was under way from then to its last read at e, and
      its bracket is what the workers had done by b and by e. */
  ghost predicate SampledAt(n: nat, events: seq<Event>, i: nat, b: nat, e: nat)
    requires i < |Run(Start(n), events).samples|
  {
    && e < |events| && events[e] == Read && ScanFrom(n, events[..e], b)
    && |Run(Start(n), events[..b]).samples| == i && |Run(Start(n), events[..e + 1]).samples| == i + 1
    && Run(Start(n), events).samples[i].low == RaisedAll(events[..b], n)
    && Run(Start(n), events).samples[i].high == RaisedAll(events[..e], n)
  }

  lemma {:induction false} SampleStays(n: nat, events: seq<Event>, i: nat, b: nat, e: nat)
    requires events != [] && i < |Run(Start(n), events[..|events| - 1]).samples|
    requires SampledAt(n, events[..|events| - 1], i, b, e)
    ensures i < |Run(Start(n), events).samples| && SampledAt(n, events, i, b, e)
  {
    var before := events[..|events| - 1];
    assert before[..e] == events[..e] && before[..e + 1] == events[..e + 1] && before[..b] == events[..b];
  }

  lemma {:induction false} SampleScan(n: nat, events: seq<Event>, i: nat) returns (b: nat, e: nat)
    requires i < |Run(Start(n), events).samples|
    ensures SampledAt(n, events, i, b, e)
    decreases |events|
  {
    var m := |events| - 1;
    var before := events[..m];
    if i < |Run(Start(n), before).samples| {
      b, e := SampleScan(n, before, i);
      SampleStays(n, events, i, b, e);
    } else {
      e := m;
      b := ScanBegan(n, before);
      CountersAreWork(n, before);
      CountersAreWork(n, before[..b]);
      assert before[..b] == events[..b] && events[..e + 1] == events;
    }
  }

  /** So every sampled total lies between what the workers had done when its scan began and what they had
      done when it ended. */
  lemma {:induction false} SampleBracketsWork(n: nat, events: seq<Event>, i: nat) returns (b: nat, e: nat)
    requires i < |Run(Start(n), events).samples|
    ensures SampledAt(n, events, i, b, e)
    ensures RaisedAll(events[..b], n) <= Run(Start(n), events).samples[i].total <= RaisedAll(events[..e], n)
  {
    b, e := SampleScan(n, events, i);
    SamplesAreSound(n, events);
  }

  // ----- every scan ends in one sample -----

  function Reads(events: seq<Event>): nat {
    if events == [] then 0
    else Reads(events[..|events| - 1]) + if events[|events| - 1].Read? then 1 else 0
  }

  lemma {:induction false} ScanReads(s: State, events: seq<Event>)
    requires s.phase.Scanning? && s.phase.t <= |s.counters| && Begin !in events
    ensures var r, d := Reads(events), Run(s, events);
            && |d.counters| == |s.counters|
            && if s.phase.t + r <= |s.counters| then d.phase.Scanning? && d.phase.t == s.phase.t + r && d.samples == s.samples
               else d.phase.Waiting? && |d.samples| == |s.samples| + 1
    decreases |events|
  {
    if events != [] { ScanReads(s, events[..|events| - 1]); }
  }

  lemma {:induction false} RunCons(s: State, e: Event, events: seq<Event>)
    ensures Run(s, [e] + events) == Run(Exec(s, e), events)
    decreases |events|
  {
    var all := [e] + events;
    if events == [] {
      assert all[..0] == [];
    } else {
      RunCons(s, e, events[..|events| - 1]);
      assert all[..|all| - 1] == [e] + events[..|events| - 1];
    }
  }

  /** A scan of n counters takes its beginning and n + 1 reads, with any work in between, and adds one sample. */
  lemma {:induction false} ScanAddsOne(s: State, events: seq<Event>)
    requires s.phase.Waiting? && Begin !in events
    ensures var d := Run(s, [Begin] + events);
            if Reads(events) <= |s.counters| then d.phase.Scanning? && d.samples == s.samples
            else d.phase.Waiting? && |d.samples| == |s.samples| + 1
  {
    RunCons(s, Begin, events);
    ScanReads(Exec(s, Begin), events);
  }
}
