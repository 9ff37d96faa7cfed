/** CPU affinity: the list of allowed CPUs, its text as ranges, and the placement of workers
    (src/affinity.c). */
module Affinity {
  import opened Numbers
  import opened Numerals

  const CPU_SETSIZE: nat := 1024

  // ----- the allowed CPUs -----

  predicate Increasing(cpus: seq<nat>) {
    forall i, j :: 0 <= i < j < |cpus| ==> cpus[i] < cpus[j]
  }

  /** CPU_COUNT over the first n bits of the mask. */
  function CpuCount(mask: seq<bool>, n: nat): nat
    requires n <= |mask|
  {
    if n == 0 then 0 else CpuCount(mask, n - 1) + if mask[n - 1] then 1 else 0
  }

  lemma {:induction false} CountGrows(mask: seq<bool>, a: nat, b: nat)
    requires a <= b <= |mask|
    ensures CpuCount(mask, a) <= CpuCount(mask, b)
    ensures CpuCount(mask, a) == CpuCount(mask, b) ==> forall i :: a <= i < b ==> !mask[i]
    decreases b
  {
    if a < b { CountGrows(mask, a, b - 1); }
  }

  /** The list holds the CPUs of the mask below i, in increasing order. */
  ghost predicate Listed(mask: seq<bool>, i: nat, list: seq<nat>)
    requires i <= |mask|
  {
    Increasing(list) && |list| == CpuCount(mask, i) && forall c: nat :: c in list <==> c < i && mask[c]
  }

  lemma {:induction false} ListNext(mask: seq<bool>, i: nat, list: seq<nat>)
    requires i < |mask| && Listed(mask, i, list)
    ensures Listed(mask, i + 1, if mask[i] then list + [i] else list)
  {
    if mask[i] {
      forall k | 0 <= k < |list| ensures list[k] < i {
        assert list[k] in list;
      }
    }
  }

  /** Once all are found, the rest of the mask is empty. */
  lemma {:induction false} ListEnds(mask: seq<bool>, i: nat, list: seq<nat>)
    requires i <= |mask| && Listed(mask, i, list) && (i == |mask| || |list| >= CpuCount(mask, |mask|))
    ensures Listed(mask, |mask|, list)
  {
    CountGrows(mask, i, |mask|);
  }

  // ----- ranges -----

  /** A run of CPUs, both ends included. */
  datatype Range = Range(lo: nat, hi: nat)

  function RunEnd(cpus: seq<nat>, i: nat): (j: nat)
    requires i < |cpus|
    ensures i <= j < |cpus|
    ensures forall k :: i <= k <= j ==> cpus[k] == cpus[i] + (k - i)
    ensures j + 1 < |cpus| ==> cpus[j + 1] != cpus[j] + 1
    decreases |cpus| - i
  {
    if i + 1 < |cpus| && cpus[i + 1] == cpus[i] + 1 then RunEnd(cpus, i + 1) else i
  }

  function Runs(cpus: seq<nat>, i: nat): seq<Range>
    requires i <= |cpus|
    decreases |cpus| - i
  {
    if i == |cpus| then []
    else [Range(cpus[i], cpus[RunEnd(cpus, i)])] + Runs(cpus, RunEnd(cpus, i) + 1)
  }

  function Span(lo: nat, hi: nat): (s: seq<nat>)
    requires lo <= hi
    ensures |s| == hi - lo + 1 && forall k :: 0 <= k < |s| ==> s[k] == lo + k
  {
    seq(hi - lo + 1, k requires 0 <= k => lo + k)
  }

  /** The CPUs the ranges stand for. */
  function Expand(runs: seq<Range>): seq<nat> {
    if runs == [] then []
    else (if runs[0].lo <= runs[0].hi then Span(runs[0].lo, runs[0].hi) else []) + Expand(runs[1..])
  }

  /** No range can be made longer: the next one starts past a gap. */
  ghost predicate Maximal(runs: seq<Range>) {
    && (forall k :: 0 <= k < |runs| ==> runs[k].lo <= runs[k].hi)
    && (forall k :: 0 <= k < |runs| - 1 ==> runs[k].hi + 1 < runs[k + 1].lo)
  }

  lemma {:induction false} ExpandCons(r: Range, runs: seq<Range>)
    requires r.lo <= r.hi
    ensures Expand([r] + runs) == Span(r.lo, r.hi) + Expand(runs)
  {
    assert ([r] + runs)[1..] == runs;
  }

  lemma {:induction false} SpanAt(cpus: seq<nat>, i: nat, j: nat)
    requires i <= j < |cpus| && forall k :: i <= k <= j ==> cpus[k] == cpus[i] + (k - i)
    ensures cpus[i] <= cpus[j] && Span(cpus[i], cpus[j]) + cpus[j + 1..] == cpus[i..]
  {
    assert cpus[i..j + 1] == Span(cpus[i], cpus[j]);
    assert cpus[i..] == cpus[i..j + 1] + cpus[j + 1..];
  }

  lemma {:induction false} RunsExpand(cpus: seq<nat>, i: nat)
    requires i <= |cpus|
    ensures Expand(Runs(cpus, i)) == cpus[i..]
    decreases |cpus| - i
  {
    if i < |cpus| {
      var j := RunEnd(cpus, i);
      SpanAt(cpus, i, j);
      RunsExpand(cpus, j + 1);
      ExpandCons(Range(cpus[i], cpus[j]), Runs(cpus, j + 1));
    }
  }

  lemma {:induction false} RunsMaximal(cpus: seq<nat>, i: nat)
    requires i <= |cpus| && Increasing(cpus)
    ensures Maximal(Runs(cpus, i))
    decreases |cpus| - i
  {
    if i < |cpus| {
      var j := RunEnd(cpus, i);
      RunsMaximal(cpus, j + 1);
      var rest, all := Runs(cpus, j + 1), Runs(cpus, i);
      assert all == [Range(cpus[i], cpus[j])] + rest;
      assert j + 1 < |cpus| ==> rest[0].lo == cpus[j + 1] && cpus[j + 1] > cpus[j] + 1;
      forall k | 0 <= k < |all| - 1 ensures all[k].hi + 1 < all[k + 1].lo {
        if k > 0 { assert all[k] == rest[k - 1] && all[k + 1] == rest[k]; }
      }
    }
  }

  // ----- ranges as text -----

  function RangeText(r: Range): string {
    if r.lo < r.hi then Digits(r.lo) + "-" + Digits(r.hi) else Digits(r.lo)
  }

  function Render(runs: seq<Range>): string {
    if runs == [] then "" else RangeText(runs[0]) + RenderRest(runs[1..])
  }

  function RenderRest(runs: seq<Range>): string {
    if runs == [] then "" else "," + RangeText(runs[0]) + RenderRest(runs[1..])
  }

  /** Past the comma, if there is one. */
  function PastComma(s: string): string { if s == "" then "" else s[1..] }

  /** The range at the front of the text, and the text after it. */
  function FirstRange(text: string): (Range, string) {
    var n := DigitRun(text);
    var lo := DigitsValue(text[..n]);
    if n < |text| && text[n] == '-' then
      var rest := text[n + 1..];
      var m := DigitRun(rest);
      (Range(lo, DigitsValue(rest[..m])), PastComma(rest[m..]))
    else (Range(lo, lo), PastComma(text[n..]))
  }

  /** Reads ranges back: a number, perhaps a dash and another, then a comma or the end. */
  function Decode(text: string): seq<Range>
    decreases |text|
  {
    if DigitRun(text) == 0 then [] else [FirstRange(text).0] + Decode(FirstRange(text).1)
  }

  lemma {:induction false} DigitsThen(n: nat, rest: string)
    requires rest == "" || !IsDigit(rest[0])
    ensures DigitRun(Digits(n) + rest) == |Digits(n)| && DigitsValue((Digits(n) + rest)[..|Digits(n)|]) == n
    ensures |Digits(n)| > 0
  {
    DigitsBack(n);
    DigitRunStops(Digits(n), rest);
    assert (Digits(n) + rest)[..|Digits(n)|] == Digits(n);
  }

  lemma {:induction false} FirstSingle(lo: nat, more: string)
    requires more == "" || more[0] == ','
    ensures FirstRange(Digits(lo) + more) == (Range(lo, lo), PastComma(more)) && DigitRun(Digits(lo) + more) > 0
  {
    var d, text := Digits(lo), Digits(lo) + more;
    DigitsThen(lo, more);
    assert text[|d|..] == more;
  }

  lemma {:induction false} FirstDash(text: string, n: nat, rest: string, m: nat)
    requires n < |text| && n == DigitRun(text) && text[n] == '-' && rest == text[n + 1..] && m == DigitRun(rest)
    ensures FirstRange(text) == (Range(DigitsValue(text[..n]), DigitsValue(rest[..m])), PastComma(rest[m..]))
  {
  }

  lemma {:induction false} DashText(d: string, e: string, more: string)
    ensures var text := d + "-" + e + more;
            text == d + ("-" + (e + more)) && |text| > |d| && text[|d|] == '-' && text[|d| + 1..] == e + more
    ensures (e + more)[|e|..] == more
  {
  }

  lemma {:induction false} FirstPair(lo: nat, hi: nat, more: string)
    requires more == "" || more[0] == ','
    ensures var text := Digits(lo) + "-" + Digits(hi) + more;
            FirstRange(text) == (Range(lo, hi), PastComma(more)) && DigitRun(text) > 0
  {
    DashText(Digits(lo), Digits(hi), more);
    PairParts(lo, Digits(lo) + "-" + Digits(hi) + more, "-" + (Digits(hi) + more));
    DigitsThen(hi, more);
    FirstDash(Digits(lo) + "-" + Digits(hi) + more, |Digits(lo)|, Digits(hi) + more, |Digits(hi)|);
  }

  lemma {:induction false} PairParts(lo: nat, text: string, tail: string)
    requires text == Digits(lo) + tail && tail != "" && !IsDigit(tail[0])
    ensures 0 < |Digits(lo)| < |text| && DigitRun(text) == |Digits(lo)| && DigitsValue(text[..|Digits(lo)|]) == lo
  {
    DigitsThen(lo, tail);
  }

  lemma {:induction false} FirstIs(r: Range, more: string)
    requires r.lo <= r.hi && (more == "" || more[0] == ',')
    ensures FirstRange(RangeText(r) + more) == (r, PastComma(more)) && DigitRun(RangeText(r) + more) > 0
  {
    if r.lo < r.hi {
      FirstPair(r.lo, r.hi, more);
    } else {
      FirstSingle(r.lo, more);
    }
  }

  lemma {:induction false} DecodeEmpty(s: string)
    requires s == ""
    ensures Decode(s) == []
  {
  }

  lemma {:induction false} AfterComma(runs: seq<Range>)
    ensures RenderRest(runs) == "" <==> runs == []
    ensures runs != [] ==> RenderRest(runs)[0] == ',' && RenderRest(runs)[1..] == Render(runs)
  {
    if runs != [] {
      assert RenderRest(runs) == "," + (RangeText(runs[0]) + RenderRest(runs[1..]));
    }
  }

  lemma {:induction false} DecodeRender(runs: seq<Range>)
    requires forall k :: 0 <= k < |runs| ==> runs[k].lo <= runs[k].hi
    ensures Decode(Render(runs)) == runs
  {
    if runs == [] {
      DecodeEmpty(Render(runs));
    } else {
      var rest := runs[1..];
      var more := RenderRest(rest);
      AfterComma(rest);
      FirstIs(runs[0], more);
      assert PastComma(more) == Render(rest);
      DecodeRender(rest);
    }
  }

  /** The text of a CPU list decodes to maximal ranges that stand for exactly that list. */
  lemma {:induction false} RenderDecodes(cpus: seq<nat>)
    requires Increasing(cpus)
    ensures var runs := Decode(Render(Runs(cpus, 0))); Maximal(runs) && Expand(runs) == cpus
  {
    var runs := Runs(cpus, 0);
    RunsMaximal(cpus, 0);
    DecodeRender(runs);
    RunsExpand(cpus, 0);
    assert cpus[0..] == cpus;
  }

  /** The text of a list of two runs. */
  lemma {:induction false} RenderSample(cpus: seq<nat>)
    requires cpus == [0, 1, 2, 3, 8]
    ensures Render(Runs(cpus, 0)) == "0-3,8"
  {
    assert Runs(cpus, 5) == [];
    assert RunEnd(cpus, 4) == 4 && Runs(cpus, 4) == [Range(8, 8)];
    assert RunEnd(cpus, 0) == 3;
    var runs := Runs(cpus, 0);
    assert runs == [Range(0, 3), Range(8, 8)];
    assert runs[1..] == [Range(8, 8)] && runs[1..][1..] == [];
    assert Digits(0) == "0" && Digits(3) == "3" && Digits(8) == "8";
    assert RangeText(Range(0, 3)) == "0-3" && RangeText(Range(8, 8)) == "8";
    assert RenderRest(runs[1..]) == "," + "8" + RenderRest([]);
    assert Render(runs) == "0-3" + ",8";
  }

  // ----- placement -----

  /** The list position of worker tid's CPU, in C arithmetic. */
  function Place(tid: int, n: nat): int
    requires n > 0
  {
    TruncMod(TruncMod(tid, n) + n, n)
  }

  /** The remainder is the one that is never negative, for negative ids too. */
  lemma {:induction false} PlaceIsMod(tid: int, n: nat)
    requires n > 0
    ensures Place(tid, n) == tid % n
  {
    var r := TruncMod(tid, n);
    TruncModBounds(tid, n);
    TruncModIs(tid, n);
    if r >= 0 {
      DivUnique(r + n, n, 1, r);
    } else {
      DivUnique(r + n, n, 0, r + n);
    }
  }

  lemma {:induction false} Negated(n: int, q: int)
    ensures (-q) * n == -(n * q) && n * (-q) == -(n * q) && n * (-q - 1) == -(n * q) - n
  {
  }

  lemma {:induction false} NegativeTrunc(a: int, n: nat, q: int, r: int)
    requires n > 0 && a < 0 && q == (-a) / n && r == (-a) % n
    ensures a == -(n * q) - r && 0 <= r < n && TruncMod(a, n) == -r
  {
    assert -a == n * q + r;
    Negated(n, q);
  }

  lemma {:induction false} TruncModIs(a: int, n: nat)
    requires n > 0
    ensures a % n == if TruncMod(a, n) < 0 then TruncMod(a, n) + n else TruncMod(a, n)
  {
    if a < 0 {
      var q, r := (-a) / n, (-a) % n;
      NegativeTrunc(a, n, q, r);
      Negated(n, q);
      if r == 0 {
        ModUnique(a, n, -q, 0);
      } else {
        ModUnique(a, n, -q - 1, n - r);
      }
    } else {
      TruncOfNat(a, n);
    }
  }

  lemma {:induction false} ModUnique(a: int, n: nat, q: int, r: nat)
    requires n > 0 && r < n && a == n * q + r
    ensures a % n == r
  {
    var q', r' := a / n, a % n;
    assert a == n * q' + r';
    Apart(n, q, q', r, r');
  }

  lemma {:induction false} Apart(n: nat, q: int, q': int, r: nat, r': nat)
    requires r < n && r' < n && n * q + r == n * q' + r'
    ensures r == r'
  {
    if q' < q {
      Spread(n, q', q);
    } else if q' > q {
      Spread(n, q, q');
    }
  }

  lemma {:induction false} Spread(n: nat, a: int, b: int)
    requires a < b
    ensures n * b >= n * a + n
  {
    MulGap(n, 0, b - a);
    assert n * (b - a) == n * b - n * a;
  }

  /** How many of the first workers sit on position c. */
  function Load(workers: nat, n: nat, c: nat): nat
    requires n > 0
  {
    if workers == 0 then 0 else Load(workers - 1, n, c) + if Place(workers - 1, n) == c then 1 else 0
  }

  /** Every CPU gets the floor or the ceiling of workers / cpus, the first ones the ceiling. */
  lemma {:induction false} LoadBalanced(workers: nat, n: nat, c: nat)
    requires c < n
    ensures Load(workers, n, c) == workers / n + if c < workers % n then 1 else 0
  {
    if workers == 0 {
      assert 0 / n == 0 && 0 % n == 0;
    } else {
      LoadBalanced(workers - 1, n, c);
      PlaceIsMod(workers - 1, n);
      NextTurn(workers - 1, n);
    }
  }

  lemma {:induction false} NextTurn(w: nat, n: nat)
    requires n > 0
    ensures w % n + 1 < n ==> (w + 1) / n == w / n && (w + 1) % n == w % n + 1
    ensures w % n + 1 == n ==> (w + 1) / n == w / n + 1 && (w + 1) % n == 0
  {
    var q, r := w / n, w % n;
    assert w == n * q + r;
    if r + 1 < n {
      DivUnique(w + 1, n, q, r + 1);
      assert w + 1 == n * q + (w + 1) % n;
    } else {
      assert w + 1 == n * (q + 1) + 0;
      DivUnique(w + 1, n, q + 1, 0);
      assert w + 1 == n * (q + 1) + (w + 1) % n;
    }
  }

  // ----- rendering step by step -----

  lemma {:induction false} RestAppend(a: seq<Range>, b: seq<Range>)
    ensures RenderRest(a + b) == RenderRest(a) + RenderRest(b)
  {
    if a == [] {
      assert a + b == b;
    } else {
      assert (a + b)[1..] == a[1..] + b;
      RestAppend(a[1..], b);
    }
  }

  lemma {:induction false} RenderAppend(a: seq<Range>, b: seq<Range>)
    requires a != []
    ensures Render(a + b) == Render(a) + RenderRest(b)
  {
    assert (a + b)[1..] == a[1..] + b;
    RestAppend(a[1..], b);
  }

  lemma {:induction false} RenderNonEmpty(runs: seq<Range>)
    requires runs != []
    ensures Render(runs) != ""
  {
    DigitsBack(runs[0].lo);
  }

  function Piece(first: bool, r: Range): string { (if first then "" else ",") + RangeText(r) }

  /** Adding one range adds its piece, and later ranges only make the text longer. */
  lemma {:induction false} RenderStep(a: seq<Range>, r: Range, rest: seq<Range>)
    ensures Render(a + [r]) == Render(a) + Piece(a == [], r)
    ensures |Render(a + [r] + rest)| >= |Render(a + [r])|
  {
    if a == [] {
      assert a + [r] == [r] && [r][1..] == [];
    } else {
      RenderAppend(a, [r]);
      assert [r][1..] == [];
      assert RenderRest([r]) == "," + RangeText(r) + RenderRest([]);
    }
    RenderAppend(a + [r], rest);
  }

  /** What the text becomes when the ranges from some point on do not fit. */
  ghost predicate CutShort(out: string, runs: seq<Range>, cap: nat) {
    exists k :: 0 <= k < |runs| && CutAt(out, runs, cap, k)
  }

  ghost predicate CutAt(out: string, runs: seq<Range>, cap: nat, k: nat)
    requires k < |runs|
  {
    var head := Render(runs[..k]);
    |head| < cap && |Render(runs[..k + 1])| >= cap && out == head + Ellipsis(cap - 1 - |head|)
  }

  /** As much of an ellipsis as there is room for. */
  function Ellipsis(room: nat): (s: string)
    ensures |s| <= room
  {
    if room < 3 then "..."[..room] else "..."
  }

  // ----- the process's CPU set -----

  class CpuSet {
    const cpus: array<nat>
    var ncpus: nat
    var enabled: bool

    ghost predicate Valid()
      reads this, cpus
    {
      cpus.Length == CPU_SETSIZE && ncpus <= CPU_SETSIZE && Increasing(cpus[..ncpus]) && (enabled ==> ncpus > 0)
    }

    constructor ()
      ensures Valid() && fresh(cpus) && ncpus == 0 && !enabled
    {
      cpus := new nat[CPU_SETSIZE](_ => 0);
      ncpus, enabled := 0, false;
    }

    /** Records the CPUs of the inherited mask: exactly those, in increasing order. */
    method Init(mask: seq<bool>, readable: bool, enable: bool) returns (n: nat)
      requires Valid() && |mask| == CPU_SETSIZE
      modifies this, cpus
      ensures Valid() && n == ncpus
      ensures enabled <==> readable && enable && ncpus > 0
      ensures !readable ==> ncpus == 0
      ensures readable ==> Listed(mask, |mask|, cpus[..ncpus])
    {
      if !readable {
        ncpus, enabled := 0, false;
        return 0;
      }
      enabled := false;
      Enumerate(mask);
      enabled := enable && ncpus > 0;
      n := ncpus;
    }

    method Add(c: nat)
      requires ncpus < cpus.Length
      modifies this`ncpus, cpus
      ensures ncpus == old(ncpus) + 1 && cpus[..ncpus] == old(cpus[..ncpus]) + [c]
    {
      cpus[ncpus] := c;
      ncpus := ncpus + 1;
    }

    method Enumerate(mask: seq<bool>)
      requires cpus.Length == CPU_SETSIZE == |mask|
      modifies this`ncpus, cpus
      ensures ncpus <= CPU_SETSIZE && Listed(mask, |mask|, cpus[..ncpus])
    {
      var want := CpuCount(mask, |mask|);
      ncpus := 0;
      var i := 0;
      assert cpus[..0] == [];
      while i < CPU_SETSIZE && ncpus < want
        invariant 0 <= i <= CPU_SETSIZE && ncpus <= i && Listed(mask, i, cpus[..ncpus])
      {
        ListNext(mask, i, cpus[..ncpus]);
        if mask[i] {
          Add(i);
        }
        i := i + 1;
      }
      ListEnds(mask, i, cpus[..ncpus]);
    }

    /** The CPU worker tid runs on, from the recorded list, or -1 when pinning is off or refused. */
    method PinSelf(tid: int, accepted: bool) returns (cpu: int)
      requires Valid()
      ensures !enabled || !accepted ==> cpu == -1
      ensures enabled && accepted ==> 0 <= Place(tid, ncpus) < ncpus && cpu == cpus[Place(tid, ncpus)] && Place(tid, ncpus) == tid % ncpus
    {
      if !enabled || ncpus <= 0 {
        return -1;
      }
      PlaceInRange(tid, ncpus);
      PlaceIsMod(tid, ncpus);
      cpu := if accepted then cpus[Place(tid, ncpus)] else -1;
    }
  }

  lemma {:induction false} PlaceInRange(tid: int, n: nat)
    requires n > 0
    ensures 0 <= Place(tid, n) < n
  {
    TruncModBounds(tid, n);
    TruncModBounds(TruncMod(tid, n) + n, n);
  }

  lemma {:induction false} TruncModBounds(a: int, n: nat)
    requires n > 0
    ensures -(n as int) < TruncMod(a, n) < n && (a >= 0 ==> TruncMod(a, n) >= 0)
  {
    if a >= 0 {
      assert a == n * (a / n) + a % n;
    } else {
      assert -a == n * ((-a) / n) + (-a) % n;
    }
  }

  method FindRunEnd(cpus: seq<nat>, i: nat) returns (j: nat)
    requires i < |cpus|
    ensures j == RunEnd(cpus, i)
  {
    j := i;
    while j + 1 < |cpus| && cpus[j + 1] == cpus[j] + 1
      invariant i <= j < |cpus| && RunEnd(cpus, j) == RunEnd(cpus, i)
    {
      j := j + 1;
    }
  }

  /** Of all the ranges, the text holds those done, and those from i on are still to come. */
  ghost predicate SoFar(all: seq<Range>, cpus: seq<nat>, i: nat, done: seq<Range>, out: string) {
    i <= |cpus| && all == done + Runs(cpus, i) && out == Render(done)
  }

  lemma {:induction false} RunsStep(cpus: seq<nat>, i: nat, j: nat, done: seq<Range>)
    requires i < |cpus| && j == RunEnd(cpus, i)
    ensures done + Runs(cpus, i) == done + [Range(cpus[i], cpus[j])] + Runs(cpus, j + 1)
  {
  }

  lemma {:induction false} AddRange(all: seq<Range>, done: seq<Range>, r: Range, rest: seq<Range>, out: string, longer: string)
    requires all == done + [r] + rest && out == Render(done) && longer == out + Piece(out == "", r)
    ensures longer == Render(done + [r]) && |Render(all)| >= |longer|
    ensures |done| < |all| && Render(all[..|done|]) == out && Render(all[..|done| + 1]) == longer
  {
    if done != [] { RenderNonEmpty(done); }
    RenderStep(done, r, rest);
    assert all[..|done|] == done && all[..|done| + 1] == done + [r];
  }

  method NextRange(cpus: seq<nat>, i: nat, out: string, ghost all: seq<Range>, ghost done: seq<Range>)
    returns (next: nat, longer: string, ghost more: seq<Range>)
    requires i < |cpus| && SoFar(all, cpus, i, done, out)
    ensures i < next && SoFar(all, cpus, next, more, longer) && |more| == |done| + 1
    ensures |Render(all)| >= |longer| && |done| < |all| && Render(all[..|done|]) == out && Render(all[..|done| + 1]) == longer
  {
    var j := FindRunEnd(cpus, i);
    var r := Range(cpus[i], cpus[j]);
    next := j + 1;
    longer := out + Piece(out == "", r);
    more := done + [r];
    RunsStep(cpus, i, j, done);
    AddRange(all, done, r, Runs(cpus, next), out, longer);
  }

  /** The list as ranges in a buffer of cap bytes: the whole text exactly when it fits, otherwise the
      ranges that fit and an ellipsis. */
  method FormatSet(cpus: seq<nat>, cap: nat) returns (out: string)
    requires cap > 0
    ensures |out| < cap
    ensures |Render(Runs(cpus, 0))| < cap ==> out == Render(Runs(cpus, 0))
    ensures |Render(Runs(cpus, 0))| >= cap ==> CutShort(out, Runs(cpus, 0), cap)
  {
    ghost var all, done: seq<Range> := Runs(cpus, 0), [];
    out := "";
    var i := 0;
    assert [] + all == all;
    while i < |cpus|
      invariant |out| < cap && SoFar(all, cpus, i, done, out)
      decreases |cpus| - i
    {
      var next, longer;
      ghost var more;
      next, longer, more := NextRange(cpus, i, out, all, done);
      if |longer| >= cap {
        out := out + Ellipsis(cap - 1 - |out|);
        assert CutAt(out, all, cap, |done|);
        return;
      }
      out, done, i := longer, more, next;
    }
    assert done + [] == done;
  }
}
