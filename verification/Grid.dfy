/** The measurement grid: which stores are opened, seeded, measured and closed, and which cells
    get a row, in the three seeding modes (src/main.c). */
module Grid {
  /** A point of the grid: engine, thread-list and sweep-list indices. */
  datatype Cell = Cell(e: nat, t: nat, s: nat)

  /** The swept value a store is seeded for, or Shared when one seeding serves every value. */
  datatype Load = Value(s: nat) | Shared

  /** Opening says what the store is opened for and whether the workload has anything to load. */
  datatype Event =
    | Open(id: nat, e: nat, load: Load, hasLoad: bool)
    | Seed(id: nat)
    | Timed(id: nat, cell: Cell, run: nat, ok: bool)
    | Close(id: nat)
    | SetupFailed
    | Row(cell: Cell)

  /** What can come of opening and seeding a store. */
  datatype Setup = NoBackend | NoWorkload | SeedFailed | Ready(hasLoad: bool)

  /** Fresh reseeds every measurement, PerValue seeds once per engine and swept value,
      PerEngine once per engine. */
  datatype Mode = Fresh | PerValue | PerEngine

  // ----- store discipline -----

  datatype Status = Idle | Holding(id: nat, e: nat, load: Load, hasLoad: bool, seeded: bool) | Broken

  predicate Serves(status: Status, id: nat) {
    status.Holding? && status.id == id
  }

  /** A timed run belongs on a store of its engine, opened for its swept value and seeded if there is
      anything to load. */
  predicate Suits(status: Status, cell: Cell) {
    && status.Holding? && status.e == cell.e && (status.load == Shared || status.load == Value(cell.s))
    && (status.hasLoad ==> status.seeded)
  }

  function Opens(trace: seq<Event>): nat {
    if trace == [] then 0
    else Opens(trace[..|trace| - 1]) + if trace[|trace| - 1].Open? then 1 else 0
  }

  /** One event more: anything but opening when idle, seeding once a store with a load, and using or closing the
      store that is open, breaks it. */
  function Step(before: Status, opens: nat, ev: Event): Status {
    match ev
    case Open(id, e, load, hasLoad) => if before.Idle? && id == opens then Holding(id, e, load, hasLoad, false) else Broken
    case Seed(id) => if Serves(before, id) && before.hasLoad && !before.seeded then before.(seeded := true) else Broken
    case Timed(id, cell, _, _) => if Serves(before, id) && Suits(before, cell) then before else Broken
    case Close(id) => if Serves(before, id) then Idle else Broken
    case SetupFailed => before
    case Row(_) => before
  }

  function StatusOf(trace: seq<Event>): Status {
    if trace == [] then Idle
    else Step(StatusOf(trace[..|trace| - 1]), Opens(trace[..|trace| - 1]), trace[|trace| - 1])
  }

  /** Nothing has failed: every setup gave a store and every timed run ended without error. */
  predicate Clean(trace: seq<Event>) {
    trace == [] ||
    (Clean(trace[..|trace| - 1]) && match trace[|trace| - 1] case SetupFailed => false case Timed(_, _, _, ok) => ok case _ => true)
  }

  /** The runs that ended without error. */
  function Done(trace: seq<Event>): set<(Cell, nat)> {
    if trace == [] then {}
    else
      var before := Done(trace[..|trace| - 1]);
      match trace[|trace| - 1]
      case Timed(_, cell, run, true) => before + {(cell, run)}
      case _ => before
  }

  lemma {:induction false} Snoc(trace: seq<Event>, ev: Event)
    ensures StatusOf(trace + [ev]) == Step(StatusOf(trace), Opens(trace), ev)
    ensures Opens(trace + [ev]) == Opens(trace) + if ev.Open? then 1 else 0
    ensures Clean(trace + [ev]) == (Clean(trace) && !ev.SetupFailed? && (ev.Timed? ==> ev.ok))
    ensures Done(trace + [ev]) == Done(trace) + if ev.Timed? && ev.ok then {(ev.cell, ev.run)} else {}
  {
    assert (trace + [ev])[..|trace|] == trace;
  }

  // ----- what the discipline means -----

  predicate IsOpen(ev: Event, id: nat) { ev.Open? && ev.id == id }

  /** At this point of the trace the store id is open: opened before, not closed since. */
  ghost predicate OpenAt(trace: seq<Event>, k: nat, id: nat)
    requires k <= |trace|
  {
    exists i: nat :: OpenSince(trace, i, k, id)
  }

  lemma {:induction false} PrefixUnbroken(trace: seq<Event>, k: nat)
    requires !StatusOf(trace).Broken? && k <= |trace|
    ensures !StatusOf(trace[..k]).Broken?
    decreases |trace|
  {
    if k < |trace| {
      PrefixUnbroken(trace[..|trace| - 1], k);
      assert trace[..|trace| - 1][..k] == trace[..k];
    } else {
      assert trace[..k] == trace;
    }
  }

  /** A store opened at i and not closed from then to k. */
  ghost predicate OpenSince(trace: seq<Event>, i: nat, k: nat, id: nat)
    requires k <= |trace|
  {
    i < k && IsOpen(trace[i], id) && forall j :: i < j < k ==> trace[j] != Close(id)
  }

  /** The store held was opened, as the status says, and not closed since. */
  lemma {:induction false} HeldIsOpen(trace: seq<Event>) returns (i: nat)
    requires StatusOf(trace).Holding?
    ensures OpenSince(trace, i, |trace|, StatusOf(trace).id)
    ensures trace[i] == Open(StatusOf(trace).id, StatusOf(trace).e, StatusOf(trace).load, StatusOf(trace).hasLoad)
    ensures forall j :: i < j < |trace| ==> !trace[j].Open?
  {
    var n := |trace| - 1;
    if trace[n].Open? {
      i := n;
    } else {
      i := HeldIsOpen(trace[..n]);
      assert trace[..n][i] == trace[i];
      assert forall j :: i < j < n ==> trace[..n][j] == trace[j];
    }
  }

  /** And no other is open. */
  lemma {:induction false} OpenIsHeld(trace: seq<Event>, i: nat, id: nat)
    requires !StatusOf(trace).Broken? && OpenSince(trace, i, |trace|, id)
    ensures Serves(StatusOf(trace), id)
  {
    var n := |trace| - 1;
    if i < n {
      assert trace[..n][i] == trace[i];
      assert forall j :: i < j < n ==> trace[..n][j] == trace[j];
      OpenIsHeld(trace[..n], i, id);
      assert trace[n] != Close(id);
    }
  }

  lemma {:induction false} StatusAt(trace: seq<Event>, k: nat, id: nat)
    requires !StatusOf(trace).Broken? && k <= |trace|
    ensures OpenAt(trace, k, id) <==> Serves(StatusOf(trace[..k]), id)
  {
    PrefixUnbroken(trace, k);
    var p := trace[..k];
    if OpenAt(trace, k, id) {
      var i: nat :| OpenSince(trace, i, k, id);
      assert OpenSince(p, i, |p|, id);
      OpenIsHeld(p, i, id);
    }
    if Serves(StatusOf(p), id) {
      var i := HeldIsOpen(p);
      assert forall j :: i < j < k ==> trace[j] == p[j];
      assert OpenSince(trace, i, k, id);
    }
  }

  /** At every moment at most one store is open, and stores are seeded, measured and closed only while open. */
  lemma {:induction false} OneStoreAtATime(trace: seq<Event>, k: nat, a: nat, b: nat)
    requires !StatusOf(trace).Broken? && k <= |trace|
    ensures OpenAt(trace, k, a) && OpenAt(trace, k, b) ==> a == b
    ensures k < |trace| && (trace[k].Seed? || trace[k].Timed? || trace[k].Close?) ==> OpenAt(trace, k, trace[k].id)
    ensures k < |trace| && trace[k].Open? ==> !OpenAt(trace, k, a)
  {
    StatusAt(trace, k, a);
    StatusAt(trace, k, b);
    if k < |trace| {
      PrefixUnbroken(trace, k + 1);
      assert trace[..k + 1][..k] == trace[..k];
      if trace[k].Seed? || trace[k].Timed? || trace[k].Close? { StatusAt(trace, k, trace[k].id); }
    }
  }

  /** From the opening of the store held on there is one seeding of it, or none as the status says. */
  lemma {:induction false} HeldSeeds(trace: seq<Event>, i: nat)
    requires StatusOf(trace).Holding? && i < |trace| && IsOpen(trace[i], StatusOf(trace).id)
    requires forall j :: i < j < |trace| ==> !trace[j].Open?
    ensures SeededOnce(trace, i, |trace|, StatusOf(trace).id) <==> StatusOf(trace).seeded
    ensures NeverSeeded(trace, i, |trace|, StatusOf(trace).id) <==> !StatusOf(trace).seeded
  {
    var n := |trace| - 1;
    var id := StatusOf(trace).id;
    if i < n {
      var p := trace[..n];
      assert p[i] == trace[i];
      assert StatusOf(p).Holding? && StatusOf(p).id == id;
      HeldSeeds(p, i);
      SeedsSnoc(trace, i, id);
    }
  }

  ghost predicate NeverSeeded(trace: seq<Event>, i: nat, k: nat, id: nat)
    requires k <= |trace|
  {
    forall j :: i < j < k ==> trace[j] != Seed(id)
  }

  ghost predicate SeededAt(trace: seq<Event>, i: nat, k: nat, id: nat, j: nat)
    requires k <= |trace|
  {
    i < j < k && trace[j] == Seed(id) && forall l :: i < l < k && trace[l] == Seed(id) ==> l == j
  }

  /** Between i and k there is exactly one event seeding the store. */
  ghost predicate SeededOnce(trace: seq<Event>, i: nat, k: nat, id: nat)
    requires k <= |trace|
  {
    exists j: nat :: SeededAt(trace, i, k, id, j)
  }

  lemma {:induction false} SeedsSnoc(trace: seq<Event>, i: nat, id: nat)
    requires i < |trace| - 1
    ensures var n := |trace| - 1;
            && (NeverSeeded(trace, i, n + 1, id) <==> NeverSeeded(trace[..n], i, n, id) && trace[n] != Seed(id))
            && (trace[n] != Seed(id) ==> (SeededOnce(trace, i, n + 1, id) <==> SeededOnce(trace[..n], i, n, id)))
            && (trace[n] == Seed(id) && NeverSeeded(trace[..n], i, n, id) ==> SeededOnce(trace, i, n + 1, id))
  {
    var n := |trace| - 1;
    var p := trace[..n];
    assert forall l :: 0 <= l < n ==> p[l] == trace[l];
    if trace[n] != Seed(id) {
      if SeededOnce(trace, i, n + 1, id) {
        var j: nat :| SeededAt(trace, i, n + 1, id, j);
        assert SeededAt(p, i, n, id, j);
      }
      if SeededOnce(p, i, n, id) {
        var j: nat :| SeededAt(p, i, n, id, j);
        assert SeededAt(trace, i, n + 1, id, j);
      }
    } else if NeverSeeded(p, i, n, id) {
      assert SeededAt(trace, i, n + 1, id, n);
    }
  }

  /** Every timed run uses a store opened for its own engine and for its own swept value or for all of them; and
      between the opening and the run that store was seeded once if the workload has a load, never otherwise. */
  lemma {:induction false} TimedOnRightStore(trace: seq<Event>, k: nat) returns (i: nat)
    requires !StatusOf(trace).Broken? && k < |trace| && trace[k].Timed?
    ensures i < k && IsOpen(trace[i], trace[k].id) && trace[i].e == trace[k].cell.e
    ensures trace[i].load == Shared || trace[i].load == Value(trace[k].cell.s)
    ensures trace[i].hasLoad ==> exists j :: i < j < k && trace[j] == Seed(trace[k].id)
    ensures forall j, l :: i < j < l < k && trace[j] == Seed(trace[k].id) ==> trace[l] != Seed(trace[k].id)
    ensures !trace[i].hasLoad ==> forall j :: i < j < k ==> trace[j] != Seed(trace[k].id)
  {
    PrefixUnbroken(trace, k + 1);
    PrefixUnbroken(trace, k);
    var p, id := trace[..k], trace[k].id;
    assert trace[..k + 1][..k] == p;
    i := HeldIsOpen(p);
    HeldSeeds(p, i);
    SeededMatchesLoad(p);
    if SeededOnce(p, i, k, id) {
      var j: nat :| SeededAt(p, i, k, id, j);
      assert trace[j] == p[j];
    }
    assert forall l :: 0 <= l < k ==> p[l] == trace[l];
  }

  /** A store without a load is never seeded. */
  lemma {:induction false} SeededMatchesLoad(trace: seq<Event>)
    ensures StatusOf(trace).Holding? && StatusOf(trace).seeded ==> StatusOf(trace).hasLoad
  {
    if trace != [] { SeededMatchesLoad(trace[..|trace| - 1]); }
  }

  lemma {:induction false} OpensGrow(trace: seq<Event>, i: nat, k: nat)
    requires i <= k <= |trace|
    ensures Opens(trace[..i]) <= Opens(trace[..k])
    decreases k
  {
    if i < k {
      OpensGrow(trace, i, k - 1);
      assert trace[..k][..k - 1] == trace[..k - 1];
    }
  }

  /** No id is opened twice. */
  lemma {:induction false} OpenedOnce(trace: seq<Event>, i: nat, k: nat)
    requires !StatusOf(trace).Broken? && i < k < |trace| && trace[i].Open? && trace[k].Open?
    ensures trace[i].id != trace[k].id
  {
    PrefixUnbroken(trace, i + 1);
    PrefixUnbroken(trace, k + 1);
    assert trace[..i + 1][..i] == trace[..i] && trace[..k + 1][..k] == trace[..k];
    OpensGrow(trace, i + 1, k);
  }

  /** A run that ends with nothing open closed every store it opened, and closed it exactly once. */
  lemma {:induction false} ClosedExactlyOnce(trace: seq<Event>, i: nat)
    requires StatusOf(trace).Idle? && i < |trace| && trace[i].Open?
    ensures exists j :: i < j < |trace| && trace[j] == Close(trace[i].id)
    ensures forall j, k :: 0 <= j < k < |trace| && trace[j] == Close(trace[i].id) ==> trace[k] != Close(trace[i].id)
  {
    var id := trace[i].id;
    StatusAt(trace, |trace|, id);
    assert trace[..|trace|] == trace;
    assert !OpenAt(trace, |trace|, id) && IsOpen(trace[i], id);
    assert !OpenSince(trace, i, |trace|, id);
    forall j, k | 0 <= j < k < |trace| && trace[j] == Close(id) && trace[k] == Close(id) ensures false {
      OneStoreAtATime(trace, j, id, id);
      OneStoreAtATime(trace, k, id, id);
      var a: nat :| OpenSince(trace, a, j, id);
      var b: nat :| OpenSince(trace, b, k, id);
      assert b > j;
      OpenedOnce(trace, a, b);
    }
  }

  // ----- the order of cells -----

  /** The grid and how it is walked: a is the outer index within an engine, b the inner one. */
  datatype Plan = Plan(mode: Mode, neng: nat, ntp: nat, nsteps: nat, repeat: nat)

  function Outer(p: Plan): nat { if p.mode.Fresh? then p.ntp else p.nsteps }
  function Inner(p: Plan): nat { if p.mode.Fresh? then p.nsteps else p.ntp }

  function CellAt(p: Plan, e: nat, a: nat, b: nat): Cell {
    if p.mode.Fresh? then Cell(e, a, b) else Cell(e, b, a)
  }

  /** The position of a cell in the order the grid is walked. */
  function Code(p: Plan, c: Cell): nat {
    if p.mode.Fresh? then (c.e * p.ntp + c.t) * p.nsteps + c.s else (c.e * p.nsteps + c.s) * p.ntp + c.t
  }

  predicate InGrid(p: Plan, c: Cell) {
    c.e < p.neng && c.t < p.ntp && c.s < p.nsteps
  }

  /** The rows so far: inside the grid, in walking order, all before position limit, and with no gap
      when nothing has failed. */
  ghost predicate RowsOk(p: Plan, rows: seq<Cell>, limit: nat, clean: bool) {
    && (forall i :: 0 <= i < |rows| ==> InGrid(p, rows[i]) && Code(p, rows[i]) < limit)
    && (forall i, j :: 0 <= i < j < |rows| ==> Code(p, rows[i]) < Code(p, rows[j]))
    && (clean ==> |rows| == limit)
  }

  lemma {:induction false} RowsSpread(p: Plan, rows: seq<Cell>, limit: nat, clean: bool, i: nat)
    requires RowsOk(p, rows, limit, clean) && i < |rows|
    ensures i <= Code(p, rows[i]) <= limit - (|rows| - i)
    ensures |rows| <= limit
  {
    RowsFrom(p, rows, limit, clean, i);
    RowsUpTo(p, rows, limit, clean, i);
  }

  lemma {:induction false} RowsFrom(p: Plan, rows: seq<Cell>, limit: nat, clean: bool, i: nat)
    requires RowsOk(p, rows, limit, clean) && i < |rows|
    ensures i <= Code(p, rows[i])
  {
    if i > 0 { RowsFrom(p, rows, limit, clean, i - 1); }
  }

  lemma {:induction false} RowsUpTo(p: Plan, rows: seq<Cell>, limit: nat, clean: bool, i: nat)
    requires RowsOk(p, rows, limit, clean) && i < |rows|
    ensures Code(p, rows[i]) <= limit - (|rows| - i)
    decreases |rows| - i
  {
    if i + 1 < |rows| { RowsUpTo(p, rows, limit, clean, i + 1); }
  }

  lemma {:induction false} CodeBound(x: nat, n: nat, y: nat, m: nat)
    requires x < n && y < m
    ensures x * m + y < n * m
  {
    assert n * m == x * m + (n - x) * m;
    assert (n - x) * m == m + (n - x - 1) * m;
  }

  lemma {:induction false} CodeInjective(x: nat, y: nat, x': nat, y': nat, m: nat)
    requires y < m && y' < m && x * m + y == x' * m + y'
    ensures x == x' && y == y'
  {
    if x < x' {
      CodeBound(x, x', y, m);
    } else if x' < x {
      CodeBound(x', x, y', m);
    }
  }

  lemma {:induction false} PairInjective(e: nat, x: nat, y: nat, e': nat, x': nat, y': nat, m: nat, n: nat)
    requires x < m && x' < m && y < n && y' < n && (e * m + x) * n + y == (e' * m + x') * n + y'
    ensures e == e' && x == x' && y == y'
  {
    var u, u' := e * m + x, e' * m + x';
    CodeInjective(u, y, u', y', n);
    CodeInjective(e, x, e', x', m);
  }

  lemma {:induction false} CellFromCode(p: Plan, c: Cell, d: Cell)
    requires InGrid(p, c) && InGrid(p, d) && Code(p, c) == Code(p, d)
    ensures c == d
  {
    if p.mode.Fresh? {
      PairInjective(c.e, c.t, c.s, d.e, d.t, d.s, p.ntp, p.nsteps);
    } else {
      PairInjective(c.e, c.s, c.t, d.e, d.s, d.t, p.nsteps, p.ntp);
    }
  }

  lemma {:induction false} CodeInGrid(p: Plan, c: Cell)
    requires InGrid(p, c)
    ensures Code(p, c) < p.neng * Outer(p) * Inner(p)
  {
    var a, b := if p.mode.Fresh? then c.t else c.s, if p.mode.Fresh? then c.s else c.t;
    CodeBound(c.e, p.neng, a, Outer(p));
    CodeBound(c.e * Outer(p) + a, p.neng * Outer(p), b, Inner(p));
  }

  /** Each cell has at most one row, the rows fit the array allocated for them, and when nothing
      failed every cell of the grid has one. */
  lemma {:induction false} RowsMeaning(p: Plan, rows: seq<Cell>, clean: bool)
    requires RowsOk(p, rows, p.neng * Outer(p) * Inner(p), clean)
    ensures |rows| <= p.neng * p.ntp * p.nsteps
    ensures forall i, j :: 0 <= i < j < |rows| ==> rows[i] != rows[j]
    ensures clean ==> forall c :: InGrid(p, c) ==> c in rows
  {
    var n := p.neng * Outer(p) * Inner(p);
    GridSize(p);
    if rows != [] { RowsSpread(p, rows, n, clean, 0); }
    if clean {
      forall c | InGrid(p, c) ensures c in rows {
        CodeInGrid(p, c);
        var i := Code(p, c);
        RowsSpread(p, rows, n, clean, i);
        CellFromCode(p, c, rows[i]);
      }
    }
  }

  /** Rows follow the engine, then the thread list and the swept value, the outer of them first. */
  predicate Earlier(p: Plan, c: Cell, d: Cell) {
    c.e < d.e || (c.e == d.e &&
      if p.mode.Fresh? then c.t < d.t || (c.t == d.t && c.s < d.s) else c.s < d.s || (c.s == d.s && c.t < d.t))
  }

  lemma {:induction false} PairOrder(e: nat, x: nat, y: nat, e': nat, x': nat, y': nat, m: nat, n: nat)
    requires x < m && x' < m && y < n && y' < n
    requires e < e' || (e == e' && (x < x' || (x == x' && y < y')))
    ensures (e * m + x) * n + y < (e' * m + x') * n + y'
  {
    var u, u' := e * m + x, e' * m + x';
    if e < e' { CodeBound(e, e', x, m); }
    if u < u' { CodeBound(u, u', y, n); }
  }

  lemma {:induction false} CodeOrder(p: Plan, c: Cell, d: Cell)
    requires InGrid(p, c) && InGrid(p, d) && Code(p, c) < Code(p, d)
    ensures Earlier(p, c, d)
  {
    if !Earlier(p, c, d) && c != d {
      if p.mode.Fresh? {
        PairOrder(d.e, d.t, d.s, c.e, c.t, c.s, p.ntp, p.nsteps);
      } else {
        PairOrder(d.e, d.s, d.t, c.e, c.s, c.t, p.nsteps, p.ntp);
      }
    }
  }

  lemma {:induction false} RowsInOrder(p: Plan, rows: seq<Cell>, clean: bool)
    requires RowsOk(p, rows, p.neng * Outer(p) * Inner(p), clean)
    ensures forall i, j :: 0 <= i < j < |rows| ==> Earlier(p, rows[i], rows[j])
  {
    forall i, j | 0 <= i < j < |rows| ensures Earlier(p, rows[i], rows[j]) {
      CodeOrder(p, rows[i], rows[j]);
    }
  }

  lemma {:induction false} GridSize(p: Plan)
    ensures p.neng * Outer(p) * Inner(p) == p.neng * p.ntp * p.nsteps
  {
    Commute(p.neng, p.nsteps, p.ntp);
  }

  lemma {:induction false} Commute(a: nat, b: nat, c: nat)
    ensures a * b * c == a * c * b
  {
    assert a * b * c == a * (b * c) && a * c * b == a * (c * b);
    assert b * c == c * b;
  }

  // ----- rows and runs -----

  /** Position limit of the walk: rows as RowsOk says, and a cell has a row exactly when all its runs
      ended without error. */
  ghost predicate Progress(p: Plan, rows: seq<Cell>, done: set<(Cell, nat)>, limit: nat, clean: bool) {
    && RowsOk(p, rows, limit, clean)
    && (forall c: Cell, r: nat :: (c, r) in done ==> Code(p, c) < limit && r < p.repeat)
    && (forall c :: c in rows <==> forall r :: 0 <= r < p.repeat ==> (c, r) in done)
  }

  /** The runs done are those done before and the first n of cell c. */
  ghost predicate Extended(before: set<(Cell, nat)>, done: set<(Cell, nat)>, c: Cell, n: nat) {
    forall d: Cell, r: nat :: (d, r) in done <==> (d, r) in before || (d == c && r < n)
  }

  lemma {:induction false} NothingYet(p: Plan, rows: seq<Cell>, done: set<(Cell, nat)>)
    requires p.repeat >= 1 && rows == [] && done == {}
    ensures Progress(p, rows, done, 0, true)
  {
    forall c: Cell ensures c in rows <==> forall r :: 0 <= r < p.repeat ==> (c, r) in done {
      var first: nat := 0;
      assert (c, first) !in done;
    }
  }

  lemma {:induction false} Jump(p: Plan, rows: seq<Cell>, done: set<(Cell, nat)>, limit: nat, clean: bool, limit': nat)
    requires Progress(p, rows, done, limit, clean) && limit <= limit'
    ensures Progress(p, rows, done, limit', clean && limit == limit')
  {
  }

  lemma {:induction false} CellMeasured(p: Plan, rows: seq<Cell>, before: set<(Cell, nat)>, done: set<(Cell, nat)>, clean: bool, c: Cell)
    requires p.repeat >= 1 && InGrid(p, c) && Progress(p, rows, before, Code(p, c), clean)
    requires Extended(before, done, c, p.repeat)
    ensures Progress(p, rows + [c], done, Code(p, c) + 1, clean)
  {
    var now := rows + [c];
    assert forall i :: 0 <= i < |rows| ==> now[i] == rows[i];
    assert RowsOk(p, now, Code(p, c) + 1, clean);
    forall d ensures d in now <==> forall r :: 0 <= r < p.repeat ==> (d, r) in done {
      if d == c {
        assert now[|rows|] == c;
      } else {
        assert d in now <==> d in rows;
      }
    }
  }

  lemma {:induction false} CellFailed(p: Plan, rows: seq<Cell>, before: set<(Cell, nat)>, done: set<(Cell, nat)>, clean: bool, c: Cell, n: nat)
    requires n < p.repeat && InGrid(p, c) && Progress(p, rows, before, Code(p, c), clean)
    requires Extended(before, done, c, n)
    ensures Progress(p, rows, done, Code(p, c) + 1, false)
  {
    forall d ensures d in rows <==> forall r :: 0 <= r < p.repeat ==> (d, r) in done {
      if d == c {
        assert (c, n) !in done;
        assert c !in rows;
      }
    }
  }

  // ----- positions and quotas -----

  /** Where the cells of engine e with outer index a begin. */
  function Pos(p: Plan, e: nat, a: nat): nat { (e * Outer(p) + a) * Inner(p) }

  /** Stores an engine opens when nothing fails. */
  function Quota(p: Plan): nat {
    match p.mode
    case PerEngine => 1
    case PerValue => p.nsteps
    case Fresh => p.ntp * (p.nsteps * p.repeat)
  }

  lemma {:induction false} MulNext(a: nat, m: nat)
    ensures (a + 1) * m == a * m + m
  {
  }

  lemma {:induction false} PosNext(p: Plan, e: nat, a: nat)
    ensures Pos(p, e, a + 1) == Pos(p, e, a) + Inner(p)
    ensures Pos(p, e + 1, 0) == Pos(p, e, Outer(p))
  {
    MulNext(e * Outer(p) + a, Inner(p));
    MulNext(e, Outer(p));
  }

  lemma {:induction false} PosLater(p: Plan, e: nat, a: nat)
    requires a <= Outer(p)
    ensures Pos(p, e, a) <= Pos(p, e, Outer(p))
    decreases Outer(p) - a
  {
    if a < Outer(p) {
      PosLater(p, e, a + 1);
      PosNext(p, e, a);
    }
  }

  lemma {:induction false} CodeOf(p: Plan, e: nat, a: nat, b: nat)
    ensures Code(p, CellAt(p, e, a, b)) == Pos(p, e, a) + b
  {
  }

  // ----- what a trace of a plan holds -----

  /** One engine's store serves every value exactly in the mode that seeds once per engine. */
  predicate OpenFits(p: Plan, ev: Event) {
    ev.Open? ==> ev.e < p.neng && if p.mode.PerEngine? then ev.load == Shared else ev.load.Value? && ev.load.s < p.nsteps
  }

  /** No timed run has used the store. */
  ghost predicate Unused(trace: seq<Event>, id: nat) {
    forall k :: 0 <= k < |trace| && trace[k].Timed? ==> trace[k].id != id
  }

  /** Stores are opened as the mode says, and in the mode that reseeds every measurement none is used twice. */
  ghost predicate TraceFits(p: Plan, trace: seq<Event>) {
    && (forall k :: 0 <= k < |trace| ==> OpenFits(p, trace[k]))
    && (forall k :: 0 <= k < |trace| && trace[k].Timed? ==> trace[k].id < Opens(trace))
    && (p.mode.Fresh? ==> forall j, k :: 0 <= j < k < |trace| && trace[j].Timed? && trace[k].Timed? ==> trace[j].id != trace[k].id)
  }

  lemma {:induction false} FitsSnoc(p: Plan, trace: seq<Event>, ev: Event)
    requires TraceFits(p, trace) && OpenFits(p, ev)
    requires ev.Timed? ==> ev.id < Opens(trace) && (p.mode.Fresh? ==> Unused(trace, ev.id))
    ensures TraceFits(p, trace + [ev])
    ensures forall id :: Unused(trace, id) && (ev.Timed? ==> ev.id != id) ==> Unused(trace + [ev], id)
  {
    Snoc(trace, ev);
  }

  lemma {:induction false} HeldBelow(trace: seq<Event>)
    requires StatusOf(trace).Holding?
    ensures StatusOf(trace).id < Opens(trace)
  {
    if !trace[|trace| - 1].Open? { HeldBelow(trace[..|trace| - 1]); }
  }

  lemma {:induction false} NextUnused(p: Plan, trace: seq<Event>)
    requires TraceFits(p, trace)
    ensures Unused(trace, Opens(trace))
  {
  }

  /** Opening a store, and seeding it when there is a load. */
  function OpenEvents(store: nat, e: nat, load: Load, hasLoad: bool): seq<Event> {
    if hasLoad then [Open(store, e, load, true), Seed(store)] else [Open(store, e, load, false)]
  }

  /** What a setup leaves in the trace. */
  function SetupEvents(outcome: Setup, store: nat, e: nat, load: Load): seq<Event> {
    match outcome
    case NoBackend => [SetupFailed]
    case NoWorkload => OpenEvents(store, e, load, false) + [Close(store), SetupFailed]
    case SeedFailed => OpenEvents(store, e, load, true) + [Close(store), SetupFailed]
    case Ready(hasLoad) => OpenEvents(store, e, load, hasLoad)
  }

  lemma {:induction false} Glue<T>(a: seq<T>, b: seq<T>, c: seq<T>)
    ensures a + b + c == a + (b + c)
  {
  }

  // ----- the driver -----

  class Driver {
    const setup: seq<Event> -> Setup
    const timed: seq<Event> -> bool
    var trace: seq<Event>
    var rows: seq<Cell>

    constructor (setup: seq<Event> -> Setup, timed: seq<Event> -> bool)
      ensures trace == [] && rows == [] && this.setup == setup && this.timed == timed
    {
      this.setup, this.timed := setup, timed;
      trace, rows := [], [];
    }

    method Log(ev: Event)
      modifies this`trace
      ensures trace == old(trace) + [ev]
      ensures StatusOf(trace) == Step(old(StatusOf(trace)), old(Opens(trace)), ev)
      ensures Opens(trace) == old(Opens(trace)) + if ev.Open? then 1 else 0
      ensures Clean(trace) == (old(Clean(trace)) && !ev.SetupFailed? && (ev.Timed? ==> ev.ok))
      ensures Done(trace) == old(Done(trace)) + if ev.Timed? && ev.ok then {(ev.cell, ev.run)} else {}
    {
      Snoc(trace, ev);
      trace := trace + [ev];
    }

    method LogFit(ghost p: Plan, ev: Event)
      requires TraceFits(p, trace) && OpenFits(p, ev) && !ev.Timed?
      modifies this`trace
      ensures trace == old(trace) + [ev] && TraceFits(p, trace)
      ensures forall id :: old(Unused(trace, id)) ==> Unused(trace, id)
      ensures StatusOf(trace) == Step(old(StatusOf(trace)), old(Opens(trace)), ev)
      ensures Opens(trace) == old(Opens(trace)) + if ev.Open? then 1 else 0
      ensures Clean(trace) == (old(Clean(trace)) && !ev.SetupFailed?) && Done(trace) == old(Done(trace))
    {
      FitsSnoc(p, trace, ev);
      Log(ev);
    }

    /** A store opened, and seeded when the workload has a load. */
    method OpenStore(e: nat, load: Load, hasLoad: bool, ghost p: Plan) returns (store: nat)
      requires StatusOf(trace).Idle? && TraceFits(p, trace) && OpenFits(p, Open(0, e, load, hasLoad))
      modifies this`trace
      ensures TraceFits(p, trace) && Unused(trace, store)
      ensures store == old(Opens(trace)) && Opens(trace) == store + 1
      ensures trace == old(trace) + OpenEvents(store, e, load, hasLoad)
      ensures StatusOf(trace) == Holding(store, e, load, hasLoad, hasLoad)
      ensures Clean(trace) == old(Clean(trace)) && Done(trace) == old(Done(trace))
    {
      NextUnused(p, trace);
      store := Opens(trace);
      LogFit(p, Open(store, e, load, hasLoad));
      if hasLoad {
        LogFit(p, Seed(store));
      }
    }

    /** The store closed again after a failure. */
    method Abandon(store: nat, ghost p: Plan)
      requires Serves(StatusOf(trace), store) && TraceFits(p, trace)
      modifies this`trace
      ensures TraceFits(p, trace) && trace == old(trace) + [Close(store), SetupFailed]
      ensures StatusOf(trace).Idle? && Opens(trace) == old(Opens(trace))
      ensures !Clean(trace) && Done(trace) == old(Done(trace))
    {
      LogFit(p, Close(store));
      LogFit(p, SetupFailed);
    }

    /** Opens a store and seeds it when the workload has a load; on any failure the store it opened is closed
        again. */
    method MeasureSetup(e: nat, load: Load, ghost p: Plan) returns (store: nat, ok: bool)
      requires StatusOf(trace).Idle? && TraceFits(p, trace) && OpenFits(p, Open(0, e, load, true))
      modifies this`trace
      ensures TraceFits(p, trace) && (ok ==> Unused(trace, store))
      ensures store == old(Opens(trace)) && Done(trace) == old(Done(trace))
      ensures trace == old(trace) + SetupEvents(setup(old(trace)), store, e, load)
      ensures old(Opens(trace)) <= Opens(trace) <= old(Opens(trace)) + 1
      ensures ok <==> setup(old(trace)).Ready?
      ensures ok ==> StatusOf(trace) == Holding(store, e, load, setup(old(trace)).hasLoad, setup(old(trace)).hasLoad)
      ensures ok ==> Opens(trace) == old(Opens(trace)) + 1
      ensures !ok ==> StatusOf(trace).Idle?
      ensures Clean(trace) == (old(Clean(trace)) && ok)
    {
      var outcome := setup(trace);
      ok, store := outcome.Ready?, Opens(trace);
      if outcome.NoBackend? {
        LogFit(p, SetupFailed);
      } else {
        ghost var was := trace;
        var hasLoad := outcome.SeedFailed? || (outcome.Ready? && outcome.hasLoad);
        store := OpenStore(e, load, hasLoad, p);
        if !ok {
          Abandon(store, p);
          Glue(was, OpenEvents(store, e, load, hasLoad), [Close(store), SetupFailed]);
        }
      }
    }

    method MeasureTimed(store: nat, c: Cell, run: nat, ghost p: Plan) returns (ok: bool)
      requires Serves(StatusOf(trace), store) && Suits(StatusOf(trace), c)
      requires TraceFits(p, trace) && (p.mode.Fresh? ==> Unused(trace, store))
      modifies this`trace
      ensures TraceFits(p, trace)
      ensures trace == old(trace) + [Timed(store, c, run, ok)]
      ensures StatusOf(trace) == old(StatusOf(trace)) && Opens(trace) == old(Opens(trace))
      ensures Clean(trace) == (old(Clean(trace)) && ok)
      ensures Done(trace) == old(Done(trace)) + if ok then {(c, run)} else {}
    {
      HeldBelow(trace);
      ok := timed(trace);
      FitsSnoc(p, trace, Timed(store, c, run, ok));
      Log(Timed(store, c, run, ok));
    }

    /** A measurement on a store of its own. */
    method RunMeasurement(c: Cell, run: nat, ghost p: Plan) returns (ok: bool)
      requires StatusOf(trace).Idle? && TraceFits(p, trace) && InGrid(p, c) && !p.mode.PerEngine?
      modifies this`trace
      ensures TraceFits(p, trace)
      ensures StatusOf(trace).Idle? && old(trace) <= trace
      ensures old(Opens(trace)) <= Opens(trace) <= old(Opens(trace)) + 1
      ensures ok ==> Opens(trace) == old(Opens(trace)) + 1
      ensures Clean(trace) == (old(Clean(trace)) && ok)
      ensures Done(trace) == old(Done(trace)) + if ok then {(c, run)} else {}
    {
      var store;
      store, ok := MeasureSetup(c.e, Value(c.s), p);
      if ok {
        ok := MeasureTimed(store, c, run, p);
        LogFit(p, Close(store));
      }
    }

    method AddRow(c: Cell, ghost p: Plan)
      requires TraceFits(p, trace)
      modifies this
      ensures TraceFits(p, trace)
      ensures rows == old(rows) + [c] && trace == old(trace) + [Row(c)]
      ensures StatusOf(trace) == old(StatusOf(trace)) && Opens(trace) == old(Opens(trace))
      ensures Clean(trace) == old(Clean(trace)) && Done(trace) == old(Done(trace))
    {
      rows := rows + [c];
      LogFit(p, Row(c));
    }

    /** The repeats of one cell on a store already open, and its row when all of them are good. */
    method RunOnStore(p: Plan, c: Cell, store: nat)
      requires p.repeat >= 1 && InGrid(p, c) && !p.mode.Fresh?
      requires Serves(StatusOf(trace), store) && Suits(StatusOf(trace), c)
      requires TraceFits(p, trace) && Progress(p, rows, Done(trace), Code(p, c), Clean(trace))
      modifies this
      ensures StatusOf(trace) == old(StatusOf(trace)) && Opens(trace) == old(Opens(trace))
      ensures TraceFits(p, trace) && Progress(p, rows, Done(trace), Code(p, c) + 1, Clean(trace))
      ensures Clean(trace) ==> old(Clean(trace))
    {
      ghost var was := trace;
      var ok, r := true, 0;
      while ok && r < p.repeat
        invariant 0 <= r <= p.repeat && rows == old(rows)
        invariant StatusOf(trace) == StatusOf(was) && Opens(trace) == Opens(was)
        invariant Clean(trace) == (Clean(was) && ok)
        invariant !ok ==> r < p.repeat
        invariant TraceFits(p, trace) && Extended(Done(was), Done(trace), c, r)
        decreases p.repeat - r, ok
      {
        ok := MeasureTimed(store, c, r, p);
        if ok {
          r := r + 1;
        }
      }
      if ok {
        CellMeasured(p, rows, Done(was), Done(trace), Clean(was), c);
        AddRow(c, p);
      } else {
        CellFailed(p, rows, Done(was), Done(trace), Clean(was), c, r);
      }
    }

    /** The repeats of one cell, each on a store of its own, and its row when all of them are good. */
    method RunFresh(p: Plan, c: Cell)
      requires p.repeat >= 1 && InGrid(p, c) && p.mode.Fresh?
      requires TraceFits(p, trace) && StatusOf(trace).Idle? && Progress(p, rows, Done(trace), Code(p, c), Clean(trace))
      modifies this
      ensures TraceFits(p, trace) && StatusOf(trace).Idle? && Progress(p, rows, Done(trace), Code(p, c) + 1, Clean(trace))
      ensures old(Opens(trace)) <= Opens(trace) <= old(Opens(trace)) + p.repeat
      ensures Clean(trace) ==> old(Clean(trace)) && Opens(trace) == old(Opens(trace)) + p.repeat
    {
      ghost var was := trace;
      var ok, r := true, 0;
      while ok && r < p.repeat
        invariant 0 <= r <= p.repeat && rows == old(rows)
        invariant StatusOf(trace).Idle?
        invariant Opens(was) <= Opens(trace) <= Opens(was) + r + if ok then 0 else 1
        invariant ok ==> Opens(trace) == Opens(was) + r
        invariant Clean(trace) == (Clean(was) && ok)
        invariant !ok ==> r < p.repeat
        invariant TraceFits(p, trace) && Extended(Done(was), Done(trace), c, r)
        decreases p.repeat - r, ok
      {
        ok := RunMeasurement(c, r, p);
        if ok {
          r := r + 1;
        }
      }
      if ok {
        CellMeasured(p, rows, Done(was), Done(trace), Clean(was), c);
        AddRow(c, p);
      } else {
        CellFailed(p, rows, Done(was), Done(trace), Clean(was), c, r);
      }
    }

    /** The thread sweep of one engine and swept value on a store already open. */
    method RunThreads(p: Plan, e: nat, s: nat, store: nat)
      requires p.repeat >= 1 && !p.mode.Fresh? && e < p.neng && s < p.nsteps
      requires Serves(StatusOf(trace), store) && Suits(StatusOf(trace), Cell(e, 0, s))
      requires TraceFits(p, trace) && Progress(p, rows, Done(trace), Pos(p, e, s), Clean(trace))
      modifies this
      ensures StatusOf(trace) == old(StatusOf(trace)) && Opens(trace) == old(Opens(trace))
      ensures TraceFits(p, trace) && Progress(p, rows, Done(trace), Pos(p, e, s + 1), Clean(trace))
      ensures Clean(trace) ==> old(Clean(trace))
    {
      var t := 0;
      while t < p.ntp
        invariant 0 <= t <= p.ntp
        invariant StatusOf(trace) == old(StatusOf(trace)) && Opens(trace) == old(Opens(trace))
        invariant TraceFits(p, trace) && Progress(p, rows, Done(trace), Pos(p, e, s) + t, Clean(trace))
        invariant Clean(trace) ==> old(Clean(trace))
      {
        CodeOf(p, e, s, t);
        RunOnStore(p, Cell(e, t, s), store);
        t := t + 1;
      }
      PosNext(p, e, s);
    }

    /** One store for the whole engine. */
    method RunPerEngine(p: Plan, e: nat)
      requires p.repeat >= 1 && p.mode.PerEngine? && e < p.neng
      requires TraceFits(p, trace) && StatusOf(trace).Idle? && Progress(p, rows, Done(trace), Pos(p, e, 0), Clean(trace))
      modifies this
      ensures TraceFits(p, trace) && StatusOf(trace).Idle? && Progress(p, rows, Done(trace), Pos(p, e + 1, 0), Clean(trace))
      ensures old(Opens(trace)) <= Opens(trace) <= old(Opens(trace)) + Quota(p)
      ensures Clean(trace) ==> old(Clean(trace)) && Opens(trace) == old(Opens(trace)) + Quota(p)
    {
      PosNext(p, e, 0);
      PosLater(p, e, 0);
      ghost var was := trace;
      var store, ok := MeasureSetup(e, Shared, p);
      if !ok {
        Jump(p, rows, Done(was), Pos(p, e, 0), Clean(was), Pos(p, e + 1, 0));
        return;
      }
      ghost var mid := trace;
      var s := 0;
      while s < p.nsteps
        invariant 0 <= s <= p.nsteps
        invariant StatusOf(trace) == StatusOf(mid) && Opens(trace) == Opens(mid)
        invariant TraceFits(p, trace) && Progress(p, rows, Done(trace), Pos(p, e, s), Clean(trace))
        invariant Clean(trace) ==> Clean(mid)
      {
        RunThreads(p, e, s, store);
        s := s + 1;
      }
      LogFit(p, Close(store));
    }

    /** The thread sweep of one engine and swept value on a store of its own. */
    method RunValue(p: Plan, e: nat, s: nat)
      requires p.repeat >= 1 && p.mode.PerValue? && e < p.neng && s < p.nsteps
      requires StatusOf(trace).Idle? && TraceFits(p, trace) && Progress(p, rows, Done(trace), Pos(p, e, s), Clean(trace))
      modifies this
      ensures StatusOf(trace).Idle? && TraceFits(p, trace) && Progress(p, rows, Done(trace), Pos(p, e, s + 1), Clean(trace))
      ensures old(Opens(trace)) <= Opens(trace) <= old(Opens(trace)) + 1
      ensures Clean(trace) ==> old(Clean(trace)) && Opens(trace) == old(Opens(trace)) + 1
    {
      PosNext(p, e, s);
      ghost var was := trace;
      var store, ok := MeasureSetup(e, Value(s), p);
      if ok {
        RunThreads(p, e, s, store);
        LogFit(p, Close(store));
      } else {
        Jump(p, rows, Done(was), Pos(p, e, s), Clean(was), Pos(p, e, s + 1));
      }
    }

    /** One store for each swept value. */
    method RunPerValue(p: Plan, e: nat)
      requires p.repeat >= 1 && p.mode.PerValue? && e < p.neng
      requires TraceFits(p, trace) && StatusOf(trace).Idle? && Progress(p, rows, Done(trace), Pos(p, e, 0), Clean(trace))
      modifies this
      ensures TraceFits(p, trace) && StatusOf(trace).Idle? && Progress(p, rows, Done(trace), Pos(p, e + 1, 0), Clean(trace))
      ensures old(Opens(trace)) <= Opens(trace) <= old(Opens(trace)) + Quota(p)
      ensures Clean(trace) ==> old(Clean(trace)) && Opens(trace) == old(Opens(trace)) + Quota(p)
    {
      var s := 0;
      while s < p.nsteps
        invariant 0 <= s <= p.nsteps && StatusOf(trace).Idle?
        invariant TraceFits(p, trace) && Progress(p, rows, Done(trace), Pos(p, e, s), Clean(trace))
        invariant old(Opens(trace)) <= Opens(trace) <= old(Opens(trace)) + s
        invariant Clean(trace) ==> old(Clean(trace)) && Opens(trace) == old(Opens(trace)) + s
      {
        RunValue(p, e, s);
        s := s + 1;
      }
      PosNext(p, e, 0);
    }

    /** The swept values of one engine and thread count, each run on a store of its own. */
    method RunFreshRow(p: Plan, e: nat, t: nat)
      requires p.repeat >= 1 && p.mode.Fresh? && e < p.neng && t < p.ntp
      requires TraceFits(p, trace) && StatusOf(trace).Idle? && Progress(p, rows, Done(trace), Pos(p, e, t), Clean(trace))
      modifies this
      ensures TraceFits(p, trace) && StatusOf(trace).Idle? && Progress(p, rows, Done(trace), Pos(p, e, t + 1), Clean(trace))
      ensures old(Opens(trace)) <= Opens(trace) <= old(Opens(trace)) + p.nsteps * p.repeat
      ensures Clean(trace) ==> old(Clean(trace)) && Opens(trace) == old(Opens(trace)) + p.nsteps * p.repeat
    {
      var s := 0;
      while s < p.nsteps
        invariant 0 <= s <= p.nsteps && StatusOf(trace).Idle?
        invariant TraceFits(p, trace) && Progress(p, rows, Done(trace), Pos(p, e, t) + s, Clean(trace))
        invariant old(Opens(trace)) <= Opens(trace) <= old(Opens(trace)) + s * p.repeat
        invariant Clean(trace) ==> old(Clean(trace)) && Opens(trace) == old(Opens(trace)) + s * p.repeat
      {
        CodeOf(p, e, t, s);
        MulNext(s, p.repeat);
        RunFresh(p, Cell(e, t, s));
        s := s + 1;
      }
      PosNext(p, e, t);
    }

    method RunFreshEngine(p: Plan, e: nat)
      requires p.repeat >= 1 && p.mode.Fresh? && e < p.neng
      requires TraceFits(p, trace) && StatusOf(trace).Idle? && Progress(p, rows, Done(trace), Pos(p, e, 0), Clean(trace))
      modifies this
      ensures TraceFits(p, trace) && StatusOf(trace).Idle? && Progress(p, rows, Done(trace), Pos(p, e + 1, 0), Clean(trace))
      ensures old(Opens(trace)) <= Opens(trace) <= old(Opens(trace)) + Quota(p)
      ensures Clean(trace) ==> old(Clean(trace)) && Opens(trace) == old(Opens(trace)) + Quota(p)
    {
      var t, per := 0, p.nsteps * p.repeat;
      while t < p.ntp
        invariant 0 <= t <= p.ntp && StatusOf(trace).Idle?
        invariant TraceFits(p, trace) && Progress(p, rows, Done(trace), Pos(p, e, t), Clean(trace))
        invariant old(Opens(trace)) <= Opens(trace) <= old(Opens(trace)) + t * per
        invariant Clean(trace) ==> old(Clean(trace)) && Opens(trace) == old(Opens(trace)) + t * per
      {
        MulNext(t, per);
        RunFreshRow(p, e, t);
        t := t + 1;
      }
      PosNext(p, e, 0);
    }

    /** The whole grid of one workload file. */
    method RunFile(seedOnce: bool, sweepValues: nat, seedPerValue: bool, neng: nat, ntp: nat, repeat: nat) returns (p: Plan)
      requires repeat >= 1
      requires trace == [] && rows == []
      modifies this
      ensures p == Plan(if !seedOnce then Fresh else if sweepValues > 0 && !seedPerValue then PerEngine else PerValue,
                        neng, ntp, if sweepValues > 0 then sweepValues else 1, repeat)
      ensures StatusOf(trace).Idle?
      ensures forall c :: c in rows <==> forall r :: 0 <= r < repeat ==> (c, r) in Done(trace)
      ensures forall i, j :: 0 <= i < j < |rows| ==> rows[i] != rows[j]
      ensures forall i, j :: 0 <= i < j < |rows| ==> Earlier(p, rows[i], rows[j])
      ensures forall k :: 0 <= k < |trace| ==> OpenFits(p, trace[k])
      ensures !seedOnce ==> forall j, k :: 0 <= j < k < |trace| && trace[j].Timed? && trace[k].Timed? ==> trace[j].id != trace[k].id
      ensures forall i :: 0 <= i < |rows| ==> InGrid(p, rows[i])
      ensures |rows| <= neng * ntp * p.nsteps
      ensures Clean(trace) ==> (forall c :: InGrid(p, c) ==> c in rows) && |rows| == neng * ntp * p.nsteps
      ensures var perEngine := match p.mode case PerEngine => 1 case PerValue => p.nsteps case Fresh => ntp * (p.nsteps * repeat);
              Opens(trace) <= neng * perEngine && (Clean(trace) ==> Opens(trace) == neng * perEngine)
    {
      var nsteps := if sweepValues > 0 then sweepValues else 1;
      p := Plan(if !seedOnce then Fresh else if sweepValues > 0 && !seedPerValue then PerEngine else PerValue,
                neng, ntp, nsteps, repeat);
      var e := 0;
      NothingYet(p, rows, Done(trace));
      while e < neng
        invariant 0 <= e <= neng && StatusOf(trace).Idle?
        invariant TraceFits(p, trace) && Progress(p, rows, Done(trace), Pos(p, e, 0), Clean(trace))
        invariant Opens(trace) <= e * Quota(p)
        invariant Clean(trace) ==> Opens(trace) == e * Quota(p)
      {
        MulNext(e, Quota(p));
        match p.mode {
          case PerEngine => RunPerEngine(p, e);
          case PerValue => RunPerValue(p, e);
          case Fresh => RunFreshEngine(p, e);
        }
        e := e + 1;
      }
      RowsMeaning(p, rows, Clean(trace));
      RowsInOrder(p, rows, Clean(trace));
      GridSize(p);
    }
  }
}
