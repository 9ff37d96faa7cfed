/** What a schedule of the locked skiplist asks of it: the operations its threads begin are the ones carried
    out, and a thread left to itself finishes the one it is inside. */
module LockedSchedules {
  import opened Wrappers
  import opened KeyOrder
  import opened SortedRows
  import opened Levels
  import opened MapSpec
  import opened LockedSkipList
  import opened LockedInsert
  import opened LockedWriter
  import opened LockedRuns

  // ----- the operations begun are the operations done -----

  /** Thread t may begin the operation now: it is between operations, no writer is inside, and no reader
      either when the operation writes. */
  predicate MayBegin(s: State, t: Tid, op: Op) {
    && t in s.threads && s.threads[t].Idle?
    && s.writer.None? && (op.Get? || op.Range? || s.readers == {})
  }

  /** The operations thread t began on a schedule, in order. */
  function Begun(s: State, schedule: seq<(Tid, Event)>, t: Tid): seq<Op> {
    if schedule == [] then []
    else
      var n := |schedule| - 1;
      var last := schedule[n];
      Begun(s, schedule[..n], t) +
      if last.0 == t && last.1.Begin? && MayBegin(Run(s, schedule[..n]), t, last.1.op) then [last.1.op] else []
  }

  /** The operations of a log that are thread t's. */
  function OpsBy(log: seq<Entry>, t: Tid): seq<Op> {
    if log == [] then []
    else
      var n := |log| - 1;
      OpsBy(log[..n], t) + if log[n].tid == t then [log[n].op] else []
  }

  /** The operation a thread is inside. */
  function Inside(s: State, t: Tid): seq<Op> {
    if t !in s.threads || s.threads[t].Idle? || s.threads[t].Fault? then [] else [s.threads[t].op]
  }

  lemma {:induction false} ReaderStepKeepsOp(m: Mem, l: Local)
    requires InRead(l) && !ReaderStep(m, l).Fault?
    ensures InRead(ReaderStep(m, l)) && ReaderStep(m, l).op == l.op
  {
  }

  lemma {:induction false} WriterStepKeepsOp(m: Mem, l: Local, height: nat, room: Addr)
    requires InWrite(l) && !WriterStep(m, l, height, room).1.Fault?
    ensures InWrite(WriterStep(m, l, height, room).1) && WriterStep(m, l, height, room).1.op == l.op
  {
  }

  lemma {:induction false} OpsBySnoc(log: seq<Entry>, e: Entry, t: Tid)
    ensures OpsBy(log + [e], t) == OpsBy(log, t) + if e.tid == t then [e.op] else []
  {
    assert (log + [e])[..|log|] == log;
  }

  lemma {:induction false} NoFault(s: State)
    requires Inv(s)
    ensures forall t :: t in s.threads ==> !s.threads[t].Fault?
    ensures forall t :: t in s.threads && InRead(s.threads[t]) ==> t in s.readers
    ensures forall t :: t in s.threads && InWrite(s.threads[t]) ==> s.writer == Some(t)
  {
    var v :| InvAt(s, v);
  }

  /** The completed operations of a thread and the one it is inside. */
  function Known(s: State, u: Tid): seq<Op> { OpsBy(s.log, u) + Inside(s, u) }

  lemma {:induction false} ReleaseOps(s: State, t: Tid, l: Local, u: Tid, height: nat, room: Addr)
    requires t in s.threads && l == s.threads[t] && (l.Read? || l.Written?)
    ensures Known(Move(s, t, l, height, room), u) == Known(s, u)
  {
    var d := Move(s, t, l, height, room);
    OpsBySnoc(s.log, Entry(t, l.op, l.ans), u);
    if u == t {
      assert Inside(s, u) == [l.op] && Inside(d, u) == [];
      OneOver(OpsBy(s.log, u), [l.op]);
    } else {
      assert Inside(d, u) == Inside(s, u);
      OneOver(OpsBy(s.log, u), []);
    }
  }

  lemma {:induction false} OneOver(a: seq<Op>, b: seq<Op>)
    ensures a + b + [] == a + b
  {
  }

  lemma {:induction false} KnownStays(s: State, t: Tid, l: Local, m: Mem, u: Tid)
    requires t in s.threads && (InRead(s.threads[t]) || InWrite(s.threads[t])) && (InRead(l) || InWrite(l))
    requires l.op == s.threads[t].op
    ensures Known(s.(mem := m, threads := s.threads[t := l]), u) == Known(s, u)
  {
  }

  lemma {:induction false} ReadOps(s: State, t: Tid, l: Local, height: nat, room: Addr, u: Tid)
    requires t in s.threads && l == s.threads[t] && InRead(l) && !l.Read? && !ReaderStep(s.mem, l).Fault?
    ensures Known(Move(s, t, l, height, room), u) == Known(s, u)
  {
    ReaderStepKeepsOp(s.mem, l);
    KnownStays(s, t, ReaderStep(s.mem, l), s.mem, u);
  }

  lemma {:induction false} WriteOps(s: State, t: Tid, l: Local, height: nat, room: Addr, u: Tid)
    requires t in s.threads && l == s.threads[t] && InWrite(l) && !l.Written?
    requires 1 <= height <= LockedSkipList.MAX_LEVEL && room !in s.mem.cells && !WriterStep(s.mem, l, height, room).1.Fault?
    ensures Known(Move(s, t, l, height, room), u) == Known(s, u)
  {
    WriterStepKeepsOp(s.mem, l, height, room);
    KnownStays(s, t, WriterStep(s.mem, l, height, room).1, WriterStep(s.mem, l, height, room).0, u);
  }

  lemma {:induction false} MoveOps(s: State, t: Tid, l: Local, height: nat, room: Addr, u: Tid)
    requires t in s.threads && l == s.threads[t] && Inv(Move(s, t, l, height, room))
    ensures Known(Move(s, t, l, height, room), u) == Known(s, u)
  {
    NoFault(Move(s, t, l, height, room));
    assert t in Move(s, t, l, height, room).threads;
    if l.Read? || l.Written? {
      ReleaseOps(s, t, l, u, height, room);
    } else if InRead(l) {
      ReadOps(s, t, l, height, room, u);
    } else if InWrite(l) && 1 <= height <= LockedSkipList.MAX_LEVEL && room !in s.mem.cells {
      WriteOps(s, t, l, height, room, u);
    }
  }

  lemma {:induction false} BeginOps(s: State, t: Tid, op: Op, u: Tid)
    ensures Known(Exec(s, t, Begin(op)), u) == Known(s, u) + if t == u && MayBegin(s, t, op) then [op] else []
  {
  }

  lemma {:induction false} ExecOps(s: State, t: Tid, e: Event, u: Tid)
    requires Inv(s)
    ensures Known(Exec(s, t, e), u) == Known(s, u) + if t == u && e.Begin? && MayBegin(s, t, e.op) then [e.op] else []
  {
    if e.Begin? {
      BeginOps(s, t, e.op, u);
    } else if t in s.threads {
      ExecKeepsInv(s, t, e);
      MoveOps(s, t, s.threads[t], e.height, e.room, u);
    }
  }

  /** On every schedule and for every thread: the operations it completed, in order, and then the one it is
      inside, are exactly those it began. */
  lemma {:induction false} OpsAreBegun(head: Addr, tids: set<Tid>, schedule: seq<(Tid, Event)>, t: Tid)
    ensures var s := Run(Initial(head, tids), schedule);
            OpsBy(s.log, t) + Inside(s, t) == Begun(Initial(head, tids), schedule, t)
    decreases |schedule|
  {
    if schedule != [] {
      var n := |schedule| - 1;
      OpsAreBegun(head, tids, schedule[..n], t);
      RunKeepsInv(head, tids, schedule[..n]);
      ExecOps(Run(Initial(head, tids), schedule[..n]), schedule[n].0, schedule[n].1, t);
    }
  }

  // ----- a thread left to itself finishes -----

  function Place(order: seq<Addr>, x: Addr): (p: nat)
    ensures p <= |order|
  {
    if order == [] || order[0] == x then 0 else 1 + Place(order[1..], x)
  }

  lemma {:induction false} PlaceOf(order: seq<Addr>, p: nat)
    requires Distinct(order) && p < |order|
    ensures Place(order, order[p]) == p
  {
    if p > 0 {
      assert order[0] != order[p] && order[1..][p - 1] == order[p];
      PlaceOf(order[1..], p - 1);
    }
  }

  /** How far an operation is from its end: the part it is in, the levels, rows or links left in that part, and
      the nodes ahead on the level it searches. */
  function Part(l: Local): nat {
    match l
    case Reading(_, _, _) => 3
    case Searching(_, _, _, _) => 3
    case Scanning(_, _, _) => 2
    case Linking(_, _, _, _) => 2
    case Unlinking(_, _, _, _) => 2
    case Shrinking(_, _, _) => 1
    case _ => 0
  }

  function Left(m: Mem, v: View, l: Local): nat {
    match l
    case Reading(_, _, i) => i
    case Searching(_, _, i, _) => i
    case Scanning(_, _, out) => if |out| <= |v.order| then |v.order| - |out| else 0
    case Linking(_, n, j, _) => if n in m.cells && j <= |m.cells[n].next| then |m.cells[n].next| - j else 0
    case Unlinking(_, _, j, _) => if j <= m.level then m.level - j else 0
    case Shrinking(_, _, lvl) => lvl
    case _ => 0
  }

  function Ahead(v: View, l: Local): nat {
    match l
    case Reading(_, x, _) => |v.order| - Place(v.order, x)
    case Searching(_, x, _, _) => |v.order| - Place(v.order, x)
    case _ => 0
  }

  /** From l' on less is left than from l on. */
  ghost predicate Nearer(m': Mem, l': Local, m: Mem, l: Local, v: View) {
    || Part(l') < Part(l)
    || (Part(l') == Part(l) && Left(m', v, l') < Left(m, v, l))
    || (Part(l') == Part(l) && Left(m', v, l') == Left(m, v, l) && Ahead(v, l') < Ahead(v, l))
  }

  lemma {:induction false} ProbeGetsOn(m: Mem, v: View, k: Bytes, x: Addr, i: nat)
    requires Represents(m, v) && i > 0 && StandsSomewhere(v, m.level, Rank(v.rows, k) + 1, x, i)
    ensures !Probe(m, k, x, i - 1).Crash?
    ensures Probe(m, k, x, i - 1).Onward? ==> Place(v.order, x) < Place(v.order, Probe(m, k, x, i - 1).to) < |v.order|
  {
    var pos :| Standing(v, m.level, Rank(v.rows, k) + 1, x, i, pos);
    ProbeMoves(m, v, k, x, i, pos);
    PlaceOf(v.order, pos);
    if Probe(m, k, x, i - 1).Onward? { PlaceOf(v.order, Succ(v.hts, pos, i - 1)); }
  }

  lemma {:induction false} ReaderGetsOn(m: Mem, v: View, l: Local)
    requires Represents(m, v) && ReaderOk(v, m.level, l) && !l.Read?
    ensures Nearer(m, ReaderStep(m, l), m, l, v)
  {
    if l.Reading? && l.i > 0 { ProbeGetsOn(m, v, SearchKey(l.op), l.x, l.i); }
  }

  lemma {:induction false} WriterGetsOn(m: Mem, v: View, l: Local, height: nat, room: Addr)
    requires WriterOk(m, v, l) && !l.Written?
    ensures var r := WriterStep(m, l, height, room); Nearer(r.0, r.1, m, l, v)
  {
    if l.Searching? {
      SearchGetsOn(m, v, l, height, room);
    } else if l.Linking? {
      LinkGetsOn(m, v, l);
    }
  }

  lemma {:induction false} SearchGetsOn(m: Mem, v: View, l: Local, height: nat, room: Addr)
    requires l.Searching? && WriterOk(m, v, l)
    ensures var r := WriterStep(m, l, height, room); Nearer(r.0, r.1, m, l, v)
  {
    if l.i > 0 { ProbeGetsOn(m, v, l.op.key, l.x, l.i); }
  }

  lemma {:induction false} LinkGetsOn(m: Mem, v: View, l: Local)
    requires l.Linking? && WriterOk(m, v, l)
    ensures var r := LinkStep(m, l.op, l.n, l.j, l.update); Nearer(r.0, r.1, m, l, v)
  {
    var pred :| HalfIn(m, v, Row(l.op.key, l.op.val), l.n, l.j, l.update, pred, Rank(v.rows, l.op.key) + 1);
  }

  lemma {:induction false} FreshRoom(used: set<Addr>) returns (room: Addr)
    ensures room !in used
  {
    room := Above(used);
  }

  lemma {:induction false} Above(used: set<Addr>) returns (bound: Addr)
    ensures forall a :: a in used ==> a < bound
    decreases |used|
  {
    if used == {} {
      bound := 0;
    } else {
      var a :| a in used;
      var rest := Above(used - {a});
      bound := if a < rest then rest else a + 1;
      assert forall b :: b in used ==> b == a || b in used - {a};
    }
  }

  /** One step of a thread inside an operation, the others standing still. */
  lemma {:induction false} StepsOn(s: State, v: View, t: Tid, height: nat, room: Addr)
    requires InvAt(s, v) && t in s.threads && !s.threads[t].Idle? && !s.threads[t].Read? && !s.threads[t].Written?
    requires 1 <= height <= LockedSkipList.MAX_LEVEL && room !in s.mem.cells
    ensures var d := Exec(s, t, Advance(height, room));
            && InvAt(d, v) && d.log == s.log && t in d.threads && !d.threads[t].Idle?
            && Nearer(d.mem, d.threads[t], s.mem, s.threads[t], v)
            && Inside(d, t) == Inside(s, t)
  {
    var l := s.threads[t];
    if InRead(l) {
      ReaderMoveKeepsInv(s, v, t);
      ReaderGetsOn(s.mem, v, l);
      ReaderKeepsOk(s.mem, v, l);
      ReaderStepKeepsOp(s.mem, l);
    } else {
      WriterMoveKeepsInv(s, v, t, height, room);
      WriterGetsOn(s.mem, v, l, height, room);
      WriterKeepsOk(s.mem, v, l, height, room);
      WriterStepKeepsOp(s.mem, l, height, room);
    }
  }

  /** Only thread t takes steps, each with the height and some room. */
  ghost predicate Alone(more: seq<(Tid, Event)>, t: Tid, height: nat) {
    forall i :: 0 <= i < |more| ==> more[i].0 == t && more[i].1.Advance? && more[i].1.height == height
  }

  /** The thread has completed one more operation, its own, and nobody else has. */
  ghost predicate Completes(s: State, d: State, t: Tid, op: Op) {
    && t in d.threads && d.threads[t].Idle?
    && |d.log| == |s.log| + 1 && d.log[..|s.log|] == s.log && d.log[|s.log|].tid == t && d.log[|s.log|].op == op
  }

  lemma {:induction false} RunCons(s: State, e: (Tid, Event), more: seq<(Tid, Event)>)
    ensures Run(s, [e] + more) == Run(Exec(s, e.0, e.1), more)
    decreases |more|
  {
    var all := [e] + more;
    if more == [] {
      assert all[..0] == [];
    } else {
      RunCons(s, e, more[..|more| - 1]);
      assert all[..|all| - 1] == [e] + more[..|more| - 1];
    }
  }

  lemma {:induction false} LastStep(s: State, t: Tid, e: (Tid, Event))
    requires t in s.threads && (s.threads[t].Read? || s.threads[t].Written?) && e.0 == t && e.1.Advance?
    ensures Inside(s, t) != [] && Completes(s, Run(s, [e]), t, Inside(s, t)[0])
  {
    assert [e][..0] == [];
    assert Run(s, [e]) == Exec(s, t, e.1);
  }

  lemma {:induction false} FinishFrom(s: State, v: View, t: Tid, height: nat) returns (more: seq<(Tid, Event)>)
    requires InvAt(s, v) && t in s.threads && !s.threads[t].Idle? && 1 <= height <= LockedSkipList.MAX_LEVEL
    ensures Alone(more, t, height) && Inside(s, t) != [] && Completes(s, Run(s, more), t, Inside(s, t)[0])
    decreases Part(s.threads[t]), Left(s.mem, v, s.threads[t]), Ahead(v, s.threads[t])
  {
    var l := s.threads[t];
    var room := FreshRoom(s.mem.cells.Keys);
    var e := (t, Advance(height, room));
    var d := Exec(s, t, e.1);
    if l.Read? || l.Written? {
      more := [e];
      LastStep(s, t, e);
    } else {
      StepsOn(s, v, t, height, room);
      var rest := FinishFrom(d, v, t, height);
      more := [e] + rest;
      AloneCons(e, rest, t, height);
      RunCons(s, e, rest);
    }
  }

  lemma {:induction false} AloneCons(e: (Tid, Event), rest: seq<(Tid, Event)>, t: Tid, height: nat)
    requires Alone(rest, t, height) && e.0 == t && e.1.Advance? && e.1.height == height
    ensures Alone([e] + rest, t, height)
  {
  }

  /** In any state a schedule reaches, a thread inside an operation finishes it by its own steps alone,
      whatever height its level generator would draw, and logs it. */
  lemma {:induction false} InsideFinishes(head: Addr, tids: set<Tid>, schedule: seq<(Tid, Event)>, t: Tid, height: nat)
    returns (more: seq<(Tid, Event)>)
    requires var s := Run(Initial(head, tids), schedule); t in s.threads && !s.threads[t].Idle?
    requires 1 <= height <= LockedSkipList.MAX_LEVEL
    ensures var s := Run(Initial(head, tids), schedule);
            Alone(more, t, height) && Inside(s, t) != [] && Completes(s, Run(s, more), t, Inside(s, t)[0])
  {
    RunKeepsInv(head, tids, schedule);
    var s := Run(Initial(head, tids), schedule);
    var v :| InvAt(s, v);
    more := FinishFrom(s, v, t, height);
  }

  /** And a thread between operations, with the lock free for one, begins it and finishes it so. */
  lemma {:induction false} BegunFinishes(head: Addr, tids: set<Tid>, schedule: seq<(Tid, Event)>, t: Tid, op: Op, height: nat)
    returns (more: seq<(Tid, Event)>)
    requires MayBegin(Run(Initial(head, tids), schedule), t, op) && 1 <= height <= LockedSkipList.MAX_LEVEL
    ensures var s := Run(Initial(head, tids), schedule);
            Alone(more, t, height) && Completes(s, Run(s, [(t, Begin(op))] + more), t, op)
  {
    var s := Run(Initial(head, tids), schedule);
    var e := (t, Begin(op));
    RunKeepsInv(head, tids, schedule);
    ExecKeepsInv(s, t, e.1);
    var d := Exec(s, t, e.1);
    var v :| InvAt(d, v);
    more := FinishFrom(d, v, t, height);
    RunCons(s, e, more);
  }
}
