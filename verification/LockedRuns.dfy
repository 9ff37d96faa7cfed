/** Threads sharing the locked skiplist: every schedule of their steps. */
module LockedRuns {
  import opened Wrappers
  import opened SortedRows
  import opened MapSpec
  import opened LockedSkipList
  import opened Levels
  import opened LockedInsert
  import opened LockedDelete
  import opened LockedWriter

  /** A finished operation of a thread, in the order the locks were released. */
  datatype Entry = Entry(tid: Tid, op: Op, ans: Answer)

  datatype State = State(
    mem: Mem,
    readers: set<Tid>,
    writer: Option<Tid>,
    threads: map<Tid, Local>,
    log: seq<Entry>)

  /** A thread begins an operation, or takes its next step; height and room are what the level
      generator and the allocator would give if the step asks them. */
  datatype Event = Begin(op: Op) | Advance(height: nat, room: Addr)

  predicate InRead(l: Local) { l.Reading? || l.Scanning? || l.Read? }

  predicate InWrite(l: Local) { l.Searching? || l.Linking? || l.Unlinking? || l.Shrinking? || l.Written? }

  function Acquire(s: State, t: Tid, op: Op): State {
    if ReadOnly(op) then
      if s.writer.None? then
        s.(readers := s.readers + {t}, threads := s.threads[t := Reading(op, s.mem.head, s.mem.level)])
      else s
    else if s.writer.None? && s.readers == {} then
      s.(writer := Some(t),
         threads := s.threads[t := Searching(op, s.mem.head, s.mem.level, seq(LockedSkipList.MAX_LEVEL, _ => s.mem.head))])
    else s
  }

  function Move(s: State, t: Tid, l: Local, height: nat, room: Addr): State {
    if l.Read? then
      s.(readers := s.readers - {t}, threads := s.threads[t := Idle], log := s.log + [Entry(t, l.op, l.ans)])
    else if l.Written? then
      s.(writer := None, threads := s.threads[t := Idle], log := s.log + [Entry(t, l.op, l.ans)])
    else if InRead(l) then
      s.(threads := s.threads[t := ReaderStep(s.mem, l)])
    else if InWrite(l) && 1 <= height <= LockedSkipList.MAX_LEVEL && room !in s.mem.cells then
      var r := WriterStep(s.mem, l, height, room);
      s.(mem := r.0, threads := s.threads[t := r.1])
    else s
  }

  /** One event of thread t; an event that cannot happen now (the lock is taken) leaves the state alone. */
  function Exec(s: State, t: Tid, e: Event): State {
    if t !in s.threads then s
    else if e.Begin? && s.threads[t].Idle? then Acquire(s, t, e.op)
    else if e.Advance? then Move(s, t, s.threads[t], e.height, e.room)
    else s
  }

  function Initial(head: Addr, tids: set<Tid>): State {
    State(Mem(map[head := Cell([], [], seq(LockedSkipList.MAX_LEVEL, _ => None))], head, 1, 0),
          {}, None, map t | t in tids :: Idle, [])
  }

  function Run(s: State, schedule: seq<(Tid, Event)>): State {
    if schedule == [] then s
    else
      var last := schedule[|schedule| - 1];
      Exec(Run(s, schedule[..|schedule| - 1]), last.0, last.1)
  }

  // ----- the invariant -----

  function Ops(log: seq<Entry>): seq<Op> {
    seq(|log|, i requires 0 <= i < |log| => log[i].op)
  }

  function Replies(log: seq<Entry>): seq<Answer> {
    seq(|log|, i requires 0 <= i < |log| => log[i].ans)
  }

  /** Locks are held by exactly the threads inside an operation. */
  ghost predicate LocksOk(s: State) {
    && (s.writer.Some? ==> s.readers == {} && s.writer.value in s.threads)
    && (forall t :: t in s.readers ==> t in s.threads)
    && (forall t :: t in s.threads ==>
          && (InRead(s.threads[t]) <==> t in s.readers)
          && (InWrite(s.threads[t]) <==> s.writer == Some(t))
          && (s.threads[t].Idle? || InRead(s.threads[t]) || InWrite(s.threads[t])))
  }

  /** v is the list the completed operations have built. */
  ghost predicate InvAt(s: State, v: View) {
    && LocksOk(s)
    && v.rows == Replay([], Ops(s.log))
    && Replies(s.log) == Answers([], Ops(s.log))
    && |v.order| == |v.hts| == |v.rows| + 1
    && (s.writer.None? ==> Represents(s.mem, v))
    && (s.writer.Some? ==> WriterOk(s.mem, v, s.threads[s.writer.value]))
    && (forall t :: t in s.readers ==> ReaderOk(v, s.mem.level, s.threads[t]))
  }

  ghost predicate Inv(s: State) {
    exists v: View :: InvAt(s, v)
  }

  lemma {:induction false} LogSnoc(log: seq<Entry>, e: Entry)
    requires Replies(log) == Answers([], Ops(log))
    requires e.ans == Reply(Replay([], Ops(log)), e.op)
    ensures Replay([], Ops(log + [e])) == After(Replay([], Ops(log)), e.op)
    ensures Replies(log + [e]) == Answers([], Ops(log + [e]))
  {
    assert Ops(log + [e]) == Ops(log) + [e.op];
    assert Replies(log + [e]) == Replies(log) + [e.ans];
    ReplaySnoc([], Ops(log), e.op);
  }

  lemma {:induction false} StartStands(m: Mem, v: View, t: nat)
    requires Represents(m, v) && 0 < t <= |v.order|
    ensures StandsSomewhere(v, m.level, t, m.head, m.level)
    ensures HasPath(v, m.level, m.level, seq(LockedSkipList.MAX_LEVEL, _ => m.head), t)
  {
    assert Standing(v, m.level, t, m.head, m.level, 0);
    assert Path(v, m.level, m.level, seq(LockedSkipList.MAX_LEVEL, _ => m.head), seq(LockedSkipList.MAX_LEVEL, _ => 0), t);
  }

  lemma {:induction false} AcquireReadKeepsInv(s: State, v: View, t: Tid, op: Op)
    requires InvAt(s, v) && t in s.threads && s.threads[t].Idle? && s.writer.None? && ReadOnly(op)
    ensures InvAt(Acquire(s, t, op), v)
  {
    var l := Reading(op, s.mem.head, s.mem.level);
    StartReads(s.mem, v, op);
    ReadersJoin(s, v, t, l);
    LocksJoin(s, t, l);
  }

  lemma {:induction false} StartReads(m: Mem, v: View, op: Op)
    requires Represents(m, v) && ReadOnly(op)
    ensures ReaderOk(v, m.level, Reading(op, m.head, m.level))
  {
    StartStands(m, v, Rank(v.rows, SearchKey(op)) + 1);
  }

  lemma {:induction false} ReadersJoin(s: State, v: View, t: Tid, l: Local)
    requires |v.order| == |v.hts| == |v.rows| + 1 && ReaderOk(v, s.mem.level, l)
    requires forall u :: u in s.readers ==> u in s.threads && ReaderOk(v, s.mem.level, s.threads[u])
    ensures forall u :: u in s.readers + {t} ==> ReaderOk(v, s.mem.level, s.threads[t := l][u])
  {
  }

  lemma {:induction false} LocksJoin(s: State, t: Tid, l: Local)
    requires LocksOk(s) && t in s.threads && s.threads[t].Idle? && s.writer.None? && InRead(l)
    ensures LocksOk(s.(readers := s.readers + {t}, threads := s.threads[t := l]))
  {
  }

  lemma {:induction false} AcquireWriteKeepsInv(s: State, v: View, t: Tid, op: Op)
    requires InvAt(s, v) && t in s.threads && s.threads[t].Idle? && s.writer.None? && s.readers == {} && !ReadOnly(op)
    ensures InvAt(Acquire(s, t, op), v)
  {
    StartStands(s.mem, v, Rank(v.rows, op.key) + 1);
    assert WriterOk(s.mem, v, Acquire(s, t, op).threads[t]);
  }

  lemma {:induction false} ReleaseReadKeepsInv(s: State, v: View, t: Tid)
    requires InvAt(s, v) && t in s.threads && s.threads[t].Read?
    ensures InvAt(Move(s, t, s.threads[t], 0, 0), v)
  {
    var e := Entry(t, s.threads[t].op, s.threads[t].ans);
    LogSnoc(s.log, e);
    LocksLeave(s, t, s.log + [e]);
  }

  lemma {:induction false} LocksLeave(s: State, t: Tid, log: seq<Entry>)
    requires LocksOk(s) && t in s.threads && s.threads[t].Read?
    ensures t in s.readers && s.writer.None?
    ensures LocksOk(s.(readers := s.readers - {t}, threads := s.threads[t := Idle], log := log))
  {
  }

  lemma {:induction false} ReleaseWriteKeepsInv(s: State, v: View, t: Tid) returns (v': View)
    requires InvAt(s, v) && t in s.threads && s.threads[t].Written?
    ensures InvAt(Move(s, t, s.threads[t], 0, 0), v')
  {
    LogSnoc(s.log, Entry(t, s.threads[t].op, s.threads[t].ans));
    v' :| Represents(s.mem, v') && v'.rows == After(v.rows, s.threads[t].op);
  }

  lemma {:induction false} LocksSurvive(s: State, t: Tid, l: Local, m: Mem)
    requires LocksOk(s) && t in s.threads
    requires if t in s.readers then InRead(l) else s.writer == Some(t) && InWrite(l)
    ensures LocksOk(s.(mem := m, threads := s.threads[t := l]))
  {
  }

  lemma {:induction false} ReaderMoveKeepsInv(s: State, v: View, t: Tid)
    requires InvAt(s, v) && t in s.readers
    ensures InvAt(s.(threads := s.threads[t := ReaderStep(s.mem, s.threads[t])]), v)
  {
    var l := ReaderStep(s.mem, s.threads[t]);
    assert ReaderOk(v, s.mem.level, l) by { ReaderKeepsOk(s.mem, v, s.threads[t]); }
    assert InRead(l);
    LocksSurvive(s, t, l, s.mem);
  }

  lemma {:induction false} WriterMoveKeepsInv(s: State, v: View, t: Tid, height: nat, room: Addr)
    requires InvAt(s, v) && s.writer == Some(t) && 1 <= height <= LockedSkipList.MAX_LEVEL && room !in s.mem.cells
    ensures var r := WriterStep(s.mem, s.threads[t], height, room);
            InvAt(s.(mem := r.0, threads := s.threads[t := r.1]), v)
  {
    var (m, l) := WriterStep(s.mem, s.threads[t], height, room);
    assert WriterOk(m, v, l) by { WriterKeepsOk(s.mem, v, s.threads[t], height, room); }
    assert InWrite(l);
    LocksSurvive(s, t, l, m);
  }

  lemma {:induction false} ExecKeepsInv(s: State, t: Tid, e: Event)
    requires Inv(s)
    ensures Inv(Exec(s, t, e))
  {
    var v :| InvAt(s, v);
    if t in s.threads {
      var l := s.threads[t];
      if e.Begin? && l.Idle? {
        if ReadOnly(e.op) && s.writer.None? {
          AcquireReadKeepsInv(s, v, t, e.op);
        } else if !ReadOnly(e.op) && s.writer.None? && s.readers == {} {
          AcquireWriteKeepsInv(s, v, t, e.op);
        }
      } else if e.Advance? {
        if l.Read? {
          ReleaseReadKeepsInv(s, v, t);
        } else if l.Written? {
          var v' := ReleaseWriteKeepsInv(s, v, t);
        } else if InRead(l) {
          ReaderMoveKeepsInv(s, v, t);
        } else if InWrite(l) && 1 <= e.height <= LockedSkipList.MAX_LEVEL && e.room !in s.mem.cells {
          WriterMoveKeepsInv(s, v, t, e.height, e.room);
        }
      }
    }
  }

  lemma {:induction false} InitialInv(head: Addr, tids: set<Tid>)
    ensures Inv(Initial(head, tids))
  {
    var s := Initial(head, tids);
    var v := View([head], [LockedSkipList.MAX_LEVEL], []);
    assert Placed(s.mem.cells, v, 0) && Routed(s.mem.cells, v, 0);
    assert Represents(s.mem, v);
    assert InvAt(s, v);
  }

  lemma {:induction false} RunKeepsInv(head: Addr, tids: set<Tid>, schedule: seq<(Tid, Event)>)
    ensures Inv(Run(Initial(head, tids), schedule))
    decreases |schedule|
  {
    if schedule == [] {
      InitialInv(head, tids);
    } else {
      var before := schedule[..|schedule| - 1];
      RunKeepsInv(head, tids, before);
      var last := schedule[|schedule| - 1];
      ExecKeepsInv(Run(Initial(head, tids), before), last.0, last.1);
    }
  }

  // ----- what every schedule guarantees -----

  /** Linearizability in lock order: the answers handed out are those of running the completed
      operations one after another, and whenever no writer is inside, the memory holds exactly
      what that sequential run leaves. */
  lemma {:induction false} Linearizable(head: Addr, tids: set<Tid>, schedule: seq<(Tid, Event)>)
    ensures var s := Run(Initial(head, tids), schedule);
            && Replies(s.log) == Answers([], Ops(s.log))
            && (s.writer.None? ==> Holds(s.mem, Replay([], Ops(s.log))))
  {
    RunKeepsInv(head, tids, schedule);
  }

  /** No thread ever follows a dangling pointer or reads past a node's links. */
  lemma {:induction false} NeverFaults(head: Addr, tids: set<Tid>, schedule: seq<(Tid, Event)>, t: Tid)
    ensures var s := Run(Initial(head, tids), schedule); t in s.threads ==> !s.threads[t].Fault?
  {
    RunKeepsInv(head, tids, schedule);
  }

  /** Mutual exclusion, and while any reader is inside no step of any thread changes the memory. */
  lemma {:induction false} ReadersFreezeMemory(head: Addr, tids: set<Tid>, schedule: seq<(Tid, Event)>, t: Tid, e: Event)
    ensures var s := Run(Initial(head, tids), schedule);
            && (s.readers == {} || s.writer.None?)
            && (s.readers != {} ==> Exec(s, t, e).mem == s.mem)
  {
    RunKeepsInv(head, tids, schedule);
  }

  function Entries(update: seq<Addr>, from: nat, level: nat): set<Addr> {
    set j | from <= j < level && j < |update| :: update[j]
  }

  /** The pointers a thread keeps between steps, with the entries of update it has filled in. */
  function Pointers(m: Mem, l: Local): set<Addr> {
    match l
    case Reading(_, x, _) => {x}
    case Scanning(_, y, _) => if y.Some? then {y.value} else {}
    case Searching(_, x, i, update) => {x} + Entries(update, i, m.level)
    case Linking(_, n, _, update) => {n} + Entries(update, 0, m.level)
    case Unlinking(_, y, _, update) => {y} + Entries(update, 0, m.level)
    case Shrinking(_, y, _) => {y}
    case _ => {}
  }

  /** No thread ever holds a freed node. */
  lemma {:induction false} HoldsNoFreedNode(head: Addr, tids: set<Tid>, schedule: seq<(Tid, Event)>, t: Tid)
    ensures var s := Run(Initial(head, tids), schedule);
            t in s.threads ==> Pointers(s.mem, s.threads[t]) <= s.mem.cells.Keys
  {
    RunKeepsInv(head, tids, schedule);
    var s := Run(Initial(head, tids), schedule);
    var v :| InvAt(s, v);
    if t in s.threads {
      PointersLive(s, v, t);
    }
  }

  /** Every predecessor of a path is a node of the list. */
  lemma {:induction false} PathLive(v: View, from: nat, level: nat, update: seq<Addr>, t: nat, keys: set<Addr>)
    requires |v.order| == |v.hts| && HasPath(v, from, level, update, t)
    requires forall p :: 0 <= p < |v.order| ==> v.order[p] in keys
    ensures Entries(update, from, level) <= keys
  {
    var pred :| Path(v, from, level, update, pred, t);
    forall j | from <= j < level && j < |update| ensures update[j] in keys {
      assert IsPred(v.hts, pred[j], j, t) && update[j] == v.order[pred[j]];
    }
  }

  lemma {:induction false} ReaderPointersLive(s: State, v: View, t: Tid)
    requires InvAt(s, v) && t in s.readers
    ensures Pointers(s.mem, s.threads[t]) <= s.mem.cells.Keys
  {
    var l := s.threads[t];
    if l.Reading? {
      var pos :| Standing(v, s.mem.level, Rank(v.rows, SearchKey(l.op)) + 1, l.x, l.i, pos);
    }
  }

  lemma {:induction false} WriterPointersLive(m: Mem, v: View, l: Local)
    requires WriterOk(m, v, l)
    ensures Pointers(m, l) <= m.cells.Keys
  {
    match l
    case Searching(op, x, i, update) =>
      var t := Rank(v.rows, op.key) + 1;
      var pos :| Standing(v, m.level, t, x, i, pos);
      PathLive(v, i, m.level, update, t, m.cells.Keys);
    case Linking(op, n, j, update) =>
      var t := Rank(v.rows, op.key) + 1;
      var pred :| HalfIn(m, v, Row(op.key, op.val), n, j, update, pred, t);
      assert HasPath(v, 0, m.level, update, t);
      PathLive(v, 0, m.level, update, t, m.cells.Keys);
    case Unlinking(op, y, j, update) =>
      var t := Rank(v.rows, op.key) + 1;
      assert forall p :: 0 <= p < |v.order| ==> BypassedAt(m.cells, v, t, j, p) && v.order[p] in m.cells;
      PathLive(v, 0, m.level, update, t, m.cells.Keys);
    case _ =>
  }

  lemma {:induction false} PointersLive(s: State, v: View, t: Tid)
    requires InvAt(s, v) && t in s.threads
    ensures Pointers(s.mem, s.threads[t]) <= s.mem.cells.Keys
  {
    if t in s.readers {
      ReaderPointersLive(s, v, t);
    } else if s.writer == Some(t) {
      WriterPointersLive(s.mem, v, s.threads[t]);
    }
  }
}
