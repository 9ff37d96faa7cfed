/** The store in front of an engine: writes wait out backpressure, and batches an engine does not
    offer are looped (src/store.c). */
module StoreLayer {
  import opened KeyOrder
  import opened SortedRows
  import MapSpec

  type Store = MapSpec.Store

  const KV_RETRY: int := -2

  /** What an engine answers to a write: come back later, refuse, or carry it out. */
  datatype Answer = Retry | Fail | Done

  type Answers = nat -> Answer

  /** From call number last on the engine asks for no more retries. */
  ghost predicate Settles(answer: Answers, last: nat) {
    forall n: nat :: n >= last ==> answer(n) != Retry
  }

  // ----- one write after another -----

  function Write(store: Store, row: Row, answer: Answer): Store {
    if answer == Done then store[row.key := row.val] else store
  }

  /** The writes in order, each taking effect when it was carried out. */
  function Writes(store: Store, rows: seq<Row>, answers: seq<Answer>): Store
    requires |rows| == |answers|
  {
    if rows == [] then store
    else
      var n := |rows| - 1;
      Write(Writes(store, rows[..n], answers[..n]), rows[n], answers[n])
  }

  function Erase(store: Store, k: Bytes, answer: Answer): Store {
    if answer == Done then store - {k} else store
  }

  function Erases(store: Store, keys: seq<Bytes>, answers: seq<Answer>): Store
    requires |keys| == |answers|
  {
    if keys == [] then store
    else
      var n := |keys| - 1;
      var before := Erases(store, keys[..n], answers[..n]);
      Erase(before, keys[n], answers[n])
  }

  ghost predicate AllDone(answers: seq<Answer>) {
    forall i :: 0 <= i < |answers| ==> answers[i] == Done
  }

  /** The last write of k that was carried out, or -1. */
  function LastDone(rows: seq<Row>, answers: seq<Answer>, k: Bytes): (i: int)
    requires |rows| == |answers|
    ensures -1 <= i < |rows| && (i >= 0 ==> answers[i] == Done && rows[i].key == k)
    ensures forall j :: 0 <= j < |rows| && j > i ==> !(answers[j] == Done && rows[j].key == k)
  {
    if rows == [] then -1
    else
      var n := |rows| - 1;
      if answers[n] == Done && rows[n].key == k then n else LastDone(rows[..n], answers[..n], k)
  }

  /** A key holds what the last write of it that was carried out put there. */
  lemma {:induction false} LastWriteWins(store: Store, rows: seq<Row>, answers: seq<Answer>, k: Bytes)
    requires |rows| == |answers|
    ensures var i := LastDone(rows, answers, k);
            var end := Writes(store, rows, answers);
            if i >= 0 then k in end && end[k] == rows[i].val
            else (k in end <==> k in store) && (k in store ==> end[k] == store[k])
  {
    if rows != [] {
      var n := |rows| - 1;
      LastWriteWins(store, rows[..n], answers[..n], k);
    }
  }

  lemma {:induction false} ErasedKeys(store: Store, keys: seq<Bytes>, answers: seq<Answer>, k: Bytes)
    requires |keys| == |answers|
    ensures k in Erases(store, keys, answers) <==> k in store && !exists i :: 0 <= i < |keys| && answers[i] == Done && keys[i] == k
    ensures k in Erases(store, keys, answers) ==> Erases(store, keys, answers)[k] == store[k]
  {
    if keys != [] {
      var n := |keys| - 1;
      ErasedKeys(store, keys[..n], answers[..n], k);
      var before := Erases(store, keys[..n], answers[..n]);
      if exists i :: 0 <= i < |keys| && answers[i] == Done && keys[i] == k {
        var i :| 0 <= i < |keys| && answers[i] == Done && keys[i] == k;
        if i < n { assert answers[..n][i] == Done && keys[..n][i] == k; }
      }
      if exists i :: 0 <= i < n && answers[..n][i] == Done && keys[..n][i] == k {
        var i :| 0 <= i < n && answers[..n][i] == Done && keys[..n][i] == k;
        assert answers[i] == Done && keys[i] == k;
      }
    }
  }

  /** One answer for each of n writes. */
  function Same(a: Answer, n: nat): (r: seq<Answer>)
    ensures |r| == n && forall i :: 0 <= i < n ==> r[i] == a
  {
    seq(n, _ => a)
  }

  // ----- the engine as the store sees it -----

  /** An engine whose retry answers and refusals change nothing, and which asks for no retry from its
      call number last on. */
  class Backend {
    const answer: Answers
    const hasPutBatch: bool
    const hasDelBatch: bool
    ghost const last: nat
    var content: Store
    var calls: nat
    /** The final answers given so far, one for each write or batch. */
    ghost var log: seq<Answer>

    constructor (answer: Answers, hasPutBatch: bool, hasDelBatch: bool, content: Store, ghost last: nat)
      ensures this.answer == answer && this.hasPutBatch == hasPutBatch && this.hasDelBatch == hasDelBatch
      ensures this.last == last && this.content == content && calls == 0 && log == []
    {
      this.answer, this.hasPutBatch, this.hasDelBatch, this.last := answer, hasPutBatch, hasDelBatch, last;
      this.content, calls, log := content, 0, [];
    }

    method Put(row: Row) returns (rc: int)
      modifies this
      ensures var a := answer(old(calls));
              && rc == Code(a, 0) && calls == old(calls) + 1 && log == old(log) + Logged(a)
              && content == Write(old(content), row, a)
    {
      var a := answer(calls);
      calls := calls + 1;
      content := Write(content, row, a);
      log := log + Logged(a);
      rc := Code(a, 0);
    }

    method PutBatch(rows: seq<Row>) returns (rc: int)
      modifies this
      ensures var a := answer(old(calls));
              && rc == Code(a, 0) && calls == old(calls) + 1 && log == old(log) + Logged(a)
              && content == Writes(old(content), rows, Same(a, |rows|))
    {
      var a := answer(calls);
      calls := calls + 1;
      content := Writes(content, rows, Same(a, |rows|));
      log := log + Logged(a);
      rc := Code(a, 0);
    }

    method Del(k: Bytes) returns (rc: int)
      modifies this
      ensures var a := answer(old(calls));
              && rc == Code(a, if k in old(content) then 1 else 0) && calls == old(calls) + 1 && log == old(log) + Logged(a)
              && content == Erase(old(content), k, a)
    {
      var a := answer(calls);
      calls := calls + 1;
      rc := Code(a, if k in content then 1 else 0);
      content := Erase(content, k, a);
      log := log + Logged(a);
    }

    method DelBatch(keys: seq<Bytes>) returns (rc: int)
      modifies this
      ensures var a := answer(old(calls));
              && rc == Code(a, 0) && calls == old(calls) + 1 && log == old(log) + Logged(a)
              && content == Erases(old(content), keys, Same(a, |keys|))
    {
      var a := answer(calls);
      calls := calls + 1;
      content := Erases(content, keys, Same(a, |keys|));
      log := log + Logged(a);
      rc := Code(a, 0);
    }
  }

  function Code(a: Answer, success: int): int {
    match a
    case Retry => KV_RETRY
    case Fail => -1
    case Done => success
  }

  function Logged(a: Answer): seq<Answer> { if a == Retry then [] else [a] }

  // ----- the store's writes -----

  /** Ends, never returns the retry code, and the engine answers it with one final answer: the write
      takes effect once or, when refused, not at all. */
  method StorePut(be: Backend, row: Row) returns (rc: int)
    requires Settles(be.answer, be.last)
    modifies be
    ensures |be.log| == |old(be.log)| + 1 && old(be.log) <= be.log
    ensures var a := be.log[|old(be.log)|]; a != Retry && rc == Code(a, 0) && be.content == Write(old(be.content), row, a)
    ensures rc != KV_RETRY
  {
    rc := be.Put(row);
    while rc == KV_RETRY
      invariant be.calls > 0 && Settles(be.answer, be.last)
      invariant rc == Code(be.answer(be.calls - 1), 0)
      invariant be.content == Write(old(be.content), row, be.answer(be.calls - 1))
      invariant be.log == old(be.log) + Logged(be.answer(be.calls - 1))
      decreases be.last + 1 - be.calls
    {
      rc := be.Put(row);
    }
  }

  method StoreDel(be: Backend, k: Bytes) returns (rc: int)
    requires Settles(be.answer, be.last)
    modifies be
    ensures |be.log| == |old(be.log)| + 1 && old(be.log) <= be.log
    ensures var a := be.log[|old(be.log)|];
            a != Retry && rc == Code(a, if k in old(be.content) then 1 else 0) && be.content == Erase(old(be.content), k, a)
    ensures rc != KV_RETRY
  {
    rc := be.Del(k);
    while rc == KV_RETRY
      invariant be.calls > 0 && Settles(be.answer, be.last)
      invariant rc == Code(be.answer(be.calls - 1), if k in old(be.content) then 1 else 0)
      invariant be.content == Erase(old(be.content), k, be.answer(be.calls - 1))
      invariant be.log == old(be.log) + Logged(be.answer(be.calls - 1))
      decreases be.last + 1 - be.calls
    {
      rc := be.Del(k);
    }
  }

  lemma {:induction false} NothingDone(store: Store, rows: seq<Row>, answers: seq<Answer>)
    requires |rows| == |answers| && forall i :: 0 <= i < |answers| ==> answers[i] != Done
    ensures Writes(store, rows, answers) == store
  {
    if rows != [] { NothingDone(store, rows[..|rows| - 1], answers[..|rows| - 1]); }
  }

  lemma {:induction false} NothingErased(store: Store, keys: seq<Bytes>, answers: seq<Answer>)
    requires |keys| == |answers| && forall i :: 0 <= i < |answers| ==> answers[i] != Done
    ensures Erases(store, keys, answers) == store
  {
    if keys != [] { NothingErased(store, keys[..|keys| - 1], answers[..|keys| - 1]); }
  }

  /** The batch by the engine's own call: it stands or falls as one. */
  method NativePutBatch(be: Backend, rows: seq<Row>) returns (rc: int)
    requires Settles(be.answer, be.last)
    modifies be
    ensures |be.log| == |old(be.log)| + 1 && old(be.log) <= be.log
    ensures var a := be.log[|old(be.log)|];
            a != Retry && rc == Code(a, 0) && be.content == Writes(old(be.content), rows, Same(a, |rows|))
  {
    rc := be.PutBatch(rows);
    while rc == KV_RETRY
      invariant be.calls > 0 && Settles(be.answer, be.last)
      invariant rc == Code(be.answer(be.calls - 1), 0)
      invariant be.content == Writes(old(be.content), rows, Same(be.answer(be.calls - 1), |rows|))
      invariant be.log == old(be.log) + Logged(be.answer(be.calls - 1))
      decreases be.last + 1 - be.calls
    {
      NothingDone(old(be.content), rows, Same(be.answer(be.calls - 1), |rows|));
      rc := be.PutBatch(rows);
    }
  }

  method NativeDelBatch(be: Backend, keys: seq<Bytes>) returns (rc: int)
    requires Settles(be.answer, be.last)
    modifies be
    ensures |be.log| == |old(be.log)| + 1 && old(be.log) <= be.log
    ensures var a := be.log[|old(be.log)|];
            a != Retry && rc == Code(a, 0) && be.content == Erases(old(be.content), keys, Same(a, |keys|))
  {
    rc := be.DelBatch(keys);
    while rc == KV_RETRY
      invariant be.calls > 0 && Settles(be.answer, be.last)
      invariant rc == Code(be.answer(be.calls - 1), 0)
      invariant be.content == Erases(old(be.content), keys, Same(be.answer(be.calls - 1), |keys|))
      invariant be.log == old(be.log) + Logged(be.answer(be.calls - 1))
      decreases be.last + 1 - be.calls
    {
      NothingErased(old(be.content), keys, Same(be.answer(be.calls - 1), |keys|));
      rc := be.DelBatch(keys);
    }
  }

  /** Without an engine batch, single puts in order: what they leave is the fold of the puts carried
      out, and the code is 0 exactly when all of them were. */
  method LoopedPuts(be: Backend, rows: seq<Row>) returns (rc: int)
    requires Settles(be.answer, be.last)
    modifies be
    ensures |be.log| == |old(be.log)| + |rows| && old(be.log) <= be.log
    ensures be.content == Writes(old(be.content), rows, be.log[|old(be.log)|..])
    ensures rc == if AllDone(be.log[|old(be.log)|..]) then 0 else -1
  {
    ghost var n := |be.log|;
    rc := 0;
    var i := 0;
    while i < |rows|
      invariant 0 <= i <= |rows| && Settles(be.answer, be.last)
      invariant |be.log| == n + i && old(be.log) <= be.log
      invariant be.content == Writes(old(be.content), rows[..i], be.log[n..])
      invariant rc == if AllDone(be.log[n..]) then 0 else -1
    {
      ghost var log := be.log;
      var one := StorePut(be, rows[i]);
      if one != 0 {
        rc := -1;
      }
      LogStep(log, be.log, n);
      WritesStep(old(be.content), rows, be.log[n..], i);
      i := i + 1;
    }
    assert rows[..|rows|] == rows;
  }

  /** Key by key; only refusals make it fail, absent keys do not. */
  method LoopedDels(be: Backend, keys: seq<Bytes>) returns (rc: int)
    requires Settles(be.answer, be.last)
    modifies be
    ensures |be.log| == |old(be.log)| + |keys| && old(be.log) <= be.log
    ensures be.content == Erases(old(be.content), keys, be.log[|old(be.log)|..])
    ensures rc == if AllDone(be.log[|old(be.log)|..]) then 0 else -1
  {
    ghost var n := |be.log|;
    rc := 0;
    var i := 0;
    while i < |keys|
      invariant 0 <= i <= |keys| && Settles(be.answer, be.last)
      invariant |be.log| == n + i && old(be.log) <= be.log
      invariant be.content == Erases(old(be.content), keys[..i], be.log[n..])
      invariant rc == if AllDone(be.log[n..]) then 0 else -1
    {
      ghost var log := be.log;
      var one := StoreDel(be, keys[i]);
      if one < 0 {
        rc := -1;
      }
      LogStep(log, be.log, n);
      ErasesStep(old(be.content), keys, be.log[n..], i);
      i := i + 1;
    }
    assert keys[..|keys|] == keys;
  }

  lemma {:induction false} LogStep(log: seq<Answer>, log': seq<Answer>, n: nat)
    requires n <= |log| && |log'| == |log| + 1 && log <= log'
    ensures log'[n..][..|log| - n] == log[n..]
    ensures AllDone(log'[n..]) <==> AllDone(log[n..]) && log'[|log|] == Done
  {
    var now, next := log[n..], log'[n..];
    assert next == now + [log'[|log|]];
    assert next[|now|] == log'[|log|];
    assert forall i :: 0 <= i < |now| ==> next[i] == now[i];
  }

  lemma {:induction false} WritesStep(store: Store, rows: seq<Row>, answers: seq<Answer>, i: nat)
    requires i < |rows| && |answers| == i + 1
    ensures Writes(store, rows[..i + 1], answers) == Write(Writes(store, rows[..i], answers[..i]), rows[i], answers[i])
  {
    assert rows[..i + 1][..i] == rows[..i];
  }

  lemma {:induction false} ErasesStep(store: Store, keys: seq<Bytes>, answers: seq<Answer>, i: nat)
    requires i < |keys| && |answers| == i + 1
    ensures Erases(store, keys[..i + 1], answers) == Erase(Erases(store, keys[..i], answers[..i]), keys[i], answers[i])
  {
    assert keys[..i + 1][..i] == keys[..i];
  }

  /** The answers of the n members of a batch, from what was logged for it. */
  ghost predicate BatchAnswers(answers: seq<Answer>, native: bool, logged: seq<Answer>, n: nat) {
    |answers| == n && if native then |logged| == 1 && answers == Same(logged[0], n) else answers == logged
  }

  /** Either way the batch leaves what its rows put one by one in order would leave. */
  method StorePutBatch(be: Backend, rows: seq<Row>) returns (rc: int, ghost answers: seq<Answer>)
    requires Settles(be.answer, be.last)
    modifies be
    ensures old(be.log) <= be.log && BatchAnswers(answers, be.hasPutBatch, be.log[|old(be.log)|..], |rows|)
    ensures be.content == Writes(old(be.content), rows, answers)
    ensures rc == 0 || rc == -1
    ensures rc == 0 ==> AllDone(answers)
    ensures rc == -1 ==> rows == [] || !AllDone(answers)
  {
    if be.hasPutBatch {
      rc := NativePutBatch(be, rows);
      ghost var a := be.log[|old(be.log)|];
      answers := Same(a, |rows|);
      assert rows != [] ==> answers[0] == a;
    } else {
      rc := LoopedPuts(be, rows);
      answers := be.log[|old(be.log)|..];
    }
  }

  method StoreDelBatch(be: Backend, keys: seq<Bytes>) returns (rc: int, ghost answers: seq<Answer>)
    requires Settles(be.answer, be.last)
    modifies be
    ensures old(be.log) <= be.log && BatchAnswers(answers, be.hasDelBatch, be.log[|old(be.log)|..], |keys|)
    ensures be.content == Erases(old(be.content), keys, answers)
    ensures rc == 0 || rc == -1
    ensures rc == 0 ==> AllDone(answers)
    ensures rc == -1 ==> keys == [] || !AllDone(answers)
  {
    if be.hasDelBatch {
      rc := NativeDelBatch(be, keys);
      ghost var a := be.log[|old(be.log)|];
      answers := Same(a, |keys|);
      assert keys != [] ==> answers[0] == a;
    } else {
      rc := LoopedDels(be, keys);
      answers := be.log[|old(be.log)|..];
    }
  }
}
