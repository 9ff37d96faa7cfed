/** The reference engine: a skiplist of heap nodes linked in place (backends/skiplist/skiplist.c). */
module SkipListEngine {
  import opened Wrappers
  import opened KeyOrder
  import opened SortedRows
  import opened Levels
  import Rng

  const MAX_LEVEL := Rng.MAX_LEVEL

  class Node {
    const key: Bytes
    var val: Value
    const level: nat
    const next: array<Node?>

    constructor (level: nat, k: Bytes, v: Value)
      ensures this.level == level && key == k && val == v
      ensures fresh(next) && next.Length == level
      ensures forall i :: 0 <= i < level ==> next[i] == null
    {
      this.level := level;
      key := k;
      val := v;
      next := new Node?[level](_ => null);
    }
  }

  /** The node at a position, with null past the end. */
  ghost function At(nodes: seq<Node>, p: nat): Node? {
    if p < |nodes| then nodes[p] else null
  }

  ghost function Arrays(nodes: seq<Node>): set<array<Node?>> {
    set n | n in nodes :: n.next
  }

  /** The head in front, and each node as tall as its storage and no taller than the list. */
  ghost predicate Shaped(ns: seq<Node>, h: seq<nat>, head: Node, level: nat) {
    && |ns| == |h| > 0
    && ns[0] == head && h[0] == MAX_LEVEL
    && 1 <= level <= MAX_LEVEL
    && (forall p :: 0 <= p < |ns| ==> ns[p].next.Length == ns[p].level == h[p])
    && (forall p :: 0 < p < |h| ==> 1 <= h[p] <= level)
  }

  /** The p-th node shares storage with no other. */
  ghost predicate Alone(ns: seq<Node>, p: nat)
    requires p < |ns|
  {
    forall q :: 0 <= q < |ns| && q != p ==> ns[q] != ns[p] && ns[q].next != ns[p].next
  }

  ghost predicate Apart(ns: seq<Node>) {
    forall p :: 0 <= p < |ns| ==> Alone(ns, p)
  }

  /** Each link of the p-th node leads to the next node that reaches the link's level. */
  ghost predicate Routed(ns: seq<Node>, h: seq<nat>, p: nat)
    requires |ns| == |h| && p < |ns| && ns[p].next.Length == h[p]
    reads ns[p].next
  {
    forall i :: 0 <= i < h[p] ==> ns[p].next[i] == At(ns, Succ(h, p, i))
  }

  /** The nodes after the head hold the rows, in order. */
  ghost predicate Holds(ns: seq<Node>, rows: seq<Row>)
    reads ns
  {
    && |ns| == |rows| + 1
    && (forall p :: 0 < p < |ns| ==> rows[p - 1] == Row(ns[p].key, ns[p].val))
  }

  /** Some node reaches the top level, unless only the bottom one is in use. */
  ghost predicate Tight(h: seq<nat>, level: nat) {
    level == 1 || exists p :: 0 < p < |h| && h[p] == level
  }

  ghost function NodeSet(ns: seq<Node>): set<Node> {
    set n | n in ns
  }

  ghost predicate Owned(ns: seq<Node>, repr: set<object>) {
    forall p :: 0 <= p < |ns| ==> ns[p] in repr && ns[p].next in repr
  }

  /** One node, not among those ever allocated before, has been added at position t. */
  ghost predicate Grown(ns: seq<Node>, h: seq<nat>, ns': seq<Node>, h': seq<nat>, t: nat, created: set<Node>) {
    && 0 < t <= |ns| == |h| && t < |ns'| && t < |h'|
    && ns' == ns[..t] + [ns'[t]] + ns[t..]
    && h' == Insert(h, t, h'[t])
    && ns'[t] !in created
  }

  /** Following level i from x visits exactly these nodes and then ends. */
  ghost predicate Follows(x: Node, i: nat, visited: seq<Node>)
    reads x.next, Arrays(visited)
    decreases |visited|
  {
    i < x.next.Length &&
    if visited == [] then x.next[i] == null
    else x.next[i] == visited[0] && visited[0] in visited && Follows(visited[0], i, visited[1..])
  }

  /** The nodes taller than level i, in the order given. */
  function Taller(ns: seq<Node>, i: nat): seq<Node> {
    if ns == [] then [] else (if ns[0].level > i then [ns[0]] else []) + Taller(ns[1..], i)
  }

  class SkipList {
    const head: Node
    var level: nat
    var rng: Rng.Word
    var count: int

    ghost var nodes: seq<Node>     // the head, then level 0 in order
    ghost var hts: seq<nat>        // their heights
    ghost var rows: seq<Row>       // the contents, nodes[p + 1] holding rows[p]
    ghost var freed: set<Node>     // nodes handed back to the allocator
    ghost var created: set<Node>   // nodes ever allocated, the head included
    ghost var Repr: set<object>    // everything the operations may write

    /** Every link of every node, on every level the node takes part in. */
    ghost predicate Linked()
      reads this, Arrays(nodes)
    {
      Shaped(nodes, hts, head, level) && forall p :: 0 <= p < |nodes| ==> Routed(nodes, hts, p)
    }

    /** The structure represents `rows`. */
    ghost predicate Represents()
      reads this, nodes, Arrays(nodes)
    {
      && Linked()
      && Apart(nodes)
      && Holds(nodes, rows)
      && Tight(hts, level)
      && count == |rows|
      && created == NodeSet(nodes) + freed
      && NodeSet(nodes) !! freed
      && this in Repr && Owned(nodes, Repr)
    }

    ghost predicate Valid()
      reads this, nodes, Arrays(nodes)
    {
      Represents() && Sorted(rows) && rng != Rng.ZERO
    }

    /** t is the first position whose key is not below k. */
    ghost predicate Cut(k: Bytes, t: nat)
      reads this
    {
      0 < t <= |nodes| && forall p :: 0 < p < |nodes| ==> (Lt(nodes[p].key, k) <==> p < t)
    }

    constructor (seed: nat)
      requires seed < 0x1_0000_0000
      ensures Valid() && rows == [] && level == 1 && rng == Rng.Initial(seed)
      ensures fresh(Repr) && freed == {}
    {
      level := 1;
      rng := Rng.Initial(seed);
      count := 0;
      var h := new Node(MAX_LEVEL, [], []);
      head := h;
      nodes, hts, rows, freed, created := [h], [MAX_LEVEL], [], {}, {h};
      Repr := {this, h, h.next};
      new;
      Rng.InitialNonZero(seed);
    }

    /** One level of a search: walk right while the next key is below k. */
    method Advance(k: Bytes, from: Node, i: nat, ghost t: nat, ghost start: nat) returns (x: Node, ghost pos: nat)
      requires Linked() && Cut(k, t)
      requires start < t && from == nodes[start] && hts[start] > i
      ensures IsPred(hts, pos, i, t) && x == nodes[pos]
    {
      x, pos := from, start;
      while x.next[i] != null && KeyCmp(x.next[i].key, k) < 0
        invariant pos < t && x == nodes[pos] && hts[pos] > i
        decreases |nodes| - pos
      {
        assert Routed(nodes, hts, pos);
        pos := Succ(hts, pos, i);
        x := x.next[i];
      }
      assert Routed(nodes, hts, pos);
    }

    /** The top-down search of put and del: update[i] is the true predecessor on level i. */
    method Locate(k: Bytes, ghost t: nat) returns (update: seq<Node?>, x: Node, ghost pred: seq<nat>)
      requires Linked() && Cut(k, t)
      ensures |update| == |pred| == MAX_LEVEL
      ensures forall i :: 0 <= i < level ==> IsPred(hts, pred[i], i, t) && update[i] == nodes[pred[i]]
      ensures pred[0] < |nodes| && x == nodes[pred[0]]
    {
      update := seq(MAX_LEVEL, _ => null);
      pred := seq(MAX_LEVEL, _ => 0);
      x := head;
      ghost var pos: nat := 0;
      var i := level;
      while i > 0
        invariant 0 <= i <= level
        invariant |update| == |pred| == MAX_LEVEL
        invariant pos < t && x == nodes[pos] && hts[pos] >= i
        invariant forall j :: i <= j < level ==> IsPred(hts, pred[j], j, t) && update[j] == nodes[pred[j]]
        invariant i < level ==> pos == pred[i]
      {
        i := i - 1;
        x, pos := Advance(k, x, i, t, pos);
        update := update[i := x];
        pred := pred[i := pos];
      }
    }

    /** The search of get and range, which records no path. */
    method Seek(k: Bytes, ghost t: nat) returns (x: Node?)
      requires Linked() && Cut(k, t)
      ensures x == At(nodes, t)
    {
      var y := head;
      ghost var pos: nat := 0;
      var i := level;
      while i > 0
        invariant 0 <= i <= level
        invariant pos < t && y == nodes[pos] && hts[pos] >= i
        invariant i < level ==> IsPred(hts, pos, i, t)
      {
        i := i - 1;
        y, pos := Advance(k, y, i, t, pos);
      }
      BottomLink(pos, t);
      x := y.next[0];
    }

    /** On level 0 the predecessor of t is the node right before it. */
    lemma {:induction false} BottomLink(p: nat, t: nat)
      requires Linked() && IsPred(hts, p, 0, t)
      ensures nodes[p].next[0] == At(nodes, t)
    {
      assert Routed(nodes, hts, p);
    }

    lemma {:induction false} RankCuts(k: Bytes)
      requires Holds(nodes, rows) && Sorted(rows)
      ensures Cut(k, Rank(rows, k) + 1)
    {
      RankSplits(rows, k);
      forall p | 0 < p < |nodes| ensures Lt(nodes[p].key, k) <==> p < Rank(rows, k) + 1 {
        assert rows[p - 1].key == nodes[p].key;
      }
    }

    /** A node is found at the rank exactly when its key is the one sought. */
    lemma {:induction false} FoundIffHas(k: Bytes, x: Node?)
      requires Holds(nodes, rows) && x == At(nodes, Rank(rows, k) + 1)
      ensures x != null && KeyCmp(x.key, k) == 0 <==> Has(rows, k)
    {
      if x != null {
        KeyCmpTotalOrder(x.key, k, k);
      }
    }

    /** The search of put and del: the path, and the first node whose key is not below k. */
    method Search(k: Bytes) returns (update: seq<Node?>, y: Node?, ghost pred: seq<nat>)
      requires Valid()
      ensures |update| == |pred| == MAX_LEVEL
      ensures forall i :: 0 <= i < level ==> IsPred(hts, pred[i], i, Rank(rows, k) + 1) && update[i] == nodes[pred[i]]
      ensures y == At(nodes, Rank(rows, k) + 1)
      ensures y != null && KeyCmp(y.key, k) == 0 <==> Has(rows, k)
    {
      ghost var t := Rank(rows, k) + 1;
      RankCuts(k);
      var x;
      update, x, pred := Locate(k, t);
      BottomLink(pred[0], t);
      FoundIffHas(k, At(nodes, t));
      y := x.next[0];
    }

    method Get(k: Bytes) returns (found: int, v: Value)
      requires Valid()
      ensures found == if Has(rows, k) then 1 else 0
      ensures Lookup(rows, k) == if found == 1 then Some(v) else None
    {
      RankCuts(k);
      FoundIffHas(k, At(nodes, Rank(rows, k) + 1));
      var x := Seek(k, Rank(rows, k) + 1);
      found, v := 0, [];
      if x != null && KeyCmp(x.key, k) == 0 {
        v := x.val;
        found := 1;
      }
    }

    // ----- insertion -----

    /** Link n in, one level at a time from the bottom: on each level the predecessor's link
        moves to n and n takes over what it pointed to. */
    method Splice(n: Node, update: seq<Node?>, ghost pred: seq<nat>)
      requires Apart(nodes) && n.next.Length == n.level <= |update| == |pred|
      requires n.next !in Arrays(nodes)
      requires forall i :: 0 <= i < n.level ==>
                 pred[i] < |nodes| && update[i] == nodes[pred[i]] && i < nodes[pred[i]].next.Length
      modifies n.next, Arrays(nodes)
      ensures forall i :: 0 <= i < n.level ==> n.next[i] == old(nodes[pred[i]].next[i])
      ensures forall p, i :: 0 <= p < |nodes| && 0 <= i < nodes[p].next.Length ==>
                nodes[p].next[i] == if i < n.level && p == pred[i] then n else old(nodes[p].next[i])
    {
      for k := 0 to n.level
        invariant forall i :: 0 <= i < k ==> n.next[i] == old(nodes[pred[i]].next[i])
        invariant forall p, i :: 0 <= p < |nodes| && 0 <= i < nodes[p].next.Length ==>
                    nodes[p].next[i] == if i < k && p == pred[i] then n else old(nodes[p].next[i])
      {
        assert Alone(nodes, pred[k]);
        n.next[k] := update[k].next[k];
        update[k].next[k] := n;
      }
    }

    /** draw a height and advance the generator */
    method RandLevel() returns (lvl: nat)
      modifies this`rng
      ensures 1 <= lvl <= MAX_LEVEL && rng == Rng.Next(old(rng)) && lvl == Rng.Height(Rng.Value(rng))
    {
      rng := Rng.Next(rng);
      lvl := Rng.DrawHeight(Rng.Value(rng));
    }

    /** Extend the search path to a new top level: above the old one the head is the predecessor. */
    method Raise(lvl: nat, update0: seq<Node?>, ghost pred0: seq<nat>, ghost t: nat)
      returns (update: seq<Node?>, ghost pred: seq<nat>)
      requires Linked() && 0 < t <= |nodes| && 1 <= lvl <= MAX_LEVEL
      requires |update0| == |pred0| == MAX_LEVEL
      requires forall i :: 0 <= i < level ==> IsPred(hts, pred0[i], i, t) && update0[i] == nodes[pred0[i]]
      modifies this`level
      ensures Linked() && level == if lvl > old(level) then lvl else old(level)
      ensures |update| == |pred| == MAX_LEVEL
      ensures forall i :: 0 <= i < lvl ==> IsPred(hts, pred[i], i, t) && update[i] == nodes[pred[i]]
    {
      update, pred := update0, pred0;
      if lvl > level {
        for i := level to lvl
          invariant |update| == |pred| == MAX_LEVEL
          invariant forall j :: 0 <= j < i ==> IsPred(hts, pred[j], j, t) && update[j] == nodes[pred[j]]
        {
          assert Succ(hts, 0, i) == |hts|;
          update := update[i := head];
          pred := pred[i := 0];
        }
        level := lvl;
      }
    }

    /** Make the re-routed node part of the list. */
    method Join(n: Node, update: seq<Node?>, ghost pred: seq<nat>, ghost t: nat)
      requires Linked() && Apart(nodes) && 0 < t <= |nodes| == |rows| + 1
      requires n.next.Length == n.level <= level && 1 <= n.level && n !in nodes && n.next !in Arrays(nodes)
      requires |update| == |pred| == MAX_LEVEL
      requires forall i :: 0 <= i < n.level ==> IsPred(hts, pred[i], i, t) && update[i] == nodes[pred[i]]
      modifies this`nodes, this`hts, this`rows, this`count, this`created, this`Repr, n.next, Arrays(nodes)
      ensures nodes == old(nodes)[..t] + [n] + old(nodes)[t..]
      ensures hts == Insert(old(hts), t, n.level)
      ensures rows == old(rows)[..t - 1] + [Row(n.key, n.val)] + old(rows)[t - 1..]
      ensures count == old(count) + 1 && created == old(created) + {n} && Repr == old(Repr) + {n, n.next}
      ensures Linked() && Apart(nodes)
    {
      ghost var ns, h := nodes, hts;
      forall i | 0 <= i < n.level ensures nodes[pred[i]].next[i] == At(nodes, Succ(hts, pred[i], i)) {
        assert Routed(nodes, hts, pred[i]);
      }
      Splice(n, update, pred);
      nodes := ns[..t] + [n] + ns[t..];
      hts := Insert(h, t, n.level);
      rows := rows[..t - 1] + [Row(n.key, n.val)] + rows[t - 1..];
      created := created + {n};
      Repr := Repr + {n, n.next};
      count := count + 1;
      InsertShape(ns, h, head, level, n, t);
      forall q | 0 <= q < |ns| ensures Rerouted(ns, h, n, pred, q) {
        assert old(Routed(nodes, hts, q));
      }
      RewiredAll(ns, h, n, t, pred);
    }

    /** put of a key already present replaces its value and touches nothing else */
    method Overwrite(y: Node, k: Bytes, v: Value)
      requires Represents() && Has(rows, k) && y == nodes[Rank(rows, k) + 1]
      modifies this`rows, y`val
      ensures Represents() && rows == Upsert(old(rows), k, v)
    {
      y.val := v;
      rows := Upsert(rows, k, v);
      assert Holds(nodes, rows) by {
        assert Alone(nodes, Rank(old(rows), k) + 1);
      }
    }

    /** Draw a height and link a fresh node in at position t. */
    method Grow(k: Bytes, v: Value, update0: seq<Node?>, ghost pred0: seq<nat>, ghost t: nat) returns (n: Node)
      requires Linked() && Apart(nodes) && Tight(hts, level) && 0 < t <= |nodes| == |rows| + 1
      requires |update0| == |pred0| == MAX_LEVEL
      requires forall i :: 0 <= i < level ==> IsPred(hts, pred0[i], i, t) && update0[i] == nodes[pred0[i]]
      modifies this`rng, this`level, this`nodes, this`hts, this`rows, this`count, this`created, this`Repr, Arrays(nodes)
      ensures Linked() && Apart(nodes) && Tight(hts, level)
      ensures fresh(n) && fresh(n.next) && n.key == k && n.val == v
      ensures Grown(old(nodes), old(hts), nodes, hts, t, old(created)) && nodes[t] == n
      ensures rows == old(rows)[..t - 1] + [Row(k, v)] + old(rows)[t - 1..]
      ensures count == old(count) + 1 && created == old(created) + {n} && Repr == old(Repr) + {n, n.next}
      ensures rng == Rng.Next(old(rng)) && hts[t] == Rng.Height(Rng.Value(rng))
    {
      ghost var h, l := hts, level;
      var lvl := RandLevel();
      var update, pred := Raise(lvl, update0, pred0, t);
      n := new Node(lvl, k, v);
      Join(n, update, pred, t);
      InsertTight(h, t, l, lvl);
    }

    /** put of a new key */
    method InsertNew(k: Bytes, v: Value, update: seq<Node?>, ghost pred: seq<nat>, ghost t: nat)
      requires Represents() && 0 < t <= |nodes|
      requires |update| == |pred| == MAX_LEVEL
      requires forall i :: 0 <= i < level ==> IsPred(hts, pred[i], i, t) && update[i] == nodes[pred[i]]
      modifies this, Arrays(nodes)
      ensures Represents() && freed == old(freed) && fresh(Repr - old(Repr))
      ensures rows == old(rows)[..t - 1] + [Row(k, v)] + old(rows)[t - 1..]
      ensures Grown(old(nodes), old(hts), nodes, hts, t, old(created))
      ensures rng == Rng.Next(old(rng)) && hts[t] == Rng.Height(Rng.Value(rng))
    {
      var n := Grow(k, v, update, pred, t);
      InsertHolds(old(nodes), old(rows), old(Repr), n, t);
    }

    /** put with the search done, by whether the candidate holds the key */
    method PutFound(y: Node, k: Bytes, v: Value)
      requires Valid() && Has(rows, k) && y == nodes[Rank(rows, k) + 1]
      modifies Repr
      ensures Valid() && Repr == old(Repr) && rows == Upsert(old(rows), k, v) && freed == old(freed)
      ensures nodes == old(nodes) && hts == old(hts) && level == old(level) && rng == old(rng)
      ensures forall n, i :: n in nodes && 0 <= i < n.next.Length ==> n.next[i] == old(n.next[i])
    {
      UpsertSorted(rows, k, v);
      Overwrite(y, k, v);
    }

    method PutAbsent(k: Bytes, v: Value, update: seq<Node?>, ghost pred: seq<nat>)
      requires Valid() && !Has(rows, k) && |update| == |pred| == MAX_LEVEL
      requires forall i :: 0 <= i < level ==> IsPred(hts, pred[i], i, Rank(rows, k) + 1) && update[i] == nodes[pred[i]]
      modifies Repr
      ensures Valid() && fresh(Repr - old(Repr)) && rows == Upsert(old(rows), k, v) && freed == old(freed)
      ensures Grown(old(nodes), old(hts), nodes, hts, Rank(old(rows), k) + 1, old(created))
      ensures rng == Rng.Next(old(rng)) && hts[Rank(old(rows), k) + 1] == Rng.Height(Rng.Value(rng))
    {
      UpsertSorted(rows, k, v);
      Rng.NextZero(rng);
      InsertNew(k, v, update, pred, Rank(rows, k) + 1);
    }

    method Put(k: Bytes, v: Value) returns (rc: int)
      requires Valid()
      modifies Repr
      ensures Valid() && rc == 0 && fresh(Repr - old(Repr))
      ensures rows == Upsert(old(rows), k, v) && freed == old(freed)
      // a key already present keeps every node, link and height, and draws nothing
      ensures old(Has(rows, k)) ==> nodes == old(nodes) && hts == old(hts) && level == old(level) && rng == old(rng)
      ensures old(Has(rows, k)) ==>
                forall n, i :: n in nodes && 0 <= i < n.next.Length ==> n.next[i] == old(n.next[i])
      // a new key brings one fresh node of the drawn height
      ensures !old(Has(rows, k)) ==> Grown(old(nodes), old(hts), nodes, hts, Rank(old(rows), k) + 1, old(created))
      ensures !old(Has(rows, k)) ==>
                rng == Rng.Next(old(rng)) && hts[Rank(old(rows), k) + 1] == Rng.Height(Rng.Value(rng))
    {
      var update, y, pred := Search(k);
      if y != null && KeyCmp(y.key, k) == 0 {
        PutFound(y, k, v);
      } else {
        PutAbsent(k, v, update, pred);
      }
      rc := 0;
    }

    // ----- deletion -----

    /** Bypass y, the node at position t, on every level its predecessors see it. */
    method Unlink(y: Node, update: seq<Node?>, ghost pred: seq<nat>, ghost t: nat)
      requires t < |nodes| && y == nodes[t] && Apart(nodes) && level <= |update| == |pred|
      requires forall i :: 0 <= i < level ==>
                 pred[i] < |nodes| && pred[i] != t && update[i] == nodes[pred[i]] && i < nodes[pred[i]].next.Length
      requires forall i :: 0 <= i < level && nodes[pred[i]].next[i] == y ==> i < y.next.Length
      modifies Arrays(nodes)
      ensures forall i :: 0 <= i < y.next.Length ==> y.next[i] == old(y.next[i])
      ensures forall p, i :: 0 <= p < |nodes| && p != t && 0 <= i < nodes[p].next.Length ==>
                nodes[p].next[i] ==
                if i < level && p == pred[i] && old(nodes[p].next[i]) == y then old(y.next[i])
                else old(nodes[p].next[i])
    {
      for k := 0 to level
        invariant forall i :: 0 <= i < y.next.Length ==> y.next[i] == old(y.next[i])
        invariant forall p, i :: 0 <= p < |nodes| && p != t && 0 <= i < nodes[p].next.Length ==>
                    nodes[p].next[i] ==
                    if i < k && p == pred[i] && old(nodes[p].next[i]) == y then old(y.next[i])
                    else old(nodes[p].next[i])
      {
        assert Alone(nodes, pred[k]);
        if update[k].next[k] == y {
          update[k].next[k] := y.next[k];
        }
      }
    }

    lemma {:induction false} SeenMeansTall(y: Node, pred: seq<nat>, t: nat)
      requires Linked() && Apart(nodes) && 0 < t < |nodes| && y == nodes[t] && level <= |pred|
      requires forall i :: 0 <= i < level ==> IsPred(hts, pred[i], i, t)
      ensures forall i :: 0 <= i < level ==> pred[i] < |nodes| && i < nodes[pred[i]].next.Length
      ensures forall i :: 0 <= i < level && nodes[pred[i]].next[i] == y ==> i < y.next.Length
    {
      forall i | 0 <= i < level && nodes[pred[i]].next[i] == y ensures i < y.next.Length {
        assert Routed(nodes, hts, pred[i]);
        assert Alone(nodes, t);
      }
    }

    method Bypass(y: Node, update: seq<Node?>, ghost pred: seq<nat>, ghost t: nat)
      requires Linked() && Apart(nodes) && 0 < t < |nodes| && y == nodes[t]
      requires |update| == |pred| == MAX_LEVEL
      requires forall i :: 0 <= i < level ==> IsPred(hts, pred[i], i, t) && update[i] == nodes[pred[i]]
      modifies Arrays(nodes)
      ensures forall q :: 0 <= q < |nodes| && q != t ==> Bypassed(nodes, hts, t, q)
    {
      SeenMeansTall(y, pred, t);
      Unlink(y, update, pred, t);
      forall q | 0 <= q < |nodes| && q != t ensures Bypassed(nodes, hts, t, q) {
        assert old(Routed(nodes, hts, q));
        assert old(Routed(nodes, hts, t));
        BypassOne(nodes, hts, level, pred, t, q, old(nodes[q].next[..]), old(nodes[t].next[..]));
      }
    }

    /** Take y out of the list and hand it back to the allocator. */
    method Detach(y: Node, update: seq<Node?>, ghost pred: seq<nat>, ghost t: nat)
      requires Linked() && Apart(nodes) && 0 < t < |nodes| == |rows| + 1 && y == nodes[t]
      requires |update| == |pred| == MAX_LEVEL
      requires forall i :: 0 <= i < level ==> IsPred(hts, pred[i], i, t) && update[i] == nodes[pred[i]]
      modifies this`nodes, this`hts, this`rows, this`count, this`freed, Arrays(nodes)
      ensures nodes == old(nodes)[..t] + old(nodes)[t + 1..]
      ensures hts == Delete(old(hts), t)
      ensures rows == old(rows)[..t - 1] + old(rows)[t..]
      ensures count == old(count) - 1 && freed == old(freed) + {y}
      ensures Linked() && Apart(nodes)
    {
      ghost var ns, h := nodes, hts;
      Bypass(y, update, pred, t);
      UnwiredAll(ns, h, t);
      DeleteShape(ns, h, head, level, t);
      nodes := ns[..t] + ns[t + 1..];
      hts := Delete(h, t);
      rows := rows[..t - 1] + rows[t..];
      freed := freed + {y};
      count := count - 1;
    }

    /** Lower the level while its top link is empty. */
    method Shrink()
      requires Linked()
      modifies this`level
      ensures Linked() && Tight(hts, level) && level <= old(level)
    {
      var lvl := level;
      assert Routed(nodes, hts, 0);
      while lvl > 1 && head.next[lvl - 1] == null
        invariant 1 <= lvl <= level
        invariant forall p :: 0 < p < |hts| ==> hts[p] <= lvl
      {
        assert Routed(nodes, hts, 0);
        lvl := lvl - 1;
      }
      assert Routed(nodes, hts, 0);
      level := lvl;
    }

    /** del of a key that is present */
    method RemoveAt(y: Node, update: seq<Node?>, ghost pred: seq<nat>, ghost t: nat)
      requires Represents() && 0 < t < |nodes| && y == nodes[t]
      requires |update| == |pred| == MAX_LEVEL
      requires forall i :: 0 <= i < level ==> IsPred(hts, pred[i], i, t) && update[i] == nodes[pred[i]]
      modifies this`level, this`nodes, this`hts, this`rows, this`count, this`freed, Arrays(nodes)
      ensures Represents() && freed == old(freed) + {y}
      ensures nodes == old(nodes)[..t] + old(nodes)[t + 1..]
      ensures hts == Delete(old(hts), t)
      ensures rows == old(rows)[..t - 1] + old(rows)[t..]
    {
      Detach(y, update, pred, t);
      Shrink();
      DeleteHolds(old(nodes), old(rows), Repr, t);
    }

    /** The node at position t is gone and every other stays in place. */
    ghost predicate Shrunk(ns: seq<Node>, t: nat)
      reads this
    {
      0 < t < |ns| && nodes == ns[..t] + ns[t + 1..]
    }

    method Del(k: Bytes) returns (rc: int)
      requires Valid()
      modifies Repr
      ensures Valid() && Repr == old(Repr) && rng == old(rng)
      ensures rc == if old(Has(rows, k)) then 1 else 0
      ensures rows == Remove(old(rows), k)
      // a missing key changes nothing
      ensures rc == 0 ==> nodes == old(nodes) && hts == old(hts) && level == old(level) && freed == old(freed)
      ensures rc == 0 ==> forall n, i :: n in nodes && 0 <= i < n.next.Length ==> n.next[i] == old(n.next[i])
      // a present one gives back exactly its own node
      ensures rc == 1 ==> Shrunk(old(nodes), Rank(old(rows), k) + 1) && freed == old(freed) + {old(nodes)[Rank(old(rows), k) + 1]}
    {
      RemoveSorted(rows, k);
      var update, y, pred := Search(k);
      if y == null || KeyCmp(y.key, k) != 0 {
        return 0;
      }
      RemoveAt(y, update, pred, Rank(rows, k) + 1);
      rc := 1;
    }

    /** Walk level 0 from position a + 1 and hand out the selected rows until one stops the scan. */
    method Deliver(from: Node?, hi: Bytes, limit: int, stop: StopRule, ghost a: nat, ghost b: nat, ghost sel: seq<Row>)
      returns (n: nat, out: seq<Row>)
      requires Linked() && Holds(nodes, rows) && Cut(hi, b + 1)
      requires a <= |rows| && from == At(nodes, a + 1)
      requires b <= |rows| && sel == Limited(Slice(rows, a, b), limit)
      ensures out == CutAtStop([], sel, stop)
      ensures n == |out| - if Stopped(out, stop) then 1 else 0
    {
      var x := from;
      n, out := 0, [];
      ScanStarts(sel, stop);
      while x != null && (limit <= 0 || n < limit)
        invariant n == |out| && Halfway(sel, stop, out)
        invariant a + n < |nodes| && x == At(nodes, a + n + 1)
        decreases |nodes| - n
      {
        if KeyCmp(x.key, hi) >= 0 { break; }
        SelectedNext(rows, a, b, limit, n, sel);
        ScanGoesOn(sel, stop, out);
        out := out + [Row(x.key, x.val)];
        if stop(out) { return; }
        n := n + 1;
        assert Routed(nodes, hts, a + n);
        x := x.next[0];
      }
      SelectedAll(rows, a, b, limit, n, sel);
      ScanEnds(sel, stop, out);
    }

    /** The rows handed to the callback, and the count the engine reports. */
    method Range(lo: Bytes, hi: Bytes, limit: int, stop: StopRule) returns (n: nat, out: seq<Row>)
      requires Valid()
      ensures out == Delivered(rows, lo, hi, limit, stop)
      ensures n == |out| - if Stopped(out, stop) then 1 else 0
    {
      RankCuts(lo);
      RankCuts(hi);
      WindowIsSlice(rows, lo, hi);
      var x := Seek(lo, Rank(rows, lo) + 1);
      n, out := Deliver(x, hi, limit, stop, Rank(rows, lo), Rank(rows, hi), Limited(Window(rows, lo, hi), limit));
    }

    /** Reading a link takes a node that has not been freed. */
    method ReadNext(x: Node) returns (next: Node?)
      requires x !in freed && x.next.Length > 0
      ensures next == x.next[0]
    {
      next := x.next[0];
    }

    /** So does freeing one. */
    method Free(x: Node)
      requires x !in freed
      modifies this`freed
      ensures freed == old(freed) + {x}
    {
      freed := freed + {x};
    }

    lemma {:induction false} NextNode(p: nat)
      requires Linked() && p < |nodes|
      ensures nodes[p].next.Length > 0 && nodes[p].next[0] == At(nodes, p + 1)
    {
      assert Routed(nodes, hts, p);
      assert Succ(hts, p, 0) == p + 1;
    }

    /** Frees the nodes in order and the head last, each once and after its last read; of all nodes ever
        allocated none is left behind. */
    method Close() returns (ghost order: seq<Node>)
      requires Valid()
      modifies this`freed
      ensures order == nodes[1..] + [head]
      ensures freed == created && forall n :: n in order ==> n !in old(freed)
    {
      NextNode(0);
      assert Alone(nodes, 0);
      order := [];
      var x := ReadNext(head);
      while x != null
        invariant |order| < |nodes| && x == At(nodes, |order| + 1) && order == nodes[1..|order| + 1]
        invariant forall n :: n in freed <==> n in old(freed) || n in order
        decreases |nodes| - |order|
      {
        ghost var p := |order| + 1;
        NextNode(p);
        assert Alone(nodes, p);
        var nx := ReadNext(x);
        Free(x);
        order := order + [x];
        x := nx;
      }
      assert nodes == [head] + order;
      Free(head);
      order := order + [head];
    }

    /** On every level in use, following the links from the head visits the nodes taller than that level,
        all of them, in level-0 order. */
    lemma {:induction false} LevelList(i: nat)
      requires Valid() && i < MAX_LEVEL
      ensures Follows(head, i, Taller(nodes[1..], i))
    {
      assert Routed(nodes, hts, 0);
      LevelFrom(nodes, hts, 0, i);
    }

    /** The level is exact: its top link is in use, and every link above it is empty. */
    lemma {:induction false} LevelExact()
      requires Valid()
      ensures level == 1 || head.next[level - 1] != null
      ensures forall i :: level <= i < MAX_LEVEL ==> head.next[i] == null
    {
      assert Routed(nodes, hts, 0);
      if level != 1 {
        var p :| 0 < p < |hts| && hts[p] == level;
        assert Succ(hts, 0, level - 1) <= p;
      }
    }
  }

  lemma {:induction false} TallerSkips(ns: seq<Node>, h: seq<nat>, p: nat, r: nat, i: nat)
    requires |ns| == |h| && p < r <= |ns| && forall q :: 0 <= q < |ns| ==> ns[q].level == h[q]
    requires forall q :: p < q < r ==> h[q] <= i
    ensures Taller(ns[p + 1..], i) == Taller(ns[r..], i)
    decreases r - p
  {
    if p + 1 < r {
      TallerSkips(ns, h, p + 1, r, i);
      assert ns[p + 1..][1..] == ns[p + 2..] && ns[p + 1..][0] == ns[p + 1];
    }
  }

  lemma {:induction false} LevelFrom(ns: seq<Node>, h: seq<nat>, p: nat, i: nat)
    requires |ns| == |h| && p < |ns| && i < h[p]
    requires forall q :: 0 <= q < |ns| ==> ns[q].next.Length == ns[q].level == h[q]
    requires forall q :: 0 <= q < |ns| ==> Routed(ns, h, q)
    ensures Follows(ns[p], i, Taller(ns[p + 1..], i))
    decreases |ns| - p
  {
    var r := Succ(h, p, i);
    assert Routed(ns, h, p);
    TallerSkips(ns, h, p, r, i);
    if r < |ns| {
      LevelFrom(ns, h, r, i);
      assert ns[r..][0] == ns[r] && ns[r..][1..] == ns[r + 1..];
      assert Taller(ns[r..], i) == [ns[r]] + Taller(ns[r + 1..], i);
    } else {
      assert ns[r..] == [];
    }
  }

  lemma {:induction false} DeleteHolds(ns: seq<Node>, rows: seq<Row>, repr: set<object>, t: nat)
    requires Owned(ns, repr) && Holds(ns, rows) && 0 < t < |ns| && Apart(ns)
    ensures Holds(ns[..t] + ns[t + 1..], rows[..t - 1] + rows[t..])
    ensures NodeSet(ns[..t] + ns[t + 1..]) == NodeSet(ns) - {ns[t]}
    ensures Owned(ns[..t] + ns[t + 1..], repr)
  {
    var ns' := ns[..t] + ns[t + 1..];
    var rows' := rows[..t - 1] + rows[t..];
    forall p | 0 < p < |ns'| ensures rows'[p - 1] == Row(ns'[p].key, ns'[p].val) {
      if p >= t { assert ns'[p] == ns[p + 1] && rows'[p - 1] == rows[p]; }
    }
    assert ns == ns[..t] + [ns[t]] + ns[t + 1..];
    assert Alone(ns, t);
  }

  lemma {:induction false} InsertTight(h: seq<nat>, t: nat, level: nat, l: nat)
    requires Tight(h, level) && t <= |h| && 0 < t
    ensures Tight(Insert(h, t, l), if l > level then l else level)
  {
    var h' := Insert(h, t, l);
    assert h'[t] == l;
    if l <= level && level != 1 {
      var p :| 0 < p < |h| && h[p] == level;
      assert h'[Up(p, t)] == level;
    }
  }

  lemma {:induction false} InsertHolds(ns: seq<Node>, rows: seq<Row>, repr: set<object>, n: Node, t: nat)
    requires Owned(ns, repr) && Holds(ns, rows) && 0 < t <= |ns|
    ensures Holds(ns[..t] + [n] + ns[t..], rows[..t - 1] + [Row(n.key, n.val)] + rows[t - 1..])
    ensures NodeSet(ns[..t] + [n] + ns[t..]) == NodeSet(ns) + {n}
    ensures Owned(ns[..t] + [n] + ns[t..], repr + {n, n.next})
  {
    var ns' := ns[..t] + [n] + ns[t..];
    var rows' := rows[..t - 1] + [Row(n.key, n.val)] + rows[t - 1..];
    forall p | 0 < p < |ns'| ensures rows'[p - 1] == Row(ns'[p].key, ns'[p].val) {
      if p > t { assert ns'[p] == ns[p - 1] && rows'[p - 1] == rows[p - 2]; }
    }
    assert ns == ns[..t] + ns[t..];
  }

  // ----- the links after a deletion -----

  /** The q-th node's links lead where they did, except that the t-th node is skipped. */
  ghost predicate Bypassed(ns: seq<Node>, h: seq<nat>, t: nat, q: nat)
    requires |ns| == |h| && t < |ns| && q < |ns| && ns[q].next.Length == h[q]
    reads ns[q].next
  {
    forall i :: 0 <= i < h[q] ==>
      ns[q].next[i] == At(ns, if Succ(h, q, i) == t then Succ(h, t, i) else Succ(h, q, i))
  }

  /** was and ys are the links the q-th and the t-th node had before the bypass. */
  lemma {:induction false} BypassOne(ns: seq<Node>, h: seq<nat>, level: nat, pred: seq<nat>, t: nat, q: nat, was: seq<Node?>, ys: seq<Node?>)
    requires |ns| == |h| && t < |ns| && q < |ns| && q != t && ns[q].next.Length == h[q] == |was| && h[t] == |ys|
    requires Alone(ns, t) && level <= |pred| && h[t] <= level
    requires forall j :: 0 <= j < level ==> IsPred(h, pred[j], j, t)
    requires forall i :: 0 <= i < h[q] ==> was[i] == At(ns, Succ(h, q, i))
    requires forall i :: 0 <= i < h[t] ==> ys[i] == At(ns, Succ(h, t, i))
    requires forall i :: 0 <= i < h[q] ==>
               ns[q].next[i] ==
               if i < level && q == pred[i] && was[i] == ns[t] then (if i < h[t] then ys[i] else null) else was[i]
    ensures Bypassed(ns, h, t, q)
  {
    forall i | 0 <= i < h[q]
      ensures ns[q].next[i] == At(ns, if Succ(h, q, i) == t then Succ(h, t, i) else Succ(h, q, i))
    {
      var s := Succ(h, q, i);
      assert was[i] == At(ns, s);
      if s == t {
        OnlyPredSees(h, level, pred, t, q, i);
      }
    }
  }

  lemma {:induction false} UnwiredOne(ns: seq<Node>, h: seq<nat>, t: nat, q: nat)
    requires |ns| == |h| && t < |ns| && q < |ns| && q != t && ns[q].next.Length == h[q]
    requires Bypassed(ns, h, t, q)
    ensures var ns' := ns[..t] + ns[t + 1..]; var h' := Delete(h, t);
            var p := Down(q, t); ns'[p] == ns[q] && h'[p] == h[q] && Routed(ns', h', p)
  {
    forall i | 0 <= i < h[q]
      ensures ns[q].next[i] == At(ns[..t] + ns[t + 1..], Succ(Delete(h, t), Down(q, t), i))
    {
      SuccDelete(h, t, q, i);
    }
  }

  lemma {:induction false} UnwiredAll(ns: seq<Node>, h: seq<nat>, t: nat)
    requires |ns| == |h| && t < |h|
    requires forall q :: 0 <= q < |ns| ==> ns[q].next.Length == h[q]
    requires forall q :: 0 <= q < |ns| && q != t ==> Bypassed(ns, h, t, q)
    ensures var ns' := ns[..t] + ns[t + 1..]; var h' := Delete(h, t);
            forall p :: 0 <= p < |ns'| ==> ns'[p].next.Length == h'[p] && Routed(ns', h', p)
  {
    var ns' := ns[..t] + ns[t + 1..];
    var h' := Delete(h, t);
    forall p | 0 <= p < |ns'| ensures ns'[p].next.Length == h'[p] && Routed(ns', h', p) {
      UnwiredOne(ns, h, t, if p < t then p else p + 1);
    }
  }

  lemma {:induction false} DeleteShape(ns: seq<Node>, h: seq<nat>, head: Node, level: nat, t: nat)
    requires Shaped(ns, h, head, level) && Apart(ns) && 0 < t < |ns|
    ensures Shaped(ns[..t] + ns[t + 1..], Delete(h, t), head, level) && Apart(ns[..t] + ns[t + 1..])
  {
    var ns' := ns[..t] + ns[t + 1..];
    forall p | 0 <= p < |ns'| ensures Alone(ns', p) {
      assert Alone(ns, if p < t then p else p + 1);
      forall q | 0 <= q < |ns'| && q != p ensures ns'[q] != ns'[p] && ns'[q].next != ns'[p].next {
        assert ns'[q] == if q < t then ns[q] else ns[q + 1];
      }
    }
  }

  /** Where each old link leads in the list with n inserted at t. */
  lemma {:induction false} InsertTarget(ns: seq<Node>, h: seq<nat>, n: Node, l: nat, t: nat, pred: seq<nat>, p: nat, i: nat)
    requires |ns| == |h| && t <= |h| && l <= |pred|
    requires i < l ==> IsPred(h, pred[i], i, t)
    requires p < |h| && i < h[p]
    ensures At(ns[..t] + [n] + ns[t..], Succ(Insert(h, t, l), Up(p, t), i)) ==
            if i < l && p == pred[i] then n else At(ns, Succ(h, p, i))
  {
    if i < l {
      SuccInsert(h, t, l, pred[i], p, i);
    } else {
      SuccInsertAbove(h, t, l, p, i);
    }
  }

  lemma {:induction false} InsertOwnTarget(ns: seq<Node>, h: seq<nat>, n: Node, l: nat, t: nat, p: nat, i: nat)
    requires |ns| == |h| && IsPred(h, p, i, t)
    ensures At(ns[..t] + [n] + ns[t..], Succ(Insert(h, t, l), t, i)) == At(ns, Succ(h, p, i))
  {
    SuccInsert(h, t, l, p, p, i);
  }

  /** The q-th node's links lead where they did, except that on levels below n's height the
      predecessor's link leads to n. */
  ghost predicate Rerouted(ns: seq<Node>, h: seq<nat>, n: Node, pred: seq<nat>, q: nat)
    requires |ns| == |h| && q < |ns| && ns[q].next.Length == h[q] && n.level <= |pred|
    reads ns[q].next
  {
    forall i :: 0 <= i < h[q] ==>
      ns[q].next[i] == if i < n.level && q == pred[i] then n else At(ns, Succ(h, q, i))
  }

  lemma {:induction false} RewiredOne(ns: seq<Node>, h: seq<nat>, n: Node, t: nat, pred: seq<nat>, q: nat)
    requires |ns| == |h| && t <= |h| && n.level <= |pred| && n.next.Length == n.level
    requires forall i :: 0 <= i < n.level ==> IsPred(h, pred[i], i, t)
    requires q < |ns| && ns[q].next.Length == h[q]
    requires Rerouted(ns, h, n, pred, q)
    ensures var ns' := ns[..t] + [n] + ns[t..]; var h' := Insert(h, t, n.level);
            var p := Up(q, t); ns'[p] == ns[q] && h'[p] == h[q] && Routed(ns', h', p)
  {
    forall i | 0 <= i < h[q]
      ensures ns[q].next[i] == At(ns[..t] + [n] + ns[t..], Succ(Insert(h, t, n.level), Up(q, t), i))
    {
      InsertTarget(ns, h, n, n.level, t, pred, q, i);
    }
  }

  lemma {:induction false} RewiredNew(ns: seq<Node>, h: seq<nat>, n: Node, t: nat, pred: seq<nat>)
    requires |ns| == |h| && t <= |h| && n.level <= |pred| && n.next.Length == n.level
    requires forall i :: 0 <= i < n.level ==> IsPred(h, pred[i], i, t) && n.next[i] == At(ns, Succ(h, pred[i], i))
    ensures Routed(ns[..t] + [n] + ns[t..], Insert(h, t, n.level), t)
  {
    forall i | 0 <= i < n.level
      ensures n.next[i] == At(ns[..t] + [n] + ns[t..], Succ(Insert(h, t, n.level), t, i))
    {
      InsertOwnTarget(ns, h, n, n.level, t, pred[i], i);
    }
  }

  lemma {:induction false} RewiredAll(ns: seq<Node>, h: seq<nat>, n: Node, t: nat, pred: seq<nat>)
    requires |ns| == |h| && t <= |h| && n.level <= |pred| && n.next.Length == n.level
    requires forall q :: 0 <= q < |ns| ==> ns[q].next.Length == h[q]
    requires forall i :: 0 <= i < n.level ==> IsPred(h, pred[i], i, t) && n.next[i] == At(ns, Succ(h, pred[i], i))
    requires forall q :: 0 <= q < |ns| ==> Rerouted(ns, h, n, pred, q)
    ensures var ns' := ns[..t] + [n] + ns[t..]; var h' := Insert(h, t, n.level);
            forall p :: 0 <= p < |ns'| ==> ns'[p].next.Length == h'[p] && Routed(ns', h', p)
  {
    var ns' := ns[..t] + [n] + ns[t..];
    var h' := Insert(h, t, n.level);
    forall p | 0 <= p < |ns'| ensures ns'[p].next.Length == h'[p] && Routed(ns', h', p) {
      if p == t {
        RewiredNew(ns, h, n, t, pred);
      } else {
        RewiredOne(ns, h, n, t, pred, if p < t then p else p - 1);
      }
    }
  }

  lemma {:induction false} InsertShape(ns: seq<Node>, h: seq<nat>, head: Node, level: nat, n: Node, t: nat)
    requires Shaped(ns, h, head, level) && Apart(ns) && 0 < t <= |ns|
    requires n.next.Length == n.level && 1 <= n.level <= level
    requires n !in ns && n.next !in Arrays(ns)
    ensures var ns' := ns[..t] + [n] + ns[t..]; var h' := Insert(h, t, n.level);
            Shaped(ns', h', head, level) && Apart(ns')
  {
    var ns' := ns[..t] + [n] + ns[t..];
    forall p | 0 <= p < |ns'| ensures Alone(ns', p) {
      if p != t { assert Alone(ns, if p < t then p else p - 1); }
      forall q | 0 <= q < |ns'| && q != p ensures ns'[q] != ns'[p] && ns'[q].next != ns'[p].next {
        assert ns'[q] == if q < t then ns[q] else if q == t then n else ns[q - 1];
      }
    }
  }
}
