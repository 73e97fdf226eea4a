/**
 The process tree: one pass over the process table builds a map from parents to children, and a queue then
 visits the descendants of a process breadth first, hanging each under its parent.
 */
module ProcessTree {

  type Pid = nat

  // The children of each process, in the order of the process table
  type Table = map<Pid, seq<Pid>>

  datatype Tree = Tree(pid: Pid, kids: seq<Tree>)

  datatype Option<T> = None | Some(value: T)

  function Children(m: Table, p: Pid): seq<Pid> {
    if p in m then m[p] else []
  }

  // Children rank below their parents
  ghost predicate Acyclic(m: Table, rank: Pid -> nat) {
    forall p, c :: p in m && c in m[p] ==> rank(c) < rank(p)
  }

  /******* The process table *******/

  // An entry is a process and its parent, or nothing if its status could not be read or parsed
  type Entry = Option<(Pid, Pid)>

  function ChildrenIn(entries: seq<Entry>, p: Pid): seq<Pid> {
    if entries == [] then []
    else
      var e := entries[|entries| - 1];
      ChildrenIn(entries[..|entries| - 1], p) + if e.Some? && e.value.1 == p then [e.value.0] else []
  }

  // The i-th entry is a process with the parent p that is to be kept
  ghost predicate Gives(entries: seq<Entry>, keep: Pid -> bool, p: Pid, i: nat) {
    i < |entries| && entries[i].Some? && entries[i].value.1 == p && keep(entries[i].value.0)
  }

  // kids are the processes that such entries give; at says which entry each comes from
  ghost predicate PicksAt(entries: seq<Entry>, keep: Pid -> bool, p: Pid, kids: seq<Pid>, at: seq<nat>) {
    && |at| == |kids|
    && (forall k :: 0 <= k < |at| ==> Gives(entries, keep, p, at[k]) && entries[at[k]].value.0 == kids[k])
    && (forall k, l :: 0 <= k < l < |at| ==> at[k] < at[l])
    && (forall i :: Gives(entries, keep, p, i) ==> i in at)
  }

  // All of them, none twice, in the order of the entries
  ghost predicate Picks(entries: seq<Entry>, keep: Pid -> bool, p: Pid, kids: seq<Pid>) {
    exists at :: PicksAt(entries, keep, p, kids, at)
  }

  const ALL: Pid -> bool := (x: Pid) => true

  lemma GivesBefore(entries: seq<Entry>, keep: Pid -> bool, p: Pid, i: nat)
    requires i < |entries| - 1
    ensures Gives(entries, keep, p, i) <==> Gives(entries[..|entries| - 1], keep, p, i)
  {
  }

  // The last entry gives one more
  lemma PickMore(entries: seq<Entry>, keep: Pid -> bool, p: Pid, kids: seq<Pid>, at: seq<nat>)
    requires entries != [] && PicksAt(entries[..|entries| - 1], keep, p, kids, at) && Gives(entries, keep, p, |entries| - 1)
    ensures PicksAt(entries, keep, p, kids + [entries[|entries| - 1].value.0], at + [|entries| - 1])
  {
    var n := |entries| - 1;
    var before, at' := entries[..n], at + [n];
    var kids' := kids + [entries[n].value.0];
    forall k | 0 <= k < |at'| ensures Gives(entries, keep, p, at'[k]) && entries[at'[k]].value.0 == kids'[k] {
      if k < |at| { assert Gives(before, keep, p, at[k]); }
    }
    forall i: nat | Gives(entries, keep, p, i) ensures i in at' {
      if i < n {
        GivesBefore(entries, keep, p, i);
        assert i in at;
      } else {
        assert at'[|at|] == i;
      }
    }
  }

  // The last entry gives none
  lemma PickSame(entries: seq<Entry>, keep: Pid -> bool, p: Pid, kids: seq<Pid>, at: seq<nat>)
    requires entries != [] && PicksAt(entries[..|entries| - 1], keep, p, kids, at) && !Gives(entries, keep, p, |entries| - 1)
    ensures PicksAt(entries, keep, p, kids, at)
  {
    var n := |entries| - 1;
    forall k | 0 <= k < |at| ensures Gives(entries, keep, p, at[k]) && entries[at[k]].value.0 == kids[k] {
      assert Gives(entries[..n], keep, p, at[k]);
    }
    forall i: nat | Gives(entries, keep, p, i) ensures i in at {
      assert i != n;
      GivesBefore(entries, keep, p, i);
    }
  }

  lemma PickNext(entries: seq<Entry>, keep: Pid -> bool, p: Pid, kids: seq<Pid>)
    requires entries != [] && Picks(entries[..|entries| - 1], keep, p, kids)
    ensures Picks(entries, keep, p, kids + if Gives(entries, keep, p, |entries| - 1) then [entries[|entries| - 1].value.0] else [])
  {
    var n := |entries| - 1;
    var at :| PicksAt(entries[..n], keep, p, kids, at);
    if Gives(entries, keep, p, n) {
      PickMore(entries, keep, p, kids, at);
    } else {
      PickSame(entries, keep, p, kids, at);
      assert kids + [] == kids;
    }
  }

  function Kept(ps: seq<Pid>, keep: Pid -> bool): seq<Pid> {
    if ps == [] then [] else (if keep(ps[0]) then [ps[0]] else []) + Kept(ps[1..], keep)
  }

  // One more at the end
  lemma {:induction false} KeptSnoc(a: seq<Pid>, x: Pid, keep: Pid -> bool)
    ensures Kept(a + [x], keep) == Kept(a, keep) + if keep(x) then [x] else []
  {
    if a == [] {
      assert a + [x] == [x] && Kept([x][1..], keep) == [];
    } else {
      assert (a + [x])[0] == a[0] && (a + [x])[1..] == a[1..] + [x];
      KeptSnoc(a[1..], x, keep);
    }
  }

  lemma {:induction false} KeptArePicked(entries: seq<Entry>, keep: Pid -> bool, p: Pid)
    ensures Picks(entries, keep, p, Kept(ChildrenIn(entries, p), keep))
  {
    if entries == [] {
      assert PicksAt(entries, keep, p, [], []);
    } else {
      var n := |entries| - 1;
      var kids := ChildrenIn(entries[..n], p);
      KeptArePicked(entries[..n], keep, p);
      PickNext(entries, keep, p, Kept(kids, keep));
      if entries[n].Some? && entries[n].value.1 == p {
        KeptSnoc(kids, entries[n].value.0, keep);
      } else {
        assert kids + [] == kids && Kept(kids, keep) + [] == Kept(kids, keep);
      }
    }
  }

  lemma {:induction false} KeptAll(ps: seq<Pid>)
    ensures Kept(ps, ALL) == ps
  {
    if ps != [] { KeptAll(ps[1..]); }
  }

  lemma ChildrenArePicked(entries: seq<Entry>, p: Pid)
    ensures Picks(entries, ALL, p, ChildrenIn(entries, p))
  {
    KeptArePicked(entries, ALL, p);
    KeptAll(ChildrenIn(entries, p));
  }

  // Nothing if the context is cancelled before the scan is over
  method BuildTable(entries: seq<Entry>, cancelled: nat -> bool) returns (r: Option<Table>)
    ensures r.None? <==> exists i :: 0 <= i < |entries| && cancelled(i)
    ensures r.Some? ==> forall p :: Children(r.value, p) == ChildrenIn(entries, p)
    ensures r.Some? ==> forall p :: Picks(entries, ALL, p, Children(r.value, p))
  {
    var m: Table := map[];
    for i := 0 to |entries|
      invariant forall k :: 0 <= k < i ==> !cancelled(k)
      invariant forall p :: Children(m, p) == ChildrenIn(entries[..i], p)
    {
      if cancelled(i) {
        return None;
      }
      assert entries[..i + 1][..i] == entries[..i];
      var e := entries[i];
      if e.Some? {
        var (pid, ppid) := e.value;
        m := m[ppid := Children(m, ppid) + [pid]];
      }
    }
    assert entries[..|entries|] == entries;
    r := Some(m);
    forall p ensures Picks(entries, ALL, p, Children(m, p)) {
      ChildrenArePicked(entries, p);
      assert Children(m, p) == ChildrenIn(entries, p);
    }
  }

  // Every process has one parent, and is listed under it once
  ghost predicate OneParent(m: Table) {
    forall p: Pid, q: Pid, i, j | 0 <= i < |Children(m, p)| && 0 <= j < |Children(m, q)| ::
      Children(m, p)[i] == Children(m, q)[j] ==> p == q && i == j
  }

  predicate Distinct(entries: seq<Entry>) {
    forall i, j :: 0 <= i < j < |entries| && entries[i].Some? && entries[j].Some? ==> entries[i].value.0 != entries[j].value.0
  }

  lemma {:induction false} ListedUnderParent(entries: seq<Entry>, p: Pid, x: Pid)
    requires x in ChildrenIn(entries, p)
    ensures exists i :: 0 <= i < |entries| && entries[i] == Some((x, p))
  {
    var n := |entries| - 1;
    if entries[n] != Some((x, p)) {
      ListedUnderParent(entries[..n], p, x);
    }
  }

  lemma {:induction false} ListedOnce(entries: seq<Entry>, p: Pid, q: Pid, i: nat, j: nat)
    requires Distinct(entries)
    requires i < |ChildrenIn(entries, p)| && j < |ChildrenIn(entries, q)|
    requires ChildrenIn(entries, p)[i] == ChildrenIn(entries, q)[j]
    ensures p == q && i == j
  {
    var n := |entries| - 1;
    var before, x := entries[..n], ChildrenIn(entries, p)[i];
    if i < |ChildrenIn(before, p)| && j < |ChildrenIn(before, q)| {
      ListedOnce(before, p, q, i, j);
    } else if i < |ChildrenIn(before, p)| {
      ListedUnderParent(before, p, x);
    } else if j < |ChildrenIn(before, q)| {
      ListedUnderParent(before, q, x);
    }
  }

  /******* The recursive walk *******/

  // The tree below p; a process that cannot be read is dropped with everything below it
  ghost function Walk(m: Table, fills: Pid -> bool, p: Pid, rank: Pid -> nat): Tree
    requires Acyclic(m, rank)
    decreases rank(p), 1, 0
  {
    Tree(p, WalkAll(m, fills, Children(m, p), rank, rank(p)))
  }

  ghost function WalkAll(m: Table, fills: Pid -> bool, ps: seq<Pid>, rank: Pid -> nat, bound: nat): seq<Tree>
    requires Acyclic(m, rank) && forall c :: c in ps ==> rank(c) < bound
    decreases bound, 0, |ps|
  {
    if ps == [] then []
    else (if fills(ps[0]) then [Walk(m, fills, ps[0], rank)] else []) + WalkAll(m, fills, ps[1..], rank, bound)
  }

  lemma WalkFirst(m: Table, fills: Pid -> bool, p: Pid, ps: seq<Pid>, rank: Pid -> nat, bound: nat)
    requires Acyclic(m, rank) && forall c :: c in [p] + ps ==> rank(c) < bound
    ensures forall c :: c in ps ==> rank(c) < bound
    ensures WalkAll(m, fills, [p] + ps, rank, bound)
         == (if fills(p) then [Walk(m, fills, p, rank)] else []) + WalkAll(m, fills, ps, rank, bound)
  {
    assert ([p] + ps)[1..] == ps;
    assert forall c :: c in ps ==> c in [p] + ps;
  }

  /******* The queue *******/

  // Nodes are numbered as they are made; the children of a node have higher numbers
  datatype Node = Node(pid: Pid, kids: seq<nat>)

  datatype Pending = Pending(pid: Pid, parent: nat)

  // The processes waiting to be hung under node r, in order
  function WaitingFor(queue: seq<Pending>, r: nat): seq<Pid> {
    if queue == [] then []
    else (if queue[0].parent == r then [queue[0].pid] else []) + WaitingFor(queue[1..], r)
  }

  predicate Linked(nodes: seq<Node>) {
    forall r, i :: 0 <= r < |nodes| && 0 <= i < |nodes[r].kids| ==> r < nodes[r].kids[i] < |nodes|
  }

  ghost predicate Waiting(m: Table, nodes: seq<Node>, queue: seq<Pending>) {
    forall q :: q in queue ==> q.parent < |nodes| && q.pid in Children(m, nodes[q.parent].pid)
  }

  // The tree of the nodes as they are
  function Built(nodes: seq<Node>, r: nat): Tree
    requires r < |nodes| && Linked(nodes)
    decreases |nodes| - r, 1, 0
  {
    Tree(nodes[r].pid, BuiltAll(nodes, r, 0))
  }

  // The trees of the children of r from the i-th on
  function BuiltAll(nodes: seq<Node>, r: nat, i: nat): (ts: seq<Tree>)
    requires r < |nodes| && Linked(nodes) && i <= |nodes[r].kids|
    ensures |ts| == |nodes[r].kids| - i
    ensures forall k :: 0 <= k < |ts| ==> ts[k] == Built(nodes, nodes[r].kids[i + k])
    decreases |nodes| - r, 0, |nodes[r].kids| - i
  {
    if i == |nodes[r].kids| then [] else [Built(nodes, nodes[r].kids[i])] + BuiltAll(nodes, r, i + 1)
  }

  // The tree of node r once everything that waits below it has been walked
  ghost predicate Promises(m: Table, fills: Pid -> bool, rank: Pid -> nat, nodes: seq<Node>, queue: seq<Pending>, r: nat, t: Tree)
    requires Acyclic(m, rank) && Waiting(m, nodes, queue)
    decreases t
  {
    && r < |nodes| && t.pid == nodes[r].pid
    && |nodes[r].kids| <= |t.kids|
    && (forall i :: 0 <= i < |nodes[r].kids| ==> Promises(m, fills, rank, nodes, queue, nodes[r].kids[i], t.kids[i]))
    && t.kids[|nodes[r].kids|..] == Walked(m, fills, rank, nodes, queue, r)
  }

  ghost function Walked(m: Table, fills: Pid -> bool, rank: Pid -> nat, nodes: seq<Node>, queue: seq<Pending>, r: nat): seq<Tree>
    requires Acyclic(m, rank) && Waiting(m, nodes, queue) && r < |nodes|
  {
    WaitingRanks(m, rank, nodes, queue, r);
    WalkAll(m, fills, WaitingFor(queue, r), rank, rank(nodes[r].pid))
  }

  lemma {:induction false} WaitingRanks(m: Table, rank: Pid -> nat, nodes: seq<Node>, queue: seq<Pending>, r: nat)
    requires Acyclic(m, rank) && Waiting(m, nodes, queue) && r < |nodes|
    ensures forall c :: c in WaitingFor(queue, r) ==> rank(c) < rank(nodes[r].pid)
  {
    if queue != [] {
      assert queue[0] in queue;
      WaitingRanks(m, rank, nodes, queue[1..], r);
    }
  }

  /******* One turn of the queue *******/

  function Under(ps: seq<Pid>, r: nat): seq<Pending> {
    if ps == [] then [] else [Pending(ps[0], r)] + Under(ps[1..], r)
  }

  // A readable child becomes a node under its parent; its own children join the queue
  function Hang(m: Table, nodes: seq<Node>, queue: seq<Pending>): (seq<Node>, seq<Pending>)
    requires queue != [] && queue[0].parent < |nodes|
  {
    var Pending(c, r) := queue[0];
    (nodes[r := nodes[r].(kids := nodes[r].kids + [|nodes|])] + [Node(c, [])], queue[1..] + Under(Children(m, c), |nodes|))
  }

  lemma {:induction false} UnderWaits(ps: seq<Pid>, x: nat, r: nat)
    ensures WaitingFor(Under(ps, x), r) == if r == x then ps else []
    ensures forall q :: q in Under(ps, x) ==> q.parent == x && q.pid in ps
  {
    if ps != [] {
      UnderWaits(ps[1..], x, r);
    }
  }

  lemma {:induction false} WaitingAppend(a: seq<Pending>, b: seq<Pending>, r: nat)
    ensures WaitingFor(a + b, r) == WaitingFor(a, r) + WaitingFor(b, r)
  {
    if a == [] {
      assert a + b == b;
    } else {
      var first := if a[0].parent == r then [a[0].pid] else [];
      assert (a + b)[1..] == a[1..] + b && (a + b)[0] == a[0];
      WaitingAppend(a[1..], b, r);
      assert WaitingFor(a + b, r) == first + (WaitingFor(a[1..], r) + WaitingFor(b, r));
      assert WaitingFor(a, r) == first + WaitingFor(a[1..], r);
    }
  }

  lemma {:induction false} NobodyWaits(queue: seq<Pending>, r: nat)
    requires forall q :: q in queue ==> q.parent < r
    ensures WaitingFor(queue, r) == []
  {
    if queue != [] {
      assert queue[0] in queue;
      NobodyWaits(queue[1..], r);
    }
  }

  lemma HangWaits(m: Table, nodes: seq<Node>, queue: seq<Pending>, r: nat)
    requires queue != [] && Waiting(m, nodes, queue)
    ensures queue[0] in queue && Waiting(m, Hang(m, nodes, queue).0, Hang(m, nodes, queue).1)
    ensures r < |nodes| ==> WaitingFor(Hang(m, nodes, queue).1, r) == WaitingFor(queue[1..], r)
    ensures r == |nodes| ==> WaitingFor(Hang(m, nodes, queue).1, r) == Children(m, queue[0].pid)
  {
    assert queue[0] in queue;
    var c := queue[0].pid;
    UnderWaits(Children(m, c), |nodes|, r);
    WaitingAppend(queue[1..], Under(Children(m, c), |nodes|), r);
    if r == |nodes| {
      NobodyWaits(queue[1..], r);
    }
  }

  lemma {:induction false} SkipKeepsPromise(m: Table, fills: Pid -> bool, rank: Pid -> nat, nodes: seq<Node>, queue: seq<Pending>, r: nat, t: Tree)
    requires Acyclic(m, rank) && queue != [] && Waiting(m, nodes, queue) && !fills(queue[0].pid)
    requires Promises(m, fills, rank, nodes, queue, r, t)
    ensures Waiting(m, nodes, queue[1..]) && Promises(m, fills, rank, nodes, queue[1..], r, t)
    decreases t
  {
    forall i | 0 <= i < |nodes[r].kids|
      ensures Promises(m, fills, rank, nodes, queue[1..], nodes[r].kids[i], t.kids[i])
    {
      SkipKeepsPromise(m, fills, rank, nodes, queue, nodes[r].kids[i], t.kids[i]);
    }
    WaitingRanks(m, rank, nodes, queue, r);
    if queue[0].parent == r {
      WalkFirst(m, fills, queue[0].pid, WaitingFor(queue[1..], r), rank, rank(nodes[r].pid));
    } else {
      assert WaitingFor(queue, r) == WaitingFor(queue[1..], r);
    }
  }

  // What waits for r before and after the head of the queue is hung
  lemma HangWalked(m: Table, fills: Pid -> bool, rank: Pid -> nat, nodes: seq<Node>, queue: seq<Pending>, r: nat)
    requires Acyclic(m, rank) && queue != [] && queue[0].parent < |nodes| && Waiting(m, nodes, queue) && fills(queue[0].pid)
    requires Waiting(m, Hang(m, nodes, queue).0, Hang(m, nodes, queue).1) && r < |nodes|
    ensures var (nodes', queue') := Hang(m, nodes, queue);
            Walked(m, fills, rank, nodes, queue, r)
              == (if queue[0].parent == r then [Walk(m, fills, queue[0].pid, rank)] else []) + Walked(m, fills, rank, nodes', queue', r)
  {
    var (nodes', queue') := Hang(m, nodes, queue);
    HangWaits(m, nodes, queue, r);
    WaitingRanks(m, rank, nodes, queue, r);
    WaitingRanks(m, rank, nodes', queue', r);
    if queue[0].parent == r {
      WalkFirst(m, fills, queue[0].pid, WaitingFor(queue[1..], r), rank, rank(nodes[r].pid));
    } else {
      assert WaitingFor(queue, r) == WaitingFor(queue[1..], r);
    }
  }

  lemma {:induction false} HangKeepsPromise(m: Table, fills: Pid -> bool, rank: Pid -> nat, nodes: seq<Node>, queue: seq<Pending>, r: nat, t: Tree)
    requires Acyclic(m, rank) && queue != [] && queue[0].parent < |nodes| && Waiting(m, nodes, queue) && fills(queue[0].pid)
    requires Waiting(m, Hang(m, nodes, queue).0, Hang(m, nodes, queue).1)
    requires Promises(m, fills, rank, nodes, queue, r, t)
    ensures Promises(m, fills, rank, Hang(m, nodes, queue).0, Hang(m, nodes, queue).1, r, t)
    decreases t
  {
    var (nodes', queue') := Hang(m, nodes, queue);
    forall i | 0 <= i < |nodes[r].kids|
      ensures Promises(m, fills, rank, nodes', queue', nodes[r].kids[i], t.kids[i])
    {
      HangKeepsPromise(m, fills, rank, nodes, queue, nodes[r].kids[i], t.kids[i]);
    }
    HangWalked(m, fills, rank, nodes, queue, r);
    if queue[0].parent == r {
      FreshPromise(m, fills, rank, nodes, queue);
      OneMoreChild(m, fills, rank, nodes', queue', r, t, nodes[r].kids, |nodes|, Walk(m, fills, queue[0].pid, rank));
    } else {
      assert nodes'[r] == nodes[r];
    }
  }

  // A node with one more child, which promises the first of what waited for the node
  lemma OneMoreChild(m: Table, fills: Pid -> bool, rank: Pid -> nat, nodes: seq<Node>, queue: seq<Pending>, r: nat, t: Tree,
                     kids: seq<nat>, x: nat, child: Tree)
    requires Acyclic(m, rank) && Waiting(m, nodes, queue) && r < |nodes|
    requires t.pid == nodes[r].pid && nodes[r].kids == kids + [x] && |kids| <= |t.kids|
    requires forall i :: 0 <= i < |kids| ==> Promises(m, fills, rank, nodes, queue, kids[i], t.kids[i])
    requires Promises(m, fills, rank, nodes, queue, x, child)
    requires t.kids[|kids|..] == [child] + Walked(m, fills, rank, nodes, queue, r)
    ensures Promises(m, fills, rank, nodes, queue, r, t)
  {
    var n := |kids|;
    assert t.kids[n] == t.kids[n..][0] && t.kids[n + 1..] == t.kids[n..][1..];
    forall i | 0 <= i < n + 1 ensures Promises(m, fills, rank, nodes, queue, nodes[r].kids[i], t.kids[i]) {
      if i < n { assert nodes[r].kids[i] == kids[i]; }
    }
  }

  lemma FreshPromise(m: Table, fills: Pid -> bool, rank: Pid -> nat, nodes: seq<Node>, queue: seq<Pending>)
    requires Acyclic(m, rank) && queue != [] && queue[0].parent < |nodes| && Waiting(m, nodes, queue)
    requires Waiting(m, Hang(m, nodes, queue).0, Hang(m, nodes, queue).1)
    ensures Promises(m, fills, rank, Hang(m, nodes, queue).0, Hang(m, nodes, queue).1, |nodes|, Walk(m, fills, queue[0].pid, rank))
  {
    HangWaits(m, nodes, queue, |nodes|);
  }

  /******* What the nodes are worth *******/

  // t is full cut short: each node has its true pid, and a prefix of its true children
  predicate Prunes(t: Tree, full: Tree) {
    && t.pid == full.pid && |t.kids| <= |full.kids|
    && forall i :: 0 <= i < |t.kids| ==> Prunes(t.kids[i], full.kids[i])
  }

  lemma {:induction false} PromisePrunes(m: Table, fills: Pid -> bool, rank: Pid -> nat, nodes: seq<Node>, queue: seq<Pending>, r: nat, t: Tree)
    requires Acyclic(m, rank) && Waiting(m, nodes, queue) && Linked(nodes)
    requires Promises(m, fills, rank, nodes, queue, r, t)
    ensures Prunes(Built(nodes, r), t)
    ensures queue == [] ==> Built(nodes, r) == t
    decreases t
  {
    forall i | 0 <= i < |nodes[r].kids|
      ensures Prunes(Built(nodes, nodes[r].kids[i]), t.kids[i])
      ensures queue == [] ==> Built(nodes, nodes[r].kids[i]) == t.kids[i]
    {
      PromisePrunes(m, fills, rank, nodes, queue, nodes[r].kids[i], t.kids[i]);
    }
    if queue == [] {
      assert t.kids[|nodes[r].kids|..] == [];
      assert Built(nodes, r).kids == t.kids;
    }
  }

  /******* The walk ends *******/

  ghost function Size(m: Table, p: Pid, rank: Pid -> nat): nat
    requires Acyclic(m, rank)
    decreases rank(p), 1, 0
  {
    1 + SizeAll(m, Children(m, p), rank, rank(p))
  }

  ghost function SizeAll(m: Table, ps: seq<Pid>, rank: Pid -> nat, bound: nat): nat
    requires Acyclic(m, rank) && forall c :: c in ps ==> rank(c) < bound
    decreases bound, 0, |ps|
  {
    if ps == [] then 0 else Size(m, ps[0], rank) + SizeAll(m, ps[1..], rank, bound)
  }

  ghost function Weight(m: Table, queue: seq<Pending>, rank: Pid -> nat): nat
    requires Acyclic(m, rank)
  {
    if queue == [] then 0 else Size(m, queue[0].pid, rank) + Weight(m, queue[1..], rank)
  }

  lemma {:induction false} WeightAppend(m: Table, a: seq<Pending>, b: seq<Pending>, rank: Pid -> nat)
    requires Acyclic(m, rank)
    ensures Weight(m, a + b, rank) == Weight(m, a, rank) + Weight(m, b, rank)
  {
    if a == [] {
      assert a + b == b;
    } else {
      assert (a + b)[1..] == a[1..] + b;
      WeightAppend(m, a[1..], b, rank);
    }
  }

  lemma {:induction false} WeightUnder(m: Table, ps: seq<Pid>, r: nat, rank: Pid -> nat, bound: nat)
    requires Acyclic(m, rank) && forall c :: c in ps ==> rank(c) < bound
    ensures Weight(m, Under(ps, r), rank) == SizeAll(m, ps, rank, bound)
  {
    if ps != [] {
      WeightUnder(m, ps[1..], r, rank, bound);
      assert Under(ps, r)[1..] == Under(ps[1..], r);
    }
  }

  lemma HangLightens(m: Table, nodes: seq<Node>, queue: seq<Pending>, rank: Pid -> nat)
    requires Acyclic(m, rank) && queue != [] && queue[0].parent < |nodes|
    ensures Weight(m, Hang(m, nodes, queue).1, rank) == Weight(m, queue, rank) - 1
  {
    var c := queue[0].pid;
    WeightUnder(m, Children(m, c), |nodes|, rank, rank(c));
    WeightAppend(m, queue[1..], Under(Children(m, c), |nodes|), rank);
  }

  /******* The walk *******/

  ghost predicate Good(m: Table, fills: Pid -> bool, rank: Pid -> nat, nodes: seq<Node>, queue: seq<Pending>, root: Pid)
    requires Acyclic(m, rank)
  {
    && Linked(nodes) && Waiting(m, nodes, queue)
    && Promises(m, fills, rank, nodes, queue, 0, Walk(m, fills, root, rank))
  }

  lemma Start(m: Table, fills: Pid -> bool, rank: Pid -> nat, root: Pid)
    requires Acyclic(m, rank)
    ensures Good(m, fills, rank, [Node(root, [])], Under(Children(m, root), 0), root)
  {
    UnderWaits(Children(m, root), 0, 0);
  }

  lemma TurnHangs(m: Table, fills: Pid -> bool, rank: Pid -> nat, nodes: seq<Node>, queue: seq<Pending>, root: Pid)
    requires Acyclic(m, rank) && queue != [] && Good(m, fills, rank, nodes, queue, root) && fills(queue[0].pid)
    ensures queue[0].parent < |nodes|
    ensures Good(m, fills, rank, Hang(m, nodes, queue).0, Hang(m, nodes, queue).1, root)
    ensures Weight(m, Hang(m, nodes, queue).1, rank) < Weight(m, queue, rank)
  {
    assert queue[0] in queue;
    HangWaits(m, nodes, queue, 0);
    HangKeepsPromise(m, fills, rank, nodes, queue, 0, Walk(m, fills, root, rank));
    HangLightens(m, nodes, queue, rank);
    HangLinks(m, nodes, queue);
  }

  lemma HangLinks(m: Table, nodes: seq<Node>, queue: seq<Pending>)
    requires queue != [] && queue[0].parent < |nodes| && Linked(nodes)
    ensures Linked(Hang(m, nodes, queue).0)
  {
    var nodes' := Hang(m, nodes, queue).0;
    forall r, i | 0 <= r < |nodes'| && 0 <= i < |nodes'[r].kids| ensures r < nodes'[r].kids[i] < |nodes'| {
      if r < |nodes| && i < |nodes[r].kids| { assert nodes'[r].kids[i] == nodes[r].kids[i]; }
    }
  }

  lemma TurnSkips(m: Table, fills: Pid -> bool, rank: Pid -> nat, nodes: seq<Node>, queue: seq<Pending>, root: Pid)
    requires Acyclic(m, rank) && queue != [] && Good(m, fills, rank, nodes, queue, root) && !fills(queue[0].pid)
    ensures Good(m, fills, rank, nodes, queue[1..], root)
    ensures Weight(m, queue[1..], rank) < Weight(m, queue, rank)
  {
    SkipKeepsPromise(m, fills, rank, nodes, queue, 0, Walk(m, fills, root, rank));
  }

  method FillDescendants(m: Table, fills: Pid -> bool, root: Pid, cancelled: nat -> bool, ghost rank: Pid -> nat)
    returns (t: Tree, whole: bool)
    requires Acyclic(m, rank)
    ensures Prunes(t, Walk(m, fills, root, rank))
    ensures whole ==> t == Walk(m, fills, root, rank)
    ensures (forall i :: !cancelled(i)) ==> whole
  {
    var nodes, queue := [Node(root, [])], Under(Children(m, root), 0);
    var turn := 0;
    Start(m, fills, rank, root);
    while queue != [] && !cancelled(turn)
      invariant Good(m, fills, rank, nodes, queue, root)
      decreases Weight(m, queue, rank)
    {
      turn := turn + 1;
      if fills(queue[0].pid) {
        TurnHangs(m, fills, rank, nodes, queue, root);
        var (nodes', queue') := Hang(m, nodes, queue);
        nodes, queue := nodes', queue';
      } else {
        TurnSkips(m, fills, rank, nodes, queue, root);
        queue := queue[1..];
      }
    }
    PromisePrunes(m, fills, rank, nodes, queue, 0, Walk(m, fills, root, rank));
    t, whole := Built(nodes, 0), queue == [];
  }

  /******* Each process once *******/

  ghost function Count(t: Tree, x: Pid): nat {
    (if t.pid == x then 1 else 0) + CountAll(t.kids, x)
  }

  ghost function CountAll(ts: seq<Tree>, x: Pid): nat {
    if ts == [] then 0 else Count(ts[0], x) + CountAll(ts[1..], x)
  }

  // x is in the walk below c
  ghost predicate Below(m: Table, fills: Pid -> bool, rank: Pid -> nat, x: Pid, c: Pid)
    requires Acyclic(m, rank)
  {
    Count(Walk(m, fills, c, rank), x) > 0
  }

  lemma {:induction false} CountedInOne(m: Table, fills: Pid -> bool, rank: Pid -> nat, ps: seq<Pid>, bound: nat, x: Pid) returns (c: Pid)
    requires Acyclic(m, rank) && forall c :: c in ps ==> rank(c) < bound
    requires CountAll(WalkAll(m, fills, ps, rank, bound), x) > 0
    ensures c in ps && fills(c) && Below(m, fills, rank, x, c)
    decreases |ps|
  {
    CountFirst(m, fills, rank, ps, bound, x);
    if fills(ps[0]) && Below(m, fills, rank, x, ps[0]) {
      c := ps[0];
    } else {
      c := CountedInOne(m, fills, rank, ps[1..], bound, x);
    }
  }

  lemma {:induction false} CountsIn(m: Table, fills: Pid -> bool, rank: Pid -> nat, ps: seq<Pid>, bound: nat, x: Pid, c: Pid)
    requires Acyclic(m, rank) && forall c :: c in ps ==> rank(c) < bound
    requires c in ps && fills(c) && Below(m, fills, rank, x, c)
    ensures CountAll(WalkAll(m, fills, ps, rank, bound), x) > 0
    decreases |ps|
  {
    CountFirst(m, fills, rank, ps, bound, x);
    if c != ps[0] {
      CountsIn(m, fills, rank, ps[1..], bound, x, c);
    }
  }

  lemma CountFirst(m: Table, fills: Pid -> bool, rank: Pid -> nat, ps: seq<Pid>, bound: nat, x: Pid)
    requires Acyclic(m, rank) && ps != [] && forall c :: c in ps ==> rank(c) < bound
    ensures CountAll(WalkAll(m, fills, ps, rank, bound), x)
         == (if fills(ps[0]) then Count(Walk(m, fills, ps[0], rank), x) else 0) + CountAll(WalkAll(m, fills, ps[1..], rank, bound), x)
  {
    var rest := WalkAll(m, fills, ps[1..], rank, bound);
    if fills(ps[0]) {
      assert ([Walk(m, fills, ps[0], rank)] + rest)[1..] == rest;
    } else {
      assert [] + rest == rest;
    }
  }

  lemma {:induction false} ParentBelow(m: Table, fills: Pid -> bool, rank: Pid -> nat, x: Pid, c: Pid) returns (q: Pid)
    requires Acyclic(m, rank) && Below(m, fills, rank, x, c)
    ensures rank(x) <= rank(c)
    ensures x != c ==> Below(m, fills, rank, q, c) && x in Children(m, q)
    decreases rank(c)
  {
    q := c;
    if x != c {
      var d := CountedInOne(m, fills, rank, Children(m, c), rank(c), x);
      var e := ParentBelow(m, fills, rank, x, d);
      if x != d {
        q := e;
        CountsIn(m, fills, rank, Children(m, c), rank(c), q, d);
      }
    }
  }

  // Two children of one process have no descendant in common
  lemma {:induction false} Apart(m: Table, fills: Pid -> bool, rank: Pid -> nat, p: Pid, c: Pid, d: Pid, x: Pid)
    requires Acyclic(m, rank) && OneParent(m)
    requires c in Children(m, p) && d in Children(m, p) && Below(m, fills, rank, x, c) && Below(m, fills, rank, x, d)
    ensures c == d
    decreases rank(p) - rank(x)
  {
    var u := ParentBelow(m, fills, rank, x, c);
    var v := ParentBelow(m, fills, rank, x, d);
    if x == c && x != d {
      assert v == p by { SameParent(m, x, v, p); }
      var w := ParentBelow(m, fills, rank, p, d);
      assert false;
    } else if x != c && x == d {
      assert u == p by { SameParent(m, x, u, p); }
      var w := ParentBelow(m, fills, rank, p, c);
      assert false;
    } else if x != c {
      SameParent(m, x, u, v);
      Apart(m, fills, rank, p, c, d, u);
    }
  }

  lemma SameParent(m: Table, x: Pid, p: Pid, q: Pid)
    requires OneParent(m) && x in Children(m, p) && x in Children(m, q)
    ensures p == q
  {
    var i :| 0 <= i < |Children(m, p)| && Children(m, p)[i] == x;
    var j :| 0 <= j < |Children(m, q)| && Children(m, q)[j] == x;
  }

  lemma LaterIndex(ps: seq<Pid>, k: nat, d: Pid) returns (j: nat)
    requires k < |ps| && d in ps[k + 1..]
    ensures k < j < |ps| && ps[j] == d
  {
    var i :| 0 <= i < |ps[k + 1..]| && ps[k + 1..][i] == d;
    j := k + 1 + i;
  }

  // A later sibling of the k-th child has no descendant in common with it
  lemma LaterApart(m: Table, fills: Pid -> bool, rank: Pid -> nat, p: Pid, k: nat, x: Pid, d: Pid)
    requires Acyclic(m, rank) && OneParent(m) && k < |Children(m, p)| && d in Children(m, p)[k + 1..]
    requires Below(m, fills, rank, x, Children(m, p)[k])
    ensures !Below(m, fills, rank, x, d)
  {
    var j := LaterIndex(Children(m, p), k, d);
    if Below(m, fills, rank, x, d) {
      Apart(m, fills, rank, p, Children(m, p)[k], d, x);
      assert false;
    }
  }

  lemma FirstApart(m: Table, fills: Pid -> bool, rank: Pid -> nat, p: Pid, k: nat, x: Pid)
    requires Acyclic(m, rank) && OneParent(m) && k < |Children(m, p)| && Below(m, fills, rank, x, Children(m, p)[k])
    ensures forall c :: c in Children(m, p)[k + 1..] ==> rank(c) < rank(p)
    ensures CountAll(WalkAll(m, fills, Children(m, p)[k + 1..], rank, rank(p)), x) == 0
  {
    var rest := Children(m, p)[k + 1..];
    assert forall c :: c in rest ==> c in Children(m, p);
    if CountAll(WalkAll(m, fills, rest, rank, rank(p)), x) > 0 {
      var d := CountedInOne(m, fills, rank, rest, rank(p), x);
      LaterApart(m, fills, rank, p, k, x, d);
      assert false;
    }
  }

  lemma {:induction false} CountsOnce(m: Table, fills: Pid -> bool, rank: Pid -> nat, p: Pid, k: nat, x: Pid)
    requires Acyclic(m, rank) && OneParent(m) && k <= |Children(m, p)|
    ensures forall c :: c in Children(m, p)[k..] ==> rank(c) < rank(p)
    ensures CountAll(WalkAll(m, fills, Children(m, p)[k..], rank, rank(p)), x) <= 1
    decreases rank(p), 0, |Children(m, p)| - k
  {
    var ps := Children(m, p)[k..];
    assert forall c :: c in ps ==> c in Children(m, p);
    if k < |Children(m, p)| {
      var c := Children(m, p)[k];
      assert ps[0] == c && ps[1..] == Children(m, p)[k + 1..] && rank(c) < rank(p);
      CountsOnce(m, fills, rank, p, k + 1, x);
      VisitedOnce(m, fills, rank, c, x);
      var rest := CountAll(WalkAll(m, fills, ps[1..], rank, rank(p)), x);
      assert Count(Walk(m, fills, c, rank), x) + rest <= 1 by {
        if Below(m, fills, rank, x, c) {
          FirstApart(m, fills, rank, p, k, x);
        }
      }
      CountFirst(m, fills, rank, ps, rank(p), x);
    }
  }

  lemma {:induction false} VisitedOnce(m: Table, fills: Pid -> bool, rank: Pid -> nat, p: Pid, x: Pid)
    requires Acyclic(m, rank) && OneParent(m)
    ensures Count(Walk(m, fills, p, rank), x) <= 1
    decreases rank(p), 1, 0
  {
    assert Children(m, p)[0..] == Children(m, p);
    CountsOnce(m, fills, rank, p, 0, x);
    if x == p && CountAll(WalkAll(m, fills, Children(m, p), rank, rank(p)), x) > 0 {
      var d := CountedInOne(m, fills, rank, Children(m, p), rank(p), x);
      var e := ParentBelow(m, fills, rank, x, d);
      assert false;
    }
  }

  lemma {:induction false} PruneCounts(t: Tree, full: Tree, x: Pid)
    requires Prunes(t, full)
    ensures Count(t, x) <= Count(full, x)
    decreases t
  {
    PruneCountsAll(t.kids, full.kids, x);
  }

  lemma {:induction false} PruneCountsAll(ts: seq<Tree>, full: seq<Tree>, x: Pid)
    requires |ts| <= |full| && forall i :: 0 <= i < |ts| ==> Prunes(ts[i], full[i])
    ensures CountAll(ts, x) <= CountAll(full, x)
    decreases ts
  {
    if ts != [] {
      PruneCounts(ts[0], full[0], x);
      PruneCountsAll(ts[1..], full[1..], x);
    }
  }

  /******* The whole call *******/

  // What the kernel promises of the table: parents above their children
  ghost predicate Ranked(entries: seq<Entry>, rank: Pid -> nat) {
    forall i :: 0 <= i < |entries| && entries[i].Some? ==> rank(entries[i].value.0) < rank(entries[i].value.1)
  }

  ghost predicate Lists(m: Table, entries: seq<Entry>) {
    forall p :: Children(m, p) == ChildrenIn(entries, p)
  }

  lemma RankedIsAcyclic(m: Table, entries: seq<Entry>, rank: Pid -> nat)
    requires Ranked(entries, rank) && Lists(m, entries)
    ensures Acyclic(m, rank)
  {
    forall p, c | p in m && c in m[p] ensures rank(c) < rank(p) {
      assert c in ChildrenIn(entries, p);
      ListedUnderParent(entries, p, c);
    }
  }

  lemma DistinctIsOneParent(m: Table, entries: seq<Entry>)
    requires Distinct(entries) && Lists(m, entries)
    ensures OneParent(m)
  {
    forall p: Pid, q: Pid, i, j | 0 <= i < |Children(m, p)| && 0 <= j < |Children(m, q)| && Children(m, p)[i] == Children(m, q)[j]
      ensures p == q && i == j
    {
      assert Children(m, p) == ChildrenIn(entries, p) && Children(m, q) == ChildrenIn(entries, q);
      ListedOnce(entries, p, q, i, j);
    }
  }

  function Pids(ts: seq<Tree>): seq<Pid> {
    seq(|ts|, i requires 0 <= i < |ts| => ts[i].pid)
  }

  // Below every process are exactly the readable ones that the entries give it as parent, in their order
  ghost predicate Mirrors(t: Tree, entries: seq<Entry>, fills: Pid -> bool)
    decreases t
  {
    Picks(entries, fills, t.pid, Pids(t.kids)) && forall i :: 0 <= i < |t.kids| ==> Mirrors(t.kids[i], entries, fills)
  }

  lemma {:induction false} WalkMirrors(m: Table, entries: seq<Entry>, fills: Pid -> bool, p: Pid, rank: Pid -> nat)
    requires Acyclic(m, rank) && Lists(m, entries)
    ensures Mirrors(Walk(m, fills, p, rank), entries, fills)
    decreases rank(p), 1, 0
  {
    KeptArePicked(entries, fills, p);
    WalkAllMirrors(m, entries, fills, Children(m, p), rank, rank(p));
  }

  lemma PidsFirst(t: Tree, ts: seq<Tree>)
    ensures Pids([t] + ts) == [t.pid] + Pids(ts)
  {
  }

  lemma {:induction false} WalkAllMirrors(m: Table, entries: seq<Entry>, fills: Pid -> bool, ps: seq<Pid>, rank: Pid -> nat, bound: nat)
    requires Acyclic(m, rank) && Lists(m, entries) && forall c :: c in ps ==> rank(c) < bound
    ensures Pids(WalkAll(m, fills, ps, rank, bound)) == Kept(ps, fills)
    ensures forall t :: t in WalkAll(m, fills, ps, rank, bound) ==> Mirrors(t, entries, fills)
    decreases bound, 0, |ps|
  {
    if ps != [] {
      assert ps[0] in ps && forall c :: c in ps[1..] ==> c in ps;
      var rest := WalkAll(m, fills, ps[1..], rank, bound);
      WalkAllMirrors(m, entries, fills, ps[1..], rank, bound);
      if fills(ps[0]) {
        WalkMirrors(m, entries, fills, ps[0], rank);
        PidsFirst(Walk(m, fills, ps[0], rank), rest);
      } else {
        assert WalkAll(m, fills, ps, rank, bound) == rest;
      }
    }
  }

  ghost predicate Stops(entries: seq<Entry>, cancelled: nat -> bool) {
    exists i :: 0 <= i < |entries| && cancelled(i)
  }

  method FillProcessState(pid: Pid, hostFails: bool, deep: bool, fills: Pid -> bool, entries: seq<Entry>,
                          scanCancelled: nat -> bool, walkCancelled: nat -> bool, ghost rank: Pid -> nat)
    returns (t: Tree, failed: bool, ghost m: Table)
    requires Ranked(entries, rank)
    ensures failed <==> !fills(pid) || hostFails || (deep && Stops(entries, scanCancelled))
    ensures !fills(pid) || !deep || Stops(entries, scanCancelled) ==> t == Tree(pid, [])
    ensures Lists(m, entries) && Acyclic(m, rank)
    ensures Prunes(t, Walk(m, fills, pid, rank))
    ensures fills(pid) && deep && !Stops(entries, scanCancelled) && (forall i :: !walkCancelled(i)) ==> t == Walk(m, fills, pid, rank)
    ensures t.pid == pid
    ensures fills(pid) && deep && !Stops(entries, scanCancelled) && (forall i :: !walkCancelled(i)) ==> Mirrors(t, entries, fills)
    ensures Distinct(entries) ==> forall x :: Count(t, x) <= 1
  {
    m := TableOf(entries);
    RankedIsAcyclic(m, entries, rank);
    t, failed := Tree(pid, []), true;
    if !fills(pid) {
      return;
    }
    failed := hostFails;
    if !deep {
      return;
    }
    var scan := BuildTable(entries, scanCancelled);
    if scan.None? {
      return t, true, m;
    }
    m := scan.value;
    RankedIsAcyclic(m, entries, rank);
    var tree, whole := FillDescendants(scan.value, fills, pid, walkCancelled, rank);
    t := tree;
    WalkMirrors(m, entries, fills, pid, rank);
    if Distinct(entries) {
      DistinctIsOneParent(m, entries);
      forall x ensures Count(t, x) <= 1 {
        PruneCounts(t, Walk(m, fills, pid, rank), x);
        VisitedOnce(m, fills, rank, pid, x);
      }
    }
  }

  ghost function TableOf(entries: seq<Entry>): (m: Table)
    ensures Lists(m, entries)
  {
    if entries == [] then map[]
    else
      var m, e := TableOf(entries[..|entries| - 1]), entries[|entries| - 1];
      if e.Some? then m[e.value.1 := Children(m, e.value.1) + [e.value.0]] else m
  }
}
