/**
 How the profiling tree grows: timers, IO wrappers and category wrappers, in any order and nesting. A
 category node is created on first use and shared by later calls with the same name; it is meant to have
 no time of its own.

 Nodes are numbered in the order they are made. Every call works on the node that its context carries.
 */
module ProfileCategories {
  import opened ProfileTree

  type Ref = nat

  datatype Node = Node(
    name: string, duration: int, io: int, parallel: bool, redundant: bool, ioRedundant: bool,
    kids: seq<Ref>,
    parent: Ref,       // 0 has none
    category: bool)    // made as a category node

  // The functions handed out that add time later: timers, which end once, and IO wrappers
  datatype Handle =
    | Timer(node: Ref)                       // sets the duration of a component
    | CategoryTimer(category: Ref, node: Ref)  // also adds it to the category
    | Wrapper(node: Ref)                     // adds each transfer to a component
    | CategoryWrapper(category: Ref, node: Ref)
    | LastWrapper(node: Ref)                 // keeps only the last transfer, beside the category

  datatype State = State(nodes: seq<Node>, handles: map<nat, Handle>)

  datatype Mode = InSeries | InParallel | Redundantly

  datatype Event =
    | StartComponent(ctx: Ref, name: string, mode: Mode, h: nat)
    | AddComponent(ctx: Ref, name: string, duration: int, mode: Mode)
    | OpenComponent(ctx: Ref, name: string, mode: Mode, h: nat)
    | AddIOComponent(ctx: Ref, name: string, n: int)
    | StartCategory(ctx: Ref, category: string, name: string, mode: Mode, h: nat)
    | OpenCategory(ctx: Ref, category: string, name: string, mode: Mode, h: nat)
    | AddIOCategory(ctx: Ref, category: string, name: string, n: int)
    | End(h: nat, duration: int)
    | Transfer(h: nat, duration: int, n: int)
    | AddIO(ctx: Ref, n: int)
    | MarkIORedundant(ctx: Ref)
    | MarkRedundant(ctx: Ref)

  /******* The calls *******/

  function Fresh(name: string, mode: Mode, parent: Ref, category: bool): Node {
    Node(name, 0, 0, mode.InParallel?, mode.Redundantly?, false, [], parent, category)
  }

  // Makes a new last component of p
  function Append(ns: seq<Node>, p: Ref, n: Node): seq<Node>
    requires p < |ns|
  {
    ns[p := ns[p].(kids := ns[p].kids + [|ns|])] + [n]
  }

  // The first of these nodes with the name
  function Find(ns: seq<Node>, kids: seq<Ref>, name: string): seq<Ref> {
    if kids == [] then []
    else if kids[0] < |ns| && ns[kids[0]].name == name then [kids[0]]
    else Find(ns, kids[1..], name)
  }

  // The category node under ctx, made if there is none
  function WithCategory(ns: seq<Node>, ctx: Ref, category: string): (seq<Node>, Ref)
    requires ctx < |ns|
  {
    var found := Find(ns, ns[ctx].kids, category);
    if found != [] then (ns, found[0]) else (Append(ns, ctx, Fresh(category, InSeries, ctx, true)), |ns|)
  }

  // A new component n of the category node, and the two
  function UnderCategory(ns: seq<Node>, ctx: Ref, category: string, name: string, mode: Mode): (seq<Node>, Ref, Ref)
    requires ctx < |ns|
  {
    var (with, c) := WithCategory(ns, ctx, category);
    if c < |with| then (Append(with, c, Fresh(name, mode, c, false)), c, |with|) else (with, c, c)
  }

  // Contexts carry components, never category nodes
  predicate Context(s: State, ctx: Ref) {
    ctx < |s.nodes| && !s.nodes[ctx].category
  }

  // The name is not taken by a node that is no category
  predicate Available(s: State, ctx: Ref, category: string)
    requires ctx < |s.nodes|
  {
    var found := Find(s.nodes, s.nodes[ctx].kids, category);
    found == [] || (found[0] < |s.nodes| && s.nodes[found[0]].category)
  }

  predicate Enabled(s: State, e: Event) {
    match e
    case StartComponent(ctx, _, mode, h) => Context(s, ctx) && !mode.Redundantly? && h !in s.handles
    case AddComponent(ctx, _, _, mode) => Context(s, ctx) && !mode.Redundantly?
    case OpenComponent(ctx, _, _, h) => Context(s, ctx) && h !in s.handles
    case AddIOComponent(ctx, _, _) => Context(s, ctx)
    case StartCategory(ctx, category, _, mode, h) =>
      Context(s, ctx) && Available(s, ctx, category) && !mode.Redundantly? && h !in s.handles
    case OpenCategory(ctx, category, _, _, h) => Context(s, ctx) && Available(s, ctx, category) && h !in s.handles
    case AddIOCategory(ctx, category, _, _) => Context(s, ctx) && Available(s, ctx, category)
    case End(h, _) => h in s.handles && (s.handles[h].Timer? || s.handles[h].CategoryTimer?)
    case Transfer(h, _, _) => h in s.handles && !(s.handles[h].Timer? || s.handles[h].CategoryTimer?)
    case AddIO(ctx, _) => Context(s, ctx)
    case MarkIORedundant(ctx) => Context(s, ctx)
    case MarkRedundant(ctx) => Context(s, ctx) && Harmless(s, ctx)
  }

  // Marking the node redundant takes no time out of a category: it counts for none, or has no time and will
  // not get any through a function that adds it to the category too
  predicate Harmless(s: State, ctx: Ref)
    requires ctx < |s.nodes|
  {
    UnderCategoryNode(s.nodes, ctx) && IsSerial(s.nodes[ctx]) ==>
      s.nodes[ctx].duration == 0 && forall h :: h in s.handles ==> !CountsFor(s.handles[h], ctx)
  }

  predicate CountsFor(h: Handle, r: Ref) {
    (h.CategoryTimer? || h.CategoryWrapper?) && h.node == r
  }

  // Adds time to a node
  function Spend(ns: seq<Node>, r: Ref, d: int): seq<Node> {
    if r < |ns| then ns[r := ns[r].(duration := ns[r].duration + d)] else ns
  }

  function SetTime(ns: seq<Node>, r: Ref, d: int): seq<Node> {
    if r < |ns| then ns[r := ns[r].(duration := d)] else ns
  }

  function AddBytes(ns: seq<Node>, r: Ref, n: int): seq<Node> {
    if r < |ns| then ns[r := ns[r].(io := ns[r].io + n)] else ns
  }

  function Ended(ns: seq<Node>, h: Handle, d: int): seq<Node> {
    match h
    case Timer(r) => SetTime(ns, r, d)
    case CategoryTimer(c, r) => SetTime(Spend(ns, c, d), r, d)
    case _ => ns
  }

  function Transferred(ns: seq<Node>, h: Handle, d: int, n: int): seq<Node> {
    match h
    case Wrapper(r) => AddBytes(Spend(ns, r, d), r, n)
    case CategoryWrapper(c, r) => AddBytes(Spend(Spend(ns, c, d), r, d), r, n)
    case LastWrapper(r) => AddBytes(SetTime(ns, r, d), r, n)
    case _ => ns
  }

  function Step(s: State, e: Event): State
    requires Enabled(s, e)
  {
    match e
    case StartComponent(ctx, name, mode, h) =>
      State(Append(s.nodes, ctx, Fresh(name, mode, ctx, false)), s.handles[h := Timer(|s.nodes|)])
    case AddComponent(ctx, name, d, mode) =>
      s.(nodes := Append(s.nodes, ctx, Fresh(name, mode, ctx, false).(duration := d)))
    case OpenComponent(ctx, name, mode, h) =>
      State(Append(s.nodes, ctx, Fresh(name, mode, ctx, false)), s.handles[h := Wrapper(|s.nodes|)])
    case AddIOComponent(ctx, name, n) =>
      s.(nodes := Append(s.nodes, ctx, Fresh(name, InSeries, ctx, false).(io := n)))
    case StartCategory(ctx, category, name, mode, h) =>
      var (ns, c, r) := UnderCategory(s.nodes, ctx, category, name, mode);
      State(ns, s.handles[h := if mode.InSeries? then CategoryTimer(c, r) else Timer(r)])
    case OpenCategory(ctx, category, name, mode, h) =>
      var (ns, c, r) := UnderCategory(s.nodes, ctx, category, name, mode);
      State(ns, s.handles[h := if mode.InSeries? then CategoryWrapper(c, r) else LastWrapper(r)])
    case AddIOCategory(ctx, category, name, n) =>
      var (ns, c, r) := UnderCategory(s.nodes, ctx, category, name, InSeries);
      s.(nodes := AddBytes(ns, r, n))
    case End(h, d) => State(Ended(s.nodes, s.handles[h], d), s.handles - {h})
    case Transfer(h, d, n) => s.(nodes := Transferred(s.nodes, s.handles[h], d, n))
    case AddIO(ctx, n) => s.(nodes := AddBytes(s.nodes, ctx, n))
    case MarkIORedundant(ctx) => s.(nodes := s.nodes[ctx := s.nodes[ctx].(ioRedundant := true)])
    case MarkRedundant(ctx) => Marked(s, ctx)
  }

  function Marked(s: State, ctx: Ref): State
    requires ctx < |s.nodes|
  {
    s.(nodes := s.nodes[ctx := s.nodes[ctx].(redundant := true)])
  }

  // One profiled request: its root, and any calls after that
  function Start(name: string): State {
    State([Fresh(name, InSeries, 0, false)], map[])
  }

  function Run(s: State, events: seq<Event>): State
    requires Plays(s, events)
    decreases |events|
  {
    if events == [] then s else Run(Step(s, events[0]), events[1..])
  }

  predicate Plays(s: State, events: seq<Event>)
    decreases |events|
  {
    events == [] || (Enabled(s, events[0]) && Plays(Step(s, events[0]), events[1..]))
  }

  /******* The invariant *******/

  predicate IsSerial(n: Node) {
    !(n.parallel || n.redundant)
  }

  function TimeOf(ns: seq<Node>, r: Ref): int {
    if r < |ns| && IsSerial(ns[r]) then ns[r].duration else 0
  }

  function KidsTime(ns: seq<Node>, kids: seq<Ref>): int {
    if kids == [] then 0 else TimeOf(ns, kids[0]) + KidsTime(ns, kids[1..])
  }

  // The components of r are later nodes, all different, and are those that have r as parent
  predicate Linked(ns: seq<Node>, r: Ref)
    requires r < |ns|
  {
    && (forall i :: 0 <= i < |ns[r].kids| ==> r < ns[r].kids[i] < |ns| && ns[ns[r].kids[i]].parent == r)
    && (forall i, j :: 0 <= i < j < |ns[r].kids| ==> ns[r].kids[i] != ns[r].kids[j])
    && (r > 0 ==> ns[r].parent < r && r in ns[ns[r].parent].kids)
  }

  predicate UnderCategoryNode(ns: seq<Node>, r: Ref)
    requires r < |ns|
  {
    0 < r && ns[r].parent < r && ns[ns[r].parent].category
  }

  // A category node's time is that of its serial components, and it is not itself under a category
  predicate NodeOk(ns: seq<Node>, r: Ref) {
    r < |ns| ==>
      && Linked(ns, r)
      && (ns[r].category ==> ns[r].duration == KidsTime(ns, ns[r].kids) && !UnderCategoryNode(ns, r))
  }

  ghost predicate NodesOk(ns: seq<Node>) {
    ns != [] && !ns[0].category && forall r :: NodeOk(ns, r)
  }

  // A component that only this handle adds time to; if the time counts for a category, the handle knows it
  predicate HandleOk(s: State, h: nat) {
    h in s.handles ==>
      var ns, r := s.nodes, s.handles[h].node;
      && 0 < r < |ns| && !ns[r].category
      && match s.handles[h]
         case Timer(_) => UnderCategoryNode(ns, r) ==> !IsSerial(ns[r])
         case Wrapper(_) => !UnderCategoryNode(ns, r)
         case CategoryTimer(c, _) => ns[r].parent == c && UnderCategoryNode(ns, r) && IsSerial(ns[r]) && ns[r].duration == 0
         case CategoryWrapper(c, _) => ns[r].parent == c && UnderCategoryNode(ns, r) && IsSerial(ns[r])
         case LastWrapper(_) => !IsSerial(ns[r])
  }

  ghost predicate Inv(s: State) {
    && NodesOk(s.nodes)
    && (forall h :: HandleOk(s, h))
    && (forall g, h :: g in s.handles && h in s.handles && s.handles[g].node == s.handles[h].node ==> g == h)
  }

  /******* One node changes *******/

  lemma {:induction false} KidsTimeUpdate(ns: seq<Node>, kids: seq<Ref>, r: Ref, n: Node)
    requires r < |ns| && forall i, j :: 0 <= i < j < |kids| ==> kids[i] != kids[j]
    ensures var ns' := ns[r := n];
            KidsTime(ns', kids) == KidsTime(ns, kids) + if r in kids then TimeOf(ns', r) - TimeOf(ns, r) else 0
  {
    if kids != [] {
      KidsTimeUpdate(ns, kids[1..], r, n);
      assert kids == [kids[0]] + kids[1..];
    }
  }

  lemma {:induction false} KidsTimeAppend(ns: seq<Node>, kids: seq<Ref>, more: seq<Ref>)
    ensures KidsTime(ns, kids + more) == KidsTime(ns, kids) + KidsTime(ns, more)
  {
    if kids == [] {
      assert kids + more == more;
    } else {
      assert (kids + more)[1..] == kids[1..] + more;
      KidsTimeAppend(ns, kids[1..], more);
    }
  }

  lemma {:induction false} KidsTimeSame(ns: seq<Node>, ns': seq<Node>, kids: seq<Ref>)
    requires forall i :: 0 <= i < |kids| ==> TimeOf(ns, kids[i]) == TimeOf(ns', kids[i])
    ensures KidsTime(ns, kids) == KidsTime(ns', kids)
  {
    if kids != [] {
      assert TimeOf(ns, kids[0]) == TimeOf(ns', kids[0]);
      KidsTimeSame(ns, ns', kids[1..]);
    }
  }

  // The same node but for time, bytes and the mark
  predicate SameNode(m: Node, n: Node) {
    n == m.(duration := n.duration, io := n.io, ioRedundant := n.ioRedundant)
  }

  // The same place in the tree
  predicate SamePlace(m: Node, n: Node) {
    n.kids == m.kids && n.parent == m.parent && n.category == m.category
  }

  lemma LinksStay(ns: seq<Node>, ns': seq<Node>, x: Ref)
    requires |ns'| == |ns| && x < |ns| && Linked(ns, x) && forall y :: 0 <= y < |ns| ==> SamePlace(ns[y], ns'[y])
    ensures Linked(ns', x) && (UnderCategoryNode(ns', x) <==> UnderCategoryNode(ns, x))
    ensures ns'[x].kids == ns[x].kids && ns'[x].category == ns[x].category
  {
  }

  // A node is a component of its parent only
  lemma OnlyParent(ns: seq<Node>, x: Ref, r: Ref)
    requires x < |ns| && Linked(ns, x) && r < |ns| && r in ns[x].kids
    ensures ns[r].parent == x < r
  {
  }

  // A component may change its time if that does not count for a category
  lemma ChangeKeeps(ns: seq<Node>, r: Ref, n: Node)
    requires NodesOk(ns) && r < |ns| && SameNode(ns[r], n)
    requires n.duration == ns[r].duration || (!n.category && (UnderCategoryNode(ns, r) ==> !IsSerial(n)))
    ensures NodesOk(ns[r := n])
  {
    var ns' := ns[r := n];
    assert NodeOk(ns, r);
    forall x: Ref ensures NodeOk(ns', x) {
      assert NodeOk(ns, x);
      if x < |ns| { ChangeKeepsNode(ns, r, n, x); }
    }
  }

  lemma ChangeKeepsNode(ns: seq<Node>, r: Ref, n: Node, x: Ref)
    requires r < |ns| && x < |ns| && NodeOk(ns, x) && NodeOk(ns, r) && SameNode(ns[r], n)
    requires n.duration == ns[r].duration || (!n.category && (UnderCategoryNode(ns, r) ==> !IsSerial(n)))
    ensures NodeOk(ns[r := n], x)
  {
    var ns' := ns[r := n];
    LinksStay(ns, ns', x);
    KidsTimeUpdate(ns, ns[x].kids, r, n);
    if r in ns[x].kids { OnlyParent(ns, x, r); }
  }

  // A serial component of a category and the category spend the same time
  lemma SpendBoth(ns: seq<Node>, c: Ref, r: Ref, d: int, n: int)
    requires NodesOk(ns) && c < r < |ns| && ns[r].parent == c && ns[c].category && IsSerial(ns[r]) && !ns[r].category
    ensures var ns' := ns[c := ns[c].(duration := ns[c].duration + d)][r := ns[r].(duration := ns[r].duration + d, io := ns[r].io + n)];
            NodesOk(ns')
  {
    var mid := ns[c := ns[c].(duration := ns[c].duration + d)];
    var ns' := mid[r := ns[r].(duration := ns[r].duration + d, io := ns[r].io + n)];
    assert NodeOk(ns, r) && NodeOk(ns, c);
    forall x: Ref ensures NodeOk(ns', x) {
      assert NodeOk(ns, x);
      if x < |ns| { SpendBothNode(ns, c, r, d, n, x); }
    }
  }

  lemma SpendBothNode(ns: seq<Node>, c: Ref, r: Ref, d: int, n: int, x: Ref)
    requires c < r < |ns| && ns[r].parent == c && ns[c].category && IsSerial(ns[r]) && !ns[r].category
    requires x < |ns| && NodeOk(ns, x) && NodeOk(ns, r) && NodeOk(ns, c)
    ensures var ns' := ns[c := ns[c].(duration := ns[c].duration + d)][r := ns[r].(duration := ns[r].duration + d, io := ns[r].io + n)];
            NodeOk(ns', x)
  {
    var mid := ns[c := ns[c].(duration := ns[c].duration + d)];
    var ns' := mid[r := ns[r].(duration := ns[r].duration + d, io := ns[r].io + n)];
    LinksStay(ns, ns', x);
    KidsTimeUpdate(ns, ns[x].kids, c, mid[c]);
    KidsTimeUpdate(mid, ns[x].kids, r, ns'[r]);
    if c in ns[x].kids { OnlyParent(ns, x, c); }
    if r in ns[x].kids { OnlyParent(ns, x, r); }
  }

  /******* One node is added *******/

  lemma AppendKeeps(ns: seq<Node>, p: Ref, n: Node)
    requires NodesOk(ns) && p < |ns| && n.parent == p && n.kids == []
    requires ns[p].category ==> n.duration == 0 && !n.category
    requires n.category ==> n.duration == 0
    ensures NodesOk(Append(ns, p, n))
  {
    var ns' := Append(ns, p, n);
    forall x: Ref ensures NodeOk(ns', x) {
      assert NodeOk(ns, x) && NodeOk(ns, p);
      if x < |ns'| { AppendKeepsNode(ns, p, n, x); }
    }
  }

  lemma AppendKeepsNode(ns: seq<Node>, p: Ref, n: Node, x: Ref)
    requires p < |ns| && n.parent == p && n.kids == [] && x <= |ns| && NodeOk(ns, x) && NodeOk(ns, p)
    requires ns[p].category ==> n.duration == 0 && !n.category
    requires n.category ==> n.duration == 0
    ensures NodeOk(Append(ns, p, n), x)
  {
    AppendKeepsLinks(ns, p, n, x);
    var ns' := Append(ns, p, n);
    if x < |ns| {
      KidsTimeSame(ns, ns', ns[x].kids);
      if x == p {
        KidsTimeAppend(ns', ns[p].kids, [|ns|]);
        assert KidsTime(ns', []) == 0;
      }
    }
  }

  lemma AppendKeepsLinks(ns: seq<Node>, p: Ref, n: Node, x: Ref)
    requires p < |ns| && n.parent == p && n.kids == [] && x <= |ns| && (x < |ns| ==> Linked(ns, x)) && Linked(ns, p)
    ensures Linked(Append(ns, p, n), x)
    ensures UnderCategoryNode(Append(ns, p, n), x) <==> if x == |ns| then ns[p].category else UnderCategoryNode(ns, x)
  {
    var ns' := Append(ns, p, n);
    assert ns'[|ns|] == n && ns'[p].kids == ns[p].kids + [|ns|];
    if x == |ns| {
      assert ns'[p].kids[|ns[p].kids|] == x;
    } else if x == p {
      AppendLinksParent(ns, p, n);
    } else {
      AppendLinksOther(ns, p, n, x);
    }
  }

  lemma AppendLinksParent(ns: seq<Node>, p: Ref, n: Node)
    requires p < |ns| && n.parent == p && n.kids == [] && Linked(ns, p)
    ensures Linked(Append(ns, p, n), p)
    ensures UnderCategoryNode(Append(ns, p, n), p) <==> UnderCategoryNode(ns, p)
  {
    var ns' := Append(ns, p, n);
    var kids := ns'[p].kids;
    assert kids == ns[p].kids + [|ns|];
    forall i | 0 <= i < |kids| ensures p < kids[i] < |ns'| && ns'[kids[i]].parent == p {
      if i < |ns[p].kids| { assert kids[i] == ns[p].kids[i]; }
    }
  }

  lemma AppendLinksOther(ns: seq<Node>, p: Ref, n: Node, x: Ref)
    requires p < |ns| && n.parent == p && n.kids == [] && x < |ns| && x != p && Linked(ns, x) && Linked(ns, p)
    ensures Linked(Append(ns, p, n), x)
    ensures UnderCategoryNode(Append(ns, p, n), x) <==> UnderCategoryNode(ns, x)
  {
    var ns' := Append(ns, p, n);
    assert ns'[x] == ns[x] && ns'[p].kids == ns[p].kids + [|ns|];
    if x > 0 && ns[x].parent == p {
      var i :| 0 <= i < |ns[p].kids| && ns[p].kids[i] == x;
      assert ns'[p].kids[i] == x;
    }
  }

  lemma {:induction false} FindFinds(ns: seq<Node>, kids: seq<Ref>, name: string)
    ensures var found := Find(ns, kids, name);
            |found| <= 1 && (found != [] ==> found[0] in kids && found[0] < |ns| && ns[found[0]].name == name)
  {
    if kids != [] { FindFinds(ns, kids[1..], name); }
  }

  // What a category call makes: a component r of the category node c under ctx
  lemma UnderCategoryKeeps(s: State, ctx: Ref, category: string, name: string, mode: Mode)
    requires NodesOk(s.nodes) && Context(s, ctx) && Available(s, ctx, category)
    ensures var (ns, c, r) := UnderCategory(s.nodes, ctx, category, name, mode);
            && NodesOk(ns) && c < r < |ns| && |s.nodes| <= r
            && ns[r] == Fresh(name, mode, c, false) && ns[c].category && ns[c].name == category
            && (forall x :: 0 <= x < |s.nodes| ==> ns[x] == s.nodes[x].(kids := ns[x].kids))
  {
    var ns := s.nodes;
    assert NodeOk(ns, ctx);
    FindFinds(ns, ns[ctx].kids, category);
    var (with, c) := WithCategory(ns, ctx, category);
    if Find(ns, ns[ctx].kids, category) == [] {
      AppendKeeps(ns, ctx, Fresh(category, InSeries, ctx, true));
    }
    AppendKeeps(with, c, Fresh(name, mode, c, false));
  }

  /******* Every call keeps the invariant *******/

  // Old handles stay fine as long as the nodes they know only change their components
  lemma HandlesStay(s: State, t: State, made: nat)
    requires Inv(s) && NodesOk(t.nodes) && |s.nodes| <= |t.nodes|
    requires forall x :: 0 <= x < |s.nodes| ==> t.nodes[x] == s.nodes[x].(kids := t.nodes[x].kids, io := t.nodes[x].io, ioRedundant := t.nodes[x].ioRedundant)
    requires t.handles == s.handles || (made !in s.handles && made in t.handles && t.handles == s.handles[made := t.handles[made]])
    requires made in t.handles && made !in s.handles ==> HandleOk(t, made) && t.handles[made].node >= |s.nodes|
    ensures Inv(t)
  {
    forall h ensures HandleOk(t, h) {
      assert HandleOk(s, h);
    }
    forall g, h | g in t.handles && h in t.handles && t.handles[g].node == t.handles[h].node ensures g == h {
      assert HandleOk(s, g) && HandleOk(s, h);
    }
  }

  lemma AppendStep(s: State, t: State, ctx: Ref, n: Node, made: nat)
    requires Inv(s) && Context(s, ctx) && n.parent == ctx && n.kids == [] && !n.category && t.nodes == Append(s.nodes, ctx, n)
    requires t.handles == s.handles || (made !in s.handles && t.handles == s.handles[made := Timer(|s.nodes|)])
               || (made !in s.handles && t.handles == s.handles[made := Wrapper(|s.nodes|)])
    ensures Inv(t)
  {
    AppendKeeps(s.nodes, ctx, n);
    HandlesStay(s, t, made);
  }

  lemma CategoryStep(s: State, e: Event)
    requires Inv(s) && Enabled(s, e) && (e.StartCategory? || e.OpenCategory?)
    ensures Inv(Step(s, e))
  {
    UnderCategoryKeeps(s, e.ctx, e.category, e.name, e.mode);
    HandlesStay(s, Step(s, e), e.h);
  }

  lemma IOCategoryStep(s: State, ctx: Ref, category: string, name: string, n: int)
    requires Inv(s) && Enabled(s, AddIOCategory(ctx, category, name, n))
    ensures Inv(Step(s, AddIOCategory(ctx, category, name, n)))
  {
    UnderCategoryKeeps(s, ctx, category, name, InSeries);
    var (ns, c, r) := UnderCategory(s.nodes, ctx, category, name, InSeries);
    ChangeKeeps(ns, r, ns[r].(io := ns[r].io + n));
    HandlesStay(s, Step(s, AddIOCategory(ctx, category, name, n)), 0);
  }

  // Time for one handle's component leaves every other handle's alone
  lemma HandlesKeep(s: State, t: State, h: nat)
    requires Inv(s) && h in s.handles && NodesOk(t.nodes) && |t.nodes| == |s.nodes|
    requires t.handles == s.handles - {h} || (t.handles == s.handles && !s.handles[h].CategoryTimer?)
    requires forall x :: 0 <= x < |s.nodes| ==> SameNode(s.nodes[x], t.nodes[x])
    requires forall x :: 0 <= x < |s.nodes| && x != s.handles[h].node && !s.nodes[x].category ==> t.nodes[x].duration == s.nodes[x].duration
    ensures Inv(t)
  {
    forall g ensures HandleOk(t, g) {
      assert HandleOk(s, g);
    }
    forall f, g | f in t.handles && g in t.handles && t.handles[f].node == t.handles[g].node ensures f == g {
      assert f in s.handles && g in s.handles;
    }
  }

  // The category and its serial components together go up by as much
  predicate SpentIn(ns: seq<Node>, ns': seq<Node>, c: Ref, d: int) {
    && c < |ns| && c < |ns'| && ns'[c].kids == ns[c].kids
    && ns'[c].duration == ns[c].duration + d && KidsTime(ns', ns[c].kids) == KidsTime(ns, ns[c].kids) + d
  }

  lemma EndStep(s: State, h: nat, d: int)
    requires Inv(s) && Enabled(s, End(h, d))
    ensures Inv(Step(s, End(h, d)))
    ensures s.handles[h].CategoryTimer? ==> SpentIn(s.nodes, Step(s, End(h, d)).nodes, s.handles[h].category, d)
  {
    assert HandleOk(s, h);
    var ns, r := s.nodes, s.handles[h].node;
    match s.handles[h] {
      case Timer(_) => ChangeKeeps(ns, r, ns[r].(duration := d));
      case CategoryTimer(c, _) =>
        SpendBoth(ns, c, r, d, 0);
        assert ns[r].(duration := ns[r].duration + d, io := ns[r].io + 0) == ns[r].(duration := d);
    }
    HandlesKeep(s, Step(s, End(h, d)), h);
    if s.handles[h].CategoryTimer? { BothBalanced(s.nodes, Step(s, End(h, d)).nodes, s.handles[h].category, d); }
  }

  lemma BothBalanced(ns: seq<Node>, ns': seq<Node>, c: Ref, d: int)
    requires NodesOk(ns) && NodesOk(ns') && c < |ns| && c < |ns'| && ns[c].category && SamePlace(ns[c], ns'[c])
    requires ns'[c].duration == ns[c].duration + d
    ensures SpentIn(ns, ns', c, d)
  {
    assert NodeOk(ns, c) && NodeOk(ns', c);
  }

  lemma TransferStep(s: State, h: nat, d: int, n: int)
    requires Inv(s) && Enabled(s, Transfer(h, d, n))
    ensures Inv(Step(s, Transfer(h, d, n)))
    ensures s.handles[h].CategoryWrapper? ==> SpentIn(s.nodes, Step(s, Transfer(h, d, n)).nodes, s.handles[h].category, d)
  {
    assert HandleOk(s, h);
    var t := Step(s, Transfer(h, d, n));
    TransferKeepsNodes(s, h, d, n);
    HandlesKeep(s, t, h);
    if s.handles[h].CategoryWrapper? { BothBalanced(s.nodes, t.nodes, s.handles[h].category, d); }
  }

  lemma TransferKeepsNodes(s: State, h: nat, d: int, n: int)
    requires NodesOk(s.nodes) && HandleOk(s, h) && Enabled(s, Transfer(h, d, n))
    ensures NodesOk(Step(s, Transfer(h, d, n)).nodes)
  {
    var ns, r, ns' := s.nodes, s.handles[h].node, Step(s, Transfer(h, d, n)).nodes;
    match s.handles[h] {
      case Wrapper(_) =>
        var x := ns[r].(duration := ns[r].duration + d, io := ns[r].io + n);
        ChangeKeeps(ns, r, x);
        assert ns' == ns[r := x];
      case CategoryWrapper(c, _) =>
        SpendBoth(ns, c, r, d, n);
        assert ns' == ns[c := ns[c].(duration := ns[c].duration + d)][r := ns[r].(duration := ns[r].duration + d, io := ns[r].io + n)];
      case LastWrapper(_) =>
        var x := ns[r].(duration := d, io := ns[r].io + n);
        ChangeKeeps(ns, r, x);
        assert ns' == ns[r := x];
    }
  }

  lemma MarkKeepsInv(s: State, ctx: Ref)
    requires Inv(s) && Context(s, ctx) && Harmless(s, ctx)
    ensures Inv(Marked(s, ctx))
  {
    MarkLinks(s.nodes, ctx);
    MarkKeepsNodes(s, ctx);
    MarkKeepsHandles(s, ctx);
  }

  lemma MarkLinks(ns: seq<Node>, r: Ref)
    requires r < |ns| && forall x: Ref :: NodeOk(ns, x)
    ensures var ns' := ns[r := ns[r].(redundant := true)];
            forall x :: 0 <= x < |ns| ==> Linked(ns', x) && (UnderCategoryNode(ns', x) <==> UnderCategoryNode(ns, x))
  {
    var ns' := ns[r := ns[r].(redundant := true)];
    forall x | 0 <= x < |ns| ensures Linked(ns', x) && (UnderCategoryNode(ns', x) <==> UnderCategoryNode(ns, x)) {
      assert NodeOk(ns, x);
      LinksStay(ns, ns', x);
    }
  }

  // The time of the components of x once r is marked
  lemma MarkTime(ns: seq<Node>, r: Ref, x: Ref)
    requires r < |ns| && x < |ns| && NodeOk(ns, x) && NodeOk(ns, r)
    ensures var ns' := ns[r := ns[r].(redundant := true)];
            KidsTime(ns', ns[x].kids) == KidsTime(ns, ns[x].kids) - if 0 < r && ns[r].parent == x then TimeOf(ns, r) else 0
  {
    KidsTimeUpdate(ns, ns[x].kids, r, ns[r].(redundant := true));
    if r in ns[x].kids { OnlyParent(ns, x, r); }
  }

  lemma MarkKeepsNodes(s: State, ctx: Ref)
    requires Inv(s) && Context(s, ctx) && Harmless(s, ctx)
    ensures NodesOk(Marked(s, ctx).nodes)
  {
    var ns, ns' := s.nodes, Marked(s, ctx).nodes;
    MarkLinks(ns, ctx);
    forall x: Ref ensures NodeOk(ns', x) {
      assert NodeOk(ns, x) && NodeOk(ns, ctx);
      if x < |ns| { MarkTime(ns, ctx, x); }
    }
  }

  lemma MarkKeepsHandles(s: State, ctx: Ref)
    requires Inv(s) && Context(s, ctx) && Harmless(s, ctx) && NodesOk(Marked(s, ctx).nodes)
    ensures Inv(Marked(s, ctx))
  {
    var t := Marked(s, ctx);
    forall h ensures HandleOk(t, h) {
      assert HandleOk(s, h);
      if h in s.handles { MarkKeepsHandle(s, ctx, h); }
    }
  }

  lemma MarkKeepsHandle(s: State, ctx: Ref, h: nat)
    requires ctx < |s.nodes| && !s.nodes[ctx].category && Harmless(s, ctx) && h in s.handles && HandleOk(s, h)
    ensures HandleOk(Marked(s, ctx), h)
  {
    var r := s.handles[h].node;
    assert Marked(s, ctx).nodes[r] == if r == ctx then s.nodes[r].(redundant := true) else s.nodes[r];
    assert UnderCategoryNode(Marked(s, ctx).nodes, r) <==> UnderCategoryNode(s.nodes, r);
  }

  // A component of a category, marked redundant before its timer ends: the time stays with the category
  lemma MarkedTooEarly()
    ensures var s := Step(Start("r"), StartCategory(0, "c", "x", InSeries, 0));
            && Context(s, 2) && !Harmless(s, 2) && Enabled(Marked(s, 2), End(0, 5))
            && var ns := Step(Marked(s, 2), End(0, 5)).nodes;
            |ns| == 3 && ns[1].category && ns[1].duration == 5 && KidsTime(ns, ns[1].kids) == 0
  {
    var s := Step(Start("r"), StartCategory(0, "c", "x", InSeries, 0));
    var root, c, x := Fresh("r", InSeries, 0, false), Fresh("c", InSeries, 0, true), Fresh("x", InSeries, 1, false);
    assert Find([root], [], "c") == [];
    assert root.kids + [1] == [1] && c.kids + [2] == [2];
    assert Append([root], 0, c) == [root.(kids := [1]), c];
    assert Append([root.(kids := [1]), c], 1, x) == [root.(kids := [1]), c.(kids := [2]), x];
    assert s.nodes == [root.(kids := [1]), c.(kids := [2]), x];
    assert CountsFor(s.handles[0], 2);
    var ns := Step(Marked(s, 2), End(0, 5)).nodes;
    assert ns[1].kids == [2] && [2][1..] == [] && KidsTime(ns, []) == 0;
  }

  lemma StepKeepsInv(s: State, e: Event)
    requires Inv(s) && Enabled(s, e)
    ensures Inv(Step(s, e))
  {
    var t := Step(s, e);
    match e
    case StartComponent(ctx, name, mode, h) => AppendStep(s, t, ctx, Fresh(name, mode, ctx, false), h);
    case AddComponent(ctx, name, d, mode) => AppendStep(s, t, ctx, Fresh(name, mode, ctx, false).(duration := d), 0);
    case OpenComponent(ctx, name, mode, h) => AppendStep(s, t, ctx, Fresh(name, mode, ctx, false), h);
    case AddIOComponent(ctx, name, n) => AppendStep(s, t, ctx, Fresh(name, InSeries, ctx, false).(io := n), 0);
    case StartCategory(_, _, _, _, _) => CategoryStep(s, e);
    case OpenCategory(_, _, _, _, _) => CategoryStep(s, e);
    case AddIOCategory(ctx, category, name, n) => IOCategoryStep(s, ctx, category, name, n);
    case End(h, d) => EndStep(s, h, d);
    case Transfer(h, d, n) => TransferStep(s, h, d, n);
    case AddIO(ctx, n) =>
      ChangeKeeps(s.nodes, ctx, s.nodes[ctx].(io := s.nodes[ctx].io + n));
      HandlesStay(s, t, 0);
    case MarkIORedundant(ctx) =>
      ChangeKeeps(s.nodes, ctx, s.nodes[ctx].(ioRedundant := true));
      HandlesStay(s, t, 0);
    case MarkRedundant(ctx) => MarkKeepsInv(s, ctx);
  }

  lemma {:induction false} RunKeepsInv(s: State, events: seq<Event>)
    requires Inv(s) && Plays(s, events)
    ensures Inv(Run(s, events))
    decreases |events|
  {
    if events != [] {
      StepKeepsInv(s, events[0]);
      RunKeepsInv(Step(s, events[0]), events[1..]);
    }
  }

  // A call that makes a component: the last node, with what the call says, under the node of the context
  lemma ComponentCallIs(s: State, e: Event)
    requires Enabled(s, e) && (e.StartComponent? || e.AddComponent? || e.OpenComponent? || e.AddIOComponent?)
    ensures var t, n := Step(s, e), |s.nodes|;
            var parallel, redundant := !e.AddIOComponent? && e.mode.InParallel?, !e.AddIOComponent? && e.mode.Redundantly?;
            && |t.nodes| == n + 1
            && t.nodes[n] == Node(e.name, if e.AddComponent? then e.duration else 0, if e.AddIOComponent? then e.n else 0,
                                  parallel, redundant, false, [], e.ctx, false)
            && t.nodes[e.ctx] == s.nodes[e.ctx].(kids := s.nodes[e.ctx].kids + [n])
            && (forall x :: 0 <= x < n && x != e.ctx ==> t.nodes[x] == s.nodes[x])
            && t.handles == (if e.StartComponent? then s.handles[e.h := Timer(n)]
                             else if e.OpenComponent? then s.handles[e.h := Wrapper(n)] else s.handles)
  {
  }

  // c is the first of these nodes with the name
  ghost predicate IsFirst(ns: seq<Node>, kids: seq<Ref>, name: string, c: Ref) {
    exists i :: FirstAt(ns, kids, name, c, i)
  }

  predicate FirstAt(ns: seq<Node>, kids: seq<Ref>, name: string, c: Ref, i: int) {
    && 0 <= i < |kids| && kids[i] == c && c < |ns| && ns[c].name == name
    && forall j :: 0 <= j < i && kids[j] < |ns| ==> ns[kids[j]].name != name
  }

  predicate IsNew(ns: seq<Node>, kids: seq<Ref>, name: string) {
    forall j :: 0 <= j < |kids| && kids[j] < |ns| ==> ns[kids[j]].name != name
  }

  lemma {:induction false} FindsFirst(ns: seq<Node>, kids: seq<Ref>, name: string)
    ensures var found := Find(ns, kids, name);
            if found == [] then IsNew(ns, kids, name) else IsFirst(ns, kids, name, found[0])
  {
    if kids != [] {
      var rest := kids[1..];
      FindsFirst(ns, rest, name);
      var found := Find(ns, kids, name);
      if kids[0] < |ns| && ns[kids[0]].name == name {
        assert FirstAt(ns, kids, name, kids[0], 0);
      } else if found != [] {
        var i :| FirstAt(ns, rest, name, found[0], i);
        forall j | 0 <= j < i + 1 && kids[j] < |ns| ensures ns[kids[j]].name != name {
          if j > 0 { assert rest[j - 1] == kids[j]; }
        }
        assert FirstAt(ns, kids, name, found[0], i + 1);
      } else {
        forall j | 0 <= j < |kids| && kids[j] < |ns| ensures ns[kids[j]].name != name {
          if j > 0 { assert rest[j - 1] == kids[j]; }
        }
      }
    }
  }

  // A call that makes a component of a category: the last node, under a category node of that name of the context,
  // which is the first node of that name there, or new and the node before
  lemma CategoryCallIs(s: State, e: Event)
    requires Inv(s) && Enabled(s, e) && (e.StartCategory? || e.OpenCategory? || e.AddIOCategory?)
    ensures var t := Step(s, e);
            var r := |t.nodes| - 1;
            var parallel, redundant := !e.AddIOCategory? && e.mode.InParallel?, !e.AddIOCategory? && e.mode.Redundantly?;
            && r >= |s.nodes| && t.nodes[r].parent < r
            && t.nodes[r] == Node(e.name, 0, if e.AddIOCategory? then e.n else 0, parallel, redundant, false, [], t.nodes[r].parent, false)
            && var c := t.nodes[r].parent;
            && t.nodes[c].category && t.nodes[c].name == e.category && t.nodes[c].parent == e.ctx
            && (c < |s.nodes| ==> r == |s.nodes| && IsFirst(s.nodes, s.nodes[e.ctx].kids, e.category, c))
            && (c >= |s.nodes| ==> c == |s.nodes| && r == |s.nodes| + 1 && IsNew(s.nodes, s.nodes[e.ctx].kids, e.category))
            && t.handles == (if e.AddIOCategory? then s.handles
                             else if e.StartCategory? then s.handles[e.h := if e.mode.InSeries? then CategoryTimer(c, r) else Timer(r)]
                             else s.handles[e.h := if e.mode.InSeries? then CategoryWrapper(c, r) else LastWrapper(r)])
  {
    var mode := if e.AddIOCategory? then InSeries else e.mode;
    UnderCategoryKeeps(s, e.ctx, e.category, e.name, mode);
    CategoryPlace(s, e.ctx, e.category, e.name, mode);
  }

  lemma CategoryPlace(s: State, ctx: Ref, category: string, name: string, mode: Mode)
    requires NodesOk(s.nodes) && Context(s, ctx) && Available(s, ctx, category)
    ensures var (ns, c, r) := UnderCategory(s.nodes, ctx, category, name, mode);
            && r == |ns| - 1 && c < |ns| && ns[c].parent == ctx
            && (c < |s.nodes| ==> r == |s.nodes| && IsFirst(s.nodes, s.nodes[ctx].kids, category, c))
            && (c >= |s.nodes| ==> c == |s.nodes| && r == |s.nodes| + 1 && IsNew(s.nodes, s.nodes[ctx].kids, category))
  {
    assert NodeOk(s.nodes, ctx);
    FindFinds(s.nodes, s.nodes[ctx].kids, category);
    FindsFirst(s.nodes, s.nodes[ctx].kids, category);
  }

  // Nothing but the bytes, or the mark, of the node that the context carries changes
  lemma IOCallIs(s: State, ctx: Ref, n: int)
    requires Context(s, ctx)
    ensures Step(s, AddIO(ctx, n)) == s.(nodes := s.nodes[ctx := s.nodes[ctx].(io := s.nodes[ctx].io + n)])
    ensures Step(s, MarkIORedundant(ctx)).nodes[ctx] == s.nodes[ctx].(ioRedundant := true)
    ensures forall x :: 0 <= x < |s.nodes| && x != ctx ==> Step(s, MarkIORedundant(ctx)).nodes[x] == s.nodes[x]
  {
  }

  // Every node but these two has the time and IO that it had
  predicate OnlyAt(s: State, t: State, r: Ref, c: Ref) {
    |t.nodes| == |s.nodes| &&
    forall x :: 0 <= x < |s.nodes| && x != r && x != c ==> t.nodes[x] == s.nodes[x]
  }

  // The end of a timer records its time: the component has exactly that, and a category of its own has as much more
  lemma EndRecords(s: State, h: nat, d: int)
    requires Inv(s) && Enabled(s, End(h, d))
    ensures var t, r := Step(s, End(h, d)), s.handles[h].node;
            var c := if s.handles[h].CategoryTimer? then s.handles[h].category else r;
            && r < |s.nodes| && c < |s.nodes| && OnlyAt(s, t, r, c)
            && t.nodes[r] == s.nodes[r].(duration := d)
            && (c != r ==> t.nodes[c] == s.nodes[c].(duration := s.nodes[c].duration + d))
            && t.handles == s.handles - {h}
  {
    assert HandleOk(s, h);
  }

  // A transfer adds its time and bytes to the component, or replaces the time where only the last one is kept
  lemma TransferRecords(s: State, h: nat, d: int, n: int)
    requires Inv(s) && Enabled(s, Transfer(h, d, n))
    ensures var t, r := Step(s, Transfer(h, d, n)), s.handles[h].node;
            var c := if s.handles[h].CategoryWrapper? then s.handles[h].category else r;
            && r < |s.nodes| && c < |s.nodes| && OnlyAt(s, t, r, c)
            && t.nodes[r].io == s.nodes[r].io + n
            && t.nodes[r].duration == (if s.handles[h].LastWrapper? then d else s.nodes[r].duration + d)
            && (c != r ==> t.nodes[c] == s.nodes[c].(duration := s.nodes[c].duration + d))
            && t.handles == s.handles
  {
    assert HandleOk(s, h);
  }

  // Whatever calls follow, the categories are in order
  ghost predicate StaysInOrder(s: State) {
    forall events :: Plays(s, events) ==> NodesOk(Run(s, events).nodes)
  }

  /**
   After a component is marked redundant, the categories are in order in every state of every run exactly if
   the mark takes no time out of one, now or later.
   */
  lemma MarkRedundantIff(s: State, ctx: Ref)
    requires Inv(s) && Context(s, ctx)
    ensures StaysInOrder(Marked(s, ctx)) <==> Harmless(s, ctx)
  {
    var t := Marked(s, ctx);
    if Harmless(s, ctx) {
      MarkKeepsInv(s, ctx);
      forall events | Plays(t, events) ensures NodesOk(Run(t, events).nodes) { RunKeepsInv(t, events); }
    } else {
      assert Plays(t, []) && Run(t, []) == t;
      if NodesOk(t.nodes) {
        var e := MarkDisorders(s, ctx);
        assert [e][1..] == [] && Plays(Step(t, e), []) && Run(Step(t, e), []) == Step(t, e);
        assert Plays(t, [e]) && Run(t, [e]) == Step(t, e);
      }
    }
  }

  // If the component has no time yet, the next time it gets is added to the category alone
  lemma MarkDisorders(s: State, ctx: Ref) returns (e: Event)
    requires Inv(s) && Context(s, ctx) && !Harmless(s, ctx) && NodesOk(Marked(s, ctx).nodes)
    ensures Enabled(Marked(s, ctx), e) && !NodesOk(Step(Marked(s, ctx), e).nodes)
  {
    var t := Marked(s, ctx);
    var c := s.nodes[ctx].parent;
    assert NodeOk(s.nodes, ctx) && NodeOk(s.nodes, c) && NodeOk(t.nodes, c);
    MarkTime(s.nodes, ctx, c);
    assert s.nodes[ctx].duration == 0;
    var h :| h in s.handles && CountsFor(s.handles[h], ctx);
    assert HandleOk(s, h);
    e := if s.handles[h].CategoryTimer? then End(h, 1) else Transfer(h, 1, 0);
    SpentLater(t.nodes, s.handles[h], c, ctx);
  }

  lemma SpentLater(ns: seq<Node>, h: Handle, c: Ref, r: Ref)
    requires c < r < |ns| && NodeOk(ns, c) && ns[c].category && ns[r].redundant
    requires h == CategoryTimer(c, r) || h == CategoryWrapper(c, r)
    ensures h.CategoryTimer? ==> !NodeOk(Ended(ns, h, 1), c)
    ensures h.CategoryWrapper? ==> !NodeOk(Transferred(ns, h, 1, 0), c)
  {
    var spent := ns[c := ns[c].(duration := ns[c].duration + 1)];
    var n := if h.CategoryTimer? then ns[r].(duration := 1) else ns[r].(duration := ns[r].duration + 1, io := ns[r].io + 0);
    SpentOutside(ns, c, r, n);
    if h.CategoryTimer? {
      assert Ended(ns, h, 1) == spent[r := n];
    } else {
      assert Transferred(ns, h, 1, 0) == spent[r := n];
    }
  }

  // A category that gets time without a serial component getting it is out of order
  lemma SpentOutside(ns: seq<Node>, c: Ref, r: Ref, n: Node)
    requires c < r < |ns| && NodeOk(ns, c) && ns[c].category && ns[r].redundant && n == ns[r].(duration := n.duration, io := n.io)
    ensures !NodeOk(ns[c := ns[c].(duration := ns[c].duration + 1)][r := n], c)
  {
    var mid := ns[c := ns[c].(duration := ns[c].duration + 1)];
    KidsTimeUpdate(ns, ns[c].kids, c, mid[c]);
    KidsTimeUpdate(mid, ns[c].kids, r, n);
    assert c !in ns[c].kids;
  }

  /******* What it means for the flattened tree *******/

  // The tree below r
  function Tree(ns: seq<Node>, r: Ref): Data
    requires r < |ns|
    decreases |ns| - r, 0, 0
  {
    var n := ns[r];
    Data(n.name, n.duration, n.io, n.parallel, n.redundant, n.ioRedundant, Trees(ns, n.kids, r))
  }

  function Trees(ns: seq<Node>, kids: seq<Ref>, r: Ref): seq<Data>
    requires r < |ns|
    decreases |ns| - r - 1, 1, |kids|
  {
    if kids == [] then []
    else (if r < kids[0] < |ns| then [Tree(ns, kids[0])] else []) + Trees(ns, kids[1..], r)
  }

  lemma {:induction false} TreesTime(ns: seq<Node>, kids: seq<Ref>, r: Ref)
    requires r < |ns| && forall i :: 0 <= i < |kids| ==> r < kids[i] < |ns|
    ensures SerialSum(Trees(ns, kids, r)) == KidsTime(ns, kids)
  {
    if kids != [] {
      TreesTime(ns, kids[1..], r);
      assert Trees(ns, kids, r)[1..] == Trees(ns, kids[1..], r);
    }
  }

  // Every name in the walk begins with the prefix
  lemma {:induction false} WalkNames(cs: seq<Data>, prefix: string, i: nat)
    requires i < |WalkAll(cs, prefix)|
    ensures prefix <= WalkAll(cs, prefix)[i].name
    decreases cs
  {
    var c := cs[0];
    var below := Walk(c, prefix);
    if 1 <= i < 1 + |below| {
      WalkNames(c.components, prefix + Tag(c), i - 1);
      assert prefix <= prefix + Tag(c);
    } else if i > |below| {
      WalkNames(cs[1..], prefix, i - 1 - |below|);
    }
  }

  // block is a contiguous part of list, from i on
  predicate PartAt(list: seq<Data>, i: nat, block: seq<Data>) {
    i + |block| <= |list| && list[i..i + |block|] == block
  }

  lemma PartOfPart(list: seq<Data>, i: nat, mid: seq<Data>, j: nat, block: seq<Data>)
    requires PartAt(list, i, mid) && PartAt(mid, j, block)
    ensures PartAt(list, i + j, block)
  {
    var part := list[i + j..i + j + |block|];
    forall x | 0 <= x < |block| ensures part[x] == block[x] {
      assert block[x] == mid[j..j + |block|][x] == mid[j + x];
      assert mid[j + x] == list[i..i + |mid|][j + x] == list[i + j + x];
    }
  }

  // A node in the flat list, with all that is below it
  function Entries(d: Data, prefix: string): seq<Data> {
    [Flat(d, prefix)] + Walk(d, prefix)
  }

  lemma {:induction false} WalkHasEach(cs: seq<Data>, prefix: string, k: nat) returns (i: nat)
    requires k < |cs|
    ensures PartAt(WalkAll(cs, prefix), i, Entries(cs[k], prefix))
    decreases k
  {
    var first, rest := Entries(cs[0], prefix), WalkAll(cs[1..], prefix);
    assert WalkAll(cs, prefix) == first + rest;
    if k == 0 {
      i := 0;
    } else {
      var j := WalkHasEach(cs[1..], prefix, k - 1);
      i := |first| + j;
      assert PartAt(first + rest, |first|, rest);
      PartOfPart(first + rest, |first|, rest, j, Entries(cs[k], prefix));
    }
  }

  lemma {:induction false} TreesAt(ns: seq<Node>, kids: seq<Ref>, r: Ref, k: nat)
    requires r < |ns| && (forall i :: 0 <= i < |kids| ==> r < kids[i] < |ns|) && k < |kids|
    ensures |Trees(ns, kids, r)| == |kids| && Trees(ns, kids, r)[k] == Tree(ns, kids[k])
    decreases |kids|
  {
    assert Trees(ns, kids, r) == [Tree(ns, kids[0])] + Trees(ns, kids[1..], r);
    if k > 0 {
      TreesAt(ns, kids[1..], r, k - 1);
    } else if |kids| > 1 {
      TreesAt(ns, kids[1..], r, 0);
    }
  }

  // A component has its entry in the list of its parent
  lemma ParentHas(ns: seq<Node>, c: Ref, q: string) returns (l: nat)
    requires NodesOk(ns) && 0 < c < |ns|
    ensures ns[c].parent < c
    ensures var p := Tree(ns, ns[c].parent);
            PartAt(Walk(p, q), l, Entries(Tree(ns, c), q + Tag(p)))
  {
    assert NodeOk(ns, c);
    var p := ns[c].parent;
    assert NodeOk(ns, p);
    var k :| 0 <= k < |ns[p].kids| && ns[p].kids[k] == c;
    TreesAt(ns, ns[p].kids, p, k);
    l := WalkHasEach(Tree(ns, p).components, q + Tag(Tree(ns, p)), k);
  }

  // Every node but the root has its entry in the root's flat list, followed by those of all that is below it
  lemma {:induction false} RootHasAll(ns: seq<Node>, c: Ref) returns (prefix: string, i: nat)
    requires NodesOk(ns) && 0 < c < |ns|
    ensures PartAt(Walk(Tree(ns, 0), ""), i, Entries(Tree(ns, c), prefix))
    decreases c
  {
    assert NodeOk(ns, c);
    var p := ns[c].parent;
    if p == 0 {
      i := ParentHas(ns, c, "");
      prefix := "" + Tag(Tree(ns, 0));
    } else {
      var q, j := RootHasAll(ns, p);
      var l := ParentHas(ns, c, q);
      prefix, i := q + Tag(Tree(ns, p)), j + (1 + l);
      AfterItsOwn(Tree(ns, p), q, l, Entries(Tree(ns, c), prefix));
      PartOfPart(Walk(Tree(ns, 0), ""), j, Entries(Tree(ns, p), q), 1 + l, Entries(Tree(ns, c), prefix));
    }
  }

  lemma AfterItsOwn(d: Data, q: string, l: nat, block: seq<Data>)
    requires PartAt(Walk(d, q), l, block)
    ensures PartAt(Entries(d, q), 1 + l, block)
  {
    assert Entries(d, q)[1..] == Walk(d, q);
    assert PartAt(Entries(d, q), 1, Walk(d, q));
    PartOfPart(Entries(d, q), 1, Walk(d, q), l, block);
  }

  // A category has no time of its own
  lemma CategoryRemainder(ns: seq<Node>, c: Ref)
    requires NodesOk(ns) && c < |ns| && ns[c].category
    ensures Remainder(Tree(ns, c)) == 0
  {
    assert NodeOk(ns, c);
    TreesTime(ns, ns[c].kids, c);
  }

  /**
   After any sequence of profiling calls, flattening the root leaves every category with no time of its own,
   and if it has a name, everything below it follows it in the list under that name.
   */
  lemma CategoriesVanish(root: string, events: seq<Event>, c: Ref) returns (prefix: string, i: nat)
    requires Plays(Start(root), events)
    requires c < |Run(Start(root), events).nodes| && Run(Start(root), events).nodes[c].category
    ensures var ns := Run(Start(root), events).nodes;
            var d, flat := Tree(ns, c), Flatten(Tree(ns, 0)).components;
            && PartAt(flat, i, Entries(d, prefix))
            && flat[i].name == prefix + d.name && flat[i].duration == 0
            && (d.name != "" ==> forall k :: i < k <= i + |Walk(d, prefix)| ==> prefix + d.name + ":" <= flat[k].name)
  {
    var ns := Run(Start(root), events).nodes;
    StartInv(root);
    RunKeepsInv(Start(root), events);
    FlattenIsWalk(Tree(ns, 0));
    prefix, i := RootHasAll(ns, c);
    CategoryRemainder(ns, c);
    EntriesNamed(Flatten(Tree(ns, 0)).components, i, Tree(ns, c), prefix);
  }

  lemma EntriesNamed(flat: seq<Data>, i: nat, d: Data, prefix: string)
    requires PartAt(flat, i, Entries(d, prefix)) && Remainder(d) == 0
    ensures flat[i] == Flat(d, prefix)
    ensures d.name != "" ==> forall k :: i < k <= i + |Walk(d, prefix)| ==> prefix + d.name + ":" <= flat[k].name
  {
    PartElement(flat, i, Entries(d, prefix), 0);
    if d.name != "" {
      forall k | i < k <= i + |Walk(d, prefix)| ensures prefix + d.name + ":" <= flat[k].name {
        PartElement(flat, i, Entries(d, prefix), k - i);
        BelowNamed(d, prefix, k - i - 1);
      }
    }
  }

  lemma PartElement(list: seq<Data>, i: nat, block: seq<Data>, x: nat)
    requires PartAt(list, i, block) && x < |block|
    ensures list[i + x] == block[x]
  {
    assert list[i..i + |block|][x] == list[i + x];
  }

  lemma BelowNamed(d: Data, prefix: string, x: nat)
    requires Remainder(d) == 0 && d.name != "" && x < |Walk(d, prefix)|
    ensures prefix + d.name + ":" <= Walk(d, prefix)[x].name
  {
    WalkNames(d.components, prefix + Tag(d), x);
    assert prefix + (d.name + ":") == prefix + d.name + ":";
  }

  lemma StartInv(root: string)
    ensures Inv(Start(root))
  {
    var s := Start(root);
    forall r ensures NodeOk(s.nodes, r) { }
    forall h ensures HandleOk(s, h) { }
  }
}
