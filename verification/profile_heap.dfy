/**
 Flatten and Clean as the program runs them: on nodes in memory, updated in place.
 */
module ProfileHeap {
  import opened ProfileTree

  class Node {
    var name: string
    var duration: int
    var io: int
    var parallel: bool
    var redundant: bool
    var ioRedundant: bool
    var components: seq<Node>

    constructor (d: Data)
      ensures Same(this, d) && components == []
    {
      name, duration, io := d.name, d.duration, d.io;
      parallel, redundant, ioRedundant := d.parallel, d.redundant, d.ioRedundant;
      components := [];
    }
  }

  // The node holds the values of d, components aside
  ghost predicate Same(n: Node, d: Data)
    reads n
  {
    && n.name == d.name && n.duration == d.duration && n.io == d.io
    && n.parallel == d.parallel && n.redundant == d.redundant && n.ioRedundant == d.ioRedundant
  }

  /******* Trees of nodes *******/

  // Which nodes make up a tree
  datatype Foot = Foot(node: Node, kids: seq<Foot>)

  ghost function Objs(f: Foot): set<Node>
    decreases f, 1
  {
    {f.node} + ObjsAll(f.kids)
  }

  ghost function ObjsAll(fs: seq<Foot>): set<Node>
    decreases fs, 0
  {
    if fs == [] then {} else Objs(fs[0]) + ObjsAll(fs[1..])
  }

  // No node occurs twice
  ghost predicate Distinct(f: Foot)
    decreases f, 1
  {
    f.node !in ObjsAll(f.kids) && DistinctAll(f.kids)
  }

  ghost predicate DistinctAll(fs: seq<Foot>)
    decreases fs, 0
  {
    fs == [] || (Distinct(fs[0]) && Objs(fs[0]) !! ObjsAll(fs[1..]) && DistinctAll(fs[1..]))
  }

  ghost function Size(f: Foot): nat
    decreases f, 1
  {
    1 + SizeAll(f.kids)
  }

  ghost function SizeAll(fs: seq<Foot>): nat
    decreases fs, 0
  {
    if fs == [] then 0 else Size(fs[0]) + SizeAll(fs[1..])
  }

  ghost function Roots(fs: seq<Foot>): seq<Node> {
    if fs == [] then [] else [fs[0].node] + Roots(fs[1..])
  }

  // The nodes hold the tree t
  ghost predicate Holds(f: Foot, t: Data)
    reads Objs(f)
    decreases f, 1
  {
    Same(f.node, t) && f.node.components == Roots(f.kids) && HoldAll(f.kids, t.components)
  }

  ghost predicate HoldAll(fs: seq<Foot>, ts: seq<Data>)
    reads ObjsAll(fs)
    decreases fs, 0
  {
    |fs| == |ts| && (fs == [] || (Holds(fs[0], ts[0]) && HoldAll(fs[1..], ts[1..])))
  }

  /******* Flatten *******/

  // The nodes ns, all within fp and all different, hold the leaves ls
  ghost predicate Leaf(ns: seq<Node>, ls: seq<Data>, fp: set<Node>)
    reads fp
  {
    && |ns| == |ls|
    && (forall i :: 0 <= i < |ns| ==> ns[i] in fp && Same(ns[i], ls[i]) && ns[i].components == [])
    && (forall i, j :: 0 <= i < j < |ns| ==> ns[i] != ns[j])
  }

  method RenameAll(ns: seq<Node>, prefix: string, ghost ls: seq<Data>, ghost fp: set<Node>)
    requires Leaf(ns, ls, fp)
    modifies fp
    ensures Leaf(ns, Prefixed(prefix, ls), fp)
    ensures forall n :: n in fp && n !in ns ==> unchanged(n)
  {
    PrefixedNames(prefix, ls);
    ghost var renamed := Prefixed(prefix, ls);
    for k := 0 to |ns|
      invariant forall i :: 0 <= i < |ns| ==> Same(ns[i], if i < k then renamed[i] else ls[i])
      invariant forall i :: 0 <= i < |ns| ==> ns[i].components == []
      invariant forall n :: n in fp && n !in ns ==> unchanged(n)
    {
      var n := ns[k];
      n.name := prefix + n.name;
      assert forall i :: 0 <= i < |ns| && i != k ==> ns[i] != n;
    }
  }

  lemma LeafAppend(a: seq<Node>, la: seq<Data>, fa: set<Node>, b: seq<Node>, lb: seq<Data>, fb: set<Node>)
    requires Leaf(a, la, fa) && Leaf(b, lb, fb) && fa !! fb
    ensures Leaf(a + b, la + lb, fa + fb)
  {
  }

  // While the components of n are worked through one by one: those in rest still hold the trees in left,
  // apart from the nodes used so far
  ghost predicate Pending(n: Node, fp: set<Node>, nodes: seq<Node>, used: set<Node>, rest: seq<Foot>, left: seq<Data>)
    reads ObjsAll(rest)
  {
    && nodes == Roots(rest) && HoldAll(rest, left) && DistinctAll(rest)
    && used !! ObjsAll(rest) && used + ObjsAll(rest) <= fp && n !in fp
  }

  // What n holds of the flattened tree once all but the components in left were taken
  ghost predicate Taken(n: Node, t: Data, done: seq<Data>, used: set<Node>, left: seq<Data>)
    reads {n} + used
  {
    && Leaf(n.components, done, used)
    && done + FlattenAll(left) == FlattenAll(t.components)
    && Same(n, t.(duration := n.duration)) && n.duration - SerialSum(left) == Remainder(t)
  }

  // Takes one component: subtracts its time if it is serial, flattens it and appends what that yields
  method TakeOne(n: Node, component: Node, ghost f: Foot, ghost t: Data, ghost done: seq<Data>, ghost used: set<Node>)
    requires component == f.node && Holds(f, t) && Distinct(f)
    requires n !in Objs(f) && n !in used && used !! Objs(f)
    requires Leaf(n.components, done, used)
    modifies {n} + Objs(f)
    ensures n.name == old(n.name) && n.io == old(n.io)
    ensures n.parallel == old(n.parallel) && n.redundant == old(n.redundant) && n.ioRedundant == old(n.ioRedundant)
    ensures n.duration == old(n.duration) - (if Serial(t) then t.duration else 0)
    ensures Leaf(n.components, done + ([Label(Flatten(t))] + Flatten(t).components), used + Objs(f))
    decreases Size(f), 2
  {
    if !(component.parallel || component.redundant) {
      n.duration := n.duration - component.duration;
    }
    FlattenNode(component, f, t);
    ghost var flat := Flatten(t);
    var below := component.components;
    component.components := [];
    n.components := n.components + ([component] + below);
    LeafAppend([component], [Label(flat)], {component}, below, flat.components, Objs(f) - {component});
    assert {component} + (Objs(f) - {component}) == Objs(f);
    LeafAppend(old(n.components), done, used, [component] + below, [Label(flat)] + flat.components, Objs(f));
  }

  lemma NextRoot(nodes: seq<Node>, rest: seq<Foot>)
    requires nodes == Roots(rest) && nodes != []
    ensures rest != [] && nodes[0] == rest[0].node && nodes[1..] == Roots(rest[1..])
  {
  }

  method TakeNext(n: Node, nodes: seq<Node>, ghost t: Data, ghost fp: set<Node>, ghost done: seq<Data>,
                  ghost used: set<Node>, ghost rest: seq<Foot>, ghost left: seq<Data>)
    returns (ghost done': seq<Data>, ghost used': set<Node>)
    requires nodes != [] && Pending(n, fp, nodes, used, rest, left) && Taken(n, t, done, used, left)
    modifies {n} + fp
    ensures rest != [] && left != []
    ensures Pending(n, fp, nodes[1..], used', rest[1..], left[1..]) && Taken(n, t, done', used', left[1..])
    decreases SizeAll(rest), 3
  {
    NextRoot(nodes, rest);
    assert HoldAll(rest[1..], left[1..]);
    TakeOne(n, nodes[0], rest[0], left[0], done, used);
    ghost var flat := [Label(Flatten(left[0]))] + Flatten(left[0]).components;
    assert done + flat + FlattenAll(left[1..]) == done + (flat + FlattenAll(left[1..]));
    done', used' := done + flat, used + Objs(rest[0]);
  }

  // Takes all components of n in turn
  method TakeAll(n: Node, ghost f: Foot, ghost t: Data)
    requires f.node == n && Holds(f, t) && Distinct(f)
    modifies Objs(f)
    ensures Same(n, t.(duration := Remainder(t))) && Leaf(n.components, FlattenAll(t.components), Objs(f) - {n})
    decreases Size(f), 0
  {
    var components := n.components;
    n.components := [];
    ghost var fp, done, used, rest, left := ObjsAll(f.kids), [], {}, f.kids, t.components;
    assert {n} + fp == Objs(f) && Objs(f) - {n} == fp;
    for k := 0 to |components|
      invariant SizeAll(rest) < Size(f)
      invariant Pending(n, fp, components[k..], used, rest, left) && Taken(n, t, done, used, left)
    {
      assert components[k..][1..] == components[k + 1..];
      done, used := TakeNext(n, components[k..], t, fp, done, used, rest, left);
      rest, left := rest[1..], left[1..];
    }
    assert left == [] && done == FlattenAll(t.components) by { NoRoots(components[|components|..], rest); }
    WidenLeaf(n.components, done, used, Objs(f) - {n});
  }

  lemma NoRoots(nodes: seq<Node>, rest: seq<Foot>)
    requires nodes == [] && nodes == Roots(rest)
    ensures rest == []
  {
  }

  /**
   Flattens the tree below n in place: afterwards n and its components hold exactly the flattened tree, in
   the nodes that the tree was made of.
   */
  method FlattenNode(n: Node, ghost f: Foot, ghost t: Data)
    requires f.node == n && Holds(f, t) && Distinct(f)
    modifies Objs(f)
    ensures Same(n, Flatten(t)) && Leaf(n.components, Flatten(t).components, Objs(f) - {n})
    decreases Size(f), 1
  {
    TakeAll(n, f, t);
    if n.duration == 0 && n.name != "" {
      RenameAll(n.components, n.name + ":", FlattenAll(t.components), Objs(f) - {n});
    }
  }

  lemma WidenLeaf(ns: seq<Node>, ls: seq<Data>, fp: set<Node>, more: set<Node>)
    requires Leaf(ns, ls, fp) && fp <= more
    ensures Leaf(ns, ls, more)
  {
  }

  /******* Clean *******/

  lemma {:induction false} FeetAppend(a: seq<Foot>, b: seq<Foot>)
    ensures ObjsAll(a + b) == ObjsAll(a) + ObjsAll(b)
    ensures Roots(a + b) == Roots(a) + Roots(b)
    ensures DistinctAll(a) && DistinctAll(b) && ObjsAll(a) !! ObjsAll(b) ==> DistinctAll(a + b)
    decreases |a|
  {
    if a == [] {
      assert a + b == b;
    } else {
      assert (a + b)[1..] == a[1..] + b;
      FeetAppend(a[1..], b);
    }
  }

  lemma {:induction false} HoldAppend(a: seq<Foot>, ta: seq<Data>, b: seq<Foot>, tb: seq<Data>)
    requires HoldAll(a, ta) && HoldAll(b, tb)
    ensures HoldAll(a + b, ta + tb)
    decreases |a|
  {
    if a == [] {
      assert a + b == b && ta + tb == tb;
    } else {
      assert (a + b)[1..] == a[1..] + b && (ta + tb)[1..] == ta[1..] + tb;
      HoldAppend(a[1..], ta[1..], b, tb);
    }
  }

  // Nodes fs, within fp, hold the trees ts
  ghost predicate Forest(fs: seq<Foot>, ts: seq<Data>, fp: set<Node>)
    reads ObjsAll(fs)
  {
    ObjsAll(fs) <= fp && HoldAll(fs, ts) && DistinctAll(fs)
  }

  lemma ForestAppend(a: seq<Foot>, ta: seq<Data>, fa: set<Node>, b: seq<Foot>, tb: seq<Data>, fb: set<Node>)
    requires Forest(a, ta, fa) && Forest(b, tb, fb) && fa !! fb
    ensures Forest(a + b, ta + tb, fa + fb) && Roots(a + b) == Roots(a) + Roots(b)
  {
    FeetAppend(a, b);
    HoldAppend(a, ta, b, tb);
  }

  // What was kept of the tree t once all but the components in left were cleaned
  ghost predicate Kept(kept: seq<Node>, t: Data, feet: seq<Foot>, done: seq<Data>, used: set<Node>, left: seq<Data>)
    reads ObjsAll(feet)
  {
    Forest(feet, done, used) && Roots(feet) == kept && done + CleanAll(left) == CleanAll(t.components)
  }

  method CleanNext(ghost n: Node, nodes: seq<Node>, kept: seq<Node>, ghost t: Data, ghost fp: set<Node>,
                   ghost feet: seq<Foot>, ghost done: seq<Data>, ghost used: set<Node>, ghost rest: seq<Foot>, ghost left: seq<Data>)
    returns (kept': seq<Node>, ghost feet': seq<Foot>, ghost done': seq<Data>, ghost used': set<Node>)
    requires nodes != [] && Pending(n, fp, nodes, used, rest, left) && Kept(kept, t, feet, done, used, left)
    modifies fp
    ensures rest != [] && left != []
    ensures Pending(n, fp, nodes[1..], used', rest[1..], left[1..]) && Kept(kept', t, feet', done', used', left[1..])
    decreases SizeAll(rest), 3
  {
    NextRoot(nodes, rest);
    assert HoldAll(rest[1..], left[1..]);
    ghost var more, found;
    var next;
    next, more, found := CleanOne(nodes[0], rest[0], left[0]);
    assert Forest(feet, done, used);
    ForestAppend(feet, done, used, more, found, Objs(rest[0]));
    assert done + found + CleanAll(left[1..]) == done + (found + CleanAll(left[1..]));
    kept', feet', done', used' := kept + next, feet + more, done + found, used + Objs(rest[0]);
  }

  /**
   Cleans the tree below n in place: afterwards n holds the cleaned tree, in some of the nodes that the tree
   was made of.
   */
  method CleanNode(n: Node, ghost f: Foot, ghost t: Data) returns (ghost g: Foot)
    requires f.node == n && Holds(f, t) && Distinct(f)
    modifies Objs(f)
    ensures g.node == n && Holds(g, Clean(t)) && Distinct(g) && Objs(g) <= Objs(f)
    decreases Size(f), 1
  {
    var components := n.components;
    var kept := [];
    ghost var fp, feet, done, used, rest, left := ObjsAll(f.kids), [], [], {}, f.kids, t.components;
    assert {n} + fp == Objs(f);
    for k := 0 to |components|
      invariant SizeAll(rest) < Size(f) && Same(n, t)
      invariant Pending(n, fp, components[k..], used, rest, left) && Kept(kept, t, feet, done, used, left)
    {
      assert components[k..][1..] == components[k + 1..];
      kept, feet, done, used := CleanNext(n, components[k..], kept, t, fp, feet, done, used, rest, left);
      rest, left := rest[1..], left[1..];
    }
    assert left == [] && done == CleanAll(t.components) by { NoRoots(components[|components|..], rest); }
    n.components := kept;
    g := Foot(n, feet);
  }

  // Cleans one component and says what stays of it: itself, or its components if it is empty
  method CleanOne(component: Node, ghost f: Foot, ghost t: Data) returns (next: seq<Node>, ghost feet: seq<Foot>, ghost found: seq<Data>)
    requires component == f.node && Holds(f, t) && Distinct(f)
    modifies Objs(f)
    ensures found == (if Empty(Clean(t)) then Clean(t).components else [Clean(t)])
    ensures Forest(feet, found, Objs(f)) && Roots(feet) == next
    decreases Size(f), 2
  {
    ghost var g := CleanNode(component, f, t);
    if component.duration == 0 && component.io == 0 && component.name == "" {
      next, feet, found := component.components, g.kids, Clean(t).components;
    } else {
      next, feet, found := [component], [g], [Clean(t)];
    }
  }
}
