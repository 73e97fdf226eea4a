/**
 The profiling tree: flattening it into one list in which each component keeps only its own time, and
 cleaning it of empty wrappers.
 */
module ProfileTree {

  datatype Data = Data(
    name: string,
    duration: int,
    io: int,
    parallel: bool,
    redundant: bool,
    ioRedundant: bool,
    components: seq<Data>)

  // The node without its components
  function Label(d: Data): Data {
    d.(components := [])
  }

  predicate Serial(d: Data) {
    !(d.parallel || d.redundant)
  }

  /******* Flatten *******/

  function SerialSum(cs: seq<Data>): int {
    if cs == [] then 0 else (if Serial(cs[0]) then cs[0].duration else 0) + SerialSum(cs[1..])
  }

  // The time spent in the node itself
  function Remainder(d: Data): int {
    d.duration - SerialSum(d.components)
  }

  // Put p in front of every name
  function Prefixed(p: string, cs: seq<Data>): seq<Data> {
    if cs == [] then [] else [cs[0].(name := p + cs[0].name)] + Prefixed(p, cs[1..])
  }

  function Flatten(d: Data): Data
    decreases d, 1
  {
    var list := FlattenAll(d.components);
    d.(duration := Remainder(d),
       components := if Remainder(d) == 0 && d.name != "" then Prefixed(d.name + ":", list) else list)
  }

  function FlattenAll(cs: seq<Data>): seq<Data>
    decreases cs, 0
  {
    if cs == [] then []
    else
      var f := Flatten(cs[0]);
      [Label(f)] + f.components + FlattenAll(cs[1..])
  }

  /******* What flattening means *******/

  // The name of a pure category goes in front of the names of its descendants
  function Tag(d: Data): string {
    if Remainder(d) == 0 && d.name != "" then d.name + ":" else ""
  }

  // The node as it appears in the flat list
  function Flat(d: Data, prefix: string): Data {
    Label(d).(name := prefix + d.name, duration := Remainder(d))
  }

  // The descendants in preorder, with the tags of their ancestors from the root down
  function Walk(d: Data, prefix: string): seq<Data>
    decreases d, 1
  {
    WalkAll(d.components, prefix + Tag(d))
  }

  function WalkAll(cs: seq<Data>, prefix: string): seq<Data>
    decreases cs, 0
  {
    if cs == [] then [] else [Flat(cs[0], prefix)] + Walk(cs[0], prefix) + WalkAll(cs[1..], prefix)
  }

  lemma {:induction false} PrefixedAppend(p: string, a: seq<Data>, b: seq<Data>)
    ensures Prefixed(p, a + b) == Prefixed(p, a) + Prefixed(p, b)
    decreases |a|
  {
    if a == [] {
      assert a + b == b;
    } else {
      assert (a + b)[1..] == a[1..] + b;
      PrefixedAppend(p, a[1..], b);
    }
  }

  lemma {:induction false} PrefixedWalkAll(p: string, cs: seq<Data>, q: string)
    ensures Prefixed(p, WalkAll(cs, q)) == WalkAll(cs, p + q)
    decreases cs, 0
  {
    if cs != [] {
      var head, mid, tail := [Flat(cs[0], q)], Walk(cs[0], q), WalkAll(cs[1..], q);
      PrefixedAppend(p, head + mid, tail);
      PrefixedAppend(p, head, mid);
      PrefixedWalk(p, cs[0], q);
      PrefixedWalkAll(p, cs[1..], q);
      assert p + (q + cs[0].name) == (p + q) + cs[0].name;
      assert Prefixed(p, head) == [Flat(cs[0], p + q)];
    }
  }

  lemma {:induction false} PrefixedWalk(p: string, d: Data, q: string)
    ensures Prefixed(p, Walk(d, q)) == Walk(d, p + q)
    decreases d, 1
  {
    PrefixedWalkAll(p, d.components, q + Tag(d));
    assert p + (q + Tag(d)) == (p + q) + Tag(d);
  }

  /**
   Flatten turns any tree into the preorder list of its descendants. Each keeps its IO and flags and its
   duration less that of its serial components, and its name follows the names of those ancestors, from
   the root down, that are left with no time of their own and have a name.
   */
  lemma {:induction false} FlattenIsWalk(d: Data)
    ensures Flatten(d) == d.(duration := Remainder(d), components := Walk(d, ""))
    decreases d, 1
  {
    FlattenAllIsWalk(d.components);
    assert "" + Tag(d) == Tag(d);
    PrefixedWalkAll(Tag(d), d.components, "");
    assert Tag(d) + "" == Tag(d);
  }

  lemma {:induction false} FlattenAllIsWalk(cs: seq<Data>)
    ensures FlattenAll(cs) == WalkAll(cs, "")
    decreases cs, 0
  {
    if cs != [] {
      FlattenIsWalk(cs[0]);
      FlattenAllIsWalk(cs[1..]);
      assert "" + cs[0].name == cs[0].name;
      assert Label(Flatten(cs[0])) == Flat(cs[0], "");
    }
  }

  /******* Conservation *******/

  function Sum(cs: seq<Data>): int {
    if cs == [] then 0 else cs[0].duration + Sum(cs[1..])
  }

  // All time that a flat tree shows
  function Total(d: Data): int {
    d.duration + Sum(d.components)
  }

  // The labels of the descendants in preorder
  function Preorder(cs: seq<Data>): seq<Data>
    decreases cs
  {
    if cs == [] then [] else [Label(cs[0])] + Preorder(cs[0].components) + Preorder(cs[1..])
  }

  // The time of parallel and redundant nodes, which is not part of their parent's
  function ParallelSum(cs: seq<Data>): int {
    if cs == [] then 0 else (if Serial(cs[0]) then 0 else cs[0].duration) + ParallelSum(cs[1..])
  }

  lemma {:induction false} SumAppend(a: seq<Data>, b: seq<Data>)
    ensures Sum(a + b) == Sum(a) + Sum(b)
    ensures ParallelSum(a + b) == ParallelSum(a) + ParallelSum(b)
    decreases |a|
  {
    if a == [] {
      assert a + b == b;
    } else {
      assert (a + b)[1..] == a[1..] + b;
      SumAppend(a[1..], b);
    }
  }

  lemma {:induction false} WalkSum(cs: seq<Data>, prefix: string)
    ensures Sum(WalkAll(cs, prefix)) == SerialSum(cs) + ParallelSum(Preorder(cs))
    decreases cs
  {
    if cs != [] {
      var c := cs[0];
      WalkSum(c.components, prefix + Tag(c));
      WalkSum(cs[1..], prefix);
      SumAppend([Flat(c, prefix)] + Walk(c, prefix), WalkAll(cs[1..], prefix));
      SumAppend([Flat(c, prefix)], Walk(c, prefix));
      SumAppend([Label(c)] + Preorder(c.components), Preorder(cs[1..]));
      SumAppend([Label(c)], Preorder(c.components));
    }
  }

  /**
   Conservation: whatever the tree, the flat list and its root together show the root's original duration
   plus that of every parallel or redundant node, and nothing else.
   */
  lemma FlattenConserves(d: Data)
    ensures Total(Flatten(d)) == d.duration + ParallelSum(Preorder(d.components))
  {
    FlattenIsWalk(d);
    WalkSum(d.components, Tag(d));
    assert "" + Tag(d) == Tag(d);
  }

  /******* Flattening twice *******/

  predicate Leaves(cs: seq<Data>) {
    forall i :: 0 <= i < |cs| ==> cs[i].components == []
  }

  lemma {:induction false} WalkLeaves(cs: seq<Data>, prefix: string)
    ensures Leaves(WalkAll(cs, prefix))
    decreases cs
  {
    if cs != [] {
      WalkLeaves(cs[0].components, prefix + Tag(cs[0]));
      WalkLeaves(cs[1..], prefix);
    }
  }

  // The same but for names
  predicate SameButNames(a: seq<Data>, b: seq<Data>) {
    |a| == |b| && forall i :: 0 <= i < |a| ==> b[i] == a[i].(name := b[i].name)
  }

  lemma {:induction false} FlattenLeaves(cs: seq<Data>)
    requires Leaves(cs)
    ensures FlattenAll(cs) == cs
  {
    if cs != [] {
      assert Leaves(cs[1..]);
      FlattenLeaves(cs[1..]);
      assert FlattenAll([]) == [];
      assert Flatten(cs[0]) == cs[0];
    }
  }

  lemma {:induction false} PrefixedNames(p: string, cs: seq<Data>)
    ensures SameButNames(cs, Prefixed(p, cs))
    ensures forall i :: 0 <= i < |cs| ==> Prefixed(p, cs)[i].name == p + cs[i].name
  {
    if cs != [] { PrefixedNames(p, cs[1..]); }
  }

  // The own time of all serial nodes below
  function SerialOwn(cs: seq<Data>): int
    decreases cs
  {
    if cs == [] then 0
    else (if Serial(cs[0]) then Remainder(cs[0]) else 0) + SerialOwn(cs[0].components) + SerialOwn(cs[1..])
  }

  lemma {:induction false} SerialSumAppend(a: seq<Data>, b: seq<Data>)
    ensures SerialSum(a + b) == SerialSum(a) + SerialSum(b)
    decreases |a|
  {
    if a == [] {
      assert a + b == b;
    } else {
      assert (a + b)[1..] == a[1..] + b;
      SerialSumAppend(a[1..], b);
    }
  }

  lemma {:induction false} WalkSerial(cs: seq<Data>, prefix: string)
    ensures SerialSum(WalkAll(cs, prefix)) == SerialOwn(cs)
    ensures WalkAll(cs, prefix) == [] <==> cs == []
    decreases cs
  {
    if cs != [] {
      var c := cs[0];
      WalkSerial(c.components, prefix + Tag(c));
      WalkSerial(cs[1..], prefix);
      SerialSumAppend([Flat(c, prefix)] + Walk(c, prefix), WalkAll(cs[1..], prefix));
      SerialSumAppend([Flat(c, prefix)], Walk(c, prefix));
    }
  }

  // A flat tree flattened again: names may get the root's in front, nothing else changes
  lemma FlattenFlat(f: Data)
    requires Leaves(f.components)
    ensures Flatten(f) == f.(duration := Remainder(f),
                             components := if Remainder(f) == 0 && f.name != "" then Prefixed(f.name + ":", f.components) else f.components)
  {
    FlattenLeaves(f.components);
  }

  lemma PrefixedDiffers(p: string, cs: seq<Data>)
    requires p != ""
    ensures Prefixed(p, cs) == cs <==> cs == []
  {
    PrefixedNames(p, cs);
    if cs != [] {
      assert |p + cs[0].name| > |cs[0].name|;
    }
  }

  /**
   Flattening what is already flat changes no component's duration, IO, flags or position. It changes the
   names exactly when there are components, the root has a name, and the root's own time is as much as the
   own time of all serial nodes below it.
   */
  lemma FlattenTwice(d: Data)
    ensures var f, g := Flatten(d), Flatten(Flatten(d));
            && SameButNames(f.components, g.components)
            && (g.components == f.components <==> d.components == [] || d.name == "" || Remainder(d) != SerialOwn(d.components))
  {
    var f := Flatten(d);
    FlattenIsWalk(d);
    WalkLeaves(d.components, "" + Tag(d));
    WalkSerial(d.components, "" + Tag(d));
    FlattenFlat(f);
    PrefixedNames(d.name + ":", f.components);
    PrefixedDiffers(d.name + ":", f.components);
  }

  // Half of the root's time is its own, half its component's: the second time the component is renamed
  lemma RenamedTheSecondTime()
    ensures var d := Data("r", 10, 0, false, false, false, [Data("c", 5, 0, false, false, false, [])]);
            Flatten(Flatten(d)).components != Flatten(d).components
  {
    var c := Data("c", 5, 0, false, false, false, []);
    var d := Data("r", 10, 0, false, false, false, [c]);
    assert d.components[1..] == [] && SerialSum(d.components) == 5 && SerialSum(c.components) == 0;
    assert SerialOwn(d.components) == 5 by { assert SerialOwn([]) == 0; }
    FlattenTwice(d);
  }

  /******* Clean *******/

  predicate Empty(d: Data) {
    d.duration == 0 && d.io == 0 && d.name == ""
  }

  function Clean(d: Data): Data
    decreases d, 1
  {
    d.(components := CleanAll(d.components))
  }

  function CleanAll(cs: seq<Data>): seq<Data>
    decreases cs, 0
  {
    if cs == [] then []
    else
      var c := Clean(cs[0]);
      (if Empty(c) then c.components else [c]) + CleanAll(cs[1..])
  }

  function Filled(labels: seq<Data>): seq<Data> {
    if labels == [] then [] else (if Empty(labels[0]) then [] else [labels[0]]) + Filled(labels[1..])
  }

  lemma {:induction false} FilledAppend(a: seq<Data>, b: seq<Data>)
    ensures Filled(a + b) == Filled(a) + Filled(b)
    decreases |a|
  {
    if a == [] {
      assert a + b == b;
    } else {
      assert (a + b)[1..] == a[1..] + b;
      FilledAppend(a[1..], b);
    }
  }

  lemma {:induction false} PreorderAppend(a: seq<Data>, b: seq<Data>)
    ensures Preorder(a + b) == Preorder(a) + Preorder(b)
    decreases |a|
  {
    if a == [] {
      assert a + b == b;
    } else {
      assert (a + b)[1..] == a[1..] + b;
      PreorderAppend(a[1..], b);
    }
  }

  /**
   Clean removes exactly the empty nodes below the root, at every depth, and keeps the others in preorder.
   */
  lemma {:induction false} CleanFilters(cs: seq<Data>)
    ensures Preorder(CleanAll(cs)) == Filled(Preorder(cs))
    decreases cs
  {
    if cs != [] {
      var c := Clean(cs[0]);
      var first := if Empty(c) then c.components else [c];
      CleanFilters(cs[0].components);
      CleanFilters(cs[1..]);
      PreorderAppend(first, CleanAll(cs[1..]));
      var own := [Label(cs[0])];
      FilledAppend(own + Preorder(cs[0].components), Preorder(cs[1..]));
      FilledAppend(own, Preorder(cs[0].components));
      assert Preorder([]) == [] && Filled([]) == [];
      assert Label(c) == Label(cs[0]);
      if !Empty(c) { assert Preorder([c]) == [Label(c)] + Preorder(c.components) + []; }
    }
  }

  lemma {:induction false} FilledIff(labels: seq<Data>, d: Data)
    ensures d in Filled(labels) <==> d in labels && (d.duration != 0 || d.io != 0 || d.name != "")
  {
    if labels != [] {
      FilledIff(labels[1..], d);
      assert labels == [labels[0]] + labels[1..];
    }
  }

  function IOSum(labels: seq<Data>): int {
    if labels == [] then 0 else labels[0].io + IOSum(labels[1..])
  }

  lemma {:induction false} IOSumFilled(labels: seq<Data>)
    ensures IOSum(Filled(labels)) == IOSum(labels)
  {
    if labels != [] {
      IOSumFilled(labels[1..]);
      var rest := Filled(labels[1..]);
      if Empty(labels[0]) {
        assert [] + rest == rest;
      } else {
        assert ([labels[0]] + rest)[1..] == rest;
      }
    }
  }

  /**
   A node stays exactly if it has time, IO or a name of its own, so cleaning loses no IO.
   */
  lemma CleanKeepsNodes(cs: seq<Data>, d: Data)
    ensures d in Preorder(CleanAll(cs)) <==> d in Preorder(cs) && (d.duration != 0 || d.io != 0 || d.name != "")
    ensures IOSum(Preorder(CleanAll(cs))) == IOSum(Preorder(cs))
  {
    CleanFilters(cs);
    FilledIff(Preorder(cs), d);
    IOSumFilled(Preorder(cs));
  }

  // No node below the root is empty
  predicate Cleaned(cs: seq<Data>)
    decreases cs
  {
    cs == [] || (!Empty(cs[0]) && Cleaned(cs[0].components) && Cleaned(cs[1..]))
  }

  lemma {:induction false} CleanedAppend(a: seq<Data>, b: seq<Data>)
    ensures Cleaned(a + b) <==> Cleaned(a) && Cleaned(b)
    decreases |a|
  {
    if a == [] {
      assert a + b == b;
    } else {
      assert (a + b)[1..] == a[1..] + b;
      CleanedAppend(a[1..], b);
    }
  }

  lemma {:induction false} CleanCleans(cs: seq<Data>)
    ensures Cleaned(CleanAll(cs))
    decreases cs
  {
    if cs != [] {
      CleanCleans(cs[0].components);
      CleanCleans(cs[1..]);
      var c := Clean(cs[0]);
      CleanedAppend(if Empty(c) then c.components else [c], CleanAll(cs[1..]));
    }
  }

  lemma {:induction false} CleanKeepsCleaned(cs: seq<Data>)
    requires Cleaned(cs)
    ensures CleanAll(cs) == cs
    decreases cs
  {
    if cs != [] {
      CleanKeepsCleaned(cs[0].components);
      CleanKeepsCleaned(cs[1..]);
    }
  }

  // Cleaning twice is cleaning once, and a tree is left alone exactly when it is clean
  lemma CleanIsIdempotent(d: Data)
    ensures Clean(Clean(d)) == Clean(d)
    ensures Clean(d) == d <==> Cleaned(d.components)
  {
    CleanCleans(d.components);
    CleanKeepsCleaned(Clean(d).components);
    if Cleaned(d.components) { CleanKeepsCleaned(d.components); }
  }

  lemma {:induction false} FilledParallelSum(labels: seq<Data>)
    ensures ParallelSum(Filled(labels)) == ParallelSum(labels)
  {
    if labels != [] {
      FilledParallelSum(labels[1..]);
      SumAppend(if Empty(labels[0]) then [] else [labels[0]], Filled(labels[1..]));
    }
  }

  // Cleaning before flattening leaves the total as it was
  lemma CleanKeepsTotal(d: Data)
    ensures Total(Flatten(Clean(d))) == Total(Flatten(d))
  {
    FlattenConserves(d);
    FlattenConserves(Clean(d));
    CleanFilters(d.components);
    FilledParallelSum(Preorder(d.components));
  }
}
