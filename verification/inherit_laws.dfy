/**
 What the table of inherited files promises, for every saved state and every outcome of opening its files, with
 conditions on the state and the request alone.
 */
module InheritLaws {
  import opened InheritKeys
  import opened InheritTable
  import opened InheritPlan

  /******* The process adapter, from its inputs *******/

  // No internal file before the j-th has its descriptor
  predicate FirstSeen(mounts: set<nat>, files: seq<OpenFile>, j: nat)
    requires j < |files|
  {
    forall i :: 0 <= i < j && !External(mounts, files[i]) ==> files[i].fd != files[j].fd
  }

  // The walk ends at the j-th file: an internal terminal that there is nothing to replace with
  predicate StopsAt(w: World, files: seq<OpenFile>, j: nat)
    requires j < |files|
  {
    !w.serverless && !External(w.mounts, files[j]) && files[j].tty && FirstSeen(w.mounts, files, j)
  }

  predicate StopsBefore(w: World, files: seq<OpenFile>, n: nat)
    requires n <= |files|
  {
    exists j :: 0 <= j < n && StopsAt(w, files, j)
  }

  function SeenBefore(mounts: set<nat>, files: seq<OpenFile>, n: nat): set<nat>
    requires n <= |files|
  {
    if n == 0 then {}
    else SeenBefore(mounts, files, n - 1) + if External(mounts, files[n - 1]) then {} else {files[n - 1].fd}
  }

  lemma {:induction false} SeenBeforeIff(mounts: set<nat>, files: seq<OpenFile>, n: nat, fd: nat)
    requires n <= |files|
    ensures fd in SeenBefore(mounts, files, n) <==> exists i :: 0 <= i < n && !External(mounts, files[i]) && files[i].fd == fd
  {
    if n > 0 {
      SeenBeforeIff(mounts, files, n - 1, fd);
      if fd in SeenBefore(mounts, files, n - 1) {
        var i :| 0 <= i < n - 1 && !External(mounts, files[i]) && files[i].fd == fd;
        assert i < n;
      }
    }
  }

  // The walk stops exactly at the first internal terminal with a descriptor of its own, if not serverless
  lemma {:induction false} StopsIff(w: World, files: seq<OpenFile>, t: Table, n: nat)
    requires n <= |files|
    ensures Walked(w, files, t, n).stopped <==> StopsBefore(w, files, n)
    ensures !StopsBefore(w, files, n) ==> Walked(w, files, t, n).stdio == SeenBefore(w.mounts, files, n)
  {
    if n > 0 {
      StopsIff(w, files, t, n - 1);
      var p, f := Walked(w, files, t, n - 1), files[n - 1];
      if StopsBefore(w, files, n - 1) {
        var j :| 0 <= j < n - 1 && StopsAt(w, files, j);
        assert j < n;
      } else {
        VisitRest(w, p, f, n - 1);
        SeenBeforeIff(w.mounts, files, n - 1, f.fd);
        assert StopsBefore(w, files, n) <==> StopsAt(w, files, n - 1);
      }
    }
  }

  // The walk comes to the j-th file and wants it inherited
  predicate Offers(w: World, files: seq<OpenFile>, j: nat)
    requires j < |files|
  {
    !StopsBefore(w, files, j) && Wants(w, SeenBefore(w.mounts, files, j), files[j], j)
  }

  // What the walk wants of each file
  function PlanOf(w: World, files: seq<OpenFile>): Plan {
    Plan((j: nat) => j < |files| && Offers(w, files, j),
         (j: nat) => if j < |files| then KeyFor(w.mounts, files[j]) else "",
         (j: nat) => if j < |files| then SlotFor(w, files[j]) else Shm)
  }

  lemma NextTable(w: World, files: seq<OpenFile>, t: Table, n: nat)
    requires n < |files|
    ensures Walked(w, files, t, n + 1).table == Carry(PlanOf(w, files), Walked(w, files, t, n).table, n)
  {
    StopsIff(w, files, t, n);
    if !StopsBefore(w, files, n) {
      VisitTable(w, Walked(w, files, t, n), files[n], n);
    }
  }

  lemma {:induction false} WalkedIsCarried(w: World, files: seq<OpenFile>, t: Table, n: nat)
    requires n <= |files|
    ensures Walked(w, files, t, n).table == Carried(PlanOf(w, files), t, n)
  {
    if n > 0 {
      WalkedIsCarried(w, files, t, n - 1);
      NextTable(w, files, t, n - 1);
    }
  }

  /******* The GPU adapter, from its inputs *******/

  predicate FirstBroken(g: GpuWorld, b: nat) {
    g.known(b).Broken? && forall l :: 0 <= l < b ==> !g.known(l).Broken?
  }

  ghost predicate BrokenBefore(g: GpuWorld, n: nat) {
    exists b :: 0 <= b < n && FirstBroken(g, b)
  }

  lemma {:induction false} FirstOfBroken(g: GpuWorld, l: nat) returns (b: nat)
    requires g.known(l).Broken?
    ensures b <= l && FirstBroken(g, b)
  {
    b := 0;
    while b < l && !g.known(b).Broken?
      invariant b <= l && forall k :: 0 <= k < b ==> !g.known(k).Broken?
    {
      b := b + 1;
    }
  }

  lemma {:induction false} GpuBeforeTrouble(g: GpuWorld, files: seq<OpenFile>, t: Table, n: nat)
    requires n <= |files| && !GivesUp(g, t) && forall l :: 0 <= l < n ==> !g.known(l).Broken?
    ensures !GpuWalked(g, files, t, n).halted && !GpuWalked(g, files, t, n).failed
  {
    if n > 0 {
      GpuBeforeTrouble(g, files, t, n - 1);
    }
  }

  // The walk is halted by the first trouble, and the adapter fails exactly if that is not shadowed
  lemma GpuAfterTrouble(g: GpuWorld, files: seq<OpenFile>, t: Table, b: nat, n: nat)
    requires b < n <= |files| && !GivesUp(g, t) && FirstBroken(g, b)
    ensures GpuWalked(g, files, t, n) == GpuWalked(g, files, t, b).(halted := true, failed := !Shadowed(g.known(b).why))
  {
    GpuBeforeTrouble(g, files, t, b);
    GpuHalts(g, files, t, b, n);
  }

  lemma GpuHalts(g: GpuWorld, files: seq<OpenFile>, t: Table, b: nat, n: nat)
    requires b < n <= |files| && g.known(b).Broken? && !GpuWalked(g, files, t, b).halted
    ensures GpuWalked(g, files, t, n) == GpuWalked(g, files, t, b).(halted := true, failed := !Shadowed(g.known(b).why))
  {
    GpuAtTrouble(g, files, t, b);
    HaltedStays(g, files, t, b + 1, n);
  }

  lemma GpuAtTrouble(g: GpuWorld, files: seq<OpenFile>, t: Table, b: nat)
    requires b < |files| && g.known(b).Broken? && !GpuWalked(g, files, t, b).halted
    ensures GpuWalked(g, files, t, b + 1) == GpuWalked(g, files, t, b).(halted := true, failed := !Shadowed(g.known(b).why))
  {
  }

  lemma GpuHaltedIff(g: GpuWorld, files: seq<OpenFile>, t: Table, n: nat)
    requires n <= |files| && !GivesUp(g, t)
    ensures GpuWalked(g, files, t, n).halted <==> BrokenBefore(g, n)
  {
    if BrokenBefore(g, n) {
      var b :| 0 <= b < n && FirstBroken(g, b);
      GpuAfterTrouble(g, files, t, b, n);
    } else {
      forall l | 0 <= l < n ensures !g.known(l).Broken? {
        if g.known(l).Broken? { var b := FirstOfBroken(g, l); }
      }
      GpuBeforeTrouble(g, files, t, n);
    }
  }

  // The first trouble among the first n files is one whose error is lost, or one whose error is not
  ghost predicate FirstTrouble(g: GpuWorld, n: nat, lost: bool) {
    exists b :: 0 <= b < n && FirstBroken(g, b) && Shadowed(g.known(b).why) == lost
  }

  lemma OneFirstTrouble(g: GpuWorld, b: nat, n: nat, lost: bool)
    requires b < n && FirstBroken(g, b)
    ensures FirstTrouble(g, n, lost) <==> Shadowed(g.known(b).why) == lost
  {
    if FirstTrouble(g, n, lost) {
      var a :| 0 <= a < n && FirstBroken(g, a) && Shadowed(g.known(a).why) == lost;
      assert a == b;
    }
  }

  predicate AnyTrouble(g: GpuWorld, n: nat) {
    exists l :: 0 <= l < n && g.known(l).Broken?
  }

  /**
   A GPU file that cannot be recreated goes unnoticed, and the restore goes on with the files before it,
   exactly if the first trouble is the creation, the mode or the size of a hostmem file.
   */
  lemma TroubleIsLostIff(g: GpuWorld, files: seq<OpenFile>, t: Table)
    ensures var p, n := GpuWalked(g, files, t, |files|), |files|;
            && (!p.failed && AnyTrouble(g, n) <==> !GivesUp(g, t) && FirstTrouble(g, n, true))
            && (p.failed <==> GivesUp(g, t) || FirstTrouble(g, n, false))
  {
    var n := |files|;
    if GivesUp(g, t) {
      HaltedStays(g, files, t, 0, n);
    } else if AnyTrouble(g, n) {
      var l :| 0 <= l < n && g.known(l).Broken?;
      var b := FirstOfBroken(g, l);
      GpuAfterTrouble(g, files, t, b, n);
      OneFirstTrouble(g, b, n, true);
      OneFirstTrouble(g, b, n, false);
    } else {
      GpuBeforeTrouble(g, files, t, n);
    }
  }

  // A state whose one hostmem file cannot be created: nothing fails, and the file is not handed over
  lemma TroubleIsLost() returns (g: GpuWorld, files: seq<OpenFile>)
    ensures |files| == 1 && g.known(0) == Broken(HostmemNotCreated)
    ensures var p := GpuWalked(g, files, Table(map[], [], []), 1);
            !p.failed && p.table.inherits == [Inherit("shm", 3)]
  {
    g := GpuWorld({}, "shm", false, true, true, i => Broken(HostmemNotCreated));
    files := [OpenFile("/h", 9, 0, 0, 0, 0, false)];
    assert GpuWalked(g, files, Table(map[], [], []), 0) == GpuProgress(Table(map["shm" := 3], [Shm], [Inherit("shm", 3)]), false, false);
  }

  // The keys that the GPU adapter takes
  ghost predicate TakenByGpu(g: GpuWorld, files: seq<OpenFile>, n: nat, key: string)
    requires n <= |files|
  {
    key == g.shmKey || exists j :: 0 <= j < n && TakesAt(g, files, j, key)
  }

  ghost predicate TakesAt(g: GpuWorld, files: seq<OpenFile>, j: nat, key: string)
    requires j < |files|
  {
    g.known(j).Recreated? && !BrokenBefore(g, j) && GpuKey(g.mounts, files[j]) == key
  }

  // Which keys the GPU adapter has taken, and that it has handed them over unless it is for a container
  lemma {:induction false} GpuKeysIff(g: GpuWorld, files: seq<OpenFile>, given: seq<Inherit>, n: nat, key: string)
    requires n <= |files| && !GivesUp(g, Table(map[], [], given))
    ensures var u := GpuWalked(g, files, Table(map[], [], given), n).table;
            && (key in u.fds <==> TakenByGpu(g, files, n, key))
            && (g.container ==> u.inherits == given) && |given| <= |u.inherits|
            && (!g.container ==> (HasEntry(u, |given|, key) <==> key in u.fds))
  {
    if n == 0 {
      GpuStartKeys(g, files, given, key);
    } else {
      GpuKeysIff(g, files, given, n - 1, key);
      GpuHaltedIff(g, files, Table(map[], [], given), n - 1);
      GpuNextKeys(g, files, |given|, GpuWalked(g, files, Table(map[], [], given), n - 1), n - 1, key);
    }
  }

  lemma GpuStartKeys(g: GpuWorld, files: seq<OpenFile>, given: seq<Inherit>, key: string)
    requires !GivesUp(g, Table(map[], [], given))
    ensures var u := GpuWalked(g, files, Table(map[], [], given), 0).table;
            && (key in u.fds <==> TakenByGpu(g, files, 0, key))
            && (g.container ==> u.inherits == given) && |given| <= |u.inherits|
            && (!g.container ==> (HasEntry(u, |given|, key) <==> key in u.fds))
  {
    var u := GpuWalked(g, files, Table(map[], [], given), 0).table;
    if !g.container {
      assert u.inherits[|given|] == Inherit(g.shmKey, 3);
    }
  }

  lemma GpuNextKeys(g: GpuWorld, files: seq<OpenFile>, given: nat, p: GpuProgress, n: nat, key: string)
    requires n < |files| && (p.halted <==> BrokenBefore(g, n)) && given <= |p.table.inherits|
    requires key in p.table.fds <==> TakenByGpu(g, files, n, key)
    requires !g.container ==> (HasEntry(p.table, given, key) <==> key in p.table.fds)
    ensures var u := GpuVisit(g, p, files[n], n).table;
            && (key in u.fds <==> TakenByGpu(g, files, n + 1, key)) && given <= |u.inherits|
            && (g.container ==> u.inherits == p.table.inherits)
            && (!g.container ==> (HasEntry(u, given, key) <==> key in u.fds))
  {
    GpuVisitKeys(g, p, files[n], n, given, key);
    TakenNext(g, files, n + 1, key);
  }

  lemma TakenNext(g: GpuWorld, files: seq<OpenFile>, n: nat, key: string)
    requires 0 < n <= |files|
    ensures TakenByGpu(g, files, n, key) <==> TakenByGpu(g, files, n - 1, key) || TakesAt(g, files, n - 1, key)
  {
    if TakenByGpu(g, files, n - 1, key) && key != g.shmKey {
      var j :| 0 <= j < n - 1 && TakesAt(g, files, j, key);
      assert j < n;
    }
  }

  lemma GpuVisitKeys(g: GpuWorld, p: GpuProgress, f: OpenFile, i: nat, given: nat, key: string)
    requires given <= |p.table.inherits| && (!g.container ==> (HasEntry(p.table, given, key) <==> key in p.table.fds))
    ensures var u := GpuVisit(g, p, f, i).table;
            && (key in u.fds <==> key in p.table.fds || (!p.halted && g.known(i).Recreated? && GpuKey(g.mounts, f) == key))
            && given <= |u.inherits|
            && (g.container ==> u.inherits == p.table.inherits)
            && (!g.container ==> (HasEntry(u, given, key) <==> key in u.fds))
  {
    if !p.halted && g.known(i).Recreated? && GpuKey(g.mounts, f) !in p.table.fds {
      EntryNext(g, p.table, given, GpuKey(g.mounts, f), GpuFile(f), key);
    }
  }

  lemma EntryNext(g: GpuWorld, t: Table, given: nat, new': string, slot: Slot, key: string)
    requires given <= |t.inherits|
    ensures var u := GpuAdd(g, t, new', slot);
            && (key in u.fds <==> key in t.fds || key == new')
            && (HasEntry(u, given, key) <==> HasEntry(t, given, key) || (!g.container && key == new'))
  {
    if !g.container {
      AddedEntry(t, given, new', t.Next(), slot, key);
    }
  }

  lemma {:induction false} GpuHandsFiles(g: GpuWorld, files: seq<OpenFile>, t: Table, n: nat)
    requires n <= |files| && forall i :: 0 <= i < |t.extra| ==> !t.extra[i].NoFile?
    ensures forall i :: 0 <= i < |GpuWalked(g, files, t, n).table.extra| ==> !GpuWalked(g, files, t, n).table.extra[i].NoFile?
  {
    if n > 0 {
      GpuHandsFiles(g, files, t, n - 1);
    }
  }

  /******* Both adapters *******/

  // What the process adapter starts from: the request's own entries, and the GPU adapter's if there is one
  ghost predicate Started(w: World, g: Option<GpuWorld>, files: seq<OpenFile>, given: seq<Inherit>, t0: Table) {
    var empty := Table(map[], [], given);
    if g.None? then t0 == empty
    else
      && g.value.mounts == w.mounts && !GpuWalked(g.value, files, empty, |files|).failed
      && t0 == GpuWalked(g.value, files, empty, |files|).table
  }

  ghost predicate Built(w: World, g: Option<GpuWorld>, files: seq<OpenFile>, given: seq<Inherit>, t: Table) {
    exists t0 :: Started(w, g, files, given, t0) && t == Walked(w, files, t0, |files|).table
  }

  function ShmKey(g: Option<GpuWorld>): string {
    if g.Some? then g.value.shmKey else ""
  }

  lemma StartedInv(w: World, g: Option<GpuWorld>, files: seq<OpenFile>, given: seq<Inherit>, t0: Table)
    requires Started(w, g, files, given, t0)
    ensures Inv(w.mounts, ShmKey(g), files, |given|, t0)
    ensures forall i :: 0 <= i < |t0.extra| ==> Holds(t0.extra[i])
  {
    var empty := Table(map[], [], given);
    if g.Some? {
      GpuWalkKeepsInv(g.value, files, |given|, empty, |files|);
      GpuHandsFiles(g.value, files, empty, |files|);
    }
  }

  lemma BuiltInv(w: World, g: Option<GpuWorld>, files: seq<OpenFile>, given: seq<Inherit>, t: Table) returns (t0: Table)
    requires Built(w, g, files, given, t)
    ensures Started(w, g, files, given, t0) && t == Walked(w, files, t0, |files|).table
    ensures Inv(w.mounts, ShmKey(g), files, |given|, t)
  {
    t0 :| Started(w, g, files, given, t0) && t == Walked(w, files, t0, |files|).table;
    StartedInv(w, g, files, given, t0);
    WalkKeepsInv(w, ShmKey(g), files, |given|, t0, |files|);
  }

  // Keys are distinct; an entry whose slot holds a file finds it at its own number; the socket comes after them all
  lemma EntriesFindTheirFiles(w: World, g: Option<GpuWorld>, files: seq<OpenFile>, given: seq<Inherit>, t: Table)
    requires Built(w, g, files, given, t)
    ensures |t.inherits| == |given| + |t.extra|
    ensures forall i, j :: |given| <= i < j < |t.inherits| ==> t.inherits[i].key != t.inherits[j].key
    ensures forall i :: 0 <= i < |t.extra| && !t.extra[i].NoFile? ==> t.inherits[|given| + i].fd == 3 + i < t.Next()
    ensures forall i :: 0 <= i < |t.extra| && t.extra[i].Opened? ==> t.inherits[|given| + i].key == FileKey(t.extra[i].f)
    ensures forall i :: 0 <= i < |t.extra| && t.extra[i].NoFile? ==> t.inherits[|given| + i].fd == t.extra[i].f.fd
  {
    var t0 := BuiltInv(w, g, files, given, t);
    forall i | 0 <= i < |t.extra|
      ensures t.inherits[|given| + i].fd == NumberFor(t.extra[i], i)
      ensures t.extra[i].Opened? ==> t.inherits[|given| + i].key == FileKey(t.extra[i].f)
    {
      assert SlotOk(w.mounts, ShmKey(g), files, |given|, t, i);
    }
  }

  // Whatever the process adapter inherits as external was declared by the dump
  lemma InheritedWasDeclared(w: World, g: Option<GpuWorld>, files: seq<OpenFile>, given: seq<Inherit>, t: Table, i: nat)
    requires Built(w, g, files, given, t) && i < |t.extra|
    requires t.extra[i].Opened? || (t.extra[i].NoFile? && External(w.mounts, t.extra[i].f))
    ensures |given| + i < |t.inherits| && t.inherits[|given| + i].key in Declared(w.mounts, files, |files|)
  {
    var t0 := BuiltInv(w, g, files, given, t);
    SlotDeclared(w.mounts, ShmKey(g), files, |given|, t, i);
  }

  lemma SlotDeclared(mounts: set<nat>, shmKey: string, files: seq<OpenFile>, given: nat, t: Table, i: nat)
    requires Inv(mounts, shmKey, files, given, t) && i < |t.extra|
    requires t.extra[i].Opened? || (t.extra[i].NoFile? && External(mounts, t.extra[i].f))
    ensures t.inherits[given + i].key in Declared(mounts, files, |files|)
  {
    SlotNamed(mounts, shmKey, files, given, t, i);
    DeclaredIff(mounts, files, |files|, t.inherits[given + i].key);
  }

  lemma SlotNamed(mounts: set<nat>, shmKey: string, files: seq<OpenFile>, given: nat, t: Table, i: nat)
    requires Inv(mounts, shmKey, files, given, t) && i < |t.extra|
    requires t.extra[i].Opened? || (t.extra[i].NoFile? && External(mounts, t.extra[i].f))
    ensures Named(mounts, files, |files|, t.inherits[given + i].key)
  {
    assert SlotOk(mounts, shmKey, files, given, t, i);
    var k :| 0 <= k < |files| && files[k] == t.extra[i].f;
    assert Names(mounts, files[k], t.inherits[given + i].key);
  }

  /**
   Which keys the request ends up with, beside those it came with: those the GPU adapter handed over, and those
   that some file of the walk offers, except what the GPU adapter took without handing it over, for a container.
   */
  lemma HasEntryIff(w: World, g: Option<GpuWorld>, files: seq<OpenFile>, given: seq<Inherit>, t: Table, key: string)
    requires Built(w, g, files, given, t)
    ensures HasEntry(t, |given|, key) <==>
            if g.Some? && TakenByGpu(g.value, files, |files|, key) then !g.value.container
            else Offered(PlanOf(w, files), |files|, key)
  {
    var t0 := BuiltInv(w, g, files, given, t);
    StartedKeys(w, g, files, given, t0, key);
    WalkedIsCarried(w, files, t0, |files|);
    EntryIff(PlanOf(w, files), t0, |files|, |given|, key);
  }

  lemma StartedKeys(w: World, g: Option<GpuWorld>, files: seq<OpenFile>, given: seq<Inherit>, t0: Table, key: string)
    requires Started(w, g, files, given, t0)
    ensures |given| <= |t0.inherits|
    ensures key in t0.fds <==> g.Some? && TakenByGpu(g.value, files, |files|, key)
    ensures HasEntry(t0, |given|, key) <==> key in t0.fds && g.Some? && !g.value.container
  {
    if g.Some? {
      if GivesUp(g.value, Table(map[], [], given)) {
        HaltedStays(g.value, files, Table(map[], [], given), 0, |files|);
      }
      GpuKeysIff(g.value, files, given, |files|, key);
    }
  }

  /**
   Every declared key has an entry in the inherit list, if the walk comes to its file and that is a terminal or
   can be opened, unless the GPU adapter took the key for a container.
   */
  lemma DeclaredIsInherited(w: World, g: Option<GpuWorld>, files: seq<OpenFile>, given: seq<Inherit>, t: Table, k: nat)
    requires Built(w, g, files, given, t) && k < |files| && External(w.mounts, files[k]) && !StopsBefore(w, files, k)
    requires files[k].tty || (w.opens(k) && !Unknown(files[k]))
    ensures HasEntry(t, |given|, ExternalKey(files[k])) <==>
            !(g.Some? && g.value.container && TakenByGpu(g.value, files, |files|, ExternalKey(files[k])))
  {
    HasEntryIff(w, g, files, given, t, ExternalKey(files[k]));
    assert OffersKey(PlanOf(w, files), k, ExternalKey(files[k]));
  }

  // A declared file that can be opened and is still not inherited, in a container
  lemma DeclaredIsNotInherited() returns (w: World, g: GpuWorld, files: seq<OpenFile>, t: Table)
    ensures Built(w, Some(g), files, [], t) && |files| == 1 && External(w.mounts, files[0]) && w.opens(0) && !Unknown(files[0])
    ensures t.inherits == []
  {
    var f := OpenFile("/a", 4, 7, 9, 0, 0, false);
    w, files := World({}, false, false, false, i => true), [f];
    g := GpuWorld({}, "shm", true, true, true, i => Recreated);
    assert External({}, f);
    var t1 := Table(map["shm" := 3], [], []);
    assert GpuWalked(g, files, Table(map[], [], []), 0) == GpuProgress(t1, false, false);
    assert FileKey(f) != "shm" by { assert FileKey(f)[0] == 'f'; }
    var t0 := t1.(fds := t1.fds[FileKey(f) := 3]);
    assert GpuWalked(g, files, Table(map[], [], []), 1) == GpuProgress(t0, false, false);
    assert Started(w, Some(g), files, [], t0);
    assert Walked(w, files, t0, 0) == Progress(t0, {}, false, false);
    t := Walked(w, files, t0, 1).table;
    assert t == t0;
  }

  /******* When the process adapter fails *******/

  // The walk comes to the j-th file and tries to open it
  predicate Tries(w: World, files: seq<OpenFile>, t: Table, j: nat)
    requires j < |files|
  {
    var f := files[j];
    && !StopsBefore(w, files, j) && External(w.mounts, f) && !f.tty && !Unknown(f)
    && FileKey(f) !in t.fds && !Offered(PlanOf(w, files), j, FileKey(f))
  }

  function TriesOf(w: World, files: seq<OpenFile>, t: Table): nat -> bool {
    (j: nat) => j < |files| && Tries(w, files, t, j)
  }

  lemma FailsNext(w: World, files: seq<OpenFile>, t: Table, n: nat)
    requires n < |files| && !StopsBefore(w, files, n)
    ensures Walked(w, files, t, n + 1).failed
       <==> if Tries(w, files, t, n) then !w.opens(n) else Walked(w, files, t, n).failed || StopsBefore(w, files, n + 1)
    ensures Tries(w, files, t, n) ==> !StopsBefore(w, files, n + 1)
  {
    StopsIff(w, files, t, n);
    StopsIff(w, files, t, n + 1);
    VisitRest(w, Walked(w, files, t, n), files[n], n);
    WalkedIsCarried(w, files, t, n);
    KeyIff(PlanOf(w, files), t, n, FileKey(files[n]));
  }

  lemma StopsLater(w: World, files: seq<OpenFile>, n: nat, m: nat)
    requires n <= m <= |files| && StopsBefore(w, files, n)
    ensures StopsBefore(w, files, m)
  {
    var j :| 0 <= j < n && StopsAt(w, files, j);
    assert j < m;
  }

  /**
   A file that cannot be opened is passed over, yet fails the restore if no later one can be opened; besides,
   the restore fails at an internal terminal. All of it can be told from the state and the request.
   */
  lemma {:induction false} FailsIff(w: World, files: seq<OpenFile>, t: Table, n: nat)
    requires n <= |files|
    ensures Walked(w, files, t, n).failed <==> StopsBefore(w, files, n) || EndsInVain(TriesOf(w, files, t), w.opens, n)
  {
    if n > 0 {
      FailsIff(w, files, t, n - 1);
      if StopsBefore(w, files, n - 1) {
        StopsLater(w, files, n - 1, n);
        StopsIff(w, files, t, n - 1);
        StoppedStays(w, files, t, n - 1, n);
      } else {
        FailsNext(w, files, t, n - 1);
        EndsInVainNext(TriesOf(w, files, t), w.opens, n);
        assert TriesOf(w, files, t)(n - 1) == Tries(w, files, t, n - 1);
      }
    }
  }

  // One file that cannot be opened: with another after it that can, the restore goes on; without, it fails
  lemma FailsOrNot(t: Table) returns (w: World, files: seq<OpenFile>)
    requires t.fds == map[]
    ensures |files| == 2 && External(w.mounts, files[0]) && !w.opens(0)
    ensures Walked(w, files, t, 1).failed && !Walked(w, files, t, 2).failed
  {
    w := World({}, false, false, false, i => i == 1);
    files := [OpenFile("/a", 4, 7, 9, 0, 0, false), OpenFile("/b", 5, 7, 8, 0, 0, false)];
    assert External({}, files[0]) && External({}, files[1]);
    var p0, p1 := Walked(w, files, t, 0), Walked(w, files, t, 1);
    VisitRest(w, p0, files[0], 0);
    VisitTable(w, p0, files[0], 0);
    VisitRest(w, p1, files[1], 1);
  }

  /******* Numbers *******/

  /**
   Without an external terminal, no two new entries share a number and none has the number of the socket.
   */
  lemma NumbersDistinct(w: World, g: Option<GpuWorld>, files: seq<OpenFile>, given: seq<Inherit>, t: Table, i: nat, j: nat)
    requires Built(w, g, files, given, t) && |given| <= i < j < |t.inherits|
    requires forall f :: f in files && External(w.mounts, f) ==> !f.tty
    ensures t.inherits[i].fd != t.inherits[j].fd && t.inherits[i].fd < t.Next() && t.inherits[j].fd < t.Next()
  {
    var t0 := BuiltInv(w, g, files, given, t);
    var a, b := i - |given|, j - |given|;
    OwnNumber(w, ShmKey(g), files, |given|, t, a);
    OwnNumber(w, ShmKey(g), files, |given|, t, b);
    if t.extra[a].NoFile? && t.extra[b].NoFile? {
      StartedInv(w, g, files, given, t0);
      WalkedIsCarried(w, files, t0, |files|);
      var k := RawAddedBy(PlanOf(w, files), t0, |files|, a);
      var l := RawAddedBy(PlanOf(w, files), t0, |files|, b);
      RawDiffer(w, files, t0, k, l);
    }
  }

  // Its own descriptor below 3, or the number of the slot
  lemma OwnNumber(w: World, shmKey: string, files: seq<OpenFile>, given: nat, t: Table, a: nat)
    requires Inv(w.mounts, shmKey, files, given, t) && a < |t.extra|
    requires forall f :: f in files && External(w.mounts, f) ==> !f.tty
    ensures t.inherits[given + a].fd == NumberFor(t.extra[a], a)
    ensures t.extra[a].NoFile? ==> t.extra[a].f.fd < 3 && !External(w.mounts, t.extra[a].f)
  {
    assert SlotOk(w.mounts, shmKey, files, given, t, a);
  }

  // Two internal files that are wanted have different descriptors
  lemma RawDiffer(w: World, files: seq<OpenFile>, t: Table, k: nat, l: nat)
    requires k < |files| && l < |files| && Added(PlanOf(w, files), t, k) < Added(PlanOf(w, files), t, l)
    requires Offers(w, files, l) && !External(w.mounts, files[k]) && !External(w.mounts, files[l])
    ensures files[k].fd != files[l].fd
  {
    if l < k { AddedGrows(PlanOf(w, files), t, l, k); }
    assert k < l;
    SeenBeforeIff(w.mounts, files, l, files[l].fd);
  }

  lemma BuiltNumbered(w: World, g: Option<GpuWorld>, files: seq<OpenFile>, given: seq<Inherit>, t: Table)
    requires Built(w, g, files, given, t)
    ensures Numbered(t, |given|)
  {
    EntriesFindTheirFiles(w, g, files, given, t);
  }

  /**
   An external terminal keeps the number it had. It shares that with an extra file exactly if the number is one
   the GPU adapter gave away, or if some file is opened when that number is the next one; and with the socket
   exactly if it is 3 and as many as there are slots in the end.
   */
  lemma TerminalCollidesIff(w: World, g: Option<GpuWorld>, files: seq<OpenFile>, given: seq<Inherit>, t0: Table, k: nat)
    requires Started(w, g, files, given, t0) && k < |files| && Adds(PlanOf(w, files), t0, k)
    requires External(w.mounts, files[k]) && files[k].tty
    ensures var t, pl, fd := Walked(w, files, t0, |files|).table, PlanOf(w, files), files[k].fd;
            && |t.inherits| == |given| + |t.extra| && |given| <= |t0.inherits|
            && Inherit(TtyKey(files[k]), fd) in t.inherits[|given|..]
            && (GivenAway(t, |given|, fd) <==> 3 <= fd < t0.Next() || AddedAs(pl, t0, |files|, fd))
            && (t.Next() == fd <==> fd == t0.Next() + Added(pl, t0, |files|))
  {
    var t, pl, fd := Walked(w, files, t0, |files|).table, PlanOf(w, files), files[k].fd;
    assert Built(w, g, files, given, t);
    BuiltNumbered(w, g, files, given, t);
    StartedInv(w, g, files, given, t0);
    WalkedIsCarried(w, files, t0, |files|);
    AddedSize(pl, t0, |files|);
    EntryAddedAt(pl, t0, k, |files|);
    assert t.inherits[|given|..][|t0.inherits| - |given| + Added(pl, t0, k)] == Inherit(TtyKey(files[k]), fd);
    GivenAwayIff(pl, t0, |files|, |given|, fd);
  }

  // A terminal with descriptor 3, after one file that is opened
  lemma TerminalCollides() returns (w: World, files: seq<OpenFile>, t: Table)
    ensures Built(w, None, files, [], t) && !Walked(w, files, Table(map[], [], []), |files|).failed
    ensures |t.inherits| == 2 && t.inherits[0].fd == t.inherits[1].fd == 3
  {
    w := World({}, false, false, false, i => true);
    var file, tty := OpenFile("/a", 4, 7, 9, 0, 0, false), OpenFile("/t", 3, 8, 5, 1, 2, true);
    files := [file, tty];
    assert External({}, file) && External({}, tty);
    var t0 := Table(map[], [], []);
    var p0 := Walked(w, files, t0, 0);
    VisitTable(w, p0, file, 0);
    VisitRest(w, p0, file, 0);
    var p1 := Walked(w, files, t0, 1);
    KeysInjective(tty, file);
    VisitTable(w, p1, tty, 1);
    VisitRest(w, p1, tty, 1);
    t := Walked(w, files, t0, 2).table;
    assert Started(w, None, files, [], t0);
  }
}
