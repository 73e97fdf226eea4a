/**
 Files handed to a restore. The GPU adapter and then the process adapter walk the open files of the saved state
 and build three things in step: a map from keys to descriptor numbers, the list of extra files of the child
 process, whose descriptors start at 3, and the inherit list of the request.
 */
module InheritTable {
  import opened InheritKeys

  // What stands in one slot of the extra files, and for which file of the state
  datatype Slot = NoFile(f: OpenFile) | Opened(f: OpenFile) | Standard(f: OpenFile) | GpuFile(f: OpenFile) | Shm

  datatype Inherit = Inherit(key: string, fd: int)

  datatype Table = Table(fds: map<string, int>, extra: seq<Slot>, inherits: seq<Inherit>)
  {
    // The number the next extra file gets in the child
    function Next(): int {
      3 + |extra|
    }

    function Add(key: string, fd: int, slot: Slot): Table {
      Table(fds[key := fd], extra + [slot], inherits + [Inherit(key, fd)])
    }
  }

  /******* The process adapter *******/

  // What the state, the request and the system settle: the mounts of the state, three options, and whether the
  // i-th file of the walk can be opened
  datatype World = World(mounts: set<nat>, serverless: bool, attachable: bool, logged: bool, opens: nat -> bool)

  datatype Progress = Progress(table: Table, stdio: set<nat>, failed: bool, stopped: bool)

  function AddNew(p: Progress, key: string, fd: int, slot: Slot): Progress {
    if key == "" || key in p.table.fds then p else p.(table := p.table.Add(key, fd, slot))
  }

  // Both device numbers or both file numbers unknown
  predicate Unknown(f: OpenFile) {
    f.mount == 0 && f.inode == 0
  }

  function VisitExternal(w: World, p: Progress, f: OpenFile, i: nat): Progress {
    if f.tty then AddNew(p, TtyKey(f), f.fd, NoFile(f))
    else if Unknown(f) || FileKey(f) in p.table.fds then p
    else if !w.opens(i) then p.(failed := true)
    else AddNew(p.(failed := false), FileKey(f), p.table.Next(), Opened(f))
  }

  function VisitInternal(w: World, p: Progress, f: OpenFile): Progress {
    if f.fd in p.stdio then p
    else
      var q := p.(stdio := p.stdio + {f.fd});
      if f.tty && !w.serverless then q.(failed := true, stopped := true)
      else if f.fd > 2 then q
      else if w.serverless then AddNew(q, PathKey(f), q.table.Next(), Standard(f))
      else if w.attachable || (f.fd != 0 && w.logged) then AddNew(q, PathKey(f), f.fd, NoFile(f))
      else q
  }

  function Visit(w: World, p: Progress, f: OpenFile, i: nat): Progress {
    if p.stopped then p else if External(w.mounts, f) then VisitExternal(w, p, f, i) else VisitInternal(w, p, f)
  }

  // After the first n files
  function Walked(w: World, files: seq<OpenFile>, t: Table, n: nat): Progress
    requires n <= |files|
  {
    if n == 0 then Progress(t, {}, false, false) else Visit(w, Walked(w, files, t, n - 1), files[n - 1], n - 1)
  }

  /******* What one visit does *******/

  function KeyFor(mounts: set<nat>, f: OpenFile): string {
    if External(mounts, f) then ExternalKey(f) else PathKey(f)
  }

  function SlotFor(w: World, f: OpenFile): Slot {
    if External(w.mounts, f) then if f.tty then NoFile(f) else Opened(f)
    else if w.serverless then Standard(f) else NoFile(f)
  }

  // The number that goes with a slot: the descriptor's own if the slot holds nothing, else that of the slot
  function NumberFor(slot: Slot, i: nat): int {
    if slot.NoFile? then slot.f.fd else 3 + i
  }

  // The adapter wants the file inherited; seen are the descriptors of internal files before it
  predicate Wants(w: World, seen: set<nat>, f: OpenFile, i: nat) {
    if External(w.mounts, f) then f.tty || (!Unknown(f) && w.opens(i))
    else
      && f.fd !in seen && (f.tty ==> w.serverless) && f.fd <= 2 && PathKey(f) != ""
      && (w.serverless || w.attachable || (f.fd != 0 && w.logged))
  }

  lemma VisitTable(w: World, p: Progress, f: OpenFile, i: nat)
    requires !p.stopped
    ensures var t, key := p.table, KeyFor(w.mounts, f);
            Visit(w, p, f, i).table
              == if Wants(w, p.stdio, f, i) && key !in t.fds then t.Add(key, NumberFor(SlotFor(w, f), |t.extra|), SlotFor(w, f)) else t
  {
    KeysFilled(f);
  }

  lemma VisitRest(w: World, p: Progress, f: OpenFile, i: nat)
    requires !p.stopped
    ensures var q := Visit(w, p, f, i);
            && q.stdio == (if External(w.mounts, f) then p.stdio else p.stdio + {f.fd})
            && (q.stopped <==> !External(w.mounts, f) && f.tty && !w.serverless && f.fd !in p.stdio)
            && q.failed == (if External(w.mounts, f) && !f.tty && !Unknown(f) && FileKey(f) !in p.table.fds then !w.opens(i)
                            else p.failed || q.stopped)
  {
    KeysFilled(f);
  }

  /******* The GPU adapter *******/

  // Why a GPU file could not be recreated
  datatype Trouble = BadPid | NoLogDir | NotReopened | HostmemNotCreated | HostmemNotChmodded | HostmemNotTruncated

  // A file the GPU adapter does not know, one it reopens elsewhere, or one it cannot recreate
  datatype Known = Other | Recreated | Broken(why: Trouble)

  datatype GpuWorld = GpuWorld(mounts: set<nat>, shmKey: string, container: bool, hasId: bool, shmOpens: bool, known: nat -> Known)

  // Trouble with the hostmem file is assigned to an error variable of the block's own, so it is lost
  predicate Shadowed(why: Trouble) {
    why.HostmemNotCreated? || why.HostmemNotChmodded? || why.HostmemNotTruncated?
  }

  datatype GpuProgress = GpuProgress(table: Table, failed: bool, halted: bool)

  function GpuKey(mounts: set<nat>, f: OpenFile): string {
    if External(mounts, f) then FileKey(f) else PathKey(f)
  }

  // In a container the key is taken but nothing is handed over: the file is mounted
  function GpuAdd(g: GpuWorld, t: Table, key: string, slot: Slot): Table {
    if g.container then t.(fds := t.fds[key := t.Next()]) else t.Add(key, t.Next(), slot)
  }

  // Trouble ends the walk; whether it also fails the adapter is another matter
  function GpuVisit(g: GpuWorld, p: GpuProgress, f: OpenFile, i: nat): GpuProgress {
    if p.halted then p
    else
      match g.known(i)
      case Other => p
      case Broken(why) => p.(halted := true, failed := !Shadowed(why))
      case Recreated =>
        if GpuKey(g.mounts, f) in p.table.fds then p
        else p.(table := GpuAdd(g, p.table, GpuKey(g.mounts, f), GpuFile(f)))
  }

  // The adapter gives up before the walk
  predicate GivesUp(g: GpuWorld, t: Table) {
    g.shmKey in t.fds || !g.hasId || (!g.container && !g.shmOpens)
  }

  function GpuStart(g: GpuWorld, t: Table): GpuProgress {
    if GivesUp(g, t) then GpuProgress(t, true, true) else GpuProgress(GpuAdd(g, t, g.shmKey, Shm), false, false)
  }

  function GpuWalked(g: GpuWorld, files: seq<OpenFile>, t: Table, n: nat): GpuProgress
    requires n <= |files|
  {
    if n == 0 then GpuStart(g, t) else GpuVisit(g, GpuWalked(g, files, t, n - 1), files[n - 1], n - 1)
  }

  /******* What every step keeps *******/

  // Slot i and the entry beside it belong together
  predicate Fits(mounts: set<nat>, shmKey: string, slot: Slot, e: Inherit, i: nat) {
    && e.fd == NumberFor(slot, i)
    && match slot
       case Shm => e.key == shmKey
       case GpuFile(f) => e.key == GpuKey(mounts, f)
       case NoFile(f) => e.key == KeyFor(mounts, f) && (if External(mounts, f) then f.tty else f.fd < 3)
       case Opened(f) => e.key == KeyFor(mounts, f) && External(mounts, f) && !f.tty
       case Standard(f) => e.key == KeyFor(mounts, f) && !External(mounts, f) && f.fd < 3
  }

  predicate Mine(files: seq<OpenFile>, slot: Slot) {
    slot.Shm? || slot.f in files
  }

  predicate SlotOk(mounts: set<nat>, shmKey: string, files: seq<OpenFile>, given: nat, t: Table, i: nat)
    requires i < |t.extra| && |t.inherits| == given + |t.extra|
  {
    Fits(mounts, shmKey, t.extra[i], t.inherits[given + i], i) && Mine(files, t.extra[i])
  }

  // given is the number of entries the request came with
  ghost predicate Inv(mounts: set<nat>, shmKey: string, files: seq<OpenFile>, given: nat, t: Table) {
    && |t.inherits| == given + |t.extra|
    && (forall i :: 0 <= i < |t.extra| ==> SlotOk(mounts, shmKey, files, given, t, i))
    && (forall i :: given <= i < |t.inherits| ==> t.inherits[i].key in t.fds && t.fds[t.inherits[i].key] == t.inherits[i].fd)
    && (forall i, j :: given <= i < j < |t.inherits| ==> t.inherits[i].key != t.inherits[j].key)
  }

  lemma AddKeepsInv(mounts: set<nat>, shmKey: string, files: seq<OpenFile>, given: nat, t: Table, key: string, fd: int, slot: Slot)
    requires Inv(mounts, shmKey, files, given, t) && key !in t.fds
    requires Fits(mounts, shmKey, slot, Inherit(key, fd), |t.extra|) && Mine(files, slot)
    ensures Inv(mounts, shmKey, files, given, t.Add(key, fd, slot))
  {
    var u := t.Add(key, fd, slot);
    forall i | 0 <= i < |u.extra| ensures SlotOk(mounts, shmKey, files, given, u, i) {
      if i < |t.extra| {
        assert SlotOk(mounts, shmKey, files, given, t, i);
        assert u.extra[i] == t.extra[i] && u.inherits[given + i] == t.inherits[given + i];
      }
    }
  }

  lemma VisitKeepsInv(w: World, shmKey: string, files: seq<OpenFile>, given: nat, p: Progress, f: OpenFile, i: nat)
    requires Inv(w.mounts, shmKey, files, given, p.table) && f in files
    ensures Inv(w.mounts, shmKey, files, given, Visit(w, p, f, i).table)
  {
    if !p.stopped {
      VisitTable(w, p, f, i);
      var key, slot := KeyFor(w.mounts, f), SlotFor(w, f);
      if Wants(w, p.stdio, f, i) && key !in p.table.fds {
        AddKeepsInv(w.mounts, shmKey, files, given, p.table, key, NumberFor(slot, |p.table.extra|), slot);
      }
    }
  }

  lemma {:induction false} WalkKeepsInv(w: World, shmKey: string, files: seq<OpenFile>, given: nat, t: Table, n: nat)
    requires n <= |files| && Inv(w.mounts, shmKey, files, given, t)
    ensures Inv(w.mounts, shmKey, files, given, Walked(w, files, t, n).table)
  {
    if n > 0 {
      WalkKeepsInv(w, shmKey, files, given, t, n - 1);
      VisitKeepsInv(w, shmKey, files, given, Walked(w, files, t, n - 1), files[n - 1], n - 1);
    }
  }

  lemma GpuAddKeepsInv(g: GpuWorld, files: seq<OpenFile>, given: nat, t: Table, key: string, slot: Slot)
    requires Inv(g.mounts, g.shmKey, files, given, t) && key !in t.fds
    requires Fits(g.mounts, g.shmKey, slot, Inherit(key, t.Next()), |t.extra|) && Mine(files, slot)
    ensures Inv(g.mounts, g.shmKey, files, given, GpuAdd(g, t, key, slot))
  {
    if g.container {
      var u := GpuAdd(g, t, key, slot);
      forall i | 0 <= i < |u.extra| ensures SlotOk(g.mounts, g.shmKey, files, given, u, i) {
        assert SlotOk(g.mounts, g.shmKey, files, given, t, i);
      }
    } else {
      AddKeepsInv(g.mounts, g.shmKey, files, given, t, key, t.Next(), slot);
    }
  }

  lemma {:induction false} GpuWalkKeepsInv(g: GpuWorld, files: seq<OpenFile>, given: nat, t: Table, n: nat)
    requires n <= |files| && Inv(g.mounts, g.shmKey, files, given, t)
    ensures Inv(g.mounts, g.shmKey, files, given, GpuWalked(g, files, t, n).table)
  {
    if n == 0 {
      if !GivesUp(g, t) {
        GpuAddKeepsInv(g, files, given, t, g.shmKey, Shm);
      }
    } else {
      GpuWalkKeepsInv(g, files, given, t, n - 1);
      var before, f := GpuWalked(g, files, t, n - 1), files[n - 1];
      if !before.halted && g.known(n - 1).Recreated? && GpuKey(g.mounts, f) !in before.table.fds {
        GpuAddKeepsInv(g, files, given, before.table, GpuKey(g.mounts, f), GpuFile(f));
      }
    }
  }

  /******* The options that the adapters update *******/

  lemma {:induction false} StoppedStays(w: World, files: seq<OpenFile>, t: Table, i: nat, n: nat)
    requires i <= n <= |files| && Walked(w, files, t, i).stopped
    ensures Walked(w, files, t, n) == Walked(w, files, t, i)
  {
    if i < n {
      StoppedStays(w, files, t, i, n - 1);
    }
  }

  lemma {:induction false} HaltedStays(g: GpuWorld, files: seq<OpenFile>, t: Table, i: nat, n: nat)
    requires i <= n <= |files| && GpuWalked(g, files, t, i).halted
    ensures GpuWalked(g, files, t, n) == GpuWalked(g, files, t, i)
  {
    if i < n {
      HaltedStays(g, files, t, i, n - 1);
    }
  }

  class Options {
    var fds: map<string, int>
    var extra: seq<Slot>
    var inherits: seq<Inherit>

    ghost function Current(): Table
      reads this
    {
      Table(fds, extra, inherits)
    }

    constructor (given: seq<Inherit>)
      ensures Current() == Table(map[], [], given)
    {
      fds, extra, inherits := map[], [], given;
    }

    method Add(key: string, fd: int, slot: Slot)
      modifies this
      ensures Current() == old(Current()).Add(key, fd, slot)
      ensures fds == old(fds)[key := fd] && extra == old(extra) + [slot] && inherits == old(inherits) + [Inherit(key, fd)]
    {
      fds := fds[key := fd];
      extra := extra + [slot];
      inherits := inherits + [Inherit(key, fd)];
    }

    // The file is taken under the key with the number and the slot, or nothing changes
    twostate predicate Takes(key: string, fd: int, slot: Slot, takes: bool)
      reads this
    {
      if takes then fds == old(fds)[key := fd] && extra == old(extra) + [slot] && inherits == old(inherits) + [Inherit(key, fd)]
      else fds == old(fds) && extra == old(extra) && inherits == old(inherits)
    }

    // One call of the walk's function on an external file
    method InheritExternal(w: World, f: OpenFile, i: nat, failed: bool, ghost p: Progress) returns (failed': bool)
      requires p.table == Current() && p.failed == failed
      modifies this
      ensures Current() == VisitExternal(w, p, f, i).table && failed' == VisitExternal(w, p, f, i).failed
      ensures f.tty ==> failed' == failed && Takes(TtyKey(f), f.fd, NoFile(f), TtyKey(f) !in old(fds))
      ensures !f.tty ==> var tries := (f.mount != 0 || f.inode != 0) && FileKey(f) !in old(fds);
              failed' == (if tries then !w.opens(i) else failed) && Takes(FileKey(f), 3 + |old(extra)|, Opened(f), tries && w.opens(i))
    {
      failed' := failed;
      KeysFilled(f);
      if f.tty {
        var key := TtyKey(f);
        if key !in fds {
          Add(key, f.fd, NoFile(f));
        }
      } else if f.mount != 0 || f.inode != 0 {
        var key, fd := FileKey(f), 3 + |extra|;
        if key !in fds {
          failed' := !w.opens(i);
          if !failed' {
            Add(key, fd, Opened(f));
          }
        }
      }
    }

    // One call of the walk's function on a file of the tree's own mounts, not seen under its descriptor before
    method InheritStdio(w: World, f: OpenFile, ghost p: Progress) returns (stop: bool)
      requires p.table == Current() && !p.stopped && f.fd !in p.stdio
      modifies this
      ensures Current() == VisitInternal(w, p, f).table && stop == VisitInternal(w, p, f).stopped
      ensures VisitInternal(w, p, f).failed == (p.failed || stop)
      ensures stop <==> f.tty && !w.serverless
      ensures var key := PathKey(f);
              var takes := !stop && f.fd <= 2 && key != "" && key !in old(fds) && (w.serverless || w.attachable || (f.fd != 0 && w.logged));
              Takes(key, if w.serverless then 3 + |old(extra)| else f.fd, if w.serverless then Standard(f) else NoFile(f), takes)
    {
      stop := f.tty && !w.serverless;
      if stop || f.fd > 2 {
        return;
      }
      var key := PathKey(f);
      if key == "" || key in fds {
        return;
      }
      if w.serverless {
        Add(key, 3 + |extra|, Standard(f));
      } else if w.attachable || (f.fd != 0 && w.logged) {
        Add(key, f.fd, NoFile(f));
      }
    }

    method InheritFiles(w: World, state: Process) returns (failed: bool)
      modifies this
      ensures failed == Walked(w, Files(state), old(Current()), |Files(state)|).failed
      ensures Current() == Walked(w, Files(state), old(Current()), |Files(state)|).table
    {
      var files := Files(state);
      ghost var t := Current();
      failed := false;
      var stopped, i, stdio := false, 0, {};
      while i < |files| && !stopped
        invariant i <= |files| && Walked(w, files, t, i) == Progress(Current(), stdio, failed, stopped)
      {
        var f := files[i];
        ghost var p := Walked(w, files, t, i);
        if External(w.mounts, f) {
          failed := InheritExternal(w, f, i, failed, p);
        } else if f.fd !in stdio {
          stopped := InheritStdio(w, f, p);
          stdio := stdio + {f.fd};
          failed := failed || stopped;
        }
        i := i + 1;
      }
      if stopped {
        StoppedStays(w, files, t, i, |files|);
      }
    }

    method InheritGpu(g: GpuWorld, key: string, slot: Slot)
      modifies this
      ensures Current() == GpuAdd(g, old(Current()), key, slot)
      ensures fds == old(fds)[key := 3 + |old(extra)|]
      ensures g.container ==> extra == old(extra) && inherits == old(inherits)
      ensures !g.container ==> extra == old(extra) + [slot] && inherits == old(inherits) + [Inherit(key, 3 + |old(extra)|)]
    {
      var fd := 3 + |extra|;
      fds := fds[key := fd];
      if !g.container {
        extra := extra + [slot];
        inherits := inherits + [Inherit(key, fd)];
      }
    }

    // One call of the walk's function: whether the walk ends, and with an error that is seen
    method InheritGpuFile(g: GpuWorld, f: OpenFile, i: nat, ghost p: GpuProgress) returns (halted: bool, failed: bool)
      requires p == GpuProgress(Current(), false, false)
      modifies this
      ensures GpuVisit(g, p, f, i) == GpuProgress(Current(), failed, halted)
      ensures halted <==> g.known(i).Broken?
      ensures failed <==> halted && (g.known(i).why.BadPid? || g.known(i).why.NoLogDir? || g.known(i).why.NotReopened?)
      ensures var key := if External(g.mounts, f) then FileKey(f) else PathKey(f);
              if g.known(i).Recreated? && key !in old(fds) then fds == old(fds)[key := 3 + |old(extra)|] else unchanged(this)
    {
      halted, failed := false, false;
      match g.known(i)
      case Other =>
      case Broken(why) =>
        halted := true;
        match why {
          case BadPid | NoLogDir | NotReopened => failed := true;
          case HostmemNotCreated | HostmemNotChmodded | HostmemNotTruncated => var shadowed := true;
        }
      case Recreated =>
        var key := GpuKey(g.mounts, f);
        if key !in fds {
          InheritGpu(g, key, GpuFile(f));
        }
    }

    // On failure nothing goes on, so the table does not matter
    method InheritGpuFiles(g: GpuWorld, state: Process) returns (failed: bool)
      modifies this
      ensures failed == GpuWalked(g, Files(state), old(Current()), |Files(state)|).failed
      ensures !failed ==> Current() == GpuWalked(g, Files(state), old(Current()), |Files(state)|).table
    {
      var files := Files(state);
      ghost var t := Current();
      if g.shmKey in fds || !g.hasId || (!g.container && !g.shmOpens) {
        HaltedStays(g, files, t, 0, |files|);
        return true;
      }
      InheritGpu(g, g.shmKey, Shm);
      failed := false;
      var i, halted := 0, false;
      while i < |files| && !halted
        invariant i <= |files| && GpuWalked(g, files, t, i) == GpuProgress(Current(), failed, halted)
        invariant failed ==> halted
      {
        halted, failed := InheritGpuFile(g, files[i], i, GpuWalked(g, files, t, i));
        i := i + 1;
      }
      if halted {
        HaltedStays(g, files, t, i, |files|);
      }
    }
  }
}
