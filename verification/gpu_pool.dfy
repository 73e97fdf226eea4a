/**
 The pool of GPU controllers: rediscovering controllers from their socket files, sorting them into free,
 busy and stale, clearing the stale ones and growing or shrinking the free ones to a target, and the loop
 that empties the pool on shutdown.

 A sync is undisturbed: while it runs, nothing changes but what it does itself. Which bookings are refused
 because some other process holds them, and which spawns succeed, is arbitrary.
 */
module GpuPool {

  type Id = string

  const MAX_SYNC_FAILURES := 2

  // What is behind a socket file: whether the controller's process runs and answers, and what it answers
  datatype Process = Process(running: bool, answers: bool, attached: nat, attachedRunning: bool, shmOk: bool, credOk: bool)

  // What the pool knows of a controller; known: its PID has been learnt; ending: its termination has begun
  datatype Controller = Controller(booked: bool, fails: nat, known: bool, attached: nat, shmOk: bool, credOk: bool, ending: bool)

  datatype Status = Free | Busy | Stale

  // A sync gets its turn, finds another one running, or cannot read the socket directory
  datatype Attempt = Proceeds | Skipped | Unreadable

  datatype Pool = Pool(ctls: map<Id, Controller>, sockets: set<Id>, procs: map<Id, Process>)

  const GONE := Process(false, false, 0, false, false, false)
  const FRESH_PROCESS := Process(true, true, 0, false, true, true)
  const FRESH := Controller(false, 0, true, 0, true, true, false)

  function ProcessOf(p: Pool, id: Id): Process {
    if id in p.procs then p.procs[id] else GONE
  }

  /******* Refreshing *******/

  function Discovered(proc: Process): Controller {
    Controller(false, 0, false, 0, false, proc.credOk, false)
  }

  // A controller after it was asked for its info
  function Asked(c: Controller, proc: Process): Controller {
    if proc.answers then
      Controller(c.booked, 0, true, if proc.attached != 0 then proc.attached else c.attached, proc.shmOk, c.credOk, c.ending)
    else c.(fails := c.fails + 1)
  }

  function Refreshed(p: Pool, id: Id): Controller
    requires id in p.ctls || id in p.sockets
  {
    var c := if id in p.ctls then p.ctls[id] else Discovered(ProcessOf(p, id));
    if id in p.sockets && !c.booked then Asked(c, ProcessOf(p, id)) else c
  }

  function Refresh(p: Pool): Pool {
    p.(ctls := map id | id in p.ctls.Keys + p.sockets :: Refreshed(p, id))
  }

  /******* Sorting *******/

  function StatusOf(c: Controller, proc: Process): Status {
    if c.booked then Busy
    else if c.fails < MAX_SYNC_FAILURES && c.known && proc.running then
      if c.attached == 0 then
        if c.shmOk && c.credOk then Free else Stale
      else if proc.attachedRunning then Busy
      else Stale
    else Stale
  }

  predicate Is(p: Pool, id: Id, st: Status) {
    id in p.ctls && StatusOf(p.ctls[id], ProcessOf(p, id)) == st
  }

  function Sorted(p: Pool, st: Status): set<Id> {
    set id | id in p.ctls && Is(p, id, st)
  }

  // order lists exactly these ids
  predicate Lists(order: seq<Id>, ids: set<Id>) {
    && (forall i :: 0 <= i < |order| ==> order[i] in ids)
    && (forall id :: id in ids ==> id in order)
    && (forall i, j :: 0 <= i < j < |order| ==> order[i] != order[j])
  }

  /******* One sync *******/

  // Those of ids that a termination takes out of the pool
  function Leave(p: Pool, ids: set<Id>): set<Id> {
    set id | id in p.ctls && id in ids && !p.ctls[id].ending
  }

  // After a booking was granted for each of ids and each was terminated. Where the termination has already
  // begun, the booking stays taken and nothing else happens
  function Ended(p: Pool, ids: set<Id>): Pool {
    var gone := Leave(p, ids);
    p.(ctls := map id | id in p.ctls.Keys - gone :: if id in ids then p.ctls[id].(booked := true) else p.ctls[id],
       sockets := p.sockets - gone)
  }

  function WithSpawned(p: Pool, ids: set<Id>): Pool {
    Pool(map id | id in p.ctls.Keys + ids :: if id in ids then FRESH else p.ctls[id],
         p.sockets + ids,
         map id | id in p.procs.Keys + ids :: if id in ids then FRESH_PROCESS else p.procs[id])
  }

  function Range(s: seq<Id>): set<Id> {
    set id | id in s
  }

  // free lists the free controllers of the refreshed pool p
  function Maintain(p: Pool, target: nat, free: seq<Id>, refused: set<Id>, spawned: seq<Id>): Pool {
    var q := Ended(p, Sorted(p, Stale) - refused);
    if |free| < target then WithSpawned(q, Range(spawned))
    else Ended(q, Range(free[target..]) - refused)
  }

  // New ids, at most as many as are wanted
  predicate Spawnable(p: Pool, target: nat, free: seq<Id>, spawned: seq<Id>) {
    && (|free| < target ==> |free| + |spawned| <= target)
    && (forall i :: 0 <= i < |spawned| ==> spawned[i] !in p.ctls && spawned[i] !in p.sockets && spawned[i] !in p.procs)
    && (forall i, j :: 0 <= i < j < |spawned| ==> spawned[i] != spawned[j])
  }

  lemma {:induction false} RangeSize(s: seq<Id>)
    requires forall i, j :: 0 <= i < j < |s| ==> s[i] != s[j]
    ensures |Range(s)| == |s|
  {
    if s != [] {
      var n := |s| - 1;
      RangeSize(s[..n]);
      assert s == s[..n] + [s[n]];
      assert Range(s) == Range(s[..n]) + {s[n]};
      assert s[n] !in s[..n];
    }
  }

  // List partitions the pool
  lemma ListPartitions(p: Pool)
    ensures Sorted(p, Free) + Sorted(p, Busy) + Sorted(p, Stale) == p.ctls.Keys
    ensures Sorted(p, Free) !! Sorted(p, Busy) !! Sorted(p, Stale)
  {
  }

  // Those that a sync books in order to end them
  function Doomed(p: Pool, target: nat, free: seq<Id>, refused: set<Id>): set<Id> {
    (Sorted(p, Stale) + if |free| < target then {} else Range(free[target..])) - refused
  }

  // What maintaining the pool does to each controller
  lemma MaintainSorts(p: Pool, target: nat, free: seq<Id>, refused: set<Id>, spawned: seq<Id>, id: Id)
    requires Lists(free, Sorted(p, Free)) && Spawnable(p, target, free, spawned)
    ensures var q := Maintain(p, target, free, refused, spawned);
            var doomed := id in Doomed(p, target, free, refused);
            && (Is(q, id, Busy) <==> Is(p, id, Busy) || (doomed && p.ctls[id].ending))
            && (id in p.ctls ==> (id !in q.ctls <==> doomed && !p.ctls[id].ending))
            && (id in p.ctls && id in q.ctls ==>
                && q.ctls[id] == (if doomed then p.ctls[id].(booked := true) else p.ctls[id])
                && (id in q.sockets <==> id in p.sockets) && ProcessOf(q, id) == ProcessOf(p, id))
            && (id in p.ctls && id !in q.ctls ==> id !in q.sockets)
            && (Is(q, id, Stale) <==> Is(p, id, Stale) && id in refused)
            && (Is(q, id, Free) <==>
                if |free| < target then id in free || id in spawned
                else id in free[..target] || (id in free[target..] && id in refused))
  {
    assert Is(p, id, Free) <==> id in free;
    if |free| >= target {
      assert free == free[..target] + free[target..];
      assert id in free[target..] ==> id !in free[..target];
    }
  }

  /**
   A sync ends with every busy controller untouched, none stale but those whose booking is refused, and as
   many free ones as the target asks for: short of the spawns that failed, or over by the bookings refused.
   Of those it set out to end, the ones whose termination had begun before stay, booked and so busy; all
   others are gone.
   */
  lemma SyncConverges(p: Pool, target: nat, free: seq<Id>, refused: set<Id>, spawned: seq<Id>)
    requires Lists(free, Sorted(p, Free)) && Spawnable(p, target, free, spawned)
    ensures var q := Maintain(p, target, free, refused, spawned);
            var doomed := Doomed(p, target, free, refused);
            && (forall id :: id in Sorted(p, Busy) ==> id in q.ctls && q.ctls[id] == p.ctls[id])
            && Sorted(q, Busy) == Sorted(p, Busy) + (doomed - Leave(p, doomed))
            && q.ctls.Keys * p.ctls.Keys == p.ctls.Keys - Leave(p, doomed)
            && Sorted(q, Stale) == Sorted(p, Stale) * refused
            && |Sorted(q, Free)| ==
               (if |free| < target then |free| + |spawned| else target + |Range(free[target..]) * refused|)
            && (refused == {} && (|free| < target ==> |spawned| == target - |free|) ==>
                |Sorted(q, Free)| == target && Sorted(q, Stale) == {})
  {
    SyncSorts(p, target, free, refused, spawned);
    MaintainFree(p, target, free, refused, spawned);
  }

  lemma SyncSorts(p: Pool, target: nat, free: seq<Id>, refused: set<Id>, spawned: seq<Id>)
    requires Lists(free, Sorted(p, Free)) && Spawnable(p, target, free, spawned)
    ensures var q := Maintain(p, target, free, refused, spawned);
            var doomed := Doomed(p, target, free, refused);
            && (forall id :: id in Sorted(p, Busy) ==> id in q.ctls && q.ctls[id] == p.ctls[id])
            && Sorted(q, Busy) == Sorted(p, Busy) + (doomed - Leave(p, doomed))
            && q.ctls.Keys * p.ctls.Keys == p.ctls.Keys - Leave(p, doomed)
            && Sorted(q, Stale) == Sorted(p, Stale) * refused
  {
    var q := Maintain(p, target, free, refused, spawned);
    var doomed := Doomed(p, target, free, refused);
    forall id ensures id in Sorted(q, Busy) <==> id in Sorted(p, Busy) + (doomed - Leave(p, doomed))
              ensures id in Sorted(q, Stale) <==> id in Sorted(p, Stale) * refused
              ensures id in Sorted(p, Busy) ==> id in q.ctls && q.ctls[id] == p.ctls[id]
              ensures id in p.ctls ==> (id in q.ctls <==> id !in Leave(p, doomed))
    {
      OneSorted(p, target, free, refused, spawned, id);
    }
  }

  lemma OneSorted(p: Pool, target: nat, free: seq<Id>, refused: set<Id>, spawned: seq<Id>, id: Id)
    requires Lists(free, Sorted(p, Free)) && Spawnable(p, target, free, spawned)
    ensures var q := Maintain(p, target, free, refused, spawned);
            var doomed := Doomed(p, target, free, refused);
            && (id in Sorted(q, Busy) <==> id in Sorted(p, Busy) + (doomed - Leave(p, doomed)))
            && (id in Sorted(q, Stale) <==> id in Sorted(p, Stale) * refused)
            && (id in Sorted(p, Busy) ==> id in q.ctls && q.ctls[id] == p.ctls[id])
            && (id in p.ctls ==> (id in q.ctls <==> id !in Leave(p, doomed)))
  {
    DoomedAreThere(p, target, free, refused);
    MaintainSorts(p, target, free, refused, spawned, id);
  }

  lemma DoomedAreThere(p: Pool, target: nat, free: seq<Id>, refused: set<Id>)
    requires Lists(free, Sorted(p, Free))
    ensures forall id :: id in Doomed(p, target, free, refused) ==> id in p.ctls && !Is(p, id, Busy)
  {
    if |free| >= target {
      forall id | id in Range(free[target..]) ensures Is(p, id, Free) { assert id in free; }
    }
  }

  lemma MaintainFree(p: Pool, target: nat, free: seq<Id>, refused: set<Id>, spawned: seq<Id>)
    requires Lists(free, Sorted(p, Free)) && Spawnable(p, target, free, spawned)
    ensures var q := Maintain(p, target, free, refused, spawned);
            |Sorted(q, Free)| ==
            (if |free| < target then |free| + |spawned| else target + |Range(free[target..]) * refused|)
  {
    if |free| < target { Grows(p, target, free, refused, spawned); } else { Shrinks(p, target, free, refused, spawned); }
  }

  lemma Grows(p: Pool, target: nat, free: seq<Id>, refused: set<Id>, spawned: seq<Id>)
    requires Lists(free, Sorted(p, Free)) && Spawnable(p, target, free, spawned) && |free| < target
    ensures |Sorted(Maintain(p, target, free, refused, spawned), Free)| == |free| + |spawned|
  {
    var found := Sorted(Maintain(p, target, free, refused, spawned), Free);
    forall id ensures id in found <==> id in Range(free) || id in Range(spawned) {
      MaintainSorts(p, target, free, refused, spawned, id);
    }
    RangeSize(free);
    RangeSize(spawned);
    NewIds(p, target, free, spawned);
    Apart(found, Range(free), Range(spawned));
  }

  lemma Shrinks(p: Pool, target: nat, free: seq<Id>, refused: set<Id>, spawned: seq<Id>)
    requires Lists(free, Sorted(p, Free)) && Spawnable(p, target, free, spawned) && |free| >= target
    ensures |Sorted(Maintain(p, target, free, refused, spawned), Free)| == target + |Range(free[target..]) * refused|
  {
    var found := Sorted(Maintain(p, target, free, refused, spawned), Free);
    forall id ensures id in found <==> id in Range(free[..target]) || id in Range(free[target..]) * refused {
      MaintainSorts(p, target, free, refused, spawned, id);
    }
    RangeSize(free[..target]);
    SplitApart(free, target);
    Apart(found, Range(free[..target]), Range(free[target..]) * refused);
  }

  lemma Apart(whole: set<Id>, some: set<Id>, more: set<Id>)
    requires some !! more && forall id :: id in whole <==> id in some || id in more
    ensures |whole| == |some| + |more|
  {
    assert whole == some + more;
  }

  lemma NewIds(p: Pool, target: nat, free: seq<Id>, spawned: seq<Id>)
    requires Lists(free, Sorted(p, Free)) && Spawnable(p, target, free, spawned)
    ensures Range(free) !! Range(spawned)
  {
    forall id | id in Range(free) ensures id !in Range(spawned) { assert id in Sorted(p, Free); }
  }

  lemma SplitApart(s: seq<Id>, n: nat)
    requires n <= |s| && forall i, j :: 0 <= i < j < |s| ==> s[i] != s[j]
    ensures Range(s[..n]) !! Range(s[n..])
  {
    forall id | id in Range(s[..n]) ensures id !in Range(s[n..]) {
      var i :| 0 <= i < n && s[..n][i] == id;
      assert s[i] == id;
    }
  }

  /******* Shutting down *******/

  // One pass with target 0 and every booking granted
  function Pass(p: Pool): Pool {
    var q := Refresh(p);
    Ended(q, Sorted(q, Stale) + Sorted(q, Free))
  }

  // The pass found nothing to end, so the loop stops after it
  predicate Stops(p: Pool) {
    Sorted(Refresh(p), Free) == {} && Sorted(Refresh(p), Stale) == {}
  }

  lemma EndedTwice(p: Pool, a: set<Id>, b: set<Id>)
    ensures Ended(Ended(p, a), b) == Ended(p, a + b)
  {
    var q, r := Ended(Ended(p, a), b), Ended(p, a + b);
    assert Leave(p, a + b) == Leave(p, a) + Leave(Ended(p, a), b);
    assert q.ctls == r.ctls && q.sockets == r.sockets;
  }

  // With target 0 a pass is a sync
  lemma PassIsSync(p: Pool, free: seq<Id>)
    requires Lists(free, Sorted(Refresh(p), Free))
    ensures Pass(p) == Maintain(Refresh(p), 0, free, {}, [])
  {
    var q := Refresh(p);
    assert free[0..] == free;
    assert Range(free) - {} == Sorted(q, Free);
    assert Sorted(q, Stale) - {} == Sorted(q, Stale);
    EndedTwice(q, Sorted(q, Stale), Sorted(q, Free));
  }

  // A controller after one pass and the refresh of the next: it is busy if it is there at all, and stays
  // so unless it failed to answer twice in a row
  lemma SecondLook(p: Pool, id: Id)
    ensures var q, r := Pass(p), Refresh(Pass(p));
            && (id in r.ctls <==> id in q.ctls)
            && (id in q.ctls ==> Is(q, id, Busy))
            && (id in q.ctls ==> !Is(r, id, Free))
            && (id in q.ctls ==> (Is(r, id, Stale) <==> Unresponsive(p, id)))
  {
    var a := Refresh(p);
    if id in a.ctls {
      assert Is(a, id, StatusOf(a.ctls[id], ProcessOf(a, id)));
    }
  }

  // Busy because its process runs, but without an answer now and with one failure already counted
  predicate Unresponsive(p: Pool, id: Id) {
    && Is(Refresh(p), id, Busy) && !Refresh(p).ctls[id].booked
    && id in p.sockets && !ProcessOf(p, id).answers
  }

  // How many passes the shutdown loop takes
  function Passes(p: Pool): nat {
    if Stops(p) then 1
    else if forall id :: id in Pass(p).ctls ==> !Unresponsive(p, id) then 2
    else 3
  }

  /**
   The shutdown loop stops at its first pass if there is nothing to end, else at its second if no
   controller that was left busy fails to answer, and otherwise at its third.
   */
  lemma ShutdownStops(p: Pool)
    ensures Passes(p) == if Stops(p) then 1 else if Stops(Pass(p)) then 2 else 3
    ensures Stops(Pass(Pass(p)))
  {
    SecondPassStops(p);
    var q := Pass(p);
    forall id | id in Pass(q).ctls ensures !Unresponsive(q, id) {
      SecondLook(p, id);
    }
    StopsAfter(q);
  }

  lemma SecondPassStops(p: Pool)
    ensures Stops(Pass(p)) <==> forall id :: id in Pass(p).ctls ==> !Unresponsive(p, id)
  {
    var q := Pass(p);
    var r := Refresh(q);
    if forall id :: id in q.ctls ==> !Unresponsive(p, id) {
      StopsAfter(p);
    } else {
      var id :| id in q.ctls && Unresponsive(p, id);
      SecondLook(p, id);
      assert id in Sorted(r, Stale);
    }
  }

  lemma StopsAfter(q: Pool)
    requires forall id :: id in Pass(q).ctls ==> !Unresponsive(q, id)
    ensures Stops(Pass(q))
  {
    var r := Refresh(Pass(q));
    forall id ensures id !in Sorted(r, Free) && id !in Sorted(r, Stale) { SecondLook(q, id); }
    assert Sorted(r, Free) == {} && Sorted(r, Stale) == {};
  }

  // A free controller, and a busy one that does not answer the first pass or the second
  lemma ThirdPassIsNeeded() returns (p: Pool)
    ensures !Stops(p) && !Stops(Pass(p)) && Stops(Pass(Pass(p))) && Passes(p) == 3
  {
    var busy := Controller(false, 0, true, 7, true, true, false);
    var silent := Process(true, false, 7, true, true, true);
    p := Pool(map["a" := busy, "b" := FRESH], {"a", "b"}, map["a" := silent, "b" := FRESH_PROCESS]);
    var q := Refresh(p);
    assert q.ctls["a"] == busy.(fails := 1) && Is(q, "a", Busy);
    assert q.ctls["b"] == FRESH && Is(q, "b", Free) && "b" in Sorted(q, Free);
    assert "a" in Pass(p).ctls && Unresponsive(p, "a");
    ShutdownStops(p);
  }

  /******* Over many syncs *******/

  // One sync leads from p to q, whatever the target, the order, the refusals and the spawns
  ghost predicate Syncs(p: Pool, q: Pool, target: nat, free: seq<Id>, refused: set<Id>, spawned: seq<Id>) {
    && Lists(free, Sorted(Refresh(p), Free)) && Spawnable(Refresh(p), target, free, spawned)
    && q == Maintain(Refresh(p), target, free, refused, spawned)
  }

  ghost predicate SyncsTo(p: Pool, q: Pool) {
    exists target, free, refused, spawned :: Syncs(p, q, target, free, refused, spawned)
  }

  ghost predicate Follows(ps: seq<Pool>, i: nat)
    requires i < |ps| - 1
  {
    SyncsTo(ps[i], ps[i + 1])
  }

  ghost predicate AreSyncs(ps: seq<Pool>) {
    forall i :: 0 <= i < |ps| - 1 ==> Follows(ps, i)
  }

  // A booked controller is left alone
  lemma BookedIsKept(p: Pool, q: Pool, id: Id)
    requires SyncsTo(p, q) && id in p.ctls && p.ctls[id].booked
    ensures id in q.ctls && q.ctls[id] == p.ctls[id]
  {
    var target, free, refused, spawned :| Syncs(p, q, target, free, refused, spawned);
    BookedIsBusy(p, id);
    MaintainSorts(Refresh(p), target, free, refused, spawned, id);
  }

  lemma BookedIsBusy(p: Pool, id: Id)
    requires id in p.ctls && p.ctls[id].booked
    ensures Is(Refresh(p), id, Busy) && Refresh(p).ctls[id] == p.ctls[id]
  {
  }

  lemma {:induction false} BookedStays(ps: seq<Pool>, id: Id, m: nat, n: nat)
    requires AreSyncs(ps) && m <= n < |ps| && id in ps[m].ctls && ps[m].ctls[id].booked
    ensures id in ps[n].ctls && ps[n].ctls[id] == ps[m].ctls[id]
  {
    if m < n {
      BookedStays(ps, id, m, n - 1);
      assert Follows(ps, n - 1);
      BookedIsKept(ps[n - 1], ps[n], id);
    }
  }

  /**
   A controller whose termination has begun and that is stale is booked by the first sync that gets its
   booking, cannot be ended, and is busy at every sync from then on: it stays in the pool for good.
   */
  lemma UndeadTurnsBusy(ps: seq<Pool>, id: Id, target: nat, free: seq<Id>, refused: set<Id>, spawned: seq<Id>, n: nat)
    requires AreSyncs(ps) && 1 <= n < |ps| && Syncs(ps[0], ps[1], target, free, refused, spawned)
    requires Is(Refresh(ps[0]), id, Stale) && Refresh(ps[0]).ctls[id].ending && id !in refused
    ensures id in ps[n].ctls && ps[n].ctls[id].booked && Is(Refresh(ps[n]), id, Busy)
  {
    MaintainSorts(Refresh(ps[0]), target, free, refused, spawned, id);
    BookedStays(ps, id, 1, n);
    BookedIsBusy(ps[n], id);
  }

  // So it does not keep the shutdown loop going: at worst it makes the first pass one that ends nothing
  lemma UndeadIsSeenOnce(p: Pool, id: Id)
    requires Is(Refresh(p), id, Stale) && Refresh(p).ctls[id].ending
    ensures !Stops(p) && Is(Refresh(Pass(p)), id, Busy) && id in Pass(p).ctls && Pass(p).ctls[id].booked
    ensures Is(Pass(Pass(p)), id, Busy)
  {
    var q := Refresh(p);
    assert id in Sorted(q, Stale);
    assert Pass(p).ctls[id].booked;
  }

  // Known to the system under a process that is not the pool's any more
  predicate Past(p: Pool, id: Id) {
    id !in p.ctls && id !in p.sockets && id in p.procs
  }

  lemma PastIsKept(p: Pool, q: Pool, id: Id)
    requires SyncsTo(p, q) && Past(p, id)
    ensures Past(q, id)
  {
    var target, free, refused, spawned :| Syncs(p, q, target, free, refused, spawned);
  }

  // A controller that a sync ended, undisturbed by others, is not found again by any later sync
  lemma {:induction false} EndedStaysEnded(ps: seq<Pool>, id: Id, n: nat)
    requires AreSyncs(ps) && n < |ps| && Past(ps[0], id)
    ensures Past(ps[n], id) && id !in Refresh(ps[n]).ctls
  {
    if n > 0 {
      EndedStaysEnded(ps, id, n - 1);
      assert Follows(ps, n - 1);
      PastIsKept(ps[n - 1], ps[n], id);
    }
  }

  // What a sync ends is past
  lemma EndedIsPast(p: Pool, target: nat, free: seq<Id>, refused: set<Id>, spawned: seq<Id>, id: Id)
    requires Lists(free, Sorted(p, Free)) && Spawnable(p, target, free, spawned)
    requires id in Leave(p, Doomed(p, target, free, refused)) && id in p.procs
    ensures Past(Maintain(p, target, free, refused, spawned), id)
  {
    MaintainSorts(p, target, free, refused, spawned, id);
  }

  /******* What a sync learns *******/

  // In use by a process of the system, and says so
  predicate InUse(proc: Process) {
    proc.running && proc.answers && proc.attached != 0 && proc.attachedRunning
  }

  // A sync never ends a controller that is in use, whatever the pool knew of it, and learns who uses it
  lemma UsedIsKept(p: Pool, q: Pool, target: nat, free: seq<Id>, refused: set<Id>, spawned: seq<Id>, id: Id)
    requires Syncs(p, q, target, free, refused, spawned)
    requires id in p.sockets && id in p.procs && InUse(p.procs[id])
    ensures id in q.ctls && id in q.sockets
    ensures !(id in p.ctls && p.ctls[id].booked) ==> q.ctls[id].attached == p.procs[id].attached && !q.ctls[id].booked
    ensures id in p.ctls && p.ctls[id].booked ==> q.ctls[id] == p.ctls[id]
  {
    UsedIsBusy(p, id);
    MaintainSorts(Refresh(p), target, free, refused, spawned, id);
  }

  lemma UsedIsBusy(p: Pool, id: Id)
    requires id in p.sockets && id in p.procs && InUse(p.procs[id])
    ensures Is(Refresh(p), id, Busy)
    ensures !(id in p.ctls && p.ctls[id].booked) ==> Refresh(p).ctls[id].attached == p.procs[id].attached && !Refresh(p).ctls[id].booked
    ensures id in p.ctls && p.ctls[id].booked ==> Refresh(p).ctls[id] == p.ctls[id]
  {
  }

  /**
   An unbooked controller whose process runs and answers is free exactly if nobody names a process attached to
   it and its shared memory and credentials match, busy exactly if the attached process runs, and else stale.
   The pid that the process names counts before the one that the pool remembers.
   */
  lemma AnsweringIs(p: Pool, id: Id)
    requires id in p.sockets && id in p.procs && p.procs[id].running && p.procs[id].answers
    requires id in p.ctls ==> !p.ctls[id].booked
    ensures var proc, known, r := p.procs[id], id in p.ctls, Refresh(p);
            var unattached := proc.attached == 0 && (known ==> p.ctls[id].attached == 0);
            && (id in Sorted(r, Free) <==> unattached && proc.shmOk && (if known then p.ctls[id].credOk else proc.credOk))
            && (id in Sorted(r, Busy) <==> !unattached && proc.attachedRunning)
            && (id in Sorted(r, Stale) <==> id !in Sorted(r, Free) && id !in Sorted(r, Busy))
  {
  }

  /**
   One whose process does not answer, or has no socket file, is told by what the pool remembers: stale once it has
   failed to answer twice in a row, was never known, or its process does not run, and else as it was.
   */
  lemma SilentIs(p: Pool, id: Id)
    requires id in p.ctls && !p.ctls[id].booked && !(id in p.sockets && id in p.procs && p.procs[id].answers)
    ensures var c, r := p.ctls[id], Refresh(p);
            var lives := c.fails + (if id in p.sockets then 1 else 0) < 2 && c.known && id in p.procs && p.procs[id].running;
            && (id in Sorted(r, Free) <==> lives && c.attached == 0 && c.shmOk && c.credOk)
            && (id in Sorted(r, Busy) <==> lives && c.attached != 0 && p.procs[id].attachedRunning)
            && (id in Sorted(r, Stale) <==> id !in Sorted(r, Free) && id !in Sorted(r, Busy))
            && r.ctls[id] == c.(fails := c.fails + if id in p.sockets then 1 else 0)
  {
  }

  // A booked controller is busy and not asked. One found by its socket file is new to the pool, so neither booked nor
  // being ended, and stale if it does not answer
  lemma OthersAre(p: Pool, id: Id)
    ensures id in p.ctls && p.ctls[id].booked ==> id in Sorted(Refresh(p), Busy) && Refresh(p).ctls[id] == p.ctls[id]
    ensures id !in p.ctls && id in p.sockets && !(id in p.procs && p.procs[id].answers) ==> id in Sorted(Refresh(p), Stale)
    ensures id !in p.ctls && id !in p.sockets ==> id !in Refresh(p).ctls
    ensures id !in p.ctls && id in p.sockets ==> !Refresh(p).ctls[id].booked && !Refresh(p).ctls[id].ending
    ensures id in p.ctls ==> Refresh(p).ctls[id].ending == p.ctls[id].ending && Refresh(p).ctls[id].booked == p.ctls[id].booked
  {
  }

  /******* As the program runs it *******/

  class ManagerPool {
    var ctls: map<Id, Controller>
    var sockets: set<Id>
    var procs: map<Id, Process>
    var poolSize: nat
    var free: nat
    var busy: nat
    var stale: nat

    function View(): Pool
      reads this
    {
      Pool(ctls, sockets, procs)
    }

    constructor (p: Pool, poolSize: nat)
      ensures View() == p && this.poolSize == poolSize
    {
      ctls, sockets, procs := p.ctls, p.sockets, p.procs;
      this.poolSize := poolSize;
      free, busy, stale := 0, 0, 0;
    }

    // order is how the socket directory is listed
    method RefreshAll(order: seq<Id>)
      requires Lists(order, sockets)
      modifies this`ctls
      ensures View() == Refresh(old(View()))
      ensures ctls.Keys == old(ctls).Keys + sockets
      ensures forall id :: id in ctls && id in sockets && id in procs && procs[id].answers && (id in old(ctls) ==> !old(ctls)[id].booked) ==>
              && ctls[id].known && ctls[id].fails == 0 && ctls[id].shmOk == procs[id].shmOk
              && (procs[id].attached != 0 ==> ctls[id].attached == procs[id].attached)
    {
      ghost var p := View();
      NoneAsked(p);
      assert Range(order[..0]) == {};
      for i := 0 to |order|
        invariant Range(order[..i]) <= p.sockets && ctls == AfterAsking(p, Range(order[..i]))
      {
        var id := order[i];
        assert order[..i + 1] == order[..i] + [id];
        assert Range(order[..i + 1]) == Range(order[..i]) + {id} && id !in Range(order[..i]);
        OneAsked(p, Range(order[..i]), id);
        var proc := if id in procs then procs[id] else GONE;
        var c := if id in ctls then ctls[id] else Discovered(proc);
        if !c.booked {
          c := Asked(c, proc);
        }
        ctls := ctls[id := c];
      }
      assert Range(order[..|order|]) == sockets;
      AllAsked(p);
    }

    // order is how the map of controllers is ranged over
    method List(order: seq<Id>) returns (free: seq<Id>, busy: seq<Id>, stale: seq<Id>)
      requires Lists(order, ctls.Keys)
      ensures Lists(free, Sorted(View(), Free)) && Lists(busy, Sorted(View(), Busy)) && Lists(stale, Sorted(View(), Stale))
    {
      free, busy, stale := [], [], [];
      var p := View();
      for i := 0 to |order|
        invariant Picked(p, free, order[..i], Free)
        invariant Picked(p, busy, order[..i], Busy)
        invariant Picked(p, stale, order[..i], Stale)
      {
        var id := order[i];
        assert order[..i + 1] == order[..i] + [id];
        PickNext(p, free, order[..i], id, Free);
        PickNext(p, busy, order[..i], id, Busy);
        PickNext(p, stale, order[..i], id, Stale);
        match StatusOf(ctls[id], ProcessOf(p, id))
        case Free => free := free + [id];
        case Busy => busy := busy + [id];
        case Stale => stale := stale + [id];
      }
      assert order[..|order|] == order;
      PickedAll(p, free, order, Free);
      PickedAll(p, busy, order, Busy);
      PickedAll(p, stale, order, Stale);
    }

    // With the booking held; nothing happens if the termination has already begun
    method Terminate(id: Id)
      requires id in ctls ==> ctls[id].booked
      modifies this`ctls, this`sockets
      ensures View() == Ended(old(View()), {id})
      ensures id !in old(ctls) || old(ctls)[id].ending ==> unchanged(this)
      ensures id in old(ctls) && !old(ctls)[id].ending ==> ctls == old(ctls) - {id} && sockets == old(sockets) - {id}
    {
      if id in ctls {
        if ctls[id].ending {
          assert ctls[id].(booked := true) == ctls[id];
          assert Leave(View(), {id}) == {};
          return;
        }
        assert Leave(View(), {id}) == {id};
        ctls := ctls - {id};
        sockets := sockets - {id};
      } else {
        assert Leave(View(), {id}) == {};
      }
    }

    // Books and terminates the listed controllers, except those whose booking is refused
    method EndAll(ids: seq<Id>, refused: set<Id>)
      modifies this`ctls, this`sockets
      ensures View() == Ended(old(View()), Range(ids) - refused)
    {
      ghost var p := View();
      EndedNone(p);
      for i := 0 to |ids|
        invariant View() == Ended(p, Range(ids[..i]) - refused)
      {
        assert ids[..i + 1] == ids[..i] + [ids[i]];
        if ids[i] !in refused {
          assert Range(ids[..i + 1]) - refused == (Range(ids[..i]) - refused) + {ids[i]};
          EndedTwice(p, Range(ids[..i]) - refused, {ids[i]});
          BookedThenEnded(View(), ids[i]);
          if ids[i] in ctls {
            ctls := ctls[ids[i] := ctls[ids[i]].(booked := true)];
          }
          Terminate(ids[i]);
        } else {
          assert Range(ids[..i + 1]) - refused == Range(ids[..i]) - refused;
        }
      }
      assert ids[..|ids|] == ids;
    }

    // Spawns and releases one controller for each id
    method SpawnAll(ids: seq<Id>)
      modifies this`ctls, this`sockets, this`procs
      ensures View() == WithSpawned(old(View()), Range(ids))
    {
      ghost var p := View();
      NoneSpawned(p);
      assert Range(ids[..0]) == {};
      for i := 0 to |ids|
        invariant View() == WithSpawned(p, Range(ids[..i]))
      {
        assert ids[..i + 1] == ids[..i] + [ids[i]];
        OneMore(p, Range(ids[..i]), ids[i]);
        assert Range(ids[..i + 1]) == Range(ids[..i]) + {ids[i]};
        ctls, sockets, procs := ctls[ids[i] := FRESH], sockets + {ids[i]}, procs[ids[i] := FRESH_PROCESS];
      }
      assert ids[..|ids|] == ids;
    }

    /**
     One call of sync. It does nothing if another one is running or the socket directory cannot be read, and
     leaves the counts of the last sync then. Otherwise the counts are those before it clears, grows or
     shrinks the pool.
     */
    method Sync(attempt: Attempt, dir: seq<Id>, range: seq<Id>, debug: bool, refused: set<Id>, spawned: seq<Id>)
      returns (failed: bool, ghost order: seq<Id>)
      requires Lists(dir, sockets) && Lists(range, Refresh(View()).ctls.Keys)
      requires Spawnable(Refresh(View()), poolSize, [], spawned)
      modifies this
      ensures failed <==> attempt.Unreadable?
      ensures !attempt.Proceeds? ==> unchanged(this)
      ensures poolSize == old(poolSize)
      ensures attempt.Proceeds? ==>
              var p := Refresh(old(View()));
              && free == |Sorted(p, Free)| && busy == |Sorted(p, Busy)| && stale == |Sorted(p, Stale)|
              && Lists(order, Sorted(p, Free))
              && View() == if debug then p else Maintain(p, poolSize, order, refused, spawned[..Wanted(poolSize, |order|, |spawned|)])
    {
      failed, order := attempt.Unreadable?, [];
      if !attempt.Proceeds? {
        return;
      }
      RefreshAll(dir);
      ghost var p := View();
      var frees, busies, stales := List(range);
      order := frees;
      free, busy, stale := |frees|, |busies|, |stales|;
      ListSize(frees, Sorted(p, Free));
      ListSize(busies, Sorted(p, Busy));
      ListSize(stales, Sorted(p, Stale));
      if debug {
        return;
      }
      EndAll(stales, refused);
      assert Range(stales) == Sorted(p, Stale);
      if |frees| < poolSize {
        SpawnAll(spawned[..Wanted(poolSize, |frees|, |spawned|)]);
      } else {
        EndAll(frees[poolSize..], refused);
      }
    }

    /**
     The loop that empties the pool on shutdown, with every booking granted: the number of passes it takes
     and what it leaves, which is only busy controllers.
     */
    method Shutdown(list: set<Id> -> seq<Id>, debug: bool) returns (passes: nat)
      requires forall ids :: Lists(list(ids), ids)
      modifies this
      ensures poolSize == 0
      ensures debug ==> passes == 1 && View() == Refresh(old(View()))
      ensures !debug ==> passes == Passes(old(View())) && Sorted(View(), Free) == {} && Sorted(View(), Stale) == {}
    {
      ghost var p := View();
      ShutdownStops(p);
      passes := 0;
      while true
        invariant passes <= 2
        invariant View() == if passes == 0 then p else if passes == 1 then Pass(p) else Pass(Pass(p))
        invariant passes >= 1 ==> !Stops(p)
        invariant passes == 2 ==> !Stops(Pass(p))
        invariant passes > 0 ==> !debug
        decreases 3 - passes
      {
        poolSize := 0;
        ghost var before := View();
        var failed, order := Sync(Proceeds, list(sockets), list(Refresh(View()).ctls.Keys), debug, {}, []);
        passes := passes + 1;
        if debug {
          return;
        }
        PassIsSync(before, order);
        PassLeavesBusy(before);
        if free == 0 && stale == 0 {
          return;
        }
        assert !Stops(before);
      }
    }
  }

  lemma EndedNone(p: Pool)
    ensures Ended(p, {}) == p
  {
    assert Leave(p, {}) == {};
    assert Ended(p, {}).ctls == p.ctls;
  }

  lemma BookedThenEnded(p: Pool, id: Id)
    ensures id in p.ctls ==> Ended(p.(ctls := p.ctls[id := p.ctls[id].(booked := true)]), {id}) == Ended(p, {id})
  {
    if id in p.ctls {
      var q := p.(ctls := p.ctls[id := p.ctls[id].(booked := true)]);
      assert Leave(q, {id}) == Leave(p, {id});
      assert Ended(q, {id}).ctls == Ended(p, {id}).ctls;
    }
  }

  function Wanted(target: nat, free: nat, spawned: nat): nat {
    if free < target && target - free < spawned then target - free else spawned
  }

  // some lists the ids of seen that have this status
  ghost predicate Picked(p: Pool, some: seq<Id>, seen: seq<Id>, st: Status) {
    && (forall i :: 0 <= i < |some| ==> some[i] in seen && Is(p, some[i], st))
    && (forall id :: id in seen && Is(p, id, st) ==> id in some)
    && (forall i, j :: 0 <= i < j < |some| ==> some[i] != some[j])
  }

  lemma PickNext(p: Pool, some: seq<Id>, seen: seq<Id>, id: Id, st: Status)
    requires Picked(p, some, seen, st) && id !in seen
    ensures Picked(p, if Is(p, id, st) then some + [id] else some, seen + [id], st)
  {
  }

  lemma PickedAll(p: Pool, some: seq<Id>, seen: seq<Id>, st: Status)
    requires Picked(p, some, seen, st) && Lists(seen, p.ctls.Keys)
    ensures Lists(some, Sorted(p, st))
  {
  }

  // The pool once the controllers behind these socket files were asked
  function AfterAsking(p: Pool, ids: set<Id>): map<Id, Controller>
    requires ids <= p.sockets
  {
    map id | id in p.ctls.Keys + ids :: if id in ids then Refreshed(p, id) else p.ctls[id]
  }

  lemma NoneAsked(p: Pool)
    ensures AfterAsking(p, {}) == p.ctls
  {
  }

  lemma OneAsked(p: Pool, ids: set<Id>, id: Id)
    requires ids <= p.sockets && id in p.sockets && id !in ids
    ensures AfterAsking(p, ids + {id}) == AfterAsking(p, ids)[id := Refreshed(p, id)]
    ensures id in AfterAsking(p, ids) <==> id in p.ctls
    ensures id in p.ctls ==> AfterAsking(p, ids)[id] == p.ctls[id]
  {
  }

  lemma AllAsked(p: Pool)
    ensures AfterAsking(p, p.sockets) == Refresh(p).ctls
  {
  }

  lemma NoneSpawned(p: Pool)
    ensures WithSpawned(p, {}) == p
  {
    assert WithSpawned(p, {}).ctls == p.ctls && WithSpawned(p, {}).procs == p.procs;
  }

  lemma OneMore(p: Pool, ids: set<Id>, id: Id)
    ensures var q := WithSpawned(p, ids);
            WithSpawned(p, ids + {id}) == Pool(q.ctls[id := FRESH], q.sockets + {id}, q.procs[id := FRESH_PROCESS])
  {
    var q, r := WithSpawned(p, ids), WithSpawned(p, ids + {id});
    assert r.ctls == q.ctls[id := FRESH] && r.procs == q.procs[id := FRESH_PROCESS];
  }

  lemma ListSize(order: seq<Id>, ids: set<Id>)
    requires Lists(order, ids)
    ensures |ids| == |order|
  {
    RangeSize(order);
    assert Range(order) == ids;
  }

  lemma PassLeavesBusy(p: Pool)
    ensures Sorted(Pass(p), Free) == {} && Sorted(Pass(p), Stale) == {}
  {
    forall id ensures !Is(Pass(p), id, Free) && !Is(Pass(p), id, Stale) { SecondLook(p, id); }
  }
}
