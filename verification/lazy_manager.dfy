/**
 The job manager as the program runs it: an object whose maps, queue and background loop change in
 place. Each method is proved to take exactly the step of the model.
 */
module LazyManager {
  import opened LazyJobs
  import opened LazyJobsAgreement
  import opened LazyJobsDrain
  import opened LazyJobsContents

  class ManagerLazy {
    var jobs: map<Id, Job>
    var checkpoints: map<Id, Checkpoint>
    var deletedJobs: map<Id, Job>
    var deletedCheckpoints: map<Id, Checkpoint>
    var pending: seq<Action>
    var db: Store
    var phase: Phase
    var attempted: seq<Action>
    var failed: seq<Action>

    function View(): State
      reads this
    {
      State(jobs, checkpoints, deletedJobs, deletedCheckpoints, pending, db, phase, attempted, failed)
    }

    constructor (db: Store)
      ensures View() == Empty(db)
    {
      this.db := db;
      jobs, checkpoints, deletedJobs, deletedCheckpoints := map[], map[], map[], map[];
      pending, phase, attempted, failed := [], Running, [], [];
    }

    method New(jid: Id, rest: int) returns (ok: bool)
      modifies this
      ensures View() == Step(old(View()), Event.New(jid, rest))
      ensures ok <==> jid != "" && jid !in old(jobs)
      ensures jobs == if ok then old(jobs)[jid := Job.Job(0, false, false, rest)] else old(jobs)
    {
      ok := jid != "" && jid !in jobs;
      if ok {
        jobs := jobs[jid := Job.Job(0, false, false, rest)];
      }
    }

    // Looks through the jobs in the order the map yields them
    method Find(pid: nat, order: seq<Id>) returns (found: seq<Id>)
      requires Lists(order, jobs.Keys)
      ensures Finds(View(), pid, found)
      ensures found == [] <==> forall j :: j in jobs ==> jobs[j].pid != pid
      ensures found != [] ==> |found| == 1 && found[0] in jobs && jobs[found[0]].pid == pid
    {
      for i := 0 to |order|
        invariant forall k :: 0 <= k < i ==> jobs[order[k]].pid != pid
      {
        if jobs[order[i]].pid == pid {
          return [order[i]];
        }
      }
      return [];
    }

    // seen is what reading the process state yields
    method Manage(jid: Id, pid: nat, seen: Job, order: seq<Id>) returns (ok: bool, found: seq<Id>)
      requires Lists(order, jobs.Keys)
      modifies this
      ensures Enabled(old(View()), Event.Manage(jid, pid, seen, found))
      ensures View() == Step(old(View()), Event.Manage(jid, pid, seen, found))
      ensures ok <==> View() != old(View())
      ensures ok <==> jid in old(jobs) && pid != 0 && (found == [] || found[0] == jid)
      ensures found == [] <==> forall j :: j in old(jobs) ==> old(jobs)[j].pid != pid
      ensures found != [] ==> found[0] in old(jobs) && old(jobs)[found[0]].pid == pid
      ensures ok ==> jobs == old(jobs)[jid := seen.(pid := pid)] && pending == old(pending) + [PutJob(jid)]
    {
      found := Find(pid, order);
      if jid !in jobs || pid == 0 || (found != [] && found[0] != jid) {
        return false, found;
      }
      jobs := jobs[jid := seen.(pid := pid)];
      pending := pending + [PutJob(jid)];
      ok := true;
    }

    method Get(jid: Id, seen: Job, attached: bool)
      modifies this
      ensures View() == Step(old(View()), Refresh(jid, seen, attached))
      ensures jobs.Keys == old(jobs).Keys && forall j :: j in jobs && j != jid ==> jobs[j] == old(jobs)[j]
      ensures jid in jobs ==>
              && jobs[jid] == Job.Job(old(jobs)[jid].pid, seen.remote, seen.gpu || attached, seen.rest)
              && pending == old(pending) + if attached && !seen.gpu then [PutJob(jid)] else []
    {
      if jid in jobs {
        var job := seen.(pid := jobs[jid].pid);
        jobs := jobs[jid := job];
        if !job.gpu && attached {
          jobs := jobs[jid := job.(gpu := true)];
          pending := pending + [PutJob(jid)];
        }
      }
    }

    method RemoveCheckpoint(id: Id)
      modifies this
      ensures View() == DeleteCheckpoint(old(View()), id)
      ensures checkpoints == old(checkpoints) - {id}
      ensures id in old(checkpoints) ==>
              && deletedCheckpoints == old(deletedCheckpoints)[id := old(checkpoints)[id]]
              && pending == old(pending) + [PutCheckpoint(id)]
      ensures id !in old(checkpoints) ==> unchanged(this)
    {
      if id in checkpoints {
        deletedCheckpoints := deletedCheckpoints[id := checkpoints[id]];
        checkpoints := checkpoints - {id};
        pending := pending + [PutCheckpoint(id)];
      }
    }

    method Delete(jid: Id, order: seq<Id>)
      requires Enabled(View(), Event.Delete(jid, order))
      modifies this
      ensures View() == Step(old(View()), Event.Delete(jid, order))
      ensures jid !in old(jobs) ==> unchanged(this)
      ensures jid in old(jobs) ==>
              && jobs == old(jobs) - {jid} && deletedJobs == old(deletedJobs)[jid := old(jobs)[jid]]
              && (forall c :: Buried(old(View()), View(), c in old(checkpoints) && old(checkpoints)[c].jid == jid, c))
              && pending == old(pending) + [PutJob(jid)] + Puts(order)
    {
      if jid !in jobs {
        return;
      }
      DeleteBuries(View(), jid, order);
      deletedJobs := deletedJobs[jid := jobs[jid]];
      jobs := jobs - {jid};
      pending := pending + [PutJob(jid)];
      ghost var entombed := View();
      for i := 0 to |order|
        invariant DeleteCheckpoints(View(), order[i..]) == DeleteCheckpoints(entombed, order)
      {
        RemoveCheckpoint(order[i]);
      }
    }

    method AddCheckpoint(jid: Id, added: seq<(Id, Checkpoint)>)
      modifies this
      ensures View() == AddCheckpoints(old(View()), jid, added)
      ensures jid !in jobs ==> unchanged(this)
      ensures jid in jobs && (forall i, k :: 0 <= i < k < |added| ==> added[i].0 != added[k].0) ==>
              && (forall i :: 0 <= i < |added| ==> added[i].0 in checkpoints && checkpoints[added[i].0] == added[i].1.(jid := jid))
              && pending == old(pending) + seq(|added|, i requires 0 <= i < |added| => PutCheckpoint(added[i].0))
    {
      if jid !in jobs {
        return;
      }
      ghost var s := View();
      if forall i, k :: 0 <= i < k < |added| ==> added[i].0 != added[k].0 {
        AddsEach(s, jid, added, "");
        forall i | 0 <= i < |added|
          ensures added[i].0 in AddCheckpoints(s, jid, added).checkpoints
          ensures AddCheckpoints(s, jid, added).checkpoints[added[i].0] == added[i].1.(jid := jid)
        {
          AddsEach(s, jid, added, added[i].0);
        }
      }
      for i := 0 to |added|
        invariant jid in jobs
        invariant AddCheckpoints(View(), jid, added[i..]) == AddCheckpoints(old(View()), jid, added)
      {
        checkpoints := checkpoints[added[i].0 := added[i].1.(jid := jid)];
        pending := pending + [PutCheckpoint(added[i].0)];
      }
    }

    method SyncWithDB(a: Action, env: Env) returns (ok: bool)
      requires EnvOk(View(), env)
      modifies this
      ensures (View(), ok) == Sync(old(View()), a, env)
    {
      match a
      case Initialize =>
        if !env.listed {
          return false;
        }
        ok := ReloadJobs(env.order, env.unlisted);
      case PutJob(jid) =>
        ok := true;
        if jid in jobs {
          ok := env.reply.Succeeds?;
          if !env.reply.FailsBefore? {
            db := db.(jobs := db.jobs[jid := jobs[jid]]);
          }
        } else if jid in deletedJobs {
          ok := env.reply.Succeeds?;
          if !env.reply.FailsBefore? {
            db := DbDeleteJob(db, jid);
          }
          if ok {
            deletedJobs := deletedJobs - {jid};
          }
        }
      case PutCheckpoint(id) =>
        ok := true;
        if id in checkpoints {
          ok := env.reply.Succeeds?;
          if !env.reply.FailsBefore? {
            db := db.(checkpoints := db.checkpoints[id := checkpoints[id]]);
          }
        } else if id in deletedCheckpoints {
          ok := env.reply.Succeeds?;
          if !env.reply.FailsBefore? {
            db := db.(checkpoints := db.checkpoints - {id});
          }
          if ok {
            deletedCheckpoints := deletedCheckpoints - {id};
          }
        }
      case Shutdown =>
        ok := true;
    }

    method ReloadJobs(order: seq<Id>, unlisted: set<Id>) returns (ok: bool)
      requires forall j :: j in order ==> j in db.jobs
      modifies this
      ensures (View(), ok) == Reload(old(View()), order, unlisted)
      ensures Distinct(order) ==>
              && (forall j :: JobAfter(old(View()), View(), order, unlisted, j))
              && (forall c :: CheckpointAfter(old(View()), View(), order, unlisted, c))
    {
      if Distinct(order) { ReloadContents(View(), order, unlisted); }
      for i := 0 to |order|
        invariant db == old(db)
        invariant Reload(View(), order[i..], unlisted) == Reload(old(View()), order, unlisted)
      {
        var jid := order[i];
        assert order[i..][0] == jid && order[i..][1..] == order[i + 1..];
        if jid !in deletedJobs && (jid !in jobs || db.jobs[jid].remote) {
          jobs := jobs[jid := db.jobs[jid]];
          if jid in unlisted {
            return false;
          }
          checkpoints := checkpoints + CheckpointsOf(db, jid);
        }
      }
      ok := true;
    }

    // The background loop taking one action off the queue
    method Turn(env: Env)
      requires Enabled(View(), Work(env))
      modifies this
      ensures View() == Step(old(View()), Work(env))
    {
      var a := pending[0];
      pending := pending[1..];
      var ok := SyncWithDB(a, env);
      if !ok {
        pending := pending + [a];
      }
    }

    // The background loop with nothing to do for a while
    method Tick()
      requires phase.Running?
      modifies this`pending
      ensures View() == Step(old(View()), Event.Tick)
      ensures pending == old(pending) + [Initialize]
    {
      pending := pending + [Initialize];
    }

    // The shutdown drain taking one action off the queue
    method DrainTurn(env: Env)
      requires Enabled(View(), Event.Drain(env))
      modifies this
      ensures View() == Step(old(View()), Event.Drain(env))
    {
      var a := pending[0];
      pending := pending[1..];
      if a.Shutdown? {
        phase := Stopped;
      } else {
        var ok := SyncWithDB(a, env);
        attempted := attempted + [a];
        if !ok {
          failed := failed + [a];
        }
      }
    }

    // An API call, whichever it is
    method Arrive(e: Event)
      requires IsCall(e) && Enabled(View(), e)
      modifies this
      ensures View() == Step(old(View()), e)
    {
      match e
      case New(jid, rest) => var ok := New(jid, rest);
      case Refresh(jid, seen, attached) => Get(jid, seen, attached);
      case Delete(jid, order) => Delete(jid, order);
      case Manage(jid, pid, seen, found) =>
        if Manageable(View(), jid, pid, found) {
          jobs := jobs[jid := seen.(pid := pid)];
          pending := pending + [PutJob(jid)];
        }
      case AddCheckpoint(jid, added) => AddCheckpoint(jid, added);
      case RemoveCheckpoint(id) => RemoveCheckpoint(id);
      case UserSync(env) => var ok := SyncWithDB(Initialize, env);
    }

    /**
     The last drain, on shutdown; answer is what the DB does in each state, and calls(n) API calls, which
     may depend on the state, arrive before its n-th turn. It ends, has tried every action queued before its
     marker once, in order, and whatever disagreement is then left between memory and DB is about an action
     still queued or reported as failed.
     */
    method DrainBeforeShutdown(answer: State -> Env, calls: nat -> nat, call: State -> Event, ghost orphans: set<Id>)
      requires phase.Running? && attempted == [] && Action.Shutdown !in pending
      requires forall s :: EnvOk(s, answer(s)) && IsCall(call(s)) && Enabled(s, call(s))
      requires Inv(View(), orphans)
      modifies this
      ensures attempted == old(pending) && phase.Stopped?
      ensures Inv(View(), orphans)
    {
      ghost var queued := pending;
      StepKeepsInv(View(), BeginShutdown, orphans);
      pending := pending + [Action.Shutdown];
      phase := Draining;
      var turn := 0;
      while phase.Draining?
        invariant DrainInv(View(), queued) && Inv(View(), orphans)
        decreases phase.Draining?, |queued| - |attempted|
      {
        ArriveAll(calls(turn), call, queued, orphans);
        var env := answer(View());
        DrainGoesOn(View(), env, queued);
        StepKeepsInv(View(), Event.Drain(env), orphans);
        StepKeepsDrain(View(), Event.Drain(env), queued);
        DrainTurn(env);
        turn := turn + 1;
      }
    }

    method ArriveAll(n: nat, call: State -> Event, ghost queued: seq<Action>, ghost orphans: set<Id>)
      requires forall s :: IsCall(call(s)) && Enabled(s, call(s))
      requires phase.Draining? && DrainInv(View(), queued) && Inv(View(), orphans) && Action.Shutdown !in queued
      modifies this
      ensures phase.Draining? && attempted == old(attempted) && DrainInv(View(), queued) && Inv(View(), orphans)
    {
      for i := 0 to n
        invariant phase.Draining? && attempted == old(attempted) && DrainInv(View(), queued) && Inv(View(), orphans)
      {
        var e := call(View());
        StepKeepsInv(View(), e, orphans);
        StepKeepsDrain(View(), e, queued);
        CallKeepsPhase(View(), e);
        Arrive(e);
      }
    }
  }

  predicate IsCall(e: Event) {
    !e.Tick? && !e.Work? && !e.BeginShutdown? && !e.Drain?
  }

  // API calls leave the shutdown alone
  lemma CallKeepsPhase(s: State, e: Event)
    requires IsCall(e) && Enabled(s, e)
    ensures Step(s, e).phase == s.phase && Step(s, e).attempted == s.attempted
  {
    match e
    case Delete(jid, order) => if jid in s.jobs { DeleteCheckpointsFrame(Entombed(s, jid), order); }
    case AddCheckpoint(jid, added) => AddCheckpointsFrame(s, jid, added);
    case UserSync(env) => if env.listed { ReloadFrame(s, env.order, env.unlisted); }
    case _ =>
  }

  // The drain has something to take, and either stops or has tried one more
  lemma DrainGoesOn(s: State, env: Env, queued: seq<Action>)
    requires DrainInv(s, queued) && s.phase.Draining? && EnvOk(s, env) && Action.Shutdown !in queued
    ensures Enabled(s, Event.Drain(env))
    ensures var t := DrainOne(s, env);
            t.phase.Stopped? || (t.phase.Draining? && |s.attempted| < |queued| && |t.attempted| == |s.attempted| + 1)
  {
    assert |s.attempted + s.pending| >= |queued| + 1;
    assert s.pending != [];
    var a, rest := s.pending[0], s.pending[1..];
    assert (s.attempted + s.pending)[|s.attempted|] == a;
    if |s.attempted| == |queued| {
      assert a == (queued + [Action.Shutdown])[|queued|];
    } else {
      assert a == queued[|s.attempted|];
      if a.Initialize? && env.listed { ReloadFrame(s.(pending := rest), env.order, env.unlisted); }
    }
  }

  // Makes a manager, with a first sync that may fail
  method NewManagerLazy(db: Store, env: Env) returns (m: ManagerLazy, ok: bool)
    requires EnvOk(Empty(db), env)
    ensures (m.View(), ok) == Sync(Empty(db), Initialize, env)
    ensures ok ==> Inv(m.View(), Orphans(db)) && m.jobs == db.jobs && m.pending == []
  {
    m := new ManagerLazy(db);
    ok := m.SyncWithDB(Initialize, env);
    if ok {
      BootEstablishesInv(db, env, m.View());
      BootLoadsRows(db, env, m.View());
    }
  }
}
