/**
 A put action in finer steps: the worker reads memory and the tombstones and decides what to tell the DB, API
 calls come and go while the DB is at work, and the answer settles the action. The laws hold all the same.

 A reload is not split: it and a put exclude each other by a lock.
 */
module LazyJobsSplit {
  import opened LazyJobs
  import opened LazyJobsAgreement

  // What the DB is working on for the action at the head of the queue
  datatype Flight =
    | Idle
    | WriteJob(job: Job) | EraseJob
    | WriteCheckpoint(checkpoint: Checkpoint) | EraseCheckpoint

  datatype Mid = Mid(s: State, flight: Flight)

  datatype SplitEvent =
    | Whole(e: Event)       // any event, while the DB is not at work on a put
    | Call(e: Event)        // an API call, while it is
    | Read
    | Settle(reply: Reply)

  predicate IsApi(e: Event) {
    e.New? || e.Refresh? || e.Delete? || e.Manage? || e.AddCheckpoint? || e.RemoveCheckpoint?
  }

  // New ids are not those of the action in flight either
  predicate Apart(m: Mid, e: Event) {
    e.AddCheckpoint? && m.s.pending != [] && m.s.pending[0].PutCheckpoint? ==>
      forall i :: 0 <= i < |e.added| ==> e.added[i].0 != m.s.pending[0].id
  }

  predicate CanStep(m: Mid, v: SplitEvent) {
    match v
    case Whole(e) => m.flight.Idle? && Enabled(m.s, e)
    case Call(e) => !m.flight.Idle? && IsApi(e) && Enabled(m.s, e) && Apart(m, e)
    case Read => m.flight.Idle? && !m.s.phase.Stopped? && m.s.pending != [] && Touches(m.s, m.s.pending[0])
    case Settle(_) => !m.flight.Idle? && m.s.pending != []
  }

  // What the put at the head of the queue asks of the DB
  function Decided(s: State): Flight
    requires s.pending != [] && Touches(s, s.pending[0])
  {
    match s.pending[0]
    case PutJob(j) => if j in s.jobs then WriteJob(s.jobs[j]) else EraseJob
    case PutCheckpoint(c) => if c in s.checkpoints then WriteCheckpoint(s.checkpoints[c]) else EraseCheckpoint
  }

  // The DB's answer, and what the worker does with it
  function Landed(s: State, f: Flight, a: Action, reply: Reply): (t: State)
    ensures t.pending == s.pending && t.jobs == s.jobs && t.checkpoints == s.checkpoints
  {
    if reply.FailsBefore? then s
    else
      match a
      case PutJob(j) =>
        if f.WriteJob? then s.(db := s.db.(jobs := s.db.jobs[j := f.job]))
        else if f.EraseJob? then
          s.(db := DbDeleteJob(s.db, j), deletedJobs := if reply.Succeeds? then s.deletedJobs - {j} else s.deletedJobs)
        else s
      case PutCheckpoint(c) =>
        if f.WriteCheckpoint? then s.(db := s.db.(checkpoints := s.db.checkpoints[c := f.checkpoint]))
        else if f.EraseCheckpoint? then
          s.(db := s.db.(checkpoints := s.db.checkpoints - {c}),
             deletedCheckpoints := if reply.Succeeds? then s.deletedCheckpoints - {c} else s.deletedCheckpoints)
        else s
      case _ => s
  }

  // The action leaves the head of the queue: a failed one goes to the back, or is given up by the shutdown drain
  function Settled(s: State, ok: bool): State
    requires s.pending != []
  {
    var a, rest := s.pending[0], s.pending[1..];
    if s.phase.Running? then s.(pending := if ok then rest else rest + [a])
    else s.(pending := rest, attempted := s.attempted + [a], failed := if ok then s.failed else s.failed + [a])
  }

  function SplitStep(m: Mid, v: SplitEvent): Mid
    requires CanStep(m, v)
  {
    match v
    case Whole(e) => m.(s := Step(m.s, e))
    case Call(e) => m.(s := Step(m.s, e))
    case Read => m.(flight := Decided(m.s))
    case Settle(reply) => Mid(Settled(Landed(m.s, m.flight, m.s.pending[0], reply), reply.Succeeds?), Idle)
  }

  predicate Follows(mids: seq<Mid>, events: seq<SplitEvent>, i: nat)
    requires i < |events| && |mids| == |events| + 1
  {
    CanStep(mids[i], events[i]) && mids[i + 1] == SplitStep(mids[i], events[i])
  }

  ghost predicate IsSplitRun(mids: seq<Mid>, events: seq<SplitEvent>) {
    |mids| == |events| + 1 && forall i :: 0 <= i < |events| ==> Follows(mids, events, i)
  }

  /******* With nothing in between it is the same step *******/

  lemma LandedIsSync(s: State, env: Env)
    requires s.pending != [] && Touches(s, s.pending[0]) && EnvOk(s, env)
    ensures Sync(s, s.pending[0], env) == (Landed(s, Decided(s), s.pending[0], env.reply), env.reply.Succeeds?)
  {
    match s.pending[0]
    case PutJob(j) =>
    case PutCheckpoint(c) =>
  }

  lemma UndisturbedIsWork(s: State, env: Env)
    requires s.pending != [] && Touches(s, s.pending[0]) && EnvOk(s, env)
    ensures var t := Landed(s, Decided(s), s.pending[0], env.reply);
            && (s.phase.Running? ==> Settled(t, env.reply.Succeeds?) == WorkOne(s, env))
            && (s.phase.Draining? ==> Settled(t, env.reply.Succeeds?) == DrainOne(s, env))
  {
    LandedIsSync(s, env);
    SyncIgnoresQueue(s, s.pending[1..], s.pending[0], env);
  }

  /******* The invariant *******/

  predicate Waiting(s: State, a: Action)
    requires s.pending != []
  {
    a in s.pending[1..]
  }

  // A job that the DB writes is still in memory, or was deleted since and a further put is queued. One that it
  // erases may have been created again, with puts queued for all that memory has of it by now
  ghost predicate FlightOk(m: Mid) {
    !m.flight.Idle? ==>
      var s := m.s;
      && s.pending != []
      && match s.pending[0]
         case PutJob(j) =>
           if m.flight.WriteJob? then j in s.jobs || (j in s.deletedJobs && Waiting(s, PutJob(j)))
           else
             && m.flight.EraseJob? && j in s.deletedJobs
             && (j in s.jobs && s.jobs[j].pid != 0 ==> Waiting(s, PutJob(j)))
             && (forall c :: c in s.checkpoints && s.checkpoints[c].jid == j ==> Waiting(s, PutCheckpoint(c)))
         case PutCheckpoint(c) =>
           if m.flight.WriteCheckpoint? then
             if c in s.checkpoints then s.checkpoints[c] == m.flight.checkpoint
             else c in s.deletedCheckpoints && Waiting(s, PutCheckpoint(c))
           else m.flight.EraseCheckpoint? && c !in s.checkpoints
         case _ => false
  }

  ghost predicate SplitInv(m: Mid, orphans: set<Id>) {
    Inv(m.s, orphans) && FlightOk(m)
  }

  // An API call adds to the back of the queue, and takes no tombstone away
  ghost predicate Behind(s: State, t: State) {
    && s.pending <= t.pending && t.db == s.db && t.phase == s.phase
    && s.deletedJobs.Keys <= t.deletedJobs.Keys && s.deletedCheckpoints.Keys <= t.deletedCheckpoints.Keys
  }

  lemma StillWaiting(s: State, t: State, a: Action)
    requires s.pending != [] && s.pending <= t.pending && (Waiting(s, a) || exists i :: |s.pending| <= i < |t.pending| && t.pending[i] == a)
    ensures t.pending[0] == s.pending[0] && Waiting(t, a)
  {
    if Waiting(s, a) {
      var i :| 0 <= i < |s.pending| - 1 && s.pending[1..][i] == a;
      assert t.pending[1..][i] == t.pending[i + 1] == s.pending[i + 1];
    } else {
      var i :| |s.pending| <= i < |t.pending| && t.pending[i] == a;
      assert t.pending[1..][i - 1] == a;
    }
  }

  lemma {:induction false} DeletesBehind(s: State, ids: seq<Id>, c: Id)
    ensures var t := DeleteCheckpoints(s, ids);
            && Behind(s, t) && t.checkpoints.Keys <= s.checkpoints.Keys && t.jobs == s.jobs && t.deletedJobs == s.deletedJobs
            && (c in t.checkpoints ==> t.checkpoints[c] == s.checkpoints[c])
            && (c in s.checkpoints && c !in t.checkpoints ==>
                c in t.deletedCheckpoints && exists i :: |s.pending| <= i < |t.pending| && t.pending[i] == PutCheckpoint(c))
    decreases |ids|
  {
    if ids != [] {
      var u := DeleteCheckpoint(s, ids[0]);
      DeletesBehind(u, ids[1..], c);
      var t := DeleteCheckpoints(s, ids);
      if c in s.checkpoints && c !in u.checkpoints {
        assert u.pending[|s.pending|] == PutCheckpoint(c);
        assert t.pending[|s.pending|] == PutCheckpoint(c);
      }
    }
  }

  lemma {:induction false} AddsBehind(s: State, jid: Id, added: seq<(Id, Checkpoint)>, c: Id)
    ensures var t := AddCheckpoints(s, jid, added);
            && Behind(s, t) && t == s.(checkpoints := t.checkpoints, pending := t.pending) && s.checkpoints.Keys <= t.checkpoints.Keys
            && (c in t.checkpoints ==>
                (c in s.checkpoints && t.checkpoints[c] == s.checkpoints[c])
                || exists i :: |s.pending| <= i < |t.pending| && t.pending[i] == PutCheckpoint(c))
            && ((forall i :: 0 <= i < |added| ==> added[i].0 != c) ==>
                (c in t.checkpoints <==> c in s.checkpoints) && (c in s.checkpoints ==> t.checkpoints[c] == s.checkpoints[c]))
    decreases |added|
  {
    if jid in s.jobs && added != [] {
      var u := AddOne(s, jid, added[0].0, added[0].1);
      AddsBehind(u, jid, added[1..], c);
      var t := AddCheckpoints(s, jid, added);
      assert u.pending[|s.pending|] == PutCheckpoint(added[0].0) && t.pending[|s.pending|] == u.pending[|s.pending|];
    }
  }

  // New, Refresh and Manage: a job keeps its pid or has a put queued, and nothing else changes
  lemma JobCallKeeps(m: Mid, e: Event)
    requires FlightOk(m) && CanStep(m, Call(e)) && (e.New? || e.Refresh? || e.Manage?)
    ensures FlightOk(SplitStep(m, Call(e)))
  {
    var s, t := m.s, Step(m.s, e);
    assert s.pending <= t.pending && t == s.(jobs := t.jobs, pending := t.pending) && s.jobs.Keys <= t.jobs.Keys;
    var a := s.pending[0];
    if Waiting(s, a) { StillWaiting(s, t, a); }
    if a.PutJob? {
      if m.flight.EraseJob? { QueuedFor(s, t, e, a.id); }
      forall c | Waiting(s, PutCheckpoint(c)) ensures Waiting(t, PutCheckpoint(c)) { StillWaiting(s, t, PutCheckpoint(c)); }
    }
  }

  lemma QueuedFor(s: State, t: State, e: Event, j: Id)
    requires s.pending != [] && Enabled(s, e) && t == Step(s, e) && (e.New? || e.Refresh? || e.Manage?)
    requires j in s.jobs && s.jobs[j].pid != 0 ==> Waiting(s, PutJob(j))
    ensures j in t.jobs && t.jobs[j].pid != 0 ==> Waiting(t, PutJob(j))
  {
    assert s.pending <= t.pending;
    if Waiting(s, PutJob(j)) {
      StillWaiting(s, t, PutJob(j));
    } else if j in t.jobs && t.jobs[j].pid != 0 {
      assert e.Manage? && e.jid == j && t.pending[|s.pending|] == PutJob(j);
      StillWaiting(s, t, PutJob(j));
    }
  }

  lemma DeleteCallKeeps(m: Mid, jid: Id, order: seq<Id>)
    requires FlightOk(m) && CanStep(m, Call(Delete(jid, order))) && jid in m.s.jobs
    ensures FlightOk(SplitStep(m, Call(Delete(jid, order))))
  {
    var s, u, t := m.s, Entombed(m.s, jid), DeleteJob(m.s, jid, order);
    var a := s.pending[0];
    DeletesBehind(u, order, if a.PutCheckpoint? then a.id else "");
    assert u.pending[|s.pending|] == PutJob(jid) && t.pending[|s.pending|] == u.pending[|s.pending|];
    StillWaiting(s, t, PutJob(jid));
    if Waiting(s, a) { StillWaiting(s, t, a); }
    match a {
      case PutJob(j) =>
        forall c | c in t.checkpoints && t.checkpoints[c].jid == j && m.flight.EraseJob? ensures Waiting(t, PutCheckpoint(c)) {
          DeletesBehind(u, order, c);
          StillWaiting(s, t, PutCheckpoint(c));
        }
      case PutCheckpoint(c) =>
        if c in s.checkpoints && c !in t.checkpoints {
          var i :| |u.pending| <= i < |t.pending| && t.pending[i] == PutCheckpoint(c);
          StillWaiting(s, t, PutCheckpoint(c));
        }
    }
  }

  lemma AddCallKeeps(m: Mid, jid: Id, added: seq<(Id, Checkpoint)>)
    requires FlightOk(m) && CanStep(m, Call(AddCheckpoint(jid, added)))
    ensures FlightOk(SplitStep(m, Call(AddCheckpoint(jid, added))))
  {
    var s, t := m.s, AddCheckpoints(m.s, jid, added);
    var a := s.pending[0];
    AddsBehind(s, jid, added, if a.PutCheckpoint? then a.id else "");
    if Waiting(s, a) { StillWaiting(s, t, a); }
    if m.flight.EraseJob? {
      forall c | c in t.checkpoints && t.checkpoints[c].jid == a.id ensures Waiting(t, PutCheckpoint(c)) {
        AddsBehind(s, jid, added, c);
        StillWaiting(s, t, PutCheckpoint(c));
      }
    }
  }

  lemma RemoveCallKeeps(m: Mid, id: Id)
    requires FlightOk(m) && CanStep(m, Call(RemoveCheckpoint(id))) && id in m.s.checkpoints
    ensures FlightOk(SplitStep(m, Call(RemoveCheckpoint(id))))
  {
    var s, t := m.s, DeleteCheckpoint(m.s, id);
    var a := s.pending[0];
    assert t.pending[|s.pending|] == PutCheckpoint(id);
    StillWaiting(s, t, PutCheckpoint(id));
    if Waiting(s, a) { StillWaiting(s, t, a); }
    if m.flight.EraseJob? {
      forall c | c in t.checkpoints && t.checkpoints[c].jid == a.id ensures Waiting(t, PutCheckpoint(c)) {
        StillWaiting(s, t, PutCheckpoint(c));
      }
    }
  }

  lemma CallKeepsFlight(m: Mid, e: Event)
    requires FlightOk(m) && CanStep(m, Call(e))
    ensures FlightOk(SplitStep(m, Call(e)))
  {
    match e
    case Delete(jid, order) => if jid in m.s.jobs { DeleteCallKeeps(m, jid, order); }
    case AddCheckpoint(jid, added) => AddCallKeeps(m, jid, added);
    case RemoveCheckpoint(id) => if id in m.s.checkpoints { RemoveCallKeeps(m, id); }
    case _ => JobCallKeeps(m, e);
  }

  // The DB's answer to the put of a job, while the action still counts as outstanding
  lemma LandJobKeepsInv(s: State, f: Flight, jid: Id, reply: Reply, orphans: set<Id>)
    requires Inv(s, orphans) && s.pending != [] && s.pending[0] == PutJob(jid) && FlightOk(Mid(s, f)) && !f.Idle?
    ensures Inv(Landed(s, f, PutJob(jid), reply), orphans)
  {
    var t := Landed(s, f, PutJob(jid), reply);
    assert Covered(s, PutJob(jid)) && forall b :: Waiting(s, b) ==> Covered(s, b);
    forall j ensures JobOk(t, j) { assert JobOk(s, j); }
    forall c ensures CheckpointOk(t, orphans, c) {
      assert CheckpointOk(s, orphans, c);
      if f.EraseJob? && c in s.checkpoints && s.checkpoints[c].jid == jid { assert Waiting(s, PutCheckpoint(c)); }
    }
  }

  lemma LandCheckpointKeepsInv(s: State, f: Flight, id: Id, reply: Reply, orphans: set<Id>)
    requires Inv(s, orphans) && s.pending != [] && s.pending[0] == PutCheckpoint(id) && FlightOk(Mid(s, f)) && !f.Idle?
    ensures Inv(Landed(s, f, PutCheckpoint(id), reply), orphans)
  {
    var t := Landed(s, f, PutCheckpoint(id), reply);
    assert Covered(s, PutCheckpoint(id)) && (Waiting(s, PutCheckpoint(id)) ==> Covered(s, PutCheckpoint(id)));
    forall j ensures JobOk(t, j) { assert JobOk(s, j); }
    forall c ensures CheckpointOk(t, orphans, c) { assert CheckpointOk(s, orphans, c); }
  }

  // Once it has succeeded and no other is queued, nothing depends on the action
  lemma LandDischarges(s: State, f: Flight, orphans: set<Id>)
    requires Inv(s, orphans) && s.pending != [] && FlightOk(Mid(s, f)) && !f.Idle? && !Waiting(s, s.pending[0])
    ensures Discharged(Landed(s, f, s.pending[0], Succeeds), s.pending[0], orphans)
  {
  }

  lemma SettleKeeps(m: Mid, reply: Reply, orphans: set<Id>)
    requires SplitInv(m, orphans) && CanStep(m, Settle(reply))
    ensures Inv(SplitStep(m, Settle(reply)).s, orphans)
  {
    var a := m.s.pending[0];
    if a.PutJob? { LandJobKeepsInv(m.s, m.flight, a.id, reply, orphans); }
    else { LandCheckpointKeepsInv(m.s, m.flight, a.id, reply, orphans); }
    if reply.Succeeds? && !Waiting(m.s, a) { LandDischarges(m.s, m.flight, orphans); }
    PopKeepsRest(Landed(m.s, m.flight, a, reply), reply.Succeeds?, orphans);
  }

  lemma PopKeepsRest(t: State, ok: bool, orphans: set<Id>)
    requires Inv(t, orphans) && t.pending != [] && (ok && !Waiting(t, t.pending[0]) ==> Discharged(t, t.pending[0], orphans))
    ensures Inv(Settled(t, ok), orphans)
  {
    var a, rest := t.pending[0], t.pending[1..];
    assert t.pending == [a] + rest;
    SettleKeepsInv(t, Settled(t, ok), a, orphans);
  }

  // Whatever API calls fall between the read and the answer, every step keeps the invariant
  lemma StepKeepsInv(m: Mid, v: SplitEvent, orphans: set<Id>)
    requires SplitInv(m, orphans) && CanStep(m, v)
    ensures SplitInv(SplitStep(m, v), orphans)
  {
    match v
    case Whole(e) => LazyJobsAgreement.StepKeepsInv(m.s, e, orphans);
    case Call(e) =>
      LazyJobsAgreement.StepKeepsInv(m.s, e, orphans);
      CallKeepsFlight(m, e);
    case Read => ReadIsOk(m, orphans);
    case Settle(reply) => SettleKeeps(m, reply, orphans);
  }

  lemma ReadIsOk(m: Mid, orphans: set<Id>)
    requires Inv(m.s, orphans) && CanStep(m, Read)
    ensures FlightOk(SplitStep(m, Read))
  {
    var s := m.s;
    if s.pending[0].PutJob? {
      forall c ensures c in s.checkpoints ==> s.checkpoints[c].jid in s.jobs { assert CheckpointOk(s, orphans, c); }
    }
  }

  lemma {:induction false} RunKeepsInv(mids: seq<Mid>, events: seq<SplitEvent>, orphans: set<Id>, k: nat)
    requires IsSplitRun(mids, events) && SplitInv(mids[0], orphans) && k < |mids|
    ensures SplitInv(mids[k], orphans)
  {
    if k > 0 {
      RunKeepsInv(mids, events, orphans, k - 1);
      assert Follows(mids, events, k - 1);
      StepKeepsInv(mids[k - 1], events[k - 1], orphans);
    }
  }

  /**
   In every run of these steps from every boot, once the DB is not at work and no put is outstanding, memory and
   DB agree: the stored jobs are in memory, the managed jobs and the checkpoints of memory are stored.
   */
  lemma QuiescentAgreement(db: Store, env: Env, mids: seq<Mid>, events: seq<SplitEvent>, k: nat)
    requires IsSplitRun(mids, events) && Boots(db, env, mids[0].s) && mids[0].flight.Idle? && k < |mids|
    requires Quiescent(mids[k].s)
    ensures var s := mids[k].s;
            && s.db.jobs.Keys <= s.jobs.Keys
            && (forall j :: j in s.jobs && s.jobs[j].pid != 0 ==> j in s.db.jobs)
            && (forall c :: c in s.checkpoints ==> c in s.db.checkpoints && s.db.checkpoints[c] == s.checkpoints[c])
            && s.db.checkpoints.Keys - s.checkpoints.Keys <= Orphans(db)
  {
    BootEstablishesInv(db, env, mids[0].s);
    RunKeepsInv(mids, events, Orphans(db), k);
    InvAgrees(mids[k].s, Orphans(db));
  }

  /******* No resurrection *******/

  lemma StepKeepsGone(m: Mid, v: SplitEvent, jid: Id, orphans: set<Id>)
    requires SplitInv(m, orphans) && CanStep(m, v) && Gone(m.s, jid)
    requires !((v.Whole? || v.Call?) && v.e.New? && v.e.jid == jid)
    ensures Gone(SplitStep(m, v).s, jid)
  {
    match v
    case Whole(e) => LazyJobsAgreement.StepKeepsGone(m.s, e, jid);
    case Call(e) => LazyJobsAgreement.StepKeepsGone(m.s, e, jid);
    case Read =>
    case Settle(reply) => SettleKeepsGone(m, reply, jid);
  }

  // A deleted job that the DB stores after all has its tombstone
  lemma SettleKeepsGone(m: Mid, reply: Reply, jid: Id)
    requires FlightOk(m) && CanStep(m, Settle(reply)) && Gone(m.s, jid)
    ensures Gone(SplitStep(m, Settle(reply)).s, jid)
  {
    WrittenIsEntombed(m, jid);
    LandKeepsGone(m.s, m.flight, m.s.pending[0], reply, jid);
    SettledKeepsGone(Landed(m.s, m.flight, m.s.pending[0], reply), reply.Succeeds?, jid);
  }

  lemma WrittenIsEntombed(m: Mid, jid: Id)
    requires FlightOk(m) && m.s.pending != [] && Gone(m.s, jid)
    ensures m.flight.WriteJob? && m.s.pending[0] == PutJob(jid) ==> jid in m.s.deletedJobs
  {
  }

  lemma SettledKeepsGone(t: State, ok: bool, jid: Id)
    requires t.pending != [] && Gone(t, jid)
    ensures Gone(Settled(t, ok), jid)
  {
  }

  lemma LandKeepsGone(s: State, f: Flight, a: Action, reply: Reply, jid: Id)
    requires Gone(s, jid) && (f.WriteJob? && a == PutJob(jid) ==> jid in s.deletedJobs)
    ensures Gone(Landed(s, f, a, reply), jid)
  {
  }

  /**
   Once a job has been deleted, even while the DB is at work on a put of it, neither the job nor any checkpoint
   of it is in memory again until it is created anew.
   */
  lemma NoResurrection(db: Store, env: Env, mids: seq<Mid>, events: seq<SplitEvent>, d: nat, k: nat, jid: Id)
    requires IsSplitRun(mids, events) && Boots(db, env, mids[0].s) && mids[0].flight.Idle? && d < k < |mids|
    requires (events[d].Whole? || events[d].Call?) && events[d].e.Delete? && events[d].e.jid == jid
    requires forall i :: d < i < k ==> !((events[i].Whole? || events[i].Call?) && events[i].e.New? && events[i].e.jid == jid)
    ensures jid !in mids[k].s.jobs
    ensures forall c :: c in mids[k].s.checkpoints ==> mids[k].s.checkpoints[c].jid != jid
  {
    BootEstablishesInv(db, env, mids[0].s);
    RunKeepsInv(mids, events, Orphans(db), d);
    assert Follows(mids, events, d);
    DeletedIsGone(mids[d].s, jid, events[d].e.order, Orphans(db));
    var i := d + 1;
    while i < k
      invariant d < i <= k
      invariant Gone(mids[i].s, jid)
    {
      RunKeepsInv(mids, events, Orphans(db), i);
      assert Follows(mids, events, i);
      StepKeepsGone(mids[i], events[i], jid, Orphans(db));
      i := i + 1;
    }
    RunKeepsInv(mids, events, Orphans(db), k);
    forall c | c in mids[k].s.checkpoints ensures mids[k].s.checkpoints[c].jid != jid {
      assert CheckpointOk(mids[k].s, Orphans(db), c);
    }
  }
}
