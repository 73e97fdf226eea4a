/**
 What the lazy job manager keeps in every run: memory and DB agree up to the actions outstanding, and
 what was deleted stays deleted.
 */
module LazyJobsAgreement {
  import opened LazyJobs

  /******* The invariant *******/

  predicate Covered(s: State, a: Action) {
    a in s.pending || a in s.failed
  }

  // Checkpoint rows whose job has no row are never loaded
  function Orphans(db: Store): set<Id> {
    set c | c in db.checkpoints && db.checkpoints[c].jid !in db.jobs
  }

  // A row without a job in memory is tombstoned with a delete on its way; a managed job without a row
  // has a put on its way
  predicate JobOk(s: State, j: Id) {
    && (j in s.db.jobs && j !in s.jobs ==> j in s.deletedJobs && Covered(s, PutJob(j)))
    && (j in s.jobs && s.jobs[j].pid != 0 && j !in s.db.jobs ==> Covered(s, PutJob(j)))
  }

  // The same for checkpoints, whose contents agree too, and no checkpoint outlives its job
  predicate CheckpointOk(s: State, orphans: set<Id>, c: Id) {
    && (c in s.checkpoints ==> s.checkpoints[c].jid in s.jobs)
    && (c in s.checkpoints && c !in s.db.checkpoints ==> Covered(s, PutCheckpoint(c)))
    && (c in s.db.checkpoints && c !in s.checkpoints && c !in orphans ==>
          c in s.deletedCheckpoints && Covered(s, PutCheckpoint(c)))
    && (c in s.checkpoints && c in s.db.checkpoints ==> s.checkpoints[c] == s.db.checkpoints[c])
  }

  ghost predicate Inv(s: State, orphans: set<Id>) {
    && (forall j :: JobOk(s, j))
    && (forall c :: CheckpointOk(s, orphans, c))
  }

  // Everything a reload leaves alone
  predicate SameButMemory(s: State, t: State) {
    t == s.(jobs := t.jobs, checkpoints := t.checkpoints)
  }

  // What a reload may do to memory
  ghost predicate Reloaded(s: State, t: State) {
    && SameButMemory(s, t)
    && t.jobs.Keys == s.jobs.Keys
    && (forall j :: j in t.jobs ==> t.jobs[j] == s.jobs[j] || j in s.db.jobs)
    && (forall c :: c in s.checkpoints ==> c in t.checkpoints)
    && (forall c :: c in t.checkpoints ==>
          || (c in s.checkpoints && t.checkpoints[c] == s.checkpoints[c])
          || (c in s.db.checkpoints && t.checkpoints[c] == s.db.checkpoints[c] && t.checkpoints[c].jid in s.jobs))
  }

  lemma {:induction false} ReloadEffect(s: State, order: seq<Id>, unlisted: set<Id>)
    requires forall j :: j in order ==> j in s.db.jobs
    requires forall j :: j in s.db.jobs ==> j in s.jobs || j in s.deletedJobs
    ensures Reloaded(s, Reload(s, order, unlisted).0)
    decreases |order|
  {
    if order != [] {
      var j := order[0];
      if Wanted(s, j) {
        var t := LoadJob(s, j);
        assert Reloaded(s, t);
        if j !in unlisted {
          var u := LoadCheckpoints(t, j);
          assert Reloaded(s, u);
          ReloadEffect(u, order[1..], unlisted);
        }
      } else {
        ReloadEffect(s, order[1..], unlisted);
      }
    }
  }

  lemma ReloadKeepsInv(s: State, order: seq<Id>, unlisted: set<Id>, orphans: set<Id>)
    requires Inv(s, orphans)
    requires forall j :: j in order ==> j in s.db.jobs
    ensures var t := Reload(s, order, unlisted).0;
            Inv(t, orphans) && SameButMemory(s, t)
  {
    assert forall j :: JobOk(s, j) ==> j in s.db.jobs ==> j in s.jobs || j in s.deletedJobs;
    ReloadEffect(s, order, unlisted);
    var t := Reload(s, order, unlisted).0;
    forall j ensures JobOk(t, j) { assert JobOk(s, j); }
    forall c ensures CheckpointOk(t, orphans, c) { assert CheckpointOk(s, orphans, c); }
  }

  lemma PutJobKeepsInv(s: State, jid: Id, reply: Reply, orphans: set<Id>)
    requires Inv(s, orphans) && Covered(s, PutJob(jid))
    ensures Inv(SyncPutJob(s, jid, reply), orphans)
  {
    var t := SyncPutJob(s, jid, reply);
    forall j ensures JobOk(t, j) { assert JobOk(s, j); }
    forall c ensures CheckpointOk(t, orphans, c) { assert CheckpointOk(s, orphans, c); }
  }

  lemma PutCheckpointKeepsInv(s: State, id: Id, reply: Reply, orphans: set<Id>)
    requires Inv(s, orphans) && Covered(s, PutCheckpoint(id))
    ensures Inv(SyncPutCheckpoint(s, id, reply), orphans)
  {
    var t := SyncPutCheckpoint(s, id, reply);
    forall j ensures JobOk(t, j) { assert JobOk(s, j); }
    forall c ensures CheckpointOk(t, orphans, c) { assert CheckpointOk(s, orphans, c); }
  }

  // Once an action has gone through, nothing depends on its being outstanding
  predicate Discharged(s: State, a: Action, orphans: set<Id>) {
    match a
    case PutJob(j) => (j in s.db.jobs ==> j in s.jobs) && (j in s.jobs && s.jobs[j].pid != 0 ==> j in s.db.jobs)
    case PutCheckpoint(c) =>
      && (c in s.checkpoints ==> c in s.db.checkpoints)
      && (c in s.db.checkpoints ==> c in s.checkpoints || c in orphans)
    case _ => true
  }

  // Anything outstanding in s, apart from a, is outstanding in t
  ghost predicate Keeps(s: State, t: State, a: Action) {
    && t == s.(pending := t.pending, failed := t.failed, phase := t.phase, attempted := t.attempted)
    && (forall b :: b != a && Covered(s, b) ==> Covered(t, b))
  }

  lemma SettleKeepsInv(s: State, t: State, a: Action, orphans: set<Id>)
    requires Inv(s, orphans) && Keeps(s, t, a)
    requires Covered(s, a) ==> Covered(t, a) || Discharged(s, a, orphans)
    ensures Inv(t, orphans)
  {
    forall j ensures JobOk(t, j) { assert JobOk(s, j); assert Covered(s, PutJob(j)) ==> PutJob(j) == a || Covered(t, PutJob(j)); }
    forall c ensures CheckpointOk(t, orphans, c) {
      assert CheckpointOk(s, orphans, c);
      assert Covered(s, PutCheckpoint(c)) ==> PutCheckpoint(c) == a || Covered(t, PutCheckpoint(c));
    }
  }

  // The action at the head of the queue, synced while it still counts as outstanding
  lemma HeadKeepsInv(s: State, env: Env, orphans: set<Id>)
    requires Inv(s, orphans) && s.pending != [] && EnvOk(s, env)
    ensures var (t, ok) := Sync(s, s.pending[0], env);
            && Inv(t, orphans)
            && t.pending == s.pending && t.failed == s.failed && t.phase == s.phase && t.attempted == s.attempted
            && (ok ==> Discharged(t, s.pending[0], orphans))
  {
    var a := s.pending[0];
    assert Covered(s, a);
    match a
    case Initialize => if env.listed { ReloadKeepsInv(s, env.order, env.unlisted, orphans); }
    case PutJob(jid) => PutJobKeepsInv(s, jid, env.reply, orphans); assert JobOk(s, jid);
    case PutCheckpoint(id) => PutCheckpointKeepsInv(s, id, env.reply, orphans); assert CheckpointOk(s, orphans, id);
    case Shutdown =>
  }

  // Sync does not look at the queue, so it may as well run before the pop
  lemma {:induction false} ReloadIgnoresQueue(s: State, q: seq<Action>, order: seq<Id>, unlisted: set<Id>)
    requires forall j :: j in order ==> j in s.db.jobs
    ensures var (t, ok) := Reload(s, order, unlisted);
            Reload(s.(pending := q), order, unlisted) == (t.(pending := q), ok)
    decreases |order|
  {
    if order != [] {
      if Wanted(s, order[0]) {
        if order[0] !in unlisted {
          ReloadIgnoresQueue(LoadCheckpoints(LoadJob(s, order[0]), order[0]), q, order[1..], unlisted);
        }
      } else {
        ReloadIgnoresQueue(s, q, order[1..], unlisted);
      }
    }
  }

  lemma SyncIgnoresQueue(s: State, q: seq<Action>, a: Action, env: Env)
    requires EnvOk(s, env)
    ensures var (t, ok) := Sync(s, a, env);
            Sync(s.(pending := q), a, env) == (t.(pending := q), ok)
  {
    if a.Initialize? && env.listed { ReloadIgnoresQueue(s, q, env.order, env.unlisted); }
  }

  lemma PopKeepsInv(s: State, env: Env, orphans: set<Id>)
    requires Inv(s, orphans) && s.pending != [] && EnvOk(s, env)
    ensures Inv(WorkOne(s, env), orphans) && Inv(DrainOne(s, env), orphans)
  {
    var a, rest := s.pending[0], s.pending[1..];
    assert s.pending == [a] + rest;
    HeadKeepsInv(s, env, orphans);
    SyncIgnoresQueue(s, rest, a, env);
    var t := Sync(s, a, env).0;
    SettleKeepsInv(t, WorkOne(s, env), a, orphans);
    SettleKeepsInv(t, DrainOne(s, env), a, orphans);
  }

  lemma DeleteCheckpointKeeps(s: State, id: Id, orphans: set<Id>, c: Id)
    requires CheckpointOk(s, orphans, c) || (c == id && c in s.checkpoints)
    ensures c in s.checkpoints ==> c == id || DeleteCheckpoint(s, id).checkpoints.Keys == s.checkpoints.Keys - {id}
    ensures CheckpointOk(DeleteCheckpoint(s, id), orphans, c)
  {
    var t := DeleteCheckpoint(s, id);
    assert id in s.checkpoints ==> t.pending[|s.pending|] == PutCheckpoint(id);
  }

  // Deletes the listed checkpoints, among them every one that had lost its job
  lemma {:induction false} DeleteCheckpointsKeeps(s: State, ids: seq<Id>, orphans: set<Id>)
    requires forall c :: CheckpointOk(s, orphans, c) || (c in ids && c in s.checkpoints)
    ensures var t := DeleteCheckpoints(s, ids);
            && (forall c :: CheckpointOk(t, orphans, c))
            && s.pending <= t.pending
            && t == s.(checkpoints := t.checkpoints, deletedCheckpoints := t.deletedCheckpoints, pending := t.pending)
    decreases |ids|
  {
    if ids != [] {
      var u := DeleteCheckpoint(s, ids[0]);
      assert ids == [ids[0]] + ids[1..];
      forall c ensures CheckpointOk(u, orphans, c) || (c in ids[1..] && c in u.checkpoints) {
        assert CheckpointOk(s, orphans, c) || (c in ids && c in s.checkpoints);
        if CheckpointOk(s, orphans, c) || c == ids[0] { DeleteCheckpointKeeps(s, ids[0], orphans, c); }
      }
      DeleteCheckpointsKeeps(u, ids[1..], orphans);
    }
  }

  lemma DeleteKeepsInv(s: State, jid: Id, order: seq<Id>, orphans: set<Id>)
    requires Inv(s, orphans) && Enabled(s, Delete(jid, order))
    ensures Inv(DeleteJob(s, jid, order), orphans)
  {
    if jid in s.jobs {
      var u := Entombed(s, jid);
      assert u.pending[|s.pending|] == PutJob(jid);
      forall c ensures CheckpointOk(u, orphans, c) || (c in order && c in u.checkpoints) {
        assert CheckpointOk(s, orphans, c);
        assert Covered(s, PutCheckpoint(c)) ==> Covered(u, PutCheckpoint(c));
        if c in s.checkpoints && s.checkpoints[c].jid == jid {
          assert c in set c | c in s.checkpoints && s.checkpoints[c].jid == jid;
        }
      }
      DeleteCheckpointsKeeps(u, order, orphans);
      var t := DeleteCheckpoints(u, order);
      assert s.pending <= t.pending && t.pending[|s.pending|] == PutJob(jid);
      forall j ensures JobOk(t, j) {
        assert JobOk(s, j);
        assert Covered(s, PutJob(j)) || j == jid ==> Covered(t, PutJob(j));
      }
    }
  }

  lemma AddOneKeepsInv(s: State, jid: Id, id: Id, checkpoint: Checkpoint, orphans: set<Id>)
    requires Inv(s, orphans) && jid in s.jobs && id !in s.db.checkpoints
    ensures Inv(AddOne(s, jid, id, checkpoint), orphans)
  {
    var t := AddOne(s, jid, id, checkpoint);
    assert t.pending[|s.pending|] == PutCheckpoint(id);
    forall j ensures JobOk(t, j) { assert JobOk(s, j); }
    forall c ensures CheckpointOk(t, orphans, c) { assert CheckpointOk(s, orphans, c); }
  }

  lemma {:induction false} AddCheckpointsKeepsInv(s: State, jid: Id, added: seq<(Id, Checkpoint)>, orphans: set<Id>)
    requires Inv(s, orphans)
    requires forall i :: 0 <= i < |added| ==> added[i].0 !in s.db.checkpoints
    ensures Inv(AddCheckpoints(s, jid, added), orphans)
    decreases |added|
  {
    if jid in s.jobs && added != [] {
      AddOneKeepsInv(s, jid, added[0].0, added[0].1, orphans);
      AddCheckpointsKeepsInv(AddOne(s, jid, added[0].0, added[0].1), jid, added[1..], orphans);
    }
  }

  // New, Refresh, Manage, Tick and BeginShutdown: memory of one job and the back of the queue
  lemma TouchJobKeepsInv(s: State, t: State, orphans: set<Id>)
    requires Inv(s, orphans) && s.pending <= t.pending
    requires t == s.(jobs := t.jobs, pending := t.pending, phase := t.phase) && s.jobs.Keys <= t.jobs.Keys
    requires forall j :: j in t.jobs && t.jobs[j].pid != 0 ==>
               (j in s.jobs && s.jobs[j].pid == t.jobs[j].pid) || PutJob(j) in t.pending
    ensures Inv(t, orphans)
  {
    forall j ensures JobOk(t, j) { assert JobOk(s, j); }
    forall c ensures CheckpointOk(t, orphans, c) { assert CheckpointOk(s, orphans, c); }
  }

  // Every step keeps the invariant
  lemma StepKeepsInv(s: State, e: Event, orphans: set<Id>)
    requires Inv(s, orphans) && Enabled(s, e)
    ensures Inv(Step(s, e), orphans)
  {
    match e
    case Delete(jid, order) => DeleteKeepsInv(s, jid, order, orphans);
    case AddCheckpoint(jid, added) => AddCheckpointsKeepsInv(s, jid, added, orphans);
    case RemoveCheckpoint(id) =>
      var t := Step(s, e);
      forall c ensures CheckpointOk(t, orphans, c) { assert CheckpointOk(s, orphans, c); DeleteCheckpointKeeps(s, id, orphans, c); }
      forall j ensures JobOk(t, j) { assert JobOk(s, j); }
    case UserSync(env) => if env.listed { ReloadKeepsInv(s, env.order, env.unlisted, orphans); }
    case Work(env) => PopKeepsInv(s, env, orphans);
    case Drain(env) => PopKeepsInv(s, env, orphans);
    case Manage(jid, pid, seen, found) =>
      var t := Step(s, e);
      assert t != s ==> t.pending[|s.pending|] == PutJob(jid);
      TouchJobKeepsInv(s, t, orphans);
    case _ => TouchJobKeepsInv(s, Step(s, e), orphans);
  }

  /******* Booting *******/

  // What the constructor's reload has loaded so far
  ghost predicate Loading(s: State) {
    && s.deletedJobs == map[]
    && (forall j :: j in s.jobs ==> j in s.db.jobs && s.jobs[j] == s.db.jobs[j])
    && (forall c :: c in s.checkpoints ==>
          c in s.db.checkpoints && s.checkpoints[c] == s.db.checkpoints[c] && s.checkpoints[c].jid in s.jobs)
    && (forall c :: c in s.db.checkpoints && s.db.checkpoints[c].jid in s.jobs ==> c in s.checkpoints)
  }

  lemma {:induction false} ReloadLoadsAll(s: State, order: seq<Id>, unlisted: set<Id>)
    requires forall j :: j in order ==> j in s.db.jobs
    requires Loading(s) && Reload(s, order, unlisted).1
    ensures var t := Reload(s, order, unlisted).0;
            SameButMemory(s, t) && Loading(t) && t.jobs.Keys == s.jobs.Keys + (set j | j in order)
    decreases |order|
  {
    if order != [] {
      assert order == [order[0]] + order[1..];
      if Wanted(s, order[0]) {
        var u := LoadCheckpoints(LoadJob(s, order[0]), order[0]);
        assert u.jobs.Keys == s.jobs.Keys + {order[0]};
        assert Loading(u);
        ReloadLoadsAll(u, order[1..], unlisted);
      } else {
        ReloadLoadsAll(s, order[1..], unlisted);
      }
    }
  }

  // The constructor's sync leaves memory and DB in agreement, whatever the DB held
  lemma BootEstablishesInv(db: Store, env: Env, s: State)
    requires Boots(db, env, s)
    ensures Inv(s, Orphans(db)) && s.jobs == db.jobs && s.pending == []
  {
    ReloadLoadsAll(Empty(db), env.order, env.unlisted);
    assert s.jobs.Keys == db.jobs.Keys;
    forall j ensures JobOk(s, j) { assert j in s.jobs <==> j in s.jobs.Keys; }
    forall c ensures CheckpointOk(s, Orphans(db), c) {
      if c in db.checkpoints { assert db.checkpoints[c].jid in s.jobs <==> db.checkpoints[c].jid in s.jobs.Keys; }
    }
  }

  lemma {:induction false} RunKeepsInv(states: seq<State>, events: seq<Event>, orphans: set<Id>, k: nat)
    requires IsRun(states, events) && Inv(states[0], orphans) && k < |states|
    ensures Inv(states[k], orphans)
  {
    if k > 0 {
      RunKeepsInv(states, events, orphans, k - 1);
      assert Follows(states, events, k - 1);
      StepKeepsInv(states[k - 1], events[k - 1], orphans);
    }
  }

  /******* Quiescent agreement *******/

  predicate Quiescent(s: State) {
    forall a :: a in s.pending + s.failed ==> a.Initialize? || a.Shutdown?
  }

  /**
   In every run from every DB, whatever calls fail: each disagreement between memory and DB has an
   action queued for it (or recorded as failed by the shutdown drain), so once no put is outstanding
   the DB holds exactly the jobs of memory that were ever managed or stored, and exactly the
   checkpoints of memory.
   */
  lemma QuiescentAgreement(db: Store, env: Env, states: seq<State>, events: seq<Event>, k: nat)
    requires IsRun(states, events) && Boots(db, env, states[0]) && k < |states|
    requires Quiescent(states[k])
    ensures states[k].db.jobs.Keys <= states[k].jobs.Keys
    ensures forall j :: j in states[k].jobs && states[k].jobs[j].pid != 0 ==> j in states[k].db.jobs
    ensures forall c :: c in states[k].checkpoints ==>
              c in states[k].db.checkpoints && states[k].db.checkpoints[c] == states[k].checkpoints[c]
    ensures states[k].db.checkpoints.Keys - states[k].checkpoints.Keys <= Orphans(db)
    ensures forall c :: c in states[k].checkpoints ==> states[k].checkpoints[c].jid in states[k].jobs
  {
    BootEstablishesInv(db, env, states[0]);
    RunKeepsInv(states, events, Orphans(db), k);
    InvAgrees(states[k], Orphans(db));
  }

  lemma InvAgrees(s: State, orphans: set<Id>)
    requires Inv(s, orphans) && Quiescent(s)
    ensures s.db.jobs.Keys <= s.jobs.Keys
    ensures forall j :: j in s.jobs && s.jobs[j].pid != 0 ==> j in s.db.jobs
    ensures forall c :: c in s.checkpoints ==> c in s.db.checkpoints && s.db.checkpoints[c] == s.checkpoints[c]
    ensures s.db.checkpoints.Keys - s.checkpoints.Keys <= orphans
    ensures forall c :: c in s.checkpoints ==> s.checkpoints[c].jid in s.jobs
  {
    assert forall a :: a in s.pending || a in s.failed ==> a in s.pending + s.failed;
    forall j ensures j in s.db.jobs ==> j in s.jobs
             ensures j in s.jobs && s.jobs[j].pid != 0 ==> j in s.db.jobs { assert JobOk(s, j); }
    forall c ensures c in s.checkpoints ==> c in s.db.checkpoints && s.db.checkpoints[c] == s.checkpoints[c]
             ensures c in s.checkpoints ==> s.checkpoints[c].jid in s.jobs
             ensures c in s.db.checkpoints ==> c in s.checkpoints || c in orphans {
      assert CheckpointOk(s, orphans, c);
    }
  }

  // No checkpoint in memory ever outlives its job
  lemma EveryCheckpointHasItsJob(db: Store, env: Env, states: seq<State>, events: seq<Event>, k: nat, c: Id)
    requires IsRun(states, events) && Boots(db, env, states[0]) && k < |states|
    requires c in states[k].checkpoints
    ensures states[k].checkpoints[c].jid in states[k].jobs
  {
    BootEstablishesInv(db, env, states[0]);
    RunKeepsInv(states, events, Orphans(db), k);
    assert CheckpointOk(states[k], Orphans(db), c);
  }

  /******* No resurrection *******/

  // jid is gone for good unless created again
  ghost predicate Gone(s: State, jid: Id) {
    jid !in s.jobs && (jid in s.db.jobs ==> jid in s.deletedJobs)
  }

  lemma {:induction false} ReloadKeepsGone(s: State, order: seq<Id>, unlisted: set<Id>, jid: Id)
    requires Gone(s, jid)
    requires forall j :: j in order ==> j in s.db.jobs
    ensures var t := Reload(s, order, unlisted).0;
            Gone(t, jid) && SameButMemory(s, t)
    decreases |order|
  {
    if order != [] {
      if Wanted(s, order[0]) {
        if order[0] !in unlisted {
          ReloadKeepsGone(LoadCheckpoints(LoadJob(s, order[0]), order[0]), order[1..], unlisted, jid);
        }
      } else {
        ReloadKeepsGone(s, order[1..], unlisted, jid);
      }
    }
  }

  lemma {:induction false} DeleteCheckpointsFrame(s: State, ids: seq<Id>)
    ensures var t := DeleteCheckpoints(s, ids);
            t == s.(checkpoints := t.checkpoints, deletedCheckpoints := t.deletedCheckpoints, pending := t.pending)
    decreases |ids|
  {
    if ids != [] { DeleteCheckpointsFrame(DeleteCheckpoint(s, ids[0]), ids[1..]); }
  }

  lemma {:induction false} AddCheckpointsFrame(s: State, jid: Id, added: seq<(Id, Checkpoint)>)
    ensures var t := AddCheckpoints(s, jid, added);
            t == s.(checkpoints := t.checkpoints, pending := t.pending)
    decreases |added|
  {
    if jid in s.jobs && added != [] {
      AddCheckpointsFrame(AddOne(s, jid, added[0].0, added[0].1), jid, added[1..]);
    }
  }

  lemma SyncKeepsGone(s: State, a: Action, env: Env, jid: Id)
    requires Gone(s, jid) && EnvOk(s, env)
    ensures Gone(Sync(s, a, env).0, jid)
  {
    if a.Initialize? && env.listed { ReloadKeepsGone(s, env.order, env.unlisted, jid); }
  }

  lemma StepKeepsGone(s: State, e: Event, jid: Id)
    requires Gone(s, jid) && Enabled(s, e)
    requires !(e.New? && e.jid == jid)
    ensures Gone(Step(s, e), jid)
  {
    match e
    case Delete(j, order) =>
      if j in s.jobs {
        DeleteCheckpointsFrame(Entombed(s, j), order);
      }
    case AddCheckpoint(j, added) => AddCheckpointsFrame(s, j, added);
    case UserSync(env) => SyncKeepsGone(s, Initialize, env, jid);
    case Work(env) => SyncKeepsGone(s.(pending := s.pending[1..]), s.pending[0], env, jid);
    case Drain(env) => SyncKeepsGone(s.(pending := s.pending[1..]), s.pending[0], env, jid);
    case _ =>
  }

  lemma DeletedIsGone(s: State, jid: Id, order: seq<Id>, orphans: set<Id>)
    requires Inv(s, orphans)
    ensures Gone(DeleteJob(s, jid, order), jid)
  {
    assert JobOk(s, jid);
    if jid in s.jobs {
      DeleteCheckpointsFrame(Entombed(s, jid), order);
    }
  }

  /**
   Once a job has been deleted, no sequence of reloads, retries, puts and API calls brings it or any
   checkpoint of it back into memory until it is created again.
   */
  lemma NoResurrection(db: Store, env: Env, states: seq<State>, events: seq<Event>, d: nat, k: nat, jid: Id)
    requires IsRun(states, events) && Boots(db, env, states[0])
    requires d < k < |states|
    requires events[d].Delete? && events[d].jid == jid
    requires forall i :: d < i < k ==> !(events[i].New? && events[i].jid == jid)
    ensures jid !in states[k].jobs
    ensures forall c :: c in states[k].checkpoints ==> states[k].checkpoints[c].jid != jid
  {
    BootEstablishesInv(db, env, states[0]);
    RunKeepsInv(states, events, Orphans(db), d);
    assert Follows(states, events, d);
    DeletedIsGone(states[d], jid, events[d].order, Orphans(db));
    var i := d + 1;
    while i < k
      invariant d < i <= k
      invariant Gone(states[i], jid)
    {
      assert Follows(states, events, i);
      StepKeepsGone(states[i], events[i], jid);
      i := i + 1;
    }
    RunKeepsInv(states, events, Orphans(db), k);
    forall c | c in states[k].checkpoints ensures states[k].checkpoints[c].jid != jid {
      assert CheckpointOk(states[k], Orphans(db), c);
    }
  }

  /******* What a reload may bring back *******/

  // A reload comes to this job: of the jobs listed before it and itself, none that is wanted stops it
  predicate ComesTo(s: State, order: seq<Id>, unlisted: set<Id>, jid: Id)
    requires forall j :: j in order ==> j in s.db.jobs
  {
    exists n :: 0 <= n < |order| && order[n] == jid && GoesOn(s, order, unlisted, n)
  }

  predicate GoesOn(s: State, order: seq<Id>, unlisted: set<Id>, n: nat)
    requires n < |order| && forall j :: j in order ==> j in s.db.jobs
  {
    forall k :: 0 <= k <= n && Wanted(s, order[k]) ==> order[k] !in unlisted
  }

  // The same after the first job, which does not stop the reload and is not the one
  lemma ComesToRest(s: State, u: State, order: seq<Id>, unlisted: set<Id>, jid: Id)
    requires order != [] && (forall j :: j in order ==> j in s.db.jobs) && u.db == s.db
    requires order[0] != jid && (Wanted(s, order[0]) ==> order[0] !in unlisted)
    requires forall k :: 1 <= k < |order| ==> (Wanted(u, order[k]) <==> Wanted(s, order[k]))
    ensures ComesTo(s, order, unlisted, jid) <==> ComesTo(u, order[1..], unlisted, jid)
  {
    var rest := order[1..];
    forall n | 1 <= n < |order| ensures GoesOn(s, order, unlisted, n) <==> GoesOn(u, rest, unlisted, n - 1) {
      assert forall k :: 0 <= k < |rest| ==> rest[k] == order[k + 1];
      if GoesOn(s, order, unlisted, n) {
        forall k | 0 <= k <= n - 1 && Wanted(u, rest[k]) ensures rest[k] !in unlisted { assert Wanted(s, order[k + 1]); }
      }
      if GoesOn(u, rest, unlisted, n - 1) {
        forall k | 0 <= k <= n && Wanted(s, order[k]) ensures order[k] !in unlisted {
          if k > 0 { assert Wanted(u, rest[k - 1]); }
        }
      }
    }
    if ComesTo(s, order, unlisted, jid) {
      var n :| 0 <= n < |order| && order[n] == jid && GoesOn(s, order, unlisted, n);
      assert rest[n - 1] == jid && GoesOn(u, rest, unlisted, n - 1);
    }
    if ComesTo(u, rest, unlisted, jid) {
      var n :| 0 <= n < |rest| && rest[n] == jid && GoesOn(u, rest, unlisted, n);
      assert order[n + 1] == jid && GoesOn(s, order, unlisted, n + 1);
    }
  }

  // A reload loads a checkpoint exactly if its job is wanted and the reload comes to it
  lemma {:induction false} ReloadBringsBack(s: State, order: seq<Id>, unlisted: set<Id>, c: Id)
    requires forall j :: j in order ==> j in s.db.jobs
    requires forall i, k :: 0 <= i < k < |order| ==> order[i] != order[k]
    requires c in s.db.checkpoints && c !in s.checkpoints && s.db.checkpoints[c].jid in s.db.jobs
    ensures var owner := s.db.checkpoints[c].jid;
            c in Reload(s, order, unlisted).0.checkpoints <==> Wanted(s, owner) && ComesTo(s, order, unlisted, owner)
    decreases |order|
  {
    if order != [] {
      var j, rest, owner := order[0], order[1..], s.db.checkpoints[c].jid;
      if Wanted(s, j) && j in unlisted {
        forall n | 0 <= n < |order| ensures !GoesOn(s, order, unlisted, n) { assert Wanted(s, order[0]); }
      } else if Wanted(s, j) && j == owner {
        ReloadGrows(LoadCheckpoints(LoadJob(s, j), j), rest, unlisted);
        assert order[0] == owner && GoesOn(s, order, unlisted, 0);
      } else if Wanted(s, j) {
        var u := LoadCheckpoints(LoadJob(s, j), j);
        ReloadBringsBack(u, rest, unlisted, c);
        ComesToRest(s, u, order, unlisted, owner);
      } else {
        ReloadBringsBack(s, rest, unlisted, c);
        if j != owner { ComesToRest(s, s, order, unlisted, owner); }
      }
    }
  }

  lemma {:induction false} ReloadGrows(s: State, order: seq<Id>, unlisted: set<Id>)
    requires forall j :: j in order ==> j in s.db.jobs
    ensures s.checkpoints.Keys <= Reload(s, order, unlisted).0.checkpoints.Keys
    decreases |order|
  {
    if order != [] {
      if Wanted(s, order[0]) {
        if order[0] !in unlisted {
          ReloadGrows(LoadCheckpoints(LoadJob(s, order[0]), order[0]), order[1..], unlisted);
        }
      } else {
        ReloadGrows(s, order[1..], unlisted);
      }
    }
  }

  /**
   Unlike a job, a deleted checkpoint can come back: a reload that runs before the deletion reaches the
   DB brings it back exactly when the row of its job says remote, that job is not tombstoned, and no failing
   listing of checkpoints stops the reload before it is done with that job.
   */
  lemma CheckpointComesBackIff(s: State, id: Id, order: seq<Id>, unlisted: set<Id>, orphans: set<Id>)
    requires Inv(s, orphans) && id in s.checkpoints && id in s.db.checkpoints
    requires s.db.checkpoints[id].jid == s.checkpoints[id].jid
    requires Lists(order, s.db.jobs.Keys)
    ensures var jid := s.checkpoints[id].jid;
            id in Reload(DeleteCheckpoint(s, id), order, unlisted).0.checkpoints <==>
            jid in s.db.jobs && s.db.jobs[jid].remote && jid !in s.deletedJobs && ComesTo(s, order, unlisted, jid)
  {
    var jid, t := s.checkpoints[id].jid, DeleteCheckpoint(s, id);
    assert CheckpointOk(s, orphans, id);
    if jid in s.db.jobs {
      ReloadBringsBack(t, order, unlisted, id);
      SameComesTo(s, t, order, unlisted, jid);
    } else {
      NotBroughtBack(t, order, unlisted, id);
    }
  }

  lemma SameComesTo(s: State, t: State, order: seq<Id>, unlisted: set<Id>, jid: Id)
    requires (forall j :: j in order ==> j in s.db.jobs) && t.db == s.db && t.jobs == s.jobs && t.deletedJobs == s.deletedJobs
    ensures ComesTo(s, order, unlisted, jid) <==> ComesTo(t, order, unlisted, jid)
  {
    forall n | 0 <= n < |order| ensures GoesOn(s, order, unlisted, n) <==> GoesOn(t, order, unlisted, n) {
      forall k | 0 <= k < |order| ensures Wanted(s, order[k]) <==> Wanted(t, order[k]) { }
    }
  }

  // A checkpoint whose job has no row is not loaded
  lemma {:induction false} NotBroughtBack(s: State, order: seq<Id>, unlisted: set<Id>, c: Id)
    requires forall j :: j in order ==> j in s.db.jobs
    requires c !in s.checkpoints && (c in s.db.checkpoints ==> s.db.checkpoints[c].jid !in s.db.jobs)
    ensures c !in Reload(s, order, unlisted).0.checkpoints
    decreases |order|
  {
    if order != [] {
      if Wanted(s, order[0]) {
        if order[0] !in unlisted {
          NotBroughtBack(LoadCheckpoints(LoadJob(s, order[0]), order[0]), order[1..], unlisted, c);
        }
      } else {
        NotBroughtBack(s, order[1..], unlisted, c);
      }
    }
  }

  // A boot from a DB with a job stored as remote: a checkpoint that is deleted and not yet gone from the DB is
  // loaded again
  lemma CheckpointComesBack() returns (db: Store, env: Env, s: State)
    ensures Boots(db, env, s) && "c" in s.checkpoints && "j" in s.db.jobs
    ensures "c" !in DeleteCheckpoint(s, "c").checkpoints && "c" in Reload(DeleteCheckpoint(s, "c"), ["j"], {}).0.checkpoints
  {
    var job, c := Job(1, true, false, 0), Checkpoint.Checkpoint("j", "p", 0);
    db := Store(map["j" := job], map["c" := c], false);
    env := Env(Succeeds, true, ["j"], {});
    s := Empty(db).(jobs := map["j" := job], checkpoints := map["c" := c]);
    assert ["j"][0] == "j" && ["j"][1..] == [];
    assert CheckpointsOf(db, "j") == db.checkpoints && Empty(db).checkpoints + db.checkpoints == db.checkpoints;
    assert LoadCheckpoints(LoadJob(Empty(db), "j"), "j") == s && Reload(s, [], {}) == (s, true);
    BootEstablishesInv(db, env, s);
    assert GoesOn(s, ["j"], {}, 0);
    CheckpointComesBackIff(s, "c", ["j"], {}, Orphans(db));
  }

  // The reload's turn at a job, with a Delete of it between the check for a tombstone and the rest
  function ReloadAroundDelete(s: State, jid: Id, order: seq<Id>): State
    requires jid in s.db.jobs
  {
    var t := DeleteJob(s, jid, order);
    if jid in s.deletedJobs then t
    else if jid in t.db.jobs && (jid !in t.jobs || t.db.jobs[jid].remote) then LoadCheckpoints(LoadJob(t, jid), jid)
    else t
  }

  /**
   The step granularity matters. If Delete runs inside the reload loop, after the tombstone check for
   this job and before its existence check, the job is stored again with all its stored checkpoints: its
   tombstone does not help.
   */
  lemma DeleteInsideReloadResurrects(s: State, jid: Id, order: seq<Id>)
    requires jid in s.db.jobs && jid in s.jobs
    requires Enabled(s, Delete(jid, order))
    ensures var u := ReloadAroundDelete(s, jid, order);
            && (jid in u.jobs <==> jid !in s.deletedJobs)
            && (jid !in s.deletedJobs ==>
                jid in u.deletedJobs && forall c :: c in s.db.checkpoints && s.db.checkpoints[c].jid == jid ==> c in u.checkpoints)
  {
    DeleteCheckpointsFrame(Entombed(s, jid), order);
  }
}
