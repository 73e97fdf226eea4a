/**
 Draining the queue of pending puts: the order and the failures do not matter, and the shutdown drain
 tries each action once.
 */
module LazyJobsDrain {
  import opened LazyJobs
  import opened LazyJobsAgreement

  /******* The order of the drain does not matter *******/

  predicate Attached(s: State) {
    forall c :: c in s.checkpoints ==> s.checkpoints[c].jid in s.jobs
  }

  predicate PutsOnly(q: seq<Action>) {
    forall a :: a in q ==> a.PutJob? || a.PutCheckpoint?
  }

  function JobIds(q: seq<Action>): set<Id> {
    set a | a in q && a.PutJob? :: a.id
  }

  function CheckpointIds(q: seq<Action>): set<Id> {
    set a | a in q && a.PutCheckpoint? :: a.id
  }

  datatype Option<T> = None | Some(value: T)

  function Lookup<T>(m: map<Id, T>, k: Id): Option<T> {
    if k in m then Some(m[k]) else None
  }

  // Whether a put for this job, among those in J, will delete its row
  predicate Doomed(s: State, J: set<Id>, j: Id) {
    j in J && j !in s.jobs && j in s.deletedJobs
  }

  // Where every complete drain of puts for exactly the jobs in J and the checkpoints in C must end,
  // one row or tombstone at a time and without any order
  function JobRow(s: State, J: set<Id>, j: Id): Option<Job> {
    if j in J && j in s.jobs then Some(s.jobs[j])
    else if Doomed(s, J, j) then None
    else Lookup(s.db.jobs, j)
  }

  function JobTombstone(s: State, J: set<Id>, j: Id): Option<Job> {
    if Doomed(s, J, j) then None else Lookup(s.deletedJobs, j)
  }

  function CheckpointRow(s: State, J: set<Id>, C: set<Id>, c: Id): Option<Checkpoint> {
    if c in C && c in s.checkpoints then Some(s.checkpoints[c])
    else if c in C && c in s.deletedCheckpoints then None
    else if c in s.db.checkpoints && s.db.cascade && Doomed(s, J, s.db.checkpoints[c].jid) then None
    else Lookup(s.db.checkpoints, c)
  }

  function CheckpointTombstone(s: State, C: set<Id>, c: Id): Option<Checkpoint> {
    if c in C && c !in s.checkpoints then None else Lookup(s.deletedCheckpoints, c)
  }

  // s and t are headed for the same end, as far as job j and checkpoint c go
  predicate SameEnd(s: State, J: set<Id>, C: set<Id>, t: State, J': set<Id>, C': set<Id>, j: Id, c: Id) {
    && JobRow(s, J, j) == JobRow(t, J', j)
    && JobTombstone(s, J, j) == JobTombstone(t, J', j)
    && CheckpointRow(s, J, C, c) == CheckpointRow(t, J', C', c)
    && CheckpointTombstone(s, C, c) == CheckpointTombstone(t, C', c)
  }

  // What no put changes
  predicate SameButStore(s: State, t: State) {
    && t.jobs == s.jobs && t.checkpoints == s.checkpoints && t.db.cascade == s.db.cascade
    && t.phase == s.phase && t.attempted == s.attempted && t.failed == s.failed
  }

  // Drains with the given replies; a failed action goes to the back
  function DrainAll(s: State, replies: seq<Reply>): State
    requires PutsOnly(s.pending)
    decreases |replies|
  {
    if replies == [] || s.pending == [] then s
    else DrainAll(PutStep(s, replies[0]), replies[1..])
  }

  // WorkOne on a put: the parts of the environment that only a reload uses do not matter
  function PutStep(s: State, reply: Reply): (t: State)
    requires s.pending != [] && PutsOnly(s.pending)
    ensures PutsOnly(t.pending)
  {
    var a := s.pending[0];
    var s' := s.(pending := s.pending[1..]);
    var t := if a.PutJob? then SyncPutJob(s', a.id, reply) else SyncPutCheckpoint(s', a.id, reply);
    if reply.Succeeds? || !Touches(s', a) then t else t.(pending := t.pending + [a])
  }

  lemma PutStepIsWork(s: State, env: Env)
    requires s.pending != [] && PutsOnly(s.pending) && EnvOk(s, env)
    ensures PutStep(s, env.reply) == WorkOne(s, env)
  {
    assert s.pending[0] in s.pending;
  }

  lemma IdsOfQueue(q: seq<Action>, p: seq<Action>)
    requires forall a: Action :: a in q <==> a in p
    ensures JobIds(q) == JobIds(p) && CheckpointIds(q) == CheckpointIds(p)
  {
  }

  // A put, whether it goes through or is requeued, does not change where the drain is headed
  lemma PutJobSettles(s: State, jid: Id, reply: Reply, J: set<Id>, J': set<Id>, C: set<Id>, j: Id, c: Id)
    requires Attached(s) && J == J' + {jid}
    requires jid in J' || reply.Succeeds? || !Touches(s, PutJob(jid))
    ensures SameEnd(s, J, C, SyncPutJob(s, jid, reply), J', C, j, c)
  {
  }

  lemma PutCheckpointSettles(s: State, id: Id, reply: Reply, J: set<Id>, C: set<Id>, C': set<Id>, j: Id, c: Id)
    requires Attached(s) && C == C' + {id}
    requires id in C' || reply.Succeeds? || !Touches(s, PutCheckpoint(id))
    ensures SameEnd(s, J, C, SyncPutCheckpoint(s, id, reply), J, C', j, c)
  {
  }

  lemma PutStepParts(s: State, reply: Reply)
    requires s.pending != [] && PutsOnly(s.pending)
    ensures var a, rest, t := s.pending[0], s.pending[1..], PutStep(s, reply);
            && SameButStore(s, t)
            && (t.pending == rest || t.pending == rest + [a])
            && (t.pending == rest ==> reply.Succeeds? || !Touches(s.(pending := rest), a))
            && (a.PutJob? ==> SyncPutJob(s.(pending := rest), a.id, reply) == t.(pending := rest))
            && (a.PutCheckpoint? ==> SyncPutCheckpoint(s.(pending := rest), a.id, reply) == t.(pending := rest))
  {
    var a, rest := s.pending[0], s.pending[1..];
    assert a in s.pending;
    if a.PutJob? {
      PutJobFrame(s.(pending := rest), a.id, reply);
    } else {
      PutCheckpointFrame(s.(pending := rest), a.id, reply);
    }
  }

  lemma PutJobFrame(s: State, jid: Id, reply: Reply)
    ensures SameButStore(s, SyncPutJob(s, jid, reply)) && SyncPutJob(s, jid, reply).pending == s.pending
  {
  }

  lemma PutCheckpointFrame(s: State, id: Id, reply: Reply)
    ensures SameButStore(s, SyncPutCheckpoint(s, id, reply)) && SyncPutCheckpoint(s, id, reply).pending == s.pending
  {
  }

  lemma PutStepSettles(s: State, reply: Reply, j: Id, c: Id)
    requires s.pending != [] && PutsOnly(s.pending) && Attached(s)
    ensures var t := PutStep(s, reply);
            SameEnd(s, JobIds(s.pending), CheckpointIds(s.pending), t, JobIds(t.pending), CheckpointIds(t.pending), j, c)
  {
    var a, rest, t := s.pending[0], s.pending[1..], PutStep(s, reply);
    assert a in s.pending;
    PutStepParts(s, reply);
    PopIds(s.pending, t.pending);
    SettlesFrom(s, s.(pending := rest), a, t, t.(pending := rest), reply, j, c);
  }

  lemma SettlesFrom(s: State, s': State, a: Action, t: State, t': State, reply: Reply, j: Id, c: Id)
    requires s' == s.(pending := s'.pending) && t' == t.(pending := t'.pending) && Attached(s)
    requires a.PutJob? || a.PutCheckpoint?
    requires a.PutJob? ==> t' == SyncPutJob(s', a.id, reply)
    requires a.PutJob? ==> JobIds(s.pending) == JobIds(t.pending) + {a.id} && CheckpointIds(s.pending) == CheckpointIds(t.pending)
    requires a.PutCheckpoint? ==> t' == SyncPutCheckpoint(s', a.id, reply)
    requires a.PutCheckpoint? ==> CheckpointIds(s.pending) == CheckpointIds(t.pending) + {a.id} && JobIds(s.pending) == JobIds(t.pending)
    requires a in t.pending || reply.Succeeds? || !Touches(s', a)
    ensures SameEnd(s, JobIds(s.pending), CheckpointIds(s.pending), t, JobIds(t.pending), CheckpointIds(t.pending), j, c)
  {
    var J, C, J', C' := JobIds(s.pending), CheckpointIds(s.pending), JobIds(t.pending), CheckpointIds(t.pending);
    if a.PutJob? {
      PutJobSettles(s', a.id, reply, J, J', C, j, c);
    } else {
      PutCheckpointSettles(s', a.id, reply, J, C, C', j, c);
    }
    QueueIrrelevant(s, s', J, C, t, t', J', C', j, c);
  }

  lemma QueueIrrelevant(s: State, s': State, J: set<Id>, C: set<Id>, t: State, t': State, J': set<Id>, C': set<Id>, j: Id, c: Id)
    requires s' == s.(pending := s'.pending) && t' == t.(pending := t'.pending)
    requires SameEnd(s', J, C, t', J', C', j, c)
    ensures SameEnd(s, J, C, t, J', C', j, c)
  {
  }

  lemma PopIds(q: seq<Action>, p: seq<Action>)
    requires q != [] && (p == q[1..] || p == q[1..] + [q[0]])
    ensures q[0].PutJob? ==> JobIds(q) == JobIds(p) + {q[0].id} && CheckpointIds(q) == CheckpointIds(p)
    ensures q[0].PutCheckpoint? ==> CheckpointIds(q) == CheckpointIds(p) + {q[0].id} && JobIds(q) == JobIds(p)
    ensures p != q[1..] ==> q[0] in p
  {
    assert q == [q[0]] + q[1..];
    assert forall a: Action :: a in q <==> a == q[0] || a in p;
  }

  lemma {:induction false} DrainSettles(s: State, replies: seq<Reply>, j: Id, c: Id)
    requires PutsOnly(s.pending) && Attached(s)
    requires DrainAll(s, replies).pending == []
    ensures var t := DrainAll(s, replies);
            && SameButStore(s, t)
            && SameEnd(s, JobIds(s.pending), CheckpointIds(s.pending), t, {}, {}, j, c)
    decreases |replies|
  {
    if replies == [] || s.pending == [] {
      assert JobIds(s.pending) == {} && CheckpointIds(s.pending) == {};
    } else {
      PutStepParts(s, replies[0]);
      PutStepSettles(s, replies[0], j, c);
      DrainSettles(PutStep(s, replies[0]), replies[1..], j, c);
    }
  }

  lemma SameLookups<T>(m: map<Id, T>, n: map<Id, T>)
    requires forall k :: Lookup(m, k) == Lookup(n, k)
    ensures m == n
  {
    forall k ensures k in m <==> k in n
             ensures k in m ==> m[k] == n[k] { assert Lookup(m, k) == Lookup(n, k); }
  }

  lemma SameRows(s: State, q: seq<Action>, replies: seq<Reply>, replies': seq<Reply>, k: Id)
    requires PutsOnly(s.pending) && PutsOnly(q) && Attached(s)
    requires forall a :: a in q <==> a in s.pending
    requires DrainAll(s, replies).pending == [] && DrainAll(s.(pending := q), replies').pending == []
    ensures var t, u := DrainAll(s, replies), DrainAll(s.(pending := q), replies');
            SameEnd(t, {}, {}, u, {}, {}, k, k)
  {
    IdsOfQueue(q, s.pending);
    DrainSettles(s, replies, k, k);
    DrainSettles(s.(pending := q), replies', k, k);
    QueueIrrelevant(s, s.(pending := q), JobIds(q), CheckpointIds(q), s, s, JobIds(q), CheckpointIds(q), k, k);
  }

  lemma SameStates(t: State, u: State)
    requires forall k :: SameEnd(t, {}, {}, u, {}, {}, k, k)
    requires SameButStore(t, u) && t.pending == u.pending
    ensures t == u
  {
    forall k ensures Lookup(t.db.jobs, k) == Lookup(u.db.jobs, k)
             ensures Lookup(t.deletedJobs, k) == Lookup(u.deletedJobs, k)
             ensures Lookup(t.db.checkpoints, k) == Lookup(u.db.checkpoints, k)
             ensures Lookup(t.deletedCheckpoints, k) == Lookup(u.deletedCheckpoints, k)
    {
      assert SameEnd(t, {}, {}, u, {}, {}, k, k);
    }
    SameLookups(t.db.jobs, u.db.jobs);
    SameLookups(t.deletedJobs, u.deletedJobs);
    SameLookups(t.db.checkpoints, u.db.checkpoints);
    SameLookups(t.deletedCheckpoints, u.deletedCheckpoints);
  }

  /**
   Two queues with the same puts, in any order and with any repetition, drained with any pattern of
   failures and requeues until empty, leave the same DB and the same tombstones.
   */
  lemma DrainOrderIrrelevant(s: State, q: seq<Action>, replies: seq<Reply>, replies': seq<Reply>)
    requires PutsOnly(s.pending) && PutsOnly(q) && Attached(s)
    requires forall a :: a in q <==> a in s.pending
    requires DrainAll(s, replies).pending == [] && DrainAll(s.(pending := q), replies').pending == []
    ensures DrainAll(s, replies) == DrainAll(s.(pending := q), replies')
  {
    var t, u := DrainAll(s, replies), DrainAll(s.(pending := q), replies');
    DrainSettles(s, replies, "", "");
    DrainSettles(s.(pending := q), replies', "", "");
    forall k ensures SameEnd(t, {}, {}, u, {}, {}, k, k) {
      SameRows(s, q, replies, replies', k);
    }
    SameStates(t, u);
  }

  // The same row, or none in either
  predicate SameIn<T(==)>(m: map<Id, T>, n: map<Id, T>, k: Id) {
    (k in m <==> k in n) && (k in m ==> m[k] == n[k])
  }

  predicate Holds<T(==)>(m: map<Id, T>, k: Id, x: T) {
    k in m && m[k] == x
  }

  /**
   What every complete drain of puts leaves: the row of a job with a put is the job in memory, or gone with its
   tombstone if memory has only that; so for checkpoints, whose rows also go with the row of their job where
   the DB cascades. All other rows and tombstones are as before.
   */
  lemma DrainLeaves(s: State, replies: seq<Reply>, j: Id, c: Id)
    requires PutsOnly(s.pending) && Attached(s) && DrainAll(s, replies).pending == []
    ensures var t := DrainAll(s, replies);
            var erased := PutJob(j) in s.pending && j !in s.jobs && j in s.deletedJobs;
            && (if PutJob(j) in s.pending && j in s.jobs then Holds(t.db.jobs, j, s.jobs[j])
                else if erased then j !in t.db.jobs else SameIn(t.db.jobs, s.db.jobs, j))
            && (if erased then j !in t.deletedJobs else SameIn(t.deletedJobs, s.deletedJobs, j))
    ensures var t := DrainAll(s, replies);
            var put, owner := PutCheckpoint(c) in s.pending, if c in s.db.checkpoints then s.db.checkpoints[c].jid else "";
            && (if put && c in s.checkpoints then Holds(t.db.checkpoints, c, s.checkpoints[c])
                else if put && c in s.deletedCheckpoints then c !in t.db.checkpoints
                else if c in s.db.checkpoints && s.db.cascade && PutJob(owner) in s.pending && owner !in s.jobs && owner in s.deletedJobs
                then c !in t.db.checkpoints
                else SameIn(t.db.checkpoints, s.db.checkpoints, c))
            && (if put && c !in s.checkpoints then c !in t.deletedCheckpoints
                else SameIn(t.deletedCheckpoints, s.deletedCheckpoints, c))
  {
    DrainSettles(s, replies, j, c);
    assert forall k :: k in JobIds(s.pending) <==> PutJob(k) in s.pending;
    assert forall k :: k in CheckpointIds(s.pending) <==> PutCheckpoint(k) in s.pending;
  }

  function Successes(replies: seq<Reply>): nat {
    if replies == [] then 0 else (if replies[0].Succeeds? then 1 else 0) + Successes(replies[1..])
  }

  // However many calls fail in between, as many successes as there are puts empty the queue
  lemma {:induction false} DrainFinishes(s: State, replies: seq<Reply>)
    requires PutsOnly(s.pending) && Successes(replies) >= |s.pending|
    ensures DrainAll(s, replies).pending == []
    decreases |replies|
  {
    if replies != [] && s.pending != [] {
      PutStepParts(s, replies[0]);
      DrainFinishes(PutStep(s, replies[0]), replies[1..]);
    }
  }

  /******* The shutdown drain *******/

  // The queue still holds, ahead of the marker, exactly what was queued before it and not yet tried
  ghost predicate DrainInv(s: State, queued: seq<Action>) {
    match s.phase
    case Running => false
    case Draining =>
      |s.attempted| <= |queued| && queued + [Shutdown] <= s.attempted + s.pending
    case Stopped => s.attempted == queued
  }

  lemma DrainKeepsDrain(s: State, env: Env, queued: seq<Action>)
    requires Enabled(s, Drain(env)) && DrainInv(s, queued) && Shutdown !in queued
    ensures DrainInv(DrainOne(s, env), queued)
  {
    var t := DrainOne(s, env);
    var a, rest := s.pending[0], s.pending[1..];
    assert s.attempted + s.pending == s.attempted + [a] + rest;
    assert (s.attempted + s.pending)[|s.attempted|] == a;
    if |s.attempted| == |queued| {
      assert a == (queued + [Shutdown])[|queued|];
      assert s.attempted == (s.attempted + s.pending)[..|queued|] == (queued + [Shutdown])[..|queued|] == queued;
    } else {
      assert a == queued[|s.attempted|];
      if a.Initialize? && env.listed { ReloadFrame(s.(pending := rest), env.order, env.unlisted); }
      assert t.attempted == s.attempted + [a] && t.pending == rest;
    }
  }

  lemma StepKeepsDrain(s: State, e: Event, queued: seq<Action>)
    requires Enabled(s, e) && DrainInv(s, queued) && Shutdown !in queued
    ensures DrainInv(Step(s, e), queued)
  {
    var t := Step(s, e);
    match e
    case Delete(jid, order) =>
      if jid in s.jobs {
        DeleteCheckpointsGrow(Entombed(s, jid), order);
        DeleteCheckpointsFrame(Entombed(s, jid), order);
      }
    case AddCheckpoint(jid, added) =>
      AddCheckpointsGrow(s, jid, added);
      AddCheckpointsFrame(s, jid, added);
    case UserSync(env) => if env.listed { ReloadFrame(s, env.order, env.unlisted); }
    case Drain(env) => DrainKeepsDrain(s, env, queued);
    case _ =>
      assert s.pending <= t.pending;
  }

  lemma {:induction false} ReloadFrame(s: State, order: seq<Id>, unlisted: set<Id>)
    requires forall j :: j in order ==> j in s.db.jobs
    ensures SameButMemory(s, Reload(s, order, unlisted).0)
    decreases |order|
  {
    if order != [] {
      if Wanted(s, order[0]) {
        if order[0] !in unlisted {
          ReloadFrame(LoadCheckpoints(LoadJob(s, order[0]), order[0]), order[1..], unlisted);
        }
      } else {
        ReloadFrame(s, order[1..], unlisted);
      }
    }
  }

  lemma {:induction false} DeleteCheckpointsGrow(s: State, ids: seq<Id>)
    ensures s.pending <= DeleteCheckpoints(s, ids).pending
    decreases |ids|
  {
    if ids != [] { DeleteCheckpointsGrow(DeleteCheckpoint(s, ids[0]), ids[1..]); }
  }

  lemma {:induction false} AddCheckpointsGrow(s: State, jid: Id, added: seq<(Id, Checkpoint)>)
    ensures s.pending <= AddCheckpoints(s, jid, added).pending
    decreases |added|
  {
    if jid in s.jobs && added != [] {
      AddCheckpointsGrow(AddOne(s, jid, added[0].0, added[0].1), jid, added[1..]);
    }
  }

  // Before shutdown nothing has been tried by the last drain, and its marker is not queued
  predicate Fresh(s: State) {
    s.phase.Running? ==> s.attempted == [] && Shutdown !in s.pending
  }

  lemma {:induction false} DeleteCheckpointsQueue(s: State, ids: seq<Id>)
    ensures forall a :: a in DeleteCheckpoints(s, ids).pending ==> a in s.pending || a.PutCheckpoint?
    decreases |ids|
  {
    if ids != [] { DeleteCheckpointsQueue(DeleteCheckpoint(s, ids[0]), ids[1..]); }
  }

  lemma {:induction false} AddCheckpointsQueue(s: State, jid: Id, added: seq<(Id, Checkpoint)>)
    ensures forall a :: a in AddCheckpoints(s, jid, added).pending ==> a in s.pending || a.PutCheckpoint?
    decreases |added|
  {
    if jid in s.jobs && added != [] {
      AddCheckpointsQueue(AddOne(s, jid, added[0].0, added[0].1), jid, added[1..]);
    }
  }

  lemma WorkKeepsFresh(s: State, env: Env)
    requires Enabled(s, Work(env)) && Fresh(s)
    ensures Fresh(WorkOne(s, env))
  {
    var a, rest := s.pending[0], s.pending[1..];
    assert a in s.pending && forall b :: b in rest ==> b in s.pending;
    if a.Initialize? && env.listed { ReloadFrame(s.(pending := rest), env.order, env.unlisted); }
  }

  lemma StepKeepsFresh(s: State, e: Event)
    requires Enabled(s, e) && Fresh(s)
    ensures Fresh(Step(s, e))
  {
    match e
    case Delete(jid, order) =>
      if jid in s.jobs {
        DeleteCheckpointsQueue(Entombed(s, jid), order);
        DeleteCheckpointsFrame(Entombed(s, jid), order);
      }
    case AddCheckpoint(jid, added) =>
      AddCheckpointsQueue(s, jid, added);
      AddCheckpointsFrame(s, jid, added);
    case UserSync(env) => if env.listed { ReloadFrame(s, env.order, env.unlisted); }
    case Work(env) => WorkKeepsFresh(s, env);
    case Drain(env) =>
      if s.pending[0].Initialize? && env.listed { ReloadFrame(s.(pending := s.pending[1..]), env.order, env.unlisted); }
    case _ =>
  }

  lemma {:induction false} RunKeepsFresh(db: Store, env: Env, states: seq<State>, events: seq<Event>, k: nat)
    requires IsRun(states, events) && Boots(db, env, states[0]) && k < |states|
    ensures Fresh(states[k])
  {
    if k == 0 {
      ReloadFrame(Empty(db), env.order, env.unlisted);
    } else {
      RunKeepsFresh(db, env, states, events, k - 1);
      assert Follows(states, events, k - 1);
      StepKeepsFresh(states[k - 1], events[k - 1]);
    }
  }

  /**
   In every run, from the moment shutdown begins and whatever API calls still arrive: when the drain stops
   it has tried every action queued before its marker exactly once, in order, and nothing else.
   */
  lemma ShutdownTriesEachOnce(db: Store, env: Env, states: seq<State>, events: seq<Event>, b: nat, k: nat)
    requires IsRun(states, events) && Boots(db, env, states[0]) && b < k < |states|
    requires events[b].BeginShutdown? && states[k].phase.Stopped?
    ensures states[k].attempted == states[b].pending
  {
    var queued := states[b].pending;
    RunKeepsFresh(db, env, states, events, b);
    assert Follows(states, events, b);
    assert DrainInv(states[b + 1], queued);
    var i := b + 1;
    while i < k
      invariant b < i <= k
      invariant DrainInv(states[i], queued)
    {
      assert Follows(states, events, i);
      StepKeepsDrain(states[i], events[i], queued);
      i := i + 1;
    }
  }
}
