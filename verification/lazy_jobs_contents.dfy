/**
 What is in memory and in the DB, not just for which ids: what a reload loads, what a put stores, and where the
 content of every row and of every job in memory comes from.
 */
module LazyJobsContents {
  import opened LazyJobs
  import opened LazyJobsAgreement

  /******* A reload *******/

  // A row that a reload is to load: not tombstoned, and not in memory or stored as remote
  predicate Due(s: State, j: Id) {
    j in s.db.jobs && j !in s.deletedJobs && (j in s.jobs ==> s.db.jobs[j].remote)
  }

  // The listing comes to the n-th job: no due job before it has checkpoints that cannot be listed
  predicate Reached(s: State, order: seq<Id>, unlisted: set<Id>, n: nat) {
    n < |order| && forall k :: 0 <= k < n && Due(s, order[k]) ==> order[k] !in unlisted
  }

  ghost predicate JobLoaded(s: State, order: seq<Id>, unlisted: set<Id>, j: Id) {
    Due(s, j) && exists n: nat :: Reached(s, order, unlisted, n) && order[n] == j
  }

  // Its checkpoints are loaded too
  ghost predicate RowsLoaded(s: State, order: seq<Id>, unlisted: set<Id>, j: Id) {
    JobLoaded(s, order, unlisted, j) && j !in unlisted
  }

  predicate Distinct(order: seq<Id>) {
    forall i, k :: 0 <= i < k < |order| ==> order[i] != order[k]
  }

  // The job j before and after a reload
  ghost predicate JobAfter(s: State, t: State, order: seq<Id>, unlisted: set<Id>, j: Id) {
    if JobLoaded(s, order, unlisted, j) then j in t.jobs && t.jobs[j] == s.db.jobs[j]
    else (j in t.jobs <==> j in s.jobs) && (j in s.jobs ==> t.jobs[j] == s.jobs[j])
  }

  ghost predicate CheckpointAfter(s: State, t: State, order: seq<Id>, unlisted: set<Id>, c: Id) {
    if c in s.db.checkpoints && RowsLoaded(s, order, unlisted, s.db.checkpoints[c].jid)
    then c in t.checkpoints && t.checkpoints[c] == s.db.checkpoints[c]
    else (c in t.checkpoints <==> c in s.checkpoints) && (c in s.checkpoints ==> t.checkpoints[c] == s.checkpoints[c])
  }

  // Going on after the first job, which did not stop the reload
  lemma LoadedRest(s: State, u: State, order: seq<Id>, unlisted: set<Id>, j: Id)
    requires order != [] && j != order[0] && (Due(s, order[0]) ==> order[0] !in unlisted)
    requires u.db == s.db && forall k :: k != order[0] ==> (Due(u, k) <==> Due(s, k))
    requires Distinct(order)
    ensures JobLoaded(s, order, unlisted, j) <==> JobLoaded(u, order[1..], unlisted, j)
  {
    var rest := order[1..];
    if JobLoaded(s, order, unlisted, j) {
      var n: nat :| Reached(s, order, unlisted, n) && order[n] == j;
      assert forall k :: 0 <= k < |rest| ==> rest[k] == order[k + 1];
      assert Reached(u, rest, unlisted, n - 1) && rest[n - 1] == j;
    }
    if JobLoaded(u, rest, unlisted, j) {
      var n: nat :| Reached(u, rest, unlisted, n) && rest[n] == j;
      forall k | 0 <= k < n + 1 && Due(s, order[k]) ensures order[k] !in unlisted {
        if k > 0 { assert rest[k - 1] == order[k]; }
      }
      assert Reached(s, order, unlisted, n + 1) && order[n + 1] == j;
    }
  }

  // The first job itself, and no other job comes after it if it stops the reload
  lemma LoadedFirst(s: State, order: seq<Id>, unlisted: set<Id>, j: Id)
    requires order != [] && Distinct(order)
    ensures JobLoaded(s, order, unlisted, order[0]) <==> Due(s, order[0])
    ensures Due(s, order[0]) && order[0] in unlisted && j != order[0] ==> !JobLoaded(s, order, unlisted, j)
  {
    assert Reached(s, order, unlisted, 0);
  }

  lemma NotListed(s: State, order: seq<Id>, unlisted: set<Id>, j: Id)
    requires j !in order
    ensures !JobLoaded(s, order, unlisted, j)
  {
  }

  lemma {:induction false} ReloadJob(s: State, order: seq<Id>, unlisted: set<Id>, j: Id)
    requires Distinct(order) && forall k :: k in order ==> k in s.db.jobs
    ensures JobAfter(s, Reload(s, order, unlisted).0, order, unlisted, j)
    decreases |order|
  {
    if order == [] {
      NotListed(s, order, unlisted, j);
    } else {
      LoadedFirst(s, order, unlisted, j);
      var first, rest := order[0], order[1..];
      if Wanted(s, first) {
        if first !in unlisted {
          var u := LoadCheckpoints(LoadJob(s, first), first);
          ReloadJob(u, rest, unlisted, j);
          if j == first { NotListed(u, rest, unlisted, j); } else { LoadedRest(s, u, order, unlisted, j); }
        }
      } else {
        ReloadJob(s, rest, unlisted, j);
        if j == first { NotListed(s, rest, unlisted, j); } else { LoadedRest(s, s, order, unlisted, j); }
      }
    }
  }

  lemma {:induction false} ReloadCheckpoint(s: State, order: seq<Id>, unlisted: set<Id>, c: Id)
    requires Distinct(order) && forall k :: k in order ==> k in s.db.jobs
    ensures CheckpointAfter(s, Reload(s, order, unlisted).0, order, unlisted, c)
    decreases |order|
  {
    var j := if c in s.db.checkpoints then s.db.checkpoints[c].jid else "";
    if order == [] {
      NotListed(s, order, unlisted, j);
    } else {
      LoadedFirst(s, order, unlisted, j);
      var first, rest := order[0], order[1..];
      if Wanted(s, first) {
        if first !in unlisted {
          var u := LoadCheckpoints(LoadJob(s, first), first);
          ReloadCheckpoint(u, rest, unlisted, c);
          if j == first { NotListed(u, rest, unlisted, j); } else { LoadedRest(s, u, order, unlisted, j); }
        }
      } else {
        ReloadCheckpoint(s, rest, unlisted, c);
        if j == first { NotListed(s, rest, unlisted, j); } else { LoadedRest(s, s, order, unlisted, j); }
      }
    }
  }

  lemma {:induction false} ReloadSucceeds(s: State, order: seq<Id>, unlisted: set<Id>)
    requires Distinct(order) && forall k :: k in order ==> k in s.db.jobs
    ensures Reload(s, order, unlisted).1 <==> forall k :: k in order && Due(s, k) ==> k !in unlisted
    decreases |order|
  {
    if order != [] {
      var first, rest := order[0], order[1..];
      assert order == [first] + rest;
      if Wanted(s, first) {
        if first !in unlisted { ReloadSucceeds(LoadCheckpoints(LoadJob(s, first), first), rest, unlisted); }
      } else {
        ReloadSucceeds(s, rest, unlisted);
      }
    }
  }

  /**
   What a reload does, told from the rows and the memory before: a job that is due and that the listing comes
   to has exactly its row afterwards, its checkpoints have theirs if they can be listed, and everything else in
   memory is as it was. It fails exactly if the checkpoints of a due job cannot be listed.
   */
  lemma ReloadContents(s: State, order: seq<Id>, unlisted: set<Id>)
    requires Distinct(order) && forall k :: k in order ==> k in s.db.jobs
    ensures var (t, ok) := Reload(s, order, unlisted);
            && t == s.(jobs := t.jobs, checkpoints := t.checkpoints)
            && (forall j :: JobAfter(s, t, order, unlisted, j))
            && (forall c :: CheckpointAfter(s, t, order, unlisted, c))
            && (ok <==> forall k :: k in order && Due(s, k) ==> k !in unlisted)
  {
    forall j ensures JobAfter(s, Reload(s, order, unlisted).0, order, unlisted, j) { ReloadJob(s, order, unlisted, j); }
    forall c ensures CheckpointAfter(s, Reload(s, order, unlisted).0, order, unlisted, c) {
      ReloadCheckpoint(s, order, unlisted, c);
    }
    ReloadSucceeds(s, order, unlisted);
    ReloadOnlyMemory(s, order, unlisted);
  }

  lemma {:induction false} ReloadOnlyMemory(s: State, order: seq<Id>, unlisted: set<Id>)
    requires forall k :: k in order ==> k in s.db.jobs
    ensures var t := Reload(s, order, unlisted).0; t == s.(jobs := t.jobs, checkpoints := t.checkpoints)
    decreases |order|
  {
    if order != [] {
      if Wanted(s, order[0]) {
        if order[0] !in unlisted {
          ReloadOnlyMemory(LoadCheckpoints(LoadJob(s, order[0]), order[0]), order[1..], unlisted);
        }
      } else {
        ReloadOnlyMemory(s, order[1..], unlisted);
      }
    }
  }

  // The first load leaves memory with exactly the rows, and the checkpoints whose job has one
  lemma BootLoadsRows(db: Store, env: Env, s: State)
    requires Boots(db, env, s)
    ensures s.jobs == db.jobs && s.db == db && s.pending == [] && s.deletedJobs == map[] && s.deletedCheckpoints == map[]
    ensures s.checkpoints == map c | c in db.checkpoints && db.checkpoints[c].jid in db.jobs :: db.checkpoints[c]
  {
    var e := Empty(db);
    assert env.listed && (s, true) == Reload(e, env.order, env.unlisted);
    ReloadContents(e, env.order, env.unlisted);
    forall j ensures (j in s.jobs <==> j in db.jobs) && (j in db.jobs ==> s.jobs[j] == db.jobs[j]) {
      assert JobAfter(e, s, env.order, env.unlisted, j);
      if j in db.jobs { AllLoaded(e, env.order, env.unlisted, j); }
    }
    forall c ensures c in s.checkpoints <==> c in db.checkpoints && db.checkpoints[c].jid in db.jobs
             ensures c in s.checkpoints ==> s.checkpoints[c] == db.checkpoints[c] {
      assert CheckpointAfter(e, s, env.order, env.unlisted, c);
      if c in db.checkpoints && db.checkpoints[c].jid in db.jobs { AllLoaded(e, env.order, env.unlisted, db.checkpoints[c].jid); }
    }
  }

  // A reload that succeeds loads all that is due
  lemma AllLoaded(s: State, order: seq<Id>, unlisted: set<Id>, j: Id)
    requires Due(s, j) && j in order && forall k :: k in order && Due(s, k) ==> k !in unlisted
    ensures RowsLoaded(s, order, unlisted, j)
  {
    var n :| 0 <= n < |order| && order[n] == j;
    assert Reached(s, order, unlisted, n);
  }

  /******* A put *******/

  // What the DB is asked to hold under j, if the put reaches it: the job in memory, or nothing if it was deleted
  ghost predicate JobStored(s: State, t: State, j: Id, reply: Reply) {
    if reply.FailsBefore? || (j !in s.jobs && j !in s.deletedJobs) then t.db == s.db && t.deletedJobs == s.deletedJobs
    else if j in s.jobs then t.db == s.db.(jobs := s.db.jobs[j := s.jobs[j]]) && t.deletedJobs == s.deletedJobs
    else
      && t.db.jobs == s.db.jobs - {j} && t.db.cascade == s.db.cascade
      && (forall c :: c in t.db.checkpoints <==> c in s.db.checkpoints && !(s.db.cascade && s.db.checkpoints[c].jid == j))
      && (forall c :: c in t.db.checkpoints ==> t.db.checkpoints[c] == s.db.checkpoints[c])
      && t.deletedJobs == if reply.Succeeds? then s.deletedJobs - {j} else s.deletedJobs
  }

  predicate CheckpointStored(s: State, t: State, c: Id, reply: Reply) {
    if reply.FailsBefore? || (c !in s.checkpoints && c !in s.deletedCheckpoints)
    then t.db == s.db && t.deletedCheckpoints == s.deletedCheckpoints
    else if c in s.checkpoints
    then t.db == s.db.(checkpoints := s.db.checkpoints[c := s.checkpoints[c]]) && t.deletedCheckpoints == s.deletedCheckpoints
    else
      && t.db == s.db.(checkpoints := s.db.checkpoints - {c})
      && t.deletedCheckpoints == if reply.Succeeds? then s.deletedCheckpoints - {c} else s.deletedCheckpoints
  }

  // One turn of the worker on the put of a job: the row is the job in memory, or is gone if memory has a tombstone
  // for it. The tombstone goes with the row, and only if the DB says so
  lemma PutJobStores(s: State, env: Env)
    requires s.pending != [] && s.pending[0].PutJob? && EnvOk(s, env)
    ensures var t := WorkOne(s, env);
            && JobStored(s, t, s.pending[0].id, env.reply)
            && t.jobs == s.jobs && t.checkpoints == s.checkpoints && t.deletedCheckpoints == s.deletedCheckpoints
  {
  }

  lemma PutCheckpointStores(s: State, env: Env)
    requires s.pending != [] && s.pending[0].PutCheckpoint? && EnvOk(s, env)
    ensures var t := WorkOne(s, env);
            && CheckpointStored(s, t, s.pending[0].id, env.reply)
            && t.jobs == s.jobs && t.checkpoints == s.checkpoints && t.deletedJobs == s.deletedJobs
  {
  }

  /******* Deleting and adding *******/

  function Puts(ids: seq<Id>): seq<Action> {
    seq(|ids|, i requires 0 <= i < |ids| => PutCheckpoint(ids[i]))
  }

  // The checkpoint c of s has become a tombstone, or nothing happened to it
  ghost predicate Buried(s: State, t: State, buried: bool, c: Id) {
    && (c in t.checkpoints <==> c in s.checkpoints && !buried)
    && (c in t.checkpoints ==> t.checkpoints[c] == s.checkpoints[c])
    && (if buried then c in s.checkpoints && c in t.deletedCheckpoints && t.deletedCheckpoints[c] == s.checkpoints[c]
        else (c in t.deletedCheckpoints <==> c in s.deletedCheckpoints)
             && (c in s.deletedCheckpoints ==> t.deletedCheckpoints[c] == s.deletedCheckpoints[c]))
  }

  lemma {:induction false} BuriesEach(s: State, ids: seq<Id>, c: Id)
    requires Distinct(ids) && forall i :: 0 <= i < |ids| ==> ids[i] in s.checkpoints
    ensures Buried(s, DeleteCheckpoints(s, ids), c in ids, c)
    ensures DeleteCheckpoints(s, ids).pending == s.pending + Puts(ids)
    decreases |ids|
  {
    if ids != [] {
      var u := DeleteCheckpoint(s, ids[0]);
      assert ids == [ids[0]] + ids[1..] && ids[0] !in ids[1..];
      BuriesEach(u, ids[1..], c);
      assert s.pending + [PutCheckpoint(ids[0])] + Puts(ids[1..]) == s.pending + Puts(ids);
    }
  }

  // Deleting a job buries it and exactly its own checkpoints, and queues a put for each
  lemma DeleteBuries(s: State, jid: Id, order: seq<Id>)
    requires jid in s.jobs && Enabled(s, Delete(jid, order))
    ensures var t := DeleteJob(s, jid, order);
            && t.jobs == s.jobs - {jid} && t.deletedJobs == s.deletedJobs[jid := s.jobs[jid]] && t.db == s.db
            && (forall c :: Buried(s, t, c in s.checkpoints && s.checkpoints[c].jid == jid, c))
            && t.pending == s.pending + [PutJob(jid)] + Puts(order)
  {
    var u := Entombed(s, jid);
    DeleteCheckpointsFrame(u, order);
    forall i | 0 <= i < |order| ensures order[i] in u.checkpoints { assert order[i] in order; }
    forall c ensures Buried(s, DeleteJob(s, jid, order), c in s.checkpoints && s.checkpoints[c].jid == jid, c) {
      BuriesEach(u, order, c);
    }
    BuriesEach(u, order, "");
  }

  // An id that is new in added has its checkpoint, for the job, and a put is queued for each
  lemma {:induction false} AddsEach(s: State, jid: Id, added: seq<(Id, Checkpoint)>, c: Id)
    requires jid in s.jobs
    requires forall i, k :: 0 <= i < k < |added| ==> added[i].0 != added[k].0
    ensures var t := AddCheckpoints(s, jid, added);
            && t.pending == s.pending + seq(|added|, i requires 0 <= i < |added| => PutCheckpoint(added[i].0))
            && (forall i :: 0 <= i < |added| && added[i].0 == c ==> c in t.checkpoints && t.checkpoints[c] == added[i].1.(jid := jid))
            && ((forall i :: 0 <= i < |added| ==> added[i].0 != c) ==>
                (c in t.checkpoints <==> c in s.checkpoints) && (c in s.checkpoints ==> t.checkpoints[c] == s.checkpoints[c]))
    decreases |added|
  {
    if added != [] {
      var u, rest := AddOne(s, jid, added[0].0, added[0].1), added[1..];
      AddsEach(u, jid, rest, c);
      assert s.pending + [PutCheckpoint(added[0].0)] + seq(|rest|, i requires 0 <= i < |rest| => PutCheckpoint(rest[i].0))
          == s.pending + seq(|added|, i requires 0 <= i < |added| => PutCheckpoint(added[i].0));
      assert forall i :: 1 <= i < |added| ==> added[i] == rest[i - 1];
    }
  }

  /******* Where content comes from *******/

  // A row was there at the start, or is what memory held under its id at some time of the run
  ghost predicate RowFrom(states: seq<State>, k: nat, j: Id)
    requires k < |states|
  {
    j in states[k].db.jobs ==>
      || (j in states[0].db.jobs && states[k].db.jobs[j] == states[0].db.jobs[j])
      || exists i :: Held(states, k, i, j, states[k].db.jobs[j])
  }

  ghost predicate Held(states: seq<State>, k: nat, i: nat, j: Id, job: Job)
    requires k < |states|
  {
    i <= k && j in states[i].jobs && states[i].jobs[j] == job
  }

  // A step leaves each row, or stores what is in memory
  lemma StepRow(s: State, e: Event, j: Id)
    requires Enabled(s, e)
    ensures j in Step(s, e).db.jobs ==>
              || (j in s.db.jobs && Step(s, e).db.jobs[j] == s.db.jobs[j])
              || (j in s.jobs && Step(s, e).db.jobs[j] == s.jobs[j])
  {
    match e
    case Delete(jid, order) => if jid in s.jobs { DeleteCheckpointsFrame(Entombed(s, jid), order); }
    case AddCheckpoint(jid, added) => AddCheckpointsFrame(s, jid, added);
    case UserSync(env) => if env.listed { ReloadOnlyMemory(s, env.order, env.unlisted); }
    case Work(env) => SyncRow(s.(pending := s.pending[1..]), s.pending[0], env, j);
    case Drain(env) => SyncRow(s.(pending := s.pending[1..]), s.pending[0], env, j);
    case _ =>
  }

  lemma SyncRow(s: State, a: Action, env: Env, j: Id)
    requires EnvOk(s, env)
    ensures var t := Sync(s, a, env).0;
            j in t.db.jobs ==> (j in s.db.jobs && t.db.jobs[j] == s.db.jobs[j]) || (j in s.jobs && t.db.jobs[j] == s.jobs[j])
  {
    if a.Initialize? && env.listed { ReloadOnlyMemory(s, env.order, env.unlisted); }
  }

  /**
   In every run, whatever fails and is tried again, no row is ever made up: each was there at the start or is
   exactly what memory held under that id at some earlier time.
   */
  lemma {:induction false} RowsComeFromMemory(states: seq<State>, events: seq<Event>, k: nat, j: Id)
    requires IsRun(states, events) && k < |states|
    ensures RowFrom(states, k, j)
  {
    if k > 0 {
      RowsComeFromMemory(states, events, k - 1, j);
      assert Follows(states, events, k - 1);
      StepRow(states[k - 1], events[k - 1], j);
      if j in states[k].db.jobs {
        var job := states[k].db.jobs[j];
        if j in states[k - 1].jobs && job == states[k - 1].jobs[j] {
          assert Held(states, k, k - 1, j, job);
        } else if !(j in states[0].db.jobs && job == states[0].db.jobs[j]) {
          var i :| Held(states, k - 1, i, j, job);
          assert Held(states, k, i, j, job);
        }
      }
    }
  }
}
