/**
 The lazy write-back job manager: in-memory maps that shadow a DB, tombstones for what was deleted,
 and a queue of pending actions that a background loop drains, requeues on failure and, on shutdown,
 drains one last time.

 A step is one whole API call or one whole sync action. A DB call may succeed, fail without effect,
 or fail after having taken effect.
 */
module LazyJobs {

  type Id = string

  // pid is 0 until the job is managed; remote is the stored status; rest is everything else
  datatype Job = Job(pid: nat, remote: bool, gpu: bool, rest: int)

  datatype Checkpoint = Checkpoint(jid: Id, path: string, info: int)

  // cascade: whether deleting a job row also deletes the checkpoint rows that reference it
  datatype Store = Store(jobs: map<Id, Job>, checkpoints: map<Id, Checkpoint>, cascade: bool)

  datatype Action = Initialize | PutJob(id: Id) | PutCheckpoint(id: Id) | Shutdown

  datatype Reply = Succeeds | FailsBefore | FailsAfter

  // What the DB does during one sync: the reply to a put or delete, and for a reload whether the job
  // listing works, the order it comes in, and for which jobs listing the checkpoints fails
  datatype Env = Env(reply: Reply, listed: bool, order: seq<Id>, unlisted: set<Id>)

  datatype Phase = Running | Draining | Stopped

  datatype State = State(
    jobs: map<Id, Job>,
    checkpoints: map<Id, Checkpoint>,
    deletedJobs: map<Id, Job>,
    deletedCheckpoints: map<Id, Checkpoint>,
    pending: seq<Action>,
    db: Store,
    phase: Phase,
    attempted: seq<Action>,  // what the shutdown drain has tried so far
    failed: seq<Action>      // what the shutdown drain has tried in vain
  )

  /******* The DB *******/

  function DbDeleteJob(db: Store, jid: Id): Store {
    db.(jobs := db.jobs - {jid},
        checkpoints := if db.cascade
                       then map c | c in db.checkpoints && db.checkpoints[c].jid != jid :: db.checkpoints[c]
                       else db.checkpoints)
  }

  function CheckpointsOf(db: Store, jid: Id): map<Id, Checkpoint> {
    map c | c in db.checkpoints && db.checkpoints[c].jid == jid :: db.checkpoints[c]
  }

  /******* One sync action *******/

  function SyncPutJob(s: State, jid: Id, reply: Reply): State {
    if jid in s.jobs then
      if reply.FailsBefore? then s else s.(db := s.db.(jobs := s.db.jobs[jid := s.jobs[jid]]))
    else if jid in s.deletedJobs then
      match reply
      case FailsBefore => s
      case FailsAfter => s.(db := DbDeleteJob(s.db, jid))
      case Succeeds => s.(db := DbDeleteJob(s.db, jid), deletedJobs := s.deletedJobs - {jid})
    else s
  }

  function SyncPutCheckpoint(s: State, id: Id, reply: Reply): State {
    if id in s.checkpoints then
      if reply.FailsBefore? then s
      else s.(db := s.db.(checkpoints := s.db.checkpoints[id := s.checkpoints[id]]))
    else if id in s.deletedCheckpoints then
      match reply
      case FailsBefore => s
      case FailsAfter => s.(db := s.db.(checkpoints := s.db.checkpoints - {id}))
      case Succeeds => s.(db := s.db.(checkpoints := s.db.checkpoints - {id}),
                          deletedCheckpoints := s.deletedCheckpoints - {id})
    else s
  }

  // Whether the put of this id reaches the DB at all: if not, it cannot fail
  predicate Touches(s: State, a: Action) {
    match a
    case PutJob(jid) => jid in s.jobs || jid in s.deletedJobs
    case PutCheckpoint(id) => id in s.checkpoints || id in s.deletedCheckpoints
    case _ => false
  }

  predicate Wanted(s: State, jid: Id)
    requires jid in s.db.jobs
  {
    jid !in s.deletedJobs && (jid !in s.jobs || s.db.jobs[jid].remote)
  }

  function LoadJob(s: State, jid: Id): State
    requires jid in s.db.jobs
  {
    s.(jobs := s.jobs[jid := s.db.jobs[jid]])
  }

  function LoadCheckpoints(s: State, jid: Id): State {
    s.(checkpoints := s.checkpoints + CheckpointsOf(s.db, jid))
  }

  function Reload(s: State, order: seq<Id>, unlisted: set<Id>): (State, bool)
    requires forall j :: j in order ==> j in s.db.jobs
    decreases |order|
  {
    if order == [] then (s, true)
    else if Wanted(s, order[0]) then
      if order[0] in unlisted then (LoadJob(s, order[0]), false)
      else Reload(LoadCheckpoints(LoadJob(s, order[0]), order[0]), order[1..], unlisted)
    else Reload(s, order[1..], unlisted)
  }

  // ListJobs returns every row once
  predicate Lists(order: seq<Id>, keys: set<Id>) {
    && (forall j :: j in order ==> j in keys)
    && (forall j :: j in keys ==> j in order)
    && (forall i, k :: 0 <= i < k < |order| ==> order[i] != order[k])
  }

  predicate EnvOk(s: State, env: Env) {
    Lists(env.order, s.db.jobs.Keys)
  }

  function Sync(s: State, a: Action, env: Env): (State, bool)
    requires EnvOk(s, env)
  {
    match a
    case Initialize => if env.listed then Reload(s, env.order, env.unlisted) else (s, false)
    case PutJob(jid) => (SyncPutJob(s, jid, env.reply), env.reply.Succeeds? || !Touches(s, a))
    case PutCheckpoint(id) => (SyncPutCheckpoint(s, id, env.reply), env.reply.Succeeds? || !Touches(s, a))
    case Shutdown => (s, true)
  }

  /******* API calls *******/

  function DeleteCheckpoint(s: State, id: Id): State {
    if id !in s.checkpoints then s
    else s.(checkpoints := s.checkpoints - {id},
            deletedCheckpoints := s.deletedCheckpoints[id := s.checkpoints[id]],
            pending := s.pending + [PutCheckpoint(id)])
  }

  function DeleteCheckpoints(s: State, ids: seq<Id>): State
    decreases |ids|
  {
    if ids == [] then s else DeleteCheckpoints(DeleteCheckpoint(s, ids[0]), ids[1..])
  }

  function DeleteJob(s: State, jid: Id, order: seq<Id>): State {
    if jid !in s.jobs then s
    else DeleteCheckpoints(Entombed(s, jid), order)
  }

  function Entombed(s: State, jid: Id): State
    requires jid in s.jobs
  {
    s.(jobs := s.jobs - {jid},
       deletedJobs := s.deletedJobs[jid := s.jobs[jid]],
       pending := s.pending + [PutJob(jid)])
  }

  function AddCheckpoints(s: State, jid: Id, added: seq<(Id, Checkpoint)>): State
    decreases |added|
  {
    if jid !in s.jobs || added == [] then s
    else AddCheckpoints(AddOne(s, jid, added[0].0, added[0].1), jid, added[1..])
  }

  function AddOne(s: State, jid: Id, id: Id, checkpoint: Checkpoint): State {
    s.(checkpoints := s.checkpoints[id := checkpoint.(jid := jid)],
       pending := s.pending + [PutCheckpoint(id)])
  }

  // The ids are new UUIDs
  predicate FreshIds(s: State, added: seq<(Id, Checkpoint)>) {
    forall i :: 0 <= i < |added| ==> added[i].0 !in s.db.checkpoints && added[i].0 !in s.checkpoints
  }

  // Find returns some job with the pid, if there is one
  predicate Finds(s: State, pid: nat, found: seq<Id>) {
    if found == [] then forall j :: j in s.jobs ==> s.jobs[j].pid != pid
    else found[0] in s.jobs && s.jobs[found[0]].pid == pid
  }

  predicate Manageable(s: State, jid: Id, pid: nat, found: seq<Id>) {
    jid in s.jobs && pid != 0 && (found == [] || found[0] == jid)
  }

  /******* Events and runs *******/

  datatype Event =
    | New(jid: Id, rest: int)
    | Refresh(jid: Id, seen: Job, attached: bool)
    | Delete(jid: Id, order: seq<Id>)
    | Manage(jid: Id, pid: nat, seen: Job, found: seq<Id>)
    | AddCheckpoint(jid: Id, added: seq<(Id, Checkpoint)>)
    | RemoveCheckpoint(id: Id)
    | UserSync(env: Env)
    | Tick
    | Work(env: Env)
    | BeginShutdown
    | Drain(env: Env)

  predicate Enabled(s: State, e: Event) {
    match e
    case Delete(jid, order) => Lists(order, set c | c in s.checkpoints && s.checkpoints[c].jid == jid)
    case Manage(jid, pid, seen, found) => Finds(s, pid, found)
    case AddCheckpoint(jid, added) => FreshIds(s, added)
    case UserSync(env) => EnvOk(s, env)
    case Tick => s.phase.Running?
    case Work(env) => s.phase.Running? && s.pending != [] && EnvOk(s, env)
    case BeginShutdown => s.phase.Running?
    case Drain(env) => s.phase.Draining? && s.pending != [] && EnvOk(s, env)
    case _ => true
  }

  function NewJob(s: State, jid: Id, rest: int): State {
    if jid == "" || jid in s.jobs then s
    else s.(jobs := s.jobs[jid := Job(0, false, false, rest)])
  }

  function RefreshJob(s: State, jid: Id, seen: Job, attached: bool): State {
    if jid !in s.jobs then s
    else
      var job := seen.(pid := s.jobs[jid].pid);
      if !job.gpu && attached then
        s.(jobs := s.jobs[jid := job.(gpu := true)], pending := s.pending + [PutJob(jid)])
      else s.(jobs := s.jobs[jid := job])
  }

  function ManageJob(s: State, jid: Id, pid: nat, seen: Job, found: seq<Id>): State {
    if !Manageable(s, jid, pid, found) then s
    else s.(jobs := s.jobs[jid := seen.(pid := pid)], pending := s.pending + [PutJob(jid)])
  }

  // One turn of the background loop: a failed action goes to the back of the queue
  function WorkOne(s: State, env: Env): State
    requires s.pending != [] && EnvOk(s, env)
  {
    var a := s.pending[0];
    var (t, ok) := Sync(s.(pending := s.pending[1..]), a, env);
    if ok then t else t.(pending := t.pending + [a])
  }

  // One turn of the shutdown drain: a failed action is only recorded, the marker ends the drain
  function DrainOne(s: State, env: Env): State
    requires s.pending != [] && EnvOk(s, env)
  {
    var a := s.pending[0];
    if a.Shutdown? then s.(pending := s.pending[1..], phase := Stopped)
    else
      var (t, ok) := Sync(s.(pending := s.pending[1..]), a, env);
      t.(attempted := t.attempted + [a], failed := if ok then t.failed else t.failed + [a])
  }

  function Step(s: State, e: Event): State
    requires Enabled(s, e)
  {
    match e
    case New(jid, rest) => NewJob(s, jid, rest)
    case Refresh(jid, seen, attached) => RefreshJob(s, jid, seen, attached)
    case Delete(jid, order) => DeleteJob(s, jid, order)
    case Manage(jid, pid, seen, found) => ManageJob(s, jid, pid, seen, found)
    case AddCheckpoint(jid, added) => AddCheckpoints(s, jid, added)
    case RemoveCheckpoint(id) => DeleteCheckpoint(s, id)
    case UserSync(env) => Sync(s, Initialize, env).0
    case Tick => s.(pending := s.pending + [Initialize])
    case Work(env) => WorkOne(s, env)
    case BeginShutdown => s.(pending := s.pending + [Shutdown], phase := Draining)
    case Drain(env) => DrainOne(s, env)
  }

  predicate Follows(states: seq<State>, events: seq<Event>, i: nat)
    requires i < |events| && |states| == |events| + 1
  {
    Enabled(states[i], events[i]) && states[i + 1] == Step(states[i], events[i])
  }

  // states[0], states[1], ... is a run taking the events in turn
  ghost predicate IsRun(states: seq<State>, events: seq<Event>) {
    |states| == |events| + 1 && forall i :: 0 <= i < |events| ==> Follows(states, events, i)
  }

  function Empty(db: Store): State {
    State(map[], map[], map[], map[], [], db, Running, [], [])
  }

  // The state the constructor hands out, when its initial sync succeeds
  ghost predicate Boots(db: Store, env: Env, s: State) {
    EnvOk(Empty(db), env) && Sync(Empty(db), Initialize, env) == (s, true)
  }
}
