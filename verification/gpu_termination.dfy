/**
 Who may end a GPU controller, and when: terminations asked for by detaching, by the pool, by failed
 attaching and by failed spawning, beside CRIU calls that hold a controller's termination lock and a
 pool sync that rediscovers controllers from their socket files.

 A step is one lock operation, one map operation or one file removal of one actor; actors interleave in
 any order. Controllers are objects: two of them may carry the same id.
 */
module GpuTermination {

  type Id = string
  type Obj = nat
  type Actor = nat

  datatype Option<T> = None | Some(value: T)

  datatype Owner = Terminator(t: Actor) | Session(h: Actor)

  // terminating and closed are the controller's own flag and the times its Terminated channel was
  // closed; deleted says that its termination has removed its id from the pool
  datatype Controller = Controller(id: Id, lock: Option<Owner>, terminating: bool, deleted: bool, closed: nat)

  // A call of Terminate: it has looked the controller up, holds its lock, has begun, has removed it from
  // the pool, has closed its channel, has removed its socket file
  datatype Progress = Found | Locked | Begun | Removed | Closed | Unlinked

  datatype Terminating = Terminating(c: Obj, at: Progress)

  // A CRIU call with GPU hooks: it has looked the controller up, or is between initialize and finalize
  datatype Hooked = Hooked(c: Obj, inside: bool)

  datatype State = State(
    objs: map<Obj, Controller>,
    pool: map<Id, Obj>,
    sockets: set<Id>,
    used: set<Id>,                  // ids that have ever existed
    terms: map<Actor, Terminating>,
    sessions: map<Actor, Hooked>,
    listed: set<Id>,                // socket files the running pool sync has still to look at
    syncing: map<Id, Obj>           // controllers the running pool sync has still to store
  )

  datatype Event =
    | Spawn(id: Id, c: Obj)
    | SocketAppears(id: Id)
    | TermGet(t: Actor, id: Id) | TermLock(t: Actor) | TermCheck(t: Actor) | TermDelete(t: Actor)
    | TermClose(t: Actor) | TermUnlink(t: Actor) | TermUnlock(t: Actor)
    | SessionGet(h: Actor, id: Id) | SessionLock(h: Actor) | SessionFinalize(h: Actor)
    | SyncStart | SyncSkip(id: Id) | SyncSee(id: Id, c: Obj) | SyncStore(id: Id)

  function IdOf(s: State, c: Obj): Id
    requires c in s.objs
  {
    s.objs[c].id
  }

  predicate At(s: State, t: Actor, p: Progress) {
    t in s.terms && s.terms[t].at == p && s.terms[t].c in s.objs
  }

  predicate InSession(s: State, h: Actor, c: Obj) {
    h in s.sessions && s.sessions[h] == Hooked(c, true)
  }

  predicate Enabled(s: State, e: Event) {
    match e
    // ids are new UUIDs
    case Spawn(id, c) => id !in s.used && c !in s.objs
    // of a controller spawned here, or of one that some other process has spawned
    case SocketAppears(id) =>
      id !in s.used || (id in s.pool && s.pool[id] in s.objs && !s.objs[s.pool[id]].terminating)
    case TermGet(t, id) => t !in s.terms && id in s.pool
    case TermLock(t) => At(s, t, Found) && s.objs[s.terms[t].c].lock.None?
    case TermCheck(t) => At(s, t, Locked)
    case TermDelete(t) => At(s, t, Begun)
    case TermClose(t) => At(s, t, Removed)
    case TermUnlink(t) => At(s, t, Closed)
    case TermUnlock(t) => At(s, t, Unlinked)
    case SessionGet(h, id) => h !in s.sessions && id in s.pool
    case SessionLock(h) =>
      h in s.sessions && !s.sessions[h].inside && s.sessions[h].c in s.objs && s.objs[s.sessions[h].c].lock.None?
    // finalize looks the controller up again; that it finds another is not modelled
    case SessionFinalize(h) =>
      h in s.sessions && s.sessions[h].inside && s.sessions[h].c in s.objs
        && var c := s.sessions[h].c; IdOf(s, c) in s.pool && s.pool[IdOf(s, c)] == c
    case SyncStart => s.listed == {} && s.syncing == map[]
    // booked, or neither in the pool nor any longer on disk
    case SyncSkip(id) => id in s.listed
    // c is the controller in the pool, or a new one for the socket file
    case SyncSee(id, c) =>
      id in s.listed && if id in s.pool then c == s.pool[id] else id in s.sockets && c !in s.objs
    case SyncStore(id) => id in s.syncing
  }

  function Advance(s: State, t: Actor, p: Progress): State
    requires t in s.terms
  {
    s.(terms := s.terms[t := s.terms[t].(at := p)])
  }

  function Update(s: State, c: Obj, x: Controller): State {
    s.(objs := s.objs[c := x])
  }

  function NewController(id: Id): Controller {
    Controller(id, None, false, false, 0)
  }

  function Step(s: State, e: Event): State
    requires Enabled(s, e)
  {
    match e
    case Spawn(id, c) => s.(objs := s.objs[c := NewController(id)], pool := s.pool[id := c], used := s.used + {id})
    case SocketAppears(id) => s.(sockets := s.sockets + {id}, used := s.used + {id})
    case TermGet(t, id) => s.(terms := s.terms[t := Terminating.Terminating(s.pool[id], Found)])
    case TermLock(t) =>
      var c := s.terms[t].c;
      Update(Advance(s, t, Locked), c, s.objs[c].(lock := Some(Terminator(t))))
    case TermCheck(t) =>
      var c := s.terms[t].c;
      if s.objs[c].terminating then Update(s, c, s.objs[c].(lock := None)).(terms := s.terms - {t})
      else Update(Advance(s, t, Begun), c, s.objs[c].(terminating := true))
    case TermDelete(t) =>
      var c := s.terms[t].c;
      Update(Advance(s, t, Removed), c, s.objs[c].(deleted := true)).(pool := s.pool - {IdOf(s, c)})
    case TermClose(t) =>
      var c := s.terms[t].c;
      Update(Advance(s, t, Closed), c, s.objs[c].(closed := s.objs[c].closed + 1))
    case TermUnlink(t) => Advance(s, t, Unlinked).(sockets := s.sockets - {IdOf(s, s.terms[t].c)})
    case TermUnlock(t) =>
      var c := s.terms[t].c;
      Update(s, c, s.objs[c].(lock := None)).(terms := s.terms - {t})
    case SessionGet(h, id) => s.(sessions := s.sessions[h := Hooked(s.pool[id], false)])
    case SessionLock(h) =>
      var c := s.sessions[h].c;
      Update(s, c, s.objs[c].(lock := Some(Session(h)))).(sessions := s.sessions[h := Hooked(c, true)])
    case SessionFinalize(h) =>
      var c := s.sessions[h].c;
      Update(s, c, s.objs[c].(lock := None)).(sessions := s.sessions - {h})
    case SyncStart => s.(listed := s.sockets)
    case SyncSkip(id) => s.(listed := s.listed - {id})
    case SyncSee(id, c) =>
      s.(objs := if id in s.pool then s.objs else s.objs[c := NewController(id)],
         listed := s.listed - {id},
         syncing := s.syncing[id := c])
    case SyncStore(id) => s.(pool := s.pool[id := s.syncing[id]], syncing := s.syncing - {id})
  }

  const INITIAL := State(map[], map[], {}, {}, map[], map[], {}, map[])

  predicate Follows(states: seq<State>, events: seq<Event>, i: nat)
    requires i < |events| && |states| == |events| + 1
  {
    Enabled(states[i], events[i]) && states[i + 1] == Step(states[i], events[i])
  }

  ghost predicate IsPath(states: seq<State>, events: seq<Event>) {
    |states| == |events| + 1 && forall i :: 0 <= i < |events| ==> Follows(states, events, i)
  }

  ghost predicate IsRun(states: seq<State>, events: seq<Event>) {
    IsPath(states, events) && states[0] == INITIAL
  }

  // Some events take s to u
  ghost predicate Leads(s: State, u: State) {
    exists states, events :: IsPath(states, events) && states[0] == s && states[|events|] == u
  }

  lemma LeadsToItself(s: State)
    ensures Leads(s, s)
  {
    assert IsPath([s], []);
  }

  lemma LeadsThen(s: State, u: State, e: Event)
    requires Leads(s, u) && Enabled(u, e)
    ensures Leads(s, Step(u, e))
  {
    var states, events :| IsPath(states, events) && states[0] == s && states[|events|] == u;
    var states', events' := states + [Step(u, e)], events + [e];
    forall i | 0 <= i < |events'| ensures Follows(states', events', i) {
      if i < |events| {
        assert Follows(states, events, i);
      }
    }
    assert IsPath(states', events') && states'[0] == s && states'[|events'|] == Step(u, e);
  }

  /******* The invariant *******/

  // Past the lock, and past the check of the flag
  predicate HoldsLock(p: Progress) {
    !p.Found?
  }

  predicate HasBegun(p: Progress) {
    !p.Found? && !p.Locked?
  }

  // Ids are consistent, and a controller not yet removed is the only one for its id
  predicate IdOk(s: State, id: Id) {
    && (id in s.pool ==> s.pool[id] in s.objs && s.objs[s.pool[id]].id == id)
    && (id in s.syncing ==> s.syncing[id] in s.objs && s.objs[s.syncing[id]].id == id)
    && (id in s.syncing && id in s.pool ==> s.pool[id] == s.syncing[id])
    && (id in s.pool || id in s.syncing || id in s.sockets || id in s.listed ==> id in s.used)
    && (id in s.listed ==> id !in s.syncing)
  }

  // A controller whose id its termination has not removed is where the pool or the running sync has it
  predicate Placed(s: State, c: Obj) {
    c in s.objs ==>
      var x := s.objs[c];
      && x.id in s.used
      && (!x.deleted ==> (x.id in s.pool && s.pool[x.id] == c) || (x.id in s.syncing && s.syncing[x.id] == c))
      && (x.deleted ==> x.terminating)
      && x.closed <= (if x.deleted then 1 else 0)
  }

  predicate Guarded(s: State, c: Obj) {
    c in s.objs && s.objs[c].lock.Some? ==>
      match s.objs[c].lock.value
      case Terminator(t) => t in s.terms && s.terms[t].c == c && HoldsLock(s.terms[t].at)
      case Session(h) => InSession(s, h, c)
  }

  predicate ObjOk(s: State, c: Obj) {
    Placed(s, c) && Guarded(s, c)
  }

  predicate TermOk(s: State, t: Actor) {
    t in s.terms ==>
      var a := s.terms[t];
      && a.c in s.objs
      && (HoldsLock(a.at) ==> s.objs[a.c].lock == Some(Terminator(t)))
      && (HasBegun(a.at) ==> s.objs[a.c].terminating)
      && (a.at.Begun? ==> !s.objs[a.c].deleted)
      && (HasBegun(a.at) && !a.at.Begun? ==> s.objs[a.c].deleted)
      && (a.at.Begun? || a.at.Removed? ==> s.objs[a.c].closed == 0)
  }

  predicate SessionOk(s: State, h: Actor) {
    h in s.sessions ==>
      && s.sessions[h].c in s.objs
      && (s.sessions[h].inside ==> s.objs[s.sessions[h].c].lock == Some(Session(h)))
  }

  ghost predicate Inv(s: State) {
    && (forall id :: IdOk(s, id))
    && (forall c :: ObjOk(s, c))
    && (forall t :: TermOk(s, t))
    && (forall h :: SessionOk(s, h))
  }

  // The controller an event is about
  function Subject(s: State, e: Event): Option<Obj> {
    match e
    case TermLock(t) => if t in s.terms then Some(s.terms[t].c) else None
    case TermCheck(t) => if t in s.terms then Some(s.terms[t].c) else None
    case TermDelete(t) => if t in s.terms then Some(s.terms[t].c) else None
    case TermClose(t) => if t in s.terms then Some(s.terms[t].c) else None
    case TermUnlink(t) => if t in s.terms then Some(s.terms[t].c) else None
    case TermUnlock(t) => if t in s.terms then Some(s.terms[t].c) else None
    case SessionLock(h) => if h in s.sessions then Some(s.sessions[h].c) else None
    case SessionFinalize(h) => if h in s.sessions then Some(s.sessions[h].c) else None
    case _ => None
  }

  lemma EventFacts(s: State, e: Event)
    requires Inv(s) && Enabled(s, e)
    ensures Subject(s, e).Some? ==>
      var c := Subject(s, e).value;
      ObjOk(s, c) && c in s.objs && IdOk(s, IdOf(s, c))
        && (if e.SessionLock? || e.SessionFinalize? then SessionOk(s, e.h) else TermOk(s, e.t))
    ensures e.Spawn? || e.SocketAppears? || e.TermGet? || e.SessionGet? || e.SyncSkip? || e.SyncSee? || e.SyncStore? ==> IdOk(s, e.id)
  {
    match e
    case TermLock(t) => assert TermOk(s, t) && ObjOk(s, s.terms[t].c);
    case TermCheck(t) => assert TermOk(s, t) && ObjOk(s, s.terms[t].c);
    case TermDelete(t) => assert TermOk(s, t) && ObjOk(s, s.terms[t].c);
    case TermClose(t) => assert TermOk(s, t) && ObjOk(s, s.terms[t].c);
    case TermUnlink(t) => assert TermOk(s, t) && ObjOk(s, s.terms[t].c);
    case TermUnlock(t) => assert TermOk(s, t) && ObjOk(s, s.terms[t].c);
    case SessionLock(h) => assert SessionOk(s, h) && ObjOk(s, s.sessions[h].c);
    case SessionFinalize(h) => assert SessionOk(s, h) && ObjOk(s, s.sessions[h].c);
    case _ =>
  }

  // The steps of a termination after its lookup, and those of a CRIU call after its own
  predicate OfTermination(e: Event) {
    e.TermLock? || e.TermCheck? || e.TermDelete? || e.TermClose? || e.TermUnlink? || e.TermUnlock?
  }

  predicate OfSession(e: Event) {
    e.SessionLock? || e.SessionFinalize?
  }

  lemma StepKeepsId(s: State, e: Event, id: Id)
    requires Inv(s) && Enabled(s, e)
    ensures IdOk(Step(s, e), id)
  {
    EventFacts(s, e);
    assert IdOk(s, id);
    if OfTermination(e) { TermKeepsId(s, e, id); } else if OfSession(e) { SessionKeepsId(s, e, id); } else { PoolKeepsId(s, e, id); }
  }

  lemma TermKeepsId(s: State, e: Event, id: Id)
    requires OfTermination(e) && Enabled(s, e) && IdOk(s, id)
    ensures IdOk(Step(s, e), id)
  {
  }

  lemma SessionKeepsId(s: State, e: Event, id: Id)
    requires OfSession(e) && Enabled(s, e) && IdOk(s, id)
    ensures IdOk(Step(s, e), id)
  {
  }

  lemma PoolKeepsId(s: State, e: Event, id: Id)
    requires !OfTermination(e) && !OfSession(e) && Enabled(s, e) && IdOk(s, id)
    requires e.Spawn? || e.SocketAppears? || e.TermGet? || e.SessionGet? || e.SyncSkip? || e.SyncSee? || e.SyncStore? ==> IdOk(s, e.id)
    ensures IdOk(Step(s, e), id)
  {
  }

  lemma StepKeepsPlaced(s: State, e: Event, c: Obj)
    requires Inv(s) && Enabled(s, e)
    ensures Placed(Step(s, e), c)
  {
    EventFacts(s, e);
    assert ObjOk(s, c);
    if c in s.objs { assert IdOk(s, IdOf(s, c)); }
    if OfTermination(e) {
      TermKeepsPlaced(s, e, c);
    } else if OfSession(e) {
      SessionKeepsPlaced(s, e, c);
    } else {
      PoolKeepsPlaced(s, e, c);
    }
  }

  lemma TermKeepsPlaced(s: State, e: Event, c: Obj)
    requires OfTermination(e) && Enabled(s, e) && Placed(s, c) && TermOk(s, e.t)
    requires c in s.objs ==> IdOk(s, IdOf(s, c))
    requires Placed(s, s.terms[e.t].c)
    ensures Placed(Step(s, e), c)
  {
  }

  lemma SessionKeepsPlaced(s: State, e: Event, c: Obj)
    requires OfSession(e) && Enabled(s, e) && Placed(s, c)
    ensures Placed(Step(s, e), c)
  {
  }

  lemma PoolKeepsPlaced(s: State, e: Event, c: Obj)
    requires !OfTermination(e) && !OfSession(e) && Enabled(s, e) && Placed(s, c)
    requires c in s.objs ==> IdOk(s, IdOf(s, c))
    requires e.Spawn? || e.SocketAppears? || e.TermGet? || e.SessionGet? || e.SyncSkip? || e.SyncSee? || e.SyncStore? ==> IdOk(s, e.id)
    ensures Placed(Step(s, e), c)
  {
  }

  lemma StepKeepsGuarded(s: State, e: Event, c: Obj)
    requires Inv(s) && Enabled(s, e)
    ensures Guarded(Step(s, e), c)
  {
    EventFacts(s, e);
    assert ObjOk(s, c);
    if OfTermination(e) {
      TermKeepsGuarded(s, e, c);
    } else if OfSession(e) {
      SessionKeepsGuarded(s, e, c);
    } else {
      PoolKeepsGuarded(s, e, c);
    }
  }

  lemma TermKeepsGuarded(s: State, e: Event, c: Obj)
    requires OfTermination(e) && Enabled(s, e) && Guarded(s, c) && TermOk(s, e.t)
    ensures Guarded(Step(s, e), c)
  {
  }

  lemma SessionKeepsGuarded(s: State, e: Event, c: Obj)
    requires OfSession(e) && Enabled(s, e) && Guarded(s, c) && SessionOk(s, e.h)
    ensures Guarded(Step(s, e), c)
  {
  }

  lemma PoolKeepsGuarded(s: State, e: Event, c: Obj)
    requires !OfTermination(e) && !OfSession(e) && Enabled(s, e) && Guarded(s, c)
    ensures Guarded(Step(s, e), c)
  {
  }

  lemma StepKeepsTerm(s: State, e: Event, t: Actor)
    requires Inv(s) && Enabled(s, e)
    ensures TermOk(Step(s, e), t)
  {
    EventFacts(s, e);
    assert TermOk(s, t);
    if t in s.terms { assert ObjOk(s, s.terms[t].c); }
    if OfTermination(e) {
      if t == e.t { OwnKeepsTerm(s, e); } else { OthersKeepTerm(s, e, t); }
    } else {
      if e.TermGet? { assert IdOk(s, e.id); }
      RestKeepsTerm(s, e, t);
    }
  }

  lemma OwnKeepsTerm(s: State, e: Event)
    requires OfTermination(e) && Enabled(s, e) && TermOk(s, e.t) && Placed(s, s.terms[e.t].c)
    ensures TermOk(Step(s, e), e.t)
  {
  }

  lemma OthersKeepTerm(s: State, e: Event, t: Actor)
    requires OfTermination(e) && Enabled(s, e) && TermOk(s, e.t) && TermOk(s, t) && t != e.t
    ensures TermOk(Step(s, e), t)
  {
  }

  lemma RestKeepsTerm(s: State, e: Event, t: Actor)
    requires !OfTermination(e) && Enabled(s, e) && TermOk(s, t)
    requires OfSession(e) ==> SessionOk(s, e.h)
    requires e.TermGet? ==> IdOk(s, e.id)
    ensures TermOk(Step(s, e), t)
  {
  }

  lemma StepKeepsSession(s: State, e: Event, h: Actor)
    requires Inv(s) && Enabled(s, e)
    ensures SessionOk(Step(s, e), h)
  {
    EventFacts(s, e);
    assert SessionOk(s, h);
    if OfTermination(e) { TermKeepsSession(s, e, h); } else { RestKeepsSession(s, e, h); }
  }

  lemma TermKeepsSession(s: State, e: Event, h: Actor)
    requires OfTermination(e) && Enabled(s, e) && TermOk(s, e.t) && SessionOk(s, h)
    ensures SessionOk(Step(s, e), h)
  {
  }

  lemma RestKeepsSession(s: State, e: Event, h: Actor)
    requires !OfTermination(e) && Enabled(s, e) && SessionOk(s, h)
    requires OfSession(e) ==> SessionOk(s, e.h)
    requires e.SessionGet? ==> IdOk(s, e.id)
    ensures SessionOk(Step(s, e), h)
  {
  }

  lemma StepKeepsInv(s: State, e: Event)
    requires Inv(s) && Enabled(s, e)
    ensures Inv(Step(s, e))
  {
    var u := Step(s, e);
    forall id ensures IdOk(u, id) { StepKeepsId(s, e, id); }
    forall c ensures ObjOk(u, c) { StepKeepsPlaced(s, e, c); StepKeepsGuarded(s, e, c); }
    forall t ensures TermOk(u, t) { StepKeepsTerm(s, e, t); }
    forall h ensures SessionOk(u, h) { StepKeepsSession(s, e, h); }
  }

  lemma {:induction false} RunKeepsInv(states: seq<State>, events: seq<Event>, k: nat)
    requires IsRun(states, events) && k < |states|
    ensures Inv(states[k])
  {
    if k > 0 {
      RunKeepsInv(states, events, k - 1);
      assert Follows(states, events, k - 1);
      StepKeepsInv(states[k - 1], events[k - 1]);
    }
  }

  /******* The theorems *******/

  // In every run the Terminated channel of every controller is closed at most once
  lemma ClosedAtMostOnce(states: seq<State>, events: seq<Event>, k: nat, c: Obj)
    requires IsRun(states, events) && k < |states| && c in states[k].objs
    ensures states[k].objs[c].closed <= 1
  {
    RunKeepsInv(states, events, k);
    assert ObjOk(states[k], c);
  }

  // What Terminate does to a controller, beyond waiting for its lock
  predicate Affects(s: State, e: Event, c: Obj) {
    (e.TermCheck? || e.TermDelete? || e.TermClose? || e.TermUnlink?) && Subject(s, e) == Some(c)
  }

  // The end of the termination of another controller, already out of the pool, with the id of c
  predicate UnlinksForAnother(s: State, e: Event, c: Obj) {
    && e.TermUnlink? && c in s.objs && e.t in s.terms && s.terms[e.t].c in s.objs
    && var d := s.terms[e.t].c;
    d != c && IdOf(s, d) == IdOf(s, c) && s.objs[d].deleted
  }

  /**
   No effect of a termination of c falls between the initialize and the finalize hook of a CRIU call. What
   may still happen to c's socket file in that time is its removal by the termination of another controller,
   one that had the same id before.
   */
  lemma NoTerminationInSession(states: seq<State>, events: seq<Event>, i: nat, h: Actor, c: Obj)
    requires IsRun(states, events) && i < |events| && InSession(states[i], h, c)
    ensures !Affects(states[i], events[i], c)
    ensures c in states[i].objs
    ensures var id := IdOf(states[i], c);
            id in states[i].sockets && id !in states[i + 1].sockets <==> id in states[i].sockets && UnlinksForAnother(states[i], events[i], c)
  {
    RunKeepsInv(states, events, i);
    assert Follows(states, events, i) && SessionOk(states[i], h);
    EventFacts(states[i], events[i]);
  }

  // Looking the controller up yields c
  predicate Sees(s: State, id: Id, c: Obj) {
    id in s.pool && s.pool[id] == c
  }

  lemma StepKeepsSeen(s: State, e: Event, h: Actor, c: Obj)
    requires Inv(s) && Enabled(s, e) && InSession(s, h, c) && c in s.objs && Sees(s, IdOf(s, c), c)
    ensures Sees(Step(s, e), IdOf(s, c), c)
    ensures c in Step(s, e).objs && IdOf(Step(s, e), c) == IdOf(s, c)
  {
    assert SessionOk(s, h) && IdOk(s, IdOf(s, c)) && ObjOk(s, c);
    EventFacts(s, e);
  }

  /**
   Every hook of a CRIU call finds the controller whose lock the call holds exactly when the pool still
   had that controller at the moment the lock was taken: the lookup and the lock are two steps, and a
   termination that comes between them leaves the call with a dead controller.
   */
  lemma SessionSeesItsController(states: seq<State>, events: seq<Event>, i: nat, j: nat, h: Actor, c: Obj, id: Id)
    requires IsRun(states, events) && i <= j < |states|
    requires forall k :: i <= k <= j ==> InSession(states[k], h, c)
    requires c in states[i].objs && IdOf(states[i], c) == id
    ensures (forall k :: i <= k <= j ==> Sees(states[k], id, c)) <==> Sees(states[i], id, c)
  {
    if Sees(states[i], id, c) {
      var k := i;
      while k < j
        invariant i <= k <= j
        invariant c in states[k].objs && IdOf(states[k], c) == id
        invariant forall l :: i <= l <= k ==> Sees(states[l], id, c)
      {
        RunKeepsInv(states, events, k);
        assert Follows(states, events, k);
        StepKeepsSeen(states[k], events[k], h, c);
        k := k + 1;
      }
    }
  }

  // The termination of t, from taking the lock to releasing it
  function Terminated(s: State, t: Actor): State
    requires Enabled(s, TermLock(t))
  {
    var s1 := Step(s, TermLock(t));
    var s2 := Step(s1, TermCheck(t));
    if At(s2, t, Begun) then
      Step(Step(Step(Step(s2, TermDelete(t)), TermClose(t)), TermUnlink(t)), TermUnlock(t))
    else s2
  }

  lemma LastUpdateCounts<K, V>(m: map<K, V>, k: K, a: V, b: V)
    ensures m[k := a][k := b] == m[k := b]
  {
  }

  lemma LockAndCheck(s: State, t: Actor)
    requires Enabled(s, TermLock(t)) && !s.objs[s.terms[t].c].terminating
    ensures var c := s.terms[t].c;
            Step(Step(s, TermLock(t)), TermCheck(t))
              == s.(objs := s.objs[c := s.objs[c].(lock := Some(Terminator(t)), terminating := true)],
                    terms := s.terms[t := Terminating.Terminating(c, Begun)])
  {
    var c, x := s.terms[t].c, s.objs[s.terms[t].c].(lock := Some(Terminator(t)));
    LastUpdateCounts(s.terms, t, Terminating.Terminating(c, Locked), Terminating.Terminating(c, Begun));
    LastUpdateCounts(s.objs, c, x, x.(terminating := true));
  }

  lemma DeleteAndClose(s: State, t: Actor)
    requires At(s, t, Begun)
    ensures var c := s.terms[t].c;
            var x := s.objs[c];
            Step(Step(s, TermDelete(t)), TermClose(t))
              == s.(objs := s.objs[c := x.(deleted := true, closed := x.closed + 1)], pool := s.pool - {x.id},
                    terms := s.terms[t := Terminating.Terminating(c, Closed)])
  {
    var c, x := s.terms[t].c, s.objs[s.terms[t].c].(deleted := true);
    LastUpdateCounts(s.terms, t, Terminating.Terminating(c, Removed), Terminating.Terminating(c, Closed));
    LastUpdateCounts(s.objs, c, x, x.(closed := x.closed + 1));
  }

  lemma UnlinkAndUnlock(s: State, t: Actor)
    requires At(s, t, Closed)
    ensures var c := s.terms[t].c;
            Step(Step(s, TermUnlink(t)), TermUnlock(t))
              == s.(objs := s.objs[c := s.objs[c].(lock := None)], sockets := s.sockets - {IdOf(s, c)}, terms := s.terms - {t})
  {
    var s1 := Step(s, TermUnlink(t));
    assert At(s1, t, Unlinked) && s1.objs == s.objs;
    assert s1.terms - {t} == s.terms - {t};
  }

  // A termination that nobody comes between: the thread that sets the flag also removes, closes and unlinks
  lemma TerminatedEffect(s: State, t: Actor)
    requires Enabled(s, TermLock(t)) && !s.objs[s.terms[t].c].terminating
    ensures var c := s.terms[t].c;
            var x := s.objs[c];
            Terminated(s, t)
              == s.(objs := s.objs[c := x.(terminating := true, deleted := true, closed := x.closed + 1)],
                    pool := s.pool - {x.id}, sockets := s.sockets - {x.id}, terms := s.terms - {t})
  {
    LockAndCheck(s, t);
    BegunEffect(Step(Step(s, TermLock(t)), TermCheck(t)), t);
    var c := s.terms[t].c;
    var x := s.objs[c].(lock := Some(Terminator(t)), terminating := true);
    LastUpdateCounts(s.objs, c, x, x.(lock := None, deleted := true, closed := x.closed + 1));
    assert s.terms[t := Terminating.Terminating(c, Begun)] - {t} == s.terms - {t};
  }

  lemma BegunEffect(s: State, t: Actor)
    requires At(s, t, Begun)
    ensures var c := s.terms[t].c;
            var x := s.objs[c];
            Step(Step(Step(Step(s, TermDelete(t)), TermClose(t)), TermUnlink(t)), TermUnlock(t))
              == s.(objs := s.objs[c := x.(lock := None, deleted := true, closed := x.closed + 1)],
                    pool := s.pool - {x.id}, sockets := s.sockets - {x.id}, terms := s.terms - {t})
  {
    DeleteAndClose(s, t);
    var s2 := Step(Step(s, TermDelete(t)), TermClose(t));
    UnlinkAndUnlock(s2, t);
    var c := s.terms[t].c;
    LastUpdateCounts(s.objs, c, s2.objs[c], s2.objs[c].(lock := None));
    assert s2.terms - {t} == s.terms - {t};
  }

  /******* A termination among other actors *******/

  // The controller x under its termination by t, which has come to p
  function Staged(x: Controller, t: Actor, p: Progress): Controller {
    Controller(x.id, Some(Terminator(t)), true, !p.Begun?, if p.Closed? || p.Unlinked? then 1 else 0)
  }

  predicate Stage(s: State, t: Actor, c: Obj, x: Controller, p: Progress) {
    && HasBegun(p) && t in s.terms && s.terms[t] == Terminating.Terminating(c, p)
    && c in s.objs && s.objs[c] == Staged(x, t, p)
  }

  predicate OwnStep(e: Event, t: Actor) {
    e == TermDelete(t) || e == TermClose(t) || e == TermUnlink(t) || e == TermUnlock(t)
  }

  // What the termination does next
  function Next(p: Progress): Progress {
    match p
    case Begun => Removed
    case Removed => Closed
    case _ => Unlinked
  }

  function NextEvent(p: Progress, t: Actor): Event {
    match p
    case Begun => TermDelete(t)
    case Removed => TermClose(t)
    case Closed => TermUnlink(t)
    case _ => TermUnlock(t)
  }

  lemma OwnStage(s: State, e: Event, t: Actor, c: Obj, x: Controller, p: Progress)
    requires Enabled(s, e) && Stage(s, t, c, x, p) && OwnStep(e, t)
    ensures e == NextEvent(p, t) && Subject(s, e) == Some(c)
    ensures e != TermUnlock(t) ==> Stage(Step(s, e), t, c, x, Next(p))
    ensures e == TermUnlock(t) ==> Step(s, e).objs[c] == Staged(x, t, Unlinked).(lock := None)
  {
  }

  // Another actor cannot touch the controller, which is locked
  lemma OtherStage(s: State, e: Event, t: Actor, c: Obj, x: Controller, p: Progress)
    requires Inv(s) && Enabled(s, e) && Stage(s, t, c, x, p) && !OwnStep(e, t)
    ensures Stage(Step(s, e), t, c, x, p) && !Affects(s, e, c)
  {
    EventFacts(s, e);
    assert TermOk(s, t);
    if OfTermination(e) { OtherTerm(s, e, t, c, x, p); }
  }

  lemma OtherTerm(s: State, e: Event, t: Actor, c: Obj, x: Controller, p: Progress)
    requires OfTermination(e) && e.t in s.terms && TermOk(s, e.t) && Enabled(s, e) && Stage(s, t, c, x, p) && !OwnStep(e, t)
    ensures Subject(s, e) != Some(c) && Stage(Step(s, e), t, c, x, p)
  {
  }

  // By the k-th state of the run
  ghost predicate Course(states: seq<State>, events: seq<Event>, i: nat, k: nat, t: Actor, c: Obj, x: Controller, p: Progress,
                         d: nat, e: nat, f: nat)
    requires |states| == |events| + 1 && i < k < |states|
  {
    && Stage(states[k], t, c, x, p)
    && (!p.Begun? ==> i < d < k && events[d] == TermDelete(t))
    && (p.Closed? || p.Unlinked? ==> d < e < k && events[e] == TermClose(t))
    && (p.Unlinked? ==> e < f < k && events[f] == TermUnlink(t))
    && forall l :: i < l < k && Affects(states[l], events[l], c) ==>
         (!p.Begun? && l == d) || ((p.Closed? || p.Unlinked?) && l == e) || (p.Unlinked? && l == f)
  }

  lemma {:induction false} RunsOn(states: seq<State>, events: seq<Event>, i: nat, k: nat, t: Actor)
    returns (p: Progress, d: nat, e: nat, f: nat)
    requires IsRun(states, events) && i < k < |states| && Begins(states, events, i, t)
    requires forall l :: i < l < k ==> events[l] != TermUnlock(t)
    ensures Course(states, events, i, k, t, states[i].terms[t].c, states[i].objs[states[i].terms[t].c], p, d, e, f)
  {
    var c := states[i].terms[t].c;
    var x := states[i].objs[c];
    if k == i + 1 {
      p, d, e, f := Begun, 0, 0, 0;
      BeginStage(states, events, i, t);
    } else {
      p, d, e, f := RunsOn(states, events, i, k - 1, t);
      RunKeepsInv(states, events, k - 1);
      assert Follows(states, events, k - 1);
      p, d, e, f := GoesOn(states, events, i, k - 1, t, c, x, p, d, e, f);
    }
  }

  lemma GoesOn(states: seq<State>, events: seq<Event>, i: nat, k: nat, t: Actor, c: Obj, x: Controller, p: Progress,
               d: nat, e: nat, f: nat) returns (p': Progress, d': nat, e': nat, f': nat)
    requires |states| == |events| + 1 && i < k < |events| && Course(states, events, i, k, t, c, x, p, d, e, f)
    requires Inv(states[k]) && Follows(states, events, k) && events[k] != TermUnlock(t)
    ensures Course(states, events, i, k + 1, t, c, x, p', d', e', f')
  {
    p', d', e', f' := p, d, e, f;
    if OwnStep(events[k], t) {
      OwnStage(states[k], events[k], t, c, x, p);
      d', e', f' := if p.Begun? then k else d, if p.Removed? then k else e, if p.Closed? then k else f;
      p' := Next(p);
    } else {
      OtherStage(states[k], events[k], t, c, x, p);
    }
  }

  // At i the thread finds the flag down and sets it
  predicate Begins(states: seq<State>, events: seq<Event>, i: nat, t: Actor) {
    && i < |events| && i < |states| && events[i] == TermCheck(t) && At(states[i], t, Locked)
    && !states[i].objs[states[i].terms[t].c].terminating
  }

  lemma BeginStage(states: seq<State>, events: seq<Event>, i: nat, t: Actor)
    requires IsRun(states, events) && Begins(states, events, i, t)
    ensures Stage(states[i + 1], t, states[i].terms[t].c, states[i].objs[states[i].terms[t].c], Begun)
  {
    RunKeepsInv(states, events, i);
    assert Follows(states, events, i);
    assert TermOk(states[i], t) && ObjOk(states[i], states[i].terms[t].c);
  }

  /**
   In every run, the thread that sets a controller's flag is the one that takes it out of the pool, closes
   its channel and removes its socket file, in this order, before it gives back the lock. Until then nobody
   else affects the controller, whatever they do, and in the end it was closed once.
   */
  lemma RunsItsCourse(states: seq<State>, events: seq<Event>, i: nat, n: nat, t: Actor) returns (d: nat, e: nat, f: nat)
    requires IsRun(states, events) && i < n < |events| && Begins(states, events, i, t) && events[n] == TermUnlock(t)
    requires forall l :: i < l < n ==> events[l] != TermUnlock(t)
    ensures i < d < e < f < n && events[d] == TermDelete(t) && events[e] == TermClose(t) && events[f] == TermUnlink(t)
    ensures forall l :: i < l < n && Affects(states[l], events[l], states[i].terms[t].c) ==> l == d || l == e || l == f
    ensures var c := states[i].terms[t].c;
            c in states[n + 1].objs && states[n + 1].objs[c] == Controller(IdOf(states[i], c), None, true, true, 1)
  {
    var p;
    p, d, e, f := RunsOn(states, events, i, n, t);
    var c := states[i].terms[t].c;
    assert Follows(states, events, n);
    OwnStage(states[n], events[n], t, c, states[i].objs[c], p);
  }

  lemma TerminatedLeads(s: State, u: State, t: Actor)
    requires Leads(s, u) && Enabled(u, TermLock(t)) && !u.objs[u.terms[t].c].terminating
    ensures Leads(s, Terminated(u, t))
  {
    LockAndCheck(u, t);
    LeadsThen(s, u, TermLock(t));
    var u1 := Step(u, TermLock(t));
    LeadsThen(s, u1, TermCheck(t));
    var u2 := Step(u1, TermCheck(t));
    LeadsThen(s, u2, TermDelete(t));
    var u3 := Step(u2, TermDelete(t));
    LeadsThen(s, u3, TermClose(t));
    var u4 := Step(u3, TermClose(t));
    LeadsThen(s, u4, TermUnlink(t));
    LeadsThen(s, Step(u4, TermUnlink(t)), TermUnlock(t));
  }

  /**
   The race is always there: whenever a CRIU call has looked its controller up and some termination of it
   is waiting too, the termination may run first, and the call then locks a controller that its hooks
   will not find.
   */
  lemma RaceIsPossible(s: State, h: Actor, t: Actor, c: Obj)
    requires c in s.objs && !s.objs[c].terminating && s.objs[c].lock.None?
    requires h in s.sessions && s.sessions[h] == Hooked(c, false)
    requires t in s.terms && s.terms[t] == Terminating.Terminating(c, Found)
    ensures Enabled(s, TermLock(t)) && Enabled(Terminated(s, t), SessionLock(h))
    ensures var u := Step(Terminated(s, t), SessionLock(h));
            InSession(u, h, c) && !Sees(u, IdOf(s, c), c)
  {
    TerminatedEffect(s, t);
  }

  const SPAWNED := State(map[0 := NewController("a")], map["a" := 0], {}, {"a"}, map[], map[], {}, map[])

  lemma SpawnedIsReached()
    ensures Leads(INITIAL, SPAWNED)
  {
    LeadsToItself(INITIAL);
    LeadsThen(INITIAL, INITIAL, Spawn("a", 0));
    assert Step(INITIAL, Spawn("a", 0)) == SPAWNED;
  }

  // A run in which it happens
  lemma RaceHappens() returns (u: State)
    ensures Leads(INITIAL, u) && InSession(u, 0, 0) && !Sees(u, "a", 0)
  {
    SpawnedIsReached();
    LeadsThen(INITIAL, SPAWNED, SessionGet(0, "a"));
    var s := Step(SPAWNED, SessionGet(0, "a"));
    LeadsThen(INITIAL, s, TermGet(1, "a"));
    s := Step(s, TermGet(1, "a"));
    RaceIsPossible(s, 0, 1, 0);
    TerminatedLeads(INITIAL, s, 1);
    LeadsThen(INITIAL, Terminated(s, 1), SessionLock(0));
    u := Step(Terminated(s, 1), SessionLock(0));
  }

  /******* Rediscovery *******/

  // Nothing is left from which the pool could rediscover the id
  predicate Retired(s: State, id: Id) {
    id in s.used && id !in s.pool && id !in s.sockets && id !in s.syncing
  }

  lemma StepKeepsRetired(s: State, e: Event, u: State, id: Id)
    requires Enabled(s, e) && u == Step(s, e) && Retired(s, id)
    ensures Retired(u, id)
  {
  }

  lemma {:induction false} RetiredStays(states: seq<State>, events: seq<Event>, i: nat, j: nat, id: Id)
    requires IsPath(states, events) && i <= j < |states| && Retired(states[i], id)
    ensures Retired(states[j], id)
  {
    if i < j {
      RetiredStays(states, events, i, j - 1, id);
      assert Follows(states, events, j - 1);
      StepKeepsRetired(states[j - 1], events[j - 1], states[j], id);
    }
  }

  // The pool may have the id, now or later
  ghost predicate MayBeFound(s: State, id: Id) {
    exists u :: Leads(s, u) && id in u.pool
  }

  /**
   An id that has been in use may be found in the pool, now or after some events, exactly if it is there,
   its socket file is, or the running sync has still to store it.
   */
  lemma FoundAgainIff(s: State, id: Id)
    requires id in s.used
    ensures MayBeFound(s, id) <==> id in s.pool || id in s.sockets || id in s.syncing
  {
    if Retired(s, id) {
      forall u | Leads(s, u) ensures id !in u.pool {
        var states, events :| IsPath(states, events) && states[0] == s && states[|events|] == u;
        RetiredStays(states, events, 0, |events|, id);
      }
    } else {
      LeadsToItself(s);
      if id !in s.pool {
        if id in s.syncing {
          LeadsThen(s, s, SyncStore(id));
          assert id in Step(s, SyncStore(id)).pool;
        } else {
          var u := Rediscovers(s, s, id);
        }
      }
    }
  }

  // A sync that comes to its end and then another find what the socket file announces
  lemma {:induction false} Rediscovers(s: State, u: State, id: Id) returns (v: State)
    requires Leads(s, u) && id in u.sockets
    ensures Leads(s, v) && id in v.pool
    decreases |u.syncing.Keys| + |u.listed|
  {
    if id in u.pool {
      v := u;
    } else if u.syncing != map[] {
      var x :| x in u.syncing;
      LeadsThen(s, u, SyncStore(x));
      assert (u.syncing - {x}).Keys == u.syncing.Keys - {x};
      v := Rediscovers(s, Step(u, SyncStore(x)), id);
    } else if u.listed != {} {
      var x :| x in u.listed;
      LeadsThen(s, u, SyncSkip(x));
      v := Rediscovers(s, Step(u, SyncSkip(x)), id);
    } else {
      LeadsThen(s, u, SyncStart);
      v := NextSync(s, Step(u, SyncStart), id);
    }
  }

  lemma NextSync(s: State, u: State, id: Id) returns (v: State)
    requires Leads(s, u) && id in u.sockets && id in u.listed && id !in u.pool
    ensures Leads(s, v) && id in v.pool
  {
    var c := NewObj(u.objs.Keys);
    LeadsThen(s, u, SyncSee(id, c));
    var w := Step(u, SyncSee(id, c));
    LeadsThen(s, w, SyncStore(id));
    v := Step(w, SyncStore(id));
  }

  lemma {:induction false} NewObj(objs: set<Obj>) returns (c: Obj)
    ensures forall o :: o in objs ==> o < c
    decreases |objs|
  {
    if objs == {} {
      c := 0;
    } else {
      var o :| o in objs;
      var d := NewObj(objs - {o});
      assert forall x :: x in objs ==> x == o || x in objs - {o};
      c := if d <= o then o + 1 else d;
    }
  }

  // The pool has a dead controller, and no termination of it will do anything
  predicate Undead(s: State, id: Id, c: Obj) {
    && id in s.pool && s.pool[id] == c && c in s.objs && s.objs[c].terminating
    && forall t :: t in s.terms && s.terms[t].c == c ==> !HasBegun(s.terms[t].at)
  }

  lemma StepKeepsUndead(s: State, e: Event, id: Id, c: Obj)
    requires Inv(s) && Enabled(s, e) && Undead(s, id, c)
    ensures Undead(Step(s, e), id, c)
  {
    EventFacts(s, e);
    assert IdOk(s, id);
    if e.TermDelete? {
      assert TermOk(s, e.t) && ObjOk(s, s.terms[e.t].c);
      assert IdOf(s, s.terms[e.t].c) != id;
    }
  }

  lemma {:induction false} UndeadStays(states: seq<State>, events: seq<Event>, i: nat, j: nat, id: Id, c: Obj)
    requires IsPath(states, events) && i <= j < |states| && Inv(states[i]) && Undead(states[i], id, c)
    ensures Inv(states[j]) && Undead(states[j], id, c)
  {
    if i < j {
      UndeadStays(states, events, i, j - 1, id, c);
      assert Follows(states, events, j - 1);
      StepKeepsInv(states[j - 1], events[j - 1]);
      StepKeepsUndead(states[j - 1], events[j - 1], id, c);
    }
  }

  /**
   After the termination of a controller its id may be found again exactly if the running sync has still to
   store it. If so, storing it puts the dead controller back, and no events whatever remove it again:
   every later termination sees its flag and returns.
   */
  lemma TerminatedComesBackIff(s: State, t: Actor)
    requires Inv(s) && Enabled(s, TermLock(t)) && !s.objs[s.terms[t].c].terminating
    ensures var c := s.terms[t].c;
            var id := IdOf(s, c);
            var u := Terminated(s, t);
            && (MayBeFound(u, id) <==> id in s.syncing)
            && (id in s.syncing ==>
                && Enabled(u, SyncStore(id))
                && forall v :: Leads(Step(u, SyncStore(id)), v) ==> Undead(v, id, c))
  {
    var c := s.terms[t].c;
    var id := IdOf(s, c);
    var u := Terminated(s, t);
    TerminatedEffect(s, t);
    assert TermOk(s, t) && ObjOk(s, c) && IdOk(s, id);
    FoundAgainIff(u, id);
    if id in s.syncing {
      StoredBack(s, t);
      var w := Step(u, SyncStore(id));
      forall v | Leads(w, v) ensures Undead(v, id, c) {
        var states, events :| IsPath(states, events) && states[0] == w && states[|events|] == v;
        UndeadStays(states, events, 0, |events|, id, c);
      }
    }
  }

  lemma StoredBack(s: State, t: Actor)
    requires Inv(s) && Enabled(s, TermLock(t)) && !s.objs[s.terms[t].c].terminating && IdOf(s, s.terms[t].c) in s.syncing
    ensures var id := IdOf(s, s.terms[t].c);
            var u := Terminated(s, t);
            Enabled(u, SyncStore(id)) && Inv(Step(u, SyncStore(id))) && Undead(Step(u, SyncStore(id)), id, s.terms[t].c)
  {
    var c := s.terms[t].c;
    var id := IdOf(s, c);
    TerminatedEffect(s, t);
    TerminatedInv(s, t);
    var u := Terminated(s, t);
    StepKeepsInv(u, SyncStore(id));
    assert ObjOk(s, c) && IdOk(s, id) && s.syncing[id] == c;
    forall r | r in u.terms && u.terms[r].c == c ensures !HasBegun(u.terms[r].at) {
      assert TermOk(s, r);
    }
  }

  lemma TerminatedInv(s: State, t: Actor)
    requires Inv(s) && Enabled(s, TermLock(t)) && !s.objs[s.terms[t].c].terminating
    ensures Inv(Terminated(s, t))
  {
    LockAndCheck(s, t);
    StepKeepsInv(s, TermLock(t));
    var s1 := Step(s, TermLock(t));
    StepKeepsInv(s1, TermCheck(t));
    var s2 := Step(s1, TermCheck(t));
    StepKeepsInv(s2, TermDelete(t));
    var s3 := Step(s2, TermDelete(t));
    StepKeepsInv(s3, TermClose(t));
    var s4 := Step(s3, TermClose(t));
    StepKeepsInv(s4, TermUnlink(t));
    StepKeepsInv(Step(s4, TermUnlink(t)), TermUnlock(t));
  }

  // The same at the end of a termination that others did come between, in any run
  lemma UnlockedComesBackIff(states: seq<State>, events: seq<Event>, k: nat, t: Actor)
    requires IsRun(states, events) && k < |events| && events[k] == TermUnlock(t)
    ensures At(states[k], t, Unlinked)
    ensures var s := states[k];
            var id := IdOf(s, s.terms[t].c);
            MayBeFound(states[k + 1], id) <==> id in s.pool || id in s.sockets || id in s.syncing
  {
    RunKeepsInv(states, events, k);
    assert Follows(states, events, k);
    EventFacts(states[k], events[k]);
    FoundAgainIff(states[k + 1], IdOf(states[k], states[k].terms[t].c));
  }

  // A termination has looked up a controller that the running sync has still to store
  const STORING := State(map[0 := NewController("a")], map["a" := 0], {"a"}, {"a"},
                         map[0 := Terminating.Terminating(0, Found)], map[], {}, map["a" := 0])

  lemma StoringIsReached()
    ensures Leads(INITIAL, STORING)
  {
    SpawnedIsReached();
    LeadsThen(INITIAL, SPAWNED, SocketAppears("a"));
    var s1 := SPAWNED.(sockets := {"a"});
    assert Step(SPAWNED, SocketAppears("a")) == s1;
    LeadsThen(INITIAL, s1, SyncStart);
    var s2 := s1.(listed := {"a"});
    LeadsThen(INITIAL, s2, SyncSee("a", 0));
    var s3 := s1.(syncing := map["a" := 0]);
    assert Step(s2, SyncSee("a", 0)) == s3;
    LeadsThen(INITIAL, s3, TermGet(0, "a"));
    assert Step(s3, TermGet(0, "a")) == STORING;
  }

  // A run in which a sync stores a controller after its termination: the controller is there to stay
  lemma DeadComesBack() returns (w: State)
    ensures Leads(INITIAL, w) && 0 in w.objs && w.objs[0].closed == 1 && w.sockets == {} && w.terms == map[]
    ensures forall v :: Leads(w, v) ==> Undead(v, "a", 0)
  {
    StoringIsReached();
    ReachedInv(STORING);
    TerminatedComesBackIff(STORING, 0);
    TerminatedEffect(STORING, 0);
    TerminatedLeads(INITIAL, STORING, 0);
    var u := Terminated(STORING, 0);
    LeadsThen(INITIAL, u, SyncStore("a"));
    w := Step(u, SyncStore("a"));
  }

  lemma ReachedInv(s: State)
    requires Leads(INITIAL, s)
    ensures Inv(s)
  {
    var states, events :| IsPath(states, events) && states[0] == INITIAL && states[|events|] == s;
    RunKeepsInv(states, events, |events|);
  }
}
