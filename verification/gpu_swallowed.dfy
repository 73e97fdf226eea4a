/**
 Where the GPU callback falls short, as whole CRIU calls: a failed restore that nobody hears of, a termination
 lock that stays taken, a GPU that stays frozen.
 */
module GpuSwallowed {
  import opened CriuDriver
  import opened CriuBracketing
  import opened CriuView
  import opened CriuReplay
  import opened GpuRestores
  import opened GpuHooks
  import opened GpuRestoreLaws

  // The state of the GPU callback after a log
  function GpuAt(log: seq<Event>, me: Cb, world: World, leave: bool): Gpu {
    AtEnd(View(log, me), AnswersTo(View(log, me), world), leave)
  }

  // The oracle in which me answers as the GPU callback does in this world, and everyone else as before
  function Playing(oracle: Oracle, me: Cb, world: World, leave: bool): Oracle {
    (log: seq<Event>, hook: Hook, cb: Cb) =>
      var g := GpuAt(log, me, world, leave);
      if cb == me && !Blocks(Meanwhile(g, world(log)), hook) then Outcome(GpuStep(g, hook, world(log), leave).1, oracle(log, hook, cb).files)
      else oracle(log, hook, cb)
  }

  lemma PlayingObeys(oracle: Oracle, me: Cb, world: World, leave: bool)
    ensures Obeys(Playing(oracle, me, world, leave), me, world, leave)
  {
    forall log, hook
      ensures var g := AtEnd(View(log, me), AnswersTo(View(log, me), world), leave);
              Blocks(Meanwhile(g, world(log)), hook) || Playing(oracle, me, world, leave)(log, hook, me).err == GpuStep(g, hook, world(log), leave).1
    {
      assert GpuAt(log, me, world, leave) == AtEnd(View(log, me), AnswersTo(View(log, me), world), leave);
    }
  }

  // The world with one answer replaced
  function Answering(world: World, at: seq<Event>, a: Answer): World {
    (log: seq<Event>) => if log == at then a else world(log)
  }

  /******* A failure that is lost is invisible *******/

  lemma LoggedIsViewed(log: seq<Event>, me: Cb, k: nat) returns (m: nat)
    requires k < |log| && log[k].Ran? && log[k].cb == me
    ensures m < |View(log, me)| && View(log, me)[m].at == log[..k] && View(log, me)[m].hook == log[k].hook
    decreases |log|
  {
    var n := |log| - 1;
    if k == n {
      m := |View(log[..n], me)|;
    } else {
      m := LoggedIsViewed(log[..n], me, k);
      assert log[..n][..k] == log[..k];
    }
  }

  // Replacing the answer at one point of a log replaces one answer of its view
  lemma AnswersReplaced(log: seq<Event>, me: Cb, world: World, i: nat, a: Answer)
    requires i < |View(log, me)|
    ensures var v := View(log, me);
            AnswersTo(v, Answering(world, v[i].at, a)) == AnswersTo(v, world)[i := a]
  {
    var v := View(log, me);
    ViewIsLogged(log, me, i);
    forall m | 0 <= m < |v| && m != i ensures v[m].at != v[i].at {
      ViewIsLogged(log, me, m);
      assert |View(v[m].at, me)| == m && |View(v[i].at, me)| == i;
    }
  }

  // The state of the callback when it is asked its m-th hook
  lemma StateWhenAsked(log: seq<Event>, me: Cb, world: World, leave: bool, m: nat)
    requires m < |View(log, me)|
    ensures var v := View(log, me);
            GpuAt(v[m].at, me, world, leave) == After(v, AnswersTo(v, world), leave, m)
  {
    var v := View(log, me);
    ViewIsLogged(log, me, m);
    assert AnswersTo(v[..m], world) == AnswersTo(v, world)[..m];
    AfterPrefix(v, AnswersTo(v, world), leave, m, m);
  }

  lemma AgreesOnReplaced(log: seq<Event>, oracle: Oracle, me: Cb, world: World, leave: bool, i: nat, j: nat, m: nat, k: nat)
    requires Obeys(oracle, me, world, leave) && k < |log|
    requires ReplacedAt(View(log, me), i, j) && SmoothRun(View(log, me), AnswersTo(View(log, me), world), leave)
    requires var before := world(View(log, me)[i].at).before; m < |before| && before[m].Fails?
    ensures var at := View(log, me)[i].at;
            AgreeAt(log, k, oracle, Playing(oracle, me, Answering(world, at, Instead(world(at), m)), leave))
  {
    var v := View(log, me);
    var a := Instead(world(v[i].at), m);
    var world' := Answering(world, v[i].at, a);
    if log[k].Ran? && log[k].cb == me {
      var n := LoggedIsViewed(log, me, k);
      AnswersReplaced(log, me, world, i, a);
      StateWhenAsked(log, me, world, leave, n);
      StateWhenAsked(log, me, world', leave, n);
      SameAnswers(v, AnswersTo(v, world), leave, i, j, m, n);
      var g := GpuAt(v[n].at, me, world, leave);
      assert Blocks(Meanwhile(g, world(v[n].at)), v[n].hook)
          || oracle(v[n].at, v[n].hook, me).err == GpuStep(g, v[n].hook, world(v[n].at), leave).1;
      assert AnswersTo(v, world')[n] == world'(v[n].at) && AnswersTo(v, world)[n] == world(v[n].at);
    }
  }

  // A replacement is not after the finalize hook, so nothing touches the channel before it
  lemma ReplacedSomewhere(v: seq<Saw>, story: Story, i: nat) returns (j: nat)
    requires Tells(v, ReqRestore, story) && Overwritten(v, i)
    ensures ReplacedAt(v, i, j)
  {
    j :| i <= j < |v| && v[j].hook.PreRestore? && forall l :: i <= l < j ==> !v[l].hook.PreResume?;
  }

  /**
   A failure is lost when it was sent before a pre-restore hook that replaced the channel, with nobody
   having received from it: had the restore succeeded instead, the CRIU call would have had the same log,
   error and response.
   */
  lemma OverwrittenIsInvisible(cbs: seq<Cb>, replies: seq<Reply>, cleaned: Err, oracle: Oracle, before: seq<Cb>,
                               me: Cb, after: seq<Cb>, world: World, leave: bool, i: nat, m: nat)
    requires Registered(cbs, before, me, after) && Obeys(oracle, me, world, leave)
    requires var v := View(DoSwrkWithResp(ReqRestore, Some(cbs), replies, NIL, cleaned, oracle).log, me);
             var ans := AnswersTo(v, world);
             FailsAt(v, ans, leave, i, m) && SmoothRun(v, ans, leave) && Overwritten(v, i)
    ensures var r := DoSwrkWithResp(ReqRestore, Some(cbs), replies, NIL, cleaned, oracle);
            var v := View(r.log, me);
            var world' := Answering(world, v[i].at, Instead(world(v[i].at), m));
            && Obeys(Playing(oracle, me, world', leave), me, world', leave)
            && SmoothRun(v, AnswersTo(v, world'), leave)
            && DoSwrkWithResp(ReqRestore, Some(cbs), replies, NIL, cleaned, Playing(oracle, me, world', leave)) == r
  {
    var r := DoSwrkWithResp(ReqRestore, Some(cbs), replies, NIL, cleaned, oracle);
    var v := View(r.log, me);
    var a := Instead(world(v[i].at), m);
    var world' := Answering(world, v[i].at, a);
    PlayingObeys(oracle, me, world', leave);
    var story := CallbackStory(ReqRestore, cbs, replies, cleaned, oracle, before, me, after);
    var j := ReplacedSomewhere(v, story, i);
    AnswersReplaced(r.log, me, world, i, a);
    var ans := AnswersTo(v, world');
    forall n | 0 <= n < |v| ensures SmoothAt(v, ans, leave, n) {
      SameAnswers(v, AnswersTo(v, world), leave, i, j, m, n);
    }
    forall k | 0 <= k < |r.log| ensures AgreeAt(r.log, k, oracle, Playing(oracle, me, world', leave)) {
      AgreesOnReplaced(r.log, oracle, me, world, leave, i, j, m, k);
    }
    CallDependsOnAnswers(ReqRestore, cbs, replies, cleaned, oracle, Playing(oracle, me, world', leave));
  }

  /******* Calls with the GPU callback alone *******/

  const ME: Cb := 0
  const QUIET: Oracle := (log: seq<Event>, hook: Hook, cb: Cb) => Outcome(NIL, [])

  function Alone(world: World): Oracle {
    Playing(QUIET, ME, world, false)
  }

  lemma GpuAtSkips(log: seq<Event>, e: Event, world: World)
    requires !e.Ran?
    ensures GpuAt(log + [e], ME, world, false) == GpuAt(log, ME, world, false)
  {
    assert (log + [e])[..|log|] == log;
    assert View(log + [e], ME) == View(log, ME);
  }

  lemma FinalAppend(v: seq<Saw>, ans: seq<Answer>, x: Saw, a: Answer)
    requires |ans| == |v|
    ensures AtEnd(v + [x], ans + [a], false) == GpuStep(AtEnd(v, ans, false), x.hook, a, false).0
  {
    AfterPrefix(v + [x], ans + [a], false, |v|, |v|);
    assert (v + [x])[..|v|] == v && (ans + [a])[..|v|] == ans;
  }

  lemma ViewRan(log: seq<Event>, hook: Hook, err: Err)
    ensures View(log + [Ran(hook, ME, err, [])], ME) == View(log, ME) + [Saw(hook, log, err)]
  {
    assert (log + [Ran(hook, ME, err, [])])[..|log|] == log;
  }

  lemma AnswersAppend(v: seq<Saw>, x: Saw, world: World)
    ensures AnswersTo(v + [x], world) == AnswersTo(v, world) + [world(x.at)]
  {
  }

  lemma GpuAtRan(log: seq<Event>, hook: Hook, err: Err, world: World)
    ensures GpuAt(log + [Ran(hook, ME, err, [])], ME, world, false)
         == GpuStep(GpuAt(log, ME, world, false), hook, world(log), false).0
  {
    var v, x := View(log, ME), Saw(hook, log, err);
    ViewRan(log, hook, err);
    AnswersAppend(v, x, world);
    FinalAppend(v, AnswersTo(v, world), x, world(log));
  }

  // One hook call: what it answers, and the state it leaves
  lemma OneCall(hook: Hook, log: seq<Event>, world: World)
    requires !Blocks(Meanwhile(GpuAt(log, ME, world, false), world(log + [Called(hook)])), hook)
    ensures var (g, err) := GpuStep(GpuAt(log, ME, world, false), hook, world(log + [Called(hook)]), false);
            var r := Call([ME], hook, log, Alone(world));
            && r == Hooked(log + [Called(hook)] + [Ran(hook, ME, err, [])] + [Returned(hook, err)], err, [])
            && GpuAt(r.log, ME, world, false) == g
  {
    var start := log + [Called(hook)];
    GpuAtSkips(log, Called(hook), world);
    var err := GpuStep(GpuAt(log, ME, world, false), hook, world(start), false).1;
    assert Alone(world)(start, hook, ME) == Outcome(err, []);
    var ran := start + [Ran(hook, ME, err, [])];
    assert Fan([], hook, ran, Alone(world)) == Hooked(ran, NIL, []);
    assert [ME][..0] == [];
    assert Fan([ME], hook, start, Alone(world)) == Hooked(ran, err, []);
    GpuAtRan(start, hook, err, world);
    GpuAtSkips(ran, Returned(hook, err), world);
  }

  // Both initialize hooks
  lemma Openings(req: Req, world: World)
    requires !req.ReqOther?
    ensures var i := Call([ME], Initialize, [Prepared], Alone(world));
            var j := Call([ME], InitializeFor(req).value, i.log, Alone(world));
            var (g, err) := GpuStep(START, InitializeFor(req).value, world(i.log + [Called(InitializeFor(req).value)]), false);
            i.err == NIL && |i.log| == 4 && j.err == err && |j.log| == 7 && GpuAt(j.log, ME, world, false) == g
  {
    assert View([Prepared], ME) == [] by { assert [Prepared][..0] == []; }
    assert GpuAt([Prepared], ME, world, false) == START;
    OneCall(Initialize, [Prepared], world);
    NoneGoes(world([Prepared] + [Called(Initialize)]).before);
    OneCall(InitializeFor(req).value, Call([ME], Initialize, [Prepared], Alone(world)).log, world);
  }

  /******* A failed restore nobody hears of *******/

  const PRE_RESTORE := Notify("pre-restore", 0, Fd(0))

  // The log once a pre-restore notification is acknowledged
  function Restored(log: seq<Event>): seq<Event> {
    log + [Called(PreRestore)] + [Ran(PreRestore, ME, NIL, [])] + [Returned(PreRestore, NIL)] + [Acked("pre-restore", [])]
  }

  lemma PreRestoreHandled(log: seq<Event>, world: World)
    ensures Handle([ME], PRE_RESTORE, log, Alone(world)) == Hooked(Restored(log)[..|log| + 3], NIL, [])
    ensures GpuAt(Restored(log), ME, world, false)
         == GpuStep(GpuAt(log, ME, world, false), PreRestore, world(log + [Called(PreRestore)]), false).0
  {
    OneCall(PreRestore, log, world);
    var c := Call([ME], PreRestore, log, Alone(world));
    GpuAtSkips(c.log, Acked("pre-restore", []), world);
    assert c.log + [Acked("pre-restore", [])] == Restored(log) && Restored(log)[..|log| + 3] == c.log;
    assert PRE_RESTORE.script != ORPHAN by { assert |PRE_RESTORE.script| != |ORPHAN|; }
    assert HookFor(PRE_RESTORE.script, 0) == Some(PreRestore);
  }

  lemma PreRestoreReply(rest: seq<Reply>, log: seq<Event>, world: World)
    ensures Loop(Some([ME]), [PRE_RESTORE] + rest, log, Alone(world)) == Loop(Some([ME]), rest, Restored(log), Alone(world))
  {
    PreRestoreHandled(log, world);
    assert ([PRE_RESTORE] + rest)[0] == PRE_RESTORE && ([PRE_RESTORE] + rest)[1..] == rest;
    assert Restored(log)[..|log| + 3] + [Acked("pre-restore", [])] == Restored(log);
  }

  const TWICE := [PRE_RESTORE, PRE_RESTORE, Reply.Final(ReqRestore)]

  // The restores once CRIU has called pre-restore twice
  function Twice(world: World, log: seq<Event>): Restores {
    var r := Goes(GpuAt(log, ME, world, false).restore, world(log + [Called(PreRestore)]).before);
    Make(Goes(Make(r), world(Restored(log) + [Called(PreRestore)]).before))
  }

  lemma TwoPreRestores(log: seq<Event>, world: World)
    ensures Loop(Some([ME]), TWICE, log, Alone(world)) == Result(Restored(Restored(log)), NIL, Some(Reply.Final(ReqRestore)))
  {
    var done := [Reply.Final(ReqRestore)];
    assert TWICE == [PRE_RESTORE] + ([PRE_RESTORE] + done);
    PreRestoreReply([PRE_RESTORE] + done, log, world);
    PreRestoreReply(done, Restored(log), world);
  }

  lemma TwiceRestored(log: seq<Event>, world: World)
    ensures GpuAt(Restored(Restored(log)), ME, world, false) == GpuAt(log, ME, world, false).(restore := Twice(world, log))
  {
    PreRestoreHandled(log, world);
    PreRestoreHandled(Restored(log), world);
  }

  // The restores when finalize, called after the two hooks, answers
  function Waited(world: World, log: seq<Event>): Restores {
    Goes(Twice(world, log), world(Restored(Restored(log)) + [Called(FinalizeRestore(NIL))]).before)
  }

  // Where the loop begins
  function Begun(world: World): seq<Event> {
    Call([ME], InitializeRestore, Call([ME], Initialize, [Prepared], Alone(world)).log, Alone(world)).log
  }

  // A finalize hook that need not wait any more
  lemma FinalizeHears(log: seq<Event>, world: World, r: Restores)
    requires r == Goes(GpuAt(log, ME, world, false).restore, world(log + [Called(FinalizeRestore(NIL))]).before)
    requires r.chans != [] && Ready(r)
    ensures var c := Call([ME], FinalizeRestore(NIL), log, Alone(world));
            c.err == Heard(r) && GpuAt(c.log, ME, world, false).restore == Receive(r)
  {
    OneCall(FinalizeRestore(NIL), log, world);
  }

  lemma TwiceEnds(log: seq<Event>, world: World)
    requires Ready(Waited(world, log))
    ensures var b := Body(ReqRestore, [ME], TWICE, log, Alone(world));
            && b.err == Heard(Waited(world, log))
            && GpuAt(b.log, ME, world, false).restore == Receive(Waited(world, log))
  {
    TwoPreRestores(log, world);
    TwiceRestored(log, world);
    GoesKeeps(Twice(world, log), world(Restored(Restored(log)) + [Called(FinalizeRestore(NIL))]).before);
    FinalizeHears(Restored(Restored(log)), world, Waited(world, log));
  }

  lemma TwiceBegins(world: World)
    requires forall log :: world(log).found
    ensures |Begun(world)| == 7 && GpuAt(Begun(world), ME, world, false) == START.(locked := 1)
  {
    Openings(ReqRestore, world);
    NoneGoes(world(Call([ME], Initialize, [Prepared], Alone(world)).log + [Called(InitializeRestore)]).before);
  }

  // A whole restore of one GPU process in which CRIU calls pre-restore twice
  lemma TwiceCall(world: World)
    requires (forall log :: world(log).found) && Ready(Waited(world, Begun(world)))
    ensures Obeys(Alone(world), ME, world, false)
    ensures var r := DoSwrkWithResp(ReqRestore, Some([ME]), TWICE, NIL, NIL, Alone(world));
            && r.err == Heard(Waited(world, Begun(world)))
            && GpuAt(r.log, ME, world, false).restore == Receive(Waited(world, Begun(world)))
  {
    PlayingObeys(QUIET, ME, world, false);
    Openings(ReqRestore, world);
    TwiceBegins(world);
    SessionIs(ReqRestore, [ME], TWICE, [Prepared], Alone(world));
    TwiceEnds(Begun(world), world);
    GpuAtSkips(Body(ReqRestore, [ME], TWICE, Begun(world), Alone(world)).log, CleanedUp, world);
  }

  const SECOND_ENDS := [Starts(1), Succeeds(1), Closes(1)]

  // What the restores do before the second pre-restore hook, and before finalize
  function Schedule(first: seq<Step>, second: seq<Step>): World {
    (log: seq<Event>) => Answer(true, NIL, if |log| == 12 then first else if |log| == 16 then second else [])
  }

  function Scheduled(first: seq<Step>, second: seq<Step>): Restores {
    Goes(Make(Goes(Make(NONE), first)), second)
  }

  lemma ScheduledCall(first: seq<Step>, second: seq<Step>)
    requires Ready(Scheduled(first, second))
    ensures var world := Schedule(first, second);
            var r := DoSwrkWithResp(ReqRestore, Some([ME]), TWICE, NIL, NIL, Alone(world));
            && Obeys(Alone(world), ME, world, false) && r.err == Heard(Scheduled(first, second))
            && GpuAt(r.log, ME, world, false).restore == Receive(Scheduled(first, second))
  {
    var world := Schedule(first, second);
    TwiceBegins(world);
    ScheduledWaits(first, second, Begun(world));
    TwiceCall(world);
  }

  lemma ScheduledWaits(first: seq<Step>, second: seq<Step>, log: seq<Event>)
    requires |log| == 7 && GpuAt(log, ME, Schedule(first, second), false).restore == NONE
    ensures Waited(Schedule(first, second), log) == Scheduled(first, second)
  {
    var world := Schedule(first, second);
    assert |log + [Called(PreRestore)]| == 8 && |Restored(log) + [Called(PreRestore)]| == 12;
    assert |Restored(Restored(log)) + [Called(FinalizeRestore(NIL))]| == 16;
    assert world(log + [Called(PreRestore)]).before == [];
  }

  lemma TwoGo(r: Restores, a: Step, b: Step)
    ensures Goes(r, [a, b]) == Go(Go(r, a), b)
  {
    OneGo(r, a);
    assert [a, b][..1] == [a];
  }

  lemma ThreeGo(r: Restores, a: Step, b: Step, c: Step)
    ensures Goes(r, [a, b, c]) == Go(Go(Go(r, a), b), c)
  {
    TwoGo(r, a, b);
    assert [a, b, c][..2] == [a, b];
  }

  // The second restore runs and succeeds beside a first that has started at least
  lemma SecondEnds(c: Chan, d: Chan, ph: Phase)
    requires !d.closed && |d.values| <= 1
    ensures Goes(Restores([c, d], [ph, Spawned], false), SECOND_ENDS) == Restores([c, d.(closed := true)], [ph, Done], false)
  {
    var r := Restores([c, d], [ph, Spawned], false);
    ThreeGo(r, Starts(1), Succeeds(1), Closes(1));
    assert Go(r, Starts(1)) == Restores([c, d], [ph, Running(1)], false);
    assert Go(Go(r, Starts(1)), Succeeds(1)) == Restores([c, d], [ph, Leaving(1, None)], false);
  }

  const FAILED := Chan([Sent([9], 0)], true)
  const FIRST_FAILS := [Starts(0), Fails(0, [9]), Closes(0)]

  lemma FirstFails()
    ensures Make(Goes(Make(NONE), FIRST_FAILS)) == Restores([FAILED, OPEN], [Done, Spawned], false)
  {
    var r := Make(NONE);
    ThreeGo(r, Starts(0), Fails(0, [9]), Closes(0));
    var r1 := Restores([OPEN], [Running(0)], false);
    var r2 := Restores([Chan([Sent([9], 0)], false)], [Leaving(0, Some(0))], false);
    assert Go(r, Starts(0)) == r1;
    assert [] + [Sent([9], 0)] == [Sent([9], 0)];
    assert Go(r1, Fails(0, [9])).chans == r2.chans && Go(r1, Fails(0, [9])).phases == r2.phases;
    assert Go(r2, Closes(0)) == Restores([FAILED], [Done], false);
  }

  /**
   A restore of one GPU process, in which CRIU calls pre-restore twice and the GPU restore started the first
   time has failed by the second: the call returns no error, and the error is still in the first channel.
   */
  lemma SwallowedExample()
    ensures var world := Schedule(FIRST_FAILS, SECOND_ENDS);
            var r := DoSwrkWithResp(ReqRestore, Some([ME]), TWICE, NIL, NIL, Alone(world));
            && Obeys(Alone(world), ME, world, false) && r.err == NIL
            && GpuAt(r.log, ME, world, false).restore == Restores([FAILED, Chan([], true)], [Done, Done], false)
  {
    FirstFails();
    SecondEnds(FAILED, OPEN, Done);
    ScheduledCall(FIRST_FAILS, SECOND_ENDS);
  }

  // The first restore is still at it when CRIU calls pre-restore again
  lemma StillRunning()
    ensures Make(Goes(Make(NONE), [Starts(0)])) == Restores([OPEN, OPEN], [Running(0), Spawned], false)
  {
    OneGo(Make(NONE), Starts(0));
  }

  const THEN_FAILS := [Fails(0, [9]), Closes(0)]

  lemma ThenFails()
    ensures Goes(Restores([OPEN, OPEN], [Running(0), Spawned], false), THEN_FAILS)
         == Restores([Chan([], true), FAILED.(closed := false)], [Done, Spawned], false)
  {
    var r := Restores([OPEN, OPEN], [Running(0), Spawned], false);
    TwoGo(r, Fails(0, [9]), Closes(0));
    assert [] + [Sent([9], 0)] == [Sent([9], 0)];
    var r1 := Restores([OPEN, FAILED.(closed := false)], [Leaving(0, Some(1)), Spawned], false);
    assert Go(r, Fails(0, [9])).chans == r1.chans && Go(r, Fails(0, [9])).phases == r1.phases;
  }

  // In the same call, if the first restore fails after the second hook, its error is heard
  lemma LateFailureIsHeard()
    ensures var world := Schedule([Starts(0)], THEN_FAILS + SECOND_ENDS);
            var r := DoSwrkWithResp(ReqRestore, Some([ME]), TWICE, NIL, NIL, Alone(world));
            Obeys(Alone(world), ME, world, false) && r.err == [9]
  {
    StillRunning();
    ThenFails();
    SecondEnds(Chan([], true), FAILED.(closed := false), Done);
    GoesOn(Restores([OPEN, OPEN], [Running(0), Spawned], false), THEN_FAILS, SECOND_ENDS);
    ScheduledCall([Starts(0)], THEN_FAILS + SECOND_ENDS);
  }

  // If it fails only after the call, which returned no error, the daemon ends
  lemma LaterFailureCrashes(e: Failure)
    ensures var world := Schedule([Starts(0)], SECOND_ENDS);
            var r := DoSwrkWithResp(ReqRestore, Some([ME]), TWICE, NIL, NIL, Alone(world));
            var end := GpuAt(r.log, ME, world, false).restore;
            && Obeys(Alone(world), ME, world, false) && r.err == NIL
            && Enabled(end, Fails(0, e)) && Crashes(end, Fails(0, e))
  {
    StillRunning();
    SecondEnds(OPEN, OPEN, Running(0));
    ScheduledCall([Starts(0)], SECOND_ENDS);
  }

  /******* A lock that stays taken, a GPU that stays frozen *******/

  const FREEZE_FAILS: World := (log: seq<Event>) => Answer(true, [9], [])

  // A dump whose freeze fails returns an error and leaves the termination lock taken
  lemma LockLeaks()
    ensures Obeys(Alone(FREEZE_FAILS), ME, FREEZE_FAILS, false)
    ensures var r := DoSwrkWithResp(ReqDump, Some([ME]), [], NIL, NIL, Alone(FREEZE_FAILS));
            r.err == [9] && GpuAt(r.log, ME, FREEZE_FAILS, false).locked == 1
  {
    PlayingObeys(QUIET, ME, FREEZE_FAILS, false);
    Openings(ReqDump, FREEZE_FAILS);
    var j := Call([ME], InitializeDump, Call([ME], Initialize, [Prepared], Alone(FREEZE_FAILS)).log, Alone(FREEZE_FAILS));
    GpuAtSkips(j.log, CleanedUp, FREEZE_FAILS);
  }

  const ALL_WELL: World := (log: seq<Event>) => Answer(true, NIL, [])

  // A dump that CRIU refuses before pre-dump returns an error, is finalized, and leaves the GPU frozen
  lemma StaysFrozen()
    ensures Obeys(Alone(ALL_WELL), ME, ALL_WELL, false)
    ensures var r := DoSwrkWithResp(ReqDump, Some([ME]), [Failed], NIL, NIL, Alone(ALL_WELL));
            var g := GpuAt(r.log, ME, ALL_WELL, false);
            r.err == REFUSED && g.frozen && g.unfreezes == 0 && g.locked == 0
  {
    PlayingObeys(QUIET, ME, ALL_WELL, false);
    Openings(ReqDump, ALL_WELL);
    var j := Call([ME], InitializeDump, Call([ME], Initialize, [Prepared], Alone(ALL_WELL)).log, Alone(ALL_WELL));
    assert Loop(Some([ME]), [Failed], j.log, Alone(ALL_WELL)) == Result(j.log, REFUSED, Some(Failed));
    OneCall(FinalizeDump(REFUSED), j.log, ALL_WELL);
    var f := Call([ME], FinalizeDump(REFUSED), j.log, Alone(ALL_WELL));
    GpuAtSkips(f.log, CleanedUp, ALL_WELL);
  }
}
