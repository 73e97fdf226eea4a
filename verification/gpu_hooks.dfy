/**
 The callback that dumps and restores the GPU state of a process around a CRIU call. It holds the
 termination lock of its GPU controller from the initialize to the finalize hook, freezes the GPU before
 a dump, and runs the GPU dump or restore beside CRIU, passing the error through a one-shot channel.

 What the GPU controller answers, and how far the running GPU restores have come by the time of each hook,
 is arbitrary and may depend on everything that happened before.
 */
module GpuHooks {
  import opened CriuDriver
  import opened CriuBracketing
  import opened CriuView
  import opened GpuRestores

  const NOT_FOUND: Failure := [5]

  // The error channel of the dump: not made yet, with a result still to be received, or closed and empty
  datatype Channel = Unmade | Holding(result: Err) | Empty

  datatype Gpu = Gpu(
    locked: int,                 // times the termination lock was taken, less times it was released
    frozen: bool,
    dump: Channel,
    restore: Restores,
    restoredPid: Option<int>,
    unfreezes: nat,
    kills: seq<int>)

  // found: the pool has the controller; op: the error of the operation that the hook asks for; before: the
  // steps of the GPU restores between the last hook and this one, and while this one waits
  datatype Answer = Answer(found: bool, op: Err, before: seq<Step>)

  type World = seq<Event> -> Answer

  const START := Gpu(0, false, Unmade, NONE, None, 0, [])

  function DumpResult(c: Channel): Err {
    if c.Holding? then c.result else NIL
  }

  function Kill(g: Gpu): Gpu {
    if g.restoredPid.Some? then g.(kills := g.kills + [g.restoredPid.value]) else g
  }

  // The hook waits for ever: the channel it receives from gets no value and is not closed
  predicate Blocks(g: Gpu, hook: Hook) {
    || (hook.PreResume? && !Ready(g.restore))
    || (hook == FinalizeRestore(NIL) && g.restore.chans != [] && !Ready(g.restore))
  }

  function OnInitializeDump(g: Gpu, ans: Answer): (Gpu, Err) {
    if !ans.found then (g, NOT_FOUND)
    else if ans.op != NIL then (g.(locked := g.locked + 1), ans.op)
    else (g.(locked := g.locked + 1, frozen := true), NIL)
  }

  function OnFinalizeDump(g: Gpu, run: Err, ans: Answer, leaveRunning: bool): (Gpu, Err) {
    var u := g.(locked := g.locked - 1);
    if g.dump.Unmade? then (u, NIL)
    else if !leaveRunning && run == NIL then (u.(dump := Empty), DumpResult(g.dump))
    else (u.(dump := Empty, unfreezes := u.unfreezes + 1, frozen := u.frozen && ans.op != NIL), DumpResult(g.dump) + ans.op)
  }

  function OnPreResume(g: Gpu): (Gpu, Err) {
    var u := g.(restore := Receive(g.restore));
    (if Heard(g.restore) != NIL then Kill(u) else u, Heard(g.restore))
  }

  function OnFinalizeRestore(g: Gpu, run: Err): (Gpu, Err) {
    var u := g.(locked := g.locked - 1);
    if g.restore.chans == [] then (u, NIL)
    else if run != NIL then (Kill(u), NIL)
    else
      var w := u.(restore := Receive(g.restore));
      (if Heard(g.restore) != NIL then Kill(w) else w, Heard(g.restore))
  }

  // The hook itself
  function HookStep(g: Gpu, hook: Hook, ans: Answer, leaveRunning: bool): (Gpu, Err) {
    match hook
    case InitializeDump => OnInitializeDump(g, ans)
    // waits for the dump it starts, so nothing is left in the channel
    case PreDump => (g.(dump := Empty), ans.op)
    case PostDump => (g.(dump := if g.dump.Unmade? then Unmade else Empty), DumpResult(g.dump))
    case FinalizeDump(run) => OnFinalizeDump(g, run, ans, leaveRunning)
    case InitializeRestore => if ans.found then (g.(locked := g.locked + 1), NIL) else (g, NOT_FOUND)
    case PreRestore => (g.(restore := Make(g.restore)), NIL)
    case SkipNamespaces(pid) => (g.(restoredPid := Some(pid)), ans.op)
    case PostRestore(pid) => (g.(restoredPid := Some(pid)), ans.op)
    case PreResume => OnPreResume(g)
    case FinalizeRestore(run) => OnFinalizeRestore(g, run)
    case _ => (g, NIL)
  }

  // Where the GPU restores are when the hook answers
  function Meanwhile(g: Gpu, ans: Answer): Gpu {
    g.(restore := Goes(g.restore, ans.before))
  }

  function GpuStep(g: Gpu, hook: Hook, ans: Answer, leaveRunning: bool): (Gpu, Err) {
    HookStep(Meanwhile(g, ans), hook, ans, leaveRunning)
  }

  // The state after the first n hooks of a view, with these answers
  function After(v: seq<Saw>, ans: seq<Answer>, leave: bool, n: nat): Gpu
    requires |ans| == |v| && n <= |v|
  {
    if n == 0 then START else GpuStep(After(v, ans, leave, n - 1), v[n - 1].hook, ans[n - 1], leave).0
  }

  function AtEnd(v: seq<Saw>, ans: seq<Answer>, leave: bool): Gpu
    requires |ans| == |v|
  {
    After(v, ans, leave, |v|)
  }

  lemma {:induction false} AfterPrefix(v: seq<Saw>, ans: seq<Answer>, leave: bool, m: nat, n: nat)
    requires |ans| == |v| && n <= m <= |v|
    ensures After(v[..m], ans[..m], leave, n) == After(v, ans, leave, n)
  {
    if n > 0 { AfterPrefix(v, ans, leave, m, n - 1); }
  }

  function AnswersTo(v: seq<Saw>, world: World): seq<Answer> {
    seq(|v|, i requires 0 <= i < |v| => world(v[i].at))
  }

  // me is the GPU callback
  ghost predicate Obeys(oracle: Oracle, me: Cb, world: World, leave: bool) {
    forall log, hook ::
      var g := AtEnd(View(log, me), AnswersTo(View(log, me), world), leave);
      Blocks(Meanwhile(g, world(log)), hook) || oracle(log, hook, me).err == GpuStep(g, hook, world(log), leave).1
  }

  // The hook at i answers what the GPU callback answers
  predicate AnswerOk(v: seq<Saw>, ans: seq<Answer>, leave: bool, i: nat)
    requires |ans| == |v| && i < |v|
  {
    var g := After(v, ans, leave, i);
    Blocks(Meanwhile(g, ans[i]), v[i].hook) || v[i].err == GpuStep(g, v[i].hook, ans[i], leave).1
  }

  ghost predicate Consistent(v: seq<Saw>, ans: seq<Answer>, leave: bool) {
    |ans| == |v| && forall i :: 0 <= i < |v| ==> AnswerOk(v, ans, leave, i)
  }

  lemma RunIsConsistent(req: Req, cbs: seq<Cb>, replies: seq<Reply>, cleaned: Err, oracle: Oracle, me: Cb, world: World, leave: bool)
    requires Obeys(oracle, me, world, leave)
    ensures var v := View(DoSwrkWithResp(req, Some(cbs), replies, NIL, cleaned, oracle).log, me);
            Consistent(v, AnswersTo(v, world), leave)
  {
    var v := View(DoSwrkWithResp(req, Some(cbs), replies, NIL, cleaned, oracle).log, me);
    var ans := AnswersTo(v, world);
    forall i | 0 <= i < |v| ensures AnswerOk(v, ans, leave, i)
    {
      AnswerSurfaces(req, cbs, replies, cleaned, oracle, me, i);
      assert View(v[i].at, me) == v[..i];
      assert AnswersTo(v[..i], world) == ans[..i];
      AfterPrefix(v, ans, leave, i, i);
      assert ans[i] == world(v[i].at);
    }
  }

  /******* A dump that fails *******/

  /**
   If the GPU dump that a pre-dump hook starts fails, the whole CRIU call returns that error, whatever
   CRIU and the other callbacks do.
   */
  lemma DumpFailureSurfaces(req: Req, cbs: seq<Cb>, replies: seq<Reply>, cleaned: Err, oracle: Oracle, me: Cb,
                            world: World, leave: bool, i: nat)
    requires Obeys(oracle, me, world, leave)
    requires i < |View(DoSwrkWithResp(req, Some(cbs), replies, NIL, cleaned, oracle).log, me)|
    requires var v := View(DoSwrkWithResp(req, Some(cbs), replies, NIL, cleaned, oracle).log, me);
             v[i].hook.PreDump? && world(v[i].at).op != NIL
    ensures var r := DoSwrkWithResp(req, Some(cbs), replies, NIL, cleaned, oracle);
            Joined(world(View(r.log, me)[i].at).op, r.err) && r.err != NIL
  {
    RunIsConsistent(req, cbs, replies, cleaned, oracle, me, world, leave);
    var v := View(DoSwrkWithResp(req, Some(cbs), replies, NIL, cleaned, oracle).log, me);
    assert AnswerOk(v, AnswersTo(v, world), leave, i);
    AnswerSurfaces(req, cbs, replies, cleaned, oracle, me, i);
  }

  /******* The termination lock *******/

  // The hooks from m on before n are those of the loop
  ghost predicate InLoop(v: seq<Saw>, m: nat, n: nat)
    requires n <= |v|
  {
    forall i :: m <= i < n ==> !Bracket(v[i].hook)
  }

  ghost predicate NoPreDump(v: seq<Saw>, m: nat, n: nat)
    requires n <= |v|
  {
    forall i :: m <= i < n ==> !v[i].hook.PreDump?
  }

  lemma LoopStep(g: Gpu, hook: Hook, ans: Answer, leave: bool)
    requires !Bracket(hook)
    ensures var u := GpuStep(g, hook, ans, leave).0;
            && u.locked == g.locked && u.frozen == g.frozen && u.unfreezes == g.unfreezes
            && (u.dump.Unmade? <==> g.dump.Unmade? && !hook.PreDump?)
  {
  }

  lemma {:induction false} LoopKeepsLock(v: seq<Saw>, ans: seq<Answer>, leave: bool, m: nat, n: nat)
    requires |ans| == |v| && m <= n <= |v| && InLoop(v, m, n)
    ensures var g, g' := After(v, ans, leave, m), After(v, ans, leave, n);
            g'.locked == g.locked && g'.frozen == g.frozen && g'.unfreezes == g.unfreezes
            && (g.dump.Unmade? ==> (g'.dump.Unmade? <==> NoPreDump(v, m, n)))
  {
    if m < n {
      LoopKeepsLock(v, ans, leave, m, n - 1);
      LoopStep(After(v, ans, leave, n - 1), v[n - 1].hook, ans[n - 1], leave);
      assert NoPreDump(v, m, n) <==> NoPreDump(v, m, n - 1) && !v[n - 1].hook.PreDump?;
    }
  }

  lemma OpeningState(v: seq<Saw>, ans: seq<Answer>, leave: bool, req: Req, n: nat)
    requires |ans| == |v| && n <= |v| && n <= 2 && !req.ReqOther?
    requires n >= 1 ==> v[0].hook == Initialize
    requires n == 2 ==> v[1].hook == InitializeFor(req).value
    ensures var g := After(v, ans, leave, n);
            && g.locked == (if n == 2 && ans[1].found then 1 else 0)
            && (g.frozen <==> n == 2 && req.ReqDump? && ans[1].found && ans[1].op == NIL)
            && g.unfreezes == 0 && g.dump.Unmade?
  {
  }

  // The callback saw its initialize hook and found the controller, so it took the lock
  ghost predicate Acquired(v: seq<Saw>, ans: seq<Answer>, req: Req)
    requires |ans| == |v| && !req.ReqOther?
  {
    exists i :: 0 <= i < |v| && v[i].hook == InitializeFor(req).value && ans[i].found
  }

  // What a story leaves behind
  lemma StoryState(v: seq<Saw>, ans: seq<Answer>, leave: bool, req: Req, story: Story)
    requires !req.ReqOther? && Tells(v, req, story) && Consistent(v, ans, leave)
    ensures var g := AtEnd(v, ans, leave);
            var released := story.Whole? && story.finalized;
            && (g.locked == 0 || g.locked == 1)
            && (g.locked == 1 <==> Acquired(v, ans, req) && !released)
            && (released ==> Acquired(v, ans, req))
  {
    if story.Whole? {
      WholeState(v, ans, leave, req, story);
      assert v[1].hook == InitializeFor(req).value && ans[1].found;
    } else {
      TurnedState(v, ans, leave, req, story);
    }
  }

  lemma TurnedState(v: seq<Saw>, ans: seq<Answer>, leave: bool, req: Req, story: Story)
    requires !req.ReqOther? && Tells(v, req, story) && story.Turned? && |ans| == |v|
    ensures AtEnd(v, ans, leave).locked == if Acquired(v, ans, req) then 1 else 0
  {
    OpeningState(v, ans, leave, req, |v|);
    if |v| == 2 && ans[1].found { assert v[1].hook == InitializeFor(req).value; }
  }

  lemma WholeState(v: seq<Saw>, ans: seq<Answer>, leave: bool, req: Req, story: Story)
    requires !req.ReqOther? && Tells(v, req, story) && story.Whole? && Consistent(v, ans, leave)
    ensures ans[1].found && AtEnd(v, ans, leave).locked == if story.finalized then 0 else 1
  {
    var n := if story.finalized then |v| - 1 else |v|;
    FoundAt(v, ans, leave, req);
    OpeningState(v, ans, leave, req, 2);
    LoopKeepsLock(v, ans, leave, 2, n);
    if story.finalized {
      FinalizeReleases(After(v, ans, leave, n), v[n].hook, ans[n], leave);
    }
  }

  // An initialize hook that answered nil found the controller
  lemma FoundAt(v: seq<Saw>, ans: seq<Answer>, leave: bool, req: Req)
    requires Consistent(v, ans, leave) && |v| >= 2 && !req.ReqOther?
    requires v[1].hook == InitializeFor(req).value && v[1].err == NIL
    ensures ans[1].found
  {
    assert AnswerOk(v, ans, leave, 1);
  }

  lemma FinalizeReleases(g: Gpu, hook: Hook, ans: Answer, leave: bool)
    requires hook.FinalizeDump? || hook.FinalizeRestore?
    ensures GpuStep(g, hook, ans, leave).0.locked == g.locked - 1
  {
  }

  /**
   After every dump or restore the termination lock is free or held once. It is still held exactly when
   the callback took it and either some initialize hook failed, so that nobody was asked to finalize, or
   a callback registered later failed to finalize.
   */
  lemma LockLeaksIff(req: Req, cbs: seq<Cb>, replies: seq<Reply>, cleaned: Err, oracle: Oracle, before: seq<Cb>,
                     me: Cb, after: seq<Cb>, world: World, leave: bool)
    requires !req.ReqOther? && Registered(cbs, before, me, after) && Obeys(oracle, me, world, leave)
    ensures var r := DoSwrkWithResp(req, Some(cbs), replies, NIL, cleaned, oracle);
            var v := View(r.log, me);
            var ans := AnswersTo(v, world);
            var g := AtEnd(v, ans, leave);
            && (g.locked == 0 || g.locked == 1)
            && (g.locked == 1 <==>
                && Acquired(v, ans, req)
                && (Returned(InitializeFor(req).value, NIL) !in r.log || LaterFinalizerFails(r.log, after)))
  {
    var story := CallbackStory(req, cbs, replies, cleaned, oracle, before, me, after);
    RunIsConsistent(req, cbs, replies, cleaned, oracle, me, world, leave);
    var v := View(DoSwrkWithResp(req, Some(cbs), replies, NIL, cleaned, oracle).log, me);
    StoryState(v, AnswersTo(v, world), leave, req, story);
  }

  /******* Freezing *******/

  ghost predicate HasRun(v: seq<Saw>, hook: Hook) {
    exists i :: 0 <= i < |v| && v[i].hook == hook
  }

  // How often the GPU was unfrozen and whether it is frozen after a dump, if its last hook was finalize or not
  ghost predicate Thawed(v: seq<Saw>, ans: seq<Answer>, leave: bool, finalized: bool, run: Err)
    requires |ans| == |v|
  {
    var g := AtEnd(v, ans, leave);
    var unfroze := finalized && HasRun(v, PreDump) && (leave || run != NIL);
    && g.unfreezes == (if unfroze then 1 else 0)
    && (g.frozen <==> |v| >= 2 && ans[1].found && ans[1].op == NIL && !(unfroze && ans[|v| - 1].op == NIL))
  }

  lemma DumpStoryState(v: seq<Saw>, ans: seq<Answer>, leave: bool, story: Story)
    requires Tells(v, ReqDump, story) && Consistent(v, ans, leave)
    ensures Thawed(v, ans, leave, story.Whole? && story.finalized, if story.Whole? then story.run else NIL)
    ensures story.Whole? && story.finalized ==> |v| > 2 && v[|v| - 1].hook == FinalizeDump(story.run)
  {
    if story.Whole? {
      var n := if story.finalized then |v| - 1 else |v|;
      LoopFreezeState(v, ans, leave, n);
      assert HasRun(v, PreDump) <==> HasRun(v[..n], PreDump) by { PreDumpInLoop(v, n); }
      if story.finalized {
        UnfreezeStep(After(v, ans, leave, n), story.run, ans[n], leave);
      }
    } else {
      OpeningState(v, ans, leave, ReqDump, |v|);
    }
  }

  lemma PreDumpInLoop(v: seq<Saw>, n: nat)
    requires n == |v| || (n == |v| - 1 && !v[n].hook.PreDump?)
    ensures HasRun(v, PreDump) <==> HasRun(v[..n], PreDump)
  {
    if HasRun(v[..n], PreDump) {
      var i :| 0 <= i < n && v[..n][i].hook == PreDump;
      assert v[i].hook == PreDump;
    }
    if HasRun(v, PreDump) {
      var i :| 0 <= i < |v| && v[i].hook == PreDump;
      assert v[..n][i].hook == PreDump;
    }
  }

  // Before the finalize hook
  lemma LoopFreezeState(v: seq<Saw>, ans: seq<Answer>, leave: bool, n: nat)
    requires |ans| == |v| && 2 <= n <= |v| && v[0].hook == Initialize && v[1].hook == InitializeDump
    requires forall i :: 2 <= i < n ==> !Bracket(v[i].hook)
    ensures var g := After(v, ans, leave, n);
            && g.unfreezes == 0 && (g.frozen <==> ans[1].found && ans[1].op == NIL)
            && (g.dump.Unmade? <==> !HasRun(v[..n], PreDump))
  {
    OpeningState(v, ans, leave, ReqDump, 2);
    LoopKeepsLock(v, ans, leave, 2, n);
    if HasRun(v[..n], PreDump) {
      var i :| 0 <= i < n && v[..n][i].hook == PreDump;
      assert v[i].hook.PreDump?;
    } else {
      forall i | 2 <= i < n ensures !v[i].hook.PreDump? { assert v[..n][i] == v[i]; }
    }
  }

  lemma UnfreezeStep(g: Gpu, run: Err, ans: Answer, leave: bool)
    ensures var u := GpuStep(g, FinalizeDump(run), ans, leave).0;
            var asks := !g.dump.Unmade? && (leave || run != NIL);
            && u.unfreezes == g.unfreezes + (if asks then 1 else 0)
            && (u.frozen <==> g.frozen && !(asks && ans.op == NIL))
  {
  }

  /**
   Unfreeze is asked for at most once in a dump: exactly when the callback was finalized, its pre-dump
   hook had run, and the process is to be left running or the run failed. In particular never after a
   clean dump that stops the process. So the GPU stays frozen exactly when it was frozen and that
   request was not made or failed; a run that fails before pre-dump leaves it frozen.
   */
  lemma UnfreezeIff(cbs: seq<Cb>, replies: seq<Reply>, cleaned: Err, oracle: Oracle, before: seq<Cb>, me: Cb,
                    after: seq<Cb>, world: World, leave: bool)
    returns (story: Story)
    requires Registered(cbs, before, me, after) && Obeys(oracle, me, world, leave)
    ensures var r := DoSwrkWithResp(ReqDump, Some(cbs), replies, NIL, cleaned, oracle);
            var v := View(r.log, me);
            var finalized := Returned(InitializeDump, NIL) in r.log && !LaterFinalizerFails(r.log, after);
            && (finalized ==> story.Whole? && r.err == story.run + story.fin + cleaned
                              && |v| > 2 && v[|v| - 1].hook == FinalizeDump(story.run))
            && Thawed(v, AnswersTo(v, world), leave, finalized, if story.Whole? then story.run else NIL)
  {
    story := CallbackStory(ReqDump, cbs, replies, cleaned, oracle, before, me, after);
    RunIsConsistent(ReqDump, cbs, replies, cleaned, oracle, me, world, leave);
    var v := View(DoSwrkWithResp(ReqDump, Some(cbs), replies, NIL, cleaned, oracle).log, me);
    DumpStoryState(v, AnswersTo(v, world), leave, story);
  }

  /******* As the program runs it *******/

  // The closures of the callback and the variables they share
  class GpuCallback {
    var locked: int
    var frozen: bool
    var dumpErr: Channel
    var restoreErrs: seq<Chan>     // the channels made; restoreErr is the last
    var restores: seq<Phase>       // the goroutine of each
    var crashed: bool
    var restoredPid: Option<int>
    var unfreezes: nat
    var kills: seq<int>

    function State(): Gpu
      reads this
    {
      Gpu(locked, frozen, dumpErr, Restores(restoreErrs, restores, crashed), restoredPid, unfreezes, kills)
    }

    constructor ()
      ensures State() == START
    {
      locked, frozen, dumpErr := 0, false, Unmade;
      restoreErrs, restores, crashed := [], [], false;
      restoredPid, unfreezes, kills := None, 0, [];
    }

    method InitializeDump(ans: Answer) returns (err: Err)
      modifies this
      ensures (State(), err) == HookStep(old(State()), Hook.InitializeDump, ans, false)
      ensures !ans.found ==> err == NOT_FOUND && State() == old(State())
      ensures ans.found ==> err == ans.op && State() == old(State()).(locked := old(locked) + 1, frozen := old(frozen) || ans.op == NIL)
    {
      if !ans.found {
        return NOT_FOUND;
      }
      locked := locked + 1;
      if ans.op != NIL {
        return ans.op;
      }
      frozen := true;
      err := NIL;
    }

    method ReceiveDump() returns (err: Err)
      modifies this`dumpErr
      ensures err == DumpResult(old(dumpErr)) && dumpErr == if old(dumpErr).Unmade? then Unmade else Empty
    {
      err := if dumpErr.Holding? then dumpErr.result else NIL;
      dumpErr := if dumpErr.Unmade? then Unmade else Empty;
    }

    method PreDump(ans: Answer) returns (err: Err)
      modifies this
      ensures (State(), err) == HookStep(old(State()), Hook.PreDump, ans, false)
      ensures err == ans.op && State() == old(State()).(dump := Empty)
    {
      dumpErr := Holding(ans.op);
      err := ReceiveDump();
    }

    method PostDump(ans: Answer) returns (err: Err)
      modifies this
      ensures (State(), err) == HookStep(old(State()), Hook.PostDump, ans, false)
      ensures err == (if old(dumpErr).Holding? then old(dumpErr).result else NIL)
      ensures State() == old(State()).(dump := dumpErr) && !dumpErr.Holding? && (dumpErr.Unmade? <==> old(dumpErr).Unmade?)
    {
      if dumpErr.Unmade? {
        return NIL;
      }
      err := ReceiveDump();
    }

    method FinalizeDump(run: Err, ans: Answer, leaveRunning: bool) returns (err: Err)
      modifies this
      ensures (State(), err) == HookStep(old(State()), Hook.FinalizeDump(run), ans, leaveRunning)
      ensures locked == old(locked) - 1 && dumpErr == (if old(dumpErr).Unmade? then Unmade else Empty)
      ensures var asks := !old(dumpErr).Unmade? && (leaveRunning || run != NIL);
              && err == (if old(dumpErr).Holding? then old(dumpErr).result else NIL) + (if asks then ans.op else NIL)
              && unfreezes == old(unfreezes) + (if asks then 1 else 0)
              && frozen == (old(frozen) && !(asks && ans.op == NIL))
    {
      locked := locked - 1;
      if dumpErr.Unmade? {
        return NIL;
      }
      err := ReceiveDump();
      if !leaveRunning && run == NIL {
        return;
      }
      unfreezes := unfreezes + 1;
      if ans.op == NIL {
        frozen := false;
      }
      err := err + ans.op;
    }

    method InitializeRestore(ans: Answer) returns (err: Err)
      modifies this
      ensures (State(), err) == HookStep(old(State()), Hook.InitializeRestore, ans, false)
      ensures err == (if ans.found then NIL else NOT_FOUND)
      ensures State() == old(State()).(locked := old(locked) + if ans.found then 1 else 0)
    {
      if !ans.found {
        return NOT_FOUND;
      }
      locked := locked + 1;
      err := NIL;
    }

    method PreRestore(ans: Answer) returns (err: Err)
      modifies this
      ensures (State(), err) == HookStep(old(State()), Hook.PreRestore, ans, false)
      ensures err == NIL && restoreErrs == old(restoreErrs) + [Chan([], false)] && restores == old(restores) + [Spawned]
    {
      restoreErrs, restores := restoreErrs + [OPEN], restores + [Spawned];
      err := NIL;
    }

    // A goroutine starts and fixes which channel it will close
    method StartRestore(k: nat)
      requires Enabled(State().restore, Starts(k))
      modifies this`restores
      ensures State() == old(State()).(restore := Go(old(State()).restore, Starts(k)))
      ensures restores == old(restores)[k := Running(|restoreErrs| - 1)]
    {
      restores := restores[k := Running(|restoreErrs| - 1)];
    }

    // Its restore has ended; an error goes to the channel that the variable names by now
    method EndRestore(k: nat, op: Err)
      requires Enabled(State().restore, Succeeds(k))
      modifies this`restores, this`restoreErrs, this`crashed
      ensures State() == old(State()).(restore := Go(old(State()).restore, if op == NIL then Succeeds(k) else Fails(k, op)))
      ensures op == NIL ==>
              restoreErrs == old(restoreErrs) && !crashed && restores == old(restores)[k := Leaving(old(restores)[k].own, None)]
      ensures op != NIL ==> var n := |old(restoreErrs)| - 1;
              if old(restoreErrs)[n].closed then crashed && restoreErrs == old(restoreErrs)
              else
                && restoreErrs == old(restoreErrs)[n := Chan(old(restoreErrs)[n].values + [Sent(op, k)], false)] && !crashed
                && restores == old(restores)[k := Leaving(old(restores)[k].own, Some(n))]
    {
      var own := restores[k].own;
      if op == NIL {
        restores := restores[k := Leaving(own, None)];
        return;
      }
      var named := |restoreErrs| - 1;
      if restoreErrs[named].closed {
        crashed := true;
        return;
      }
      restoreErrs := restoreErrs[named := restoreErrs[named].(values := restoreErrs[named].values + [Sent(op, k)])];
      restores := restores[k := Leaving(own, Some(named))];
    }

    // The deferred close
    method CloseRestore(k: nat)
      requires Enabled(State().restore, Closes(k))
      modifies this`restores, this`restoreErrs, this`crashed
      ensures State() == old(State()).(restore := Go(old(State()).restore, Closes(k)))
      ensures var own := old(restores)[k].own;
              if old(restoreErrs)[own].closed || |old(restoreErrs)[own].values| > 1 then crashed && restoreErrs == old(restoreErrs)
              else
                && restoreErrs == old(restoreErrs)[own := Chan(old(restoreErrs)[own].values, true)] && !crashed
                && restores == old(restores)[k := Done]
    {
      var own := restores[k].own;
      if restoreErrs[own].closed || |restoreErrs[own].values| > 1 {
        crashed := true;
        return;
      }
      restoreErrs := restoreErrs[own := restoreErrs[own].(closed := true)];
      restores := restores[k := Done];
    }

    method ReceiveRestore() returns (err: Err)
      modifies this`restoreErrs
      ensures err == Heard(old(State()).restore) && State() == old(State()).(restore := Receive(old(State()).restore))
      ensures var n := |old(restoreErrs)| - 1;
              if n < 0 || old(restoreErrs)[n].values == [] then err == NIL && restoreErrs == old(restoreErrs)
              else
                && err == old(restoreErrs)[n].values[0].err
                && restoreErrs == old(restoreErrs)[n := Chan(old(restoreErrs)[n].values[1..], old(restoreErrs)[n].closed)]
    {
      err := NIL;
      var n := |restoreErrs| - 1;
      if n >= 0 && restoreErrs[n].values != [] {
        err := restoreErrs[n].values[0].err;
        restoreErrs := restoreErrs[n := restoreErrs[n].(values := restoreErrs[n].values[1..])];
      }
    }

    // Both the skip-namespaces and the post-restore hook
    method AttachRestored(pid: int, ans: Answer) returns (err: Err)
      modifies this
      ensures (State(), err) == HookStep(old(State()), Hook.SkipNamespaces(pid), ans, false)
      ensures (State(), err) == HookStep(old(State()), Hook.PostRestore(pid), ans, false)
      ensures err == ans.op && State() == old(State()).(restoredPid := Some(pid))
    {
      restoredPid := Some(pid);
      err := ans.op;
    }

    // Waits until the channel that the variable names has a value or is closed, for ever if there is none
    method PreResume(ans: Answer) returns (err: Err, waits: bool)
      modifies this
      ensures waits <==> Blocks(old(State()), Hook.PreResume)
      ensures waits ==> State() == old(State())
      ensures !waits ==> (State(), err) == HookStep(old(State()), Hook.PreResume, ans, false)
      ensures waits <==> old(restoreErrs) == [] || old(restoreErrs)[|old(restoreErrs)| - 1] == Chan([], false)
      ensures !waits ==> var values := old(restoreErrs)[|old(restoreErrs)| - 1].values;
              && err == (if values == [] then NIL else values[0].err)
              && kills == old(kills) + (if err != NIL && old(restoredPid).Some? then [old(restoredPid).value] else [])
    {
      err, waits := NIL, !Ready(Restores(restoreErrs, restores, crashed));
      if waits {
        return;
      }
      err := ReceiveRestore();
      if err != NIL && restoredPid.Some? {
        kills := kills + [restoredPid.value];
      }
    }

    // Waits likewise if the run succeeded, but not if there is no channel
    method FinalizeRestore(run: Err, ans: Answer) returns (err: Err, waits: bool)
      modifies this
      ensures waits <==> Blocks(old(State()), Hook.FinalizeRestore(run))
      ensures waits ==> State() == old(State())
      ensures !waits ==> (State(), err) == HookStep(old(State()), Hook.FinalizeRestore(run), ans, false)
      ensures waits <==> run == NIL && old(restoreErrs) != [] && old(restoreErrs)[|old(restoreErrs)| - 1] == Chan([], false)
      ensures !waits && old(restoreErrs) == [] ==> err == NIL && kills == old(kills)
      ensures !waits && old(restoreErrs) != [] ==> var values := old(restoreErrs)[|old(restoreErrs)| - 1].values;
              && err == (if run != NIL || values == [] then NIL else values[0].err)
              && kills == old(kills) + (if (err != NIL || run != NIL) && old(restoredPid).Some? then [old(restoredPid).value] else [])
      ensures !waits ==> locked == old(locked) - 1
    {
      err, waits := NIL, run == NIL && restoreErrs != [] && !Ready(Restores(restoreErrs, restores, crashed));
      if waits {
        return;
      }
      locked := locked - 1;
      if restoreErrs == [] {
        return;
      }
      if run == NIL {
        err := ReceiveRestore();
      }
      if (err != NIL || run != NIL) && restoredPid.Some? {
        kills := kills + [restoredPid.value];
      }
    }
  }
}
