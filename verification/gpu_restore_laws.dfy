/**
 What becomes of a GPU restore that fails: the CRIU call returns an error, or the daemon ends, or the
 failure is lost because another pre-restore hook replaced the channel it was sent into. Then the call is
 just as if the restore had succeeded.
 */
module GpuRestoreLaws {
  import opened CriuDriver
  import opened CriuBracketing
  import opened CriuView
  import opened GpuRestores
  import opened GpuHooks

  /******* A restore that fails *******/

  // What has happened by the time of the i-th hook is before a pre-restore hook that replaces the channel
  // without anyone having received from it
  ghost predicate Overwritten(v: seq<Saw>, i: nat) {
    exists j :: i <= j < |v| && v[j].hook.PreRestore? && forall l :: i <= l < j ==> !v[l].hook.PreResume?
  }

  // The m-th step before the i-th hook is a restore that fails
  predicate FailsAt(v: seq<Saw>, ans: seq<Answer>, leave: bool, i: nat, m: nat) {
    && |ans| == |v| && i < |v| && m < |ans[i].before| && ans[i].before[m].Fails?
    && Enabled(Goes(After(v, ans, leave, i).restore, ans[i].before[..m]), ans[i].before[m])
  }

  // The restores when the i-th hook answers
  function RestoresAt(v: seq<Saw>, ans: seq<Answer>, leave: bool, i: nat): Restores
    requires |ans| == |v| && i < |v|
  {
    Meanwhile(After(v, ans, leave, i), ans[i]).restore
  }

  // What becomes of the restores at a hook
  lemma HookRestores(g: Gpu, hook: Hook, ans: Answer, leave: bool)
    ensures HookStep(g, hook, ans, leave).0.restore ==
            if hook.PreRestore? then Make(g.restore)
            else if hook.PreResume? || (hook == FinalizeRestore(NIL) && g.restore.chans != []) then Receive(g.restore)
            else g.restore
  {
  }

  lemma {:induction false} AfterIsGenuine(v: seq<Saw>, ans: seq<Answer>, leave: bool, n: nat)
    requires |ans| == |v| && n <= |v|
    ensures Genuine(After(v, ans, leave, n).restore)
  {
    if n > 0 {
      AfterIsGenuine(v, ans, leave, n - 1);
      var g := After(v, ans, leave, n - 1);
      GoesKeeps(g.restore, ans[n - 1].before);
      HooksKeepGenuine(Meanwhile(g, ans[n - 1]).restore);
      HookRestores(Meanwhile(g, ans[n - 1]), v[n - 1].hook, ans[n - 1], leave);
    }
  }

  lemma {:induction false} NotCrashedBefore(v: seq<Saw>, ans: seq<Answer>, leave: bool, i: nat, n: nat)
    requires |ans| == |v| && i < n <= |v| && !After(v, ans, leave, n).restore.crashed
    ensures !RestoresAt(v, ans, leave, i).crashed
  {
    var g := After(v, ans, leave, n - 1);
    GoesKeeps(g.restore, ans[n - 1].before);
    HookRestores(Meanwhile(g, ans[n - 1]), v[n - 1].hook, ans[n - 1], leave);
    if i < n - 1 { NotCrashedBefore(v, ans, leave, i, n - 1); }
  }

  // An error stays in the named channel until it is received or the channel replaced
  lemma {:induction false} ErrorStays(v: seq<Saw>, ans: seq<Answer>, leave: bool, i: nat, n: nat)
    requires |ans| == |v| && i <= n < |v| && HasError(RestoresAt(v, ans, leave, i))
    requires forall l :: i <= l < n ==> !v[l].hook.PreRestore? && !v[l].hook.PreResume? && !v[l].hook.FinalizeRestore?
    ensures HasError(RestoresAt(v, ans, leave, n))
  {
    if i < n {
      ErrorStays(v, ans, leave, i, n - 1);
      HookRestores(Meanwhile(After(v, ans, leave, n - 1), ans[n - 1]), v[n - 1].hook, ans[n - 1], leave);
      GoesKeeps(After(v, ans, leave, n).restore, ans[n].before);
    }
  }

  /**
   If a GPU restore fails, whenever that is and wherever it sends its error, the whole CRIU call returns an
   error, unless the daemon ends or another pre-restore hook replaces the channel before a hook receives.
   */
  lemma RestoreFailureSurfaces(cbs: seq<Cb>, replies: seq<Reply>, cleaned: Err, oracle: Oracle, before: seq<Cb>,
                               me: Cb, after: seq<Cb>, world: World, leave: bool, i: nat, m: nat)
    requires Registered(cbs, before, me, after) && Obeys(oracle, me, world, leave)
    requires var v := View(DoSwrkWithResp(ReqRestore, Some(cbs), replies, NIL, cleaned, oracle).log, me);
             var ans := AnswersTo(v, world);
             FailsAt(v, ans, leave, i, m) && !AtEnd(v, ans, leave).restore.crashed && !Overwritten(v, i)
    ensures DoSwrkWithResp(ReqRestore, Some(cbs), replies, NIL, cleaned, oracle).err != NIL
  {
    var r := DoSwrkWithResp(ReqRestore, Some(cbs), replies, NIL, cleaned, oracle);
    var v := View(r.log, me);
    var ans := AnswersTo(v, world);
    RunIsConsistent(ReqRestore, cbs, replies, cleaned, oracle, me, world, leave);
    var story := CallbackStory(ReqRestore, cbs, replies, cleaned, oracle, before, me, after);
    if r.err == NIL {
      HeldAt(v, ans, leave, i, m);
      assert story.Whole? && story.run == NIL && story.fin == NIL by {
        GoesKeeps(After(v, ans, leave, i).restore, ans[i].before);
        WasMade(v, ans, leave, i);
        NotTurned(v, story);
        assert |story.run + story.fin + cleaned| == 0;
      }
      var k := HeardBy(v, ans, leave, story, i);
      AnswerSurfaces(ReqRestore, cbs, replies, cleaned, oracle, me, k);
    }
  }

  lemma HeldAt(v: seq<Saw>, ans: seq<Answer>, leave: bool, i: nat, m: nat)
    requires FailsAt(v, ans, leave, i, m) && !AtEnd(v, ans, leave).restore.crashed
    ensures HasError(RestoresAt(v, ans, leave, i))
  {
    NotCrashedBefore(v, ans, leave, i, |v|);
    FailureIsHeld(After(v, ans, leave, i).restore, ans[i].before, m);
  }

  // A channel was made by a hook
  lemma {:induction false} WasMade(v: seq<Saw>, ans: seq<Answer>, leave: bool, n: nat)
    requires |ans| == |v| && n <= |v| && After(v, ans, leave, n).restore.chans != []
    ensures exists j :: 0 <= j < n && v[j].hook.PreRestore?
  {
    var g := After(v, ans, leave, n - 1);
    GoesKeeps(g.restore, ans[n - 1].before);
    if !v[n - 1].hook.PreRestore? {
      HookMakes(Meanwhile(g, ans[n - 1]), v[n - 1].hook, ans[n - 1], leave);
      WasMade(v, ans, leave, n - 1);
    }
  }

  lemma HookMakes(g: Gpu, hook: Hook, ans: Answer, leave: bool)
    requires !hook.PreRestore?
    ensures |HookStep(g, hook, ans, leave).0.restore.chans| == |g.restore.chans|
  {
    HookRestores(g, hook, ans, leave);
  }

  lemma NotTurned(v: seq<Saw>, story: Story)
    requires Tells(v, ReqRestore, story) && exists j :: 0 <= j < |v| && v[j].hook.PreRestore?
    ensures story.Whole?
  {
  }

  // In a restore whose run and finalizers succeeded, some hook answers an error
  lemma HeardBy(v: seq<Saw>, ans: seq<Answer>, leave: bool, story: Story, i: nat) returns (k: nat)
    requires Tells(v, ReqRestore, story) && story.Whole? && story.run == NIL && story.fin == NIL && Consistent(v, ans, leave)
    requires i < |v| && HasError(RestoresAt(v, ans, leave, i)) && !Overwritten(v, i)
    ensures k < |v| && v[k].err != NIL && !v[k].hook.OrphanPtsMaster?
  {
    var n := |v| - 1;
    k := FirstReceiver(v, i, n);
    ErrorStays(v, ans, leave, i, k);
    AfterIsGenuine(v, ans, leave, k);
    GoesKeeps(After(v, ans, leave, k).restore, ans[k].before);
    assert AnswerOk(v, ans, leave, k);
    ErrorIsHeard(Meanwhile(After(v, ans, leave, k), ans[k]), v[k].hook, ans[k], leave);
  }

  lemma ErrorIsHeard(g: Gpu, hook: Hook, ans: Answer, leave: bool)
    requires HasError(g.restore) && Genuine(g.restore)
    requires hook.PreResume? || hook == FinalizeRestore(NIL)
    ensures !Blocks(g, hook) && HookStep(g, hook, ans, leave).1 != NIL
  {
  }

  // Without a replacement, the next hook to touch the channel receives from it
  lemma FirstReceiver(v: seq<Saw>, i: nat, n: nat) returns (k: nat)
    requires i <= n == |v| - 1 && v[n].hook == FinalizeRestore(NIL) && !Overwritten(v, i)
    requires forall l :: i <= l < n ==> !v[l].hook.FinalizeRestore?
    ensures i <= k <= n && (v[k].hook.PreResume? || k == n)
    ensures forall l :: i <= l < k ==> !v[l].hook.PreRestore? && !v[l].hook.PreResume? && !v[l].hook.FinalizeRestore?
  {
    k := i;
    while k < n && !v[k].hook.PreResume?
      invariant i <= k <= n
      invariant forall l :: i <= l < k ==> !v[l].hook.PreRestore? && !v[l].hook.PreResume?
      decreases n - k
    {
      k := k + 1;
    }
  }

  // The last hook answered
  predicate Finished(v: seq<Saw>, ans: seq<Answer>, leave: bool)
    requires |ans| == |v|
  {
    v != [] && !Blocks(Meanwhile(After(v, ans, leave, |v| - 1), ans[|v| - 1]), v[|v| - 1].hook)
  }

  /**
   After a CRIU call that came to its end and returned no error, no restore is left that could fail
   unnoticed: one that still runs and then fails ends the daemon.
   */
  lemma LateFailureEndsDaemon(cbs: seq<Cb>, replies: seq<Reply>, cleaned: Err, oracle: Oracle, before: seq<Cb>,
                              me: Cb, after: seq<Cb>, world: World, leave: bool, steps: seq<Step>, s: Step)
    requires Registered(cbs, before, me, after) && Obeys(oracle, me, world, leave)
    requires DoSwrkWithResp(ReqRestore, Some(cbs), replies, NIL, cleaned, oracle).err == NIL
    requires var v := View(DoSwrkWithResp(ReqRestore, Some(cbs), replies, NIL, cleaned, oracle).log, me);
             var ans := AnswersTo(v, world);
             Finished(v, ans, leave) && s.Fails? && Enabled(Goes(AtEnd(v, ans, leave).restore, steps), s)
    ensures var v := View(DoSwrkWithResp(ReqRestore, Some(cbs), replies, NIL, cleaned, oracle).log, me);
            Crashes(Goes(AtEnd(v, AnswersTo(v, world), leave).restore, steps), s)
  {
    var r := DoSwrkWithResp(ReqRestore, Some(cbs), replies, NIL, cleaned, oracle);
    var v := View(r.log, me);
    RunIsConsistent(ReqRestore, cbs, replies, cleaned, oracle, me, world, leave);
    var story := CallbackStory(ReqRestore, cbs, replies, cleaned, oracle, before, me, after);
    StoryEndsClosed(v, AnswersTo(v, world), leave, story, cleaned, steps, s);
  }

  lemma StoryEndsClosed(v: seq<Saw>, ans: seq<Answer>, leave: bool, story: Story, cleaned: Err, steps: seq<Step>, s: Step)
    requires Tells(v, ReqRestore, story) && (story.Whole? ==> story.run + story.fin + cleaned == NIL)
    requires Consistent(v, ans, leave) && Finished(v, ans, leave)
    requires s.Fails? && Enabled(Goes(AtEnd(v, ans, leave).restore, steps), s)
    ensures Crashes(Goes(AtEnd(v, ans, leave).restore, steps), s)
  {
    var r := AtEnd(v, ans, leave).restore;
    GoesKeeps(r, steps);
    WasMade(v, ans, leave, |v|);
    NotTurned(v, story);
    assert |story.run + story.fin + cleaned| == 0;
    FinalizeWaited(v, ans, leave);
    FailsTooLate(r, steps, s);
  }

  // A finalize hook that found nothing wrong has seen the channel closed
  lemma FinalizeWaited(v: seq<Saw>, ans: seq<Answer>, leave: bool)
    requires Consistent(v, ans, leave) && Finished(v, ans, leave) && AtEnd(v, ans, leave).restore.chans != []
    requires v[|v| - 1].hook == FinalizeRestore(NIL) && v[|v| - 1].err == NIL
    ensures Named(AtEnd(v, ans, leave).restore).closed
  {
    var n := |v| - 1;
    var g := After(v, ans, leave, n);
    assert AnswerOk(v, ans, leave, n);
    AfterIsGenuine(v, ans, leave, n);
    GoesKeeps(g.restore, ans[n].before);
    assert !HasError(Meanwhile(g, ans[n]).restore);
  }

  /**
   In a call in which CRIU calls pre-restore at most once, however the restore goes on meanwhile, the
   daemon does not end.
   */
  lemma {:induction false} OneRestoreIsSafe(v: seq<Saw>, ans: seq<Answer>, leave: bool, n: nat)
    requires |ans| == |v| && n <= |v|
    requires forall i, j :: 0 <= i < j < |v| ==> !(v[i].hook.PreRestore? && v[j].hook.PreRestore?)
    ensures Single(After(v, ans, leave, n).restore) && !After(v, ans, leave, n).restore.crashed
    ensures (forall i :: 0 <= i < n ==> !v[i].hook.PreRestore?) ==> After(v, ans, leave, n).restore.chans == []
  {
    if n > 0 {
      OneRestoreIsSafe(v, ans, leave, n - 1);
      var g := After(v, ans, leave, n - 1);
      SingleGoes(g.restore, ans[n - 1].before);
      GoesKeeps(g.restore, ans[n - 1].before);
      SingleHook(Meanwhile(g, ans[n - 1]), v[n - 1].hook, ans[n - 1], leave);
      if v[n - 1].hook.PreRestore? {
        assert forall i :: 0 <= i < n - 1 ==> !v[i].hook.PreRestore?;
      }
    }
  }

  lemma SingleHook(g: Gpu, hook: Hook, ans: Answer, leave: bool)
    requires Single(g.restore) && (hook.PreRestore? ==> g.restore.chans == [])
    ensures Single(HookStep(g, hook, ans, leave).0.restore)
    ensures !hook.PreRestore? && g.restore.chans == [] ==> HookStep(g, hook, ans, leave).0.restore.chans == []
  {
    HookRestores(g, hook, ans, leave);
  }

  /******* A failure sent into a channel that is then replaced *******/

  ghost predicate SmoothAt(v: seq<Saw>, ans: seq<Answer>, leave: bool, i: nat)
    requires |ans| == |v| && i < |v|
  {
    Smooth(After(v, ans, leave, i).restore, ans[i].before)
  }

  // The steps of the restores can be taken as they come, and none ends the daemon
  ghost predicate SmoothRun(v: seq<Saw>, ans: seq<Answer>, leave: bool)
    requires |ans| == |v|
  {
    forall i :: 0 <= i < |v| ==> SmoothAt(v, ans, leave, i)
  }

  // The answer in which the restore that fails at its m-th step succeeds there
  function Instead(ans: Answer, m: nat): Answer
    requires m < |ans.before|
  {
    ans.(before := ans.before[m := Succeeds(ans.before[m].k)])
  }

  // The same but for one value in the c-th channel
  predicate GpuLike(g: Gpu, g': Gpu, c: nat, p: nat, k: nat) {
    g' == g.(restore := g'.restore) && Like(g.restore, g'.restore, c, p, k)
  }

  lemma LikeAtHook(g: Gpu, ans: Answer, m: nat) returns (c: nat, p: nat)
    requires Smooth(g.restore, ans.before) && m < |ans.before| && ans.before[m].Fails?
    ensures Smooth(g.restore, Instead(ans, m).before)
    ensures GpuLike(Meanwhile(g, ans), Meanwhile(g, Instead(ans, m)), c, p, ans.before[m].k)
    ensures c == |Meanwhile(g, ans).restore.chans| - 1
  {
    GoesKeeps(g.restore, ans.before);
    c, p := LikeFrom(g.restore, ans.before, m);
  }

  predicate Touches(hook: Hook) {
    hook.PreResume? || hook.FinalizeRestore?
  }

  // A hook that has nothing to do with the channels
  lemma OtherHook(g: Gpu, r: Restores, hook: Hook, ans: Answer, ans': Answer, leave: bool)
    requires ans' == ans.(before := ans'.before) && !Touches(hook) && !hook.PreRestore?
    ensures HookStep(g, hook, ans, leave).0.restore == g.restore && !Blocks(g, hook) && !Blocks(g.(restore := r), hook)
    ensures HookStep(g.(restore := r), hook, ans', leave)
         == (HookStep(g, hook, ans, leave).0.(restore := r), HookStep(g, hook, ans, leave).1)
  {
  }

  lemma LikeResume(g: Gpu, g': Gpu, ans: Answer, ans': Answer, leave: bool, c: nat, p: nat, k: nat)
    requires GpuLike(g, g', c, p, k) && c < |g.restore.chans| - 1
    ensures AlikeBy(g, g', PreResume, ans, ans', leave, c, p, k)
  {
    LikeHooks(g.restore, g'.restore, c, p, k);
  }

  lemma LikeFinalize(g: Gpu, g': Gpu, run: Err, ans: Answer, ans': Answer, leave: bool, c: nat, p: nat, k: nat)
    requires GpuLike(g, g', c, p, k) && c < |g.restore.chans| - 1
    ensures AlikeBy(g, g', FinalizeRestore(run), ans, ans', leave, c, p, k)
  {
    LikeHooks(g.restore, g'.restore, c, p, k);
    FinalizeIs(g, run);
    FinalizeIs(g', run);
  }

  lemma FinalizeIs(g: Gpu, run: Err)
    requires g.restore.chans != []
    ensures var u := g.(locked := g.locked - 1, restore := if run == NIL then Receive(g.restore) else g.restore);
            var e := if run == NIL then Heard(g.restore) else NIL;
            OnFinalizeRestore(g, run) == (if e != NIL || run != NIL then Kill(u) else u, e)
  {
  }

  // The hook answers alike and leaves alike behind
  ghost predicate AlikeBy(g: Gpu, g': Gpu, hook: Hook, ans: Answer, ans': Answer, leave: bool, c: nat, p: nat, k: nat) {
    var (u, e), (u', e') := HookStep(g, hook, ans, leave), HookStep(g', hook, ans', leave);
    && Blocks(g, hook) == Blocks(g', hook) && e == e' && GpuLike(u, u', c, p, k)
    && |u.restore.chans| == |g.restore.chans| + if hook.PreRestore? then 1 else 0
  }

  lemma LikeStep(g: Gpu, g': Gpu, hook: Hook, ans: Answer, ans': Answer, leave: bool, c: nat, p: nat, k: nat)
    requires GpuLike(g, g', c, p, k) && ans' == ans.(before := ans'.before)
    requires Touches(hook) ==> c < |g.restore.chans| - 1
    ensures AlikeBy(g, g', hook, ans, ans', leave, c, p, k)
  {
    match hook {
      case PreRestore => LikeHooks(g.restore, g'.restore, c, p, k);
      case PreResume => LikeResume(g, g', ans, ans', leave, c, p, k);
      case FinalizeRestore(run) => LikeFinalize(g, g', run, ans, ans', leave, c, p, k);
      case _ => OtherHook(g, g'.restore, hook, ans, ans', leave);
    }
  }

  lemma {:induction false} SameBefore(v: seq<Saw>, ans: seq<Answer>, leave: bool, i: nat, a: Answer, n: nat)
    requires |ans| == |v| && n <= i < |v|
    ensures After(v, ans[i := a], leave, n) == After(v, ans, leave, n)
  {
    if n > 0 { SameBefore(v, ans, leave, i, a, n - 1); }
  }

  // The i-th hook is followed, at j, by a pre-restore hook that replaces the channel, or is that hook
  ghost predicate ReplacedAt(v: seq<Saw>, i: nat, j: nat) {
    i <= j < |v| && v[j].hook.PreRestore? && forall l :: i <= l < j ==> !Touches(v[l].hook)
  }

  // From one hook to the next
  lemma LikeNext(g: Gpu, g': Gpu, hook: Hook, ans: Answer, ans': Answer, next: Answer, leave: bool, c: nat, p: nat, k: nat)
    requires GpuLike(Meanwhile(g, ans), Meanwhile(g', ans'), c, p, k) && ans' == ans.(before := ans'.before)
    requires Touches(hook) ==> c < |Meanwhile(g, ans).restore.chans| - 1
    requires Smooth(GpuStep(g, hook, ans, leave).0.restore, next.before)
    ensures var u, u' := GpuStep(g, hook, ans, leave).0, GpuStep(g', hook, ans', leave).0;
            && GpuLike(Meanwhile(u, next), Meanwhile(u', next), c, p, k) && Smooth(u'.restore, next.before)
            && |Meanwhile(u, next).restore.chans| == |Meanwhile(g, ans).restore.chans| + if hook.PreRestore? then 1 else 0
  {
    LikeStep(Meanwhile(g, ans), Meanwhile(g', ans'), hook, ans, ans', leave, c, p, k);
    LikeOnward(GpuStep(g, hook, ans, leave).0, GpuStep(g', hook, ans', leave).0, next, c, p, k);
  }

  // The states of a run
  function States(v: seq<Saw>, ans: seq<Answer>, leave: bool): nat -> Gpu
    requires |ans| == |v|
  {
    (n: nat) => if n <= |v| then After(v, ans, leave, n) else START
  }

  ghost predicate Moves(f: nat -> Gpu, v: seq<Saw>, ans: seq<Answer>, leave: bool, n: nat)
    requires |ans| == |v| && n < |v|
  {
    f(n + 1) == GpuStep(f(n), v[n].hook, ans[n], leave).0
  }

  lemma StatesMove(v: seq<Saw>, ans: seq<Answer>, leave: bool, n: nat)
    requires |ans| == |v| && n < |v|
    ensures Moves(States(v, ans, leave), v, ans, leave, n)
  {
  }

  predicate SmoothFrom(f: nat -> Gpu, ans: seq<Answer>, n: nat)
    requires n < |ans|
  {
    Smooth(f(n).restore, ans[n].before)
  }

  // Nothing but the one channel tells the runs apart when the n-th hook answers
  predicate Alike(f: nat -> Gpu, f': nat -> Gpu, ans: seq<Answer>, ans': seq<Answer>, n: nat, c: nat, p: nat, k: nat, replaced: nat)
    requires |ans| == |ans'| && n < |ans|
  {
    && GpuLike(Meanwhile(f(n), ans[n]), Meanwhile(f'(n), ans'[n]), c, p, k) && SmoothFrom(f', ans', n)
    && c == |Meanwhile(f(n), ans[n]).restore.chans| - 1 - replaced
  }

  lemma LikeForward(f: nat -> Gpu, f': nat -> Gpu, v: seq<Saw>, ans: seq<Answer>, ans': seq<Answer>, leave: bool, n: nat,
                    c: nat, p: nat, k: nat, replaced: nat)
    requires |ans| == |ans'| == |v| && n < |v| - 1 && Alike(f, f', ans, ans', n, c, p, k, replaced)
    requires Moves(f, v, ans, leave, n) && Moves(f', v, ans', leave, n) && SmoothFrom(f, ans, n + 1)
    requires ans'[n] == ans[n].(before := ans'[n].before) && ans'[n + 1] == ans[n + 1] && (Touches(v[n].hook) ==> replaced > 0)
    ensures Alike(f, f', ans, ans', n + 1, c, p, k, replaced + if v[n].hook.PreRestore? then 1 else 0)
  {
    LikeNext(f(n), f'(n), v[n].hook, ans[n], ans'[n], ans[n + 1], leave, c, p, k);
  }

  // Alike at the n-th hook, with so many replacements since the failure
  function AlikeIn(f: nat -> Gpu, f': nat -> Gpu, ans: seq<Answer>, ans': seq<Answer>, c: nat, p: nat, k: nat): (nat, nat) -> bool
    requires |ans| == |ans'|
  {
    (n: nat, replaced: nat) => n < |ans| && Alike(f, f', ans, ans', n, c, p, k, replaced)
  }

  // What holds at one hook carries over to the next
  ghost predicate Carries(alike: (nat, nat) -> bool, v: seq<Saw>, n: nat, replaced: nat)
    requires n < |v|
  {
    alike(n, replaced) && (Touches(v[n].hook) ==> replaced > 0) ==>
      alike(n + 1, replaced + if v[n].hook.PreRestore? then 1 else 0)
  }

  lemma LikeCarries(f: nat -> Gpu, f': nat -> Gpu, v: seq<Saw>, ans: seq<Answer>, ans': seq<Answer>, leave: bool, n: nat,
                    c: nat, p: nat, k: nat, replaced: nat)
    requires |ans| == |ans'| == |v| && n < |v| - 1
    requires Moves(f, v, ans, leave, n) && Moves(f', v, ans', leave, n) && SmoothFrom(f, ans, n + 1)
    requires ans'[n] == ans[n].(before := ans'[n].before) && ans'[n + 1] == ans[n + 1]
    ensures Carries(AlikeIn(f, f', ans, ans', c, p, k), v, n, replaced)
  {
    if AlikeIn(f, f', ans, ans', c, p, k)(n, replaced) && (Touches(v[n].hook) ==> replaced > 0) {
      LikeForward(f, f', v, ans, ans', leave, n, c, p, k, replaced);
    }
  }

  lemma {:induction false} CarriedOn(alike: (nat, nat) -> bool, v: seq<Saw>, i: nat, j: nat, n: nat)
    requires ReplacedAt(v, i, j) && i <= n < |v| && alike(i, 0)
    requires forall l, r: nat :: i <= l < |v| - 1 ==> Carries(alike, v, l, r)
    ensures alike(n, Replacements(v, i, n))
  {
    if n > i {
      CarriedOn(alike, v, i, j, n - 1);
      if n - 1 > j { Replaced(v, i, j, n - 1); }
      assert Carries(alike, v, n - 1, Replacements(v, i, n - 1));
    }
  }

  lemma LikeFirst(v: seq<Saw>, ans: seq<Answer>, leave: bool, i: nat, m: nat) returns (c: nat, p: nat)
    requires |ans| == |v| && i < |v| && SmoothAt(v, ans, leave, i) && m < |ans[i].before| && ans[i].before[m].Fails?
    ensures var ans' := ans[i := Instead(ans[i], m)];
            Alike(States(v, ans, leave), States(v, ans', leave), ans, ans', i, c, p, ans[i].before[m].k, 0)
  {
    SameBefore(v, ans, leave, i, Instead(ans[i], m), i);
    c, p := LikeAtHook(After(v, ans, leave, i), ans[i], m);
  }

  lemma LikeLater(v: seq<Saw>, ans: seq<Answer>, leave: bool, i: nat, j: nat, m: nat, n: nat) returns (c: nat, p: nat)
    requires |ans| == |v| && ReplacedAt(v, i, j) && SmoothRun(v, ans, leave) && i <= n < |v|
    requires m < |ans[i].before| && ans[i].before[m].Fails?
    ensures var ans' := ans[i := Instead(ans[i], m)];
            Alike(States(v, ans, leave), States(v, ans', leave), ans, ans', n, c, p, ans[i].before[m].k, Replacements(v, i, n))
  {
    var ans' := ans[i := Instead(ans[i], m)];
    assert SmoothAt(v, ans, leave, i);
    c, p := LikeFirst(v, ans, leave, i, m);
    var f, f' := States(v, ans, leave), States(v, ans', leave);
    var alike := AlikeIn(f, f', ans, ans', c, p, ans[i].before[m].k);
    forall l, r: nat | i <= l < |v| - 1 ensures Carries(alike, v, l, r) {
      assert SmoothAt(v, ans, leave, l + 1);
      StatesMove(v, ans, leave, l);
      StatesMove(v, ans', leave, l);
      LikeCarries(f, f', v, ans, ans', leave, l, c, p, ans[i].before[m].k, r);
    }
    CarriedOn(alike, v, i, j, n);
  }

  // The callback answers the n-th hook alike, and the steps of the restores before it can be taken
  ghost predicate Unaffected(v: seq<Saw>, ans: seq<Answer>, ans': seq<Answer>, leave: bool, n: nat)
    requires |ans| == |ans'| == |v| && n < |v|
  {
    var g, g' := After(v, ans, leave, n), After(v, ans', leave, n);
    && Blocks(Meanwhile(g, ans[n]), v[n].hook) == Blocks(Meanwhile(g', ans'[n]), v[n].hook)
    && GpuStep(g, v[n].hook, ans[n], leave).1 == GpuStep(g', v[n].hook, ans'[n], leave).1
    && SmoothAt(v, ans', leave, n)
  }

  lemma UnaffectedBefore(v: seq<Saw>, ans: seq<Answer>, leave: bool, i: nat, a: Answer, n: nat)
    requires |ans| == |v| && n < i < |v| && SmoothAt(v, ans, leave, n)
    ensures Unaffected(v, ans, ans[i := a], leave, n)
  {
    SameBefore(v, ans, leave, i, a, n);
  }

  /**
   A restore that fails and whose channel is then replaced might as well have succeeded: the callback
   answers every hook alike, and the steps of the restores can be taken as before.
   */
  lemma SameAnswers(v: seq<Saw>, ans: seq<Answer>, leave: bool, i: nat, j: nat, m: nat, n: nat)
    requires |ans| == |v| && ReplacedAt(v, i, j) && SmoothRun(v, ans, leave) && n < |v|
    requires m < |ans[i].before| && ans[i].before[m].Fails?
    ensures Unaffected(v, ans, ans[i := Instead(ans[i], m)], leave, n)
  {
    if n < i {
      assert SmoothAt(v, ans, leave, n);
      UnaffectedBefore(v, ans, leave, i, Instead(ans[i], m), n);
    } else {
      var c, p := LikeLater(v, ans, leave, i, j, m, n);
      if n > j { Replaced(v, i, j, n); }
      UnaffectedAfter(v, ans, ans[i := Instead(ans[i], m)], leave, n, c, p, ans[i].before[m].k, Replacements(v, i, n));
    }
  }

  lemma UnaffectedAfter(v: seq<Saw>, ans: seq<Answer>, ans': seq<Answer>, leave: bool, n: nat, c: nat, p: nat, k: nat, replaced: nat)
    requires |ans| == |ans'| == |v| && n < |v| && Alike(States(v, ans, leave), States(v, ans', leave), ans, ans', n, c, p, k, replaced)
    requires ans'[n] == ans[n].(before := ans'[n].before) && (Touches(v[n].hook) ==> replaced > 0)
    ensures Unaffected(v, ans, ans', leave, n)
  {
    SameAnswer(States(v, ans, leave), States(v, ans', leave), ans, ans', v[n].hook, leave, n, c, p, k, replaced);
  }

  lemma SameAnswer(f: nat -> Gpu, f': nat -> Gpu, ans: seq<Answer>, ans': seq<Answer>, hook: Hook, leave: bool, n: nat,
                   c: nat, p: nat, k: nat, replaced: nat)
    requires |ans| == |ans'| && n < |ans| && Alike(f, f', ans, ans', n, c, p, k, replaced)
    requires ans'[n] == ans[n].(before := ans'[n].before) && (Touches(hook) ==> replaced > 0)
    ensures Blocks(Meanwhile(f(n), ans[n]), hook) == Blocks(Meanwhile(f'(n), ans'[n]), hook)
    ensures GpuStep(f(n), hook, ans[n], leave).1 == GpuStep(f'(n), hook, ans'[n], leave).1
  {
    LikeStep(Meanwhile(f(n), ans[n]), Meanwhile(f'(n), ans'[n]), hook, ans[n], ans'[n], leave, c, p, k);
  }

  lemma LikeOnward(g: Gpu, g': Gpu, ans: Answer, c: nat, p: nat, k: nat)
    requires GpuLike(g, g', c, p, k) && Smooth(g.restore, ans.before)
    ensures GpuLike(Meanwhile(g, ans), Meanwhile(g', ans), c, p, k) && Smooth(g'.restore, ans.before)
    ensures |Meanwhile(g, ans).restore.chans| == |g.restore.chans|
  {
    LikeGoes(g.restore, g'.restore, c, p, k, ans.before);
    GoesKeeps(g.restore, ans.before);
  }

  // The pre-restore hooks from i on before n
  function Replacements(v: seq<Saw>, i: nat, n: nat): nat
    requires i <= n <= |v|
  {
    if n == i then 0 else Replacements(v, i, n - 1) + if v[n - 1].hook.PreRestore? then 1 else 0
  }

  lemma {:induction false} Replaced(v: seq<Saw>, i: nat, j: nat, n: nat)
    requires i <= j < n <= |v| && v[j].hook.PreRestore?
    ensures Replacements(v, i, n) > 0
  {
    if j < n - 1 { Replaced(v, i, j, n - 1); }
  }
}
