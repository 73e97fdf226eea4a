/**
 The restored process: whom the GPU callback attaches to, that a failing attach makes the CRIU call fail, and
 exactly when and whom it kills.
 */
module GpuAttach {
  import opened CriuDriver
  import opened CriuBracketing
  import opened CriuView
  import opened GpuRestores
  import opened GpuHooks

  predicate Attaches(hook: Hook) {
    hook.PostRestore? || hook.SkipNamespaces?
  }

  /**
   If attaching to the restored process fails, the whole CRIU call returns that error, whatever CRIU and the
   other callbacks do.
   */
  lemma AttachFailureSurfaces(req: Req, cbs: seq<Cb>, replies: seq<Reply>, cleaned: Err, oracle: Oracle, me: Cb,
                              world: World, leave: bool, i: nat)
    requires Obeys(oracle, me, world, leave)
    requires i < |View(DoSwrkWithResp(req, Some(cbs), replies, NIL, cleaned, oracle).log, me)|
    requires var v := View(DoSwrkWithResp(req, Some(cbs), replies, NIL, cleaned, oracle).log, me);
             Attaches(v[i].hook) && world(v[i].at).op != NIL
    ensures var r := DoSwrkWithResp(req, Some(cbs), replies, NIL, cleaned, oracle);
            Joined(world(View(r.log, me)[i].at).op, r.err) && r.err != NIL
  {
    RunIsConsistent(req, cbs, replies, cleaned, oracle, me, world, leave);
    var v := View(DoSwrkWithResp(req, Some(cbs), replies, NIL, cleaned, oracle).log, me);
    AttachAnswers(v, AnswersTo(v, world), leave, i);
    AnswerSurfaces(req, cbs, replies, cleaned, oracle, me, i);
  }

  lemma AttachAnswers(v: seq<Saw>, ans: seq<Answer>, leave: bool, i: nat)
    requires Consistent(v, ans, leave) && i < |v| && Attaches(v[i].hook)
    ensures v[i].err == ans[i].op
  {
    assert AnswerOk(v, ans, leave, i);
  }

  /******* Kills *******/

  // The pid of the last attach among the first n hooks
  function LastPid(v: seq<Saw>, n: nat): Option<int>
    requires n <= |v|
  {
    if n == 0 then None
    else if Attaches(v[n - 1].hook) then Some(v[n - 1].hook.pid)
    else LastPid(v, n - 1)
  }

  // A restore was started by one of the first n hooks
  ghost predicate Started(v: seq<Saw>, n: nat)
    requires n <= |v|
  {
    exists j :: 0 <= j < n && v[j].hook.PreRestore?
  }

  // The i-th hook hears that the process cannot run: pre-resume or finalize answers an error, or finalize is
  // told that the run failed after a restore was started
  ghost predicate Dooms(v: seq<Saw>, i: nat)
    requires i < |v|
  {
    || (v[i].hook.PreResume? && v[i].err != NIL)
    || (v[i].hook.FinalizeRestore? && Started(v, i) && (v[i].hook.run != NIL || v[i].err != NIL))
  }

  ghost function KillsOf(v: seq<Saw>, n: nat): seq<int>
    requires n <= |v|
  {
    if n == 0 then []
    else KillsOf(v, n - 1) + if Dooms(v, n - 1) && LastPid(v, n - 1).Some? then [LastPid(v, n - 1).value] else []
  }

  // Every hook has answered
  ghost predicate Answered(v: seq<Saw>, ans: seq<Answer>, leave: bool)
    requires |ans| == |v|
  {
    forall i :: 0 <= i < |v| ==> AnsweredAt(v, ans, leave, i)
  }

  ghost predicate AnsweredAt(v: seq<Saw>, ans: seq<Answer>, leave: bool, i: nat)
    requires |ans| == |v| && i < |v|
  {
    !Blocks(Meanwhile(After(v, ans, leave, i), ans[i]), v[i].hook)
  }

  // What one hook does to the pid, the kills and the channels
  lemma HookKills(g: Gpu, hook: Hook, ans: Answer, leave: bool)
    ensures var (u, e) := HookStep(g, hook, ans, leave);
            && u.restoredPid == (if Attaches(hook) then Some(hook.pid) else g.restoredPid)
            && (u.restore.chans != [] <==> g.restore.chans != [] || hook.PreRestore?)
            && u.kills == g.kills +
               if && g.restoredPid.Some?
                  && ((hook.PreResume? && e != NIL) || (hook.FinalizeRestore? && g.restore.chans != [] && (hook.run != NIL || e != NIL)))
               then [g.restoredPid.value] else []
  {
  }

  // The first n hooks have left g behind
  ghost predicate Tallies(v: seq<Saw>, n: nat, g: Gpu)
    requires n <= |v|
  {
    g.kills == KillsOf(v, n) && g.restoredPid == LastPid(v, n) && (g.restore.chans != [] <==> Started(v, n))
  }

  lemma TalliesNext(v: seq<Saw>, n: nat, g: Gpu, ans: Answer, leave: bool)
    requires n < |v| && Tallies(v, n, g) && v[n].err == HookStep(g, v[n].hook, ans, leave).1
    ensures Tallies(v, n + 1, HookStep(g, v[n].hook, ans, leave).0)
  {
    HookKills(g, v[n].hook, ans, leave);
    StartedNext(v, n + 1);
  }

  lemma TallyValue(v: seq<Saw>, n: nat, g: Gpu, ans: Answer, leave: bool)
    requires n < |v| && Tallies(v, n, g) && v[n].err == GpuStep(g, v[n].hook, ans, leave).1
    ensures Tallies(v, n + 1, GpuStep(g, v[n].hook, ans, leave).0)
  {
    GoesKeeps(g.restore, ans.before);
    TalliesNext(v, n, Meanwhile(g, ans), ans, leave);
  }

  lemma AnswerIs(v: seq<Saw>, ans: seq<Answer>, leave: bool, n: nat)
    requires Consistent(v, ans, leave) && Answered(v, ans, leave) && n < |v|
    ensures v[n].err == GpuStep(After(v, ans, leave, n), v[n].hook, ans[n], leave).1
  {
    assert AnswerOk(v, ans, leave, n) && AnsweredAt(v, ans, leave, n);
  }

  // The states of a run, one after each hook
  function States(v: seq<Saw>, ans: seq<Answer>, leave: bool): nat -> Gpu
    requires |ans| == |v|
  {
    (n: nat) => if n <= |v| then After(v, ans, leave, n) else START
  }

  ghost predicate Moves(f: nat -> Gpu, v: seq<Saw>, ans: seq<Answer>, leave: bool, n: nat)
    requires |ans| == |v| && n < |v|
  {
    (f(n + 1), v[n].err) == GpuStep(f(n), v[n].hook, ans[n], leave)
  }

  lemma StatesMove(v: seq<Saw>, ans: seq<Answer>, leave: bool, n: nat)
    requires Consistent(v, ans, leave) && Answered(v, ans, leave) && n < |v|
    ensures Moves(States(v, ans, leave), v, ans, leave, n)
  {
    AnswerIs(v, ans, leave, n);
  }

  lemma {:induction false} KillsAlong(f: nat -> Gpu, v: seq<Saw>, ans: seq<Answer>, leave: bool, n: nat)
    requires |ans| == |v| && n <= |v| && f(0) == START && forall l :: 0 <= l < |v| ==> Moves(f, v, ans, leave, l)
    ensures Tallies(v, n, f(n))
  {
    if n > 0 {
      KillsAlong(f, v, ans, leave, n - 1);
      assert Moves(f, v, ans, leave, n - 1);
      TallyValue(v, n - 1, f(n - 1), ans[n - 1], leave);
    }
  }

  lemma KillsAfter(v: seq<Saw>, ans: seq<Answer>, leave: bool)
    requires Consistent(v, ans, leave) && Answered(v, ans, leave)
    ensures AtEnd(v, ans, leave).kills == KillsOf(v, |v|)
  {
    forall l | 0 <= l < |v| ensures Moves(States(v, ans, leave), v, ans, leave, l) { StatesMove(v, ans, leave, l); }
    KillsAlong(States(v, ans, leave), v, ans, leave, |v|);
  }

  lemma StartedNext(v: seq<Saw>, n: nat)
    requires 0 < n <= |v|
    ensures Started(v, n) <==> Started(v, n - 1) || v[n - 1].hook.PreRestore?
  {
    if Started(v, n - 1) {
      var j :| 0 <= j < n - 1 && v[j].hook.PreRestore?;
      assert 0 <= j < n && v[j].hook.PreRestore?;
    }
  }

  /**
   In every call whose hooks all answer, a kill is issued exactly when pre-resume or finalize answers an error or
   finalize is told of a failed run after a restore was started. It goes to the pid of the last post-restore or
   skip-namespaces hook, and to nobody if there was none.
   */
  lemma KillsIff(req: Req, cbs: seq<Cb>, replies: seq<Reply>, cleaned: Err, oracle: Oracle, me: Cb, world: World, leave: bool)
    requires Obeys(oracle, me, world, leave)
    requires var v := View(DoSwrkWithResp(req, Some(cbs), replies, NIL, cleaned, oracle).log, me);
             Answered(v, AnswersTo(v, world), leave)
    ensures var v := View(DoSwrkWithResp(req, Some(cbs), replies, NIL, cleaned, oracle).log, me);
            AtEnd(v, AnswersTo(v, world), leave).kills == KillsOf(v, |v|)
  {
    RunIsConsistent(req, cbs, replies, cleaned, oracle, me, world, leave);
    var v := View(DoSwrkWithResp(req, Some(cbs), replies, NIL, cleaned, oracle).log, me);
    KillsAfter(v, AnswersTo(v, world), leave);
  }
}
