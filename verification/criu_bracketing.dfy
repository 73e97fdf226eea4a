/**
 What the log of every CRIU call looks like, whatever CRIU replies and the callbacks answer.
 */
module CriuBracketing {
  import opened CriuDriver

  /******* Shapes *******/

  function FilesOf(seg: seq<Event>): seq<string> {
    if seg == [] then [] else (if seg[0].Ran? then seg[0].files else []) + FilesOf(seg[1..])
  }

  // The callbacks that ran are those from the last registered down to the first failure
  predicate IsFan(seg: seq<Event>, cbs: seq<Cb>, hook: Hook, err: Err) {
    && |seg| <= |cbs|
    && (forall i :: 0 <= i < |seg| ==> seg[i].Ran? && seg[i].hook == hook && seg[i].cb == cbs[|cbs| - 1 - i])
    && (forall i :: 0 <= i < |seg| - 1 ==> seg[i].err == NIL)
    && (if err == NIL then |seg| == |cbs| && (seg != [] ==> seg[|seg| - 1].err == NIL)
        else seg != [] && seg[|seg| - 1].err == err)
  }

  lemma {:induction false} FanShape(cbs: seq<Cb>, hook: Hook, log: seq<Event>, oracle: Oracle) returns (seg: seq<Event>)
    ensures var r := Fan(cbs, hook, log, oracle);
            && r.log == log + seg
            && IsFan(seg, cbs, hook, r.err)
            && (r.err == NIL ==> r.files == FilesOf(seg))
    decreases |cbs|
  {
    if cbs == [] {
      seg := [];
    } else {
      var cb := cbs[|cbs| - 1];
      var o := oracle(log, hook, cb);
      var e := Ran(hook, cb, o.err, o.files);
      if o.err != NIL {
        seg := [e];
      } else {
        var tail := FanShape(cbs[..|cbs| - 1], hook, log + [e], oracle);
        seg := [e] + tail;
        assert log + [e] + tail == log + seg;
        FanAfter(e, tail, cbs, hook, Fan(cbs, hook, log, oracle).err);
      }
    }
  }

  // The last callback answered nil and the others went on
  lemma FanAfter(e: Event, tail: seq<Event>, cbs: seq<Cb>, hook: Hook, err: Err)
    requires cbs != [] && e.Ran? && e.hook == hook && e.cb == cbs[|cbs| - 1] && e.err == NIL
    requires IsFan(tail, cbs[..|cbs| - 1], hook, err)
    ensures IsFan([e] + tail, cbs, hook, err) && FilesOf([e] + tail) == e.files + FilesOf(tail)
  {
    var seg := [e] + tail;
    assert seg[1..] == tail;
    forall i | 0 <= i < |seg| ensures seg[i] == if i == 0 then e else tail[i - 1] {
    }
  }

  lemma CallShape(cbs: seq<Cb>, hook: Hook, log: seq<Event>, oracle: Oracle) returns (seg: seq<Event>)
    ensures var r := Call(cbs, hook, log, oracle);
            && r.log == log + [Called(hook)] + seg + [Returned(hook, r.err)]
            && IsFan(seg, cbs, hook, r.err)
            && (r.err == NIL ==> r.files == FilesOf(seg))
  {
    seg := FanShape(cbs, hook, log + [Called(hook)], oracle);
  }

  predicate Bracket(h: Hook) {
    h.Initialize? || h.InitializeDump? || h.InitializeRestore? || h.FinalizeDump? || h.FinalizeRestore?
  }

  predicate About(e: Event, h: Hook) {
    (e.Called? || e.Ran? || e.Returned?) && e.hook == h
  }

  // An event of the notification loop
  predicate InLoop(e: Event) {
    e.Acked? || ((e.Called? || e.Ran? || e.Returned?) && !Bracket(e.hook))
  }

  predicate Fails(e: Event) {
    e.Returned? && e.err != NIL && !e.hook.OrphanPtsMaster?
  }

  lemma CallAbout(cbs: seq<Cb>, hook: Hook, log: seq<Event>, oracle: Oracle)
    ensures var r := Call(cbs, hook, log, oracle);
            && log < r.log && |r.log| >= |log| + 2
            && r.log[|log|] == Called(hook) && r.log[|r.log| - 1] == Returned(hook, r.err)
            && (forall k :: |log| <= k < |r.log| ==> About(r.log[k], hook))
            && (forall k :: |log| < k < |r.log| - 1 ==> r.log[k].Ran?)
  {
    var seg := CallShape(cbs, hook, log, oracle);
  }

  /******* Acknowledgements *******/

  // The notification that a hook is for; those around a dump or a restore are for none
  function ScriptOf(h: Hook): string {
    match h
    case PreDump => "pre-dump"
    case PostDump => "post-dump"
    case PreRestore => "pre-restore"
    case PostRestore(_) => "post-restore"
    case NetworkLock => "network-lock"
    case NetworkUnlock => "network-unlock"
    case SetupNamespaces(_) => "setup-namespaces"
    case PostSetupNamespaces => "post-setup-namespaces"
    case PreResume => "pre-resume"
    case PostResume => "post-resume"
    case SkipNamespaces(_) => "skip-namespaces"
    case QueryExtFiles => "query-ext-files"
    case OrphanPtsMaster(_) => "orphan-pts-master"
    case _ => ""
  }

  // The notifications that hooks are for, orphan-pts-master apart
  predicate Known(script: string) {
    || script == "pre-dump" || script == "post-dump" || script == "pre-restore" || script == "post-restore"
    || script == "network-lock" || script == "network-unlock"
    || script == "setup-namespaces" || script == "post-setup-namespaces" || script == "skip-namespaces"
    || script == "pre-resume" || script == "post-resume" || script == "query-ext-files"
  }

  // The acknowledgement at k directly follows a call of its hook in which every registered callback
  // ran, last registered first, and answered nil; it carries their external files in that order
  predicate AckOk(log: seq<Event>, k: nat, cbs: seq<Cb>)
    requires k < |log| && log[k].Acked?
  {
    var script, n := log[k].script, |cbs|;
    if script == ORPHAN then k > 0 && log[k - 1].Returned? && log[k - 1].hook.OrphanPtsMaster?
    else Known(script) ==>
      && k >= n + 2 && log[k - n - 2].Called?
      && var h := log[k - n - 2].hook;
      && script == ScriptOf(h)
      && IsFan(log[k - n - 1..k - 1], cbs, h, NIL)
      && log[k - 1] == Returned(h, NIL)
      && log[k].external == if h.QueryExtFiles? then FilesOf(log[k - n - 1..k - 1]) else []
  }

  ghost predicate AcksOk(log: seq<Event>, cbs: seq<Cb>) {
    forall k :: 0 <= k < |log| && log[k].Acked? ==> AckOk(log, k, cbs)
  }

  lemma AcksExtend(log: seq<Event>, more: seq<Event>, cbs: seq<Cb>)
    requires AcksOk(log, cbs)
    requires forall i :: 0 <= i < |more| ==> !more[i].Acked?
    ensures AcksOk(log + more, cbs)
  {
    var log' := log + more;
    forall k | 0 <= k < |log'| && log'[k].Acked? ensures AckOk(log', k, cbs) {
      assert AckOk(log, k, cbs);
      AckStays(log, log', k, cbs);
    }
  }

  lemma CallKeepsAcks(cbs: seq<Cb>, hook: Hook, log: seq<Event>, oracle: Oracle)
    requires AcksOk(log, cbs)
    ensures AcksOk(Call(cbs, hook, log, oracle).log, cbs)
  {
    var more := CallSegment(cbs, hook, log, oracle);
    AcksExtend(log, more, cbs);
  }

  lemma CallSegment(cbs: seq<Cb>, hook: Hook, log: seq<Event>, oracle: Oracle) returns (more: seq<Event>)
    ensures Call(cbs, hook, log, oracle).log == log + more
    ensures forall i :: 0 <= i < |more| ==> !more[i].Acked?
  {
    var seg := CallShape(cbs, hook, log, oracle);
    var first, last := [Called(hook)], [Returned(hook, Call(cbs, hook, log, oracle).err)];
    more := first + seg + last;
    assert log + first + seg + last == log + more;
    forall i | 0 <= i < |more| ensures !more[i].Acked? {
      assert more[i] == if i == 0 then first[0] else if i <= |seg| then seg[i - 1] else last[0];
    }
  }

  lemma HookIsKnown(script: string, pid: int)
    ensures HookFor(script, pid).Some? <==> Known(script)
  {
  }

  lemma HookForFacts(script: string, pid: int)
    ensures HookFor(script, pid).Some? <==> Known(script)
    ensures HookFor(script, pid).Some? ==>
      var h := HookFor(script, pid).value;
      && !Bracket(h) && !h.OrphanPtsMaster? && script == ScriptOf(h)
      && (h.PostRestore? ==> h.pid == pid) && (h.SetupNamespaces? ==> h.pid == pid) && (h.SkipNamespaces? ==> h.pid == pid)
  {
    HookIsKnown(script, pid);
  }

  // A hook called for a notification, before its acknowledgement
  lemma HookShape(cbs: seq<Cb>, h: Hook, log: seq<Event>, oracle: Oracle)
    requires AcksOk(log, cbs) && !Bracket(h)
    ensures var c := Call(cbs, h, log, oracle);
            && log <= c.log && AcksOk(c.log, cbs)
            && (forall k :: |log| <= k < |c.log| ==> InLoop(c.log[k]) && About(c.log[k], h))
            && (forall k :: |log| <= k < |c.log| && Fails(c.log[k]) ==> c.err == c.log[k].err)
            && |c.log| > 0 && c.log[|c.log| - 1] == Returned(h, c.err)
            && (c.err == NIL ==> Complete(c.log, h, cbs, c.files))
  {
    CallAbout(cbs, h, log, oracle);
    CallKeepsAcks(cbs, h, log, oracle);
    var c := Call(cbs, h, log, oracle);
    var seg := CallShape(cbs, h, log, oracle);
    if c.err == NIL {
      var k := |c.log|;
      assert c.log[k - |cbs| - 2] == Called(h);
      assert c.log[k - |cbs| - 1..k - 1] == seg;
    }
  }

  // The log ends with a call of h in which every callback ran and answered nil
  predicate Complete(log: seq<Event>, h: Hook, cbs: seq<Cb>, files: seq<string>) {
    var k, n := |log|, |cbs|;
    && k >= n + 2 && log[k - n - 2] == Called(h)
    && IsFan(log[k - n - 1..k - 1], cbs, h, NIL)
    && log[k - 1] == Returned(h, NIL)
    && files == FilesOf(log[k - n - 1..k - 1])
  }

  lemma HandleShape(cbs: seq<Cb>, n: Reply, log: seq<Event>, oracle: Oracle)
    requires n.Notify? && AcksOk(log, cbs)
    ensures var c := Handle(cbs, n, log, oracle);
            && log <= c.log
            && (forall k :: |log| <= k < |c.log| ==> InLoop(c.log[k]))
            && (forall k :: |log| <= k < |c.log| && Fails(c.log[k]) ==> c.err == c.log[k].err)
            && AcksOk(c.log, cbs)
            && (c.err == NIL ==> AcksOk(c.log + [Acked(n.script, c.files)], cbs))
  {
    HookForFacts(n.script, n.pid);
    var hook := HookFor(n.script, n.pid);
    if n.script == ORPHAN {
      if n.rights.Fd? {
        HookShape(cbs, OrphanPtsMaster(n.rights.fd), log, oracle);
        AckAppended(Handle(cbs, n, log, oracle).log, n.script, [], None, cbs);
      }
    } else {
      if hook.Some? { HookShape(cbs, hook.value, log, oracle); }
      var c := Handle(cbs, n, log, oracle);
      if c.err == NIL { AckAppended(c.log, n.script, c.files, hook, cbs); }
    }
  }

  // The acknowledgement at k is as it was in a longer log
  lemma AckStays(log: seq<Event>, log': seq<Event>, k: nat, cbs: seq<Cb>)
    requires log <= log' && k < |log| && log[k].Acked? && AckOk(log, k, cbs)
    ensures AckOk(log', k, cbs)
  {
    var n := |cbs|;
    if k >= n + 2 { assert log'[k - n - 1..k - 1] == log[k - n - 1..k - 1]; }
  }

  lemma NewAckOk(log: seq<Event>, script: string, files: seq<string>, hook: Option<Hook>, cbs: seq<Cb>)
    requires script == ORPHAN ==> log != [] && log[|log| - 1].Returned? && log[|log| - 1].hook.OrphanPtsMaster?
    requires script != ORPHAN ==> (hook.Some? <==> Known(script))
    requires script != ORPHAN && hook.Some? ==>
               script == ScriptOf(hook.value)
               && exists fs :: Complete(log, hook.value, cbs, fs) && files == if hook.value.QueryExtFiles? then fs else []
    ensures AckOk(log + [Acked(script, files)], |log|, cbs)
  {
    var log', n, k := log + [Acked(script, files)], |cbs|, |log|;
    if k >= n + 2 { assert log'[k - n - 1..k - 1] == log[k - n - 1..k - 1]; }
  }

  lemma AckAppended(log: seq<Event>, script: string, files: seq<string>, hook: Option<Hook>, cbs: seq<Cb>)
    requires AcksOk(log, cbs)
    requires script == ORPHAN ==> log != [] && log[|log| - 1].Returned? && log[|log| - 1].hook.OrphanPtsMaster?
    requires script != ORPHAN ==> (hook.Some? <==> Known(script))
    requires script != ORPHAN && hook.Some? ==>
               script == ScriptOf(hook.value)
               && exists fs :: Complete(log, hook.value, cbs, fs) && files == if hook.value.QueryExtFiles? then fs else []
    ensures AcksOk(log + [Acked(script, files)], cbs)
  {
    var log' := log + [Acked(script, files)];
    forall k | 0 <= k < |log'| && log'[k].Acked? ensures AckOk(log', k, cbs) {
      if k < |log| {
        assert AckOk(log, k, cbs);
        AckStays(log, log', k, cbs);
      } else {
        NewAckOk(log, script, files, hook, cbs);
      }
    }
  }

  lemma {:induction false} LoopShape(nfy: Option<seq<Cb>>, replies: seq<Reply>, log: seq<Event>, oracle: Oracle, cbs: seq<Cb>)
    requires nfy == None || nfy == Some(cbs)
    requires AcksOk(log, cbs)
    ensures var r := Loop(nfy, replies, log, oracle);
            && log <= r.log
            && (forall k :: |log| <= k < |r.log| ==> InLoop(r.log[k]))
            && (forall k :: |log| <= k < |r.log| && Fails(r.log[k]) ==> r.err == r.log[k].err)
            && AcksOk(r.log, cbs)
            && (nfy == None ==> r.log == log)
            && (r.err == NIL <==> Concludes(r.resp))
    decreases |replies|
  {
    if replies != [] && replies[0].Notify? && nfy.Some? {
      var c := Handle(cbs, replies[0], log, oracle);
      HandleShape(cbs, replies[0], log, oracle);
      if c.err == NIL {
        var log' := c.log + [Acked(replies[0].script, c.files)];
        LoopShape(nfy, replies[1..], log', oracle, cbs);
        var r := Loop(nfy, replies, log, oracle);
        forall k | |log| <= k < |r.log| ensures InLoop(r.log[k]) && (Fails(r.log[k]) ==> r.err == r.log[k].err) {
          if k < |log'| { assert r.log[k] == log'[k]; }
        }
      }
    }
  }

  /******* The theorems *******/

  /**
   NotifySuccess is sent only after every registered callback has run its hook, last registered first,
   and answered nil, and the reply to query-ext-files is their lists in that order. The one exception
   is orphan-pts-master.
   */
  lemma AckDiscipline(req: Req, cbs: seq<Cb>, replies: seq<Reply>, prepared: Err, cleaned: Err, oracle: Oracle, k: nat)
    requires k < |DoSwrkWithResp(req, Some(cbs), replies, prepared, cleaned, oracle).log|
    requires DoSwrkWithResp(req, Some(cbs), replies, prepared, cleaned, oracle).log[k].Acked?
    ensures AckOk(DoSwrkWithResp(req, Some(cbs), replies, prepared, cleaned, oracle).log, k, cbs)
  {
    SessionAcks(req, cbs, replies, oracle);
    AcksExtend(Session(req, Some(cbs), replies, [Prepared], oracle).log, [CleanedUp], cbs);
  }

  lemma SessionAcks(req: Req, cbs: seq<Cb>, replies: seq<Reply>, oracle: Oracle)
    ensures AcksOk(Session(req, Some(cbs), replies, [Prepared], oracle).log, cbs)
  {
    var i := Call(cbs, Initialize, [Prepared], oracle);
    CallKeepsAcks(cbs, Initialize, [Prepared], oracle);
    if i.err == NIL {
      if req.ReqOther? {
        LoopShape(Some(cbs), replies, i.log, oracle, cbs);
      } else {
        var j := Call(cbs, InitializeFor(req).value, i.log, oracle);
        CallKeepsAcks(cbs, InitializeFor(req).value, i.log, oracle);
        if j.err == NIL {
          LoopShape(Some(cbs), replies, j.log, oracle, cbs);
          var l := Loop(Some(cbs), replies, j.log, oracle);
          CallKeepsAcks(cbs, FinalizeFor(req, l.err), l.log, oracle);
        }
      }
    }
  }

  predicate IsFinalize(e: Event) {
    e.Called? && (e.hook.FinalizeDump? || e.hook.FinalizeRestore?)
  }

  // At f the one finalize hook of the log begins: it is told the error of the run, nothing but its
  // callbacks comes between it and its return, and after that only the cleanup
  predicate FinalizesAt(log: seq<Event>, f: nat, req: Req, run: Err, fin: Err)
    requires !req.ReqOther?
  {
    && f < |log| - 2 && log[f] == Called(FinalizeFor(req, run))
    && (forall k :: f < k < |log| - 2 ==> log[k].Ran? && log[k].hook == FinalizeFor(req, run))
    && log[|log| - 2] == Returned(FinalizeFor(req, run), fin)
    && (forall k :: 0 <= k < |log| && IsFinalize(log[k]) ==> k == f)
  }

  // Cleanup is the last event and no other is; one finalize hook exactly if the matching initialize answered nil
  ghost predicate Bracketed(r: Result, req: Req, f: nat, run: Err, fin: Err, cleaned: Err) {
    && r.log != [] && r.log[|r.log| - 1] == CleanedUp
    && (forall k :: 0 <= k < |r.log| - 1 ==> r.log[k] != CleanedUp)
    && r.err == run + fin + cleaned
    && ((exists k :: 0 <= k < |r.log| && IsFinalize(r.log[k])) <==>
        InitializeFor(req).Some? && Returned(InitializeFor(req).value, NIL) in r.log)
    && (InitializeFor(req).Some? && Returned(InitializeFor(req).value, NIL) in r.log ==>
        FinalizesAt(r.log, f, req, run, fin) && (run == NIL <==> Concludes(r.resp)))
  }

  // A session without a finalize hook
  lemma Unfinalized(s: Result, req: Req, cleaned: Err)
    requires forall k :: 0 <= k < |s.log| ==> s.log[k] != CleanedUp && !IsFinalize(s.log[k])
    requires InitializeFor(req).Some? ==> Returned(InitializeFor(req).value, NIL) !in s.log
    ensures Bracketed(s.(log := s.log + [CleanedUp], err := s.err + cleaned), req, 0, s.err, NIL, cleaned)
  {
    var log := s.log + [CleanedUp];
    forall k | 0 <= k < |log| ensures !IsFinalize(log[k]) && (k < |s.log| ==> log[k] != CleanedUp) {
      if k < |s.log| { assert log[k] == s.log[k]; }
    }
    assert s.err + NIL + cleaned == s.err + cleaned;
  }

  /**
   Cleanup comes exactly once and last whenever setup succeeded. The finalize hook runs exactly once if
   and only if the matching initialize hook answered nil, after every other hook and before cleanup, and
   is told the error the run ended with. Neither its error nor the error of cleanup is lost.
   */
  lemma Bracketing(req: Req, cbs: seq<Cb>, replies: seq<Reply>, cleaned: Err, oracle: Oracle) returns (f: nat, run: Err, fin: Err)
    ensures Bracketed(DoSwrkWithResp(req, Some(cbs), replies, NIL, cleaned, oracle), req, f, run, fin, cleaned)
  {
    var s := Session(req, Some(cbs), replies, [Prepared], oracle);
    f, run, fin := 0, s.err, NIL;
    if Call(cbs, Initialize, [Prepared], oracle).err != NIL {
      RefusedLog(req, cbs, replies, oracle);
      Unfinalized(s, req, cleaned);
    } else if req.ReqOther? {
      OtherLog(req, cbs, replies, oracle);
      Unfinalized(s, req, cleaned);
    } else {
      f, run, fin := Finalized(req, cbs, replies, cleaned, oracle);
    }
  }

  lemma RefusedLog(req: Req, cbs: seq<Cb>, replies: seq<Reply>, oracle: Oracle)
    requires Call(cbs, Initialize, [Prepared], oracle).err != NIL
    ensures var s := Session(req, Some(cbs), replies, [Prepared], oracle);
            forall k :: 0 <= k < |s.log| ==> s.log[k].Prepared? || About(s.log[k], Initialize)
  {
    CallAbout(cbs, Initialize, [Prepared], oracle);
  }

  lemma OtherLog(req: Req, cbs: seq<Cb>, replies: seq<Reply>, oracle: Oracle)
    requires Call(cbs, Initialize, [Prepared], oracle).err == NIL && req.ReqOther?
    ensures var s := Session(req, Some(cbs), replies, [Prepared], oracle);
            forall k :: 0 <= k < |s.log| ==> s.log[k].Prepared? || About(s.log[k], Initialize) || InLoop(s.log[k])
  {
    CallAbout(cbs, Initialize, [Prepared], oracle);
    CallKeepsAcks(cbs, Initialize, [Prepared], oracle);
    var i := Call(cbs, Initialize, [Prepared], oracle);
    LoopShape(Some(cbs), replies, i.log, oracle, cbs);
    assert forall k :: 0 <= k < |i.log| ==> Session(req, Some(cbs), replies, [Prepared], oracle).log[k] == i.log[k];
  }

  // A session whose initialize hooks answered nil: they come first, then the loop from index m, then
  // the finalize hook from index f
  predicate Parts(log: seq<Event>, m: nat, f: nat, h: Hook, fin: Hook) {
    && 1 <= m <= f < |log| - 1
    && (forall k :: 0 <= k < m ==> log[k].Prepared? || About(log[k], Initialize) || About(log[k], h))
    && (forall k :: 0 <= k < m ==> !Fails(log[k]))
    && log[m - 1] == Returned(h, NIL)
    && (forall k :: m <= k < f ==> InLoop(log[k]))
    && log[f] == Called(fin)
    && (forall k :: f < k < |log| - 1 ==> log[k].Ran? && log[k].hook == fin)
    && log[|log| - 1].Returned? && log[|log| - 1].hook == fin
  }

  lemma OpeningParts(req: Req, cbs: seq<Cb>, oracle: Oracle)
    requires !req.ReqOther? && Call(cbs, Initialize, [Prepared], oracle).err == NIL
    ensures var i := Call(cbs, Initialize, [Prepared], oracle);
            var h := InitializeFor(req).value;
            var j := Call(cbs, h, i.log, oracle);
            && |j.log| > 0 && j.log[|j.log| - 1] == Returned(h, j.err)
            && (forall k :: 0 <= k < |j.log| ==> j.log[k].Prepared? || About(j.log[k], Initialize) || About(j.log[k], h))
            && (forall k :: 0 <= k < |j.log| && j.log[k].Returned? && j.log[k].hook == h ==> j.log[k].err == j.err)
            && (forall k :: 0 <= k < |j.log| && Fails(j.log[k]) ==> j.log[k].err == j.err)
            && AcksOk(j.log, cbs)
  {
    CallAbout(cbs, Initialize, [Prepared], oracle);
    CallKeepsAcks(cbs, Initialize, [Prepared], oracle);
    var i := Call(cbs, Initialize, [Prepared], oracle);
    assert forall k :: 0 <= k < |i.log| ==> (i.log[k].Prepared? || About(i.log[k], Initialize)) && !Fails(i.log[k]);
    CallKeepsAcks(cbs, InitializeFor(req).value, i.log, oracle);
    SecondOpening(cbs, InitializeFor(req).value, i.log, oracle);
  }

  // The second initialize hook, after the first answered nil
  lemma SecondOpening(cbs: seq<Cb>, h: Hook, log: seq<Event>, oracle: Oracle)
    requires forall k :: 0 <= k < |log| ==> (log[k].Prepared? || About(log[k], Initialize)) && !Fails(log[k])
    requires !h.Initialize?
    ensures var j := Call(cbs, h, log, oracle);
            && |j.log| > 0 && j.log[|j.log| - 1] == Returned(h, j.err)
            && (forall k :: 0 <= k < |j.log| ==> j.log[k].Prepared? || About(j.log[k], Initialize) || About(j.log[k], h))
            && (forall k :: 0 <= k < |j.log| && j.log[k].Returned? && j.log[k].hook == h ==> j.log[k].err == j.err)
            && (forall k :: 0 <= k < |j.log| && Fails(j.log[k]) ==> j.log[k].err == j.err)
  {
    CallAbout(cbs, h, log, oracle);
    var j := Call(cbs, h, log, oracle);
    assert forall k :: 0 <= k < |log| ==> j.log[k] == log[k];
  }

  lemma SessionParts(req: Req, cbs: seq<Cb>, replies: seq<Reply>, oracle: Oracle) returns (m: nat, f: nat, run: Err, fin: Err)
    requires !req.ReqOther? && Call(cbs, Initialize, [Prepared], oracle).err == NIL
    requires Call(cbs, InitializeFor(req).value, Call(cbs, Initialize, [Prepared], oracle).log, oracle).err == NIL
    ensures var s := Session(req, Some(cbs), replies, [Prepared], oracle);
            && Parts(s.log, m, f, InitializeFor(req).value, FinalizeFor(req, run))
            && s.log[|s.log| - 1].err == fin && s.err == run + fin
            && (run == NIL <==> Concludes(s.resp))
            && (forall k :: m <= k < f && Fails(s.log[k]) ==> s.log[k].err == run)
  {
    OpeningParts(req, cbs, oracle);
    var h := InitializeFor(req).value;
    var j := Call(cbs, h, Call(cbs, Initialize, [Prepared], oracle).log, oracle);
    var l := Loop(Some(cbs), replies, j.log, oracle);
    LoopShape(Some(cbs), replies, j.log, oracle, cbs);
    CallAbout(cbs, FinalizeFor(req, l.err), l.log, oracle);
    var c := Call(cbs, FinalizeFor(req, l.err), l.log, oracle);
    m, f, run, fin := |j.log|, |l.log|, l.err, c.err;
    assert forall k :: 0 <= k < m ==> c.log[k] == j.log[k];
    assert forall k :: 0 <= k < f ==> c.log[k] == l.log[k];
  }

  lemma PartsFinalize(log: seq<Event>, m: nat, f: nat, req: Req, run: Err, fin: Err)
    requires !req.ReqOther? && Parts(log, m, f, InitializeFor(req).value, FinalizeFor(req, run))
    requires log[|log| - 1].err == fin
    ensures var log' := log + [CleanedUp];
            && FinalizesAt(log', f, req, run, fin)
            && IsFinalize(log'[f])
            && Returned(InitializeFor(req).value, NIL) in log'
            && forall k :: 0 <= k < |log'| - 1 ==> log'[k] != CleanedUp
  {
    var log' := log + [CleanedUp];
    assert log'[m - 1] == Returned(InitializeFor(req).value, NIL);
    forall k | 0 <= k < |log'| ensures (IsFinalize(log'[k]) ==> k == f) && (k < |log'| - 1 ==> log'[k] != CleanedUp) {
      if k < |log| { assert log'[k] == log[k]; }
    }
    assert forall k :: f < k < |log| - 1 ==> log'[k] == log[k];
  }

  lemma Finalized(req: Req, cbs: seq<Cb>, replies: seq<Reply>, cleaned: Err, oracle: Oracle) returns (f: nat, run: Err, fin: Err)
    requires !req.ReqOther? && Call(cbs, Initialize, [Prepared], oracle).err == NIL
    ensures Bracketed(DoSwrkWithResp(req, Some(cbs), replies, NIL, cleaned, oracle), req, f, run, fin, cleaned)
  {
    var s := Session(req, Some(cbs), replies, [Prepared], oracle);
    var j := Call(cbs, InitializeFor(req).value, Call(cbs, Initialize, [Prepared], oracle).log, oracle);
    f, run, fin := 0, s.err, NIL;
    if j.err == NIL {
      var m;
      m, f, run, fin := SessionParts(req, cbs, replies, oracle);
      PartsFinalize(s.log, m, f, req, run, fin);
    } else {
      TurnedLog(req, cbs, replies, oracle);
      Unfinalized(s, req, cleaned);
    }
  }

  lemma TurnedLog(req: Req, cbs: seq<Cb>, replies: seq<Reply>, oracle: Oracle)
    requires !req.ReqOther? && Call(cbs, Initialize, [Prepared], oracle).err == NIL
    requires Call(cbs, InitializeFor(req).value, Call(cbs, Initialize, [Prepared], oracle).log, oracle).err != NIL
    ensures var s := Session(req, Some(cbs), replies, [Prepared], oracle);
            && (forall k :: 0 <= k < |s.log| ==> s.log[k] != CleanedUp && !IsFinalize(s.log[k]))
            && Returned(InitializeFor(req).value, NIL) !in s.log
  {
    OpeningParts(req, cbs, oracle);
  }

  ghost predicate Joined(e: Err, err: Err) {
    e != NIL ==> err != NIL && forall a :: a in e ==> a in err
  }

  /**
   No failure is lost: whatever hook answers an error, and whatever setup or cleanup reports, is part of
   the error of the call. The one exception is orphan-pts-master.
   */
  lemma FailureSurfaces(req: Req, cbs: seq<Cb>, replies: seq<Reply>, prepared: Err, cleaned: Err, oracle: Oracle)
    ensures var r := DoSwrkWithResp(req, Some(cbs), replies, prepared, cleaned, oracle);
            && Joined(prepared, r.err) && (prepared == NIL ==> Joined(cleaned, r.err))
            && (forall k :: 0 <= k < |r.log| && Fails(r.log[k]) ==> Joined(r.log[k].err, r.err))
  {
    var r := DoSwrkWithResp(req, Some(cbs), replies, prepared, cleaned, oracle);
    if prepared == NIL {
      var s := Session(req, Some(cbs), replies, [Prepared], oracle);
      SessionFailures(req, cbs, replies, oracle);
      forall k | 0 <= k < |r.log| && Fails(r.log[k]) ensures Joined(r.log[k].err, r.err) {
        assert r.log[k] == s.log[k];
        assert Joined(s.log[k].err, s.err);
      }
    }
  }

  lemma SessionFailures(req: Req, cbs: seq<Cb>, replies: seq<Reply>, oracle: Oracle)
    ensures var s := Session(req, Some(cbs), replies, [Prepared], oracle);
            && (forall k :: 0 <= k < |s.log| && Fails(s.log[k]) ==> Joined(s.log[k].err, s.err))
            && ((forall k :: 0 <= k < |s.log| ==> !Fails(s.log[k])) && Concludes(s.resp) ==> s.err == NIL)
            && (s.err == NIL ==> Concludes(s.resp))
  {
    var i := Call(cbs, Initialize, [Prepared], oracle);
    CallAbout(cbs, Initialize, [Prepared], oracle);
    CallKeepsAcks(cbs, Initialize, [Prepared], oracle);
    if i.err == NIL {
      if req.ReqOther? {
        LoopShape(Some(cbs), replies, i.log, oracle, cbs);
      } else if Call(cbs, InitializeFor(req).value, i.log, oracle).err == NIL {
        FinalizedFailures(req, cbs, replies, oracle);
      } else {
        OpeningParts(req, cbs, oracle);
      }
    }
  }

  lemma FinalizedFailures(req: Req, cbs: seq<Cb>, replies: seq<Reply>, oracle: Oracle)
    requires !req.ReqOther? && Call(cbs, Initialize, [Prepared], oracle).err == NIL
    requires Call(cbs, InitializeFor(req).value, Call(cbs, Initialize, [Prepared], oracle).log, oracle).err == NIL
    ensures var s := Session(req, Some(cbs), replies, [Prepared], oracle);
            && (forall k :: 0 <= k < |s.log| && Fails(s.log[k]) ==> Joined(s.log[k].err, s.err))
            && ((forall k :: 0 <= k < |s.log| ==> !Fails(s.log[k])) && Concludes(s.resp) ==> s.err == NIL)
            && (s.err == NIL ==> Concludes(s.resp))
  {
    var m, f, run, fin := SessionParts(req, cbs, replies, oracle);
    var s := Session(req, Some(cbs), replies, [Prepared], oracle);
    PartsFailures(s.log, m, f, InitializeFor(req).value, FinalizeFor(req, run), run, fin);
  }

  lemma PartsFailures(log: seq<Event>, m: nat, f: nat, h: Hook, last: Hook, run: Err, fin: Err)
    requires Parts(log, m, f, h, last) && log[|log| - 1].err == fin && !last.OrphanPtsMaster?
    requires forall k :: m <= k < f && Fails(log[k]) ==> log[k].err == run
    ensures forall k :: 0 <= k < |log| && Fails(log[k]) ==> Joined(log[k].err, run + fin)
    ensures (forall k :: 0 <= k < |log| ==> !Fails(log[k])) ==> fin == NIL
    ensures run + fin == NIL ==> run == NIL
  {
    forall k | 0 <= k < |log| && Fails(log[k]) ensures Joined(log[k].err, run + fin) {
      if k >= f { assert k == |log| - 1; }
    }
    assert Fails(log[|log| - 1]) || fin == NIL;
  }

  /**
   A call succeeds exactly when setup and cleanup worked, CRIU ended with the response asked for, and
   every hook but orphan-pts-master answered nil.
   */
  lemma SucceedsIff(req: Req, cbs: seq<Cb>, replies: seq<Reply>, prepared: Err, cleaned: Err, oracle: Oracle)
    ensures var r := DoSwrk(req, Some(cbs), replies, prepared, cleaned, oracle);
            r.err == NIL <==>
            && prepared == NIL && cleaned == NIL && r.resp == Some(Final(req))
            && forall k :: 0 <= k < |r.log| ==> !Fails(r.log[k])
  {
    var r := DoSwrk(req, Some(cbs), replies, prepared, cleaned, oracle);
    FailureSurfaces(req, cbs, replies, prepared, cleaned, oracle);
    SessionFailures(req, cbs, replies, oracle);
    var s := Session(req, Some(cbs), replies, [Prepared], oracle);
    if prepared == NIL {
      assert r.log == s.log + [CleanedUp];
      if forall k :: 0 <= k < |r.log| ==> !Fails(r.log[k]) {
        forall k | 0 <= k < |s.log| ensures !Fails(s.log[k]) { assert s.log[k] == r.log[k]; }
      }
    }
  }

  /**
   Whatever the callbacks answer to orphan-pts-master, the notification is acknowledged and the loop goes on.
   */
  lemma OrphanAnswerIsLost(cbs: seq<Cb>, pid: int, fd: int, rest: seq<Reply>, log: seq<Event>, oracle: Oracle)
    ensures Loop(Some(cbs), [Notify(ORPHAN, pid, Fd(fd))] + rest, log, oracle)
         == Loop(Some(cbs), rest, Call(cbs, OrphanPtsMaster(fd), log, oracle).log + [Acked(ORPHAN, [])], oracle)
  {
    var replies := [Notify(ORPHAN, pid, Fd(fd))] + rest;
    assert replies[0] == Notify(ORPHAN, pid, Fd(fd)) && replies[1..] == rest;
  }

  const ORPHAN_FAILS: Oracle := (log: seq<Event>, hook: Hook, cb: Cb) => Outcome(if hook.OrphanPtsMaster? then [9] else NIL, [])

  lemma OnlyCall(hook: Hook, log: seq<Event>)
    ensures var e := if hook.OrphanPtsMaster? then [9] else NIL;
            Call([0], hook, log, ORPHAN_FAILS) == Hooked(log + [Called(hook), Ran(hook, 0, e, []), Returned(hook, e)], e, [])
  {
    var e: Err := if hook.OrphanPtsMaster? then [9] else NIL;
    var ran := log + [Called(hook)] + [Ran(hook, 0, e, [])];
    assert [0][..0] == [] && Fan([], hook, ran, ORPHAN_FAILS) == Hooked(ran, NIL, []);
    assert ran + [Returned(hook, e)] == log + [Called(hook), Ran(hook, 0, e, []), Returned(hook, e)];
  }

  // A call in which the hook fails, and which returns no error
  lemma OrphanFailureIsLost()
    ensures var req := ReqOther(0);
            var r := DoSwrkWithResp(req, Some([0]), [Notify(ORPHAN, 1, Fd(5)), Final(req)], NIL, NIL, ORPHAN_FAILS);
            && r.err == NIL && r.resp == Some(Final(req))
            && |r.log| > 7 && r.log[6] == Returned(OrphanPtsMaster(5), [9]) && r.log[7] == Acked(ORPHAN, [])
  {
    OnlyCall(Initialize, [Prepared]);
    OrphanLoop(Call([0], Initialize, [Prepared], ORPHAN_FAILS).log);
  }

  lemma OrphanLoop(log: seq<Event>)
    ensures var req := ReqOther(0);
            var orphan := OrphanPtsMaster(5);
            Loop(Some([0]), [Notify(ORPHAN, 1, Fd(5)), Final(req)], log, ORPHAN_FAILS)
              == Result(log + [Called(orphan), Ran(orphan, 0, [9], []), Returned(orphan, [9])] + [Acked(ORPHAN, [])], NIL, Some(Final(req)))
  {
    var done := [Final(ReqOther(0))];
    assert [Notify(ORPHAN, 1, Fd(5))] + done == [Notify(ORPHAN, 1, Fd(5)), Final(ReqOther(0))];
    OrphanAnswerIsLost([0], 1, 5, done, log, ORPHAN_FAILS);
    OnlyCall(OrphanPtsMaster(5), log);
  }

  // Without callbacks there are no hooks, and a notification is an error
  lemma WithoutCallbacks(req: Req, replies: seq<Reply>, cleaned: Err, oracle: Oracle)
    ensures var r := DoSwrkWithResp(req, None, replies, NIL, cleaned, oracle);
            && r.log == [Prepared, CleanedUp]
            && (r.err == NIL <==> cleaned == NIL && replies != [] && replies[0].Final?)
  {
    LoopShape(None, replies, [Prepared], oracle, []);
  }
}
