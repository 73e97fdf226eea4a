/**
 A CRIU call as one of its callbacks sees it: which hooks it is asked to run, in what order, and how its
 answers show in the result of the call.
 */
module CriuView {
  import opened CriuDriver
  import opened CriuBracketing

  // One hook that the callback ran and what it answered; at is the log before it ran
  datatype Saw = Saw(hook: Hook, at: seq<Event>, err: Err)

  function View(log: seq<Event>, me: Cb): seq<Saw> {
    if log == [] then []
    else
      var e, before := log[|log| - 1], log[..|log| - 1];
      View(before, me) + if e.Ran? && e.cb == me then [Saw(e.hook, before, e.err)] else []
  }

  lemma {:induction false} ViewSkips(log: seq<Event>, seg: seq<Event>, me: Cb)
    requires forall i :: 0 <= i < |seg| ==> !(seg[i].Ran? && seg[i].cb == me)
    ensures View(log + seg, me) == View(log, me)
    decreases |seg|
  {
    if seg == [] {
      assert log + seg == log;
    } else {
      var n := |seg| - 1;
      assert (log + seg)[..|log + seg| - 1] == log + seg[..n];
      ViewSkips(log, seg[..n], me);
    }
  }

  // me is registered once, after the callbacks in before and before those in after
  predicate Registered(cbs: seq<Cb>, before: seq<Cb>, me: Cb, after: seq<Cb>) {
    cbs == before + [me] + after && forall i, j :: 0 <= i < j < |cbs| ==> cbs[i] != cbs[j]
  }

  // Every callback of the segment registered after me answered nil, so me had its turn
  predicate Reached(seg: seq<Event>, after: seq<Cb>) {
    |seg| > |after|
  }

  lemma FanView(seg: seq<Event>, hook: Hook, err: Err, cbs: seq<Cb>, before: seq<Cb>, me: Cb, after: seq<Cb>, log: seq<Event>)
    requires Registered(cbs, before, me, after) && IsFan(seg, cbs, hook, err)
    ensures View(log + seg, me) ==
            View(log, me) + if Reached(seg, after) then [Saw(hook, log + seg[..|after|], seg[|after|].err)] else []
  {
    var n := |after|;
    var b := |before|;
    assert cbs[b] == me && b == |cbs| - 1 - n;
    forall i | 0 <= i < |seg| ensures seg[i].cb == me <==> i == n {
      var q := |cbs| - 1 - i;
      assert seg[i].cb == cbs[q];
      if q < b { assert cbs[q] != cbs[b]; }
      if b < q { assert cbs[b] != cbs[q]; }
    }
    if |seg| > n {
      var head, tail := seg[..n], seg[n + 1..];
      assert seg == head + [seg[n]] + tail;
      assert log + seg == log + head + [seg[n]] + tail;
      ViewSkips(log, head, me);
      ViewSkips(log + head + [seg[n]], tail, me);
      assert (log + head + [seg[n]])[..|log + head|] == log + head;
    } else {
      ViewSkips(log, seg, me);
    }
  }

  // What one hook call adds to the view
  lemma CallView(cbs: seq<Cb>, hook: Hook, log: seq<Event>, oracle: Oracle, before: seq<Cb>, me: Cb, after: seq<Cb>)
    returns (seg: seq<Event>)
    requires Registered(cbs, before, me, after)
    ensures var r := Call(cbs, hook, log, oracle);
            && r.log == log + [Called(hook)] + seg + [Returned(hook, r.err)]
            && IsFan(seg, cbs, hook, r.err)
            && (r.err == NIL ==> Reached(seg, after) && seg[|after|].err == NIL)
            && View(r.log, me) == View(log, me) +
               if Reached(seg, after) then [Saw(hook, log + [Called(hook)] + seg[..|after|], seg[|after|].err)] else []
  {
    seg := CallShape(cbs, hook, log, oracle);
    var r := Call(cbs, hook, log, oracle);
    ViewSkips(log, [Called(hook)], me);
    FanView(seg, hook, r.err, cbs, before, me, after, log + [Called(hook)]);
    ViewSkips(log + [Called(hook)] + seg, [Returned(hook, r.err)], me);
  }

  // The same, without the log
  lemma CallAdds(cbs: seq<Cb>, hook: Hook, log: seq<Event>, oracle: Oracle, before: seq<Cb>, me: Cb, after: seq<Cb>)
    returns (x: seq<Saw>)
    requires Registered(cbs, before, me, after)
    ensures var r := Call(cbs, hook, log, oracle);
            View(r.log, me) == View(log, me) + x && |x| <= 1
            && (|x| == 1 ==> x[0].hook == hook)
            && (r.err == NIL ==> |x| == 1 && x[0].err == NIL)
  {
    var seg := CallView(cbs, hook, log, oracle, before, me, after);
    x := if Reached(seg, after) then [Saw(hook, log + [Called(hook)] + seg[..|after|], seg[|after|].err)] else [];
  }

  // Hooks of the notification loop that the callback has seen between v and w
  predicate LoopHooks(v: seq<Saw>, w: seq<Saw>) {
    v <= w && forall i :: |v| <= i < |w| ==> !Bracket(w[i].hook)
  }

  lemma HandleView(cbs: seq<Cb>, n: Reply, log: seq<Event>, oracle: Oracle, before: seq<Cb>, me: Cb, after: seq<Cb>)
    requires n.Notify? && Registered(cbs, before, me, after)
    ensures LoopHooks(View(log, me), View(Handle(cbs, n, log, oracle).log, me))
  {
    HookForFacts(n.script, n.pid);
    if n.script == ORPHAN {
      if n.rights.Fd? { HookView(cbs, OrphanPtsMaster(n.rights.fd), log, oracle, before, me, after); }
    } else if HookFor(n.script, n.pid).Some? {
      HookView(cbs, HookFor(n.script, n.pid).value, log, oracle, before, me, after);
    }
  }

  lemma HookView(cbs: seq<Cb>, hook: Hook, log: seq<Event>, oracle: Oracle, before: seq<Cb>, me: Cb, after: seq<Cb>)
    requires Registered(cbs, before, me, after) && !Bracket(hook)
    ensures LoopHooks(View(log, me), View(Call(cbs, hook, log, oracle).log, me))
  {
    var x := CallAdds(cbs, hook, log, oracle, before, me, after);
  }

  lemma LoopHooksTogether(u: seq<Saw>, v: seq<Saw>, w: seq<Saw>)
    requires LoopHooks(u, v) && LoopHooks(v, w)
    ensures LoopHooks(u, w)
  {
    assert forall i :: |u| <= i < |v| ==> w[i] == v[i];
  }

  lemma {:induction false} LoopView(cbs: seq<Cb>, replies: seq<Reply>, log: seq<Event>, oracle: Oracle,
                                    before: seq<Cb>, me: Cb, after: seq<Cb>)
    requires Registered(cbs, before, me, after)
    ensures LoopHooks(View(log, me), View(Loop(Some(cbs), replies, log, oracle).log, me))
    decreases |replies|
  {
    if replies != [] && replies[0].Notify? {
      HandleView(cbs, replies[0], log, oracle, before, me, after);
      var c := Handle(cbs, replies[0], log, oracle);
      if c.err == NIL {
        var ack := [Acked(replies[0].script, c.files)];
        ViewSkips(c.log, ack, me);
        LoopView(cbs, replies[1..], c.log + ack, oracle, before, me, after);
        LoopHooksTogether(View(log, me), View(c.log, me), View(Loop(Some(cbs), replies, log, oracle).log, me));
      }
    }
  }

  // The two ways a dump or a restore can look to a callback
  datatype Story =
    | Turned(seen: nat)                          // an initialize hook failed: the first seen of the two
    | Whole(run: Err, fin: Err, finalized: bool) // both answered nil, so the loop ran and then finalize

  predicate Tells(v: seq<Saw>, req: Req, story: Story)
    requires !req.ReqOther?
  {
    match story
    case Turned(seen) =>
      && |v| == seen <= 2
      && (seen >= 1 ==> v[0].hook == Initialize)
      && (seen == 2 ==> v[0].err == NIL && v[1].hook == InitializeFor(req).value)
    case Whole(run, fin, finalized) =>
      var n := if finalized then |v| - 1 else |v|;
      && n >= 2
      && v[0].hook == Initialize && v[0].err == NIL
      && v[1].hook == InitializeFor(req).value && v[1].err == NIL
      && (forall i :: 2 <= i < n ==> !Bracket(v[i].hook))
      && (finalized ==> v[n].hook == FinalizeFor(req, run))
      && (!finalized ==> fin != NIL)
      && (fin == NIL ==> finalized && v[n].err == NIL)
  }

  // Some callback registered after me answered an error when asked to finalize
  ghost predicate LaterFinalizerFails(log: seq<Event>, after: seq<Cb>) {
    exists k :: 0 <= k < |log| && log[k].Ran? && (log[k].hook.FinalizeDump? || log[k].hook.FinalizeRestore?)
                && log[k].cb in after && log[k].err != NIL
  }

  /**
   What a callback sees of a dump or restore, for every reply of CRIU and every answer of the others:
   at most the two initialize hooks if one of them fails, else both, then the hooks of the loop, then
   finalize once with the error of the run, which it misses exactly when a callback registered later
   fails to finalize.
   */
  lemma CallbackStory(req: Req, cbs: seq<Cb>, replies: seq<Reply>, cleaned: Err, oracle: Oracle, before: seq<Cb>, me: Cb, after: seq<Cb>)
    returns (story: Story)
    requires !req.ReqOther? && Registered(cbs, before, me, after)
    ensures var r := DoSwrkWithResp(req, Some(cbs), replies, NIL, cleaned, oracle);
            && Tells(View(r.log, me), req, story)
            && (story.Whole? <==> Returned(InitializeFor(req).value, NIL) in r.log)
            && (story.Whole? ==> r.err == story.run + story.fin + cleaned)
            && (story.Whole? ==> (story.finalized <==> !LaterFinalizerFails(r.log, after)))
  {
    var s := Session(req, Some(cbs), replies, [Prepared], oracle);
    ViewSkips(s.log, [CleanedUp], me);
    LaterFinalizerInSession(s.log, after);
    story := SessionStory(req, cbs, replies, oracle, before, me, after);
    var log' := s.log + [CleanedUp];
    var init := Returned(InitializeFor(req).value, NIL);
    assert init in log' <==> init in s.log;
  }

  // After the initialize hook a, with its answer, and the initialize hook b if a answered nil
  predicate Opened(v: seq<Saw>, h: Hook, a: Err, b: Err) {
    && |v| <= 2
    && (|v| >= 1 ==> v[0].hook == Initialize)
    && (|v| == 2 ==> a == NIL && v[0].err == NIL && v[1].hook == h)
    && (a == NIL && b == NIL ==> |v| == 2 && v[1].err == NIL)
  }

  lemma InitializeView(cbs: seq<Cb>, oracle: Oracle, before: seq<Cb>, me: Cb, after: seq<Cb>) returns (x: seq<Saw>)
    requires Registered(cbs, before, me, after)
    ensures var i := Call(cbs, Initialize, [Prepared], oracle);
            View(i.log, me) == x && |x| <= 1
            && (|x| == 1 ==> x[0].hook == Initialize)
            && (i.err == NIL ==> |x| == 1 && x[0].err == NIL)
  {
    ViewSkips([], [Prepared], me);
    assert [] + [Prepared] == [Prepared];
    x := CallAdds(cbs, Initialize, [Prepared], oracle, before, me, after);
  }

  lemma OpeningView(req: Req, cbs: seq<Cb>, oracle: Oracle, before: seq<Cb>, me: Cb, after: seq<Cb>, i: Hooked, j: Hooked)
    requires !req.ReqOther? && Registered(cbs, before, me, after)
    requires i == Call(cbs, Initialize, [Prepared], oracle) && i.err == NIL
    requires j == Call(cbs, InitializeFor(req).value, i.log, oracle)
    ensures Opened(View(j.log, me), InitializeFor(req).value, NIL, j.err)
  {
    var x := InitializeView(cbs, oracle, before, me, after);
    var y := CallAdds(cbs, InitializeFor(req).value, i.log, oracle, before, me, after);
    assert View(j.log, me) == x + y;
  }

  lemma SessionStory(req: Req, cbs: seq<Cb>, replies: seq<Reply>, oracle: Oracle, before: seq<Cb>, me: Cb, after: seq<Cb>)
    returns (story: Story)
    requires !req.ReqOther? && Registered(cbs, before, me, after)
    ensures var s := Session(req, Some(cbs), replies, [Prepared], oracle);
            && Tells(View(s.log, me), req, story)
            && (story.Whole? <==> Returned(InitializeFor(req).value, NIL) in s.log)
            && (story.Whole? ==> s.err == story.run + story.fin)
            && (story.Whole? ==> (story.finalized <==> !LaterFinalizerFails(s.log, after)))
  {
    var i := Call(cbs, Initialize, [Prepared], oracle);
    if i.err != NIL {
      story := TurnedFirst(req, cbs, replies, oracle, before, me, after);
    } else if Call(cbs, InitializeFor(req).value, i.log, oracle).err != NIL {
      story := TurnedSecond(req, cbs, replies, oracle, before, me, after);
    } else {
      story := WholeSession(req, cbs, replies, oracle, before, me, after);
    }
  }

  lemma TurnedFirst(req: Req, cbs: seq<Cb>, replies: seq<Reply>, oracle: Oracle, before: seq<Cb>, me: Cb, after: seq<Cb>)
    returns (story: Story)
    requires !req.ReqOther? && Registered(cbs, before, me, after)
    requires Call(cbs, Initialize, [Prepared], oracle).err != NIL
    ensures var s := Session(req, Some(cbs), replies, [Prepared], oracle);
            story.Turned? && Tells(View(s.log, me), req, story) && Returned(InitializeFor(req).value, NIL) !in s.log
  {
    var x := InitializeView(cbs, oracle, before, me, after);
    RefusedLog(req, cbs, replies, oracle);
    story := Turned(|x|);
  }

  lemma TurnedSecond(req: Req, cbs: seq<Cb>, replies: seq<Reply>, oracle: Oracle, before: seq<Cb>, me: Cb, after: seq<Cb>)
    returns (story: Story)
    requires !req.ReqOther? && Registered(cbs, before, me, after)
    requires Call(cbs, Initialize, [Prepared], oracle).err == NIL
    requires Call(cbs, InitializeFor(req).value, Call(cbs, Initialize, [Prepared], oracle).log, oracle).err != NIL
    ensures var s := Session(req, Some(cbs), replies, [Prepared], oracle);
            story.Turned? && Tells(View(s.log, me), req, story) && Returned(InitializeFor(req).value, NIL) !in s.log
  {
    var i := Call(cbs, Initialize, [Prepared], oracle);
    var j := Call(cbs, InitializeFor(req).value, i.log, oracle);
    OpeningView(req, cbs, oracle, before, me, after, i, j);
    OpeningParts(req, cbs, oracle);
    NotInOpening(j.log, InitializeFor(req).value, j.err);
    story := Turned(|View(j.log, me)|);
  }

  lemma WholeSession(req: Req, cbs: seq<Cb>, replies: seq<Reply>, oracle: Oracle, before: seq<Cb>, me: Cb, after: seq<Cb>)
    returns (story: Story)
    requires !req.ReqOther? && Registered(cbs, before, me, after)
    requires Call(cbs, Initialize, [Prepared], oracle).err == NIL
    requires Call(cbs, InitializeFor(req).value, Call(cbs, Initialize, [Prepared], oracle).log, oracle).err == NIL
    ensures var s := Session(req, Some(cbs), replies, [Prepared], oracle);
            && story.Whole? && Tells(View(s.log, me), req, story)
            && Returned(InitializeFor(req).value, NIL) in s.log
            && s.err == story.run + story.fin
            && (story.finalized <==> !LaterFinalizerFails(s.log, after))
  {
    var i := Call(cbs, Initialize, [Prepared], oracle);
    var j := Call(cbs, InitializeFor(req).value, i.log, oracle);
    OpeningView(req, cbs, oracle, before, me, after, i, j);
    OpeningParts(req, cbs, oracle);
    story := WholeStory(req, cbs, replies, oracle, before, me, after, j.log);
    PrefixOfSession(req, cbs, replies, oracle);
    assert Session(req, Some(cbs), replies, [Prepared], oracle).log[|j.log| - 1] == Returned(InitializeFor(req).value, NIL);
  }

  lemma NotInOpening(log: seq<Event>, h: Hook, err: Err)
    requires forall k :: 0 <= k < |log| && log[k].Returned? && log[k].hook == h ==> log[k].err == err
    requires err != NIL
    ensures Returned(h, NIL) !in log
  {
  }

  lemma LaterFinalizerInSession(log: seq<Event>, after: seq<Cb>)
    ensures LaterFinalizerFails(log + [CleanedUp], after) <==> LaterFinalizerFails(log, after)
  {
    var log' := log + [CleanedUp];
    assert forall k :: 0 <= k < |log| ==> log'[k] == log[k];
  }

  lemma PrefixOfSession(req: Req, cbs: seq<Cb>, replies: seq<Reply>, oracle: Oracle)
    requires !req.ReqOther? && Call(cbs, Initialize, [Prepared], oracle).err == NIL
    requires Call(cbs, InitializeFor(req).value, Call(cbs, Initialize, [Prepared], oracle).log, oracle).err == NIL
    ensures var j := Call(cbs, InitializeFor(req).value, Call(cbs, Initialize, [Prepared], oracle).log, oracle);
            j.log <= Session(req, Some(cbs), replies, [Prepared], oracle).log
  {
    OpeningParts(req, cbs, oracle);
    var j := Call(cbs, InitializeFor(req).value, Call(cbs, Initialize, [Prepared], oracle).log, oracle);
    LoopShape(Some(cbs), replies, j.log, oracle, cbs);
    var l := Loop(Some(cbs), replies, j.log, oracle);
    CallAbout(cbs, FinalizeFor(req, l.err), l.log, oracle);
  }

  lemma StoryOfViews(v: seq<Saw>, w: seq<Saw>, x: seq<Saw>, req: Req, run: Err, fin: Err)
    requires !req.ReqOther? && |v| == 2 && Opened(v, InitializeFor(req).value, NIL, NIL) && LoopHooks(v, w)
    requires |x| <= 1 && (|x| == 1 ==> x[0].hook == FinalizeFor(req, run)) && (fin == NIL ==> |x| == 1 && x[0].err == NIL)
    ensures Tells(w + x, req, Whole(run, fin, |x| == 1))
  {
  }

  lemma WholeStory(req: Req, cbs: seq<Cb>, replies: seq<Reply>, oracle: Oracle, before: seq<Cb>, me: Cb,
                   after: seq<Cb>, opening: seq<Event>)
    returns (story: Story)
    requires !req.ReqOther? && Registered(cbs, before, me, after) && AcksOk(opening, cbs)
    requires forall k :: 0 <= k < |opening| && opening[k].Ran? ==> !opening[k].hook.FinalizeDump? && !opening[k].hook.FinalizeRestore?
    requires |View(opening, me)| == 2 && Opened(View(opening, me), InitializeFor(req).value, NIL, NIL)
    ensures var l := Loop(Some(cbs), replies, opening, oracle);
            var f := Call(cbs, FinalizeFor(req, l.err), l.log, oracle);
            && story.Whole? && story.run == l.err && story.fin == f.err
            && Tells(View(f.log, me), req, story)
            && (story.finalized <==> !LaterFinalizerFails(f.log, after))
  {
    var l := Loop(Some(cbs), replies, opening, oracle);
    LoopView(cbs, replies, opening, oracle, before, me, after);
    LoopShape(Some(cbs), replies, opening, oracle, cbs);
    story := LastStory(req, cbs, l.log, l.err, oracle, before, me, after, View(opening, me), |opening|);
  }

  lemma LastStory(req: Req, cbs: seq<Cb>, log: seq<Event>, run: Err, oracle: Oracle, before: seq<Cb>, me: Cb,
                  after: seq<Cb>, v: seq<Saw>, m: nat)
    returns (story: Story)
    requires !req.ReqOther? && Registered(cbs, before, me, after)
    requires |v| == 2 && Opened(v, InitializeFor(req).value, NIL, NIL) && LoopHooks(v, View(log, me))
    requires m <= |log|
    requires forall k :: 0 <= k < m && log[k].Ran? ==> !log[k].hook.FinalizeDump? && !log[k].hook.FinalizeRestore?
    requires forall k :: m <= k < |log| ==> InLoop(log[k])
    ensures var f := Call(cbs, FinalizeFor(req, run), log, oracle);
            && story.Whole? && story.run == run && story.fin == f.err
            && Tells(View(f.log, me), req, story)
            && (story.finalized <==> !LaterFinalizerFails(f.log, after))
  {
    var hook := FinalizeFor(req, run);
    var f := Call(cbs, hook, log, oracle);
    var seg := CallView(cbs, hook, log, oracle, before, me, after);
    var x := if Reached(seg, after) then [Saw(hook, log + [Called(hook)] + seg[..|after|], seg[|after|].err)] else [];
    StoryOfViews(v, View(log, me), x, req, run, f.err);
    story := Whole(run, f.err, Reached(seg, after));
    if Reached(seg, after) {
      ReachedFinalizers(log, f.log, seg, hook, cbs, before, me, after, f.err, m);
    } else {
      UnreachedFinalizers(log, f.log, seg, hook, cbs, before, me, after, f.err);
    }
  }

  lemma UnreachedFinalizers(log: seq<Event>, full: seq<Event>, seg: seq<Event>, hook: Hook, cbs: seq<Cb>,
                            before: seq<Cb>, me: Cb, after: seq<Cb>, err: Err)
    requires Registered(cbs, before, me, after) && IsFan(seg, cbs, hook, err) && !Reached(seg, after)
    requires full == log + [Called(hook)] + seg + [Returned(hook, err)] && (hook.FinalizeDump? || hook.FinalizeRestore?)
    ensures LaterFinalizerFails(full, after)
  {
    var k := |log| + |seg|;
    assert full[k] == seg[|seg| - 1] && full[k].err != NIL;
    assert full[k].cb == cbs[|cbs| - |seg|] == after[|after| - |seg|];
  }

  lemma ReachedFinalizers(log: seq<Event>, full: seq<Event>, seg: seq<Event>, hook: Hook, cbs: seq<Cb>,
                          before: seq<Cb>, me: Cb, after: seq<Cb>, err: Err, m: nat)
    requires Registered(cbs, before, me, after) && IsFan(seg, cbs, hook, err) && Reached(seg, after)
    requires full == log + [Called(hook)] + seg + [Returned(hook, err)] && m <= |log|
    requires forall k :: 0 <= k < m && log[k].Ran? ==> !log[k].hook.FinalizeDump? && !log[k].hook.FinalizeRestore?
    requires forall k :: m <= k < |log| ==> InLoop(log[k])
    ensures !LaterFinalizerFails(full, after)
  {
    var a := |log| + 1;
    forall k | 0 <= k < |full| && full[k].Ran? && (full[k].hook.FinalizeDump? || full[k].hook.FinalizeRestore?) && full[k].cb in after
      ensures full[k].err == NIL
    {
      if a <= k < a + |seg| {
        var i := k - a;
        assert full[k] == seg[i] && seg[i].cb == cbs[|cbs| - 1 - i];
        var j :| 0 <= j < |after| && after[j] == full[k].cb;
        assert cbs[|before| + 1 + j] == cbs[|cbs| - 1 - i];
      }
    }
  }

  /******* How answers show *******/

  // What the log says a callback answered is what it was asked, then and there; and a callback that
  // fails is the last to run and fails its hook
  ghost predicate Honest(log: seq<Event>, oracle: Oracle) {
    && (forall k :: 0 <= k < |log| && log[k].Ran? ==> log[k].err == oracle(log[..k], log[k].hook, log[k].cb).err)
    && (forall k :: 0 <= k < |log| && log[k].Ran? && log[k].err != NIL ==>
          k + 1 < |log| && log[k + 1] == Returned(log[k].hook, log[k].err))
  }

  lemma HonestExtend(log: seq<Event>, more: seq<Event>, oracle: Oracle)
    requires Honest(log, oracle) && forall i :: 0 <= i < |more| ==> !more[i].Ran?
    ensures Honest(log + more, oracle)
  {
    var log' := log + more;
    forall k | 0 <= k < |log'| && log'[k].Ran?
      ensures log'[k].err == oracle(log'[..k], log'[k].hook, log'[k].cb).err
      ensures log'[k].err != NIL ==> k + 1 < |log'| && log'[k + 1] == Returned(log'[k].hook, log'[k].err)
    {
      assert log'[k] == log[k] && log'[..k] == log[..k];
    }
  }

  // A fan-out, up to the return of its hook
  lemma {:induction false} FanHonest(cbs: seq<Cb>, hook: Hook, log: seq<Event>, oracle: Oracle)
    requires Honest(log, oracle)
    ensures var r := Fan(cbs, hook, log, oracle);
            Honest(r.log + [Returned(hook, r.err)], oracle)
    decreases |cbs|
  {
    if cbs == [] {
      HonestExtend(log, [Returned(hook, NIL)], oracle);
    } else {
      var cb := cbs[|cbs| - 1];
      var o := oracle(log, hook, cb);
      var e := Ran(hook, cb, o.err, o.files);
      if o.err != NIL {
        RanHonest(log, e, [Returned(hook, o.err)], oracle);
        assert log + [e] + [Returned(hook, o.err)] == log + ([e] + [Returned(hook, o.err)]);
      } else {
        RanHonest(log, e, [], oracle);
        assert log + ([e] + []) == log + [e];
        FanHonest(cbs[..|cbs| - 1], hook, log + [e], oracle);
      }
    }
  }

  lemma RanHonest(log: seq<Event>, e: Event, more: seq<Event>, oracle: Oracle)
    requires Honest(log, oracle) && e.Ran? && e.err == oracle(log, e.hook, e.cb).err
    requires if e.err == NIL then more == [] else more == [Returned(e.hook, e.err)]
    ensures Honest(log + ([e] + more), oracle)
  {
    var log' := log + ([e] + more);
    forall k | 0 <= k < |log'| && log'[k].Ran?
      ensures log'[k].err == oracle(log'[..k], log'[k].hook, log'[k].cb).err
      ensures log'[k].err != NIL ==> k + 1 < |log'| && log'[k + 1] == Returned(log'[k].hook, log'[k].err)
    {
      if k < |log| { assert log'[k] == log[k] && log'[..k] == log[..k]; } else { assert log'[..k] == log; }
    }
  }

  lemma CallHonest(cbs: seq<Cb>, hook: Hook, log: seq<Event>, oracle: Oracle)
    requires Honest(log, oracle)
    ensures Honest(Call(cbs, hook, log, oracle).log, oracle)
  {
    HonestExtend(log, [Called(hook)], oracle);
    FanHonest(cbs, hook, log + [Called(hook)], oracle);
  }

  lemma {:induction false} LoopHonest(cbs: seq<Cb>, replies: seq<Reply>, log: seq<Event>, oracle: Oracle)
    requires Honest(log, oracle)
    ensures Honest(Loop(Some(cbs), replies, log, oracle).log, oracle)
    decreases |replies|
  {
    if replies != [] && replies[0].Notify? {
      var n := replies[0];
      HandleHonest(cbs, n, log, oracle);
      var c := Handle(cbs, n, log, oracle);
      if c.err == NIL {
        HonestExtend(c.log, [Acked(n.script, c.files)], oracle);
        LoopHonest(cbs, replies[1..], c.log + [Acked(n.script, c.files)], oracle);
      }
    }
  }

  lemma HandleHonest(cbs: seq<Cb>, n: Reply, log: seq<Event>, oracle: Oracle)
    requires n.Notify? && Honest(log, oracle)
    ensures Honest(Handle(cbs, n, log, oracle).log, oracle)
  {
    if n.script == ORPHAN {
      if n.rights.Fd? { CallHonest(cbs, OrphanPtsMaster(n.rights.fd), log, oracle); }
    } else if HookFor(n.script, n.pid).Some? {
      CallHonest(cbs, HookFor(n.script, n.pid).value, log, oracle);
    }
  }

  lemma RunHonest(req: Req, cbs: seq<Cb>, replies: seq<Reply>, cleaned: Err, oracle: Oracle)
    ensures Honest(DoSwrkWithResp(req, Some(cbs), replies, NIL, cleaned, oracle).log, oracle)
  {
    var i := Call(cbs, Initialize, [Prepared], oracle);
    CallHonest(cbs, Initialize, [Prepared], oracle);
    if i.err == NIL {
      if req.ReqOther? {
        LoopHonest(cbs, replies, i.log, oracle);
      } else {
        var j := Call(cbs, InitializeFor(req).value, i.log, oracle);
        CallHonest(cbs, InitializeFor(req).value, i.log, oracle);
        if j.err == NIL {
          LoopHonest(cbs, replies, j.log, oracle);
          var l := Loop(Some(cbs), replies, j.log, oracle);
          CallHonest(cbs, FinalizeFor(req, l.err), l.log, oracle);
        }
      }
    }
    HonestExtend(Session(req, Some(cbs), replies, [Prepared], oracle).log, [CleanedUp], oracle);
  }

  // What the view holds is in the log
  lemma {:induction false} ViewIsLogged(log: seq<Event>, me: Cb, i: nat)
    requires i < |View(log, me)|
    ensures var s := View(log, me)[i];
            && s.at < log && log[|s.at|].Ran? && log[|s.at|].hook == s.hook && log[|s.at|].cb == me && log[|s.at|].err == s.err
            && View(s.at, me) == View(log, me)[..i]
    decreases |log|
  {
    var before := log[..|log| - 1];
    if i < |View(before, me)| {
      ViewIsLogged(before, me, i);
      assert View(log, me)[..i] == View(before, me)[..i];
    } else {
      assert View(log, me)[..i] == View(before, me);
    }
  }

  /**
   Whatever a callback answers, in any hook but orphan-pts-master, is part of the error of the call, and
   it is what the callback answers given all that happened before.
   */
  lemma AnswerSurfaces(req: Req, cbs: seq<Cb>, replies: seq<Reply>, cleaned: Err, oracle: Oracle, me: Cb, i: nat)
    requires i < |View(DoSwrkWithResp(req, Some(cbs), replies, NIL, cleaned, oracle).log, me)|
    ensures var r := DoSwrkWithResp(req, Some(cbs), replies, NIL, cleaned, oracle);
            var s := View(r.log, me)[i];
            && s.err == oracle(s.at, s.hook, me).err
            && (!s.hook.OrphanPtsMaster? ==> Joined(s.err, r.err))
            && View(s.at, me) == View(r.log, me)[..i]
  {
    var r := DoSwrkWithResp(req, Some(cbs), replies, NIL, cleaned, oracle);
    var s := View(r.log, me)[i];
    ViewIsLogged(r.log, me, i);
    RunHonest(req, cbs, replies, cleaned, oracle);
    assert r.log[..|s.at|] == s.at;
    FailureSurfaces(req, cbs, replies, NIL, cleaned, oracle);
    if s.err != NIL && !s.hook.OrphanPtsMaster? { assert Fails(r.log[|s.at| + 1]); }
  }
}
