/**
 Which hooks the notifications of a CRIU call run, told from the notifications and the log alone: the log is one
 segment for each notification, in their order.
 */
module CriuDispatch {
  import opened CriuDriver
  import opened CriuBracketing

  // The hook is the one for this notification, with its pid or descriptor
  predicate Serves(n: Reply, h: Hook)
    requires n.Notify?
  {
    && !Bracket(h) && n.script == ScriptOf(h)
    && (h.PostRestore? ==> h.pid == n.pid) && (h.SetupNamespaces? ==> h.pid == n.pid) && (h.SkipNamespaces? ==> h.pid == n.pid)
    && (h.OrphanPtsMaster? ==> n.rights == Fd(h.fd))
  }

  // A call of h in which the callbacks ran as registered and came to err
  predicate IsCall(seg: seq<Event>, h: Hook, cbs: seq<Cb>, err: Err) {
    && |seg| >= 2 && seg[0] == Called(h) && seg[|seg| - 1] == Returned(h, err)
    && IsFan(seg[1..|seg| - 1], cbs, h, err)
  }

  // The events of a notification that was acknowledged: its hook is called, if there is one, and its callbacks
  // answer nil, except that what they answer to orphan-pts-master does not matter
  ghost predicate Handled(seg: seq<Event>, n: Reply, cbs: seq<Cb>)
    requires n.Notify?
  {
    && seg != [] && seg[|seg| - 1].Acked? && seg[|seg| - 1].script == n.script
    && var call, files := seg[..|seg| - 1], seg[|seg| - 1].external;
    if Known(n.script) || n.script == "orphan-pts-master" then
      exists h, err :: AnswersWith(call, files, n, cbs, h, err)
    else call == [] && files == []
  }

  predicate AnswersWith(call: seq<Event>, files: seq<string>, n: Reply, cbs: seq<Cb>, h: Hook, err: Err)
    requires n.Notify?
  {
    && Serves(n, h) && IsCall(call, h, cbs, err) && (err == NIL || h.OrphanPtsMaster?)
    && files == if h.QueryExtFiles? then FilesOf(call[1..|call| - 1]) else []
  }

  function Joined(segs: seq<seq<Event>>): seq<Event> {
    if segs == [] then [] else segs[0] + Joined(segs[1..])
  }

  // How the loop ends at the m-th reply, after the acknowledged ones
  ghost predicate EndsAt(r: Result, tail: seq<Event>, replies: seq<Reply>, m: nat, cbs: seq<Cb>)
    requires m <= |replies|
  {
    if m == |replies| then tail == [] && r.err == DISCONNECTED && r.resp == None
    else
      match replies[m]
      case Broken(e) => tail == [] && r.err == e && r.resp == None
      case Failed => tail == [] && r.err == REFUSED && r.resp == Some(replies[m])
      case Final(_) => tail == [] && r.err == NIL && r.resp == Some(replies[m])
      case Notify(script, _, rights) =>
        if script == "orphan-pts-master" then tail == [] && rights.Malformed? && r.err == rights.err && r.resp == None
        else r.err != NIL && r.resp == Some(replies[m]) && exists h :: FailsIn(tail, replies[m], cbs, h, r.err)
  }

  predicate FailsIn(call: seq<Event>, n: Reply, cbs: seq<Cb>, h: Hook, err: Err)
    requires n.Notify?
  {
    Serves(n, h) && !h.OrphanPtsMaster? && IsCall(call, h, cbs, err)
  }

  lemma CallIs(cbs: seq<Cb>, h: Hook, log: seq<Event>, oracle: Oracle) returns (call: seq<Event>)
    ensures var c := Call(cbs, h, log, oracle);
            c.log == log + call && IsCall(call, h, cbs, c.err) && (c.err == NIL ==> c.files == FilesOf(call[1..|call| - 1]))
  {
    var seg := CallShape(cbs, h, log, oracle);
    var c := Call(cbs, h, log, oracle);
    call := [Called(h)] + seg + [Returned(h, c.err)];
    Around(log, [Called(h)], seg, [Returned(h, c.err)]);
  }

  lemma Around(log: seq<Event>, first: seq<Event>, mid: seq<Event>, last: seq<Event>)
    requires |first| == 1 && |last| == 1
    ensures log + first + mid + last == log + (first + mid + last)
    ensures (first + mid + last)[1..|first + mid + last| - 1] == mid
  {
  }

  lemma Regroup(log: seq<Event>, seg: seq<Event>, more: seq<Event>, tail: seq<Event>)
    ensures log + seg + (more + tail) == log + ((seg + more) + tail)
  {
  }

  // One notification: acknowledged with its segment, or the end of the loop with its tail
  lemma HandleIs(cbs: seq<Cb>, n: Reply, log: seq<Event>, oracle: Oracle) returns (call: seq<Event>)
    requires n.Notify?
    ensures var c := Handle(cbs, n, log, oracle);
            && c.log == log + call
            && (c.err == NIL ==> Handled(call + [Acked(n.script, c.files)], n, cbs))
            && (c.err != NIL ==>
                if n.script == "orphan-pts-master" then call == [] && n.rights.Malformed? && c.err == n.rights.err
                else exists h :: FailsIn(call, n, cbs, h, c.err))
  {
    HookForFacts(n.script, n.pid);
    var c := Handle(cbs, n, log, oracle);
    call := [];
    if n.script == ORPHAN {
      if n.rights.Fd? {
        var h := OrphanPtsMaster(n.rights.fd);
        call := CallIs(cbs, h, log, oracle);
        Acknowledged(call, c.files, n, cbs, h, Call(cbs, h, log, oracle).err);
      }
    } else if HookFor(n.script, n.pid).Some? {
      var h := HookFor(n.script, n.pid).value;
      call := CallIs(cbs, h, log, oracle);
      if c.err == NIL { Acknowledged(call, c.files, n, cbs, h, NIL); } else { assert FailsIn(call, n, cbs, h, c.err); }
    } else {
      assert ([] + [Acked(n.script, [])])[..0] == [];
    }
    assert log + [] == log;
  }

  lemma Acknowledged(call: seq<Event>, files: seq<string>, n: Reply, cbs: seq<Cb>, h: Hook, err: Err)
    requires n.Notify? && (Known(n.script) || n.script == "orphan-pts-master") && AnswersWith(call, files, n, cbs, h, err)
    ensures Handled(call + [Acked(n.script, files)], n, cbs)
  {
    var seg := call + [Acked(n.script, files)];
    assert seg[..|seg| - 1] == call;
  }

  ghost predicate AllHandled(segs: seq<seq<Event>>, replies: seq<Reply>, cbs: seq<Cb>) {
    |segs| <= |replies| && forall i :: 0 <= i < |segs| ==> HandledAt(segs, replies, cbs, i)
  }

  ghost predicate HandledAt(segs: seq<seq<Event>>, replies: seq<Reply>, cbs: seq<Cb>, i: nat)
    requires i < |segs| <= |replies|
  {
    replies[i].Notify? && Handled(segs[i], replies[i], cbs)
  }

  lemma OneMore(seg: seq<Event>, segs: seq<seq<Event>>, replies: seq<Reply>, cbs: seq<Cb>)
    requires replies != [] && replies[0].Notify? && Handled(seg, replies[0], cbs) && AllHandled(segs, replies[1..], cbs)
    ensures AllHandled([seg] + segs, replies, cbs) && Joined([seg] + segs) == seg + Joined(segs)
  {
    var all := [seg] + segs;
    assert all[1..] == segs;
    forall i | 0 <= i < |all| ensures HandledAt(all, replies, cbs, i) {
      if i > 0 { assert HandledAt(segs, replies[1..], cbs, i - 1); }
    }
  }

  lemma EndsLater(r: Result, tail: seq<Event>, replies: seq<Reply>, m: nat, cbs: seq<Cb>)
    requires replies != [] && m < |replies| && EndsAt(r, tail, replies[1..], m, cbs)
    ensures EndsAt(r, tail, replies, m + 1, cbs)
  {
    if m < |replies| - 1 { assert replies[1..][m] == replies[m + 1]; }
  }

  /**
   The notification loop acknowledges the notifications in the order in which they come. Each runs the hook that
   its script names, with its pid or descriptor, and no other, or none if it names none; the reply after the
   last acknowledged one decides how the loop ends.
   */
  lemma {:induction false} LoopServes(cbs: seq<Cb>, replies: seq<Reply>, log: seq<Event>, oracle: Oracle)
    returns (segs: seq<seq<Event>>, tail: seq<Event>)
    ensures var r := Loop(Some(cbs), replies, log, oracle);
            r.log == log + (Joined(segs) + tail) && AllHandled(segs, replies, cbs) && EndsAt(r, tail, replies, |segs|, cbs)
    decreases |replies|
  {
    segs, tail := [], [];
    if replies != [] && replies[0].Notify? {
      var c := Handle(cbs, replies[0], log, oracle);
      var call := HandleIs(cbs, replies[0], log, oracle);
      if c.err != NIL {
        tail := StopsHere(cbs, replies, log, oracle, call);
      } else {
        var seg := call + [Acked(replies[0].script, c.files)];
        GoesOn(cbs, replies, log, oracle, call);
        var more;
        more, tail := LoopServes(cbs, replies[1..], log + seg, oracle);
        segs := Prepended(Loop(Some(cbs), replies, log, oracle), log, seg, more, tail, replies, cbs);
      }
    } else {
      assert log + ([] + []) == log;
    }
  }

  lemma GoesOn(cbs: seq<Cb>, replies: seq<Reply>, log: seq<Event>, oracle: Oracle, call: seq<Event>)
    requires replies != [] && replies[0].Notify?
    requires var c := Handle(cbs, replies[0], log, oracle); c.err == NIL && c.log == log + call
    ensures var seg := call + [Acked(replies[0].script, Handle(cbs, replies[0], log, oracle).files)];
            Loop(Some(cbs), replies, log, oracle) == Loop(Some(cbs), replies[1..], log + seg, oracle)
  {
    var ack := [Acked(replies[0].script, Handle(cbs, replies[0], log, oracle).files)];
    assert log + call + ack == log + (call + ack);
  }

  lemma StopsHere(cbs: seq<Cb>, replies: seq<Reply>, log: seq<Event>, oracle: Oracle, call: seq<Event>) returns (tail: seq<Event>)
    requires replies != [] && replies[0].Notify?
    requires var c := Handle(cbs, replies[0], log, oracle);
             && c.err != NIL && c.log == log + call
             && if replies[0].script == "orphan-pts-master" then call == [] && replies[0].rights.Malformed? && c.err == replies[0].rights.err
                else exists h :: FailsIn(call, replies[0], cbs, h, c.err)
    ensures var r := Loop(Some(cbs), replies, log, oracle);
            r.log == log + (Joined([]) + tail) && EndsAt(r, tail, replies, 0, cbs)
  {
    tail := call;
    assert Joined([]) + tail == tail;
  }

  lemma Prepended(r: Result, log: seq<Event>, seg: seq<Event>, more: seq<seq<Event>>, tail: seq<Event>, replies: seq<Reply>, cbs: seq<Cb>)
    returns (segs: seq<seq<Event>>)
    requires replies != [] && replies[0].Notify? && Handled(seg, replies[0], cbs)
    requires r.log == log + seg + (Joined(more) + tail) && AllHandled(more, replies[1..], cbs) && EndsAt(r, tail, replies[1..], |more|, cbs)
    ensures r.log == log + (Joined(segs) + tail) && AllHandled(segs, replies, cbs) && EndsAt(r, tail, replies, |segs|, cbs)
  {
    segs := [seg] + more;
    EndsLater(r, tail, replies, |more|, cbs);
    OneMore(seg, more, replies, cbs);
    Regroup(log, seg, Joined(more), tail);
  }

  // No acknowledgement, and no hook of the loop
  ghost predicate Outside(log: seq<Event>) {
    forall k :: 0 <= k < |log| ==> !InLoop(log[k])
  }

  lemma OpeningOutside(cbs: seq<Cb>, h: Hook, log: seq<Event>, oracle: Oracle)
    requires Outside(log) && Bracket(h)
    ensures Outside(Call(cbs, h, log, oracle).log)
  {
    CallAbout(cbs, h, log, oracle);
    var c := Call(cbs, h, log, oracle);
    forall k | 0 <= k < |c.log| ensures !InLoop(c.log[k]) {
      if k < |log| { assert c.log[k] == log[k]; }
    }
  }

  /**
   In a whole call all acknowledgements, and all hooks but those around a dump or restore, are in the loop, so
   they are those of the notifications, in their order.
   */
  lemma CallServes(req: Req, cbs: seq<Cb>, replies: seq<Reply>, cleaned: Err, oracle: Oracle)
    returns (opening: seq<Event>, segs: seq<seq<Event>>, tail: seq<Event>, closing: seq<Event>)
    ensures var r := DoSwrkWithResp(req, Some(cbs), replies, NIL, cleaned, oracle);
            && r.log == opening + (Joined(segs) + tail) + closing
            && AllHandled(segs, replies, cbs) && Outside(opening) && Outside(closing)
            && (tail != [] ==> |segs| < |replies| && replies[|segs|].Notify? && exists h, e :: FailsIn(tail, replies[|segs|], cbs, h, e))
  {
    segs, tail, closing := [], [], [CleanedUp];
    var i := Call(cbs, Initialize, [Prepared], oracle);
    OpeningOutside(cbs, Initialize, [Prepared], oracle);
    opening := i.log;
    if i.err == NIL {
      if req.ReqOther? {
        segs, tail := LoopServes(cbs, replies, i.log, oracle);
      } else {
        OpeningOutside(cbs, InitializeFor(req).value, i.log, oracle);
        var j := Call(cbs, InitializeFor(req).value, i.log, oracle);
        opening := j.log;
        if j.err == NIL {
          segs, tail, closing := BodyServes(req, cbs, replies, j.log, oracle);
        }
      }
    }
    assert Joined([]) + [] == [] && opening + [] == opening;
  }

  // The loop and the finalize hook
  lemma BodyServes(req: Req, cbs: seq<Cb>, replies: seq<Reply>, log: seq<Event>, oracle: Oracle)
    returns (segs: seq<seq<Event>>, tail: seq<Event>, closing: seq<Event>)
    requires !req.ReqOther?
    ensures var l := Loop(Some(cbs), replies, log, oracle);
            && Call(cbs, FinalizeFor(req, l.err), l.log, oracle).log + [CleanedUp] == log + (Joined(segs) + tail) + closing
            && AllHandled(segs, replies, cbs) && EndsAt(l, tail, replies, |segs|, cbs) && Outside(closing)
  {
    segs, tail := LoopServes(cbs, replies, log, oracle);
    var l := Loop(Some(cbs), replies, log, oracle);
    var h := FinalizeFor(req, l.err);
    var fin := CallIs(cbs, h, l.log, oracle);
    FinalizeQuiet(fin, h, cbs, Call(cbs, h, l.log, oracle).err);
    closing := fin + [CleanedUp];
    assert l.log + fin + [CleanedUp] == l.log + closing;
  }

  // The hooks that belong around a call: a dump has its own pair, a restore has its own, and other calls have none
  predicate Fits(req: Req, h: Hook) {
    && (h.InitializeDump? || h.FinalizeDump? ==> req.ReqDump?)
    && (h.InitializeRestore? || h.FinalizeRestore? ==> req.ReqRestore?)
  }

  predicate EventFits(req: Req, e: Event) {
    e.Called? || e.Ran? || e.Returned? ==> Fits(req, e.hook)
  }

  ghost predicate AllFit(req: Req, log: seq<Event>) {
    forall k :: 0 <= k < |log| ==> EventFits(req, log[k])
  }

  lemma CallFits(req: Req, cbs: seq<Cb>, h: Hook, log: seq<Event>, oracle: Oracle)
    requires AllFit(req, log) && Fits(req, h)
    ensures AllFit(req, Call(cbs, h, log, oracle).log)
  {
    CallAbout(cbs, h, log, oracle);
    var c := Call(cbs, h, log, oracle);
    forall k | 0 <= k < |c.log| ensures EventFits(req, c.log[k]) {
      if k < |log| { assert c.log[k] == log[k] && EventFits(req, log[k]); }
    }
  }

  lemma LoopFits(req: Req, cbs: seq<Cb>, replies: seq<Reply>, log: seq<Event>, oracle: Oracle)
    requires AllFit(req, log) && AcksOk(log, cbs)
    ensures AllFit(req, Loop(Some(cbs), replies, log, oracle).log)
  {
    LoopShape(Some(cbs), replies, log, oracle, cbs);
    var l := Loop(Some(cbs), replies, log, oracle);
    forall k | 0 <= k < |l.log| ensures EventFits(req, l.log[k]) {
      if k < |log| { assert l.log[k] == log[k] && EventFits(req, log[k]); }
    }
  }

  /**
   A dump is initialized and finalized as a dump and a restore as a restore, in every call: no hook of the other pair
   ever runs, and the own one is called once the common initialize hook has answered nil.
   */
  lemma BracketsFit(req: Req, cbs: seq<Cb>, replies: seq<Reply>, cleaned: Err, oracle: Oracle)
    ensures var r := DoSwrkWithResp(req, Some(cbs), replies, NIL, cleaned, oracle);
            && AllFit(req, r.log)
            && (Returned(Initialize, NIL) in r.log && req.ReqDump? ==> Called(InitializeDump) in r.log)
            && (Returned(Initialize, NIL) in r.log && req.ReqRestore? ==> Called(InitializeRestore) in r.log)
  {
    var s := Session(req, Some(cbs), replies, [Prepared], oracle);
    SessionFits(req, cbs, replies, oracle);
    var log := s.log + [CleanedUp];
    forall k | 0 <= k < |log| ensures EventFits(req, log[k]) {
      if k < |s.log| { assert log[k] == s.log[k] && EventFits(req, s.log[k]); }
    }
  }

  lemma SessionFits(req: Req, cbs: seq<Cb>, replies: seq<Reply>, oracle: Oracle)
    ensures var s := Session(req, Some(cbs), replies, [Prepared], oracle);
            && AllFit(req, s.log)
            && (Returned(Initialize, NIL) in s.log && req.ReqDump? ==> Called(InitializeDump) in s.log)
            && (Returned(Initialize, NIL) in s.log && req.ReqRestore? ==> Called(InitializeRestore) in s.log)
  {
    var i := Call(cbs, Initialize, [Prepared], oracle);
    CallFits(req, cbs, Initialize, [Prepared], oracle);
    CallKeepsAcks(cbs, Initialize, [Prepared], oracle);
    if i.err != NIL {
      NotReturned(cbs, oracle);
    } else if req.ReqOther? {
      LoopFits(req, cbs, replies, i.log, oracle);
    } else {
      var h := InitializeFor(req).value;
      var j := Call(cbs, h, i.log, oracle);
      CallFits(req, cbs, h, i.log, oracle);
      CallKeepsAcks(cbs, h, i.log, oracle);
      CallAbout(cbs, h, i.log, oracle);
      assert j.log[|i.log|] == Called(h);
      if j.err == NIL {
        var l := Loop(Some(cbs), replies, j.log, oracle);
        LoopFits(req, cbs, replies, j.log, oracle);
        LoopShape(Some(cbs), replies, j.log, oracle, cbs);
        CallFits(req, cbs, FinalizeFor(req, l.err), l.log, oracle);
        CallAbout(cbs, FinalizeFor(req, l.err), l.log, oracle);
        assert l.log[|i.log|] == Called(h);
        assert Call(cbs, FinalizeFor(req, l.err), l.log, oracle).log[|i.log|] == Called(h);
      }
    }
  }

  lemma NotReturned(cbs: seq<Cb>, oracle: Oracle)
    requires Call(cbs, Initialize, [Prepared], oracle).err != NIL
    ensures Returned(Initialize, NIL) !in Call(cbs, Initialize, [Prepared], oracle).log
  {
    CallAbout(cbs, Initialize, [Prepared], oracle);
  }

  lemma FinalizeQuiet(call: seq<Event>, h: Hook, cbs: seq<Cb>, err: Err)
    requires IsCall(call, h, cbs, err) && Bracket(h)
    ensures Outside(call)
  {
    forall k | 0 <= k < |call| ensures !InLoop(call[k]) {
      if 0 < k < |call| - 1 { assert call[1..|call| - 1][k - 1] == call[k]; }
    }
  }
}
