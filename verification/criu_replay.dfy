/**
 A CRIU call depends on its callbacks only through the answers it gets: two oracles that answer alike wherever
 one call asks them lead to the same call.
 */
module CriuReplay {
  import opened CriuDriver
  import opened CriuBracketing

  // The two answer the k-th event of the log alike, if that is an answer
  ghost predicate AgreeAt(log: seq<Event>, k: nat, oracle: Oracle, other: Oracle)
    requires k < |log|
  {
    log[k].Ran? ==> other(log[..k], log[k].hook, log[k].cb) == oracle(log[..k], log[k].hook, log[k].cb)
  }

  ghost predicate Agree(log: seq<Event>, oracle: Oracle, other: Oracle) {
    forall k :: 0 <= k < |log| ==> AgreeAt(log, k, oracle, other)
  }

  lemma AgreeBefore(log: seq<Event>, longer: seq<Event>, oracle: Oracle, other: Oracle)
    requires log <= longer && Agree(longer, oracle, other)
    ensures Agree(log, oracle, other)
  {
    forall k | 0 <= k < |log| ensures AgreeAt(log, k, oracle, other) {
      assert AgreeAt(longer, k, oracle, other) && log[..k] == longer[..k] && log[k] == longer[k];
    }
  }

  lemma FanExtends(cbs: seq<Cb>, hook: Hook, log: seq<Event>, oracle: Oracle)
    ensures log <= Fan(cbs, hook, log, oracle).log
  {
    var seg := FanShape(cbs, hook, log, oracle);
  }

  lemma {:induction false} FanSame(cbs: seq<Cb>, hook: Hook, log: seq<Event>, oracle: Oracle, other: Oracle)
    requires Agree(Fan(cbs, hook, log, oracle).log, oracle, other)
    ensures Fan(cbs, hook, log, other) == Fan(cbs, hook, log, oracle)
    decreases |cbs|
  {
    if cbs != [] {
      var cb, rest := cbs[|cbs| - 1], cbs[..|cbs| - 1];
      var o := oracle(log, hook, cb);
      var log' := log + [Ran(hook, cb, o.err, o.files)];
      var all := Fan(cbs, hook, log, oracle).log;
      if o.err == NIL {
        FanExtends(rest, hook, log', oracle);
      }
      assert log' <= all;
      assert all[..|log|] == log'[..|log|] == log && all[|log|] == log'[|log|];
      assert AgreeAt(all, |log|, oracle, other);
      if o.err == NIL {
        FanSame(rest, hook, log', oracle, other);
      }
    }
  }

  lemma CallSame(cbs: seq<Cb>, hook: Hook, log: seq<Event>, oracle: Oracle, other: Oracle)
    requires Agree(Call(cbs, hook, log, oracle).log, oracle, other)
    ensures Call(cbs, hook, log, other) == Call(cbs, hook, log, oracle)
  {
    var start := log + [Called(hook)];
    AgreeBefore(Fan(cbs, hook, start, oracle).log, Call(cbs, hook, log, oracle).log, oracle, other);
    FanSame(cbs, hook, start, oracle, other);
  }

  lemma HandleExtends(cbs: seq<Cb>, n: Reply, log: seq<Event>, oracle: Oracle)
    requires n.Notify?
    ensures log <= Handle(cbs, n, log, oracle).log
  {
    if n.script == ORPHAN {
      if n.rights.Fd? { CallAbout(cbs, OrphanPtsMaster(n.rights.fd), log, oracle); }
    } else if HookFor(n.script, n.pid).Some? {
      CallAbout(cbs, HookFor(n.script, n.pid).value, log, oracle);
    }
  }

  lemma HandleSame(cbs: seq<Cb>, n: Reply, log: seq<Event>, oracle: Oracle, other: Oracle)
    requires n.Notify? && Agree(Handle(cbs, n, log, oracle).log, oracle, other)
    ensures Handle(cbs, n, log, other) == Handle(cbs, n, log, oracle)
  {
    if n.script == ORPHAN {
      if n.rights.Fd? { CallSame(cbs, OrphanPtsMaster(n.rights.fd), log, oracle, other); }
    } else if HookFor(n.script, n.pid).Some? {
      CallSame(cbs, HookFor(n.script, n.pid).value, log, oracle, other);
    }
  }

  lemma {:induction false} LoopExtends(cbs: seq<Cb>, replies: seq<Reply>, log: seq<Event>, oracle: Oracle)
    ensures log <= Loop(Some(cbs), replies, log, oracle).log
    decreases |replies|
  {
    if replies != [] && replies[0].Notify? {
      HandleExtends(cbs, replies[0], log, oracle);
      var c := Handle(cbs, replies[0], log, oracle);
      if c.err == NIL {
        LoopExtends(cbs, replies[1..], c.log + [Acked(replies[0].script, c.files)], oracle);
      }
    }
  }

  lemma {:induction false} LoopSame(cbs: seq<Cb>, replies: seq<Reply>, log: seq<Event>, oracle: Oracle, other: Oracle)
    requires Agree(Loop(Some(cbs), replies, log, oracle).log, oracle, other)
    ensures Loop(Some(cbs), replies, log, other) == Loop(Some(cbs), replies, log, oracle)
    decreases |replies|
  {
    if replies != [] && replies[0].Notify? {
      var c, all := Handle(cbs, replies[0], log, oracle), Loop(Some(cbs), replies, log, oracle).log;
      var acked := c.log + [Acked(replies[0].script, c.files)];
      if c.err == NIL {
        LoopExtends(cbs, replies[1..], acked, oracle);
      }
      AgreeBefore(c.log, all, oracle, other);
      HandleSame(cbs, replies[0], log, oracle, other);
      if c.err == NIL {
        LoopSame(cbs, replies[1..], acked, oracle, other);
      }
    }
  }

  // The part of a session after the initialize hooks
  function Body(req: Req, cbs: seq<Cb>, replies: seq<Reply>, log: seq<Event>, oracle: Oracle): Result {
    var l := Loop(Some(cbs), replies, log, oracle);
    if req.ReqOther? then l
    else
      var f := Call(cbs, FinalizeFor(req, l.err), l.log, oracle);
      Result(f.log, l.err + f.err, l.resp)
  }

  lemma BodySame(req: Req, cbs: seq<Cb>, replies: seq<Reply>, log: seq<Event>, oracle: Oracle, other: Oracle)
    requires Agree(Body(req, cbs, replies, log, oracle).log, oracle, other)
    ensures Body(req, cbs, replies, log, other) == Body(req, cbs, replies, log, oracle)
  {
    var l := Loop(Some(cbs), replies, log, oracle);
    if !req.ReqOther? {
      CallAbout(cbs, FinalizeFor(req, l.err), l.log, oracle);
      AgreeBefore(l.log, Body(req, cbs, replies, log, oracle).log, oracle, other);
      LoopSame(cbs, replies, log, oracle, other);
      CallSame(cbs, FinalizeFor(req, l.err), l.log, oracle, other);
    } else {
      LoopSame(cbs, replies, log, oracle, other);
    }
  }

  lemma BodyExtends(req: Req, cbs: seq<Cb>, replies: seq<Reply>, log: seq<Event>, oracle: Oracle)
    ensures log <= Body(req, cbs, replies, log, oracle).log
  {
    var l := Loop(Some(cbs), replies, log, oracle);
    LoopExtends(cbs, replies, log, oracle);
    if !req.ReqOther? {
      CallAbout(cbs, FinalizeFor(req, l.err), l.log, oracle);
    }
  }

  // After the first initialize hook
  function Opened(req: Req, cbs: seq<Cb>, replies: seq<Reply>, log: seq<Event>, oracle: Oracle): Result {
    if req.ReqOther? then Body(req, cbs, replies, log, oracle)
    else
      var j := Call(cbs, InitializeFor(req).value, log, oracle);
      if j.err != NIL then Result(j.log, j.err, None) else Body(req, cbs, replies, j.log, oracle)
  }

  lemma OpenedSame(req: Req, cbs: seq<Cb>, replies: seq<Reply>, log: seq<Event>, oracle: Oracle, other: Oracle)
    requires Agree(Opened(req, cbs, replies, log, oracle).log, oracle, other)
    ensures Opened(req, cbs, replies, log, other) == Opened(req, cbs, replies, log, oracle)
  {
    if req.ReqOther? {
      BodySame(req, cbs, replies, log, oracle, other);
    } else {
      var j := Call(cbs, InitializeFor(req).value, log, oracle);
      if j.err == NIL {
        BodyExtends(req, cbs, replies, j.log, oracle);
        BodySame(req, cbs, replies, j.log, oracle, other);
      }
      AgreeBefore(j.log, Opened(req, cbs, replies, log, oracle).log, oracle, other);
      CallSame(cbs, InitializeFor(req).value, log, oracle, other);
    }
  }

  lemma OpenedExtends(req: Req, cbs: seq<Cb>, replies: seq<Reply>, log: seq<Event>, oracle: Oracle)
    ensures log <= Opened(req, cbs, replies, log, oracle).log
  {
    if req.ReqOther? {
      BodyExtends(req, cbs, replies, log, oracle);
    } else {
      CallAbout(cbs, InitializeFor(req).value, log, oracle);
      BodyExtends(req, cbs, replies, Call(cbs, InitializeFor(req).value, log, oracle).log, oracle);
    }
  }

  lemma SessionIs(req: Req, cbs: seq<Cb>, replies: seq<Reply>, log: seq<Event>, oracle: Oracle)
    ensures var i := Call(cbs, Initialize, log, oracle);
            Session(req, Some(cbs), replies, log, oracle)
              == if i.err != NIL then Result(i.log, i.err, None) else Opened(req, cbs, replies, i.log, oracle)
  {
  }

  /**
   If another oracle answers as the first one did wherever a call asked, its call is the same: log, error and
   response.
   */
  lemma CallDependsOnAnswers(req: Req, cbs: seq<Cb>, replies: seq<Reply>, cleaned: Err, oracle: Oracle, other: Oracle)
    requires Agree(DoSwrkWithResp(req, Some(cbs), replies, NIL, cleaned, oracle).log, oracle, other)
    ensures DoSwrkWithResp(req, Some(cbs), replies, NIL, cleaned, other) == DoSwrkWithResp(req, Some(cbs), replies, NIL, cleaned, oracle)
  {
    var s := Session(req, Some(cbs), replies, [Prepared], oracle);
    AgreeBefore(s.log, DoSwrkWithResp(req, Some(cbs), replies, NIL, cleaned, oracle).log, oracle, other);
    SessionIs(req, cbs, replies, [Prepared], oracle);
    SessionIs(req, cbs, replies, [Prepared], other);
    var i := Call(cbs, Initialize, [Prepared], oracle);
    if i.err == NIL {
      OpenedExtends(req, cbs, replies, i.log, oracle);
      OpenedSame(req, cbs, replies, i.log, oracle, other);
    }
    AgreeBefore(i.log, s.log, oracle, other);
    CallSame(cbs, Initialize, [Prepared], oracle, other);
  }
}
