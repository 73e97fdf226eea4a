/**
 The GPU restores that a callback runs beside CRIU. Each pre-restore hook makes a channel, lets a variable
 name it, and starts a goroutine. The goroutine reads that variable twice: when it starts, to learn which
 channel to close at its end, and when the restore fails, to learn where to send the error. So it may
 send into a channel that a later hook made. Sending on a closed channel or closing it again ends the daemon.

 The steps of the goroutines come in any order.
 */
module GpuRestores {
  import opened CriuDriver

  // The first value is in the buffer, the others wait with their senders
  datatype Sent = Sent(err: Err, from: nat)
  datatype Chan = Chan(values: seq<Sent>, closed: bool)

  // own: the channel to close; into: the channel sent to, if the restore failed
  datatype Phase = Spawned | Running(own: nat) | Leaving(own: nat, into: Option<nat>) | Done

  // The k-th hook made chans[k] and started the goroutine of phases[k]; the variable names the last channel
  datatype Restores = Restores(chans: seq<Chan>, phases: seq<Phase>, crashed: bool)

  datatype Step = Starts(k: nat) | Fails(k: nat, err: Failure) | Succeeds(k: nat) | Closes(k: nat)

  const NONE := Restores([], [], false)
  const OPEN := Chan([], false)

  function Named(r: Restores): Chan {
    if r.chans == [] then OPEN else r.chans[|r.chans| - 1]
  }

  function WithNamed(r: Restores, c: Chan): Restores
    requires r.chans != []
  {
    r.(chans := r.chans[|r.chans| - 1 := c])
  }

  /******* What a goroutine does *******/

  // The sender has not found room in the buffer yet
  predicate Waits(c: Chan, k: nat) {
    exists p :: 1 <= p < |c.values| && c.values[p].from == k
  }

  predicate InPhase(r: Restores, s: Step) {
    s.k < |r.phases| &&
    match s
    case Starts(k) => r.phases[k].Spawned?
    case Fails(k, _) => r.phases[k].Running?
    case Succeeds(k) => r.phases[k].Running?
    case Closes(k) => r.phases[k].Leaving? && r.phases[k].own < |r.chans|
  }

  predicate Enabled(r: Restores, s: Step) {
    && !r.crashed && r.chans != [] && InPhase(r, s)
    && (s.Closes? && r.phases[s.k].into.Some? ==>
        r.phases[s.k].into.value < |r.chans| && !Waits(r.chans[r.phases[s.k].into.value], s.k))
  }

  // Sending on a closed channel, closing a closed channel, or closing one on which others wait to send
  predicate Crashes(r: Restores, s: Step)
    requires Enabled(r, s)
  {
    match s
    case Fails(_, _) => Named(r).closed
    case Closes(k) => var c := r.chans[r.phases[k].own]; c.closed || |c.values| > 1
    case _ => false
  }

  function Go(r: Restores, s: Step): Restores {
    if !Enabled(r, s) then r
    else if Crashes(r, s) then r.(crashed := true)
    else
      match s
      case Starts(k) => r.(phases := r.phases[k := Running(|r.chans| - 1)])
      case Fails(k, e) =>
        WithNamed(r, Named(r).(values := Named(r).values + [Sent(e, k)]))
        .(phases := r.phases[k := Leaving(r.phases[k].own, Some(|r.chans| - 1))])
      case Succeeds(k) => r.(phases := r.phases[k := Leaving(r.phases[k].own, None)])
      case Closes(k) =>
        var own := r.phases[k].own;
        r.(chans := r.chans[own := r.chans[own].(closed := true)], phases := r.phases[k := Done])
  }

  function Goes(r: Restores, steps: seq<Step>): Restores {
    if steps == [] then r else Go(Goes(r, steps[..|steps| - 1]), steps[|steps| - 1])
  }

  // Every step can be taken, and none ends the daemon
  predicate Smooth(r: Restores, steps: seq<Step>) {
    steps == [] ||
    var n := |steps| - 1;
    var q := Goes(r, steps[..n]);
    Smooth(r, steps[..n]) && Enabled(q, steps[n]) && !Crashes(q, steps[n])
  }

  /******* What a hook does *******/

  function Make(r: Restores): Restores {
    r.(chans := r.chans + [OPEN], phases := r.phases + [Spawned])
  }

  // A receive from the named channel can go on
  predicate Ready(r: Restores) {
    Named(r).values != [] || Named(r).closed
  }

  // What it yields
  function Heard(r: Restores): Err {
    if Named(r).values != [] then Named(r).values[0].err else NIL
  }

  // Whoever waits first gets the room that is left
  function Receive(r: Restores): Restores {
    if Named(r).values == [] then r
    else assert r.chans != []; WithNamed(r, Named(r).(values := Named(r).values[1..]))
  }

  /******* A failure that is not received yet *******/

  ghost predicate Genuine(r: Restores) {
    forall c, p :: 0 <= c < |r.chans| && 0 <= p < |r.chans[c].values| ==> r.chans[c].values[p].err != NIL
  }

  // The named channel holds an error
  predicate HasError(r: Restores) {
    Named(r).values != []
  }

  lemma GoKeeps(r: Restores, s: Step)
    ensures var q := Go(r, s);
            && (Genuine(r) ==> Genuine(q)) && |q.chans| == |r.chans| && (r.crashed ==> q.crashed)
            && (HasError(r) ==> HasError(q)) && (Named(r).closed ==> Named(q).closed && Named(q).values == Named(r).values)
  {
  }

  lemma {:induction false} GoesKeeps(r: Restores, steps: seq<Step>)
    ensures var q := Goes(r, steps);
            && (Genuine(r) ==> Genuine(q)) && |q.chans| == |r.chans| && (r.crashed ==> q.crashed)
            && (HasError(r) ==> HasError(q)) && (Named(r).closed ==> Named(q).closed && Named(q).values == Named(r).values)
  {
    if steps != [] {
      GoesKeeps(r, steps[..|steps| - 1]);
      GoKeeps(Goes(r, steps[..|steps| - 1]), steps[|steps| - 1]);
    }
  }

  lemma HooksKeepGenuine(r: Restores)
    requires Genuine(r)
    ensures Genuine(Make(r)) && Genuine(Receive(r))
  {
  }

  // A failure that happens is in the channel afterwards
  lemma {:induction false} FailureIsHeld(r: Restores, steps: seq<Step>, m: nat)
    requires m < |steps| && steps[m].Fails? && Enabled(Goes(r, steps[..m]), steps[m]) && !Goes(r, steps).crashed
    ensures HasError(Goes(r, steps))
  {
    var n := |steps| - 1;
    var q := Goes(r, steps[..n]);
    GoKeeps(q, steps[n]);
    if m < n {
      assert steps[..n][..m] == steps[..m];
      FailureIsHeld(r, steps[..n], m);
    }
  }

  // Once the named channel is closed, a restore that fails ends the daemon
  lemma FailsTooLate(r: Restores, steps: seq<Step>, s: Step)
    requires Named(r).closed && s.Fails? && Enabled(Goes(r, steps), s)
    ensures Crashes(Goes(r, steps), s)
  {
    GoesKeeps(r, steps);
  }

  // A goroutine that has sent may go on to close as soon as its error is in the buffer or was received
  lemma SenderWaits(r: Restores, k: nat, own: nat, c: nat)
    requires !r.crashed && k < |r.phases| && own < |r.chans| && c < |r.chans| && r.phases[k] == Leaving(own, Some(c))
    requires forall p, q :: 0 <= p < q < |r.chans[c].values| ==> r.chans[c].values[p].from != r.chans[c].values[q].from
    ensures Enabled(r, Closes(k)) <==>
            (forall p :: 0 <= p < |r.chans[c].values| && r.chans[c].values[p].from == k ==> p == 0)
  {
    if !Enabled(r, Closes(k)) {
      var p :| 1 <= p < |r.chans[c].values| && r.chans[c].values[p].from == k;
    }
  }

  // Before the first pre-restore hook there is nobody to take a step
  lemma {:induction false} NoneGoes(steps: seq<Step>)
    ensures Goes(NONE, steps) == NONE
  {
    if steps != [] { NoneGoes(steps[..|steps| - 1]); }
  }

  /******* One restore alone *******/

  // All that can become of the first restore without another
  predicate Single(r: Restores) {
    !r.crashed && |r.chans| == |r.phases| <= 1 &&
    (r.chans != [] ==>
     var c := r.chans[0];
     match r.phases[0]
     case Spawned => c == OPEN
     case Running(own) => own == 0 && c == OPEN
     case Leaving(own, into) => own == 0 && !c.closed && |c.values| <= 1 && (into == None || into == Some(0))
     case Done => c.closed && |c.values| <= 1)
  }

  lemma SingleGo(r: Restores, s: Step)
    requires Single(r)
    ensures Single(Go(r, s))
  {
  }

  // Whatever the steps, a single restore does not end the daemon
  lemma {:induction false} SingleGoes(r: Restores, steps: seq<Step>)
    requires Single(r)
    ensures Single(Goes(r, steps))
  {
    if steps != [] {
      SingleGoes(r, steps[..|steps| - 1]);
      SingleGo(Goes(r, steps[..|steps| - 1]), steps[|steps| - 1]);
    }
  }

  /******* A failure sent into a channel that was replaced *******/

  function Dropped(c: Chan, p: nat): Chan
    requires p < |c.values|
  {
    c.(values := c.values[..p] + c.values[p + 1..])
  }

  function Forgotten(ph: Phase): Phase {
    if ph.Leaving? then ph.(into := None) else ph
  }

  // r' is r, had the k-th restore not sent the p-th value of the c-th channel but succeeded
  predicate Like(r: Restores, r': Restores, c: nat, p: nat, k: nat) {
    && c < |r.chans| && p < |r.chans[c].values| && r.chans[c].values[p].from == k && k < |r.phases|
    && (r.phases[k].Leaving? || r.phases[k].Done?) && (r.phases[k].Leaving? ==> r.phases[k].into == Some(c))
    && r' == r.(chans := r.chans[c := Dropped(r.chans[c], p)], phases := r.phases[k := Forgotten(r.phases[k])])
  }

  // Had it succeeded instead
  lemma SucceedsInstead(r: Restores, k: nat, e: Failure)
    requires Enabled(r, Fails(k, e)) && !Crashes(r, Fails(k, e))
    ensures Enabled(r, Succeeds(k)) && !Crashes(r, Succeeds(k))
    ensures Like(Go(r, Fails(k, e)), Go(r, Succeeds(k)), |r.chans| - 1, |Named(r).values|, k)
  {
    var c, p := |r.chans| - 1, |Named(r).values|;
    var q, q' := Go(r, Fails(k, e)), Go(r, Succeeds(k));
    assert Dropped(q.chans[c], p).values == r.chans[c].values;
    assert q.chans[c := Dropped(q.chans[c], p)] == r.chans;
    assert q'.phases == q.phases[k := Forgotten(q.phases[k])];
  }

  lemma WaitsLess(c: Chan, p: nat, k: nat)
    requires p < |c.values| && Waits(Dropped(c, p), k)
    ensures Waits(c, k)
  {
    var i :| 1 <= i < |Dropped(c, p).values| && Dropped(c, p).values[i].from == k;
    assert c.values[if i < p then i else i + 1].from == k;
  }

  lemma LikeEnabled(r: Restores, r': Restores, c: nat, p: nat, k: nat, s: Step)
    requires Like(r, r', c, p, k) && Enabled(r, s)
    ensures Enabled(r', s)
    ensures !Crashes(r, s) ==> !Crashes(r', s)
  {
    if s.Closes? && s.k != k && r.phases[s.k].into == Some(c) && Waits(r'.chans[c], s.k) {
      WaitsLess(r.chans[c], p, s.k);
    }
  }

  lemma LikeGo(r: Restores, r': Restores, c: nat, p: nat, k: nat, s: Step)
    requires Like(r, r', c, p, k) && Enabled(r, s) && !Crashes(r, s)
    ensures Enabled(r', s) && !Crashes(r', s) && Like(Go(r, s), Go(r', s), c, p, k)
  {
    LikeEnabled(r, r', c, p, k, s);
    var q, q' := Go(r, s), Go(r', s);
    if s.Fails? { LikeFails(r, r', c, p, k, s); }
    else {
      assert q'.phases == q.phases[k := Forgotten(q.phases[k])];
      assert q'.chans == q.chans[c := Dropped(q.chans[c], p)];
    }
  }

  lemma LikeFails(r: Restores, r': Restores, c: nat, p: nat, k: nat, s: Step)
    requires Like(r, r', c, p, k) && Enabled(r, s) && !Crashes(r, s) && Enabled(r', s) && !Crashes(r', s) && s.Fails?
    ensures Like(Go(r, s), Go(r', s), c, p, k)
  {
    var q, q' := Go(r, s), Go(r', s);
    var n := |r.chans| - 1;
    assert q'.phases == q.phases[k := Forgotten(q.phases[k])];
    if c == n {
      assert Dropped(q.chans[c], p).values == Dropped(r.chans[c], p).values + [Sent(s.err, s.k)];
    }
    assert q'.chans == q.chans[c := Dropped(q.chans[c], p)];
  }

  lemma {:induction false} LikeGoes(r: Restores, r': Restores, c: nat, p: nat, k: nat, steps: seq<Step>)
    requires Like(r, r', c, p, k) && Smooth(r, steps)
    ensures Smooth(r', steps) && Like(Goes(r, steps), Goes(r', steps), c, p, k)
  {
    if steps != [] {
      var n := |steps| - 1;
      LikeGoes(r, r', c, p, k, steps[..n]);
      LikeGo(Goes(r, steps[..n]), Goes(r', steps[..n]), c, p, k, steps[n]);
    }
  }

  lemma {:induction false} GoesOn(r: Restores, a: seq<Step>, b: seq<Step>)
    ensures Goes(r, a + b) == Goes(Goes(r, a), b)
    ensures Smooth(r, a + b) <==> Smooth(r, a) && Smooth(Goes(r, a), b)
  {
    if b == [] {
      assert a + b == a;
    } else {
      var n := |b| - 1;
      GoesOn(r, a, b[..n]);
      assert (a + b)[..|a| + n] == a + b[..n];
    }
  }

  lemma Around(steps: seq<Step>, m: nat, s: Step)
    requires m < |steps|
    ensures steps[m := s] == steps[..m] + ([s] + steps[m + 1..])
  {
  }

  // From the failure on
  lemma LikeFrom(r: Restores, steps: seq<Step>, m: nat) returns (c: nat, p: nat)
    requires Smooth(r, steps) && m < |steps| && steps[m].Fails?
    ensures var steps' := steps[m := Succeeds(steps[m].k)];
            Smooth(r, steps') && Like(Goes(r, steps), Goes(r, steps'), c, p, steps[m].k) && c == |r.chans| - 1
  {
    var a, s, b := steps[..m], steps[m], steps[m + 1..];
    var s' := Succeeds(s.k);
    assert steps[m := s] == steps;
    Around(steps, m, s);
    Around(steps, m, s');
    GoesOn(r, a, [s] + b);
    GoesOn(r, a, [s'] + b);
    GoesKeeps(r, a);
    c, p := LikeAfter(Goes(r, a), s, b);
  }

  lemma LikeAfter(r: Restores, s: Step, b: seq<Step>) returns (c: nat, p: nat)
    requires s.Fails? && Smooth(r, [s] + b)
    ensures var s' := Succeeds(s.k);
            Smooth(r, [s'] + b) && Like(Goes(r, [s] + b), Goes(r, [s'] + b), c, p, s.k) && c == |r.chans| - 1
  {
    var s' := Succeeds(s.k);
    GoesOn(r, [s], b);
    GoesOn(r, [s'], b);
    OneGo(r, s);
    OneGo(r, s');
    SucceedsInstead(r, s.k, s.err);
    c, p := |r.chans| - 1, |Named(r).values|;
    LikeGoes(Go(r, s), Go(r, s'), c, p, s.k, b);
  }

  lemma OneGo(r: Restores, s: Step)
    ensures Goes(r, [s]) == Go(r, s)
    ensures Smooth(r, [s]) <==> Enabled(r, s) && !Crashes(r, s)
  {
    assert [s][..0] == [];
  }

  // A replaced channel plays no part in what the hooks do
  lemma LikeHooks(r: Restores, r': Restores, c: nat, p: nat, k: nat)
    requires Like(r, r', c, p, k)
    ensures Like(Make(r), Make(r'), c, p, k) && r'.chans != []
    ensures c < |r.chans| - 1 ==> Ready(r) == Ready(r') && Heard(r) == Heard(r') && Like(Receive(r), Receive(r'), c, p, k)
  {
    assert Make(r').chans == Make(r).chans[c := Dropped(Make(r).chans[c], p)];
    assert Make(r').phases == Make(r).phases[k := Forgotten(Make(r).phases[k])];
    if c < |r.chans| - 1 {
      assert Named(r) == Named(r');
      assert Receive(r').chans == Receive(r).chans[c := Dropped(Receive(r).chans[c], p)];
    }
  }
}
