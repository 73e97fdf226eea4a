/**
 The exit-code broadcaster: a pump copies each value of the input to every receiver and then closes them all,
 while subscribers join at any time and are replayed what has been sent so far. Pump and subscribers take turns
 under one lock; a receiver's channel holds one value. The pump drops a value for a full channel; a replay waits.
 */
module Broadcast {

  // An exit code
  type Value = int

  // A subscriber: its channel and how often that was closed, what it has read, whether it has read the end, and
  // whether the call that made the channel has returned it
  datatype Subscriber = Subscriber(queue: seq<Value>, closes: nat, got: seq<Value>, ended: bool, returned: bool)

  // Who holds the lock, and how far it is: the pump through the receivers, a subscriber through the buffer
  datatype Holder = Free | Sending(v: Value, k: nat) | Closing(k: nat) | Replaying(id: nat, k: nat)

  datatype State = State(input: seq<Value>, buffer: seq<Value>, closed: bool, receivers: seq<nat>, subs: map<nat, Subscriber>, lock: Holder)

  const CAPACITY := 1

  datatype Event =
    | Take | Send | EndSend
    | Close | CloseOne | EndClose
    | Subscribe(id: nat) | Replay | Join
    | Receive(id: nat) | SeeEnd(id: nat)

  // What may happen next. A replay into a full channel may not: nobody else has the channel yet
  predicate Enabled(s: State, e: Event) {
    match e
    case Take => s.lock.Free? && s.input != [] && !s.closed
    case Send => s.lock.Sending? && s.lock.k < |s.receivers| && s.receivers[s.lock.k] in s.subs
    case EndSend => s.lock.Sending? && s.lock.k == |s.receivers|
    case Close => s.lock.Free? && s.input == [] && !s.closed
    case CloseOne => s.lock.Closing? && s.lock.k < |s.receivers| && s.receivers[s.lock.k] in s.subs
    case EndClose => s.lock.Closing? && s.lock.k == |s.receivers|
    case Subscribe(id) => s.lock.Free? && id !in s.subs
    case Replay => s.lock.Replaying? && s.lock.k < |s.buffer| && s.lock.id in s.subs && |s.subs[s.lock.id].queue| < CAPACITY
    case Join => s.lock.Replaying? && s.lock.k == |s.buffer| && s.lock.id in s.subs
    case Receive(id) => id in s.subs && s.subs[id].returned && s.subs[id].queue != []
    case SeeEnd(id) => id in s.subs && s.subs[id].returned && s.subs[id].queue == [] && s.subs[id].closes > 0
  }

  function With(s: State, id: nat, b: Subscriber): State {
    s.(subs := s.subs[id := b])
  }

  function Step(s: State, e: Event): State
    requires Enabled(s, e)
  {
    match e
    case Take => s.(input := s.input[1..], buffer := s.buffer + [s.input[0]], lock := Sending(s.input[0], 0))
    case Send =>
      var id := s.receivers[s.lock.k];
      var b := s.subs[id];
      With(s, id, if |b.queue| < CAPACITY then b.(queue := b.queue + [s.lock.v]) else b).(lock := Sending(s.lock.v, s.lock.k + 1))
    case EndSend => s.(lock := Free)
    case Close => s.(closed := true, lock := Closing(0))
    case CloseOne =>
      var id := s.receivers[s.lock.k];
      With(s, id, s.subs[id].(closes := s.subs[id].closes + 1)).(lock := Closing(s.lock.k + 1))
    case EndClose => s.(lock := Free)
    case Subscribe(id) => With(s, id, Subscriber([], 0, [], false, false)).(lock := Replaying(id, 0))
    case Replay =>
      var b := s.subs[s.lock.id];
      With(s, s.lock.id, b.(queue := b.queue + [s.buffer[s.lock.k]])).(lock := Replaying(s.lock.id, s.lock.k + 1))
    case Join =>
      var b := s.subs[s.lock.id].(returned := true);
      if s.closed then With(s, s.lock.id, b.(closes := b.closes + 1)).(lock := Free)
      else With(s, s.lock.id, b).(receivers := s.receivers + [s.lock.id], lock := Free)
    case Receive(id) =>
      var b := s.subs[id];
      With(s, id, b.(queue := b.queue[1..], got := b.got + [b.queue[0]]))
    case SeeEnd(id) => With(s, id, s.subs[id].(ended := true))
  }

  function Init(history: seq<Value>): State {
    State(history, [], false, [], map[], Free)
  }

  predicate Follows(run: seq<State>, events: seq<Event>, i: nat)
    requires i < |events| && |run| == |events| + 1
  {
    Enabled(run[i], events[i]) && run[i + 1] == Step(run[i], events[i])
  }

  ghost predicate IsRun(run: seq<State>, events: seq<Event>) {
    |run| == |events| + 1 && forall i :: 0 <= i < |events| ==> Follows(run, events, i)
  }

  ghost predicate Reaches(history: seq<Value>, s: State) {
    exists run, events :: IsRun(run, events) && run[0] == Init(history) && run[|events|] == s
  }

  lemma StartReaches(history: seq<Value>)
    ensures Reaches(history, Init(history))
  {
    assert IsRun([Init(history)], []);
  }

  lemma StepReaches(history: seq<Value>, s: State, e: Event)
    requires Reaches(history, s) && Enabled(s, e)
    ensures Reaches(history, Step(s, e))
  {
    var run, events :| IsRun(run, events) && run[0] == Init(history) && run[|events|] == s;
    var run', events' := run + [Step(s, e)], events + [e];
    forall i | 0 <= i < |events'| ensures Follows(run', events', i) {
      if i < |events| {
        assert Follows(run, events, i);
      }
    }
    assert IsRun(run', events') && run'[0] == Init(history) && run'[|events'|] == Step(s, e);
  }

  /******* The invariant *******/

  function Delivered(b: Subscriber): seq<Value> {
    b.got + b.queue
  }

  // The i-th receiver has everything, unless the pump is on its way to it
  ghost predicate ReceiverOk(s: State, i: nat)
    requires i < |s.receivers|
  {
    && s.receivers[i] in s.subs
    && var b := s.subs[s.receivers[i]];
    && b.returned
    && Delivered(b) == (if s.lock.Sending? && s.lock.k <= i then [] else s.buffer)
    && b.closes == (if s.closed && !(s.lock.Closing? && s.lock.k <= i) then 1 else 0)
    && (b.ended ==> b.closes == 1 && b.queue == [])
  }

  // A subscriber that is no receiver is being replayed, or joined after the end
  ghost predicate OtherOk(s: State, id: nat)
    requires id in s.subs
  {
    var b := s.subs[id];
    if s.lock.Replaying? && s.lock.id == id then
      b.got == [] && s.lock.k <= |s.buffer| && b.queue == s.buffer[..s.lock.k] && b.closes == 0 && !b.ended && !b.returned
    else
      b.returned && s.closed && b.closes == 1 && Delivered(b) == s.buffer && (b.ended ==> b.queue == [])
  }

  ghost predicate LockOk(s: State) {
    match s.lock
    case Free => true
    case Sending(v, k) => k <= |s.receivers| && s.buffer == [v] && !s.closed
    case Closing(k) => k <= |s.receivers| && s.closed
    case Replaying(id, k) => id in s.subs && id !in s.receivers && k <= |s.buffer|
  }

  ghost predicate Inv(history: seq<Value>, s: State) {
    && s.buffer + s.input == history && |history| <= 1
    && (s.closed ==> s.input == [])
    && (forall i, j :: 0 <= i < j < |s.receivers| ==> s.receivers[i] != s.receivers[j])
    && LockOk(s)
    && (forall i :: 0 <= i < |s.receivers| ==> ReceiverOk(s, i))
    && (forall id :: id in s.subs && id !in s.receivers ==> OtherOk(s, id))
  }

  // Events that change no subscriber: the pump and a replay take and give back the lock
  predicate OfLock(e: Event) {
    e.Take? || e.EndSend? || e.Close? || e.EndClose?
  }

  // Events of the pump on one receiver
  predicate OfPump(e: Event) {
    e.Send? || e.CloseOne?
  }

  // Events of a subscriber on its own channel
  predicate OfReader(e: Event) {
    e.Receive? || e.SeeEnd?
  }

  lemma LockKeepsReceiver(s: State, e: Event, i: nat)
    requires OfLock(e) && Enabled(s, e) && LockOk(s) && i < |s.receivers| && ReceiverOk(s, i)
    requires |s.buffer + s.input| <= 1 && (s.closed ==> s.input == [])
    ensures ReceiverOk(Step(s, e), i)
  {
  }

  lemma PumpKeepsReceiver(s: State, e: Event, i: nat)
    requires OfPump(e) && Enabled(s, e) && LockOk(s) && i < |s.receivers| && ReceiverOk(s, i)
    requires s.receivers[i] == s.receivers[s.lock.k] ==> i == s.lock.k
    ensures ReceiverOk(Step(s, e), i)
  {
    var b := s.subs[s.receivers[i]];
    if e.Send? && s.lock.k == i {
      assert b.got == [] && b.queue == [];
      assert b.got + (b.queue + [s.lock.v]) == [s.lock.v];
    }
  }

  lemma ReaderKeepsReceiver(s: State, e: Event, i: nat)
    requires OfReader(e) && Enabled(s, e) && i < |s.receivers| && ReceiverOk(s, i)
    ensures ReceiverOk(Step(s, e), i)
  {
    var b := s.subs[s.receivers[i]];
    if e.Receive? && e.id == s.receivers[i] {
      assert b.got + [b.queue[0]] + b.queue[1..] == b.got + b.queue;
    }
  }

  lemma JoinKeepsReceiver(s: State, e: Event, i: nat)
    requires (e.Subscribe? || e.Replay? || e.Join?) && Enabled(s, e) && LockOk(s) && i < |s.receivers| && ReceiverOk(s, i)
    ensures ReceiverOk(Step(s, e), i)
  {
    if e.Replay? || e.Join? {
      assert s.receivers[i] in s.receivers && s.lock.id != s.receivers[i];
    }
  }

  lemma JoinsWell(s: State)
    requires Enabled(s, Join) && !s.closed && OtherOk(s, s.lock.id) && LockOk(s)
    ensures ReceiverOk(Step(s, Join), |s.receivers|)
  {
    assert s.buffer[..|s.buffer|] == s.buffer;
    assert [] + s.buffer == s.buffer;
  }

  lemma ReceiverKept(history: seq<Value>, s: State, e: Event, i: nat)
    requires Inv(history, s) && Enabled(s, e) && i < |Step(s, e).receivers|
    ensures ReceiverOk(Step(s, e), i)
  {
    if i < |s.receivers| {
      assert ReceiverOk(s, i);
      if OfLock(e) {
        LockKeepsReceiver(s, e, i);
      } else if OfPump(e) {
        PumpKeepsReceiver(s, e, i);
      } else if OfReader(e) {
        ReaderKeepsReceiver(s, e, i);
      } else {
        JoinKeepsReceiver(s, e, i);
      }
    } else {
      assert OtherOk(s, s.lock.id);
      JoinsWell(s);
    }
  }

  lemma PumpKeepsOther(s: State, e: Event, id: nat)
    requires (OfLock(e) || OfPump(e)) && Enabled(s, e) && LockOk(s) && id in s.subs && id !in s.receivers && OtherOk(s, id)
    requires s.closed ==> s.input == []
    ensures OtherOk(Step(s, e), id)
  {
    if OfPump(e) {
      assert s.receivers[s.lock.k] in s.receivers;
    }
  }

  lemma ReaderKeepsOther(s: State, e: Event, id: nat)
    requires OfReader(e) && Enabled(s, e) && id in s.subs && OtherOk(s, id)
    ensures OtherOk(Step(s, e), id)
  {
    var b := s.subs[id];
    if e.Receive? && e.id == id {
      assert b.got + [b.queue[0]] + b.queue[1..] == b.got + b.queue;
    }
  }

  lemma JoinKeepsOther(s: State, e: Event, id: nat)
    requires (e.Subscribe? || e.Replay? || e.Join?) && Enabled(s, e) && LockOk(s) && id in s.subs && OtherOk(s, id)
    requires id !in Step(s, e).receivers
    ensures OtherOk(Step(s, e), id)
  {
    if e.Join? && s.lock.id == id {
      assert id in s.receivers + [id];
      assert s.buffer[..|s.buffer|] == s.buffer && [] + s.buffer == s.buffer;
    } else if e.Replay? && s.lock.id == id {
      assert s.buffer[..s.lock.k + 1] == s.buffer[..s.lock.k] + [s.buffer[s.lock.k]];
    }
  }

  lemma OtherKept(history: seq<Value>, s: State, e: Event, id: nat)
    requires Inv(history, s) && Enabled(s, e) && id in Step(s, e).subs && id !in Step(s, e).receivers
    ensures OtherOk(Step(s, e), id)
  {
    if id in s.subs {
      assert id !in s.receivers;
      assert OtherOk(s, id);
      if OfLock(e) || OfPump(e) {
        PumpKeepsOther(s, e, id);
      } else if OfReader(e) {
        ReaderKeepsOther(s, e, id);
      } else {
        JoinKeepsOther(s, e, id);
      }
    } else {
      assert e == Subscribe(id);
    }
  }

  lemma ReceiversSubscribed(history: seq<Value>, s: State)
    requires Inv(history, s)
    ensures forall i :: 0 <= i < |s.receivers| ==> s.receivers[i] in s.subs
  {
    forall i | 0 <= i < |s.receivers| ensures s.receivers[i] in s.subs {
      assert ReceiverOk(s, i);
    }
  }

  lemma LockKept(history: seq<Value>, s: State, e: Event)
    requires Inv(history, s) && Enabled(s, e)
    ensures LockOk(Step(s, e))
  {
    ReceiversSubscribed(history, s);
    if e.Take? {
      assert |s.buffer + s.input| <= 1;
    }
  }

  lemma HistoryKept(history: seq<Value>, s: State, e: Event)
    requires Inv(history, s) && Enabled(s, e)
    ensures var t := Step(s, e);
            && t.buffer + t.input == history && (t.closed ==> t.input == [])
            && forall i, j :: 0 <= i < j < |t.receivers| ==> t.receivers[i] != t.receivers[j]
  {
    if e.Take? {
      assert s.buffer + [s.input[0]] + s.input[1..] == s.buffer + s.input;
    }
  }

  lemma StepKeepsInv(history: seq<Value>, s: State, e: Event)
    requires Inv(history, s) && Enabled(s, e)
    ensures Inv(history, Step(s, e))
  {
    var t := Step(s, e);
    HistoryKept(history, s, e);
    LockKept(history, s, e);
    forall i | 0 <= i < |t.receivers| ensures ReceiverOk(t, i) {
      ReceiverKept(history, s, e, i);
    }
    forall id | id in t.subs && id !in t.receivers ensures OtherOk(t, id) {
      OtherKept(history, s, e, id);
    }
  }

  lemma {:induction false} RunKeepsInv(history: seq<Value>, run: seq<State>, events: seq<Event>, n: nat)
    requires |history| <= 1 && IsRun(run, events) && run[0] == Init(history) && n <= |events|
    ensures Inv(history, run[n])
  {
    if n > 0 {
      RunKeepsInv(history, run, events, n - 1);
      assert Follows(run, events, n - 1);
      StepKeepsInv(history, run[n - 1], events[n - 1]);
    }
  }

  lemma ReachableInv(history: seq<Value>, s: State)
    requires |history| <= 1 && Reaches(history, s)
    ensures Inv(history, s)
  {
    var run, events :| IsRun(run, events) && run[0] == Init(history) && run[|events|] == s;
    RunKeepsInv(history, run, events, |events|);
  }

  /******* At most one value *******/

  // Every subscriber reads the history from its start, and reads the end only after all of it; a channel is
  // closed once, and by then holds or has delivered everything
  lemma FullHistoryThenClose(history: seq<Value>, s: State, id: nat)
    requires |history| <= 1 && Reaches(history, s) && id in s.subs
    ensures s.subs[id].got <= history && |s.subs[id].queue| <= CAPACITY && s.subs[id].closes <= 1
    ensures s.subs[id].closes == 1 ==> Delivered(s.subs[id]) == history
    ensures s.subs[id].ended ==> s.subs[id].got == history && s.subs[id].closes == 1
    ensures s.closed && s.lock.Free? ==> s.subs[id].closes == 1
  {
    ReachableInv(history, s);
    var b := s.subs[id];
    if id in s.receivers {
      var i :| 0 <= i < |s.receivers| && s.receivers[i] == id;
      assert ReceiverOk(s, i);
    } else {
      assert OtherOk(s, id);
    }
    assert s.closed ==> s.buffer == history;
    assert Delivered(b) <= history;
    assert b.got == Delivered(b)[..|b.got|];
    if b.ended {
      assert Delivered(b) == b.got;
    }
  }

  // What the holder of the lock does next, or the pump if the lock is free
  function Next(s: State): Event {
    match s.lock
    case Free => if s.input != [] then Take else Close
    case Sending(_, k) => if k < |s.receivers| then Send else EndSend
    case Closing(k) => if k < |s.receivers| then CloseOne else EndClose
    case Replaying(_, k) => if k < |s.buffer| then Replay else Join
  }

  // Turns until the input is spent and the lock is free for good, apart from new subscribers
  function Distance(s: State): nat {
    var pass := |s.receivers| + 3;
    (if s.closed then 0 else pass) + |s.input| * pass
    + match s.lock
      case Free => 0
      case Sending(_, k) => if k <= |s.receivers| then |s.receivers| - k + 1 else 0
      case Closing(k) => if k <= |s.receivers| then |s.receivers| - k + 1 else 0
      case Replaying(_, k) => 0
  }

  // Nobody ever waits: the holder can always go on, and so can the pump when the lock is free; no value is
  // sent on a closed channel, and none is dropped
  lemma NothingBlocks(history: seq<Value>, s: State)
    requires |history| <= 1 && Reaches(history, s)
    ensures !(s.closed && s.lock.Free?) ==> Enabled(s, Next(s))
    ensures s.lock.Sending? && s.lock.k < |s.receivers| ==>
              s.subs[s.receivers[s.lock.k]].queue == [] && s.subs[s.receivers[s.lock.k]].closes == 0
  {
    ReachableInv(history, s);
    if (s.lock.Sending? || s.lock.Closing?) && s.lock.k < |s.receivers| {
      assert ReceiverOk(s, s.lock.k);
    } else if s.lock.Replaying? {
      assert OtherOk(s, s.lock.id);
    }
  }

  // The pump's own turns bring it to the end
  lemma PumpAdvances(history: seq<Value>, s: State)
    requires |history| <= 1 && Reaches(history, s) && !s.lock.Replaying? && !(s.closed && s.lock.Free?)
    ensures Enabled(s, Next(s)) && Distance(Step(s, Next(s))) < Distance(s)
  {
    NothingBlocks(history, s);
    ReachableInv(history, s);
  }

  // A subscriber that reads what is in its channel
  function Drained(s: State, id: nat): State {
    if Enabled(s, Receive(id)) then Step(s, Receive(id)) else s
  }

  /**
   Once the pump is done, every subscriber can read on by itself, whatever the others do not do: what is left in its
   channel and then the end. It has then read exactly the history.
   */
  lemma ReaderFinishes(history: seq<Value>, s: State, id: nat)
    requires |history| <= 1 && Reaches(history, s) && s.closed && s.lock.Free? && id in s.subs
    ensures var u := Drained(s, id);
            && Enabled(u, SeeEnd(id))
            && var b := Step(u, SeeEnd(id)).subs[id];
            b.ended && b.queue == [] && b.got == history
  {
    ReachableInv(history, s);
    if id in s.receivers {
      var i :| 0 <= i < |s.receivers| && s.receivers[i] == id;
      assert ReceiverOk(s, i);
    } else {
      assert OtherOk(s, id);
    }
    var b := s.subs[id];
    assert b.got + b.queue == s.buffer == history;
    if b.queue != [] {
      assert |b.queue| == 1 && b.got == [] && b.queue[1..] == [];
    }
  }

  /******* More values *******/

  // The holder waits for a channel that nobody can read
  predicate Stuck(s: State) {
    s.lock.Replaying? && s.lock.k < |s.buffer| && s.lock.id in s.subs
    && |s.subs[s.lock.id].queue| >= CAPACITY && !s.subs[s.lock.id].returned
  }

  // It waits for ever, and with it everyone who needs the lock
  lemma StuckStays(s: State, e: Event)
    requires Stuck(s) && Enabled(s, e)
    ensures Stuck(Step(s, e)) && Step(s, e).lock == s.lock && Step(s, e).input == s.input && Step(s, e).receivers == s.receivers
  {
  }

  // Two values and a late subscriber
  lemma TwoValuesGetStuck(history: seq<Value>) returns (s: State)
    requires |history| >= 2
    ensures Reaches(history, s) && Stuck(s)
  {
    StartReaches(history);
    var s2 := SentToNone(history, Init(history));
    var s4 := SentToNone(history, s2);
    var s5 := Step(s4, Subscribe(0));
    StepReaches(history, s4, Subscribe(0));
    s := Step(s5, Replay);
    StepReaches(history, s5, Replay);
  }

  lemma SentToNone(history: seq<Value>, s: State) returns (t: State)
    requires Reaches(history, s) && s.lock.Free? && s.input != [] && !s.closed && s.receivers == []
    ensures t == s.(input := s.input[1..], buffer := s.buffer + [s.input[0]]) && Reaches(history, t)
  {
    StepReaches(history, s, Take);
    var s1 := Step(s, Take);
    StepReaches(history, s1, EndSend);
    t := Step(s1, EndSend);
  }

  // The replay never blocks exactly for inputs of at most one value
  lemma NeverStuckIff(history: seq<Value>)
    ensures (forall s :: Reaches(history, s) ==> !Stuck(s)) <==> |history| <= 1
  {
    if |history| <= 1 {
      forall s | Reaches(history, s) ensures !Stuck(s) {
        NothingBlocks(history, s);
      }
    } else {
      var s := TwoValuesGetStuck(history);
    }
  }

  // An early subscriber that does not read between two values loses the second
  lemma TwoValuesGetLost(history: seq<Value>) returns (s: State)
    requires |history| >= 2
    ensures Reaches(history, s) && s.lock.Free? && s.buffer == history[..2]
    ensures s.receivers == [0] && 0 in s.subs && Delivered(s.subs[0]) == history[..1]
  {
    var a, b := history[0], history[1];
    var one := Joined(history);
    var two := SentToOne(history, one, a);
    s := SentToOne(history, two, b);
  }

  lemma Joined(history: seq<Value>) returns (s: State)
    ensures s == State(history, [], false, [0], map[0 := Subscriber([], 0, [], false, true)], Free) && Reaches(history, s)
  {
    StartReaches(history);
    var s1 := Step(Init(history), Subscribe(0));
    StepReaches(history, Init(history), Subscribe(0));
    s := Step(s1, Join);
    StepReaches(history, s1, Join);
  }

  lemma SentToOne(history: seq<Value>, s: State, v: Value) returns (t: State)
    requires Reaches(history, s) && s.lock.Free? && s.input != [] && s.input[0] == v && !s.closed
    requires s.receivers == [0] && 0 in s.subs
    ensures var b := s.subs[0];
      t == s.(input := s.input[1..], buffer := s.buffer + [v],
              subs := s.subs[0 := if |b.queue| < CAPACITY then b.(queue := b.queue + [v]) else b])
    ensures Reaches(history, t)
  {
    var s1 := Step(s, Take);
    StepReaches(history, s, Take);
    var s2 := Step(s1, Send);
    StepReaches(history, s1, Send);
    assert s2.lock == Sending(v, 1) && s2.receivers == [0];
    t := Step(s2, EndSend);
    StepReaches(history, s2, EndSend);
  }

  /******* The critical sections *******/

  // What the pump does to each receiver's channel: offer it a value, which it takes if it has room, or close it
  datatype Deal = Offer(v: Value) | End

  function Apply(d: Deal, b: Subscriber): Subscriber {
    match d
    case Offer(v) => if |b.queue| < CAPACITY then b.(queue := b.queue + [v]) else b
    case End => b.(closes := b.closes + 1)
  }

  predicate Listed(receivers: seq<nat>, subs: map<nat, Subscriber>) {
    forall i :: 0 <= i < |receivers| ==> receivers[i] in subs
  }

  // The first k receivers dealt with, one after the other
  function Dealt(subs: map<nat, Subscriber>, receivers: seq<nat>, d: Deal, k: nat): (r: map<nat, Subscriber>)
    requires k <= |receivers| && Listed(receivers, subs)
    ensures r.Keys == subs.Keys
  {
    if k == 0 then subs
    else
      var m, id := Dealt(subs, receivers, d, k - 1), receivers[k - 1];
      m[id := Apply(d, m[id])]
  }

  // Each receiver is dealt with once, and nobody else is
  lemma {:induction false} DealtOnce(subs: map<nat, Subscriber>, receivers: seq<nat>, d: Deal, k: nat, id: nat)
    requires k <= |receivers| && Listed(receivers, subs) && id in subs
    requires forall i, j :: 0 <= i < j < |receivers| ==> receivers[i] != receivers[j]
    ensures Dealt(subs, receivers, d, k)[id] == if id in receivers[..k] then Apply(d, subs[id]) else subs[id]
  {
    if k > 0 {
      DealtOnce(subs, receivers, d, k - 1, id);
      assert receivers[..k] == receivers[..k - 1] + [receivers[k - 1]];
      assert receivers[k - 1] !in receivers[..k - 1];
    }
  }

  // The pump's turns from one receiver to the next
  lemma {:induction false} DealReaches(history: seq<Value>, s: State, d: Deal, k: nat)
    requires Listed(s.receivers, s.subs) && k <= |s.receivers| && Reaches(history, s.(lock := LockFor(d, 0)))
    ensures Reaches(history, s.(subs := Dealt(s.subs, s.receivers, d, k), lock := LockFor(d, k)))
  {
    if k > 0 {
      DealReaches(history, s, d, k - 1);
      var t := s.(subs := Dealt(s.subs, s.receivers, d, k - 1), lock := LockFor(d, k - 1));
      var e := if d.Offer? then Send else CloseOne;
      StepReaches(history, t, e);
      assert Step(t, e) == s.(subs := Dealt(s.subs, s.receivers, d, k), lock := LockFor(d, k));
    }
  }

  function LockFor(d: Deal, k: nat): Holder {
    match d
    case Offer(v) => Sending(v, k)
    case End => Closing(k)
  }

  lemma PumpReaches(history: seq<Value>, s: State)
    requires Reaches(history, s) && s.lock.Free? && s.input != [] && !s.closed && Listed(s.receivers, s.subs)
    ensures Reaches(history, s.(input := s.input[1..], buffer := s.buffer + [s.input[0]],
                                subs := Dealt(s.subs, s.receivers, Offer(s.input[0]), |s.receivers|)))
  {
    var d, n := Offer(s.input[0]), |s.receivers|;
    StepReaches(history, s, Take);
    var t := Step(s, Take);
    DealReaches(history, t, d, n);
    StepReaches(history, t.(subs := Dealt(s.subs, s.receivers, d, n), lock := LockFor(d, n)), EndSend);
  }

  lemma CloseReaches(history: seq<Value>, s: State)
    requires Reaches(history, s) && s.lock.Free? && s.input == [] && !s.closed && Listed(s.receivers, s.subs)
    ensures Reaches(history, s.(closed := true, subs := Dealt(s.subs, s.receivers, End, |s.receivers|)))
  {
    var n := |s.receivers|;
    StepReaches(history, s, Close);
    var t := Step(s, Close);
    DealReaches(history, t, End, n);
    StepReaches(history, t.(subs := Dealt(s.subs, s.receivers, End, n), lock := LockFor(End, n)), EndClose);
  }

  // A subscriber that has been replayed the first k values
  function Replayed(s: State, id: nat, k: nat): State
    requires k <= |s.buffer|
  {
    s.(subs := s.subs[id := Subscriber(s.buffer[..k], 0, [], false, false)], lock := Replaying(id, k))
  }

  lemma {:induction false} ReplayReaches(history: seq<Value>, s: State, id: nat, k: nat)
    requires Reaches(history, s) && s.lock.Free? && id !in s.subs && k <= |s.buffer| && k <= CAPACITY
    ensures Reaches(history, Replayed(s, id, k))
  {
    if k == 0 {
      StepReaches(history, s, Event.Subscribe(id));
      assert Step(s, Event.Subscribe(id)) == Replayed(s, id, 0);
    } else {
      ReplayReaches(history, s, id, k - 1);
      var t := Replayed(s, id, k - 1);
      StepReaches(history, t, Replay);
      assert s.buffer[..k] == s.buffer[..k - 1] + [s.buffer[k - 1]];
      assert Step(t, Replay).subs == Replayed(s, id, k).subs;
    }
  }

  // The channel of a subscriber that has joined, and who is a receiver then
  function JoinedState(s: State, id: nat): State {
    s.(subs := s.subs[id := Subscriber(s.buffer, if s.closed then 1 else 0, [], false, true)],
       receivers := if s.closed then s.receivers else s.receivers + [id])
  }

  lemma JoinReaches(history: seq<Value>, s: State, id: nat)
    requires Reaches(history, s) && s.lock.Free? && id !in s.subs && |s.buffer| <= CAPACITY
    ensures Reaches(history, JoinedState(s, id))
  {
    var n := |s.buffer|;
    ReplayReaches(history, s, id, n);
    var t := Replayed(s, id, n);
    StepReaches(history, t, Join);
    assert s.buffer[..n] == s.buffer;
    assert Step(t, Join).subs == JoinedState(s, id).subs;
  }

  class Broadcaster {
    var input: seq<Value>
    var buffer: seq<Value>
    var closed: bool
    var receivers: seq<nat>
    var subs: map<nat, Subscriber>

    ghost function At(lock: Holder): State
      reads this
    {
      State(input, buffer, closed, receivers, subs, lock)
    }

    constructor (history: seq<Value>)
      ensures At(Free) == Init(history)
    {
      input, buffer, closed, receivers, subs := history, [], false, [], map[];
    }

    // The pump has read a value
    method Pump(ghost history: seq<Value>)
      requires Listed(receivers, subs) && input != [] && !closed && Reaches(history, At(Free))
      modifies this
      ensures input == old(input)[1..] && buffer == old(buffer) + [old(input)[0]] && !closed && receivers == old(receivers)
      ensures subs == Dealt(old(subs), receivers, Offer(old(input)[0]), |receivers|)
      ensures Reaches(history, At(Free))
    {
      PumpReaches(history, At(Free));
      var v := input[0];
      input, buffer := input[1..], buffer + [v];
      for k := 0 to |receivers|
        invariant input == old(input)[1..] && buffer == old(buffer) + [v] && !closed && receivers == old(receivers)
        invariant subs == Dealt(old(subs), receivers, Offer(v), k)
      {
        var id := receivers[k];
        if |subs[id].queue| < CAPACITY {
          subs := subs[id := subs[id].(queue := subs[id].queue + [v])];
        }
      }
    }

    // The input is closed
    method CloseAll(ghost history: seq<Value>)
      requires Listed(receivers, subs) && input == [] && !closed && Reaches(history, At(Free))
      modifies this
      ensures closed && input == [] && buffer == old(buffer) && receivers == old(receivers)
      ensures subs == Dealt(old(subs), receivers, End, |receivers|)
      ensures Reaches(history, At(Free))
    {
      CloseReaches(history, At(Free));
      closed := true;
      for k := 0 to |receivers|
        invariant closed && input == [] && buffer == old(buffer) && receivers == old(receivers)
        invariant subs == Dealt(old(subs), receivers, End, k)
      {
        var id := receivers[k];
        subs := subs[id := subs[id].(closes := subs[id].closes + 1)];
      }
    }

    // Makes a channel and puts what has been sent into it, as far as that fits
    method ReplayAll(id: nat, ghost s: State) returns (blocked: bool)
      requires At(Free) == s
      modifies this`subs
      ensures blocked <==> |buffer| > CAPACITY
      ensures subs == Replayed(s, id, if blocked then CAPACITY else |buffer|).subs
    {
      subs := subs[id := Subscriber([], 0, [], false, false)];
      for k := 0 to |buffer|
        invariant k <= CAPACITY && subs == Replayed(s, id, k).subs
      {
        if k == CAPACITY {
          return true;
        }
        assert buffer[..k + 1] == buffer[..k] + [buffer[k]];
        subs := subs[id := subs[id].(queue := subs[id].queue + [buffer[k]])];
      }
      blocked := false;
    }

    // A new channel, with all that has been sent; it blocks, and the lock stays taken, if that does not fit
    method Subscribe(id: nat, ghost history: seq<Value>) returns (blocked: bool)
      requires id !in subs && Reaches(history, At(Free))
      modifies this`subs, this`receivers
      ensures blocked <==> |buffer| > CAPACITY
      ensures blocked ==> At(Replaying(id, CAPACITY)) == Replayed(old(At(Free)), id, CAPACITY)
      ensures blocked ==> Reaches(history, At(Replaying(id, CAPACITY))) && Stuck(At(Replaying(id, CAPACITY)))
      ensures !blocked ==> At(Free) == JoinedState(old(At(Free)), id) && Reaches(history, At(Free))
    {
      ghost var s := At(Free);
      blocked := ReplayAll(id, s);
      if blocked {
        ReplayReaches(history, s, id, CAPACITY);
        return;
      }
      JoinReaches(history, s, id);
      subs := subs[id := Subscriber(buffer, if closed then 1 else 0, [], false, true)];
      if !closed {
        receivers := receivers + [id];
      }
      assert subs == JoinedState(s, id).subs;
    }
  }
}
