/**
 The CRIU RPC driver: one request, then a loop of notifications that are handed to the registered
 callbacks and acknowledged, bracketed by initialize and finalize hooks and by setup and cleanup of
 the CRIU process.

 What CRIU replies, what each callback answers and whether setup and cleanup work are arbitrary. Every
 run leaves a log of what happened, in order.
 */
module CriuDriver {

  // Errors as the atoms joined into them; nil is the empty sequence
  type Err = seq<nat>
  type Failure = e: Err | e != [] witness [0]

  const NIL: Err := []
  const REFUSED: Failure := [1]
  const UNEXPECTED_NOTIFY: Failure := [2]
  const UNEXPECTED_RESPONSE: Failure := [3]
  const DISCONNECTED: Failure := [4]

  datatype Option<T> = None | Some(value: T)

  type Cb = nat

  datatype Hook =
    | Initialize | InitializeDump | InitializeRestore
    | FinalizeDump(run: Err) | FinalizeRestore(run: Err)
    | PreDump | PostDump | PreRestore | PostRestore(pid: int)
    | NetworkLock | NetworkUnlock
    | SetupNamespaces(pid: int) | PostSetupNamespaces | SkipNamespaces(pid: int)
    | PreResume | PostResume
    | QueryExtFiles | OrphanPtsMaster(fd: int)

  datatype Event =
    | Prepared
    | Called(hook: Hook)                                          // the driver calls a hook
    | Ran(hook: Hook, cb: Cb, err: Err, files: seq<string>)       // one callback has run and answered
    | Returned(hook: Hook, err: Err)                              // the hook answers the driver
    | Acked(script: string, external: seq<string>)                // NotifySuccess is sent
    | CleanedUp

  datatype Outcome = Outcome(err: Err, files: seq<string>)

  // What a callback answers may depend on everything that happened before
  type Oracle = (seq<Event>, Hook, Cb) -> Outcome

  datatype Rights = Malformed(err: Failure) | Fd(fd: int)

  datatype Req = ReqDump | ReqRestore | ReqOther(n: nat)

  datatype Reply =
    | Broken(err: Failure)     // marshalling, sending, receiving or unmarshalling failed
    | Failed                   // CRIU reports that the operation failed
    | Final(req: Req)          // a successful response that is not a notification
    | Notify(script: string, pid: int, rights: Rights)

  datatype Hooked = Hooked(log: seq<Event>, err: Err, files: seq<string>)
  // resp: what CRIU replied last, if the call returns it
  datatype Result = Result(log: seq<Event>, err: Err, resp: Option<Reply>)

  /******* The fan-out *******/

  // Callbacks run from the last registered to the first, until one fails
  function Fan(cbs: seq<Cb>, hook: Hook, log: seq<Event>, oracle: Oracle): (r: Hooked)
    ensures r.err != NIL ==> r.files == []
  {
    if cbs == [] then Hooked(log, NIL, [])
    else
      var cb := cbs[|cbs| - 1];
      var o := oracle(log, hook, cb);
      var log' := log + [Ran(hook, cb, o.err, o.files)];
      if o.err != NIL then Hooked(log', o.err, [])
      else
        var r := Fan(cbs[..|cbs| - 1], hook, log', oracle);
        if r.err != NIL then r else r.(files := o.files + r.files)
  }

  function Call(cbs: seq<Cb>, hook: Hook, log: seq<Event>, oracle: Oracle): Hooked {
    var r := Fan(cbs, hook, log + [Called(hook)], oracle);
    r.(log := r.log + [Returned(hook, r.err)])
  }

  /******* The notification loop *******/

  const ORPHAN := "orphan-pts-master"

  function HookFor(script: string, pid: int): Option<Hook> {
    match script
    case "pre-dump" => Some(PreDump)
    case "post-dump" => Some(PostDump)
    case "pre-restore" => Some(PreRestore)
    case "post-restore" => Some(PostRestore(pid))
    case "network-lock" => Some(NetworkLock)
    case "network-unlock" => Some(NetworkUnlock)
    case "setup-namespaces" => Some(SetupNamespaces(pid))
    case "post-setup-namespaces" => Some(PostSetupNamespaces)
    case "pre-resume" => Some(PreResume)
    case "post-resume" => Some(PostResume)
    case "skip-namespaces" => Some(SkipNamespaces(pid))
    case "query-ext-files" => Some(QueryExtFiles)
    case _ => None
  }

  // Handles one notification: the log, the error that ends the loop if any, and the external files
  // that go with the acknowledgement
  function Handle(cbs: seq<Cb>, n: Reply, log: seq<Event>, oracle: Oracle): Hooked
    requires n.Notify?
  {
    if n.script == ORPHAN then
      match n.rights
      case Malformed(e) => Hooked(log, e, [])
      // the result is assigned to a variable of the case's own, so it is lost
      case Fd(fd) => Hooked(Call(cbs, OrphanPtsMaster(fd), log, oracle).log, NIL, [])
    else
      match HookFor(n.script, n.pid)
      case None => Hooked(log, NIL, [])
      case Some(h) =>
        var c := Call(cbs, h, log, oracle);
        c.(files := if h.QueryExtFiles? then c.files else [])
  }

  // The replies running out means that CRIU went away
  function Loop(nfy: Option<seq<Cb>>, replies: seq<Reply>, log: seq<Event>, oracle: Oracle): Result
    decreases |replies|
  {
    if replies == [] then Result(log, DISCONNECTED, None)
    else
      match replies[0]
      case Broken(e) => Result(log, e, None)
      case Failed => Result(log, REFUSED, Some(Failed))
      case Final(req) => Result(log, NIL, Some(replies[0]))
      case Notify(script, _, _) =>
        if nfy.None? then Result(log, UNEXPECTED_NOTIFY, Some(replies[0]))
        else
          var c := Handle(nfy.value, replies[0], log, oracle);
          // rights that cannot be parsed end the loop without a response
          if c.err != NIL then Result(c.log, c.err, if script == ORPHAN then None else Some(replies[0]))
          else Loop(nfy, replies[1..], c.log + [Acked(script, c.files)], oracle)
  }

  // CRIU has come to an end
  predicate Concludes(resp: Option<Reply>) {
    resp.Some? && resp.value.Final?
  }

  /******* The brackets *******/

  // The hooks around a dump or a restore; other requests have none
  function InitializeFor(req: Req): Option<Hook> {
    match req
    case ReqDump => Some(InitializeDump)
    case ReqRestore => Some(InitializeRestore)
    case ReqOther(_) => None
  }

  function FinalizeFor(req: Req, run: Err): Hook
    requires !req.ReqOther?
  {
    if req.ReqDump? then FinalizeDump(run) else FinalizeRestore(run)
  }

  // Between setup and cleanup
  function Session(req: Req, nfy: Option<seq<Cb>>, replies: seq<Reply>, log: seq<Event>, oracle: Oracle): Result {
    if nfy.None? then Loop(nfy, replies, log, oracle)
    else
      var i := Call(nfy.value, Initialize, log, oracle);
      if i.err != NIL then Result(i.log, i.err, None)
      else if req.ReqOther? then Loop(nfy, replies, i.log, oracle)
      else
        var j := Call(nfy.value, InitializeFor(req).value, i.log, oracle);
        if j.err != NIL then Result(j.log, j.err, None)
        else
          var l := Loop(nfy, replies, j.log, oracle);
          var f := Call(nfy.value, FinalizeFor(req, l.err), l.log, oracle);
          Result(f.log, l.err + f.err, l.resp)
  }

  // prepared and cleaned are the errors of setup and cleanup
  function DoSwrkWithResp(req: Req, nfy: Option<seq<Cb>>, replies: seq<Reply>, prepared: Err, cleaned: Err, oracle: Oracle): Result {
    if prepared != NIL then Result([], prepared, None)
    else
      var s := Session(req, nfy, replies, [Prepared], oracle);
      s.(log := s.log + [CleanedUp], err := s.err + cleaned)
  }

  function DoSwrk(req: Req, nfy: Option<seq<Cb>>, replies: seq<Reply>, prepared: Err, cleaned: Err, oracle: Oracle): Result {
    var r := DoSwrkWithResp(req, nfy, replies, prepared, cleaned, oracle);
    if r.err == NIL && r.resp != Some(Final(req)) then r.(err := UNEXPECTED_RESPONSE) else r
  }

  /******* As the program runs it *******/

  class NotifyCallbackMulti {
    var callbacks: seq<Cb>

    constructor ()
      ensures callbacks == []
    {
      callbacks := [];
    }

    method Include(cb: Option<Cb>)
      modifies this
      ensures callbacks == old(callbacks) + (if cb.Some? then [cb.value] else [])
    {
      if cb.Some? {
        callbacks := callbacks + [cb.value];
      }
    }

    method IncludeMulti(other: NotifyCallbackMulti?)
      modifies this
      ensures callbacks == old(callbacks) + (if other == null then [] else old(other.callbacks))
      ensures other != null && other != this ==> other.callbacks == old(other.callbacks)
    {
      if other != null {
        callbacks := callbacks + other.callbacks;
      }
    }

    method Run(hook: Hook, log: seq<Event>, oracle: Oracle) returns (log': seq<Event>, err: Err, files: seq<string>)
      ensures Hooked(log', err, files) == Call(callbacks, hook, log, oracle)
    {
      log' := log + [Called(hook)];
      ghost var start := log';
      err, files := NIL, [];
      var i := |callbacks|;
      assert callbacks[..i] == callbacks;
      while i > 0
        invariant 0 <= i <= |callbacks|
        invariant Fan(callbacks, hook, start, oracle) == Prepend(files, Fan(callbacks[..i], hook, log', oracle))
        decreases i
      {
        i := i - 1;
        FanStep(callbacks, i, hook, log', oracle);
        var o := oracle(log', hook, callbacks[i]);
        log' := log' + [Ran(hook, callbacks[i], o.err, o.files)];
        if o.err != NIL {
          log', err, files := log' + [Returned(hook, o.err)], o.err, [];
          return;
        }
        PrependTwice(files, o.files, Fan(callbacks[..i], hook, log', oracle));
        files := files + o.files;
      }
      log' := log' + [Returned(hook, NIL)];
    }
  }

  // What the callbacks still to run add to the files collected so far
  function Prepend(files: seq<string>, r: Hooked): Hooked {
    if r.err != NIL then r.(files := []) else r.(files := files + r.files)
  }

  lemma FanStep(cbs: seq<Cb>, i: nat, hook: Hook, log: seq<Event>, oracle: Oracle)
    requires i < |cbs|
    ensures var o := oracle(log, hook, cbs[i]);
            var log' := log + [Ran(hook, cbs[i], o.err, o.files)];
            Fan(cbs[..i + 1], hook, log, oracle)
              == if o.err != NIL then Hooked(log', o.err, []) else Prepend(o.files, Fan(cbs[..i], hook, log', oracle))
  {
    assert cbs[..i + 1][..i] == cbs[..i];
  }

  lemma PrependTwice(a: seq<string>, b: seq<string>, r: Hooked)
    ensures Prepend(a, Prepend(b, r)) == Prepend(a + b, r)
  {
    assert a + (b + r.files) == a + b + r.files;
  }

  // What a descriptor of the CRIU process refers to, beyond the three standard ones
  datatype ChildFile = Extra(file: nat) | ServerSocket

  class Criu {
    var running: bool   // a CRIU process with its socket
    var swrk: int       // the descriptor that its command line names as the socket
    var childFiles: seq<ChildFile>

    constructor ()
      ensures !running
    {
      running, swrk, childFiles := false, 0, [];
    }

    // A process started with extra files has them from descriptor 3 on
    predicate InChild(fd: int, file: ChildFile)
      reads this
    {
      3 <= fd < 3 + |childFiles| && childFiles[fd - 3] == file
    }

    /**
     In the process that was started, the descriptor on the command line is the socket and no other is,
     and each extra file has the number that its place gives it, below that of the socket.
     */
    method Prepare(extraFiles: seq<nat>, prepared: Err) returns (err: Err)
      modifies this
      ensures err == prepared
      ensures err != NIL ==> unchanged(this)
      ensures err == NIL ==> running && forall fd :: InChild(fd, ServerSocket) <==> fd == swrk
      ensures err == NIL ==> forall i :: 0 <= i < |extraFiles| ==> InChild(3 + i, Extra(extraFiles[i])) && 3 + i < swrk
    {
      if prepared == NIL {
        swrk := 3 + |extraFiles|;
        childFiles := seq(|extraFiles|, i requires 0 <= i < |extraFiles| => Extra(extraFiles[i])) + [ServerSocket];
        running := true;
      }
      err := prepared;
    }

    method Cleanup(cleaned: Err) returns (err: Err)
      modifies this
      ensures !running && err == if old(running) then cleaned else NIL
    {
      err := NIL;
      if running {
        running := false;
        err := cleaned;
      }
    }

    method NotifyLoop(nfy: NotifyCallbackMulti?, replies: seq<Reply>, log: seq<Event>, oracle: Oracle)
      returns (log': seq<Event>, err: Err, resp: Option<Reply>)
      ensures Result(log', err, resp) == Loop(Callbacks(nfy), replies, log, oracle)
    {
      log', resp := log, None;
      var i := 0;
      while true
        invariant 0 <= i <= |replies| && resp == None
        invariant Loop(Callbacks(nfy), replies[i..], log', oracle) == Loop(Callbacks(nfy), replies, log, oracle)
        decreases |replies| - i
      {
        if i == |replies| {
          return log', DISCONNECTED, None;
        }
        assert replies[i..][0] == replies[i] && replies[i..][1..] == replies[i + 1..];
        var reply := replies[i];
        match reply
        case Broken(e) =>
          return log', e, None;
        case Failed =>
          return log', REFUSED, Some(reply);
        case Final(req) =>
          return log', NIL, Some(reply);
        case Notify(script, pid, rights) =>
          if nfy == null {
            return log', UNEXPECTED_NOTIFY, Some(reply);
          }
          err := NIL;
          var files := [];
          if script == ORPHAN {
            match rights
            case Malformed(e) =>
              return log', e, None;
            case Fd(fd) =>
              var shadowed, none;
              log', shadowed, none := nfy.Run(OrphanPtsMaster(fd), log', oracle);
          } else {
            var hook := HookFor(script, pid);
            if hook.Some? {
              var external;
              log', err, external := nfy.Run(hook.value, log', oracle);
              if hook.value.QueryExtFiles? {
                files := external;
              }
            }
          }
          if err != NIL {
            return log', err, Some(reply);
          }
          log' := log' + [Acked(script, files)];
        i := i + 1;
      }
    }

    method Run(req: Req, nfy: NotifyCallbackMulti?, extraFiles: seq<nat>, replies: seq<Reply>, prepared: Err, cleaned: Err, oracle: Oracle)
      returns (log: seq<Event>, err: Err, resp: Option<Reply>)
      requires !running
      modifies this
      ensures Result(log, err, resp) == DoSwrkWithResp(req, Callbacks(nfy), replies, prepared, cleaned, oracle)
      ensures !running
    {
      log, resp := [], None;
      err := Prepare(extraFiles, prepared);
      if err != NIL {
        return;
      }
      log, err, resp := RunSession(req, nfy, replies, oracle);
      var cleanup := Cleanup(cleaned);
      log := log + [CleanedUp];
      err := err + cleanup;
    }

    method RunSession(req: Req, nfy: NotifyCallbackMulti?, replies: seq<Reply>, oracle: Oracle)
      returns (log: seq<Event>, err: Err, resp: Option<Reply>)
      ensures Result(log, err, resp) == Session(req, Callbacks(nfy), replies, [Prepared], oracle)
    {
      log, resp := [Prepared], None;
      var files;
      if nfy != null {
        log, err, files := nfy.Run(Initialize, log, oracle);
        if err != NIL {
          return;
        }
        if !req.ReqOther? {
          log, err, files := nfy.Run(InitializeFor(req).value, log, oracle);
          if err != NIL {
            return;
          }
        }
      }
      log, err, resp := NotifyLoop(nfy, replies, log, oracle);
      if nfy != null && !req.ReqOther? {
        var finalize;
        log, finalize, files := nfy.Run(FinalizeFor(req, err), log, oracle);
        err := err + finalize;
      }
    }
  }

  function Callbacks(nfy: NotifyCallbackMulti?): Option<seq<Cb>>
    reads nfy
  {
    if nfy == null then None else Some(nfy.callbacks)
  }
}
