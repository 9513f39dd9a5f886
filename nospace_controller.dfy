/** The socket controller on the server: it binds each connected socket to
    the session of its latest run, forwards stdin and kill requests to the
    registry, reports a session's output and its exit to the socket that
    started it, and cleans up when the socket disconnects.

    The callbacks `handleRun` passes to the service report to the socket
    they were created for; a session keeps them, so its `listener` is that
    socket.  They name the session through a `const` binding that is
    initialised only once `run` returns, so a callback the service invokes
    during `run` raises a `ReferenceError`, which leaves the controller. */
module NospaceControl {
  import opened Base
  import opened NospaceTypes
  import opened ExecutionService

  /** An event sent to one socket. */
  datatype Emission = Emission(socket: string, event: ServerEvent)

  /** Input as forwarded to the interpreter: terminated by a newline, which
      is added only when missing. */
  function WithNewline(data: string): (r: string)
    ensures EndsWith(r, "\n")
    ensures r == data || r == data + "\n"
    ensures r == data <==> EndsWith(data, "\n")
  {
    if EndsWith(data, "\n") then data else data + "\n"
  }

  /** Forwarding input twice adds no second newline. */
  lemma WithNewlineIdempotent(data: string)
    ensures WithNewline(WithNewline(data)) == WithNewline(data)
  {
  }

  /** `m` without the entry for `k`, when `k` is a (truthy) key. */
  function Unbound<V>(m: map<string, V>, k: string): map<string, V> {
    if k != "" then m - {k} else m
  }

  /** A session the controller can drive: consistent, and working on the
      service's file system. */
  predicate Usable(s: Session, service: Service)
    reads s
  {
    s.Valid() && s.fs == service.fs
  }

  class Controller {
    const service: Service
    /** The session id of each socket's latest run. */
    var sessionsBySocket: map<string, string>
    /** Events sent, in order, to any socket. */
    var emitted: seq<Emission>

    /** `sessionsBySocket.get(socket)`, with `undefined` as the empty id. */
    function BoundTo(socket: string): string
      reads this`sessionsBySocket
    {
      if socket in sessionsBySocket then sessionsBySocket[socket] else ""
    }

    /** The registry entry `id` is a live, usable session under its own
        id that has not exited. */
    predicate EntryOk(id: string)
      requires id in service.sessions
      reads service, if service.sessions[id].Live? then {service.sessions[id].session} else {}
    {
      var e := service.sessions[id];
      && id != "" && e.Live?
      && var s := e.session;
      && Usable(s, service) && s.sessionId == id && !s.exited
    }

    /** If the registry entry `id` is a running session, its socket is
        bound to it. */
    predicate BindingOk(id: string)
      requires id in service.sessions
      reads this`sessionsBySocket, service, if service.sessions[id].Live? then {service.sessions[id].session} else {}
    {
      var e := service.sessions[id];
      e.Live? && e.session.status == Running ==> BoundTo(e.session.listener) == id
    }

    /** Every registered session was started by this controller's `run`
        and is still alive. */
    predicate Valid()
      reads service, service.Sessions()
    {
      forall id :: id in service.sessions ==> service.sessions[id].Live? && EntryOk(id)
    }

    /** Every running session is what its socket is bound to, so the
        socket's next run or its disconnect reaches it.  The handlers keep
        it, but the exit callback as written can break it. */
    predicate Bound()
      reads this`sessionsBySocket, service, service.Sessions()
    {
      forall id :: id in service.sessions ==> BindingOk(id)
    }

    /** `Bound`, except perhaps for the entry `x`. */
    predicate BoundBut(x: string)
      reads this`sessionsBySocket, service, service.Sessions()
    {
      forall id :: id in service.sessions && id != x ==> BindingOk(id)
    }

    /** `Valid`, except that the session `x` may have exited while still
        registered: the state between a process's exit and its `onExit`
        callback. */
    predicate ValidBut(x: Session)
      reads service, service.Sessions()
    {
      forall id :: id in service.sessions ==>
        && service.sessions[id].Live?
        && (service.sessions[id].session == x ==> x.sessionId == id)
        && (service.sessions[id].session != x ==> EntryOk(id))
    }

    constructor (service: Service)
      requires service.sessions == map[]
      ensures Valid() && Bound()
      ensures this.service == service && sessionsBySocket == map[] && emitted == []
    {
      this.service := service;
      sessionsBySocket := map[];
      emitted := [];
    }

    /** When every registry entry other than `id` is the same unchanged
        session as in `old`, those entries keep their standing, and keep
        their binding if the bindings are unchanged. */
    twostate lemma OthersKept(id: string)
      requires old(Valid())
      requires forall id' :: id' in service.sessions && id' != id ==>
        id' in old(service.sessions) && service.sessions[id'] == old(service.sessions[id'])
        && unchanged(service.sessions[id'].session)
      ensures forall id' :: id' in service.sessions && id' != id ==> service.sessions[id'].Live? && EntryOk(id')
      ensures sessionsBySocket == old(sessionsBySocket) && old(Bound()) ==> BoundBut(id)
    {
      forall id' | id' in service.sessions && id' != id
        ensures service.sessions[id'].Live? && EntryOk(id')
      {
        assert old(EntryOk(id'));
      }
      if sessionsBySocket == old(sessionsBySocket) && old(Bound()) {
        forall id' | id' in service.sessions && id' != id
          ensures BindingOk(id')
        {
          assert old(BindingOk(id'));
        }
      }
    }

    /** The first half of `handleRun`: the socket's previous session, if
        still registered, is killed, and its id leaves the registry. */
    method DropPrevious(socket: string) returns (prev: string, killed: Option<Session>)
      requires Valid()
      modifies service, service.Sessions()
      ensures Valid()
      ensures old(Bound()) ==> Bound()
      ensures prev == BoundTo(socket) && prev !in service.sessions
      ensures service.sessions == Unbound(old(service.sessions), prev)
      ensures killed.Some? <==> prev != "" && prev in old(service.sessions)
      ensures killed.Some? ==>
        var p := killed.value;
        && old(service.sessions[prev]) == Live(p)
        && Usable(p, service) && p.status == Killed && !p.exited
      ensures forall id :: id in service.sessions ==> unchanged(service.sessions[id].session)
    {
      prev := BoundTo(socket);
      killed := None;
      if prev != "" {
        var existing := service.GetSession(prev);
        if existing.Some? {
          var p := existing.value.session;
          assert EntryOk(prev);
          p.Kill();
          killed := Some(p);
        }
        service.RemoveSession(prev);
        OthersKept(prev);
      }
    }

    /** `run` called with `handleRun`'s callbacks for `socket`, which raise
        if `run` invokes them. */
    method CallRun(code: string, options: RunOptions, socket: string, id: string)
      returns (raised: Option<string>, started: Option<Session>)
      modifies service, service.fs
      ensures raised.Some? <==> started.None?
      ensures raised.Some? <==> TempPath(id) in service.fs.faults || !old(service.BinaryFound(id))
      ensures raised.Some? ==> raised.value == UninitialisedSession && service.sessions == old(service.sessions)
      ensures service.fs.files == if TempPath(id) in service.fs.faults then old(service.fs.files)
                                  else old(service.fs.files)[TempPath(id) := code]
      ensures started.Some? ==>
        var s := started.value;
        && fresh(s) && Usable(s, service) && s.sessionId == id && s.listener == socket
        && s.status == Running && s.exitCode == None && !s.exited
        && s.stdinWritten == [] && s.stdinOpen
        && service.sessions == old(service.sessions)[id := Live(s)]
    {
      var result := service.Run(code, options, socket, true, id);
      match result
      case Raised(error, _) =>
        raised, started := Some(error), None;
      case Started(entry, _) =>
        raised, started := None, Some(entry.session);
    }

    /** The second half of `handleRun` once `run` returned the new session
        `s`: the socket is bound to it, one status event reports its
        status and exit code, and batch input, when there is some, is
        forwarded unchanged. */
    method Start(s: Session, socket: string, id: string, options: RunOptions, stdinData: Option<string>)
      requires Usable(s, service) && s.sessionId == id && s.listener == socket && id != ""
      requires !s.exited && s.status == Running && s.exitCode == None
      requires s.stdinWritten == [] && s.stdinOpen
      requires id in service.sessions && service.sessions[id] == Live(s)
      requires forall id' :: id' in service.sessions && id' != id ==> service.sessions[id'].Live? && EntryOk(id')
      modifies this, s
      ensures Valid()
      ensures old(BoundBut(id)) && old(BoundTo(socket) == id || BoundTo(socket) !in service.sessions) ==> Bound()
      ensures sessionsBySocket == old(sessionsBySocket)[socket := id]
      ensures emitted == old(emitted) + [Emission(socket, StatusEvent(id, Running, None))]
      ensures s.status == Running
      ensures s.stdinWritten == if options.inputMode == Batch && stdinData.Some? then [stdinData.value] else []
    {
      sessionsBySocket := sessionsBySocket[socket := id];
      emitted := emitted + [Emission(socket, StatusEvent(id, s.status, s.exitCode))];
      if options.inputMode == Batch && stdinData.Some? {
        s.SendStdin(stdinData.value);
      }
      forall id' | id' in service.sessions
        ensures service.sessions[id'].Live? && EntryOk(id')
      {
        if id' != id {
          assert old(EntryOk(id'));
        }
      }
      if old(BoundBut(id)) && old(BoundTo(socket) == id || BoundTo(socket) !in service.sessions) {
        forall id' | id' in service.sessions
          ensures BindingOk(id')
        {
          if id' != id {
            assert old(BindingOk(id'));
          }
        }
      }
    }

    /** `handleRun` once the socket's previous session is out of the
        registry: `run` starts the new session, and unless a callback
        raised, `Start` binds and reports it. */
    method Launch(socket: string, code: string, options: RunOptions, stdinData: Option<string>, id: string)
      returns (raised: Option<string>, started: Option<Session>)
      requires Valid()
      requires id != "" && id !in service.sessions
      modifies this, service, service.fs
      ensures Valid()
      ensures old(Bound()) && old(BoundTo(socket) !in service.sessions) ==> Bound()
      ensures raised.Some? <==> TempPath(id) in service.fs.faults || !old(service.BinaryFound(id))
      ensures service.fs.files == if TempPath(id) in service.fs.faults then old(service.fs.files)
                                  else old(service.fs.files)[TempPath(id) := code]
      ensures raised.Some? ==>
        && raised == Some(UninitialisedSession) && started == None && service.sessions == old(service.sessions)
        && sessionsBySocket == old(sessionsBySocket) && emitted == old(emitted)
      ensures raised.None? ==>
        && started.Some?
        && var s := started.value;
        && fresh(s) && Usable(s, service) && !s.exited
        && s.sessionId == id && s.listener == socket && s.status == Running
        && service.sessions == old(service.sessions)[id := Live(s)]
        && sessionsBySocket == old(sessionsBySocket)[socket := id]
        && emitted == old(emitted) + [Emission(socket, StatusEvent(id, Running, None))]
        && s.stdinWritten == if options.inputMode == Batch && stdinData.Some? then [stdinData.value] else []
    {
      raised, started := CallRun(code, options, socket, id);
      OthersKept(id);
      if raised.None? {
        Start(started.value, socket, id, options, stdinData);
      }
    }

    /** `handleRun`: the socket's previous session, if still registered,
        is killed and dropped from the registry; then `run` starts the new
        one.  When `run` invokes a callback (a failed write or a missing
        binary) the callback raises and the request ends there, with the
        socket's binding untouched and nothing sent.  Otherwise the socket
        is bound to the new session, one status event reports it running,
        and a batch run with stdin data forwards the data unchanged. */
    method HandleRun(socket: string, code: string, options: RunOptions, stdinData: Option<string>, id: string)
      returns (raised: Option<string>, killed: Option<Session>, started: Option<Session>)
      requires Valid()
      requires id != "" && id !in service.sessions
      modifies this, service, service.fs, service.Sessions()
      ensures Valid()
      ensures old(Bound()) ==> Bound()
      ensures killed.Some? <==> old(BoundTo(socket)) != "" && old(BoundTo(socket)) in old(service.sessions)
      ensures killed.Some? ==>
        var p := killed.value;
        && old(service.sessions[BoundTo(socket)]) == Live(p)
        && Usable(p, service) && p.status == Killed && !p.exited
      ensures raised.Some? <==> TempPath(id) in service.fs.faults || !old(service.BinaryFound(id))
      ensures service.fs.files == if TempPath(id) in service.fs.faults then old(service.fs.files)
                                  else old(service.fs.files)[TempPath(id) := code]
      ensures raised.Some? ==>
        && raised == Some(UninitialisedSession) && started == None
        && service.sessions == Unbound(old(service.sessions), old(BoundTo(socket)))
        && sessionsBySocket == old(sessionsBySocket) && emitted == old(emitted)
      ensures raised.None? ==>
        && started.Some?
        && var s := started.value;
        && fresh(s) && Usable(s, service) && !s.exited
        && s.sessionId == id && s.listener == socket && s.status == Running
        && service.sessions == Unbound(old(service.sessions), old(BoundTo(socket)))[id := Live(s)]
        && sessionsBySocket == old(sessionsBySocket)[socket := id]
        && emitted == old(emitted) + [Emission(socket, StatusEvent(id, Running, None))]
        && s.stdinWritten == if options.inputMode == Batch && stdinData.Some? then [stdinData.value] else []
    {
      var prev;
      prev, killed := DropPrevious(socket);
      raised, started := Launch(socket, code, options, stdinData, id);
    }

    /** `handleStdinInput`: a registered running session receives the data
        with a trailing newline; otherwise nothing happens. */
    method HandleStdin(socket: string, sessionId: string, data: string)
      requires Valid()
      modifies service.Sessions()
      ensures Valid()
      ensures old(Bound()) ==> Bound()
      ensures sessionId in service.sessions && old(service.sessions[sessionId].session.status) == Running ==>
        var s := service.sessions[sessionId].session;
        s.stdinWritten == old(s.stdinWritten) + (if s.stdinOpen then [WithNewline(data)] else [])
      ensures sessionId in service.sessions && old(service.sessions[sessionId].session.status) != Running ==>
        unchanged(service.sessions[sessionId].session)
      ensures forall id :: id in service.sessions && id != sessionId ==> unchanged(service.sessions[id].session)
    {
      var entry := service.GetSession(sessionId);
      if entry.Some? && entry.value.session.status == Running {
        assert EntryOk(sessionId);
        ghost var bound := Bound();
        entry.value.session.SendStdin(WithNewline(data));
        OthersKept(sessionId);
        if bound {
          assert old(BindingOk(sessionId));
        }
      }
    }

    /** `handleKill`: a registered session is killed and the kill is
        acknowledged at once with `killed` and no exit code; an unknown id
        sends nothing. */
    method HandleKill(socket: string, sessionId: string)
      requires Valid()
      modifies this, service.Sessions()
      ensures Valid()
      ensures old(Bound()) ==> Bound()
      ensures sessionId in service.sessions ==>
        && service.sessions[sessionId].session.status == Killed
        && emitted == old(emitted) + [Emission(socket, StatusEvent(sessionId, Killed, None))]
      ensures sessionId !in service.sessions ==> emitted == old(emitted)
      ensures sessionsBySocket == old(sessionsBySocket)
      ensures forall id :: id in service.sessions && id != sessionId ==> unchanged(service.sessions[id].session)
    {
      var entry := service.GetSession(sessionId);
      if entry.Some? {
        assert EntryOk(sessionId);
        entry.value.session.Kill();
        emitted := emitted + [Emission(socket, StatusEvent(sessionId, Killed, None))];
        OthersKept(sessionId);
      }
    }

    /** `handleDisconnect`: the bound session, if still registered, is
        killed and dropped, and the binding goes; an unbound socket changes
        nothing. */
    method HandleDisconnect(socket: string) returns (killed: Option<Session>)
      requires Valid()
      modifies this, service, service.Sessions()
      ensures Valid()
      ensures old(Bound()) ==> Bound()
      ensures killed.Some? <==> old(BoundTo(socket)) != "" && old(BoundTo(socket)) in old(service.sessions)
      ensures killed.Some? ==>
        && old(service.sessions[BoundTo(socket)]) == Live(killed.value) && killed.value.status == Killed
      ensures service.sessions == Unbound(old(service.sessions), old(BoundTo(socket)))
      ensures sessionsBySocket == if old(BoundTo(socket)) != "" then old(sessionsBySocket) - {socket} else old(sessionsBySocket)
      ensures emitted == old(emitted)
      ensures forall id :: id in service.sessions ==> unchanged(service.sessions[id].session)
    {
      var prev := BoundTo(socket);
      killed := None;
      if prev != "" {
        var entry := service.GetSession(prev);
        if entry.Some? {
          var p := entry.value.session;
          assert EntryOk(prev);
          p.Kill();
          killed := Some(p);
          service.RemoveSession(prev);
        }
        sessionsBySocket := sessionsBySocket - {socket};
        forall id | id in service.sessions
          ensures service.sessions[id].Live? && EntryOk(id)
        {
          assert old(EntryOk(id));
        }
        if old(Bound()) {
          forall id | id in service.sessions
            ensures BindingOk(id)
          {
            assert old(BindingOk(id));
          }
        }
      }
    }

    /** The `onStdout`/`onStderr` callbacks: the output goes to the
        session's socket under its id. */
    method OnOutput(s: Session, data: string, toStderr: bool)
      modifies this
      ensures sessionsBySocket == old(sessionsBySocket)
      ensures emitted == old(emitted) + [Emission(s.listener,
                if toStderr then StderrEvent(s.sessionId, data) else StdoutEvent(s.sessionId, data))]
    {
      var event := if toStderr then StderrEvent(s.sessionId, data) else StdoutEvent(s.sessionId, data);
      emitted := emitted + [Emission(s.listener, event)];
    }

    /** The process of `s` exits: the session records the exit, and then
        its `onExit` callback runs. */
    method OnProcessExit(s: Session, code: Option<int>)
      requires Valid() && Usable(s, service) && !s.exited
      modifies this, service, s, service.fs
      ensures Valid()
      ensures old(Bound()) ==> Bound()
      ensures s.exited && s.exitCode == code
      ensures s.status == if old(s.status) == Killed then Killed else if code == Some(0) then Finished else Error
      ensures emitted == old(emitted) + [Emission(s.listener, StatusEvent(s.sessionId, s.status, code))]
      ensures service.sessions == old(service.sessions) - {s.sessionId}
      ensures sessionsBySocket == if old(BoundTo(s.listener)) == s.sessionId
                                  then old(sessionsBySocket) - {s.listener} else old(sessionsBySocket)
    {
      var _ := s.Exit(code);
      ExitedBut(s);
      OnExit(s, code);
    }

    /** The process exit with the `onExit` callback as written. */
    method OnProcessExitAsWritten(s: Session, code: Option<int>)
      requires Valid() && Usable(s, service) && !s.exited
      modifies this, service, s, service.fs
      ensures Valid()
      ensures s.exited && s.exitCode == code
      ensures s.status == if old(s.status) == Killed then Killed else if code == Some(0) then Finished else Error
      ensures emitted == old(emitted) + [Emission(s.listener, StatusEvent(s.sessionId, s.status, code))]
      ensures service.sessions == old(service.sessions) - {s.sessionId}
      ensures sessionsBySocket == old(sessionsBySocket) - {s.listener}
      ensures forall id :: id in service.sessions ==> unchanged(service.sessions[id].session)
    {
      var _ := s.Exit(code);
      ExitedBut(s);
      OnExitAsWritten(s, code);
      forall id | id in service.sessions
        ensures service.sessions[id].Live? && EntryOk(id)
      {
        assert old(service.sessions[id]) == service.sessions[id];
      }
    }

    /** Once the process of `s` alone has exited, the state is `ValidBut(s)`,
        and the bindings still hold if they held before. */
    twostate lemma ExitedBut(s: Session)
      requires old(Valid()) && unchanged(this, service)
      requires forall id :: id in service.sessions && service.sessions[id].session != s ==>
        unchanged(service.sessions[id].session)
      requires s.status != Running
      ensures ValidBut(s)
      ensures old(Bound()) ==> Bound()
    {
      forall id | id in service.sessions
        ensures service.sessions[id].session != s ==> EntryOk(id)
        ensures service.sessions[id].session == s ==> s.sessionId == id
      {
        assert old(EntryOk(id));
      }
      if old(Bound()) {
        forall id | id in service.sessions
          ensures BindingOk(id)
        {
          assert old(BindingOk(id));
        }
      }
    }

    /** The `onExit` callback, with the socket's binding deleted only when
        it still names this session: the final status goes to the
        session's socket and the session leaves the registry. */
    method OnExit(s: Session, code: Option<int>)
      requires ValidBut(s)
      modifies this, service
      ensures Valid()
      ensures old(Bound()) ==> Bound()
      ensures emitted == old(emitted) + [Emission(s.listener, StatusEvent(s.sessionId, s.status, code))]
      ensures service.sessions == old(service.sessions) - {s.sessionId}
      ensures sessionsBySocket == if old(BoundTo(s.listener)) == s.sessionId
                                  then old(sessionsBySocket) - {s.listener} else old(sessionsBySocket)
    {
      var socket := s.listener;
      emitted := emitted + [Emission(socket, StatusEvent(s.sessionId, s.status, code))];
      service.RemoveSession(s.sessionId);
      if BoundTo(socket) == s.sessionId {
        sessionsBySocket := sessionsBySocket - {socket};
      }
      forall id | id in service.sessions
        ensures service.sessions[id].Live? && EntryOk(id)
      {
        assert old(service.sessions[id]) == service.sessions[id];
        assert old(EntryOk(id));
      }
      if old(Bound()) {
        forall id | id in service.sessions
          ensures BindingOk(id)
        {
          assert old(service.sessions[id]) == service.sessions[id];
          assert old(BindingOk(id));
        }
      }
    }

    /** The `onExit` callback as written: the socket's binding is deleted
        whatever session it names by now. */
    method OnExitAsWritten(s: Session, code: Option<int>)
      modifies this, service
      ensures emitted == old(emitted) + [Emission(s.listener, StatusEvent(s.sessionId, s.status, code))]
      ensures service.sessions == old(service.sessions) - {s.sessionId}
      ensures sessionsBySocket == old(sessionsBySocket) - {s.listener}
    {
      var socket := s.listener;
      emitted := emitted + [Emission(socket, StatusEvent(s.sessionId, s.status, code))];
      service.RemoveSession(s.sessionId);
      sessionsBySocket := sessionsBySocket - {socket};
    }

    /** The time limit of `s` expires: the notice, unless the process was
        already killed, goes to its socket, and the session is killed. */
    method OnProcessTimeout(s: Session)
      requires Valid() && Usable(s, service) && s.timerPending
      modifies this, s
      ensures Valid()
      ensures old(Bound()) ==> Bound()
      ensures sessionsBySocket == old(sessionsBySocket)
      ensures s.status == Killed && !s.timerPending && !s.exited
      ensures emitted == old(emitted) + (if old(s.processKilled) then []
                                          else [Emission(s.listener, StderrEvent(s.sessionId, TimeoutNotice(s.timeoutMs)))])
    {
      var fired := s.Timeout();
      if |fired| > 0 {
        OnOutput(s, fired[0].data, true);
      }
      forall id | id in service.sessions
        ensures service.sessions[id].Live? && EntryOk(id)
      {
        assert old(EntryOk(id));
      }
      if old(Bound()) {
        forall id | id in service.sessions
          ensures BindingOk(id)
        {
          assert old(BindingOk(id));
        }
      }
    }
  }

  /** Socket `k` runs twice on a fresh server: the first session has been
      killed by the second run but its process has not exited yet. */
  method RunTwice() returns (c: Controller, first: Session, second: Session)
    ensures fresh(c) && fresh(c.service) && fresh(c.service.fs) && fresh(first) && fresh(second)
    ensures c.Valid() && c.Bound() && Usable(first, c.service) && !first.exited
    ensures first.sessionId == "1" && first.listener == "k" && first.status == Killed
    ensures second.sessionId == "2" && second.listener == "k" && second.status == Running
    ensures c.service.sessions == map["2" := Live(second)]
    ensures c.sessionsBySocket == map["k" := "2"]
  {
    var options := RunOptions(Standard, false, false, Interactive);
    var fs := new FileSystem(map["/bin/nospace20" := ""], {}, map[]);
    var service := new Service("/bin/nospace20", 30000, fs);
    c := new Controller(service);
    var _, _, started := c.HandleRun("k", "", options, None, "1");
    first := started.value;
    assert c.service.sessions == map["1" := Live(first)];
    assert c.BoundTo("k") == "1";
    assert fs.Exists("/bin/nospace20");
    assert Unbound(map["1" := Live(first)], "1") == map[];
    assert map["k" := "1"]["k" := "2"] == map["k" := "2"];
    var _, killed, next := c.HandleRun("k", "", options, None, "2");
    assert killed.value == first;
    second := next.value;
  }

  /** A socket runs twice, and the first run's process exits after the
      second has started.  As written, that exit deletes the socket's
      binding to the second session, which stays registered and running
      with no socket bound to it; the socket's disconnect then finds
      nothing to kill, and the second session runs on. */
  method ReplacedSessionExit() returns (c: Controller, orphaned: Session)
    ensures c.Valid() && !c.Bound()
    ensures orphaned.status == Running && orphaned.sessionId in c.service.sessions
    ensures orphaned.listener == "k" && c.sessionsBySocket == map[]
  {
    var first;
    c, first, orphaned := RunTwice();
    c.OnProcessExitAsWritten(first, None);
    assert c.service.sessions == map["2" := Live(orphaned)];
    assert !c.BindingOk("2");
    var killed := c.HandleDisconnect("k");
    assert c.service.sessions == map["2" := Live(orphaned)];
    assert !c.BindingOk("2");
  }

  /** The same sequence with the corrected `onExit`: the socket stays bound
      to the second session, and its disconnect kills it. */
  method ReplacedSessionExitCorrected() returns (c: Controller, second: Session)
    ensures c.Valid() && c.Bound()
    ensures second.status == Killed && c.sessionsBySocket == map[] && c.service.sessions == map[]
  {
    var first;
    c, first, second := RunTwice();
    c.OnProcessExit(first, None);
    var _ := c.HandleDisconnect("k");
  }
}
