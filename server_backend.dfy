/** The browser's backend for the server flavour: it forwards run, stdin
    and kill requests over the socket, and turns what the server sends
    back into entries for the output panel and status changes. */
module ServerBackend {
  import opened Base
  import opened Json
  import opened ErrorFormat
  import opened NospaceTypes

  const NotConnected := "Socket not connected"
  const CompileUnsupported := "Compile not supported in server flavor"

  /** The system message shown on a status change, when there is one:
      the start of a process names its session, a normal exit names its
      exit code (or `unknown` when the server sent none). */
  function SystemMessage(status: ExecutionStatus, sessionId: string, exitCode: Option<int>): (r: Option<string>)
    ensures r.Some? <==> status in {Running, Finished, Killed, Error}
    ensures r.Some? ==> |r.value| > 0
  {
    match status
    case Running => Some("[Process started: " + sessionId + "]\n")
    case Finished => Some("\n[Process exited with code: " + ExitCodeText(exitCode) + "]\n")
    case Killed => Some("\n[Process killed]\n")
    case Error => Some("\n[Process error]\n")
    case _ => None
  }

  /** `exitCode ?? 'unknown'` in a template: the code in decimal, or
      `unknown` when it is absent. */
  function ExitCodeText(exitCode: Option<int>): string {
    if exitCode.Some? then IntToString(exitCode.value) else "unknown"
  }

  /** A decimal integer starts with a minus sign exactly when it is
      negative, and otherwise with a digit. */
  lemma IntToStringHead(n: int)
    ensures var t := IntToString(n);
      && (n < 0 ==> t[0] == '-' && t[1..] == NatToString(-n))
      && (n >= 0 ==> '0' <= t[0] <= '9')
  {
    if n < 0 {
      assert IntToString(n) == "-" + NatToString(-n);
    }
  }

  /** What a system message reports. */
  datatype Notice = Started(sessionId: string) | Exited(exitCode: Option<int>) | KilledN | ErrorN

  function NoticeOf(status: ExecutionStatus, sessionId: string, exitCode: Option<int>): Notice
    requires status in {Running, Finished, Killed, Error}
  {
    match status
    case Running => Started(sessionId)
    case Finished => Exited(exitCode)
    case Killed => KilledN
    case Error => ErrorN
  }

  const StartedPrefix := "[Process started: "
  const ExitedPrefix := "\n[Process exited with code: "

  /** Reads an exit code back from its text. */
  function ReadExitCode(t: string): Option<int> {
    if |t| > 0 && t[0] == '-' && AllDigits(t[1..]) then Some(-(DigitsValue(t[1..]) as int))
    else if t == "unknown" then None
    else if AllDigits(t) then Some(DigitsValue(t))
    else None
  }

  lemma ExitCodeRoundTrip(c: Option<int>)
    ensures ReadExitCode(ExitCodeText(c)) == c
  {
    if c.Some? {
      if c.value < 0 {
        NegativeCodeRead(c.value);
      } else {
        NaturalCodeRead(c.value);
      }
    }
  }

  lemma NegativeCodeRead(n: int)
    requires n < 0
    ensures ReadExitCode(IntToString(n)) == Some(n)
  {
    var m: nat := -n;
    var t := IntToString(n);
    assert t == "-" + NatToString(m);
    ReadNegated(m);
    assert ReadExitCode(t) == Some(-(m as int));
  }

  /** A dash followed by the digits of `m` reads as `-m`. */
  lemma ReadNegated(m: nat)
    ensures ReadExitCode("-" + NatToString(m)) == Some(-(m as int))
  {
    var d := NatToString(m);
    DigitsHoldNoColon(m);
    NatToStringRoundTrip(m);
    ReadDashed("-" + d, d, m);
  }

  lemma ReadDashed(t: string, d: string, v: nat)
    requires t == "-" + d && AllDigits(d) && DigitsValue(d) == v
    ensures ReadExitCode(t) == Some(-(v as int))
  {
    assert t[1..] == d;
  }

  lemma NaturalCodeRead(n: nat)
    ensures ReadExitCode(IntToString(n)) == Some(n)
  {
    var t := IntToString(n);
    IntToStringHead(n);
    assert t[0] != "unknown"[0] && t[0] != '-';
    DigitsHoldNoColon(n);
    NatToStringRoundTrip(n);
  }

  /** Reads a system message back: which status it reports, with the
      session of a start and the exit code of a normal exit. */
  function ReadSystemMessage(m: string): Option<Notice> {
    if |m| >= |StartedPrefix| + 2 && m[..|StartedPrefix|] == StartedPrefix then
      Some(Started(m[|StartedPrefix|..|m| - 2]))
    else if |m| >= |ExitedPrefix| + 2 && m[..|ExitedPrefix|] == ExitedPrefix then
      Some(Exited(ReadExitCode(m[|ExitedPrefix|..|m| - 2])))
    else if m == "\n[Process killed]\n" then Some(KilledN)
    else if m == "\n[Process error]\n" then Some(ErrorN)
    else None
  }

  /** Every system message reads back as what it reports, so distinct
      notices are never shown as the same text. */
  lemma SystemMessageRoundTrip(status: ExecutionStatus, sessionId: string, exitCode: Option<int>)
    requires status in {Running, Finished, Killed, Error}
    ensures ReadSystemMessage(SystemMessage(status, sessionId, exitCode).value) == Some(NoticeOf(status, sessionId, exitCode))
  {
    var m := SystemMessage(status, sessionId, exitCode).value;
    match status
    case Running =>
      assert m == StartedPrefix + sessionId + "]\n";
      assert m[..|StartedPrefix|] == StartedPrefix;
      assert m[|StartedPrefix|..|m| - 2] == sessionId;
    case Finished =>
      var t := ExitCodeText(exitCode);
      assert m == ExitedPrefix + t + "]\n";
      assert m[0] != StartedPrefix[0];
      assert m[..|ExitedPrefix|] == ExitedPrefix;
      assert m[|ExitedPrefix|..|m| - 2] == t;
      ExitCodeRoundTrip(exitCode);
    case Killed =>
      assert m[0] != StartedPrefix[0] && m[11] != ExitedPrefix[11];
    case Error =>
      assert m[0] != StartedPrefix[0] && m[11] != ExitedPrefix[11];
  }

  /** Hence the system messages tell apart what they report: equal
      messages come from the same status, the same session of a start and
      the same exit code of a normal exit. */
  lemma SystemMessageInjective(s1: ExecutionStatus, id1: string, c1: Option<int>,
                               s2: ExecutionStatus, id2: string, c2: Option<int>)
    requires SystemMessage(s1, id1, c1).Some? && SystemMessage(s1, id1, c1) == SystemMessage(s2, id2, c2)
    ensures s1 == s2
    ensures s1 == Running ==> id1 == id2
    ensures s1 == Finished ==> c1 == c2
  {
    SystemMessageRoundTrip(s1, id1, c1);
    SystemMessageRoundTrip(s2, id2, c2);
  }

  /** What an stderr chunk shows: the formatted report when the chunk
      parses as the interpreter's error report, the chunk itself
      otherwise. */
  function StderrText(data: string, parse: string -> Option<Json>): (r: string)
    ensures parse(data).Some? && IsNospaceErrorResult(parse(data).value) ==>
      r == FormatErrorEntries(EntriesOf(parse(data).value))
    ensures !(parse(data).Some? && IsNospaceErrorResult(parse(data).value)) ==> r == data
  {
    TryFormatNospaceErrorJson(data, parse).GetOr(data)
  }

  /** The report the interpreter writes on stderr is shown formatted. */
  lemma StderrReportFormatted(data: string, parse: string -> Option<Json>, errors: seq<ErrorEntry>)
    requires parse(data) == Some(Encode(errors))
    ensures StderrText(data, parse) == FormatErrorEntries(errors)
  {
    EncodeRoundTrip(errors);
  }

  class ServerBackend {
    /** The session of the last status event; `None` before the first. */
    var currentSessionId: Option<string>
    /** Whether the socket client holds a socket (between `init` and `dispose`). */
    var socketOpen: bool
    /** The requests sent over the socket, in order. */
    var sent: seq<ClientRequest>
    /** Whether an output callback and a status callback are registered. */
    var outputRegistered: bool
    var statusRegistered: bool
    /** What reached the registered callbacks, in order. */
    var events: seq<BackendEvent>

    constructor ()
      ensures currentSessionId == None && !socketOpen && sent == [] && events == []
      ensures !outputRegistered && !statusRegistered
    {
      currentSessionId := None;
      socketOpen := false;
      sent := [];
      outputRegistered := false;
      statusRegistered := false;
      events := [];
    }

    /** `init`, when the connection succeeds. */
    method Init()
      modifies this`socketOpen
      ensures socketOpen
    {
      socketOpen := true;
    }

    method OnOutput()
      modifies this`outputRegistered
      ensures outputRegistered
    {
      outputRegistered := true;
    }

    method OnStatusChange()
      modifies this`statusRegistered
      ensures statusRegistered
    {
      statusRegistered := true;
    }

    /** Delivers an output entry to the output callback, if registered. */
    method Emit(kind: OutputKind, data: string)
      modifies this`events
      ensures events == old(events) + if outputRegistered then [Out(kind, data)] else []
    {
      if outputRegistered {
        events := events + [Out(kind, data)];
      }
    }

    /** The `nospace_stdout` handler. */
    method HandleStdout(sessionId: string, data: string)
      modifies this`events
      ensures events == old(events) + if outputRegistered then [Out(Stdout, data)] else []
    {
      Emit(Stdout, data);
    }

    /** The `nospace_stderr` handler; `parse` is `JSON.parse`, `None` where
        it throws. */
    method HandleStderr(sessionId: string, data: string, parse: string -> Option<Json>)
      modifies this`events
      ensures events == old(events) + if outputRegistered then [Out(Stderr, StderrText(data, parse))] else []
    {
      var formatted := TryFormatNospaceErrorJson(data, parse);
      Emit(Stderr, formatted.GetOr(data));
    }

    /** The `nospace_execution_status` handler: the session becomes the
        current one, then the status callback fires, then the system
        message, if the status has one, is shown. */
    method HandleExecutionStatus(sessionId: string, status: ExecutionStatus, exitCode: Option<int>)
      modifies this`currentSessionId, this`events
      ensures currentSessionId == Some(sessionId)
      ensures events == old(events)
        + (if statusRegistered then [StatusChanged(status, sessionId, exitCode)] else [])
        + (if outputRegistered && SystemMessage(status, sessionId, exitCode).Some?
           then [Out(System, SystemMessage(status, sessionId, exitCode).value)] else [])
    {
      currentSessionId := Some(sessionId);
      if statusRegistered {
        events := events + [StatusChanged(status, sessionId, exitCode)];
      }
      EmitSystemMessage(status, exitCode);
    }

    /** `emitSystemMessage`, naming the current session in a start notice. */
    method EmitSystemMessage(status: ExecutionStatus, exitCode: Option<int>)
      requires currentSessionId.Some?
      modifies this`events
      ensures var m := SystemMessage(status, currentSessionId.value, exitCode);
        events == old(events) + if outputRegistered && m.Some? then [Out(System, m.value)] else []
    {
      var message := SystemMessage(status, currentSessionId.value, exitCode);
      if message.Some? && |message.value| > 0 {
        Emit(System, message.value);
      }
    }

    /** Sends a request, or fails as `requireSocket` does when there is
        no socket. */
    method Send(request: ClientRequest) returns (error: Option<string>)
      modifies this`sent
      ensures socketOpen ==> error == None && sent == old(sent) + [request]
      ensures !socketOpen ==> error == Some(NotConnected) && sent == old(sent)
    {
      if !socketOpen {
        return Some(NotConnected);
      }
      sent := sent + [request];
      return None;
    }

    method Run(code: string, options: RunOptions, stdinData: Option<string>) returns (error: Option<string>)
      modifies this`sent
      ensures socketOpen ==> error == None && sent == old(sent) + [RunRequest(code, options, stdinData)]
      ensures !socketOpen ==> error == Some(NotConnected) && sent == old(sent)
    {
      error := Send(RunRequest(code, options, stdinData));
    }

    /** `compile` always throws in this flavour, and sends nothing. */
    method Compile(code: string, options: CompileOptions) returns (error: string)
      ensures error == CompileUnsupported
    {
      return CompileUnsupported;
    }

    /** Whether the current session id is truthy: present and not empty. */
    predicate HasSession()
      reads this`currentSessionId
    {
      currentSessionId.Some? && currentSessionId.value != ""
    }

    /** `sendStdin`: nothing happens until a status event has named a
        (non-empty) session; then the data goes to that session. */
    method SendStdin(data: string) returns (error: Option<string>)
      modifies this`sent
      ensures !HasSession() ==> error == None && sent == old(sent)
      ensures HasSession() && socketOpen ==>
        error == None && sent == old(sent) + [StdinRequest(currentSessionId.value, data)]
      ensures HasSession() && !socketOpen ==> error == Some(NotConnected) && sent == old(sent)
    {
      if !HasSession() {
        return None;
      }
      error := Send(StdinRequest(currentSessionId.value, data));
    }

    /** `kill`: gated on the current session as `sendStdin` is. */
    method Kill() returns (error: Option<string>)
      modifies this`sent
      ensures !HasSession() ==> error == None && sent == old(sent)
      ensures HasSession() && socketOpen ==>
        error == None && sent == old(sent) + [KillRequest(currentSessionId.value)]
      ensures HasSession() && !socketOpen ==> error == Some(NotConnected) && sent == old(sent)
    {
      if !HasSession() {
        return None;
      }
      error := Send(KillRequest(currentSessionId.value));
    }

    /** `dispose`: the socket is closed and dropped. */
    method Dispose()
      modifies this`socketOpen
      ensures !socketOpen
    {
      socketOpen := false;
    }
  }

  /** After a status event naming session `id`, a kill goes to `id`; before
      any status event, a kill sends nothing. */
  method KillFollowsStatus(id: string) returns (before: seq<ClientRequest>, after: seq<ClientRequest>)
    requires id != ""
    ensures before == [] && after == [KillRequest(id)]
  {
    var b := new ServerBackend();
    b.Init();
    var e := b.Kill();
    before := b.sent;
    b.HandleExecutionStatus(id, Running, None);
    e := b.Kill();
    after := b.sent;
  }
}
