/** The vocabulary shared by the server and the browser: language subsets,
    compile targets, run and compile options, execution statuses, the
    events of the socket protocol and the entries of the output panel. */
module NospaceTypes {
  import opened Base

  /** The language subset, named on the interpreter's command line. */
  datatype Language = Standard | Min | Ws {
    function Name(): string {
      match this
      case Standard => "standard"
      case Min => "min"
      case Ws => "ws"
    }
  }

  /** Distinct subsets have distinct names, and no name is a flag. */
  lemma LanguageNames(a: Language, b: Language)
    ensures a.Name() == b.Name() <==> a == b
    ensures |a.Name()| >= 1 && a.Name()[0] != '-'
  {
  }

  datatype CompileTarget = TargetWs | Mnemonic | ExWs | TargetJson {
    function Name(): string {
      match this
      case TargetWs => "ws"
      case Mnemonic => "mnemonic"
      case ExWs => "ex-ws"
      case TargetJson => "json"
    }
  }

  datatype InputMode = Interactive | Batch

  datatype CompileOptions = CompileOptions(language: Language, target: CompileTarget)

  datatype RunOptions = RunOptions(language: Language, debug: bool, ignoreDebug: bool, inputMode: InputMode)

  datatype ExecutionStatus = Idle | Compiling | Running | Finished | Error | Killed {
    /** The statuses a run ends in. */
    predicate Terminal() {
      this == Finished || this == Error || this == Killed
    }
  }

  /** What the server sends to one client. */
  datatype ServerEvent =
    | StdoutEvent(sessionId: string, data: string)
    | StderrEvent(sessionId: string, data: string)
    | StatusEvent(sessionId: string, status: ExecutionStatus, exitCode: Option<int>)

  /** What a client asks of the server. */
  datatype ClientRequest =
    | RunRequest(code: string, options: RunOptions, stdinData: Option<string>)
    | StdinRequest(sessionId: string, data: string)
    | KillRequest(sessionId: string)

  datatype OutputKind = Stdout | Stderr | StdinEcho | System

  /** One entry of the output panel; the timestamp is not modelled. */
  datatype OutputEntry = OutputEntry(kind: OutputKind, data: string)

  /** What an execution backend reports through its two callbacks: a
      status change, or an entry for the output panel. */
  datatype BackendEvent =
    | StatusChanged(status: ExecutionStatus, sessionId: string, exitCode: Option<int>)
    | Emitted(entry: OutputEntry)

  function Out(kind: OutputKind, data: string): BackendEvent {
    Emitted(OutputEntry(kind, data))
  }

  /** The statuses reported in `events`, in order. */
  function Statuses(events: seq<BackendEvent>): (r: seq<ExecutionStatus>)
    ensures |r| <= |events|
  {
    if |events| == 0 then []
    else (if events[0].StatusChanged? then [events[0].status] else []) + Statuses(events[1..])
  }

  lemma {:induction false} StatusesAppend(a: seq<BackendEvent>, b: seq<BackendEvent>)
    ensures Statuses(a + b) == Statuses(a) + Statuses(b)
  {
    if |a| == 0 {
      assert a + b == b;
    } else {
      assert (a + b)[0] == a[0] && (a + b)[1..] == a[1..] + b;
      StatusesAppend(a[1..], b);
    }
  }
}
