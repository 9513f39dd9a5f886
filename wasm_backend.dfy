/** The in-browser backend: it runs the interpreter compiled to
    WebAssembly in a cooperative loop, a bounded number of instructions
    per step, and yields to the page between steps.

    The VM is an oracle.  A `VmScript` says whether building the VM
    throws, and what its `n`-th `step` call yields: a step status, the
    output flushed after it and the total number of instructions run so
    far, or a thrown value.  A kill arrives only while the loop yields;
    `abortAt == Some(n)` says that it arrives in the yield after the
    `n`-th step. */
module WasmBackend {
  import opened Base
  import opened Json
  import opened ErrorFormat
  import opened NospaceTypes

  const STEP_BUDGET: nat := 10000
  const MAX_TOTAL_STEPS: nat := 100000000

  /** What the VM can throw: an `Error`, a string, or any other value. */
  datatype Thrown = ErrorInstance(message: string) | ThrownString(s: string) | ThrownValue(v: Json)

  /** The message shown for a thrown value: an `Error`'s message, a string
      itself, anything else serialised, so that it never shows as the
      `[object Object]` placeholder. */
  function ThrownMessage(e: Thrown): (r: string)
    ensures e.ErrorInstance? ==> r == e.message
    ensures e.ThrownString? ==> r == e.s
    ensures e.ThrownValue? ==> r == Stringify(e.v) && r != "[object Object]"
  {
    match e
    case ErrorInstance(message) => message
    case ThrownString(s) => s
    case ThrownValue(v) => StringifyIsNotPlaceholder(v); Stringify(v)
  }

  /** The two ways of building a VM: from Whitespace source, or compiling
      the source first. */
  datatype VmKind = FromWhitespace | FromSource

  function ConstructorFor(language: Language): VmKind {
    if language == Ws then FromWhitespace else FromSource
  }

  datatype StepStatus = Suspended | Complete(traced: Option<seq<Member>>) | Failed(error: Option<string>)

  datatype Outcome =
    | Stepped(status: StepStatus, stdout: string, totalSteps: nat)
    | StepThrew(thrown: Thrown)

  datatype VmScript = VmScript(buildError: Option<Thrown>, outcome: nat -> Outcome)

  /** Every step that suspends has run at least one instruction more than
      the one before, so the instruction count reaches the ceiling unless
      the run ends first. */
  ghost predicate Progressing(outcome: nat -> Outcome) {
    forall i: nat :: outcome(i).Stepped? && outcome(i).status.Suspended? ==> outcome(i).totalSteps > i
  }

  const StartedNotice := "[WASM execution started]\n"
  const ErrorNotice := "\n[WASM execution error]\n"
  const KilledNotice := "\n[WASM execution killed]\n"
  /** The notice at the ceiling, which it names in decimal. */
  const LimitNotice := "Execution limit reached (100000000 steps)\n"

  function CompletedNotice(total: nat): string {
    "\n[WASM execution completed (" + NatToString(total) + " steps)]\n"
  }

  /** The `catch` block: the message on stderr, then status `error`. */
  function Caught(e: Thrown, id: string): seq<BackendEvent> {
    [Out(Stderr, ThrownMessage(e) + "\n"), StatusChanged(Error, id, None)]
  }

  function Flushed(stdout: string): seq<BackendEvent> {
    if |stdout| > 0 then [Out(Stdout, stdout)] else []
  }

  /** The trace of a debug run, when the VM recorded anything. */
  function TraceEvents(debug: bool, traced: Option<seq<Member>>): seq<BackendEvent> {
    if debug && traced.Some? && |traced.value| > 0
    then [Out(Stderr, "[Trace] " + Stringify(JObject(traced.value)) + "\n")]
    else []
  }

  function KilledTail(id: string): seq<BackendEvent> {
    [StatusChanged(Killed, id, None), Out(System, KilledNotice)]
  }

  /** How a run ends. */
  datatype Ending = Completed | VmFailed | LimitReached | Aborted | Threw

  function TerminalStatus(e: Ending): (st: ExecutionStatus)
    ensures st.Terminal()
    ensures st == Finished <==> e == Completed
    ensures st == Killed <==> e == LimitReached || e == Aborted
  {
    match e
    case Completed => Finished
    case LimitReached => Killed
    case Aborted => Killed
    case VmFailed => Error
    case Threw => Error
  }

  /** The loop goes on after a step that suspended below the ceiling. */
  predicate Continues(o: Outcome) {
    o.Stepped? && o.status.Suspended? && o.totalSteps < MAX_TOTAL_STEPS
  }

  /** How a step that does not continue ends the run. */
  function StepEnding(o: Outcome): Ending
    requires !Continues(o)
  {
    match o
    case StepThrew(_) => Threw
    case Stepped(status, _, _) =>
      match status
      case Complete(_) => Completed
      case Failed(_) => VmFailed
      case Suspended => LimitReached
  }

  /** What one pass of the loop body reports for a step: the flushed
      output, then, when the step ends the run, its closing events. */
  function StepReport(o: Outcome, debug: bool, id: string): seq<BackendEvent> {
    match o
    case StepThrew(e) => Caught(e, id)
    case Stepped(status, stdout, total) => Flushed(stdout) + Closing(status, total, debug, id)
  }

  /** The events that close a run after a step that did not throw. */
  function Closing(status: StepStatus, total: nat, debug: bool, id: string): seq<BackendEvent> {
    match status
    case Complete(traced) =>
      TraceEvents(debug, traced) + [StatusChanged(Finished, id, Some(0)), Out(System, CompletedNotice(total))]
    case Failed(error) =>
      [Out(Stderr, error.GetOr("Unknown error")), StatusChanged(Error, id, None), Out(System, ErrorNotice)]
    case Suspended =>
      if total >= MAX_TOTAL_STEPS then [Out(Stderr, LimitNotice), StatusChanged(Killed, id, None)] else []
  }

  /** A step reports a status exactly when it ends the run, and then the
      terminal status of that ending. */
  lemma StepReportStatuses(o: Outcome, debug: bool, id: string)
    ensures Statuses(StepReport(o, debug, id)) == if Continues(o) then [] else [TerminalStatus(StepEnding(o))]
  {
    match o
    case StepThrew(e) =>
      OneStatus(Out(Stderr, ThrownMessage(e) + "\n"), StatusChanged(Error, id, None), []);
    case Stepped(status, stdout, total) =>
      assert Statuses(Flushed(stdout)) == [];
      StatusesAppend(Flushed(stdout), Closing(status, total, debug, id));
      ClosingStatuses(status, total, debug, id);
  }

  lemma ClosingStatuses(status: StepStatus, total: nat, debug: bool, id: string)
    ensures Statuses(Closing(status, total, debug, id)) ==
            match status
            case Complete(_) => [Finished]
            case Failed(_) => [Error]
            case Suspended => if total >= MAX_TOTAL_STEPS then [Killed] else []
  {
    match status
    case Complete(traced) =>
      assert Statuses(TraceEvents(debug, traced)) == [];
      var closing := [StatusChanged(Finished, id, Some(0)), Out(System, CompletedNotice(total))];
      OneStatus(Out(Stderr, ""), closing[0], [closing[1]]);
      StatusesAppend(TraceEvents(debug, traced), closing);
    case Failed(error) =>
      OneStatus(Out(Stderr, error.GetOr("Unknown error")), StatusChanged(Error, id, None), [Out(System, ErrorNotice)]);
    case Suspended =>
      if total >= MAX_TOTAL_STEPS {
        OneStatus(Out(Stderr, LimitNotice), StatusChanged(Killed, id, None), []);
      }
  }

  /** The statuses of an output entry, a status change and more output. */
  lemma OneStatus(x: BackendEvent, y: BackendEvent, rest: seq<BackendEvent>)
    requires x.Emitted? && y.StatusChanged? && forall k :: 0 <= k < |rest| ==> rest[k].Emitted?
    ensures Statuses([x, y] + rest) == [y.status] && Statuses([y] + rest) == [y.status]
  {
    var t := [y] + rest;
    assert t[1..] == rest;
    NoStatuses(rest);
    assert Statuses(t) == [y.status];
    SkipEmitted(x, t);
    assert [x, y] + rest == [x] + t;
  }

  /** Output in front of events adds no status. */
  lemma SkipEmitted(x: BackendEvent, t: seq<BackendEvent>)
    requires x.Emitted?
    ensures Statuses([x] + t) == Statuses(t)
  {
    assert ([x] + t)[1..] == t;
  }

  lemma {:induction false} NoStatuses(rest: seq<BackendEvent>)
    requires forall k :: 0 <= k < |rest| ==> rest[k].Emitted?
    ensures Statuses(rest) == []
  {
    if |rest| > 0 {
      NoStatuses(rest[1..]);
    }
  }

  /** The ending of a run whose loop reaches step `i`. */
  function EndingAt(s: VmScript, abortAt: Option<nat>, i: nat): Ending
    requires Progressing(s.outcome) && i < MAX_TOTAL_STEPS
    decreases MAX_TOTAL_STEPS - i
  {
    var o := s.outcome(i);
    if !Continues(o) then StepEnding(o)
    else if abortAt == Some(i) then Aborted
    else EndingAt(s, abortAt, i + 1)
  }

  function RunEnding(s: VmScript, abortAt: Option<nat>): Ending
    requires Progressing(s.outcome)
  {
    if s.buildError.Some? then Threw else EndingAt(s, abortAt, 0)
  }

  /** What the loop reports from step `i` on: each step's report, and
      after a step that continues, the kill notice when a kill arrives in
      the yield that follows it. */
  function LoopEvents(s: VmScript, debug: bool, id: string, abortAt: Option<nat>, i: nat): seq<BackendEvent>
    requires Progressing(s.outcome) && i < MAX_TOTAL_STEPS
    decreases MAX_TOTAL_STEPS - i
  {
    var o := s.outcome(i);
    StepReport(o, debug, id) +
      if !Continues(o) then []
      else if abortAt == Some(i) then KilledTail(id)
      else LoopEvents(s, debug, id, abortAt, i + 1)
  }

  /** Everything one run reports. */
  function RunEvents(s: VmScript, debug: bool, id: string, abortAt: Option<nat>): seq<BackendEvent>
    requires Progressing(s.outcome)
  {
    match s.buildError
    case Some(e) => Caught(e, id)
    case None => [StatusChanged(Running, id, None), Out(System, StartedNotice)] + LoopEvents(s, debug, id, abortAt, 0)
  }

  lemma {:induction false} LoopStatuses(s: VmScript, debug: bool, id: string, abortAt: Option<nat>, i: nat)
    requires Progressing(s.outcome) && i < MAX_TOTAL_STEPS
    ensures Statuses(LoopEvents(s, debug, id, abortAt, i)) == [TerminalStatus(EndingAt(s, abortAt, i))]
    decreases MAX_TOTAL_STEPS - i
  {
    var o := s.outcome(i);
    if !Continues(o) {
      LastStepStatuses(s, debug, id, abortAt, i);
    } else if abortAt == Some(i) {
      AbortedStepStatuses(s, debug, id, abortAt, i);
    } else {
      var report := StepReport(o, debug, id);
      StepReportStatuses(o, debug, id);
      LoopStatuses(s, debug, id, abortAt, i + 1);
      StatusesAppend(report, LoopEvents(s, debug, id, abortAt, i + 1));
    }
  }

  /** The step that ends the loop reports the terminal status. */
  lemma LastStepStatuses(s: VmScript, debug: bool, id: string, abortAt: Option<nat>, i: nat)
    requires Progressing(s.outcome) && i < MAX_TOTAL_STEPS && !Continues(s.outcome(i))
    ensures Statuses(LoopEvents(s, debug, id, abortAt, i)) == [TerminalStatus(EndingAt(s, abortAt, i))]
  {
    var o := s.outcome(i);
    var report := StepReport(o, debug, id);
    StepReportStatuses(o, debug, id);
    assert LoopEvents(s, debug, id, abortAt, i) == report + [];
    StatusesAppend(report, []);
  }

  /** A step followed by a kill reports no status of its own, then
      `killed`. */
  lemma AbortedStepStatuses(s: VmScript, debug: bool, id: string, abortAt: Option<nat>, i: nat)
    requires Progressing(s.outcome) && i < MAX_TOTAL_STEPS && Continues(s.outcome(i)) && abortAt == Some(i)
    ensures Statuses(LoopEvents(s, debug, id, abortAt, i)) == [Killed]
  {
    var o := s.outcome(i);
    var report := StepReport(o, debug, id);
    StepReportStatuses(o, debug, id);
    OneStatus(Out(System, ""), StatusChanged(Killed, id, None), [Out(System, KilledNotice)]);
    StatusesAppend(report, KilledTail(id));
  }

  /** A run reports exactly one terminal status, last: after `running`
      when the VM was built, alone when building it threw; and that
      status is the one its ending decides. */
  lemma RunStatuses(s: VmScript, debug: bool, id: string, abortAt: Option<nat>)
    requires Progressing(s.outcome)
    ensures Statuses(RunEvents(s, debug, id, abortAt)) ==
            if s.buildError.Some? then [Error] else [Running, TerminalStatus(RunEnding(s, abortAt))]
  {
    if s.buildError.None? {
      var head := [StatusChanged(Running, id, None), Out(System, StartedNotice)];
      StatusesAppend(head, LoopEvents(s, debug, id, abortAt, 0));
      LoopStatuses(s, debug, id, abortAt, 0);
    }
  }

  /** A VM that only ever suspends, in a run nobody kills, is stopped by
      the step ceiling. */
  lemma {:induction false} CeilingStopsRun(s: VmScript, abortAt: Option<nat>, i: nat)
    requires Progressing(s.outcome) && i < MAX_TOTAL_STEPS
    requires abortAt == None
    requires forall j: nat :: s.outcome(j).Stepped? && s.outcome(j).status.Suspended?
    ensures EndingAt(s, abortAt, i) == LimitReached
    decreases MAX_TOTAL_STEPS - i
  {
    if s.outcome(i).totalSteps < MAX_TOTAL_STEPS {
      CeilingStopsRun(s, abortAt, i + 1);
    }
  }

  /** The outcome of `compile`. */
  datatype CompileOutcome = Compiled(output: string) | Rejected(errors: seq<ErrorEntry>) | CompileThrew(thrown: Thrown)

  /** What `compile` reports: `compiling`, then either the output on
      stdout and `finished` with exit code 0, or a message on stderr and
      `error`. */
  function CompileEvents(outcome: CompileOutcome, id: string): (r: seq<BackendEvent>)
    ensures |r| == 3 && r[0] == StatusChanged(Compiling, id, None)
    ensures r[1].Emitted? && r[2].StatusChanged? && r[2].sessionId == id
    ensures r[2].status == Finished <==> outcome.Compiled?
    ensures r[2].status == Finished ==> r[1].entry == OutputEntry(Stdout, outcome.output + "\n") && r[2].exitCode == Some(0)
    ensures r[2].status != Finished ==> r[2].status == Error && r[1].entry.kind == Stderr && r[2].exitCode == None
    ensures outcome.Rejected? ==> r[1].entry == OutputEntry(Stderr, FormatErrorEntries(outcome.errors) + "\n")
    ensures outcome.CompileThrew? ==> r[1].entry == OutputEntry(Stderr, ThrownMessage(outcome.thrown) + "\n")
    ensures EndsWith(r[1].entry.data, "\n")
  {
    var report := match outcome
      case Compiled(output) => [Out(Stdout, output + "\n"), StatusChanged(Finished, id, Some(0))]
      case Rejected(errors) => [Out(Stderr, FormatErrorEntries(errors) + "\n"), StatusChanged(Error, id, None)]
      case CompileThrew(e) => Caught(e, id);
    [StatusChanged(Compiling, id, None)] + report
  }

  /** A rejected compilation whose entries each render on one line shows
      one line per entry, in order, each ended by a newline. */
  lemma CompileErrorLines(errors: seq<ErrorEntry>, id: string)
    requires |errors| >= 1
    requires forall i :: 0 <= i < |errors| ==> '\n' !in FormatEntry(errors[i])
    ensures Split(CompileEvents(Rejected(errors), id)[1].entry.data, '\n') == FormattedEntries(errors) + [""]
  {
    var parts := FormattedEntries(errors);
    JoinAppend(parts, "\n", "");
    assert FormatErrorEntries(errors) + "\n" == Join(parts + [""], "\n");
    SplitJoin(parts + [""], '\n');
  }

  /** Appending is associative; stated once so that the proofs below need
      not rediscover it among the event sequences. */
  /** One pass of the loop, seen from the events already emitted: a step
      that ends the run adds only its report, and a step that continues
      adds its report and then the kill notice or the rest of the loop. */
  lemma LoopStep(s: VmScript, debug: bool, id: string, abortAt: Option<nat>, i: nat, before: seq<BackendEvent>)
    requires Progressing(s.outcome) && i < MAX_TOTAL_STEPS
    ensures var report := StepReport(s.outcome(i), debug, id);
      && (!Continues(s.outcome(i)) ==>
            before + LoopEvents(s, debug, id, abortAt, i) == before + report
            && EndingAt(s, abortAt, i) != Aborted)
      && (Continues(s.outcome(i)) && abortAt == Some(i) ==>
            before + LoopEvents(s, debug, id, abortAt, i) == (before + report) + KilledTail(id)
            && EndingAt(s, abortAt, i) == Aborted)
      && (Continues(s.outcome(i)) && abortAt != Some(i) ==>
            i + 1 < MAX_TOTAL_STEPS
            && before + LoopEvents(s, debug, id, abortAt, i) == (before + report) + LoopEvents(s, debug, id, abortAt, i + 1)
            && EndingAt(s, abortAt, i) == EndingAt(s, abortAt, i + 1))
  {
    var o := s.outcome(i);
    var report := StepReport(o, debug, id);
    if !Continues(o) {
      assert LoopEvents(s, debug, id, abortAt, i) == report + [];
    } else if abortAt == Some(i) {
      AppendAssoc(before, report, KilledTail(id));
    } else {
      AppendAssoc(before, report, LoopEvents(s, debug, id, abortAt, i + 1));
    }
  }

  lemma AppendAssoc<T>(a: seq<T>, b: seq<T>, c: seq<T>)
    ensures (a + b) + c == a + (b + c)
  {
  }

  class Backend {
    /** The live VM, as its index in `built`. */
    var vm: Option<nat>
    /** Every VM built: how, from which code, with which input. */
    var built: seq<(VmKind, string, string)>
    /** How many VMs have been freed. */
    var freed: nat
    /** The token of the current abort controller, if any. */
    var abortController: Option<nat>
    /** The tokens whose signal has been aborted. */
    var aborted: set<nat>
    /** How many abort controllers have been created. */
    var tokens: nat
    var events: seq<BackendEvent>

    /** Between calls no VM is live and every VM built has been freed,
        and at most one abort token is live: the current controller's. */
    predicate Valid()
      reads this
    {
      && vm == None && freed == |built|
      && (forall t :: t in aborted ==> t < tokens)
      && (abortController.Some? ==> abortController.value < tokens && abortController.value !in aborted)
      && (forall t :: 0 <= t < tokens && t !in aborted ==> abortController == Some(t))
    }

    constructor ()
      ensures Valid()
      ensures built == [] && events == [] && tokens == 0 && abortController == None
    {
      vm := None;
      built := [];
      freed := 0;
      abortController := None;
      aborted := {};
      tokens := 0;
      events := [];
    }

    /** `kill`: the current controller, if any, aborts and is dropped. */
    method Kill()
      modifies this
      ensures abortController == None
      ensures aborted == old(aborted) + (if old(abortController).Some? then {old(abortController).value} else {})
      ensures vm == old(vm) && built == old(built) && freed == old(freed)
      ensures tokens == old(tokens) && events == old(events)
      ensures old(Valid()) ==> Valid()
    {
      if abortController.Some? {
        aborted := aborted + {abortController.value};
      }
      abortController := None;
    }

    /** `dispose`: a kill, and the live VM, if any, is freed. */
    method Dispose()
      requires Valid()
      modifies this
      ensures Valid() && abortController == None
      ensures forall t :: 0 <= t < tokens ==> t in aborted
      ensures built == old(built) && events == old(events) && tokens == old(tokens)
    {
      Kill();
      // no VM is live between calls, so there is nothing to free
      vm := None;
    }

    /** `sendStdin`: the in-browser backend takes no interactive input. */
    method SendStdin(data: string)
      ensures events == old(events)
    {
    }

    /** `run`: any execution in progress is aborted first, then the loop
        starts under a fresh abort token. */
    method Run(code: string, options: RunOptions, stdinData: Option<string>, sessionId: string,
               scripts: VmKind -> VmScript, abortAt: Option<nat>)
      requires Valid() && Progressing(scripts(ConstructorFor(options.language)).outcome)
      modifies this
      ensures Valid()
      ensures var s := scripts(ConstructorFor(options.language));
        && events == old(events) + RunEvents(s, options.debug, sessionId, abortAt)
        && built == old(built) + (if s.buildError.None?
                                  then [(ConstructorFor(options.language), code, stdinData.GetOr(""))] else [])
        && abortController == if RunEnding(s, abortAt) == Aborted then None else Some(old(tokens))
      ensures tokens == old(tokens) + 1
      ensures forall t :: 0 <= t < old(tokens) ==> t in aborted
    {
      Kill();
      assert forall t :: 0 <= t < tokens ==> t in aborted;
      ghost var earlier := aborted;
      var token := tokens;
      tokens := tokens + 1;
      abortController := Some(token);
      var kind := ConstructorFor(options.language);
      RunAsync(code, options.debug, stdinData.GetOr(""), sessionId, token, kind, scripts(kind), abortAt);
      assert forall t :: 0 <= t < token ==> t in aborted;
      if RunEnding(scripts(kind), abortAt) == Aborted {
        assert aborted == earlier + {token} && abortController == None;
      } else {
        assert aborted == earlier && abortController == Some(token);
      }
      assert forall t :: 0 <= t < tokens && t !in aborted ==> t == token;
    }

    /** `runAsync` on the VM the `kind` constructor yields: build it, then
        step it until it completes, fails, reaches the step ceiling or is
        aborted; a thrown value is caught and reported; the VM is freed
        whichever way the run ends. */
    method RunAsync(code: string, debug: bool, stdinData: string, sessionId: string, token: nat,
                    kind: VmKind, script: VmScript, abortAt: Option<nat>)
      requires vm == None && freed == |built|
      requires abortController == Some(token) && token !in aborted
      requires Progressing(script.outcome)
      modifies this
      ensures vm == None && freed == |built| && tokens == old(tokens)
      ensures events == old(events) + RunEvents(script, debug, sessionId, abortAt)
      ensures built == old(built) + if script.buildError.None? then [(kind, code, stdinData)] else []
      ensures RunEnding(script, abortAt) == Aborted ==> abortController == None && aborted == old(aborted) + {token}
      ensures RunEnding(script, abortAt) != Aborted ==> abortController == old(abortController) && aborted == old(aborted)
    {
      if script.buildError.Some? {
        events := events + Caught(script.buildError.value, sessionId);
        return;
      }
      built := built + [(kind, code, stdinData)];
      vm := Some(|built| - 1);
      events := events + [StatusChanged(Running, sessionId, None), Out(System, StartedNotice)];
      Drive(script, debug, sessionId, token, abortAt);
      AppendAssoc(old(events), [StatusChanged(Running, sessionId, None), Out(System, StartedNotice)], LoopEvents(script, debug, sessionId, abortAt, 0));
      // the `finally` block
      freed := freed + 1;
      vm := None;
    }

    /** The step loop of `runAsync` and the abort check after it. */
    method Drive(script: VmScript, debug: bool, sessionId: string, token: nat, abortAt: Option<nat>)
      requires Progressing(script.outcome)
      requires abortController == Some(token) && token !in aborted
      modifies this
      ensures events == old(events) + LoopEvents(script, debug, sessionId, abortAt, 0)
      ensures vm == old(vm) && built == old(built) && freed == old(freed) && tokens == old(tokens)
      ensures if EndingAt(script, abortAt, 0) == Aborted
              then abortController == None && aborted == old(aborted) + {token}
              else abortController == old(abortController) && aborted == old(aborted)
    {
      ghost var target := old(events) + LoopEvents(script, debug, sessionId, abortAt, 0);
      ghost var ending := EndingAt(script, abortAt, 0);
      var i: nat := 0;
      var caught := false;
      while token !in aborted
        invariant i < MAX_TOTAL_STEPS
        invariant vm == old(vm) && built == old(built) && freed == old(freed) && tokens == old(tokens)
        invariant token !in aborted ==>
          && events + LoopEvents(script, debug, sessionId, abortAt, i) == target
          && EndingAt(script, abortAt, i) == ending
          && abortController == Some(token) && aborted == old(aborted)
        invariant token in aborted ==>
          && events + KilledTail(sessionId) == target && ending == Aborted
          && abortController == None && aborted == old(aborted) + {token}
        decreases MAX_TOTAL_STEPS - i
      {
        var outcome := script.outcome(i);
        ghost var before := events;
        LoopStep(script, debug, sessionId, abortAt, i, before);
        var more := ReportStep(outcome, debug, sessionId);
        if !more {
          caught := outcome.StepThrew?;
          break;
        }
        // the yield to the page, during which a kill may arrive
        if abortAt == Some(i) {
          Kill();
        }
        i := i + 1;
      }
      if !caught && token in aborted {
        events := events + KilledTail(sessionId);
      }
    }

    /** One pass of the loop body up to the yield: the flushed output,
        then the events of an ending step; `more` when the loop goes on. */
    method ReportStep(outcome: Outcome, debug: bool, sessionId: string) returns (more: bool)
      modifies this
      ensures more == Continues(outcome)
      ensures events == old(events) + StepReport(outcome, debug, sessionId)
      ensures vm == old(vm) && built == old(built) && freed == old(freed)
      ensures abortController == old(abortController) && aborted == old(aborted) && tokens == old(tokens)
    {
      if outcome.StepThrew? {
        events := events + Caught(outcome.thrown, sessionId);
        return false;
      }
      if |outcome.stdout| > 0 {
        events := events + [Out(Stdout, outcome.stdout)];
      }
      if outcome.status.Complete? {
        if debug {
          var traced := outcome.status.traced;
          if traced.Some? && |traced.value| > 0 {
            events := events + [Out(Stderr, "[Trace] " + Stringify(JObject(traced.value)) + "\n")];
          }
        }
        events := events + [StatusChanged(Finished, sessionId, Some(0)), Out(System, CompletedNotice(outcome.totalSteps))];
        return false;
      }
      if outcome.status.Failed? {
        events := events + [Out(Stderr, outcome.status.error.GetOr("Unknown error")),
                            StatusChanged(Error, sessionId, None), Out(System, ErrorNotice)];
        return false;
      }
      if outcome.totalSteps >= MAX_TOTAL_STEPS {
        events := events + [Out(Stderr, LimitNotice), StatusChanged(Killed, sessionId, None)];
        return false;
      }
      return true;
    }

    /** `compile`: the compiler is an oracle from the code, the target's
        name and the language's name to its outcome. */
    method Compile(code: string, options: CompileOptions, sessionId: string,
                   compiler: (string, string, string) -> CompileOutcome)
      modifies this
      ensures events == old(events) + CompileEvents(compiler(code, options.target.Name(), options.language.Name()), sessionId)
      ensures vm == old(vm) && built == old(built) && freed == old(freed)
      ensures abortController == old(abortController) && aborted == old(aborted) && tokens == old(tokens)
    {
      events := events + [StatusChanged(Compiling, sessionId, None)];
      var outcome := compiler(code, options.target.Name(), options.language.Name());
      match outcome
      case Compiled(output) =>
        events := events + [Out(Stdout, output + "\n"), StatusChanged(Finished, sessionId, Some(0))];
      case Rejected(errors) =>
        events := events + [Out(Stderr, FormatErrorEntries(errors) + "\n"), StatusChanged(Error, sessionId, None)];
      case CompileThrew(e) =>
        events := events + Caught(e, sessionId);
    }
  }
}
