/** The server side of running a program: a session per child process of
    the nospace20 interpreter, moving from `running` to `finished`,
    `error` or `killed`, and the service that writes the program to a
    temporary file, builds the interpreter's argument vector, spawns it
    and keeps the sessions in a registry keyed by session id.

    The child process is a source of explicit events (the session's
    methods `Exit`, `Timeout` and `CloseStdin`); output it prints is
    forwarded by the controller.  Callbacks a session or the service
    invokes are returned as `Callback` values, in invocation order. */
module ExecutionService {
  import opened Base
  import opened NospaceTypes

  // ---- the file system -------------------------------------------------

  /** Files by path and directories, as the service sees them through
      `existsSync`, `writeFileSync`, `unlinkSync` and `mkdirSync`.
      `faults` holds the paths whose write or unlink throws, with the text
      the thrown error renders as. */
  class FileSystem {
    var files: map<string, string>
    var dirs: set<string>
    const faults: map<string, string>

    constructor (files: map<string, string>, dirs: set<string>, faults: map<string, string>)
      ensures this.files == files && this.dirs == dirs && this.faults == faults
    {
      this.files := files;
      this.dirs := dirs;
      this.faults := faults;
    }

    predicate Exists(path: string)
      reads this
    {
      path in files || path in dirs
    }

    method Mkdir(path: string)
      modifies this
      ensures dirs == old(dirs) + {path} && files == old(files)
    {
      dirs := dirs + {path};
    }

    /** Writes `data` at `path`, or returns the error the write throws. */
    method Write(path: string, data: string) returns (err: Option<string>)
      modifies this
      ensures path in faults ==> err == Some(faults[path]) && files == old(files)
      ensures path !in faults ==> err == None && files == old(files)[path := data]
      ensures dirs == old(dirs)
    {
      if path in faults {
        err := Some(faults[path]);
      } else {
        err := None;
        files := files[path := data];
      }
    }

    /** Removes the file at `path`; `false` when the unlink throws, as it
        does for a faulty path or one that holds no file. */
    method Unlink(path: string) returns (ok: bool)
      modifies this
      ensures ok <==> path !in faults && path in old(files)
      ensures files == if ok then old(files) - {path} else old(files)
      ensures dirs == old(dirs)
    {
      ok := path !in faults && path in files;
      if ok {
        files := files - {path};
      }
    }
  }

  // ---- one session -------------------------------------------------------

  /** A callback the service or a session invokes on its caller. */
  datatype Callback = OnStdout(data: string) | OnStderr(data: string) | OnExit(code: Option<int>)

  /** `String(ms / 1000)` for a non-negative number of milliseconds: whole
      seconds, then the fraction with its trailing zeros dropped. */
  function SecondsText(ms: nat): (r: string)
    ensures ms % 1000 == 0 ==> r == NatToString(ms / 1000)
    ensures ms % 1000 != 0 ==> StartsWith(r, NatToString(ms / 1000) + ".")
  {
    var f := ms % 1000;
    if f == 0 then NatToString(ms / 1000)
    else
      var digits := [DigitChar(f / 100), DigitChar(f / 10 % 10), DigitChar(f % 10)];
      var kept := if f % 100 == 0 then 1 else if f % 10 == 0 then 2 else 3;
      var r := NatToString(ms / 1000) + "." + digits[..kept];
      assert r[..|NatToString(ms / 1000) + "."|] == NatToString(ms / 1000) + ".";
      r
  }

  /** The fraction `SecondsText` writes after the decimal point: one to
      three digits, the last of them not zero, which padded back to three
      digits read as the milliseconds past the whole second. */
  lemma SecondsTextFraction(ms: nat)
    requires ms % 1000 != 0
    ensures var whole := NatToString(ms / 1000);
            var frac := SecondsText(ms)[|whole| + 1..];
            && SecondsText(ms) == whole + "." + frac
            && 1 <= |frac| <= 3 && frac[|frac| - 1] != '0'
            && (forall i :: 0 <= i < |frac| ==> '0' <= frac[i] <= '9')
            && DigitsValue(frac + "00"[..3 - |frac|]) == ms % 1000
  {
    var whole := NatToString(ms / 1000);
    var f := ms % 1000;
    var digits := [DigitChar(f / 100), DigitChar(f / 10 % 10), DigitChar(f % 10)];
    var kept := if f % 100 == 0 then 1 else if f % 10 == 0 then 2 else 3;
    assert SecondsText(ms)[|whole| + 1..] == digits[..kept];
    MillisDigits(f);
    assert digits[..kept] + "00"[..3 - kept] == digits;
  }

  /** The three digits of a number of milliseconds below a second read
      back as that number, and the last one kept is not zero. */
  lemma MillisDigits(f: nat)
    requires 0 < f < 1000
    ensures var digits := [DigitChar(f / 100), DigitChar(f / 10 % 10), DigitChar(f % 10)];
            && DigitsValue(digits) == f
            && (f % 100 == 0 ==> digits[0] != '0' && digits[1] == '0' && digits[2] == '0')
            && (f % 100 != 0 && f % 10 == 0 ==> digits[1] != '0' && digits[2] == '0')
            && (f % 10 != 0 ==> digits[2] != '0')
  {
    MillisPlaces(f);
    ThreeDigitsValue(f / 100, f / 10 % 10, f % 10);
    DigitCharValue(f / 100);
    DigitCharValue(f / 10 % 10);
    DigitCharValue(f % 10);
  }

  /** The places of a number below a thousand. */
  lemma MillisPlaces(f: nat)
    requires 0 < f < 1000
    ensures f == (f / 100 * 10 + f / 10 % 10) * 10 + f % 10
    ensures f % 100 == 0 ==> f / 100 != 0 && f / 10 % 10 == 0 && f % 10 == 0
    ensures f % 100 != 0 && f % 10 == 0 ==> f / 10 % 10 != 0
  {
  }

  lemma ThreeDigitsValue(a: nat, b: nat, c: nat)
    requires a < 10 && b < 10 && c < 10
    ensures DigitsValue([DigitChar(a), DigitChar(b), DigitChar(c)]) == (a * 10 + b) * 10 + c
  {
    var digits := [DigitChar(a), DigitChar(b), DigitChar(c)];
    DigitCharValue(a);
    DigitCharValue(b);
    DigitCharValue(c);
    assert digits[..|digits| - 1] == [DigitChar(a), DigitChar(b)];
    assert [DigitChar(a), DigitChar(b)][..1] == [DigitChar(a)] && [DigitChar(a)][..0] == [];
    assert DigitsValue([DigitChar(a)]) == a;
    assert DigitsValue([DigitChar(a), DigitChar(b)]) == a * 10 + b;
  }

  /** The notice written to stderr when the time limit expires. */
  function TimeoutNotice(timeoutMs: nat): string {
    "\nProcess timeout (" + SecondsText(timeoutMs) + "s). Killing...\n"
  }

  /** The status a session reports, determined by whether a kill reached
      the process, whether the process exited, and its exit code: a kill
      wins over the exit, and only exit code 0 is success. */
  function StatusOf(processKilled: bool, exited: bool, exitCode: Option<int>): (st: ExecutionStatus)
    ensures st.Terminal() <==> processKilled || exited
    ensures st == Killed <==> processKilled
    ensures st == Finished <==> !processKilled && exited && exitCode == Some(0)
  {
    if processKilled then Killed
    else if !exited then Running
    else if exitCode == Some(0) then Finished
    else Error
  }

  /** A running interpreter process and what the session knows of it. */
  class Session {
    const sessionId: string
    /** Identifies the callbacks the session invokes, which belong to the
        caller of `run`. */
    const listener: string
    const tempFilePath: string
    const timeoutMs: nat
    const fs: FileSystem
    var status: ExecutionStatus
    var exitCode: Option<int>
    /** The time-limit timer has been set and has neither fired nor been cleared. */
    var timerPending: bool
    /** `process.killed`: a signal was delivered to the process. */
    var processKilled: bool
    /** The process has emitted its `exit` event. */
    var exited: bool
    /** Signals delivered to the process, in order. */
    var signals: seq<string>
    /** Everything written to the process's stdin, in order. */
    var stdinWritten: seq<string>
    /** The process's stdin stream is not destroyed. */
    var stdinOpen: bool

    /** The reported status follows from the process's fate; the timer is
        pending only while the process lives; at most one signal is sent. */
    predicate Valid()
      reads this
    {
      && status == StatusOf(processKilled, exited, exitCode)
      && (timerPending ==> !exited)
      && (!exited ==> exitCode == None)
      && signals == (if processKilled then ["SIGTERM"] else [])
    }

    /** A session for a freshly spawned process, with its timer set. */
    constructor Spawned(sessionId: string, listener: string, tempFilePath: string, timeoutMs: nat, fs: FileSystem)
      ensures Valid()
      ensures this.sessionId == sessionId && this.listener == listener && this.tempFilePath == tempFilePath
      ensures this.timeoutMs == timeoutMs && this.fs == fs
      ensures status == Running && exitCode == None
      ensures timerPending && !processKilled && !exited
      ensures signals == [] && stdinWritten == [] && stdinOpen
    {
      this.sessionId := sessionId;
      this.listener := listener;
      this.tempFilePath := tempFilePath;
      this.timeoutMs := timeoutMs;
      this.fs := fs;
      status := Running;
      exitCode := None;
      timerPending := true;
      processKilled := false;
      exited := false;
      signals := [];
      stdinWritten := [];
      stdinOpen := true;
    }

    /** `kill`, with the guard the session's other states call for: a
        SIGTERM is sent, and the status becomes `killed`, only while the
        process lives and no signal has reached it yet. */
    method Kill()
      requires Valid()
      modifies this
      ensures Valid()
      ensures if old(processKilled) || old(exited)
              then status == old(status) && signals == old(signals) && processKilled == old(processKilled)
              else status == Killed && signals == ["SIGTERM"] && processKilled
      ensures exitCode == old(exitCode) && exited == old(exited) && timerPending == old(timerPending)
      ensures stdinWritten == old(stdinWritten) && stdinOpen == old(stdinOpen)
    {
      if !processKilled && !exited {
        status := Killed;
        signals := signals + ["SIGTERM"];
        processKilled := true;
      }
    }

    /** `kill` as written: its only guard is `process.killed`, which stays
        false when the process has already exited, because a signal can
        then no longer be delivered; the status is set regardless. */
    method KillAsWritten()
      modifies this
      ensures !old(processKilled) ==> status == Killed
      ensures !old(processKilled) && !old(exited) ==> processKilled && signals == old(signals) + ["SIGTERM"]
      ensures old(processKilled) || old(exited) ==> processKilled == old(processKilled) && signals == old(signals)
      ensures old(processKilled) ==> status == old(status)
      ensures exitCode == old(exitCode) && exited == old(exited) && timerPending == old(timerPending)
      ensures stdinWritten == old(stdinWritten) && stdinOpen == old(stdinOpen)
    {
      if !processKilled {
        status := Killed;
        if !exited {
          signals := signals + ["SIGTERM"];
          processKilled := true;
        }
      }
    }

    /** `sendStdin`: written only while the stream is open. */
    method SendStdin(data: string)
      requires Valid()
      modifies this
      ensures Valid()
      ensures stdinWritten == if old(stdinOpen) then old(stdinWritten) + [data] else old(stdinWritten)
      ensures status == old(status) && exitCode == old(exitCode) && stdinOpen == old(stdinOpen)
      ensures processKilled == old(processKilled) && exited == old(exited) && timerPending == old(timerPending)
      ensures signals == old(signals)
    {
      if stdinOpen {
        stdinWritten := stdinWritten + [data];
      }
    }

    /** The process's stdin stream is destroyed. */
    method CloseStdin()
      requires Valid()
      modifies this
      ensures Valid()
      ensures !stdinOpen && stdinWritten == old(stdinWritten)
      ensures status == old(status) && exitCode == old(exitCode)
      ensures processKilled == old(processKilled) && exited == old(exited) && timerPending == old(timerPending)
      ensures signals == old(signals)
    {
      stdinOpen := false;
    }

    /** The process's `exit` event: the code is recorded, a `killed` status
        is kept and any other becomes `finished` for code 0 and `error`
        otherwise, the timer is cleared, the temporary file is removed if
        it exists (a failing removal is swallowed), and `onExit(code)`
        follows. */
    method Exit(code: Option<int>) returns (fired: seq<Callback>)
      requires Valid() && !exited
      modifies this, fs
      ensures Valid()
      ensures exited && exitCode == code && !timerPending
      ensures status == if old(status) == Killed then Killed else if code == Some(0) then Finished else Error
      ensures fs.files == if tempFilePath in old(fs.files) && tempFilePath !in fs.faults
                          then old(fs.files) - {tempFilePath} else old(fs.files)
      ensures fs.dirs == old(fs.dirs)
      ensures fired == [OnExit(code)]
      ensures processKilled == old(processKilled) && signals == old(signals)
      ensures stdinWritten == old(stdinWritten) && stdinOpen == old(stdinOpen)
    {
      exitCode := code;
      exited := true;
      if status != Killed {
        status := if code == Some(0) then Finished else Error;
      }
      Cleanup();
      fired := [OnExit(code)];
    }

    /** Clears the timer and removes the temporary file if it exists. */
    method Cleanup()
      modifies this, fs
      ensures !timerPending
      ensures fs.files == if tempFilePath in old(fs.files) && tempFilePath !in fs.faults
                          then old(fs.files) - {tempFilePath} else old(fs.files)
      ensures fs.dirs == old(fs.dirs)
      ensures status == old(status) && exitCode == old(exitCode)
      ensures processKilled == old(processKilled) && exited == old(exited) && signals == old(signals)
      ensures stdinWritten == old(stdinWritten) && stdinOpen == old(stdinOpen)
    {
      timerPending := false;
      if fs.Exists(tempFilePath) {
        var _ := fs.Unlink(tempFilePath);
      }
    }

    /** The time limit expires: unless a signal has already reached the
        process, the notice goes to stderr and the session is killed. */
    method Timeout() returns (fired: seq<Callback>)
      requires Valid() && timerPending
      modifies this
      ensures Valid()
      ensures !timerPending && !exited && exitCode == None
      ensures fired == if old(processKilled) then [] else [OnStderr(TimeoutNotice(timeoutMs))]
      ensures status == Killed && processKilled && signals == ["SIGTERM"]
      ensures stdinWritten == old(stdinWritten) && stdinOpen == old(stdinOpen)
    {
      timerPending := false;
      if !processKilled {
        fired := [OnStderr(TimeoutNotice(timeoutMs))];
        Kill();
      } else {
        fired := [];
      }
    }
  }

  /** A kill after the process exited on its own.  With the source's
      guard, a session whose program finished with exit code 0 reports
      `killed` afterwards; with the corrected guard it keeps `finished`. */
  method KillAfterExit() returns (asWritten: Session, corrected: Session)
    ensures asWritten.exitCode == Some(0) && asWritten.status == Killed
    ensures asWritten.status != StatusOf(asWritten.processKilled, asWritten.exited, asWritten.exitCode)
    ensures corrected.exitCode == Some(0) && corrected.status == Finished
  {
    var fs := new FileSystem(map[], {}, map[]);
    asWritten := new Session.Spawned("a", "", "tmp/nospace-a.ns", 30000, fs);
    var _ := asWritten.Exit(Some(0));
    asWritten.KillAsWritten();
    corrected := new Session.Spawned("b", "", "tmp/nospace-b.ns", 30000, fs);
    var _ := corrected.Exit(Some(0));
    corrected.Kill();
  }

  /** Until its process exits, a session is killed alike by `kill` as
      written and by the corrected `kill`: the two differ only after a
      natural exit. */
  method KillsAgreeUntilExit(a: Session, b: Session)
    requires a != b && a.Valid() && !a.exited
    requires b.status == a.status && b.exitCode == a.exitCode && b.timerPending == a.timerPending
    requires b.processKilled == a.processKilled && b.exited == a.exited && b.signals == a.signals
    requires b.stdinWritten == a.stdinWritten && b.stdinOpen == a.stdinOpen
    modifies a, b
    ensures a.status == b.status && a.exitCode == b.exitCode && a.timerPending == b.timerPending
    ensures a.processKilled == b.processKilled && a.exited == b.exited && a.signals == b.signals
    ensures a.stdinWritten == b.stdinWritten && a.stdinOpen == b.stdinOpen
  {
    a.Kill();
    b.KillAsWritten();
  }

  // ---- the registry ----------------------------------------------------------

  /** A registered session: a spawned one, or the stand-in registered when
      the interpreter binary is missing, which reports `error` with exit
      code 1 and ignores kills and input. */
  datatype Entry = Live(session: Session) | Failed(id: string) {
    function Id(): string
      reads if this.Live? then {this.session} else {}
    {
      if Live? then session.sessionId else id
    }

    function Status(): ExecutionStatus
      reads if this.Live? then {this.session} else {}
    {
      if Live? then session.status else Error
    }

    function ExitCode(): Option<int>
      reads if this.Live? then {this.session} else {}
    {
      if Live? then session.exitCode else Some(1)
    }
  }

  /** How a run request ends: a registered session and the callbacks
      invoked on the way, or an exception leaving the service. */
  datatype RunResult =
    | Started(entry: Entry, fired: seq<Callback>)
    | Raised(error: string, fired: seq<Callback>)

  const TmpDir := "./tmp"

  /** `join("./tmp", "nospace-<id>.ns")`, which drops the leading `./`. */
  function TempPath(id: string): string {
    "tmp/nospace-" + id + ".ns"
  }

  function WriteFailure(error: string): string {
    "Failed to write temporary file: " + error + "\n"
  }

  function BinaryMissing(binPath: string): string {
    "nospace20 binary not found at: " + binPath + "\n"
  }

  /** The message of the `ReferenceError` a callback raises when it reads
      a `const` binding before the binding is initialised. */
  const UninitialisedSession := "Cannot access 'session' before initialization"

  /** The interpreter's command line after the binary. */
  function ArgVector(options: RunOptions, tempPath: string): (args: seq<string>)
  {
    ["--std", options.language.Name()]
      + (if options.debug then ["--debug"] else [])
      + (if options.ignoreDebug then ["--ignore-debug"] else [])
      + [tempPath]
  }

  /** What the interpreter reads from its command line: the subset, the
      two flags and the program file. */
  datatype Invocation = Invocation(language: Language, debug: bool, ignoreDebug: bool, file: string)

  function LanguageNamed(name: string): Option<Language> {
    if name == "standard" then Some(Standard)
    else if name == "min" then Some(Min)
    else if name == "ws" then Some(Ws)
    else None
  }

  /** Reads an argument vector of the shape the service builds. */
  function ParseArgs(args: seq<string>): Option<Invocation> {
    if |args| < 3 || args[0] != "--std" || LanguageNamed(args[1]).None? then None
    else
      var rest := args[2..];
      var debug := |rest| > 1 && rest[0] == "--debug";
      var rest' := if debug then rest[1..] else rest;
      var ignore := |rest'| > 1 && rest'[0] == "--ignore-debug";
      var rest'' := if ignore then rest'[1..] else rest';
      if |rest''| == 1 then Some(Invocation(LanguageNamed(args[1]).value, debug, ignore, rest''[0]))
      else None
  }

  /** The argument vector carries the options and the file exactly: the
      subset follows `--std`, each flag is present iff it is set, and the
      file comes last, whatever its name. */
  lemma ArgVectorRoundTrip(options: RunOptions, tempPath: string)
    ensures ParseArgs(ArgVector(options, tempPath))
            == Some(Invocation(options.language, options.debug, options.ignoreDebug, tempPath))
    ensures 3 <= |ArgVector(options, tempPath)| <= 5
    ensures ArgVector(options, tempPath)[|ArgVector(options, tempPath)| - 1] == tempPath
  {
    var args := ArgVector(options, tempPath);
    var rest := args[2..];
    if options.debug {
      assert rest[0] == "--debug" && |rest| > 1;
    } else if options.ignoreDebug {
      assert rest[0] == "--ignore-debug";
    } else {
      assert rest == [tempPath];
    }
  }

  /** Builds the argument vector push by push. */
  method BuildArgs(options: RunOptions, tempPath: string) returns (args: seq<string>)
    ensures args == ArgVector(options, tempPath)
    ensures ParseArgs(args) == Some(Invocation(options.language, options.debug, options.ignoreDebug, tempPath))
  {
    args := [];
    args := args + ["--std", options.language.Name()];
    if options.debug {
      args := args + ["--debug"];
    }
    if options.ignoreDebug {
      args := args + ["--ignore-debug"];
    }
    args := args + [tempPath];
    ArgVectorRoundTrip(options, tempPath);
  }

  /** The registry of sessions and the process spawner's record. */
  class Service {
    const binPath: string
    const timeoutMs: nat
    const fs: FileSystem
    var sessions: map<string, Entry>
    /** Every spawn: the binary and its arguments. */
    var spawned: seq<(string, seq<string>)>

    constructor (binPath: string, timeoutMs: nat, fs: FileSystem)
      ensures this.binPath == binPath && this.timeoutMs == timeoutMs && this.fs == fs
      ensures sessions == map[] && spawned == []
    {
      this.binPath := binPath;
      this.timeoutMs := timeoutMs;
      this.fs := fs;
      sessions := map[];
      spawned := [];
    }

    /** The binary check after the temporary directory and file exist. */
    predicate BinaryFound(id: string)
      reads this, fs
    {
      fs.Exists(binPath) || binPath == TmpDir || binPath == TempPath(id)
    }

    /** The live sessions in the registry. */
    function Sessions(): set<Session>
      reads this
    {
      set id | id in sessions && sessions[id].Live? :: sessions[id].session
    }

    /** `getSession`. */
    function GetSession(id: string): Option<Entry>
      reads this
    {
      if id in sessions then Some(sessions[id]) else None
    }

    /** `removeSession`: that entry goes, every other stays. */
    method RemoveSession(id: string)
      modifies this
      ensures sessions == old(sessions) - {id} && spawned == old(spawned)
      ensures GetSession(id) == None
      ensures forall other :: other != id ==> GetSession(other) == old(GetSession(other))
    {
      sessions := sessions - {id};
    }

    /** `run` with the fresh id `id` and the callbacks `listener`.  The
        callbacks raise on their first invocation when `callbacksRaise`
        holds, and the exception then leaves `run` at that point.

        A failed write reports `onStderr` then `onExit(1)` and re-raises;
        a missing binary reports the same pair, removes the temporary file
        and registers the stand-in session; otherwise the interpreter is
        spawned with `ArgVector` and a running session is registered. */
    method Run(code: string, options: RunOptions, listener: string, callbacksRaise: bool, id: string) returns (r: RunResult)
      modifies this, fs
      ensures fs.dirs == if old(fs.Exists(TmpDir)) then old(fs.dirs) else old(fs.dirs) + {TmpDir}
      // the write fails
      ensures TempPath(id) in fs.faults ==>
        && fs.files == old(fs.files) && sessions == old(sessions) && spawned == old(spawned)
        && r == if callbacksRaise then Raised(UninitialisedSession, [OnStderr(WriteFailure(fs.faults[TempPath(id)]))])
                else Raised(fs.faults[TempPath(id)], [OnStderr(WriteFailure(fs.faults[TempPath(id)])), OnExit(Some(1))])
      // the binary is missing
      ensures TempPath(id) !in fs.faults && !old(BinaryFound(id)) ==>
        && spawned == old(spawned)
        && (callbacksRaise ==>
              && r == Raised(UninitialisedSession, [OnStderr(BinaryMissing(binPath))])
              && fs.files == old(fs.files)[TempPath(id) := code] && sessions == old(sessions))
        && (!callbacksRaise ==>
              && r == Started(Failed(id), [OnStderr(BinaryMissing(binPath)), OnExit(Some(1))])
              && fs.files == old(fs.files) - {TempPath(id)}
              && sessions == old(sessions)[id := Failed(id)])
      // the interpreter is spawned
      ensures TempPath(id) !in fs.faults && old(BinaryFound(id)) ==>
        && r.Started? && r.fired == [] && r.entry.Live?
        && fresh(r.entry.session)
        && r.entry.session.Valid()
        && r.entry.session.sessionId == id && r.entry.session.listener == listener
        && r.entry.session.tempFilePath == TempPath(id)
        && r.entry.session.fs == fs && r.entry.session.timeoutMs == timeoutMs
        && r.entry.session.status == Running && r.entry.session.exitCode == None
        && r.entry.session.timerPending && r.entry.session.stdinOpen
        && r.entry.session.stdinWritten == [] && r.entry.session.signals == []
        && fs.files == old(fs.files)[TempPath(id) := code]
        && sessions == old(sessions)[id := r.entry]
        && spawned == old(spawned) + [(binPath, ArgVector(options, TempPath(id)))]
    {
      if !fs.Exists(TmpDir) {
        fs.Mkdir(TmpDir);
      }
      var tempPath := TempPath(id);
      var err := fs.Write(tempPath, code);
      if err.Some? {
        var notice := OnStderr(WriteFailure(err.value));
        if callbacksRaise {
          return Raised(UninitialisedSession, [notice]);
        }
        return Raised(err.value, [notice, OnExit(Some(1))]);
      }
      var args := BuildArgs(options, tempPath);
      if !fs.Exists(binPath) {
        var notice := OnStderr(BinaryMissing(binPath));
        if callbacksRaise {
          return Raised(UninitialisedSession, [notice]);
        }
        var _ := fs.Unlink(tempPath);
        sessions := sessions[id := Failed(id)];
        return Started(Failed(id), [notice, OnExit(Some(1))]);
      }
      spawned := spawned + [(binPath, args)];
      var session := new Session.Spawned(id, listener, tempPath, timeoutMs, fs);
      sessions := sessions[id := Live(session)];
      r := Started(Live(session), []);
    }
  }
}
