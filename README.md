# nospace20-webui execution core, modelled in Dafny

nospace20-webui is a web front end for the nospace20 language. A program
can run in one of two places.

- On the server: a Socket.IO controller (`NospaceController`) asks an
  execution service (`NospaceExecutionService`) to write the code to a
  temporary file and spawn the `nospace20` binary. The service then streams
  stdout, stderr and status changes back to the socket that asked.
- In the browser: a WebAssembly backend (`WasmExecutionBackend`) steps a
  VM in bounded chunks. The browser's `ServerExecutionBackend` is the client
  of the server path. Compiler error reports in JSON are rendered as text by
  `formatNospaceErrors`.

A second part of the server manages test cases on disk:

- `TestFileService` builds the test tree, validates paths, and reads,
  updates and creates `<path>.ns` / `<path>.check.json` pairs.
- `TestController` maps its outcomes to HTTP responses.
- The editor (`extractCategories`) flattens the tree into category paths.

The Dafny modules follow those files:

| module | file | models |
|---|---|---|
| `Base` | base.dfy | options, results, `startsWith`/`endsWith`/`includes`, `join`/`split`, decimal rendering |
| `Json` | json.dfy | parsed JSON values, `String(v)` and `JSON.stringify(v)` |
| `NospaceTypes` | nospace_types.dfy | languages, statuses, options and backend events |
| `ErrorFormat` | error_format.dfy | `formatNospaceErrors.ts` |
| `ExecutionService` | execution_service.dfy | `NospaceExecutionService.ts`: file system, sessions, the service |
| `NospaceControl` | nospace_controller.dfy | `NospaceController.ts` |
| `WasmBackend` | wasm_backend.dfy | `WasmExecutionBackend.ts` |
| `ServerBackend` | server_backend.dfy | `ServerExecutionBackend.ts` and the socket client it drives |
| `TestTree` | test_tree.dfy | `buildTree` of `TestFileService.ts` |
| `TestFiles` | test_files.dfy | the rest of `TestFileService.ts` |
| `TestApi` | test_api.dfy | `TestController.ts` |
| `Categories` | categories.dfy | `extractCategories` of `TestEditorPanel.tsx` |

Code that changes objects in place is modelled as classes whose methods
have `modifies` clauses. Examples are the session, the service, the
controller's socket map and the two backends. Each method is proved against
a specification function or an explicit description of the new state.

Pure code is modelled as functions with lemmas. Examples are the error
formatter, the system messages, path validation and tree building.

Callbacks are modelled in one of three ways:

- as the list of callbacks an operation fires (`Session.Exit`,
  `Session.Timeout`);
- as a log of emitted events (`Controller.emitted`, `Backend.events`);
- as registration flags (`ServerBackend.outputRegistered`).

`JSON.parse`, the VM, the compiler and the locale order are function
parameters.

In `handleRun` (src/app/Controllers/NospaceController.ts:54-79) the
callbacks passed to `run` read `session`, and `session` is only bound once
`run` has returned. A callback that fires synchronously inside `run`
therefore reads the variable before its initialisation and throws. This
happens when the temp-file write fails or the binary is missing.
`Service.Run` has a `callbacksRaise` flag. `Controller.CallRun` sets it and
reports the raised error.

The controller model calls the corrected `Session.Kill`, and it is still
the code as written. The controller only kills a session it finds
registered. A session unregisters itself in its exit callback, which the
exit handler runs at once. So every session the controller kills has not
exited, and on such a session the two versions of `kill` agree
(`KillsAgreeUntilExit`).

## Model

| member | source | states |
|---|---|---|
| NospaceTypes.LanguageNames | src/interfaces/NospaceTypes.ts:3 | the three language names are distinct and none starts with `-`, so they can be passed as an argument value |
| Json.Lookup | src/web/libs/formatNospaceErrors.ts:64-71 | property access finds a value exactly when some member has the key |
| Json.StringifyOpens | src/web/services/WasmExecutionBackend.ts:164-171 | `JSON.stringify` of any value starts with a character that opens a JSON value |
| Json.StringifyIsNotPlaceholder | src/web/services/WasmExecutionBackend.ts:164-171 | `JSON.stringify` of a thrown value is never the uninformative `[object Object]` |
| ErrorFormat.FormatErrorEntries | src/web/libs/formatNospaceErrors.ts:29-38 | no entries give the empty text |
| ErrorFormat.FormatEntryRoundTrip | src/web/libs/formatNospaceErrors.ts:32-36 | a formatted entry parses back to its message, its numeric line and its column (the column only when a line is present) |
| ErrorFormat.FormatEntryOneLine | src/web/libs/formatNospaceErrors.ts:30-38 | an entry whose message has no newline formats to a single line |
| ErrorFormat.FormatErrorEntriesLines | src/web/libs/formatNospaceErrors.ts:30-38 | splitting the report at newlines gives back the formatted entries, one per error |
| ErrorFormat.TryFormatNospaceErrorJson | src/web/libs/formatNospaceErrors.ts:46-59 | a report exactly when the text parses to a nospace error result; then it is the formatted entries |
| ErrorFormat.EncodeRoundTrip | src/web/libs/formatNospaceErrors.ts:62-73 | every list of entries, encoded as JSON, is recognised as an error result and decodes to the same entries |
| ErrorFormat.TryFormatReport | src/web/libs/formatNospaceErrors.ts:46-59 | the JSON text of any list of entries is formatted as those entries |
| ExecutionService.FileSystem.constructor | src/app/Services/NospaceExecutionService.ts:9-14 | the file system starts with the given files, directories and write faults |
| ExecutionService.FileSystem.Mkdir | src/app/Services/NospaceExecutionService.ts:9-14 | adds the directory and nothing else |
| ExecutionService.FileSystem.Write | src/app/Services/NospaceExecutionService.ts:9-14 | a faulty path reports its error and changes nothing; any other path gets the data |
| ExecutionService.FileSystem.Unlink | src/app/Services/NospaceExecutionService.ts:9-14 | succeeds exactly when the file exists and is not faulty, and then removes only it |
| ExecutionService.SecondsText | src/app/Services/NospaceExecutionService.ts:109 | a whole number of seconds renders as that number alone, with no decimal point |
| ExecutionService.SecondsTextFraction | src/app/Services/NospaceExecutionService.ts:109 | any other duration renders as the whole seconds, a point and one to three digits whose last is not zero and which, padded back to three digits, read as the milliseconds past the second |
| ExecutionService.StatusOf | src/app/Services/NospaceExecutionService.ts:95-127 | the intended status: terminal exactly after a kill or an exit, killed exactly after a kill, finished exactly after a natural exit with code 0 |
| ExecutionService.Session.Spawned | src/app/Services/NospaceExecutionService.ts:70-113 | a new session is running, its timer is pending, its stdin is open and nothing has been sent to it |
| ExecutionService.Session.Kill | src/app/Services/NospaceExecutionService.ts:124-136 | corrected kill: a live process gets SIGTERM and the status becomes killed; after a kill or an exit nothing changes |
| ExecutionService.Session.KillAsWritten | src/app/Services/NospaceExecutionService.ts:124-136 | kill as written: the status becomes killed even after a natural exit, and a signal is sent only to a live process |
| ExecutionService.Session.SendStdin | src/app/Services/NospaceExecutionService.ts:138-142 | data is written exactly while stdin is open; nothing else changes |
| ExecutionService.Session.CloseStdin | src/app/Services/NospaceExecutionService.ts:139 | stdin is closed and what was written is kept |
| ExecutionService.Session.Exit | src/app/Services/NospaceExecutionService.ts:95-103 | the status becomes finished for code 0, else error, unless already killed; the exit code is recorded; the timer is cleared; the temp file is removed; the exit callback fires once |
| ExecutionService.Session.Cleanup | src/app/Services/NospaceExecutionService.ts:144-158 | the timer is cleared and the temp file is removed when it exists; the status is untouched |
| ExecutionService.Session.Timeout | src/app/Services/NospaceExecutionService.ts:105-113 | the process is killed with SIGTERM; the timeout notice goes to stderr unless it was already killed |
| ExecutionService.KillAfterExit | src/app/Services/NospaceExecutionService.ts:95-127 | a session that exited with code 0 and is then killed reports killed as written, and finished once corrected |
| ExecutionService.KillsAgreeUntilExit | src/app/Services/NospaceExecutionService.ts:124-136 | on a session whose process has not exited, the corrected kill and the kill as written leave the same state |
| ExecutionService.ArgVectorRoundTrip | src/app/Services/NospaceExecutionService.ts:196-211 | the argument vector parses back to the language, the two debug flags and the temp path; it has 3 to 5 items and the path comes last |
| ExecutionService.BuildArgs | src/app/Services/NospaceExecutionService.ts:196-211 | the built arguments decode to exactly the requested options and the temp file |
| ExecutionService.Service.constructor | src/app/Services/NospaceExecutionService.ts:161-168 | no sessions and nothing spawned |
| ExecutionService.Service.RemoveSession | src/app/Services/NospaceExecutionService.ts:263-265 | that id is no longer found; every other lookup is unchanged |
| ExecutionService.Service.Run | src/app/Services/NospaceExecutionService.ts:173-251 | the temp directory exists afterwards. A failed write reports its error and spawns nothing. A missing binary reports an error, spawns nothing and removes the temp file. Otherwise exactly one running session is spawned with the built arguments and registered under its id |
| NospaceControl.WithNewline | src/app/Controllers/NospaceController.ts:104 | the result ends in a newline, and equals the input exactly when the input already does |
| NospaceControl.WithNewlineIdempotent | src/app/Controllers/NospaceController.ts:104 | adding the newline twice is adding it once |
| NospaceControl.Controller.constructor | src/app/Controllers/NospaceController.ts:10-12 | no socket is bound and nothing has been emitted; `Valid` and `Bound` hold |
| NospaceControl.Controller.DropPrevious | src/app/Controllers/NospaceController.ts:42-51 | the session bound to the socket, if still registered, is killed and unregistered; every other session is untouched; it keeps `Valid` (every registered session is live under its own id), and keeps `Bound` (every running session is its socket's binding) whenever that held before |
| NospaceControl.Controller.CallRun | src/app/Controllers/NospaceController.ts:54-76 | the run raises exactly when the write fails or the binary is missing; otherwise a fresh running session is registered |
| NospaceControl.Controller.Start | src/app/Controllers/NospaceController.ts:78-93 | binds the socket to the session, emits the running status, and in batch mode writes the stdin data; the registry stays `Valid`, and `Bound` holds if every other entry was bound and the socket's old binding named no registered session |
| NospaceControl.Controller.Launch | src/app/Controllers/NospaceController.ts:53-93 | either raises and changes no binding, or binds the socket to a new running session and emits its running status; it keeps `Valid`, and `Bound` when it held and the socket's old binding named no registered session |
| NospaceControl.Controller.HandleRun | src/app/Controllers/NospaceController.ts:36-94 | the previous session of the socket is killed and dropped; then the new run either raises or leaves the socket bound to the new running session; it keeps `Valid`, and keeps `Bound` whenever that held before |
| NospaceControl.Controller.HandleStdin | src/app/Controllers/NospaceController.ts:96-107 | a running session gets the data with a newline appended; other sessions are untouched; it keeps `Valid`, and keeps `Bound` whenever that held before |
| NospaceControl.Controller.HandleKill | src/app/Controllers/NospaceController.ts:109-119 | a registered session is killed and its killed status emitted; an unknown id changes nothing; it keeps `Valid`, and keeps `Bound` whenever that held before |
| NospaceControl.Controller.HandleDisconnect | src/app/Controllers/NospaceController.ts:121-131 | the socket's session, if still registered, is killed and dropped, the binding removed, nothing emitted; an unbound socket changes nothing; it keeps `Valid`, and keeps `Bound` whenever that held before |
| NospaceControl.Controller.OnOutput | src/app/Controllers/NospaceController.ts:55-66 | output is emitted to the session's socket as stdout or stderr |
| NospaceControl.Controller.OnProcessExit | src/app/Controllers/NospaceController.ts:67-75 | corrected exit handling: the final status is emitted, the session dropped, and the socket unbound only if it is still bound to this session; it keeps `Valid`, and keeps `Bound` whenever that held before |
| NospaceControl.Controller.OnProcessExitAsWritten | src/app/Controllers/NospaceController.ts:67-75 | exit handling as written: the socket is unbound whatever session it is bound to now; `Valid` is kept, `Bound` is not promised |
| NospaceControl.Controller.OnExit | src/app/Controllers/NospaceController.ts:67-75 | the corrected `onExit` callback keeps a newer binding of the socket |
| NospaceControl.Controller.OnExitAsWritten | src/app/Controllers/NospaceController.ts:67-75 | the `onExit` callback as written deletes the socket's binding unconditionally |
| NospaceControl.Controller.OnProcessTimeout | src/app/Services/NospaceExecutionService.ts:106-113 | a timed-out session is killed; the notice is emitted to its socket unless it was already killed; it keeps `Valid`, and keeps `Bound` whenever that held before |
| NospaceControl.RunTwice | src/app/Controllers/NospaceController.ts:42-79 | two runs on one socket: the first session is killed and only the second stays registered and bound |
| NospaceControl.ReplacedSessionExit | src/app/Controllers/NospaceController.ts:74-131 | as written, the replaced session's exit unbinds the socket, breaking `Bound`; the socket's disconnect then leaves the newer session registered and running |
| NospaceControl.ReplacedSessionExitCorrected | src/app/Controllers/NospaceController.ts:74-131 | with the corrected callback the newer session stays bound and is killed on disconnect |
| WasmBackend.ThrownMessage | src/web/services/WasmExecutionBackend.ts:166-171 | an Error gives its message, a string itself, any other value its JSON text, never `[object Object]` |
| WasmBackend.TerminalStatus | src/web/services/WasmExecutionBackend.ts:102-162 | every ending is terminal; finished exactly on completion; killed exactly at the step ceiling or on abort |
| WasmBackend.StepReportStatuses | src/web/services/WasmExecutionBackend.ts:90-148 | one step emits no status while the VM continues, and exactly its terminal status when it stops |
| WasmBackend.ClosingStatuses | src/web/services/WasmExecutionBackend.ts:102-148 | each closing case emits exactly one status |
| WasmBackend.LoopStatuses | src/web/services/WasmExecutionBackend.ts:89-162 | the loop emits exactly one status change, the terminal status of how it ended |
| WasmBackend.RunStatuses | src/web/services/WasmExecutionBackend.ts:63-182 | a run emits running, then exactly one terminal status, or error when the VM cannot be built |
| WasmBackend.CeilingStopsRun | src/web/services/WasmExecutionBackend.ts:139-148 | a program that never stops is stopped at the step ceiling |
| WasmBackend.CompileEvents | src/web/services/WasmExecutionBackend.ts:184-212 | compiling, then one output entry, then finished with code 0 exactly on success; a success writes the program text on stdout, a rejection the formatted error report on stderr, a throw the thrown message on stderr, each ended by a newline, and both failures end in error with no exit code |
| WasmBackend.CompileErrorLines | src/web/services/WasmExecutionBackend.ts:204-211 | compile errors are reported one formatted entry per line |
| WasmBackend.Backend.constructor | src/web/services/WasmExecutionBackend.ts:22-32 | no VM, no events, no abort controller |
| WasmBackend.Backend.Kill | src/web/services/WasmExecutionBackend.ts:237-240 | the current run's controller is aborted and cleared; nothing else changes |
| WasmBackend.Backend.Dispose | src/web/services/WasmExecutionBackend.ts:242-246 | every run started so far is aborted |
| WasmBackend.Backend.SendStdin | src/web/services/WasmExecutionBackend.ts:232-235 | stdin is ignored |
| WasmBackend.Backend.Run | src/web/services/WasmExecutionBackend.ts:51-61 | earlier runs are aborted, and the new run's events are those of its script |
| WasmBackend.Backend.RunAsync | src/web/services/WasmExecutionBackend.ts:63-182 | appends the run's events; the VM is freed in every case; an abort clears the controller |
| WasmBackend.Backend.Drive | src/web/services/WasmExecutionBackend.ts:89-162 | the loop appends exactly the loop events of the script |
| WasmBackend.Backend.ReportStep | src/web/services/WasmExecutionBackend.ts:90-148 | one step appends its report and says whether to continue |
| WasmBackend.Backend.Compile | src/web/services/WasmExecutionBackend.ts:184-230 | appends the compile events of the compiler's outcome |
| ServerBackend.SystemMessageRoundTrip | src/web/services/ServerExecutionBackend.ts:132-141 | every notice reads back to its status, session id or exit code |
| ServerBackend.SystemMessageInjective | src/web/services/ServerExecutionBackend.ts:132-141 | equal notices come from the same status, and the same id or exit code |
| ServerBackend.ExitCodeRoundTrip | src/web/services/ServerExecutionBackend.ts:136 | the rendered exit code (`unknown` when absent) reads back to the code |
| ServerBackend.StderrText | src/web/services/ServerExecutionBackend.ts:62-70 | stderr that parses as an error result is formatted; anything else passes unchanged |
| ServerBackend.StderrReportFormatted | src/web/services/ServerExecutionBackend.ts:62-70 | the JSON text of any error list reaches the output as its formatted entries |
| ServerBackend.ServerBackend.constructor | src/web/services/ServerExecutionBackend.ts:30-51 | no session, socket closed, nothing sent, no callbacks |
| ServerBackend.ServerBackend.Init | src/web/services/ServerExecutionBackend.ts:53-85 | the socket is open |
| ServerBackend.ServerBackend.OnOutput | src/web/services/ServerExecutionBackend.ts:113-115 | the output callback is registered |
| ServerBackend.ServerBackend.OnStatusChange | src/web/services/ServerExecutionBackend.ts:117-125 | the status callback is registered |
| ServerBackend.ServerBackend.Emit | src/web/services/ServerExecutionBackend.ts:143-147 | an entry reaches the output exactly when a callback is registered |
| ServerBackend.ServerBackend.HandleStdout | src/web/services/ServerExecutionBackend.ts:55-61 | stdout data is passed on unchanged |
| ServerBackend.ServerBackend.HandleStderr | src/web/services/ServerExecutionBackend.ts:62-71 | stderr is passed on as its stderr text |
| ServerBackend.ServerBackend.HandleExecutionStatus | src/web/services/ServerExecutionBackend.ts:72-83 | the session id is taken from the status event; the status callback fires, then the system message is emitted when the status has one |
| ServerBackend.ServerBackend.EmitSystemMessage | src/web/services/ServerExecutionBackend.ts:128-149 | emits the system message of the status exactly when there is one |
| ServerBackend.ServerBackend.Send | src/web/services/NospaceSocketClient.ts:107-112 | a request is sent exactly while the socket is open; otherwise "not connected" is reported |
| ServerBackend.ServerBackend.Run | src/web/services/ServerExecutionBackend.ts:91-93 | sends the run request |
| ServerBackend.ServerBackend.Compile | src/web/services/ServerExecutionBackend.ts:95-97 | compiling on the server is refused |
| ServerBackend.ServerBackend.SendStdin | src/web/services/ServerExecutionBackend.ts:99-102 | without a session nothing is sent; with one, the stdin request for it |
| ServerBackend.ServerBackend.Kill | src/web/services/ServerExecutionBackend.ts:104-107 | without a session nothing is sent; with one, the kill request for it |
| ServerBackend.ServerBackend.Dispose | src/web/services/ServerExecutionBackend.ts:109-111 | the socket is closed |
| ServerBackend.KillFollowsStatus | src/web/services/ServerExecutionBackend.ts:72-107 | a kill before any status sends nothing; after a status it targets that session |
| TestTree.SortBySorted | src/app/Services/TestFileService.ts:166-168 | the sort is ordered by the comparison, and a permutation of its input |
| TestTree.InsertSorted | src/app/Services/TestFileService.ts:166-168 | inserting into an ordered list keeps it ordered |
| TestTree.ChildPathSegments | src/app/Services/TestFileService.ts:172-186 | a child's path splits at `/` into its parent's segments followed by its name, and a top-level name is its own only segment |
| TestTree.Tree | src/app/Services/TestFileService.ts:149-199 | one node per directory and per `.ns` file |
| TestTree.TreeDirsFirst | src/app/Services/TestFileService.ts:166-196 | directories come before test cases |
| TestTree.TreeGroupsSorted | src/app/Services/TestFileService.ts:166-196 | each group is ordered by name |
| TestTree.TreeTestNodesListed | src/app/Services/TestFileService.ts:157-196 | every test node comes from a `.ns` file of its directory, with `hasCheck` true exactly when the check file is there |
| TestTree.TreeTestNodesComplete | src/app/Services/TestFileService.ts:157-196 | every `.ns` file has a test node |
| TestTree.TreeDirNodesListed | src/app/Services/TestFileService.ts:170-182 | every directory node comes from a subdirectory, with that subdirectory's tree as children |
| TestTree.TreeDirNodesComplete | src/app/Services/TestFileService.ts:170-182 | every subdirectory has a directory node |
| TestTree.Partition | src/app/Services/TestFileService.ts:157-164 | the loop collects exactly the directories and the `.ns` files |
| TestTree.BuildTree | src/app/Services/TestFileService.ts:149-199 | builds exactly the tree |
| TestTree.BuildDirNodes | src/app/Services/TestFileService.ts:170-182 | builds exactly the directory nodes |
| TestTree.BuildTestNodes | src/app/Services/TestFileService.ts:184-196 | builds exactly the test nodes |
| TestFiles.ValidatePath | src/app/Services/TestFileService.ts:204-229 | refused exactly for a leading `/` or `\`, a `..`, or a path outside, each with its message in that order; an accepted path is returned unchanged |
| TestFiles.AcceptedPathStaysBelow | src/app/Services/TestFileService.ts:204-229 | an accepted path is relative and none of its segments is `..` |
| TestFiles.ReadFile | src/app/Services/TestFileService.ts:21-29 | succeeds exactly for an existing file, with its contents; a directory fails with the pathless read error |
| TestFiles.WriteFile | src/app/Services/TestFileService.ts:21-29 | succeeds exactly when the path is not a directory and its parent is; then only that file changes |
| TestFiles.UnlinkFile | src/app/Services/TestFileService.ts:21-29 | succeeds exactly for an existing file, removing only it |
| TestFiles.MkdirAll | src/app/Services/TestFileService.ts:21-29 | succeeds exactly when no directory on the way is a file; then all of them exist |
| TestFiles.OperationsKeepValid | src/app/Services/TestFileService.ts:21-29 | no operation makes a path both a file and a directory |
| TestFiles.ReadAfterWrite | src/app/Services/TestFileService.ts:21-29 | a written file reads back; every other file reads as before, every other path still fails, and with the same message unless the new file sits above it |
| TestFiles.MkdirAllMakesDir | src/app/Services/TestFileService.ts:131-135 | a successful recursive mkdir leaves the path a directory |
| TestFiles.TestFileSystem.constructor | src/app/Services/TestFileService.ts:21-29 | the state is the given file system |
| TestFiles.TestFileSystem.ReadFileSync | src/app/Services/TestFileService.ts:21-29 | reads as `ReadFile` |
| TestFiles.TestFileSystem.WriteFileSync | src/app/Services/TestFileService.ts:21-29 | changes the state as `WriteFile` |
| TestFiles.TestFileSystem.UnlinkSync | src/app/Services/TestFileService.ts:21-29 | changes the state as `UnlinkFile` |
| TestFiles.TestFileSystem.MkdirSync | src/app/Services/TestFileService.ts:21-29 | changes the state as `MkdirAll` |
| TestFiles.GetCase | src/app/Services/TestFileService.ts:64-84 | a refused path gives its error; a missing `.ns` gives "not found"; otherwise the source and the check, which is absent exactly when no check file exists |
| TestFiles.UpdateCase | src/app/Services/TestFileService.ts:89-116 | a refused path or a missing `.ns` gives its error and changes nothing |
| TestFiles.UpdateFiles | src/app/Services/TestFileService.ts:89-116 | a successful update writes the source, and leaves, deletes or writes the check file as the check is absent, empty or given |
| TestFiles.UpdateRejectedUnchanged | src/app/Services/TestFileService.ts:89-116 | a rejected update changes nothing |
| TestFiles.UpdateThenGet | src/app/Services/TestFileService.ts:89-116 | reading after an update gives the new source and the resulting check |
| TestFiles.CreateCase | src/app/Services/TestFileService.ts:121-144 | a refused path gives its error; an existing `.ns` gives "already exists"; both change nothing |
| TestFiles.CreateSucceeds | src/app/Services/TestFileService.ts:121-144 | when the directory can be made, creation succeeds, writes the source and a non-empty check, and keeps every other file |
| TestFiles.CreateThenGet | src/app/Services/TestFileService.ts:121-144 | reading after a creation gives the new source, and the new check or any leftover one |
| TestFiles.CreateExistingUnchanged | src/app/Services/TestFileService.ts:121-144 | creating over an existing `.ns` changes nothing |
| TestFiles.TestFileService.constructor | src/app/Services/TestFileService.ts:48-51 | the service holds the given file system |
| TestFiles.TestFileService.GetTree | src/app/Services/TestFileService.ts:56-59 | the tree of the test directory |
| TestFiles.TestFileService.GetTestCase | src/app/Services/TestFileService.ts:64-84 | returns `GetCase` of the current state |
| TestFiles.TestFileService.UpdateTestCase | src/app/Services/TestFileService.ts:89-116 | changes the state as `UpdateCase` |
| TestFiles.TestFileService.CreateTestCase | src/app/Services/TestFileService.ts:121-144 | changes the state as `CreateCase` |
| TestApi.GetResponse | src/app/Controllers/TestController.ts:37-60 | the status is 200, 400, 404 or 500; it is 200 exactly when the path is given and the case is read |
| TestApi.UpdateResponse | src/app/Controllers/TestController.ts:66-96 | the status is 200, 400, 404 or 500; it is 200 exactly when both fields are given and the update succeeds |
| TestApi.CreateResponse | src/app/Controllers/TestController.ts:102-126 | the status is 201, 400, 409 or 500; it is 201 exactly when both fields are given and the creation succeeds |
| TestApi.MissingFieldsRejected | src/app/Controllers/TestController.ts:37-112 | a missing path or source gives 400 with the message of each handler and changes nothing |
| TestApi.RefusedPathIsInvalid | src/app/Controllers/TestController.ts:37-126 | an absolute or traversing path gives 400 "Invalid path" from every handler and changes nothing |
| TestApi.OutsidePathIsInternalError | src/app/Controllers/TestController.ts:37-126 | a path refused only for resolving outside gives 500 from every handler |
| TestApi.MissingCaseIsNotFound | src/app/Controllers/TestController.ts:37-96 | a missing test case gives 404 with the service's message |
| TestApi.ExistingCaseIsConflict | src/app/Controllers/TestController.ts:113-124 | creating an existing case gives 409 with the service's message |
| TestApi.FileErrorIsInternalError | src/app/Controllers/TestController.ts:37-126 | a file-system error is answered with 500 when neither the test directory nor the path holds a phrase the catch blocks look for |
| TestApi.FileErrorNamingTraversal | src/app/Controllers/TestController.ts:62-126 | in update and create, a file-system error on a path holding "traversal" is answered with 400 "Invalid path" |
| TestApi.GetFileErrorIsInternalError | src/app/Controllers/TestController.ts:37-58 | once the `.ns` file exists, get's only file-system error is the pathless directory read, answered with 500 whatever the path |
| TestApi.SuccessResponses | src/app/Controllers/TestController.ts:37-126 | success gives 200 with the case, 200 or 201 with `success` |
| TestApi.TestController.constructor | src/app/Controllers/TestController.ts:16 | the controller holds the given service |
| TestApi.TestController.HandleGetTree | src/app/Controllers/TestController.ts:22-31 | 200 with the tree of the listing exactly when the directory can be listed, else 500 "Internal server error" |
| TestApi.TestController.HandleGetTestCase | src/app/Controllers/TestController.ts:37-60 | responds as `GetResponse` on the current files |
| TestApi.TestController.HandleUpdateTestCase | src/app/Controllers/TestController.ts:66-96 | responds and changes the files as `UpdateResponse` |
| TestApi.TestController.HandleCreateTestCase | src/app/Controllers/TestController.ts:102-126 | responds and changes the files as `CreateResponse` |
| Categories.ExtractCategories | src/web/components/test-editor/TestEditorPanel.tsx:14-26 | the loop with its recursive call produces exactly the category list |
| Categories.CategoriesAreDirectoryPaths | src/web/components/test-editor/TestEditorPanel.tsx:14-26 | a path is a category exactly when some directory of the tree has it |
| Categories.CategoryCount | src/web/components/test-editor/TestEditorPanel.tsx:14-26 | there is one category per directory |
| Categories.PreOrder | src/web/components/test-editor/TestEditorPanel.tsx:16-24 | a directory's path follows its earlier siblings' categories and comes just before the categories under it |
| Categories.CategoriesConcat | src/web/components/test-editor/TestEditorPanel.tsx:16-24 | the list for consecutive nodes is the concatenation of their lists |

## Left out

- Processes, sockets, timers, the WASM module and `JSON.parse` are not
  executed. Their effects are inputs of the model:
  - a faults map on the file system;
  - a `BinaryFound` predicate;
  - VM and compiler scripts;
  - a parse function;
  - explicit `Exit`/`Timeout` events.
- The SIGKILL fallback in `kill` is not modelled. Its guard
  (`!process.killed`) is false once SIGTERM has been delivered.
- Two WASM runs interleaving across `await` points are not modelled. A new
  run aborts the older one, but the older loop's `finally` can still free
  the newer VM. Each `RunAsync` is modelled as running to its end.
- WasmBackend.Backend.Run: the loop's yield to the event loop and the
  `MAX_STEPS_PER_CHUNK` chunking are not modelled. Only the ceiling on
  total steps is.
- Callbacks registered with `?.`, when none is set, are modelled only in
  `ServerBackend` (the registration flags).
- `init`, `isReady` and the socket's connect and reconnect handling are
  left out. The socket is either open or closed.
- Error values that are neither `Error` instances nor strings are rendered
  through `JSON.stringify` of a JSON value. Cyclic values, `undefined`,
  functions and floating-point numbers are not modelled.
- TestFiles: `path.join` and `path.resolve` do no normalisation. Joining is
  concatenation, and the resolve-based containment check of `validatePath`
  is the parameter `outside`.
- TestFiles: a file-system error is Node's message on Linux: the code,
  the system call and the absolute path, which is the test directory, `/`
  and the relative path. Reading a directory is the exception. Its open
  succeeds, and the read fails with `EISDIR` and no path.
  `ENOENT`, `EISDIR` and `ENOTDIR` are modelled. Permissions
  and I/O faults are not. A missing path is `ENOTDIR` when any directory
  above it is a file. Node instead reports the first failing segment,
  which differs only on a file below a missing directory, a state no real
  file system reaches.
- TestTree: `readdirSync(..., { withFileTypes: true })` is a listing given
  as input. Other entry kinds (symlinks) are not modelled.
- TestTree.SortBySorted: the in-place `Array.prototype.sort` is modelled as
  an insertion sort on values. `localeCompare` is an abstract total
  preorder.
- TestApi: a request body that is not an object, and non-string field
  values, are not modelled. Fields are optional strings.
- Json: a `JObject` lists its members in JavaScript's own-key order
  (integer-like keys first, ascending, then insertion order). Deriving that
  order from the order in which properties were added is not modelled.
  Values reach the model already in it: parsed, thrown or traced.
- Timestamps on output entries are not modelled.
- The JSON `null` value of a missing check in `getTestCase` is `None`.

## Findings

| source | as written | input that shows it | evidently intended | confidence | as-written member | corrected member |
|---|---|---|---|---|---|---|
| src/app/Controllers/NospaceController.ts:74 | the exit callback of a session deletes its socket's binding unconditionally | run twice on one socket; the first (killed) session then exits while the second still runs, and the socket disconnects | remove the binding only if it still names the exiting session, so a disconnect still kills the second session | not executed | NospaceControl.ReplacedSessionExit | NospaceControl.ReplacedSessionExitCorrected |
| src/app/Services/NospaceExecutionService.ts:124-127 | `kill` sets the status to killed whenever `process.killed` is false, which is also the case after a natural exit | a direct call of `kill` on a session whose process has already exited with code 0; NospaceController cannot make that call, because it kills only registered sessions and a session unregisters itself in its exit callback | a finished or errored session keeps its status | not executed | ExecutionService.KillAfterExit | ExecutionService.Session.Kill |
