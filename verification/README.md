# A verified model of shellkit's runner protocol and dashboard

shellkit runs the steps of a script on remote hosts. Where it can, a daemon drives a small runner on the
host over a framed protocol; where it cannot, it falls back to a wrapped script over ssh. A dashboard shows
live and finished calls. This Dafny project models the parts of it whose correctness is not obvious from
reading one function, and proves what they promise.

`dafny verify dfyconfig.toml` checks everything.

## How it is organised

| files | what they model |
|---|---|
| Shell, Screener | a shell fragment with the bash and the interpreter engine, and the screen that decides which scripts the interpreter may run |
| Supervisor, Runner, RunnerProofs | the runner: frame loop, step goroutine, process groups, signals and the reap on exit, as a state machine over every interleaving |
| Protocol, Daemon | daemon, cuttable stream and runner together; and that this daemon is the client's |
| Bytes, Frames, Json, JsonTrace, Wire | UTF-8 (section 4 of RFC 3629), base64 (section 4 of RFC 4648), chunked output, the JSON lines of io frames and command starts to the byte (section 7 of RFC 8259), and the line codec |
| Outputs | the cap on a step's collected outputs |
| Tracing, Client, EndToEnd, Writers | per-command traces, the client that drives one step, and output from concurrent writers through the shared encoder to the outcome |
| Answers | from the runner's result and a signal in time to what the daemon reports |
| Routing | the loop over hosts that picks the runner or the legacy path |
| RateLimit, EditDistance | the sliding-window limiter and the did-you-mean hint |
| Operators, TraceLines, Wrapped | splitting source lines, the two readers of the legacy path's output, and its wrapper |
| Live, LiveView, Watcher, History, ListModel | the live view and what it shows, the lossy tail that feeds it, the two histories, and the list with its render cache |

Code that changes state in place is a class or a method with a loop, proved against a function; protocols are
state machines whose actions are the indivisible moves of one party, so that a theorem about reachable states
is one about every interleaving.

## What is assumed

- **Shell fragment.** Words expand by pure functions of the shell state, except command substitution. There is
  no `eval`, `source` or alias, the function table starts empty, and a pipeline exits with its last stage's
  status. What runs inside the shell process is up to the host, within the builtins of bash 5.2 and `[[`, of which
  `compopt`, `help` and `pwd` leave the shell as it is; assignments before a builtin are undone after it. Where the
  head of a final stage is not spelt as it expands, what it expands to is none of the other builtins and no function of
  the script: the screen looks at the spelling alone, and `Screener.HarmlessIffAgrees` shows that the engines agree
  exactly under this condition.
  Programs outside the shell are uninterpreted functions of their arguments, directory, environment and input.
  Loops take fuel; the theorems hold for every amount and say nothing of scripts that never finish.
- **Runner.** Of the interpreter's goroutines only those of backgrounded statements are not joined. A program may
  hide such statements from the parser, as `eval` does. Making an interpreter does not fail. Process ids
  are not reused. A group counts as gone when its leader has exited and been waited for. While the runner
  lives, timers that are due are served before the clock moves on, and a kill of all groups is one move; its
  timers and goroutines end with it.
- **Stream.** Garbage on the stream is never a well-formed frame. The JSON of io frames and command starts is
  modelled to the byte; that a reader takes such a line for its frame, and no part of it for anything, is
  `Wire.IsJson`. The JSON of other frames is a parameter with the law `Wire.Reads`: an object comes back, has no
  raw line breaks, and no proper prefix of it is an object. No law speaks of a line's length, and text outside
  io frames and arguments is taken to be Unicode. `EndToEnd.FormatExists` gives, for every hello and step, a format that
  keeps both laws.
- **Clocks.** The limiter's clock does not go back. Wall-clock durations are parameters or left out.
- **Dashboard.** Event files grow by whole lines and are scanned by one goroutine. Parsing a call's input,
  matching a command to an operand, filtering and drawing are uninterpreted functions. The events are applied in
  the order of the channel.

## Where the code and its comments differ

- Every frame's line is promised to stay under the limit, which the output of commands is chunked for. The runner
  does not look at the length of other frames, and the line that reports a command holds all its arguments:
  `echo "$x"` with 1 MiB in `x` writes every byte of its output, and the client ends with a protocol error and
  none of it. Output and result arrive exactly if every line of the step is under the limit
  (`Writers.WritesReachTheOutcome`, `Writers.LongArgumentLosesOutput`, `Wire.StartIsOver`).
- The reap on exit says that without a `&` in any body a single snapshot is complete. It goes by the parsed
  program: a command that `eval` backgrounds can outlive the runner unseen (`RunnerProofs.HiddenBackgroundEscapes`).
- The reap on exit says that a background group registered up to the window's end is always killed. The loop
  looks at the clock after its last snapshot, so that what registers in between escapes unless its grace period
  runs out before the exit: exactly that (`RunnerProofs.NoOrphansByDeadline`,
  `RunnerProofs.LateRegistrationEscapes`).
- The comment on collected outputs promises a flat cap on keys and values. Later keys are not reserved for, so
  that it holds if all keys and all values but the last fit it untrimmed, and for valid values and keys of more
  than three bytes only then (`Outputs.AggregateCappedByLengths`, `Outputs.OneLongKeyBreaksTheFlatCap`).
- The client's comment on protocol errors says to fall back; the routing does not, and is right not to, as the
  body may have started (`Daemon.CutAfterTheStart`).
- A refused caller of the limiter that wakes exactly when the oldest record plus the window has come is refused
  once more and tries again at once (`RateLimit.SlotFreesAfterOldest`).
- A negative line number in a trap line is kept by the batch reader and left out of the live event
  (`TraceLines.StreamingEqualsBatch`, `TraceLines.NegativeLineNumberDiffers`).
- A scan of an event file ignores a step's renaming that the live view shows (`History.HistoriesAgree`,
  `History.RenamedStepDiffers`).
- A cancelled step is meant to report 137. One whose setup or parse fails, or that panics, reports that instead
  (`RunnerProofs.CancelledStepsReport137`, `RunnerProofs.CancelledParseFailureReports2`).
- The comment on the pipe screen says that a stage it lets pass is an external command. It reads the spelling of
  the head, so that `\cd` passes as well as `\grep` (`Screener.BackslashedHeadSlipsThrough`).
- The screen's table claims to be the union of all builtins. It lacks `compopt`, `help` and `pwd`, which is harmless: it
  has exactly those that may change the shell's state (`Screener.TableIsExact`).
- The render cache is said to reflect the current state on a hit. It does, but for the running time of a live
  call, which is that of an earlier merge (`ListModel.Model.RenderCell`).
- Finished calls are said to render as such for good. An event that arrives behind a call's end, as late output
  may, brings its live mark back (`ListModel.DrawnByEvents`, `ListModel.StragglerRevives`).

## Model

| member | source | states |
|---|---|---|
| Screener.PipeScreen.CollectFuncNames | internal/interp/gaps.go:487-503 | One walk collects exactly the function names declared anywhere in the script. |
| Screener.PipeScreen.MarkNestedPipes | internal/interp/gaps.go:507-517 | Marks exactly the pipes on the left spine below the given one. |
| Screener.PipeScreen.Walk | internal/interp/gaps.go:42-84 | The walk with its set of covered pipes flags a script exactly if some pipe that is not on the left spine of another has a final stage that needs real bash. |
| Screener.DetectPipeGaps | internal/interp/gaps.go:24-126 | The route is the interpreter exactly if no final stage of any pipeline needs real bash, by the structure of the script and not by the order of the walk. What that means for a stage say the rows TableIsExact, VerdictIffAgrees and JudgedByItsEnd. |
| Screener.TableIsExact | internal/interp/gaps.go:182-222 | The screen's table of commands that run inside the shell holds exactly the builtins of bash, listed apart from it, that may change the state of the shell that runs them. |
| Screener.VerdictIffAgrees | internal/interp/gaps.go:441-481 | The verdict on one final stage is exact: a declaration, a bare assignment, or a call whose head is dynamic or spelt as it expands passes the screen if and only if the engines agree on a pipe into it for every host, state and input. |
| Screener.JudgedByItsEnd | internal/interp/gaps.go:505-517 | A chain of pipes of any length is judged by its last stage and by no other. |
| Screener.RunAgrees | internal/interp/gaps.go:71-77 | For statements whose final stages are not flagged and have no head in disguise, and functions whose bodies are such statements, both engines give the same outcome for every host, state, input and fuel, and keep that property of the functions. |
| Screener.CoveredAgrees | internal/interp/gaps.go:505-517 | A pipe covered by another shows the same output, exit status, input and world under both engines, though the state it leaves may differ. |
| Screener.ExternalLeavesState | internal/interp/gaps.go:182-222 | A stage that is not flagged, and whose head expands to no function or state-changing builtin in disguise, changes nothing in the shell but the exit status, whichever builtins the host runs in the shell process: this is why the engines may treat it differently. |
| Screener.ScreenedScriptsAgree | internal/interp/gaps.go:24-126 | Soundness of the screen: a script routed to the interpreter, whose final heads do not expand to a state-changing builtin or a function in disguise, means the same under bash and under the interpreter, for every initial state and input and whichever builtins of bash the host runs in the shell: output, exit, and final directory, variables and functions. |
| Screener.FinishesOnce | internal/interp/gaps.go:24-126 | More fuel never changes a finished run, so that a script has at most one meaning under an engine. |
| Screener.RoutingPreservesMeaning | internal/interp/gaps.go:24-126 | Running a script on the engine the screen picks yields an outcome if and only if bash yields it. |
| Screener.PipeIntoCdDiverges | internal/interp/gaps.go:182-194 | The screen is needed: a pipe into `cd` stays in the old directory under bash and moves under the interpreter. |
| Screener.BackslashedHeadSlipsThrough | internal/interp/gaps.go:461-472 | The screen reads the spelling of the head: a pipe into `\cd` passes it and the engines still diverge. |
| Screener.HarmlessIffAgrees | internal/interp/gaps.go:415-472 | For any literal head that the screen lets pass, without command substitution in the stage: the engines agree on a pipe into it for every host, state and input if and only if what the head expands to is neither a builtin that may change the shell nor a declared function. `\grep` is fine, `\cd` is not. |
| Supervisor.MoveKeeps | cmd/shellkit-runner/supervise.go:225-266 | Whatever order a command starts, registers, is armed, signalled and waited for in, every armed command of a cancelled step stays within its TERM and grace deadlines, nothing a snapshot saw is left alive, and nothing is killed but by a snapshot or at the end of its grace period. |
| Supervisor.ApplyKeeps | cmd/shellkit-runner/supervise.go:137-165 | The same is kept by every cancel and every kill of all groups. |
| RunnerProofs.JoinedOutsideSteps | cmd/shellkit-runner/main.go:199-261 | Between steps and from the reap on, no step goroutine runs and every foreground command has been waited for. |
| RunnerProofs.LeavesOnlyFinishedSteps | cmd/shellkit-runner/main.go:199-261 | Every way out of a step waits for its goroutine to finish; nothing else ends it or replaces it. |
| RunnerProofs.WireDeathTearsDown | cmd/shellkit-runner/main.go:224-240 | When the wire is dead, by a broken frame or by the end of the grace period behind the end of stdin, the running step is cancelled and every registered command is killed in that very move, and no other. |
| RunnerProofs.EofGivesGrace | cmd/shellkit-runner/main.go:211-230 | The end of stdin during a step changes neither the step nor its commands; no continuation tears the step down before two seconds have passed. |
| RunnerProofs.TeardownIsCancelled | cmd/shellkit-runner/main.go:224-240 | Whenever the runner waits for a step that it tears down, that step has been cancelled. |
| RunnerProofs.LeavesIffDecided | cmd/shellkit-runner/main.go:119-261 | Over every run, the runner is leaving for a reason if and only if a move has decided so, reason by reason: the end of stdin between steps, noise or a frame that no daemon sends, a failed write, a stream that ended during a step, or a dead wire. Nothing else ends it. |
| RunnerProofs.NoOrphansOnExit | cmd/shellkit-runner/supervise.go:201-218 | When the runner has exited, a command still registered has been killed or is a background command that registered at or after the last snapshot; if no body that ran backgrounds anything, shown or hidden, no command is left at all. |
| RunnerProofs.NoOrphansByDeadline | cmd/shellkit-runner/supervise.go:201-218 | Exactly what is killed: a command still registered when the runner has exited has been killed if and only if the last snapshot saw it or its grace period ran out before the exit; the snapshot saw whatever registered before it and nothing that registered after it, so nothing that registered before the deadline escapes unless the snapshot was taken before the deadline. |
| RunnerProofs.ReapKills | cmd/shellkit-runner/supervise.go:201-218 | Each snapshot of the reap kills every registered command and no other, at the time it is taken, and cancels nothing. |
| RunnerProofs.LastSnapshot | cmd/shellkit-runner/supervise.go:201-218 | Of an exited runner: if no body that began showed a background statement, its last snapshot was taken as it exited; else it lived to the end of the window, and its last snapshot is no older than the start of the window. |
| RunnerProofs.LateRegistrationEscapes | cmd/shellkit-runner/supervise.go:189-218 | Such an escape happens: a reachable run in which a command registers after the last snapshot and before the deadline, outlives the runner, and is killed in no continuation. |
| RunnerProofs.HiddenBackgroundEscapes | cmd/shellkit-runner/supervise.go:187-207 | Where the program hides its `&`, as in `eval`, there is no window: a reachable run whose one snapshot misses a command that has started, which outlives the runner and is killed in no continuation. |
| RunnerProofs.Escalates | cmd/shellkit-runner/supervise.go:225-266 | A command armed under a cancelled context, however the two raced, is TERMed at once and killed when the grace period is over, unless it has been waited for, as long as the runner lives. |
| RunnerProofs.NothingKillsAfterExit | cmd/shellkit-runner/supervise.go:225-266 | The timers end with the runner: in every continuation after its exit no command is registered, signalled or killed any more; processes only live on or die by themselves. |
| RunnerProofs.ExitRacesTheKill | cmd/shellkit-runner/supervise.go:256-266 | At the very instant at which a grace period ends the kill and the exit race: two reachable states that differ in that alone. |
| RunnerProofs.EndedStepsAreCancelled | cmd/shellkit-runner/main.go:206-208 | When a step is over its context is cancelled, so that its background commands are escalated as well. |
| RunnerProofs.SignalMeetsItsStep | cmd/shellkit-runner/main.go:200-247 | A signal read during a step cancels that step's context and no other, never none, and changes nothing else. |
| RunnerProofs.TimeoutCancels | cmd/shellkit-runner/run.go:308-320 | The deadline of a step cancels its context and no other, makes the escalation of each of its armed commands due, and changes nothing else. |
| RunnerProofs.MidStepFramesDropOut | cmd/shellkit-runner/main.go:253-258 | Take every run, file and foreign frame that arrives during a step out of any run: what is left is still a run, with the same answers and the same end. |
| RunnerProofs.NeverReadsPastTheEnd | cmd/shellkit-runner/main.go:133-145 | After the reader has reported its terminal error nobody reads from it again. |
| RunnerProofs.OneAnswerPerStep | cmd/shellkit-runner/run.go:89-141 | Every accepted run frame is answered by at most one output frame and then exactly one result frame, in the order of acceptance. |
| RunnerProofs.AtMostOneResult | cmd/shellkit-runner/run.go:89-141 | At any moment no step has two results, and none has one that was not accepted. |
| RunnerProofs.CancelledStepsReport137 | cmd/shellkit-runner/run.go:287-294 | A step cancelled before its body had finished reports 137 if and only if its body ran to its end; one whose setup or parse failed, or that panicked, reports that. Once set up, it fails to parse exactly if its program does not parse. |
| RunnerProofs.UncancelledStepsReportTheirExit | cmd/shellkit-runner/run.go:286-299 | A body that ran to its end reports 137 if and only if its context was cancelled when its return was looked at, or 137 is its own exit; not cancelled, it reports its own, and no cancel came in time. |
| RunnerProofs.WithoutCancelsExitsAreOwn | cmd/shellkit-runner/run.go:286-299 | In every run without a signal, a timeout or a dead wire each body that returns reports the exit with which it returned. |
| RunnerProofs.ResultIsOfItsBody | cmd/shellkit-runner/run.go:286-299 | Over every run, a result that stands for a returned body carries the code with which the body of that very step returned. |
| RunnerProofs.CancelledParseFailureReports2 | cmd/shellkit-runner/run.go:233-238 | A reachable run in which a step is cancelled in time and reports 2, as its program does not parse. |
| Protocol.AtMostOneBody | internal/rundaemon/client.go:350-395 | Whatever the stream does, cuts and garbage included, and whenever a cancel comes, the runner starts the body at most once, and only if the daemon has handed over its run frame. |
| Protocol.FallbackIsSafe | internal/rundaemon/client.go:245-369 | Once the daemon's outcome is one after which the caller falls back, the runner has not started the body and does not in any continuation. |
| Daemon.EndsAsRunStep | internal/rundaemon/client.go:215-395 | Whatever a connection goes through, the frames its daemon handed over and the outcome it reports are an answer of RunStep, by RunStep's contract for what it could write and what it read; and it falls back exactly where the outcome says that the body never ran. |
| Daemon.RunStepIsAnEnd | internal/rundaemon/client.go:215-395 | Conversely, every answer of RunStep is the daemon's end of some reachable connection, so that the two describe the same daemon. |
| Daemon.ShapesAre | internal/rundaemon/client.go:302-369 | What the daemon hands over is to the runner a hello, one file for each of the step's, and the step's body, in that order. |
| Protocol.DeliveredTermCancels | internal/rundaemon/client.go:502-519 | No cancel is lost on an undisturbed stream: once the TERM has been read, the step it was meant for is cancelled. |
| Protocol.ExitedRunnerCancelled | cmd/shellkit-runner/main.go:199-261 | On any stream a runner that has exited has cancelled every step it accepted. |
| Daemon.CutAfterTheStart | internal/mcp/mcp_exec.go:401-408 | Why a wire cut is not retried: a reachable connection whose daemon reports a wire cut after the body has started. |
| Client.ReadLoop | internal/rundaemon/client.go:400-462 | For every stream: stdout, stderr, trace and outputs are those of the frames before the one that ends the loop; a result gives its exit and no flag, any other end gives exit -1 and exactly one flag, wire cut only for a closed stream. |
| Client.RunStep | internal/rundaemon/client.go:215-395 | What is handed to the wire is a prefix of hello, files and run, none over the line limit; a misuse sends nothing; where the daemon stops short and with which outcome; and exactly when each failure flag is set. |
| Client.OnlyTheExpectedRunner | internal/rundaemon/client.go:245-395 | Files and body go to a runner whose greeting has this protocol, the role and the pinned version, and to no other; every frame handed over is the step's own, in order; a mismatch is reported exactly if another greeting came, and the outcome names the greeting. |
| Client.EndsAtFirst | internal/rundaemon/client.go:400-462 | The loop ends at the first frame that is no trace, no outputs and no output with an intact payload: a result gives the outcome its fields, any other frame is a protocol error; the end of the stream is a cut, noise a protocol error. |
| Client.LastOutputWins | internal/rundaemon/client.go:437-446 | Of the values sent for a key the last one stands. |
| Client.DrivenIsWellFormed | internal/rundaemon/client.go:53-93 | Once the run frame is out, the outcome is a result frame's or has exactly one flag and exit -1, and is never one that promises that the body did not run. |
| Client.NeverRanMeansNoRunFrame | internal/rundaemon/client.go:82-93 | The two outcomes that allow a fallback never follow a run frame. |
| Routing.ClientIsFaithful | internal/mcp/mcp_exec.go:559-566 | Every drive of the client keeps what the routing relies on: at most one run frame, and none if the outcome says that the body never ran. |
| Routing.ExecuteSSH | internal/mcp/mcp_exec.go:317-450 | One result a host in order, from the path that counted, and a merged one behind several; it stops at the first failure, if failures stop it, and nowhere else; an unknown host, an unresolved body or a syntax error ends the step with an error and no results; and precisely which paths were set in motion. |
| Routing.LegacyRunsIffNeeded | internal/mcp/mcp_exec.go:374-441 | At every position the loop has dealt with, by what befell it: the legacy path ran exactly once, and its exit is reported, if the runner was not wanted, was refused by the limiter, could not be spawned or driven, or ended with a handshake mismatch or an over-long frame; otherwise it did not run and the drive's exit stands. |
| Routing.NothingAhead | internal/mcp/mcp_exec.go:337-450 | At a position that the loop has not reached nothing was set in motion. |
| Routing.LegacyIffFellBack | internal/mcp/mcp_exec.go:400-418 | From both ends: behind a drive that is the daemon's end of any reachable connection, the legacy path runs once if and only if that connection fell back, and else not at all. |
| Routing.AtMostOnce | internal/mcp/mcp_exec.go:381-441 | For every host position run frames and legacy runs are at most one together, and a legacy run after a drive means that no run frame was ever sent. |
| Routing.BodyStartsAtMostOnce | internal/mcp/mcp_exec.go:361-440 | From both ends: with the drive of a position being the daemon's end of any reachable connection, the body has started at most once on the runner and the legacy path together; and where the legacy path ran after a drive, the runner never starts it, however long it lives on. |
| Answers.ReportsTheAnswer | internal/rundaemon/client.go:388-436 | On a connection whose daemon hears the runner out, its hello, its concurrent writers and its result, the outcome is the exit that the runner emitted and the output that landed, and the runner's diagnostics behind stderr, exactly if every line is under the limit; else a protocol error. |
| Answers.SignalGives137 | cmd/shellkit-runner/run.go:286-294 | On any connection, cut or garbled as it may be: if the runner reads a signal before the body has finished, the step's result in every continuation is 137 if and only if the body ran to its end. |
| Answers.SignalIsReported | internal/rundaemon/client.go:499-519 | From the signal to the daemon's report: such a step's outcome has exit 137 if and only if the body ran to its end and every line of the answer is under the limit. |
| Bytes.CoerceIsIdentityIffValid | internal/runnerproto/frames.go:188-200 | A JSON string carries a text unharmed exactly if the text is valid UTF-8. |
| Bytes.Base64RoundTrip | internal/runnerproto/frames.go:306-344 | Base64 decoding undoes encoding for every byte sequence. |
| Frames.ChunkSurvives | internal/runnerproto/frames.go:306-344 | Every chunk comes back from its frame as it was, after the JSON text has been transmitted. |
| Frames.PlainSurvivesIffValid | internal/runnerproto/frames.go:302-311 | Without base64 a chunk would survive exactly if the rule sends it without base64. |
| Frames.SplitIO | internal/runnerproto/frames.go:318-333 | The frames carry consecutive chunks of at most 64 KiB that together are the data, none of them empty, and no more of them than needed. |
| Frames.ChunksFitALine | internal/runnerproto/frames.go:53-64 | The line of every such frame is about half the line limit at most, whatever the escaping. |
| Json.StringRoundTrip | internal/runnerproto/codec.go:41-51 | A JSON string, as the encoder escapes it, reads back as its text with every malformed byte replaced by U+FFFD, whatever follows its closing quote. |
| Json.IoLineRoundTrip | internal/runnerproto/frames.go:188-200 | The line of an io frame, byte for byte, reads back as the frame that arrives. |
| Json.IoLineShape | internal/runnerproto/codec.go:45-51 | It has the length counted against the line limit, and no raw line break in it. |
| Json.PartOfALine | internal/runnerproto/codec.go:85-97 | No proper prefix of such a line reads as an io frame. |
| JsonTrace.StartLineRoundTrip | internal/runnerproto/frames.go:171-182 | The line of a command's start, byte for byte, reads back as its number, its arguments with malformed bytes replaced, and its source line; no proper prefix of it reads as one. |
| JsonTrace.StartLineLength | internal/runnerproto/frames.go:171-182 | Each byte of an argument takes at least one byte of the line and at most six. |
| Wire.Validate | internal/runnerproto/frames.go:253-290 | An envelope is well formed exactly if its only payload is the one its known tag names. |
| Wire.Encoder.Encode | internal/runnerproto/codec.go:41-64 | A frame is appended to the stream as one whole line. |
| Wire.Decoder.Decode | internal/runnerproto/codec.go:85-97 | The loop over lines returns the next frame, the end, or a failure, skipping blank lines and nothing else. |
| Wire.Decoder.DecodeHello | internal/runnerproto/codec.go:104-124 | The handshake read skips whatever is no frame, and tells a closed stream from a refusal. |
| Wire.OneLine | internal/runnerproto/codec.go:85-124 | What one line, less a carriage return at its end, is to the two readers: a blank one is passed over by both; noise ends the stream of frames and is skipped by the handshake; a frame is delivered, but refused by the handshake unless it is a hello. |
| Wire.LastGreeting | internal/runnerproto/codec.go:104-124 | In a stream that ends without a newline the handshake finds a hello or a closed stream, never a refusal. |
| Wire.NoiseEndsTheStream | internal/runnerproto/codec.go:85-97 | Noise behind any number of frames: those frames are read as they arrive, and then the reading fails, whatever follows. |
| Wire.HelloAfterNoise | internal/runnerproto/codec.go:98-124 | Any number of lines that are no frames before the hello do not keep it from being read. |
| Wire.StreamRoundTrip | internal/runnerproto/codec.go:41-97 | Reading a whole stream gives back exactly the frames written, as they arrive, and then its end; or those before the first line over the limit, and then a failure. |
| Wire.CutStream | internal/runnerproto/codec.go:85-155 | A stream cut after any number of bytes reads as the frames whose objects are complete, up to the first line over the limit; then as malformed exactly if the cut falls inside an object or behind the start of such a line, else as closed. |
| Wire.IoWriter.Write | cmd/shellkit-runner/run.go:476-485 | The lock is held for a frame at a time: whatever other writers get in between its chunks, a write sends all its chunks in order and keeps the chunking of everything written before. |
| Wire.ChunkCarries | internal/runnerproto/frames.go:306-311 | Written as JSON, every chunk's frame of stdout and stderr fits a line and comes back unchanged. |
| Wire.StartIsOver | cmd/shellkit-runner/trace.go:64-73 | The line of a command's start is over the limit if the bytes of its arguments and the envelope reach it, and under it if six times those bytes and the envelope stay below. |
| EndToEnd.OutputSurvives | internal/rundaemon/client.go:413-436 | For every step, however writes to the two descriptors interleave and whatever bytes they carry: the outcome is the result's, with stdout and stderr the concatenations of what was written to each, trace and outputs, if and only if no line is over the limit; otherwise exit -1 with a protocol error, and all these are those of the frames before the first such line. |
| EndToEnd.CutLosesOnlyATail | internal/rundaemon/client.go:395-436 | Cut after any byte: the outcome holds what the frames that came through whole carry, so that stdout and stderr are prefixes of what was written; it is the result's exactly if no line is over the limit and at most the last newline is lost, else a wire cut, or a protocol error exactly if the reader met an over-long line or the cut falls inside an object. |
| Writers.RunsSendStepFrames | cmd/shellkit-runner/run.go:476-485 | In every interleaving of writes to the two descriptors with each other and with the tracer, one frame at a time, the frames on the stream are trace and output frames and, for each descriptor, the chunks of what has landed, in order. |
| Writers.LandedIsWritten | cmd/shellkit-runner/run.go:467-485 | What has landed on a descriptor is, byte for byte, what it was asked to write but for what unfinished writes have yet to send; and in the very order of the writes if no two writes to it overlapped. |
| Writers.WritesReachTheOutcome | internal/rundaemon/client.go:413-436 | From concurrent writers to the outcome, for every run: exit, the bytes that landed, hence the concatenations of non-overlapping writes, and a well-paired trace arrive if and only if no line is over the limit; otherwise a protocol error with what came before the first such line, prefixes of what landed. |
| Writers.LongArgumentLosesOutput | cmd/shellkit-runner/trace.go:116-126 | That happens: a run of `echo` with any argument of at least the line limit writes all of its output, and every outcome a client can make of it is a protocol error without output. |
| Outputs.SafeTruncate | cmd/shellkit-runner/run.go:213-224 | The loop returns the longest prefix within the limit that splits no character (with the next row). |
| Outputs.TruncatedIsBoundaryPrefix | cmd/shellkit-runner/run.go:209-224 | Truncation keeps a prefix within the limit that ends at a character boundary, and the longest such. |
| Outputs.CapOutputs | cmd/shellkit-runner/run.go:163-207 | Every key is kept, and every value is left alone or replaced as the budget left at its turn allows; exactly the values over their budget are reported. |
| Outputs.CutIsPrefix | cmd/shellkit-runner/run.go:186-200 | A replacement is within its budget, and the value itself or a prefix of it that splits no character, with or without the marker. |
| Outputs.CutIsLongest | cmd/shellkit-runner/run.go:186-200 | A value within its budget stays; of any other the longest part that splits no character is kept, with the marker behind it exactly if the budget has room for the marker. |
| Outputs.CutKeepsValid | cmd/shellkit-runner/run.go:209-224 | Valid UTF-8 stays valid. |
| Outputs.CappedTotals | cmd/shellkit-runner/run.go:143-150 | All replacement values together fit 128 KiB, and with the keys they exceed it by the keys at most. |
| Outputs.TrimsIffTooLarge | cmd/shellkit-runner/run.go:163-207 | Nothing is trimmed exactly if keys and values fit as they are. |
| Outputs.AggregateCappedIffKeysFit | cmd/shellkit-runner/run.go:172-174 | Keys and values together stay under the cap exactly if no key is reached with its own length over the budget. |
| Outputs.AggregateCappedByLengths | cmd/shellkit-runner/run.go:143-174 | By lengths alone: the flat cap holds if all keys and all values but the last fit it as they are; for valid values and keys of more than three bytes it holds if and only if they do. |
| Outputs.OneLongKeyBreaksTheFlatCap | cmd/shellkit-runner/run.go:172-174 | The flat cap announced there fails for one over-long key. |
| Outputs.OutputFitsALine | cmd/shellkit-runner/run.go:143-150 | With at most 20000 bytes of keys the output frame fits one line under the worst escaping. |
| Tracing.Collector.HandleTrace | internal/rundaemon/client.go:468-497 | The trace is the sequence of lines that the frames open, each filled in by the ends that belong to it; the index knows the latest start of every number. |
| Tracing.TraceLength | internal/rundaemon/client.go:464-497 | Over arbitrary streams there is one line for every start and for every end without an earlier start of its number. |
| Tracing.LineByFrames | internal/rundaemon/client.go:464-497 | Over arbitrary streams, with numbers repeated as they may be: the line of a start has its command and the exit and duration of the latest end that belongs to it, which is one with no other start of the number in between; and none without such an end. |
| Tracing.LoneEndIsShown | internal/rundaemon/client.go:464-497 | An end whose start was never seen has a line of its own, with its exit and duration and no command. |
| Tracing.WordsJoin | internal/rundaemon/client.go:471-471 | The command of a line has one space between any two arguments and none elsewhere. |
| Tracing.Demultiplexed | internal/rundaemon/client.go:464-497 | In a well-paired stream line i is the i-th start to arrive, and carries its own command's duration and exit, or none if no end came. |
| Tracing.TracerPairs | cmd/shellkit-runner/trace.go:44-87 | However the commands of a step interleave, the frames they emit are well paired: distinct starts, and every end after its start and only once. |
| Tracing.StepTraceDemultiplexed | cmd/shellkit-runner/trace.go:44-126 | From the runner's counter to the client's lines: the trace of any step is demultiplexed. |
| EditDistance.EditDistance | cmd/shellkit/main.go:105-124 | The two swapped rows compute the recursive Levenshtein distance. |
| EditDistance.DistIsLeastCost | cmd/shellkit/main.go:104-124 | That distance is the least cost over all scripts of insertions, deletions and substitutions, and is attained. |
| EditDistance.Symmetric | cmd/shellkit/main.go:104-124 | The distance is symmetric. |
| EditDistance.ZeroIffEqual | cmd/shellkit/main.go:104-124 | It is zero exactly for equal strings. |
| EditDistance.Triangle | cmd/shellkit/main.go:104-124 | It satisfies the triangle inequality, by merging two edit scripts. |
| EditDistance.Nearest | cmd/shellkit/main.go:85-102 | The first candidate at the least distance, if that is within a third of the input and at least one; otherwise the empty string, and then every candidate is too far. |
| RateLimit.HostRateLimiter.Prune | internal/sshconn/ratelimit.go:66-81 | The loop drops exactly the leading records before the window, and the host when none is left. |
| RateLimit.HostRateLimiter.Take | internal/sshconn/ratelimit.go:87-101 | One turn under the lock is the turn of the specification; a refused one names the time at which the oldest record leaves the window. |
| RateLimit.HostRateLimiter.Acquire | internal/sshconn/ratelimit.go:85-115 | Whatever turns other callers take before each of its own, a caller is granted at its first turn that is not refused, adds its turns to the run and nothing else, and gives up only where its context has ended before the wait was over. |
| RateLimit.AtMostLimitPerWindow | internal/sshconn/ratelimit.go:13-19 | Over every run of concurrent callers with a clock that does not go back, every closed interval of one window holds at most the limit of grants. |
| RateLimit.RecordsAreRecentGrants | internal/sshconn/ratelimit.go:65-81 | The records are sorted, no longer than the limit, the latest grants, and forget none of the last window. |
| RateLimit.RefusedIffWindowFull | internal/sshconn/ratelimit.go:91-101 | A turn is refused if and only if the window that ends with it already holds the limit of grants. |
| RateLimit.SlotFreesAfterOldest | internal/sshconn/ratelimit.go:97-106 | After a refusal the next turn is granted if and only if it comes later than the oldest record plus the window; at that very instant it is refused once more. |
| TraceLines.ExtractTrace | internal/mcp/mcp_exec.go:152-185 | The loop keeps the clean lines and collects the fires of every line of the text. |
| TraceLines.EventEmitter.Write | internal/mcp/events.go:360-379 | However the input is cut into writes, the events so far are those of its complete lines, and the rest is buffered. |
| TraceLines.EventEmitter.Flush | internal/mcp/events.go:383-393 | After the flush the events are those of all lines, the unfinished one included. |
| TraceLines.StreamingEqualsBatch | internal/mcp/events.go:395-467 | While no line is the output marker the live reader prints the batch reader's lines, but for a last empty one, and executes the same commands if and only if no line number is negative. |
| TraceLines.TrapLineRoundTrip | internal/mcp/mcp_exec.go:127-150 | What the trap prints comes back: for every command text the seconds, the line number and the whole command; or, where the second word is no number, everything behind the first as the command. |
| TraceLines.MarkedLine | internal/mcp/mcp_exec.go:152-185 | Output that does not end its line before a trap fires is kept, and the command behind the marker is read. |
| TraceLines.UnmarkedLine | internal/mcp/mcp_exec.go:152-185 | A line without the marker is output as it is, and one with a bare marker is output up to it. |
| TraceLines.NegativeLineNumberDiffers | internal/mcp/events.go:395-467 | For any trap line with a negative number, as `3 -7 ls` (`TraceLines.ParsesNegative`), the batch reader keeps the number and the live event does not. |
| TraceLines.NothingPastTheMarker | internal/mcp/events.go:399-402 | From the output marker on nothing is emitted. |
| Wrapped.ParsesPostscript | internal/mcp/mcp_exec.go:1007-1035 | Parsing undoes the wrapper's postscript for all texts in which the nonce does not occur, trimming the two files. |
| Wrapped.WrappedRoundTrip | internal/mcp/mcp_exec.go:977-1035 | Extracting the trace and parsing the rest of a wrapped output gives back stdout to the byte, the trap fires in order, and the two files trimmed. |
| Wrapped.TracedRunComesBack | internal/mcp/mcp_exec.go:977-1035 | From what the trap prints for each command to the trace read back: seconds, line number and command of every one, in order, with stdout to the byte. |
| Wrapped.ReadBack | internal/mcp/mcp_exec.go:508-514 | The two calls as the caller makes them return what was wrapped, whatever that was. |
| Wrapped.WithoutStderr | internal/mcp/mcp_exec.go:1007-1035 | Where the second marker is missing, everything behind the first is the outputs; without the first (`Wrapped.WithoutMarkers`) everything is stdout. |
| Wrapped.LiveReadsTheWire | internal/mcp/events.go:395-467 | On the same bytes the live reader shows exactly the script's own lines and its commands, and nothing of the postscript. |
| Live.ActiveCall.Apply | internal/dashboard/log_dashboard_live.go:387-480 | One event: the whole new state, in which what control events determine has moved as the control machine does, or stayed for output. |
| Live.ActiveCall.WfExecuting | internal/dashboard/log_dashboard_live.go:575-623 | A fired command is added to the line of its number, else to the current or the first that runs, and closes the command and the line before it; time stamps follow. |
| LiveView.FiresWhereItBelongs | internal/dashboard/log_dashboard_live.go:575-623 | By line numbers: a command that fires is added to the first line with its number; where no line has it, to the line at the position, or before any to the first that is not skipped. No other line changes, but the one left behind is done; and where there is no such line nothing changes. |
| LiveView.FiredIsShown | internal/dashboard/log_dashboard_live.go:575-623 | The same of the full view: that line starts if it had not, its last command ends as the new one begins, the line left behind ends with its last command, the step is stamped, and nothing else changes. |
| Live.ActiveCall.WfStepEnd | internal/dashboard/log_dashboard_live.go:542-572 | The last line of an ended step is closed at the time the duration, the latest event or its start gives. |
| LiveView.EndIsShown | internal/dashboard/log_dashboard_live.go:542-572 | A step's end closes the line at the position and its last open command, at the first instant plus the duration if both are known, else at the latest instant, else when the line began; nothing else changes. |
| Live.ActiveCall.WfOutput | internal/dashboard/log_dashboard_live.go:626-651 | Output goes to the current line, or to the first that runs, up to 200 lines, and may start it. |
| LiveView.OutputIsShown | internal/dashboard/log_dashboard_live.go:626-651 | Output is added to the line at the position, or before any to the first that is not skipped, up to 200 pieces, and starts it; the step is stamped, and no other line changes. |
| LiveView.StartIsShown | internal/dashboard/log_dashboard_live.go:516-539 | A step starts under the names its event gives it, if any; the line at its predecessor's position is marked done if the predecessor has ended; nothing else changes. |
| LiveView.CallStartIsShown | internal/dashboard/log_dashboard_live.go:485-514 | A call's start lays out its steps as announced, with the lines the parser found for each, all of them untouched. |
| Live.TailIsLatest | internal/dashboard/log_dashboard_live.go:666-671 | Cutting the tail at every line keeps the same 500 lines as cutting it once. |
| LiveView.LatestKept | internal/dashboard/log_dashboard_live.go:666-671 | The tail holds the latest 500 lines in order, or all of them where it is not limited. |
| LiveView.TailShows | internal/dashboard/log_dashboard_live.go:446-478 | A fired command and a line of output have one line in the tail with their own stream, text, step, host and time; no other event has any. |
| Live.FireRefines | internal/dashboard/log_dashboard_live.go:575-623 | A fired command refines the control machine: the same line, its commands, and the line left behind done; positions stay in range. |
| Live.EndRefines | internal/dashboard/log_dashboard_live.go:542-572 | So does the end of a step. |
| Live.OutputRefines | internal/dashboard/log_dashboard_live.go:626-651 | Output changes nothing that control events determine. |
| Live.WfRefines | internal/dashboard/log_dashboard_live.go:387-480 | Every event keeps the positions in range and moves the machine's part of the view as the machine. |
| Live.LoadStaticWaterfall | internal/dashboard/log_dashboard_waterfall.go:556-580 | A replay of the file through the same reducer ends in the control state of its events. |
| Live.OnlyControlMatters | internal/dashboard/log_dashboard_live.go:101-111 | The control state after any events is that after the control events among them. |
| Live.LiveAgreesWithReplay | internal/dashboard/log_dashboard_live.go:101-111 | Whatever output events were dropped, the live view and a full replay agree on step states, the executing command, the position, and every line's commands and whether it is done. |
| LiveView.StepsByEvents | internal/dashboard/log_dashboard_live.go:387-436 | By the events alone: a step has started or ended exactly if such an event of it came since the call started, with the exit and duration of the latest end and the latest name it was given, and so in the list of steps and in the waterfall alike. |
| LiveView.StatusesAreHeads | internal/dashboard/log_dashboard_live.go:387-436 | After any events the list of steps and the waterfall agree on every field of every step. |
| LiveView.CurrentByEvents | internal/dashboard/log_dashboard_live.go:412-431 | The current step is the one that started last since the call did. |
| LiveView.RunningByEvents | internal/dashboard/log_dashboard_live.go:412-446 | What is shown as running is the command that fired last, unless a step has started since. |
| LiveView.EndingByEvents | internal/dashboard/log_dashboard_live.go:442-445 | A call is over exactly if an end of it came, with the status of the latest. |
| LiveView.LeftLinesAreDone | internal/dashboard/log_dashboard_live.go:575-623 | Whatever the events, a line with commands on which its step does not stand is done. |
| Watcher.LiveWatcher.ScanFile | internal/dashboard/log_dashboard_live.go:272-341 | A scan reads a file from where the last one stopped to its end, and keeps the accounts of what was sent, dropped and read. |
| Watcher.LiveWatcher.Deliver | internal/dashboard/log_dashboard_live.go:319-332 | Output, and an event of no known kind, is dropped exactly if the channel has no room; every other event is sent. |
| Watcher.ExactlyOnce | internal/dashboard/log_dashboard_live.go:319-332 | Of a file that neither vanished nor shrank the control events sent are exactly those read so far, in order and once each; what was sent is what was read without some output, and the drop counter makes up the difference. |
| Watcher.TailedViewAgreesWithReplay | internal/dashboard/log_dashboard_live.go:272-341 | So a view fed by the channel and a replay of the file show the same control state. |
| History.TransitionEntry | internal/dashboard/log_dashboard.go:359-380 | The entry made of a live call, with its results and its error. |
| History.ReplayToCallEntry | internal/dashboard/log_dashboard.go:1370-1433 | The scan's loop computes the fold of the entry over the control events, and its entry is real exactly if it has a start time. |
| History.HistoriesAgree | internal/dashboard/log_dashboard.go:341-386 | For a call that ends once with a positive duration, the live history and the scanned one agree if and only if no step is renamed for good after the start and the start is stamped. |
| History.BothEntries | internal/dashboard/log_dashboard.go:341-386 | Field by field, what both entries of such a call hold: the start's session, input and steps, the time, the duration, the error that the end names or else its status unless that is ok, and for every step the exit of its latest end. |
| History.RenamedStepDiffers | internal/dashboard/log_dashboard.go:1395-1415 | That happens: on a call whose step is renamed when it starts, the two histories differ. |
| ListModel.Model.ApplyLiveEvent | internal/dashboard/log_dashboard.go:341-355 | An event updates its own call only; an end moves the call to the front of the finished ones; cached cells stay right, ids stay distinct if and only if the call had not ended before; every call in flight stays what its events since its last end make it, and every finished one what its events up to that end made it. |
| ListModel.DrawnByEvents | internal/dashboard/log_dashboard.go:1070-1104 | What is drawn, by the events alone: a call that has ended as its finished entry, and with the live mark exactly if an event came after its last end; any other call in flight with its running time. |
| ListModel.ListAgreesWithFile | internal/dashboard/log_dashboard.go:341-386 | From the events to the list: the call that has just ended is in front, and its entry is the one that a scan of its event file finds, if and only if no step was renamed for good and the start is stamped. |
| ListModel.MergedHolds | internal/dashboard/log_dashboard.go:1089-1104 | The merged list has in front, in the order of arrival, every call in flight that is not finished, with its running time, and then the finished ones as they are. |
| ListModel.LookupIsFirst | internal/dashboard/log_dashboard.go:1217-1230 | A search finds an entry exactly if one has the id, and the first of those. |
| ListModel.MergedDistinct | internal/dashboard/log_dashboard.go:1089-1104 | The merged list repeats no id exactly if the finished calls do not. |
| ListModel.Model.RebuildFiltered | internal/dashboard/log_dashboard.go:1077-1147 | The list is the calls in flight and the finished ones; what is shown are exactly those that match the query, in order; the cursor is in range, stays at the newest, and otherwise stays with its call while that is listed. |
| ListModel.Model.RenderCell | internal/dashboard/log_dashboard.go:1199-1212 | Hit or miss, the cell's left column is what a fresh build at the current version, width and live state would draw, but for the running time of a live call on a hit, which is that of an earlier merge; on a miss, and for finished calls, it is exact. |
| ListModel.Model.CacheLRUMark | internal/dashboard/log_dashboard.go:1292-1304 | The id moves to the end of the list of candidates, which loses no other, and the list is marked for eviction when it is over the cap. |
| ListModel.CacheStore | internal/dashboard/log_dashboard.go:1207-1211 | Storing a cell that is right keeps every cell right and every cached id among the candidates, none of which repeats. |
| ListModel.Model.CacheEvict | internal/dashboard/log_dashboard.go:1309-1316 | The pass drops the oldest candidates, as many as it takes. |
| ListModel.EvictedKeeps | internal/dashboard/log_dashboard.go:1306-1316 | It ends with at most 200 cells, all of them right and among the candidates. |
| ListModel.EvictsTheOldest | internal/dashboard/log_dashboard.go:1306-1316 | What goes is a front part of the candidates with their cells and no others: none if the cap is met, and else no more than to meet it. |
| ListModel.Model.HandleLive | internal/dashboard/log_dashboard.go:272-289 | A burst of events keeps all of this: the list shows exactly the calls that match, everything drawn is right in that sense, calls in flight and finished are what their events made them, and the cache ends within its cap. |
| Operators.SplitOperators | internal/dashboard/log_dashboard_waterfall.go:341-480 | The loop terminates and yields the operands of the line as tokens determine them. |
| Operators.SplitsAtOpenOperator | internal/dashboard/log_dashboard_waterfall.go:369-465 | Reading on from any position and state, the first split is at an operator outside every quote and group, or at the end of the line. |
| Operators.NoneEarlier | internal/dashboard/log_dashboard_waterfall.go:369-465 | No token before that is an operator. |
| Operators.OperatorsAre | internal/dashboard/log_dashboard_waterfall.go:426-465 | By characters, which texts are operators and how long they are: the three doubled signs, a single pipe and a semicolon, outside quotes and groups; nothing else is, and inside them nothing is. |
| Operators.GroupsHideOperators | internal/dashboard/log_dashboard_waterfall.go:369-425 | Quotes and groups, nested as deep as may be, hide the operators in them (with `CalmIsHidden`, `EscapesHide` and `HiddenJoin`): the line is not split before they close. |
| Operators.HiddenInOperand | internal/dashboard/log_dashboard_waterfall.go:369-465 | The first operand of a line that starts with such text goes on behind it. |
| Operators.OperandAt | internal/dashboard/log_dashboard_waterfall.go:341-480 | Every operand is a stretch of the line, trimmed, right behind its operator; it ends at the next operator outside every quote and group, or at the end of the line exactly if it is the last. |
| Operators.Conserved | internal/dashboard/log_dashboard_waterfall.go:341-480 | Operators and commands joined give the line back, up to white space. |
| Operators.TrimIs | internal/dashboard/log_dashboard_waterfall.go:341-352 | Trimming takes white space off both ends and nothing else, and leaves none there. |
| Operators.OperandsAreSingle | internal/dashboard/log_dashboard_waterfall.go:334-340 | Splitting a command of the result again leaves it in one piece. |

## Left out

- The other detectors of the gap screen (flags of single commands, traps, `exec`, `IFS`, `select`, process parameters): table lookups on one node.
- The text of reasons, notes and error messages, and the live progress summary.
- Bootstrap, uploads, inventory and ssh configuration: foreign I/O; the routing takes their verdicts as parameters.
- The body of a step: running it is one move of the step goroutine, whatever it does.
- Partial writes of a single line by the encoder, other than as a cut of the stream.
- Startup of the watcher: which files it takes for completed and skips to their end.
- An event line of more than 4 MiB, at which a scan of its file stops.
- Interrupted calls, which are moved to the history when their daemon's process is gone.
- The right column of the render cache, which the detail view's zoom does not invalidate; viewports, keys and styles.
- Parsing of source lines, heredocs and step headings into script bodies.
- ListModel.Model.ApplyLiveEvent: keeps calls as values instead of pointers to the reducer's objects, whose state Live.ActiveCall tracks; calls found on disk at the start are left out.
- Client.RunStep: does not model the elapsed time of a command's start, because it is wall-clock time.
