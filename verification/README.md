# Verified model of the Agda MCP server core

The server keeps one `agda --interaction-json` child process and shares it between concurrent tool
calls. This project models the parts of the server where that sharing, and the editing of source
files, can go wrong, and proves what they promise. Properties are stated for every input, every run
and every interleaving of the model.

Four cores are modelled.

* **Session and transport protocol.** The promise queue with its serials and sweeps, the version
  probe, response collection with its idle and trailing timers, the silence watchdog, the control
  command's escalation timer, respawn, detach and destroy are one step function `SessionModel.Next`
  over an event type. Loads are segments between their awaits, with any number of loads interleaving;
  `Composed` joins both machines into one run, in which a load continues when the task it awaits has
  settled. The trailing finish of `onDone` is scheduled for every `done` event, and each scheduled
  finish is a timer of its own. The classes `AgdaTransport`, `AgdaSession` and `LoadSession` have
  the source's fields; each method is proved to take the corresponding step of the model. `Kills` and
  `Reactions` state what each event makes happen: which signal must be sent, what is collected, how an
  operation ends, what a body writes.
* **Hole scanner and source edits.** Text is a sequence of UTF-16 code units, lone surrogates
  included. The scanner with its cursor, nested comments, literals, nested holes and rewind is proved
  equal to a definition by outermost lexical candidates; the batch applicator is proved equal to a
  simultaneous substitution.
* **Algorithms with an independent definition.** Capped edit distance against edit scripts, the
  breadth-first closure against walks, escaping against a reader, arrow splitting against a type
  syntax tree, literate extraction against slices of the file, text edits against match windows.
* **The action recorder.** Drain and commit under the capture flag, with a conservation law.

Where the code does not meet its own description, the model follows the code. A lemma shows the case,
and another one says exactly when it arises.

* A trailing finish that outlives its command deafens a later one, whose healthy process can then be
  killed. Short of a close, a command stays heard exactly when no finish is scheduled as it starts
  (`StartsHeardExactly`), and one is left behind exactly by a second `done` before the first finish
  runs or by a rejection after a `done` (`LeavesAFinishExactly`). The first happens when a process
  closes after an idle completion (`StaleFinishDeafens`), the second when a control command arrives
  after one (`AbortedFinishDeafens`). Both delays are the constant 0, so the later command has to start
  in the microtasks in front of the timer; in both runs nothing else happens there.
* The cancel check at body entry is not repeated after the version probe:
  `UserCommandIsWrittenExactly` lists the four checks that are made, and `GapIsNotCovered` shows that a
  control command changes none of them. The gap is as wide as the microtasks between the two.
* Stdout cut in two while only an escalation is armed can lose what stands in front of the echo
  (`CutsMatterWhileIdle`, `CutsAgreeExactly`).
* A load whose file pointer is reset between the end of its reconciliation and its own continuation
  still reports success (`GapLosesTheFile`, `SuccessHasItsFileExactly`), and after a load has thrown the
  verdict of one that was in flight when it began can appear (`AVerdictOfAnEarlierLoadCanAppearLater`,
  `EarlierVerdictExactly`; `OldVerdictIffOneIsInFlight` has the condition at the moment it begins).
* A load whose process dies after `InteractionPoints` can be reported complete, strict loads included,
  although both announce to fail loudly then. `FalseSuccessExactly` has the condition for each kind.
  - A strict load makes no query behind its command: it is reported successful whenever what came
    before the close names no goal and no complaint and the source shows no hole
    (`TruncatedStrictLoadSucceeds`, with no other load and no control command).
  - For a plain load each reconciliation has to find the load's path current. Either another load of the
    same path has set it meanwhile (`TruncatedLoadCanSucceed`: a reload queued behind it, which even
    fails), or the metas query was rejected at entry (`RefusedQueryCanSucceed`). The second is a run of
    the model that is not known to be reachable in the source: it takes a control command in the
    microtasks between the load's continuation and the next body, or destroy in those just before it,
    and the source runs nothing of its own there.
* A character literal that holds a line break is not counted in line numbers
  (`LinesAreRightUnlessSwallowed`), and a lone low surrogate in front of `?` is overlooked
  (`QuestionMarksStandAlone`).
* A batch and a single edit use the last and the first index of a repeated goal id (`TargetsAgree`).
* The result type is read off correctly exactly when fewer than 100 results are parenthesised
  (`ResultTypeIsTheFinalAtom`).
* Behind an RST block indented prose is extracted without any `::` (`ProseAfterABlockIsTaken`,
  `ProseIsTakenExactly`).
* A text edit can leave a bare newline in a file that had none: by tearing a CRLF pair apart, or in a
  file without CRLF (`EditsLeaveNoBareLf`). It accepts an overlapped occurrence as unique
  (`OverlapsAreNotCounted`, `OnlyOccurrence`).
* Import edges depend on the order of the directory walk exactly when an imported module name is
  declared twice (`OrderIsIrrelevantExactly`).
* The closure hash does not tell a large file from one that spells out its placeholder, and a NUL byte
  in a content can pass for the end of a file (`CollisionsWithoutTheProvisos`). Without NUL bytes the
  first is the only way for two closures to encode alike (`EncodeAlikeExactly`).

Files: `Wire` (decoded responses), `Transport`, `TransportProofs`, `Chunking`, `Session`,
`SessionProofs`, `SessionTheorems`, `Reactions`, `StaleFinishes`, `AgdaTransport`, `AgdaSession`, `LoadParsing`,
`Load`, `LoadTheorems`, `Composed`, `TruncatedLoad`, `GoalScan`, `SourceEdits`, `TextEdit`,
`EditDistance`, `ImportGraph`, `Escape`, `Arrows`, `Recorder`, `Literate`.

## Model

| member | source | states |
|---|---|---|
| SessionTheorems.OneOperationAtATime | src/agda/session-command-dispatch.ts:53-94 | in every run at most one probe, user command or control write is in progress |
| SessionTheorems.WritesInQueueOrder | src/agda/session-command-dispatch.ts:89-92 | operations start, and write to stdin, in the order their calls were enqueued |
| SessionTheorems.ResultsAreSlices | src/session/agda-transport.ts:263-274 | each delivered result is exactly the responses accepted between that operation's start and its settling, in arrival order |
| SessionTheorems.NothingAfterDestroy | src/agda/session-process-lifecycle.ts:195-227 | after destroy, whatever follows, no process is spawned and nothing is written |
| SessionTheorems.SignalsOfAStep | src/agda/agda-process-spawn.ts:49-70 | the only steps that signal, and for each the cause that must hold at that moment |
| SessionTheorems.EveryKillHasACause | src/session/agda-transport.ts:212-230 | over every run each signal is justified: silence of the full timeout, an escalation with no echo since it was armed, destroy, or the grace timer after an earlier SIGTERM; a respawn signals nobody |
| SessionTheorems.CancellationIsExact | src/agda/session-command-dispatch.ts:53-59 | a queued command is rejected as cancelled exactly when a control command was issued between its enqueue and its start |
| SessionTheorems.StoppedCommandsDoNotWrite | src/agda/agda-version-detection.ts:109-122 | a command that is cancelled, or interrupted during its probe, never writes its user command |
| SessionTheorems.ControlInterrupts | src/agda/session-command-dispatch.ts:137-148 | a control command settles every listening operation at once, sweeps the queue and arms its escalation exactly as described |
| SessionTheorems.UserCommandIsWrittenExactly | src/agda/session-command-dispatch.ts:66-77 | a step writes a user command exactly if it runs that command's task behind its probe, not interrupted, on a live session, with the process and the file it saw at entry |
| SessionTheorems.GapIsNotCovered | src/agda/session-command-dispatch.ts:66-77 | a control command issued after the probe has answered changes none of these checks, and the command is written |
| SessionTheorems.SweepsAccumulate | src/agda/session-command-dispatch.ts:142-144 | over every run serials only grow and no cancellation is taken back |
| SessionTheorems.IdleLoadsHaveTheirTerminus | src/session/command-completion.ts:99-116 | a load's delivered result holds its goal terminus unless the process closed |
| SessionTheorems.RunsEvolve | src/session/agda-transport.ts:286-297 | a settled promise keeps its outcome through every later event |
| Kills.UnansweredControlKills | src/session/agda-transport.ts:212-223 | over every run, an escalation timer that is due sends exactly one SIGTERM to the live process its flush was written to, starts its SIGKILL timer and disarms itself; before five seconds it does nothing |
| Kills.SilentCommandKills | src/session/agda-transport.ts:299-321 | over every run, the watchdog of a command for which nothing was accepted in its whole time-out rejects it and terminates its process; before that it does nothing |
| Kills.DestroyKills | src/agda/session-process-lifecycle.ts:195-227 | over every run, the first destroy terminates and abandons the session's process, and any later one changes nothing |
| Kills.GraceForces | src/agda/agda-process-spawn.ts:63-69 | over every run, a due SIGKILL timer kills a process that has not exited and is used up |
| Kills.EveryTermIsFollowedUp | src/agda/agda-process-spawn.ts:46-70 | in every run each process that got a SIGTERM has exited, was killed by force, or has a SIGKILL timer due within three seconds |
| Reactions.WedgedProcessesAreKilled | src/session/agda-transport.ts:198-230 | an exit, or an abort that interrupted something, is enforced: unless an echo, a close, a destroy or a newer flush comes first, the timer finds its escalation armed and terminates the process the flush was written to |
| Reactions.EscalationStep | src/session/agda-transport.ts:209-229 | these events end an armed escalation, and no other does |
| Reactions.ArmedUntilDisarmed | src/session/agda-transport.ts:209-229 | so along any run an escalation is still armed exactly if none of them has come |
| Reactions.ChunksAreCollected | src/session/agda-transport.ts:70-89 | over every run, a chunk is dropped exactly if its process is abandoned or nothing is collecting or armed; otherwise the responses on its lines are parsed, the pending operation collects them, a regular one without echoes, and idle completion is enabled exactly if a load among them has its terminus |
| Reactions.StderrIsCollected | src/session/agda-transport.ts:91-103 | the same for stderr, one response a chunk, while a command is collecting |
| Reactions.OnlyStreamsAreLogged | src/session/agda-transport.ts:388-436 | no other event adds to what was parsed or accepted |
| Reactions.OperationsEndExactly | src/session/agda-transport.ts:286-346 | over every run, how each pending operation goes on at each event: resolved with what was accepted since it started, rejected with which reason, or still pending; a flush is never rejected |
| Reactions.BodyOfACommand | src/agda/session-command-dispatch.ts:55-72 | a command body is refused exactly on a destroyed session or behind a control command; otherwise it keeps a running process or spawns one that knows no file and no version, and probes exactly while the version is unknown after fewer than three attempts |
| Reactions.BodyOfAControl | src/agda/session-command-dispatch.ts:150-158 | a control body writes its flush to that process and arms its escalation exactly for an exit or an interruption |
| Reactions.BehindTheProbe | src/agda/session-command-dispatch.ts:64-80 | which refusal follows the probe, and otherwise the command exactly as it is written |
| Reactions.CallsAnswerTheirOperations | src/agda/session-command-dispatch.ts:77-88 | a call settles with the outcome of its operation, and what it leaves on file and version |
| Reactions.RunsWhenItCan | src/agda/session-command-dispatch.ts:89-92 | a queued task can run exactly once the one in front has settled, an active one once its operation has |
| Reactions.CallsAreQueued | src/agda/session-command-dispatch.ts:53-55 | calls join the end of the queue with the next serial, or knowing whether anything was pending |
| Reactions.ProcessesEnd | src/agda/session-process-lifecycle.ts:170-180 | an exit is only noted; a close drops the SIGKILL timers, stops an attached collection, and makes the session forget its own process |
| StaleFinishes.FinishesStep | src/session/agda-transport.ts:323-340 | in every step scheduled finishes grow by one per `done` a pending command hears, shrink by one when one runs, and are otherwise untouched |
| StaleFinishes.HeardExactlyUnlessStale | src/session/agda-transport.ts:286-297 | a command that is heard stays heard while it is pending, in every run without a close, exactly if no finish of another operation is scheduled |
| StaleFinishes.StartsHeardExactly | src/session/agda-transport.ts:254-274 | so every command that starts stays heard exactly if no finish at all is scheduled at that moment |
| StaleFinishes.HeardOrFinishing | src/session/agda-transport.ts:105-109 | with closes allowed, a probe or user command is heard or its own finish is scheduled |
| StaleFinishes.FinishesAreDones | src/session/agda-transport.ts:323-340 | a pending command has one finish scheduled for each `done` since it started |
| StaleFinishes.LeavesAFinishExactly | src/session/agda-transport.ts:286-346 | a settled command leaves a finish behind exactly if a second `done` came before its own finish, or something else settled it after a `done` |
| StaleFinishes.DeafExactlyIfDisturbed | src/session/agda-transport.ts:286-297 | along a run a pending command goes deaf exactly at a finish not its own or at a close |
| StaleFinishes.StaleFinishDeafens | src/session/agda-transport.ts:330-339 | a concrete run: two finishes of a command whose process closed, only task bodies between them; the second one deafens the next command until its healthy process is killed |
| StaleFinishes.AbortedFinishDeafens | src/session/agda-transport.ts:146-153 | another run, with one process that stays alive and one `done`: the finish of a command rejected by an abort deafens the flush |
| SessionProofs.NextKeeps | src/agda/session-command-dispatch.ts:40-161 | the invariant of the whole session is kept by every event |
| SessionProofs.RunKeeps | src/agda/session-process-lifecycle.ts:110-148 | hence it holds in every run from a fresh session |
| Terminus.TracksAppend | src/session/goal-terminus.ts:31-44 | the tracker's flags say exactly what the recorded responses contain |
| Terminus.TerminusIsSpelled | src/session/goal-terminus.ts:31-52 | what a goal terminus is, response by response |
| Terminus.FatalStderrExactly | src/agda/protocol-errors.ts:4-18 | stderr is fatal exactly if, behind white space, it begins with one of the three phrases in any case, the last as a whole word |
| Terminus.GoalTerminusTracker.Record | src/session/goal-terminus.ts:31-44 | recording updates the flags by kind only |
| Terminus.GoalTerminusTracker.Reached | src/session/goal-terminus.ts:46-52 | Error, fatal stderr, or both goal events in either order |
| StdoutLines.LinesRebuild | src/session/agda-transport.ts:355-386 | lines and leftover together are the stream |
| StdoutLines.LinesAreLines | src/session/agda-transport.ts:355-386 | and none of them holds a newline, so they are the newline split |
| StdoutLines.LinesOfConcat | src/session/agda-transport.ts:355-386 | the lines of a longer stream continue those of its beginning |
| StdoutLines.PromptsAreStripped | src/session/stdout-line.ts:12-42 | behind either prompt and in any white space, a line stands for its text: JSON text for the response decoded from it, if any, other text for exactly one notice |
| StdoutLines.PromptsAloneAreDropped | src/session/stdout-line.ts:19-35 | a bare prompt and a blank line stand for nothing |
| StdoutLines.OtherLinesAreTexts | src/session/stdout-line.ts:23-42 | any other line stands for its text without margins |
| Chunking.ChunksAreTheirStream | src/session/agda-transport.ts:70-89 | while collecting, feeding chunks is feeding their concatenation |
| Chunking.ChunkingIndependence | src/session/agda-transport.ts:70-89 | two ways of cutting the same stream leave the same state, clock readings apart |
| Chunking.EscalatedChunks | src/session/agda-transport.ts:86 | while only an escalation is armed, the chunks have the effect of the text up to the chunk that completes an echo |
| Chunking.CutsAgreeExactly | src/session/agda-transport.ts:70-89 | so two cuts agree exactly when nothing is heard at all or these texts hold the same responses and leftover |
| Chunking.EarlyCutsAgree | src/session/agda-transport.ts:70-89 | as they do for one stream without an echo, or with the same text up to its chunk |
| Chunking.CutsMatterWhileIdle | src/session/agda-transport.ts:86 | two cuts that disagree |
| TransportProofs.HandleStdoutKeeps | src/session/agda-transport.ts:388-436 | collecting a chunk keeps results, stamps and deadlines consistent with the acceptance log |
| TransportProofs.EmitErrorKeeps | src/session/agda-transport.ts:146-153 | rejecting in flight settles every listener and keeps the rest |
| TransportProofs.DestroyKeeps | src/session/agda-transport.ts:118-131 | destroying the transport leaves no listener and keeps settled results |
| AgdaTransportClass.AgdaTransport.DrainBuffer | src/session/agda-transport.ts:355-386 | the drain loop records the lines of the buffer and keeps its tail |
| AgdaTransportClass.AgdaTransport.RecordCollectedResponse | src/session/agda-transport.ts:388-436 | echo clearing, gating, push, terminus and timers, in the model's terms |
| AgdaTransportClass.AgdaTransport.HandleStdoutChunk | src/session/agda-transport.ts:70-89 | collects while a command or an escalation is waiting, drops otherwise |
| AgdaTransportClass.AgdaTransport.HandleStderrChunk | src/session/agda-transport.ts:91-103 | collects only while a command is waiting |
| AgdaTransportClass.AgdaTransport.BumpIdleCompletionTimer | src/session/agda-transport.ts:469-486 | re-arms the idle timer only when completion on idle is allowed |
| AgdaTransportClass.AgdaTransport.SendCommand | src/session/agda-transport.ts:254-353 | starts a regular operation from a clean buffer and queue |
| AgdaTransportClass.AgdaTransport.SendFireAndForgetCommand | src/session/agda-transport.ts:163-252 | interrupts, starts the flush window and arms the escalation only on request |
| AgdaTransportClass.AgdaTransport.RejectInFlightCommand | src/session/agda-transport.ts:146-153 | answers whether anything listened, control flushes included |
| AgdaTransportClass.AgdaTransport.EmitDoneEvent | src/session/agda-transport.ts:323-340 | every done event schedules one more trailing finish for each listener |
| AgdaTransportClass.AgdaTransport.HandleProcessCloseEvent | src/session/agda-transport.ts:105-109 | closing stops collection and completes by process close |
| AgdaTransportClass.AgdaTransport.IdleTimerFired | src/session/agda-transport.ts:487-498 | the idle timer does nothing once collection has stopped |
| AgdaTransportClass.AgdaTransport.FinishTimerFired | src/session/agda-transport.ts:330-339 | a trailing finish stops collection even when its own promise has settled |
| AgdaTransportClass.AgdaTransport.SettleFlush | src/session/agda-transport.ts:233-240 | a flush resolves with what was collected, never rejects |
| AgdaTransportClass.AgdaTransport.InactivityFired | src/session/agda-transport.ts:299-311 | a time-out clears the buffer and rejects its operation |
| AgdaTransportClass.AgdaTransport.Destroy | src/session/agda-transport.ts:118-131 | resets every field and rejects what is in flight |
| AgdaSessionClass.AgdaSession.DispatchSessionCommand | src/agda/session-command-dispatch.ts:53-55 | takes the next serial and joins the queue |
| AgdaSessionClass.AgdaSession.DispatchSessionControlCommand | src/agda/session-command-dispatch.ts:128-161 | interrupt, sweep, gate, join the queue |
| AgdaSessionClass.AgdaSession.BeginUserTask | src/agda/session-command-dispatch.ts:55-72 | the checks at body entry, the process, the probe |
| AgdaSessionClass.AgdaSession.AfterProbe | src/agda/session-command-dispatch.ts:74-80 | what the probe swallows and re-throws, the survival checks, the write |
| AgdaSessionClass.AgdaSession.AfterCommand | src/agda/session-command-dispatch.ts:77-88 | file-bound state, piggybacked version, result |
| AgdaSessionClass.AgdaSession.BeginControlTask | src/agda/session-command-dispatch.ts:150-158 | the control body and its write |
| AgdaSessionClass.AgdaSession.AfterFlush | src/agda/session-command-dispatch.ts:150-160 | the control call settles with the flush |
| AgdaSessionClass.AgdaSession.EnsureProcessForSession | src/agda/session-process-lifecycle.ts:110-148 | keeps a live process, otherwise detaches, terminates and spawns |
| AgdaSessionClass.AgdaSession.ResetFileBoundStateIfProcDied | src/agda/session-process-lifecycle.ts:94-106 | resets exactly when the process is no longer live |
| AgdaSessionClass.AgdaSession.ProcessClosed | src/agda/session-process-lifecycle.ts:170-180 | only the current process's close resets the session |
| AgdaSessionClass.AgdaSession.Destroy | src/agda/session-process-lifecycle.ts:195-227 | first call tears down, later calls change nothing |
| AgdaSessionClass.AgdaSession.CommandTimedOut | src/session/agda-transport.ts:299-311 | terminates the process of the silent command |
| AgdaSessionClass.AgdaSession.EscalationFired | src/session/agda-transport.ts:214-223 | terminates the process the control command was written to |
| AgdaSessionClass.ProcessTable.TerminateAgdaProcess | src/agda/agda-process-spawn.ts:49-70 | SIGTERM once, and a grace timer for SIGKILL |
| AgdaSessionClass.AgdaSession.Step | src/agda/session-command-dispatch.ts:40-161 | for every event the object takes the model's step, so all theorems about runs apply to it |
| LoadParsing.SuccessMeansNoComplaint | src/agda/parse-load-responses.ts:104-139 | a parse is successful exactly when no top-level error, non-blank stderr or reported error occurs |
| LoadParsing.ParsedGoalsAreTheGoals | src/agda/parse-load-responses.ts:121-158 | goals and ids go in lockstep without duplicates and are exactly the ids the stream names |
| LoadParsing.TypesAreTheLastOnes | src/agda/parse-load-responses.ts:142-147 | a goal's type is the last one given, "?" if none |
| LoadParsing.SuccessAfterTerminus | src/agda/parse-load-responses.ts:184-188 | a successful stream with the transport's terminus holds both goal events |
| LoadParsing.InvisibleCountIsTheLargest | src/protocol/responses/load-display.ts:136-148 | no AllGoalsWarnings event of the stream, goal-specific ones included, lists more invisible goals than the parse counts, and the count is that of one of them, or 0 without any |
| LoadParsing.NoneInvisibleExactly | src/agda/parse-load-responses.ts:100 | so the count is 0 exactly if no event lists any |
| LoadParsing.SuccessWithoutComplaints | src/agda/parse-load-responses.ts:104-138 | success exactly without a top-level error, visible stderr or a visible listed error, each spelled out; then no errors are reported |
| LoadParsing.ErrorsInOrder | src/agda/parse-load-responses.ts:104-139 | errors are those of the stream's parts: top-level errors, then stderr, then listed ones, in order |
| LoadParsing.TextsOfOne | src/agda/parse-load-responses.ts:111-133 | what one response adds to the first two |
| LoadParsing.DisplayedOfConcat | src/protocol/responses/load-display.ts:115-160 | goals, warnings and listed errors are collected event by event, in order |
| LoadParsing.DisplayedOfOne | src/protocol/responses/load-display.ts:115-160 | what one event adds to them |
| LoadParsing.NonBlankOfOne | src/protocol/responses/load-display.ts:150-159 | a diagnostic is kept exactly if it holds more than white space |
| LoadParsing.TerminusExactly | src/agda/parse-load-responses.ts:184-188 | the stream has its terminus exactly with interaction points, a goal list or an error, the last two directly or goal-specific |
| LoadParsing.GoalsInOrderOfNaming | src/agda/parse-load-responses.ts:121-158 | goals stand in the order in which the stream first names them, interaction points first |
| LoadParsing.ParseLoadResponses | src/agda/parse-load-responses.ts:89-206 | the parsing loops compute the specified parse |
| LoadParsing.TopLevelErrors | src/agda/parse-load-responses.ts:104-119 | error texts and the success flag |
| LoadParsing.AddInteractionPoints | src/agda/parse-load-responses.ts:121-128 | one goal per new id, in lockstep |
| LoadParsing.AddVisibleGoals | src/agda/parse-load-responses.ts:141-158 | known goals get their type, unknown ones are appended |
| GoalMerging.MergeKeepsAndCompletes | src/agda/goal-merging.ts:14-41 | the merge is sorted, duplicate-free, holds exactly both id sets and completes each primary goal |
| GoalMerging.MergedExactly | src/agda/goal-merging.ts:14-41 | for any two lists the merge holds, for each id, the last primary goal completed by the secondary list, and nothing else |
| GoalMerging.CompletedContext | src/agda/goal-merging.ts:34-37 | the first known context fills an empty one |
| GoalMerging.CompletedFillsGaps | src/agda/goal-merging.ts:31-37 | known types and contexts survive; the first known type fills "?" |
| GoalMerging.MergeGoals | src/agda/goal-merging.ts:14-41 | the merging loops compute the specified merge |
| LoadModel.ClassifyLoadResult | src/agda/session-load-helpers.ts:170-183 | complete exactly when successful and nothing is left |
| LoadModel.NextKeeps | src/agda/session-load-impl.ts:57-184 | every load segment keeps all loads' local state and the session fields consistent |
| LoadModel.RunKeeps | src/agda/session-load-impl.ts:57-272 | hence over every interleaving |
| LoadTheorems.ReturnLeavesItsGoals | src/agda/session-load-impl.ts:149-183 | a finished load leaves its own goal ids, duplicate-free, with their number, and its verdict; an early return claims no success |
| LoadTheorems.SuccessHasItsFileExactly | src/agda/session-load-impl.ts:103-122 | a successful load's file is current at its return exactly if, among the events since its reconciliation looked, nothing assigned the file field or the last assignment was this path again |
| LoadTheorems.GapLosesTheFile | src/agda/session-load-helpers.ts:135 | the exception occurs when another load begins in that gap |
| LoadTheorems.NoOlderVerdictSurvives | src/agda/session-load-helpers.ts:97-104 | however a load ends, no verdict written before it began is visible |
| LoadTheorems.VisibleVerdictIsTheLast | src/agda/session-load-impl.ts:51-55 | the visible verdict is a load's exactly if that load returned with no verdict and no invalidation since |
| LoadTheorems.EarlierVerdictExactly | src/agda/session-load-impl.ts:62-66 | after a load threw, the verdict of one that began earlier is visible exactly if that one returned after the later load began, with nothing written or cleared since |
| LoadTheorems.AloneLeavesNoOldVerdict | src/agda/session-load-helpers.ts:97-104 | and then it was in flight at that beginning |
| LoadTheorems.OldVerdictIffOneIsInFlight | src/agda/session-load-impl.ts:62-66 | at the moment a load begins, some continuation in which it throws shows an earlier load's verdict exactly if another load is in flight then |
| LoadTheorems.AVerdictOfAnEarlierLoadCanAppearLater | src/agda/session-load-impl.ts:84-89 | a run in which that happens |
| LoadTheorems.SuccessIsSupported | src/agda/session-load-impl.ts:89-100 | every successful result is backed by a terminus and a stream without complaint |
| LoadTheorems.CompleteMeansNothingLeft | src/agda/session-load-impl.ts:149-156 | ok-complete implies success, no goals and no invisible goals |
| LoadTheorems.CompleteSawNothing | src/agda/session-load-impl.ts:127-156 | a complete load, of either kind, returns at its own scan, which found no hole, and no event of its stream listed an invisible goal |
| LoadTheorems.ReturnsItsStream | src/agda/session-load-impl.ts:170-183 | errors, warnings, invisible goals and success are the stream's, with the strict refusal added; it returns early exactly if the stream was cut short or its file had gone |
| LoadTheorems.BeginsClean | src/agda/session-load-impl.ts:62-76 | beginning clears every field, and a missing file or rejected options return at once |
| LoadTheorems.AnsweredExactly | src/agda/session-load-impl.ts:89-111 | what follows the load command: throw, early return, return, or the metas query |
| LoadTheorems.MetasNameTheirGoals | src/agda/goal-operations.ts:300-317 | the metas query answers with the goals its stream lists, or with the session's ids, which the stream replaces if it names any |
| LoadTheorems.ReconciledGoalsAreTheUnion | src/agda/session-load-helpers.ts:121-135 | reconciling gives the union of the ids the load had and those the query named, each goal completed; the process counts as dead exactly if the file differs |
| LoadTheorems.ReturnsWhatItReconciled | src/agda/session-load-impl.ts:124-158 | over every run, a plain load returns the goals of its last reconciliation and makes a second one exactly if the first left nothing and the scan found a hole |
| LoadTheorems.StrictLoadsRejectHoles | src/agda/session-load-impl.ts:236-258 | a strict load succeeds exactly when the parse does and nothing at all is left, and has its file loaded |
| ProcessCloses.ResetsExactly | src/agda/session-process-lifecycle.ts:94-148 | which steps clear the file; a session without a process gets one only by a body that clears it |
| ProcessCloses.CloseInvKeeps | src/agda/session-process-lifecycle.ts:170-180 | a command that a close completes settles on a session without a process |
| Composed.NextKeeps | src/agda/session-load-impl.ts:84-147 | every step of session and loads together keeps their files, tasks and reconciliations in agreement |
| Composed.RunKeeps | src/agda/session-load-impl.ts:57-272 | hence over every composed run |
| Composed.LoadsGetTheirAnswers | src/agda/session-load-impl.ts:84-90 | a load goes on with the responses delivered to the very call it awaits, its command or its last query, or as rejected |
| Composed.IdleSuccessSawBothGoalEvents | src/agda/session-load-impl.ts:84-100 | a successful load, strict or not, whose command no close completed saw both goal events and no complaint |
| Composed.SuccessExactly | src/agda/session-load-impl.ts:84-260 | every load that sent its command succeeds exactly if a goal-state event came without complaint and, strict, no goal and no hole is left, or, plain, every reconciliation found its path; behind a close its own setting is found only with a query rejected at entry |
| Composed.FalseSuccessExactly | src/agda/session-load-impl.ts:92-224 | so success without both goal events happens exactly after a close, with some goal-state event, no complaint and, for a strict load, nothing left as far as it saw, for a plain one, each reconciliation deceived by another load of the same path or by a rejected query |
| TruncatedLoads.TruncatedStrictLoadSucceeds | src/agda/session-load-impl.ts:206-260 | a composed run of one strict load and nothing else: its process dies after InteractionPoints and it reports ok-complete |
| TruncatedLoads.TruncatedLoadCanSucceed | src/agda/session-load-helpers.ts:135 | a composed run: the process of a load dies after InteractionPoints, a reload of the path fails with a type error, and the first load still reports ok-complete |
| TruncatedLoads.RefusedQueryCanSucceed | src/agda/session-command-dispatch.ts:55-61 | a composed run for the rejected query, not known to be reachable in the source |
| AgdaLoadClass.LoadSession.InvalidatePriorLoadState | src/agda/session-load-helpers.ts:97-104 | clears every load field |
| AgdaLoadClass.LoadSession.FinalizeEarlyReturn | src/agda/session-load-impl.ts:51-55 | records the verdict of an early return |
| AgdaLoadClass.LoadSession.SyncGoalIdsFromResponses | src/session/goal-state.ts:6-37 | goal evidence replaces the ids, its absence keeps them |
| AgdaLoadClass.LoadSession.BeginLoad | src/agda/session-load-impl.ts:57-76 | invalidation, missing file, invalid options |
| AgdaLoadClass.LoadSession.RunLoadAfterCommand | src/agda/session-load-impl.ts:89-122 | the segment behind the load command |
| AgdaLoadClass.LoadSession.RunLoadNoMetasAfterCommand | src/agda/session-load-impl.ts:211-271 | the strict segment behind the load command |
| AgdaLoadClass.LoadSession.MetasAfterCommand | src/agda/goal-operations.ts:291-325 | goal ids are synced before the fallback to the session's own ids |
| AgdaLoadClass.LoadSession.ReconcileAfterMetas | src/agda/session-load-helpers.ts:121-135 | merge and survival test |
| AgdaLoadClass.LoadSession.RunLoadAfterReconcile | src/agda/session-load-impl.ts:111-183 | death during reconciliation, hole scan, second round, final writes |
| GoalGrammar.CountingMatchesNesting | src/session/goal-positions.ts:60-77 | counting brackets finds the end exactly when the text is a nested body, for comments and holes |
| GoalGrammar.QuestionMarksStandAlone | src/session/goal-positions.ts:141-158 | `?` is a hole exactly between delimiters, with the lone-surrogate exception spelled out |
| GoalGrammar.LoneSurrogateIsOverlooked | src/session/goal-positions.ts:144-146 | the exception occurs |
| GoalGrammar.HolesAreCandidates | src/session/goal-positions.ts:177-258 | every span is a lexical candidate; spans are in order, apart and in bounds |
| GoalGrammar.HolesAreTheOutermostCandidates | src/session/goal-positions.ts:184-224 | the reported spans are exactly the candidates no other candidate encloses, rewinds included |
| GoalGrammar.HolesAvoidCommentsAndLiterals | src/session/goal-positions.ts:178-181 | no hole starts inside a comment or literal |
| GoalGrammar.StringEndExactly | src/session/goal-positions.ts:84-94 | a string literal ends exactly where its grammar says: plain units and escapes up to a quote, or to the end of the text |
| GoalGrammar.SkipsExactlyLexemes | src/session/goal-positions.ts:49-115 | what is skipped at an offset is exactly the line comment, nested comment, string or character literal there, each defined without the scanner |
| GoalGrammar.BoundariesAreReadings | src/session/goal-positions.ts:177-181 | the scanner stops exactly where a reading of the text by these lexemes does |
| GoalGrammar.NoHoleInsideALexeme | src/session/goal-positions.ts:178-181 | no hole starts inside one |
| GoalGrammar.DelimitersAre | src/session/goal-positions.ts:128-133 | the delimiters of identifiers |
| GoalGrammar.BracketsAreSpelled | src/session/goal-positions.ts:65-70 | the brackets of comments and holes |
| GoalGrammar.CountedIsTheLine | src/session/goal-positions.ts:36-41 | counting all newlines gives the line and the start of the line |
| GoalGrammar.SeenIsCounted | src/session/goal-positions.ts:102-115 | the scanner's line is the newline count less those inside character literals |
| GoalGrammar.LinesAreRightUnlessSwallowed | src/session/goal-positions.ts:36-41 | line and column are right exactly when no earlier character literal holds a newline |
| GoalGrammar.NewlinesAreCounted | src/session/goal-positions.ts:36-41 | the newline count is the number of offsets with a newline |
| GoalGrammar.SwallowedExactly | src/session/goal-positions.ts:102-115 | a newline is missed exactly if a character literal in front holds one |
| GoalGrammar.PositionsShowTheirPlaces | src/session/goal-positions.ts:226-250 | each position has the offsets and text of its hole, its line, and its distance from the start of that line |
| GoalGrammar.PositionsAreWellFormed | src/session/goal-positions.ts:226-250 | marker text is its span, a lone `?` or a balanced hole |
| GoalScanner.ScanState.SkipBlockComment | src/session/goal-positions.ts:60-77 | the nested comment loop ends where the grammar says and counts its newlines |
| GoalScanner.ScanState.SkipStringLiteral | src/session/goal-positions.ts:84-94 | likewise for strings, one past the end on a cut escape |
| GoalScanner.ScanState.SkipCharLiteral | src/session/goal-positions.ts:102-115 | three or four units, nothing else |
| GoalScanner.ScanState.SkipLineComment | src/session/goal-positions.ts:49-53 | stops at the newline, which it leaves to be counted |
| GoalScanner.FindClose | src/session/goal-positions.ts:191-211 | the hole loop ends at the matching bracket with its lines counted, or reports depth left |
| GoalScanner.FindGoalPositions | src/session/goal-positions.ts:173-261 | terminates on every text and returns the specified positions |
| GoalScanner.FindGoalPosition | src/session/goal-positions.ts:268-278 | the marker at the first index of the goal id, if any |
| Substitution.RequestsAreCounted | src/session/apply-batch-edits.ts:72-79 | the requests are exactly the distinct goal ids, and every further entry is counted as dropped |
| Substitution.LastExprIsLast | src/session/apply-batch-edits.ts:74-79 | an id's expression is that of its last entry |
| Substitution.FillsExactly | src/session/apply-batch-edits.ts:64-91 | a hole is filled exactly if it stands at the last place of an id that was asked for, with the last expression |
| Substitution.RequestedInOrder | src/session/apply-batch-edits.ts:72-79 | requests keep the order of their first entries |
| Substitution.RequestedPlusRepeated | src/session/apply-batch-edits.ts:72-79 | entries are requests and repetitions, each once |
| Substitution.RequestedIsAppliedPlusFailed | src/session/apply-batch-edits.ts:84-92 | requested ids are applied or failed, each once, and fail exactly without a marker |
| Substitution.BackToFrontFills | src/session/apply-batch-edits.ts:111-118 | splicing back to front is the simultaneous substitution |
| Substitution.EverythingElseIsKept | src/session/apply-batch-edits.ts:111-118 | text outside replaced holes is kept, in order, at its shifted place |
| Substitution.HolesShowTheirExpressions | src/session/apply-batch-edits.ts:115-118 | every replaced hole shows its expression at its shifted place |
| Substitution.LengthChangesByTheEdits | src/session/apply-batch-edits.ts:115-118 | the length changes by the sum of the differences |
| BatchEdits.SortedEditsAreTheHoles | src/session/apply-batch-edits.ts:113 | sorting the requested edits gives the filled holes, last first |
| BatchEdits.BatchSubstitutes | src/session/apply-batch-edits.ts:81-118 | sorting and splicing together are the substitution |
| BatchEdits.BatchReportsExactly | src/session/apply-batch-edits.ts:99-146 | the report counts the holes filled, lists the ids without a hole, and says why nothing was done |
| CodeUnits.Utf8LengthCountsBytes | src/session/apply-batch-edits.ts:123 | the length tested against the cap is that of the UTF-8 encoding |
| CodeUnits.BytesReadBack | src/session/apply-batch-edits.ts:123 | and that encoding reads back |
| BatchEdits.IndexOfGoals | src/session/apply-batch-edits.ts:64-67 | the index map holds the last index of each id |
| BatchEdits.LastWins | src/session/apply-batch-edits.ts:72-79 | the last expression of each id, keys in first-request order |
| BatchEdits.CollectEdits | src/session/apply-batch-edits.ts:84-92 | edits for located goals, failed ids for the others |
| BatchEdits.SpliceAll | src/session/apply-batch-edits.ts:115-118 | applies the list in order |
| BatchEdits.ApplyBatchHoleReplacements | src/session/apply-batch-edits.ts:45-147 | report and file text by cases, read, cap and write failures included |
| GoalEdits.LinesAreWhole | src/session/apply-goal-edit.ts:105-111 | replace-line takes out whole lines and leaves one terminator |
| GoalEdits.IndentIsOnOneLine | src/session/apply-goal-edit.ts:113-126 | the copied indentation ends before the marker and holds no line break |
| GoalEdits.ReplacedLinesShow | src/session/apply-goal-edit.ts:101-132 | behind a replaced line stand the clauses, one a line in the file's line-end style, each with white space of its own or else all the white space the line began with |
| GoalEdits.EditReportsExactly | src/session/apply-goal-edit.ts:80-148 | the hole at the first place of the id, nothing without it or beyond the cap, nothing touched around it |
| GoalEdits.ReplaceLines | src/session/apply-goal-edit.ts:101-133 | indented clauses in place of the lines, in the file's line-end style |
| GoalEdits.TargetsAgree | src/session/goal-positions.ts:275-277 | batch and single edit aim at the same hole exactly when first and last index agree or neither exists in the file |
| GoalEdits.NoDuplicatesNoDifference | src/session/apply-batch-edits.ts:64-67 | without duplicate ids they always do |
| GoalEdits.BatchOfOne | src/session/apply-batch-edits.ts:84-118 | a batch of one replaces its hole and nothing else |
| GoalEdits.BatchOfOneIsASingleEdit | src/session/apply-goal-edit.ts:92-99 | it applies exactly when the single edit does, with the same text |
| GoalEdits.ApplyProofEdit | src/session/apply-goal-edit.ts:65-158 | report and file text by cases |
| TextEdits.FindOccurrences | src/session/apply-text-edit.ts:115-122 | the search loop computes the occurrence list |
| TextEdits.OccurrencesAreLeftmost | src/session/apply-text-edit.ts:115-122 | the search list is exactly the leftmost non-overlapping occurrences |
| TextEdits.OnlyOccurrence | src/session/apply-text-edit.ts:146-155 | a single occurrence is the only match exactly when none overlaps it |
| TextEdits.OverlapsAreNotCounted | src/session/apply-text-edit.ts:121 | an overlapped one is accepted as unique |
| TextEdits.PromotedHasNoBareLf | src/session/apply-text-edit.ts:109-112 | promotion leaves no bare newline and keeps the last unit |
| TextEdits.NormalisedKeepsUnits | src/session/apply-text-edit.ts:109-112 | promotion puts one carriage return in front of each bare newline and loses and adds nothing else; without one the text is unchanged |
| TextEdits.EditsLeaveNoBareLf | src/session/apply-text-edit.ts:108-112 | a file without bare newlines stays so exactly if the edit tears no CRLF pair apart, or, in a file without CRLF, brings in no newline that is bare where it lands |
| TextEdits.OneLineFilesTakeTheTextAsItIs | src/session/apply-text-edit.ts:108 | the second half, for files without CRLF |
| TextEdits.OneLineFilesAreNotNormalised | src/session/apply-text-edit.ts:108 | the case occurs in a file without line ends |
| TextEdits.AppliedEditsChangeOneWindow | src/session/apply-text-edit.ts:133-159 | one window changes, the chosen occurrence, and its line is reported |
| TextEdits.EditsExactly | src/session/apply-text-edit.ts:124-189 | the outcome in every case: none, the n-th or the only leftmost occurrence, ambiguous, out of range, too long |
| TextEdits.ReplacedUnits | src/session/apply-text-edit.ts:158-159 | every unit outside the window is kept |
| TextEdits.ApplyTextEdit | src/session/apply-text-edit.ts:55-191 | result and file text by cases |
| EditScripts.Triangle | src/protocol/command-line-suggestions.ts:44-48 | the recurrence satisfies the triangle inequality |
| EditScripts.DistanceIsLeast | src/protocol/command-line-suggestions.ts:29-55 | the recurrence is at most n exactly when n edits reach the target |
| EditScripts.RowsReachTheEnd | src/protocol/command-line-suggestions.ts:51 | every row holds an entry no greater than the final one |
| Suggestions.FillRow | src/protocol/command-line-suggestions.ts:40-50 | one row of the table and a lower bound of it |
| Suggestions.EditDistanceWithCap | src/protocol/command-line-suggestions.ts:29-55 | the distance when it is within the cap, more than the cap otherwise, despite length test, early exit and stale row |
| Suggestions.ScanForClosest | src/protocol/command-line-suggestions.ts:78-87 | the candidate loop finds the first closest one |
| Suggestions.SuggestSimilarFlag | src/protocol/command-line-suggestions.ts:68-90 | the first closest flag within the cap, none exactly when there is none |
| Suggestions.StripsLeadingDashes | src/protocol/command-line-suggestions.ts:72-80 | all dashes in front come off and nothing else |
| Suggestions.SuggestRecognisedKey | src/session/project-config.ts:247-259 | the same for configuration keys, on the copied distance |
| Suggestions.MergeCommandLineOptions | src/session/project-config.ts:389-405 | the loop keeps the last occurrences |
| Suggestions.MergeKeepsEveryOptionOnce | src/session/project-config.ts:393-404 | every option once |
| Suggestions.MergeKeepsLastPlaces | src/session/project-config.ts:393-404 | in the order of their last places |
| Suggestions.PerCallOptionsComeLast | src/session/project-config.ts:385-388 | per-call options stand last and win |
| Reachability.CollectReachable | src/agda/import-graph.ts:327-351 | terminates; each node reachable in one step or more except the start, exactly once |
| ImportGraphs.ReadModules | src/agda/import-graph.ts:244-256 | modules by path, module names by their first file |
| ImportGraphs.ModuleAtIsLast | src/agda/import-graph.ts:248-251 | a path stands for its last file |
| ImportGraphs.FileOfIsFirst | src/agda/import-graph.ts:252-255 | a module name for the first file that declares it |
| StringOrder.AtMostIsLexicographic | src/agda/import-graph.ts:276-279 | lists are sorted by the first unit in which two paths differ |
| ImportGraphs.CollectEdges | src/agda/import-graph.ts:258-274 | each file's targets once, and the reverse lists in step |
| ImportGraphs.BuildImportGraph | src/agda/import-graph.ts:240-281 | imports and importedBy say exactly what the files say, once, sorted |
| ImportGraphs.FaithfulIsTransposed | src/agda/import-graph.ts:265-274 | importedBy is the transpose of imports |
| ImportGraphs.ComputeImpact | src/agda/import-graph.ts:293-318 | direct and transitive lists, none exactly for a file outside the graph |
| ImportGraphs.DependentsAndDependenciesAreDual | src/agda/import-graph.ts:305-308 | B is a dependent of A exactly when A is a dependency of B |
| ImportClosure.ClosureFileSet | src/agda/session-capture/import-closure-hash.ts:35-51 | the sorted list of the file and everything it reaches |
| ImportClosure.ClosureIsClosed | src/agda/session-capture/import-closure-hash.ts:45-50 | contains the file and is closed under imports |
| ImportClosure.ClosureIsLeast | src/agda/session-capture/import-closure-hash.ts:45-50 | it is the least such set |
| ImportClosure.ClosureIgnoresOrder | src/agda/session-capture/import-closure-hash.ts:50 | depends on the edges only, not on their order |
| ImportClosure.OrderIsIrrelevantExactly | src/agda/import-graph.ts:248-256 | what imports what does not depend on the walk order exactly if no imported module name is declared twice |
| ImportClosure.WalkOrderIsIrrelevant | src/agda/import-graph.ts:248-274 | then neither do the edges of the graph |
| ImportClosure.EncodingIsInjective | src/agda/session-capture/import-closure-hash.ts:85-107 | without NUL bytes the encoding determines every path and hashed content |
| ImportClosure.EncodeAlikeExactly | src/agda/session-capture/import-closure-hash.ts:60-107 | without NUL bytes two closures encode alike exactly if they list the same paths with the same content, both none, or one the placeholder of the other |
| ImportClosure.ReadableClosuresAreDetermined | src/agda/session-capture/import-closure-hash.ts:98-106 | with all files readable, equal encodings mean equal closures |
| ImportClosure.CollisionsWithoutTheProvisos | src/agda/session-capture/import-closure-hash.ts:60-62 | both provisos are needed |
| IotcmText.ThreePassesAreOne | src/agda/response-parsing.ts:53-58 | the three passes are one pass over the units |
| IotcmText.EscapedIsWellEscaped | src/agda/response-parsing.ts:53-58 | no raw newline, no quote outside an escape |
| IotcmText.QuotedReadsBack | src/protocol/command-builder.ts:13-15 | a reader inverts quoting on every text |
| IotcmText.ListReadsBack | src/protocol/command-builder.ts:21-27 | and lists of strings |
| IotcmText.EnvelopeReadsBack | src/protocol/command-builder.ts:105-107 | path and inner command are recovered from the envelope |
| IotcmText.EnvelopeIsOneLine | src/protocol/command-builder.ts:105-107 | the envelope breaks the line exactly when the inner command does |
| IotcmText.LoadCommandIsOneLine | src/protocol/command-builder.ts:29-31 | a load command never breaks the line |
| IotcmText.LoadCommandReadsBack | src/protocol/command-builder.ts:21-31 | name, path and options are recovered from a load command, whatever characters they hold |
| IotcmText.CommandSplits | src/protocol/command-builder.ts:29-31 | plain parts are recovered by splitting at spaces |
| ArrowTypes.SplitTopLevelArrows | src/agda/goal-analysis.ts:162-183 | the splitting loop computes the specified segments |
| ArrowTypes.StripOuterParens | src/agda/goal-analysis.ts:186-205 | the stripping loops compute the specified text |
| ArrowTypes.IsEnclosed | src/agda/goal-analysis.ts:189-201 | the inner scan tells whether one pair encloses the whole text |
| ArrowTypes.EnclosedExactly | src/agda/goal-analysis.ts:189-201 | one pair encloses a text exactly if the last parenthesis is the first to close the first one |
| ArrowTypes.PiecesExactly | src/agda/goal-analysis.ts:162-183 | any text is cut at exactly its arrows outside brackets, and only these are lost |
| ArrowTypes.SegmentsArePieces | src/agda/goal-analysis.ts:183 | segments are the pieces without margins, empty ones left out |
| ArrowTypes.StripsExactly | src/agda/goal-analysis.ts:186-205 | stripping takes off margins and enclosing pairs, and leaves neither |
| ArrowTypes.NormalizedWords | src/agda/goal-analysis.ts:154-156 | normalising puts one space between the words and none around them |
| ArrowTypes.ResultTypeOfText | src/agda/goal-analysis.ts:212-226 | the reduction loop computes the specified result |
| ArrowTypes.SegmentsOfPrinted | src/agda/goal-analysis.ts:162-183 | the segments of a printed type are its arguments and its rest |
| ArrowTypes.StripWrapped | src/agda/goal-analysis.ts:186-205 | all pairs around a printed type come off, and no more |
| ArrowTypes.ReducePrinted | src/agda/goal-analysis.ts:212-226 | with enough rounds the final atom and the spine length, otherwise still a parenthesised type |
| ArrowTypes.ResultTypeIsTheFinalAtom | src/agda/goal-analysis.ts:212-226 | correct exactly when fewer than 100 results are parenthesised, whatever the white space |
| RecorderModel.ActionsAreConserved | src/agda/session-capture/recorded-transport.ts:53-118 | written artifacts followed by the live buffer are the accepted actions, in order, each once |
| RecorderModel.CallsAreRecordedExactly | src/agda/session-capture/recorded-transport.ts:53-66 | a call is accepted exactly if recording is enabled and fewer than the capacity are held; a full buffer counts it as dropped |
| RecorderModel.CapturesTakeTheWholeBuffer | src/tools/register-capture-session.ts:122-237 | a capture takes the buffer of its start, keeps it, and exactly those actions are written and removed |
| RecorderModel.RunKeeps | src/tools/register-capture-session.ts:122-274 | the recorder invariant over every interleaving |
| RecorderModel.OneCaptureHoldsAPrefix | src/tools/register-capture-session.ts:122-146 | the flag says whether a capture holds a snapshot; at most one does, and it stays a prefix of the buffer |
| RecorderModel.TruncatedMeansDropped | src/agda/session-capture/recorded-transport.ts:60-64 | truncated exactly when something was dropped |
| RecorderModel.FailuresTouchNothing | src/tools/register-capture-session.ts:261-274 | failing and refused captures leave the recorder alone; file numbers never repeat |
| RecorderModel.TwoCommitsLoseAnAction | src/tools/register-capture-session.ts:62-71 | without the flag an action would be lost |
| RecorderClass.ActionRecorder.RecordAction | src/agda/session-capture/recorded-transport.ts:53-66 | drop-newest once full, nothing when disabled |
| RecorderClass.ActionRecorder.CommitDrainedActions | src/agda/session-capture/recorded-transport.ts:112-118 | removes the drained prefix, clears the flags when empty |
| RecorderClass.CaptureTool.Begin | src/tools/register-capture-session.ts:122-146 | busy, failed or drained |
| RecorderClass.CaptureTool.AfterSubstrate | src/tools/register-capture-session.ts:159-222 | staging under a fresh file number, or failure |
| RecorderClass.CaptureTool.AfterWrite | src/tools/register-capture-session.ts:222-237 | commits only after the write |
| DelimitedBlocks.BlocksAreDelimitedSlices | src/session/literate/extract-fenced.ts:21-54 | every block is the slice of its lines, behind an opener, up to the first closer or the end |
| CodeBlocks.SlicesShowTheirLines | src/session/literate/extract-fenced.ts:24 | the code of a block, split at newlines, is the lines it names |
| DelimitedBlocks.LatexDelimiters | src/session/literate/extract-latex.ts:17-22 | the LaTeX delimiters, alone on their line |
| DelimitedBlocks.OrgDelimiters | src/session/literate/extract-org.ts:17-22 | the Org delimiters, in any case |
| DelimitedBlocks.FencesExactly | src/session/literate/extract-fenced.ts:23-48 | which fences open Agda code, which open another block, which close |
| DelimitedBlocks.BlocksAreInOrder | src/session/literate/extract-latex.ts:16-47 | blocks are ordered and disjoint |
| DelimitedBlocks.NoBlockIsSkipped | src/session/literate/extract-org.ts:16-47 | every opener reached outside a block yields its block, closed or not |
| DelimitedBlocks.ExtractLatexBlocks | src/session/literate/extract-latex.ts:10-50 | the LaTeX loop computes them |
| DelimitedBlocks.ExtractOrgBlocks | src/session/literate/extract-org.ts:10-50 | the Org loop computes them |
| DelimitedBlocks.ExtractFencedBlocks | src/session/literate/extract-fenced.ts:11-70 | the fenced loop computes them, skipping other languages |
| RstBlocks.RstBlocksBeginWhereAnnounced | src/session/literate/extract-rst.ts:22-43 | blocks begin at exactly those lines of indented text behind a pending `::`, or behind a line that ended one of the blocks, with only blank lines between |
| RstBlocks.DirectivesExactly | src/session/literate/extract-rst.ts:22-24 | a directive is two colons alone on their line |
| RstBlocks.RstBlocksAreIndentedSlices | src/session/literate/extract-rst.ts:28-75 | every block is such a slice of the file, indented and without trailing blanks |
| RstBlocks.ProseIsTakenExactly | src/session/literate/extract-rst.ts:66-72 | indented text whose nearest earlier text is no `::` is extracted exactly if that text ended a block |
| RstBlocks.NoDirectiveNoBlocks | src/session/literate/extract-rst.ts:22-26 | without any `::` nothing is extracted |
| RstBlocks.RstBlocksAreInOrder | src/session/literate/extract-rst.ts:18-75 | ordered and disjoint |
| RstBlocks.FirstLineCounts | src/session/literate/extract-rst.ts:56-65 | the emptiness tests never drop a block |
| RstBlocks.LineBetween | src/session/literate/extract-rst.ts:22-43 | how a line outside blocks moves the two flags |
| RstBlocks.TrimTrailing | src/session/literate/extract-rst.ts:52-55 | trailing blank lines come off, nothing else |
| RstBlocks.ProseAfterABlockIsTaken | src/session/literate/extract-rst.ts:66-72 | a text in which that happens |
| RstBlocks.ExtractRstBlocks | src/session/literate/extract-rst.ts:10-96 | the line loop computes them |

## Left out

- Delays: the idle timer's depends on `sawStatusDone` and `lastResponseKind`, the trailing delay of the two origins that occur, idle and process close, is the constant 0. In the model an armed timer may fire at any time. That covers every delay for statements about all runs; for the example runs the order of the timers is argued beside them.
- Microtasks: a load's continuation runs before the next task's body, as in the source; other orders of microtasks are left free.
- A process `error` event with nobody listening: it is an uncaught exception in the source and not an event here.
- Failed signal deliveries, the teardown promise and library registration: no bearing on the properties proved.
- Logging, wait diagnostics and the waiting sentry.
- JSON decoding: a function parameter from lines to responses; version strings: a boolean telling whether one was recognised.
- Callers that use the transport without a session.
- Result fields that are only passed along: goal text, profiling output, earliest error line, and the rewriting of compiler placeholders in messages.
- Project configuration files, profile-option groups and version comparison: only easy members.
- File system: reads and writes are flags on a file object; directory walks, `stat` and real paths are inputs. A read that fails after a successful `stat` while hashing is not modelled.
- SHA-256: the bytes fed to it are modelled, the digest is not.
- Lower-casing of flags and keys: a function parameter.
- Ranking of matching terms by locale order, and the case-split and deriving suggestions.
- Source inlining for captures and the triage data of an artifact.
- Wording of messages: outcomes are modelled by kind.
- Tool registration, schemas, Markdown rendering, regex heuristics and the tree extractor.
- The accepted, acceptedAt and parsed fields of AgdaTransport, fileStamp of LoadSession, and the stamps beside its verdict are logs for specification; the source has no such fields.
