// The session: the promise queue, the subprocess table and every step of a run.
// Models src/agda/session-command-dispatch.ts, session-process-lifecycle.ts,
// agda-process-spawn.ts and agda-version-detection.ts over the transport.

module SessionModel {
  import opened Basics
  import opened Wire
  import opened TransportModel

  // ── Subprocesses ──────────────────────────────────────────────────────

  /** A spawned child: `exited` stands for a set exitCode or signalCode, `killed` for a
      SIGTERM this server sent, `attached` for the spawn-time listeners being in place. */
  datatype Proc = Proc(exited: bool, closed: bool, killed: bool, attached: bool,
                       clearsEscalation: bool, graceTimers: seq<nat>)

  datatype Cause = Inactivity(op: nat) | EscalationBudget(op: nat) | Teardown | Respawn | Grace

  /** One signal sent: SIGTERM, or SIGKILL when `force`. */
  datatype Signal = Signal(proc: nat, force: bool, at: nat, cause: Cause)

  datatype Os = Os(procs: seq<Proc>, signals: seq<Signal>, now: nat)

  const TERMINATE_GRACE_MS: nat := 3_000
  const NEW_PROC := Proc(false, false, false, true, false, [])

  predicate IsLive(p: Proc) {
    !p.exited && !p.killed
  }

  /** terminateAgdaProcess: SIGTERM unless already sent, then a SIGKILL timer. */
  function Terminate(os: Os, p: nat, cause: Cause): Os
    requires p < |os.procs|
  {
    var proc := os.procs[p];
    if proc.exited then os
    else
      var timers := proc.graceTimers + [os.now + TERMINATE_GRACE_MS];
      os.(procs := os.procs[p := proc.(killed := true, graceTimers := timers)],
          signals := if proc.killed then os.signals else os.signals + [Signal(p, false, os.now, cause)])
  }

  // ── The session ───────────────────────────────────────────────────────

  datatype ControlKind = Abort | Exit

  /** `arm` is decided when the control command is issued, from whether it interrupted. */
  datatype Request =
    | UserCommand(serial: nat, awaitsTerminus: bool, showsVersion: bool, timeoutMs: nat)
    | ControlCommand(kind: ControlKind, interrupted: bool, arm: bool)

  datatype Reason = SessionDestroyed | Cancelled | StaleEnvelope | TransportError(why: Rejection)
  datatype Verdict = Delivered(responses: seq<Response>) | Failed(reason: Reason)

  /** Where a task's async body stands: it waits for its predecessor, for the version
      probe (None: no probe was needed), for its command, or for its flush window. */
  datatype Phase =
    | Queued
    | Probing(probe: Option<nat>, proc: nat, file: Option<string>)
    | Commanding(op: nat)
    | Flushing(op: nat)
    | Settled(verdict: Verdict)

  /** A promise chained onto `commandQueue`; `after` is the promise it waits for. */
  datatype Task = Task(request: Request, after: Option<nat>, phase: Phase)

  /** `chainStart` is the number of tasks queued before destroy reset the queue. */
  datatype Session = Session(
    proc: Option<nat>, destroyed: bool, commandSerial: nat, cancelledThrough: int,
    tasks: seq<Task>, queueTail: Option<nat>, chainStart: nat,
    currentFile: Option<string>, versionKnown: bool, versionAttempts: nat)

  datatype State = State(t: Transport, os: Os, ses: Session)

  const VERSION_DETECTION_MAX_ATTEMPTS: nat := 3
  const VERSION_DETECTION_TIMEOUT_MS: nat := 15_000

  const INITIAL := State(
    IDLE_TRANSPORT, Os([], [], 0),
    Session(None, false, 0, -1, [], None, 0, None, false, 0))

  datatype Event =
    | Enqueue(awaitsTerminus: bool, showsVersion: bool, timeoutMs: nat)
    | IssueControl(kind: ControlKind)
    | Proceed(task: nat, versionSeen: bool)
    | Stdout(proc: nat, chunk: string)
    | Stderr(proc: nat, text: string)
    | ProcFailed(proc: nat)
    | ProcExited(proc: nat)
    | ProcClosed(proc: nat)
    | IdleTimer
    | FinishTimer(op: nat, origin: Origin)
    | InactivityTimer(op: nat)
    | FlushTimer(op: nat)
    | EscalationTimer
    | GraceTimer(proc: nat, timer: nat)
    | Advance(ms: nat)
    | SetFile(file: Option<string>)
    | Destroy

  // ── Dispatch ──────────────────────────────────────────────────────────

  function AddTask(s: State, request: Request): State {
    s.(ses := s.ses.(tasks := s.ses.tasks + [Task(request, s.ses.queueTail, Queued)],
                     queueTail := Some(|s.ses.tasks|)))
  }

  /** dispatchSessionCommand, synchronous part. */
  function DispatchCommand(s: State, awaitsTerminus: bool, showsVersion: bool, timeoutMs: nat): State {
    var serial := s.ses.commandSerial + 1;
    AddTask(s.(ses := s.ses.(commandSerial := serial)),
            UserCommand(serial, awaitsTerminus, showsVersion, timeoutMs))
  }

  /** dispatchSessionControlCommand, synchronous part: interrupt, sweep, gate. */
  function DispatchControl(s: State, kind: ControlKind): State {
    var interrupting := AnyListening(s.t);
    AddTask(s.(t := EmitError(s.t, 0, Interrupted),
               ses := s.ses.(cancelledThrough := s.ses.commandSerial)),
            ControlCommand(kind, interrupting, kind.Exit? || interrupting))
  }

  function SetPhase(s: State, i: nat, phase: Phase): State
    requires i < |s.ses.tasks|
  {
    s.(ses := s.ses.(tasks := s.ses.tasks[i := s.ses.tasks[i].(phase := phase)]))
  }

  /** resetProcBoundState. */
  function ResetProcBound(ses: Session): Session {
    ses.(currentFile := None, versionKnown := false, versionAttempts := 0)
  }

  /** resetFileBoundStateIfProcDied. */
  function ResetIfDied(s: State, p: nat): State {
    if p < |s.os.procs| && !IsLive(s.os.procs[p]) then s.(ses := s.ses.(currentFile := None)) else s
  }

  predicate HasLiveProc(s: State) {
    s.ses.proc.Some? && s.ses.proc.value < |s.os.procs| && IsLive(s.os.procs[s.ses.proc.value])
  }

  function Detach(os: Os, p: nat): Os
    requires p < |os.procs|
  {
    os.(procs := os.procs[p := os.procs[p].(attached := false)])
  }

  /** ensureProcessForSession on a session that is not destroyed. */
  function EnsureProcess(s: State): (r: (State, nat))
  {
    if HasLiveProc(s) then (s, s.ses.proc.value)
    else
      var os1 := if s.ses.proc.Some? && s.ses.proc.value < |s.os.procs|
        then Terminate(Detach(s.os, s.ses.proc.value), s.ses.proc.value, Respawn) else s.os;
      var q := |os1.procs|;
      (s.(os := os1.(procs := os1.procs + [NEW_PROC]),
          ses := ResetProcBound(s.ses).(proc := Some(q))), q)
  }

  predicate NeedsVersion(s: State) {
    !s.ses.versionKnown && s.ses.versionAttempts < VERSION_DETECTION_MAX_ATTEMPTS
  }

  /** The promise a task waits for has settled. */
  predicate Ready(s: State, i: nat) {
    i < |s.ses.tasks| &&
    match s.ses.tasks[i].phase
    case Queued =>
      s.ses.tasks[i].after.Some? ==>
        s.ses.tasks[i].after.value < |s.ses.tasks| && s.ses.tasks[s.ses.tasks[i].after.value].phase.Settled?
    case Probing(probe, _, _) =>
      probe.Some? ==> probe.value < |s.t.operations| && !Listening(s.t, probe.value)
    case Commanding(op) => op < |s.t.operations| && !Listening(s.t, op)
    case Flushing(op) => op < |s.t.operations| && !Listening(s.t, op)
    case Settled(_) => false
  }

  /** The body of a user task up to its first await. */
  function StartUser(s: State, i: nat): State
    requires i < |s.ses.tasks| && s.ses.tasks[i].request.UserCommand?
  {
    var request := s.ses.tasks[i].request;
    if s.ses.destroyed then SetPhase(s, i, Settled(Failed(SessionDestroyed)))
    else if request.serial <= s.ses.cancelledThrough then SetPhase(s, i, Settled(Failed(Cancelled)))
    else
      var (s1, p) := EnsureProcess(s);
      var file := s1.ses.currentFile;
      if NeedsVersion(s1) && !request.showsVersion then
        var s2 := s1.(ses := s1.ses.(versionAttempts := s1.ses.versionAttempts + 1));
        SetPhase(s2.(t := StartCommand(s2.t, i, Probe, p, false, VERSION_DETECTION_TIMEOUT_MS, s2.os.now)),
                 i, Probing(Some(|s2.t.operations|), p, file))
      else SetPhase(s1, i, Probing(None, p, file))
  }

  /** After the probe: rethrow an interruption, swallow other errors, check the session
      and the envelope, then write the user command. */
  function ResumeProbe(s: State, i: nat, versionSeen: bool): State
    requires i < |s.ses.tasks| && s.ses.tasks[i].request.UserCommand?
    requires s.ses.tasks[i].phase.Probing? && Ready(s, i)
  {
    var Probing(probe, p, file) := s.ses.tasks[i].phase;
    var request := s.ses.tasks[i].request;
    if probe.Some? && s.t.operations[probe.value].outcome == Rejected(Interrupted) then
      SetPhase(ResetIfDied(s, p), i, Settled(Failed(TransportError(Interrupted))))
    else
      var seen := versionSeen && probe.Some? && s.t.operations[probe.value].outcome.Resolved?;
      var s1 := s.(ses := s.ses.(versionKnown := s.ses.versionKnown || seen));
      if s1.ses.destroyed then SetPhase(ResetIfDied(s1, p), i, Settled(Failed(SessionDestroyed)))
      else if p >= |s1.os.procs| || !IsLive(s1.os.procs[p]) || file != s1.ses.currentFile then
        SetPhase(ResetIfDied(s1, p), i, Settled(Failed(StaleEnvelope)))
      else
        SetPhase(s1.(t := StartCommand(s1.t, i, User, p, request.awaitsTerminus, request.timeoutMs, s1.os.now)),
                 i, Commanding(|s1.t.operations|))
  }

  /** After the user command: the `finally`, the piggybacked version, the result. */
  function ResumeCommand(s: State, i: nat, versionSeen: bool): State
    requires i < |s.ses.tasks| && s.ses.tasks[i].request.UserCommand?
    requires s.ses.tasks[i].phase.Commanding? && Ready(s, i)
  {
    var op := s.t.operations[s.ses.tasks[i].phase.op];
    var s1 := ResetIfDied(s, op.proc);
    match op.outcome
    case Rejected(why) => SetPhase(s1, i, Settled(Failed(TransportError(why))))
    case Resolved(responses, _, _) =>
      var s2 := if NeedsVersion(s1) && s1.ses.tasks[i].request.showsVersion
        then s1.(ses := s1.ses.(versionAttempts := s1.ses.versionAttempts + 1, versionKnown := versionSeen))
        else s1;
      SetPhase(s2, i, Settled(Delivered(responses)))
    case Pending => s
  }

  /** The body of a control task: the flush write, then its collected responses. */
  function StartControl(s: State, i: nat): State
    requires i < |s.ses.tasks| && s.ses.tasks[i].request.ControlCommand?
  {
    if s.ses.destroyed then SetPhase(s, i, Settled(Failed(SessionDestroyed)))
    else
      var (s1, p) := EnsureProcess(s);
      var arm := s.ses.tasks[i].request.arm;
      var s2 := if arm && p < |s1.os.procs|
        then s1.(os := s1.os.(procs := s1.os.procs[p := s1.os.procs[p].(clearsEscalation := true)])) else s1;
      SetPhase(s2.(t := StartFlush(s2.t, i, p, arm, s2.os.now)), i, Flushing(|s2.t.operations|))
  }

  function ResumeFlush(s: State, i: nat): State
    requires i < |s.ses.tasks| && s.ses.tasks[i].phase.Flushing? && Ready(s, i)
  {
    match s.t.operations[s.ses.tasks[i].phase.op].outcome
    case Resolved(responses, _, _) => SetPhase(s, i, Settled(Delivered(responses)))
    case Rejected(why) => SetPhase(s, i, Settled(Failed(TransportError(why))))
    case Pending => s
  }

  /** One run of the microtasks of task `i`, to its next await. */
  function ProceedTask(s: State, i: nat, versionSeen: bool): State {
    if !Ready(s, i) then s
    else if s.ses.tasks[i].request.UserCommand? then
      match s.ses.tasks[i].phase
      case Queued => StartUser(s, i)
      case Probing(_, _, _) => ResumeProbe(s, i, versionSeen)
      case Commanding(_) => ResumeCommand(s, i, versionSeen)
      case _ => s
    else
      match s.ses.tasks[i].phase
      case Queued => StartControl(s, i)
      case Flushing(_) => ResumeFlush(s, i)
      case _ => s
  }

  // ── Process events, timers and teardown ───────────────────────────────

  predicate Heard(s: State, p: nat) {
    p < |s.os.procs| && s.os.procs[p].attached && !s.os.procs[p].closed
  }

  /** The `close` event: the spawn-time listener, then the one an escalation left. */
  function CloseProc(s: State, p: nat): State
    requires p < |s.os.procs|
  {
    var proc := s.os.procs[p];
    var t1 := if proc.attached then HandleProcessClose(s.t) else s.t;
    var t2 := if proc.clearsEscalation then t1.(controlEscalation := None) else t1;
    var ses1 := if proc.attached && (s.ses.proc.None? || s.ses.proc == Some(p))
      then ResetProcBound(s.ses).(proc := None) else s.ses;
    State(t2, s.os.(procs := s.os.procs[p := proc.(closed := true, graceTimers := [])]), ses1)
  }

  /** destroySessionProcess; later calls return the first one's promise. */
  function DestroySession(s: State): State {
    if s.ses.destroyed then s
    else
      var os1 := if s.ses.proc.Some? && s.ses.proc.value < |s.os.procs|
        then Terminate(Detach(s.os, s.ses.proc.value), s.ses.proc.value, Teardown) else s.os;
      State(DestroyTransport(s.t), os1,
            ResetProcBound(s.ses).(destroyed := true, proc := None, queueTail := None,
                                   chainStart := |s.ses.tasks|))
  }

  /** The inactivity watchdog of operation `k` fires. */
  function TimeOut(s: State, k: nat): State
    requires k < |s.t.operations|
  {
    var p := s.t.operations[k].proc;
    s.(t := InactivityFires(s.t, k),
       os := if p < |s.os.procs| then Terminate(s.os, p, Inactivity(k)) else s.os)
  }

  /** The escalation timer armed by flush `e.op` fires. */
  function Escalate(s: State, e: Escalation): State
    requires e.op < |s.t.operations|
  {
    var p := s.t.operations[e.op].proc;
    s.(t := s.t.(controlEscalation := None),
       os := if p < |s.os.procs| then Terminate(s.os, p, EscalationBudget(e.op)) else s.os)
  }

  function Remove<T>(xs: seq<T>, i: nat): seq<T>
    requires i < |xs|
  {
    xs[..i] + xs[i + 1..]
  }

  /** The SIGKILL fallback. */
  function Force(os: Os, p: nat, timer: nat): Os
    requires p < |os.procs| && timer < |os.procs[p].graceTimers|
  {
    var proc := os.procs[p];
    os.(procs := os.procs[p := proc.(graceTimers := Remove(proc.graceTimers, timer))],
        signals := if proc.exited then os.signals else os.signals + [Signal(p, true, os.now, Grace)])
  }

  // ── Runs ──────────────────────────────────────────────────────────────

  /** One step; an event that is not possible in `s` leaves it unchanged. */
  function Next(s: State, e: Event, json: string -> Option<Response>): State {
    match e
    case Enqueue(awaits, shows, timeoutMs) => DispatchCommand(s, awaits, shows, timeoutMs)
    case IssueControl(kind) => DispatchControl(s, kind)
    case Proceed(i, seen) => ProceedTask(s, i, seen)
    case Stdout(p, chunk) =>
      if Heard(s, p) then s.(t := HandleStdout(s.t, chunk, json, s.os.now)) else s
    case Stderr(p, text) =>
      if Heard(s, p) then s.(t := HandleStderr(s.t, text, s.os.now)) else s
    case ProcFailed(p) =>
      if Heard(s, p) && AnyListening(s.t) then s.(t := EmitError(s.t, 0, ProcessError)) else s
    case ProcExited(p) =>
      if p < |s.os.procs| then s.(os := s.os.(procs := s.os.procs[p := s.os.procs[p].(exited := true)])) else s
    case ProcClosed(p) =>
      if p < |s.os.procs| && s.os.procs[p].exited && !s.os.procs[p].closed then CloseProc(s, p) else s
    case IdleTimer => if s.t.idleTimer then s.(t := IdleTimerFires(s.t)) else s
    case FinishTimer(k, origin) =>
      if k < |s.t.operations| && Pended(s.t.operations[k], origin) > 0
      then s.(t := FinishTimerFires(s.t, k, origin)) else s
    case InactivityTimer(k) =>
      if Listening(s.t, k) && !s.t.operations[k].purpose.Flush? && s.t.operations[k].deadline <= s.os.now
      then TimeOut(s, k) else s
    case FlushTimer(k) =>
      if Listening(s.t, k) && s.t.operations[k].purpose.Flush?
      then s.(t := Settle(s.t, k, ByFlushWindow)) else s
    case EscalationTimer =>
      if s.t.controlEscalation.Some? && s.t.controlEscalation.value.op < |s.t.operations|
        && s.t.controlEscalation.value.deadline <= s.os.now
      then Escalate(s, s.t.controlEscalation.value) else s
    case GraceTimer(p, timer) =>
      if p < |s.os.procs| && timer < |s.os.procs[p].graceTimers|
        && s.os.procs[p].graceTimers[timer] <= s.os.now
      then s.(os := Force(s.os, p, timer)) else s
    case Advance(ms) => s.(os := s.os.(now := s.os.now + ms))
    case SetFile(file) => s.(ses := s.ses.(currentFile := file))
    case Destroy => DestroySession(s)
  }

  function RunFrom(s: State, events: seq<Event>, json: string -> Option<Response>): State
    decreases |events|
  {
    if events == [] then s else RunFrom(Next(s, events[0], json), events[1..], json)
  }

  /** The state after `events` from a fresh session. */
  function Run(events: seq<Event>, json: string -> Option<Response>): State {
    RunFrom(INITIAL, events, json)
  }
}
