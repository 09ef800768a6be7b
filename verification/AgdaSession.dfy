// AgdaSession and its subprocess table as classes, proved against the session model.

module AgdaSessionClass {
  import opened Basics
  import opened Wire
  import opened TransportModel
  import opened SessionModel
  import opened AgdaTransportClass
  import SessionProofs

  /** The children spawned so far, the signals sent to them and the clock. */
  class ProcessTable {
    var procs: seq<Proc>
    var signals: seq<Signal>
    var now: nat

    function View(): Os
      reads this
    {
      Os(procs, signals, now)
    }

    constructor ()
      ensures View() == Os([], [], 0)
    {
      procs, signals, now := [], [], 0;
    }

    method TerminateAgdaProcess(p: nat, cause: Cause)
      requires p < |procs|
      modifies this
      ensures View() == Terminate(old(View()), p, cause)
    {
      if procs[p].exited {
        return;
      }
      if !procs[p].killed {
        signals := signals + [Signal(p, false, now, cause)];
        procs := procs[p := procs[p].(killed := true)];
      }
      procs := procs[p := procs[p].(graceTimers := procs[p].graceTimers + [now + TERMINATE_GRACE_MS])];
      assert procs == Terminate(old(View()), p, cause).procs;
    }

    method DetachListeners(p: nat)
      requires p < |procs|
      modifies this`procs
      ensures View() == Detach(old(View()), p)
    {
      procs := procs[p := procs[p].(attached := false)];
    }

    method Spawn() returns (p: nat)
      modifies this`procs
      ensures View() == old(View()).(procs := old(procs) + [NEW_PROC]) && p == |old(procs)|
    {
      p := |procs|;
      procs := procs + [NEW_PROC];
    }

    method GraceTimerFired(p: nat, timer: nat)
      requires p < |procs| && timer < |procs[p].graceTimers|
      modifies this
      ensures View() == Force(old(View()), p, timer)
    {
      procs := procs[p := procs[p].(graceTimers := Remove(procs[p].graceTimers, timer))];
      if !procs[p].exited {
        signals := signals + [Signal(p, true, now, Grace)];
      }
    }

    method Update(p: nat, proc: Proc)
      requires p < |procs|
      modifies this`procs
      ensures View() == old(View()).(procs := old(procs)[p := proc])
    {
      procs := procs[p := proc];
    }
  }

  class AgdaSession {
    const transport: AgdaTransport
    const processes: ProcessTable
    var proc: Option<nat>
    var destroyed: bool
    var commandSerial: nat
    var cancelledThrough: int
    /** Every promise ever chained, and the one `commandQueue` stands for. */
    var tasks: seq<Task>
    var queueTail: Option<nat>
    var chainStart: nat
    var currentFile: Option<string>
    var versionKnown: bool
    var versionAttempts: nat

    function Fields(): Session
      reads this
    {
      Session(proc, destroyed, commandSerial, cancelledThrough, tasks, queueTail, chainStart,
              currentFile, versionKnown, versionAttempts)
    }

    function View(): State
      reads this, transport, transport.goalTerminus, processes
    {
      State(transport.State(), processes.View(), Fields())
    }

    constructor ()
      ensures View() == INITIAL
      ensures fresh(transport) && fresh(transport.goalTerminus) && fresh(processes)
    {
      transport := new AgdaTransport();
      processes := new ProcessTable();
      proc, destroyed, commandSerial, cancelledThrough := None, false, 0, -1;
      tasks, queueTail, chainStart := [], None, 0;
      currentFile, versionKnown, versionAttempts := None, false, 0;
    }

    // ── Dispatch ────────────────────────────────────────────────────────

    method DispatchSessionCommand(awaitsTerminus: bool, showsVersion: bool, timeoutMs: nat)
      modifies this
      ensures View() == DispatchCommand(old(View()), awaitsTerminus, showsVersion, timeoutMs)
    {
      commandSerial := commandSerial + 1;
      tasks, queueTail := tasks + [Task(UserCommand(commandSerial, awaitsTerminus, showsVersion, timeoutMs),
                                        queueTail, Queued)], Some(|tasks|);
    }

    method DispatchSessionControlCommand(kind: ControlKind)
      modifies this, transport
      ensures View() == DispatchControl(old(View()), kind)
    {
      var wasInterrupting := transport.RejectInFlightCommand(Interrupted);
      cancelledThrough := commandSerial;
      var armEscalation := kind.Exit? || wasInterrupting;
      tasks, queueTail := tasks + [Task(ControlCommand(kind, wasInterrupting, armEscalation), queueTail, Queued)],
                          Some(|tasks|);
    }

    method SetTask(i: nat, phase: Phase)
      requires i < |tasks|
      modifies this`tasks
      ensures View() == SetPhase(old(View()), i, phase)
    {
      tasks := tasks[i := tasks[i].(phase := phase)];
    }

    method ResetProcBoundState()
      modifies this`currentFile, this`versionKnown, this`versionAttempts
      ensures Fields() == ResetProcBound(old(Fields()))
    {
      currentFile := None;
      versionKnown := false;
      versionAttempts := 0;
    }

    method ResetFileBoundStateIfProcDied(p: nat)
      modifies this`currentFile
      ensures View() == ResetIfDied(old(View()), p)
    {
      if p < |processes.procs| && IsLive(processes.procs[p]) {
        return;
      }
      if p < |processes.procs| {
        currentFile := None;
      }
    }

    method EnsureProcessForSession() returns (p: nat)
      modifies this, processes
      ensures (View(), p) == EnsureProcess(old(View()))
    {
      if proc.Some? && proc.value < |processes.procs| && IsLive(processes.procs[proc.value]) {
        return proc.value;
      }
      if proc.Some? && proc.value < |processes.procs| {
        processes.DetachListeners(proc.value);
        processes.TerminateAgdaProcess(proc.value, Respawn);
      }
      ResetProcBoundState();
      p := processes.Spawn();
      proc := Some(p);
    }

    method VersionPending() returns (pending: bool)
      ensures pending == NeedsVersion(View())
    {
      pending := !versionKnown && versionAttempts < VERSION_DETECTION_MAX_ATTEMPTS;
    }

    /** The body of user task `i` up to its first await. */
    method BeginUserTask(i: nat)
      requires i < |tasks| && tasks[i].request.UserCommand?
      modifies this, transport, transport.goalTerminus, processes
      ensures View() == StartUser(old(View()), i)
    {
      if destroyed {
        SetTask(i, Settled(Failed(SessionDestroyed)));
        return;
      }
      if tasks[i].request.serial <= cancelledThrough {
        SetTask(i, Settled(Failed(Cancelled)));
        return;
      }
      SessionProofs.EnsureProcessKeepsQueue(View());
      var p := EnsureProcessForSession();
      var fileAtStart := currentFile;
      var pending := VersionPending();
      hide EnsureProcess;
      if pending && !tasks[i].request.showsVersion {
        versionAttempts := versionAttempts + 1;
        var k := transport.SendCommand(i, Probe, p, false, VERSION_DETECTION_TIMEOUT_MS, processes.now);
        SetTask(i, Probing(Some(k), p, fileAtStart));
      } else {
        SetTask(i, Probing(None, p, fileAtStart));
      }
    }

    /** From the probe's answer to the write of the user command. */
    method AfterProbe(i: nat, versionSeen: bool)
      requires i < |tasks| && tasks[i].request.UserCommand?
      requires tasks[i].phase.Probing? && Ready(View(), i)
      modifies this, transport, transport.goalTerminus
      ensures View() == ResumeProbe(old(View()), i, versionSeen)
    {
      var Probing(probe, p, fileAtStart) := tasks[i].phase;
      if probe.Some? && transport.operations[probe.value].outcome == Rejected(Interrupted) {
        ResetFileBoundStateIfProcDied(p);
        SetTask(i, Settled(Failed(TransportError(Interrupted))));
        return;
      }
      if versionSeen && probe.Some? && transport.operations[probe.value].outcome.Resolved? {
        versionKnown := true;
      }
      if destroyed {
        ResetFileBoundStateIfProcDied(p);
        SetTask(i, Settled(Failed(SessionDestroyed)));
      } else if p >= |processes.procs| || !IsLive(processes.procs[p]) || fileAtStart != currentFile {
        ResetFileBoundStateIfProcDied(p);
        SetTask(i, Settled(Failed(StaleEnvelope)));
      } else {
        var request := tasks[i].request;
        var k := transport.SendCommand(i, User, p, request.awaitsTerminus, request.timeoutMs, processes.now);
        SetTask(i, Commanding(k));
      }
    }

    /** From the command's answer to the settling of its promise. */
    method AfterCommand(i: nat, versionSeen: bool)
      requires i < |tasks| && tasks[i].request.UserCommand?
      requires tasks[i].phase.Commanding? && Ready(View(), i)
      modifies this
      ensures View() == ResumeCommand(old(View()), i, versionSeen)
    {
      var op := transport.operations[tasks[i].phase.op];
      ResetFileBoundStateIfProcDied(op.proc);
      if op.outcome.Rejected? {
        SetTask(i, Settled(Failed(TransportError(op.outcome.why))));
        return;
      }
      var pending := VersionPending();
      if pending && tasks[i].request.showsVersion {
        versionAttempts := versionAttempts + 1;
        versionKnown := versionSeen;
      }
      SetTask(i, Settled(Delivered(op.outcome.responses)));
    }

    /** The body of control task `i` up to its await. */
    method BeginControlTask(i: nat)
      requires i < |tasks| && tasks[i].request.ControlCommand?
      modifies this, transport, processes
      ensures View() == StartControl(old(View()), i)
    {
      if destroyed {
        SetTask(i, Settled(Failed(SessionDestroyed)));
        return;
      }
      SessionProofs.EnsureProcessKeepsQueue(View());
      var p := EnsureProcessForSession();
      var arm := tasks[i].request.arm;
      hide EnsureProcess, StartFlush;
      if arm && p < |processes.procs| {
        processes.Update(p, processes.procs[p].(clearsEscalation := true));
      }
      var k := transport.SendFireAndForgetCommand(i, p, arm, processes.now);
      SetTask(i, Flushing(k));
    }

    method AfterFlush(i: nat)
      requires i < |tasks| && tasks[i].phase.Flushing? && Ready(View(), i)
      modifies this
      ensures View() == ResumeFlush(old(View()), i)
    {
      var outcome := transport.operations[tasks[i].phase.op].outcome;
      if outcome.Resolved? {
        SetTask(i, Settled(Delivered(outcome.responses)));
      } else {
        SetTask(i, Settled(Failed(TransportError(outcome.why))));
      }
    }

    // ── Process events and teardown ─────────────────────────────────────

    method ProcessClosed(p: nat)
      requires p < |processes.procs|
      modifies this, transport, processes
      ensures View() == CloseProc(old(View()), p)
    {
      var closing := processes.procs[p];
      if closing.attached {
        transport.HandleProcessCloseEvent();
        if proc.None? || proc.value == p {
          proc := None;
          ResetProcBoundState();
        }
      }
      if closing.clearsEscalation {
        transport.controlEscalation := None;
      }
      processes.Update(p, closing.(closed := true, graceTimers := []));
    }

    method Destroy()
      modifies this, transport, processes
      ensures View() == DestroySession(old(View()))
    {
      if destroyed {
        return;
      }
      destroyed := true;
      if proc.Some? && proc.value < |processes.procs| {
        processes.DetachListeners(proc.value);
        processes.TerminateAgdaProcess(proc.value, Teardown);
      }
      proc := None;
      ResetProcBoundState();
      hide DestroyTransport, Terminate;
      transport.Destroy();
      queueTail := None;
      chainStart := |tasks|;
    }

    method CommandTimedOut(k: nat)
      requires k < |transport.operations|
      modifies transport, processes
      ensures View() == TimeOut(old(View()), k)
    {
      var p := transport.operations[k].proc;
      if p < |processes.procs| {
        processes.TerminateAgdaProcess(p, Inactivity(k));
      }
      transport.InactivityFired(k);
    }

    method EscalationFired(e: Escalation)
      requires e.op < |transport.operations|
      modifies transport, processes
      ensures View() == Escalate(old(View()), e)
    {
      var p := transport.operations[e.op].proc;
      transport.controlEscalation := None;
      if p < |processes.procs| {
        processes.TerminateAgdaProcess(p, EscalationBudget(e.op));
      }
    }

    // ── Events ──────────────────────────────────────────────────────────

    /** What the promise chain delivers to task `i`. */
    method Proceed(i: nat, versionSeen: bool)
      modifies this, transport, transport.goalTerminus, processes
      ensures View() == ProceedTask(old(View()), i, versionSeen)
    {
      hide StartUser, ResumeProbe, ResumeCommand, StartControl, ResumeFlush;
      if !Ready(View(), i) {
        return;
      }
      var phase := tasks[i].phase;
      if tasks[i].request.UserCommand? {
        match phase {
          case Queued => BeginUserTask(i);
          case Probing(_, _, _) => AfterProbe(i, versionSeen);
          case Commanding(_) => AfterCommand(i, versionSeen);
          case _ =>
        }
      } else {
        match phase {
          case Queued => BeginControlTask(i);
          case Flushing(_) => AfterFlush(i);
          case _ =>
        }
      }
    }

    method OnStream(e: Event, json: string -> Option<Response>)
      requires e.Stdout? || e.Stderr? || e.ProcFailed?
      modifies transport, transport.goalTerminus
      ensures View() == Next(old(View()), e, json)
    {
      hide HandleStdout, HandleStderr, EmitError, AnyListening;
      if !Heard(View(), e.proc) {
        return;
      }
      match e {
        case Stdout(p, chunk) => transport.HandleStdoutChunk(chunk, json, processes.now);
        case Stderr(p, text) => transport.HandleStderrChunk(text, processes.now);
        case ProcFailed(p) =>
          if AnyListening(transport.State()) {
            var heard := transport.RejectInFlightCommand(ProcessError);
          }
      }
    }

    method OnProcess(e: Event, json: string -> Option<Response>)
      requires e.ProcExited? || e.ProcClosed?
      modifies this, transport, processes
      ensures View() == Next(old(View()), e, json)
    {
      hide CloseProc;
      if e.proc >= |processes.procs| {
        return;
      }
      match e {
        case ProcExited(p) => processes.Update(p, processes.procs[p].(exited := true));
        case ProcClosed(p) =>
          if processes.procs[p].exited && !processes.procs[p].closed {
            ProcessClosed(p);
          }
      }
    }

    method OnTransportTimer(e: Event, json: string -> Option<Response>)
      requires e.IdleTimer? || e.FinishTimer? || e.FlushTimer?
      modifies transport
      ensures View() == Next(old(View()), e, json)
    {
      hide IdleTimerFires, FinishTimerFires, Settle;
      match e {
        case IdleTimer =>
          if transport.idleTimer {
            transport.IdleTimerFired();
          }
        case FinishTimer(k, origin) =>
          if k < |transport.operations| && Pended(transport.operations[k], origin) > 0 {
            transport.FinishTimerFired(k, origin);
          }
        case FlushTimer(k) =>
          if Listening(transport.State(), k) && transport.operations[k].purpose.Flush? {
            transport.SettleFlush(k, ByFlushWindow);
          }
      }
    }

    method OnKillTimer(e: Event, json: string -> Option<Response>)
      requires e.InactivityTimer? || e.EscalationTimer? || e.GraceTimer?
      modifies transport, processes
      ensures View() == Next(old(View()), e, json)
    {
      hide TimeOut, Escalate, Force;
      match e {
        case InactivityTimer(k) =>
          if Listening(transport.State(), k) && !transport.operations[k].purpose.Flush?
            && transport.operations[k].deadline <= processes.now {
            CommandTimedOut(k);
          }
        case EscalationTimer =>
          var armed := transport.controlEscalation;
          if armed.Some? && armed.value.op < |transport.operations| && armed.value.deadline <= processes.now {
            EscalationFired(armed.value);
          }
        case GraceTimer(p, timer) =>
          if p < |processes.procs| && timer < |processes.procs[p].graceTimers|
            && processes.procs[p].graceTimers[timer] <= processes.now {
            processes.GraceTimerFired(p, timer);
          }
      }
    }

    /** Any event: the object takes the step of the model, so what holds over all runs holds of it. */
    method Step(e: Event, json: string -> Option<Response>)
      modifies this, transport, transport.goalTerminus, processes
      ensures View() == Next(old(View()), e, json)
    {
      hide DispatchCommand, DispatchControl, ProceedTask, DestroySession;
      match e {
        case Enqueue(awaits, shows, timeoutMs) => DispatchSessionCommand(awaits, shows, timeoutMs);
        case IssueControl(kind) => DispatchSessionControlCommand(kind);
        case Proceed(i, seen) => this.Proceed(i, seen);
        case Stdout(_, _) => OnStream(e, json);
        case Stderr(_, _) => OnStream(e, json);
        case ProcFailed(_) => OnStream(e, json);
        case ProcExited(_) => OnProcess(e, json);
        case ProcClosed(_) => OnProcess(e, json);
        case IdleTimer => OnTransportTimer(e, json);
        case FinishTimer(_, _) => OnTransportTimer(e, json);
        case FlushTimer(_) => OnTransportTimer(e, json);
        case InactivityTimer(_) => OnKillTimer(e, json);
        case EscalationTimer => OnKillTimer(e, json);
        case GraceTimer(_, _) => OnKillTimer(e, json);
        case Advance(ms) => processes.now := processes.now + ms;
        case SetFile(file) => currentFile := file;
        case Destroy => this.Destroy();
      }
    }
  }
}
