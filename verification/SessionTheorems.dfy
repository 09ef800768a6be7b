// What holds in every run of the session.

module SessionTheorems {
  import opened Basics
  import opened Wire
  import opened Terminus
  import opened TransportModel
  import opened TransportProofs
  import opened SessionModel
  import opened SessionProofs

  type Json = string -> Option<Response>

  // ── Serialisation ─────────────────────────────────────────────────────

  /** At most one write to stdin awaits its answer, and at most one task is between its
      entry and its settling. */
  lemma OneOperationAtATime(events: seq<Event>, json: Json)
    ensures var s := Run(events, json);
      && (forall k, l :: Listening(s.t, k) && Listening(s.t, l) ==> k == l)
      && (forall i, j :: 0 <= i < j < |s.ses.tasks| ==>
          !(Active(s.ses.tasks[i].phase) && Active(s.ses.tasks[j].phase)))
      && (forall k: nat :: Listening(s.t, k) ==>
          s.t.operations[k].task < |s.ses.tasks| && Active(s.ses.tasks[s.t.operations[k].task].phase))
  {
    RunKeeps(events, json);
    var s := Run(events, json);
    forall i, j | 0 <= i < j < |s.ses.tasks| && Active(s.ses.tasks[j].phase)
      ensures !Active(s.ses.tasks[i].phase)
    {
      assert Started(s.ses, j);
    }
    forall k: nat | Listening(s.t, k)
      ensures s.t.operations[k].task < |s.ses.tasks|
      ensures Active(s.ses.tasks[s.t.operations[k].task].phase)
    {
      assert Fits(s.ses.tasks[s.t.operations[k].task].phase, k, s.t.operations[k]);
    }
  }

  /** Writes reach stdin in the order their tasks were queued; a task's second write is
      its user command, after its probe has settled. */
  lemma WritesInQueueOrder(events: seq<Event>, json: Json, k: nat, l: nat)
    requires k < l < |Run(events, json).t.operations|
    ensures var ops := Run(events, json).t.operations;
      && ops[k].task <= ops[l].task
      && (ops[k].task == ops[l].task ==>
          ops[k].purpose.Probe? && !ops[k].outcome.Pending? && ops[l].purpose.User?)
  {
    RunKeeps(events, json);
    var s := Run(events, json);
    assert Precedes(s.t.operations[k], s.t.operations[l]);
  }

  /** A delivered result is what was accepted between its operation's start and end, in
      arrival order; a flush cut short by destroy delivers nothing. No accepted response
      is part of a later result. */
  lemma ResultsAreSlices(events: seq<Event>, json: Json, i: nat, rs: seq<Response>)
    requires i < |Run(events, json).ses.tasks|
    requires Run(events, json).ses.tasks[i].phase == Settled(Delivered(rs))
    ensures var s := Run(events, json);
      exists k :: 0 <= k < |s.t.operations| && SliceOf(s.t, k, i, rs)
  {
    RunKeeps(events, json);
    var s := Run(events, json);
    assert Holds(s.t, i, s.ses.tasks[i]);
    var k :| 0 <= k < |s.t.operations| && Answers(s.t.operations[k], i, s.ses.tasks[i].request, rs);
    assert SettledWell(s.t, s.t.operations[k]);
    assert SliceOf(s.t, k, i, rs);
  }

  ghost predicate SliceOf(t: Transport, k: nat, i: nat, rs: seq<Response>)
    requires k < |t.operations|
  {
    var op := t.operations[k];
    && op.task == i && op.outcome.Resolved?
    && op.since <= op.outcome.until <= |t.accepted|
    && (rs == t.accepted[op.since..op.outcome.until] || (op.purpose.Flush? && rs == []))
    && (op.purpose.User? ==> NoEchoes(rs))
    && forall l :: k < l < |t.operations| ==> op.outcome.until <= t.operations[l].since
  }

  // ── Destroy ───────────────────────────────────────────────────────────

  lemma DestroyedStep(s: State, e: Event, json: Json)
    requires s.ses.destroyed && Inv(s)
    ensures Next(s, e, json).ses.destroyed
    ensures |Next(s, e, json).t.operations| == |s.t.operations|
    ensures |Next(s, e, json).os.procs| == |s.os.procs|
  {
    hide Inv;
    if e.Stdout? || e.Stderr? {
      DestroyedStream(s, e, json);
    } else if e.Proceed? {
      DestroyedTask(s, e, json);
    }
  }

  lemma DestroyedStream(s: State, e: Event, json: Json)
    requires Inv(s) && (e.Stdout? || e.Stderr?)
    ensures Next(s, e, json).ses == s.ses && Next(s, e, json).os == s.os
    ensures |Next(s, e, json).t.operations| == |s.t.operations|
  {
    if e.Stdout? {
      HandleStdoutKeeps(s.t, e.chunk, json, s.os.now);
    }
  }

  lemma DestroyedTask(s: State, e: Event, json: Json)
    requires s.ses.destroyed && e.Proceed?
    ensures Next(s, e, json).ses.destroyed && Next(s, e, json).t == s.t
    ensures Next(s, e, json).os == s.os
  {
    hide EnsureProcess, StartCommand, StartFlush;
  }

  /** After destroy no process is spawned and nothing more is written to stdin. */
  lemma {:induction false} QuietAfterDestroy(s: State, events: seq<Event>, json: Json)
    requires s.ses.destroyed && Inv(s)
    ensures var s' := RunFrom(s, events, json);
      s'.ses.destroyed && |s'.t.operations| == |s.t.operations| && |s'.os.procs| == |s.os.procs|
    decreases |events|
  {
    if events != [] {
      DestroyedStep(s, events[0], json);
      NextKeeps(s, events[0], json);
      QuietAfterDestroy(Next(s, events[0], json), events[1..], json);
    }
  }

  lemma NothingAfterDestroy(before: seq<Event>, after: seq<Event>, json: Json)
    ensures var s := Next(Run(before, json), Destroy, json);
      var s' := RunFrom(s, after, json);
      |s'.t.operations| == |s.t.operations| && |s'.os.procs| == |s.os.procs| && !AnyListening(s'.t)
  {
    RunKeeps(before, json);
    var s := Next(Run(before, json), Destroy, json);
    NextKeeps(Run(before, json), Destroy, json);
    QuietAfterDestroy(s, after, json);
    RunFromKeeps(s, after, json);
  }

  // ── Signals ───────────────────────────────────────────────────────────

  /** Why a signal may be sent in state `s` at event `e`. */
  ghost predicate Justified(s: State, e: Event, sig: Signal) {
    && sig.at == s.os.now
    && sig.proc < |s.os.procs| && !s.os.procs[sig.proc].exited
    && match sig.cause
       case Inactivity(k) =>
         && !sig.force && Listening(s.t, k) && IsRegular(s.t.operations[k])
         && sig.proc == s.t.operations[k].proc
         && SilentFor(s, k, s.t.operations[k].timeoutMs)
       case EscalationBudget(f) =>
         !sig.force && s.t.controlEscalation.Some? && s.t.controlEscalation.value.op == f && Unanswered(s, f)
         && sig.proc == s.t.operations[f].proc
       case Teardown =>
         !sig.force && e.Destroy? && !s.ses.destroyed && s.ses.proc == Some(sig.proc)
       case Respawn => false
       case Grace => sig.force && Termed(s.os, sig.proc, s.os.now)
  }

  /** Nothing was accepted for operation `k` in the last `ms`, which began after it did. */
  ghost predicate SilentFor(s: State, k: nat, ms: nat)
    requires k < |s.t.operations|
  {
    && s.t.operations[k].startedAt + ms <= s.os.now
    && |s.t.acceptedAt| == |s.t.accepted|
    && forall i :: s.t.operations[k].since <= i < |s.t.accepted| ==> s.t.acceptedAt[i] + ms <= s.os.now
  }

  /** Flush `f` is the latest one, its control command was an exit or interrupted an
      operation, its budget is over, and no echo was parsed since it started. */
  ghost predicate Unanswered(s: State, f: nat) {
    && f < |s.t.operations| && s.t.operations[f].purpose.Flush?
    && (forall k :: f < k < |s.t.operations| ==> !s.t.operations[k].purpose.Flush?)
    && s.t.operations[f].task < |s.ses.tasks|
    && (var request := s.ses.tasks[s.t.operations[f].task].request;
        request.ControlCommand? && (request.kind.Exit? || request.interrupted))
    && s.t.operations[f].startedAt + CONTROL_ESCALATION_MS <= s.os.now
    && s.t.controlEscalation.Some? && s.t.controlEscalation.value.parsedBefore <= |s.t.parsed|
    && NoEchoes(s.t.parsed[s.t.controlEscalation.value.parsedBefore..])
  }

  lemma DeadlineIsSilence(s: State, k: nat)
    requires Inv(s) && Listening(s.t, k) && IsRegular(s.t.operations[k])
    requires s.t.operations[k].deadline <= s.os.now
    ensures SilentFor(s, k, s.t.operations[k].timeoutMs)
  {
    assert PendingWell(s.t, k);
    var t := s.t;
    assert t.operations[k].deadline == LastActivity(t, k) + t.operations[k].timeoutMs;
    assert Stamps(t, s.os.now);
  }

  /** One step adds at most one signal, and that one is justified. In particular a
      respawn never signals. */
  lemma SignalsOfAStep(s: State, e: Event, json: Json)
    requires Inv(s)
    ensures var s' := Next(s, e, json);
      || s'.os.signals == s.os.signals
      || (exists sig :: s'.os.signals == s.os.signals + [sig] && Justified(s, e, sig))
  {
    var s' := Next(s, e, json);
    if e.InactivityTimer? && s' != s {
      var k := e.op;
      DeadlineIsSilence(s, k);
      TerminateKeeps(s.os, s.t.operations[k].proc, Inactivity(k));
      var sig := Signal(s.t.operations[k].proc, false, s.os.now, Inactivity(k));
      assert s'.os.signals != s.os.signals ==> Justified(s, e, sig);
    } else if e.EscalationTimer? && s' != s {
      EscalationSignal(s, e, json);
    } else if e.GraceTimer? && s' != s {
      ForceKeeps(s.os, e.proc, e.timer);
      var sig := Signal(e.proc, true, s.os.now, Grace);
      assert s'.os.signals != s.os.signals ==> Justified(s, e, sig);
    } else if e.Destroy? {
      DestroySignal(s, e, json);
    } else if e.Proceed? {
      ProceedQuietly(s, e.task, e.versionSeen);
    }
  }

  lemma EscalationSignal(s: State, e: Event, json: Json)
    requires Inv(s) && e.EscalationTimer?
    ensures var s' := Next(s, e, json);
      || s'.os.signals == s.os.signals
      || (exists sig :: s'.os.signals == s.os.signals + [sig] && Justified(s, e, sig))
  {
    var s' := Next(s, e, json);
    if s' != s {
      var f := s.t.controlEscalation.value.op;
      TerminateKeeps(s.os, s.t.operations[f].proc, EscalationBudget(f));
      assert EscalationWell(s.t) && Gated(s.t, s.ses);
      var sig := Signal(s.t.operations[f].proc, false, s.os.now, EscalationBudget(f));
      assert Unanswered(s, f);
      assert s'.os.signals != s.os.signals ==> Justified(s, e, sig);
    }
  }

  lemma DestroySignal(s: State, e: Event, json: Json)
    requires Inv(s) && e.Destroy?
    ensures var s' := Next(s, e, json);
      || s'.os.signals == s.os.signals
      || (exists sig :: s'.os.signals == s.os.signals + [sig] && Justified(s, e, sig))
  {
    var s' := Next(s, e, json);
    if !s.ses.destroyed && s.ses.proc.Some? {
      var p := s.ses.proc.value;
      var proc := s.os.procs[p].(attached := false);
      forall m | 0 <= m < |proc.graceTimers| ensures Termed(s.os, p, proc.graceTimers[m]) {
        assert Termed(s.os, p, s.os.procs[p].graceTimers[m]);
      }
      FlagsKeep(s.os, p, proc);
      TerminateKeeps(Detach(s.os, p), p, Teardown);
      var sig := Signal(p, false, s.os.now, Teardown);
      assert s'.os.signals != s.os.signals ==> Justified(s, e, sig);
    }
  }

  /** Running a task, respawn included, sends no signal; operations are only added. */
  ghost predicate Quietly(s: State, s': State) {
    s'.os.signals == s.os.signals && Evolves(s.t, s'.t)
  }

  lemma StartUserQuietly(s: State, i: nat)
    requires Inv(s) && i < |s.ses.tasks| && s.ses.tasks[i].request.UserCommand?
    ensures Quietly(s, StartUser(s, i))
  {
    EnsureProcessKeeps(s);
    hide Inv, EnsureProcess, NeedsVersion;
  }

  lemma ResumeProbeQuietly(s: State, i: nat, seen: bool)
    requires i < |s.ses.tasks| && s.ses.tasks[i].request.UserCommand?
    requires s.ses.tasks[i].phase.Probing? && Ready(s, i)
    ensures Quietly(s, ResumeProbe(s, i, seen))
  {
  }

  lemma ResumeCommandQuietly(s: State, i: nat, seen: bool)
    requires i < |s.ses.tasks| && s.ses.tasks[i].request.UserCommand?
    requires s.ses.tasks[i].phase.Commanding? && Ready(s, i)
    ensures Quietly(s, ResumeCommand(s, i, seen))
  {
  }

  lemma StartControlQuietly(s: State, i: nat)
    requires Inv(s) && Ready(s, i) && s.ses.tasks[i].request.ControlCommand? && s.ses.tasks[i].phase.Queued?
    ensures Quietly(s, StartControl(s, i))
  {
    hide EnsureProcess, EmitError;
    if !s.ses.destroyed {
      EnsureProcessKeeps(s);
      ReadyIsAlone(s, i);
      EmitErrorKeeps(s.t, Interrupted, s.os.now);
      hide Inv;
    }
  }

  lemma ProceedQuietly(s: State, i: nat, seen: bool)
    requires Inv(s)
    ensures Quietly(s, ProceedTask(s, i, seen))
  {
    hide Inv, StartUser, ResumeProbe, ResumeCommand, StartControl;
    if Ready(s, i) {
      if s.ses.tasks[i].request.UserCommand? {
        match s.ses.tasks[i].phase {
          case Queued => StartUserQuietly(s, i);
          case Probing(_, _, _) => ResumeProbeQuietly(s, i, seen);
          case Commanding(_) => ResumeCommandQuietly(s, i, seen);
          case _ =>
        }
      } else if s.ses.tasks[i].phase.Queued? {
        StartControlQuietly(s, i);
      }
    }
  }

  /** Every signal of every run was justified when it was sent. */
  lemma EveryKillHasACause(events: seq<Event>, e: Event, json: Json)
    ensures var s := Run(events, json);
      var s' := Next(s, e, json);
      || s'.os.signals == s.os.signals
      || (exists sig :: s'.os.signals == s.os.signals + [sig] && Justified(s, e, sig))
  {
    RunKeeps(events, json);
    SignalsOfAStep(Run(events, json), e, json);
  }

  // ── Cancellation ──────────────────────────────────────────────────────

  /** A queued user command of a live session is cancelled on entry exactly if a control
      command was issued after it was queued. */
  lemma CancellationIsExact(events: seq<Event>, json: Json, i: nat, seen: bool)
    requires var s := Run(events, json);
      && Ready(s, i) && s.ses.tasks[i].request.UserCommand? && s.ses.tasks[i].phase.Queued?
      && !s.ses.destroyed
    ensures var s := Run(events, json);
      Next(s, Proceed(i, seen), json).ses.tasks[i].phase == Settled(Failed(Cancelled))
      <==> exists j :: i < j < |s.ses.tasks| && s.ses.tasks[j].request.ControlCommand?
    ensures var s := Run(events, json);
      s.ses.cancelledThrough <= s.ses.commandSerial
  {
    RunKeeps(events, json);
    var s := Run(events, json);
    EnsureProcessKeeps(s);
    assert ControlAfter(s.ses, i) <==> s.ses.tasks[i].request.serial <= s.ses.cancelledThrough;
  }

  ghost predicate WasCancelled(ses: Session, i: int) {
    0 <= i < |ses.tasks| && ses.tasks[i].phase == Settled(Failed(Cancelled))
  }

  ghost predicate InterruptedProbe(t: Transport, k: int) {
    0 <= k < |t.operations| && t.operations[k].purpose.Probe? && t.operations[k].outcome == Rejected(Interrupted)
  }

  /** A cancelled command never wrote anything; one interrupted during its probe never
      writes its user command, however the run goes on. */
  lemma StoppedCommandsDoNotWrite(events: seq<Event>, json: Json)
    ensures var s := Run(events, json);
      && (forall k, i :: 0 <= k < |s.t.operations| && WasCancelled(s.ses, i) ==> s.t.operations[k].task != i)
      && (forall k, l :: InterruptedProbe(s.t, k) && 0 <= l < |s.t.operations| && s.t.operations[l].purpose.User? ==>
          s.t.operations[l].task != s.t.operations[k].task)
  {
    RunKeeps(events, json);
    var s := Run(events, json);
    forall k, i | 0 <= k < |s.t.operations| && WasCancelled(s.ses, i)
      ensures s.t.operations[k].task != i
    {
      assert Fits(s.ses.tasks[s.t.operations[k].task].phase, k, s.t.operations[k]);
    }
    forall k, l | InterruptedProbe(s.t, k) && 0 <= l < |s.t.operations| && s.t.operations[l].purpose.User?
      ensures s.t.operations[l].task != s.t.operations[k].task
    {
      if k < l {
        assert Precedes(s.t.operations[k], s.t.operations[l]);
      } else {
        assert Precedes(s.t.operations[l], s.t.operations[k]);
      }
    }
  }

  /** A control command issued while a probe or command is pending interrupts it. */
  lemma ControlInterrupts(events: seq<Event>, json: Json, kind: ControlKind, k: nat)
    requires Listening(Run(events, json).t, k)
    ensures var s := Run(events, json);
      var s' := Next(s, IssueControl(kind), json);
      && !AnyListening(s'.t)
      && (IsRegular(s.t.operations[k]) ==> s'.t.operations[k].outcome == Rejected(Interrupted))
      && (s.t.operations[k].purpose.Flush? ==> s'.t.operations[k].outcome.Resolved?)
      && s'.ses.tasks[|s.ses.tasks|].request == ControlCommand(kind, true, true)
  {
    RunKeeps(events, json);
    var s := Run(events, json);
    EmitErrorKeeps(s.t, Interrupted, s.os.now);
  }

  // ── Loads ─────────────────────────────────────────────────────────────

  /** A load's delivered result holds its goal terminus, unless the process closed. */
  lemma IdleLoadsHaveTheirTerminus(events: seq<Event>, json: Json, i: nat, rs: seq<Response>)
    requires i < |Run(events, json).ses.tasks|
    requires var task := Run(events, json).ses.tasks[i];
      task.request.UserCommand? && task.request.awaitsTerminus && task.phase == Settled(Delivered(rs))
    ensures var ops := Run(events, json).t.operations;
      exists k :: 0 <= k < |ops| && ops[k].task == i && ops[k].outcome.Resolved? && ops[k].outcome.responses == rs
        && (ops[k].outcome.how.ByProcessClose? || (ops[k].outcome.how.ByIdle? && TerminusSeen(rs)))
  {
    RunKeeps(events, json);
    var s := Run(events, json);
    assert Holds(s.t, i, s.ses.tasks[i]);
    var k :| 0 <= k < |s.t.operations| && Answers(s.t.operations[k], i, s.ses.tasks[i].request, rs);
    assert SettledWell(s.t, s.t.operations[k]);
  }

  // ── Promises settle once ──────────────────────────────────────────────

  /** Operations are never forgotten, and a settled one keeps its outcome. */
  ghost predicate Evolves(t: Transport, t': Transport) {
    && |t.operations| <= |t'.operations|
    && forall k :: 0 <= k < |t.operations| ==>
        && SameIdentity(t.operations[k], t'.operations[k])
        && (!t.operations[k].outcome.Pending? ==> t'.operations[k].outcome == t.operations[k].outcome)
  }

  lemma OperationsEvolve(s: State, e: Event, json: Json)
    requires Inv(s)
    ensures Evolves(s.t, Next(s, e, json).t)
  {
    hide Inv;
    if e.IdleTimer? || e.FinishTimer? || e.InactivityTimer? || e.FlushTimer? {
      TimersEvolve(s, e, json);
    } else if e.Stdout? || e.Stderr? || e.ProcFailed? || e.ProcClosed? {
      ProcessesEvolve(s, e, json);
    } else if e.IssueControl? || e.Proceed? || e.Destroy? {
      TasksEvolve(s, e, json);
    }
  }

  lemma TimersEvolve(s: State, e: Event, json: Json)
    requires e.IdleTimer? || e.FinishTimer? || e.InactivityTimer? || e.FlushTimer?
    ensures Evolves(s.t, Next(s, e, json).t)
  {
    hide Terminate;
  }

  lemma ProcessesEvolve(s: State, e: Event, json: Json)
    requires Inv(s)
    requires e.Stdout? || e.Stderr? || e.ProcFailed? || e.ProcClosed?
    ensures Evolves(s.t, Next(s, e, json).t)
  {
    hide Inv, HandleStdout, HandleStderr, EmitError;
    match e {
      case Stdout(p, chunk) => StdoutKeeps(s, chunk, json);
      case Stderr(p, text) => StderrKeeps(s, text);
      case ProcFailed(p) => InterruptKeeps(s, ProcessError);
      case ProcClosed(p) =>
    }
  }

  lemma TasksEvolve(s: State, e: Event, json: Json)
    requires Inv(s)
    requires e.IssueControl? || e.Proceed? || e.Destroy?
    ensures Evolves(s.t, Next(s, e, json).t)
  {
    hide Inv, ProceedTask, EmitError, DestroyTransport, Terminate;
    match e {
      case Proceed(i, seen) => ProceedQuietly(s, i, seen);
      case IssueControl(kind) => InterruptKeeps(s, Interrupted);
      case Destroy => DestroyTransportRefines(s);
    }
  }

  lemma {:induction false} RunsEvolve(s: State, events: seq<Event>, json: Json)
    requires Inv(s)
    ensures Evolves(s.t, RunFrom(s, events, json).t)
    decreases |events|
  {
    if events != [] {
      OperationsEvolve(s, events[0], json);
      NextKeeps(s, events[0], json);
      RunsEvolve(Next(s, events[0], json), events[1..], json);
    }
  }

  // ── Which steps start an operation ────────────────────────────────────

  /** What running task `i` starts: its probe, its user command or its flush. */
  predicate StartsNext(s: State, i: nat, op: Operation)
    requires i < |s.ses.tasks|
  {
    var task := s.ses.tasks[i];
    && op.task == i && op.outcome.Pending? && Ready(s, i)
    && (if task.request.UserCommand? then
          (op.purpose.Probe? && task.phase.Queued?) || (op.purpose.User? && MayWrite(s, i))
        else op.purpose.Flush? && task.phase.Queued?)
  }

  /** The user command of task `i` is written as soon as the task runs: its probe is over
      and was not interrupted, the session lives, and so does the process it looked up,
      with the file it saw still current. */
  predicate MayWrite(s: State, i: nat) {
    && Ready(s, i) && s.ses.tasks[i].request.UserCommand? && s.ses.tasks[i].phase.Probing?
    && var Probing(probe, p, file) := s.ses.tasks[i].phase;
       && (probe.Some? ==> s.t.operations[probe.value].outcome != Rejected(Interrupted))
       && !s.ses.destroyed
       && p < |s.os.procs| && IsLive(s.os.procs[p]) && file == s.ses.currentFile
  }

  /** `t'` is `t`, or has one more operation, which is collecting. */
  ghost predicate OneMore(t: Transport, t': Transport) {
    |t'.operations| == |t.operations| || (|t'.operations| == |t.operations| + 1 && t'.collecting)
  }

  ghost predicate Starting(s: State, i: nat, s': State)
    requires i < |s.ses.tasks|
  {
    && OneMore(s.t, s'.t)
    && (|s'.t.operations| > |s.t.operations| ==> StartsNext(s, i, s'.t.operations[|s.t.operations|]))
  }

  lemma StartUserStarts(s: State, i: nat)
    requires Ready(s, i) && s.ses.tasks[i].request.UserCommand? && s.ses.tasks[i].phase.Queued?
    ensures Starting(s, i, StartUser(s, i))
  {
    EnsureProcessKeepsQueue(s);
    hide EnsureProcess, NeedsVersion;
  }

  lemma ResumeProbeStarts(s: State, i: nat, seen: bool)
    requires Ready(s, i) && s.ses.tasks[i].request.UserCommand? && s.ses.tasks[i].phase.Probing?
    ensures Starting(s, i, ResumeProbe(s, i, seen))
    ensures |ResumeProbe(s, i, seen).t.operations| > |s.t.operations| <==> MayWrite(s, i)
  {
  }

  lemma StartControlStarts(s: State, i: nat)
    requires Ready(s, i) && s.ses.tasks[i].request.ControlCommand? && s.ses.tasks[i].phase.Queued?
    ensures Starting(s, i, StartControl(s, i))
  {
    EnsureProcessKeepsQueue(s);
    hide EnsureProcess, EmitError;
  }

  lemma ProceedStarts(s: State, i: nat, seen: bool)
    requires i < |s.ses.tasks|
    ensures Starting(s, i, ProceedTask(s, i, seen))
    ensures MayWrite(s, i) ==> |ProceedTask(s, i, seen).t.operations| > |s.t.operations|
  {
    hide StartUser, ResumeProbe, StartControl;
    if Ready(s, i) {
      if s.ses.tasks[i].request.UserCommand? {
        match s.ses.tasks[i].phase {
          case Queued => StartUserStarts(s, i);
          case Probing(_, _, _) => ResumeProbeStarts(s, i, seen);
          case _ =>
        }
      } else if s.ses.tasks[i].phase.Queued? {
        StartControlStarts(s, i);
      }
    }
  }

  /** Only running a task starts an operation. */
  lemma OthersStartNone(s: State, e: Event, json: Json)
    requires Inv(s) && !(e.Proceed? && e.task < |s.ses.tasks|)
    ensures |Next(s, e, json).t.operations| == |s.t.operations|
  {
    hide Inv;
    if e.Stdout? || e.Stderr? {
      DestroyedStream(s, e, json);
    }
  }

  /** Task `i` has written its user command. */
  ghost predicate HasWritten(t: Transport, i: nat) {
    exists k :: 0 <= k < |t.operations| && t.operations[k].purpose.User? && t.operations[k].task == i
  }

  /** A user command is written by exactly those steps that run its task behind the probe
      with all four checks passed; together with `CancellationIsExact` this says which
      calls reach stdin. */
  lemma UserCommandIsWrittenExactly(events: seq<Event>, e: Event, json: Json, i: nat)
    ensures var s := Run(events, json);
      HasWritten(Next(s, e, json).t, i) <==> HasWritten(s.t, i) || (e.Proceed? && e.task == i && MayWrite(s, i))
  {
    hide Inv, Next, Run, MayWrite;
    RunKeeps(events, json);
    var s := Run(events, json);
    var t' := Next(s, e, json).t;
    OperationsEvolve(s, e, json);
    NewOperation(s, e, json);
    forall k | 0 <= k < |s.t.operations|
      ensures t'.operations[k].purpose == s.t.operations[k].purpose && t'.operations[k].task == s.t.operations[k].task
    {
      assert SameIdentity(s.t.operations[k], t'.operations[k]);
    }
    if HasWritten(s.t, i) {
      var k :| 0 <= k < |s.t.operations| && s.t.operations[k].purpose.User? && s.t.operations[k].task == i;
      assert t'.operations[k].purpose.User? && t'.operations[k].task == i;
    }
    if HasWritten(t', i) && !HasWritten(s.t, i) {
      var k :| 0 <= k < |t'.operations| && t'.operations[k].purpose.User? && t'.operations[k].task == i;
      assert k == |s.t.operations| && StartsNext(s, e.task, t'.operations[k]);
    }
    if e.Proceed? && e.task == i && MayWrite(s, i) {
      assert i < |s.ses.tasks| by { MayWriteIsTask(s, i); }
      assert t'.operations[|s.t.operations|].purpose.User?;
    }
  }

  lemma MayWriteIsTask(s: State, i: nat)
    ensures MayWrite(s, i) ==> i < |s.ses.tasks|
  {
  }

  lemma NewOperation(s: State, e: Event, json: Json)
    requires Inv(s)
    ensures var t' := Next(s, e, json).t;
      |t'.operations| > |s.t.operations| ==>
        && |t'.operations| == |s.t.operations| + 1
        && e.Proceed? && e.task < |s.ses.tasks| && StartsNext(s, e.task, t'.operations[|s.t.operations|])
        && t'.collecting
    ensures e.Proceed? && e.task < |s.ses.tasks| && MayWrite(s, e.task) ==>
      |Next(s, e, json).t.operations| > |s.t.operations| &&
      Next(s, e, json).t.operations[|s.t.operations|].purpose.User? &&
      Next(s, e, json).t.operations[|s.t.operations|].task == e.task
  {
    hide Inv, ProceedTask;
    if e.Proceed? && e.task < |s.ses.tasks| {
      ProceedStarts(s, e.task, e.versionSeen);
    } else {
      OthersStartNone(s, e, json);
    }
  }

  /** The cancel check is not among them: a control command issued once the probe has
      settled changes none of the four conditions, and the user command is written. */
  lemma GapIsNotCovered(s: State, json: Json, i: nat, kind: ControlKind, seen: bool)
    requires Inv(s) && Ready(s, i) && !s.ses.destroyed
    ensures MayWrite(Next(s, IssueControl(kind), json), i) <==> MayWrite(s, i)
    ensures MayWrite(s, i) ==>
      var s' := Next(Next(s, IssueControl(kind), json), Proceed(i, seen), json);
      && |s'.t.operations| == |s.t.operations| + 1
      && s'.t.operations[|s.t.operations|].task == i && s'.t.operations[|s.t.operations|].purpose.User?
  {
    ReadyIsAlone(s, i);
    EmitErrorKeeps(s.t, Interrupted, s.os.now);
    NextKeeps(s, IssueControl(kind), json);
    NewOperation(Next(s, IssueControl(kind), json), Proceed(i, seen), json);
    hide Inv, ProceedTask;
  }

  /** Serials only grow and the sweep never takes a cancellation back. */
  lemma {:induction false} SweepsAccumulate(s: State, events: seq<Event>, json: Json)
    requires Inv(s)
    ensures var s' := RunFrom(s, events, json);
      s.ses.cancelledThrough <= s'.ses.cancelledThrough <= s'.ses.commandSerial && s.ses.commandSerial <= s'.ses.commandSerial
    decreases |events|
  {
    assert Sweep(s.ses);
    hide Inv;
    if events != [] {
      SweepStep(s, events[0], json);
      NextKeeps(s, events[0], json);
      SweepsAccumulate(Next(s, events[0], json), events[1..], json);
    }
  }

  lemma SweepStep(s: State, e: Event, json: Json)
    requires s.ses.cancelledThrough <= s.ses.commandSerial
    ensures s.ses.cancelledThrough <= Next(s, e, json).ses.cancelledThrough
    ensures s.ses.commandSerial <= Next(s, e, json).ses.commandSerial
  {
    hide ProceedTask;
    if e.Proceed? {
      ProceedKeepsSweep(s, e.task, e.versionSeen);
    }
  }

  lemma ProceedKeepsSweep(s: State, i: nat, seen: bool)
    ensures ProceedTask(s, i, seen).ses.cancelledThrough == s.ses.cancelledThrough
    ensures ProceedTask(s, i, seen).ses.commandSerial == s.ses.commandSerial
  {
    EnsureProcessKeepsQueue(s);
    hide EnsureProcess, StartCommand, StartFlush;
  }
}
