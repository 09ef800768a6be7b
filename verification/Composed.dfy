// Loads running on the session: one run of both, joined at the promises a load awaits.

/** What a process close does to the session, step by step. */
module ProcessCloses {
  import opened Basics
  import opened Wire
  import opened TransportModel
  import opened TransportProofs
  import opened SessionModel
  import opened SessionProofs
  import opened SessionTheorems
  import opened StaleFinishes

  /** Only the session's own process has its spawn-time listeners in place. */
  ghost predicate OneAttached(s: State) {
    forall p :: 0 <= p < |s.os.procs| && s.os.procs[p].attached && !s.os.procs[p].closed ==> s.ses.proc == Some(p)
  }

  /** Operation `k` is about to be, or has been, completed by a process close, and its
      call has not settled yet. */
  ghost predicate ClosedUnder(s: State, k: nat)
    requires k < |s.t.operations|
  {
    var op := s.t.operations[k];
    || (op.outcome.Pending? && op.closeFinishes > 0)
    || (ByClose(op) && op.task < |s.ses.tasks| && !s.ses.tasks[op.task].phase.Settled?)
  }

  predicate ByClose(op: Operation) {
    op.outcome.Resolved? && op.outcome.how.ByProcessClose?
  }

  ghost predicate CloseInv(s: State) {
    && OneAttached(s)
    && forall k :: 0 <= k < |s.t.operations| && ClosedUnder(s, k) ==> s.ses.proc.None?
  }

  /** The steps that clear the fields bound to the process or the file. */
  predicate Resets(s: State, e: Event) {
    match e
    case Proceed(i, _) =>
      Ready(s, i) &&
      (match s.ses.tasks[i].phase
       case Queued => !s.ses.destroyed && !Swept(s, i) && !HasLiveProc(s)
       case Probing(_, p, _) => s.ses.tasks[i].request.UserCommand? && !MayWrite(s, i) && Dead(s, p)
       case Commanding(k) => s.ses.tasks[i].request.UserCommand? && Dead(s, s.t.operations[k].proc)
       case _ => false)
    case ProcClosed(p) => Closes(s, e) && (s.ses.proc.None? || s.ses.proc == Some(p))
    case Destroy => !s.ses.destroyed
    case _ => false
  }

  /** A user command cancelled before its body started. */
  predicate Swept(s: State, i: nat)
    requires i < |s.ses.tasks|
  {
    s.ses.tasks[i].request.UserCommand? && s.ses.tasks[i].request.serial <= s.ses.cancelledThrough
  }

  predicate Dead(s: State, p: nat) {
    p < |s.os.procs| && !IsLive(s.os.procs[p])
  }

  /** The step runs the body of a queued task. */
  predicate Enters(s: State, e: Event) {
    e.Proceed? && e.task < |s.ses.tasks| && s.ses.tasks[e.task].phase.Queued?
  }

  // ── The current file and the process ──────────────────────────────────

  ghost predicate FileStep(s: State, s': State, resets: bool) {
    && s'.ses.currentFile == (if resets then None else s.ses.currentFile)
    && (s.ses.proc.None? && !resets ==> s'.ses.proc.None?)
  }

  lemma StartUserFile(s: State, i: nat)
    requires Inv(s) && Ready(s, i) && s.ses.tasks[i].request.UserCommand? && s.ses.tasks[i].phase.Queued?
    ensures FileStep(s, StartUser(s, i), !s.ses.destroyed && !Swept(s, i) && !HasLiveProc(s))
  {
    hide Inv, Terminate, StartCommand, NeedsVersion;
  }

  lemma StartControlFile(s: State, i: nat)
    requires Inv(s) && Ready(s, i) && s.ses.tasks[i].request.ControlCommand? && s.ses.tasks[i].phase.Queued?
    ensures FileStep(s, StartControl(s, i), !s.ses.destroyed && !HasLiveProc(s))
  {
    hide Inv, Terminate, StartFlush;
  }

  lemma ResumeProbeFile(s: State, i: nat, seen: bool)
    requires Ready(s, i) && s.ses.tasks[i].request.UserCommand? && s.ses.tasks[i].phase.Probing?
    ensures FileStep(s, ResumeProbe(s, i, seen), !MayWrite(s, i) && Dead(s, s.ses.tasks[i].phase.proc))
    ensures ResumeProbe(s, i, seen).ses.proc == s.ses.proc
  {
    hide StartCommand;
  }

  lemma ResumeCommandFile(s: State, i: nat, seen: bool)
    requires Ready(s, i) && s.ses.tasks[i].request.UserCommand? && s.ses.tasks[i].phase.Commanding?
    ensures FileStep(s, ResumeCommand(s, i, seen), Dead(s, s.t.operations[s.ses.tasks[i].phase.op].proc))
    ensures ResumeCommand(s, i, seen).ses.proc == s.ses.proc && ResumeCommand(s, i, seen).t == s.t
  {
  }

  lemma ProceedFile(s: State, i: nat, seen: bool)
    requires Inv(s)
    ensures FileStep(s, ProceedTask(s, i, seen), Resets(s, Proceed(i, seen)))
    ensures !Enters(s, Proceed(i, seen)) ==> ProceedTask(s, i, seen).ses.proc == s.ses.proc
  {
    hide Inv, StartUser, ResumeProbe, ResumeCommand, StartControl, MayWrite, HasLiveProc;
    if Ready(s, i) {
      if s.ses.tasks[i].request.UserCommand? {
        match s.ses.tasks[i].phase {
          case Queued => StartUserFile(s, i);
          case Probing(_, _, _) => ResumeProbeFile(s, i, seen);
          case Commanding(_) => ResumeCommandFile(s, i, seen);
          case _ =>
        }
      } else {
        match s.ses.tasks[i].phase {
          case Queued => StartControlFile(s, i);
          case Probing(_, _, _) => ControlsDoNotProbe(s, i);
          case _ =>
        }
      }
    }
  }

  lemma ControlsDoNotProbe(s: State, i: nat)
    requires i < |s.ses.tasks| && s.ses.tasks[i].request.ControlCommand?
    ensures !Resets(s, Proceed(i, false)) || s.ses.tasks[i].phase.Queued?
  {
  }

  /** Each step either clears the file or keeps it, and `Resets` says which; a session
      without a process gets one only by entering a body, which clears the file. */
  lemma ResetsExactly(s: State, e: Event, json: Json)
    requires Inv(s)
    ensures Next(s, e, json).ses.currentFile ==
      if e.SetFile? then e.file else if Resets(s, e) then None else s.ses.currentFile
    ensures s.ses.proc.None? && (!Resets(s, e) || !Enters(s, e)) ==> Next(s, e, json).ses.proc.None?
    ensures Next(s, e, json).ses.proc.Some? && Next(s, e, json).ses.proc != s.ses.proc ==> Enters(s, e) && Resets(s, e)
  {
    hide Inv, ProceedTask;
    if e.Proceed? {
      ProceedFile(s, e.task, e.versionSeen);
      EntersSpawn(s, e.task, e.versionSeen);
    }
  }

  lemma EntersSpawn(s: State, i: nat, seen: bool)
    requires Inv(s)
    ensures ProceedTask(s, i, seen).ses.proc != s.ses.proc ==> Enters(s, Proceed(i, seen)) && Resets(s, Proceed(i, seen))
  {
    hide Inv, Terminate, StartCommand, StartFlush, NeedsVersion;
    ProceedFile(s, i, seen);
    if Ready(s, i) && s.ses.tasks[i].phase.Queued? {
      EnterProc(s, i, seen);
    }
  }

  lemma EnterProc(s: State, i: nat, seen: bool)
    requires Ready(s, i) && s.ses.tasks[i].phase.Queued?
    ensures s.ses.destroyed || Swept(s, i) || HasLiveProc(s) ==> ProceedTask(s, i, seen).ses.proc == s.ses.proc
  {
    hide StartCommand, StartFlush, NeedsVersion;
  }

  // ── Which listeners are in place ──────────────────────────────────────

  lemma EnsureAttaches(s: State)
    requires OneAttached(s)
    ensures OneAttached(EnsureProcess(s).0)
  {
  }

  /** The processes change at most in flags that play no part here. */
  predicate SameListeners(s: State, s': State) {
    && s'.ses.proc == s.ses.proc && |s'.os.procs| == |s.os.procs|
    && forall p :: 0 <= p < |s.os.procs| ==>
        s'.os.procs[p].attached == s.os.procs[p].attached && s'.os.procs[p].closed == s.os.procs[p].closed
  }

  lemma StartUserAttaches(s: State, i: nat)
    requires i < |s.ses.tasks| && s.ses.tasks[i].request.UserCommand?
    ensures SameListeners(s, StartUser(s, i)) || SameListeners(EnsureProcess(s).0, StartUser(s, i))
  {
    hide EnsureProcess, StartCommand, NeedsVersion;
  }

  lemma StartControlAttaches(s: State, i: nat)
    requires i < |s.ses.tasks| && s.ses.tasks[i].request.ControlCommand?
    ensures SameListeners(s, StartControl(s, i)) || SameListeners(EnsureProcess(s).0, StartControl(s, i))
  {
    hide EnsureProcess, StartFlush;
  }

  lemma ResumesAttach(s: State, i: nat, seen: bool)
    requires Ready(s, i) && !s.ses.tasks[i].phase.Queued?
    ensures SameListeners(s, ProceedTask(s, i, seen))
  {
    hide StartCommand;
  }

  lemma ProceedAttaches(s: State, i: nat, seen: bool)
    requires OneAttached(s)
    ensures OneAttached(ProceedTask(s, i, seen))
  {
    EnsureAttaches(s);
    if Ready(s, i) {
      if !s.ses.tasks[i].phase.Queued? {
        ResumesAttach(s, i, seen);
      } else if s.ses.tasks[i].request.UserCommand? {
        StartUserAttaches(s, i);
      } else {
        StartControlAttaches(s, i);
      }
    }
    hide EnsureProcess, StartUser, StartControl, ResumeProbe, ResumeCommand, ResumeFlush;
  }

  lemma AttachedStep(s: State, e: Event, json: Json)
    requires OneAttached(s)
    ensures OneAttached(Next(s, e, json))
  {
    hide ProceedTask, HandleStdout, HandleStderr, EmitError, EmitDone, FinishTimerFires, InactivityFires, DestroyTransport;
    if e.Proceed? {
      ProceedAttaches(s, e.task, e.versionSeen);
    }
  }

  // ── Completion by a close ─────────────────────────────────────────────

  /** A result completed by a close comes from a finish that a close scheduled. */
  lemma CloseCompletes(s: State, e: Event, json: Json, k: nat)
    requires Inv(s) && Listening(s.t, k) && k < |Next(s, e, json).t.operations|
    requires ByClose(Next(s, e, json).t.operations[k])
    ensures s.t.operations[k].closeFinishes > 0
  {
    hide Inv;
    if e.Stdout? || e.Stderr? || e.ProcFailed? || e.ProcClosed? {
      StreamsDoNotClose(s, e, json, k);
    } else if e.IssueControl? || e.Proceed? || e.Destroy? {
      TasksDoNotClose(s, e, json, k);
    } else {
      TimersClose(s, e, json, k);
    }
  }

  lemma StreamsDoNotClose(s: State, e: Event, json: Json, k: nat)
    requires Inv(s) && Listening(s.t, k)
    requires e.Stdout? || e.Stderr? || e.ProcFailed? || e.ProcClosed?
    ensures k < |Next(s, e, json).t.operations| && !ByClose(Next(s, e, json).t.operations[k])
  {
    if e.ProcFailed? {
      EmitErrorKeeps(s.t, ProcessError, s.os.now);
      hide Inv, EmitError;
    } else {
      StreamsKeepOutcomes(s, e, json);
      hide Inv, Next;
    }
  }

  lemma StreamsKeepOutcomes(s: State, e: Event, json: Json)
    requires Inv(s) && (e.Stdout? || e.Stderr? || e.ProcClosed?)
    ensures SameOperations(s.t, Next(s, e, json).t)
  {
    hide HandleStdout, Record, HandleProcessClose, TransportInv, Owned, Ordered, Chain, Sweep, Gated, Kills;
    match e {
      case Stdout(p, chunk) => HandleStdoutKeeps(s.t, chunk, json, s.os.now);
      case Stderr(p, text) => if s.t.collecting { RecordKeeps(s.t, StderrOutput(text), s.os.now); }
      case ProcClosed(p) => ProcessCloseKeeps(s.t, s.os.now);
    }
  }

  lemma TasksDoNotClose(s: State, e: Event, json: Json, k: nat)
    requires Inv(s) && Listening(s.t, k)
    requires e.IssueControl? || e.Proceed? || e.Destroy?
    ensures k < |Next(s, e, json).t.operations| && !ByClose(Next(s, e, json).t.operations[k])
  {
    hide ProceedTask, EmitError, Terminate;
    match e {
      case Proceed(i, seen) => BusyProceed(s, i, seen, k);
      case IssueControl(kind) => EmitErrorKeeps(s.t, Interrupted, s.os.now);
      case Destroy =>
        if !s.ses.destroyed {
          var t0 := s.t.(idleTimer := false, controlEscalation := None, buffer := "", responseQueue := [],
                         collecting := false, currentCommandKind := NoCommand,
                         awaitGoalTerminus := false, inactivityOf := None);
          assert forall j :: Listening(t0, j) == Listening(s.t, j);
          EmitErrorIs(t0, 0, k, Destroyed, s.os.now);
        }
    }
  }

  lemma TimersClose(s: State, e: Event, json: Json, k: nat)
    requires Listening(s.t, k) && k < |Next(s, e, json).t.operations|
    requires !(e.Stdout? || e.Stderr? || e.ProcFailed? || e.ProcClosed? || e.IssueControl? || e.Proceed? || e.Destroy?)
    requires ByClose(Next(s, e, json).t.operations[k])
    ensures s.t.operations[k].closeFinishes > 0
  {
    hide Terminate;
  }

  // ── Tasks ─────────────────────────────────────────────────────────────

  /** Requests never change, settled calls stay settled, and only `Proceed(i)` moves
      task `i`. */
  ghost predicate TasksEvolve(ses: Session, e: Event, ses': Session) {
    && |ses.tasks| <= |ses'.tasks|
    && (forall i :: 0 <= i < |ses.tasks| ==>
        && ses'.tasks[i].request == ses.tasks[i].request
        && (ses.tasks[i].phase.Settled? || !(e.Proceed? && e.task == i) ==> ses'.tasks[i].phase == ses.tasks[i].phase))
    && (forall i :: |ses.tasks| <= i < |ses'.tasks| ==> ses'.tasks[i].phase.Queued?)
  }

  lemma StartUserTasks(s: State, i: nat)
    requires i < |s.ses.tasks| && s.ses.tasks[i].request.UserCommand? && s.ses.tasks[i].phase.Queued?
    ensures TasksEvolve(s.ses, Proceed(i, false), StartUser(s, i).ses)
  {
    EnsureProcessKeepsQueue(s);
    hide EnsureProcess, StartCommand, NeedsVersion;
  }

  lemma ResumeProbeTasks(s: State, i: nat, seen: bool)
    requires Ready(s, i) && s.ses.tasks[i].request.UserCommand? && s.ses.tasks[i].phase.Probing?
    ensures TasksEvolve(s.ses, Proceed(i, seen), ResumeProbe(s, i, seen).ses)
  {
    hide StartCommand;
  }

  lemma ResumeCommandTasks(s: State, i: nat, seen: bool)
    requires Ready(s, i) && s.ses.tasks[i].request.UserCommand? && s.ses.tasks[i].phase.Commanding?
    ensures TasksEvolve(s.ses, Proceed(i, seen), ResumeCommand(s, i, seen).ses)
  {
  }

  lemma ControlTasks(s: State, i: nat)
    requires Ready(s, i) && s.ses.tasks[i].request.ControlCommand?
    ensures s.ses.tasks[i].phase.Queued? ==> TasksEvolve(s.ses, Proceed(i, false), StartControl(s, i).ses)
    ensures s.ses.tasks[i].phase.Flushing? ==> TasksEvolve(s.ses, Proceed(i, false), ResumeFlush(s, i).ses)
  {
    EnsureProcessKeepsQueue(s);
    hide EnsureProcess, StartFlush;
  }

  lemma ProceedTasks(s: State, i: nat, seen: bool)
    ensures TasksEvolve(s.ses, Proceed(i, seen), ProceedTask(s, i, seen).ses)
  {
    hide StartUser, ResumeProbe, ResumeCommand, StartControl, ResumeFlush;
    if Ready(s, i) {
      if s.ses.tasks[i].request.UserCommand? {
        match s.ses.tasks[i].phase {
          case Queued => StartUserTasks(s, i);
          case Probing(_, _, _) => ResumeProbeTasks(s, i, seen);
          case Commanding(_) => ResumeCommandTasks(s, i, seen);
          case _ =>
        }
      } else {
        ControlTasks(s, i);
      }
    }
  }

  lemma TasksStep(s: State, e: Event, json: Json)
    ensures TasksEvolve(s.ses, e, Next(s, e, json).ses)
  {
    hide ProceedTask, HandleStdout, HandleStderr, EmitError, EmitDone, Terminate;
    if e.Proceed? {
      ProceedTasks(s, e.task, e.versionSeen);
    }
  }

  /** A call settles without touching the transport or the process. */
  lemma SettlingTask(s: State, i: nat, seen: bool)
    requires Inv(s) && i < |s.ses.tasks| && !s.ses.tasks[i].phase.Settled?
    requires i < |ProceedTask(s, i, seen).ses.tasks| && ProceedTask(s, i, seen).ses.tasks[i].phase.Settled?
    ensures ProceedTask(s, i, seen).t == s.t && ProceedTask(s, i, seen).ses.proc == s.ses.proc
  {
    hide Inv, EnsureProcess, StartCommand, StartFlush, NeedsVersion;
    EnsureProcessKeepsQueue(s);
  }

  /** No operation belongs to a task that has not started. */
  lemma QueuedOwnsNothing(s: State, k: nat)
    requires Inv(s) && k < |s.t.operations|
    ensures s.t.operations[k].task < |s.ses.tasks| && !s.ses.tasks[s.t.operations[k].task].phase.Queued?
  {
    assert Fits(s.ses.tasks[s.t.operations[k].task].phase, k, s.t.operations[k]);
  }

  /** The operations of a settled call are settled and it gets no more. */
  lemma SettledOwns(s: State, e: Event, json: Json, k: nat)
    requires Inv(s) && k < |Next(s, e, json).t.operations|
    requires var i := Next(s, e, json).t.operations[k].task;
      i < |s.ses.tasks| && s.ses.tasks[i].phase.Settled?
    ensures k < |s.t.operations| && !s.t.operations[k].outcome.Pending?
    ensures SameIdentity(s.t.operations[k], Next(s, e, json).t.operations[k])
    ensures Next(s, e, json).t.operations[k].outcome == s.t.operations[k].outcome
  {
    hide Inv, Next, MayWrite;
    NewOperation(s, e, json);
    OperationsEvolve(s, e, json);
    if k < |s.t.operations| {
      OwnerFits(s, k);
    }
  }

  lemma OwnerFits(s: State, k: nat)
    requires Inv(s) && k < |s.t.operations|
    ensures s.t.operations[k].task < |s.ses.tasks|
    ensures Fits(s.ses.tasks[s.t.operations[k].task].phase, k, s.t.operations[k])
  {
  }

  /** While operation `k` is closed under, no queued body can start. */
  lemma ClosedUnderBlocks(s: State, i: nat, k: nat)
    requires Inv(s) && Ready(s, i) && s.ses.tasks[i].phase.Queued? && !s.ses.destroyed
    requires k < |s.t.operations|
    ensures !ClosedUnder(s, k)
  {
    ReadyIsAlone(s, i);
    ReadyIsFirst(s, i);
    QueuedOwnsNothing(s, k);
    hide Inv;
  }

  /** An operation that has just started is not. */
  lemma NewIsNotClosed(s: State, e: Event, json: Json)
    requires Inv(s)
    ensures forall k :: |s.t.operations| <= k < |Next(s, e, json).t.operations| ==> !ClosedUnder(Next(s, e, json), k)
  {
    hide Inv, Next, MayWrite;
    var t' := Next(s, e, json).t;
    FinishesStep(s, e, json);
    NewOperation(s, e, json);
    assert |t'.operations| > |s.t.operations| ==> Pended(t'.operations[|s.t.operations|], ProcessClose) == 0;
  }

  /** Short of a close, an operation is closed under only if it was before. */
  lemma ClosedUnderStep(s: State, e: Event, json: Json, k: nat)
    requires Inv(s) && !Closes(s, e)
    requires k < |Next(s, e, json).t.operations| && ClosedUnder(Next(s, e, json), k)
    ensures k < |s.t.operations| && ClosedUnder(s, k)
  {
    hide Inv, Next, MayWrite, Closes, ControlAfter;
    var s' := Next(s, e, json);
    FinishesStep(s, e, json);
    OperationsEvolve(s, e, json);
    if k >= |s.t.operations| {
      NewIsNotClosed(s, e, json);
    } else {
      TasksStep(s, e, json);
      QueuedOwnsNothing(s, k);
      if Listening(s.t, k) && ByClose(s'.t.operations[k]) {
        CloseCompletes(s, e, json, k);
      }
      assert Pended(s'.t.operations[k], ProcessClose) == PendedAfter(s, e, k, ProcessClose);
      assert SameIdentity(s.t.operations[k], s'.t.operations[k]);
    }
  }

  lemma CloseStepKeeps(s: State, e: Event, json: Json, k: nat)
    requires Inv(s) && CloseInv(s)
    requires k < |Next(s, e, json).t.operations| && ClosedUnder(Next(s, e, json), k)
    ensures Next(s, e, json).ses.proc.None?
  {
    ResetsExactly(s, e, json);
    if Closes(s, e) {
      ClosesDetaches(s, e, json);
    } else {
      ClosedUnderStep(s, e, json, k);
      if Enters(s, e) && Resets(s, e) {
        ClosedUnderBlocks(s, e.task, k);
      }
    }
    hide Inv, Next, ClosedUnder;
  }

  lemma ClosesDetaches(s: State, e: Event, json: Json)
    requires OneAttached(s) && Closes(s, e)
    ensures Next(s, e, json).ses.proc.None?
  {
    hide HandleProcessClose;
  }

  lemma CloseInvKeeps(s: State, e: Event, json: Json)
    requires Inv(s) && CloseInv(s)
    ensures CloseInv(Next(s, e, json))
  {
    hide Inv, Next;
    AttachedStep(s, e, json);
    forall k | 0 <= k < |Next(s, e, json).t.operations| && ClosedUnder(Next(s, e, json), k)
      ensures Next(s, e, json).ses.proc.None?
    {
      CloseStepKeeps(s, e, json, k);
    }
  }
}

/** One run of the session and of the loads on it. A load awaits the promise of its command and
    later that of a metas query; every other step of a load follows from those by microtasks. */
module Composed {
  import opened Basics
  import opened Wire
  import opened Terminus
  import opened LoadParsing
  import opened TransportModel
  import opened ProcessCloses
  import S = SessionModel
  import P = SessionProofs
  import TP = TransportProofs
  import L = LoadModel
  import T = LoadTheorems

  type Json = string -> Option<Response>

  /** One reconciliation: the task of its metas query, if one was sent, and which load had
      set the current file when it ended. */
  datatype Query = Query(task: Option<nat>, seen: Option<Option<nat>>)

  /** The tasks a load has queued, and the hole markers its source held when the load ran on
      behind its command. */
  datatype Link = Link(task: Option<nat>, queries: seq<Query>, holes: nat)

  /** `fileBy` is the load that set the current file. */
  datatype State = State(s: S.State, l: L.Sessions, links: seq<Link>, fileBy: Option<nat>)

  const INITIAL := State(S.INITIAL, L.EMPTY, [], None)

  datatype Event =
    | OfSession(e: S.Event)
    | BeginLoad(path: string, strict: bool, found: bool, optionsOk: bool, timeoutMs: nat)
    | LoadContinues(i: nat, mtime: Option<int>, holes: nat, timeoutMs: nat)
    | MetasContinues(i: nat)
    | ReconcileContinues(i: nat)
    | LoadReturns(i: nat, holes: nat, timeoutMs: nat)
    | OtherCommandSynced(responses: seq<Response>)

  // ── Joining the two machines ──────────────────────────────────────────

  /** The promise load `i` waits for. */
  function Awaited(c: State, i: nat): Option<nat> {
    if i < |c.l.loads| && i < |c.links| then
      match c.l.loads[i].point
      case Loading => c.links[i].task
      case AwaitingMetas(_) => if c.links[i].queries != [] then Last(c.links[i]).task else None
      case _ => None
    else None
  }

  function Last(link: Link): Query
    requires link.queries != []
  {
    link.queries[|link.queries| - 1]
  }

  predicate TaskSettled(c: State, t: Option<nat>) {
    t.Some? && t.value < |c.s.ses.tasks| && c.s.ses.tasks[t.value].phase.Settled?
  }

  /** Some load's awaited promise has settled and the load has not run on it yet. Its
      continuation is queued before the body of the next task. */
  predicate Owed(c: State) {
    exists i :: 0 <= i < |c.l.loads| && TaskSettled(c, Awaited(c, i))
  }

  /** A step of the session on its own; a reset of the file-bound fields is one for the loads too. */
  function SessionStep(c: State, e: S.Event, json: Json): State {
    if e.SetFile? || (Enters(c.s, e) && Owed(c)) then c
    else
      var s' := S.Next(c.s, e, json);
      if Resets(c.s, e) then State(s', L.Next(c.l, L.ProcessReset), c.links, None) else c.(s := s')
  }

  /** The session after a load segment that left `file` current, with the metas query it
      sends, if any. */
  function AfterSegment(c: State, i: nat, l': L.Sessions, timeoutMs: nat, json: Json): State
    requires i < |c.links| && i < |l'.loads|
  {
    var s1 := S.Next(c.s, S.SetFile(l'.fields.currentFile), json);
    match l'.loads[i].point
    case AwaitingMetas(_) =>
      c.(s := S.Next(s1, S.Enqueue(false, false, timeoutMs), json), l := l',
         links := c.links[i := Asked(c.links[i], Some(|s1.ses.tasks|))])
    case MetasSettled(_, _) => c.(s := s1, l := l', links := c.links[i := Asked(c.links[i], None)])
    case _ => c.(s := s1, l := l')
  }

  function Asked(link: Link, task: Option<nat>): Link {
    link.(queries := link.queries + [Query(task, None)])
  }

  function Saw(link: Link, setter: Option<nat>): Link
    requires link.queries != []
  {
    link.(queries := link.queries[|link.queries| - 1 := Last(link).(seen := Some(setter))])
  }

  function Scanned(c: State, i: nat, holes: nat): State
    requires i < |c.links|
  {
    c.(links := c.links[i := c.links[i].(holes := holes)])
  }

  function LoadEvent(i: nat, v: S.Verdict, mtime: Option<int>, holes: nat): L.Event {
    match v
    case Delivered(rs) => L.LoadAnswered(i, rs, mtime, holes)
    case Failed(_) => L.LoadRejected(i)
  }

  function MetasEvent(i: nat, v: S.Verdict): L.Event {
    match v
    case Delivered(rs) => L.MetasAnswered(i, rs)
    case Failed(_) => L.MetasRejected(i)
  }

  function Next(c: State, e: Event, json: Json): State {
    match e
    case OfSession(se) => SessionStep(c, se, json)
    case BeginLoad(path, strict, found, optionsOk, timeoutMs) =>
      var l' := L.Next(c.l, L.Begin(path, strict, found, optionsOk));
      var s1 := S.Next(c.s, S.SetFile(None), json);
      if |l'.loads| > |c.l.loads| && l'.loads[|c.l.loads|].point.Loading?
      then State(S.Next(s1, S.Enqueue(true, false, timeoutMs), json), l',
                 c.links + [Link(Some(|s1.ses.tasks|), [], 0)], None)
      else State(s1, l', c.links + [Link(None, [], 0)], None)
    case LoadContinues(i, mtime, holes, timeoutMs) =>
      var t := Awaited(c, i);
      if t.Some? && TaskSettled(c, t) && c.l.loads[i].point.Loading? then
        var le := LoadEvent(i, c.s.ses.tasks[t.value].phase.verdict, mtime, holes);
        var l' := L.Next(c.l, le);
        if i < |l'.loads| && i < |c.links|
        then
          AfterSegment(Scanned(c, i, holes), i, l', timeoutMs, json)
            .(fileBy := if T.Assigned(c.l, le).Some? then Some(i) else c.fileBy)
        else c
      else c
    case MetasContinues(i) =>
      var t := Awaited(c, i);
      if t.Some? && TaskSettled(c, t) && c.l.loads[i].point.AwaitingMetas?
      then c.(l := L.Next(c.l, MetasEvent(i, c.s.ses.tasks[t.value].phase.verdict))) else c
    case ReconcileContinues(i) =>
      if i < |c.l.loads| && i < |c.links| && c.l.loads[i].point.MetasSettled? && c.links[i].queries != []
      then c.(l := L.Next(c.l, L.ReconcileResumes(i)), links := c.links[i := Saw(c.links[i], c.fileBy)]) else c
    case LoadReturns(i, holes, timeoutMs) =>
      if i < |c.l.loads| && i < |c.links| && c.l.loads[i].point.Reconciled? then
        var l' := L.Next(c.l, L.LoadResumes(i, holes));
        if i < |l'.loads| then AfterSegment(c, i, l', timeoutMs, json) else c
      else c
    case OtherCommandSynced(rs) => c.(l := L.Next(c.l, L.OtherCommandSynced(rs)))
  }

  function Run(events: seq<Event>, json: Json): State {
    if events == [] then INITIAL
    else Next(Run(events[..|events| - 1], json), events[|events| - 1], json)
  }

  // ── What every run keeps ──────────────────────────────────────────────

  /** The call of task `t` was completed by the close of its process. */
  ghost predicate CompletedByClose(s: S.State, t: nat) {
    exists k :: 0 <= k < |s.t.operations| && s.t.operations[k].task == t && s.t.operations[k].purpose.User?
      && ByClose(s.t.operations[k])
  }

  /** The command of load `i` was. */
  ghost predicate Truncated(c: State, i: nat)
    requires i < |c.links|
  {
    c.links[i].task.Some? && CompletedByClose(c.s, c.links[i].task.value)
  }

  predicate TaskOf(s: S.State, t: Option<nat>, awaitsTerminus: bool) {
    t.Some? ==>
      && t.value < |s.ses.tasks| && s.ses.tasks[t.value].request.UserCommand?
      && s.ses.tasks[t.value].request.awaitsTerminus == awaitsTerminus
  }

  /** What the session delivered for the command of load `i`. */
  predicate Delivered(c: State, i: nat, rs: seq<Response>)
    requires i < |c.links|
  {
    TaskSettled(c, c.links[i].task)
    && c.s.ses.tasks[c.links[i].task.value].phase == S.Settled(S.Delivered(rs))
  }

  /** The load a reconciliation saw exists. */
  predicate Known(l: L.Sessions, q: Query) {
    q.seen.Some? && q.seen.value.Some? ==> q.seen.value.value < |l.loads|
  }

  /** A reconciliation found the load's path current. */
  predicate Found(l: L.Sessions, i: nat, q: Query)
    requires i < |l.loads|
  {
    q.seen.Some? && q.seen.value.Some? && q.seen.value.value < |l.loads| && l.loads[q.seen.value.value].path == l.loads[i].path
  }

  predicate AllFound(l: L.Sessions, i: nat, qs: seq<Query>)
    requires i < |l.loads|
  {
    forall k :: 0 <= k < |qs| ==> Found(l, i, qs[k])
  }

  /** Nothing in the stream speaks against the load, and some goal-state event is in it. */
  predicate Clean(rs: seq<Response>) {
    !L.IsFatalReply(rs) && Parse(rs).sawLoadTerminus && Parse(rs).success
  }

  /** Neither the stream nor a scan of the source shows anything to be done. */
  predicate NothingLeft(rs: seq<Response>, holes: nat) {
    Parse(rs).goals == [] && Parse(rs).invisibleGoalCount == 0 && holes == 0
  }

  /** All reconciliations but the present one found the load's path. */
  predicate Reconciling(c: State, i: nat, rs: seq<Response>)
    requires i < |c.l.loads| && i < |c.links|
  {
    var qs := c.links[i].queries;
    Delivered(c, i, rs) && qs != [] && AllFound(c.l, i, qs[..|qs| - 1]) && !c.l.loads[i].strict
  }

  predicate Answered(c: State, qs: seq<Query>)
    requires qs != []
  {
    qs[|qs| - 1].task.Some? ==> TaskSettled(c, qs[|qs| - 1].task)
  }

  /** How far the reconciliations of a load have come. */
  ghost predicate QueriesFit(c: State, i: nat)
    requires i < |c.l.loads| && i < |c.links|
  {
    var load, qs := c.l.loads[i], c.links[i].queries;
    match load.point
    case Loading => qs == []
    case AwaitingMetas(p) => Reconciling(c, i, p.responses)
    case MetasSettled(p, _) => Reconciling(c, i, p.responses) && Answered(c, qs)
    case Reconciled(p, r, _) =>
      Reconciling(c, i, p.responses) && Answered(c, qs) && (r.procDied <==> !Found(c.l, i, qs[|qs| - 1]))
    case Returned(result, early, rs) =>
      c.links[i].task.Some? ==>
        Delivered(c, i, rs) &&
        (result.success <==> Clean(rs) && if load.strict then NothingLeft(rs, c.links[i].holes) else AllFound(c.l, i, qs))
    case Threw => TaskSettled(c, c.links[i].task)
  }

  ghost predicate Linked(c: State, i: nat)
    requires i < |c.l.loads| && i < |c.links|
  {
    && TaskOf(c.s, c.links[i].task, true)
    && (forall q :: q in c.links[i].queries ==> TaskOf(c.s, q.task, false) && Known(c.l, q))
    && (c.links[i].task.None? ==> c.l.loads[i].point.Returned? && !c.l.loads[i].point.result.success)
    && QueriesFit(c, i)
  }

  /** The metas query of task `t` failed before it looked for a process, or waits to. */
  ghost predicate NotStarted(s: S.State, t: nat) {
    && t < |s.ses.tasks|
    && (s.ses.tasks[t].phase.Queued? || RejectedAtEntry(s, t))
  }

  ghost predicate RejectedAtEntry(s: S.State, t: nat)
    requires t < |s.ses.tasks|
  {
    && (s.ses.tasks[t].phase == S.Settled(S.Failed(S.Cancelled))
        || s.ses.tasks[t].phase == S.Settled(S.Failed(S.SessionDestroyed)))
    && forall k :: 0 <= k < |s.t.operations| ==> s.t.operations[k].task != t
  }

  /** A query that was not sent, or has not started. */
  ghost predicate Unsent(c: State, i: nat, q: Query)
    requires i < |c.l.loads|
  {
    if q.task.Some? then NotStarted(c.s, q.task.value) else c.l.loads[i].path == ""
  }

  /** A query that was not sent, or was rejected before it looked for a process. */
  ghost predicate Refused(c: State, i: nat, q: Query)
    requires i < |c.l.loads|
  {
    if q.task.Some? then q.task.value < |c.s.ses.tasks| && RejectedAtEntry(c.s, q.task.value)
    else c.l.loads[i].path == ""
  }

  /** A load whose command was completed by a close continues, and keeps its file, only on
      a session without a process; its queries have then not started. */
  ghost predicate ClosedLoad(c: State, i: nat)
    requires i < |c.l.loads| && i < |c.links|
  {
    Truncated(c, i) ==>
      && (c.l.loads[i].point.Loading? && TaskSettled(c, c.links[i].task) ==> c.s.ses.proc.None?)
      && (c.fileBy == Some(i) ==> c.s.ses.proc.None? && forall q :: q in c.links[i].queries ==> Unsent(c, i, q))
      && (forall q :: q in c.links[i].queries && q.seen == Some(Some(i)) ==> Refused(c, i, q))
  }

  ghost predicate Agree(c: State) {
    && |c.links| == |c.l.loads|
    && c.s.ses.currentFile == c.l.fields.currentFile
    && (match c.fileBy
        case None => c.l.fields.currentFile.None?
        case Some(j) =>
          j < |c.l.loads| && c.l.fields.currentFile == Some(c.l.loads[j].path) && !c.l.loads[j].point.Loading?)
  }

  ghost predicate Inv(c: State) {
    && P.Inv(c.s) && CloseInv(c.s) && L.Inv(c.l)
    && Agree(c)
    && (forall i :: 0 <= i < |c.l.loads| ==> Linked(c, i))
    && (forall i :: 0 <= i < |c.l.loads| ==> ClosedLoad(c, i))
  }

  // ── Steps that only add to what a load refers to ──────────────────────

  ghost predicate Extends(s: S.State, s': S.State) {
    && |s.ses.tasks| <= |s'.ses.tasks|
    && forall t :: 0 <= t < |s.ses.tasks| ==>
        && s'.ses.tasks[t].request == s.ses.tasks[t].request
        && (s.ses.tasks[t].phase.Settled? ==> s'.ses.tasks[t].phase == s.ses.tasks[t].phase)
  }

  predicate SamePaths(l: L.Sessions, l': L.Sessions) {
    |l.loads| <= |l'.loads| && forall j :: 0 <= j < |l.loads| ==> l'.loads[j].path == l.loads[j].path
  }

  lemma FoundStays(l: L.Sessions, l': L.Sessions, i: nat, q: Query)
    requires i < |l.loads| && SamePaths(l, l') && Known(l, q)
    ensures Found(l', i, q) <==> Found(l, i, q)
  {
  }

  lemma LinkedStays(c: State, c': State, i: nat)
    requires i < |c.l.loads| && i < |c.links| && i < |c'.links| && Linked(c, i)
    requires SamePaths(c.l, c'.l) && Extends(c.s, c'.s)
    requires c'.l.loads[i] == c.l.loads[i] && c'.links[i] == c.links[i]
    ensures Linked(c', i)
  {
    hide Parse, Found, Known;
    forall q | q in c.links[i].queries ensures Known(c'.l, q) && (Found(c'.l, i, q) <==> Found(c.l, i, q)) {
      KnownStays(c.l, c'.l, q);
      FoundStays(c.l, c'.l, i, q);
    }
    var qs := c.links[i].queries;
    assert forall k :: 0 <= k < |qs| ==> qs[k] in qs;
    assert qs != [] ==> forall k :: 0 <= k < |qs| - 1 ==> qs[..|qs| - 1][k] == qs[k];
  }

  lemma KnownStays(l: L.Sessions, l': L.Sessions, q: Query)
    requires SamePaths(l, l') && Known(l, q)
    ensures Known(l', q)
  {
  }

  // ── Steps of the session ──────────────────────────────────────────────

  lemma StepExtends(s: S.State, e: S.Event, json: Json)
    ensures Extends(s, S.Next(s, e, json))
  {
    TasksStep(s, e, json);
    hide S.Next;
  }

  lemma RejectionStays(s: S.State, e: S.Event, json: Json, t: nat)
    requires P.Inv(s) && t < |s.ses.tasks| && RejectedAtEntry(s, t)
    ensures t < |S.Next(s, e, json).ses.tasks| && RejectedAtEntry(S.Next(s, e, json), t)
  {
    StepExtends(s, e, json);
    var s' := S.Next(s, e, json);
    forall k | 0 <= k < |s'.t.operations| ensures s'.t.operations[k].task != t {
      if s'.t.operations[k].task == t {
        SettledOwns(s, e, json, k);
        assert false;
      }
    }
    hide P.Inv, S.Next;
  }

  /** A queued query whose body runs on a session without a process either resets the
      file or is rejected. */
  lemma EntryRejects(s: S.State, t: nat, seen: bool)
    requires P.Inv(s) && t < |s.ses.tasks| && s.ses.tasks[t].phase.Queued? && s.ses.tasks[t].request.UserCommand?
    requires s.ses.proc.None? && !Resets(s, S.Proceed(t, seen))
    ensures NotStarted(S.ProceedTask(s, t, seen), t)
  {
    forall k | 0 <= k < |s.t.operations| ensures s.t.operations[k].task != t {
      QueuedOwnsNothing(s, k);
    }
    hide P.Inv, S.EnsureProcess, S.NeedsVersion, StartCommand;
  }

  lemma NotStartedStep(s: S.State, e: S.Event, json: Json, t: nat)
    requires P.Inv(s) && NotStarted(s, t) && s.ses.tasks[t].request.UserCommand?
    requires s.ses.proc.None? && !Resets(s, e)
    ensures NotStarted(S.Next(s, e, json), t)
  {
    if !s.ses.tasks[t].phase.Queued? {
      RejectionStays(s, e, json, t);
    } else if e.Proceed? && e.task == t {
      EntryRejects(s, t, e.versionSeen);
    } else {
      TasksStep(s, e, json);
    }
    hide P.Inv, S.Next, Resets;
  }

  /** Once its call has settled, a load's completion is fixed. */
  lemma CompletionIsFixed(s: S.State, e: S.Event, json: Json, t: nat)
    requires P.Inv(s) && t < |s.ses.tasks| && s.ses.tasks[t].phase.Settled?
    ensures CompletedByClose(S.Next(s, e, json), t) ==> CompletedByClose(s, t)
  {
    var s' := S.Next(s, e, json);
    if CompletedByClose(s', t) {
      var k :| 0 <= k < |s'.t.operations| && s'.t.operations[k].task == t && s'.t.operations[k].purpose.User?
        && ByClose(s'.t.operations[k]);
      SettledOwns(s, e, json, k);
    }
    hide P.Inv, S.Next;
  }

  /** A call that a close completed settles on a session without a process. */
  lemma SettlesWithoutProcess(s: S.State, e: S.Event, json: Json, t: nat)
    requires P.Inv(s) && CloseInv(s) && t < |s.ses.tasks| && !s.ses.tasks[t].phase.Settled?
    requires t < |S.Next(s, e, json).ses.tasks| && S.Next(s, e, json).ses.tasks[t].phase.Settled?
    requires CompletedByClose(S.Next(s, e, json), t)
    ensures S.Next(s, e, json).ses.proc.None?
  {
    TasksStep(s, e, json);
    assert e.Proceed? && e.task == t;
    SettlingTask(s, t, e.versionSeen);
    var k :| 0 <= k < |s.t.operations| && s.t.operations[k].task == t && ByClose(s.t.operations[k]);
    assert ClosedUnder(s, k);
    hide P.Inv, S.Next, S.ProceedTask;
  }

  lemma InvParts(c: State)
    requires Inv(c)
    ensures P.Inv(c.s) && CloseInv(c.s) && L.Inv(c.l) && Agree(c)
    ensures |c.links| == |c.l.loads|
    ensures forall i :: 0 <= i < |c.l.loads| ==> Linked(c, i) && ClosedLoad(c, i)
  {
  }

  lemma TaskExists(c: State, i: nat)
    requires i < |c.l.loads| && i < |c.links| && Linked(c, i) && c.links[i].task.Some?
    ensures c.links[i].task.value < |c.s.ses.tasks|
  {
  }

  lemma ClosedLoadStep(c: State, e: S.Event, json: Json, i: nat)
    requires Inv(c) && i < |c.l.loads|
    ensures i < |SessionStep(c, e, json).l.loads| && i < |SessionStep(c, e, json).links|
    ensures ClosedLoad(SessionStep(c, e, json), i)
  {
    hide P.Inv, CloseInv, L.Inv, S.Next, Resets, Inv, SessionStep, Linked, ClosedLoad, CompletedByClose;
    var c' := SessionStep(c, e, json);
    InvParts(c);
    SessionLoads(c, e, json);
    if c' != c {
      if c.links[i].task.Some? && CompletedByClose(c'.s, c.links[i].task.value) {
        var t := c.links[i].task.value;
        TaskExists(c, i);
        if c.s.ses.tasks[t].phase.Settled? {
          CompletionIsFixed(c.s, e, json, t);
          ClosedStaysClosed(c, e, json, i);
        } else {
          UnsettledIsLoading(c, i);
          NewlyClosed(c, c', i);
          if TaskSettled(c', c'.links[i].task) {
            SettlesWithoutProcess(c.s, e, json, t);
          }
        }
      } else {
        NotTruncated(c', i);
      }
    }
  }

  lemma NotTruncated(c: State, i: nat)
    requires i < |c.l.loads| && i < |c.links| && !Truncated(c, i)
    ensures ClosedLoad(c, i)
  {
  }

  /** A load whose call settles by a close at this step. */
  lemma NewlyClosed(c: State, c': State, i: nat)
    requires i < |c.l.loads| && i < |c.links| && c'.l.loads == c.l.loads && c'.links == c.links
    requires c'.fileBy == c.fileBy || c'.fileBy.None?
    requires c.fileBy != Some(i) && c.links[i].queries == []
    ensures (TaskSettled(c', c'.links[i].task) ==> c'.s.ses.proc.None?) ==> ClosedLoad(c', i)
  {
  }

  lemma UnsettledIsLoading(c: State, i: nat)
    requires Inv(c) && i < |c.l.loads| && c.links[i].task.Some? && !TaskSettled(c, c.links[i].task)
    ensures c.l.loads[i].point.Loading? && c.links[i].queries == [] && c.fileBy != Some(i)
  {
    assert Linked(c, i);
    hide P.Inv, CloseInv, L.Inv;
  }

  /** The loads are untouched by a session step, or reset. */
  lemma SessionLoads(c: State, e: S.Event, json: Json)
    ensures var c' := SessionStep(c, e, json);
      c'.links == c.links && c'.l.loads == c.l.loads && (c'.fileBy == c.fileBy || c'.fileBy.None?) &&
      (c' != c ==> c'.s == S.Next(c.s, e, json) && !e.SetFile? && !(Enters(c.s, e) && Owed(c))
                   && c'.fileBy == (if Resets(c.s, e) then None else c.fileBy))
  {
    hide S.Next, Resets;
  }

  lemma ClosedStaysClosed(c: State, e: S.Event, json: Json, i: nat)
    requires Inv(c) && i < |c.l.loads| && Truncated(c, i) && TaskSettled(c, c.links[i].task)
    requires SessionStep(c, e, json) != c
    ensures i < |SessionStep(c, e, json).l.loads| && i < |SessionStep(c, e, json).links|
    ensures ClosedLoad(SessionStep(c, e, json), i)
  {
    var c' := SessionStep(c, e, json);
    var s' := S.Next(c.s, e, json);
    SessionLoads(c, e, json);
    ResetsExactly(c.s, e, json);
    StepExtends(c.s, e, json);
    assert ClosedLoad(c, i) && Linked(c, i);
    hide S.Next, Resets;
    if c.l.loads[i].point.Loading? {
      assert TaskSettled(c, Awaited(c, i));
    }
    forall q | q in c.links[i].queries && c'.fileBy == Some(i) ensures Unsent(c', i, q) {
      assert Unsent(c, i, q);
      if q.task.Some? { NotStartedStep(c.s, e, json, q.task.value); }
    }
    forall q | q in c.links[i].queries && q.seen == Some(Some(i)) ensures Refused(c', i, q) {
      assert Refused(c, i, q);
      if q.task.Some? { RejectionStays(c.s, e, json, q.task.value); }
    }
    hide P.Inv, Inv, RejectedAtEntry;
  }

  lemma SessionStepKeeps(c: State, e: S.Event, json: Json)
    requires Inv(c)
    ensures Inv(SessionStep(c, e, json))
  {
    hide P.Inv, CloseInv, L.Inv, S.Next, Resets, Inv, SessionStep, Linked, ClosedLoad;
    var c' := SessionStep(c, e, json);
    InvParts(c);
    SessionLoads(c, e, json);
    if c' != c {
      SessionStepBase(c, e, json);
      StepExtends(c.s, e, json);
      forall i | 0 <= i < |c.l.loads| ensures Linked(c', i) && ClosedLoad(c', i) {
        LinkedStays(c, c', i);
        ClosedLoadStep(c, e, json, i);
      }
      InvFrom(c');
    }
  }

  lemma InvFrom(c: State)
    requires P.Inv(c.s) && CloseInv(c.s) && L.Inv(c.l) && Agree(c)
    requires forall i :: 0 <= i < |c.l.loads| ==> Linked(c, i)
    requires forall i :: 0 <= i < |c.l.loads| ==> ClosedLoad(c, i)
    ensures Inv(c)
  {
  }

  lemma SessionStepBase(c: State, e: S.Event, json: Json)
    requires P.Inv(c.s) && CloseInv(c.s) && L.Inv(c.l) && Agree(c)
    requires SessionStep(c, e, json) != c
    ensures var c' := SessionStep(c, e, json);
      P.Inv(c'.s) && CloseInv(c'.s) && L.Inv(c'.l) && Agree(c')
  {
    hide P.Inv, CloseInv, L.Inv, S.Next, Resets, Enters, Owed, L.Next;
    P.NextKeeps(c.s, e, json);
    CloseInvKeeps(c.s, e, json);
    L.NextKeeps(c.l, L.ProcessReset);
    ResetsExactly(c.s, e, json);
    ResetClears(c.l);
  }

  lemma ResetClears(l: L.Sessions)
    ensures var l' := L.Next(l, L.ProcessReset); l'.loads == l.loads && l'.fields.currentFile.None?
  {
  }

  // ── Steps of a load ───────────────────────────────────────────────────

  /** The session queued at most a task and changed its file. */
  ghost predicate Still(s: S.State, s': S.State) {
    && s'.t == s.t && s'.ses.proc == s.ses.proc
    && |s.ses.tasks| <= |s'.ses.tasks|
    && forall t :: 0 <= t < |s.ses.tasks| ==> s'.ses.tasks[t] == s.ses.tasks[t]
  }

  lemma SetFileStill(s: S.State, file: Option<string>, json: Json)
    requires P.Inv(s) && CloseInv(s)
    ensures var s' := S.Next(s, S.SetFile(file), json);
      P.Inv(s') && CloseInv(s') && Still(s, s') && s'.ses.currentFile == file && |s'.ses.tasks| == |s.ses.tasks|
  {
    P.NextKeeps(s, S.SetFile(file), json);
    CloseInvKeeps(s, S.SetFile(file), json);
    hide P.Inv, CloseInv;
  }

  lemma EnqueueStill(s: S.State, awaits: bool, timeoutMs: nat, json: Json)
    requires P.Inv(s) && CloseInv(s)
    ensures var s' := S.Next(s, S.Enqueue(awaits, false, timeoutMs), json);
      && P.Inv(s') && CloseInv(s') && Still(s, s') && s'.ses.currentFile == s.ses.currentFile
      && |s'.ses.tasks| == |s.ses.tasks| + 1 && s'.ses.tasks[|s.ses.tasks|].phase.Queued?
      && s'.ses.tasks[|s.ses.tasks|].request.UserCommand?
      && s'.ses.tasks[|s.ses.tasks|].request.awaitsTerminus == awaits
  {
    P.NextKeeps(s, S.Enqueue(awaits, false, timeoutMs), json);
    CloseInvKeeps(s, S.Enqueue(awaits, false, timeoutMs), json);
    hide P.Inv, CloseInv;
  }

  /** What a load segment that may send a metas query leaves. */
  ghost predicate Continued(c: State, i: nat, l': L.Sessions, c': State)
    requires i < |c.links| && i < |l'.loads|
  {
    && P.Inv(c'.s) && CloseInv(c'.s) && Still(c.s, c'.s) && c'.s.ses.currentFile == l'.fields.currentFile
    && c'.l == l' && |c'.links| == |c.links|
    && (forall j :: 0 <= j < |c.links| && j != i ==> c'.links[j] == c.links[j])
    && match l'.loads[i].point
       case AwaitingMetas(_) =>
         && c'.links[i] == Asked(c.links[i], Some(|c.s.ses.tasks|))
         && TaskOf(c'.s, Some(|c.s.ses.tasks|), false) && c'.s.ses.tasks[|c.s.ses.tasks|].phase.Queued?
       case MetasSettled(_, _) => c'.links[i] == Asked(c.links[i], None)
       case _ => c'.links[i] == c.links[i]
  }

  lemma SegmentContinues(c: State, i: nat, l': L.Sessions, timeoutMs: nat, json: Json)
    requires P.Inv(c.s) && CloseInv(c.s) && i < |c.links| && i < |l'.loads|
    ensures Continued(c, i, l', AfterSegment(c, i, l', timeoutMs, json))
    ensures AfterSegment(c, i, l', timeoutMs, json).fileBy == c.fileBy
  {
    hide P.Inv, CloseInv, S.Next, Still;
    var s1 := S.Next(c.s, S.SetFile(l'.fields.currentFile), json);
    SetFileStill(c.s, l'.fields.currentFile, json);
    EnqueueStill(s1, false, timeoutMs, json);
    StillTwice(c.s, s1, S.Next(s1, S.Enqueue(false, false, timeoutMs), json));
  }

  /** The link after such a segment: the old queries, and perhaps one that has not started. */
  ghost predicate LinkGrows(c: State, i: nat, c': State)
    requires i < |c.links| && i < |c'.links|
  {
    && c'.links[i].task == c.links[i].task && c'.links[i].holes == c.links[i].holes
    && (c'.links[i].queries == c.links[i].queries
        || exists q :: c'.links[i].queries == c.links[i].queries + [q] && FreshQuery(c'.s, q))
  }

  ghost predicate FreshQuery(s: S.State, q: Query) {
    q.seen.None? && TaskOf(s, q.task, false) && (q.task.Some? ==> NotStarted(s, q.task.value))
  }

  lemma LinkAfter(c: State, i: nat, l': L.Sessions, c': State)
    requires i < |c.links| && i < |l'.loads| && Continued(c, i, l', c')
    ensures |c'.links| == |c.links| && LinkGrows(c, i, c')
    ensures var point := l'.loads[i].point;
      c'.links[i].queries == c.links[i].queries <==> !point.AwaitingMetas? && !point.MetasSettled?
    ensures l'.loads[i].point.MetasSettled? ==> c'.links[i].queries == c.links[i].queries + [Query(None, None)]
  {
    hide P.Inv, CloseInv, Still;
    var n := |c.s.ses.tasks|;
    assert FreshQuery(c'.s, Query(None, None));
    if l'.loads[i].point.AwaitingMetas? {
      assert FreshQuery(c'.s, Query(Some(n), None));
    }
  }

  lemma DeliveredStill(c: State, c': State, i: nat, rs: seq<Response>)
    requires i < |c.links| && i < |c'.links| && Still(c.s, c'.s) && c'.links[i].task == c.links[i].task
    ensures Delivered(c, i, rs) ==> Delivered(c', i, rs)
    ensures TaskSettled(c, c.links[i].task) ==> TaskSettled(c', c'.links[i].task)
    ensures forall t, b :: TaskOf(c.s, t, b) ==> TaskOf(c'.s, t, b)
  {
  }

  lemma StillExtends(s: S.State, s': S.State)
    requires Still(s, s')
    ensures Extends(s, s')
  {
  }

  lemma ClosedStays(c: State, c': State, j: nat)
    requires j < |c.l.loads| && j < |c'.l.loads| && j < |c.links| && j < |c'.links|
    requires Linked(c, j) && ClosedLoad(c, j) && Still(c.s, c'.s)
    requires c'.l.loads[j] == c.l.loads[j] && c'.links[j] == c.links[j]
    requires c'.fileBy == Some(j) ==> c.fileBy == Some(j)
    ensures ClosedLoad(c', j)
  {
    forall q | q in c.links[j].queries
      ensures Unsent(c, j, q) ==> Unsent(c', j, q)
      ensures Refused(c, j, q) ==> Refused(c', j, q)
    {
    }
    hide Parse, QueriesFit;
  }

  // The segments of a load, as far as they matter here.

  predicate AnswerShape(point: L.Point, load: L.Load, rs: seq<Response>, holes: nat) {
    match point
    case AwaitingMetas(p) => p.responses == rs && !load.strict
    case MetasSettled(p, _) => p.responses == rs && !load.strict && load.path == ""
    case Returned(result, early, from) =>
      from == rs && (result.success <==> Clean(rs) && (load.strict ==> NothingLeft(rs, holes)))
    case Threw => true
    case _ => false
  }

  lemma AnswerFits(f: L.Fields, load: L.Load, rs: seq<Response>, mtime: Option<int>, holes: nat, now: nat)
    ensures AnswerShape(L.AfterLoad(f, load, rs, mtime, holes, now).point, load, rs, holes)
  {
    hide Parse, L.IsFatalReply;
  }

  predicate RoundShape(seg: L.Segment, f: L.Fields, load: L.Load, p: L.Progress, r: L.Reconciliation) {
    && seg.fields.currentFile == f.currentFile
    && match seg.point
       case AwaitingMetas(q) => q.responses == p.responses && !r.procDied
       case MetasSettled(q, _) => q.responses == p.responses && !r.procDied && (f.currentFile == Some(load.path) ==> load.path == "")
       case Returned(result, early, from) => from == p.responses && (result.success <==> !r.procDied)
       case _ => false
  }

  lemma RoundFits(f: L.Fields, load: L.Load, p: L.Progress, r: L.Reconciliation, holes: nat, now: nat)
    requires L.WellProgressed(p)
    ensures RoundShape(L.AfterRound(f, load, p, r, holes, now), f, load, p, r)
  {
    hide Parse, L.IsFatalReply;
  }

  lemma OneLoadMoves(l: L.Sessions, e: L.Event)
    requires e.LoadAnswered? || e.LoadRejected? || e.MetasAnswered? || e.MetasRejected? || e.ReconcileResumes? || e.LoadResumes?
    ensures |L.Next(l, e).loads| == |l.loads| && SamePaths(l, L.Next(l, e))
    ensures forall j :: 0 <= j < |l.loads| && j != e.i ==> L.Next(l, e).loads[j] == l.loads[j]
    ensures e.i < |l.loads| ==> L.Next(l, e).loads[e.i].strict == l.loads[e.i].strict
  {
    hide Parse;
  }

  /** The other loads are not concerned by a segment of load `i`. */
  lemma OthersKeep(c: State, c': State, i: nat, j: nat)
    requires Inv(c) && j < |c.l.loads| && j != i
    requires SamePaths(c.l, c'.l) && Still(c.s, c'.s) && |c'.links| >= |c.links| == |c.l.loads|
    requires c'.l.loads[j] == c.l.loads[j] && c'.links[j] == c.links[j]
    requires c'.fileBy == c.fileBy || c'.fileBy == Some(i) || c'.fileBy.None?
    ensures Linked(c', j) && ClosedLoad(c', j)
  {
    InvParts(c);
    StillExtends(c.s, c'.s);
    hide Inv, P.Inv, CloseInv, L.Inv, Linked, ClosedLoad;
    LinkedStays(c, c', j);
    ClosedStays(c, c', j);
  }

  // ── A load continues behind its command ───────────────────────────────

  lemma LoadContinuesKeeps(c: State, i: nat, mtime: Option<int>, holes: nat, timeoutMs: nat, json: Json)
    requires Inv(c)
    ensures Inv(Next(c, LoadContinues(i, mtime, holes, timeoutMs), json))
  {
    hide Inv, P.Inv, CloseInv, L.Inv, L.Next, Linked, ClosedLoad, AfterSegment, T.Assigned, Still;
    InvParts(c);
    var c' := Next(c, LoadContinues(i, mtime, holes, timeoutMs), json);
    if TaskSettled(c, Awaited(c, i)) && c.l.loads[i].point.Loading? {
      ScannedKeeps(c, i, holes);
      OneLoadMoves(c.l, LoadEvent(i, c.s.ses.tasks[Awaited(c, i).value].phase.verdict, mtime, holes));
      ScannedContinues(Scanned(c, i, holes), c', i, mtime, holes, timeoutMs, json);
    }
  }

  /** The scan is only noted. */
  lemma ScannedKeeps(c: State, i: nat, holes: nat)
    requires Inv(c) && i < |c.l.loads| && c.l.loads[i].point.Loading?
    ensures |c.links| == |c.l.loads| && Inv(Scanned(c, i, holes))
  {
    hide Inv, P.Inv, CloseInv, L.Inv, Linked, ClosedLoad, Agree;
    InvParts(c);
    var c1 := Scanned(c, i, holes);
    forall j | 0 <= j < |c.l.loads| ensures Linked(c1, j) && ClosedLoad(c1, j) {
      ScannedLink(c, i, holes, j);
    }
    ScannedAgrees(c, i, holes);
    InvFrom(c1);
  }

  lemma ScannedAgrees(c: State, i: nat, holes: nat)
    requires Agree(c) && i < |c.links|
    ensures Agree(Scanned(c, i, holes))
  {
  }

  lemma ScannedLink(c: State, i: nat, holes: nat, j: nat)
    requires i < |c.l.loads| == |c.links| && c.l.loads[i].point.Loading? && j < |c.l.loads|
    requires Linked(c, j) && ClosedLoad(c, j)
    ensures Linked(Scanned(c, i, holes), j) && ClosedLoad(Scanned(c, i, holes), j)
  {
    hide Clean, AllFound, Known, NotStarted, RejectedAtEntry, CompletedByClose, TaskOf, NothingLeft;
    var c1 := Scanned(c, i, holes);
    assert forall q :: Unsent(c1, j, q) == Unsent(c, j, q) && Refused(c1, j, q) == Refused(c, j, q);
  }

  lemma ScannedContinues(c: State, c': State, i: nat, mtime: Option<int>, holes: nat, timeoutMs: nat, json: Json)
    requires Inv(c) && i < |c.l.loads| && i < |c.links| && c.links[i].holes == holes
    requires TaskSettled(c, Awaited(c, i)) && c.l.loads[i].point.Loading?
    requires var le := LoadEvent(i, c.s.ses.tasks[Awaited(c, i).value].phase.verdict, mtime, holes);
      var l' := L.Next(c.l, le);
      i < |l'.loads| &&
      c' == AfterSegment(c, i, l', timeoutMs, json).(fileBy := if T.Assigned(c.l, le).Some? then Some(i) else c.fileBy)
    ensures Inv(c')
  {
    hide Inv, P.Inv, CloseInv, L.Inv, L.Next, Linked, ClosedLoad, AfterSegment, T.Assigned, Still;
    InvParts(c);
    var t := Awaited(c, i);
    if t.Some? {
      var v := c.s.ses.tasks[t.value].phase.verdict;
      var le := LoadEvent(i, v, mtime, holes);
      var l' := L.Next(c.l, le);
      L.NextKeeps(c.l, le);
      OneLoadMoves(c.l, le);
      SegmentContinues(c, i, l', timeoutMs, json);
      T.AssignedStep(c.l, le);
      assert Continued(c, i, l', c');
      ContinuedAgree(c, c', i, le);
      forall j | 0 <= j < |c'.l.loads| ensures Linked(c', j) && ClosedLoad(c', j) {
        if j == i {
          AnsweredLinked(c, c', i, v, mtime, holes);
          AnsweredClosed(c, c', i, v, mtime, holes);
        } else {
          OthersKeep(c, c', i, j);
        }
      }
      InvFrom(c');
    }
  }

  lemma ContinuedAgree(c: State, c': State, i: nat, le: L.Event)
    requires Agree(c) && i < |c.l.loads| && c.l.loads[i].point.Loading?
    requires (le.LoadAnswered? || le.LoadRejected?) && le.i == i
    requires Continued(c, i, L.Next(c.l, le), c')
    requires c'.fileBy == (if T.Assigned(c.l, le).Some? then Some(i) else c.fileBy)
    ensures Agree(c')
  {
    T.AssignedStep(c.l, le);
    OneLoadMoves(c.l, le);
    LoadingEnds(c.l, le);
    hide P.Inv, CloseInv, L.Next, Still;
  }

  lemma LoadingEnds(l: L.Sessions, le: L.Event)
    requires (le.LoadAnswered? || le.LoadRejected?) && le.i < |l.loads| && l.loads[le.i].point.Loading?
    ensures |L.Next(l, le).loads| == |l.loads| && !L.Next(l, le).loads[le.i].point.Loading?
    ensures le.LoadRejected? ==> L.Next(l, le).loads[le.i].point.Threw?
    ensures le.LoadAnswered? ==>
      AnswerShape(L.Next(l, le).loads[le.i].point, l.loads[le.i], le.responses, le.holesInSource)
  {
    hide Parse, L.IsFatalReply, AnswerShape, L.AfterLoad;
    if le.LoadAnswered? {
      AnswerFits(l.fields, l.loads[le.i], le.responses, le.mtime, le.holesInSource, l.clock + 1);
      assert AnswerShape(L.Next(l, le).loads[le.i].point, l.loads[le.i], le.responses, le.holesInSource);
    }
    LoadingLeft(l, le);
  }

  lemma LoadingLeft(l: L.Sessions, le: L.Event)
    requires (le.LoadAnswered? || le.LoadRejected?) && le.i < |l.loads| && l.loads[le.i].point.Loading?
    ensures !L.Next(l, le).loads[le.i].point.Loading?
  {
    hide Parse, L.IsFatalReply;
  }

  lemma AnsweredLinked(c: State, c': State, i: nat, v: S.Verdict, mtime: Option<int>, holes: nat)
    requires i < |c.l.loads| && i < |c.links| && i < |c'.links| && Linked(c, i) && c.l.loads[i].point.Loading?
    requires TaskSettled(c, c.links[i].task) && c.s.ses.tasks[c.links[i].task.value].phase == S.Settled(v)
    requires i < |L.Next(c.l, LoadEvent(i, v, mtime, holes)).loads|
    requires Continued(c, i, L.Next(c.l, LoadEvent(i, v, mtime, holes)), c') && c.links[i].holes == holes
    ensures Linked(c', i)
  {
    hide P.Inv, CloseInv, L.Next, Clean, Still, TaskOf, NotStarted;
    var le := LoadEvent(i, v, mtime, holes);
    var l' := L.Next(c.l, le);
    LoadingEnds(c.l, le);
    OneLoadMoves(c.l, le);
    LinkAfter(c, i, l', c');
    LoadingHasNone(c, i);
    DeliveredStill(c, c', i, if v.Delivered? then v.responses else []);
    assert c'.l == l' && Still(c.s, c'.s);
    hide Continued;
    if v.Delivered? {
      assert Delivered(c, i, v.responses);
      AnsweredFits(c', i, v.responses);
    }
  }

  /** The first query, if there is one, of a load that has its answer. */
  lemma AnsweredFits(c: State, i: nat, rs: seq<Response>)
    requires i < |c.l.loads| && i < |c.links| && Delivered(c, i, rs)
    requires AnswerShape(c.l.loads[i].point, c.l.loads[i], rs, c.links[i].holes)
    requires c.l.loads[i].point.AwaitingMetas? || c.l.loads[i].point.MetasSettled? ==> |c.links[i].queries| == 1
    requires c.l.loads[i].point.MetasSettled? ==> c.links[i].queries[0].task.None?
    requires !c.l.loads[i].point.AwaitingMetas? && !c.l.loads[i].point.MetasSettled? ==> c.links[i].queries == []
    ensures QueriesFit(c, i)
  {
    hide Clean;
  }

  lemma AnsweredClosed(c: State, c': State, i: nat, v: S.Verdict, mtime: Option<int>, holes: nat)
    requires i < |c.l.loads| && i < |c.links| && i < |c'.links| && Linked(c, i) && c.l.loads[i].point.Loading?
    requires TaskSettled(c, c.links[i].task) && c.s.ses.tasks[c.links[i].task.value].phase == S.Settled(v)
    requires i < |L.Next(c.l, LoadEvent(i, v, mtime, holes)).loads|
    requires Continued(c, i, L.Next(c.l, LoadEvent(i, v, mtime, holes)), c')
    requires ClosedLoad(c, i)
    ensures ClosedLoad(c', i)
  {
    hide P.Inv, CloseInv, L.Next, Clean, QueriesFit, NotStarted, TaskOf, AnswerShape;
    var le := LoadEvent(i, v, mtime, holes);
    var l' := L.Next(c.l, le);
    LoadingEnds(c.l, le);
    OneLoadMoves(c.l, le);
    LinkAfter(c, i, l', c');
    LoadingHasNone(c, i);
    EmptyPath(l'.loads[i].point, c.l.loads[i], le);
    assert c'.l == l' && c'.s.t == c.s.t && c'.s.ses.proc == c.s.ses.proc;
    hide Continued;
    assert CompletedByClose(c'.s, c.links[i].task.value) == CompletedByClose(c.s, c.links[i].task.value);
  }

  lemma EmptyPath(point: L.Point, load: L.Load, le: L.Event)
    requires le.LoadAnswered? ==> AnswerShape(point, load, le.responses, le.holesInSource)
    requires le.LoadRejected? ==> point.Threw?
    requires le.LoadAnswered? || le.LoadRejected?
    ensures point.MetasSettled? ==> load.path == ""
  {
  }

  lemma LoadingHasNone(c: State, i: nat)
    requires i < |c.l.loads| && i < |c.links| && Linked(c, i) && c.l.loads[i].point.Loading?
    ensures c.links[i].queries == []
  {
  }

  // ── A load continues behind its metas query and its reconciliation ────

  lemma MetasContinuesKeeps(c: State, i: nat, json: Json)
    requires Inv(c)
    ensures Inv(Next(c, MetasContinues(i), json))
  {
    hide Inv, P.Inv, CloseInv, L.Inv, L.Next, Linked, ClosedLoad;
    InvParts(c);
    var t := Awaited(c, i);
    if TaskSettled(c, t) && c.l.loads[i].point.AwaitingMetas? {
      var le := MetasEvent(i, c.s.ses.tasks[t.value].phase.verdict);
      var c' := c.(l := L.Next(c.l, le));
      L.NextKeeps(c.l, le);
      OneLoadMoves(c.l, le);
      MetasShape(c.l, le);
      forall j | 0 <= j < |c'.l.loads| ensures Linked(c', j) && ClosedLoad(c', j) {
        if j == i {
          MetasLinked(c, c', i);
        } else {
          OthersKeep(c, c', i, j);
        }
      }
      InvFrom(c');
    }
  }

  lemma MetasShape(l: L.Sessions, le: L.Event)
    requires (le.MetasAnswered? || le.MetasRejected?) && le.i < |l.loads| && l.loads[le.i].point.AwaitingMetas?
    ensures |L.Next(l, le).loads| == |l.loads| && L.Next(l, le).fields.currentFile == l.fields.currentFile
    ensures L.Next(l, le).loads[le.i].point.MetasSettled? && L.Next(l, le).loads[le.i].point.p == l.loads[le.i].point.p
  {
    hide Parse;
  }

  lemma MetasLinked(c: State, c': State, i: nat)
    requires i < |c.l.loads| && i < |c.links| && Linked(c, i) && ClosedLoad(c, i) && SamePaths(c.l, c'.l)
    requires c'.s == c.s && c'.links == c.links && c'.fileBy == c.fileBy && i < |c'.l.loads|
    requires c.l.loads[i].point.AwaitingMetas? && TaskSettled(c, Awaited(c, i))
    requires c'.l.loads[i].point.MetasSettled? && c'.l.loads[i].point.p == c.l.loads[i].point.p
    requires c'.l.loads[i].strict == c.l.loads[i].strict
    ensures Linked(c', i) && ClosedLoad(c', i)
  {
    hide Parse, Found, Known;
    forall q | q in c.links[i].queries ensures Known(c'.l, q) && (Found(c'.l, i, q) <==> Found(c.l, i, q)) {
      KnownStays(c.l, c'.l, q);
      FoundStays(c.l, c'.l, i, q);
    }
    var qs := c.links[i].queries;
    assert forall k :: 0 <= k < |qs| ==> qs[k] in qs;
    assert forall k :: 0 <= k < |qs| - 1 ==> qs[..|qs| - 1][k] == qs[k];
    forall q | q in qs
      ensures Unsent(c, i, q) ==> Unsent(c', i, q)
      ensures Refused(c, i, q) ==> Refused(c', i, q)
    {
    }
  }

  lemma ReconcileContinuesKeeps(c: State, i: nat, json: Json)
    requires Inv(c)
    ensures Inv(Next(c, ReconcileContinues(i), json))
  {
    hide Inv, P.Inv, CloseInv, L.Inv, L.Next, Linked, ClosedLoad;
    InvParts(c);
    if i < |c.l.loads| && c.l.loads[i].point.MetasSettled? && c.links[i].queries != [] {
      var le := L.ReconcileResumes(i);
      var c' := c.(l := L.Next(c.l, le), links := c.links[i := Saw(c.links[i], c.fileBy)]);
      L.NextKeeps(c.l, le);
      OneLoadMoves(c.l, le);
      ReconcileShape(c.l, i);
      forall j | 0 <= j < |c'.l.loads| ensures Linked(c', j) && ClosedLoad(c', j) {
        if j == i {
          ReconcileLinked(c, c', i);
          ReconcileClosed(c, c', i);
        } else {
          OthersKeep(c, c', i, j);
        }
      }
      InvFrom(c');
    }
  }

  lemma ReconcileShape(l: L.Sessions, i: nat)
    requires i < |l.loads| && l.loads[i].point.MetasSettled?
    ensures var l' := L.Next(l, L.ReconcileResumes(i));
      && |l'.loads| == |l.loads| && l'.fields.currentFile == l.fields.currentFile
      && l'.loads[i].point.Reconciled? && l'.loads[i].point.p == l.loads[i].point.p
      && (l'.loads[i].point.outcome.procDied <==> l.fields.currentFile != Some(l.loads[i].path))
  {
    hide Parse;
  }

  lemma ReconcileLinked(c: State, c': State, i: nat)
    requires Agree(c) && i < |c.l.loads| && Linked(c, i) && SamePaths(c.l, c'.l)
    requires c.l.loads[i].point.MetasSettled? && c.links[i].queries != []
    requires c'.s == c.s && c'.fileBy == c.fileBy && i < |c'.l.loads| && c'.links == c.links[i := Saw(c.links[i], c.fileBy)]
    requires c'.l.loads[i].point.Reconciled? && c'.l.loads[i].point.p == c.l.loads[i].point.p
    requires c'.l.loads[i].point.outcome.procDied <==> c.l.fields.currentFile != Some(c.l.loads[i].path)
    requires c'.l.loads[i].strict == c.l.loads[i].strict
    ensures Linked(c', i)
  {
    hide Parse, Found, Known;
    var qs, n := c.links[i].queries, |c.links[i].queries| - 1;
    var q' := qs[n].(seen := Some(c.fileBy));
    assert c'.links[i].queries == qs[n := q'] && c'.links[i].queries[..n] == qs[..n];
    assert qs[n] in qs;
    forall q | q in qs ensures Known(c'.l, q) && (Found(c'.l, i, q) <==> Found(c.l, i, q)) {
      KnownStays(c.l, c'.l, q);
      FoundStays(c.l, c'.l, i, q);
    }
    assert forall k :: 0 <= k < n ==> qs[k] in qs;
    FoundNow(c, c', i, q');
  }

  lemma FoundNow(c: State, c': State, i: nat, q: Query)
    requires Agree(c) && i < |c.l.loads| && SamePaths(c.l, c'.l) && q.seen == Some(c.fileBy)
    ensures Known(c'.l, q)
    ensures Found(c'.l, i, q) <==> c.l.fields.currentFile == Some(c.l.loads[i].path)
  {
  }

  lemma ReconcileClosed(c: State, c': State, i: nat)
    requires i < |c.l.loads| && i < |c.links| && Linked(c, i) && ClosedLoad(c, i) && SamePaths(c.l, c'.l)
    requires c.l.loads[i].point.MetasSettled? && c.links[i].queries != []
    requires c'.s == c.s && c'.fileBy == c.fileBy && i < |c'.l.loads| && c'.links == c.links[i := Saw(c.links[i], c.fileBy)]
    requires c'.l.loads[i].point.Reconciled?
    ensures ClosedLoad(c', i)
  {
    hide Parse, AllFound;
    var qs, n := c.links[i].queries, |c.links[i].queries| - 1;
    assert qs[n] in qs && Answered(c, qs);
    forall q | q in c'.links[i].queries
      ensures q in qs || (q == qs[n].(seen := Some(c.fileBy)))
    {
    }
    forall q | q in qs
      ensures Unsent(c, i, q) ==> Unsent(c', i, q)
      ensures Refused(c, i, q) ==> Refused(c', i, q)
    {
    }
    assert c.fileBy == Some(i) && Truncated(c, i) ==> Unsent(c, i, qs[n]);
  }

  // ── A load returns, or starts its second round ────────────────────────

  lemma LoadReturnsKeeps(c: State, i: nat, holes: nat, timeoutMs: nat, json: Json)
    requires Inv(c)
    ensures Inv(Next(c, LoadReturns(i, holes, timeoutMs), json))
  {
    hide Inv, P.Inv, CloseInv, L.Inv, L.Next, Linked, ClosedLoad, AfterSegment, Still, RoundShape;
    InvParts(c);
    if i < |c.l.loads| && c.l.loads[i].point.Reconciled? {
      var le := L.LoadResumes(i, holes);
      var l' := L.Next(c.l, le);
      L.NextKeeps(c.l, le);
      OneLoadMoves(c.l, le);
      var c' := AfterSegment(c, i, l', timeoutMs, json);
      SegmentContinues(c, i, l', timeoutMs, json);
      RoundMoves(c.l, i, holes);
      assert Continued(c, i, l', c');
      RoundAgree(c, c', i, l');
      forall j | 0 <= j < |c'.l.loads| ensures Linked(c', j) && ClosedLoad(c', j) {
        if j == i {
          RoundLinked(c, c', i, l');
          RoundClosed(c, c', i, l');
        } else {
          OthersKeep(c, c', i, j);
        }
      }
      InvFrom(c');
    }
  }

  lemma RoundMoves(l: L.Sessions, i: nat, holes: nat)
    requires L.Inv(l) && i < |l.loads| && l.loads[i].point.Reconciled?
    ensures var l' := L.Next(l, L.LoadResumes(i, holes));
      && |l'.loads| == |l.loads|
      && RoundShape(L.Segment(l'.fields, l'.loads[i].point), l.fields, l.loads[i], l.loads[i].point.p, l.loads[i].point.outcome)
      && L.WellProgressed(l.loads[i].point.p)
  {
    assert L.WellPlaced(l.fields, l.loads[i]);
    hide Parse, L.WellProgressed, L.Inv, L.AfterRound, RoundShape;
    var p, r := l.loads[i].point.p, l.loads[i].point.outcome;
    RoundFits(l.fields, l.loads[i], p, r, holes, l.clock + 1);
    var seg := L.AfterRound(l.fields, l.loads[i], p, r, holes, l.clock + 1);
    assert L.Segment(L.Next(l, L.LoadResumes(i, holes)).fields, L.Next(l, L.LoadResumes(i, holes)).loads[i].point) == seg;
  }

  /** The fields and the point that load `i` reaches by a round. */
  predicate Rounds(c: State, i: nat, l': L.Sessions) {
    && i < |c.l.loads| && i < |l'.loads| && SamePaths(c.l, l') && c.l.loads[i].point.Reconciled?
    && |l'.loads| == |c.l.loads| && l'.loads[i].strict == c.l.loads[i].strict
    && RoundShape(L.Segment(l'.fields, l'.loads[i].point), c.l.fields, c.l.loads[i], c.l.loads[i].point.p, c.l.loads[i].point.outcome)
    && L.WellProgressed(c.l.loads[i].point.p)
  }

  lemma RoundAgree(c: State, c': State, i: nat, l': L.Sessions)
    requires Agree(c) && Rounds(c, i, l') && Continued(c, i, l', c') && c'.fileBy == c.fileBy
    requires forall j :: 0 <= j < |c.l.loads| && j != i ==> l'.loads[j] == c.l.loads[j]
    ensures Agree(c')
  {
    hide P.Inv, CloseInv, Still, L.WellProgressed;
  }

  lemma RoundLinked(c: State, c': State, i: nat, l': L.Sessions)
    requires i < |c.links| && Rounds(c, i, l') && Linked(c, i) && Continued(c, i, l', c')
    ensures Linked(c', i)
  {
    hide Parse, Found, Known, P.Inv, CloseInv, L.WellProgressed, TaskOf, NotStarted, Delivered, TaskSettled, Clean, QueriesFit;
    LinkAfter(c, i, l', c');
    RoundDelivered(c, c', i, l');
    assert c'.l == l';
    hide Continued, Still;
    var qs, qs' := c.links[i].queries, c'.links[i].queries;
    forall q | q in qs' ensures Known(l', q) {
      if q in qs { KnownStays(c.l, l', q); } else { FreshIsKnown(l', q.task); }
    }
    RoundQueries(c, c', i, l');
  }

  lemma RoundDelivered(c: State, c': State, i: nat, l': L.Sessions)
    requires i < |c.links| && Rounds(c, i, l') && Linked(c, i) && Continued(c, i, l', c')
    ensures Delivered(c', i, c.l.loads[i].point.p.responses)
    ensures forall t, b :: TaskOf(c.s, t, b) ==> TaskOf(c'.s, t, b)
  {
    hide Parse, P.Inv, CloseInv, L.WellProgressed, Delivered, TaskOf;
    LinkAfter(c, i, l', c');
    DeliveredStill(c, c', i, c.l.loads[i].point.p.responses);
  }

  /** The reconciliation that has ended found the path unless it reports a death. */
  lemma RoundFinds(c: State, i: nat, l': L.Sessions)
    requires i < |c.links| && Rounds(c, i, l') && Linked(c, i)
    ensures AllFound(l', i, c.links[i].queries) <==> !c.l.loads[i].point.outcome.procDied
  {
    hide Parse, Found, Known, L.WellProgressed, RoundShape, TaskOf, Delivered, TaskSettled;
    var qs, n := c.links[i].queries, |c.links[i].queries| - 1;
    assert AllFound(c.l, i, qs[..n]) && qs != [];
    forall k | 0 <= k <= n
      ensures Found(l', i, qs[k]) <==> Found(c.l, i, qs[k])
      ensures k < n ==> Found(c.l, i, qs[k])
    {
      assert qs[k] in qs;
      FoundStays(c.l, l', i, qs[k]);
      assert k < n ==> qs[..n][k] == qs[k];
    }
  }

  lemma RoundQueries(c: State, c': State, i: nat, l': L.Sessions)
    requires i < |c.links| && i < |c'.links| && Rounds(c, i, l') && Linked(c, i) && LinkGrows(c, i, c') && c'.l == l'
    requires var point := l'.loads[i].point;
      c'.links[i].queries == c.links[i].queries <==> !point.AwaitingMetas? && !point.MetasSettled?
    requires l'.loads[i].point.MetasSettled? ==> c'.links[i].queries == c.links[i].queries + [Query(None, None)]
    requires Delivered(c', i, c.l.loads[i].point.p.responses)
    ensures QueriesFit(c', i)
  {
    RoundFinds(c, i, l');
    ProgressIsClean(c.l.loads[i].point.p);
    IsPlain(c, i);
    hide Parse, AllFound, L.WellProgressed, TaskOf, Delivered, TaskSettled, Clean, FreshQuery, Linked, SamePaths;
    var qs, qs' := c.links[i].queries, c'.links[i].queries;
    assert qs' != qs ==> qs'[..|qs'| - 1] == qs;
  }

  lemma IsPlain(c: State, i: nat)
    requires i < |c.l.loads| && i < |c.links| && Linked(c, i) && c.l.loads[i].point.Reconciled?
    ensures !c.l.loads[i].strict
  {
  }

  lemma ProgressIsClean(p: L.Progress)
    requires L.WellProgressed(p)
    ensures Clean(p.responses)
  {
  }

  lemma FreshIsKnown(l: L.Sessions, task: Option<nat>)
    ensures Known(l, Query(task, None))
  {
  }

  lemma RoundClosed(c: State, c': State, i: nat, l': L.Sessions)
    requires Agree(c) && i < |c.links| && Rounds(c, i, l') && Linked(c, i) && ClosedLoad(c, i) && Continued(c, i, l', c')
    requires c'.fileBy == c.fileBy
    ensures ClosedLoad(c', i)
  {
    hide Parse, P.Inv, CloseInv, L.WellProgressed, QueriesFit;
    LinkAfter(c, i, l', c');
    assert c'.l == l' && Still(c.s, c'.s);
    hide Continued;
    forall q | q in c.links[i].queries
      ensures Unsent(c, i, q) ==> Unsent(c', i, q)
      ensures Refused(c, i, q) ==> Refused(c', i, q)
    {
    }
  }

  // ── A load begins ─────────────────────────────────────────────────────

  lemma BeginLoadKeeps(c: State, e: Event, json: Json)
    requires Inv(c) && e.BeginLoad?
    ensures Inv(Next(c, e, json))
  {
    hide Inv, P.Inv, CloseInv, L.Inv, L.Next, S.Next, Linked, ClosedLoad;
    InvParts(c);
    var le := L.Begin(e.path, e.strict, e.found, e.optionsOk);
    var c' := Next(c, e, json);
    L.NextKeeps(c.l, le);
    SetFileStill(c.s, None, json);
    EnqueueStill(S.Next(c.s, S.SetFile(None), json), true, e.timeoutMs, json);
    BeginShape(c.l, le);
    StillTwice(c.s, S.Next(c.s, S.SetFile(None), json), c'.s);
    var n := |c.l.loads|;
    forall j | 0 <= j < |c'.l.loads| ensures Linked(c', j) && ClosedLoad(c', j) {
      if j == n {
        NewLink(c, c');
      } else {
        OthersKeep(c, c', n, j);
      }
    }
    InvFrom(c');
  }

  lemma StillTwice(s: S.State, s1: S.State, s2: S.State)
    requires Still(s, s1)
    ensures Still(s1, s2) ==> Still(s, s2)
  {
  }

  lemma BeginShape(l: L.Sessions, le: L.Event)
    requires le.Begin?
    ensures var l' := L.Next(l, le);
      && |l'.loads| == |l.loads| + 1 && SamePaths(l, l') && l'.fields.currentFile.None?
      && (forall j :: 0 <= j < |l.loads| ==> l'.loads[j] == l.loads[j])
      && var point := l'.loads[|l.loads|].point;
         point.Loading? || (point.Returned? && !point.result.success)
  {
  }

  /** No operation belongs to a task that is only now queued. */
  lemma NewTaskIsUnused(s: S.State)
    requires P.Inv(s)
    ensures !CompletedByClose(s, |s.ses.tasks|)
  {
    forall k | 0 <= k < |s.t.operations| ensures s.t.operations[k].task < |s.ses.tasks| {
      QueuedOwnsNothing(s, k);
    }
  }

  lemma NewLink(c: State, c': State)
    requires P.Inv(c.s) && |c.links| == |c.l.loads| && |c'.l.loads| == |c.l.loads| + 1 == |c'.links|
    requires Still(c.s, c'.s)
    requires var n := |c.l.loads|;
      var point := c'.l.loads[n].point;
      || (&& point.Loading? && c'.links[n] == Link(Some(|c.s.ses.tasks|), [], 0)
          && TaskOf(c'.s, Some(|c.s.ses.tasks|), true) && c'.s.ses.tasks[|c.s.ses.tasks|].phase.Queued?)
      || (point.Returned? && !point.result.success && c'.links[n] == Link(None, [], 0))
    ensures Linked(c', |c.l.loads|) && ClosedLoad(c', |c.l.loads|)
  {
    NewTaskIsUnused(c.s);
    hide P.Inv;
    assert CompletedByClose(c'.s, |c.s.ses.tasks|) == CompletedByClose(c.s, |c.s.ses.tasks|);
  }

  // ── Runs ──────────────────────────────────────────────────────────────

  lemma OtherSyncedKeeps(c: State, rs: seq<Response>)
    requires Inv(c)
    ensures Inv(c.(l := L.Next(c.l, L.OtherCommandSynced(rs))))
  {
    hide Inv, P.Inv, CloseInv, L.Inv, L.Next, Linked, ClosedLoad;
    InvParts(c);
    var c' := c.(l := L.Next(c.l, L.OtherCommandSynced(rs)));
    L.NextKeeps(c.l, L.OtherCommandSynced(rs));
    SyncShape(c.l, rs);
    forall j | 0 <= j < |c'.l.loads| ensures Linked(c', j) && ClosedLoad(c', j) {
      OthersKeep(c, c', |c.l.loads|, j);
    }
    InvFrom(c');
  }

  lemma SyncShape(l: L.Sessions, rs: seq<Response>)
    ensures var l' := L.Next(l, L.OtherCommandSynced(rs));
      l'.loads == l.loads && l'.fields.currentFile == l.fields.currentFile
  {
  }

  lemma NextKeeps(c: State, e: Event, json: Json)
    requires Inv(c)
    ensures Inv(Next(c, e, json))
  {
    match e {
      case OfSession(se) => SessionStepKeeps(c, se, json);
      case BeginLoad(_, _, _, _, _) => BeginLoadKeeps(c, e, json);
      case LoadContinues(i, mtime, holes, timeoutMs) => LoadContinuesKeeps(c, i, mtime, holes, timeoutMs, json);
      case MetasContinues(i) => MetasContinuesKeeps(c, i, json);
      case ReconcileContinues(i) => ReconcileContinuesKeeps(c, i, json);
      case LoadReturns(i, holes, timeoutMs) => LoadReturnsKeeps(c, i, holes, timeoutMs, json);
      case OtherCommandSynced(rs) => OtherSyncedKeeps(c, rs);
    }
    hide Inv, L.Next, S.Next, SessionStep, AfterSegment;
  }

  lemma InitialKeeps()
    ensures Inv(INITIAL)
  {
    var none: Json := _ => None;
    P.RunKeeps([], none);
    assert S.Run([], none) == S.INITIAL;
    L.EmptyWell();
    hide P.Inv, L.Inv;
  }

  lemma {:induction false} RunKeeps(events: seq<Event>, json: Json)
    ensures Inv(Run(events, json))
  {
    hide Inv, Next;
    if events == [] {
      InitialKeeps();
    } else {
      RunKeeps(events[..|events| - 1], json);
      NextKeeps(Run(events[..|events| - 1], json), events[|events| - 1], json);
    }
  }

  // ── What a successful load has behind it ──────────────────────────────

  predicate BothGoalEvents(rs: seq<Response>) {
    (exists r :: r in rs && r.InteractionPoints?) && (exists r :: r in rs && IsAllGoals(r))
  }

  predicate NoComplaint(rs: seq<Response>) {
    forall r :: r in rs ==> !IsErrorInfo(r) && !NonBlankStderr(r) && !ReportsErrors(r)
  }

  lemma CleanExactly(rs: seq<Response>)
    ensures Clean(rs) <==> ShowsTerminus(rs) && NoComplaint(rs)
  {
    SuccessMeansNoComplaint(rs);
    forall r | r in rs && IsFatal(r) ensures NonBlankStderr(r) {
      FatalIsNotBlank(r);
    }
    assert Parse(rs).sawLoadTerminus == ShowsTerminus(rs);
    hide Parse, ShowsTerminus;
    assert NoComplaint(rs) ==> !L.IsFatalReply(rs);
  }

  /** A load goes on with the answer of the very call it awaits, its command's or its last
      query's: with the responses delivered to that call, or as rejected. */
  lemma LoadsGetTheirAnswers(c: State, i: nat, t: nat, mtime: Option<int>, holes: nat, timeoutMs: nat, json: Json)
    requires i < |c.l.loads| && i < |c.links|
    requires t < |c.s.ses.tasks| && c.s.ses.tasks[t].phase.Settled?
    ensures var l' := Next(c, LoadContinues(i, mtime, holes, timeoutMs), json).l;
      c.l.loads[i].point.Loading? && c.links[i].task == Some(t) ==>
        l' == L.Next(c.l, match c.s.ses.tasks[t].phase.verdict
                          case Delivered(rs) => L.LoadAnswered(i, rs, mtime, holes)
                          case Failed(_) => L.LoadRejected(i))
    ensures var l' := Next(c, MetasContinues(i), json).l;
      var qs := c.links[i].queries;
      c.l.loads[i].point.AwaitingMetas? && qs != [] && qs[|qs| - 1].task == Some(t) ==>
        l' == L.Next(c.l, match c.s.ses.tasks[t].phase.verdict
                          case Delivered(rs) => L.MetasAnswered(i, rs)
                          case Failed(_) => L.MetasRejected(i))
  {
    hide Next;
    if c.l.loads[i].point.Loading? && c.links[i].task == Some(t) {
      CommandIsAnswered(c, i, t, mtime, holes, timeoutMs, json);
    }
    if c.links[i].queries != [] { QueryIsAnswered(c, i, t, json); }
  }

  lemma CommandIsAnswered(c: State, i: nat, t: nat, mtime: Option<int>, holes: nat, timeoutMs: nat, json: Json)
    requires i < |c.l.loads| && i < |c.links| && c.links[i].task == Some(t) && c.l.loads[i].point.Loading?
    requires t < |c.s.ses.tasks| && c.s.ses.tasks[t].phase.Settled?
    ensures Next(c, LoadContinues(i, mtime, holes, timeoutMs), json).l ==
      L.Next(c.l, match c.s.ses.tasks[t].phase.verdict
                  case Delivered(rs) => L.LoadAnswered(i, rs, mtime, holes)
                  case Failed(_) => L.LoadRejected(i))
  {
    hide L.Next, S.Next;
    LoadsStayThere(c.l, LoadEvent(i, c.s.ses.tasks[t].phase.verdict, mtime, holes));
  }

  lemma QueryIsAnswered(c: State, i: nat, t: nat, json: Json)
    requires i < |c.l.loads| && i < |c.links| && c.links[i].queries != []
    requires t < |c.s.ses.tasks| && c.s.ses.tasks[t].phase.Settled?
    ensures var qs := c.links[i].queries;
      c.l.loads[i].point.AwaitingMetas? && qs[|qs| - 1].task == Some(t) ==>
      Next(c, MetasContinues(i), json).l ==
        L.Next(c.l, match c.s.ses.tasks[t].phase.verdict
                    case Delivered(rs) => L.MetasAnswered(i, rs)
                    case Failed(_) => L.MetasRejected(i))
  {
    hide L.Next, S.Next;
  }

  lemma LoadsStayThere(l: L.Sessions, e: L.Event)
    ensures |l.loads| <= |L.Next(l, e).loads|
  {
    T.LoadsStep(l, e);
  }

  /** Load `i` sent its command and has returned. */
  predicate Ended(c: State, i: nat) {
    && i < |c.l.loads| && i < |c.links| && c.links[i].task.Some? && c.l.loads[i].point.Returned?
  }

  /** A load is successful exactly if nothing in what it got speaks against it, some
      goal-state event is there, and, for a strict load, nothing is left to be done, for a
      plain one, every reconciliation found its path current. If a close completed its
      command, a path that it had set itself is found only with a metas query that was
      rejected before it looked for a process. */
  lemma SuccessExactly(events: seq<Event>, json: Json, i: nat)
    requires Ended(Run(events, json), i)
    ensures var c := Run(events, json);
      var rs := c.l.loads[i].point.responses;
      c.l.loads[i].point.result.success <==>
      && ShowsTerminus(rs) && NoComplaint(rs)
      && if c.l.loads[i].strict then NothingLeft(rs, c.links[i].holes) else AllFound(c.l, i, c.links[i].queries)
    ensures var c := Run(events, json);
      Truncated(c, i) ==> forall q :: q in c.links[i].queries && q.seen == Some(Some(i)) ==> Refused(c, i, q)
  {
    hide Run;
    RunKeeps(events, json);
    var c := Run(events, json);
    InvParts(c);
    CleanExactly(c.l.loads[i].point.responses);
    hide Inv, P.Inv, CloseInv, L.Inv, Clean, ShowsTerminus, NoComplaint, NothingLeft;
    assert Linked(c, i) && ClosedLoad(c, i);
  }

  /** A result that no close completed holds its terminus. */
  lemma OthersHaveTheirTerminus(s: S.State, t: nat, rs: seq<Response>)
    requires P.Inv(s) && TaskOf(s, Some(t), true) && !CompletedByClose(s, t)
    requires s.ses.tasks[t].phase == S.Settled(S.Delivered(rs))
    ensures TerminusSeen(rs)
  {
    assert P.Holds(s.t, t, s.ses.tasks[t]);
    var k :| 0 <= k < |s.t.operations| && P.Answers(s.t.operations[k], t, s.ses.tasks[t].request, rs);
    assert TP.SettledWell(s.t, s.t.operations[k]);
  }

  /** A successful load whose command was not cut short by a close saw both goal events,
      strict loads included. */
  lemma IdleSuccessSawBothGoalEvents(events: seq<Event>, json: Json, i: nat)
    requires Ended(Run(events, json), i) && !Truncated(Run(events, json), i)
    requires Run(events, json).l.loads[i].point.result.success
    ensures BothGoalEvents(Run(events, json).l.loads[i].point.responses)
    ensures NoComplaint(Run(events, json).l.loads[i].point.responses)
  {
    hide Run;
    RunKeeps(events, json);
    var c := Run(events, json);
    var rs := c.l.loads[i].point.responses;
    InvParts(c);
    ReturnedIsClean(c, i);
    hide Inv, CloseInv, L.Inv, Parse;
    assert Linked(c, i) && Delivered(c, i, rs);
    OthersHaveTheirTerminus(c.s, c.links[i].task.value, rs);
    SuccessAfterTerminus(rs);
    SuccessMeansNoComplaint(rs);
  }

  lemma ReturnedIsClean(c: State, i: nat)
    requires L.Inv(c.l) && Ended(c, i) && c.l.loads[i].point.result.success
    ensures Parse(c.l.loads[i].point.responses).success
  {
    assert L.WellPlaced(c.l.fields, c.l.loads[i]);
  }

  /** A reconciliation by which a load without its goal state can pass: its query was
      rejected at entry and its own file kept, or another load of the same path had set the
      file. The first is not known to be reachable in the source: something would have to
      issue a control command, or destroy the session, between two microtasks of one drain. */
  ghost predicate Deceived(c: State, i: nat, q: Query)
    requires i < |c.l.loads|
  {
    || (q.seen == Some(Some(i)) && Refused(c, i, q))
    || (q.seen.Some? && q.seen.value.Some? && q.seen.value != Some(i) && Found(c.l, i, q))
  }

  /** So a load is reported successful without both goal events exactly if its process
      closed, one of the parser's goal-state events came through without a complaint, and,
      for a strict load, nothing is left to be done as far as it saw, for a plain one, each
      of its reconciliations was deceived. A strict load reconciles nothing: the close alone
      is enough. */
  lemma FalseSuccessExactly(events: seq<Event>, json: Json, i: nat)
    requires Ended(Run(events, json), i)
    ensures var c := Run(events, json);
      var rs := c.l.loads[i].point.responses;
      c.l.loads[i].point.result.success && !BothGoalEvents(rs) <==>
      && Truncated(c, i) && !BothGoalEvents(rs) && ShowsTerminus(rs) && NoComplaint(rs)
      && if c.l.loads[i].strict then NothingLeft(rs, c.links[i].holes)
         else forall q :: q in c.links[i].queries ==> Deceived(c, i, q)
  {
    hide Run, Parse, ShowsTerminus, NoComplaint, BothGoalEvents, Truncated, Refused, NothingLeft;
    var c := Run(events, json);
    var qs := c.links[i].queries;
    SuccessExactly(events, json, i);
    if Truncated(c, i) {
      forall k | 0 <= k < |qs| ensures qs[k] in qs {
      }
    } else if c.l.loads[i].point.result.success {
      IdleSuccessSawBothGoalEvents(events, json, i);
    }
  }
}
