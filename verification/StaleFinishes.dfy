// Trailing finishes that outlive their command.

module StaleFinishes {
  import opened Basics
  import opened Wire
  import opened TransportModel
  import opened TransportProofs
  import opened SessionModel
  import opened SessionProofs
  import opened SessionTheorems

  // ── What stops the collection ─────────────────────────────────────────

  /** A process whose spawn-time listeners are in place closes. */
  predicate Closes(s: State, e: Event) {
    && e.ProcClosed? && e.proc < |s.os.procs| && s.os.procs[e.proc].exited && !s.os.procs[e.proc].closed
    && s.os.procs[e.proc].attached
  }

  /** A trailing finish runs, or an attached process closes. */
  predicate Disturbs(s: State, e: Event) {
    || (e.FinishTimer? && e.op < |s.t.operations| && Pended(s.t.operations[e.op], e.origin) > 0)
    || Closes(s, e)
  }

  ghost predicate Disturbed(s: State, events: seq<Event>, json: Json)
    decreases |events|
  {
    events != [] && (Disturbs(s, events[0]) || Disturbed(Next(s, events[0], json), events[1..], json))
  }

  lemma HearingStep(s: State, e: Event, json: Json, k: nat)
    requires Inv(s) && Listening(s.t, k) && Listening(Next(s, e, json).t, k)
    ensures Next(s, e, json).t.collecting <==> s.t.collecting && !Disturbs(s, e)
  {
    hide Inv;
    if e.Stdout? || e.Stderr? || e.ProcFailed? || e.ProcClosed? {
      HearingProcess(s, e, json, k);
    } else if e.IssueControl? || e.Proceed? || e.Destroy? {
      HearingTask(s, e, json, k);
    } else {
      HearingTimer(s, e, json, k);
    }
  }

  lemma HearingTimer(s: State, e: Event, json: Json, k: nat)
    requires Listening(s.t, k) && Listening(Next(s, e, json).t, k)
    requires Inv(s)
    requires !(e.Stdout? || e.Stderr? || e.ProcFailed? || e.ProcClosed? || e.IssueControl? || e.Proceed? || e.Destroy?)
    ensures Next(s, e, json).t.collecting <==> s.t.collecting && !Disturbs(s, e)
  {
    hide Inv, Terminate, HandleStdout, HandleStderr, EmitError, ProceedTask, DestroySession, CloseProc;
    OneListens(s);
  }

  lemma OneListens(s: State)
    requires Inv(s)
    ensures OnlyLastPending(s.t)
  {
  }

  lemma HearingProcess(s: State, e: Event, json: Json, k: nat)
    requires Inv(s) && Listening(s.t, k) && Listening(Next(s, e, json).t, k)
    requires e.Stdout? || e.Stderr? || e.ProcFailed? || e.ProcClosed?
    ensures Next(s, e, json).t.collecting <==> s.t.collecting && !Disturbs(s, e)
  {
    hide Inv, HandleStdout, HandleStderr, EmitError;
    match e {
      case Stdout(p, chunk) => StdoutKeeps(s, chunk, json);
      case Stderr(p, text) => StderrKeeps(s, text);
      case ProcFailed(p) => InterruptKeeps(s, ProcessError);
      case ProcClosed(p) =>
    }
  }

  lemma HearingTask(s: State, e: Event, json: Json, k: nat)
    requires Inv(s) && Listening(s.t, k) && Listening(Next(s, e, json).t, k)
    requires e.IssueControl? || e.Proceed? || e.Destroy?
    ensures Next(s, e, json).t.collecting <==> s.t.collecting && !Disturbs(s, e)
  {
    hide Inv, ProceedTask, EmitError, DestroyTransport, Terminate;
    match e {
      case Proceed(i, seen) => BusyProceed(s, i, seen, k);
      case IssueControl(kind) => InterruptKeeps(s, Interrupted);
      case Destroy => DestroyTransportRefines(s);
    }
  }

  /** While an operation is pending, running a task starts no other. */
  lemma BusyProceed(s: State, i: nat, seen: bool, k: nat)
    requires Inv(s) && Listening(s.t, k)
    ensures ProceedTask(s, i, seen).t == s.t
  {
    if Ready(s, i) && !s.ses.destroyed {
      ReadyIsAlone(s, i);
    }
  }

  /** From any point where operation `k` is heard and for as long as it stays pending, it
      goes deaf exactly if some trailing finish runs or an attached process closes. A
      finish of `k` itself would settle it, so that finish is one an earlier operation
      left behind: see `LeavesAFinishExactly` for when it does. */
  lemma {:induction false} DeafExactlyIfDisturbed(s: State, events: seq<Event>, json: Json, k: nat)
    requires Inv(s) && Listening(s.t, k) && Listening(RunFrom(s, events, json).t, k)
    ensures RunFrom(s, events, json).t.collecting <==> s.t.collecting && !Disturbed(s, events, json)
    decreases |events|
  {
    if events != [] {
      var s1 := Next(s, events[0], json);
      NextKeeps(s, events[0], json);
      OperationsEvolve(s, events[0], json);
      RunsEvolve(s1, events[1..], json);
      HearingStep(s, events[0], json, k);
      DeafExactlyIfDisturbed(s1, events[1..], json, k);
    }
  }

  // ── How many finishes are scheduled ───────────────────────────────────

  /** The listeners hear "done" at this step. */
  predicate Dones(s: State, e: Event, origin: Origin) {
    if origin.Idle? then e.IdleTimer? && s.t.idleTimer && s.t.collecting else Closes(s, e)
  }

  /** What one step does to the finishes scheduled for operation `j`. */
  function PendedAfter(s: State, e: Event, j: nat, origin: Origin): int
    requires j < |s.t.operations|
  {
    var op := s.t.operations[j];
    Pended(op, origin)
      + (if Dones(s, e, origin) && op.outcome.Pending? && !op.purpose.Flush? then 1 else 0)
      - (if e == FinishTimer(j, origin) && Pended(op, origin) > 0 then 1 else 0)
  }

  ghost predicate Counted(s: State, e: Event, t': Transport) {
    && |s.t.operations| <= |t'.operations|
    && (forall j, origin :: 0 <= j < |s.t.operations| ==>
        Pended(t'.operations[j], origin) == PendedAfter(s, e, j, origin))
    && (forall j, origin :: |s.t.operations| <= j < |t'.operations| ==> Pended(t'.operations[j], origin) == 0)
  }

  ghost predicate SameFinishes(t: Transport, t': Transport) {
    && |t.operations| <= |t'.operations|
    && (forall j, origin :: 0 <= j < |t.operations| ==>
        Pended(t'.operations[j], origin) == Pended(t.operations[j], origin))
    && (forall j, origin :: |t.operations| <= j < |t'.operations| ==> Pended(t'.operations[j], origin) == 0)
  }

  lemma RecordSchedulesNone(t: Transport, r: Response, now: nat)
    ensures SameFinishes(t, Record(t, r, now)) && |Record(t, r, now).operations| == |t.operations|
  {
  }

  lemma {:induction false} RecordAllSchedulesNone(t: Transport, rs: seq<Response>, now: nat)
    ensures SameFinishes(t, RecordAll(t, rs, now)) && |RecordAll(t, rs, now).operations| == |t.operations|
    decreases |rs|
  {
    hide Record;
    if rs != [] {
      RecordSchedulesNone(t, rs[0], now);
      RecordAllSchedulesNone(Record(t, rs[0], now), rs[1..], now);
    }
  }

  lemma {:induction false} RecordLinesScheduleNone(t: Transport, lines: seq<string>, json: Json, now: nat)
    ensures SameFinishes(t, RecordLines(t, lines, json, now))
    ensures |RecordLines(t, lines, json, now).operations| == |t.operations|
    decreases |lines|
  {
    if lines != [] {
      var rs := StdoutLines.DecodeLine(lines[0], json);
      RecordAllSchedulesNone(t, rs, now);
      RecordLinesScheduleNone(RecordAll(t, rs, now), lines[1..], json, now);
    }
  }

  lemma ErrorsScheduleNone(t: Transport, k: nat, why: Rejection)
    requires k <= |t.operations|
    ensures SameFinishes(t, EmitError(t, k, why))
    decreases |t.operations| - k
  {
    if k < |t.operations| {
      ErrorsScheduleNone(OnError(t, k, why), k + 1, why);
    }
  }

  /** Scheduled finishes grow by one for each "done" a pending regular command hears and
      shrink by one when one of them runs; nothing else touches them. */
  lemma FinishesStep(s: State, e: Event, json: Json)
    requires Inv(s)
    ensures Counted(s, e, Next(s, e, json).t)
  {
    hide Inv;
    if e.Stdout? || e.Stderr? || e.ProcFailed? || e.ProcClosed? {
      ProcessFinishes(s, e, json);
    } else if e.IssueControl? || e.Proceed? || e.Destroy? {
      TaskFinishes(s, e, json);
    } else {
      TimerFinishes(s, e, json);
    }
  }

  lemma ProcessFinishes(s: State, e: Event, json: Json)
    requires e.Stdout? || e.Stderr? || e.ProcFailed? || e.ProcClosed?
    ensures Counted(s, e, Next(s, e, json).t)
  {
    hide HandleStdout, HandleStderr, EmitError;
    match e {
      case Stdout(p, chunk) => StreamFinishes(s, e, json);
      case Stderr(p, text) => StreamFinishes(s, e, json);
      case ProcFailed(p) => ErrorsScheduleNone(s.t, 0, ProcessError);
      case ProcClosed(p) =>
    }
  }

  lemma StreamFinishes(s: State, e: Event, json: Json)
    requires e.Stdout? || e.Stderr?
    ensures SameFinishes(s.t, Next(s, e, json).t) && |Next(s, e, json).t.operations| == |s.t.operations|
  {
    hide RecordLines;
    if e.Stdout? {
      RecordLinesScheduleNone(s.t, StdoutLines.Lines(s.t.buffer + e.chunk), json, s.os.now);
    }
  }

  lemma TaskFinishes(s: State, e: Event, json: Json)
    requires Inv(s)
    requires e.IssueControl? || e.Proceed? || e.Destroy?
    ensures Counted(s, e, Next(s, e, json).t)
  {
    hide Inv, ProceedTask, EmitError, Terminate;
    match e {
      case Proceed(i, seen) => ProceedFinishes(s, i, seen);
      case IssueControl(kind) => ErrorsScheduleNone(s.t, 0, Interrupted);
      case Destroy =>
        ErrorsScheduleNone(s.t.(idleTimer := false, controlEscalation := None, buffer := "", responseQueue := [],
                                collecting := false, currentCommandKind := NoCommand,
                                awaitGoalTerminus := false, inactivityOf := None), 0, Destroyed);
    }
  }

  lemma StartUserFinishes(s: State, i: nat)
    requires i < |s.ses.tasks| && s.ses.tasks[i].request.UserCommand?
    ensures SameFinishes(s.t, StartUser(s, i).t)
  {
    EnsureProcessKeepsQueue(s);
    hide EnsureProcess, NeedsVersion;
  }

  lemma ResumeProbeFinishes(s: State, i: nat, seen: bool)
    requires i < |s.ses.tasks| && s.ses.tasks[i].request.UserCommand?
    requires s.ses.tasks[i].phase.Probing? && Ready(s, i)
    ensures SameFinishes(s.t, ResumeProbe(s, i, seen).t)
  {
  }

  lemma ResumeCommandFinishes(s: State, i: nat, seen: bool)
    requires i < |s.ses.tasks| && s.ses.tasks[i].request.UserCommand?
    requires s.ses.tasks[i].phase.Commanding? && Ready(s, i)
    ensures SameFinishes(s.t, ResumeCommand(s, i, seen).t)
  {
  }

  lemma StartControlFinishes(s: State, i: nat)
    requires i < |s.ses.tasks| && s.ses.tasks[i].request.ControlCommand?
    ensures SameFinishes(s.t, StartControl(s, i).t)
  {
    EnsureProcessKeepsQueue(s);
    ErrorsScheduleNone(s.t, 0, Interrupted);
    hide EnsureProcess, EmitError;
  }

  lemma ProceedFinishes(s: State, i: nat, seen: bool)
    ensures SameFinishes(s.t, ProceedTask(s, i, seen).t)
  {
    hide StartUser, ResumeProbe, ResumeCommand, StartControl;
    if Ready(s, i) {
      if s.ses.tasks[i].request.UserCommand? {
        match s.ses.tasks[i].phase {
          case Queued => StartUserFinishes(s, i);
          case Probing(_, _, _) => ResumeProbeFinishes(s, i, seen);
          case Commanding(_) => ResumeCommandFinishes(s, i, seen);
          case _ =>
        }
      } else if s.ses.tasks[i].phase.Queued? {
        StartControlFinishes(s, i);
      }
    }
  }

  lemma TimerFinishes(s: State, e: Event, json: Json)
    requires !(e.Stdout? || e.Stderr? || e.ProcFailed? || e.ProcClosed? || e.IssueControl? || e.Proceed? || e.Destroy?)
    ensures Counted(s, e, Next(s, e, json).t)
  {
    hide IdleTimerFires, FinishTimerFires;
    if e.IdleTimer? {
      IdleFinishes(s);
    } else if e.FinishTimer? && e.op < |s.t.operations| && Pended(s.t.operations[e.op], e.origin) > 0 {
      FinishFinishes(s, e.op, e.origin);
    } else {
      OtherFinishes(s, e, json);
    }
  }

  lemma IdleFinishes(s: State)
    ensures Counted(s, IdleTimer, if s.t.idleTimer then IdleTimerFires(s.t) else s.t)
  {
  }

  lemma FinishFinishes(s: State, k: nat, origin: Origin)
    requires k < |s.t.operations| && Pended(s.t.operations[k], origin) > 0
    ensures Counted(s, FinishTimer(k, origin), FinishTimerFires(s.t, k, origin))
  {
  }

  lemma OtherFinishes(s: State, e: Event, json: Json)
    requires !(e.Stdout? || e.Stderr? || e.ProcFailed? || e.ProcClosed? || e.IssueControl? || e.Proceed? || e.Destroy?)
    requires !e.IdleTimer?
    requires e.FinishTimer? ==> !(e.op < |s.t.operations| && Pended(s.t.operations[e.op], e.origin) > 0)
    ensures Counted(s, e, Next(s, e, json).t)
  {
    hide Terminate, IdleTimerFires, FinishTimerFires;
  }

  // ── Which commands can go deaf ────────────────────────────────────────

  /** A finish of some other operation than `k` is scheduled. */
  ghost predicate Stale(t: Transport, k: nat) {
    exists j, origin :: 0 <= j < |t.operations| && j != k && Pended(t.operations[j], origin) > 0
  }

  ghost predicate Closed(s: State, events: seq<Event>, json: Json)
    decreases |events|
  {
    events != [] && (Closes(s, events[0]) || Closed(Next(s, events[0], json), events[1..], json))
  }

  /** However the run goes on, `k` is heard for as long as it is pending and no process
      whose listeners are in place closes. */
  ghost predicate StaysHeard(s: State, k: nat, json: Json) {
    forall events: seq<Event> ::
      Listening(RunFrom(s, events, json).t, k) && !Closed(s, events, json) ==> RunFrom(s, events, json).t.collecting
  }

  /** No finish of another operation can appear while `k` is pending: the others have
      settled, and settled operations hear no "done". */
  lemma StaleStays(s: State, e: Event, json: Json, k: nat)
    requires Inv(s) && Listening(s.t, k) && Listening(Next(s, e, json).t, k)
    requires !Stale(s.t, k)
    ensures !Stale(Next(s, e, json).t, k)
    ensures Disturbs(s, e) ==> Closes(s, e)
  {
    var t' := Next(s, e, json).t;
    FinishesStep(s, e, json);
    assert OnlyLastPending(s.t) && Listening(s.t, k);
    NextKeeps(s, e, json);
    assert OnlyLastPending(t');
    assert !Disturbs(s, e) || Closes(s, e) by {
      if e.FinishTimer? && e.op < |s.t.operations| && Pended(s.t.operations[e.op], e.origin) > 0 {
        assert e.op == k;
        assert false by { FinishSettles(s, e, json); }
      }
    }
    hide Inv, Next, Disturbs, Closes;
    forall j, origin | 0 <= j < |t'.operations| && j != k
      ensures Pended(t'.operations[j], origin) == 0
    {
      if j < |s.t.operations| {
        assert !Listening(s.t, j);
        assert Pended(t'.operations[j], origin) == PendedAfter(s, e, j, origin);
        assert Pended(s.t.operations[j], origin) == 0;
      }
    }
  }

  lemma FinishSettles(s: State, e: Event, json: Json)
    requires e.FinishTimer? && e.op < |s.t.operations| && Pended(s.t.operations[e.op], e.origin) > 0
    ensures !Listening(Next(s, e, json).t, e.op)
  {
  }

  lemma {:induction false} UnstaleIsHeard(s: State, events: seq<Event>, json: Json, k: nat)
    requires Inv(s) && Listening(s.t, k) && s.t.collecting && !Stale(s.t, k)
    requires Listening(RunFrom(s, events, json).t, k) && !Closed(s, events, json)
    ensures RunFrom(s, events, json).t.collecting
    decreases |events|
  {
    hide Inv, Next;
    if events != [] {
      var s1 := Next(s, events[0], json);
      NextKeeps(s, events[0], json);
      OperationsEvolve(s, events[0], json);
      RunsEvolve(s1, events[1..], json);
      HearingStep(s, events[0], json, k);
      StaleStays(s, events[0], json, k);
      UnstaleIsHeard(s1, events[1..], json, k);
    }
  }

  /** With closes allowed: a regular command that no stale finish threatens is heard, or a
      close has scheduled its own finish, which will deliver what it has. */
  lemma {:induction false} HeardOrFinishing(s: State, events: seq<Event>, json: Json, k: nat)
    requires Inv(s) && Listening(s.t, k) && IsRegular(s.t.operations[k]) && !Stale(s.t, k)
    requires s.t.collecting || s.t.operations[k].closeFinishes > 0
    requires Listening(RunFrom(s, events, json).t, k)
    ensures RunFrom(s, events, json).t.collecting || RunFrom(s, events, json).t.operations[k].closeFinishes > 0
    decreases |events|
  {
    hide Inv, Next, Closes, Disturbs;
    if events != [] {
      var s1 := Next(s, events[0], json);
      NextKeeps(s, events[0], json);
      OperationsEvolve(s, events[0], json);
      RunsEvolve(s1, events[1..], json);
      HearingStep(s, events[0], json, k);
      StaleStays(s, events[0], json, k);
      CloseFinishesStay(s, events[0], json, k);
      HeardOrFinishing(s1, events[1..], json, k);
    }
  }

  lemma CloseFinishesStay(s: State, e: Event, json: Json, k: nat)
    requires Inv(s) && Listening(s.t, k) && IsRegular(s.t.operations[k]) && Listening(Next(s, e, json).t, k)
    ensures Next(s, e, json).t.operations[k].closeFinishes >=
      s.t.operations[k].closeFinishes + (if Closes(s, e) then 1 else 0)
  {
    FinishesStep(s, e, json);
    if e == FinishTimer(k, ProcessClose) && Pended(s.t.operations[k], ProcessClose) > 0 {
      FinishSettles(s, e, json);
    }
    hide Inv, Next;
    assert Pended(Next(s, e, json).t.operations[k], ProcessClose) == PendedAfter(s, e, k, ProcessClose);
  }

  /** A scheduled finish of another operation deafens `k` as soon as it runs. */
  lemma StaleCanDeafen(s: State, json: Json, k: nat, j: nat, origin: Origin)
    requires Listening(s.t, k) && j < |s.t.operations| && j != k && Pended(s.t.operations[j], origin) > 0
    ensures var s' := RunFrom(s, [FinishTimer(j, origin)], json);
      Listening(s'.t, k) && !s'.t.collecting && !Closed(s, [FinishTimer(j, origin)], json)
  {
    var s1 := Next(s, FinishTimer(j, origin), json);
    assert [FinishTimer(j, origin)][1..] == [];
    assert RunFrom(s, [FinishTimer(j, origin)], json) == RunFrom(s1, [], json);
    assert !Closed(s1, [], json);
  }

  /** A pending command that is heard stays heard, whatever happens short of its process
      closing, exactly if no finish of an earlier operation is scheduled. */
  lemma HeardExactlyUnlessStale(s: State, json: Json, k: nat)
    requires Inv(s) && Listening(s.t, k) && s.t.collecting
    ensures StaysHeard(s, k, json) <==> !Stale(s.t, k)
  {
    hide Inv;
    if Stale(s.t, k) {
      var j, origin :| 0 <= j < |s.t.operations| && j != k && Pended(s.t.operations[j], origin) > 0;
      StaleCanDeafen(s, json, k, j, origin);
    } else {
      forall events: seq<Event> | Listening(RunFrom(s, events, json).t, k) && !Closed(s, events, json)
        ensures RunFrom(s, events, json).t.collecting
      {
        UnstaleIsHeard(s, events, json, k);
      }
    }
  }

  /** The condition can be read off before the command starts: the step that starts an
      operation starts one that stays heard exactly if no finish at all is scheduled. */
  lemma StartsHeardExactly(events: seq<Event>, e: Event, json: Json)
    requires |Next(Run(events, json), e, json).t.operations| > |Run(events, json).t.operations|
    ensures var s := Run(events, json);
      var k := |s.t.operations|;
      && Listening(Next(s, e, json).t, k) && Next(s, e, json).t.collecting
      && (StaysHeard(Next(s, e, json), k, json) <==>
          forall j, origin :: 0 <= j < k ==> Pended(s.t.operations[j], origin) == 0)
  {
    hide Inv, Next, Run;
    var s := Run(events, json);
    var s1, k := Next(s, e, json), |s.t.operations|;
    RunKeeps(events, json);
    NextKeeps(s, e, json);
    NewOperation(s, e, json);
    FinishesStep(s, e, json);
    HeardExactlyUnlessStale(s1, json, k);
    StartSchedulesNone(s, e, json);
    assert forall j, origin :: 0 <= j < k ==> Pended(s1.t.operations[j], origin) == Pended(s.t.operations[j], origin);
  }

  lemma StartSchedulesNone(s: State, e: Event, json: Json)
    requires e.Proceed?
    ensures SameFinishes(s.t, Next(s, e, json).t)
  {
    ProceedFinishes(s, e.task, e.versionSeen);
  }

  // ── Which commands leave a finish behind ──────────────────────────────

  function Scheduled(op: Operation): nat {
    op.idleFinishes + op.closeFinishes
  }

  /** How often the listeners heard "done" in a run. */
  function DoneCount(s: State, events: seq<Event>, json: Json): nat
    decreases |events|
  {
    if events == [] then 0
    else
      (if Dones(s, events[0], Idle) || Dones(s, events[0], ProcessClose) then 1 else 0)
      + DoneCount(Next(s, events[0], json), events[1..], json)
  }

  /** While a regular command is pending, its scheduled finishes are the "done" events so
      far: none is used up, since the first one to run settles it. */
  lemma {:induction false} FinishesAreDones(s: State, events: seq<Event>, json: Json, k: nat)
    requires Inv(s) && Listening(s.t, k) && IsRegular(s.t.operations[k])
    requires Listening(RunFrom(s, events, json).t, k)
    ensures Scheduled(RunFrom(s, events, json).t.operations[k]) == Scheduled(s.t.operations[k]) + DoneCount(s, events, json)
    decreases |events|
  {
    hide Inv, Next;
    if events != [] {
      var s1 := Next(s, events[0], json);
      NextKeeps(s, events[0], json);
      OperationsEvolve(s, events[0], json);
      RunsEvolve(s1, events[1..], json);
      ScheduledStep(s, events[0], json, k);
      FinishesAreDones(s1, events[1..], json, k);
    }
  }

  lemma ScheduledStep(s: State, e: Event, json: Json, k: nat)
    requires Inv(s) && Listening(s.t, k) && IsRegular(s.t.operations[k]) && k < |Next(s, e, json).t.operations|
    ensures Scheduled(Next(s, e, json).t.operations[k]) ==
      Scheduled(s.t.operations[k])
      + (if Dones(s, e, Idle) || Dones(s, e, ProcessClose) then 1 else 0)
      - (if e.FinishTimer? && e.op == k && Pended(s.t.operations[k], e.origin) > 0 then 1 else 0)
    ensures e.FinishTimer? && e.op == k && Pended(s.t.operations[k], e.origin) > 0 ==>
      !Listening(Next(s, e, json).t, k)
  {
    FinishesStep(s, e, json);
    hide Inv;
    var op, op' := s.t.operations[k], Next(s, e, json).t.operations[k];
    assert Pended(op', Idle) == PendedAfter(s, e, k, Idle);
    assert Pended(op', ProcessClose) == PendedAfter(s, e, k, ProcessClose);
    if e.FinishTimer? && e.op == k && Pended(op, e.origin) > 0 {
      FinishSettles(s, e, json);
    }
  }

  /** A command that was started by an event and is settled by a later one leaves a finish
      behind exactly if a second "done" was heard before its own finish ran, or if
      something other than its finish settled it after a "done". */
  lemma LeavesAFinishExactly(s: State, events: seq<Event>, e: Event, json: Json, k: nat)
    requires Inv(s) && Listening(s.t, k) && IsRegular(s.t.operations[k]) && Scheduled(s.t.operations[k]) == 0
    requires Listening(RunFrom(s, events, json).t, k)
    requires !Listening(Next(RunFrom(s, events, json), e, json).t, k)
    ensures var s1 := RunFrom(s, events, json);
      k < |Next(s1, e, json).t.operations| &&
      (Scheduled(Next(s1, e, json).t.operations[k]) > 0 <==>
         DoneCount(s, events, json) >= (if e.FinishTimer? && e.op == k then 2 else 1))
  {
    hide Inv, Next;
    var s1 := RunFrom(s, events, json);
    FinishesAreDones(s, events, json, k);
    RunFromKeeps(s, events, json);
    RunsEvolve(s, events, json);
    OperationsEvolve(s1, e, json);
    ScheduledStep(s1, e, json, k);
    SettlingStep(s1, e, json, k);
  }

  /** The step that settles an operation is no "done", and a finish timer of `k` that
      settles it is one that was scheduled. */
  lemma SettlingStep(s: State, e: Event, json: Json, k: nat)
    requires Inv(s) && Listening(s.t, k) && !Listening(Next(s, e, json).t, k)
    ensures !Dones(s, e, Idle) && !Dones(s, e, ProcessClose)
    ensures e.FinishTimer? && e.op == k ==> Pended(s.t.operations[k], e.origin) > 0
  {
    hide Inv;
  }

  /** Once settled, its finishes are used up one by one by their own timers. */
  lemma SettledFinishesRunDown(s: State, e: Event, json: Json, k: nat)
    requires Inv(s) && k < |s.t.operations| && !Listening(s.t, k)
    ensures k < |Next(s, e, json).t.operations|
    ensures Scheduled(Next(s, e, json).t.operations[k]) ==
      Scheduled(s.t.operations[k])
      - (if e.FinishTimer? && e.op == k && Pended(s.t.operations[k], e.origin) > 0 then 1 else 0)
  {
    FinishesStep(s, e, json);
    hide Inv, Next;
    var op, op' := s.t.operations[k], Next(s, e, json).t.operations[k];
    assert Pended(op', Idle) == PendedAfter(s, e, k, Idle);
    assert Pended(op', ProcessClose) == PendedAfter(s, e, k, ProcessClose);
  }

  // ── Two runs ──────────────────────────────────────────────────────────

  // Both origins schedule their finish with a delay of zero, whatever has been received.
  // So a finish can only meet a later command if that command starts in the microtasks
  // that run before the timer; in both runs nothing but task bodies does.

  const QUIET: nat := 100

  /** Two commands on two processes. The first answers, goes idle and closes before its
      finish runs, so a second one is scheduled, which runs during the second command. */
  const STALE_RUN: seq<Event> := [
    Enqueue(false, true, QUIET), Enqueue(false, true, QUIET), Proceed(0, false), Proceed(0, false),
    Stderr(0, "x"), IdleTimer, ProcExited(0), ProcClosed(0), FinishTimer(0, Idle),
    Proceed(0, false), Proceed(1, false), Proceed(1, false), FinishTimer(0, ProcessClose)]

  /** One process, which stays alive. A control command rejects the first command when its
      only finish is already scheduled; that finish runs during the flush. */
  const ABORT_RUN: seq<Event> := STALE_RUN[..6] + [
    IssueControl(Abort), Proceed(0, false), Proceed(1, false), Proceed(2, false), FinishTimer(0, Idle)]

  predicate OnlyTasks(events: seq<Event>) {
    forall i :: 0 <= i < |events| ==> events[i].Proceed?
  }

  function AskVersion(serial: nat): Request {
    UserCommand(serial, false, true, QUIET)
  }

  function Sent(task: nat, proc: nat, since: nat, deadline: nat): Operation {
    Operation(task, User, proc, false, QUIET, 0, since, deadline, 0, 0, Pending)
  }

  const NOTICE: Response := StderrOutput("x")
  const WAITING: Task := Task(AskVersion(2), Some(0), Queued)

  /** After the first command is written; the second call is queued. */
  const WRITTEN: State := State(
    IDLE_TRANSPORT.(collecting := true, currentCommandKind := Regular, inactivityOf := Some(0),
                    operations := [Sent(0, 0, 0, QUIET)]),
    Os([NEW_PROC], [], 0),
    INITIAL.ses.(proc := Some(0), commandSerial := 2, queueTail := Some(1),
                 tasks := [Task(AskVersion(1), None, Commanding(0)), WAITING]))

  /** After it went idle: its finish is scheduled. */
  const FINISHING: State := WRITTEN.(
    t := WRITTEN.t.(responseQueue := [NOTICE], accepted := [NOTICE], acceptedAt := [0], parsed := [NOTICE],
                    operations := [Sent(0, 0, 0, QUIET).(idleFinishes := 1)]))

  /** After its process closed as well: two finishes are scheduled. */
  const CLOSED: State := State(
    FINISHING.t.(collecting := false,
                 operations := [Sent(0, 0, 0, QUIET).(idleFinishes := 1, closeFinishes := 1)]),
    Os([NEW_PROC.(exited := true, closed := true)], [], 0),
    FINISHING.ses.(proc := None))

  /** After the first finish delivered it; the second finish is still scheduled. */
  const DELIVERED: State := State(
    CLOSED.t.(inactivityOf := None,
              operations := [Sent(0, 0, 0, QUIET).(closeFinishes := 1, outcome := Resolved([NOTICE], ByIdle, 1))]),
    CLOSED.os,
    CLOSED.ses.(versionAttempts := 1,
                tasks := [Task(AskVersion(1), None, Settled(Delivered([NOTICE]))), WAITING]))

  /** After the second command is written to a fresh process. */
  const SECOND: State := State(
    DELIVERED.t.(buffer := "", responseQueue := [], collecting := true, inactivityOf := Some(1),
                 operations := [DELIVERED.t.operations[0], Sent(1, 1, 1, QUIET)]),
    Os([NEW_PROC.(exited := true, closed := true), NEW_PROC], [], 0),
    DELIVERED.ses.(proc := Some(1), versionAttempts := 0,
                   tasks := [DELIVERED.ses.tasks[0], Task(AskVersion(2), Some(0), Commanding(1))]))

  const DEAF: State := SECOND.(
    t := SECOND.t.(collecting := false, inactivityOf := None,
                   operations := [DELIVERED.t.operations[0].(closeFinishes := 0), Sent(1, 1, 1, QUIET)]))

  lemma {:induction false} RunOn(s: State, events: seq<Event>, e: Event, json: Json)
    ensures RunFrom(s, events + [e], json) == Next(RunFrom(s, events, json), e, json)
    decreases |events|
  {
    if events == [] {
      assert ([] + [e])[1..] == [];
      assert [] + [e] == [e];
    } else {
      RunOn(Next(s, events[0], json), events[1..], e, json);
      assert (events + [e])[1..] == events[1..] + [e];
    }
  }

  lemma StaleStep(i: nat, json: Json)
    requires i < |STALE_RUN|
    ensures Run(STALE_RUN[..i + 1], json) == Next(Run(STALE_RUN[..i], json), STALE_RUN[i], json)
  {
    RunOn(INITIAL, STALE_RUN[..i], STALE_RUN[i], json);
    assert STALE_RUN[..i + 1] == STALE_RUN[..i] + [STALE_RUN[i]];
  }

  /** After both calls are queued. */
  const QUEUED: State := INITIAL.(
    ses := INITIAL.ses.(commandSerial := 2, queueTail := Some(1),
                        tasks := [Task(AskVersion(1), None, Queued), WAITING]))

  lemma BothAreQueued(json: Json)
    ensures Run(STALE_RUN[..2], json) == QUEUED
  {
    assert STALE_RUN[..0] == [];
    StaleStep(0, json);
    StaleStep(1, json);
    assert Next(Next(INITIAL, STALE_RUN[0], json), STALE_RUN[1], json).ses.tasks == QUEUED.ses.tasks;
  }

  lemma FirstIsWritten(json: Json)
    ensures Run(STALE_RUN[..4], json) == WRITTEN
  {
    BothAreQueued(json);
    StaleStep(2, json);
    StaleStep(3, json);
    var s3 := Next(QUEUED, STALE_RUN[2], json);
    assert s3.ses.tasks == [Task(AskVersion(1), None, Probing(None, 0, None)), WAITING];
    assert s3.os.procs == [NEW_PROC];
    var s4 := Next(s3, STALE_RUN[3], json);
    assert s4.ses.tasks == WRITTEN.ses.tasks && s4.t.operations == WRITTEN.t.operations;
    assert s4 == WRITTEN;
  }

  lemma FirstGoesIdle(json: Json)
    ensures Run(STALE_RUN[..6], json) == FINISHING
  {
    FirstIsWritten(json);
    StaleStep(4, json);
    StaleStep(5, json);
    var s5 := Next(WRITTEN, STALE_RUN[4], json);
    assert s5.t.operations == [Sent(0, 0, 0, QUIET)] && s5.t.responseQueue == [NOTICE];
    assert s5.t.idleTimer && s5.t.collecting;
    assert s5.t.acceptedAt == [0] && s5.t.parsed == [NOTICE] && s5.t.accepted == [NOTICE];
    var s6 := Next(s5, STALE_RUN[5], json);
    assert s6.t.operations == FINISHING.t.operations;
    assert s6 == FINISHING;
  }

  lemma FirstCloses(json: Json)
    ensures Run(STALE_RUN[..8], json) == CLOSED
  {
    FirstGoesIdle(json);
    StaleStep(6, json);
    StaleStep(7, json);
    var s8 := Next(Next(FINISHING, STALE_RUN[6], json), STALE_RUN[7], json);
    assert s8.t.operations == CLOSED.t.operations && s8.os.procs == CLOSED.os.procs;
    assert s8 == CLOSED;
  }

  lemma FirstDelivers(json: Json)
    ensures Run(STALE_RUN[..10], json) == DELIVERED
  {
    FirstCloses(json);
    StaleStep(8, json);
    StaleStep(9, json);
    var s9 := Next(CLOSED, STALE_RUN[8], json);
    assert s9.t.operations == DELIVERED.t.operations;
    var s10 := Next(s9, STALE_RUN[9], json);
    assert s10.ses.tasks == DELIVERED.ses.tasks;
    assert s10 == DELIVERED;
  }

  lemma SecondIsWritten(json: Json)
    ensures Run(STALE_RUN[..12], json) == SECOND
  {
    FirstDelivers(json);
    StaleStep(10, json);
    StaleStep(11, json);
    var s11 := Next(DELIVERED, STALE_RUN[10], json);
    assert s11.os.procs == SECOND.os.procs;
    assert s11.ses.tasks[1].phase == Probing(None, 1, None);
    var s12 := Next(s11, STALE_RUN[11], json);
    assert s12.t.operations == SECOND.t.operations && s12.ses.tasks == SECOND.ses.tasks;
    assert s12 == SECOND;
  }

  lemma LastFinish(json: Json)
    ensures Next(SECOND, STALE_RUN[12], json) == DEAF
  {
    assert Next(SECOND, STALE_RUN[12], json).t.operations == DEAF.t.operations;
  }

  lemma DeafIsKilled(json: Json)
    ensures forall text :: Next(DEAF, Stdout(1, text), json) == DEAF && Next(DEAF, Stderr(1, text), json) == DEAF
    ensures Next(Next(DEAF, Advance(QUIET), json), InactivityTimer(1), json).os.signals
      == [Signal(1, false, QUIET, Inactivity(1))]
  {
    var late := Next(DEAF, Advance(QUIET), json);
    assert late.t.operations[1] == Sent(1, 1, 1, QUIET);
    assert late.os.procs[1] == NEW_PROC && late.os.now == QUIET;
  }

  /** After the run the second command is pending on a live process and is deaf: what
      the process prints is dropped, and it is killed once the time is over. Between the
      two finishes only task bodies run. */
  lemma StaleFinishDeafens(json: Json, text: string)
    ensures var s := Run(STALE_RUN, json);
      && Listening(s.t, 1) && !s.t.collecting
      && s.ses.proc == Some(1) && |s.os.procs| == 2 && IsLive(s.os.procs[1])
      && Next(s, Stdout(1, text), json) == s
      && Next(s, Stderr(1, text), json) == s
      && Next(Next(s, Advance(QUIET), json), InactivityTimer(1), json).os.signals
         == [Signal(1, false, QUIET, Inactivity(1))]
    ensures OnlyTasks(STALE_RUN[9..12])
  {
    SecondIsWritten(json);
    StaleStep(12, json);
    assert STALE_RUN[..13] == STALE_RUN;
    LastFinish(json);
    DeafIsKilled(json);
    hide Next;
  }

  /** After the abort: the first command is rejected with its finish scheduled, the second
      is cancelled, and the flush is written. */
  const FLUSHED: State := State(
    FINISHING.t.(responseQueue := [], currentCommandKind := Control, inactivityOf := None,
                 controlEscalation := Some(Escalation(1, CONTROL_ESCALATION_MS, 1)),
                 operations := [Sent(0, 0, 0, QUIET).(idleFinishes := 1, outcome := Rejected(Interrupted)),
                                Operation(2, Flush, 0, false, 0, 0, 1, 0, 0, 0, Pending)]),
    Os([NEW_PROC.(clearsEscalation := true)], [], 0),
    FINISHING.ses.(cancelledThrough := 2, queueTail := Some(2),
                   tasks := [Task(AskVersion(1), None, Settled(Failed(TransportError(Interrupted)))),
                             Task(AskVersion(2), Some(0), Settled(Failed(Cancelled))),
                             Task(ControlCommand(Abort, true, true), Some(1), Flushing(1))]))

  lemma AbortIsFlushed(json: Json)
    ensures Next(Next(Next(Next(FINISHING, IssueControl(Abort), json), Proceed(0, false), json),
                      Proceed(1, false), json), Proceed(2, false), json) == FLUSHED
  {
    var rejected := FINISHING.t.(collecting := false, inactivityOf := None,
                                 operations := [FLUSHED.t.operations[0]]);
    assert OnError(FINISHING.t, 0, Interrupted) == rejected;
    assert EmitError(FINISHING.t, 0, Interrupted) == EmitError(rejected, 1, Interrupted) == rejected;
    var s7 := Next(FINISHING, IssueControl(Abort), json);
    assert AnyListening(FINISHING.t) by { assert FINISHING.t.operations[0].outcome.Pending?; }
    assert s7.t == rejected;
    var control := Task(ControlCommand(Abort, true, true), Some(1), Queued);
    assert s7.ses.tasks == [FINISHING.ses.tasks[0], WAITING, control];
    var s8 := Next(s7, Proceed(0, false), json);
    assert s8.ses.tasks == [FLUSHED.ses.tasks[0], WAITING, control];
    var s9 := Next(s8, Proceed(1, false), json);
    assert s9.ses.tasks == [FLUSHED.ses.tasks[0], FLUSHED.ses.tasks[1], control];
    assert s9.t == rejected && s9.os == FINISHING.os;
    FlushStarts(s9, json);
  }

  lemma FlushStarts(s: State, json: Json)
    requires s.t == FINISHING.t.(collecting := false, inactivityOf := None, operations := [FLUSHED.t.operations[0]])
    requires s.os == FINISHING.os
    requires s.ses == FLUSHED.ses.(tasks := FLUSHED.ses.tasks[2 := FLUSHED.ses.tasks[2].(phase := Queued)])
    ensures Next(s, Proceed(2, false), json) == FLUSHED
  {
    EmitErrorNone(s.t, 0, Interrupted);
    var s' := Next(s, Proceed(2, false), json);
    assert s'.t.operations == FLUSHED.t.operations;
    assert s'.os.procs == FLUSHED.os.procs;
    assert s'.ses.tasks == FLUSHED.ses.tasks;
  }

  lemma FiveMore(events: seq<Event>, a: Event, b: Event, c: Event, d: Event, e: Event, json: Json)
    ensures Run(events + [a, b, c, d, e], json) ==
      Next(Next(Next(Next(Next(Run(events, json), a, json), b, json), c, json), d, json), e, json)
  {
    hide Next;
    RunOn(INITIAL, events, a, json);
    RunOn(INITIAL, events + [a], b, json);
    RunOn(INITIAL, events + [a] + [b], c, json);
    RunOn(INITIAL, events + [a] + [b] + [c], d, json);
    RunOn(INITIAL, events + [a] + [b] + [c] + [d], e, json);
    assert events + [a, b, c, d, e] == events + [a] + [b] + [c] + [d] + [e];
  }

  /** No process closed and "done" was heard once; still the flush is deaf while the
      process lives, and what Agda answers to the abort is not collected. */
  lemma AbortedFinishDeafens(json: Json, text: string)
    ensures var s := Run(ABORT_RUN, json);
      && Listening(s.t, 1) && s.t.operations[1].purpose.Flush? && !s.t.collecting
      && s.ses.proc == Some(0) && |s.os.procs| == 1 && IsLive(s.os.procs[0])
      && Next(s, Stderr(0, text), json) == s
    ensures OnlyTasks(ABORT_RUN[7..10])
  {
    FirstGoesIdle(json);
    FiveMore(STALE_RUN[..6], IssueControl(Abort), Proceed(0, false), Proceed(1, false), Proceed(2, false),
             FinishTimer(0, Idle), json);
    AbortIsFlushed(json);
    FlushIsDeafened(json, text);
    hide Next, RunFrom;
  }

  lemma FlushIsDeafened(json: Json, text: string)
    ensures var s := Next(FLUSHED, FinishTimer(0, Idle), json);
      && Listening(s.t, 1) && s.t.operations[1].purpose.Flush? && !s.t.collecting
      && s.ses.proc == Some(0) && |s.os.procs| == 1 && IsLive(s.os.procs[0])
      && Next(s, Stderr(0, text), json) == s
  {
  }
}
