// What every session step keeps, for every run.

module SessionProofs {
  import opened Basics
  import opened Wire
  import opened Terminus
  import opened TransportModel
  import opened TransportProofs
  import opened SessionModel

  // ── The invariant ─────────────────────────────────────────────────────

  ghost predicate Active(p: Phase) {
    p.Probing? || p.Commanding? || p.Flushing?
  }

  /** Task `j` of the first chain has entered its body. */
  ghost predicate Started(ses: Session, j: nat)
    requires j < |ses.tasks|
  {
    !ses.tasks[j].phase.Queued? && (ses.destroyed ==> j < ses.chainStart)
  }

  /** The promise chain: each task waits for the one before it, except that destroy
      starts a second chain whose bodies all fail on entry. */
  ghost predicate Chain(ses: Session) {
    && ses.chainStart <= |ses.tasks|
    && (!ses.destroyed ==> ses.chainStart == 0)
    && ses.queueTail == (if |ses.tasks| == ses.chainStart then None else Some(|ses.tasks| - 1))
    && (forall i :: 0 <= i < |ses.tasks| ==>
        ses.tasks[i].after == (if i == 0 || i == ses.chainStart then None else Some(i - 1)))
    && (forall i, j :: 0 <= i < j < |ses.tasks| && Started(ses, j) ==> ses.tasks[i].phase.Settled?)
    && (ses.destroyed ==> forall i :: ses.chainStart <= i < |ses.tasks| ==> !Active(ses.tasks[i].phase))
  }

  /** How operation `k` of a queued call fits the phase of that call. */
  ghost predicate Fits(phase: Phase, k: nat, op: Operation) {
    match phase
    case Queued => false
    case Probing(probe, _, _) => probe == Some(k) && op.purpose.Probe?
    case Commanding(c) =>
      (k == c && op.purpose.User?) || (k < c && op.purpose.Probe? && !op.outcome.Pending?)
    case Flushing(f) => k == f && op.purpose.Flush?
    case Settled(v) => !op.outcome.Pending? && v != Failed(Cancelled)
  }

  /** The operation a phase waits for belongs to that queued call. */
  ghost predicate Holds(t: Transport, i: nat, task: Task) {
    match task.phase
    case Probing(Some(k), _, _) => k < |t.operations| && t.operations[k].task == i && task.request.UserCommand?
    case Commanding(k) => k < |t.operations| && Serves(t.operations[k], i, task.request)
    case Flushing(k) => k < |t.operations| && Serves(t.operations[k], i, task.request)
    case Settled(Delivered(rs)) => Answered(t, i, task.request, rs)
    case _ => true
  }

  /** `op` is the user command or the flush that task `i` asked for. */
  ghost predicate Serves(op: Operation, i: nat, request: Request) {
    && op.task == i
    && (if request.UserCommand? then op.purpose.User? && op.awaitsTerminus == request.awaitsTerminus
        else op.purpose.Flush?)
  }

  /** ... and it resolved to `rs`. */
  ghost predicate Answers(op: Operation, i: nat, request: Request, rs: seq<Response>) {
    Serves(op, i, request) && op.outcome.Resolved? && op.outcome.responses == rs
  }

  ghost predicate Answered(t: Transport, i: nat, request: Request, rs: seq<Response>) {
    exists k :: 0 <= k < |t.operations| && Answers(t.operations[k], i, request, rs)
  }

  ghost predicate Owned(t: Transport, ses: Session) {
    && (forall k :: 0 <= k < |t.operations| ==>
        && t.operations[k].task < |ses.tasks|
        && Fits(ses.tasks[t.operations[k].task].phase, k, t.operations[k]))
    && (forall i :: 0 <= i < |ses.tasks| ==> Holds(t, i, ses.tasks[i]))
    && (ses.destroyed ==> !AnyListening(t))
  }

  /** Operations start in task order; a task's second one is its user command, written
      only after a settled probe that no control command interrupted. */
  ghost predicate Ordered(t: Transport) {
    forall k, l :: 0 <= k < l < |t.operations| ==> Precedes(t.operations[k], t.operations[l])
  }

  ghost predicate Precedes(op: Operation, op': Operation) {
    && op.task <= op'.task
    && (op.task == op'.task ==>
      && op.purpose.Probe? && op'.purpose.User?
      && !op.outcome.Pending? && op.outcome != Rejected(Interrupted))
  }

  ghost predicate ControlAfter(ses: Session, i: nat) {
    exists j :: i < j < |ses.tasks| && ses.tasks[j].request.ControlCommand?
  }

  /** `cancelledThrough` covers exactly the user tasks queued before some control task. */
  ghost predicate Sweep(ses: Session) {
    && ses.cancelledThrough <= ses.commandSerial
    && (forall i :: 0 <= i < |ses.tasks| && ses.tasks[i].request.UserCommand? ==>
        && ses.tasks[i].request.serial <= ses.commandSerial
        && (ses.tasks[i].request.serial <= ses.cancelledThrough <==> ControlAfter(ses, i)))
    && (forall i :: 0 <= i < |ses.tasks| && ses.tasks[i].request.ControlCommand? ==>
        ses.tasks[i].request.arm == (ses.tasks[i].request.kind.Exit? || ses.tasks[i].request.interrupted))
  }

  /** An armed escalation belongs to a control task that asked for it. */
  ghost predicate Gated(t: Transport, ses: Session) {
    t.controlEscalation.Some? ==>
      var e := t.controlEscalation.value;
      && e.op < |t.operations| && t.operations[e.op].task < |ses.tasks|
      && ses.tasks[t.operations[e.op].task].request.ControlCommand?
      && ses.tasks[t.operations[e.op].task].request.arm
  }

  ghost predicate Termed(os: Os, p: nat, due: int) {
    exists j :: 0 <= j < |os.signals| && IsTerm(os.signals[j], p) && os.signals[j].at + TERMINATE_GRACE_MS <= due
  }

  ghost predicate IsTerm(sig: Signal, p: nat) {
    sig.proc == p && !sig.force
  }

  /** SIGTERM goes to a process at most once, and SIGKILL only a grace period later. */
  ghost predicate Kills(os: Os) {
    && (forall j :: 0 <= j < |os.signals| ==> os.signals[j].proc < |os.procs| && os.signals[j].at <= os.now)
    && (forall j :: 0 <= j < |os.signals| && !os.signals[j].force ==> os.procs[os.signals[j].proc].killed)
    && (forall p :: 0 <= p < |os.procs| && os.procs[p].killed ==>
        exists j :: 0 <= j < |os.signals| && IsTerm(os.signals[j], p))
    && (forall p, m :: 0 <= p < |os.procs| && 0 <= m < |os.procs[p].graceTimers| ==>
        Termed(os, p, os.procs[p].graceTimers[m]))
    && (forall i, j :: 0 <= i < j < |os.signals| && os.signals[i].proc == os.signals[j].proc ==>
        os.signals[i].force || os.signals[j].force)
    && (forall j :: 0 <= j < |os.signals| && os.signals[j].force ==>
        Termed(os, os.signals[j].proc, os.signals[j].at))
  }

  ghost predicate Bounds(s: State) {
    && (s.ses.proc.Some? ==> s.ses.proc.value < |s.os.procs|)
    && (forall k :: 0 <= k < |s.t.operations| ==> s.t.operations[k].proc < |s.os.procs|)
  }

  ghost predicate Inv(s: State) {
    && TransportInv(s.t, s.os.now)
    && Bounds(s)
    && Chain(s.ses)
    && Owned(s.t, s.ses)
    && Ordered(s.t)
    && Sweep(s.ses)
    && Gated(s.t, s.ses)
    && Kills(s.os)
  }

  // ── Signals ───────────────────────────────────────────────────────────

  lemma TerminateKeeps(os: Os, p: nat, cause: Cause)
    requires Kills(os) && p < |os.procs|
    ensures Kills(Terminate(os, p, cause))
    ensures |Terminate(os, p, cause).procs| == |os.procs|
    ensures Terminate(os, p, cause).now == os.now
    ensures Terminate(os, p, cause).signals ==
      if IsLive(os.procs[p]) then os.signals + [Signal(p, false, os.now, cause)] else os.signals
  {
    var proc := os.procs[p];
    if !proc.exited {
      var os1 := if proc.killed then os
        else os.(procs := os.procs[p := proc.(killed := true)],
                 signals := os.signals + [Signal(p, false, os.now, cause)]);
      if !proc.killed {
        SignalKeeps(os, p, cause);
      }
      GraceKeeps(os1, p);
      assert Terminate(os, p, cause).procs == os1.procs[p := WithGrace(os1.procs[p], os1.now)];
      assert Terminate(os, p, cause) == os1.(procs := os1.procs[p := WithGrace(os1.procs[p], os1.now)]);
    }
  }

  function WithGrace(proc: Proc, now: nat): Proc {
    proc.(graceTimers := proc.graceTimers + [now + TERMINATE_GRACE_MS])
  }

  /** A grace timer started now on a process already signalled. */
  lemma GraceKeeps(os: Os, p: nat)
    requires Kills(os) && p < |os.procs| && os.procs[p].killed
    ensures Kills(os.(procs := os.procs[p := WithGrace(os.procs[p], os.now)]))
  {
    var proc := os.procs[p];
    var j :| 0 <= j < |os.signals| && IsTerm(os.signals[j], p);
    assert Termed(os, p, os.now + TERMINATE_GRACE_MS);
    var proc1 := WithGrace(proc, os.now);
    forall m | 0 <= m < |proc1.graceTimers| ensures Termed(os, p, proc1.graceTimers[m]) {
      if m < |proc.graceTimers| {
        assert Termed(os, p, proc.graceTimers[m]);
      }
    }
    FlagsKeep(os, p, proc1);
  }

  /** The first SIGTERM to a process. */
  lemma SignalKeeps(os: Os, p: nat, cause: Cause)
    requires Kills(os) && p < |os.procs| && !os.procs[p].killed
    ensures Kills(os.(procs := os.procs[p := os.procs[p].(killed := true)],
                      signals := os.signals + [Signal(p, false, os.now, cause)]))
  {
    var sig := Signal(p, false, os.now, cause);
    var os' := os.(procs := os.procs[p := os.procs[p].(killed := true)], signals := os.signals + [sig]);
    TermedStays(os, os');
    assert IsTerm(os'.signals[|os.signals|], p);
    forall q | 0 <= q < |os'.procs| && os'.procs[q].killed
      ensures exists j :: 0 <= j < |os'.signals| && IsTerm(os'.signals[j], q)
    {
      if q != p {
        var j :| 0 <= j < |os.signals| && IsTerm(os.signals[j], q);
        assert IsTerm(os'.signals[j], q);
      }
    }
    forall q, m | 0 <= q < |os'.procs| && 0 <= m < |os'.procs[q].graceTimers|
      ensures Termed(os', q, os'.procs[q].graceTimers[m])
    {
      assert Termed(os, q, os.procs[q].graceTimers[m]);
    }
  }

  lemma TermedStays(os: Os, os': Os)
    requires os.signals <= os'.signals
    ensures forall p: nat, due: int :: Termed(os, p, due) ==> Termed(os', p, due)
    ensures forall p: nat, j :: 0 <= j < |os.signals| && IsTerm(os.signals[j], p) ==> IsTerm(os'.signals[j], p)
  {
    forall p: nat, due: int | Termed(os, p, due) ensures Termed(os', p, due) {
      var j :| 0 <= j < |os.signals| && IsTerm(os.signals[j], p) && os.signals[j].at + TERMINATE_GRACE_MS <= due;
      assert os'.signals[j] == os.signals[j];
    }
  }

  lemma ForceKeeps(os: Os, p: nat, timer: nat)
    requires Kills(os) && p < |os.procs| && timer < |os.procs[p].graceTimers|
    requires os.procs[p].graceTimers[timer] <= os.now
    ensures Kills(Force(os, p, timer))
    ensures Termed(os, p, os.now)
  {
    var proc := os.procs[p];
    var proc1 := proc.(graceTimers := Remove(proc.graceTimers, timer));
    assert Termed(os, p, proc.graceTimers[timer]);
    forall m | 0 <= m < |proc1.graceTimers| ensures Termed(os, p, proc1.graceTimers[m]) {
      var n := if m < timer then m else m + 1;
      assert proc1.graceTimers[m] == proc.graceTimers[n];
      assert Termed(os, p, proc.graceTimers[n]);
    }
    FlagsKeep(os, p, proc1);
    var os1 := os.(procs := os.procs[p := proc1]);
    if !proc.exited {
      ForcedKeeps(os1, p);
    }
  }

  lemma ForcedKeeps(os: Os, p: nat)
    requires Kills(os) && p < |os.procs| && Termed(os, p, os.now)
    ensures Kills(os.(signals := os.signals + [Signal(p, true, os.now, Grace)]))
  {
    var os' := os.(signals := os.signals + [Signal(p, true, os.now, Grace)]);
    TermedStays(os, os');
    forall q | 0 <= q < |os'.procs| && os'.procs[q].killed
      ensures exists j :: 0 <= j < |os'.signals| && IsTerm(os'.signals[j], q)
    {
      var j :| 0 <= j < |os.signals| && IsTerm(os.signals[j], q);
      assert IsTerm(os'.signals[j], q);
    }
    forall q, m | 0 <= q < |os'.procs| && 0 <= m < |os'.procs[q].graceTimers|
      ensures Termed(os', q, os'.procs[q].graceTimers[m])
    {
      assert Termed(os, q, os.procs[q].graceTimers[m]);
    }
  }

  /** Changes to one process that keep `killed` and justify its grace timers. */
  lemma FlagsKeep(os: Os, p: nat, proc: Proc)
    requires Kills(os) && p < |os.procs|
    requires proc.killed == os.procs[p].killed
    requires forall m :: 0 <= m < |proc.graceTimers| ==> Termed(os, p, proc.graceTimers[m])
    ensures Kills(os.(procs := os.procs[p := proc]))
  {
    var os' := os.(procs := os.procs[p := proc]);
    TermedStays(os, os');
    forall q, m | 0 <= q < |os'.procs| && 0 <= m < |os'.procs[q].graceTimers|
      ensures Termed(os', q, os'.procs[q].graceTimers[m])
    {
      if q != p {
        assert Termed(os, q, os.procs[q].graceTimers[m]);
      } else {
        assert Termed(os, q, proc.graceTimers[m]);
      }
    }
  }

  lemma SpawnKeeps(os: Os)
    requires Kills(os)
    ensures Kills(os.(procs := os.procs + [NEW_PROC]))
  {
    var os' := os.(procs := os.procs + [NEW_PROC]);
    TermedStays(os, os');
    forall q, m | 0 <= q < |os'.procs| && 0 <= m < |os'.procs[q].graceTimers|
      ensures Termed(os', q, os'.procs[q].graceTimers[m])
    {
      assert Termed(os, q, os.procs[q].graceTimers[m]);
    }
  }

  lemma LaterKills(os: Os, later: nat)
    requires Kills(os) && os.now <= later
    ensures Kills(os.(now := later))
  {
    TermedStays(os, os.(now := later));
    var os' := os.(now := later);
    forall q, m | 0 <= q < |os'.procs| && 0 <= m < |os'.procs[q].graceTimers|
      ensures Termed(os', q, os'.procs[q].graceTimers[m])
    {
      assert Termed(os, q, os.procs[q].graceTimers[m]);
    }
  }

  // ── Steps that leave the queue alone ──────────────────────────────────

  /** Operations keep their identity and settled outcomes; a pending one may settle. */
  ghost predicate OpsRefine(t: Transport, t': Transport) {
    && |t'.operations| == |t.operations|
    && forall k :: 0 <= k < |t.operations| ==>
        && SameIdentity(t.operations[k], t'.operations[k])
        && (!t.operations[k].outcome.Pending? ==> t'.operations[k].outcome == t.operations[k].outcome)
  }

  ghost predicate SameQueue(ses: Session, ses': Session) {
    && ses'.tasks == ses.tasks && ses'.destroyed == ses.destroyed
    && ses'.commandSerial == ses.commandSerial && ses'.cancelledThrough == ses.cancelledThrough
    && ses'.queueTail == ses.queueTail && ses'.chainStart == ses.chainStart
  }

  lemma OwnedStays(t: Transport, t': Transport, ses: Session)
    requires Owned(t, ses) && OpsRefine(t, t')
    ensures Owned(t', ses)
  {
    forall k | 0 <= k < |t'.operations|
      ensures t'.operations[k].task < |ses.tasks|
      ensures Fits(ses.tasks[t'.operations[k].task].phase, k, t'.operations[k])
    {
      assert Fits(ses.tasks[t.operations[k].task].phase, k, t.operations[k]);
    }
    forall i | 0 <= i < |ses.tasks| ensures Holds(t', i, ses.tasks[i]) {
      assert Holds(t, i, ses.tasks[i]);
      if ses.tasks[i].phase.Settled? && ses.tasks[i].phase.verdict.Delivered? {
        var rs := ses.tasks[i].phase.verdict.responses;
        var k :| 0 <= k < |t.operations| && Answers(t.operations[k], i, ses.tasks[i].request, rs);
        assert Answers(t'.operations[k], i, ses.tasks[i].request, rs);
      }
    }
  }

  lemma OrderedStays(t: Transport, t': Transport)
    requires Ordered(t) && OpsRefine(t, t')
    ensures Ordered(t')
  {
    forall k, l | 0 <= k < l < |t'.operations| ensures Precedes(t'.operations[k], t'.operations[l]) {
      assert Precedes(t.operations[k], t.operations[l]);
    }
  }

  /** A step of the transport, the processes or the clock. */
  lemma TransportStepKeeps(s: State, s': State)
    requires Inv(s) && SameQueue(s.ses, s'.ses)
    requires TransportInv(s'.t, s'.os.now) && OpsRefine(s.t, s'.t)
    requires s'.t.controlEscalation == s.t.controlEscalation || s'.t.controlEscalation.None?
    requires Kills(s'.os) && |s'.os.procs| >= |s.os.procs|
    requires s'.ses.proc.Some? ==> s'.ses.proc.value < |s'.os.procs|
    ensures Inv(s')
  {
    assert Chain(s'.ses) by {
      assert forall j :: 0 <= j < |s.ses.tasks| ==> Started(s'.ses, j) == Started(s.ses, j);
    }
    OwnedStays(s.t, s'.t, s.ses);
    OrderedStays(s.t, s'.t);
    assert Owned(s'.t, s'.ses);
  }

  lemma SettlesRefines(t: Transport, t': Transport, k: nat)
    requires Settles(t, t', k) && (Listening(t, k) || t'.operations[k].outcome == t.operations[k].outcome)
    ensures OpsRefine(t, t')
  {
  }

  lemma {:induction false} EscalationOnlyClears(t: Transport, lines: seq<string>, json: string -> Option<Response>, now: nat)
    ensures var e := RecordLines(t, lines, json, now).controlEscalation; e == t.controlEscalation || e.None?
    decreases |lines|
  {
    if lines != [] {
      var rs := StdoutLines.DecodeLine(lines[0], json);
      EscalationOnlyClearsAll(t, rs, now);
      EscalationOnlyClears(RecordAll(t, rs, now), lines[1..], json, now);
    }
  }

  lemma {:induction false} EscalationOnlyClearsAll(t: Transport, rs: seq<Response>, now: nat)
    ensures var e := RecordAll(t, rs, now).controlEscalation; e == t.controlEscalation || e.None?
    decreases |rs|
  {
    if rs != [] {
      EscalationOnlyClearsAll(Record(t, rs[0], now), rs[1..], now);
    }
  }

  lemma StdoutKeeps(s: State, chunk: string, json: string -> Option<Response>)
    requires Inv(s)
    ensures Inv(s.(t := HandleStdout(s.t, chunk, json, s.os.now)))
    ensures OpsRefine(s.t, HandleStdout(s.t, chunk, json, s.os.now))
    ensures HandleStdout(s.t, chunk, json, s.os.now).collecting == s.t.collecting
  {
    HandleStdoutKeeps(s.t, chunk, json, s.os.now);
    EscalationOnlyClears(s.t, StdoutLines.Lines(s.t.buffer + chunk), json, s.os.now);
    TransportStepKeeps(s, s.(t := HandleStdout(s.t, chunk, json, s.os.now)));
  }

  lemma StderrKeeps(s: State, text: string)
    requires Inv(s)
    ensures Inv(s.(t := HandleStderr(s.t, text, s.os.now)))
    ensures OpsRefine(s.t, HandleStderr(s.t, text, s.os.now))
    ensures HandleStderr(s.t, text, s.os.now).collecting == s.t.collecting
  {
    if s.t.collecting {
      RecordKeeps(s.t, StderrOutput(text), s.os.now);
      TransportStepKeeps(s, s.(t := Record(s.t, StderrOutput(text), s.os.now)));
    }
  }

  /** "error" settles the one listener. */
  lemma InterruptKeeps(s: State, why: Rejection)
    requires Inv(s)
    ensures Inv(s.(t := EmitError(s.t, 0, why)))
    ensures !AnyListening(EmitError(s.t, 0, why))
    ensures OpsRefine(s.t, EmitError(s.t, 0, why))
  {
    EmitErrorKeeps(s.t, why, s.os.now);
    if k :| Listening(s.t, k) {
      SettlesRefines(s.t, EmitError(s.t, 0, why), k);
    } else {
      NobodyListens(s.t);
    }
    TransportStepKeeps(s, s.(t := EmitError(s.t, 0, why)));
  }

  lemma FinishTimerStep(s: State, k: nat, origin: Origin)
    requires Inv(s) && k < |s.t.operations| && Pended(s.t.operations[k], origin) > 0
    ensures Inv(s.(t := FinishTimerFires(s.t, k, origin)))
  {
    FinishTimerKeeps(s.t, k, origin, s.os.now);
    SettlesRefines(s.t, FinishTimerFires(s.t, k, origin), k);
    TransportStepKeeps(s, s.(t := FinishTimerFires(s.t, k, origin)));
  }

  lemma FlushTimerStep(s: State, k: nat)
    requires Inv(s) && Listening(s.t, k) && s.t.operations[k].purpose.Flush?
    ensures Inv(s.(t := Settle(s.t, k, ByFlushWindow)))
  {
    FlushTimerKeeps(s.t, k, s.os.now);
    SettlesRefines(s.t, Settle(s.t, k, ByFlushWindow), k);
    TransportStepKeeps(s, s.(t := Settle(s.t, k, ByFlushWindow)));
  }

  lemma IdleTimerStep(s: State)
    requires Inv(s) && s.t.idleTimer
    ensures Inv(s.(t := IdleTimerFires(s.t)))
  {
    IdleTimerKeeps(s.t, s.os.now);
    TransportStepKeeps(s, s.(t := IdleTimerFires(s.t)));
  }

  lemma TimeOutStep(s: State, k: nat)
    requires Inv(s) && Listening(s.t, k) && !s.t.operations[k].purpose.Flush?
    ensures Inv(TimeOut(s, k))
  {
    InactivityKeeps(s.t, k, s.os.now);
    SettlesRefines(s.t, InactivityFires(s.t, k), k);
    TerminateKeeps(s.os, s.t.operations[k].proc, Inactivity(k));
    TransportStepKeeps(s, TimeOut(s, k));
  }

  lemma EscalateStep(s: State, e: Escalation)
    requires Inv(s) && s.t.controlEscalation == Some(e)
    ensures Inv(Escalate(s, e))
  {
    LoggedKeeps(s.t, s.t.(controlEscalation := None), s.os.now);
    TerminateKeeps(s.os, s.t.operations[e.op].proc, EscalationBudget(e.op));
    TransportStepKeeps(s, Escalate(s, e));
  }

  lemma CloseStep(s: State, p: nat)
    requires Inv(s) && p < |s.os.procs|
    ensures Inv(CloseProc(s, p))
  {
    hide TransportInv, Kills, Owned, Chain, Sweep, Ordered;
    var proc := s.os.procs[p];
    var t1 := if proc.attached then HandleProcessClose(s.t) else s.t;
    if proc.attached {
      ProcessCloseKeeps(s.t, s.os.now);
    }
    if proc.clearsEscalation {
      LoggedKeeps(t1, t1.(controlEscalation := None), s.os.now);
    }
    FlagsKeep(s.os, p, proc.(closed := true, graceTimers := []));
    TransportStepKeeps(s, CloseProc(s, p));
  }

  lemma ExitStep(s: State, p: nat)
    requires Inv(s) && p < |s.os.procs|
    ensures Inv(s.(os := s.os.(procs := s.os.procs[p := s.os.procs[p].(exited := true)])))
  {
    var proc := s.os.procs[p].(exited := true);
    forall m | 0 <= m < |proc.graceTimers| ensures Termed(s.os, p, proc.graceTimers[m]) {
      assert Termed(s.os, p, s.os.procs[p].graceTimers[m]);
    }
    FlagsKeep(s.os, p, proc);
    TransportStepKeeps(s, s.(os := s.os.(procs := s.os.procs[p := proc])));
  }

  lemma GraceStep(s: State, p: nat, timer: nat)
    requires Inv(s) && p < |s.os.procs| && timer < |s.os.procs[p].graceTimers|
    requires s.os.procs[p].graceTimers[timer] <= s.os.now
    ensures Inv(s.(os := Force(s.os, p, timer)))
  {
    ForceKeeps(s.os, p, timer);
    TransportStepKeeps(s, s.(os := Force(s.os, p, timer)));
  }

  lemma AdvanceStep(s: State, ms: nat)
    requires Inv(s)
    ensures Inv(s.(os := s.os.(now := s.os.now + ms)))
  {
    var later := s.os.now + ms;
    LaterKeeps(s.t, s.os.now, later);
    LaterKills(s.os, later);
    var s' := State(s.t, s.os.(now := later), s.ses);
    assert SameQueue(s.ses, s'.ses) && OpsRefine(s.t, s'.t);
    TransportStepKeeps(s, s');
  }

  // ── Queueing ──────────────────────────────────────────────────────────

  /** One more queued task: the other tasks, the operations and the flags stay. */
  lemma AddTaskChain(ses: Session, ses': Session, task: Task)
    requires Chain(ses) && task.after == ses.queueTail && task.phase.Queued?
    requires ses'.tasks == ses.tasks + [task] && ses'.queueTail == Some(|ses.tasks|)
    requires ses'.destroyed == ses.destroyed && ses'.chainStart == ses.chainStart
    ensures Chain(ses')
  {
    assert forall j :: 0 <= j < |ses.tasks| ==> ses'.tasks[j] == ses.tasks[j] && Started(ses', j) == Started(ses, j);
    assert !Started(ses', |ses.tasks|);
  }

  lemma AddTaskOwned(t: Transport, ses: Session, ses': Session, task: Task)
    requires Owned(t, ses) && task.phase.Queued?
    requires ses'.tasks == ses.tasks + [task] && ses'.destroyed == ses.destroyed
    ensures Owned(t, ses')
  {
    assert forall j :: 0 <= j < |ses.tasks| ==> ses'.tasks[j] == ses.tasks[j];
    forall i | 0 <= i < |ses'.tasks| ensures Holds(t, i, ses'.tasks[i]) {
      if i < |ses.tasks| { assert Holds(t, i, ses.tasks[i]); }
    }
  }

  lemma DispatchCommandKeeps(s: State, awaits: bool, shows: bool, timeoutMs: nat)
    requires Inv(s)
    ensures Inv(DispatchCommand(s, awaits, shows, timeoutMs))
  {
    var s' := DispatchCommand(s, awaits, shows, timeoutMs);
    var ses, n := s.ses, |s.ses.tasks|;
    var serial := ses.commandSerial + 1;
    var task := Task(UserCommand(serial, awaits, shows, timeoutMs), ses.queueTail, Queued);
    AddTaskChain(ses, s'.ses, task);
    AddTaskOwned(s.t, ses, s'.ses, task);
    assert forall j :: 0 <= j < n ==> s'.ses.tasks[j] == ses.tasks[j];
    forall i | 0 <= i < n + 1 && s'.ses.tasks[i].request.UserCommand?
      ensures s'.ses.tasks[i].request.serial <= s'.ses.cancelledThrough <==> ControlAfter(s'.ses, i)
    {
      if i < n {
        AfterStays(ses, s'.ses, task, i);
      }
    }
  }

  /** Appending a task adds a later control task exactly if it is one. */
  lemma AfterStays(ses: Session, ses': Session, task: Task, i: nat)
    requires i < |ses.tasks| && ses'.tasks == ses.tasks + [task]
    ensures ControlAfter(ses', i) <==> ControlAfter(ses, i) || task.request.ControlCommand?
  {
    assert ses'.tasks[|ses.tasks|] == task;
    assert forall j :: 0 <= j < |ses.tasks| ==> ses'.tasks[j] == ses.tasks[j];
  }

  /** Raising `cancelledThrough` to the last serial sweeps exactly what a new control
      task comes after. */
  lemma SweptByControl(ses: Session, ses': Session, task: Task)
    requires Sweep(ses) && task.request.ControlCommand?
    requires task.request.arm == (task.request.kind.Exit? || task.request.interrupted)
    requires ses'.tasks == ses.tasks + [task] && ses'.commandSerial == ses.commandSerial == ses'.cancelledThrough
    ensures Sweep(ses')
  {
    var n := |ses.tasks|;
    assert forall j :: 0 <= j < n ==> ses'.tasks[j] == ses.tasks[j];
    assert ses'.tasks[n] == task;
    forall i | 0 <= i < n + 1 && ses'.tasks[i].request.UserCommand?
      ensures ses'.tasks[i].request.serial <= ses'.cancelledThrough <==> ControlAfter(ses', i)
    {
      AfterStays(ses, ses', task, i);
    }
  }

  lemma DispatchControlKeeps(s: State, kind: ControlKind)
    requires Inv(s)
    ensures Inv(DispatchControl(s, kind))
  {
    InterruptKeeps(s, Interrupted);
    hide EmitError;
    var s1 := s.(t := EmitError(s.t, 0, Interrupted));
    var s' := DispatchControl(s, kind);
    var interrupting := AnyListening(s.t);
    var task := Task(ControlCommand(kind, interrupting, kind.Exit? || interrupting), s.ses.queueTail, Queued);
    assert s'.t == s1.t && s'.os == s1.os && s'.ses.tasks == s1.ses.tasks + [task];
    QueuedKeeps(s1, s', task);
  }

  lemma QueuedKeeps(s: State, s': State, task: Task)
    requires Inv(s) && s'.t == s.t && s'.os == s.os
    requires task.phase.Queued? && task.after == s.ses.queueTail && task.request.ControlCommand?
    requires task.request.arm == (task.request.kind.Exit? || task.request.interrupted)
    requires s'.ses == s.ses.(tasks := s.ses.tasks + [task], queueTail := Some(|s.ses.tasks|),
                              cancelledThrough := s.ses.commandSerial)
    ensures Inv(s')
  {
    AddTaskChain(s.ses, s'.ses, task);
    AddTaskOwned(s.t, s.ses, s'.ses, task);
    SweptByControl(s.ses, s'.ses, task);
    assert forall j :: 0 <= j < |s.ses.tasks| ==> s'.ses.tasks[j] == s.ses.tasks[j];
  }

  // ── Running a task ────────────────────────────────────────────────────

  /** Before a queued body runs, every earlier task of its chain has settled. */
  lemma ReadyIsFirst(s: State, i: nat)
    requires Inv(s) && Ready(s, i) && (s.ses.destroyed ==> i < s.ses.chainStart)
    ensures forall j :: 0 <= j < i ==> s.ses.tasks[j].phase.Settled?
  {
    var ses := s.ses;
    if !ses.tasks[i].phase.Queued? {
      assert Started(ses, i);
    } else if i > 0 {
      assert ses.tasks[i].after == Some(i - 1);
      assert Started(ses, i - 1);
    }
  }

  /** A ready task of a live session runs alone: nothing listens. */
  lemma ReadyIsAlone(s: State, i: nat)
    requires Inv(s) && Ready(s, i) && !s.ses.destroyed
    ensures !AnyListening(s.t)
    ensures forall k :: 0 <= k < |s.t.operations| ==> s.t.operations[k].task <= i
  {
    ReadyIsFirst(s, i);
    forall k | 0 <= k < |s.t.operations|
      ensures s.t.operations[k].task <= i && !s.t.operations[k].outcome.Pending?
    {
      var j := s.t.operations[k].task;
      assert Fits(s.ses.tasks[j].phase, k, s.t.operations[k]);
      if j > i {
        assert Started(s.ses, j);
      }
      assert Listening(s.t, k) == s.t.operations[k].outcome.Pending?;
    }
  }

  lemma SetPhaseChain(s: State, i: nat, phase: Phase)
    requires Inv(s) && Ready(s, i) && !phase.Queued?
    requires Active(phase) ==> !s.ses.destroyed
    ensures Chain(SetPhase(s, i, phase).ses)
  {
    var ses, ses' := s.ses, SetPhase(s, i, phase).ses;
    if !ses.destroyed || i < ses.chainStart {
      ReadyIsFirst(s, i);
    }
    forall a, b | 0 <= a < b < |ses'.tasks| && Started(ses', b)
      ensures ses'.tasks[a].phase.Settled?
    {
      if b == i {
        assert a != i;
      } else {
        assert Started(ses, b);
        assert a != i;
      }
    }
  }

  lemma SetPhaseSweep(s: State, i: nat, phase: Phase)
    requires i < |s.ses.tasks| && Sweep(s.ses)
    ensures Sweep(SetPhase(s, i, phase).ses)
  {
    var ses, ses' := s.ses, SetPhase(s, i, phase).ses;
    assert forall j :: 0 <= j < |ses.tasks| ==> ses'.tasks[j].request == ses.tasks[j].request;
    assert forall j :: 0 <= j < |ses.tasks| ==> ControlAfter(ses', j) == ControlAfter(ses, j);
  }

  /** A ready task settles: rejected, or delivered with its operation's responses. */
  lemma SettleKeeps(s: State, i: nat, verdict: Verdict)
    requires Inv(s) && Ready(s, i)
    requires verdict == Failed(Cancelled) ==> s.ses.tasks[i].phase.Queued?
    requires verdict.Delivered? ==> Answered(s.t, i, s.ses.tasks[i].request, verdict.responses)
    ensures Inv(SetPhase(s, i, Settled(verdict)))
  {
    var s' := SetPhase(s, i, Settled(verdict));
    SetPhaseChain(s, i, Settled(verdict));
    SetPhaseSweep(s, i, Settled(verdict));
    forall k | 0 <= k < |s.t.operations|
      ensures Fits(s'.ses.tasks[s.t.operations[k].task].phase, k, s.t.operations[k])
    {
      assert Fits(s.ses.tasks[s.t.operations[k].task].phase, k, s.t.operations[k]);
      assert Listening(s.t, k) == s.t.operations[k].outcome.Pending?;
    }
    forall j | 0 <= j < |s'.ses.tasks| ensures Holds(s.t, j, s'.ses.tasks[j]) {
      assert Holds(s.t, j, s.ses.tasks[j]);
    }
  }

  /** The queue is untouched by the bookkeeping of currentFile and the version. */
  lemma BookkeepingKeeps(s: State, ses': Session)
    requires Inv(s) && SameQueue(s.ses, ses') && ses'.proc == s.ses.proc
    ensures Inv(s.(ses := ses'))
  {
    TransportStepKeeps(s, s.(ses := ses'));
  }

  lemma EnsureProcessKeeps(s: State)
    requires Inv(s)
    ensures Inv(EnsureProcess(s).0)
    ensures EnsureProcess(s).1 < |EnsureProcess(s).0.os.procs|
    ensures EnsureProcess(s).0.t == s.t && SameQueue(s.ses, EnsureProcess(s).0.ses)
    ensures EnsureProcess(s).0.os.signals == s.os.signals && EnsureProcess(s).0.os.now == s.os.now
    ensures EnsureProcess(s).0.ses.proc == Some(EnsureProcess(s).1)
    ensures IsLive(EnsureProcess(s).0.os.procs[EnsureProcess(s).1])
  {
    var (s', p) := EnsureProcess(s);
    if !HasLiveProc(s) {
      var os1 := s.os;
      if s.ses.proc.Some? {
        var q := s.ses.proc.value;
        var proc := s.os.procs[q].(attached := false);
        forall m | 0 <= m < |proc.graceTimers| ensures Termed(s.os, q, proc.graceTimers[m]) {
          assert Termed(s.os, q, s.os.procs[q].graceTimers[m]);
        }
        FlagsKeep(s.os, q, proc);
        TerminateKeeps(Detach(s.os, q), q, Respawn);
        os1 := Terminate(Detach(s.os, q), q, Respawn);
      }
      SpawnKeeps(os1);
      TransportStepKeeps(s, s');
    }
  }

  /** A respawn leaves the queue and the transport alone, whatever the state. */
  lemma EnsureProcessKeepsQueue(s: State)
    ensures EnsureProcess(s).0.t == s.t && SameQueue(s.ses, EnsureProcess(s).0.ses)
  {
  }

  lemma ResetIfDiedKeeps(s: State, p: nat)
    requires Inv(s)
    ensures Inv(ResetIfDied(s, p)) && SameQueue(s.ses, ResetIfDied(s, p).ses)
    ensures ResetIfDied(s, p).t == s.t && ResetIfDied(s, p).os == s.os
    ensures ResetIfDied(s, p).ses.proc == s.ses.proc
  {
    if p < |s.os.procs| && !IsLive(s.os.procs[p]) {
      BookkeepingKeeps(s, s.ses.(currentFile := None));
    }
  }

  /** `t'` is `t` with one more operation, just started by task `i`. */
  ghost predicate Appends(t: Transport, t': Transport, i: nat, purpose: Purpose, p: nat) {
    && |t'.operations| == |t.operations| + 1
    && t'.operations[..|t.operations|] == t.operations
    && t'.operations[|t.operations|].task == i
    && t'.operations[|t.operations|].purpose == purpose
    && t'.operations[|t.operations|].proc == p
    && t'.operations[|t.operations|].outcome.Pending?
  }

  /** A ready task of a live session starts an operation and waits for it. */
  lemma StartOperationKeeps(s: State, i: nat, t': Transport, purpose: Purpose, p: nat, phase: Phase)
    requires Inv(s) && Ready(s, i) && !s.ses.destroyed && p < |s.os.procs|
    requires TransportInv(t', s.os.now) && Appends(s.t, t', i, purpose, p)
    requires match purpose
             case Probe => phase.Probing? && phase.probe == Some(|s.t.operations|)
             case User => phase == Commanding(|s.t.operations|)
             case Flush => phase == Flushing(|s.t.operations|)
    requires purpose.User? <==> s.ses.tasks[i].phase.Probing?
    requires !purpose.User? ==> s.ses.tasks[i].phase.Queued?
    requires purpose.Flush? <==> s.ses.tasks[i].request.ControlCommand?
    requires purpose.User? ==> t'.operations[|s.t.operations|].awaitsTerminus == s.ses.tasks[i].request.awaitsTerminus
    requires purpose.User? && s.ses.tasks[i].phase.probe.Some? ==>
      s.t.operations[s.ses.tasks[i].phase.probe.value].outcome != Rejected(Interrupted)
    requires t'.controlEscalation == s.t.controlEscalation
      || (purpose.Flush? && s.ses.tasks[i].request.arm && t'.controlEscalation.Some?
          && t'.controlEscalation.value.op == |s.t.operations|)
      || t'.controlEscalation.None?
    ensures Inv(SetPhase(s.(t := t'), i, phase))
  {
    hide TransportInv, Ordered, Owned, Chain, Sweep, Kills;
    var n := |s.t.operations|;
    var s' := SetPhase(s.(t := t'), i, phase);
    ReadyIsAlone(s, i);
    SetPhaseChain(s, i, phase);
    SetPhaseSweep(s, i, phase);
    assert s'.ses == SetPhase(s, i, phase).ses;
    assert forall k :: 0 <= k < n ==> t'.operations[k] == t'.operations[..n][k] == s.t.operations[k];
    StartOwned(s, i, t', phase, s'.ses);
    StartOrdered(s, i, t');
  }

  lemma StartOrdered(s: State, i: nat, t': Transport)
    requires Inv(s) && Ready(s, i) && !s.ses.destroyed
    requires |t'.operations| == |s.t.operations| + 1 && t'.operations[|s.t.operations|].task == i
    requires forall k :: 0 <= k < |s.t.operations| ==> t'.operations[k] == s.t.operations[k]
    requires t'.operations[|s.t.operations|].purpose.User? <==> s.ses.tasks[i].phase.Probing?
    requires !s.ses.tasks[i].phase.Probing? ==> s.ses.tasks[i].phase.Queued?
    requires s.ses.tasks[i].phase.Probing? && s.ses.tasks[i].phase.probe.Some? ==>
      s.t.operations[s.ses.tasks[i].phase.probe.value].outcome != Rejected(Interrupted)
    ensures Ordered(t')
  {
    var n := |s.t.operations|;
    ReadyIsAlone(s, i);
    forall k, l | 0 <= k < l < n + 1 ensures Precedes(t'.operations[k], t'.operations[l]) {
      if l < n {
        assert Precedes(s.t.operations[k], s.t.operations[l]);
      } else {
        var op := s.t.operations[k];
        assert Fits(s.ses.tasks[op.task].phase, k, op);
        assert !op.outcome.Pending?;
      }
    }
  }

  lemma StartOwned(s: State, i: nat, t': Transport, phase: Phase, ses': Session)
    requires Inv(s) && Ready(s, i) && !s.ses.destroyed && !AnyListening(s.t)
    requires ses' == SetPhase(s, i, phase).ses
    requires |t'.operations| == |s.t.operations| + 1 && t'.operations[|s.t.operations|].task == i
    requires forall k :: 0 <= k < |s.t.operations| ==> t'.operations[k] == s.t.operations[k]
    requires match t'.operations[|s.t.operations|].purpose
             case Probe => phase.Probing? && phase.probe == Some(|s.t.operations|)
             case User => phase == Commanding(|s.t.operations|)
             case Flush => phase == Flushing(|s.t.operations|)
    requires t'.operations[|s.t.operations|].purpose.User? <==> s.ses.tasks[i].phase.Probing?
    requires t'.operations[|s.t.operations|].purpose.Flush? <==> s.ses.tasks[i].request.ControlCommand?
    requires !s.ses.tasks[i].phase.Probing? ==> s.ses.tasks[i].phase.Queued?
    requires var op := t'.operations[|s.t.operations|];
      op.purpose.User? ==> op.awaitsTerminus == s.ses.tasks[i].request.awaitsTerminus
    ensures Owned(t', ses')
  {
    hide TransportInv, Ordered, Sweep, Gated, Kills, Bounds, Chain;
    var n := |s.t.operations|;
    forall k | 0 <= k < n + 1
      ensures Fits(ses'.tasks[t'.operations[k].task].phase, k, t'.operations[k])
    {
      if k < n {
        assert Fits(s.ses.tasks[s.t.operations[k].task].phase, k, s.t.operations[k]);
        assert !s.t.operations[k].outcome.Pending?;
      }
    }
    forall j | 0 <= j < |ses'.tasks| ensures Holds(t', j, ses'.tasks[j]) {
      assert Holds(s.t, j, s.ses.tasks[j]);
      if j != i && s.ses.tasks[j].phase.Settled? && s.ses.tasks[j].phase.verdict.Delivered? {
        var rs := s.ses.tasks[j].phase.verdict.responses;
        var k :| 0 <= k < n && Answers(s.t.operations[k], j, s.ses.tasks[j].request, rs);
        assert Answers(t'.operations[k], j, s.ses.tasks[j].request, rs);
      }
    }
  }

  // ── The bodies of tasks ───────────────────────────────────────────────

  /** A task of the same queue is still ready after bookkeeping on a live process. */
  lemma StillReady(s: State, s1: State, i: nat)
    requires Ready(s, i) && SameQueue(s.ses, s1.ses) && s1.t == s.t
    ensures Ready(s1, i)
  {
  }

  lemma StartUserKeeps(s: State, i: nat)
    requires Inv(s) && Ready(s, i) && s.ses.tasks[i].phase.Queued? && s.ses.tasks[i].request.UserCommand?
    ensures Inv(StartUser(s, i))
  {
    hide Inv;
    var request := s.ses.tasks[i].request;
    if s.ses.destroyed {
      SettleKeeps(s, i, Failed(SessionDestroyed));
    } else if request.serial <= s.ses.cancelledThrough {
      SettleKeeps(s, i, Failed(Cancelled));
    } else {
      LaunchKeeps(s, i);
    }
  }

  lemma LaunchKeeps(s: State, i: nat)
    requires Inv(s) && Ready(s, i) && s.ses.tasks[i].phase.Queued? && s.ses.tasks[i].request.UserCommand?
    requires !s.ses.destroyed && s.ses.tasks[i].request.serial > s.ses.cancelledThrough
    ensures Inv(StartUser(s, i))
  {
    hide Inv;
    EnsureProcessKeeps(s);
    var (s1, p) := EnsureProcess(s);
    StillReady(s, s1, i);
    if NeedsVersion(s1) && !s.ses.tasks[i].request.showsVersion {
      BookkeepingReady(s1, s1.ses.(versionAttempts := s1.ses.versionAttempts + 1), i);
      StartProbeKeeps(s1.(ses := s1.ses.(versionAttempts := s1.ses.versionAttempts + 1)), i, p, s1.ses.currentFile);
    } else {
      WaitKeeps(s1, i, Probing(None, p, s1.ses.currentFile));
    }
  }

  lemma BookkeepingReady(s: State, ses': Session, i: nat)
    requires Inv(s) && Ready(s, i) && SameQueue(s.ses, ses') && ses'.proc == s.ses.proc
    ensures Inv(s.(ses := ses')) && Ready(s.(ses := ses'), i)
  {
    BookkeepingKeeps(s, ses');
    StillReady(s, s.(ses := ses'), i);
  }

  lemma ResetReady(s: State, p: nat, i: nat)
    requires Inv(s) && Ready(s, i)
    ensures Inv(ResetIfDied(s, p)) && Ready(ResetIfDied(s, p), i)
    ensures SameQueue(s.ses, ResetIfDied(s, p).ses) && ResetIfDied(s, p).t == s.t
  {
    ResetIfDiedKeeps(s, p);
    StillReady(s, ResetIfDied(s, p), i);
  }

  lemma StartProbeKeeps(s: State, i: nat, p: nat, file: Option<string>)
    requires Inv(s) && Ready(s, i) && !s.ses.destroyed && p < |s.os.procs|
    requires s.ses.tasks[i].phase.Queued? && s.ses.tasks[i].request.UserCommand?
    ensures Inv(SetPhase(s.(t := StartCommand(s.t, i, Probe, p, false, VERSION_DETECTION_TIMEOUT_MS, s.os.now)),
                         i, Probing(Some(|s.t.operations|), p, file)))
  {
    ReadyIsAlone(s, i);
    StartCommandKeeps(s.t, i, Probe, p, false, VERSION_DETECTION_TIMEOUT_MS, s.os.now);
    StartOperationKeeps(s, i, StartCommand(s.t, i, Probe, p, false, VERSION_DETECTION_TIMEOUT_MS, s.os.now),
                        Probe, p, Probing(Some(|s.t.operations|), p, file));
  }

  /** A user task that needs no probe waits one microtask, holding no operation. */
  lemma WaitKeeps(s: State, i: nat, phase: Phase)
    requires Inv(s) && Ready(s, i) && !s.ses.destroyed && s.ses.tasks[i].phase.Queued?
    requires phase.Probing? && phase.probe.None?
    ensures Inv(SetPhase(s, i, phase))
  {
    var s' := SetPhase(s, i, phase);
    SetPhaseChain(s, i, phase);
    SetPhaseSweep(s, i, phase);
    forall k | 0 <= k < |s.t.operations|
      ensures Fits(s'.ses.tasks[s.t.operations[k].task].phase, k, s.t.operations[k])
    {
      assert Fits(s.ses.tasks[s.t.operations[k].task].phase, k, s.t.operations[k]);
    }
    forall j | 0 <= j < |s'.ses.tasks| ensures Holds(s.t, j, s'.ses.tasks[j]) {
      assert Holds(s.t, j, s.ses.tasks[j]);
    }
  }

  lemma ResumeProbeKeeps(s: State, i: nat, seen: bool)
    requires Inv(s) && Ready(s, i) && s.ses.tasks[i].phase.Probing? && s.ses.tasks[i].request.UserCommand?
    ensures Inv(ResumeProbe(s, i, seen))
  {
    hide Inv;
    var Probing(probe, p, file) := s.ses.tasks[i].phase;
    if probe.Some? && s.t.operations[probe.value].outcome == Rejected(Interrupted) {
      ResetReady(s, p, i);
      SettleKeeps(ResetIfDied(s, p), i, Failed(TransportError(Interrupted)));
    } else {
      var known := seen && probe.Some? && s.t.operations[probe.value].outcome.Resolved?;
      BookkeepingReady(s, s.ses.(versionKnown := s.ses.versionKnown || known), i);
      AfterProbeKeeps(s.(ses := s.ses.(versionKnown := s.ses.versionKnown || known)), i);
    }
  }

  /** The part of `ResumeProbe` behind the interruption check. */
  lemma AfterProbeKeeps(s: State, i: nat)
    requires Inv(s) && Ready(s, i) && s.ses.tasks[i].phase.Probing? && s.ses.tasks[i].request.UserCommand?
    requires s.ses.tasks[i].phase.probe.Some? ==>
      s.t.operations[s.ses.tasks[i].phase.probe.value].outcome != Rejected(Interrupted)
    ensures var Probing(_, p, file) := s.ses.tasks[i].phase;
      var request := s.ses.tasks[i].request;
      Inv(if s.ses.destroyed then SetPhase(ResetIfDied(s, p), i, Settled(Failed(SessionDestroyed)))
          else if p >= |s.os.procs| || !IsLive(s.os.procs[p]) || file != s.ses.currentFile then
            SetPhase(ResetIfDied(s, p), i, Settled(Failed(StaleEnvelope)))
          else
            SetPhase(s.(t := StartCommand(s.t, i, User, p, request.awaitsTerminus, request.timeoutMs, s.os.now)),
                     i, Commanding(|s.t.operations|)))
  {
    hide Inv;
    var Probing(_, p, file) := s.ses.tasks[i].phase;
    if s.ses.destroyed {
      ResetReady(s, p, i);
      SettleKeeps(ResetIfDied(s, p), i, Failed(SessionDestroyed));
    } else if p >= |s.os.procs| || !IsLive(s.os.procs[p]) || file != s.ses.currentFile {
      ResetReady(s, p, i);
      SettleKeeps(ResetIfDied(s, p), i, Failed(StaleEnvelope));
    } else {
      StartUserCommandKeeps(s, i, p);
    }
  }

  lemma StartUserCommandKeeps(s: State, i: nat, p: nat)
    requires Inv(s) && Ready(s, i) && !s.ses.destroyed && p < |s.os.procs|
    requires s.ses.tasks[i].phase.Probing? && s.ses.tasks[i].request.UserCommand?
    requires s.ses.tasks[i].phase.probe.Some? ==>
      s.t.operations[s.ses.tasks[i].phase.probe.value].outcome != Rejected(Interrupted)
    ensures var request := s.ses.tasks[i].request;
      Inv(SetPhase(s.(t := StartCommand(s.t, i, User, p, request.awaitsTerminus, request.timeoutMs, s.os.now)),
                   i, Commanding(|s.t.operations|)))
  {
    var request := s.ses.tasks[i].request;
    ReadyIsAlone(s, i);
    StartCommandKeeps(s.t, i, User, p, request.awaitsTerminus, request.timeoutMs, s.os.now);
    StartOperationKeeps(s, i, StartCommand(s.t, i, User, p, request.awaitsTerminus, request.timeoutMs, s.os.now),
                        User, p, Commanding(|s.t.operations|));
  }

  /** The operation a task waits for is the one it asked for. */
  lemma WaitsForItsOwn(s: State, i: nat, k: nat)
    requires Inv(s) && i < |s.ses.tasks|
    requires s.ses.tasks[i].phase == Commanding(k) || s.ses.tasks[i].phase == Flushing(k)
    ensures k < |s.t.operations| && Serves(s.t.operations[k], i, s.ses.tasks[i].request)
  {
    assert Holds(s.t, i, s.ses.tasks[i]);
  }

  lemma ResumeCommandKeeps(s: State, i: nat, seen: bool)
    requires Inv(s) && Ready(s, i) && s.ses.tasks[i].phase.Commanding? && s.ses.tasks[i].request.UserCommand?
    ensures Inv(ResumeCommand(s, i, seen))
  {
    hide Inv;
    var k := s.ses.tasks[i].phase.op;
    WaitsForItsOwn(s, i, k);
    var op := s.t.operations[k];
    ResetReady(s, op.proc, i);
    var s1 := ResetIfDied(s, op.proc);
    match op.outcome {
      case Rejected(why) =>
        SettleKeeps(s1, i, Failed(TransportError(why)));
      case Resolved(responses, _, _) =>
        var ses2 := if NeedsVersion(s1) && s1.ses.tasks[i].request.showsVersion
          then s1.ses.(versionAttempts := s1.ses.versionAttempts + 1, versionKnown := seen)
          else s1.ses;
        assert Answers(s1.t.operations[k], i, s1.ses.tasks[i].request, responses);
        DeliverKeeps(s1, ses2, i, responses);
      case Pending =>
    }
  }

  lemma DeliverKeeps(s: State, ses': Session, i: nat, responses: seq<Response>)
    requires Inv(s) && Ready(s, i) && SameQueue(s.ses, ses') && ses'.proc == s.ses.proc
    requires Answered(s.t, i, s.ses.tasks[i].request, responses)
    ensures Inv(SetPhase(s.(ses := ses'), i, Settled(Delivered(responses))))
  {
    hide Inv;
    BookkeepingReady(s, ses', i);
    SettleKeeps(s.(ses := ses'), i, Delivered(responses));
  }

  lemma StartControlKeeps(s: State, i: nat)
    requires Inv(s) && Ready(s, i) && s.ses.tasks[i].phase.Queued? && s.ses.tasks[i].request.ControlCommand?
    ensures Inv(StartControl(s, i))
  {
    if s.ses.destroyed {
      SettleKeeps(s, i, Failed(SessionDestroyed));
    } else {
      EnsureProcessKeeps(s);
      var (s1, p) := EnsureProcess(s);
      var arm := s.ses.tasks[i].request.arm;
      StillReady(s, s1, i);
      var s2 := s1;
      if arm {
        var proc := s1.os.procs[p].(clearsEscalation := true);
        forall m | 0 <= m < |proc.graceTimers| ensures Termed(s1.os, p, proc.graceTimers[m]) {
          assert Termed(s1.os, p, s1.os.procs[p].graceTimers[m]);
        }
        FlagsKeep(s1.os, p, proc);
        s2 := s1.(os := s1.os.(procs := s1.os.procs[p := proc]));
        TransportStepKeeps(s1, s2);
        StillReady(s1, s2, i);
      }
      StartFlushStep(s2, i, p);
    }
  }

  lemma StartFlushStep(s: State, i: nat, p: nat)
    requires Inv(s) && Ready(s, i) && !s.ses.destroyed && p < |s.os.procs|
    requires s.ses.tasks[i].phase.Queued? && s.ses.tasks[i].request.ControlCommand?
    ensures Inv(SetPhase(s.(t := StartFlush(s.t, i, p, s.ses.tasks[i].request.arm, s.os.now)),
                         i, Flushing(|s.t.operations|)))
  {
    var arm := s.ses.tasks[i].request.arm;
    ReadyIsAlone(s, i);
    EmitErrorKeeps(s.t, Interrupted, s.os.now);
    StartFlushKeeps(s.t, i, p, arm, s.os.now);
    StartOperationKeeps(s, i, StartFlush(s.t, i, p, arm, s.os.now), Flush, p, Flushing(|s.t.operations|));
  }

  lemma ResumeFlushKeeps(s: State, i: nat)
    requires Inv(s) && Ready(s, i) && s.ses.tasks[i].phase.Flushing?
    ensures Inv(ResumeFlush(s, i))
  {
    hide Inv;
    var k := s.ses.tasks[i].phase.op;
    WaitsForItsOwn(s, i, k);
    match s.t.operations[k].outcome {
      case Resolved(responses, _, _) =>
        assert Answers(s.t.operations[k], i, s.ses.tasks[i].request, responses);
        SettleKeeps(s, i, Delivered(responses));
      case Rejected(why) =>
        SettleKeeps(s, i, Failed(TransportError(why)));
      case Pending =>
    }
  }

  lemma ProceedKeeps(s: State, i: nat, seen: bool)
    requires Inv(s)
    ensures Inv(ProceedTask(s, i, seen))
  {
    hide Inv;
    if Ready(s, i) {
      if s.ses.tasks[i].request.UserCommand? {
        match s.ses.tasks[i].phase {
          case Queued => StartUserKeeps(s, i);
          case Probing(_, _, _) => ResumeProbeKeeps(s, i, seen);
          case Commanding(_) => ResumeCommandKeeps(s, i, seen);
          case _ =>
        }
      } else {
        match s.ses.tasks[i].phase {
          case Queued => StartControlKeeps(s, i);
          case Flushing(_) => ResumeFlushKeeps(s, i);
          case _ =>
        }
      }
    }
  }

  /** Destroy settles the pending operation and cuts the chain. */
  lemma DestroyStep(s: State)
    requires Inv(s)
    ensures Inv(DestroySession(s))
  {
    if !s.ses.destroyed {
      var s' := DestroySession(s);
      DestroyTransportRefines(s);
      if s.ses.proc.Some? {
        var q := s.ses.proc.value;
        var proc := s.os.procs[q].(attached := false);
        forall m | 0 <= m < |proc.graceTimers| ensures Termed(s.os, q, proc.graceTimers[m]) {
          assert Termed(s.os, q, s.os.procs[q].graceTimers[m]);
        }
        FlagsKeep(s.os, q, proc);
        TerminateKeeps(Detach(s.os, q), q, Teardown);
      }
      OwnedStays(s.t, s'.t, s.ses);
      OrderedStays(s.t, s'.t);
      assert forall j :: 0 <= j < |s.ses.tasks| ==> Started(s'.ses, j) == Started(s.ses, j);
      assert forall j :: 0 <= j < |s.ses.tasks| ==> ControlAfter(s'.ses, j) == ControlAfter(s.ses, j);
    }
  }

  lemma DestroyTransportRefines(s: State)
    requires Inv(s)
    ensures TransportInv(DestroyTransport(s.t), s.os.now)
    ensures !AnyListening(DestroyTransport(s.t)) && OpsRefine(s.t, DestroyTransport(s.t))
    ensures DestroyTransport(s.t).controlEscalation.None?
  {
    DestroyKeeps(s.t, s.os.now);
    if k :| Listening(s.t, k) {
      var t0 := s.t.(idleTimer := false, controlEscalation := None, buffer := "", responseQueue := [],
                     collecting := false, currentCommandKind := NoCommand,
                     awaitGoalTerminus := false, inactivityOf := None);
      SettlesRefines(s.t, DestroyTransport(s.t), k);
      assert forall j :: Listening(t0, j) == Listening(s.t, j);
      EmitErrorIs(t0, 0, k, Destroyed, s.os.now);
    } else {
      NobodyListens(s.t);
      EmitErrorNone(s.t.(idleTimer := false, controlEscalation := None, buffer := "", responseQueue := [],
                         collecting := false, currentCommandKind := NoCommand,
                         awaitGoalTerminus := false, inactivityOf := None), 0, Destroyed);
    }
  }

  lemma NobodyListens(t: Transport)
    requires forall k :: !Listening(t, k)
    ensures !AnyListening(t)
    ensures forall j :: 0 <= j < |t.operations| ==> !t.operations[j].outcome.Pending?
  {
    forall j | 0 <= j < |t.operations| ensures !t.operations[j].outcome.Pending? {
      assert !Listening(t, j);
    }
  }

  // ── Runs ──────────────────────────────────────────────────────────────

  lemma QueueEventKeeps(s: State, e: Event, json: string -> Option<Response>)
    requires Inv(s)
    requires e.Enqueue? || e.IssueControl? || e.Proceed? || e.SetFile? || e.Destroy?
    ensures Inv(Next(s, e, json))
  {
    hide Inv;
    match e {
      case Enqueue(awaits, shows, timeoutMs) => DispatchCommandKeeps(s, awaits, shows, timeoutMs);
      case IssueControl(kind) => DispatchControlKeeps(s, kind);
      case Proceed(i, seen) => ProceedKeeps(s, i, seen);
      case SetFile(file) => BookkeepingKeeps(s, s.ses.(currentFile := file));
      case Destroy => DestroyStep(s);
    }
  }

  lemma ProcessEventKeeps(s: State, e: Event, json: string -> Option<Response>)
    requires Inv(s)
    requires e.Stdout? || e.Stderr? || e.ProcFailed? || e.ProcExited? || e.ProcClosed?
    ensures Inv(Next(s, e, json))
  {
    hide Inv;
    match e {
      case Stdout(p, chunk) => StdoutKeeps(s, chunk, json);
      case Stderr(p, text) => StderrKeeps(s, text);
      case ProcFailed(p) => InterruptKeeps(s, ProcessError);
      case ProcExited(p) => if p < |s.os.procs| { ExitStep(s, p); }
      case ProcClosed(p) => if p < |s.os.procs| { CloseStep(s, p); }
    }
  }

  lemma TimerEventKeeps(s: State, e: Event, json: string -> Option<Response>)
    requires Inv(s)
    requires e.IdleTimer? || e.FinishTimer? || e.InactivityTimer? || e.FlushTimer?
    ensures Inv(Next(s, e, json))
  {
    hide Inv;
    match e {
      case IdleTimer => if s.t.idleTimer { IdleTimerStep(s); }
      case FinishTimer(k, origin) =>
        if k < |s.t.operations| && Pended(s.t.operations[k], origin) > 0 { FinishTimerStep(s, k, origin); }
      case InactivityTimer(k) =>
        if Listening(s.t, k) && !s.t.operations[k].purpose.Flush? { TimeOutStep(s, k); }
      case FlushTimer(k) =>
        if Listening(s.t, k) && s.t.operations[k].purpose.Flush? { FlushTimerStep(s, k); }
    }
  }

  lemma ClockEventKeeps(s: State, e: Event, json: string -> Option<Response>)
    requires Inv(s)
    requires e.EscalationTimer? || e.GraceTimer? || e.Advance?
    ensures Inv(Next(s, e, json))
  {
    hide Inv;
    match e {
      case EscalationTimer =>
        if s.t.controlEscalation.Some? { EscalateStep(s, s.t.controlEscalation.value); }
      case GraceTimer(p, timer) =>
        if p < |s.os.procs| && timer < |s.os.procs[p].graceTimers|
          && s.os.procs[p].graceTimers[timer] <= s.os.now { GraceStep(s, p, timer); }
      case Advance(ms) => AdvanceStep(s, ms);
    }
  }

  lemma NextKeeps(s: State, e: Event, json: string -> Option<Response>)
    requires Inv(s)
    ensures Inv(Next(s, e, json))
  {
    hide Inv;
    if e.Enqueue? || e.IssueControl? || e.Proceed? || e.SetFile? || e.Destroy? {
      QueueEventKeeps(s, e, json);
    } else if e.Stdout? || e.Stderr? || e.ProcFailed? || e.ProcExited? || e.ProcClosed? {
      ProcessEventKeeps(s, e, json);
    } else if e.EscalationTimer? || e.GraceTimer? || e.Advance? {
      ClockEventKeeps(s, e, json);
    } else {
      TimerEventKeeps(s, e, json);
    }
  }

  lemma {:induction false} RunFromKeeps(s: State, events: seq<Event>, json: string -> Option<Response>)
    requires Inv(s)
    ensures Inv(RunFrom(s, events, json))
    decreases |events|
  {
    hide Inv;
    if events != [] {
      NextKeeps(s, events[0], json);
      RunFromKeeps(Next(s, events[0], json), events[1..], json);
    }
  }

  lemma RunKeeps(events: seq<Event>, json: string -> Option<Response>)
    ensures Inv(Run(events, json))
  {
    RunFromKeeps(INITIAL, events, json);
  }
}
