// What each event makes happen: the converse of the safety theorems.

/** Timers and teardown: which signal a due cause must send. */
module Kills {
  import opened Basics
  import opened Wire
  import opened TransportModel
  import opened TransportProofs
  import opened SessionModel
  import opened SessionProofs
  import opened SessionTheorems

  /** What being terminated does to process `p`: a live one gets a SIGTERM now and is no
      longer live; one that has not exited gets a SIGKILL timer of three seconds; one that
      has exited is left alone, and so are all others. */
  ghost predicate Terminated(os: Os, os': Os, p: nat, cause: Cause)
    requires p < |os.procs|
  {
    var proc := os.procs[p];
    && os'.now == os.now && |os'.procs| == |os.procs|
    && os'.signals == os.signals + (if proc.exited || proc.killed then [] else [Signal(p, false, os.now, cause)])
    && (proc.exited || os'.procs[p].killed)
    && os'.procs[p].graceTimers == proc.graceTimers + (if proc.exited then [] else [os.now + 3_000])
    && os'.procs[p].exited == proc.exited && os'.procs[p].closed == proc.closed
    && forall q :: 0 <= q < |os.procs| && q != p ==> os'.procs[q] == os.procs[q]
  }

  /** The escalation timer of flush `f`: five seconds after the flush it terminates the
      process the control command was written to, and before that it does nothing. */
  lemma UnansweredControlKills(events: seq<Event>, json: Json, f: nat)
    requires var s := Run(events, json);
      s.t.controlEscalation.Some? && s.t.controlEscalation.value.op == f
    ensures var s := Run(events, json);
      var s' := Next(s, EscalationTimer, json);
      && f < |s.t.operations| && s.t.operations[f].proc < |s.os.procs|
      && (if s.t.operations[f].startedAt + 5_000 <= s.os.now then
            && Terminated(s.os, s'.os, s.t.operations[f].proc, EscalationBudget(f))
            && s'.t == s.t.(controlEscalation := None) && s'.ses == s.ses
          else s' == s)
  {
    RunKeeps(events, json);
    hide Run;
    DueEscalationKills(Run(events, json), f, json);
  }

  lemma DueEscalationKills(s: State, f: nat, json: Json)
    requires Inv(s) && s.t.controlEscalation.Some? && s.t.controlEscalation.value.op == f
    ensures f < |s.t.operations| && s.t.operations[f].proc < |s.os.procs|
    ensures var s' := Next(s, EscalationTimer, json);
      if s.t.operations[f].startedAt + 5_000 <= s.os.now then
        && Terminated(s.os, s'.os, s.t.operations[f].proc, EscalationBudget(f))
        && s'.t == s.t.(controlEscalation := None) && s'.ses == s.ses
      else s' == s
  {
    assert EscalationWell(s.t);
  }

  /** A silent probe or user command: once nothing has been accepted for its whole
      time-out it is rejected and its process terminated, and before that nothing happens. */
  lemma SilentCommandKills(events: seq<Event>, json: Json, k: nat)
    requires var s := Run(events, json);
      Listening(s.t, k) && !s.t.operations[k].purpose.Flush?
    ensures var s := Run(events, json);
      var s' := Next(s, InactivityTimer(k), json);
      && s.t.operations[k].proc < |s.os.procs|
      && (if SilentFor(s, k, s.t.operations[k].timeoutMs) then
            && Terminated(s.os, s'.os, s.t.operations[k].proc, Inactivity(k))
            && s'.t.operations[k].outcome == Rejected(TimedOut)
            && !s'.t.collecting && s'.t.buffer == "" && s'.ses == s.ses
          else s' == s)
  {
    RunKeeps(events, json);
    var s := Run(events, json);
    assert PendingWell(s.t, k);
    assert Stamps(s.t, s.os.now);
    if s.t.operations[k].deadline <= s.os.now {
      DeadlineIsSilence(s, k);
    }
  }

  /** The first destroy terminates the session's process, if it has one, and abandons its
      listeners; any later one changes nothing. */
  lemma DestroyKills(events: seq<Event>, json: Json)
    ensures var s := Run(events, json);
      var s' := Next(s, Destroy, json);
      && (s.ses.destroyed ==> s' == s)
      && (!s.ses.destroyed ==> s'.ses.destroyed && s'.ses.proc.None?)
      && (!s.ses.destroyed && s.ses.proc.None? ==> s'.os == s.os)
      && (!s.ses.destroyed && s.ses.proc.Some? ==>
          && s.ses.proc.value < |s.os.procs|
          && Terminated(s.os, s'.os, s.ses.proc.value, Teardown)
          && !s'.os.procs[s.ses.proc.value].attached)
  {
    RunKeeps(events, json);
    hide Run, DestroyTransport;
  }

  /** A due SIGKILL timer kills a process that has not exited, and is used up. */
  lemma GraceForces(events: seq<Event>, json: Json, p: nat, timer: nat)
    requires var procs := Run(events, json).os.procs;
      p < |procs| && timer < |procs[p].graceTimers|
    ensures var s := Run(events, json);
      var s' := Next(s, GraceTimer(p, timer), json);
      var due := s.os.procs[p].graceTimers[timer];
      if due <= s.os.now then
        && s'.os.signals == s.os.signals + (if s.os.procs[p].exited then [] else [Signal(p, true, s.os.now, Grace)])
        && s'.os.procs == s.os.procs[p := s.os.procs[p].(graceTimers :=
             s.os.procs[p].graceTimers[..timer] + s.os.procs[p].graceTimers[timer + 1..])]
        && s'.t == s.t && s'.ses == s.ses && s'.os.now == s.os.now
      else s' == s
  {
  }

  /** Process `p` was never told to terminate, or it has exited, or it was killed by
      force, or its SIGKILL timer is pending, at most three seconds from now. */
  ghost predicate FollowedUp(os: Os, p: nat)
    requires p < |os.procs|
  {
    || !os.procs[p].killed
    || os.procs[p].exited
    || Forced(os, p)
    || exists m :: 0 <= m < |os.procs[p].graceTimers| && os.procs[p].graceTimers[m] <= os.now + 3_000
  }

  ghost predicate Forced(os: Os, p: nat) {
    exists j :: 0 <= j < |os.signals| && os.signals[j].proc == p && os.signals[j].force
  }

  ghost predicate AllFollowedUp(os: Os) {
    forall p :: 0 <= p < |os.procs| ==> FollowedUp(os, p)
  }

  /** Processes keep what `FollowedUp` looks at, and the signals only grow. */
  ghost predicate SameFates(os: Os, os': Os) {
    && |os.procs| <= |os'.procs| && os.signals <= os'.signals && os.now <= os'.now
    && (forall p :: 0 <= p < |os.procs| ==>
        && (os'.procs[p].exited || os'.procs[p].graceTimers == os.procs[p].graceTimers)
        && (os.procs[p].exited ==> os'.procs[p].exited)
        && os'.procs[p].killed == os.procs[p].killed)
    && (forall p :: |os.procs| <= p < |os'.procs| ==> !os'.procs[p].killed)
  }

  lemma SameFatesFollow(os: Os, os': Os)
    requires AllFollowedUp(os) && SameFates(os, os')
    ensures AllFollowedUp(os')
  {
    forall p | 0 <= p < |os'.procs| ensures FollowedUp(os', p) {
      if p < |os.procs| {
        assert FollowedUp(os, p);
        if j :| 0 <= j < |os.signals| && os.signals[j].proc == p && os.signals[j].force {
          assert os'.signals[j] == os.signals[j];
        }
      }
    }
  }

  lemma TerminateFollows(os: Os, p: nat, cause: Cause)
    requires AllFollowedUp(os) && p < |os.procs|
    ensures AllFollowedUp(Terminate(os, p, cause))
  {
    var os' := Terminate(os, p, cause);
    if !os.procs[p].exited {
      forall q | 0 <= q < |os'.procs| ensures FollowedUp(os', q) {
        assert FollowedUp(os, q);
        if q == p {
          var m := |os.procs[p].graceTimers|;
          assert os'.procs[p].graceTimers[m] == os.now + 3_000;
        } else if j :| 0 <= j < |os.signals| && os.signals[j].proc == q && os.signals[j].force {
          assert os'.signals[j] == os.signals[j];
        }
      }
    }
  }

  lemma ForceFollows(os: Os, p: nat, timer: nat)
    requires AllFollowedUp(os) && p < |os.procs| && timer < |os.procs[p].graceTimers|
    ensures AllFollowedUp(Force(os, p, timer))
  {
    var os' := Force(os, p, timer);
    forall q | 0 <= q < |os'.procs| ensures FollowedUp(os', q) {
      assert FollowedUp(os, q);
      if q == p && !os.procs[p].exited {
        assert os'.signals[|os.signals|] == Signal(p, true, os.now, Grace);
      } else if j :| 0 <= j < |os.signals| && os.signals[j].proc == q && os.signals[j].force {
        assert os'.signals[j] == os.signals[j];
      }
    }
  }

  lemma EnsureFollows(s: State)
    requires AllFollowedUp(s.os)
    ensures AllFollowedUp(EnsureProcess(s).0.os)
  {
    if !HasLiveProc(s) {
      var os1 := s.os;
      if s.ses.proc.Some? && s.ses.proc.value < |s.os.procs| {
        var q := s.ses.proc.value;
        SameFatesFollow(s.os, Detach(s.os, q));
        TerminateFollows(Detach(s.os, q), q, Respawn);
        os1 := Terminate(Detach(s.os, q), q, Respawn);
      }
      SameFatesFollow(os1, os1.(procs := os1.procs + [NEW_PROC]));
    }
  }

  lemma ProceedFollows(s: State, i: nat, seen: bool)
    requires AllFollowedUp(s.os)
    ensures AllFollowedUp(ProceedTask(s, i, seen).os)
  {
    hide AllFollowedUp, EnsureProcess, StartCommand, StartFlush, NeedsVersion, Ready;
    EnsureFollows(s);
    var os0, os1, os2 := s.os, EnsureProcess(s).0.os, ProceedTask(s, i, seen).os;
    if os2 != os0 { SameFatesFollow(os1, os2); }
  }

  lemma FollowedUpStep(s: State, e: Event, json: Json)
    requires Inv(s) && AllFollowedUp(s.os)
    ensures AllFollowedUp(Next(s, e, json).os)
  {
    hide Inv, AllFollowedUp, Terminate, Force, ProceedTask, DestroySession;
    hide HandleStdout, HandleStderr, EmitError, HandleProcessClose, InactivityFires;
    var s' := Next(s, e, json);
    match e {
      case Proceed(i, seen) => ProceedFollows(s, i, seen);
      case InactivityTimer(k) =>
        if Listening(s.t, k) && s.t.operations[k].proc < |s.os.procs| {
          TerminateFollows(s.os, s.t.operations[k].proc, Inactivity(k));
        }
      case EscalationTimer =>
        if s' != s && s.t.operations[s.t.controlEscalation.value.op].proc < |s.os.procs| {
          var f := s.t.controlEscalation.value.op;
          TerminateFollows(s.os, s.t.operations[f].proc, EscalationBudget(f));
        }
      case GraceTimer(p, timer) => if s' != s { ForceFollows(s.os, p, timer); }
      case Destroy => DestroyFollows(s);
      case _ => SameFatesFollow(s.os, s'.os);
    }
  }

  lemma DestroyFollows(s: State)
    requires Inv(s) && AllFollowedUp(s.os)
    ensures AllFollowedUp(DestroySession(s).os)
  {
    if !s.ses.destroyed && s.ses.proc.Some? {
      var p := s.ses.proc.value;
      SameFatesFollow(s.os, Detach(s.os, p));
      TerminateFollows(Detach(s.os, p), p, Teardown);
    }
  }

  /** No SIGTERM is left alone: in every run each process that got one has exited, was
      killed by force, or has a SIGKILL timer that is due within three seconds. */
  lemma EveryTermIsFollowedUp(events: seq<Event>, json: Json, p: nat)
    requires p < |Run(events, json).os.procs|
    ensures FollowedUp(Run(events, json).os, p)
  {
    FollowedUpRun(INITIAL, events, json);
  }

  lemma {:induction false} FollowedUpRun(s: State, events: seq<Event>, json: Json)
    requires Inv(s) && AllFollowedUp(s.os)
    ensures AllFollowedUp(RunFrom(s, events, json).os)
    decreases |events|
  {
    hide Inv, AllFollowedUp;
    if events != [] {
      FollowedUpStep(s, events[0], json);
      NextKeeps(s, events[0], json);
      FollowedUpRun(Next(s, events[0], json), events[1..], json);
    }
  }
}

/** What is heard, answered, written and settled, and when. */
module Reactions {
  import opened Basics
  import opened Wire
  import opened Terminus
  import opened StdoutLines
  import opened TransportModel
  import opened TransportProofs
  import opened SessionModel
  import opened SessionProofs
  import opened SessionTheorems
  import opened StaleFinishes
  import opened Chunking
  import Kills

  // ── Collecting ────────────────────────────────────────────────────────

  function NotEchoes(rs: seq<Response>): seq<Response> {
    if rs == [] then []
    else (if rs[0].DoneAborting? || rs[0].DoneExiting? then [] else [rs[0]]) + NotEchoes(rs[1..])
  }

  /** What a transport that collects for `kind` keeps of `rs`. */
  function Kept(t: Transport, rs: seq<Response>): seq<Response> {
    if !t.collecting then [] else if t.currentCommandKind.Regular? then NotEchoes(rs) else rs
  }

  /** The responses `rs` have been handed to the transport at `now`. */
  ghost predicate Took(t: Transport, t': Transport, rs: seq<Response>, now: nat) {
    && t'.parsed == t.parsed + rs
    && t'.controlEscalation == (if HasEcho(rs) then None else t.controlEscalation)
    && t'.accepted == t.accepted + Kept(t, rs)
    && |t'.acceptedAt| == |t.acceptedAt| + |Kept(t, rs)| && t.acceptedAt <= t'.acceptedAt
    && (forall i :: |t.acceptedAt| <= i < |t'.acceptedAt| ==> t'.acceptedAt[i] == now)
    && t'.collecting == t.collecting && t'.currentCommandKind == t.currentCommandKind
    && t'.awaitGoalTerminus == t.awaitGoalTerminus && t'.inactivityOf == t.inactivityOf
    && t'.buffer == t.buffer
    && (if Kept(t, rs) == [] then t'.idleTimer == t.idleTimer && t'.terminus == t.terminus
        else t'.idleTimer == (t.awaitGoalTerminus ==> t'.terminus.Reached()))
  }

  lemma NotEchoesOfConcat(a: seq<Response>, b: seq<Response>)
    ensures NotEchoes(a + b) == NotEchoes(a) + NotEchoes(b)
  {
    if a == [] {
      assert a + b == b;
    } else {
      assert (a + b)[1..] == a[1..] + b;
    }
  }

  lemma RecordTakes(t: Transport, r: Response, now: nat)
    ensures Took(t, Record(t, r, now), [r], now)
  {
    assert HasEcho([r]) <==> IsControlEcho([r][0]);
    assert NotEchoes([r]) == if IsControlEcho(r) then [] else [r];
    var t1 := t.(parsed := t.parsed + [r],
                 controlEscalation := if IsControlEcho(r) then None else t.controlEscalation);
    if t1.collecting && !(t1.currentCommandKind == Regular && IsControlEcho(r)) {
      AcceptsHolds(t1, r, now);
    }
  }

  lemma TookTwice(t: Transport, t1: Transport, t2: Transport, a: seq<Response>, b: seq<Response>, now: nat)
    requires Took(t, t1, a, now) && Took(t1, t2, b, now)
    ensures Took(t, t2, a + b, now)
  {
    hide HasEcho, NotEchoes;
    EchoOfConcat(a, b);
    NotEchoesOfConcat(a, b);
    assert Kept(t, a + b) == Kept(t, a) + Kept(t, b);
    assert Kept(t1, b) == Kept(t, b);
  }

  lemma {:induction false} RecordAllTakes(t: Transport, rs: seq<Response>, now: nat)
    ensures Took(t, RecordAll(t, rs, now), rs, now)
    decreases |rs|
  {
    if rs != [] {
      var t1 := Record(t, rs[0], now);
      RecordTakes(t, rs[0], now);
      RecordAllTakes(t1, rs[1..], now);
      assert rs == [rs[0]] + rs[1..];
      hide Took, Record;
      TookTwice(t, t1, RecordAll(t1, rs[1..], now), [rs[0]], rs[1..], now);
    }
  }

  lemma {:induction false} RecordAllConcat(t: Transport, a: seq<Response>, b: seq<Response>, now: nat)
    ensures RecordAll(t, a + b, now) == RecordAll(RecordAll(t, a, now), b, now)
    decreases |a|
  {
    hide Record;
    if a == [] {
      assert a + b == b;
    } else {
      assert (a + b)[1..] == a[1..] + b;
      RecordAllConcat(Record(t, a[0], now), a[1..], b, now);
    }
  }

  lemma {:induction false} RecordLinesFlat(t: Transport, lines: seq<string>, json: Json, now: nat)
    ensures RecordLines(t, lines, json, now) == RecordAll(t, Decoded(lines, json), now)
    decreases |lines|
  {
    hide DecodeLine, Record;
    if lines != [] {
      var rs := DecodeLine(lines[0], json);
      RecordLinesFlat(RecordAll(t, rs, now), lines[1..], json, now);
      RecordAllConcat(t, rs, Decoded(lines[1..], json), now);
    }
  }

  /** Stdout of an attached process is dropped while nothing collects and no escalation is
      armed; otherwise its lines, the unfinished one of before included, are handed over
      and the rest is kept. */
  lemma StdoutTakes(t: Transport, chunk: string, json: Json, now: nat)
    ensures var t' := HandleStdout(t, chunk, json, now);
      && (!t.collecting && t.controlEscalation.None? ==> t' == t)
      && (t.collecting || t.controlEscalation.Some? ==>
          && t'.buffer == Tail(t.buffer + chunk)
          && Took(t, t'.(buffer := t.buffer), Decoded(Lines(t.buffer + chunk), json), now))
  {
    hide Lines, Tail, RecordLines, RecordAll, Decoded;
    var lines := Lines(t.buffer + chunk);
    RecordLinesFlat(t, lines, json, now);
    RecordAllTakes(t, Decoded(lines, json), now);
  }

  // ── Looking up the process ────────────────────────────────────────────

  /** The session has a process that has neither exited nor been terminated. */
  predicate HasRunning(s: State) {
    && s.ses.proc.Some? && s.ses.proc.value < |s.os.procs|
    && !s.os.procs[s.ses.proc.value].exited && !s.os.procs[s.ses.proc.value].killed
  }

  function Abandoned(proc: Proc, now: nat): Proc {
    proc.(attached := false, graceTimers := proc.graceTimers + (if proc.exited then [] else [now + 3_000]))
  }

  /** The lookup of a body keeps a running process. Otherwise it abandons the old one,
      whose SIGKILL timer is renewed unless it has exited, and spawns a process that knows
      no file and no version. */
  ghost predicate LookedUp(s: State, s1: State, p: nat) {
    && s1.t == s.t && s1.os.signals == s.os.signals && s1.os.now == s.os.now
    && (if HasRunning(s) then s1 == s && s.ses.proc == Some(p)
        else
          && s1.ses == s.ses.(proc := Some(p), currentFile := None, versionKnown := false, versionAttempts := 0)
          && p == |s.os.procs| && |s1.os.procs| == p + 1
          && s1.os.procs[p] == Proc(false, false, false, true, false, [])
          && (forall q :: 0 <= q < p ==>
              s1.os.procs[q] == if s.ses.proc == Some(q) then Abandoned(s.os.procs[q], s.os.now) else s.os.procs[q]))
  }

  lemma EnsureLooksUp(s: State)
    requires Bounds(s)
    ensures LookedUp(s, EnsureProcess(s).0, EnsureProcess(s).1)
  {
    if !HasRunning(s) && s.ses.proc.Some? && s.os.procs[s.ses.proc.value].exited {
      var q := s.ses.proc.value;
      assert s.os.procs[q].graceTimers + [] == s.os.procs[q].graceTimers;
    }
  }

  // ── What a body writes ────────────────────────────────────────────────

  /** One operation of task `i` has been written to process `p`, on clean fields. */
  ghost predicate Wrote(t: Transport, t': Transport, i: nat, purpose: Purpose, p: nat,
                        awaits: bool, timeoutMs: nat, now: nat)
  {
    && t'.operations == t.operations + [Operation(i, purpose, p, awaits, timeoutMs, now, |t.accepted|,
         if purpose.Flush? then 0 else now + timeoutMs, 0, 0, Pending)]
    && t'.buffer == "" && t'.responseQueue == [] && t'.collecting && t'.idleTimer == t.idleTimer
    && t'.currentCommandKind == (if purpose.Flush? then Control else Regular)
    && t'.awaitGoalTerminus == awaits
    && t'.inactivityOf == (if purpose.Flush? then None else Some(|t.operations|))
    && t'.accepted == t.accepted && t'.acceptedAt == t.acceptedAt && t'.parsed == t.parsed
    && (!purpose.Flush? ==> t'.controlEscalation == t.controlEscalation)
  }

  lemma StartCommandWrites(t: Transport, i: nat, purpose: Purpose, p: nat, awaits: bool, timeoutMs: nat, now: nat)
    requires !purpose.Flush?
    ensures Wrote(t, StartCommand(t, i, purpose, p, awaits, timeoutMs, now), i, purpose, p, awaits, timeoutMs, now)
  {
  }

  /** A flush arms its escalation for five seconds on request, and drops any other. */
  lemma StartFlushWrites(t: Transport, i: nat, p: nat, arm: bool, now: nat)
    requires TransportInv(t, now) && !AnyListening(t)
    ensures var t' := StartFlush(t, i, p, arm, now);
      && Wrote(t, t', i, Flush, p, false, 0, now)
      && t'.controlEscalation == (if arm then Some(Escalation(|t.operations|, now + 5_000, |t.parsed|)) else None)
  {
    hide TransportInv;
    EmitErrorKeeps(t, Interrupted, now);
  }

  /** Task `i` has moved on, and nothing else of the session. */
  function Moved(ses: Session, i: nat, phase: Phase): Session
    requires i < |ses.tasks|
  {
    ses.(tasks := ses.tasks[i := ses.tasks[i].(phase := phase)])
  }

  /** The body of a user command. It is refused on a destroyed session, and when a control
      command was issued behind it; otherwise it looks up its process and probes for the
      version, on that process and for 15 seconds, exactly while the version is unknown
      after fewer than three attempts and the command does not ask for it itself. */
  lemma BodyOfACommand(s: State, i: nat, seen: bool, json: Json)
    requires Inv(s) && Ready(s, i) && s.ses.tasks[i].request.UserCommand? && s.ses.tasks[i].phase.Queued?
    ensures var s' := Next(s, Proceed(i, seen), json);
      var (s1, p) := EnsureProcess(s);
      && LookedUp(s, s1, p)
      && (s.ses.destroyed || ControlAfter(s.ses, i) ==>
          && s'.t == s.t && s'.os == s.os
          && s'.ses == Moved(s.ses, i, Settled(Failed(if s.ses.destroyed then SessionDestroyed else Cancelled))))
      && (!s.ses.destroyed && !ControlAfter(s.ses, i) ==>
          && s'.os == s1.os
          && (if !s1.ses.versionKnown && s1.ses.versionAttempts < 3 && !s.ses.tasks[i].request.showsVersion then
                && Wrote(s.t, s'.t, i, Probe, p, false, 15_000, s.os.now)
                && s'.ses == Moved(s1.ses.(versionAttempts := s1.ses.versionAttempts + 1), i,
                                   Probing(Some(|s.t.operations|), p, s1.ses.currentFile))
              else
                && s'.t == s.t
                && s'.ses == Moved(s1.ses, i, Probing(None, p, s1.ses.currentFile))))
  {
    EnsureLooksUp(s);
    assert ControlAfter(s.ses, i) <==> s.ses.tasks[i].request.serial <= s.ses.cancelledThrough;
    EnsureProcessKeepsQueue(s);
    hide Inv, EnsureProcess, ControlAfter;
  }

  /** The body of a control command: on a live session it looks up its process, writes its
      flush there, and arms the escalation exactly if the command was an exit or
      interrupted something; closing that process will then clear it. */
  lemma BodyOfAControl(s: State, i: nat, seen: bool, json: Json)
    requires Inv(s) && Ready(s, i) && s.ses.tasks[i].request.ControlCommand? && s.ses.tasks[i].phase.Queued?
    ensures var s' := Next(s, Proceed(i, seen), json);
      var (s1, p) := EnsureProcess(s);
      var request := s.ses.tasks[i].request;
      var arms := request.kind.Exit? || request.interrupted;
      && LookedUp(s, s1, p) && p < |s1.os.procs|
      && (s.ses.destroyed ==>
          s'.t == s.t && s'.os == s.os && s'.ses == Moved(s.ses, i, Settled(Failed(SessionDestroyed))))
      && (!s.ses.destroyed ==>
          && Wrote(s.t, s'.t, i, Flush, p, false, 0, s.os.now)
          && s'.t.controlEscalation ==
               (if arms then Some(Escalation(|s.t.operations|, s.os.now + 5_000, |s.t.parsed|)) else None)
          && s'.os == s1.os.(procs := s1.os.procs[p := s1.os.procs[p].(clearsEscalation :=
               s1.os.procs[p].clearsEscalation || arms)])
          && s'.ses == Moved(s1.ses, i, Flushing(|s.t.operations|)))
  {
    EnsureLooksUp(s);
    EnsureProcessKeepsQueue(s);
    if !s.ses.destroyed {
      ReadyIsAlone(s, i);
      StartFlushWrites(s.t, i, EnsureProcess(s).1, s.ses.tasks[i].request.arm, s.os.now);
    }
    assert s.ses.tasks[i].request.arm == (s.ses.tasks[i].request.kind.Exit? || s.ses.tasks[i].request.interrupted);
    hide Inv, EnsureProcess, StartFlush;
  }

  /** Behind the probe. An interrupted probe takes its command along; any other failure is
      swallowed. Then the command is refused if the session was destroyed, or its process
      is gone or its file replaced, and otherwise written to the process looked up. */
  lemma BehindTheProbe(s: State, i: nat, seen: bool, json: Json)
    requires Inv(s) && Ready(s, i) && s.ses.tasks[i].request.UserCommand? && s.ses.tasks[i].phase.Probing?
    ensures var s' := Next(s, Proceed(i, seen), json);
      var Probing(probe, p, file) := s.ses.tasks[i].phase;
      var request := s.ses.tasks[i].request;
      var stopped := probe.Some? && s.t.operations[probe.value].outcome == Rejected(Interrupted);
      var answered := probe.Some? && s.t.operations[probe.value].outcome.Resolved?;
      var gone := p >= |s.os.procs| || s.os.procs[p].exited || s.os.procs[p].killed;
      && s'.os == s.os
      && s'.ses.versionKnown == (s.ses.versionKnown || (seen && answered))
      && s'.ses == s.ses.(versionKnown := s'.ses.versionKnown, currentFile := s'.ses.currentFile, tasks := s'.ses.tasks)
      && (MayWrite(s, i) <==> !stopped && !s.ses.destroyed && !gone && file == s.ses.currentFile)
      && (MayWrite(s, i) ==>
          && s'.ses.currentFile == s.ses.currentFile
          && Wrote(s.t, s'.t, i, User, p, request.awaitsTerminus, request.timeoutMs, s.os.now)
          && s'.ses.tasks == Moved(s.ses, i, Commanding(|s.t.operations|)).tasks)
      && (!MayWrite(s, i) ==>
          && s'.t == s.t && s'.ses.currentFile == (if gone && p < |s.os.procs| then None else s.ses.currentFile)
          && s'.ses.tasks == Moved(s.ses, i, Settled(Failed(
               if stopped then TransportError(Interrupted)
               else if s.ses.destroyed then SessionDestroyed else StaleEnvelope))).tasks)
  {
    hide Inv, Wrote, StartCommand;
    var Probing(_, p, _) := s.ses.tasks[i].phase;
    var request := s.ses.tasks[i].request;
    StartCommandWrites(s.t, i, User, p, request.awaitsTerminus, request.timeoutMs, s.os.now);
  }

  /** A call settles with its operation: it delivers what the operation resolved to, and
      fails with what rejected it. A command whose process is gone takes the current file
      along, and one that asked for the version itself counts as an attempt. */
  lemma CallsAnswerTheirOperations(s: State, i: nat, seen: bool, json: Json)
    requires Inv(s) && Ready(s, i) && (s.ses.tasks[i].phase.Commanding? || s.ses.tasks[i].phase.Flushing?)
    ensures var s' := Next(s, Proceed(i, seen), json);
      var k := s.ses.tasks[i].phase.op;
      && k < |s.t.operations| && s.t.operations[k].task == i
      && s'.t == s.t && s'.os == s.os
      && (match s.t.operations[k].outcome
          case Resolved(rs, _, _) => s'.ses.tasks == Moved(s.ses, i, Settled(Delivered(rs))).tasks
          case Rejected(why) => s'.ses.tasks == Moved(s.ses, i, Settled(Failed(TransportError(why)))).tasks
          case Pending => false)
      && (var asked := s.ses.tasks[i].request.UserCommand? && s.ses.tasks[i].request.showsVersion
            && s.t.operations[k].outcome.Resolved? && !s.ses.versionKnown && s.ses.versionAttempts < 3;
          var p := s.t.operations[k].proc;
          var gone := s.ses.tasks[i].request.UserCommand? && p < |s.os.procs| && (s.os.procs[p].exited || s.os.procs[p].killed);
          s'.ses == s.ses.(tasks := s'.ses.tasks,
                           currentFile := if gone then None else s.ses.currentFile,
                           versionKnown := s.ses.versionKnown || (asked && seen),
                           versionAttempts := s.ses.versionAttempts + if asked then 1 else 0))
  {
    WaitsForItsOwn(s, i, s.ses.tasks[i].phase.op);
    hide Inv;
  }

  /** A task runs as soon as it can: a queued one once the call queued in front of it has
      settled, an active one once its operation has; a settled one never again. */
  lemma RunsWhenItCan(s: State, i: nat, seen: bool, json: Json)
    requires Inv(s) && i < |s.ses.tasks|
    ensures Ready(s, i) <==>
      match s.ses.tasks[i].phase
      case Queued => i == 0 || i == s.ses.chainStart || s.ses.tasks[i - 1].phase.Settled?
      case Probing(Some(k), _, _) => !Listening(s.t, k)
      case Probing(None, _, _) => true
      case Commanding(k) => !Listening(s.t, k)
      case Flushing(k) => !Listening(s.t, k)
      case Settled(_) => false
    ensures !Ready(s, i) ==> Next(s, Proceed(i, seen), json) == s
  {
    assert Holds(s.t, i, s.ses.tasks[i]);
  }

  /** Calls join the end of the queue: a user command with the next serial, a control
      command knowing whether anything was pending. */
  lemma CallsAreQueued(s: State, awaits: bool, shows: bool, timeoutMs: nat, kind: ControlKind, json: Json)
    requires Inv(s)
    ensures var s' := Next(s, Enqueue(awaits, shows, timeoutMs), json);
      var request := UserCommand(s.ses.commandSerial + 1, awaits, shows, timeoutMs);
      && s'.t == s.t && s'.os == s.os
      && s'.ses == Queue(s.ses, request).(commandSerial := s.ses.commandSerial + 1)
    ensures var s' := Next(s, IssueControl(kind), json);
      var request := ControlCommand(kind, AnyListening(s.t), kind.Exit? || AnyListening(s.t));
      && s'.os == s.os && !AnyListening(s'.t) && (!AnyListening(s.t) ==> s'.t == s.t)
      && s'.ses == Queue(s.ses, request).(cancelledThrough := s.ses.commandSerial)
  {
    hide Inv, AnyListening, EmitError;
    InterruptKeeps(s, Interrupted);
    QuietErrors(s, Interrupted);
    QueueEnds(s);
  }

  function Queue(ses: Session, request: Request): Session {
    var n := |ses.tasks|;
    ses.(tasks := ses.tasks + [Task(request, if n == 0 || n == ses.chainStart then None else Some(n - 1), Queued)],
         queueTail := Some(n))
  }

  lemma QueueEnds(s: State)
    requires Inv(s)
    ensures s.ses.chainStart <= |s.ses.tasks|
    ensures s.ses.queueTail == if |s.ses.tasks| == s.ses.chainStart then None else Some(|s.ses.tasks| - 1)
  {
  }

  lemma QuietErrors(s: State, why: Rejection)
    requires Inv(s)
    ensures !AnyListening(s.t) ==> EmitError(s.t, 0, why) == s.t
  {
    EmitErrorKeeps(s.t, why, s.os.now);
  }

  // ── The kind of the current command ───────────────────────────────────

  /** While a flush is pending the transport collects for a control command. */
  ghost predicate Kinded(t: Transport) {
    forall k: nat :: Listening(t, k) && t.operations[k].purpose.Flush? ==>
      t.currentCommandKind.Control? && !t.awaitGoalTerminus
  }

  /** The kind stays, or an operation of that kind has started. */
  ghost predicate KindStep(t: Transport, t': Transport) {
    || (t'.currentCommandKind == t.currentCommandKind && t'.awaitGoalTerminus == t.awaitGoalTerminus
        && |t'.operations| == |t.operations|)
    || (|t'.operations| == |t.operations| + 1
        && (t'.operations[|t.operations|].purpose.Flush? ==> t'.currentCommandKind.Control? && !t'.awaitGoalTerminus))
  }

  lemma KindStepKeeps(t: Transport, t': Transport)
    requires Kinded(t) && KindStep(t, t') && Evolves(t, t') && OnlyLastPending(t')
    ensures Kinded(t')
  {
    forall k: nat | Listening(t', k) && t'.operations[k].purpose.Flush?
      ensures t'.currentCommandKind.Control? && !t'.awaitGoalTerminus
    {
      if k < |t.operations| {
        assert SameIdentity(t.operations[k], t'.operations[k]);
        assert Listening(t, k);
      }
    }
  }

  ghost predicate SameLogs(t: Transport, t': Transport) {
    t'.accepted == t.accepted && t'.acceptedAt == t.acceptedAt && t'.parsed == t.parsed
  }

  lemma {:induction false} ErrorsKeepKind(t: Transport, k: nat, why: Rejection)
    requires k <= |t.operations|
    ensures var t' := EmitError(t, k, why);
      && t'.currentCommandKind == t.currentCommandKind && t'.awaitGoalTerminus == t.awaitGoalTerminus
      && t'.controlEscalation == t.controlEscalation && SameLogs(t, t')
    decreases |t.operations| - k
  {
    if k < |t.operations| {
      ErrorsKeepKind(OnError(t, k, why), k + 1, why);
    }
  }

  /** Running a task either leaves the transport alone or writes one operation. */
  lemma ProceedWrites(s: State, i: nat, seen: bool, json: Json)
    requires Inv(s)
    ensures var t' := Next(s, Proceed(i, seen), json).t;
      || t' == s.t
      || (exists purpose, p, awaits, timeoutMs :: Wrote(s.t, t', i, purpose, p, awaits, timeoutMs, s.os.now)
            && (purpose.Flush? ==> !awaits))
  {
    hide Inv, ProceedTask, Wrote, LookedUp, MayWrite, ControlAfter;
    if Ready(s, i) {
      var t' := Next(s, Proceed(i, seen), json).t;
      var task := s.ses.tasks[i];
      if task.phase.Commanding? || task.phase.Flushing? {
        CallsAnswerTheirOperations(s, i, seen, json);
      } else if task.request.ControlCommand? && task.phase.Queued? {
        BodyOfAControl(s, i, seen, json);
        assert t' == s.t || Wrote(s.t, t', i, Flush, EnsureProcess(s).1, false, 0, s.os.now);
      } else if task.request.UserCommand? && task.phase.Queued? {
        BodyOfACommand(s, i, seen, json);
        assert t' == s.t || Wrote(s.t, t', i, Probe, EnsureProcess(s).1, false, 15_000, s.os.now);
      } else if task.request.UserCommand? {
        BehindTheProbe(s, i, seen, json);
        assert t' == s.t || Wrote(s.t, t', i, User, task.phase.proc, task.request.awaitsTerminus, task.request.timeoutMs, s.os.now);
      } else {
        OtherwiseIdle(s, i, seen);
      }
    } else {
      NotReadyIdle(s, i, seen);
    }
  }

  lemma NotReadyIdle(s: State, i: nat, seen: bool)
    requires !Ready(s, i)
    ensures ProceedTask(s, i, seen) == s
  {
  }

  lemma OtherwiseIdle(s: State, i: nat, seen: bool)
    requires Ready(s, i) && s.ses.tasks[i].request.ControlCommand? && s.ses.tasks[i].phase.Probing?
    ensures ProceedTask(s, i, seen) == s
  {
  }

  lemma KindOfStep(s: State, e: Event, json: Json)
    requires Inv(s) && Kinded(s.t)
    ensures Kinded(Next(s, e, json).t)
  {
    hide Inv, Kinded, HandleStdout, EmitError, Terminate, ProceedTask, DestroySession, HandleStderr, Took, Evolves;
    var s' := Next(s, e, json);
    OperationsEvolve(s, e, json);
    NextKeeps(s, e, json);
    OneListens(s');
    match e {
      case Proceed(i, seen) => ProceedWrites(s, i, seen, json);
      case Stdout(p, chunk) => StreamKind(s, e, json);
      case Stderr(p, text) => StreamKind(s, e, json);
      case ProcFailed(p) => ErrorsKeepKind(s.t, 0, ProcessError);
      case IssueControl(kind) => ErrorsKeepKind(s.t, 0, Interrupted);
      case Destroy => DestroyIsDeaf(s); return;
      case _ =>
    }
    KindStepKeeps(s.t, s'.t);
  }

  lemma StreamKind(s: State, e: Event, json: Json)
    requires Inv(s) && (e.Stdout? || e.Stderr?)
    ensures KindStep(s.t, Next(s, e, json).t)
  {
    hide HandleStdout, HandleStderr;
    DestroyedStream(s, e, json);
    if e.Stdout? { StdoutTakes(s.t, e.chunk, json, s.os.now); } else { StderrTakes(s.t, e.text, s.os.now); }
  }

  lemma DestroyIsDeaf(s: State)
    requires Inv(s) && Kinded(s.t)
    ensures Kinded(DestroySession(s).t)
  {
    hide DestroyTransport;
    DestroyTransportRefines(s);
    assert forall k :: Listening(DestroyTransport(s.t), k) ==> AnyListening(DestroyTransport(s.t));
  }

  lemma StderrTakes(t: Transport, text: string, now: nat)
    ensures Took(t, HandleStderr(t, text, now), if t.collecting then [StderrOutput(text)] else [], now)
  {
    if t.collecting {
      RecordTakes(t, StderrOutput(text), now);
    }
  }

  lemma {:induction false} KindOfRun(s: State, events: seq<Event>, json: Json)
    requires Inv(s) && Kinded(s.t)
    ensures Kinded(RunFrom(s, events, json).t)
    decreases |events|
  {
    hide Inv, Kinded;
    if events != [] {
      KindOfStep(s, events[0], json);
      NextKeeps(s, events[0], json);
      KindOfRun(Next(s, events[0], json), events[1..], json);
    }
  }

  lemma ReachedWell(events: seq<Event>, json: Json)
    ensures Inv(Run(events, json)) && Kinded(Run(events, json).t)
  {
    RunKeeps(events, json);
    KindOfRun(INITIAL, events, json);
  }

  // ── What is heard ─────────────────────────────────────────────────────

  /** What operation `k` collects of `rs`: a flush everything, any other no echoes. */
  function Collected(op: Operation, rs: seq<Response>): seq<Response> {
    if op.purpose.Flush? then rs else NotEchoes(rs)
  }

  /** In every run, a chunk of stdout counts if its process is attached and not closed and
      something collects or an escalation is armed. Then the responses on its complete
      lines, the unfinished one of before included, are parsed, the pending operation
      collects them while the transport collects, and completion on idle is possible
      exactly if a load among them has its goal terminus. */
  lemma ChunksAreCollected(events: seq<Event>, json: Json, p: nat, chunk: string, k: nat)
    requires Listening(Run(events, json).t, k)
    ensures var s := Run(events, json);
      var s' := Next(s, Stdout(p, chunk), json);
      var rs := Decoded(Lines(s.t.buffer + chunk), json);
      var attached := p < |s.os.procs| && s.os.procs[p].attached && !s.os.procs[p].closed;
      && (!attached || (!s.t.collecting && s.t.controlEscalation.None?) ==> s' == s)
      && (attached && (s.t.collecting || s.t.controlEscalation.Some?) ==>
          && s'.os == s.os && s'.ses == s.ses
          && s'.t.buffer == Tail(s.t.buffer + chunk) && s'.t.parsed == s.t.parsed + rs
          && CollectedInTime(s, s', k, rs))
  {
    hide Run, Inv, Kinded, CollectedInTime;
    ReachedWell(events, json);
    var s := Run(events, json);
    if Heard(s, p) && Hears(s.t) {
      ChunkIsCollected(s, p, chunk, k, json);
    }
  }

  ghost predicate CollectedInTime(s: State, s': State, k: nat, rs: seq<Response>)
    requires k < |s.t.operations|
  {
    var op := s.t.operations[k];
    var mine := if s.t.collecting then Collected(op, rs) else [];
    && s'.t.accepted == s.t.accepted + mine
    && |s'.t.acceptedAt| == |s'.t.accepted| && s.t.acceptedAt <= s'.t.acceptedAt
    && (forall i :: |s.t.accepted| <= i < |s'.t.accepted| ==> s'.t.acceptedAt[i] == s.os.now)
    && op.since <= |s'.t.accepted|
    && s'.t.idleTimer == (if mine == [] then s.t.idleTimer
                          else op.awaitsTerminus ==> TerminusSeen(s'.t.accepted[op.since..]))
  }

  lemma ChunkIsCollected(s: State, p: nat, chunk: string, k: nat, json: Json)
    requires Inv(s) && Kinded(s.t) && Listening(s.t, k) && Heard(s, p) && Hears(s.t)
    ensures var s' := Next(s, Stdout(p, chunk), json);
      var rs := Decoded(Lines(s.t.buffer + chunk), json);
      && s'.os == s.os && s'.ses == s.ses
      && s'.t.buffer == Tail(s.t.buffer + chunk) && s'.t.parsed == s.t.parsed + rs
      && CollectedInTime(s, s', k, rs)
  {
    hide Inv, Kinded, Decoded, Lines, Tail, HandleStdout, CollectedInTime, Took;
    var s' := Next(s, Stdout(p, chunk), json);
    StdoutKeeps(s, chunk, json);
    StdoutTakes(s.t, chunk, json, s.os.now);
    SameOutcomes(s, chunk, json);
    IdleIsTerminus(s, s', k);
    PendingKind(s, k);
    TookIsCollected(s, s', k, Decoded(Lines(s.t.buffer + chunk), json));
    assert s'.t.parsed == s'.t.(buffer := s.t.buffer).parsed;
    TookParses(s.t, s'.t.(buffer := s.t.buffer), Decoded(Lines(s.t.buffer + chunk), json), s.os.now);
  }

  lemma SameOutcomes(s: State, chunk: string, json: Json)
    requires Inv(s)
    ensures SameOperations(s.t, HandleStdout(s.t, chunk, json, s.os.now))
  {
    HandleStdoutKeeps(s.t, chunk, json, s.os.now);
  }

  lemma TookParses(t: Transport, t': Transport, rs: seq<Response>, now: nat)
    requires Took(t, t', rs, now)
    ensures t'.parsed == t.parsed + rs
  {
  }

  lemma TookIsCollected(s: State, s': State, k: nat, rs: seq<Response>)
    requires k < |s.t.operations|
    requires Took(s.t, s'.t.(buffer := s.t.buffer), rs, s.os.now)
    requires s.t.currentCommandKind.Regular? <==> !s.t.operations[k].purpose.Flush?
    requires s.t.awaitGoalTerminus == s.t.operations[k].awaitsTerminus
    requires |s.t.acceptedAt| == |s.t.accepted| && s.t.operations[k].since <= |s.t.accepted|
    requires s.t.operations[k].since <= |s'.t.accepted|
    requires s.t.operations[k].awaitsTerminus ==>
      (s'.t.terminus.Reached() <==> TerminusSeen(s'.t.accepted[s.t.operations[k].since..]))
    ensures CollectedInTime(s, s', k, rs)
  {
    hide HasEcho, NotEchoes, TerminusSeen;
  }

  /** The pending operation fixes the kind the transport collects for. */
  lemma PendingKind(s: State, k: nat)
    requires Inv(s) && Kinded(s.t) && Listening(s.t, k)
    ensures s.t.currentCommandKind.Regular? <==> !s.t.operations[k].purpose.Flush?
    ensures s.t.awaitGoalTerminus == s.t.operations[k].awaitsTerminus
    ensures |s.t.acceptedAt| == |s.t.accepted| && s.t.operations[k].since <= |s.t.accepted|
  {
    assert PendingWell(s.t, k);
  }

  lemma IdleIsTerminus(s: State, s': State, k: nat)
    requires Inv(s) && Inv(s') && Listening(s.t, k) && OpsRefine(s.t, s'.t)
    requires forall j :: 0 <= j < |s.t.operations| ==> s'.t.operations[j].outcome == s.t.operations[j].outcome
    ensures s.t.operations[k].since <= |s'.t.accepted|
    ensures s.t.operations[k].awaitsTerminus ==>
      (s'.t.terminus.Reached() <==> TerminusSeen(s'.t.accepted[s.t.operations[k].since..]))
  {
    assert SameIdentity(s.t.operations[k], s'.t.operations[k]);
    assert Listening(s'.t, k) && PendingWell(s'.t, k);
    if s.t.operations[k].awaitsTerminus {
      TracksReached(s'.t.terminus, s'.t.responseQueue);
    }
  }

  /** Stderr counts only while a command is collecting, as one response. */
  lemma StderrIsCollected(events: seq<Event>, json: Json, p: nat, text: string, k: nat)
    requires Listening(Run(events, json).t, k)
    ensures var s := Run(events, json);
      var s' := Next(s, Stderr(p, text), json);
      var rs := [StderrOutput(text)];
      if p < |s.os.procs| && s.os.procs[p].attached && !s.os.procs[p].closed && s.t.collecting then
        && s'.os == s.os && s'.ses == s.ses && s'.t.buffer == s.t.buffer
        && s'.t.parsed == s.t.parsed + rs && CollectedInTime(s, s', k, rs)
      else s' == s
  {
    hide Run, Inv, Kinded, CollectedInTime;
    ReachedWell(events, json);
    var s := Run(events, json);
    if Heard(s, p) && s.t.collecting {
      StderrCounts(s, p, text, k, json);
    }
  }

  lemma StderrCounts(s: State, p: nat, text: string, k: nat, json: Json)
    requires Inv(s) && Kinded(s.t) && Listening(s.t, k) && Heard(s, p) && s.t.collecting
    ensures var s' := Next(s, Stderr(p, text), json);
      var rs := [StderrOutput(text)];
      && s'.os == s.os && s'.ses == s.ses && s'.t.buffer == s.t.buffer
      && s'.t.parsed == s.t.parsed + rs && CollectedInTime(s, s', k, rs)
  {
    hide Inv, Kinded, HandleStderr, CollectedInTime, Took;
    var s' := Next(s, Stderr(p, text), json);
    var rs := [StderrOutput(text)];
    StderrKeeps(s, text);
    StderrTakes(s.t, text, s.os.now);
    StderrSameOutcomes(s, text);
    IdleIsTerminus(s, s', k);
    PendingKind(s, k);
    TookParses(s.t, s'.t, rs, s.os.now);
    StderrBuffer(s.t, text, s.os.now);
    assert s'.t.(buffer := s.t.buffer) == s'.t;
    TookIsCollected(s, s', k, rs);
  }

  lemma StderrBuffer(t: Transport, text: string, now: nat)
    ensures HandleStderr(t, text, now).buffer == t.buffer
  {
  }

  lemma StderrSameOutcomes(s: State, text: string)
    requires Inv(s)
    ensures SameOperations(s.t, HandleStderr(s.t, text, s.os.now))
  {
    if s.t.collecting { RecordKeeps(s.t, StderrOutput(text), s.os.now); }
  }

  // ── How an operation ends ─────────────────────────────────────────────

  /** What the event makes of pending operation `k`: a flush never fails, any other
      resolves only through its trailing finish. A result is what was accepted since the
      operation started. */
  ghost function Ending(s: State, e: Event, k: nat): Outcome
    requires k < |s.t.operations| && s.t.operations[k].since <= |s.t.accepted|
  {
    var op := s.t.operations[k];
    var result := s.t.accepted[op.since..];
    var n := |s.t.accepted|;
    match e
    case FinishTimer(j, origin) =>
      if j != k || (if origin.Idle? then op.idleFinishes else op.closeFinishes) == 0 then Pending
      else Resolved(result, if origin.Idle? then ByIdle else ByProcessClose, n)
    case InactivityTimer(j) =>
      if j == k && !op.purpose.Flush? && SilentFor(s, k, op.timeoutMs) then Rejected(TimedOut) else Pending
    case FlushTimer(j) =>
      if j == k && op.purpose.Flush? then Resolved(result, ByFlushWindow, n) else Pending
    case IssueControl(_) =>
      if op.purpose.Flush? then Resolved(result, ByError, n) else Rejected(Interrupted)
    case ProcFailed(p) =>
      if p >= |s.os.procs| || !s.os.procs[p].attached || s.os.procs[p].closed then Pending
      else if op.purpose.Flush? then Resolved(result, ByError, n) else Rejected(ProcessError)
    case Destroy =>
      if op.purpose.Flush? then Resolved([], ByError, n) else Rejected(Destroyed)
    case _ => Pending
  }

  /** In every run, this is how each pending operation goes on at each event. */
  lemma OperationsEndExactly(events: seq<Event>, e: Event, json: Json, k: nat)
    requires Listening(Run(events, json).t, k)
    ensures var s := Run(events, json);
      && s.t.operations[k].since <= |s.t.accepted|
      && k < |Next(s, e, json).t.operations|
      && Next(s, e, json).t.operations[k].outcome == Ending(s, e, k)
  {
    RunKeeps(events, json);
    var s := Run(events, json);
    hide Run;
    EndsSo(s, e, json, k);
  }

  lemma QueueIsSlice(s: State, k: nat)
    requires Inv(s) && Listening(s.t, k)
    ensures s.t.operations[k].since <= |s.t.accepted|
    ensures s.t.responseQueue == s.t.accepted[s.t.operations[k].since..]
    ensures !s.ses.destroyed
    ensures !s.t.operations[k].purpose.Flush? ==>
      (s.t.operations[k].deadline <= s.os.now <==> SilentFor(s, k, s.t.operations[k].timeoutMs))
    ensures s.t.operations[k].purpose.Flush? ==>
      s.t.operations[k].idleFinishes == 0 && s.t.operations[k].closeFinishes == 0
  {
    assert PendingWell(s.t, k);
    assert Stamps(s.t, s.os.now);
    if IsRegular(s.t.operations[k]) && s.t.operations[k].deadline <= s.os.now {
      DeadlineIsSilence(s, k);
    }
  }

  lemma EndsSo(s: State, e: Event, json: Json, k: nat)
    requires Inv(s) && Listening(s.t, k)
    ensures s.t.operations[k].since <= |s.t.accepted| && k < |Next(s, e, json).t.operations|
    ensures Next(s, e, json).t.operations[k].outcome == Ending(s, e, k)
  {
    hide Inv, HandleStdout, HandleStderr, EmitError, ProceedTask, DestroySession, Terminate, SilentFor;
    hide InactivityFires, FinishTimerFires, IdleTimerFires, HandleProcessClose, Settle;
    QueueIsSlice(s, k);
    match e {
      case Stdout(p, chunk) => SameOutcomes(s, chunk, json);
      case Stderr(p, text) => StderrSameOutcomes(s, text);
      case Proceed(i, seen) => BusyProceed(s, i, seen, k);
      case IssueControl(kind) => ErrorEnds(s, k, Interrupted);
      case ProcFailed(p) => ErrorEnds(s, k, ProcessError);
      case Destroy => DestroyEnds(s, k);
      case _ =>
        if e.FinishTimer? || e.InactivityTimer? || e.FlushTimer? { TimerEnds(s, e, json, k); } else { OthersEndNone(s, e, json, k); }
    }
  }

  lemma OthersEndNone(s: State, e: Event, json: Json, k: nat)
    requires Inv(s) && Listening(s.t, k)
    requires !(e.Stdout? || e.Stderr? || e.Proceed? || e.IssueControl? || e.ProcFailed? || e.Destroy?)
    requires !(e.FinishTimer? || e.InactivityTimer? || e.FlushTimer?)
    ensures s.t.operations[k].since <= |s.t.accepted| && k < |Next(s, e, json).t.operations|
    ensures Next(s, e, json).t.operations[k].outcome == Ending(s, e, k)
  {
    hide Inv, HandleStdout, HandleStderr, EmitError, ProceedTask, DestroySession, Terminate, SilentFor;
    QueueIsSlice(s, k);
  }

  lemma TimerEnds(s: State, e: Event, json: Json, k: nat)
    requires Inv(s) && Listening(s.t, k)
    requires e.FinishTimer? || e.InactivityTimer? || e.FlushTimer?
    ensures s.t.operations[k].since <= |s.t.accepted| && k < |Next(s, e, json).t.operations|
    ensures Next(s, e, json).t.operations[k].outcome == Ending(s, e, k)
  {
    hide Inv, HandleStdout, HandleStderr, EmitError, ProceedTask, DestroySession, Terminate, SilentFor;
    QueueIsSlice(s, k);
  }

  lemma ErrorEnds(s: State, k: nat, why: Rejection)
    requires Inv(s) && Listening(s.t, k)
    ensures AnyListening(s.t)
    ensures var t' := EmitError(s.t, 0, why);
      t'.operations[k].outcome ==
        if s.t.operations[k].purpose.Flush? then Resolved(s.t.responseQueue, ByError, |s.t.accepted|)
        else Rejected(why)
  {
    EmitErrorKeeps(s.t, why, s.os.now);
  }

  lemma DestroyEnds(s: State, k: nat)
    requires Inv(s) && Listening(s.t, k) && !s.ses.destroyed
    ensures k < |DestroySession(s).t.operations|
    ensures DestroySession(s).t.operations[k].outcome ==
      if s.t.operations[k].purpose.Flush? then Resolved([], ByError, |s.t.accepted|) else Rejected(Destroyed)
  {
    var t0 := s.t.(idleTimer := false, controlEscalation := None, buffer := "", responseQueue := [],
                   collecting := false, currentCommandKind := NoCommand,
                   awaitGoalTerminus := false, inactivityOf := None);
    assert forall j :: Listening(t0, j) == Listening(s.t, j);
    EmitErrorIs(t0, 0, k, Destroyed, s.os.now);
  }

  // ── The life of an escalation ─────────────────────────────────────────

  /** The events that end an armed escalation: its own timer, a destroy, the close of a
      process that an armed flush was written to, an echo on stdout, or a newer flush. */
  ghost predicate Disarms(s: State, e: Event, json: Json) {
    match e
    case EscalationTimer =>
      s.t.controlEscalation.Some? && s.t.controlEscalation.value.deadline <= s.os.now
    case Destroy => !s.ses.destroyed
    case ProcClosed(p) =>
      p < |s.os.procs| && s.os.procs[p].exited && !s.os.procs[p].closed && s.os.procs[p].clearsEscalation
    case Stdout(p, chunk) =>
      p < |s.os.procs| && s.os.procs[p].attached && !s.os.procs[p].closed
        && exists r :: r in Decoded(Lines(s.t.buffer + chunk), json) && (r.DoneAborting? || r.DoneExiting?)
    case Proceed(i, _) =>
      Ready(s, i) && !s.ses.destroyed && s.ses.tasks[i].request.ControlCommand? && s.ses.tasks[i].phase.Queued?
    case _ => false
  }

  ghost predicate Disarmed(s: State, events: seq<Event>, json: Json)
    decreases |events|
  {
    events != [] && (Disarms(s, events[0], json) || Disarmed(Next(s, events[0], json), events[1..], json))
  }

  /** An armed escalation stays as it is until one of these events, and ends there; only
      a flush arms another. */
  lemma EscalationStep(s: State, e: Event, json: Json)
    requires Inv(s)
    ensures var esc := Next(s, e, json).t.controlEscalation;
      if !Disarms(s, e, json) then esc == s.t.controlEscalation
      else esc.None? || (e.Proceed? && esc.value.op == |s.t.operations|)
  {
    hide Inv, HandleStdout, HandleStderr, EmitError, ProceedTask, Terminate, Lines, Decoded, Ready;
    hide InactivityFires, FinishTimerFires, IdleTimerFires, HandleProcessClose, Settle, DestroyTransport;
    match e {
      case Stdout(p, chunk) => EchoDisarms(s, p, chunk, json);
      case Stderr(p, text) => StderrTakes(s.t, text, s.os.now);
      case IssueControl(kind) => ErrorsKeepKind(s.t, 0, Interrupted);
      case ProcFailed(p) => ErrorsKeepKind(s.t, 0, ProcessError);
      case Proceed(i, seen) => ProceedEscalation(s, i, seen, json);
      case Destroy => DestroyTransportRefines(s);
      case _ => TimerEscalation(s, e, json);
    }
  }

  lemma TimerEscalation(s: State, e: Event, json: Json)
    requires Inv(s)
    requires !(e.Stdout? || e.Stderr? || e.Proceed? || e.IssueControl? || e.ProcFailed? || e.Destroy?)
    ensures var esc := Next(s, e, json).t.controlEscalation;
      if !Disarms(s, e, json) then esc == s.t.controlEscalation else esc.None?
  {
    assert EscalationWell(s.t);
    hide Inv, HandleStdout, HandleStderr, EmitError, ProceedTask, DestroySession, Terminate;
  }

  lemma EchoDisarms(s: State, p: nat, chunk: string, json: Json)
    ensures var esc := Next(s, Stdout(p, chunk), json).t.controlEscalation;
      if !Disarms(s, Stdout(p, chunk), json) then esc == s.t.controlEscalation else esc.None?
  {
    hide HandleStdout, Lines, Decoded;
    StdoutTakes(s.t, chunk, json, s.os.now);
    var rs := Decoded(Lines(s.t.buffer + chunk), json);
    assert HasEcho(rs) <==> exists r :: r in rs && IsControlEcho(r);
    var t' := HandleStdout(s.t, chunk, json, s.os.now);
    assert t'.controlEscalation == t'.(buffer := s.t.buffer).controlEscalation;
  }

  lemma ProceedEscalation(s: State, i: nat, seen: bool, json: Json)
    requires Inv(s)
    ensures var esc := Next(s, Proceed(i, seen), json).t.controlEscalation;
      if !Disarms(s, Proceed(i, seen), json) then esc == s.t.controlEscalation
      else esc.None? || esc.value.op == |s.t.operations|
  {
    hide Inv, ProceedTask, LookedUp, MayWrite, ControlAfter, EnsureProcess;
    if Ready(s, i) {
      var task := s.ses.tasks[i];
      if task.phase.Commanding? || task.phase.Flushing? {
        CallsAnswerTheirOperations(s, i, seen, json);
      } else if task.request.ControlCommand? && task.phase.Queued? {
        BodyOfAControl(s, i, seen, json);
      } else if task.request.UserCommand? && task.phase.Queued? {
        BodyOfACommand(s, i, seen, json);
      } else if task.request.UserCommand? {
        BehindTheProbe(s, i, seen, json);
      } else {
        OtherwiseIdle(s, i, seen);
      }
    } else {
      NotReadyIdle(s, i, seen);
    }
  }

  /** Along any run an escalation is still armed exactly if nothing has disarmed it. */
  lemma {:induction false} ArmedUntilDisarmed(s: State, events: seq<Event>, json: Json, e: Escalation)
    requires Inv(s) && s.t.controlEscalation == Some(e)
    ensures RunFrom(s, events, json).t.controlEscalation == Some(e) <==> !Disarmed(s, events, json)
    decreases |events|
  {
    hide Inv, Disarms;
    ArmedBelow(s, e);
    if events != [] {
      var s1 := Next(s, events[0], json);
      NextKeeps(s, events[0], json);
      EscalationStep(s, events[0], json);
      OperationsEvolve(s, events[0], json);
      if Disarms(s, events[0], json) {
        NeverAgain(s1, events[1..], json, e);
      } else {
        ArmedUntilDisarmed(s1, events[1..], json, e);
      }
    }
  }

  lemma ArmedBelow(s: State, e: Escalation)
    requires Inv(s) && s.t.controlEscalation == Some(e)
    ensures e.op < |s.t.operations|
  {
    assert EscalationWell(s.t);
  }

  lemma {:induction false} NeverAgain(s: State, events: seq<Event>, json: Json, e: Escalation)
    requires Inv(s) && e.op < |s.t.operations|
    requires s.t.controlEscalation.Some? ==> s.t.controlEscalation.value.op > e.op
    ensures RunFrom(s, events, json).t.controlEscalation != Some(e)
    decreases |events|
  {
    hide Inv, Disarms;
    if events != [] {
      NextKeeps(s, events[0], json);
      EscalationStep(s, events[0], json);
      OperationsEvolve(s, events[0], json);
      NeverAgain(Next(s, events[0], json), events[1..], json, e);
    }
  }

  /** So a control command that interrupted something, or an exit, is enforced: unless one
      of those events comes first, the escalation timer finds it five seconds after its
      flush and terminates its process. */
  lemma WedgedProcessesAreKilled(before: seq<Event>, i: nat, seen: bool, after: seq<Event>, json: Json)
    requires var s := Run(before, json);
      && Ready(s, i) && s.ses.tasks[i].request.ControlCommand? && s.ses.tasks[i].phase.Queued? && !s.ses.destroyed
      && (s.ses.tasks[i].request.kind.Exit? || s.ses.tasks[i].request.interrupted)
    requires var s1 := Next(Run(before, json), Proceed(i, seen), json);
      !Disarmed(s1, after, json) && Run(before, json).os.now + 5_000 <= RunFrom(s1, after, json).os.now
    ensures var s := Run(before, json);
      var s1 := Next(s, Proceed(i, seen), json);
      var s2 := RunFrom(s1, after, json);
      var f := |s.t.operations|;
      && s1.ses.proc.Some? && f < |s2.t.operations|
      && s2.t.operations[f].proc == s1.ses.proc.value < |s2.os.procs|
      && Kills.Terminated(s2.os, Next(s2, EscalationTimer, json).os, s1.ses.proc.value, EscalationBudget(f))
  {
    hide Inv, Disarmed, Next, Run, RunFrom, LookedUp, Ready, ControlAfter;
    RunKeeps(before, json);
    var s := Run(before, json);
    var s1 := Next(s, Proceed(i, seen), json);
    var s2 := RunFrom(s1, after, json);
    var f := |s.t.operations|;
    BodyOfAControl(s, i, seen, json);
    LookupSets(s);
    NextKeeps(s, Proceed(i, seen), json);
    var e := Escalation(f, s.os.now + 5_000, |s.t.parsed|);
    ArmedUntilDisarmed(s1, after, json, e);
    RunFromKeeps(s1, after, json);
    RunsEvolve(s1, after, json);
    assert SameIdentity(s1.t.operations[f], s2.t.operations[f]);
    Kills.DueEscalationKills(s2, f, json);
  }

  lemma LookupSets(s: State)
    requires LookedUp(s, EnsureProcess(s).0, EnsureProcess(s).1)
    ensures EnsureProcess(s).0.ses.proc == Some(EnsureProcess(s).1)
  {
  }

  // ── Exits and closes ──────────────────────────────────────────────────

  /** An exit is noted, and does nothing else until the process closes. The close drops the
      SIGKILL timers, stops collecting if the process was still attached, and makes the
      session forget it if it was the session's own. */
  lemma ProcessesEnd(s: State, p: nat, json: Json)
    requires Inv(s) && p < |s.os.procs|
    ensures Next(s, ProcExited(p), json) == s.(os := s.os.(procs := s.os.procs[p := s.os.procs[p].(exited := true)]))
    ensures var s' := Next(s, ProcClosed(p), json);
      var proc := s.os.procs[p];
      && (!proc.exited || proc.closed ==> s' == s)
      && (proc.exited && !proc.closed ==>
          && s'.os == s.os.(procs := s.os.procs[p := proc.(closed := true, graceTimers := [])])
          && s'.ses == (if proc.attached && (s.ses.proc.None? || s.ses.proc == Some(p))
               then s.ses.(proc := None, currentFile := None, versionKnown := false, versionAttempts := 0) else s.ses)
          && s'.t.collecting == (s.t.collecting && !proc.attached)
          && (!proc.attached && !proc.clearsEscalation ==> s'.t == s.t))
  {
    hide Inv;
  }

  // ── What stays ────────────────────────────────────────────────────────

  /** Nothing but stdout and stderr adds to what was parsed or accepted. */
  lemma OnlyStreamsAreLogged(s: State, e: Event, json: Json)
    requires Inv(s) && !e.Stdout? && !e.Stderr?
    ensures SameLogs(s.t, Next(s, e, json).t)
  {
    hide Inv, EmitError, Terminate, ProceedTask, DestroySession;
    match e {
      case IssueControl(kind) => ErrorsKeepKind(s.t, 0, Interrupted);
      case ProcFailed(p) => ErrorsKeepKind(s.t, 0, ProcessError);
      case Proceed(i, seen) => ProceedWrites(s, i, seen, json);
      case Destroy => DestroyKeepsLogs(s);
      case _ =>
    }
  }

  lemma DestroyKeepsLogs(s: State)
    ensures SameLogs(s.t, DestroySession(s).t)
  {
    hide Terminate, EmitError;
    ErrorsKeepKind(s.t.(idleTimer := false, controlEscalation := None, buffer := "", responseQueue := [],
                        collecting := false, currentCommandKind := NoCommand,
                        awaitGoalTerminus := false, inactivityOf := None), 0, Destroyed);
  }

  /** Streams and completion timers concern the transport alone; the clock only moves on. */
  lemma TransportEventsStay(s: State, e: Event, json: Json)
    ensures e.Stdout? || e.Stderr? || e.ProcFailed? || e.IdleTimer? || e.FinishTimer? || e.FlushTimer? ==>
      Next(s, e, json).os == s.os && Next(s, e, json).ses == s.ses
    ensures e.Advance? ==> Next(s, e, json) == s.(os := s.os.(now := s.os.now + e.ms))
    ensures e.SetFile? ==> Next(s, e, json) == s.(ses := s.ses.(currentFile := e.file))
  {
  }
}
