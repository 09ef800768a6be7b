// What every transport step keeps.

module TransportProofs {
  import opened Basics
  import opened Wire
  import opened Terminus
  import opened StdoutLines
  import opened TransportModel

  /** Time of the last accepted response of operation `k`, or of its start. */
  function LastActivity(t: Transport, k: nat): nat
    requires k < |t.operations| && |t.acceptedAt| == |t.accepted|
  {
    if |t.accepted| > t.operations[k].since then t.acceptedAt[|t.accepted| - 1]
    else t.operations[k].startedAt
  }

  ghost predicate IsRegular(op: Operation) {
    !op.purpose.Flush?
  }

  ghost predicate NoEchoes(rs: seq<Response>) {
    forall i :: 0 <= i < |rs| ==> !IsControlEcho(rs[i])
  }

  /** A settled operation holds a contiguous run of accepted responses, in order, all
      accepted after it started; a load that completed by idle holds a goal terminus. */
  ghost predicate SettledWell(t: Transport, op: Operation) {
    op.outcome.Resolved? ==>
      && op.since <= op.outcome.until <= |t.accepted|
      && (|| op.outcome.responses == t.accepted[op.since..op.outcome.until]
          || (op.purpose.Flush? && op.outcome.how.ByError? && op.outcome.responses == []))
      && (IsRegular(op) ==>
          NoEchoes(op.outcome.responses) && (op.outcome.how.ByIdle? || op.outcome.how.ByProcessClose?))
      && (op.awaitsTerminus && op.outcome.how.ByIdle? ==> TerminusSeen(op.outcome.responses))
  }

  /** The pending operation owns the shared queue, flags and timers. */
  ghost predicate PendingWell(t: Transport, k: nat)
    requires k < |t.operations| && |t.acceptedAt| == |t.accepted|
  {
    var op := t.operations[k];
    && op.since <= |t.accepted|
    && t.responseQueue == t.accepted[op.since..]
    && (op.purpose.Flush? ==> op.idleFinishes == 0 && op.closeFinishes == 0 && t.inactivityOf.None?)
    && (IsRegular(op) ==>
      && t.currentCommandKind.Regular?
      && NoEchoes(t.responseQueue)
      && (t.collecting ==> t.inactivityOf == Some(k))
      && op.deadline == LastActivity(t, k) + op.timeoutMs
      && (forall i :: op.since <= i < |t.acceptedAt| ==> op.startedAt <= t.acceptedAt[i])
      && t.awaitGoalTerminus == op.awaitsTerminus
      && (op.awaitsTerminus ==> Tracks(t.terminus, t.responseQueue))
      && (op.awaitsTerminus && t.idleTimer ==> t.terminus.Reached())
      && (op.awaitsTerminus && op.idleFinishes > 0 ==> TerminusSeen(t.responseQueue)))
  }

  ghost predicate Stamps(t: Transport, now: nat) {
    && |t.acceptedAt| == |t.accepted|
    && (forall i, j :: 0 <= i <= j < |t.acceptedAt| ==> t.acceptedAt[i] <= t.acceptedAt[j])
    && (forall i :: 0 <= i < |t.acceptedAt| ==> t.acceptedAt[i] <= now)
    && (forall k :: 0 <= k < |t.operations| ==> t.operations[k].startedAt <= now)
  }

  /** Only the operation started last can be pending. */
  ghost predicate OnlyLastPending(t: Transport) {
    forall k :: Listening(t, k) ==> k == |t.operations| - 1
  }

  /** No response is part of two results: later operations start after earlier results end. */
  ghost predicate Disjoint(t: Transport) {
    forall k, l :: 0 <= k < l < |t.operations| && t.operations[k].outcome.Resolved? ==>
      t.operations[k].outcome.until <= t.operations[l].since
  }

  ghost predicate EscalationWell(t: Transport) {
    t.controlEscalation.Some? ==>
      var e := t.controlEscalation.value;
      && e.op < |t.operations|
      && t.operations[e.op].purpose.Flush?
      && e.deadline == t.operations[e.op].startedAt + CONTROL_ESCALATION_MS
      && (forall k :: e.op < k < |t.operations| ==> !t.operations[k].purpose.Flush?)
      && e.parsedBefore <= |t.parsed|
      && NoEchoes(t.parsed[e.parsedBefore..])
  }

  ghost predicate TransportInv(t: Transport, now: nat) {
    && Stamps(t, now)
    && OnlyLastPending(t)
    && Disjoint(t)
    && EscalationWell(t)
    && (t.idleTimer ==> t.collecting)
    && (t.collecting ==> AnyListening(t))
    && (t.inactivityOf.Some? ==> Listening(t, t.inactivityOf.value))
    && (forall k :: Listening(t, k) ==> PendingWell(t, k))
    && (forall k :: 0 <= k < |t.operations| ==> SettledWell(t, t.operations[k]))
    && (forall k :: 0 <= k < |t.operations| && t.operations[k].awaitsTerminus ==> t.operations[k].purpose.User?)
  }

  // ── Collecting ────────────────────────────────────────────────────────

  /** Operations keep everything but deadlines, pending finishes and a pending outcome. */
  ghost predicate SameOperations(t: Transport, t': Transport) {
    && |t'.operations| == |t.operations|
    && forall k :: 0 <= k < |t.operations| ==>
        SameIdentity(t.operations[k], t'.operations[k])
        && t'.operations[k].outcome == t.operations[k].outcome
  }

  ghost predicate SameIdentity(op: Operation, op': Operation) {
    && op'.task == op.task && op'.purpose == op.purpose && op'.proc == op.proc
    && op'.awaitsTerminus == op.awaitsTerminus && op'.timeoutMs == op.timeoutMs
    && op'.startedAt == op.startedAt && op'.since == op.since
  }

  lemma TracksReached(tr: Tracker, rs: seq<Response>)
    requires Tracks(tr, rs)
    ensures tr.Reached() <==> TerminusSeen(rs)
  {
  }

  /** What the accepting branch of `Record` does, field by field. */
  ghost predicate Accepts(t: Transport, t': Transport, r: Response, now: nat) {
    && SameOperations(t, t')
    && t'.responseQueue == t.responseQueue + [r]
    && t'.accepted == t.accepted + [r]
    && t'.acceptedAt == t.acceptedAt + [now]
    && t'.terminus == (if t.awaitGoalTerminus then t.terminus.Record(r) else t.terminus)
    && t'.idleTimer == (!t.awaitGoalTerminus || t'.terminus.Reached())
    && t'.collecting && t'.currentCommandKind == t.currentCommandKind
    && t'.awaitGoalTerminus == t.awaitGoalTerminus && t'.inactivityOf == t.inactivityOf
    && t'.controlEscalation == t.controlEscalation && t'.parsed == t.parsed
    && (forall k :: 0 <= k < |t.operations| ==>
        && t'.operations[k].idleFinishes == t.operations[k].idleFinishes
        && t'.operations[k].closeFinishes == t.operations[k].closeFinishes)
    && (forall k :: 0 <= k < |t.operations| && t.inactivityOf == Some(k) ==>
        t'.operations[k].deadline == now + t.operations[k].timeoutMs)
  }

  lemma AcceptsHolds(t: Transport, r: Response, now: nat)
    requires t.collecting
    ensures Accepts(t, BumpIdle(Rearm(Push(t, r, now), now)), r, now)
  {
  }

  lemma AcceptsStamps(t: Transport, t': Transport, r: Response, now: nat)
    requires Stamps(t, now) && Accepts(t, t', r, now)
    ensures Stamps(t', now)
  {
  }

  lemma AcceptsPending(t: Transport, t': Transport, k: nat, r: Response, now: nat)
    requires Listening(t, k) && |t.acceptedAt| == |t.accepted| && PendingWell(t, k)
    requires t.collecting && Accepts(t, t', r, now) && t.operations[k].startedAt <= now
    requires IsRegular(t.operations[k]) ==> !IsControlEcho(r)
    ensures |t'.acceptedAt| == |t'.accepted| && Listening(t', k) && PendingWell(t', k)
  {
    var op := t.operations[k];
    assert t'.accepted[op.since..] == t.accepted[op.since..] + [r];
    if IsRegular(op) && op.awaitsTerminus {
      TracksAppend(t.terminus, t.responseQueue, r);
      if op.idleFinishes > 0 {
        TerminusStays(t.responseQueue, [r]);
      }
    }
  }

  lemma AcceptsKeeps(t: Transport, t': Transport, r: Response, now: nat)
    requires TransportInv(t, now) && t.collecting && Accepts(t, t', r, now)
    requires t.currentCommandKind.Regular? ==> !IsControlEcho(r)
    ensures TransportInv(t', now)
  {
    AcceptsStamps(t, t', r, now);
    assert forall j :: Listening(t', j) == Listening(t, j);
    forall j | Listening(t', j)
      ensures PendingWell(t', j)
    {
      AcceptsPending(t, t', j, r, now);
    }
    forall j | 0 <= j < |t'.operations|
      ensures SettledWell(t', t'.operations[j])
    {
      SettledStays(t, t', j);
    }
    var k :| 0 <= k < |t.operations| && t.operations[k].outcome.Pending?;
    assert t'.operations[k].outcome.Pending?;
  }

  lemma RecordKeeps(t: Transport, r: Response, now: nat)
    requires TransportInv(t, now)
    ensures TransportInv(Record(t, r, now), now)
    ensures SameOperations(t, Record(t, r, now))
    ensures Record(t, r, now).collecting == t.collecting
  {
    var t' := Record(t, r, now);
    var t1 := t.(parsed := t.parsed + [r],
                 controlEscalation := if IsControlEcho(r) then None else t.controlEscalation);
    assert EscalationWell(t1);
    LoggedKeeps(t, t1, now);
    if t1.collecting && !(t1.currentCommandKind == Regular && IsControlEcho(r)) {
      AcceptsHolds(t1, r, now);
      AcceptsKeeps(t1, t', r, now);
    }
  }

  /** Changing only the parsed log and the escalation keeps the rest. */
  lemma LoggedKeeps(t: Transport, t1: Transport, now: nat)
    requires TransportInv(t, now)
    requires t1 == t.(parsed := t1.parsed, controlEscalation := t1.controlEscalation)
    requires EscalationWell(t1)
    ensures TransportInv(t1, now)
  {
    assert forall k :: Listening(t1, k) == Listening(t, k);
    forall k | Listening(t1, k) ensures PendingWell(t1, k) {
      assert PendingWell(t, k);
    }
    forall k | 0 <= k < |t1.operations| ensures SettledWell(t1, t1.operations[k]) {
      assert SettledWell(t, t.operations[k]);
    }
  }

  /** Appending to the accepted log leaves settled operations well. */
  lemma SettledStays(t: Transport, t': Transport, j: nat)
    requires j < |t.operations| && |t'.operations| == |t.operations|
    requires SettledWell(t, t.operations[j])
    requires SameIdentity(t.operations[j], t'.operations[j])
    requires t'.operations[j].outcome == t.operations[j].outcome
    requires t.accepted <= t'.accepted
    ensures SettledWell(t', t'.operations[j])
  {
    var op := t.operations[j];
    if op.outcome.Resolved? {
      assert t'.accepted[op.since..op.outcome.until] == t.accepted[op.since..op.outcome.until];
    }
  }

  lemma {:induction false} RecordAllKeeps(t: Transport, rs: seq<Response>, now: nat)
    requires TransportInv(t, now)
    ensures TransportInv(RecordAll(t, rs, now), now)
    ensures SameOperations(t, RecordAll(t, rs, now))
    ensures RecordAll(t, rs, now).collecting == t.collecting
    decreases |rs|
  {
    if rs != [] {
      RecordKeeps(t, rs[0], now);
      RecordAllKeeps(Record(t, rs[0], now), rs[1..], now);
    }
  }

  lemma {:induction false} RecordLinesKeeps(t: Transport, lines: seq<string>, json: string -> Option<Response>, now: nat)
    requires TransportInv(t, now)
    ensures TransportInv(RecordLines(t, lines, json, now), now)
    ensures SameOperations(t, RecordLines(t, lines, json, now))
    ensures RecordLines(t, lines, json, now).collecting == t.collecting
    decreases |lines|
  {
    if lines != [] {
      var rs := DecodeLine(lines[0], json);
      RecordAllKeeps(t, rs, now);
      RecordLinesKeeps(RecordAll(t, rs, now), lines[1..], json, now);
    }
  }

  /** The buffer and the command kind of a flush play no part in the invariant. */
  lemma BufferKeeps(t: Transport, buffer: string, now: nat)
    requires TransportInv(t, now)
    ensures TransportInv(t.(buffer := buffer), now)
  {
    var t1 := t.(buffer := buffer);
    assert forall k :: Listening(t1, k) == Listening(t, k);
    forall k | Listening(t1, k) ensures PendingWell(t1, k) {
      assert PendingWell(t, k);
    }
    forall k | 0 <= k < |t1.operations| ensures SettledWell(t1, t1.operations[k]) {
      assert SettledWell(t, t.operations[k]);
    }
  }

  lemma HandleStdoutKeeps(t: Transport, chunk: string, json: string -> Option<Response>, now: nat)
    requires TransportInv(t, now)
    ensures TransportInv(HandleStdout(t, chunk, json, now), now)
    ensures SameOperations(t, HandleStdout(t, chunk, json, now))
    ensures HandleStdout(t, chunk, json, now).collecting == t.collecting
  {
    if Hears(t) {
      var text := t.buffer + chunk;
      RecordLinesKeeps(t, Lines(text), json, now);
      BufferKeeps(RecordLines(t, Lines(text), json, now), Tail(text), now);
    }
  }

  // ── Completion ────────────────────────────────────────────────────────

  /** Operation `k` is (or stays) settled, the shared timers are cleared, and nothing is
      logged. */
  ghost predicate Settles(t: Transport, t': Transport, k: nat) {
    && k < |t.operations| == |t'.operations|
    && (forall j :: 0 <= j < |t.operations| ==> SameIdentity(t.operations[j], t'.operations[j]))
    && (forall j :: 0 <= j < |t.operations| && j != k ==> t'.operations[j] == t.operations[j])
    && !t'.operations[k].outcome.Pending?
    && SettledWell(t', t'.operations[k])
    && !t'.collecting && !t'.idleTimer && t'.inactivityOf.None?
    && t'.accepted == t.accepted && t'.acceptedAt == t.acceptedAt && t'.parsed == t.parsed
    && (t'.controlEscalation == t.controlEscalation || t'.controlEscalation.None?)
  }

  lemma SettlesKeeps(t: Transport, t': Transport, k: nat, now: nat)
    requires TransportInv(t, now) && Settles(t, t', k)
    requires Listening(t, k)
      || (&& t'.operations[k].outcome == t.operations[k].outcome
          && t'.responseQueue == t.responseQueue && t'.currentCommandKind == t.currentCommandKind
          && t'.awaitGoalTerminus == t.awaitGoalTerminus && t'.terminus == t.terminus)
    ensures TransportInv(t', now)
    ensures Listening(t, k) ==> !AnyListening(t')
  {
    SettlesDisjoint(t, t', k);
    assert forall j :: Listening(t', j) <==> Listening(t, j) && j != k;
    forall j | Listening(t', j)
      ensures PendingWell(t', j)
    {
      assert PendingWell(t, j);
    }
    forall j | 0 <= j < |t'.operations|
      ensures SettledWell(t', t'.operations[j])
    {
      if j != k { SettledStays(t, t', j); }
    }
    if AnyListening(t') {
      var j :| 0 <= j < |t'.operations| && t'.operations[j].outcome.Pending?;
      assert Listening(t', j);
    }
  }

  lemma SettlesDisjoint(t: Transport, t': Transport, k: nat)
    requires OnlyLastPending(t) && Disjoint(t) && Settles(t, t', k)
    requires Listening(t, k) || t'.operations[k].outcome == t.operations[k].outcome
    ensures Disjoint(t')
  {
    forall a, b | 0 <= a < b < |t'.operations| && t'.operations[a].outcome.Resolved?
      ensures t'.operations[a].outcome.until <= t'.operations[b].since
    {
      assert t'.operations[a].outcome == t.operations[a].outcome;
    }
  }

  /** A pending regular command resolved with the queue is settled well. */
  lemma QueueIsWell(t: Transport, t': Transport, op': Operation, k: nat, how: Completion, now: nat)
    requires TransportInv(t, now) && Listening(t, k)
    requires t'.accepted == t.accepted && SameIdentity(t.operations[k], op')
    requires op'.outcome == Resolved(t.responseQueue, how, |t.accepted|)
    requires how.ByIdle? ==> t.operations[k].idleFinishes > 0
    requires IsRegular(op') ==> how.ByIdle? || how.ByProcessClose?
    ensures SettledWell(t', op')
  {
    assert PendingWell(t, k);
    assert t.accepted[op'.since..] == t.accepted[op'.since..|t.accepted|];
  }

  lemma FinishTimerKeeps(t: Transport, k: nat, origin: Origin, now: nat)
    requires TransportInv(t, now)
    requires k < |t.operations| && Pended(t.operations[k], origin) > 0
    ensures TransportInv(FinishTimerFires(t, k, origin), now)
    ensures Settles(t, FinishTimerFires(t, k, origin), k)
  {
    var t' := FinishTimerFires(t, k, origin);
    if Listening(t, k) {
      var how := if origin.Idle? then ByIdle else ByProcessClose;
      QueueIsWell(t, t', t'.operations[k], k, how, now);
    } else {
      assert SettledWell(t, t.operations[k]);
    }
    SettlesKeeps(t, t', k, now);
  }

  lemma OnErrorKeeps(t: Transport, k: nat, why: Rejection, now: nat)
    requires TransportInv(t, now) && Listening(t, k)
    ensures TransportInv(OnError(t, k, why), now)
    ensures Settles(t, OnError(t, k, why), k)
    ensures !AnyListening(OnError(t, k, why))
  {
    var t' := OnError(t, k, why);
    assert PendingWell(t, k);
    if t.operations[k].purpose.Flush? {
      QueueIsWell(t, t', t'.operations[k], k, ByError, now);
    }
    SettlesKeeps(t, t', k, now);
  }

  lemma FlushTimerKeeps(t: Transport, k: nat, now: nat)
    requires TransportInv(t, now) && Listening(t, k) && t.operations[k].purpose.Flush?
    ensures TransportInv(Settle(t, k, ByFlushWindow), now)
    ensures Settles(t, Settle(t, k, ByFlushWindow), k)
  {
    var t' := Settle(t, k, ByFlushWindow);
    assert PendingWell(t, k);
    QueueIsWell(t, t', t'.operations[k], k, ByFlushWindow, now);
    SettlesKeeps(t, t', k, now);
  }

  lemma InactivityKeeps(t: Transport, k: nat, now: nat)
    requires TransportInv(t, now) && Listening(t, k) && IsRegular(t.operations[k])
    ensures TransportInv(InactivityFires(t, k), now)
    ensures Settles(t, InactivityFires(t, k), k)
  {
    SettlesKeeps(t, InactivityFires(t, k), k, now);
  }

  /** "error" reaches exactly the one listening operation, if there is one. */
  lemma {:induction false} EmitErrorIs(t: Transport, from: nat, k: nat, why: Rejection, now: nat)
    requires OnlyLastPending(t) && Listening(t, k) && from <= k
    ensures EmitError(t, from, why) == OnError(t, k, why)
    decreases k - from
  {
    if from < k {
      assert !Listening(t, from);
      EmitErrorIs(t, from + 1, k, why, now);
    } else {
      EmitErrorNone(OnError(t, k, why), k + 1, why);
    }
  }

  lemma {:induction false} EmitErrorNone(t: Transport, from: nat, why: Rejection)
    requires from <= |t.operations|
    requires forall j :: from <= j < |t.operations| ==> !t.operations[j].outcome.Pending?
    ensures EmitError(t, from, why) == t
    decreases |t.operations| - from
  {
    if from < |t.operations| {
      EmitErrorNone(t, from + 1, why);
    }
  }

  /** After "error" nothing listens; settled operations and the logs are unchanged. */
  lemma EmitErrorKeeps(t: Transport, why: Rejection, now: nat)
    requires TransportInv(t, now)
    ensures TransportInv(EmitError(t, 0, why), now)
    ensures !AnyListening(EmitError(t, 0, why))
    ensures !AnyListening(t) ==> EmitError(t, 0, why) == t
    ensures forall k :: Listening(t, k) ==> Settles(t, EmitError(t, 0, why), k) && EmitError(t, 0, why) == OnError(t, k, why)
  {
    if k :| Listening(t, k) {
      EmitErrorIs(t, 0, k, why, now);
      OnErrorKeeps(t, k, why, now);
    } else {
      forall j | 0 <= j < |t.operations| ensures !t.operations[j].outcome.Pending? {
        assert !Listening(t, j);
      }
      EmitErrorNone(t, 0, why);
    }
  }

  /** Every pending load has its goal terminus in the queue. */
  ghost predicate QueueHasTerminus(t: Transport) {
    forall k: nat :: Listening(t, k) && t.operations[k].awaitsTerminus ==> TerminusSeen(t.responseQueue)
  }

  /** Scheduling trailing finishes changes nothing but their count. */
  lemma EmitDoneKeeps(t: Transport, origin: Origin, now: nat)
    requires TransportInv(t, now)
    requires origin.Idle? ==> t.collecting && QueueHasTerminus(t)
    ensures TransportInv(EmitDone(t, origin), now)
    ensures SameOperations(t, EmitDone(t, origin))
  {
    var t' := EmitDone(t, origin);
    assert SameOperations(t, t');
    assert t' == t.(operations := t'.operations);
    assert forall k :: 0 <= k < |t.operations| ==>
      && t'.operations[k].deadline == t.operations[k].deadline
      && (t.operations[k].purpose.Flush? || !t.operations[k].outcome.Pending? ==> t'.operations[k] == t.operations[k])
      && (origin.ProcessClose? ==> t'.operations[k].idleFinishes == t.operations[k].idleFinishes);
    hide EmitDone;
    assert forall k :: Listening(t', k) == Listening(t, k);
    forall k | Listening(t', k) ensures PendingWell(t', k) {
      assert PendingWell(t, k);
    }
    forall k | 0 <= k < |t'.operations| ensures SettledWell(t', t'.operations[k]) {
      SettledStays(t, t', k);
    }
    if t'.collecting {
      var k :| 0 <= k < |t.operations| && t.operations[k].outcome.Pending?;
      assert t'.operations[k].outcome.Pending?;
    }
  }

  /** Clearing `collecting` and the idle timer is always safe. */
  lemma QuietKeeps(t: Transport, collecting: bool, now: nat)
    requires TransportInv(t, now) && (collecting ==> t.collecting)
    ensures TransportInv(t.(collecting := collecting, idleTimer := false), now)
  {
    var t1 := t.(collecting := collecting, idleTimer := false);
    assert forall k :: Listening(t1, k) == Listening(t, k);
    forall k | Listening(t1, k) ensures PendingWell(t1, k) {
      assert PendingWell(t, k);
    }
    forall k | 0 <= k < |t1.operations| ensures SettledWell(t1, t1.operations[k]) {
      assert SettledWell(t, t.operations[k]);
    }
  }

  lemma ProcessCloseKeeps(t: Transport, now: nat)
    requires TransportInv(t, now)
    ensures TransportInv(HandleProcessClose(t), now)
    ensures SameOperations(t, HandleProcessClose(t))
  {
    QuietKeeps(t, false, now);
    EmitDoneKeeps(t.(collecting := false, idleTimer := false), ProcessClose, now);
  }

  lemma IdleTimerKeeps(t: Transport, now: nat)
    requires TransportInv(t, now) && t.idleTimer
    ensures TransportInv(IdleTimerFires(t), now)
    ensures SameOperations(t, IdleTimerFires(t))
  {
    var t1 := t.(idleTimer := false);
    QuietKeeps(t, t.collecting, now);
    assert t1 == t.(collecting := t.collecting, idleTimer := false);
    forall k: nat | Listening(t1, k) && t1.operations[k].awaitsTerminus
      ensures TerminusSeen(t1.responseQueue)
    {
      assert Listening(t, k) && PendingWell(t, k);
      TracksReached(t.terminus, t.responseQueue);
    }
    EmitDoneKeeps(t1, Idle, now);
  }

  // ── Starting and destroying ───────────────────────────────────────────

  /** `t'` starts one operation on a transport that nothing listens on. */
  lemma StartCommandKeeps(t: Transport, task: nat, purpose: Purpose, proc: nat,
                          awaitsTerminus: bool, timeoutMs: nat, now: nat)
    requires TransportInv(t, now) && !AnyListening(t) && !purpose.Flush?
    requires awaitsTerminus ==> purpose.User?
    ensures TransportInv(StartCommand(t, task, purpose, proc, awaitsTerminus, timeoutMs, now), now)
  {
    var t' := StartCommand(t, task, purpose, proc, awaitsTerminus, timeoutMs, now);
    var n := |t.operations|;
    assert !t.idleTimer && !t.collecting;
    assert t'.accepted[|t.accepted|..] == [];
    assert t'.operations[n].outcome.Pending?;
    assert PendingWell(t', n);
    StartedKeeps(t, t', now);
  }

  lemma StartFlushKeeps(t: Transport, task: nat, proc: nat, arm: bool, now: nat)
    requires TransportInv(t, now) && !AnyListening(t)
    ensures TransportInv(StartFlush(t, task, proc, arm, now), now)
    ensures StartFlush(t, task, proc, arm, now).operations[..|t.operations|] == t.operations
  {
    var t' := StartFlush(t, task, proc, arm, now);
    EmitErrorKeeps(t, Interrupted, now);
    var n := |t.operations|;
    assert !t.idleTimer && !t.collecting;
    assert t'.accepted[|t.accepted|..] == [];
    assert t'.parsed[|t.parsed|..] == [];
    assert t'.operations[n].outcome.Pending?;
    assert PendingWell(t', n);
    StartedKeeps(t, t', now);
  }

  lemma StartedKeeps(t: Transport, t': Transport, now: nat)
    requires TransportInv(t, now) && !AnyListening(t)
    requires |t'.operations| == |t.operations| + 1 && t'.operations[..|t.operations|] == t.operations
    requires t'.accepted == t.accepted && t'.acceptedAt == t.acceptedAt && t'.parsed == t.parsed
    requires Listening(t', |t.operations|) && PendingWell(t', |t.operations|)
    requires t'.operations[|t.operations|].startedAt <= now && !t'.idleTimer
    requires t'.operations[|t.operations|].since == |t.accepted|
    requires t'.inactivityOf.Some? ==> t'.inactivityOf.value == |t.operations|
    requires t'.operations[|t.operations|].awaitsTerminus ==> t'.operations[|t.operations|].purpose.User?
    requires if t'.operations[|t.operations|].purpose.Flush?
      then EscalationWell(t') else t'.controlEscalation == t.controlEscalation
    ensures TransportInv(t', now)
  {
    var n := |t.operations|;
    forall j | 0 <= j < n
      ensures t'.operations[j] == t.operations[j] && !t'.operations[j].outcome.Pending?
      ensures SettledWell(t', t'.operations[j])
    {
      assert t'.operations[..n][j] == t.operations[j];
      assert !Listening(t, j);
      SettledStaysAt(t, t', j);
    }
    assert forall j :: Listening(t', j) <==> j == n;
    forall a, b | 0 <= a < b < |t'.operations| && t'.operations[a].outcome.Resolved?
      ensures t'.operations[a].outcome.until <= t'.operations[b].since
    {
      assert SettledWell(t, t.operations[a]);
    }
    forall j | 0 <= j < |t'.operations|
      ensures SettledWell(t', t'.operations[j])
    {
      assert j == n ==> t'.operations[j].outcome.Pending?;
    }
  }

  lemma SettledStaysAt(t: Transport, t': Transport, j: nat)
    requires j < |t.operations| <= |t'.operations| && t'.operations[j] == t.operations[j]
    requires SettledWell(t, t.operations[j]) && t'.accepted == t.accepted
    ensures SettledWell(t', t'.operations[j])
  {
  }

  lemma DestroyKeeps(t: Transport, now: nat)
    requires TransportInv(t, now)
    ensures TransportInv(DestroyTransport(t), now)
    ensures !AnyListening(DestroyTransport(t))
    ensures forall k :: Listening(t, k) ==> Settles(t, DestroyTransport(t), k)
    ensures !AnyListening(t) ==> DestroyTransport(t).operations == t.operations
  {
    var t0 := t.(idleTimer := false, controlEscalation := None, buffer := "", responseQueue := [],
                 collecting := false, currentCommandKind := NoCommand,
                 awaitGoalTerminus := false, inactivityOf := None);
    var t' := DestroyTransport(t);
    assert forall k :: Listening(t0, k) == Listening(t, k);
    if k :| Listening(t, k) {
      EmitErrorIs(t0, 0, k, Destroyed, now);
      assert PendingWell(t, k);
      assert Settles(t, t', k);
      SettlesKeeps(t, t', k, now);
    } else {
      forall j | 0 <= j < |t.operations| ensures !t.operations[j].outcome.Pending? {
        assert !Listening(t, j);
      }
      EmitErrorNone(t0, 0, Destroyed);
      forall j | 0 <= j < |t'.operations| ensures SettledWell(t', t'.operations[j]) {
        SettledStaysAt(t, t', j);
      }
    }
  }

  /** Time passing keeps everything. */
  lemma LaterKeeps(t: Transport, now: nat, later: nat)
    requires TransportInv(t, now) && now <= later
    ensures TransportInv(t, later)
  {
  }
}
