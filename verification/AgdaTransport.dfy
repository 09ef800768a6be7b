// AgdaTransport as a class over its own fields, proved against the transport model.

module AgdaTransportClass {
  import opened Basics
  import opened Wire
  import opened Terminus
  import opened StdoutLines
  import opened TransportModel
  import TransportProofs
  import Chunking

  class AgdaTransport {
    var buffer: string
    var responseQueue: seq<Response>
    var collecting: bool
    var currentCommandKind: CommandKind
    var idleTimer: bool
    var controlEscalation: Option<Escalation>
    var inactivityOf: Option<nat>
    var awaitGoalTerminus: bool
    const goalTerminus: GoalTerminusTracker
    /** The promises of past and present commands: what their closures hold. */
    var operations: seq<Operation>
    // Logs that no decision depends on: they date and place what the promises report.
    var accepted: seq<Response>
    var acceptedAt: seq<nat>
    var parsed: seq<Response>

    function State(): Transport
      reads this, goalTerminus
    {
      Transport(buffer, responseQueue, collecting, currentCommandKind, idleTimer, controlEscalation,
                inactivityOf, awaitGoalTerminus, goalTerminus.State(), operations, accepted, acceptedAt, parsed)
    }

    constructor ()
      ensures State() == IDLE_TRANSPORT && fresh(goalTerminus)
    {
      buffer, responseQueue, collecting, currentCommandKind := "", [], false, NoCommand;
      idleTimer, controlEscalation, inactivityOf, awaitGoalTerminus := false, None, None, false;
      operations, accepted, acceptedAt, parsed := [], [], [], [];
      goalTerminus := new GoalTerminusTracker();
    }

    // ── Collecting ──────────────────────────────────────────────────────

    method RecordCollectedResponse(response: Response, now: nat)
      modifies this, goalTerminus
      ensures State() == Record(old(State()), response, now)
    {
      parsed := parsed + [response];
      if IsControlEcho(response) {
        controlEscalation := None;
      }
      if !collecting {
        return;
      }
      if currentCommandKind == Regular && IsControlEcho(response) {
        return;
      }
      AcceptResponse(response, now);
    }

    /** The collecting branch: push, feed the terminus, push the watchdog back. */
    method AcceptResponse(response: Response, now: nat)
      modifies this, goalTerminus
      ensures State() == BumpIdle(Rearm(Push(old(State()), response, now), now))
    {
      responseQueue := responseQueue + [response];
      accepted := accepted + [response];
      acceptedAt := acceptedAt + [now];
      if awaitGoalTerminus {
        goalTerminus.Record(response);
      }
      assert State() == Push(old(State()), response, now);
      hide Push, Rearm, BumpIdle;
      ResetInactivityTimer(now);
      BumpIdleCompletionTimer();
    }

    method ResetInactivityTimer(now: nat)
      modifies this
      ensures State() == Rearm(old(State()), now)
    {
      if inactivityOf.Some? && inactivityOf.value < |operations| {
        var op := operations[inactivityOf.value];
        operations := operations[inactivityOf.value := op.(deadline := now + op.timeoutMs)];
      }
    }

    method BumpIdleCompletionTimer()
      modifies this
      ensures State() == BumpIdle(old(State()))
    {
      idleTimer := false;
      if !collecting {
        return;
      }
      var sawGoalTerminus := goalTerminus.Reached();
      if !ShouldResolveOnIdle(|responseQueue|, awaitGoalTerminus, sawGoalTerminus) {
        return;
      }
      idleTimer := true;
    }

    method DrainBuffer(json: string -> Option<Response>, now: nat)
      modifies this, goalTerminus
      ensures State() == RecordLines(old(State()), Lines(old(buffer)), json, now).(buffer := Tail(old(buffer)))
    {
      var start := 0;
      var newlineIdx := NewlineAt(buffer, start);
      assert buffer[0..] == buffer;
      while newlineIdx < |buffer|
        invariant buffer == old(buffer) && start <= |buffer|
        invariant newlineIdx == NewlineAt(buffer, start)
        invariant RecordLines(State(), Lines(buffer[start..]), json, now)
          == RecordLines(old(State()), Lines(buffer), json, now)
        invariant Tail(buffer[start..]) == Tail(buffer)
        decreases |buffer| - start
      {
        hide Record, RecordAll, RecordLines, DecodeLine, Lines, Tail;
        var line := buffer[start..newlineIdx];
        NextLine(buffer, start);
        start := newlineIdx + 1;
        RecordLinesCons(State(), line, Lines(buffer[start..]), json, now);
        RecordLine(line, json, now);
        newlineIdx := NewlineAt(buffer, start);
      }
      NoMoreLines(buffer, start);
      if start > 0 {
        buffer := buffer[start..];
      }
    }

    method RecordLine(line: string, json: string -> Option<Response>, now: nat)
      modifies this, goalTerminus
      ensures buffer == old(buffer)
      ensures State() == RecordAll(old(State()), DecodeLine(line, json), now)
    {
      var text := StripPromptPrefix(Trim(line));
      if text == "" {
        return;
      }
      if text[0] == '{' || text[0] == '[' {
        var decoded := json(text);
        if decoded.Some? {
          RecordCollectedResponse(decoded.value, now);
          RecordAllOne(old(State()), decoded.value, now);
        }
      } else {
        RecordCollectedResponse(StderrOutput(text), now);
        RecordAllOne(old(State()), StderrOutput(text), now);
      }
    }

    method HandleStdoutChunk(chunk: string, json: string -> Option<Response>, now: nat)
      modifies this, goalTerminus
      ensures State() == HandleStdout(old(State()), chunk, json, now)
    {
      if !collecting && controlEscalation.None? {
        return;
      }
      ghost var before := State();
      buffer := buffer + chunk;
      ghost var grown := State();
      DrainBuffer(json, now);
      assert grown == before.(buffer := before.buffer + chunk);
      Chunking.RecordLinesBuffer(before, Lines(grown.buffer), json, grown.buffer, now);
    }

    method HandleStderrChunk(text: string, now: nat)
      modifies this, goalTerminus
      ensures State() == HandleStderr(old(State()), text, now)
    {
      if !collecting {
        return;
      }
      RecordCollectedResponse(StderrOutput(text), now);
    }

    // ── Completion ──────────────────────────────────────────────────────

    /** `finish` of operation `k`. */
    method FinishOperation(k: nat, outcome: Outcome)
      requires k < |operations|
      modifies this
      ensures State() == Finish(old(State()), k, outcome)
    {
      collecting := false;
      idleTimer := false;
      inactivityOf := None;
      if operations[k].outcome.Pending? {
        operations := operations[k := operations[k].(outcome := outcome)];
      }
    }

    /** `settle` of flush `k`. */
    method SettleFlush(k: nat, how: Completion)
      requires k < |operations|
      modifies this
      ensures State() == Settle(old(State()), k, how)
    {
      var outcome := Resolved(responseQueue, how, |accepted|);
      collecting := false;
      idleTimer := false;
      operations := operations[k := operations[k].(outcome := outcome)];
    }

    /** emitter.emit("done", origin): every pending `onDone` schedules one finish. */
    method EmitDoneEvent(origin: Origin)
      modifies this
      ensures State() == EmitDone(old(State()), origin)
    {
      var k := 0;
      while k < |operations|
        invariant k <= |operations| == |old(operations)|
        invariant State() == old(State()).(operations := operations)
        invariant forall j :: 0 <= j < k ==> operations[j] == EmitDone(old(State()), origin).operations[j]
        invariant forall j :: k <= j < |operations| ==> operations[j] == old(operations)[j]
      {
        var op := operations[k];
        if op.outcome.Pending? && !op.purpose.Flush? {
          if origin.Idle? {
            operations := operations[k := op.(idleFinishes := op.idleFinishes + 1)];
          } else {
            operations := operations[k := op.(closeFinishes := op.closeFinishes + 1)];
          }
        }
        k := k + 1;
      }
      assert operations == EmitDone(old(State()), origin).operations;
    }

    /** emitter.emit("error", why): listeners run in the order they were added. */
    method EmitErrorEvent(why: Rejection)
      modifies this
      ensures State() == EmitError(old(State()), 0, why)
    {
      var k := 0;
      while k < |operations|
        invariant k <= |operations|
        invariant EmitError(State(), k, why) == EmitError(old(State()), 0, why)
        decreases |operations| - k
      {
        ghost var before := State();
        if operations[k].outcome.Pending? {
          if operations[k].purpose.Flush? {
            SettleFlush(k, ByError);
          } else {
            FinishOperation(k, Rejected(why));
          }
        }
        assert State() == OnError(before, k, why);
        k := k + 1;
      }
    }

    /** rejectInFlightCommand: whether some listener was there to reject. */
    method RejectInFlightCommand(why: Rejection) returns (interrupted: bool)
      modifies this
      ensures interrupted <==> old(AnyListening(State()))
      ensures State() == EmitError(old(State()), 0, why)
    {
      var k := 0;
      while k < |operations| && !operations[k].outcome.Pending?
        invariant k <= |operations|
        invariant forall j :: 0 <= j < k ==> !operations[j].outcome.Pending?
      {
        k := k + 1;
      }
      if k == |operations| {
        TransportProofs.EmitErrorNone(State(), 0, why);
        return false;
      }
      EmitErrorEvent(why);
      return true;
    }

    method HandleProcessCloseEvent()
      modifies this
      ensures State() == HandleProcessClose(old(State()))
    {
      collecting := false;
      idleTimer := false;
      EmitDoneEvent(ProcessClose);
    }

    method IdleTimerFired()
      modifies this
      ensures State() == IdleTimerFires(old(State()))
    {
      idleTimer := false;
      if !collecting {
        return;
      }
      EmitDoneEvent(Idle);
    }

    method FinishTimerFired(k: nat, origin: Origin)
      requires k < |operations| && Pended(operations[k], origin) > 0
      modifies this
      ensures State() == FinishTimerFires(old(State()), k, origin)
    {
      var op := operations[k];
      var how;
      if origin.Idle? {
        operations := operations[k := op.(idleFinishes := op.idleFinishes - 1)];
        how := ByIdle;
      } else {
        operations := operations[k := op.(closeFinishes := op.closeFinishes - 1)];
        how := ByProcessClose;
      }
      FinishOperation(k, Resolved(responseQueue, how, |accepted|));
    }

    /** `onTimeout` of operation `k`, after the signal. */
    method InactivityFired(k: nat)
      requires k < |operations|
      modifies this
      ensures State() == InactivityFires(old(State()), k)
    {
      buffer := "";
      FinishOperation(k, Rejected(TimedOut));
    }

    // ── Starting and destroying ─────────────────────────────────────────

    method SendCommand(task: nat, purpose: Purpose, proc: nat, awaitTerminus: bool, timeoutMs: nat, now: nat)
      returns (k: nat)
      modifies this, goalTerminus
      ensures State() == StartCommand(old(State()), task, purpose, proc, awaitTerminus, timeoutMs, now)
      ensures k == |old(operations)|
    {
      buffer := "";
      responseQueue := [];
      collecting := true;
      currentCommandKind := Regular;
      awaitGoalTerminus := awaitTerminus;
      goalTerminus.Reset();
      k := |operations|;
      operations := operations + [Operation(task, purpose, proc, awaitTerminus, timeoutMs,
                                            now, |accepted|, now + timeoutMs, 0, 0, Pending)];
      inactivityOf := Some(k);
    }

    method SendFireAndForgetCommand(task: nat, proc: nat, armEscalation: bool, now: nat) returns (k: nat)
      modifies this
      ensures State() == StartFlush(old(State()), task, proc, armEscalation, now)
      ensures k == |old(operations)|
    {
      var _ := RejectInFlightCommand(Interrupted);
      buffer := "";
      responseQueue := [];
      collecting := true;
      currentCommandKind := Control;
      awaitGoalTerminus := false;
      inactivityOf := None;
      controlEscalation := None;
      k := |operations|;
      if armEscalation {
        controlEscalation := Some(Escalation(k, now + CONTROL_ESCALATION_MS, |parsed|));
      }
      operations := operations + [Operation(task, Flush, proc, false, 0, now, |accepted|, 0, 0, 0, Pending)];
    }

    method Destroy()
      modifies this
      ensures State() == DestroyTransport(old(State()))
    {
      idleTimer := false;
      controlEscalation := None;
      buffer := "";
      responseQueue := [];
      collecting := false;
      currentCommandKind := NoCommand;
      awaitGoalTerminus := false;
      inactivityOf := None;
      assert State() == old(State()).(idleTimer := false, controlEscalation := None, buffer := "", responseQueue := [],
                                      collecting := false, currentCommandKind := NoCommand,
                                      awaitGoalTerminus := false, inactivityOf := None);
      hide EmitError;
      var _ := RejectInFlightCommand(Destroyed);
    }
  }

  // ── Facts the loops use ───────────────────────────────────────────────

  lemma RecordAllOne(t: Transport, r: Response, now: nat)
    ensures RecordAll(t, [r], now) == Record(t, r, now)
  {
    assert [r][1..] == [];
  }

  lemma RecordLinesCons(t: Transport, line: string, lines: seq<string>, json: string -> Option<Response>, now: nat)
    ensures RecordLines(t, [line] + lines, json, now)
      == RecordLines(RecordAll(t, DecodeLine(line, json), now), lines, json, now)
  {
    assert ([line] + lines)[1..] == lines;
  }

  lemma NextLine(buffer: string, start: nat)
    requires start <= |buffer| && NewlineAt(buffer, start) < |buffer|
    ensures var n := NewlineAt(buffer, start);
      && Lines(buffer[start..]) == [buffer[start..n]] + Lines(buffer[n + 1..])
      && Tail(buffer[start..]) == Tail(buffer[n + 1..])
  {
    var n := NewlineAt(buffer, start);
    var rest := buffer[start..];
    NewlineIs(rest, n - start);
    assert rest[..n - start] == buffer[start..n];
    assert rest[n - start + 1..] == buffer[n + 1..];
  }

  lemma NoMoreLines(buffer: string, start: nat)
    requires start <= |buffer| && NewlineAt(buffer, start) == |buffer|
    ensures Lines(buffer[start..]) == [] && Tail(buffer[start..]) == buffer[start..]
  {
    NewlineIs(buffer[start..], |buffer| - start);
  }
}
