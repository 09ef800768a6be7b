/** The bounded log of tool calls and the captures that drain it, over every interleaving. */
module RecorderModel {
  import opened Basics

  type Action = string

  // The recorder's module-level variables, with a log of every action it accepted.
  datatype Recorder = Recorder(buffer: seq<Action>, truncated: bool, droppedCount: nat, accepted: seq<Action>)

  function Record(r: Recorder, action: Action, enabled: bool, capacity: nat): Recorder {
    if !enabled then r
    else if |r.buffer| >= capacity then r.(droppedCount := r.droppedCount + 1, truncated := true)
    else r.(buffer := r.buffer + [action], accepted := r.accepted + [action])
  }

  // Array.prototype.slice never fails: a count beyond the end leaves nothing.
  function Commit(r: Recorder, drainedCount: nat): Recorder {
    var rest := if drainedCount <= |r.buffer| then r.buffer[drainedCount..] else [];
    if rest == [] then r.(buffer := [], truncated := false, droppedCount := 0) else r.(buffer := rest)
  }

  // Where a capture call stands: it waits for the oracle substrate or for its artifact to be written.
  datatype Capture =
    | Busy
    | Building(snapshot: seq<Action>)
    | Writing(snapshot: seq<Action>, sequence: nat)
    | Captured(snapshot: seq<Action>, sequence: nat)
    | Failed

  // The recorder, the tool's flag and counter, its calls, and the artifacts in the order they were written.
  datatype State = State(rec: Recorder, captureInFlight: bool, stagedFileSequence: nat,
                         captures: seq<Capture>, artifacts: seq<seq<Action>>)

  const INITIAL := State(Recorder([], false, 0, []), false, 0, [], [])

  datatype Event =
    | ToolCall(action: Action, enabled: bool, capacity: nat)
    | StartCapture(manifestBuilt: bool)
    | SubstrateSettles(i: nat, staged: bool)
    | WriteSettles(i: nat, written: bool)

  function Move(s: State, i: nat, c: Capture): State
    requires i < |s.captures|
  {
    s.(captures := s.captures[i := c], captureInFlight := c.Building? || c.Writing?)
  }

  function Next(s: State, e: Event): State {
    match e
    case ToolCall(action, enabled, capacity) => s.(rec := Record(s.rec, action, enabled, capacity))
    case StartCapture(manifestBuilt) =>
      if s.captureInFlight then s.(captures := s.captures + [Busy])
      else if !manifestBuilt then s.(captures := s.captures + [Failed])
      else s.(captures := s.captures + [Building(s.rec.buffer)], captureInFlight := true)
    case SubstrateSettles(i, staged) =>
      if i < |s.captures| && s.captures[i].Building? then
        if staged
        then Move(s, i, Writing(s.captures[i].snapshot, s.stagedFileSequence)).(stagedFileSequence := s.stagedFileSequence + 1)
        else Move(s, i, Failed)
      else s
    case WriteSettles(i, written) =>
      if i < |s.captures| && s.captures[i].Writing? then
        var snapshot := s.captures[i].snapshot;
        if written
        then Move(s, i, Captured(snapshot, s.captures[i].sequence))
             .(rec := Commit(s.rec, |snapshot|), artifacts := s.artifacts + [snapshot])
        else Move(s, i, Failed)
      else s
  }

  function Run(events: seq<Event>): State {
    if events == [] then INITIAL else Next(Run(events[..|events| - 1]), events[|events| - 1])
  }

  // ---- what every run keeps ----

  predicate Holding(c: Capture) { c.Building? || c.Writing? }

  function Concat(parts: seq<seq<Action>>): seq<Action> {
    if parts == [] then [] else Concat(parts[..|parts| - 1]) + parts[|parts| - 1]
  }

  predicate Numbered(c: Capture) { c.Writing? || c.Captured? }

  predicate Inv(s: State) {
    && Concat(s.artifacts) + s.rec.buffer == s.rec.accepted
    && (s.rec.truncated <==> s.rec.droppedCount > 0)
    && (forall i :: 0 <= i < |s.captures| && Holding(s.captures[i]) ==>
          s.captureInFlight && s.captures[i].snapshot <= s.rec.buffer)
    && (forall i, j :: 0 <= i < j < |s.captures| ==> !(Holding(s.captures[i]) && Holding(s.captures[j])))
    && (s.captureInFlight ==> exists i :: 0 <= i < |s.captures| && Holding(s.captures[i]))
    && (forall i :: 0 <= i < |s.captures| && Numbered(s.captures[i]) ==> s.captures[i].sequence < s.stagedFileSequence)
    && (forall i, j :: 0 <= i < j < |s.captures| && Numbered(s.captures[i]) && Numbered(s.captures[j]) ==>
          s.captures[i].sequence != s.captures[j].sequence)
  }

  lemma RecordKeeps(s: State, action: Action, enabled: bool, capacity: nat)
    requires Inv(s)
    ensures Inv(Next(s, ToolCall(action, enabled, capacity)))
  {
    var s' := Next(s, ToolCall(action, enabled, capacity));
    assert s.rec.buffer <= s'.rec.buffer;
    if s.rec.accepted != s'.rec.accepted {
      assert Concat(s.artifacts) + (s.rec.buffer + [action]) == Concat(s.artifacts) + s.rec.buffer + [action];
    }
    if s.captureInFlight {
      var i :| 0 <= i < |s.captures| && Holding(s.captures[i]);
      assert Holding(s'.captures[i]);
    }
  }

  lemma StartKeeps(s: State, manifestBuilt: bool)
    requires Inv(s)
    ensures Inv(Next(s, StartCapture(manifestBuilt)))
  {
    var s' := Next(s, StartCapture(manifestBuilt));
    if s.captureInFlight {
      var i :| 0 <= i < |s.captures| && Holding(s.captures[i]);
      assert Holding(s'.captures[i]);
    } else if manifestBuilt {
      assert Holding(s'.captures[|s.captures|]);
    }
  }

  // Once the only holder has let go, nobody holds a snapshot.
  lemma MoveKeepsHolding(s: State, i: nat, c: Capture)
    requires Inv(s) && i < |s.captures| && Holding(s.captures[i])
    ensures var t := Move(s, i, c);
            (forall k :: 0 <= k < |t.captures| && Holding(t.captures[k]) ==> k == i && Holding(c)) &&
            (t.captureInFlight <==> exists k :: 0 <= k < |t.captures| && Holding(t.captures[k]))
  {
    var t := Move(s, i, c);
    assert t.captures[i] == c;
  }

  lemma SubstrateKeeps(s: State, i: nat, staged: bool)
    requires Inv(s)
    ensures Inv(Next(s, SubstrateSettles(i, staged)))
  {
    if i < |s.captures| && s.captures[i].Building? {
      MoveKeepsHolding(s, i, if staged then Writing(s.captures[i].snapshot, s.stagedFileSequence) else Failed);
    }
  }

  lemma WriteKeeps(s: State, i: nat, written: bool)
    requires Inv(s)
    ensures Inv(Next(s, WriteSettles(i, written)))
  {
    if i < |s.captures| && s.captures[i].Writing? {
      var snapshot := s.captures[i].snapshot;
      MoveKeepsHolding(s, i, if written then Captured(snapshot, s.captures[i].sequence) else Failed);
      if written {
        assert (s.artifacts + [snapshot])[..|s.artifacts|] == s.artifacts;
        assert s.rec.buffer == snapshot + s.rec.buffer[|snapshot|..];
        assert Concat(s.artifacts) + snapshot + s.rec.buffer[|snapshot|..] == s.rec.accepted;
      }
    }
  }

  lemma {:induction false} RunKeeps(events: seq<Event>)
    ensures Inv(Run(events))
  {
    hide Inv;
    if events == [] {
      InitialWell();
    } else {
      RunKeeps(events[..|events| - 1]);
      match events[|events| - 1]
      case ToolCall(action, enabled, capacity) => RecordKeeps(Run(events[..|events| - 1]), action, enabled, capacity);
      case StartCapture(built) => StartKeeps(Run(events[..|events| - 1]), built);
      case SubstrateSettles(i, staged) => SubstrateKeeps(Run(events[..|events| - 1]), i, staged);
      case WriteSettles(i, written) => WriteKeeps(Run(events[..|events| - 1]), i, written);
    }
  }

  lemma InitialWell()
    ensures Inv(INITIAL)
  {
  }

  // ---- theorems ----

  // Nothing recorded is lost or reported twice: the artifacts written so far, followed by the live
  // buffer, are the accepted actions in the order they were recorded.
  lemma ActionsAreConserved(events: seq<Event>)
    ensures var s := Run(events);
            Concat(s.artifacts) + s.rec.buffer == s.rec.accepted
  {
    RunKeeps(events);
  }

  // The flag says exactly whether a capture holds a snapshot; there is at most one, and it stays a
  // prefix of the buffer whatever is recorded meanwhile.
  lemma OneCaptureHoldsAPrefix(events: seq<Event>, i: nat)
    ensures var s := Run(events);
            (s.captureInFlight <==> exists k :: 0 <= k < |s.captures| && Holding(s.captures[k])) &&
            (i < |s.captures| && Holding(s.captures[i]) ==>
               s.captures[i].snapshot <= s.rec.buffer &&
               forall j :: 0 <= j < |s.captures| && Holding(s.captures[j]) ==> j == i)
  {
    RunKeeps(events);
  }

  lemma TruncatedMeansDropped(events: seq<Event>)
    ensures Run(events).rec.truncated <==> Run(events).rec.droppedCount > 0
  {
    RunKeeps(events);
  }

  // A failing or refused capture leaves the recorder alone, and no two artifacts share a file number.
  lemma FailuresTouchNothing(events: seq<Event>, e: Event)
    ensures e.StartCapture? || e.SubstrateSettles? || (e.WriteSettles? && !e.written) ==>
              Next(Run(events), e).rec == Run(events).rec && Next(Run(events), e).artifacts == Run(events).artifacts
    ensures var cs := Run(events).captures;
            forall i, j :: 0 <= i < j < |cs| && cs[i].Captured? && cs[j].Captured? ==> cs[i].sequence != cs[j].sequence
  {
    RunKeeps(events);
  }

  // A call is accepted, and buffered, exactly if recording is enabled and fewer than `capacity` actions
  // are held; when it is enabled and the buffer full, the call counts as dropped.
  lemma CallsAreRecordedExactly(events: seq<Event>, action: Action, enabled: bool, capacity: nat)
    ensures var r := Run(events).rec;
            var s' := Next(Run(events), ToolCall(action, enabled, capacity));
            var added := if enabled && |r.buffer| < capacity then [action] else [];
            var dropped := if enabled && |r.buffer| >= capacity then 1 else 0;
            s'.rec.accepted == r.accepted + added && s'.rec.buffer == r.buffer + added &&
            s'.rec.droppedCount == r.droppedCount + dropped && (s'.rec.truncated <==> r.truncated || dropped == 1) &&
            s' == Run(events).(rec := s'.rec)
  {
    var r := Run(events).rec;
    assert r.accepted + [] == r.accepted && r.buffer + [] == r.buffer;
  }

  // A capture is refused while another one is in flight and fails without a manifest; otherwise it takes
  // the whole buffer of that moment, keeps it until it is written, and then exactly those actions are in
  // the new artifact and gone from the buffer. The drop count starts anew only with an empty buffer.
  lemma CapturesTakeTheWholeBuffer(events: seq<Event>, built: bool, i: nat, settled: bool)
    ensures var s := Run(events);
            Next(s, StartCapture(built)).captures ==
              s.captures + [if s.captureInFlight then Busy else if built then Building(s.rec.buffer) else Failed]
    ensures var s := Run(events);
            i < |s.captures| && s.captures[i].Building? ==>
              Next(s, SubstrateSettles(i, settled)).captures ==
                s.captures[i := if settled then Writing(s.captures[i].snapshot, s.stagedFileSequence) else Failed]
    ensures var s := Run(events);
            i < |s.captures| && s.captures[i].Writing? ==>
              var s', snapshot := Next(s, WriteSettles(i, settled)), s.captures[i].snapshot;
              s'.captures == s.captures[i := if settled then Captured(snapshot, s.captures[i].sequence) else Failed] &&
              s'.artifacts == s.artifacts + (if settled then [snapshot] else []) &&
              s.rec.buffer == (if settled then snapshot else []) + s'.rec.buffer &&
              s'.rec.droppedCount == if settled && s'.rec.buffer == [] then 0 else s.rec.droppedCount
  {
    hide Run, Concat;
    OneCaptureHoldsAPrefix(events, i);
    var s := Run(events);
    assert [] + s.rec.buffer == s.rec.buffer && s.artifacts + [] == s.artifacts;
  }

  // Why captures are serialised: two commits of the same drained prefix drop an action that neither saw.
  lemma TwoCommitsLoseAnAction(a: Action, b: Action)
    ensures var r := Record(Recorder([a], false, 0, [a]), b, true, 2);
            r.buffer == [a, b] && Commit(Commit(r, 1), 1).buffer == []
  {
    var r := Record(Recorder([a], false, 0, [a]), b, true, 2);
    assert r.buffer[1..] == [b] && r.buffer[1..][1..] == [];
  }
}

/** The recorder's variables and the capture tool's flag as objects. */
module RecorderClass {
  import opened Basics
  import opened RecorderModel

  class ActionRecorder {
    var buffer: seq<Action>
    var truncated: bool
    var droppedCount: nat
    var accepted: seq<Action>

    function View(): Recorder
      reads this
    {
      Recorder(buffer, truncated, droppedCount, accepted)
    }

    constructor ()
      ensures View() == INITIAL.rec
    {
      buffer, truncated, droppedCount, accepted := [], false, 0, [];
    }

    method RecordAction(action: Action, enabled: bool, capacity: nat)
      modifies this
      ensures View() == Record(old(View()), action, enabled, capacity)
    {
      if !enabled { return; }
      if |buffer| >= capacity {
        droppedCount := droppedCount + 1;
        truncated := true;
        return;
      }
      buffer := buffer + [action];
      accepted := accepted + [action];
    }

    method DrainRecordedActions() returns (actions: seq<Action>, wasTruncated: bool, dropped: nat)
      ensures actions == View().buffer && wasTruncated == View().truncated && dropped == View().droppedCount
    {
      actions, wasTruncated, dropped := buffer, truncated, droppedCount;
    }

    method CommitDrainedActions(drainedCount: nat)
      modifies this
      ensures View() == Commit(old(View()), drainedCount)
    {
      buffer := if drainedCount <= |buffer| then buffer[drainedCount..] else [];
      if |buffer| == 0 {
        truncated := false;
        droppedCount := 0;
      }
    }
  }

  class CaptureTool {
    const recorder: ActionRecorder
    var captureInFlight: bool
    var stagedFileSequence: nat
    var captures: seq<Capture>
    var artifacts: seq<seq<Action>>

    function View(): State
      reads this, recorder
    {
      State(recorder.View(), captureInFlight, stagedFileSequence, captures, artifacts)
    }

    constructor (recorder: ActionRecorder)
      requires recorder.View() == INITIAL.rec
      ensures this.recorder == recorder && View() == INITIAL
    {
      this.recorder := recorder;
      captureInFlight, stagedFileSequence, captures, artifacts := false, 0, [], [];
    }

    method Begin(manifestBuilt: bool) returns (call: nat)
      modifies this
      ensures View() == Next(old(View()), StartCapture(manifestBuilt)) && call == |old(captures)|
    {
      call := |captures|;
      if captureInFlight {
        captures := captures + [Busy];
        return;
      }
      captureInFlight := true;
      if !manifestBuilt {
        captures := captures + [Failed];
        captureInFlight := false;
        return;
      }
      var actions, truncated, dropped := recorder.DrainRecordedActions();
      captures := captures + [Building(actions)];
    }

    method AfterSubstrate(call: nat, staged: bool)
      requires call < |captures| && captures[call].Building?
      requires captureInFlight
      modifies this
      ensures View() == Next(old(View()), SubstrateSettles(call, staged))
    {
      if !staged {
        captures := captures[call := Failed];
        captureInFlight := false;
        return;
      }
      captures := captures[call := Writing(captures[call].snapshot, stagedFileSequence)];
      stagedFileSequence := stagedFileSequence + 1;
    }

    method AfterWrite(call: nat, written: bool)
      requires call < |captures| && captures[call].Writing?
      modifies this, recorder
      ensures View() == Next(old(View()), WriteSettles(call, written))
    {
      if !written {
        captures := captures[call := Failed];
        captureInFlight := false;
        return;
      }
      var snapshot := captures[call].snapshot;
      artifacts := artifacts + [snapshot];
      recorder.CommitDrainedActions(|snapshot|);
      captures := captures[call := Captured(snapshot, captures[call].sequence)];
      captureInFlight := false;
    }
  }
}
