// The transport: response collection, completion and the control-command flush.
// Models src/session/agda-transport.ts, goal-terminus.ts, command-completion.ts,
// stdout-line.ts and src/agda/protocol-errors.ts.

/** When a load's goal state has arrived, and when idle completion is allowed. */
module Terminus {
  import opened Basics
  import opened Wire

  function Lower(c: char): char {
    if 'A' <= c <= 'Z' then (c as int + 32) as char else c
  }

  /** Case-insensitive test that `s` begins with the lower-case `prefix`. */
  predicate StartsWithFolded(s: string, prefix: string) {
    |prefix| <= |s| && forall i :: 0 <= i < |prefix| ==> Lower(s[i]) == prefix[i]
  }

  predicate IsWordChar(c: char) {
    'a' <= c <= 'z' || 'A' <= c <= 'Z' || '0' <= c <= '9' || c == '_'
  }

  /** Agda rejecting the command itself rather than reporting on the file. */
  predicate IsFatalProtocolStderr(text: string) {
    var t := Trim(text);
    || StartsWithFolded(t, "cannot read:")
    || StartsWithFolded(t, "failed to parse")
    || (StartsWithFolded(t, "invalid") && (|t| == 7 || !IsWordChar(t[7])))
  }

  function Lowered(s: string): (l: string)
    ensures |l| == |s|
  {
    seq(|s|, i requires 0 <= i < |s| => Lower(s[i]))
  }

  /** `word` and what follows it, up to case: a command Agda rejects. */
  predicate Rejects(word: string, rest: string) {
    || Lowered(word) == "cannot read:"
    || Lowered(word) == "failed to parse"
    || (Lowered(word) == "invalid" && (rest == "" || !IsWordChar(rest[0])))
  }

  /** Stderr is fatal exactly if, behind white space, it begins with such a word. */
  lemma FatalStderrExactly(text: string)
    ensures IsFatalProtocolStderr(text) <==>
      exists left, word, rest :: text == left + word + rest && AllSpace(left) && Rejects(word, rest)
  {
    if IsFatalProtocolStderr(text) {
      var left, core, right := EveryTextHasMargins(text);
      TrimRemovesMargins(left, core, right);
      var n := if StartsWithFolded(core, "cannot read:") then 12 else if StartsWithFolded(core, "failed to parse") then 15 else 7;
      assert text == left + core[..n] + (core[n..] + right);
      assert |core| > 7 ==> (core[7..] + right)[0] == core[7];
      assert Rejects(core[..n], core[n..] + right);
    }
    if left, word, rest :| text == left + word + rest && AllSpace(left) && Rejects(word, rest) {
      FatalBehindSpace(left, word, rest);
    }
  }

  lemma FatalBehindSpace(left: string, word: string, rest: string)
    requires AllSpace(left) && Rejects(word, rest)
    ensures IsFatalProtocolStderr(left + word + rest)
  {
    hide Trim, TrimStart, TrimEnd;
    var gap, core, right := EveryTextHasMargins(rest);
    assert Lower(word[0]) == Lowered(word)[0] && Lower(word[|word| - 1]) == Lowered(word)[|word| - 1];
    assert IsTrimmed(word);
    if core == "" {
      assert left + word + rest == left + word + (gap + right);
      TrimRemovesMargins(left, word, gap + right);
      FoldedIsLowered(word, "");
    } else {
      var whole := word + gap + core;
      assert left + word + rest == left + whole + right;
      assert whole == word + (gap + core);
      assert (gap + core)[0] == rest[0];
      TrimRemovesMargins(left, whole, right);
      FoldedIsLowered(word, gap + core);
    }
  }

  lemma FoldedIsLowered(word: string, rest: string)
    ensures StartsWithFolded(word + rest, Lowered(word))
  {
  }

  datatype Tracker = Tracker(sawInteractionPoints: bool, sawAllGoalsWarnings: bool,
                             sawError: bool, sawFatalStderr: bool)
  {
    function Record(r: Response): Tracker {
      match r
      case InteractionPoints(_) => this.(sawInteractionPoints := true)
      case DisplayInfo(AllGoalsWarnings(_, _, _, _)) => this.(sawAllGoalsWarnings := true)
      case DisplayInfo(ErrorInfo(_)) => this.(sawError := true)
      case StderrOutput(text) =>
        if IsFatalProtocolStderr(text) then this.(sawFatalStderr := true) else this
      case _ => this
    }

    predicate Reached() {
      sawError || sawFatalStderr || (sawInteractionPoints && sawAllGoalsWarnings)
    }
  }

  const FRESH := Tracker(false, false, false, false)

  predicate IsAllGoals(r: Response) { r.DisplayInfo? && r.info.AllGoalsWarnings? }
  predicate IsErrorInfo(r: Response) { r.DisplayInfo? && r.info.ErrorInfo? }
  predicate IsFatal(r: Response) { r.StderrOutput? && IsFatalProtocolStderr(r.text) }

  /** A load's goal state is present in a response list. */
  ghost predicate TerminusSeen(rs: seq<Response>) {
    || (exists r :: r in rs && IsErrorInfo(r))
    || (exists r :: r in rs && IsFatal(r))
    || ((exists r :: r in rs && r.InteractionPoints?) && (exists r :: r in rs && IsAllGoals(r)))
  }

  /** Spelled out: an error, a fatal line on stderr, or both goal events, in any order; a
      goal-specific list of goals does not count. */
  lemma TerminusIsSpelled(rs: seq<Response>)
    ensures TerminusSeen(rs) <==>
      || (exists message :: DisplayInfo(ErrorInfo(message)) in rs)
      || (exists text :: StderrOutput(text) in rs && IsFatalProtocolStderr(text))
      || ((exists ids :: InteractionPoints(ids) in rs)
          && exists gs, n, ws, es :: DisplayInfo(AllGoalsWarnings(gs, n, ws, es)) in rs)
  {
    if r :| r in rs && IsErrorInfo(r) { assert r == DisplayInfo(ErrorInfo(r.info.message)); }
    if r :| r in rs && IsFatal(r) { assert r == StderrOutput(r.text); }
    if r :| r in rs && r.InteractionPoints? { assert r == InteractionPoints(r.ids); }
    if r :| r in rs && IsAllGoals(r) {
      assert r == DisplayInfo(AllGoalsWarnings(r.info.visibleGoals, r.info.invisibleGoals, r.info.warnings, r.info.errors));
    }
  }

  /** The tracker has seen exactly what the list contains. */
  ghost predicate Tracks(tr: Tracker, rs: seq<Response>) {
    && (tr.sawInteractionPoints <==> exists r :: r in rs && r.InteractionPoints?)
    && (tr.sawAllGoalsWarnings <==> exists r :: r in rs && IsAllGoals(r))
    && (tr.sawError <==> exists r :: r in rs && IsErrorInfo(r))
    && (tr.sawFatalStderr <==> exists r :: r in rs && IsFatal(r))
  }

  lemma TracksAppend(tr: Tracker, rs: seq<Response>, r: Response)
    requires Tracks(tr, rs)
    ensures Tracks(tr.Record(r), rs + [r])
  {
    assert forall x :: x in rs + [r] <==> x in rs || x == r;
    assert r in rs + [r];
  }

  lemma TerminusStays(rs: seq<Response>, more: seq<Response>)
    requires TerminusSeen(rs)
    ensures TerminusSeen(rs + more)
  {
    assert forall x :: x in rs ==> x in rs + more;
  }

  /** `shouldResolveOnIdle`: a non-empty queue, and a load only after its terminus. */
  predicate ShouldResolveOnIdle(responseCount: nat, awaitGoalTerminus: bool, sawGoalTerminus: bool) {
    responseCount > 0 && (awaitGoalTerminus ==> sawGoalTerminus)
  }

  class GoalTerminusTracker {
    var sawInteractionPoints: bool
    var sawAllGoalsWarnings: bool
    var sawError: bool
    var sawFatalStderr: bool

    function State(): Tracker
      reads this
    {
      Tracker(sawInteractionPoints, sawAllGoalsWarnings, sawError, sawFatalStderr)
    }

    constructor ()
      ensures State() == FRESH
    {
      sawInteractionPoints, sawAllGoalsWarnings, sawError, sawFatalStderr := false, false, false, false;
    }

    method Reset()
      modifies this
      ensures State() == FRESH
    {
      sawInteractionPoints := false;
      sawAllGoalsWarnings := false;
      sawError := false;
      sawFatalStderr := false;
    }

    method Record(response: Response)
      modifies this
      ensures State() == old(State()).Record(response)
      ensures forall rs :: Tracks(old(State()), rs) ==> Tracks(State(), rs + [response])
    {
      if response.InteractionPoints? {
        sawInteractionPoints := true;
      } else if response.DisplayInfo? {
        if response.info.AllGoalsWarnings? {
          sawAllGoalsWarnings := true;
        } else if response.info.ErrorInfo? {
          sawError := true;
        }
      } else if response.StderrOutput? {
        if IsFatalProtocolStderr(response.text) {
          sawFatalStderr := true;
        }
      }
      forall rs | Tracks(old(State()), rs)
        ensures Tracks(State(), rs + [response])
      {
        TracksAppend(old(State()), rs, response);
      }
    }

    method Reached() returns (reached: bool)
      ensures forall rs :: Tracks(State(), rs) ==> (reached <==> TerminusSeen(rs))
      ensures reached == State().Reached()
    {
      reached := sawError || sawFatalStderr || (sawInteractionPoints && sawAllGoalsWarnings);
    }
  }
}

/** Splitting stdout into lines and each line into at most one response. */
module StdoutLines {
  import opened Basics
  import opened Wire

  /** The complete lines of `s`, without their newlines. */
  function Lines(s: string): seq<string> {
    var n := NewlineAt(s, 0);
    if n == |s| then [] else [s[..n]] + Lines(s[n + 1..])
  }

  /** What follows the last newline. */
  function Tail(s: string): string {
    var n := NewlineAt(s, 0);
    if n == |s| then s else Tail(s[n + 1..])
  }

  /** The first newline at or after `from`, or the length of `s`. */
  function NewlineAt(s: string, from: nat): (n: nat)
    requires from <= |s|
    ensures from <= n <= |s|
    ensures forall i :: from <= i < n ==> s[i] != '\n'
    ensures n < |s| ==> s[n] == '\n'
    decreases |s| - from
  {
    if from == |s| || s[from] == '\n' then from else NewlineAt(s, from + 1)
  }

  lemma NewlineIs(s: string, n: nat)
    requires n <= |s|
    requires forall i :: 0 <= i < n ==> s[i] != '\n'
    requires n < |s| ==> s[n] == '\n'
    ensures NewlineAt(s, 0) == n
  {
  }

  /** Lines and tail rebuild the text. */
  lemma {:induction false} LinesRebuild(s: string)
    ensures s == Joined(Lines(s)) + Tail(s)
    decreases |s|
  {
    var n := NewlineAt(s, 0);
    if n < |s| {
      var rest := s[n + 1..];
      LinesRebuild(rest);
      JoinedCons(s[..n], Lines(rest));
      assert s == s[..n] + "\n" + rest;
      ConcatAssoc(s[..n] + "\n", Joined(Lines(rest)), Tail(rest));
    }
  }

  lemma JoinedCons(line: string, lines: seq<string>)
    ensures Joined([line] + lines) == line + "\n" + Joined(lines)
  {
    assert ([line] + lines)[1..] == lines;
  }

  lemma ConcatAssoc(a: string, b: string, c: string)
    ensures a + b + c == a + (b + c)
  {
  }

  /** No line holds a newline, and neither does the tail. */
  lemma {:induction false} LinesAreLines(s: string)
    ensures '\n' !in Tail(s)
    ensures forall i :: 0 <= i < |Lines(s)| ==> '\n' !in Lines(s)[i]
    decreases |s|
  {
    var n := NewlineAt(s, 0);
    if n < |s| {
      LinesAreLines(s[n + 1..]);
    }
  }

  function Joined(lines: seq<string>): string {
    if lines == [] then "" else lines[0] + "\n" + Joined(lines[1..])
  }

  /** Splitting in two steps, keeping the unfinished line, is splitting at once. */
  lemma {:induction false} LinesOfConcat(a: string, b: string)
    ensures Lines(a + b) == Lines(a) + Lines(Tail(a) + b)
    ensures Tail(a + b) == Tail(Tail(a) + b)
    decreases |a|
  {
    var n := NewlineAt(a, 0);
    if n < |a| {
      NewlineIs(a + b, n);
      assert (a + b)[..n] == a[..n];
      assert (a + b)[n + 1..] == a[n + 1..] + b;
      LinesOfConcat(a[n + 1..], b);
    }
  }

  function StripPromptPrefix(line: string): string {
    if "JSON> " <= line then Trim(line[6..])
    else if "Agda2> " <= line then Trim(line[7..])
    else if line == "JSON>" || line == "Agda2>" then ""
    else line
  }

  /** `parseAgdaStdoutLine` followed by JSON decoding: nothing for a blank line, an
      undecodable JSON line or a bare prompt; a notice for other text. */
  function DecodeLine(line: string, json: string -> Option<Response>): seq<Response> {
    var text := StripPromptPrefix(Trim(line));
    if text == "" then []
    else if text[0] == '{' || text[0] == '[' then
      match json(text)
      case Some(r) => [r]
      case None => []
    else [StderrOutput(text)]
  }

  /** What a text without prompt and margins stands for. */
  function Denotes(text: string, json: string -> Option<Response>): seq<Response>
    requires text != ""
  {
    if text[0] != '{' && text[0] != '[' then [StderrOutput(text)]
    else if json(text).Some? then [json(text).value] else []
  }

  /** Behind either prompt, in any white space, a line stands for its text. */
  lemma PromptsAreStripped(left: string, prompt: string, gap: string, text: string, right: string,
                           json: string -> Option<Response>)
    requires prompt == "JSON> " || prompt == "Agda2> "
    requires AllSpace(left) && AllSpace(gap) && AllSpace(right) && IsTrimmed(text) && text != ""
    ensures DecodeLine(left + prompt + gap + text + right, json) == Denotes(text, json)
  {
    hide TrimStart, TrimEnd, Trim;
    var line := prompt + gap + text;
    assert left + prompt + gap + text + right == left + line + right;
    TrimRemovesMargins(left, line, right);
    var n := if prompt == "JSON> " then 6 else 7;
    assert line[..n] == prompt && line[n..] == gap + text == gap + text + "";
    TrimRemovesMargins(gap, text, "");
    assert line[0] == prompt[0];
  }

  /** A bare prompt stands for nothing, and so does a blank line. */
  lemma PromptsAloneAreDropped(left: string, prompt: string, right: string, json: string -> Option<Response>)
    requires prompt == "JSON>" || prompt == "Agda2>" || prompt == ""
    requires AllSpace(left) && AllSpace(right)
    ensures DecodeLine(left + prompt + right, json) == []
  {
    TrimRemovesMargins(left, prompt, right);
  }

  /** Any other line stands for its text as it is. */
  lemma OtherLinesAreTexts(left: string, text: string, right: string, json: string -> Option<Response>)
    requires AllSpace(left) && AllSpace(right) && IsTrimmed(text) && text != ""
    requires !("JSON> " <= text) && !("Agda2> " <= text) && text != "JSON>" && text != "Agda2>"
    ensures DecodeLine(left + text + right, json) == Denotes(text, json)
  {
    TrimRemovesMargins(left, text, right);
  }
}

/** The transport state and the effect of each of its handlers and timers. */
module TransportModel {
  import opened Basics
  import opened Wire
  import opened Terminus
  import opened StdoutLines

  datatype CommandKind = NoCommand | Regular | Control
  /** What an operation wrote to stdin. */
  datatype Purpose = Probe | User | Flush
  datatype Origin = Idle | ProcessClose
  datatype Completion = ByIdle | ByProcessClose | ByFlushWindow | ByError
  datatype Rejection = Interrupted | Destroyed | TimedOut | ProcessError

  datatype Outcome =
    | Pending
    | Resolved(responses: seq<Response>, how: Completion, until: nat)
    | Rejected(why: Rejection)

  /** One write to stdin and the promise that collects its answer. `task` is the session
      task that issued it; `since` and `until` are positions in the accepted log. */
  datatype Operation = Operation(
    task: nat, purpose: Purpose, proc: nat, awaitsTerminus: bool, timeoutMs: nat,
    startedAt: nat, since: nat, deadline: nat,
    idleFinishes: nat, closeFinishes: nat, outcome: Outcome)

  /** An armed kill escalation: the flush that armed it, and how much was parsed then. */
  datatype Escalation = Escalation(op: nat, deadline: nat, parsedBefore: nat)

  /** The fields of AgdaTransport, its operations in start order, and two logs: every
      response handed to recordCollectedResponse, and every one pushed to a queue. */
  datatype Transport = Transport(
    buffer: string, responseQueue: seq<Response>, collecting: bool,
    currentCommandKind: CommandKind, idleTimer: bool,
    controlEscalation: Option<Escalation>, inactivityOf: Option<nat>,
    awaitGoalTerminus: bool, terminus: Tracker,
    operations: seq<Operation>,
    accepted: seq<Response>, acceptedAt: seq<nat>, parsed: seq<Response>)

  const CONTROL_ESCALATION_MS: nat := 5_000

  const IDLE_TRANSPORT := Transport("", [], false, NoCommand, false, None, None, false, FRESH, [], [], [], [])

  /** Operation `k` still holds its error listener. */
  predicate Listening(t: Transport, k: nat) {
    k < |t.operations| && t.operations[k].outcome.Pending?
  }

  predicate AnyListening(t: Transport) {
    exists k :: 0 <= k < |t.operations| && t.operations[k].outcome.Pending?
  }

  // ── Collecting responses ──────────────────────────────────────────────

  function Push(t: Transport, r: Response, now: nat): Transport {
    t.(responseQueue := t.responseQueue + [r],
       accepted := t.accepted + [r],
       acceptedAt := t.acceptedAt + [now],
       terminus := if t.awaitGoalTerminus then t.terminus.Record(r) else t.terminus)
  }

  /** Push the inactivity deadline of the current regular command back. */
  function Rearm(t: Transport, now: nat): Transport {
    match t.inactivityOf
    case None => t
    case Some(k) =>
      if k < |t.operations| then
        var op := t.operations[k];
        t.(operations := t.operations[k := op.(deadline := now + op.timeoutMs)])
      else t
  }

  function BumpIdle(t: Transport): Transport {
    t.(idleTimer := t.collecting &&
         ShouldResolveOnIdle(|t.responseQueue|, t.awaitGoalTerminus, t.terminus.Reached()))
  }

  /** recordCollectedResponse. */
  function Record(t: Transport, r: Response, now: nat): Transport {
    var t1 := t.(parsed := t.parsed + [r],
                 controlEscalation := if IsControlEcho(r) then None else t.controlEscalation);
    if !t1.collecting || (t1.currentCommandKind == Regular && IsControlEcho(r)) then t1
    else BumpIdle(Rearm(Push(t1, r, now), now))
  }

  function RecordAll(t: Transport, rs: seq<Response>, now: nat): Transport
    decreases |rs|
  {
    if rs == [] then t else RecordAll(Record(t, rs[0], now), rs[1..], now)
  }

  function RecordLines(t: Transport, lines: seq<string>, json: string -> Option<Response>, now: nat): Transport
    decreases |lines|
  {
    if lines == [] then t
    else RecordLines(RecordAll(t, DecodeLine(lines[0], json), now), lines[1..], json, now)
  }

  predicate Hears(t: Transport) {
    t.collecting || t.controlEscalation.Some?
  }

  /** handleStdout: dropped while idle unless an escalation is armed. */
  function HandleStdout(t: Transport, chunk: string, json: string -> Option<Response>, now: nat): Transport {
    if !Hears(t) then t
    else
      var text := t.buffer + chunk;
      RecordLines(t, Lines(text), json, now).(buffer := Tail(text))
  }

  function HandleStderr(t: Transport, text: string, now: nat): Transport {
    if t.collecting then Record(t, StderrOutput(text), now) else t
  }

  // ── Completion ────────────────────────────────────────────────────────

  /** The `finish` closure of operation `k`: the shared fields are reset whether or not
      the promise was already settled. */
  function Finish(t: Transport, k: nat, outcome: Outcome): Transport
    requires k < |t.operations|
  {
    var t1 := t.(collecting := false, idleTimer := false, inactivityOf := None);
    if t.operations[k].outcome.Pending? then
      t1.(operations := t.operations[k := t.operations[k].(outcome := outcome)])
    else t1
  }

  /** The `settle` closure of a flush. */
  function Settle(t: Transport, k: nat, how: Completion): Transport
    requires k < |t.operations|
  {
    t.(collecting := false, idleTimer := false,
       operations := t.operations[k := t.operations[k].(outcome := Resolved(t.responseQueue, how, |t.accepted|))])
  }

  /** The `onDone` listeners: each pending command schedules one trailing finish. */
  function EmitDone(t: Transport, origin: Origin): Transport {
    t.(operations := seq(|t.operations|, k requires 0 <= k < |t.operations| =>
      var op := t.operations[k];
      if !op.outcome.Pending? || op.purpose.Flush? then op
      else if origin.Idle? then op.(idleFinishes := op.idleFinishes + 1)
      else op.(closeFinishes := op.closeFinishes + 1)))
  }

  function OnError(t: Transport, k: nat, why: Rejection): (t': Transport)
    requires k < |t.operations|
    ensures |t'.operations| == |t.operations|
  {
    if !t.operations[k].outcome.Pending? then t
    else if t.operations[k].purpose.Flush? then Settle(t, k, ByError)
    else Finish(t, k, Rejected(why))
  }

  /** Emit "error": every listener from operation `k` on settles, in order. */
  function EmitError(t: Transport, k: nat, why: Rejection): (t': Transport)
    requires k <= |t.operations|
    ensures |t'.operations| == |t.operations|
    decreases |t.operations| - k
  {
    if k == |t.operations| then t else EmitError(OnError(t, k, why), k + 1, why)
  }

  function HandleProcessClose(t: Transport): Transport {
    EmitDone(t.(collecting := false, idleTimer := false), ProcessClose)
  }

  function IdleTimerFires(t: Transport): Transport {
    var t1 := t.(idleTimer := false);
    if t1.collecting then EmitDone(t1, Idle) else t1
  }

  function Pended(op: Operation, origin: Origin): nat {
    if origin.Idle? then op.idleFinishes else op.closeFinishes
  }

  /** A trailing finish scheduled by `onDone` runs. */
  function FinishTimerFires(t: Transport, k: nat, origin: Origin): Transport
    requires k < |t.operations| && Pended(t.operations[k], origin) > 0
  {
    var op := t.operations[k];
    var op1 := if origin.Idle? then op.(idleFinishes := op.idleFinishes - 1)
               else op.(closeFinishes := op.closeFinishes - 1);
    var how := if origin.Idle? then ByIdle else ByProcessClose;
    Finish(t.(operations := t.operations[k := op1]), k, Resolved(t.responseQueue, how, |t.accepted|))
  }

  /** `onTimeout`, apart from the signal. */
  function InactivityFires(t: Transport, k: nat): Transport
    requires k < |t.operations|
  {
    Finish(t.(buffer := ""), k, Rejected(TimedOut))
  }

  // ── Starting and destroying ───────────────────────────────────────────

  /** sendCommand up to and including the write. */
  function StartCommand(t: Transport, task: nat, purpose: Purpose, proc: nat,
                        awaitsTerminus: bool, timeoutMs: nat, now: nat): Transport
  {
    t.(buffer := "", responseQueue := [], collecting := true, currentCommandKind := Regular,
       awaitGoalTerminus := awaitsTerminus, terminus := FRESH,
       inactivityOf := Some(|t.operations|),
       operations := t.operations + [Operation(task, purpose, proc, awaitsTerminus, timeoutMs,
                                               now, |t.accepted|, now + timeoutMs, 0, 0, Pending)])
  }

  /** sendFireAndForgetCommand up to and including the write. */
  function StartFlush(t: Transport, task: nat, proc: nat, armEscalation: bool, now: nat): Transport {
    var t1 := EmitError(t, 0, Interrupted);
    t1.(buffer := "", responseQueue := [], collecting := true, currentCommandKind := Control,
        awaitGoalTerminus := false, inactivityOf := None,
        controlEscalation := if armEscalation
          then Some(Escalation(|t1.operations|, now + CONTROL_ESCALATION_MS, |t1.parsed|)) else None,
        operations := t1.operations + [Operation(task, Flush, proc, false, 0,
                                                 now, |t1.accepted|, 0, 0, 0, Pending)])
  }

  function DestroyTransport(t: Transport): Transport {
    EmitError(t.(idleTimer := false, controlEscalation := None, buffer := "", responseQueue := [],
                 collecting := false, currentCommandKind := NoCommand,
                 awaitGoalTerminus := false, inactivityOf := None), 0, Destroyed)
  }
}
