// A run in which a load cut short by its process is reported complete.

/** Two loads of one path. The process of the first dies after InteractionPoints; the
    second, queued behind it, finds a type error on a fresh process and sets the file the
    first one's reconciliation then looks at. */
module TruncatedLoads {
  import opened Basics
  import opened Wire
  import opened Terminus
  import opened LoadParsing
  import opened TransportModel
  import opened StdoutLines
  import opened ProcessCloses
  import opened Composed
  import S = SessionModel
  import L = LoadModel
  import TransportProofs

  const PATH := "A"
  const MS: nat := 100
  const NOTICE: Response := StderrOutput("x")
  const HALF: Response := InteractionPoints([])
  const WRONG: Response := DisplayInfo(ErrorInfo("e"))

  /** The two JSON lines of the run. */
  predicate Decodes(json: Json) {
    json("{") == Some(HALF) && json("[") == Some(WRONG)
  }

  lemma RunMore(events: seq<Event>, e: Event, json: Json)
    ensures Run(events + [e], json) == Next(Run(events, json), e, json)
  {
    assert (events + [e])[..|events|] == events;
    hide Next;
  }

  lemma RunNothing(json: Json)
    ensures Run([], json) == INITIAL
  {
  }

  lemma TwoMore(events: seq<Event>, a: Event, b: Event, json: Json) returns (more: seq<Event>)
    ensures Run(more, json) == Next(Next(Run(events, json), a, json), b, json) && more == events + [a, b]
  {
    hide Next;
    RunMore(events, a, json);
    RunMore(events + [a], b, json);
    more := events + [a] + [b];
    assert more == events + [a, b];
  }

  // ── A command that is answered on stderr and goes idle ────────────────

  /** Operation `k` is the last one, pending, and has received nothing. */
  ghost predicate Waiting(s: S.State, k: nat, p: nat) {
    && S.Heard(s, p) && k + 1 == |s.t.operations| && s.t.operations[k].outcome.Pending?
    && (forall j :: 0 <= j < k ==> !s.t.operations[j].outcome.Pending?)
    && !s.t.operations[k].purpose.Flush? && s.t.operations[k].idleFinishes == 0
    && s.t.collecting && s.t.currentCommandKind.Regular? && s.t.inactivityOf == Some(k)
    && s.t.responseQueue == [] && s.t.operations[k].deadline == s.os.now + s.t.operations[k].timeoutMs
  }

  /** It has been delivered `r`. */
  function Settled(s: S.State, k: nat, r: Response): S.State
    requires k < |s.t.operations|
  {
    s.(t := s.t.(responseQueue := [r], accepted := s.t.accepted + [r], acceptedAt := s.t.acceptedAt + [s.os.now],
                 parsed := s.t.parsed + [r], collecting := false, idleTimer := false, inactivityOf := None,
                 terminus := if s.t.awaitGoalTerminus then s.t.terminus.Record(r) else s.t.terminus,
                 operations := s.t.operations[k := s.t.operations[k].(
                   outcome := Resolved([r], ByIdle, |s.t.accepted| + 1))]))
  }

  lemma Completes(s: S.State, k: nat, p: nat, r: Response, json: Json)
    requires Waiting(s, k, p) && !IsControlEcho(r)
    requires s.t.awaitGoalTerminus ==> s.t.terminus.Record(r).Reached()
    ensures var s1 := s.(t := Record(s.t, r, s.os.now));
      S.Next(S.Next(s1, S.IdleTimer, json), S.FinishTimer(k, Idle), json) == Settled(s, k, r)
  {
    var s1 := s.(t := Record(s.t, r, s.os.now));
    assert s1.t.operations == s.t.operations && s1.t.responseQueue == [r];
    assert s1.t.idleTimer && s1.t.collecting;
    var s2 := S.Next(s1, S.IdleTimer, json);
    assert s2.t.operations == s.t.operations[k := s.t.operations[k].(idleFinishes := 1)];
    var s3 := S.Next(s2, S.FinishTimer(k, Idle), json);
    assert s3.t.operations == Settled(s, k, r).t.operations;
  }

  lemma StderrIsRecorded(s: S.State, k: nat, p: nat, json: Json)
    requires Waiting(s, k, p)
    ensures S.Next(s, S.Stderr(p, "x"), json) == s.(t := Record(s.t, NOTICE, s.os.now))
  {
    hide Record;
  }

  lemma Notices(c: State, k: nat, p: nat, es: seq<Event>, json: Json) returns (more: seq<Event>)
    requires Run(es, json) == c && Waiting(c.s, k, p) && !c.s.t.awaitGoalTerminus
    ensures Run(more, json) == c.(s := Settled(c.s, k, NOTICE))
    ensures more == es + [OfSession(S.Stderr(p, "x")), OfSession(S.IdleTimer), OfSession(S.FinishTimer(k, Idle))]
  {
    hide Run, Settled, Waiting;
    more := es + [OfSession(S.Stderr(p, "x"))] + [OfSession(S.IdleTimer)] + [OfSession(S.FinishTimer(k, Idle))];
    RunMore(es, OfSession(S.Stderr(p, "x")), json);
    RunMore(es + [OfSession(S.Stderr(p, "x"))], OfSession(S.IdleTimer), json);
    RunMore(es + [OfSession(S.Stderr(p, "x"))] + [OfSession(S.IdleTimer)], OfSession(S.FinishTimer(k, Idle)), json);
    Completes(c.s, k, p, NOTICE, json);
    StderrIsRecorded(c.s, k, p, json);
    TimersStep(c, S.Stderr(p, "x"), json);
    var c1 := c.(s := S.Next(c.s, S.Stderr(p, "x"), json));
    TimersStep(c1, S.IdleTimer, json);
    TimersStep(c1.(s := S.Next(c1.s, S.IdleTimer, json)), S.FinishTimer(k, Idle), json);
  }

  lemma TimersStep(c: State, e: S.Event, json: Json)
    requires e.Stderr? || e.Stdout? || e.IdleTimer? || e.FinishTimer?
    ensures Next(c, OfSession(e), json) == c.(s := S.Next(c.s, e, json))
  {
    hide S.Next;
  }

  // ── The first load, up to the death of its process ────────────────────

  const TASK_A := S.Task(S.UserCommand(1, true, false, MS), None, S.Queued)
  const TASK_B := S.Task(S.UserCommand(2, true, false, MS), Some(0), S.Queued)
  const TASK_M := S.Task(S.UserCommand(3, false, false, MS), Some(1), S.Queued)

  function ProbeOf(task: nat, proc: nat, since: nat): Operation {
    Operation(task, Probe, proc, false, S.VERSION_DETECTION_TIMEOUT_MS, 0, since, S.VERSION_DETECTION_TIMEOUT_MS, 0, 0, Pending)
  }

  function CommandOf(task: nat, proc: nat, awaits: bool, since: nat): Operation {
    Operation(task, User, proc, awaits, MS, 0, since, MS, 0, 0, Pending)
  }

  function At(i: nat, path: string, point: L.Point): L.Load {
    L.Load(path, false, i, point)
  }

  /** The probe of the first load is written. */
  function ProbingA(): State {
    State(
      S.State(
        IDLE_TRANSPORT.(collecting := true, currentCommandKind := Regular, inactivityOf := Some(0), operations := [ProbeOf(0, 0, 0)]),
        S.Os([S.NEW_PROC], [], 0),
        S.INITIAL.ses.(proc := Some(0), commandSerial := 1, queueTail := Some(0), versionAttempts := 1,
                       tasks := [TASK_A.(phase := S.Probing(Some(0), 0, None))])),
      L.Sessions(L.Fields(None, 2, [], None, None, 0), [At(0, PATH, L.Loading)], 2),
      [Link(Some(0), [], 0)], None)
  }

  lemma ProbeStarts(json: Json)
    ensures Next(Next(INITIAL, BeginLoad(PATH, false, true, true, MS), json), OfSession(S.Proceed(0, false)), json) == ProbingA()
  {
    var c1 := Next(INITIAL, BeginLoad(PATH, false, true, true, MS), json);
    assert c1.s.ses.tasks == [TASK_A] && c1.l.loads == [At(0, PATH, L.Loading)] && c1.links == [Link(Some(0), [], 0)];
    var c2 := Next(c1, OfSession(S.Proceed(0, false)), json);
    assert c2.s.os.procs == [S.NEW_PROC];
    assert c2.s.ses.tasks == ProbingA().s.ses.tasks && c2.s.t.operations == ProbingA().s.t.operations;
    assert c2.s == ProbingA().s && c2.l == ProbingA().l;
  }

  lemma FirstProbes(json: Json) returns (es: seq<Event>)
    ensures Run(es, json) == ProbingA()
  {
    hide Next;
    ProbeStarts(json);
    es := TwoMore([], BeginLoad(PATH, false, true, true, MS), OfSession(S.Proceed(0, false)), json);
  }

  /** Its command is written and the second load is queued. */
  function WrittenA(): State {
    State(
      S.State(
        Settled(ProbingA().s, 0, NOTICE).t.(
          responseQueue := [], collecting := true, inactivityOf := Some(1), awaitGoalTerminus := true,
          operations := Settled(ProbingA().s, 0, NOTICE).t.operations + [CommandOf(0, 0, true, 1)]),
        ProbingA().s.os,
        ProbingA().s.ses.(versionKnown := true, commandSerial := 2, queueTail := Some(1),
                         tasks := [TASK_A.(phase := S.Commanding(1)), TASK_B])),
      L.Sessions(L.Fields(None, 3, [], None, None, 0), [At(0, PATH, L.Loading), At(2, PATH, L.Loading)], 3),
      [Link(Some(0), [], 0), Link(Some(1), [], 0)], None)
  }

  lemma FirstWrites(json: Json)
    ensures var c := ProbingA().(s := Settled(ProbingA().s, 0, NOTICE));
      Next(Next(c, OfSession(S.Proceed(0, true)), json), BeginLoad(PATH, false, true, true, MS), json) == WrittenA()
  {
    var c := ProbingA().(s := Settled(ProbingA().s, 0, NOTICE));
    var c1 := Next(c, OfSession(S.Proceed(0, true)), json);
    assert c1.s.ses.tasks == [TASK_A.(phase := S.Commanding(1))];
    assert c1.s.t == WrittenA().s.t;
    var c2 := Next(c1, BeginLoad(PATH, false, true, true, MS), json);
    assert c2.s.ses.tasks == WrittenA().s.ses.tasks;
    assert c2.l == WrittenA().l && c2.links == WrittenA().links;
  }

  lemma FirstIsWritten(json: Json) returns (es: seq<Event>)
    ensures Run(es, json) == WrittenA()
  {
    hide Next, Settled;
    es := FirstProbes(json);
    es := Notices(ProbingA(), 0, 0, es, json);
    FirstWrites(json);
    es := TwoMore(es, OfSession(S.Proceed(0, true)), BeginLoad(PATH, false, true, true, MS), json);
  }

  /** InteractionPoints came, and the process is gone. */
  function ClosedA(): State {
    State(
      S.State(
        WrittenA().s.t.(
          responseQueue := [HALF], accepted := [NOTICE, HALF], acceptedAt := [0, 0], parsed := [NOTICE, HALF],
          terminus := FRESH.Record(HALF), collecting := false,
          operations := WrittenA().s.t.operations[1 := CommandOf(0, 0, true, 1).(closeFinishes := 1)]),
        S.Os([S.NEW_PROC.(exited := true, closed := true)], [], 0),
        WrittenA().s.ses.(proc := None, versionKnown := false, versionAttempts := 0)),
      L.Sessions(L.Fields(None, 4, [], None, None, 0), WrittenA().l.loads, 4),
      WrittenA().links, None)
  }

  lemma OneLine(chunk: string, c: char)
    requires chunk == [c, '\n'] && (c == '{' || c == '[')
    ensures Lines("" + chunk) == [[c]] && Tail("" + chunk) == ""
    ensures Trim([c]) == [c] && StripPromptPrefix([c]) == [c]
  {
    NewlineIs(chunk, 1);
    assert "" + chunk == chunk && chunk[..1] == [c] && chunk[2..] == "";
    assert NewlineAt("", 0) == 0;
  }

  /** A line that decodes to one response. */
  lemma LineIsRecorded(t: Transport, chunk: string, c: char, r: Response, json: Json, now: nat)
    requires t.collecting && t.buffer == "" && chunk == [c, '\n'] && (c == '{' || c == '[') && json([c]) == Some(r)
    ensures HandleStdout(t, chunk, json, now) == Record(t, r, now).(buffer := "")
  {
    OneLine(chunk, c);
    assert DecodeLine([c], json) == [r];
    assert RecordAll(t, [r], now) == Record(t, r, now) by { assert [r][1..] == []; }
    assert [[c]][1..] == [];
    assert RecordLines(t, [[c]], json, now) == RecordAll(t, [r], now);
    hide Record;
  }

  /** The first load's transport once InteractionPoints has come, whatever else is queued. */
  lemma HalfArrives(c: State, json: Json)
    requires Decodes(json) && c.s.t == WrittenA().s.t && c.s.os == WrittenA().s.os
    ensures Next(c, OfSession(S.Stdout(0, "{\n")), json) == c.(
      s := c.s.(t := ClosedA().s.t.(collecting := true, operations := WrittenA().s.t.operations)))
  {
    LineIsRecorded(WrittenA().s.t, "{\n", '{', HALF, json, 0);
    HalfIsRecorded();
    hide HandleStdout, Record, ClosedA;
  }

  lemma HalfIsRecorded()
    ensures Record(WrittenA().s.t, HALF, 0) == ClosedA().s.t.(collecting := true, operations := WrittenA().s.t.operations)
  {
    var t := Record(WrittenA().s.t, HALF, 0);
    assert t.operations == WrittenA().s.t.operations;
    assert [] + [HALF] == [HALF] && [NOTICE] + [HALF] == [NOTICE, HALF] && [0] + [0] == [0, 0];
  }

  lemma FirstCloses(json: Json)
    requires Decodes(json)
    ensures Next(Next(Next(WrittenA(), OfSession(S.Stdout(0, "{\n")), json), OfSession(S.ProcExited(0)), json),
                 OfSession(S.ProcClosed(0)), json) == ClosedA()
  {
    hide Next;
    HalfArrives(WrittenA(), json);
    ProcessDies(json);
  }

  lemma ProcessDies(json: Json)
    ensures var c1 := WrittenA().(
              s := WrittenA().s.(t := ClosedA().s.t.(collecting := true, operations := WrittenA().s.t.operations)));
      Next(Next(c1, OfSession(S.ProcExited(0)), json), OfSession(S.ProcClosed(0)), json) == ClosedA()
  {
    var c1 := WrittenA().(
      s := WrittenA().s.(t := ClosedA().s.t.(collecting := true, operations := WrittenA().s.t.operations)));
    var c3 := Next(Next(c1, OfSession(S.ProcExited(0)), json), OfSession(S.ProcClosed(0)), json);
    assert c3.s.t.operations == ClosedA().s.t.operations && c3.s.os.procs == ClosedA().s.os.procs;
    assert c3.l == ClosedA().l;
  }

  /** What had come is delivered as the result. */
  function DeliveredA(): State {
    State(
      S.State(
        ClosedA().s.t.(inactivityOf := None,
                      operations := WrittenA().s.t.operations[1 :=
                        CommandOf(0, 0, true, 1).(outcome := Resolved([HALF], ByProcessClose, 2))]),
        ClosedA().s.os,
        ClosedA().s.ses.(tasks := [TASK_A.(phase := S.Settled(S.Delivered([HALF]))), TASK_B])),
      L.Sessions(L.Fields(None, 5, [], None, None, 0), WrittenA().l.loads, 5),
      WrittenA().links, None)
  }

  lemma FirstDelivers(json: Json)
    ensures Next(Next(ClosedA(), OfSession(S.FinishTimer(1, ProcessClose)), json), OfSession(S.Proceed(0, false)), json)
      == DeliveredA()
  {
    var c1 := Next(ClosedA(), OfSession(S.FinishTimer(1, ProcessClose)), json);
    assert c1.s.t.operations == DeliveredA().s.t.operations;
    var c2 := Next(c1, OfSession(S.Proceed(0, false)), json);
    assert c2.s.ses.tasks == DeliveredA().s.ses.tasks;
    assert c2.l == DeliveredA().l;
  }

  const CLEAN := ParsedLoad(true, [], [], [], [], 0, true)
  const HALFWAY := L.Progress([HALF], CLEAN, L.First, [], [], 0)

  /** The first load has set the file and asks for the metas. */
  function ContinuedA(): State {
    State(
      DeliveredA().s.(ses := DeliveredA().s.ses.(currentFile := Some(PATH), commandSerial := 3, queueTail := Some(2),
                                               tasks := DeliveredA().s.ses.tasks + [TASK_M])),
      L.Sessions(L.Fields(Some(PATH), 6, [], Some(1), None, 0),
                 [At(0, PATH, L.AwaitingMetas(HALFWAY)), At(2, PATH, L.Loading)], 6),
      [Link(Some(0), [Query(Some(2), None)], 0), Link(Some(1), [], 0)], Some(0))
  }

  lemma HalfIsClean()
    ensures Parse([HALF]) == CLEAN && !L.IsFatalReply([HALF])
  {
    assert [HALF][..0] == [] && [HALF][0].InteractionPoints?;
    assert Displayed([HALF]) == Displayed([]) && InteractionIds([HALF]) == AddIds([], []);
    assert StderrTexts([HALF]) == StderrTexts([]) + [] && ErrorTexts([HALF]) == ErrorTexts([]) + [];
  }

  lemma FirstAnswered()
    ensures L.Next(DeliveredA().l, L.LoadAnswered(0, [HALF], Some(1), 0)) == ContinuedA().l
  {
    HalfIsClean();
    hide Parse, L.IsFatalReply;
    assert L.Next(DeliveredA().l, L.LoadAnswered(0, [HALF], Some(1), 0)).loads == ContinuedA().l.loads;
  }

  lemma FirstContinues(json: Json)
    ensures Next(DeliveredA(), LoadContinues(0, Some(1), 0, MS), json) == ContinuedA()
  {
    FirstAnswered();
    HalfIsClean();
    hide Parse, L.IsFatalReply, L.Next;
    var c := Next(DeliveredA(), LoadContinues(0, Some(1), 0, MS), json);
    assert c.l == ContinuedA().l;
    assert c.s.ses.tasks == ContinuedA().s.ses.tasks && c.s == ContinuedA().s;
    assert c.links[0].queries == [Query(Some(2), None)];
    assert c.links == ContinuedA().links;
  }

  // ── The second load, on a fresh process ───────────────────────────────

  function ProbingB(): State {
    State(
      S.State(
        ContinuedA().s.t.(responseQueue := [], collecting := true, awaitGoalTerminus := false, terminus := FRESH,
                         inactivityOf := Some(2), operations := ContinuedA().s.t.operations + [ProbeOf(1, 1, 2)]),
        ContinuedA().s.os.(procs := ContinuedA().s.os.procs + [S.NEW_PROC]),
        ContinuedA().s.ses.(proc := Some(1), currentFile := None, versionAttempts := 1,
                           tasks := ContinuedA().s.ses.tasks[1 := TASK_B.(phase := S.Probing(Some(2), 1, None))])),
      L.Sessions(L.Fields(None, 7, [], None, None, 0), ContinuedA().l.loads, 7),
      ContinuedA().links, None)
  }

  lemma SecondProbes(json: Json)
    ensures Next(ContinuedA(), OfSession(S.Proceed(1, false)), json) == ProbingB()
  {
    assert !Owed(ContinuedA());
    var c := Next(ContinuedA(), OfSession(S.Proceed(1, false)), json);
    assert c.s.ses.tasks == ProbingB().s.ses.tasks && c.s.t.operations == ProbingB().s.t.operations;
    assert c.l == ProbingB().l;
  }

  /** Its command is written. */
  function WrittenB(): State {
    ProbingB().(
      s := S.State(
        Settled(ProbingB().s, 2, NOTICE).t.(
          responseQueue := [], collecting := true, inactivityOf := Some(3), awaitGoalTerminus := true,
          operations := Settled(ProbingB().s, 2, NOTICE).t.operations + [CommandOf(1, 1, true, 3)]),
        ProbingB().s.os,
        ProbingB().s.ses.(versionKnown := true,
                         tasks := ContinuedA().s.ses.tasks[1 := TASK_B.(phase := S.Commanding(3))])))
  }

  lemma SecondWrites(json: Json)
    ensures Next(ProbingB().(s := Settled(ProbingB().s, 2, NOTICE)), OfSession(S.Proceed(1, true)), json) == WrittenB()
  {
    var c := Next(ProbingB().(s := Settled(ProbingB().s, 2, NOTICE)), OfSession(S.Proceed(1, true)), json);
    assert c.s.ses.tasks == WrittenB().s.ses.tasks && c.s.t == WrittenB().s.t;
  }

  /** The type error is its goal terminus; the stream goes idle. */
  lemma SecondIsWaiting()
    ensures Waiting(WrittenB().s, 3, 1) && WrittenB().s.t.terminus.Record(WRONG).Reached()
  {
  }

  lemma SecondAnswers(es: seq<Event>, json: Json) returns (more: seq<Event>)
    requires Decodes(json) && Run(es, json) == WrittenB()
    ensures Run(more, json) == WrittenB().(s := Settled(WrittenB().s, 3, WRONG))
  {
    hide Run, Settled, Waiting, HandleStdout, Record, WrittenB, Next, S.Next;
    var c, a, b, d := WrittenB(), S.Stdout(1, "[\n"), S.IdleTimer, S.FinishTimer(3, Idle);
    SecondIsWaiting();
    Completes(c.s, 3, 1, WRONG, json);
    StdoutIsRecorded(json);
    more := es + [OfSession(a)] + [OfSession(b)] + [OfSession(d)];
    RunMore(es, OfSession(a), json);
    RunMore(es + [OfSession(a)], OfSession(b), json);
    RunMore(es + [OfSession(a)] + [OfSession(b)], OfSession(d), json);
    TimersStep(c, a, json);
    var c1 := c.(s := S.Next(c.s, a, json));
    TimersStep(c1, b, json);
    TimersStep(c1.(s := S.Next(c1.s, b, json)), d, json);
  }

  lemma StdoutIsRecorded(json: Json)
    requires Decodes(json)
    ensures S.Next(WrittenB().s, S.Stdout(1, "[\n"), json) == WrittenB().s.(t := Record(WrittenB().s.t, WRONG, WrittenB().s.os.now))
  {
    LineIsRecorded(WrittenB().s.t, "[\n", '[', WRONG, json, 0);
    hide HandleStdout;
  }

  function DeliveredB(): State {
    WrittenB().(
      s := Settled(WrittenB().s, 3, WRONG).(
        ses := WrittenB().s.ses.(tasks := ContinuedA().s.ses.tasks[1 := TASK_B.(phase := S.Settled(S.Delivered([WRONG])))])))
  }

  lemma SecondDelivers(json: Json)
    ensures Next(WrittenB().(s := Settled(WrittenB().s, 3, WRONG)), OfSession(S.Proceed(1, false)), json) == DeliveredB()
  {
    var c := Next(WrittenB().(s := Settled(WrittenB().s, 3, WRONG)), OfSession(S.Proceed(1, false)), json);
    assert c.s.ses.tasks == DeliveredB().s.ses.tasks;
  }

  const FAILURE := L.LoadResult(false, ["e"], [], [], 0, 0, false, false, L.TypeError)

  /** The second load reports the error and has set the file. */
  function ContinuedB(): State {
    State(
      DeliveredB().s.(ses := DeliveredB().s.ses.(currentFile := Some(PATH))),
      L.Sessions(L.Fields(Some(PATH), 8, [], Some(1), Some(L.Stamped(L.TypeError, 2, 8)), 0),
                 [At(0, PATH, L.AwaitingMetas(HALFWAY)), At(2, PATH, L.Returned(FAILURE, false, [WRONG]))], 8),
      DeliveredB().links, Some(1))
  }

  lemma WrongIsAnError()
    ensures Parse([WRONG]) == ParsedLoad(false, ["e"], [], [], [], 0, true) && !L.IsFatalReply([WRONG])
  {
    assert [WRONG][..0] == [] && ShowsError([WRONG][0]) && IsErrorInfo([WRONG][0]);
    assert Displayed([WRONG]) == Displayed([]) && InteractionIds([WRONG]) == InteractionIds([]);
    assert StderrTexts([WRONG]) == StderrTexts([]) + [] && ErrorTexts([WRONG]) == ErrorTexts([]) + ["e"];
  }

  lemma SecondContinues(json: Json)
    ensures Next(DeliveredB(), LoadContinues(1, Some(1), 0, MS), json) == ContinuedB()
  {
    WrongIsAnError();
    hide Parse, L.IsFatalReply, Settled;
    var c := Next(DeliveredB(), LoadContinues(1, Some(1), 0, MS), json);
    assert c.l.loads == ContinuedB().l.loads && c.l == ContinuedB().l;
    assert c.s == ContinuedB().s;
  }

  // ── The metas query of the first load, and its end ────────────────────

  function WrittenM(): State {
    ContinuedB().(
      s := ContinuedB().s.(
        t := ContinuedB().s.t.(responseQueue := [], collecting := true, awaitGoalTerminus := false, terminus := FRESH,
                              inactivityOf := Some(4), operations := ContinuedB().s.t.operations + [CommandOf(2, 1, false, 4)]),
        ses := ContinuedB().s.ses.(tasks := ContinuedB().s.ses.tasks[2 := TASK_M.(phase := S.Commanding(4))])))
  }

  const TASK_M_PROBED := TASK_M.(phase := S.Probing(None, 1, Some(PATH)))

  /** The query needs no probe; it waits one microtask. */
  function EnteredM(): State {
    ContinuedB().(s := ContinuedB().s.(ses := ContinuedB().s.ses.(tasks := ContinuedB().s.ses.tasks[2 := TASK_M_PROBED])))
  }

  lemma MetasEnters(json: Json)
    ensures Next(ContinuedB(), OfSession(S.Proceed(2, false)), json) == EnteredM()
  {
    assert !Owed(ContinuedB());
    var c1 := Next(ContinuedB(), OfSession(S.Proceed(2, false)), json);
    assert c1.s.ses.tasks == EnteredM().s.ses.tasks;
  }

  lemma MetasWrites(json: Json)
    ensures Next(EnteredM(), OfSession(S.Proceed(2, false)), json) == WrittenM()
  {
    var c2 := Next(EnteredM(), OfSession(S.Proceed(2, false)), json);
    assert c2.s.ses.tasks == WrittenM().s.ses.tasks && c2.s.t == WrittenM().s.t;
  }

  function DeliveredM(): State {
    WrittenM().(
      s := Settled(WrittenM().s, 4, NOTICE).(
        ses := WrittenM().s.ses.(tasks := ContinuedB().s.ses.tasks[2 := TASK_M.(phase := S.Settled(S.Delivered([NOTICE])))])))
  }

  lemma MetasDelivers(json: Json)
    ensures Next(WrittenM().(s := Settled(WrittenM().s, 4, NOTICE)), OfSession(S.Proceed(2, false)), json) == DeliveredM()
  {
    var c := Next(WrittenM().(s := Settled(WrittenM().s, 4, NOTICE)), OfSession(S.Proceed(2, false)), json);
    assert c.s.ses.tasks == DeliveredM().s.ses.tasks;
  }

  /** The two loads at the end: the first one's result says that nothing is left. */
  const SUCCESS := L.LoadResult(true, [], [], [], 0, 0, false, true, L.OkComplete)

  lemma NoticeIsNoGoal()
    ensures !L.IsFatalReply([NOTICE]) && Displayed([NOTICE]).visibleGoals == []
    ensures !exists k :: 0 <= k < |[NOTICE]| && ([NOTICE][k].InteractionPoints? || ShowsAllGoals([NOTICE][k]))
  {
    assert [NOTICE][..0] == [];
    assert Trim("x") == "x";
  }

  lemma FirstReconciles()
    ensures L.Next(L.Next(L.Next(DeliveredM().l, L.MetasAnswered(0, [NOTICE])), L.ReconcileResumes(0)), L.LoadResumes(0, 0)) ==
      L.Sessions(ContinuedB().l.fields.(lastClassification := Some(L.Stamped(L.OkComplete, 0, 11))),
                 [At(0, PATH, L.Returned(SUCCESS, false, [HALF])), At(2, PATH, L.Returned(FAILURE, false, [WRONG]))], 11)
  {
    NoticeIsNoGoal();
    hide L.IsFatalReply, Settled;
    var l1 := L.Next(DeliveredM().l, L.MetasAnswered(0, [NOTICE]));
    assert l1 == L.Sessions(ContinuedB().l.fields,
                            [At(0, PATH, L.MetasSettled(HALFWAY, Some([]))), ContinuedB().l.loads[1]], 9);
    var l2 := L.Next(l1, L.ReconcileResumes(0));
    assert l2.loads == [At(0, PATH, L.Reconciled(HALFWAY, L.Reconciliation([], [], false), 10)), ContinuedB().l.loads[1]];
  }

  lemma FirstReturns(json: Json)
    ensures var c := Next(Next(Next(DeliveredM(), MetasContinues(0), json), ReconcileContinues(0), json),
                          LoadReturns(0, 0, MS), json);
      && c.l.loads == [At(0, PATH, L.Returned(SUCCESS, false, [HALF])), At(2, PATH, L.Returned(FAILURE, false, [WRONG]))]
      && c.l.fields.lastClassification == Some(L.Stamped(L.OkComplete, 0, 11))
      && c.l.clock == 11 && c.s.t == DeliveredM().s.t
      && |c.links| == 2 && c.links[1] == Link(Some(1), [], 0)
      && c.links[0] == Link(Some(0), [Query(Some(2), Some(Some(1)))], 0)
  {
    FirstReconciles();
    MetasMove();
    hide L.Next, Settled;
    var c1 := Next(DeliveredM(), MetasContinues(0), json);
    var c2 := Next(c1, ReconcileContinues(0), json);
    assert c2.links[0].queries == [Query(Some(2), Some(Some(1)))];
  }

  /** The points the first load passes through. */
  lemma MetasMove()
    ensures var l1 := L.Next(DeliveredM().l, L.MetasAnswered(0, [NOTICE]));
      && |l1.loads| == 2 && l1.loads[0].point.MetasSettled?
      && |L.Next(l1, L.ReconcileResumes(0)).loads| == 2 && L.Next(l1, L.ReconcileResumes(0)).loads[0].point.Reconciled?
  {
    hide L.IsFatalReply, Displayed, Settled;
  }

  lemma AllWait()
    ensures Waiting(ProbingB().s, 2, 1) && !ProbingB().s.t.awaitGoalTerminus
    ensures Waiting(WrittenM().s, 4, 1) && !WrittenM().s.t.awaitGoalTerminus
  {
  }

  // ── The whole run ─────────────────────────────────────────────────────

  lemma UpToFirst(json: Json) returns (es: seq<Event>)
    requires Decodes(json)
    ensures Run(es, json) == ContinuedA()
  {
    hide Next, Run;
    es := FirstIsWritten(json);
    FirstCloses(json);
    es := TwoMore(es, OfSession(S.Stdout(0, "{\n")), OfSession(S.ProcExited(0)), json);
    RunMore(es, OfSession(S.ProcClosed(0)), json);
    es := es + [OfSession(S.ProcClosed(0))];
    FirstDelivers(json);
    es := TwoMore(es, OfSession(S.FinishTimer(1, ProcessClose)), OfSession(S.Proceed(0, false)), json);
    FirstContinues(json);
    RunMore(es, LoadContinues(0, Some(1), 0, MS), json);
    es := es + [LoadContinues(0, Some(1), 0, MS)];
  }

  lemma UpToSecond(json: Json) returns (es: seq<Event>)
    requires Decodes(json)
    ensures Run(es, json) == ContinuedB()
  {
    hide Next, Run, Settled, Waiting;
    es := UpToFirst(json);
    SecondProbes(json);
    RunMore(es, OfSession(S.Proceed(1, false)), json);
    es := es + [OfSession(S.Proceed(1, false))];
    AllWait();
    es := Notices(ProbingB(), 2, 1, es, json);
    SecondWrites(json);
    RunMore(es, OfSession(S.Proceed(1, true)), json);
    es := es + [OfSession(S.Proceed(1, true))];
    es := SecondAnswers(es, json);
    SecondDelivers(json);
    SecondContinues(json);
    es := TwoMore(es, OfSession(S.Proceed(1, false)), LoadContinues(1, Some(1), 0, MS), json);
  }

  lemma UpToMetas(json: Json) returns (es: seq<Event>)
    requires Decodes(json)
    ensures Run(es, json) == DeliveredM()
  {
    hide Next, Run, Settled, Waiting;
    es := UpToSecond(json);
    MetasEnters(json);
    MetasWrites(json);
    es := TwoMore(es, OfSession(S.Proceed(2, false)), OfSession(S.Proceed(2, false)), json);
    AllWait();
    es := Notices(WrittenM(), 4, 1, es, json);
    MetasDelivers(json);
    RunMore(es, OfSession(S.Proceed(2, false)), json);
    es := es + [OfSession(S.Proceed(2, false))];
  }

  /** A load whose process died after InteractionPoints reports that nothing is left, and
      its verdict stands, although a complete check of the same file has just failed. */
  lemma TruncatedLoadCanSucceed(json: Json) returns (es: seq<Event>)
    requires Decodes(json)
    ensures var c := Run(es, json);
      && Ended(c, 0) && Truncated(c, 0) && c.l.loads[0].point.responses == [HALF] && !BothGoalEvents([HALF])
      && c.l.loads[0].point.result.isComplete
      && Ended(c, 1) && c.l.loads[1].path == c.l.loads[0].path && c.l.loads[1].point.result.classification.TypeError?
      && c.l.fields.lastClassification == Some(L.Stamped(L.OkComplete, c.l.loads[0].startedAt, c.l.clock))
  {
    hide Next, Run;
    es := UpToMetas(json);
    FirstReturns(json);
    es := TwoMore(es, MetasContinues(0), ReconcileContinues(0), json);
    RunMore(es, LoadReturns(0, 0, MS), json);
    es := es + [LoadReturns(0, 0, MS)];
    var c := Run(es, json);
    FirstIsTruncated();
    assert CompletedByClose(c.s, 0);
  }

  lemma FirstIsTruncated()
    ensures var ops := DeliveredM().s.t.operations;
      |ops| == 5 && ops[1].task == 0 && ops[1].purpose.User? && ByClose(ops[1])
  {
  }

  // ── The other way: the query is rejected at entry ─────────────────────

  const CANCELLED: S.Phase := S.Settled(S.Failed(S.Cancelled))
  const TASK_C := S.Task(S.ControlCommand(S.Abort, false, false), Some(2), S.Queued)

  /** An abort right behind the first load's continuation sweeps the second load and the
      query; nothing was pending, so nothing is interrupted. */
  function Swept(second: S.Phase, query: S.Phase): S.State {
    ContinuedA().s.(ses := ContinuedA().s.ses.(
      cancelledThrough := 3, queueTail := Some(3),
      tasks := [ContinuedA().s.ses.tasks[0], TASK_B.(phase := second), TASK_M.(phase := query), TASK_C]))
  }

  lemma AbortSweeps(json: Json)
    ensures Next(ContinuedA(), OfSession(S.IssueControl(S.Abort)), json) == ContinuedA().(s := Swept(S.Queued, S.Queued))
  {
    var t := ContinuedA().s.t;
    TransportProofs.EmitErrorNone(t, 0, Interrupted);
    var c := Next(ContinuedA(), OfSession(S.IssueControl(S.Abort)), json);
    assert !AnyListening(t);
    assert c.s.ses.tasks == Swept(S.Queued, S.Queued).ses.tasks;
  }

  lemma BothAreCancelled(json: Json)
    ensures S.Next(Swept(S.Queued, S.Queued), S.Proceed(1, false), json) == Swept(CANCELLED, S.Queued)
    ensures S.Next(Swept(CANCELLED, S.Queued), S.Proceed(2, false), json) == Swept(CANCELLED, CANCELLED)
    ensures !Resets(Swept(S.Queued, S.Queued), S.Proceed(1, false)) && !Resets(Swept(CANCELLED, S.Queued), S.Proceed(2, false))
  {
    assert S.Next(Swept(S.Queued, S.Queued), S.Proceed(1, false), json).ses.tasks == Swept(CANCELLED, S.Queued).ses.tasks;
    assert S.Next(Swept(CANCELLED, S.Queued), S.Proceed(2, false), json).ses.tasks == Swept(CANCELLED, CANCELLED).ses.tasks;
  }

  /** After the second load has thrown and the query has failed. */
  function Refusing(): State {
    State(Swept(CANCELLED, CANCELLED),
          L.Sessions(ContinuedA().l.fields, [At(0, PATH, L.AwaitingMetas(HALFWAY)), At(2, PATH, L.Threw)], 7),
          ContinuedA().links, Some(0))
  }

  lemma SecondThrows(json: Json)
    ensures var c := ContinuedA().(s := Swept(CANCELLED, S.Queued));
      Next(c, LoadContinues(1, None, 0, MS), json) == Refusing().(s := Swept(CANCELLED, S.Queued))
  {
    var c := ContinuedA().(s := Swept(CANCELLED, S.Queued));
    var c1 := Next(c, LoadContinues(1, None, 0, MS), json);
    assert c1.l.loads == Refusing().l.loads && c1.l == Refusing().l;
    assert c1.s.ses == c.s.ses;
  }

  lemma CancelSteps(json: Json)
    ensures Next(ContinuedA().(s := Swept(S.Queued, S.Queued)), OfSession(S.Proceed(1, false)), json)
      == ContinuedA().(s := Swept(CANCELLED, S.Queued))
    ensures Next(Refusing().(s := Swept(CANCELLED, S.Queued)), OfSession(S.Proceed(2, false)), json) == Refusing()
  {
    BothAreCancelled(json);
    assert !Owed(ContinuedA().(s := Swept(S.Queued, S.Queued)));
    assert !Owed(Refusing().(s := Swept(CANCELLED, S.Queued)));
    hide S.Next, Resets;
  }

  lemma RefusedReconciles()
    ensures L.Next(L.Next(L.Next(Refusing().l, L.MetasRejected(0)), L.ReconcileResumes(0)), L.LoadResumes(0, 0)).loads ==
      [At(0, PATH, L.Returned(SUCCESS, false, [HALF])), At(2, PATH, L.Threw)]
    ensures var l1 := L.Next(Refusing().l, L.MetasRejected(0));
      && |l1.loads| == 2 && l1.loads[0].point.MetasSettled?
      && |L.Next(l1, L.ReconcileResumes(0)).loads| == 2 && L.Next(l1, L.ReconcileResumes(0)).loads[0].point.Reconciled?
      && L.Next(L.Next(l1, L.ReconcileResumes(0)), L.LoadResumes(0, 0)).fields.currentFile == Some(PATH)
  {
    hide Parse, L.IsFatalReply;
    var l1 := L.Next(Refusing().l, L.MetasRejected(0));
    assert l1.loads == [At(0, PATH, L.MetasSettled(HALFWAY, None)), At(2, PATH, L.Threw)];
    var l2 := L.Next(l1, L.ReconcileResumes(0));
    assert l2.loads == [At(0, PATH, L.Reconciled(HALFWAY, L.Reconciliation([], [], false), 9)), At(2, PATH, L.Threw)];
  }

  lemma RefusedReturns(json: Json)
    ensures var c := Next(Next(Next(Refusing(), MetasContinues(0), json), ReconcileContinues(0), json),
                          LoadReturns(0, 0, MS), json);
      && c.l.loads == [At(0, PATH, L.Returned(SUCCESS, false, [HALF])), At(2, PATH, L.Threw)]
      && c.s == Refusing().s && |c.links| == 2 && c.links[0] == Link(Some(0), [Query(Some(2), Some(Some(0)))], 0)
  {
    RefusedReconciles();
    hide L.Next;
    var c1 := Next(Refusing(), MetasContinues(0), json);
    var c2 := Next(c1, ReconcileContinues(0), json);
    assert c2.links[0].queries == [Query(Some(2), Some(Some(0)))];
    var c3 := Next(c2, LoadReturns(0, 0, MS), json);
    assert c3.s == Refusing().s;
  }

  /** The load keeps its own file when its query is rejected at entry. The abort has to come
      in the microtasks between the load's continuation and the next body, and the control
      command's own body, which would reset the file, after the load's last one. The source
      runs nothing of its own there, so this run is one of the model and not known to be
      reachable in the source. */
  lemma RefusedQueryCanSucceed(json: Json) returns (es: seq<Event>)
    requires Decodes(json)
    ensures var c := Run(es, json);
      && Ended(c, 0) && Truncated(c, 0) && c.l.loads[0].point.responses == [HALF] && !BothGoalEvents([HALF])
      && c.l.loads[0].point.result.isComplete
      && c.links[0].queries == [Query(Some(2), Some(Some(0)))] && Refused(c, 0, c.links[0].queries[0])
  {
    hide Next, Run;
    es := UpToFirst(json);
    AbortSweeps(json);
    CancelSteps(json);
    es := TwoMore(es, OfSession(S.IssueControl(S.Abort)), OfSession(S.Proceed(1, false)), json);
    SecondThrows(json);
    es := TwoMore(es, LoadContinues(1, None, 0, MS), OfSession(S.Proceed(2, false)), json);
    RefusedReturns(json);
    es := TwoMore(es, MetasContinues(0), ReconcileContinues(0), json);
    RunMore(es, LoadReturns(0, 0, MS), json);
    es := es + [LoadReturns(0, 0, MS)];
    QueryWasRejected();
    assert CompletedByClose(Run(es, json).s, 0);
  }

  lemma QueryWasRejected()
    ensures var ops := Refusing().s.t.operations;
      |ops| == 2 && ops[1].task == 0 && ops[1].purpose.User? && ByClose(ops[1])
    ensures |Refusing().s.ses.tasks| == 4 && RejectedAtEntry(Refusing().s, 2)
  {
  }

  // ── A strict load, alone ──────────────────────────────────────────────

  const STRICT := L.Load(PATH, true, 0, L.Loading)

  function ProbingS(): State {
    ProbingA().(l := ProbingA().l.(loads := [STRICT]))
  }

  lemma StrictProbes(json: Json)
    ensures Next(Next(INITIAL, BeginLoad(PATH, true, true, true, MS), json), OfSession(S.Proceed(0, false)), json) == ProbingS()
  {
    var c1 := Next(INITIAL, BeginLoad(PATH, true, true, true, MS), json);
    assert c1.s.ses.tasks == [TASK_A] && c1.l.loads == [STRICT] && c1.links == [Link(Some(0), [], 0)];
    var c2 := Next(c1, OfSession(S.Proceed(0, false)), json);
    assert c2.s.os.procs == [S.NEW_PROC];
    assert c2.s.ses.tasks == ProbingA().s.ses.tasks && c2.s.t.operations == ProbingA().s.t.operations;
    assert c2.s == ProbingA().s && c2.l == ProbingS().l;
  }

  /** Its command is written. */
  function WrittenS(): State {
    ProbingS().(s := S.State(WrittenA().s.t, ProbingA().s.os, ProbingA().s.ses.(
      versionKnown := true, tasks := [TASK_A.(phase := S.Commanding(1))])))
  }

  lemma StrictWrites(json: Json)
    ensures Next(ProbingS().(s := Settled(ProbingA().s, 0, NOTICE)), OfSession(S.Proceed(0, true)), json) == WrittenS()
  {
    var c := Next(ProbingS().(s := Settled(ProbingA().s, 0, NOTICE)), OfSession(S.Proceed(0, true)), json);
    assert c.s.ses.tasks == WrittenS().s.ses.tasks;
    assert c.s.t == WrittenA().s.t;
  }

  /** Its process is gone. */
  function ClosedS(): State {
    State(S.State(ClosedA().s.t, ClosedA().s.os, WrittenS().s.ses.(proc := None, versionKnown := false, versionAttempts := 0)),
          L.Sessions(L.Fields(None, 3, [], None, None, 0), [STRICT], 3), ProbingA().links, None)
  }

  lemma StrictDies(json: Json)
    ensures var c1 := WrittenS().(
              s := WrittenS().s.(t := ClosedA().s.t.(collecting := true, operations := WrittenA().s.t.operations)));
      Next(Next(c1, OfSession(S.ProcExited(0)), json), OfSession(S.ProcClosed(0)), json) == ClosedS()
  {
    var c1 := WrittenS().(
      s := WrittenS().s.(t := ClosedA().s.t.(collecting := true, operations := WrittenA().s.t.operations)));
    var c3 := Next(Next(c1, OfSession(S.ProcExited(0)), json), OfSession(S.ProcClosed(0)), json);
    assert c3.s.t.operations == ClosedA().s.t.operations && c3.s.os.procs == ClosedA().s.os.procs;
    assert c3.l == ClosedS().l;
  }

  /** What had come is delivered as the result. */
  function DeliveredS(): State {
    State(S.State(DeliveredA().s.t, ClosedA().s.os,
                  ClosedS().s.ses.(tasks := [TASK_A.(phase := S.Settled(S.Delivered([HALF])))])),
          L.Sessions(L.Fields(None, 4, [], None, None, 0), [STRICT], 4), ProbingA().links, None)
  }

  lemma StrictDelivers(json: Json)
    ensures Next(Next(ClosedS(), OfSession(S.FinishTimer(1, ProcessClose)), json), OfSession(S.Proceed(0, false)), json)
      == DeliveredS()
  {
    var c1 := Next(ClosedS(), OfSession(S.FinishTimer(1, ProcessClose)), json);
    assert c1.s.t.operations == DeliveredA().s.t.operations;
    var c2 := Next(c1, OfSession(S.Proceed(0, false)), json);
    assert c2.s.ses.tasks == DeliveredS().s.ses.tasks;
    assert c2.l == DeliveredS().l;
  }

  lemma StrictReturns(json: Json)
    ensures var c := Next(DeliveredS(), LoadContinues(0, Some(1), 0, MS), json);
      && c.l.loads == [STRICT.(point := L.Returned(SUCCESS, false, [HALF]))]
      && c.s.t == DeliveredA().s.t && c.links == ProbingA().links
      && c.l.fields.lastClassification == Some(L.Stamped(L.OkComplete, 0, c.l.clock))
  {
    HalfIsClean();
    hide Parse, L.IsFatalReply;
    var c := Next(DeliveredS(), LoadContinues(0, Some(1), 0, MS), json);
    assert c.links == [Link(Some(0), [], 0)];
  }

  /** A strict load needs no second load and no control command for it: its process dies
      after InteractionPoints, the source shows no hole, and it reports ok-complete. */
  lemma TruncatedStrictLoadSucceeds(json: Json) returns (es: seq<Event>)
    requires Decodes(json)
    ensures var c := Run(es, json);
      && |c.l.loads| == 1 && Ended(c, 0) && c.l.loads[0].strict && Truncated(c, 0)
      && c.l.loads[0].point.responses == [HALF] && !BothGoalEvents([HALF])
      && c.l.loads[0].point.result.isComplete
      && c.l.fields.lastClassification == Some(L.Stamped(L.OkComplete, c.l.loads[0].startedAt, c.l.clock))
    ensures forall e :: e in es ==> !(e.OfSession? && e.e.IssueControl?)
  {
    hide Next, Run, Settled, Waiting;
    RunNothing(json);
    StrictProbes(json);
    var begin, enter := BeginLoad(PATH, true, true, true, MS), OfSession(S.Proceed(0, false));
    es := TwoMore([], begin, enter, json);
    StrictWaits();
    es := Notices(ProbingS(), 0, 0, es, json);
    StrictWrites(json);
    RunMore(es, OfSession(S.Proceed(0, true)), json);
    es := es + [OfSession(S.Proceed(0, true))];
    HalfArrives(WrittenS(), json);
    RunMore(es, OfSession(S.Stdout(0, "{\n")), json);
    es := es + [OfSession(S.Stdout(0, "{\n"))];
    StrictDies(json);
    es := TwoMore(es, OfSession(S.ProcExited(0)), OfSession(S.ProcClosed(0)), json);
    StrictDelivers(json);
    es := TwoMore(es, OfSession(S.FinishTimer(1, ProcessClose)), enter, json);
    StrictReturns(json);
    RunMore(es, LoadContinues(0, Some(1), 0, MS), json);
    es := es + [LoadContinues(0, Some(1), 0, MS)];
    StrictIsTruncated();
    assert CompletedByClose(Run(es, json).s, 0);
  }

  lemma StrictWaits()
    ensures Waiting(ProbingS().s, 0, 0) && !ProbingS().s.t.awaitGoalTerminus && ProbingS().s == ProbingA().s
    ensures WrittenS().s.os == WrittenA().s.os
  {
  }

  lemma StrictIsTruncated()
    ensures var ops := DeliveredA().s.t.operations;
      |ops| == 2 && ops[1].task == 0 && ops[1].purpose.User? && ByClose(ops[1])
  {
  }
}
