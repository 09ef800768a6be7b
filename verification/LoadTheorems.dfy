/** What loads promise, over every interleaving. */
module LoadTheorems {
  import opened Basics
  import opened Wire
  import opened Terminus
  import opened LoadParsing
  import opened GoalMerging
  import opened LoadModel

  // Load i returns at this step.
  predicate ReturnsAt(s: Sessions, e: Event, i: nat) {
    && i < |s.loads| && !s.loads[i].point.Returned?
    && i < |Next(s, e).loads| && Next(s, e).loads[i].point.Returned?
  }

  lemma ReturningSegment(s: Sessions, e: Event, i: nat) returns (seg: Segment)
    requires ReturnsAt(s, e, i)
    ensures Next(s, e).fields == seg.fields && Next(s, e).loads[i].point == seg.point
    ensures e.LoadAnswered? || e.LoadResumes?
    ensures e.LoadAnswered? ==> s.loads[i].point.Loading?
    ensures e.LoadAnswered? ==>
              seg == AfterLoad(s.fields, s.loads[i], e.responses, e.mtime, e.holesInSource, s.clock + 1)
    ensures e.LoadResumes? ==> s.loads[i].point.Reconciled?
    ensures e.LoadResumes? ==>
              seg == AfterRound(s.fields, s.loads[i], s.loads[i].point.p, s.loads[i].point.outcome, e.holesInSource,
                                s.clock + 1)
  {
    hide AfterLoad, AfterRound;
    seg := Segment(Next(s, e).fields, Next(s, e).loads[i].point);
  }

  // A load that runs to its end leaves its own goals on the session: the ids of the returned goals, in
  // order and without duplicates, with their number, its verdict and its count of invisible goals.
  // An early return claims no success and leaves its own verdict.
  lemma ReturnLeavesItsGoals(events: seq<Event>, e: Event, i: nat)
    requires ReturnsAt(Run(events), e, i)
    ensures var s := Next(Run(events), e);
            var result := s.loads[i].point.result;
            s.fields.lastClassification == Some(Stamped(result.classification, s.loads[i].startedAt, s.clock)) &&
            (if s.loads[i].point.early then !result.success
             else
               s.fields.goalIds == Ids(result.goals) && NoRepeats(s.fields.goalIds) &&
               result.goalCount == |result.goals| && s.fields.lastInvisibleGoalCount == result.invisibleGoalCount)
  {
    hide Run, Next, AfterLoad, AfterRound;
    RunKeeps(events);
    var s := Run(events);
    assert WellPlaced(s.fields, s.loads[i]);
    var seg := ReturningSegment(s, e, i);
    IdentityStep(s, e, i);
    ClockStep(s, e);
    if e.LoadAnswered? {
      AnswerLeaves(s.fields, s.loads[i], e.responses, e.mtime, e.holesInSource, s.clock + 1);
    } else {
      RoundLeaves(s.fields, s.loads[i], s.loads[i].point.p, s.loads[i].point.outcome, e.holesInSource, s.clock + 1);
    }
  }

  predicate LeavesItsGoals(seg: Segment, load: Load, now: nat) {
    seg.point.Returned? ==>
      var result := seg.point.result;
      seg.fields.lastClassification == Some(Stamped(result.classification, load.startedAt, now)) &&
      (if seg.point.early then !result.success
       else
         seg.fields.goalIds == Ids(result.goals) && NoRepeats(seg.fields.goalIds) &&
         result.goalCount == |result.goals| && seg.fields.lastInvisibleGoalCount == result.invisibleGoalCount)
  }

  lemma AnswerLeaves(f: Fields, load: Load, rs: seq<Response>, mtime: Option<int>, holes: nat, now: nat)
    ensures LeavesItsGoals(AfterLoad(f, load, rs, mtime, holes, now), load, now)
  {
    ParsedIsLockstep(rs);
    hide Parse, IsFatalReply;
  }

  lemma RoundLeaves(f: Fields, load: Load, p: Progress, r: Reconciliation, holes: nat, now: nat)
    requires WellProgressed(p) && r.goalIds == Ids(r.goals) && NoRepeats(r.goalIds)
    ensures LeavesItsGoals(AfterRound(f, load, p, r, holes, now), load, now)
  {
    hide Parse, IsFatalReply;
  }

  // A successful load has its file loaded when it returns - provided, for a load that queried metas,
  // that nothing assigned currentFile after its reconciliation looked at it.
  lemma SuccessHasItsFile(events: seq<Event>, e: Event, i: nat)
    requires ReturnsAt(Run(events), e, i)
    requires Next(Run(events), e).loads[i].point.result.success
    ensures var s := Run(events);
            (s.loads[i].point.Reconciled? ==> s.fields.fileStamp <= s.loads[i].point.at) ==>
              Next(s, e).fields.currentFile == Some(s.loads[i].path)
  {
    hide Parse, Run, WellProgressed;
    RunKeeps(events);
    var s := Run(events);
    assert WellPlaced(s.fields, s.loads[i]);
    var seg := ReturningSegment(s, e, i);
  }

  predicate SameFile(f: Fields, g: Fields) { g.currentFile == f.currentFile && g.fileStamp == f.fileStamp }

  lemma RoundLeavesFile(f: Fields, load: Load, p: Progress, r: Reconciliation, holes: nat, now: nat)
    ensures var seg := AfterRound(f, load, p, r, holes, now);
            SameFile(f, seg.fields) && !seg.point.Reconciled?
  {
  }

  // What event e assigns to currentFile in state s, if anything.
  function Assigned(s: Sessions, e: Event): Option<Option<string>> {
    match e
    case Begin(_, _, _, _) => Some(None)
    case ProcessReset => Some(None)
    case LoadAnswered(i, rs, _, _) =>
      if i < |s.loads| && s.loads[i].point.Loading? && !IsFatalReply(rs) && Parse(rs).sawLoadTerminus
      then Some(Some(s.loads[i].path)) else None
    case _ => None
  }

  // The last assignment to currentFile among the events from position `from` on.
  function LastAssigned(events: seq<Event>, from: nat): Option<Option<string>> {
    if |events| <= from then None
    else
      var k := |events| - 1;
      match Assigned(Run(events[..k]), events[k])
      case Some(f) => Some(f)
      case None => LastAssigned(events[..k], from)
  }

  lemma AssignedStep(s: Sessions, e: Event)
    ensures Next(s, e).fields.currentFile ==
            match Assigned(s, e) { case Some(f) => f case None => s.fields.currentFile }
  {
    hide Parse;
  }

  // Since its reconciliation found the file, a load's file field holds what was assigned last.
  lemma {:induction false} FileSinceReconciled(events: seq<Event>, i: nat)
    requires i < |Run(events).loads| && Run(events).loads[i].point.Reconciled?
    requires !Run(events).loads[i].point.outcome.procDied
    ensures var s := Run(events);
            s.clock == |events| && s.loads[i].point.at <= |events| &&
            s.fields.currentFile ==
            match LastAssigned(events, s.loads[i].point.at) { case Some(f) => f case None => Some(s.loads[i].path) }
  {
    RunKeeps(events);
    ClockCounts(events);
    assert events != [] by { RunNothing(); }
    var front, e := events[..|events| - 1], events[|events| - 1];
    AssignedStep(Run(front), e);
    ReconciledStep(Run(front), e, i);
    ClockCounts(front);
    hide Run, Assigned, Inv;
    ReconciledPast(Run(events), i);
    if Run(events).loads[i].point.at < |events| {
      FileSinceReconciled(front, i);
    } else {
      ReconciledNow(Run(events), i);
    }
  }

  lemma ReconciledPast(s: Sessions, i: nat)
    requires Inv(s) && i < |s.loads| && s.loads[i].point.Reconciled?
    ensures s.loads[i].point.at <= s.clock
  {
  }

  lemma ReconciledNow(s: Sessions, i: nat)
    requires Inv(s) && i < |s.loads| && s.loads[i].point.Reconciled? && s.loads[i].point.at == s.clock
    requires !s.loads[i].point.outcome.procDied
    ensures s.fields.currentFile == Some(s.loads[i].path)
  {
    assert WellPlaced(s.fields, s.loads[i]);
  }

  // A load comes to this point only by the end of its reconciliation, at the present step.
  lemma ReconciledStep(s: Sessions, e: Event, i: nat)
    requires i < |Next(s, e).loads| && Next(s, e).loads[i].point.Reconciled?
    ensures i < |s.loads| && Next(s, e).loads[i].path == s.loads[i].path
    ensures Next(s, e).loads[i].point.at == s.clock + 1 || Next(s, e).loads[i].point == s.loads[i].point
  {
    hide Parse;
  }

  lemma {:induction false} ClockCounts(events: seq<Event>)
    ensures Run(events).clock == |events|
  {
    hide Next;
    if events != [] {
      ClockCounts(events[..|events| - 1]);
      ClockStep(Run(events[..|events| - 1]), events[|events| - 1]);
    }
  }

  lemma ClockStep(s: Sessions, e: Event)
    ensures Next(s, e).clock == s.clock + 1
  {
    hide Parse;
  }

  // A successful load has its file loaded when it returns exactly when, since the step at which its
  // reconciliation looked at the file field, nothing was assigned to it or its own path was assigned last.
  lemma SuccessHasItsFileExactly(events: seq<Event>, e: Event, i: nat)
    requires ReturnsAt(Run(events), e, i)
    requires Next(Run(events), e).loads[i].point.result.success
    ensures var s := Run(events);
            Next(s, e).fields.currentFile == Some(s.loads[i].path) <==>
            (s.loads[i].point.Reconciled? ==>
               match LastAssigned(events, s.loads[i].point.at) { case Some(f) => f == Some(s.loads[i].path) case None => true })
  {
    hide Run, AfterLoad, AfterRound, LastAssigned, Parse;
    SuccessHasItsFile(events, e, i);
    var s := Run(events);
    var seg := ReturningSegment(s, e, i);
    if s.loads[i].point.Reconciled? {
      var p, r := s.loads[i].point.p, s.loads[i].point.outcome;
      RoundLeavesFile(s.fields, s.loads[i], p, r, e.holesInSource, s.clock + 1);
      if r.procDied { DiedIsNoSuccess(s.fields, s.loads[i], p, r, e.holesInSource, s.clock + 1); }
      FileSinceReconciled(events, i);
    }
  }

  lemma DiedIsNoSuccess(f: Fields, load: Load, p: Progress, r: Reconciliation, holes: nat, now: nat)
    requires r.procDied
    ensures var point := AfterRound(f, load, p, r, holes, now).point;
            point.Returned? && !point.result.success
  {
  }

  const GOOD := [InteractionPoints([]), DisplayInfo(AllGoalsWarnings([], 0, [], []))]

  lemma RunMore(events: seq<Event>, e: Event)
    ensures Run(events + [e]) == Next(Run(events), e)
  {
    assert (events + [e])[..|events|] == events;
  }

  lemma RunNothing()
    ensures Run([]) == EMPTY
  {
  }

  // A plain load of "A", read off a clean stream, up to the end of its reconciliation; its metas query
  // was rejected.
  lemma UpToReconciled(rs: seq<Response>) returns (events: seq<Event>)
    requires Parse(rs) == ParsedLoad(true, [], [], [], [], 0, true) && !IsFatalReply(rs)
    ensures Run(events) ==
            Sessions(Fields(Some("A"), 2, [], Some(1), None, 0),
                     [Load("A", false, 0, Reconciled(Progress(rs, Parse(rs), First, [], [], 0),
                                                     Reconciliation([], [], false), 4))], 4)
  {
    hide Run, Parse, IsFatalReply;
    RunNothing();
    var p := Progress(rs, Parse(rs), First, [], [], 0);
    var f := Fields(Some("A"), 2, [], Some(1), None, 0);
    var es := [Begin("A", false, true, true)];
    assert [] + es == es;
    RunMore([], es[0]);
    assert Run(es) == Sessions(Fields(None, 1, [], None, None, 0), [Load("A", false, 0, Loading)], 1);
    RunMore(es, LoadAnswered(0, rs, Some(1), 0));
    es := es + [LoadAnswered(0, rs, Some(1), 0)];
    assert Run(es) == Sessions(f, [Load("A", false, 0, AwaitingMetas(p))], 2);
    RunMore(es, MetasRejected(0));
    es := es + [MetasRejected(0)];
    assert Run(es) == Sessions(f, [Load("A", false, 0, MetasSettled(p, None))], 3);
    RunMore(es, ReconcileResumes(0));
    events := es + [ReconcileResumes(0)];
  }

  // The proviso is needed: a second load that begins between the end of a reconciliation and the
  // continuation of its load makes the first one report success with no file loaded.
  lemma GapLosesTheFile() returns (events: seq<Event>)
    ensures var s := Run(events);
            |s.loads| == 2 && s.loads[0].point.Returned? && s.loads[0].point.result.success &&
            s.fields.currentFile.None?
  {
    hide Run, Parse, IsFatalReply;
    var parsed := GoodParse();
    var es := UpToReconciled(GOOD);
    RunMore(es, Begin("B", false, true, true));
    RunMore(es + [Begin("B", false, true, true)], LoadResumes(0, 0));
    events := es + [Begin("B", false, true, true)] + [LoadResumes(0, 0)];
  }

  lemma GoodParse() returns (parsed: ParsedLoad)
    ensures parsed == Parse(GOOD) == ParsedLoad(true, [], [], [], [], 0, true)
    ensures !IsFatalReply(GOOD)
    ensures Displayed(GOOD) == Display([], 0, [], [])
    ensures InteractionIds(GOOD) == []
  {
    parsed := Parse(GOOD);
    assert GOOD[..1] == [InteractionPoints([])];
    assert GOOD[..1][..0] == [];
    assert InteractionIds(GOOD[..1]) == AddIds(InteractionIds([]), []);
    assert Displayed(GOOD[..1]) == Displayed([]);
    assert ErrorTexts(GOOD[..1]) == ErrorTexts([]) + [];
    assert StderrTexts(GOOD[..1]) == StderrTexts([]) + [];
    assert GOOD[0].InteractionPoints?;
  }

  // Whatever way a load ends, no verdict written before it began is visible afterwards.
  lemma NoOlderVerdictSurvives(events: seq<Event>, i: nat)
    requires i < |Run(events).loads|
    ensures var s := Run(events);
            s.fields.lastClassification.Some? ==> s.loads[i].startedAt < s.fields.lastClassification.value.at
  {
    RunKeeps(events);
  }

  // Load j returns at event e, and so writes its verdict; loads begin and return by their own events only.
  predicate Writes(s: Sessions, e: Event, j: nat) {
    && j < |Next(s, e).loads| && Next(s, e).loads[j].point.Returned?
    && !(j < |s.loads| && s.loads[j].point.Returned?)
  }

  predicate Clears(e: Event) { e.Begin? || e.ProcessReset? }

  lemma VerdictStep(s: Sessions, e: Event)
    ensures forall j: nat :: Writes(s, e, j) ==>
              Next(s, e).fields.lastClassification.Some? &&
              Next(s, e).fields.lastClassification.value.begun == Next(s, e).loads[j].startedAt
    ensures (forall j: nat :: !Writes(s, e, j)) ==>
              Next(s, e).fields.lastClassification == if Clears(e) then None else s.fields.lastClassification
  {
    hide Parse;
    if e.LoadAnswered? && e.i < |s.loads| {
      AnswerVerdict(s, e);
    } else if e.LoadResumes? && e.i < |s.loads| {
      ResumeVerdict(s, e);
    } else if e.Begin? {
      assert Next(s, e).loads[|s.loads|].startedAt == s.clock;
      assert Next(s, e).fields.lastClassification.Some? ==> Writes(s, e, |s.loads|);
    }
  }

  lemma AnswerVerdict(s: Sessions, e: Event)
    requires e.LoadAnswered? && e.i < |s.loads|
    ensures forall j: nat :: Writes(s, e, j) ==>
              Next(s, e).fields.lastClassification.Some? &&
              Next(s, e).fields.lastClassification.value.begun == Next(s, e).loads[j].startedAt
    ensures !Writes(s, e, e.i) ==> Next(s, e).fields.lastClassification == s.fields.lastClassification
  {
    hide Parse;
  }

  lemma ResumeVerdict(s: Sessions, e: Event)
    requires e.LoadResumes? && e.i < |s.loads|
    ensures forall j: nat :: Writes(s, e, j) ==>
              Next(s, e).fields.lastClassification.Some? &&
              Next(s, e).fields.lastClassification.value.begun == Next(s, e).loads[j].startedAt
    ensures !Writes(s, e, e.i) ==> Next(s, e).fields.lastClassification == s.fields.lastClassification
  {
    hide Parse;
  }

  // Event k writes the verdict of load j, and no later one writes or clears a verdict.
  ghost predicate WroteLast(events: seq<Event>, k: nat, j: nat)
    requires k < |events|
  {
    && Writes(Run(events[..k]), events[k], j)
    && forall m :: k < m < |events| ==> Quiet(events, m)
  }

  ghost predicate Quiet(events: seq<Event>, m: nat)
    requires m < |events|
  {
    !Clears(events[m]) && forall j: nat :: !Writes(Run(events[..m]), events[m], j)
  }

  ghost predicate Shows(s: Sessions, j: nat)
    requires j < |s.loads|
  {
    s.fields.lastClassification.Some? && s.fields.lastClassification.value.begun == s.loads[j].startedAt
  }

  // The visible verdict is that of load j exactly when j wrote it with no verdict and no invalidation since.
  lemma {:induction false} VisibleVerdictIsTheLast(events: seq<Event>, j: nat)
    requires j < |Run(events).loads|
    ensures Shows(Run(events), j) <==> exists k :: 0 <= k < |events| && WroteLast(events, k, j)
  {
    if events == [] {
      RunNothing();
    } else {
      var n := |events| - 1;
      var front, e := events[..n], events[n];
      VerdictStep(Run(front), e);
      RunKeeps(events);
      IdentityStep(Run(front), e, j);
      hide Run, Next, Writes, Inv;
      forall k | 0 <= k < n
        ensures WroteLast(events, k, j) <==> WroteLast(front, k, j) && Quiet(events, n)
      {
        FrontIsQuiet(events, k, j);
      }
      assert WroteLast(events, n, j) <==> Writes(Run(front), e, j);
      if Quiet(events, n) {
        if j < |Run(front).loads| { VisibleVerdictIsTheLast(front, j); }
      } else {
        LastEventDecides(events, j);
      }
    }
  }

  // Loads keep their start; a load that has just begun has no verdict unless it returned at once.
  lemma IdentityStep(s: Sessions, e: Event, j: nat)
    requires j < |Next(s, e).loads|
    ensures if j < |s.loads| then Next(s, e).loads[j].startedAt == s.loads[j].startedAt else j == |s.loads| && e.Begin?
  {
    hide Parse;
  }

  lemma FrontIsQuiet(events: seq<Event>, k: nat, j: nat)
    requires events != [] && k < |events| - 1
    ensures var n := |events| - 1;
            WroteLast(events, k, j) <==> WroteLast(events[..n], k, j) && Quiet(events, n)
  {
    hide Run, Next, Writes;
    var n := |events| - 1;
    assert forall m :: 0 <= m < n ==> events[..n][..m] == events[..m];
    assert forall m :: 0 <= m < n ==> Quiet(events[..n], m) == Quiet(events, m);
  }

  lemma LastEventDecides(events: seq<Event>, j: nat)
    requires events != [] && !Quiet(events, |events| - 1) && j < |Run(events).loads|
    ensures Shows(Run(events), j) <==> Writes(Run(events[..|events| - 1]), events[|events| - 1], j)
  {
    var front, e := events[..|events| - 1], events[|events| - 1];
    RunKeeps(events);
    VerdictStep(Run(front), e);
    hide Run, Next, Writes;
    if w: nat :| Writes(Run(front), e, w) {
      assert w < |Next(Run(front), e).loads| by { WriterExists(Run(front), e, w); }
      DistinctStarts(Run(events), w, j);
    }
  }

  lemma WriterExists(s: Sessions, e: Event, w: nat)
    requires Writes(s, e, w)
    ensures w < |Next(s, e).loads|
  {
  }

  lemma DistinctStarts(s: Sessions, i: nat, j: nat)
    requires Inv(s) && i < |s.loads| && j < |s.loads|
    ensures s.loads[i].startedAt == s.loads[j].startedAt <==> i == j
    ensures s.loads[i].startedAt < s.loads[j].startedAt <==> i < j
  {
  }

  // The event at which load i began.
  lemma {:induction false} BeganAt(events: seq<Event>, i: nat)
    requires i < |Run(events).loads|
    ensures var k := Run(events).loads[i].startedAt;
            k < |events| && events[k].Begin? && |Run(events[..k]).loads| == i
  {
    assert events != [] by { RunNothing(); }
    var front, e := events[..|events| - 1], events[|events| - 1];
    IdentityStep(Run(front), e, i);
    ClockCounts(front);
    StartIsNow(Run(front), e);
    hide Run, Next;
    if i < |Run(front).loads| {
      BeganAt(front, i);
      var k := Run(front).loads[i].startedAt;
      assert front[..k] == events[..k];
    }
  }

  lemma StartIsNow(s: Sessions, e: Event)
    ensures Run([]) == EMPTY
    ensures e.Begin? ==> |Next(s, e).loads| == |s.loads| + 1 && Next(s, e).loads[|s.loads|].startedAt == s.clock
  {
    RunNothing();
  }

  // After load i has thrown, the verdict of a load that began earlier is visible exactly when that load
  // returned after i began, with no verdict and no invalidation since.
  lemma EarlierVerdictExactly(events: seq<Event>, i: nat, j: nat)
    requires j < i < |Run(events).loads| && Run(events).loads[i].point.Threw?
    ensures Shows(Run(events), j) <==>
            exists k :: Run(events).loads[i].startedAt < k < |events| && WroteLast(events, k, j)
  {
    hide Run, Next, Writes;
    var b := Run(events).loads[i].startedAt;
    VisibleVerdictIsTheLast(events, j);
    BeganAt(events, i);
    if k :| 0 <= k < |events| && WroteLast(events, k, j) {
      assert k >= b || Quiet(events, b);
      if k == b { BeginWritesItsOwn(Run(events[..b]), events[b], j); }
    }
  }

  lemma BeginWritesItsOwn(s: Sessions, e: Event, j: nat)
    requires e.Begin? && j < |s.loads|
    ensures !Writes(s, e, j)
  {
  }

  predicate InFlight(load: Load) { !load.point.Returned? && !load.point.Threw? }

  // In particular that load was in flight when i began: with no load in flight at its beginning, a load
  // that throws leaves no earlier verdict behind.
  lemma AloneLeavesNoOldVerdict(events: seq<Event>, i: nat, j: nat)
    requires j < i < |Run(events).loads| && Run(events).loads[i].point.Threw? && Shows(Run(events), j)
    ensures var b := Run(events).loads[i].startedAt;
            b < |events| && j < |Run(events[..b]).loads| && InFlight(Run(events[..b]).loads[j])
  {
    hide Run, Next, Writes;
    var b := Run(events).loads[i].startedAt;
    BeganAt(events, i);
    EarlierVerdictExactly(events, i, j);
    var k :| b < k < |events| && WroteLast(events, k, j);
    LoadsStay(events, b, k);
    WriterWasInFlight(Run(events[..k]), events[k], j);
    assert j < i == |Run(events[..b]).loads|;
    if !InFlight(Run(events[..b]).loads[j]) {
      OverIsOver(events, b, k, j);
    }
  }

  lemma WriterWasInFlight(s: Sessions, e: Event, j: nat)
    requires Writes(s, e, j) && j < |s.loads|
    ensures InFlight(s.loads[j])
  {
    hide Parse;
  }

  lemma {:induction false} LoadsStay(events: seq<Event>, b: nat, k: nat)
    requires b <= k <= |events|
    ensures |Run(events[..b]).loads| <= |Run(events[..k]).loads|
    decreases k - b
  {
    hide Next;
    if b < k {
      LoadsStay(events, b, k - 1);
      assert events[..k][..k - 1] == events[..k - 1];
      LoadsStep(Run(events[..k - 1]), events[k - 1]);
    }
  }

  lemma LoadsStep(s: Sessions, e: Event)
    ensures |s.loads| <= |Next(s, e).loads|
  {
    hide Parse;
  }

  lemma {:induction false} OverIsOver(events: seq<Event>, b: nat, k: nat, j: nat)
    requires b <= k <= |events| && j < |Run(events[..b]).loads| && !InFlight(Run(events[..b]).loads[j])
    ensures j < |Run(events[..k]).loads| && !InFlight(Run(events[..k]).loads[j])
    decreases k - b
  {
    hide Next, InFlight;
    if b < k {
      OverIsOver(events, b, k - 1, j);
      assert events[..k][..k - 1] == events[..k - 1];
      OverStep(Run(events[..k - 1]), events[k - 1], j);
    }
  }

  lemma OverStep(s: Sessions, e: Event, j: nat)
    requires j < |s.loads| && !InFlight(s.loads[j])
    ensures j < |Next(s, e).loads| && !InFlight(Next(s, e).loads[j])
  {
    hide Parse;
  }

  // Behind these events the run ends with load i thrown and the verdict of an earlier load visible.
  ghost predicate LeavesOldVerdict(events: seq<Event>, i: nat, more: seq<Event>) {
    var s := Run(events + more);
    i < |s.loads| && s.loads[i].point.Threw? && exists j :: 0 <= j < i && Shows(s, j)
  }

  // An event by which a load in flight moves towards its return, and how many it takes at most.
  function Move(load: Load, j: nat): Event {
    match load.point
    case AwaitingMetas(_) => MetasRejected(j)
    case MetasSettled(_, _) => ReconcileResumes(j)
    case Reconciled(_, _, _) => LoadResumes(j, 0)
    case _ => LoadAnswered(j, [], None, 0)
  }

  function MovesLeft(load: Load): nat {
    match load.point
    case AwaitingMetas(_) => 3
    case MetasSettled(_, _) => 2
    case _ => 1
  }

  lemma MoveStep(s: Sessions, j: nat)
    requires j < |s.loads| && InFlight(s.loads[j])
    ensures var s' := Next(s, Move(s.loads[j], j));
            && |s'.loads| == |s.loads| && (forall k :: 0 <= k < |s.loads| && k != j ==> s'.loads[k] == s.loads[k])
            && (if MovesLeft(s.loads[j]) == 1 then Writes(s, Move(s.loads[j], j), j)
                else InFlight(s'.loads[j]) && MovesLeft(s'.loads[j]) < MovesLeft(s.loads[j]))
  {
    assert !Parse([]).sawLoadTerminus && !IsFatalReply([]);
    hide Parse, IsFatalReply;
  }

  // A load in flight can go on to its return, with every other load where it is.
  lemma {:induction false} CanReturn(events: seq<Event>, i: nat, j: nat) returns (more: seq<Event>)
    requires j < |Run(events).loads| && InFlight(Run(events).loads[j])
    requires i < |Run(events).loads| && i != j && Run(events).loads[i].point.Threw?
    ensures var s := Run(events + more);
            i < |s.loads| && j < |s.loads| && s.loads[i].point.Threw? && Shows(s, j)
    decreases MovesLeft(Run(events).loads[j])
  {
    hide Run, Next, Writes, Move, MovesLeft;
    var s := Run(events);
    var e := Move(s.loads[j], j);
    MoveStep(s, j);
    RunMore(events, e);
    if MovesLeft(s.loads[j]) == 1 {
      VerdictStep(s, e);
      more := [e];
    } else {
      var rest := CanReturn(events + [e], i, j);
      more := [e] + rest;
      assert events + [e] + rest == events + more;
    }
  }

  // Read off at the moment a load begins: some way to go on in which it throws shows the verdict of an
  // earlier load exactly if another load is in flight then.
  lemma OldVerdictIffOneIsInFlight(events: seq<Event>, e: Event)
    requires e.Begin? && Next(Run(events), e).loads[|Run(events).loads|].point.Loading?
    ensures (exists more :: LeavesOldVerdict(events + [e], |Run(events).loads|, more)) <==>
            exists j :: 0 <= j < |Run(events).loads| && InFlight(Run(events).loads[j])
  {
    hide Run, Next, Writes, Shows, InFlight;
    var s, i := Run(events), |Run(events).loads|;
    RunMore(events, e);
    if more :| LeavesOldVerdict(events + [e], i, more) {
      OldVerdictNeedsOne(events, e, more);
    }
    if j :| 0 <= j < |s.loads| && InFlight(s.loads[j]) {
      var thrown := ThrowsAtOnce(events, e);
      var rest := CanReturn(events + [e] + [thrown], i, j);
      assert events + [e] + [thrown] + rest == events + [e] + ([thrown] + rest);
      assert LeavesOldVerdict(events + [e], i, [thrown] + rest);
    }
  }

  lemma OldVerdictNeedsOne(events: seq<Event>, e: Event, more: seq<Event>)
    requires e.Begin? && LeavesOldVerdict(events + [e], |Run(events).loads|, more)
    ensures exists j :: 0 <= j < |Run(events).loads| && InFlight(Run(events).loads[j])
  {
    hide Next, Writes, Shows, InFlight;
    var all, i := events + [e] + more, |Run(events).loads|;
    var j :| 0 <= j < i && Shows(Run(all), j);
    AloneLeavesNoOldVerdict(all, i, j);
    StartIsKept(events, e, more);
    assert all[..|events|] == events;
  }

  // The start of a load is the position of the event that began it, whatever follows.
  lemma {:induction false} StartIsKept(events: seq<Event>, e: Event, more: seq<Event>)
    requires e.Begin?
    ensures var s := Run(events + [e] + more);
            |Run(events).loads| < |s.loads| && s.loads[|Run(events).loads|].startedAt == |events|
    decreases |more|
  {
    hide Next;
    var i := |Run(events).loads|;
    RunMore(events, e);
    ClockCounts(events);
    StartIsNow(Run(events), e);
    if more == [] {
      assert events + [e] + more == events + [e];
    } else {
      var n := |more| - 1;
      StartIsKept(events, e, more[..n]);
      assert events + [e] + more == events + [e] + more[..n] + [more[n]];
      RunMore(events + [e] + more[..n], more[n]);
      LoadsStep(Run(events + [e] + more[..n]), more[n]);
      IdentityStep(Run(events + [e] + more[..n]), more[n], i);
    }
  }

  lemma ThrowsAtOnce(events: seq<Event>, e: Event) returns (thrown: Event)
    requires e.Begin? && Next(Run(events), e).loads[|Run(events).loads|].point.Loading?
    ensures var s := Run(events + [e] + [thrown]);
            var i := |Run(events).loads|;
            |s.loads| == i + 1 && s.loads[i].point.Threw? && forall j :: 0 <= j < i ==> s.loads[j] == Run(events).loads[j]
  {
    hide Run, Parse;
    thrown := LoadRejected(|Run(events).loads|);
    RunMore(events, e);
    RunMore(events + [e], thrown);
  }

  // A load that throws writes no verdict; one that began earlier may still leave its own afterwards.
  lemma AVerdictOfAnEarlierLoadCanAppearLater() returns (events: seq<Event>)
    ensures var s := Run(events);
            |s.loads| == 2 && s.loads[0].startedAt < s.loads[1].startedAt && s.loads[1].point.Threw? &&
            s.fields.lastClassification == Some(Stamped(OkComplete, 0, 3)) && s.fields.currentFile == Some("A")
  {
    hide Run, Parse, IsFatalReply;
    RunNothing();
    var parsed := GoodParse();
    var es := [Begin("A", true, true, true)];
    assert [] + es == es;
    RunMore([], es[0]);
    RunMore(es, Begin("B", true, true, true));
    es := es + [Begin("B", true, true, true)];
    assert Run(es) == Sessions(Fields(None, 2, [], None, None, 0), [Load("A", true, 0, Loading), Load("B", true, 1, Loading)], 2);
    RunMore(es, LoadAnswered(0, GOOD, Some(1), 0));
    es := es + [LoadAnswered(0, GOOD, Some(1), 0)];
    RunMore(es, LoadRejected(1));
    events := es + [LoadRejected(1)];
  }

  // ---- no false success ----

  // A success is backed by the stream it was read from: a goal-state event arrived, and nothing in the
  // stream was an error, a non-blank stderr or a reported error.
  lemma SuccessIsSupported(events: seq<Event>, i: nat)
    requires i < |Run(events).loads| && Run(events).loads[i].point.Returned? && Run(events).loads[i].point.result.success
    ensures var rs := Run(events).loads[i].point.responses;
            ShowsTerminus(rs) &&
            forall k :: 0 <= k < |rs| ==> !IsErrorInfo(rs[k]) && !NonBlankStderr(rs[k]) && !ReportsErrors(rs[k])
  {
    hide Run;
    RunKeeps(events);
    var load := Run(events).loads[i];
    assert WellPlaced(Run(events).fields, load);
    SuccessMeansNoComplaint(load.point.responses);
  }

  // A complete verdict means that nothing is left, in either kind of load.
  lemma CompleteMeansNothingLeft(events: seq<Event>, i: nat)
    requires i < |Run(events).loads| && Run(events).loads[i].point.Returned?
    ensures var result := Run(events).loads[i].point.result;
            result.classification.OkComplete? ==>
              result.success && result.goals == [] && result.goalCount == 0 && result.invisibleGoalCount == 0
  {
    hide Run;
    RunKeeps(events);
    assert WellPlaced(Run(events).fields, Run(events).loads[i]);
  }

  // Complete also means that no event of the load's stream listed an invisible goal, and that its own
  // scan, which is the one of this step, found no hole in the source.
  lemma CompleteSawNothing(events: seq<Event>, e: Event, i: nat)
    requires ReturnsAt(Run(events), e, i) && Next(Run(events), e).loads[i].point.result.classification.OkComplete?
    ensures var rs := Next(Run(events), e).loads[i].point.responses;
            (forall r, info :: r in rs && ListsGoals(r, info) ==> info.invisibleGoals == 0) &&
            (e.LoadAnswered? || e.LoadResumes?) && e.holesInSource == 0
  {
    hide Run, Next, Parse, ListsGoals, AfterLoad, AfterRound, WellProgressed;
    RunKeeps(events);
    var s := Run(events);
    assert WellPlaced(s.fields, s.loads[i]);
    var seg := ReturningSegment(s, e, i);
    NoneInvisibleExactly(seg.point.responses);
    if e.LoadAnswered? {
      CompleteAnswer(s.fields, s.loads[i], e.responses, e.mtime, e.holesInSource, s.clock + 1);
    } else {
      CompleteRound(s.fields, s.loads[i], s.loads[i].point.p, s.loads[i].point.outcome, e.holesInSource, s.clock + 1);
    }
  }

  lemma CompleteAnswer(f: Fields, load: Load, rs: seq<Response>, mtime: Option<int>, holes: nat, now: nat)
    ensures var point := AfterLoad(f, load, rs, mtime, holes, now).point;
            point.Returned? && point.result.classification.OkComplete? ==>
              point.responses == rs && Parse(rs).invisibleGoalCount == 0 && holes == 0
  {
    hide Parse, IsFatalReply;
  }

  lemma CompleteRound(f: Fields, load: Load, p: Progress, r: Reconciliation, holes: nat, now: nat)
    requires WellProgressed(p)
    ensures var point := AfterRound(f, load, p, r, holes, now).point;
            point.Returned? && point.result.classification.OkComplete? ==>
              point.responses == p.responses && Parse(p.responses).invisibleGoalCount == 0 && holes == 0
  {
    hide Parse, IsFatalReply;
  }

  // What a load that ran to its end reports: everything its stream said, the strict refusal added, and
  // holes exactly if goals, invisible goals or the scan show one. It ran to its end unless its stream was
  // cut short or its file had gone when it looked.
  lemma ReturnsItsStream(events: seq<Event>, e: Event, i: nat)
    requires ReturnsAt(Run(events), e, i)
    ensures var load := Next(Run(events), e).loads[i];
            var result, parsed := load.point.result, Parse(load.point.responses);
            (load.point.early <==>
              if e.LoadAnswered? then !parsed.sawLoadTerminus else Run(events).loads[i].point.outcome.procDied) &&
            result.warnings == parsed.warnings &&
            (e.LoadAnswered? ==> load.point.responses == e.responses) &&
            (load.point.early ==>
              !result.success && result.goals == [] && |result.errors| == 1 &&
              result.classification == if e.LoadAnswered? then IncompleteNoTerminus else DiedDuringReconciliation) &&
            (!load.point.early ==>
              result.invisibleGoalCount == parsed.invisibleGoalCount &&
              result.success == (parsed.success && !(load.strict && result.hasHoles)) &&
              result.errors == parsed.errors + (if parsed.success && !result.success then [STRICT_ERROR] else []))
  {
    hide Run, Next, Parse, AfterLoad, AfterRound, WellProgressed;
    RunKeeps(events);
    var s := Run(events);
    assert WellPlaced(s.fields, s.loads[i]);
    PlainReconciles(events, i);
    var seg := ReturningSegment(s, e, i);
    LoadKeepsItsKind(s, e, i);
    if e.LoadAnswered? {
      AnswerReports(s.fields, s.loads[i], e.responses, e.mtime, e.holesInSource, s.clock + 1);
    } else {
      RoundReports(s.fields, s.loads[i], s.loads[i].point.p, s.loads[i].point.outcome, e.holesInSource, s.clock + 1);
    }
  }

  predicate ReportsItsStream(seg: Segment, strict: bool) {
    seg.point.Returned? && !seg.point.early ==>
      var result, parsed := seg.point.result, Parse(seg.point.responses);
      result.warnings == parsed.warnings && result.invisibleGoalCount == parsed.invisibleGoalCount &&
      result.success == (parsed.success && !(strict && result.hasHoles)) &&
      result.errors == parsed.errors + (if parsed.success && !result.success then [STRICT_ERROR] else [])
  }

  predicate ReportsEarly(seg: Segment, c: Classification) {
    seg.point.Returned? && seg.point.early ==>
      var result := seg.point.result;
      result.warnings == Parse(seg.point.responses).warnings && !result.success && result.goals == [] &&
      |result.errors| == 1 && result.classification == c
  }

  lemma AnswerReports(f: Fields, load: Load, rs: seq<Response>, mtime: Option<int>, holes: nat, now: nat)
    ensures var seg := AfterLoad(f, load, rs, mtime, holes, now);
            ReportsItsStream(seg, load.strict) && ReportsEarly(seg, IncompleteNoTerminus) &&
            (seg.point.Returned? ==> seg.point.responses == rs && (seg.point.early <==> !Parse(rs).sawLoadTerminus))
  {
    hide Parse, IsFatalReply;
    assert forall xs: seq<string> :: xs + [] == xs;
  }

  lemma RoundReports(f: Fields, load: Load, p: Progress, r: Reconciliation, holes: nat, now: nat)
    requires WellProgressed(p) && !load.strict
    ensures var seg := AfterRound(f, load, p, r, holes, now);
            ReportsItsStream(seg, load.strict) && ReportsEarly(seg, DiedDuringReconciliation) &&
            (seg.point.Returned? ==> (seg.point.early <==> r.procDied))
  {
    hide Parse, IsFatalReply;
    assert forall xs: seq<string> :: xs + [] == xs;
  }

  lemma LoadKeepsItsKind(s: Sessions, e: Event, i: nat)
    requires i < |s.loads|
    ensures i < |Next(s, e).loads| && Next(s, e).loads[i].strict == s.loads[i].strict
    ensures Next(s, e).loads[i].path == s.loads[i].path
  {
    hide Parse;
  }

  // Only plain loads reconcile.
  lemma {:induction false} PlainReconciles(events: seq<Event>, i: nat)
    requires i < |Run(events).loads|
    ensures var load := Run(events).loads[i];
            load.point.AwaitingMetas? || load.point.MetasSettled? || load.point.Reconciled? ==> !load.strict
    decreases |events|
  {
    hide Next;
    assert events != [] by { RunNothing(); }
    var front, e := events[..|events| - 1], events[|events| - 1];
    if i < |Run(front).loads| {
      PlainReconciles(front, i);
      PlainStep(Run(front), e, i);
    } else {
      IdentityStep(Run(front), e, i);
      FreshPoint(Run(front), e);
    }
  }

  lemma PlainStep(s: Sessions, e: Event, i: nat)
    requires i < |s.loads|
    requires s.loads[i].point.AwaitingMetas? || s.loads[i].point.MetasSettled? || s.loads[i].point.Reconciled? ==> !s.loads[i].strict
    ensures var load := Next(s, e).loads[i];
            load.point.AwaitingMetas? || load.point.MetasSettled? || load.point.Reconciled? ==> !load.strict
  {
    hide Parse;
  }

  lemma FreshPoint(s: Sessions, e: Event)
    requires e.Begin?
    ensures |Next(s, e).loads| == |s.loads| + 1
    ensures Next(s, e).loads[|s.loads|].point.Loading? || Next(s, e).loads[|s.loads|].point.Returned?
  {
  }

  // Beginning a load clears everything a load leaves on the session. A missing file is a type error at
  // once, rejected options stop a plain load.
  lemma BeginsClean(s: Sessions, path: string, strict: bool, found: bool, optionsOk: bool)
    ensures var s' := Next(s, Begin(path, strict, found, optionsOk));
            var f, i := s'.fields, |s.loads|;
            f.currentFile == None && f.goalIds == [] && f.lastLoadedMtime == None && f.lastInvisibleGoalCount == 0 &&
            s'.loads[..i] == s.loads && |s'.loads| == i + 1 && s'.loads[i].path == path && s'.loads[i].strict == strict &&
            (s'.loads[i].point.Loading? <==> found && (strict || optionsOk)) &&
            (s'.loads[i].point.Loading? ==> f.lastClassification == None) &&
            (!s'.loads[i].point.Loading? ==>
              s'.loads[i].point.Returned? && s'.loads[i].point.early && !s'.loads[i].point.result.success &&
              s'.loads[i].point.result.classification == if found then InvalidOptions else TypeError)
  {
  }

  // Behind the load command: a fatal reply throws, and a file that cannot be looked at throws once it is
  // loaded; otherwise its modification time is noted, a type error or a strict load returns with what
  // the stream said, and a plain success goes on to query its goals, if its path is not empty.
  lemma AnsweredExactly(s: Sessions, i: nat, rs: seq<Response>, mtime: Option<int>, holes: nat)
    requires i < |s.loads| && s.loads[i].point.Loading?
    ensures var s', load := Next(s, LoadAnswered(i, rs, mtime, holes)), s.loads[i];
            var f, point := s'.fields, s'.loads[i].point;
            var fatal := exists r :: r in rs && r.StderrOutput? && IsFatalProtocolStderr(r.text);
            (fatal ==> point.Threw? && f == s.fields) &&
            (!fatal && !Parse(rs).sawLoadTerminus ==> point.Returned? && f.currentFile == s.fields.currentFile) &&
            (!fatal && Parse(rs).sawLoadTerminus ==>
              f.currentFile == Some(load.path) && f.goalIds == Parse(rs).goalIds &&
              (point.Threw? <==> mtime.None?) && (mtime.Some? ==> f.lastLoadedMtime == mtime) &&
              (mtime.Some? && (load.strict || !Parse(rs).success) ==>
                point.Returned? && point.result.goals == Parse(rs).goals) &&
              (mtime.Some? && !load.strict && Parse(rs).success ==>
                point == if load.path != "" then AwaitingMetas(Started(rs)) else MetasSettled(Started(rs), None)))
  {
    hide Parse;
    if k :| 0 <= k < |rs| && IsFatal(rs[k]) { assert rs[k] in rs; }
  }

  // A plain load as it sets out to query its goals.
  function Started(rs: seq<Response>): Progress {
    Progress(rs, Parse(rs), First, Parse(rs).goals, Parse(rs).goalIds, 0)
  }

  // The metas query answers with the goals its stream lists, and with the session's ids if it lists none;
  // ids the stream names replace the session's first.
  lemma MetasNameTheirGoals(s: Sessions, i: nat, rs: seq<Response>)
    requires i < |s.loads| && s.loads[i].point.AwaitingMetas?
    ensures var s' := Next(s, MetasAnswered(i, rs));
            var p := s.loads[i].point.p;
            var fatal := exists r :: r in rs && r.StderrOutput? && IsFatalProtocolStderr(r.text);
            var names := exists r :: r in rs && (r.InteractionPoints? || exists info :: ListsGoals(r, info));
            (fatal ==> s'.loads[i].point == MetasSettled(p, None) && s'.fields == s.fields) &&
            (!fatal ==>
              s'.fields == s.fields.(goalIds := if names then Parse(rs).goalIds else s.fields.goalIds) &&
              s'.loads[i].point.MetasSettled? && s'.loads[i].point.p == p && s'.loads[i].point.answer.Some? &&
              var gs, vs := s'.loads[i].point.answer.value, Displayed(rs).visibleGoals;
              if vs == [] then Ids(gs) == s'.fields.goalIds && forall g :: g in gs ==> g.goalType == "?" && g.context == []
              else |gs| == |vs| && forall k :: 0 <= k < |vs| ==> gs[k] == Goal(vs[k].goalId, vs[k].goalType, []))
  {
    if k :| 0 <= k < |rs| && IsFatal(rs[k]) { assert rs[k] in rs; }
    forall r ensures ShowsAllGoals(r) <==> exists info :: ListsGoals(r, info) {
      ListsGoalsIsShown(r);
    }
    if k :| 0 <= k < |rs| && (rs[k].InteractionPoints? || ShowsAllGoals(rs[k])) { assert rs[k] in rs; }
    hide ListsGoals, ShowsAllGoals, IsFatal, Displayed, InteractionIds, AddVisible, StderrTexts, ErrorTexts, ShowsTerminus;
  }

  // Reconciling never forgets a goal: the ids are those the load had and those the query answered with.
  // The process counts as dead exactly if the session no longer has the load's file.
  lemma ReconciledGoalsAreTheUnion(s: Sessions, i: nat)
    requires i < |s.loads| && s.loads[i].point.MetasSettled?
    ensures var s' := Next(s, ReconcileResumes(i));
            var p, answer := s.loads[i].point.p, s.loads[i].point.answer;
            var point := s'.loads[i].point;
            s'.fields == s.fields && point.Reconciled? && point.p == p && point.at == s'.clock &&
            (point.outcome.procDied <==> s.fields.currentFile != Some(s.loads[i].path)) &&
            point.outcome.goalIds == Ids(point.outcome.goals) &&
            (forall id :: id in Ids(point.outcome.goals) <==>
              id in Ids(p.goals) || (answer.Some? && id in Ids(answer.value))) &&
            (answer.None? || answer.value == [] ==> point.outcome.goals == p.goals) &&
            (answer.Some? && answer.value != [] ==> forall g :: g in point.outcome.goals ==>
              g == Completed(LastGoal(p.goals, g.goalId), answer.value))
  {
    var p, answer := s.loads[i].point.p, s.loads[i].point.answer;
    if answer.Some? && answer.value != [] {
      MergeKeepsAndCompletes(p.goals, answer.value);
      forall g | g in Merged(p.goals, answer.value)
        ensures g == Completed(LastGoal(p.goals, g.goalId), answer.value)
      {
        MergedExactly(p.goals, answer.value, g);
      }
    }
    hide Merged, Completed, LastGoal;
  }

  // A plain load returns the goals of its last reconciliation. It reconciles a second time exactly if the
  // first one left nothing and the scan still finds a hole.
  lemma ReturnsWhatItReconciled(events: seq<Event>, i: nat, holes: nat)
    requires i < |Run(events).loads| && Run(events).loads[i].point.Reconciled?
    ensures var s := Run(events);
            var s', p, outcome := Next(s, LoadResumes(i, holes)), s.loads[i].point.p, s.loads[i].point.outcome;
            var point := s'.loads[i].point;
            var again := !outcome.procDied && p.round.First? && outcome.goals == [] && p.parsed.invisibleGoalCount == 0 && holes > 0;
            (!again ==> point.Returned? && point.responses == p.responses) &&
            (!again && !outcome.procDied ==>
              point.result.goals == outcome.goals &&
              point.result.hasHoles == (outcome.goals != [] || p.parsed.invisibleGoalCount > 0 || p.round.Second?)) &&
            (again ==>
              point == if s.fields.currentFile.Some? && s.fields.currentFile.value != "" then AwaitingMetas(Again(p, holes))
                       else MetasSettled(Again(p, holes), None))
  {
    hide Run, Parse;
    RunKeeps(events);
    assert WellPlaced(Run(events).fields, Run(events).loads[i]);
    hide Inv, WellPlaced;
  }

  // The load as it sets out for its second query.
  function Again(p: Progress, holes: nat): Progress {
    p.(goals := [], goalIds := [], sourceHoles := holes, round := Second)
  }

  // A strict load succeeds exactly when the plain parse does and nothing at all is left.
  lemma StrictLoadsRejectHoles(f: Fields, load: Load, rs: seq<Response>, mtime: Option<int>, holes: nat, now: nat)
    requires load.strict && mtime.Some? && !IsFatalReply(rs) && Parse(rs).sawLoadTerminus
    ensures var seg := AfterLoad(f, load, rs, mtime, holes, now);
            seg.point.Returned? && seg.fields.currentFile == Some(load.path) &&
            (seg.point.result.success <==>
               Parse(rs).success && Parse(rs).goals == [] && Parse(rs).invisibleGoalCount == 0 && holes == 0)
  {
  }
}

/** The load functions over the session object, segment by segment. */
module AgdaLoadClass {
  import opened Basics
  import opened Wire
  import opened Terminus
  import opened LoadParsing
  import opened GoalMerging
  import opened LoadModel

  class LoadSession {
    var currentFile: Option<string>
    var goalIds: seq<int>
    var lastLoadedMtime: Option<int>
    var lastClassification: Option<Stamped>
    var lastInvisibleGoalCount: nat
    var fileStamp: nat

    function View(): Fields
      reads this
    {
      Fields(currentFile, fileStamp, goalIds, lastLoadedMtime, lastClassification, lastInvisibleGoalCount)
    }

    constructor ()
      ensures View() == EMPTY.fields
    {
      currentFile, goalIds, lastLoadedMtime, lastClassification := None, [], None, None;
      lastInvisibleGoalCount, fileStamp := 0, 0;
    }

    method SetFile(file: Option<string>, now: nat)
      modifies `currentFile, `fileStamp
      ensures View() == old(View()).(currentFile := file, fileStamp := now)
    {
      currentFile, fileStamp := file, now;
    }

    method InvalidatePriorLoadState(now: nat)
      modifies this
      ensures View() == Invalidated(old(View()), now)
    {
      SetFile(None, now);
      goalIds := [];
      lastLoadedMtime := None;
      lastClassification := None;
      lastInvisibleGoalCount := 0;
    }

    method FinalizeEarlyReturn(result: LoadResult, responses: seq<Response>, begun: nat, now: nat) returns (point: Point)
      modifies `lastClassification
      ensures Segment(View(), point) == EarlyReturn(old(View()), result, responses, begun, now)
    {
      lastClassification := Some(Stamped(result.classification, begun, now));
      point := Returned(result, true, responses);
    }

    method BeginLoad(path: string, strict: bool, found: bool, optionsOk: bool, now: nat) returns (point: Point)
      modifies this
      ensures var s := Sessions(old(View()), [], now);
              Next(s, Begin(path, strict, found, optionsOk)).fields == View() &&
              Next(s, Begin(path, strict, found, optionsOk)).loads == [Load(path, strict, now, point)]
    {
      InvalidatePriorLoadState(now + 1);
      if !found {
        point := FinalizeEarlyReturn(FileNotFound(path), [], now, now + 1);
        return;
      }
      if !strict && !optionsOk {
        point := FinalizeEarlyReturn(FailedLoad([], [], InvalidOptions), [], now, now + 1);
        return;
      }
      point := Loading;
    }

    method FinishLoad(p: Progress, begun: nat, now: nat) returns (point: Point)
      modifies this
      ensures Segment(View(), point) == Conclude(old(View()), p, begun, now)
    {
      var status := ClassifyLoadResult(p.parsed.success, |p.goals|, p.parsed.invisibleGoalCount, p.sourceHoles);
      goalIds := p.goalIds;
      lastClassification := Some(Stamped(status.classification, begun, now));
      lastInvisibleGoalCount := p.parsed.invisibleGoalCount;
      point := Returned(
        LoadResult(p.parsed.success, p.parsed.errors, p.parsed.warnings, p.goals, p.parsed.invisibleGoalCount,
                   |p.goals|, status.hasHoles, status.isComplete, status.classification),
        false, p.responses);
    }

    method RunLoadAfterCommand(load: Load, responses: seq<Response>, mtime: Option<int>, holes: nat, now: nat)
      returns (point: Point)
      requires !load.strict
      modifies this
      ensures Segment(View(), point) == AfterLoad(old(View()), load, responses, mtime, holes, now)
    {
      hide Parse;
      if IsFatalReply(responses) { return Threw; }
      var parsed := ParseLoadResponses(responses);
      if !parsed.sawLoadTerminus {
        point := FinalizeEarlyReturn(LoadIncomplete(load.path, parsed), responses, load.startedAt, now);
        return;
      }
      SetFile(Some(load.path), now);
      goalIds := parsed.goalIds;
      if mtime.None? { return Threw; }
      lastLoadedMtime := mtime;
      var p := Progress(responses, parsed, First, parsed.goals, parsed.goalIds, 0);
      if parsed.success {
        point := if HasFile(View()) then AwaitingMetas(p) else MetasSettled(p, None);
      } else {
        point := FinishLoad(p, load.startedAt, now);
      }
    }

    method RunLoadNoMetasAfterCommand(load: Load, responses: seq<Response>, mtime: Option<int>, holes: nat, now: nat)
      returns (point: Point)
      requires load.strict
      modifies this
      ensures Segment(View(), point) == AfterLoad(old(View()), load, responses, mtime, holes, now)
    {
      hide Parse;
      if IsFatalReply(responses) { return Threw; }
      var parsed := ParseLoadResponses(responses);
      if !parsed.sawLoadTerminus {
        point := FinalizeEarlyReturn(LoadIncomplete(load.path, parsed), responses, load.startedAt, now);
        return;
      }
      var needsScan := parsed.success && parsed.goals == [] && parsed.invisibleGoalCount == 0;
      var sourceHoleCount := if needsScan then holes else 0;
      var status := ClassifyLoadResult(parsed.success, |parsed.goals|, parsed.invisibleGoalCount, sourceHoleCount);
      var fallback := parsed.success && status.hasHoles;
      var success := if fallback then false else parsed.success;
      var classification := if success then OkComplete else TypeError;
      var errors := if fallback then parsed.errors + [STRICT_ERROR] else parsed.errors;
      SetFile(Some(load.path), now);
      goalIds := parsed.goalIds;
      if mtime.None? { return Threw; }
      lastLoadedMtime := mtime;
      lastClassification := Some(Stamped(classification, load.startedAt, now));
      lastInvisibleGoalCount := parsed.invisibleGoalCount;
      point := Returned(
        LoadResult(success, errors, parsed.warnings, parsed.goals, parsed.invisibleGoalCount, |parsed.goals|,
                   status.hasHoles, success, classification),
        false, responses);
    }

    method SyncGoalIdsFromResponses(responses: seq<Response>)
      modifies `goalIds
      ensures View() == Synced(old(View()), responses)
    {
      if exists k :: 0 <= k < |responses| && (responses[k].InteractionPoints? || ShowsAllGoals(responses[k])) {
        goalIds := Ids(AddVisible(FreshGoals(InteractionIds(responses)), Displayed(responses).visibleGoals));
      }
    }

    method MetasAfterCommand(p: Progress, responses: seq<Response>) returns (point: Point)
      modifies `goalIds
      ensures Segment(View(), point) == AfterMetas(old(View()), p, responses)
    {
      if IsFatalReply(responses) { return MetasSettled(p, None); }
      var goals := VisibleAsGoals(Displayed(responses).visibleGoals);
      SyncGoalIdsFromResponses(responses);
      if goals == [] && |goalIds| > 0 { goals := FreshGoals(goalIds); }
      point := MetasSettled(p, Some(goals));
    }

    method ReconcileAfterMetas(load: Load, p: Progress, answer: Option<seq<Goal>>, now: nat) returns (point: Point)
      ensures Segment(View(), point) == AfterReconcile(View(), load, p, answer, now)
    {
      var goals := p.goals;
      if answer.Some? && |answer.value| > 0 { goals := MergeGoals(p.goals, answer.value); }
      point := Reconciled(p, Reconciliation(goals, Ids(goals), currentFile != Some(load.path)), now);
    }

    method RunLoadAfterReconcile(load: Load, p: Progress, r: Reconciliation, holes: nat, now: nat) returns (point: Point)
      modifies this
      ensures Segment(View(), point) == AfterRound(old(View()), load, p, r, holes, now)
    {
      if r.procDied {
        point := FinalizeEarlyReturn(DiedReconciling(load.path, p.parsed), p.responses, load.startedAt, now);
        return;
      }
      match p.round {
        case First =>
          var needsScan := p.parsed.success && |r.goals| == 0 && p.parsed.invisibleGoalCount == 0;
          var sourceHoleCount := if needsScan then holes else 0;
          var q := p.(goals := r.goals, goalIds := r.goalIds, sourceHoles := sourceHoleCount);
          if sourceHoleCount > 0 {
            q := q.(round := Second);
            point := if HasFile(View()) then AwaitingMetas(q) else MetasSettled(q, None);
          } else {
            point := FinishLoad(q, load.startedAt, now);
          }
        case Second =>
          var q := p;
          if |r.goals| > |p.goals| { q := q.(goals := r.goals, goalIds := r.goalIds); }
          point := FinishLoad(q, load.startedAt, now);
      }
    }
  }
}
