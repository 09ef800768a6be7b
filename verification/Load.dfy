/**
 * Loads on a shared session. A load runs in segments between its awaits; any number of loads, other
 * commands and process deaths interleave at those points.
 */
module LoadModel {
  import opened Basics
  import opened Wire
  import opened Terminus
  import opened LoadParsing
  import opened GoalMerging

  datatype Classification =
    | TypeError | OkWithHoles | OkComplete
    | InvalidOptions | IncompleteNoTerminus | DiedDuringReconciliation

  // A verdict, when the load that wrote it began, and the step at which it was written.
  datatype Stamped = Stamped(verdict: Classification, begun: nat, at: nat)

  // The session fields a load writes; fileStamp is the step of the last assignment to currentFile.
  datatype Fields = Fields(currentFile: Option<string>, fileStamp: nat, goalIds: seq<int>,
                           lastLoadedMtime: Option<int>, lastClassification: Option<Stamped>,
                           lastInvisibleGoalCount: nat)

  datatype LoadResult = LoadResult(
    success: bool, errors: seq<string>, warnings: seq<string>, goals: seq<Goal>, invisibleGoalCount: nat,
    goalCount: nat, hasHoles: bool, isComplete: bool, classification: Classification)

  // ---- results ----

  function FailedLoad(errors: seq<string>, warnings: seq<string>, c: Classification): LoadResult {
    LoadResult(false, errors, warnings, [], 0, 0, false, false, c)
  }

  function FileNotFound(path: string): LoadResult { FailedLoad(["File not found: " + path], [], TypeError) }

  function LoadIncomplete(path: string, parsed: ParsedLoad): LoadResult {
    FailedLoad(["Agda returned no terminal goal-state event for " + path], parsed.warnings, IncompleteNoTerminus)
  }

  function DiedReconciling(path: string, parsed: ParsedLoad): LoadResult {
    FailedLoad(["Agda subprocess died during post-load reconciliation for " + path], parsed.warnings,
               DiedDuringReconciliation)
  }

  datatype Status = LoadStatus(hasHoles: bool, isComplete: bool, classification: Classification)

  function ClassifyLoadResult(success: bool, goalCount: nat, invisibleGoalCount: nat, sourceHoleCount: nat): (s: Status)
    ensures s.classification.OkComplete? <==> s.isComplete
    ensures s.isComplete <==> success && goalCount == 0 && invisibleGoalCount == 0 && sourceHoleCount == 0
    ensures s.classification.TypeError? <==> !success
  {
    var hasHoles := goalCount > 0 || invisibleGoalCount > 0 || sourceHoleCount > 0;
    LoadStatus(hasHoles, success && !hasHoles,
               if success then (if hasHoles then OkWithHoles else OkComplete) else TypeError)
  }

  // ---- the session fields ----

  function Invalidated(f: Fields, now: nat): Fields { Fields(None, now, [], None, None, 0) }

  function Classified(f: Fields, c: Classification, begun: nat, now: nat): Fields {
    f.(lastClassification := Some(Stamped(c, begun, now)))
  }

  // syncGoalIdsFromResponses: goal evidence replaces the session's goal ids.
  function Synced(f: Fields, rs: seq<Response>): Fields {
    if exists k :: 0 <= k < |rs| && (rs[k].InteractionPoints? || ShowsAllGoals(rs[k]))
    then f.(goalIds := Ids(AddVisible(FreshGoals(InteractionIds(rs)), Displayed(rs).visibleGoals)))
    else f
  }

  predicate HasFile(f: Fields) { f.currentFile.Some? && f.currentFile.value != "" }

  predicate IsFatalReply(rs: seq<Response>) { exists k :: 0 <= k < |rs| && IsFatal(rs[k]) }

  function VisibleAsGoals(vs: seq<VisibleGoal>): seq<Goal> {
    seq(|vs|, k requires 0 <= k < |vs| => Goal(vs[k].goalId, vs[k].goalType, []))
  }

  // What Cmd_metas yields once the session's ids have been synced: its visible goals, or the session's
  // own ids when it names none.
  function MetasGoals(f: Fields, rs: seq<Response>): seq<Goal> {
    var visible := VisibleAsGoals(Displayed(rs).visibleGoals);
    if visible != [] then visible else FreshGoals(f.goalIds)
  }

  // ---- one load ----

  datatype Round = First | Second

  // Everything runLoad holds in local variables once the load's responses are in.
  datatype Progress = Progress(responses: seq<Response>, parsed: ParsedLoad, round: Round,
                               goals: seq<Goal>, goalIds: seq<int>, sourceHoles: nat)

  datatype Reconciliation = Reconciliation(goals: seq<Goal>, goalIds: seq<int>, procDied: bool)

  datatype Point =
    | Loading
    | AwaitingMetas(p: Progress)
    | MetasSettled(p: Progress, answer: Option<seq<Goal>>)
    | Reconciled(p: Progress, outcome: Reconciliation, at: nat)
    | Returned(result: LoadResult, early: bool, responses: seq<Response>)
    | Threw

  datatype Load = Load(path: string, strict: bool, startedAt: nat, point: Point)

  datatype Sessions = Sessions(fields: Fields, loads: seq<Load>, clock: nat)

  datatype Event =
    | Begin(path: string, strict: bool, found: bool, optionsOk: bool)
    | LoadAnswered(i: nat, responses: seq<Response>, mtime: Option<int>, holesInSource: nat)
    | LoadRejected(i: nat)
    | MetasAnswered(i: nat, responses: seq<Response>)
    | MetasRejected(i: nat)
    | ReconcileResumes(i: nat)
    | LoadResumes(i: nat, holesInSource: nat)
    | OtherCommandSynced(responses: seq<Response>)
    | ProcessReset

  // A segment's effect: the fields it leaves and the point the load has reached.
  datatype Segment = Segment(fields: Fields, point: Point)

  function EarlyReturn(f: Fields, result: LoadResult, responses: seq<Response>, begun: nat, now: nat): Segment {
    Segment(Classified(f, result.classification, begun, now), Returned(result, true, responses))
  }

  // The last segment of runLoad: classify, write the fields, return.
  function Conclude(f: Fields, p: Progress, begun: nat, now: nat): Segment {
    var status := ClassifyLoadResult(p.parsed.success, |p.goals|, p.parsed.invisibleGoalCount, p.sourceHoles);
    Segment(
      f.(goalIds := p.goalIds, lastClassification := Some(Stamped(status.classification, begun, now)),
         lastInvisibleGoalCount := p.parsed.invisibleGoalCount),
      Returned(
        LoadResult(p.parsed.success, p.parsed.errors, p.parsed.warnings, p.goals, p.parsed.invisibleGoalCount,
                   |p.goals|, status.hasHoles, status.isComplete, status.classification),
        false, p.responses))
  }

  // metas() checks for a loaded file before it sends anything.
  function StartReconcile(f: Fields, p: Progress): Segment {
    Segment(f, if HasFile(f) then AwaitingMetas(p) else MetasSettled(p, None))
  }

  const STRICT_ERROR := "Strict load requires zero unresolved metas and zero holes."

  function ConcludeStrict(f: Fields, path: string, rs: seq<Response>, parsed: ParsedLoad, mtime: Option<int>,
                          holes: nat, begun: nat, now: nat): Segment
  {
    var written := f.(currentFile := Some(path), fileStamp := now, goalIds := parsed.goalIds);
    if mtime.None? then Segment(written, Threw)
    else
      var hasHoles := ClassifyLoadResult(parsed.success, |parsed.goals|, parsed.invisibleGoalCount, holes).hasHoles;
      var success := parsed.success && !hasHoles;
      var c := if success then OkComplete else TypeError;
      Segment(
        written.(lastLoadedMtime := mtime, lastClassification := Some(Stamped(c, begun, now)),
                 lastInvisibleGoalCount := parsed.invisibleGoalCount),
        Returned(
          LoadResult(success, if parsed.success && hasHoles then parsed.errors + [STRICT_ERROR] else parsed.errors,
                     parsed.warnings, parsed.goals, parsed.invisibleGoalCount, |parsed.goals|, hasHoles, success, c),
          false, rs))
  }

  // The segment behind `await sendCommand(Cmd_load …)`.
  function AfterLoad(f: Fields, load: Load, rs: seq<Response>, mtime: Option<int>, holes: nat, now: nat): Segment {
    var parsed := Parse(rs);
    if IsFatalReply(rs) then Segment(f, Threw)
    else if !parsed.sawLoadTerminus then EarlyReturn(f, LoadIncomplete(load.path, parsed), rs, load.startedAt, now)
    else if load.strict then
      ConcludeStrict(f, load.path, rs, parsed, mtime,
                     if parsed.success && parsed.goals == [] && parsed.invisibleGoalCount == 0 then holes else 0,
                     load.startedAt, now)
    else
      var written := f.(currentFile := Some(load.path), fileStamp := now, goalIds := parsed.goalIds);
      if mtime.None? then Segment(written, Threw)
      else
        var g := written.(lastLoadedMtime := mtime);
        var p := Progress(rs, parsed, First, parsed.goals, parsed.goalIds, 0);
        if parsed.success then StartReconcile(g, p) else Conclude(g, p, load.startedAt, now)
  }

  // The segment behind `await sendCommand(Cmd_metas …)`, inside metas().
  function AfterMetas(f: Fields, p: Progress, rs: seq<Response>): Segment {
    if IsFatalReply(rs) then Segment(f, MetasSettled(p, None))
    else
      var g := Synced(f, rs);
      Segment(g, MetasSettled(p, Some(MetasGoals(g, rs))))
  }

  // The segment behind `await session.goal.metas()`, inside reconcileGoalsViaMetas.
  function AfterReconcile(f: Fields, load: Load, p: Progress, answer: Option<seq<Goal>>, now: nat): Segment {
    var goals := if answer.Some? && answer.value != [] then Merged(p.goals, answer.value) else p.goals;
    Segment(f, Reconciled(p, Reconciliation(goals, Ids(goals), f.currentFile != Some(load.path)), now))
  }

  // The segment behind `await reconcileGoalsViaMetas(…)`, inside runLoad.
  function AfterRound(f: Fields, load: Load, p: Progress, r: Reconciliation, holes: nat, now: nat): Segment {
    if r.procDied then EarlyReturn(f, DiedReconciling(load.path, p.parsed), p.responses, load.startedAt, now)
    else if p.round.First? then
      var count := if p.parsed.success && r.goals == [] && p.parsed.invisibleGoalCount == 0 then holes else 0;
      var q := p.(goals := r.goals, goalIds := r.goalIds, sourceHoles := count);
      if count > 0 then StartReconcile(f, q.(round := Second)) else Conclude(f, q, load.startedAt, now)
    else if |r.goals| > |p.goals| then Conclude(f, p.(goals := r.goals, goalIds := r.goalIds), load.startedAt, now)
    else Conclude(f, p, load.startedAt, now)
  }

  // ---- steps and runs ----

  function Apply(s: Sessions, i: nat, seg: Segment): Sessions
    requires i < |s.loads|
  {
    s.(fields := seg.fields, loads := s.loads[i := s.loads[i].(point := seg.point)])
  }

  // An event that does not fit the load it names changes nothing.
  function Next(s: Sessions, e: Event): Sessions {
    var now := s.clock + 1;
    var t := s.(clock := now);
    match e
    case Begin(path, strict, found, optionsOk) =>
      var f := Invalidated(s.fields, now);
      var seg :=
        if !found then EarlyReturn(f, FileNotFound(path), [], s.clock, now)
        else if !strict && !optionsOk then EarlyReturn(f, FailedLoad([], [], InvalidOptions), [], s.clock, now)
        else Segment(f, Loading);
      t.(fields := seg.fields, loads := s.loads + [Load(path, strict, s.clock, seg.point)])
    case LoadAnswered(i, rs, mtime, holes) =>
      if i < |s.loads| && s.loads[i].point.Loading?
      then Apply(t, i, AfterLoad(s.fields, s.loads[i], rs, mtime, holes, now)) else t
    case LoadRejected(i) =>
      if i < |s.loads| && s.loads[i].point.Loading? then Apply(t, i, Segment(s.fields, Threw)) else t
    case MetasAnswered(i, rs) =>
      if i < |s.loads| && s.loads[i].point.AwaitingMetas?
      then Apply(t, i, AfterMetas(s.fields, s.loads[i].point.p, rs)) else t
    case MetasRejected(i) =>
      if i < |s.loads| && s.loads[i].point.AwaitingMetas?
      then Apply(t, i, Segment(s.fields, MetasSettled(s.loads[i].point.p, None))) else t
    case ReconcileResumes(i) =>
      if i < |s.loads| && s.loads[i].point.MetasSettled?
      then Apply(t, i, AfterReconcile(s.fields, s.loads[i], s.loads[i].point.p, s.loads[i].point.answer, now)) else t
    case LoadResumes(i, holes) =>
      if i < |s.loads| && s.loads[i].point.Reconciled?
      then Apply(t, i, AfterRound(s.fields, s.loads[i], s.loads[i].point.p, s.loads[i].point.outcome, holes, now)) else t
    case OtherCommandSynced(rs) => t.(fields := Synced(s.fields, rs))
    case ProcessReset => t.(fields := Invalidated(s.fields, now))
  }

  const EMPTY := Sessions(Fields(None, 0, [], None, None, 0), [], 0)

  function Run(events: seq<Event>): Sessions {
    if events == [] then EMPTY else Next(Run(events[..|events| - 1]), events[|events| - 1])
  }

  // ---- what every run keeps ----

  // The local variables of a load in progress: goals and ids in lockstep, read off its own responses.
  predicate WellProgressed(p: Progress) {
    && p.parsed == Parse(p.responses) && p.parsed.success && !IsFatalReply(p.responses) && p.parsed.sawLoadTerminus
    && p.goalIds == Ids(p.goals) && NoRepeats(p.goalIds)
    && (p.round.Second? ==> p.goals == [] && p.parsed.invisibleGoalCount == 0 && p.sourceHoles > 0)
    && (p.round.First? ==> p.sourceHoles == 0)
  }

  predicate WellPlaced(f: Fields, load: Load) {
    match load.point
    case AwaitingMetas(p) => WellProgressed(p)
    case MetasSettled(p, _) => WellProgressed(p)
    case Reconciled(p, r, at) =>
      WellProgressed(p) && r.goalIds == Ids(r.goals) && NoRepeats(r.goalIds) &&
      (!r.procDied && f.fileStamp <= at ==> f.currentFile == Some(load.path))
    case Returned(result, early, rs) =>
      if early then !result.success && !result.classification.OkComplete?
      else WellReturned(result, rs)
    case _ => true
  }

  // A result that came from a parsed stream: nothing is claimed that the stream does not support.
  predicate WellReturned(result: LoadResult, rs: seq<Response>) {
    && result.goalCount == |result.goals| && NoRepeats(Ids(result.goals))
    && !IsFatalReply(rs) && Parse(rs).sawLoadTerminus
    && (result.success ==> Parse(rs).success)
    && (result.classification.OkComplete? <==> result.isComplete)
    && (result.isComplete ==> result.success && result.goals == [] && result.invisibleGoalCount == 0)
    && (result.classification.TypeError? <==> !result.success)
  }

  predicate Inv(s: Sessions) {
    && s.fields.fileStamp <= s.clock
    && (forall i, j :: 0 <= i < j < |s.loads| ==> s.loads[i].startedAt < s.loads[j].startedAt)
    && (forall i :: 0 <= i < |s.loads| ==> WellPlaced(s.fields, s.loads[i]) && s.loads[i].startedAt < s.clock)
    && (forall i :: 0 <= i < |s.loads| ==> s.loads[i].point.Reconciled? ==> s.loads[i].point.at <= s.clock)
    && (s.fields.lastClassification.Some? ==>
          s.fields.lastClassification.value.at <= s.clock &&
          forall i :: 0 <= i < |s.loads| ==> s.loads[i].startedAt < s.fields.lastClassification.value.at)
  }

  // How a segment may change the fields: currentFile only with a fresh stamp, a verdict only with the
  // present step.
  predicate FieldsStep(f: Fields, g: Fields, now: nat) {
    && ((g.fileStamp == f.fileStamp && g.currentFile == f.currentFile) || g.fileStamp == now)
    && (g.lastClassification == f.lastClassification || g.lastClassification.None? ||
        g.lastClassification.value.at == now)
  }

  lemma ParsedIsLockstep(rs: seq<Response>)
    ensures Parse(rs).goalIds == Ids(Parse(rs).goals) && NoRepeats(Parse(rs).goalIds)
  {
    ParsedGoalsAreTheGoals(rs, 0);
  }

  lemma ConcludeWell(f: Fields, load: Load, p: Progress, now: nat)
    requires p.parsed == Parse(p.responses) && !IsFatalReply(p.responses) && p.parsed.sawLoadTerminus
    requires p.goalIds == Ids(p.goals) && NoRepeats(p.goalIds)
    ensures var seg := Conclude(f, p, load.startedAt, now);
            WellPlaced(seg.fields, load.(point := seg.point)) && FieldsStep(f, seg.fields, now)
  {
    hide Parse;
  }

  lemma AfterLoadWell(f: Fields, load: Load, rs: seq<Response>, mtime: Option<int>, holes: nat, now: nat)
    ensures var seg := AfterLoad(f, load, rs, mtime, holes, now);
            WellPlaced(seg.fields, load.(point := seg.point)) && FieldsStep(f, seg.fields, now)
    ensures !AfterLoad(f, load, rs, mtime, holes, now).point.Reconciled?
  {
    hide Parse;
    ParsedIsLockstep(rs);
    var g := f.(currentFile := Some(load.path), fileStamp := now, goalIds := Parse(rs).goalIds, lastLoadedMtime := mtime);
    if !IsFatalReply(rs) && Parse(rs).sawLoadTerminus {
      ConcludeWell(g, load, Progress(rs, Parse(rs), First, Parse(rs).goals, Parse(rs).goalIds, 0), now);
    }
  }

  lemma AfterReconcileWell(f: Fields, load: Load, p: Progress, answer: Option<seq<Goal>>, now: nat)
    requires WellProgressed(p)
    ensures var seg := AfterReconcile(f, load, p, answer, now);
            WellPlaced(seg.fields, load.(point := seg.point)) && seg.fields == f
  {
    hide Parse;
    if answer.Some? { MergeKeepsAndCompletes(p.goals, answer.value); }
  }

  lemma AfterRoundWell(f: Fields, load: Load, p: Progress, r: Reconciliation, holes: nat, now: nat)
    requires WellProgressed(p) && r.goalIds == Ids(r.goals) && NoRepeats(r.goalIds)
    ensures var seg := AfterRound(f, load, p, r, holes, now);
            WellPlaced(seg.fields, load.(point := seg.point)) && FieldsStep(f, seg.fields, now)
    ensures !AfterRound(f, load, p, r, holes, now).point.Reconciled?
  {
    hide Parse;
    if !r.procDied {
      var count := if p.parsed.success && r.goals == [] && p.parsed.invisibleGoalCount == 0 then holes else 0;
      if p.round.First? {
        ConcludeWell(f, load, p.(goals := r.goals, goalIds := r.goalIds, sourceHoles := count), now);
      } else {
        ConcludeWell(f, load, p.(goals := r.goals, goalIds := r.goalIds), now);
        ConcludeWell(f, load, p, now);
      }
    }
  }

  // A change of fields of the allowed kind leaves the other loads well placed.
  lemma OthersStayWell(s: Sessions, g: Fields, i: nat)
    requires Inv(s) && i < |s.loads| && FieldsStep(s.fields, g, s.clock + 1)
    ensures WellPlaced(g, s.loads[i])
  {
    hide Parse, WellProgressed, WellReturned;
  }

  lemma ApplyKeeps(s: Sessions, i: nat, seg: Segment)
    requires Inv(s) && i < |s.loads|
    requires FieldsStep(s.fields, seg.fields, s.clock + 1)
    requires WellPlaced(seg.fields, s.loads[i].(point := seg.point))
    requires seg.point.Reconciled? ==> seg.point.at == s.clock + 1
    ensures Inv(Apply(s.(clock := s.clock + 1), i, seg))
  {
    hide WellPlaced;
    forall k | 0 <= k < |s.loads|
      ensures WellPlaced(seg.fields, s.loads[k])
    {
      OthersStayWell(s, seg.fields, k);
    }
  }

  lemma NextKeeps(s: Sessions, e: Event)
    requires Inv(s)
    ensures Inv(Next(s, e))
  {
    hide WellPlaced, Parse, AfterLoad, AfterMetas, AfterReconcile, AfterRound, Synced;
    var now := s.clock + 1;
    match e
    case Begin(path, strict, found, optionsOk) => BeginKeeps(s, path, strict, found, optionsOk);
    case LoadAnswered(i, rs, mtime, holes) =>
      if i < |s.loads| && s.loads[i].point.Loading? {
        AfterLoadWell(s.fields, s.loads[i], rs, mtime, holes, now);
        ApplyKeeps(s, i, AfterLoad(s.fields, s.loads[i], rs, mtime, holes, now));
      } else { FieldsKeep(s, s.fields); }
    case LoadRejected(i) =>
      FieldsKeep(s, s.fields);
      if i < |s.loads| && s.loads[i].point.Loading? {
        RejectedWell(s, i);
        ApplyKeeps(s, i, Segment(s.fields, Threw));
      }
    case MetasAnswered(i, rs) =>
      FieldsKeep(s, s.fields);
      if i < |s.loads| && s.loads[i].point.AwaitingMetas? {
        MetasWell(s, i, rs);
        ApplyKeeps(s, i, AfterMetas(s.fields, s.loads[i].point.p, rs));
      }
    case MetasRejected(i) =>
      FieldsKeep(s, s.fields);
      if i < |s.loads| && s.loads[i].point.AwaitingMetas? {
        MetasWell(s, i, []);
        ApplyKeeps(s, i, Segment(s.fields, MetasSettled(s.loads[i].point.p, None)));
      }
    case ReconcileResumes(i) =>
      FieldsKeep(s, s.fields);
      if i < |s.loads| && s.loads[i].point.MetasSettled? {
        ReconcileWell(s, i);
        ApplyKeeps(s, i, AfterReconcile(s.fields, s.loads[i], s.loads[i].point.p, s.loads[i].point.answer, now));
      }
    case LoadResumes(i, holes) =>
      FieldsKeep(s, s.fields);
      if i < |s.loads| && s.loads[i].point.Reconciled? {
        RoundWell(s, i, holes);
        ApplyKeeps(s, i, AfterRound(s.fields, s.loads[i], s.loads[i].point.p, s.loads[i].point.outcome, holes, now));
      }
    case OtherCommandSynced(rs) => SyncStep(s.fields, rs, now); FieldsKeep(s, Synced(s.fields, rs));
    case ProcessReset => FieldsKeep(s, Invalidated(s.fields, now));
  }

  lemma FieldsKeep(s: Sessions, g: Fields)
    requires Inv(s) && FieldsStep(s.fields, g, s.clock + 1)
    ensures Inv(s.(clock := s.clock + 1, fields := g))
  {
    forall k | 0 <= k < |s.loads|
      ensures WellPlaced(g, s.loads[k])
    {
      OthersStayWell(s, g, k);
    }
    hide WellPlaced;
  }

  lemma SyncStep(f: Fields, rs: seq<Response>, now: nat)
    ensures FieldsStep(f, Synced(f, rs), now)
  {
  }

  lemma RejectedWell(s: Sessions, i: nat)
    requires i < |s.loads|
    ensures WellPlaced(s.fields, s.loads[i].(point := Threw)) && FieldsStep(s.fields, s.fields, s.clock + 1)
  {
  }

  lemma MetasWell(s: Sessions, i: nat, rs: seq<Response>)
    requires Inv(s) && i < |s.loads| && s.loads[i].point.AwaitingMetas?
    ensures var p := s.loads[i].point.p;
            var seg := AfterMetas(s.fields, p, rs);
            WellPlaced(seg.fields, s.loads[i].(point := seg.point)) && FieldsStep(s.fields, seg.fields, s.clock + 1) &&
            !seg.point.Reconciled? &&
            WellPlaced(s.fields, s.loads[i].(point := MetasSettled(p, None))) &&
            FieldsStep(s.fields, s.fields, s.clock + 1)
  {
    hide WellProgressed, MetasGoals, Synced;
    assert WellPlaced(s.fields, s.loads[i]);
    SyncStep(s.fields, rs, s.clock + 1);
  }

  lemma ReconcileWell(s: Sessions, i: nat)
    requires Inv(s) && i < |s.loads| && s.loads[i].point.MetasSettled?
    ensures var now := s.clock + 1;
            var seg := AfterReconcile(s.fields, s.loads[i], s.loads[i].point.p, s.loads[i].point.answer, now);
            WellPlaced(seg.fields, s.loads[i].(point := seg.point)) && FieldsStep(s.fields, seg.fields, now) &&
            seg.point.Reconciled? && seg.point.at == now
  {
    hide WellProgressed;
    assert WellPlaced(s.fields, s.loads[i]);
    AfterReconcileWell(s.fields, s.loads[i], s.loads[i].point.p, s.loads[i].point.answer, s.clock + 1);
  }

  lemma RoundWell(s: Sessions, i: nat, holes: nat)
    requires Inv(s) && i < |s.loads| && s.loads[i].point.Reconciled?
    ensures var now := s.clock + 1;
            var seg := AfterRound(s.fields, s.loads[i], s.loads[i].point.p, s.loads[i].point.outcome, holes, now);
            WellPlaced(seg.fields, s.loads[i].(point := seg.point)) && FieldsStep(s.fields, seg.fields, now) &&
            !seg.point.Reconciled?
  {
    hide WellProgressed, AfterRound;
    assert WellPlaced(s.fields, s.loads[i]);
    AfterRoundWell(s.fields, s.loads[i], s.loads[i].point.p, s.loads[i].point.outcome, holes, s.clock + 1);
  }

  lemma BeginKeeps(s: Sessions, path: string, strict: bool, found: bool, optionsOk: bool)
    requires Inv(s)
    ensures Inv(Next(s, Begin(path, strict, found, optionsOk)))
  {
    var now := s.clock + 1;
    forall k | 0 <= k < |s.loads|
      ensures WellPlaced(Next(s, Begin(path, strict, found, optionsOk)).fields, s.loads[k])
    {
      OthersStayWell(s, Next(s, Begin(path, strict, found, optionsOk)).fields, k);
    }
    hide Parse;
  }

  lemma {:induction false} RunKeeps(events: seq<Event>)
    ensures Inv(Run(events))
  {
    hide Inv, Next;
    if events == [] {
      EmptyWell();
    } else {
      RunKeeps(events[..|events| - 1]);
      NextKeeps(Run(events[..|events| - 1]), events[|events| - 1]);
    }
  }

  lemma EmptyWell()
    ensures Inv(EMPTY)
  {
  }
}
