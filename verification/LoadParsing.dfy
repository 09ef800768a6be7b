/** Reading a load's response list: goals, errors, success. */
module LoadParsing {
  import opened Basics
  import opened Wire
  import opened Terminus

  datatype Goal = Goal(goalId: int, goalType: string, context: seq<string>)

  const UNKNOWN_TYPE := "?"

  function Ids(goals: seq<Goal>): (ids: seq<int>)
    ensures |ids| == |goals| && forall k :: 0 <= k < |goals| ==> ids[k] == goals[k].goalId
  {
    seq(|goals|, k requires 0 <= k < |goals| => goals[k].goalId)
  }

  // ---- decoding ----

  // What a DisplayInfo event shows: the payload of a goal-specific one is looked into.
  function Shown(info: Info): Info { if info.GoalSpecific? then info.goalInfo else info }

  predicate ShowsAllGoals(r: Response) { r.DisplayInfo? && Shown(r.info).AllGoalsWarnings? }

  predicate ShowsError(r: Response) { r.DisplayInfo? && Shown(r.info).ErrorInfo? }

  predicate NonBlankStderr(r: Response) { r.StderrOutput? && Trim(r.text) != "" }

  function NonBlank(texts: seq<string>): seq<string> {
    if texts == [] then []
    else NonBlank(texts[..|texts| - 1]) + (if Trim(texts[|texts| - 1]) != "" then [texts[|texts| - 1]] else [])
  }

  function InteractionIds(rs: seq<Response>): seq<int> {
    if rs == [] then []
    else
      var before, r := InteractionIds(rs[..|rs| - 1]), rs[|rs| - 1];
      if r.InteractionPoints? then AddIds(before, r.ids) else before
  }

  function AddIds(ids: seq<int>, more: seq<int>): seq<int> {
    if more == [] then ids
    else
      var added, id := AddIds(ids, more[..|more| - 1]), more[|more| - 1];
      if id in added then added else added + [id]
  }

  function StderrTexts(rs: seq<Response>): seq<string> {
    if rs == [] then []
    else
      var r := rs[|rs| - 1];
      StderrTexts(rs[..|rs| - 1]) + (if NonBlankStderr(r) then [Trim(r.text)] else [])
  }

  // The texts of top-level errors; an error without text is counted by ShowsTopLevelError alone.
  function ErrorTexts(rs: seq<Response>): seq<string> {
    if rs == [] then []
    else
      var r := rs[|rs| - 1];
      ErrorTexts(rs[..|rs| - 1]) + (if IsErrorInfo(r) && r.info.message != "" then [r.info.message] else [])
  }

  datatype Display = Display(visibleGoals: seq<VisibleGoal>, invisibleGoalCount: nat,
                             warnings: seq<string>, errors: seq<string>)

  // The AllGoalsWarnings events together; the largest count of invisible goals is kept.
  function Displayed(rs: seq<Response>): Display {
    if rs == [] then Display([], 0, [], [])
    else
      var d, r := Displayed(rs[..|rs| - 1]), rs[|rs| - 1];
      if !ShowsAllGoals(r) then d
      else
        var p := Shown(r.info);
        Display(d.visibleGoals + p.visibleGoals,
                if p.invisibleGoals > d.invisibleGoalCount then p.invisibleGoals else d.invisibleGoalCount,
                d.warnings + NonBlank(p.warnings), d.errors + NonBlank(p.errors))
  }

  // ---- goals ----

  function IndexOfGoal(goals: seq<Goal>, id: int): (k: int)
    ensures -1 <= k < |goals|
    ensures k >= 0 ==> goals[k].goalId == id
    ensures k < 0 <==> id !in Ids(goals)
    ensures forall j :: 0 <= j < k ==> goals[j].goalId != id
  {
    if goals == [] then -1
    else
      var n := |goals| - 1;
      var k := IndexOfGoal(goals[..n], id);
      assert Ids(goals) == Ids(goals[..n]) + [goals[n].goalId];
      if k >= 0 then k else if goals[n].goalId == id then n else -1
  }

  function FreshGoals(ids: seq<int>): (goals: seq<Goal>)
    ensures Ids(goals) == ids
  {
    seq(|ids|, k requires 0 <= k < |ids| => Goal(ids[k], UNKNOWN_TYPE, []))
  }

  function AddVisible(goals: seq<Goal>, vs: seq<VisibleGoal>): seq<Goal> {
    if vs == [] then goals
    else
      var before, v := AddVisible(goals, vs[..|vs| - 1]), vs[|vs| - 1];
      var k := IndexOfGoal(before, v.goalId);
      if k >= 0 then before[k := before[k].(goalType := v.goalType)]
      else before + [Goal(v.goalId, v.goalType, [])]
  }

  datatype ParsedLoad = ParsedLoad(
    success: bool, errors: seq<string>, warnings: seq<string>, goals: seq<Goal>, goalIds: seq<int>,
    invisibleGoalCount: nat, sawLoadTerminus: bool)

  predicate ShowsTerminus(rs: seq<Response>) {
    exists k :: 0 <= k < |rs| && (rs[k].InteractionPoints? || ShowsAllGoals(rs[k]) || ShowsError(rs[k]))
  }

  predicate ShowsTopLevelError(rs: seq<Response>) { exists k :: 0 <= k < |rs| && IsErrorInfo(rs[k]) }

  function Parse(rs: seq<Response>): ParsedLoad {
    var d := Displayed(rs);
    var goals := AddVisible(FreshGoals(InteractionIds(rs)), d.visibleGoals);
    ParsedLoad(
      !ShowsTopLevelError(rs) && StderrTexts(rs) == [] && d.errors == [],
      ErrorTexts(rs) + StderrTexts(rs) + d.errors, d.warnings, goals, Ids(goals), d.invisibleGoalCount,
      ShowsTerminus(rs))
  }

  // ---- what a parse means ----

  predicate ReportsErrors(r: Response) {
    ShowsAllGoals(r) && exists k :: 0 <= k < |Shown(r.info).errors| && Trim(Shown(r.info).errors[k]) != ""
  }

  lemma {:induction false} NonBlankIsEmpty(texts: seq<string>)
    ensures NonBlank(texts) == [] <==> forall k :: 0 <= k < |texts| ==> Trim(texts[k]) == ""
  {
    if texts != [] {
      var n := |texts| - 1;
      NonBlankIsEmpty(texts[..n]);
      assert forall k :: 0 <= k < n ==> texts[..n][k] == texts[k];
    }
  }

  lemma {:induction false} SilentStderr(rs: seq<Response>)
    ensures StderrTexts(rs) == [] <==> forall k :: 0 <= k < |rs| ==> !NonBlankStderr(rs[k])
  {
    hide NonBlankStderr;
    if rs != [] {
      var n := |rs| - 1;
      SilentStderr(rs[..n]);
      assert forall k :: 0 <= k < n ==> rs[..n][k] == rs[k];
      StderrMore(rs);
    }
  }

  lemma StderrMore(rs: seq<Response>)
    requires rs != []
    ensures StderrTexts(rs) == [] <==> StderrTexts(rs[..|rs| - 1]) == [] && !NonBlankStderr(rs[|rs| - 1])
  {
  }

  lemma {:induction false} SilentDisplay(rs: seq<Response>)
    ensures Displayed(rs).errors == [] <==> forall k :: 0 <= k < |rs| ==> !ReportsErrors(rs[k])
  {
    hide ReportsErrors;
    if rs != [] {
      var n := |rs| - 1;
      SilentDisplay(rs[..n]);
      assert forall k :: 0 <= k < n ==> rs[..n][k] == rs[k];
      DisplayMore(rs);
    }
  }

  lemma DisplayMore(rs: seq<Response>)
    requires rs != []
    ensures Displayed(rs).errors == [] <==> Displayed(rs[..|rs| - 1]).errors == [] && !ReportsErrors(rs[|rs| - 1])
  {
    if ShowsAllGoals(rs[|rs| - 1]) { NonBlankIsEmpty(Shown(rs[|rs| - 1].info).errors); }
  }

  // A load is taken as successful exactly when nothing in its stream speaks against it.
  lemma SuccessMeansNoComplaint(rs: seq<Response>)
    ensures Parse(rs).success <==>
            forall k :: 0 <= k < |rs| ==> !IsErrorInfo(rs[k]) && !NonBlankStderr(rs[k]) && !ReportsErrors(rs[k])
  {
    SilentStderr(rs);
    SilentDisplay(rs);
  }

  lemma {:induction false} AddIdsMembers(ids: seq<int>, more: seq<int>)
    requires NoRepeats(ids)
    ensures NoRepeats(AddIds(ids, more))
    ensures forall id :: id in AddIds(ids, more) <==> id in ids || id in more
  {
    if more != [] {
      var n := |more| - 1;
      AddIdsMembers(ids, more[..n]);
      assert more == more[..n] + [more[n]];
    }
  }

  ghost predicate IsInteractionId(rs: seq<Response>, id: int) {
    exists k :: 0 <= k < |rs| && rs[k].InteractionPoints? && id in rs[k].ids
  }

  ghost predicate IsVisibleId(rs: seq<Response>, id: int) {
    exists k :: 0 <= k < |rs| && ShowsAllGoals(rs[k]) &&
                exists v :: v in Shown(rs[k].info).visibleGoals && v.goalId == id
  }

  lemma {:induction false} InteractionIdsMembers(rs: seq<Response>, id: int)
    ensures NoRepeats(InteractionIds(rs))
    ensures id in InteractionIds(rs) <==> IsInteractionId(rs, id)
  {
    if rs != [] {
      var n := |rs| - 1;
      InteractionIdsMembers(rs[..n], id);
      if IsInteractionId(rs[..n], id) {
        var k :| 0 <= k < n && rs[..n][k].InteractionPoints? && id in rs[..n][k].ids;
        assert rs[k] == rs[..n][k];
      }
      if IsInteractionId(rs, id) {
        var k :| 0 <= k < |rs| && rs[k].InteractionPoints? && id in rs[k].ids;
        if k < n { assert rs[..n][k] == rs[k]; }
      }
      if rs[n].InteractionPoints? { AddIdsMembers(InteractionIds(rs[..n]), rs[n].ids); }
    }
  }

  lemma {:induction false} DisplayedMembers(rs: seq<Response>, id: int)
    ensures (exists v :: v in Displayed(rs).visibleGoals && v.goalId == id) <==> IsVisibleId(rs, id)
  {
    if rs != [] {
      var n := |rs| - 1;
      DisplayedMembers(rs[..n], id);
      if IsVisibleId(rs[..n], id) {
        var k :| 0 <= k < n && ShowsAllGoals(rs[..n][k]) &&
                 exists v :: v in Shown(rs[..n][k].info).visibleGoals && v.goalId == id;
        assert rs[k] == rs[..n][k];
      }
      if IsVisibleId(rs, id) {
        var k :| 0 <= k < |rs| && ShowsAllGoals(rs[k]) &&
                 exists v :: v in Shown(rs[k].info).visibleGoals && v.goalId == id;
        if k < n { assert rs[..n][k] == rs[k]; }
      }
    }
  }

  lemma AddVisibleMembers(goals: seq<Goal>, vs: seq<VisibleGoal>)
    requires NoRepeats(Ids(goals))
    ensures NoRepeats(Ids(AddVisible(goals, vs)))
    ensures forall id :: id in Ids(AddVisible(goals, vs)) <==>
                         id in Ids(goals) || exists v :: v in vs && v.goalId == id
  {
    hide AddVisible, NoRepeats;
    VisibleIdsAreAdded(goals, vs);
    AddIdsMembers(Ids(goals), ListedIds(vs));
    forall id
      ensures id in ListedIds(vs) <==> exists v :: v in vs && v.goalId == id
    {
      if id in ListedIds(vs) {
        var k :| 0 <= k < |vs| && ListedIds(vs)[k] == id;
        assert vs[k] in vs;
      }
      if v :| v in vs && v.goalId == id {
        var k :| 0 <= k < |vs| && vs[k] == v;
        assert ListedIds(vs)[k] == id;
      }
    }
  }

  // Goals and ids go in lockstep, without duplicates, and are exactly the goals the stream names.
  lemma ParsedGoalsAreTheGoals(rs: seq<Response>, id: int)
    ensures Parse(rs).goalIds == Ids(Parse(rs).goals) && NoRepeats(Parse(rs).goalIds)
    ensures id in Parse(rs).goalIds <==> IsInteractionId(rs, id) || IsVisibleId(rs, id)
  {
    InteractionIdsMembers(rs, id);
    DisplayedMembers(rs, id);
    AddVisibleMembers(FreshGoals(InteractionIds(rs)), Displayed(rs).visibleGoals);
  }

  // The type of a goal is the last one an AllGoalsWarnings event gave it, "?" when none did.
  function LastType(vs: seq<VisibleGoal>, id: int): string {
    if vs == [] then UNKNOWN_TYPE
    else if vs[|vs| - 1].goalId == id then vs[|vs| - 1].goalType
    else LastType(vs[..|vs| - 1], id)
  }

  lemma {:induction false} TypesAreTheLastOnes(ids: seq<int>, vs: seq<VisibleGoal>)
    requires NoRepeats(ids)
    ensures forall g :: g in AddVisible(FreshGoals(ids), vs) ==>
                        g.goalType == LastType(vs, g.goalId) && g.context == []
  {
    if vs != [] {
      var n := |vs| - 1;
      TypesAreTheLastOnes(ids, vs[..n]);
      AddVisibleMembers(FreshGoals(ids), vs[..n]);
      var before := AddVisible(FreshGoals(ids), vs[..n]);
      var k := IndexOfGoal(before, vs[n].goalId);
      if k >= 0 {
        assert forall j :: 0 <= j < |before| && j != k ==> Ids(before)[j] != Ids(before)[k];
      } else {
        assert forall g :: g in before ==> g.goalId != vs[n].goalId;
        NoTypeGiven(vs[..n], vs[n].goalId);
      }
    }
  }

  lemma {:induction false} NoTypeGiven(vs: seq<VisibleGoal>, id: int)
    ensures (forall v :: v in vs ==> v.goalId != id) ==> LastType(vs, id) == UNKNOWN_TYPE
  {
    if vs != [] { NoTypeGiven(vs[..|vs| - 1], id); }
  }

  lemma FatalIsNotBlank(r: Response)
    requires IsFatal(r)
    ensures NonBlankStderr(r)
  {
  }

  // The parse never sees a terminus the transport would not, save a goal-specific one, and a
  // successful stream that reached the transport's terminus carries both goal events.
  lemma SuccessAfterTerminus(rs: seq<Response>)
    requires TerminusSeen(rs) && Parse(rs).success
    ensures (exists r :: r in rs && r.InteractionPoints?) && (exists r :: r in rs && IsAllGoals(r))
    ensures Parse(rs).sawLoadTerminus
  {
    SuccessMeansNoComplaint(rs);
    forall r | r in rs && IsFatal(r)
      ensures NonBlankStderr(r)
    {
      FatalIsNotBlank(r);
    }
    var r :| r in rs && r.InteractionPoints?;
    var k :| 0 <= k < |rs| && rs[k] == r;
  }

  // ---- what the parse makes of each event ----

  // The event shows a list of all goals, directly or as a goal-specific payload.
  ghost predicate ListsGoals(r: Response, info: Info) {
    info.AllGoalsWarnings? && (r == DisplayInfo(info) || r == DisplayInfo(GoalSpecific(info)))
  }

  lemma ListsGoalsIsShown(r: Response)
    ensures ShowsAllGoals(r) <==> exists info :: ListsGoals(r, info)
    ensures ShowsAllGoals(r) ==> ListsGoals(r, Shown(r.info))
    ensures forall info :: ListsGoals(r, info) ==> Shown(r.info) == info
  {
    if ShowsAllGoals(r) {
      assert ListsGoals(r, Shown(r.info));
    }
  }

  // No event lists more invisible goals than the parse counts, and the count is that of one event, or
  // 0 when there is none.
  lemma {:induction false} InvisibleCountIsTheLargest(rs: seq<Response>)
    ensures forall r, info :: r in rs && ListsGoals(r, info) ==> info.invisibleGoals <= Parse(rs).invisibleGoalCount
    ensures (exists r, info :: r in rs && ListsGoals(r, info) && info.invisibleGoals == Parse(rs).invisibleGoalCount)
      || (Parse(rs).invisibleGoalCount == 0 && forall r, info :: r in rs ==> !ListsGoals(r, info))
    decreases |rs|
  {
    if rs != [] {
      var before, last := rs[..|rs| - 1], rs[|rs| - 1];
      InvisibleCountIsTheLargest(before);
      ListsGoalsIsShown(last);
      assert forall r :: r in rs <==> r in before || r == last;
      hide ListsGoals, Shown, InteractionIds, AddVisible, StderrTexts, ErrorTexts, NonBlank;
    }
  }

  // So nothing invisible is left exactly if no event lists any.
  lemma NoneInvisibleExactly(rs: seq<Response>)
    ensures Parse(rs).invisibleGoalCount == 0 <==> forall r, info :: r in rs && ListsGoals(r, info) ==> info.invisibleGoals == 0
  {
    InvisibleCountIsTheLargest(rs);
  }

  // Goals, warnings and errors are collected event by event, in order.
  lemma {:induction false} DisplayedOfConcat(a: seq<Response>, b: seq<Response>)
    ensures Displayed(a + b).visibleGoals == Displayed(a).visibleGoals + Displayed(b).visibleGoals
    ensures Displayed(a + b).warnings == Displayed(a).warnings + Displayed(b).warnings
    ensures Displayed(a + b).errors == Displayed(a).errors + Displayed(b).errors
    decreases |b|
  {
    if b == [] {
      assert a + b == a;
    } else {
      assert (a + b)[..|a + b| - 1] == a + b[..|b| - 1];
      DisplayedOfConcat(a, b[..|b| - 1]);
      hide ShowsAllGoals, Shown, NonBlank;
    }
  }

  lemma DisplayedOfOne(r: Response)
    ensures forall info :: ListsGoals(r, info) ==>
      Displayed([r]) == Display(info.visibleGoals, info.invisibleGoals, NonBlank(info.warnings), NonBlank(info.errors))
    ensures (forall info :: !ListsGoals(r, info)) ==> Displayed([r]) == Display([], 0, [], [])
  {
    ListsGoalsIsShown(r);
    assert [r][..0] == [];
    assert Displayed([r][..0]) == Display([], 0, [], []);
    hide ListsGoals, Shown, NonBlank;
  }

  // A diagnostic counts exactly if something but white space is in it.
  lemma {:induction false} NonBlankOfConcat(a: seq<string>, b: seq<string>)
    ensures NonBlank(a + b) == NonBlank(a) + NonBlank(b)
    decreases |b|
  {
    if b == [] {
      assert a + b == a;
    } else {
      assert (a + b)[..|a + b| - 1] == a + b[..|b| - 1];
      NonBlankOfConcat(a, b[..|b| - 1]);
    }
  }

  lemma NonBlankOfOne(text: string)
    ensures NonBlank([text]) == if AllSpace(text) then [] else [text]
  {
    BlankIsAllSpace(text);
    assert NonBlank([text][..0]) == [];
  }

  // Errors are the texts of top-level errors, then stderr, then those the goal lists report, each kind
  // in the order of the stream.
  lemma ErrorsInOrder(a: seq<Response>, b: seq<Response>)
    ensures Parse(a + b).errors ==
      ErrorTexts(a) + ErrorTexts(b) + (StderrTexts(a) + StderrTexts(b)) + (Displayed(a).errors + Displayed(b).errors)
    ensures Parse(a + b).warnings == Displayed(a).warnings + Displayed(b).warnings
  {
    TextsOfConcat(a, b);
    DisplayedOfConcat(a, b);
  }

  lemma TextsOfOne(r: Response)
    ensures ErrorTexts([r]) == if r.DisplayInfo? && r.info.ErrorInfo? && r.info.message != "" then [r.info.message] else []
    ensures StderrTexts([r]) == if r.StderrOutput? && !AllSpace(r.text) then [Trim(r.text)] else []
  {
    assert [r][..0] == [];
    if r.StderrOutput? { BlankIsAllSpace(r.text); }
  }

  lemma {:induction false} TextsOfConcat(a: seq<Response>, b: seq<Response>)
    ensures ErrorTexts(a + b) == ErrorTexts(a) + ErrorTexts(b)
    ensures StderrTexts(a + b) == StderrTexts(a) + StderrTexts(b)
    decreases |b|
  {
    if b == [] {
      assert a + b == a;
    } else {
      assert (a + b)[..|a + b| - 1] == a + b[..|b| - 1];
      TextsOfConcat(a, b[..|b| - 1]);
    }
  }

  // What speaks against a load: a top-level error, something on stderr, or a listed error.
  ghost predicate Complains(r: Response) {
    || (exists message :: r == DisplayInfo(ErrorInfo(message)))
    || (r.StderrOutput? && !AllSpace(r.text))
    || (exists info, text :: ListsGoals(r, info) && text in info.errors && !AllSpace(text))
  }

  lemma SuccessWithoutComplaints(rs: seq<Response>)
    ensures Parse(rs).success <==> forall r :: r in rs ==> !Complains(r)
    ensures Parse(rs).success ==> Parse(rs).errors == []
  {
    SuccessMeansNoComplaint(rs);
    forall r
      ensures Complains(r) <==> IsErrorInfo(r) || NonBlankStderr(r) || ReportsErrors(r)
    {
      ComplainsIs(r);
    }
    hide Complains, IsErrorInfo, NonBlankStderr, ReportsErrors;
    assert forall k :: 0 <= k < |rs| ==> rs[k] in rs;
    if Parse(rs).success { SuccessLeavesNoErrors(rs); }
  }

  lemma {:induction false} SuccessLeavesNoErrors(rs: seq<Response>)
    requires forall k :: 0 <= k < |rs| ==> !IsErrorInfo(rs[k])
    ensures ErrorTexts(rs) == []
  {
    if rs != [] {
      SuccessLeavesNoErrors(rs[..|rs| - 1]);
    }
  }

  lemma ComplainsIs(r: Response)
    ensures Complains(r) <==> IsErrorInfo(r) || NonBlankStderr(r) || ReportsErrors(r)
  {
    ListsGoalsIsShown(r);
    if r.StderrOutput? { BlankIsAllSpace(r.text); }
    if IsErrorInfo(r) { assert r == DisplayInfo(ErrorInfo(r.info.message)); }
    if ReportsErrors(r) {
      var k :| 0 <= k < |Shown(r.info).errors| && Trim(Shown(r.info).errors[k]) != "";
      BlankIsAllSpace(Shown(r.info).errors[k]);
      assert Shown(r.info).errors[k] in Shown(r.info).errors;
    }
    if info, text :| ListsGoals(r, info) && text in info.errors && !AllSpace(text) {
      BlankIsAllSpace(text);
      var k :| 0 <= k < |info.errors| && info.errors[k] == text;
    }
  }

  // A load's answer has arrived exactly with interaction points, a list of all goals or an error, the
  // last two directly or goal-specific.
  lemma TerminusExactly(rs: seq<Response>)
    ensures Parse(rs).sawLoadTerminus <==>
      exists r :: r in rs && (r.InteractionPoints? ||
        (r.DisplayInfo? && (var info := if r.info.GoalSpecific? then r.info.goalInfo else r.info;
                            info.AllGoalsWarnings? || info.ErrorInfo?)))
  {
    if k :| 0 <= k < |rs| && (rs[k].InteractionPoints? || ShowsAllGoals(rs[k]) || ShowsError(rs[k])) {
      assert rs[k] in rs;
    }
  }

  // ---- the order of the goals ----

  ghost function PointIds(rs: seq<Response>): seq<int> {
    if rs == [] then [] else PointIds(rs[..|rs| - 1]) + (if rs[|rs| - 1].InteractionPoints? then rs[|rs| - 1].ids else [])
  }

  ghost function ListedIds(vs: seq<VisibleGoal>): seq<int> {
    seq(|vs|, k requires 0 <= k < |vs| => vs[k].goalId)
  }

  // Every id stands in `ids` once, in the order in which `names` first names it.
  ghost predicate FirstNamed(ids: seq<int>, names: seq<int>) {
    && NoRepeats(ids)
    && (forall id :: id in ids <==> id in names)
    && (forall j, k, n :: 0 <= j < k < |ids| && 0 <= n < |names| && names[n] == ids[k] ==> ids[j] in names[..n])
  }

  lemma {:induction false} AddIdsFirstNamed(names: seq<int>)
    ensures FirstNamed(AddIds([], names), names)
    decreases |names|
  {
    if names != [] {
      var n := |names| - 1;
      AddIdsFirstNamed(names[..n]);
      FirstNamedMore(AddIds([], names[..n]), names);
    }
  }

  lemma FirstNamedMore(ids: seq<int>, names: seq<int>)
    requires names != [] && FirstNamed(ids, names[..|names| - 1])
    ensures var id := names[|names| - 1];
      FirstNamed(if id in ids then ids else ids + [id], names)
  {
    var m := |names| - 1;
    var id := names[m];
    var ids' := if id in ids then ids else ids + [id];
    assert names == names[..m] + [id];
    forall j, k, n | 0 <= j < k < |ids'| && 0 <= n < |names| && names[n] == ids'[k]
      ensures ids'[j] in names[..n]
    {
      assert ids'[j] == ids[j] && ids[j] in names[..m];
      if n < m {
        assert names[..m][n] == ids'[k] && ids'[k] in names[..m];
        assert ids'[k] in ids;
        assert k < |ids|;
        assert ids[j] in names[..m][..n];
        assert names[..m][..n] == names[..n];
      } else {
        assert names[..n] == names[..m];
      }
    }
  }

  lemma {:induction false} AddIdsTwice(ids: seq<int>, a: seq<int>, b: seq<int>)
    ensures AddIds(AddIds(ids, a), b) == AddIds(ids, a + b)
    decreases |b|
  {
    if b == [] {
      assert a + b == a;
    } else {
      assert (a + b)[..|a + b| - 1] == a + b[..|b| - 1];
      AddIdsTwice(ids, a, b[..|b| - 1]);
    }
  }

  lemma {:induction false} InteractionIdsAreAdded(rs: seq<Response>)
    ensures InteractionIds(rs) == AddIds([], PointIds(rs))
    decreases |rs|
  {
    if rs != [] {
      var n := |rs| - 1;
      InteractionIdsAreAdded(rs[..n]);
      if rs[n].InteractionPoints? {
        AddIdsTwice([], PointIds(rs[..n]), rs[n].ids);
      } else {
        assert PointIds(rs[..n]) + [] == PointIds(rs[..n]);
      }
    }
  }

  lemma {:induction false} VisibleIdsAreAdded(goals: seq<Goal>, vs: seq<VisibleGoal>)
    ensures Ids(AddVisible(goals, vs)) == AddIds(Ids(goals), ListedIds(vs))
    decreases |vs|
  {
    if vs != [] {
      var n := |vs| - 1;
      VisibleIdsAreAdded(goals, vs[..n]);
      assert ListedIds(vs)[..n] == ListedIds(vs[..n]);
      var before, after := AddVisible(goals, vs[..n]), AddVisible(goals, vs);
      if IndexOfGoal(before, vs[n].goalId) >= 0 {
        assert Ids(after) == Ids(before);
      } else {
        assert Ids(after) == Ids(before) + [vs[n].goalId];
      }
    }
  }

  // Goals come in the order in which the stream first names them: interaction points first, then the
  // goals that only a list of goals shows.
  lemma GoalsInOrderOfNaming(rs: seq<Response>)
    ensures FirstNamed(Parse(rs).goalIds, PointIds(rs) + ListedIds(Displayed(rs).visibleGoals))
  {
    var points, listed := PointIds(rs), ListedIds(Displayed(rs).visibleGoals);
    InteractionIdsAreAdded(rs);
    VisibleIdsAreAdded(FreshGoals(InteractionIds(rs)), Displayed(rs).visibleGoals);
    AddIdsTwice([], points, listed);
    AddIdsFirstNamed(points + listed);
  }

  // ---- the parser ----

  lemma TopLevelErrorSnoc(rs: seq<Response>, i: nat)
    requires i < |rs|
    ensures ShowsTopLevelError(rs[..i + 1]) <==> ShowsTopLevelError(rs[..i]) || IsErrorInfo(rs[i])
  {
    if ShowsTopLevelError(rs[..i]) {
      var k :| 0 <= k < i && IsErrorInfo(rs[..i][k]);
      assert IsErrorInfo(rs[..i + 1][k]);
    }
    assert rs[..i + 1][i] == rs[i];
    if ShowsTopLevelError(rs[..i + 1]) && !IsErrorInfo(rs[i]) {
      var k :| 0 <= k < i + 1 && IsErrorInfo(rs[..i + 1][k]);
      assert IsErrorInfo(rs[..i][k]);
    }
  }

  method TopLevelErrors(responses: seq<Response>) returns (errors: seq<string>, success: bool)
    ensures errors == ErrorTexts(responses)
    ensures success == !ShowsTopLevelError(responses)
  {
    errors, success := [], true;
    for i := 0 to |responses|
      invariant errors == ErrorTexts(responses[..i])
      invariant success <==> !ShowsTopLevelError(responses[..i])
    {
      assert responses[..i + 1][..i] == responses[..i];
      TopLevelErrorSnoc(responses, i);
      var resp := responses[i];
      if resp.DisplayInfo? && resp.info.ErrorInfo? {
        success := false;
        if resp.info.message != "" { errors := errors + [resp.info.message]; }
      }
    }
    assert responses[..|responses|] == responses;
  }

  // One goal per new id, in lockstep.
  method AddInteractionPoints(ids: seq<int>) returns (goals: seq<Goal>, goalIds: seq<int>)
    requires NoRepeats(ids)
    ensures goals == FreshGoals(ids) && goalIds == ids
  {
    goals, goalIds := [], [];
    for i := 0 to |ids|
      invariant goalIds == ids[..i] && goals == FreshGoals(goalIds)
    {
      if ids[i] !in goalIds {
        goalIds := goalIds + [ids[i]];
        goals := goals + [Goal(ids[i], UNKNOWN_TYPE, [])];
      }
    }
    assert ids[..|ids|] == ids;
  }

  // Known goals get their type, unknown ones are appended.
  method AddVisibleGoals(start: seq<Goal>, visibleGoals: seq<VisibleGoal>) returns (goals: seq<Goal>, goalIds: seq<int>)
    ensures goals == AddVisible(start, visibleGoals) && goalIds == Ids(goals)
  {
    goals, goalIds := start, Ids(start);
    for i := 0 to |visibleGoals|
      invariant goals == AddVisible(start, visibleGoals[..i]) && goalIds == Ids(goals)
    {
      assert visibleGoals[..i + 1][..i] == visibleGoals[..i];
      var visible := visibleGoals[i];
      var k := IndexOfGoal(goals, visible.goalId);
      if k >= 0 {
        goals := goals[k := goals[k].(goalType := visible.goalType)];
        continue;
      }
      if visible.goalId !in goalIds {
        goalIds := goalIds + [visible.goalId];
        goals := goals + [Goal(visible.goalId, visible.goalType, [])];
      }
    }
    assert visibleGoals[..|visibleGoals|] == visibleGoals;
  }

  method ParseLoadResponses(responses: seq<Response>) returns (parsed: ParsedLoad)
    ensures parsed == Parse(responses)
  {
    var display := Displayed(responses);
    var interactionPointIds := InteractionIds(responses);
    var stderrTexts := StderrTexts(responses);
    var errors, success := TopLevelErrors(responses);
    InteractionIdsMembers(responses, 0);
    var goals, goalIds := AddInteractionPoints(interactionPointIds);
    if |stderrTexts| > 0 {
      errors := errors + stderrTexts;
      success := false;
    }
    if |display.errors| > 0 {
      success := false;
      errors := errors + display.errors;
    }
    goals, goalIds := AddVisibleGoals(goals, display.visibleGoals);
    parsed := ParsedLoad(success, errors, display.warnings, goals, goalIds, display.invisibleGoalCount,
                         ShowsTerminus(responses));
  }
}

/** Merging the goals of a load with those of the metas query that follows it. */
module GoalMerging {
  import opened Basics
  import opened LoadParsing

  // Map.set: overwrite in place, or append.
  function Put(entries: seq<Goal>, goal: Goal): (r: seq<Goal>)
  {
    var k := IndexOfGoal(entries, goal.goalId);
    if k >= 0 then entries[k := goal] else entries + [goal]
  }

  function PutAll(goals: seq<Goal>): seq<Goal> {
    if goals == [] then [] else Put(PutAll(goals[..|goals| - 1]), goals[|goals| - 1])
  }

  // A goal already there only gets what it lacks.
  function Enriched(existing: Goal, goal: Goal): Goal {
    Goal(existing.goalId,
         if existing.goalType == UNKNOWN_TYPE && goal.goalType != UNKNOWN_TYPE then goal.goalType else existing.goalType,
         if existing.context == [] && goal.context != [] then goal.context else existing.context)
  }

  function Absorb(entries: seq<Goal>, goal: Goal): seq<Goal> {
    var k := IndexOfGoal(entries, goal.goalId);
    if k >= 0 then entries[k := Enriched(entries[k], goal)] else entries + [goal]
  }

  function AbsorbAll(entries: seq<Goal>, goals: seq<Goal>): seq<Goal> {
    if goals == [] then entries
    else Absorb(AbsorbAll(entries, goals[..|goals| - 1]), goals[|goals| - 1])
  }

  // Sorting by id.
  function Insert(goal: Goal, sorted: seq<Goal>): (r: seq<Goal>)
    ensures forall g :: g in r <==> g == goal || g in sorted
    ensures |r| == |sorted| + 1
  {
    if sorted == [] || goal.goalId < sorted[0].goalId then [goal] + sorted
    else [sorted[0]] + Insert(goal, sorted[1..])
  }

  function SortById(goals: seq<Goal>): (r: seq<Goal>)
    ensures forall g :: g in r <==> g in goals
    ensures |r| == |goals|
  {
    if goals == [] then [] else Insert(goals[|goals| - 1], SortById(goals[..|goals| - 1]))
  }

  function Merged(primary: seq<Goal>, secondary: seq<Goal>): seq<Goal> {
    SortById(AbsorbAll(PutAll(primary), secondary))
  }

  // ---- what merging promises ----

  predicate Rising(goals: seq<Goal>) {
    forall j, k :: 0 <= j < k < |goals| ==> goals[j].goalId < goals[k].goalId
  }

  // The first known type and the first non-empty context a list gives a goal, after a given start.
  function Completed(existing: Goal, goals: seq<Goal>): (r: Goal)
    ensures r.goalId == existing.goalId
  {
    if goals == [] then existing
    else
      var before, goal := Completed(existing, goals[..|goals| - 1]), goals[|goals| - 1];
      if goal.goalId == existing.goalId then Enriched(before, goal) else before
  }

  lemma {:induction false} SortedRises(goals: seq<Goal>)
    requires NoRepeats(Ids(goals))
    ensures Rising(SortById(goals))
  {
    if goals != [] {
      var n := |goals| - 1;
      assert forall k :: 0 <= k < n ==> Ids(goals[..n])[k] == Ids(goals)[k];
      SortedRises(goals[..n]);
      forall g | g in SortById(goals[..n])
        ensures g.goalId != goals[n].goalId
      {
        var k :| 0 <= k < n && goals[..n][k] == g;
        assert Ids(goals)[k] != Ids(goals)[n];
      }
      InsertRises(goals[n], SortById(goals[..n]));
    }
  }

  lemma {:induction false} InsertRises(goal: Goal, sorted: seq<Goal>)
    requires Rising(sorted) && forall g :: g in sorted ==> g.goalId != goal.goalId
    ensures Rising(Insert(goal, sorted))
  {
    if sorted != [] && !(goal.goalId < sorted[0].goalId) {
      InsertRises(goal, sorted[1..]);
      var rest := Insert(goal, sorted[1..]);
      assert sorted[0] in sorted;
      forall k | 0 <= k < |rest|
        ensures sorted[0].goalId < rest[k].goalId
      {
        assert rest[k] in rest;
      }
    }
  }

  lemma {:induction false} PutAllOfDistinct(goals: seq<Goal>)
    requires NoRepeats(Ids(goals))
    ensures PutAll(goals) == goals
  {
    if goals != [] {
      var n := |goals| - 1;
      assert Ids(goals) == Ids(goals[..n]) + [goals[n].goalId];
      PutAllOfDistinct(goals[..n]);
      assert IndexOfGoal(goals[..n], goals[n].goalId) < 0;
      assert goals == goals[..n] + [goals[n]];
    }
  }

  lemma {:induction false} PutAllDistinct(goals: seq<Goal>)
    ensures NoRepeats(Ids(PutAll(goals)))
    ensures forall id :: id in Ids(PutAll(goals)) <==> id in Ids(goals)
  {
    if goals != [] {
      var n := |goals| - 1;
      PutAllDistinct(goals[..n]);
      var before, after := PutAll(goals[..n]), PutAll(goals);
      assert Ids(goals) == Ids(goals[..n]) + [goals[n].goalId];
      if IndexOfGoal(before, goals[n].goalId) >= 0 {
        assert Ids(after) == Ids(before);
      } else {
        assert Ids(after) == Ids(before) + [goals[n].goalId];
      }
    }
  }

  lemma {:induction false} AbsorbAllIds(entries: seq<Goal>, goals: seq<Goal>)
    requires NoRepeats(Ids(entries))
    ensures NoRepeats(Ids(AbsorbAll(entries, goals)))
    ensures forall id :: id in Ids(AbsorbAll(entries, goals)) <==> id in Ids(entries) || id in Ids(goals)
  {
    if goals != [] {
      var n := |goals| - 1;
      AbsorbAllIds(entries, goals[..n]);
      var before, after := AbsorbAll(entries, goals[..n]), AbsorbAll(entries, goals);
      assert Ids(goals) == Ids(goals[..n]) + [goals[n].goalId];
      if IndexOfGoal(before, goals[n].goalId) >= 0 {
        assert Ids(after) == Ids(before);
      } else {
        assert Ids(after) == Ids(before) + [goals[n].goalId];
      }
    }
  }

  // Entries are never lost, and each ends up completed by the later goals of its id.
  lemma {:induction false} AbsorbAllCompletes(entries: seq<Goal>, goals: seq<Goal>, k: nat)
    requires NoRepeats(Ids(entries)) && k < |entries|
    ensures k < |AbsorbAll(entries, goals)|
    ensures AbsorbAll(entries, goals)[k] == Completed(entries[k], goals)
  {
    if goals != [] {
      var n := |goals| - 1;
      AbsorbAllCompletes(entries, goals[..n], k);
      AbsorbAllIds(entries, goals[..n]);
      var before := AbsorbAll(entries, goals[..n]);
      var j := IndexOfGoal(before, goals[n].goalId);
      if j >= 0 && j != k { assert Ids(before)[j] != Ids(before)[k]; }
      if j < 0 { assert Ids(before)[k] in Ids(before); }
    }
  }

  // The merge is sorted by id without duplicates, holds exactly the ids of both lists, and completes
  // every goal of a duplicate-free primary list from the secondary one.
  lemma MergeKeepsAndCompletes(primary: seq<Goal>, secondary: seq<Goal>)
    ensures Rising(Merged(primary, secondary)) && NoRepeats(Ids(Merged(primary, secondary)))
    ensures forall id :: id in Ids(Merged(primary, secondary)) <==> id in Ids(primary) || id in Ids(secondary)
    ensures NoRepeats(Ids(primary)) ==>
              forall g :: g in primary ==> Completed(g, secondary) in Merged(primary, secondary)
  {
    PutAllDistinct(primary);
    AbsorbAllIds(PutAll(primary), secondary);
    var entries := AbsorbAll(PutAll(primary), secondary);
    SortedRises(entries);
    forall id
      ensures id in Ids(Merged(primary, secondary)) <==> id in Ids(entries)
    {
      SameGoalsSameIds(Merged(primary, secondary), entries, id);
      SameGoalsSameIds(entries, Merged(primary, secondary), id);
    }
    if NoRepeats(Ids(primary)) {
      PutAllOfDistinct(primary);
      forall g | g in primary
        ensures Completed(g, secondary) in Merged(primary, secondary)
      {
        var k :| 0 <= k < |primary| && primary[k] == g;
        AbsorbAllCompletes(primary, secondary, k);
        assert entries[k] in entries;
      }
    }
  }

  lemma SameGoalsSameIds(a: seq<Goal>, b: seq<Goal>, id: int)
    requires forall g :: g in a ==> g in b
    ensures id in Ids(a) ==> id in Ids(b)
  {
    if id in Ids(a) {
      var k :| 0 <= k < |a| && Ids(a)[k] == id;
      assert a[k] in b;
      var j :| 0 <= j < |b| && b[j] == a[k];
      assert Ids(b)[j] == id;
    }
  }

  // A known type or context is never overwritten, and the first known one fills a gap.
  lemma {:induction false} CompletedFillsGaps(g: Goal, goals: seq<Goal>)
    ensures g.goalType != UNKNOWN_TYPE ==> Completed(g, goals).goalType == g.goalType
    ensures g.context != [] ==> Completed(g, goals).context == g.context
    ensures g.goalType == UNKNOWN_TYPE ==>
              Completed(g, goals).goalType ==
              var k := FirstKnown(goals, g.goalId); if k < |goals| then goals[k].goalType else UNKNOWN_TYPE
  {
    if goals != [] {
      var n := |goals| - 1;
      CompletedFillsGaps(g, goals[..n]);
    }
  }

  // The first goal of an id with a known type; the length when there is none.
  function FirstKnown(goals: seq<Goal>, id: int): (k: nat)
    ensures k <= |goals|
    ensures k < |goals| ==> goals[k].goalId == id && goals[k].goalType != UNKNOWN_TYPE
    ensures forall j :: 0 <= j < k ==> goals[j].goalId != id || goals[j].goalType == UNKNOWN_TYPE
  {
    if goals == [] then 0
    else
      var n := |goals| - 1;
      var k := FirstKnown(goals[..n], id);
      if k < n then k
      else if goals[n].goalId == id && goals[n].goalType != UNKNOWN_TYPE then n
      else n + 1
  }

  // The last goal `goals` gives an id, or a bare one.
  function LastGoal(goals: seq<Goal>, id: int): (g: Goal)
    ensures g.goalId == id
    decreases |goals|
  {
    if goals == [] then Goal(id, UNKNOWN_TYPE, [])
    else if goals[|goals| - 1].goalId == id then goals[|goals| - 1]
    else LastGoal(goals[..|goals| - 1], id)
  }

  function At(entries: seq<Goal>, id: int): Goal {
    var k := IndexOfGoal(entries, id);
    if k >= 0 then entries[k] else Goal(id, UNKNOWN_TYPE, [])
  }

  lemma {:induction false} PutAllLast(goals: seq<Goal>, id: int)
    ensures At(PutAll(goals), id) == LastGoal(goals, id)
    decreases |goals|
  {
    if goals != [] {
      var n := |goals| - 1;
      PutAllLast(goals[..n], id);
      PutAllDistinct(goals[..n]);
      PutAllDistinct(goals);
      AtStep(PutAll(goals[..n]), PutAll(goals), goals[n], id);
      hide PutAll, At;
    }
  }

  // One entry is put or appended; the entries of the other ids stay.
  lemma AtStep(before: seq<Goal>, after: seq<Goal>, goal: Goal, id: int)
    requires NoRepeats(Ids(before)) && NoRepeats(Ids(after))
    requires var k := IndexOfGoal(before, goal.goalId);
      after == if k >= 0 then before[k := goal] else before + [goal]
    ensures At(after, id) == if id == goal.goalId then goal else At(before, id)
  {
    var k := IndexOfGoal(before, goal.goalId);
    var p := if k >= 0 then k else |before|;
    assert after[p] == goal;
    AtIs(after, p);
    if id != goal.goalId {
      var j := IndexOfGoal(before, id);
      if j >= 0 {
        assert after[j] == before[j];
        AtIs(after, j);
      } else {
        assert id !in Ids(after) by {
          assert Ids(after) == if k >= 0 then Ids(before) else Ids(before) + [goal.goalId];
        }
      }
    }
  }

  lemma AtIs(entries: seq<Goal>, p: nat)
    requires NoRepeats(Ids(entries)) && p < |entries|
    ensures At(entries, entries[p].goalId) == entries[p]
  {
    var k := IndexOfGoal(entries, entries[p].goalId);
    assert Ids(entries)[p] == entries[p].goalId;
    assert k >= 0 && Ids(entries)[k] == Ids(entries)[p];
  }

  lemma {:induction false} AbsorbAllAt(entries: seq<Goal>, goals: seq<Goal>, id: int)
    requires NoRepeats(Ids(entries))
    ensures At(AbsorbAll(entries, goals), id) == Completed(At(entries, id), goals)
    decreases |goals|
  {
    if goals != [] {
      var n := |goals| - 1;
      AbsorbAllAt(entries, goals[..n], id);
      AbsorbAllIds(entries, goals[..n]);
      AbsorbAllIds(entries, goals);
      var before, after := AbsorbAll(entries, goals[..n]), AbsorbAll(entries, goals);
      var k := IndexOfGoal(before, goals[n].goalId);
      var put := if k >= 0 then Enriched(before[k], goals[n]) else goals[n];
      assert put == Enriched(At(before, goals[n].goalId), goals[n]);
      AtStep(before, after, put, id);
      hide AbsorbAll, At;
    }
  }

  // The merge holds, for each id of either list, the last goal of the primary list completed by the
  // secondary one, and nothing else. Ids of the secondary list alone are completed from nothing.
  lemma MergedExactly(primary: seq<Goal>, secondary: seq<Goal>, g: Goal)
    ensures g in Merged(primary, secondary) <==>
      (g.goalId in Ids(primary) || g.goalId in Ids(secondary)) && g == Completed(LastGoal(primary, g.goalId), secondary)
  {
    var entries := AbsorbAll(PutAll(primary), secondary);
    PutAllDistinct(primary);
    AbsorbAllIds(PutAll(primary), secondary);
    PutAllLast(primary, g.goalId);
    AbsorbAllAt(PutAll(primary), secondary, g.goalId);
    hide AbsorbAll, PutAll, Completed, LastGoal;
    if g in entries {
      var k :| 0 <= k < |entries| && entries[k] == g;
      assert Ids(entries)[k] == g.goalId;
      AtIs(entries, k);
    }
  }

  // The context follows the same rule as the type: the first one that is not empty fills a gap.
  lemma {:induction false} CompletedContext(g: Goal, goals: seq<Goal>)
    ensures g.context == [] ==>
      var k := FirstInContext(goals, g.goalId);
      Completed(g, goals).context == if k < |goals| then goals[k].context else []
    decreases |goals|
  {
    if goals != [] {
      CompletedContext(g, goals[..|goals| - 1]);
    }
  }

  function FirstInContext(goals: seq<Goal>, id: int): (k: nat)
    ensures k <= |goals|
    ensures k < |goals| ==> goals[k].goalId == id && goals[k].context != []
    ensures forall j :: 0 <= j < k ==> goals[j].goalId != id || goals[j].context == []
    decreases |goals|
  {
    if goals == [] then 0
    else
      var n := |goals| - 1;
      var k := FirstInContext(goals[..n], id);
      if k < n then k
      else if goals[n].goalId == id && goals[n].context != [] then n
      else n + 1
  }

  method MergeGoals(primaryGoals: seq<Goal>, secondaryGoals: seq<Goal>) returns (merged: seq<Goal>)
    ensures merged == Merged(primaryGoals, secondaryGoals)
  {
    var entries: seq<Goal> := [];
    for i := 0 to |primaryGoals|
      invariant entries == PutAll(primaryGoals[..i])
    {
      assert primaryGoals[..i + 1][..i] == primaryGoals[..i];
      var k := IndexOfGoal(entries, primaryGoals[i].goalId);
      entries := if k >= 0 then entries[k := primaryGoals[i]] else entries + [primaryGoals[i]];
    }
    assert primaryGoals[..|primaryGoals|] == primaryGoals;
    ghost var primary := entries;
    for i := 0 to |secondaryGoals|
      invariant entries == AbsorbAll(primary, secondaryGoals[..i])
    {
      assert secondaryGoals[..i + 1][..i] == secondaryGoals[..i];
      var goal := secondaryGoals[i];
      var k := IndexOfGoal(entries, goal.goalId);
      if k < 0 {
        entries := entries + [goal];
        continue;
      }
      var existing := entries[k];
      if existing.goalType == UNKNOWN_TYPE && goal.goalType != UNKNOWN_TYPE {
        existing := existing.(goalType := goal.goalType);
      }
      if |existing.context| == 0 && |goal.context| > 0 {
        existing := existing.(context := goal.context);
      }
      entries := entries[k := existing];
    }
    assert secondaryGoals[..|secondaryGoals|] == secondaryGoals;
    merged := SortById(entries);
  }
}
