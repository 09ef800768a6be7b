/** Source files on disk, as the edit functions see them. */
module SourceFiles {
  import opened Basics
  import opened CodeUnits

  const MAX_AGDA_SOURCE_BYTES: nat := 512 * 1024

  // An edit function either returns its report or lets the exception of a failed write through.
  datatype Outcome<+T> = Returned(report: T) | WriteThrew

  class SourceFile {
    var text: Source
    var readable: bool
    var writable: bool

    constructor (text: Source)
      ensures this.text == text && readable && writable
    {
      this.text, readable, writable := text, true, true;
    }

    // loadSourceForEdit: none of the read guards fires.
    method LoadForEdit() returns (source: Option<Source>)
      ensures source == if readable then Some(text) else None
    {
      source := if readable then Some(text) else None;
    }

    // writeFileAtomic: all of the new text or an exception.
    method WriteAtomic(content: Source) returns (done: bool)
      modifies `text
      ensures done == writable
      ensures text == if writable then content else old(text)
    {
      if writable { text := content; }
      done := writable;
    }
  }
}

/** What a batch of hole replacements means: every located hole is replaced at once. */
module Substitution {
  import opened Basics
  import opened CodeUnits
  import opened GoalGrammar

  datatype Replacement = Replacement(goalId: int, expr: Source)

  datatype Edit = Edit(start: nat, end: nat, expr: Source, goalId: int)

  // The index that stands for a goal id: the last one, as setting a map entry again overwrites it.
  function LastIndex(ids: seq<int>, id: int): (k: int)
    ensures -1 <= k < |ids|
    ensures k >= 0 ==> ids[k] == id
    ensures forall j :: k < j < |ids| ==> ids[j] != id
  {
    if ids == [] then -1
    else if ids[|ids| - 1] == id then |ids| - 1
    else LastIndex(ids[..|ids| - 1], id)
  }

  // The expression asked for last for a goal id.
  function LastExpr(reps: seq<Replacement>, id: int): Option<Source> {
    if reps == [] then None
    else if reps[|reps| - 1].goalId == id then Some(reps[|reps| - 1].expr)
    else LastExpr(reps[..|reps| - 1], id)
  }

  // The goal ids asked for, each once, in the order of their first request.
  function Requested(reps: seq<Replacement>): seq<int> {
    if reps == [] then []
    else
      var before := Requested(reps[..|reps| - 1]);
      var id := reps[|reps| - 1].goalId;
      if id in before then before else before + [id]
  }

  // The goal ids of requests that came after an earlier one for the same goal.
  function Repeated(reps: seq<Replacement>): seq<int> {
    if reps == [] then []
    else
      var id := reps[|reps| - 1].goalId;
      Repeated(reps[..|reps| - 1]) + (if id in Requested(reps[..|reps| - 1]) then [id] else [])
  }

  predicate Located(ids: seq<int>, count: nat, id: int) { 0 <= LastIndex(ids, id) < count }

  function Keep(ids: seq<int>, count: nat, wanted: seq<int>, located: bool): seq<int> {
    if wanted == [] then []
    else
      var id := wanted[|wanted| - 1];
      Keep(ids, count, wanted[..|wanted| - 1], located) +
      (if Located(ids, count, id) == located then [id] else [])
  }

  // What is written over the k-th hole, if anything.
  function FillAt(ids: seq<int>, reps: seq<Replacement>, k: nat): Option<Source> {
    if k < |ids| && LastIndex(ids, ids[k]) == k then LastExpr(reps, ids[k]) else None
  }

  // The spans from the k-th on lie apart, in order, at or after an offset.
  predicate InOrder(s: Source, spans: seq<Span>, k: nat, from: nat) {
    && from <= |s|
    && (forall j :: k <= j < |spans| ==> from <= spans[j].start < spans[j].end <= |s|)
    && (forall j, l :: k <= j < l < |spans| ==> spans[j].end <= spans[l].start)
  }

  // The text from offset `from` on, every hole from the k-th on replaced by what fills it.
  function Filled(s: Source, spans: seq<Span>, ids: seq<int>, reps: seq<Replacement>, k: nat, from: nat): Source
    requires k <= |spans| && InOrder(s, spans, k, from)
    decreases |spans| - k
  {
    if k == |spans| then s[from..]
    else
      var c := spans[k];
      s[from..c.start] +
      (match FillAt(ids, reps, k) case Some(expr) => expr case None => s[c.start..c.end]) +
      Filled(s, spans, ids, reps, k + 1, c.end)
  }

  // The text after the batch.
  function Substituted(s: Source, ids: seq<int>, reps: seq<Replacement>): Source {
    HolesAreCandidates(s, 0);
    Filled(s, Holes(s, 0), ids, reps, 0, 0)
  }

  // ---- bookkeeping of the requests ----

  lemma {:induction false} RequestedMembers(reps: seq<Replacement>, id: int)
    ensures id in Requested(reps) <==> LastExpr(reps, id).Some?
    ensures id in Requested(reps) <==> exists k :: 0 <= k < |reps| && reps[k].goalId == id
  {
    if reps != [] {
      var n := |reps| - 1;
      RequestedMembers(reps[..n], id);
      assert forall k :: 0 <= k < n ==> reps[..n][k] == reps[k];
    }
  }

  // The requests are the distinct ids; every other entry is counted as dropped.
  lemma {:induction false} RequestsAreCounted(reps: seq<Replacement>)
    ensures |reps| == |Requested(reps)| + |Repeated(reps)|
    ensures NoRepeats(Requested(reps))
    ensures forall id :: id in Repeated(reps) ==> id in Requested(reps)
    ensures forall id :: id in Requested(reps) <==> LastExpr(reps, id).Some?
  {
    forall id
      ensures id in Requested(reps) <==> LastExpr(reps, id).Some?
    {
      RequestedMembers(reps, id);
    }
    hide LastExpr;
    if reps != [] { RequestsAreCounted(reps[..|reps| - 1]); }
  }

  lemma {:induction false} KeepMembers(ids: seq<int>, count: nat, wanted: seq<int>, located: bool, id: int)
    ensures id in Keep(ids, count, wanted, located) <==> id in wanted && Located(ids, count, id) == located
  {
    hide Located;
    if wanted != [] {
      var n := |wanted| - 1;
      KeepMembers(ids, count, wanted[..n], located, id);
      assert wanted == wanted[..n] + [wanted[n]];
    }
  }

  lemma {:induction false} KeepSplits(ids: seq<int>, count: nat, wanted: seq<int>)
    ensures multiset(wanted) ==
            multiset(Keep(ids, count, wanted, true)) + multiset(Keep(ids, count, wanted, false))
  {
    hide Located;
    if wanted != [] {
      var n := |wanted| - 1;
      var applied, failed := Keep(ids, count, wanted[..n], true), Keep(ids, count, wanted[..n], false);
      KeepSplits(ids, count, wanted[..n]);
      assert wanted == wanted[..n] + [wanted[n]];
      if Located(ids, count, wanted[n]) {
        assert Keep(ids, count, wanted, true) == applied + [wanted[n]];
        assert Keep(ids, count, wanted, false) == failed;
      } else {
        assert Keep(ids, count, wanted, true) == applied;
        assert Keep(ids, count, wanted, false) == failed + [wanted[n]];
      }
    }
  }

  // The last entry of an id decides its expression.
  lemma {:induction false} LastExprIsLast(reps: seq<Replacement>, id: int, expr: Source)
    ensures LastExpr(reps, id) == Some(expr) <==>
            exists k :: 0 <= k < |reps| && reps[k] == Replacement(id, expr) && NoneBehind(reps, k, id)
    decreases |reps|
  {
    if reps != [] {
      var n := |reps| - 1;
      LastExprIsLast(reps[..n], id, expr);
      if reps[n].goalId == id {
        assert forall k :: 0 <= k < n ==> !NoneBehind(reps, k, id);
        if reps[n].expr == expr { assert NoneBehind(reps, n, id); }
      } else {
        forall k | 0 <= k < n
          ensures NoneBehind(reps, k, id) <==> NoneBehind(reps[..n], k, id)
          ensures reps[..n][k] == reps[k]
        {
        }
      }
    }
  }

  predicate NoneBehind(reps: seq<Replacement>, k: nat, id: int) {
    forall l :: k < l < |reps| ==> reps[l].goalId != id
  }

  // What fills hole k: the last expression asked for the id whose last place in the id list is k.
  lemma FillsExactly(ids: seq<int>, reps: seq<Replacement>, k: nat, expr: Source)
    ensures FillAt(ids, reps, k) == Some(expr) <==>
            k < |ids| && (forall l :: k < l < |ids| ==> ids[l] != ids[k]) &&
            exists r :: 0 <= r < |reps| && reps[r] == Replacement(ids[k], expr) && NoneBehind(reps, r, ids[k])
  {
    if k < |ids| { LastExprIsLast(reps, ids[k], expr); }
    hide LastExpr;
  }

  // Requests stand in the order in which the entries first name them.
  lemma {:induction false} RequestedInOrder(reps: seq<Replacement>, j: nat, k: nat, r: nat)
    requires j < k < |Requested(reps)| && r < |reps| && reps[r].goalId == Requested(reps)[k]
    ensures exists q :: 0 <= q < r && reps[q].goalId == Requested(reps)[j]
    decreases |reps|
  {
    var n := |reps| - 1;
    var before, id := Requested(reps[..n]), reps[n].goalId;
    if r < n {
      assert reps[..n][r] == reps[r];
      RequestedMembers(reps[..n], reps[r].goalId);
      assert k < |before|;
      RequestedInOrder(reps[..n], j, k, r);
      var q :| 0 <= q < r && reps[..n][q].goalId == before[j];
      assert reps[q].goalId == Requested(reps)[j];
    } else {
      assert j < |before| && before[j] in before;
      RequestedMembers(reps[..n], before[j]);
      var q :| 0 <= q < |reps[..n]| && reps[..n][q].goalId == before[j];
      assert reps[q].goalId == Requested(reps)[j];
    }
  }

  // Every entry is a request or a repetition of one.
  lemma {:induction false} RequestedPlusRepeated(reps: seq<Replacement>)
    ensures multiset(GoalIds(reps)) == multiset(Requested(reps)) + multiset(Repeated(reps))
    decreases |reps|
  {
    if reps != [] {
      var n := |reps| - 1;
      RequestedPlusRepeated(reps[..n]);
      assert GoalIds(reps) == GoalIds(reps[..n]) + [reps[n].goalId];
    }
  }

  function GoalIds(reps: seq<Replacement>): seq<int> {
    seq(|reps|, k requires 0 <= k < |reps| => reps[k].goalId)
  }

  // Keeping ids keeps their order.
  lemma {:induction false} KeepInOrder(ids: seq<int>, count: nat, wanted: seq<int>, located: bool, j: nat, k: nat)
    requires NoRepeats(wanted) && j < k < |Keep(ids, count, wanted, located)|
    ensures var kept := Keep(ids, count, wanted, located);
            LastIndex(wanted, kept[j]) < LastIndex(wanted, kept[k])
    decreases |wanted|
  {
    var n := |wanted| - 1;
    var before, kept := Keep(ids, count, wanted[..n], located), Keep(ids, count, wanted, located);
    assert forall x :: x in wanted[..n] ==> x != wanted[n];
    KeepMembers(ids, count, wanted[..n], located, kept[j]);
    assert kept[j] in before;
    if k < |before| {
      KeepMembers(ids, count, wanted[..n], located, kept[k]);
      assert kept[k] in before;
      KeepInOrder(ids, count, wanted[..n], located, j, k);
    }
  }

  // Every requested goal is either applied or reported as failed, exactly once, and it fails exactly
  // when the file has no marker for it.
  lemma RequestedIsAppliedPlusFailed(ids: seq<int>, count: nat, reps: seq<Replacement>, id: int)
    ensures multiset(Requested(reps)) ==
            multiset(Keep(ids, count, Requested(reps), true)) + multiset(Keep(ids, count, Requested(reps), false))
    ensures multiset(Requested(reps))[id] == if LastExpr(reps, id).Some? then 1 else 0
    ensures id in Keep(ids, count, Requested(reps), false) <==>
            LastExpr(reps, id).Some? && !Located(ids, count, id)
  {
    hide Located;
    KeepSplits(ids, count, Requested(reps));
    KeepMembers(ids, count, Requested(reps), false, id);
    RequestsAreCounted(reps);
    DistinctMeansOnce(Requested(reps), id);
  }

  lemma {:induction false} DistinctMeansOnce(xs: seq<int>, x: int)
    requires NoRepeats(xs)
    ensures multiset(xs)[x] <= 1
  {
    if xs != [] {
      var n := |xs| - 1;
      DistinctMeansOnce(xs[..n], x);
      assert xs == xs[..n] + [xs[n]];
      assert x == xs[n] ==> x !in xs[..n];
    }
  }

  // ---- one edit at a time, back to front ----

  function Splice(s: Source, e: Edit): Source
    requires e.start <= e.end <= |s|
  {
    s[..e.start] + e.expr + s[e.end..]
  }

  predicate Descending(s: Source, edits: seq<Edit>) {
    && (forall k :: 0 <= k < |edits| ==> edits[k].start <= edits[k].end <= |s|)
    && (forall k, l :: 0 <= k < l < |edits| ==> edits[l].end <= edits[k].start && edits[l].start < edits[k].start)
  }

  // The text after the first n edits of a list ordered by falling offset.
  function Applied(s: Source, edits: seq<Edit>, n: nat): (r: Source)
    requires n <= |edits| && Descending(s, edits)
    ensures n < |edits| ==> |r| >= edits[n].end && r[..edits[n].end] == s[..edits[n].end]
    ensures n == 0 ==> r == s
    decreases n
  {
    if n == 0 then s
    else
      var r := Applied(s, edits, n - 1);
      assert edits[n - 1].end <= |r|;
      var e := edits[n - 1];
      assert n < |edits| ==> r[..e.start][..edits[n].end] == s[..e.end][..edits[n].end];
      Splice(r, e)
  }

  // The edits for the holes from the k-th on, in falling order of offset.
  function EditsFrom(spans: seq<Span>, ids: seq<int>, reps: seq<Replacement>, k: nat): seq<Edit>
    requires k <= |spans|
    decreases |spans| - k
  {
    if k == |spans| then []
    else
      EditsFrom(spans, ids, reps, k + 1) +
      (match FillAt(ids, reps, k)
       case Some(expr) => [Edit(spans[k].start, spans[k].end, expr, ids[k])]
       case None => [])
  }

  lemma {:induction false} EditsFromDescend(s: Source, spans: seq<Span>, ids: seq<int>, reps: seq<Replacement>, k: nat)
    requires k <= |spans| && InOrder(s, spans, 0, 0)
    ensures Descending(s, EditsFrom(spans, ids, reps, k))
    ensures forall e :: e in EditsFrom(spans, ids, reps, k) <==>
                        exists l :: k <= l < |spans| && IsEditFor(spans, ids, reps, l, e)
    decreases |spans| - k
  {
    if k < |spans| {
      EditsFromDescend(s, spans, ids, reps, k + 1);
      var rest := EditsFrom(spans, ids, reps, k + 1);
      var all := EditsFrom(spans, ids, reps, k);
      forall e
        ensures e in all <==> exists l :: k <= l < |spans| && IsEditFor(spans, ids, reps, l, e)
      {
        if e in all {
          if e in rest {
            var l :| k + 1 <= l < |spans| && IsEditFor(spans, ids, reps, l, e);
          } else {
            assert IsEditFor(spans, ids, reps, k, e);
          }
        }
      }
      forall j | 0 <= j < |rest|
        ensures spans[k].end <= rest[j].start && spans[k].start < rest[j].start
      {
        assert rest[j] in rest;
        var l :| k + 1 <= l < |spans| && IsEditFor(spans, ids, reps, l, rest[j]);
      }
    }
  }

  predicate IsEditFor(spans: seq<Span>, ids: seq<int>, reps: seq<Replacement>, l: nat, e: Edit) {
    && l < |spans| && l < |ids|
    && e.start == spans[l].start && e.end == spans[l].end && e.goalId == ids[l]
    && FillAt(ids, reps, l) == Some(e.expr)
  }

  // Applying the edits for the holes from the k-th on, back to front, fills exactly those holes.
  lemma {:induction false} BackToFrontFills(s: Source, spans: seq<Span>, ids: seq<int>, reps: seq<Replacement>, k: nat, from: nat)
    requires k <= |spans| && InOrder(s, spans, 0, 0) && InOrder(s, spans, k, from)
    requires Descending(s, EditsFrom(spans, ids, reps, k))
    ensures var edits := EditsFrom(spans, ids, reps, k);
            Applied(s, edits, |edits|) == s[..from] + Filled(s, spans, ids, reps, k, from)
    decreases |spans| - k
  {
    hide FillAt, LastExpr, Applied, Splice, InOrder;
    if k == |spans| {
      assert Applied(s, [], 0) == s;
      assert from <= |s| by { EndOfOrder(s, spans, k, from); }
      assert s == s[..from] + s[from..];
    } else {
      var c := spans[k];
      var rest := EditsFrom(spans, ids, reps, k + 1);
      var edits := EditsFrom(spans, ids, reps, k);
      assert Descending(s, rest) by { assert forall j :: 0 <= j < |rest| ==> rest[j] == edits[j]; }
      assert InOrder(s, spans, k + 1, c.end) && from <= c.start < c.end <= |s| by {
        InOrderAfter(s, spans, k, from);
      }
      BackToFrontFills(s, spans, ids, reps, k + 1, c.end);
      FillOneMore(s, from, c, Filled(s, spans, ids, reps, k + 1, c.end));
      if FillAt(ids, reps, k).Some? {
        OneEditMore(s, rest, edits[|rest|]);
      } else {
        assert edits == rest;
      }
    }
  }

  lemma EndOfOrder(s: Source, spans: seq<Span>, k: nat, from: nat)
    requires InOrder(s, spans, k, from)
    ensures from <= |s|
  {
  }

  lemma InOrderAfter(s: Source, spans: seq<Span>, k: nat, from: nat)
    requires k < |spans| && InOrder(s, spans, k, from)
    ensures InOrder(s, spans, k + 1, spans[k].end) && from <= spans[k].start < spans[k].end <= |s|
  {
  }

  lemma OneEditMore(s: Source, edits: seq<Edit>, e: Edit)
    requires Descending(s, edits) && Descending(s, edits + [e])
    ensures e.start <= e.end <= |Applied(s, edits, |edits|)|
    ensures Applied(s, edits + [e], |edits| + 1) == Splice(Applied(s, edits, |edits|), e)
  {
    AppliedPrefix(s, edits, edits + [e], |edits|);
    assert (edits + [e])[|edits|] == e;
  }

  lemma FillOneMore(s: Source, from: nat, c: Span, tail: Source)
    requires from <= c.start <= c.end <= |s|
    ensures s[..c.end] + tail == s[..from] + (s[from..c.start] + s[c.start..c.end] + tail)
    ensures forall e: Edit :: e.start == c.start && e.end == c.end ==>
              Splice(s[..c.end] + tail, e) == s[..from] + (s[from..c.start] + e.expr + tail)
  {
    var r := s[..c.end] + tail;
    assert r[..c.start] == s[..from] + s[from..c.start];
    assert r[c.end..] == tail;
  }

  lemma {:induction false} AppliedPrefix(s: Source, edits: seq<Edit>, more: seq<Edit>, n: nat)
    requires n <= |edits| && edits <= more && Descending(s, edits) && Descending(s, more)
    ensures Applied(s, edits, n) == Applied(s, more, n)
    decreases n
  {
    if n > 0 { AppliedPrefix(s, edits, more, n - 1); }
  }

  // A list of edits in strictly falling order is determined by its elements.
  lemma {:induction false} DescendingIsUnique(s: Source, a: seq<Edit>, b: seq<Edit>)
    requires Descending(s, a) && Descending(s, b)
    requires forall e :: e in a <==> e in b
    ensures a == b
    decreases |a|
  {
    if a == [] {
      assert forall k :: 0 <= k < |b| ==> b[k] in b;
    } else {
      assert a[0] in a && a[0] in b;
      assert b[0] in b && b[0] in a;
      assert a[0].start >= b[0].start && b[0].start >= a[0].start;
      var j :| 0 <= j < |b| && b[j] == a[0];
      assert j == 0;
      forall e
        ensures e in a[1..] <==> e in b[1..]
      {
        if e in a[1..] { assert e in a; assert e in b; assert e != b[0]; }
        if e in b[1..] { assert e in b; assert e in a; assert e != a[0]; }
      }
      DescendingIsUnique(s, a[1..], b[1..]);
    }
  }

  // ---- lengths ----

  function Growth(spans: seq<Span>, ids: seq<int>, reps: seq<Replacement>, k: nat): int
    requires k <= |spans|
    decreases |spans| - k
  {
    if k == |spans| then 0
    else (match FillAt(ids, reps, k) case Some(expr) => |expr| - (spans[k].end - spans[k].start) case None => 0)
         + Growth(spans, ids, reps, k + 1)
  }

  lemma {:induction false} FilledLength(s: Source, spans: seq<Span>, ids: seq<int>, reps: seq<Replacement>, k: nat, from: nat)
    requires k <= |spans| && InOrder(s, spans, k, from)
    ensures |Filled(s, spans, ids, reps, k, from)| == |s| - from + Growth(spans, ids, reps, k)
    decreases |spans| - k
  {
    if k < |spans| {
      FilledLength(s, spans, ids, reps, k + 1, spans[k].end);
    }
  }

  // How far the replaced holes from the k-th on that end by offset i have moved the text behind them.
  function Shift(spans: seq<Span>, ids: seq<int>, reps: seq<Replacement>, k: nat, i: nat): int
    requires k <= |spans|
    decreases |spans| - k
  {
    if k == |spans| || spans[k].end > i then 0
    else (match FillAt(ids, reps, k) case Some(expr) => |expr| - (spans[k].end - spans[k].start) case None => 0)
         + Shift(spans, ids, reps, k + 1, i)
  }

  lemma {:induction false} FilledKeeps(s: Source, spans: seq<Span>, ids: seq<int>, reps: seq<Replacement>,
                                       k: nat, from: nat, i: nat)
    requires k <= |spans| && InOrder(s, spans, k, from) && from <= i < |s|
    requires forall l: nat :: k <= l < |spans| && FillAt(ids, reps, l).Some? ==> !(spans[l].start <= i < spans[l].end)
    ensures var j := i - from + Shift(spans, ids, reps, k, i);
            0 <= j < |Filled(s, spans, ids, reps, k, from)| && Filled(s, spans, ids, reps, k, from)[j] == s[i]
    decreases |spans| - k
  {
    hide FillAt;
    if k < |spans| && spans[k].end <= i { FilledKeeps(s, spans, ids, reps, k + 1, spans[k].end, i); }
  }

  lemma WindowOfTail(head: Source, tail: Source, j: nat, n: nat)
    requires j + n <= |tail|
    ensures (head + tail)[|head| + j..|head| + j + n] == tail[j..j + n]
  {
  }

  lemma {:induction false} FilledShows(s: Source, spans: seq<Span>, ids: seq<int>, reps: seq<Replacement>,
                                       k: nat, from: nat, l: nat)
    requires k <= l < |spans| && InOrder(s, spans, k, from) && FillAt(ids, reps, l).Some?
    ensures var j := spans[l].start - from + Shift(spans, ids, reps, k, spans[l].start);
            var expr := FillAt(ids, reps, l).value;
            0 <= j && j + |expr| <= |Filled(s, spans, ids, reps, k, from)| &&
            Filled(s, spans, ids, reps, k, from)[j..j + |expr|] == expr
    decreases |spans| - k
  {
    hide FillAt, Filled, InOrder;
    InOrderAfter(s, spans, k, from);
    FilledSplits(s, spans, ids, reps, k, from);
    var c, fill := spans[k], FillAt(ids, reps, k);
    var tail := Filled(s, spans, ids, reps, k + 1, c.end);
    if k == l {
      WindowOfTail(s[from..c.start], fill.value + tail, 0, |fill.value|);
      assert s[from..c.start] + fill.value + tail == s[from..c.start] + (fill.value + tail);
      assert (fill.value + tail)[0..|fill.value|] == fill.value;
    } else {
      FilledShows(s, spans, ids, reps, k + 1, c.end, l);
      SpansRise(s, spans, k, from, l);
      WindowOfTail(s[from..c.start] + (if fill.Some? then fill.value else s[c.start..c.end]), tail,
                   spans[l].start - c.end + Shift(spans, ids, reps, k + 1, spans[l].start),
                   |FillAt(ids, reps, l).value|);
    }
  }

  lemma SpansRise(s: Source, spans: seq<Span>, k: nat, from: nat, l: nat)
    requires k < l < |spans| && InOrder(s, spans, k, from)
    ensures spans[k].end <= spans[l].start
  {
  }

  lemma FilledSplits(s: Source, spans: seq<Span>, ids: seq<int>, reps: seq<Replacement>, k: nat, from: nat)
    requires k < |spans| && InOrder(s, spans, k, from) && InOrder(s, spans, k + 1, spans[k].end)
    ensures from <= spans[k].start <= spans[k].end <= |s|
    ensures var c, fill := spans[k], FillAt(ids, reps, k);
            Filled(s, spans, ids, reps, k, from) ==
            s[from..c.start] + (if fill.Some? then fill.value else s[c.start..c.end]) +
            Filled(s, spans, ids, reps, k + 1, c.end)
  {
    hide FillAt;
  }

  // Every unit outside the replaced holes is kept, moved by what the replaced holes before it gain or
  // lose.
  lemma EverythingElseIsKept(s: Source, ids: seq<int>, reps: seq<Replacement>, i: nat)
    requires i < |s|
    requires forall c, k: nat :: k < |Holes(s, 0)| && c == Holes(s, 0)[k] && c.start <= i < c.end ==> FillAt(ids, reps, k).None?
    ensures var j := i + Shift(Holes(s, 0), ids, reps, 0, i);
            0 <= j < |Substituted(s, ids, reps)| && Substituted(s, ids, reps)[j] == s[i]
  {
    hide FillAt, Holes, Shift, Filled;
    HolesAreCandidates(s, 0);
    FilledKeeps(s, Holes(s, 0), ids, reps, 0, 0, i);
  }

  // Every replaced hole shows its expression at its moved start.
  lemma HolesShowTheirExpressions(s: Source, ids: seq<int>, reps: seq<Replacement>, l: nat)
    requires l < |Holes(s, 0)| && FillAt(ids, reps, l).Some?
    ensures var start, expr := Holes(s, 0)[l].start, FillAt(ids, reps, l).value;
            var j := start + Shift(Holes(s, 0), ids, reps, 0, start);
            0 <= j && j + |expr| <= |Substituted(s, ids, reps)| && Substituted(s, ids, reps)[j..j + |expr|] == expr
  {
    hide FillAt, Holes, Shift, Filled;
    HolesAreCandidates(s, 0);
    FilledShows(s, Holes(s, 0), ids, reps, 0, 0, l);
  }

  // The length changes by the sum of what each replaced hole gains or loses.
  lemma LengthChangesByTheEdits(s: Source, ids: seq<int>, reps: seq<Replacement>)
    ensures |Substituted(s, ids, reps)| == |s| + Growth(Holes(s, 0), ids, reps, 0)
  {
    HolesAreCandidates(s, 0);
    FilledLength(s, Holes(s, 0), ids, reps, 0, 0);
  }
}

/** The batch applicator: collects the edits, sorts them by falling offset and splices them in. */
module BatchEdits {
  import opened Basics
  import opened CodeUnits
  import opened GoalGrammar
  import opened GoalScanner
  import opened SourceFiles
  import opened Substitution

  datatype BatchMessage = CouldNotRead | CouldNotLocate | NoReplacements | ExceedsCap | AppliedSome

  datatype BatchApplyResult = BatchApplyResult(
    appliedCount: nat, failedGoalIds: seq<int>, droppedDuplicateGoalIds: seq<int>, message: BatchMessage)

  // The edits of a list of requested goals, in the order of the requests.
  function EditsAsked(spans: seq<Span>, ids: seq<int>, reps: seq<Replacement>, wanted: seq<int>): seq<Edit> {
    if wanted == [] then []
    else
      var id := wanted[|wanted| - 1];
      EditsAsked(spans, ids, reps, wanted[..|wanted| - 1]) +
      (if Located(ids, |spans|, id) && LastExpr(reps, id).Some?
       then
         var c := spans[LastIndex(ids, id)];
         [Edit(c.start, c.end, LastExpr(reps, id).value, id)]
       else [])
  }

  // Array.prototype.sort with the comparison b.start - a.start: a stable sort by falling start.
  function InsertByStart(e: Edit, sorted: seq<Edit>): (r: seq<Edit>)
    ensures multiset(r) == multiset(sorted) + multiset{e}
  {
    if sorted == [] then [e]
    else if sorted[0].start < e.start then [e] + sorted
    else
      assert sorted == [sorted[0]] + sorted[1..];
      [sorted[0]] + InsertByStart(e, sorted[1..])
  }

  lemma {:induction false} InsertKeepsOrder(e: Edit, sorted: seq<Edit>)
    requires FallingStarts(sorted)
    ensures FallingStarts(InsertByStart(e, sorted))
  {
    if sorted != [] && sorted[0].start >= e.start {
      InsertKeepsOrder(e, sorted[1..]);
      var rest := InsertByStart(e, sorted[1..]);
      forall k | 0 <= k < |rest|
        ensures sorted[0].start >= rest[k].start
      {
        assert rest[k] in multiset(rest);
      }
    }
  }

  predicate FallingStarts(edits: seq<Edit>) {
    forall k, l :: 0 <= k < l < |edits| ==> edits[k].start >= edits[l].start
  }

  function SortByStart(edits: seq<Edit>): (r: seq<Edit>)
    ensures multiset(r) == multiset(edits) && FallingStarts(r)
  {
    if edits == [] then []
    else
      var n := |edits| - 1;
      assert edits == edits[..n] + [edits[n]];
      InsertKeepsOrder(edits[n], SortByStart(edits[..n]));
      InsertByStart(edits[n], SortByStart(edits[..n]))
  }

  lemma {:induction false} AskedEditsAreEdits(spans: seq<Span>, ids: seq<int>, reps: seq<Replacement>, wanted: seq<int>)
    requires forall id :: id in wanted ==> LastExpr(reps, id).Some?
    requires NoRepeats(wanted)
    ensures |EditsAsked(spans, ids, reps, wanted)| == |Keep(ids, |spans|, wanted, true)|
    ensures forall e :: e in EditsAsked(spans, ids, reps, wanted) <==>
                        e.goalId in wanted && Located(ids, |spans|, e.goalId) &&
                        IsEditFor(spans, ids, reps, LastIndex(ids, e.goalId), e)
    ensures forall e :: multiset(EditsAsked(spans, ids, reps, wanted))[e] <= 1
  {
    hide LastExpr, LastIndex;
    if wanted != [] {
      var n := |wanted| - 1;
      AskedEditsAreEdits(spans, ids, reps, wanted[..n]);
      assert wanted == wanted[..n] + [wanted[n]];
      var before := EditsAsked(spans, ids, reps, wanted[..n]);
      var all := EditsAsked(spans, ids, reps, wanted);
      if Located(ids, |spans|, wanted[n]) {
        var e := all[|before|];
        assert all == before + [e];
        assert e !in before;
      } else {
        assert all == before;
      }
    }
  }

  // An edit stands for a hole exactly when it is asked for.
  lemma AskedIsForSomeHole(spans: seq<Span>, ids: seq<int>, reps: seq<Replacement>, e: Edit)
    ensures (exists l :: 0 <= l < |spans| && IsEditFor(spans, ids, reps, l, e)) <==>
            e.goalId in Requested(reps) && Located(ids, |spans|, e.goalId) &&
            IsEditFor(spans, ids, reps, LastIndex(ids, e.goalId), e)
  {
    RequestsAreCounted(reps);
    if exists l :: 0 <= l < |spans| && IsEditFor(spans, ids, reps, l, e) {
      var l :| 0 <= l < |spans| && IsEditFor(spans, ids, reps, l, e);
      assert LastIndex(ids, e.goalId) == l;
    }
  }

  // Sorting the edits yields the edits of the holes, last hole first.
  lemma SortedEditsAreTheHoles(s: Source, ids: seq<int>, reps: seq<Replacement>)
    ensures SortByStart(EditsAsked(Holes(s, 0), ids, reps, Requested(reps))) == EditsFrom(Holes(s, 0), ids, reps, 0)
  {
    hide Holes, LastIndex, LastExpr, FillAt, Located;
    var spans := Holes(s, 0);
    var asked := EditsAsked(spans, ids, reps, Requested(reps));
    var sorted := SortByStart(asked);
    HolesAreCandidates(s, 0);
    assert InOrder(s, spans, 0, 0);
    RequestsAreCounted(reps);
    AskedEditsAreEdits(spans, ids, reps, Requested(reps));
    EditsFromDescend(s, spans, ids, reps, 0);
    forall e
      ensures e in sorted <==> e in EditsFrom(spans, ids, reps, 0)
    {
      AskedIsForSomeHole(spans, ids, reps, e);
      assert e in sorted <==> e in multiset(sorted);
      assert e in asked <==> e in multiset(asked);
    }
    SortedIsDescending(s, spans, ids, reps, sorted);
    DescendingIsUnique(s, sorted, EditsFrom(spans, ids, reps, 0));
  }

  lemma SortedIsDescending(s: Source, spans: seq<Span>, ids: seq<int>, reps: seq<Replacement>, sorted: seq<Edit>)
    requires InOrder(s, spans, 0, 0) && FallingStarts(sorted)
    requires forall e :: e in sorted ==> exists l :: 0 <= l < |spans| && IsEditFor(spans, ids, reps, l, e)
    requires forall e :: multiset(sorted)[e] <= 1
    ensures Descending(s, sorted)
  {
    forall k | 0 <= k < |sorted|
      ensures sorted[k].start <= sorted[k].end <= |s|
    {
      assert sorted[k] in sorted;
      var l :| 0 <= l < |spans| && IsEditFor(spans, ids, reps, l, sorted[k]);
    }
    forall k, l | 0 <= k < l < |sorted|
      ensures sorted[l].end <= sorted[k].start && sorted[l].start < sorted[k].start
    {
      assert sorted[k] in sorted && sorted[l] in sorted;
      var i :| 0 <= i < |spans| && IsEditFor(spans, ids, reps, i, sorted[k]);
      var j :| 0 <= j < |spans| && IsEditFor(spans, ids, reps, j, sorted[l]);
      if i == j {
        OnceMeansDistinct(sorted, k, l);
      }
    }
  }

  lemma OnceMeansDistinct(edits: seq<Edit>, k: nat, l: nat)
    requires k < l < |edits| && multiset(edits)[edits[k]] <= 1
    ensures edits[k] != edits[l]
  {
    assert edits == edits[..l] + edits[l..];
    assert edits[l..] == [edits[l]] + edits[l + 1..];
    assert edits[k] in edits[..l];
  }

  method IndexOfGoals(goalIds: seq<int>) returns (goalIdToIndex: map<int, nat>)
    ensures forall id :: id in goalIdToIndex <==> LastIndex(goalIds, id) >= 0
    ensures forall id :: id in goalIdToIndex ==> goalIdToIndex[id] == LastIndex(goalIds, id)
  {
    goalIdToIndex := map[];
    for i := 0 to |goalIds|
      invariant forall id :: id in goalIdToIndex <==> LastIndex(goalIds[..i], id) >= 0
      invariant forall id :: id in goalIdToIndex ==> goalIdToIndex[id] == LastIndex(goalIds[..i], id)
    {
      assert goalIds[..i + 1][..i] == goalIds[..i];
      goalIdToIndex := goalIdToIndex[goalIds[i] := i];
    }
    assert goalIds[..|goalIds|] == goalIds;
  }

  // The map from goal id to expression, with its keys in insertion order.
  method LastWins(reps: seq<Replacement>) returns (keys: seq<int>, lastByGoalId: map<int, Source>, dropped: seq<int>)
    ensures keys == Requested(reps) && dropped == Repeated(reps)
    ensures forall id :: id in lastByGoalId <==> id in keys
    ensures forall id :: id in lastByGoalId ==> LastExpr(reps, id) == Some(lastByGoalId[id])
  {
    keys, lastByGoalId, dropped := [], map[], [];
    for i := 0 to |reps|
      invariant keys == Requested(reps[..i]) && dropped == Repeated(reps[..i])
      invariant forall id :: id in lastByGoalId <==> id in keys
      invariant forall id :: id in lastByGoalId ==> LastExpr(reps[..i], id) == Some(lastByGoalId[id])
    {
      assert reps[..i + 1][..i] == reps[..i];
      var id := reps[i].goalId;
      if id in lastByGoalId {
        dropped := dropped + [id];
      } else {
        keys := keys + [id];
      }
      lastByGoalId := lastByGoalId[id := reps[i].expr];
    }
    assert reps[..|reps|] == reps;
  }

  method CollectEdits(positions: seq<GoalPosition>, goalIdToIndex: map<int, nat>, keys: seq<int>,
                      lastByGoalId: map<int, Source>, ghost s: Source, ghost ids: seq<int>, ghost reps: seq<Replacement>)
    returns (edits: seq<Edit>, failed: seq<int>)
    requires positions == Positions(s)
    requires forall id :: id in goalIdToIndex <==> LastIndex(ids, id) >= 0
    requires forall id :: id in goalIdToIndex ==> goalIdToIndex[id] == LastIndex(ids, id)
    requires forall id :: id in lastByGoalId <==> id in keys
    requires forall id :: id in lastByGoalId ==> LastExpr(reps, id) == Some(lastByGoalId[id])
    ensures edits == EditsAsked(Holes(s, 0), ids, reps, keys)
    ensures failed == Keep(ids, |positions|, keys, false)
  {
    hide LastIndex, LastExpr, Holes;
    edits, failed := [], [];
    for i := 0 to |keys|
      invariant edits == EditsAsked(Holes(s, 0), ids, reps, keys[..i])
      invariant failed == Keep(ids, |positions|, keys[..i], false)
    {
      assert keys[..i + 1][..i] == keys[..i];
      var id := keys[i];
      if id !in goalIdToIndex || goalIdToIndex[id] >= |positions| {
        failed := failed + [id];
        continue;
      }
      var pos := positions[goalIdToIndex[id]];
      edits := edits + [Edit(pos.startOffset, pos.endOffset, lastByGoalId[id], id)];
    }
    assert keys[..|keys|] == keys;
  }

  method SpliceAll(source: Source, edits: seq<Edit>) returns (newSource: Source)
    requires Descending(source, edits)
    ensures newSource == Applied(source, edits, |edits|)
  {
    newSource := source;
    for i := 0 to |edits|
      invariant newSource == Applied(source, edits, i)
    {
      var edit := edits[i];
      newSource := newSource[..edit.start] + edit.expr + newSource[edit.end..];
    }
  }

  // What a batch does to a text that could be read, by cases.
  function BatchReport(source: Source, goalIds: seq<int>, reps: seq<Replacement>): BatchApplyResult {
    var count := |Holes(source, 0)|;
    var applied := Keep(goalIds, count, Requested(reps), true);
    var failed := Keep(goalIds, count, Requested(reps), false);
    if applied == [] then
      BatchApplyResult(0, failed, Repeated(reps), if failed != [] then CouldNotLocate else NoReplacements)
    else if Utf8Length(Substituted(source, goalIds, reps)) > MAX_AGDA_SOURCE_BYTES then
      BatchApplyResult(0, failed, Repeated(reps), ExceedsCap)
    else
      BatchApplyResult(|applied|, failed, Repeated(reps), AppliedSome)
  }

  method ApplyBatchHoleReplacements(file: SourceFile, goalIds: seq<int>, reps: seq<Replacement>)
    returns (outcome: Outcome<BatchApplyResult>)
    modifies file`text
    ensures !file.readable ==> outcome == Returned(BatchApplyResult(0, [], [], CouldNotRead))
    ensures file.readable ==>
              var report := BatchReport(old(file.text), goalIds, reps);
              outcome == if report.message.AppliedSome? && !file.writable then WriteThrew else Returned(report)
    ensures file.text ==
            if outcome.Returned? && outcome.report.message.AppliedSome?
            then Substituted(old(file.text), goalIds, reps)
            else old(file.text)
  {
    hide Holes, Positions, EditsAsked, Keep, EditsFrom, SortByStart, Filled, Utf8Length, Applied;
    var loaded := file.LoadForEdit();
    if loaded.None? { return Returned(BatchApplyResult(0, [], [], CouldNotRead)); }
    var source := loaded.value;
    var allPositions := FindGoalPositions(source);
    var goalIdToIndex := IndexOfGoals(goalIds);
    var keys, lastByGoalId, dropped := LastWins(reps);
    var edits, failed := CollectEdits(allPositions, goalIdToIndex, keys, lastByGoalId, source, goalIds, reps);
    assert |edits| == |Keep(goalIds, |Holes(source, 0)|, Requested(reps), true)| by {
      RequestsAreCounted(reps);
      AskedEditsAreEdits(Holes(source, 0), goalIds, reps, Requested(reps));
    }
    if |edits| == 0 {
      return Returned(BatchApplyResult(0, failed, dropped, if |failed| > 0 then CouldNotLocate else NoReplacements));
    }
    var sorted := SortByStart(edits);
    BatchSubstitutes(source, goalIds, reps);
    var newSource := SpliceAll(source, sorted);
    if Utf8Length(newSource) > MAX_AGDA_SOURCE_BYTES {
      return Returned(BatchApplyResult(0, failed, dropped, ExceedsCap));
    }
    var done := file.WriteAtomic(newSource);
    if !done { return WriteThrew; }
    return Returned(BatchApplyResult(|edits|, failed, dropped, AppliedSome));
  }

  lemma KeepIsDistinct(ids: seq<int>, count: nat, wanted: seq<int>, located: bool)
    requires NoRepeats(wanted)
    ensures NoRepeats(Keep(ids, count, wanted, located))
  {
    var kept := Keep(ids, count, wanted, located);
    forall j, k | 0 <= j < k < |kept| ensures kept[j] != kept[k] {
      KeepInOrder(ids, count, wanted, located, j, k);
    }
  }

  // How many holes are filled.
  ghost function HolesFilled(spans: seq<Span>, ids: seq<int>, reps: seq<Replacement>): set<nat> {
    set k: nat | k < |spans| && FillAt(ids, reps, k).Some?
  }

  lemma {:induction false} EditsCountHoles(spans: seq<Span>, ids: seq<int>, reps: seq<Replacement>, k: nat)
    requires k <= |spans|
    ensures |EditsFrom(spans, ids, reps, k)| == |set l: nat | k <= l < |spans| && FillAt(ids, reps, l).Some?|
    decreases |spans| - k
  {
    hide FillAt;
    var here := set l: nat | k <= l < |spans| && FillAt(ids, reps, l).Some?;
    if k == |spans| {
      assert here == {};
    } else {
      EditsCountHoles(spans, ids, reps, k + 1);
      var rest := set l: nat | k + 1 <= l < |spans| && FillAt(ids, reps, l).Some?;
      assert here == if FillAt(ids, reps, k).Some? then rest + {k} else rest;
    }
  }

  lemma AppliedCountsHoles(s: Source, ids: seq<int>, reps: seq<Replacement>)
    ensures |Keep(ids, |Holes(s, 0)|, Requested(reps), true)| == |HolesFilled(Holes(s, 0), ids, reps)|
  {
    var spans := Holes(s, 0);
    RequestsAreCounted(reps);
    hide Holes, FillAt, LastExpr, Requested;
    AskedEditsAreEdits(spans, ids, reps, Requested(reps));
    SortedEditsAreTheHoles(s, ids, reps);
    var asked := EditsAsked(spans, ids, reps, Requested(reps));
    assert |multiset(SortByStart(asked))| == |multiset(asked)|;
    EditsCountHoles(spans, ids, reps, 0);
    assert HolesFilled(spans, ids, reps) == set l: nat | 0 <= l < |spans| && FillAt(ids, reps, l).Some?;
  }

  // The report in full. It counts the holes filled, unless the result would exceed half a mebibyte; it
  // lists the requested ids no hole stands for; and it says why nothing was done.
  lemma BatchReportsExactly(s: Source, ids: seq<int>, reps: seq<Replacement>, id: int)
    ensures var report := BatchReport(s, ids, reps);
            var filled := |HolesFilled(Holes(s, 0), ids, reps)|;
            var tooLong := |AllBytes(CodePoints(Substituted(s, ids, reps)))| > 524_288;
            (id in report.failedGoalIds <==>
              (exists r :: 0 <= r < |reps| && reps[r].goalId == id) && !(0 <= LastIndex(ids, id) < |Holes(s, 0)|)) &&
            NoRepeats(report.failedGoalIds) && report.droppedDuplicateGoalIds == Repeated(reps) &&
            report.appliedCount == (if tooLong then 0 else filled) &&
            report.message == (if reps == [] then NoReplacements else if filled == 0 then CouldNotLocate
                               else if tooLong then ExceedsCap else AppliedSome)
  {
    var count, wanted := |Holes(s, 0)|, Requested(reps);
    AppliedCountsHoles(s, ids, reps);
    Utf8LengthCountsBytes(Substituted(s, ids, reps));
    RequestedMembers(reps, id);
    RequestsAreCounted(reps);
    KeepMembers(ids, count, wanted, false, id);
    KeepIsDistinct(ids, count, wanted, false);
    RequestedIsAppliedPlusFailed(ids, count, reps, id);
    assert |multiset(wanted)| == |wanted|;
    assert |multiset(Keep(ids, count, wanted, true))| == |Keep(ids, count, wanted, true)|;
    assert |multiset(Keep(ids, count, wanted, false))| == |Keep(ids, count, wanted, false)|;
    if reps != [] { RequestedMembers(reps, reps[0].goalId); }
    hide Holes, Requested, Keep, Substituted, Utf8Length, CodePoints, AllBytes, HolesFilled, Repeated;
  }

  // Sorting and splicing back to front is the simultaneous substitution.
  lemma BatchSubstitutes(s: Source, ids: seq<int>, reps: seq<Replacement>)
    ensures var sorted := SortByStart(EditsAsked(Holes(s, 0), ids, reps, Requested(reps)));
            Descending(s, sorted) && Applied(s, sorted, |sorted|) == Substituted(s, ids, reps)
  {
    hide Holes, Filled, EditsAsked, EditsFrom, SortByStart, Applied, Descending;
    HolesAreCandidates(s, 0);
    SortedEditsAreTheHoles(s, ids, reps);
    EditsFromDescend(s, Holes(s, 0), ids, reps, 0);
    BackToFrontFills(s, Holes(s, 0), ids, reps, 0, 0);
    assert s[..0] == [];
  }
}

/** The single-goal applicator, and how it compares with the batch. */
module GoalEdits {
  import opened Basics
  import opened CodeUnits
  import opened GoalGrammar
  import opened GoalScanner
  import opened SourceFiles
  import opened Substitution
  import opened BatchEdits

  datatype ProofEdit =
    | ReplaceHole(goalId: int, expr: Source)
    | ReplaceLine(goalId: int, clauses: seq<Source>)

  datatype EditMessage = EditCouldNotRead | EditCouldNotLocate | EditExceedsCap | EditApplied

  // The lines of a text that a span touches, from the start of the first to the end of the last; one
  // line terminator, "\n" or "\r\n" (or "\r" at the very end), stays outside.
  predicate LinesAround(s: Source, c: Span, from: nat, stop: nat) {
    && from <= c.start <= c.end <= stop <= |s|
    && (from == 0 || s[from - 1] == NEWLINE)
    && (forall k :: from <= k < c.start ==> s[k] != NEWLINE)
    && (forall k :: c.end <= k < stop ==> s[k] != NEWLINE)
    && (stop == |s| || s[stop] == NEWLINE ==> !(stop > 0 && s[stop - 1] == RETURN))
    && (stop == |s| || s[stop] == NEWLINE || (s[stop] == RETURN && (stop + 1 == |s| || s[stop + 1] == NEWLINE)))
  }

  function LineStart(s: Source, i: nat): (r: nat)
    requires i <= |s|
    ensures r <= i && (r == 0 || s[r - 1] == NEWLINE) && forall k :: r <= k < i ==> s[k] != NEWLINE
  {
    if i == 0 || s[i - 1] == NEWLINE then i else LineStart(s, i - 1)
  }

  // The end of the line, before a "\r" that precedes the newline.
  function LineStop(s: Source, i: nat): (r: nat)
    requires i <= |s|
    ensures r <= LineEnd(s, i)
  {
    var n := LineEnd(s, i);
    if n > 0 && s[n - 1] == RETURN then n - 1 else n
  }

  // The longest prefix of white space.
  function Indent(line: Source): (r: Source)
    ensures r <= line && forall u :: u in r ==> IsSpaceCode(u)
    ensures |r| < |line| ==> !IsSpaceCode(line[|r|])
  {
    if line != [] && IsSpaceCode(line[0]) then [line[0]] + Indent(line[1..]) else []
  }

  function Indented(indent: Source, clause: Source): Source {
    if clause != [] && (clause[0] == 0x20 || clause[0] == 0x09) then clause else indent + clause
  }

  function IndentedAll(indent: Source, clauses: seq<Source>): seq<Source> {
    seq(|clauses|, k requires 0 <= k < |clauses| => Indented(indent, clauses[k]))
  }

  predicate IsMarker(s: Source, c: Span) {
    c.start < c.end <= |s| && !IsSpaceCode(s[c.start]) && !IsSpaceCode(s[c.end - 1])
  }

  lemma HolesAreMarkers(s: Source, c: Span)
    requires c in Holes(s, 0)
    ensures IsMarker(s, c)
  {
    hide Holes, Boundary, SkipEnd, Matching, LoneQuestion;
    HolesAreCandidates(s, 0);
    QuestionIsQuestion(s, c.start);
    if Opens(Hole, s, c.start) {
      CountingMatchesNesting(Hole, s, c.start + 2, c.end);
      var body :| Extent(Hole, s, c.start + 2, body) == Some(c.end);
      BodyEndsWithBracket(Hole, s, c.start + 2, body);
    }
  }

  lemma QuestionIsQuestion(s: Source, i: nat)
    ensures LoneQuestion(s, i) ==> Is(s, i, QUESTION)
  {
  }

  // The line editor takes out whole lines.
  lemma LinesAreWhole(s: Source, c: Span)
    requires IsMarker(s, c)
    ensures LinesAround(s, c, LineStart(s, c.start), LineStop(s, c.end))
  {
  }

  function IndentOf(s: Source, c: Span): Source
    requires IsMarker(s, c)
  {
    LinesAreWhole(s, c);
    Indent(s[LineStart(s, c.start)..LineStop(s, c.end)])
  }

  // The indentation stops before the marker, so it never carries a line break into the new clauses.
  lemma IndentIsOnOneLine(s: Source, c: Span)
    requires IsMarker(s, c)
    ensures IndentOf(s, c) <= s[LineStart(s, c.start)..c.start]
    ensures NEWLINE !in IndentOf(s, c)
  {
    hide Indent;
    LinesAreWhole(s, c);
    var from := LineStart(s, c.start);
    var line := s[from..LineStop(s, c.end)];
    assert line[c.start - from] == s[c.start];
    IndentStops(line, c.start - from);
    var indent := Indent(line);
    assert indent == line[..|indent|] == s[from..from + |indent|];
    assert s[from..from + |indent|] <= s[from..c.start];
  }

  lemma {:induction false} IndentStops(line: Source, k: nat)
    requires k < |line| && !IsSpaceCode(line[k])
    ensures |Indent(line)| <= k && Indent(line) == line[..|Indent(line)|]
  {
    if IsSpaceCode(line[0]) {
      IndentStops(line[1..], k - 1);
      assert line == [line[0]] + line[1..];
    }
  }

  // The text with one marker replaced: the hole itself, or the lines it stands on.
  function EditedText(s: Source, c: Span, edit: ProofEdit): Source
    requires IsMarker(s, c)
  {
    match edit
    case ReplaceHole(_, expr) => s[..c.start] + expr + s[c.end..]
    case ReplaceLine(_, clauses) =>
      LinesAreWhole(s, c);
      var indent := IndentOf(s, c);
      var lines := IndentedAll(indent, clauses);
      s[..LineStart(s, c.start)] + Join(lines, if UsesCrlf(s) then [RETURN, NEWLINE] else [NEWLINE]) +
      s[LineStop(s, c.end)..]
  }

  // The hole a single edit is aimed at: the one at the first index of the goal id.
  function Target(s: Source, goalIds: seq<int>, goalId: int): Option<Span> {
    var index := IndexOf(goalIds, goalId);
    if 0 <= index < |Holes(s, 0)| then Some(Holes(s, 0)[index]) else None
  }

  function EditReport(source: Source, goalIds: seq<int>, edit: ProofEdit): (EditMessage, Source) {
    match Target(source, goalIds, edit.goalId)
    case None => (EditCouldNotLocate, source)
    case Some(c) =>
      HolesAreMarkers(source, c);
      if Utf8Length(EditedText(source, c, edit)) > MAX_AGDA_SOURCE_BYTES
      then (EditExceedsCap, source)
      else (EditApplied, EditedText(source, c, edit))
  }

  // The clauses in their lines: each keeps white space of its own or else gets the indentation, and the
  // lines end in the given style.
  predicate ClauseLines(lines: seq<Source>, indent: Source, clauses: seq<Source>, crlf: bool) {
    |lines| == |clauses| &&
    forall k :: 0 <= k < |clauses| ==>
      lines[k] == (if clauses[k] != [] && clauses[k][0] in {0x20, 0x09} then [] else indent) + clauses[k] +
                  (if crlf && k < |clauses| - 1 then [RETURN] else [])
  }

  lemma JoinedClauses(indent: Source, clauses: seq<Source>, crlf: bool)
    requires NEWLINE !in indent && clauses != [] && forall k :: 0 <= k < |clauses| ==> NEWLINE !in clauses[k]
    ensures ClauseLines(Split(Join(IndentedAll(indent, clauses), if crlf then [RETURN, NEWLINE] else [NEWLINE]), NEWLINE),
                        indent, clauses, crlf)
  {
    hide Join, Split;
    var lines := IndentedAll(indent, clauses);
    forall k | 0 <= k < |lines|
      ensures NEWLINE !in lines[k]
      ensures lines[k] == (if clauses[k] != [] && clauses[k][0] in {0x20, 0x09} then [] else indent) + clauses[k]
      ensures lines[k] + [] == lines[k]
    {
      assert [] + clauses[k] == clauses[k];
    }
    if crlf { CrlfJoinSplits(lines); } else { JoinSplits(lines, NEWLINE); }
  }

  // What a replaced line looks like: the lines around it are kept, and in between stand the clauses, in
  // the line-end style of the file, with the indentation of the line they replace, which is all the white
  // space that line begins with.
  lemma ReplacedLinesShow(s: Source, c: Span, goalId: int, clauses: seq<Source>)
    requires IsMarker(s, c)
    requires clauses != [] && forall k :: 0 <= k < |clauses| ==> NEWLINE !in clauses[k]
    ensures var from, stop, indent := LineStart(s, c.start), LineStop(s, c.end), IndentOf(s, c);
            LinesAround(s, c, from, stop) &&
            indent <= s[from..c.start] && AllSpaceUnits(indent) && !IsSpaceCode(s[from + |indent|]) &&
            exists middle :: EditedText(s, c, ReplaceLine(goalId, clauses)) == s[..from] + middle + s[stop..] &&
                             ClauseLines(Split(middle, NEWLINE), indent, clauses, UsesCrlf(s))
  {
    hide UsesCrlf, Join, Split, ClauseLines, IndentedAll, LinesAround;
    LinesAreWhole(s, c);
    IndentIsOnOneLine(s, c);
    IndentIsMaximal(s, c);
    var from, stop, indent := LineStart(s, c.start), LineStop(s, c.end), IndentOf(s, c);
    var middle := Join(IndentedAll(indent, clauses), if UsesCrlf(s) then [RETURN, NEWLINE] else [NEWLINE]);
    JoinedClauses(indent, clauses, UsesCrlf(s));
    assert EditedText(s, c, ReplaceLine(goalId, clauses)) == s[..from] + middle + s[stop..];
  }

  lemma IndentIsMaximal(s: Source, c: Span)
    requires IsMarker(s, c)
    ensures var from, indent := LineStart(s, c.start), IndentOf(s, c);
            from + |indent| <= c.start && AllSpaceUnits(indent) && !IsSpaceCode(s[from + |indent|])
  {
    LinesAreWhole(s, c);
    IndentIsOnOneLine(s, c);
    var from, stop := LineStart(s, c.start), LineStop(s, c.end);
    var line, indent := s[from..stop], IndentOf(s, c);
    assert forall k :: 0 <= k < |indent| ==> indent[k] in indent;
    assert |indent| <= c.start - from < |line|;
    assert line[|indent|] == s[from + |indent|];
  }

  // The outcome in full: the hole is the one at the first place of the goal's id; nothing is written
  // without it, nor beyond half a mebibyte; replacing a hole touches nothing around it.
  lemma EditReportsExactly(s: Source, goalIds: seq<int>, edit: ProofEdit)
    ensures var (message, text) := EditReport(s, goalIds, edit);
            var k := IndexOf(goalIds, edit.goalId);
            if !(0 <= k < |Holes(s, 0)|) then message == EditCouldNotLocate && text == s
            else
              var c := Holes(s, 0)[k];
              IsMarker(s, c) &&
              var edited := EditedText(s, c, edit);
              (edit.ReplaceHole? ==>
                edited[..c.start] == s[..c.start] && edited[c.start..] == edit.expr + s[c.end..]) &&
              if |AllBytes(CodePoints(edited))| > 524_288 then message == EditExceedsCap && text == s
              else message == EditApplied && text == edited
  {
    var k := IndexOf(goalIds, edit.goalId);
    if 0 <= k < |Holes(s, 0)| {
      var c := Holes(s, 0)[k];
      HolesAreMarkers(s, c);
      Utf8LengthCountsBytes(EditedText(s, c, edit));
      hide Holes, AllBytes, CodePoints, Utf8Length, LineStart, LineStop, IndentOf;
      if edit.ReplaceHole? {
        assert EditedText(s, c, edit) == s[..c.start] + (edit.expr + s[c.end..]);
      }
    }
  }

  method ReplaceLines(source: Source, start: nat, end: nat, clauses: seq<Source>, ghost goalId: int)
    returns (newSource: Source)
    requires IsMarker(source, Span(start, end))
    ensures newSource == EditedText(source, Span(start, end), ReplaceLine(goalId, clauses))
  {
    hide IndentedAll, Join, UsesCrlf, Indent, LineStart;
    LinesAreWhole(source, Span(start, end));
    var lineStart := LineStart(source, start);
    var lineEnd := LineEnd(source, end);
    if lineEnd > 0 && source[lineEnd - 1] == RETURN { lineEnd := lineEnd - 1; }
    var indent := Indent(source[lineStart..lineEnd]);
    var indentedClauses := IndentedAll(indent, clauses);
    var eol := if UsesCrlf(source) then [RETURN, NEWLINE] else [NEWLINE];
    newSource := source[..lineStart] + Join(indentedClauses, eol) + source[lineEnd..];
  }

  method ApplyProofEdit(file: SourceFile, goalIds: seq<int>, edit: ProofEdit) returns (outcome: Outcome<EditMessage>)
    modifies file`text
    ensures !file.readable ==> outcome == Returned(EditCouldNotRead) && file.text == old(file.text)
    ensures file.readable ==>
              var report := EditReport(old(file.text), goalIds, edit);
              if report.0.EditApplied? && !file.writable
              then outcome == WriteThrew && file.text == old(file.text)
              else outcome == Returned(report.0) && file.text == report.1
  {
    hide Holes, Positions, Utf8Length;
    var loaded := file.LoadForEdit();
    if loaded.None? { return Returned(EditCouldNotRead); }
    var source := loaded.value;
    var found := FindGoalPosition(source, edit.goalId, goalIds);
    if found.None? {
      assert Target(source, goalIds, edit.goalId).None? by { PositionIsTarget(source, goalIds, edit.goalId); }
      return Returned(EditCouldNotLocate);
    }
    var pos := found.value;
    ghost var c := Span(pos.startOffset, pos.endOffset);
    assert Target(source, goalIds, edit.goalId) == Some(c) && IsMarker(source, c) by {
      PositionIsTarget(source, goalIds, edit.goalId);
      HolesAreMarkers(source, c);
    }
    var newSource;
    match edit {
      case ReplaceHole(_, expr) =>
        newSource := source[..pos.startOffset] + expr + source[pos.endOffset..];
      case ReplaceLine(_, clauses) =>
        newSource := ReplaceLines(source, pos.startOffset, pos.endOffset, clauses, edit.goalId);
    }
    if Utf8Length(newSource) > MAX_AGDA_SOURCE_BYTES { return Returned(EditExceedsCap); }
    var done := file.WriteAtomic(newSource);
    return if done then Returned(EditApplied) else WriteThrew;
  }

  lemma PositionIsTarget(s: Source, goalIds: seq<int>, goalId: int)
    ensures GoalPositionOf(s, goalId, goalIds).Some? == Target(s, goalIds, goalId).Some?
    ensures GoalPositionOf(s, goalId, goalIds).Some? ==>
              var p := GoalPositionOf(s, goalId, goalIds).value;
              Target(s, goalIds, goalId) == Some(Span(p.startOffset, p.endOffset)) &&
              Span(p.startOffset, p.endOffset) in Holes(s, 0)
  {
  }

  // ---- a batch of one against a single edit ----

  // The hole a batch aims at: the one at the last index of the goal id.
  function BatchTarget(s: Source, goalIds: seq<int>, goalId: int): Option<Span> {
    var index := LastIndex(goalIds, goalId);
    if 0 <= index < |Holes(s, 0)| then Some(Holes(s, 0)[index]) else None
  }

  // The two aim at the same hole exactly when the first and the last index of the goal id agree, or
  // when neither names a hole of the file.
  lemma TargetsAgree(s: Source, goalIds: seq<int>, goalId: int)
    ensures Target(s, goalIds, goalId) == BatchTarget(s, goalIds, goalId) <==>
            IndexOf(goalIds, goalId) == LastIndex(goalIds, goalId) || IndexOf(goalIds, goalId) >= |Holes(s, 0)|
  {
    HolesAreCandidates(s, 0);
    var first, last := IndexOf(goalIds, goalId), LastIndex(goalIds, goalId);
    assert first >= 0 ==> first <= last;
    assert last >= 0 ==> first <= last && first >= 0;
    if 0 <= first < last < |Holes(s, 0)| {
      assert Holes(s, 0)[first].end <= Holes(s, 0)[last].start;
      assert Holes(s, 0)[first] in Holes(s, 0);
    }
  }

  lemma NoDuplicatesNoDifference(s: Source, goalIds: seq<int>, goalId: int)
    requires NoRepeats(goalIds)
    ensures Target(s, goalIds, goalId) == BatchTarget(s, goalIds, goalId)
  {
    TargetsAgree(s, goalIds, goalId);
  }

  // A batch of one replaces the hole it aims at, and nothing else.
  lemma BatchOfOne(s: Source, goalIds: seq<int>, goalId: int, expr: Source)
    ensures match BatchTarget(s, goalIds, goalId)
            case Some(c) =>
              IsMarker(s, c) &&
              Substituted(s, goalIds, [Replacement(goalId, expr)]) == EditedText(s, c, ReplaceHole(goalId, expr))
            case None =>
              Substituted(s, goalIds, [Replacement(goalId, expr)]) == s
  {
    hide Holes;
    HolesAreCandidates(s, 0);
    var spans, reps := Holes(s, 0), [Replacement(goalId, expr)];
    var last := LastIndex(goalIds, goalId);
    forall k: nat
      ensures FillAt(goalIds, reps, k) == if k == last then Some(expr) else None
    {
      assert LastExpr(reps, goalId) == Some(expr);
      assert forall id :: id != goalId ==> LastExpr(reps, id) == LastExpr([], id);
    }
    if 0 <= last < |spans| {
      HolesAreMarkers(s, spans[last]);
      FilledAround(s, spans, goalIds, reps, 0, 0, last, expr);
      assert s[0..spans[last].start] == s[..spans[last].start];
    } else {
      NothingFilled(s, spans, goalIds, reps, 0, 0);
    }
  }

  lemma {:induction false} NothingFilled(s: Source, spans: seq<Span>, ids: seq<int>, reps: seq<Replacement>, k: nat, from: nat)
    requires k <= |spans| && InOrder(s, spans, k, from)
    requires forall l: nat :: k <= l < |spans| ==> FillAt(ids, reps, l).None?
    ensures Filled(s, spans, ids, reps, k, from) == s[from..]
    decreases |spans| - k
  {
    if k < |spans| {
      NothingFilled(s, spans, ids, reps, k + 1, spans[k].end);
      assert s[from..] == s[from..spans[k].start] + s[spans[k].start..spans[k].end] + s[spans[k].end..];
    }
  }

  lemma {:induction false} FilledAround(s: Source, spans: seq<Span>, ids: seq<int>, reps: seq<Replacement>,
                                        k: nat, from: nat, hit: nat, expr: Source)
    requires k <= hit < |spans| && InOrder(s, spans, k, from)
    requires forall l: nat :: k <= l < |spans| ==> FillAt(ids, reps, l) == if l == hit then Some(expr) else None
    ensures Filled(s, spans, ids, reps, k, from) == s[from..spans[hit].start] + expr + s[spans[hit].end..]
    decreases |spans| - k
  {
    var c := spans[k];
    if k == hit {
      NothingFilled(s, spans, ids, reps, k + 1, c.end);
    } else {
      FilledAround(s, spans, ids, reps, k + 1, c.end, hit, expr);
      assert s[from..spans[hit].start] == s[from..c.start] + s[c.start..c.end] + s[c.end..spans[hit].start];
    }
  }

  // So a batch of one and a single edit leave the same text when they aim at the same hole.
  lemma BatchOfOneIsASingleEdit(s: Source, goalIds: seq<int>, goalId: int, expr: Source)
    requires IndexOf(goalIds, goalId) == LastIndex(goalIds, goalId) || IndexOf(goalIds, goalId) >= |Holes(s, 0)|
    ensures var reps := [Replacement(goalId, expr)];
            var report := EditReport(s, goalIds, ReplaceHole(goalId, expr));
            (report.0.EditApplied? <==> BatchReport(s, goalIds, reps).message.AppliedSome?) &&
            (report.0.EditApplied? ==> report.1 == Substituted(s, goalIds, reps))
  {
    hide Holes, Filled, Utf8Length;
    TargetsAgree(s, goalIds, goalId);
    BatchOfOne(s, goalIds, goalId, expr);
    var reps := [Replacement(goalId, expr)];
    assert Requested(reps[..0]) == [];
    assert Requested(reps) == [goalId];
    assert Keep(goalIds, |Holes(s, 0)|, [goalId][..0], true) == [];
    assert Keep(goalIds, |Holes(s, 0)|, [goalId], true) ==
           if Located(goalIds, |Holes(s, 0)|, goalId) then [goalId] else [];
  }
}
