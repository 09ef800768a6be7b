/** The least number of single-character edits between two texts. */
module EditScripts {
  import opened Basics
  import opened CodeUnits

  // Levenshtein's recurrence, on the last code units.
  function Distance(a: Source, b: Source): (d: nat)
    decreases |a| + |b|
  {
    if a == [] then |b|
    else if b == [] then |a|
    else
      var a', b' := a[..|a| - 1], b[..|b| - 1];
      Least(Distance(a, b') + 1, Distance(a', b) + 1,
            Distance(a', b') + (if a[|a| - 1] == b[|b| - 1] then 0 else 1))
  }

  function Least(x: nat, y: nat, z: nat): (m: nat)
    ensures m <= x && m <= y && m <= z && (m == x || m == y || m == z)
  {
    if x <= y && x <= z then x else if y <= z then y else z
  }

  datatype Edit = Insert(at: nat, unit: CodeUnit) | Delete(at: nat) | Substitute(at: nat, unit: CodeUnit)

  // One edit; None when it is out of range.
  function Apply(s: Source, e: Edit): Option<Source> {
    match e
    case Insert(at, u) => if at <= |s| then Some(s[..at] + [u] + s[at..]) else None
    case Delete(at) => if at < |s| then Some(s[..at] + s[at + 1..]) else None
    case Substitute(at, u) => if at < |s| then Some(s[at := u]) else None
  }

  function Perform(s: Source, script: seq<Edit>): Option<Source>
    decreases |script|
  {
    if script == [] then Some(s)
    else match Apply(s, script[0])
      case Some(t) => Perform(t, script[1..])
      case None => None
  }

  // b can be made from a with at most n edits.
  ghost predicate Reachable(a: Source, b: Source, n: nat) {
    exists script :: |script| <= n && Perform(a, script) == Some(b)
  }

  // ---- the distance is a metric ----

  lemma {:induction false} DistanceBounds(a: Source, b: Source)
    ensures Distance(a, b) <= |a| + |b|
    ensures |a| <= |b| + Distance(a, b) && |b| <= |a| + Distance(a, b)
    ensures Distance(a, b) == 0 <==> a == b
    decreases |a| + |b|
  {
    if a != [] && b != [] {
      var a', b' := a[..|a| - 1], b[..|b| - 1];
      DistanceBounds(a, b');
      DistanceBounds(a', b);
      DistanceBounds(a', b');
      assert a == a' + [a[|a| - 1]] && b == b' + [b[|b| - 1]];
    }
  }

  lemma {:induction false} Triangle(a: Source, b: Source, c: Source)
    ensures Distance(a, c) <= Distance(a, b) + Distance(b, c)
    decreases |a| + |b| + |c|
  {
    DistanceBounds(a, b);
    DistanceBounds(b, c);
    DistanceBounds(a, c);
    if a != [] && b != [] && c != [] {
      var a', b', c' := a[..|a| - 1], b[..|b| - 1], c[..|c| - 1];
      Triangle(a', b, c);
      Triangle(a, b, c');
      Triangle(a, b', c);
      Triangle(a, b', c');
      Triangle(a', b', c);
      Triangle(a', b', c');
    }
  }

  lemma {:induction false} SuffixShrinks(a: Source, b: Source, u: CodeUnit)
    ensures Distance(a + [u], b + [u]) <= Distance(a, b)
  {
    assert (a + [u])[..|a|] == a && (b + [u])[..|b|] == b;
  }

  lemma ApplyBeforeSuffix(s: Source, e: Edit, u: CodeUnit)
    requires Apply(s, e).Some?
    ensures Apply(s + [u], e) == Some(Apply(s, e).value + [u])
  {
    var su := s + [u];
    match e
    case Insert(at, v) => assert su[..at] + [v] + su[at..] == s[..at] + [v] + s[at..] + [u];
    case Delete(at) => assert su[..at] + su[at + 1..] == s[..at] + s[at + 1..] + [u];
    case Substitute(at, v) => assert su[at := v] == s[at := v] + [u];
  }

  lemma {:induction false} EditIsNear(s: Source, e: Edit)
    requires Apply(s, e).Some?
    ensures Distance(s, Apply(s, e).value) <= 1
    decreases |s|
  {
    if s != [] && Apply(s[..|s| - 1], e).Some? {
      hide Distance, Apply;
      var s', u := s[..|s| - 1], s[|s| - 1];
      assert s == s' + [u];
      EditIsNear(s', e);
      ApplyBeforeSuffix(s', e, u);
      SuffixShrinks(s', Apply(s', e).value, u);
    } else {
      LastEditIsNear(s, e);
    }
  }

  // An edit at the very end of a text.
  lemma LastEditIsNear(s: Source, e: Edit)
    requires Apply(s, e).Some? && (s == [] || Apply(s[..|s| - 1], e).None?)
    ensures Distance(s, Apply(s, e).value) <= 1
  {
    hide Distance;
    var t := Apply(s, e).value;
    match e
    case Insert(at, u) =>
      assert at == |s|;
      EditsAtTheEnd(s, u, u);
      EndsAreNear(s, u, u);
    case Delete(at) =>
      assert at == |s| - 1 && s == s[..at] + [s[at]];
      EditsAtTheEnd(s[..at], s[at], s[at]);
      EndsAreNear(s[..at], s[at], s[at]);
    case Substitute(at, u) =>
      assert at == |s| - 1 && s == s[..at] + [s[at]];
      EditsAtTheEnd(s[..at], s[at], u);
      EndsAreNear(s[..at], s[at], u);
  }

  lemma EndsAreNear(s: Source, u: CodeUnit, v: CodeUnit)
    ensures Distance(s, s + [u]) <= 1 && Distance(s + [u], s) <= 1 && Distance(s + [u], s + [v]) <= 1
  {
    DistanceBounds(s, s);
    assert (s + [u])[..|s|] == s && (s + [v])[..|s|] == s;
  }

  // No script is shorter than the distance.
  lemma {:induction false} ScriptsAreLongEnough(a: Source, b: Source, script: seq<Edit>)
    requires Perform(a, script) == Some(b)
    ensures Distance(a, b) <= |script|
    decreases |script|
  {
    if script == [] {
      DistanceBounds(a, b);
    } else {
      var t := Apply(a, script[0]).value;
      EditIsNear(a, script[0]);
      ScriptsAreLongEnough(t, b, script[1..]);
      Triangle(a, t, b);
    }
  }

  lemma {:induction false} PerformBeforeSuffix(s: Source, script: seq<Edit>, u: CodeUnit)
    requires Perform(s, script).Some?
    ensures Perform(s + [u], script) == Some(Perform(s, script).value + [u])
    decreases |script|
  {
    if script != [] {
      var t := Apply(s, script[0]).value;
      ApplyBeforeSuffix(s, script[0], u);
      PerformBeforeSuffix(t, script[1..], u);
    }
  }

  lemma {:induction false} PerformThen(s: Source, script: seq<Edit>, e: Edit)
    requires Perform(s, script).Some?
    ensures Perform(s, script + [e]) == Apply(Perform(s, script).value, e)
    decreases |script|
  {
    if script == [] {
      assert [] + [e] == [e];
    } else {
      assert (script + [e])[1..] == script[1..] + [e];
      PerformThen(Apply(s, script[0]).value, script[1..], e);
    }
  }

  // The recurrence's choices, read as edits, reach the target.
  lemma {:induction false} DistanceIsAttained(a: Source, b: Source) returns (script: seq<Edit>)
    ensures |script| == Distance(a, b) && Perform(a, script) == Some(b)
    decreases |a| + |b|
  {
    hide Perform, Apply;
    if a == [] && b == [] {
      script := [];
      NoEdits(a);
    } else if b != [] && (a == [] || Distance(a, b) == Distance(a, b[..|b| - 1]) + 1) {
      var before := DistanceIsAttained(a, b[..|b| - 1]);
      var e := Insert(|b| - 1, b[|b| - 1]);
      PerformThen(a, before, e);
      script := before + [e];
      EditsAtTheEnd(b[..|b| - 1], b[|b| - 1], b[|b| - 1]);
      assert b == b[..|b| - 1] + [b[|b| - 1]];
    } else if b == [] || Distance(a, b) == Distance(a[..|a| - 1], b) + 1 {
      var before := DistanceIsAttained(a[..|a| - 1], b);
      assert a == a[..|a| - 1] + [a[|a| - 1]];
      PerformBeforeSuffix(a[..|a| - 1], before, a[|a| - 1]);
      PerformThen(a, before, Delete(|b|));
      EditsAtTheEnd(b, a[|a| - 1], a[|a| - 1]);
      script := before + [Delete(|b|)];
    } else {
      var a', b', x, y := a[..|a| - 1], b[..|b| - 1], a[|a| - 1], b[|b| - 1];
      var before := DistanceIsAttained(a', b');
      assert a == a' + [x] && b == b' + [y];
      PerformBeforeSuffix(a', before, x);
      if x == y {
        script := before;
      } else {
        PerformThen(a, before, Substitute(|b'|, y));
        EditsAtTheEnd(b', x, y);
        script := before + [Substitute(|b'|, y)];
      }
    }
  }

  lemma NoEdits(a: Source)
    ensures Perform(a, []) == Some(a)
  {
  }

  lemma EditsAtTheEnd(s: Source, x: CodeUnit, y: CodeUnit)
    ensures Apply(s, Insert(|s|, y)) == Some(s + [y])
    ensures Apply(s + [x], Delete(|s|)) == Some(s)
    ensures Apply(s + [x], Substitute(|s|, y)) == Some(s + [y])
  {
    assert s[..|s|] + [y] + s[|s|..] == s + [y];
    assert (s + [x])[..|s|] + (s + [x])[|s| + 1..] == s;
    assert (s + [x])[|s| := y] == s + [y];
  }

  // The table's entries, in terms of their neighbours.
  lemma TableEntries(a: Source, b: Source, i: nat, j: nat)
    requires i <= |a| && j <= |b|
    ensures i == 0 ==> Distance(a[..i], b[..j]) == j
    ensures j == 0 ==> Distance(a[..i], b[..j]) == i
    ensures i > 0 && j > 0 ==>
              Distance(a[..i], b[..j]) ==
              Least(Distance(a[..i], b[..j - 1]) + 1, Distance(a[..i - 1], b[..j]) + 1,
                    Distance(a[..i - 1], b[..j - 1]) + if a[i - 1] == b[j - 1] then 0 else 1)
  {
    if i > 0 { assert a[..i][..i - 1] == a[..i - 1]; }
    if j > 0 { assert b[..j][..j - 1] == b[..j - 1]; }
  }

  // The recurrence computes the least number of edits.
  lemma DistanceIsLeast(a: Source, b: Source, n: nat)
    ensures Distance(a, b) <= n <==> Reachable(a, b, n)
  {
    var best := DistanceIsAttained(a, b);
    if Reachable(a, b, n) {
      var script :| |script| <= n && Perform(a, script) == Some(b);
      ScriptsAreLongEnough(a, b, script);
    }
  }

  // Every row of the table holds an entry no greater than the final one: what makes the early exit sound.
  lemma {:induction false} RowsReachTheEnd(a: Source, b: Source, i: nat) returns (j: nat)
    requires i <= |a|
    ensures j <= |b| && Distance(a[..i], b[..j]) <= Distance(a, b)
    decreases |a| + |b|
  {
    if i == |a| {
      assert a[..i] == a && b[..|b|] == b;
      j := |b|;
    } else if b == [] {
      j := 0;
    } else {
      var a', b' := a[..|a| - 1], b[..|b| - 1];
      assert a'[..i] == a[..i];
      if Distance(a, b) == Distance(a', b) + 1 {
        j := RowsReachTheEnd(a', b, i);
      } else if Distance(a, b) == Distance(a, b') + 1 {
        j := RowsReachTheEnd(a, b', i);
        assert b'[..j] == b[..j];
      } else {
        j := RowsReachTheEnd(a', b', i);
        assert b'[..j] == b[..j];
      }
    }
  }
}

/** Suggestions for mistyped flags and keys, and the merge of option lists. */
module Suggestions {
  import opened Basics
  import opened CodeUnits
  import opened EditScripts

  // What a capped distance may answer: the distance itself when it is within the cap, and otherwise
  // anything above the cap.
  predicate CappedDistance(a: Source, b: Source, cap: nat, d: nat) {
    if Distance(a, b) <= cap then d == Distance(a, b) else d > cap
  }

  function Abs(n: int): nat { if n < 0 then -n else n }

  // Fills one row of the table from the row above it.
  method FillRow(a: Source, b: Source, i: nat, prev: array<nat>, curr: array<nat>) returns (rowMin: nat)
    requires 1 <= i <= |a| && prev.Length == |b| + 1 && curr.Length == |b| + 1 && prev != curr
    requires forall j: nat :: j <= |b| ==> prev[j] == Distance(a[..i - 1], b[..j])
    modifies curr
    ensures forall j: nat :: j <= |b| ==> curr[j] == Distance(a[..i], b[..j])
    ensures forall j: nat :: j <= |b| ==> rowMin <= curr[j]
  {
    hide Distance;
    curr[0] := i;
    rowMin := i;
    TableEntries(a, b, i, 0);
    for j := 1 to |b| + 1
      invariant forall k: nat :: k < j ==> curr[k] == Distance(a[..i], b[..k]) && rowMin <= curr[k]
      invariant forall k: nat :: k <= |b| ==> prev[k] == Distance(a[..i - 1], b[..k])
    {
      var cost := if a[i - 1] == b[j - 1] then 0 else 1;
      curr[j] := Least(curr[j - 1] + 1, prev[j] + 1, prev[j - 1] + cost);
      TableEntries(a, b, i, j);
      if curr[j] < rowMin { rowMin := curr[j]; }
    }
  }

  // Two rows are enough; the one swapped in as the next target still holds stale entries.
  method EditDistanceWithCap(a: Source, b: Source, cap: nat) returns (d: nat)
    ensures CappedDistance(a, b, cap, d)
  {
    hide Distance;
    DistanceBounds(a, b);
    if Abs(|a| - |b|) > cap { return cap + 1; }
    if a == b { return 0; }
    var prev, curr := new nat[|b| + 1], new nat[|b| + 1];
    for j := 0 to |b| + 1
      invariant forall k: nat :: k < j ==> prev[k] == k
    {
      prev[j] := j;
    }
    forall j: nat | j <= |b|
      ensures prev[j] == Distance(a[..0], b[..j])
    {
      TableEntries(a, b, 0, j);
    }
    for i := 1 to |a| + 1
      invariant prev.Length == |b| + 1 && curr.Length == |b| + 1 && prev != curr
      invariant fresh(prev) && fresh(curr)
      invariant forall j: nat :: j <= |b| ==> prev[j] == Distance(a[..i - 1], b[..j])
    {
      var rowMin := FillRow(a, b, i, prev, curr);
      if rowMin > cap {
        var j := RowsReachTheEnd(a, b, i);
        return cap + 1;
      }
      prev, curr := curr, prev;
    }
    assert a[..|a|] == a && b[..|b|] == b;
    return prev[|b|];
  }

  // ---- the closest candidate ----

  const MAX_DISTANCE: nat := 2
  const MAX_KEY_DISTANCE: nat := 3

  // k is the first of the candidates that are closest to the key and within the cap.
  predicate FirstClosest(keys: seq<Source>, key: Source, cap: nat, k: nat) {
    && k < |keys| && Distance(key, keys[k]) <= cap
    && (forall j :: 0 <= j < |keys| ==> Distance(key, keys[k]) <= Distance(key, keys[j]))
    && (forall j :: 0 <= j < k ==> Distance(key, keys[k]) < Distance(key, keys[j]))
  }

  // The scan of a candidate list that both suggestion functions make.
  method ScanForClosest(keys: seq<Source>, key: Source, cap: nat) returns (best: Option<nat>)
    ensures best.Some? ==> FirstClosest(keys, key, cap, best.value)
    ensures best.None? ==> forall j :: 0 <= j < |keys| ==> Distance(key, keys[j]) > cap
  {
    hide Distance;
    best := None;
    var distance: nat := 0;
    for i := 0 to |keys|
      invariant best.None? ==> forall j :: 0 <= j < i ==> Distance(key, keys[j]) > cap
      invariant best.Some? ==> FirstClosest(keys[..i], key, cap, best.value)
      invariant best.Some? ==> best.value < i && distance == Distance(key, keys[best.value])
    {
      var dist := EditDistanceWithCap(key, keys[i], cap);
      if dist > cap { continue; }
      if best.None? || dist < distance {
        best, distance := Some(i), dist;
        if dist == 0 { return; }
      }
      assert keys[..i + 1] == keys[..i] + [keys[i]];
    }
    assert keys[..|keys|] == keys;
  }

  function StripDashes(s: Source): Source {
    if s != [] && s[0] == DASH then StripDashes(s[1..]) else s
  }

  function Dashes(n: nat): Source { seq(n, k => DASH) }

  // All dashes in front come off, and nothing else.
  lemma {:induction false} StripsLeadingDashes(s: Source)
    ensures StripDashes(s) == [] || StripDashes(s)[0] != DASH
    ensures exists n: nat :: s == Dashes(n) + StripDashes(s)
    decreases |s|
  {
    if s != [] && s[0] == DASH {
      StripsLeadingDashes(s[1..]);
      var n: nat :| s[1..] == Dashes(n) + StripDashes(s[1..]);
      assert s == Dashes(n + 1) + StripDashes(s);
    } else {
      assert s == Dashes(0) + StripDashes(s);
    }
  }

  // The form in which inputs and candidates are compared; `fold` is the lower-case mapping.
  function Key(fold: Source -> Source, s: Source): Source { fold(StripDashes(s)) }

  function Keys(fold: Source -> Source, flags: seq<Source>): (ks: seq<Source>)
    ensures |ks| == |flags| && forall k :: 0 <= k < |flags| ==> ks[k] == Key(fold, flags[k])
  {
    seq(|flags|, k requires 0 <= k < |flags| => Key(fold, flags[k]))
  }

  // The flag suggested is the first of the closest ones within two edits of the input; none is
  // suggested exactly when the input is blank or dashes only, or no flag is that close.
  method SuggestSimilarFlag(input: Source, flags: seq<Source>, fold: Source -> Source) returns (r: Option<Source>)
    ensures var key := Key(fold, TrimUnits(input));
            if TrimUnits(input) == [] || key == [] then r.None?
            else match r
              case Some(flag) =>
                exists k :: 0 <= k < |flags| && flags[k] == flag && FirstClosest(Keys(fold, flags), key, 2, k)
              case None =>
                forall k :: 0 <= k < |flags| ==> Distance(key, Key(fold, flags[k])) > 2
  {
    var trimmed := TrimUnits(input);
    if trimmed == [] { return None; }
    var stripped := Key(fold, trimmed);
    if stripped == [] { return None; }
    var best := ScanForClosest(Keys(fold, flags), stripped, MAX_DISTANCE);
    r := if best.Some? then Some(flags[best.value]) else None;
  }

  function Folded(fold: Source -> Source, keys: seq<Source>): (ks: seq<Source>)
    ensures |ks| == |keys| && forall k :: 0 <= k < |keys| ==> ks[k] == fold(keys[k])
  {
    seq(|keys|, k requires 0 <= k < |keys| => fold(keys[k]))
  }

  // An exact match that no earlier key equals is the first closest one.
  lemma ExactIsFirst(keys: seq<Source>, key: Source, cap: nat, i: nat, best: Option<nat>, distance: nat)
    requires i < |keys| && keys[i] == key
    requires best.None? ==> forall j :: 0 <= j < i ==> Distance(key, keys[j]) > cap
    requires best.Some? ==> FirstClosest(keys[..i], key, cap, best.value) && 0 < distance == Distance(key, keys[best.value])
    ensures FirstClosest(keys, key, cap, i)
  {
    hide Distance;
    DistanceBounds(key, key);
    if best.Some? {
      assert forall j :: 0 <= j < i ==> keys[..i][j] == keys[j];
    }
  }

  lemma KeepScanning(keys: seq<Source>, key: Source, cap: nat, i: nat, best: nat)
    requires i < |keys| && FirstClosest(keys[..i], key, cap, best)
    ensures FirstClosest(keys[..i + 1], key, cap, if Distance(key, keys[i]) < Distance(key, keys[best]) then i else best)
  {
    hide Distance;
    assert keys[..i + 1] == keys[..i] + [keys[i]];
  }

  // The same for configuration keys, with an exact match returned as soon as it is met.
  method SuggestRecognisedKey(input: Source, keys: seq<Source>, fold: Source -> Source) returns (r: Option<Source>)
    ensures var folded := Folded(fold, keys);
            match r
            case Some(key) =>
              exists k :: 0 <= k < |keys| && keys[k] == key && FirstClosest(folded, fold(input), 3, k)
            case None =>
              forall k :: 0 <= k < |keys| ==> Distance(fold(input), folded[k]) > 3
  {
    hide Distance;
    var inputLower := fold(input);
    ghost var folded := Folded(fold, keys);
    var best: Option<nat> := None;
    var distance: nat := 0;
    for i := 0 to |keys|
      invariant best.None? ==> forall j :: 0 <= j < i ==> Distance(inputLower, folded[j]) > MAX_KEY_DISTANCE
      invariant best.Some? ==> FirstClosest(folded[..i], inputLower, MAX_KEY_DISTANCE, best.value)
      invariant best.Some? ==> best.value < i && 0 < distance == Distance(inputLower, folded[best.value])
    {
      var candLower := fold(keys[i]);
      DistanceBounds(inputLower, candLower);
      if candLower == inputLower {
        ExactIsFirst(folded, inputLower, MAX_KEY_DISTANCE, i, best, distance);
        return Some(keys[i]);
      }
      if best.Some? { KeepScanning(folded, inputLower, MAX_KEY_DISTANCE, i, best.value); }
      assert folded[..i + 1] == folded[..i] + [folded[i]];
      var dist := EditDistanceWithCap(inputLower, candLower, MAX_KEY_DISTANCE);
      if dist <= MAX_KEY_DISTANCE && (best.None? || dist < distance) {
        best, distance := Some(i), dist;
      }
    }
    assert folded[..|keys|] == folded;
    r := if best.Some? then Some(keys[best.value]) else None;
  }

  // ---- merging option lists ----

  // The last occurrences of a list, in their order.
  function LastOccurrences(xs: seq<Source>): seq<Source> {
    if xs == [] then []
    else if xs[0] in xs[1..] then LastOccurrences(xs[1..])
    else [xs[0]] + LastOccurrences(xs[1..])
  }

  // Per-call options come last, so on a duplicate they win and keep their place.
  method MergeCommandLineOptions(projectDefaults: seq<Source>, perCallOptions: seq<Source>) returns (result: seq<Source>)
    ensures result == LastOccurrences(projectDefaults + perCallOptions)
  {
    var combined := projectDefaults + perCallOptions;
    var seen: set<Source> := {};
    result := [];
    var i := |combined|;
    while i > 0
      invariant 0 <= i <= |combined|
      invariant forall x :: x in seen <==> x in combined[i..]
      invariant result == LastOccurrences(combined[i..])
    {
      i := i - 1;
      assert combined[i..] == [combined[i]] + combined[i + 1..];
      if combined[i] !in seen {
        seen := seen + {combined[i]};
        result := [combined[i]] + result;
      }
    }
    assert combined[0..] == combined;
  }

  // Merging drops nothing and keeps no duplicate; a per-call option stands behind every project
  // default that the call does not repeat.
  lemma {:induction false} MergeKeepsEveryOptionOnce(xs: seq<Source>)
    ensures forall x :: x in LastOccurrences(xs) <==> x in xs
    ensures forall j, k :: 0 <= j < k < |LastOccurrences(xs)| ==> LastOccurrences(xs)[j] != LastOccurrences(xs)[k]
  {
    if xs != [] {
      MergeKeepsEveryOptionOnce(xs[1..]);
      assert xs == [xs[0]] + xs[1..];
    }
  }

  // From place n on, where y stands, x does not come again.
  predicate EndsBefore(xs: seq<Source>, x: Source, y: Source, n: nat) { n < |xs| && xs[n] == y && x !in xs[n..] }

  lemma EndsBeforeInFront(xs: seq<Source>, x: Source, y: Source, n: nat)
    requires xs != [] && EndsBefore(xs[1..], x, y, n)
    ensures EndsBefore(xs, x, y, n + 1)
  {
    assert xs[n + 1..] == xs[1..][n..];
  }

  lemma FirstEndsBefore(xs: seq<Source>, y: Source) returns (n: nat)
    requires xs != [] && xs[0] !in xs[1..] && y in xs[1..]
    ensures EndsBefore(xs, xs[0], y, n)
  {
    var m: nat :| m < |xs[1..]| && xs[1..][m] == y;
    assert forall k :: m <= k < |xs[1..]| ==> xs[1..][k] in xs[1..];
    EndsBeforeInFront(xs, xs[0], y, m);
    n := m + 1;
  }

  // What is kept stands in the order of the last occurrences.
  lemma {:induction false} MergeKeepsLastPlaces(xs: seq<Source>, j: nat, k: nat)
    requires j < k < |LastOccurrences(xs)|
    ensures exists n: nat :: EndsBefore(xs, LastOccurrences(xs)[j], LastOccurrences(xs)[k], n)
    decreases |xs|
  {
    hide EndsBefore;
    var kept, rest := LastOccurrences(xs), LastOccurrences(xs[1..]);
    var d := if xs[0] in xs[1..] then 0 else 1;
    assert kept[k] == rest[k - d];
    if j < d {
      assert rest[k - d] in rest;
      MergeKeepsEveryOptionOnce(xs[1..]);
      var n := FirstEndsBefore(xs, kept[k]);
      assert kept[j] == xs[0];
    } else {
      MergeKeepsLastPlaces(xs[1..], j - d, k - d);
      var n: nat :| EndsBefore(xs[1..], rest[j - d], rest[k - d], n);
      assert kept[j] == rest[j - d];
      EndsBeforeInFront(xs, rest[j - d], rest[k - d], n);
    }
  }

  lemma {:induction false} PerCallOptionsComeLast(project: seq<Source>, call: seq<Source>)
    ensures exists kept :: LastOccurrences(project + call) == kept + LastOccurrences(call) &&
                           forall x :: x in kept ==> x in project && x !in call
  {
    if project == [] {
      assert [] + call == call;
      assert [] + LastOccurrences(call) == LastOccurrences(call);
    } else {
      PerCallOptionsComeLast(project[1..], call);
      var all := project + call;
      assert all[1..] == project[1..] + call;
      var kept :| LastOccurrences(all[1..]) == kept + LastOccurrences(call) &&
                  forall x :: x in kept ==> x in project[1..] && x !in call;
      if all[0] in all[1..] {
        assert LastOccurrences(all) == kept + LastOccurrences(call);
      } else {
        assert all[0] !in call;
        assert LastOccurrences(all) == ([all[0]] + kept) + LastOccurrences(call);
      }
    }
  }
}
