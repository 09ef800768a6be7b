/** Replacing one occurrence of a text in a file. */
module TextEdits {
  import opened Basics
  import opened CodeUnits
  import opened SourceFiles
  import GoalGrammar

  const NUL: CodeUnit := 0

  // ---- occurrences ----

  predicate MatchAt(s: Source, pattern: Source, k: nat) {
    k + |pattern| <= |s| && s[k..k + |pattern|] == pattern
  }

  // String.prototype.indexOf.
  function IndexFrom(s: Source, pattern: Source, from: nat): (r: Option<nat>)
    ensures r.Some? ==> from <= r.value && MatchAt(s, pattern, r.value)
    ensures forall k: nat :: from <= k && (r.Some? ==> k < r.value) ==> !MatchAt(s, pattern, k)
    decreases if from <= |s| then |s| - from else 0
  {
    if from + |pattern| > |s| then None
    else if MatchAt(s, pattern, from) then Some(from)
    else if from == |s| then None
    else IndexFrom(s, pattern, from + 1)
  }

  function Occurrences(s: Source, pattern: Source, from: nat): seq<nat>
    requires pattern != []
    decreases if from <= |s| then |s| - from else 0
  {
    match IndexFrom(s, pattern, from)
    case None => []
    case Some(k) => [k] + Occurrences(s, pattern, k + |pattern|)
  }

  predicate NoMatchIn(s: Source, pattern: Source, from: nat, end: nat) {
    forall k: nat :: from <= k < end ==> !MatchAt(s, pattern, k)
  }

  // The leftmost non-overlapping occurrences from an offset on: the first match, then those from its
  // end on; and no match is left behind the last.
  predicate LeftmostNonOverlapping(s: Source, pattern: Source, from: nat, os: seq<nat>)
    decreases |os|
  {
    if os == [] then NoMatchIn(s, pattern, from, |s| + 1)
    else
      from <= os[0] && MatchAt(s, pattern, os[0]) && NoMatchIn(s, pattern, from, os[0]) &&
      LeftmostNonOverlapping(s, pattern, os[0] + |pattern|, os[1..])
  }

  // The search finds exactly those.
  lemma {:induction false} OccurrencesAreLeftmost(s: Source, pattern: Source, from: nat, os: seq<nat>)
    requires pattern != []
    ensures os == Occurrences(s, pattern, from) <==> LeftmostNonOverlapping(s, pattern, from, os)
    decreases if from <= |s| then |s| - from else 0
  {
    hide MatchAt;
    match IndexFrom(s, pattern, from)
    case None =>
      assert os != [] ==> !(from <= os[0] && MatchAt(s, pattern, os[0]));
    case Some(k) =>
      assert NoMatchIn(s, pattern, from, k);
      assert k + |pattern| <= |s| by { MatchFits(s, pattern, k); }
      if os == [] {
        assert MatchAt(s, pattern, k) && from <= k < |s| + 1;
      } else if os[0] == k {
        OccurrencesAreLeftmost(s, pattern, k + |pattern|, os[1..]);
        assert os == [k] + os[1..];
      } else {
        assert os[0] < k || k < os[0];
      }
  }

  lemma MatchFits(s: Source, pattern: Source, k: nat)
    requires MatchAt(s, pattern, k)
    ensures k + |pattern| <= |s|
  {
  }

  method FindOccurrences(s: Source, pattern: Source) returns (os: seq<nat>)
    requires pattern != []
    ensures os == Occurrences(s, pattern, 0)
  {
    hide MatchAt;
    os := [];
    var searchFrom: nat := 0;
    while true
      invariant searchFrom <= |s|
      invariant os + Occurrences(s, pattern, searchFrom) == Occurrences(s, pattern, 0)
      decreases |s| - searchFrom
    {
      var index := IndexFrom(s, pattern, searchFrom);
      if index.None? { break; }
      MatchFits(s, pattern, index.value);
      os := os + [index.value];
      searchFrom := index.value + |pattern|;
    }
  }

  // A single occurrence in this sense is the only match exactly when no match overlaps it.
  lemma OnlyOccurrence(s: Source, pattern: Source, o: nat)
    requires pattern != [] && LeftmostNonOverlapping(s, pattern, 0, [o])
    ensures (forall k: nat :: MatchAt(s, pattern, k) ==> k == o) <==> NoMatchIn(s, pattern, o + 1, o + |pattern|)
  {
    hide MatchAt;
    assert NoMatchIn(s, pattern, 0, o) && NoMatchIn(s, pattern, o + |pattern|, |s| + 1);
    forall k: nat | MatchAt(s, pattern, k)
      ensures k <= |s|
    {
      MatchFits(s, pattern, k);
    }
  }

  // The case of an overlapped occurrence is accepted as unique: "aa" in "aaa".
  lemma OverlapsAreNotCounted()
    ensures var s: Source := [0x61, 0x61, 0x61];
            LeftmostNonOverlapping(s, [0x61, 0x61], 0, [0]) && MatchAt(s, [0x61, 0x61], 1)
  {
    var s: Source, os: seq<nat> := [0x61, 0x61, 0x61], [0];
    assert s[0..2] == [0x61, 0x61] && s[1..3] == [0x61, 0x61];
    assert os[1..] == [];
  }

  // ---- line ends ----

  // A newline without a carriage return in front of it.
  predicate BareLf(s: Source, k: nat) { Is(s, k, NEWLINE) && !(k > 0 && s[k - 1] == RETURN) }

  predicate NoBareLf(s: Source) { forall k :: 0 <= k < |s| ==> !BareLf(s, k) }

  // s.replace(/(?<!\r)\n/g, "\r\n") on the first n units.
  function Promoted(s: Source, n: nat): Source
    requires n <= |s|
  {
    if n == 0 then []
    else Promoted(s, n - 1) + (if BareLf(s, n - 1) then [RETURN, NEWLINE] else [s[n - 1]])
  }

  function NormalizeEol(s: Source, crlf: bool): Source { if crlf then Promoted(s, |s|) else s }

  lemma {:induction false} PromotedHasNoBareLf(s: Source, n: nat)
    requires n <= |s|
    ensures NoBareLf(Promoted(s, n))
    ensures (n == 0 <==> Promoted(s, n) == []) && (n > 0 ==> Promoted(s, n)[|Promoted(s, n)| - 1] == s[n - 1])
  {
    if n > 0 {
      PromotedHasNoBareLf(s, n - 1);
      var before, after := Promoted(s, n - 1), Promoted(s, n);
      assert forall k :: 0 <= k < |before| ==> after[k] == before[k];
      forall k | 0 <= k < |after|
        ensures !BareLf(after, k)
      {
        if k < |before| { assert !BareLf(before, k); }
      }
    }
  }

  // How many bare newlines stand before offset n.
  ghost function BareBefore(s: Source, n: nat): nat {
    |set k: nat | k < n && BareLf(s, k)|
  }

  lemma BareBeforeStep(s: Source, n: nat)
    ensures BareBefore(s, 0) == 0
    ensures BareBefore(s, n + 1) == BareBefore(s, n) + if BareLf(s, n) then 1 else 0
  {
    var before, here := set k: nat | k < n && BareLf(s, k), set k: nat | k < n + 1 && BareLf(s, k);
    assert here == if BareLf(s, n) then before + {n} else before;
    var none := set k: nat | k < 0 && BareLf(s, k);
    assert none == {};
  }

  // Unit k of the text, behind promotion, and the carriage return put in front of a bare newline.
  ghost predicate KeepsUnit(s: Source, p: Source, k: nat)
    requires k < |s|
  {
    && k + BareBefore(s, k + 1) < |p| && p[k + BareBefore(s, k + 1)] == s[k]
    && (BareLf(s, k) ==> BareBefore(s, k + 1) == BareBefore(s, k) + 1 && p[k + BareBefore(s, k)] == RETURN)
  }

  ghost predicate StandsFor(s: Source, j: nat, k: nat) {
    j == k + BareBefore(s, k + 1) || (BareLf(s, k) && j == k + BareBefore(s, k))
  }

  ghost predicate StandsForOne(s: Source, j: nat, n: nat) { exists k :: 0 <= k < n && StandsFor(s, j, k) }

  // Promotion puts one carriage return in front of each bare newline, and keeps every unit at the place
  // this leaves it; there is nothing else in the result.
  lemma {:induction false} PromotedKeepsUnits(s: Source, n: nat)
    requires n <= |s|
    ensures var p := Promoted(s, n);
            |p| == n + BareBefore(s, n) &&
            (forall k :: 0 <= k < n ==> KeepsUnit(s, p, k)) &&
            (forall j :: 0 <= j < |p| ==> StandsForOne(s, j, n))
    decreases n
  {
    hide BareBefore, BareLf;
    BareBeforeStep(s, 0);
    if n > 0 {
      PromotedKeepsUnits(s, n - 1);
      BareBeforeStep(s, n - 1);
      var before, p := Promoted(s, n - 1), Promoted(s, n);
      assert before <= p && |before| == n - 1 + BareBefore(s, n - 1);
      forall k | 0 <= k < n ensures KeepsUnit(s, p, k) {
        if k < n - 1 {
          assert KeepsUnit(s, before, k);
        } else {
          PromotedLast(s, n);
        }
      }
      forall j | 0 <= j < |p| ensures StandsForOne(s, j, n) {
        if j < |before| {
          assert StandsForOne(s, j, n - 1);
        } else {
          assert StandsFor(s, j, n - 1);
        }
      }
    }
  }

  lemma PromotedLast(s: Source, n: nat)
    requires 0 < n <= |s| && |Promoted(s, n - 1)| == n - 1 + BareBefore(s, n - 1)
    ensures KeepsUnit(s, Promoted(s, n), n - 1)
  {
    BareBeforeStep(s, n - 1);
  }

  lemma BareIsSpelled(s: Source, k: nat)
    ensures BareLf(s, k) <==> k < |s| && s[k] == 0x0A && (k == 0 || s[k - 1] != 0x0D)
  {
  }

  lemma NormalisedKeepsUnits(s: Source)
    ensures NormalizeEol(s, false) == s
    ensures var p := NormalizeEol(s, true);
            |p| == |s| + BareBefore(s, |s|) &&
            (forall k :: 0 <= k < |s| ==> KeepsUnit(s, p, k)) &&
            (forall j :: 0 <= j < |p| ==> StandsForOne(s, j, |s|))
    ensures NoBareLf(s) ==> NormalizeEol(s, true) == s
  {
    PromotedKeepsUnits(s, |s|);
    if NoBareLf(s) {
      PromotedWithoutBare(s, |s|);
      assert s[..|s|] == s;
    }
  }

  lemma {:induction false} PromotedWithoutBare(s: Source, n: nat)
    requires n <= |s| && NoBareLf(s)
    ensures Promoted(s, n) == s[..n]
    decreases n
  {
    if n > 0 { PromotedWithoutBare(s, n - 1); }
  }

  predicate EndsInReturn(s: Source) { s != [] && s[|s| - 1] == RETURN }

  // The text with the window of `length` units at offset t replaced.
  function Replaced(s: Source, t: nat, length: nat, replacement: Source): Source
    requires t + length <= |s|
  {
    s[..t] + replacement + s[t + length..]
  }

  lemma ReplacedUnits(s: Source, t: nat, length: nat, m: Source, k: nat)
    requires t + length <= |s| && k < |Replaced(s, t, length, m)|
    ensures Replaced(s, t, length, m)[k] ==
            if k < t then s[k] else if k < t + |m| then m[k - t] else s[k - |m| + length]
  {
  }

  // The one place where a bare newline can arise: the edit takes away the carriage return in front of
  // a newline and puts none in its stead.
  predicate TearsCrlf(s: Source, t: nat, oldText: Source, length: nat, newText: Source)
    requires t + length <= |s|
  {
    EndsInReturn(oldText) && Is(s, t + length, NEWLINE) &&
    (if newText != [] then !EndsInReturn(newText) else !EndsInReturn(s[..t]))
  }

  // In a file whose every newline follows a carriage return, an edit leaves no bare newline exactly
  // when it does not tear one of those pairs apart.
  lemma CrlfFilesStayCrlf(s: Source, t: nat, oldText: Source, newText: Source)
    requires NoBareLf(s) && UsesCrlf(s) && oldText != []
    requires MatchAt(s, NormalizeEol(oldText, true), t)
    ensures var length := |NormalizeEol(oldText, true)|;
            NoBareLf(Replaced(s, t, length, NormalizeEol(newText, true))) <==> !TearsCrlf(s, t, oldText, length, newText)
  {
    hide Replaced;
    var p, m := NormalizeEol(oldText, true), NormalizeEol(newText, true);
    PromotedHasNoBareLf(oldText, |oldText|);
    PromotedHasNoBareLf(newText, |newText|);
    var r := Replaced(s, t, |p|, m);
    assert |r| == |s| - |p| + |m| by { ReplacedLength(s, t, |p|, m); }
    assert s[t + |p| - 1] == p[|p| - 1];
    forall k | 0 <= k < |r|
      ensures BareLf(r, k) <==> k == t + |m| && TearsCrlf(s, t, oldText, |p|, newText)
    {
      ReplacedUnits(s, t, |p|, m, k);
      if k > 0 { ReplacedUnits(s, t, |p|, m, k - 1); }
      if k < t {
        assert !BareLf(s, k);
      } else if k < t + |m| {
        assert !BareLf(m, k - t);
      } else {
        assert !BareLf(s, k - |m| + |p|);
      }
    }
    if TearsCrlf(s, t, oldText, |p|, newText) { assert BareLf(r, t + |m|); }
  }

  lemma ReplacedLength(s: Source, t: nat, length: nat, m: Source)
    requires t + length <= |s|
    ensures |Replaced(s, t, length, m)| == |s| - length + |m|
  {
  }

  // In a file without any line end the text is taken over as it is: a newline of it is bare unless a
  // carriage return stands in front of it, in the text or, for a leading newline, in the file.
  predicate BringsBareLf(s: Source, t: nat, newText: Source)
    requires t <= |s|
  {
    exists k :: 0 <= k < |newText| && BareLf(newText, k) && (k == 0 ==> !EndsInReturn(s[..t]))
  }

  lemma NoLineEndsAtAll(s: Source)
    requires NoBareLf(s) && !UsesCrlf(s)
    ensures NEWLINE !in s
  {
    forall k | 0 <= k < |s|
      ensures s[k] != NEWLINE
    {
      assert !BareLf(s, k);
      if k > 0 { assert !Pair(s, k - 1, RETURN, NEWLINE); }
    }
  }

  lemma OneLineFilesTakeTheTextAsItIs(s: Source, t: nat, length: nat, newText: Source)
    requires NoBareLf(s) && !UsesCrlf(s) && t + length <= |s|
    ensures NoBareLf(Replaced(s, t, length, newText)) <==> !BringsBareLf(s, t, newText)
  {
    hide Replaced, UsesCrlf;
    NoLineEndsAtAll(s);
    var r := Replaced(s, t, length, newText);
    ReplacedLength(s, t, length, newText);
    forall k | 0 <= k < |r|
      ensures BareLf(r, k) <==>
              t <= k < t + |newText| && BareLf(newText, k - t) && (k == t ==> !EndsInReturn(s[..t]))
    {
      ReplacedUnits(s, t, length, newText, k);
      if k > 0 { ReplacedUnits(s, t, length, newText, k - 1); }
    }
    if BringsBareLf(s, t, newText) {
      var k :| 0 <= k < |newText| && BareLf(newText, k) && (k == 0 ==> !EndsInReturn(s[..t]));
      assert BareLf(r, t + k);
    }
  }

  // Where an edit leaves a bare newline in a file that has none.
  predicate LeavesBareLf(s: Source, t: nat, oldText: Source, newText: Source)
    requires t + |NormalizeEol(oldText, UsesCrlf(s))| <= |s|
  {
    if UsesCrlf(s) then TearsCrlf(s, t, oldText, |NormalizeEol(oldText, true)|, newText)
    else BringsBareLf(s, t, newText)
  }

  // In any file whose every newline follows a carriage return - also one that has no newline - an edit
  // leaves no bare newline exactly when it tears no pair apart and, where there is no pair, brings none.
  lemma EditsLeaveNoBareLf(s: Source, t: nat, oldText: Source, newText: Source)
    requires NoBareLf(s) && oldText != [] && MatchAt(s, NormalizeEol(oldText, UsesCrlf(s)), t)
    ensures var crlf := UsesCrlf(s);
            NoBareLf(Replaced(s, t, |NormalizeEol(oldText, crlf)|, NormalizeEol(newText, crlf))) <==>
            !LeavesBareLf(s, t, oldText, newText)
  {
    hide Replaced, NoBareLf, UsesCrlf, TearsCrlf, BringsBareLf, MatchAt;
    MatchFits(s, NormalizeEol(oldText, UsesCrlf(s)), t);
    if UsesCrlf(s) {
      CrlfFilesStayCrlf(s, t, oldText, newText);
    } else {
      OneLineFilesTakeTheTextAsItIs(s, t, |oldText|, newText);
    }
  }

  // A file without any line end does not count as a CRLF file: a newline in the new text goes in bare.
  lemma OneLineFilesAreNotNormalised()
    ensures var s: Source := [0x61];
            NoBareLf(s) && !UsesCrlf(s) && BareLf(Replaced(s, 0, 1, NormalizeEol([NEWLINE], UsesCrlf(s))), 0)
  {
    var s: Source := [0x61];
    assert !UsesCrlf(s);
    assert Replaced(s, 0, 1, [NEWLINE])[0] == NEWLINE;
  }

  // ---- the edit ----

  datatype EditFailure =
    | EmptyOldText | NulByte | Unreadable | NotFound | NoSuchOccurrence | Ambiguous | ExceedsCap

  datatype TextEditResult =
    | Applied(occurrences: nat, line: nat)
    | NotApplied(occurrences: nat, why: EditFailure)

  // The occurrence an edit is aimed at: the n-th when n is given, otherwise the only one.
  function Chosen(os: seq<nat>, occurrence: Option<int>): Option<nat> {
    match occurrence
    case Some(n) => if 1 <= n <= |os| then Some(os[n - 1]) else None
    case None => if |os| == 1 then Some(os[0]) else None
  }

  // The outcome on a readable file and, when the edit applies, the new text.
  function EditOutcome(s: Source, oldText: Source, newText: Source, occurrence: Option<int>): (TextEditResult, Source)
    requires oldText != []
  {
    var search, replacement := NormalizeEol(oldText, UsesCrlf(s)), NormalizeEol(newText, UsesCrlf(s));
    SearchIsNotEmpty(oldText, UsesCrlf(s));
    var os := Occurrences(s, search, 0);
    OccurrencesMatch(s, search, 0);
    if os == [] then (NotApplied(0, NotFound), s)
    else match Chosen(os, occurrence)
      case None => (NotApplied(|os|, if occurrence.Some? then NoSuchOccurrence else Ambiguous), s)
      case Some(t) =>
        assert t in os;
        var edited := Replaced(s, t, |search|, replacement);
        if Utf8Length(edited) > MAX_AGDA_SOURCE_BYTES then (NotApplied(|os|, ExceedsCap), s)
        else (Applied(|os|, 1 + GoalGrammar.NewlinesIn(s, 0, t)), edited)
  }

  lemma SearchIsNotEmpty(oldText: Source, crlf: bool)
    requires oldText != []
    ensures NormalizeEol(oldText, crlf) != []
  {
    PromotedHasNoBareLf(oldText, |oldText|);
  }

  lemma {:induction false} OccurrencesMatch(s: Source, pattern: Source, from: nat)
    requires pattern != []
    ensures forall t :: t in Occurrences(s, pattern, from) ==> MatchAt(s, pattern, t)
    decreases if from <= |s| then |s| - from else 0
  {
    if IndexFrom(s, pattern, from).Some? { OccurrencesMatch(s, pattern, IndexFrom(s, pattern, from).value + |pattern|); }
  }

  // An applied edit changes one window, a match of the searched text, and reports its line.
  lemma AppliedEditsChangeOneWindow(s: Source, oldText: Source, newText: Source, occurrence: Option<int>)
    requires oldText != [] && EditOutcome(s, oldText, newText, occurrence).0.Applied?
    ensures var search := NormalizeEol(oldText, UsesCrlf(s));
            var (result, edited) := EditOutcome(s, oldText, newText, occurrence);
            exists t: nat ::
              MatchAt(s, search, t) &&
              edited == Replaced(s, t, |search|, NormalizeEol(newText, UsesCrlf(s))) &&
              result.line == 1 + GoalGrammar.NewlinesIn(s, 0, t) &&
              result.occurrences == |Occurrences(s, search, 0)| > 0 &&
              Some(t) == Chosen(Occurrences(s, search, 0), occurrence)
  {
    hide Utf8Length, Replaced, Occurrences, UsesCrlf;
    var search := NormalizeEol(oldText, UsesCrlf(s));
    SearchIsNotEmpty(oldText, UsesCrlf(s));
    OccurrencesMatch(s, search, 0);
    var t := Chosen(Occurrences(s, search, 0), occurrence).value;
    assert t in Occurrences(s, search, 0);
  }

  // The outcome in full: nothing without a match; the n-th leftmost occurrence if one is asked for, and
  // the only one otherwise; nothing beyond half a mebibyte of UTF-8.
  lemma EditsExactly(s: Source, oldText: Source, newText: Source, occurrence: Option<int>, os: seq<nat>)
    requires oldText != []
    requires LeftmostNonOverlapping(s, NormalizeEol(oldText, UsesCrlf(s)), 0, os)
    ensures var search, replacement := NormalizeEol(oldText, UsesCrlf(s)), NormalizeEol(newText, UsesCrlf(s));
            var (result, edited) := EditOutcome(s, oldText, newText, occurrence);
            var n := if occurrence.Some? then occurrence.value else 1;
            var refused := if |os| == 0 then Some(NotFound)
                           else if occurrence.None? && |os| > 1 then Some(Ambiguous)
                           else if n < 1 || n > |os| then Some(NoSuchOccurrence) else None;
            if refused.Some? then result == NotApplied(|os|, refused.value) && edited == s
            else
              os[n - 1] + |search| <= |s| &&
              var whole := s[..os[n - 1]] + replacement + s[os[n - 1] + |search|..];
              if |AllBytes(CodePoints(whole))| > 524_288 then result == NotApplied(|os|, ExceedsCap) && edited == s
              else result == Applied(|os|, 1 + GoalGrammar.NewlinesIn(s, 0, os[n - 1])) && edited == whole
  {
    hide Utf8Length, Occurrences, UsesCrlf, NormalizeEol, LeftmostNonOverlapping, AllBytes, CodePoints;
    var search, replacement := NormalizeEol(oldText, UsesCrlf(s)), NormalizeEol(newText, UsesCrlf(s));
    SearchIsNotEmpty(oldText, UsesCrlf(s));
    OccurrencesAreLeftmost(s, search, 0, os);
    OccurrencesMatch(s, search, 0);
    var t := Chosen(os, occurrence);
    if t.Some? {
      assert t.value in os;
      Utf8LengthCountsBytes(Replaced(s, t.value, |search|, replacement));
    }
  }

  method ApplyTextEdit(file: SourceFile, oldText: Source, newText: Source, occurrence: Option<int>)
    returns (outcome: Outcome<TextEditResult>)
    modifies file`text
    ensures oldText == [] ==> outcome == Returned(NotApplied(0, EmptyOldText)) && file.text == old(file.text)
    ensures oldText != [] && (NUL in oldText || NUL in newText) ==>
              outcome == Returned(NotApplied(0, NulByte)) && file.text == old(file.text)
    ensures oldText != [] && NUL !in oldText && NUL !in newText && !file.readable ==>
              outcome == Returned(NotApplied(0, Unreadable)) && file.text == old(file.text)
    ensures oldText != [] && NUL !in oldText && NUL !in newText && file.readable ==>
              var expected := EditOutcome(old(file.text), oldText, newText, occurrence);
              if expected.0.Applied? && !file.writable
              then outcome == WriteThrew && file.text == old(file.text)
              else outcome == Returned(expected.0) && file.text == expected.1
  {
    hide Utf8Length, UsesCrlf, NormalizeEol, IndexFrom, Occurrences;
    if |oldText| == 0 { return Returned(NotApplied(0, EmptyOldText)); }
    if NUL in oldText || NUL in newText { return Returned(NotApplied(0, NulByte)); }
    var loaded := file.LoadForEdit();
    if loaded.None? { return Returned(NotApplied(0, Unreadable)); }
    var source := loaded.value;
    var fileUsesCrlf := UsesCrlf(source);
    var searchText, replacementText := NormalizeEol(oldText, fileUsesCrlf), NormalizeEol(newText, fileUsesCrlf);
    SearchIsNotEmpty(oldText, fileUsesCrlf);
    var occurrences := FindOccurrences(source, searchText);
    if |occurrences| == 0 { return Returned(NotApplied(0, NotFound)); }
    var targetIndex;
    if occurrence.Some? {
      if occurrence.value < 1 || occurrence.value > |occurrences| {
        return Returned(NotApplied(|occurrences|, NoSuchOccurrence));
      }
      targetIndex := occurrences[occurrence.value - 1];
    } else {
      if |occurrences| > 1 { return Returned(NotApplied(|occurrences|, Ambiguous)); }
      targetIndex := occurrences[0];
    }
    assert targetIndex in occurrences;
    assert MatchAt(source, searchText, targetIndex) by { OccurrencesMatch(source, searchText, 0); }
    var newSource := source[..targetIndex] + replacementText + source[targetIndex + |searchText|..];
    if Utf8Length(newSource) > MAX_AGDA_SOURCE_BYTES { return Returned(NotApplied(|occurrences|, ExceedsCap)); }
    var done := file.WriteAtomic(newSource);
    if !done { return WriteThrew; }
    var line := 1;
    for i := 0 to targetIndex
      invariant line == 1 + GoalGrammar.NewlinesIn(source, 0, i)
    {
      if source[i] == NEWLINE { line := line + 1; }
    }
    return Returned(Applied(|occurrences|, line));
  }
}
