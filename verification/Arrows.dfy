/** Reading the result type and the argument count off a printed type. */
module ArrowTypes {
  import opened Basics
  import opened CodeUnits

  const SPACE: CodeUnit := 0x20
  const ARROW: CodeUnit := 0x2192
  const GREATER: CodeUnit := 0x3E
  const OPEN_PAREN: CodeUnit := 0x28
  const CLOSE_PAREN: CodeUnit := 0x29
  const MAX_ROUNDS: nat := 100

  predicate IsOpen(u: CodeUnit) { u in {0x28, 0x7B, 0x5B} }

  predicate IsClose(u: CodeUnit) { u in {0x29, 0x7D, 0x5D} }

  // ---- what the source does ----

  function SkipSpaces(s: Source): (r: Source)
    ensures |r| <= |s|
  {
    if s != [] && IsSpaceCode(s[0]) then SkipSpaces(s[1..]) else s
  }

  // Every run of white space becomes one space.
  function Collapsed(s: Source): Source
    decreases |s|
  {
    if s == [] then []
    else if IsSpaceCode(s[0]) then [SPACE] + Collapsed(SkipSpaces(s[1..]))
    else [s[0]] + Collapsed(s[1..])
  }

  function NormalizeType(s: Source): Source { TrimUnits(Collapsed(s)) }

  predicate ArrowAt(s: Source, i: nat) { Is(s, i, ARROW) || Pair(s, i, DASH, GREATER) }

  // The pieces between top-level arrows, from a text whose first `|current|` units are already part of
  // a piece; the bracket depth never falls below 0.
  function PiecesFrom(s: Source, depth: nat, current: Source): (r: seq<Source>)
    ensures r != []
    decreases |s|
  {
    if s == [] then [current]
    else if IsOpen(s[0]) then PiecesFrom(s[1..], depth + 1, current + [s[0]])
    else if IsClose(s[0]) then PiecesFrom(s[1..], if depth > 0 then depth - 1 else 0, current + [s[0]])
    else if depth == 0 && s[0] == ARROW then [current] + PiecesFrom(s[1..], 0, [])
    else if depth == 0 && Pair(s, 0, DASH, GREATER) then [current] + PiecesFrom(s[2..], 0, [])
    else PiecesFrom(s[1..], depth, current + [s[0]])
  }

  function NonEmptyTrimmed(parts: seq<Source>): seq<Source> {
    if parts == [] then []
    else (if TrimUnits(parts[0]) != [] then [TrimUnits(parts[0])] else []) + NonEmptyTrimmed(parts[1..])
  }

  function Segments(s: Source): seq<Source> { NonEmptyTrimmed(PiecesFrom(s, 0, [])) }

  // Parenthesis depth after s, when it starts at depth and never closes more than it opened.
  function ParenDepth(s: Source, depth: nat): Option<nat>
    decreases |s|
  {
    if s == [] then Some(depth)
    else if s[0] == OPEN_PAREN then ParenDepth(s[1..], depth + 1)
    else if s[0] == CLOSE_PAREN then if depth == 0 then None else ParenDepth(s[1..], depth - 1)
    else ParenDepth(s[1..], depth)
  }

  // One pair of parentheses around the whole text.
  predicate Enclosed(t: Source) {
    |t| >= 2 && t[0] == OPEN_PAREN && t[|t| - 1] == CLOSE_PAREN && ParenDepth(t[1..|t| - 1], 0) == Some(0)
  }

  function StripParens(text: Source): Source
    decreases |text|
  {
    var t := TrimUnits(text);
    TrimNotLonger(text);
    if Enclosed(t) then StripParens(t[1..|t| - 1]) else t
  }

  lemma {:induction false} TrimNotLonger(s: Source)
    ensures |TrimUnits(s)| <= |s|
    decreases |s|
  {
    if s != [] && IsSpaceCode(s[0]) {
      TrimNotLonger(s[1..]);
    } else if s != [] && IsSpaceCode(s[|s| - 1]) {
      TrimNotLonger(s[..|s| - 1]);
    }
  }

  datatype Reduced = Reduced(resultType: Source, arity: nat)

  // The rounds of the reduction, each of which strips parentheses and splits once.
  function Reduce(cur: Source, arity: nat, rounds: nat): Reduced
    decreases rounds
  {
    if rounds == 0 then Reduced(cur, arity)
    else
      var stripped := StripParens(cur);
      var segments := Segments(stripped);
      if |segments| <= 1 then Reduced(stripped, arity)
      else Reduce(NormalizeType(segments[|segments| - 1]), arity + |segments| - 1, rounds - 1)
  }

  function ResultTypeOf(text: Source): Reduced { Reduce(NormalizeType(text), 0, MAX_ROUNDS) }

  // ---- the loops ----

  method SplitTopLevelArrows(text: Source) returns (segments: seq<Source>)
    ensures segments == Segments(text)
  {
    var parts: seq<Source> := [];
    var depth, start, i := 0, 0, 0;
    while i < |text|
      invariant 0 <= start <= i <= |text| && depth >= 0
      invariant PiecesFrom(text, 0, []) == parts + PiecesFrom(text[i..], depth, text[start..i])
    {
      var ch := text[i];
      assert text[i..][1..] == text[i + 1..];
      assert text[start..i] + [ch] == text[start..i + 1];
      if IsOpen(ch) {
        depth := depth + 1;
      } else if IsClose(ch) {
        depth := if depth > 0 then depth - 1 else 0;
      } else if depth == 0 && ch == ARROW {
        parts := parts + [text[start..i]];
        start := i + 1;
        assert text[i + 1..i + 1] == [];
      } else if depth == 0 && ch == DASH && i + 1 < |text| && text[i + 1] == GREATER {
        assert text[i..][2..] == text[i + 2..];
        parts := parts + [text[start..i]];
        start := i + 2;
        i := i + 1;
        assert text[i + 1..i + 1] == [];
      }
      i := i + 1;
    }
    assert text[i..] == [] && text[start..i] == text[start..];
    parts := parts + [text[start..]];
    segments := NonEmptyTrimmed(parts);
  }

  method StripOuterParens(text: Source) returns (t: Source)
    ensures t == StripParens(text)
  {
    t := TrimUnits(text);
    TrimTwice(text);
    while |t| > 0 && t[0] == OPEN_PAREN && t[|t| - 1] == CLOSE_PAREN
      invariant TrimUnits(t) == t && StripParens(t) == StripParens(text)
      decreases |t|
    {
      var enclosing := IsEnclosed(t);
      if !enclosing { break; }
      TrimNotLonger(t[1..|t| - 1]);
      TrimTwice(t[1..|t| - 1]);
      t := TrimUnits(t[1..|t| - 1]);
    }
  }

  // The inner scan: the depth returns to 0 at the last unit and not before.
  method IsEnclosed(t: Source) returns (r: bool)
    requires |t| > 0 && t[0] == OPEN_PAREN && t[|t| - 1] == CLOSE_PAREN
    ensures r == Enclosed(t)
  {
    var depth: int := 0;
    var enclosing := true;
    for i := 0 to |t|
      invariant i > 0 ==> (i < |t| ==> depth > 0) && depth >= 0
      invariant 0 < i < |t| ==> ParenDepth(t[1..|t| - 1], 0) == ParenDepth(t[i..|t| - 1], depth - 1)
      invariant i == |t| ==> (ParenDepth(t[1..|t| - 1], 0) == Some(0) <==> depth == 0)
      invariant i == 0 ==> depth == 0
    {
      if 0 < i < |t| - 1 { assert t[i..|t| - 1][1..] == t[i + 1..|t| - 1]; }
      if t[i] == OPEN_PAREN {
        depth := depth + 1;
      } else if t[i] == CLOSE_PAREN {
        depth := depth - 1;
        if depth == 0 && i < |t| - 1 { return false; }
      }
    }
    r := depth == 0;
  }

  lemma {:induction false} TrimTwice(s: Source)
    ensures TrimUnits(TrimUnits(s)) == TrimUnits(s)
    ensures StripParens(TrimUnits(s)) == StripParens(s)
    decreases |s|
  {
    if s != [] && IsSpaceCode(s[0]) {
      TrimTwice(s[1..]);
    } else if s != [] && IsSpaceCode(s[|s| - 1]) {
      TrimTwice(s[..|s| - 1]);
    }
  }

  method ResultTypeOfText(text: Source) returns (r: Reduced)
    ensures r == ResultTypeOf(text)
  {
    hide Reduce, StripParens, Segments, NormalizeType;
    var cur := NormalizeType(text);
    var arity: nat := 0;
    for guard := 0 to MAX_ROUNDS
      invariant ResultTypeOf(text) == Reduce(cur, arity, MAX_ROUNDS - guard)
    {
      ReduceOnce(cur, arity, MAX_ROUNDS - guard);
      var stripped := StripOuterParens(cur);
      var segments := SplitTopLevelArrows(stripped);
      if |segments| <= 1 { return Reduced(stripped, arity); }
      arity := arity + |segments| - 1;
      cur := NormalizeType(segments[|segments| - 1]);
    }
    ReduceNothing(cur, arity);
    r := Reduced(cur, arity);
  }

  lemma ReduceNothing(cur: Source, arity: nat)
    ensures Reduce(cur, arity, 0) == Reduced(cur, arity)
  {
  }

  lemma ReduceOnce(cur: Source, arity: nat, rounds: nat)
    requires rounds > 0
    ensures var stripped := StripParens(cur);
            var segments := Segments(stripped);
            Reduce(cur, arity, rounds) ==
            if |segments| <= 1 then Reduced(stripped, arity)
            else Reduce(NormalizeType(segments[|segments| - 1]), arity + |segments| - 1, rounds - 1)
  {
  }

  // ---- what the parts mean on any text ----

  lemma BracketsAreSpelled(u: CodeUnit)
    ensures IsOpen(u) <==> u in Units("([{")
    ensures IsClose(u) <==> u in Units(")]}")
  {
    assert Units("([{") == [0x28, 0x5B, 0x7B] && Units(")]}") == [0x29, 0x5D, 0x7D];
  }

  // The bracket level behind a text; a bracket that closes nothing leaves it at 0.
  function Level(s: Source): nat {
    if s == [] then 0
    else
      var before, u := Level(s[..|s| - 1]), s[|s| - 1];
      if IsOpen(u) then before + 1 else if IsClose(u) && before > 0 then before - 1 else before
  }

  // An arrow outside all brackets.
  predicate TopArrow(s: Source, i: nat) {
    i < |s| && Level(s[..i]) == 0 && (s[i] == 0x2192 || (i + 1 < |s| && s[i] == 0x2D && s[i + 1] == 0x3E))
  }

  function ArrowLength(s: Source, i: nat): nat { if Is(s, i, ARROW) then 1 else 2 }

  // The pieces from `start` on are what stands between the arrows at these offsets.
  predicate CutsAt(s: Source, start: nat, pieces: seq<Source>, cuts: seq<nat>)
    decreases |cuts|
  {
    if cuts == [] then start <= |s| && pieces == [s[start..]]
    else
      start <= cuts[0] && cuts[0] + ArrowLength(s, cuts[0]) <= |s| && pieces != [] && pieces[0] == s[start..cuts[0]] &&
      CutsAt(s, cuts[0] + ArrowLength(s, cuts[0]), pieces[1..], cuts[1..])
  }

  // The text is cut at exactly its top-level arrows, and these are all that is lost.
  lemma PiecesExactly(s: Source) returns (cuts: seq<nat>)
    ensures CutsAt(s, 0, PiecesFrom(s, 0, []), cuts)
    ensures forall j: nat :: j in cuts <==> TopArrow(s, j)
    ensures forall j, k :: 0 <= j < k < |cuts| ==> cuts[j] < cuts[k]
  {
    assert s[0..] == s && s[0..0] == [] && s[..0] == [];
    cuts := PiecesBehind(s, 0, 0);
  }

  lemma {:induction false} PiecesBehind(s: Source, i: nat, start: nat) returns (cuts: seq<nat>)
    requires start <= i <= |s|
    ensures CutsAt(s, start, PiecesFrom(s[i..], Level(s[..i]), s[start..i]), cuts)
    ensures forall j: nat :: j in cuts <==> i <= j && TopArrow(s, j)
    ensures forall j, k :: 0 <= j < k < |cuts| ==> cuts[j] < cuts[k]
    decreases |s| - i, 1
  {
    if i == |s| {
      cuts := [];
      assert s[start..i] == s[start..];
    } else {
      LevelBehind(s, i);
      assert s[i..][0] == s[i] && s[i..][1..] == s[i + 1..] && s[start..i] + [s[i]] == s[start..i + 1];
      if TopArrow(s, i) {
        cuts := CutHere(s, i, start);
      } else {
        cuts := PiecesBehind(s, i + 1, start);
      }
    }
  }

  lemma {:induction false} CutHere(s: Source, i: nat, start: nat) returns (cuts: seq<nat>)
    requires start <= i < |s| && TopArrow(s, i)
    ensures CutsAt(s, start, PiecesFrom(s[i..], 0, s[start..i]), cuts)
    ensures forall j: nat :: j in cuts <==> i <= j && TopArrow(s, j)
    ensures forall j, k :: 0 <= j < k < |cuts| ==> cuts[j] < cuts[k]
    decreases |s| - i, 0
  {
    var n := ArrowLength(s, i);
    LevelBehind(s, i);
    if n == 2 { LevelBehind(s, i + 1); }
    assert n == 2 ==> !TopArrow(s, i + 1);
    CutOff(s, i, s[start..i]);
    assert s[i + n..i + n] == [];
    var more := PiecesBehind(s, i + n, i + n);
    cuts := [i] + more;
    var pieces := PiecesFrom(s[i..], 0, s[start..i]);
    assert pieces[1..] == PiecesFrom(s[i + n..], 0, []) && cuts[1..] == more;
    hide CutsAt, PiecesFrom, TopArrow, Level;
    CutsMore(s, start, pieces, cuts);
  }

  lemma CutOff(s: Source, i: nat, current: Source)
    requires TopArrow(s, i)
    ensures i + ArrowLength(s, i) <= |s|
    ensures PiecesFrom(s[i..], 0, current) == [current] + PiecesFrom(s[i + ArrowLength(s, i)..], 0, [])
  {
    var rest := s[i..];
    assert rest[0] == s[i] && rest[1..] == s[i + 1..] && (i + 1 < |s| ==> rest[1] == s[i + 1] && rest[2..] == s[i + 2..]);
  }

  lemma CutsMore(s: Source, start: nat, pieces: seq<Source>, cuts: seq<nat>)
    requires cuts != [] && pieces != [] && start <= cuts[0] && cuts[0] + ArrowLength(s, cuts[0]) <= |s|
    requires pieces[0] == s[start..cuts[0]]
    requires CutsAt(s, cuts[0] + ArrowLength(s, cuts[0]), pieces[1..], cuts[1..])
    ensures CutsAt(s, start, pieces, cuts)
  {
  }

  lemma LevelBehind(s: Source, i: nat)
    requires i < |s|
    ensures Level(s[..i + 1]) ==
            if IsOpen(s[i]) then Level(s[..i]) + 1
            else if IsClose(s[i]) && Level(s[..i]) > 0 then Level(s[..i]) - 1 else Level(s[..i])
  {
    assert s[..i + 1][..i] == s[..i];
  }

  // Segments are the pieces with their margins off, those without any text left out.
  lemma {:induction false} SegmentsArePieces(a: seq<Source>, b: seq<Source>, piece: Source)
    ensures NonEmptyTrimmed(a + b) == NonEmptyTrimmed(a) + NonEmptyTrimmed(b)
    ensures NonEmptyTrimmed([piece]) == if AllSpaceUnits(piece) then [] else [TrimUnits(piece)]
    decreases |a|
  {
    var left, core, right := EveryUnitsHaveMargins(piece);
    if core != [] { assert piece[|left|] == core[0]; }
    assert [piece][1..] == [];
    if a == [] {
      assert a + b == b;
    } else {
      assert (a + b)[1..] == a[1..] + b;
      SegmentsArePieces(a[1..], b, piece);
    }
  }

  // Opening parentheses less closing ones.
  function Balance(s: Source): int {
    if s == [] then 0
    else (if s[0] == OPEN_PAREN then 1 else if s[0] == CLOSE_PAREN then -1 else 0) + Balance(s[1..])
  }

  lemma {:induction false} ParenDepthIsBalance(s: Source, depth: nat)
    ensures ParenDepth(s, depth).Some? <==> forall k :: 0 <= k <= |s| ==> depth + Balance(s[..k]) >= 0
    ensures ParenDepth(s, depth).Some? ==> ParenDepth(s, depth).value == depth + Balance(s)
    decreases |s|
  {
    if s != [] {
      var u := if s[0] == OPEN_PAREN then 1 else if s[0] == CLOSE_PAREN then -1 else 0;
      forall k | 0 < k <= |s| ensures Balance(s[..k]) == u + Balance(s[1..][..k - 1]) {
        assert s[..k][1..] == s[1..][..k - 1];
      }
      if depth + u >= 0 {
        ParenDepthIsBalance(s[1..], depth + u);
        if forall k :: 0 <= k <= |s| ==> depth + Balance(s[..k]) >= 0 {
          forall k | 0 <= k <= |s[1..]| ensures depth + u + Balance(s[1..][..k]) >= 0 {
            assert depth + Balance(s[..k + 1]) >= 0;
          }
        }
      } else {
        assert s[1..][..0] == [];
        assert depth + Balance(s[..1]) < 0;
      }
    }
  }

  // One pair encloses the text exactly if the first parenthesis is closed by the last and by none before.
  lemma EnclosedExactly(t: Source)
    ensures Enclosed(t) <==>
            |t| >= 2 && t[0] == OPEN_PAREN && t[|t| - 1] == CLOSE_PAREN &&
            Balance(t) == 0 && forall k :: 1 <= k < |t| ==> Balance(t[..k]) >= 1
  {
    if |t| >= 2 && t[0] == OPEN_PAREN && t[|t| - 1] == CLOSE_PAREN {
      var inner := t[1..|t| - 1];
      ParenDepthIsBalance(inner, 0);
      forall k | 0 <= k <= |inner| ensures Balance(t[..k + 1]) == 1 + Balance(inner[..k]) {
        assert t[..k + 1][1..] == inner[..k];
      }
      assert inner[..|inner|] == inner;
      assert t == t[..|t| - 1] + [CLOSE_PAREN];
      BalanceOfConcat(t[..|t| - 1], [CLOSE_PAREN]);
      assert [CLOSE_PAREN][1..] == [];
      if forall k :: 1 <= k < |t| ==> Balance(t[..k]) >= 1 {
        forall k | 0 <= k <= |inner| ensures Balance(inner[..k]) >= 0 {
          assert Balance(t[..k + 1]) >= 1;
        }
      }
      if Enclosed(t) {
        forall k | 1 <= k < |t| ensures Balance(t[..k]) >= 1 {
          assert Balance(inner[..k - 1]) >= 0 && Balance(t[..k - 1 + 1]) == 1 + Balance(inner[..k - 1]);
        }
      }
    }
  }

  lemma {:induction false} BalanceOfConcat(a: Source, b: Source)
    ensures Balance(a + b) == Balance(a) + Balance(b)
    decreases |a|
  {
    if a == [] {
      assert a + b == b;
    } else {
      assert (a + b)[1..] == a[1..] + b;
      BalanceOfConcat(a[1..], b);
    }
  }

  // Margins and enclosing pairs around `core`, and nothing else.
  ghost predicate Around(text: Source, core: Source)
    decreases |text|
  {
    || (exists left, right :: AllSpaceUnits(left) && AllSpaceUnits(right) && text == left + core + right)
    || (exists left, inner, right ::
          |inner| < |text| && AllSpaceUnits(left) && AllSpaceUnits(right) && Enclosed([OPEN_PAREN] + inner + [CLOSE_PAREN])
          && text == left + ([OPEN_PAREN] + inner + [CLOSE_PAREN]) + right && Around(inner, core))
  }

  lemma EnclosedIsLong(t: Source)
    requires Enclosed(t)
    ensures |t| >= 2 && t[0] == OPEN_PAREN && t[|t| - 1] == CLOSE_PAREN
  {
  }

  // Stripping takes those off, and leaves no margin and no enclosing pair.
  lemma {:induction false} StripsExactly(text: Source)
    ensures Around(text, StripParens(text))
    ensures IsTrimmedUnits(StripParens(text)) && !Enclosed(StripParens(text))
    decreases |text|
  {
    hide Enclosed, TrimUnits;
    var left, core, right := EveryUnitsHaveMargins(text);
    if Enclosed(core) {
      EnclosedIsLong(core);
      var inner := core[1..|core| - 1];
      assert core == [OPEN_PAREN] + inner + [CLOSE_PAREN];
      StripsExactly(inner);
      assert Around(inner, StripParens(text));
    } else {
      assert text == left + core + right;
    }
  }

  // ---- white space ----

  predicate IsWord(w: Source) { w != [] && forall k :: 0 <= k < |w| ==> !IsSpaceCode(w[k]) }

  predicate IsGap(g: Source) { g != [] && AllSpaceUnits(g) }

  function Spread(words: seq<Source>, gaps: seq<Source>): Source
    requires words != [] && |gaps| == |words| - 1
  {
    if |words| == 1 then words[0] else words[0] + gaps[0] + Spread(words[1..], gaps[1..])
  }

  // Normalising a text puts one space between its words and none around them, whatever stood there.
  lemma NormalizedWords(left: Source, words: seq<Source>, gaps: seq<Source>, right: Source)
    requires AllSpaceUnits(left) && AllSpaceUnits(right) && words != [] && |gaps| == |words| - 1
    requires (forall k :: 0 <= k < |words| ==> IsWord(words[k])) && forall k :: 0 <= k < |gaps| ==> IsGap(gaps[k])
    ensures NormalizeType(left + Spread(words, gaps) + right) == Join(words, [SPACE])
  {
    hide Collapsed, TrimUnits, Spread, Join, IsWord, IsGap;
    var text, joined := Spread(words, gaps), Join(words, [SPACE]);
    var l, r: Source := if left == [] then [] else [SPACE], if right == [] then [] else [SPACE];
    SpreadStarts(words, gaps);
    CollapsedSpread(words, gaps, right);
    JoinIsTrimmed(words);
    assert r == if right == [] then [] else [SPACE];
    CollapsedMargins(left, text, right, joined);
    TrimUnitsRemovesMargins(l, joined, r);
  }

  lemma CollapsedMargins(left: Source, text: Source, right: Source, joined: Source)
    requires AllSpaceUnits(left) && text != [] && !IsSpaceCode(text[0])
    requires Collapsed(text + right) == joined + if right == [] then [] else [SPACE]
    ensures Collapsed(left + text + right) ==
            (if left == [] then [] else [SPACE]) + joined + (if right == [] then [] else [SPACE])
  {
    hide Collapsed;
    assert left + text + right == left + (text + right);
    assert (text + right)[0] == text[0];
    CollapsedGap(left, text + right);
  }

  lemma {:induction false} SpreadStarts(words: seq<Source>, gaps: seq<Source>)
    requires words != [] && |gaps| == |words| - 1 && forall k :: 0 <= k < |words| ==> IsWord(words[k])
    ensures Spread(words, gaps) != [] && !IsSpaceCode(Spread(words, gaps)[0])
  {
    assert IsWord(words[0]);
  }

  lemma {:induction false} CollapsedGap(gap: Source, rest: Source)
    requires AllSpaceUnits(gap) && (rest == [] || !IsSpaceCode(rest[0]))
    ensures Collapsed(gap + rest) == (if gap == [] then [] else [SPACE]) + Collapsed(rest)
    ensures SkipSpaces(gap + rest) == rest
    decreases |gap|
  {
    if gap == [] {
      assert gap + rest == rest;
    } else {
      assert (gap + rest)[1..] == gap[1..] + rest;
      CollapsedGap(gap[1..], rest);
    }
  }

  lemma {:induction false} CollapsedWord(word: Source, rest: Source)
    requires forall k :: 0 <= k < |word| ==> !IsSpaceCode(word[k])
    ensures Collapsed(word + rest) == word + Collapsed(rest)
    decreases |word|
  {
    if word == [] {
      assert word + rest == rest;
    } else {
      assert (word + rest)[1..] == word[1..] + rest;
      CollapsedWord(word[1..], rest);
    }
  }

  lemma {:induction false} CollapsedSpread(words: seq<Source>, gaps: seq<Source>, right: Source)
    requires AllSpaceUnits(right) && words != [] && |gaps| == |words| - 1
    requires (forall k :: 0 <= k < |words| ==> IsWord(words[k])) && forall k :: 0 <= k < |gaps| ==> IsGap(gaps[k])
    ensures Collapsed(Spread(words, gaps) + right) == Join(words, [SPACE]) + if right == [] then [] else [SPACE]
    decreases |words|
  {
    assert IsWord(words[0]);
    if |words| == 1 {
      CollapsedWord(words[0], right);
      CollapsedGap(right, []);
      assert right + [] == right;
    } else {
      var rest := Spread(words[1..], gaps[1..]);
      SpreadStarts(words[1..], gaps[1..]);
      assert words[0] + gaps[0] + rest + right == words[0] + (gaps[0] + (rest + right));
      assert (rest + right)[0] == rest[0];
      CollapsedWord(words[0], gaps[0] + (rest + right));
      assert IsGap(gaps[0]);
      CollapsedGap(gaps[0], rest + right);
      CollapsedSpread(words[1..], gaps[1..], right);
      hide Collapsed, Spread;
    }
  }

  lemma {:induction false} JoinIsTrimmed(words: seq<Source>)
    requires words != [] && forall k :: 0 <= k < |words| ==> IsWord(words[k])
    ensures Join(words, [SPACE]) != [] && IsTrimmedUnits(Join(words, [SPACE]))
    decreases |words|
  {
    assert IsWord(words[0]);
    if |words| > 1 { JoinIsTrimmed(words[1..]); }
  }

  // ---- printed types ----

  /** A type: an atom, or an arrow whose result may be printed inside some pairs of parentheses. */
  datatype Ty = Atom(text: Source) | Arrow(arg: Ty, ascii: bool, parens: nat, result: Ty)

  function Wrapped(s: Source, pairs: nat): Source {
    if pairs == 0 then s else [OPEN_PAREN] + Wrapped(s, pairs - 1) + [CLOSE_PAREN]
  }

  function ArrowText(ascii: bool): Source { if ascii then [DASH, GREATER] else [ARROW] }

  function Printed(t: Ty): Source
    decreases t, 0
  {
    match t
    case Atom(text) => text
    case Arrow(arg, ascii, parens, result) =>
      PrintedArgument(arg) + [SPACE] + ArrowText(ascii) + [SPACE] + Wrapped(Printed(result), parens)
  }

  // An arrow in argument position is always parenthesised.
  function PrintedArgument(t: Ty): Source
    decreases t, 1
  {
    if t.Arrow? then [OPEN_PAREN] + Printed(t) + [CLOSE_PAREN] else Printed(t)
  }

  // Bracket depth over a text that holds no arrow at depth 0 and closes nothing it did not open.
  function Depth(s: Source, depth: nat): Option<nat>
    decreases |s|
  {
    if s == [] then Some(depth)
    else if IsOpen(s[0]) then Depth(s[1..], depth + 1)
    else if IsClose(s[0]) then if depth == 0 then None else Depth(s[1..], depth - 1)
    else if depth == 0 && ArrowAt(s, 0) then None
    else Depth(s[1..], depth)
  }

  // White space is single spaces, none of them at an end.
  predicate Clean(s: Source) {
    && s != [] && !IsSpaceCode(s[0]) && !IsSpaceCode(s[|s| - 1])
    && forall k :: 0 <= k < |s| - 1 && IsSpaceCode(s[k]) ==> s[k] == SPACE && !IsSpaceCode(s[k + 1])
  }

  // The atoms that can be told apart: balanced, clean, without an arrow of their own.
  predicate IsAtomText(s: Source) {
    Clean(s) && Depth(s, 0) == Some(0) && ParenDepth(s, 0) == Some(0)
  }

  // The atom a type ends in must not look like a parenthesised type.
  predicate Printable(t: Ty)
    decreases t, 0
  {
    match t
    case Atom(text) => IsAtomText(text) && !Enclosed(text)
    case Arrow(arg, _, _, result) => PrintableArgument(arg) && Printable(result)
  }

  predicate PrintableArgument(t: Ty)
    decreases t, 1
  {
    match t
    case Atom(text) => IsAtomText(text)
    case Arrow(_, _, _, _) => Printable(t)
  }

  function Final(t: Ty): Source { if t.Atom? then t.text else Final(t.result) }

  function SpineLength(t: Ty): nat { if t.Atom? then 0 else 1 + SpineLength(t.result) }

  // How many results along the spine are printed in parentheses.
  function Groups(t: Ty): nat {
    if t.Atom? then 0 else (if t.parens > 0 then 1 else 0) + Groups(t.result)
  }

  // ---- cleanliness ----

  lemma {:induction false} CleanCollapses(s: Source)
    requires forall k :: 0 <= k < |s| - 1 && IsSpaceCode(s[k]) ==> s[k] == SPACE && !IsSpaceCode(s[k + 1])
    requires s != [] ==> !IsSpaceCode(s[|s| - 1])
    ensures Collapsed(s) == s
    decreases |s|
  {
    if s != [] {
      CleanCollapses(s[1..]);
      assert s == [s[0]] + s[1..];
      if IsSpaceCode(s[0]) { assert SkipSpaces(s[1..]) == s[1..]; }
    }
  }

  lemma CleanIsNormal(s: Source)
    requires Clean(s)
    ensures NormalizeType(s) == s && TrimUnits(s) == s
  {
    CleanCollapses(s);
  }

  lemma CleanJoin(a: Source, b: Source)
    requires Clean(a) && Clean(b)
    ensures Clean(a + [SPACE] + b)
  {
    var s := a + [SPACE] + b;
    forall k | 0 <= k < |s| - 1 && IsSpaceCode(s[k])
      ensures s[k] == SPACE && !IsSpaceCode(s[k + 1])
    {
      if k < |a| { assert s[k] == a[k]; }
      if k > |a| { assert s[k] == b[k - |a| - 1] && s[k + 1] == b[k - |a|]; }
    }
  }

  lemma {:induction false} CleanWrapped(s: Source, pairs: nat)
    requires Clean(s)
    ensures Clean(Wrapped(s, pairs))
  {
    if pairs > 0 {
      CleanWrapped(s, pairs - 1);
      var w := Wrapped(s, pairs - 1);
      assert forall k :: 1 <= k <= |w| ==> Wrapped(s, pairs)[k] == w[k - 1];
    }
  }

  lemma {:induction false} PrintedIsClean(t: Ty)
    requires Printable(t)
    ensures Clean(Printed(t))
    decreases t, 0
  {
    if t.Arrow? {
      ArgumentIsClean(t.arg);
      PrintedIsClean(t.result);
      CleanWrapped(Printed(t.result), t.parens);
      CleanJoin(PrintedArgument(t.arg), ArrowText(t.ascii));
      CleanJoin(PrintedArgument(t.arg) + [SPACE] + ArrowText(t.ascii), Wrapped(Printed(t.result), t.parens));
    }
  }

  lemma {:induction false} ArgumentIsClean(t: Ty)
    requires PrintableArgument(t)
    ensures Clean(PrintedArgument(t))
    decreases t, 1
  {
    if t.Arrow? {
      PrintedIsClean(t);
      CleanWrapped(Printed(t), 1);
      assert Wrapped(Printed(t), 1) == [OPEN_PAREN] + Wrapped(Printed(t), 0) + [CLOSE_PAREN];
    }
  }

  // ---- depth ----

  lemma {:induction false} ParenDepthRises(s: Source, depth: nat)
    requires ParenDepth(s, depth).Some?
    ensures ParenDepth(s, depth + 1) == Some(ParenDepth(s, depth).value + 1)
    decreases |s|
  {
    if s != [] {
      ParenDepthRises(s[1..], if s[0] == OPEN_PAREN then depth + 1 else if s[0] == CLOSE_PAREN then depth - 1 else depth);
    }
  }

  lemma {:induction false} ParenDepthOfConcat(s: Source, t: Source, depth: nat)
    ensures ParenDepth(s + t, depth) ==
            match ParenDepth(s, depth) case Some(e) => ParenDepth(t, e) case None => None
    decreases |s|
  {
    if s == [] {
      assert s + t == t;
    } else {
      assert (s + t)[1..] == s[1..] + t;
      if !(s[0] == CLOSE_PAREN && depth == 0) {
        ParenDepthOfConcat(s[1..], t, if s[0] == OPEN_PAREN then depth + 1 else if s[0] == CLOSE_PAREN then depth - 1 else depth);
      }
    }
  }

  lemma {:induction false} DepthRises(s: Source, depth: nat)
    requires Depth(s, depth).Some?
    ensures Depth(s, depth + 1) == Some(Depth(s, depth).value + 1)
    decreases |s|
  {
    if s != [] {
      DepthRises(s[1..], if IsOpen(s[0]) then depth + 1 else if IsClose(s[0]) then depth - 1 else depth);
    }
  }

  // No arrow straddles the seam between two texts.
  predicate SafeSeam(s: Source, t: Source) {
    s == [] || t == [] || s[|s| - 1] != DASH || t[0] != GREATER
  }

  lemma {:induction false} DepthOfConcat(s: Source, t: Source, depth: nat)
    requires SafeSeam(s, t) && Depth(s, depth).Some?
    ensures Depth(s + t, depth) == Depth(t, Depth(s, depth).value)
    decreases |s|
  {
    if s == [] {
      assert s + t == t;
    } else {
      assert (s + t)[1..] == s[1..] + t;
      DepthOfConcat(s[1..], t, if IsOpen(s[0]) then depth + 1 else if IsClose(s[0]) then depth - 1 else depth);
    }
  }

  // A printed type is balanced, and its arrows do not show once it stands inside brackets.
  lemma {:induction false} PrintedIsBalanced(t: Ty, depth: nat)
    requires Printable(t)
    ensures ParenDepth(Printed(t), depth) == Some(depth)
    ensures Depth(Printed(t), depth + 1) == Some(depth + 1)
    decreases t, 0
  {
    hide Clean, Enclosed, Depth, ParenDepth;
    match t
    case Atom(text) =>
      BalancedEverywhere(text, depth);
      BalancedEverywhere(text, depth + 1);
    case Arrow(arg, ascii, parens, result) =>
      var a, sep, w := PrintedArgument(arg), [SPACE] + ArrowText(ascii) + [SPACE], Wrapped(Printed(result), parens);
      ArgumentIsBalanced(arg, depth);
      ArgumentIsBalanced(arg, depth + 1);
      PrintedIsBalanced(result, depth);
      WrappedIsBalanced(result, parens, depth);
      SeparatorIsFlat(ascii, depth);
      assert Printed(t) == a + (sep + w);
      ParenDepthOfConcat(a, sep + w, depth);
      ParenDepthOfConcat(sep, w, depth);
      DepthOfConcat(a, sep + w, depth + 1);
      DepthOfConcat(sep, w, depth + 1);
  }

  lemma {:induction false} ArgumentIsBalanced(t: Ty, depth: nat)
    requires PrintableArgument(t)
    ensures ParenDepth(PrintedArgument(t), depth) == Some(depth)
    ensures Depth(PrintedArgument(t), depth) == Some(depth)
    decreases t, 1
  {
    if t.Atom? {
      BalancedEverywhere(t.text, depth);
    } else {
      PrintedIsBalanced(t, depth);
      PrintedIsBalanced(t, depth + 1);
      PrintedIsClean(t);
      InParens(Printed(t), depth);
    }
  }

  lemma InParens(s: Source, depth: nat)
    requires Clean(s) && ParenDepth(s, depth + 1) == Some(depth + 1) && Depth(s, depth + 1) == Some(depth + 1)
    ensures ParenDepth([OPEN_PAREN] + s + [CLOSE_PAREN], depth) == Some(depth)
    ensures Depth([OPEN_PAREN] + s + [CLOSE_PAREN], depth) == Some(depth)
  {
    var all := [OPEN_PAREN] + s + [CLOSE_PAREN];
    assert all[1..] == s + [CLOSE_PAREN];
    ParenDepthOfConcat(s, [CLOSE_PAREN], depth + 1);
    DepthOfConcat(s, [CLOSE_PAREN], depth + 1);
    assert [CLOSE_PAREN][1..] == [];
  }

  lemma {:induction false} WrappedIsBalanced(t: Ty, pairs: nat, depth: nat)
    requires Printable(t)
    requires ParenDepth(Printed(t), depth) == Some(depth) && Depth(Printed(t), depth + 1) == Some(depth + 1)
    ensures ParenDepth(Wrapped(Printed(t), pairs), depth) == Some(depth)
    ensures Depth(Wrapped(Printed(t), pairs), depth + 1) == Some(depth + 1)
    ensures pairs > 0 ==> Depth(Wrapped(Printed(t), pairs), depth) == Some(depth)
  {
    if pairs > 0 {
      PrintedIsClean(t);
      WrappedIsBalanced(t, pairs - 1, depth);
      var w := Wrapped(Printed(t), pairs - 1);
      CleanWrapped(Printed(t), pairs - 1);
      ParenDepthRises(w, depth);
      DepthRises(w, depth + 1);
      InParens(w, depth);
      DepthRises(Wrapped(Printed(t), pairs), depth);
    }
  }

  lemma {:induction false} BalancedEverywhere(s: Source, depth: nat)
    requires ParenDepth(s, 0) == Some(0) && Depth(s, 0) == Some(0)
    ensures ParenDepth(s, depth) == Some(depth) && Depth(s, depth) == Some(depth)
  {
    if depth > 0 {
      BalancedEverywhere(s, depth - 1);
      ParenDepthRises(s, depth - 1);
      DepthRises(s, depth - 1);
    }
  }

  lemma SeparatorIsFlat(ascii: bool, depth: nat)
    ensures ParenDepth([SPACE] + ArrowText(ascii) + [SPACE], depth) == Some(depth)
    ensures Depth([SPACE] + ArrowText(ascii) + [SPACE], depth + 1) == Some(depth + 1)
  {
    FlatUnits([SPACE] + ArrowText(ascii) + [SPACE], depth);
  }

  lemma {:induction false} FlatUnits(s: Source, depth: nat)
    requires forall k :: 0 <= k < |s| ==> !IsOpen(s[k]) && !IsClose(s[k])
    ensures ParenDepth(s, depth) == Some(depth) && Depth(s, depth + 1) == Some(depth + 1)
    decreases |s|
  {
    if s != [] { FlatUnits(s[1..], depth); }
  }

  // ---- splitting a printed type ----

  // The segments of a printed type: the arguments of its spine up to the first parenthesised result.
  function SpineSegments(t: Ty): (r: seq<Source>)
    ensures r != []
  {
    if t.Atom? then [t.text]
    else [PrintedArgument(t.arg)] +
         (if t.parens == 0 then SpineSegments(t.result) else [Wrapped(Printed(t.result), t.parens)])
  }

  // A balanced text goes into the current piece as a whole.
  lemma {:induction false} BalancedStaysWhole(s: Source, rest: Source, depth: nat, current: Source)
    requires Depth(s, depth).Some? && SafeSeam(s, rest)
    ensures PiecesFrom(s + rest, depth, current) == PiecesFrom(rest, Depth(s, depth).value, current + s)
    decreases |s|
  {
    if s == [] {
      assert s + rest == rest && current + s == current;
    } else {
      assert (s + rest)[1..] == s[1..] + rest;
      assert current + [s[0]] + s[1..] == current + s;
      BalancedStaysWhole(s[1..], rest, if IsOpen(s[0]) then depth + 1 else if IsClose(s[0]) then depth - 1 else depth,
                         current + [s[0]]);
    }
  }

  // What the scanner cuts out of a printed type, before trimming.
  function RawPieces(t: Ty, current: Source): seq<Source> {
    if t.Atom? then [current + t.text]
    else [current + PrintedArgument(t.arg) + [SPACE]] +
         (if t.parens == 0 then RawPieces(t.result, [SPACE])
          else [[SPACE] + Wrapped(Printed(t.result), t.parens)])
  }

  lemma CutAtArrow(ascii: bool, rest: Source, current: Source)
    ensures PiecesFrom(ArrowText(ascii) + rest, 0, current) == [current] + PiecesFrom(rest, 0, [])
  {
    var s := ArrowText(ascii) + rest;
    assert s[|ArrowText(ascii)|..] == rest;
  }

  lemma SpaceJoins(rest: Source, current: Source)
    ensures PiecesFrom([SPACE] + rest, 0, current) == PiecesFrom(rest, 0, current + [SPACE])
  {
    assert ([SPACE] + rest)[1..] == rest;
  }

  lemma {:induction false} PiecesOfPrinted(t: Ty, current: Source)
    requires Printable(t)
    ensures PiecesFrom(Printed(t), 0, current) == RawPieces(t, current)
  {
    hide Clean, Enclosed, PiecesFrom, Depth, ParenDepth;
    match t
    case Atom(text) =>
      assert Depth(text, 0) == Some(0);
      BalancedStaysWhole(text, [], 0, current);
      assert text + [] == text;
      NothingLeft(current + text);
    case Arrow(arg, ascii, parens, result) =>
      var a, w := PrintedArgument(arg), Wrapped(Printed(result), parens);
      var afterArrow := [SPACE] + w;
      var afterArgument := [SPACE] + (ArrowText(ascii) + afterArrow);
      assert Printed(t) == a + afterArgument;
      ArgumentIsBalanced(arg, 0);
      BalancedStaysWhole(a, afterArgument, 0, current);
      SpaceJoins(ArrowText(ascii) + afterArrow, current + a);
      CutAtArrow(ascii, afterArrow, current + a + [SPACE]);
      SpaceJoins(w, []);
      assert [] + [SPACE] == [SPACE];
      if parens == 0 {
        PiecesOfPrinted(result, [SPACE]);
      } else {
        PrintedIsBalanced(result, 0);
        WrappedIsBalanced(result, parens, 0);
        BalancedStaysWhole(w, [], 0, [SPACE]);
        assert w + [] == w;
        NothingLeft([SPACE] + w);
      }
  }

  lemma NothingLeft(current: Source)
    ensures PiecesFrom([], 0, current) == [current]
  {
  }

  lemma TrimAround(s: Source)
    requires Clean(s)
    ensures TrimUnits(s) == s && TrimUnits([SPACE] + s) == s && TrimUnits(s + [SPACE]) == s
    ensures TrimUnits([SPACE] + s + [SPACE]) == s
  {
    var l, r, b := [SPACE] + s, s + [SPACE], [SPACE] + s + [SPACE];
    assert l[1..] == s && r[..|r| - 1] == s && b[1..] == r;
  }

  lemma {:induction false} SegmentsOfRawPieces(t: Ty, current: Source)
    requires Printable(t) && (current == [] || current == [SPACE])
    ensures NonEmptyTrimmed(RawPieces(t, current)) == SpineSegments(t)
  {
    hide Clean, Enclosed, Depth, ParenDepth, TrimUnits;
    match t
    case Atom(text) =>
      CleanNotEmpty(text);
      TrimAround(text);
      assert [] + text == text;
      assert RawPieces(t, current)[1..] == [];
    case Arrow(arg, ascii, parens, result) =>
      var a := PrintedArgument(arg);
      ArgumentIsClean(arg);
      CleanNotEmpty(a);
      TrimAround(a);
      assert [] + a == a;
      var raw := RawPieces(t, current);
      if parens == 0 {
        SegmentsOfRawPieces(result, [SPACE]);
        assert raw[1..] == RawPieces(result, [SPACE]);
      } else {
        var w := Wrapped(Printed(result), parens);
        PrintedIsClean(result);
        CleanWrapped(Printed(result), parens);
        CleanNotEmpty(w);
        TrimAround(w);
        var lastPiece: seq<Source> := raw[1..];
        assert lastPiece == [[SPACE] + w] && lastPiece[1..] == [];
        assert NonEmptyTrimmed(lastPiece) == [w] + NonEmptyTrimmed([]);
        assert NonEmptyTrimmed(raw) == [a] + NonEmptyTrimmed(lastPiece);
      }
  }

  lemma CleanNotEmpty(s: Source)
    requires Clean(s)
    ensures s != []
  {
  }

  lemma SegmentsOfPrinted(t: Ty)
    requires Printable(t)
    ensures Segments(Printed(t)) == SpineSegments(t)
  {
    PiecesOfPrinted(t, []);
    SegmentsOfRawPieces(t, []);
  }

  // ---- stripping parentheses ----

  lemma PrintedIsNotEnclosed(t: Ty)
    requires Printable(t)
    ensures !Enclosed(Printed(t))
  {
    if t.Arrow? {
      hide Printed, PrintedArgument, ParenDepth, Clean, Depth, Wrapped;
      var a := PrintedArgument(t.arg);
      var rest := [SPACE] + ArrowText(t.ascii) + [SPACE] + Wrapped(Printed(t.result), t.parens);
      assert Printed(t) == a + rest by { ArrowPrints(t); }
      ArgumentIsBalanced(t.arg, 0);
      ArgumentIsClean(t.arg);
      CleanNotEmpty(a);
      BracketsCloseEarly(a, rest);
    }
  }

  lemma ArrowPrints(t: Ty)
    requires t.Arrow?
    ensures Printed(t) ==
            PrintedArgument(t.arg) + ([SPACE] + ArrowText(t.ascii) + [SPACE] + Wrapped(Printed(t.result), t.parens))
  {
  }

  // A text that starts with a balanced part of its own is not enclosed as a whole.
  lemma BracketsCloseEarly(a: Source, rest: Source)
    requires a != [] && rest != [] && ParenDepth(a, 0) == Some(0)
    ensures !Enclosed(a + rest)
  {
    var p := a + rest;
    if p[0] == OPEN_PAREN {
      assert ParenDepth(a[1..], 1) == Some(0);
      if ParenDepth(a[1..], 0).Some? { ParenDepthRises(a[1..], 0); }
      ParenDepthOfConcat(a[1..], rest[..|rest| - 1], 0);
      InnerOfConcat(a, rest);
    }
  }

  lemma InnerOfConcat(a: Source, rest: Source)
    requires a != [] && rest != []
    ensures (a + rest)[1..|a + rest| - 1] == a[1..] + rest[..|rest| - 1]
  {
    assert a == [a[0]] + a[1..] && rest == rest[..|rest| - 1] + [rest[|rest| - 1]];
    assert a + rest == [a[0]] + (a[1..] + rest[..|rest| - 1]) + [rest[|rest| - 1]];
  }

  lemma {:induction false} StripWrapped(t: Ty, pairs: nat)
    requires Printable(t)
    ensures StripParens(Wrapped(Printed(t), pairs)) == Printed(t)
  {
    hide Printed, Enclosed, Clean, Printable;
    PrintedIsClean(t);
    CleanWrapped(Printed(t), pairs);
    CleanIsNormal(Wrapped(Printed(t), pairs));
    if pairs == 0 {
      PrintedIsNotEnclosed(t);
    } else {
      WrappedIsEnclosed(t, pairs);
      StripWrapped(t, pairs - 1);
      var w := Wrapped(Printed(t), pairs);
      assert w[1..|w| - 1] == Wrapped(Printed(t), pairs - 1);
    }
  }

  lemma WrappedIsEnclosed(t: Ty, pairs: nat)
    requires Printable(t) && pairs > 0
    ensures Enclosed(Wrapped(Printed(t), pairs))
  {
    hide Printed, ParenDepth, Depth, Enclosed;
    PrintedIsBalanced(t, 0);
    WrappedIsBalanced(t, pairs - 1, 0);
    PairEncloses(Wrapped(Printed(t), pairs - 1));
  }

  lemma PairEncloses(s: Source)
    requires ParenDepth(s, 0) == Some(0)
    ensures Enclosed([OPEN_PAREN] + s + [CLOSE_PAREN])
  {
    var w := [OPEN_PAREN] + s + [CLOSE_PAREN];
    assert w[1..|w| - 1] == s;
  }

  // ---- the result type ----

  // Where the first round of a reduction ends.
  function Tail(t: Ty): Ty { if t.Atom? then t else if t.parens > 0 then t.result else Tail(t.result) }

  function TailParens(t: Ty): nat { if t.Atom? then 0 else if t.parens > 0 then t.parens else TailParens(t.result) }

  lemma {:induction false} TailFacts(t: Ty)
    requires Printable(t)
    ensures Printable(Tail(t)) && Final(Tail(t)) == Final(t)
    ensures t.Arrow? ==> Tail(t) < t
    ensures SpineSegments(t)[|SpineSegments(t)| - 1] == Wrapped(Printed(Tail(t)), TailParens(t))
    ensures SpineLength(t) == |SpineSegments(t)| - 1 + SpineLength(Tail(t))
    ensures Groups(t) == (if TailParens(t) > 0 then 1 + Groups(Tail(t)) else 0)
    ensures TailParens(t) == 0 ==> Tail(t).Atom?
    ensures |SpineSegments(t)| == 1 <==> t.Atom?
  {
    hide IsAtomText, Enclosed, Printed;
    if t.Atom? { AtomPrints(t); } else if t.parens == 0 { TailFacts(t.result); }
  }

  // With enough rounds the reduction ends at the final atom, having counted the whole spine; without,
  // it stops at a type still in parentheses.
  lemma {:induction false} ReducePrinted(t: Ty, pairs: nat, arity: nat, rounds: nat)
    requires Printable(t) && rounds > 0
    ensures Groups(t) < rounds ==>
              Reduce(Wrapped(Printed(t), pairs), arity, rounds) == Reduced(Final(t), arity + SpineLength(t))
    ensures Groups(t) >= rounds ==> Enclosed(Reduce(Wrapped(Printed(t), pairs), arity, rounds).resultType)
    decreases t
  {
    hide IsAtomText, Enclosed, Printed, Wrapped, StripParens, Segments, NormalizeType, SpineSegments;
    StripWrapped(t, pairs);
    SegmentsOfPrinted(t);
    TailFacts(t);
    var segments := SpineSegments(t);
    if t.Atom? {
      AtomPrints(t);
    } else {
      var last := Wrapped(Printed(Tail(t)), TailParens(t));
      PrintedIsClean(Tail(t));
      CleanWrapped(Printed(Tail(t)), TailParens(t));
      CleanIsNormal(last);
      if rounds > 1 {
        ReducePrinted(Tail(t), TailParens(t), arity + |segments| - 1, rounds - 1);
      } else if TailParens(t) > 0 {
        WrappedIsEnclosed(Tail(t), TailParens(t));
      } else {
        AtomPrints(Tail(t));
      }
    }
  }

  lemma AtomPrints(t: Ty)
    requires t.Atom?
    ensures Wrapped(Printed(t), 0) == t.text == Final(t) == Printed(t)
  {
  }

  lemma {:induction false} FinalIsNotEnclosed(t: Ty)
    requires Printable(t)
    ensures !Enclosed(Final(t))
  {
    hide IsAtomText, Enclosed;
    if t.Arrow? { FinalIsNotEnclosed(t.result); }
  }

  // Whatever the white space of the text and the parentheses around it, the result type and the number
  // of arguments are read off correctly exactly when fewer than 100 results are parenthesised.
  lemma ResultTypeIsTheFinalAtom(text: Source, t: Ty, pairs: nat)
    requires Printable(t) && NormalizeType(text) == Wrapped(Printed(t), pairs)
    ensures ResultTypeOf(text) == Reduced(Final(t), SpineLength(t)) <==> Groups(t) < 100
  {
    hide Printable, Enclosed, Reduce;
    ReducePrinted(t, pairs, 0, MAX_ROUNDS);
    FinalIsNotEnclosed(t);
  }
}
