/** Text as the editor sees it: a sequence of UTF-16 code units, lone surrogates included. */
module CodeUnits {
  import opened Basics

  type CodeUnit = n: int | 0 <= n < 0x10000

  type Source = seq<CodeUnit>

  const NEWLINE: CodeUnit := 0x0A
  const RETURN: CodeUnit := 0x0D
  const BANG: CodeUnit := 0x21
  const QUOTE: CodeUnit := 0x22
  const APOSTROPHE: CodeUnit := 0x27
  const DASH: CodeUnit := 0x2D
  const QUESTION: CodeUnit := 0x3F
  const BACKSLASH: CodeUnit := 0x5C
  const OPEN_BRACE: CodeUnit := 0x7B
  const CLOSE_BRACE: CodeUnit := 0x7D

  predicate IsHigh(u: int) { 0xD800 <= u <= 0xDBFF }

  predicate IsLow(u: int) { 0xDC00 <= u <= 0xDFFF }

  // s[i] in the source language: reading past the end is not an error, it matches nothing.
  predicate Is(s: Source, i: nat, u: CodeUnit) { i < |s| && s[i] == u }

  predicate Pair(s: Source, i: nat, u: CodeUnit, v: CodeUnit) { Is(s, i, u) && Is(s, i + 1, v) }

  // String.prototype.codePointAt, for an offset inside the text.
  function CodePointAt(s: Source, i: nat): int
    requires i < |s|
  {
    var high: int := s[i];
    if IsHigh(high) && i + 1 < |s| && IsLow(s[i + 1])
    then
      var low: int := s[i + 1];
      (high - 0xD800) * 0x400 + (low - 0xDC00) + 0x10000
    else high
  }

  // Some line of the text ends in a carriage return and a newline.
  predicate UsesCrlf(s: Source) { exists k :: 0 <= k < |s| && Pair(s, k, RETURN, NEWLINE) }

  // Array.prototype.join.
  function Join(parts: seq<Source>, separator: Source): Source {
    if parts == [] then []
    else if |parts| == 1 then parts[0]
    else parts[0] + separator + Join(parts[1..], separator)
  }

  // String.prototype.trim.
  function TrimUnits(s: Source): Source {
    if s != [] && IsSpaceCode(s[0]) then TrimUnits(s[1..])
    else if s != [] && IsSpaceCode(s[|s| - 1]) then TrimUnits(s[..|s| - 1])
    else s
  }

  // String.prototype.split with a one-unit separator.
  function Split(s: Source, u: CodeUnit): (parts: seq<Source>)
    ensures parts != []
  {
    if s == [] then [[]]
    else
      var rest := Split(s[1..], u);
      if s[0] == u then [[]] + rest else [[s[0]] + rest[0]] + rest[1..]
  }

  lemma {:induction false} SplitPrefix(a: Source, b: Source, u: CodeUnit)
    requires u !in a
    ensures Split(a + b, u) == [a + Split(b, u)[0]] + Split(b, u)[1..]
    decreases |a|
  {
    if a == [] {
      assert a + b == b && a + Split(b, u)[0] == Split(b, u)[0];
    } else {
      assert (a + b)[1..] == a[1..] + b && (a + b)[0] == a[0];
      SplitPrefix(a[1..], b, u);
      assert [a[0]] + (a[1..] + Split(b, u)[0]) == a + Split(b, u)[0];
    }
  }

  // Joining is undone by splitting: no part may hold the separator itself.
  lemma {:induction false} JoinSplits(parts: seq<Source>, u: CodeUnit)
    requires parts != [] && forall k :: 0 <= k < |parts| ==> u !in parts[k]
    ensures Split(Join(parts, [u]), u) == parts
    decreases |parts|
  {
    if |parts| == 1 {
      assert parts[0] + [] == parts[0];
      SplitPrefix(parts[0], [], u);
    } else {
      var rest := Join(parts[1..], [u]);
      JoinSplits(parts[1..], u);
      assert parts[0] + [u] + rest == parts[0] + ([u] + rest);
      SplitPrefix(parts[0], [u] + rest, u);
      assert ([u] + rest)[1..] == rest && parts[0] + [] == parts[0];
    }
  }

  // With CRLF between them, the lines of the join are the parts with a carriage return behind all but
  // the last.
  lemma {:induction false} CrlfJoinSplits(parts: seq<Source>)
    requires parts != [] && forall k :: 0 <= k < |parts| ==> NEWLINE !in parts[k]
    ensures var lines := Split(Join(parts, [RETURN, NEWLINE]), NEWLINE);
            |lines| == |parts| &&
            forall k :: 0 <= k < |parts| ==> lines[k] == parts[k] + if k < |parts| - 1 then [RETURN] else []
    decreases |parts|
  {
    if |parts| == 1 {
      assert parts[0] + [] == parts[0];
      SplitPrefix(parts[0], [], NEWLINE);
    } else {
      var rest := Join(parts[1..], [RETURN, NEWLINE]);
      CrlfJoinSplits(parts[1..]);
      assert parts[0] + [RETURN, NEWLINE] + rest == parts[0] + [RETURN] + ([NEWLINE] + rest);
      SplitPrefix(parts[0] + [RETURN], [NEWLINE] + rest, NEWLINE);
      assert ([NEWLINE] + rest)[1..] == rest;
    }
  }

  predicate AllSpaceUnits(s: Source) { forall k :: 0 <= k < |s| ==> IsSpaceCode(s[k]) }

  predicate IsTrimmedUnits(s: Source) { s == [] || (!IsSpaceCode(s[0]) && !IsSpaceCode(s[|s| - 1])) }

  // Trimming removes the white space around a text, whatever there is, and nothing else.
  lemma {:induction false} TrimUnitsRemovesMargins(left: Source, s: Source, right: Source)
    requires AllSpaceUnits(left) && IsTrimmedUnits(s) && AllSpaceUnits(right)
    ensures TrimUnits(left + s + right) == s
    decreases |left| + |right|
  {
    var all := left + s + right;
    if left != [] {
      assert all[0] == left[0] && all[1..] == left[1..] + s + right;
      TrimUnitsRemovesMargins(left[1..], s, right);
    } else if right != [] {
      assert all == s + right;
      if s == [] {
        assert all[0] == right[0] && all[1..] == [] + s + right[1..];
        TrimUnitsRemovesMargins([], s, right[1..]);
      } else {
        assert all[|all| - 1] == right[|right| - 1] && all[..|all| - 1] == left + s + right[..|right| - 1];
        TrimUnitsRemovesMargins(left, s, right[..|right| - 1]);
      }
    } else {
      assert all == s;
    }
  }

  // Every text is white space, a trimmed text, and white space.
  lemma {:induction false} EveryUnitsHaveMargins(s: Source) returns (left: Source, core: Source, right: Source)
    ensures s == left + core + right && TrimUnits(s) == core
    ensures AllSpaceUnits(left) && IsTrimmedUnits(core) && AllSpaceUnits(right)
    decreases |s|
  {
    if IsTrimmedUnits(s) {
      left, core, right := [], s, [];
    } else if IsSpaceCode(s[0]) {
      left, core, right := EveryUnitsHaveMargins(s[1..]);
      left := [s[0]] + left;
    } else {
      left, core, right := EveryUnitsHaveMargins(s[..|s| - 1]);
      right := right + [s[|s| - 1]];
    }
    assert s == left + core + right;
    TrimUnitsRemovesMargins(left, core, right);
  }

  // A text of the source language, as code units.
  function Units(text: string): Source {
    seq(|text|, k requires 0 <= k < |text| => if text[k] as int < 0x10000 then text[k] as int else 0xFFFD)
  }

  // The code points of a text; a lone surrogate stands for U+FFFD.
  function CodePoints(s: Source): (cps: seq<int>)
    ensures forall k :: 0 <= k < |cps| ==> IsScalar(cps[k])
    decreases |s|
  {
    if s == [] then []
    else if IsHigh(s[0]) && |s| > 1 && IsLow(s[1]) then [CodePointAt(s, 0)] + CodePoints(s[2..])
    else [if IsHigh(s[0]) || IsLow(s[0]) then 0xFFFD else s[0]] + CodePoints(s[1..])
  }

  predicate IsScalar(cp: int) { 0 <= cp < 0x110000 && !IsHigh(cp) && !IsLow(cp) }

  // The UTF-8 bytes of a code point.
  function Bytes(cp: int): seq<int>
    requires IsScalar(cp)
  {
    var a, b := cp / 0x40, cp / 0x40 / 0x40;
    if cp < 0x80 then [cp]
    else if cp < 0x800 then [0xC0 + a, 0x80 + cp % 0x40]
    else if cp < 0x10000 then [0xE0 + b, 0x80 + a % 0x40, 0x80 + cp % 0x40]
    else [0xF0 + b / 0x40, 0x80 + b % 0x40, 0x80 + a % 0x40, 0x80 + cp % 0x40]
  }

  // A reader of UTF-8: the first byte tells how many follow.
  function ReadBytes(bytes: seq<int>): (int, seq<int>)
    requires |bytes| >= 4
  {
    if bytes[0] < 0x80 then (bytes[0], bytes[1..])
    else if bytes[0] < 0xE0 then ((bytes[0] - 0xC0) * 0x40 + (bytes[1] - 0x80), bytes[2..])
    else if bytes[0] < 0xF0 then
      ((bytes[0] - 0xE0) * 0x1000 + (bytes[1] - 0x80) * 0x40 + (bytes[2] - 0x80), bytes[3..])
    else
      ((bytes[0] - 0xF0) * 0x40000 + (bytes[1] - 0x80) * 0x1000 + (bytes[2] - 0x80) * 0x40 + (bytes[3] - 0x80), bytes[4..])
  }

  lemma BytesReadBack(cp: int, rest: seq<int>)
    requires IsScalar(cp) && |rest| >= 3
    ensures forall k :: 0 <= k < |Bytes(cp)| ==> 0 <= Bytes(cp)[k] < 0x100
    ensures ReadBytes(Bytes(cp) + rest) == (cp, rest)
  {
    var all := Bytes(cp) + rest;
    assert all[|Bytes(cp)|..] == rest;
  }

  function AllBytes(cps: seq<int>): seq<int>
    requires forall k :: 0 <= k < |cps| ==> IsScalar(cps[k])
  {
    if cps == [] then [] else Bytes(cps[0]) + AllBytes(cps[1..])
  }

  lemma {:induction false} Utf8LengthCountsBytes(s: Source)
    ensures Utf8Length(s) == |AllBytes(CodePoints(s))|
    decreases |s|
  {
    if s != [] {
      var n := if IsHigh(s[0]) && |s| > 1 && IsLow(s[1]) then 2 else 1;
      Utf8LengthCountsBytes(s[n..]);
      assert CodePoints(s)[1..] == CodePoints(s[n..]);
    }
  }

  // Bytes of the UTF-8 form; a lone surrogate becomes U+FFFD, three bytes.
  function Utf8Length(s: Source): (n: nat)
    ensures |s| <= n <= 3 * |s|
  {
    if s == [] then 0
    else if IsHigh(s[0]) && |s| > 1 && IsLow(s[1]) then 4 + Utf8Length(s[2..])
    else (if s[0] < 0x80 then 1 else if s[0] < 0x800 then 2 else 3) + Utf8Length(s[1..])
  }
}

/**
 * The lexical structure the goal scanner sees, as functions on offsets. An offset may end up one
 * past the end of the text: a string literal that stops in the middle of an escape does that.
 */
module GoalGrammar {
  import opened Basics
  import opened CodeUnits

  // Block comments and interaction holes nest in the same way; they differ in their brackets and in
  // what stands between the brackets.
  datatype Nest = Comment | Hole

  predicate Opens(nest: Nest, s: Source, i: nat) {
    Pair(s, i, OPEN_BRACE, if nest.Comment? then DASH else BANG)
  }

  predicate Closes(nest: Nest, s: Source, i: nat) {
    Pair(s, i, if nest.Comment? then DASH else BANG, CLOSE_BRACE)
  }

  predicate StartsLineComment(s: Source, i: nat) { Pair(s, i, DASH, DASH) }

  function LineEnd(s: Source, i: nat): (r: nat)
    ensures i <= r
    ensures i <= |s| ==> r <= |s|
    ensures r < |s| ==> s[r] == NEWLINE
    ensures forall k :: i <= k < r && k < |s| ==> s[k] != NEWLINE
    decreases |s| - i
  {
    if i < |s| && s[i] != NEWLINE then LineEnd(s, i + 1) else i
  }

  // The offset after the string literal whose contents go on at i.
  function StringEnd(s: Source, i: nat): (r: nat)
    ensures i <= r
    ensures i <= |s| ==> r <= |s| + 1
    decreases |s| - i
  {
    if i >= |s| then i
    else if s[i] == QUOTE then i + 1
    else StringEnd(s, if s[i] == BACKSLASH then i + 2 else i + 1)
  }

  // Length of the character literal at i, 0 when there is none.
  function CharLiteralLength(s: Source, i: nat): (n: nat)
    ensures i + n <= |s| || n == 0
  {
    if !Is(s, i, APOSTROPHE) || i + 2 >= |s| then 0
    else if s[i + 1] == BACKSLASH && Is(s, i + 3, APOSTROPHE) then 4
    else if s[i + 1] != APOSTROPHE && s[i + 2] == APOSTROPHE then 3
    else 0
  }

  // The end of the comment or literal that starts at i; i itself when none starts there.
  function SkipEnd(s: Source, i: nat): (r: nat)
    ensures i <= r <= |s| + 1 || r == i
    decreases 1, 0
  {
    if i >= |s| then i
    else if StartsLineComment(s, i) then LineEnd(s, i)
    else if Opens(Comment, s, i) then
      match Matching(Comment, s, i + 2, 1) { case Some(j) => j case None => |s| }
    else if s[i] == QUOTE then StringEnd(s, i + 1)
    else i + CharLiteralLength(s, i)
  }

  // One lexical step: a whole comment or literal, or a single code unit.
  function Step(s: Source, i: nat): (r: nat)
    ensures i < r
    ensures i < |s| ==> r <= |s| + 1
    decreases 1, 1
  {
    if SkipEnd(s, i) > i then SkipEnd(s, i) else i + 1
  }

  // Where the bracket that was opened `depth` levels up closes, counting brackets from offset i on.
  function Matching(nest: Nest, s: Source, i: nat, depth: nat): (r: Option<nat>)
    requires depth >= 1
    ensures r.Some? ==> i + 2 <= r.value <= |s|
    decreases if nest.Hole? then 2 else 0, if i < |s| then |s| - i else 0
  {
    if i >= |s| then None
    else if Opens(nest, s, i) then Matching(nest, s, i + 2, depth + 1)
    else if Closes(nest, s, i) then
      if depth == 1 then Some(i + 2) else Matching(nest, s, i + 2, depth - 1)
    else Matching(nest, s, if nest.Hole? then Step(s, i) else i + 1, depth)
  }

  // ---- bracket counting against a grammar of nested brackets ----

  /** What may stand behind an opening bracket: pieces and nested brackets up to the closing one. */
  datatype Body = Close | Piece(rest: Body) | Nested(inner: Body, rest: Body)

  // The offset after the closing bracket, when the text from i on can be read as this body.
  function Extent(nest: Nest, s: Source, i: nat, body: Body): (r: Option<nat>)
    ensures r.Some? ==> i + 2 <= r.value <= |s|
    decreases body
  {
    match body
    case Close => if Closes(nest, s, i) then Some(i + 2) else None
    case Piece(rest) =>
      if i < |s| && !Opens(nest, s, i) && !Closes(nest, s, i)
      then Extent(nest, s, if nest.Hole? then Step(s, i) else i + 1, rest)
      else None
    case Nested(inner, rest) =>
      if !Opens(nest, s, i) then None
      else match Extent(nest, s, i + 2, inner)
        case Some(k) => Extent(nest, s, k, rest)
        case None => None
  }

  lemma {:induction false} BodyCloses(nest: Nest, s: Source, i: nat, body: Body, depth: nat)
    requires depth >= 1 && Extent(nest, s, i, body).Some?
    ensures var k := Extent(nest, s, i, body).value;
            Matching(nest, s, i, depth) == (if depth == 1 then Some(k) else Matching(nest, s, k, depth - 1))
    decreases body
  {
    match body
    case Close =>
    case Piece(rest) =>
      BodyCloses(nest, s, if nest.Hole? then Step(s, i) else i + 1, rest, depth);
    case Nested(inner, rest) =>
      BodyCloses(nest, s, i + 2, inner, depth + 1);
      BodyCloses(nest, s, Extent(nest, s, i + 2, inner).value, rest, depth);
  }

  lemma {:induction false} CloseHasBody(nest: Nest, s: Source, i: nat, depth: nat) returns (body: Body)
    requires depth >= 1 && Matching(nest, s, i, depth).Some?
    ensures Extent(nest, s, i, body).Some?
    decreases if i < |s| then |s| - i else 0
  {
    if Opens(nest, s, i) {
      var inner := CloseHasBody(nest, s, i + 2, depth + 1);
      BodyCloses(nest, s, i + 2, inner, depth + 1);
      var rest := CloseHasBody(nest, s, Extent(nest, s, i + 2, inner).value, depth);
      body := Nested(inner, rest);
    } else if Closes(nest, s, i) {
      body := Close;
    } else {
      var rest := CloseHasBody(nest, s, if nest.Hole? then Step(s, i) else i + 1, depth);
      body := Piece(rest);
    }
  }

  // The text from i up to j is a body of nested brackets with its closing bracket.
  ghost predicate Nests(nest: Nest, s: Source, i: nat, j: nat) {
    exists body :: Extent(nest, s, i, body) == Some(j)
  }

  // Counting brackets finds the end j exactly when the text up to j nests.
  lemma CountingMatchesNesting(nest: Nest, s: Source, i: nat, j: nat)
    ensures Matching(nest, s, i, 1) == Some(j) <==> Nests(nest, s, i, j)
  {
    if Matching(nest, s, i, 1) == Some(j) {
      var body := CloseHasBody(nest, s, i, 1);
      BodyCloses(nest, s, i, body, 1);
    }
    forall body | Extent(nest, s, i, body) == Some(j)
      ensures Matching(nest, s, i, 1) == Some(j)
    {
      BodyCloses(nest, s, i, body, 1);
    }
  }

  // ---- comments and literals against a grammar of their own ----

  /** What a string literal holds: plain units and escapes. */
  datatype Item = Plain(unit: CodeUnit) | Escape(unit: CodeUnit)

  function Spelled(items: seq<Item>): Source {
    if items == [] then []
    else (if items[0].Plain? then [items[0].unit] else [BACKSLASH, items[0].unit]) + Spelled(items[1..])
  }

  predicate AreItems(items: seq<Item>) {
    forall k :: 0 <= k < |items| && items[k].Plain? ==> items[k].unit != QUOTE && items[k].unit != BACKSLASH
  }

  // The contents of a string literal run from i to j: items and a quote, or items to the end of the text
  // when nothing closes it, counted one further when the text ends in the middle of an escape.
  ghost predicate StringRuns(s: Source, i: nat, j: nat) {
    i <= |s| && exists items :: AreItems(items) && RunsAs(s, i, j, Spelled(items))
  }

  predicate RunsAs(s: Source, i: nat, j: nat, text: Source)
    requires i <= |s|
  {
    || (i < j <= |s| && s[i..j] == text + [QUOTE])
    || (j == |s| && s[i..] == text)
    || (j == |s| + 1 && s[i..] == text + [BACKSLASH])
  }

  lemma {:induction false} StringHasItems(s: Source, i: nat) returns (items: seq<Item>)
    requires i <= |s|
    ensures AreItems(items) && RunsAs(s, i, StringEnd(s, i), Spelled(items))
    decreases |s| - i
  {
    if i == |s| || s[i] == QUOTE || (s[i] == BACKSLASH && i + 1 == |s|) {
      items := [];
      if i < |s| { assert s[i..i + 1] == [s[i]]; }
    } else {
      var n := if s[i] == BACKSLASH then 2 else 1;
      var first := if n == 2 then Escape(s[i + 1]) else Plain(s[i]);
      var rest := StringHasItems(s, i + n);
      items := [first] + rest;
      assert items[1..] == rest;
      RunsMore(s, i, n, StringEnd(s, i), Spelled(rest));
      assert s[i..i + n] == if n == 2 then [BACKSLASH, s[i + 1]] else [s[i]];
    }
  }

  lemma RunsMore(s: Source, i: nat, n: nat, j: nat, text: Source)
    requires i + n <= |s| && RunsAs(s, i + n, j, text)
    ensures RunsAs(s, i, j, s[i..i + n] + text)
  {
    var head := s[i..i + n];
    assert s[i..] == head + s[i + n..];
    if i + n <= j <= |s| { assert s[i..j] == head + s[i + n..j]; }
    assert head + text + [QUOTE] == head + (text + [QUOTE]);
    assert head + text + [BACKSLASH] == head + (text + [BACKSLASH]);
  }

  lemma {:induction false} ItemsAreRead(s: Source, i: nat, items: seq<Item>)
    requires i <= |s| && AreItems(items) && Spelled(items) <= s[i..]
    ensures StringEnd(s, i) == StringEnd(s, i + |Spelled(items)|)
    decreases |items|
  {
    if items != [] {
      var n := if items[0].Plain? then 1 else 2;
      var text := Spelled(items);
      assert text[n..] == Spelled(items[1..]);
      assert s[i] == s[i..][0] == text[0];
      assert s[i..][n..] == s[i + n..];
      assert text[n..] <= s[i + n..];
      ItemsAreRead(s, i + n, items[1..]);
    }
  }

  // The scanner ends a string literal exactly where these items do.
  lemma StringEndExactly(s: Source, i: nat, j: nat)
    requires i <= |s|
    ensures StringEnd(s, i) == j <==> StringRuns(s, i, j)
  {
    if StringEnd(s, i) == j {
      var items := StringHasItems(s, i);
    }
    if items :| AreItems(items) && RunsAs(s, i, j, Spelled(items)) {
      var text := Spelled(items);
      if i < j <= |s| && s[i..j] == text + [QUOTE] {
        assert s[j - 1] == s[i..j][j - 1 - i] == QUOTE;
        assert text == s[i..j][..|text|] == s[i..][..|text|];
      } else if j == |s| + 1 {
        assert s[|s| - 1] == s[i..][|s| - 1 - i] == BACKSLASH;
        assert text == s[i..][..|text|];
      }
      assert text <= s[i..];
      ItemsAreRead(s, i, items);
    }
  }

  // A character literal: four units with a backslash behind the first apostrophe, or else three.
  predicate CharRuns(s: Source, i: nat, j: nat) {
    || (i + 4 == j <= |s| && s[i..j] == [APOSTROPHE, BACKSLASH, s[i + 2], APOSTROPHE])
    || (i + 3 == j <= |s| && s[i + 1] != APOSTROPHE && s[i..j] == [APOSTROPHE, s[i + 1], APOSTROPHE]
        && !(s[i + 1] == BACKSLASH && Is(s, i + 3, APOSTROPHE)))
  }

  ghost predicate Unclosed(s: Source, i: nat) { forall k: nat :: !Nests(Comment, s, i, k) }

  // The text from i to j is a comment or a literal: a line comment up to its newline or the end, a block
  // comment up to the bracket that closes it or, if none does, the end, a string or a character.
  ghost predicate Lexeme(s: Source, i: nat, j: nat) {
    || (i + 2 <= j <= |s| && s[i..i + 2] == [0x2D, 0x2D] && NEWLINE !in s[i..j] && (j == |s| || s[j] == NEWLINE))
    || (i + 2 <= j <= |s| && s[i..i + 2] == [0x7B, 0x2D]
        && (Nests(Comment, s, i + 2, j) || (j == |s| && Unclosed(s, i + 2))))
    || (Is(s, i, 0x22) && StringRuns(s, i + 1, j))
    || CharRuns(s, i, j)
  }

  // What the scanner skips at an offset is exactly the lexeme there.
  lemma SkipsExactlyLexemes(s: Source, i: nat, j: nat)
    ensures SkipEnd(s, i) == j && j > i <==> Lexeme(s, i, j)
  {
    if i + 2 <= |s| {
      assert s[i..i + 2] == [s[i], s[i + 1]];
      CommentEnds(s, i, j);
    }
    if Is(s, i, QUOTE) { StringEndExactly(s, i + 1, j); }
    LineEndExactly(s, i, j);
    CharsExactly(s, i, j);
    hide StringRuns, StringEnd, LineEnd, Matching, Nests, CharRuns, CharLiteralLength;
    if i < |s| && s[i] == APOSTROPHE { assert !StartsLineComment(s, i) && !Opens(Comment, s, i); }
  }

  lemma CommentEnds(s: Source, i: nat, j: nat)
    requires i + 2 <= |s|
    ensures (match Matching(Comment, s, i + 2, 1) { case Some(k) => k case None => |s| }) == j <==>
            Nests(Comment, s, i + 2, j) || (j == |s| && Unclosed(s, i + 2))
    ensures Nests(Comment, s, i + 2, j) ==> i + 4 <= j <= |s|
  {
    forall k: nat ensures Nests(Comment, s, i + 2, k) <==> Matching(Comment, s, i + 2, 1) == Some(k) {
      CountingMatchesNesting(Comment, s, i + 2, k);
    }
  }

  lemma LineEndExactly(s: Source, i: nat, j: nat)
    ensures i <= j <= |s| ==> (LineEnd(s, i) == j <==> NEWLINE !in s[i..j] && (j == |s| || s[j] == NEWLINE))
    ensures StartsLineComment(s, i) ==> i + 2 <= LineEnd(s, i) <= |s|
  {
    if i <= j <= |s| {
      var e := LineEnd(s, i);
      if j < e { assert j < |s| ==> s[j] != NEWLINE; }
      if e < j { assert s[i..j][e - i] == NEWLINE; }
    }
    if StartsLineComment(s, i) { assert LineEnd(s, i) == LineEnd(s, i + 1) == LineEnd(s, i + 2); }
  }

  lemma CharsExactly(s: Source, i: nat, j: nat)
    ensures i + CharLiteralLength(s, i) == j && j > i <==> CharRuns(s, i, j)
    ensures CharRuns(s, i, j) ==> Is(s, i, APOSTROPHE)
  {
    if i + 4 <= |s| { assert s[i..i + 4] == [s[i], s[i + 1], s[i + 2], s[i + 3]]; }
    if i + 3 <= |s| { assert s[i..i + 3] == [s[i], s[i + 1], s[i + 2]]; }
  }

  // The brackets of comments and holes, spelled out.
  lemma BracketsAreSpelled(nest: Nest, s: Source, i: nat)
    ensures Opens(nest, s, i) <==> i + 2 <= |s| && s[i..i + 2] == [0x7B, if nest.Comment? then 0x2D else 0x21]
    ensures Closes(nest, s, i) <==> i + 2 <= |s| && s[i..i + 2] == [if nest.Comment? then 0x2D else 0x21, 0x7D]
  {
    if i + 2 <= |s| { assert s[i..i + 2] == [s[i], s[i + 1]]; }
  }

  // The offsets a reading of the text from its start stops at: lexemes are read whole, everything else
  // unit by unit.
  ghost predicate Reads(s: Source, stops: seq<nat>, a: nat) {
    && stops != [] && stops[0] == 0 && stops[|stops| - 1] == a
    && forall k :: 0 <= k < |stops| - 1 ==> ReadsOne(s, stops[k], stops[k + 1])
  }

  ghost predicate ReadsOne(s: Source, i: nat, j: nat) {
    i < |s| && (Lexeme(s, i, j) || (j == i + 1 && forall k: nat :: !Lexeme(s, i, k)))
  }

  lemma StepReadsOne(s: Source, i: nat, j: nat)
    requires i < |s|
    ensures Step(s, i) == j <==> ReadsOne(s, i, j)
  {
    forall k: nat ensures SkipEnd(s, i) == k && k > i <==> Lexeme(s, i, k) {
      SkipsExactlyLexemes(s, i, k);
    }
    hide Lexeme, SkipEnd;
    assert SkipEnd(s, i) > i ==> Lexeme(s, i, SkipEnd(s, i));
  }

  // The scanner's stops are those of such a reading.
  lemma BoundariesAreReadings(s: Source, a: nat)
    ensures Boundary(s, 0, a) <==> exists stops :: Reads(s, stops, a)
  {
    if Boundary(s, 0, a) {
      var stops := ReadingTo(s, 0, a);
      assert Reads(s, stops, a);
    }
    if stops :| Reads(s, stops, a) {
      ReadingIsBoundary(s, stops, |stops| - 1);
    }
  }

  lemma {:induction false} ReadingTo(s: Source, i: nat, a: nat) returns (stops: seq<nat>)
    requires Boundary(s, i, a)
    ensures stops != [] && stops[0] == i && stops[|stops| - 1] == a
    ensures forall k :: 0 <= k < |stops| - 1 ==> ReadsOne(s, stops[k], stops[k + 1])
    decreases if i < a then a - i else 0
  {
    hide ReadsOne;
    if i == a {
      stops := [a];
    } else {
      StepReadsOne(s, i, Step(s, i));
      var rest := ReadingTo(s, Step(s, i), a);
      stops := [i] + rest;
    }
  }

  lemma {:induction false} ReadingIsBoundary(s: Source, stops: seq<nat>, n: nat)
    requires n < |stops| && stops[0] == 0
    requires forall k :: 0 <= k < |stops| - 1 ==> ReadsOne(s, stops[k], stops[k + 1])
    ensures Boundary(s, 0, stops[n])
    decreases n
  {
    if n > 0 {
      ReadingIsBoundary(s, stops, n - 1);
      assert ReadsOne(s, stops[n - 1], stops[n - 1 + 1]);
      StepReadsOne(s, stops[n - 1], stops[n]);
      assert Boundary(s, stops[n - 1], stops[n]);
      BoundariesCompose(s, 0, stops[n - 1], stops[n]);
    }
  }

  // No hole starts inside a comment or a literal, and none of these starts on a hole.
  lemma NoHoleInsideALexeme(s: Source, c: Span, p: nat, j: nat)
    requires c in Holes(s, 0) && (exists stops :: Reads(s, stops, p)) && Lexeme(s, p, j)
    ensures !(p <= c.start < j)
    ensures exists stops :: Reads(s, stops, c.start)
  {
    BoundariesAreReadings(s, p);
    SkipsExactlyLexemes(s, p, j);
    HolesAvoidCommentsAndLiterals(s, c, p);
    HolesAreCandidates(s, 0);
    BoundariesAreReadings(s, c.start);
  }

  // ---- question marks ----

  // The delimiters, spelled out.
  lemma DelimitersAre(cp: int)
    ensures IsDelimiter(cp) <==> IsSpaceCode(cp) || exists c :: c in ".;{}()@\"'" && cp == c as int
  {
    assert '.' in ".;{}()@\"'" && ';' in ".;{}()@\"'" && '{' in ".;{}()@\"'" && '}' in ".;{}()@\"'";
    assert '(' in ".;{}()@\"'" && ')' in ".;{}()@\"'" && '@' in ".;{}()@\"'";
    assert '"' in ".;{}()@\"'" && '\'' in ".;{}()@\"'";
    if cp in {0x2E, 0x3B, 0x7B, 0x7D, 0x28, 0x29, 0x40, 0x22, 0x27} { assert (cp as char) in ".;{}()@\"'"; }
  }

  predicate IsDelimiter(cp: int) {
    IsSpaceCode(cp) || cp in {0x2E, 0x3B, 0x7B, 0x7D, 0x28, 0x29, 0x40, 0x22, 0x27}
  }

  // Code point before an offset, as the scanner computes it: from i - 2 whenever the unit before i
  // is a low surrogate.
  function CodePointBefore(s: Source, i: nat): (r: Option<int>)
    requires i <= |s|
  {
    if i == 0 then None
    else if IsLow(s[i - 1]) && i >= 2 then Some(CodePointAt(s, i - 2))
    else Some(CodePointAt(s, i - 1))
  }

  function CodePointAtSafe(s: Source, i: nat): Option<int> {
    if i >= |s| then None else Some(CodePointAt(s, i))
  }

  predicate IsIdentCodePoint(cp: Option<int>) { cp.Some? && !IsDelimiter(cp.value) }

  predicate LoneQuestion(s: Source, i: nat) {
    Is(s, i, QUESTION) &&
    !IsIdentCodePoint(CodePointBefore(s, i)) && !IsIdentCodePoint(CodePointAtSafe(s, i + 1))
  }

  predicate DelimitedBefore(s: Source, i: nat)
    requires i <= |s|
  {
    i == 0 || IsDelimiter(s[i - 1])
  }

  predicate DelimitedAfter(s: Source, i: nat) { i >= |s| || IsDelimiter(s[i]) }

  // A question mark is a hole exactly when it stands between delimiters (or the ends of the text) -
  // except that a lone low surrogate in front of it is overlooked and the unit before that decides.
  lemma QuestionMarksStandAlone(s: Source, i: nat)
    requires Is(s, i, QUESTION)
    ensures LoneQuestion(s, i) <==>
            DelimitedAfter(s, i + 1) &&
            (DelimitedBefore(s, i) ||
             (i >= 2 && IsLow(s[i - 1]) && !IsHigh(s[i - 2]) && IsDelimiter(s[i - 2])))
  {
    if i + 1 < |s| && IsHigh(s[i + 1]) && i + 2 < |s| && IsLow(s[i + 2]) {
      assert CodePointAt(s, i + 1) >= 0x10000;
    }
    if i >= 2 && IsHigh(s[i - 2]) && IsLow(s[i - 1]) {
      assert CodePointAt(s, i - 2) >= 0x10000;
    }
  }

  // The overlooked case occurs: a space, a lone low surrogate, a question mark.
  lemma LoneSurrogateIsOverlooked()
    ensures var s := [0x20, 0xDC00, QUESTION];
            LoneQuestion(s, 2) && !DelimitedBefore(s, 2)
  {
    var s: Source := [0x20, 0xDC00, QUESTION];
    assert CodePointBefore(s, 2) == Some(0x20);
  }

  // ---- the holes of a text ----

  datatype Span = Span(start: nat, end: nat)

  // Holes in scanning order from offset i on. An opening bracket nothing closes is stepped over.
  function Holes(s: Source, i: nat): seq<Span>
    decreases if i < |s| then |s| - i else 0
  {
    if i >= |s| then []
    else if SkipEnd(s, i) > i then Holes(s, SkipEnd(s, i))
    else if Opens(Hole, s, i) then
      match Matching(Hole, s, i + 2, 1)
      case Some(j) => [Span(i, j)] + Holes(s, j)
      case None => Holes(s, i + 2)
    else if LoneQuestion(s, i) then [Span(i, i + 1)] + Holes(s, i + 1)
    else Holes(s, i + 1)
  }

  // a is one of the offsets the lexer stops at when it starts at i.
  predicate Boundary(s: Source, i: nat, a: nat)
    decreases if i < a then a - i else 0
  {
    i == a || (i < a && i < |s| && Boundary(s, Step(s, i), a))
  }

  // Something that could be a hole, wherever it stands in the lexical structure.
  predicate Candidate(s: Source, c: Span) {
    && Boundary(s, 0, c.start)
    && SkipEnd(s, c.start) == c.start
    && ((Opens(Hole, s, c.start) && Matching(Hole, s, c.start + 2, 1) == Some(c.end)) ||
        (LoneQuestion(s, c.start) && c.end == c.start + 1))
  }

  predicate Within(inner: Span, outer: Span) { outer.start <= inner.start && inner.end <= outer.end }

  lemma {:induction false} BoundariesCompose(s: Source, i: nat, j: nat, k: nat)
    requires Boundary(s, i, j) && Boundary(s, j, k)
    ensures Boundary(s, i, k)
    decreases if i < j then j - i else 0
  {
    if i < j { BoundariesCompose(s, Step(s, i), j, k); }
  }

  lemma {:induction false} BoundariesAreAChain(s: Source, i: nat, j: nat, k: nat)
    requires Boundary(s, i, j) && Boundary(s, i, k) && j <= k
    ensures Boundary(s, j, k)
    decreases if i < j then j - i else 0
  {
    if i < j { BoundariesAreAChain(s, Step(s, i), j, k); }
  }

  // Both units of a hole bracket are lexical steps of their own.
  lemma BracketsAreBoundaries(s: Source, i: nat)
    requires Opens(Hole, s, i) || Closes(Hole, s, i)
    ensures Step(s, i) == i + 1 && Step(s, i + 1) == i + 2
    ensures Boundary(s, i, i + 2)
  {
    assert Boundary(s, i + 1, i + 2);
  }

  lemma {:induction false} MatchingIsBoundary(s: Source, i: nat, depth: nat)
    requires depth >= 1 && Matching(Hole, s, i, depth).Some?
    ensures Boundary(s, i, Matching(Hole, s, i, depth).value)
    decreases if i < |s| then |s| - i else 0
  {
    var j := Matching(Hole, s, i, depth).value;
    if Opens(Hole, s, i) {
      BracketsAreBoundaries(s, i);
      MatchingIsBoundary(s, i + 2, depth + 1);
      BoundariesCompose(s, i, i + 2, j);
    } else if Closes(Hole, s, i) {
      BracketsAreBoundaries(s, i);
      if depth > 1 {
        MatchingIsBoundary(s, i + 2, depth - 1);
        BoundariesCompose(s, i, i + 2, j);
      }
    } else {
      MatchingIsBoundary(s, Step(s, i), depth);
    }
  }

  // Everything reported from i on is a candidate at or after i, and the spans come in order.
  lemma {:induction false} HolesAreCandidates(s: Source, i: nat)
    requires Boundary(s, 0, i)
    ensures forall c :: c in Holes(s, i) ==> Candidate(s, c) && i <= c.start < c.end <= |s|
    ensures forall k, l :: 0 <= k < l < |Holes(s, i)| ==> Holes(s, i)[k].end <= Holes(s, i)[l].start
    decreases if i < |s| then |s| - i else 0
  {
    if i < |s| {
      if SkipEnd(s, i) > i {
        BoundariesCompose(s, 0, i, Step(s, i));
        HolesAreCandidates(s, Step(s, i));
      } else if Opens(Hole, s, i) {
        BracketsAreBoundaries(s, i);
        BoundariesCompose(s, 0, i, i + 2);
        if Matching(Hole, s, i + 2, 1).Some? {
          var j := Matching(Hole, s, i + 2, 1).value;
          MatchingIsBoundary(s, i + 2, 1);
          BoundariesCompose(s, 0, i + 2, j);
          HolesAreCandidates(s, j);
          assert Candidate(s, Span(i, j));
        } else {
          HolesAreCandidates(s, i + 2);
        }
      } else {
        BoundariesCompose(s, 0, i, i + 1);
        HolesAreCandidates(s, i + 1);
      }
    }
  }

  lemma {:induction false} MatchingSplits(s: Source, i: nat, depth: nat, above: nat)
    requires depth >= 1 && above >= 1 && Matching(Hole, s, i, depth + above).Some?
    ensures Matching(Hole, s, i, depth).Some?
    ensures Matching(Hole, s, i, depth).value <= Matching(Hole, s, i, depth + above).value
    decreases if i < |s| then |s| - i else 0
  {
    if Opens(Hole, s, i) {
      MatchingSplits(s, i + 2, depth + 1, above);
    } else if Closes(Hole, s, i) {
      if depth > 1 { MatchingSplits(s, i + 2, depth - 1, above); }
    } else {
      MatchingSplits(s, Step(s, i), depth, above);
    }
  }

  // A hole opened inside a hole that closes also closes inside it.
  lemma {:induction false} InnerHoleCloses(s: Source, i: nat, depth: nat, a: nat)
    requires depth >= 1 && Matching(Hole, s, i, depth).Some?
    requires Boundary(s, i, a) && a < Matching(Hole, s, i, depth).value
    requires Opens(Hole, s, a)
    ensures Matching(Hole, s, a + 2, 1).Some?
    ensures Matching(Hole, s, a + 2, 1).value <= Matching(Hole, s, i, depth).value
    decreases if i < |s| then |s| - i else 0
  {
    if i == a {
      MatchingSplits(s, a + 2, 1, depth);
    } else if Opens(Hole, s, i) {
      BracketsAreBoundaries(s, i);
      assert a != i + 1;
      BoundariesAreAChain(s, i, i + 2, a);
      InnerHoleCloses(s, i + 2, depth + 1, a);
    } else if Closes(Hole, s, i) {
      BracketsAreBoundaries(s, i);
      assert a != i + 1;
      BoundariesAreAChain(s, i, i + 2, a);
      InnerHoleCloses(s, i + 2, depth - 1, a);
    } else {
      InnerHoleCloses(s, Step(s, i), depth, a);
    }
  }

  // No candidate is missed: each lies within a reported span.
  lemma {:induction false} CandidatesAreCovered(s: Source, i: nat, c: Span) returns (r: Span)
    requires Candidate(s, c) && Boundary(s, 0, i) && Boundary(s, i, c.start)
    ensures r in Holes(s, i) && Within(c, r)
    decreases if i < |s| then |s| - i else 0
  {
    hide SkipEnd, StringEnd, LineEnd, CharLiteralLength, IsDelimiter, Matching;
    var a := c.start;
    if SkipEnd(s, i) > i {
      BoundariesCompose(s, 0, i, Step(s, i));
      r := CandidatesAreCovered(s, Step(s, i), c);
    } else if Opens(Hole, s, i) {
      BracketsAreBoundaries(s, i);
      BoundariesCompose(s, 0, i, i + 2);
      assert a != i + 1;
      if a > i { BoundariesAreAChain(s, i, i + 2, a); }
      match Matching(Hole, s, i + 2, 1)
      case Some(j) =>
        MatchingIsBoundary(s, i + 2, 1);
        BoundariesCompose(s, 0, i + 2, j);
        if a >= j {
          BoundariesAreAChain(s, i + 2, j, a);
          r := CandidatesAreCovered(s, j, c);
        } else {
          r := Span(i, j);
          if a > i && Opens(Hole, s, a) { InnerHoleCloses(s, i + 2, 1, a); }
        }
      case None =>
        r := CandidatesAreCovered(s, i + 2, c);
    } else if a == i {
      r := c;
    } else {
      BoundariesCompose(s, 0, i, i + 1);
      r := CandidatesAreCovered(s, i + 1, c);
    }
  }

  // What is reported is exactly the outermost candidates; with the order of HolesAreCandidates this
  // determines the result.
  lemma HolesAreTheOutermostCandidates(s: Source, c: Span)
    ensures c in Holes(s, 0) <==>
            Candidate(s, c) && forall d :: Candidate(s, d) && Within(c, d) ==> d == c
  {
    HolesAreCandidates(s, 0);
    if Candidate(s, c) {
      var r := CandidatesAreCovered(s, 0, c);
    }
    if c in Holes(s, 0) {
      forall d | Candidate(s, d) && Within(c, d)
        ensures d == c
      {
        var r := CandidatesAreCovered(s, 0, d);
        var holes := Holes(s, 0);
        var k :| 0 <= k < |holes| && holes[k] == c;
        var l :| 0 <= l < |holes| && holes[l] == r;
        assert k == l;
      }
    }
  }

  // No hole starts inside a comment or a literal, and no comment or literal starts on a hole.
  lemma HolesAvoidCommentsAndLiterals(s: Source, c: Span, p: nat)
    requires c in Holes(s, 0)
    requires Boundary(s, 0, p) && SkipEnd(s, p) > p
    ensures !(p <= c.start < SkipEnd(s, p))
  {
    HolesAreCandidates(s, 0);
    if p < c.start {
      BoundariesAreAChain(s, 0, p, c.start);
      BoundaryAfterStep(s, p, c.start);
    }
  }

  lemma BoundaryAfterStep(s: Source, p: nat, a: nat)
    requires p < a && Boundary(s, p, a)
    ensures Step(s, p) <= a
  {
  }

  // ---- line numbers ----

  datatype LinePos = LinePos(line: nat, start: nat)

  const TOP := LinePos(0, 0)

  // The position reached by counting every newline of [from, to).
  function Counted(s: Source, from: nat, end: nat, p: LinePos): (r: LinePos)
    ensures p.start <= from <= end ==> r.start <= end
    decreases end
  {
    if end <= from then p
    else
      var q := Counted(s, from, end - 1, p);
      if Is(s, end - 1, NEWLINE) then LinePos(q.line + 1, end) else q
  }

  // The scanner's own account: newlines inside character literals are not seen.
  function Seen(s: Source, i: nat, p: LinePos, a: nat): (r: LinePos)
    requires Boundary(s, i, a)
    ensures p.start <= i ==> r.start <= a
    decreases if i < a then a - i else 0
  {
    if i == a then p else Seen(s, Step(s, i), SeenStep(s, i, p), a)
  }

  function SeenStep(s: Source, i: nat, p: LinePos): LinePos {
    if CharLiteralAt(s, i) then p else Counted(s, i, Step(s, i), p)
  }

  predicate CharLiteralAt(s: Source, i: nat) { CharLiteralLength(s, i) > 0 }

  lemma {:induction false} SeenComposes(s: Source, i: nat, p: LinePos, j: nat, k: nat)
    requires Boundary(s, i, j) && Boundary(s, j, k)
    ensures Boundary(s, i, k)
    ensures Seen(s, i, p, k) == Seen(s, j, Seen(s, i, p, j), k)
    decreases if i < j then j - i else 0
  {
    BoundariesCompose(s, i, j, k);
    if i < j { SeenComposes(s, Step(s, i), SeenStep(s, i, p), j, k); }
  }

  // How many newlines of [from, to) there are.
  function NewlinesIn(s: Source, from: nat, end: nat): nat
    decreases end
  {
    if end <= from then 0 else NewlinesIn(s, from, end - 1) + (if Is(s, end - 1, NEWLINE) then 1 else 0)
  }

  // How many newlines the character literals up to a swallow.
  function Swallowed(s: Source, i: nat, a: nat): nat
    requires Boundary(s, i, a)
    decreases if i < a then a - i else 0
  {
    if i == a then 0
    else (if CharLiteralAt(s, i) then NewlinesIn(s, i, Step(s, i)) else 0) + Swallowed(s, Step(s, i), a)
  }

  lemma {:induction false} CountedCounts(s: Source, from: nat, end: nat, p: LinePos)
    ensures Counted(s, from, end, p).line == p.line + NewlinesIn(s, from, end)
    ensures NewlinesIn(s, from, end) == 0 ==> Counted(s, from, end, p) == p
    decreases end
  {
    if from < end { CountedCounts(s, from, end - 1, p); }
  }

  lemma {:induction false} CountedComposes(s: Source, from: nat, mid: nat, end: nat, p: LinePos)
    requires from <= mid <= end
    ensures Counted(s, from, end, p) == Counted(s, mid, end, Counted(s, from, mid, p))
    ensures NewlinesIn(s, from, end) == NewlinesIn(s, from, mid) + NewlinesIn(s, mid, end)
    decreases end
  {
    if mid < end { CountedComposes(s, from, mid, end - 1, p); }
  }

  // What the counted position means: the number of newlines before the offset, and the offset after
  // the last of them.
  lemma {:induction false} CountedIsTheLine(s: Source, end: nat)
    ensures var p := Counted(s, 0, end, TOP);
            p.line == NewlinesIn(s, 0, end) && p.start <= end &&
            (p.start == 0 || Is(s, p.start - 1, NEWLINE)) &&
            forall k :: p.start <= k < end ==> !Is(s, k, NEWLINE)
    decreases end
  {
    if 0 < end { CountedIsTheLine(s, end - 1); }
  }

  lemma {:induction false} SeenIsCounted(s: Source, i: nat, p: LinePos, a: nat)
    requires Boundary(s, i, a)
    ensures Seen(s, i, p, a).line + Swallowed(s, i, a) == p.line + NewlinesIn(s, i, a)
    ensures Swallowed(s, i, a) == 0 ==> Seen(s, i, p, a) == Counted(s, i, a, p)
    decreases if i < a then a - i else 0
  {
    if i < a {
      BoundaryAfterStep(s, i, a);
      SeenIsCounted(s, Step(s, i), SeenStep(s, i, p), a);
      CountedComposes(s, i, Step(s, i), a, p);
      CountedCounts(s, i, Step(s, i), p);
    }
  }

  // The reported line is the true one exactly when no character literal before it holds a newline;
  // then the start of the line, and so the column, is right as well.
  lemma LinesAreRightUnlessSwallowed(s: Source, a: nat)
    requires Boundary(s, 0, a)
    ensures Seen(s, 0, TOP, a).line == NewlinesIn(s, 0, a) <==> Swallowed(s, 0, a) == 0
    ensures Swallowed(s, 0, a) == 0 ==> Seen(s, 0, TOP, a) == Counted(s, 0, a, TOP)
  {
    SeenIsCounted(s, 0, TOP, a);
  }

  // The count is that of the offsets at which a newline stands.
  lemma {:induction false} NewlinesAreCounted(s: Source, from: nat, end: nat)
    ensures NewlinesIn(s, from, end) == |set k | from <= k < end && k < |s| && s[k] == NEWLINE|
    decreases end
  {
    var here := set k | from <= k < end && k < |s| && s[k] == NEWLINE;
    if from < end {
      NewlinesAreCounted(s, from, end - 1);
      var before := set k | from <= k < end - 1 && k < |s| && s[k] == NEWLINE;
      assert here == if Is(s, end - 1, NEWLINE) then before + {end - 1} else before;
    } else {
      assert here == {};
    }
  }

  // A newline is swallowed exactly if a character literal the reading comes across in front of a holds one.
  lemma SwallowedExactly(s: Source, a: nat)
    requires Boundary(s, 0, a)
    ensures Swallowed(s, 0, a) > 0 <==>
            exists p: nat, j: nat :: p < a && (exists stops :: Reads(s, stops, p)) && CharRuns(s, p, j) && NEWLINE in s[p..j]
  {
    forall p: nat
      ensures Boundary(s, 0, p) <==> exists stops :: Reads(s, stops, p)
    {
      BoundariesAreReadings(s, p);
    }
    forall p: nat, j: nat | CharRuns(s, p, j)
      ensures NEWLINE in s[p..j] <==> NewlinesIn(s, p, j) > 0
      ensures CharLiteralAt(s, p) && Step(s, p) == j
    {
      CharsExactly(s, p, j);
      CharIsStep(s, p);
      NewlinesFound(s, p, j);
    }
    hide Reads, CharRuns, NewlinesIn;
    if Swallowed(s, 0, a) > 0 {
      var p := SwallowedSomewhere(s, 0, a);
      CharsExactly(s, p, p + CharLiteralLength(s, p));
      CharIsStep(s, p);
    }
    if p: nat, j: nat :| p < a && (exists stops :: Reads(s, stops, p)) && CharRuns(s, p, j) && NEWLINE in s[p..j] {
      SwallowedThere(s, 0, a, p);
    }
  }

  lemma CharIsStep(s: Source, p: nat)
    requires CharLiteralAt(s, p)
    ensures Step(s, p) == p + CharLiteralLength(s, p) <= |s|
  {
  }

  lemma {:induction false} NewlinesFound(s: Source, from: nat, end: nat)
    requires from <= end <= |s|
    ensures NewlinesIn(s, from, end) > 0 <==> NEWLINE in s[from..end]
    decreases end
  {
    if from < end {
      NewlinesFound(s, from, end - 1);
      assert s[from..end] == s[from..end - 1] + [s[end - 1]];
    }
  }

  lemma {:induction false} SwallowedSomewhere(s: Source, i: nat, a: nat) returns (p: nat)
    requires Boundary(s, 0, i) && Boundary(s, i, a) && Swallowed(s, i, a) > 0
    ensures p < a && Boundary(s, 0, p) && CharLiteralAt(s, p) && NewlinesIn(s, p, Step(s, p)) > 0
    decreases if i < a then a - i else 0
  {
    if CharLiteralAt(s, i) && NewlinesIn(s, i, Step(s, i)) > 0 {
      p := i;
    } else {
      assert Boundary(s, i, Step(s, i));
      BoundariesCompose(s, 0, i, Step(s, i));
      p := SwallowedSomewhere(s, Step(s, i), a);
    }
  }

  lemma {:induction false} SwallowedThere(s: Source, i: nat, a: nat, p: nat)
    requires Boundary(s, i, a) && Boundary(s, i, p) && p < a
    requires CharLiteralAt(s, p) && NewlinesIn(s, p, Step(s, p)) > 0
    ensures Swallowed(s, i, a) > 0
    decreases if i < a then a - i else 0
  {
    if i < p {
      SwallowedThere(s, Step(s, i), a, p);
    }
  }

  // ---- the scan's result ----

  datatype GoalPosition =
    GoalPosition(startOffset: nat, endOffset: nat, line: nat, column: nat, markerText: Source)

  function PositionOf(s: Source, c: Span): (p: GoalPosition)
    requires Boundary(s, 0, c.start) && c.start <= c.end <= |s|
  {
    var p := Seen(s, 0, TOP, c.start);
    GoalPosition(c.start, c.end, p.line, c.start - p.start, s[c.start..c.end])
  }

  function Positions(s: Source): (ps: seq<GoalPosition>)
    ensures |ps| == |Holes(s, 0)|
  {
    HolesAreCandidates(s, 0);
    seq(|Holes(s, 0)|, k requires 0 <= k < |Holes(s, 0)| => PositionOf(s, Holes(s, 0)[k]))
  }

  // What a caller may rely on: spans lie in the text, in order and apart from each other, and every
  // marker is its span's text - a lone question mark, or a bracketed hole whose inside is a nested body.
  lemma PositionsAreWellFormed(s: Source, k: nat)
    requires k < |Positions(s)|
    ensures var p := Positions(s)[k];
            p.startOffset < p.endOffset <= |s| && p.markerText == s[p.startOffset..p.endOffset] &&
            (p.markerText == [QUESTION] ||
             (Opens(Hole, p.markerText, 0) && Closes(Hole, p.markerText, |p.markerText| - 2) &&
              |p.markerText| >= 4 &&
              Nests(Hole, s, p.startOffset + 2, p.endOffset)))
    ensures k + 1 < |Positions(s)| ==> Positions(s)[k].endOffset <= Positions(s)[k + 1].startOffset
  {
    HolesAreCandidates(s, 0);
    var c := Holes(s, 0)[k];
    assert c in Holes(s, 0);
    if Opens(Hole, s, c.start) {
      CountingMatchesNesting(Hole, s, c.start + 2, c.end);
      var body :| Extent(Hole, s, c.start + 2, body) == Some(c.end);
      BodyEndsWithBracket(Hole, s, c.start + 2, body);
    }
  }

  // Each position is the place of its hole: offsets and text, and, unless a newline in front of it was
  // swallowed, the number of newlines before it and its distance from the start of the line.
  lemma PositionsShowTheirPlaces(s: Source, k: nat)
    requires k < |Holes(s, 0)|
    ensures |Positions(s)| == |Holes(s, 0)|
    ensures var p, c := Positions(s)[k], Holes(s, 0)[k];
            p.startOffset == c.start && p.endOffset == c.end && c.start < c.end <= |s| &&
            p.markerText == s[c.start..c.end] && Boundary(s, 0, c.start) &&
            p.line + Swallowed(s, 0, c.start) == NewlinesIn(s, 0, c.start) &&
            (Swallowed(s, 0, c.start) == 0 ==>
              p.column <= c.start &&
              (p.column == c.start || s[c.start - p.column - 1] == NEWLINE) &&
              NEWLINE !in s[c.start - p.column..c.start])
  {
    HolesAreCandidates(s, 0);
    var c := Holes(s, 0)[k];
    assert c in Holes(s, 0);
    SeenIsCounted(s, 0, TOP, c.start);
    CountedIsTheLine(s, c.start);
    var line := Counted(s, 0, c.start, TOP).start;
    forall k | line <= k < c.start ensures s[k] != NEWLINE {
      assert !Is(s, k, NEWLINE);
    }
  }

  lemma {:induction false} BodyEndsWithBracket(nest: Nest, s: Source, i: nat, body: Body)
    requires Extent(nest, s, i, body).Some?
    ensures Closes(nest, s, Extent(nest, s, i, body).value - 2)
    decreases body
  {
    match body
    case Close =>
    case Piece(rest) => BodyEndsWithBracket(nest, s, if nest.Hole? then Step(s, i) else i + 1, rest);
    case Nested(inner, rest) => BodyEndsWithBracket(nest, s, Extent(nest, s, i + 2, inner).value, rest);
  }
}

/** The scanner itself: a cursor moved by the skip helpers and by the main loop. */
module GoalScanner {
  import opened Basics
  import opened CodeUnits
  import opened GoalGrammar

  class ScanState {
    var i: nat
    var line: nat
    var lineStart: nat

    constructor ()
      ensures i == 0 && line == 0 && lineStart == 0
    {
      i, line, lineStart := 0, 0, 0;
    }

    function At(): LinePos
      reads this
    {
      LinePos(line, lineStart)
    }

    method BumpLineIfNewline(source: Source)
      modifies `line, `lineStart
      ensures At() == Counted(source, i, i + 1, old(At()))
    {
      if i < |source| && source[i] == NEWLINE {
        line := line + 1;
        lineStart := i + 1;
      }
    }

    method SkipLineComment(source: Source) returns (matched: bool)
      modifies this
      ensures matched == StartsLineComment(source, old(i))
      ensures i == if matched then LineEnd(source, old(i)) else old(i)
      ensures At() == old(At())
    {
      if !(i + 1 < |source| && source[i] == DASH && source[i + 1] == DASH) { return false; }
      while i < |source| && source[i] != NEWLINE
        invariant LineEnd(source, i) == LineEnd(source, old(i))
        invariant At() == old(At())
      {
        i := i + 1;
      }
      return true;
    }

    method SkipBlockComment(source: Source) returns (matched: bool)
      modifies this
      ensures matched == Opens(Comment, source, old(i))
      ensures matched ==> i == SkipEnd(source, old(i)) && old(i) < i
      ensures matched ==> At() == Counted(source, old(i), i, old(At()))
      ensures !matched ==> i == old(i) && At() == old(At())
    {
      if !(i + 1 < |source| && source[i] == OPEN_BRACE && source[i + 1] == DASH) { return false; }
      var depth := 1;
      i := i + 2;
      NoNewlineCounted(source, old(i), i, old(At()));
      while i < |source| && depth > 0
        invariant old(i) + 2 <= i <= |source| && depth >= 0
        invariant Matching(Comment, source, old(i) + 2, 1) ==
                  if depth > 0 then Matching(Comment, source, i, depth) else Some(i)
        invariant At() == Counted(source, old(i), i, old(At()))
      {
        if i + 1 < |source| && source[i] == OPEN_BRACE && source[i + 1] == DASH {
          depth := depth + 1;
          i := i + 2;
        } else if i + 1 < |source| && source[i] == DASH && source[i + 1] == CLOSE_BRACE {
          depth := depth - 1;
          i := i + 2;
        } else {
          BumpLineIfNewline(source);
          i := i + 1;
        }
      }
      return true;
    }

    method SkipStringLiteral(source: Source) returns (matched: bool)
      modifies this
      ensures matched == Is(source, old(i), QUOTE)
      ensures matched ==> i == StringEnd(source, old(i) + 1) && old(i) < i
      ensures matched ==> At() == Counted(source, old(i), i, old(At()))
      ensures !matched ==> i == old(i) && At() == old(At())
    {
      if !(i < |source| && source[i] == QUOTE) { return false; }
      i := i + 1;
      while i < |source| && source[i] != QUOTE
        invariant old(i) < i <= |source| + 1
        invariant StringEnd(source, i) == StringEnd(source, old(i) + 1)
        invariant At() == Counted(source, old(i), i, old(At()))
        decreases |source| + 1 - i
      {
        if source[i] == BACKSLASH { i := i + 1; }
        BumpLineIfNewline(source);
        i := i + 1;
      }
      if i < |source| { i := i + 1; }
      return true;
    }

    method SkipCharLiteral(source: Source) returns (matched: bool)
      modifies `i
      ensures matched == CharLiteralAt(source, old(i))
      ensures i == old(i) + CharLiteralLength(source, old(i))
    {
      if !(i < |source| && source[i] == APOSTROPHE) || i + 2 >= |source| { return false; }
      if source[i + 1] == BACKSLASH && i + 3 < |source| && source[i + 3] == APOSTROPHE {
        i := i + 4;
        return true;
      }
      if source[i + 1] != APOSTROPHE && source[i + 2] == APOSTROPHE {
        i := i + 3;
        return true;
      }
      return false;
    }

    // The chain of helpers both loops try first.
    method SkipAny(source: Source) returns (matched: bool)
      requires i < |source|
      modifies this
      ensures matched == (SkipEnd(source, old(i)) > old(i))
      ensures i == if matched then Step(source, old(i)) else old(i)
      ensures At() == if matched then SeenStep(source, old(i), old(At())) else old(At())
    {
      matched := SkipLineComment(source);
      if matched {
        NoNewlineCounted(source, old(i), i, old(At()));
        return;
      }
      matched := SkipBlockComment(source);
      if matched { return; }
      matched := SkipStringLiteral(source);
      if matched { return; }
      matched := SkipCharLiteral(source);
    }
  }

  lemma {:induction false} NoNewlineCounted(s: Source, from: nat, end: nat, p: LinePos)
    requires forall k :: from <= k < end && k < |s| ==> s[k] != NEWLINE
    ensures Counted(s, from, end, p) == p
    decreases end
  {
    if from < end { NoNewlineCounted(s, from, end - 1, p); }
  }

  // The cursor's line fields are what the lexer has seen up to its offset.
  predicate Tracked(s: Source, i: nat, p: LinePos) { Boundary(s, 0, i) && Seen(s, 0, TOP, i) == p }

  lemma TrackedStep(s: Source, i: nat, p: LinePos)
    requires Tracked(s, i, p) && i < |s|
    ensures Tracked(s, Step(s, i), SeenStep(s, i, p))
  {
    assert Boundary(s, i, Step(s, i));
    SeenComposes(s, 0, TOP, i, Step(s, i));
  }

  lemma TrackedBracket(s: Source, i: nat, p: LinePos)
    requires Tracked(s, i, p) && (Opens(Hole, s, i) || Closes(Hole, s, i))
    ensures Tracked(s, i + 2, p)
  {
    BracketsAreBoundaries(s, i);
    TrackedStep(s, i, p);
    assert SeenStep(s, i, p) == p by { NoNewlineCounted(s, i, i + 1, p); }
    TrackedStep(s, i + 1, p);
    assert SeenStep(s, i + 1, p) == p by { NoNewlineCounted(s, i + 1, i + 2, p); }
  }

  // Finds where the hole whose opening bracket has just been passed closes.
  method FindClose(source: Source, st: ScanState) returns (depth: nat)
    requires st.i <= |source| && Tracked(source, st.i, st.At())
    modifies st
    ensures depth == 0 <==> Matching(Hole, source, old(st.i), 1).Some?
    ensures depth == 0 ==> Matching(Hole, source, old(st.i), 1) == Some(st.i) && Tracked(source, st.i, st.At())
  {
    depth := 1;
    while st.i < |source| && depth > 0
      invariant Tracked(source, st.i, st.At())
      invariant Matching(Hole, source, old(st.i), 1) ==
                if depth > 0 then Matching(Hole, source, st.i, depth) else Some(st.i)
      decreases |source| + 1 - st.i
    {
      ghost var i, p := st.i, st.At();
      TrackedStep(source, i, p);
      if Opens(Hole, source, i) || Closes(Hole, source, i) { TrackedBracket(source, i, p); }
      if st.i + 1 < |source| && source[st.i] == OPEN_BRACE && source[st.i + 1] == BANG {
        depth := depth + 1;
        st.i := st.i + 2;
        continue;
      }
      if st.i + 1 < |source| && source[st.i] == BANG && source[st.i + 1] == CLOSE_BRACE {
        depth := depth - 1;
        st.i := st.i + 2;
        continue;
      }
      var skipped := st.SkipAny(source);
      if skipped { continue; }
      st.BumpLineIfNewline(source);
      st.i := st.i + 1;
    }
  }

  // The positions collected so far are the first of the result, and the rest lies from offset i on.
  predicate Found(s: Source, i: nat, p: LinePos, positions: seq<GoalPosition>) {
    && Tracked(s, i, p)
    && |positions| <= |Positions(s)|
    && positions == Positions(s)[..|positions|]
    && Holes(s, i) == Holes(s, 0)[|positions|..]
  }

  lemma FoundNothing(s: Source, i: nat, p: LinePos, positions: seq<GoalPosition>)
    requires Found(s, i, p, positions) && i < |s|
    ensures SkipEnd(s, i) > i || !(Opens(Hole, s, i) || LoneQuestion(s, i)) ==>
              Found(s, Step(s, i), SeenStep(s, i, p), positions)
    ensures SkipEnd(s, i) == i && Opens(Hole, s, i) && Matching(Hole, s, i + 2, 1).None? ==>
              Found(s, i + 2, p, positions)
  {
    TrackedStep(s, i, p);
    if Opens(Hole, s, i) { TrackedBracket(s, i, p); }
  }

  lemma FoundOne(s: Source, i: nat, p: LinePos, positions: seq<GoalPosition>, j: nat, q: LinePos)
    requires Found(s, i, p, positions) && i < |s| && SkipEnd(s, i) == i
    requires Tracked(s, j, q) && i <= j
    requires if Opens(Hole, s, i) then Matching(Hole, s, i + 2, 1) == Some(j) else LoneQuestion(s, i) && j == i + 1
    ensures i < j <= |s| && p.start <= i
    ensures Found(s, j, q, positions + [GoalPosition(i, j, p.line, i - p.start, s[i..j])])
  {
    HolesAreCandidates(s, 0);
    var n := |positions|;
    assert Holes(s, i) == [Span(i, j)] + Holes(s, j);
    assert Holes(s, 0)[n] == Holes(s, i)[0];
    assert Holes(s, j) == Holes(s, i)[1..] == Holes(s, 0)[n + 1..];
    assert Positions(s)[n] == PositionOf(s, Span(i, j));
  }

  method FindGoalPositions(source: Source) returns (positions: seq<GoalPosition>)
    ensures positions == Positions(source)
  {
    hide Found, Positions, Tracked, Seen, SeenStep;
    positions := [];
    var st := new ScanState();
    NothingYet(source);
    while st.i < |source|
      invariant Found(source, st.i, st.At(), positions)
      decreases |source| + 1 - st.i
    {
      ghost var i, p := st.i, st.At();
      FoundNothing(source, i, p, positions);
      var skipped := st.SkipAny(source);
      if skipped { continue; }

      if st.i + 1 < |source| && source[st.i] == OPEN_BRACE && source[st.i + 1] == BANG {
        var start, startLine, startLineStart := st.i, st.line, st.lineStart;
        assert Tracked(source, i + 2, p) by { FoundTracks(source, i, p, positions); }
        st.i := st.i + 2;
        var depth := FindClose(source, st);
        if depth > 0 {
          st.i := start + 2;
          st.line := startLine;
          st.lineStart := startLineStart;
          continue;
        }
        FoundOne(source, i, p, positions, st.i, st.At());
        positions := positions +
          [GoalPosition(start, st.i, startLine, start - startLineStart, source[start..st.i])];
        continue;
      }

      if source[st.i] == QUESTION {
        var prevOk := !IsIdentCodePoint(CodePointBefore(source, st.i));
        var nextOk := !IsIdentCodePoint(CodePointAtSafe(source, st.i + 1));
        if prevOk && nextOk {
          assert Tracked(source, i + 1, p) by { FoundTracks(source, i, p, positions); }
          FoundOne(source, i, p, positions, i + 1, p);
          assert source[i..i + 1] == [QUESTION];
          positions := positions + [GoalPosition(st.i, st.i + 1, st.line, st.i - st.lineStart, [QUESTION])];
          st.i := st.i + 1;
          continue;
        }
      }

      OneUnitSeen(source, i, p);
      st.BumpLineIfNewline(source);
      st.i := st.i + 1;
    }
    AllFound(source, st.i, st.At(), positions);
  }

  lemma NothingYet(s: Source)
    ensures Found(s, 0, TOP, [])
  {
  }

  lemma AllFound(s: Source, i: nat, p: LinePos, positions: seq<GoalPosition>)
    requires Found(s, i, p, positions) && i >= |s|
    ensures positions == Positions(s)
  {
  }

  lemma FoundTracks(s: Source, i: nat, p: LinePos, positions: seq<GoalPosition>)
    requires Found(s, i, p, positions) && i < |s|
    ensures Opens(Hole, s, i) ==> Tracked(s, i + 2, p)
    ensures Is(s, i, QUESTION) ==> Tracked(s, i + 1, p)
  {
    if Opens(Hole, s, i) {
      TrackedBracket(s, i, p);
    } else if s[i] == QUESTION {
      TrackedStep(s, i, p);
      NoNewlineCounted(s, i, i + 1, p);
    }
  }

  lemma OneUnitSeen(s: Source, i: nat, p: LinePos)
    requires i < |s| && SkipEnd(s, i) == i
    ensures Step(s, i) == i + 1 && SeenStep(s, i, p) == Counted(s, i, i + 1, p)
  {
  }

  // Array.prototype.indexOf: the first index, or -1.
  function IndexOf(ids: seq<int>, id: int): (k: int)
    ensures -1 <= k < |ids|
    ensures k >= 0 ==> ids[k] == id
    ensures forall j :: 0 <= j < (if k < 0 then |ids| else k) ==> ids[j] != id
  {
    if ids == [] then -1
    else if ids[0] == id then 0
    else
      var k := IndexOf(ids[1..], id);
      assert forall j :: 1 <= j < |ids| ==> ids[j] == ids[1..][j - 1];
      if k < 0 then -1 else k + 1
  }

  // The marker of a goal: the one at the goal's first index in the id list, if the file has that many.
  function GoalPositionOf(source: Source, goalId: int, goalIds: seq<int>): Option<GoalPosition> {
    var index := IndexOf(goalIds, goalId);
    if index < 0 || index >= |Positions(source)| then None else Some(Positions(source)[index])
  }

  method FindGoalPosition(source: Source, goalId: int, goalIds: seq<int>) returns (pos: Option<GoalPosition>)
    ensures pos == GoalPositionOf(source, goalId, goalIds)
  {
    var positions := FindGoalPositions(source);
    var index := IndexOf(goalIds, goalId);
    if index < 0 || index >= |positions| { return None; }
    return Some(positions[index]);
  }
}
