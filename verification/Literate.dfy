/** Code blocks of literate Agda files. */
module CodeBlocks {
  import opened Basics
  import opened CodeUnits

  // Lines are counted from 1; endLine is the last line of the block.
  datatype CodeBlock = CodeBlock(startLine: nat, endLine: nat, code: Source)

  predicate IsBlank(s: Source) { TrimUnits(s) == [] }

  function CodeOf(lines: seq<Source>, from: nat, end: nat): Source
    requires from <= end <= |lines|
  {
    Join(lines[from..end], [NEWLINE])
  }

  // A block is nothing but the text of the lines it names.
  predicate IsSlice(lines: seq<Source>, b: CodeBlock) {
    1 <= b.startLine <= b.endLine <= |lines| && b.code == CodeOf(lines, b.startLine - 1, b.endLine)
  }

  // Its code, split at newlines, is those lines.
  lemma SlicesShowTheirLines(lines: seq<Source>, b: CodeBlock)
    requires IsSlice(lines, b) && forall k :: 0 <= k < |lines| ==> NEWLINE !in lines[k]
    ensures Split(b.code, NEWLINE) == lines[b.startLine - 1..b.endLine]
  {
    JoinSplits(lines[b.startLine - 1..b.endLine], NEWLINE);
  }

  predicate InOrder(blocks: seq<CodeBlock>) {
    forall j, k :: 0 <= j < k < |blocks| ==> blocks[j].endLine < blocks[k].startLine
  }

  // The block of the lines [from, end), unless it is blank.
  function BlockOf(lines: seq<Source>, from: nat, end: nat): seq<CodeBlock>
    requires from <= end <= |lines|
  {
    if IsBlank(CodeOf(lines, from, end)) then [] else [CodeBlock(from + 1, end, CodeOf(lines, from, end))]
  }

  // The lines of a block in progress, before line j.
  predicate Collected(lines: seq<Source>, startLine: nat, j: nat, codeLines: seq<Source>) {
    1 <= startLine <= j + 1 <= |lines| + 1 && codeLines == lines[startLine - 1..j]
  }

  lemma CollectedMore(lines: seq<Source>, startLine: nat, j: nat, codeLines: seq<Source>)
    requires j < |lines|
    ensures Collected(lines, startLine, j, codeLines) ==> Collected(lines, startLine, j + 1, codeLines + [lines[j]])
    ensures Collected(lines, j + 1, j + 1, [lines[j]]) && Collected(lines, j + 2, j + 1, [])
  {
  }

  lemma BlockOfIsSlice(lines: seq<Source>, from: nat, end: nat)
    requires from <= end <= |lines|
    ensures forall b :: b in BlockOf(lines, from, end) ==> IsSlice(lines, b) && b.startLine == from + 1 && b.endLine == end
  {
    if from == end { assert lines[from..end] == []; }
  }
}

/** Formats with delimiter lines: LaTeX, Org, and the fences of Markdown and Typst. */
module DelimitedBlocks {
  import opened Basics
  import opened CodeUnits
  import opened CodeBlocks

  datatype Format = Latex | Org | Fenced

  const BACKTICK: CodeUnit := 0x60

  // "\begin{code}", "\end{code}", "#+begin_src agda2", "#+end_src" and "agda".
  const BEGIN_CODE: Source := [0x5C, 0x62, 0x65, 0x67, 0x69, 0x6E, 0x7B, 0x63, 0x6F, 0x64, 0x65, 0x7D]
  const END_CODE: Source := [0x5C, 0x65, 0x6E, 0x64, 0x7B, 0x63, 0x6F, 0x64, 0x65, 0x7D]
  const BEGIN_SRC: Source :=
    [0x23, 0x2B, 0x62, 0x65, 0x67, 0x69, 0x6E, 0x5F, 0x73, 0x72, 0x63, 0x20, 0x61, 0x67, 0x64, 0x61, 0x32]
  const END_SRC: Source := [0x23, 0x2B, 0x65, 0x6E, 0x64, 0x5F, 0x73, 0x72, 0x63]
  const AGDA: Source := [0x61, 0x67, 0x64, 0x61]

  // Lower case; no unit outside ASCII is folded to a letter of the delimiters.
  function Folded(s: Source): Source {
    if s == [] then [] else [if 0x41 <= s[0] <= 0x5A then s[0] + 0x20 else s[0]] + Folded(s[1..])
  }

  function Backticks(s: Source): nat {
    if s != [] && s[0] == BACKTICK then 1 + Backticks(s[1..]) else 0
  }

  function AfterBackticks(s: Source): Source {
    if s != [] && s[0] == BACKTICK then AfterBackticks(s[1..]) else s
  }

  predicate OpensCode(f: Format, line: Source) {
    var t := TrimUnits(line);
    match f
    case Latex => t == BEGIN_CODE
    case Org => Folded(t) == BEGIN_SRC
    case Fenced => Backticks(t) >= 3 && Folded(TrimUnits(AfterBackticks(t))) == AGDA
  }

  // A fence that opens a block of some other language.
  predicate OpensOther(f: Format, line: Source) {
    f.Fenced? && !OpensCode(f, line) && Backticks(TrimUnits(line)) >= 3
  }

  predicate Closes(f: Format, line: Source) {
    var t := TrimUnits(line);
    match f
    case Latex => t == END_CODE
    case Org => Folded(t) == END_SRC
    case Fenced => Backticks(t) >= 3 && IsBlank(AfterBackticks(t))
  }

  // ---- the delimiters, spelled out ----

  function Ticks(n: nat): Source { seq(n, k => BACKTICK) }

  // The line is this text with white space around it.
  ghost predicate IsLine(line: Source, text: Source) {
    exists left, right :: AllSpaceUnits(left) && AllSpaceUnits(right) && line == left + text + right
  }

  lemma IsLineTrims(line: Source, text: Source)
    requires IsTrimmedUnits(text)
    ensures IsLine(line, text) <==> TrimUnits(line) == text
  {
    if left, right :| AllSpaceUnits(left) && AllSpaceUnits(right) && line == left + text + right {
      TrimUnitsRemovesMargins(left, text, right);
    }
    if TrimUnits(line) == text { var left, core, right := EveryUnitsHaveMargins(line); }
  }

  lemma DelimitersAreSpelled()
    ensures BEGIN_CODE == Units("\\begin{code}") && END_CODE == Units("\\end{code}")
    ensures BEGIN_SRC == Units("#+begin_src agda2") && END_SRC == Units("#+end_src") && AGDA == Units("agda")
  {
  }

  // LaTeX: the delimiter alone on its line.
  lemma LatexDelimiters(line: Source)
    ensures OpensCode(Latex, line) <==> IsLine(line, Units("\\begin{code}"))
    ensures Closes(Latex, line) <==> IsLine(line, Units("\\end{code}"))
  {
    DelimitersAreSpelled();
    IsLineTrims(line, BEGIN_CODE);
    IsLineTrims(line, END_CODE);
  }

  // Org: likewise, in any case.
  lemma OrgDelimiters(line: Source)
    ensures OpensCode(Org, line) <==> exists text :: Folded(text) == Units("#+begin_src agda2") && IsLine(line, text)
    ensures Closes(Org, line) <==> exists text :: Folded(text) == Units("#+end_src") && IsLine(line, text)
  {
    DelimitersAreSpelled();
    var t := TrimUnits(line);
    var left, core, right := EveryUnitsHaveMargins(line);
    IsLineTrims(line, t);
    forall text | IsLine(line, text) && (Folded(text) == BEGIN_SRC || Folded(text) == END_SRC)
      ensures text == t
    {
      FoldedTrimmed(text);
      IsLineTrims(line, text);
    }
    hide IsLine, Folded;
  }

  lemma {:induction false} FoldedUnits(s: Source)
    ensures |Folded(s)| == |s|
    ensures forall k :: 0 <= k < |s| ==> Folded(s)[k] == if 0x41 <= s[k] <= 0x5A then s[k] + 0x20 else s[k]
    decreases |s|
  {
    if s != [] {
      FoldedUnits(s[1..]);
      assert forall k :: 1 <= k < |s| ==> s[k] == s[1..][k - 1];
    }
  }

  // A text that folds to one of the delimiters begins and ends with none but visible units.
  lemma FoldedTrimmed(text: Source)
    requires Folded(text) == BEGIN_SRC || Folded(text) == END_SRC || Folded(text) == AGDA
    ensures text != [] && IsTrimmedUnits(text) && text[0] != BACKTICK
  {
    hide Folded;
    FoldedUnits(text);
    DelimiterEnds(Folded(text));
  }

  lemma DelimiterEnds(text: Source)
    requires text == BEGIN_SRC || text == END_SRC || text == AGDA
    ensures text != [] && text[0] in {0x23, 0x61} && text[|text| - 1] in {0x32, 0x63, 0x61}
  {
  }

  lemma {:induction false} BackticksAre(n: nat, rest: Source)
    requires rest == [] || rest[0] != BACKTICK
    ensures Backticks(Ticks(n) + rest) == n && AfterBackticks(Ticks(n) + rest) == rest
    decreases n
  {
    if n == 0 {
      assert Ticks(0) + rest == rest;
    } else {
      assert (Ticks(n) + rest)[1..] == Ticks(n - 1) + rest;
      BackticksAre(n - 1, rest);
    }
  }

  lemma {:induction false} TicksInFront(s: Source)
    ensures s == Ticks(Backticks(s)) + AfterBackticks(s)
    ensures AfterBackticks(s) == [] || AfterBackticks(s)[0] != BACKTICK
    decreases |s|
  {
    if s != [] && s[0] == BACKTICK {
      TicksInFront(s[1..]);
      assert Ticks(Backticks(s)) == [BACKTICK] + Ticks(Backticks(s[1..]));
    } else {
      assert Ticks(0) + s == s;
    }
  }

  // Three backticks or more, white space, "agda" in any case, and white space around it all.
  ghost predicate AgdaFence(line: Source, n: nat, gap: Source, word: Source) {
    n >= 3 && AllSpaceUnits(gap) && Folded(word) == Units("agda") && IsLine(line, Ticks(n) + gap + word)
  }

  ghost predicate BareFence(line: Source, n: nat) { n >= 3 && IsLine(line, Ticks(n)) }

  // A fence opens Agda code exactly if it is such a line; any other line that begins with three backticks
  // opens a block that is passed over; and a block is closed by backticks alone.
  lemma FencesExactly(line: Source)
    ensures OpensCode(Fenced, line) <==> exists n, gap, word :: AgdaFence(line, n, gap, word)
    ensures OpensOther(Fenced, line) <==>
            !OpensCode(Fenced, line) && exists left, rest :: AllSpaceUnits(left) && line == left + Ticks(3) + rest
    ensures Closes(Fenced, line) <==> exists n :: BareFence(line, n)
  {
    FenceOpens(line);
    FenceBegins(line);
    FenceCloses(line);
  }

  lemma FenceOpens(line: Source)
    ensures OpensCode(Fenced, line) <==> exists n, gap, word :: AgdaFence(line, n, gap, word)
  {
    DelimitersAreSpelled();
    var t := TrimUnits(line);
    if OpensCode(Fenced, line) {
      var left, core, right := EveryUnitsHaveMargins(line);
      var gap, word, tail := EveryUnitsHaveMargins(AfterBackticks(t));
      TicksInFront(t);
      assert line == left + (Ticks(Backticks(t)) + gap + word) + (tail + right);
      assert IsLine(line, Ticks(Backticks(t)) + gap + word);
      assert AgdaFence(line, Backticks(t), gap, word);
    }
    if n, gap, word :| AgdaFence(line, n, gap, word) {
      FenceIsOpening(line, n, gap, word);
    }
  }

  lemma FenceIsOpening(line: Source, n: nat, gap: Source, word: Source)
    requires AgdaFence(line, n, gap, word)
    ensures OpensCode(Fenced, line)
  {
    hide Backticks, AfterBackticks, TrimUnits, Folded;
    DelimitersAreSpelled();
    var text := Ticks(n) + gap + word;
    FoldedTrimmed(word);
    assert text[0] == BACKTICK && text[|text| - 1] == word[|word| - 1];
    IsLineTrims(line, text);
    assert text == Ticks(n) + (gap + word);
    BackticksAre(n, gap + word);
    assert gap + word == gap + word + [];
    TrimUnitsRemovesMargins(gap, word, []);
  }

  lemma FenceBegins(line: Source)
    ensures Backticks(TrimUnits(line)) >= 3 <==>
            exists left, rest :: AllSpaceUnits(left) && line == left + Ticks(3) + rest
  {
    hide Backticks, AfterBackticks, TrimUnits;
    var t := TrimUnits(line);
    if Backticks(t) >= 3 {
      var left, core, right := EveryUnitsHaveMargins(line);
      TicksInFront(t);
      assert Ticks(Backticks(t)) == Ticks(3) + Ticks(Backticks(t) - 3);
      assert line == left + Ticks(3) + (Ticks(Backticks(t) - 3) + AfterBackticks(t) + right);
    }
    if left, rest :| AllSpaceUnits(left) && line == left + Ticks(3) + rest {
      TicksBegin(left, rest);
    }
  }

  lemma TicksBegin(left: Source, rest: Source)
    requires AllSpaceUnits(left)
    ensures Backticks(TrimUnits(left + Ticks(3) + rest)) >= 3
  {
    hide Backticks, TrimUnits;
    var gap, core, right := EveryUnitsHaveMargins(rest);
    if core == [] {
      assert left + Ticks(3) + rest == left + Ticks(3) + (gap + right);
      TrimUnitsRemovesMargins(left, Ticks(3), gap + right);
      ThreeTicks(Ticks(3));
    } else {
      var text := Ticks(3) + (gap + core);
      assert left + Ticks(3) + rest == left + text + right;
      assert text[..3] == Ticks(3) && text[0] == BACKTICK && text[|text| - 1] == core[|core| - 1];
      TrimUnitsRemovesMargins(left, text, right);
      ThreeTicks(text);
    }
  }

  lemma ThreeTicks(s: Source)
    requires |s| >= 3 && s[..3] == Ticks(3)
    ensures Backticks(s) >= 3
  {
    assert s[0] == s[..3][0] && s[1] == s[..3][1] && s[2] == s[..3][2];
    assert s[1..][0] == s[1] && s[1..][1..][0] == s[2];
    assert Backticks(s) == 1 + Backticks(s[1..]) == 2 + Backticks(s[1..][1..]);
  }

  lemma FenceCloses(line: Source)
    ensures Closes(Fenced, line) <==> exists n :: BareFence(line, n)
  {
    var t := TrimUnits(line);
    if Closes(Fenced, line) {
      var left, core, right := EveryUnitsHaveMargins(line);
      var gap, none, tail := EveryUnitsHaveMargins(AfterBackticks(t));
      TicksInFront(t);
      assert line == left + Ticks(Backticks(t)) + (gap + tail + right);
      assert IsLine(line, Ticks(Backticks(t)));
      assert BareFence(line, Backticks(t));
    }
    if n :| BareFence(line, n) {
      IsLineTrims(line, Ticks(n));
      BackticksAre(n, []);
      assert Ticks(n) + [] == Ticks(n);
    }
  }

  // The first closing line at or after i, or the end of the file.
  function CloseAt(f: Format, lines: seq<Source>, i: nat): (j: nat)
    requires i <= |lines|
    ensures i <= j <= |lines|
    ensures forall k :: i <= k < j ==> !Closes(f, lines[k])
    ensures j < |lines| ==> Closes(f, lines[j])
    decreases |lines| - i
  {
    if i < |lines| && !Closes(f, lines[i]) then CloseAt(f, lines, i + 1) else i
  }

  function Blocks(f: Format, lines: seq<Source>, i: nat): seq<CodeBlock>
    decreases if i <= |lines| then |lines| - i else 0
  {
    if i >= |lines| then []
    else if OpensCode(f, lines[i]) then
      var j := CloseAt(f, lines, i + 1);
      BlockOf(lines, i + 1, j) + Blocks(f, lines, j + 1)
    else if OpensOther(f, lines[i]) then Blocks(f, lines, CloseAt(f, lines, i + 1) + 1)
    else Blocks(f, lines, i + 1)
  }

  // Where a block stands: right behind an opening line, up to the next closing line or the end.
  predicate Delimited(f: Format, lines: seq<Source>, b: CodeBlock) {
    && 2 <= b.startLine <= b.endLine <= |lines|
    && OpensCode(f, lines[b.startLine - 2])
    && (forall k :: b.startLine - 1 <= k < b.endLine ==> !Closes(f, lines[k]))
    && (b.endLine == |lines| || Closes(f, lines[b.endLine]))
    && !IsBlank(b.code)
  }

  // Blocks are slices of the file, delimited, closed or running to the end.
  lemma {:induction false} BlocksAreDelimitedSlices(f: Format, lines: seq<Source>, i: nat, b: CodeBlock)
    requires b in Blocks(f, lines, i)
    ensures IsSlice(lines, b) && Delimited(f, lines, b) && i + 1 < b.startLine
    decreases if i <= |lines| then |lines| - i else 0
  {
    hide OpensCode, OpensOther, Closes, IsSlice;
    if OpensCode(f, lines[i]) {
      var j := CloseAt(f, lines, i + 1);
      if b in BlockOf(lines, i + 1, j) {
        BlockOfIsSlice(lines, i + 1, j);
        BlockIsNotEmpty(lines, i + 1, j);
      } else {
        BlocksAreDelimitedSlices(f, lines, j + 1, b);
      }
    } else if OpensOther(f, lines[i]) {
      BlocksAreDelimitedSlices(f, lines, CloseAt(f, lines, i + 1) + 1, b);
    } else {
      BlocksAreDelimitedSlices(f, lines, i + 1, b);
    }
  }

  // They come in order and apart.
  lemma {:induction false} BlocksAreInOrder(f: Format, lines: seq<Source>, i: nat)
    ensures InOrder(Blocks(f, lines, i))
    decreases if i <= |lines| then |lines| - i else 0
  {
    hide OpensCode, OpensOther, Closes, IsSlice, Delimited, IsBlank;
    if i < |lines| {
      if OpensCode(f, lines[i]) {
        var j := CloseAt(f, lines, i + 1);
        var rest := Blocks(f, lines, j + 1);
        BlocksAreInOrder(f, lines, j + 1);
        forall k | 0 <= k < |rest|
          ensures j < rest[k].startLine
        {
          BlocksAreDelimitedSlices(f, lines, j + 1, rest[k]);
        }
      } else if OpensOther(f, lines[i]) {
        BlocksAreInOrder(f, lines, CloseAt(f, lines, i + 1) + 1);
      } else {
        BlocksAreInOrder(f, lines, i + 1);
      }
    }
  }

  lemma BlockIsNotEmpty(lines: seq<Source>, from: nat, end: nat)
    requires from <= end <= |lines|
    ensures BlockOf(lines, from, end) != [] ==> from < end
  {
    if from == end { assert lines[from..end] == []; }
  }

  // Every opening line that the scan reaches outside a block yields its block, closed or not.
  ghost predicate ScanReaches(f: Format, lines: seq<Source>, from: nat, i: nat)
    decreases if from <= |lines| then |lines| - from else 0
  {
    from == i ||
    (from < i && from < |lines| &&
     ScanReaches(f, lines,
                 if OpensCode(f, lines[from]) || OpensOther(f, lines[from]) then CloseAt(f, lines, from + 1) + 1 else from + 1, i))
  }

  lemma {:induction false} NoBlockIsSkipped(f: Format, lines: seq<Source>, from: nat, i: nat)
    requires i < |lines| && ScanReaches(f, lines, from, i) && OpensCode(f, lines[i])
    ensures forall b :: b in BlockOf(lines, i + 1, CloseAt(f, lines, i + 1)) ==> b in Blocks(f, lines, from)
    decreases if from <= |lines| then |lines| - from else 0
  {
    hide OpensCode, OpensOther, Closes;
    if from != i {
      NoBlockIsSkipped(f, lines,
                       if OpensCode(f, lines[from]) || OpensOther(f, lines[from]) then CloseAt(f, lines, from + 1) + 1 else from + 1, i);
    }
  }

  // ---- the extractors ----

  method Emit(lines: seq<Source>, codeLines: seq<Source>, startLine: nat, endLine: nat) returns (emitted: seq<CodeBlock>)
    requires 1 <= startLine <= endLine + 1 <= |lines| + 1 && Collected(lines, startLine, endLine, codeLines)
    ensures emitted == BlockOf(lines, startLine - 1, endLine)
  {
    var code := Join(codeLines, [NEWLINE]);
    emitted := if IsBlank(code) then [] else [CodeBlock(startLine, endLine, code)];
  }

  datatype Where = Outside | InCode(from: nat) | InOther

  // What is still to be found when the scan stands before line i.
  function Pending(f: Format, lines: seq<Source>, i: nat, w: Where): seq<CodeBlock>
    requires i <= |lines| && (w.InCode? ==> w.from <= i)
  {
    match w
    case Outside => Blocks(f, lines, i)
    case InCode(from) => BlockOf(lines, from, CloseAt(f, lines, i)) + Blocks(f, lines, CloseAt(f, lines, i) + 1)
    case InOther => Blocks(f, lines, CloseAt(f, lines, i) + 1)
  }

  lemma PendingStep(f: Format, lines: seq<Source>, i: nat, w: Where)
    requires i < |lines| && (w.InCode? ==> w.from <= i)
    ensures Pending(f, lines, i, w) ==
            match w
            case Outside =>
              Pending(f, lines, i + 1,
                      if OpensCode(f, lines[i]) then InCode(i + 1) else if OpensOther(f, lines[i]) then InOther else Outside)
            case InCode(from) =>
              if Closes(f, lines[i]) then BlockOf(lines, from, i) + Pending(f, lines, i + 1, Outside)
              else Pending(f, lines, i + 1, w)
            case InOther => Pending(f, lines, i + 1, if Closes(f, lines[i]) then Outside else InOther)
  {
    hide OpensCode, OpensOther, Closes, BlockOf;
  }

  lemma PendingEnd(f: Format, lines: seq<Source>, w: Where)
    requires w.InCode? ==> w.from <= |lines|
    ensures Pending(f, lines, |lines|, w) == if w.InCode? then BlockOf(lines, w.from, |lines|) else []
  {
  }

  // The LaTeX and the Org extractor differ in their delimiters only.
  method ExtractSimpleBlocks(f: Format, lines: seq<Source>) returns (blocks: seq<CodeBlock>)
    requires !f.Fenced?
    ensures blocks == Blocks(f, lines, 0)
  {
    hide OpensCode, Closes, BlockOf, Collected;
    blocks := [];
    var inBlock := false;
    var startLine: nat := 0;
    var codeLines: seq<Source> := [];
    ghost var w := Outside;
    assert Blocks(f, lines, 0) == Pending(f, lines, 0, Outside);
    for i := 0 to |lines|
      invariant inBlock ==> 2 <= startLine <= i + 1 && Collected(lines, startLine, i, codeLines)
      invariant w == if inBlock then InCode(startLine - 1) else Outside
      invariant Blocks(f, lines, 0) == blocks + Pending(f, lines, i, w)
    {
      hide Pending;
      PendingStep(f, lines, i, w);
      CollectedMore(lines, startLine, i, codeLines);
      if !inBlock && OpensCode(f, lines[i]) {
        inBlock := true;
        startLine := i + 2;
        codeLines := [];
        w := InCode(i + 1);
      } else if inBlock && Closes(f, lines[i]) {
        var emitted := Emit(lines, codeLines, startLine, i);
        blocks := blocks + emitted;
        inBlock := false;
        w := Outside;
      } else if inBlock {
        codeLines := codeLines + [lines[i]];
      }
    }
    PendingEnd(f, lines, w);
    if inBlock {
      var emitted := Emit(lines, codeLines, startLine, |lines|);
      blocks := blocks + emitted;
    }
  }

  method ExtractLatexBlocks(lines: seq<Source>) returns (blocks: seq<CodeBlock>)
    ensures blocks == Blocks(Latex, lines, 0)
  {
    blocks := ExtractSimpleBlocks(Latex, lines);
  }

  method ExtractOrgBlocks(lines: seq<Source>) returns (blocks: seq<CodeBlock>)
    ensures blocks == Blocks(Org, lines, 0)
  {
    blocks := ExtractSimpleBlocks(Org, lines);
  }

  method ExtractFencedBlocks(lines: seq<Source>) returns (blocks: seq<CodeBlock>)
    ensures blocks == Blocks(Fenced, lines, 0)
  {
    hide OpensCode, Closes, OpensOther, BlockOf, Collected;
    blocks := [];
    var inAgdaBlock, inOtherBlock := false, false;
    var startLine: nat := 0;
    var codeLines: seq<Source> := [];
    ghost var w := Outside;
    assert Blocks(Fenced, lines, 0) == Pending(Fenced, lines, 0, Outside);
    for i := 0 to |lines|
      invariant !(inAgdaBlock && inOtherBlock)
      invariant inAgdaBlock ==> 2 <= startLine <= i + 1 && Collected(lines, startLine, i, codeLines)
      invariant w == if inAgdaBlock then InCode(startLine - 1) else if inOtherBlock then InOther else Outside
      invariant Blocks(Fenced, lines, 0) == blocks + Pending(Fenced, lines, i, w)
    {
      hide Pending;
      PendingStep(Fenced, lines, i, w);
      CollectedMore(lines, startLine, i, codeLines);
      if inAgdaBlock {
        if Closes(Fenced, lines[i]) {
          var emitted := Emit(lines, codeLines, startLine, i);
          blocks := blocks + emitted;
          inAgdaBlock := false;
          w := Outside;
        } else {
          codeLines := codeLines + [lines[i]];
        }
      } else if inOtherBlock {
        if Closes(Fenced, lines[i]) {
          inOtherBlock := false;
          w := Outside;
        }
      } else if OpensCode(Fenced, lines[i]) {
        inAgdaBlock := true;
        startLine := i + 2;
        codeLines := [];
        w := InCode(i + 1);
      } else if OpensOther(Fenced, lines[i]) {
        inOtherBlock := true;
        w := InOther;
      }
    }
    PendingEnd(Fenced, lines, w);
    if inAgdaBlock {
      var emitted := Emit(lines, codeLines, startLine, |lines|);
      blocks := blocks + emitted;
    }
  }
}

/** reStructuredText: indented blocks behind a "::" and a blank line. */
module RstBlocks {
  import opened Basics
  import opened CodeUnits
  import opened CodeBlocks

  const DIRECTIVE: Source := [0x3A, 0x3A]

  predicate IsDirective(line: Source) { TrimUnits(line) == DIRECTIVE }

  predicate IsIndented(line: Source) { |line| >= 2 && IsSpaceCode(line[0]) && IsSpaceCode(line[1]) }

  // Where an indented block that goes on at i stops: at the first line that is neither blank nor indented.
  function BlockStop(lines: seq<Source>, i: nat): (j: nat)
    requires i <= |lines|
    ensures i <= j <= |lines|
    ensures forall k :: i <= k < j ==> IsBlank(lines[k]) || IsIndented(lines[k])
    ensures j < |lines| ==> !IsBlank(lines[j]) && !IsIndented(lines[j])
    decreases |lines| - i
  {
    if i < |lines| && (IsBlank(lines[i]) || IsIndented(lines[i])) then BlockStop(lines, i + 1) else i
  }

  // The end of [from, j) without its trailing blank lines.
  function WithoutBlanks(lines: seq<Source>, from: nat, j: nat): (e: nat)
    requires from <= j <= |lines|
    ensures from <= e <= j
    ensures from < e ==> !IsBlank(lines[e - 1])
    ensures forall k :: e <= k < j ==> IsBlank(lines[k])
    decreases j
  {
    if from < j && IsBlank(lines[j - 1]) then WithoutBlanks(lines, from, j - 1) else j
  }

  // The block of the lines [from, j), trailing blank lines dropped.
  function TrimmedBlock(lines: seq<Source>, from: nat, j: nat): seq<CodeBlock>
    requires from <= j <= |lines|
  {
    BlockOf(lines, from, WithoutBlanks(lines, from, j))
  }

  datatype Mode = Outside | Directive(blankSeen: bool)

  // The blocks found from line i on. A line that disappoints a pending "::" is not looked at again,
  // even when it is a "::" itself; and the line that ends a block leaves the "::" of that block pending.
  function RstFrom(lines: seq<Source>, i: nat, mode: Mode): seq<CodeBlock>
    decreases if i <= |lines| then |lines| - i else 0
  {
    if i >= |lines| then []
    else match mode
      case Outside => RstFrom(lines, i + 1, if IsDirective(lines[i]) then Directive(false) else Outside)
      case Directive(blankSeen) =>
        if IsBlank(lines[i]) then RstFrom(lines, i + 1, Directive(true))
        else if blankSeen && IsIndented(lines[i]) then
          var j := BlockStop(lines, i + 1);
          TrimmedBlock(lines, i, j) + RstFrom(lines, j + 1, AfterBlock(lines, j))
        else RstFrom(lines, i + 1, Outside)
  }

  function AfterBlock(lines: seq<Source>, j: nat): Mode {
    Directive(!(j < |lines| && IsDirective(lines[j])))
  }

  // The lines between d and i are blank.
  predicate OnlyBlanks(lines: seq<Source>, d: nat, i: nat)
    requires i <= |lines|
  {
    forall k :: d < k < i ==> IsBlank(lines[k])
  }

  // A block starts indented and ends in a line that is not blank; only blank lines separate it from
  // the line that ended it.
  ghost predicate Indented(lines: seq<Source>, b: CodeBlock) {
    && 1 <= b.startLine <= b.endLine <= |lines|
    && !IsBlank(lines[b.startLine - 1]) && IsIndented(lines[b.startLine - 1])
    && !IsBlank(lines[b.endLine - 1])
    && (forall k :: b.startLine - 1 <= k < b.endLine ==> IsBlank(lines[k]) || IsIndented(lines[k]))
    && exists j :: EndedBy(lines, b.endLine, j)
  }

  // Blank lines from e on, up to line j, which is text again, or to the end.
  predicate EndedBy(lines: seq<Source>, e: nat, j: int) {
    && e <= j <= |lines|
    && (forall k :: e <= k < j ==> IsBlank(lines[k]))
    && (j < |lines| ==> !IsBlank(lines[j]) && !IsIndented(lines[j]))
  }

  lemma {:induction false} SlicesFrom(lines: seq<Source>, i: nat, mode: Mode, b: CodeBlock)
    requires b in RstFrom(lines, i, mode)
    ensures IsSlice(lines, b) && Indented(lines, b) && i < b.startLine
    decreases if i <= |lines| then |lines| - i else 0
  {
    hide IsBlank, IsIndented, IsDirective, IsSlice, Indented;
    if StartsBlock(lines[i], mode) {
      var j := BlockStop(lines, i + 1);
      var e := WithoutBlanks(lines, i, j);
      if b in BlockOf(lines, i, e) {
        BlockOfIsSlice(lines, i, e);
        BlockIsIndented(lines, i, j);
      } else {
        SlicesFrom(lines, j + 1, AfterBlock(lines, j), b);
      }
    } else {
      SlicesFrom(lines, i + 1, NextMode(lines[i], mode), b);
    }
  }

  predicate StartsBlock(line: Source, mode: Mode) {
    mode.Directive? && mode.blankSeen && !IsBlank(line) && IsIndented(line)
  }

  // The mode after a line that starts no block.
  function NextMode(line: Source, mode: Mode): Mode {
    match mode
    case Outside => if IsDirective(line) then Directive(false) else Outside
    case Directive(_) => if IsBlank(line) then Directive(true) else Outside
  }

  lemma BlockIsIndented(lines: seq<Source>, i: nat, j: nat)
    requires i < j <= |lines| && j == BlockStop(lines, i + 1)
    requires !IsBlank(lines[i]) && IsIndented(lines[i])
    ensures var e := WithoutBlanks(lines, i, j);
            forall b: CodeBlock :: b.startLine == i + 1 && b.endLine == e ==> Indented(lines, b)
  {
    hide IsBlank, IsIndented;
    assert EndedBy(lines, WithoutBlanks(lines, i, j), j);
  }

  lemma {:induction false} RstBlocksAreInOrder(lines: seq<Source>, i: nat, mode: Mode)
    ensures InOrder(RstFrom(lines, i, mode))
    decreases if i <= |lines| then |lines| - i else 0
  {
    hide IsBlank, IsIndented, IsDirective, IsSlice, Indented;
    if i < |lines| {
      if mode.Directive? && mode.blankSeen && !IsBlank(lines[i]) && IsIndented(lines[i]) {
        var j := BlockStop(lines, i + 1);
        var rest := RstFrom(lines, j + 1, AfterBlock(lines, j));
        RstBlocksAreInOrder(lines, j + 1, AfterBlock(lines, j));
        forall k | 0 <= k < |rest|
          ensures j + 1 < rest[k].startLine
        {
          SlicesFrom(lines, j + 1, AfterBlock(lines, j), rest[k]);
        }
      } else {
        RstBlocksAreInOrder(lines, i + 1, NextMode(lines[i], mode));
      }
    }
  }

  lemma {:induction false} TrimEmptyMeansSpaces(s: Source)
    ensures TrimUnits(s) == [] <==> forall k :: 0 <= k < |s| ==> IsSpaceCode(s[k])
    decreases |s|
  {
    if s != [] && IsSpaceCode(s[0]) {
      TrimEmptyMeansSpaces(s[1..]);
      assert s == [s[0]] + s[1..];
    } else if s != [] && IsSpaceCode(s[|s| - 1]) {
      TrimEmptyMeansSpaces(s[..|s| - 1]);
    }
  }

  // A block always has something in it, so the emptiness tests of the extractor never fail.
  lemma FirstLineCounts(lines: seq<Source>, from: nat, end: nat)
    requires from < end <= |lines| && !IsBlank(lines[from])
    ensures !IsBlank(CodeOf(lines, from, end))
  {
    TrimEmptyMeansSpaces(lines[from]);
    TrimEmptyMeansSpaces(CodeOf(lines, from, end));
    var k :| 0 <= k < |lines[from]| && !IsSpaceCode(lines[from][k]);
    assert lines[from..end][0] == lines[from];
    assert CodeOf(lines, from, end)[k] == lines[from][k];
  }

  // ---- which paragraphs are taken ----

  // A block begins at line i, counted from 0.
  ghost predicate BeginsAt(blocks: seq<CodeBlock>, i: nat) {
    exists b :: b in blocks && b.startLine == i + 1
  }

  ghost predicate Inside(blocks: seq<CodeBlock>, i: nat) {
    exists b :: b in blocks && b.startLine <= i + 1 <= b.endLine
  }

  // Line d is the text that ended one of the blocks.
  ghost predicate Ends(lines: seq<Source>, blocks: seq<CodeBlock>, d: nat) {
    exists b :: b in blocks && EndedBy(lines, b.endLine, d)
  }

  // A "::" is pending after line d: the line ended a block, or it is a "::" outside the blocks that did
  // not itself disappoint a pending one.
  ghost predicate Marks(lines: seq<Source>, blocks: seq<CodeBlock>, d: nat)
    requires d < |lines|
    decreases d
  {
    || Ends(lines, blocks, d)
    || (&& IsDirective(lines[d]) && !Inside(blocks, d)
        && !exists c :: 0 <= c < d && Marks(lines, blocks, c) && OnlyBlanks(lines, c, d))
  }

  // Only blank lines lie between line i and a line after which a "::" is pending, and at least one if
  // that line is a "::" itself.
  ghost predicate Announced(lines: seq<Source>, blocks: seq<CodeBlock>, i: nat)
    requires i <= |lines|
  {
    exists d :: 0 <= d < i && AnnouncedBy(lines, blocks, d, i)
  }

  ghost predicate AnnouncedBy(lines: seq<Source>, blocks: seq<CodeBlock>, d: nat, i: nat)
    requires d < i <= |lines|
  {
    Marks(lines, blocks, d) && OnlyBlanks(lines, d, i) && (d + 1 < i || !IsDirective(lines[d]))
  }

  // The blocks found so far lie before line i, and so do the lines that ended them.
  ghost predicate Past(lines: seq<Source>, blocks: seq<CodeBlock>, i: nat) {
    forall b :: b in blocks ==> b.startLine <= b.endLine <= i && forall j :: EndedBy(lines, b.endLine, j) ==> j < i
  }

  // What each mode means at line i, in terms of the blocks.
  ghost predicate ModeFits(lines: seq<Source>, blocks: seq<CodeBlock>, i: nat, mode: Mode)
    requires i <= |lines|
  {
    match mode
    case Outside => forall d :: 0 <= d < i && Marks(lines, blocks, d) ==> !OnlyBlanks(lines, d, i)
    case Directive(false) => i > 0 && IsDirective(lines[i - 1]) && Marks(lines, blocks, i - 1)
    case Directive(true) => Announced(lines, blocks, i)
  }

  // A directive is two colons alone on their line.
  lemma DirectivesExactly(line: Source)
    ensures IsDirective(line) <==>
            exists left, right :: AllSpaceUnits(left) && AllSpaceUnits(right) && line == left + Units("::") + right
  {
    assert DIRECTIVE == Units("::");
    if IsDirective(line) { var left, core, right := EveryUnitsHaveMargins(line); }
    if left, right :| AllSpaceUnits(left) && AllSpaceUnits(right) && line == left + Units("::") + right {
      TrimUnitsRemovesMargins(left, DIRECTIVE, right);
    }
  }

  lemma DirectiveIsText(line: Source)
    ensures IsDirective(line) ==> !IsBlank(line)
  {
  }

  // A line before which the scan stands outside blocks ended none, and is in none that does not begin there.
  lemma LineIsFree(lines: seq<Source>, done: seq<CodeBlock>, i: nat, mode: Mode)
    requires i < |lines| && Past(lines, done, i) && !StartsBlock(lines[i], mode)
    ensures var blocks := done + RstFrom(lines, i, mode);
            !Ends(lines, blocks, i) && !Inside(blocks, i) && !BeginsAt(blocks, i)
  {
    hide IsBlank, IsIndented, IsDirective, IsSlice, Indented;
    var rest := RstFrom(lines, i, mode);
    assert rest == RstFrom(lines, i + 1, NextMode(lines[i], mode));
    forall b | b in done + rest
      ensures !(b.startLine <= i + 1 <= b.endLine) && b.startLine != i + 1 && !EndedBy(lines, b.endLine, i)
    {
      if b !in done {
        SlicesFrom(lines, i + 1, NextMode(lines[i], mode), b);
        IndentedBounds(lines, b);
      }
    }
  }

  lemma IndentedBounds(lines: seq<Source>, b: CodeBlock)
    requires Indented(lines, b)
    ensures 1 <= b.startLine <= b.endLine <= |lines|
  {
  }

  lemma ModeStaysFit(lines: seq<Source>, done: seq<CodeBlock>, i: nat, mode: Mode)
    requires i < |lines| && Past(lines, done, i) && !StartsBlock(lines[i], mode)
    requires ModeFits(lines, done + RstFrom(lines, i, mode), i, mode)
    ensures ModeFits(lines, done + RstFrom(lines, i, mode), i + 1, NextMode(lines[i], mode))
    ensures BeginsAt(done + RstFrom(lines, i, mode), i) <==>
            !IsBlank(lines[i]) && IsIndented(lines[i]) && Announced(lines, done + RstFrom(lines, i, mode), i)
  {
    LineIsFree(lines, done, i, mode);
    DirectiveIsText(lines[i]);
    if i > 0 { DirectiveIsText(lines[i - 1]); }
    hide IsBlank, IsIndented, IsDirective, Ends, Inside, BeginsAt, RstFrom;
    var blocks := done + RstFrom(lines, i, mode);
    match mode
    case Outside =>
    case Directive(false) =>
      assert OnlyBlanks(lines, i - 1, i);
      assert IsBlank(lines[i]) ==> AnnouncedBy(lines, blocks, i - 1, i + 1);
    case Directive(true) =>
      var d :| 0 <= d < i && AnnouncedBy(lines, blocks, d, i);
      assert IsBlank(lines[i]) ==> AnnouncedBy(lines, blocks, d, i + 1);
  }

  // The blocks found before line i, the one of lines [i, e), which line j ends, and later ones.
  ghost predicate Around(lines: seq<Source>, done: seq<CodeBlock>, blocks: seq<CodeBlock>, i: nat, e: nat, j: nat) {
    && Past(lines, done, i) && i < e && EndedBy(lines, e, j)
    && (exists b :: b in blocks && b.startLine == i + 1 && b.endLine == e)
    && forall b :: b in blocks ==>
        b in done || (b.startLine == i + 1 && b.endLine == e) || j + 1 < b.startLine <= b.endLine
  }

  lemma BlocksAround(lines: seq<Source>, done: seq<CodeBlock>, i: nat, mode: Mode)
    requires i < |lines| && Past(lines, done, i) && StartsBlock(lines[i], mode)
    ensures var j := BlockStop(lines, i + 1);
            Around(lines, done, done + RstFrom(lines, i, mode), i, WithoutBlanks(lines, i, j), j)
  {
    hide IsBlank, IsIndented, IsDirective, IsSlice, Indented, Past, RstFrom, CodeOf;
    var j := BlockStop(lines, i + 1);
    var e := WithoutBlanks(lines, i, j);
    var rest := RstFrom(lines, j + 1, AfterBlock(lines, j));
    BlockBegins(lines, i, mode);
    var b0 := CodeBlock(i + 1, e, CodeOf(lines, i, e));
    assert RstFrom(lines, i, mode) == [b0] + rest;
    assert b0 in done + ([b0] + rest);
    forall b | b in rest
      ensures j + 1 < b.startLine <= b.endLine
    {
      SlicesFrom(lines, j + 1, AfterBlock(lines, j), b);
      IndentedBounds(lines, b);
    }
  }

  lemma NoMarkInside(lines: seq<Source>, done: seq<CodeBlock>, blocks: seq<CodeBlock>, i: nat, e: nat, j: nat, d: nat)
    requires Around(lines, done, blocks, i, e, j) && i <= d < j && d < |lines|
    ensures !Marks(lines, blocks, d)
  {
    hide IsBlank, IsIndented, IsDirective;
    DirectiveIsText(lines[d]);
    assert !Ends(lines, blocks, d);
    assert d < e ==> Inside(blocks, d);
  }

  // Inside a block, up to and including the line that ends it, no other begins and none is announced.
  lemma NothingInside(lines: seq<Source>, done: seq<CodeBlock>, i: nat, mode: Mode, n: nat)
    requires i < |lines| && Past(lines, done, i) && StartsBlock(lines[i], mode)
    requires i < n <= BlockStop(lines, i + 1) && n < |lines|
    ensures var blocks := done + RstFrom(lines, i, mode);
            !BeginsAt(blocks, n) && !(!IsBlank(lines[n]) && IsIndented(lines[n]) && Announced(lines, blocks, n))
  {
    hide IsBlank, IsIndented, IsDirective, RstFrom, WithoutBlanks, Marks;
    var j := BlockStop(lines, i + 1);
    var blocks := done + RstFrom(lines, i, mode);
    BlocksAround(lines, done, i, mode);
    forall d | 0 <= d < n
      ensures n < j ==> !AnnouncedBy(lines, blocks, d, n)
    {
      if i <= d && n < j { NoMarkInside(lines, done, blocks, i, WithoutBlanks(lines, i, j), j, d); }
    }
  }

  // The block that begins at line i is not dropped as empty.
  lemma BlockBegins(lines: seq<Source>, i: nat, mode: Mode)
    requires i < |lines| && StartsBlock(lines[i], mode)
    ensures var j := BlockStop(lines, i + 1);
            var e := WithoutBlanks(lines, i, j);
            i < e && RstFrom(lines, i, mode) ==
            [CodeBlock(i + 1, e, CodeOf(lines, i, e))] + RstFrom(lines, j + 1, AfterBlock(lines, j))
  {
    hide IsBlank, IsIndented, IsDirective;
    var j := BlockStop(lines, i + 1);
    FirstLineCounts(lines, i, WithoutBlanks(lines, i, j));
  }

  lemma PastBlock(lines: seq<Source>, done: seq<CodeBlock>, i: nat, mode: Mode)
    requires i < |lines| && Past(lines, done, i) && StartsBlock(lines[i], mode)
    ensures var j := BlockStop(lines, i + 1);
            var e := WithoutBlanks(lines, i, j);
            var blocks := done + RstFrom(lines, i, mode);
            Past(lines, done + [CodeBlock(i + 1, e, CodeOf(lines, i, e))], j + 1) &&
            (j < |lines| ==> ModeFits(lines, blocks, j + 1, AfterBlock(lines, j)))
  {
    hide IsBlank, IsIndented, IsDirective, RstFrom, BlockStop, WithoutBlanks, CodeOf;
    BlockBegins(lines, i, mode);
    var j := BlockStop(lines, i + 1);
    var e := WithoutBlanks(lines, i, j);
    var blocks := done + RstFrom(lines, i, mode);
    var b := CodeBlock(i + 1, e, CodeOf(lines, i, e));
    assert EndedBy(lines, e, j);
    assert b in blocks;
    if j < |lines| {
      assert Ends(lines, blocks, j);
      assert OnlyBlanks(lines, j, j + 1);
      assert !IsDirective(lines[j]) ==> AnnouncedBy(lines, blocks, j, j + 1);
    }
  }

  lemma {:induction false} BeginsFrom(lines: seq<Source>, done: seq<CodeBlock>, i: nat, mode: Mode, n: nat)
    requires i <= n < |lines| && Past(lines, done, i) && ModeFits(lines, done + RstFrom(lines, i, mode), i, mode)
    ensures var blocks := done + RstFrom(lines, i, mode);
            BeginsAt(blocks, n) <==> !IsBlank(lines[n]) && IsIndented(lines[n]) && Announced(lines, blocks, n)
    decreases |lines| - i
  {
    hide IsBlank, IsIndented, IsDirective, Announced, BeginsAt, ModeFits, Past;
    var blocks := done + RstFrom(lines, i, mode);
    if StartsBlock(lines[i], mode) {
      var j := BlockStop(lines, i + 1);
      var b := CodeBlock(i + 1, WithoutBlanks(lines, i, j), CodeOf(lines, i, WithoutBlanks(lines, i, j)));
      BlockBegins(lines, i, mode);
      if n == i {
        FirstBegins(lines, blocks, i, mode, b);
      } else if n <= j {
        NothingInside(lines, done, i, mode, n);
      } else {
        PastBlock(lines, done, i, mode);
        assert blocks == done + [b] + RstFrom(lines, j + 1, AfterBlock(lines, j));
        BeginsFrom(lines, done + [b], j + 1, AfterBlock(lines, j), n);
      }
    } else {
      ModeStaysFit(lines, done, i, mode);
      if n > i {
        PastMore(lines, done, i);
        assert RstFrom(lines, i, mode) == RstFrom(lines, i + 1, NextMode(lines[i], mode));
        BeginsFrom(lines, done, i + 1, NextMode(lines[i], mode), n);
      }
    }
  }

  lemma FirstBegins(lines: seq<Source>, blocks: seq<CodeBlock>, i: nat, mode: Mode, b: CodeBlock)
    requires i < |lines| && StartsBlock(lines[i], mode) && ModeFits(lines, blocks, i, mode)
    requires b in blocks && b.startLine == i + 1
    ensures BeginsAt(blocks, i) && !IsBlank(lines[i]) && IsIndented(lines[i]) && Announced(lines, blocks, i)
  {
  }

  lemma PastMore(lines: seq<Source>, done: seq<CodeBlock>, i: nat)
    requires Past(lines, done, i)
    ensures Past(lines, done, i + 1)
  {
  }

  // The blocks begin at exactly those lines of indented text that are announced: by a pending "::", or by
  // a line that ended an earlier block, with nothing but blank lines in between.
  lemma RstBlocksBeginWhereAnnounced(lines: seq<Source>, n: nat)
    requires n < |lines|
    ensures var blocks := RstFrom(lines, 0, Outside);
            BeginsAt(blocks, n) <==> !IsBlank(lines[n]) && IsIndented(lines[n]) && Announced(lines, blocks, n)
  {
    hide IsBlank, IsIndented, IsDirective, Announced, BeginsAt;
    var blocks := RstFrom(lines, 0, Outside);
    assert [] + blocks == blocks;
    BeginsFrom(lines, [], 0, Outside, n);
  }

  // Every block is an indented slice of the file that was announced.
  lemma RstBlocksAreIndentedSlices(lines: seq<Source>, b: CodeBlock)
    requires b in RstFrom(lines, 0, Outside)
    ensures IsSlice(lines, b) && Indented(lines, b) && b.startLine <= |lines|
    ensures Announced(lines, RstFrom(lines, 0, Outside), b.startLine - 1)
  {
    hide IsBlank, IsIndented, IsDirective, Announced, RstFrom;
    SlicesFrom(lines, 0, Outside, b);
    assert BeginsAt(RstFrom(lines, 0, Outside), b.startLine - 1);
    RstBlocksBeginWhereAnnounced(lines, b.startLine - 1);
  }

  // The nearest text before line i is no "::".
  predicate Unprompted(lines: seq<Source>, i: nat)
    requires i <= |lines|
  {
    forall d :: 0 <= d < i && OnlyBlanks(lines, d, i) ==> !IsDirective(lines[d])
  }

  // Indented text whose nearest earlier text is no "::" is taken for code exactly when that earlier text
  // ended a block.
  lemma ProseIsTakenExactly(lines: seq<Source>, n: nat)
    requires n < |lines| && Unprompted(lines, n)
    ensures var blocks := RstFrom(lines, 0, Outside);
            BeginsAt(blocks, n) <==>
            !IsBlank(lines[n]) && IsIndented(lines[n]) &&
            exists d :: 0 <= d < n && Ends(lines, blocks, d) && OnlyBlanks(lines, d, n)
  {
    hide IsBlank, IsIndented, IsDirective, BeginsAt, Ends, RstFrom;
    var blocks := RstFrom(lines, 0, Outside);
    RstBlocksBeginWhereAnnounced(lines, n);
    if Announced(lines, blocks, n) {
      var d :| 0 <= d < n && AnnouncedBy(lines, blocks, d, n);
      assert Ends(lines, blocks, d);
    }
    if d :| 0 <= d < n && Ends(lines, blocks, d) && OnlyBlanks(lines, d, n) {
      assert AnnouncedBy(lines, blocks, d, n);
    }
  }

  // Without any "::" there is no code.
  lemma {:induction false} NoDirectiveNoBlocks(lines: seq<Source>, i: nat)
    requires forall k :: i <= k < |lines| ==> !IsDirective(lines[k])
    ensures RstFrom(lines, i, Outside) == []
    decreases if i <= |lines| then |lines| - i else 0
  {
    hide IsBlank, IsIndented, IsDirective;
    if i < |lines| {
      NoDirectiveNoBlocks(lines, i + 1);
    }
  }

  method TrimTrailing(codeLines: seq<Source>, ghost lines: seq<Source>, ghost from: nat, ghost j: nat)
    returns (kept: seq<Source>)
    requires from <= j <= |lines| && codeLines == lines[from..j]
    ensures kept == lines[from..WithoutBlanks(lines, from, j)]
  {
    hide IsBlank;
    kept := codeLines;
    ghost var e := j;
    while |kept| > 0 && IsBlank(kept[|kept| - 1])
      invariant from <= e <= j && kept == lines[from..e]
      invariant WithoutBlanks(lines, from, e) == WithoutBlanks(lines, from, j)
      decreases |kept|
    {
      kept := kept[..|kept| - 1];
      e := e - 1;
    }
  }

  // A block in progress: its lines before line j, the first of which is text.
  predicate SoFar(lines: seq<Source>, startLine: nat, j: nat, codeLines: seq<Source>) {
    startLine <= j && Collected(lines, startLine, j, codeLines) && !IsBlank(lines[startLine - 1])
  }

  lemma SoFarMore(lines: seq<Source>, startLine: nat, j: nat, codeLines: seq<Source>)
    requires j < |lines|
    ensures SoFar(lines, startLine, j, codeLines) ==> SoFar(lines, startLine, j + 1, codeLines + [lines[j]])
    ensures !IsBlank(lines[j]) ==> SoFar(lines, j + 1, j + 1, [lines[j]])
  {
    CollectedMore(lines, startLine, j, codeLines);
  }

  method EmitTrimmed(codeLines: seq<Source>, startLine: nat, ghost lines: seq<Source>, ghost j: nat)
    returns (emitted: seq<CodeBlock>)
    requires 1 <= startLine <= j <= |lines| && SoFar(lines, startLine, j, codeLines)
    ensures emitted == TrimmedBlock(lines, startLine - 1, j)
  {
    var kept := TrimTrailing(codeLines, lines, startLine - 1, j);
    emitted := [];
    if |kept| > 0 {
      var code := Join(kept, [NEWLINE]);
      if !IsBlank(code) { emitted := [CodeBlock(startLine, startLine + |kept| - 1, code)]; }
    }
  }

  datatype Where = Between(mode: Mode) | InBlock(from: nat)

  // What is still to be found when the scan stands before line i.
  function Pending(lines: seq<Source>, i: nat, w: Where): seq<CodeBlock>
    requires i <= |lines| && (w.InBlock? ==> w.from <= i)
  {
    match w
    case Between(mode) => RstFrom(lines, i, mode)
    case InBlock(from) => FromBlock(lines, from, BlockStop(lines, i))
  }

  lemma StepBetween(lines: seq<Source>, i: nat, mode: Mode)
    requires i < |lines|
    ensures Pending(lines, i, Between(mode)) ==
            Pending(lines, i + 1, if StartsBlock(lines[i], mode) then InBlock(i) else Between(NextMode(lines[i], mode)))
  {
    hide IsBlank, IsIndented, IsDirective, TrimmedBlock;
  }

  lemma StepInBlock(lines: seq<Source>, i: nat, from: nat)
    requires from <= i < |lines|
    ensures IsBlank(lines[i]) || IsIndented(lines[i]) ==>
              Pending(lines, i, InBlock(from)) == Pending(lines, i + 1, InBlock(from))
    ensures !IsBlank(lines[i]) && !IsIndented(lines[i]) ==>
              Pending(lines, i, InBlock(from)) ==
              TrimmedBlock(lines, from, i) + Pending(lines, i + 1, Between(Directive(!IsDirective(lines[i]))))
  {
    hide IsBlank, IsIndented, IsDirective, TrimmedBlock;
  }

  lemma PendingEnd(lines: seq<Source>, w: Where)
    requires w.InBlock? ==> w.from <= |lines|
    ensures Pending(lines, |lines|, w) ==
            if w.InBlock? then TrimmedBlock(lines, w.from, |lines|) else []
  {
  }

  function ModeOf(sawDirective: bool, blankAfterDirective: bool): Mode {
    if sawDirective then Directive(blankAfterDirective) else Outside
  }

  // A line outside any block: it may set the flags, reset them, or start a block.
  method LineBetween(line: Source, saw0: bool, blank0: bool) returns (sawDirective: bool, blankAfterDirective: bool, starts: bool)
    ensures starts == StartsBlock(line, ModeOf(saw0, blank0))
    ensures if starts then sawDirective && blankAfterDirective
            else ModeOf(sawDirective, blankAfterDirective) == NextMode(line, ModeOf(saw0, blank0))
  {
    sawDirective, blankAfterDirective, starts := saw0, blank0, false;
    if !sawDirective && IsDirective(line) {
      sawDirective := true;
      blankAfterDirective := false;
      return;
    }
    if sawDirective {
      if IsBlank(line) {
        blankAfterDirective := true;
        return;
      }
      if blankAfterDirective && IsIndented(line) {
        starts := true;
        return;
      }
      sawDirective := false;
      blankAfterDirective := false;
    }
  }

  method ExtractRstBlocks(lines: seq<Source>) returns (blocks: seq<CodeBlock>)
    ensures blocks == RstFrom(lines, 0, Outside)
  {
    hide IsIndented, IsDirective, IsBlank, TrimmedBlock, NextMode, SoFar, RstFrom, BlockStop;
    PendingStart(lines);
    blocks := [];
    var inBlock, sawDirective, blankAfterDirective := false, false, false;
    var startLine: nat := 1;
    var codeLines: seq<Source> := [];
    for i := 0 to |lines|
      invariant inBlock ==> sawDirective && blankAfterDirective
      invariant inBlock ==> 1 <= startLine <= i && SoFar(lines, startLine, i, codeLines)
      invariant RstFrom(lines, 0, Outside) ==
                blocks + Pending(lines, i, if inBlock then InBlock(startLine - 1) else Between(ModeOf(sawDirective, blankAfterDirective)))
    {
      hide Pending, ModeOf, StartsBlock;
      var line := lines[i];
      SoFarMore(lines, startLine, i, codeLines);
      if !inBlock {
        StepBetween(lines, i, ModeOf(sawDirective, blankAfterDirective));
        StartIsNotBlank(line, ModeOf(sawDirective, blankAfterDirective));
        sawDirective, blankAfterDirective, inBlock := LineBetween(line, sawDirective, blankAfterDirective);
        if inBlock {
          startLine := i + 1;
          codeLines := [line];
        }
      } else {
        StepInBlock(lines, i, startLine - 1);
        if IsBlank(line) || IsIndented(line) {
          codeLines := codeLines + [line];
        } else {
          var emitted := EmitTrimmed(codeLines, startLine, lines, i);
          blocks := blocks + emitted;
          inBlock := false;
          codeLines := [];
          if IsDirective(line) { blankAfterDirective := false; }
          assert ModeOf(sawDirective, blankAfterDirective) == Directive(!IsDirective(line)) by { PendingDirective(blankAfterDirective); }
        }
      }
    }
    PendingEnd(lines, if inBlock then InBlock(startLine - 1) else Between(ModeOf(sawDirective, blankAfterDirective)));
    if inBlock {
      var emitted := EmitTrimmed(codeLines, startLine, lines, |lines|);
      blocks := blocks + emitted;
    }
  }

  lemma PendingStart(lines: seq<Source>)
    ensures RstFrom(lines, 0, Outside) == Pending(lines, 0, Between(ModeOf(false, false)))
  {
  }

  lemma PendingDirective(blank: bool)
    ensures ModeOf(true, blank) == Directive(blank)
  {
  }

  lemma StartIsNotBlank(line: Source, mode: Mode)
    ensures StartsBlock(line, mode) ==> !IsBlank(line)
  {
  }

  // What the scan finds from a block that stops at line j on.
  function FromBlock(lines: seq<Source>, from: nat, j: nat): seq<CodeBlock>
    requires from <= j <= |lines|
  {
    TrimmedBlock(lines, from, j) + RstFrom(lines, j + 1, AfterBlock(lines, j))
  }

  // The case occurs: behind a block, indented prose is taken for code without any "::".
  lemma ProseAfterABlockIsTaken()
    ensures var lines: seq<Source> := [DIRECTIVE, [], [0x20, 0x20, 0x61], [0x62], [0x20, 0x20, 0x63]];
            RstFrom(lines, 0, Outside) == [CodeBlock(3, 3, [0x20, 0x20, 0x61]), CodeBlock(5, 5, [0x20, 0x20, 0x63])] &&
            Unprompted(lines, 4)
  {
    var lines: seq<Source> := [DIRECTIVE, [], [0x20, 0x20, 0x61], [0x62], [0x20, 0x20, 0x63]];
    TrimEmptyMeansSpaces(lines[2]);
    TrimEmptyMeansSpaces(lines[4]);
    assert !IsBlank(lines[2]) by { assert !IsSpaceCode(lines[2][2]); }
    assert !IsBlank(lines[4]) by { assert !IsSpaceCode(lines[4][2]); }
    assert TrimUnits(DIRECTIVE) == DIRECTIVE && IsDirective(lines[0]);
    assert TrimUnits([0x62]) == [0x62] && !IsBlank(lines[3]) && !IsDirective(lines[3]);
    assert IsBlank(lines[1]) && IsIndented(lines[2]) && !IsIndented(lines[3]) && IsIndented(lines[4]);
    hide IsBlank, IsIndented, IsDirective;
    assert BlockStop(lines, 3) == 3 && BlockStop(lines, 5) == 5;
    assert CodeOf(lines, 2, 3) == lines[2] by { assert lines[2..3] == [lines[2]]; }
    assert CodeOf(lines, 4, 5) == lines[4] by { assert lines[4..5] == [lines[4]]; }
    assert RstFrom(lines, 4, Directive(true)) == [CodeBlock(5, 5, lines[4])];
    assert RstFrom(lines, 2, Directive(true)) == [CodeBlock(3, 3, lines[2])] + RstFrom(lines, 4, Directive(true));
    assert RstFrom(lines, 1, Directive(false)) == RstFrom(lines, 2, Directive(true));
  }
}
