/** Writing strings into IOTCM commands, and reading them back. */
module IotcmText {
  import opened Basics
  import opened CodeUnits

  const SMALL_N: CodeUnit := 0x6E
  const COMMA: CodeUnit := 0x2C
  const SPACE: CodeUnit := 0x20
  const OPEN_BRACKET: CodeUnit := 0x5B
  const CLOSE_BRACKET: CodeUnit := 0x5D
  const OPEN_PAREN: CodeUnit := 0x28
  const CLOSE_PAREN: CodeUnit := 0x29

  // String.prototype.replace with a one-unit pattern and the global flag.
  function ReplaceAll(s: Source, from: CodeUnit, replacement: Source): Source {
    if s == [] then [] else (if s[0] == from then replacement else [s[0]]) + ReplaceAll(s[1..], from, replacement)
  }

  function EscapeAgdaString(s: Source): Source {
    var a := ReplaceAll(s, BACKSLASH, [BACKSLASH, BACKSLASH]);
    var b := ReplaceAll(a, QUOTE, [BACKSLASH, QUOTE]);
    ReplaceAll(b, NEWLINE, [BACKSLASH, SMALL_N])
  }

  // Every unit is escaped on its own.
  function EscapedUnit(u: CodeUnit): Source {
    if u == BACKSLASH then [BACKSLASH, BACKSLASH]
    else if u == QUOTE then [BACKSLASH, QUOTE]
    else if u == NEWLINE then [BACKSLASH, SMALL_N]
    else [u]
  }

  function EscapedOnce(s: Source): Source {
    if s == [] then [] else EscapedUnit(s[0]) + EscapedOnce(s[1..])
  }

  lemma {:induction false} ReplaceDistributes(s: Source, t: Source, from: CodeUnit, replacement: Source)
    ensures ReplaceAll(s + t, from, replacement) == ReplaceAll(s, from, replacement) + ReplaceAll(t, from, replacement)
  {
    if s == [] {
      assert s + t == t;
    } else {
      assert (s + t)[1..] == s[1..] + t;
      ReplaceDistributes(s[1..], t, from, replacement);
    }
  }

  // The three passes do not get in each other's way: they are one pass over the units.
  lemma {:induction false} ThreePassesAreOne(s: Source)
    ensures EscapeAgdaString(s) == EscapedOnce(s)
  {
    if s != [] {
      var u := s[0];
      var a0 := if u == BACKSLASH then [BACKSLASH, BACKSLASH] else [u];
      var b0 := ReplaceAll(a0, QUOTE, [BACKSLASH, QUOTE]);
      ThreePassesAreOne(s[1..]);
      var a1 := ReplaceAll(s[1..], BACKSLASH, [BACKSLASH, BACKSLASH]);
      ReplaceDistributes(a0, a1, QUOTE, [BACKSLASH, QUOTE]);
      ReplaceDistributes(b0, ReplaceAll(a1, QUOTE, [BACKSLASH, QUOTE]), NEWLINE, [BACKSLASH, SMALL_N]);
      UnitThroughThePasses(u);
    }
  }

  lemma UnitThroughThePasses(u: CodeUnit)
    ensures var a0 := if u == BACKSLASH then [BACKSLASH, BACKSLASH] else [u];
            ReplaceAll(ReplaceAll(a0, QUOTE, [BACKSLASH, QUOTE]), NEWLINE, [BACKSLASH, SMALL_N]) == EscapedUnit(u)
  {
    ReplaceShort(u, u, QUOTE, [BACKSLASH, QUOTE]);
    ReplaceShort(BACKSLASH, QUOTE, NEWLINE, [BACKSLASH, SMALL_N]);
    ReplaceShort(BACKSLASH, BACKSLASH, NEWLINE, [BACKSLASH, SMALL_N]);
    ReplaceShort(u, u, NEWLINE, [BACKSLASH, SMALL_N]);
  }

  lemma ReplaceShort(u: CodeUnit, v: CodeUnit, from: CodeUnit, replacement: Source)
    ensures ReplaceAll([u], from, replacement) == if u == from then replacement else [u]
    ensures u != from && v != from ==> ReplaceAll([u, v], from, replacement) == [u, v]
  {
    assert [u][1..] == [];
    assert [u, v][1..] == [v];
    assert [v][1..] == [];
  }

  // Read from left to right, every quote and every backslash belongs to an escape, and no line ends.
  predicate WellEscaped(e: Source) {
    if e == [] then true
    else if e[0] == BACKSLASH then |e| >= 2 && e[1] != NEWLINE && WellEscaped(e[2..])
    else e[0] != QUOTE && e[0] != NEWLINE && WellEscaped(e[1..])
  }

  lemma {:induction false} EscapedIsWellEscaped(s: Source)
    ensures WellEscaped(EscapeAgdaString(s)) && NEWLINE !in EscapeAgdaString(s)
  {
    ThreePassesAreOne(s);
    if s != [] {
      EscapedIsWellEscaped(s[1..]);
      ThreePassesAreOne(s[1..]);
      var e := EscapedUnit(s[0]) + EscapedOnce(s[1..]);
      assert e[|EscapedUnit(s[0])|..] == EscapedOnce(s[1..]);
    }
  }

  // ---- a reader ----

  datatype Parsed<T> = Parsed(value: T, rest: Source)

  // The inside of a string literal up to its closing quote. Only the escapes for a backslash, a quote
  // and a line end are known, and a raw line end is an error.
  function ReadBody(s: Source): (r: Option<Parsed<Source>>)
    decreases |s|
  {
    if s == [] || s[0] == NEWLINE then None
    else if s[0] == QUOTE then Some(Parsed([], s[1..]))
    else if s[0] == BACKSLASH then
      if |s| < 2 || s[1] !in {BACKSLASH, QUOTE, SMALL_N} then None
      else match ReadBody(s[2..])
        case None => None
        case Some(p) => Some(Parsed([if s[1] == SMALL_N then NEWLINE else s[1]] + p.value, p.rest))
    else match ReadBody(s[1..])
      case None => None
      case Some(p) => Some(Parsed([s[0]] + p.value, p.rest))
  }

  function ReadString(s: Source): Option<Parsed<Source>> {
    if s != [] && s[0] == QUOTE then ReadBody(s[1..]) else None
  }

  function Quoted(text: Source): Source { [QUOTE] + EscapeAgdaString(text) + [QUOTE] }

  lemma {:induction false} BodyReadsBack(s: Source, rest: Source)
    ensures ReadBody(EscapedOnce(s) + [QUOTE] + rest) == Some(Parsed(s, rest))
  {
    if s == [] {
      assert ([QUOTE] + rest)[1..] == rest;
      assert EscapedOnce(s) + [QUOTE] + rest == [QUOTE] + rest;
    } else {
      var tail := EscapedOnce(s[1..]) + [QUOTE] + rest;
      BodyReadsBack(s[1..], rest);
      UnitReadsBack(s[0], tail);
      assert EscapedOnce(s) + [QUOTE] + rest == EscapedUnit(s[0]) + tail;
      assert s == [s[0]] + s[1..];
    }
  }

  lemma UnitReadsBack(u: CodeUnit, tail: Source)
    requires ReadBody(tail).Some?
    ensures ReadBody(EscapedUnit(u) + tail) ==
            Some(Parsed([u] + ReadBody(tail).value.value, ReadBody(tail).value.rest))
  {
    var e := EscapedUnit(u);
    assert (e + tail)[|e|..] == tail;
  }

  // Reading inverts quoting, whatever the text and whatever follows.
  lemma QuotedReadsBack(text: Source, rest: Source)
    ensures ReadString(Quoted(text) + rest) == Some(Parsed(text, rest))
  {
    ThreePassesAreOne(text);
    BodyReadsBack(text, rest);
    assert (Quoted(text) + rest)[1..] == EscapedOnce(text) + [QUOTE] + rest;
  }

  // ---- lists ----

  function QuotedAll(values: seq<Source>): (r: seq<Source>)
    ensures |r| == |values| && forall k :: 0 <= k < |values| ==> r[k] == Quoted(values[k])
  {
    seq(|values|, k requires 0 <= k < |values| => Quoted(values[k]))
  }

  function StringList(values: seq<Source>): Source {
    if |values| == 0 then [OPEN_BRACKET, CLOSE_BRACKET]
    else [OPEN_BRACKET] + Join(QuotedAll(values), [COMMA, SPACE]) + [CLOSE_BRACKET]
  }

  // Strings separated by ", " up to the closing bracket.
  function ReadItems(s: Source): Option<Parsed<seq<Source>>>
    decreases |s|
  {
    match ReadString(s)
    case None => None
    case Some(p) =>
      if |p.rest| >= |s| then None
      else if Is(p.rest, 0, CLOSE_BRACKET) then Some(Parsed([p.value], p.rest[1..]))
      else if Pair(p.rest, 0, COMMA, SPACE) then
        match ReadItems(p.rest[2..])
        case None => None
        case Some(q) => Some(Parsed([p.value] + q.value, q.rest))
      else None
  }

  function ReadList(s: Source): Option<Parsed<seq<Source>>> {
    if !Is(s, 0, OPEN_BRACKET) then None
    else if Is(s, 1, CLOSE_BRACKET) then Some(Parsed([], s[2..]))
    else ReadItems(s[1..])
  }

  lemma {:induction false} ItemsReadBack(values: seq<Source>, rest: Source)
    requires values != []
    ensures ReadItems(Join(QuotedAll(values), [COMMA, SPACE]) + [CLOSE_BRACKET] + rest) == Some(Parsed(values, rest))
  {
    hide EscapeAgdaString, ReadString;
    var first := Quoted(values[0]);
    var after := if |values| == 1 then [CLOSE_BRACKET] + rest
                 else [COMMA, SPACE] + (Join(QuotedAll(values[1..]), [COMMA, SPACE]) + [CLOSE_BRACKET] + rest);
    assert QuotedAll(values)[1..] == QuotedAll(values[1..]);
    assert Join(QuotedAll(values), [COMMA, SPACE]) + [CLOSE_BRACKET] + rest == first + after;
    QuotedReadsBack(values[0], after);
    if |values| > 1 {
      assert after[2..] == Join(QuotedAll(values[1..]), [COMMA, SPACE]) + [CLOSE_BRACKET] + rest;
      ItemsReadBack(values[1..], rest);
      assert values == [values[0]] + values[1..];
    } else {
      assert after[1..] == rest;
      assert values == [values[0]];
    }
  }

  lemma ListReadsBack(values: seq<Source>, rest: Source)
    ensures ReadList(StringList(values) + rest) == Some(Parsed(values, rest))
  {
    hide EscapeAgdaString, ReadString, ReadItems, Join;
    var all := StringList(values) + rest;
    if values == [] {
      assert all[2..] == rest;
    } else {
      ItemsReadBack(values, rest);
      assert all[1..] == Join(QuotedAll(values), [COMMA, SPACE]) + [CLOSE_BRACKET] + rest;
      JoinStartsWithQuote(values);
      assert all[1] == QUOTE;
    }
  }

  lemma JoinStartsWithQuote(values: seq<Source>)
    requires values != []
    ensures Is(Join(QuotedAll(values), [COMMA, SPACE]), 0, QUOTE)
  {
    assert Quoted(values[0])[0] == QUOTE;
  }

  // ---- the envelope ----

  // "IOTCM " and " NonInteractive Direct (".
  const BEFORE_PATH: Source := [0x49, 0x4F, 0x54, 0x43, 0x4D, 0x20]
  const AFTER_PATH: Source :=
    [0x20, 0x4E, 0x6F, 0x6E, 0x49, 0x6E, 0x74, 0x65, 0x72, 0x61, 0x63, 0x74, 0x69, 0x76, 0x65, 0x20,
     0x44, 0x69, 0x72, 0x65, 0x63, 0x74, 0x20, 0x28]

  function Command(name: Source, parts: seq<Source>): Source { Join([name] + parts, [SPACE]) }

  function IotcmEnvelope(filePath: Source, innerCommand: Source): Source {
    BEFORE_PATH + Quoted(filePath) + AFTER_PATH + innerCommand + [CLOSE_PAREN]
  }

  function Strip(prefix: Source, s: Source): Option<Source> {
    if prefix <= s then Some(s[|prefix|..]) else None
  }

  function ReadEnvelope(line: Source): Option<(Source, Source)> {
    match Strip(BEFORE_PATH, line)
    case None => None
    case Some(s) =>
      match ReadString(s)
      case None => None
      case Some(p) =>
        match Strip(AFTER_PATH, p.rest)
        case None => None
        case Some(inner) =>
          if inner != [] && inner[|inner| - 1] == CLOSE_PAREN
          then Some((p.value, inner[..|inner| - 1]))
          else None
  }

  // The path and the inner command can be told from the envelope, whatever characters the path has.
  lemma EnvelopeReadsBack(filePath: Source, innerCommand: Source)
    ensures ReadEnvelope(IotcmEnvelope(filePath, innerCommand)) == Some((filePath, innerCommand))
  {
    hide EscapeAgdaString, ReadString;
    var line := IotcmEnvelope(filePath, innerCommand);
    var rest := AFTER_PATH + (innerCommand + [CLOSE_PAREN]);
    QuotedReadsBack(filePath, rest);
    assert line == BEFORE_PATH + (Quoted(filePath) + rest);
    assert line[|BEFORE_PATH|..] == Quoted(filePath) + rest;
    assert rest[|AFTER_PATH|..] == innerCommand + [CLOSE_PAREN];
    assert (innerCommand + [CLOSE_PAREN])[..|innerCommand|] == innerCommand;
  }

  // One command stays one line as long as the inner command is one; the load command always is.
  lemma EnvelopeIsOneLine(filePath: Source, innerCommand: Source)
    ensures NEWLINE in IotcmEnvelope(filePath, innerCommand) <==> NEWLINE in innerCommand
  {
    hide EscapeAgdaString;
    EscapedIsWellEscaped(filePath);
  }

  lemma LoadCommandIsOneLine(name: Source, path: Source, options: seq<Source>)
    requires NEWLINE !in name
    ensures NEWLINE !in Command(name, [Quoted(path), StringList(options)])
  {
    hide EscapeAgdaString;
    EscapedIsWellEscaped(path);
    ListHasNoLineEnd(QuotedAll(options), options);
    var parts := [name, Quoted(path), StringList(options)];
    assert [name] + [Quoted(path), StringList(options)] == parts;
    assert parts[1..] == [Quoted(path), StringList(options)];
    assert parts[1..][1..] == [StringList(options)];
    assert Join(parts[1..][1..], [SPACE]) == StringList(options);
    assert Join(parts[1..], [SPACE]) == Quoted(path) + [SPACE] + StringList(options);
    assert Join(parts, [SPACE]) == name + [SPACE] + (Quoted(path) + [SPACE] + StringList(options));
  }

  lemma {:induction false} ListHasNoLineEnd(parts: seq<Source>, options: seq<Source>)
    requires parts == QuotedAll(options)
    ensures NEWLINE !in Join(parts, [COMMA, SPACE])
  {
    hide EscapeAgdaString;
    if parts != [] {
      EscapedIsWellEscaped(options[0]);
      assert parts[1..] == QuotedAll(options[1..]);
      ListHasNoLineEnd(parts[1..], options[1..]);
    }
  }

  // ---- commands ----

  lemma EnvelopeIsSpelled()
    ensures BEFORE_PATH == Units("IOTCM ") && AFTER_PATH == Units(" NonInteractive Direct (")
  {
  }

  // The parts of a command, none of which holds a space, can be told from it by splitting at spaces.
  lemma CommandSplits(name: Source, parts: seq<Source>)
    requires SPACE !in name && forall k :: 0 <= k < |parts| ==> SPACE !in parts[k]
    ensures Split(Command(name, parts), SPACE) == [name] + parts
  {
    JoinSplits([name] + parts, SPACE);
  }

  // A reader of load commands: a name up to the first space, a string, a space and a list of strings.
  function ReadLoadCommand(s: Source): Option<(Source, Source, seq<Source>)> {
    var name := Split(s, SPACE)[0];
    if |s| <= |name| then None
    else match ReadString(s[|name| + 1..])
      case None => None
      case Some(p) =>
        if !Is(p.rest, 0, SPACE) then None
        else match ReadList(p.rest[1..])
          case Some(q) => if q.rest == [] then Some((name, p.value, q.value)) else None
          case None => None
  }

  // Name, path and options can be told from a load command, whatever characters the last two have.
  lemma LoadCommandReadsBack(name: Source, path: Source, options: seq<Source>)
    requires SPACE !in name
    ensures ReadLoadCommand(Command(name, [Quoted(path), StringList(options)])) == Some((name, path, options))
  {
    hide Quoted, StringList, ReadString, ReadList, Split, Join, Is;
    var list := [SPACE] + StringList(options);
    var tail := [SPACE] + (Quoted(path) + list);
    var s := Command(name, [Quoted(path), StringList(options)]);
    assert s == name + tail by { ThreeParts(name, Quoted(path), StringList(options)); }
    assert Split(s, SPACE)[0] == name by { NameIsFirst(name, Quoted(path) + list); }
    assert s[|name| + 1..] == Quoted(path) + list;
    QuotedReadsBack(path, list);
    assert Is(list, 0, SPACE) by { SpaceFirst(StringList(options)); }
    assert list[1..] == StringList(options) + [];
    ListReadsBack(options, []);
  }

  lemma SpaceFirst(s: Source)
    ensures Is([SPACE] + s, 0, SPACE)
  {
  }

  lemma NameIsFirst(name: Source, rest: Source)
    requires SPACE !in name
    ensures Split(name + ([SPACE] + rest), SPACE)[0] == name
  {
    SplitPrefix(name, [SPACE] + rest, SPACE);
    assert ([SPACE] + rest)[1..] == rest;
    assert name + [] == name;
  }

  lemma ThreeParts(a: Source, b: Source, c: Source)
    ensures Command(a, [b, c]) == a + ([SPACE] + (b + ([SPACE] + c)))
  {
    var parts := [a, b, c];
    assert [a] + [b, c] == parts;
    assert parts[1..] == [b, c] && [b, c][1..] == [c];
    assert Join([c], [SPACE]) == c;
    assert Join([b, c], [SPACE]) == b + [SPACE] + c;
    assert Join(parts, [SPACE]) == a + [SPACE] + (b + [SPACE] + c);
  }
}
