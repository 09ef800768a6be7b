// How stdout is cut into chunks, and when the chunks arrive, does not matter.

module Chunking {
  import opened Basics
  import opened Wire
  import opened Terminus
  import opened StdoutLines
  import opened TransportModel

  datatype Chunk = Chunk(text: string, at: nat)

  function HandleChunks(t: Transport, chunks: seq<Chunk>, json: string -> Option<Response>): Transport
    decreases |chunks|
  {
    if chunks == [] then t
    else HandleChunks(HandleStdout(t, chunks[0].text, json, chunks[0].at), chunks[1..], json)
  }

  function Stream(chunks: seq<Chunk>): string {
    if chunks == [] then "" else chunks[0].text + Stream(chunks[1..])
  }

  /** Everything but the clock readings: acceptance times and inactivity deadlines. */
  function Timeless(t: Transport): Transport {
    t.(acceptedAt := [],
       operations := seq(|t.operations|, k requires 0 <= k < |t.operations| => t.operations[k].(deadline := 0)))
  }

  function Logged(t: Transport, r: Response): Transport {
    t.(parsed := t.parsed + [r],
       controlEscalation := if IsControlEcho(r) then None else t.controlEscalation)
  }

  /** `Record` computed on the timeless part alone. */
  function RecordTimeless(t: Transport, r: Response): Transport {
    var t1 := Logged(t, r);
    if !t1.collecting || (t1.currentCommandKind == Regular && IsControlEcho(r)) then t1
    else BumpIdle(Push(t1, r, 0).(acceptedAt := []))
  }

  lemma TimelessRearm(t: Transport, now: nat)
    ensures Timeless(Rearm(t, now)) == Timeless(t)
  {
    assert Timeless(Rearm(t, now)).operations == Timeless(t).operations;
  }

  lemma TimelessRecordIs(t: Transport, r: Response, now: nat)
    ensures Timeless(Record(t, r, now)) == RecordTimeless(Timeless(t), r)
  {
    var t1 := Logged(t, r);
    assert Timeless(t1) == Logged(Timeless(t), r);
    if t1.collecting && !(t1.currentCommandKind == Regular && IsControlEcho(r)) {
      var t2 := Push(t1, r, now);
      assert Timeless(t2) == Push(Timeless(t1), r, 0).(acceptedAt := []);
      TimelessRearm(t2, now);
      var t3 := Rearm(t2, now);
      assert Timeless(BumpIdle(t3)) == BumpIdle(Timeless(t3));
    }
  }

  lemma TimelessRecord(t1: Transport, t2: Transport, r: Response, n1: nat, n2: nat)
    requires Timeless(t1) == Timeless(t2)
    ensures Timeless(Record(t1, r, n1)) == Timeless(Record(t2, r, n2))
  {
    TimelessRecordIs(t1, r, n1);
    TimelessRecordIs(t2, r, n2);
  }

  lemma {:induction false} TimelessRecordAll(t1: Transport, t2: Transport, rs: seq<Response>, n1: nat, n2: nat)
    requires Timeless(t1) == Timeless(t2)
    ensures Timeless(RecordAll(t1, rs, n1)) == Timeless(RecordAll(t2, rs, n2))
    decreases |rs|
  {
    if rs != [] {
      TimelessRecord(t1, t2, rs[0], n1, n2);
      TimelessRecordAll(Record(t1, rs[0], n1), Record(t2, rs[0], n2), rs[1..], n1, n2);
    }
  }

  lemma {:induction false} TimelessRecordLines(t1: Transport, t2: Transport, lines: seq<string>,
                                               json: string -> Option<Response>, n1: nat, n2: nat)
    requires Timeless(t1) == Timeless(t2)
    ensures Timeless(RecordLines(t1, lines, json, n1)) == Timeless(RecordLines(t2, lines, json, n2))
    decreases |lines|
  {
    if lines != [] {
      var rs := DecodeLine(lines[0], json);
      TimelessRecordAll(t1, t2, rs, n1, n2);
      TimelessRecordLines(RecordAll(t1, rs, n1), RecordAll(t2, rs, n2), lines[1..], json, n1, n2);
    }
  }

  lemma TimelessStdout(t1: Transport, t2: Transport, text: string, json: string -> Option<Response>, n1: nat, n2: nat)
    requires Timeless(t1) == Timeless(t2)
    ensures Timeless(HandleStdout(t1, text, json, n1)) == Timeless(HandleStdout(t2, text, json, n2))
  {
    if Hears(t1) {
      var lines := Lines(t1.buffer + text);
      TimelessRecordLines(t1, t2, lines, json, n1, n2);
      var r1, r2 := RecordLines(t1, lines, json, n1), RecordLines(t2, lines, json, n2);
      var tail := Tail(t1.buffer + text);
      assert Timeless(r1.(buffer := tail)) == Timeless(r1).(buffer := tail);
      assert Timeless(r2.(buffer := tail)) == Timeless(r2).(buffer := tail);
    }
  }

  lemma {:induction false} RecordAllBuffer(t: Transport, rs: seq<Response>, buffer: string, now: nat)
    ensures RecordAll(t.(buffer := buffer), rs, now) == RecordAll(t, rs, now).(buffer := buffer)
    ensures RecordAll(t, rs, now).collecting == t.collecting
    decreases |rs|
  {
    if rs != [] {
      assert Record(t.(buffer := buffer), rs[0], now) == Record(t, rs[0], now).(buffer := buffer);
      RecordAllBuffer(Record(t, rs[0], now), rs[1..], buffer, now);
    }
  }

  lemma {:induction false} RecordLinesBuffer(t: Transport, lines: seq<string>, json: string -> Option<Response>,
                                             buffer: string, now: nat)
    ensures RecordLines(t.(buffer := buffer), lines, json, now) == RecordLines(t, lines, json, now).(buffer := buffer)
    ensures RecordLines(t, lines, json, now).collecting == t.collecting
    decreases |lines|
  {
    if lines != [] {
      var rs := DecodeLine(lines[0], json);
      RecordAllBuffer(t, rs, buffer, now);
      RecordLinesBuffer(RecordAll(t, rs, now), lines[1..], json, buffer, now);
    }
  }

  lemma {:induction false} RecordLinesConcat(t: Transport, a: seq<string>, b: seq<string>,
                                             json: string -> Option<Response>, now: nat)
    ensures RecordLines(t, a + b, json, now) == RecordLines(RecordLines(t, a, json, now), b, json, now)
    decreases |a|
  {
    if a == [] {
      assert a + b == b;
    } else {
      assert (a + b)[1..] == a[1..] + b;
      RecordLinesConcat(RecordAll(t, DecodeLine(a[0], json), now), a[1..], b, json, now);
    }
  }

  /** Two chunks heard at one instant have the effect of their concatenation, as long as
      the transport still listens after the first. */
  lemma TwoChunks(t: Transport, a: string, b: string, json: string -> Option<Response>, now: nat)
    requires Hears(t) && Hears(HandleStdout(t, a, json, now))
    ensures HandleStdout(HandleStdout(t, a, json, now), b, json, now) == HandleStdout(t, a + b, json, now)
  {
    var text := t.buffer + a;
    var mid := RecordLines(t, Lines(text), json, now);
    var rest := Lines(Tail(text) + b);
    LinesOfConcat(text, b);
    assert text + b == t.buffer + (a + b);
    RecordLinesConcat(t, Lines(text), rest, json, now);
    RecordLinesBuffer(mid, rest, json, Tail(text), now);
  }

  /** A non-empty series of chunks heard while collecting, at whatever times, has the
      effect of the whole stream in one chunk, clock readings apart. */
  lemma {:induction false} ChunksAreTheirStream(t: Transport, chunks: seq<Chunk>, json: string -> Option<Response>, now: nat)
    requires t.collecting && chunks != []
    ensures Timeless(HandleChunks(t, chunks, json)) == Timeless(HandleStdout(t, Stream(chunks), json, now))
    decreases |chunks|
  {
    var c := chunks[0];
    var t1 := HandleStdout(t, c.text, json, c.at);
    RecordLinesBuffer(t, Lines(t.buffer + c.text), json, "", c.at);
    if |chunks| == 1 {
      assert Stream(chunks) == c.text + "" == c.text;
      assert HandleChunks(t, chunks, json) == t1;
      TimelessStdout(t, t, c.text, json, c.at, now);
    } else {
      ChunksAreTheirStream(t1, chunks[1..], json, c.at);
      TwoChunks(t, c.text, Stream(chunks[1..]), json, c.at);
      TimelessStdout(t, t, Stream(chunks), json, c.at, now);
    }
  }

  /** Chunking independence: equal streams leave equal transports. In particular the
      recorded lines, the queue and the leftover buffer agree. */
  lemma ChunkingIndependence(t: Transport, c1: seq<Chunk>, c2: seq<Chunk>, json: string -> Option<Response>)
    requires t.collecting && c1 != [] && c2 != [] && Stream(c1) == Stream(c2)
    ensures Timeless(HandleChunks(t, c1, json)) == Timeless(HandleChunks(t, c2, json))
    ensures HandleChunks(t, c1, json).buffer == Tail(t.buffer + Stream(c1)) == HandleChunks(t, c2, json).buffer
  {
    ChunksAreTheirStream(t, c1, json, 0);
    ChunksAreTheirStream(t, c2, json, 0);
    assert Timeless(HandleChunks(t, c1, json)).buffer == HandleStdout(t, Stream(c1), json, 0).buffer;
    assert Timeless(HandleChunks(t, c2, json)).buffer == HandleStdout(t, Stream(c2), json, 0).buffer;
  }

  // ── While only an escalation is armed ─────────────────────────────────

  function Decoded(lines: seq<string>, json: string -> Option<Response>): seq<Response> {
    if lines == [] then [] else DecodeLine(lines[0], json) + Decoded(lines[1..], json)
  }

  predicate HasEcho(rs: seq<Response>) {
    exists k :: 0 <= k < |rs| && IsControlEcho(rs[k])
  }

  /** Nothing is collected: responses are parsed, and an echo clears the escalation. */
  function Parsed(t: Transport, rs: seq<Response>): Transport {
    t.(parsed := t.parsed + rs, controlEscalation := if HasEcho(rs) then None else t.controlEscalation)
  }

  lemma EchoOfConcat(a: seq<Response>, b: seq<Response>)
    ensures HasEcho(a + b) <==> HasEcho(a) || HasEcho(b)
  {
    assert forall k :: 0 <= k < |a| ==> (a + b)[k] == a[k];
    if HasEcho(b) {
      var k :| 0 <= k < |b| && IsControlEcho(b[k]);
      assert (a + b)[|a| + k] == b[k];
    }
  }

  lemma ParsedTwice(t: Transport, a: seq<Response>, b: seq<Response>)
    ensures Parsed(Parsed(t, a), b) == Parsed(t, a + b)
    ensures Parsed(t, []) == t
  {
    EchoOfConcat(a, b);
    assert t.parsed + a + b == t.parsed + (a + b);
    assert t.parsed + [] == t.parsed;
  }

  lemma {:induction false} IdleRecordAll(t: Transport, rs: seq<Response>, now: nat)
    requires !t.collecting
    ensures RecordAll(t, rs, now) == Parsed(t, rs)
    decreases |rs|
  {
    if rs == [] {
      assert t.parsed + rs == t.parsed;
    } else {
      assert HasEcho([rs[0]]) <==> IsControlEcho([rs[0]][0]);
      assert Record(t, rs[0], now) == Parsed(t, [rs[0]]);
      IdleRecordAll(Record(t, rs[0], now), rs[1..], now);
      ParsedTwice(t, [rs[0]], rs[1..]);
      assert rs == [rs[0]] + rs[1..];
    }
  }

  lemma {:induction false} IdleRecordLines(t: Transport, lines: seq<string>, json: string -> Option<Response>, now: nat)
    requires !t.collecting
    ensures RecordLines(t, lines, json, now) == Parsed(t, Decoded(lines, json))
    decreases |lines|
  {
    hide Parsed;
    if lines == [] {
      ParsedTwice(t, [], []);
    } else {
      var rs := DecodeLine(lines[0], json);
      IdleRecordAll(t, rs, now);
      assert !Parsed(t, rs).collecting by { assert Parsed(t, rs).collecting == t.collecting; }
      IdleRecordLines(Parsed(t, rs), lines[1..], json, now);
      ParsedTwice(t, rs, Decoded(lines[1..], json));
    }
  }

  /** What the transport makes of a text, given the unfinished line it starts with. */
  function Meaning(buffer: string, text: string, json: string -> Option<Response>): (seq<Response>, string) {
    (Decoded(Lines(buffer + text), json), Tail(buffer + text))
  }

  /** The escalation survives a text exactly if the text completes no echo. */
  predicate CompletesEcho(buffer: string, text: string, json: string -> Option<Response>) {
    HasEcho(Meaning(buffer, text, json).0)
  }

  lemma IdleStdout(t: Transport, text: string, json: string -> Option<Response>, now: nat)
    requires !t.collecting && Hears(t)
    ensures var (rs, tail) := Meaning(t.buffer, text, json);
      HandleStdout(t, text, json, now) == Parsed(t, rs).(buffer := tail)
    ensures Hears(HandleStdout(t, text, json, now)) <==> !CompletesEcho(t.buffer, text, json)
  {
    IdleRecordLines(t, Lines(t.buffer + text), json, now);
  }

  /** The texts of the chunks up to the first one that completes an echo, and of all of
      them if none does. */
  function UpToEcho(buffer: string, chunks: seq<Chunk>, json: string -> Option<Response>): string
    decreases |chunks|
  {
    if chunks == [] then ""
    else
      var first := chunks[0].text;
      if CompletesEcho(buffer, first, json) then first
      else first + UpToEcho(Tail(buffer + first), chunks[1..], json)
  }

  lemma {:induction false} DeafToTheRest(t: Transport, chunks: seq<Chunk>, json: string -> Option<Response>)
    requires !Hears(t)
    ensures HandleChunks(t, chunks, json) == t
    decreases |chunks|
  {
    if chunks != [] { DeafToTheRest(t, chunks[1..], json); }
  }

  /** The chunks have the effect of the text up to the chunk that completes an echo. */
  lemma {:induction false} EscalatedChunks(t: Transport, chunks: seq<Chunk>, json: string -> Option<Response>, now: nat)
    requires !t.collecting && Hears(t) && chunks != []
    ensures HandleChunks(t, chunks, json) == HandleStdout(t, UpToEcho(t.buffer, chunks, json), json, now)
    decreases |chunks|
  {
    hide CompletesEcho;
    var c := chunks[0];
    var t1 := HandleStdout(t, c.text, json, c.at);
    IdleStdout(t, c.text, json, c.at);
    IdleStdout(t, c.text, json, now);
    if CompletesEcho(t.buffer, c.text, json) {
      DeafToTheRest(t1, chunks[1..], json);
    } else if |chunks| == 1 {
      assert c.text + "" == c.text;
      assert HandleChunks(t1, chunks[1..], json) == t1;
    } else {
      assert t1.buffer == Tail(t.buffer + c.text) && !t1.collecting;
      EscalatedChunks(t1, chunks[1..], json, c.at);
      var rest := UpToEcho(t1.buffer, chunks[1..], json);
      TwoChunks(t, c.text, rest, json, c.at);
      IdleStdout(t, c.text + rest, json, c.at);
      IdleStdout(t, c.text + rest, json, now);
    }
  }

  /** Without an echo in the stream the text up to it is the stream. */
  lemma {:induction false} NoEchoNoLoss(buffer: string, chunks: seq<Chunk>, json: string -> Option<Response>)
    requires !CompletesEcho(buffer, Stream(chunks), json)
    ensures UpToEcho(buffer, chunks, json) == Stream(chunks)
    decreases |chunks|
  {
    if chunks != [] {
      EchoInAPart(buffer, chunks[0].text, Stream(chunks[1..]), json);
      NoEchoNoLoss(Tail(buffer + chunks[0].text), chunks[1..], json);
    }
  }

  lemma MeaningInParts(buffer: string, a: string, b: string, json: string -> Option<Response>)
    ensures Meaning(buffer, a + b, json).0 == Meaning(buffer, a, json).0 + Meaning(Tail(buffer + a), b, json).0
  {
    hide Decoded, Lines, Tail;
    LinesOfConcat(buffer + a, b);
    var text := buffer + a + b;
    assert text == buffer + (a + b);
    DecodedConcat(Lines(buffer + a), Lines(Tail(buffer + a) + b), json);
    assert Meaning(buffer, a + b, json).0 == Decoded(Lines(text), json);
  }

  lemma EchoInAPart(buffer: string, a: string, b: string, json: string -> Option<Response>)
    ensures CompletesEcho(buffer, a + b, json) <==>
            CompletesEcho(buffer, a, json) || CompletesEcho(Tail(buffer + a), b, json)
  {
    hide Meaning, HasEcho, Tail;
    MeaningInParts(buffer, a, b, json);
    EchoOfConcat(Meaning(buffer, a, json).0, Meaning(Tail(buffer + a), b, json).0);
  }

  lemma {:induction false} DecodedConcat(a: seq<string>, b: seq<string>, json: string -> Option<Response>)
    ensures Decoded(a + b, json) == Decoded(a, json) + Decoded(b, json)
    decreases |a|
  {
    if a == [] {
      assert a + b == b;
    } else {
      assert (a + b)[1..] == a[1..] + b;
      DecodedConcat(a[1..], b, json);
    }
  }

  /** Two cuts of one stream agree exactly if nothing is heard at all, or if what they put
      up to and behind the chunk of the first echo means the same: the same responses and
      the same unfinished line. */
  lemma CutsAgreeExactly(t: Transport, c1: seq<Chunk>, c2: seq<Chunk>, json: string -> Option<Response>)
    requires !t.collecting && c1 != [] && c2 != []
    ensures HandleChunks(t, c1, json) == HandleChunks(t, c2, json) <==>
            !Hears(t) ||
            Meaning(t.buffer, UpToEcho(t.buffer, c1, json), json) == Meaning(t.buffer, UpToEcho(t.buffer, c2, json), json)
  {
    hide HandleStdout, UpToEcho, Meaning;
    if !Hears(t) {
      DeafToTheRest(t, c1, json);
      DeafToTheRest(t, c2, json);
    } else {
      EscalatedChunks(t, c1, json, 0);
      EscalatedChunks(t, c2, json, 0);
      IdleStdout(t, UpToEcho(t.buffer, c1, json), json, 0);
      IdleStdout(t, UpToEcho(t.buffer, c2, json), json, 0);
      var m1 := Meaning(t.buffer, UpToEcho(t.buffer, c1, json), json);
      var m2 := Meaning(t.buffer, UpToEcho(t.buffer, c2, json), json);
      assert Parsed(t, m1.0).parsed[|t.parsed|..] == m1.0 && Parsed(t, m2.0).parsed[|t.parsed|..] == m2.0;
      assert Parsed(t, m1.0).(buffer := m1.1).parsed == Parsed(t, m1.0).parsed;
      assert Parsed(t, m2.0).(buffer := m2.1).parsed == Parsed(t, m2.0).parsed;
    }
  }

  /** In particular they agree if the stream completes no echo, or if both cuts end the
      chunk of the first echo at the same place. */
  lemma EarlyCutsAgree(t: Transport, c1: seq<Chunk>, c2: seq<Chunk>, json: string -> Option<Response>)
    requires !t.collecting && c1 != [] && c2 != [] && Stream(c1) == Stream(c2)
    requires !CompletesEcho(t.buffer, Stream(c1), json) ||
             UpToEcho(t.buffer, c1, json) == UpToEcho(t.buffer, c2, json)
    ensures HandleChunks(t, c1, json) == HandleChunks(t, c2, json)
  {
    hide HandleChunks;
    CutsAgreeExactly(t, c1, c2, json);
    if !CompletesEcho(t.buffer, Stream(c1), json) {
      NoEchoNoLoss(t.buffer, c1, json);
      NoEchoNoLoss(t.buffer, c2, json);
    }
  }

  /** The cut can matter: once an echo has cleared the escalation, later text is dropped,
      while text in the same chunk is still buffered. */
  lemma CutsMatterWhileIdle(t: Transport, json: string -> Option<Response>)
    requires !t.collecting && t.controlEscalation.Some? && t.buffer == ""
    requires json("{}") == Some(DoneAborting)
    ensures HandleStdout(HandleStdout(t, "{}\n", json, 0), "x", json, 0).buffer == ""
    ensures HandleStdout(t, "{}\n" + "x", json, 0).buffer == "x"
  {
    var text := "{}\n";
    NewlineIs(text, 2);
    NewlineIs(text[3..], 0);
    assert Lines(text[3..]) == [];
    assert text[..2] == "{}";
    assert Lines(text) == ["{}"] && Tail(text) == "";
    assert t.buffer + text == text;
    LinesOfConcat(text, "x");
    assert Tail(text) + "x" == "x";
    NewlineIs("x", 1);
    assert Tail("x") == "x";
    assert t.buffer + (text + "x") == text + "x";
    assert TrimStart("{}") == "{}" && TrimEnd("{}") == "{}";
    assert DecodeLine("{}", json) == [DoneAborting];
    var r := [DoneAborting];
    assert RecordAll(t, r, 0) == RecordAll(Record(t, r[0], 0), r[1..], 0) == Record(t, DoneAborting, 0);
    assert RecordLines(t, ["{}"], json, 0) == RecordAll(t, r, 0) by {
      assert ["{}"][1..] == [];
    }
  }
}
