/**
 The server-sent-events parser on bytes: each chunk is decoded on its own before
 it is appended to the text buffer, so a chunk boundary inside a multi-byte
 character changes the text.
 */
module SseBytes {
  import opened Options
  import opened Sse
  import opened Utf8

  /** `feed` on successive byte chunks. */
  function FeedChunks<J>(read: string -> Line<J>, max: nat, chunks: seq<seq<Byte>>): Fed<J> {
    FeedAll(read, max, "", 0, DecodeEach(chunks))
  }

  /** Decoding chunk by chunk gives the decoded whole exactly when no boundary cuts a unit. */
  lemma {:induction false} DecodeEachCommutesIff(chunks: seq<seq<Byte>>)
    ensures |Concat(DecodeEach(chunks))| >= |Decode(Join(chunks))|
    ensures CutsNone(chunks) <==> |Concat(DecodeEach(chunks))| == |Decode(Join(chunks))|
    ensures CutsNone(chunks) <==> Concat(DecodeEach(chunks)) == Decode(Join(chunks))
  {
    if chunks != [] {
      var rest := chunks[1..];
      DecodeEachCommutesIff(rest);
      if Cuts(chunks[0], Join(rest)) { CutAddsCharacters(chunks[0], Join(rest)); } else { DecodePieces(chunks[0], Join(rest)); }
      assert DecodeEach(chunks)[1..] == DecodeEach(rest);
    }
  }

  /** Feeding the chunks gives the outcome and failure counter of feeding all bytes at once,
      and without an error the same leftover. */
  ghost predicate Agrees<J>(read: string -> Line<J>, max: nat, chunks: seq<seq<Byte>>) {
    var parts, whole := FeedChunks(read, max, chunks), FeedChunks(read, max, [Join(chunks)]);
    && parts.outcome == whole.outcome
    && parts.failures == whole.failures
    && (whole.outcome.Ok? ==> parts.buffer == whole.buffer)
  }

  /** One feed of all bytes is one feed of their decoded text. */
  lemma WholeFeed<J>(read: string -> Line<J>, max: nat, bytes: seq<Byte>)
    ensures var one, text := FeedChunks(read, max, [bytes]), FeedText(read, max, "", 0, Decode(bytes));
      one.outcome == text.outcome && one.failures == text.failures && (one.outcome.Ok? ==> one.buffer == text.buffer)
  {
    OneChunk(bytes);
    SplitInvariance(read, max, "", 0, [Decode(bytes)]);
  }

  /** If no boundary cuts a character, byte chunks give what one feed of all bytes gives. */
  lemma ByteSplitInvariance<J>(read: string -> Line<J>, max: nat, chunks: seq<seq<Byte>>)
    requires CutsNone(chunks)
    ensures Agrees(read, max, chunks)
  {
    WholeFeed(read, max, Join(chunks));
    DecodeEachCommutesIff(chunks);
    if chunks == [] {
      NothingFed(read, max);
    } else {
      SplitInvariance(read, max, "", 0, DecodeEach(chunks));
    }
  }

  lemma NothingFed<J>(read: string -> Line<J>, max: nat)
    ensures FeedText(read, max, "", 0, "") == Fed(Ok([]), "", 0)
  {
    assert "" + "" == "";
  }

  /** The reader that returns every line as its value. */
  function Echo(): string -> Line<string> {
    (line: string) => Data(line)
  }

  lemma {:induction false} EchoReturnsLines(max: nat, lines: seq<string>)
    ensures Handle(Echo(), max, lines, 0) == Handled(Ok(lines), [], 0)
  {
    if lines != [] {
      EchoReturnsLines(max, lines[1..]);
      assert [lines[0]] + lines[1..] == lines;
    }
  }

  lemma EchoFeed(max: nat, text: string)
    ensures FeedText(Echo(), max, "", 0, text) == Fed(Ok(Lines(text)), Tail(text), 0)
  {
    assert "" + text == text && "" + Tail(text) == Tail(text);
    EchoReturnsLines(max, Lines(text));
  }

  /** Two texts with the same complete lines and the same leftover are equal. */
  lemma SameLinesSameText(a: string, b: string)
    requires Lines(a) == Lines(b) && Tail(a) == Tail(b)
    ensures a == b
  {
    LinesRejoin(a);
    LinesRejoin(b);
  }

  lemma EchoAgreesOnlyUncut(max: nat, chunks: seq<seq<Byte>>)
    requires Agrees(Echo(), max, chunks)
    ensures CutsNone(chunks)
  {
    if chunks != [] {
      var text, whole := Concat(DecodeEach(chunks)), Decode(Join(chunks));
      SplitInvariance(Echo(), max, "", 0, DecodeEach(chunks));
      WholeFeed(Echo(), max, Join(chunks));
      EchoFeed(max, text);
      EchoFeed(max, whole);
      SameLinesSameText(text, whole);
      DecodeEachCommutesIff(chunks);
    }
  }

  /** Feeding chunks agrees with feeding all bytes at once under every line reader, if and
      only if no chunk boundary cuts a character: for any stream, complete lines included. */
  lemma AllReadersAgreeIff(max: nat, chunks: seq<seq<Byte>>)
    ensures (forall read: string -> Line<string> :: Agrees(read, max, chunks)) <==> CutsNone(chunks)
  {
    if CutsNone(chunks) {
      forall read: string -> Line<string> ensures Agrees(read, max, chunks) { ByteSplitInvariance(read, max, chunks); }
    } else if forall read: string -> Line<string> :: Agrees(read, max, chunks) {
      EchoAgreesOnlyUncut(max, chunks);
    }
  }

  // ---------------------------------------------------------------------------
  // The parser's own readers
  // ---------------------------------------------------------------------------

  /** The JSON text of a data line; every other line, the terminator included, has none. */
  function Payload(line: string): Option<string> {
    var trimmed := TrimEnd(TrimStart(line));
    if PREFIX <= trimmed && trimmed[|PREFIX|..] != "[DONE]" then Some(trimmed[|PREFIX|..]) else None
  }

  function Payloads(lines: seq<string>): seq<string> {
    if lines == [] then []
    else
      match Payload(lines[0])
      case Some(json) => [json] + Payloads(lines[1..])
      case None => Payloads(lines[1..])
  }

  lemma SkippedLine<J>(parse: string -> Option<J>, max: nat, lines: seq<string>, failures: nat)
    requires lines != [] && Payload(lines[0]).None?
    ensures Handle(Reader(parse), max, lines, failures) == Handle(Reader(parse), max, lines[1..], failures)
    ensures Payloads(lines) == Payloads(lines[1..])
  {
    PrependNothing(Handle(Reader(parse), max, lines[1..], failures));
  }

  /** Lines with the same payloads in order give the same outcome and counter. */
  lemma {:induction false} SamePayloads<J>(parse: string -> Option<J>, max: nat, a: seq<string>, b: seq<string>, failures: nat)
    requires Payloads(a) == Payloads(b)
    ensures var x, y := Handle(Reader(parse), max, a, failures), Handle(Reader(parse), max, b, failures);
      x.outcome == y.outcome && x.failures == y.failures
    decreases |a| + |b|
  {
    if a != [] && Payload(a[0]).None? {
      SkippedLine(parse, max, a, failures);
      SamePayloads(parse, max, a[1..], b, failures);
    } else if b != [] && Payload(b[0]).None? {
      SkippedLine(parse, max, b, failures);
      SamePayloads(parse, max, a, b[1..], failures);
    } else if a != [] && b != [] {
      assert Payloads(a)[0] == Payloads(b)[0] && Payloads(a)[1..] == Payloads(b)[1..];
      var line := Read(parse, a[0]);
      assert line == Read(parse, b[0]);
      SamePayloads(parse, max, a[1..], b[1..], Next(line, failures));
    }
  }

  /** The parser that takes every payload as its value. */
  function Verbatim(): string -> Option<string> {
    (json: string) => Some(json)
  }

  lemma {:induction false} VerbatimReturnsPayloads(max: nat, lines: seq<string>)
    ensures Handle(Reader(Verbatim()), max, lines, 0) == Handled(Ok(Payloads(lines)), [], 0)
  {
    if lines != [] {
      VerbatimReturnsPayloads(max, lines[1..]);
      if Payload(lines[0]).None? { SkippedLine(Verbatim(), max, lines, 0); }
    }
  }

  /** The texts show the parser the same data: the payloads of their complete lines, and the leftover. */
  predicate SameData(a: string, b: string) {
    Payloads(Lines(a)) == Payloads(Lines(b)) && Tail(a) == Tail(b)
  }

  /** A feed that succeeds leaves the text's tail. */
  lemma OkLeavesTail<J>(read: string -> Line<J>, max: nat, text: string)
    ensures var h, r := Handle(read, max, Lines(text), 0), FeedText(read, max, "", 0, text);
      r.outcome == h.outcome && r.failures == h.failures && (r.outcome.Ok? ==> r.buffer == Tail(text))
  {
    assert "" + text == text && "" + Tail(text) == Tail(text);
    HandleAppend(read, max, Lines(text), [], 0);
  }

  lemma AgreesByText<J>(read: string -> Line<J>, max: nat, chunks: seq<seq<Byte>>)
    requires chunks != []
    ensures var parts := FeedText(read, max, "", 0, Concat(DecodeEach(chunks)));
      var whole := FeedText(read, max, "", 0, Decode(Join(chunks)));
      Agrees(read, max, chunks)
      <==> && parts.outcome == whole.outcome && parts.failures == whole.failures
           && (whole.outcome.Ok? ==> parts.buffer == whole.buffer)
  {
    SplitInvariance(read, max, "", 0, DecodeEach(chunks));
    WholeFeed(read, max, Join(chunks));
  }

  lemma SameDataAgrees<J>(parse: string -> Option<J>, max: nat, chunks: seq<seq<Byte>>)
    requires SameData(Concat(DecodeEach(chunks)), Decode(Join(chunks)))
    ensures Agrees(Reader(parse), max, chunks)
  {
    if chunks == [] {
      ByteSplitInvariance(Reader(parse), max, chunks);
    } else {
      var text, whole := Concat(DecodeEach(chunks)), Decode(Join(chunks));
      AgreesByText(Reader(parse), max, chunks);
      OkLeavesTail(Reader(parse), max, text);
      OkLeavesTail(Reader(parse), max, whole);
      SamePayloads(parse, max, Lines(text), Lines(whole), 0);
    }
  }

  lemma VerbatimAgreesOnData(max: nat, chunks: seq<seq<Byte>>)
    requires Agrees(Reader(Verbatim()), max, chunks)
    ensures SameData(Concat(DecodeEach(chunks)), Decode(Join(chunks)))
  {
    if chunks != [] {
      var text, whole := Concat(DecodeEach(chunks)), Decode(Join(chunks));
      AgreesByText(Reader(Verbatim()), max, chunks);
      OkLeavesTail(Reader(Verbatim()), max, text);
      OkLeavesTail(Reader(Verbatim()), max, whole);
      VerbatimReturnsPayloads(max, Lines(text));
      VerbatimReturnsPayloads(max, Lines(whole));
    }
  }

  /** For the parser itself: feeding chunks agrees with feeding all bytes at once whatever the
      JSON parser, if and only if decoding chunk by chunk leaves the payloads of the data lines
      and the leftover as they are; a cut inside any other line is harmless. */
  lemma AllParsersAgreeIff(max: nat, chunks: seq<seq<Byte>>)
    ensures (forall parse: string -> Option<string> :: Agrees(Reader(parse), max, chunks))
       <==> SameData(Concat(DecodeEach(chunks)), Decode(Join(chunks)))
  {
    if SameData(Concat(DecodeEach(chunks)), Decode(Join(chunks))) {
      forall parse: string -> Option<string> ensures Agrees(Reader(parse), max, chunks) { SameDataAgrees(parse, max, chunks); }
    } else if forall parse: string -> Option<string> :: Agrees(Reader(parse), max, chunks) {
      VerbatimAgreesOnData(max, chunks);
    }
  }

  /** A text without a newline is only buffered. */
  lemma PartialLine<J>(read: string -> Line<J>, max: nat, chunks: seq<string>)
    requires chunks != [] && '\n' !in Concat(chunks)
    ensures FeedAll(read, max, "", 0, chunks) == Fed(Ok([]), Concat(chunks), 0)
  {
    SplitInvariance(read, max, "", 0, chunks);
    var text := Concat(chunks);
    assert "" + text == text;
    OneLine(text);
  }

  lemma CutDecodes(a: Byte, b: Byte)
    requires a == 0xC3 && b == 0xA9
    ensures Decode([a, b]) == ['\U{00E9}']
    ensures Decode([a]) == [REPLACEMENT] && Decode([b]) == [REPLACEMENT]
  {
    assert Unit([a, b]) == 2 && [a, b][2..] == [];
    assert Unit([a]) == 1 && [a][1..] == [];
    assert Unit([b]) == 1 && [b][1..] == [];
  }

  lemma OneChunk(a: seq<Byte>)
    ensures DecodeEach([a]) == [Decode(a)] && Concat([Decode(a)]) == Decode(a)
  {
    assert [a][1..] == [] && [Decode(a)][1..] == [];
    assert Decode(a) + "" == Decode(a);
  }

  lemma TwoChunks(a: seq<Byte>, b: seq<Byte>)
    ensures DecodeEach([a, b]) == [Decode(a), Decode(b)]
    ensures Concat([Decode(a), Decode(b)]) == Decode(a) + Decode(b)
  {
    OneChunk(b);
    assert [a, b][1..] == [b] && [Decode(a), Decode(b)][1..] == [Decode(b)];
  }

  /** The two bytes of U+00E9 in two chunks: the character is lost. */
  lemma CutCharacterIsLost<J>(read: string -> Line<J>, max: nat, a: Byte, b: Byte)
    requires a == 0xC3 && b == 0xA9
    ensures FeedChunks(read, max, [[a, b]]).buffer == ['\U{00E9}']
    ensures FeedChunks(read, max, [[a], [b]]).buffer == [REPLACEMENT] + [REPLACEMENT]
  {
    CutDecodes(a, b);
    OneChunk([a, b]);
    TwoChunks([a], [b]);
    PartialLine(read, max, DecodeEach([[a, b]]));
    PartialLine(read, max, DecodeEach([[a], [b]]));
  }
}
