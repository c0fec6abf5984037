/**
 The incremental server-sent-events line parser.  The JSON parser is a
 parameter.  The theorems here are about decoded text; `SseBytes.dfy` adds what
 decoding each chunk of bytes on its own does to them.
 */
module Sse {
  import opened Options
  import Utf8

  // ---------------------------------------------------------------------------
  // Lines
  // ---------------------------------------------------------------------------

  /** Unicode `White_Space`, which `str::trim` removes at both ends. */
  predicate IsWhite(c: char) {
    var n := c as int;
    || 0x9 <= n <= 0xD || n == 0x20 || n == 0x85 || n == 0xA0 || n == 0x1680
    || 0x2000 <= n <= 0x200A || n == 0x2028 || n == 0x2029 || n == 0x202F || n == 0x205F || n == 0x3000
  }

  function TrimStart(s: string): string {
    if s != "" && IsWhite(s[0]) then TrimStart(s[1..]) else s
  }

  function TrimEnd(s: string): string {
    if s != "" && IsWhite(s[|s| - 1]) then TrimEnd(s[..|s| - 1]) else s
  }

  const PREFIX := "data: "

  /** What one line contributes: nothing, a JSON value, or a malformed event. */
  datatype Line<J> = Skip | Data(value: J) | Malformed(preview: string)

  function Read<J>(parse: string -> Option<J>, line: string): Line<J> {
    var trimmed := TrimEnd(TrimStart(line));
    if PREFIX <= trimmed then
      var json := trimmed[|PREFIX|..];
      if json == "[DONE]" then Skip
      else
        match parse(json)
        case Some(v) => Data(v)
        case None => Malformed(if |json| <= 200 then json else json[..200])
    else Skip
  }

  predicate AllWhite(s: string) {
    forall i :: 0 <= i < |s| ==> IsWhite(s[i])
  }

  lemma {:induction false} TrimStartSkips(pad: string, s: string)
    requires AllWhite(pad)
    ensures TrimStart(pad + s) == TrimStart(s)
  {
    if pad == "" {
      assert pad + s == s;
    } else {
      assert (pad + s)[1..] == pad[1..] + s;
      TrimStartSkips(pad[1..], s);
    }
  }

  lemma {:induction false} TrimEndSkips(s: string, pad: string)
    requires AllWhite(pad)
    ensures TrimEnd(s + pad) == TrimEnd(s)
  {
    if pad == "" {
      assert s + pad == s;
    } else {
      var n := |pad| - 1;
      assert (s + pad)[..|s| + n] == s + pad[..n];
      TrimEndSkips(s, pad[..n]);
    }
  }

  /** A data line is read the same whatever white space, carriage returns included, surrounds it. */
  lemma ReadIgnoresPadding<J>(parse: string -> Option<J>, before: string, json: string, after: string)
    requires AllWhite(before) && AllWhite(after)
    requires json != "" && !IsWhite(json[|json| - 1])
    ensures Read(parse, before + ("data: " + json + after))
         == if json == "[DONE]" then Skip
            else match parse(json)
                 case Some(v) => Data(v)
                 case None => Malformed(if |json| <= 200 then json else json[..200])
  {
    var core := PREFIX + json;
    TrimStartSkips(before, core + after);
    assert (core + after)[0] == 'd';
    TrimEndSkips(core, after);
    assert core[|core| - 1] == json[|json| - 1];
    assert core[|PREFIX|..] == json;
  }

  /** The 25 characters of Unicode `White_Space`. */
  lemma WhiteSpaceIs(c: char)
    ensures IsWhite(c) <==> c in {
      '\U{0009}', '\U{000A}', '\U{000B}', '\U{000C}', '\U{000D}', ' ', '\U{0085}', '\U{00A0}', '\U{1680}',
      '\U{2000}', '\U{2001}', '\U{2002}', '\U{2003}', '\U{2004}', '\U{2005}', '\U{2006}', '\U{2007}', '\U{2008}',
      '\U{2009}', '\U{200A}', '\U{2028}', '\U{2029}', '\U{202F}', '\U{205F}', '\U{3000}'}
  {
    var n := c as int;
    assert c == n as char;
  }

  lemma {:induction false} TrimStartParts(s: string) returns (pad: string)
    ensures s == pad + TrimStart(s) && AllWhite(pad)
    ensures TrimStart(s) != "" ==> !IsWhite(TrimStart(s)[0])
  {
    pad := "";
    if s != "" && IsWhite(s[0]) {
      var rest := TrimStartParts(s[1..]);
      pad := [s[0]] + rest;
    }
  }

  lemma {:induction false} TrimEndParts(s: string) returns (pad: string)
    ensures s == TrimEnd(s) + pad && AllWhite(pad)
    ensures TrimEnd(s) != "" ==> !IsWhite(TrimEnd(s)[|TrimEnd(s)| - 1])
  {
    pad := "";
    if s != "" && IsWhite(s[|s| - 1]) {
      var rest := TrimEndParts(s[..|s| - 1]);
      pad := rest + [s[|s| - 1]];
    }
  }

  /** The line is white space, the six characters `data: `, this payload up to its last character
      that is not white space, and white space. */
  ghost predicate IsDataLine(line: string, json: string) {
    && json != "" && !IsWhite(json[|json| - 1])
    && exists before, after :: line == before + ("data: " + json + after) && AllWhite(before) && AllWhite(after)
  }

  lemma DataLineReads<J>(parse: string -> Option<J>, line: string, json: string)
    requires IsDataLine(line, json)
    ensures json == "[DONE]" ==> Read(parse, line) == Skip
    ensures json != "[DONE]" && parse(json).Some? ==> Read(parse, line) == Data(parse(json).value)
    ensures json != "[DONE]" && parse(json).None? ==> Read(parse, line) == Malformed(if |json| <= 200 then json else json[..200])
  {
    var before, after :| line == before + ("data: " + json + after) && AllWhite(before) && AllWhite(after);
    ReadIgnoresPadding(parse, before, json, after);
  }

  lemma TrimmedParts(line: string) returns (before: string, after: string)
    ensures var trimmed := TrimEnd(TrimStart(line));
      && line == before + (trimmed + after) && AllWhite(before) && AllWhite(after)
      && (trimmed != "" ==> !IsWhite(trimmed[|trimmed| - 1]))
  {
    before := TrimStartParts(line);
    after := TrimEndParts(TrimStart(line));
  }

  lemma ReadDataLine<J>(parse: string -> Option<J>, line: string) returns (json: string)
    requires Read(parse, line) != Skip
    ensures IsDataLine(line, json) && json != "[DONE]"
  {
    var before, after := TrimmedParts(line);
    var trimmed := TrimEnd(TrimStart(line));
    json := trimmed[6..];
    assert trimmed == "data: " + json;
    assert IsWhite(' ');
    assert line == before + ("data: " + json + after);
  }

  /** A line is a data value or malformed exactly if it is a data line whose payload is not the
      terminator; every other line is skipped. */
  lemma ReadIff<J>(parse: string -> Option<J>, line: string)
    ensures Read(parse, line) != Skip <==> exists json :: IsDataLine(line, json) && json != "[DONE]"
  {
    if Read(parse, line) != Skip { var json := ReadDataLine(parse, line); }
    if json :| IsDataLine(line, json) && json != "[DONE]" { DataLineReads(parse, line, json); }
  }

  /** Lines as a stream carries them, with either line ending: the value, the malformed event or
      the terminator, for payloads that end in a visible ASCII character. */
  lemma LineEndings<J>(parse: string -> Option<J>, json: string, ending: string)
    requires json != "" && '!' <= json[|json| - 1] <= '~' && (ending == "\n" || ending == "\r\n")
    ensures Read(parse, "data: " + json + ending)
         == if json == "[DONE]" then Skip
            else match parse(json)
                 case Some(v) => Data(v)
                 case None => Malformed(if |json| <= 200 then json else json[..200])
  {
    assert IsWhite('\n') && IsWhite('\r');
    ReadIgnoresPadding(parse, "", json, ending);
    assert "" + ("data: " + json + ending) == "data: " + json + ending;
  }

  /** The line reader for a JSON parser; what follows holds for any reader. */
  function Reader<J>(parse: string -> Option<J>): string -> Line<J> {
    (line: string) => Read(parse, line)
  }

  /** Position of the first newline. */
  function Find(s: string): (r: Option<nat>)
    ensures r.Some? ==> r.value < |s|
  {
    if s == "" then None
    else if s[0] == '\n' then Some(0)
    else
      match Find(s[1..])
      case None => None
      case Some(i) => Some(i + 1)
  }

  /** `Find` returns the first newline, and misses none. */
  lemma {:induction false} FindIsFirst(s: string)
    ensures Find(s).Some? ==> s[Find(s).value] == '\n' && '\n' !in s[..Find(s).value]
    ensures Find(s).None? <==> '\n' !in s
  {
    if s != "" {
      FindIsFirst(s[1..]);
      assert s == [s[0]] + s[1..];
      if Find(s).Some? && s[0] != '\n' {
        assert s[..Find(s).value] == [s[0]] + s[1..][..Find(s[1..]).value];
      }
    }
  }

  /** The complete lines of a text, each with its newline. */
  function Lines(text: string): seq<string> {
    if text == "" then []
    else
      var n := |text| - 1;
      if text[n] == '\n' then Lines(text[..n]) + [Tail(text[..n]) + "\n"] else Lines(text[..n])
  }

  /** What follows the last newline. */
  function Tail(text: string): string {
    if text == "" then ""
    else
      var n := |text| - 1;
      if text[n] == '\n' then "" else Tail(text[..n]) + [text[n]]
  }

  function Concat(chunks: seq<string>): string {
    if chunks == [] then "" else chunks[0] + Concat(chunks[1..])
  }

  // ---------------------------------------------------------------------------
  // Feeding
  // ---------------------------------------------------------------------------

  datatype Outcome<J> = Ok(values: seq<J>) | TooManyMalformedLines(count: nat, preview: string)

  /** What handling some lines gives, which of them are left, and the failure counter. */
  datatype Handled<J> = Handled(outcome: Outcome<J>, rest: seq<string>, failures: nat)

  /** The failure counter after a line, what the line yields, and whether it stops the parser. */
  function Next<J>(line: Line<J>, failures: nat): nat {
    match line
    case Skip => failures
    case Data(_) => 0
    case Malformed(_) => failures + 1
  }

  function Yield<J>(line: Line<J>): seq<J> {
    if line.Data? then [line.value] else []
  }

  predicate Stops<J>(line: Line<J>, max: nat, failures: nat) {
    line.Malformed? && failures + 1 >= max
  }

  function Prepend<J>(values: seq<J>, r: Handled<J>): Handled<J> {
    if r.outcome.Ok? then r.(outcome := Ok(values + r.outcome.values)) else r
  }

  /** Handles complete lines in order, stopping at the threshold. */
  function Handle<J>(read: string -> Line<J>, max: nat, lines: seq<string>, failures: nat): Handled<J>
    decreases |lines|
  {
    if lines == [] then Handled(Ok([]), [], failures)
    else
      var line := read(lines[0]);
      if Stops(line, max, failures) then
        Handled(TooManyMalformedLines(failures + 1, line.preview), lines[1..], failures + 1)
      else Prepend(Yield(line), Handle(read, max, lines[1..], Next(line, failures)))
  }

  /** The result of a feed and the parser state it leaves. */
  datatype Fed<J> = Fed(outcome: Outcome<J>, buffer: string, failures: nat)

  /** Feeding text to a parser: every complete line of buffer and text is handled. */
  function FeedText<J>(read: string -> Line<J>, max: nat, buffer: string, failures: nat, text: string): Fed<J> {
    var h := Handle(read, max, Lines(buffer + text), failures);
    Fed(h.outcome, Concat(h.rest) + Tail(buffer + text), h.failures)
  }

  /** The same, one newline at a time, with the values already collected: the shape of the feed loop. */
  function Drain<J>(read: string -> Line<J>, max: nat, buffer: string, failures: nat, values: seq<J>): Fed<J>
    decreases |buffer|
  {
    match Find(buffer)
    case None => Fed(Ok(values), buffer, failures)
    case Some(p) =>
      var line, rest := read(buffer[..p + 1]), buffer[p + 1..];
      if Stops(line, max, failures) then
        Fed(TooManyMalformedLines(failures + 1, line.preview), rest, failures + 1)
      else Drain(read, max, rest, Next(line, failures), values + Yield(line))
  }

  /** One round of the loop. */
  lemma DrainOnce<J>(read: string -> Line<J>, max: nat, buffer: string, failures: nat, values: seq<J>)
    requires Find(buffer).Some?
    ensures var line, rest := read(buffer[..Find(buffer).value + 1]), buffer[Find(buffer).value + 1..];
      Drain(read, max, buffer, failures, values)
      == if Stops(line, max, failures) then Fed(TooManyMalformedLines(failures + 1, line.preview), rest, failures + 1)
         else Drain(read, max, rest, Next(line, failures), values + Yield(line))
  {
  }

  class SseParser<J> {
    const read: string -> Line<J>
    const maxConsecutiveFailures: nat
    var buffer: string
    var consecutiveFailures: nat

    constructor WithThreshold(parse: string -> Option<J>, maxConsecutiveFailures: nat)
      ensures read == Reader(parse) && this.maxConsecutiveFailures == maxConsecutiveFailures
      ensures buffer == "" && consecutiveFailures == 0
    {
      read, this.maxConsecutiveFailures := Reader(parse), maxConsecutiveFailures;
      buffer, consecutiveFailures := "", 0;
    }

    /** Decodes a chunk on its own, ingests the text and returns the values of the lines it completes. */
    method Feed(bytes: seq<Utf8.Byte>) returns (r: Outcome<J>)
      modifies this
      ensures Fed(r, buffer, consecutiveFailures)
           == FeedText(read, maxConsecutiveFailures, old(buffer), old(consecutiveFailures), Utf8.Decode(bytes))
    {
      var text := Utf8.Decode(bytes);
      DrainIsFeed(read, maxConsecutiveFailures, buffer, consecutiveFailures, text);
      buffer := buffer + text;
      r := DrainLines();
    }

    /** The loop of `feed`: takes complete lines off the buffer. */
    method DrainLines() returns (r: Outcome<J>)
      modifies this
      ensures Fed(r, buffer, consecutiveFailures)
           == Drain(read, maxConsecutiveFailures, old(buffer), old(consecutiveFailures), [])
    {
      var values: seq<J> := [];
      var pos := Find(buffer);
      ghost var result := Drain(read, maxConsecutiveFailures, buffer, consecutiveFailures, values);
      while pos.Some?
        invariant pos == Find(buffer)
        invariant result == Drain(read, maxConsecutiveFailures, buffer, consecutiveFailures, values)
        decreases |buffer|
      {
        DrainOnce(read, maxConsecutiveFailures, buffer, consecutiveFailures, values);
        var line := read(buffer[..pos.value + 1]);
        buffer := buffer[pos.value + 1..];
        var stopped := HandleLine(line);
        if stopped {
          return TooManyMalformedLines(consecutiveFailures, line.preview);
        }
        values := values + Yield(line);
        pos := Find(buffer);
      }
      r := Ok(values);
    }

    /** One line of the loop: a value resets the counter, a malformed line raises it and may stop the parser. */
    method HandleLine(line: Line<J>) returns (stopped: bool)
      modifies this`consecutiveFailures
      ensures stopped == Stops(line, maxConsecutiveFailures, old(consecutiveFailures))
      ensures consecutiveFailures == Next(line, old(consecutiveFailures))
    {
      stopped := false;
      match line {
        case Skip =>
        case Data(_) => consecutiveFailures := 0;
        case Malformed(_) =>
          consecutiveFailures := consecutiveFailures + 1;
          stopped := consecutiveFailures >= maxConsecutiveFailures;
      }
    }

    method RemainingBuffer() returns (rest: string)
      ensures rest == buffer
    {
      rest := buffer;
    }
  }

  lemma {:induction false} OneLine(text: string)
    requires '\n' !in text
    ensures Lines(text) == [] && Tail(text) == text
  {
    if text != "" {
      assert text == text[..|text| - 1] + [text[|text| - 1]];
      OneLine(text[..|text| - 1]);
    }
  }

  lemma {:induction false} TailAppend(a: string, b: string)
    ensures Tail(a + b) == Tail(Tail(a) + b)
  {
    if b == "" {
      assert a + b == a && Tail(a) + b == Tail(a);
      TailHasNoNewline(a);
      OneLine(Tail(a));
    } else {
      var n := |b| - 1;
      TailAppend(a, b[..n]);
      assert (a + b)[..|a| + n] == a + b[..n];
      assert (Tail(a) + b)[..|Tail(a)| + n] == Tail(a) + b[..n];
    }
  }

  lemma LinesSnoc(text: string, c: char)
    ensures Lines(text + [c]) == Lines(text) + if c == '\n' then [Tail(text) + "\n"] else []
  {
    assert (text + [c])[..|text|] == text;
  }

  lemma LinesStep(before: seq<string>, front: string, back: string, c: char)
    requires Lines(front) == before + Lines(back) && Tail(front) == Tail(back)
    ensures Lines(front + [c]) == before + Lines(back + [c])
  {
    LinesSnoc(front, c);
    LinesSnoc(back, c);
    var last := if c == '\n' then [Tail(front) + "\n"] else [];
    assert (before + Lines(back)) + last == before + (Lines(back) + last);
  }

  /** The lines of a longer text are those of its front, then those of the front's tail with the rest. */
  lemma {:induction false} LinesAppend(a: string, b: string)
    ensures Lines(a + b) == Lines(a) + Lines(Tail(a) + b)
  {
    if b == "" {
      assert a + b == a && Tail(a) + b == Tail(a);
      TailHasNoNewline(a);
      OneLine(Tail(a));
    } else {
      var n := |b| - 1;
      var front, back := a + b[..n], Tail(a) + b[..n];
      LinesAppend(a, b[..n]);
      TailAppend(a, b[..n]);
      assert a + b == front + [b[n]] && Tail(a) + b == back + [b[n]];
      LinesStep(Lines(a), front, back, b[n]);
    }
  }

  lemma {:induction false} TailHasNoNewline(text: string)
    ensures '\n' !in Tail(text)
  {
    if text != "" { TailHasNoNewline(text[..|text| - 1]); }
  }

  lemma FullLine(body: string)
    requires '\n' !in body
    ensures Lines(body + "\n") == [body + "\n"] && Tail(body + "\n") == ""
  {
    OneLine(body);
    LinesSnoc(body, '\n');
  }

  lemma LinesAfterLine(body: string, rest: string)
    requires '\n' !in body
    ensures Lines(body + "\n" + rest) == [body + "\n"] + Lines(rest)
    ensures Tail(body + "\n" + rest) == Tail(rest)
  {
    FullLine(body);
    LinesAppend(body + "\n", rest);
    TailAppend(body + "\n", rest);
    assert "" + rest == rest;
  }

  /** Cutting at the first newline takes off the first line. */
  lemma LinesCons(text: string)
    requires Find(text).Some?
    ensures var p := Find(text).value;
      && Lines(text) == [text[..p + 1]] + Lines(text[p + 1..])
      && Tail(text) == Tail(text[p + 1..])
  {
    var p := Find(text).value;
    FindIsFirst(text);
    CutAtNewline(text, p);
    LinesAfterLine(text[..p], text[p + 1..]);
  }

  lemma CutAtNewline(text: string, p: nat)
    requires p < |text| && text[p] == '\n'
    ensures text[..p + 1] == text[..p] + "\n" && text == text[..p] + "\n" + text[p + 1..]
  {
  }

  lemma {:induction false} LinesRejoin(text: string)
    ensures Concat(Lines(text)) + Tail(text) == text
  {
    if text != "" {
      var n := |text| - 1;
      LinesRejoin(text[..n]);
      var front, tail := Concat(Lines(text[..n])), Tail(text[..n]);
      if text[n] == '\n' {
        ConcatAppend(Lines(text[..n]), [tail + "\n"]);
        assert Concat([tail + "\n"]) == tail + "\n" + "";
        assert front + (tail + "\n") == (front + tail) + "\n" == text;
      } else {
        assert front + (tail + [text[n]]) == (front + tail) + [text[n]] == text;
      }
    }
  }

  /** Taking lines off at their newlines is handling the lines of the whole buffer. */
  lemma {:induction false} DrainIsHandle<J>(read: string -> Line<J>, max: nat, buffer: string, failures: nat, values: seq<J>)
    ensures var h := Prepend(values, Handle(read, max, Lines(buffer), failures));
      Drain(read, max, buffer, failures, values) == Fed(h.outcome, Concat(h.rest) + Tail(buffer), h.failures)
    decreases |buffer|
  {
    match Find(buffer)
    case None =>
      FindIsFirst(buffer);
      OneLine(buffer);
      assert values + [] == values && "" + buffer == buffer;
    case Some(p) =>
      var line, rest := read(buffer[..p + 1]), buffer[p + 1..];
      LinesCons(buffer);
      HandleCons(read, max, buffer[..p + 1], Lines(rest), failures);
      if Stops(line, max, failures) {
        LinesRejoin(rest);
      } else {
        DrainIsHandle(read, max, rest, Next(line, failures), values + Yield(line));
        PrependTwice(values, Yield(line), Handle(read, max, Lines(rest), Next(line, failures)));
      }
  }

  lemma DrainIsFeed<J>(read: string -> Line<J>, max: nat, buffer: string, failures: nat, text: string)
    ensures Drain(read, max, buffer + text, failures, []) == FeedText(read, max, buffer, failures, text)
  {
    DrainIsHandle(read, max, buffer + text, failures, []);
    PrependNothing(Handle(read, max, Lines(buffer + text), failures));
  }

  lemma PrependTwice<J>(a: seq<J>, b: seq<J>, r: Handled<J>)
    ensures Prepend(a, Prepend(b, r)) == Prepend(a + b, r)
  {
    if r.outcome.Ok? { assert a + (b + r.outcome.values) == (a + b) + r.outcome.values; }
  }

  lemma PrependNothing<J>(r: Handled<J>)
    ensures Prepend([], r) == r
  {
    if r.outcome.Ok? { assert [] + r.outcome.values == r.outcome.values; }
  }

  // ---------------------------------------------------------------------------
  // Split invariance
  // ---------------------------------------------------------------------------

  /** Feeds the chunks in order, collecting the values, until one feed fails. */
  function FeedAll<J>(read: string -> Line<J>, max: nat, buffer: string, failures: nat, chunks: seq<string>): Fed<J>
    decreases |chunks|
  {
    if chunks == [] then Fed(Ok([]), buffer, failures)
    else
      var r := FeedText(read, max, buffer, failures, chunks[0]);
      match r.outcome
      case TooManyMalformedLines(_, _) => r
      case Ok(values) =>
        var later := FeedAll(read, max, r.buffer, r.failures, chunks[1..]);
        if later.outcome.Ok? then later.(outcome := Ok(values + later.outcome.values)) else later
  }

  lemma HandleCons<J>(read: string -> Line<J>, max: nat, line: string, lines: seq<string>, failures: nat)
    ensures Handle(read, max, [line] + lines, failures)
         == if Stops(read(line), max, failures)
            then Handled(TooManyMalformedLines(failures + 1, read(line).preview), lines, failures + 1)
            else Prepend(Yield(read(line)), Handle(read, max, lines, Next(read(line), failures)))
  {
    assert ([line] + lines)[1..] == lines;
  }

  /** Handling two runs of lines is handling the first and, if it did not fail, then the second. */
  lemma {:induction false} HandleAppend<J>(read: string -> Line<J>, max: nat, a: seq<string>, b: seq<string>, failures: nat)
    ensures var front := Handle(read, max, a, failures);
      match front.outcome
      case Ok(values) =>
        front.rest == [] && Handle(read, max, a + b, failures) == Prepend(values, Handle(read, max, b, front.failures))
      case TooManyMalformedLines(_, _) =>
        Handle(read, max, a + b, failures) == front.(rest := front.rest + b)
    decreases |a|
  {
    if a == [] {
      assert a + b == b;
      PrependNothing(Handle(read, max, b, failures));
    } else {
      var line, next := read(a[0]), Next(read(a[0]), failures);
      assert a + b == [a[0]] + (a[1..] + b);
      HandleCons(read, max, a[0], a[1..] + b, failures);
      HandleAppend(read, max, a[1..], b, next);
      var front := Handle(read, max, a[1..], next);
      if !Stops(line, max, failures) && front.outcome.Ok? {
        PrependTwice(Yield(line), front.outcome.values, Handle(read, max, b, front.failures));
      }
    }
  }

  lemma Reassociate(a: string, b: string, c: string)
    ensures a + (b + c) == (a + b) + c
  {
  }

  lemma {:induction false} ConcatAppend(a: seq<string>, b: seq<string>)
    ensures Concat(a + b) == Concat(a) + Concat(b)
  {
    if a == [] {
      assert a + b == b;
    } else {
      ConcatAppend(a[1..], b);
      assert (a + b)[1..] == a[1..] + b;
      Reassociate(a[0], Concat(a[1..]), Concat(b));
    }
  }

  /** One feed of two pieces against two feeds. */
  lemma FeedTwice<J>(read: string -> Line<J>, max: nat, buffer: string, failures: nat, a: string, b: string)
    ensures var first := FeedText(read, max, buffer, failures, a);
      var whole := FeedText(read, max, buffer, failures, a + b);
      match first.outcome
      case TooManyMalformedLines(_, _) => whole.outcome == first.outcome && whole.failures == first.failures
      case Ok(values) =>
        var second := FeedText(read, max, first.buffer, first.failures, b);
        && first.buffer == Tail(buffer + a)
        && whole.failures == second.failures && whole.buffer == second.buffer
        && whole.outcome == if second.outcome.Ok? then Ok(values + second.outcome.values) else second.outcome
  {
    var text := buffer + a;
    assert buffer + (a + b) == text + b;
    LinesAppend(text, b);
    TailAppend(text, b);
    HandleAppend(read, max, Lines(text), Lines(Tail(text) + b), failures);
    var front := Handle(read, max, Lines(text), failures);
    if front.outcome.Ok? {
      assert FeedText(read, max, buffer, failures, a) == Fed(front.outcome, Tail(text), front.failures) by {
        assert "" + Tail(text) == Tail(text);
      }
    }
  }

  /** However a text is cut into chunks, feeding them gives the same outcome (the same
      values, or the same error with the same count) and the same failure counter as
      feeding the whole; without an error the leftover buffer is the same too. */
  lemma {:induction false} SplitInvariance<J>(read: string -> Line<J>, max: nat, buffer: string, failures: nat, chunks: seq<string>)
    requires chunks != []
    ensures var parts := FeedAll(read, max, buffer, failures, chunks);
      var whole := FeedText(read, max, buffer, failures, Concat(chunks));
      && parts.outcome == whole.outcome
      && parts.failures == whole.failures
      && (whole.outcome.Ok? ==> parts.buffer == whole.buffer)
    decreases |chunks|
  {
    var first := FeedText(read, max, buffer, failures, chunks[0]);
    FeedTwice(read, max, buffer, failures, chunks[0], Concat(chunks[1..]));
    if first.outcome.Ok? {
      if |chunks| == 1 {
        LastFeed(read, max, buffer, failures, chunks[0]);
      } else {
        SplitInvariance(read, max, first.buffer, first.failures, chunks[1..]);
      }
    }
  }

  lemma LastFeed<J>(read: string -> Line<J>, max: nat, buffer: string, failures: nat, text: string)
    ensures var r := FeedText(read, max, buffer, failures, text);
      r.outcome.Ok? ==> FeedText(read, max, r.buffer, r.failures, "") == Fed(Ok([]), r.buffer, r.failures)
  {
    HandleAppend(read, max, Lines(buffer + text), [], failures);
    TailHasNoNewline(buffer + text);
    var tail := Tail(buffer + text);
    OneLine(tail);
    assert "" + tail == tail + "" == tail;
  }

  // ---------------------------------------------------------------------------
  // The failure threshold
  // ---------------------------------------------------------------------------

  /** Malformed lines since the last valid one, `before` counting those of earlier feeds. */
  function MalformedRun<J>(read: string -> Line<J>, before: nat, lines: seq<string>): nat {
    if lines == [] then before
    else
      var n := |lines| - 1;
      match read(lines[n])
      case Skip => MalformedRun(read, before, lines[..n])
      case Data(_) => 0
      case Malformed(_) => MalformedRun(read, before, lines[..n]) + 1
  }

  function Values<J>(read: string -> Line<J>, lines: seq<string>): seq<J> {
    if lines == [] then []
    else
      match read(lines[0])
      case Data(v) => [v] + Values(read, lines[1..])
      case _ => Values(read, lines[1..])
  }

  lemma {:induction false} RunCons<J>(read: string -> Line<J>, before: nat, line: string, lines: seq<string>)
    ensures MalformedRun(read, before, [line] + lines)
         == MalformedRun(read, MalformedRun(read, before, [line]), lines)
  {
    if lines == [] {
      assert [line] + lines == [line];
    } else {
      var n := |lines| - 1;
      RunCons(read, before, line, lines[..n]);
      assert ([line] + lines)[..n + 1] == [line] + lines[..n];
    }
  }

  lemma RunOne<J>(read: string -> Line<J>, before: nat, line: string)
    ensures MalformedRun(read, before, [line]) == Next(read(line), before)
  {
    assert [line][..0] == [];
  }

  function Threshold(max: nat): nat {
    if max == 0 then 1 else max
  }

  /** The threshold is reached for the first time by the `n`-th line. */
  ghost predicate FirstReach<J>(read: string -> Line<J>, max: nat, before: nat, lines: seq<string>, n: nat) {
    && 0 < n <= |lines|
    && MalformedRun(read, before, lines[..n]) == Threshold(max)
    && forall m :: 0 <= m < n ==> MalformedRun(read, before, lines[..m]) < Threshold(max)
  }

  ghost predicate NeverReach<J>(read: string -> Line<J>, max: nat, before: nat, lines: seq<string>) {
    forall m :: 0 <= m <= |lines| ==> MalformedRun(read, before, lines[..m]) < Threshold(max)
  }

  /** What handling lines does, said without the handler's own recursion. */
  ghost predicate Meets<J>(read: string -> Line<J>, max: nat, lines: seq<string>, before: nat, r: Handled<J>) {
    match r.outcome
    case Ok(values) =>
      && NeverReach(read, max, before, lines)
      && values == Values(read, lines)
      && r.rest == []
      && r.failures == MalformedRun(read, before, lines)
    case TooManyMalformedLines(count, _) =>
      && count == r.failures == Threshold(max)
      && exists n: nat :: FirstReach(read, max, before, lines, n) && r.rest == lines[n..]
  }

  lemma ReachShift<J>(read: string -> Line<J>, max: nat, before: nat, line: string, lines: seq<string>)
    requires before < Threshold(max)
    ensures var next := MalformedRun(read, before, [line]);
      && (NeverReach(read, max, before, [line] + lines) <==> next < Threshold(max) && NeverReach(read, max, next, lines))
      && forall n: nat :: next < Threshold(max) && FirstReach(read, max, next, lines, n)
           ==> FirstReach(read, max, before, [line] + lines, n + 1)
  {
    var all := [line] + lines;
    var next := MalformedRun(read, before, [line]);
    assert all[..0] == [] && lines[..0] == [];
    forall m | 0 <= m <= |lines|
      ensures MalformedRun(read, before, all[..m + 1]) == MalformedRun(read, next, lines[..m])
    {
      assert all[..m + 1] == [line] + lines[..m];
      RunCons(read, before, line, lines[..m]);
    }
    forall n: nat | next < Threshold(max) && FirstReach(read, max, next, lines, n)
      ensures FirstReach(read, max, before, all, n + 1)
    {
      forall m | 0 <= m < n + 1 ensures MalformedRun(read, before, all[..m]) < Threshold(max) {
        if m > 0 { assert MalformedRun(read, next, lines[..m - 1]) < Threshold(max); }
      }
    }
    if NeverReach(read, max, before, all) {
      forall m | 0 <= m <= |lines| ensures MalformedRun(read, next, lines[..m]) < Threshold(max) {
        assert MalformedRun(read, before, all[..m + 1]) < Threshold(max);
      }
      assert MalformedRun(read, next, lines[..0]) < Threshold(max);
    }
    if next < Threshold(max) && NeverReach(read, max, next, lines) {
      forall m | 0 <= m <= |all| ensures MalformedRun(read, before, all[..m]) < Threshold(max) {
        if m > 0 { assert MalformedRun(read, next, lines[..m - 1]) < Threshold(max); }
      }
    }
  }

  lemma ValuesCons<J>(read: string -> Line<J>, line: string, lines: seq<string>)
    ensures Values(read, [line] + lines) == Yield(read(line)) + Values(read, lines)
  {
    assert ([line] + lines)[1..] == lines;
  }

  lemma {:induction false} HandleMeets<J>(read: string -> Line<J>, max: nat, lines: seq<string>, before: nat)
    requires before < Threshold(max)
    ensures Meets(read, max, lines, before, Handle(read, max, lines, before))
    decreases |lines|
  {
    if lines == [] {
      assert lines[..0] == [];
    } else {
      var line, rest := lines[0], lines[1..];
      assert lines == [line] + rest;
      RunOne(read, before, line);
      RunCons(read, before, line, rest);
      ReachShift(read, max, before, line, rest);
      ValuesCons(read, line, rest);
      if Stops(read(line), max, before) {
        assert lines[..1] == [line] && lines[..0] == [];
        assert FirstReach(read, max, before, lines, 1);
      } else {
        var next := Next(read(line), before);
        HandleMeets(read, max, rest, next);
        if !Handle(read, max, rest, next).outcome.Ok? {
          var n: nat :| FirstReach(read, max, next, rest, n) && Handle(read, max, rest, next).rest == rest[n..];
          assert FirstReach(read, max, before, lines, n + 1) && rest[n..] == lines[n + 1..];
        }
      }
    }
  }

  /** Across any number of feeds of a fresh parser: it aborts exactly when the run of
      malformed data lines first reaches `max(1, threshold)`; otherwise values, leftover
      buffer and counter are those of the text's complete lines. */
  lemma FeedsMeetThreshold<J>(read: string -> Line<J>, max: nat, chunks: seq<string>)
    requires chunks != []
    ensures var r := FeedAll(read, max, "", 0, chunks);
      var lines := Lines(Concat(chunks));
      && (r.outcome.Ok? <==> NeverReach(read, max, 0, lines))
      && (r.outcome.Ok? ==>
            && r.outcome.values == Values(read, lines)
            && r.buffer == Tail(Concat(chunks)) && '\n' !in r.buffer
            && r.failures == MalformedRun(read, 0, lines))
      && (!r.outcome.Ok? ==> r.outcome.count == r.failures == Threshold(max)
                             && exists n: nat :: FirstReach(read, max, 0, lines, n))
  {
    SplitInvariance(read, max, "", 0, chunks);
    var text := Concat(chunks);
    var lines := Lines(text);
    assert "" + text == text && "" + Tail(text) == Tail(text);
    HandleMeets(read, max, lines, 0);
    TailHasNoNewline(text);
    if n: nat :| FirstReach(read, max, 0, lines, n) {
      assert !(MalformedRun(read, 0, lines[..n]) < Threshold(max));
    }
  }

  lemma HandleOne<J>(read: string -> Line<J>, max: nat, line: string, failures: nat)
    ensures Handle(read, max, [line], failures)
         == match read(line)
            case Skip => Handled(Ok([]), [], failures)
            case Data(v) => Handled(Ok([v]), [], 0)
            case Malformed(preview) =>
              if failures + 1 >= max then Handled(TooManyMalformedLines(failures + 1, preview), [], failures + 1)
              else Handled(Ok([]), [], failures + 1)
  {
    HandleCons(read, max, line, [], failures);
    assert [line] + [] == [line];
    PrependNothing(Handle(read, max, [], Next(read(line), failures)));
    if read(line).Data? { assert [read(line).value] + [] == [read(line).value]; }
  }

  lemma FeedLine<J>(read: string -> Line<J>, max: nat, failures: nat, body: string)
    requires '\n' !in body
    ensures FeedText(read, max, "", failures, body + "\n")
         == match read(body + "\n")
            case Skip => Fed(Ok([]), "", failures)
            case Data(v) => Fed(Ok([v]), "", 0)
            case Malformed(preview) =>
              if failures + 1 >= max then Fed(TooManyMalformedLines(failures + 1, preview), "", failures + 1)
              else Fed(Ok([]), "", failures + 1)
  {
    FullLine(body);
    HandleOne(read, max, body + "\n", failures);
    assert "" + (body + "\n") == body + "\n";
  }

  /** One complete data line fed to a parser between lines: a value resets the counter, a malformed
      payload raises it and aborts at the threshold, the terminator does neither. */
  lemma FeedOneLine<J>(parse: string -> Option<J>, max: nat, failures: nat, json: string)
    requires json != "" && '!' <= json[|json| - 1] <= '~' && '\n' !in json
    ensures FeedText(Reader(parse), max, "", failures, "data: " + json + "\n")
         == if json == "[DONE]" then Fed(Ok([]), "", failures)
            else match parse(json)
                 case Some(v) => Fed(Ok([v]), "", 0)
                 case None =>
                   if failures + 1 >= max
                   then Fed(TooManyMalformedLines(failures + 1, if |json| <= 200 then json else json[..200]), "", failures + 1)
                   else Fed(Ok([]), "", failures + 1)
  {
    LineEndings(parse, json, "\n");
    FeedLine(Reader(parse), max, failures, "data: " + json);
  }
}
