/**
 Server-sent events, both ways: the parser that reads a provider's stream, and the handler
 loop that prints chunks for the client.
 */
module Sse {
  import opened Results
  import opened SseEvents
  import opened SseText
  import Text

  /** JSON decoding of a chunk, which may fail. */
  type Json = string -> Option<Chunk>

  /** The value of a `data` field, without one leading space. */
  function DataField(line: string): Option<string> {
    var colon := Text.IndexOf(line, ':');
    if colon == |line| || line[..colon] != "data" then None
    else
      var value := line[colon + 1..];
      Some(if value != "" && value[0] == ' ' then value[1..] else value)
  }

  function Join(parts: seq<string>): string {
    if parts == [] then "" else if |parts| == 1 then parts[0] else parts[0] + "\n" + Join(parts[1..])
  }

  /** A text cut at its newlines. */
  ghost function Cut(text: string): seq<string>
    decreases |text|
  {
    var i := Text.IndexOf(text, '\n');
    if i == |text| then [text] else [text[..i]] + Cut(text[i + 1..])
  }

  lemma {:induction false} NoNewline(text: string)
    requires '\n' !in text
    ensures Text.IndexOf(text, '\n') == |text|
  {
    if text != "" {
      NoNewline(text[1..]);
    }
  }

  lemma {:induction false} CutFirst(part: string, rest: string)
    requires '\n' !in part
    ensures Cut(part + ['\n'] + rest) == [part] + Cut(rest)
  {
    var text := part + ['\n'] + rest;
    Text.IndexAfter(part, '\n', rest);
    assert text[..|part|] == part && text[|part| + 1..] == rest;
  }

  lemma {:induction false} JoinFirst(parts: seq<string>)
    requires 1 < |parts|
    ensures Join(parts) == parts[0] + ['\n'] + Join(parts[1..])
  {
    assert "\n" == ['\n'];
  }

  /** Data lines are joined with a newline between each two: cutting the text there gives them back. */
  lemma {:induction false} JoinedLinesComeApart(parts: seq<string>)
    requires parts != [] && forall k :: 0 <= k < |parts| ==> '\n' !in parts[k]
    ensures Cut(Join(parts)) == parts
  {
    if |parts| == 1 {
      NoNewline(parts[0]);
      assert parts == [parts[0]];
    } else {
      JoinFirst(parts);
      CutFirst(parts[0], Join(parts[1..]));
      JoinedLinesComeApart(parts[1..]);
      assert parts == [parts[0]] + parts[1..];
    }
  }

  function Decode(parse: Json, data: seq<string>): Received {
    var text := Join(data);
    if Text.TrimSpace(text) == "[DONE]" then Eof
    else match parse(text)
      case None => Bad(Undecodable)
      case Some(chunk) =>
        if chunk.id == "" || chunk.object_ != "chat.completion.chunk" then Bad(Incomplete) else Got(chunk)
  }

  function SseReader(parse: Json): Reader {
    Reader(DataField, data => Decode(parse, data))
  }

  class SseStream {
    const reader: Reader
    var input: string
    var done: bool
    var closed: bool
    var bodyCloses: nat

    ghost predicate Valid()
      reads this
    {
      && bodyCloses == (if closed then 1 else 0)
      && (forall line: string :: line != "" && line[0] == ':' ==> reader.field(line).None?)
    }

    ghost function Contents(): View
      reads this
    {
      View(Lines(input), done)
    }

    constructor (parse: Json, body: string)
      ensures Valid() && reader == SseReader(parse) && Contents() == View(Lines(body), false)
    {
      reader, input, done, closed, bodyCloses := SseReader(parse), body, false, false, 0;
    }

    /** Scans one line off the input. */
    method ScanLine() returns (line: string)
      requires input != ""
      modifies `input
      ensures old(Lines(input)) == [line] + Lines(input) && |input| < |old(input)|
    {
      LinesSplit(input);
      line := FirstLine(input);
      input := AfterLine(input);
    }

    /** What one scanned line does to the event being gathered. */
    method Take(line: string, dataLines: seq<string>, eventBytes: nat) returns (progress: Progress)
      requires Valid()
      ensures progress == Digest(reader, line, dataLines, eventBytes)
    {
      var grown := eventBytes + |line| + 1;
      if grown > MAX_EVENT_BYTES {
        return Stop(Bad(TooLarge));
      }
      if line == "" {
        if dataLines == [] {
          return More([], 0);
        }
        return Stop(reader.decode(dataLines));
      }
      if line[0] == ':' {
        return More(dataLines, grown);
      }
      var value := reader.field(line);
      if value.None? {
        return More(dataLines, grown);
      }
      return More(dataLines + [value.value], grown);
    }

    /** One receive: reads lines until an event is complete, the budget is spent, or the input ends. */
    method Receive() returns (r: Received)
      requires Valid()
      modifies `input, `done
      ensures Valid() && (r, Contents()) == Recv(reader, old(Contents()))
    {
      if done {
        return Eof;
      }
      var dataLines: seq<string>, eventBytes: nat := [], 0;
      ghost var target := SseEvents.Receive(reader, Lines(input), [], 0);
      while input != ""
        invariant !done && SseEvents.Receive(reader, Lines(input), dataLines, eventBytes) == target
        decreases |input|
      {
        var line := ScanLine();
        ReceiveLine(reader, line, Lines(input), dataLines, eventBytes);
        var progress := Take(line, dataLines, eventBytes);
        match progress {
          case More(gathered, grown) =>
            dataLines, eventBytes := gathered, grown;
          case Stop(result) =>
            done := result.Eof?;
            return result;
        }
      }
      r := if dataLines != [] then reader.decode(dataLines) else Eof;
      done := r.Eof?;
    }

    /** The body is closed by the first Close only. */
    method Close()
      requires Valid()
      modifies `closed, `bodyCloses
      ensures Valid() && closed
    {
      if !closed {
        closed, bodyCloses := true, bodyCloses + 1;
      }
    }
  }

  // ------------------------------------------------------- the handler loop

  /** What the handler's stream yields: an encoded chunk (and whether writing it worked), the end, or an error. */
  datatype Upstream = Encoded(payload: string, written: bool) | Finished | Broken

  function DataLine(payload: string): string {
    "data: " + payload
  }

  const DONE_EVENT := DataLine("[DONE]") + ['\n', '\n']

  ghost function Payloads(upstream: seq<Upstream>): (r: seq<string>)
    requires forall k :: 0 <= k < |upstream| ==> upstream[k].Encoded?
    ensures |r| == |upstream| && forall k :: 0 <= k < |r| ==> r[k] == upstream[k].payload
  {
    seq(|upstream|, k requires 0 <= k < |upstream| => upstream[k].payload)
  }

  /** The data lines of these payloads. */
  ghost function Framed(payloads: seq<string>): (r: seq<string>)
    ensures |r| == |payloads|
    ensures forall k :: 0 <= k < |r| ==> r[k] == DataLine(payloads[k])
  {
    seq(|payloads|, k requires 0 <= k < |payloads| => DataLine(payloads[k]))
  }

  lemma {:induction false} PrintsNext(upstream: seq<Upstream>, n: nat)
    requires n < |upstream| && forall k :: 0 <= k <= n ==> upstream[k].Encoded?
    ensures Printed(Framed(Payloads(upstream[..n + 1])))
         == Printed(Framed(Payloads(upstream[..n]))) + (DataLine(upstream[n].payload) + ['\n', '\n'])
  {
    PrintedAppend(Framed(Payloads(upstream[..n])), DataLine(upstream[n].payload));
    assert Framed(Payloads(upstream[..n + 1])) == Framed(Payloads(upstream[..n])) + [DataLine(upstream[n].payload)];
  }

  /**
   Forwards chunks until the first thing that is not a chunk written in full.  Without a first
   chunk nothing is printed; the terminator follows only a stream that finished.
   */
  method Forward(upstream: seq<Upstream>) returns (body: string, sent: nat)
    requires exists k :: 0 <= k < |upstream| && !upstream[k].Encoded?
    ensures sent < |upstream|
    ensures forall k :: 0 <= k < sent ==> upstream[k].Encoded? && upstream[k].written
    ensures !(upstream[sent].Encoded? && upstream[sent].written)
    ensures body == Printed(Framed(Payloads(upstream[..sent])))
                 + (if upstream[sent].Finished? && sent > 0 then DONE_EVENT else "")
  {
    body, sent := "", 0;
    ghost var stop :| 0 <= stop < |upstream| && !upstream[stop].Encoded?;
    var next := 0;
    while true
      invariant sent == next <= stop
      invariant forall k :: 0 <= k < next ==> upstream[k].Encoded? && upstream[k].written
      invariant body == Printed(Framed(Payloads(upstream[..next])))
      decreases |upstream| - next
    {
      match upstream[next] {
        case Encoded(payload, written) =>
          if !written {
            return;
          }
          PrintsNext(upstream, next);
          body := body + (DataLine(payload) + ['\n', '\n']);
          next, sent := next + 1, sent + 1;
        case Finished =>
          if next > 0 {
            body := body + DONE_EVENT;
          }
          return;
        case Broken =>
          return;
      }
    }
  }

  // ------------------------------------------------------------ round trip

  lemma {:induction false} DataLineCarries(payload: string)
    ensures DataField(DataLine(payload)) == Some(payload)
    ensures |DataLine(payload)| == |payload| + 6
    ensures Clean(payload) ==> Clean(DataLine(payload))
  {
    var line := DataLine(payload);
    Text.IndexAfter("data", ':', " " + payload);
    assert line == "data" + [':'] + (" " + payload);
    assert line[..4] == "data" && line[5..] == " " + payload;
    assert (" " + payload)[1..] == payload;
  }

  /** A payload the printer can carry: one clean line within the budget, decoding to a chunk. */
  ghost predicate Printable(parse: Json, payload: string) {
    Clean(payload) && |payload| + 8 <= MAX_EVENT_BYTES && Decode(parse, [payload]).Got?
  }

  ghost predicate AllPrintable(parse: Json, payloads: seq<string>) {
    forall k :: 0 <= k < |payloads| ==> Printable(parse, payloads[k])
  }

  /** Each line as an event of its own. */
  ghost function PlainEvents(lines: seq<string>): seq<seq<string>> {
    if lines == [] then [] else [[lines[0]]] + PlainEvents(lines[1..])
  }

  lemma {:induction false} BlankedIsEvents(lines: seq<string>, rest: seq<string>)
    ensures Blanked(lines, rest) == BlocksThen(PlainEvents(lines), rest)
  {
    if lines != [] {
      BlankedIsEvents(lines[1..], rest);
      var events, later := PlainEvents(lines), Blanked(lines[1..], rest);
      assert events[0] == [lines[0]] && events[1..] == PlainEvents(lines[1..]);
      assert [lines[0], ""] + later == [lines[0]] + ([""] + later);
    }
  }

  ghost predicate LineFits(line: string) {
    Clean(line) && line != "" && |line| + 2 <= MAX_EVENT_BYTES
  }

  lemma {:induction false} PlainEventsFit(lines: seq<string>)
    requires forall k :: 0 <= k < |lines| ==> LineFits(lines[k])
    ensures AllFit(PlainEvents(lines))
  {
    if lines != [] {
      assert LineFits(lines[0]) && Bytes([lines[0]]) == |lines[0]| + 1;
      forall k | 0 <= k < |lines[1..]| ensures LineFits(lines[1..][k]) {
        assert lines[1..][k] == lines[k + 1];
      }
      PlainEventsFit(lines[1..]);
    }
  }

  /** Whatever lines are printed as events, the parser reads those events back. */
  lemma {:induction false} PrintedReadsBack(reader: Reader, lines: seq<string>)
    requires forall k :: 0 <= k < |lines| ==> LineFits(lines[k])
    ensures ReadsBack(reader, Lines(Printed(lines) + ""), Expected(reader, PlainEvents(lines), []))
  {
    forall k | 0 <= k < |lines| ensures Clean(lines[k]) {
      assert LineFits(lines[k]);
    }
    PrintedLines(lines, "");
    assert Lines("") == [];
    BlankedIsEvents(lines, []);
    PlainEventsFit(lines);
    EventsReadBack(reader, PlainEvents(lines), []);
  }

  /** The results a consumer should get. */
  ghost function Decoded(parse: Json, payloads: seq<string>): (r: seq<Received>)
    ensures |r| == |payloads|
  {
    if payloads == [] then [] else [Decode(parse, [payloads[0]])] + Decoded(parse, payloads[1..])
  }

  lemma {:induction false} OneDataLine(parse: Json, payload: string)
    ensures DataOf(SseReader(parse), [DataLine(payload)]) == [payload]
  {
    DataLineCarries(payload);
    assert [DataLine(payload)][1..] == [];
  }

  lemma {:induction false} DoneDecodesToEnd(parse: Json)
    ensures Decode(parse, ["[DONE]"]).Eof?
  {
    Text.TrimNothing("[DONE]");
  }

  /** The lines of these payloads, followed by the terminator or by nothing. */
  ghost function Lined(payloads: seq<string>, done: bool): seq<string> {
    Framed(payloads) + (if done then [DataLine("[DONE]")] else [])
  }

  lemma {:induction false} LinedFits(parse: Json, payloads: seq<string>, done: bool)
    requires AllPrintable(parse, payloads)
    ensures forall k :: 0 <= k < |Lined(payloads, done)| ==> LineFits(Lined(payloads, done)[k])
  {
    forall k | 0 <= k < |Lined(payloads, done)| ensures LineFits(Lined(payloads, done)[k]) {
      if k < |payloads| {
        assert Printable(parse, payloads[k]);
        DataLineCarries(payloads[k]);
      } else {
        DataLineCarries("[DONE]");
      }
    }
  }

  lemma {:induction false} LinedResults(parse: Json, payloads: seq<string>, done: bool)
    requires AllPrintable(parse, payloads)
    ensures Expected(SseReader(parse), PlainEvents(Lined(payloads, done)), []) == Decoded(parse, payloads)
  {
    var reader, lines := SseReader(parse), Lined(payloads, done);
    if payloads != [] {
      assert Printable(parse, payloads[0]);
      OneDataLine(parse, payloads[0]);
      assert Framed(payloads)[1..] == Framed(payloads[1..]);
      assert lines[0] == DataLine(payloads[0]) && lines[1..] == Lined(payloads[1..], done);
      assert PlainEvents(lines)[0] == [lines[0]] && PlainEvents(lines)[1..] == PlainEvents(lines[1..]);
      LinedResults(parse, payloads[1..], done);
    } else if done {
      OneDataLine(parse, "[DONE]");
      DoneDecodesToEnd(parse);
      assert lines == [DataLine("[DONE]")];
      assert PlainEvents(lines)[0] == lines;
    } else {
      assert lines == [];
    }
  }

  lemma {:induction false} LinedIsPrinted(payloads: seq<string>)
    ensures Printed(Lined(payloads, true)) + "" == Printed(Framed(payloads)) + DONE_EVENT
    ensures Printed(Lined(payloads, false)) + "" == Printed(Framed(payloads)) + ""
  {
    PrintedAppend(Framed(payloads), DataLine("[DONE]"));
    assert Lined(payloads, false) == Framed(payloads);
  }

  /**
   Round trip: whatever chunks the handler prints, the parser reads back exactly those, in order,
   and then end-of-stream on every later receive.  That holds with the terminator and, because
   the parser takes the end of input for the end of the stream, also without it.
   */
  lemma {:induction false} RoundTrip(parse: Json, payloads: seq<string>)
    requires AllPrintable(parse, payloads)
    ensures ReadsBack(SseReader(parse), Lines(Printed(Framed(payloads)) + DONE_EVENT), Decoded(parse, payloads))
    ensures ReadsBack(SseReader(parse), Lines(Printed(Framed(payloads)) + ""), Decoded(parse, payloads))
  {
    LinedIsPrinted(payloads);
    RoundTripLined(parse, payloads, true);
    RoundTripLined(parse, payloads, false);
  }

  lemma {:induction false} RoundTripLined(parse: Json, payloads: seq<string>, done: bool)
    requires AllPrintable(parse, payloads)
    ensures ReadsBack(SseReader(parse), Lines(Printed(Lined(payloads, done)) + ""), Decoded(parse, payloads))
  {
    LinedFits(parse, payloads, done);
    LinedResults(parse, payloads, done);
    PrintedReadsBack(SseReader(parse), Lined(payloads, done));
  }

  /** Whatever the stream, every chunk a session returns has an identifier and is a completion chunk. */
  lemma {:induction false} ReceivedChunksAreComplete(parse: Json, lines: seq<string>, data: seq<string>, size: nat)
    ensures var r := SseEvents.Receive(SseReader(parse), lines, data, size).0;
      r.Got? ==> r.chunk.id != "" && r.chunk.object_ == "chat.completion.chunk"
    decreases |lines|
  {
    if lines != [] {
      match Digest(SseReader(parse), lines[0], data, size)
      case More(gathered, grown) => ReceivedChunksAreComplete(parse, lines[1..], gathered, grown);
      case Stop(_) =>
    }
  }

  /** The terminator ends the stream in any surrounding white space. */
  lemma {:induction false} PaddedTerminatorEnds(parse: Json, before: string, after: string)
    requires Text.AllSpace(before) && Text.AllSpace(after)
    ensures Decode(parse, [before + "[DONE]" + after]).Eof?
  {
    Text.TrimSurrounded(before, "[DONE]", after);
    Text.TrimNothing("[DONE]");
  }
}
