/** The events of a line stream, for any way of recognising and decoding data lines. */
module SseEvents {
  import opened Results

  datatype Chunk = Chunk(id: string, object_: string, rest: string)

  datatype Fault = TooLarge | Undecodable | Incomplete

  datatype Received = Got(chunk: Chunk) | Eof | Bad(fault: Fault)

  /** `field` gives the data a line carries, if any; `decode` turns an event's data into a result. */
  datatype Reader = Reader(field: string -> Option<string>, decode: seq<string> -> Received)

  const MAX_EVENT_BYTES := 0x10_0000

  /** One line leaves an event unfinished, with the data and bytes gathered so far, or ends the receive. */
  datatype Progress = More(data: seq<string>, size: nat) | Stop(result: Received)

  ghost function Digest(reader: Reader, line: string, data: seq<string>, size: nat): Progress {
    var grown := size + |line| + 1;
    if grown > MAX_EVENT_BYTES then Stop(Bad(TooLarge))
    else if line == "" then
      if data == [] then More([], 0) else Stop(reader.decode(data))
    else match reader.field(line)
      case None => More(data, grown)
      case Some(value) => More(data + [value], grown)
  }

  /** What one receive makes of the remaining lines, having gathered `data` in `size` bytes; and what it leaves. */
  ghost function Receive(reader: Reader, lines: seq<string>, data: seq<string>, size: nat): (Received, seq<string>)
    decreases |lines|
  {
    if lines == [] then (if data != [] then reader.decode(data) else Eof, [])
    else match Digest(reader, lines[0], data, size)
      case More(gathered, grown) => Receive(reader, lines[1..], gathered, grown)
      case Stop(result) => (result, lines[1..])
  }

  lemma {:induction false} ReceiveLine(reader: Reader, line: string, rest: seq<string>, data: seq<string>, size: nat)
    ensures Receive(reader, [line] + rest, data, size)
         == match Digest(reader, line, data, size)
            case More(gathered, grown) => Receive(reader, rest, gathered, grown)
            case Stop(result) => (result, rest)
  {
    var lines := [line] + rest;
    assert lines[0] == line && lines[1..] == rest;
  }

  /** A stream as its consumer knows it: the lines still to come, and whether it has ended. */
  datatype View = View(lines: seq<string>, done: bool)

  ghost function Recv(reader: Reader, v: View): (Received, View) {
    if v.done then (Eof, v)
    else
      var (r, rest) := Receive(reader, v.lines, [], 0);
      (r, View(rest, r.Eof?))
  }

  /** The results of `count` receives in a row. */
  ghost function Session(reader: Reader, v: View, count: nat): seq<Received>
    decreases count
  {
    if count == 0 then []
    else [Recv(reader, v).0] + Session(reader, Recv(reader, v).1, count - 1)
  }

  ghost function Eofs(count: nat): seq<Received> {
    if count == 0 then [] else [Eof] + Eofs(count - 1)
  }

  /** A line that carries no data: a comment or another field. */
  ghost predicate Noise(reader: Reader, line: string) {
    line != "" && reader.field(line).None?
  }

  ghost predicate AllNoise(reader: Reader, lines: seq<string>) {
    forall k :: 0 <= k < |lines| ==> Noise(reader, lines[k])
  }

  ghost function Bytes(lines: seq<string>): nat {
    if lines == [] then 0 else |lines[0]| + 1 + Bytes(lines[1..])
  }

  /** The data the lines of a block carry, in order. */
  ghost function DataOf(reader: Reader, lines: seq<string>): seq<string> {
    if lines == [] then []
    else (match reader.field(lines[0])
          case None => []
          case Some(value) => [value]) + DataOf(reader, lines[1..])
  }

  /** A block of lines without a blank one: an event when some line carries data, else idle. */
  ghost predicate Block(lines: seq<string>) {
    forall k :: 0 <= k < |lines| ==> lines[k] != ""
  }

  /** The blocks, each ended by a blank line, and then a last block that is not. */
  ghost function BlocksThen(blocks: seq<seq<string>>, last: seq<string>): seq<string> {
    if blocks == [] then last else blocks[0] + ([""] + BlocksThen(blocks[1..], last))
  }

  ghost predicate AllFit(blocks: seq<seq<string>>) {
    forall k :: 0 <= k < |blocks| ==> Block(blocks[k]) && Bytes(blocks[k]) + 1 <= MAX_EVENT_BYTES
  }

  /** What a consumer should receive: each event's data, decoded, up to the event that ends the stream. */
  ghost function Expected(reader: Reader, blocks: seq<seq<string>>, last: seq<string>): seq<Received> {
    if blocks == [] then
      if DataOf(reader, last) == [] || reader.decode(DataOf(reader, last)).Eof? then []
      else [reader.decode(DataOf(reader, last))]
    else
      var data := DataOf(reader, blocks[0]);
      if data == [] then Expected(reader, blocks[1..], last)
      else if reader.decode(data).Eof? then []
      else [reader.decode(data)] + Expected(reader, blocks[1..], last)
  }

  /** Every stream of lines is such a sequence of blocks. */
  lemma {:induction false} EveryStreamIsBlocks(lines: seq<string>)
    returns (blocks: seq<seq<string>>, last: seq<string>)
    ensures lines == BlocksThen(blocks, last) && Block(last)
    ensures forall k :: 0 <= k < |blocks| ==> Block(blocks[k])
  {
    if lines == [] {
      blocks, last := [], [];
    } else {
      var more, end := EveryStreamIsBlocks(lines[1..]);
      assert lines == [lines[0]] + lines[1..];
      if lines[0] == "" {
        blocks, last := [[]] + more, end;
        assert blocks[1..] == more;
        assert [] + ([""] + BlocksThen(more, end)) == [""] + BlocksThen(more, end);
      } else if more == [] {
        blocks, last := [], [lines[0]] + end;
      } else {
        blocks, last := [[lines[0]] + more[0]] + more[1..], end;
        assert blocks[1..] == more[1..];
        assert ([lines[0]] + more[0]) + ([""] + BlocksThen(more[1..], end))
            == [lines[0]] + (more[0] + ([""] + BlocksThen(more[1..], end)));
      }
    }
  }

  /** Lines that carry no data may be put anywhere in a block. */
  lemma {:induction false} NoiseCarriesNothing(
      reader: Reader, before: seq<string>, noise: seq<string>, after: seq<string>)
    requires AllNoise(reader, noise)
    ensures DataOf(reader, before + noise + after) == DataOf(reader, before + after)
  {
    if before != [] {
      assert (before + noise + after)[1..] == before[1..] + noise + after;
      assert (before + after)[1..] == before[1..] + after;
      NoiseCarriesNothing(reader, before[1..], noise, after);
    } else if noise != [] {
      assert Noise(reader, noise[0]);
      assert before + noise + after == [noise[0]] + (noise[1..] + after);
      assert before + noise[1..] + after == noise[1..] + after;
      NoiseCarriesNothing(reader, before, noise[1..], after);
    } else {
      assert before + noise + after == before + after;
    }
  }

  ghost function Gathered(reader: Reader, line: string, data: seq<string>): seq<string> {
    match reader.field(line)
    case None => data
    case Some(value) => data + [value]
  }

  lemma {:induction false} GatherLine(
      reader: Reader, line: string, rest: seq<string>, data: seq<string>, size: nat)
    requires line != "" && size + |line| + 1 <= MAX_EVENT_BYTES
    ensures Receive(reader, [line] + rest, data, size)
         == Receive(reader, rest, Gathered(reader, line, data), size + |line| + 1)
  {
    ReceiveLine(reader, line, rest, data, size);
  }

  lemma {:induction false} DataOfFirst(reader: Reader, line: string, rest: seq<string>, data: seq<string>)
    ensures data + DataOf(reader, [line] + rest) == Gathered(reader, line, data) + DataOf(reader, rest)
  {
    assert ([line] + rest)[1..] == rest;
  }

  /** Lines within the budget are gathered. */
  lemma {:induction false} GatherBlock(
      reader: Reader, block: seq<string>, rest: seq<string>, data: seq<string>, size: nat)
    requires Block(block) && size + Bytes(block) <= MAX_EVENT_BYTES
    ensures Receive(reader, block + rest, data, size)
         == Receive(reader, rest, data + DataOf(reader, block), size + Bytes(block))
    decreases |block|
  {
    if block == [] {
      assert block + rest == rest && data + DataOf(reader, block) == data;
    } else {
      var line, later := block[0], block[1..];
      assert block == [line] + later && block + rest == [line] + (later + rest);
      GatherLine(reader, line, later + rest, data, size);
      DataOfFirst(reader, line, later, data);
      GatherBlock(reader, later, rest, Gathered(reader, line, data), size + |line| + 1);
    }
  }

  lemma {:induction false} NoiseHasNoData(reader: Reader, noise: seq<string>)
    requires AllNoise(reader, noise)
    ensures DataOf(reader, noise) == []
  {
    if noise != [] {
      assert Noise(reader, noise[0]);
      NoiseHasNoData(reader, noise[1..]);
    }
  }

  /** Noise within the budget is read past. */
  lemma {:induction false} SkipNoise(
      reader: Reader, noise: seq<string>, rest: seq<string>, data: seq<string>, size: nat)
    requires AllNoise(reader, noise) && size + Bytes(noise) <= MAX_EVENT_BYTES
    ensures Receive(reader, noise + rest, data, size) == Receive(reader, rest, data, size + Bytes(noise))
  {
    forall k | 0 <= k < |noise| ensures noise[k] != "" {
      assert Noise(reader, noise[k]);
    }
    NoiseHasNoData(reader, noise);
    GatherBlock(reader, noise, rest, data, size);
    assert data + [] == data;
  }

  /** One block ended by a blank line: an event is decoded, an idle block is passed over. */
  lemma {:induction false} ReceiveBlock(reader: Reader, block: seq<string>, rest: seq<string>)
    requires Block(block) && Bytes(block) + 1 <= MAX_EVENT_BYTES
    ensures Receive(reader, block + ([""] + rest), [], 0)
         == if DataOf(reader, block) == [] then Receive(reader, rest, [], 0)
            else (reader.decode(DataOf(reader, block)), rest)
  {
    GatherBlock(reader, block, [""] + rest, [], 0);
    assert [] + DataOf(reader, block) == DataOf(reader, block);
    ReceiveLine(reader, "", rest, DataOf(reader, block), Bytes(block));
  }

  /** The last block, ended by the end of the input. */
  lemma {:induction false} ReceiveLast(reader: Reader, last: seq<string>)
    requires Block(last) && Bytes(last) <= MAX_EVENT_BYTES
    ensures Receive(reader, last, [], 0)
         == (if DataOf(reader, last) == [] then Eof else reader.decode(DataOf(reader, last)), [])
  {
    GatherBlock(reader, last, [], [], 0);
    assert last + [] == last && [] + DataOf(reader, last) == DataOf(reader, last);
  }

  lemma {:induction false} EndedForGood(reader: Reader, lines: seq<string>, count: nat)
    ensures Session(reader, View(lines, true), count) == Eofs(count)
  {
    if count > 0 {
      EndedForGood(reader, lines, count - 1);
    }
  }

  lemma {:induction false} SessionStops(reader: Reader, stop: seq<string>, count: nat)
    requires Receive(reader, stop, [], 0).0.Eof?
    ensures Session(reader, View(stop, false), count) == Eofs(count)
  {
    if count > 0 {
      EndedForGood(reader, Receive(reader, stop, [], 0).1, count - 1);
    }
  }

  /** Receives return `results` in order, and then end-of-stream for ever. */
  ghost predicate ReadsBack(reader: Reader, lines: seq<string>, results: seq<Received>) {
    forall extra: nat :: Session(reader, View(lines, false), |results| + extra) == results + Eofs(extra)
  }

  lemma {:induction false} ReadsBackFirst(reader: Reader, lines: seq<string>, later: seq<Received>)
    requires !Receive(reader, lines, [], 0).0.Eof? && ReadsBack(reader, Receive(reader, lines, [], 0).1, later)
    ensures ReadsBack(reader, lines, [Receive(reader, lines, [], 0).0] + later)
  {
    var (first, rest) := Receive(reader, lines, [], 0);
    var all := [first] + later;
    forall extra: nat
      ensures Session(reader, View(lines, false), |all| + extra) == all + Eofs(extra)
    {
      assert |all| + extra - 1 == |later| + extra;
      assert Session(reader, View(rest, false), |later| + extra) == later + Eofs(extra);
      assert [first] + (later + Eofs(extra)) == all + Eofs(extra);
    }
  }

  /** Lines from which the first receive does the same read back the same. */
  lemma {:induction false} ReadsBackAlike(
      reader: Reader, lines: seq<string>, others: seq<string>, results: seq<Received>)
    requires Receive(reader, lines, [], 0) == Receive(reader, others, [], 0) && ReadsBack(reader, others, results)
    ensures ReadsBack(reader, lines, results)
  {
    forall extra: nat
      ensures Session(reader, View(lines, false), |results| + extra) == results + Eofs(extra)
    {
      assert Session(reader, View(lines, false), |results| + extra)
          == Session(reader, View(others, false), |results| + extra);
    }
  }

  lemma {:induction false} ReadsBackNothing(reader: Reader, stop: seq<string>)
    requires Receive(reader, stop, [], 0).0.Eof?
    ensures ReadsBack(reader, stop, [])
  {
    var none: seq<Received> := [];
    forall extra: nat
      ensures Session(reader, View(stop, false), |none| + extra) == none + Eofs(extra)
    {
      SessionStops(reader, stop, extra);
      assert none + Eofs(extra) == Eofs(extra);
    }
  }

  lemma {:induction false} LastReadsBack(reader: Reader, last: seq<string>)
    requires Block(last) && Bytes(last) <= MAX_EVENT_BYTES
    ensures ReadsBack(reader, last, Expected(reader, [], last))
  {
    ReceiveLast(reader, last);
    if Receive(reader, last, [], 0).0.Eof? {
      ReadsBackNothing(reader, last);
    } else {
      assert Receive(reader, [], [], 0) == (Eof, []);
      ReadsBackNothing(reader, []);
      ReadsBackFirst(reader, last, []);
      assert [Receive(reader, last, [], 0).0] + [] == Expected(reader, [], last);
    }
  }

  /**
   Receiving is reading off the events.  For any stream of lines whose events are within the size
   limit, with any number of data lines each and any comments and other fields anywhere, the last
   one ended by a blank line or not: the receives return each event's data, decoded, in order,
   undecodable ones included, up to the event that ends the stream or the end of the input, and
   then end-of-stream for ever.
   */
  lemma {:induction false} EventsReadBack(reader: Reader, blocks: seq<seq<string>>, last: seq<string>)
    requires AllFit(blocks) && Block(last) && Bytes(last) <= MAX_EVENT_BYTES
    ensures ReadsBack(reader, BlocksThen(blocks, last), Expected(reader, blocks, last))
    decreases |blocks|
  {
    if blocks == [] {
      LastReadsBack(reader, last);
    } else {
      var lines, rest := BlocksThen(blocks, last), BlocksThen(blocks[1..], last);
      var data := DataOf(reader, blocks[0]);
      ReceiveBlock(reader, blocks[0], rest);
      EventsReadBack(reader, blocks[1..], last);
      if data == [] {
        ReadsBackAlike(reader, lines, rest, Expected(reader, blocks, last));
      } else if reader.decode(data).Eof? {
        ReadsBackNothing(reader, lines);
      } else {
        ReadsBackFirst(reader, lines, Expected(reader, blocks[1..], last));
      }
    }
  }

  /** A block that is over the budget, its blank line included, is refused as too large. */
  lemma {:induction false} OversizedIsRefused(
      reader: Reader, block: seq<string>, rest: seq<string>, data: seq<string>, size: nat)
    requires Block(block) && size <= 1_048_576 < size + Bytes(block) + 1
    ensures Receive(reader, block + ([""] + rest), data, size).0 == Bad(TooLarge)
    decreases |block|
  {
    if block == [] {
      assert block + ([""] + rest) == [""] + rest;
      ReceiveLine(reader, "", rest, data, size);
    } else {
      var line, later := block[0], block[1..];
      assert block + ([""] + rest) == [line] + (later + ([""] + rest));
      ReceiveLine(reader, line, later + ([""] + rest), data, size);
      if size + |line| + 1 <= MAX_EVENT_BYTES {
        OversizedIsRefused(reader, later, rest, Gathered(reader, line, data), size + |line| + 1);
      }
    }
  }
}
