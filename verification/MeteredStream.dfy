/** Usage metering of a client's stream: one record, made by whatever ends the stream first. */
module MeteredStream {
  import opened Results
  import opened Keys

  datatype RecvEnd = Eof | Error(code: string)

  /** What the wrapped stream does: deliver a chunk (perhaps with usage) and perhaps end; or be closed. */
  datatype Event = Received(usage: Option<Usage>, end: Option<RecvEnd>) | Closed(failed: bool)

  /** `Gateway` holds the code of an error the stream ended with. */
  datatype ErrorCode = NoError | StreamClosed | StreamCloseFailed | Gateway(code: string)

  datatype StreamRecord = StreamRecord(succeeded: bool, code: ErrorCode, usage: Usage)

  const NO_USAGE := Usage(0, 0, 0)

  predicate Ends(e: Event) {
    e.Closed? || e.end.Some?
  }

  function RecordForEnd(end: RecvEnd, usage: Usage): StreamRecord {
    match end
    case Eof => StreamRecord(true, NoError, usage)
    case Error(code) => StreamRecord(false, Gateway(code), usage)
  }

  /** The status and error code an ending is recorded with. */
  function RecordFor(e: Event, usage: Usage): StreamRecord
    requires Ends(e)
  {
    match e
    case Received(_, Some(end)) => RecordForEnd(end, usage)
    case Closed(failed) => StreamRecord(false, if failed then StreamCloseFailed else StreamClosed, usage)
  }

  predicate Reports(e: Event) {
    e.Received? && e.usage.Some?
  }

  /** The last usage seen in these events. */
  ghost function LastUsage(events: seq<Event>): Usage {
    if events == [] then NO_USAGE
    else
      var last := events[|events| - 1];
      if Reports(last) then last.usage.value else LastUsage(events[..|events| - 1])
  }

  ghost predicate FirstEnd(events: seq<Event>, k: nat) {
    k < |events| && Ends(events[k]) && forall j :: 0 <= j < k ==> !Ends(events[j])
  }

  /** The records these events call for: the first ending makes the only one. */
  ghost function Billed(events: seq<Event>): seq<StreamRecord> {
    if events == [] then []
    else
      var before, last := Billed(events[..|events| - 1]), events[|events| - 1];
      if before != [] || !Ends(last) then before else [RecordFor(last, LastUsage(events))]
  }

  lemma {:induction false} OneMore(events: seq<Event>, e: Event)
    ensures LastUsage(events + [e]) == if Reports(e) then e.usage.value else LastUsage(events)
    ensures Billed(events + [e])
         == if Billed(events) != [] || !Ends(e) then Billed(events) else [RecordFor(e, LastUsage(events + [e]))]
  {
    assert (events + [e])[..|events|] == events;
  }

  class Stream {
    var usage: Usage
    var finished: bool
    var cancels: nat
    var log: seq<StreamRecord>
    ghost var events: seq<Event>

    ghost predicate Valid()
      reads this
    {
      && usage == LastUsage(events)
      && log == Billed(events)
      && (finished <==> log != [])
      && cancels == |log|
    }

    constructor ()
      ensures Valid() && events == []
    {
      usage, finished, cancels, log, events := NO_USAGE, false, 0, [], [];
    }

    /** Relays one receive; a terminal result finishes the stream. */
    method Recv(chunkUsage: Option<Usage>, end: Option<RecvEnd>)
      requires Valid()
      modifies this
      ensures Valid() && events == old(events) + [Received(chunkUsage, end)]
      ensures log == Billed(events) && cancels == |log|
    {
      ghost var e := Received(chunkUsage, end);
      if chunkUsage.Some? {
        usage := chunkUsage.value;
      }
      if end.Some? {
        EndOnce(end.value);
      }
      OneMore(events, e);
      events := events + [e];
    }

    /** Finishes with the status a terminal receive stands for. */
    method EndOnce(end: RecvEnd)
      modifies `finished, `cancels, `log
      ensures finished
      ensures if old(finished) then cancels == old(cancels) && log == old(log)
              else cancels == old(cancels) + 1 && log == old(log) + [RecordForEnd(end, usage)]
    {
      match end {
        case Eof => FinishOnce(true, NoError);
        case Error(code) => FinishOnce(false, Gateway(code));
      }
    }

    method Close(failed: bool)
      requires Valid()
      modifies this
      ensures Valid() && events == old(events) + [Closed(failed)]
      ensures log == Billed(events) && cancels == |log|
    {
      ghost var e := Closed(failed);
      FinishOnce(false, if failed then StreamCloseFailed else StreamClosed);
      OneMore(events, e);
      events := events + [e];
    }

    /** Cancels and records, the first time only. */
    method FinishOnce(succeeded: bool, code: ErrorCode)
      modifies `finished, `cancels, `log
      ensures finished
      ensures if old(finished) then cancels == old(cancels) && log == old(log)
              else cancels == old(cancels) + 1 && log == old(log) + [StreamRecord(succeeded, code, usage)]
    {
      if !finished {
        finished, cancels := true, cancels + 1;
        log := log + [StreamRecord(succeeded, code, usage)];
      }
    }
  }

  /** Until a stream ends or is closed, nothing is recorded. */
  lemma {:induction false} NothingBeforeTheEnd(events: seq<Event>)
    requires forall j :: 0 <= j < |events| ==> !Ends(events[j])
    ensures Billed(events) == []
  {
    if events != [] {
      NothingBeforeTheEnd(events[..|events| - 1]);
    }
  }

  /** A stream none of whose events is its first ending has no ending at all. */
  lemma {:induction false} NoFirstEndNoEnd(events: seq<Event>, n: nat)
    requires n <= |events| && !exists k: nat :: FirstEnd(events, k)
    ensures forall j :: 0 <= j < n ==> !Ends(events[j])
  {
    if n > 0 {
      NoFirstEndNoEnd(events, n - 1);
      assert !FirstEnd(events, n - 1);
    }
  }

  /**
   Whatever is received or closed after it, the first ending decides: exactly one record, with
   its status and code and with the last usage seen up to it.
   */
  lemma {:induction false} FirstEndDecides(events: seq<Event>, k: nat)
    requires FirstEnd(events, k)
    ensures Billed(events) == [RecordFor(events[k], LastUsage(events[..k + 1]))]
  {
    var before := events[..|events| - 1];
    if k == |before| {
      NothingBeforeTheEnd(before);
      assert events[..k + 1] == events;
    } else {
      FirstEndDecides(before, k);
      assert before[..k + 1] == events[..k + 1];
    }
  }

  /** The last usage is the one received at `k`, with none received after; never received (`k` is -1) means zero. */
  lemma {:induction false} LastUsageIsLast(events: seq<Event>, k: int)
    requires -1 <= k < |events| && (k == -1 || Reports(events[k]))
    requires forall j :: k < j < |events| ==> !Reports(events[j])
    ensures LastUsage(events) == if k == -1 then NO_USAGE else events[k].usage.value
  {
    if k + 1 < |events| {
      LastUsageIsLast(events[..|events| - 1], k);
    }
  }

  /**
   The one record, from the events alone.  If a stream delivered chunks up to `k` and there ended or
   was closed, then whatever follows: it is a success exactly when it ended with end-of-stream, its
   code says how else it ended, and its usage is the last one received up to there.
   */
  lemma {:induction false} RecordSaysHowItEnded(events: seq<Event>, k: nat)
    requires k < |events| && (events[k].Closed? || events[k].end.Some?)
    requires forall j :: 0 <= j < k ==> events[j].Received? && events[j].end.None?
    ensures |Billed(events)| == 1
    ensures var record, e := Billed(events)[0], events[k];
      && record.usage == LastUsage(events[..k + 1])
      && (record.succeeded <==> e.Received? && e.end == Some(Eof))
      && (record.succeeded ==> record.code == NoError)
      && (e.Received? && e.end.value.Error? ==> record.code == Gateway(e.end.value.code))
      && (e.Closed? ==> record.code == if e.failed then StreamCloseFailed else StreamClosed)
  {
    FirstEndDecides(events, k);
  }
}
