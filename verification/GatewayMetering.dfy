/**
 Usage metering: one record for each success and for each stream that ends or never opens, and
 recorded tokens that add up to what the provider's answers and the ended streams used; cache
 hits and replays add nothing.
 */
module GatewayMetering {
  import opened Results
  import opened Keys
  import opened Gateway
  import GatewaySafety
  import MeteredStream

  /** The counts a usage record holds. */
  datatype Part = Prompt | Completion | Total

  function Tokens(usage: Usage, part: Part): int {
    match part
    case Prompt => usage.prompt
    case Completion => usage.completion
    case Total => usage.total
  }

  ghost function RecordsOf(usage: seq<UsageRecord>, origin: Origin): nat {
    if usage == [] then 0
    else RecordsOf(usage[..|usage| - 1], origin) + (if usage[|usage| - 1].origin == origin then 1 else 0)
  }

  ghost function TokensIn(usage: seq<UsageRecord>, part: Part): int {
    if usage == [] then 0 else TokensIn(usage[..|usage| - 1], part) + Tokens(usage[|usage| - 1].usage, part)
  }

  /** The usage of all answers, and of those whose call has returned. */
  ghost function TokensUsed(answers: seq<Answer>, part: Part): int {
    if answers == [] then 0
    else TokensUsed(answers[..|answers| - 1], part) + Tokens(answers[|answers| - 1].body.usage, part)
  }

  ghost predicate HasReturned(calls: map<nat, Call>, id: nat) {
    id in calls && calls[id].step.Returned?
  }

  ghost function TokensDue(answers: seq<Answer>, calls: map<nat, Call>, part: Part): int {
    if answers == [] then 0
    else
      var last := answers[|answers| - 1];
      TokensDue(answers[..|answers| - 1], calls, part)
      + (if HasReturned(calls, last.id) then Tokens(last.body.usage, part) else 0)
  }

  /** What a stream used: the last usage it reported up to its first ending, once it has ended. */
  ghost function StreamUsed(stream: ClientStream, part: Part): int {
    if stream.Opened? && exists k: nat :: MeteredStream.FirstEnd(stream.events, k) then
      var k: nat :| MeteredStream.FirstEnd(stream.events, k);
      Tokens(MeteredStream.LastUsage(stream.events[..k + 1]), part)
    else 0
  }

  ghost function StreamsUsed(streams: seq<ClientStream>, part: Part): int {
    if streams == [] then 0
    else StreamsUsed(streams[..|streams| - 1], part) + StreamUsed(streams[|streams| - 1], part)
  }

  ghost predicate Ended(stream: ClientStream) {
    stream.Opened? && exists k :: 0 <= k < |stream.events| && MeteredStream.Ends(stream.events[k])
  }

  /** A call records when it returns; only some failures return without recording. */
  ghost predicate RecordsInOrder(call: Call) {
    && call.records <= 1
    && (call.step.Returned? && call.step.outcome.Success? ==> call.records == 1)
    && (!call.step.Returned? ==> call.records == 0)
  }

  ghost function StreamRecords(stream: ClientStream): nat {
    match stream
    case Malformed => 0
    case Unopened => 1
    case Opened(events) => |MeteredStream.Billed(events)|
  }

  /** Each answer belongs to the one call that asked for it, which carries its body from then on. */
  ghost predicate AnswersTraced(s: State) {
    && (forall m, n :: 0 <= m < n < |s.answers| ==> s.answers[m].id != s.answers[n].id)
    && (forall m :: 0 <= m < |s.answers| ==>
          && s.answers[m].id in s.calls
          && FromProvider(s.calls[s.answers[m].id])
          && Carried(s.calls[s.answers[m].id]) == Some(s.answers[m].body))
    && (forall i :: i in s.calls && FromProvider(s.calls[i]) ==>
          exists m :: 0 <= m < |s.answers| && s.answers[m].id == i)
  }

  /** The log holds for each call, and for each stream, just the records it made. */
  ghost predicate RecordsMatch(s: State) {
    && (forall i :: i in s.calls ==>
          RecordsInOrder(s.calls[i]) && RecordsOf(s.usage, ByCall(i)) == s.calls[i].records)
    && (forall i: nat :: i !in s.calls ==> RecordsOf(s.usage, ByCall(i)) == 0)
    && (forall m: nat :: RecordsOf(s.usage, ByStream(m)) == if m < |s.streams| then StreamRecords(s.streams[m]) else 0)
  }

  ghost predicate TokensMatch(s: State, part: Part) {
    TokensIn(s.usage, part) == TokensDue(s.answers, s.calls, part) + StreamsUsed(s.streams, part)
  }

  ghost predicate Metered(s: State) {
    RecordsMatch(s) && AnswersTraced(s) && forall part :: TokensMatch(s, part)
  }

  // ------------------------------------------------------------ records

  lemma {:induction false} MovedCallInOrder(c: Config, s: State, e: Event)
    requires Enabled(s, e) && OfOneCall(e)
    requires e.id in s.calls ==> RecordsInOrder(s.calls[e.id]) && CallOk(c, s.calls[e.id])
    ensures var t := Next(c, s, e);
      && e.id in t.calls && RecordsInOrder(t.calls[e.id]) && t.streams == s.streams
      && t.calls[e.id].records == (if e.id in s.calls then s.calls[e.id].records else 0) + (if e.Meter? then 1 else 0)
      && t.usage
         == s.usage + (if e.Meter? then [UsageRecord(ByCall(e.id), Consumed(s.calls[e.id].step.outcome))] else [])
  {
  }

  lemma {:induction false} OneMoreRecord(usage: seq<UsageRecord>, record: UsageRecord)
    ensures forall origin ::
      RecordsOf(usage + [record], origin) == RecordsOf(usage, origin) + (if record.origin == origin then 1 else 0)
    ensures forall part :: TokensIn(usage + [record], part) == TokensIn(usage, part) + Tokens(record.usage, part)
  {
    assert (usage + [record])[..|usage|] == usage;
  }

  /** What a list of at most one new record does to the log. */
  lemma {:induction false} FewMoreRecords(usage: seq<UsageRecord>, more: seq<UsageRecord>)
    requires |more| <= 1
    ensures forall origin ::
      RecordsOf(usage + more, origin)
      == RecordsOf(usage, origin) + (if more != [] && more[0].origin == origin then 1 else 0)
    ensures forall part ::
      TokensIn(usage + more, part) == TokensIn(usage, part) + (if more != [] then Tokens(more[0].usage, part) else 0)
  {
    if more == [] {
      assert usage + more == usage;
    } else {
      assert more == [more[0]];
      OneMoreRecord(usage, more[0]);
    }
  }

  /** One call is new or moved, and the log grew by the record it made, if any. */
  lemma {:induction false} CallLogMatches(s: State, t: State, id: nat, more: seq<UsageRecord>)
    requires RecordsMatch(s) && t.streams == s.streams && t.usage == s.usage + more && |more| <= 1
    requires more != [] ==> more[0].origin == ByCall(id)
    requires id in t.calls && t.calls == s.calls[id := t.calls[id]] && RecordsInOrder(t.calls[id])
    requires t.calls[id].records == (if id in s.calls then s.calls[id].records else 0) + |more|
    ensures RecordsMatch(t)
  {
    FewMoreRecords(s.usage, more);
  }

  lemma {:induction false} CallRecordsMatch(c: Config, s: State, e: Event)
    requires Enabled(s, e) && OfOneCall(e) && RecordsMatch(s) && CallsOk(c, s)
    ensures RecordsMatch(Next(c, s, e))
  {
    MovedCallInOrder(c, s, e);
    OneCallMoves(c, s, e);
    var more := if e.Meter? then [UsageRecord(ByCall(e.id), Consumed(s.calls[e.id].step.outcome))] else [];
    CallLogMatches(s, Next(c, s, e), e.id, more);
  }

  /** A step on a stream adds a record just when it is the stream's first ending. */
  lemma {:induction false} StepBills(before: seq<MeteredStream.Event>, step: MeteredStream.Event, index: nat)
    ensures |StepRecords(before, step, index)| <= 1
    ensures StreamRecords(Opened(before + [step])) == StreamRecords(Opened(before)) + |StepRecords(before, step, index)|
  {
    MeteredStream.OneMore(before, step);
  }

  /** One stream is new or moved, and the log grew by the record it made, if any. */
  lemma {:induction false} StreamLogMatches(s: State, t: State, index: nat, more: seq<UsageRecord>)
    requires RecordsMatch(s) && t.calls == s.calls && t.usage == s.usage + more && |more| <= 1
    requires more != [] ==> more[0].origin == ByStream(index)
    requires index <= |s.streams| <= |t.streams| && index < |t.streams| <= |s.streams| + 1
    requires forall m :: 0 <= m < |t.streams| && m != index ==> m < |s.streams| && t.streams[m] == s.streams[m]
    requires StreamRecords(t.streams[index])
          == (if index < |s.streams| then StreamRecords(s.streams[index]) else 0) + |more|
    ensures RecordsMatch(t)
  {
    FewMoreRecords(s.usage, more);
  }

  lemma {:induction false} OpeningRecordsMatch(c: Config, s: State, e: Event)
    requires Enabled(s, e) && e.OpenStream? && RecordsMatch(s)
    ensures RecordsMatch(Next(c, s, e))
  {
    var stream := Opening(c, e.rawKey, e.request, e.verdict, e.connected);
    StreamLogMatches(s, Next(c, s, e), |s.streams|, OpeningRecords(stream, |s.streams|));
  }

  lemma {:induction false} StepRecordsMatch(c: Config, s: State, e: Event)
    requires Enabled(s, e) && e.StreamStep? && RecordsMatch(s)
    ensures RecordsMatch(Next(c, s, e))
  {
    var before := s.streams[e.index].events;
    StepBills(before, e.step, e.index);
    StreamLogMatches(s, Next(c, s, e), e.index, StepRecords(before, e.step, e.index));
  }

  // ------------------------------------------------------------ answers

  /** Only a successful question makes a call one of the provider's; nothing unmakes it. */
  lemma {:induction false} ProviderCallsMove(c: Config, s: State, e: Event)
    requires Enabled(s, e) && OfOneCall(e) && (e.id in s.calls ==> CallOk(c, s.calls[e.id]))
    ensures var t := Next(c, s, e);
      && e.id in t.calls
      && t.answers == (if e.Ask? && e.result.Some?
                       then s.answers + [Answer(e.id, s.calls[e.id].client, s.calls[e.id].request, e.result.value.body)]
                       else s.answers)
      && (e.Ask? ==> !FromProvider(s.calls[e.id]))
      && (e.Ask? && e.result.Some? ==>
            FromProvider(t.calls[e.id]) && Carried(t.calls[e.id]) == Some(e.result.value.body))
      && (!(e.Ask? && e.result.Some?) ==>
            (FromProvider(t.calls[e.id]) <==> e.id in s.calls && FromProvider(s.calls[e.id])))
      && (e.id in s.calls && FromProvider(s.calls[e.id]) ==> Carried(t.calls[e.id]) == Carried(s.calls[e.id]))
  {
  }

  lemma {:induction false} AnswersStayTraced(c: Config, s: State, e: Event)
    requires Enabled(s, e) && AnswersTraced(s) && CallsOk(c, s)
    ensures AnswersTraced(Next(c, s, e))
  {
    if OfOneCall(e) {
      var t := Next(c, s, e);
      ProviderCallsMove(c, s, e);
      OneCallMoves(c, s, e);
      TracesFollow(s, t, e.id);
    }
  }

  /** One call moved, and at most its own answer was added. */
  lemma {:induction false} TracesFollow(s: State, t: State, id: nat)
    requires AnswersTraced(s) && id in t.calls && t.calls == s.calls[id := t.calls[id]]
    requires
      || (&& t.answers == s.answers
          && (FromProvider(t.calls[id]) <==> id in s.calls && FromProvider(s.calls[id]))
          && (id in s.calls && FromProvider(s.calls[id]) ==> Carried(t.calls[id]) == Carried(s.calls[id])))
      || (&& |t.answers| == |s.answers| + 1 && t.answers[..|s.answers|] == s.answers
          && t.answers[|s.answers|].id == id
          && !(id in s.calls && FromProvider(s.calls[id]))
          && FromProvider(t.calls[id]) && Carried(t.calls[id]) == Some(t.answers[|s.answers|].body))
    ensures AnswersTraced(t)
  {
    var n := |s.answers|;
    assert forall m :: 0 <= m < n ==> t.answers[m] == s.answers[m];
    forall i | i in t.calls && FromProvider(t.calls[i])
      ensures exists m :: 0 <= m < |t.answers| && t.answers[m].id == i
    {
      if i in s.calls && FromProvider(s.calls[i]) {
        var m :| 0 <= m < n && s.answers[m].id == i;
        assert t.answers[m].id == i;
      } else {
        assert t.answers[n].id == i;
      }
    }
  }

  // ------------------------------------------------------------ tokens

  /** No answer of this call: its return changes nothing that is due. */
  lemma {:induction false} DueUnchanged(answers: seq<Answer>, calls: map<nat, Call>, id: nat, moved: Call, part: Part)
    requires (forall m :: 0 <= m < |answers| ==> answers[m].id != id)
          || (HasReturned(calls, id) <==> moved.step.Returned?)
    ensures TokensDue(answers, calls[id := moved], part) == TokensDue(answers, calls, part)
  {
    if answers != [] {
      DueUnchanged(answers[..|answers| - 1], calls, id, moved, part);
    }
  }

  /** The call with answer `m` returns: exactly that answer's usage falls due. */
  lemma {:induction false} DueGrows(
      answers: seq<Answer>, calls: map<nat, Call>, id: nat, moved: Call, m: nat, part: Part)
    requires m < |answers| && answers[m].id == id
    requires forall j, k :: 0 <= j < k < |answers| ==> answers[j].id != answers[k].id
    requires !HasReturned(calls, id) && moved.step.Returned?
    ensures TokensDue(answers, calls[id := moved], part)
         == TokensDue(answers, calls, part) + Tokens(answers[m].body.usage, part)
  {
    var n := |answers| - 1;
    if m == n {
      DueUnchanged(answers[..n], calls, id, moved, part);
    } else {
      DueGrows(answers[..n], calls, id, moved, m, part);
    }
  }

  lemma {:induction false} MeterKeepsTokens(c: Config, s: State, e: Event, part: Part)
    requires Enabled(s, e) && e.Meter? && AnswersTraced(s) && TokensMatch(s, part)
    ensures TokensMatch(Next(c, s, e), part)
  {
    var call, moved := s.calls[e.id], Next(c, s, e).calls[e.id];
    OneMoreRecord(s.usage, UsageRecord(ByCall(e.id), Consumed(call.step.outcome)));
    if FromProvider(call) {
      var m :| 0 <= m < |s.answers| && s.answers[m].id == e.id;
      DueGrows(s.answers, s.calls, e.id, moved, m, part);
    } else {
      assert forall m :: 0 <= m < |s.answers| ==> s.answers[m].id != e.id;
      DueUnchanged(s.answers, s.calls, e.id, moved, part);
    }
  }

  lemma {:induction false} AnswerKeepsTokens(c: Config, s: State, e: Event, part: Part)
    requires Enabled(s, e) && e.Ask? && AnswersTraced(s) && TokensMatch(s, part)
    ensures TokensMatch(Next(c, s, e), part)
  {
    var t := Next(c, s, e);
    DueUnchanged(s.answers, s.calls, e.id, t.calls[e.id], part);
    if e.result.Some? {
      assert t.answers[..|t.answers| - 1] == s.answers;
    }
  }

  lemma {:induction false} OtherKeepsTokens(c: Config, s: State, e: Event, part: Part)
    requires Enabled(s, e) && OfOneCall(e) && !e.Meter? && !e.Ask? && CallsOk(c, s)
    requires AnswersTraced(s) && TokensMatch(s, part)
    ensures TokensMatch(Next(c, s, e), part)
  {
    var t := Next(c, s, e);
    OneCallMoves(c, s, e);
    assert !(e.id in s.calls && FromProvider(s.calls[e.id]) && t.calls[e.id].step.Returned?);
    assert e.id in s.calls ==> !s.calls[e.id].step.Returned?;
    if t.calls[e.id].step.Returned? {
      assert forall m :: 0 <= m < |s.answers| ==> s.answers[m].id != e.id;
    }
    DueUnchanged(s.answers, s.calls, e.id, t.calls[e.id], part);
  }

  /** What a stream used is what its one record says, and nothing while there is none. */
  lemma {:induction false} UsedIsBilled(events: seq<MeteredStream.Event>, part: Part)
    ensures |MeteredStream.Billed(events)| <= 1
    ensures MeteredStream.Billed(events) != [] <==> Ended(Opened(events))
    ensures StreamUsed(Opened(events), part)
         == if Ended(Opened(events)) then Tokens(MeteredStream.Billed(events)[0].usage, part) else 0
  {
    if exists k: nat :: MeteredStream.FirstEnd(events, k) {
      var k: nat :| MeteredStream.FirstEnd(events, k) &&
        StreamUsed(Opened(events), part) == Tokens(MeteredStream.LastUsage(events[..k + 1]), part);
      MeteredStream.FirstEndDecides(events, k);
    } else {
      MeteredStream.NoFirstEndNoEnd(events, |events|);
      MeteredStream.NothingBeforeTheEnd(events);
    }
  }

  lemma {:induction false} OneStreamMoves(streams: seq<ClientStream>, index: nat, moved: ClientStream, part: Part)
    requires index < |streams|
    ensures StreamsUsed(streams[index := moved], part)
         == StreamsUsed(streams, part) - StreamUsed(streams[index], part) + StreamUsed(moved, part)
  {
    var n := |streams| - 1;
    if index == n {
      assert streams[index := moved][..n] == streams[..n];
    } else {
      assert streams[index := moved][..n] == streams[..n][index := moved];
      OneStreamMoves(streams[..n], index, moved, part);
    }
  }

  lemma {:induction false} OneMoreStream(streams: seq<ClientStream>, stream: ClientStream, part: Part)
    ensures StreamsUsed(streams + [stream], part) == StreamsUsed(streams, part) + StreamUsed(stream, part)
  {
    assert (streams + [stream])[..|streams|] == streams;
  }

  /** A stream that has just been asked for has used nothing. */
  lemma {:induction false} OpeningUsesNothing(
      c: Config, rawKey: string, request: Request, verdict: Verdict, connected: bool, part: Part)
    ensures StreamUsed(Opening(c, rawKey, request, verdict, connected), part) == 0
  {
    UsedIsBilled([], part);
  }

  lemma {:induction false} NewStreamKeepsTokens(s: State, t: State, stream: ClientStream, part: Part)
    requires TokensMatch(s, part) && t.answers == s.answers && t.calls == s.calls
    requires t.streams == s.streams + [stream] && StreamUsed(stream, part) == 0
    requires t.usage == s.usage + OpeningRecords(stream, |s.streams|)
    ensures TokensMatch(t, part)
  {
    FewMoreRecords(s.usage, OpeningRecords(stream, |s.streams|));
    OneMoreStream(s.streams, stream, part);
  }

  lemma {:induction false} OpeningKeepsTokens(c: Config, s: State, e: Event, part: Part)
    requires Enabled(s, e) && e.OpenStream? && TokensMatch(s, part)
    ensures TokensMatch(Next(c, s, e), part)
  {
    OpeningUsesNothing(c, e.rawKey, e.request, e.verdict, e.connected, part);
    NewStreamKeepsTokens(s, Next(c, s, e), Opening(c, e.rawKey, e.request, e.verdict, e.connected), part);
  }

  lemma {:induction false} StepKeepsTokens(c: Config, s: State, e: Event, part: Part)
    requires Enabled(s, e) && e.StreamStep? && TokensMatch(s, part)
    ensures TokensMatch(Next(c, s, e), part)
  {
    var before := s.streams[e.index].events;
    var after := before + [e.step];
    StepBills(before, e.step, e.index);
    FewMoreRecords(s.usage, StepRecords(before, e.step, e.index));
    OneStreamMoves(s.streams, e.index, Opened(after), part);
    MeteredStream.OneMore(before, e.step);
    UsedIsBilled(before, part);
    UsedIsBilled(after, part);
  }

  lemma {:induction false} NextKeepsTokens(c: Config, s: State, e: Event, part: Part)
    requires Enabled(s, e) && CallsOk(c, s) && AnswersTraced(s) && TokensMatch(s, part)
    ensures TokensMatch(Next(c, s, e), part)
  {
    if e.Meter? {
      MeterKeepsTokens(c, s, e, part);
    } else if e.Ask? {
      AnswerKeepsTokens(c, s, e, part);
    } else if OfOneCall(e) {
      OtherKeepsTokens(c, s, e, part);
    } else if e.OpenStream? {
      OpeningKeepsTokens(c, s, e, part);
    } else if e.StreamStep? {
      StepKeepsTokens(c, s, e, part);
    }
  }

  lemma {:induction false} NextKeepsRecords(c: Config, s: State, e: Event)
    requires Enabled(s, e) && CallsOk(c, s) && RecordsMatch(s)
    ensures RecordsMatch(Next(c, s, e))
  {
    if OfOneCall(e) {
      CallRecordsMatch(c, s, e);
    } else if e.OpenStream? {
      OpeningRecordsMatch(c, s, e);
    } else if e.StreamStep? {
      StepRecordsMatch(c, s, e);
    }
  }

  lemma {:induction false} RunIsMetered(c: Config, events: seq<Event>)
    requires CodecOk(c.codec) && Possible(c, events)
    ensures Metered(Run(c, events))
  {
    if events != [] {
      var s, e := Run(c, events[..|events| - 1]), events[|events| - 1];
      RunIsMetered(c, events[..|events| - 1]);
      RunCallsOk(c, events[..|events| - 1]);
      NextKeepsRecords(c, s, e);
      AnswersStayTraced(c, s, e);
      forall part ensures TokensMatch(Next(c, s, e), part) {
        NextKeepsTokens(c, s, e, part);
      }
    }
  }

  // ------------------------------------------------------------ theorems

  /** Each call makes at most one usage record, and exactly one when it succeeds. */
  lemma {:induction false} OneRecordPerSuccess(c: Config, events: seq<Event>, i: nat)
    requires CodecOk(c.codec) && Possible(c, events) && i in Run(c, events).calls
    ensures RecordsOf(Run(c, events).usage, ByCall(i)) <= 1
    ensures var call := Run(c, events).calls[i];
      call.step.Returned? && call.step.outcome.Success? ==> RecordsOf(Run(c, events).usage, ByCall(i)) == 1
  {
    RunIsMetered(c, events);
    assert RecordsInOrder(Run(c, events).calls[i]);
  }

  /** Each opened stream makes exactly one usage record once it has ended or been closed, and none before. */
  lemma {:induction false} OneRecordPerStream(c: Config, events: seq<Event>, m: nat)
    requires CodecOk(c.codec) && Possible(c, events) && m < |Run(c, events).streams|
    requires Run(c, events).streams[m].Opened?
    ensures RecordsOf(Run(c, events).usage, ByStream(m)) == if Ended(Run(c, events).streams[m]) then 1 else 0
  {
    RunIsMetered(c, events);
    UsedIsBilled(Run(c, events).streams[m].events, Total);
  }

  lemma {:induction false} AllDue(answers: seq<Answer>, calls: map<nat, Call>, part: Part)
    requires forall m :: 0 <= m < |answers| ==> HasReturned(calls, answers[m].id)
    ensures TokensDue(answers, calls, part) == TokensUsed(answers, part)
  {
    if answers != [] {
      AllDue(answers[..|answers| - 1], calls, part);
    }
  }

  lemma {:induction false} QuietTotal(s: State, part: Part)
    requires AnswersTraced(s) && TokensMatch(s, part) && forall i :: i in s.calls ==> s.calls[i].step.Returned?
    ensures TokensIn(s.usage, part) == TokensUsed(s.answers, part) + StreamsUsed(s.streams, part)
  {
    AllDue(s.answers, s.calls, part);
  }

  /**
   Conservation: once every call has returned, the recorded tokens of each kind are exactly those
   of the provider's answers and, for each stream that has ended, of the last usage it reported
   up to its first ending.
   */
  lemma {:induction false} RecordedTokensAreUsedTokens(c: Config, events: seq<Event>, part: Part)
    requires CodecOk(c.codec) && Possible(c, events)
    requires forall i :: i in Run(c, events).calls ==> Run(c, events).calls[i].step.Returned?
    ensures TokensIn(Run(c, events).usage, part)
         == TokensUsed(Run(c, events).answers, part) + StreamsUsed(Run(c, events).streams, part)
  {
    RunIsMetered(c, events);
    QuietTotal(Run(c, events), part);
  }

  /** While its record expires only unclaimed, the provider answers a client's key at most once. */
  lemma {:induction false} AtMostOneAnswerPerKey(c: Config, events: seq<Event>, m: nat, n: nat)
    requires CodecOk(c.codec) && Possible(c, events) && m < n < |Run(c, events).answers|
    ensures !GatewaySafety.Rivals(c, events, Run(c, events).answers[m].id, Run(c, events).answers[n].id)
  {
    RunIsMetered(c, events);
    var s := Run(c, events);
    var i, j := s.answers[m].id, s.answers[n].id;
    if GatewaySafety.Rivals(c, events, i, j) {
      GatewaySafety.AtMostOneFreshSuccess(c, events, i, j);
    }
  }
}
