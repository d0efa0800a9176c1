/**
 Where successful bodies come from.  In every run, with expiries and store failures of every
 kind, a successful result is a body the provider really returned for an equal request of the
 same client.
 */
module GatewayProvenance {
  import opened Results
  import opened Keys
  import opened Idempotency
  import opened Gateway

  /** The provider returned this body for this request of this client. */
  ghost predicate Answered(answers: seq<Answer>, client: string, request: Request, body: Body) {
    exists k :: 0 <= k < |answers|
      && answers[k].client == client && answers[k].request == request && answers[k].body == body
  }

  ghost predicate GenuineCall(answers: seq<Answer>, call: Call) {
    Carried(call).Some? ==> Answered(answers, call.client, call.request, Carried(call).value)
  }

  /** What a cache entry holds was returned for the client and request its name digests. */
  ghost predicate GenuineEntry(c: Config, answers: seq<Answer>, name: string, payload: string) {
    exists k :: 0 <= k < |answers|
      && name == CacheKey(c.codec, answers[k].client, answers[k].request)
      && c.codec.decodeBody(payload) == Some(answers[k].body)
  }

  /** `name` is the record of some key of this client. */
  ghost predicate ScopedTo(c: Config, name: string, client: string) {
    exists key :: NUL !in key && name == ScopedKey(c.codec, client, key)
  }

  /** What a completed record holds was returned for its client and for the request it fingerprints. */
  ghost predicate GenuineRecord(c: Config, answers: seq<Answer>, name: string, record: Record) {
    record.payload.Some? ==>
      exists k :: 0 <= k < |answers|
        && ScopedTo(c, name, answers[k].client)
        && record.fingerprint == Fingerprint(c.codec, answers[k].request)
        && c.codec.decodeBody(record.payload.value) == Some(answers[k].body)
  }

  ghost predicate Genuine(c: Config, s: State) {
    && CallsOk(c, s)
    && (forall i :: i in s.calls ==> GenuineCall(s.answers, s.calls[i]))
    && (forall name :: name in s.cache ==> GenuineEntry(c, s.answers, name, s.cache[name]))
    && (forall name :: name in s.records ==> GenuineRecord(c, s.answers, name, s.records[name]))
  }

  lemma {:induction false} AnswersOnlyGrow(c: Config, s: State, e: Event)
    requires Enabled(s, e)
    ensures s.answers <= Next(c, s, e).answers
  {
  }

  lemma {:induction false} StaysGenuine(c: Config, a: seq<Answer>, b: seq<Answer>)
    requires a <= b
    ensures forall client, request, body :: Answered(a, client, request, body) ==> Answered(b, client, request, body)
    ensures forall name, payload :: GenuineEntry(c, a, name, payload) ==> GenuineEntry(c, b, name, payload)
    ensures forall name, record :: GenuineRecord(c, a, name, record) ==> GenuineRecord(c, b, name, record)
  {
    assert forall k :: 0 <= k < |a| ==> a[k] == b[k];
    forall name, record | GenuineRecord(c, a, name, record)
      ensures GenuineRecord(c, b, name, record)
    {
      if record.payload.Some? {
        var k :| 0 <= k < |a| && ScopedTo(c, name, a[k].client)
          && record.fingerprint == Fingerprint(c.codec, a[k].request)
          && c.codec.decodeBody(record.payload.value) == Some(a[k].body);
        assert ScopedTo(c, name, b[k].client);
      }
    }
  }

  /** A hit is genuine: the entry's name pins down client and request. */
  lemma {:induction false} HitIsGenuine(c: Config, s: State, call: Call)
    requires CodecOk(c.codec) && Genuine(c, s) && Entry(c, call) in s.cache
    ensures c.codec.decodeBody(s.cache[Entry(c, call)]).Some? ==>
      Answered(s.answers, call.client, call.request, c.codec.decodeBody(s.cache[Entry(c, call)]).value)
  {
    var name := Entry(c, call);
    assert GenuineEntry(c, s.answers, name, s.cache[name]);
    var k :| 0 <= k < |s.answers|
      && name == CacheKey(c.codec, s.answers[k].client, s.answers[k].request)
      && c.codec.decodeBody(s.cache[name]) == Some(s.answers[k].body);
    CacheKeyIsInjective(c.codec, s.answers[k].client, s.answers[k].request, call.client, call.request);
  }

  /** A replay is genuine: the record's name pins down the client, its fingerprint the request. */
  lemma {:induction false} ReplayIsGenuine(c: Config, s: State, call: Call, payload: string)
    requires CodecOk(c.codec) && Genuine(c, s) && NUL !in call.key
    requires BeginStatus(s.records, Scope(c, call), Print(c, call)) == Completed(payload)
    ensures c.codec.decodeBody(payload).Some? ==>
      Answered(s.answers, call.client, call.request, c.codec.decodeBody(payload).value)
  {
    var name := Scope(c, call);
    var record := s.records[name];
    assert GenuineRecord(c, s.answers, name, record);
    var k :| 0 <= k < |s.answers| && ScopedTo(c, name, s.answers[k].client)
      && record.fingerprint == Fingerprint(c.codec, s.answers[k].request)
      && c.codec.decodeBody(payload) == Some(s.answers[k].body);
    var key :| NUL !in key && name == ScopedKey(c.codec, s.answers[k].client, key);
    ScopedKeyIsInjective(c.codec, s.answers[k].client, key, call.client, call.key);
  }

  lemma {:induction false} StaysAnswered(a: seq<Answer>, b: seq<Answer>, call: Call)
    requires a <= b && GenuineCall(a, call)
    ensures GenuineCall(b, call)
  {
    assert forall k :: 0 <= k < |a| ==> a[k] == b[k];
  }

  lemma {:induction false} LookupIsGenuine(c: Config, s: State, e: Event)
    requires CodecOk(c.codec) && Genuine(c, s) && Enabled(s, e) && e.Lookup?
    ensures e.id in Next(c, s, e).calls && GenuineCall(s.answers, Next(c, s, e).calls[e.id])
  {
    var call := s.calls[e.id];
    if UsesCache(c, call) && e.reachable && Entry(c, call) in s.cache {
      HitIsGenuine(c, s, call);
    }
  }

  lemma {:induction false} BeginIsGenuine(c: Config, s: State, e: Event)
    requires CodecOk(c.codec) && Genuine(c, s) && Enabled(s, e) && e.Begin?
    ensures e.id in Next(c, s, e).calls && GenuineCall(s.answers, Next(c, s, e).calls[e.id])
  {
    var call := s.calls[e.id];
    assert CallOk(c, call);
    match BeginStatus(s.records, Scope(c, call), Print(c, call)) {
      case Completed(payload) => ReplayIsGenuine(c, s, call, payload);
      case _ =>
    }
  }

  /** Any other step of a call: what it carries it carried before, unless it was just answered. */
  lemma {:induction false} StepIsGenuine(c: Config, s: State, e: Event)
    requires Enabled(s, e) && OfOneCall(e) && !e.Lookup? && !e.Begin? && s.answers <= Next(c, s, e).answers
    requires e.id in s.calls ==> GenuineCall(s.answers, s.calls[e.id]) && CallOk(c, s.calls[e.id])
    ensures e.id in Next(c, s, e).calls && GenuineCall(Next(c, s, e).answers, Next(c, s, e).calls[e.id])
  {
    if e.id in s.calls {
      StaysAnswered(s.answers, Next(c, s, e).answers, s.calls[e.id]);
    }
    if e.Ask? && e.result.Some? {
      assert Next(c, s, e).answers[|s.answers|].body == e.result.value.body;
    }
  }

  lemma {:induction false} CallsStayGenuine(c: Config, s: State, e: Event)
    requires CodecOk(c.codec) && Genuine(c, s) && Enabled(s, e)
    ensures forall i :: i in Next(c, s, e).calls ==> GenuineCall(Next(c, s, e).answers, Next(c, s, e).calls[i])
  {
    if OfOneCall(e) {
      OneCallMoves(c, s, e);
      AnswersOnlyGrow(c, s, e);
      if e.Lookup? {
        LookupIsGenuine(c, s, e);
      } else if e.Begin? {
        BeginIsGenuine(c, s, e);
      } else {
        StepIsGenuine(c, s, e);
      }
      forall i | i in s.calls && i != e.id ensures GenuineCall(Next(c, s, e).answers, s.calls[i]) {
        StaysAnswered(s.answers, Next(c, s, e).answers, s.calls[i]);
      }
    }
  }

  lemma {:induction false} EntriesStayGenuine(c: Config, s: State, e: Event)
    requires CodecOk(c.codec) && Genuine(c, s) && Enabled(s, e)
    ensures forall name :: name in Next(c, s, e).cache ==>
        GenuineEntry(c, Next(c, s, e).answers, name, Next(c, s, e).cache[name])
  {
    var t := Next(c, s, e);
    AnswersOnlyGrow(c, s, e);
    StaysGenuine(c, s.answers, t.answers);
    if e.Store? {
      var call := s.calls[e.id];
      assert GenuineCall(s.answers, call);
      assert GenuineEntry(c, s.answers, Entry(c, call), c.codec.encodeBody(call.step.body));
    }
  }

  lemma {:induction false} RecordsStayGenuine(c: Config, s: State, e: Event)
    requires CodecOk(c.codec) && Genuine(c, s) && Enabled(s, e)
    ensures forall name :: name in Next(c, s, e).records ==>
        GenuineRecord(c, Next(c, s, e).answers, name, Next(c, s, e).records[name])
  {
    AnswersOnlyGrow(c, s, e);
    StaysGenuine(c, s.answers, Next(c, s, e).answers);
    if e.Complete? {
      assert CallOk(c, s.calls[e.id]) && GenuineCall(s.answers, s.calls[e.id]);
      CompletionIsGenuine(c, s, s.calls[e.id]);
    }
    forall name | name in Next(c, s, e).records
      ensures GenuineRecord(c, s.answers, name, Next(c, s, e).records[name])
    {
      RecordMoves(c, s, e, name);
    }
  }

  /** A record is as before, or a new reservation, or just completed by its call. */
  lemma {:induction false} RecordMoves(c: Config, s: State, e: Event, name: string)
    requires Enabled(s, e) && name in Next(c, s, e).records
    ensures var record := Next(c, s, e).records[name];
      || (name in s.records && s.records[name] == record)
      || record.payload.None?
      || (&& e.Complete? && name == Scope(c, s.calls[e.id])
          && record == Record(Print(c, s.calls[e.id]), Some(s.calls[e.id].step.payload)))
  {
  }

  lemma {:induction false} CompletionIsGenuine(c: Config, s: State, call: Call)
    requires CallOk(c, call) && GenuineCall(s.answers, call) && call.step.Completing?
    ensures GenuineRecord(c, s.answers, Scope(c, call), Record(Print(c, call), Some(call.step.payload)))
  {
    var k :| 0 <= k < |s.answers| && s.answers[k].client == call.client
      && s.answers[k].request == call.request && s.answers[k].body == call.step.outcome.body;
    assert ScopedTo(c, Scope(c, call), s.answers[k].client);
  }

  lemma {:induction false} RunIsGenuine(c: Config, events: seq<Event>)
    requires CodecOk(c.codec) && Possible(c, events)
    ensures Genuine(c, Run(c, events))
  {
    RunCallsOk(c, events);
    if events != [] {
      var s, e := Run(c, events[..|events| - 1]), events[|events| - 1];
      RunIsGenuine(c, events[..|events| - 1]);
      CallsStayGenuine(c, s, e);
      EntriesStayGenuine(c, s, e);
      RecordsStayGenuine(c, s, e);
    }
  }

  /** Provenance: every successful result, fresh, cached or replayed, was really returned for it. */
  lemma {:induction false} EverySuccessIsGenuine(c: Config, events: seq<Event>, i: nat)
    requires CodecOk(c.codec) && Possible(c, events) && i in Run(c, events).calls
    requires Run(c, events).calls[i].step.Returned? && Run(c, events).calls[i].step.outcome.Success?
    ensures var call := Run(c, events).calls[i];
      Answered(Run(c, events).answers, call.client, call.request, call.step.outcome.body)
  {
    RunIsGenuine(c, events);
    assert GenuineCall(Run(c, events).answers, Run(c, events).calls[i]);
  }
}
