/**
 When may an idempotency record expire?  Exactly while it is unclaimed: expiring then keeps the
 guarantee on every continuation, and expiring while a call owns it or has succeeded under it
 always leaves a continuation that breaks it.
 */
module GatewayExpiry {
  import opened Results
  import opened Keys
  import opened Idempotency
  import opened Gateway
  import opened GatewaySafety

  // ------------------------------------------------------------ the guarantee

  /** Two different calls of this client under this key. */
  ghost predicate Twins(s: State, client: string, key: string, i: nat, j: nat) {
    && i in s.calls && j in s.calls && i != j
    && s.calls[i].client == s.calls[j].client == client && s.calls[i].key == s.calls[j].key == key
  }

  /** No two calls of this client under this key were both served by the provider. */
  ghost predicate ServedOnce(s: State, client: string, key: string) {
    forall i, j :: Twins(s, client, key, i, j) ==> !(FromProvider(s.calls[i]) && FromProvider(s.calls[j]))
  }

  /** All successes of this client under this key carry the same body. */
  ghost predicate OneBody(s: State, client: string, key: string) {
    forall i, j :: Twins(s, client, key, i, j) && Carried(s.calls[i]).Some? && Carried(s.calls[j]).Some? ==>
      Carried(s.calls[i]) == Carried(s.calls[j])
  }

  /** `longer` continues `events` without a further expiry of any record. */
  ghost predicate Continues(c: Config, events: seq<Event>, longer: seq<Event>) {
    && Possible(c, longer) && events <= longer
    && forall n :: |events| <= n < |longer| ==> !longer[n].ExpireRecord?
  }

  // ------------------------------------------------- what every call was born with

  /** A call's key is as normalized, and only requests for a whole answer get anywhere. */
  ghost predicate Wellborn(call: Call) {
    && NormalizeKey(call.key) == Ok(call.key)
    && (call.request.stream ==> call.step.Returned? && call.step.outcome.Failure?)
  }

  lemma {:induction false} ArrivedIsWellborn(client: string, rawKey: string, request: Request)
    ensures Wellborn(Arrived(client, rawKey, request))
  {
    NormalizedKeyIsStable(rawKey);
    NormalizedKeyIsStable("");
  }

  ghost predicate AllWellborn(c: Config, s: State) {
    && (forall i :: i in s.calls ==> Wellborn(s.calls[i]))
    && (s.records != map[] ==> c.hasIdempotency)
  }

  lemma {:induction false} NextIsWellborn(c: Config, s: State, e: Event)
    requires Enabled(s, e) && AllWellborn(c, s)
    ensures forall i :: i in Next(c, s, e).calls ==> Wellborn(Next(c, s, e).calls[i])
  {
    if OfOneCall(e) {
      OneCallMoves(c, s, e);
      if e.Arrive? {
        ArrivedIsWellborn(e.client, e.rawKey, e.request);
      } else {
        CallStaysItself(c, s, e);
      }
    }
  }

  lemma {:induction false} NextNeedsStore(c: Config, s: State, e: Event)
    requires Enabled(s, e) && (s.records != map[] ==> c.hasIdempotency)
    ensures Next(c, s, e).records != map[] ==> c.hasIdempotency
  {
  }

  lemma {:induction false} RunIsWellborn(c: Config, events: seq<Event>)
    requires Possible(c, events)
    ensures AllWellborn(c, Run(c, events))
  {
    if events != [] {
      RunIsWellborn(c, events[..|events| - 1]);
      NextIsWellborn(c, Run(c, events[..|events| - 1]), events[|events| - 1]);
      NextNeedsStore(c, Run(c, events[..|events| - 1]), events[|events| - 1]);
    }
  }

  // ------------------------------------------------------------ continuations

  lemma {:induction false} RunsOn(c: Config, events: seq<Event>, e: Event, longer: seq<Event>)
    requires Possible(c, events) && Enabled(Run(c, events), e) && longer == events + [e]
    ensures Possible(c, longer)
    ensures Run(c, longer) == Next(c, Run(c, events), e)
  {
    assert longer[..|longer| - 1] == events && longer[|longer| - 1] == e;
  }

  lemma {:induction false} OneMore(c: Config, events: seq<Event>, e: Event) returns (longer: seq<Event>)
    requires Possible(c, events) && Enabled(Run(c, events), e)
    ensures longer == events + [e] && Possible(c, longer)
    ensures Run(c, longer) == Next(c, Run(c, events), e)
    ensures !e.ExpireRecord? ==> Continues(c, events, longer)
  {
    longer := events + [e];
    RunsOn(c, events, e, longer);
  }

  lemma {:induction false} Onward(c: Config, a: seq<Event>, b: seq<Event>, d: seq<Event>)
    requires Continues(c, a, b) && Continues(c, b, d)
    ensures Continues(c, a, d)
  {
    forall n | |a| <= n < |d| ensures !d[n].ExpireRecord? {
      if n < |b| {
        assert d[n] == b[n];
      }
    }
  }

  lemma {:induction false} UpperBound(ids: set<nat>) returns (n: nat)
    ensures forall i :: i in ids ==> i < n
  {
    if ids == {} {
      n := 0;
    } else {
      var i :| i in ids;
      var m := UpperBound(ids - {i});
      n := if i < m then m else i + 1;
      assert forall j :: j in ids ==> j == i || j in ids - {i};
    }
  }

  lemma {:induction false} ReachLimiter(
      c: Config, events: seq<Event>, id: nat, client: string, key: string, request: Request)
    returns (longer: seq<Event>)
    requires !request.stream && NormalizeKey(key) == Ok(key)
    requires Possible(c, events) && id !in Run(c, events).calls
    ensures Continues(c, events, longer)
    ensures Run(c, longer).records == Run(c, events).records
    ensures Run(c, longer).calls == Run(c, events).calls[id := Call(client, key, request, Limiting, false, 0)]
  {
    longer := OneMore(c, events, Arrive(id, client, key, request));
  }

  lemma {:induction false} PassLimiter(c: Config, events: seq<Event>, id: nat) returns (longer: seq<Event>)
    requires Possible(c, events) && id in Run(c, events).calls
    requires Run(c, events).calls[id].step.Limiting? && Keyed(Run(c, events).calls[id])
    ensures Continues(c, events, longer)
    ensures Run(c, longer).records == Run(c, events).records
    ensures Run(c, longer).calls == Run(c, events).calls[id := Run(c, events).calls[id].(step := Beginning)]
  {
    longer := OneMore(c, events, Limit(id, Allowed));
  }

  lemma {:induction false} Overwritten(calls: map<nat, Call>, id: nat, a: Call, b: Call)
    ensures calls[id := a][id := b] == calls[id := b]
  {
  }

  /** A new call comes as far as reserving its key. */
  lemma {:induction false} ReachReservation(
      c: Config, events: seq<Event>, id: nat, client: string, key: string, request: Request)
    returns (longer: seq<Event>)
    requires !request.stream && NormalizeKey(key) == Ok(key) && key != ""
    requires Possible(c, events) && id !in Run(c, events).calls
    ensures Continues(c, events, longer)
    ensures Run(c, longer).records == Run(c, events).records
    ensures Run(c, longer).calls == Run(c, events).calls[id := Call(client, key, request, Beginning, false, 0)]
  {
    var limiting := ReachLimiter(c, events, id, client, key, request);
    longer := PassLimiter(c, limiting, id);
    Onward(c, events, limiting, longer);
    var call := Call(client, key, request, Limiting, false, 0);
    Overwritten(Run(c, events).calls, id, call, call.(step := Beginning));
  }

  /** A call that looks up finds nothing, if the cache cannot be reached, and comes as far as asking. */
  lemma {:induction false} LookInVain(c: Config, events: seq<Event>, id: nat) returns (longer: seq<Event>)
    requires Possible(c, events) && id in Run(c, events).calls && Run(c, events).calls[id].step.Looking?
    ensures Continues(c, events, longer)
    ensures Run(c, longer).records == Run(c, events).records
    ensures Run(c, longer).calls == Run(c, events).calls[id := Run(c, events).calls[id].(step := Asking)]
  {
    longer := OneMore(c, events, Lookup(id, false));
  }

  lemma {:induction false} Reserve(
      c: Config, events: seq<Event>, id: nat, client: string, key: string, request: Request)
    returns (longer: seq<Event>)
    requires c.hasIdempotency && Possible(c, events) && id in Run(c, events).calls
    requires Run(c, events).calls[id] == Call(client, key, request, Beginning, false, 0)
    requires ScopedKey(c.codec, client, key) !in Run(c, events).records
    ensures Continues(c, events, longer)
    ensures Run(c, longer).calls == Run(c, events).calls[id := Call(client, key, request, Looking, true, 0)]
    ensures Run(c, longer).records
         == Run(c, events).records[ScopedKey(c.codec, client, key) := Record(Fingerprint(c.codec, request), None)]
  {
    longer := OneMore(c, events, Begin(id, Applied));
  }

  /** A call about to reserve a free key reserves it and comes as far as asking the provider. */
  lemma {:induction false} ReserveAndAsk(
      c: Config, events: seq<Event>, id: nat, client: string, key: string, request: Request)
    returns (longer: seq<Event>)
    requires c.hasIdempotency && Possible(c, events) && id in Run(c, events).calls
    requires Run(c, events).calls[id] == Call(client, key, request, Beginning, false, 0)
    requires ScopedKey(c.codec, client, key) !in Run(c, events).records
    ensures Continues(c, events, longer)
    ensures Run(c, longer).calls == Run(c, events).calls[id := Call(client, key, request, Asking, true, 0)]
    ensures Run(c, longer).records
         == Run(c, events).records[ScopedKey(c.codec, client, key) := Record(Fingerprint(c.codec, request), None)]
  {
    var looking := Reserve(c, events, id, client, key, request);
    longer := LookInVain(c, looking, id);
    Onward(c, events, looking, longer);
    var call := Call(client, key, request, Looking, true, 0);
    Overwritten(Run(c, events).calls, id, call, call.(step := Asking));
  }

  /** When its key is free, a new call reserves it and comes as far as asking the provider. */
  lemma {:induction false} ReachProvider(
      c: Config, events: seq<Event>, id: nat, client: string, key: string, request: Request)
    returns (longer: seq<Event>)
    requires c.hasIdempotency && !request.stream && NormalizeKey(key) == Ok(key) && key != ""
    requires Possible(c, events) && id !in Run(c, events).calls
    requires ScopedKey(c.codec, client, key) !in Run(c, events).records
    ensures Continues(c, events, longer)
    ensures Run(c, longer).calls == Run(c, events).calls[id := Call(client, key, request, Asking, true, 0)]
    ensures Run(c, longer).records
         == Run(c, events).records[ScopedKey(c.codec, client, key) := Record(Fingerprint(c.codec, request), None)]
  {
    var reserving := ReachReservation(c, events, id, client, key, request);
    longer := ReserveAndAsk(c, reserving, id, client, key, request);
    Onward(c, events, reserving, longer);
    var call := Call(client, key, request, Beginning, false, 0);
    Overwritten(Run(c, events).calls, id, call, Call(client, key, request, Asking, true, 0));
  }

  /** A call that asks the provider may be served, with any answer. */
  lemma {:induction false} Serve(c: Config, events: seq<Event>, id: nat, answer: Response) returns (longer: seq<Event>)
    requires Possible(c, events) && id in Run(c, events).calls && Run(c, events).calls[id].step.Asking?
    ensures Continues(c, events, longer)
    ensures Run(c, longer).records == Run(c, events).records
    ensures id in Run(c, longer).calls
    ensures Run(c, longer).calls == Run(c, events).calls[id := Run(c, longer).calls[id]]
    ensures var call, moved := Run(c, events).calls[id], Run(c, longer).calls[id];
      && moved.client == call.client && moved.key == call.key && moved.request == call.request
      && FromProvider(moved) && Carried(moved) == Some(answer.body)
  {
    longer := OneMore(c, events, Ask(id, Some(answer)));
  }

  // ------------------------------------------- expiring a claimed record

  function Another(body: Body): Response {
    Response("", body.(id := body.id + "'"))
  }

  /** A call has succeeded and its record is gone: another call gets a different answer. */
  lemma {:induction false} SecondAnswer(c: Config, events: seq<Event>, i: nat) returns (longer: seq<Event>)
    requires c.hasIdempotency && Possible(c, events) && i in Run(c, events).calls
    requires Carried(Run(c, events).calls[i]).Some? && Keyed(Run(c, events).calls[i])
    requires Wellborn(Run(c, events).calls[i]) && Scope(c, Run(c, events).calls[i]) !in Run(c, events).records
    ensures Continues(c, events, longer)
    ensures var call := Run(c, events).calls[i];
      && !OneBody(Run(c, longer), call.client, call.key)
      && (FromProvider(call) ==> !ServedOnce(Run(c, longer), call.client, call.key))
  {
    var call := Run(c, events).calls[i];
    var id := UpperBound(Run(c, events).calls.Keys);
    var asking := ReachProvider(c, events, id, call.client, call.key, call.request);
    longer := Serve(c, asking, id, Another(Carried(call).value));
    Onward(c, events, asking, longer);
    assert |Another(Carried(call).value).body.id| == |Carried(call).value.id| + 1;
    assert Twins(Run(c, longer), call.client, call.key, i, id);
  }

  /** A call is asking and its record is gone: it and another call are both served. */
  lemma {:induction false} AskerIsOvertaken(c: Config, events: seq<Event>, i: nat) returns (longer: seq<Event>)
    requires c.hasIdempotency && Possible(c, events) && i in Run(c, events).calls
    requires Run(c, events).calls[i].step.Asking? && Keyed(Run(c, events).calls[i])
    requires Wellborn(Run(c, events).calls[i]) && Scope(c, Run(c, events).calls[i]) !in Run(c, events).records
    ensures Continues(c, events, longer)
    ensures var call := Run(c, events).calls[i];
      && !OneBody(Run(c, longer), call.client, call.key) && !ServedOnce(Run(c, longer), call.client, call.key)
  {
    var served := Serve(c, events, i, Response("", Body("", "", Usage(0, 0, 0))));
    longer := SecondAnswer(c, served, i);
    Onward(c, events, served, longer);
  }

  /**
   A call is about to release and its record is gone: the next call reserves the key under the same
   fingerprint, the release deletes that reservation, and a third call is let through as well.
   */
  lemma {:induction false} LateReleaseHitsNextOwner(c: Config, events: seq<Event>, i: nat) returns (longer: seq<Event>)
    requires c.hasIdempotency && Possible(c, events) && i in Run(c, events).calls
    requires Run(c, events).calls[i].step.Releasing? && Keyed(Run(c, events).calls[i])
    requires Wellborn(Run(c, events).calls[i]) && Scope(c, Run(c, events).calls[i]) !in Run(c, events).records
    ensures Continues(c, events, longer)
    ensures var call := Run(c, events).calls[i];
      && !OneBody(Run(c, longer), call.client, call.key) && !ServedOnce(Run(c, longer), call.client, call.key)
  {
    var call := Run(c, events).calls[i];
    var id := UpperBound(Run(c, events).calls.Keys);
    var asking := ReachProvider(c, events, id, call.client, call.key, call.request);
    var released := OneMore(c, asking, Release(i, Applied));
    Onward(c, events, asking, released);
    longer := AskerIsOvertaken(c, released, id);
    Onward(c, events, released, longer);
  }

  /**
   Whenever a record expires under a call that owns it or has succeeded under it, the run can go on
   to answer the key with two bodies, and, unless that call's success came from the cache or a
   replay, to be served by the provider twice.
   */
  lemma {:induction false} ClaimedExpiryBreaks(c: Config, events: seq<Event>, i: nat) returns (longer: seq<Event>)
    requires CodecOk(c.codec) && Possible(c, events) && i in Run(c, events).calls
    requires Keyed(Run(c, events).calls[i]) && Scope(c, Run(c, events).calls[i]) in Run(c, events).records
    requires Owner(Run(c, events).calls[i]) || Carried(Run(c, events).calls[i]).Some?
    ensures var call := Run(c, events).calls[i];
      && Continues(c, events + [ExpireRecord(Scope(c, call))], longer)
      && !OneBody(Run(c, longer), call.client, call.key)
      && ((Carried(call).None? || FromProvider(call)) ==> !ServedOnce(Run(c, longer), call.client, call.key))
  {
    var call := Run(c, events).calls[i];
    RunIsWellborn(c, events);
    RunCallsOk(c, events);
    assert CallOk(c, call) && Wellborn(call);
    var gone := OneMore(c, events, ExpireRecord(Scope(c, call)));
    if Carried(call).Some? {
      longer := SecondAnswer(c, gone, i);
    } else if call.step.Releasing? {
      longer := LateReleaseHitsNextOwner(c, gone, i);
    } else if call.step.Asking? {
      longer := AskerIsOvertaken(c, gone, i);
    } else {
      var asking := LookInVain(c, gone, i);
      longer := AskerIsOvertaken(c, asking, i);
      Onward(c, gone, asking, longer);
    }
  }

  /** For every client, key and request there is such a run: reserve, expire while asking, and serve two calls. */
  lemma {:induction false} ExpiryLetsTwoThrough(c: Config, client: string, key: string, request: Request)
    returns (events: seq<Event>)
    requires CodecOk(c.codec) && c.hasIdempotency && !request.stream
    requires NormalizeKey(key) == Ok(key) && key != ""
    ensures Possible(c, events)
    ensures !ServedOnce(Run(c, events), client, key) && !OneBody(Run(c, events), client, key)
  {
    var asking := ReachProvider(c, [], 0, client, key, request);
    events := ClaimedExpiryBreaks(c, asking, 0);
  }

  // ------------------------------------------------------------ exactly when

  lemma {:induction false} StaysUndisturbed(c: Config, k: string, events: seq<Event>, longer: seq<Event>)
    requires Possible(c, events) && Undisturbed(c, k, events) && Continues(c, events, longer)
    ensures Undisturbed(c, k, longer)
    decreases |longer|
  {
    if |events| == |longer| {
      assert longer == events;
    } else {
      assert events <= longer[..|longer| - 1];
      StaysUndisturbed(c, k, events, longer[..|longer| - 1]);
    }
  }

  /** The guarantee of an undisturbed run, for one client and key. */
  lemma {:induction false} UndisturbedKeepsGuarantee(c: Config, events: seq<Event>, client: string, key: string)
    requires CodecOk(c.codec) && Possible(c, events) && key != ""
    requires Undisturbed(c, ScopedKey(c.codec, client, key), events)
    ensures ServedOnce(Run(c, events), client, key) && OneBody(Run(c, events), client, key)
  {
    forall i, j | Twins(Run(c, events), client, key, i, j)
      ensures var a, b := Run(c, events).calls[i], Run(c, events).calls[j];
        && !(FromProvider(a) && FromProvider(b))
        && (Carried(a).Some? && Carried(b).Some? ==> Carried(a) == Carried(b))
    {
      AtMostOneFreshSuccess(c, events, i, j);
      SameBodyForSameKey(c, events, i, j);
    }
  }

  ghost predicate AlwaysGuarantees(c: Config, events: seq<Event>, client: string, key: string) {
    forall longer :: Continues(c, events, longer) ==>
      ServedOnce(Run(c, longer), client, key) && OneBody(Run(c, longer), client, key)
  }

  /**
   In any run so far undisturbed, the record of a client's key may expire now without harm, whatever
   happens next, if and only if no call under it owns it or has succeeded under it.
   */
  lemma {:induction false} MayExpireExactlyWhenUnclaimed(c: Config, events: seq<Event>, client: string, key: string)
    requires CodecOk(c.codec) && Possible(c, events) && key != "" && NUL !in key
    requires Undisturbed(c, ScopedKey(c.codec, client, key), events)
    requires ScopedKey(c.codec, client, key) in Run(c, events).records
    ensures Unclaimed(c, ScopedKey(c.codec, client, key), Run(c, events))
       <==> AlwaysGuarantees(c, events + [ExpireRecord(ScopedKey(c.codec, client, key))], client, key)
  {
    var k := ScopedKey(c.codec, client, key);
    var gone := OneMore(c, events, ExpireRecord(k));
    assert gone[..|gone| - 1] == events;
    if Unclaimed(c, k, Run(c, events)) {
      forall longer | Continues(c, gone, longer)
        ensures ServedOnce(Run(c, longer), client, key) && OneBody(Run(c, longer), client, key)
      {
        StaysUndisturbed(c, k, gone, longer);
        UndisturbedKeepsGuarantee(c, longer, client, key);
      }
    } else {
      var i :| i in Run(c, events).calls && Under(c, k, Run(c, events).calls[i])
        && (Owner(Run(c, events).calls[i]) || Carried(Run(c, events).calls[i]).Some?);
      var call := Run(c, events).calls[i];
      RunCallsOk(c, events);
      assert CallOk(c, call);
      ScopedKeyIsInjective(c.codec, call.client, call.key, client, key);
      var longer := ClaimedExpiryBreaks(c, events, i);
      assert Continues(c, gone, longer);
    }
  }
}
