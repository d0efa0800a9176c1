/**
 What the stores answer, from what other calls did.  An applied reservation replays the success of
 an equal request, says that one is in progress, reports a conflict with another request, or
 acquires a free key; a lookup hits exactly what was stored last.
 */
module GatewayAnswers {
  import opened Results
  import opened Keys
  import opened Idempotency
  import opened Gateway
  import opened GatewaySafety
  import opened GatewayLifetime

  // ------------------------------------------------------------ reservations

  /** A call's claim on `k`: it owns the record, or has succeeded under it. */
  ghost predicate Claims(c: Config, k: string, call: Call) {
    Under(c, k, call) && (Owner(call) || Carried(call).Some?)
  }

  /** Whoever claims `k`, its record is for that call's request. */
  ghost predicate Agrees(c: Config, k: string, records: Records, call: Call) {
    Claims(c, k, call) ==> k in records && records[k].fingerprint == Print(c, call)
  }

  /** The fingerprint of a record never changes while it is there. */
  lemma {:induction false} FingerprintStays(c: Config, k: string, s: State, e: Event)
    requires Enabled(s, e) && k in s.records && k in Next(c, s, e).records
    ensures Next(c, s, e).records[k].fingerprint == s.records[k].fingerprint
  {
  }

  /** A step that makes a claim finds, or makes, the record of its own request. */
  lemma {:induction false} NewClaimAgrees(c: Config, k: string, s: State, e: Event)
    requires Enabled(s, e) && OfOneCall(e) && (e.id in s.calls ==> CallOk(c, s.calls[e.id]))
    requires e.id in Next(c, s, e).calls && Claims(c, k, Next(c, s, e).calls[e.id])
    requires !(e.id in s.calls && Claims(c, k, s.calls[e.id]))
    ensures Agrees(c, k, Next(c, s, e).records, Next(c, s, e).calls[e.id])
  {
  }

  lemma {:induction false} NextAgrees(c: Config, k: string, s: State, e: Event)
    requires CodecOk(c.codec) && Enabled(s, e) && Exclusive(c, k, s) && Exclusive(c, k, Next(c, s, e))
    requires forall i :: i in s.calls ==> Agrees(c, k, s.records, s.calls[i])
    ensures forall i :: i in Next(c, s, e).calls ==> Agrees(c, k, Next(c, s, e).records, Next(c, s, e).calls[i])
  {
    var t := Next(c, s, e);
    forall i | i in t.calls && Claims(c, k, t.calls[i])
      ensures k in t.records && t.records[k].fingerprint == Print(c, t.calls[i])
    {
      assert Solo(c, k, t.records, t.calls[i]);
      if i in s.calls && Claims(c, k, s.calls[i]) {
        FingerprintStays(c, k, s, e);
        OldClaimIsSame(c, s, e, i);
      } else {
        NewClaimIsMoved(c, s, e, i);
        NewClaimAgrees(c, k, s, e);
      }
    }
  }

  lemma {:induction false} OldClaimIsSame(c: Config, s: State, e: Event, i: nat)
    requires Enabled(s, e) && i in s.calls && i in Next(c, s, e).calls
    ensures Next(c, s, e).calls[i].request == s.calls[i].request
  {
  }

  lemma {:induction false} NewClaimIsMoved(c: Config, s: State, e: Event, i: nat)
    requires Enabled(s, e) && i in Next(c, s, e).calls
    requires !(i in s.calls && s.calls[i] == Next(c, s, e).calls[i])
    ensures OfOneCall(e) && e.id == i
  {
  }

  /** In every undisturbed run, whoever claims a key claims it for the request its record is for. */
  lemma {:induction false} RunAgrees(c: Config, k: string, events: seq<Event>)
    requires CodecOk(c.codec) && Possible(c, events) && Undisturbed(c, k, events)
    ensures forall i :: i in Run(c, events).calls ==> Agrees(c, k, Run(c, events).records, Run(c, events).calls[i])
  {
    if events != [] {
      var n := |events| - 1;
      RunAgrees(c, k, events[..n]);
      RunIsExclusive(c, k, events[..n]);
      RunIsExclusive(c, k, events);
      NextAgrees(c, k, Run(c, events[..n]), events[n]);
    }
  }

  /** In such a run whose completions took effect, a success that gave up its key left it completed. */
  lemma {:induction false} RunIsSettled(c: Config, k: string, events: seq<Event>)
    requires CodecOk(c.codec) && Possible(c, events) && Undisturbed(c, k, events) && CompletionsStored(c, k, events)
    ensures forall i :: i in Run(c, events).calls ==> Settled(c, k, Run(c, events).records, Run(c, events).calls[i])
  {
    if events != [] {
      var n := |events| - 1;
      RunIsSettled(c, k, events[..n]);
      RunIsExclusive(c, k, events[..n]);
      NextIsSettled(c, k, Run(c, events[..n]), events[n]);
    }
  }

  lemma {:induction false} EqualPrintsEqualRequests(c: Config, a: Call, b: Call)
    requires CodecOk(c.codec)
    ensures Print(c, a) == Print(c, b) <==> a.request == b.request
  {
  }

  /**
   What an applied reservation answers, in every undisturbed run whose completions took effect.
   If another call claims the key: with an equal request, that call's very body once it has
   succeeded and settled, and "in progress" while it owns the key; with another request, a conflict.
   */
  lemma {:induction false} ReservationIsAnswered(c: Config, events: seq<Event>, id: nat, j: nat)
    requires CodecOk(c.codec) && c.hasIdempotency && Possible(c, events)
    requires id in Run(c, events).calls && Run(c, events).calls[id].step.Beginning?
    requires Keyed(Run(c, events).calls[id])
    requires Undisturbed(c, Scope(c, Run(c, events).calls[id]), events)
    requires CompletionsStored(c, Scope(c, Run(c, events).calls[id]), events)
    requires j in Run(c, events).calls && Claims(c, Scope(c, Run(c, events).calls[id]), Run(c, events).calls[j])
    ensures var s := Run(c, events);
      var call, other, t := s.calls[id], s.calls[j], Next(c, s, Begin(id, Applied));
      && t.records == s.records
      && (other.request == call.request && !Owner(other) ==>
            t.calls[id].step == Recording(Success(Replay, Carried(other).value)))
      && (other.request == call.request && Owner(other) ==> t.calls[id].step == Recording(Failure(InProgress)))
      && (other.request != call.request ==> t.calls[id].step == Recording(Failure(KeyConflict)))
  {
    var s := Run(c, events);
    var k := Scope(c, s.calls[id]);
    RunIsExclusive(c, k, events);
    RunAgrees(c, k, events);
    RunIsSettled(c, k, events);
    EqualPrintsEqualRequests(c, s.calls[id], s.calls[j]);
    assert Agrees(c, k, s.records, s.calls[j]) && Solo(c, k, s.records, s.calls[j]);
    assert Settled(c, k, s.records, s.calls[j]);
  }

  // ------------------------------------------------------------ free keys

  /** No step of a call under `k` is lost on the store: it takes effect, or, for a reservation, is known not to have. */
  ghost predicate StoreKeeps(c: Config, k: string, s: State, e: Event)
    requires Enabled(s, e)
  {
    && (e.Begin? && Under(c, k, s.calls[e.id]) ==> !e.effect.Lost?)
    && ((e.Complete? || e.Release?) && Under(c, k, s.calls[e.id]) ==> !e.effect.Skipped?)
  }

  ghost predicate Reliable(c: Config, k: string, events: seq<Event>)
    requires Possible(c, events)
    decreases |events|
  {
    events == [] ||
    var n := |events| - 1;
    Reliable(c, k, events[..n]) && StoreKeeps(c, k, Run(c, events[..n]), events[n])
  }

  ghost predicate Claimed(c: Config, k: string, s: State) {
    exists i :: i in s.calls && Claims(c, k, s.calls[i])
  }

  /** A claim stays until it is released. */
  lemma {:induction false} ClaimStays(c: Config, k: string, s: State, e: Event, i: nat)
    requires Enabled(s, e) && i in s.calls && Claims(c, k, s.calls[i]) && CallOk(c, s.calls[i])
    requires !(e.Release? && e.id == i)
    ensures i in Next(c, s, e).calls && Claims(c, k, Next(c, s, e).calls[i])
  {
  }

  /** A record that was not there is there for the call that made it. */
  lemma {:induction false} NewRecordIsClaimed(c: Config, k: string, s: State, e: Event)
    requires Enabled(s, e) && StoreKeeps(c, k, s, e) && (e.Begin? ==> CallOk(c, s.calls[e.id]))
    requires k !in s.records && k in Next(c, s, e).records
    ensures OfOneCall(e) && e.id in Next(c, s, e).calls && Claims(c, k, Next(c, s, e).calls[e.id])
  {
  }

  /** A release takes the record away. */
  lemma {:induction false} ReleaseFrees(c: Config, k: string, s: State, e: Event)
    requires Enabled(s, e) && e.Release? && StoreKeeps(c, k, s, e) && Exclusive(c, k, s)
    requires Under(c, k, s.calls[e.id])
    ensures k !in Next(c, s, e).records
  {
    assert CallOk(c, s.calls[e.id]) && Solo(c, k, s.records, s.calls[e.id]);
  }

  lemma {:induction false} NextIsClaimed(c: Config, k: string, s: State, e: Event)
    requires Enabled(s, e) && Exclusive(c, k, s) && StoreKeeps(c, k, s, e)
    requires k in s.records ==> Claimed(c, k, s)
    ensures k in Next(c, s, e).records ==> Claimed(c, k, Next(c, s, e))
  {
    var t := Next(c, s, e);
    if k in t.records && k !in s.records {
      assert e.Begin? ==> CallOk(c, s.calls[e.id]);
      NewRecordIsClaimed(c, k, s, e);
    } else if k in t.records {
      var i :| i in s.calls && Claims(c, k, s.calls[i]);
      assert CallOk(c, s.calls[i]);
      if e.Release? && e.id == i {
        ReleaseFrees(c, k, s, e);
      } else {
        ClaimStays(c, k, s, e, i);
      }
    }
  }

  /**
   In every undisturbed run of a reliable store a key's record is there if and only if some call owns
   it or has succeeded under it: failed calls leave their key free.
   */
  lemma {:induction false} RecordedExactlyWhenClaimed(c: Config, k: string, events: seq<Event>)
    requires CodecOk(c.codec) && Possible(c, events) && Undisturbed(c, k, events) && Reliable(c, k, events)
    ensures k in Run(c, events).records <==> Claimed(c, k, Run(c, events))
  {
    RunAgrees(c, k, events);
    if events != [] {
      var n := |events| - 1;
      RecordedExactlyWhenClaimed(c, k, events[..n]);
      RunIsExclusive(c, k, events[..n]);
      NextIsClaimed(c, k, Run(c, events[..n]), events[n]);
    }
  }

  /** So in such a run an applied reservation acquires the key if and only if no call claims it. */
  lemma {:induction false} AcquiresExactlyWhenUnclaimed(c: Config, events: seq<Event>, id: nat)
    requires CodecOk(c.codec) && c.hasIdempotency && Possible(c, events)
    requires id in Run(c, events).calls && Run(c, events).calls[id].step.Beginning?
    requires Keyed(Run(c, events).calls[id])
    requires Undisturbed(c, Scope(c, Run(c, events).calls[id]), events)
    requires Reliable(c, Scope(c, Run(c, events).calls[id]), events)
    ensures var s := Run(c, events);
      var moved := Next(c, s, Begin(id, Applied)).calls[id];
      && (moved.acquired <==> Unclaimed(c, Scope(c, s.calls[id]), s))
      && (moved.acquired <==> moved.step.Looking?)
  {
    var s := Run(c, events);
    RunCallsOk(c, events);
    assert CallOk(c, s.calls[id]);
    RecordedExactlyWhenClaimed(c, Scope(c, s.calls[id]), events);
  }

  // ------------------------------------------------------------ the cache

  /** What was stored last under an entry's name and not dropped since. */
  ghost function LastStored(c: Config, name: string, events: seq<Event>): Option<Body>
    requires Possible(c, events)
    decreases |events|
  {
    if events == [] then None
    else
      var n := |events| - 1;
      var s, e := Run(c, events[..n]), events[n];
      if Stores(c, name, s, e) then Some(s.calls[e.id].step.body)
      else if e == ExpireCache(name) then None
      else LastStored(c, name, events[..n])
  }

  ghost predicate Stores(c: Config, name: string, s: State, e: Event)
    requires Enabled(s, e)
  {
    e.Store? && !e.effect.Skipped? && Entry(c, s.calls[e.id]) == name
  }

  /** An entry changes only by a store under its name, or by being dropped. */
  lemma {:induction false} CacheMoves(c: Config, name: string, s: State, e: Event)
    requires Enabled(s, e)
    ensures Stores(c, name, s, e) ==>
      name in Next(c, s, e).cache && Next(c, s, e).cache[name] == c.codec.encodeBody(s.calls[e.id].step.body)
    ensures e == ExpireCache(name) ==> name !in Next(c, s, e).cache
    ensures !Stores(c, name, s, e) && e != ExpireCache(name) ==>
      && (name in Next(c, s, e).cache <==> name in s.cache)
      && (name in s.cache ==> Next(c, s, e).cache[name] == s.cache[name])
  {
  }

  /** The cache holds exactly what was stored last. */
  lemma {:induction false} CacheHoldsLastStored(c: Config, name: string, events: seq<Event>)
    requires CodecOk(c.codec) && Possible(c, events)
    ensures name in Run(c, events).cache <==> LastStored(c, name, events).Some?
    ensures name in Run(c, events).cache ==>
      c.codec.decodeBody(Run(c, events).cache[name]) == LastStored(c, name, events)
  {
    if events != [] {
      var n := |events| - 1;
      CacheHoldsLastStored(c, name, events[..n]);
      CacheMoves(c, name, Run(c, events[..n]), events[n]);
    }
  }

  /** What a hit comes to: the idempotency record is completed first, when the call owns one. */
  ghost predicate HitsWith(moved: Call, body: Body) {
    if moved.acquired then moved.step.Completing? && moved.step.outcome == Success(Hit, body)
    else moved.step == Recording(Success(Hit, body))
  }

  /**
   A lookup hits exactly when there is a cache, it can be reached, the request is one for a whole answer
   with temperature zero, and something is stored for it; and then with the body stored last.
   Otherwise the provider is asked.
   */
  lemma {:induction false} LookupHitsLastStored(c: Config, events: seq<Event>, id: nat, reachable: bool)
    requires CodecOk(c.codec) && Possible(c, events)
    requires id in Run(c, events).calls && Run(c, events).calls[id].step.Looking?
    ensures var call := Run(c, events).calls[id];
      var moved := Next(c, Run(c, events), Lookup(id, reachable)).calls[id];
      var stored := LastStored(c, Entry(c, call), events);
      if c.hasCache && reachable && stored.Some?
         && !call.request.stream && call.request.temperature.Some? && Units(call.request.temperature.value) == 0
      then HitsWith(moved, stored.value)
      else moved.step.Asking?
  {
    var call := Run(c, events).calls[id];
    CacheHoldsLastStored(c, Entry(c, call), events);
    CacheableExactlyAtZero(call.request);
  }

  // ------------------------------------------------------------ streams

  /**
   A stream opens exactly when its request asks for one and carries no idempotency key, the limiter lets
   it pass and the provider connects; a well-formed request that does not open makes one empty record.
   */
  lemma {:induction false} StreamOpensExactlyWhen(c: Config, s: State, e: Event)
    requires Enabled(s, e) && e.OpenStream?
    ensures var t := Next(c, s, e);
      var wellFormed := e.request.stream && NormalizeKey(e.rawKey) == Ok("");
      var passes := e.verdict.Allowed? || (e.verdict.Unreachable? && c.failOpen);
      && |t.streams| == |s.streams| + 1
      && (t.streams[|s.streams|].Opened? <==> wellFormed && passes && e.connected)
      && (t.usage == if wellFormed && !(passes && e.connected)
                     then s.usage + [UsageRecord(ByStream(|s.streams|), Usage(0, 0, 0))] else s.usage)
  {
  }
}
