/**
 Idempotency against the clock.  A reservation lives for the lock's time to live, a completed
 record for the result's.  If no owner takes longer than the first, and completions reach the
 store, a key is served at most once until the second has passed since its completion.
 */
module GatewayLifetime {
  import opened Results
  import opened Keys
  import opened Idempotency
  import opened Gateway
  import opened GatewaySafety
  import GatewayExpiry

  datatype Ttl = Ttl(reservation: int, completed: int)

  /** The scripts that set a time to live: the step makes the record of `k`, or changes it. */
  ghost predicate Writes(c: Config, k: string, s: State, e: Event)
    requires Enabled(s, e)
  {
    var t := Next(c, s, e);
    k in t.records && !(k in s.records && s.records[k] == t.records[k])
  }

  ghost predicate Completes(c: Config, k: string, s: State, e: Event)
    requires Enabled(s, e)
  {
    Writes(c, k, s, e) && Next(c, s, e).records[k].payload.Some?
  }

  // ------------------------------------------------------------ timed runs

  /** A possible run and the store's clock at each of its steps. */
  ghost predicate Timed(c: Config, events: seq<Event>, times: seq<int>) {
    && Possible(c, events) && |times| == |events|
    && forall m, n :: 0 <= m <= n < |times| ==> times[m] <= times[n]
  }

  /** When the record of `k` was last written. */
  ghost function WrittenAt(c: Config, k: string, events: seq<Event>, times: seq<int>): int
    requires Timed(c, events, times)
    decreases |events|
  {
    if events == [] then 0
    else
      var n := |events| - 1;
      if Writes(c, k, Run(c, events[..n]), events[n]) then times[n] else WrittenAt(c, k, events[..n], times[..n])
  }

  ghost predicate Acquires(c: Config, s: State, e: Event, i: nat)
    requires Enabled(s, e)
  {
    i in Next(c, s, e).calls && Next(c, s, e).calls[i].acquired && !(i in s.calls && s.calls[i].acquired)
  }

  /** When call `i` acquired its key. */
  ghost function AcquiredAt(c: Config, i: nat, events: seq<Event>, times: seq<int>): int
    requires Timed(c, events, times)
    decreases |events|
  {
    if events == [] then 0
    else
      var n := |events| - 1;
      if Acquires(c, Run(c, events[..n]), events[n], i) then times[n] else AcquiredAt(c, i, events[..n], times[..n])
  }

  // ------------------------------------------------------------ the conditions

  /** The store drops a record only when its time to live has passed since it was written. */
  ghost predicate OutlivesTtl(c: Config, ttl: Ttl, events: seq<Event>, times: seq<int>)
    requires Timed(c, events, times)
    decreases |events|
  {
    events == [] ||
    var n := |events| - 1;
    && OutlivesTtl(c, ttl, events[..n], times[..n])
    && (events[n].ExpireRecord? ==>
          var k := events[n].key;
          var record := Run(c, events[..n]).records[k];
          times[n] - WrittenAt(c, k, events[..n], times[..n])
          >= if record.payload.None? then ttl.reservation else ttl.completed)
  }

  /** Whenever something happens, whoever still owns `k` has owned it for less than a reservation lives. */
  ghost predicate Prompt(c: Config, ttl: Ttl, k: string, events: seq<Event>, times: seq<int>)
    requires Timed(c, events, times)
    decreases |events|
  {
    events == [] ||
    var n := |events| - 1;
    && Prompt(c, ttl, k, events[..n], times[..n])
    && OwnersWithin(c, ttl, k, events[..n], times[..n], times[n])
  }

  /** At the time `now`, whoever owns `k` has owned it for less than a reservation lives. */
  ghost predicate OwnersWithin(c: Config, ttl: Ttl, k: string, events: seq<Event>, times: seq<int>, now: int)
    requires Timed(c, events, times)
  {
    var s := Run(c, events);
    forall i :: i in s.calls && Under(c, k, s.calls[i]) && Owner(s.calls[i]) ==>
      now - AcquiredAt(c, i, events, times) < ttl.reservation
  }

  /** The completion of a call under `k` takes effect, reported or not. */
  ghost predicate CompletionsStored(c: Config, k: string, events: seq<Event>)
    requires Possible(c, events)
    decreases |events|
  {
    events == [] ||
    var n := |events| - 1;
    && CompletionsStored(c, k, events[..n])
    && (events[n].Complete? && Under(c, k, Run(c, events[..n]).calls[events[n].id]) ==> !events[n].effect.Skipped?)
  }

  /** At the time `until`, no completion of `k` in this run is as old as a completed record lives. */
  ghost predicate ResultLives(c: Config, ttl: Ttl, k: string, events: seq<Event>, times: seq<int>, until: int)
    requires Timed(c, events, times)
    decreases |events|
  {
    events == [] ||
    var n := |events| - 1;
    && ResultLives(c, ttl, k, events[..n], times[..n], until)
    && times[n] <= until
    && (Completes(c, k, Run(c, events[..n]), events[n]) ==> until < times[n] + ttl.completed)
  }

  // ------------------------------------------------------------ one step

  /** A completed record goes only by expiring. */
  lemma {:induction false} CompletedStays(c: Config, k: string, s: State, e: Event)
    requires Enabled(s, e) && k in s.records && s.records[k].payload.Some? && e != ExpireRecord(k)
    ensures k in Next(c, s, e).records && Next(c, s, e).records[k] == s.records[k]
  {
  }

  /** Whoever owns the key after the step and did not just acquire it owned it before. */
  lemma {:induction false} OwnerWasOwner(c: Config, s: State, e: Event, i: nat)
    requires Enabled(s, e) && i in Next(c, s, e).calls && Owner(Next(c, s, e).calls[i]) && !Acquires(c, s, e, i)
    requires CallsOk(c, s)
    ensures i in s.calls && Owner(s.calls[i])
    ensures s.calls[i].client == Next(c, s, e).calls[i].client && s.calls[i].key == Next(c, s, e).calls[i].key
  {
  }

  /** Acquiring a key writes its record. */
  lemma {:induction false} AcquiringWrites(c: Config, k: string, s: State, e: Event, i: nat)
    requires Enabled(s, e) && Acquires(c, s, e, i) && Under(c, k, Next(c, s, e).calls[i])
    ensures Writes(c, k, s, e)
  {
  }

  /** While a call stays owner, nobody writes its record. */
  lemma {:induction false} OwnedIsNotWritten(c: Config, k: string, s: State, e: Event, i: nat)
    requires Enabled(s, e) && Exclusive(c, k, s) && i in s.calls && Under(c, k, s.calls[i]) && Owner(s.calls[i])
    requires i in Next(c, s, e).calls && Owner(Next(c, s, e).calls[i])
    ensures !Writes(c, k, s, e)
  {
    assert Solo(c, k, s.records, s.calls[i]);
    if e.Complete? {
      assert CallOk(c, s.calls[e.id]);
      if e.id != i {
        assert Pair(c, k, s.calls[i], s.calls[e.id]);
      }
    }
  }

  /** A success that no longer owns its key left it, or found it, completed. */
  ghost predicate Settled(c: Config, k: string, records: Records, call: Call) {
    Under(c, k, call) && Carried(call).Some? && !Owner(call) ==> k in records && records[k].payload.Some?
  }

  lemma {:induction false} ReplayIsSettled(c: Config, k: string, s: State, e: Event)
    requires Enabled(s, e) && e.Begin?
    ensures Settled(c, k, Next(c, s, e).records, Next(c, s, e).calls[e.id])
  {
  }

  lemma {:induction false} CompletionIsSettled(c: Config, k: string, s: State, e: Event)
    requires Enabled(s, e) && e.Complete? && CallOk(c, s.calls[e.id]) && Solo(c, k, s.records, s.calls[e.id])
    requires Under(c, k, s.calls[e.id]) ==> !e.effect.Skipped?
    ensures Settled(c, k, Next(c, s, e).records, Next(c, s, e).calls[e.id])
  {
  }

  /** Any other step leaves a success that gave up its key as it was, and makes none. */
  lemma {:induction false} OtherWasSuccess(c: Config, s: State, e: Event)
    requires Enabled(s, e) && OfOneCall(e) && !e.Begin? && !e.Complete?
    requires e.id in s.calls ==> CallOk(c, s.calls[e.id])
    requires Keyed(Next(c, s, e).calls[e.id])
    requires Carried(Next(c, s, e).calls[e.id]).Some? && !Owner(Next(c, s, e).calls[e.id])
    ensures e.id in s.calls && Carried(s.calls[e.id]).Some? && !Owner(s.calls[e.id])
    ensures s.calls[e.id].client == Next(c, s, e).calls[e.id].client
    ensures s.calls[e.id].key == Next(c, s, e).calls[e.id].key
  {
  }

  lemma {:induction false} MovedIsSettled(c: Config, k: string, s: State, e: Event)
    requires Enabled(s, e) && Exclusive(c, k, s) && OfOneCall(e)
    requires e.id in s.calls ==> Settled(c, k, s.records, s.calls[e.id])
    requires e.Complete? && Under(c, k, s.calls[e.id]) ==> !e.effect.Skipped?
    ensures e.id in Next(c, s, e).calls && Settled(c, k, Next(c, s, e).records, Next(c, s, e).calls[e.id])
  {
    OneCallMoves(c, s, e);
    var moved := Next(c, s, e).calls[e.id];
    if e.Begin? {
      ReplayIsSettled(c, k, s, e);
    } else if e.Complete? {
      CompletionIsSettled(c, k, s, e);
    } else if Under(c, k, moved) && Carried(moved).Some? && !Owner(moved) {
      OtherWasSuccess(c, s, e);
      CompletedStays(c, k, s, e);
    }
  }

  lemma {:induction false} NextIsSettled(c: Config, k: string, s: State, e: Event)
    requires Enabled(s, e) && Exclusive(c, k, s) && (e == ExpireRecord(k) ==> Unclaimed(c, k, s))
    requires forall i :: i in s.calls ==> Settled(c, k, s.records, s.calls[i])
    requires e.Complete? && Under(c, k, s.calls[e.id]) ==> !e.effect.Skipped?
    ensures forall i :: i in Next(c, s, e).calls ==> Settled(c, k, Next(c, s, e).records, Next(c, s, e).calls[i])
  {
    if OfOneCall(e) {
      MovedIsSettled(c, k, s, e);
      OneCallMoves(c, s, e);
    }
    if k in s.records && s.records[k].payload.Some? && e != ExpireRecord(k) {
      CompletedStays(c, k, s, e);
    }
  }

  // ------------------------------------------------------------ whole runs

  /** The record of `k` was written when its owner acquired it, and its completion is still fresh at `until`. */
  ghost predicate OnTime(c: Config, ttl: Ttl, k: string, events: seq<Event>, times: seq<int>, until: int)
    requires Timed(c, events, times)
  {
    var s := Run(c, events);
    && (forall i :: i in s.calls && Under(c, k, s.calls[i]) && Owner(s.calls[i]) ==>
          AcquiredAt(c, i, events, times) == WrittenAt(c, k, events, times))
    && (forall i :: i in s.calls ==> Settled(c, k, s.records, s.calls[i]))
    && (k in s.records && s.records[k].payload.Some? ==> until < WrittenAt(c, k, events, times) + ttl.completed)
  }

  /** So when the record does expire, no call under it owns it or has succeeded under it. */
  lemma {:induction false} ExpiresUnclaimed(
      c: Config, ttl: Ttl, k: string, events: seq<Event>, times: seq<int>, now: int, until: int)
    requires Timed(c, events, times) && OnTime(c, ttl, k, events, times, until) && now <= until
    requires k in Run(c, events).records
    requires now - WrittenAt(c, k, events, times)
          >= if Run(c, events).records[k].payload.None? then ttl.reservation else ttl.completed
    requires OwnersWithin(c, ttl, k, events, times, now)
    ensures Unclaimed(c, k, Run(c, events))
  {
    var s := Run(c, events);
    forall i | i in s.calls && Under(c, k, s.calls[i])
      ensures !Owner(s.calls[i]) && Carried(s.calls[i]).None?
    {
      assert Settled(c, k, s.records, s.calls[i]);
    }
  }

  lemma {:induction false} OwnersStayOnTime(
      c: Config, ttl: Ttl, k: string, events: seq<Event>, times: seq<int>, until: int, i: nat)
    requires events != [] && Timed(c, events, times)
    requires Timed(c, events[..|events| - 1], times[..|events| - 1])
    requires OnTime(c, ttl, k, events[..|events| - 1], times[..|events| - 1], until)
    requires Exclusive(c, k, Run(c, events[..|events| - 1]))
    requires i in Run(c, events).calls && Under(c, k, Run(c, events).calls[i]) && Owner(Run(c, events).calls[i])
    ensures AcquiredAt(c, i, events, times) == WrittenAt(c, k, events, times)
  {
    var n := |events| - 1;
    var s, e := Run(c, events[..n]), events[n];
    if Acquires(c, s, e, i) {
      AcquiringWrites(c, k, s, e, i);
    } else {
      OwnerWasOwner(c, s, e, i);
      OwnedIsNotWritten(c, k, s, e, i);
    }
  }

  lemma {:induction false} TimedPrefix(c: Config, events: seq<Event>, times: seq<int>)
    requires events != [] && Timed(c, events, times)
    ensures Timed(c, events[..|events| - 1], times[..|events| - 1])
  {
  }

  lemma {:induction false} RunIsOnTime(
      c: Config, ttl: Ttl, k: string, events: seq<Event>, times: seq<int>, until: int)
    requires CodecOk(c.codec) && Timed(c, events, times) && OutlivesTtl(c, ttl, events, times)
    requires Prompt(c, ttl, k, events, times) && CompletionsStored(c, k, events)
    requires ResultLives(c, ttl, k, events, times, until)
    ensures Undisturbed(c, k, events) && OnTime(c, ttl, k, events, times, until)
    decreases |events|
  {
    if events != [] {
      var n := |events| - 1;
      var s, e := Run(c, events[..n]), events[n];
      TimedPrefix(c, events, times);
      RunIsOnTime(c, ttl, k, events[..n], times[..n], until);
      RunIsExclusive(c, k, events[..n]);
      if e == ExpireRecord(k) {
        ExpiresUnclaimed(c, ttl, k, events[..n], times[..n], times[n], until);
      }
      NextIsSettled(c, k, s, e);
      forall i | i in Run(c, events).calls && Under(c, k, Run(c, events).calls[i]) && Owner(Run(c, events).calls[i])
        ensures AcquiredAt(c, i, events, times) == WrittenAt(c, k, events, times)
      {
        OwnersStayOnTime(c, ttl, k, events, times, until, i);
      }
    }
  }

  /**
   In every timed run in which the store respects its times to live: if each owner of a client's
   key settles before its reservation can expire, and its completion takes effect, then until the
   time to live of a completed record has passed since the key's completion, the key is served by
   the provider at most once and answered with one body.
   */
  lemma {:induction false} ServedOnceWhileResultLives(
      c: Config, ttl: Ttl, client: string, key: string, events: seq<Event>, times: seq<int>, until: int)
    requires CodecOk(c.codec) && key != "" && Timed(c, events, times) && OutlivesTtl(c, ttl, events, times)
    requires Prompt(c, ttl, ScopedKey(c.codec, client, key), events, times)
    requires CompletionsStored(c, ScopedKey(c.codec, client, key), events)
    requires ResultLives(c, ttl, ScopedKey(c.codec, client, key), events, times, until)
    ensures GatewayExpiry.ServedOnce(Run(c, events), client, key)
    ensures GatewayExpiry.OneBody(Run(c, events), client, key)
  {
    RunIsOnTime(c, ttl, ScopedKey(c.codec, client, key), events, times, until);
    GatewayExpiry.UndisturbedKeepsGuarantee(c, events, client, key);
  }
}
