/**
 Idempotency over interleaved callers: unless its record expires under a call that owns it or has
 succeeded under it, a client's key is served by the provider at most once, and every success
 under it carries the same body.
 */
module GatewaySafety {
  import opened Results
  import opened Keys
  import opened Idempotency
  import opened Gateway

  /** The call's record is the one stored under `k`. */
  ghost predicate Under(c: Config, k: string, call: Call) {
    Keyed(call) && Scope(c, call) == k
  }

  /** An owner's reservation is open; whoever carries a body agrees with what the record holds. */
  ghost predicate Solo(c: Config, k: string, records: Records, call: Call) {
    Under(c, k, call) ==>
      && (Owner(call) ==> IsPending(records, k, Print(c, call)))
      && (Carried(call).Some? ==>
            && k in records
            && (records[k].payload.Some? ==> c.codec.decodeBody(records[k].payload.value) == Carried(call)))
  }

  /** Two calls under one key: one owner, beside whom nobody has succeeded; one original; one body. */
  ghost predicate Pair(c: Config, k: string, a: Call, b: Call) {
    Under(c, k, a) && Under(c, k, b) ==>
      && (Owner(a) ==> !Owner(b) && Carried(b).None?)
      && (Owner(b) ==> !Owner(a) && Carried(a).None?)
      && !(Original(a) && Original(b))
      && (Carried(a).Some? && Carried(b).Some? ==> Carried(a) == Carried(b))
  }

  ghost predicate Exclusive(c: Config, k: string, s: State) {
    && (forall i :: i in s.calls ==> CallOk(c, s.calls[i]) && Solo(c, k, s.records, s.calls[i]))
    && (forall i, j :: i in s.calls && j in s.calls && i != j ==> Pair(c, k, s.calls[i], s.calls[j]))
  }

  /** A step of one call: it is enough to look at that call, and at each other call beside it. */
  ghost predicate GoodMove(c: Config, k: string, s: State, t: State, id: nat) {
    && id in t.calls && t.calls == s.calls[id := t.calls[id]]
    && CallOk(c, t.calls[id]) && Solo(c, k, t.records, t.calls[id])
    && (forall j :: j in s.calls && j != id ==>
          Solo(c, k, t.records, s.calls[j]) && Pair(c, k, t.calls[id], s.calls[j]))
  }

  lemma {:induction false} GoodMoveKeeps(c: Config, k: string, s: State, t: State, id: nat)
    requires Exclusive(c, k, s) && GoodMove(c, k, s, t, id)
    ensures Exclusive(c, k, t)
  {
    forall i, j | i in t.calls && j in t.calls && i != j
      ensures Pair(c, k, t.calls[i], t.calls[j])
    {
      if i != id && j != id {
        assert Pair(c, k, s.calls[i], s.calls[j]);
      } else if j == id {
        assert Pair(c, k, t.calls[id], s.calls[i]);
      }
    }
  }

  /** The same call, with no new claim: not a new owner, no new success. */
  ghost predicate Weaker(call: Call, moved: Call) {
    && moved.client == call.client && moved.key == call.key && moved.request == call.request
    && (Owner(moved) ==> Owner(call))
    && (Original(moved) ==> Original(call))
    && (Carried(moved).Some? ==> Carried(moved) == Carried(call))
  }

  lemma {:induction false} WeakerIsGood(c: Config, k: string, s: State, t: State, id: nat)
    requires Exclusive(c, k, s) && id in s.calls && id in t.calls && t.calls == s.calls[id := t.calls[id]]
    requires t.records == s.records && Weaker(s.calls[id], t.calls[id]) && CallOk(c, t.calls[id])
    ensures GoodMove(c, k, s, t, id)
  {
    forall j | j in s.calls && j != id
      ensures Solo(c, k, t.records, s.calls[j]) && Pair(c, k, t.calls[id], s.calls[j])
    {
      assert Pair(c, k, s.calls[id], s.calls[j]);
    }
  }

  /** A call that claims nothing may join at any time. */
  lemma {:induction false} IdleIsGood(c: Config, k: string, s: State, t: State, id: nat)
    requires Exclusive(c, k, s) && id in t.calls && t.calls == s.calls[id := t.calls[id]]
    requires t.records == s.records && CallOk(c, t.calls[id])
    requires !Owner(t.calls[id]) && Carried(t.calls[id]).None? && !Original(t.calls[id])
    ensures GoodMove(c, k, s, t, id)
  {
  }

  /** An owner succeeds. */
  lemma {:induction false} WinIsGood(c: Config, k: string, s: State, t: State, id: nat)
    requires Exclusive(c, k, s) && id in s.calls && id in t.calls && t.calls == s.calls[id := t.calls[id]]
    requires t.records == s.records && CallOk(c, t.calls[id])
    requires var call, moved := s.calls[id], t.calls[id];
      && moved.client == call.client && moved.key == call.key && moved.request == call.request
      && (Keyed(call) ==> Owner(call) && Owner(moved))
    ensures GoodMove(c, k, s, t, id)
  {
    forall j | j in s.calls && j != id
      ensures Solo(c, k, t.records, s.calls[j]) && Pair(c, k, t.calls[id], s.calls[j])
    {
      assert Pair(c, k, s.calls[id], s.calls[j]);
      assert Original(s.calls[j]) ==> Carried(s.calls[j]).Some?;
    }
  }

  /** A reservation is made where there was no record: nobody there owns or carries anything. */
  lemma {:induction false} ClaimIsGood(c: Config, k: string, s: State, t: State, id: nat)
    requires Exclusive(c, k, s) && id in s.calls && id in t.calls && t.calls == s.calls[id := t.calls[id]]
    requires CallOk(c, t.calls[id]) && Carried(t.calls[id]).None? && !Original(t.calls[id])
    requires var moved := t.calls[id];
      Scope(c, moved) !in s.records && t.records == s.records[Scope(c, moved) := Record(Print(c, moved), None)]
    ensures GoodMove(c, k, s, t, id)
  {
    forall j | j in s.calls && j != id
      ensures Solo(c, k, t.records, s.calls[j]) && Pair(c, k, t.calls[id], s.calls[j])
    {
      assert Solo(c, k, s.records, s.calls[j]);
      assert Original(s.calls[j]) ==> Carried(s.calls[j]).Some?;
    }
  }

  /** A replay hands out the body the completed record holds. */
  lemma {:induction false} ReplayIsGood(c: Config, k: string, s: State, t: State, id: nat)
    requires Exclusive(c, k, s) && id in s.calls && id in t.calls && t.calls == s.calls[id := t.calls[id]]
    requires t.records == s.records && CallOk(c, t.calls[id])
    requires var moved := t.calls[id];
      && !Owner(moved) && !Original(moved) && Carried(moved).Some?
      && Scope(c, moved) in s.records && s.records[Scope(c, moved)].payload.Some?
      && c.codec.decodeBody(s.records[Scope(c, moved)].payload.value) == Carried(moved)
    ensures GoodMove(c, k, s, t, id)
  {
    forall j | j in s.calls && j != id
      ensures Solo(c, k, t.records, s.calls[j]) && Pair(c, k, t.calls[id], s.calls[j])
    {
      assert Solo(c, k, s.records, s.calls[j]);
    }
  }

  /** An owner fills its reservation. */
  lemma {:induction false} FillIsGood(c: Config, k: string, s: State, t: State, id: nat)
    requires Exclusive(c, k, s) && id in s.calls && id in t.calls && t.calls == s.calls[id := t.calls[id]]
    requires s.calls[id].step.Completing? && t.calls[id] == s.calls[id].(step := Recording(s.calls[id].step.outcome))
    requires t.records
          == AfterComplete(s.records, Scope(c, s.calls[id]), Print(c, s.calls[id]), s.calls[id].step.payload)
    ensures GoodMove(c, k, s, t, id)
  {
    assert Solo(c, k, s.records, s.calls[id]) && CallOk(c, s.calls[id]);
    forall j | j in s.calls && j != id
      ensures Solo(c, k, t.records, s.calls[j]) && Pair(c, k, t.calls[id], s.calls[j])
    {
      assert Solo(c, k, s.records, s.calls[j]) && Pair(c, k, s.calls[id], s.calls[j]);
    }
  }

  /** An owner gives its reservation up. */
  lemma {:induction false} DropIsGood(c: Config, k: string, s: State, t: State, id: nat)
    requires Exclusive(c, k, s) && id in s.calls && id in t.calls && t.calls == s.calls[id := t.calls[id]]
    requires s.calls[id].step.Releasing? && t.calls[id] == s.calls[id].(step := Recording(Failure(Upstream)))
    requires t.records == AfterRelease(s.records, Scope(c, s.calls[id]), Print(c, s.calls[id]))
    ensures GoodMove(c, k, s, t, id)
  {
    assert Solo(c, k, s.records, s.calls[id]) && CallOk(c, s.calls[id]);
    forall j | j in s.calls && j != id
      ensures Solo(c, k, t.records, s.calls[j]) && Pair(c, k, t.calls[id], s.calls[j])
    {
      assert Solo(c, k, s.records, s.calls[j]) && Pair(c, k, s.calls[id], s.calls[j]);
    }
  }

  // ------------------------------------------------------------ preservation

  lemma {:induction false} ArriveIsGood(c: Config, k: string, s: State, e: Event)
    requires Exclusive(c, k, s) && Enabled(s, e) && e.Arrive?
    ensures GoodMove(c, k, s, Next(c, s, e), e.id)
  {
    IdleIsGood(c, k, s, Next(c, s, e), e.id);
  }

  lemma {:induction false} BeginIsGood(c: Config, k: string, s: State, e: Event)
    requires Exclusive(c, k, s) && Enabled(s, e) && e.Begin?
    ensures GoodMove(c, k, s, Next(c, s, e), e.id)
  {
    var t, call := Next(c, s, e), s.calls[e.id];
    assert CallOk(c, call);
    if !c.hasIdempotency || e.effect.Skipped? || (Scope(c, call) in s.records && e.effect.Lost?) {
      IdleIsGood(c, k, s, t, e.id);
    } else if Scope(c, call) !in s.records {
      ClaimIsGood(c, k, s, t, e.id);
    } else if Carried(t.calls[e.id]).Some? {
      ReplayIsGood(c, k, s, t, e.id);
    } else {
      IdleIsGood(c, k, s, t, e.id);
    }
  }

  lemma {:induction false} LookupIsGood(c: Config, k: string, s: State, e: Event)
    requires Exclusive(c, k, s) && Enabled(s, e) && e.Lookup?
    ensures GoodMove(c, k, s, Next(c, s, e), e.id)
  {
    assert CallOk(c, s.calls[e.id]);
    WinIsGood(c, k, s, Next(c, s, e), e.id);
  }

  lemma {:induction false} AskIsGood(c: Config, k: string, s: State, e: Event)
    requires CodecOk(c.codec)
    requires Exclusive(c, k, s) && Enabled(s, e) && e.Ask?
    ensures GoodMove(c, k, s, Next(c, s, e), e.id)
  {
    assert CallOk(c, s.calls[e.id]);
    WinIsGood(c, k, s, Next(c, s, e), e.id);
  }

  lemma {:induction false} StoreIsGood(c: Config, k: string, s: State, e: Event)
    requires CodecOk(c.codec)
    requires Exclusive(c, k, s) && Enabled(s, e) && e.Store?
    ensures GoodMove(c, k, s, Next(c, s, e), e.id)
  {
    assert CallOk(c, s.calls[e.id]);
    WeakerIsGood(c, k, s, Next(c, s, e), e.id);
  }

  lemma {:induction false} CompleteIsGood(c: Config, k: string, s: State, e: Event)
    requires Exclusive(c, k, s) && Enabled(s, e) && e.Complete?
    ensures GoodMove(c, k, s, Next(c, s, e), e.id)
  {
    assert CallOk(c, s.calls[e.id]);
    if e.effect.Skipped? {
      WeakerIsGood(c, k, s, Next(c, s, e), e.id);
    } else {
      FillIsGood(c, k, s, Next(c, s, e), e.id);
    }
  }

  lemma {:induction false} ReleaseIsGood(c: Config, k: string, s: State, e: Event)
    requires Exclusive(c, k, s) && Enabled(s, e) && e.Release?
    ensures GoodMove(c, k, s, Next(c, s, e), e.id)
  {
    assert CallOk(c, s.calls[e.id]);
    if e.effect.Skipped? {
      WeakerIsGood(c, k, s, Next(c, s, e), e.id);
    } else {
      DropIsGood(c, k, s, Next(c, s, e), e.id);
    }
  }

  lemma {:induction false} OtherIsGood(c: Config, k: string, s: State, e: Event)
    requires Exclusive(c, k, s) && Enabled(s, e) && (e.Limit? || e.Meter?)
    ensures GoodMove(c, k, s, Next(c, s, e), e.id)
  {
    assert CallOk(c, s.calls[e.id]);
    WeakerIsGood(c, k, s, Next(c, s, e), e.id);
  }

  lemma {:induction false} CallStepIsGood(c: Config, k: string, s: State, e: Event)
    requires CodecOk(c.codec)
    requires Exclusive(c, k, s) && Enabled(s, e) && OfOneCall(e)
    ensures GoodMove(c, k, s, Next(c, s, e), e.id)
  {
    match e
    case Arrive(_, _, _, _) => ArriveIsGood(c, k, s, e);
    case Begin(_, _) => BeginIsGood(c, k, s, e);
    case Lookup(_, _) => LookupIsGood(c, k, s, e);
    case Ask(_, _) => AskIsGood(c, k, s, e);
    case Store(_, _) => StoreIsGood(c, k, s, e);
    case Complete(_, _) => CompleteIsGood(c, k, s, e);
    case Release(_, _) => ReleaseIsGood(c, k, s, e);
    case Limit(_, _) => OtherIsGood(c, k, s, e);
    case Meter(_) => OtherIsGood(c, k, s, e);
  }

  // ------------------------------------------------------------ expiry

  /** No call under `k` owns its record or has succeeded under it. */
  ghost predicate Unclaimed(c: Config, k: string, s: State) {
    forall i :: i in s.calls && Under(c, k, s.calls[i]) ==> !Owner(s.calls[i]) && Carried(s.calls[i]).None?
  }

  /** The record of `k` may expire in this run, but only while it is unclaimed; other records may at any time. */
  ghost predicate Undisturbed(c: Config, k: string, events: seq<Event>)
    requires Possible(c, events)
    decreases |events|
  {
    events == [] ||
    (&& Undisturbed(c, k, events[..|events| - 1])
     && (events[|events| - 1] == ExpireRecord(k) ==> Unclaimed(c, k, Run(c, events[..|events| - 1]))))
  }

  lemma {:induction false} NextKeepsExclusive(c: Config, k: string, s: State, e: Event)
    requires CodecOk(c.codec) && Exclusive(c, k, s) && Enabled(s, e)
    requires e == ExpireRecord(k) ==> Unclaimed(c, k, s)
    ensures Exclusive(c, k, Next(c, s, e))
  {
    if OfOneCall(e) {
      CallStepIsGood(c, k, s, e);
      GoodMoveKeeps(c, k, s, Next(c, s, e), e.id);
    }
  }

  lemma {:induction false} RunIsExclusive(c: Config, k: string, events: seq<Event>)
    requires CodecOk(c.codec) && Possible(c, events) && Undisturbed(c, k, events)
    ensures Exclusive(c, k, Run(c, events))
  {
    if events != [] {
      RunIsExclusive(c, k, events[..|events| - 1]);
      NextKeepsExclusive(c, k, Run(c, events[..|events| - 1]), events[|events| - 1]);
    }
  }

  // ------------------------------------------------------------ theorems

  /** Two different calls of one client under one idempotency key, whose record expired only unclaimed. */
  ghost predicate Rivals(c: Config, events: seq<Event>, i: nat, j: nat)
    requires Possible(c, events)
  {
    var calls := Run(c, events).calls;
    && i != j && i in calls && j in calls
    && Keyed(calls[i]) && calls[i].client == calls[j].client && calls[i].key == calls[j].key
    && Undisturbed(c, Scope(c, calls[i]), events)
  }

  /**
   At most one call under a client's key is ever served by the provider, whatever failures,
   releases, retries, store errors and expiries of unclaimed records come in between.
   */
  lemma {:induction false} AtMostOneFreshSuccess(c: Config, events: seq<Event>, i: nat, j: nat)
    requires CodecOk(c.codec) && Possible(c, events) && Rivals(c, events, i, j)
    ensures !(FromProvider(Run(c, events).calls[i]) && FromProvider(Run(c, events).calls[j]))
  {
    var calls := Run(c, events).calls;
    var k := Scope(c, calls[i]);
    RunIsExclusive(c, k, events);
    assert Pair(c, k, calls[i], calls[j]);
  }

  /** All successful results under a client's key carry one and the same body. */
  lemma {:induction false} SameBodyForSameKey(c: Config, events: seq<Event>, i: nat, j: nat)
    requires CodecOk(c.codec) && Possible(c, events) && Rivals(c, events, i, j)
    ensures var a, b := Run(c, events).calls[i], Run(c, events).calls[j];
      Carried(a).Some? && Carried(b).Some? ==> Carried(a) == Carried(b)
  {
    var calls := Run(c, events).calls;
    var k := Scope(c, calls[i]);
    RunIsExclusive(c, k, events);
    assert Pair(c, k, calls[i], calls[j]);
  }
}
