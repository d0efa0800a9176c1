/**
 Governed provider calls and streams, interleaved arbitrarily.  Every access to the shared
 semaphore or breaker is one atomic step; a call's retry loop touches only its own contexts
 and is one step, described by what module Retry proves of it.
 */
module Governance {
  import opened Results
  import opened BreakerSpec
  import Retry

  predicate IsRetryable(e: Retry.Failure) {
    e.isRetryable
  }

  function CircuitOutcome(error: Option<Retry.Failure>): Outcome {
    match error
    case None => Success
    case Some(e) => if e.isCircuitFailure then Failed else Ignored
  }

  /** What may end an open stream. */
  datatype End = Eof | RecvError(error: Retry.Failure) | ClosedCleanly | CloseFailed

  function EndOutcome(end: End): Outcome {
    match end
    case Eof => Success
    case RecvError(e) => CircuitOutcome(Some(e))
    case ClosedCleanly => Ignored
    case CloseFailed => Failed
  }

  datatype Kind = Chat | Stream

  /** What a call tells the router. */
  datatype Reply = Refused | GaveUp | Failing(error: Retry.Failure) | Answered

  /** Where a call stands; the name says what it does next. */
  datatype Phase =
    | Waiting
    | Slotted
    | Admitted(permit: nat)
    | Streaming(permit: nat)
    | Finishing(permit: nat, outcome: Outcome)
    | Reporting(permit: nat, outcome: Outcome)
    | Releasing
    | Ended

  /**
   One logical call and the books kept on it: slots taken and given back, breaker permits
   obtained and outcomes reported, attempt contexts handed over alive and cancelled later,
   what its retry loop did, every event that could end its stream, in order, how often it invoked
   its raw provider, and what it told the router.
   */
  datatype Call = Call(
    kind: Kind,
    phase: Phase,
    acquired: nat,
    released: nat,
    admitted: nat,
    reports: seq<Outcome>,
    handed: nat,
    dropped: nat,
    trace: Option<Retry.Trace>,
    ends: seq<End>,
    rawCalls: nat,
    reply: Option<Reply>)

  datatype Config = Config(breaker: Options, retry: Retry.Options, capacity: nat)

  datatype State = State(breaker: Spec, inFlight: nat, calls: map<nat, Call>)

  datatype Event =
    | Start(id: nat, kind: Kind)
    | GiveUp(id: nat)
    | Acquire(id: nat)
    | Admit(id: nat, now: int)
    | Attempted(id: nat, world: seq<Retry.Surroundings>, trace: Retry.Trace)
    | Ending(id: nat, end: End)
    | CancelAttempt(id: nat)
    | Conclude(id: nat, now: int)
    | Release(id: nat)
    | Watch(now: int)

  ghost predicate ConfigOk(c: Config) {
    OptionsOk(c.breaker) && Retry.OptionsOk(c.retry) && 0 < c.capacity
  }

  const Initial := State(Fresh, 0, map[])

  ghost predicate Enabled(c: Config, s: State, e: Event) {
    match e
    case Start(id, _) => id !in s.calls
    case GiveUp(id) => id in s.calls && s.calls[id].phase.Waiting?
    case Acquire(id) => id in s.calls && s.calls[id].phase.Waiting? && s.inFlight < c.capacity
    case Admit(id, _) => id in s.calls && s.calls[id].phase.Slotted?
    case Attempted(id, world, trace) =>
      && id in s.calls && s.calls[id].phase.Admitted?
      && Retry.Sound(c.retry, Some(IsRetryable), s.calls[id].kind.Stream?, trace)
      && Retry.Explained(world, trace)
    case Ending(id, _) => id in s.calls && s.calls[id].handed == 1
    case CancelAttempt(id) => id in s.calls && s.calls[id].phase.Finishing?
    case Conclude(id, _) => id in s.calls && s.calls[id].phase.Reporting?
    case Release(id) => id in s.calls && s.calls[id].phase.Releasing?
    case Watch(_) => true
  }

  ghost function Next(c: Config, s: State, e: Event): State
    requires ConfigOk(c) && Enabled(c, s, e)
  {
    match e
    case Start(id, kind) =>
      s.(calls := s.calls[id := Call(kind, Waiting, 0, 0, 0, [], 0, 0, None, [], 0, None)])
    case GiveUp(id) =>
      s.(calls := s.calls[id := s.calls[id].(phase := Ended, reply := Some(GaveUp))])
    case Acquire(id) =>
      var call := s.calls[id];
      s.(inFlight := s.inFlight + 1, calls := s.calls[id := call.(phase := Slotted, acquired := call.acquired + 1)])
    case Admit(id, now) =>
      var (breaker, permit) := Grant(c.breaker, s.breaker, now);
      var call := s.calls[id];
      var moved := match permit
        case None => call.(phase := Releasing, reply := Some(Refused))
        case Some(p) => call.(phase := Admitted(p), admitted := call.admitted + 1);
      s.(breaker := breaker, calls := s.calls[id := moved])
    case Attempted(id, _, trace) =>
      var before := s.calls[id];
      var call := before.(trace := Some(trace), rawCalls := before.rawCalls + |trace.attempts|,
                          reply := Some(match trace.result
                                        case None => Answered
                                        case Some(error) => Failing(error)));
      var moved :=
        if trace.retained then call.(phase := Streaming(call.phase.permit), handed := call.handed + 1)
        else call.(phase := Reporting(call.phase.permit, CircuitOutcome(trace.result)));
      s.(calls := s.calls[id := moved])
    case Ending(id, end) =>
      var call := s.calls[id].(ends := s.calls[id].ends + [end]);
      var moved :=
        if call.phase.Streaming? then call.(phase := Finishing(call.phase.permit, EndOutcome(end))) else call;
      s.(calls := s.calls[id := moved])
    case CancelAttempt(id) =>
      var call := s.calls[id];
      var moved := call.(phase := Reporting(call.phase.permit, call.phase.outcome), dropped := call.dropped + 1);
      s.(calls := s.calls[id := moved])
    case Conclude(id, now) =>
      var call := s.calls[id];
      s.(breaker := Settle(c.breaker, s.breaker, call.phase.permit, call.phase.outcome, now),
         calls := s.calls[id := call.(phase := Releasing, reports := call.reports + [call.phase.outcome])])
    case Release(id) =>
      var call := s.calls[id];
      s.(inFlight := if s.inFlight > 0 then s.inFlight - 1 else 0,
         calls := s.calls[id := call.(phase := Ended, released := call.released + 1)])
    case Watch(now) =>
      s.(breaker := Advance(c.breaker, s.breaker, now))
  }

  ghost predicate Possible(c: Config, events: seq<Event>)
    requires ConfigOk(c)
    decreases |events|, 0
  {
    events == [] ||
    (Possible(c, events[..|events| - 1]) && Enabled(c, Run(c, events[..|events| - 1]), events[|events| - 1]))
  }

  ghost function Run(c: Config, events: seq<Event>): State
    requires ConfigOk(c) && Possible(c, events)
    decreases |events|, 1
  {
    if events == [] then Initial
    else Next(c, Run(c, events[..|events| - 1]), events[|events| - 1])
  }

  // ------------------------------------------------------------ the books

  predicate Holds(phase: Phase) {
    !phase.Waiting? && !phase.Ended?
  }

  predicate HasPermit(phase: Phase) {
    phase.Admitted? || phase.Streaming? || phase.Finishing? || phase.Reporting?
  }

  /** The calls that occupy a semaphore slot. */
  ghost function Holders(s: State): set<nat> {
    set id | id in s.calls && Holds(s.calls[id].phase)
  }

  ghost predicate BooksBalance(call: Call) {
    && call.acquired <= 1 && call.admitted <= call.acquired && call.handed <= call.admitted
    && call.released == (if call.phase.Ended? then call.acquired else 0)
    && (Holds(call.phase) ==> call.acquired == 1)
    && (HasPermit(call.phase) ==> call.admitted == 1)
    && call.dropped == (if call.phase.Streaming? || call.phase.Finishing? then 0 else call.handed)
    && (call.handed == 0 ==> call.ends == [])
    && (call.handed == 1 ==> call.trace.Some? && (call.phase.Streaming? <==> call.ends == []))
    && (call.trace.Some? <==> call.admitted == 1 && !call.phase.Admitted?)
    && ReportsMatch(call)
    && ReplyMatches(call)
  }

  /** Only a permit leads to the raw provider, and a call without one says so. */
  ghost predicate ReplyMatches(call: Call) {
    && (call.reply.None? <==> call.phase.Waiting? || call.phase.Slotted? || call.phase.Admitted?)
    && (call.admitted == 0 ==> call.rawCalls == 0)
    && (call.reply == Some(GaveUp) <==> call.phase.Ended? && call.acquired == 0)
    && (call.reply == Some(Refused) <==>
          (call.phase.Releasing? || call.phase.Ended?) && call.acquired == 1 && call.admitted == 0)
    && (call.reply == Some(Answered) ==> 1 <= call.rawCalls)
    && (call.reply == Some(Answered) <==> call.trace.Some? && call.trace.value.result.None?)
    && (call.reply.Some? && call.reply.value.Failing? <==> call.trace.Some? && call.trace.value.result.Some?)
    && (call.reply.Some? && call.reply.value.Failing? ==>
          call.trace.value.result == Some(call.reply.value.error))
  }

  /**
   The one outcome a call owes the breaker.  A stream that was handed over owes what its first ending
   says: failure for a receive error that counts against the provider or a failed close, success for
   its end, nothing otherwise.  Any other call owes what its retry loop's result says.
   */
  ghost predicate Owes(call: Call, outcome: Outcome) {
    if call.handed == 1 then
      && call.ends != []
      && (outcome == Failed <==>
            || call.ends[0].CloseFailed?
            || (call.ends[0].RecvError? && call.ends[0].error.isCircuitFailure))
      && (outcome == Success <==> call.ends[0].Eof?)
    else
      && call.trace.Some?
      && (outcome == Failed <==> call.trace.value.result.Some? && call.trace.value.result.value.isCircuitFailure)
      && (outcome == Success <==> call.trace.value.result.None?)
  }

  ghost predicate ReportsMatch(call: Call) {
    match call.phase
    case Waiting => call.acquired == 0 && call.reports == []
    case Slotted => call.admitted == 0 && call.reports == []
    case Admitted(_) => call.handed == 0 && call.reports == []
    case Streaming(_) => call.handed == 1 && call.reports == []
    case Finishing(_, outcome) => call.handed == 1 && call.reports == [] && Owes(call, outcome)
    case Reporting(_, outcome) => call.reports == [] && Owes(call, outcome)
    case Releasing => Settled(call)
    case Ended => Settled(call)
  }

  ghost predicate Settled(call: Call) {
    if call.admitted == 0 then call.reports == []
    else |call.reports| == 1 && Owes(call, call.reports[0])
  }

  ghost predicate Invariant(c: Config, s: State)
    requires ConfigOk(c)
  {
    && BreakerSpec.Invariant(c.breaker, s.breaker)
    && s.inFlight == |Holders(s)| <= c.capacity
    && (forall id :: id in s.calls ==> BooksBalance(s.calls[id]))
    && PermitsTraced(s)
  }

  /** Permits in hand were issued, no two calls share one, and every live permit is in some hand. */
  ghost predicate PermitsTraced(s: State) {
    && (forall id :: id in s.calls && HasPermit(s.calls[id].phase) ==> s.calls[id].phase.permit < s.breaker.issued)
    && (forall i, j :: i in s.calls && j in s.calls && i != j
          && HasPermit(s.calls[i].phase) && HasPermit(s.calls[j].phase)
          ==> s.calls[i].phase.permit != s.calls[j].phase.permit)
    && (forall p :: p in s.breaker.live ==>
          exists id :: id in s.calls && HasPermit(s.calls[id].phase) && s.calls[id].phase.permit == p)
  }

  // ------------------------------------------------------------ preservation

  lemma {:induction false} HoldersUpdate(s: State, t: State, id: nat, call: Call)
    requires t.calls == s.calls[id := call]
    ensures Holders(t) == (if Holds(call.phase) then Holders(s) + {id} else Holders(s) - {id})
  {
  }

  predicate BeforeProvider(e: Event) {
    e.Start? || e.GiveUp? || e.Acquire? || e.Admit?
  }

  lemma {:induction false} EarlyMoveBalances(c: Config, s: State, e: Event)
    requires ConfigOk(c) && Enabled(c, s, e) && BeforeProvider(e)
    requires e.id in s.calls ==> BooksBalance(s.calls[e.id])
    ensures e.id in Next(c, s, e).calls && BooksBalance(Next(c, s, e).calls[e.id])
  {
  }

  lemma {:induction false} LateMoveBalances(c: Config, s: State, e: Event)
    requires ConfigOk(c) && Enabled(c, s, e) && !e.Watch? && !BeforeProvider(e)
    requires e.id in s.calls ==> BooksBalance(s.calls[e.id])
    ensures e.id in Next(c, s, e).calls && BooksBalance(Next(c, s, e).calls[e.id])
  {
  }

  lemma {:induction false} MovedCallBalances(c: Config, s: State, e: Event)
    requires ConfigOk(c) && Enabled(c, s, e) && !e.Watch?
    requires e.id in s.calls ==> BooksBalance(s.calls[e.id])
    ensures e.id in Next(c, s, e).calls && BooksBalance(Next(c, s, e).calls[e.id])
    ensures Next(c, s, e).calls == s.calls[e.id := Next(c, s, e).calls[e.id]]
  {
    if BeforeProvider(e) {
      EarlyMoveBalances(c, s, e);
    } else {
      LateMoveBalances(c, s, e);
    }
  }

  lemma {:induction false} NextKeepsBooks(c: Config, s: State, e: Event)
    requires ConfigOk(c) && Enabled(c, s, e)
    requires forall id :: id in s.calls ==> BooksBalance(s.calls[id])
    ensures forall id :: id in Next(c, s, e).calls ==> BooksBalance(Next(c, s, e).calls[id])
  {
    if !e.Watch? {
      MovedCallBalances(c, s, e);
    }
  }

  /** Whether a call occupies a slot, as a number. */
  ghost function Slots(s: State, id: nat): int {
    if id in s.calls && Holds(s.calls[id].phase) then 1 else 0
  }

  lemma {:induction false} OneCallMoves(c: Config, s: State, e: Event)
    requires ConfigOk(c) && Enabled(c, s, e) && !e.Watch?
    requires 0 < s.inFlight || e.id !in s.calls || !Holds(s.calls[e.id].phase)
    ensures e.id in Next(c, s, e).calls
    ensures Next(c, s, e).calls == s.calls[e.id := Next(c, s, e).calls[e.id]]
    ensures Next(c, s, e).inFlight == s.inFlight + Slots(Next(c, s, e), e.id) - Slots(s, e.id)
    ensures Next(c, s, e).inFlight > s.inFlight ==> s.inFlight < c.capacity
  {
  }

  lemma {:induction false} NextKeepsSlots(c: Config, s: State, e: Event)
    requires ConfigOk(c) && Enabled(c, s, e)
    requires s.inFlight == |Holders(s)| <= c.capacity
    ensures Next(c, s, e).inFlight == |Holders(Next(c, s, e))| <= c.capacity
  {
    var t := Next(c, s, e);
    if e.Watch? {
      assert Holders(t) == Holders(s);
    } else {
      assert e.id in Holders(s) <==> Slots(s, e.id) == 1;
      OneCallMoves(c, s, e);
      HoldersUpdate(s, t, e.id, t.calls[e.id]);
    }
  }

  /** How one call's step may touch permits: keep its own, get a new one, or spend it. */
  ghost predicate PermitStep(s: State, t: State, id: nat) {
    && id in t.calls && t.calls == s.calls[id := t.calls[id]]
    && s.breaker.issued <= t.breaker.issued
    && (HasPermit(t.calls[id].phase) ==>
          || (id in s.calls && HasPermit(s.calls[id].phase) && t.calls[id].phase.permit == s.calls[id].phase.permit)
          || s.breaker.issued == t.calls[id].phase.permit < t.breaker.issued)
    && (forall p :: p in t.breaker.live ==>
          || (HasPermit(t.calls[id].phase) && t.calls[id].phase.permit == p)
          || (p in s.breaker.live && !(id in s.calls && HasPermit(s.calls[id].phase) && s.calls[id].phase.permit == p)))
  }

  lemma {:induction false} NextIsPermitStep(c: Config, s: State, e: Event)
    requires ConfigOk(c) && Enabled(c, s, e) && !e.Watch?
    ensures PermitStep(s, Next(c, s, e), e.id)
  {
  }

  lemma {:induction false} PermitStepKeepsTraces(s: State, t: State, id: nat)
    requires PermitsTraced(s) && PermitStep(s, t, id)
    ensures PermitsTraced(t)
  {
    forall p | p in t.breaker.live
      ensures exists i :: i in t.calls && HasPermit(t.calls[i].phase) && t.calls[i].phase.permit == p
    {
      if !(HasPermit(t.calls[id].phase) && t.calls[id].phase.permit == p) {
        var i :| i in s.calls && HasPermit(s.calls[i].phase) && s.calls[i].phase.permit == p;
        assert i in t.calls && t.calls[i] == s.calls[i];
      }
    }
  }

  lemma {:induction false} NextKeepsPermits(c: Config, s: State, e: Event)
    requires ConfigOk(c) && Enabled(c, s, e) && PermitsTraced(s)
    ensures PermitsTraced(Next(c, s, e))
  {
    if !e.Watch? {
      NextIsPermitStep(c, s, e);
      PermitStepKeepsTraces(s, Next(c, s, e), e.id);
    }
  }

  lemma {:induction false} NextKeepsBreaker(c: Config, s: State, e: Event)
    requires ConfigOk(c) && Invariant(c, s) && Enabled(c, s, e)
    ensures BreakerSpec.Invariant(c.breaker, Next(c, s, e).breaker)
  {
    match e
    case Admit(_, now) => BreakerSpec.NextKeepsInvariant(c.breaker, s.breaker, Asked(now));
    case Conclude(id, now) =>
      var reported := Reported(s.calls[id].phase.permit, s.calls[id].phase.outcome, now);
      BreakerSpec.NextKeepsInvariant(c.breaker, s.breaker, reported);
    case Watch(now) => BreakerSpec.NextKeepsInvariant(c.breaker, s.breaker, Observed(now));
    case _ =>
  }

  lemma {:induction false} RunInvariant(c: Config, events: seq<Event>)
    requires ConfigOk(c) && Possible(c, events)
    ensures Invariant(c, Run(c, events))
  {
    if events == [] {
      BreakerSpec.RunInvariant(c.breaker, []);
      assert Holders(Initial) == {};
    } else {
      var s, e := Run(c, events[..|events| - 1]), events[|events| - 1];
      RunInvariant(c, events[..|events| - 1]);
      NextKeepsBreaker(c, s, e);
      NextKeepsSlots(c, s, e);
      NextKeepsBooks(c, s, e);
      NextKeepsPermits(c, s, e);
    }
  }

  // ------------------------------------------------------------ theorems

  /**
   In every interleaving the semaphore's count is exactly the number of calls holding a slot
   (calls under way plus unfinished streams), and never exceeds the capacity.
   */
  lemma {:induction false} SlotConservation(c: Config, events: seq<Event>)
    requires ConfigOk(c) && Possible(c, events)
    ensures Run(c, events).inFlight == |Holders(Run(c, events))| <= c.capacity
  {
    RunInvariant(c, events);
  }

  /**
   When a call has ended it has given back every slot it took, exactly once; reported exactly one
   outcome for the permit it got, and none without one; and cancelled the context it was handed,
   exactly once.  The outcome is that of the stream's FIRST ending, or of the retry loop.
   */
  lemma {:induction false} EndedCallIsSettled(c: Config, events: seq<Event>, id: nat)
    requires ConfigOk(c) && Possible(c, events)
    requires id in Run(c, events).calls && Run(c, events).calls[id].phase.Ended?
    ensures var call := Run(c, events).calls[id];
      && call.released == call.acquired <= 1
      && |call.reports| == call.admitted <= 1
      && call.dropped == call.handed <= 1
      && (forall k :: 0 <= k < |call.reports| ==> Owes(call, call.reports[k]))
  {
    RunInvariant(c, events);
    assert BooksBalance(Run(c, events).calls[id]);
  }

  /**
   Nothing leaks: once every call has ended, no slot is taken and no breaker permit is live, so a
   half-open breaker always admits the next probe.
   */
  lemma {:induction false} QuietMeansFree(c: Config, events: seq<Event>)
    requires ConfigOk(c) && Possible(c, events)
    requires forall id :: id in Run(c, events).calls ==> Run(c, events).calls[id].phase.Ended?
    ensures Run(c, events).inFlight == 0 && Run(c, events).breaker.live == {}
    ensures Run(c, events).breaker.mode.HalfOpen? ==> Admits(c.breaker, Run(c, events).breaker)
  {
    RunInvariant(c, events);
    assert Holders(Run(c, events)) == {};
  }

  // ------------------------------------------------------------ replies

  /**
   In every interleaving a call that got a slot is refused if and only if the breaker gave it no
   permit, and then it has not invoked its raw provider; nor has one that never got a slot.  An
   answer cost at least one invocation; it, or an error, is what the retry loop came to.
   */
  lemma {:induction false} RefusalSpendsNothing(c: Config, events: seq<Event>, id: nat)
    requires ConfigOk(c) && Possible(c, events)
    requires id in Run(c, events).calls && Run(c, events).calls[id].phase.Ended?
    ensures var call := Run(c, events).calls[id];
      && call.reply.Some?
      && (call.reply.value.GaveUp? <==> call.acquired == 0)
      && (call.reply.value.Refused? <==> call.acquired == 1 && call.admitted == 0)
      && (call.reply.value.GaveUp? || call.reply.value.Refused? ==> call.rawCalls == 0)
      && (call.reply.value.Answered? ==> 1 <= call.rawCalls)
      && (call.reply.value.Answered? <==> call.trace.Some? && call.trace.value.result.None?)
      && (call.reply.value.Failing? ==> call.trace.Some? && call.trace.value.result == Some(call.reply.value.error))
  {
    RunInvariant(c, events);
    assert BooksBalance(Run(c, events).calls[id]);
  }

  /** The trace a call carries obeys the retry policy, and its attempts are all its raw calls. */
  ghost predicate Traced(c: Config, call: Call) {
    match call.trace
    case None => call.rawCalls == 0
    case Some(trace) =>
      && call.rawCalls == |trace.attempts|
      && Retry.Sound(c.retry, Some(IsRetryable), call.kind.Stream?, trace)
  }

  lemma {:induction false} MovedCallIsTraced(c: Config, s: State, e: Event)
    requires ConfigOk(c) && Enabled(c, s, e) && !e.Watch?
    requires e.id in s.calls ==> Traced(c, s.calls[e.id]) && BooksBalance(s.calls[e.id])
    ensures e.id in Next(c, s, e).calls && Traced(c, Next(c, s, e).calls[e.id])
    ensures Next(c, s, e).calls == s.calls[e.id := Next(c, s, e).calls[e.id]]
  {
  }

  lemma {:induction false} RunIsTraced(c: Config, events: seq<Event>, id: nat)
    requires ConfigOk(c) && Possible(c, events) && id in Run(c, events).calls
    ensures Traced(c, Run(c, events).calls[id])
  {
    var s, e := Run(c, events[..|events| - 1]), events[|events| - 1];
    if id in s.calls {
      RunIsTraced(c, events[..|events| - 1], id);
    }
    if !e.Watch? {
      if e.id in s.calls {
        RunIsTraced(c, events[..|events| - 1], e.id);
        RunInvariant(c, events[..|events| - 1]);
      }
      MovedCallIsTraced(c, s, e);
    }
  }

  /**
   What a logical call can cost, in every interleaving: at most `maxAttempts` raw calls, and a
   second one only if every earlier one failed retryably; a call that failed for good at once
   made a single one.
   */
  lemma {:induction false} SpendingIsBounded(c: Config, events: seq<Event>, id: nat)
    requires ConfigOk(c) && Possible(c, events) && id in Run(c, events).calls
    ensures var call := Run(c, events).calls[id];
      && call.rawCalls <= c.retry.maxAttempts
      && (1 < call.rawCalls ==>
            && call.trace.Some? && call.rawCalls == |call.trace.value.attempts|
            && forall k :: 0 <= k < call.rawCalls - 1 ==>
                 call.trace.value.attempts[k].Some? && call.trace.value.attempts[k].value.isRetryable)
  {
    RunIsTraced(c, events, id);
  }
}
