/**
 What a call's outcome says about its path.  The path is read off the run alone: the request as it
 arrived, the limiter's verdict, what became of its reservation, whether it looked in the cache,
 what the provider said, and whether it then cached, completed or released.
 */
module GatewayPaths {
  import opened Results
  import opened Keys
  import opened Gateway

  datatype Path = Path(
    rawKey: string,
    request: Option<Request>,
    limit: Option<Verdict>,
    reservation: Option<Effect>,
    looked: bool,
    answer: Option<Option<Response>>,
    cached: bool,
    completed: bool,
    released: bool)

  const NoPath := Path("", None, None, None, false, None, false, false, false)

  /** What one more event adds to the path of call `id`. */
  function Along(path: Path, id: nat, e: Event): Path {
    match e
    case Arrive(i, _, rawKey, request) => if i == id then NoPath.(rawKey := rawKey, request := Some(request)) else path
    case Limit(i, verdict) => if i == id then path.(limit := Some(verdict)) else path
    case Begin(i, effect) => if i == id then path.(reservation := Some(effect)) else path
    case Lookup(i, _) => if i == id then path.(looked := true) else path
    case Ask(i, result) => if i == id then path.(answer := Some(result)) else path
    case Store(i, _) => if i == id then path.(cached := true) else path
    case Complete(i, _) => if i == id then path.(completed := true) else path
    case Release(i, _) => if i == id then path.(released := true) else path
    case _ => path
  }

  ghost function PathOf(events: seq<Event>, id: nat): Path {
    if events == [] then NoPath else Along(PathOf(events[..|events| - 1], id), id, events[|events| - 1])
  }

  /** What a call has come to, once that is settled. */
  function OutcomeOf(call: Call): Option<Outcome> {
    match call.step
    case Completing(outcome, _) => Some(outcome)
    case Recording(outcome) => Some(outcome)
    case Returned(outcome) => Some(outcome)
    case _ => None
  }

  predicate FailedWith(call: Call, reason: Reason) {
    OutcomeOf(call) == Some(Failure(reason))
  }

  /** The limiter stopped this call: it said no, or could not be asked and the gateway does not fail open. */
  predicate TurnedAway(c: Config, path: Path) {
    path.limit == Some(Denied) || (path.limit == Some(Unreachable) && !c.failOpen)
  }

  /** A malformed call fails at once and goes nowhere; any other first waits for the limiter. */
  ghost predicate ArrivalOk(path: Path, call: Call) {
    && path.request == Some(call.request)
    && (FailedWith(call, Invalid) <==> NormalizeKey(path.rawKey).Err? || call.request.stream)
    && (FailedWith(call, Invalid) ==> path.limit.None?)
    && (call.step.Limiting? <==> path.limit.None? && !FailedWith(call, Invalid))
    && (NormalizeKey(path.rawKey).Ok? ==> call.key == NormalizeKey(path.rawKey).value)
  }

  /** A call the limiter stopped fails for that reason, and touches neither store nor provider; no other does. */
  ghost predicate LimitOk(c: Config, path: Path, call: Call) {
    && (FailedWith(call, RateLimited) <==> path.limit == Some(Denied))
    && (path.limit == Some(Unreachable) && !c.failOpen ==> FailedWith(call, Dependency))
    && (path.limit.None? || TurnedAway(c, path) ==> path.reservation.None? && !path.looked && path.answer.None?)
  }

  /** A call with a key goes by way of the idempotency store, and only such a call; it fails if that fails. */
  ghost predicate ReservationOk(c: Config, path: Path, call: Call) {
    && (path.reservation.Some? ==> Keyed(call))
    && (call.step.Beginning? <==>
          path.limit.Some? && !TurnedAway(c, path) && Keyed(call) && path.reservation.None?)
    && (FailedWith(call, Dependency) <==>
          || (path.limit == Some(Unreachable) && !c.failOpen)
          || (path.reservation.Some? && (path.reservation != Some(Applied) || !c.hasIdempotency)))
    && (call.acquired ==> path.reservation == Some(Applied))
    && (path.looked ==> !Keyed(call) || call.acquired)
  }

  /** Only a call that looked in the cache asks the provider; what it comes to is what the provider said. */
  ghost predicate AnswerOk(path: Path, call: Call) {
    && (path.answer.Some? ==> path.looked)
    && (call.step.Asking? ==> path.looked && path.answer.None?)
    && (call.step.Looking? ==> !path.looked)
    && (path.answer == Some(None) <==> call.step.Releasing? || FailedWith(call, Upstream))
    && (FromProvider(call) <==> path.answer.Some? && path.answer.value.Some?)
    && (FromProvider(call) ==> Carried(call) == Some(path.answer.value.value.body))
    && (path.looked && path.answer.None? && !call.step.Asking? ==>
          OutcomeOf(call).Some? && OutcomeOf(call).value.Success? && OutcomeOf(call).value.source.Hit?)
  }

  /**
   A fresh answer to a request for a whole answer at temperature zero goes to the cache, and nothing
   else does; whoever acquired its key completes it with its success, or releases it when the
   provider failed it, and nobody else does either.
   */
  ghost predicate StoresOk(c: Config, path: Path, call: Call) {
    && (path.cached <==>
          && FromProvider(call) && !call.step.Storing?
          && c.hasCache && call.request.temperature.Some? && IsZero(call.request.temperature.value))
    && (call.step.Storing? ==>
          c.hasCache && call.request.temperature.Some? && IsZero(call.request.temperature.value))
    && (path.completed <==> call.acquired && Carried(call).Some? && (call.step.Recording? || call.step.Returned?))
    && (path.released <==> call.acquired && FailedWith(call, Upstream))
  }

  /** A call that returns without a usage record: it was malformed, or the store failed it. */
  ghost predicate Unrecorded(path: Path, call: Call) {
    || FailedWith(call, Invalid) || FailedWith(call, Corrupt)
    || (FailedWith(call, Dependency) && path.reservation.Some?)
  }

  /** Every other call makes exactly one record, when it returns. */
  ghost predicate RecordOk(path: Path, call: Call) {
    && (call.step.Recording? ==> !Unrecorded(path, call))
    && call.records == if call.step.Returned? && !Unrecorded(path, call) then 1 else 0
  }

  ghost predicate PathOk(c: Config, path: Path, call: Call) {
    && ArrivalOk(path, call) && LimitOk(c, path, call) && ReservationOk(c, path, call)
    && AnswerOk(path, call) && StoresOk(c, path, call)
  }

  lemma {:induction false} ArriveOnPath(c: Config, s: State, e: Event, path: Path)
    requires Enabled(s, e) && e.Arrive?
    ensures e.id in Next(c, s, e).calls && PathOk(c, Along(path, e.id, e), Next(c, s, e).calls[e.id])
  {
  }

  lemma {:induction false} LimitOnPath(c: Config, s: State, e: Event, path: Path)
    requires Enabled(s, e) && e.Limit? && PathOk(c, path, s.calls[e.id]) && CallOk(c, s.calls[e.id])
    ensures e.id in Next(c, s, e).calls && PathOk(c, Along(path, e.id, e), Next(c, s, e).calls[e.id])
  {
  }

  lemma {:induction false} BeginOnPath(c: Config, s: State, e: Event, path: Path)
    requires Enabled(s, e) && e.Begin? && PathOk(c, path, s.calls[e.id]) && CallOk(c, s.calls[e.id])
    ensures e.id in Next(c, s, e).calls && PathOk(c, Along(path, e.id, e), Next(c, s, e).calls[e.id])
  {
  }

  lemma {:induction false} LookupOnPath(c: Config, s: State, e: Event, path: Path)
    requires Enabled(s, e) && e.Lookup? && PathOk(c, path, s.calls[e.id]) && CallOk(c, s.calls[e.id])
    ensures e.id in Next(c, s, e).calls && PathOk(c, Along(path, e.id, e), Next(c, s, e).calls[e.id])
  {
  }

  lemma {:induction false} AskOnPath(c: Config, s: State, e: Event, path: Path)
    requires Enabled(s, e) && e.Ask? && PathOk(c, path, s.calls[e.id]) && CallOk(c, s.calls[e.id])
    ensures e.id in Next(c, s, e).calls && PathOk(c, Along(path, e.id, e), Next(c, s, e).calls[e.id])
  {
  }

  lemma {:induction false} SavingOnPath(c: Config, s: State, e: Event, path: Path)
    requires Enabled(s, e) && (e.Store? || e.Complete?)
    requires PathOk(c, path, s.calls[e.id]) && CallOk(c, s.calls[e.id])
    ensures e.id in Next(c, s, e).calls && PathOk(c, Along(path, e.id, e), Next(c, s, e).calls[e.id])
  {
  }

  lemma {:induction false} RestOnPath(c: Config, s: State, e: Event, path: Path)
    requires Enabled(s, e) && (e.Release? || e.Meter?)
    requires PathOk(c, path, s.calls[e.id]) && CallOk(c, s.calls[e.id])
    ensures e.id in Next(c, s, e).calls && PathOk(c, Along(path, e.id, e), Next(c, s, e).calls[e.id])
  {
  }

  lemma {:induction false} MovedOnPath(c: Config, s: State, e: Event, path: Path)
    requires Enabled(s, e) && OfOneCall(e)
    requires e.id in s.calls ==> PathOk(c, path, s.calls[e.id]) && CallOk(c, s.calls[e.id])
    ensures e.id in Next(c, s, e).calls && PathOk(c, Along(path, e.id, e), Next(c, s, e).calls[e.id])
  {
    match e
    case Arrive(_, _, _, _) => ArriveOnPath(c, s, e, path);
    case Limit(_, _) => LimitOnPath(c, s, e, path);
    case Begin(_, _) => BeginOnPath(c, s, e, path);
    case Lookup(_, _) => LookupOnPath(c, s, e, path);
    case Ask(_, _) => AskOnPath(c, s, e, path);
    case Store(_, _) => SavingOnPath(c, s, e, path);
    case Complete(_, _) => SavingOnPath(c, s, e, path);
    case _ => RestOnPath(c, s, e, path);
  }

  /**
   In every run each call's outcome is what its own path says.  It is invalid exactly when its key
   or mode was; rate limited exactly when the limiter said so, and then it went no further; it
   fails on a dependency exactly when the limiter or the store failed it; it fails upstream exactly
   when the provider failed it; and it is fresh, with the provider's body, exactly when the
   provider answered.
   */
  lemma {:induction false} OutcomesAreExplained(c: Config, events: seq<Event>, id: nat)
    requires CodecOk(c.codec) && Possible(c, events) && id in Run(c, events).calls
    ensures PathOk(c, PathOf(events, id), Run(c, events).calls[id])
  {
    var n := |events| - 1;
    var s, e := Run(c, events[..n]), events[n];
    RunCallsOk(c, events[..n]);
    if id in s.calls {
      OutcomesAreExplained(c, events[..n], id);
    }
    if OfOneCall(e) {
      OneCallMoves(c, s, e);
      if e.id == id {
        MovedOnPath(c, s, e, PathOf(events[..n], id));
      }
    }
  }

  lemma {:induction false} EarlyIsRecorded(c: Config, s: State, e: Event, path: Path)
    requires Enabled(s, e) && (e.Arrive? || e.Limit? || e.Begin?)
    requires e.id in s.calls ==> PathOk(c, path, s.calls[e.id]) && RecordOk(path, s.calls[e.id])
    ensures e.id in Next(c, s, e).calls && RecordOk(Along(path, e.id, e), Next(c, s, e).calls[e.id])
  {
  }

  lemma {:induction false} LateIsRecorded(c: Config, s: State, e: Event, path: Path)
    requires Enabled(s, e) && OfOneCall(e) && !(e.Arrive? || e.Limit? || e.Begin?)
    requires RecordOk(path, s.calls[e.id]) && CallOk(c, s.calls[e.id])
    ensures e.id in Next(c, s, e).calls && RecordOk(Along(path, e.id, e), Next(c, s, e).calls[e.id])
  {
  }

  /** In every run a call that has returned made one usage record, unless it was malformed or the store failed it. */
  lemma {:induction false} RecordsAreExplained(c: Config, events: seq<Event>, id: nat)
    requires CodecOk(c.codec) && Possible(c, events) && id in Run(c, events).calls
    ensures RecordOk(PathOf(events, id), Run(c, events).calls[id])
  {
    var n := |events| - 1;
    var s, e := Run(c, events[..n]), events[n];
    RunCallsOk(c, events[..n]);
    if id in s.calls {
      RecordsAreExplained(c, events[..n], id);
      OutcomesAreExplained(c, events[..n], id);
    }
    if OfOneCall(e) {
      OneCallMoves(c, s, e);
      if e.id == id && (e.Arrive? || e.Limit? || e.Begin?) {
        EarlyIsRecorded(c, s, e, PathOf(events[..n], id));
      } else if e.id == id {
        LateIsRecorded(c, s, e, PathOf(events[..n], id));
      }
    }
  }
}
