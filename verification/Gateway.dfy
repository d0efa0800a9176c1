/**
 Many `Chat` calls and client streams at once.  Each access to the rate limiter, the idempotency records, the
 cache, the provider or the usage recorder is one atomic step of one call; between a call's
 steps any other call may run, records and cache entries may expire, and any store operation
 may fail, with or without having taken effect.
 */
module Gateway {
  import opened Results
  import opened Keys
  import opened Idempotency
  import MeteredStream
  import Text

  datatype Source = Fresh | Hit | Replay

  datatype Reason = Invalid | RateLimited | Dependency | InProgress | KeyConflict | Corrupt | Upstream

  datatype Outcome = Success(source: Source, body: Body) | Failure(reason: Reason)

  /** Where a call stands; the name says what it does next. */
  datatype Step =
    | Limiting
    | Beginning
    | Looking
    | Asking
    | Storing(body: Body)
    | Completing(outcome: Outcome, payload: string)
    | Releasing
    | Recording(outcome: Outcome)
    | Returned(outcome: Outcome)

  /** `key` is the normalized idempotency key, empty when there is none; `records` counts usage records made. */
  datatype Call = Call(client: string, key: string, request: Request, step: Step, acquired: bool, records: nat)

  /** A response the provider really gave, and the call that asked for it. */
  datatype Answer = Answer(id: nat, client: string, request: Request, body: Body)

  /** Who made a usage record. */
  datatype Origin = ByCall(id: nat) | ByStream(index: nat)

  datatype UsageRecord = UsageRecord(origin: Origin, usage: Usage)

  /** A `ChatStream` request: malformed, refused or failed at opening, or open with what happened on it so far. */
  datatype ClientStream = Malformed | Unopened | Opened(events: seq<MeteredStream.Event>)

  datatype Config = Config(codec: Codec, failOpen: bool, hasIdempotency: bool, hasCache: bool)

  datatype State = State(
    records: Records,
    cache: map<string, string>,
    calls: map<nat, Call>,
    answers: seq<Answer>,
    streams: seq<ClientStream>,
    usage: seq<UsageRecord>)

  datatype Verdict = Allowed | Denied | Unreachable

  /** What became of a store operation: done and reported, done but reported as failed, or not done. */
  datatype Effect = Applied | Lost | Skipped

  datatype Event =
    | Arrive(id: nat, client: string, rawKey: string, request: Request)
    | Limit(id: nat, verdict: Verdict)
    | Begin(id: nat, effect: Effect)
    | Lookup(id: nat, reachable: bool)
    | Ask(id: nat, result: Option<Response>)
    | Store(id: nat, effect: Effect)
    | Complete(id: nat, effect: Effect)
    | Release(id: nat, effect: Effect)
    | Meter(id: nat)
    | OpenStream(rawKey: string, request: Request, verdict: Verdict, connected: bool)
    | StreamStep(index: nat, step: MeteredStream.Event)
    | ExpireRecord(key: string)
    | ExpireCache(key: string)

  const Initial := State(map[], map[], map[], [], [], [])

  function Scope(c: Config, call: Call): string {
    ScopedKey(c.codec, call.client, call.key)
  }

  function Print(c: Config, call: Call): string {
    Fingerprint(c.codec, call.request)
  }

  predicate UsesCache(c: Config, call: Call) {
    c.hasCache && Cacheable(call.request)
  }

  function Entry(c: Config, call: Call): string {
    CacheKey(c.codec, call.client, call.request)
  }

  ghost predicate Enabled(s: State, e: Event) {
    match e
    case Arrive(id, _, _, _) => id !in s.calls
    case Limit(id, _) => id in s.calls && s.calls[id].step.Limiting?
    case Begin(id, _) => id in s.calls && s.calls[id].step.Beginning?
    case Lookup(id, _) => id in s.calls && s.calls[id].step.Looking?
    case Ask(id, _) => id in s.calls && s.calls[id].step.Asking?
    case Store(id, _) => id in s.calls && s.calls[id].step.Storing?
    case Complete(id, _) => id in s.calls && s.calls[id].step.Completing?
    case Release(id, _) => id in s.calls && s.calls[id].step.Releasing?
    case Meter(id) => id in s.calls && s.calls[id].step.Recording?
    case OpenStream(_, _, _, _) => true
    case StreamStep(index, _) => index < |s.streams| && s.streams[index].Opened?
    case ExpireRecord(key) => key in s.records
    case ExpireCache(key) => key in s.cache
  }

  // ------------------------------------------------------ one call's steps

  function Arrived(client: string, rawKey: string, request: Request): Call {
    match NormalizeKey(rawKey)
    case Err(_) => Call(client, "", request, Returned(Failure(Invalid)), false, 0)
    case Ok(key) =>
      Call(client, key, request, if request.stream then Returned(Failure(Invalid)) else Limiting, false, 0)
  }

  function Limited(c: Config, call: Call, verdict: Verdict): Call {
    if verdict.Denied? then call.(step := Recording(Failure(RateLimited)))
    else if verdict.Unreachable? && !c.failOpen then call.(step := Recording(Failure(Dependency)))
    else call.(step := if call.key == "" then Looking else Beginning)
  }

  function Begun(c: Config, call: Call, status: Status): Call {
    match status
    case Acquired => call.(step := Looking, acquired := true)
    case Pending => call.(step := Recording(Failure(InProgress)))
    case Conflict => call.(step := Recording(Failure(KeyConflict)))
    case Completed(payload) =>
      match c.codec.decodeBody(payload)
      case None => call.(step := Returned(Failure(Corrupt)))
      case Some(body) => call.(step := Recording(Success(Replay, body)))
  }

  function LookedUp(c: Config, call: Call, found: Option<string>): Call {
    match found
    case None => call.(step := Asking)
    case Some(payload) =>
      match c.codec.decodeBody(payload)
      case None => call.(step := Asking)
      case Some(body) =>
        if call.acquired then call.(step := Completing(Success(Hit, body), payload))
        else call.(step := Recording(Success(Hit, body)))
  }

  /** What a call does with a fresh body once the cache has been dealt with. */
  function AfterCaching(c: Config, call: Call, body: Body): Step {
    if call.acquired then Completing(Success(Fresh, body), c.codec.encodeBody(body))
    else Recording(Success(Fresh, body))
  }

  function Asked(c: Config, call: Call, result: Option<Response>): Call {
    match result
    case None => call.(step := if call.acquired then Releasing else Recording(Failure(Upstream)))
    case Some(response) =>
      call.(step := if UsesCache(c, call) then Storing(response.body) else AfterCaching(c, call, response.body))
  }

  function Consumed(outcome: Outcome): Usage {
    if outcome.Success? && outcome.source.Fresh? then outcome.body.usage else MeteredStream.NO_USAGE
  }

  // --------------------------------------------------------- client streams

  /** Streams take no idempotency key; a limiter that refuses, or a provider that fails, leaves none open. */
  function Opening(c: Config, rawKey: string, request: Request, verdict: Verdict, connected: bool): ClientStream {
    if !request.stream || Text.TrimSpace(rawKey) != "" then Malformed
    else if verdict.Denied? || (verdict.Unreachable? && !c.failOpen) || !connected then Unopened
    else Opened([])
  }

  function OpeningRecords(stream: ClientStream, index: nat): seq<UsageRecord> {
    if stream.Unopened? then [UsageRecord(ByStream(index), MeteredStream.NO_USAGE)] else []
  }

  /** The record the metered stream makes on this step, if any. */
  ghost function StepRecords(before: seq<MeteredStream.Event>, step: MeteredStream.Event, index: nat): seq<UsageRecord>
  {
    var billed := MeteredStream.Billed(before + [step]);
    if MeteredStream.Billed(before) == [] && billed != [] then [UsageRecord(ByStream(index), billed[0].usage)] else []
  }

  ghost function Next(c: Config, s: State, e: Event): State
    requires Enabled(s, e)
  {
    match e
    case Arrive(id, client, rawKey, request) =>
      s.(calls := s.calls[id := Arrived(client, rawKey, request)])
    case Limit(id, verdict) =>
      s.(calls := s.calls[id := Limited(c, s.calls[id], verdict)])
    case Begin(id, effect) =>
      var call := s.calls[id];
      if !c.hasIdempotency then s.(calls := s.calls[id := call.(step := Returned(Failure(Dependency)))])
      else
        var records := if effect.Skipped? then s.records else AfterBegin(s.records, Scope(c, call), Print(c, call));
        var moved := if effect.Applied? then Begun(c, call, BeginStatus(s.records, Scope(c, call), Print(c, call)))
                     else call.(step := Returned(Failure(Dependency)));
        s.(records := records, calls := s.calls[id := moved])
    case Lookup(id, reachable) =>
      var call := s.calls[id];
      var found := if UsesCache(c, call) && reachable && Entry(c, call) in s.cache
                   then Some(s.cache[Entry(c, call)]) else None;
      s.(calls := s.calls[id := LookedUp(c, call, found)])
    case Ask(id, result) =>
      var call := s.calls[id];
      var answers := match result
        case None => s.answers
        case Some(response) => s.answers + [Answer(id, call.client, call.request, response.body)];
      s.(answers := answers, calls := s.calls[id := Asked(c, call, result)])
    case Store(id, effect) =>
      var call := s.calls[id];
      s.(cache := if effect.Skipped? then s.cache else s.cache[Entry(c, call) := c.codec.encodeBody(call.step.body)],
         calls := s.calls[id := call.(step := AfterCaching(c, call, call.step.body))])
    case Complete(id, effect) =>
      var call := s.calls[id];
      s.(records := if effect.Skipped? then s.records
                    else AfterComplete(s.records, Scope(c, call), Print(c, call), call.step.payload),
         calls := s.calls[id := call.(step := Recording(call.step.outcome))])
    case Release(id, effect) =>
      var call := s.calls[id];
      s.(records := if effect.Skipped? then s.records else AfterRelease(s.records, Scope(c, call), Print(c, call)),
         calls := s.calls[id := call.(step := Recording(Failure(Upstream)))])
    case Meter(id) =>
      var call := s.calls[id];
      s.(usage := s.usage + [UsageRecord(ByCall(id), Consumed(call.step.outcome))],
         calls := s.calls[id := call.(step := Returned(call.step.outcome), records := call.records + 1)])
    case OpenStream(rawKey, request, verdict, connected) =>
      var stream := Opening(c, rawKey, request, verdict, connected);
      s.(streams := s.streams + [stream], usage := s.usage + OpeningRecords(stream, |s.streams|))
    case StreamStep(index, step) =>
      var before := s.streams[index].events;
      s.(streams := s.streams[index := Opened(before + [step])], usage := s.usage + StepRecords(before, step, index))
    case ExpireRecord(key) =>
      s.(records := s.records - {key})
    case ExpireCache(key) =>
      s.(cache := s.cache - {key})
  }

  ghost predicate Possible(c: Config, events: seq<Event>)
    decreases |events|, 0
  {
    events == [] ||
    (Possible(c, events[..|events| - 1]) && Enabled(Run(c, events[..|events| - 1]), events[|events| - 1]))
  }

  ghost function Run(c: Config, events: seq<Event>): State
    requires Possible(c, events)
    decreases |events|, 1
  {
    if events == [] then Initial
    else Next(c, Run(c, events[..|events| - 1]), events[|events| - 1])
  }

  // -------------------------------------------------- what a call stands for

  /** The body a call carries from its first success on. */
  function Carried(call: Call): Option<Body> {
    match call.step
    case Storing(body) => Some(body)
    case Completing(Success(_, body), _) => Some(body)
    case Recording(Success(_, body)) => Some(body)
    case Returned(Success(_, body)) => Some(body)
    case _ => None
  }

  /** A success that did not come from the idempotency record. */
  predicate Original(call: Call) {
    match call.step
    case Storing(_) => true
    case Completing(Success(source, _), _) => !source.Replay?
    case Recording(Success(source, _)) => !source.Replay?
    case Returned(Success(source, _)) => !source.Replay?
    case _ => false
  }

  /** A success the provider was asked for. */
  predicate FromProvider(call: Call) {
    match call.step
    case Storing(_) => true
    case Completing(Success(source, _), _) => source.Fresh?
    case Recording(Success(source, _)) => source.Fresh?
    case Returned(Success(source, _)) => source.Fresh?
    case _ => false
  }

  /** A call that holds its key's reservation and will still act on it. */
  predicate Owner(call: Call) {
    && call.acquired
    && (call.step.Looking? || call.step.Asking? || call.step.Storing? || call.step.Completing? || call.step.Releasing?)
  }

  predicate Keyed(call: Call) {
    call.key != ""
  }

  /** What a call's own fields promise. */
  ghost predicate CallOk(c: Config, call: Call) {
    && NUL !in call.key
    && (call.acquired ==> Keyed(call))
    && (call.step.Looking? || call.step.Asking? || call.step.Storing? ==> call.acquired || !Keyed(call))
    && (call.step.Limiting? || call.step.Beginning? ==> !call.acquired)
    && (call.step.Beginning? ==> Keyed(call))
    && (call.step.Releasing? ==> call.acquired)
    && (call.step.Completing? ==>
          && call.acquired && call.step.outcome.Success? && !call.step.outcome.source.Replay?
          && c.codec.decodeBody(call.step.payload) == Some(call.step.outcome.body))
  }

  ghost predicate CallsOk(c: Config, s: State) {
    forall i :: i in s.calls ==> CallOk(c, s.calls[i])
  }

  predicate OfOneCall(e: Event) {
    !e.ExpireRecord? && !e.ExpireCache? && !e.OpenStream? && !e.StreamStep?
  }

  lemma {:induction false} OneCallMoves(c: Config, s: State, e: Event)
    requires Enabled(s, e) && OfOneCall(e)
    ensures e.id in Next(c, s, e).calls
    ensures Next(c, s, e).calls == s.calls[e.id := Next(c, s, e).calls[e.id]]
  {
  }

  /** A call keeps its client, key and request, and does nothing once it has returned. */
  lemma {:induction false} CallStaysItself(c: Config, s: State, e: Event)
    requires Enabled(s, e) && OfOneCall(e) && !e.Arrive?
    ensures e.id in s.calls && e.id in Next(c, s, e).calls && !s.calls[e.id].step.Returned?
    ensures var call, moved := s.calls[e.id], Next(c, s, e).calls[e.id];
      moved.client == call.client && moved.key == call.key && moved.request == call.request
  {
  }

  lemma {:induction false} MovedCallOk(c: Config, s: State, e: Event)
    requires CodecOk(c.codec) && Enabled(s, e) && OfOneCall(e)
    requires e.id in s.calls ==> CallOk(c, s.calls[e.id])
    ensures e.id in Next(c, s, e).calls && CallOk(c, Next(c, s, e).calls[e.id])
  {
  }

  lemma {:induction false} NextKeepsCallsOk(c: Config, s: State, e: Event)
    requires CodecOk(c.codec) && CallsOk(c, s) && Enabled(s, e)
    ensures CallsOk(c, Next(c, s, e))
  {
    if OfOneCall(e) {
      OneCallMoves(c, s, e);
      MovedCallOk(c, s, e);
    }
  }

  lemma {:induction false} RunCallsOk(c: Config, events: seq<Event>)
    requires CodecOk(c.codec) && Possible(c, events)
    ensures CallsOk(c, Run(c, events))
  {
    if events != [] {
      RunCallsOk(c, events[..|events| - 1]);
      NextKeepsCallsOk(c, Run(c, events[..|events| - 1]), events[|events| - 1]);
    }
  }
}
