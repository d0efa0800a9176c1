/** The circuit breaker as built: ring buffer, counters, generations and one-shot permits. */
module CircuitBreaker {
  import opened Results
  import opened BreakerSpec

  lemma {:induction false} NextSlot(next: nat, size: nat)
    requires next < size
    ensures (next + 1) % size == if next + 1 == size then 0 else next + 1
  {
  }

  datatype State = StateClosed | StateOpen | StateHalfOpen

  class Permit {
    const breaker: Breaker
    const state: State
    const generation: nat
    ghost const id: nat
    var used: bool

    constructor (breaker: Breaker, state: State, generation: nat, ghost id: nat)
      ensures this.breaker == breaker && this.state == state && this.generation == generation
      ensures this.id == id && !used
    {
      this.breaker, this.state, this.generation, this.id := breaker, state, generation, id;
      used := false;
    }

    /** Reports the outcome at most once. */
    method Done(outcome: Outcome, now: int)
      requires breaker.Valid() && breaker.Owns(this)
      modifies breaker, `used
      ensures breaker.Valid() && breaker.permits == old(breaker.permits)
      ensures used
      ensures breaker.spec == Settle(breaker.options, old(breaker.spec), id, outcome, now)
    {
      if !used {
        NextKeepsInvariant(breaker.options, breaker.spec, Reported(id, outcome, now));
        breaker.Complete(this, outcome, now);
      }
    }
  }

  class Breaker {
    const options: Options
    var state: State
    var outcomes: seq<bool>
    var next: nat
    var failures: int
    var openedAt: int
    var halfOpenActive: int
    var halfOpenPassed: int
    var generation: nat

    ghost var spec: Spec
    ghost var permits: seq<Permit>

    ghost predicate Owns(p: Permit)
      reads this, p
    {
      p.id < |permits| && permits[p.id] == p
    }

    /** Between locked sections: the fields stand for `spec`, which keeps what every run of it keeps. */
    ghost predicate Valid()
      reads this, permits
      ensures Valid() && state == StateHalfOpen ==> 0 <= halfOpenActive <= options.halfOpenMax
    {
      Consistent() && Invariant(options, spec)
    }

    /** The fields stand for `spec`; a permit counts just when it is unused and of this generation. */
    ghost predicate Consistent()
      reads this, permits
    {
      && OptionsOk(options)
      && CountersMatch()
      && PermitsMatch()
    }

    ghost predicate CountersMatch()
      reads this
    {
      && (match spec.mode
          case Closed => state == StateClosed
          case Open(since) => state == StateOpen && openedAt == since
          case HalfOpen => state == StateHalfOpen)
      && Represents(outcomes, next, failures, options.windowSize, spec.history)
      && (state == StateHalfOpen ==> halfOpenActive == |spec.live| && halfOpenPassed == Count(spec.probes, Success))
    }

    ghost predicate PermitsMatch()
      reads this, permits
    {
      && |permits| == spec.issued
      && (forall id :: id in spec.live ==> id < |permits|)
      && (forall k :: 0 <= k < |permits| ==> permits[k].id == k && permits[k].breaker == this)
      && (forall k :: 0 <= k < |permits| ==>
            permits[k].generation <= generation && (permits[k].generation == generation ==> permits[k].state == state))
      && (forall k :: 0 <= k < |permits| ==>
            (k in spec.live <==> !permits[k].used && permits[k].generation == generation))
    }

    constructor (options: Options)
      requires OptionsOk(options)
      ensures Valid() && this.options == options && spec == Fresh && permits == []
    {
      this.options := options;
      state, outcomes, next, failures := StateClosed, [], 0, 0;
      openedAt, halfOpenActive, halfOpenPassed, generation := 0, 0, 0, 0;
      spec, permits := Fresh, [];
      new;
      RunInvariant(options, []);
    }

    method Transition(to: State, now: int)
      requires Consistent()
      modifies this
      ensures Consistent() && permits == old(permits)
      ensures spec == Enter(old(spec), match to
                                       case StateClosed => Closed
                                       case StateOpen => Open(now)
                                       case StateHalfOpen => HalfOpen)
    {
      state := to;
      generation := generation + 1;
      halfOpenActive := 0;
      halfOpenPassed := 0;
      match to {
        case StateClosed =>
          outcomes, next, failures := [], 0, 0;
        case StateOpen =>
          openedAt := now;
        case StateHalfOpen =>
      }
      spec := Enter(spec, match to
                          case StateClosed => Closed
                          case StateOpen => Open(now)
                          case StateHalfOpen => HalfOpen);
    }

    method AdvanceLocked(now: int) returns (changed: bool)
      requires Consistent()
      modifies this
      ensures Consistent() && permits == old(permits)
      ensures spec == Advance(options, old(spec), now)
      ensures changed <==> spec.mode != old(spec.mode)
    {
      if state != StateOpen || now - openedAt < options.openTimeout {
        return false;
      }
      Transition(StateHalfOpen, now);
      return true;
    }

    method Issue() returns (permit: Permit)
      requires Consistent() && Admits(options, spec)
      modifies this
      ensures Consistent() && fresh(permit) && permit.id == old(spec).issued && permits == old(permits) + [permit]
      ensures spec == old(spec).(live := old(spec).live + {old(spec).issued}, issued := old(spec).issued + 1)
    {
      if state == StateHalfOpen {
        halfOpenActive := halfOpenActive + 1;
      }
      permit := new Permit(this, state, generation, spec.issued);
      assert spec.issued !in spec.live;
      spec := spec.(live := spec.live + {spec.issued}, issued := spec.issued + 1);
      permits := permits + [permit];
    }

    method Allow(now: int) returns (permit: Permit?)
      requires Valid()
      modifies this
      ensures Valid()
      ensures spec == Grant(options, old(spec), now).0
      ensures match Grant(options, old(spec), now).1
              case None => permit == null && permits == old(permits)
              case Some(id) => permit != null && fresh(permit) && permit.id == id && permits == old(permits) + [permit]
    {
      NextKeepsInvariant(options, spec, Asked(now));
      var changed := AdvanceLocked(now);
      if state == StateOpen || (state == StateHalfOpen && halfOpenActive >= options.halfOpenMax) {
        return null;
      }
      permit := Issue();
    }

    method ReadState(now: int) returns (observed: State)
      requires Valid()
      modifies this
      ensures Valid() && permits == old(permits)
      ensures spec == Advance(options, old(spec), now) && observed == state
    {
      NextKeepsInvariant(options, spec, Observed(now));
      var changed := AdvanceLocked(now);
      observed := state;
    }

    method Available(now: int) returns (available: bool)
      requires Valid()
      modifies this
      ensures Valid() && permits == old(permits)
      ensures spec == Advance(options, old(spec), now)
      ensures available <==> Admits(options, spec)
    {
      NextKeepsInvariant(options, spec, Observed(now));
      var changed := AdvanceLocked(now);
      available := state == StateClosed || (state == StateHalfOpen && halfOpenActive < options.halfOpenMax);
    }

    method Record(success: bool)
      requires 0 < options.windowSize
      requires Represents(outcomes, next, failures, options.windowSize, spec.history)
      modifies `outcomes, `next, `failures
      ensures Represents(outcomes, next, failures, options.windowSize, spec.history + [success])
    {
      if |outcomes| < options.windowSize {
        GrowRing(outcomes, failures, options.windowSize, spec.history, success);
        outcomes := outcomes + [success];
        if !success {
          failures := failures + 1;
        }
        return;
      }
      TurnRing(outcomes, next, failures, options.windowSize, spec.history, success);
      if !outcomes[next] {
        failures := failures - 1;
      }
      outcomes := outcomes[next := success];
      if !success {
        failures := failures + 1;
      }
      NextSlot(next, options.windowSize);
      next := (next + 1) % options.windowSize;
    }

    /** Counts an outcome of a CLOSED breaker, which may trip it. */
    method RecordOutcome(success: bool, now: int)
      requires Consistent() && state == StateClosed
      modifies this
      ensures Consistent() && permits == old(permits)
      ensures var counted := old(spec).(history := old(spec).history + [success]);
              spec == if Tripped(options, counted.history) then Enter(counted, Open(now)) else counted
    {
      Record(success);
      spec := spec.(history := spec.history + [success]);
      TripsAgree(outcomes, next, failures, options, spec.history);
      if |outcomes| >= options.minimumRequests && failures as real / |outcomes| as real >= options.failureRatio {
        Transition(StateOpen, now);
      }
    }

    /** An outcome reported to a CLOSED breaker. */
    method CompleteClosed(p: Permit, outcome: Outcome, now: int)
      requires Consistent() && Owns(p) && p.id in spec.live && state == StateClosed
      modifies this, p`used
      ensures Consistent() && permits == old(permits)
      ensures p.used
      ensures spec == Report(options, old(spec), p.id, outcome, now)
    {
      p.used := true;
      spec := spec.(live := spec.live - {p.id}, probes := spec.probes + [outcome]);
      if outcome != Ignored {
        RecordOutcome(outcome == Success, now);
      }
    }

    /** The outcome of a HALF_OPEN probe. */
    method CompleteHalfOpen(p: Permit, outcome: Outcome, now: int)
      requires Consistent() && Owns(p) && p.id in spec.live && state == StateHalfOpen
      modifies this, p`used
      ensures Consistent() && permits == old(permits)
      ensures p.used
      ensures spec == Report(options, old(spec), p.id, outcome, now)
    {
      p.used := true;
      CountAppend(spec.probes, outcome, Success);
      spec := spec.(live := spec.live - {p.id}, probes := spec.probes + [outcome]);
      if halfOpenActive > 0 {
        halfOpenActive := halfOpenActive - 1;
      }
      match outcome {
        case Failed =>
          Transition(StateOpen, now);
        case Success =>
          halfOpenPassed := halfOpenPassed + 1;
          if halfOpenPassed >= options.halfOpenMax {
            Transition(StateClosed, now);
          }
        case Ignored =>
      }
    }

    /** The body of a permit's one report: only a permit of the current generation counts. */
    method Complete(p: Permit, outcome: Outcome, now: int)
      requires Consistent() && Owns(p) && !p.used
      modifies this, p`used
      ensures Consistent() && permits == old(permits)
      ensures p.used
      ensures spec == Settle(options, old(spec), p.id, outcome, now)
    {
      if p.generation != generation || p.state != state {
        p.used := true;
        return;
      }
      match state {
        case StateClosed =>
          CompleteClosed(p, outcome, now);
        case StateHalfOpen =>
          CompleteHalfOpen(p, outcome, now);
        case StateOpen =>
          p.used := true;
          spec := spec.(live := spec.live - {p.id}, probes := spec.probes + [outcome]);
      }
    }
  }

  /** A breaker is built from acceptable options, and from no others. */
  method New(options: Options) returns (breaker: Breaker?)
    ensures breaker != null <==> OptionsOk(options)
    ensures breaker != null ==>
      fresh(breaker) && breaker.Valid() && breaker.options == options && breaker.spec == Fresh && breaker.permits == []
  {
    if options.windowSize <= 0 {
      return null;
    }
    if options.minimumRequests <= 0 || options.minimumRequests > options.windowSize {
      return null;
    }
    if options.failureRatio <= 0.0 || options.failureRatio > 1.0 {
      return null;
    }
    if options.openTimeout <= 0 || options.halfOpenMax <= 0 {
      return null;
    }
    breaker := new Breaker(options);
  }
}
