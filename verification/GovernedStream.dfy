/** The semaphore, and the wrapper that gives a stream's resources back when it first ends. */
module GovernedStream {
  import opened Results
  import opened BreakerSpec
  import opened CircuitBreaker
  import opened Governance

  class Semaphore {
    const capacity: nat
    var inFlight: nat
    ghost var held: set<Slot>

    ghost predicate Valid()
      reads this, held
    {
      && 0 < capacity
      && inFlight == |held| <= capacity
      && (forall slot :: slot in held ==> slot.semaphore == this && !slot.released)
    }

    constructor (capacity: nat)
      requires 0 < capacity
      ensures Valid() && this.capacity == capacity && held == {}
    {
      this.capacity, inFlight, held := capacity, 0, {};
    }

    /**
     Takes a slot, or gives up when the context is done; when both are possible either may
     happen (`preferDone` says which), and when neither is the caller still waits.
     */
    method Acquire(done: bool, preferDone: bool) returns (slot: Slot?)
      requires Valid() && (inFlight < capacity || done)
      modifies this
      ensures Valid()
      ensures slot == null <==> done && (preferDone || old(inFlight) == capacity)
      ensures slot == null ==> held == old(held)
      ensures slot != null ==> fresh(slot) && held == old(held) + {slot}
    {
      if done && (preferDone || inFlight == capacity) {
        return null;
      }
      slot := new Slot(this);
      inFlight, held := inFlight + 1, held + {slot};
    }
  }

  method New(maxConcurrent: int) returns (semaphore: Semaphore?)
    ensures semaphore == null <==> maxConcurrent <= 0
    ensures semaphore != null ==>
      fresh(semaphore) && semaphore.Valid() && semaphore.capacity == maxConcurrent && semaphore.held == {}
  {
    if maxConcurrent <= 0 {
      return null;
    }
    semaphore := new Semaphore(maxConcurrent);
  }

  class Slot {
    const semaphore: Semaphore
    var released: bool

    constructor (semaphore: Semaphore)
      ensures this.semaphore == semaphore && !released
    {
      this.semaphore, released := semaphore, false;
    }

    /** Gives the slot back the first time, and does nothing after that. */
    method Release()
      requires semaphore.Valid() && (!released ==> this in semaphore.held)
      modifies semaphore, `released
      ensures semaphore.Valid() && released
      ensures semaphore.held == old(semaphore.held) - {this}
    {
      if !released {
        released := true;
        semaphore.inFlight, semaphore.held := semaphore.inFlight - 1, semaphore.held - {this};
      }
    }
  }

  /** A stream together with the permit, the slot and the attempt context it holds. */
  class ManagedStream {
    const circuit: Permit
    const slot: Slot
    var cancels: nat
    var finished: bool

    ghost predicate Valid()
      reads this, circuit, circuit.breaker, circuit.breaker.permits, slot, slot.semaphore, slot.semaphore.held
    {
      && CircuitOk() && SlotOk()
      && (finished <==> slot.released)
      && (finished ==> circuit.used)
      && cancels == (if finished then 1 else 0)
    }

    ghost predicate CircuitOk()
      reads this, circuit, circuit.breaker, circuit.breaker.permits
    {
      circuit.breaker.Valid() && circuit.breaker.Owns(circuit)
    }

    ghost predicate SlotOk()
      reads this, slot, slot.semaphore, slot.semaphore.held
    {
      slot.semaphore.Valid() && (!slot.released ==> slot in slot.semaphore.held)
    }

    constructor (circuit: Permit, slot: Slot)
      requires circuit.breaker.Valid() && circuit.breaker.Owns(circuit)
      requires slot.semaphore.Valid() && slot in slot.semaphore.held
      ensures Valid() && !finished && this.circuit == circuit && this.slot == slot
    {
      this.circuit, this.slot, cancels, finished := circuit, slot, 0, false;
    }

    method Report(outcome: Outcome, now: int)
      requires CircuitOk() && SlotOk()
      modifies circuit`used, circuit.breaker
      ensures CircuitOk() && SlotOk() && circuit.used
      ensures circuit.breaker.spec
           == Settle(circuit.breaker.options, old(circuit.breaker.spec), circuit.id, outcome, now)
    {
      circuit.Done(outcome, now);
    }

    /** Cancels, reports and releases, in that order and once. */
    method Finish(outcome: Outcome, now: int)
      requires Valid()
      modifies this, circuit`used, circuit.breaker, slot`released, slot.semaphore
      ensures Valid() && finished
      ensures slot.semaphore.held == old(slot.semaphore.held) - {slot}
      ensures circuit.breaker.spec
           == if old(finished) then old(circuit.breaker.spec)
              else Settle(circuit.breaker.options, old(circuit.breaker.spec), circuit.id, outcome, now)
    {
      if finished {
        return;
      }
      cancels := cancels + 1;
      Report(outcome, now);
      slot.Release();
      finished := true;
    }

    /** A receive that ended the stream, or a close, finishes it with the outcome that ending stands for. */
    method Observe(end: Option<End>, now: int)
      requires Valid()
      modifies this, circuit`used, circuit.breaker, slot`released, slot.semaphore
      ensures Valid() && finished == (old(finished) || end.Some?)
      ensures end.None? || old(finished) ==>
        && circuit.breaker.spec == old(circuit.breaker.spec)
        && slot.semaphore.held == old(slot.semaphore.held) && cancels == old(cancels)
      ensures end.Some? && !old(finished) ==>
        && circuit.breaker.spec
           == Settle(circuit.breaker.options, old(circuit.breaker.spec), circuit.id,
                     if end.value.Eof? then Success
                     else if end.value.CloseFailed? then Failed
                     else if end.value.RecvError? && end.value.error.isCircuitFailure then Failed
                     else Ignored, now)
        && slot.semaphore.held == old(slot.semaphore.held) - {slot} && cancels == 1
    {
      if end.Some? {
        assert finished ==> slot !in slot.semaphore.held;
        match end.value {
          case Eof => Finish(Success, now);
          case RecvError(e) => Finish(CircuitOutcome(Some(e)), now);
          case ClosedCleanly => Finish(Ignored, now);
          case CloseFailed => Finish(Failed, now);
        }
      }
    }
  }
}
