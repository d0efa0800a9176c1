/**
 The circuit breaker a reader would want: it remembers every outcome since it last closed,
 and the set of permits that still count.  Module CircuitBreaker proves that the breaker as
 built, with its ring buffer, counters and generation number, does exactly what `Spec` does.
 */
module BreakerSpec {
  import opened Results
  import Arithmetic

  datatype Outcome = Ignored | Success | Failed

  datatype Options = Options(
    windowSize: nat,
    minimumRequests: nat,
    failureRatio: real,
    openTimeout: int,
    halfOpenMax: nat)

  predicate OptionsOk(o: Options) {
    && 0 < o.minimumRequests <= o.windowSize
    && 0.0 < o.failureRatio <= 1.0
    && 0 < o.openTimeout
    && 0 < o.halfOpenMax
  }

  // ------------------------------------------------------------ sliding window

  /** The last `n` entries of a history, or all of it while it is shorter. */
  ghost function LastN(history: seq<bool>, n: nat): seq<bool> {
    if |history| <= n then history else history[|history| - n..]
  }

  function Failures(window: seq<bool>): nat {
    if window == [] then 0 else Failures(window[1..]) + (if window[0] then 0 else 1)
  }

  lemma {:induction false} FailuresJoin(a: seq<bool>, b: seq<bool>)
    ensures Failures(a + b) == Failures(a) + Failures(b)
  {
    if a == [] {
      assert a + b == b;
    } else {
      assert (a + b)[1..] == a[1..] + b;
      FailuresJoin(a[1..], b);
    }
  }

  /** Oldest first, what a ring buffer whose next slot is `next` holds. */
  ghost function Unrolled(ring: seq<bool>, next: nat): (r: seq<bool>)
    requires next <= |ring|
    ensures |r| == |ring|
  {
    ring[next..] + ring[..next]
  }

  /** The ring buffer and its failure counter stand for the last `size` outcomes of `history`. */
  ghost predicate Represents(ring: seq<bool>, next: nat, failures: int, size: nat, history: seq<bool>) {
    && 0 < size
    && next <= |ring| <= size
    && (|ring| < size ==> next == 0)
    && (|ring| == size ==> next < size)
    && Unrolled(ring, next) == LastN(history, size)
    && failures == Failures(LastN(history, size))
  }

  lemma {:induction false} LastNAppend(history: seq<bool>, n: nat, x: bool)
    requires 0 < n
    ensures LastN(history + [x], n)
         == (if |history| < n then history else LastN(history, n)[1..]) + [x]
  {
  }

  /** Growing a ring that is not yet full. */
  lemma {:induction false} GrowRing(ring: seq<bool>, failures: int, size: nat, history: seq<bool>, x: bool)
    requires Represents(ring, 0, failures, size, history) && |ring| < size
    ensures Represents(ring + [x], 0, failures + (if x then 0 else 1), size, history + [x])
  {
    assert ring[0..] + ring[..0] == ring;
    LastNAppend(history, size, x);
    FailuresJoin(history, [x]);
    assert (ring + [x])[0..] + (ring + [x])[..0] == history + [x];
  }

  /** Overwriting the oldest slot of a full ring. */
  lemma {:induction false} TurnRing(ring: seq<bool>, next: nat, failures: int, size: nat, history: seq<bool>, x: bool)
    requires Represents(ring, next, failures, size, history) && |ring| == size
    ensures Represents(ring[next := x], if next + 1 == size then 0 else next + 1,
                       failures - (if ring[next] then 0 else 1) + (if x then 0 else 1), size, history + [x])
  {
    var window := LastN(history, size);
    assert window[0] == Unrolled(ring, next)[0] == ring[next];
    LastNAppend(history, size, x);
    FailuresJoin([window[0]], window[1..]);
    assert window == [window[0]] + window[1..];
    FailuresJoin(window[1..], [x]);
    TurnUnrolled(ring, next, x);
  }

  lemma {:induction false} TurnUnrolled(ring: seq<bool>, next: nat, x: bool)
    requires next < |ring|
    ensures Unrolled(ring[next := x], if next + 1 == |ring| then 0 else next + 1) == Unrolled(ring, next)[1..] + [x]
  {
    var turned := ring[next := x];
    if next + 1 == |ring| {
      assert turned[0..] + turned[..0] == ring[..next] + [x];
      assert Unrolled(ring, next)[1..] == ring[..next];
    } else {
      assert turned[next + 1..] == ring[next + 1..];
      assert turned[..next + 1] == ring[..next] + [x];
      assert Unrolled(ring, next)[1..] == ring[next + 1..] + ring[..next];
    }
  }

  /** Enough observations, and too large a part of them failures. */
  ghost predicate Tripped(o: Options, history: seq<bool>)
    requires OptionsOk(o)
  {
    var window := LastN(history, o.windowSize);
    && o.minimumRequests <= |window|
    && Failures(window) as real / |window| as real >= o.failureRatio
  }

  /** The ring buffer and its counter decide the trip as the history does. */
  lemma {:induction false} TripsAgree(ring: seq<bool>, next: nat, failures: int, o: Options, history: seq<bool>)
    requires OptionsOk(o) && Represents(ring, next, failures, o.windowSize, history)
    ensures Tripped(o, history)
       <==> o.minimumRequests <= |ring| && failures as real / |ring| as real >= o.failureRatio
  {
    assert |Unrolled(ring, next)| == |LastN(history, o.windowSize)|;
  }

  // ------------------------------------------------------ the wanted breaker

  datatype Mode = Closed | Open(since: int) | HalfOpen

  /**
   `history` holds the outcomes counted since the breaker last closed, `probes` the outcomes
   reported in the current mode, `live` the permits that still count in it, and `issued` how
   many permits were ever handed out (permits are numbered in that order).
   */
  datatype Spec = Spec(mode: Mode, history: seq<bool>, probes: seq<Outcome>, live: set<nat>, issued: nat)

  const Fresh := Spec(Closed, [], [], {}, 0)

  /** Changing mode voids every outstanding permit. */
  ghost function Enter(s: Spec, mode: Mode): Spec {
    s.(mode := mode, probes := [], live := {}, history := if mode.Closed? then [] else s.history)
  }

  ghost function Advance(o: Options, s: Spec, now: int): Spec {
    if s.mode.Open? && now - s.mode.since >= o.openTimeout then Enter(s, HalfOpen) else s
  }

  ghost predicate Admits(o: Options, s: Spec) {
    s.mode.Closed? || (s.mode.HalfOpen? && |s.live| < o.halfOpenMax)
  }

  /** A request asks for a permit. */
  ghost function Grant(o: Options, s: Spec, now: int): (Spec, Option<nat>) {
    var a := Advance(o, s, now);
    if Admits(o, a) then (a.(live := a.live + {a.issued}, issued := a.issued + 1), Some(a.issued))
    else (a, None)
  }

  function Count(outcomes: seq<Outcome>, x: Outcome): nat {
    if outcomes == [] then 0 else Count(outcomes[1..], x) + (if outcomes[0] == x then 1 else 0)
  }

  lemma {:induction false} CountAppend(outcomes: seq<Outcome>, y: Outcome, x: Outcome)
    ensures Count(outcomes + [y], x) == Count(outcomes, x) + (if x == y then 1 else 0)
  {
    if outcomes != [] {
      assert (outcomes + [y])[1..] == outcomes[1..] + [y];
      CountAppend(outcomes[1..], y, x);
    }
  }

  /** A permit that still counts reports its outcome. */
  ghost function Report(o: Options, s: Spec, id: nat, outcome: Outcome, now: int): Spec
    requires OptionsOk(o)
  {
    var t := s.(live := s.live - {id}, probes := s.probes + [outcome]);
    match s.mode
    case Open(_) => t
    case Closed =>
      if outcome == Ignored then t
      else
        var u := t.(history := s.history + [outcome == Success]);
        if Tripped(o, u.history) then Enter(u, Open(now)) else u
    case HalfOpen =>
      if outcome == Failed then Enter(t, Open(now))
      else if outcome == Success && Count(t.probes, Success) >= o.halfOpenMax then Enter(t, Closed)
      else t
  }

  /** A permit reports; a void or spent one changes nothing. */
  ghost function Settle(o: Options, s: Spec, id: nat, outcome: Outcome, now: int): Spec
    requires OptionsOk(o)
  {
    if id in s.live then Report(o, s, id, outcome, now) else s
  }

  // ------------------------------------------------------------ whole runs

  datatype Event = Asked(now: int) | Reported(id: nat, outcome: Outcome, now: int) | Observed(now: int)

  ghost function Next(o: Options, s: Spec, e: Event): Spec
    requires OptionsOk(o)
  {
    match e
    case Asked(now) => Grant(o, s, now).0
    case Reported(id, outcome, now) => Settle(o, s, id, outcome, now)
    case Observed(now) => Advance(o, s, now)
  }

  ghost function Run(o: Options, events: seq<Event>): Spec
    requires OptionsOk(o)
  {
    if events == [] then Fresh else Next(o, Run(o, events[..|events| - 1]), events[|events| - 1])
  }

  ghost predicate Invariant(o: Options, s: Spec)
    requires OptionsOk(o)
  {
    && (forall id :: id in s.live ==> id < s.issued)
    && (s.mode.Open? ==> s.live == {})
    && (s.mode.HalfOpen? ==>
          && |s.live| <= o.halfOpenMax
          && Count(s.probes, Failed) == 0
          && Count(s.probes, Success) < o.halfOpenMax)
    && (s.mode.Closed? ==> !Tripped(o, s.history))
  }

  lemma {:induction false} AskKeepsInvariant(o: Options, s: Spec, now: int)
    requires OptionsOk(o) && Invariant(o, s)
    ensures Invariant(o, Advance(o, s, now)) && Invariant(o, Grant(o, s, now).0)
  {
    var a := Advance(o, s, now);
    assert a.issued !in a.live;
  }

  lemma {:induction false} ReportKeepsInvariant(o: Options, s: Spec, id: nat, outcome: Outcome, now: int)
    requires OptionsOk(o) && Invariant(o, s) && id in s.live
    ensures Invariant(o, Report(o, s, id, outcome, now))
  {
    CountAppend(s.probes, outcome, Success);
    CountAppend(s.probes, outcome, Failed);
    assert |s.live - {id}| == |s.live| - 1;
  }

  lemma {:induction false} NextKeepsInvariant(o: Options, s: Spec, e: Event)
    requires OptionsOk(o) && Invariant(o, s)
    ensures Invariant(o, Next(o, s, e))
  {
    match e
    case Asked(now) => AskKeepsInvariant(o, s, now);
    case Reported(id, outcome, now) =>
      if id in s.live {
        ReportKeepsInvariant(o, s, id, outcome, now);
      }
    case Observed(now) => AskKeepsInvariant(o, s, now);
  }

  /**
   In every run: half-open probes never exceed their limit, a half-open breaker has seen no
   failure and too few successes to close, an open one has no live permit, and a resting
   closed breaker never satisfies the condition that would open it.
   */
  lemma {:induction false} RunInvariant(o: Options, events: seq<Event>)
    requires OptionsOk(o)
    ensures Invariant(o, Run(o, events))
  {
    if events == [] {
      assert LastN([], o.windowSize) == [];
    } else {
      RunInvariant(o, events[..|events| - 1]);
      NextKeepsInvariant(o, Run(o, events[..|events| - 1]), events[|events| - 1]);
    }
  }

  /**
   A half-open breaker closes only on a success that makes exactly `halfOpenMax` successes,
   with no failure among the outcomes of that probing phase; and it closes on every such success.
   */
  lemma {:induction false} ClosesAfterExactlyEnoughSuccesses(o: Options, events: seq<Event>, e: Event)
    requires OptionsOk(o)
    requires Run(o, events).mode.HalfOpen?
    ensures var s := Run(o, events);
      Next(o, s, e).mode.Closed? <==>
        && e.Reported? && e.id in s.live && e.outcome == Success
        && Count(s.probes + [e.outcome], Success) == o.halfOpenMax
        && Count(s.probes + [e.outcome], Failed) == 0
  {
    RunInvariant(o, events);
    var s := Run(o, events);
    if e.Reported? {
      CountAppend(s.probes, e.outcome, Success);
      CountAppend(s.probes, e.outcome, Failed);
    }
  }

  lemma {:induction false} IssuedNeverShrinks(o: Options, s: Spec, e: Event)
    requires OptionsOk(o)
    ensures s.issued <= Next(o, s, e).issued
    ensures forall id :: id in Next(o, s, e).live && id < s.issued ==> id in s.live
  {
  }

  ghost function RunFrom(o: Options, s: Spec, events: seq<Event>): Spec
    requires OptionsOk(o)
  {
    if events == [] then s else Next(o, RunFrom(o, s, events[..|events| - 1]), events[|events| - 1])
  }

  /**
   A permit that has stopped counting, because it reported or because the mode changed under
   it, never counts again: whatever happens in between, reporting it changes nothing.
   */
  lemma {:induction false} SpentPermitsStaySpent(
      o: Options, s: Spec, events: seq<Event>, id: nat, outcome: Outcome, now: int)
    requires OptionsOk(o) && id < s.issued && id !in s.live
    ensures Settle(o, RunFrom(o, s, events), id, outcome, now) == RunFrom(o, s, events)
    ensures id < RunFrom(o, s, events).issued && id !in RunFrom(o, s, events).live
  {
    if events != [] {
      var t := RunFrom(o, s, events[..|events| - 1]);
      SpentPermitsStaySpent(o, s, events[..|events| - 1], id, outcome, now);
      IssuedNeverShrinks(o, t, events[|events| - 1]);
    }
  }

  // ------------------------------------------------------------ how long each mode lasts

  ghost predicate AllBefore(events: seq<Event>, deadline: int) {
    forall k :: 0 <= k < |events| ==> events[k].now < deadline
  }

  /** Before its timeout an open breaker is unmoved: it grants nothing, and reports change nothing. */
  lemma {:induction false} OpenLasts(o: Options, events: seq<Event>, more: seq<Event>)
    requires OptionsOk(o) && Run(o, events).mode.Open?
    requires AllBefore(more, Run(o, events).mode.since + o.openTimeout)
    ensures RunFrom(o, Run(o, events), more) == Run(o, events)
  {
    RunInvariant(o, events);
    if more != [] {
      OpenLasts(o, events, more[..|more| - 1]);
    }
  }

  /**
   An open breaker refuses exactly until its timeout: whatever is asked, observed or reported before
   then, it stays open and grants nothing; the first request at or after that time gets the only
   live permit of a half-open breaker.
   */
  lemma {:induction false} OpenLastsExactlyItsTimeout(o: Options, events: seq<Event>, more: seq<Event>, now: int)
    requires OptionsOk(o) && Run(o, events).mode.Open?
    requires AllBefore(more, Run(o, events).mode.since + o.openTimeout)
    ensures var s := Run(o, events);
      var t := RunFrom(o, s, more);
      && t.mode == s.mode && t.issued == s.issued && t.live == {}
      && (now < s.mode.since + o.openTimeout ==> Grant(o, t, now).1.None? && Next(o, t, Asked(now)).mode == s.mode)
      && (now >= s.mode.since + o.openTimeout ==>
            && Grant(o, t, now).1 == Some(s.issued)
            && Next(o, t, Asked(now)).mode.HalfOpen? && Next(o, t, Asked(now)).live == {s.issued}
            && Next(o, t, Observed(now)).mode.HalfOpen? && Next(o, t, Observed(now)).live == {})
  {
    RunInvariant(o, events);
    OpenLasts(o, events, more);
  }

  /**
   A closed breaker grants every request, and opens only on, and on every, report of a live permit
   that makes the last outcomes trip; its timeout then counts from that report.
   */
  lemma {:induction false} ClosedGrantsAll(o: Options, events: seq<Event>, e: Event)
    requires OptionsOk(o) && Run(o, events).mode.Closed?
    ensures var s := Run(o, events);
      var t := Next(o, s, e);
      && (e.Asked? ==>
            && Grant(o, s, e.now).1 == Some(s.issued)
            && t.mode.Closed? && t.issued == s.issued + 1 && t.live == s.live + {s.issued})
      && (!(e.Reported? && e.id in s.live) ==> t.mode.Closed? && t.history == s.history)
      && (e.Reported? && e.id in s.live ==>
            var counted := if e.outcome == Ignored then s.history else s.history + [e.outcome == Success];
            t.mode == if Tripped(o, counted) then Open(e.now) else Closed)
  {
    RunInvariant(o, events);
  }

  /** A half-open breaker opens on, and only on, a live permit's failure, and its timeout counts from there. */
  lemma {:induction false} HalfOpenOpensOnFailure(o: Options, events: seq<Event>, e: Event)
    requires OptionsOk(o) && Run(o, events).mode.HalfOpen?
    ensures var s := Run(o, events);
      var t := Next(o, s, e);
      && (t.mode.Open? <==> e.Reported? && e.id in s.live && e.outcome == Failed)
      && (t.mode.Open? ==> t.mode == Open(e.now))
  {
  }

  ghost predicate AllAsked(events: seq<Event>) {
    forall k :: 0 <= k < |events| ==> events[k].Asked?
  }

  /** However many requests a half-open breaker gets, it grants just as many as bring the probes to their limit. */
  lemma {:induction false} ProbesAreRationed(o: Options, events: seq<Event>, asks: seq<Event>)
    requires OptionsOk(o) && Run(o, events).mode.HalfOpen? && AllAsked(asks)
    ensures var s, t := Run(o, events), RunFrom(o, Run(o, events), asks);
      && t.mode.HalfOpen? && |s.live| <= |t.live| == t.issued - s.issued + |s.live|
      && |t.live| == (if |s.live| + |asks| <= o.halfOpenMax then |s.live| + |asks| else o.halfOpenMax)
      && Invariant(o, t)
  {
    RunInvariant(o, events);
    if asks != [] {
      var n := |asks| - 1;
      ProbesAreRationed(o, events, asks[..n]);
      var t := RunFrom(o, Run(o, events), asks[..n]);
      NextKeepsInvariant(o, t, asks[n]);
      assert t.issued !in t.live;
    }
  }

  // ------------------------------------------------------------ what trips

  /** The positions of the failures among the last `m` outcomes. */
  ghost function BadOnes(history: seq<bool>, m: nat): set<int> {
    set i | |history| - m <= i < |history| && 0 <= i && !history[i]
  }

  lemma {:induction false} FailuresAreBadOnes(history: seq<bool>, m: nat)
    requires m <= |history|
    ensures Failures(history[|history| - m..]) == |BadOnes(history, m)|
    decreases m
  {
    if m == 0 {
      assert BadOnes(history, m) == {};
    } else {
      var first := |history| - m;
      FailuresAreBadOnes(history, m - 1);
      FailuresJoin([history[first]], history[first + 1..]);
      assert history[first..] == [history[first]] + history[first + 1..];
      if history[first] {
        assert BadOnes(history, m) == BadOnes(history, m - 1);
      } else {
        assert BadOnes(history, m) == BadOnes(history, m - 1) + {first};
      }
    }
  }

  ghost function WindowLength(history: seq<bool>, size: nat): nat {
    if |history| <= size then |history| else size
  }

  lemma {:induction false} WindowFailures(history: seq<bool>, size: nat)
    ensures |LastN(history, size)| == WindowLength(history, size)
    ensures Failures(LastN(history, size)) == |BadOnes(history, WindowLength(history, size))|
  {
    var m := WindowLength(history, size);
    assert LastN(history, size) == history[|history| - m..];
    FailuresAreBadOnes(history, m);
  }

  /**
   The trip condition, from positions alone: of the last min(length, window) outcomes there are
   enough, and the share of failures among them has reached the ratio.
   */
  lemma {:induction false} TripsExactlyAtRatio(o: Options, history: seq<bool>)
    requires OptionsOk(o)
    ensures var m := WindowLength(history, o.windowSize);
      Tripped(o, history) <==>
        o.minimumRequests <= m && |BadOnes(history, m)| as real >= o.failureRatio * m as real
  {
    var m := WindowLength(history, o.windowSize);
    WindowFailures(history, o.windowSize);
    if o.minimumRequests <= m {
      RatioAsProduct(|BadOnes(history, m)| as real, m as real, o.failureRatio);
    }
  }

  lemma {:induction false} RatioAsProduct(x: real, m: real, ratio: real)
    requires 0.0 < m
    ensures x / m >= ratio <==> x >= ratio * m
  {
    Arithmetic.ProductsCompare(x / m, ratio, m);
    assert (x / m) * m == x;
  }
}
