/**
 The token bucket under any clock.  The script sees only forward steps of its clock, so a run is
 decided as on the clock that adds up those steps alone; and every way of following a run, with
 its key expiring or kept, decides the same.
 */
module BucketClock {
  import opened Results
  import opened TokenBucket

  // ---------------------------------------------------- one run, seen four ways

  ghost function Times(calls: seq<Call>): (r: seq<int>)
    ensures |r| == |calls|
  {
    seq(|calls|, k requires 0 <= k < |calls| => calls[k].now)
  }

  lemma {:induction false} PolledLast(l: Limits, s: Option<Bucket>, times: seq<int>, now: int)
    requires LimitsOk(l)
    ensures Polled(l, s, times + [now]) == Some(Evaluate(l, Polled(l, s, times), now).0)
    decreases |times|
  {
    if times == [] {
      assert (times + [now])[1..] == [];
    } else {
      assert (times + [now])[1..] == times[1..] + [now];
      PolledLast(l, Some(Evaluate(l, s, times[0]).0), times[1..], now);
    }
  }

  /** Following a run call by call leads to the bucket after the run. */
  lemma {:induction false} PolledIsAfter(l: Limits, times: seq<int>)
    requires LimitsOk(l)
    ensures Polled(l, None, times) == After(l, times)
  {
    if times != [] {
      var n := |times| - 1;
      PolledIsAfter(l, times[..n]);
      PolledLast(l, None, times[..n], times[n]);
      assert times == times[..n] + [times[n]];
    }
  }

  lemma {:induction false} PlayLast(l: Limits, s: Option<Bucket>, calls: seq<Call>, call: Call)
    requires LimitsOk(l) && !call.dropped && forall k :: 0 <= k < |calls| ==> !calls[k].dropped
    ensures Play(l, s, calls + [call])
         == Play(l, s, calls) + [Evaluate(l, Polled(l, s, Times(calls)), call.now).1]
    decreases |calls|
  {
    if calls == [] {
      assert (calls + [call])[1..] == [];
    } else {
      var next := Some(Evaluate(l, s, calls[0].now).0);
      assert (calls + [call])[1..] == calls[1..] + [call];
      assert Times(calls)[1..] == Times(calls[1..]);
      PlayLast(l, next, calls[1..], call);
    }
  }

  /** A run whose key is never dropped is decided as its times are. */
  lemma {:induction false} PlayIsDecisions(l: Limits, calls: seq<Call>)
    requires LimitsOk(l) && forall k :: 0 <= k < |calls| ==> !calls[k].dropped
    ensures forall k :: 0 <= k < |calls| ==> Play(l, None, calls)[k].allowed == Decisions(l, Times(calls))[k]
  {
    if calls != [] {
      var n := |calls| - 1;
      assert calls == calls[..n] + [calls[n]];
      assert Times(calls)[..n] == Times(calls[..n]);
      PlayIsDecisions(l, calls[..n]);
      PlayLast(l, None, calls[..n], calls[n]);
      PolledIsAfter(l, Times(calls[..n]));
    }
  }

  ghost function Undropped(calls: seq<Call>): (r: seq<Call>)
    ensures |r| == |calls|
  {
    seq(|calls|, k requires 0 <= k < |calls| => Call(calls[k].now, false))
  }

  ghost function All(n: nat): (r: seq<bool>)
    ensures |r| == n
  {
    seq(n, k => true)
  }

  lemma {:induction false} KeepingAll(calls: seq<Call>, ds: seq<Decision>)
    requires |ds| == |calls|
    ensures Kept(calls, All(|calls|)) == Undropped(calls) && KeptDecisions(ds, All(|calls|)) == ds
  {
    if calls != [] {
      assert All(|calls|)[1..] == All(|calls| - 1);
      assert Undropped(calls) == [Call(calls[0].now, false)] + Undropped(calls[1..]);
      assert ds == [ds[0]] + ds[1..];
      KeepingAll(calls[1..], ds[1..]);
    }
  }

  lemma {:induction false} AllKeepsAdmitted(ds: seq<Decision>)
    ensures KeepsAdmitted(ds, All(|ds|))
  {
    if ds != [] {
      assert All(|ds|)[1..] == All(|ds| - 1);
      AllKeepsAdmitted(ds[1..]);
    }
  }

  /** Dropping the key after its time to live changes no decision. */
  lemma {:induction false} DropsAreUnseen(l: Limits, calls: seq<Call>)
    requires LimitsOk(l) && PossibleRun(l, None, calls)
    ensures Play(l, None, Undropped(calls)) == Play(l, None, calls)
  {
    var ds := Play(l, None, calls);
    AllKeepsAdmitted(ds);
    Unobservable(l, None, None, calls, All(|calls|));
    KeepingAll(calls, ds);
  }

  /**
   An expiring key decides as the windows do: in any run in which the store drops the key only
   after its time to live, a call is admitted exactly when the times alone say so.
   */
  lemma {:induction false} ExpiringKeyDecidesAlike(l: Limits, calls: seq<Call>)
    requires LimitsOk(l) && PossibleRun(l, None, calls)
    ensures forall k :: 0 <= k < |calls| ==> Play(l, None, calls)[k].allowed == Decisions(l, Times(calls))[k]
  {
    DropsAreUnseen(l, calls);
    PlayIsDecisions(l, Undropped(calls));
    assert Times(Undropped(calls)) == Times(calls);
  }

  // ------------------------------------------------------ any clock at all

  /** The clock that takes only the forward steps. */
  ghost function Forward(times: seq<int>): (r: seq<int>)
    ensures |r| == |times|
  {
    if |times| <= 1 then times
    else
      var n := |times| - 1;
      var before := Forward(times[..n]);
      before + [before[n - 1] + MaxInt(0, times[n] - times[n - 1])]
  }

  /** How much the clock has lost in all by going back. */
  ghost function Lost(times: seq<int>): nat {
    if |times| <= 1 then 0
    else
      var n := |times| - 1;
      Lost(times[..n]) + MaxInt(0, times[n - 1] - times[n])
  }

  lemma {:induction false} ForwardAscends(times: seq<int>)
    ensures NonDecreasing(Forward(times))
  {
    if 1 < |times| {
      ForwardAscends(times[..|times| - 1]);
    }
  }

  lemma {:induction false} ForwardPrefix(times: seq<int>, k: nat)
    requires k <= |times|
    ensures Forward(times)[..k] == Forward(times[..k])
  {
    if k == |times| {
      assert times[..k] == times && Forward(times)[..k] == Forward(times);
    } else {
      var n := |times| - 1;
      ForwardPrefix(times[..n], k);
      assert times[..n][..k] == times[..k];
      assert 1 < |times| ==> Forward(times)[..k] == Forward(times[..n])[..k];
    }
  }

  /** The forward clock runs ahead of the real one by exactly what that one has lost. */
  lemma {:induction false} ForwardIsRealPlusLost(times: seq<int>)
    requires times != []
    ensures Forward(times)[|times| - 1] == times[|times| - 1] + Lost(times)
  {
    if 1 < |times| {
      ForwardIsRealPlusLost(times[..|times| - 1]);
    }
  }

  /** Only the time elapsed matters, not the readings. */
  lemma {:induction false} OnlyElapsedCounts(l: Limits, a: Bucket, b: Bucket, now: int, there: int)
    requires LimitsOk(l) && a.tokens == b.tokens && MaxInt(0, now - a.stamp) == MaxInt(0, there - b.stamp)
    ensures Level(l, Some(a), now) == Level(l, Some(b), there)
    ensures Evaluate(l, Some(a), now).0.tokens == Evaluate(l, Some(b), there).0.tokens
  {
  }

  /** The bucket cannot tell a clock from its forward clock. */
  lemma {:induction false} OnlyForwardStepsCount(l: Limits, times: seq<int>)
    requires LimitsOk(l)
    ensures Decisions(l, times) == Decisions(l, Forward(times))
    ensures times != [] ==> After(l, times).value.tokens == After(l, Forward(times)).value.tokens
  {
    if 1 < |times| {
      var n := |times| - 1;
      ForwardPrefix(times, n);
      OnlyForwardStepsCount(l, times[..n]);
      var a, b := After(l, times[..n]).value, After(l, Forward(times[..n])).value;
      assert a.stamp == times[n - 1] && b.stamp == Forward(times[..n])[n - 1];
      OnlyElapsedCounts(l, a, b, times[n], Forward(times)[n]);
    }
  }

  /** Under any clock a request is admitted if and only if it fits every window of the forward clock. */
  lemma {:induction false} AnyClockIsExact(l: Limits, times: seq<int>)
    requires LimitsOk(l) && times != []
    ensures NonDecreasing(Forward(times))
    ensures Decisions(l, times)[|times| - 1] <==> Fits(l, Forward(times), Decisions(l, times[..|times| - 1]))
  {
    var n := |times| - 1;
    ForwardAscends(times);
    ForwardPrefix(times, n);
    OnlyForwardStepsCount(l, times);
    OnlyForwardStepsCount(l, times[..n]);
    AdmitsExactlyWhatFits(l, Forward(times));
  }

  /** Under any clock the bucket respects every window of the forward clock, and nobody who does is ever ahead of it. */
  lemma {:induction false} AnyClockIsOptimal(l: Limits, times: seq<int>, other: seq<bool>, n: nat)
    requires LimitsOk(l) && |other| == |times| && n <= |times|
    ensures NonDecreasing(Forward(times)) && Conforms(l, Forward(times), Decisions(l, times))
    ensures Conforms(l, Forward(times), other) ==> Admitted(other[..n]) <= Admitted(Decisions(l, times)[..n])
  {
    ForwardAscends(times);
    OnlyForwardStepsCount(l, times);
    BucketConforms(l, Forward(times));
    if Conforms(l, Forward(times), other) {
      BucketIsOptimal(l, Forward(times), other, n);
    }
  }

  // ------------------------------------------------ a clock that goes back

  /** From one call to the next the clock loses at most `d` milliseconds. */
  ghost predicate StepsBackAtMost(times: seq<int>, d: nat) {
    forall k :: 0 <= k < |times| - 1 ==> times[k] - times[k + 1] <= d
  }

  /** How many of the calls at these times are admitted at the instant `t`, starting from `s`. */
  ghost function AdmittedAt(l: Limits, s: Option<Bucket>, times: seq<int>, t: int): nat
    requires LimitsOk(l)
    decreases |times|
  {
    if times == [] then 0
    else
      var (stored, decision) := Evaluate(l, s, times[0]);
      (if times[0] == t && decision.allowed then 1 else 0) + AdmittedAt(l, Some(stored), times[1..], t)
  }

  lemma {:induction false} AdmittedAtLast(l: Limits, s: Option<Bucket>, times: seq<int>, now: int, t: int)
    requires LimitsOk(l)
    ensures AdmittedAt(l, s, times + [now], t)
         == AdmittedAt(l, s, times, t)
            + (if now == t && Evaluate(l, Polled(l, s, times), now).1.allowed then 1 else 0)
    decreases |times|
  {
    if times == [] {
      assert (times + [now])[1..] == [];
    } else {
      assert (times + [now])[1..] == times[1..] + [now];
      AdmittedAtLast(l, Some(Evaluate(l, s, times[0]).0), times[1..], now, t);
    }
  }

  /** What an instant admits is what the run's decisions admit at it. */
  lemma {:induction false} AdmittedAtIsDecisions(l: Limits, times: seq<int>, t: int)
    requires LimitsOk(l)
    ensures AdmittedAt(l, None, times, t)
         == Admitted(seq(|times|, k requires 0 <= k < |times| => times[k] == t && Decisions(l, times)[k]))
  {
    if times != [] {
      var n := |times| - 1;
      var mine := seq(|times|, k requires 0 <= k < |times| => times[k] == t && Decisions(l, times)[k]);
      assert times == times[..n] + [times[n]];
      AdmittedAtIsDecisions(l, times[..n], t);
      AdmittedAtLast(l, None, times[..n], times[n], t);
      PolledIsAfter(l, times[..n]);
      assert mine[..n] == seq(n, k requires 0 <= k < n => times[..n][k] == t && Decisions(l, times[..n])[k]);
    }
  }

  ghost predicate NeverBursts(l: Limits, times: seq<int>)
    requires LimitsOk(l)
  {
    forall t :: AdmittedAt(l, None, times, t) as real <= l.capacity
  }

  lemma {:induction false} AdmittedAtFirst(l: Limits, s: Option<Bucket>, now: int, rest: seq<int>, t: int)
    requires LimitsOk(l)
    ensures AdmittedAt(l, s, [now] + rest, t)
         == (if now == t && Evaluate(l, s, now).1.allowed then 1 else 0)
            + AdmittedAt(l, Some(Evaluate(l, s, now).0), rest, t)
  {
    assert ([now] + rest)[1..] == rest;
  }

  lemma {:induction false} NoneBeforeTheFirst(l: Limits, s: Option<Bucket>, times: seq<int>, t: int)
    requires LimitsOk(l) && StepsBackAtMost(times, 0) && (times != [] ==> t < times[0])
    ensures AdmittedAt(l, s, times, t) == 0
    decreases |times|
  {
    if times != [] {
      if 1 < |times| {
        assert times[0] - times[1] <= 0;
      }
      NoneBeforeTheFirst(l, Some(Evaluate(l, s, times[0]).0), times[1..], t);
    }
  }

  /** What a call at `now` leaves for the instant `t` is what it found, less what it took. */
  lemma {:induction false} CallTakesItsToken(l: Limits, s: Option<Bucket>, now: int, t: int)
    requires LimitsOk(l) && InRange(l, s) && (s.Some? ==> s.value.stamp <= now) && now <= t
    ensures var (stored, decision) := Evaluate(l, s, now);
      Level(l, Some(stored), t) <= Level(l, s, t) - (if now == t && decision.allowed then 1.0 else 0.0)
  {
    RefillTwice(l, s, now, t);
    GainNonNegative(l, t - now);
  }

  /** While the clock does not go back, an instant admits no more than the level it would find. */
  lemma {:induction false} InstantIsBounded(l: Limits, s: Option<Bucket>, times: seq<int>, t: int)
    requires LimitsOk(l) && InRange(l, s) && StepsBackAtMost(times, 0)
    requires s.Some? && times != [] ==> s.value.stamp <= times[0]
    ensures AdmittedAt(l, s, times, t) as real <= Level(l, s, t)
    decreases |times|
  {
    LevelInRange(l, s, t);
    if times != [] {
      if t < times[0] {
        NoneBeforeTheFirst(l, s, times, t);
      } else {
        LevelInRange(l, s, times[0]);
        if 1 < |times| {
          assert times[0] - times[1] <= 0;
        }
        InstantIsBounded(l, Some(Evaluate(l, s, times[0]).0), times[1..], t);
        CallTakesItsToken(l, s, times[0], t);
      }
    }
  }

  lemma {:induction false} StepsBackFirst(first: int, rest: seq<int>, d: nat)
    requires StepsBackAtMost(rest, d) && (rest != [] ==> first - rest[0] <= d)
    ensures StepsBackAtMost([first] + rest, d)
  {
    forall k | 0 <= k < |rest|
      ensures ([first] + rest)[k] - ([first] + rest)[k + 1] <= d
    {
      assert k > 0 ==> rest[k - 1] - rest[k - 1 + 1] <= d;
    }
  }

  /** A call `d` milliseconds back is refused but moves the stamp, so the next one at `b.stamp` refills once more. */
  lemma {:induction false} ThereAndBack(l: Limits, b: Bucket, d: nat)
    requires LimitsOk(l) && 0.0 <= b.tokens < 1.0
    ensures var back := Bucket(b.tokens, b.stamp - d);
      && Evaluate(l, Some(b), b.stamp - d).0 == back
      && Level(l, Some(back), b.stamp) == MinReal(l.capacity, b.tokens + Gain(l, d))
      && (b.tokens + Gain(l, d) < 1.0 ==> Evaluate(l, Some(back), b.stamp).0 == Bucket(b.tokens + Gain(l, d), b.stamp))
      && (b.tokens + Gain(l, d) >= 1.0 ==> Evaluate(l, Some(back), b.stamp).1.allowed)
  {
  }

  /** One loss and recovery of `d` milliseconds, followed by other calls. */
  lemma {:induction false} ThereAndBackThen(l: Limits, b: Bucket, d: nat, rest: seq<int>)
    requires LimitsOk(l) && 0.0 <= b.tokens < 1.0 && StepsBackAtMost([b.stamp] + rest, d)
    ensures var times := [b.stamp - d] + ([b.stamp] + rest);
      && StepsBackAtMost([b.stamp] + times, d)
      && (b.tokens + Gain(l, d) >= 1.0 ==> 1 <= AdmittedAt(l, Some(b), times, b.stamp))
      && (b.tokens + Gain(l, d) < 1.0 ==>
            AdmittedAt(l, Some(b), times, b.stamp)
            == AdmittedAt(l, Some(Bucket(b.tokens + Gain(l, d), b.stamp)), rest, b.stamp))
  {
    var t := b.stamp;
    ThereAndBack(l, b, d);
    StepsBackFirst(t - d, [t] + rest, d);
    StepsBackFirst(t, [t - d] + ([t] + rest), d);
    AdmittedAtFirst(l, Some(b), t - d, [t] + rest, t);
    AdmittedAtFirst(l, Some(Bucket(b.tokens, t - d)), t, rest, t);
    GainNonNegative(l, d);
  }

  /** A bucket below one token, whose clock keeps losing `d` milliseconds, admits a request it should not. */
  lemma {:induction false} Creep(l: Limits, b: Bucket, d: nat, n: nat) returns (times: seq<int>)
    requires LimitsOk(l) && 0.0 <= b.tokens < 1.0 && 1 <= d && b.tokens + Gain(l, n) >= 1.0
    ensures StepsBackAtMost([b.stamp] + times, d)
    ensures 1 <= AdmittedAt(l, Some(b), times, b.stamp)
    decreases n
  {
    var tokens := b.tokens + Gain(l, d);
    var rest := [];
    if tokens < 1.0 {
      GainAdds(l, n - 1, 1);
      GainAdds(l, 1, d - 1);
      GainNonNegative(l, d - 1);
      rest := Creep(l, Bucket(tokens, b.stamp), d, n - 1);
    }
    times := [b.stamp - d] + ([b.stamp] + rest);
    ThereAndBackThen(l, b, d, rest);
  }

  /** `n` calls at one instant empty the bucket by `n`, and what follows is admitted on top of them. */
  lemma {:induction false} Drain(l: Limits, s: Option<Bucket>, t: int, n: nat, d: nat) returns (times: seq<int>)
    requires LimitsOk(l) && InRange(l, s) && n as real <= Level(l, s, t) < n as real + 1.0 && 1 <= d
    requires n == 0 ==> s.Some? && s.value.stamp == t
    ensures StepsBackAtMost([t] + times, d)
    ensures n + 1 <= AdmittedAt(l, s, times, t)
    decreases n
  {
    if n == 0 {
      var wait := Ceil((1.0 - s.value.tokens) / l.rate);
      WaitNeeded(l, s.value.tokens, 0);
      WaitNeeded(l, s.value.tokens, wait);
      times := Creep(l, s.value, d, wait);
    } else {
      var next := Evaluate(l, s, t).0;
      LevelInRange(l, s, t);
      var rest := Drain(l, Some(next), t, n - 1, d);
      times := [t] + rest;
      AdmittedAtFirst(l, s, t, rest, t);
      StepsBackFirst(t, times, d);
    }
  }

  /**
   The limit rests on the clock, and exactly so: the bucket keeps any single instant within its
   capacity on every run of a clock that never goes back, and for every limit, a clock that may
   lose as little as one millisecond at a time has a run that breaks it.
   */
  lemma {:induction false} ClockToleranceIsExact(l: Limits, d: nat)
    requires LimitsOk(l)
    ensures (forall times :: StepsBackAtMost(times, d) ==> NeverBursts(l, times)) <==> d == 0
  {
    if d == 0 {
      forall times, t | StepsBackAtMost(times, d)
        ensures AdmittedAt(l, None, times, t) as real <= l.capacity
      {
        InstantIsBounded(l, None, times, t);
      }
    } else {
      var n := l.capacity.Floor;
      var times := Drain(l, None, 0, n, d);
      assert StepsBackAtMost(times, d) by {
        forall k | 0 <= k < |times| - 1 ensures times[k] - times[k + 1] <= d {
          assert ([0] + times)[k + 1] - ([0] + times)[k + 2] <= d;
        }
      }
      assert AdmittedAt(l, None, times, 0) as real > l.capacity;
    }
  }

  /** For instance: one request a second, and a clock that is set back by a second and forward again. */
  lemma {:induction false} ClockStepBackOverAdmits()
    ensures var l := Limits(0.001, 1.0);
      && LimitsOk(l)
      && Decisions(l, [1000, 0, 1000]) == [true, false, true]
      && Admitted([true, false, true]) as real > Allowance(l, 1000, 1000)
  {
    var l := Limits(0.001, 1.0);
    var one, two, three := [1000], [1000, 0], [1000, 0, 1000];
    assert one[..0] == [] && two[..1] == one && three[..2] == two;
    assert After(l, one) == Some(Bucket(0.0, 1000));
    assert After(l, two) == Some(Bucket(0.0, 0));
    GainIsProduct(l, 1000);
    assert LastLevel(l, three) == 1.0;
    assert Decisions(l, one) == [true] && Decisions(l, two) == [true, false];
    assert Decisions(l, three) == [true, false, true];
    var all := [true, false, true];
    assert all[..2][..1][..0] == [] && all[..2][..1] == [true];
  }
}
