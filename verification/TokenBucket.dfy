/**
 The rate limiter's token bucket: a script that refills lazily, admits or refuses one request,
 and lets its key expire.  Times are whole milliseconds; tokens are reals.
 */
module TokenBucket {
  import opened Results
  import Arithmetic

  datatype Limits = Limits(rate: real, capacity: real)

  ghost predicate LimitsOk(l: Limits) {
    0.0 < l.rate && 1.0 <= l.capacity
  }

  /** The stored hash: tokens at the time of the last call. */
  datatype Bucket = Bucket(tokens: real, stamp: int)

  datatype Decision = Decision(allowed: bool, remaining: int, retryAfterMs: int)

  function MinReal(a: real, b: real): real {
    if a <= b then a else b
  }

  function MaxInt(a: int, b: int): int {
    if a >= b then a else b
  }

  function Ceil(x: real): int {
    -((-x).Floor)
  }

  lemma {:induction false} CeilBounds(x: real, n: int)
    ensures n >= Ceil(x) <==> n as real >= x
  {
  }

  /** What the bucket gains in `ms` milliseconds: the rate, once for each of them. */
  ghost function Gain(l: Limits, ms: nat): real {
    if ms == 0 then 0.0 else Gain(l, ms - 1) + l.rate
  }

  lemma {:induction false} GainIsProduct(l: Limits, ms: nat)
    ensures Gain(l, ms) == ms as real * l.rate
  {
    if ms > 0 {
      GainIsProduct(l, ms - 1);
      assert ms as real * l.rate == (ms - 1) as real * l.rate + l.rate;
    }
  }

  lemma {:induction false} GainAdds(l: Limits, a: nat, b: nat)
    ensures Gain(l, a + b) == Gain(l, a) + Gain(l, b)
  {
    if b > 0 {
      GainAdds(l, a, b - 1);
    }
  }

  lemma {:induction false} GainNonNegative(l: Limits, ms: nat)
    requires 0.0 < l.rate
    ensures 0.0 <= Gain(l, ms)
  {
    if ms > 0 {
      GainNonNegative(l, ms - 1);
    }
  }

  /** The tokens a call at `now` would find, after the lazy refill; a missing key means a full bucket. */
  ghost function Level(l: Limits, s: Option<Bucket>, now: int): real {
    match s
    case None => l.capacity
    case Some(b) => MinReal(l.capacity, b.tokens + Gain(l, MaxInt(0, now - b.stamp)))
  }

  /** The script: one token per request. */
  ghost function Evaluate(l: Limits, s: Option<Bucket>, now: int): (Bucket, Decision)
    requires l.rate != 0.0
  {
    var tokens := Level(l, s, now);
    if tokens >= 1.0 then
      (Bucket(tokens - 1.0, now), Decision(true, (tokens - 1.0).Floor, 0))
    else
      (Bucket(tokens, now), Decision(false, tokens.Floor, Ceil((1.0 - tokens) / l.rate)))
  }

  /** How long the key outlives its last call. */
  function Ttl(l: Limits): int
    requires l.rate != 0.0
  {
    MaxInt(1000, Ceil(l.capacity / l.rate) * 2)
  }

  /** One client's key in the store, and the script that runs on it. */
  class StoredBucket {
    const limits: Limits
    var stored: Option<Bucket>
    var expiresAt: int

    ghost predicate Valid()
      reads this
    {
      && LimitsOk(limits)
      && (stored.Some? ==>
            && 0.0 <= stored.value.tokens <= limits.capacity
            && expiresAt == stored.value.stamp + Ttl(limits))
    }

    constructor (limits: Limits)
      requires LimitsOk(limits)
      ensures Valid() && this.limits == limits && stored == None
    {
      this.limits, stored, expiresAt := limits, None, 0;
    }

    /** The key is gone once its time to live has passed; then the script runs, at any clock reading. */
    method Allow(now: int) returns (decision: Decision)
      requires Valid()
      modifies this
      ensures Valid()
      ensures var found := if old(stored).Some? && now >= old(expiresAt) then None else old(stored);
              stored == Some(Evaluate(limits, found, now).0) && decision == Evaluate(limits, found, now).1
      ensures 0 <= decision.remaining
    {
      if stored.Some? && now >= expiresAt {
        stored := None;
      }
      var tokens := limits.capacity;
      var stamp := now;
      if stored.Some? {
        tokens, stamp := stored.value.tokens, stored.value.stamp;
      }
      var elapsed := MaxInt(0, now - stamp);
      GainIsProduct(limits, elapsed);
      GainNonNegative(limits, elapsed);
      GainNonNegative(limits, 0);
      tokens := MinReal(limits.capacity, tokens + elapsed as real * limits.rate);
      assert tokens == Level(limits, stored, now);
      var allowed, retryAfterMs := false, 0;
      if tokens >= 1.0 {
        tokens, allowed := tokens - 1.0, true;
      } else {
        retryAfterMs := Ceil((1.0 - tokens) / limits.rate);
      }
      stored, expiresAt := Some(Bucket(tokens, now)), now + Ttl(limits);
      decision := Decision(allowed, tokens.Floor, retryAfterMs);
    }
  }

  // ------------------------------------------------------ runs of one key

  ghost predicate NonDecreasing(times: seq<int>) {
    forall i, j :: 0 <= i <= j < |times| ==> times[i] <= times[j]
  }

  /** The stored bucket after calls at the given times, starting without a key. */
  ghost function After(l: Limits, times: seq<int>): Option<Bucket>
    requires LimitsOk(l)
  {
    if times == [] then None
    else Some(Evaluate(l, After(l, times[..|times| - 1]), times[|times| - 1]).0)
  }

  /** The tokens the last of these calls finds. */
  ghost function LastLevel(l: Limits, times: seq<int>): real
    requires LimitsOk(l) && times != []
  {
    Level(l, After(l, times[..|times| - 1]), times[|times| - 1])
  }

  ghost function Decisions(l: Limits, times: seq<int>): (r: seq<bool>)
    requires LimitsOk(l)
    ensures |r| == |times|
  {
    if times == [] then [] else Decisions(l, times[..|times| - 1]) + [LastLevel(l, times) >= 1.0]
  }

  ghost function Admitted(ds: seq<bool>): nat {
    if ds == [] then 0 else Admitted(ds[..|ds| - 1]) + (if ds[|ds| - 1] then 1 else 0)
  }

  lemma {:induction false} AdmittedJoin(a: seq<bool>, b: seq<bool>)
    ensures Admitted(a + b) == Admitted(a) + Admitted(b)
  {
    if b == [] {
      assert a + b == a;
    } else {
      assert (a + b)[..|a + b| - 1] == a + b[..|b| - 1];
      AdmittedJoin(a, b[..|b| - 1]);
    }
  }

  /** The most a conforming limiter may have admitted from time `from` up to time `to`. */
  ghost function Allowance(l: Limits, from: int, to: int): real
    requires from <= to
  {
    l.capacity + Gain(l, to - from)
  }

  /** What the window opened at call `j` still has room for, when the last call arrives. */
  ghost function Room(l: Limits, times: seq<int>, earlier: seq<bool>, j: nat): real
    requires j < |times| == |earlier| + 1 && NonDecreasing(times)
  {
    Allowance(l, times[j], times[|times| - 1]) - Admitted(earlier[j..]) as real
  }

  lemma {:induction false} RoomShrinks(l: Limits, times: seq<int>, earlier: seq<bool>, j: nat)
    requires j < |times| - 1 == |earlier| && NonDecreasing(times)
    ensures var last := |times| - 1;
      Room(l, times, earlier, j)
      == Room(l, times[..last], earlier[..last - 1], j)
         + Gain(l, times[last] - times[last - 1]) - (if earlier[last - 1] then 1.0 else 0.0)
  {
    var last := |times| - 1;
    assert earlier[j..][..|earlier[j..]| - 1] == earlier[..last - 1][j..];
    GainAdds(l, times[last] - times[last - 1], times[last - 1] - times[j]);
  }

  ghost predicate LevelIsLeastRoom(l: Limits, times: seq<int>)
    requires LimitsOk(l) && times != [] && NonDecreasing(times)
  {
    var earlier := Decisions(l, times[..|times| - 1]);
    && (forall j: nat :: j < |times| ==> LastLevel(l, times) <= Room(l, times, earlier, j))
    && (exists j: nat :: j < |times| && LastLevel(l, times) == Room(l, times, earlier, j))
  }

  /** The level after one more call. */
  lemma {:induction false} LevelStep(l: Limits, times: seq<int>)
    requires LimitsOk(l) && 2 <= |times| && NonDecreasing(times)
    ensures var last := |times| - 1;
      LastLevel(l, times)
      == MinReal(l.capacity,
                 LastLevel(l, times[..last]) - (if Decisions(l, times[..last])[last - 1] then 1.0 else 0.0)
                 + Gain(l, times[last] - times[last - 1]))
  {
    var last := |times| - 1;
    var prior := times[..last];
    assert times[last - 1] <= times[last];
    assert After(l, prior).Some? && After(l, prior).value.stamp == times[last - 1];
  }

  /** One more call moves the level and the room of every window alike, up to the cap. */
  lemma {:induction false} LeastStep(l: Limits, times: seq<int>, j: nat)
    requires LimitsOk(l) && NonDecreasing(times) && j < |times| - 1
    ensures var last := |times| - 1;
      var mine, before := Room(l, times, Decisions(l, times[..last]), j),
                          Room(l, times[..last], Decisions(l, times[..last][..last - 1]), j);
      && (LastLevel(l, times[..last]) <= before ==> LastLevel(l, times) <= mine)
      && (LastLevel(l, times[..last]) == before ==> LastLevel(l, times) == mine || LastLevel(l, times) == l.capacity)
  {
    var last := |times| - 1;
    var earlier := Decisions(l, times[..last]);
    LevelStep(l, times);
    RoomShrinks(l, times, earlier, j);
    assert earlier[..last - 1] == Decisions(l, times[..last][..last - 1]);
  }

  /**
   The lazily kept level is the least room any window has: no larger than any of them, and
   equal to one of them.
   */
  lemma {:induction false} LevelIsLeast(l: Limits, times: seq<int>)
    requires LimitsOk(l) && times != [] && NonDecreasing(times)
    ensures LevelIsLeastRoom(l, times)
  {
    var last := |times| - 1;
    var earlier := Decisions(l, times[..last]);
    assert earlier[last..] == [];
    assert Room(l, times, earlier, last) == l.capacity;
    if last > 0 {
      var prior := times[..last];
      LevelIsLeast(l, prior);
      var j: nat :| j < last && LastLevel(l, prior) == Room(l, prior, Decisions(l, prior[..last - 1]), j);
      forall i: nat | i < last
        ensures LastLevel(l, times) <= Room(l, times, earlier, i)
      {
        LeastStep(l, times, i);
      }
      LeastStep(l, times, j);
    }
  }

  /** A request fits when, for every earlier call, the window opened there has room for it. */
  ghost predicate Fits(l: Limits, times: seq<int>, earlier: seq<bool>)
    requires |times| == |earlier| + 1 && NonDecreasing(times)
  {
    forall j: nat :: j < |times| ==>
      Admitted(earlier[j..]) as real + 1.0 <= Allowance(l, times[j], times[|times| - 1])
  }

  /** Exactness: under a non-decreasing clock a request is admitted if and only if it fits every window. */
  lemma {:induction false} AdmitsExactlyWhatFits(l: Limits, times: seq<int>)
    requires LimitsOk(l) && times != [] && NonDecreasing(times)
    ensures Decisions(l, times)[|times| - 1] <==> Fits(l, times, Decisions(l, times[..|times| - 1]))
  {
    LevelIsLeast(l, times);
    var earlier := Decisions(l, times[..|times| - 1]);
    var j: nat :| j < |times| && LastLevel(l, times) == Room(l, times, earlier, j);
    forall i: nat | i < |times|
      ensures Admitted(earlier[i..]) as real + 1.0 <= Allowance(l, times[i], times[|times| - 1])
              <==> Room(l, times, earlier, i) >= 1.0
    {
    }
    if Fits(l, times, earlier) {
      assert Admitted(earlier[j..]) as real + 1.0 <= Allowance(l, times[j], times[|times| - 1]);
    }
  }

  /** An admitter conforms when everything it admits fits every window of what it admitted before. */
  ghost predicate Conforms(l: Limits, times: seq<int>, ds: seq<bool>)
    requires |times| == |ds| && NonDecreasing(times)
  {
    forall k: nat :: k < |times| && ds[k] ==> Fits(l, times[..k + 1], ds[..k])
  }

  lemma {:induction false} DecisionsPrefix(l: Limits, times: seq<int>, k: nat)
    requires LimitsOk(l) && k <= |times|
    ensures Decisions(l, times)[..k] == Decisions(l, times[..k])
  {
    if k == |times| {
      assert times[..k] == times;
      assert Decisions(l, times)[..k] == Decisions(l, times);
    } else {
      var prior := times[..|times| - 1];
      DecisionsPrefix(l, prior, k);
      assert prior[..k] == times[..k];
      assert Decisions(l, times)[..k] == Decisions(l, prior)[..k];
    }
  }

  lemma {:induction false} BucketConforms(l: Limits, times: seq<int>)
    requires LimitsOk(l) && NonDecreasing(times)
    ensures Conforms(l, times, Decisions(l, times))
  {
    forall k: nat | k < |times| && Decisions(l, times)[k]
      ensures Fits(l, times[..k + 1], Decisions(l, times)[..k])
    {
      AdmittedFits(l, times, k);
    }
  }

  lemma {:induction false} AdmittedFits(l: Limits, times: seq<int>, k: nat)
    requires LimitsOk(l) && NonDecreasing(times) && k < |times| && Decisions(l, times)[k]
    ensures Fits(l, times[..k + 1], Decisions(l, times)[..k])
  {
    DecisionsPrefix(l, times, k + 1);
    DecisionsPrefix(l, times, k);
    assert Decisions(l, times[..k + 1])[k] == Decisions(l, times)[..k + 1][k];
    assert times[..k + 1][..k] == times[..k];
    AdmitsExactlyWhatFits(l, times[..k + 1]);
  }

  lemma {:induction false} ConformsPrefix(l: Limits, times: seq<int>, ds: seq<bool>, k: nat)
    requires |times| == |ds| && k <= |times| && NonDecreasing(times) && Conforms(l, times, ds)
    ensures Conforms(l, times[..k], ds[..k])
  {
    forall i: nat | i < k && ds[..k][i]
      ensures Fits(l, times[..k][..i + 1], ds[..k][..i])
    {
      assert times[..k][..i + 1] == times[..i + 1] && ds[..k][..i] == ds[..i];
    }
  }

  /** Where the bucket refuses what another admits, some window holds more of the bucket's admissions. */
  lemma {:induction false} RefusalWitness(l: Limits, times: seq<int>, other: seq<bool>) returns (j: nat)
    requires LimitsOk(l) && times != [] && NonDecreasing(times)
    requires |other| == |times| && Conforms(l, times, other)
    requires other[|times| - 1] && !Decisions(l, times)[|times| - 1]
    ensures j < |times|
    ensures Admitted(other[..|times| - 1][j..]) < Admitted(Decisions(l, times[..|times| - 1])[j..])
  {
    var last := |times| - 1;
    AdmitsExactlyWhatFits(l, times);
    var mine := Decisions(l, times[..last]);
    j :| j < |times| && Admitted(mine[j..]) as real + 1.0 > Allowance(l, times[j], times[last]);
    assert times[..last + 1] == times;
    assert Fits(l, times, other[..last]);
  }

  lemma {:induction false} AheadByWindow(mine: seq<bool>, other: seq<bool>, j: nat)
    requires |other| == |mine| && j <= |mine|
    requires Admitted(other[..j]) <= Admitted(mine[..j]) && Admitted(other[j..]) < Admitted(mine[j..])
    ensures Admitted(other) < Admitted(mine)
  {
    AdmittedJoin(mine[..j], mine[j..]);
    AdmittedJoin(other[..j], other[j..]);
    assert mine[..j] + mine[j..] == mine && other[..j] + other[j..] == other;
  }

  /** Some window ending before position `k` holds more of `mine` than of `other`. */
  ghost predicate LeadsSomewhere(mine: seq<bool>, other: seq<bool>, k: nat)
    requires k <= |mine| == |other|
  {
    exists j: nat :: j <= k && Admitted(other[..k][j..]) < Admitted(mine[..k][j..])
  }

  lemma {:induction false} AdmittedNext(ds: seq<bool>, k: nat)
    requires k < |ds|
    ensures Admitted(ds[..k + 1]) == Admitted(ds[..k]) + (if ds[k] then 1 else 0)
  {
    assert ds[..k + 1][..k] == ds[..k];
  }

  lemma {:induction false} AheadAt(mine: seq<bool>, other: seq<bool>, j: nat, k: nat)
    requires j <= k <= |mine| == |other| && Admitted(other[..j]) <= Admitted(mine[..j])
    requires Admitted(other[..k][j..]) < Admitted(mine[..k][j..])
    ensures Admitted(other[..k]) < Admitted(mine[..k])
  {
    assert other[..k][..j] == other[..j] && mine[..k][..j] == mine[..j];
    AheadByWindow(mine[..k], other[..k], j);
  }

  lemma {:induction false} NeverOvertaken(mine: seq<bool>, other: seq<bool>, n: nat)
    requires n <= |mine| == |other|
    requires forall k: nat :: k < |mine| && other[k] && !mine[k] ==> LeadsSomewhere(mine, other, k)
    ensures Admitted(other[..n]) <= Admitted(mine[..n])
  {
    if n > 0 {
      var k := n - 1;
      NeverOvertaken(mine, other, k);
      AdmittedNext(mine, k);
      AdmittedNext(other, k);
      if other[k] && !mine[k] {
        assert LeadsSomewhere(mine, other, k);
        var j: nat :| j <= k && Admitted(other[..k][j..]) < Admitted(mine[..k][j..]);
        NeverOvertaken(mine, other, j);
        AheadAt(mine, other, j, k);
      }
    }
  }

  /** Where another conforming admitter admits and the bucket refuses, the bucket is ahead in some window. */
  lemma {:induction false} RefusalLeads(l: Limits, times: seq<int>, other: seq<bool>, k: nat)
    requires LimitsOk(l) && NonDecreasing(times)
    requires |other| == |times| && Conforms(l, times, other) && k < |times|
    requires other[k] && !Decisions(l, times)[k]
    ensures LeadsSomewhere(Decisions(l, times), other, k)
  {
    var mine := Decisions(l, times);
    ConformsPrefix(l, times, other, k + 1);
    DecisionsPrefix(l, times, k + 1);
    DecisionsPrefix(l, times, k);
    assert mine[..k + 1][k] == mine[k];
    var j := RefusalWitness(l, times[..k + 1], other[..k + 1]);
    assert times[..k + 1][..k] == times[..k] && other[..k + 1][..k] == other[..k];
  }

  /**
   Optimality: no conforming admitter, however clever, has ever admitted more requests than the
   bucket, at any point of any run.
   */
  lemma {:induction false} BucketIsOptimal(l: Limits, times: seq<int>, other: seq<bool>, n: nat)
    requires LimitsOk(l) && NonDecreasing(times)
    requires |other| == |times| && Conforms(l, times, other) && n <= |times|
    ensures Admitted(other[..n]) <= Admitted(Decisions(l, times)[..n])
  {
    forall k: nat | k < |times| && other[k] && !Decisions(l, times)[k]
      ensures LeadsSomewhere(Decisions(l, times), other, k)
    {
      RefusalLeads(l, times, other, k);
    }
    NeverOvertaken(Decisions(l, times), other, n);
  }

  // ------------------------------------------------ what cannot be observed

  /** A call in a run with an expiring key: `dropped` when the store had already deleted the key. */
  datatype Call = Call(now: int, dropped: bool)

  /** The state the script finds. */
  ghost function Found(s: Option<Bucket>, call: Call): Option<Bucket> {
    if call.dropped then None else s
  }

  ghost predicate InRange(l: Limits, s: Option<Bucket>) {
    s.Some? ==> 0.0 <= s.value.tokens <= l.capacity
  }

  /** A possible run: the clock never goes back, and a key vanishes only after its time to live. */
  ghost predicate PossibleRun(l: Limits, s: Option<Bucket>, calls: seq<Call>)
    requires LimitsOk(l)
    decreases |calls|
  {
    calls == [] ||
    (&& (s.Some? ==> s.value.stamp <= calls[0].now)
     && (calls[0].dropped ==> s.Some? && calls[0].now - s.value.stamp >= Ttl(l))
     && PossibleRun(l, Some(Evaluate(l, Found(s, calls[0]), calls[0].now).0), calls[1..]))
  }

  ghost function Play(l: Limits, s: Option<Bucket>, calls: seq<Call>): (r: seq<Decision>)
    requires LimitsOk(l)
    ensures |r| == |calls|
    decreases |calls|
  {
    if calls == [] then []
    else
      var (stored, decision) := Evaluate(l, Found(s, calls[0]), calls[0].now);
      [decision] + Play(l, Some(stored), calls[1..])
  }

  /** The calls marked in `keep`, in a store that never expires anything. */
  ghost function Kept(calls: seq<Call>, keep: seq<bool>): seq<Call>
    requires |keep| == |calls|
  {
    if calls == [] then []
    else (if keep[0] then [Call(calls[0].now, false)] else []) + Kept(calls[1..], keep[1..])
  }

  ghost function KeptDecisions(ds: seq<Decision>, keep: seq<bool>): seq<Decision>
    requires |keep| == |ds|
  {
    if ds == [] then [] else (if keep[0] then [ds[0]] else []) + KeptDecisions(ds[1..], keep[1..])
  }

  /** Two stored states that no call from `now` on can tell apart. */
  ghost predicate Alike(l: Limits, s: Option<Bucket>, t: Option<Bucket>, now: int) {
    forall later: int :: now <= later ==> Level(l, s, later) == Level(l, t, later)
  }

  lemma {:induction false} LevelInRange(l: Limits, s: Option<Bucket>, now: int)
    requires LimitsOk(l) && InRange(l, s)
    ensures 0.0 <= Level(l, s, now) <= l.capacity
    ensures InRange(l, Some(Evaluate(l, s, now).0))
  {
    if s.Some? {
      GainNonNegative(l, MaxInt(0, now - s.value.stamp));
    }
  }

  /** Refilling in two steps is refilling in one. */
  lemma {:induction false} RefillTwice(l: Limits, s: Option<Bucket>, now: int, later: int)
    requires LimitsOk(l) && (s.Some? ==> s.value.stamp <= now) && now <= later
    ensures Level(l, Some(Bucket(Level(l, s, now), now)), later) == Level(l, s, later)
  {
    GainNonNegative(l, later - now);
    if s.Some? {
      GainAdds(l, now - s.value.stamp, later - now);
    }
  }

  /** A key that may have expired stands for a full bucket anyway. */
  lemma {:induction false} ExpiredMeansFull(l: Limits, b: Bucket, later: int)
    requires LimitsOk(l) && 0.0 <= b.tokens && later - b.stamp >= Ttl(l)
    ensures Level(l, Some(b), later) == l.capacity
  {
    var wait, needed := later - b.stamp, l.capacity / l.rate;
    CeilBounds(needed, Ceil(needed));
    assert 0.0 <= needed && needed * l.rate == l.capacity;
    GainIsProduct(l, wait);
    Arithmetic.ProductGrows(needed, wait as real, l.rate);
  }

  lemma {:induction false} DroppingIsUnseen(l: Limits, s: Option<Bucket>, call: Call)
    requires LimitsOk(l) && InRange(l, s) && PossibleRun(l, s, [call])
    ensures Alike(l, Found(s, call), s, call.now)
  {
    if call.dropped {
      forall later: int | call.now <= later
        ensures Level(l, None, later) == Level(l, s, later)
      {
        ExpiredMeansFull(l, s.value, later);
      }
    }
  }

  lemma {:induction false} RefusalIsUnseen(l: Limits, s: Option<Bucket>, now: int)
    requires LimitsOk(l) && (s.Some? ==> s.value.stamp <= now) && !Evaluate(l, s, now).1.allowed
    ensures Alike(l, Some(Evaluate(l, s, now).0), s, now)
  {
    forall later: int | now <= later
      ensures Level(l, Some(Evaluate(l, s, now).0), later) == Level(l, s, later)
    {
      RefillTwice(l, s, now, later);
    }
  }

  /** No admitted call is forgotten. */
  ghost predicate KeepsAdmitted(ds: seq<Decision>, keep: seq<bool>)
    requires |keep| == |ds|
  {
    ds == [] || ((ds[0].allowed ==> keep[0]) && KeepsAdmitted(ds[1..], keep[1..]))
  }

  lemma {:induction false} PlayFirst(l: Limits, s: Option<Bucket>, call: Call, rest: seq<Call>)
    requires LimitsOk(l)
    ensures var (stored, decision) := Evaluate(l, Found(s, call), call.now);
      Play(l, s, [call] + rest) == [decision] + Play(l, Some(stored), rest)
  {
    assert ([call] + rest)[1..] == rest;
  }

  lemma {:induction false} LevelDecides(l: Limits, s: Option<Bucket>, t: Option<Bucket>, now: int)
    requires LimitsOk(l) && Level(l, s, now) == Level(l, t, now)
    ensures Evaluate(l, s, now) == Evaluate(l, t, now)
  {
  }

  /** The first call of a possible run, and what it leaves for the rest. */
  lemma {:induction false} FirstCall(l: Limits, s: Option<Bucket>, t: Option<Bucket>, calls: seq<Call>)
    requires LimitsOk(l) && InRange(l, s) && calls != [] && PossibleRun(l, s, calls) && Alike(l, s, t, calls[0].now)
    ensures var (stored, decision) := Evaluate(l, Found(s, calls[0]), calls[0].now);
      && Play(l, s, calls) == [decision] + Play(l, Some(stored), calls[1..])
      && InRange(l, Some(stored)) && PossibleRun(l, Some(stored), calls[1..])
      && Evaluate(l, t, calls[0].now) == (stored, decision)
      && (!decision.allowed && calls[1..] != [] ==> Alike(l, Some(stored), t, calls[1].now))
  {
    var call, rest := calls[0], calls[1..];
    var found := Found(s, call);
    DroppingIsUnseen(l, s, call);
    LevelInRange(l, found, call.now);
    assert Level(l, found, call.now) == Level(l, s, call.now);
    LevelDecides(l, found, t, call.now);
    var (stored, decision) := Evaluate(l, found, call.now);
    if !decision.allowed && rest != [] {
      RefusalIsUnseen(l, found, call.now);
      assert call.now <= rest[0].now;
      forall later: int | rest[0].now <= later
        ensures Level(l, Some(stored), later) == Level(l, t, later)
      {
        assert Level(l, found, later) == Level(l, s, later);
      }
    }
  }

  /**
   Lazy refill and expiry are unobservable: take any possible run, forget any of its refused
   calls and every deletion of the key, and the calls that remain are decided just as before.
   */
  lemma {:induction false} Unobservable(
      l: Limits, s: Option<Bucket>, t: Option<Bucket>, calls: seq<Call>, keep: seq<bool>)
    requires LimitsOk(l) && InRange(l, s) && PossibleRun(l, s, calls)
    requires calls != [] ==> Alike(l, s, t, calls[0].now)
    requires |keep| == |calls| && KeepsAdmitted(Play(l, s, calls), keep)
    ensures Play(l, t, Kept(calls, keep)) == KeptDecisions(Play(l, s, calls), keep)
    decreases |calls|
  {
    if calls != [] {
      var call, rest := calls[0], calls[1..];
      var (stored, decision) := Evaluate(l, Found(s, call), call.now);
      FirstCall(l, s, t, calls);
      var ds := Play(l, s, calls);
      assert ds[1..] == Play(l, Some(stored), rest);
      if keep[0] {
        Unobservable(l, Some(stored), Some(stored), rest, keep[1..]);
        PlayFirst(l, t, Call(call.now, false), Kept(rest, keep[1..]));
      } else {
        Unobservable(l, Some(stored), t, rest, keep[1..]);
        assert Kept(calls, keep) == Kept(rest, keep[1..]);
      }
    }
  }

  // ---------------------------------------------------------- retry-after

  lemma {:induction false} WaitNeeded(l: Limits, tokens: real, wait: nat)
    requires LimitsOk(l) && tokens < 1.0
    ensures tokens + Gain(l, wait) >= 1.0 <==> wait >= Ceil((1.0 - tokens) / l.rate)
    ensures 1 <= Ceil((1.0 - tokens) / l.rate)
  {
    var needed := (1.0 - tokens) / l.rate;
    GainIsProduct(l, wait);
    CeilBounds(needed, wait);
    CeilBounds(needed, 0);
    assert needed * l.rate == 1.0 - tokens;
    if wait as real >= needed {
      assert wait as real * l.rate >= needed * l.rate;
    } else {
      assert wait as real * l.rate < needed * l.rate;
    }
    assert needed > 0.0;
  }

  /** The bucket after further calls at the given times. */
  ghost function Polled(l: Limits, s: Option<Bucket>, polls: seq<int>): Option<Bucket>
    requires LimitsOk(l)
    decreases |polls|
  {
    if polls == [] then s else Polled(l, Some(Evaluate(l, s, polls[0]).0), polls[1..])
  }

  /**
   Retry-After is sufficient and tight: after a refusal, however often the client polls too
   early, a call is admitted if and only if at least the announced time has passed.
   */
  lemma {:induction false} RetryAfterIsExact(l: Limits, s: Option<Bucket>, now: int, polls: seq<int>, t: int)
    requires LimitsOk(l) && !Evaluate(l, s, now).1.allowed
    requires NonDecreasing([now] + polls + [t])
    requires forall k :: 0 <= k < |polls| ==> polls[k] - now < Evaluate(l, s, now).1.retryAfterMs
    ensures Evaluate(l, Polled(l, Some(Evaluate(l, s, now).0), polls), t).1.allowed
       <==> t - now >= Evaluate(l, s, now).1.retryAfterMs
    ensures 1 <= Evaluate(l, s, now).1.retryAfterMs
  {
    var refused := Evaluate(l, s, now).0;
    PollsAreUnseen(l, refused, Some(refused), polls, t);
    var all := [now] + polls + [t];
    assert all[0] <= all[|all| - 1];
    WaitNeeded(l, refused.tokens, t - now);
  }

  lemma {:induction false} PollsAreUnseen(l: Limits, refused: Bucket, s: Option<Bucket>, polls: seq<int>, t: int)
    requires LimitsOk(l) && refused.tokens < 1.0
    requires s.Some? && refused.stamp <= s.value.stamp && Alike(l, s, Some(refused), s.value.stamp)
    requires NonDecreasing([s.value.stamp] + polls + [t])
    requires forall k :: 0 <= k < |polls| ==> polls[k] - refused.stamp < Ceil((1.0 - refused.tokens) / l.rate)
    ensures Level(l, Polled(l, s, polls), t) == Level(l, Some(refused), t)
    decreases |polls|
  {
    var all := [s.value.stamp] + polls + [t];
    if polls == [] {
      assert all[0] <= all[1];
    } else {
      var now := polls[0];
      assert all[0] <= all[1] == now;
      WaitNeeded(l, refused.tokens, now - refused.stamp);
      assert Level(l, s, now) == Level(l, Some(refused), now) < 1.0;
      RefusalIsUnseen(l, s, now);
      var next := Some(Evaluate(l, s, now).0);
      forall i, j | 0 <= i <= j < |[now] + polls[1..] + [t]|
        ensures ([now] + polls[1..] + [t])[i] <= ([now] + polls[1..] + [t])[j]
      {
        assert ([now] + polls[1..] + [t])[i] == all[i + 1] && ([now] + polls[1..] + [t])[j] == all[j + 1];
      }
      assert Alike(l, next, Some(refused), now);
      PollsAreUnseen(l, refused, next, polls[1..], t);
    }
  }

  ghost function Copies(n: nat, now: int): (r: seq<int>)
    ensures |r| == n
  {
    if n == 0 then [] else [now] + Copies(n - 1, now)
  }

  /** Calls at one instant take a token each while there is a whole one. */
  lemma {:induction false} DrawnDown(l: Limits, b: Bucket, n: nat)
    requires LimitsOk(l) && 0.0 <= b.tokens <= l.capacity
    ensures Level(l, Polled(l, Some(b), Copies(n, b.stamp)), b.stamp) >= 1.0 <==> n as real + 1.0 <= b.tokens
    decreases n
  {
    if n > 0 {
      var next := Evaluate(l, Some(b), b.stamp).0;
      assert Level(l, Some(b), b.stamp) == b.tokens;
      DrawnDown(l, next, n - 1);
    }
  }

  /**
   The announced remainder is exact: after a call that reports `remaining`, a call that follows `n`
   more calls at the same instant is admitted if and only if `n` is less than it.  And a call is
   told to wait if and only if it is refused.
   */
  lemma {:induction false} RemainingIsExact(l: Limits, s: Option<Bucket>, now: int, n: nat)
    requires LimitsOk(l) && InRange(l, s)
    ensures var (stored, decision) := Evaluate(l, s, now);
      && (Evaluate(l, Polled(l, Some(stored), Copies(n, now)), now).1.allowed <==> n < decision.remaining)
      && (decision.retryAfterMs == 0 <==> decision.allowed)
  {
    var (stored, decision) := Evaluate(l, s, now);
    LevelInRange(l, s, now);
    DrawnDown(l, stored, n);
    if !decision.allowed {
      WaitNeeded(l, stored.tokens, 0);
    }
  }

  /** The key lives for the least time that is at least a second and at least twice what filling takes. */
  lemma {:induction false} TtlIsLeast(l: Limits, ms: int)
    requires LimitsOk(l)
    ensures ms >= Ttl(l) <==> ms >= 1000 && (ms / 2) as real * l.rate >= l.capacity
  {
    var needed := l.capacity / l.rate;
    assert needed * l.rate == l.capacity;
    CeilBounds(needed, ms / 2);
    if (ms / 2) as real >= needed {
      Arithmetic.ProductGrows(needed, (ms / 2) as real, l.rate);
    } else {
      Arithmetic.ProductGrowsStrictly((ms / 2) as real, needed, l.rate);
    }
  }

  const NANOS_PER_SECOND := 1_000_000_000
  const NANOS_PER_MS := 1_000_000

  /** The whole seconds written to the Retry-After header. */
  function RetryAfterHeader(retryAfterMs: nat): int {
    MaxInt(1, (retryAfterMs * NANOS_PER_MS + NANOS_PER_SECOND - 1) / NANOS_PER_SECOND)
  }

  /** The header is the least positive number of whole seconds that covers the announced wait. */
  lemma {:induction false} HeaderCoversWait(retryAfterMs: nat, seconds: int)
    ensures 1 <= seconds && retryAfterMs <= seconds * 1000 <==> RetryAfterHeader(retryAfterMs) <= seconds
  {
  }
}
