/**
 Plain round robin over `n` targets: a cursor, and a scan that takes the first eligible
 target at or after it.
 */
module RoundRobin {

  /** `x mod n`, for the sums the scan produces. */
  function Wrap(n: nat, x: nat): (r: nat)
    requires 0 < n && x < 2 * n
    ensures r < n
  {
    if x < n then x else x - n
  }

  lemma {:induction false} WrapIsModulo(n: nat, x: nat)
    requires 0 < n && x < 2 * n
    ensures Wrap(n, x) == x % n
  {
    if n <= x {
      assert x == n * 1 + (x - n);
    }
  }

  /** How far ahead of the cursor target `x` stands, going round. */
  function Distance(n: nat, cursor: nat, x: nat): (r: nat)
    requires cursor < n && x < n
    ensures r < n && Wrap(n, cursor + r) == x
  {
    if cursor <= x then x - cursor else x + n - cursor
  }

  /** The first eligible target stands `k` places ahead of the cursor. */
  ghost predicate FirstAhead(n: nat, cursor: nat, eligible: set<nat>, k: nat)
    requires cursor < n
  {
    && k < n
    && Wrap(n, cursor + k) in eligible
    && forall x :: x in eligible && x < n ==> k <= Distance(n, cursor, x)
  }

  ghost predicate Candidates(n: nat, eligible: set<nat>) {
    eligible != {} && forall x :: x in eligible ==> x < n
  }

  lemma {:induction false} FirstAheadUnique(n: nat, cursor: nat, eligible: set<nat>, j: nat, k: nat)
    requires cursor < n && FirstAhead(n, cursor, eligible, j) && FirstAhead(n, cursor, eligible, k)
    ensures j == k
  {
    assert Distance(n, cursor, Wrap(n, cursor + j)) == j;
    assert Distance(n, cursor, Wrap(n, cursor + k)) == k;
  }

  lemma {:induction false} FirstAheadExists(n: nat, cursor: nat, eligible: set<nat>)
    requires cursor < n && Candidates(n, eligible)
    ensures exists k :: FirstAhead(n, cursor, eligible, k)
    decreases |eligible|
  {
    var x :| x in eligible;
    var rest := eligible - {x};
    var d := Distance(n, cursor, x);
    assert eligible == rest + {x};
    if rest == {} {
      assert FirstAhead(n, cursor, eligible, d);
    } else {
      FirstAheadExists(n, cursor, rest);
      var k :| FirstAhead(n, cursor, rest, k);
      assert FirstAhead(n, cursor, eligible, if d < k then d else k);
    }
  }

  ghost function Step(n: nat, cursor: nat, eligible: set<nat>): (k: nat)
    requires cursor < n && Candidates(n, eligible)
    ensures FirstAhead(n, cursor, eligible, k)
  {
    FirstAheadExists(n, cursor, eligible);
    var k :| FirstAhead(n, cursor, eligible, k);
    k
  }

  /** The targets chosen by `count` consecutive calls while eligibility stays put. */
  ghost function Schedule(n: nat, cursor: nat, eligible: set<nat>, count: nat): (r: seq<nat>)
    requires cursor < n && Candidates(n, eligible)
    ensures |r| == count
    decreases count
  {
    if count == 0 then []
    else
      var k := Step(n, cursor, eligible);
      [Wrap(n, cursor + k)] + Schedule(n, Wrap(n, Wrap(n, cursor + k) + 1), eligible, count - 1)
  }

  /** The eligible targets among the next `len` places, in the order the cursor meets them. */
  ghost function Ahead(n: nat, cursor: nat, eligible: set<nat>, len: nat): seq<nat>
    requires cursor < n
    decreases len
  {
    if len == 0 then []
    else (if cursor in eligible then [cursor] else []) + Ahead(n, Wrap(n, cursor + 1), eligible, len - 1)
  }

  lemma {:induction false} OneFurther(n: nat, cursor: nat, x: nat)
    requires cursor < n && x < n && x != cursor
    ensures Distance(n, cursor, x) == Distance(n, Wrap(n, cursor + 1), x) + 1
  {
  }

  /** The first eligible target ahead of the next place is one place further from this one. */
  lemma {:induction false} FirstAheadPast(n: nat, cursor: nat, eligible: set<nat>, k: nat)
    requires cursor < n && Candidates(n, eligible) && cursor !in eligible
    requires FirstAhead(n, Wrap(n, cursor + 1), eligible, k)
    ensures FirstAhead(n, cursor, eligible, k + 1)
    ensures Wrap(n, cursor + (k + 1)) == Wrap(n, Wrap(n, cursor + 1) + k)
  {
    var next := Wrap(n, cursor + 1);
    OneFurther(n, cursor, Wrap(n, next + k));
    forall y | y in eligible && y < n
      ensures k + 1 <= Distance(n, cursor, y)
    {
      OneFurther(n, cursor, y);
    }
  }

  lemma {:induction false} StepPast(n: nat, cursor: nat, eligible: set<nat>)
    requires cursor < n && Candidates(n, eligible) && cursor !in eligible
    ensures Step(n, cursor, eligible) == Step(n, Wrap(n, cursor + 1), eligible) + 1
    ensures Wrap(n, cursor + Step(n, cursor, eligible))
         == Wrap(n, Wrap(n, cursor + 1) + Step(n, Wrap(n, cursor + 1), eligible))
  {
    var k := Step(n, Wrap(n, cursor + 1), eligible);
    FirstAheadPast(n, cursor, eligible, k);
    FirstAheadUnique(n, cursor, eligible, k + 1, Step(n, cursor, eligible));
  }

  /** An ineligible target under the cursor is simply passed over. */
  lemma {:induction false} PassOver(n: nat, cursor: nat, eligible: set<nat>, count: nat)
    requires cursor < n && Candidates(n, eligible) && cursor !in eligible && 0 < count
    ensures Schedule(n, cursor, eligible, count) == Schedule(n, Wrap(n, cursor + 1), eligible, count)
  {
    StepPast(n, cursor, eligible);
  }

  lemma {:induction false} ScheduleIsAhead(n: nat, cursor: nat, eligible: set<nat>, len: nat)
    requires cursor < n && Candidates(n, eligible)
    ensures Schedule(n, cursor, eligible, |Ahead(n, cursor, eligible, len)|) == Ahead(n, cursor, eligible, len)
    decreases len
  {
    if len > 0 {
      var next := Wrap(n, cursor + 1);
      var rest := Ahead(n, next, eligible, len - 1);
      ScheduleIsAhead(n, next, eligible, len - 1);
      if cursor in eligible {
        assert Distance(n, cursor, cursor) == 0;
        assert FirstAhead(n, cursor, eligible, 0);
        FirstAheadUnique(n, cursor, eligible, 0, Step(n, cursor, eligible));
      } else if rest != [] {
        PassOver(n, cursor, eligible, |rest|);
      }
    }
  }

  lemma {:induction false} AheadMembers(n: nat, cursor: nat, eligible: set<nat>, len: nat)
    requires cursor < n && len <= n
    ensures forall k :: 0 <= k < |Ahead(n, cursor, eligible, len)| ==> Ahead(n, cursor, eligible, len)[k] < n
    ensures forall x: nat :: x < n ==>
        (x in Ahead(n, cursor, eligible, len) <==> x in eligible && Distance(n, cursor, x) < len)
    decreases len
  {
    if len > 0 {
      var next := Wrap(n, cursor + 1);
      AheadMembers(n, next, eligible, len - 1);
      forall x: nat | x < n
        ensures x in Ahead(n, cursor, eligible, len) <==> x in eligible && Distance(n, cursor, x) < len
      {
        if x == cursor {
          assert Distance(n, next, x) == n - 1;
        } else {
          assert Distance(n, cursor, x) == Distance(n, next, x) + 1;
        }
      }
    }
  }

  /** Going round: each entry stands strictly further from the starting cursor than the one before. */
  ghost predicate InCyclicOrder(n: nat, cursor: nat, order: seq<nat>)
    requires cursor < n
  {
    && (forall k :: 0 <= k < |order| ==> order[k] < n)
    && (forall j, k :: 0 <= j < k < |order| ==> Distance(n, cursor, order[j]) < Distance(n, cursor, order[k]))
  }

  /** What lies ahead of the next place, short of a whole round, is in order from this place too, and misses it. */
  lemma {:induction false} RestIsFurther(n: nat, cursor: nat, rest: seq<nat>)
    requires cursor < n && InCyclicOrder(n, Wrap(n, cursor + 1), rest)
    requires forall k :: 0 <= k < |rest| ==> rest[k] < n && Distance(n, Wrap(n, cursor + 1), rest[k]) < n - 1
    ensures InCyclicOrder(n, cursor, rest)
    ensures forall k :: 0 <= k < |rest| ==> rest[k] != cursor
  {
    var next := Wrap(n, cursor + 1);
    forall k | 0 <= k < |rest|
      ensures rest[k] != cursor && Distance(n, cursor, rest[k]) == Distance(n, next, rest[k]) + 1
    {
      assert Distance(n, next, cursor) == n - 1;
      OneFurther(n, cursor, rest[k]);
    }
  }

  lemma {:induction false} FirstStaysFirst(n: nat, cursor: nat, rest: seq<nat>)
    requires cursor < n && InCyclicOrder(n, cursor, rest)
    requires forall k :: 0 <= k < |rest| ==> rest[k] != cursor
    ensures InCyclicOrder(n, cursor, [cursor] + rest)
  {
  }

  lemma {:induction false} AheadOrdered(n: nat, cursor: nat, eligible: set<nat>, len: nat)
    requires cursor < n && len <= n
    ensures InCyclicOrder(n, cursor, Ahead(n, cursor, eligible, len))
    decreases len
  {
    if len > 0 {
      var next := Wrap(n, cursor + 1);
      var rest := Ahead(n, next, eligible, len - 1);
      AheadOrdered(n, next, eligible, len - 1);
      AheadMembers(n, next, eligible, len - 1);
      forall k | 0 <= k < |rest| ensures rest[k] < n && Distance(n, next, rest[k]) < n - 1 {
        assert rest[k] in rest;
      }
      RestIsFurther(n, cursor, rest);
      if cursor in eligible {
        FirstStaysFirst(n, cursor, rest);
      } else {
        assert [] + rest == rest;
      }
    }
  }

  lemma {:induction false} DistinctSize(order: seq<nat>, members: set<nat>)
    requires forall j, k :: 0 <= j < k < |order| ==> order[j] != order[k]
    requires forall x :: x in order <==> x in members
    ensures |order| == |members|
  {
    if order == [] {
      assert members == {};
    } else {
      var last := order[|order| - 1];
      var init := order[..|order| - 1];
      assert order == init + [last];
      DistinctSize(init, members - {last});
    }
  }

  /**
   While the eligible set stays put, any |eligible| consecutive calls, from any cursor, serve
   every eligible target exactly once and in cyclic order.
   */
  lemma {:induction false} FairRound(n: nat, cursor: nat, eligible: set<nat>)
    requires cursor < n && Candidates(n, eligible)
    ensures InCyclicOrder(n, cursor, Schedule(n, cursor, eligible, |eligible|))
    ensures forall x :: x in Schedule(n, cursor, eligible, |eligible|) <==> x in eligible
    ensures forall j, k :: 0 <= j < k < |eligible| ==>
        Schedule(n, cursor, eligible, |eligible|)[j] != Schedule(n, cursor, eligible, |eligible|)[k]
  {
    var order := Ahead(n, cursor, eligible, n);
    ScheduleIsAhead(n, cursor, eligible, n);
    AheadMembers(n, cursor, eligible, n);
    AheadOrdered(n, cursor, eligible, n);
    forall x
      ensures x in order <==> x in eligible
    {
      if x in order {
        var k :| 0 <= k < |order| && order[k] == x;
      }
    }
    DistinctSize(order, eligible);
  }
}
