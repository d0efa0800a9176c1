/**
 Smooth weighted round robin as a game on the vector of current weights: on each
 call every eligible target earns its own weight, and the largest eligible entry
 pays the whole amount handed out.  Which targets are eligible may change
 arbitrarily from one call to the next.
 */
module WeightedRoundRobin {
  import opened Results

  // ---------------------------------------------------------------- sums

  ghost predicate Within(members: set<nat>, n: nat) {
    forall i :: i in members ==> i < n
  }

  ghost predicate Everyone(members: set<nat>, n: nat) {
    Within(members, n) && forall i: nat :: i < n ==> i in members
  }

  /** The sum of `v` over the positions in `members`. */
  ghost function SumOver(v: seq<int>, members: set<nat>): int {
    if v == [] then 0
    else SumOver(v[..|v| - 1], members) + (if |v| - 1 in members then v[|v| - 1] else 0)
  }

  ghost function Total(v: seq<int>): int {
    if v == [] then 0 else Total(v[..|v| - 1]) + v[|v| - 1]
  }

  lemma {:induction false} SumEveryone(v: seq<int>, members: set<nat>)
    requires forall i: nat :: i < |v| ==> i in members
    ensures SumOver(v, members) == Total(v)
  {
    if v != [] {
      SumEveryone(v[..|v| - 1], members);
    }
  }

  /** The other targets, and how many they are. */
  lemma {:induction false} Complement(members: set<nat>, n: nat) returns (rest: set<nat>)
    requires Within(members, n)
    ensures Within(rest, n) && rest !! members
    ensures forall i: nat :: i < n ==> i in members || i in rest
    ensures |rest| + |members| == n
  {
    if n == 0 {
      assert members == {};
      rest := {};
    } else {
      rest := Complement(members - {n - 1}, n - 1);
      if n - 1 !in members {
        assert members - {n - 1} == members;
        rest := rest + {n - 1};
      }
    }
  }

  lemma {:induction false} SumCongruent(v: seq<int>, a: set<nat>, b: set<nat>)
    requires forall i: nat :: i < |v| ==> (i in a <==> i in b)
    ensures SumOver(v, a) == SumOver(v, b)
  {
    if v != [] {
      SumCongruent(v[..|v| - 1], a, b);
    }
  }

  lemma {:induction false} SumInsert(v: seq<int>, members: set<nat>, j: nat)
    requires j < |v| && j !in members
    ensures SumOver(v, members + {j}) == SumOver(v, members) + v[j]
  {
    if j == |v| - 1 {
      SumCongruent(v[..|v| - 1], members + {j}, members);
    } else {
      SumInsert(v[..|v| - 1], members, j);
    }
  }

  lemma {:induction false} SumSplit(v: seq<int>, a: set<nat>, b: set<nat>)
    requires a !! b
    ensures SumOver(v, a + b) == SumOver(v, a) + SumOver(v, b)
  {
    if v != [] {
      SumSplit(v[..|v| - 1], a, b);
    }
  }

  lemma {:induction false} SumNonNegative(v: seq<int>, members: set<nat>)
    requires forall i: nat :: i < |v| && i in members ==> 0 <= v[i]
    ensures 0 <= SumOver(v, members)
  {
    if v != [] {
      SumNonNegative(v[..|v| - 1], members);
    }
  }

  lemma {:induction false} SumUpdate(v: seq<int>, j: nat, x: int, members: set<nat>)
    requires j < |v|
    ensures SumOver(v[j := x], members)
         == SumOver(v, members) + (if j in members then x - v[j] else 0)
  {
    if j == |v| - 1 {
      assert v[j := x][..|v| - 1] == v[..|v| - 1];
    } else {
      assert v[j := x][..|v| - 1] == v[..|v| - 1][j := x];
      SumUpdate(v[..|v| - 1], j, x, members);
    }
  }

  lemma {:induction false} SumZero(v: seq<int>, members: set<nat>)
    requires forall i: nat :: i < |v| && i in members ==> v[i] == 0
    ensures SumOver(v, members) == 0
  {
    if v != [] {
      SumZero(v[..|v| - 1], members);
    }
  }

  lemma {:induction false} PartBelowTotal(v: seq<int>, members: set<nat>)
    requires forall i: nat :: i < |v| ==> 0 <= v[i]
    ensures SumOver(v, members) <= Total(v)
  {
    if v != [] {
      PartBelowTotal(v[..|v| - 1], members);
    }
  }

  lemma {:induction false} SumSingle(v: seq<int>, j: nat)
    requires j < |v|
    ensures SumOver(v, {j}) == v[j]
  {
    SumZero(v, {});
    SumInsert(v, {}, j);
    assert {} + {j} == {j};
  }

  // ------------------------------------------------------------ one call

  /** One locked call: who was eligible, and who was chosen (nobody, when nobody was eligible). */
  datatype Selection = Selection(eligible: set<nat>, winner: Option<nat>)

  ghost predicate WeightsOk(w: seq<int>) {
    0 < |w| && forall i: nat :: i < |w| ==> 0 < w[i]
  }

  /** Every eligible target has earned its weight. */
  ghost function Credited(w: seq<int>, cur: seq<int>, eligible: set<nat>): (r: seq<int>)
    requires |w| == |cur|
  {
    seq(|cur|, i requires 0 <= i < |cur| => if i in eligible then cur[i] + w[i] else cur[i])
  }

  /** `s` is the first of the largest eligible entries. */
  ghost predicate IsWinner(v: seq<int>, eligible: set<nat>, s: nat) {
    && s < |v|
    && s in eligible
    && (forall j: nat :: j < |v| && j in eligible ==> v[j] <= v[s])
    && (forall j: nat :: j < s && j in eligible ==> v[j] < v[s])
  }

  ghost predicate Legal(w: seq<int>, cur: seq<int>, sel: Selection)
    requires |w| == |cur|
  {
    && Within(sel.eligible, |w|)
    && match sel.winner
       case None => sel.eligible == {}
       case Some(s) => IsWinner(Credited(w, cur, sel.eligible), sel.eligible, s)
  }

  ghost function After(w: seq<int>, cur: seq<int>, sel: Selection): (r: seq<int>)
    requires |w| == |cur|
    requires Legal(w, cur, sel)
    ensures |r| == |cur|
  {
    match sel.winner
    case None => cur
    case Some(s) =>
      var credited := Credited(w, cur, sel.eligible);
      credited[s := credited[s] - SumOver(w, sel.eligible)]
  }

  lemma {:induction false} WinnerUnique(v: seq<int>, eligible: set<nat>, s: nat, t: nat)
    requires IsWinner(v, eligible, s) && IsWinner(v, eligible, t)
    ensures s == t
  {
  }

  lemma {:induction false} SumCredited(w: seq<int>, cur: seq<int>, eligible: set<nat>, members: set<nat>)
    requires |w| == |cur|
    ensures SumOver(Credited(w, cur, eligible), members)
         == SumOver(cur, members) + SumOver(w, members * eligible)
  {
    if cur != [] {
      var m := |cur| - 1;
      assert Credited(w, cur, eligible)[..m] == Credited(w[..m], cur[..m], eligible);
      SumCredited(w[..m], cur[..m], eligible, members);
    }
  }

  lemma {:induction false} SumCharged(
      w: seq<int>, cur: seq<int>, eligible: set<nat>, s: nat, paid: int, members: set<nat>)
    requires |w| == |cur| && s < |cur|
    ensures SumOver(Credited(w, cur, eligible)[s := Credited(w, cur, eligible)[s] - paid], members)
         == SumOver(cur, members) + SumOver(w, members * eligible) - (if s in members then paid else 0)
  {
    var credited := Credited(w, cur, eligible);
    SumCredited(w, cur, eligible, members);
    SumUpdate(credited, s, credited[s] - paid, members);
  }

  /** What one call does to the sum over any set of targets. */
  lemma {:induction false} SumAfter(w: seq<int>, cur: seq<int>, sel: Selection, members: set<nat>)
    requires |w| == |cur| && Legal(w, cur, sel) && sel.winner.Some?
    ensures SumOver(After(w, cur, sel), members)
         == SumOver(cur, members) + SumOver(w, members * sel.eligible)
            - (if sel.winner.value in members then SumOver(w, sel.eligible) else 0)
  {
    SumCharged(w, cur, sel.eligible, sel.winner.value, SumOver(w, sel.eligible), members);
  }

  lemma {:induction false} TotalAfter(w: seq<int>, cur: seq<int>, sel: Selection)
    requires |w| == |cur| && Legal(w, cur, sel) && sel.winner.Some?
    ensures Total(After(w, cur, sel)) == Total(cur)
  {
    var rest := Complement(sel.eligible, |w|);
    var all := sel.eligible + rest;
    SumAfter(w, cur, sel, all);
    assert all * sel.eligible == sel.eligible;
    SumEveryone(cur, all);
    SumEveryone(After(w, cur, sel), all);
  }

  // ------------------------------------------- the fairness invariant

  /** How far the sum over `size` of `n` targets may drift from zero. */
  ghost function Slack(total: int, n: nat, size: nat): int
    requires size <= n
  {
    total * (size * (n - size))
  }

  ghost predicate Balanced(w: seq<int>, cur: seq<int>) {
    && |w| == |cur|
    && Total(cur) == 0
    && (forall members: set<nat> :: Within(members, |w|) && |members| <= |w| ==>
          -Slack(Total(w), |w|, |members|) <= SumOver(cur, members))
  }

  lemma {:induction false} SlackAverage(total: int, n: nat, size: nat)
    requires 1 <= size < n
    ensures Slack(total, n, size - 1) + Slack(total, n, size + 1) == 2 * Slack(total, n, size) - 2 * total
  {
    assert (size - 1) * (n - (size - 1)) + (size + 1) * (n - (size + 1)) == 2 * (size * (n - size)) - 2;
    calc {
      Slack(total, n, size - 1) + Slack(total, n, size + 1);
      total * ((size - 1) * (n - (size - 1)) + (size + 1) * (n - (size + 1)));
      total * (2 * (size * (n - size)) - 2);
      2 * Slack(total, n, size) - 2 * total;
    }
  }

  /**
   The heart of the matter: the winner is in `members` and an eligible rival is not.
   Since the winner holds at least as much as the rival, twice the sum over `members`
   is at least the sum without the winner plus the sum with the rival.
   */
  lemma {:induction false} WinnerPaysFromSurplus(
      w: seq<int>, cur: seq<int>, sel: Selection, members: set<nat>, rival: nat)
    requires WeightsOk(w) && Balanced(w, cur) && Legal(w, cur, sel)
    requires Within(members, |w|) && |members| <= |w|
    requires sel.winner.Some? && sel.winner.value in members
    requires rival in sel.eligible && rival !in members
    ensures -Slack(Total(w), |w|, |members|) <= SumOver(After(w, cur, sel), members)
  {
    var s, e, n := sel.winner.value, sel.eligible, |w|;
    var credited := Credited(w, cur, e);
    var less, more := members - {s}, members + {rival};
    var others := Complement(more, n);
    // The three sums, after crediting.
    SumInsert(credited, less, s);
    assert less + {s} == members;
    SumInsert(credited, members, rival);
    assert 2 * SumOver(credited, members) >= SumOver(credited, less) + SumOver(credited, more);
    // Crediting only adds.
    SumCredited(w, cur, e, less);
    SumCredited(w, cur, e, more);
    SumNonNegative(w, less * e);
    SumNonNegative(w, more * e);
    SlackAverage(Total(w), n, |members|);
    assert SumOver(credited, members) >= Total(w) - Slack(Total(w), n, |members|);
    // The winner pays no more than the total weight.
    PartBelowTotal(w, e);
    SumCredited(w, cur, e, members);
    SumAfter(w, cur, sel, members);
  }

  lemma {:induction false} BalancedSubset(w: seq<int>, cur: seq<int>, sel: Selection, members: set<nat>)
    requires WeightsOk(w) && Balanced(w, cur) && Legal(w, cur, sel) && sel.winner.Some?
    requires Within(members, |w|) && |members| <= |w|
    ensures -Slack(Total(w), |w|, |members|) <= SumOver(After(w, cur, sel), members)
  {
    var s, e := sel.winner.value, sel.eligible;
    if s in members && !(e <= members) {
      var rival :| rival in e && rival !in members;
      WinnerPaysFromSurplus(w, cur, sel, members, rival);
    } else {
      SumAfter(w, cur, sel, members);
      SumNonNegative(w, members * e);
      if s in members {
        assert members * e == e;
      }
    }
  }

  /** Every call keeps the vector balanced, whatever was eligible. */
  lemma {:induction false} CallKeepsBalance(w: seq<int>, cur: seq<int>, sel: Selection)
    requires WeightsOk(w) && Balanced(w, cur) && Legal(w, cur, sel)
    ensures Balanced(w, After(w, cur, sel))
  {
    if sel.winner.Some? {
      TotalAfter(w, cur, sel);
      forall members: set<nat> | Within(members, |w|) && |members| <= |w|
        ensures -Slack(Total(w), |w|, |members|) <= SumOver(After(w, cur, sel), members)
      {
        BalancedSubset(w, cur, sel, members);
      }
    }
  }

  // ------------------------------------------------------------ whole runs

  ghost predicate LegalRun(w: seq<int>, cur: seq<int>, run: seq<Selection>)
    requires |w| == |cur|
    decreases |run|
  {
    run == [] || (Legal(w, cur, run[0]) && LegalRun(w, After(w, cur, run[0]), run[1..]))
  }

  /** The current weights after a whole run. */
  ghost function AfterRun(w: seq<int>, cur: seq<int>, run: seq<Selection>): (r: seq<int>)
    requires |w| == |cur| && LegalRun(w, cur, run)
    ensures |r| == |cur|
    decreases |run|
  {
    if run == [] then cur else AfterRun(w, After(w, cur, run[0]), run[1..])
  }

  ghost function Zeros(n: nat): seq<int> {
    seq(n, i => 0)
  }

  lemma {:induction false} SlackNonNegative(total: int, n: nat, size: nat)
    requires 0 <= total && size <= n
    ensures 0 <= Slack(total, n, size)
  {
    ProductNonNegative(size, n - size);
    ProductNonNegative(total, size * (n - size));
  }

  lemma {:induction false} ProductNonNegative(x: int, y: int)
    requires 0 <= x && 0 <= y
    ensures 0 <= x * y
  {
  }

  lemma {:induction false} ZerosSum(n: nat, members: set<nat>)
    ensures SumOver(Zeros(n), members) == 0
  {
    SumZero(Zeros(n), members);
  }

  lemma {:induction false} ZerosBalanced(w: seq<int>)
    requires WeightsOk(w)
    ensures Balanced(w, Zeros(|w|))
  {
    var all := Complement({}, |w|);
    SumEveryone(Zeros(|w|), all);
    ZerosSum(|w|, all);
    PartBelowTotal(w, {});
    SumZero(w, {});
    forall members: set<nat> | Within(members, |w|) && |members| <= |w|
      ensures -Slack(Total(w), |w|, |members|) <= SumOver(Zeros(|w|), members)
    {
      ZerosSum(|w|, members);
      SlackNonNegative(Total(w), |w|, |members|);
    }
  }

  lemma {:induction false} RunKeepsBalance(w: seq<int>, cur: seq<int>, run: seq<Selection>)
    requires WeightsOk(w) && Balanced(w, cur) && LegalRun(w, cur, run)
    ensures Balanced(w, AfterRun(w, cur, run))
    decreases |run|
  {
    if run != [] {
      CallKeepsBalance(w, cur, run[0]);
      RunKeepsBalance(w, After(w, cur, run[0]), run[1..]);
    }
  }

  /**
   In every run of a fresh router the current weights sum to zero, and the sum over any
   l of the n targets stays within W * l * (n - l) of zero.
   */
  lemma {:induction false} SubsetFairness(w: seq<int>, run: seq<Selection>, members: set<nat>)
    requires WeightsOk(w) && LegalRun(w, Zeros(|w|), run) && Within(members, |w|)
    ensures Total(AfterRun(w, Zeros(|w|), run)) == 0
    ensures |members| <= |w|
    ensures -Slack(Total(w), |w|, |members|)
         <= SumOver(AfterRun(w, Zeros(|w|), run), members)
         <= Slack(Total(w), |w|, |members|)
  {
    var cur := AfterRun(w, Zeros(|w|), run);
    ZerosBalanced(w);
    RunKeepsBalance(w, Zeros(|w|), run);
    var rest := Complement(members, |w|);
    SumSplit(cur, members, rest);
    SumEveryone(cur, members + rest);
    assert Slack(Total(w), |w|, |rest|) == Slack(Total(w), |w|, |members|) by {
      assert |rest| * (|w| - |rest|) == |members| * (|w| - |members|);
    }
  }

  lemma {:induction false} SlackOfOne(total: int, n: nat)
    requires 1 <= n
    ensures Slack(total, n, 1) == (n - 1) * total
  {
    assert 1 * (n - 1) == n - 1;
  }

  /** No entry leaves [-(n-1)W, (n-1)W]. */
  lemma {:induction false} EntryBound(w: seq<int>, run: seq<Selection>, i: nat)
    requires WeightsOk(w) && LegalRun(w, Zeros(|w|), run) && i < |w|
    ensures -((|w| - 1) * Total(w)) <= AfterRun(w, Zeros(|w|), run)[i] <= (|w| - 1) * Total(w)
  {
    SubsetFairness(w, run, {i});
    SumSingle(AfterRun(w, Zeros(|w|), run), i);
    SlackOfOne(Total(w), |w|);
  }

  /** What target `i` has earned: its weight on each call at which it was eligible. */
  ghost function Earned(w: seq<int>, run: seq<Selection>, i: nat): int
    requires i < |w|
  {
    if run == [] then 0
    else (if i in run[0].eligible then w[i] else 0) + Earned(w, run[1..], i)
  }

  /** What target `i` has been served: the whole eligible weight of each call it won. */
  ghost function Served(w: seq<int>, run: seq<Selection>, i: nat): int
    requires i < |w|
  {
    if run == [] then 0
    else (if run[0].winner == Some(i) then SumOver(w, run[0].eligible) else 0) + Served(w, run[1..], i)
  }

  lemma {:induction false} EntryIsEarnedLessServed(w: seq<int>, cur: seq<int>, run: seq<Selection>, i: nat)
    requires |w| == |cur| && LegalRun(w, cur, run) && i < |w|
    ensures AfterRun(w, cur, run)[i] == cur[i] + Earned(w, run, i) - Served(w, run, i)
    decreases |run|
  {
    if run != [] {
      EntryIsEarnedLessServed(w, After(w, cur, run[0]), run[1..], i);
    }
  }

  /** Served share and earned credit never drift apart by more than (n-1)W, in any run. */
  lemma {:induction false} ServiceFairness(w: seq<int>, run: seq<Selection>, i: nat)
    requires WeightsOk(w) && LegalRun(w, Zeros(|w|), run) && i < |w|
    ensures -((|w| - 1) * Total(w)) <= Earned(w, run, i) - Served(w, run, i) <= (|w| - 1) * Total(w)
  {
    EntryBound(w, run, i);
    EntryIsEarnedLessServed(w, Zeros(|w|), run, i);
  }

  /**
   The vector fits the 64-bit fields that hold it: when n * W does, no value computed by a
   call, before or after the winner pays, can overflow.
   */
  lemma {:induction false} NoOverflow(w: seq<int>, run: seq<Selection>, sel: Selection, i: nat)
    requires WeightsOk(w) && LegalRun(w, Zeros(|w|), run) && i < |w|
    requires Legal(w, AfterRun(w, Zeros(|w|), run), sel)
    requires |w| * Total(w) < 0x8000_0000_0000_0000
    ensures var cur := AfterRun(w, Zeros(|w|), run);
      && 0 <= SumOver(w, sel.eligible) <= Total(w)
      && -0x8000_0000_0000_0000 <= Credited(w, cur, sel.eligible)[i] < 0x8000_0000_0000_0000
      && -0x8000_0000_0000_0000 <= After(w, cur, sel)[i] < 0x8000_0000_0000_0000
  {
    var cur := AfterRun(w, Zeros(|w|), run);
    EntryBound(w, run, i);
    PartBelowTotal(w, sel.eligible);
    SumNonNegative(w, sel.eligible);
    SumSingle(w, i);
    PartBelowTotal(w, {i});
    SlackOfOne(Total(w), |w|);
    assert (|w| - 1) * Total(w) + Total(w) == |w| * Total(w);
  }

  // ------------------------------------------------------- joining runs

  lemma {:induction false} JoinRuns(w: seq<int>, cur: seq<int>, a: seq<Selection>, b: seq<Selection>)
    requires |w| == |cur|
    ensures LegalRun(w, cur, a + b) <==> LegalRun(w, cur, a) && LegalRun(w, AfterRun(w, cur, a), b)
    ensures LegalRun(w, cur, a + b) ==> AfterRun(w, cur, a + b) == AfterRun(w, AfterRun(w, cur, a), b)
    decreases |a|
  {
    if a == [] {
      assert a + b == b;
    } else {
      assert (a + b)[1..] == a[1..] + b;
      if Legal(w, cur, a[0]) {
        JoinRuns(w, After(w, cur, a[0]), a[1..], b);
      }
    }
  }

  ghost function TimesEligible(run: seq<Selection>, i: nat): nat {
    if run == [] then 0 else (if i in run[0].eligible then 1 else 0) + TimesEligible(run[1..], i)
  }

  ghost function TimesWon(run: seq<Selection>, i: nat): nat {
    if run == [] then 0 else (if run[0].winner == Some(i) then 1 else 0) + TimesWon(run[1..], i)
  }

  lemma {:induction false} UnservedGains(w: seq<int>, run: seq<Selection>, i: nat)
    requires i < |w| && TimesWon(run, i) == 0
    ensures Served(w, run, i) == 0
    ensures Earned(w, run, i) == TimesEligible(run, i) * w[i]
  {
    if run != [] {
      UnservedGains(w, run[1..], i);
    }
  }

  /**
   No starvation: in any stretch of any run, a target that is eligible more than
   2(n-1)W / weight times is chosen at least once, however the others come and go.
   */
  lemma {:induction false} NoStarvation(w: seq<int>, before: seq<Selection>, stretch: seq<Selection>, i: nat)
    requires WeightsOk(w) && i < |w| && LegalRun(w, Zeros(|w|), before + stretch)
    requires TimesEligible(stretch, i) * w[i] > 2 * ((|w| - 1) * Total(w))
    ensures TimesWon(stretch, i) > 0
  {
    JoinRuns(w, Zeros(|w|), before, stretch);
    EntryBound(w, before, i);
    EntryBound(w, before + stretch, i);
    if TimesWon(stretch, i) == 0 {
      UnservedGains(w, stretch, i);
      EntryIsEarnedLessServed(w, AfterRun(w, Zeros(|w|), before), stretch, i);
    }
  }

  // ------------------------------------------------------ the exact cycle

  /** Every call of the run found every target eligible. */
  ghost predicate AllEligible(run: seq<Selection>, n: nat) {
    forall k: nat :: k < |run| ==> Everyone(run[k].eligible, n)
  }

  lemma {:induction false} WinnerIsPositive(w: seq<int>, cur: seq<int>, sel: Selection)
    requires WeightsOk(w) && |w| == |cur| && Total(cur) == 0
    requires Legal(w, cur, sel) && Everyone(sel.eligible, |w|) && sel.winner.Some?
    ensures 0 < Credited(w, cur, sel.eligible)[sel.winner.value]
  {
    var credited := Credited(w, cur, sel.eligible);
    var all := sel.eligible;
    SumCredited(w, cur, all, all);
    assert all * all == all;
    SumEveryone(w, all);
    SumEveryone(cur, all);
    TotalPositive(w);
    if credited[sel.winner.value] <= 0 {
      NonPositiveSum(credited, all);
    }
  }

  lemma {:induction false} TotalPositive(w: seq<int>)
    requires WeightsOk(w)
    ensures 0 < Total(w)
  {
    SumSingle(w, 0);
    PartBelowTotal(w, {0});
  }

  lemma {:induction false} NonPositiveSum(v: seq<int>, members: set<nat>)
    requires forall i: nat :: i < |v| && i in members ==> v[i] <= 0
    ensures SumOver(v, members) <= 0
  {
    if v != [] {
      NonPositiveSum(v[..|v| - 1], members);
    }
  }

  ghost predicate AboveMinusTotal(w: seq<int>, cur: seq<int>) {
    && |w| == |cur|
    && Total(cur) == 0
    && forall i: nat :: i < |cur| ==> -Total(w) < cur[i]
  }

  lemma {:induction false} FullCall(w: seq<int>, cur: seq<int>, sel: Selection, i: nat)
    requires WeightsOk(w) && AboveMinusTotal(w, cur) && Legal(w, cur, sel)
    requires Everyone(sel.eligible, |w|) && i < |w|
    ensures AboveMinusTotal(w, After(w, cur, sel))
    ensures After(w, cur, sel)[i] == cur[i] + w[i] - (if sel.winner == Some(i) then Total(w) else 0)
  {
    assert 0 in sel.eligible;
    WinnerIsPositive(w, cur, sel);
    TotalAfter(w, cur, sel);
    SumEveryone(w, sel.eligible);
  }

  lemma {:induction false} OneMoreCall(weight: int, calls: nat, total: int, wins: nat)
    ensures (1 + calls) * weight == weight + calls * weight
    ensures total * (1 + wins) == total + total * wins
    ensures total * (0 + wins) == total * wins
  {
  }

  /** With everyone eligible, target i stands at (calls * weight - W * wins), always above -W. */
  lemma {:induction false} FullRunEntries(w: seq<int>, cur: seq<int>, run: seq<Selection>, i: nat)
    requires WeightsOk(w) && AboveMinusTotal(w, cur) && LegalRun(w, cur, run)
    requires AllEligible(run, |w|) && i < |w|
    ensures AboveMinusTotal(w, AfterRun(w, cur, run))
    ensures AfterRun(w, cur, run)[i] == cur[i] + |run| * w[i] - Total(w) * TimesWon(run, i)
    decreases |run|
  {
    if run != [] {
      FullCall(w, cur, run[0], i);
      FullRunEntries(w, After(w, cur, run[0]), run[1..], i);
      OneMoreCall(w[i], |run[1..]|, Total(w), TimesWon(run[1..], i));
    }
  }

  lemma {:induction false} NonNegativeZeroSum(v: seq<int>, i: nat)
    requires i < |v| && Total(v) == 0 && forall j: nat :: j < |v| ==> 0 <= v[j]
    ensures v[i] == 0
  {
    PartBelowTotal(v, {i});
    SumSingle(v, i);
  }

  lemma {:induction false} SpareMultiple(total: int, cycles: nat, weight: int, wins: nat)
    ensures (cycles * total) * weight - total * wins == total * (cycles * weight - wins)
  {
    calc {
      (cycles * total) * weight - total * wins;
      total * (cycles * weight) - total * wins;
      total * (cycles * weight - wins);
    }
  }

  lemma {:induction false} PositiveMultiple(total: int, spare: int)
    requires 0 < total && -total < total * spare
    ensures 0 <= spare && 0 <= total * spare
    ensures total * spare == 0 ==> spare == 0
  {
    NegativeMultiple(total, spare);
  }

  lemma {:induction false} NegativeMultiple(total: int, spare: int)
    requires 0 < total
    ensures spare < 0 ==> total * spare <= -total
  {
    if spare < 0 {
      assert total * (-1 - spare) >= 0;
    }
  }

  lemma {:induction false} WholeMultiple(total: int, cycles: nat, weight: int, wins: nat, entry: int)
    requires 0 < total && -total < entry
    requires entry == 0 + (cycles * total) * weight - total * wins
    ensures 0 <= entry
    ensures entry == 0 ==> wins == cycles * weight
  {
    var spare := cycles * weight - wins;
    SpareMultiple(total, cycles, weight, wins);
    PositiveMultiple(total, spare);
  }

  lemma {:induction false} EntryAfterCycles(w: seq<int>, run: seq<Selection>, cycles: nat, j: nat)
    requires WeightsOk(w) && LegalRun(w, Zeros(|w|), run) && AllEligible(run, |w|)
    requires |run| == cycles * Total(w) && j < |w|
    ensures Total(AfterRun(w, Zeros(|w|), run)) == 0
    ensures 0 <= AfterRun(w, Zeros(|w|), run)[j]
    ensures AfterRun(w, Zeros(|w|), run)[j] == 0 ==> TimesWon(run, j) == cycles * w[j]
  {
    ZerosBalanced(w);
    TotalPositive(w);
    FullRunEntries(w, Zeros(|w|), run, j);
    WholeMultiple(Total(w), cycles, w[j], TimesWon(run, j), AfterRun(w, Zeros(|w|), run)[j]);
  }

  /** After any whole number of cycles the vector is back at zero and every share is exact. */
  lemma {:induction false} WholeCycles(w: seq<int>, run: seq<Selection>, cycles: nat, i: nat)
    requires WeightsOk(w) && LegalRun(w, Zeros(|w|), run) && AllEligible(run, |w|)
    requires |run| == cycles * Total(w) && i < |w|
    ensures AfterRun(w, Zeros(|w|), run) == Zeros(|w|)
    ensures TimesWon(run, i) == cycles * w[i]
  {
    var cur := AfterRun(w, Zeros(|w|), run);
    forall j: nat | j < |w|
      ensures 0 <= cur[j] && Total(cur) == 0
    {
      EntryAfterCycles(w, run, cycles, j);
    }
    forall j: nat | j < |w|
      ensures cur[j] == 0
    {
      EntryAfterCycles(w, run, cycles, j);
      NonNegativeZeroSum(cur, j);
    }
    EntryAfterCycles(w, run, cycles, i);
  }

  /** With everyone eligible the schedule is a function of the current weights. */
  lemma {:induction false} FullRunsAgree(w: seq<int>, cur: seq<int>, a: seq<Selection>, b: seq<Selection>)
    requires WeightsOk(w) && |w| == |cur| && |a| == |b|
    requires LegalRun(w, cur, a) && LegalRun(w, cur, b)
    requires AllEligible(a, |w|) && AllEligible(b, |w|)
    ensures a == b
    decreases |a|
  {
    if a != [] {
      assert 0 in a[0].eligible && 0 in b[0].eligible;
      assert a[0].eligible == b[0].eligible;
      WinnerUnique(Credited(w, cur, a[0].eligible), a[0].eligible, a[0].winner.value, b[0].winner.value);
      assert a[0] == b[0];
      FullRunsAgree(w, After(w, cur, a[0]), a[1..], b[1..]);
      assert a == [a[0]] + a[1..] && b == [b[0]] + b[1..];
    }
  }

  lemma {:induction false} WinsJoin(a: seq<Selection>, b: seq<Selection>, i: nat)
    ensures TimesWon(a + b, i) == TimesWon(a, i) + TimesWon(b, i)
  {
    if a == [] {
      assert a + b == b;
    } else {
      assert (a + b)[1..] == a[1..] + b;
      WinsJoin(a[1..], b, i);
    }
  }

  /**
   The schedule repeats every W calls, so ANY W consecutive calls of a run in which
   everyone is always eligible choose each target exactly as often as its weight.
   */
  lemma {:induction false} ExactCycle(w: seq<int>, before: seq<Selection>, window: seq<Selection>, i: nat)
    requires WeightsOk(w) && i < |w|
    requires LegalRun(w, Zeros(|w|), before + window) && AllEligible(before + window, |w|)
    requires |window| == Total(w)
    ensures TimesWon(window, i) == w[i]
    ensures LegalRun(w, Zeros(|w|), before)
    ensures AfterRun(w, Zeros(|w|), before + window) == AfterRun(w, Zeros(|w|), before)
    ensures forall k: nat :: k < |before| ==> (before + window)[k + Total(w)] == before[k]
  {
    var zeros, run, cycle := Zeros(|w|), before + window, Total(w);
    TotalPositive(w);
    var first, later := run[..cycle], run[cycle..];
    assert run == first + later;
    JoinRuns(w, zeros, first, later);
    assert AllEligible(first, |w|) && AllEligible(later, |w|);
    assert |first| == 1 * Total(w);
    WholeCycles(w, first, 1, i);
    // What follows the first cycle starts from zero again, so it is `before` once more.
    JoinRuns(w, zeros, before, window);
    assert AllEligible(before, |w|) by {
      forall k: nat | k < |before| ensures Everyone(before[k].eligible, |w|) {
        assert run[k] == before[k];
      }
    }
    FullRunsAgree(w, zeros, before, later);
    WinsJoin(first, later, i);
    WinsJoin(before, window, i);
  }
}
