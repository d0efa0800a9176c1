/** Target selection under both strategies, and the loop that routes one request. */
module Router {
  import opened Results
  import opened WeightedRoundRobin
  import opened RoundRobin
  import opened Governance
  import Text

  datatype Strategy = PlainRoundRobin | SmoothWeighted

  /** A configured target: its name (none for a missing target) and its weight. */
  datatype Candidate = Candidate(name: Option<string>, weight: int)

  /**
   What one locked pass of a request meets: the scheduler as other requests left it (balanced, as
   every selection keeps it), then the call.
   */
  datatype Round = Round(current: seq<int>, next: nat, available: seq<bool>, reply: Reply, rawCalls: nat)

  datatype Routed = Unavailable | Relayed(target: nat, reply: Reply)

  /** What one turn of the routing loop comes to. */
  datatype Turned = NobodyLeft | Away(target: nat) | Answered(target: nat)

  ghost predicate CandidatesOk(candidates: seq<Candidate>) {
    && candidates != []
    && (forall i :: 0 <= i < |candidates| ==>
          candidates[i].name.Some? && Text.TrimSpace(candidates[i].name.value) != "" && 0 < candidates[i].weight)
    && (forall i, j :: 0 <= i < j < |candidates| ==>
          Text.TrimSpace(candidates[i].name.value) != Text.TrimSpace(candidates[j].name.value))
  }

  function StrategyNamed(name: string): Option<Strategy> {
    if name == "round_robin" then Some(PlainRoundRobin)
    else if name == "weighted_round_robin" then Some(SmoothWeighted)
    else None
  }

  /** Builds a router exactly for the configurations it can run. */
  method New(strategyName: string, candidates: seq<Candidate>) returns (router: Router?)
    ensures router != null <==>
      (strategyName == "round_robin" || strategyName == "weighted_round_robin") && CandidatesOk(candidates)
    ensures router != null ==>
      && fresh(router) && router.Valid()
      && (router.strategy.PlainRoundRobin? <==> strategyName == "round_robin")
      && (router.strategy.SmoothWeighted? <==> strategyName == "weighted_round_robin")
      && router.current == Zeros(|candidates|) && router.next == 0
      && |router.weights| == |candidates|
      && forall i :: 0 <= i < |candidates| ==>
           router.weights[i] == candidates[i].weight && Some(router.names[i]) == candidates[i].name
  {
    var strategy := StrategyNamed(strategyName);
    if strategy.None? || candidates == [] {
      return null;
    }
    var names: seq<string>, weights: seq<int> := [], [];
    var taken: set<string> := {};
    for index := 0 to |candidates|
      invariant |names| == |weights| == index
      invariant index > 0 ==> CandidatesOk(candidates[..index])
      invariant forall i :: 0 <= i < index ==>
          weights[i] == candidates[i].weight && Some(names[i]) == candidates[i].name
      invariant forall t :: t in taken <==> exists i :: 0 <= i < index && t == Text.TrimSpace(names[i])
    {
      var candidate := candidates[index];
      if candidate.name.None? {
        return null;
      }
      var name := Text.TrimSpace(candidate.name.value);
      if name == "" || name in taken || candidate.weight <= 0 {
        assert name in taken ==> exists i :: 0 <= i < index && name == Text.TrimSpace(names[i]);
        return null;
      }
      taken := taken + {name};
      names, weights := names + [candidate.name.value], weights + [candidate.weight];
      assert candidates[..index + 1] == candidates[..index] + [candidate];
      assert names[index] == candidate.name.value;
    }
    assert candidates[..|candidates|] == candidates;
    router := new Router(strategy.value, names, weights);
  }

  class Router {
    const strategy: Strategy
    const names: seq<string>
    const weights: seq<int>
    var current: seq<int>
    var next: nat

    /** The scheduler is balanced whenever its lock is free, so the fairness bounds hold of it. */
    ghost predicate Valid()
      reads this
    {
      Shaped() && Balanced(weights, current)
    }

    ghost predicate Shaped()
      reads this
    {
      && |names| == |weights| == |current|
      && WeightsOk(weights)
      && (forall i, j :: 0 <= i < j < |names| ==> names[i] != names[j])
      && next < |names|
    }

    constructor (strategy: Strategy, names: seq<string>, weights: seq<int>)
      requires |names| == |weights| && WeightsOk(weights)
      requires forall i, j :: 0 <= i < j < |names| ==> names[i] != names[j]
      ensures Valid() && this.strategy == strategy && this.names == names && this.weights == weights
      ensures current == Zeros(|names|) && next == 0
    {
      this.strategy, this.names, this.weights := strategy, names, weights;
      current, next := seq(|names|, i => 0), 0;
      new;
      assert current == Zeros(|weights|);
      ZerosBalanced(weights);
    }

    /** The targets a call may choose from. */
    ghost function Eligible(excluded: set<string>, available: seq<bool>): set<nat>
      requires |available| == |names|
    {
      set i: nat | i < |names| && names[i] !in excluded && available[i]
    }

    /** The scan from the cursor: the first eligible target, and the cursor just past it. */
    method SelectRoundRobin(excluded: set<string>, available: seq<bool>) returns (selected: Option<nat>)
      requires Valid() && |available| == |names|
      modifies `next
      ensures Valid()
      ensures selected.None? <==> Eligible(excluded, available) == {}
      ensures selected.None? ==> next == old(next)
      ensures selected.Some? ==>
        && selected.value < |names|
        && FirstAhead(|names|, old(next), Eligible(excluded, available), Distance(|names|, old(next), selected.value))
        && next == Wrap(|names|, selected.value + 1)
    {
      ghost var eligible, n, start := Eligible(excluded, available), |names|, next;
      assert forall x :: x in eligible ==> x < n;
      for checked := 0 to |names|
        invariant next == Wrap(n, start + checked)
        invariant forall x :: x in eligible ==> checked <= Distance(n, start, x)
      {
        WrapIsModulo(n, next);
        WrapIsModulo(n, next + 1);
        var index := next % |names|;
        next := (next + 1) % |names|;
        assert Distance(n, start, index) == checked;
        assert index in eligible <==> names[index] !in excluded && available[index];
        if names[index] in excluded || !available[index] {
          assert forall x :: x in eligible && Distance(n, start, x) == checked ==> x == index;
          continue;
        }
        return Some(index);
      }
      assert eligible == {};
      return None;
    }

    /** Credits every eligible target and finds the first of the largest, and what they earned in all. */
    method CreditAll(excluded: set<string>, available: seq<bool>) returns (selected: Option<nat>, total: int)
      requires Shaped() && |available| == |names|
      modifies `current
      ensures Shaped() && current == Credited(weights, old(current), Eligible(excluded, available))
      ensures total == SumOver(weights, Eligible(excluded, available))
      ensures selected.None? ==> Eligible(excluded, available) == {}
      ensures selected.Some? ==> IsWinner(current, Eligible(excluded, available), selected.value)
    {
      ghost var eligible, before := Eligible(excluded, available), current;
      ghost var credited := Credited(weights, before, eligible);
      selected, total := None, 0;
      for index := 0 to |names|
        invariant |current| == |names|
        invariant forall i: nat :: i < |current| ==> current[i] == if i < index then credited[i] else before[i]
        invariant total == SumOver(weights[..index], eligible)
        invariant selected.None? ==> forall i :: i in eligible ==> index <= i
        invariant selected.Some? ==> selected.value < index && IsWinner(credited[..index], eligible, selected.value)
      {
        assert weights[..index + 1][..index] == weights[..index];
        assert credited[..index + 1] == credited[..index] + [credited[index]];
        if names[index] in excluded || !available[index] {
          continue;
        }
        current := current[index := current[index] + weights[index]];
        total := total + weights[index];
        if selected.None? || current[index] > current[selected.value] {
          selected := Some(index);
        }
      }
      assert weights[..|names|] == weights && credited[..|names|] == credited;
      assert current == credited;
      assert selected.None? ==> eligible == {};
    }

    /** One pass of smooth weighted selection over the vector of current weights. */
    method SelectWeighted(excluded: set<string>, available: seq<bool>) returns (selected: Option<nat>)
      requires Valid() && |available| == |names|
      modifies `current
      ensures Valid()
      ensures var sel := Selection(Eligible(excluded, available), selected);
        Legal(weights, old(current), sel) && current == After(weights, old(current), sel)
    {
      ghost var eligible, before := Eligible(excluded, available), current;
      var total;
      selected, total := CreditAll(excluded, available);
      if selected.Some? {
        current := current[selected.value := current[selected.value] - total];
      } else {
        assert current == before;
      }
      CallKeepsBalance(weights, before, Selection(eligible, selected));
    }

    method SelectTarget(excluded: set<string>, available: seq<bool>) returns (selected: Option<nat>)
      requires Valid() && |available| == |names|
      modifies `current, `next
      ensures Valid()
      ensures selected.None? <==> Eligible(excluded, available) == {}
      ensures selected.Some? ==> selected.value in Eligible(excluded, available)
      ensures strategy.SmoothWeighted? ==>
        && next == old(next)
        && Legal(weights, old(current), Selection(Eligible(excluded, available), selected))
        && current == After(weights, old(current), Selection(Eligible(excluded, available), selected))
      ensures strategy.PlainRoundRobin? ==>
        && current == old(current)
        && (selected.None? ==> next == old(next))
        && (selected.Some? ==>
              && FirstAhead(|names|, old(next), Eligible(excluded, available),
                            Distance(|names|, old(next), selected.value))
              && next == Wrap(|names|, selected.value + 1))
    {
      match strategy {
        case PlainRoundRobin =>
          selected := SelectRoundRobin(excluded, available);
        case SmoothWeighted =>
          selected := SelectWeighted(excluded, available);
      }
    }

    /** One pass: others may have used the scheduler since; then a locked selection. */
    method Pass(round: Round, excluded: set<string>, ghost tried: seq<nat>) returns (selected: Option<nat>)
      requires Valid() && |round.current| == |names| && round.next < |names| && |round.available| == |names|
      requires Balanced(weights, round.current) && Excludes(names, excluded, tried)
      modifies `current, `next
      ensures Valid()
      ensures match selected
              case None => forall i :: 0 <= i < |names| ==> i in tried || !round.available[i]
              case Some(target) =>
                && target < |names| && round.available[target] && target !in tried && names[target] !in excluded
                && Excludes(names, excluded + {names[target]}, tried + [target])
                && Chosen(strategy, weights, round, tried, target)
    {
      current, next := round.current, round.next;
      selected := SelectTarget(excluded, round.available);
      if selected.Some? {
        assert Eligible(excluded, round.available) == Open(|names|, round, tried);
        ExcludeOne(names, excluded, tried, selected.value);
      } else {
        forall i | 0 <= i < |names| ensures i in tried || !round.available[i] {
          assert i !in Eligible(excluded, round.available);
        }
      }
    }

    /** One turn of the routing loop: a pass, and what its target replied. */
    method Turn(world: seq<Round>, excluded: set<string>, ghost tried: seq<nat>) returns (turn: Turned)
      requires Valid() && WorldOk(|names|, world) && AllBalanced(weights, world)
      requires |tried| < |names| && |excluded| == |tried| && Excludes(names, excluded, tried)
      requires SoFar(strategy, weights, world, tried) && AllTurnedAway(world, |tried|)
      modifies `current, `next
      ensures Valid()
      ensures match turn
              case NobodyLeft => forall i :: 0 <= i < |names| ==> i in tried || !world[|tried|].available[i]
              case Away(target) =>
                && target < |names| && SoFar(strategy, weights, world, tried + [target])
                && AllTurnedAway(world, |tried| + 1)
                && Excludes(names, excluded + {names[target]}, tried + [target])
              case Answered(target) =>
                && SoFar(strategy, weights, world, tried + [target])
                && !world[|tried|].reply.Refused?
                && !(world[|tried|].reply.Failing? && world[|tried|].reply.error.isOpen)
    {
      var round := world[|excluded|];
      assert Balanced(weights, round.current);
      var selected := Pass(round, excluded, tried);
      if selected.None? {
        return NobodyLeft;
      }
      TryOneMore(strategy, weights, world, tried, selected.value);
      if SaysOpen(round.reply) {
        GovernedSpending(round);
        return Away(selected.value);
      }
      return Turned.Answered(selected.value);
    }

    /**
     Routes one request.  Another target is tried only after a reply that says the breaker is
     open; a refusal says so and has spent nothing.  So no target is tried twice, and unless raw
     providers imitate that error, only the last target tried can have been invoked.
     */
    method Route(world: seq<Round>) returns (routed: Routed, tried: seq<nat>)
      requires Valid() && WorldOk(|names|, world)
      requires AllBalanced(weights, world)
      modifies `current, `next
      ensures Valid()
      ensures TriedInOrder(|names|, world, tried) && AllChosen(strategy, weights, world, tried)
      ensures FailedOver(world, tried) && SpentOnlyIfImitated(world, tried)
      ensures EndedRight(|names|, world, routed, tried)
      ensures forall k :: 0 <= k < |names| && FirstAnswer(world, k) ==>
        |tried| == k + 1 && routed == Relayed(tried[k], world[k].reply)
    {
      tried := [];
      var excluded: set<string> := {};
      while |excluded| < |names|
        invariant Valid() && |excluded| == |tried| <= |names|
        invariant SoFar(strategy, weights, world, tried) && AllTurnedAway(world, |tried|)
        invariant Excludes(names, excluded, tried)
        decreases |names| - |excluded|
      {
        var turn := Turn(world, excluded, tried);
        match turn {
          case NobodyLeft =>
            StopsUnavailable(|names|, world, tried);
            return Unavailable, tried;
          case Away(target) =>
            tried, excluded := tried + [target], excluded + {names[target]};
          case Answered(target) =>
            StopsRelayed(|names|, world, tried, target);
            return Relayed(target, world[|tried|].reply), tried + [target];
        }
      }
      StopsUnavailable(|names|, world, tried);
      return Unavailable, tried;
    }
  }

  // ------------------------------------------------------- what routing promises

  /** Every target but the last turned the request away: a refusal, or an error that imitates one. */
  ghost predicate FailedOver(world: seq<Round>, tried: seq<nat>)
    requires |tried| <= |world|
  {
    forall k :: 0 <= k < |tried| - 1 ==>
      world[k].reply.Refused? || (world[k].reply.Failing? && world[k].reply.error.isOpen)
  }

  /** A refusal cost nothing; so without imitations only the last target can have been invoked. */
  ghost predicate SpentOnlyIfImitated(world: seq<Round>, tried: seq<nat>)
    requires |tried| <= |world|
  {
    && (forall k :: 0 <= k < |tried| - 1 ==> (world[k].reply.Refused? ==> world[k].rawCalls == 0))
    && (NoImitation(world) ==> forall k :: 0 <= k < |tried| - 1 ==> world[k].rawCalls == 0)
  }

  /**
   The last reply is relayed, and is not one that turns the request away; or the last one did that
   too, and every target was tried or is unavailable.
   */
  ghost predicate EndedRight(n: nat, world: seq<Round>, routed: Routed, tried: seq<nat>)
    requires WorldOk(n, world) && |tried| <= n
  {
    match routed
    case Relayed(target, reply) =>
      && tried != [] && target == tried[|tried| - 1] && reply == world[|tried| - 1].reply
      && !reply.Refused? && !(reply.Failing? && reply.error.isOpen)
    case Unavailable =>
      && (tried != [] ==>
            var last := world[|tried| - 1].reply;
            last.Refused? || (last.Failing? && last.error.isOpen))
      && (|tried| == n || forall i :: 0 <= i < n ==> i in tried || !world[|tried|].available[i])
  }

  /** Everyone is available, the breakers refuse in each round before `k`, and round `k` gets another reply. */
  ghost predicate FirstAnswer(world: seq<Round>, k: nat)
    requires k < |world|
  {
    && (forall j, i :: 0 <= j <= k && 0 <= i < |world[j].available| ==> world[j].available[i])
    && (forall j :: 0 <= j < k ==> world[j].reply.Refused?)
    && !world[k].reply.Refused? && !(world[k].reply.Failing? && world[k].reply.error.isOpen)
  }

  ghost predicate AllTurnedAway(world: seq<Round>, n: nat)
    requires n <= |world|
  {
    forall k :: 0 <= k < n ==>
      && (world[k].reply.Refused? || (world[k].reply.Failing? && world[k].reply.error.isOpen))
      && (world[k].reply.Refused? ==> world[k].rawCalls == 0)
  }

  lemma {:induction false} StopsUnavailable(n: nat, world: seq<Round>, tried: seq<nat>)
    requires WorldOk(n, world) && |tried| <= n && AllTurnedAway(world, |tried|)
    requires |tried| == n || forall i :: 0 <= i < n ==> i in tried || !world[|tried|].available[i]
    ensures FailedOver(world, tried) && SpentOnlyIfImitated(world, tried)
    ensures EndedRight(n, world, Unavailable, tried)
    ensures forall k :: 0 <= k < n ==> !FirstAnswer(world, k)
  {
    forall k | 0 <= k < n ensures !FirstAnswer(world, k) {
      if |tried| <= k {
        var i := Untried(n, tried);
        assert !world[|tried|].available[i];
      }
    }
  }

  lemma {:induction false} StopsRelayed(n: nat, world: seq<Round>, tried: seq<nat>, target: nat)
    requires WorldOk(n, world) && |tried| < n && AllTurnedAway(world, |tried|)
    requires !world[|tried|].reply.Refused?
    requires !(world[|tried|].reply.Failing? && world[|tried|].reply.error.isOpen)
    ensures FailedOver(world, tried + [target]) && SpentOnlyIfImitated(world, tried + [target])
    ensures EndedRight(n, world, Relayed(target, world[|tried|].reply), tried + [target])
    ensures forall k :: 0 <= k < n && FirstAnswer(world, k) ==> k == |tried|
  {
  }

  /** Fewer passes than targets leave some target untried. */
  lemma {:induction false} Untried(n: nat, tried: seq<nat>) returns (i: nat)
    requires |tried| < n
    ensures i < n && i !in tried
  {
    if n - 1 !in tried {
      i := n - 1;
    } else {
      var k :| 0 <= k < |tried| && tried[k] == n - 1;
      var rest := tried[..k] + tried[k + 1..];
      i := Untried(n - 1, rest);
      assert forall j :: 0 <= j < |tried| && j != k ==> tried[j] in rest by {
        forall j | 0 <= j < |tried| && j != k ensures tried[j] in rest {
          assert tried[j] == if j < k then rest[j] else rest[j - 1];
        }
      }
    }
  }

  /** The targets a pass may choose from: available, and not tried before. */
  ghost function Open(n: nat, round: Round, tried: seq<nat>): set<nat>
    requires |round.available| == n
  {
    set i: nat | i < n && i !in tried && round.available[i]
  }

  /** The scheduler's own choice among them, by its state as the pass found it. */
  ghost predicate Chosen(strategy: Strategy, weights: seq<int>, round: Round, tried: seq<nat>, target: nat)
    requires |round.available| == |weights| == |round.current| && round.next < |weights|
  {
    var n, open := |weights|, Open(|weights|, round, tried);
    match strategy
    case PlainRoundRobin => target < n && FirstAhead(n, round.next, open, Distance(n, round.next, target))
    case SmoothWeighted => IsWinner(Credited(weights, round.current, open), open, target)
  }

  ghost predicate AllChosen(strategy: Strategy, weights: seq<int>, world: seq<Round>, tried: seq<nat>)
    requires WorldOk(|weights|, world) && |tried| <= |world|
  {
    forall k :: 0 <= k < |tried| ==> Chosen(strategy, weights, world[k], tried[..k], tried[k])
  }

  ghost predicate SoFar(strategy: Strategy, weights: seq<int>, world: seq<Round>, tried: seq<nat>)
    requires WorldOk(|weights|, world)
  {
    TriedInOrder(|weights|, world, tried) && AllChosen(strategy, weights, world, tried)
  }

  lemma {:induction false} TryOneMore(
      strategy: Strategy, weights: seq<int>, world: seq<Round>, tried: seq<nat>, target: nat)
    requires WorldOk(|weights|, world) && SoFar(strategy, weights, world, tried) && |tried| < |weights|
    requires target < |weights| && world[|tried|].available[target] && target !in tried
    requires Chosen(strategy, weights, world[|tried|], tried, target)
    ensures SoFar(strategy, weights, world, tried + [target])
  {
    var longer := tried + [target];
    forall k | 0 <= k < |longer| ensures Chosen(strategy, weights, world[k], longer[..k], longer[k]) {
      assert longer[..k] == tried[..k] && tried[..|tried|] == tried;
    }
  }

  /** The excluded names are those of the targets already tried. */
  ghost predicate Excludes(names: seq<string>, excluded: set<string>, tried: seq<nat>) {
    && (forall i, j :: 0 <= i < j < |names| ==> names[i] != names[j])
    && (forall k :: 0 <= k < |tried| ==> tried[k] < |names|)
    && (forall i: nat :: i < |names| ==> (names[i] in excluded <==> i in tried))
    && |excluded| == |tried|
  }

  lemma {:induction false} ExcludeOne(names: seq<string>, excluded: set<string>, tried: seq<nat>, target: nat)
    requires Excludes(names, excluded, tried) && target < |names| && names[target] !in excluded
    ensures Excludes(names, excluded + {names[target]}, tried + [target])
  {
  }

  ghost predicate AllBalanced(weights: seq<int>, world: seq<Round>) {
    forall k :: 0 <= k < |world| ==> Balanced(weights, world[k].current)
  }

  ghost predicate WorldOk(n: nat, world: seq<Round>) {
    && |world| == n
    && (forall k :: 0 <= k < n ==> |world[k].current| == n && world[k].next < n && |world[k].available| == n)
    && (forall k :: 0 <= k < n ==> IsGoverned(world[k]))
  }

  /** The reply and the raw calls are those of an ended call in some run of a governed provider. */
  ghost predicate IsGoverned(round: Round) {
    exists c, events, id :: RepliesAs(c, events, id, round)
  }

  ghost predicate RepliesAs(c: Config, events: seq<Event>, id: nat, round: Round) {
    && ConfigOk(c) && Possible(c, events)
    && id in Run(c, events).calls && Run(c, events).calls[id].phase.Ended?
    && Run(c, events).calls[id].reply == Some(round.reply)
    && Run(c, events).calls[id].rawCalls == round.rawCalls
  }

  /** The test the routing loop makes of a reply: a refusal, or a provider's error that imitates one. */
  predicate SaysOpen(reply: Reply) {
    reply.Refused? || (reply.Failing? && reply.error.isOpen)
  }

  ghost predicate NoImitation(world: seq<Round>) {
    forall k :: 0 <= k < |world| ==> (world[k].reply.Failing? ==> !world[k].reply.error.isOpen)
  }

  /** A target that refused never reached its raw provider. */
  lemma {:induction false} GovernedSpending(round: Round)
    requires IsGoverned(round)
    ensures round.reply.Refused? ==> round.rawCalls == 0
  {
    var c, events, id :| RepliesAs(c, events, id, round);
    RefusalSpendsNothing(c, events, id);
  }

  /** Each pass tried a target that was available to it and that no earlier pass had tried. */
  ghost predicate TriedInOrder(n: nat, world: seq<Round>, tried: seq<nat>)
    requires WorldOk(n, world)
  {
    && |tried| <= n
    && (forall k :: 0 <= k < |tried| ==> tried[k] < n && world[k].available[tried[k]])
    && (forall j, k :: 0 <= j < k < |tried| ==> tried[j] != tried[k])
  }
}
