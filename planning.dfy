/**
 * The bank trades the random player plans before building
 * (`cityPortResources`, `settlementPortResources` and `roadPortResources` in
 * catan/RandComp.py).  The three planners are the same loop over a different
 * cost: they keep giving `rate` of the resource with the most to spare for
 * one of the first missing resource, on a copy of the hand, until the cost
 * is met (the list of traded resources is returned) or no resource can spare
 * a trade (the empty list is returned).
 */
module Planning {
  import opened Resources

  /** Ore and wheat a city needs. */
  const CityCost: seq<int> := [3, 2, 0, 0, 0]
  /** Wheat, sheep, brick and wood a settlement needs. */
  const SettlementCost: seq<int> := [0, 1, 1, 1, 1]
  /** Brick and wood a road needs. */
  const RoadCost: seq<int> := [0, 0, 0, 1, 1]

  /** A cost: five counts none of which is negative, at least one positive. */
  predicate IsCost(need: seq<int>)
  {
    |need| == Kinds && (forall k :: 0 <= k < Kinds ==> need[k] >= 0) && exists k :: 0 <= k < Kinds && need[k] > 0
  }

  lemma CostsAreCosts()
    ensures IsCost(CityCost) && IsCost(SettlementCost) && IsCost(RoadCost)
  {
    assert CityCost[0] > 0 && SettlementCost[1] > 0 && RoadCost[3] > 0;
  }

  /** The hand meets the cost (the test each planner and builder makes). */
  predicate Affordable(hand: seq<int>, need: seq<int>)
    requires |hand| == Kinds && |need| == Kinds
  {
    forall k :: 0 <= k < Kinds && need[k] > 0 ==> hand[k] >= need[k]
  }

  /**
   * The first resource from `k` on that the cost still lacks, skipping
   * `skip`, or -1.  The planners skip nothing; the builders skip the
   * resource being traded away.
   */
  function NeededFrom(hand: seq<int>, need: seq<int>, skip: int, k: nat): (r: int)
    requires |hand| == Kinds && |need| == Kinds && k <= Kinds
    ensures r == -1 || (k <= r < Kinds && need[r] > 0 && hand[r] < need[r] && r != skip)
    ensures r == -1 <==> forall j :: k <= j < Kinds && j != skip ==> !(need[j] > 0 && hand[j] < need[j])
    ensures r != -1 ==> forall j :: k <= j < r && j != skip ==> !(need[j] > 0 && hand[j] < need[j])
    decreases Kinds - k
  {
    if k == Kinds then -1
    else if need[k] > 0 && hand[k] < need[k] && k != skip then k
    else NeededFrom(hand, need, skip, k + 1)
  }

  function Needed(hand: seq<int>, need: seq<int>, skip: int): int
    requires |hand| == Kinds && |need| == Kinds
  {
    NeededFrom(hand, need, skip, 0)
  }

  /** Skipping a resource the cost does not lack changes nothing. */
  lemma {:induction false} NeededSkip(hand: seq<int>, need: seq<int>, skip: int, k: nat)
    requires |hand| == Kinds && |need| == Kinds && k <= Kinds
    requires 0 <= skip < Kinds && !(need[skip] > 0 && hand[skip] < need[skip])
    ensures NeededFrom(hand, need, skip, k) == NeededFrom(hand, need, -1, k)
    decreases Kinds - k
  {
    if k < Kinds {
      NeededSkip(hand, need, skip, k + 1);
    }
  }

  /** What trading resource `k` away would leave of it beyond the cost. */
  function Remaining(hand: seq<int>, rates: seq<int>, need: seq<int>, k: int): int
    requires |hand| == Kinds && |rates| == Kinds && |need| == Kinds && 0 <= k < Kinds
  {
    hand[k] - need[k] - rates[k]
  }

  /** One comparison of the planners: `k` replaces the best so far when it spares more, or as much at a rate at least as high. */
  function Consider(hand: seq<int>, rates: seq<int>, need: seq<int>, best: (int, int), k: int): (int, int)
    requires |hand| == Kinds && |rates| == Kinds && |need| == Kinds && 0 <= k < Kinds && 0 <= best.0 < Kinds
  {
    var rem := Remaining(hand, rates, need, k);
    if rem > best.1 || (rem == best.1 && rates[k] >= rates[best.0]) then (k, rem) else best
  }

  /**
   * The resource the planners choose to trade away and what it would have
   * left: the most spare of the five, the later one on ties unless its rate
   * is lower.
   */
  function Best(hand: seq<int>, rates: seq<int>, need: seq<int>): (b: (int, int))
    requires |hand| == Kinds && |rates| == Kinds && |need| == Kinds
    ensures 0 <= b.0 < Kinds && b.1 == Remaining(hand, rates, need, b.0)
    ensures forall k :: 0 <= k < Kinds ==> Remaining(hand, rates, need, k) <= b.1
  {
    var b0 := (0, Remaining(hand, rates, need, 0));
    var b1 := Consider(hand, rates, need, b0, 1);
    var b2 := Consider(hand, rates, need, b1, 2);
    var b3 := Consider(hand, rates, need, b2, 3);
    Consider(hand, rates, need, b3, 4)
  }

  /** A trade of `t` the planners would make: the cost is not met and `t` spares at least its rate. */
  predicate CanTrade(hand: seq<int>, rates: seq<int>, need: seq<int>, t: int)
    requires |hand| == Kinds && |rates| == Kinds && |need| == Kinds
  {
    !Affordable(hand, need) && 0 <= t < Kinds && Remaining(hand, rates, need, t) >= 0
  }

  /** One planned trade on the copied hand: one of the first lacking resource in, `rate` of `t` out. */
  function TradeStep(hand: seq<int>, rates: seq<int>, need: seq<int>, t: int): seq<int>
    requires |hand| == Kinds && |rates| == Kinds && |need| == Kinds && 0 <= t < Kinds
  {
    var r := Needed(hand, need, -1);
    if r == -1 then hand[t := hand[t] - rates[t]] else Traded(hand, t, r, rates[t])
  }

  predicate InRange(plan: seq<int>)
  {
    forall i :: 0 <= i < |plan| ==> 0 <= plan[i] < Kinds
  }

  /** The hand after the planned trades, in order. */
  function Simulate(start: seq<int>, rates: seq<int>, need: seq<int>, plan: seq<int>): (h: seq<int>)
    requires |start| == Kinds && |rates| == Kinds && |need| == Kinds && InRange(plan)
    ensures |h| == Kinds
  {
    if |plan| == 0 then start
    else TradeStep(Simulate(start, rates, need, plan[..|plan| - 1]), rates, need, plan[|plan| - 1])
  }

  /** Every trade of the plan is one the planners would make at that point. */
  ghost predicate Feasible(start: seq<int>, rates: seq<int>, need: seq<int>, plan: seq<int>)
    requires |start| == Kinds && |rates| == Kinds && |need| == Kinds
  {
    && InRange(plan)
    && (|plan| > 0 ==>
      var prefix := plan[..|plan| - 1];
      Feasible(start, rates, need, prefix) && CanTrade(Simulate(start, rates, need, prefix), rates, need, plan[|plan| - 1]))
  }

  /** A feasible plan stays feasible with one more trade the planners would make. */
  lemma FeasibleExtend(start: seq<int>, rates: seq<int>, need: seq<int>, plan: seq<int>, t: int)
    requires |start| == Kinds && |rates| == Kinds && |need| == Kinds
    requires Feasible(start, rates, need, plan) && CanTrade(Simulate(start, rates, need, plan), rates, need, t)
    ensures Feasible(start, rates, need, plan + [t])
    ensures Simulate(start, rates, need, plan + [t]) == TradeStep(Simulate(start, rates, need, plan), rates, need, t)
  {
    assert (plan + [t])[..|plan|] == plan;
  }

  /** A trade the planners would make takes in the first lacking resource, never the one it gives away. */
  lemma TradeStepShape(hand: seq<int>, rates: seq<int>, need: seq<int>, t: int)
    requires |hand| == Kinds && |rates| == Kinds && |need| == Kinds && CanTrade(hand, rates, need, t)
    requires forall k :: 0 <= k < Kinds ==> rates[k] >= 2 && need[k] >= 0
    ensures var r := Needed(hand, need, -1);
      && 0 <= r < Kinds && r != t && hand[t] >= need[t] + rates[t]
      && TradeStep(hand, rates, need, t) == Traded(hand, t, r, rates[t])
  {
    var r := Needed(hand, need, -1);
    assert r != -1;
  }

  /** Giving `rate` (at least 2) of a resource held at least that often for one of another lowers the positive total. */
  lemma TradedLowers(hand: seq<int>, give: int, get: int, rate: int)
    requires |hand| == Kinds && 0 <= give < Kinds && 0 <= get < Kinds && give != get && 2 <= rate <= hand[give]
    ensures Total(Traded(hand, give, get, rate)) == Total(hand) - rate + 1
    ensures PositiveTotal(Traded(hand, give, get, rate)) < PositiveTotal(hand)
    ensures Hand(hand) ==> Hand(Traded(hand, give, get, rate))
  {
    var s1 := hand[get := hand[get] + 1];
    PositiveTotalUpdate(hand, get, hand[get] + 1);
    PositiveTotalUpdate(s1, give, s1[give] - rate);
    assert Traded(hand, give, get, rate) == s1[give := s1[give] - rate];
    TradedTotal(hand, give, get, rate);
  }

  /**
   * A trade the planners would make takes in a resource the cost lacks,
   * keeps the traded resource at or above its cost, lowers the total by
   * `rate - 1` and the sum of the positive counters by at least one.
   */
  lemma TradeStepEffect(hand: seq<int>, rates: seq<int>, need: seq<int>, t: int)
    requires |hand| == Kinds && Rates(rates) && IsCost(need) && CanTrade(hand, rates, need, t)
    ensures var r := Needed(hand, need, -1);
      0 <= r < Kinds && r != t && TradeStep(hand, rates, need, t) == Traded(hand, t, r, rates[t])
    ensures TradeStep(hand, rates, need, t)[t] >= need[t]
    ensures Total(TradeStep(hand, rates, need, t)) == Total(hand) - rates[t] + 1
    ensures PositiveTotal(TradeStep(hand, rates, need, t)) < PositiveTotal(hand)
    ensures Hand(hand) ==> Hand(TradeStep(hand, rates, need, t))
  {
    TradeStepShape(hand, rates, need, t);
    TradedLowers(hand, t, Needed(hand, need, -1), rates[t]);
  }

  /** The planned trades lower the total by at least one each, and a hand stays a hand. */
  lemma {:induction false} SimulateEffect(start: seq<int>, rates: seq<int>, need: seq<int>, plan: seq<int>)
    requires |start| == Kinds && Rates(rates) && IsCost(need) && Feasible(start, rates, need, plan)
    ensures Total(Simulate(start, rates, need, plan)) <= Total(start) - |plan|
    ensures PositiveTotal(Simulate(start, rates, need, plan)) <= PositiveTotal(start) - |plan|
    ensures Hand(start) ==> Hand(Simulate(start, rates, need, plan))
  {
    if |plan| > 0 {
      var prefix := plan[..|plan| - 1];
      SimulateEffect(start, rates, need, prefix);
      TradeStepEffect(Simulate(start, rates, need, prefix), rates, need, plan[|plan| - 1]);
    }
  }

  /** The hand after paying the cost. */
  function Pay(hand: seq<int>, need: seq<int>): (h: seq<int>)
    requires |hand| == Kinds && |need| == Kinds
    ensures |h| == Kinds
  {
    seq(Kinds, k requires 0 <= k < Kinds => hand[k] - need[k])
  }

  /** Paying a met cost leaves no counter the cost uses negative and lowers the positive total. */
  lemma PayEffect(hand: seq<int>, need: seq<int>)
    requires |hand| == Kinds && IsCost(need) && Affordable(hand, need)
    ensures forall k :: 0 <= k < Kinds && need[k] > 0 ==> Pay(hand, need)[k] >= 0
    ensures PositiveTotal(Pay(hand, need)) < PositiveTotal(hand)
    ensures Hand(hand) ==> Hand(Pay(hand, need))
  {
    var k :| 0 <= k < Kinds && need[k] > 0;
    assert Pos(Pay(hand, need)[k]) < Pos(hand[k]);
    PosFromMonotone(Pay(hand, need), hand, 0);
  }

  /** Paying a cost lowers the total by the size of the cost. */
  lemma PayTotal(hand: seq<int>, need: seq<int>)
    requires |hand| == Kinds && |need| == Kinds
    ensures Total(Pay(hand, need)) == Total(hand) - Total(need)
  {
    TotalOfHand(hand);
    TotalOfHand(need);
    TotalOfHand(Pay(hand, need));
  }

  /** What one pass of the planners' loop establishes when it trades `t` away from `temp`, the hand after `plan`. */
  lemma PlanStep(start: seq<int>, rates: seq<int>, need: seq<int>, plan: seq<int>, temp: seq<int>, t: int)
    requires |start| == Kinds && Rates(rates) && IsCost(need)
    requires Feasible(start, rates, need, plan) && temp == Simulate(start, rates, need, plan)
    requires CanTrade(temp, rates, need, t)
    ensures var r := Needed(temp, need, -1);
      && 0 <= r < Kinds && InRange(plan + [t]) && Feasible(start, rates, need, plan + [t])
      && Simulate(start, rates, need, plan + [t]) == Traded(temp, t, r, rates[t])
      && PositiveTotal(Traded(temp, t, r, rates[t])) < PositiveTotal(temp)
  {
    var r := Needed(temp, need, -1);
    TradeStepShape(temp, rates, need, t);
    FeasibleExtend(start, rates, need, plan, t);
    TradedLowers(temp, t, r, rates[t]);
  }

  /**
   * The trade step of the planners' loop on the copied hand: one of the
   * first lacking resource in (the chain of `< cost` tests), `rate` of `t` out.
   */
  method TradeOnCopy(ghost start: seq<int>, rates: seq<int>, need: seq<int>, ghost plan: seq<int>, temp: seq<int>, t: int)
    returns (next: seq<int>)
    requires |start| == Kinds && Rates(rates) && IsCost(need)
    requires Feasible(start, rates, need, plan) && temp == Simulate(start, rates, need, plan)
    requires CanTrade(temp, rates, need, t)
    ensures InRange(plan + [t]) && Feasible(start, rates, need, plan + [t])
    ensures next == Simulate(start, rates, need, plan + [t])
    ensures PositiveTotal(next) < PositiveTotal(temp)
  {
    PlanStep(start, rates, need, plan, temp, t);
    var r := Needed(temp, need, -1);
    TradedUpdates(temp, t, r, rates[t]);
    next := temp;
    if r != -1 {
      next := next[r := next[r] + 1];
    }
    next := next[t := next[t] - rates[t]];
  }

  /** Five counts none of which is negative: what the planners' loop needs of a cost to stop. */
  predicate NonNegative(need: seq<int>)
  {
    |need| == Kinds && forall k :: 0 <= k < Kinds ==> need[k] >= 0
  }

  /**
   * The planners' loop from the trades planned so far: the plan as soon as
   * the hand it leaves meets the cost, the empty list once no resource can
   * spare a trade, and otherwise one more trade of the resource `Best`
   * picks.  It stops because every trade lowers the positive total.
   */
  ghost function GreedyFrom(start: seq<int>, rates: seq<int>, need: seq<int>, plan: seq<int>): seq<int>
    requires |start| == Kinds && Rates(rates) && NonNegative(need) && Feasible(start, rates, need, plan)
    decreases PositiveTotal(Simulate(start, rates, need, plan))
  {
    var temp := Simulate(start, rates, need, plan);
    if Affordable(temp, need) then plan
    else
      var best := Best(temp, rates, need);
      if best.1 < 0 then []
      else
        TradeStepShape(temp, rates, need, best.0);
        FeasibleExtend(start, rates, need, plan, best.0);
        TradedLowers(temp, best.0, Needed(temp, need, -1), rates[best.0]);
        GreedyFrom(start, rates, need, plan + [best.0])
  }

  /** `GreedyFrom` from no trades, reached after `delay` steps so that callers do not unfold the loop. */
  ghost function PlanAfter(start: seq<int>, rates: seq<int>, need: seq<int>, delay: nat): seq<int>
    requires |start| == Kinds && Rates(rates) && NonNegative(need)
    decreases delay
  {
    if delay == 0 then GreedyFrom(start, rates, need, []) else PlanAfter(start, rates, need, delay - 1)
  }

  /** The trades the planners return for a hand. */
  ghost function GreedyPlan(start: seq<int>, rates: seq<int>, need: seq<int>): seq<int>
    requires |start| == Kinds && Rates(rates) && NonNegative(need)
  {
    PlanAfter(start, rates, need, 3)
  }

  /** The trades the planners return are the greedy loop's from no trades. */
  lemma GreedyPlanDefinition(start: seq<int>, rates: seq<int>, need: seq<int>)
    requires |start| == Kinds && Rates(rates) && NonNegative(need)
    ensures GreedyPlan(start, rates, need) == GreedyFrom(start, rates, need, [])
  {
    assert PlanAfter(start, rates, need, 3) == PlanAfter(start, rates, need, 2);
    assert PlanAfter(start, rates, need, 1) == PlanAfter(start, rates, need, 0);
  }

  /** What the greedy loop returns from a feasible start, when not the empty list: a feasible plan after which the cost is met. */
  lemma {:induction false} GreedyFromSound(start: seq<int>, rates: seq<int>, need: seq<int>, plan: seq<int>)
    requires |start| == Kinds && Rates(rates) && NonNegative(need) && Feasible(start, rates, need, plan)
    ensures var r := GreedyFrom(start, rates, need, plan);
      r != [] ==> Feasible(start, rates, need, r) && Affordable(Simulate(start, rates, need, r), need)
    decreases PositiveTotal(Simulate(start, rates, need, plan))
  {
    var temp := Simulate(start, rates, need, plan);
    if !Affordable(temp, need) {
      var best := Best(temp, rates, need);
      if best.1 >= 0 {
        var next := plan + [best.0];
        TradeStepShape(temp, rates, need, best.0);
        FeasibleExtend(start, rates, need, plan, best.0);
        TradedLowers(temp, best.0, Needed(temp, need, -1), rates[best.0]);
        assert GreedyFrom(start, rates, need, plan) == GreedyFrom(start, rates, need, next);
        GreedyFromSound(start, rates, need, next);
      }
    }
  }

  /** The greedy loop only appends: a non-empty result starts with the trades planned so far. */
  lemma {:induction false} GreedyFromExtends(start: seq<int>, rates: seq<int>, need: seq<int>, plan: seq<int>)
    requires |start| == Kinds && Rates(rates) && NonNegative(need) && Feasible(start, rates, need, plan)
    ensures var r := GreedyFrom(start, rates, need, plan);
      r != [] ==> |plan| <= |r| && r[..|plan|] == plan
    decreases PositiveTotal(Simulate(start, rates, need, plan))
  {
    var temp := Simulate(start, rates, need, plan);
    if !Affordable(temp, need) {
      var best := Best(temp, rates, need);
      if best.1 >= 0 {
        var next := plan + [best.0];
        TradeStepShape(temp, rates, need, best.0);
        FeasibleExtend(start, rates, need, plan, best.0);
        TradedLowers(temp, best.0, Needed(temp, need, -1), rates[best.0]);
        assert GreedyFrom(start, rates, need, plan) == GreedyFrom(start, rates, need, next);
        GreedyFromExtends(start, rates, need, next);
        var r := GreedyFrom(start, rates, need, next);
        if r != [] {
          assert r[..|plan|] == r[..|next|][..|plan|];
        }
      }
    } else {
      assert plan[..|plan|] == plan;
    }
  }

  /** Every trade of the plan gives away the resource `Best` picks on the hand the trades before it leave. */
  ghost predicate BestPicks(start: seq<int>, rates: seq<int>, need: seq<int>, plan: seq<int>)
    requires |start| == Kinds && |rates| == Kinds && |need| == Kinds && InRange(plan)
  {
    |plan| > 0 ==>
      var prefix := plan[..|plan| - 1];
      BestPicks(start, rates, need, prefix) && plan[|plan| - 1] == Best(Simulate(start, rates, need, prefix), rates, need).0
  }

  /** Each trade the greedy loop adds is the one `Best` picks. */
  lemma {:induction false} GreedyFromPicksBest(start: seq<int>, rates: seq<int>, need: seq<int>, plan: seq<int>)
    requires |start| == Kinds && Rates(rates) && NonNegative(need) && Feasible(start, rates, need, plan)
    requires BestPicks(start, rates, need, plan)
    ensures var r := GreedyFrom(start, rates, need, plan);
      InRange(r) && BestPicks(start, rates, need, r)
    decreases PositiveTotal(Simulate(start, rates, need, plan))
  {
    var temp := Simulate(start, rates, need, plan);
    if !Affordable(temp, need) {
      var best := Best(temp, rates, need);
      if best.1 >= 0 {
        var next := plan + [best.0];
        TradeStepShape(temp, rates, need, best.0);
        FeasibleExtend(start, rates, need, plan, best.0);
        TradedLowers(temp, best.0, Needed(temp, need, -1), rates[best.0]);
        assert GreedyFrom(start, rates, need, plan) == GreedyFrom(start, rates, need, next);
        assert next[..|next| - 1] == plan;
        GreedyFromPicksBest(start, rates, need, next);
      }
    }
  }

  /**
   * The greedy plan: empty when the hand already meets the cost; otherwise
   * either empty (no resource could spare a trade on the way) or a plan of
   * trades the planners would make, each the one `Best` picks on the hand
   * left by the trades before it, after which the cost is met.
   */
  lemma GreedyPlanSound(start: seq<int>, rates: seq<int>, need: seq<int>)
    requires |start| == Kinds && Rates(rates) && NonNegative(need)
    ensures var r := GreedyPlan(start, rates, need);
      && InRange(r)
      && (Affordable(start, need) ==> r == [])
      && (r != [] ==>
        && Feasible(start, rates, need, r)
        && Affordable(Simulate(start, rates, need, r), need)
        && BestPicks(start, rates, need, r))
  {
    GreedyPlanDefinition(start, rates, need);
    GreedyFromSound(start, rates, need, []);
    GreedyFromPicksBest(start, rates, need, []);
  }

  /**
   * An unaffordable hand gets the empty plan exactly when the loop gets
   * stuck: on the hand left by the greedy trades so far, no resource spares
   * its rate beyond the cost.
   */
  lemma {:induction false} GreedyFromStuck(start: seq<int>, rates: seq<int>, need: seq<int>, plan: seq<int>)
    requires |start| == Kinds && Rates(rates) && NonNegative(need) && Feasible(start, rates, need, plan)
    requires !Affordable(Simulate(start, rates, need, plan), need) && GreedyFrom(start, rates, need, plan) == []
    ensures exists q: seq<int> {:trigger Simulate(start, rates, need, q)} ::
      && Feasible(start, rates, need, q)
      && !Affordable(Simulate(start, rates, need, q), need)
      && Best(Simulate(start, rates, need, q), rates, need).1 < 0
    decreases PositiveTotal(Simulate(start, rates, need, plan))
  {
    var temp := Simulate(start, rates, need, plan);
    var best := Best(temp, rates, need);
    if best.1 >= 0 {
      TradeStepShape(temp, rates, need, best.0);
      FeasibleExtend(start, rates, need, plan, best.0);
      TradedLowers(temp, best.0, Needed(temp, need, -1), rates[best.0]);
      GreedyFromStuck(start, rates, need, plan + [best.0]);
    } else {
      assert Simulate(start, rates, need, plan) == temp;
    }
  }

  /**
   * On the hand [0, 0, 4, 0, 1] at bank rates, the road planner gives four
   * sheep for the missing brick: the loop trades and does not give up.
   */
  lemma GreedyPlanRoadExample()
    ensures GreedyPlan([0, 0, 4, 0, 1], [4, 4, 4, 4, 4], RoadCost) == [2]
  {
    GreedyPlanDefinition([0, 0, 4, 0, 1], [4, 4, 4, 4, 4], RoadCost);
    RoadExampleFirst();
    RoadExampleLast();
  }

  /** The first pass of `GreedyPlanRoadExample`: a road is unaffordable and the best trade is sheep, kept in full. */
  lemma RoadExampleFirst()
    ensures Feasible([0, 0, 4, 0, 1], [4, 4, 4, 4, 4], RoadCost, [2])
    ensures GreedyFrom([0, 0, 4, 0, 1], [4, 4, 4, 4, 4], RoadCost, []) == GreedyFrom([0, 0, 4, 0, 1], [4, 4, 4, 4, 4], RoadCost, [2])
  {
    var start := [0, 0, 4, 0, 1];
    var rates := [4, 4, 4, 4, 4];
    assert !Affordable(start, RoadCost) by { assert RoadCost[3] > 0 && start[3] < RoadCost[3]; }
    assert Simulate(start, rates, RoadCost, []) == start;
    RoadExampleTrade();
  }

  /** The second pass of `GreedyPlanRoadExample`: after the trade the road is affordable and the plan is returned. */
  lemma RoadExampleLast()
    requires Feasible([0, 0, 4, 0, 1], [4, 4, 4, 4, 4], RoadCost, [2])
    ensures GreedyFrom([0, 0, 4, 0, 1], [4, 4, 4, 4, 4], RoadCost, [2]) == [2]
  {
    RoadExampleTrade();
    assert Affordable([0, 0, 0, 1, 1], RoadCost);
  }

  /** The one trade of `GreedyPlanRoadExample`: four sheep, the most plentiful, for the missing brick. */
  lemma RoadExampleTrade()
    ensures Best([0, 0, 4, 0, 1], [4, 4, 4, 4, 4], RoadCost) == (2, 0)
    ensures Simulate([0, 0, 4, 0, 1], [4, 4, 4, 4, 4], RoadCost, [2]) == [0, 0, 0, 1, 1]
  {
    var start := [0, 0, 4, 0, 1];
    var rates := [4, 4, 4, 4, 4];
    assert Needed(start, RoadCost, -1) == 3;
    assert [2][..0] == [];
    assert Simulate(start, rates, RoadCost, [2]) == TradeStep(start, rates, RoadCost, 2) == [0, 0, 0, 1, 1];
  }

  /**
   * The loop shared by the three planners.  It stops: every trade lowers the
   * positive total of the copied hand.  A non-empty plan is made of trades
   * the planners would make and meets the cost; a hand that already meets
   * the cost gets the empty plan.
   */
  method PortPlan(resources: seq<int>, rates: seq<int>, need: seq<int>) returns (plan: seq<int>)
    requires |resources| == Kinds && Rates(rates) && IsCost(need)
    ensures plan == GreedyPlan(resources, rates, need)
    ensures InRange(plan)
    ensures plan != [] ==> Feasible(resources, rates, need, plan) && Affordable(Simulate(resources, rates, need, plan), need)
    ensures Affordable(resources, need) ==> plan == []
  {
    GreedyPlanDefinition(resources, rates, need);
    var temp := resources;
    plan := [];
    var maxRemaining := 0;
    while maxRemaining >= 0
      invariant |temp| == Kinds && InRange(plan)
      invariant Feasible(resources, rates, need, plan) && temp == Simulate(resources, rates, need, plan)
      invariant plan == [] || !Affordable(resources, need)
      invariant GreedyFrom(resources, rates, need, plan) == GreedyPlan(resources, rates, need)
      invariant maxRemaining < 0 ==> GreedyPlan(resources, rates, need) == []
      decreases PositiveTotal(temp) + (if maxRemaining >= 0 then 1 else 0)
    {
      if Affordable(temp, need) {
        return plan;
      }
      var best := Best(temp, rates, need);
      maxRemaining := best.1;
      if maxRemaining >= 0 {
        temp := TradeOnCopy(resources, rates, need, plan, temp, best.0);
        plan := plan + [best.0];
      }
    }
    return [];
  }
}
