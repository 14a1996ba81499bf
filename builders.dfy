/**
 * How the random computer player builds (catan/RandComp.py): it plans bank
 * trades toward a city, a settlement or a road, replays the plan on its own
 * hand, and builds at the best-valued location it is offered; a turn builds
 * cities, then settlements, then roads, each until one fails.
 */
module Builders {
  import opened Geometry
  import opened Resources
  import opened Random
  import opened Structures
  import opened Boards
  import opened Players
  import opened Planning
  import opened RandComps

  // ---------------------------------------------------------------------
  // Planning the trades (cityPortResources, settlementPortResources,
  // roadPortResources)
  // ---------------------------------------------------------------------

  /**
   * `cityPortResources`: no plan when no location is offered or the player
   * already has four cities; otherwise the planners' loop toward ore 3 and
   * wheat 2.
   */
  method CityPortResources(p: Player, cityPoints: seq<Point>) returns (plan: seq<int>)
    requires p.Valid()
    ensures plan == if |cityPoints| == 0 || |p.currentBoard.cities[p.playerNum - 1]| >= MaxCities then []
                    else GreedyPlan(p.resources, p.tradeRates, CityCost)
    ensures InRange(plan)
    ensures plan != [] ==> Feasible(p.resources, p.tradeRates, CityCost, plan)
                           && Affordable(Simulate(p.resources, p.tradeRates, CityCost, plan), CityCost)
    ensures Affordable(p.resources, CityCost) ==> plan == []
  {
    if |cityPoints| == 0 || |p.currentBoard.cities[p.playerNum - 1]| >= 4 {
      return [];
    }
    CostsAreCosts();
    plan := PortPlan(p.resources, p.tradeRates, CityCost);
  }

  /**
   * `settlementPortResources`: no plan when no location is offered or the
   * player already has five settlements; otherwise the planners' loop toward
   * one each of wheat, sheep, brick and wood.
   */
  method SettlementPortResources(p: Player, settlementPoints: seq<Point>) returns (plan: seq<int>)
    requires p.Valid()
    ensures plan == if |settlementPoints| == 0 || |p.currentBoard.settlements[p.playerNum - 1]| >= MaxSettlements then []
                    else GreedyPlan(p.resources, p.tradeRates, SettlementCost)
    ensures InRange(plan)
    ensures plan != [] ==> Feasible(p.resources, p.tradeRates, SettlementCost, plan)
                           && Affordable(Simulate(p.resources, p.tradeRates, SettlementCost, plan), SettlementCost)
    ensures Affordable(p.resources, SettlementCost) ==> plan == []
  {
    if |settlementPoints| == 0 || |p.currentBoard.settlements[p.playerNum - 1]| >= 5 {
      return [];
    }
    CostsAreCosts();
    plan := PortPlan(p.resources, p.tradeRates, SettlementCost);
  }

  /**
   * `roadPortResources`: no plan when no location is offered or the player
   * already has fifteen roads; otherwise the planners' loop toward one brick
   * and one wood.
   */
  method RoadPortResources(p: Player, roadPoints: seq<DoublePoint>) returns (plan: seq<int>)
    requires p.Valid()
    ensures plan == if |roadPoints| == 0 || |p.currentBoard.roads[p.playerNum - 1]| >= MaxRoads then []
                    else GreedyPlan(p.resources, p.tradeRates, RoadCost)
    ensures InRange(plan)
    ensures plan != [] ==> Feasible(p.resources, p.tradeRates, RoadCost, plan)
                           && Affordable(Simulate(p.resources, p.tradeRates, RoadCost, plan), RoadCost)
    ensures Affordable(p.resources, RoadCost) ==> plan == []
  {
    if |roadPoints| == 0 || |p.currentBoard.roads[p.playerNum - 1]| >= 15 {
      return [];
    }
    CostsAreCosts();
    plan := PortPlan(p.resources, p.tradeRates, RoadCost);
  }

  // ---------------------------------------------------------------------
  // Replaying a plan
  // ---------------------------------------------------------------------

  /** Every prefix of a feasible plan is feasible, and the trade after it is one the planners would make. */
  lemma {:induction false} FeasiblePrefix(start: seq<int>, rates: seq<int>, need: seq<int>, plan: seq<int>, i: nat)
    requires |start| == Kinds && |rates| == Kinds && |need| == Kinds
    requires Feasible(start, rates, need, plan) && i < |plan|
    ensures Feasible(start, rates, need, plan[..i])
    ensures CanTrade(Simulate(start, rates, need, plan[..i]), rates, need, plan[i])
    decreases |plan|
  {
    var prefix := plan[..|plan| - 1];
    assert Feasible(start, rates, need, prefix) && CanTrade(Simulate(start, rates, need, prefix), rates, need, plan[|plan| - 1]);
    if i < |plan| - 1 {
      FeasiblePrefix(start, rates, need, prefix, i);
      assert prefix[..i] == plan[..i] && prefix[i] == plan[i];
    } else {
      assert plan[..i] == prefix;
    }
  }

  /**
   * One round of the builders' trade loop on the hand the plan foresaw: the
   * resource received is the first one the cost lacks, the trade goes through,
   * and the hand becomes the one the plan foresaw after that trade.
   */
  lemma ReplayStep(start: seq<int>, rates: seq<int>, need: seq<int>, plan: seq<int>, i: nat)
    requires |start| == Kinds && Rates(rates) && IsCost(need)
    requires Feasible(start, rates, need, plan) && i < |plan|
    ensures var hand := Simulate(start, rates, need, plan[..i]);
      var r := Needed(hand, need, plan[i]);
      && 0 <= r < Kinds
      && PortOutcome(hand, rates, plan[i], r) == Done(Simulate(start, rates, need, plan[..i + 1]))
  {
    FeasiblePrefix(start, rates, need, plan, i);
    var hand := Simulate(start, rates, need, plan[..i]);
    ReplayTrade(hand, rates, need, plan[i]);
    SimulateLast(start, rates, need, plan, i);
  }

  /**
   * A trade the planners would make goes through when the builders replay
   * it: the resource they ask for is the one the planners assumed.
   */
  lemma ReplayTrade(hand: seq<int>, rates: seq<int>, need: seq<int>, t: int)
    requires |hand| == Kinds && Rates(rates) && IsCost(need) && CanTrade(hand, rates, need, t)
    ensures var r := Needed(hand, need, t);
      0 <= r < Kinds && PortOutcome(hand, rates, t, r) == Done(TradeStep(hand, rates, need, t))
  {
    TradeStepShape(hand, rates, need, t);
    NeededSkip(hand, need, t, 0);
  }

  /** The hand after one more planned trade. */
  lemma SimulateLast(start: seq<int>, rates: seq<int>, need: seq<int>, plan: seq<int>, i: nat)
    requires |start| == Kinds && |rates| == Kinds && |need| == Kinds && InRange(plan) && i < |plan|
    ensures Simulate(start, rates, need, plan[..i + 1]) == TradeStep(Simulate(start, rates, need, plan[..i]), rates, need, plan[i])
  {
    var extended := plan[..i + 1];
    assert extended[..|extended| - 1] == plan[..i] && extended[|extended| - 1] == plan[i];
  }


  /**
   * The trade loop of `placeCity`, `placeSettlement` and `placeRoad`: for each
   * planned resource the player buys, with `portResource`, the first resource
   * the cost lacks other than the one it gives (a message and no trade when
   * there is none).  Replaying a plan the planners made reaches exactly the
   * hand they foresaw: no trade is skipped or refused.
   */
  method ExecuteTrades(p: Player, plan: seq<int>, need: seq<int>)
    requires p.Valid() && IsCost(need) && Feasible(p.resources, p.tradeRates, need, plan)
    modifies p`resources
    ensures p.Valid()
    ensures p.resources == Simulate(old(p.resources), p.tradeRates, need, plan)
  {
    ghost var start := p.resources;
    var i := 0;
    while i < |plan|
      invariant 0 <= i <= |plan|
      invariant p.Valid() && p.resources == Simulate(start, p.tradeRates, need, plan[..i])
    {
      ReplayStep(start, p.tradeRates, need, plan, i);
      ghost var next := Simulate(start, p.tradeRates, need, plan[..i + 1]);
      var resourceReceived := Needed(p.resources, need, plan[i]);
      if resourceReceived != -1 {
        p.PortResource(plan[i], resourceReceived);
      }
      assert p.resources == next;
      i := i + 1;
    }
    assert plan[..i] == plan;
  }

  // ---------------------------------------------------------------------
  // Building (placeCity, placeSettlement, placeRoad)
  // ---------------------------------------------------------------------

  /** A per-player list in which only the entry of player `playerNum` may have changed. */
  ghost predicate OnlyOwn<T>(before: seq<T>, after: seq<T>, playerNum: int)
  {
    OnlyOwnAfter(before, after, playerNum, 2)
  }

  /** `OnlyOwn`, reached after `delay` steps so that callers do not unfold it. */
  ghost predicate OnlyOwnAfter<T>(before: seq<T>, after: seq<T>, playerNum: int, delay: nat)
    decreases delay
  {
    if delay == 0 then |after| == |before| && forall k :: 0 <= k < |before| && k != playerNum - 1 ==> after[k] == before[k]
    else OnlyOwnAfter(before, after, playerNum, delay - 1)
  }

  /** What `OnlyOwn` says. */
  lemma OnlyOwnDefinition<T>(before: seq<T>, after: seq<T>, playerNum: int)
    ensures OnlyOwn(before, after, playerNum) <==>
      |after| == |before| && forall k :: 0 <= k < |before| && k != playerNum - 1 ==> after[k] == before[k]
  {
    assert OnlyOwnAfter(before, after, playerNum, 2) == OnlyOwnAfter(before, after, playerNum, 0);
  }

  /** An unchanged list changed only the player's own entry. */
  lemma OnlyOwnSame<T>(xs: seq<T>, playerNum: int)
    ensures OnlyOwn(xs, xs, playerNum)
  {
    OnlyOwnDefinition(xs, xs, playerNum);
  }

  /** Changes confined to one player's entry compose. */
  lemma OnlyOwnTrans<T>(xs: seq<T>, ys: seq<T>, zs: seq<T>, playerNum: int)
    requires OnlyOwn(xs, ys, playerNum) && OnlyOwn(ys, zs, playerNum)
    ensures OnlyOwn(xs, zs, playerNum)
  {
    OnlyOwnDefinition(xs, ys, playerNum);
    OnlyOwnDefinition(ys, zs, playerNum);
    OnlyOwnDefinition(xs, zs, playerNum);
  }

  /** `RandComp.placeCity`'s test for a city: at least three ore and two wheat. */
  lemma CityTest(hand: seq<int>)
    requires |hand| == Kinds
    ensures Affordable(hand, CityCost) <==> hand[0] >= 3 && hand[1] >= 2
  {
    if hand[0] >= 3 && hand[1] >= 2 {
      assert forall k :: 0 <= k < Kinds && CityCost[k] > 0 ==> k == 0 || k == 1;
    }
  }

  /**
   * The board lists after `placeCity` builds at `loc`: `addCity` appends a
   * city and removes the first of the player's settlements there when there
   * is one and the player has fewer than four cities (scoring a point), and
   * the player scores a second point in any case.
   */
  ghost predicate CityAdded(settlements: seq<seq<Building>>, cities: seq<seq<Building>>, scores: seq<int>,
                            settlements': seq<seq<Building>>, cities': seq<seq<Building>>, scores': seq<int>,
                            loc: Point, color: string, playerNum: int)
  {
    CityAddedAfter(settlements, cities, scores, settlements', cities', scores', loc, color, playerNum, 2)
  }

  /** `CityAdded`, reached only after `delay` unfoldings, which keeps it out of the callers that only pass it on. */
  ghost predicate CityAddedAfter(settlements: seq<seq<Building>>, cities: seq<seq<Building>>, scores: seq<int>,
                                 settlements': seq<seq<Building>>, cities': seq<seq<Building>>, scores': seq<int>,
                                 loc: Point, color: string, playerNum: int, delay: nat)
    decreases delay
  {
    if delay > 0 then CityAddedAfter(settlements, cities, scores, settlements', cities', scores', loc, color, playerNum, delay - 1)
    else
      && 1 <= playerNum <= |settlements| && playerNum <= |cities| && playerNum <= |scores|
      && var own := settlements[playerNum - 1];
         var idx := FirstIndex(own, AtPoint(loc, playerNum));
         var ok := idx != -1 && |cities[playerNum - 1]| < MaxCities;
         && cities' == (if ok then cities[playerNum - 1 := cities[playerNum - 1] + [Building(loc, color, playerNum)]] else cities)
         && settlements' == (if ok then settlements[playerNum - 1 := own[..idx] + own[idx + 1..]] else settlements)
         && scores' == scores[playerNum - 1 := scores[playerNum - 1] + (if ok then 2 else 1)]
  }

  /** Lists changed as `addCity` and the second point change them are `CityAdded`. */
  lemma CityAddedOf(settlements: seq<seq<Building>>, cities: seq<seq<Building>>, scores: seq<int>,
                    settlements': seq<seq<Building>>, cities': seq<seq<Building>>, scores': seq<int>,
                    loc: Point, color: string, playerNum: int)
    requires
      1 <= playerNum <= |settlements| && playerNum <= |cities| && playerNum <= |scores|
      && var own := settlements[playerNum - 1];
         var idx := FirstIndex(own, AtPoint(loc, playerNum));
         var ok := idx != -1 && |cities[playerNum - 1]| < MaxCities;
         && cities' == (if ok then cities[playerNum - 1 := cities[playerNum - 1] + [Building(loc, color, playerNum)]] else cities)
         && settlements' == (if ok then settlements[playerNum - 1 := own[..idx] + own[idx + 1..]] else settlements)
         && scores' == scores[playerNum - 1 := scores[playerNum - 1] + (if ok then 2 else 1)]
    ensures CityAdded(settlements, cities, scores, settlements', cities', scores', loc, color, playerNum)
  {
    var a := CityAddedAfter(settlements, cities, scores, settlements', cities', scores', loc, color, playerNum, 2);
    assert a == CityAddedAfter(settlements, cities, scores, settlements', cities', scores', loc, color, playerNum, 1)
             == CityAddedAfter(settlements, cities, scores, settlements', cities', scores', loc, color, playerNum, 0);
  }

  /** What `CityAdded` says, spelt out. */
  lemma CityAddedDefinition(settlements: seq<seq<Building>>, cities: seq<seq<Building>>, scores: seq<int>,
                            settlements': seq<seq<Building>>, cities': seq<seq<Building>>, scores': seq<int>,
                            loc: Point, color: string, playerNum: int)
    ensures CityAdded(settlements, cities, scores, settlements', cities', scores', loc, color, playerNum) <==>
      && 1 <= playerNum <= |settlements| && playerNum <= |cities| && playerNum <= |scores|
      && var own := settlements[playerNum - 1];
         var idx := FirstIndex(own, AtPoint(loc, playerNum));
         var ok := idx != -1 && |cities[playerNum - 1]| < MaxCities;
         && cities' == (if ok then cities[playerNum - 1 := cities[playerNum - 1] + [Building(loc, color, playerNum)]] else cities)
         && settlements' == (if ok then settlements[playerNum - 1 := own[..idx] + own[idx + 1..]] else settlements)
         && scores' == scores[playerNum - 1 := scores[playerNum - 1] + (if ok then 2 else 1)]
  {
    var a := CityAddedAfter(settlements, cities, scores, settlements', cities', scores', loc, color, playerNum, 2);
    assert a == CityAddedAfter(settlements, cities, scores, settlements', cities', scores', loc, color, playerNum, 1)
             == CityAddedAfter(settlements, cities, scores, settlements', cities', scores', loc, color, playerNum, 0);
  }

  /** The board's side of `placeCity`'s building step: `addCity`, then a second point for the player. */
  method AddCityScored(b: Board, loc: Point, color: string, playerNum: int)
    requires b.Valid() && 1 <= playerNum <= b.numPlayers
    modifies b`settlements, b`cities, b`playerScores
    ensures b.Valid()
    ensures CityAdded(old(b.settlements), old(b.cities), old(b.playerScores), b.settlements, b.cities, b.playerScores, loc, color, playerNum)
  {
    ghost var settlements, cities, scores := b.settlements, b.cities, b.playerScores;
    b.AddCity(loc, color, playerNum, false);
    b.ScorePoint(playerNum);
    ghost var ok := FirstIndex(settlements[playerNum - 1], AtPoint(loc, playerNum)) != -1
                    && |cities[playerNum - 1]| < MaxCities;
    assert b.playerScores == scores[playerNum - 1 := scores[playerNum - 1] + (if ok then 2 else 1)];
    CityAddedOf(settlements, cities, scores, b.settlements, b.cities, b.playerScores, loc, color, playerNum);
  }

  /**
   * The player's side of `placeCity`'s building step: pay three ore and two
   * wheat, and count the pips of the tiles around `loc`.
   */
  method PayAndCountCity(p: Player, loc: Point)
    requires p.Valid() && Affordable(p.resources, CityCost)
    modifies p`resources, p`resourcePoints
    ensures p.Valid()
    ensures p.resources == Pay(old(p.resources), CityCost)
    ensures p.resourcePoints == old(Counted(p.currentBoard, p.resourcePoints, loc))
  {
    p.resources := PayCity(p.resources);
    p.UpdateResourcePoints(loc);
  }

  /**
   * The building step of `placeCity` at `loc`: the player pays three ore and
   * two wheat, the board adds the city and scores it (`AddCityScored`), the
   * pips of the tiles around `loc` are counted and the player's own score
   * rises by one.  `placeCity` counts the pips after updating the board; the
   * two steps touch disjoint state (the count reads only the tiles), so
   * counting first changes nothing.
   */
  method BuildCity(p: Player, loc: Point)
    requires p.Valid() && Affordable(p.resources, CityCost)
    modifies p`resources, p`resourcePoints, p`score
    modifies p.currentBoard`settlements, p.currentBoard`cities, p.currentBoard`playerScores
    ensures p.Valid()
    ensures p.resources == Pay(old(p.resources), CityCost)
    ensures p.score == old(p.score) + 1
    ensures p.resourcePoints == old(Counted(p.currentBoard, p.resourcePoints, loc))
    ensures var b := p.currentBoard;
      CityAdded(old(b.settlements), old(b.cities), old(b.playerScores), b.settlements, b.cities, b.playerScores, loc, p.color, p.playerNum)
  {
    PayAndCountCity(p, loc);
    AddCityScored(p.currentBoard, loc, p.color, p.playerNum);
    p.score := p.score + 1;
  }

  /** The trade loop run only when there is a plan, as the builders guard it. */
  method TradeFor(p: Player, need: seq<int>, plan: seq<int>)
    requires p.Valid() && IsCost(need) && Feasible(p.resources, p.tradeRates, need, plan)
    modifies p`resources
    ensures p.Valid()
    ensures p.resources == Simulate(old(p.resources), p.tradeRates, need, plan)
  {
    if |plan| > 0 {
      ExecuteTrades(p, plan, need);
    }
  }

  /**
   * The trading half of `placeCity`, once a location is offered and the
   * player has fewer than four cities: plan with `cityPortResources` and
   * replay the plan.  Trading touches only the hand, so the value and the
   * pip count of every offered location are what they were.
   */
  method TradeForCity(p: Player, cityPoints: seq<Point>) returns (plan: seq<int>)
    requires p.Valid() && |cityPoints| > 0 && |p.currentBoard.cities[p.playerNum - 1]| < MaxCities
    modifies p`resources
    ensures p.Valid()
    ensures plan == GreedyPlan(old(p.resources), p.tradeRates, CityCost)
    ensures plan != [] ==> Feasible(old(p.resources), p.tradeRates, CityCost, plan)
                           && Affordable(Simulate(old(p.resources), p.tradeRates, CityCost, plan), CityCost)
    ensures Affordable(old(p.resources), CityCost) ==> plan == []
    ensures p.resources == Simulate(old(p.resources), p.tradeRates, CityCost, plan)
    ensures Values(p.currentBoard, p.resourcePoints, p.tradeRates, cityPoints) == old(Values(p.currentBoard, p.resourcePoints, p.tradeRates, cityPoints))
    ensures forall j :: 0 <= j < |cityPoints| ==>
      Counted(p.currentBoard, p.resourcePoints, cityPoints[j]) == old(Counted(p.currentBoard, p.resourcePoints, cityPoints[j]))
  {
    plan := CityPortResources(p, cityPoints);
    CostsAreCosts();
    TradeFor(p, CityCost, plan);
  }

  /**
   * The building half of `placeCity`, once the player can pay: score every
   * offered location and build at the chosen one.
   */
  method CityAtBest(p: Player, cityPoints: seq<Point>, src: Source) returns (cityIndex: int, src': Source)
    requires p.Valid() && |cityPoints| > 0 && Affordable(p.resources, CityCost)
    modifies p`resources, p`resourcePoints, p`score, p`tempTradeRates
    modifies p.currentBoard`settlements, p.currentBoard`cities, p.currentBoard`playerScores
    ensures p.Valid()
    ensures cityIndex == Pick(old(Values(p.currentBoard, p.resourcePoints, p.tradeRates, cityPoints)), src, |cityPoints|).0
    ensures 0 <= cityIndex < |cityPoints|
    ensures p.resources == Pay(old(p.resources), CityCost)
    ensures p.score == old(p.score) + 1
    ensures p.resourcePoints == old(Counted(p.currentBoard, p.resourcePoints, cityPoints[cityIndex]))
    ensures src' == Source(src.draws, src.used + |cityPoints|)
    ensures p.tempTradeRates == [4, 4, 4, 4, 4]
    ensures var b := p.currentBoard;
      CityAdded(old(b.settlements), old(b.cities), old(b.playerScores), b.settlements, b.cities, b.playerScores,
                cityPoints[cityIndex], p.color, p.playerNum)
  {
    cityIndex, src' := ChooseBuildLocation(p, cityPoints, src);
    BuildCity(p, cityPoints[cityIndex]);
  }

  /**
   * Trading by a plan and then paying lowers the positive total and keeps a
   * hand a hand: the measure by which a turn's building loops end.
   */
  lemma PaidAfterTrades(start: seq<int>, rates: seq<int>, need: seq<int>, plan: seq<int>)
    requires |start| == Kinds && Rates(rates) && IsCost(need) && Feasible(start, rates, need, plan)
    requires Affordable(Simulate(start, rates, need, plan), need)
    ensures PositiveTotal(Pay(Simulate(start, rates, need, plan), need)) < PositiveTotal(start)
    ensures Hand(start) ==> Hand(Pay(Simulate(start, rates, need, plan), need))
  {
    SimulateEffect(start, rates, need, plan);
    PayEffect(Simulate(start, rates, need, plan), need);
  }

  /**
   * `placeCity`: nothing happens (-1) when no location is offered, the player
   * already has four cities, or even the planned trades cannot make a city
   * affordable; otherwise the planned trades are made, every offered location
   * is scored (its value plus one jitter draw each) and the city is built at
   * the chosen one.  The chosen location beats every later one on value plus
   * jitter against its bare value, as the loop of `placeCity` compares them.
   * This is the case where a location is offered and the player has fewer
   * than four cities; `PlaceCity` adds the guard.
   */
  method PlaceCityOffered(p: Player, cityPoints: seq<Point>, src: Source) returns (cityIndex: int, src': Source, ghost plan: seq<int>)
    requires p.Valid() && |cityPoints| > 0 && |p.currentBoard.cities[p.playerNum - 1]| < MaxCities
    modifies p`resources, p`resourcePoints, p`score, p`tempTradeRates
    modifies p.currentBoard`settlements, p.currentBoard`cities, p.currentBoard`playerScores
    ensures p.Valid()
    ensures -1 <= cityIndex < |cityPoints|
    ensures plan == GreedyPlan(old(p.resources), p.tradeRates, CityCost)
    ensures plan != [] ==> Feasible(old(p.resources), p.tradeRates, CityCost, plan)
                           && Affordable(Simulate(old(p.resources), p.tradeRates, CityCost, plan), CityCost)
    ensures cityIndex == -1 <==> plan == [] && !Affordable(old(p.resources), CityCost)
    ensures cityIndex != -1 ==> cityIndex == Pick(old(Values(p.currentBoard, p.resourcePoints, p.tradeRates, cityPoints)), src, |cityPoints|).0
    ensures cityIndex == -1 ==>
      && unchanged(p`resources, p`resourcePoints, p`score, p`tempTradeRates)
      && unchanged(p.currentBoard`settlements, p.currentBoard`cities, p.currentBoard`playerScores)
      && src' == src
    ensures cityIndex != -1 ==>
      && p.resources == Pay(Simulate(old(p.resources), p.tradeRates, CityCost, plan), CityCost)
      && PositiveTotal(p.resources) < old(PositiveTotal(p.resources))
      && (Hand(old(p.resources)) ==> Hand(p.resources))
      && p.score == old(p.score) + 1
      && p.resourcePoints == old(Counted(p.currentBoard, p.resourcePoints, cityPoints[cityIndex]))
      && src' == Source(src.draws, src.used + |cityPoints|)
      && p.tempTradeRates == [4, 4, 4, 4, 4]
    ensures cityIndex != -1 ==> var b := p.currentBoard;
      CityAdded(old(b.settlements), old(b.cities), old(b.playerScores), b.settlements, b.cities, b.playerScores,
                cityPoints[cityIndex], p.color, p.playerNum)
  {
    CostsAreCosts();
    ghost var start := p.resources;
    var resourcesToTrade := TradeForCity(p, cityPoints);
    plan := resourcesToTrade;
    CityTest(p.resources);
    if p.resources[0] >= 3 && p.resources[1] >= 2 {
      PaidAfterTrades(start, p.tradeRates, CityCost, plan);
      cityIndex, src' := CityAtBest(p, cityPoints, src);
    } else {
      cityIndex, src' := -1, src;
    }
  }

  /** `placeCity`, guard included: the blocked cases return -1 and change nothing. */
  method PlaceCity(p: Player, cityPoints: seq<Point>, src: Source) returns (cityIndex: int, src': Source, ghost plan: seq<int>)
    requires p.Valid()
    modifies p`resources, p`resourcePoints, p`score, p`tempTradeRates
    modifies p.currentBoard`settlements, p.currentBoard`cities, p.currentBoard`playerScores
    ensures p.Valid()
    ensures -1 <= cityIndex < |cityPoints|
    ensures plan == if old(|cityPoints| == 0 || |p.currentBoard.cities[p.playerNum - 1]| >= MaxCities) then []
                    else GreedyPlan(old(p.resources), p.tradeRates, CityCost)
    ensures cityIndex != -1 ==> cityIndex == old(BuildPick(p.currentBoard, p.resourcePoints, p.tradeRates, cityPoints, src))
    ensures plan != [] ==> Feasible(old(p.resources), p.tradeRates, CityCost, plan)
                           && Affordable(Simulate(old(p.resources), p.tradeRates, CityCost, plan), CityCost)
    ensures cityIndex == -1 <==>
      old(|cityPoints| == 0 || |p.currentBoard.cities[p.playerNum - 1]| >= MaxCities)
      || (plan == [] && !Affordable(old(p.resources), CityCost))
    ensures cityIndex == -1 ==>
      |cityPoints| == 0 || |p.currentBoard.cities[p.playerNum - 1]| >= MaxCities || !Affordable(p.resources, CityCost)
    ensures cityIndex == -1 ==>
      && unchanged(p`resources, p`resourcePoints, p`score, p`tempTradeRates)
      && unchanged(p.currentBoard`settlements, p.currentBoard`cities, p.currentBoard`playerScores)
      && src' == src
    ensures cityIndex != -1 ==>
      && p.resources == Pay(Simulate(old(p.resources), p.tradeRates, CityCost, plan), CityCost)
      && PositiveTotal(p.resources) < old(PositiveTotal(p.resources))
      && (Hand(old(p.resources)) ==> Hand(p.resources))
      && p.score == old(p.score) + 1
      && p.resourcePoints == old(Counted(p.currentBoard, p.resourcePoints, cityPoints[cityIndex]))
      && src' == Source(src.draws, src.used + |cityPoints|)
      && p.tempTradeRates == [4, 4, 4, 4, 4]
    ensures cityIndex != -1 ==> var b := p.currentBoard;
      CityAdded(old(b.settlements), old(b.cities), old(b.playerScores), b.settlements, b.cities, b.playerScores,
                cityPoints[cityIndex], p.color, p.playerNum)
    ensures var b, pn := p.currentBoard, p.playerNum;
      OnlyOwn(old(b.settlements), b.settlements, pn) && OnlyOwn(old(b.cities), b.cities, pn) && OnlyOwn(old(b.playerScores), b.playerScores, pn)
  {
    var b := p.currentBoard;
    BuildPickDefinition(b, p.resourcePoints, p.tradeRates, cityPoints, src);
    if |cityPoints| == 0 || |b.cities[p.playerNum - 1]| >= 4 {
      OnlyOwnSame(b.settlements, p.playerNum);
      OnlyOwnSame(b.cities, p.playerNum);
      OnlyOwnSame(b.playerScores, p.playerNum);
      return -1, src, [];
    }
    cityIndex, src', plan := PlaceCityOffered(p, cityPoints, src);
    if cityIndex == -1 {
      OnlyOwnSame(b.settlements, p.playerNum);
      OnlyOwnSame(b.cities, p.playerNum);
      OnlyOwnSame(b.playerScores, p.playerNum);
    } else {
      CityAddedOwn(old(b.settlements), old(b.cities), old(b.playerScores), b.settlements, b.cities, b.playerScores,
                   cityPoints[cityIndex], p.color, p.playerNum);
    }
  }


  /** `resources[0] -= 3; resources[1] -= 2`: paying for a city. */
  function PayCity(hand: seq<int>): (h: seq<int>)
    requires |hand| == Kinds
    ensures h == Pay(hand, CityCost)
  {
    hand[0 := hand[0] - 3][1 := hand[1] - 2]
  }

  // ---------------------------------------------------------------------
  // Settlements
  // ---------------------------------------------------------------------

  /** `RandComp.placeSettlement`'s test for a settlement: at least one each of wheat, sheep, brick and wood. */
  lemma SettlementTest(hand: seq<int>)
    requires |hand| == Kinds
    ensures Affordable(hand, SettlementCost) <==> hand[1] > 0 && hand[2] > 0 && hand[3] > 0 && hand[4] > 0
  {
    if hand[1] > 0 && hand[2] > 0 && hand[3] > 0 && hand[4] > 0 {
      assert forall k :: 0 <= k < Kinds && SettlementCost[k] > 0 ==> 1 <= k <= 4;
    }
  }

  /** `resources[1..4] -= 1`: paying for a settlement. */
  function PaySettlement(hand: seq<int>): (h: seq<int>)
    requires |hand| == Kinds
    ensures h == Pay(hand, SettlementCost)
  {
    hand[1 := hand[1] - 1][2 := hand[2] - 1][3 := hand[3] - 1][4 := hand[4] - 1]
  }

  /**
   * The board lists after `placeSettlement` builds at `loc`: `addSettlement`
   * appends a settlement (scoring a point) when the location is legal and the
   * player has fewer than five settlements, and the player scores a second
   * point in any case.
   */
  ghost predicate SettlementAdded(settlements: seq<seq<Building>>, scores: seq<int>,
                                  settlements': seq<seq<Building>>, scores': seq<int>,
                                  loc: Point, color: string, playerNum: int, legal: bool)
  {
    SettlementAddedAfter(settlements, scores, settlements', scores', loc, color, playerNum, legal, 2)
  }

  /** `SettlementAdded`, reached only after `delay` unfoldings, which keeps it out of the callers that only pass it on. */
  ghost predicate SettlementAddedAfter(settlements: seq<seq<Building>>, scores: seq<int>,
                                       settlements': seq<seq<Building>>, scores': seq<int>,
                                       loc: Point, color: string, playerNum: int, legal: bool, delay: nat)
    decreases delay
  {
    if delay > 0 then SettlementAddedAfter(settlements, scores, settlements', scores', loc, color, playerNum, legal, delay - 1)
    else
      && 1 <= playerNum <= |settlements| && playerNum <= |scores|
      && var own := settlements[playerNum - 1];
         var ok := legal && |own| < MaxSettlements;
         && settlements' == (if ok then settlements[playerNum - 1 := own + [Building(loc, color, playerNum)]] else settlements)
         && scores' == scores[playerNum - 1 := scores[playerNum - 1] + (if ok then 2 else 1)]
  }

  /** Lists changed as `addSettlement` and the second point change them are `SettlementAdded`. */
  lemma SettlementAddedOf(settlements: seq<seq<Building>>, scores: seq<int>, settlements': seq<seq<Building>>, scores': seq<int>,
                          loc: Point, color: string, playerNum: int, legal: bool)
    requires
      1 <= playerNum <= |settlements| && playerNum <= |scores|
      && var own := settlements[playerNum - 1];
         var ok := legal && |own| < MaxSettlements;
         && settlements' == (if ok then settlements[playerNum - 1 := own + [Building(loc, color, playerNum)]] else settlements)
         && scores' == scores[playerNum - 1 := scores[playerNum - 1] + (if ok then 2 else 1)]
    ensures SettlementAdded(settlements, scores, settlements', scores', loc, color, playerNum, legal)
  {
    var a := SettlementAddedAfter(settlements, scores, settlements', scores', loc, color, playerNum, legal, 2);
    assert a == SettlementAddedAfter(settlements, scores, settlements', scores', loc, color, playerNum, legal, 1) == SettlementAddedAfter(settlements, scores, settlements', scores', loc, color, playerNum, legal, 0);
  }

  /** What `SettlementAdded` says, spelt out. */
  lemma SettlementAddedDefinition(settlements: seq<seq<Building>>, scores: seq<int>, settlements': seq<seq<Building>>, scores': seq<int>,
                                  loc: Point, color: string, playerNum: int, legal: bool)
    ensures SettlementAdded(settlements, scores, settlements', scores', loc, color, playerNum, legal) <==>
      && 1 <= playerNum <= |settlements| && playerNum <= |scores|
      && var own := settlements[playerNum - 1];
         var ok := legal && |own| < MaxSettlements;
         && settlements' == (if ok then settlements[playerNum - 1 := own + [Building(loc, color, playerNum)]] else settlements)
         && scores' == scores[playerNum - 1 := scores[playerNum - 1] + (if ok then 2 else 1)]
  {
    var a := SettlementAddedAfter(settlements, scores, settlements', scores', loc, color, playerNum, legal, 2);
    assert a == SettlementAddedAfter(settlements, scores, settlements', scores', loc, color, playerNum, legal, 1) == SettlementAddedAfter(settlements, scores, settlements', scores', loc, color, playerNum, legal, 0);
  }

  /** The board's side of `placeSettlement`'s building step: `addSettlement`, then a second point for the player. */
  method AddSettlementScored(b: Board, loc: Point, color: string, playerNum: int)
    requires b.Valid() && 1 <= playerNum <= b.numPlayers
    modifies b`settlements, b`playerScores
    ensures b.Valid()
    ensures SettlementAdded(old(b.settlements), old(b.playerScores), b.settlements, b.playerScores,
                            loc, color, playerNum, old(b.Legal(loc)))
  {
    ghost var settlements, scores, legal := b.settlements, b.playerScores, b.Legal(loc);
    b.AddSettlement(loc, color, playerNum, false);
    b.ScorePoint(playerNum);
    ghost var ok := legal && |settlements[playerNum - 1]| < MaxSettlements;
    assert b.playerScores == scores[playerNum - 1 := scores[playerNum - 1] + (if ok then 2 else 1)];
    SettlementAddedOf(settlements, scores, b.settlements, b.playerScores, loc, color, playerNum, legal);
  }

  /**
   * The player's side of `placeSettlement`'s building step: pay one each of
   * wheat, sheep, brick and wood, take on the power of a port at `loc` (no
   * port, `""`, changes nothing), and count the pips around `loc`.
   */
  method PayPortAndCount(p: Player, loc: Point)
    requires p.Valid() && Affordable(p.resources, SettlementCost)
    modifies p`resources, p`tradeRates, p`resourcePoints
    ensures p.Valid()
    ensures p.resources == Pay(old(p.resources), SettlementCost)
    ensures p.tradeRates == old(PortPower(p.tradeRates, p.currentBoard.PortTypeAt(loc)))
    ensures p.resourcePoints == old(Counted(p.currentBoard, p.resourcePoints, loc))
  {
    p.resources := PaySettlement(p.resources);
    var newPortType := p.currentBoard.GetPortType(loc);
    if newPortType != "" {
      p.GainPortPower(newPortType);
    }
    p.UpdateResourcePoints(loc);
  }

  /**
   * The building step of `placeSettlement` at `loc`: pay, add the settlement
   * and score it (`AddSettlementScored`), take on the port's power, count the
   * pips and raise the player's own score by one.  `placeSettlement` updates the
   * board before the port and the pips; those read only the ports and the
   * tiles, so the order changes nothing.
   */
  method BuildSettlement(p: Player, loc: Point)
    requires p.Valid() && Affordable(p.resources, SettlementCost)
    modifies p`resources, p`tradeRates, p`resourcePoints, p`score
    modifies p.currentBoard`settlements, p.currentBoard`playerScores
    ensures p.Valid()
    ensures p.resources == Pay(old(p.resources), SettlementCost)
    ensures p.tradeRates == old(PortPower(p.tradeRates, p.currentBoard.PortTypeAt(loc)))
    ensures p.score == old(p.score) + 1
    ensures p.resourcePoints == old(Counted(p.currentBoard, p.resourcePoints, loc))
    ensures var b := p.currentBoard;
      SettlementAdded(old(b.settlements), old(b.playerScores), b.settlements, b.playerScores,
                      loc, p.color, p.playerNum, old(b.Legal(loc)))
  {
    PayPortAndCount(p, loc);
    AddSettlementScored(p.currentBoard, loc, p.color, p.playerNum);
    p.score := p.score + 1;
  }

  /**
   * The trading half of `placeSettlement`, once a location is offered and the
   * player has fewer than five settlements.  Trading touches only the hand,
   * so the value, the pip count, the port and the legality of every offered
   * location are what they were.
   */
  method TradeForSettlement(p: Player, settlementPoints: seq<Point>) returns (plan: seq<int>)
    requires p.Valid() && |settlementPoints| > 0 && |p.currentBoard.settlements[p.playerNum - 1]| < MaxSettlements
    modifies p`resources
    ensures p.Valid()
    ensures plan == GreedyPlan(old(p.resources), p.tradeRates, SettlementCost)
    ensures plan != [] ==> Feasible(old(p.resources), p.tradeRates, SettlementCost, plan)
                           && Affordable(Simulate(old(p.resources), p.tradeRates, SettlementCost, plan), SettlementCost)
    ensures Affordable(old(p.resources), SettlementCost) ==> plan == []
    ensures p.resources == Simulate(old(p.resources), p.tradeRates, SettlementCost, plan)
    ensures Values(p.currentBoard, p.resourcePoints, p.tradeRates, settlementPoints)
            == old(Values(p.currentBoard, p.resourcePoints, p.tradeRates, settlementPoints))
    ensures forall j :: 0 <= j < |settlementPoints| ==>
      && Counted(p.currentBoard, p.resourcePoints, settlementPoints[j]) == old(Counted(p.currentBoard, p.resourcePoints, settlementPoints[j]))
      && p.currentBoard.PortTypeAt(settlementPoints[j]) == old(p.currentBoard.PortTypeAt(settlementPoints[j]))
      && p.currentBoard.Legal(settlementPoints[j]) == old(p.currentBoard.Legal(settlementPoints[j]))
  {
    plan := SettlementPortResources(p, settlementPoints);
    CostsAreCosts();
    TradeFor(p, SettlementCost, plan);
  }

  /**
   * The building half of `placeSettlement`, once the player can pay: score
   * every offered location and build at the chosen one.
   */
  method SettlementAtBest(p: Player, settlementPoints: seq<Point>, src: Source) returns (settlementIndex: int, src': Source)
    requires p.Valid() && |settlementPoints| > 0 && Affordable(p.resources, SettlementCost)
    modifies p`resources, p`tradeRates, p`resourcePoints, p`score, p`tempTradeRates
    modifies p.currentBoard`settlements, p.currentBoard`playerScores
    ensures p.Valid()
    ensures settlementIndex == Pick(old(Values(p.currentBoard, p.resourcePoints, p.tradeRates, settlementPoints)), src, |settlementPoints|).0
    ensures 0 <= settlementIndex < |settlementPoints|
    ensures p.resources == Pay(old(p.resources), SettlementCost)
    ensures p.tradeRates == old(PortPower(p.tradeRates, p.currentBoard.PortTypeAt(settlementPoints[settlementIndex])))
    ensures p.score == old(p.score) + 1
    ensures p.resourcePoints == old(Counted(p.currentBoard, p.resourcePoints, settlementPoints[settlementIndex]))
    ensures src' == Source(src.draws, src.used + |settlementPoints|)
    ensures p.tempTradeRates == [4, 4, 4, 4, 4]
    ensures var b := p.currentBoard;
      SettlementAdded(old(b.settlements), old(b.playerScores), b.settlements, b.playerScores,
                      settlementPoints[settlementIndex], p.color, p.playerNum, old(b.Legal(settlementPoints[settlementIndex])))
  {
    settlementIndex, src' := ChooseBuildLocation(p, settlementPoints, src);
    BuildSettlement(p, settlementPoints[settlementIndex]);
  }

  /**
   * `placeSettlement` where a location is offered and the player has fewer
   * than five settlements: nothing happens (-1) when even the planned trades
   * cannot make a settlement affordable; otherwise the trades are made, every
   * offered location is scored and the settlement is built at the chosen one.
   */
  method PlaceSettlementOffered(p: Player, settlementPoints: seq<Point>, src: Source)
    returns (settlementIndex: int, src': Source, ghost plan: seq<int>)
    requires p.Valid() && |settlementPoints| > 0 && |p.currentBoard.settlements[p.playerNum - 1]| < MaxSettlements
    modifies p`resources, p`tradeRates, p`resourcePoints, p`score, p`tempTradeRates
    modifies p.currentBoard`settlements, p.currentBoard`playerScores
    ensures p.Valid()
    ensures -1 <= settlementIndex < |settlementPoints|
    ensures plan == GreedyPlan(old(p.resources), old(p.tradeRates), SettlementCost)
    ensures plan != [] ==> Feasible(old(p.resources), old(p.tradeRates), SettlementCost, plan)
                           && Affordable(Simulate(old(p.resources), old(p.tradeRates), SettlementCost, plan), SettlementCost)
    ensures settlementIndex == -1 <==> plan == [] && !Affordable(old(p.resources), SettlementCost)
    ensures settlementIndex != -1 ==>
      settlementIndex == Pick(old(Values(p.currentBoard, p.resourcePoints, p.tradeRates, settlementPoints)), src, |settlementPoints|).0
    ensures settlementIndex == -1 ==>
      && unchanged(p`resources, p`tradeRates, p`resourcePoints, p`score, p`tempTradeRates)
      && unchanged(p.currentBoard`settlements, p.currentBoard`playerScores)
      && src' == src
    ensures settlementIndex != -1 ==>
      && p.resources == Pay(Simulate(old(p.resources), old(p.tradeRates), SettlementCost, plan), SettlementCost)
      && PositiveTotal(p.resources) < old(PositiveTotal(p.resources))
      && (Hand(old(p.resources)) ==> Hand(p.resources))
      && p.tradeRates == old(PortPower(p.tradeRates, p.currentBoard.PortTypeAt(settlementPoints[settlementIndex])))
      && p.score == old(p.score) + 1
      && p.resourcePoints == old(Counted(p.currentBoard, p.resourcePoints, settlementPoints[settlementIndex]))
      && src' == Source(src.draws, src.used + |settlementPoints|)
      && p.tempTradeRates == [4, 4, 4, 4, 4]
    ensures settlementIndex != -1 ==> var b := p.currentBoard;
      SettlementAdded(old(b.settlements), old(b.playerScores), b.settlements, b.playerScores,
                      settlementPoints[settlementIndex], p.color, p.playerNum, old(b.Legal(settlementPoints[settlementIndex])))
  {
    CostsAreCosts();
    ghost var start, rates := p.resources, p.tradeRates;
    var resourcesToTrade := TradeForSettlement(p, settlementPoints);
    plan := resourcesToTrade;
    SettlementTest(p.resources);
    if p.resources[1] > 0 && p.resources[2] > 0 && p.resources[3] > 0 && p.resources[4] > 0 {
      PaidAfterTrades(start, rates, SettlementCost, plan);
      settlementIndex, src' := SettlementAtBest(p, settlementPoints, src);
    } else {
      settlementIndex, src' := -1, src;
    }
  }

  /** `placeSettlement`, guard included: the blocked cases return -1 and change nothing. */
  method PlaceSettlement(p: Player, settlementPoints: seq<Point>, src: Source)
    returns (settlementIndex: int, src': Source, ghost plan: seq<int>)
    requires p.Valid()
    modifies p`resources, p`tradeRates, p`resourcePoints, p`score, p`tempTradeRates
    modifies p.currentBoard`settlements, p.currentBoard`playerScores
    ensures p.Valid()
    ensures -1 <= settlementIndex < |settlementPoints|
    ensures plan == if old(|settlementPoints| == 0 || |p.currentBoard.settlements[p.playerNum - 1]| >= MaxSettlements) then []
                    else GreedyPlan(old(p.resources), old(p.tradeRates), SettlementCost)
    ensures settlementIndex != -1 ==>
      settlementIndex == Pick(old(Values(p.currentBoard, p.resourcePoints, p.tradeRates, settlementPoints)), src, |settlementPoints|).0
    ensures plan != [] ==> Feasible(old(p.resources), old(p.tradeRates), SettlementCost, plan)
                           && Affordable(Simulate(old(p.resources), old(p.tradeRates), SettlementCost, plan), SettlementCost)
    ensures settlementIndex == -1 <==>
      old(|settlementPoints| == 0 || |p.currentBoard.settlements[p.playerNum - 1]| >= MaxSettlements)
      || (plan == [] && !Affordable(old(p.resources), SettlementCost))
    ensures settlementIndex == -1 ==>
      && unchanged(p`resources, p`tradeRates, p`resourcePoints, p`score, p`tempTradeRates)
      && unchanged(p.currentBoard`settlements, p.currentBoard`playerScores)
      && src' == src
    ensures settlementIndex != -1 ==>
      && p.resources == Pay(Simulate(old(p.resources), old(p.tradeRates), SettlementCost, plan), SettlementCost)
      && PositiveTotal(p.resources) < old(PositiveTotal(p.resources))
      && (Hand(old(p.resources)) ==> Hand(p.resources))
      && p.tradeRates == old(PortPower(p.tradeRates, p.currentBoard.PortTypeAt(settlementPoints[settlementIndex])))
      && p.score == old(p.score) + 1
      && p.resourcePoints == old(Counted(p.currentBoard, p.resourcePoints, settlementPoints[settlementIndex]))
      && src' == Source(src.draws, src.used + |settlementPoints|)
      && p.tempTradeRates == [4, 4, 4, 4, 4]
    ensures settlementIndex != -1 ==> var b := p.currentBoard;
      SettlementAdded(old(b.settlements), old(b.playerScores), b.settlements, b.playerScores,
                      settlementPoints[settlementIndex], p.color, p.playerNum, old(b.Legal(settlementPoints[settlementIndex])))
  {
    if |settlementPoints| == 0 || |p.currentBoard.settlements[p.playerNum - 1]| >= 5 {
      return -1, src, [];
    }
    settlementIndex, src', plan := PlaceSettlementOffered(p, settlementPoints, src);
  }

  // ---------------------------------------------------------------------
  // Roads
  // ---------------------------------------------------------------------

  /** `RandComp.placeRoad`'s test for a road: at least one brick and one wood. */
  lemma RoadTest(hand: seq<int>)
    requires |hand| == Kinds
    ensures Affordable(hand, RoadCost) <==> hand[3] > 0 && hand[4] > 0
  {
    if hand[3] > 0 && hand[4] > 0 {
      assert forall k :: 0 <= k < Kinds && RoadCost[k] > 0 ==> k == 3 || k == 4;
    }
  }

  /** `resources[3] -= 1; resources[4] -= 1`: paying for a road. */
  function PayRoad(hand: seq<int>): (h: seq<int>)
    requires |hand| == Kinds
    ensures h == Pay(hand, RoadCost)
  {
    hand[3 := hand[3] - 1][4 := hand[4] - 1]
  }

  /**
   * The road lists after `addRoad(e.p1, e.p2)`: the road is appended when no
   * road joins the two points yet (`free`) and the player has fewer than
   * fifteen roads; nothing checks that it touches the player's network.
   */
  ghost predicate RoadAdded(roads: seq<seq<Road>>, roads': seq<seq<Road>>, e: DoublePoint, color: string, playerNum: int, free: bool)
  {
    && 1 <= playerNum <= |roads|
    && var ok := free && |roads[playerNum - 1]| < MaxRoads;
       roads' == if ok then roads[playerNum - 1 := roads[playerNum - 1] + [Road(e.p1, e.p2, color, playerNum)]] else roads
  }

  /**
   * The building step of `placeRoad`: pay one brick and one wood, draw the
   * road among the offered ones with `randrange`, and add it.
   */
  method BuildRoad(p: Player, roadPoints: seq<DoublePoint>, src: Source) returns (roadIndex: int, src': Source)
    requires p.Valid() && |roadPoints| > 0 && Affordable(p.resources, RoadCost)
    modifies p`resources, p.currentBoard`roads
    ensures p.Valid()
    ensures (roadIndex, src') == Below(src, |roadPoints|)
    ensures 0 <= roadIndex < |roadPoints|
    ensures p.resources == Pay(old(p.resources), RoadCost)
    ensures var b, e := p.currentBoard, roadPoints[roadIndex];
      RoadAdded(old(b.roads), b.roads, e, p.color, p.playerNum, old(b.NoRoadBetween(e.p1, e.p2)))
  {
    p.resources := PayRoad(p.resources);
    var drawn := Below(src, |roadPoints|);
    roadIndex, src' := drawn.0, drawn.1;
    p.currentBoard.AddRoad(roadPoints[roadIndex].p1, roadPoints[roadIndex].p2, p.color, p.playerNum, false);
  }

  /** The trading half of `placeRoad`, once a road is offered and the player has fewer than fifteen. */
  method TradeForRoad(p: Player, roadPoints: seq<DoublePoint>) returns (plan: seq<int>)
    requires p.Valid() && |roadPoints| > 0 && |p.currentBoard.roads[p.playerNum - 1]| < MaxRoads
    modifies p`resources
    ensures p.Valid()
    ensures plan == GreedyPlan(old(p.resources), p.tradeRates, RoadCost)
    ensures plan != [] ==> Feasible(old(p.resources), p.tradeRates, RoadCost, plan)
                           && Affordable(Simulate(old(p.resources), p.tradeRates, RoadCost, plan), RoadCost)
    ensures Affordable(old(p.resources), RoadCost) ==> plan == []
    ensures p.resources == Simulate(old(p.resources), p.tradeRates, RoadCost, plan)
  {
    plan := RoadPortResources(p, roadPoints);
    CostsAreCosts();
    TradeFor(p, RoadCost, plan);
  }

  /**
   * `placeRoad`: nothing happens (-1) when no road is offered, the player
   * already has fifteen roads, or even the planned trades cannot make a road
   * affordable; otherwise the trades are made and one offered road, drawn
   * with `randrange`, is built.
   */
  method PlaceRoad(p: Player, roadPoints: seq<DoublePoint>, src: Source) returns (roadIndex: int, src': Source, ghost plan: seq<int>)
    requires p.Valid()
    modifies p`resources, p.currentBoard`roads
    ensures p.Valid()
    ensures -1 <= roadIndex < |roadPoints|
    ensures plan == if old(|roadPoints| == 0 || |p.currentBoard.roads[p.playerNum - 1]| >= MaxRoads) then []
                    else GreedyPlan(old(p.resources), p.tradeRates, RoadCost)
    ensures plan != [] ==> Feasible(old(p.resources), p.tradeRates, RoadCost, plan)
                           && Affordable(Simulate(old(p.resources), p.tradeRates, RoadCost, plan), RoadCost)
    ensures roadIndex == -1 <==>
      old(|roadPoints| == 0 || |p.currentBoard.roads[p.playerNum - 1]| >= MaxRoads)
      || (plan == [] && !Affordable(old(p.resources), RoadCost))
    ensures roadIndex == -1 ==> unchanged(p`resources, p.currentBoard`roads) && src' == src
    ensures roadIndex != -1 ==>
      && p.resources == Pay(Simulate(old(p.resources), p.tradeRates, RoadCost, plan), RoadCost)
      && PositiveTotal(p.resources) < old(PositiveTotal(p.resources))
      && (Hand(old(p.resources)) ==> Hand(p.resources))
      && (roadIndex, src') == Below(src, |roadPoints|)
    ensures roadIndex != -1 ==> var b, e := p.currentBoard, roadPoints[roadIndex];
      RoadAdded(old(b.roads), b.roads, e, p.color, p.playerNum, old(b.NoRoadBetween(e.p1, e.p2)))
  {
    if |roadPoints| == 0 || |p.currentBoard.roads[p.playerNum - 1]| >= 15 {
      return -1, src, [];
    }
    CostsAreCosts();
    ghost var start := p.resources;
    var resourcesToTrade := TradeForRoad(p, roadPoints);
    plan := resourcesToTrade;
    RoadTest(p.resources);
    if p.resources[3] > 0 && p.resources[4] > 0 {
      PaidAfterTrades(start, p.tradeRates, RoadCost, plan);
      roadIndex, src' := BuildRoad(p, roadPoints, src);
    } else {
      roadIndex, src' := -1, src;
    }
  }

  // ---------------------------------------------------------------------
  // A turn (takeTurn)
  // ---------------------------------------------------------------------

  /** Adding a city changes only the player's own entries of the board lists. */
  lemma CityAddedOwn(settlements: seq<seq<Building>>, cities: seq<seq<Building>>, scores: seq<int>,
                     settlements': seq<seq<Building>>, cities': seq<seq<Building>>, scores': seq<int>,
                     loc: Point, color: string, playerNum: int)
    requires CityAdded(settlements, cities, scores, settlements', cities', scores', loc, color, playerNum)
    ensures OnlyOwn(settlements, settlements', playerNum) && OnlyOwn(cities, cities', playerNum) && OnlyOwn(scores, scores', playerNum)
  {
    CityAddedDefinition(settlements, cities, scores, settlements', cities', scores', loc, color, playerNum);
    OnlyOwnDefinition(settlements, settlements', playerNum);
    OnlyOwnDefinition(cities, cities', playerNum);
    OnlyOwnDefinition(scores, scores', playerNum);
  }

  /** Adding a settlement changes only the player's own entries of the board lists. */
  lemma SettlementAddedOwn(settlements: seq<seq<Building>>, scores: seq<int>, settlements': seq<seq<Building>>, scores': seq<int>,
                           loc: Point, color: string, playerNum: int, legal: bool)
    requires SettlementAdded(settlements, scores, settlements', scores', loc, color, playerNum, legal)
    ensures OnlyOwn(settlements, settlements', playerNum) && OnlyOwn(scores, scores', playerNum)
  {
    SettlementAddedDefinition(settlements, scores, settlements', scores', loc, color, playerNum, legal);
    OnlyOwnDefinition(settlements, settlements', playerNum);
    OnlyOwnDefinition(scores, scores', playerNum);
  }

  /** Adding a road changes only the player's own list of roads. */
  lemma RoadAddedOwn(roads: seq<seq<Road>>, roads': seq<seq<Road>>, e: DoublePoint, color: string, playerNum: int, free: bool)
    requires RoadAdded(roads, roads', e, color, playerNum, free)
    ensures OnlyOwn(roads, roads', playerNum)
  {
    OnlyOwnDefinition(roads, roads', playerNum);
  }

  /**
   * One pass of the city loop of `takeTurn`: the offered locations, then
   * `placeCity`; on failure nothing changed and a city is unaffordable
   * without trading or has nowhere to go, on success a point was scored and
   * the hand shrank.
   */
  method CityAttempt(p: Player, src: Source) returns (failed: bool, src': Source)
    requires p.Valid()
    modifies p`resources, p`resourcePoints, p`score, p`tempTradeRates
    modifies p.currentBoard`settlements, p.currentBoard`cities, p.currentBoard`playerScores
    ensures p.Valid()
    ensures failed ==> p.resources == old(p.resources) && p.score == old(p.score)
    ensures failed ==> var b, pn := p.currentBoard, p.playerNum;
      Affordable(p.resources, CityCost) ==> |b.settlements[pn - 1]| == 0 || |b.cities[pn - 1]| >= MaxCities
    ensures !failed ==> p.score == old(p.score) + 1 && PositiveTotal(p.resources) < old(PositiveTotal(p.resources))
    ensures !failed ==> Hand(old(p.resources)) ==> Hand(p.resources)
    ensures var b, pn := p.currentBoard, p.playerNum;
      OnlyOwn(old(b.settlements), b.settlements, pn) && OnlyOwn(old(b.cities), b.cities, pn) && OnlyOwn(old(b.playerScores), b.playerScores, pn)
  {
    var cityPoints := p.currentBoard.GetPossibleCityLocations(p.playerNum);
    var cityIndex;
    ghost var plan;
    cityIndex, src', plan := PlaceCity(p, cityPoints, src);
    failed := cityIndex == -1;
  }

  /**
   * The first loop of `takeTurn`: cities until `placeCity` fails, asking the
   * board for the player's settlement locations before every attempt.  Each
   * city lowers the positive total of the hand, which is why the loop ends,
   * and adds a point; when it ends, a city is unaffordable without trading,
   * or the player has no settlement left to upgrade, or has four cities.
   */
  method CitiesUntilFail(p: Player, src: Source) returns (src': Source, ghost built: nat)
    requires p.Valid()
    modifies p`resources, p`resourcePoints, p`score, p`tempTradeRates
    modifies p.currentBoard`settlements, p.currentBoard`cities, p.currentBoard`playerScores
    ensures p.Valid()
    ensures p.score == old(p.score) + built
    ensures PositiveTotal(p.resources) <= old(PositiveTotal(p.resources)) - built
    ensures Hand(old(p.resources)) ==> Hand(p.resources)
    ensures var b, pn := p.currentBoard, p.playerNum;
      Affordable(p.resources, CityCost) ==> |b.settlements[pn - 1]| == 0 || |b.cities[pn - 1]| >= MaxCities
    ensures var b, pn := p.currentBoard, p.playerNum;
      OnlyOwn(old(b.settlements), b.settlements, pn) && OnlyOwn(old(b.cities), b.cities, pn) && OnlyOwn(old(b.playerScores), b.playerScores, pn)
  {
    OnlyOwnSame(p.currentBoard.settlements, p.playerNum);
    OnlyOwnSame(p.currentBoard.cities, p.playerNum);
    OnlyOwnSame(p.currentBoard.playerScores, p.playerNum);
    built := 0;
    src' := src;
    while true
      invariant p.Valid()
      invariant p.score == old(p.score) + built
      invariant PositiveTotal(p.resources) <= old(PositiveTotal(p.resources)) - built
      invariant Hand(old(p.resources)) ==> Hand(p.resources)
      invariant var b, pn := p.currentBoard, p.playerNum;
        OnlyOwn(old(b.settlements), b.settlements, pn) && OnlyOwn(old(b.cities), b.cities, pn) && OnlyOwn(old(b.playerScores), b.playerScores, pn)
      decreases PositiveTotal(p.resources)
    {
      var failed;
      ghost var beforeSettlements, beforeCities, beforePlayerScores := p.currentBoard.settlements, p.currentBoard.cities, p.currentBoard.playerScores;
      failed, src' := CityAttempt(p, src');
      OnlyOwnTrans(old(p.currentBoard.settlements), beforeSettlements, p.currentBoard.settlements, p.playerNum);
      OnlyOwnTrans(old(p.currentBoard.cities), beforeCities, p.currentBoard.cities, p.playerNum);
      OnlyOwnTrans(old(p.currentBoard.playerScores), beforePlayerScores, p.currentBoard.playerScores, p.playerNum);
      if failed {
        break;
      }
      built := built + 1;
    }
  }

  /**
   * One pass of the settlement loop of `takeTurn`: the offered locations,
   * then `placeSettlement`.
   */
  method SettlementAttempt(p: Player, src: Source) returns (failed: bool, src': Source)
    requires p.Valid()
    modifies p`resources, p`tradeRates, p`resourcePoints, p`score, p`tempTradeRates
    modifies p.currentBoard`settlements, p.currentBoard`playerScores
    ensures p.Valid()
    ensures failed ==> p.resources == old(p.resources) && p.score == old(p.score)
    ensures failed ==> var b, pn := p.currentBoard, p.playerNum;
      Affordable(p.resources, SettlementCost) ==> |b.PossibleSettlements(pn)| == 0 || |b.settlements[pn - 1]| >= MaxSettlements
    ensures !failed ==> p.score == old(p.score) + 1 && PositiveTotal(p.resources) < old(PositiveTotal(p.resources))
    ensures !failed ==> Hand(old(p.resources)) ==> Hand(p.resources)
    ensures var b, pn := p.currentBoard, p.playerNum;
      OnlyOwn(old(b.settlements), b.settlements, pn) && OnlyOwn(old(b.playerScores), b.playerScores, pn)
  {
    var settlementPoints := p.currentBoard.GetPossibleSettlementLocations(p.playerNum);
    var settlementIndex;
    ghost var plan;
    ghost var settlements, scores := p.currentBoard.settlements, p.currentBoard.playerScores;
    settlementIndex, src', plan := PlaceSettlement(p, settlementPoints, src);
    failed := settlementIndex == -1;
    var b := p.currentBoard;
    if failed {
      OnlyOwnSame(settlements, p.playerNum);
      OnlyOwnSame(scores, p.playerNum);
    } else {
      SettlementAddedOwn(settlements, scores, b.settlements, b.playerScores, settlementPoints[settlementIndex], p.color, p.playerNum,
                         old(b.Legal(settlementPoints[settlementIndex])));
    }
  }

  /**
   * The second loop of `takeTurn`: settlements until `placeSettlement` fails;
   * when it ends, a settlement is unaffordable without trading, or no legal
   * location is offered, or the player has five settlements.
   */
  method SettlementsUntilFail(p: Player, src: Source) returns (src': Source, ghost built: nat)
    requires p.Valid()
    modifies p`resources, p`tradeRates, p`resourcePoints, p`score, p`tempTradeRates
    modifies p.currentBoard`settlements, p.currentBoard`playerScores
    ensures p.Valid()
    ensures p.score == old(p.score) + built
    ensures PositiveTotal(p.resources) <= old(PositiveTotal(p.resources)) - built
    ensures Hand(old(p.resources)) ==> Hand(p.resources)
    ensures var b, pn := p.currentBoard, p.playerNum;
      Affordable(p.resources, SettlementCost) ==> |b.PossibleSettlements(pn)| == 0 || |b.settlements[pn - 1]| >= MaxSettlements
    ensures var b, pn := p.currentBoard, p.playerNum;
      OnlyOwn(old(b.settlements), b.settlements, pn) && OnlyOwn(old(b.playerScores), b.playerScores, pn)
  {
    OnlyOwnSame(p.currentBoard.settlements, p.playerNum);
    OnlyOwnSame(p.currentBoard.playerScores, p.playerNum);
    built := 0;
    src' := src;
    while true
      invariant p.Valid()
      invariant p.score == old(p.score) + built
      invariant PositiveTotal(p.resources) <= old(PositiveTotal(p.resources)) - built
      invariant Hand(old(p.resources)) ==> Hand(p.resources)
      invariant var b, pn := p.currentBoard, p.playerNum;
        OnlyOwn(old(b.settlements), b.settlements, pn) && OnlyOwn(old(b.playerScores), b.playerScores, pn)
      decreases PositiveTotal(p.resources)
    {
      var failed;
      ghost var beforeSettlements, beforePlayerScores := p.currentBoard.settlements, p.currentBoard.playerScores;
      failed, src' := SettlementAttempt(p, src');
      OnlyOwnTrans(old(p.currentBoard.settlements), beforeSettlements, p.currentBoard.settlements, p.playerNum);
      OnlyOwnTrans(old(p.currentBoard.playerScores), beforePlayerScores, p.currentBoard.playerScores, p.playerNum);
      if failed {
        break;
      }
      built := built + 1;
    }
  }

  /** One pass of the road loop of `takeTurn`: the offered edges, then `placeRoad`. */
  method RoadAttempt(p: Player, src: Source) returns (failed: bool, src': Source)
    requires p.Valid()
    modifies p`resources, p.currentBoard`roads
    ensures p.Valid()
    ensures failed ==> p.resources == old(p.resources)
    ensures failed ==> var b, pn := p.currentBoard, p.playerNum;
      Affordable(p.resources, RoadCost) ==> |b.PossibleRoads(pn)| == 0 || |b.roads[pn - 1]| >= MaxRoads
    ensures !failed ==> PositiveTotal(p.resources) < old(PositiveTotal(p.resources))
    ensures !failed ==> Hand(old(p.resources)) ==> Hand(p.resources)
    ensures var b, pn := p.currentBoard, p.playerNum; OnlyOwn(old(b.roads), b.roads, pn)
  {
    var roadPoints := p.currentBoard.GetPossibleRoadLocations(p.playerNum);
    var roadIndex;
    ghost var plan;
    ghost var roads := p.currentBoard.roads;
    roadIndex, src', plan := PlaceRoad(p, roadPoints, src);
    failed := roadIndex == -1;
    var b := p.currentBoard;
    if failed {
      OnlyOwnSame(roads, p.playerNum);
    } else {
      var e := roadPoints[roadIndex];
      RoadAddedOwn(roads, b.roads, e, p.color, p.playerNum, old(b.NoRoadBetween(e.p1, e.p2)));
    }
  }

  /**
   * The third loop of `takeTurn`: roads until `placeRoad` fails; when it ends,
   * a road is unaffordable without trading, or none is offered, or the player
   * has fifteen.
   */
  method RoadsUntilFail(p: Player, src: Source) returns (src': Source, ghost built: nat)
    requires p.Valid()
    modifies p`resources, p.currentBoard`roads
    ensures p.Valid()
    ensures PositiveTotal(p.resources) <= old(PositiveTotal(p.resources)) - built
    ensures Hand(old(p.resources)) ==> Hand(p.resources)
    ensures var b, pn := p.currentBoard, p.playerNum;
      Affordable(p.resources, RoadCost) ==> |b.PossibleRoads(pn)| == 0 || |b.roads[pn - 1]| >= MaxRoads
    ensures var b, pn := p.currentBoard, p.playerNum; OnlyOwn(old(b.roads), b.roads, pn)
  {
    OnlyOwnSame(p.currentBoard.roads, p.playerNum);
    built := 0;
    src' := src;
    while true
      invariant p.Valid()
      invariant PositiveTotal(p.resources) <= old(PositiveTotal(p.resources)) - built
      invariant Hand(old(p.resources)) ==> Hand(p.resources)
      invariant var b, pn := p.currentBoard, p.playerNum; OnlyOwn(old(b.roads), b.roads, pn)
      decreases PositiveTotal(p.resources)
    {
      var failed;
      ghost var beforeRoads := p.currentBoard.roads;
      failed, src' := RoadAttempt(p, src');
      OnlyOwnTrans(old(p.currentBoard.roads), beforeRoads, p.currentBoard.roads, p.playerNum);
      if failed {
        break;
      }
      built := built + 1;
    }
  }

  /**
   * `takeTurn`: the player adopts the board, then builds cities, settlements
   * and roads, each until an attempt fails (`takeTurn`'s removal of the used
   * location from its local list has no effect), and hands the board back.
   * Each city and settlement adds a point, every build lowers the positive
   * total of the hand, and the turn ends only when a road is unaffordable
   * without trading, none is offered, or the player has fifteen.
   */
  method TakeTurn(p: Player, currentBoard: Board, src: Source)
    returns (r: Board, src': Source, ghost built: nat, ghost roadsBuilt: nat)
    requires p.Valid() && currentBoard.Valid() && currentBoard.numPlayers == p.numPlayers
    modifies p`currentBoard, p`resources, p`tradeRates, p`resourcePoints, p`score, p`tempTradeRates
    modifies currentBoard`settlements, currentBoard`cities, currentBoard`playerScores, currentBoard`roads
    ensures r == currentBoard && p.currentBoard == currentBoard && p.Valid()
    ensures p.score == old(p.score) + built
    ensures PositiveTotal(p.resources) <= old(PositiveTotal(p.resources)) - built - roadsBuilt
    ensures Hand(old(p.resources)) ==> Hand(p.resources)
    ensures var pn := p.playerNum;
      Affordable(p.resources, RoadCost) ==> |currentBoard.PossibleRoads(pn)| == 0 || |currentBoard.roads[pn - 1]| >= MaxRoads
    ensures var pn := p.playerNum;
      && OnlyOwn(old(currentBoard.settlements), currentBoard.settlements, pn)
      && OnlyOwn(old(currentBoard.cities), currentBoard.cities, pn)
      && OnlyOwn(old(currentBoard.playerScores), currentBoard.playerScores, pn)
      && OnlyOwn(old(currentBoard.roads), currentBoard.roads, pn)
  {
    p.currentBoard := currentBoard;
    ghost var cities, settlements;
    ghost var pn := p.playerNum;
    OnlyOwnSame(currentBoard.roads, pn);
    src', cities := CitiesUntilFail(p, src);
    ghost var afterCities, afterScores := currentBoard.settlements, currentBoard.playerScores;
    src', settlements := SettlementsUntilFail(p, src');
    OnlyOwnTrans(old(currentBoard.settlements), afterCities, currentBoard.settlements, pn);
    OnlyOwnTrans(old(currentBoard.playerScores), afterScores, currentBoard.playerScores, pn);
    src', roadsBuilt := RoadsUntilFail(p, src');
    built := cities + settlements;
    r := currentBoard;
  }
}
