/**
 * A player of the game (catan/Player.py): a hand of five resource counters,
 * the trade rates its ports give it, the pip "dots" it collects on each
 * resource, its score, and a reference to the board it currently plays on.
 */
module Players {
  import opened Geometry
  import opened Tiles
  import opened Resources
  import opened Random
  import opened Boards

  /** Python's reading of a negative list index: -1 is the last of the five counters. */
  function PyIndex(i: int): (k: int)
    requires -Kinds <= i < Kinds
    ensures 0 <= k < Kinds
    ensures 0 <= i ==> k == i
  {
    if i < 0 then Kinds + i else i
  }

  /**
   * The counters after `updateResourcePoints` adds each tile's pip value to
   * the counter of its resource; the desert has no resource index, so it
   * lands on the last counter (and adds its value, 0, there).
   */
  function WithPoints(rp: seq<int>, hs: seq<Hexagon>): (r: seq<int>)
    reads hs
    requires |rp| == Kinds
    ensures |r| == Kinds
    decreases |hs|
  {
    if |hs| == 0 then rp
    else
      var prev := WithPoints(rp, hs[..|hs| - 1]);
      var h := hs[|hs| - 1];
      var k := PyIndex(ResourceIndex(h.hexType));
      prev[k := prev[k] + h.value]
  }

  /**
   * The counters after `updateResourcePoints` at `location` on `board`, reached
   * only after `delay` unfoldings, so that proofs which carry the count from
   * one state to another compare it as a whole; `CountedDefinition` opens it.
   */
  function CountedAfter(board: Board, rp: seq<int>, location: Point, delay: nat): seq<int>
    reads board`tiles, board`robberLocation, board.tiles
    requires board.TilesValid() && |rp| == Kinds
    decreases delay
  {
    if delay == 0 then
      board.AdjacentHexesUpToSound(location, 6);
      WithPoints(rp, board.AdjacentHexes(location))
    else CountedAfter(board, rp, location, delay - 1)
  }

  /** The counters after `updateResourcePoints` at `location` on `board`. */
  function Counted(board: Board, rp: seq<int>, location: Point): seq<int>
    reads board`tiles, board`robberLocation, board.tiles
    requires board.TilesValid() && |rp| == Kinds
  {
    CountedAfter(board, rp, location, 3)
  }

  lemma CountedDefinition(board: Board, rp: seq<int>, location: Point)
    requires board.TilesValid() && |rp| == Kinds
    ensures Counted(board, rp, location) == WithPoints(rp, board.AdjacentHexes(location))
  {
    board.AdjacentHexesUpToSound(location, 6);
    assert CountedAfter(board, rp, location, 3) == CountedAfter(board, rp, location, 2);
    assert CountedAfter(board, rp, location, 1) == CountedAfter(board, rp, location, 0);
  }

  /** Tiles carry non-negative pip values, so no counter ever goes down. */
  lemma {:induction false} WithPointsGrows(rp: seq<int>, hs: seq<Hexagon>)
    requires |rp| == Kinds
    requires forall i :: 0 <= i < |hs| ==> hs[i].value >= 0
    ensures forall k :: 0 <= k < Kinds ==> WithPoints(rp, hs)[k] >= rp[k]
  {
    if |hs| > 0 {
      WithPointsGrows(rp, hs[..|hs| - 1]);
    }
  }

  /** The loop of `updateResourcePoints` over the adjacent tiles, on a copy of the counters. */
  method AddPoints(rp: seq<int>, hs: seq<Hexagon>) returns (points: seq<int>)
    requires |rp| == Kinds
    ensures points == WithPoints(rp, hs)
  {
    points := rp;
    var i := 0;
    while i < |hs|
      invariant 0 <= i <= |hs|
      invariant points == WithPoints(rp, hs[..i])
    {
      assert hs[..i + 1][..i] == hs[..i];
      var k := PyIndex(ResourceIndex(hs[i].hexType));
      points := points[k := points[k] + hs[i].value];
      i := i + 1;
    }
    assert hs[..i] == hs;
  }

  /** A tile of a resource kind raises that kind's counter by its value and leaves the others alone. */
  lemma WithPointsStep(rp: seq<int>, hs: seq<Hexagon>, h: Hexagon)
    requires |rp| == Kinds && ResourceIndex(h.hexType) != -1
    ensures var before, after := WithPoints(rp, hs), WithPoints(rp, hs + [h]);
      var k := ResourceIndex(h.hexType);
      after[k] == before[k] + h.value && forall j :: 0 <= j < Kinds && j != k ==> after[j] == before[j]
  {
    assert (hs + [h])[..|hs|] == hs;
  }

  /** The rates with every bank rate (4) lowered to the general port rate (3). */
  function GeneralRates(rates: seq<int>): seq<int>
  {
    seq(|rates|, i requires 0 <= i < |rates| => if rates[i] == 4 then 3 else rates[i])
  }

  /**
   * `gainPortPower`: a general port lowers every rate of 4 to 3; a resource
   * port sets the rate of its resource to 2; any other text changes nothing.
   */
  function PortPower(rates: seq<int>, portType: string): (r: seq<int>)
    requires |rates| == Kinds
    ensures |r| == Kinds
  {
    if portType == "general" then GeneralRates(rates)
    else if ResourceIndex(portType) != -1 then rates[ResourceIndex(portType) := 2]
    else rates
  }

  /** The effect of each kind of port, rate by rate. */
  lemma PortPowerEffect(rates: seq<int>, portType: string)
    requires |rates| == Kinds
    ensures portType == "general" ==>
      forall k :: 0 <= k < Kinds ==> PortPower(rates, portType)[k] == if rates[k] == 4 then 3 else rates[k]
    ensures ResourceIndex(portType) != -1 ==>
      forall k :: 0 <= k < Kinds ==> PortPower(rates, portType)[k] == if k == ResourceIndex(portType) then 2 else rates[k]
    ensures portType != "general" && ResourceIndex(portType) == -1 ==> PortPower(rates, portType) == rates
  {
  }

  /** Ports never raise a rate, and rates stay among 2, 3 and 4. */
  lemma PortPowerLowers(rates: seq<int>, portType: string)
    requires Rates(rates)
    ensures Rates(PortPower(rates, portType))
    ensures forall k :: 0 <= k < Kinds ==> PortPower(rates, portType)[k] <= rates[k]
  {
  }

  /** Gaining the same port twice is the same as gaining it once. */
  lemma PortPowerIdempotent(rates: seq<int>, portType: string)
    requires Rates(rates)
    ensures PortPower(PortPower(rates, portType), portType) == PortPower(rates, portType)
  {
  }

  /** The order in which two ports are gained does not matter. */
  lemma PortPowerCommutes(rates: seq<int>, a: string, b: string)
    requires Rates(rates)
    ensures PortPower(PortPower(rates, a), b) == PortPower(PortPower(rates, b), a)
  {
    var ab, ba := PortPower(PortPower(rates, a), b), PortPower(PortPower(rates, b), a);
    forall k | 0 <= k < Kinds
      ensures ab[k] == ba[k]
    {
      PortPowerEffect(rates, a);
      PortPowerEffect(rates, b);
      PortPowerEffect(PortPower(rates, a), b);
      PortPowerEffect(PortPower(rates, b), a);
    }
  }

  /** The rate update of `gainPortPower` and `tempGainPortPower`, with the loop of the general case. */
  method ApplyPortPower(rates: seq<int>, portType: string) returns (r: seq<int>)
    requires |rates| == Kinds
    ensures r == PortPower(rates, portType)
  {
    r := rates;
    if portType == "general" {
      var i := 0;
      while i < |r|
        invariant 0 <= i <= |r| == |rates|
        invariant forall k :: 0 <= k < i ==> r[k] == if rates[k] == 4 then 3 else rates[k]
        invariant forall k :: i <= k < |r| ==> r[k] == rates[k]
      {
        if r[i] == 4 {
          r := r[i := 3];
        }
        i := i + 1;
      }
    } else if portType == "ore" {
      r := r[0 := 2];
    } else if portType == "wheat" {
      r := r[1 := 2];
    } else if portType == "sheep" {
      r := r[2 := 2];
    } else if portType == "brick" {
      r := r[3 := 2];
    } else if portType == "wood" {
      r := r[4 := 2];
    }
  }

  /**
   * `getRandomResource` once `randrange(total)` has produced `draw`: the
   * first resource whose running total exceeds the draw, or -1 when none does.
   */
  function RandomResource(res: seq<int>, draw: int): (k: int)
    requires |res| == Kinds
    ensures -1 <= k < Kinds
  {
    if 0 <= draw && draw < res[0] then 0
    else if draw < res[0] + res[1] then 1
    else if draw < res[0] + res[1] + res[2] then 2
    else if draw < res[0] + res[1] + res[2] + res[3] then 3
    else if draw < Total(res) then 4
    else -1
  }

  /**
   * For a hand and a draw below its total the error branch is unreachable:
   * the chosen resource is held, and the draw falls in its slot of the
   * running totals.
   */
  lemma RandomResourcePicks(res: seq<int>, draw: int)
    requires Hand(res) && 0 <= draw < Total(res)
    ensures var k := RandomResource(res, draw);
      0 <= k < Kinds && res[k] > 0 && Total(res[..k]) <= draw < Total(res[..k + 1])
  {
    TotalOfHand(res);
    PrefixTotals(res);
  }

  /** Conversely every draw in the slot of resource `k` picks `k`: each resource is drawn with weight equal to its count. */
  lemma RandomResourceSlot(res: seq<int>, k: int, draw: int)
    requires Hand(res) && 0 <= k < Kinds
    requires Total(res[..k]) <= draw < Total(res[..k + 1])
    ensures RandomResource(res, draw) == k
  {
    TotalOfHand(res);
    PrefixTotals(res);
  }

  /** The running totals of a hand of five. */
  lemma PrefixTotals(res: seq<int>)
    requires |res| == Kinds
    ensures Total(res[..0]) == 0
    ensures Total(res[..1]) == res[0]
    ensures Total(res[..2]) == res[0] + res[1]
    ensures Total(res[..3]) == res[0] + res[1] + res[2]
    ensures Total(res[..4]) == res[0] + res[1] + res[2] + res[3]
    ensures Total(res[..5]) == Total(res)
  {
    assert res[..5][..4] == res[..4] && res[..4][..3] == res[..3] && res[..3][..2] == res[..2];
    assert res[..2][..1] == res[..1] && res[..1][..0] == [];
    assert res[..5] == res;
  }

  /** What `portResource` does as written, including the branch that raises. */
  datatype TradeOutcome = Rejected | Raised | Done(hand: seq<int>)

  /**
   * `portResource` as written: an index out of range is rejected with a
   * message; a trade the player cannot afford reaches a message that calls
   * `getResourceType()` on the integer index, which raises AttributeError;
   * otherwise the trade is made.
   */
  function PortOutcome(res: seq<int>, rates: seq<int>, give: int, get: int): TradeOutcome
    requires |res| == Kinds && |rates| == Kinds
  {
    if !(0 <= give < Kinds) || !(0 <= get < Kinds) then Rejected
    else if res[give] < rates[give] then Raised
    else Done(Traded(res, give, get, rates[give]))
  }

  /** A bank trade of ore with no ore in hand reaches the raising branch. */
  lemma PortOutcomeRaises()
    ensures PortOutcome([0, 0, 0, 0, 0], [4, 4, 4, 4, 4], 0, 1) == Raised
  {
  }

  class Player {
    const playerNum: int
    const color: string
    const playerType: string
    const numPlayers: nat
    /** The board the player reasons about; the game hands over its own board at the first placement. */
    var currentBoard: Board
    var resources: seq<int>
    var tradeRates: seq<int>
    var tempTradeRates: seq<int>
    var resourcePoints: seq<int>
    var score: int

    /** The scratch rates `tempTradeRates` are left out: weighing a location changes them and nothing else. */
    ghost predicate Valid()
      reads this`currentBoard, this`resources, this`tradeRates, this`resourcePoints, currentBoard, currentBoard.tiles
    {
      && 1 <= playerNum <= numPlayers
      && |resources| == Kinds && Rates(tradeRates)
      && |resourcePoints| == Kinds && (forall k :: 0 <= k < Kinds ==> resourcePoints[k] >= 0)
      && currentBoard.Valid() && currentBoard.numPlayers == numPlayers
    }

    /** A new player holds nothing, trades at 4:1 and has no score, on a fresh empty board of its own. */
    constructor (playerNum: int, color: string, playerType: string, numPlayers: nat, screenWidth: real, screenHeight: real)
      requires 1 <= playerNum <= numPlayers
      ensures Valid() && fresh(currentBoard)
      ensures this.playerNum == playerNum && this.color == color && this.playerType == playerType && this.numPlayers == numPlayers
      ensures resources == [0, 0, 0, 0, 0] && tradeRates == [4, 4, 4, 4, 4] && tempTradeRates == [4, 4, 4, 4, 4]
      ensures resourcePoints == [0, 0, 0, 0, 0] && score == 0
      ensures currentBoard.tiles == [] && currentBoard.numResources == seq(numPlayers, _ => 0)
    {
      this.playerNum := playerNum;
      this.color := color;
      this.playerType := playerType;
      this.numPlayers := numPlayers;
      currentBoard := new Board(numPlayers, screenWidth, screenHeight);
      resources := [0, 0, 0, 0, 0];
      tradeRates := [4, 4, 4, 4, 4];
      tempTradeRates := [4, 4, 4, 4, 4];
      resourcePoints := [0, 0, 0, 0, 0];
      score := 0;
    }

    /** `gainResource`: one more of resource `i`, counted on the board too; an index outside 0..4 changes nothing. */
    method GainResource(i: int)
      requires Valid()
      modifies this`resources, currentBoard`numResources
      ensures Valid()
      ensures 0 <= i < Kinds ==>
        && resources == old(resources)[i := old(resources[i]) + 1]
        && currentBoard.numResources == old(currentBoard.numResources)[playerNum - 1 := old(currentBoard.numResources[playerNum - 1]) + 1]
      ensures !(0 <= i < Kinds) ==> resources == old(resources) && currentBoard.numResources == old(currentBoard.numResources)
    {
      if 0 <= i <= 4 {
        resources := resources[i := resources[i] + 1];
        currentBoard.numResources := currentBoard.numResources[playerNum - 1 := currentBoard.numResources[playerNum - 1] + 1];
      }
    }

    /** `loseResource`: one less of resource `i`, counted on the board too; an index outside 0..4 changes nothing. */
    method LoseResource(i: int)
      requires Valid()
      modifies this`resources, currentBoard`numResources
      ensures Valid()
      ensures 0 <= i < Kinds ==>
        && resources == old(resources)[i := old(resources[i]) - 1]
        && currentBoard.numResources == old(currentBoard.numResources)[playerNum - 1 := old(currentBoard.numResources[playerNum - 1]) - 1]
      ensures !(0 <= i < Kinds) ==> resources == old(resources) && currentBoard.numResources == old(currentBoard.numResources)
    {
      if 0 <= i <= 4 {
        resources := resources[i := resources[i] - 1];
        currentBoard.numResources := currentBoard.numResources[playerNum - 1 := currentBoard.numResources[playerNum - 1] - 1];
      }
    }

    /** `addResource`: gain one of the named resource; any other name (the desert) changes nothing. */
    method AddResource(resourceType: string)
      requires Valid()
      modifies this`resources, currentBoard`numResources
      ensures Valid()
      ensures var i := ResourceIndex(resourceType);
        && (i != -1 ==>
          && resources == old(resources)[i := old(resources[i]) + 1]
          && currentBoard.numResources == old(currentBoard.numResources)[playerNum - 1 := old(currentBoard.numResources[playerNum - 1]) + 1])
        && (i == -1 ==> resources == old(resources) && currentBoard.numResources == old(currentBoard.numResources))
    {
      if ResourceIndex(resourceType) != -1 {
        GainResource(ResourceIndex(resourceType));
      }
    }

    /**
     * `portResource`, with the unaffordable branch leaving the hand unchanged
     * as its message intends: the hand becomes the traded hand exactly when
     * `Player.portResource` completes the trade, and the board's count is not updated.
     */
    method PortResource(give: int, get: int)
      requires Valid()
      modifies this`resources
      ensures Valid()
      ensures PortOutcome(old(resources), tradeRates, give, get).Done? ==>
        resources == PortOutcome(old(resources), tradeRates, give, get).hand
      ensures !PortOutcome(old(resources), tradeRates, give, get).Done? ==> resources == old(resources)
    {
      if give < 0 || give > 4 {
      } else if get < 0 || get > 4 {
      } else if resources[give] < tradeRates[give] {
      } else {
        resources := resources[get := resources[get] + 1];
        resources := resources[give := resources[give] - tradeRates[give]];
      }
    }

    /** `getTotalResources`: the sum of the five counters. */
    method GetTotalResources() returns (total: int)
      requires Valid()
      ensures total == Total(resources) == resources[0] + resources[1] + resources[2] + resources[3] + resources[4]
    {
      total := 0;
      var i := 0;
      while i < |resources|
        invariant 0 <= i <= |resources|
        invariant total == Total(resources[..i])
      {
        assert resources[..i + 1][..i] == resources[..i];
        total := total + resources[i];
        i := i + 1;
      }
      assert resources[..i] == resources;
      TotalOfHand(resources);
    }

    /** `updateResourcePoints`: each tile around the location adds its pip value to its resource's counter. */
    method UpdateResourcePoints(location: Point)
      requires Valid()
      modifies this`resourcePoints
      ensures Valid()
      ensures resourcePoints == old(Counted(currentBoard, resourcePoints, location))
      ensures forall k :: 0 <= k < Kinds ==> resourcePoints[k] >= old(resourcePoints[k])
    {
      var adjacentHexes := currentBoard.GetAdjacentHexes(location);
      currentBoard.AdjacentHexesUpToSound(location, 6);
      CountedDefinition(currentBoard, resourcePoints, location);
      WithPointsGrows(resourcePoints, adjacentHexes);
      resourcePoints := AddPoints(resourcePoints, adjacentHexes);
    }

    /** `gainPortPower`: the player's trade rates take on the port's power. */
    method GainPortPower(portType: string)
      requires Valid()
      modifies this`tradeRates
      ensures Valid()
      ensures tradeRates == PortPower(old(tradeRates), portType)
    {
      PortPowerLowers(tradeRates, portType);
      tradeRates := ApplyPortPower(tradeRates, portType);
    }

    /** `tempGainPortPower`: the same change, on the scratch rates used when weighing a location. */
    method TempGainPortPower(portType: string)
      requires Rates(tempTradeRates)
      modifies this`tempTradeRates
      ensures Rates(tempTradeRates)
      ensures tempTradeRates == PortPower(old(tempTradeRates), portType)
    {
      PortPowerLowers(tempTradeRates, portType);
      tempTradeRates := ApplyPortPower(tempTradeRates, portType);
    }

    /**
     * `getRandomResource`: -1 for an empty hand, otherwise `RandomResource` of
     * one draw below the total.  For a hand, -1 comes back exactly when it is
     * empty, and any other answer is a resource the player holds.
     */
    method GetRandomResource(src: Source) returns (k: int, src': Source)
      requires Valid()
      ensures Total(resources) > 0 ==>
        var (draw, next) := Below(src, Total(resources));
        k == RandomResource(resources, draw) && src' == next
      ensures Total(resources) <= 0 ==> k == -1 && src' == src
      ensures Hand(resources) ==> (k == -1 <==> Total(resources) == 0)
      ensures Hand(resources) && k != -1 ==> 0 <= k < Kinds && resources[k] > 0
    {
      var total := GetTotalResources();
      if total > 0 {
        var draw;
        draw, src' := Below(src, total).0, Below(src, total).1;
        k := RandomResource(resources, draw);
        if Hand(resources) {
          RandomResourcePicks(resources, draw);
        }
      } else {
        return -1, src;
      }
    }
  }
}
