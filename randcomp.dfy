/**
 * The computer player that decides with limited intelligence (catan/RandComp.py):
 * it values locations by the pips and port rates they would bring, plans
 * bank trades toward a city, a settlement or a road, builds greedily, and
 * chooses whom to rob and which tile to block.  The player's `randrange`
 * calls draw from a caller-supplied source, threaded through every method.
 */
module RandComps {
  import opened Wrappers
  import opened Geometry
  import opened Tiles
  import opened Resources
  import opened Random
  import opened Structures
  import opened Boards
  import opened Players
  import opened Planning

  /** `randrange(20) / 10.0` taken from draw `i` after `src`: a jitter in [0, 2). */
  function Jitter(src: Source, i: nat): (j: real)
    ensures 0.0 <= j < 2.0
  {
    Below(Source(src.draws, src.used + i), 20).0 as real / 10.0
  }

  // ---------------------------------------------------------------------
  // Valuing a location (getHexValue)
  // ---------------------------------------------------------------------

  /**
   * `n / rate` for a trade rate.  The rate is 2, 3 or 4, so the quotient is
   * written with a constant divisor per case; `PerIsQuotient` shows it is
   * the quotient itself.
   */
  function Per(n: int, rate: int): real
    requires 2 <= rate <= 4
  {
    if rate == 2 then n as real / 2.0 else if rate == 3 then n as real / 3.0 else n as real / 4.0
  }

  lemma PerIsQuotient(n: int, rate: int)
    requires 2 <= rate <= 4
    ensures Per(n, rate) == n as real / rate as real
  {
  }

  /**
   * The terms k..4 of `getHexValue`'s sum: four times the pips per traded
   * card with the location (`tp` at rates `tr`) minus without it (`rp` at `r`).
   */
  function Gain(tp: seq<int>, tr: seq<int>, rp: seq<int>, r: seq<int>, k: nat): real
    requires |tp| == Kinds && |rp| == Kinds && Rates(tr) && Rates(r) && k <= Kinds
    decreases Kinds - k
  {
    if k == Kinds then 0.0
    else 4.0 * (Per(tp[k], tr[k]) - Per(rp[k], r[k])) + Gain(tp, tr, rp, r, k + 1)
  }

  /**
   * The rates `getHexValue` ends its scan with: the port at the location,
   * applied once per adjacent tile, which is the same as applying it once.
   */
  function RatesWithPort(board: Board, tradeRates: seq<int>, location: Point): (r: seq<int>)
    reads board`tiles, board`robberLocation, board`ports, board.tiles
    requires board.TilesValid() && Rates(tradeRates)
    ensures Rates(r) && forall k :: 0 <= k < Kinds ==> r[k] <= tradeRates[k]
  {
    var t := board.PortTypeAt(location);
    PortPowerLowers(tradeRates, t);
    if |board.AdjacentHexes(location)| > 0 && t != "" then PortPower(tradeRates, t) else tradeRates
  }

  /**
   * The value `getHexValue` gives a location: with the pips of its adjacent
   * tiles added and its port applied, the gain in pips per traded card.
   */
  function ValueDefinition(board: Board, resourcePoints: seq<int>, tradeRates: seq<int>, location: Point): real
    reads board`tiles, board`robberLocation, board`ports, board.tiles
    requires board.TilesValid() && |resourcePoints| == Kinds && Rates(tradeRates)
  {
    board.AdjacentHexesUpToSound(location, 6);
    var tp := WithPoints(resourcePoints, board.AdjacentHexes(location));
    Gain(tp, RatesWithPort(board, tradeRates, location), resourcePoints, tradeRates, 0)
  }

  /**
   * `ValueDefinition`, reached only after `delay` unfoldings.  The verifier
   * unfolds a recursive function a bounded number of times, so proofs that
   * merely compare values (the choosing loops) never see the definition;
   * `HexValueDefinition` gives it to the proofs that need it.
   */
  function Delayed(board: Board, resourcePoints: seq<int>, tradeRates: seq<int>, location: Point, delay: nat): real
    reads board`tiles, board`robberLocation, board`ports, board.tiles
    requires board.TilesValid() && |resourcePoints| == Kinds && Rates(tradeRates)
    decreases delay
  {
    if delay == 0 then ValueDefinition(board, resourcePoints, tradeRates, location)
    else Delayed(board, resourcePoints, tradeRates, location, delay - 1)
  }

  /** The value of `location`, as `getHexValue` computes it. */
  function HexValue(board: Board, resourcePoints: seq<int>, tradeRates: seq<int>, location: Point): real
    reads board`tiles, board`robberLocation, board`ports, board.tiles
    requires board.TilesValid() && |resourcePoints| == Kinds && Rates(tradeRates)
  {
    Delayed(board, resourcePoints, tradeRates, location, 3)
  }

  lemma HexValueDefinition(board: Board, resourcePoints: seq<int>, tradeRates: seq<int>, location: Point)
    requires board.TilesValid() && |resourcePoints| == Kinds && Rates(tradeRates)
    ensures |WithPoints(resourcePoints, board.AdjacentHexes(location))| == Kinds
    ensures HexValue(board, resourcePoints, tradeRates, location)
      == Gain(WithPoints(resourcePoints, board.AdjacentHexes(location)), RatesWithPort(board, tradeRates, location), resourcePoints, tradeRates, 0)
  {
    board.AdjacentHexesUpToSound(location, 6);
    assert Delayed(board, resourcePoints, tradeRates, location, 3) == Delayed(board, resourcePoints, tradeRates, location, 2);
    assert Delayed(board, resourcePoints, tradeRates, location, 1) == Delayed(board, resourcePoints, tradeRates, location, 0);
  }

  /** Fewer pips at a slower rate are worth no more per card: `small / slow <= big / fast`. */
  lemma PerLe(small: int, big: int, fast: int, slow: int)
    requires 0 <= small <= big && 2 <= fast <= slow <= 4
    ensures Per(small, slow) <= Per(big, fast)
  {
  }

  lemma {:induction false} GainNonNegative(tp: seq<int>, tr: seq<int>, rp: seq<int>, r: seq<int>, k: nat)
    requires |tp| == Kinds && |rp| == Kinds && Rates(tr) && Rates(r) && k <= Kinds
    requires forall j :: 0 <= j < Kinds ==> 0 <= rp[j] <= tp[j] && tr[j] <= r[j]
    ensures Gain(tp, tr, rp, r, k) >= 0.0
    decreases Kinds - k
  {
    if k < Kinds {
      PerLe(rp[k], tp[k], tr[k], r[k]);
      GainNonNegative(tp, tr, rp, r, k + 1);
    }
  }

  /**
   * A location never lowers the value: its tiles only add pips and its
   * port only lowers rates.  So every candidate beats the starting maxima
   * (-10 and -1) of the build and initial-settlement loops.
   */
  lemma HexValueNonNegative(board: Board, resourcePoints: seq<int>, tradeRates: seq<int>, location: Point)
    requires board.TilesValid() && |resourcePoints| == Kinds && Rates(tradeRates)
    requires forall k :: 0 <= k < Kinds ==> resourcePoints[k] >= 0
    ensures HexValue(board, resourcePoints, tradeRates, location) >= 0.0
  {
    HexValueDefinition(board, resourcePoints, tradeRates, location);
    var hs := board.AdjacentHexes(location);
    board.AdjacentHexesUpToSound(location, 6);
    forall i | 0 <= i < |hs|
      ensures hs[i].value >= 0
    {
      assert hs[i] in board.tiles;
    }
    WithPointsGrows(resourcePoints, hs);
    var tp := WithPoints(resourcePoints, hs);
    GainNonNegative(tp, RatesWithPort(board, tradeRates, location), resourcePoints, tradeRates, 0);
  }

  /** What valuing a location reads: the board's tiles, and pip counters and rates in range. */
  ghost predicate Weighable(board: Board, rp: seq<int>, tr: seq<int>)
    reads board`tiles, board`robberLocation, board.tiles
  {
    && board.TilesValid() && |rp| == Kinds && Rates(tr)
    && forall k :: 0 <= k < Kinds ==> rp[k] >= 0
  }

  /**
   * The port half of `getHexValue`'s scan over the adjacent tiles: the
   * location's port, if any, is applied to the scratch rates once per tile.
   * (The same loop adds each tile's pips to the copied counters; that half
   * reads nothing this half writes, and `AddPoints` models it.)
   */
  method ApplyPortPerTile(p: Player, location: Point, adjacentHexes: seq<Hexagon>, ghost want: seq<int>)
    requires Weighable(p.currentBoard, p.resourcePoints, p.tradeRates) && |adjacentHexes| == |p.currentBoard.AdjacentHexes(location)|
    requires want == RatesWithPort(p.currentBoard, p.tradeRates, location)
    modifies p`tempTradeRates
    ensures p.tempTradeRates == want
  {
    var board := p.currentBoard;
    ghost var rates := p.tradeRates;
    ghost var portType := board.PortTypeAt(location);
    p.tempTradeRates := p.tradeRates;
    var j := 0;
    while j < |adjacentHexes|
      invariant 0 <= j <= |adjacentHexes|
      invariant Rates(p.tempTradeRates)
      invariant p.tempTradeRates == if j > 0 && portType != "" then PortPower(rates, portType) else rates
    {
      var newPortType := board.PortTypeAt(location);
      if newPortType != "" {
        PortPowerIdempotent(rates, newPortType);
        p.TempGainPortPower(newPortType);
      }
      j := j + 1;
    }
  }

  /** The closing loop of `getHexValue`: the five terms added up. */
  method SumGain(tp: seq<int>, tr: seq<int>, rp: seq<int>, r: seq<int>) returns (hexValue: real)
    requires |tp| == Kinds && |rp| == Kinds && Rates(tr) && Rates(r)
    ensures hexValue == Gain(tp, tr, rp, r, 0)
  {
    hexValue := 0.0;
    var k := 0;
    while k < |tp|
      invariant 0 <= k <= Kinds
      invariant hexValue + Gain(tp, tr, rp, r, k) == Gain(tp, tr, rp, r, 0)
    {
      PerIsQuotient(tp[k], tr[k]);
      PerIsQuotient(rp[k], r[k]);
      hexValue := hexValue + 4.0 * (tp[k] as real / tr[k] as real - rp[k] as real / r[k] as real);
      k := k + 1;
    }
  }

  /**
   * `getHexValue`: the value of `location` for `p`.  The scratch rates it
   * works in are reset to 4:1 afterwards; nothing else changes.
   */
  method GetHexValue(p: Player, location: Point) returns (hexValue: real)
    requires Weighable(p.currentBoard, p.resourcePoints, p.tradeRates)
    modifies p`tempTradeRates
    ensures p.tempTradeRates == [4, 4, 4, 4, 4]
    ensures hexValue == old(HexValue(p.currentBoard, p.resourcePoints, p.tradeRates, location))
  {
    hexValue := WeighLocation(p, location);
    p.tempTradeRates := [4, 4, 4, 4, 4];
  }

  /** `getHexValue` up to its last statement: the value, with the scratch rates still set. */
  method WeighLocation(p: Player, location: Point) returns (hexValue: real)
    requires Weighable(p.currentBoard, p.resourcePoints, p.tradeRates)
    modifies p`tempTradeRates
    ensures hexValue == old(HexValue(p.currentBoard, p.resourcePoints, p.tradeRates, location))
  {
    ghost var b, rp, tr := p.currentBoard, p.resourcePoints, p.tradeRates;
    ghost var tpWant := WithPoints(rp, b.AdjacentHexes(location));
    ghost var rWant := RatesWithPort(b, tr, location);
    ghost var want := HexValue(b, rp, tr, location);
    HexValueDefinition(b, rp, tr, location);
    var adjacentHexes := p.currentBoard.AdjacentHexes(location);
    var tempResourcePoints := AddPoints(p.resourcePoints, adjacentHexes);
    assert tempResourcePoints == tpWant;
    ApplyPortPerTile(p, location, adjacentHexes, rWant);
    hexValue := SumGain(tempResourcePoints, p.tempTradeRates, p.resourcePoints, p.tradeRates);
  }

  // ---------------------------------------------------------------------
  // Choosing where to build
  // ---------------------------------------------------------------------

  /**
   * The values `getHexValue` gives each of `points`, taken once, so that the
   * choosing loops compare values instead of re-reading the board.
   */
  ghost method TakeValues(board: Board, resourcePoints: seq<int>, tradeRates: seq<int>, points: seq<Point>) returns (values: seq<real>)
    requires board.TilesValid() && |resourcePoints| == Kinds && Rates(tradeRates)
    requires forall k :: 0 <= k < Kinds ==> resourcePoints[k] >= 0
    ensures |values| == |points|
    ensures forall j :: 0 <= j < |points| ==> values[j] == HexValue(board, resourcePoints, tradeRates, points[j]) && values[j] >= 0.0
  {
    values := [];
    while |values| < |points|
      invariant |values| <= |points|
      invariant forall j :: 0 <= j < |values| ==> values[j] == HexValue(board, resourcePoints, tradeRates, points[j]) && values[j] >= 0.0
    {
      HexValueNonNegative(board, resourcePoints, tradeRates, points[|values|]);
      values := values + [HexValue(board, resourcePoints, tradeRates, points[|values|])];
    }
  }

  /** The values `getHexValue` gives `points` on `board`, for pips `rp` and rates `tr`. */
  ghost function Values(board: Board, rp: seq<int>, tr: seq<int>, points: seq<Point>): (v: seq<real>)
    reads board`tiles, board`robberLocation, board`ports, board.tiles
    requires board.TilesValid() && |rp| == Kinds && Rates(tr)
    ensures |v| == |points|
    ensures forall j :: 0 <= j < |points| ==> v[j] == HexValue(board, rp, tr, points[j])
    decreases |points|
  {
    if |points| == 0 then []
    else Values(board, rp, tr, points[..|points| - 1]) + [HexValue(board, rp, tr, points[|points| - 1])]
  }

  /** The index `placeCity` and `placeSettlement` build at: `Pick` over the values of all of `points`. */
  ghost function BuildPick(board: Board, rp: seq<int>, tr: seq<int>, points: seq<Point>, src: Source): int
    reads board`tiles, board`robberLocation, board`ports, board.tiles
    requires board.TilesValid() && |rp| == Kinds && Rates(tr)
  {
    BuildPickAfter(board, rp, tr, points, src, 2)
  }

  /** `BuildPick`, reached only after `delay` unfoldings, which keeps the values out of the callers that only pass it on. */
  ghost function BuildPickAfter(board: Board, rp: seq<int>, tr: seq<int>, points: seq<Point>, src: Source, delay: nat): int
    reads board`tiles, board`robberLocation, board`ports, board.tiles
    requires board.TilesValid() && |rp| == Kinds && Rates(tr)
    decreases delay
  {
    if delay > 0 then BuildPickAfter(board, rp, tr, points, src, delay - 1)
    else Pick(Values(board, rp, tr, points), src, |points|).0
  }

  /** What `BuildPick` is, spelt out. */
  lemma BuildPickDefinition(board: Board, rp: seq<int>, tr: seq<int>, points: seq<Point>, src: Source)
    requires board.TilesValid() && |rp| == Kinds && Rates(tr)
    ensures BuildPick(board, rp, tr, points, src) == Pick(Values(board, rp, tr, points), src, |points|).0
  {
    assert BuildPickAfter(board, rp, tr, points, src, 2) == BuildPickAfter(board, rp, tr, points, src, 1)
        == BuildPickAfter(board, rp, tr, points, src, 0);
  }

  /**
   * The location loop of `placeCity` and `placeSettlement` over the first
   * `i` candidates, as the index it remembers and the value later
   * candidates must beat: it starts at -1 and -10, and a candidate whose
   * value plus its jitter beats the remembered value becomes the pick, its
   * value WITHOUT the jitter being remembered.
   */
  function Pick(values: seq<real>, src: Source, i: nat): (r: (int, real))
    requires i <= |values|
    ensures -1 <= r.0 < i
    ensures r.0 != -1 ==> r.1 == values[r.0]
  {
    if i == 0 then (-1, -10.0)
    else
      var prev := Pick(values, src, i - 1);
      if values[i - 1] + Jitter(src, i - 1) > prev.1 then (i - 1, values[i - 1]) else prev
  }

  /**
   * The pick over non-negative values: there is one as soon as there is a
   * candidate, and no later candidate's value plus jitter beats its value.
   */
  lemma {:induction false} PickBeatsLater(values: seq<real>, src: Source, i: nat)
    requires i <= |values| && forall j :: 0 <= j < |values| ==> values[j] >= 0.0
    ensures var r := Pick(values, src, i);
      && (r.0 == -1 <==> i == 0)
      && (r.0 == -1 ==> r.1 == -10.0)
      && forall j :: r.0 < j < i ==> values[j] + Jitter(src, j) <= r.1
  {
    if i > 0 {
      PickBeatsLater(values, src, i - 1);
    }
  }

  /**
   * The pick need not be the most valuable candidate: a later one beats the
   * remembered value with its jitter.  With values 2 and 1.5 and jitters 0
   * and 0.6, the second is picked.
   */
  lemma PickNotBest(src: Source)
    requires Jitter(src, 0) == 0.0 && Jitter(src, 1) == 0.6
    ensures Pick([2.0, 1.5], src, 2).0 == 1
  {
    assert Pick([2.0, 1.5], src, 1) == (0, 2.0);
  }

  /**
   * The location loop of `placeCity` and `placeSettlement`: one jitter is
   * drawn per candidate and the index chosen is `Pick`'s.  A pick exists
   * exactly when there is a candidate, and no later candidate outscores the
   * pick's value.
   */
  method ChooseBuildLocation(p: Player, points: seq<Point>, src: Source) returns (index: int, src': Source)
    requires p.Valid()
    modifies p`tempTradeRates
    ensures p.Valid()
    ensures p.tempTradeRates == if |points| == 0 then old(p.tempTradeRates) else [4, 4, 4, 4, 4]
    ensures src' == Source(src.draws, src.used + |points|)
    ensures index == Pick(old(Values(p.currentBoard, p.resourcePoints, p.tradeRates, points)), src, |points|).0
    ensures index == -1 <==> |points| == 0
    ensures index != -1 ==> 0 <= index < |points|
    ensures index != -1 ==> forall j :: index < j < |points| ==>
      old(HexValue(p.currentBoard, p.resourcePoints, p.tradeRates, points[j])) + Jitter(src, j)
        <= old(HexValue(p.currentBoard, p.resourcePoints, p.tradeRates, points[index]))
  {
    ghost var values := TakeValues(p.currentBoard, p.resourcePoints, p.tradeRates, points);
    assert values == Values(p.currentBoard, p.resourcePoints, p.tradeRates, points);
    index, src' := ScanBuildLocations(p, points, src, values);
    PickBeatsLater(values, src, |points|);
  }

  /** The loop of `ChooseBuildLocation`, over the values of the candidates taken beforehand. */
  method ScanBuildLocations(p: Player, points: seq<Point>, src: Source, ghost values: seq<real>) returns (index: int, src': Source)
    requires p.Valid() && |values| == |points|
    requires forall j :: 0 <= j < |points| ==> values[j] == HexValue(p.currentBoard, p.resourcePoints, p.tradeRates, points[j])
    modifies p`tempTradeRates
    ensures p.Valid()
    ensures p.tempTradeRates == if |points| == 0 then old(p.tempTradeRates) else [4, 4, 4, 4, 4]
    ensures src' == Source(src.draws, src.used + |points|)
    ensures index == Pick(values, src, |points|).0
  {
    ghost var board, rp, tr := p.currentBoard, p.resourcePoints, p.tradeRates;
    index := -1;
    var maxValue := -10.0;
    src' := src;
    var i := 0;
    while i < |points|
      invariant 0 <= i <= |points|
      invariant p.Valid() && p.currentBoard == board && p.resourcePoints == rp && p.tradeRates == tr
      invariant p.tempTradeRates == if i == 0 then old(p.tempTradeRates) else [4, 4, 4, 4, 4]
      invariant src' == Source(src.draws, src.used + i)
      invariant (index, maxValue) == Pick(values, src, i)
    {
      var drawn := Below(src', 20);
      src' := drawn.1;
      var random := drawn.0 as real / 10.0;
      assert random == Jitter(src, i);
      var value := GetHexValue(p, points[i]);
      assert value == values[i];
      if value + random > maxValue {
        maxValue := value;
        index := i;
      }
      i := i + 1;
    }
  }

  /** How many of the first `n` flags are set. */
  function TrueCount(flags: seq<bool>, n: nat): (c: nat)
    requires n <= |flags|
    ensures c <= n
  {
    if n == 0 then 0 else TrueCount(flags, n - 1) + (if flags[n - 1] then 1 else 0)
  }

  /** Whether each intersection of `board` is legal, taken once. */
  ghost method TakeLegal(board: Board) returns (legal: seq<bool>)
    ensures |legal| == |board.hexIntersections|
    ensures forall j :: 0 <= j < |legal| ==> legal[j] == board.Legal(board.hexIntersections[j])
  {
    legal := [];
    while |legal| < |board.hexIntersections|
      invariant |legal| <= |board.hexIntersections|
      invariant forall j :: 0 <= j < |legal| ==> legal[j] == board.Legal(board.hexIntersections[j])
    {
      legal := legal + [board.Legal(board.hexIntersections[|legal|])];
    }
  }

  /** `legal` and `values` hold, for every intersection of `board`, whether it is legal and its value with pips `rp` and rates `tr`. */
  ghost predicate Snapshot(board: Board, rp: seq<int>, tr: seq<int>, legal: seq<bool>, values: seq<real>)
    reads board, board.tiles
  {
    && Weighable(board, rp, tr)
    && |legal| == |values| == |board.hexIntersections|
    && (forall j :: 0 <= j < |legal| ==> legal[j] == board.Legal(board.hexIntersections[j]))
    && (forall j :: 0 <= j < |values| ==> values[j] == HexValue(board, rp, tr, board.hexIntersections[j]))
    && (forall j :: 0 <= j < |values| ==> values[j] >= 0.0)
  }

  /**
   * One round of `chooseInitialSettlementLocation`'s loop: when intersection
   * `i` is legal, a jitter is drawn and added to its value, and the sum
   * replaces the leader when strictly higher.
   */
  method ConsiderIntersection(p: Player, board: Board, i: nat, cur: Source, maxIndex: int, maxValue: real,
                              ghost legal: seq<bool>, ghost values: seq<real>, ghost src: Source)
    returns (next: Source, newIndex: int, newValue: real)
    requires p.currentBoard == board && i < |board.hexIntersections|
    requires Snapshot(board, p.resourcePoints, p.tradeRates, legal, values)
    requires cur == Source(src.draws, src.used + TrueCount(legal, i))
    requires Leading(legal, values, src, i, maxIndex, maxValue)
    modifies p`tempTradeRates
    ensures next == Source(src.draws, src.used + TrueCount(legal, i + 1))
    ensures Leading(legal, values, src, i + 1, newIndex, newValue)
  {
    LeadingStep(legal, values, src, i, maxIndex, maxValue);
    ghost var score := Score(legal, values, src, i);
    assert score == values[i] + Jitter(src, TrueCount(legal, i));
    next, newIndex, newValue := cur, maxIndex, maxValue;
    var isLegal := board.LegalPlacement(board.hexIntersections[i]);
    if isLegal {
      var draw;
      draw, next := Below(cur, 20).0, Below(cur, 20).1;
      var random := draw as real / 10.0;
      assert random == Jitter(src, TrueCount(legal, i));
      var value := GetHexValue(p, board.hexIntersections[i]);
      assert value == values[i];
      var hexValue := value + random;
      assert hexValue == score;
      if hexValue > maxValue {
        newIndex, newValue := i, hexValue;
      }
    }
  }

  /**
   * `chooseInitialSettlementLocation`: the player adopts `board`; a jitter
   * is drawn for every legal intersection, and the first legal one with the
   * highest value plus jitter is chosen.  With no legal intersection the
   * remembered index stays -1, which Python reads as the last intersection.
   */
  method ChooseInitialSettlementLocation(p: Player, board: Board, src: Source)
    returns (loc: Point, src': Source, ghost pick: int, ghost legal: seq<bool>, ghost values: seq<real>)
    requires 1 <= p.playerNum <= p.numPlayers && |p.resources| == Kinds && Rates(p.tradeRates)
    requires |p.resourcePoints| == Kinds && (forall k :: 0 <= k < Kinds ==> p.resourcePoints[k] >= 0)
    requires board.Valid() && board.numPlayers == p.numPlayers && |board.hexIntersections| > 0
    modifies p`currentBoard, p`tempTradeRates
    ensures p.Valid() && p.currentBoard == board
    ensures |legal| == |values| == |board.hexIntersections|
    ensures forall j :: 0 <= j < |legal| ==> legal[j] == board.Legal(board.hexIntersections[j])
    ensures forall j :: 0 <= j < |values| ==> values[j] == old(HexValue(board, p.resourcePoints, p.tradeRates, board.hexIntersections[j]))
    ensures src' == Source(src.draws, src.used + TrueCount(legal, |legal|))
    ensures -1 <= pick < |legal|
    ensures pick == -1 <==> forall j :: 0 <= j < |legal| ==> !legal[j]
    ensures pick == -1 ==> loc == board.hexIntersections[|legal| - 1]
    ensures pick != -1 ==> loc == board.hexIntersections[pick] && legal[pick]
    ensures pick != -1 ==> forall j :: 0 <= j < |legal| && legal[j] ==>
      Score(legal, values, src, j) <= Score(legal, values, src, pick)
      && (j < pick ==> Score(legal, values, src, j) < Score(legal, values, src, pick))
  {
    values := TakeValues(board, p.resourcePoints, p.tradeRates, board.hexIntersections);
    legal := TakeLegal(board);
    p.currentBoard := board;
    ghost var best;
    loc, src', pick, best := PickInitial(p, src, legal, values);
  }

  /**
   * The score `chooseInitialSettlementLocation` gives intersection `j`: its
   * value plus the jitter drawn for it, the one after those of the legal
   * intersections before it.
   */
  function Score(legal: seq<bool>, values: seq<real>, src: Source, j: nat): real
    requires j < |values| && j <= |legal|
  {
    values[j] + Jitter(src, TrueCount(legal, j))
  }

  /**
   * After the first `i` intersections, `maxIndex` is the first legal one of
   * highest score (-1 while none is legal) and `maxValue` its score.
   */
  ghost predicate Leading(legal: seq<bool>, values: seq<real>, src: Source, i: nat, maxIndex: int, maxValue: real)
  {
    && i <= |legal| == |values| && -1 <= maxIndex < i
    && (maxIndex == -1 <==> forall j :: 0 <= j < i ==> !legal[j])
    && (maxIndex == -1 ==> maxValue == -1.0)
    && (maxIndex != -1 ==> legal[maxIndex] && maxValue == Score(legal, values, src, maxIndex))
    && (maxIndex != -1 ==> forall j :: 0 <= j < i && legal[j] ==>
          Score(legal, values, src, j) <= maxValue && (j < maxIndex ==> Score(legal, values, src, j) < maxValue))
  }

  /** One round of the loop keeps `Leading`: a legal intersection replaces the leader only when strictly better. */
  lemma LeadingStep(legal: seq<bool>, values: seq<real>, src: Source, i: nat, maxIndex: int, maxValue: real)
    requires Leading(legal, values, src, i, maxIndex, maxValue) && i < |legal|
    requires values[i] >= 0.0
    ensures legal[i] && Score(legal, values, src, i) > maxValue ==>
      Leading(legal, values, src, i + 1, i, Score(legal, values, src, i))
    ensures !(legal[i] && Score(legal, values, src, i) > maxValue) ==>
      Leading(legal, values, src, i + 1, maxIndex, maxValue)
  {
    var score := Score(legal, values, src, i);
    if legal[i] && score > maxValue {
      assert forall j :: 0 <= j < i + 1 && legal[j] ==> Score(legal, values, src, j) <= score;
    } else {
      assert maxIndex == -1 ==> !legal[i];
    }
  }

  /**
   * The loop of `chooseInitialSettlementLocation`, over the current board,
   * stated over whether each intersection is legal and what it is worth.
   */
  method PickInitial(p: Player, src: Source, ghost legal: seq<bool>, ghost values: seq<real>) returns (loc: Point, src': Source, ghost pick: int, ghost best: real)
    requires |p.currentBoard.hexIntersections| > 0
    requires Snapshot(p.currentBoard, p.resourcePoints, p.tradeRates, legal, values)
    modifies p`tempTradeRates
    ensures src' == Source(src.draws, src.used + TrueCount(legal, |legal|))
    ensures Leading(legal, values, src, |legal|, pick, best)
    ensures pick == -1 ==> loc == p.currentBoard.hexIntersections[|legal| - 1]
    ensures pick != -1 ==> loc == p.currentBoard.hexIntersections[pick]
  {
    var board := p.currentBoard;
    ghost var rp, tr := p.resourcePoints, p.tradeRates;
    var maxValue := -1.0;
    var maxIndex := -1;
    src' := src;
    var n := |board.hexIntersections|;
    var i := 0;
    while i < n
      invariant 0 <= i <= n
      invariant p.currentBoard == board
      invariant Snapshot(board, rp, tr, legal, values)
      invariant src' == Source(src.draws, src.used + TrueCount(legal, i))
      invariant Leading(legal, values, src, i, maxIndex, maxValue)
    {
      src', maxIndex, maxValue := ConsiderIntersection(p, board, i, src', maxIndex, maxValue, legal, values, src);
      i := i + 1;
    }
    pick, best := maxIndex, maxValue;
    loc := if maxIndex == -1 then board.hexIntersections[n - 1] else board.hexIntersections[maxIndex];
  }

  /**
   * `chooseInitialRoadLocation`: a random intersection adjacent to the new
   * settlement.  With none, `randrange(0)` raises ValueError: `None`.
   */
  method ChooseInitialRoadLocation(p: Player, settleLocation: Point, src: Source) returns (end: Option<Point>, src': Source)
    requires p.Valid()
    ensures var adj := p.currentBoard.AdjacentIntersections(settleLocation);
      && (end.None? <==> |adj| == 0)
      && (end.None? ==> src' == src)
      && (end.Some? ==> end.value in adj && end.value in p.currentBoard.hexIntersections
                        && PointNe(settleLocation, end.value) && p.currentBoard.IsAdjacent(end.value, settleLocation))
      && (end.Some? ==> src' == Below(src, |adj|).1 && end.value == adj[Below(src, |adj|).0])
  {
    var possibleRoadPoints := p.currentBoard.GetAdjacentIntersections(settleLocation);
    if |possibleRoadPoints| == 0 {
      return None, src;
    }
    var roadPointIndex;
    roadPointIndex, src' := Below(src, |possibleRoadPoints|).0, Below(src, |possibleRoadPoints|).1;
    end := Some(possibleRoadPoints[roadPointIndex]);
  }
}
