/**
 * The game (catan/Game.py): four random computer players on one board, the
 * initial placement, what each roll of the dice produces or what the robber
 * does on a 7, a turn, and the loop that runs until someone has ten points.
 * Draws come from a `Source`; the shuffles of the board and the iteration
 * order of the set in `getPointToBlock` are inputs.
 */
module Games {
  import opened Wrappers
  import opened Geometry
  import opened Tiles
  import opened Resources
  import opened Random
  import opened Structures
  import opened Boards
  import opened Players
  import opened RandComps
  import Builders
  import opened Robber

  const NumPlayers: nat := 4
  const MaxResources: int := 7
  const PointsToWin: int := 10
  const PlayerColors: seq<string> := ["red", "blue", "white", "orange"]

  // ---------------------------------------------------------------------
  // Gaining resources
  // ---------------------------------------------------------------------

  /** `addResource`'s effect on a hand: one more of the named kind; a name that is no resource (the desert) adds nothing. */
  function AddOne(res: seq<int>, t: string): (r: seq<int>)
    ensures |r| == |res|
  {
    var i := ResourceIndex(t);
    if 0 <= i < |res| then res[i := res[i] + 1] else res
  }

  /** How many of the names are resources. */
  function Named(ts: seq<string>): nat
  {
    if |ts| == 0 then 0 else Named(ts[..|ts| - 1]) + (if ResourceIndex(ts[|ts| - 1]) != -1 then 1 else 0)
  }

  /** The hand after `addResource` for each name in turn. */
  function Gained(res: seq<int>, ts: seq<string>): (r: seq<int>)
    ensures |r| == |res|
  {
    if |ts| == 0 then res else AddOne(Gained(res, ts[..|ts| - 1]), ts[|ts| - 1])
  }

  /** One more name: one more `addResource`, and one more resource counted if it names one. */
  lemma GainedStep(res: seq<int>, ts: seq<string>, t: string)
    requires |res| == Kinds
    ensures Gained(res, ts + [t]) == AddOne(Gained(res, ts), t)
    ensures Named(ts + [t]) == Named(ts) + (if ResourceIndex(t) != -1 then 1 else 0)
  {
    assert (ts + [t])[..|ts|] == ts;
  }

  /** Gaining two lists in turn is gaining their concatenation. */
  lemma {:induction false} GainedAppend(res: seq<int>, a: seq<string>, b: seq<string>)
    requires |res| == Kinds
    ensures Gained(Gained(res, a), b) == Gained(res, a + b)
    ensures Named(a + b) == Named(a) + Named(b)
  {
    if |b| == 0 {
      assert a + b == a;
    } else {
      var init := b[..|b| - 1];
      GainedAppend(res, a, init);
      assert (a + b)[..|a + b| - 1] == a + init;
    }
  }

  /**
   * Gaining never lowers a counter, raises the total by exactly the number of
   * resource names, and keeps a hand a hand.
   */
  lemma {:induction false} GainedGrows(res: seq<int>, ts: seq<string>)
    requires |res| == Kinds
    ensures forall k :: 0 <= k < Kinds ==> Gained(res, ts)[k] >= res[k]
    ensures Total(Gained(res, ts)) == Total(res) + Named(ts)
    ensures Hand(res) ==> Hand(Gained(res, ts))
  {
    if |ts| > 0 {
      var before := Gained(res, ts[..|ts| - 1]);
      GainedGrows(res, ts[..|ts| - 1]);
      TotalOfHand(before);
      TotalOfHand(AddOne(before, ts[|ts| - 1]));
    }
  }

  /** The resource names of tiles, in order. */
  function TypesOf(hs: seq<Hexagon>): (ts: seq<string>)
    ensures |ts| == |hs|
  {
    if |hs| == 0 then [] else TypesOf(hs[..|hs| - 1]) + [hs[|hs| - 1].hexType]
  }

  // ---------------------------------------------------------------------
  // Production (collectResources on a roll other than 7)
  // ---------------------------------------------------------------------

  /**
   * The robber test of `collectResources`: the tile's location is not the
   * robber's (`Point.__ne__`).  Both are set once the tiles are, so the other
   * cases do not arise.
   */
  predicate Unblocked(location: Option<Point>, robber: Option<Point>)
  {
    if location.Some? && robber.Some? then PointNe(location.value, robber.value) else true
  }

  /** What production reads of a tile: its resource name, its number and its location. */
  datatype TileFacts = TileFacts(hexType: string, number: int, location: Option<Point>)

  function FactOf(h: Hexagon): TileFacts
    reads h
  {
    TileFacts(h.hexType, h.number, h.location)
  }

  /** The facts of the tiles `hs`, in order. */
  function FactsOf(hs: seq<Hexagon>): (fs: seq<TileFacts>)
    reads set i | 0 <= i < |hs| :: hs[i]
    ensures |fs| == |hs|
    ensures forall i :: 0 <= i < |hs| ==> fs[i] == FactOf(hs[i])
  {
    if |hs| == 0 then [] else FactsOf(hs[..|hs| - 1]) + [FactOf(hs[|hs| - 1])]
  }

  /** What one tile yields on `roll`: its name if it has that number and the robber does not block it, twice for a city. */
  function TileYield(f: TileFacts, roll: int, robber: Option<Point>, city: bool): seq<string>
  {
    if f.number == roll && Unblocked(f.location, robber) then (if city then [f.hexType, f.hexType] else [f.hexType]) else []
  }

  /** What the tiles `fs` yield on `roll`, tile by tile. */
  function Yields(fs: seq<TileFacts>, roll: int, robber: Option<Point>, city: bool): seq<string>
  {
    if |fs| == 0 then [] else Yields(fs[..|fs| - 1], roll, robber, city) + TileYield(fs[|fs| - 1], roll, robber, city)
  }

  /** Only a tile with the rolled number, away from the robber, yields; a settlement gets at most one name per tile. */
  lemma {:induction false} YieldsSound(fs: seq<TileFacts>, roll: int, robber: Option<Point>, city: bool)
    ensures |Yields(fs, roll, robber, false)| <= |fs|
    ensures forall t :: t in Yields(fs, roll, robber, city) ==>
      exists i :: 0 <= i < |fs| && fs[i].hexType == t && fs[i].number == roll && Unblocked(fs[i].location, robber)
  {
    if |fs| > 0 {
      var init := fs[..|fs| - 1];
      YieldsSound(init, roll, robber, city);
      forall t | t in Yields(fs, roll, robber, city)
        ensures exists i :: 0 <= i < |fs| && fs[i].hexType == t && fs[i].number == roll && Unblocked(fs[i].location, robber)
      {
        if t in Yields(init, roll, robber, city) {
          var i :| 0 <= i < |init| && init[i].hexType == t && init[i].number == roll && Unblocked(init[i].location, robber);
          assert fs[i] == init[i];
        } else {
          assert fs[|fs| - 1].hexType == t;
        }
      }
    }
  }

  /** A city collects exactly twice the resources a settlement on the same spot collects. */
  lemma {:induction false} CityYieldsTwice(fs: seq<TileFacts>, roll: int, robber: Option<Point>)
    ensures Named(Yields(fs, roll, robber, true)) == 2 * Named(Yields(fs, roll, robber, false))
  {
    if |fs| > 0 {
      var init := fs[..|fs| - 1];
      CityYieldsTwice(init, roll, robber);
      var one := TileYield(fs[|fs| - 1], roll, robber, false);
      GainedAppend([0, 0, 0, 0, 0], Yields(init, roll, robber, false), one);
      GainedAppend([0, 0, 0, 0, 0], Yields(init, roll, robber, true), one + one);
      GainedAppend([0, 0, 0, 0, 0], one, one);
      assert TileYield(fs[|fs| - 1], roll, robber, true) == one + one;
    }
  }

  /**
   * The tiles `getAdjacentHexes` reports around `location`, reached only after
   * `delay` unfoldings, which keeps the tile probes out of the proofs that
   * only add yields up.
   */
  function Neighbors(board: Board, location: Point, delay: nat): (hs: seq<Hexagon>)
    reads board`tiles, board`robberLocation, board.tiles
    requires board.TilesValid()
    ensures forall k :: 0 <= k < |hs| ==> hs[k] in board.tiles
    decreases delay
  {
    if delay == 0 then
      board.AdjacentHexesUpToSound(location, 6);
      board.AdjacentHexes(location)
    else Neighbors(board, location, delay - 1)
  }

  /**
   * The board's card counts `counts` after player index `k`'s turn in a round
   * of `initPlacement`, against `counts0` before it: in the `second` round the
   * player's count rises by the `harvest` of its settlement; in the first no
   * count changes.
   */
  ghost predicate Gathered(counts0: seq<int>, counts: seq<int>, k: int, harvest: int, second: bool)
  {
    if second then 0 <= k < |counts0| && counts == counts0[k := counts0[k] + harvest] else counts == counts0
  }

  /** How many resources a second-round settlement at `location` brings in: one per adjacent tile that is not the desert. */
  ghost function Harvest(board: Board, location: Point): nat
    reads board`tiles, board`robberLocation, board.tiles
    requires board.TilesValid()
  {
    HarvestAfter(board, location, 2)
  }

  /** `Harvest`, reached only after `delay` unfoldings. */
  ghost function HarvestAfter(board: Board, location: Point, delay: nat): nat
    reads board`tiles, board`robberLocation, board.tiles
    requires board.TilesValid()
    decreases delay
  {
    if delay > 0 then HarvestAfter(board, location, delay - 1) else Named(TypesOf(Neighbors(board, location, 3)))
  }

  /** What `Harvest` gives, spelt out. */
  lemma HarvestDefinition(board: Board, location: Point)
    requires board.TilesValid()
    ensures Harvest(board, location) == Named(TypesOf(Neighbors(board, location, 3)))
  {
    assert HarvestAfter(board, location, 2) == HarvestAfter(board, location, 1) == HarvestAfter(board, location, 0);
  }

  /** What one building yields on `roll`: the names of its producing tiles, twice each for a city. */
  function BuildingYield(board: Board, location: Point, roll: int, city: bool): seq<string>
    reads board`tiles, board`robberLocation, board.tiles
    requires board.TilesValid()
  {
    YieldAfter(board, location, roll, city, 3)
  }

  /**
   * `BuildingYield`, reached only after `delay` unfoldings, which keeps the
   * tiles out of the proofs that only add yields up.
   */
  function YieldAfter(board: Board, location: Point, roll: int, city: bool, delay: nat): seq<string>
    reads board`tiles, board`robberLocation, board.tiles
    requires board.TilesValid()
    decreases delay
  {
    if delay == 0 then Yields(FactsOf(Neighbors(board, location, 3)), roll, board.robberLocation, city)
    else YieldAfter(board, location, roll, city, delay - 1)
  }

  /** What the buildings `bs` yield on `roll`, building by building. */
  function ListYield(board: Board, bs: seq<Building>, roll: int, city: bool): seq<string>
    reads board`tiles, board`robberLocation, board.tiles
    requires board.TilesValid()
  {
    if |bs| == 0 then []
    else ListYield(board, bs[..|bs| - 1], roll, city) + BuildingYield(board, bs[|bs| - 1].location, roll, city)
  }

  /** What player index `i` collects on `roll`: from its settlements, then from its cities. */
  function Production(board: Board, i: nat, roll: int): seq<string>
    reads board`settlements, board`cities, board`tiles, board`robberLocation, board.tiles
    requires board.TilesValid() && i < |board.settlements| && i < |board.cities|
  {
    ListYield(board, board.settlements[i], roll, false) + ListYield(board, board.cities[i], roll, true)
  }

  /** `getAdjacentHexes`, its result named by `Neighbors`. */
  method NeighborsOf(board: Board, location: Point) returns (hs: seq<Hexagon>)
    requires board.TilesValid()
    ensures hs == Neighbors(board, location, 3)
  {
    hs := board.GetAdjacentHexes(location);
    assert Neighbors(board, location, 3) == Neighbors(board, location, 2);
    assert Neighbors(board, location, 1) == Neighbors(board, location, 0);
  }

  /** The names one building collects: each adjacent tile with the rolled number away from the robber, once or twice. */
  method YieldAround(board: Board, location: Point, roll: int, city: bool) returns (ys: seq<string>)
    requires board.TilesValid()
    ensures ys == BuildingYield(board, location, roll, city)
  {
    var neighbors := NeighborsOf(board, location);
    ghost var facts := FactsOf(neighbors);
    assert YieldAfter(board, location, roll, city, 3) == YieldAfter(board, location, roll, city, 2);
    assert YieldAfter(board, location, roll, city, 1) == Yields(facts, roll, board.robberLocation, city);
    ys := [];
    var k := 0;
    while k < |neighbors|
      invariant 0 <= k <= |neighbors|
      invariant ys == Yields(facts[..k], roll, board.robberLocation, city)
    {
      YieldsSnoc(facts, k, roll, board.robberLocation, city);
      ys := ys + TileYield(FactOf(neighbors[k]), roll, board.robberLocation, city);
      k := k + 1;
    }
    assert facts[..k] == facts;
  }

  /** `Yields` of one more tile: the yield so far, then that tile's. */
  lemma YieldsSnoc(fs: seq<TileFacts>, k: int, roll: int, robber: Option<Point>, city: bool)
    requires 0 <= k < |fs|
    ensures Yields(fs[..k + 1], roll, robber, city) == Yields(fs[..k], roll, robber, city) + TileYield(fs[k], roll, robber, city)
  {
    assert fs[..k + 1][..k] == fs[..k];
  }

  /** The names the buildings `bs` collect, building by building. */
  method YieldOfList(board: Board, bs: seq<Building>, roll: int, city: bool) returns (ys: seq<string>)
    requires board.TilesValid()
    ensures ys == ListYield(board, bs, roll, city)
  {
    ys := [];
    var k := 0;
    while k < |bs|
      invariant 0 <= k <= |bs|
      invariant ys == ListYield(board, bs[..k], roll, city)
    {
      assert bs[..k + 1][..k] == bs[..k];
      var more := YieldAround(board, bs[k].location, roll, city);
      ys := ys + more;
      k := k + 1;
    }
    assert bs[..k] == bs;
  }

  /** `addResource` for each name in turn. */
  method GainAll(p: Player, ys: seq<string>)
    requires p.Valid()
    modifies p`resources, p.currentBoard`numResources
    ensures p.Valid()
    ensures p.resources == Gained(old(p.resources), ys)
    ensures p.currentBoard.numResources == old(p.currentBoard.numResources)[p.playerNum - 1 := old(p.currentBoard.numResources[p.playerNum - 1]) + Named(ys)]
  {
    ghost var board, i := p.currentBoard, p.playerNum - 1;
    ghost var res0, count0 := p.resources, board.numResources;
    var k := 0;
    while k < |ys|
      invariant 0 <= k <= |ys|
      invariant p.Valid() && p.currentBoard == board
      invariant p.resources == Gained(res0, ys[..k])
      invariant board.numResources == count0[i := count0[i] + Named(ys[..k])]
    {
      GainedStep(res0, ys[..k], ys[k]);
      assert ys[..k + 1] == ys[..k] + [ys[k]];
      p.AddResource(ys[k]);
      k := k + 1;
    }
    assert ys[..k] == ys;
  }

  /** What player index `i` collects on `roll`: its settlements' names, then its cities'. */
  method Collected(board: Board, i: nat, roll: int) returns (ys: seq<string>)
    requires board.TilesValid() && i < |board.settlements| && i < |board.cities|
    ensures ys == Production(board, i, roll)
  {
    var fromSettlements := YieldOfList(board, board.settlements[i], roll, false);
    var fromCities := YieldOfList(board, board.cities[i], roll, true);
    ys := fromSettlements + fromCities;
  }

  // ---------------------------------------------------------------------
  // Initial placement
  // ---------------------------------------------------------------------

  /**
   * The first half of a settlement of `initPlacement`: the player chooses a
   * location on the game's board and the board is asked to add a settlement
   * there, which it does only when the location is legal.
   */
  method SettleInitial(p: Player, board: Board, color: string, src: Source) returns (loc: Point, src': Source)
    requires Holds(p) && board.Valid() && board.numPlayers == p.numPlayers && |board.hexIntersections| > 0
    modifies p`currentBoard, p`tempTradeRates, board`settlements, board`playerScores
    ensures board.Valid()
    ensures p.Valid() && p.currentBoard == board
    ensures loc in board.hexIntersections
    ensures old(board.Legal(loc)) || forall j :: 0 <= j < |board.hexIntersections| ==> !old(board.Legal(board.hexIntersections[j]))
    ensures var pn, own := p.playerNum, old(board.settlements[p.playerNum - 1]);
      var added := old(board.Legal(loc)) && |own| < MaxSettlements;
      && board.settlements == (if added then old(board.settlements)[pn - 1 := own + [Building(loc, color, pn)]] else old(board.settlements))
      && board.playerScores == (if added then old(board.playerScores)[pn - 1 := old(board.playerScores[pn - 1]) + 1] else old(board.playerScores))
    ensures SettledAt(old(board.settlements), board.settlements, old(board.playerScores), board.playerScores,
                      p.playerNum - 1, Building(loc, color, p.playerNum), old(board.Legal(loc)))
    ensures old(board.Legal(loc) <==> ClearIn(board.settlements, board.cities, board.AdjacentIntersections(loc), loc))
    ensures unchanged(board`hexIntersections, board`tiles, board`robberLocation, board`ports) && unchanged(board.tiles)
  {
    loc, src' := PickSettlement(p, board, src);
    ghost var s0, sc0, pn := board.settlements, board.playerScores, p.playerNum;
    ghost var legal := board.Legal(loc);
    board.LegalOn(loc);
    board.AddSettlement(loc, color, p.playerNum, true);
    SettledOf(s0, board.settlements, sc0, board.playerScores, pn - 1, Building(loc, color, pn), legal);
  }

  /** The choice of `SettleInitial`: a legal location whenever the board has one. */
  method PickSettlement(p: Player, board: Board, src: Source) returns (loc: Point, src': Source)
    requires Holds(p) && board.Valid() && board.numPlayers == p.numPlayers && |board.hexIntersections| > 0
    modifies p`currentBoard, p`tempTradeRates
    ensures p.Valid() && p.currentBoard == board
    ensures loc in board.hexIntersections
    ensures board.Legal(loc) || forall j :: 0 <= j < |board.hexIntersections| ==> !board.Legal(board.hexIntersections[j])
  {
    ghost var pick, legal, values;
    loc, src', pick, legal, values := ChooseInitialSettlementLocation(p, board, src);
  }

  /**
   * The second half: the player counts the location's pips, scores a point
   * whether or not the board accepted the settlement, and takes on the power
   * of a port at the location.
   */
  method ClaimInitial(p: Player, loc: Point)
    requires p.Valid()
    modifies p`resourcePoints, p`score, p`tradeRates
    ensures p.Valid()
    ensures p.resourcePoints == old(Counted(p.currentBoard, p.resourcePoints, loc))
    ensures p.score == old(p.score) + 1
    ensures p.tradeRates == PortPower(old(p.tradeRates), old(p.currentBoard.PortTypeAt(loc)))
  {
    var newPortType := p.currentBoard.GetPortType(loc);
    p.UpdateResourcePoints(loc);
    p.score := p.score + 1;
    if newPortType != "" {
      p.GainPortPower(newPortType);
    } else {
      assert IndexAfter("", 2) == IndexAfter("", 1) == IndexAfter("", 0) == -1;
    }
  }

  /**
   * One road of `initPlacement`: a road from the settlement to a random
   * adjacent intersection.  With no adjacent intersection `randrange(0)`
   * raises ValueError: `false`.
   */
  method RoadInitial(p: Player, board: Board, loc: Point, color: string, src: Source) returns (ok: bool, src': Source, ghost end: Point)
    requires p.Valid() && p.currentBoard == board
    modifies board`roads
    ensures board.Valid()
    ensures p.Valid()
    ensures var adj := board.AdjacentIntersections(loc);
      && (ok <==> |adj| > 0)
      && (ok ==> end == adj[Below(src, |adj|).0] && src' == Below(src, |adj|).1)
    ensures ok ==> Builders.RoadAdded(old(board.roads), board.roads, DoublePoint(loc, end), color, p.playerNum, old(board.NoRoadBetween(loc, end)))
    ensures !ok ==> board.roads == old(board.roads) && src' == src
    ensures ok ==> RoadLaid(old(board.roads), board.roads, p.playerNum - 1, Road(loc, end, color, p.playerNum), old(board.NoRoadBetween(loc, end)))
  {
    var roadLocation;
    roadLocation, src' := ChooseInitialRoadLocation(p, loc, src);
    if roadLocation.None? {
      return false, src', loc;
    }
    end := roadLocation.value;
    board.AddRoad(loc, roadLocation.value, color, p.playerNum, true);
    ok := true;
    RoadLaidDefinition(old(board.roads), board.roads, p.playerNum - 1, Road(loc, end, color, p.playerNum), old(board.NoRoadBetween(loc, end)));
  }

  /** The resources of the second settlement: `addResource` of each adjacent tile's kind, in order. */
  method GainAround(p: Player, loc: Point)
    requires p.Valid()
    modifies p`resources, p.currentBoard`numResources
    ensures p.Valid()
    ensures p.resources == Gained(old(p.resources), old(TypesOf(Neighbors(p.currentBoard, loc, 3))))
    ensures Hand(old(p.resources)) ==> Hand(p.resources)
    ensures p.currentBoard.numResources ==
              old(p.currentBoard.numResources)[p.playerNum - 1 := old(p.currentBoard.numResources[p.playerNum - 1]) + Harvest(p.currentBoard, loc)]
  {
    var neighbors := NeighborsOf(p.currentBoard, loc);
    GainedGrows(p.resources, TypesOf(neighbors));
    GainAll(p, TypesOf(neighbors));
    CountGained(p.currentBoard, loc, p.playerNum - 1, TypesOf(neighbors));
  }

  /** A count raised by the names of the tiles around `loc` is raised by its `Harvest`, while the tiles and the robber stay. */
  twostate lemma CountGained(board: Board, new loc: Point, new i: int, new ts: seq<string>)
    requires unchanged(board`tiles, board`robberLocation) && unchanged(board.tiles) && old(board.TilesValid())
    requires ts == old(TypesOf(Neighbors(board, loc, 3))) && 0 <= i < |old(board.numResources)|
    requires board.numResources == old(board.numResources)[i := old(board.numResources[i]) + Named(ts)]
    ensures board.TilesValid()
    ensures board.numResources == old(board.numResources)[i := old(board.numResources[i]) + Harvest(board, loc)]
  {
    HarvestDefinition(board, loc);
  }

  /**
   * One player's turn in either round of `initPlacement`: a settlement, its
   * pips, a point, a port, the resources around it in the second round, and
   * a road.  `false` when `randrange(0)` raises in the choice of the road.
   */
  method PlaceInitial(p: Player, board: Board, color: string, second: bool, src: Source)
    returns (ok: bool, src': Source, loc: Point, ghost end: Point)
    requires Holds(p) && board.Valid() && board.numPlayers == p.numPlayers && |board.hexIntersections| > 0
    modifies p`currentBoard, p`tempTradeRates, p`resourcePoints, p`score, p`tradeRates, p`resources
    modifies board`settlements, board`playerScores, board`roads, board`numResources
    ensures board.Valid()
    ensures p.Valid() && p.currentBoard == board && Hand(p.resources)
    ensures loc in board.hexIntersections
    ensures old(board.Legal(loc)) || forall j :: 0 <= j < |board.hexIntersections| ==> !old(board.Legal(board.hexIntersections[j]))
    ensures SettledAt(old(board.settlements), board.settlements, old(board.playerScores), board.playerScores,
                      p.playerNum - 1, Building(loc, color, p.playerNum), old(board.Legal(loc)))
    ensures old(board.Legal(loc) <==> ClearIn(board.settlements, board.cities, board.AdjacentIntersections(loc), loc))
    ensures board.TilesValid() && StandingOf(p) == Claimed(board, old(StandingOf(p)), loc, second)
    ensures Gathered(old(board.numResources), board.numResources, p.playerNum - 1, Harvest(board, loc), second)
    ensures ok <==> |board.AdjacentIntersections(loc)| > 0
    ensures ok ==> end in board.AdjacentIntersections(loc)
    ensures ok ==> RoadLaid(old(board.roads), board.roads, p.playerNum - 1, Road(loc, end, color, p.playerNum), old(board.NoRoadBetween(loc, end)))
    ensures !ok ==> board.roads == old(board.roads)
    ensures unchanged(board`hexIntersections, board`tiles, board`robberLocation, board`ports, board`cities) && unchanged(board.tiles)
  {
    ghost var before := StandingOf(p);
    loc, src' := SettleAndClaim(p, board, color, second, src);
    label BeforeRoad:
    ok, src', end := RoadInitial(p, board, loc, color, src');
    RoadKept@BeforeRoad(board, loc, second, before);
  }

  /** What the settlement of a turn fixed stays fixed while only the roads change. */
  twostate lemma RoadKept(board: Board, new loc: Point, new second: bool, new standing: Standing)
    requires unchanged(board`hexIntersections, board`tiles, board`robberLocation, board`ports) && unchanged(board.tiles)
    requires old(board.TilesValid()) && |standing.points| == Kinds && |standing.rates| == Kinds
    ensures board.TilesValid()
    ensures board.AdjacentIntersections(loc) == old(board.AdjacentIntersections(loc))
    ensures Claimed(board, standing, loc, second) == old(Claimed(board, standing, loc, second))
    ensures Harvest(board, loc) == old(Harvest(board, loc))
  {
  }

  /** The settlement half of `PlaceInitial`: the settlement, its pips, its point, its port and, in the second round, its resources. */
  method SettleAndClaim(p: Player, board: Board, color: string, second: bool, src: Source) returns (loc: Point, src': Source)
    requires Holds(p) && board.Valid() && board.numPlayers == p.numPlayers && |board.hexIntersections| > 0
    modifies p`currentBoard, p`tempTradeRates, p`resourcePoints, p`score, p`tradeRates, p`resources
    modifies board`settlements, board`playerScores, board`numResources
    ensures board.Valid()
    ensures p.Valid() && p.currentBoard == board && Hand(p.resources)
    ensures loc in board.hexIntersections
    ensures old(board.Legal(loc)) || forall j :: 0 <= j < |board.hexIntersections| ==> !old(board.Legal(board.hexIntersections[j]))
    ensures SettledAt(old(board.settlements), board.settlements, old(board.playerScores), board.playerScores,
                      p.playerNum - 1, Building(loc, color, p.playerNum), old(board.Legal(loc)))
    ensures old(board.Legal(loc) <==> ClearIn(board.settlements, board.cities, board.AdjacentIntersections(loc), loc))
    ensures board.TilesValid() && StandingOf(p) == Claimed(board, old(StandingOf(p)), loc, second)
    ensures Gathered(old(board.numResources), board.numResources, p.playerNum - 1, Harvest(board, loc), second)
    ensures unchanged(board`hexIntersections, board`tiles, board`robberLocation, board`ports, board`cities, board`roads) && unchanged(board.tiles)
  {
    loc, src' := SettleInitial(p, board, color, src);
    ClaimAndGain(p, loc, second);
  }

  /** The claim of the settlement at `loc` and, in the second round, the resources around it. */
  method ClaimAndGain(p: Player, loc: Point, second: bool)
    requires p.Valid() && Hand(p.resources)
    modifies p`resourcePoints, p`score, p`tradeRates, p`resources, p.currentBoard`numResources
    ensures p.Valid() && Hand(p.resources)
    ensures StandingOf(p) == Claimed(p.currentBoard, old(StandingOf(p)), loc, second)
    ensures Gathered(old(p.currentBoard.numResources), p.currentBoard.numResources, p.playerNum - 1, Harvest(p.currentBoard, loc), second)
  {
    ghost var before := StandingOf(p);
    ClaimInitial(p, loc);
    if second {
      GainAround(p, loc);
      ClaimedFrom(p.currentBoard, before, loc, true);
    } else {
      ClaimedFrom(p.currentBoard, before, loc, false);
    }
  }

  /**
   * A player's pieces after its turn in a round, against its lists and score
   * before: the settlement `s`, with a point, appended exactly when its place
   * was clear (`legal`) and the player had fewer than five settlements, and
   * the road `r` exactly when no road joined its ends yet (`free`) and the
   * player had fewer than fifteen roads.
   */
  ghost predicate Took(settlements0: seq<Building>, settlements: seq<Building>, score0: int, score: int,
                       roads0: seq<Road>, roads: seq<Road>, s: Building, r: Road, legal: bool, free: bool)
  {
    && settlements == (if legal && |settlements0| < MaxSettlements then settlements0 + [s] else settlements0)
    && score == score0 + |settlements| - |settlements0|
    && roads == (if free && |roads0| < MaxRoads then roads0 + [r] else roads0)
  }

  /** What a player holds of its own: its hand, its score, its pip counters and its trade rates. */
  datatype Standing = Standing(resources: seq<int>, score: int, points: seq<int>, rates: seq<int>)

  /** The standing of `p`. */
  ghost function StandingOf(p: Player): Standing
    reads p`resources, p`score, p`resourcePoints, p`tradeRates
  {
    Standing(p.resources, p.score, p.resourcePoints, p.tradeRates)
  }

  /**
   * A player's standing after its settlement of `initPlacement` at `loc` on
   * `board`, from `before`: in the second round the kinds of the tiles around
   * it added to the hand, a point, the tiles' pips counted and the power of
   * a port at `loc` taken on.
   */
  ghost function Claimed(board: Board, before: Standing, loc: Point, second: bool): (after: Standing)
    reads board`tiles, board`robberLocation, board`ports, board.tiles
    requires board.TilesValid() && |before.points| == Kinds && |before.rates| == Kinds
    ensures |after.points| == Kinds && |after.rates| == Kinds
    ensures after.score == before.score + 1
    ensures !second ==> after.resources == before.resources
  {
    ClaimedAfter(board, before, loc, second, 2)
  }

  /** `Claimed`, reached only after `delay` unfoldings. */
  ghost function ClaimedAfter(board: Board, before: Standing, loc: Point, second: bool, delay: nat): (after: Standing)
    reads board`tiles, board`robberLocation, board`ports, board.tiles
    requires board.TilesValid() && |before.points| == Kinds && |before.rates| == Kinds
    ensures |after.points| == Kinds && |after.rates| == Kinds
    ensures after.score == before.score + 1
    ensures !second ==> after.resources == before.resources
    decreases delay
  {
    if delay > 0 then ClaimedAfter(board, before, loc, second, delay - 1)
    else
      CountedDefinition(board, before.points, loc);
      Standing(if second then Gained(before.resources, TypesOf(Neighbors(board, loc, 3))) else before.resources,
               before.score + 1, Counted(board, before.points, loc), PortPower(before.rates, board.PortTypeAt(loc)))
  }

  /** What `Claimed` gives, spelt out. */
  lemma ClaimedDefinition(board: Board, before: Standing, loc: Point, second: bool)
    requires board.TilesValid() && |before.points| == Kinds && |before.rates| == Kinds
    ensures Claimed(board, before, loc, second) ==
      Standing(if second then Gained(before.resources, TypesOf(Neighbors(board, loc, 3))) else before.resources,
               before.score + 1, Counted(board, before.points, loc), PortPower(before.rates, board.PortTypeAt(loc)))
  {
    assert ClaimedAfter(board, before, loc, second, 2) == ClaimedAfter(board, before, loc, second, 1)
        == ClaimedAfter(board, before, loc, second, 0);
  }

  /**
   * The choice of player `me` on `b` from the draws `src`: the player to rob
   * as `getPlayerToRob` picks it (the highest score plus jitter among the
   * robbable players, the first of equals, or -1 when none is above 0), and
   * the location `getPointToBlock` draws among the best spots around that
   * player's buildings, taken in the order `arrange` gives, the draws going
   * on from `src'`.
   */
  ghost predicate Chosen(b: Board, me: int, src: Source, arrange: seq<Spot> -> seq<int>, playerToRob: int, loc: Option<Point>, src': Source)
    reads b, b.tiles
  {
    && b.TilesValid()
    && RobChoice(b.numResources, b.playerScores, me, src, playerToRob)
    && BlockChoice(b, me, playerToRob, arrange(Dedup(BlockCandidates(b, playerToRob), SameSpot)),
                   Source(src.draws, src.used + |b.playerScores|), loc, src')
  }

  /** `getPlayerToRob` and then `getPointToBlock` for the player `p`. */
  method ChooseFor(p: Player, src: Source, arrange: seq<Spot> -> seq<int>) returns (playerToRob: int, loc: Option<Point>, src': Source)
    requires p.Valid()
    requires forall xs: seq<Spot> :: IsPermutation(arrange(xs), |xs|)
    ensures Chosen(p.currentBoard, p.playerNum, src, arrange, playerToRob, loc, src')
    ensures loc.Some? ==> 1 <= playerToRob <= |p.currentBoard.playerScores| && playerToRob != p.playerNum
    ensures src'.draws == src.draws
  {
    playerToRob, src' := GetPlayerToRob(p, src);
    ghost var mid := src';
    var order := arrange(Dedup(BlockCandidates(p.currentBoard, playerToRob), SameSpot));
    loc, src' := GetPointToBlock(p, playerToRob, order, src');
    ChoiceMade(p.currentBoard, p.playerNum, src, arrange, playerToRob, order, mid, loc, src');
  }

  /**
   * The two choices make up `Chosen`, and there is a location only when there
   * is a player to rob.
   */
  lemma ChoiceMade(b: Board, me: int, src: Source, arrange: seq<Spot> -> seq<int>, playerToRob: int, order: seq<int>,
                   mid: Source, loc: Option<Point>, src': Source)
    requires b.Valid() && 1 <= me <= |b.playerScores|
    requires RobChoice(b.numResources, b.playerScores, me, src, playerToRob)
    requires order == arrange(Dedup(BlockCandidates(b, playerToRob), SameSpot))
    requires mid == Source(src.draws, src.used + |b.playerScores|)
    requires BlockChoice(b, me, playerToRob, order, mid, loc, src')
    ensures Chosen(b, me, src, arrange, playerToRob, loc, src')
    ensures loc.Some? ==> 1 <= playerToRob <= |b.playerScores| && playerToRob != me
  {
    if playerToRob == -1 {
      NobodyToBlock(b, me, order);
      BlockChoiceDefinition(b, me, playerToRob, order, Source(src.draws, src.used + |b.playerScores|), loc, src');
    } else {
      RobChoiceDefinition(b.numResources, b.playerScores, me, src, playerToRob);
    }
  }

  /**
   * Player index `k`'s settlement lists and scores `s`, `sc` after its
   * settlement `b`, against `s0`, `sc0`: appended to its list, with a point,
   * exactly when its place was clear (`legal`) and the player had fewer than
   * five settlements; no other list or score changed.
   */
  ghost predicate SettledAt(s0: seq<seq<Building>>, s: seq<seq<Building>>, sc0: seq<int>, sc: seq<int>, k: int, b: Building, legal: bool)
  {
    SettledAtAfter(s0, s, sc0, sc, k, b, legal, 2)
  }

  /** `SettledAt`, reached only after `delay` unfoldings. */
  ghost predicate SettledAtAfter(s0: seq<seq<Building>>, s: seq<seq<Building>>, sc0: seq<int>, sc: seq<int>, k: int, b: Building,
                                 legal: bool, delay: nat)
    decreases delay
  {
    if delay > 0 then SettledAtAfter(s0, s, sc0, sc, k, b, legal, delay - 1)
    else
      && 0 <= k < |s0| && k < |sc0| && |s| == |s0| && |sc| == |sc0|
      && s == s0[k := s[k]] && sc == sc0[k := sc[k]]
      && s[k] == (if legal && |s0[k]| < MaxSettlements then s0[k] + [b] else s0[k])
      && sc[k] == sc0[k] + |s[k]| - |s0[k]|
  }

  /** What `SettledAt` says, spelt out. */
  lemma SettledAtDefinition(s0: seq<seq<Building>>, s: seq<seq<Building>>, sc0: seq<int>, sc: seq<int>, k: int, b: Building, legal: bool)
    ensures SettledAt(s0, s, sc0, sc, k, b, legal) <==>
      && 0 <= k < |s0| && k < |sc0| && |s| == |s0| && |sc| == |sc0|
      && s == s0[k := s[k]] && sc == sc0[k := sc[k]]
      && s[k] == (if legal && |s0[k]| < MaxSettlements then s0[k] + [b] else s0[k])
      && sc[k] == sc0[k] + |s[k]| - |s0[k]|
  {
    assert SettledAtAfter(s0, s, sc0, sc, k, b, legal, 2) == SettledAtAfter(s0, s, sc0, sc, k, b, legal, 1)
        == SettledAtAfter(s0, s, sc0, sc, k, b, legal, 0);
  }

  /** `addSettlement`'s outcome on a place that is clear exactly when `legal` is `SettledAt`. */
  lemma SettledOf(s0: seq<seq<Building>>, s: seq<seq<Building>>, sc0: seq<int>, sc: seq<int>, k: int, b: Building, legal: bool)
    requires 0 <= k < |s0| && k < |sc0|
    requires var added := legal && |s0[k]| < MaxSettlements;
      && s == (if added then s0[k := s0[k] + [b]] else s0)
      && sc == (if added then sc0[k := sc0[k] + 1] else sc0)
    ensures SettledAt(s0, s, sc0, sc, k, b, legal)
  {
    SettledAtDefinition(s0, s, sc0, sc, k, b, legal);
  }

  /**
   * Player index `k`'s road lists `r` after its road `rd`, against `r0`:
   * appended to its list exactly when no road joined its ends (`free`) and
   * the player had fewer than fifteen roads; no other list changed.
   */
  ghost predicate RoadLaid(r0: seq<seq<Road>>, r: seq<seq<Road>>, k: int, rd: Road, free: bool)
  {
    RoadLaidAfter(r0, r, k, rd, free, 2)
  }

  /** `RoadLaid`, reached only after `delay` unfoldings. */
  ghost predicate RoadLaidAfter(r0: seq<seq<Road>>, r: seq<seq<Road>>, k: int, rd: Road, free: bool, delay: nat)
    decreases delay
  {
    if delay > 0 then RoadLaidAfter(r0, r, k, rd, free, delay - 1)
    else
      && 0 <= k < |r0| && |r| == |r0| && r == r0[k := r[k]]
      && r[k] == (if free && |r0[k]| < MaxRoads then r0[k] + [rd] else r0[k])
  }

  /** What `RoadLaid` says, spelt out. */
  lemma RoadLaidDefinition(r0: seq<seq<Road>>, r: seq<seq<Road>>, k: int, rd: Road, free: bool)
    ensures RoadLaid(r0, r, k, rd, free) <==>
      && 0 <= k < |r0| && |r| == |r0| && r == r0[k := r[k]]
      && r[k] == (if free && |r0[k]| < MaxRoads then r0[k] + [rd] else r0[k])
  {
    assert RoadLaidAfter(r0, r, k, rd, free, 2) == RoadLaidAfter(r0, r, k, rd, free, 1) == RoadLaidAfter(r0, r, k, rd, free, 0);
  }

  /** The colours of the second round of `initPlacement`, by player index: the round's counter runs against the players. */
  const SecondColors: seq<string> := ["orange", "white", "blue", "red"]

  /**
   * Lists as they stood while only the players of indices `a` to `b - 1`
   * had taken their turn in a round: those players' lists from `s`, the
   * others' from `s0`.
   */
  ghost function Midway<T>(s0: seq<seq<T>>, s: seq<seq<T>>, a: int, b: int): (m: seq<seq<T>>)
    requires |s| == |s0|
    ensures |m| == |s0| && forall j :: 0 <= j < |s0| ==> m[j] == if a <= j < b then s[j] else s0[j]
  {
    seq(|s0|, j requires 0 <= j < |s0| => if a <= j < b then s[j] else s0[j])
  }

  /** A turn of player index `j` does not change the lists as they stood midway through players other than `j`. */
  lemma MidwayUpdate<T>(s0: seq<seq<T>>, s: seq<seq<T>>, s': seq<seq<T>>, j: int)
    requires |s| == |s0| == |s'| && 0 <= j < |s| && s' == s[j := s'[j]]
    ensures forall a, b :: !(a <= j < b) ==> Midway(s0, s', a, b) == Midway(s0, s, a, b)
  {
    forall a, b | !(a <= j < b)
      ensures Midway(s0, s', a, b) == Midway(s0, s, a, b)
    {
    }
  }

  /** Midway through all the players who changed anything is where the round stands. */
  lemma MidwayWhole<T>(s0: seq<seq<T>>, s: seq<seq<T>>, a: int, b: int)
    requires |s| == |s0| && forall j :: 0 <= j < |s0| && !(a <= j < b) ==> s[j] == s0[j]
    ensures Midway(s0, s, a, b) == s
  {
  }

  /**
   * The board's lists and scores `s`, `sc`, `r` after the players of indices
   * `lo` to `hi - 1` took their turns in a round from `s0`, `sc0`, `r0`, in
   * increasing order when `up` and decreasing otherwise: player index `k`
   * chose `locs[k]`, next to the intersections `adjs[k]`, and a road to
   * `ends[k]`, both in `colors[k]`, and the board took each piece exactly
   * when it was allowed on the lists as they stood at that turn (`Took`);
   * every other list and score is as before.  `cities` are the cities,
   * which no turn changes.
   */
  ghost predicate RoundTook(s0: seq<seq<Building>>, s: seq<seq<Building>>, sc0: seq<int>, sc: seq<int>,
                            r0: seq<seq<Road>>, r: seq<seq<Road>>, cities: seq<seq<Building>>, adjs: seq<seq<Point>>,
                            locs: seq<Point>, ends: seq<Point>, colors: seq<string>, up: bool, lo: int, hi: int)
  {
    RoundTookAfter(s0, s, sc0, sc, r0, r, cities, adjs, locs, ends, colors, up, lo, hi, 2)
  }

  /**
   * Player index `k`'s turn in a round that started at index `start`, going
   * up from it when `up` and down to it otherwise: its pieces were taken as
   * `Took` says, judged on the lists as they stood when the players between
   * `start` and `k` had played.
   */
  ghost predicate TurnTook(s0: seq<seq<Building>>, s: seq<seq<Building>>, sc0: seq<int>, sc: seq<int>,
                           r0: seq<seq<Road>>, r: seq<seq<Road>>, cities: seq<seq<Building>>, adjs: seq<seq<Point>>,
                           locs: seq<Point>, ends: seq<Point>, colors: seq<string>, up: bool, start: int, k: int)
    requires |s0| == |s| == |r0| == |r| && |sc0| == |sc| && |locs| == |ends| == |colors| == |adjs|
    requires 0 <= k < |s| && k < |sc| && k < |locs|
  {
    var a, b := if up then start else k + 1, if up then k else start;
    Took(s0[k], s[k], sc0[k], sc[k], r0[k], r[k], Building(locs[k], colors[k], k + 1), Road(locs[k], ends[k], colors[k], k + 1),
         ClearIn(Midway(s0, s, a, b), cities, adjs[k], locs[k]), NoRoadIn(Midway(r0, r, a, b), locs[k], ends[k]))
  }

  /** An earlier turn of the round stays as it was taken when player index `j`, outside the lists it was judged on, plays. */
  lemma TurnKept(s0: seq<seq<Building>>, s: seq<seq<Building>>, s': seq<seq<Building>>,
                 sc0: seq<int>, sc: seq<int>, sc': seq<int>, r0: seq<seq<Road>>, r: seq<seq<Road>>, r': seq<seq<Road>>,
                 cities: seq<seq<Building>>, adjs: seq<seq<Point>>, locs: seq<Point>, ends: seq<Point>, colors: seq<string>,
                 up: bool, start: int, k: int, j: int, adj: seq<Point>, loc: Point, end: Point)
    requires |s0| == |s| == |s'| == |r0| == |r| == |r'| && |sc0| == |sc| == |sc'| && |locs| == |ends| == |colors| == |adjs|
    requires 0 <= k < |s| && k < |sc| && k < |locs| && 0 <= j < |s| && j < |sc| && j < |locs| && j != k
    requires if up then start <= k < j else j < k < start
    requires s' == s[j := s'[j]] && sc' == sc[j := sc'[j]] && r' == r[j := r'[j]]
    requires TurnTook(s0, s, sc0, sc, r0, r, cities, adjs, locs, ends, colors, up, start, k)
    ensures TurnTook(s0, s', sc0, sc', r0, r', cities, adjs[j := adj], locs[j := loc], ends[j := end], colors, up, start, k)
  {
    MidwayUpdate(s0, s, s', j);
    MidwayUpdate(r0, r, r', j);
  }

  /** The turns of the players `lo` to `hi - 1` stay as they were taken when player index `j`, who comes after them, plays. */
  lemma TurnsKept(s0: seq<seq<Building>>, s: seq<seq<Building>>, s': seq<seq<Building>>,
                  sc0: seq<int>, sc: seq<int>, sc': seq<int>, r0: seq<seq<Road>>, r: seq<seq<Road>>, r': seq<seq<Road>>,
                  cities: seq<seq<Building>>, adjs: seq<seq<Point>>, locs: seq<Point>, ends: seq<Point>, colors: seq<string>,
                  up: bool, start: int, lo: int, hi: int, j: int,
                  adjs': seq<seq<Point>>, locs': seq<Point>, ends': seq<Point>)
    requires |s0| == |s| == |s'| == |r0| == |r| == |r'| && |sc0| == |sc| == |sc'| && |locs| == |ends| == |colors| == |adjs|
    requires 0 <= lo <= hi <= |s| && hi <= |sc| && hi <= |locs| && 0 <= j < |s| && j < |sc| && j < |locs|
    requires if up then start <= lo && hi <= j else j < lo && hi <= start
    requires s' == s[j := s'[j]] && sc' == sc[j := sc'[j]] && r' == r[j := r'[j]]
    requires |adjs'| == |adjs| && |locs'| == |locs| && |ends'| == |ends|
    requires adjs' == adjs[j := adjs'[j]] && locs' == locs[j := locs'[j]] && ends' == ends[j := ends'[j]]
    requires forall k :: lo <= k < hi ==> TurnTook(s0, s, sc0, sc, r0, r, cities, adjs, locs, ends, colors, up, start, k)
    ensures forall k :: lo <= k < hi ==> TurnTook(s0, s', sc0, sc', r0, r', cities, adjs', locs', ends', colors, up, start, k)
  {
    forall k | lo <= k < hi
      ensures TurnTook(s0, s', sc0, sc', r0, r', cities, adjs', locs', ends', colors, up, start, k)
    {
      TurnKept(s0, s, s', sc0, sc, sc', r0, r, r', cities, adjs, locs, ends, colors, up, start, k, j, adjs'[j], locs'[j], ends'[j]);
    }
  }

  /** The turn of player index `j`, judged on the lists `s`, `r` as they stand when it comes, is taken as `TurnTook` says. */
  lemma TurnNew(s0: seq<seq<Building>>, s: seq<seq<Building>>, s': seq<seq<Building>>,
                sc0: seq<int>, sc: seq<int>, sc': seq<int>, r0: seq<seq<Road>>, r: seq<seq<Road>>, r': seq<seq<Road>>,
                cities: seq<seq<Building>>, adjs: seq<seq<Point>>, locs: seq<Point>, ends: seq<Point>, colors: seq<string>,
                up: bool, start: int, j: int, adj: seq<Point>, loc: Point, end: Point)
    requires |s0| == |s| == |r0| == |r| && |sc0| == |sc| && |locs| == |ends| == |colors| == |adjs|
    requires 0 <= j < |s| && j < |sc| && j < |locs|
    requires var a, b := if up then start else j + 1, if up then j else start;
      Midway(s0, s, a, b) == s && Midway(r0, r, a, b) == r
    requires s0[j] == s[j] && sc0[j] == sc[j] && r0[j] == r[j]
    requires SettledAt(s, s', sc, sc', j, Building(loc, colors[j], j + 1), ClearIn(s, cities, adj, loc))
    requires RoadLaid(r, r', j, Road(loc, end, colors[j], j + 1), NoRoadIn(r, loc, end))
    ensures |s'| == |s| && |sc'| == |sc| && |r'| == |r|
    ensures TurnTook(s0, s', sc0, sc', r0, r', cities, adjs[j := adj], locs[j := loc], ends[j := end], colors, up, start, j)
  {
    SettledAtDefinition(s, s', sc, sc', j, Building(loc, colors[j], j + 1), ClearIn(s, cities, adj, loc));
    RoadLaidDefinition(r, r', j, Road(loc, end, colors[j], j + 1), NoRoadIn(r, loc, end));
    MidwayUpdate(s0, s, s', j);
    MidwayUpdate(r0, r, r', j);
  }

  /**
   * `RoundTook`, reached only after `delay` unfoldings, which keeps its
   * quantifiers out of the loops that only pass it on.
   */
  ghost predicate RoundTookAfter(s0: seq<seq<Building>>, s: seq<seq<Building>>, sc0: seq<int>, sc: seq<int>,
                                 r0: seq<seq<Road>>, r: seq<seq<Road>>, cities: seq<seq<Building>>, adjs: seq<seq<Point>>,
                                 locs: seq<Point>, ends: seq<Point>, colors: seq<string>, up: bool, lo: int, hi: int, delay: nat)
    decreases delay
  {
    if delay > 0 then RoundTookAfter(s0, s, sc0, sc, r0, r, cities, adjs, locs, ends, colors, up, lo, hi, delay - 1)
    else
      && 0 <= lo <= hi <= NumPlayers
      && |s0| == |s| == |r0| == |r| == NumPlayers + 1 && |sc0| == |sc| == NumPlayers
      && |locs| == |ends| == |colors| == |adjs| == NumPlayers
      && (up ==> forall k :: lo <= k < hi ==> TurnTook(s0, s, sc0, sc, r0, r, cities, adjs, locs, ends, colors, true, lo, k))
      && (!up ==> forall k :: lo <= k < hi ==> TurnTook(s0, s, sc0, sc, r0, r, cities, adjs, locs, ends, colors, false, hi, k))
      && (forall k :: 0 <= k <= NumPlayers && !(lo <= k < hi) ==> s[k] == s0[k] && r[k] == r0[k])
      && (forall k :: 0 <= k < NumPlayers && !(lo <= k < hi) ==> sc[k] == sc0[k])
  }

  /** What `RoundTook` says, spelt out. */
  lemma RoundTookDefinition(s0: seq<seq<Building>>, s: seq<seq<Building>>, sc0: seq<int>, sc: seq<int>,
                            r0: seq<seq<Road>>, r: seq<seq<Road>>, cities: seq<seq<Building>>, adjs: seq<seq<Point>>,
                            locs: seq<Point>, ends: seq<Point>, colors: seq<string>, up: bool, lo: int, hi: int)
    ensures RoundTook(s0, s, sc0, sc, r0, r, cities, adjs, locs, ends, colors, up, lo, hi) <==>
      && 0 <= lo <= hi <= NumPlayers
      && |s0| == |s| == |r0| == |r| == NumPlayers + 1 && |sc0| == |sc| == NumPlayers
      && |locs| == |ends| == |colors| == |adjs| == NumPlayers
      && (up ==> forall k :: lo <= k < hi ==> TurnTook(s0, s, sc0, sc, r0, r, cities, adjs, locs, ends, colors, true, lo, k))
      && (!up ==> forall k :: lo <= k < hi ==> TurnTook(s0, s, sc0, sc, r0, r, cities, adjs, locs, ends, colors, false, hi, k))
      && (forall k :: 0 <= k <= NumPlayers && !(lo <= k < hi) ==> s[k] == s0[k] && r[k] == r0[k])
      && (forall k :: 0 <= k < NumPlayers && !(lo <= k < hi) ==> sc[k] == sc0[k])
  {
    assert RoundTookAfter(s0, s, sc0, sc, r0, r, cities, adjs, locs, ends, colors, up, lo, hi, 2)
        == RoundTookAfter(s0, s, sc0, sc, r0, r, cities, adjs, locs, ends, colors, up, lo, hi, 1)
        == RoundTookAfter(s0, s, sc0, sc, r0, r, cities, adjs, locs, ends, colors, up, lo, hi, 0);
  }

  /** No turn taken yet: the lists are as they were. */
  lemma RoundStart(s: seq<seq<Building>>, sc: seq<int>, r: seq<seq<Road>>, cities: seq<seq<Building>>, adjs: seq<seq<Point>>,
                   locs: seq<Point>, ends: seq<Point>, colors: seq<string>, up: bool, at: int)
    requires |s| == |r| == NumPlayers + 1 && |sc| == NumPlayers && |locs| == |ends| == |colors| == |adjs| == NumPlayers
    requires 0 <= at <= NumPlayers
    ensures RoundTook(s, s, sc, sc, r, r, cities, adjs, locs, ends, colors, up, at, at)
  {
    RoundTookDefinition(s, s, sc, sc, r, r, cities, adjs, locs, ends, colors, up, at, at);
  }

  /**
   * One more player's turn, just after the players of `RoundTook` when `up`
   * and just before them otherwise, extends it: the place was judged on the
   * lists as they stood, `s` and `r`.
   */
  lemma RoundStep(s0: seq<seq<Building>>, s: seq<seq<Building>>, s': seq<seq<Building>>,
                  sc0: seq<int>, sc: seq<int>, sc': seq<int>, r0: seq<seq<Road>>, r: seq<seq<Road>>, r': seq<seq<Road>>,
                  cities: seq<seq<Building>>, adjs: seq<seq<Point>>, locs: seq<Point>, ends: seq<Point>, colors: seq<string>,
                  up: bool, lo: int, hi: int, j: int, loc: Point, end: Point, adj: seq<Point>)
    requires RoundTook(s0, s, sc0, sc, r0, r, cities, adjs, locs, ends, colors, up, lo, hi)
    requires |colors| == NumPlayers
    requires if up then j == hi < NumPlayers else 0 <= j == lo - 1
    requires SettledAt(s, s', sc, sc', j, Building(loc, colors[j], j + 1), ClearIn(s, cities, adj, loc))
    requires RoadLaid(r, r', j, Road(loc, end, colors[j], j + 1), NoRoadIn(r, loc, end))
    ensures RoundTook(s0, s', sc0, sc', r0, r', cities, adjs[j := adj], locs[j := loc], ends[j := end], colors, up,
                      if up then lo else j, if up then hi + 1 else hi)
  {
    var lo', hi' := if up then lo else j, if up then hi + 1 else hi;
    RoundTookDefinition(s0, s, sc0, sc, r0, r, cities, adjs, locs, ends, colors, up, lo, hi);
    SettledAtDefinition(s, s', sc, sc', j, Building(loc, colors[j], j + 1), ClearIn(s, cities, adj, loc));
    RoadLaidDefinition(r, r', j, Road(loc, end, colors[j], j + 1), NoRoadIn(r, loc, end));
    MidwayWhole(s0, s, lo, hi);
    MidwayWhole(r0, r, lo, hi);
    var adjs', locs', ends' := adjs[j := adj], locs[j := loc], ends[j := end];
    var start := if up then lo else hi;
    TurnsKept(s0, s, s', sc0, sc, sc', r0, r, r', cities, adjs, locs, ends, colors, up, start, lo, hi, j, adjs', locs', ends');
    TurnNew(s0, s, s', sc0, sc, sc', r0, r, r', cities, adjs, locs, ends, colors, up, start, j, adj, loc, end);
    RoundTookDefinition(s0, s', sc0, sc', r0, r', cities, adjs', locs', ends', colors, up, lo', hi');
  }

  /**
   * Both rounds of `initPlacement` on a board without pieces: player index
   * `k` ends with the settlements, one point each, and the roads the board took
   * in the two rounds, in order.  A player whose place was clear when its
   * turn came gets that settlement, and one whose road joined two points no
   * road joined yet gets that road; so a player with both places clear has
   * two settlements and two points from them.
   */
  lemma BothRounds(s0: seq<seq<Building>>, s1: seq<seq<Building>>, s2: seq<seq<Building>>,
                   sc0: seq<int>, sc1: seq<int>, sc2: seq<int>, r0: seq<seq<Road>>, r1: seq<seq<Road>>, r2: seq<seq<Road>>,
                   cities: seq<seq<Building>>, adjs1: seq<seq<Point>>, adjs2: seq<seq<Point>>,
                   locs1: seq<Point>, ends1: seq<Point>, locs2: seq<Point>, ends2: seq<Point>, k: int)
    requires |s0| == |s1| == |s2| == |r0| == |r1| == |r2| == NumPlayers + 1 && |sc0| == |sc2| == NumPlayers
    requires |locs1| == |ends1| == |adjs1| == |locs2| == |ends2| == |adjs2| == NumPlayers
    requires RoundTook(s0, s1, sc0, sc1, r0, r1, cities, adjs1, locs1, ends1, PlayerColors, true, 0, NumPlayers)
    requires RoundTook(s1, s2, sc1, sc2, r1, r2, cities, adjs2, locs2, ends2, SecondColors, false, 0, NumPlayers)
    requires 0 <= k < NumPlayers && s0[k] == [] && r0[k] == []
    ensures
      var legal1, legal2 := ClearIn(Midway(s0, s1, 0, k), cities, adjs1[k], locs1[k]),
                            ClearIn(Midway(s1, s2, k + 1, NumPlayers), cities, adjs2[k], locs2[k]);
      var free1, free2 := NoRoadIn(Midway(r0, r1, 0, k), locs1[k], ends1[k]),
                          NoRoadIn(Midway(r1, r2, k + 1, NumPlayers), locs2[k], ends2[k]);
      && s2[k] == (if legal1 then [Building(locs1[k], PlayerColors[k], k + 1)] else [])
                + (if legal2 then [Building(locs2[k], SecondColors[k], k + 1)] else [])
      && sc2[k] == sc0[k] + |s2[k]|
      && r2[k] == (if free1 then [Road(locs1[k], ends1[k], PlayerColors[k], k + 1)] else [])
                + (if free2 then [Road(locs2[k], ends2[k], SecondColors[k], k + 1)] else [])
  {
    RoundTookDefinition(s0, s1, sc0, sc1, r0, r1, cities, adjs1, locs1, ends1, PlayerColors, true, 0, NumPlayers);
    RoundTookDefinition(s1, s2, sc1, sc2, r1, r2, cities, adjs2, locs2, ends2, SecondColors, false, 0, NumPlayers);
    assert TurnTook(s0, s1, sc0, sc1, r0, r1, cities, adjs1, locs1, ends1, PlayerColors, true, 0, k);
    assert TurnTook(s1, s2, sc1, sc2, r1, r2, cities, adjs2, locs2, ends2, SecondColors, false, NumPlayers, k);
  }

  /** What `Player.Valid` asks of the player's own fields, with a hand that holds no negative count. */
  ghost predicate Holds(p: Player)
    reads p`resources, p`tradeRates, p`resourcePoints
  {
    && 1 <= p.playerNum <= p.numPlayers
    && Hand(p.resources) && Rates(p.tradeRates)
    && |p.resourcePoints| == Kinds && (forall k :: 0 <= k < Kinds ==> p.resourcePoints[k] >= 0)
  }

  /** `Claimed` on a board whose tiles, robber and ports did not change, spelt out in the earlier state. */
  twostate lemma ClaimedFrom(board: Board, new before: Standing, new loc: Point, new second: bool)
    requires unchanged(board`tiles, board`robberLocation, board`ports) && unchanged(board.tiles)
    requires old(board.TilesValid()) && |before.points| == Kinds && |before.rates| == Kinds
    ensures board.TilesValid()
    ensures Claimed(board, before, loc, second) ==
      Standing(if second then old(Gained(before.resources, TypesOf(Neighbors(board, loc, 3)))) else before.resources,
               before.score + 1, old(Counted(board, before.points, loc)), old(PortPower(before.rates, board.PortTypeAt(loc))))
  {
    ClaimedDefinition(board, before, loc, second);
  }

  /** The players other than index `k`, whose fields did not change, still hold and stand as before. */
  twostate lemma PlayersKept(players: seq<Player>, new k: int)
    requires forall j :: 0 <= j < |players| && j != k ==> unchanged(players[j]) && old(Holds(players[j]))
    ensures forall j :: 0 <= j < |players| && j != k ==>
      && Holds(players[j]) && StandingOf(players[j]) == old(StandingOf(players[j]))
      && players[j].currentBoard == old(players[j].currentBoard)
  {
  }

  /** What `Claimed` gives depends only on the tiles, the robber and the ports of the board. */
  twostate lemma ClaimedKept(board: Board, new before: seq<Standing>, new locs: seq<Point>, new second: bool, new lo: int, new hi: int)
    requires unchanged(board`tiles, board`robberLocation, board`ports) && unchanged(board.tiles)
    requires old(board.TilesValid()) && 0 <= lo <= hi <= |before| && hi <= |locs|
    requires forall j :: lo <= j < hi ==> |before[j].points| == Kinds && |before[j].rates| == Kinds
    ensures board.TilesValid()
    ensures forall j :: lo <= j < hi ==> Claimed(board, before[j], locs[j], second) == old(Claimed(board, before[j], locs[j], second))
  {
  }

  /** A player is valid with a hand exactly when its own fields hold and its board is a valid board for as many players. */
  lemma HoldsOnBoard(p: Player)
    ensures p.Valid() && Hand(p.resources) <==> Holds(p) && p.currentBoard.Valid() && p.currentBoard.numPlayers == p.numPlayers
  {
  }

  // ---------------------------------------------------------------------
  // The robber (collectResources on a roll of 7)
  // ---------------------------------------------------------------------

  /**
   * The discard step of `collectResources` for one player: a player holding
   * more than seven resources discards half of them, rounded down.
   */
  method DiscardIfOver(p: Player, src: Source) returns (src': Source)
    requires p.Valid() && Hand(p.resources)
    modifies p`resources, p.currentBoard`numResources
    ensures p.Valid() && Hand(p.resources)
    ensures old(Total(p.resources)) <= MaxResources ==>
      p.resources == old(p.resources) && p.currentBoard.numResources == old(p.currentBoard.numResources) && src' == src
    ensures var total := old(Total(p.resources));
      total > MaxResources ==>
        && (p.resources, src') == Discarded(old(p.resources), src, Passes(HalfTowardZero(total)))
        && Total(p.resources) == total - total / 2
        && p.currentBoard.numResources == old(p.currentBoard.numResources)[p.playerNum - 1 := old(p.currentBoard.numResources[p.playerNum - 1]) - total / 2]
    ensures (p.resources, src') == AfterDiscard(old(p.resources), src)
  {
    var total := p.GetTotalResources();
    src' := src;
    if total > MaxResources {
      DiscardHalf(p.resources, src);
      src' := Discard(p, src);
    }
    AfterDiscardDefinition(old(p.resources), src);
  }

  /** How many resources a hand of `total` gives up in the discard step: half, rounded down, above seven, and none otherwise. */
  function Overflow(total: int): (n: int)
    ensures total <= MaxResources ==> n == 0
    ensures total > MaxResources ==> 0 < n && 2 * n <= total <= 2 * n + 1
  {
    if total > MaxResources then total / 2 else 0
  }

  /** A hand and the draws left after the discard step from `src`: as they were with seven resources or fewer, otherwise after the passes of `Discarded`. */
  ghost function AfterDiscard(res: seq<int>, src: Source): (r: (seq<int>, Source))
    requires Hand(res)
    ensures Hand(r.0) && Total(r.0) == Total(res) - Overflow(Total(res))
  {
    AfterDiscardAfter(res, src, 2)
  }

  /** `AfterDiscard`, reached only after `delay` unfoldings. */
  ghost function AfterDiscardAfter(res: seq<int>, src: Source, delay: nat): (r: (seq<int>, Source))
    requires Hand(res)
    ensures Hand(r.0) && Total(r.0) == Total(res) - Overflow(Total(res))
    decreases delay
  {
    if delay > 0 then AfterDiscardAfter(res, src, delay - 1)
    else
      var total := Total(res);
      if total > MaxResources then
        DiscardHalf(res, src);
        Discarded(res, src, Passes(HalfTowardZero(total)))
      else (res, src)
  }

  /** What `AfterDiscard` gives, spelt out. */
  lemma AfterDiscardDefinition(res: seq<int>, src: Source)
    requires Hand(res)
    ensures AfterDiscard(res, src) ==
      if Total(res) > MaxResources then Discarded(res, src, Passes(HalfTowardZero(Total(res)))) else (res, src)
  {
    assert AfterDiscardAfter(res, src, 2) == AfterDiscardAfter(res, src, 1) == AfterDiscardAfter(res, src, 0);
  }

  /**
   * The theft of `collectResources`: `getRandomResource` of the victim, and
   * when it names a resource the thief gains it and the victim loses it.
   * An empty hand gives nothing.
   */
  method Steal(thief: Player, victim: Player, src: Source) returns (src': Source)
    requires thief.Valid() && victim.Valid() && Hand(thief.resources) && Hand(victim.resources)
    requires thief.currentBoard == victim.currentBoard && thief.playerNum != victim.playerNum
    modifies thief`resources, victim`resources, thief.currentBoard`numResources
    ensures thief.Valid() && victim.Valid() && Hand(thief.resources) && Hand(victim.resources)
    ensures old(Total(victim.resources)) == 0 ==>
      && thief.resources == old(thief.resources) && victim.resources == old(victim.resources)
      && thief.currentBoard.numResources == old(thief.currentBoard.numResources) && src' == src
    ensures old(Total(victim.resources)) > 0 ==>
      var (draw, next) := Below(src, old(Total(victim.resources)));
      var k := RandomResource(old(victim.resources), draw);
      && 0 <= k < Kinds && old(victim.resources[k]) > 0
      && thief.resources == old(thief.resources)[k := old(thief.resources[k]) + 1]
      && victim.resources == old(victim.resources)[k := old(victim.resources[k]) - 1]
      && thief.currentBoard.numResources == old(thief.currentBoard.numResources)
           [thief.playerNum - 1 := old(thief.currentBoard.numResources[thief.playerNum - 1]) + 1]
           [victim.playerNum - 1 := old(thief.currentBoard.numResources[victim.playerNum - 1]) - 1]
      && src' == next
    ensures Stolen(old(thief.resources), old(victim.resources), thief.resources, victim.resources, src, src')
  {
    var resourceNum;
    resourceNum, src' := victim.GetRandomResource(src);
    if resourceNum != -1 {
      thief.GainResource(resourceNum);
      victim.LoseResource(resourceNum);
    }
    StolenDefinition(old(thief.resources), old(victim.resources), thief.resources, victim.resources, src, src');
  }

  /**
   * The board's card counts `counts` after a theft, against `counts0` before
   * it: when a card `moved`, one more for player index `thief` and one fewer
   * for player index `victim`; otherwise no change.
   */
  ghost predicate CountMoved(counts0: seq<int>, counts: seq<int>, thief: int, victim: int, moved: bool)
  {
    if moved then 0 <= thief < |counts0| && 0 <= victim < |counts0| && counts == counts0[thief := counts0[thief] + 1][victim := counts0[victim] - 1]
    else counts == counts0
  }

  /**
   * The thief's and the victim's hands after a theft, against `thief0` and
   * `victim0` before: nothing moves from an empty hand, otherwise one card
   * of the kind the draw from `src` picks moves from the victim to the thief.
   */
  ghost predicate Stolen(thief0: seq<int>, victim0: seq<int>, thief: seq<int>, victim: seq<int>, src: Source, src': Source)
  {
    StolenAfter(thief0, victim0, thief, victim, src, src', 2)
  }

  /** `Stolen`, reached only after `delay` unfoldings. */
  ghost predicate StolenAfter(thief0: seq<int>, victim0: seq<int>, thief: seq<int>, victim: seq<int>, src: Source, src': Source, delay: nat)
    decreases delay
  {
    if delay > 0 then StolenAfter(thief0, victim0, thief, victim, src, src', delay - 1)
    else
      && |thief0| == Kinds && |victim0| == Kinds
      && var total := Total(victim0);
         && (total == 0 ==> thief == thief0 && victim == victim0 && src' == src)
         && (total > 0 ==>
               var (draw, next) := Below(src, total);
               var k := RandomResource(victim0, draw);
               && 0 <= k < Kinds && victim0[k] > 0
               && thief == thief0[k := thief0[k] + 1] && victim == victim0[k := victim0[k] - 1]
               && src' == next)
  }

  /** What `Stolen` says, spelt out. */
  lemma StolenDefinition(thief0: seq<int>, victim0: seq<int>, thief: seq<int>, victim: seq<int>, src: Source, src': Source)
    ensures Stolen(thief0, victim0, thief, victim, src, src') <==>
      && |thief0| == Kinds && |victim0| == Kinds
      && var total := Total(victim0);
         && (total == 0 ==> thief == thief0 && victim == victim0 && src' == src)
         && (total > 0 ==>
               var (draw, next) := Below(src, total);
               var k := RandomResource(victim0, draw);
               && 0 <= k < Kinds && victim0[k] > 0
               && thief == thief0[k := thief0[k] + 1] && victim == victim0[k := victim0[k] - 1]
               && src' == next)
  {
    assert StolenAfter(thief0, victim0, thief, victim, src, src', 2) == StolenAfter(thief0, victim0, thief, victim, src, src', 0);
  }

  /** `Dedup` keeps at least one element of a non-empty sequence. */
  lemma DedupNonEmpty<T>(xs: seq<T>, Eq: (T, T) -> bool)
    requires |xs| > 0
    ensures |Dedup(xs, Eq)| > 0
  {
  }

  /** The board of `Game()`: four players, the shuffled tiles and ports laid out, nobody has won. */
  method LaidOutBoard(tileOrder: seq<int>, portOrder: seq<int>, screenWidth: real, screenHeight: real) returns (b: Board)
    requires IsPermutation(tileOrder, |TileKinds|) && IsPermutation(portOrder, |PortKinds|)
    ensures fresh(b) && b.numPlayers == NumPlayers
    ensures b.Valid() && |b.tiles| == 19 && |b.ports| == 9 && |b.hexIntersections| > 0
    ensures b.winner == -1 && b.turnNumber == 1
    ensures forall i :: 0 <= i <= NumPlayers ==> b.settlements[i] == [] && b.cities[i] == [] && b.roads[i] == []
  {
    b := new Board(NumPlayers, screenWidth, screenHeight);
    b.InitTiles(tileOrder);
    b.InitPorts(portOrder);
    DedupNonEmpty(b.Corners(b.hexCenters), PointEq);
  }

  /** The four players of `Game()`, numbered 1 to 4 with their colours, each on a fresh board of its own. */
  method NewPlayers(screenWidth: real, screenHeight: real) returns (ps: seq<Player>)
    ensures |ps| == NumPlayers
    ensures forall i, j :: 0 <= i < j < NumPlayers ==> ps[i] != ps[j]
    ensures forall i :: 0 <= i < NumPlayers ==>
      && fresh(ps[i]) && fresh(ps[i].currentBoard) && ps[i].Valid()
      && ps[i].playerNum == i + 1 && ps[i].numPlayers == NumPlayers
      && ps[i].color == PlayerColors[i] && ps[i].score == 0 && ps[i].resources == [0, 0, 0, 0, 0]
  {
    ps := [];
    var i := 0;
    while i < NumPlayers
      invariant 0 <= i <= NumPlayers && |ps| == i
      invariant forall a, c :: 0 <= a < c < i ==> ps[a] != ps[c]
      invariant forall a :: 0 <= a < i ==>
        && fresh(ps[a]) && fresh(ps[a].currentBoard) && ps[a].Valid()
        && ps[a].playerNum == a + 1 && ps[a].numPlayers == NumPlayers
        && ps[a].color == PlayerColors[a] && ps[a].score == 0 && ps[a].resources == [0, 0, 0, 0, 0]
    {
      var p := new Player(i + 1, PlayerColors[i], "RandComp", NumPlayers, screenWidth, screenHeight);
      ps := ps + [p];
      i := i + 1;
    }
  }

  // ---------------------------------------------------------------------
  // The game
  // ---------------------------------------------------------------------

  class Game {
    const players: seq<Player>
    const board: Board
    var playerToMove: int

    /** Four distinct players numbered 1 to 4 in order, on a four-player board. */
    ghost predicate Seated()
      reads this
    {
      && |players| == NumPlayers
      && (forall i :: 0 <= i < NumPlayers ==> players[i].playerNum == i + 1 && players[i].numPlayers == NumPlayers)
      && (forall i, j :: 0 <= i < j < NumPlayers ==> players[i] != players[j])
      && board.numPlayers == NumPlayers
    }

    /**
     * The state of play after the initial placement: every player plays on
     * the game's board, no hand holds a negative count, and it is some
     * player's move.
     */
    ghost predicate Valid()
      reads this, players, board, board.tiles
    {
      |players| == NumPlayers && 1 <= playerToMove <= NumPlayers && ValidAfter(2)
    }

    /**
     * The rest of `Valid`, reached only after `delay` unfoldings, which keeps
     * it out of the proofs that only pass it on.
     */
    ghost predicate ValidAfter(delay: nat)
      reads this, players, board, board.tiles
      decreases delay
    {
      if delay > 0 then ValidAfter(delay - 1)
      else
        && Seated() && board.Valid()
        && (forall i :: 0 <= i < NumPlayers ==> players[i].currentBoard == board && Holds(players[i]))
    }

    /** The part of `Valid` that the accounts of a production step are stated over. */
    ghost predicate Dealt()
      reads this, players, board, board.tiles
    {
      && |players| == NumPlayers && board.Valid() && board.numPlayers == NumPlayers
      && forall k :: 0 <= k < NumPlayers ==> Hand(players[k].resources)
    }

    /** A valid game is dealt. */
    lemma DealtOfValid()
      requires Valid()
      ensures Dealt()
    {
      Unfolded();
    }

    /** What `Valid` says of the player to move. */
    lemma MoverSeated()
      requires Valid()
      ensures board.Valid() && |board.playerScores| == NumPlayers && board.numPlayers == NumPlayers
      ensures var p := players[playerToMove - 1];
        p.currentBoard == board && p.playerNum == playerToMove && p.numPlayers == NumPlayers && Holds(p)
    {
      Unfolded();
    }

    /** What `Valid` says, spelt out. */
    lemma Unfolded()
      ensures Valid() <==>
        && Seated() && board.Valid() && 1 <= playerToMove <= NumPlayers
        && (forall i :: 0 <= i < NumPlayers ==> players[i].currentBoard == board && Holds(players[i]))
    {
      assert ValidAfter(2) == ValidAfter(1) == ValidAfter(0);
    }

    /**
     * Player index `k`'s turn in a round of `initPlacement`, in `color`: the
     * player comes to play on the game's board and `PlaceInitial` does the
     * rest.  Only player `k`'s standing and its lists and score on the board
     * can change.
     */
    method PlaceTurn(k: int, color: string, second: bool, src: Source)
      returns (ok: bool, src': Source, loc: Point, ghost end: Point)
      requires |players| == NumPlayers && 0 <= k < NumPlayers && players[k].playerNum == k + 1
      requires players[k].numPlayers == board.numPlayers == NumPlayers
      requires board.Valid() && |board.hexIntersections| > 0 && Holds(players[k])
      modifies players[k], board`settlements, board`playerScores, board`roads, board`numResources
      ensures board.Valid() && players[k].currentBoard == board && Holds(players[k])
      ensures StandingOf(players[k]) == Claimed(board, old(StandingOf(players[k])), loc, second)
      ensures Gathered(old(board.numResources), board.numResources, k, Harvest(board, loc), second)
      ensures ok ==> end in board.AdjacentIntersections(loc)
      ensures SettledAt(old(board.settlements), board.settlements, old(board.playerScores), board.playerScores, k,
                        Building(loc, color, k + 1), old(board.Legal(loc)))
      ensures old(board.Legal(loc) <==> ClearIn(board.settlements, board.cities, board.AdjacentIntersections(loc), loc))
      ensures ok ==> RoadLaid(old(board.roads), board.roads, k, Road(loc, end, color, k + 1), old(board.NoRoadBetween(loc, end)))
      ensures unchanged(board`hexIntersections, board`tiles, board`robberLocation, board`ports, board`cities) && unchanged(board.tiles)
    {
      var p := players[k];
      assert p.playerNum - 1 == k;
      ok, src', loc, end := PlaceInitial(p, board, color, second, src);
      HoldsOnBoard(p);
    }

    /**
     * The players after the turns of player indices `lo` to `hi - 1` in a
     * round of `initPlacement`, against their standings `before` it: every
     * player holds; those who played are on the game's board (in the
     * `second` round all are) and hold what `Claimed` gives for their
     * settlement at `locs[k]`; the others are as they were.
     */
    ghost predicate Placed(lo: int, hi: int, second: bool, before: seq<Standing>, locs: seq<Point>)
      reads players, board`tiles, board`robberLocation, board`ports, board.tiles
    {
      PlacedAfter(lo, hi, second, before, locs, 2)
    }

    /** `Placed`, reached only after `delay` unfoldings. */
    ghost predicate PlacedAfter(lo: int, hi: int, second: bool, before: seq<Standing>, locs: seq<Point>, delay: nat)
      reads players, board`tiles, board`robberLocation, board`ports, board.tiles
      decreases delay
    {
      if delay > 0 then PlacedAfter(lo, hi, second, before, locs, delay - 1)
      else
        && 0 <= lo <= hi <= NumPlayers && |players| == |before| == |locs| == NumPlayers && board.TilesValid()
        && (forall k :: 0 <= k < NumPlayers ==> Holds(players[k]) && |before[k].points| == Kinds && |before[k].rates| == Kinds)
        && (forall k :: 0 <= k < NumPlayers && (second || lo <= k < hi) ==> players[k].currentBoard == board)
        && (forall k :: lo <= k < hi ==> StandingOf(players[k]) == Claimed(board, before[k], locs[k], second))
        && (forall k :: 0 <= k < NumPlayers && !(lo <= k < hi) ==> StandingOf(players[k]) == before[k])
    }

    /** What `Placed` says, spelt out. */
    lemma PlacedDefinition(lo: int, hi: int, second: bool, before: seq<Standing>, locs: seq<Point>)
      ensures Placed(lo, hi, second, before, locs) <==>
        && 0 <= lo <= hi <= NumPlayers && |players| == |before| == |locs| == NumPlayers && board.TilesValid()
        && (forall k :: 0 <= k < NumPlayers ==> Holds(players[k]) && |before[k].points| == Kinds && |before[k].rates| == Kinds)
        && (forall k :: 0 <= k < NumPlayers && (second || lo <= k < hi) ==> players[k].currentBoard == board)
        && (forall k :: lo <= k < hi ==> StandingOf(players[k]) == Claimed(board, before[k], locs[k], second))
        && (forall k :: 0 <= k < NumPlayers && !(lo <= k < hi) ==> StandingOf(players[k]) == before[k])
    {
      assert PlacedAfter(lo, hi, second, before, locs, 2) == PlacedAfter(lo, hi, second, before, locs, 1)
          == PlacedAfter(lo, hi, second, before, locs, 0);
    }

    /** Once a first round is through, every player holds and plays on the game's board. */
    lemma PlacedOnBoard(second: bool, before: seq<Standing>, locs: seq<Point>)
      requires Placed(0, NumPlayers, second, before, locs)
      ensures |players| == NumPlayers && forall k :: 0 <= k < NumPlayers ==> players[k].currentBoard == board && Holds(players[k])
    {
      PlacedDefinition(0, NumPlayers, second, before, locs);
    }

    /** Under `Placed` every player holds. */
    lemma PlacedHolds(lo: int, hi: int, second: bool, before: seq<Standing>, locs: seq<Point>, k: int)
      requires Placed(lo, hi, second, before, locs) && 0 <= k < NumPlayers
      ensures |players| == |before| == |locs| == NumPlayers && Holds(players[k]) && board.TilesValid()
    {
      PlacedDefinition(lo, hi, second, before, locs);
    }

    /** Player index `k`'s turn, just after or just before the players of `Placed`, extends it. */
    twostate lemma PlacedStep(new k: int, new second: bool, new lo: int, new hi: int, new before: seq<Standing>,
                              new locs: seq<Point>, new loc: Point)
      requires |players| == |locs| == NumPlayers && 0 <= k < NumPlayers
      requires old(Placed(lo, hi, second, before, locs))
      requires (k == hi && hi < NumPlayers) || (k == lo - 1 && lo > 0)
      requires forall j :: 0 <= j < NumPlayers && j != k ==> unchanged(players[j])
      requires unchanged(board`tiles, board`robberLocation, board`ports) && unchanged(board.tiles)
      requires old(Holds(players[k])) && Holds(players[k]) && players[k].currentBoard == board && board.TilesValid()
      requires StandingOf(players[k]) == Claimed(board, old(StandingOf(players[k])), loc, second)
      ensures Placed(if k == hi then lo else k, if k == hi then hi + 1 else hi, second, before, locs[k := loc])
    {
      var lo', hi' := if k == hi then lo else k, if k == hi then hi + 1 else hi;
      PlacedDefinition(lo', hi', second, before, locs[k := loc]);
      assert old(PlacedAfter(lo, hi, second, before, locs, 2)) == old(PlacedAfter(lo, hi, second, before, locs, 1))
          == old(PlacedAfter(lo, hi, second, before, locs, 0));
      PlayersKept(players, k);
      ClaimedKept(board, before, locs, second, lo, hi);
      var locs' := locs[k := loc];
      forall j | 0 <= j < NumPlayers
        ensures Holds(players[j]) && |before[j].points| == Kinds && |before[j].rates| == Kinds
        ensures (second || lo' <= j < hi') ==> players[j].currentBoard == board
      {
      }
      forall j | lo' <= j < hi'
        ensures StandingOf(players[j]) == Claimed(board, before[j], locs'[j], second)
      {
      }
      forall j | 0 <= j < NumPlayers && !(lo' <= j < hi')
        ensures StandingOf(players[j]) == before[j]
      {
      }
    }

    /**
     * The board's card counts after the turns of player indices `lo` to
     * `hi - 1` in a round of `initPlacement`, against `counts` before it: in
     * the `second` round each of those players has gained the resources of
     * the tiles around its settlement at `locs[k]`; no other count changed.
     */
    ghost predicate Harvested(lo: int, hi: int, second: bool, counts: seq<int>, locs: seq<Point>)
      reads board`numResources, board`tiles, board`robberLocation, board.tiles
    {
      HarvestedAfter(lo, hi, second, counts, locs, 2)
    }

    /** `Harvested`, reached only after `delay` unfoldings. */
    ghost predicate HarvestedAfter(lo: int, hi: int, second: bool, counts: seq<int>, locs: seq<Point>, delay: nat)
      reads board`numResources, board`tiles, board`robberLocation, board.tiles
      decreases delay
    {
      if delay > 0 then HarvestedAfter(lo, hi, second, counts, locs, delay - 1)
      else
        && 0 <= lo <= hi <= NumPlayers && |counts| == |locs| == |board.numResources| == NumPlayers && board.TilesValid()
        && forall k :: 0 <= k < NumPlayers ==>
             board.numResources[k] == counts[k] + (if second && lo <= k < hi then Harvest(board, locs[k]) else 0)
    }

    /** What `Harvested` says, spelt out. */
    lemma HarvestedDefinition(lo: int, hi: int, second: bool, counts: seq<int>, locs: seq<Point>)
      ensures Harvested(lo, hi, second, counts, locs) <==>
        && 0 <= lo <= hi <= NumPlayers && |counts| == |locs| == |board.numResources| == NumPlayers && board.TilesValid()
        && forall k :: 0 <= k < NumPlayers ==>
             board.numResources[k] == counts[k] + (if second && lo <= k < hi then Harvest(board, locs[k]) else 0)
    {
      assert HarvestedAfter(lo, hi, second, counts, locs, 2) == HarvestedAfter(lo, hi, second, counts, locs, 1)
          == HarvestedAfter(lo, hi, second, counts, locs, 0);
    }

    /** Player index `k`'s gain at `loc`, just after the players of `Harvested` in the first round and just before them in the second, extends it. */
    twostate lemma HarvestedStep(new k: int, new second: bool, new lo: int, new hi: int, new counts: seq<int>,
                                 new locs: seq<Point>, new loc: Point)
      requires 0 <= k < NumPlayers && |locs| == |old(board.numResources)| == NumPlayers && board.TilesValid()
      requires old(Harvested(lo, hi, second, counts, locs))
      requires if second then k == lo - 1 else k == hi
      requires unchanged(board`tiles, board`robberLocation) && unchanged(board.tiles)
      requires Gathered(old(board.numResources), board.numResources, k, Harvest(board, loc), second)
      ensures var lo', hi' := if second then k else lo, if second then hi else hi + 1;
        Harvested(lo', hi', second, counts, locs[k := loc])
    {
      HarvestedDefinition(if second then k else lo, if second then hi else hi + 1, second, counts, locs[k := loc]);
      assert old(HarvestedAfter(lo, hi, second, counts, locs, 2)) == old(HarvestedAfter(lo, hi, second, counts, locs, 1))
          == old(HarvestedAfter(lo, hi, second, counts, locs, 0));
      assert forall j :: 0 <= j < NumPlayers ==> Harvest(board, locs[j]) == old(Harvest(board, locs[j]));
    }

    /** A whole round's counts: unchanged after the first, each raised by its settlement's harvest after the second. */
    lemma HarvestedRound(second: bool, counts: seq<int>, locs: seq<Point>)
      requires Harvested(0, NumPlayers, second, counts, locs)
      ensures |board.numResources| == |counts| == |locs| == NumPlayers && board.TilesValid()
      ensures !second ==> board.numResources == counts
      ensures second ==> forall k :: 0 <= k < NumPlayers ==> board.numResources[k] == counts[k] + Harvest(board, locs[k])
    {
      HarvestedDefinition(0, NumPlayers, second, counts, locs);
    }

    /** Where the players of indices `lo` to `hi - 1` built in a round: the road end `ends[k]` is next to the settlement `locs[k]`. */
    ghost predicate Sites(locs: seq<Point>, ends: seq<Point>, lo: int, hi: int)
      reads board`hexIntersections
    {
      && 0 <= lo <= hi <= NumPlayers && |locs| == |ends| == NumPlayers
      && forall k :: lo <= k < hi ==> ends[k] in board.AdjacentIntersections(locs[k])
    }

    /** The intersections next to each of `locs`, in order. */
    ghost function AdjacentTo(locs: seq<Point>): (adjs: seq<seq<Point>>)
      reads board`hexIntersections
      ensures |adjs| == |locs| && forall k :: 0 <= k < |locs| ==> adjs[k] == board.AdjacentIntersections(locs[k])
    {
      if |locs| == 0 then [] else AdjacentTo(locs[..|locs| - 1]) + [board.AdjacentIntersections(locs[|locs| - 1])]
    }

    /** Replacing one location replaces the intersections next to it and no other. */
    lemma AdjacentToUpdate(locs: seq<Point>, k: int, loc: Point)
      requires 0 <= k < |locs|
      ensures AdjacentTo(locs[k := loc]) == AdjacentTo(locs)[k := board.AdjacentIntersections(loc)]
    {
    }

    /** Player index `k`'s settlement at `loc` and road end `end` next to it, just after or just before the players of `Sites`, extend it. */
    lemma SitesStep(locs: seq<Point>, ends: seq<Point>, lo: int, hi: int, k: int, loc: Point, end: Point)
      requires Sites(locs, ends, lo, hi) && end in board.AdjacentIntersections(loc)
      requires (k == hi && hi < NumPlayers) || (k == lo - 1 && lo > 0)
      ensures Sites(locs[k := loc], ends[k := end], if k == hi then lo else k, if k == hi then hi + 1 else hi)
    {
    }

    /** The colours of a round by player index. */
    function RoundColors(second: bool): (colors: seq<string>)
      ensures |colors| == NumPlayers
    {
      if second then SecondColors else PlayerColors
    }

    /**
     * One turn of a round of `initPlacement`: player index `k`, just after
     * the players `lo` to `hi - 1` who have played in the first round and
     * just before them in the second, places its pieces, and the round's
     * account (`Placed`, `RoundTook`, `Sites`) takes them in.  `s0`,
     * `scores0` and `r0` are the board's lists and scores before the round.
     */
    method RoundTurn(k: int, second: bool, ghost lo: int, ghost hi: int, ghost before: seq<Standing>,
                     ghost s0: seq<seq<Building>>, ghost scores0: seq<int>, ghost r0: seq<seq<Road>>,
                     ghost counts: seq<int>, ghost locs: seq<Point>, ghost ends: seq<Point>, src: Source)
      returns (ok: bool, src': Source, ghost locs': seq<Point>, ghost ends': seq<Point>)
      requires Seated() && board.Valid() && |board.hexIntersections| > 0
      requires if second then 0 <= k == lo - 1 else k == hi < NumPlayers
      requires Placed(lo, hi, second, before, locs)
      requires RoundTook(s0, board.settlements, scores0, board.playerScores, r0, board.roads, board.cities, AdjacentTo(locs),
                         locs, ends, RoundColors(second), !second, lo, hi)
      requires Sites(locs, ends, lo, hi)
      requires Harvested(lo, hi, second, counts, locs)
      modifies players[k], board`settlements, board`playerScores, board`roads, board`numResources
      ensures board.Valid()
      ensures ok ==> var lo', hi' := if second then k else lo, if second then hi else hi + 1;
        && Placed(lo', hi', second, before, locs')
        && Harvested(lo', hi', second, counts, locs')
        && RoundTook(s0, board.settlements, scores0, board.playerScores, r0, board.roads, board.cities, AdjacentTo(locs'),
                     locs', ends', RoundColors(second), !second, lo', hi')
        && Sites(locs', ends', lo', hi')
    {
      PlacedHolds(lo, hi, second, before, locs, k);
      assert forall j :: 0 <= j < NumPlayers && j != k ==> players[j] != players[k];
      var loc;
      ghost var end;
      ok, src', loc, end := PlaceTurn(k, RoundColors(second)[k], second, src);
      locs', ends' := locs[k := loc], ends[k := end];
      if !ok {
        return;
      }
      assert forall j :: 0 <= j < NumPlayers && j != k ==> unchanged(players[j]);
      TurnAccounted(k, second, lo, hi, before, s0, scores0, r0, locs, ends, loc, end);
      HarvestedStep(k, second, lo, hi, counts, locs, loc);
    }

    /** What one turn of `RoundTurn` adds to the round's account, from the outcome of `PlaceTurn`. */
    twostate lemma TurnAccounted(new k: int, new second: bool, new lo: int, new hi: int, new before: seq<Standing>,
                                 new s0: seq<seq<Building>>, new scores0: seq<int>, new r0: seq<seq<Road>>,
                                 new locs: seq<Point>, new ends: seq<Point>, new loc: Point, new end: Point)
      requires 0 <= k < NumPlayers && if second then k == lo - 1 else k == hi
      requires |players| == |locs| == |ends| == NumPlayers && old(Holds(players[k]))
      requires old(Placed(lo, hi, second, before, locs)) && old(Sites(locs, ends, lo, hi))
      requires old(RoundTook(s0, board.settlements, scores0, board.playerScores, r0, board.roads, board.cities, AdjacentTo(locs),
                             locs, ends, RoundColors(second), !second, lo, hi))
      requires forall j :: 0 <= j < NumPlayers && j != k ==> unchanged(players[j])
      requires unchanged(board`tiles, board`robberLocation, board`ports, board`hexIntersections, board`cities) && unchanged(board.tiles)
      requires Holds(players[k]) && players[k].currentBoard == board && board.TilesValid()
      requires StandingOf(players[k]) == Claimed(board, old(StandingOf(players[k])), loc, second)
      requires end in board.AdjacentIntersections(loc)
      requires SettledAt(old(board.settlements), board.settlements, old(board.playerScores), board.playerScores, k,
                         Building(loc, RoundColors(second)[k], k + 1), old(board.Legal(loc)))
      requires old(board.Legal(loc) <==> ClearIn(board.settlements, board.cities, board.AdjacentIntersections(loc), loc))
      requires RoadLaid(old(board.roads), board.roads, k, Road(loc, end, RoundColors(second)[k], k + 1), old(board.NoRoadBetween(loc, end)))
      ensures var lo', hi' := if second then k else lo, if second then hi else hi + 1;
        && Placed(lo', hi', second, before, locs[k := loc])
        && RoundTook(s0, board.settlements, scores0, board.playerScores, r0, board.roads, board.cities, AdjacentTo(locs[k := loc]),
                     locs[k := loc], ends[k := end], RoundColors(second), !second, lo', hi')
        && Sites(locs[k := loc], ends[k := end], lo', hi')
    {
      ghost var s, sc, r := old(board.settlements), old(board.playerScores), old(board.roads);
      assert board.cities == old(board.cities) && AdjacentTo(locs) == old(AdjacentTo(locs)) && Sites(locs, ends, lo, hi);
      assert old(board.NoRoadBetween(loc, end)) == NoRoadIn(r, loc, end);
      AdjacentToUpdate(locs, k, loc);
      SitesStep(locs, ends, lo, hi, k, loc, end);
      RoundStep(s0, s, board.settlements, scores0, sc, board.playerScores, r0, r, board.roads, board.cities, AdjacentTo(locs),
                locs, ends, RoundColors(second), !second, lo, hi, k, loc, end, board.AdjacentIntersections(loc));
      PlacedStep(k, second, lo, hi, before, locs, loc);
    }

    /**
     * The first round of `initPlacement`: players 1 to 4 in turn choose a
     * settlement at `locs[k]` and a road to `ends[k]`, next to it, in their
     * own colour, and the board takes each piece exactly when it is allowed
     * as the board stands at that turn (`RoundTook`).  Each comes to play on
     * the game's board and, whether or not the board took its settlement,
     * scores a point, counts the pips and takes on the port there; no hand
     * changes (`Claimed`).
     */
    method FirstRound(src: Source) returns (ok: bool, src': Source, ghost locs: seq<Point>, ghost ends: seq<Point>)
      requires Seated() && board.Valid() && |board.hexIntersections| > 0
      requires forall k :: 0 <= k < NumPlayers ==> Holds(players[k])
      modifies players, board`settlements, board`playerScores, board`roads, board`numResources
      ensures board.Valid()
      ensures ok ==> |locs| == |ends| == NumPlayers
      ensures ok ==> forall k :: 0 <= k < NumPlayers ==>
        && players[k].currentBoard == board && Holds(players[k]) && old(Holds(players[k])) && board.TilesValid()
        && StandingOf(players[k]) == Claimed(board, old(StandingOf(players[k])), locs[k], false)
        && ends[k] in board.AdjacentIntersections(locs[k])
      ensures ok ==> RoundTook(old(board.settlements), board.settlements, old(board.playerScores), board.playerScores,
                               old(board.roads), board.roads, board.cities, AdjacentTo(locs), locs, ends, PlayerColors, true, 0, NumPlayers)
      ensures ok ==> board.numResources == old(board.numResources)
    {
      ghost var before;
      ok, src', locs, ends, before := FirstPlaced(src);
      if ok {
        PlacedDefinition(0, NumPlayers, false, before, locs);
        HarvestedRound(false, old(board.numResources), locs);
      }
    }

    /**
     * The second round of `initPlacement`: players 4 down to 1 choose a
     * settlement at `locs[k]` and a road to `ends[k]`, next to it, and the
     * board takes each piece exactly when it is allowed as the board stands
     * at that turn (`RoundTook`).  The pieces take the colour of the round's
     * counter, so player 4's are red and player 1's orange (`SecondColors`).
     * Each player scores a point, counts the pips, takes on the port there
     * and gains a resource from each tile around it (`Claimed`).
     */
    method SecondRound(src: Source) returns (ok: bool, src': Source, ghost locs: seq<Point>, ghost ends: seq<Point>)
      requires Seated() && board.Valid() && |board.hexIntersections| > 0
      requires forall k :: 0 <= k < NumPlayers ==> players[k].currentBoard == board && Holds(players[k])
      modifies players, board`settlements, board`playerScores, board`roads, board`numResources
      ensures board.Valid()
      ensures ok ==> |locs| == |ends| == NumPlayers
      ensures ok ==> forall k :: 0 <= k < NumPlayers ==>
        && players[k].currentBoard == board && Holds(players[k]) && old(Holds(players[k])) && board.TilesValid()
        && StandingOf(players[k]) == Claimed(board, old(StandingOf(players[k])), locs[k], true)
        && ends[k] in board.AdjacentIntersections(locs[k])
      ensures ok ==> RoundTook(old(board.settlements), board.settlements, old(board.playerScores), board.playerScores,
                               old(board.roads), board.roads, board.cities, AdjacentTo(locs), locs, ends, SecondColors, false, 0, NumPlayers)
      ensures ok ==> |board.numResources| == NumPlayers && forall k :: 0 <= k < NumPlayers ==>
        board.numResources[k] == old(board.numResources[k]) + Harvest(board, locs[k])
    {
      ghost var before;
      ok, src', locs, ends, before := SecondPlaced(src);
      if ok {
        PlacedDefinition(0, NumPlayers, true, before, locs);
        HarvestedRound(true, old(board.numResources), locs);
      }
    }

    /**
     * `initPlacement`: the two rounds, `mid` holding the board's lists and
     * scores between them.  Every player ends with what its two settlements
     * give (`Claimed` twice): two more points whether or not the board took
     * them, the pips and ports of both places, and a hand grown by the kinds
     * of the tiles around the second.
     */
    method InitPlacement(src: Source)
      returns (ok: bool, src': Source, ghost first: seq<Point>, ghost firstEnds: seq<Point>,
               ghost second: seq<Point>, ghost secondEnds: seq<Point>,
               ghost mid: (seq<seq<Building>>, seq<int>, seq<seq<Road>>))
      requires Seated() && board.Valid() && |board.hexIntersections| > 0 && playerToMove == 1
      requires forall k :: 0 <= k < NumPlayers ==> Holds(players[k])
      modifies players, board`settlements, board`playerScores, board`roads, board`numResources
      ensures ok ==> Valid() && |first| == |firstEnds| == |second| == |secondEnds| == NumPlayers
      ensures ok ==> forall k :: 0 <= k < NumPlayers ==>
        && old(Holds(players[k])) && board.TilesValid()
        && StandingOf(players[k]) == Claimed(board, Claimed(board, old(StandingOf(players[k])), first[k], false), second[k], true)
        && players[k].score == old(players[k].score) + 2
        && firstEnds[k] in board.AdjacentIntersections(first[k]) && secondEnds[k] in board.AdjacentIntersections(second[k])
      ensures ok ==> RoundTook(old(board.settlements), mid.0, old(board.playerScores), mid.1, old(board.roads), mid.2,
                               board.cities, AdjacentTo(first), first, firstEnds, PlayerColors, true, 0, NumPlayers)
      ensures ok ==> RoundTook(mid.0, board.settlements, mid.1, board.playerScores, mid.2, board.roads,
                               board.cities, AdjacentTo(second), second, secondEnds, SecondColors, false, 0, NumPlayers)
      ensures ok ==> |board.numResources| == NumPlayers && forall k :: 0 <= k < NumPlayers ==>
        board.numResources[k] == old(board.numResources[k]) + Harvest(board, second[k])
    {
      ghost var initial, middle;
      second, secondEnds := [], [];
      ok, src', first, firstEnds, initial := FirstPlaced(src);
      mid := (board.settlements, board.playerScores, board.roads);
      if !ok {
        return;
      }
      PlacedOnBoard(false, initial, first);
      HarvestedRound(false, old(board.numResources), first);
      ghost var counts := board.numResources;
      label Mid:
      ok, src', second, secondEnds, middle := SecondPlaced(src');
      if ok {
        BothPlaced@Mid(initial, middle, first, firstEnds, second, secondEnds);
        HarvestedRound(true, counts, second);
        Unfolded();
      }
    }

    /** The turns of `FirstRound`, with what they give the players gathered in `Placed` against their standings `before` them. */
    method FirstPlaced(src: Source) returns (ok: bool, src': Source, ghost locs: seq<Point>, ghost ends: seq<Point>, ghost before: seq<Standing>)
      requires Seated() && board.Valid() && |board.hexIntersections| > 0
      requires forall k :: 0 <= k < NumPlayers ==> Holds(players[k])
      modifies players, board`settlements, board`playerScores, board`roads, board`numResources
      ensures board.Valid() && |before| == NumPlayers
      ensures forall k :: 0 <= k < NumPlayers ==> before[k] == old(StandingOf(players[k]))
      ensures ok ==> Placed(0, NumPlayers, false, before, locs) && Sites(locs, ends, 0, NumPlayers)
      ensures ok ==> Harvested(0, NumPlayers, false, old(board.numResources), locs)
      ensures ok ==> RoundTook(old(board.settlements), board.settlements, old(board.playerScores), board.playerScores,
                               old(board.roads), board.roads, board.cities, AdjacentTo(locs), locs, ends, PlayerColors, true, 0, NumPlayers)
    {
      before := seq(NumPlayers, k requires 0 <= k < NumPlayers reads players => StandingOf(players[k]));
      src' := src;
      locs, ends := seq(NumPlayers, _ => Point(0.0, 0.0)), seq(NumPlayers, _ => Point(0.0, 0.0));
      PlacedDefinition(0, 0, false, before, locs);
      HarvestedDefinition(0, 0, false, board.numResources, locs);
      RoundStart(board.settlements, board.playerScores, board.roads, board.cities, AdjacentTo(locs), locs, ends, RoundColors(false), true, 0);
      var i := 0;
      while i < NumPlayers
        invariant 0 <= i <= NumPlayers && board.Valid()
        invariant Placed(0, i, false, before, locs)
        invariant RoundTook(old(board.settlements), board.settlements, old(board.playerScores), board.playerScores,
                            old(board.roads), board.roads, board.cities, AdjacentTo(locs), locs, ends, RoundColors(false), true, 0, i)
        invariant Sites(locs, ends, 0, i)
        invariant Harvested(0, i, false, old(board.numResources), locs)
      {
        ok, src', locs, ends := RoundTurn(i, false, 0, i, before, old(board.settlements), old(board.playerScores), old(board.roads),
                                          old(board.numResources), locs, ends, src');
        if !ok {
          return;
        }
        i := i + 1;
      }
      ok := true;
    }

    /** The turns of `SecondRound`, with what they give the players gathered in `Placed` against their standings `before` them. */
    method SecondPlaced(src: Source) returns (ok: bool, src': Source, ghost locs: seq<Point>, ghost ends: seq<Point>, ghost before: seq<Standing>)
      requires Seated() && board.Valid() && |board.hexIntersections| > 0
      requires forall k :: 0 <= k < NumPlayers ==> players[k].currentBoard == board && Holds(players[k])
      modifies players, board`settlements, board`playerScores, board`roads, board`numResources
      ensures board.Valid() && |before| == NumPlayers
      ensures forall k :: 0 <= k < NumPlayers ==> before[k] == old(StandingOf(players[k]))
      ensures ok ==> Placed(0, NumPlayers, true, before, locs) && Sites(locs, ends, 0, NumPlayers)
      ensures ok ==> Harvested(0, NumPlayers, true, old(board.numResources), locs)
      ensures ok ==> RoundTook(old(board.settlements), board.settlements, old(board.playerScores), board.playerScores,
                               old(board.roads), board.roads, board.cities, AdjacentTo(locs), locs, ends, SecondColors, false, 0, NumPlayers)
    {
      before := seq(NumPlayers, k requires 0 <= k < NumPlayers reads players => StandingOf(players[k]));
      src' := src;
      locs, ends := seq(NumPlayers, _ => Point(0.0, 0.0)), seq(NumPlayers, _ => Point(0.0, 0.0));
      PlacedDefinition(NumPlayers, NumPlayers, true, before, locs);
      HarvestedDefinition(NumPlayers, NumPlayers, true, board.numResources, locs);
      RoundStart(board.settlements, board.playerScores, board.roads, board.cities, AdjacentTo(locs), locs, ends, RoundColors(true), false, NumPlayers);
      var i := 0;
      while i < NumPlayers
        invariant 0 <= i <= NumPlayers && board.Valid()
        invariant Placed(NumPlayers - i, NumPlayers, true, before, locs)
        invariant RoundTook(old(board.settlements), board.settlements, old(board.playerScores), board.playerScores,
                            old(board.roads), board.roads, board.cities, AdjacentTo(locs), locs, ends, RoundColors(true), false, NumPlayers - i, NumPlayers)
        invariant Sites(locs, ends, NumPlayers - i, NumPlayers)
        invariant Harvested(NumPlayers - i, NumPlayers, true, old(board.numResources), locs)
      {
        ok, src', locs, ends := RoundTurn(NumPlayers - i - 1, true, NumPlayers - i, NumPlayers, before,
                                          old(board.settlements), old(board.playerScores), old(board.roads), old(board.numResources), locs, ends, src');
        if !ok {
          return;
        }
        i := i + 1;
      }
      ok := true;
    }

    /**
     * The two rounds together: from the standings `initial` before the first
     * and `middle` between them, each player's standing is `Claimed` twice
     * over, with two points more, and every road still ends next to its
     * settlement.
     */
    twostate lemma BothPlaced(new initial: seq<Standing>, new middle: seq<Standing>, new first: seq<Point>, new firstEnds: seq<Point>,
                              new second: seq<Point>, new secondEnds: seq<Point>)
      requires |players| == NumPlayers && unchanged(board`hexIntersections, board`tiles, board`robberLocation, board`ports) && unchanged(board.tiles)
      requires old(Placed(0, NumPlayers, false, initial, first)) && old(Sites(first, firstEnds, 0, NumPlayers))
      requires |middle| == NumPlayers && forall k :: 0 <= k < NumPlayers ==> middle[k] == old(StandingOf(players[k]))
      requires Placed(0, NumPlayers, true, middle, second) && Sites(second, secondEnds, 0, NumPlayers)
      ensures |initial| == |first| == |firstEnds| == |second| == |secondEnds| == NumPlayers && board.TilesValid()
      ensures forall k :: 0 <= k < NumPlayers ==>
        && players[k].currentBoard == board && Holds(players[k]) && |initial[k].points| == Kinds && |initial[k].rates| == Kinds
        && StandingOf(players[k]) == Claimed(board, Claimed(board, initial[k], first[k], false), second[k], true)
        && players[k].score == initial[k].score + 2
        && firstEnds[k] in board.AdjacentIntersections(first[k]) && secondEnds[k] in board.AdjacentIntersections(second[k])
    {
      PlacedDefinition(0, NumPlayers, true, middle, second);
      assert old(PlacedAfter(0, NumPlayers, false, initial, first, 2)) == old(PlacedAfter(0, NumPlayers, false, initial, first, 1))
          == old(PlacedAfter(0, NumPlayers, false, initial, first, 0));
      ClaimedKept(board, initial, first, false, 0, NumPlayers);
    }

    /** What every player collects on `roll`, player by player, as the board stands. */
    method CollectAll(roll: int) returns (harvest: seq<seq<string>>)
      requires board.Valid() && board.numPlayers == NumPlayers
      ensures |harvest| == NumPlayers
      ensures forall k :: 0 <= k < NumPlayers ==> harvest[k] == Production(board, k, roll)
    {
      var b := board;
      assert b.TilesValid() && NumPlayers <= |b.settlements| && NumPlayers <= |b.cities|;
      harvest := [];
      var i := 0;
      while i < NumPlayers
        invariant 0 <= i <= NumPlayers && |harvest| == i
        invariant forall k :: 0 <= k < i ==> harvest[k] == Production(b, k, roll)
      {
        var ys := Collected(b, i, roll);
        harvest := harvest + [ys];
        i := i + 1;
      }
    }

    /**
     * `collectResources` on a roll other than 7: each player gains what its
     * settlements and then its cities collect.  What is collected does not
     * depend on the resources gained, so the names are collected for all
     * players first.  Scores do not change.
     */
    method Produce(roll: int)
      requires Valid() && Dealt()
      modifies players, board`numResources
      ensures Valid() && Dealt()
      ensures forall k :: 0 <= k < NumPlayers ==>
        && players[k].resources == Gained(old(players[k].resources), old(Production(board, k, roll)))
        && board.numResources[k] == old(board.numResources[k]) + Named(old(Production(board, k, roll)))
        && players[k].score == old(players[k].score)
    {
      Unfolded();
      var harvest := CollectAll(roll);
      GainHarvest(harvest);
    }

    /** Each player in turn gains the names `harvest` holds for it. */
    method GainHarvest(harvest: seq<seq<string>>)
      requires Valid() && Dealt() && |harvest| == NumPlayers
      modifies players, board`numResources
      ensures Valid() && Dealt()
      ensures forall k :: 0 <= k < NumPlayers ==>
        && players[k].resources == Gained(old(players[k].resources), harvest[k])
        && board.numResources[k] == old(board.numResources[k]) + Named(harvest[k])
        && players[k].score == old(players[k].score)
    {
      Unfolded();
      var i := 0;
      while i < NumPlayers
        invariant 0 <= i <= NumPlayers && board.Valid()
        invariant forall k :: 0 <= k < NumPlayers ==>
          && players[k].currentBoard == board && Holds(players[k])
          && players[k].resources == (if k < i then Gained(old(players[k].resources), harvest[k]) else old(players[k].resources))
          && board.numResources[k] == old(board.numResources[k]) + (if k < i then Named(harvest[k]) else 0)
          && players[k].score == old(players[k].score)
      {
        var p := players[i];
        HoldsOnBoard(p);
        assert forall k :: 0 <= k < NumPlayers && k != i ==> players[k] != p;
        GainedGrows(p.resources, harvest[i]);
        GainAll(p, harvest[i]);
        i := i + 1;
      }
      Unfolded();
    }

    /**
     * The discards of `collectResources` on a 7: players 1 to 4 in turn, each
     * over seven resources giving up half of them, rounded down, and its
     * count on the board lowered as much.  Player index `k` discards with
     * the draws `srcs[k]`, which its discards leave as `srcs[k + 1]`.
     */
    method DiscardAll(src: Source) returns (src': Source, ghost srcs: seq<Source>)
      requires Valid()
      modifies players, board`numResources
      ensures Valid() && old(Dealt())
      ensures |srcs| == NumPlayers + 1 && srcs[0] == src && srcs[NumPlayers] == src' && |board.numResources| == NumPlayers
      ensures forall k :: 0 <= k < NumPlayers ==>
        && (players[k].resources, srcs[k + 1]) == AfterDiscard(old(players[k].resources), srcs[k])
        && (old(Total(players[k].resources)) <= MaxResources ==> players[k].resources == old(players[k].resources))
        && (old(Total(players[k].resources)) > MaxResources ==>
              Total(players[k].resources) == old(Total(players[k].resources)) - old(Total(players[k].resources)) / 2)
        && board.numResources[k] == old(board.numResources[k]) - Overflow(old(Total(players[k].resources)))
        && players[k].score == old(players[k].score)
    {
      DealtOfValid();
      ghost var hands0 := seq(NumPlayers, k requires 0 <= k < NumPlayers reads players => players[k].resources);
      ghost var counts0 := board.numResources;
      src', srcs := src, [src];
      DiscardedDefinition(0, hands0, counts0, srcs);
      var i := 0;
      while i < NumPlayers
        invariant 0 <= i <= NumPlayers && Valid() && Dealt()
        invariant |srcs| == i + 1 && srcs[0] == src && srcs[i] == src' && DiscardedUpTo(i, hands0, counts0, srcs)
        invariant forall k :: 0 <= k < NumPlayers ==> hands0[k] == old(players[k].resources)
        invariant forall k :: 0 <= k < NumPlayers ==> players[k].score == old(players[k].score)
      {
        DiscardedDefinition(i, hands0, counts0, srcs);
        label Before:
        var src'' := DiscardTurn(i, src');
        DiscardStep@Before(i, hands0, counts0, srcs, src'');
        src', srcs := src'', srcs + [src''];
        i := i + 1;
      }
      DiscardedAll(hands0, counts0, srcs);
    }

    /** Once all players have been through the discard step, each hand and count, spelt out. */
    lemma DiscardedAll(hands0: seq<seq<int>>, counts0: seq<int>, srcs: seq<Source>)
      requires DiscardedUpTo(NumPlayers, hands0, counts0, srcs)
      ensures |players| == |hands0| == |counts0| == |board.numResources| == NumPlayers && |srcs| == NumPlayers + 1
      ensures forall k :: 0 <= k < NumPlayers ==>
        && Hand(hands0[k])
        && (players[k].resources, srcs[k + 1]) == AfterDiscard(hands0[k], srcs[k])
        && (Total(hands0[k]) <= MaxResources ==> players[k].resources == hands0[k])
        && (Total(hands0[k]) > MaxResources ==> Total(players[k].resources) == Total(hands0[k]) - Total(hands0[k]) / 2)
        && board.numResources[k] == counts0[k] - Overflow(Total(hands0[k]))
    {
      DiscardedDefinition(NumPlayers, hands0, counts0, srcs);
      forall k | 0 <= k < NumPlayers
        ensures Total(hands0[k]) <= MaxResources ==> players[k].resources == hands0[k]
        ensures Total(hands0[k]) > MaxResources ==> Total(players[k].resources) == Total(hands0[k]) - Total(hands0[k]) / 2
      {
        var r := AfterDiscard(hands0[k], srcs[k]);
        assert (players[k].resources, srcs[k + 1]) == r;
        AfterDiscardDefinition(hands0[k], srcs[k]);
      }
    }

    /**
     * The hands and the board's card counts once players 0 to `i - 1` have
     * been through the discard step, against `hands0` and `counts0` before
     * it, player `k` having discarded with the draws `srcs[k]`.
     */
    ghost predicate DiscardedUpTo(i: int, hands0: seq<seq<int>>, counts0: seq<int>, srcs: seq<Source>)
      reads players, board`numResources
    {
      DiscardedAfter(i, hands0, counts0, srcs, 2)
    }

    /** `DiscardedUpTo`, reached only after `delay` unfoldings. */
    ghost predicate DiscardedAfter(i: int, hands0: seq<seq<int>>, counts0: seq<int>, srcs: seq<Source>, delay: nat)
      reads players, board`numResources
      decreases delay
    {
      if delay > 0 then DiscardedAfter(i, hands0, counts0, srcs, delay - 1)
      else
        && 0 <= i <= NumPlayers && |players| == |hands0| == |counts0| == |board.numResources| == NumPlayers && |srcs| == i + 1
        && forall k :: 0 <= k < NumPlayers ==>
             && Hand(hands0[k])
             && (k < i ==> (players[k].resources, srcs[k + 1]) == AfterDiscard(hands0[k], srcs[k]))
             && (k >= i ==> players[k].resources == hands0[k])
             && board.numResources[k] == counts0[k] - (if k < i then Overflow(Total(hands0[k])) else 0)
    }

    /** What `DiscardedUpTo` says, spelt out. */
    lemma DiscardedDefinition(i: int, hands0: seq<seq<int>>, counts0: seq<int>, srcs: seq<Source>)
      ensures DiscardedUpTo(i, hands0, counts0, srcs) <==>
        && 0 <= i <= NumPlayers && |players| == |hands0| == |counts0| == |board.numResources| == NumPlayers && |srcs| == i + 1
        && forall k :: 0 <= k < NumPlayers ==>
             && Hand(hands0[k])
             && (k < i ==> (players[k].resources, srcs[k + 1]) == AfterDiscard(hands0[k], srcs[k]))
             && (k >= i ==> players[k].resources == hands0[k])
             && board.numResources[k] == counts0[k] - (if k < i then Overflow(Total(hands0[k])) else 0)
    {
      assert DiscardedAfter(i, hands0, counts0, srcs, 2) == DiscardedAfter(i, hands0, counts0, srcs, 1)
          == DiscardedAfter(i, hands0, counts0, srcs, 0);
    }

    /** Player index `i`'s discards, the others' hands untouched, extend `DiscardedUpTo` by one player. */
    twostate lemma DiscardStep(new i: int, new hands0: seq<seq<int>>, new counts0: seq<int>, new srcs: seq<Source>, new src': Source)
      requires old(DiscardedUpTo(i, hands0, counts0, srcs)) && 0 <= i < NumPlayers == |players| && |srcs| == i + 1
      requires forall k :: 0 <= k < NumPlayers && k != i ==> players[k].resources == old(players[k].resources)
      requires old(Hand(players[i].resources)) && (players[i].resources, src') == AfterDiscard(old(players[i].resources), srcs[i])
      requires |old(board.numResources)| == NumPlayers
      requires board.numResources == old(board.numResources)[i := old(board.numResources[i]) - Overflow(old(Total(players[i].resources)))]
      ensures DiscardedUpTo(i + 1, hands0, counts0, srcs + [src'])
    {
      assert old(DiscardedAfter(i, hands0, counts0, srcs, 2)) == old(DiscardedAfter(i, hands0, counts0, srcs, 1))
          == old(DiscardedAfter(i, hands0, counts0, srcs, 0));
      DiscardedDefinition(i + 1, hands0, counts0, srcs + [src']);
    }

    /** The discard step for player index `i`, with the draws `src`. */
    method DiscardTurn(i: int, src: Source) returns (src': Source)
      requires Valid() && Dealt() && 0 <= i < NumPlayers
      modifies players[i], board`numResources
      ensures Valid() && Dealt() && |board.numResources| == NumPlayers
      ensures (players[i].resources, src') == AfterDiscard(old(players[i].resources), src)
      ensures old(Total(players[i].resources)) <= MaxResources ==> players[i].resources == old(players[i].resources)
      ensures old(Total(players[i].resources)) > MaxResources ==>
        Total(players[i].resources) == old(Total(players[i].resources)) - old(Total(players[i].resources)) / 2
      ensures board.numResources == old(board.numResources)[i := old(board.numResources[i]) - Overflow(old(Total(players[i].resources)))]
      ensures players[i].score == old(players[i].score)
      ensures forall k :: 0 <= k < NumPlayers && k != i ==> players[k] != players[i]
    {
      Unfolded();
      var p := players[i];
      HoldsOnBoard(p);
      assert forall k :: 0 <= k < NumPlayers && k != i ==> players[k] != p;
      src' := DiscardIfOver(p, src);
      HoldsOnBoard(p);
      Unfolded();
    }

    /**
     * The choice of the player to move on a 7: the player to rob, and the
     * location to block around that player's buildings, the set of candidate
     * tiles being iterated in the order `arrange` gives.  No location when
     * `getPointToBlock` has nothing to draw from (ValueError), which is
     * always so when there is nobody to rob.
     */
    method ChooseBlock(src: Source, arrange: seq<Spot> -> seq<int>) returns (playerToRob: int, loc: Option<Point>, src': Source)
      requires Valid()
      requires forall xs: seq<Spot> :: IsPermutation(arrange(xs), |xs|)
      ensures Chosen(board, playerToMove, src, arrange, playerToRob, loc, src')
      ensures loc.Some? ==> 1 <= playerToRob <= NumPlayers && playerToRob != playerToMove
      ensures src'.draws == src.draws
    {
      MoverSeated();
      var p := players[playerToMove - 1];
      HoldsOnBoard(p);
      assert p.currentBoard == board && p.playerNum == playerToMove;
      playerToRob, loc, src' := ChooseFor(p, src, arrange);
    }

    /**
     * The robbery of `collectResources` after the discards: the robber moves
     * to the chosen location and the player to move steals from the player
     * to rob.  `false` when there was no location to draw, and then nothing
     * moves and nothing is stolen.  The ghost results name the choice made:
     * the player to rob, the spot blocked (meaningless when `false`) and the
     * number of draws used when the choice was made.
     */
    method Rob(src: Source, arrange: seq<Spot> -> seq<int>)
      returns (ok: bool, src': Source, ghost playerToRob: int, ghost spot: Point, ghost used: nat)
      requires Valid()
      requires forall xs: seq<Spot> :: IsPermutation(arrange(xs), |xs|)
      modifies players, board`numResources, board`robberLocation
      ensures Valid()
      ensures forall k :: 0 <= k < NumPlayers ==> players[k].score == old(players[k].score)
      ensures old(Chosen(board, playerToMove, src, arrange, playerToRob, if ok then Some(spot) else None, Source(src.draws, used)))
      ensures !ok ==>
        && src' == Source(src.draws, used) && board.robberLocation == old(board.robberLocation)
        && forall j :: 0 <= j < NumPlayers ==> players[j].resources == old(players[j].resources)
      ensures ok ==>
        && board.robberLocation == Some(spot) && 1 <= playerToRob <= NumPlayers && playerToRob != playerToMove
        && (forall j :: 0 <= j < NumPlayers && j != playerToMove - 1 && j != playerToRob - 1 ==> players[j].resources == old(players[j].resources))
        && Stolen(old(players[playerToMove - 1].resources), old(players[playerToRob - 1].resources),
                  players[playerToMove - 1].resources, players[playerToRob - 1].resources, Source(src.draws, used), src')
      ensures !ok ==> board.numResources == old(board.numResources)
      ensures ok ==> CountMoved(old(board.numResources), board.numResources, playerToMove - 1, playerToRob - 1,
                                old(Total(players[playerToRob - 1].resources)) > 0)
    {
      var who, at;
      who, at, src' := ChooseBlock(src, arrange);
      playerToRob, used := who, src'.used;
      spot := if at.Some? then at.value else Point(0.0, 0.0);
      assert old(Chosen(board, playerToMove, src, arrange, who, at, src'));
      if at.None? {
        return false, src', playerToRob, spot, used;
      }
      src' := RobAt(who, at.value, src');
      ok := true;
    }

    /** The robbery once the choice is made: the robber moves to `spot` and the player to move steals from `playerToRob`. */
    method RobAt(playerToRob: int, spot: Point, src: Source) returns (src': Source)
      requires Valid() && 1 <= playerToRob <= NumPlayers && playerToRob != playerToMove
      modifies players, board`numResources, board`robberLocation
      ensures Valid() && board.robberLocation == Some(spot)
      ensures forall k :: 0 <= k < NumPlayers ==> players[k].score == old(players[k].score)
      ensures forall j :: 0 <= j < NumPlayers && j != playerToMove - 1 && j != playerToRob - 1 ==> players[j].resources == old(players[j].resources)
      ensures Stolen(old(players[playerToMove - 1].resources), old(players[playerToRob - 1].resources),
                     players[playerToMove - 1].resources, players[playerToRob - 1].resources, src, src')
      ensures CountMoved(old(board.numResources), board.numResources, playerToMove - 1, playerToRob - 1,
                         old(Total(players[playerToRob - 1].resources)) > 0)
    {
      MoveRobber(spot);
      src' := StealFrom(playerToRob, src);
    }

    /** `self.board.robberLocation = ...`: the robber stands on the chosen location. */
    method MoveRobber(loc: Point)
      requires Valid()
      modifies board`robberLocation
      ensures Valid() && board.robberLocation == Some(loc)
      ensures forall j :: 0 <= j < NumPlayers ==> players[j].resources == old(players[j].resources)
    {
      Unfolded();
      board.robberLocation := Some(loc);
      Unfolded();
    }

    /** The player to move steals from player `playerToRob`. */
    method StealFrom(playerToRob: int, src: Source) returns (src': Source)
      requires Valid() && 1 <= playerToRob <= NumPlayers && playerToRob != playerToMove
      modifies players, board`numResources
      ensures Valid()
      ensures forall k :: 0 <= k < NumPlayers ==> players[k].score == old(players[k].score)
      ensures forall j :: 0 <= j < NumPlayers && j != playerToMove - 1 && j != playerToRob - 1 ==> players[j].resources == old(players[j].resources)
      ensures Stolen(old(players[playerToMove - 1].resources), old(players[playerToRob - 1].resources),
                     players[playerToMove - 1].resources, players[playerToRob - 1].resources, src, src')
      ensures CountMoved(old(board.numResources), board.numResources, playerToMove - 1, playerToRob - 1,
                         old(Total(players[playerToRob - 1].resources)) > 0)
    {
      Unfolded();
      var thief, victim := players[playerToMove - 1], players[playerToRob - 1];
      HoldsOnBoard(thief);
      HoldsOnBoard(victim);
      TotalOfHand(victim.resources);
      src' := Steal(thief, victim, src);
      Unfolded();
    }

    /** `collectResources` on a 7: the discards, then the robbery. */
    method Robbery(src: Source, arrange: seq<Spot> -> seq<int>) returns (ok: bool, src': Source)
      requires Valid()
      requires forall xs: seq<Spot> :: IsPermutation(arrange(xs), |xs|)
      modifies players, board`numResources, board`robberLocation
      ensures Valid()
      ensures forall k :: 0 <= k < NumPlayers ==> players[k].score == old(players[k].score)
    {
      ghost var srcs;
      src', srcs := DiscardAll(src);
      ghost var who, spot, used;
      ok, src', who, spot, used := Rob(src', arrange);
    }

    /**
     * `collectResources`: two draws of `randrange(6)` give the roll; a 7
     * brings the discards and the robber, any other roll production.
     * `false` when the robber has nowhere to go.
     */
    method CollectResources(src: Source, arrange: seq<Spot> -> seq<int>) returns (ok: bool, src': Source)
      requires Valid()
      requires forall xs: seq<Spot> :: IsPermutation(arrange(xs), |xs|)
      modifies players, board`numResources, board`robberLocation
      ensures Valid()
      ensures forall k :: 0 <= k < NumPlayers ==> players[k].score == old(players[k].score)
      ensures var first := Below(src, 6);
        var second := Below(first.1, 6);
        var roll := RollDice(first.0, second.0);
        roll != 7 ==>
          && ok && src' == second.1 && old(Dealt())
          && forall k :: 0 <= k < NumPlayers ==>
               players[k].resources == Gained(old(players[k].resources), old(Production(board, k, roll)))
    {
      DealtOfValid();
      var d1, d2;
      d1, src' := Below(src, 6).0, Below(src, 6).1;
      d2, src' := Below(src', 6).0, Below(src', 6).1;
      var diceRoll := RollDice(d1, d2);
      if diceRoll == 7 {
        ok, src' := Robbery(src', arrange);
      } else {
        Produce(diceRoll);
        ok := true;
      }
    }

    /** The player to move takes its turn on the game's board, which it hands back. */
    method Build(src: Source) returns (src': Source)
      requires Valid()
      modifies players, board`settlements, board`cities, board`playerScores, board`roads
      ensures Valid()
      ensures forall k :: 0 <= k < NumPlayers && k != playerToMove - 1 ==> players[k].score == old(players[k].score)
      ensures players[playerToMove - 1].score >= old(players[playerToMove - 1].score)
      ensures forall k :: 0 <= k < NumPlayers && k != playerToMove - 1 ==> players[k].resources == old(players[k].resources)
      ensures && Builders.OnlyOwn(old(board.settlements), board.settlements, playerToMove)
              && Builders.OnlyOwn(old(board.cities), board.cities, playerToMove)
              && Builders.OnlyOwn(old(board.playerScores), board.playerScores, playerToMove)
              && Builders.OnlyOwn(old(board.roads), board.roads, playerToMove)
    {
      Unfolded();
      var p := players[playerToMove - 1];
      HoldsOnBoard(p);
      assert forall k :: 0 <= k < NumPlayers && k != playerToMove - 1 ==> players[k] != p;
      var r;
      ghost var built, roadsBuilt;
      r, src', built, roadsBuilt := Builders.TakeTurn(p, board, src);
      assert r == board;
      HoldsOnBoard(p);
      Unfolded();
    }

    /**
     * The end of `takeTurn`: a player to move with ten points or more is the
     * winner, and the move passes to the next player, a new round starting
     * after player 4.
     */
    method Advance()
      requires Valid()
      modifies this`playerToMove, board`winner, board`turnNumber
      ensures Valid()
      ensures board.winner == if players[old(playerToMove) - 1].score >= PointsToWin then old(playerToMove) else old(board.winner)
      ensures playerToMove == old(playerToMove) % NumPlayers + 1
      ensures board.turnNumber == old(board.turnNumber) + (if old(playerToMove) == NumPlayers then 1 else 0)
      ensures old(WinnerScored()) ==> WinnerScored()
    {
      Unfolded();
      if players[playerToMove - 1].score >= PointsToWin {
        board.winner := playerToMove;
      }
      if playerToMove == NumPlayers {
        playerToMove := 1;
        board.turnNumber := board.turnNumber + 1;
      } else {
        playerToMove := playerToMove + 1;
      }
      Unfolded();
    }

    /** There is no winner yet, or the winner has at least ten points. */
    ghost predicate WinnerScored()
      reads this, board, players
    {
      board.winner == -1 || (1 <= board.winner <= |players| && players[board.winner - 1].score >= PointsToWin)
    }

    /**
     * `takeTurn`: the roll and what it brings, the turn of the player to
     * move, the test for a winner and the passing of the move.  Only the
     * player to move can gain points, so a winner keeps its ten points.
     */
    method TakeTurn(src: Source, arrange: seq<Spot> -> seq<int>) returns (ok: bool, src': Source)
      requires Valid() && WinnerScored()
      requires forall xs: seq<Spot> :: IsPermutation(arrange(xs), |xs|)
      modifies this`playerToMove, players
      modifies board`settlements, board`cities, board`playerScores, board`roads, board`numResources, board`robberLocation
      modifies board`winner, board`turnNumber
      ensures Valid() && WinnerScored()
      ensures forall k :: 0 <= k < NumPlayers && k != old(playerToMove) - 1 ==> players[k].score == old(players[k].score)
      ensures ok ==>
        && playerToMove == old(playerToMove) % NumPlayers + 1
        && board.turnNumber == old(board.turnNumber) + (if old(playerToMove) == NumPlayers then 1 else 0)
        && board.winner == if players[old(playerToMove) - 1].score >= PointsToWin then old(playerToMove) else old(board.winner)
      ensures !ok ==> playerToMove == old(playerToMove) && board.winner == old(board.winner)
      ensures && Builders.OnlyOwn(old(board.settlements), board.settlements, old(playerToMove))
              && Builders.OnlyOwn(old(board.cities), board.cities, old(playerToMove))
              && Builders.OnlyOwn(old(board.playerScores), board.playerScores, old(playerToMove))
              && Builders.OnlyOwn(old(board.roads), board.roads, old(playerToMove))
    {
      ok, src' := RollAndBuild(src, arrange);
      if ok {
        Advance();
      }
    }

    /**
     * The part of `takeTurn` before the move passes: the roll and, unless
     * the robber had nowhere to go, the building of the player to move.
     * Only that player's score can change, and it cannot fall.
     */
    method RollAndBuild(src: Source, arrange: seq<Spot> -> seq<int>) returns (ok: bool, src': Source)
      requires Valid()
      requires forall xs: seq<Spot> :: IsPermutation(arrange(xs), |xs|)
      modifies players, board`settlements, board`cities, board`playerScores, board`roads, board`numResources, board`robberLocation
      ensures Valid()
      ensures forall k :: 0 <= k < NumPlayers && k != playerToMove - 1 ==> players[k].score == old(players[k].score)
      ensures players[playerToMove - 1].score >= old(players[playerToMove - 1].score)
      ensures && Builders.OnlyOwn(old(board.settlements), board.settlements, playerToMove)
              && Builders.OnlyOwn(old(board.cities), board.cities, playerToMove)
              && Builders.OnlyOwn(old(board.playerScores), board.playerScores, playerToMove)
              && Builders.OnlyOwn(old(board.roads), board.roads, playerToMove)
    {
      ok, src' := CollectResources(src, arrange);
      if ok {
        src' := Build(src');
      } else {
        Builders.OnlyOwnSame(board.settlements, playerToMove);
        Builders.OnlyOwnSame(board.cities, playerToMove);
        Builders.OnlyOwnSame(board.playerScores, playerToMove);
        Builders.OnlyOwnSame(board.roads, playerToMove);
      }
    }

    /**
     * `play`: the initial placement, then turns until there is a winner, for
     * at most `fuel` turns.  A winner has at least ten points.
     */
    method Play(src: Source, arrange: seq<Spot> -> seq<int>, fuel: nat) returns (ok: bool, turns: nat, src': Source)
      requires Seated() && board.Valid() && |board.hexIntersections| > 0 && playerToMove == 1 && board.winner == -1
      requires forall k :: 0 <= k < NumPlayers ==> Holds(players[k])
      requires forall xs: seq<Spot> :: IsPermutation(arrange(xs), |xs|)
      modifies this`playerToMove, players
      modifies board`settlements, board`cities, board`playerScores, board`roads, board`numResources, board`robberLocation
      modifies board`winner, board`turnNumber
      ensures turns <= fuel
      ensures ok ==> Valid() && (board.winner != -1 || turns == fuel)
      ensures ok ==> WinnerScored()
    {
      turns := 0;
      ok, src' := Placement(src);
      if !ok {
        return;
      }
      ok, turns, src' := PlayTurns(src', arrange, fuel);
    }

    /** `initPlacement` as `play` starts with it: afterwards the game is in play. */
    method Placement(src: Source) returns (ok: bool, src': Source)
      requires Seated() && board.Valid() && |board.hexIntersections| > 0 && playerToMove == 1
      requires forall k :: 0 <= k < NumPlayers ==> Holds(players[k])
      modifies players, board`settlements, board`playerScores, board`roads, board`numResources
      ensures ok ==> Valid()
    {
      ghost var first, firstEnds, second, secondEnds, mid;
      ok, src', first, firstEnds, second, secondEnds, mid := InitPlacement(src);
    }

    /** The turns of `play` after the initial placement, until there is a winner, for at most `fuel` turns. */
    method PlayTurns(src: Source, arrange: seq<Spot> -> seq<int>, fuel: nat) returns (ok: bool, turns: nat, src': Source)
      requires Valid() && board.winner == -1
      requires forall xs: seq<Spot> :: IsPermutation(arrange(xs), |xs|)
      modifies this`playerToMove, players
      modifies board`settlements, board`cities, board`playerScores, board`roads, board`numResources, board`robberLocation
      modifies board`winner, board`turnNumber
      ensures turns <= fuel
      ensures ok ==> Valid() && (board.winner != -1 || turns == fuel)
      ensures ok ==> WinnerScored()
    {
      turns, src', ok := 0, src, true;
      while board.winner == -1 && turns < fuel
        invariant Valid() && turns <= fuel
        invariant WinnerScored()
        decreases fuel - turns
      {
        ok, src' := TakeTurn(src', arrange);
        turns := turns + 1;
        if !ok {
          return;
        }
      }
    }

    /**
     * `Game()`: a four-player board, players 1 to 4 in red, blue, white and
     * orange, the shuffled tiles and ports laid out; player 1 is to move.
     */
    constructor (tileOrder: seq<int>, portOrder: seq<int>, screenWidth: real, screenHeight: real)
      requires IsPermutation(tileOrder, |TileKinds|) && IsPermutation(portOrder, |PortKinds|)
      ensures Seated() && playerToMove == 1 && fresh(board)
      ensures board.Valid() && |board.tiles| == 19 && |board.ports| == 9 && |board.hexIntersections| > 0
      ensures board.winner == -1 && board.turnNumber == 1
      ensures forall i :: 0 <= i <= NumPlayers ==> board.settlements[i] == [] && board.cities[i] == [] && board.roads[i] == []
      ensures forall i :: 0 <= i < NumPlayers ==>
        && fresh(players[i]) && fresh(players[i].currentBoard) && players[i].Valid()
        && players[i].color == PlayerColors[i] && players[i].score == 0 && players[i].resources == [0, 0, 0, 0, 0]
      ensures forall i :: 0 <= i < NumPlayers ==> Holds(players[i]) && players[i].currentBoard != board
    {
      var b := LaidOutBoard(tileOrder, portOrder, screenWidth, screenHeight);
      var ps := NewPlayers(screenWidth, screenHeight);
      players := ps;
      board := b;
      playerToMove := 1;
    }
  }
}
