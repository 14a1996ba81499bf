/**
 * The shared game board (catan/Board.py): tiles, intersections, ports, the
 * pieces of every player, their public resource counts and scores.
 */
module Boards {
  import opened Wrappers
  import opened Geometry
  import opened Tiles
  import opened Structures
  import opened Random

  const MaxSettlements := 5
  const MaxCities := 4
  const MaxRoads := 15

  /** The 19 tile kinds `initTiles` creates before shuffling them. */
  const TileKinds: seq<string> := ["desert", "ore", "ore", "ore", "brick", "brick", "brick",
    "sheep", "sheep", "sheep", "sheep", "wheat", "wheat", "wheat", "wheat",
    "wood", "wood", "wood", "wood"]

  /** The 9 port kinds `initPorts` creates before shuffling them. */
  const PortKinds: seq<string> := ["general", "general", "general", "general",
    "brick", "ore", "sheep", "wheat", "wood"]

  /** Production numbers handed out, in this order, to the non-desert tiles. */
  const HexNumbers: seq<int> := [5, 2, 6, 3, 8, 10, 9, 12, 11, 4, 8, 10, 9, 4, 5, 6, 3, 11]

  /** Every production number is a dice total other than 7, so every numbered tile is worth 1..5 pips. */
  lemma HexNumbersArePips()
    ensures forall k :: 0 <= k < |HexNumbers| ==> 1 <= PipValue(HexNumbers[k]) <= 5
  {
    forall k | 0 <= k < |HexNumbers|
      ensures 1 <= PipValue(HexNumbers[k]) <= 5
    {
      assert HexNumbers[k] in HexNumbers;
      PipValueRange(HexNumbers[k]);
    }
  }

  /** `rollDice`: two draws of `randrange(6)` plus 2. */
  function RollDice(d1: int, d2: int): (roll: int)
    requires 0 <= d1 < 6 && 0 <= d2 < 6
    ensures 2 <= roll <= 12
  {
    d1 + d2 + 2
  }

  /** Number of second draws `d2 >= from` that give `roll` together with `d1`. */
  function WaysWith(roll: int, d1: int, from: nat): nat
    requires 0 <= d1 < 6
    decreases 6 - from
  {
    if from >= 6 then 0
    else (if RollDice(d1, from) == roll then 1 else 0) + WaysWith(roll, d1, from + 1)
  }

  /** Number of draw pairs `(d1, d2)` with `d1 >= from` that give `roll`. */
  function WaysFrom(roll: int, from: nat): nat
    decreases 6 - from
  {
    if from >= 6 then 0 else WaysWith(roll, from, 0) + WaysFrom(roll, from + 1)
  }

  /** `WaysWith` counts the single second draw `roll - d1 - 2`, when it lies in `[from, 6)`. */
  lemma {:induction false} WaysWithIs(roll: int, d1: int, from: nat)
    requires 0 <= d1 < 6
    ensures WaysWith(roll, d1, from) == if from <= roll - d1 - 2 < 6 then 1 else 0
    decreases 6 - from
  {
    if from < 6 {
      WaysWithIs(roll, d1, from + 1);
    }
  }

  function Max(a: int, b: int): int { if a < b then b else a }

  function Min(a: int, b: int): int { if a < b then a else b }

  /** `WaysFrom` counts the first draws in `[from, 6)` that leave a second draw in `[0, 6)`, i.e. those in `[roll - 7, roll - 2]`. */
  lemma {:induction false} WaysFromIs(roll: int, from: nat)
    ensures WaysFrom(roll, from) == Max(0, Min(6, roll - 1) - Max(from, roll - 7))
    decreases 6 - from
  {
    if from < 6 {
      WaysWithIs(roll, from, 0);
      WaysFromIs(roll, from + 1);
    }
  }

  /** Of the 36 equally likely draw pairs, `6 - |roll - 7|` give `roll`, so 7 is the most likely total; no pair gives a total outside 2..12. */
  lemma RollDistribution(roll: int)
    ensures 2 <= roll <= 12 ==> WaysFrom(roll, 0) == 6 - (if roll < 7 then 7 - roll else roll - 7)
    ensures !(2 <= roll <= 12) ==> WaysFrom(roll, 0) == 0
  {
    WaysFromIs(roll, 0);
  }

  /** The desert is the first tile kind and no other kind is the desert. */
  lemma DesertFirst()
    ensures TileKinds[0] == "desert"
    ensures forall k :: 1 <= k < |TileKinds| ==> TileKinds[k] != "desert"
  {
    assert "desert" !in TileKinds[1..];
    forall k | 1 <= k < |TileKinds|
      ensures TileKinds[k] != "desert"
    {
      assert TileKinds[k] == TileKinds[1..][k - 1];
    }
  }

  /** The locations of tiles that all have one. */
  function LocationsOf(hs: seq<Hexagon>): (locs: seq<Point>)
    reads hs
    requires forall i :: 0 <= i < |hs| ==> hs[i].location.Some?
    ensures |locs| == |hs|
    ensures forall i :: 0 <= i < |hs| ==> locs[i] == hs[i].location.value
  {
    if |hs| == 0 then [] else LocationsOf(hs[..|hs| - 1]) + [hs[|hs| - 1].location.value]
  }

  function AtLocation(p: Point): Point -> bool
  {
    q => PointEq(p, q)
  }

  /** The locations of a list of settlements or cities, in list order. */
  function BuildingLocations(bs: seq<Building>): (locs: seq<Point>)
    ensures |locs| == |bs|
    ensures forall i :: 0 <= i < |bs| ==> locs[i] == bs[i].location
  {
    if |bs| == 0 then [] else BuildingLocations(bs[..|bs| - 1]) + [bs[|bs| - 1].location]
  }

  /** Both endpoints of each road in turn: every entry is an endpoint of some road and vice versa. */
  function RoadEndpoints(rs: seq<Road>): (pts: seq<Point>)
    ensures |pts| == 2 * |rs|
    ensures forall k :: 0 <= k < |rs| ==> rs[k].location1 in pts && rs[k].location2 in pts
  {
    if |rs| == 0 then []
    else
      var r := rs[|rs| - 1];
      assert forall k :: 0 <= k < |rs| - 1 ==> rs[k] == rs[..|rs| - 1][k];
      RoadEndpoints(rs[..|rs| - 1]) + [r.location1, r.location2]
  }

  /** `p` is an endpoint of one of the roads. */
  ghost predicate IsEndpoint(p: Point, rs: seq<Road>)
  {
    exists k :: 0 <= k < |rs| && (p == rs[k].location1 || p == rs[k].location2)
  }

  /** Every entry of `RoadEndpoints(rs)` is an endpoint of one of the roads. */
  lemma {:induction false} EndpointsComeFromRoads(rs: seq<Road>)
    ensures forall i :: 0 <= i < |RoadEndpoints(rs)| ==> IsEndpoint(RoadEndpoints(rs)[i], rs)
  {
    if |rs| > 0 {
      var init := rs[..|rs| - 1];
      EndpointsComeFromRoads(init);
      var pts := RoadEndpoints(rs);
      assert pts == RoadEndpoints(init) + [rs[|rs| - 1].location1, rs[|rs| - 1].location2];
      forall i | 0 <= i < |pts|
        ensures IsEndpoint(pts[i], rs)
      {
        if i < |pts| - 2 {
          assert pts[i] == RoadEndpoints(init)[i];
          assert IsEndpoint(pts[i], init);
          var k :| 0 <= k < |init| && (pts[i] == init[k].location1 || pts[i] == init[k].location2);
          assert init[k] == rs[k];
        } else {
          assert pts[i] == rs[|rs| - 1].location1 || pts[i] == rs[|rs| - 1].location2;
        }
      }
    }
  }

  /** Each player's list holds only that player's pieces. */
  predicate OwnedBuildings(lists: seq<seq<Building>>)
  {
    forall i, k :: 0 <= i < |lists| && 0 <= k < |lists[i]| ==> lists[i][k].playerNum == i + 1
  }

  predicate OwnedRoads(lists: seq<seq<Road>>)
  {
    forall i, k :: 0 <= i < |lists| && 0 <= k < |lists[i]| ==> lists[i][k].playerNum == i + 1
  }

  /** List `i` holds a building at `q`. */
  ghost predicate HeldIn(lists: seq<seq<Building>>, i: int, q: Point)
  {
    0 <= i < |lists| && exists k :: 0 <= k < |lists[i]| && PointEq(q, lists[i][k].location)
  }


  /** One list per player plus the extra one, each holding at most `cap` of its owner's buildings. */
  ghost predicate BuildingLists(lists: seq<seq<Building>>, numPlayers: nat, cap: nat)
  {
    |lists| == numPlayers + 1 && OwnedBuildings(lists) && forall i :: 0 <= i < |lists| ==> |lists[i]| <= cap
  }

  ghost predicate RoadLists(lists: seq<seq<Road>>, numPlayers: nat, cap: nat)
  {
    |lists| == numPlayers + 1 && OwnedRoads(lists) && forall i :: 0 <= i < |lists| ==> |lists[i]| <= cap
  }

  /** Replacing list `i` with at most `cap` of player `i + 1`'s buildings keeps the lists well formed. */
  lemma BuildingListsUpdate(lists: seq<seq<Building>>, numPlayers: nat, cap: nat, i: int, l: seq<Building>)
    requires BuildingLists(lists, numPlayers, cap) && 0 <= i < |lists| && |l| <= cap
    requires forall k :: 0 <= k < |l| ==> l[k].playerNum == i + 1
    ensures BuildingLists(lists[i := l], numPlayers, cap)
  {
  }

  lemma RoadListsUpdate(lists: seq<seq<Road>>, numPlayers: nat, cap: nat, i: int, l: seq<Road>)
    requires RoadLists(lists, numPlayers, cap) && 0 <= i < |lists| && |l| <= cap
    requires forall k :: 0 <= k < |l| ==> l[k].playerNum == i + 1
    ensures RoadLists(lists[i := l], numPlayers, cap)
  {
  }

  /** No building of the lists is at `q`. */
  ghost predicate Unsettled(lists: seq<seq<Building>>, q: Point)
  {
    forall i, k :: 0 <= i < |lists| && 0 <= k < |lists[i]| ==> !PointEq(q, lists[i][k].location)
  }

  /** A building the owner-filtered scan finds lies in the owner's own list. */
  lemma FoundIsHeld(lists: seq<seq<Building>>, q: Point, playerNum: int)
    requires OwnedBuildings(lists) && 1 <= playerNum <= |lists|
    requires FindInLists(lists, AtPoint(q, playerNum)) != -1
    ensures HeldIn(lists, playerNum - 1, q)
  {
    var j := FindInLists(lists, AtPoint(q, playerNum));
    var i :| 0 <= i < |lists| && 0 <= j < |lists[i]| && AtPoint(q, playerNum)(lists[i][j]);
    MatchIsHeld(lists, q, playerNum, i, j);
  }

  lemma MatchIsHeld(lists: seq<seq<Building>>, q: Point, playerNum: int, i: int, j: int)
    requires OwnedBuildings(lists) && 0 <= i < |lists| && 0 <= j < |lists[i]| && playerNum != -1
    requires BuildingMatches(lists[i][j], q, playerNum)
    ensures HeldIn(lists, playerNum - 1, q)
  {
    HeldAt(lists, i, q, j);
  }

  lemma HeldAt(lists: seq<seq<Building>>, i: int, q: Point, k: int)
    requires 0 <= i < |lists| && 0 <= k < |lists[i]| && PointEq(q, lists[i][k].location)
    ensures HeldIn(lists, i, q)
  {
  }

  /** With each list holding only its owner's pieces, the owner-filtered scan finds a building exactly when the owner's list has one at `q`. */
  lemma HeldIff(lists: seq<seq<Building>>, q: Point, playerNum: int)
    requires OwnedBuildings(lists) && 1 <= playerNum <= |lists|
    ensures FindInLists(lists, AtPoint(q, playerNum)) != -1 <==> HeldIn(lists, playerNum - 1, q)
  {
    if FindInLists(lists, AtPoint(q, playerNum)) != -1 {
      FoundIsHeld(lists, q, playerNum);
    }
    if HeldIn(lists, playerNum - 1, q) {
      var k :| 0 <= k < |lists[playerNum - 1]| && PointEq(q, lists[playerNum - 1][k].location);
      assert AtPoint(q, playerNum)(lists[playerNum - 1][k]);
    }
  }

  /** The unfiltered scan finds no building exactly when no list has one at `q`. */
  lemma UnsettledIff(lists: seq<seq<Building>>, q: Point)
    ensures FindInLists(lists, AtPoint(q, -1)) == -1 <==> Unsettled(lists, q)
  {
    var P := AtPoint(q, -1);
    if FindInLists(lists, P) == -1 {
      forall i, k | 0 <= i < |lists| && 0 <= k < |lists[i]|
        ensures !PointEq(q, lists[i][k].location)
      {
        assert !P(lists[i][k]);
      }
    } else {
      var i, k :| 0 <= i < |lists| && 0 <= k < |lists[i]| && P(lists[i][k]);
      assert PointEq(q, lists[i][k].location);
    }
  }

  /** For non-negative `a` and `b`, `a < b` exactly when `a * a < b * b`. */
  lemma SquareLess(a: real, b: real)
    requires a >= 0.0 && b >= 0.0
    ensures a < b <==> a * a < b * b
  {
    if a < b {
      assert a * b - a * a == a * (b - a) >= 0.0;
      assert b * b - a * b == b * (b - a) > 0.0;
    } else {
      assert b * a - b * b == b * (a - b) >= 0.0;
      assert a * a - b * a == a * (a - b) >= 0.0;
    }
  }

  /** A tile as the `Hexagon` constructor leaves it. */
  ghost predicate Unset(t: Hexagon)
    reads t
  {
    t.number == 0 && t.value == 0 && t.location == None
  }

  /**
   * The production number `initTiles` gives the tile at position `k` when the
   * desert is at `d`: the numbers go out in order, skipping the desert.
   */
  function NumberAt(k: int, d: int): int
    requires 0 <= k < 19 && 0 <= d < 19 && k != d
  {
    HexNumbers[if k < d then k else k - 1]
  }

  /** Tile `k` as `initTiles` leaves it when the desert is at `d`: located at `center` and numbered unless it is the desert. */
  ghost predicate Placed(t: Hexagon, center: Point, k: int, d: int)
    reads t
  {
    && t.location == Some(center)
    && if k == d || !(0 <= k < 19 && 0 <= d < 19) then t.number == 0 && t.value == 0
       else Numbered(t, NumberAt(k, d))
  }

  /** A placed tile other than the desert is worth 1..5 pips; the desert is worth 0. */
  lemma PlacedValue(t: Hexagon, center: Point, k: int, d: int)
    requires Placed(t, center, k, d)
    ensures k != d && 0 <= k < 19 && 0 <= d < 19 ==> 1 <= t.value <= 5
    ensures k == d ==> t.value == 0
  {
    if k != d && 0 <= k < 19 && 0 <= d < 19 {
      HexNumbersArePips();
      assert NumberAt(k, d) in HexNumbers;
    }
  }

  /** A tile carrying production number `n` and its pip value. */
  ghost predicate Numbered(t: Hexagon, n: int)
    reads t
  {
    t.number == n && t.value == PipValue(n)
  }

  /** The tile objects of `initTiles`, one per kind in the given (shuffled) order. */
  method NewTiles(kinds: seq<string>) returns (ts: seq<Hexagon>)
    ensures |ts| == |kinds|
    ensures forall k :: 0 <= k < |ts| ==> fresh(ts[k])
    ensures forall a, b :: 0 <= a < b < |ts| ==> ts[a] != ts[b]
    ensures forall k :: 0 <= k < |ts| ==> ts[k].hexType == kinds[k] && Unset(ts[k])
  {
    ts := [];
    var i := 0;
    while i < |kinds|
      invariant 0 <= i <= |kinds| && |ts| == i
      invariant forall k :: 0 <= k < i ==> fresh(ts[k])
      invariant forall a, b :: 0 <= a < b < i ==> ts[a] != ts[b]
      invariant forall k :: 0 <= k < i ==> ts[k].hexType == kinds[k] && Unset(ts[k])
    {
      var h := new Hexagon(kinds[i]);
      ts := ts + [h];
      i := i + 1;
    }
  }

  /**
   * The tile objects of `initTiles` after the shuffle: tile `i` has kind
   * `TileKinds[order[i]]`, and exactly the tile at the returned `d` is the desert.
   */
  method ShuffledTiles(order: seq<int>) returns (ts: seq<Hexagon>, ghost d: int)
    requires IsPermutation(order, |TileKinds|)
    ensures |ts| == 19 && 0 <= d < 19 && order[d] == 0
    ensures forall k :: 0 <= k < 19 ==> fresh(ts[k])
    ensures forall a, b :: 0 <= a < b < 19 ==> ts[a] != ts[b]
    ensures forall k :: 0 <= k < 19 ==> ts[k].hexType == TileKinds[order[k]] && Unset(ts[k])
    ensures forall k :: 0 <= k < 19 ==> (ts[k].IsDesert() <==> k == d)
  {
    DesertFirst();
    assert |TileKinds| == 19 && 0 in order;
    d :| 0 <= d < 19 && order[d] == 0;
    var made := NewTiles(TileKinds);
    ts := seq(19, i requires 0 <= i < 19 => made[order[i]]);
    forall k | 0 <= k < 19
      ensures ts[k].IsDesert() <==> k == d
    {
      assert ts[k].hexType == TileKinds[order[k]];
    }
  }

  /** No building of `lists` stands at `q`, under the board's point equality. */
  ghost predicate NoneAt(lists: seq<seq<Building>>, q: Point)
  {
    forall i, k :: 0 <= i < |lists| && 0 <= k < |lists[i]| ==> !PointEq(q, lists[i][k].location)
  }

  /**
   * The distance rule on given building lists: nothing stands on `p` or on
   * any of the intersections `adj` next to it.
   */
  ghost predicate ClearIn(settlements: seq<seq<Building>>, cities: seq<seq<Building>>, adj: seq<Point>, p: Point)
  {
    ClearInAfter(settlements, cities, adj, p, 2)
  }

  /** `ClearIn`, reached only after `delay` unfoldings. */
  ghost predicate ClearInAfter(settlements: seq<seq<Building>>, cities: seq<seq<Building>>, adj: seq<Point>, p: Point, delay: nat)
    decreases delay
  {
    if delay > 0 then ClearInAfter(settlements, cities, adj, p, delay - 1)
    else
      && NoneAt(settlements, p) && NoneAt(cities, p)
      && forall k :: 0 <= k < |adj| ==> NoneAt(settlements, adj[k]) && NoneAt(cities, adj[k])
  }

  /** What `ClearIn` says, spelt out. */
  lemma ClearInDefinition(settlements: seq<seq<Building>>, cities: seq<seq<Building>>, adj: seq<Point>, p: Point)
    ensures ClearIn(settlements, cities, adj, p) <==>
      && NoneAt(settlements, p) && NoneAt(cities, p)
      && forall k :: 0 <= k < |adj| ==> NoneAt(settlements, adj[k]) && NoneAt(cities, adj[k])
  {
    assert ClearInAfter(settlements, cities, adj, p, 2) == ClearInAfter(settlements, cities, adj, p, 1)
        == ClearInAfter(settlements, cities, adj, p, 0);
  }

  /** No road of `roads` joins `p1` and `p2`, in either orientation. */
  ghost predicate NoRoadIn(roads: seq<seq<Road>>, p1: Point, p2: Point)
  {
    forall i, k :: 0 <= i < |roads| && 0 <= k < |roads[i]| ==>
      !(PointEq(p1, roads[i][k].location1) && PointEq(p2, roads[i][k].location2))
      && !(PointEq(p1, roads[i][k].location2) && PointEq(p2, roads[i][k].location1))
  }

  class Board {
    const numPlayers: nat
    const centerX: real
    const centerY: real
    const height: real
    const width: real
    const smallWidth: real

    var robberLocation: Option<Point>
    var tiles: seq<Hexagon>
    var hexCenters: seq<Point>
    var hexIntersections: seq<Point>
    var ports: seq<Port>
    /** `numPlayers + 1` lists each: one per player, plus the list `Board.__init__` starts with (`[[]]`). */
    var settlements: seq<seq<Building>>
    var cities: seq<seq<Building>>
    var roads: seq<seq<Road>>
    var numResources: seq<int>
    var playerScores: seq<int>
    var turnNumber: int
    var winner: int

    ghost predicate TilesValid()
      reads this`tiles, this`robberLocation, tiles
    {
      && (|tiles| == 0 || |tiles| == 19)
      && (forall i :: 0 <= i < |tiles| ==> tiles[i].location.Some? && tiles[i].value >= 0)
      && (|tiles| > 0 ==> robberLocation.Some?)
    }

    ghost predicate Valid()
      reads this`settlements, this`cities, this`roads, this`numResources, this`playerScores
      reads this`tiles, this`robberLocation, tiles
    {
      && BuildingLists(settlements, numPlayers, MaxSettlements)
      && BuildingLists(cities, numPlayers, MaxCities)
      && RoadLists(roads, numPlayers, MaxRoads)
      && |numResources| == numPlayers && |playerScores| == numPlayers
      && TilesValid()
    }

    /** The screen size is a parameter; the hexagon dimensions derive from it as in `Board.__init__`. */
    constructor (numPlayers: nat, screenWidth: real, screenHeight: real)
      ensures Valid()
      ensures this.numPlayers == numPlayers
      ensures centerX == screenWidth / 2.0 && centerY == screenHeight / 2.0
      ensures height == centerY / 5.6 && width == height * 1.15 && smallWidth == width / 2.0
      ensures robberLocation == None && tiles == [] && hexCenters == [] && hexIntersections == [] && ports == []
      ensures forall i :: 0 <= i <= numPlayers ==> settlements[i] == [] && cities[i] == [] && roads[i] == []
      ensures forall i :: 0 <= i < numPlayers ==> numResources[i] == 0 && playerScores[i] == 0
      ensures turnNumber == 1 && winner == -1
    {
      this.numPlayers := numPlayers;
      centerX := screenWidth / 2.0;
      centerY := screenHeight / 2.0;
      height := screenHeight / 2.0 / 5.6;
      width := screenHeight / 2.0 / 5.6 * 1.15;
      smallWidth := screenHeight / 2.0 / 5.6 * 1.15 / 2.0;
      robberLocation := None;
      tiles, hexCenters, hexIntersections, ports := [], [], [], [];
      var ss: seq<seq<Building>>, cs: seq<seq<Building>>, rs: seq<seq<Road>> := [[]], [[]], [[]];
      var nr: seq<int>, ps: seq<int> := [], [];
      var n := 0;
      while n < numPlayers
        invariant 0 <= n <= numPlayers
        invariant |ss| == |cs| == |rs| == n + 1 && |nr| == |ps| == n
        invariant forall i :: 0 <= i <= n ==> ss[i] == [] && cs[i] == [] && rs[i] == []
        invariant forall i :: 0 <= i < n ==> nr[i] == 0 && ps[i] == 0
      {
        ss, cs, rs := ss + [[]], cs + [[]], rs + [[]];
        nr, ps := nr + [0], ps + [0];
        n := n + 1;
      }
      settlements, cities, roads := ss, cs, rs;
      numResources, playerScores := nr, ps;
      turnNumber := 1;
      winner := -1;
    }

    /** The 19 hexagon centres, in the order `initTiles` lists them. */
    function HexCenters(): (cs: seq<Point>)
      ensures |cs| == 19
    {
      var cx, cy, w, h, sw := centerX, centerY, width, height, smallWidth;
      [Point(cx, cy - 2.0 * h * 2.0),
       Point(cx - (w + sw), cy - 3.0 * h),
       Point(cx - (w * 2.0 + sw * 2.0), cy - h * 2.0),
       Point(cx - (w * 2.0 + sw * 2.0), cy),
       Point(cx - (w * 2.0 + sw * 2.0), cy + h * 2.0),
       Point(cx - (w + sw), cy + 3.0 * h),
       Point(cx, cy + 2.0 * h * 2.0),
       Point(cx + (w + sw), cy + 3.0 * h),
       Point(cx + (w * 2.0 + sw * 2.0), cy + h * 2.0),
       Point(cx + (w * 2.0 + sw * 2.0), cy),
       Point(cx + (w * 2.0 + sw * 2.0), cy - h * 2.0),
       Point(cx + (w + sw), cy - 3.0 * h),
       Point(cx, cy - h * 2.0),
       Point(cx - (w + sw), cy - h),
       Point(cx - (w + sw), cy + h),
       Point(cx, cy + h * 2.0),
       Point(cx + (w + sw), cy + h),
       Point(cx + (w + sw), cy - h),
       Point(cx, cy)]
    }

    /** The six corners `initTiles` records around one centre. */
    function CornersOf(c: Point): (ps: seq<Point>)
      ensures |ps| == 6
    {
      [Point(c.x + width, c.y), Point(c.x - width, c.y),
       Point(c.x + smallWidth, c.y + height), Point(c.x - smallWidth, c.y + height),
       Point(c.x + smallWidth, c.y - height), Point(c.x - smallWidth, c.y - height)]
    }

    /** The corners of every centre in turn, before duplicates are removed. */
    function Corners(centers: seq<Point>): (ps: seq<Point>)
      ensures |ps| == 6 * |centers|
    {
      if |centers| == 0 then [] else Corners(centers[..|centers| - 1]) + CornersOf(centers[|centers| - 1])
    }

    /** First endpoints of the nine port positions. */
    function PortEnds1(): (ps: seq<Point>)
      ensures |ps| == 9
    {
      var cx, cy, w, h, sw := centerX, centerY, width, height, smallWidth;
      [Point(cx - sw, cy + 5.0 * h),
       Point(cx - (w + sw * 2.0), cy + 2.0 * h * 2.0),
       Point(cx - (3.0 * w + sw * 2.0), cy),
       Point(cx - (3.0 * w + sw * 2.0), cy - h * 2.0),
       Point(cx - (w + sw * 2.0), cy - 2.0 * h * 2.0),
       Point(cx + w + sw * 2.0, cy - 2.0 * h * 2.0),
       Point(cx + (3.0 * w + sw * 2.0), cy - h * 2.0),
       Point(cx + (3.0 * w + sw * 2.0), cy),
       Point(cx + (w + sw * 2.0), cy + 2.0 * h * 2.0)]
    }

    /** Second endpoints of the nine port positions. */
    function PortEnds2(): (ps: seq<Point>)
      ensures |ps| == 9
    {
      var cx, cy, w, h, sw := centerX, centerY, width, height, smallWidth;
      [Point(cx + sw, cy + 5.0 * h),
       Point(cx - (w * 2.0 + sw), cy + 3.0 * h),
       Point(cx - (w * 2.0 + 3.0 * sw), cy + h),
       Point(cx - (w * 2.0 + 3.0 * sw), cy - 3.0 * h),
       Point(cx - w, cy - 2.0 * h * 2.0),
       Point(cx + w, cy - 2.0 * h * 2.0),
       Point(cx + (w * 2.0 + 3.0 * sw), cy - 3.0 * h),
       Point(cx + (w * 2.0 + 3.0 * sw), cy + h),
       Point(cx + (w * 2.0 + sw), cy + 3.0 * h)]
    }

    /**
     * `initTiles`, with the shuffled order of the 19 tile kinds as input: tile
     * `i` gets kind `shuffled[i]` and centre `i`; the non-deserts are numbered
     * from `HexNumbers` in order, the desert keeps 0 and holds the robber; the
     * intersections are the corners without duplicates.
     */
    method InitTiles(order: seq<int>)
      requires Valid() && tiles == [] && hexCenters == [] && hexIntersections == []
      requires IsPermutation(order, |TileKinds|)
      modifies this`tiles, this`hexCenters, this`hexIntersections, this`robberLocation
      ensures Valid()
      ensures |tiles| == 19 && hexCenters == HexCenters()
      ensures forall i :: 0 <= i < |tiles| ==> fresh(tiles[i])
      ensures forall i, j :: 0 <= i < j < |tiles| ==> tiles[i] != tiles[j]
      ensures forall i :: 0 <= i < 19 ==> tiles[i].hexType == TileKinds[order[i]]
      ensures forall d :: 0 <= d < 19 && order[d] == 0 ==>
        && robberLocation == Some(hexCenters[d])
        && forall k :: 0 <= k < 19 ==> Placed(tiles[k], hexCenters[k], k, d)
      ensures hexIntersections == Dedup(Corners(hexCenters), PointEq)
    {
      LayTiles(order);
      LayOutIntersections();
    }

    /** The first part of `initTiles`: shuffle the tiles, place them on the centres and number them. */
    method LayTiles(order: seq<int>)
      requires IsPermutation(order, |TileKinds|)
      modifies this`tiles, this`hexCenters, this`robberLocation
      ensures TilesValid()
      ensures |tiles| == 19 && hexCenters == HexCenters()
      ensures forall i :: 0 <= i < |tiles| ==> fresh(tiles[i])
      ensures forall i, j :: 0 <= i < j < |tiles| ==> tiles[i] != tiles[j]
      ensures forall i :: 0 <= i < 19 ==> tiles[i].hexType == TileKinds[order[i]]
      ensures forall d :: 0 <= d < 19 && order[d] == 0 ==>
        && robberLocation == Some(hexCenters[d])
        && forall k :: 0 <= k < 19 ==> Placed(tiles[k], hexCenters[k], k, d)
    {
      var ts, d := ShuffledTiles(order);
      tiles := ts;
      hexCenters := HexCenters();
      NumberTiles(tiles, hexCenters, d);
      forall k | 0 <= k < 19
        ensures tiles[k].location.Some? && tiles[k].value >= 0
      {
        PlacedValue(tiles[k], hexCenters[k], k, d);
      }
    }

    /** The intersections of `initTiles`: every corner of every centre, duplicates removed. */
    method LayOutIntersections()
      modifies this`hexIntersections
      ensures hexIntersections == Dedup(Corners(hexCenters), PointEq)
    {
      var corners := CornerList(hexCenters);
      hexIntersections := Dedup(corners, PointEq);
    }

    /** The numbering loop of `initTiles` over freshly made tiles, the desert being at `d`. */
    method NumberTiles(ts: seq<Hexagon>, centers: seq<Point>, ghost d: int)
      requires |ts| == |centers| == 19 && 0 <= d < 19
      requires forall k :: 0 <= k < 19 ==> (ts[k].IsDesert() <==> k == d)
      requires forall a, b :: 0 <= a < b < 19 ==> ts[a] != ts[b]
      requires forall k :: 0 <= k < 19 ==> Unset(ts[k])
      modifies ts, this`robberLocation
      ensures forall k :: 0 <= k < 19 ==> Placed(ts[k], centers[k], k, d)
      ensures robberLocation == Some(centers[d])
    {
      var counter := 0;
      var i := 0;
      while i < |ts|
        invariant 0 <= i <= 19
        invariant counter == if i <= d then i else i - 1
        invariant forall k :: i <= k < 19 ==> Unset(ts[k])
        invariant forall k :: 0 <= k < i ==> Placed(ts[k], centers[k], k, d)
        invariant d < i ==> robberLocation == Some(centers[d])
      {
        PlaceTile(ts[i], centers[i], counter);
        if !ts[i].IsDesert() {
          counter := counter + 1;
        } else {
          robberLocation := ts[i].location;
        }
        i := i + 1;
      }
    }

    /** One step of the numbering loop of `initTiles`: locate the tile and, unless it is the desert, give it the next production number. */
    static method PlaceTile(t: Hexagon, center: Point, counter: int)
      requires Unset(t) && 0 <= counter
      requires !t.IsDesert() ==> counter < |HexNumbers|
      modifies t
      ensures t.location == Some(center)
      ensures t.IsDesert() ==> t.number == 0 && t.value == 0
      ensures !t.IsDesert() ==> Numbered(t, HexNumbers[counter])
    {
      t.SetLocation(center);
      if !t.IsDesert() {
        t.SetNumber(HexNumbers[counter]);
      }
    }

    /** The corner-collecting loop of `initTiles`. */
    method CornerList(centers: seq<Point>) returns (corners: seq<Point>)
      ensures corners == Corners(centers)
    {
      corners := [];
      var i := 0;
      while i < |centers|
        invariant 0 <= i <= |centers|
        invariant corners == Corners(centers[..i])
      {
        assert centers[..i + 1][..i] == centers[..i];
        corners := corners + CornersOf(centers[i]);
        i := i + 1;
      }
      assert centers[..|centers|] == centers;
    }

    /**
     * `initPorts`, with the shuffle as an input: port `i` gets kind
     * `PortKinds[order[i]]` and serves the `i`-th pair of port points.
     */
    method InitPorts(order: seq<int>)
      requires ports == []
      requires IsPermutation(order, |PortKinds|)
      modifies this`ports
      ensures |ports| == 9
      ensures forall i :: 0 <= i < 9 ==>
        ports[i].portType == PortKinds[order[i]] && ports[i].portLocations == DoublePoint(PortEnds1()[i], PortEnds2()[i])
    {
      var i := 0;
      while i < 9
        invariant 0 <= i <= 9 && |ports| == i
        invariant forall k :: 0 <= k < i ==>
          ports[k] == Port(PortKinds[order[k]], DoublePoint(PortEnds1()[k], PortEnds2()[k]))
      {
        ports := ports + [Port(PortKinds[order[i]], DoublePoint(PortEnds1()[i], PortEnds2()[i]))];
        i := i + 1;
      }
    }

    /** `findHexIndex` from tile `k` on: the first tile at or after `k` located at `p`, or -1. */
    function HexIndexFrom(p: Point, k: nat): (i: int)
      reads this`tiles, this`robberLocation, tiles
      requires TilesValid()
      ensures i == -1 || k <= i < |tiles|
      decreases |tiles| - k
    {
      if k >= |tiles| then -1
      else if PointEq(p, tiles[k].location.value) then k
      else HexIndexFrom(p, k + 1)
    }

    function HexIndex(p: Point): (i: int)
      reads this`tiles, this`robberLocation, tiles
      requires TilesValid()
    {
      HexIndexFrom(p, 0)
    }

    /** `findHexIndex` finds the first tile located at `p`, and -1 exactly when no tile is. */
    lemma {:induction false} HexIndexFromSound(p: Point, k: nat)
      requires TilesValid()
      ensures var i := HexIndexFrom(p, k);
        && (i == -1 <==> forall j :: k <= j < |tiles| ==> !PointEq(p, tiles[j].location.value))
        && (i != -1 ==> PointEq(p, tiles[i].location.value) && forall j :: k <= j < i ==> !PointEq(p, tiles[j].location.value))
      decreases |tiles| - k
    {
      if k < |tiles| {
        HexIndexFromSound(p, k + 1);
      }
    }

    method FindHexIndex(p: Point) returns (i: int)
      requires TilesValid()
      ensures i == HexIndex(p)
    {
      i := 0;
      while i < |tiles|
        invariant 0 <= i <= |tiles|
        invariant HexIndexFrom(p, i) == HexIndex(p)
      {
        if PointEq(p, tiles[i].location.value) {
          return;
        }
        i := i + 1;
      }
      i := -1;
    }

    /** The six points `getAdjacentHexes` probes; the last two repeat the third and fourth. */
    function Probes(p: Point): (ps: seq<Point>)
      ensures |ps| == 6
    {
      [Point(p.x + width, p.y), Point(p.x - width, p.y),
       Point(p.x + smallWidth, p.y + height), Point(p.x + smallWidth, p.y - height),
       Point(p.x + smallWidth, p.y + height), Point(p.x + smallWidth, p.y - height)]
    }

    /** The west-side corners `(x - smallWidth, y +- height)` are never probed. */
    lemma ProbesMissWestCorners(p: Point)
      requires smallWidth > 0.0 && height > 0.0
      ensures Probes(p)[4] == Probes(p)[2] && Probes(p)[5] == Probes(p)[3]
      ensures forall k :: 0 <= k < 6 ==>
        Probes(p)[k] != Point(p.x - smallWidth, p.y + height) && Probes(p)[k] != Point(p.x - smallWidth, p.y - height)
    {
    }

    /**
     * `getAdjacentHexes` restricted to the first `n` probes: for each probe `i`
     * that finds some tile, the tile appended is `tiles[i]` (the probe's
     * position), not the tile found.
     */
    function AdjacentHexesUpTo(p: Point, n: nat): (hs: seq<Hexagon>)
      reads this`tiles, this`robberLocation, tiles
      requires TilesValid() && n <= 6
      ensures |hs| <= n
    {
      if n == 0 then []
      else
        var r := AdjacentHexesUpTo(p, n - 1);
        if HexIndex(Probes(p)[n - 1]) != -1 then r + [tiles[n - 1]] else r
    }

    /**
     * What `getAdjacentHexes` returns: only tiles among the first `n` of the
     * board, and tile `k` exactly when probe `k` finds a tile, whichever tile
     * that is.
     */
    lemma {:induction false} AdjacentHexesUpToSound(p: Point, n: nat)
      requires TilesValid() && n <= 6
      ensures |tiles| == 0 ==> AdjacentHexesUpTo(p, n) == []
      ensures |tiles| > 0 ==> forall k :: 0 <= k < |AdjacentHexesUpTo(p, n)| ==> AdjacentHexesUpTo(p, n)[k] in tiles[..n]
      ensures forall k :: 0 <= k < n && HexIndex(Probes(p)[k]) != -1 ==> tiles[k] in AdjacentHexesUpTo(p, n)
    {
      if n > 0 {
        AdjacentHexesUpToSound(p, n - 1);
        if |tiles| > 0 {
          assert forall t :: t in tiles[..n - 1] ==> t in tiles[..n];
        }
      }
    }

    function AdjacentHexes(p: Point): (hs: seq<Hexagon>)
      reads this`tiles, this`robberLocation, tiles
      requires TilesValid()
    {
      AdjacentHexesUpTo(p, 6)
    }

    /** The six `findHexIndex` calls of `getAdjacentHexes`, one per probe. */
    method ProbeIndices(probes: seq<Point>) returns (found: seq<int>)
      requires TilesValid() && |probes| == 6
      ensures |found| == 6
      ensures found[0] == HexIndex(probes[0]) && found[1] == HexIndex(probes[1]) && found[2] == HexIndex(probes[2])
      ensures found[3] == HexIndex(probes[3]) && found[4] == HexIndex(probes[4]) && found[5] == HexIndex(probes[5])
    {
      var i0 := FindHexIndex(probes[0]);
      var i1 := FindHexIndex(probes[1]);
      var i2 := FindHexIndex(probes[2]);
      var i3 := FindHexIndex(probes[3]);
      var i4 := FindHexIndex(probes[4]);
      var i5 := FindHexIndex(probes[5]);
      found := [i0, i1, i2, i3, i4, i5];
    }

    method GetAdjacentHexes(p: Point) returns (hs: seq<Hexagon>)
      requires TilesValid()
      ensures hs == AdjacentHexes(p)
    {
      var found := ProbeIndices(Probes(p));
      hs := [];
      var i := 0;
      while i < 6
        invariant 0 <= i <= 6
        invariant hs == AdjacentHexesUpTo(p, i)
      {
        if found[i] != -1 {
          hs := hs + [tiles[i]];
        }
        i := i + 1;
      }
    }

    /**
     * `isAdjacent`: the distance between the points is within 2 of twice the
     * small width.  Stated over squared distances, so no square root is needed;
     * `IsAdjacentDistance` shows it agrees with the test on the distance itself.
     */
    predicate IsAdjacent(p: Point, q: Point)
    {
      AdjacentAfter(p, q, 3)
    }

    /** The test itself, on squared distances. */
    predicate AdjacentBySquares(p: Point, q: Point)
    {
      var dx, dy := q.x - p.x, q.y - p.y;
      var d2, c := dx * dx + dy * dy, smallWidth * 2.0;
      c + 2.0 > 0.0 && d2 < (c + 2.0) * (c + 2.0) && (c < 2.0 || (c - 2.0) * (c - 2.0) < d2)
    }

    /**
     * `AdjacentBySquares`, reached only after `delay` unfoldings.  The
     * verifier unfolds a recursive definition a bounded number of times, so
     * the non-linear test stays out of the proofs that only pass adjacency
     * along; `IsAdjacentDefinition` gives it to the proofs that need it.
     */
    predicate AdjacentAfter(p: Point, q: Point, delay: nat)
      decreases delay
    {
      if delay == 0 then AdjacentBySquares(p, q) else AdjacentAfter(p, q, delay - 1)
    }

    lemma IsAdjacentDefinition(p: Point, q: Point)
      ensures IsAdjacent(p, q) == AdjacentBySquares(p, q)
    {
      assert AdjacentAfter(p, q, 3) == AdjacentAfter(p, q, 2);
      assert AdjacentAfter(p, q, 1) == AdjacentAfter(p, q, 0);
    }

    /** For the distance `r` between the points (any `r >= 0` squaring to the squared distance), `IsAdjacent` is `abs(r - 2 * smallWidth) < 2`. */
    lemma IsAdjacentDistance(p: Point, q: Point, r: real)
      requires r >= 0.0 && r * r == (q.x - p.x) * (q.x - p.x) + (q.y - p.y) * (q.y - p.y)
      ensures IsAdjacent(p, q) <==> -2.0 < r - smallWidth * 2.0 < 2.0
    {
      IsAdjacentDefinition(p, q);
      var c := smallWidth * 2.0;
      if c + 2.0 > 0.0 {
        SquareLess(r, c + 2.0);
      }
      if c >= 2.0 {
        SquareLess(c - 2.0, r);
      }
    }

    /** Adjacency does not depend on the order of the points. */
    lemma IsAdjacentSymmetric(p: Point, q: Point)
      ensures IsAdjacent(p, q) == IsAdjacent(q, p)
    {
      IsAdjacentDefinition(p, q);
      IsAdjacentDefinition(q, p);
      assert (q.x - p.x) * (q.x - p.x) == (p.x - q.x) * (p.x - q.x);
      assert (q.y - p.y) * (q.y - p.y) == (p.y - q.y) * (p.y - q.y);
    }

    /** `getAdjacentIntersections`' test for an intersection `q`. */
    function AdjacentTo(p: Point): Point -> bool
    {
      q => PointNe(p, q) && IsAdjacent(q, p)
    }

    /**
     * `getAdjacentIntersections`: the intersections, in board order, that are
     * not equal to `p` and are adjacent to it; every such intersection is listed.
     */
    function AdjacentIntersections(p: Point): (adj: seq<Point>)
      reads this`hexIntersections
      ensures |adj| <= |hexIntersections|
      ensures forall k :: 0 <= k < |adj| ==> adj[k] in hexIntersections && PointNe(p, adj[k]) && IsAdjacent(adj[k], p)
      ensures forall q :: q in hexIntersections && PointNe(p, q) && IsAdjacent(q, p) ==> q in adj
    {
      var adj := Filter(hexIntersections, AdjacentTo(p));
      assert forall k :: 0 <= k < |adj| ==> AdjacentTo(p)(adj[k]);
      adj
    }

    method GetAdjacentIntersections(p: Point) returns (adj: seq<Point>)
      ensures adj == AdjacentIntersections(p)
    {
      adj := [];
      var i := 0;
      while i < |hexIntersections|
        invariant 0 <= i <= |hexIntersections|
        invariant adj == Filter(hexIntersections[..i], AdjacentTo(p))
      {
        assert hexIntersections[..i + 1][..i] == hexIntersections[..i];
        if PointNe(p, hexIntersections[i]) && IsAdjacent(hexIntersections[i], p) {
          adj := adj + [hexIntersections[i]];
        }
        i := i + 1;
      }
      assert hexIntersections[..i] == hexIntersections;
    }

    /** `findSettlementIndex`: the position of the first matching settlement within the first list that has one, or -1. */
    function SettlementIndex(p: Point, playerNum: int): (j: int)
      reads this
    {
      FindInLists(settlements, AtPoint(p, playerNum))
    }

    /** `findCityIndex`, the same scan over the cities. */
    function CityIndex(p: Point, playerNum: int): (j: int)
      reads this
    {
      FindInLists(cities, AtPoint(p, playerNum))
    }

    /** `findRoadIndex`, the same scan over the roads with the test as written. */
    function RoadIndex(p1: Point, p2: Point, playerNum: int): (j: int)
      reads this
    {
      FindInLists(roads, RoadAt(p1, p2, playerNum))
    }

    method FindSettlementIndex(p: Point, playerNum: int) returns (j: int)
      ensures j == SettlementIndex(p, playerNum)
    {
      j := ScanLists(settlements, AtPoint(p, playerNum));
    }

    method FindCityIndex(p: Point, playerNum: int) returns (j: int)
      ensures j == CityIndex(p, playerNum)
    {
      j := ScanLists(cities, AtPoint(p, playerNum));
    }

    method FindRoadIndex(p1: Point, p2: Point, playerNum: int) returns (j: int)
      ensures j == RoadIndex(p1, p2, playerNum)
    {
      j := ScanLists(roads, RoadAt(p1, p2, playerNum));
    }

    /** Some player has a settlement or a city at `q`. */
    predicate Occupied(q: Point)
      reads this
    {
      OccupiedAfter(q, 3)
    }

    /** The lookups themselves. */
    predicate Found(q: Point)
      reads this
    {
      SettlementIndex(q, -1) != -1 || CityIndex(q, -1) != -1
    }

    /** `Found`, reached only after `delay` unfoldings, as `LegalAfter` is. */
    predicate OccupiedAfter(q: Point, delay: nat)
      reads this
      decreases delay
    {
      if delay == 0 then Found(q) else OccupiedAfter(q, delay - 1)
    }

    lemma OccupiedDefinition(q: Point)
      ensures Occupied(q) == Found(q)
    {
      assert OccupiedAfter(q, 3) == OccupiedAfter(q, 2);
      assert OccupiedAfter(q, 1) == OccupiedAfter(q, 0);
    }

    /** No building is at `q`, under the board's point equality. */
    ghost predicate Unbuilt(q: Point)
      reads this
    {
      && (forall i, k :: 0 <= i < |settlements| && 0 <= k < |settlements[i]| ==> !PointEq(q, settlements[i][k].location))
      && (forall i, k :: 0 <= i < |cities| && 0 <= k < |cities[i]| ==> !PointEq(q, cities[i][k].location))
    }

    /** `legalPlacement`: nothing is built at `p` or at any intersection adjacent to it. */
    predicate Legal(p: Point)
      reads this
    {
      LegalAfter(p, 3)
    }

    /** The test itself. */
    predicate ClearAround(p: Point)
      reads this
    {
      var adj := AdjacentIntersections(p);
      !Occupied(p) && forall k :: 0 <= k < |adj| ==> !Occupied(adj[k])
    }

    /** `ClearAround`, reached only after `delay` unfoldings, as `AdjacentAfter` is. */
    predicate LegalAfter(p: Point, delay: nat)
      reads this
      decreases delay
    {
      if delay == 0 then ClearAround(p) else LegalAfter(p, delay - 1)
    }

    lemma LegalDefinition(p: Point)
      ensures Legal(p) == ClearAround(p)
    {
      assert LegalAfter(p, 3) == LegalAfter(p, 2);
      assert LegalAfter(p, 1) == LegalAfter(p, 0);
    }

    /** A point is occupied exactly when some settlement or city stands on it. */
    lemma OccupiedIff(q: Point)
      ensures Occupied(q) <==> !Unbuilt(q)
    {
      OccupiedDefinition(q);
      if SettlementIndex(q, -1) == -1 {
        forall i, k | 0 <= i < |settlements| && 0 <= k < |settlements[i]|
          ensures !PointEq(q, settlements[i][k].location)
        {
          assert !AtPoint(q, -1)(settlements[i][k]);
        }
      }
      if CityIndex(q, -1) == -1 {
        forall i, k | 0 <= i < |cities| && 0 <= k < |cities[i]|
          ensures !PointEq(q, cities[i][k].location)
        {
          assert !AtPoint(q, -1)(cities[i][k]);
        }
      }
    }

    /**
     * The distance rule: a placement is legal exactly when no building stands
     * on `p` or on any intersection of the board that is adjacent to it.
     */
    lemma LegalPlacementIff(p: Point)
      ensures Legal(p) <==>
        Unbuilt(p) && forall q :: q in hexIntersections && PointNe(p, q) && IsAdjacent(q, p) ==> Unbuilt(q)
    {
      LegalDefinition(p);
      OccupiedIff(p);
      var adj := AdjacentIntersections(p);
      ClearInDefinition(settlements, cities, adj, p);
      forall k | 0 <= k < |adj|
        ensures Occupied(adj[k]) <==> !Unbuilt(adj[k])
      {
        OccupiedIff(adj[k]);
      }
      forall q | q in hexIntersections && PointNe(p, q) && IsAdjacent(q, p)
        ensures Occupied(q) <==> !Unbuilt(q)
      {
        OccupiedIff(q);
      }
    }

    /** `legalPlacement` as the distance rule on the board's own lists. */
    lemma LegalOn(p: Point)
      ensures Legal(p) <==> ClearIn(settlements, cities, AdjacentIntersections(p), p)
    {
      LegalDefinition(p);
      OccupiedIff(p);
      var adj := AdjacentIntersections(p);
      ClearInDefinition(settlements, cities, adj, p);
      forall k | 0 <= k < |adj|
        ensures Occupied(adj[k]) <==> !(NoneAt(settlements, adj[k]) && NoneAt(cities, adj[k]))
      {
        OccupiedIff(adj[k]);
      }
    }

    method IsOccupied(q: Point) returns (occupied: bool)
      ensures occupied == Occupied(q)
    {
      var s := FindSettlementIndex(q, -1);
      var c := FindCityIndex(q, -1);
      occupied := s != -1 || c != -1;
      OccupiedDefinition(q);
    }

    method LegalPlacement(p: Point) returns (legal: bool)
      ensures legal == Legal(p)
    {
      var here := IsOccupied(p);
      legal := !here;
      var adj := GetAdjacentIntersections(p);
      var i := 0;
      while i < |adj|
        invariant 0 <= i <= |adj|
        invariant legal == (!here && forall k :: 0 <= k < i ==> !Occupied(adj[k]))
      {
        var there := IsOccupied(adj[i]);
        if there {
          legal := false;
        }
        i := i + 1;
      }
      LegalDefinition(p);
    }

    /** `getPortType`: the kind of the first port with `p` as one of its points, or "" when there is none. */
    function PortTypeAt(p: Point): (t: string)
      reads this`ports
      ensures (forall k :: 0 <= k < |ports| ==> !OnPort(p, ports[k])) ==> t == ""
      ensures forall k :: 0 <= k < |ports| && OnPort(p, ports[k]) && (forall b :: 0 <= b < k ==> !OnPort(p, ports[b])) ==>
        t == ports[k].portType
    {
      var i := FirstIndex(ports, AtPort(p));
      if i == -1 then "" else ports[i].portType
    }

    method GetPortType(p: Point) returns (t: string)
      ensures t == PortTypeAt(p)
    {
      var i := 0;
      while i < |ports|
        invariant 0 <= i <= |ports|
        invariant forall k :: 0 <= k < i ==> !OnPort(p, ports[k])
      {
        if PointEq(p, ports[i].portLocations.p1) || PointEq(p, ports[i].portLocations.p2) {
          return ports[i].portType;
        }
        i := i + 1;
      }
      return "";
    }

    /** The player's road endpoints, collected road by road as `getPossible*Locations` do. */
    method RoadPointsOf(playerNum: int) returns (pts: seq<Point>)
      requires 1 <= playerNum <= |roads|
      ensures pts == RoadEndpoints(roads[playerNum - 1])
    {
      var own := roads[playerNum - 1];
      pts := [];
      var i := 0;
      while i < |own|
        invariant 0 <= i <= |own|
        invariant pts == RoadEndpoints(own[..i])
      {
        assert own[..i + 1][..i] == own[..i];
        pts := pts + [own[i].location1, own[i].location2];
        i := i + 1;
      }
      assert own[..i] == own;
    }

    /** The player's road endpoints after the `[*set(...)]` step, which drops points equal to one already kept. */
    function RoadPoints(playerNum: int): seq<Point>
      reads this
      requires 1 <= playerNum <= |roads|
    {
      Dedup(RoadEndpoints(roads[playerNum - 1]), PointEq)
    }

    /** `getPossibleCityLocations`: the locations of the player's settlements, each one a settlement of the player. */
    method GetPossibleCityLocations(playerNum: int) returns (locs: seq<Point>)
      requires Valid() && 1 <= playerNum <= |settlements|
      ensures locs == BuildingLocations(settlements[playerNum - 1])
      ensures forall k :: 0 <= k < |locs| ==> SettlementIndex(locs[k], playerNum) != -1
    {
      var own := settlements[playerNum - 1];
      locs := [];
      var i := 0;
      while i < |own|
        invariant 0 <= i <= |own|
        invariant locs == BuildingLocations(own[..i])
      {
        assert own[..i + 1][..i] == own[..i];
        locs := locs + [own[i].location];
        i := i + 1;
      }
      assert own[..i] == own;
      forall k | 0 <= k < |locs|
        ensures SettlementIndex(locs[k], playerNum) != -1
      {
        PointEqReflexive(locs[k]);
        assert AtPoint(locs[k], playerNum)(settlements[playerNum - 1][k]);
      }
    }

    /** The points of `pts` where a settlement may be placed, in order. */
    function LegalOnly(pts: seq<Point>): (r: seq<Point>)
      reads this
      ensures |r| <= |pts|
      ensures forall k :: 0 <= k < |r| ==> r[k] in pts && Legal(r[k])
      ensures forall q :: q in pts && Legal(q) ==> q in r
    {
      if |pts| == 0 then []
      else
        var r := LegalOnly(pts[..|pts| - 1]);
        var q := pts[|pts| - 1];
        assert pts == pts[..|pts| - 1] + [q];
        if Legal(q) then r + [q] else r
    }

    /** `LegalOnly` over one more point. */
    lemma LegalOnlyStep(pts: seq<Point>, i: nat)
      requires i < |pts|
      ensures LegalOnly(pts[..i + 1]) == if Legal(pts[i]) then LegalOnly(pts[..i]) + [pts[i]] else LegalOnly(pts[..i])
    {
      assert pts[..i + 1][..i] == pts[..i];
    }

    /** `getPossibleSettlementLocations`. */
    function PossibleSettlements(playerNum: int): seq<Point>
      reads this
      requires 1 <= playerNum <= |roads|
    {
      LegalOnly(RoadPoints(playerNum))
    }

    /**
     * Every possible settlement location is a legal endpoint of one of the
     * player's roads; every endpoint survives deduplication or equals one that
     * did, and every surviving legal one is offered.
     */
    lemma PossibleSettlementsSound(playerNum: int)
      requires 1 <= playerNum <= |roads|
      ensures forall k :: 0 <= k < |PossibleSettlements(playerNum)| ==>
        Legal(PossibleSettlements(playerNum)[k]) && IsEndpoint(PossibleSettlements(playerNum)[k], roads[playerNum - 1])
      ensures forall q :: q in RoadPoints(playerNum) && Legal(q) ==> q in PossibleSettlements(playerNum)
      ensures forall q :: q in RoadEndpoints(roads[playerNum - 1]) ==>
        q in RoadPoints(playerNum) || ContainsEq(RoadPoints(playerNum), q, PointEq)
    {
      var pts := RoadEndpoints(roads[playerNum - 1]);
      DedupSound(pts, PointEq);
      EndpointsComeFromRoads(roads[playerNum - 1]);
    }

    method GetPossibleSettlementLocations(playerNum: int) returns (locs: seq<Point>)
      requires 1 <= playerNum <= |roads|
      ensures locs == PossibleSettlements(playerNum)
    {
      var pts := RoadPointsOf(playerNum);
      pts := Dedup(pts, PointEq);
      locs := [];
      var i := 0;
      while i < |pts|
        invariant 0 <= i <= |pts|
        invariant locs == LegalOnly(pts[..i])
      {
        LegalOnlyStep(pts, i);
        var legal := LegalPlacement(pts[i]);
        if legal {
          locs := locs + [pts[i]];
        }
        i := i + 1;
      }
      assert pts[..i] == pts;
    }

    /**
     * `getPossibleRoadLocations`' test for keeping a road endpoint: a settlement
     * there is the player's own or there is none, and likewise for a city.
     */
    predicate OpenFor(q: Point, playerNum: int)
      reads this
    {
      OpenForAfter(q, playerNum, 3)
    }

    /** The test itself. */
    predicate OwnOrNone(q: Point, playerNum: int)
      reads this
    {
      && (SettlementIndex(q, playerNum) != -1 || SettlementIndex(q, -1) == -1)
      && (CityIndex(q, playerNum) != -1 || CityIndex(q, -1) == -1)
    }

    /** `OwnOrNone`, reached only after `delay` unfoldings, as `LegalAfter` is. */
    predicate OpenForAfter(q: Point, playerNum: int, delay: nat)
      reads this
      decreases delay
    {
      if delay == 0 then OwnOrNone(q, playerNum) else OpenForAfter(q, playerNum, delay - 1)
    }

    lemma OpenForDefinition(q: Point, playerNum: int)
      ensures OpenFor(q, playerNum) == OwnOrNone(q, playerNum)
    {
      assert OpenForAfter(q, playerNum, 3) == OpenForAfter(q, playerNum, 2);
      assert OpenForAfter(q, playerNum, 1) == OpenForAfter(q, playerNum, 0);
    }

    /** A point is open to a player exactly when every settlement and city on it that exists is also matched by one of the player's own. */
    lemma OpenForIff(q: Point, playerNum: int)
      requires Valid() && 1 <= playerNum <= numPlayers
      ensures OpenFor(q, playerNum) <==>
        && (HeldIn(settlements, playerNum - 1, q) || Unsettled(settlements, q))
        && (HeldIn(cities, playerNum - 1, q) || Unsettled(cities, q))
    {
      OpenForDefinition(q, playerNum);
      HeldIff(settlements, q, playerNum);
      HeldIff(cities, q, playerNum);
      UnsettledIff(settlements, q);
      UnsettledIff(cities, q);
    }

    /** A settlement of another player on an endpoint, with none of the player's own there, closes it to the player. */
    lemma OpponentPointNotOpen(q: Point, playerNum: int, other: int, k: int)
      requires Valid() && 1 <= playerNum <= numPlayers && 1 <= other <= numPlayers && other != playerNum
      requires 0 <= k < |settlements[other - 1]| && PointEq(q, settlements[other - 1][k].location)
      requires !HeldIn(settlements, playerNum - 1, q)
      ensures !OpenFor(q, playerNum)
    {
      OpenForIff(q, playerNum);
    }

    /** The points of `pts` that are open to the player, in order. */
    function OpenOnly(pts: seq<Point>, playerNum: int): (r: seq<Point>)
      reads this
      ensures |r| <= |pts|
      ensures forall k :: 0 <= k < |r| ==> r[k] in pts && OpenFor(r[k], playerNum)
      ensures forall q :: q in pts && OpenFor(q, playerNum) ==> q in r
    {
      if |pts| == 0 then []
      else
        var r := OpenOnly(pts[..|pts| - 1], playerNum);
        var q := pts[|pts| - 1];
        assert pts == pts[..|pts| - 1] + [q];
        if OpenFor(q, playerNum) then r + [q] else r
    }

    /** No road of any player joins `p1` and `p2`, in either orientation. */
    ghost predicate NoRoadBetween(p1: Point, p2: Point)
      reads this`roads
    {
      NoRoadIn(roads, p1, p2)
    }

    /** With no owner filter the road scan finds a road exactly when one joins the points in either orientation. */
    lemma RoadIndexIff(p1: Point, p2: Point)
      ensures RoadIndex(p1, p2, -1) == -1 <==> NoRoadBetween(p1, p2)
    {
      if RoadIndex(p1, p2, -1) == -1 {
        forall i, k | 0 <= i < |roads| && 0 <= k < |roads[i]|
          ensures !RoadMatches(roads[i][k], p1, p2, -1)
        {
          assert !RoadAt(p1, p2, -1)(roads[i][k]);
        }
      }
    }

    /** The roads from `q` to those of `nbs` not yet joined to it by a road, in order. */
    function EdgesFrom(q: Point, nbs: seq<Point>): (es: seq<DoublePoint>)
      reads this
      ensures |es| <= |nbs|
      ensures forall k :: 0 <= k < |es| ==> es[k].p1 == q && es[k].p2 in nbs && RoadIndex(q, es[k].p2, -1) == -1
      ensures forall nb :: nb in nbs && RoadIndex(q, nb, -1) == -1 ==> DoublePoint(q, nb) in es
    {
      if |nbs| == 0 then []
      else
        var es := EdgesFrom(q, nbs[..|nbs| - 1]);
        var nb := nbs[|nbs| - 1];
        assert nbs == nbs[..|nbs| - 1] + [nb];
        if RoadIndex(q, nb, -1) == -1 then es + [DoublePoint(q, nb)] else es
    }

    /** The candidate roads from each point of `pts` to its adjacent intersections, point by point. */
    function EdgesFromAll(pts: seq<Point>): (es: seq<DoublePoint>)
      reads this
      ensures forall k :: 0 <= k < |es| ==>
        es[k].p1 in pts && es[k].p2 in AdjacentIntersections(es[k].p1) && RoadIndex(es[k].p1, es[k].p2, -1) == -1
    {
      if |pts| == 0 then []
      else
        var q := pts[|pts| - 1];
        var es := EdgesFromAll(pts[..|pts| - 1]);
        assert pts == pts[..|pts| - 1] + [q];
        es + EdgesFrom(q, AdjacentIntersections(q))
    }

    /** `getPossibleRoadLocations`. */
    function PossibleRoads(playerNum: int): seq<DoublePoint>
      reads this
      requires 1 <= playerNum <= |roads|
    {
      PossibleRoadsAfter(playerNum, 3)
    }

    /**
     * `PossibleRoads` spelled out after `delay` steps, so that a caller
     * sees the construction only through `PossibleRoadsDefinition`.
     */
    function PossibleRoadsAfter(playerNum: int, delay: nat): seq<DoublePoint>
      reads this
      requires 1 <= playerNum <= |roads|
      decreases delay
    {
      if delay == 0 then Dedup(EdgesFromAll(OpenOnly(RoadPoints(playerNum), playerNum)), EdgeEq)
      else PossibleRoadsAfter(playerNum, delay - 1)
    }

    lemma PossibleRoadsDefinition(playerNum: int)
      requires 1 <= playerNum <= |roads|
      ensures PossibleRoads(playerNum) == Dedup(EdgesFromAll(OpenOnly(RoadPoints(playerNum), playerNum)), EdgeEq)
    {
      assert PossibleRoadsAfter(playerNum, 3) == PossibleRoadsAfter(playerNum, 2);
      assert PossibleRoadsAfter(playerNum, 1) == PossibleRoadsAfter(playerNum, 0);
    }

    /**
     * Every possible road starts at an endpoint of one of the player's roads
     * that no opponent's building closes, leads to an adjacent intersection,
     * has no road on it in either orientation, and no two of them are equal.
     */
    lemma PossibleRoadsSound(playerNum: int)
      requires 1 <= playerNum <= |roads|
      ensures forall k :: 0 <= k < |PossibleRoads(playerNum)| ==>
        var e := PossibleRoads(playerNum)[k];
        && IsEndpoint(e.p1, roads[playerNum - 1]) && OpenFor(e.p1, playerNum)
        && e.p2 in hexIntersections && PointNe(e.p1, e.p2) && IsAdjacent(e.p2, e.p1)
        && NoRoadBetween(e.p1, e.p2)
      ensures forall j, k :: 0 <= j < k < |PossibleRoads(playerNum)| ==>
        !EdgeEq(PossibleRoads(playerNum)[k], PossibleRoads(playerNum)[j])
    {
      var own := roads[playerNum - 1];
      var pts := RoadEndpoints(own);
      var kept := RoadPoints(playerNum);
      DedupSound(pts, PointEq);
      EndpointsComeFromRoads(own);
      var open := OpenOnly(kept, playerNum);
      var all := EdgesFromAll(open);
      DedupSound(all, EdgeEq);
      PossibleRoadsDefinition(playerNum);
      var r := PossibleRoads(playerNum);
      forall k | 0 <= k < |r|
        ensures IsEndpoint(r[k].p1, own) && OpenFor(r[k].p1, playerNum)
        ensures r[k].p2 in hexIntersections && PointNe(r[k].p1, r[k].p2) && IsAdjacent(r[k].p2, r[k].p1)
        ensures NoRoadBetween(r[k].p1, r[k].p2)
      {
        var e := r[k];
        assert e in all;
        assert e.p1 in open && e.p2 in AdjacentIntersections(e.p1) && RoadIndex(e.p1, e.p2, -1) == -1;
        assert e.p1 in kept;
        assert e.p1 in pts;
        RoadIndexIff(e.p1, e.p2);
      }
    }

    /** `OpenOnly` over one more point. */
    lemma OpenOnlyStep(pts: seq<Point>, i: nat, playerNum: int)
      requires i < |pts|
      ensures OpenOnly(pts[..i + 1], playerNum) ==
        if OpenFor(pts[i], playerNum) then OpenOnly(pts[..i], playerNum) + [pts[i]] else OpenOnly(pts[..i], playerNum)
    {
      assert pts[..i + 1][..i] == pts[..i];
    }

    /** `getPossibleRoadLocations`' ownership test on one point, with its four lookups. */
    method IsOpenFor(q: Point, playerNum: int) returns (isOpen: bool)
      ensures isOpen == OpenFor(q, playerNum)
    {
      var mySettlement := FindSettlementIndex(q, playerNum);
      var myCity := FindCityIndex(q, playerNum);
      var anySettlement := FindSettlementIndex(q, -1);
      var anyCity := FindCityIndex(q, -1);
      isOpen := (mySettlement != -1 || anySettlement == -1) && (myCity != -1 || anyCity == -1);
      OpenForDefinition(q, playerNum);
    }

    /** The endpoints that pass `getPossibleRoadLocations`' ownership test. */
    method OpenRoadPoints(pts: seq<Point>, playerNum: int) returns (open: seq<Point>)
      ensures open == OpenOnly(pts, playerNum)
    {
      open := [];
      var i := 0;
      while i < |pts|
        invariant 0 <= i <= |pts|
        invariant open == OpenOnly(pts[..i], playerNum)
      {
        OpenOnlyStep(pts, i, playerNum);
        var isOpen := IsOpenFor(pts[i], playerNum);
        if isOpen {
          open := open + [pts[i]];
        }
        i := i + 1;
      }
      assert pts[..i] == pts;
    }

    /** The inner loop of `getPossibleRoadLocations`: the candidate roads from `q`. */
    method RoadsFrom(q: Point, nbs: seq<Point>) returns (es: seq<DoublePoint>)
      ensures es == EdgesFrom(q, nbs)
    {
      es := [];
      var j := 0;
      while j < |nbs|
        invariant 0 <= j <= |nbs|
        invariant es == EdgesFrom(q, nbs[..j])
      {
        assert nbs[..j + 1][..j] == nbs[..j];
        var r := FindRoadIndex(q, nbs[j], -1);
        if r == -1 {
          es := es + [DoublePoint(q, nbs[j])];
        }
        j := j + 1;
      }
      assert nbs[..j] == nbs;
    }

    /** The outer loop of `getPossibleRoadLocations` that lists the candidate roads. */
    method CandidateRoads(pts: seq<Point>) returns (all: seq<DoublePoint>)
      ensures all == EdgesFromAll(pts)
    {
      all := [];
      var i := 0;
      while i < |pts|
        invariant 0 <= i <= |pts|
        invariant all == EdgesFromAll(pts[..i])
      {
        assert pts[..i + 1][..i] == pts[..i];
        var nbs := GetAdjacentIntersections(pts[i]);
        var es := RoadsFrom(pts[i], nbs);
        all := all + es;
        i := i + 1;
      }
      assert pts[..i] == pts;
    }

    method GetPossibleRoadLocations(playerNum: int) returns (locs: seq<DoublePoint>)
      requires 1 <= playerNum <= |roads|
      ensures locs == PossibleRoads(playerNum)
    {
      var pts := RoadPointsOf(playerNum);
      pts := Dedup(pts, PointEq);
      var open := OpenRoadPoints(pts, playerNum);
      var all := CandidateRoads(open);
      locs := DedupLoop(all, EdgeEq);
      PossibleRoadsDefinition(playerNum);
    }

    /** `playerScores[playerNum - 1] += 1`, as the players apply it to the board directly. */
    method ScorePoint(playerNum: int)
      requires Valid() && 1 <= playerNum <= numPlayers
      modifies this`playerScores
      ensures Valid()
      ensures playerScores == old(playerScores)[playerNum - 1 := old(playerScores[playerNum - 1]) + 1]
    {
      playerScores := playerScores[playerNum - 1 := playerScores[playerNum - 1] + 1];
    }

    /**
     * `addSettlement`: when the point is legal and the player has fewer than
     * five settlements, a settlement of the player is appended to the player's
     * list and the player scores a point; otherwise nothing changes.
     */
    method AddSettlement(point: Point, color: string, playerNum: int, initialPlacement: bool)
      requires Valid() && 1 <= playerNum <= numPlayers
      modifies this`settlements, this`playerScores
      ensures Valid()
      ensures var ok := old(Legal(point)) && |old(settlements[playerNum - 1])| < MaxSettlements;
        && settlements == (if ok then old(settlements)[playerNum - 1 := old(settlements[playerNum - 1]) + [Building(point, color, playerNum)]]
                           else old(settlements))
        && playerScores == (if ok then old(playerScores)[playerNum - 1 := old(playerScores[playerNum - 1]) + 1] else old(playerScores))
    {
      var legal := LegalPlacement(point);
      if legal && |settlements[playerNum - 1]| < MaxSettlements {
        BuildingListsUpdate(settlements, numPlayers, MaxSettlements, playerNum - 1,
          settlements[playerNum - 1] + [Building(point, color, playerNum)]);
        settlements := settlements[playerNum - 1 := settlements[playerNum - 1] + [Building(point, color, playerNum)]];
        playerScores := playerScores[playerNum - 1 := playerScores[playerNum - 1] + 1];
      }
    }

    /** With each list holding only its owner's pieces, the owner-filtered scan finds the first match in the player's own list. */
    lemma SettlementIndexOwn(p: Point, playerNum: int)
      requires Valid() && 1 <= playerNum <= numPlayers
      ensures SettlementIndex(p, playerNum) == FirstIndex(settlements[playerNum - 1], AtPoint(p, playerNum))
    {
      FindInOwnList(settlements, AtPoint(p, playerNum), playerNum - 1);
    }

    /**
     * `addCity`: when the player has a settlement at the point and fewer than
     * four cities, a city is appended, the first such settlement is removed and
     * the player scores a point; otherwise nothing changes.
     */
    method AddCity(point: Point, color: string, playerNum: int, initialPlacement: bool)
      requires Valid() && 1 <= playerNum <= numPlayers
      modifies this`settlements, this`cities, this`playerScores
      ensures Valid()
      ensures var own := old(settlements[playerNum - 1]);
        var idx := FirstIndex(own, AtPoint(point, playerNum));
        var ok := idx != -1 && |old(cities[playerNum - 1])| < MaxCities;
        && cities == (if ok then old(cities)[playerNum - 1 := old(cities[playerNum - 1]) + [Building(point, color, playerNum)]]
                      else old(cities))
        && settlements == (if ok then old(settlements)[playerNum - 1 := own[..idx] + own[idx + 1..]] else old(settlements))
        && playerScores == (if ok then old(playerScores)[playerNum - 1 := old(playerScores[playerNum - 1]) + 1] else old(playerScores))
    {
      SettlementIndexOwn(point, playerNum);
      var idx := FindSettlementIndex(point, playerNum);
      if idx != -1 && |cities[playerNum - 1]| < MaxCities {
        ReplaceSettlement(idx, point, color, playerNum);
      }
    }

    /** The successful branch of `addCity`: settlement `idx` of the player becomes a city at `point`. */
    method ReplaceSettlement(idx: int, point: Point, color: string, playerNum: int)
      requires Valid() && 1 <= playerNum <= numPlayers
      requires 0 <= idx < |settlements[playerNum - 1]| && |cities[playerNum - 1]| < MaxCities
      modifies this`settlements, this`cities, this`playerScores
      ensures Valid()
      ensures var own := old(settlements[playerNum - 1]);
        && cities == old(cities)[playerNum - 1 := old(cities[playerNum - 1]) + [Building(point, color, playerNum)]]
        && settlements == old(settlements)[playerNum - 1 := own[..idx] + own[idx + 1..]]
        && playerScores == old(playerScores)[playerNum - 1 := old(playerScores[playerNum - 1]) + 1]
    {
      var own := settlements[playerNum - 1];
      var rest := own[..idx] + own[idx + 1..];
      assert forall k :: 0 <= k < |rest| ==> rest[k] == if k < idx then own[k] else own[k + 1];
      BuildingListsUpdate(settlements, numPlayers, MaxSettlements, playerNum - 1, rest);
      BuildingListsUpdate(cities, numPlayers, MaxCities, playerNum - 1, cities[playerNum - 1] + [Building(point, color, playerNum)]);
      cities := cities[playerNum - 1 := cities[playerNum - 1] + [Building(point, color, playerNum)]];
      settlements := settlements[playerNum - 1 := rest];
      playerScores := playerScores[playerNum - 1 := playerScores[playerNum - 1] + 1];
    }

    /**
     * `addRoad`: when no road joins the points in either orientation and the
     * player has fewer than fifteen roads, a road of the player is appended;
     * otherwise nothing changes.  Nothing checks that the road connects to the
     * player's pieces, and the score is untouched.
     */
    method AddRoad(point1: Point, point2: Point, color: string, playerNum: int, initialPlacement: bool)
      requires Valid() && 1 <= playerNum <= numPlayers
      modifies this`roads
      ensures Valid()
      ensures var ok := old(NoRoadBetween(point1, point2)) && |old(roads[playerNum - 1])| < MaxRoads;
        roads == if ok then old(roads)[playerNum - 1 := old(roads[playerNum - 1]) + [Road(point1, point2, color, playerNum)]]
                 else old(roads)
    {
      RoadIndexIff(point1, point2);
      var idx := FindRoadIndex(point1, point2, -1);
      if idx == -1 && |roads[playerNum - 1]| < MaxRoads {
        RoadListsUpdate(roads, numPlayers, MaxRoads, playerNum - 1, roads[playerNum - 1] + [Road(point1, point2, color, playerNum)]);
        roads := roads[playerNum - 1 := roads[playerNum - 1] + [Road(point1, point2, color, playerNum)]];
      }
    }
  }
}
