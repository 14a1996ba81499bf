# A verified model of a Settlers of Catan simulator

This project models the core of a small Settlers of Catan simulator written in Python. The simulator lays out a shuffled board of 19 hexagonal tiles with nine ports. It then seats four computer players of the "RandComp" kind and plays until one of them has ten points.

Each player takes two initial placements:
- Each placement is a settlement and a road.
- The order of placement is 1-2-3-4 and then 4-3-2-1.
- The second settlement pays out the tiles around it.

A turn has three parts:
1. A dice roll. A 7 makes every player holding more than seven cards discard half of them. The player to move then picks someone to rob and a tile to block, and steals one card. Any other roll pays one card per adjacent settlement and two per adjacent city, for every tile carrying that number that the robber does not block.
2. The player to move builds cities, then settlements, then roads, for as long as it can. It trades with the bank through its ports where that makes a build affordable.
3. The win test, and the move passes to the next player.

## Module layout

The Dafny modules follow the Python files:

| module | models |
|---|---|
| `Geometry` | `Point` and `DoublePoint`. Coordinates are `real`. Equality truncates toward zero, as Python's `int()` does (`Trunc`). |
| `Tiles` | the `Hexagon` class. |
| `Resources` | the five resource kinds and the arithmetic on hands. |
| `Random` | a stream of draws (`Source`) that stands for Python's `randrange`. |
| `Players` | the `Player` class: resources, rates, pips, ports and random picks. |
| `Structures` | settlements, cities, roads and ports, the "first index" searches over per-player lists, and `[*set(...)]` de-duplication. |
| `Boards` | the `Board` class: layout, lookups, legality, candidate locations and building. |
| `Planning` | the bank-trade planner shared by `cityPortResources`, `settlementPortResources` and `roadPortResources`. |
| `Builders` | `placeCity`, `placeSettlement`, `placeRoad` and `RandComp.takeTurn`. |
| `Robber` | `discard`, `getPlayerToRob` and `getPointToBlock`. |
| `RandComps` | `getHexValue` and the initial choices. |
| `Games` | the `Game` class. |

Randomness is a parameter:
- A `Source` is an infinite sequence of draws. `Below(src, n)` is `randrange(n)`.
- The order in which Python iterates a set of tiles is the `arrange` (or `order`) parameter. It must be a permutation.
- Shuffling the tiles and the ports is the `tileOrder` and `portOrder` permutations.
- The screen size is a parameter.

## Model

| member | source | states |
|---|---|---|
| Geometry.Trunc | catan/Point.py:15-19 | `int()` of a real: the largest integer not above it for non-negative reals, the smallest not below it for negative ones (truncation toward zero) |
| Geometry.TruncZeroIff | catan/Point.py:15-19 | a coordinate truncates to 0 exactly when it lies strictly between -1 and 1 |
| Geometry.PointEqIff | catan/Point.py:15-19 | two points are equal under `__eq__` exactly when both coordinate differences lie strictly between -1 and 1 |
| Geometry.PointEqReflexive | catan/Point.py:15-19 | every point equals itself |
| Geometry.PointEqSymmetric | catan/Point.py:15-23 | point equality is symmetric, so `__ne__` is too |
| Geometry.PointEqNotTransitive | catan/Point.py:15-19 | point equality is not transitive: (0,0) = (0.6,0) = (1.2,0), but (0,0) differs from (1.2,0) |
| Geometry.HashKeyOfTruncation | catan/Point.py:26-27 | points whose coordinates truncate alike have the same hash |
| Geometry.HashKeyNotConsistentWithEq | catan/Point.py:15-27 | (0.9,0) and (1.1,0) are equal under `__eq__` but hash differently, so sets of points can keep duplicates |
| Geometry.EdgeEqUnordered | catan/DoublePoint.py:15-20 | a pair of points equals the same pair reversed |
| Geometry.EdgeEqReflexive | catan/DoublePoint.py:15-20 | every pair equals itself |
| Geometry.EdgeEqSymmetric | catan/DoublePoint.py:15-24 | pair equality is symmetric, so `__ne__` is too |
| Tiles.PipValueRange | catan/Hexagon.py:19-24 | every number a tile can carry (2–12 except 7) has a pip value from 1 to 5, and 5 exactly for 6 and 8 |
| Tiles.PipValueSymmetric | catan/Hexagon.py:19-24 | numbers n and 14 − n have the same pip value |
| Tiles.Hexagon.constructor | catan/Hexagon.py:11-14 | a new tile has the given type, number 0, value 0 and no location |
| Tiles.Hexagon.SetLocation | catan/Hexagon.py:16-17 | sets the location and nothing else |
| Tiles.Hexagon.SetNumber | catan/Hexagon.py:19-24 | sets the number, and the value to n − 1 below 7 and to 13 − n from 7 up |
| Tiles.TileIdentityIsLocation | catan/Hexagon.py:27-39 | tiles at the same location are equal both ways and hash alike |
| Resources.ResourceType | catan/Player.py:60-73 | the name of a resource index, and "" exactly for indices outside 0–4 |
| Resources.ResourceIndex | catan/Player.py:77-90 | the index of a resource name, in -1..4 |
| Resources.IndexOfName | catan/Player.py:60-90 | a found name maps back to itself, and -1 means the name is none of the five |
| Resources.IndexOfType | catan/Player.py:60-90 | name then index is the identity on 0–4 |
| Resources.TotalOfHand | catan/Player.py:134-138 | the total of a five-entry hand is the sum of its entries |
| Resources.Traded | catan/Player.py:119-120 | a bank trade adds one of what is received and removes `rate` of what is given, leaving the rest alone |
| Resources.TradedTotal | catan/Player.py:119-120 | a trade changes the hand's total by 1 − rate |
| Resources.PositiveTotalUpdate | catan/Player.py:134-138 | changing one entry changes the sum of positive entries by the change in that entry's positive part |
| Players.PyIndex | catan/RandComp.py:28-29 | a Python index in -5..4 names slot i, counted from the end when negative |
| Players.CountedDefinition | catan/Player.py:142-146 | the points counted at a location are the current points plus the values of the tiles `getAdjacentHexes` returns there |
| Players.WithPointsGrows | catan/Player.py:142-146 | counting tiles never lowers any resource's points |
| Players.AddPoints | catan/Player.py:142-146 | the loop over adjacent tiles computes `WithPoints` |
| Players.PortPowerEffect | catan/Player.py:150-167 | a general port lowers every 4 to 3; a resource port sets that resource's rate to 2; any other name changes nothing |
| Players.PortPowerLowers | catan/Player.py:150-167 | a port never raises a rate, and rates stay among 2, 3 and 4 |
| Players.PortPowerIdempotent | catan/Player.py:150-167 | gaining the same port twice is the same as gaining it once |
| Players.PortPowerCommutes | catan/Player.py:150-167 | the order in which two ports are gained does not matter |
| Players.ApplyPortPower | catan/Player.py:150-167 | the if-chain on port names computes `PortPower` |
| Players.RandomResource | catan/Player.py:192-211 | the resource picked by a draw is in -1..4 |
| Players.RandomResourcePicks | catan/Player.py:192-211 | for a hand without negative counts and a draw below its total, the pick is a held resource and the draw lies in its slot of the running totals |
| Players.RandomResourceSlot | catan/Player.py:192-211 | every draw in resource k's slot picks k, so each resource is drawn in proportion to its count |
| Players.PortOutcomeRaises | catan/Player.py:107-116 | a bank trade of ore with no ore in hand reaches the branch that raises |
| Players.Player.constructor | catan/Player.py:24-36 | a new player has no resources, rates 4, no resource points, score 0, and a fresh empty board with a zero card count per player |
| Players.Player.GainResource | catan/Player.py:40-46 | an index in 0–4 adds one card to the hand and one to the board's count for the player; any other index changes nothing |
| Players.Player.LoseResource | catan/Player.py:50-56 | an index in 0–4 removes one card from the hand and one from the board's count; any other index changes nothing |
| Players.Player.AddResource | catan/Player.py:94-96 | a resource name adds one card of that kind and one to the board's count; a name that is not a resource changes nothing |
| Players.Player.PortResource | catan/Player.py:100-130 | an affordable trade with valid indices is made as `Traded`; every other call leaves the hand unchanged |
| Players.Player.GetTotalResources | catan/Player.py:134-138 | returns the sum of the five counts |
| Players.Player.UpdateResourcePoints | catan/Player.py:142-146 | adds the pip values of the tiles around the location, never lowering any entry |
| Players.Player.GainPortPower | catan/Player.py:150-167 | the trade rates become `PortPower` of the old rates |
| Players.Player.TempGainPortPower | catan/Player.py:171-188 | the scratch rates become `PortPower` of the old scratch rates |
| Players.Player.GetRandomResource | catan/Player.py:192-211 | with cards in hand, draws `randrange(total)` and returns the resource in whose slot it falls; with none it returns -1 and draws nothing; for a hand without negatives, -1 means an empty hand and any other result is a held resource |
| Structures.RoadFilterIgnoredOnForwardMatch | catan/Board.py:335-345 | `findRoadIndex` finds another player's road given in its own direction, but not the same road reversed |
| Structures.FirstIndex | catan/Board.py:311-317 | the first index whose element matches, or -1 when none does |
| Structures.FindInLists | catan/Board.py:311-329 | the search over per-player lists returns -1 exactly when nothing matches, and otherwise an index of a match in one of the lists |
| Structures.FindInListsAt | catan/Board.py:311-329 | when the first list holding a match is list i, the search returns that match's index in list i |
| Structures.ScanLists | catan/Board.py:311-329 | the nested loop computes `FindInLists` |
| Structures.FindInOwnList | catan/Board.py:311-329 | when only one player's list can match, the search is the first index in that list |
| Structures.Filter | catan/Board.py:370-372 | keeps exactly the elements satisfying the test |
| Structures.DedupSound | catan/Board.py:428-429 | de-duplication keeps elements of the input, keeps no two equal ones, and every input element is kept or has an equal one kept |
| Structures.DedupLoop | catan/Board.py:471-474 | the keep-first loop computes `Dedup` |
| Boards.HexNumbersArePips | catan/Board.py:41 | every number on the board has a pip value from 1 to 5 |
| Boards.RollDice | catan/Board.py:104-106 | the sum of two dice is between 2 and 12 |
| Boards.RollDistribution | catan/Board.py:104-106 | a total r in 2..12 arises from 6 − abs(r − 7) of the 36 dice pairs, and any other total from none |
| Boards.DesertFirst | catan/Board.py:169-181 | the desert is the first of the tile kinds and appears only once |
| Boards.BuildingLocations | catan/Board.py:412-416 | lists the location of every building, in order |
| Boards.RoadEndpoints | catan/Board.py:424-426 | lists both ends of every road, two per road |
| Boards.HeldIff | catan/Board.py:311-329 | the search finds a building of player n at q exactly when n's own list holds a building equal to q |
| Boards.UnsettledIff | catan/Board.py:311-329 | a search with player -1 finds nothing exactly when no list holds a building equal to q |
| Boards.NewTiles | catan/Board.py:169-181 | creates one fresh, distinct, unset tile per kind |
| Boards.ShuffledTiles | catan/Board.py:169-181 | the tiles follow the shuffle, and exactly one of them, at the desert's position, is the desert |
| Boards.Board.constructor | catan/Board.py:28-62 | a new board has the screen metrics, no tiles or ports, numPlayers + 1 empty building and road lists, zero counts and scores, turn 1 and no winner |
| Boards.Board.InitTiles | catan/Board.py:167-238 | 19 fresh tiles in shuffled order at the 19 centres; the robber on the desert; numbers dealt in order and skipping the desert; the intersections are the de-duplicated corners |
| Boards.Board.NumberTiles | catan/Board.py:215-222 | each tile gets its centre and the next number, except the desert, which gets 0 and the robber |
| Boards.Board.LayOutIntersections | catan/Board.py:225-238 | the intersections are the tile corners with duplicates removed |
| Boards.Board.CornerList | catan/Board.py:225-235 | the loop lists six corners per centre |
| Boards.Board.InitPorts | catan/Board.py:241-297 | nine ports, with types in shuffled order and fixed end points |
| Boards.Board.HexIndexFromSound | catan/Board.py:300-305 | `findHexIndex` returns the first tile equal to the point, or -1 when none is |
| Boards.Board.FindHexIndex | catan/Board.py:300-305 | the loop computes `HexIndex` |
| Boards.Board.ProbesMissWestCorners | catan/Board.py:381-386 | the last two probes repeat the third and fourth, so the two tiles to the lower and upper left are never probed |
| Boards.Board.AdjacentHexesUpToSound | catan/Board.py:388-392 | for probe k that finds a tile, tile k of the board list (not the tile found) is appended, so the result is drawn from the first six tiles |
| Boards.Board.GetAdjacentHexes | catan/Board.py:379-392 | the method computes `AdjacentHexes` |
| Boards.Board.IsAdjacentDefinition | catan/Board.py:348-354 | `isAdjacent` compares squared distances without a square root |
| Boards.Board.IsAdjacentDistance | catan/Board.py:348-354 | for the true distance r, points are adjacent exactly when abs(r − 2·smallWidth) < 2 |
| Boards.Board.IsAdjacentSymmetric | catan/Board.py:348-354 | adjacency is symmetric |
| Boards.Board.AdjacentIntersections | catan/Board.py:367-373 | exactly the intersections that differ from the point and are adjacent to it |
| Boards.Board.GetAdjacentIntersections | catan/Board.py:367-373 | the loop computes `AdjacentIntersections` |
| Boards.Board.FindSettlementIndex | catan/Board.py:311-317 | the loop computes the first match over all settlement lists |
| Boards.Board.FindCityIndex | catan/Board.py:323-329 | the loop computes the first match over all city lists |
| Boards.Board.FindRoadIndex | catan/Board.py:335-345 | the loop computes the first road matching with the source's grouping of `or` and `and` |
| Boards.Board.OccupiedIff | catan/Board.py:402 | an intersection is occupied exactly when some settlement or city stands on a point equal to it |
| Boards.Board.LegalPlacementIff | catan/Board.py:399-409 | a point is legal exactly when nothing is built on it or on any adjacent intersection |
| Boards.Board.LegalPlacement | catan/Board.py:399-409 | the loop computes `Legal` |
| Boards.Board.PortTypeAt | catan/Board.py:357-361 | the type of the first port with an end equal to the point, or "" when no port has one |
| Boards.Board.GetPortType | catan/Board.py:357-361 | the loop computes `PortTypeAt` |
| Boards.Board.RoadPointsOf | catan/Board.py:424-426 | lists both ends of each of the player's roads |
| Boards.Board.GetPossibleCityLocations | catan/Board.py:412-416 | the locations of the player's own settlements, each found by `findSettlementIndex` for that player |
| Boards.Board.LegalOnly | catan/Board.py:432-434 | keeps exactly the legal points |
| Boards.Board.PossibleSettlementsSound | catan/Board.py:419-436 | every candidate is legal and an end of one of the player's roads; every legal road end is offered, or an equal point is |
| Boards.Board.GetPossibleSettlementLocations | catan/Board.py:419-436 | the method computes `PossibleSettlements` |
| Boards.Board.OpenForIff | catan/Board.py:455-462 | a road end is kept exactly when each of settlement and city is either the player's own there or absent there |
| Boards.Board.OpponentPointNotOpen | catan/Board.py:455-462 | a point holding another player's settlement, and none of the player's own, is not kept |
| Boards.Board.OpenOnly | catan/Board.py:454-462 | keeps exactly the open points |
| Boards.Board.RoadIndexIff | catan/Board.py:335-345 | with player -1, no road is found exactly when no road joins the two points in either direction |
| Boards.Board.EdgesFrom | catan/Board.py:466-469 | exactly the edges from the point to each neighbour that carries no road |
| Boards.Board.EdgesFromAll | catan/Board.py:465-469 | every candidate edge starts at one of the points, ends at an adjacent intersection and carries no road |
| Boards.Board.PossibleRoadsDefinition | catan/Board.py:439-476 | the candidate roads are the de-duplicated road-free edges from the open, de-duplicated road ends |
| Boards.Board.PossibleRoadsSound | catan/Board.py:439-476 | every candidate road starts at an open end of the player's roads, ends at a distinct adjacent intersection and has no road yet, and no two candidates are equal |
| Boards.Board.IsOpenFor | catan/Board.py:455-462 | the four lookups compute `OpenFor` |
| Boards.Board.OpenRoadPoints | catan/Board.py:454-462 | the loop computes `OpenOnly` |
| Boards.Board.RoadsFrom | catan/Board.py:466-469 | the inner loop computes `EdgesFrom` |
| Boards.Board.CandidateRoads | catan/Board.py:465-469 | the outer loop computes `EdgesFromAll` |
| Boards.Board.GetPossibleRoadLocations | catan/Board.py:439-476 | the method computes `PossibleRoads` |
| Boards.Board.AddSettlement | catan/Board.py:115-126 | appends the settlement and adds one to the player's score exactly when the point is legal and the player has fewer than five settlements; otherwise nothing changes |
| Boards.Board.SettlementIndexOwn | catan/Board.py:311-317 | for a player's own number, `findSettlementIndex` is the first match in that player's own list |
| Boards.Board.AddCity | catan/Board.py:132-145 | when the player has a settlement there and fewer than four cities: appends the city, removes that settlement and adds one to the score; otherwise nothing changes |
| Boards.Board.AddRoad | catan/Board.py:153-164 | appends the road exactly when no road joins the points and the player has fewer than 15 roads; no connection is required |
| Planning.CostsAreCosts | catan/RandComp.py:203 | the three build costs are non-negative and each needs something |
| Planning.NeededFrom | catan/RandComp.py:244-247 | the first resource, apart from the one given away, that is still short of the cost, or -1 when none is |
| Planning.Best | catan/RandComp.py:205-236 | the chosen resource leaves the most cards after paying the cost and the rate, ties going to the later resource with a rate at least as high |
| Planning.PayEffect | catan/RandComp.py:445-446 | paying an affordable cost leaves no needed entry negative, strictly lowers the sum of positive entries, and keeps a hand without negatives so |
| Planning.PayTotal | catan/RandComp.py:445-446 | paying lowers the total by the cost's total |
| Planning.TradedLowers | catan/Player.py:119-120 | an affordable trade at rate at least 2 lowers the total by rate − 1 and keeps a hand without negatives so |
| Planning.TradeStepEffect | catan/RandComp.py:243-251 | one planned trade fills the shortfall it is made for and lowers the hand's total by rate − 1 |
| Planning.SimulateEffect | catan/RandComp.py:202-251 | a feasible plan of n trades lowers the total by at least n |
| Planning.PlanStep | catan/RandComp.py:243-251 | the next trade of a plan is feasible and shrinks the hand |
| Planning.TradeOnCopy | catan/RandComp.py:243-251 | one loop step extends the plan by one feasible trade and shrinks the copied hand |
| Planning.PortPlan | catan/RandComp.py:182-255 | returns exactly `GreedyPlan`, the trades the source's `while` loop makes on a copy of the hand: empty when the cost is already affordable, and when non-empty a feasible plan after which the cost is affordable |
| Planning.GreedyFromSound | catan/RandComp.py:202-254 | the loop, from any feasible prefix of trades, returns [] or a feasible plan after which the cost is met |
| Planning.GreedyFromExtends | catan/RandComp.py:202-251 | a non-empty result of the loop extends the trades planned so far |
| Planning.GreedyFromPicksBest | catan/RandComp.py:205-251 | every trade the loop adds gives away the resource `Best` picks on the hand the trades before it leave |
| Planning.GreedyPlanSound | catan/RandComp.py:182-255 | the planners' result holds indices 0–4; it is [] when the cost is affordable; a non-empty one is feasible, meets the cost and makes the best pick at every trade |
| Planning.GreedyFromStuck | catan/RandComp.py:202-254 | an empty result for an unaffordable hand means the loop reached a hand, still short of the cost, on which no resource can spare a trade (`Best` below 0) |
| Planning.GreedyPlanRoadExample | catan/RandComp.py:336-409 | for the hand [0, 0, 4, 0, 1] with every rate 4, the road planner returns [2]: one trade of sheep |
| Planning.RoadExampleTrade | catan/RandComp.py:336-409 | on that hand `Best` picks sheep with nothing to spare, and the trade leaves [0, 0, 0, 1, 1] |
| Builders.CityPortResources | catan/RandComp.py:182-255 | [] without a location or with four cities; otherwise exactly `GreedyPlan` for the city cost, so [] when a city is already affordable and a non-empty plan is feasible and makes a city affordable |
| Builders.SettlementPortResources | catan/RandComp.py:257-334 | [] without a location or with five settlements; otherwise exactly `GreedyPlan` for the settlement cost, with the same consequences |
| Builders.RoadPortResources | catan/RandComp.py:336-409 | [] without a location or with 15 roads; otherwise exactly `GreedyPlan` for the road cost, with the same consequences |
| Builders.ExecuteTrades | catan/RandComp.py:420-431 | carrying out a feasible plan leaves the hand the plan simulated |
| Builders.CityTest | catan/RandComp.py:434 | a city is affordable exactly with three ore and two wheat |
| Builders.PayCity | catan/RandComp.py:445-446 | paying for a city is `Pay` of the city cost |
| Builders.AddCityScored | catan/RandComp.py:447-448 | the board's city is added and the board score bumped once more, on top of the point `addCity` gives |
| Builders.PayAndCountCity | catan/RandComp.py:445-449 | pays for the city and counts the new building's pips |
| Builders.BuildCity | catan/RandComp.py:444-451 | pays, adds the city, counts its pips and adds one to the player's score |
| Builders.TradeFor | catan/RandComp.py:420-431 | carrying out a feasible plan leaves the hand the plan simulated |
| Builders.TradeForCity | catan/RandComp.py:418-431 | trades along exactly the greedy city plan of the hand on entry; the hand becomes the one the plan simulates; the locations' values and counted points are unchanged |
| Builders.CityAtBest | catan/RandComp.py:434-451 | builds at `Pick` of the locations' values on entry, drawing once per location; pays the city cost, replaces the settlement by the city with a board point (`CityAdded`), counts the pips and adds a point |
| Builders.PaidAfterTrades | catan/RandComp.py:418-446 | trading then paying strictly lowers the positive total and keeps a hand without negatives so |
| Builders.PlaceCityOffered | catan/RandComp.py:418-452 | the plan is `GreedyPlan`; -1 exactly when that plan is empty and a city is unaffordable, and then nothing changes and nothing is drawn; otherwise the hand after trading and paying is `Pay(Simulate(plan))` and the city is built at `Pick` |
| Builders.PlaceCity | catan/RandComp.py:411-452 | -1 without a location or with four cities; otherwise as `PlaceCityOffered`, building at `BuildPick` (`Pick` over the values of all the locations); in every case only the player's own entries of the settlement, city and score lists change (`OnlyOwn`) |
| Builders.SettlementTest | catan/RandComp.py:482 | a settlement is affordable exactly with one each of wheat, sheep, brick and wood |
| Builders.PaySettlement | catan/RandComp.py:493-496 | paying for a settlement is `Pay` of the settlement cost |
| Builders.AddSettlementScored | catan/RandComp.py:497-502 | the board's settlement is added and the board score bumped once more, on top of the point `addSettlement` gives |
| Builders.PayPortAndCount | catan/RandComp.py:493-503 | pays, takes on the port at the location and counts the pips |
| Builders.BuildSettlement | catan/RandComp.py:492-505 | pays, adds the settlement, takes on its port, counts its pips and adds one to the score |
| Builders.TradeForSettlement | catan/RandComp.py:462-479 | trades along exactly the greedy settlement plan; the hand becomes the one the plan simulates; the locations' values, counted points, ports and legality are unchanged |
| Builders.SettlementAtBest | catan/RandComp.py:482-505 | builds at `Pick` of the locations' values on entry, drawing once per location; pays, takes on the port there, counts the pips, adds the settlement as `addSettlement` does plus a board point (`SettlementAdded`) and a point |
| Builders.PlaceSettlementOffered | catan/RandComp.py:462-506 | the plan is `GreedyPlan`; -1 exactly when that plan is empty and a settlement is unaffordable, and then nothing changes and nothing is drawn; otherwise the hand after trading and paying is `Pay(Simulate(plan))` and the settlement is built at `Pick` |
| Builders.PlaceSettlement | catan/RandComp.py:455-506 | -1 without a location or with five settlements; otherwise as `PlaceSettlementOffered` |
| Builders.RoadTest | catan/RandComp.py:532 | a road is affordable exactly with a brick and a wood |
| Builders.PayRoad | catan/RandComp.py:533-534 | paying for a road is `Pay` of the road cost |
| Builders.BuildRoad | catan/RandComp.py:532-538 | pays and adds the road at the drawn index |
| Builders.TradeForRoad | catan/RandComp.py:516-529 | trades along exactly the greedy road plan; the hand becomes the one the plan simulates |
| Builders.PlaceRoad | catan/RandComp.py:509-539 | -1 without a location, with 15 roads, or when the greedy plan is empty and a road is unaffordable (then nothing changes and nothing is drawn); otherwise trades along `GreedyPlan`, pays, and adds the candidate drawn by `randrange` as `addRoad` does (`RoadAdded`) |
| Builders.CityAttempt | catan/RandComp.py:549-555 | one round of the city loop: either the hand and score are unchanged and a city is unaffordable or impossible, or a city is built, adding a point and shrinking the hand; only the player's own list entries change |
| Builders.CitiesUntilFail | catan/RandComp.py:549-555 | the city loop ends with a city unaffordable or impossible; each city built adds a point and lowers the positive total by at least one; only the player's own list entries change |
| Builders.SettlementAttempt | catan/RandComp.py:557-563 | one round of the settlement loop, as for cities, ending with no candidate, no room or no means; only the player's own list entries change |
| Builders.SettlementsUntilFail | catan/RandComp.py:557-563 | the settlement loop ends with a settlement unaffordable or impossible, scoring a point per settlement built; only the player's own list entries change |
| Builders.RoadAttempt | catan/RandComp.py:565-571 | one round of the road loop: either nothing changes or a road is built and the hand shrinks; only the player's own road list changes |
| Builders.RoadsUntilFail | catan/RandComp.py:565-571 | the road loop ends, with a road unaffordable or no place or room left for one; only the player's own road list changes |
| Builders.TakeTurn | catan/RandComp.py:546-573 | returns the board it was given; the score rises by the buildings built; the hand shrinks by at least one per build; at the end a road is unaffordable or impossible; only the player's own entries of the settlement, city, score and road lists change |
| Robber.HalfTowardZero | catan/RandComp.py:69 | `int(total / 2)`: half, rounded toward zero |
| Robber.DiscardHalf | catan/RandComp.py:68-83 | discarding from a hand without negatives leaves total − total / 2 cards and no negative count |
| Robber.DiscardPass | catan/RandComp.py:71-76 | one pass of the discard loop drops one random held card |
| Robber.LowerCount | catan/RandComp.py:78 | lowers the board's card count for the player by n |
| Robber.Discard | catan/RandComp.py:68-83 | performs half the total of random discards and lowers the board's count by that half |
| Robber.DiscardedHand | catan/RandComp.py:68-83 | n random discards from a hand without negatives leave one n cards smaller, with no count raised and none negative, after n draws |
| Robber.GetPlayerToRob | catan/RandComp.py:85-103 | draws once per player and returns exactly `RobChoice`: -1 exactly when no robbable player scores above 0 with its jitter; otherwise a robbable player other than itself with the highest jittered score, the earliest among ties |
| Robber.RobChoiceDefinition | catan/RandComp.py:85-103 | `RobChoice` spelt out: -1 exactly when no robbable player scores above 0; otherwise a robbable player with the highest jittered score, strictly above every earlier one |
| Robber.SomeoneToRob | catan/RandComp.py:85-103 | when every other player has a positive score, someone is picked |
| Robber.SpotsAround | catan/RandComp.py:113-115 | the loop collects the tiles returned around a building |
| Robber.NobodyToBlock | catan/RandComp.py:105-180 | with player -1 to rob there are no candidate tiles and no best tile |
| Robber.Arranged | catan/RandComp.py:127 | putting the set in an order is a permutation of the candidates |
| Robber.SettlementContribution | catan/RandComp.py:151-155 | with no city there, an intersection adds -20 for the player's own settlement, the player's own score for someone else's, and 0 for none |
| Robber.TiesExactly | catan/RandComp.py:170-174 | the ties are exactly the positions holding the value, in increasing order |
| Robber.TiesAreTheBest | catan/RandComp.py:129-174 | every kept index holds the maximum; every maximum of at least -100 is kept; none is kept exactly when every value is below -100 |
| Robber.CollectOwned | catan/RandComp.py:110-115 | collects the tiles around one list's buildings that belong to the player |
| Robber.CollectAround | catan/RandComp.py:108-124 | collects around every list of buildings |
| Robber.ContributionAt | catan/RandComp.py:141-166 | the four lookups compute `Contribution` |
| Robber.BlockValueAt | catan/RandComp.py:137-168 | the loop computes `BlockValue` |
| Robber.CollectBlockSpots | catan/RandComp.py:106-127 | the collected, de-duplicated and arranged candidates are `BlockSpots` |
| Robber.ScanSpots | catan/RandComp.py:129-174 | the loop computes `BestSpots` |
| Robber.GetPointToBlock | catan/RandComp.py:105-180 | returns exactly `BlockChoice`: no location (the source's ValueError) and no draw exactly when no tile ties for best; otherwise the location of the tie drawn by `randrange` |
| Robber.BlockChoiceDefinition | catan/RandComp.py:105-180 | `BlockChoice` spelt out: no location exactly when there are no ties; otherwise the tie drawn, over the candidates in `order` |
| Robber.BlockChosen | catan/RandComp.py:125-180 | the candidates, their ties and the draw over them make up `BlockChoice` |
| RandComps.Jitter | catan/RandComp.py:50 | `randrange(20) / 10.0` lies in [0, 2) |
| RandComps.RatesWithPort | catan/RandComp.py:30-32 | the scratch rates with the location's port, applied once per adjacent tile, never raise a rate |
| RandComps.HexValueDefinition | catan/RandComp.py:20-37 | the value of a location is 4 · Σ (new points / scratch rate − old points / rate) |
| RandComps.HexValueNonNegative | catan/RandComp.py:20-37 | with non-negative resource points, the value of a location is never negative |
| RandComps.ApplyPortPerTile | catan/RandComp.py:26-32 | the loop leaves the scratch rates at `RatesWithPort` |
| RandComps.SumGain | catan/RandComp.py:33-35 | the final loop computes the sum |
| RandComps.GetHexValue | catan/RandComp.py:20-37 | returns `HexValue` of the state on entry and resets the scratch rates to 4 |
| RandComps.WeighLocation | catan/RandComp.py:21-35 | the weighing computes `HexValue` |
| RandComps.ChooseBuildLocation | catan/RandComp.py:437-442 | the index is exactly `Pick` of the values on entry; -1 exactly without locations; draws once per location; no later location's value plus jitter exceeds the chosen one's bare value |
| RandComps.Pick | catan/RandComp.py:437-442 | the running leader over the first i locations: -1 or an index below i, carried with that location's bare value |
| RandComps.PickBeatsLater | catan/RandComp.py:437-442 | -1, with -10, exactly for no locations; no location after the leader has value plus jitter above the leader's bare value |
| RandComps.PickNotBest | catan/RandComp.py:437-442 | values 2.0 and 1.5 with jitters 0 and 0.6 pick the second, lower value, because the jittered value is compared with the bare maximum |
| RandComps.ScanBuildLocations | catan/RandComp.py:437-442 | the loop computes `Pick`, drawing once per location and resetting the scratch rates |
| RandComps.BuildPickDefinition | catan/RandComp.py:437-442 | the location `placeCity` and `placeSettlement` build at is `Pick` over the values of all the offered locations |
| RandComps.ConsiderIntersection | catan/RandComp.py:49-54 | one loop step draws only for a legal intersection and keeps the leader |
| RandComps.ChooseInitialSettlementLocation | catan/RandComp.py:43-56 | draws once per legal intersection; with none legal, returns the last intersection (index -1); otherwise a legal one whose value plus jitter beats every earlier one and is not beaten by any later one |
| RandComps.LeadingStep | catan/RandComp.py:52-54 | a strictly higher score takes the lead; otherwise the leader stays |
| RandComps.PickInitial | catan/RandComp.py:48-56 | the loop ends with the leader over all intersections |
| RandComps.ChooseInitialRoadLocation | catan/RandComp.py:62-65 | nothing (the source's ValueError) exactly when no intersection is adjacent; otherwise a randomly drawn adjacent intersection |
| Games.GainedGrows | catan/Game.py:118-130 | gaining never lowers an entry, raises the total by the number of resource names, and keeps a hand without negatives so |
| Games.YieldsSound | catan/Game.py:121-123 | each card paid comes from a tile with that type and the rolled number that the robber does not block |
| Games.CityYieldsTwice | catan/Game.py:125-130 | a city yields twice the resource cards a settlement would |
| Games.NeighborsOf | catan/Game.py:120 | the tiles around a building are `getAdjacentHexes` |
| Games.YieldAround | catan/Game.py:120-130 | the cards one building earns on the roll |
| Games.YieldOfList | catan/Game.py:119-130 | the cards one list of buildings earns |
| Games.GainAll | catan/Game.py:123 | adding cards one by one is `Gained`, with the board's count raised by the number of resources added |
| Games.Collected | catan/Game.py:118-130 | the cards a player earns from settlements and cities |
| Games.SettleInitial | catan/Game.py:50-51 | the location is an intersection, and a legal one unless none is; the settlement there in the given colour is appended to the player's list with a board point exactly when `legalPlacement` held there before and the player had fewer than five, and otherwise nothing changes; no other list or score changes (`SettledAt`); `legalPlacement` there means no settlement or city on it or next to it (`ClearIn`) |
| Games.ClaimInitial | catan/Game.py:52-58 | counts the pips, adds one to the score and takes on the port |
| Games.RoadInitial | catan/Game.py:61-62 | fails exactly when no intersection is adjacent; otherwise the road from the settlement to the neighbour drawn by `randrange` is appended exactly when no road joined the two points yet and the player had fewer than fifteen (`RoadAdded`), and no other road list changes (`RoadLaid`) |
| Games.GainAround | catan/Game.py:83-85 | the second settlement pays one card per adjacent tile, and the board's card count of the player (`numResources`, kept by `gainResource` at catan/Player.py:40-47) rises by `Harvest`, the number of those tiles that name a resource |
| Games.CountGained | catan/Game.py:83-85 | a card count raised by the resource names among the tiles around a location, on a board whose tiles and robber stayed, is raised by that location's `Harvest` |
| Games.HarvestDefinition | catan/Game.py:83-85 | `Harvest` spelt out: the number of the tiles `getAdjacentHexes` gives around the location whose kind names a resource |
| Games.PlaceInitial | catan/Game.py:48-90 | one placement: the settlement taken exactly when legal with fewer than five (`SettledAt`, with legality as `ClearIn`); the player's standing becomes `Claimed`: a point, the pips and the port of the location, and in the second round only the types of the tiles around it added to the hand; the board's card count of the player rises by `Harvest` of the location in the second round and is untouched in the first (`Gathered`); it fails exactly when no intersection is adjacent, and otherwise the road to an adjacent end is taken exactly when no road joined its ends (`RoadLaid`); tiles, robber, ports and cities are untouched |
| Games.RoadKept | catan/Game.py:61-62 | laying the initial road changes nothing the settlement fixed: the intersections next to it, `Claimed` and `Harvest` of the location |
| Games.SettleAndClaim | catan/Game.py:50-58 | the settlement as `SettleInitial` (`SettledAt`, legality as `ClearIn`), then the standing becomes `Claimed`: a point, the pips and port, and in the second round the tiles around it; the player's card count rises by `Harvest` in the second round only (`Gathered`); roads, cities, tiles and ports untouched |
| Games.ClaimAndGain | catan/Game.py:73-85 | the standing becomes `Claimed`: one more point, the pips counted and the port taken on; in the second round the hand gains the types of the tiles around the location and the board's card count of the player rises by their `Harvest`, and otherwise hand and every card count are untouched (`Gathered`) |
| Games.GainedAppend | catan/Game.py:84-85 | gaining two lists of resource names one after the other is gaining their concatenation |
| Games.SettledOf | catan/Board.py:115-126 | the outcome of `addSettlement`, added exactly when legal with fewer than five, or refused, is `SettledAt` |
| Games.SettledAtDefinition | catan/Game.py:51 | `SettledAt` spelt out: only the player's list and score change, by the settlement or not at all |
| Games.RoadLaidDefinition | catan/Game.py:62 | `RoadLaid` spelt out: only the player's road list changes, by the road or not at all |
| Games.RoundStart | catan/Game.py:48 | before any turn of a round, `RoundTook` holds with no player |
| Games.RoundStep | catan/Game.py:48-90 | one more player's placement, just after (first round) or just before (second round) those already recorded, with its settlement taken exactly when `ClearIn` on the lists as they stood and its road exactly when no road joined its ends, extends `RoundTook` by that player and keeps every earlier turn as it was taken |
| Games.DiscardIfOver | catan/Game.py:100-102 | a hand of at most seven is untouched, and so is the board's card count; a larger one is halved by random discards, and the player's card count drops by the same half (catan/RandComp.py:78); both cases together are `AfterDiscard` |
| Games.Overflow | catan/Game.py:100-102 | the cards a player discards: none at a total of at most seven, otherwise a positive half of the total, rounded down |
| Games.AfterDiscardDefinition | catan/RandComp.py:68-83 | `AfterDiscard` spelt out: a total above seven has its half discarded by random passes; otherwise hand and draws are untouched; its own contract says the hand stays a hand whose total drops by `Overflow` |
| Games.Steal | catan/Game.py:107-110 | with an empty victim nothing changes; otherwise one random held card moves from victim to thief |
| Games.LaidOutBoard | catan/Game.py:21-31 | a fresh board with 19 tiles, nine ports and empty lists |
| Games.NewPlayers | catan/Game.py:22-26 | four fresh, distinct players numbered 1–4, in red, blue, white and orange, with empty hands |
| Games.Game.FirstRound | catan/Game.py:48-64 | players 1 to 4 in turn settle at `locs[k]` and lay a road to `ends[k]`, adjacent to it, in their own colour; the board takes each settlement exactly when it is clear as the board stands at that turn and the player has fewer than five, and each road exactly when no road joined its ends (`RoundTook`); each player then plays on the game's board and its standing is `Claimed`: a point whether or not the settlement was taken, the pips and the port; no hand and no card count changes |
| Games.Game.SecondRound | catan/Game.py:68-90 | players 4 to 1 in turn settle and lay a road to an adjacent end in the colour the loop counter picks (`SecondColors`); the board takes each piece exactly when allowed as the board stands at that turn (`RoundTook`); each standing is `Claimed`: a point, the pips, the port, and the types of the tiles around the settlement added to the hand; each player's card count rises by the `Harvest` of its settlement |
| Games.Game.PlaceTurn | catan/Game.py:49-90 | player index `k`'s placement within a round on the game's board: the standing becomes `Claimed`, the settlement is taken as `SettledAt` exactly when `ClearIn`, the road, to an adjacent end, as `RoadLaid` exactly when no road joined its ends; the card count of `k` rises by `Harvest` in the second round only (`Gathered`); tiles, ports and cities untouched |
| Games.Game.RoundColors | catan/Game.py:51-88 | the colours by player index: red, blue, white, orange in the first round, and reversed in the second |
| Games.Game.InitPlacement | catan/Game.py:46-90 | the first round then the second, each as `RoundTook` with the board lists `mid` between them; every player's standing is `Claimed` for its first location and then for its second, so it has two more points; every road ends next to its settlement; each player's card count rises by the `Harvest` of its second settlement only |
| Games.Game.FirstPlaced | catan/Game.py:48-64 | the turns of the first round: the players' standings are `Claimed` against those before (`Placed`), every road ends next to its settlement (`Sites`), the card counts are untouched (`Harvested`) and the board's lists are as `RoundTook` says |
| Games.Game.SecondPlaced | catan/Game.py:68-90 | the turns of the second round, going down from player 4: `Placed`, `Sites` and `RoundTook` as for the first, and every card count raised by its settlement's `Harvest` (`Harvested`) |
| Games.Game.RoundTurn | catan/Game.py:49-90 | one turn of either round extends `Placed`, `RoundTook`, `Sites` and `Harvested` by player index `k`, after those already played |
| Games.Game.HarvestedStep | catan/Game.py:83-85 | a turn whose card counts are `Gathered` extends `Harvested` by that player |
| Games.Game.HarvestedRound | catan/Game.py:46-90 | `Harvested` over all players spelt out: the counts unchanged after the first round, each raised by its settlement's `Harvest` after the second |
| Games.Game.TurnAccounted | catan/Game.py:49-90 | what `PlaceTurn` states about one turn extends the round's `Placed`, `RoundTook` and `Sites` by that player |
| Games.Game.PlacedStep | catan/Game.py:52-58 | a player whose standing became `Claimed`, with every other player untouched, extends `Placed` by that player |
| Games.Game.BothPlaced | catan/Game.py:46-90 | two rounds of `Placed` make each standing `Claimed` twice over with two more points, every road still next to its settlement |
| Games.Game.SitesStep | catan/Game.py:61-62 | a road to an end adjacent to its settlement extends `Sites` by that player |
| Games.BothRounds | catan/Game.py:46-90 | over the two rounds from an empty board, each player has exactly the settlements that were clear and the roads that were free when its turns came, in order, and one point per settlement |
| Games.ClaimedDefinition | catan/Game.py:52-58 | `Claimed` spelt out: hand gained by the tile types around the location in the second round, one point, the pips counted, the port taken on |
| Games.ClaimedFrom | catan/Game.py:52-85 | `Claimed` on a board whose tiles, robber and ports did not change is the same as in the earlier state |
| Games.Game.CollectAll | catan/Game.py:118-130 | each player's harvest is `Production` |
| Games.Game.Produce | catan/Game.py:118-130 | every hand gains its production, and the board's counts rise by the cards gained |
| Games.Game.GainHarvest | catan/Game.py:118-130 | every hand gains its harvest |
| Games.Game.DiscardAll | catan/Game.py:100-102 | each player in turn, on the draws the one before left: its hand becomes `AfterDiscard` of the old one; hands of at most seven are untouched; larger ones drop half; each card count drops by `Overflow` of the old total (catan/RandComp.py:78); scores are untouched |
| Games.Game.DiscardTurn | catan/Game.py:100-102 | one player's discard step: its hand becomes `AfterDiscard`, its card count drops by `Overflow` of its old total, every other count is unchanged |
| Games.Game.DiscardStep | catan/Game.py:100-102 | one player's discard step, the other hands untouched, extends `DiscardedUpTo` by that player |
| Games.Game.DiscardedAll | catan/Game.py:100-102 | once every player has gone through the discard step, each hand is `AfterDiscard` of the old one, untouched at most seven, halved above, and each card count lowered by `Overflow` |
| Games.Game.ChooseBlock | catan/Game.py:105-106 | the player to rob and the tile to block are exactly `Chosen`: `getPlayerToRob` then `getPointToBlock` on the draws left |
| Games.ChooseFor | catan/Game.py:105-106 | `getPlayerToRob` then `getPointToBlock` for a player is exactly `Chosen`; a tile comes with another player to rob |
| Games.ChoiceMade | catan/Game.py:105-106 | `RobChoice` followed by `BlockChoice` on the remaining draws is `Chosen` |
| Games.Game.Rob | catan/Game.py:105-110 | the choice is exactly `Chosen`; without a tile nothing changes, card counts included; otherwise the robber is on the chosen tile, one card moves from the victim to the mover (`Stolen`), the mover's card count rises by one and the victim's drops by one exactly when the victim held a card (`CountMoved`, from `gainResource` and `loseResource` at catan/Player.py:40-56), and every other hand and every score is untouched |
| Games.Game.RobAt | catan/Game.py:106-110 | puts the robber on the tile and steals as `Stolen`; the two card counts move by one exactly when the victim held a card (`CountMoved`); every other hand and every score is untouched |
| Games.Game.MoveRobber | catan/Game.py:106 | the robber moves to the location; no hand changes |
| Games.Game.StealFrom | catan/Game.py:107-110 | the victim's card drawn by `getRandomResource` moves to the mover, or nothing changes when the victim holds none (`Stolen`); the mover's card count rises by one and the victim's drops by one exactly when the victim held a card (`CountMoved`); every other hand and every score is untouched |
| Games.StolenDefinition | catan/Game.py:107-110 | `Stolen` spelt out: a victim with no cards means no change and no draw; otherwise a drawn held card k moves, victim[k] − 1 and thief[k] + 1 |
| Games.Game.Robbery | catan/Game.py:100-110 | discards and robbery change no score |
| Games.Game.CollectResources | catan/Game.py:92-130 | the roll is two draws; scores are untouched; any roll but 7 succeeds and pays every player its production |
| Games.Game.Build | catan/Game.py:135 | only the mover's entries of the settlement, city, score and road lists change; every other player's hand and score is untouched; the mover's score never falls |
| Games.Game.Advance | catan/Game.py:137-146 | a player to move with ten points wins; the move passes on, with a new turn after player 4; a winner always has ten points |
| Games.Game.TakeTurn | catan/Game.py:132-146 | other players' scores and list entries are untouched; on success the move passes and a winner is recorded; a recorded winner keeps ten points |
| Games.Game.RollAndBuild | catan/Game.py:134-135 | only the mover's entries of the board's building, score and road lists change; other scores are untouched and the mover's never falls |
| Games.Game.Play | catan/Game.py:35-40 | within the turn budget the loop stops at a winner, who has at least ten points |
| Games.Game.PlayTurns | catan/Game.py:37-38 | within the turn budget the loop stops at a winner, who has at least ten points |
| Games.Game.constructor | catan/Game.py:14-32 | a laid-out board and four new players, player 1 to move, no winner; each player holds its own fresh board, distinct from the game's |

## Left out

- The GUI, the screen drawing and every `print`. The screen size is a constructor parameter.
- `Dice.py` and `CatanMain.py` are not part of this model.
- Randomness comes from outside the model:
  - each `randrange` is a draw from a `Source`;
  - `shuffle` is a permutation parameter;
  - in `getPointToBlock` only, the order in which Python iterates the `set` of candidate tiles is the `arrange`/`order` permutation parameter. The other `[*set(...)]` conversions are listed below.
- Boards.Board.InitTiles: the intersections are the tile corners de-duplicated keep-first, in corner order, merging corners that are equal under `Point.__eq__`. Python's `set` at catan/Board.py:238 merges only points with the same hash (the same truncated coordinates, see `HashKeyNotConsistentWithEq`) and iterates in hash order, so the source's list can hold near-duplicates and come in another order.
- Boards.Board.LayOutIntersections: the same keep-first, `__eq__`-merging de-duplication of the corners in place of the `set` at catan/Board.py:238.
- Boards.Board.GetPossibleSettlementLocations: the road ends are de-duplicated keep-first in road order under `__eq__`, in place of the `set` at catan/Board.py:429. Which candidate a draw lands on can therefore differ from the source's.
- Boards.Board.GetPossibleRoadLocations: the same for the road ends at catan/Board.py:451 and the candidate edges; the candidate order, and so the road a draw picks, can differ from the source's.
- RandComps.GetHexValue: Python's floating-point arithmetic is modelled as exact `real` arithmetic. This applies to `getHexValue`'s divisions and sums (`HexValue`), to the comparisons `hexValue > maxValue` (with the jitter inside `hexValue`) and `cityValue + random > maxValue` in RandComps.ChooseInitialSettlementLocation, RandComps.ChooseBuildLocation and `Pick`, and to the coordinate differences in Geometry.PointEq. Values are multiples of 1/3 and jitters multiples of 0.1, so exact ties can occur; float rounding may break such a tie differently.
- RandComps.ChooseBuildLocation: its comparison `cityValue + random > maxValue` is exact over `real`, as described for RandComps.GetHexValue.
- RandComps.ChooseInitialSettlementLocation: its jittered comparison `hexValue > maxValue` is exact over `real`, as described for RandComps.GetHexValue.
- Games.Game.Play: the `while winner == -1` loop runs under a turn budget (`fuel`). A game that would last longer stops with no winner.
- Games.RoadInitial, Games.Game.InitPlacement and Games.Game.TakeTurn: the source crashes with ValueError on `randrange(0)` (no neighbour for an initial road, or no candidate tile to block). The model returns `ok = false` there instead, and the game stops.
- Games.Game.CollectResources: production is collected for every player first and added afterwards. The source interleaves the two. Adding cards never changes the tiles or buildings read, so the effect is the same.
- Games.Game.CollectResources: on a roll of 7 the contract states only that scores are unchanged. The discards and the robbery are stated by the steps it calls, not carried up: Games.Game.DiscardAll gives each hand as `AfterDiscard` and each card count lowered by `Overflow`; Games.Game.Rob gives the robber's tile, the steal as `Stolen` and the card counts as `CountMoved`.
- Games.Game.Robbery: states only that scores are unchanged. Its two steps, Games.Game.DiscardAll and Games.Game.Rob, state the hands, the card counts, the robber and the steal. Rob starts from the hands DiscardAll left, but Robbery's contract does not join the two.
- Games.Game.Build: the mover's hand and exactly which pieces it built are not stated; only the frame (other players' hands, scores and list entries unchanged) and the mover's non-falling score are. Builders.TakeTurn states the mover's bounds.
- Games.Game.RollAndBuild: hands after the roll and the build are not stated; the contract gives scores and the frame on the board's lists.
- Games.Game.TakeTurn: hands after the turn are not stated; the contract gives scores, list frames, the move and the winner.
- Robber.GetPointToBlock: the candidate list is built from the buildings owned by the player to rob. An `order` that is not a permutation leaves the candidates as they are.
- Boards.Board.constructor: the building and road lists get `numPlayers + 1` entries, as the source does (it starts from `[[]]`). The first `numPlayers` entries are indexed by `playerNum - 1`; the extra list is the last one and is never used.
- Players.Player.Valid does not constrain the scratch rates `tempTradeRates`. Weighing a location sets and then resets them.
- Builders.TakeTurn does not lower the board's per-player card count when the player pays for a build, as in the source. So the count can exceed the hand. The model proves nothing that ties the two together after a build.
- Games.Unblocked treats a tile or robber with no location (`None`) as unblocked. Both are set once the tiles are laid out, so that case does not arise in a game.

Source behaviours kept as written:
- `getAdjacentHexes` appends `tiles[i]` for probe i rather than the tile found, and probes 4 and 5 repeat probes 2 and 3 (`ProbesMissWestCorners`).
- `findRoadIndex` applies its player filter only to the reversed match (`RoadFilterIgnoredOnForwardMatch`).
- `addRoad` does not check that the road connects to the player's network.
- `placeCity` and `placeSettlement` add one to `playerScores` on top of the point `addCity`/`addSettlement` already add.
- `getPointToBlock` adds the deciding player's own score, not the owner's.
- The second placement round passes `playerColors[i]` for player 4 − i.
- `initPlacement` adds a point even when `addSettlement` refuses the location.
- `placeCity` and `placeSettlement` keep the bare value, without the jitter, as the running maximum.

## Findings

| source | as written | input that shows it | evidently intended | confidence | as-written member | corrected member |
|---|---|---|---|---|---|---|
| catan/Player.py:107-116 | an unaffordable trade prints a message that calls `oldResource.getResourceType()` on an `int`, which raises AttributeError | `portResource(0, 1)` with no ore and the bank rate 4 | reject the trade with a message and leave the hand unchanged | not executed | Players.PortOutcomeRaises | Players.Player.PortResource |
