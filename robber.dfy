/**
 * The robber, as the random computer player handles it (catan/RandComp.py):
 * discarding half of a large hand, choosing the player to rob, and choosing
 * the tile to block.  Every `randrange` takes the next draw of a `Source`;
 * the iteration order of the Python set that removes duplicate tiles is an
 * input, as the shuffles are.
 */
module Robber {
  import opened Wrappers
  import opened Geometry
  import opened Tiles
  import opened Resources
  import opened Random
  import opened Structures
  import opened Boards
  import opened Players
  import opened RandComps

  // ---------------------------------------------------------------------
  // Discarding (discard)
  // ---------------------------------------------------------------------

  /** Python's `int(n / 2)`: half of `n`, truncated toward zero. */
  function HalfTowardZero(n: int): (h: int)
    ensures n >= 0 ==> 0 <= h && 2 * h <= n <= 2 * h + 1
    ensures n < 0 ==> h <= 0 && 2 * h - 1 <= n <= 2 * h
  {
    if n >= 0 then n / 2 else -((-n) / 2)
  }

  /** The number of passes of `for _ in range(n)`. */
  function Passes(n: int): nat
  {
    if n > 0 then n else 0
  }

  /**
   * One pass of the discard loop: `getRandomResource`, then one of the drawn
   * resource given up; nothing is given up when it answers -1.
   */
  function DiscardOne(res: seq<int>, src: Source): (r: (seq<int>, Source))
    requires |res| == Kinds
    ensures |r.0| == Kinds
  {
    if Total(res) > 0 then
      var drawn := Below(src, Total(res));
      var k := RandomResource(res, drawn.0);
      (if k != -1 then res[k := res[k] - 1] else res, drawn.1)
    else (res, src)
  }

  /** The hand and the source after `n` passes of the discard loop. */
  function Discarded(res: seq<int>, src: Source, n: nat): (r: (seq<int>, Source))
    requires |res| == Kinds
    ensures |r.0| == Kinds
    decreases n
  {
    if n == 0 then (res, src)
    else
      var before := Discarded(res, src, n - 1);
      DiscardOne(before.0, before.1)
  }

  /** From a hand that is not empty, one pass gives up exactly one resource the player holds, using one draw. */
  lemma DiscardOneGivesUpOne(res: seq<int>, src: Source)
    requires Hand(res) && Total(res) > 0
    ensures var r := DiscardOne(res, src);
      && (exists k :: 0 <= k < Kinds && res[k] > 0 && r.0 == res[k := res[k] - 1])
      && Hand(r.0) && Total(r.0) == Total(res) - 1
      && r.1 == Source(src.draws, src.used + 1)
  {
    var drawn := Below(src, Total(res));
    RandomResourcePicks(res, drawn.0);
    var k := RandomResource(res, drawn.0);
    TotalOfHand(res);
    TotalOfHand(res[k := res[k] - 1]);
  }

  /**
   * Discarding `n` from a hand holding at least `n` never reaches the error
   * branch: exactly `n` resources go, no counter grows or turns negative,
   * and each pass uses one draw.
   */
  lemma {:induction false} DiscardedHand(res: seq<int>, src: Source, n: nat)
    requires Hand(res) && n <= Total(res)
    ensures var r := Discarded(res, src, n);
      && Hand(r.0) && Total(r.0) == Total(res) - n
      && (forall k :: 0 <= k < Kinds ==> r.0[k] <= res[k])
      && r.1 == Source(src.draws, src.used + n)
  {
    if n > 0 {
      DiscardedHand(res, src, n - 1);
      var before := Discarded(res, src, n - 1);
      DiscardOneGivesUpOne(before.0, before.1);
    }
  }

  /** The body of `discard`'s loop: one resource drawn with `getRandomResource` and given up. */
  method DiscardPass(p: Player, src: Source) returns (src': Source)
    requires p.Valid()
    modifies p`resources
    ensures p.Valid() && (p.resources, src') == DiscardOne(old(p.resources), src)
  {
    var resourceType;
    resourceType, src' := p.GetRandomResource(src);
    if resourceType != -1 {
      p.resources := p.resources[resourceType := p.resources[resourceType] - 1];
    }
  }

  /** `discard`'s last step: the board's count of the player's resources lowered by `n`. */
  method LowerCount(p: Player, n: int)
    requires p.Valid()
    modifies p.currentBoard`numResources
    ensures p.Valid()
    ensures p.currentBoard.numResources == old(p.currentBoard.numResources)[p.playerNum - 1 := old(p.currentBoard.numResources[p.playerNum - 1]) - n]
  {
    var board := p.currentBoard;
    board.numResources := board.numResources[p.playerNum - 1 := board.numResources[p.playerNum - 1] - n];
  }

  /**
   * `discard`: `int(total / 2)` passes of `getRandomResource`, each giving up
   * the drawn resource, and the board's count of the player's resources
   * lowered by that number once at the end.
   */
  method Discard(p: Player, src: Source) returns (src': Source)
    requires p.Valid()
    modifies p`resources, p.currentBoard`numResources
    ensures p.Valid()
    ensures var n := HalfTowardZero(old(Total(p.resources)));
      && (p.resources, src') == Discarded(old(p.resources), src, Passes(n))
      && p.currentBoard.numResources ==
           old(p.currentBoard.numResources)[p.playerNum - 1 := old(p.currentBoard.numResources[p.playerNum - 1]) - n]
  {
    ghost var start := p.resources;
    var total := p.GetTotalResources();
    var numDiscardResources := HalfTowardZero(total);
    src' := src;
    var i := 0;
    while i < numDiscardResources
      invariant 0 <= i <= Passes(numDiscardResources)
      invariant p.Valid() && p.resources == Discarded(start, src, i).0 && src' == Discarded(start, src, i).1
      invariant p.currentBoard.numResources == old(p.currentBoard.numResources)
    {
      src' := DiscardPass(p, src');
      i := i + 1;
    }
    assert i == Passes(numDiscardResources);
    ghost var discarded := p.resources;
    LowerCount(p, numDiscardResources);
    assert p.resources == discarded;
  }

  /** `discard` on a hand gives up half of it, rounded down, and leaves a hand. */
  lemma DiscardHalf(res: seq<int>, src: Source)
    requires Hand(res)
    ensures var r := Discarded(res, src, Passes(HalfTowardZero(Total(res))));
      Hand(r.0) && Total(r.0) == Total(res) - Total(res) / 2
  {
    TotalOfHand(res);
    DiscardedHand(res, src, Passes(HalfTowardZero(Total(res))));
  }

  // ---------------------------------------------------------------------
  // The player to rob (getPlayerToRob)
  // ---------------------------------------------------------------------

  /** Some player other than `me` has a resource by the board's count (`cannotRob` becomes 0). */
  ghost predicate SomeoneHolds(numResources: seq<int>, me: int)
  {
    exists i :: 0 <= i < |numResources| && i != me - 1 && numResources[i] > 0
  }

  /** Player index `i` may be robbed by `me`: another player, holding a resource whenever anyone else does. */
  ghost predicate Robbable(numResources: seq<int>, me: int, i: int)
    requires 0 <= i < |numResources|
  {
    i != me - 1 && (SomeoneHolds(numResources, me) ==> numResources[i] > 0)
  }

  /** The board score of player index `i` plus the jitter of the `i`-th draw. */
  function RobScore(scores: seq<int>, src: Source, i: nat): real
    requires i < |scores|
  {
    scores[i] as real + Jitter(src, i)
  }

  /**
   * The pick of `getPlayerToRob` for `me`, from the board's counts
   * `numResources` and scores `scores` and the draws `src`: the first
   * robbable player whose score plus jitter is highest, and above 0,
   * numbered from 1; -1 when no robbable player scores above 0.
   */
  ghost predicate RobChoice(numResources: seq<int>, scores: seq<int>, me: int, src: Source, playerToRob: int)
  {
    RobChoiceAfter(numResources, scores, me, src, playerToRob, 2)
  }

  /** `RobChoice`, reached only after `delay` unfoldings. */
  ghost predicate RobChoiceAfter(numResources: seq<int>, scores: seq<int>, me: int, src: Source, playerToRob: int, delay: nat)
    decreases delay
  {
    if delay > 0 then RobChoiceAfter(numResources, scores, me, src, playerToRob, delay - 1)
    else
      && |numResources| == |scores|
      && -1 <= playerToRob <= |scores| && playerToRob != 0 && playerToRob != me
      && (playerToRob == -1 <==>
            forall i :: 0 <= i < |scores| && Robbable(numResources, me, i) ==> RobScore(scores, src, i) <= 0.0)
      && (playerToRob != -1 ==>
            var c := playerToRob - 1;
            && Robbable(numResources, me, c) && RobScore(scores, src, c) > 0.0
            && forall i :: 0 <= i < |scores| && Robbable(numResources, me, i) ==>
                 && RobScore(scores, src, i) <= RobScore(scores, src, c)
                 && (i < c ==> RobScore(scores, src, i) < RobScore(scores, src, c)))
  }

  /** What `RobChoice` says, spelt out. */
  lemma RobChoiceDefinition(numResources: seq<int>, scores: seq<int>, me: int, src: Source, playerToRob: int)
    ensures RobChoice(numResources, scores, me, src, playerToRob) <==>
      && |numResources| == |scores|
      && -1 <= playerToRob <= |scores| && playerToRob != 0 && playerToRob != me
      && (playerToRob == -1 <==>
            forall i :: 0 <= i < |scores| && Robbable(numResources, me, i) ==> RobScore(scores, src, i) <= 0.0)
      && (playerToRob != -1 ==>
            var c := playerToRob - 1;
            && Robbable(numResources, me, c) && RobScore(scores, src, c) > 0.0
            && forall i :: 0 <= i < |scores| && Robbable(numResources, me, i) ==>
                 && RobScore(scores, src, i) <= RobScore(scores, src, c)
                 && (i < c ==> RobScore(scores, src, i) < RobScore(scores, src, c)))
  {
    assert RobChoiceAfter(numResources, scores, me, src, playerToRob, 2) == RobChoiceAfter(numResources, scores, me, src, playerToRob, 0);
  }

  /** `getPlayerToRob`: one jitter is drawn per player, and `RobChoice` is the player chosen. */
  method GetPlayerToRob(p: Player, src: Source) returns (playerToRob: int, src': Source)
    requires p.Valid()
    ensures src' == Source(src.draws, src.used + |p.currentBoard.playerScores|)
    ensures RobChoice(p.currentBoard.numResources, p.currentBoard.playerScores, p.playerNum, src, playerToRob)
  {
    var board := p.currentBoard;
    var me := p.playerNum;
    var cannotRob := 1;
    var i := 0;
    while i < |board.numResources|
      invariant 0 <= i <= |board.numResources|
      invariant cannotRob == (if exists j :: 0 <= j < i && j != me - 1 && board.numResources[j] > 0 then 0 else 1)
    {
      if i != me - 1 && board.numResources[i] > 0 {
        cannotRob := 0;
      }
      i := i + 1;
    }
    assert cannotRob == 0 <==> SomeoneHolds(board.numResources, me);
    var maxPoints := 0.0;
    playerToRob := -1;
    src' := src;
    i := 0;
    while i < |board.playerScores|
      invariant 0 <= i <= |board.playerScores|
      invariant src' == Source(src.draws, src.used + i)
      invariant -1 <= playerToRob <= i && playerToRob != 0 && playerToRob != me
      invariant playerToRob == -1 ==>
        maxPoints == 0.0 && forall j :: 0 <= j < i && Robbable(board.numResources, me, j) ==> RobScore(board.playerScores, src, j) <= 0.0
      invariant playerToRob != -1 ==>
        && Robbable(board.numResources, me, playerToRob - 1)
        && maxPoints == RobScore(board.playerScores, src, playerToRob - 1) > 0.0
        && forall j :: 0 <= j < i && Robbable(board.numResources, me, j) ==>
             RobScore(board.playerScores, src, j) <= maxPoints && (j < playerToRob - 1 ==> RobScore(board.playerScores, src, j) < maxPoints)
    {
      var drawn := Below(src', 20);
      src' := drawn.1;
      var random := drawn.0 as real / 10.0;
      assert random == Jitter(src, i);
      if ((cannotRob == 0 && board.numResources[i] > 0) || cannotRob == 1)
         && i != me - 1 && board.playerScores[i] as real + random > maxPoints
      {
        maxPoints := board.playerScores[i] as real + random;
        playerToRob := i + 1;
      }
      i := i + 1;
    }
    RobChoiceDefinition(board.numResources, board.playerScores, me, src, playerToRob);
  }

  /**
   * With two or more players and every other player's board score above 0
   * (as after the initial placement), some robbable player scores above 0,
   * so `getPlayerToRob` does not answer -1.
   */
  lemma SomeoneToRob(numResources: seq<int>, scores: seq<int>, me: int, src: Source)
    requires |numResources| == |scores| >= 2 && 1 <= me <= |scores|
    requires forall j :: 0 <= j < |scores| && j != me - 1 ==> scores[j] > 0
    ensures exists i :: 0 <= i < |scores| && Robbable(numResources, me, i) && RobScore(scores, src, i) > 0.0
  {
    var i: int;
    if SomeoneHolds(numResources, me) {
      i :| 0 <= i < |numResources| && i != me - 1 && numResources[i] > 0;
    } else {
      i := if me == 1 then 1 else 0;
    }
    assert Robbable(numResources, me, i) && RobScore(scores, src, i) > 0.0;
  }

  // ---------------------------------------------------------------------
  // The tile to block (getPointToBlock)
  // ---------------------------------------------------------------------

  /** A tile as the blocking choice uses it: its location and its pip value. */
  datatype Spot = Spot(location: Point, value: int)

  /** `Hexagon.__eq__` on spots: the locations are equal points. */
  predicate SameSpot(a: Spot, b: Spot)
  {
    PointEq(a.location, b.location)
  }

  /** The spots of tiles that all have a location, in order. */
  function SpotsOf(hs: seq<Hexagon>): (ss: seq<Spot>)
    reads set i | 0 <= i < |hs| :: hs[i]
    requires forall i :: 0 <= i < |hs| ==> hs[i].location.Some?
    ensures |ss| == |hs|
  {
    if |hs| == 0 then []
    else SpotsOf(hs[..|hs| - 1]) + [Spot(hs[|hs| - 1].location.value, hs[|hs| - 1].value)]
  }

  /** The tiles `getAdjacentHexes` reports around a location, as spots. */
  function Around(board: Board, location: Point): seq<Spot>
    reads board`tiles, board`robberLocation, board.tiles
    requires board.TilesValid()
  {
    AroundAfter(board, location, 3)
  }

  /**
   * `Around`'s spots, reached only after `delay` unfoldings, which keeps the
   * tile probes out of the proofs that only collect spots.
   */
  function AroundAfter(board: Board, location: Point, delay: nat): seq<Spot>
    reads board`tiles, board`robberLocation, board.tiles
    requires board.TilesValid()
    decreases delay
  {
    if delay == 0 then
      board.AdjacentHexesUpToSound(location, 6);
      SpotsOf(board.AdjacentHexes(location))
    else AroundAfter(board, location, delay - 1)
  }

  /** `getAdjacentHexes` around one building, as spots. */
  method SpotsAround(board: Board, location: Point) returns (spots: seq<Spot>)
    requires board.TilesValid()
    ensures spots == Around(board, location)
  {
    var neighbors := board.GetAdjacentHexes(location);
    board.AdjacentHexesUpToSound(location, 6);
    spots := SpotsOf(neighbors);
    assert AroundAfter(board, location, 3) == AroundAfter(board, location, 2);
    assert AroundAfter(board, location, 1) == AroundAfter(board, location, 0);
  }

  /** The spots around each building of `bs` that belongs to `who`, in order. */
  function AroundOwned(board: Board, bs: seq<Building>, who: int): seq<Spot>
    reads board`tiles, board`robberLocation, board.tiles
    requires board.TilesValid()
  {
    if |bs| == 0 then []
    else
      var b := bs[|bs| - 1];
      AroundOwned(board, bs[..|bs| - 1], who) + (if b.playerNum == who then Around(board, b.location) else [])
  }

  /** `AroundOwned` over every list, in order. */
  function AroundLists(board: Board, lists: seq<seq<Building>>, who: int): seq<Spot>
    reads board`tiles, board`robberLocation, board.tiles
    requires board.TilesValid()
  {
    if |lists| == 0 then []
    else AroundLists(board, lists[..|lists| - 1], who) + AroundOwned(board, lists[|lists| - 1], who)
  }

  /** `possibleBlockLocations` before duplicates are removed: around the settlements of `who`, then around its cities. */
  function BlockCandidates(board: Board, who: int): seq<Spot>
    reads board, board.tiles
    requires board.TilesValid()
  {
    CandidatesAfter(board, who, 2)
  }

  /**
   * `BlockCandidates`, reached only after `delay` unfoldings, which keeps the
   * spots out of the proofs that only pass the candidates on.
   */
  function CandidatesAfter(board: Board, who: int, delay: nat): seq<Spot>
    reads board, board.tiles
    requires board.TilesValid()
    decreases delay
  {
    if delay == 0 then AroundLists(board, board.settlements, who) + AroundLists(board, board.cities, who)
    else CandidatesAfter(board, who, delay - 1)
  }

  /** No building belongs to a player numbered -1, so there is nothing around its buildings. */
  lemma {:induction false} NothingAroundNobody(board: Board, lists: seq<seq<Building>>)
    requires board.TilesValid() && OwnedBuildings(lists)
    ensures AroundLists(board, lists, -1) == []
  {
    if |lists| > 0 {
      var init := lists[..|lists| - 1];
      assert OwnedBuildings(init) by {
        forall i, k | 0 <= i < |init| && 0 <= k < |init[i]|
          ensures init[i][k].playerNum == i + 1
        {
          assert init[i] == lists[i];
        }
      }
      NothingAroundNobody(board, init);
      NothingOwnedByNobody(board, lists[|lists| - 1], |lists|);
    }
  }

  /** A list whose buildings all belong to player `owner` (at least 1) has nothing for -1. */
  lemma {:induction false} NothingOwnedByNobody(board: Board, bs: seq<Building>, owner: int)
    requires board.TilesValid() && owner >= 1
    requires forall k :: 0 <= k < |bs| ==> bs[k].playerNum == owner
    ensures AroundOwned(board, bs, -1) == []
  {
    if |bs| > 0 {
      NothingOwnedByNobody(board, bs[..|bs| - 1], owner);
    }
  }

  /**
   * Nobody owns a building as player -1, so when `getPlayerToRob` finds no
   * one to rob there is no tile to block and `getPointToBlock` is left to
   * draw from an empty list.
   */
  lemma NobodyToBlock(board: Board, me: int, order: seq<int>)
    requires board.Valid() && 1 <= me <= |board.playerScores|
    ensures BlockSpots(board, -1, order) == []
    ensures BestSpots(board, me, BlockSpots(board, -1, order)) == []
  {
    NothingAroundNobody(board, board.settlements);
    NothingAroundNobody(board, board.cities);
    assert CandidatesAfter(board, -1, 2) == CandidatesAfter(board, -1, 1) == CandidatesAfter(board, -1, 0);
    assert Dedup(BlockCandidates(board, -1), SameSpot) == [];
  }

  /**
   * `[*set(...)]`: the candidates without duplicates (the set keeps the first
   * of equal tiles) in the set's iteration order: position `i` holds kept
   * tile `order[i]`.
   */
  function Arranged(xs: seq<Spot>, order: seq<int>): (r: seq<Spot>)
    requires IsPermutation(order, |xs|)
    ensures |r| == |xs|
    ensures forall i :: 0 <= i < |xs| ==> r[i] == xs[order[i]]
  {
    seq(|xs|, i requires 0 <= i < |xs| && 0 <= order[i] < |xs| => xs[order[i]])
  }

  /**
   * What one intersection adds to the value of blocking a tile for player
   * `me`: a settlement adds `me`'s own board score unless it is `me`'s (then
   * -20), a city twice that score unless it is `me`'s (then -40).
   */
  function Contribution(board: Board, me: int, q: Point): int
    reads board
    requires 1 <= me <= |board.playerScores|
  {
    ContributionAfter(board, me, q, 3)
  }

  /** `Contribution`'s sum, reached only after `delay` unfoldings, which keeps the scans out of the proofs that only add contributions up. */
  function ContributionAfter(board: Board, me: int, q: Point, delay: nat): int
    reads board
    requires 1 <= me <= |board.playerScores|
    decreases delay
  {
    if delay == 0 then
      var own := board.playerScores[me - 1];
      (if board.SettlementIndex(q, -1) != -1 then (if board.SettlementIndex(q, me) == -1 then own else -20) else 0)
      + (if board.CityIndex(q, -1) != -1 then (if board.CityIndex(q, me) == -1 then 2 * own else -40) else 0)
    else ContributionAfter(board, me, q, delay - 1)
  }

  lemma ContributionDefinition(board: Board, me: int, q: Point)
    requires 1 <= me <= |board.playerScores|
    ensures Contribution(board, me, q) == ContributionAfter(board, me, q, 0)
  {
    assert ContributionAfter(board, me, q, 3) == ContributionAfter(board, me, q, 2);
    assert ContributionAfter(board, me, q, 1) == ContributionAfter(board, me, q, 0);
  }

  /** The contributions of the points `qs`, accumulated from the left. */
  function ContributionSum(board: Board, me: int, qs: seq<Point>): int
    reads board
    requires 1 <= me <= |board.playerScores|
  {
    if |qs| == 0 then 0 else ContributionSum(board, me, qs[..|qs| - 1]) + Contribution(board, me, qs[|qs| - 1])
  }

  /** The value of blocking a spot: the contributions of its adjacent intersections, times its pip value. */
  function BlockValue(board: Board, me: int, s: Spot): int
    reads board
    requires 1 <= me <= |board.playerScores|
  {
    ContributionSum(board, me, board.AdjacentIntersections(s.location)) * s.value
  }

  /** `BlockValue` of every spot, in order. */
  function BlockValues(board: Board, me: int, spots: seq<Spot>): (vs: seq<int>)
    reads board
    requires 1 <= me <= |board.playerScores|
    ensures |vs| == |spots|
    ensures forall i :: 0 <= i < |spots| ==> vs[i] == BlockValue(board, me, spots[i])
  {
    if |spots| == 0 then [] else BlockValues(board, me, spots[..|spots| - 1]) + [BlockValue(board, me, spots[|spots| - 1])]
  }

  /**
   * On a valid board with no city at `q`, a settlement there of the deciding
   * player counts -20, one of any other player counts the deciding player's
   * own score (not the robbed player's), and no settlement counts 0.
   */
  lemma SettlementContribution(board: Board, me: int, q: Point)
    requires board.Valid() && 1 <= me <= board.numPlayers
    requires Unsettled(board.cities, q)
    ensures Contribution(board, me, q) ==
      if HeldIn(board.settlements, me - 1, q) then -20
      else if Unsettled(board.settlements, q) then 0
      else board.playerScores[me - 1]
  {
    ContributionDefinition(board, me, q);
    HeldIff(board.settlements, q, me);
    UnsettledIff(board.settlements, q);
    UnsettledIff(board.cities, q);
  }

  /** `maxValue` after the scan: the largest value, but never below the starting -100. */
  function Best(vs: seq<int>): int
  {
    if |vs| == 0 then -100
    else
      var m := Best(vs[..|vs| - 1]);
      if vs[|vs| - 1] > m then vs[|vs| - 1] else m
  }

  /** The positions of `vs` that hold `m`, in increasing order. */
  function Ties(vs: seq<int>, m: int): (t: seq<int>)
    ensures forall k :: 0 <= k < |t| ==> 0 <= t[k] < |vs|
  {
    if |vs| == 0 then [] else Ties(vs[..|vs| - 1], m) + (if vs[|vs| - 1] == m then [|vs| - 1] else [])
  }

  /** `Best` is at least -100 and every value, and it is -100 or one of the values. */
  lemma {:induction false} BestBounds(vs: seq<int>)
    ensures Best(vs) >= -100
    ensures forall i :: 0 <= i < |vs| ==> vs[i] <= Best(vs)
    ensures Best(vs) == -100 || exists i :: 0 <= i < |vs| && vs[i] == Best(vs)
  {
    if |vs| > 0 {
      var init := vs[..|vs| - 1];
      BestBounds(init);
      assert forall i :: 0 <= i < |init| ==> vs[i] == init[i];
      if Best(init) != -100 && Best(vs) == Best(init) {
        var i :| 0 <= i < |init| && init[i] == Best(init);
        assert vs[i] == Best(vs);
      }
    }
  }

  /** `Ties` lists exactly the positions holding `m`, each once, in increasing order. */
  lemma {:induction false} TiesExactly(vs: seq<int>, m: int)
    ensures forall k :: 0 <= k < |Ties(vs, m)| ==> vs[Ties(vs, m)[k]] == m
    ensures forall i :: 0 <= i < |vs| && vs[i] == m ==> i in Ties(vs, m)
    ensures forall k, l :: 0 <= k < l < |Ties(vs, m)| ==> Ties(vs, m)[k] < Ties(vs, m)[l]
  {
    if |vs| > 0 {
      var init := vs[..|vs| - 1];
      TiesExactly(init, m);
      assert forall i :: 0 <= i < |init| ==> vs[i] == init[i];
      var t := Ties(vs, m);
      assert forall k :: 0 <= k < |Ties(init, m)| ==> t[k] == Ties(init, m)[k];
    }
  }

  /**
   * The scan of `getPointToBlock` keeps every best spot: its list holds
   * exactly the positions whose value is the largest, and it is empty
   * exactly when every value is below -100 (then `randrange(0)` raises).
   */
  lemma TiesAreTheBest(vs: seq<int>)
    ensures var t := Ties(vs, Best(vs));
      && (forall k :: 0 <= k < |t| ==> forall i :: 0 <= i < |vs| ==> vs[i] <= vs[t[k]])
      && (forall i :: 0 <= i < |vs| && (forall j :: 0 <= j < |vs| ==> vs[j] <= vs[i]) && vs[i] >= -100 ==> i in t)
      && (t == [] <==> forall i :: 0 <= i < |vs| ==> vs[i] < -100)
  {
    BestBounds(vs);
    TiesExactly(vs, Best(vs));
  }

  /** No position holds a value that every value stays below. */
  lemma {:induction false} TiesNone(vs: seq<int>, m: int)
    requires forall i :: 0 <= i < |vs| ==> vs[i] < m
    ensures Ties(vs, m) == []
  {
    if |vs| > 0 {
      TiesNone(vs[..|vs| - 1], m);
    }
  }

  /** One step of the scan: the new maximum, and the new list of its positions. */
  lemma ScanStep(vs: seq<int>, i: nat)
    requires i < |vs|
    ensures var m, v := Best(vs[..i]), vs[i];
      && Best(vs[..i + 1]) == (if v > m then v else m)
      && Ties(vs[..i + 1], Best(vs[..i + 1])) ==
           if v > m then [i] else if v == m then Ties(vs[..i], m) + [i] else Ties(vs[..i], m)
  {
    var prefix := vs[..i];
    assert vs[..i + 1][..i] == prefix;
    if vs[i] > Best(prefix) {
      BestBounds(prefix);
      TiesNone(prefix, vs[i]);
    }
  }

  /** The spots around the buildings of `own` that belong to `who`, building by building. */
  method CollectOwned(board: Board, own: seq<Building>, who: int) returns (spots: seq<Spot>)
    requires board.TilesValid()
    ensures spots == AroundOwned(board, own, who)
  {
    spots := [];
    var j := 0;
    while j < |own|
      invariant 0 <= j <= |own|
      invariant spots == AroundOwned(board, own[..j], who)
    {
      assert own[..j + 1][..j] == own[..j];
      if own[j].playerNum == who {
        var around := SpotsAround(board, own[j].location);
        spots := spots + around;
      }
      j := j + 1;
    }
    assert own[..j] == own;
  }

  /** `getPointToBlock`'s first loops: the spots around the buildings of `who`, list by list. */
  method CollectAround(board: Board, lists: seq<seq<Building>>, who: int) returns (spots: seq<Spot>)
    requires board.TilesValid()
    ensures spots == AroundLists(board, lists, who)
  {
    spots := [];
    var i := 0;
    while i < |lists|
      invariant 0 <= i <= |lists|
      invariant spots == AroundLists(board, lists[..i], who)
    {
      assert lists[..i + 1][..i] == lists[..i];
      var more := CollectOwned(board, lists[i], who);
      spots := spots + more;
      i := i + 1;
    }
    assert lists[..i] == lists;
  }

  /** The body of the innermost loop of `getPointToBlock`: what one intersection adds. */
  method ContributionAt(board: Board, me: int, q: Point) returns (c: int)
    requires 1 <= me <= |board.playerScores|
    ensures c == Contribution(board, me, q)
  {
    ContributionDefinition(board, me, q);
    var mySettlementIndex := board.FindSettlementIndex(q, me);
    var myCityIndex := board.FindCityIndex(q, me);
    var anySettlementIndex := board.FindSettlementIndex(q, -1);
    var anyCityIndex := board.FindCityIndex(q, -1);
    c := 0;
    if anySettlementIndex != -1 {
      if mySettlementIndex == -1 {
        c := c + board.playerScores[me - 1];
      } else {
        c := c - 20;
      }
    }
    if anyCityIndex != -1 {
      if myCityIndex == -1 {
        c := c + board.playerScores[me - 1] * 2;
      } else {
        c := c - 40;
      }
    }
  }

  /** The inner loop of `getPointToBlock`'s scan: the value of blocking one spot. */
  method BlockValueAt(board: Board, me: int, s: Spot) returns (hexValue: int)
    requires 1 <= me <= |board.playerScores|
    ensures hexValue == BlockValue(board, me, s)
  {
    hexValue := 0;
    var checkPoints := board.GetAdjacentIntersections(s.location);
    var j := 0;
    while j < |checkPoints|
      invariant 0 <= j <= |checkPoints|
      invariant hexValue == ContributionSum(board, me, checkPoints[..j])
    {
      assert checkPoints[..j + 1][..j] == checkPoints[..j];
      var contribution := ContributionAt(board, me, checkPoints[j]);
      hexValue := hexValue + contribution;
      j := j + 1;
    }
    assert checkPoints[..j] == checkPoints;
    hexValue := hexValue * s.value;
  }

  /**
   * The spots `getPointToBlock` values, in the order it scans them: the
   * candidates without duplicates, arranged by `order` when it is a
   * permutation of their positions (`GetPointToBlock` requires that it is).
   */
  ghost function BlockSpots(board: Board, who: int, order: seq<int>): seq<Spot>
    reads board, board.tiles
    requires board.TilesValid()
  {
    var kept := Dedup(BlockCandidates(board, who), SameSpot);
    if IsPermutation(order, |kept|) then Arranged(kept, order) else kept
  }

  /** `getPointToBlock`'s first loops and its `[*set(...)]`: the spots around the buildings of `who`, each once, in the set's order. */
  method CollectBlockSpots(board: Board, who: int, order: seq<int>) returns (spots: seq<Spot>)
    requires board.TilesValid()
    requires IsPermutation(order, |Dedup(BlockCandidates(board, who), SameSpot)|)
    ensures spots == BlockSpots(board, who, order)
  {
    var possibleBlockLocations := CollectAround(board, board.settlements, who);
    var aroundCities := CollectAround(board, board.cities, who);
    possibleBlockLocations := possibleBlockLocations + aroundCities;
    assert CandidatesAfter(board, who, 2) == CandidatesAfter(board, who, 1) == CandidatesAfter(board, who, 0);
    spots := Arranged(Dedup(possibleBlockLocations, SameSpot), order);
  }

  /** The positions of the best spots for `me` to block: those whose value is the largest, if it reaches -100. */
  function BestSpots(board: Board, me: int, spots: seq<Spot>): (t: seq<int>)
    reads board
    requires 1 <= me <= |board.playerScores|
    ensures forall k :: 0 <= k < |t| ==> 0 <= t[k] < |spots|
  {
    var vs := BlockValues(board, me, spots);
    Ties(vs, Best(vs))
  }

  /** The scan of `getPointToBlock`: the value of each spot, keeping the positions of the largest. */
  method ScanSpots(board: Board, me: int, spots: seq<Spot>) returns (maxIndices: seq<int>)
    requires 1 <= me <= |board.playerScores|
    ensures maxIndices == BestSpots(board, me, spots)
  {
    ghost var vs := BlockValues(board, me, spots);
    var maxValue := -100;
    maxIndices := [];
    var i := 0;
    while i < |spots|
      invariant 0 <= i <= |spots|
      invariant maxValue == Best(vs[..i]) && maxIndices == Ties(vs[..i], maxValue)
    {
      var hexValue := BlockValueAt(board, me, spots[i]);
      ScanStep(vs, i);
      if hexValue > maxValue {
        maxValue := hexValue;
        maxIndices := [i];
      } else if hexValue == maxValue {
        maxIndices := maxIndices + [i];
      }
      i := i + 1;
    }
    assert vs[..i] == vs;
  }

  /**
   * The location `getPointToBlock` gives `me` against player `who` on `b`:
   * one of the best spots in the order `order`, drawn from `src`, the draws
   * going on from `src'`; none when no spot reaches -100.
   */
  ghost predicate BlockChoice(b: Board, me: int, who: int, order: seq<int>, src: Source, loc: Option<Point>, src': Source)
    reads b, b.tiles
  {
    BlockChoiceAfter(b, me, who, order, src, loc, src', 2)
  }

  /** `BlockChoice`, reached only after `delay` unfoldings. */
  ghost predicate BlockChoiceAfter(b: Board, me: int, who: int, order: seq<int>, src: Source, loc: Option<Point>, src': Source, delay: nat)
    reads b, b.tiles
    decreases delay
  {
    if delay > 0 then BlockChoiceAfter(b, me, who, order, src, loc, src', delay - 1)
    else
      && b.TilesValid() && 1 <= me <= |b.playerScores|
      && var spots := BlockSpots(b, who, order);
         var ties := BestSpots(b, me, spots);
         && (loc.None? <==> ties == [])
         && (loc.None? ==> src' == src)
         && (loc.Some? ==> loc.value == spots[ties[Below(src, |ties|).0]].location && src' == Below(src, |ties|).1)
  }

  /** What `BlockChoice` says, spelt out. */
  lemma BlockChoiceDefinition(b: Board, me: int, who: int, order: seq<int>, src: Source, loc: Option<Point>, src': Source)
    ensures BlockChoice(b, me, who, order, src, loc, src') <==>
      && b.TilesValid() && 1 <= me <= |b.playerScores|
      && var spots := BlockSpots(b, who, order);
         var ties := BestSpots(b, me, spots);
         && (loc.None? <==> ties == [])
         && (loc.None? ==> src' == src)
         && (loc.Some? ==> loc.value == spots[ties[Below(src, |ties|).0]].location && src' == Below(src, |ties|).1)
  {
    assert BlockChoiceAfter(b, me, who, order, src, loc, src', 2) == BlockChoiceAfter(b, me, who, order, src, loc, src', 0);
  }

  /**
   * `getPointToBlock`: the tiles around the robbed player's settlements and
   * cities, without duplicates and in the set's order, are valued; one of
   * the best, if any reaches -100, is drawn with `randrange` and its location
   * returned.  When none does, `randrange(0)` raises ValueError: `None`.
   */
  method GetPointToBlock(p: Player, playerToRob: int, order: seq<int>, src: Source) returns (loc: Option<Point>, src': Source)
    requires p.Valid()
    requires IsPermutation(order, |Dedup(BlockCandidates(p.currentBoard, playerToRob), SameSpot)|)
    ensures BlockChoice(p.currentBoard, p.playerNum, playerToRob, order, src, loc, src')
    ensures src'.draws == src.draws
  {
    var board := p.currentBoard;
    var spots := CollectBlockSpots(board, playerToRob, order);
    var maxIndices := ScanSpots(board, p.playerNum, spots);
    if |maxIndices| == 0 {
      loc, src' := None, src;
    } else {
      var drawn := Below(src, |maxIndices|);
      loc, src' := Some(spots[maxIndices[drawn.0]].location), drawn.1;
    }
    BlockChosen(board, p.playerNum, playerToRob, order, spots, maxIndices, src, loc, src');
  }

  /** The spots and their best indices, and the draw among them, make up `BlockChoice`. */
  lemma BlockChosen(b: Board, me: int, who: int, order: seq<int>, spots: seq<Spot>, ties: seq<int>,
                    src: Source, loc: Option<Point>, src': Source)
    requires b.TilesValid() && 1 <= me <= |b.playerScores|
    requires IsPermutation(order, |Dedup(BlockCandidates(b, who), SameSpot)|)
    requires spots == BlockSpots(b, who, order) && ties == BestSpots(b, me, spots)
    requires |ties| == 0 ==> loc == None && src' == src
    requires |ties| > 0 ==> loc == Some(spots[ties[Below(src, |ties|).0]].location) && src' == Below(src, |ties|).1
    ensures BlockChoice(b, me, who, order, src, loc, src')
  {
    BlockChoiceDefinition(b, me, who, order, src, loc, src');
  }
}
