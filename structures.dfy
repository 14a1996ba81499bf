/**
 * The records the board stores (catan/Settlement.py, catan/Road.py,
 * catan/Port.py and the City record the board imports) and the list scans
 * the board performs over them.
 */
module Structures {
  import opened Geometry

  /** A settlement or a city: both records hold a location, a colour and an owner. */
  datatype Building = Building(location: Point, color: string, playerNum: int)

  datatype Road = Road(location1: Point, location2: Point, color: string, playerNum: int)

  /** A port: its kind ("general" or a resource name) and the two intersections it serves. */
  datatype Port = Port(portType: string, portLocations: DoublePoint)

  /** `getPortType`'s test: `p` equals one of the port's two points. */
  predicate OnPort(p: Point, port: Port)
  {
    PointEq(p, port.portLocations.p1) || PointEq(p, port.portLocations.p2)
  }

  function AtPort(p: Point): Port -> bool
  {
    port => OnPort(p, port)
  }

  /** `Settlement`/`City` lookup test of `find*Index`: the location equals `p` and, unless -1, the owner is `playerNum`. */
  predicate BuildingMatches(b: Building, p: Point, playerNum: int)
  {
    PointEq(p, b.location) && (playerNum == -1 || b.playerNum == playerNum)
  }

  function AtPoint(p: Point, playerNum: int): Building -> bool
  {
    b => BuildingMatches(b, p, playerNum)
  }

  /**
   * The road lookup test of `findRoadIndex` as written: `and` binds tighter than
   * `or`, so the owner filter applies to the reversed match only.
   */
  predicate RoadMatches(r: Road, p1: Point, p2: Point, playerNum: int)
  {
    (PointEq(p1, r.location1) && PointEq(p2, r.location2))
      || (PointEq(p1, r.location2) && PointEq(p2, r.location1) && (playerNum == -1 || r.playerNum == playerNum))
  }

  function RoadAt(p1: Point, p2: Point, playerNum: int): Road -> bool
  {
    r => RoadMatches(r, p1, p2, playerNum)
  }

  /** A road matched in its stored orientation is found whoever owns it, filter or not. */
  lemma RoadFilterIgnoredOnForwardMatch()
    ensures RoadMatches(Road(Point(0.0, 0.0), Point(10.0, 0.0), "red", 1), Point(0.0, 0.0), Point(10.0, 0.0), 2)
    ensures !RoadMatches(Road(Point(10.0, 0.0), Point(0.0, 0.0), "red", 1), Point(0.0, 0.0), Point(10.0, 0.0), 2)
  {
    PointEqIff(Point(0.0, 0.0), Point(0.0, 0.0));
    PointEqIff(Point(10.0, 0.0), Point(10.0, 0.0));
    PointEqIff(Point(0.0, 0.0), Point(10.0, 0.0));
  }

  /** Index of the first element of `l` satisfying `P`, or -1 when there is none. */
  function FirstIndex<T>(l: seq<T>, P: T -> bool): (j: int)
    ensures -1 <= j < |l|
    ensures j == -1 ==> forall k :: 0 <= k < |l| ==> !P(l[k])
    ensures j != -1 ==> P(l[j]) && forall k :: 0 <= k < j ==> !P(l[k])
  {
    if |l| == 0 then -1
    else if P(l[0]) then 0
    else
      var r := FirstIndex(l[1..], P);
      assert forall k :: 1 <= k < |l| ==> l[k] == l[1..][k - 1];
      if r == -1 then -1 else r + 1
  }

  /**
   * The nested scan of the board's `find*Index`: the position, within the first
   * list that has a match, of its first match; -1 when no list has one.  Only
   * the inner position is returned, not the list it was found in.
   */
  function FindInLists<T>(lists: seq<seq<T>>, P: T -> bool): (j: int)
    ensures j == -1 <==> forall i, k :: 0 <= i < |lists| && 0 <= k < |lists[i]| ==> !P(lists[i][k])
    ensures j != -1 ==> exists i :: 0 <= i < |lists| && 0 <= j < |lists[i]| && P(lists[i][j])
  {
    if |lists| == 0 then -1
    else
      var j := FirstIndex(lists[0], P);
      if j != -1 then j
      else
        var r := FindInLists(lists[1..], P);
        assert forall i :: 1 <= i < |lists| ==> lists[i] == lists[1..][i - 1];
        r
  }

  /** When no list before `i` has a match and list `i` has one, the scan stops in list `i`. */
  lemma {:induction false} FindInListsAt<T>(lists: seq<seq<T>>, P: T -> bool, i: nat)
    requires i < |lists|
    requires forall a, k :: 0 <= a < i && 0 <= k < |lists[a]| ==> !P(lists[a][k])
    requires FirstIndex(lists[i], P) != -1
    ensures FindInLists(lists, P) == FirstIndex(lists[i], P)
  {
    if i > 0 {
      assert forall k :: 0 <= k < |lists[0]| ==> !P(lists[0][k]);
      forall a, k | 0 <= a < i - 1 && 0 <= k < |lists[1..][a]|
        ensures !P(lists[1..][a][k])
      {
        assert lists[1..][a] == lists[a + 1];
      }
      assert lists[1..][i - 1] == lists[i];
      FindInListsAt(lists[1..], P, i - 1);
    }
  }

  /** The nested loops of `findSettlementIndex`, `findCityIndex` and `findRoadIndex`. */
  method ScanLists<T>(lists: seq<seq<T>>, P: T -> bool) returns (j: int)
    ensures j == FindInLists(lists, P)
  {
    var i := 0;
    while i < |lists|
      invariant 0 <= i <= |lists|
      invariant forall a, k :: 0 <= a < i && 0 <= k < |lists[a]| ==> !P(lists[a][k])
    {
      var k := 0;
      while k < |lists[i]|
        invariant 0 <= k <= |lists[i]|
        invariant forall b :: 0 <= b < k ==> !P(lists[i][b])
      {
        if P(lists[i][k]) {
          FindInListsAt(lists, P, i);
          return k;
        }
        k := k + 1;
      }
      i := i + 1;
    }
    return -1;
  }

  /**
   * When matches can only occur in list `target` (each player's list holds
   * only that player's pieces), the nested scan returns the first match there.
   */
  lemma {:induction false} FindInOwnList<T>(lists: seq<seq<T>>, P: T -> bool, target: nat)
    requires target < |lists|
    requires forall i, k :: 0 <= i < |lists| && 0 <= k < |lists[i]| && P(lists[i][k]) ==> i == target
    ensures FindInLists(lists, P) == FirstIndex(lists[target], P)
  {
    if target == 0 {
      if FirstIndex(lists[0], P) == -1 {
        assert forall i, k :: 0 <= i < |lists[1..]| && 0 <= k < |lists[1..][i]| ==> !P(lists[1..][i][k]) by {
          forall i, k | 0 <= i < |lists[1..]| && 0 <= k < |lists[1..][i]|
            ensures !P(lists[1..][i][k])
          {
            assert lists[1..][i] == lists[i + 1];
          }
        }
      }
    } else {
      assert forall k :: 0 <= k < |lists[0]| ==> !P(lists[0][k]);
      forall i, k | 0 <= i < |lists[1..]| && 0 <= k < |lists[1..][i]| && P(lists[1..][i][k])
        ensures i == target - 1
      {
        assert lists[1..][i] == lists[i + 1];
      }
      FindInOwnList(lists[1..], P, target - 1);
    }
  }

  /** The elements of `xs` satisfying `P`, in order. */
  function Filter<T>(xs: seq<T>, P: T -> bool): (r: seq<T>)
    ensures |r| <= |xs|
    ensures forall i :: 0 <= i < |r| ==> r[i] in xs && P(r[i])
    ensures forall i :: 0 <= i < |xs| && P(xs[i]) ==> xs[i] in r
  {
    if |xs| == 0 then []
    else
      var r := Filter(xs[..|xs| - 1], P);
      var x := xs[|xs| - 1];
      assert xs == xs[..|xs| - 1] + [x];
      if P(x) then r + [x] else r
  }

  /** Python's `x in l` for a list whose elements compare with `Eq`. */
  predicate ContainsEq<T>(l: seq<T>, x: T, Eq: (T, T) -> bool)
  {
    exists k :: 0 <= k < |l| && Eq(x, l[k])
  }

  /**
   * Deduplication that keeps the first element of each group of equal ones:
   * an element is appended unless it equals one already kept.
   */
  function Dedup<T>(xs: seq<T>, Eq: (T, T) -> bool): seq<T>
  {
    if |xs| == 0 then []
    else
      var d := Dedup(xs[..|xs| - 1], Eq);
      var x := xs[|xs| - 1];
      if ContainsEq(d, x, Eq) then d else d + [x]
  }

  /**
   * `Dedup` keeps only elements of its input, no kept element equals an
   * earlier kept one, and every input element is kept or equals a kept one.
   */
  lemma {:induction false} DedupSound<T>(xs: seq<T>, Eq: (T, T) -> bool)
    ensures |Dedup(xs, Eq)| <= |xs|
    ensures forall i :: 0 <= i < |Dedup(xs, Eq)| ==> Dedup(xs, Eq)[i] in xs
    ensures forall i, j :: 0 <= i < j < |Dedup(xs, Eq)| ==> !Eq(Dedup(xs, Eq)[j], Dedup(xs, Eq)[i])
    ensures forall i :: 0 <= i < |xs| ==> xs[i] in Dedup(xs, Eq) || ContainsEq(Dedup(xs, Eq), xs[i], Eq)
  {
    if |xs| > 0 {
      var init := xs[..|xs| - 1];
      DedupSound(init, Eq);
      var d := Dedup(init, Eq);
      var x := xs[|xs| - 1];
      assert xs == init + [x];
      if !ContainsEq(d, x, Eq) {
        var r := d + [x];
        assert forall k :: 0 <= k < |d| ==> !Eq(x, d[k]);
        forall i | 0 <= i < |xs| - 1 && ContainsEq(d, xs[i], Eq)
          ensures ContainsEq(r, xs[i], Eq)
        {
          var k :| 0 <= k < |d| && Eq(xs[i], d[k]);
          assert r[k] == d[k];
        }
      }
    }
  }

  /** The `not in` loop that removes duplicate road locations: `r == Dedup(xs, Eq)`. */
  method DedupLoop<T>(xs: seq<T>, Eq: (T, T) -> bool) returns (r: seq<T>)
    ensures r == Dedup(xs, Eq)
  {
    r := [];
    var i := 0;
    while i < |xs|
      invariant 0 <= i <= |xs|
      invariant r == Dedup(xs[..i], Eq)
    {
      assert xs[..i + 1][..i] == xs[..i];
      var found := false;
      var k := 0;
      while k < |r|
        invariant 0 <= k <= |r|
        invariant found <==> exists b :: 0 <= b < k && Eq(xs[i], r[b])
      {
        if Eq(xs[i], r[k]) {
          found := true;
        }
        k := k + 1;
      }
      if !found {
        r := r + [xs[i]];
      }
      i := i + 1;
    }
    assert xs[..|xs|] == xs;
  }
}
