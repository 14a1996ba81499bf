/**
 * Intersection coordinates (catan/Point.py) and unordered pairs of them
 * (catan/DoublePoint.py).  Coordinates are screen positions; two points are
 * the same intersection when both coordinate differences truncate to 0,
 * which is how the board merges the corners shared by neighbouring hexagons.
 */
module Geometry {

  /** Python's `int()` applied to a number: truncation toward zero. */
  function Trunc(r: real): (t: int)
    ensures 0.0 <= r ==> t as real <= r < t as real + 1.0
    ensures r < 0.0 ==> t as real - 1.0 < r <= t as real
  {
    if r >= 0.0 then r.Floor else -((-r).Floor)
  }

  datatype Point = Point(x: real, y: real)

  /** `Point.__eq__`: both coordinate differences truncate to 0. */
  predicate PointEq(p: Point, q: Point)
  {
    PointEqAfter(p, q, 3)
  }

  /** The test itself. */
  predicate TruncatedClose(p: Point, q: Point)
  {
    Trunc(p.x - q.x) == 0 && Trunc(p.y - q.y) == 0
  }

  /**
   * `TruncatedClose`, reached only after `delay` unfoldings: proofs about
   * the board then see the coordinate arithmetic only through `PointEqIff`.
   */
  predicate PointEqAfter(p: Point, q: Point, delay: nat)
    decreases delay
  {
    if delay == 0 then TruncatedClose(p, q) else PointEqAfter(p, q, delay - 1)
  }

  /** `Point.__ne__`: the negation of `Point.__eq__`. */
  predicate PointNe(p: Point, q: Point)
  {
    !PointEq(p, q)
  }

  /**
   * `Point.__hash__` hashes the string "tx,ty" of the truncated coordinates;
   * that string is determined by, and determines, the pair below.
   */
  function HashKey(p: Point): (int, int)
  {
    (Trunc(p.x), Trunc(p.y))
  }

  /** Truncation is 0 exactly on the open interval (-1, 1). */
  lemma TruncZeroIff(r: real)
    ensures Trunc(r) == 0 <==> -1.0 < r < 1.0
  {
  }

  /** Two points are equal iff both coordinate differences lie strictly between -1 and 1. */
  lemma PointEqIff(p: Point, q: Point)
    ensures PointEq(p, q) <==> -1.0 < p.x - q.x < 1.0 && -1.0 < p.y - q.y < 1.0
  {
    assert PointEqAfter(p, q, 3) == PointEqAfter(p, q, 2);
    assert PointEqAfter(p, q, 1) == PointEqAfter(p, q, 0);
    TruncZeroIff(p.x - q.x);
    TruncZeroIff(p.y - q.y);
  }

  lemma PointEqReflexive(p: Point)
    ensures PointEq(p, p)
  {
    PointEqIff(p, p);
  }

  lemma PointEqSymmetric(p: Point, q: Point)
    ensures PointEq(p, q) <==> PointEq(q, p)
  {
    PointEqIff(p, q);
    PointEqIff(q, p);
  }

  /**
   * Point equality is not transitive: 0 ~ 0.6 and 0.6 ~ 1.2 but not 0 ~ 1.2.
   * Deduplicating with it therefore depends on the order of the elements.
   */
  lemma PointEqNotTransitive()
    ensures PointEq(Point(0.0, 0.0), Point(0.6, 0.0))
    ensures PointEq(Point(0.6, 0.0), Point(1.2, 0.0))
    ensures !PointEq(Point(0.0, 0.0), Point(1.2, 0.0))
  {
    PointEqIff(Point(0.0, 0.0), Point(0.6, 0.0));
    PointEqIff(Point(0.6, 0.0), Point(1.2, 0.0));
    PointEqIff(Point(0.0, 0.0), Point(1.2, 0.0));
  }

  /** Points whose coordinates truncate to the same integers get the same hash key. */
  lemma HashKeyOfTruncation(p: Point, q: Point)
    requires Trunc(p.x) == Trunc(q.x) && Trunc(p.y) == Trunc(q.y)
    ensures HashKey(p) == HashKey(q)
  {
  }

  /**
   * The hash is not consistent with equality: 0.9 and 1.1 are equal points with
   * different hash keys, so a Python set may keep both of them.
   */
  lemma HashKeyNotConsistentWithEq()
    ensures PointEq(Point(0.9, 0.0), Point(1.1, 0.0))
    ensures HashKey(Point(0.9, 0.0)) != HashKey(Point(1.1, 0.0))
  {
    PointEqIff(Point(0.9, 0.0), Point(1.1, 0.0));
    assert Trunc(0.9) == 0;
    assert Trunc(1.1) == 1;
  }

  /** A pair of intersections: a road or a port edge (catan/DoublePoint.py). */
  datatype DoublePoint = DoublePoint(p1: Point, p2: Point)

  /** `DoublePoint.__eq__`: endpoints match pairwise in either orientation. */
  predicate EdgeEq(e: DoublePoint, f: DoublePoint)
  {
    (PointEq(e.p1, f.p1) && PointEq(e.p2, f.p2))
      || (PointEq(e.p1, f.p2) && PointEq(e.p2, f.p1))
  }

  /** `DoublePoint.__ne__`: the negation of `DoublePoint.__eq__`. */
  predicate EdgeNe(e: DoublePoint, f: DoublePoint)
  {
    !EdgeEq(e, f)
  }

  /** An edge equals its reversal. */
  lemma EdgeEqUnordered(a: Point, b: Point)
    ensures EdgeEq(DoublePoint(a, b), DoublePoint(b, a))
  {
    PointEqReflexive(a);
    PointEqReflexive(b);
  }

  lemma EdgeEqReflexive(e: DoublePoint)
    ensures EdgeEq(e, e)
  {
    PointEqReflexive(e.p1);
    PointEqReflexive(e.p2);
  }

  lemma EdgeEqSymmetric(e: DoublePoint, f: DoublePoint)
    ensures EdgeEq(e, f) <==> EdgeEq(f, e)
  {
    PointEqSymmetric(e.p1, f.p1);
    PointEqSymmetric(e.p2, f.p2);
    PointEqSymmetric(e.p1, f.p2);
    PointEqSymmetric(e.p2, f.p1);
  }
}
