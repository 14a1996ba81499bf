/**
 * The five resource kinds, their names and the arithmetic over a hand of
 * five counters (catan/Player.py).
 */
module Resources {

  /** Number of resource kinds: ore, wheat, sheep, brick, wood. */
  const Kinds := 5

  /** `getResourceType`: the name of a resource index, or "" for any other index. */
  function ResourceType(i: int): (s: string)
    ensures s == "" <==> !(0 <= i < Kinds)
  {
    if i == 0 then "ore"
    else if i == 1 then "wheat"
    else if i == 2 then "sheep"
    else if i == 3 then "brick"
    else if i == 4 then "wood"
    else ""
  }

  /** `getResourceIndex`: the index of a resource name, or -1 for any other text. */
  function ResourceIndex(s: string): (i: int)
    ensures -1 <= i < Kinds
  {
    IndexAfter(s, 2)
  }

  /**
   * `ResourceIndex`, reached only after `delay` unfoldings, which keeps the
   * comparisons with the five names out of the proofs that only count.
   */
  function IndexAfter(s: string, delay: nat): (i: int)
    ensures -1 <= i < Kinds
    decreases delay
  {
    if delay > 0 then IndexAfter(s, delay - 1)
    else if s == "ore" then 0
    else if s == "wheat" then 1
    else if s == "sheep" then 2
    else if s == "brick" then 3
    else if s == "wood" then 4
    else -1
  }

  /** A found index names the text it was found for; -1 exactly when no kind has that name. */
  lemma IndexOfName(s: string)
    ensures ResourceIndex(s) != -1 ==> ResourceType(ResourceIndex(s)) == s
    ensures ResourceIndex(s) == -1 <==> forall k :: 0 <= k < Kinds ==> ResourceType(k) != s
  {
    assert IndexAfter(s, 2) == IndexAfter(s, 1) == IndexAfter(s, 0);
  }

  /** Name and index are inverse on the five kinds. */
  lemma IndexOfType(i: int)
    requires 0 <= i < Kinds
    ensures ResourceIndex(ResourceType(i)) == i
  {
    var s := ResourceType(i);
    assert IndexAfter(s, 2) == IndexAfter(s, 1) == IndexAfter(s, 0);
  }

  /** Sum of a sequence of counters, accumulated from the left. */
  function Total(s: seq<int>): int
  {
    if |s| == 0 then 0 else Total(s[..|s| - 1]) + s[|s| - 1]
  }

  /** The total of a hand is the sum of its five counters. */
  lemma TotalOfHand(s: seq<int>)
    requires |s| == Kinds
    ensures Total(s) == s[0] + s[1] + s[2] + s[3] + s[4]
  {
    assert s[..5][..4] == s[..4] && s[..4][..3] == s[..3] && s[..3][..2] == s[..2];
    assert s[..2][..1] == s[..1] && s[..1][..0] == [];
    assert Total(s[..1]) == s[0];
    assert Total(s[..2]) == s[0] + s[1];
    assert Total(s[..3]) == s[0] + s[1] + s[2];
    assert Total(s[..4]) == s[0] + s[1] + s[2] + s[3];
    assert s[..5] == s;
  }

  /** A hand of five counters none of which is negative. */
  predicate Hand(s: seq<int>)
  {
    |s| == Kinds && forall k :: 0 <= k < Kinds ==> s[k] >= 0
  }

  /** Trade rates are 4 (bank), 3 (general port) or 2 (matching port). */
  predicate Rates(r: seq<int>)
  {
    |r| == Kinds && forall k :: 0 <= k < Kinds ==> 2 <= r[k] <= 4
  }

  /** The counters after giving `rate` of `give` for one `get` (`portResource`, `+1` first). */
  function Traded(s: seq<int>, give: int, get: int, rate: int): (t: seq<int>)
    requires 0 <= give < |s| && 0 <= get < |s|
    ensures |t| == |s|
    ensures give != get ==> t[give] == s[give] - rate && t[get] == s[get] + 1
    ensures give == get ==> t[give] == s[give] + 1 - rate
    ensures forall k :: 0 <= k < |s| && k != give && k != get ==> t[k] == s[k]
  {
    var s1 := s[get := s[get] + 1];
    s1[give := s1[give] - rate]
  }

  /** The two updates `portResource` makes, in its order. */
  lemma TradedUpdates(s: seq<int>, give: int, get: int, rate: int)
    requires 0 <= give < |s| && 0 <= get < |s|
    ensures Traded(s, give, get, rate) == s[get := s[get] + 1][give := s[get := s[get] + 1][give] - rate]
  {
  }

  /** A trade lowers the total by `rate - 1`. */
  lemma TradedTotal(s: seq<int>, give: int, get: int, rate: int)
    requires |s| == Kinds && 0 <= give < Kinds && 0 <= get < Kinds
    ensures Total(Traded(s, give, get, rate)) == Total(s) - rate + 1
  {
    TotalOfHand(s);
    TotalOfHand(Traded(s, give, get, rate));
  }

  /** The positive part of a counter. */
  function Pos(x: int): int
  {
    if x > 0 then x else 0
  }

  /** The sum of the positive parts of the counters from `k` on. */
  function PosFrom(s: seq<int>, k: nat): (t: int)
    requires k <= |s|
    ensures t >= 0
    decreases |s| - k
  {
    if k == |s| then 0 else Pos(s[k]) + PosFrom(s, k + 1)
  }

  /** The sum of the positive parts of a hand's counters; it is never negative. */
  function PositiveTotal(s: seq<int>): (t: int)
    requires |s| == Kinds
    ensures t >= 0
  {
    PosFrom(s, 0)
  }

  /** Replacing one counter changes the positive sum by the change of its positive part. */
  lemma {:induction false} PosFromUpdate(s: seq<int>, i: int, v: int, k: nat)
    requires 0 <= i < |s| && k <= |s|
    ensures PosFrom(s[i := v], k) == PosFrom(s, k) + (if k <= i then Pos(v) - Pos(s[i]) else 0)
    decreases |s| - k
  {
    if k < |s| {
      PosFromUpdate(s, i, v, k + 1);
    }
  }

  /** Counters whose positive parts are no larger have no larger positive sum, and a smaller one if one part is smaller. */
  lemma {:induction false} PosFromMonotone(a: seq<int>, b: seq<int>, k: nat)
    requires |a| == |b| && k <= |a|
    requires forall j :: k <= j < |a| ==> Pos(a[j]) <= Pos(b[j])
    ensures PosFrom(a, k) <= PosFrom(b, k)
    ensures (exists j :: k <= j < |a| && Pos(a[j]) < Pos(b[j])) ==> PosFrom(a, k) < PosFrom(b, k)
    decreases |a| - k
  {
    if k < |a| {
      PosFromMonotone(a, b, k + 1);
    }
  }

  /** Replacing one counter changes the positive total by the change of its positive part. */
  lemma PositiveTotalUpdate(s: seq<int>, i: int, v: int)
    requires |s| == Kinds && 0 <= i < Kinds
    ensures PositiveTotal(s[i := v]) == PositiveTotal(s) - Pos(s[i]) + Pos(v)
  {
    PosFromUpdate(s, i, v, 0);
  }
}
