/**
 * The source of randomness.  Every `randrange(n)` of the program takes the
 * next value of a caller-supplied stream of naturals, reduced modulo n, so a
 * stream whose values are already below n reproduces any sequence of outcomes.
 */
module Random {

  datatype Source = Source(draws: nat -> nat, used: nat)

  /** `randrange(n)`: a value in [0, n) and the source advanced by one draw. */
  function Below(src: Source, n: nat): (r: (nat, Source))
    requires n > 0
    ensures r.0 < n
    ensures r.1.used == src.used + 1
  {
    (src.draws(src.used) % n, Source(src.draws, src.used + 1))
  }

  /**
   * `shuffle` of an n-element list, as the permutation it applies: position
   * `i` of the result holds element `order[i]` of the input.
   */
  ghost predicate IsPermutation(order: seq<int>, n: nat)
  {
    && |order| == n
    && (forall i :: 0 <= i < n ==> 0 <= order[i] < n)
    && (forall i, j :: 0 <= i < j < n ==> order[i] != order[j])
    && (forall v :: 0 <= v < n ==> v in order)
  }
}
