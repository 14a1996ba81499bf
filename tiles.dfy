/** A resource tile of the board (catan/Hexagon.py). */
module Tiles {
  import opened Wrappers
  import opened Geometry

  /** The pip value `setNumber` derives from a production number. */
  function PipValue(n: int): int
  {
    if n < 7 then n - 1 else 13 - n
  }

  /** Over the production numbers 2..12 without 7 the pip value lies in 1..5 and is 5 exactly at 6 and 8. */
  lemma PipValueRange(n: int)
    requires 2 <= n <= 12 && n != 7
    ensures 1 <= PipValue(n) <= 5
    ensures PipValue(n) == 5 <==> n == 6 || n == 8
  {
  }

  /** The pip value is symmetric around 7. */
  lemma PipValueSymmetric(n: int)
    requires 2 <= n <= 12
    ensures PipValue(n) == PipValue(14 - n)
  {
  }

  class Hexagon {
    const hexType: string
    var number: int
    var value: int
    /** None until `SetLocation` is called (`Hexagon.__init__` sets no `location` attribute). */
    var location: Option<Point>

    /** A fresh tile has number 0 and value 0, which is what the desert keeps. */
    constructor (hexType: string)
      ensures this.hexType == hexType
      ensures number == 0 && value == 0 && location == None
    {
      this.hexType := hexType;
      number := 0;
      value := 0;
      location := None;
    }

    method SetLocation(location: Point)
      modifies this`location
      ensures this.location == Some(location)
    {
      this.location := Some(location);
    }

    /** Sets the production number and its pip value; type and location are untouched. */
    method SetNumber(number: int)
      modifies this`number, this`value
      ensures this.number == number
      ensures value == PipValue(number)
      ensures number < 7 ==> value == number - 1
      ensures number >= 7 ==> value == 13 - number
    {
      this.number := number;
      if number < 7 {
        value := number - 1;
      } else {
        value := 13 - number;
      }
    }

    /** The board's test for the desert tile. */
    predicate IsDesert()
    {
      hexType == "desert"
    }

    /** `Hexagon.__eq__`: tiles are compared by location only. */
    predicate Equals(other: Hexagon)
      reads this, other
      requires location.Some? && other.location.Some?
    {
      PointEq(location.value, other.location.value)
    }

    /** `Hexagon.__hash__`: the hash of the location. */
    function Hash(): (int, int)
      reads this
      requires location.Some?
    {
      HashKey(location.value)
    }
  }

  /**
   * Equality and hash of tiles depend on the location alone: two tiles at the
   * same location are equal and hash alike whatever their type and number.
   */
  lemma TileIdentityIsLocation(a: Hexagon, b: Hexagon)
    requires a.location.Some? && a.location == b.location
    ensures a.Equals(b) && b.Equals(a) && a.Hash() == b.Hash()
  {
    PointEqReflexive(a.location.value);
  }
}
