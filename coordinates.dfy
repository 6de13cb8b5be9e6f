/** Integer pose of an item on the playground: position, radius and direction in
    internal units, the setters that keep radius and direction normalised, and the
    distance queries between two items. */
module Coordinates {

  /** Scale from playground units to internal units (SimulationEnvironment.PLAYGROUND_UNIT). */
  const PlaygroundUnit: int := 64

  /** Math.Abs on an unbounded integer. */
  function Abs(v: int): (r: int)
    ensures r >= 0
    ensures r == v || r == -v
  {
    if v < 0 then -v else v
  }

  /** The direction a setter stores for `value`: the one angle in 0..359 that is
      congruent to `value` modulo 360. */
  function NormalizedDirection(value: int): (d: int)
    ensures 0 <= d <= 359
    ensures (value - d) % 360 == 0
  {
    value % 360
  }

  /** Two angles that differ by whole turns are stored as the same direction. */
  lemma DirectionPeriodic(value: int, k: int)
    ensures NormalizedDirection(value + 360 * k) == NormalizedDirection(value)
  {
    var d := NormalizedDirection(value);
    var e := NormalizedDirection(value + 360 * k);
    // both are the representative in 0..359 of the same residue class
    assert (e - d) % 360 == 0 by {
      assert (value + 360 * k - e) % 360 == 0;
      assert (value - d) % 360 == 0;
      assert e - d == (value - d) - (value + 360 * k - e) + 360 * k;
    }
    assert -360 < e - d < 360;
  }

  /** Re-assigning a direction that is already stored leaves it unchanged. */
  lemma NormalizedDirectionIdempotent(value: int)
    ensures NormalizedDirection(NormalizedDirection(value)) == NormalizedDirection(value)
  {
  }

  /** s is the square of a distance and n is Math.Round(Math.Sqrt(s)): for an integer
      s the square root is never exactly halfway between two integers, so n is the
      integer with (n - 1/2)^2 < s < (n + 1/2)^2, i.e. n*n - n < s <= n*n + n
      (and n == 0 exactly when s == 0). */
  ghost predicate IsRoundedSqrt(s: int, n: int)
  {
    n >= 0 && s <= n * n + n && (n == 0 || n * n - n < s)
  }

  /** n*n - n grows with n, which makes the rounded square root unique. */
  lemma RoundedSqrtBoundsGrow(n: int, m: int)
    requires 0 <= n < m
    ensures m * m - m >= n * n + n
  {
    assert m * m - m - (n * n + n) == (m - n - 1) * (m + n);
    assert (m - n - 1) * (m + n) >= 0;
  }

  /** There is at most one rounded square root of s. */
  lemma RoundedSqrtUnique(s: int, n: int, m: int)
    requires IsRoundedSqrt(s, n) && IsRoundedSqrt(s, m)
    ensures n == m
  {
    if n < m {
      RoundedSqrtBoundsGrow(n, m);
    } else if m < n {
      RoundedSqrtBoundsGrow(m, n);
    }
  }

  /** Rounded square root found by searching upward from n. */
  function RoundSqrtFrom(s: nat, n: nat): (r: nat)
    requires n == 0 || n * n - n < s
    ensures IsRoundedSqrt(s, r)
    decreases s - n
  {
    if s <= n * n + n then n
    else
      assert (n + 1) * (n + 1) - (n + 1) == n * n + n;
      RoundSqrtFrom(s, n + 1)
  }

  /** Math.Round(Math.Sqrt(s)) for a non-negative integer s, computed exactly. */
  function RoundSqrt(s: nat): (r: nat)
    ensures IsRoundedSqrt(s, r)
  {
    RoundSqrtFrom(s, 0)
  }

  /** The rounded square root of a perfect square is its root. */
  lemma RoundSqrtOfSquare(n: nat)
    ensures RoundSqrt(n * n) == n
  {
    RoundedSqrtUnique(n * n, RoundSqrt(n * n), n);
  }

  /** Pose of one item on the playground, in internal units. */
  class CoreCoordinate {
    var radius: int
    var direction: int
    var x: int
    var y: int

    /** The radius is never negative and the direction lies in 0..359. */
    ghost predicate Valid()
      reads this
    {
      radius >= 0 && 0 <= direction <= 359
    }

    /** Absolute coordinate with radius and direction; position and radius are
        scaled to internal units, the direction goes through its setter. */
    constructor (x: int, y: int, radius: int, direction: int)
      ensures Valid()
      ensures this.x == x * PlaygroundUnit && this.y == y * PlaygroundUnit
      ensures this.radius == Abs(radius * PlaygroundUnit)
      ensures this.direction == NormalizedDirection(direction)
    {
      this.x := x * PlaygroundUnit;
      this.y := y * PlaygroundUnit;
      this.radius := 0;
      this.direction := 0;
      new;
      SetRadius(radius * PlaygroundUnit);
      SetDirection(direction);
    }

    /** Absolute coordinate without direction: the direction is 0. */
    constructor WithoutDirection(x: int, y: int, radius: int)
      ensures Valid()
      ensures this.x == x * PlaygroundUnit && this.y == y * PlaygroundUnit
      ensures this.radius == Abs(radius * PlaygroundUnit)
      ensures this.direction == 0
    {
      this.x := x * PlaygroundUnit;
      this.y := y * PlaygroundUnit;
      this.radius := 0;
      direction := 0;
      new;
      SetRadius(radius * PlaygroundUnit);
    }

    /** Absolute coordinate without direction or radius: both are 0. */
    constructor WithoutRadius(x: int, y: int)
      ensures Valid()
      ensures this.x == x * PlaygroundUnit && this.y == y * PlaygroundUnit
      ensures radius == 0 && direction == 0
    {
      this.x := x * PlaygroundUnit;
      this.y := y * PlaygroundUnit;
      radius := 0;
      direction := 0;
    }

    /** Coordinate relative to `c`: the deltas are already in internal units and
        are added unscaled; radius and direction are copied from `c`. */
    constructor Relative(c: CoreCoordinate, deltaX: int, deltaY: int)
      ensures x == c.x + deltaX && y == c.y + deltaY
      ensures radius == c.radius && direction == c.direction
      ensures c.Valid() ==> Valid()
    {
      x := c.x + deltaX;
      y := c.y + deltaY;
      radius := c.radius;
      direction := c.direction;
    }

    /** Setter of X. */
    method SetX(value: int)
      modifies this`x
      ensures x == value
      ensures y == old(y) && radius == old(radius) && direction == old(direction)
    {
      x := value;
    }

    /** Setter of Y. */
    method SetY(value: int)
      modifies this`y
      ensures y == value
      ensures x == old(x) && radius == old(radius) && direction == old(direction)
    {
      y := value;
    }

    /** Setter of Radius: stores the absolute value. */
    method SetRadius(value: int)
      modifies this`radius
      ensures radius == Abs(value)
      ensures x == old(x) && y == old(y) && direction == old(direction)
      ensures old(Valid()) ==> Valid()
    {
      radius := Abs(value);
    }

    /** Setter of Direction: wraps any angle into 0..359 by whole turns. */
    method SetDirection(value: int)
      modifies this`direction
      ensures direction == NormalizedDirection(value)
      ensures x == old(x) && y == old(y) && radius == old(radius)
      ensures old(radius) >= 0 ==> Valid()
    {
      direction := value;
      while direction < 0
        invariant direction >= value
        invariant (value - direction) % 360 == 0
        decreases -direction
      {
        direction := direction + 360;
      }
      while direction > 359
        invariant direction >= 0
        invariant (value - direction) % 360 == 0
        decreases direction
      {
        direction := direction - 360;
      }
      ghost var d := NormalizedDirection(value);
      assert (direction - d) % 360 == 0 by {
        assert direction - d == (value - d) - (value - direction);
      }
    }
  }

  /** Square of the distance between the centres of two items. */
  function SquaredCenterDistance(c1: CoreCoordinate, c2: CoreCoordinate): (s: nat)
    reads c1, c2
  {
    (c1.x - c2.x) * (c1.x - c2.x) + (c1.y - c2.y) * (c1.y - c2.y)
  }

  /** Distance between the centres, in internal units, rounded to the nearest integer. */
  function DetermineDistanceToCenter(c1: CoreCoordinate, c2: CoreCoordinate): (d: nat)
    reads c1, c2
    ensures IsRoundedSqrt(SquaredCenterDistance(c1, c2), d)
  {
    RoundSqrt(SquaredCenterDistance(c1, c2))
  }

  /** Distance between the surfaces of two items in internal units: the rounded
      centre distance minus both radii, never below 0. */
  function DetermineDistanceI(c1: CoreCoordinate, c2: CoreCoordinate): (d: nat)
    reads c1, c2
    ensures d >= DetermineDistanceToCenter(c1, c2) - c1.radius - c2.radius
    ensures d == 0 || d == DetermineDistanceToCenter(c1, c2) - c1.radius - c2.radius
  {
    var distance := DetermineDistanceToCenter(c1, c2) - c1.radius - c2.radius;
    if distance < 0 then 0 else distance
  }

  /** Distance between the surfaces of two items in playground steps. */
  function DetermineDistance(c1: CoreCoordinate, c2: CoreCoordinate): (d: nat)
    reads c1, c2
    ensures d * PlaygroundUnit <= DetermineDistanceI(c1, c2) < (d + 1) * PlaygroundUnit
  {
    DetermineDistanceI(c1, c2) / PlaygroundUnit
  }

  /** The centre distance does not depend on the order of the two items. */
  lemma DistanceToCenterSymmetric(c1: CoreCoordinate, c2: CoreCoordinate)
    ensures DetermineDistanceToCenter(c1, c2) == DetermineDistanceToCenter(c2, c1)
  {
    assert (c1.x - c2.x) * (c1.x - c2.x) == (c2.x - c1.x) * (c2.x - c1.x);
    assert (c1.y - c2.y) * (c1.y - c2.y) == (c2.y - c1.y) * (c2.y - c1.y);
  }

  /** The surface distance does not depend on the order of the two items. */
  lemma DistanceISymmetric(c1: CoreCoordinate, c2: CoreCoordinate)
    ensures DetermineDistanceI(c1, c2) == DetermineDistanceI(c2, c1)
  {
    DistanceToCenterSymmetric(c1, c2);
  }

  /** For items with valid radii the surface distance never exceeds the centre distance. */
  lemma DistanceIAtMostCenter(c1: CoreCoordinate, c2: CoreCoordinate)
    requires c1.Valid() && c2.Valid()
    ensures DetermineDistanceI(c1, c2) <= DetermineDistanceToCenter(c1, c2)
  {
  }

  /** The step distance does not depend on the order of the two items. */
  lemma DistanceSymmetric(c1: CoreCoordinate, c2: CoreCoordinate)
    ensures DetermineDistance(c1, c2) == DetermineDistance(c2, c1)
  {
    DistanceISymmetric(c1, c2);
  }

  /** An item is at distance 0 from itself. */
  lemma DistanceToSelfIsZero(c: CoreCoordinate)
    requires c.Valid()
    ensures DetermineDistanceToCenter(c, c) == 0
    ensures DetermineDistanceI(c, c) == 0
  {
    RoundSqrtOfSquare(0);
  }

  /** Centres (10, 0) and (0, 0) are 10 internal units apart. */
  lemma CenterDistanceExample(c1: CoreCoordinate, c2: CoreCoordinate)
    requires c1.x == 10 && c1.y == 0 && c2.x == 0 && c2.y == 0
    ensures DetermineDistanceToCenter(c1, c2) == 10
  {
    assert SquaredCenterDistance(c1, c2) == 10 * 10;
    RoundSqrtOfSquare(10);
  }

  /** Two items of radius 6 whose centres are 10 apart touch: their distance is 0, not -2. */
  lemma OverlapExample(c1: CoreCoordinate, c2: CoreCoordinate)
    requires c1.x == 10 && c1.y == 0 && c2.x == 0 && c2.y == 0
    requires c1.radius == 6 && c2.radius == 6
    ensures DetermineDistanceI(c1, c2) == 0
    ensures DetermineDistance(c1, c2) == 0
  {
    CenterDistanceExample(c1, c2);
  }

  /** The +360 fix-up of DetermineDirection applied to the rounded Math.Atan2 angle
      in degrees, which lies in -180..180. */
  function DirectionFromAngle(angle: int): (d: int)
    requires -180 <= angle <= 180
    ensures 0 <= d <= 359
    ensures NormalizedDirection(angle) == d
  {
    if angle < 0 then angle + 360 else angle
  }
}
