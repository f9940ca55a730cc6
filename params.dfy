/**
 * Run-wide configuration of the Random Dot Kinematogram and the values the
 * program derives from it once at start-up: the aperture's half-axes and the
 * coherent jump sizes. Everything here is immutable for the whole run.
 */
module Params {
  import opened Arith

  /** Aperture shapes, the codes 1 to 4 of `apertureType`. */
  datatype Shape = Circle | Ellipse | Square | Rectangle {
    /** Circle and ellipse share the ellipse geometry; square and rectangle the box geometry. */
    predicate IsRound() { this == Circle || this == Ellipse }
  }

  /**
   * An angle seen through its cosine and sine: the values Math.cos and Math.sin
   * return for it. Trigonometry itself is not modelled.
   */
  datatype Direction = Direction(cos: real, sin: real)

  predicate IsUnit(d: Direction) { d.cos * d.cos + d.sin * d.sin == 1.0 }

  /** A draw of Math.random(): uniform in [0, 1). */
  predicate IsUniform(u: real) { 0.0 <= u < 1.0 }

  /** The parameters of a run. */
  datatype Config = Config(
    nDots: nat,                // dots per set
    nSets: nat,                // sets cycled through, one per frame
    coherentDirection: Direction,  // cos and sin of coherentDirection * pi / 180
    coherence: real,           // proportion of coherent dots
    dotLife: int,              // frames a dot lives; negative means infinite
    moveDistance: real,        // pixels moved per frame
    apertureWidth: real,
    apertureHeight: real,
    apertureCenterX: real,
    apertureCenterY: real,
    rdk: int,                  // RDK variant 1..6
    apertureType: Shape,
    reinsertType: int)         // 1: anywhere in the aperture, 2: on the opposite edge

  /** The documented ranges of the parameters that the geometry divides by or indexes with. */
  predicate ValidConfig(c: Config) {
    && c.nSets >= 1
    && 0.0 <= c.coherence <= 1.0
    && IsUnit(c.coherentDirection)
    && c.apertureWidth > 0.0
    && (c.apertureType == Ellipse || c.apertureType == Rectangle ==> c.apertureHeight > 0.0)
  }

  /** The aperture: shape, centre and the two half-axes. */
  datatype Aperture = Aperture(shape: Shape, cx: real, cy: real, horizontalAxis: real, verticalAxis: real)

  predicate ValidAperture(ap: Aperture) { ap.horizontalAxis > 0.0 && ap.verticalAxis > 0.0 }

  /**
   * initializeApertureParameters: a circle or square is given by its width alone
   * (diameter or side), so both half-axes are half the width; an ellipse or
   * rectangle has half the width and half the height.
   */
  function InitializeApertureParameters(c: Config): (ap: Aperture)
    ensures ap.shape == c.apertureType && ap.cx == c.apertureCenterX && ap.cy == c.apertureCenterY
    ensures ap.horizontalAxis == c.apertureWidth / 2.0
    ensures c.apertureType == Circle || c.apertureType == Square ==>
              ap.verticalAxis == ap.horizontalAxis
    ensures c.apertureType == Ellipse || c.apertureType == Rectangle ==>
              ap.verticalAxis == c.apertureHeight / 2.0
    ensures ValidConfig(c) ==> ValidAperture(ap)
  {
    if c.apertureType == Circle || c.apertureType == Square then
      Aperture(c.apertureType, c.apertureCenterX, c.apertureCenterY, c.apertureWidth / 2.0, c.apertureWidth / 2.0)
    else
      Aperture(c.apertureType, c.apertureCenterX, c.apertureCenterY, c.apertureWidth / 2.0, c.apertureHeight / 2.0)
  }

  /** calculateCoherentJumpSizeX: the x step points the way the direction's cosine does. */
  function CalculateCoherentJumpSizeX(c: Config): (jx: real)
    ensures c.moveDistance >= 0.0 ==> jx * c.coherentDirection.cos >= 0.0
  {
    ScaledAlong(c.moveDistance, c.coherentDirection.cos);
    c.moveDistance * c.coherentDirection.cos
  }

  /**
   * calculateCoherentJumpSizeY: the sine is taken of the negated angle because
   * screen y grows downwards, so an upward direction (positive sine) gives a
   * negative y step. sin(-a) is written as -sin(a).
   */
  function CalculateCoherentJumpSizeY(c: Config): (jy: real)
    ensures c.moveDistance >= 0.0 ==> jy * c.coherentDirection.sin <= 0.0
  {
    ScaledAlong(c.moveDistance, c.coherentDirection.sin);
    c.moveDistance * -c.coherentDirection.sin
  }

  /** A non-negative multiple of t points the way t does. */
  lemma ScaledAlong(m: real, t: real)
    ensures m >= 0.0 ==> (m * t) * t >= 0.0 && (m * -t) * t <= 0.0
  {
    SqNonNegative(t);
    if m >= 0.0 {
      MulNonNegative(m, Sq(t));
      assert (m * t) * t == m * Sq(t) && (m * -t) * t == -(m * Sq(t));
    }
  }

  /** The coherent step is exactly moveDistance long. */
  lemma CoherentJumpLength(c: Config)
    ensures IsUnit(c.coherentDirection) ==>
              var jx, jy := CalculateCoherentJumpSizeX(c), CalculateCoherentJumpSizeY(c);
              jx * jx + jy * jy == c.moveDistance * c.moveDistance
  {
    if IsUnit(c.coherentDirection) {
      var m, co, si := c.moveDistance, c.coherentDirection.cos, c.coherentDirection.sin;
      calc {
        (m * co) * (m * co) + (m * -si) * (m * -si);
        (m * m) * (co * co + si * si);
        m * m;
      }
    }
  }

  lemma LerpIncreasing(lowerBound: real, upperBound: real, u: real)
    requires IsUniform(u) && lowerBound < upperBound
    ensures lowerBound <= lowerBound + u * (upperBound - lowerBound) < upperBound
  {
    ScaledUniform(u, upperBound - lowerBound);
    assert Scale(u, upperBound - lowerBound) == u * (upperBound - lowerBound);
  }

  lemma LerpDecreasing(lowerBound: real, upperBound: real, u: real)
    requires IsUniform(u) && upperBound < lowerBound
    ensures upperBound < lowerBound + u * (upperBound - lowerBound) <= lowerBound
  {
    ScaledUniform(u, lowerBound - upperBound);
    assert Scale(u, lowerBound - upperBound) == u * (lowerBound - upperBound);
    assert u * (lowerBound - upperBound) == -(u * (upperBound - lowerBound));
  }

  /** Where a draw u lands between two bounds given either way round. */
  lemma LerpBounds(lowerBound: real, upperBound: real, u: real)
    ensures var r := lowerBound + u * (upperBound - lowerBound);
            && (IsUniform(u) && lowerBound < upperBound ==> lowerBound <= r < upperBound)
            && (IsUniform(u) && upperBound < lowerBound ==> upperBound < r <= lowerBound)
            && (lowerBound == upperBound ==> r == lowerBound)
  {
    if IsUniform(u) && lowerBound < upperBound {
      LerpIncreasing(lowerBound, upperBound, u);
    } else if IsUniform(u) && upperBound < lowerBound {
      LerpDecreasing(lowerBound, upperBound, u);
    }
  }

  /**
   * randomNumberBetween with its Math.random() draw `u` as an input: a draw in
   * [0, 1) lands in [lowerBound, upperBound), or in (upperBound, lowerBound]
   * when the bounds are given the other way round.
   */
  function RandomNumberBetween(lowerBound: real, upperBound: real, u: real): (r: real)
    ensures IsUniform(u) && lowerBound < upperBound ==> lowerBound <= r < upperBound
    ensures IsUniform(u) && upperBound < lowerBound ==> upperBound < r <= lowerBound
    ensures lowerBound == upperBound ==> r == lowerBound
  {
    LerpBounds(lowerBound, upperBound, u);
    lowerBound + u * (upperBound - lowerBound)
  }
}
