/**
 * Aperture geometry: the ellipse boundary functions and the out-of-bounds test,
 * both as the source writes it and as it is evidently meant.
 */
module Geometry {
  import opened Arith
  import opened Params

  /** Horizontal offset from the centre in units of the horizontal half-axis. */
  function NormX(ap: Aperture, x: real): real
    requires ValidAperture(ap)
  {
    (x - ap.cx) / ap.horizontalAxis
  }

  /** Vertical offset from the centre in units of the vertical half-axis. */
  function NormY(ap: Aperture, y: real): real
    requires ValidAperture(ap)
  {
    (y - ap.cy) / ap.verticalAxis
  }

  /** The ellipse level of a point: below 1 inside the ellipse, 1 on its boundary. */
  function Level(ap: Aperture, x: real, y: real): real
    requires ValidAperture(ap)
  {
    Sq(NormX(ap, x)) + Sq(NormY(ap, y))
  }

  /** 1 - (x - cx)^2 / ha^2: the square-root argument of yValuePositive and yValueNegative. */
  function RadicandAtX(ap: Aperture, x: real): real
    requires ValidAperture(ap)
  {
    1.0 - Sq(NormX(ap, x))
  }

  /** 1 - (y - cy)^2 / va^2: the square-root argument of xValuePositive and xValueNegative. */
  function RadicandAtY(ap: Aperture, y: real): real
    requires ValidAperture(ap)
  {
    1.0 - Sq(NormY(ap, y))
  }

  /** x lies within one horizontal half-axis of the centre. */
  predicate WithinX(ap: Aperture, x: real) {
    -ap.horizontalAxis <= x - ap.cx <= ap.horizontalAxis
  }

  /** y lies within one vertical half-axis of the centre. */
  predicate WithinY(ap: Aperture, y: real) {
    -ap.verticalAxis <= y - ap.cy <= ap.verticalAxis
  }

  /** The square-root argument is non-negative exactly within the half-axis. */
  lemma RadicandAtXSign(ap: Aperture, x: real)
    requires ValidAperture(ap)
    ensures RadicandAtX(ap, x) >= 0.0 <==> WithinX(ap, x)
  {
    SqAtMostOne(NormX(ap, x));
    DivCompare(x - ap.cx, 1.0, ap.horizontalAxis);
    DivCompare(x - ap.cx, -1.0, ap.horizontalAxis);
  }

  lemma RadicandAtYSign(ap: Aperture, y: real)
    requires ValidAperture(ap)
    ensures RadicandAtY(ap, y) >= 0.0 <==> WithinY(ap, y)
  {
    SqAtMostOne(NormY(ap, y));
    DivCompare(y - ap.cy, 1.0, ap.verticalAxis);
    DivCompare(y - ap.cy, -1.0, ap.verticalAxis);
  }

  /** Math.sqrt on the non-negative reals, known only through its square. */
  ghost predicate IsSqrt(sqrt: real -> real) {
    forall r: real :: 0.0 <= r ==> 0.0 <= sqrt(r) && sqrt(r) * sqrt(r) == r
  }

  /** axis * root for a root of the radicand: its square is axis^2 * radicand. */
  lemma ScaledRoot(axis: real, root: real, radicand: real)
    requires axis > 0.0 && root >= 0.0 && Sq(root) == radicand
    ensures axis * root >= 0.0
    ensures Sq(axis * root) == Sq(axis) * radicand && Sq(-axis * root) == Sq(axis) * radicand
  {
    MulNonNegative(axis, root);
    SqProduct(axis, root);
    SqNegate(axis * root);
    assert -axis * root == -(axis * root);
  }

  /** yValuePositive: the upper boundary point of the ellipse above x. */
  function YValuePositive(ap: Aperture, sqrt: real -> real, x: real): (y: real)
    requires ValidAperture(ap) && IsSqrt(sqrt) && WithinX(ap, x)
    ensures y >= ap.cy
    ensures Sq(y - ap.cy) == Sq(ap.verticalAxis) * RadicandAtX(ap, x)
  {
    RadicandAtXSign(ap, x);
    ScaledRoot(ap.verticalAxis, sqrt(RadicandAtX(ap, x)), RadicandAtX(ap, x));
    ap.verticalAxis * sqrt(RadicandAtX(ap, x)) + ap.cy
  }

  /** yValueNegative: the lower boundary point of the ellipse below x. */
  function YValueNegative(ap: Aperture, sqrt: real -> real, x: real): (y: real)
    requires ValidAperture(ap) && IsSqrt(sqrt) && WithinX(ap, x)
    ensures y <= ap.cy
    ensures Sq(y - ap.cy) == Sq(ap.verticalAxis) * RadicandAtX(ap, x)
  {
    RadicandAtXSign(ap, x);
    ScaledRoot(ap.verticalAxis, sqrt(RadicandAtX(ap, x)), RadicandAtX(ap, x));
    -ap.verticalAxis * sqrt(RadicandAtX(ap, x)) + ap.cy
  }

  /** xValuePositive: the right boundary point of the ellipse at height y. */
  function XValuePositive(ap: Aperture, sqrt: real -> real, y: real): (x: real)
    requires ValidAperture(ap) && IsSqrt(sqrt) && WithinY(ap, y)
    ensures x >= ap.cx
    ensures Sq(x - ap.cx) == Sq(ap.horizontalAxis) * RadicandAtY(ap, y)
  {
    RadicandAtYSign(ap, y);
    ScaledRoot(ap.horizontalAxis, sqrt(RadicandAtY(ap, y)), RadicandAtY(ap, y));
    ap.horizontalAxis * sqrt(RadicandAtY(ap, y)) + ap.cx
  }

  /** xValueNegative: the left boundary point of the ellipse at height y. */
  function XValueNegative(ap: Aperture, sqrt: real -> real, y: real): (x: real)
    requires ValidAperture(ap) && IsSqrt(sqrt) && WithinY(ap, y)
    ensures x <= ap.cx
    ensures Sq(x - ap.cx) == Sq(ap.horizontalAxis) * RadicandAtY(ap, y)
  {
    RadicandAtYSign(ap, y);
    ScaledRoot(ap.horizontalAxis, sqrt(RadicandAtY(ap, y)), RadicandAtY(ap, y));
    -ap.horizontalAxis * sqrt(RadicandAtY(ap, y)) + ap.cx
  }

  /** The normalised offset of a boundary point is the root itself. */
  lemma RootOffset(axis: real, root: real, centre: real)
    requires axis > 0.0
    ensures (axis * root + centre - centre) / axis == root
    ensures (-axis * root + centre - centre) / axis == -root
  {
    MulDivCancel(root, axis);
    MulDivCancel(-root, axis);
    assert -axis * root == axis * -root;
  }

  /** The upper and lower boundary points above x lie on the ellipse. */
  lemma YBoundaryOnEllipse(ap: Aperture, sqrt: real -> real, x: real)
    requires ValidAperture(ap) && IsSqrt(sqrt) && WithinX(ap, x)
    ensures Level(ap, x, YValuePositive(ap, sqrt, x)) == 1.0
    ensures Level(ap, x, YValueNegative(ap, sqrt, x)) == 1.0
  {
    RadicandAtXSign(ap, x);
    var p := sqrt(RadicandAtX(ap, x));
    assert Sq(p) == 1.0 - Sq(NormX(ap, x));
    RootOffset(ap.verticalAxis, p, ap.cy);
    assert NormY(ap, YValuePositive(ap, sqrt, x)) == p;
    assert NormY(ap, YValueNegative(ap, sqrt, x)) == -p;
    SqNegate(p);
  }

  /** The right and left boundary points at height y lie on the ellipse. */
  lemma XBoundaryOnEllipse(ap: Aperture, sqrt: real -> real, y: real)
    requires ValidAperture(ap) && IsSqrt(sqrt) && WithinY(ap, y)
    ensures Level(ap, XValuePositive(ap, sqrt, y), y) == 1.0
    ensures Level(ap, XValueNegative(ap, sqrt, y), y) == 1.0
  {
    RadicandAtYSign(ap, y);
    var p := sqrt(RadicandAtY(ap, y));
    assert Sq(p) == 1.0 - Sq(NormY(ap, y));
    RootOffset(ap.horizontalAxis, p, ap.cx);
    assert NormX(ap, XValuePositive(ap, sqrt, y)) == p;
    assert NormX(ap, XValueNegative(ap, sqrt, y)) == -p;
    SqNegate(p);
  }

  /**
   * outOfBounds as it is evidently meant: for a circle or ellipse, outside the
   * ellipse; for a square or rectangle, outside the axis-aligned box.
   */
  predicate OutOfBounds(ap: Aperture, x: real, y: real)
    requires ValidAperture(ap)
  {
    if ap.shape.IsRound() then
      Level(ap, x, y) > 1.0
    else
      || x < ap.cx - ap.horizontalAxis || x > ap.cx + ap.horizontalAxis
      || y < ap.cy - ap.verticalAxis || y > ap.cy + ap.verticalAxis
  }

  /**
   * outOfBounds as the source writes it. Outside the half-axis a boundary
   * function takes the square root of a negative number, which is NaN in the
   * source, and every comparison with NaN is false: each comparison is
   * therefore guarded by the range in which its boundary is a number.
   */
  predicate OutOfBoundsAsWritten(ap: Aperture, sqrt: real -> real, x: real, y: real)
    requires ValidAperture(ap) && IsSqrt(sqrt)
  {
    if ap.shape.IsRound() then
      || (WithinY(ap, y) && x < XValueNegative(ap, sqrt, y))
      || (WithinY(ap, y) && x > XValuePositive(ap, sqrt, y))
      || (WithinX(ap, x) && y < YValueNegative(ap, sqrt, x))
      || (WithinX(ap, x) && y > YValuePositive(ap, sqrt, x))
    else
      || x < ap.cx - ap.horizontalAxis || x > ap.cx + ap.horizontalAxis
      || y < ap.cy - ap.verticalAxis || y > ap.cy + ap.verticalAxis
  }

  /** With p >= 0 the root of 1 - b^2, a lies outside [-p, p] exactly when a^2 + b^2 > 1. */
  lemma OutsideRoot(a: real, p: real, b: real)
    requires p >= 0.0 && Sq(p) == 1.0 - Sq(b)
    ensures (a > p || -a > p) <==> Sq(a) + Sq(b) > 1.0
  {
    SqNegate(a);
    if a >= 0.0 {
      SquareMonotone(a, p);
    } else {
      SquareMonotone(-a, p);
    }
  }

  /**
   * The same comparison for a coordinate against the boundary points
   * centre +- axis * p.
   */
  lemma OutsideScaledRoot(coord: real, centre: real, axis: real, p: real, b: real)
    requires axis > 0.0 && p >= 0.0 && Sq(p) == 1.0 - Sq(b)
    ensures (coord < -axis * p + centre || coord > axis * p + centre) <==>
            Sq((coord - centre) / axis) + Sq(b) > 1.0
  {
    var d := coord - centre;
    DivCompare(d, p, axis);
    DivCompare(d, -p, axis);
    OutsideRoot(d / axis, p, b);
  }

  /** Comparing x with the right and left boundary points at height y. */
  lemma BeyondXBoundaries(ap: Aperture, sqrt: real -> real, x: real, y: real)
    requires ValidAperture(ap) && IsSqrt(sqrt) && WithinY(ap, y)
    ensures (x < XValueNegative(ap, sqrt, y) || x > XValuePositive(ap, sqrt, y)) <==> Level(ap, x, y) > 1.0
  {
    RadicandAtYSign(ap, y);
    var p := sqrt(RadicandAtY(ap, y));
    OutsideScaledRoot(x, ap.cx, ap.horizontalAxis, p, NormY(ap, y));
  }

  /** Comparing y with the lower and upper boundary points above x. */
  lemma BeyondYBoundaries(ap: Aperture, sqrt: real -> real, x: real, y: real)
    requires ValidAperture(ap) && IsSqrt(sqrt) && WithinX(ap, x)
    ensures (y < YValueNegative(ap, sqrt, x) || y > YValuePositive(ap, sqrt, x)) <==> Level(ap, x, y) > 1.0
  {
    RadicandAtXSign(ap, x);
    var p := sqrt(RadicandAtX(ap, x));
    OutsideScaledRoot(y, ap.cy, ap.verticalAxis, p, NormX(ap, x));
  }

  /** A move of at most a quarter of the half-axis along each axis. */
  predicate ShortMove(ap: Aperture, mx: real, my: real) {
    && -ap.horizontalAxis <= 4.0 * mx <= ap.horizontalAxis
    && -ap.verticalAxis <= 4.0 * my <= ap.verticalAxis
  }

  /** A normalised offset whose square is at most 1/2 lies strictly within 3/4. */
  lemma HalfSquareBound(a: real)
    requires Sq(a) <= 0.5
    ensures -0.75 <= a <= 0.75
  {
    SqNegate(a);
    if a > 0.75 { SquareMonotone(a, 0.75); }
    if a < -0.75 { SquareMonotone(-a, 0.75); }
  }

  /** An offset within 3/4 of the half-axis, moved by at most a quarter, stays within it. */
  lemma NearCentreAfterShortMove(offset: real, axis: real, m: real)
    requires axis > 0.0 && -0.75 <= offset / axis <= 0.75 && -axis <= 4.0 * m <= axis
    ensures -axis <= offset + m <= axis
  {
    DivCompare(offset, 0.75, axis);
    DivCompare(offset, -0.75, axis);
  }

  /**
   * From a point inside a circle or ellipse, a short move lands within the
   * half-axis on at least one axis, where the source's test compares with
   * numbers: a point inside has |x - cx| / ha or |y - cy| / va at most
   * the square root of 1/2, below 3/4.
   */
  lemma ShortMoveStaysNearAxis(ap: Aperture, x: real, y: real, mx: real, my: real)
    requires ValidAperture(ap) && ap.shape.IsRound()
    requires !OutOfBounds(ap, x, y) && ShortMove(ap, mx, my)
    ensures WithinX(ap, x + mx) || WithinY(ap, y + my)
  {
    var a, b := NormX(ap, x), NormY(ap, y);
    SqNonNegative(a);
    SqNonNegative(b);
    if Sq(a) <= 0.5 {
      HalfSquareBound(a);
      NearCentreAfterShortMove(x - ap.cx, ap.horizontalAxis, mx);
    } else {
      HalfSquareBound(b);
      NearCentreAfterShortMove(y - ap.cy, ap.verticalAxis, my);
    }
  }

  /**
   * What the source's test decides: for a circle or ellipse, outside the
   * ellipse AND within the half-axis on at least one axis; a point beyond both
   * half-axes (a corner of the bounding box) is reported in bounds. For a
   * square or rectangle it is the box test.
   */
  lemma OutOfBoundsAsWrittenMeaning(ap: Aperture, sqrt: real -> real, x: real, y: real)
    requires ValidAperture(ap) && IsSqrt(sqrt)
    ensures ap.shape.IsRound() ==>
              (OutOfBoundsAsWritten(ap, sqrt, x, y) <==>
                 OutOfBounds(ap, x, y) && (WithinX(ap, x) || WithinY(ap, y)))
    ensures !ap.shape.IsRound() ==> (OutOfBoundsAsWritten(ap, sqrt, x, y) <==> OutOfBounds(ap, x, y))
  {
    if WithinY(ap, y) {
      BeyondXBoundaries(ap, sqrt, x, y);
    }
    if WithinX(ap, x) {
      BeyondYBoundaries(ap, sqrt, x, y);
    }
  }

  /**
   * The corner case: a circle of radius 100 centred at the origin and the point
   * (110, 110), outside the circle and beyond both half-axes.
   */
  lemma CornerPointReportedInBounds(sqrt: real -> real)
    requires IsSqrt(sqrt)
    ensures var ap := Aperture(Circle, 0.0, 0.0, 100.0, 100.0);
            OutOfBounds(ap, 110.0, 110.0) && !OutOfBoundsAsWritten(ap, sqrt, 110.0, 110.0)
  {
    var ap := Aperture(Circle, 0.0, 0.0, 100.0, 100.0);
    assert NormX(ap, 110.0) == 1.1 && NormY(ap, 110.0) == 1.1;
  }
}
