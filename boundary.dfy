/**
 * reinsertOnOppositeEdge: a dot that left the aperture re-enters on the other
 * side. On a circle or ellipse the position before the last move is reflected
 * through the centre; on a square or rectangle the dot enters on a random point
 * of the edge it is moving away from, the vertical or horizontal pair being
 * chosen with weights that follow the move's direction and the edge lengths.
 */
module Boundary {
  import opened Arith
  import opened Params
  import opened Geometry
  import opened Dots

  function Abs(v: real): (a: real)
    ensures a >= 0.0 && (a == v || a == -v)
  {
    if v < 0.0 then -v else v
  }

  /** (a / b) * (c / d) scaled back by b * d. */
  lemma ProductOfRatios(a: real, b: real, c: real, d: real)
    requires b != 0.0 && d != 0.0
    ensures (a / b) * (c / d) * (b * d) == a * c
  {
    assert (a / b) * b == a;
    assert (c / d) * d == c;
    assert (a / b) * (c / d) * (b * d) == ((a / b) * b) * ((c / d) * d);
  }

  /** The two edge weights of the source, before normalisation. */
  datatype EdgeWeights = EdgeWeights(onVertical: real, onHorizontal: real)

  /** |dx| + |dy|: the size of the latest move that the source divides by. */
  function MoveSize(latestXMove: real, latestYMove: real): (s: real)
    ensures s >= 0.0
    ensures s == 0.0 <==> latestXMove == 0.0 && latestYMove == 0.0
  {
    Abs(latestXMove) + Abs(latestYMove)
  }

  /** verticalAxis + horizontalAxis: the other denominator of the weights. */
  function AxisSum(ap: Aperture): (s: real)
    requires ValidAperture(ap)
    ensures s > 0.0
  {
    ap.verticalAxis + ap.horizontalAxis
  }

  /**
   * The weight of the vertical (left and right) edges is the aperture's height
   * share times the move's x share; the horizontal (top and bottom) edges get
   * the width share times the y share. Scaled by the two denominators the
   * weights are verticalAxis * |dx| and horizontalAxis * |dy|. Defined when the
   * latest move is not (0, 0); the source then divides 0 by 0.
   */
  function EdgeWeightsOf(ap: Aperture, latestXMove: real, latestYMove: real): (w: EdgeWeights)
    requires ValidAperture(ap) && MoveSize(latestXMove, latestYMove) > 0.0
    ensures w.onVertical * (AxisSum(ap) * MoveSize(latestXMove, latestYMove)) == ap.verticalAxis * Abs(latestXMove)
    ensures w.onHorizontal * (AxisSum(ap) * MoveSize(latestXMove, latestYMove)) == ap.horizontalAxis * Abs(latestYMove)
  {
    var absX, absY := Abs(latestXMove), Abs(latestYMove);
    var weightInXDirection := absX / (absX + absY);
    var weightInYDirection := absY / (absX + absY);
    var axes := ap.verticalAxis + ap.horizontalAxis;
    ProductOfRatios(ap.verticalAxis, axes, absX, absX + absY);
    ProductOfRatios(ap.horizontalAxis, axes, absY, absX + absY);
    EdgeWeights((ap.verticalAxis / axes) * weightInXDirection,
                (ap.horizontalAxis / axes) * weightInYDirection)
  }

  /**
   * The source's test for the vertical edges, with its Math.random() draw `r`:
   * the vertical weight exceeds r times the total weight. A latest move of
   * (0, 0) makes both weights NaN and the test false.
   */
  function ChooseVerticalEdge(ap: Aperture, latestXMove: real, latestYMove: real, r: real): bool
    requires ValidAperture(ap)
  {
    if MoveSize(latestXMove, latestYMove) == 0.0 then false
    else
      var w := EdgeWeightsOf(ap, latestXMove, latestYMove);
      w.onVertical > (w.onHorizontal + w.onVertical) * r
  }

  /**
   * Weights known only up to the positive scale a * t: the test
   * wv > (wh + wv) * r is the same test on the scaled weights v * x and h * y.
   */
  lemma ThresholdScaled(wv: real, wh: real, r: real, a: real, t: real, v: real, x: real, h: real, y: real)
    requires a > 0.0 && t > 0.0 && wv * (a * t) == v * x && wh * (a * t) == h * y
    ensures wv > (wh + wv) * r <==> r * (v * x + h * y) < v * x
  {
    var s := a * t;
    MulPositive(a, t);
    var c := (wh + wv) * r;
    ScaleStrict(c, wv, s);
    assert c * s == r * (wh * s + wv * s);
  }

  /** The share test for any weights that satisfy the contract of EdgeWeightsOf. */
  lemma WeightsShare(ap: Aperture, latestXMove: real, latestYMove: real, r: real, w: EdgeWeights)
    requires ValidAperture(ap) && MoveSize(latestXMove, latestYMove) > 0.0
    requires w.onVertical * (AxisSum(ap) * MoveSize(latestXMove, latestYMove)) == ap.verticalAxis * Abs(latestXMove)
    requires w.onHorizontal * (AxisSum(ap) * MoveSize(latestXMove, latestYMove)) == ap.horizontalAxis * Abs(latestYMove)
    ensures w.onVertical > (w.onHorizontal + w.onVertical) * r <==>
            r * (ap.verticalAxis * Abs(latestXMove) + ap.horizontalAxis * Abs(latestYMove)) < ap.verticalAxis * Abs(latestXMove)
  {
    ThresholdScaled(w.onVertical, w.onHorizontal, r, AxisSum(ap), MoveSize(latestXMove, latestYMove),
                    ap.verticalAxis, Abs(latestXMove), ap.horizontalAxis, Abs(latestYMove));
  }

  /**
   * The vertical edges are chosen exactly when r falls below the share
   * verticalAxis * |dx| / (verticalAxis * |dx| + horizontalAxis * |dy|) of the
   * total, so a uniform r picks them with that probability.
   */
  lemma VerticalEdgeShare(ap: Aperture, latestXMove: real, latestYMove: real, r: real)
    requires ValidAperture(ap) && MoveSize(latestXMove, latestYMove) > 0.0
    ensures var vertical := ap.verticalAxis * Abs(latestXMove);
            var horizontal := ap.horizontalAxis * Abs(latestYMove);
            ChooseVerticalEdge(ap, latestXMove, latestYMove, r) <==> r * (vertical + horizontal) < vertical
  {
    WeightsShare(ap, latestXMove, latestYMove, r, EdgeWeightsOf(ap, latestXMove, latestYMove));
  }

  /** The draws reinsertOnOppositeEdge consumes: the edge pair, then the point along the edge. */
  datatype EdgeDraw = EdgeDraw(choice: real, along: real)

  /**
   * reinsertOnOppositeEdge. Circle or ellipse: the position before the latest
   * move and the new position are symmetric about the centre. Square or
   * rectangle: the dot is put on a vertical edge (when the weighted draw says
   * so) or a horizontal edge, on the side it is moving away from: the right
   * edge exactly when it moves left, the bottom edge exactly when it moves up
   * (screen y grows downwards), at a random point along that edge. Only the
   * position changes.
   */
  function ReinsertOnOppositeEdge(ap: Aperture, d: Dot, e: EdgeDraw): (d': Dot)
    requires ValidAperture(ap)
    ensures d' == d.(x := d'.x, y := d'.y)
    ensures ap.shape.IsRound() ==>
              && d'.x + (d.x - d.latestXMove) == 2.0 * ap.cx
              && d'.y + (d.y - d.latestYMove) == 2.0 * ap.cy
    ensures !ap.shape.IsRound() && ChooseVerticalEdge(ap, d.latestXMove, d.latestYMove, e.choice) ==>
              && (d'.x == ap.cx + ap.horizontalAxis || d'.x == ap.cx - ap.horizontalAxis)
              && (d'.x == ap.cx + ap.horizontalAxis <==> d.latestXMove < 0.0)
              && (IsUniform(e.along) ==> ap.cy - ap.verticalAxis <= d'.y < ap.cy + ap.verticalAxis)
    ensures !ap.shape.IsRound() && !ChooseVerticalEdge(ap, d.latestXMove, d.latestYMove, e.choice) ==>
              && (d'.y == ap.cy + ap.verticalAxis || d'.y == ap.cy - ap.verticalAxis)
              && (d'.y == ap.cy + ap.verticalAxis <==> d.latestYMove < 0.0)
              && (IsUniform(e.along) ==> ap.cx - ap.horizontalAxis <= d'.x < ap.cx + ap.horizontalAxis)
  {
    if ap.shape.IsRound() then
      var x := d.x - d.latestXMove - ap.cx;
      var y := d.y - d.latestYMove - ap.cy;
      d.(x := -x + ap.cx, y := -y + ap.cy)
    else if ChooseVerticalEdge(ap, d.latestXMove, d.latestYMove, e.choice) then
      var y := RandomNumberBetween(ap.cy - ap.verticalAxis, ap.cy + ap.verticalAxis, e.along);
      if d.latestXMove < 0.0 then d.(x := ap.cx + ap.horizontalAxis, y := y)
      else d.(x := ap.cx - ap.horizontalAxis, y := y)
    else
      var x := RandomNumberBetween(ap.cx - ap.horizontalAxis, ap.cx + ap.horizontalAxis, e.along);
      if d.latestYMove < 0.0 then d.(y := ap.cy + ap.verticalAxis, x := x)
      else d.(y := ap.cy - ap.verticalAxis, x := x)
  }

  /** Reflecting a point through the aperture's centre keeps its ellipse level. */
  lemma ReflectionKeepsLevel(ap: Aperture, x: real, y: real)
    requires ValidAperture(ap)
    ensures Level(ap, 2.0 * ap.cx - x, 2.0 * ap.cy - y) == Level(ap, x, y)
  {
    assert NormX(ap, 2.0 * ap.cx - x) == -NormX(ap, x);
    assert NormY(ap, 2.0 * ap.cy - y) == -NormY(ap, y);
    SqNegate(NormX(ap, x));
    SqNegate(NormY(ap, y));
  }

  /**
   * A reinserted dot is inside the aperture: always on a square or rectangle
   * (edges included); on a circle or ellipse whenever the position before the
   * latest move was inside, the reflection being at the same level.
   */
  lemma OppositeEdgeInAperture(ap: Aperture, d: Dot, e: EdgeDraw)
    requires ValidAperture(ap) && IsUniform(e.along)
    requires ap.shape.IsRound() ==> !OutOfBounds(ap, d.x - d.latestXMove, d.y - d.latestYMove)
    ensures var d' := ReinsertOnOppositeEdge(ap, d, e);
            && !OutOfBounds(ap, d'.x, d'.y)
            && (ap.shape.IsRound() ==>
                  Level(ap, d'.x, d'.y) == Level(ap, d.x - d.latestXMove, d.y - d.latestYMove))
  {
    var d' := ReinsertOnOppositeEdge(ap, d, e);
    if ap.shape.IsRound() {
      ReflectionKeepsLevel(ap, d.x - d.latestXMove, d.y - d.latestYMove);
      assert d'.x == 2.0 * ap.cx - (d.x - d.latestXMove);
      assert d'.y == 2.0 * ap.cy - (d.y - d.latestYMove);
    }
  }

  /**
   * The worked example of the source's comment: an aperture 200 wide and 100
   * high and a move of (3, 4) give the weights 1/7 and 8/21, so the vertical
   * edges are taken with probability 3/11.
   */
  lemma WorkedExample(r: real)
    ensures var ap := Aperture(Rectangle, 0.0, 0.0, 100.0, 50.0);
            && EdgeWeightsOf(ap, 3.0, 4.0) == EdgeWeights(1.0 / 7.0, 8.0 / 21.0)
            && (ChooseVerticalEdge(ap, 3.0, 4.0, r) <==> r < 3.0 / 11.0)
  {
    var ap := Aperture(Rectangle, 0.0, 0.0, 100.0, 50.0);
    VerticalEdgeShare(ap, 3.0, 4.0, r);
  }
}
