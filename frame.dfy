/**
 * One animation frame: updateDots advances to the next dot set and, dot by
 * dot, applies the motion its update type calls for, ages it, resamples it
 * when its life has ended, and brings it back when it has left the aperture.
 */
module Frame {
  import opened Arith
  import opened Params
  import opened Geometry
  import opened Dots
  import opened Boundary
  import opened DotSets

  /**
   * The draws one dot consumes in one frame: the coherence coin of the mixed
   * types, the random-walk angle, and one draw for each place that can place
   * the dot anew (its random position, the end of its life, reinsertion).
   */
  datatype DotDraws = DotDraws(
    coin: real,
    walk: Direction,
    position: LocationDraw,
    lifeReset: LocationDraw,
    reinsert: LocationDraw,
    edge: EdgeDraw)

  predicate ValidDotDraws(dr: DotDraws) {
    && IsUniform(dr.coin) && IsUnit(dr.walk)
    && ValidLocationDraw(dr.position) && ValidLocationDraw(dr.lifeReset) && ValidLocationDraw(dr.reinsert)
    && IsUniform(dr.edge.choice) && IsUniform(dr.edge.along)
  }

  /** The types that take the coherent step this frame: constant direction, or a mixed type whose coin fell below the coherence. */
  predicate TakesCoherentStep(c: Config, t: UpdateType, coin: real) {
    t == ConstantDirection || (t.IsMixed() && coin < c.coherence)
  }

  /**
   * The motion part of updateDots. Constant-direction dots, and mixed dots
   * whose coin fell below the coherence, take the coherent step; the others
   * are resampled anywhere (random position), take a fresh step of
   * moveDistance in a random direction (random walk) or take their own
   * alternate step (random direction); a dot with an empty type stays put.
   * Every step is recorded as the latest move. Type, steps and life counter
   * are untouched.
   */
  function Dispatch(c: Config, ap: Aperture, d: Dot, dr: DotDraws): (d': Dot)
    ensures d'.(x := d.x, y := d.y, latestXMove := d.latestXMove, latestYMove := d.latestYMove) == d
    ensures TakesCoherentStep(c, d.updateType, dr.coin) ==> MovedBy(d, d', d.vx, d.vy)
    ensures (d.updateType == RandomPosition
             || (d.updateType == ConstantOrRandomPosition && !(dr.coin < c.coherence))) ==>
              d' == ResetLocation(ap, d, dr.position)
    ensures (d.updateType == RandomWalk
             || (d.updateType == ConstantOrRandomWalk && !(dr.coin < c.coherence))) ==>
              && MovedBy(d, d', dr.walk.cos * c.moveDistance, -dr.walk.sin * c.moveDistance)
              && (IsUnit(dr.walk) ==> Sq(d'.latestXMove) + Sq(d'.latestYMove) == Sq(c.moveDistance))
    ensures (d.updateType == RandomDirection
             || (d.updateType == ConstantOrRandomDirection && !(dr.coin < c.coherence))) ==>
              MovedBy(d, d', d.vx2, d.vy2)
    ensures d.updateType == Unassigned ==> d' == d
  {
    match d.updateType
    case Unassigned => d
    case ConstantDirection => ConstantDirectionUpdate(d)
    case RandomPosition => ResetLocation(ap, d, dr.position)
    case RandomWalk => RandomWalkUpdate(d, c.moveDistance, dr.walk)
    case RandomDirection => RandomDirectionUpdate(d)
    case ConstantOrRandomPosition =>
      if dr.coin < c.coherence then ConstantDirectionUpdate(d) else ResetLocation(ap, d, dr.position)
    case ConstantOrRandomWalk =>
      if dr.coin < c.coherence then ConstantDirectionUpdate(d) else RandomWalkUpdate(d, c.moveDistance, dr.walk)
    case ConstantOrRandomDirection =>
      if dr.coin < c.coherence then ConstantDirectionUpdate(d) else RandomDirectionUpdate(d)
  }

  /**
   * The reinsertion of a dot found outside: resampled anywhere (type 1), put
   * on the opposite edge (type 2), or, for any other code, left where it is.
   * Only the position changes.
   */
  function Reinsert(c: Config, ap: Aperture, d: Dot, dr: DotDraws): (d': Dot)
    requires ValidAperture(ap)
    ensures d' == d.(x := d'.x, y := d'.y)
    ensures c.reinsertType != 1 && c.reinsertType != 2 ==> d' == d
  {
    if c.reinsertType == 1 then ResetLocation(ap, d, dr.reinsert)
    else if c.reinsertType == 2 then ReinsertOnOppositeEdge(ap, d, dr.edge)
    else d
  }

  /**
   * The first part of updateDots' loop for one dot: move, age, and resample
   * if its life ended. What follows is the out-of-bounds check.
   */
  function Settled(c: Config, ap: Aperture, d: Dot, dr: DotDraws): (d': Dot)
    ensures d'.(x := d.x, y := d.y, latestXMove := d.latestXMove, latestYMove := d.latestYMove,
                lifeCount := d.lifeCount) == d
  {
    var moved := Dispatch(c, ap, d, dr);
    var verdict := LifeEnded(c.dotLife, moved.(lifeCount := moved.lifeCount + 1));
    if verdict.ended then ResetLocation(ap, verdict.dot, dr.lifeReset) else verdict.dot
  }

  /**
   * The body of updateDots' loop for one dot, as the source runs it: move,
   * age, resample if its life ended, and reinsert if the source's
   * outOfBounds, NaN comparisons included, reports it outside. Type and steps
   * are kept.
   */
  function StepDot(c: Config, ap: Aperture, sqrt: real -> real, d: Dot, dr: DotDraws): (d': Dot)
    requires ValidAperture(ap) && IsSqrt(sqrt)
    ensures d'.(x := d.x, y := d.y, latestXMove := d.latestXMove, latestYMove := d.latestYMove,
                lifeCount := d.lifeCount) == d
  {
    var live := Settled(c, ap, d, dr);
    if OutOfBoundsAsWritten(ap, sqrt, live.x, live.y) then Reinsert(c, ap, live, dr) else live
  }

  /** The same step with the out-of-bounds test evidently meant: outside the ellipse or box. */
  function StepDotIntended(c: Config, ap: Aperture, d: Dot, dr: DotDraws): (d': Dot)
    requires ValidAperture(ap)
    ensures d'.(x := d.x, y := d.y, latestXMove := d.latestXMove, latestYMove := d.latestYMove,
                lifeCount := d.lifeCount) == d
  {
    var live := Settled(c, ap, d, dr);
    if OutOfBounds(ap, live.x, live.y) then Reinsert(c, ap, live, dr) else live
  }

  /** A dot after successive frames of a one-set run, one draw per frame; type and steps are kept. */
  function Frames(c: Config, ap: Aperture, sqrt: real -> real, d: Dot, draws: seq<DotDraws>): (d': Dot)
    requires ValidAperture(ap) && IsSqrt(sqrt)
    ensures d'.updateType == d.updateType && d'.vx == d.vx && d'.vy == d.vy
    ensures d'.vx2 == d.vx2 && d'.vy2 == d.vy2
    decreases |draws|
  {
    if |draws| == 0 then d
    else StepDot(c, ap, sqrt, Frames(c, ap, sqrt, d, draws[..|draws| - 1]), draws[|draws| - 1])
  }

  /**
   * Constant-direction motion with infinite life: k steps of (vx, vy), the
   * life counter pinned at 0. Type and steps are kept, and a step pointing
   * away from the centre on an axis never brings the dot back along it.
   */
  function Drift(d: Dot, k: nat): (d': Dot)
    ensures d'.updateType == d.updateType && d'.vx == d.vx && d'.vy == d.vy
    ensures d.vx >= 0.0 ==> d'.x >= d.x
    ensures d.vy >= 0.0 ==> d'.y >= d.y
  {
    if k == 0 then d else ConstantDirectionUpdate(Drift(d, k - 1)).(lifeCount := 0)
  }

  /**
   * The source's step and the intended one agree for a square or rectangle,
   * and for a circle or ellipse whenever the motion leaves the dot inside or
   * within the half-axis on one axis, where every boundary value is a number.
   */
  lemma StepAgreesWithIntended(c: Config, ap: Aperture, sqrt: real -> real, d: Dot, dr: DotDraws)
    requires ValidAperture(ap) && IsSqrt(sqrt) && ValidLocationDraw(dr.lifeReset)
    requires ap.shape.IsRound() ==>
               var m := Dispatch(c, ap, d, dr);
               !OutOfBounds(ap, m.x, m.y) || WithinX(ap, m.x) || WithinY(ap, m.y)
    ensures StepDot(c, ap, sqrt, d, dr) == StepDotIntended(c, ap, d, dr)
  {
    var moved := Dispatch(c, ap, d, dr);
    var verdict := LifeEnded(c.dotLife, moved.(lifeCount := moved.lifeCount + 1));
    var live := Settled(c, ap, d, dr);
    OutOfBoundsAsWrittenMeaning(ap, sqrt, live.x, live.y);
    if verdict.ended {
      ResetLocationInAperture(ap, verdict.dot, dr.lifeReset);
    }
  }

  /** The circle of radius 100 at the origin. */
  function CornerCircle(): Aperture { Aperture(Circle, 0.0, 0.0, 100.0, 100.0) }

  /**
   * One set of one dot in that circle, variant 1 with every dot coherent,
   * infinite life, reinsertion on the opposite edge, and a coherent jump of
   * (120, 160): moveDistance 200 along (cos, sin) = (0.6, -0.8).
   */
  function CornerConfig(): Config {
    Config(1, 1, Direction(0.6, -0.8), 1.0, -1, 200.0, 200.0, 200.0, 0.0, 0.0, 1, Circle, 2)
  }

  /** The start-up draw that places the dot at the centre: rho 0. */
  function CornerDraw(): InitDraw {
    InitDraw(0.0, LocationDraw(0.0, 0.0, Direction(1.0, 0.0), 0.0), Direction(1.0, 0.0))
  }

  /** A constant-direction dot at the centre whose step is (120, 160). */
  function CornerDot(): Dot { Dot(0.0, 0.0, 120.0, 160.0, 0.0, 0.0, 0.0, 0.0, 0, ConstantDirection) }

  /** CornerDot is the dot start-up builds for CornerConfig from CornerDraw. */
  lemma CornerStart()
    ensures ValidConfig(CornerConfig()) && ValidInitDraw(CornerDraw())
    ensures InitializeApertureParameters(CornerConfig()) == CornerCircle()
    ensures InitDot(CornerConfig(), CornerCircle(), 0, CornerDraw()) == CornerDot()
  {
    assert InitialLifeCount(-1, 0.0) == 0;
  }

  /**
   * With the intended test and reinsertion on the opposite edge, a dot found
   * outside a circle or ellipse after its motion is reflected through the
   * centre from where its last step started.
   */
  lemma IntendedReflects(c: Config, ap: Aperture, d: Dot, dr: DotDraws)
    requires ValidAperture(ap) && ap.shape.IsRound() && c.reinsertType == 2
    requires var live := Settled(c, ap, d, dr); OutOfBounds(ap, live.x, live.y)
    ensures var live := Settled(c, ap, d, dr);
            var d' := StepDotIntended(c, ap, d, dr);
            d'.x == 2.0 * ap.cx - (live.x - live.latestXMove) && d'.y == 2.0 * ap.cy - (live.y - live.latestYMove)
  {}

  /**
   * A constant-direction dot with infinite life whose step carries it beyond
   * both half-axes of a circle or ellipse is not seen by the source's test:
   * it is moved and aged, and never reinserted.
   */
  lemma UnseenDotDrifts(c: Config, ap: Aperture, sqrt: real -> real, d: Dot, dr: DotDraws)
    requires ValidAperture(ap) && IsSqrt(sqrt) && ap.shape.IsRound() && c.dotLife < 0
    requires d.updateType == ConstantDirection
    requires !WithinX(ap, d.x + d.vx) && !WithinY(ap, d.y + d.vy)
    ensures StepDot(c, ap, sqrt, d, dr) == ConstantDirectionUpdate(d).(lifeCount := 0)
  {
    var live := Settled(c, ap, d, dr);
    assert live == ConstantDirectionUpdate(d).(lifeCount := 0);
    OutOfBoundsAsWrittenMeaning(ap, sqrt, live.x, live.y);
  }

  /** The last of several frames, for a dot UnseenDotDrifts applies to after the others. */
  lemma UnseenFrame(c: Config, ap: Aperture, sqrt: real -> real, d: Dot, draws: seq<DotDraws>, before: Dot)
    requires ValidAperture(ap) && IsSqrt(sqrt) && ap.shape.IsRound() && c.dotLife < 0 && |draws| > 0
    requires before == Frames(c, ap, sqrt, d, draws[..|draws| - 1])
    requires before.updateType == ConstantDirection
    requires !WithinX(ap, before.x + before.vx) && !WithinY(ap, before.y + before.vy)
    ensures Frames(c, ap, sqrt, d, draws) == ConstantDirectionUpdate(before).(lifeCount := 0)
  {
    var last := draws[|draws| - 1];
    assert Frames(c, ap, sqrt, d, draws) == StepDot(c, ap, sqrt, before, last);
    UnseenDotDrifts(c, ap, sqrt, before, last);
  }

  /**
   * A dot at or beyond the centre on both axes, of constant direction with
   * infinite life, whose step is longer than the half-axis on both axes and
   * points away from the centre, is never reinserted by the source's step:
   * frame after frame it only drifts by its step.
   */
  lemma {:induction false} UnseenDotDriftsAway(c: Config, ap: Aperture, sqrt: real -> real, d: Dot,
                                               draws: seq<DotDraws>)
    requires ValidAperture(ap) && IsSqrt(sqrt) && ap.shape.IsRound() && c.dotLife < 0
    requires d.updateType == ConstantDirection && d.x >= ap.cx && d.y >= ap.cy
    requires d.vx > ap.horizontalAxis && d.vy > ap.verticalAxis
    ensures Frames(c, ap, sqrt, d, draws) == Drift(d, |draws|)
    decreases |draws|
  {
    if |draws| > 0 {
      var prefix := draws[..|draws| - 1];
      UnseenDotDriftsAway(c, ap, sqrt, d, prefix);
      UnseenFrame(c, ap, sqrt, d, draws, Drift(d, |prefix|));
    }
  }

  /**
   * The CornerStart dot drifts along the ray through (120, 160), outside the
   * circle from the first step on.
   */
  lemma {:induction false} CornerDrift(k: nat)
    ensures var d := Drift(CornerDot(), k);
            && d.x == 120.0 * (k as real) && d.y == 160.0 * (k as real)
            && (k >= 1 ==> OutOfBounds(CornerCircle(), d.x, d.y))
  {
    CornerRay(k);
    if k >= 1 {
      var d := Drift(CornerDot(), k);
      CornerRayOutside(d.x, d.y, k as real);
    }
  }

  lemma {:induction false} CornerRay(k: nat)
    ensures Drift(CornerDot(), k).x == 120.0 * (k as real) && Drift(CornerDot(), k).y == 160.0 * (k as real)
  {
    if k > 0 {
      CornerRay(k - 1);
    }
  }

  /** From the first frame on, the points (120 k, 160 k) lie outside the circle. */
  lemma CornerRayOutside(x: real, y: real, k: real)
    requires k >= 1.0 && x == 120.0 * k && y == 160.0 * k
    ensures OutOfBounds(CornerCircle(), x, y)
  {
    var ap := CornerCircle();
    assert NormX(ap, x) == 1.2 * k;
    SquareMonotone(1.2 * k, 1.0);
    SqNonNegative(NormY(ap, y));
  }

  /**
   * The corner escape of the source's step: the CornerStart dot is at
   * (120 k, 160 k) after k frames, and from the first frame on it is outside
   * the circle, never reinserted.
   */
  lemma CornerEscape(sqrt: real -> real, draws: seq<DotDraws>)
    requires IsSqrt(sqrt)
    ensures var d := Frames(CornerConfig(), CornerCircle(), sqrt, CornerDot(), draws);
            && d.x == 120.0 * (|draws| as real) && d.y == 160.0 * (|draws| as real)
            && (|draws| >= 1 ==> OutOfBounds(CornerCircle(), d.x, d.y))
  {
    UnseenDotDriftsAway(CornerConfig(), CornerCircle(), sqrt, CornerDot(), draws);
    CornerDrift(|draws|);
  }

  /**
   * With the intended test and reinsertion on the opposite edge, a
   * constant-direction dot at the centre whose step leaves a circle or
   * ellipse is reflected back to the centre.
   */
  lemma CentreDotReturnsWhenIntended(c: Config, ap: Aperture, d: Dot, dr: DotDraws)
    requires ValidAperture(ap) && ap.shape.IsRound() && c.reinsertType == 2 && c.dotLife < 0
    requires d.updateType == ConstantDirection && d.x == ap.cx && d.y == ap.cy
    requires OutOfBounds(ap, d.x + d.vx, d.y + d.vy)
    ensures var intended := StepDotIntended(c, ap, d, dr); intended.x == ap.cx && intended.y == ap.cy
  {
    assert Settled(c, ap, d, dr) == ConstantDirectionUpdate(d).(lifeCount := 0);
    IntendedReflects(c, ap, d, dr);
  }

  /** The CornerStart dot under the intended step: reflected back to the centre. */
  lemma CornerReturnsWhenIntended(dr: DotDraws)
    ensures var intended := StepDotIntended(CornerConfig(), CornerCircle(), CornerDot(), dr);
            intended.x == 0.0 && intended.y == 0.0
  {
    CornerRayOutside(120.0, 160.0, 1.0);
    CentreDotReturnsWhenIntended(CornerConfig(), CornerCircle(), CornerDot(), dr);
  }

  /** The motion statements of updateDots' loop: the update-type tests in the source's order. */
  method MoveDot(c: Config, ap: Aperture, d: Dot, dr: DotDraws) returns (dot: Dot)
    ensures dot == Dispatch(c, ap, d, dr)
  {
    dot := d;
    if dot.updateType == ConstantDirection {
      dot := ConstantDirectionUpdate(dot);
    } else if dot.updateType == RandomPosition {
      dot := ResetLocation(ap, dot, dr.position);
    } else if dot.updateType == RandomWalk {
      dot := RandomWalkUpdate(dot, c.moveDistance, dr.walk);
    } else if dot.updateType == RandomDirection {
      dot := RandomDirectionUpdate(dot);
    } else if dot.updateType == ConstantOrRandomPosition {
      if dr.coin < c.coherence {
        dot := ConstantDirectionUpdate(dot);
      } else {
        dot := ResetLocation(ap, dot, dr.position);
      }
    } else if dot.updateType == ConstantOrRandomWalk {
      if dr.coin < c.coherence {
        dot := ConstantDirectionUpdate(dot);
      } else {
        dot := RandomWalkUpdate(dot, c.moveDistance, dr.walk);
      }
    } else if dot.updateType == ConstantOrRandomDirection {
      if dr.coin < c.coherence {
        dot := ConstantDirectionUpdate(dot);
      } else {
        dot := RandomDirectionUpdate(dot);
      }
    }
  }

  /** The statements of updateDots' loop for one dot: move, age, resample, reinsert. */
  method UpdateDot(c: Config, ap: Aperture, sqrt: real -> real, d: Dot, dr: DotDraws) returns (dot: Dot)
    requires ValidAperture(ap) && IsSqrt(sqrt)
    ensures dot == StepDot(c, ap, sqrt, d, dr)
  {
    dot := MoveDot(c, ap, d, dr);
    dot := dot.(lifeCount := dot.lifeCount + 1);
    var verdict := LifeEnded(c.dotLife, dot);
    dot := verdict.dot;
    if verdict.ended {
      dot := ResetLocation(ap, dot, dr.lifeReset);
    }
    if OutOfBoundsAsWritten(ap, sqrt, dot.x, dot.y) {
      if c.reinsertType == 1 {
        dot := ResetLocation(ap, dot, dr.reinsert);
      } else if c.reinsertType == 2 {
        dot := ReinsertOnOppositeEdge(ap, dot, dr.edge);
      }
    }
  }

  /**
   * After the motion, a dot that was inside is either still inside or its
   * position minus its latest move is where it was: every policy that can
   * leave the aperture does so by a recorded step.
   */
  lemma DispatchUndo(c: Config, ap: Aperture, d: Dot, dr: DotDraws)
    requires ValidAperture(ap) && ValidLocationDraw(dr.position)
    requires !OutOfBounds(ap, d.x, d.y)
    ensures var m := Dispatch(c, ap, d, dr);
            !OutOfBounds(ap, m.x, m.y) || (m.x - m.latestXMove == d.x && m.y - m.latestYMove == d.y)
  {
    var m := Dispatch(c, ap, d, dr);
    if d.updateType == RandomPosition
       || (d.updateType == ConstantOrRandomPosition && !(dr.coin < c.coherence)) {
      ResetLocationInAperture(ap, d, dr.position);
    }
  }

  /**
   * With the intended test, a dot inside the aperture is inside again after
   * its frame, as long as reinsertion is switched on (type 1 or 2) and the
   * draws are valid: a resampled dot lands inside, and a dot that stepped out
   * is resampled or reflected back from where it came.
   */
  lemma IntendedStepKeepsInAperture(c: Config, ap: Aperture, d: Dot, dr: DotDraws)
    requires ValidAperture(ap) && ValidDotDraws(dr)
    requires c.reinsertType == 1 || c.reinsertType == 2
    requires !OutOfBounds(ap, d.x, d.y)
    ensures var d' := StepDotIntended(c, ap, d, dr); !OutOfBounds(ap, d'.x, d'.y)
  {
    var moved := Dispatch(c, ap, d, dr);
    DispatchUndo(c, ap, d, dr);
    var verdict := LifeEnded(c.dotLife, moved.(lifeCount := moved.lifeCount + 1));
    var live := Settled(c, ap, d, dr);
    if verdict.ended {
      ResetLocationInAperture(ap, verdict.dot, dr.lifeReset);
    } else if OutOfBounds(ap, live.x, live.y) {
      assert live.x - live.latestXMove == d.x && live.y - live.latestYMove == d.y;
      if c.reinsertType == 1 {
        ResetLocationInAperture(ap, live, dr.reinsert);
      } else {
        OppositeEdgeInAperture(ap, live, dr.edge);
      }
    }
  }

  /**
   * Every step a dot can take this frame is short: its coherent step, its
   * alternate step and a random-walk step of moveDistance in any direction
   * are at most a quarter of the half-axis along each axis.
   */
  predicate ShortSteps(c: Config, ap: Aperture, d: Dot) {
    && ShortMove(ap, d.vx, d.vy)
    && ShortMove(ap, d.vx2, d.vy2)
    && ShortMove(ap, c.moveDistance, c.moveDistance)
  }

  /** A random-walk step of a short moveDistance is short, whatever the angle. */
  lemma WalkStepIsShort(c: Config, ap: Aperture, theta: Direction)
    requires IsUnit(theta) && ShortMove(ap, c.moveDistance, c.moveDistance)
    ensures ShortMove(ap, theta.cos * c.moveDistance, -theta.sin * c.moveDistance)
  {
    SqNonNegative(theta.cos);
    SqNonNegative(theta.sin);
    SqAtMostOne(theta.cos);
    SqAtMostOne(theta.sin);
    BoundedProduct(theta.cos, c.moveDistance, ap.horizontalAxis / 4.0);
    BoundedProduct(theta.sin, c.moveDistance, ap.verticalAxis / 4.0);
  }

  /**
   * The steps start-up assigns are short when moveDistance is: the coherent
   * jump and the alternate step are steps of moveDistance along unit
   * directions, and an unused step is zero.
   */
  lemma AssignMotionShort(c: Config, ap: Aperture, i: int, d: Dot, theta: Direction)
    requires IsUnit(c.coherentDirection) && IsUnit(theta) && ShortMove(ap, c.moveDistance, c.moveDistance)
    requires ShortMove(ap, d.vx, d.vy) && ShortMove(ap, d.vx2, d.vy2)
    ensures ShortSteps(c, ap, AssignMotion(c, i, d, theta))
  {
    var d' := AssignMotion(c, i, d, theta);
    var jx, jy := CalculateCoherentJumpSizeX(c), CalculateCoherentJumpSizeY(c);
    var ax, ay := theta.cos * c.moveDistance, -theta.sin * c.moveDistance;
    if (1 <= c.rdk <= 3 && IsCoherentIndex(c, i)) || c.rdk == 4 || c.rdk == 5 {
      assert d'.vx == jx && d'.vy == jy && d'.vx2 == d.vx2 && d'.vy2 == d.vy2;
      CoherentJumpIsShort(c, ap);
    } else if c.rdk == 3 {
      assert d'.vx == d.vx && d'.vy == d.vy && d'.vx2 == ax && d'.vy2 == ay;
      WalkStepIsShort(c, ap, theta);
    } else if c.rdk == 6 {
      assert d'.vx == jx && d'.vy == jy && d'.vx2 == ax && d'.vy2 == ay;
      CoherentJumpIsShort(c, ap);
      WalkStepIsShort(c, ap, theta);
    } else {
      assert d'.vx == d.vx && d'.vy == d.vy && d'.vx2 == d.vx2 && d'.vy2 == d.vy2;
    }
  }

  /** The coherent jump of a short moveDistance is short. */
  lemma CoherentJumpIsShort(c: Config, ap: Aperture)
    requires IsUnit(c.coherentDirection) && ShortMove(ap, c.moveDistance, c.moveDistance)
    ensures ShortMove(ap, CalculateCoherentJumpSizeX(c), CalculateCoherentJumpSizeY(c))
  {
    WalkStepIsShort(c, ap, c.coherentDirection);
    assert CalculateCoherentJumpSizeX(c) == c.coherentDirection.cos * c.moveDistance;
    assert CalculateCoherentJumpSizeY(c) == -c.coherentDirection.sin * c.moveDistance;
  }

  /** Every dot start-up builds has short steps when moveDistance is short. */
  lemma InitDotShortSteps(c: Config, ap: Aperture, i: int, dr: InitDraw)
    requires IsUnit(c.coherentDirection) && IsUnit(dr.alternate) && ShortMove(ap, c.moveDistance, c.moveDistance)
    ensures ShortSteps(c, ap, InitDot(c, ap, i, dr))
  {
    var blank := BlankDot(InitialLifeCount(c.dotLife, dr.life));
    AssignMotionShort(c, ap, i, ResetLocation(ap, blank, dr.location), dr.alternate);
  }

  /** With valid draws and a short moveDistance, every dot of a new set has short steps. */
  lemma NewSetShortSteps(c: Config, ap: Aperture, draws: seq<InitDraw>)
    requires IsUnit(c.coherentDirection) && ShortMove(ap, c.moveDistance, c.moveDistance)
    requires forall i :: 0 <= i < |draws| ==> ValidInitDraw(draws[i])
    ensures forall i :: 0 <= i < |draws| ==> ShortSteps(c, ap, InitDots(c, ap, draws)[i])
  {
    forall i | 0 <= i < |draws| {
      InitDotShortSteps(c, ap, i, draws[i]);
    }
  }

  /** A type that moves by a step (not resampled, not empty) moves by a short one. */
  lemma DispatchStepIsShort(c: Config, ap: Aperture, d: Dot, dr: DotDraws)
    requires IsUnit(dr.walk) && ShortSteps(c, ap, d) && d.updateType != Unassigned
    requires !(d.updateType == RandomPosition
               || (d.updateType == ConstantOrRandomPosition && !(dr.coin < c.coherence)))
    ensures var m := Dispatch(c, ap, d, dr);
            MovedBy(d, m, m.latestXMove, m.latestYMove) && ShortMove(ap, m.latestXMove, m.latestYMove)
  {
    if d.updateType == RandomWalk || (d.updateType == ConstantOrRandomWalk && !(dr.coin < c.coherence)) {
      WalkStepIsShort(c, ap, dr.walk);
    }
  }

  /** A short recorded move from inside a circle or ellipse lands within the half-axis on one axis. */
  lemma MovedNearAxis(ap: Aperture, d: Dot, m: Dot)
    requires ValidAperture(ap) && ap.shape.IsRound() && !OutOfBounds(ap, d.x, d.y)
    requires MovedBy(d, m, m.latestXMove, m.latestYMove) && ShortMove(ap, m.latestXMove, m.latestYMove)
    ensures WithinX(ap, m.x) || WithinY(ap, m.y)
  {
    ShortMoveStaysNearAxis(ap, d.x, d.y, m.latestXMove, m.latestYMove);
  }

  /**
   * From inside a circle or ellipse, a dot with short steps ends its motion
   * inside or within the half-axis on one axis.
   */
  lemma ShortStepsStayNearAxis(c: Config, ap: Aperture, d: Dot, dr: DotDraws)
    requires ValidAperture(ap) && ap.shape.IsRound() && ValidDotDraws(dr)
    requires !OutOfBounds(ap, d.x, d.y) && ShortSteps(c, ap, d)
    ensures var m := Dispatch(c, ap, d, dr);
            !OutOfBounds(ap, m.x, m.y) || WithinX(ap, m.x) || WithinY(ap, m.y)
  {
    if d.updateType == RandomPosition
       || (d.updateType == ConstantOrRandomPosition && !(dr.coin < c.coherence)) {
      ResetLocationInAperture(ap, d, dr.position);
    } else if d.updateType != Unassigned {
      DispatchStepIsShort(c, ap, d, dr);
      MovedNearAxis(ap, d, Dispatch(c, ap, d, dr));
    }
  }

  /**
   * The source's step keeps a dot inside the aperture, with reinsertion on
   * and valid draws, for a square or rectangle, and for a circle or ellipse
   * when the dot's steps are short; a longer step can carry a dot beyond both
   * half-axes, where the source does not see it (CornerEscape).
   */
  lemma StepKeepsInAperture(c: Config, ap: Aperture, sqrt: real -> real, d: Dot, dr: DotDraws)
    requires ValidAperture(ap) && IsSqrt(sqrt) && ValidDotDraws(dr)
    requires c.reinsertType == 1 || c.reinsertType == 2
    requires !OutOfBounds(ap, d.x, d.y)
    requires ap.shape.IsRound() ==> ShortSteps(c, ap, d)
    ensures var d' := StepDot(c, ap, sqrt, d, dr); !OutOfBounds(ap, d'.x, d'.y)
  {
    if ap.shape.IsRound() {
      ShortStepsStayNearAxis(c, ap, d, dr);
    }
    StepAgreesWithIntended(c, ap, sqrt, d, dr);
    IntendedStepKeepsInAperture(c, ap, d, dr);
  }

  /**
   * The life counter stays in range over a frame, whatever else happens to
   * the dot.
   */
  lemma StepKeepsLifeRange(c: Config, ap: Aperture, sqrt: real -> real, d: Dot, dr: DotDraws)
    requires ValidAperture(ap) && IsSqrt(sqrt) && LifeInRange(c.dotLife, d.lifeCount)
    ensures LifeInRange(c.dotLife, StepDot(c, ap, sqrt, d, dr).lifeCount)
  {
    var moved := Dispatch(c, ap, d, dr);
    AgeingKeepsLifeInRange(c.dotLife, moved);
  }

  /**
   * A dot in the last frame of a finite life is resampled: it ends the frame
   * at the position drawn for the end of its life, with its counter back at 0,
   * whatever its motion did.
   */
  lemma ExpiredDotIsResampled(c: Config, ap: Aperture, sqrt: real -> real, d: Dot, dr: DotDraws)
    requires ValidAperture(ap) && IsSqrt(sqrt) && ValidLocationDraw(dr.lifeReset)
    requires c.dotLife > 0 && d.lifeCount == c.dotLife - 1
    ensures var d' := StepDot(c, ap, sqrt, d, dr);
            var resampled := ResetLocation(ap, d, dr.lifeReset);
            d'.x == resampled.x && d'.y == resampled.y && d'.lifeCount == 0
  {
    var moved := Dispatch(c, ap, d, dr);
    var verdict := LifeEnded(c.dotLife, moved.(lifeCount := moved.lifeCount + 1));
    ResetLocationInAperture(ap, verdict.dot, dr.lifeReset);
    OutOfBoundsAsWrittenMeaning(ap, sqrt, Settled(c, ap, d, dr).x, Settled(c, ap, d, dr).y);
  }

  /**
   * A dot whose life goes on and which the source's test sees inside after
   * its motion just moves and ages: no resample, no reinsertion.
   */
  lemma InsideDotOnlyMovesAndAges(c: Config, ap: Aperture, sqrt: real -> real, d: Dot, dr: DotDraws)
    requires ValidAperture(ap) && IsSqrt(sqrt)
    requires c.dotLife < 0 || d.lifeCount + 1 < c.dotLife
    requires var moved := Dispatch(c, ap, d, dr); !OutOfBoundsAsWritten(ap, sqrt, moved.x, moved.y)
    ensures var moved := Dispatch(c, ap, d, dr);
            StepDot(c, ap, sqrt, d, dr) == moved.(lifeCount := if c.dotLife < 0 then 0 else d.lifeCount + 1)
  {}

  /**
   * A dot whose life goes on but which the source's test sees outside after
   * its motion is handed to the reinsertion, aged, at the position its motion
   * gave it.
   */
  lemma OutsideDotIsReinserted(c: Config, ap: Aperture, sqrt: real -> real, d: Dot, dr: DotDraws)
    requires ValidAperture(ap) && IsSqrt(sqrt)
    requires c.dotLife < 0 || d.lifeCount + 1 < c.dotLife
    requires var moved := Dispatch(c, ap, d, dr); OutOfBoundsAsWritten(ap, sqrt, moved.x, moved.y)
    ensures var moved := Dispatch(c, ap, d, dr);
            StepDot(c, ap, sqrt, d, dr)
              == Reinsert(c, ap, moved.(lifeCount := if c.dotLife < 0 then 0 else d.lifeCount + 1), dr)
  {}

  /** A whole set stepped, dot i with draw i. */
  function StepAll(c: Config, ap: Aperture, sqrt: real -> real, dots: seq<Dot>, draws: seq<DotDraws>): (dots': seq<Dot>)
    requires ValidAperture(ap) && IsSqrt(sqrt) && |draws| == |dots|
    ensures |dots'| == |dots|
    ensures forall i :: 0 <= i < |dots| ==> dots'[i] == StepDot(c, ap, sqrt, dots[i], draws[i])
  {
    seq(|dots|, i requires 0 <= i < |dots| => StepDot(c, ap, sqrt, dots[i], draws[i]))
  }

  /** Every dot inside the aperture with its life counter in range. */
  predicate HealthyDots(c: Config, ap: Aperture, dots: seq<Dot>)
    requires ValidAperture(ap)
  {
    forall i :: 0 <= i < |dots| ==>
      !OutOfBounds(ap, dots[i].x, dots[i].y) && LifeInRange(c.dotLife, dots[i].lifeCount)
  }

  /**
   * A healthy set stays healthy over a frame with reinsertion on and valid
   * draws: for a square or rectangle always, for a circle or ellipse when
   * every dot's steps are short. The steps themselves do not change.
   */
  lemma StepAllKeepsHealthy(c: Config, ap: Aperture, sqrt: real -> real, dots: seq<Dot>, draws: seq<DotDraws>)
    requires ValidAperture(ap) && IsSqrt(sqrt) && |draws| == |dots|
    requires c.reinsertType == 1 || c.reinsertType == 2
    requires forall i :: 0 <= i < |draws| ==> ValidDotDraws(draws[i])
    requires ap.shape.IsRound() ==> forall i :: 0 <= i < |dots| ==> ShortSteps(c, ap, dots[i])
    requires HealthyDots(c, ap, dots)
    ensures HealthyDots(c, ap, StepAll(c, ap, sqrt, dots, draws))
  {
    forall i | 0 <= i < |dots|
      ensures var d' := StepDot(c, ap, sqrt, dots[i], draws[i]);
              !OutOfBounds(ap, d'.x, d'.y) && LifeInRange(c.dotLife, d'.lifeCount)
    {
      StepKeepsInAperture(c, ap, sqrt, dots[i], draws[i]);
      StepKeepsLifeRange(c, ap, sqrt, dots[i], draws[i]);
    }
  }

  /** A frame changes no dot's steps, so short steps stay short. */
  lemma StepAllKeepsSteps(c: Config, ap: Aperture, sqrt: real -> real, dots: seq<Dot>, draws: seq<DotDraws>)
    requires ValidAperture(ap) && IsSqrt(sqrt) && |draws| == |dots|
    ensures forall i :: 0 <= i < |dots| ==>
              var d' := StepAll(c, ap, sqrt, dots, draws)[i];
              && d'.vx == dots[i].vx && d'.vy == dots[i].vy && d'.vx2 == dots[i].vx2 && d'.vy2 == dots[i].vy2
              && (ShortSteps(c, ap, dots[i]) ==> ShortSteps(c, ap, d'))
  {}

  /** The set shown after the one at index currentSet: the next one, wrapping to 0 after the last. */
  function NextSet(currentSet: int, nSets: int): (next: int)
    ensures 0 <= currentSet < nSets ==> 0 <= next < nSets && next == (currentSet + 1) % nSets
  {
    if currentSet == nSets - 1 then 0 else currentSet + 1
  }

  /** The set shown after `frames` frames, starting from set `start`. */
  function SetAfter(start: int, nSets: int, frames: nat): int {
    if frames == 0 then start else NextSet(SetAfter(start, nSets, frames - 1), nSets)
  }

  /**
   * The sets are shown in round robin: after k frames from set `start` the
   * set (start + k) mod nSets is shown, so each set comes back every nSets
   * frames.
   */
  lemma {:induction false} SetAfterIsModular(start: int, nSets: int, frames: nat)
    requires 0 <= start < nSets
    ensures SetAfter(start, nSets, frames) == (start + frames) % nSets
  {
    if frames > 0 {
      SetAfterIsModular(start, nSets, frames - 1);
      var s := SetAfter(start, nSets, frames - 1);
      assert 0 <= s < nSets;
      ModSucc(start + frames - 1, nSets);
    }
  }

  /** updateDots' loop over the current set: each dot is stepped in place with its own draws. */
  method StepInPlace(c: Config, ap: Aperture, sqrt: real -> real, dotArray: array<Dot>, draws: seq<DotDraws>)
    requires ValidAperture(ap) && IsSqrt(sqrt) && |draws| == dotArray.Length
    modifies dotArray
    ensures dotArray[..] == StepAll(c, ap, sqrt, old(dotArray[..]), draws)
  {
    ghost var before := dotArray[..];
    var i := 0;
    while i < dotArray.Length
      invariant 0 <= i <= dotArray.Length
      invariant forall j :: 0 <= j < i ==> dotArray[j] == StepDot(c, ap, sqrt, before[j], draws[j])
      invariant forall j :: i <= j < dotArray.Length ==> dotArray[j] == before[j]
    {
      var dot := UpdateDot(c, ap, sqrt, dotArray[i], draws[i]);
      dotArray[i] := dot;
      i := i + 1;
    }
    assert dotArray[..] == StepAll(c, ap, sqrt, before, draws);
  }

  /**
   * The running program's dot state: the nSets dot arrays made at start-up
   * and the index of the set on screen.
   */
  class Engine {
    const cfg: Config
    const ap: Aperture
    const sets: seq<array<Dot>>
    const sqrt: real -> real  // Math.sqrt, known through its square
    var currentSet: int

    ghost predicate Valid()
      reads this
    {
      && ValidConfig(cfg)
      && IsSqrt(sqrt)
      && ap == InitializeApertureParameters(cfg)
      && |sets| == cfg.nSets
      && 0 <= currentSet < |sets|
      && (forall k :: 0 <= k < |sets| ==> sets[k].Length == cfg.nDots)
      && (forall k, j :: 0 <= k < j < |sets| ==> sets[k] != sets[j])
    }

    /** Every dot of every set inside the aperture, with its life counter in range. */
    ghost predicate Healthy()
      requires Valid()
      reads this, set k | 0 <= k < |sets| :: sets[k]
    {
      forall k :: 0 <= k < |sets| ==> HealthyDots(cfg, ap, sets[k][..])
    }

    /** Every dot of every set has short steps. */
    ghost predicate StepsShort()
      requires Valid()
      reads this, set k | 0 <= k < |sets| :: sets[k]
    {
      forall k, i :: 0 <= k < |sets| && 0 <= i < sets[k].Length ==> ShortSteps(cfg, ap, sets[k][i])
    }

    /**
     * Start-up: the aperture from the configuration, the sets made by
     * makeDotArray2d, set 0 current. With valid draws every dot starts
     * healthy.
     */
    constructor(c: Config, mathSqrt: real -> real, draws: seq<seq<InitDraw>>)
      requires ValidConfig(c) && IsSqrt(mathSqrt)
      requires |draws| == c.nSets && forall k :: 0 <= k < |draws| ==> |draws[k]| == c.nDots
      ensures Valid() && cfg == c && sqrt == mathSqrt && currentSet == 0
      ensures forall k :: 0 <= k < |sets| ==> fresh(sets[k])
      ensures forall k :: 0 <= k < |sets| ==> sets[k][..] == InitDots(c, ap, draws[k])
      ensures ap == InitializeApertureParameters(c)
      ensures (forall k, i :: 0 <= k < |draws| && 0 <= i < |draws[k]| ==> ValidInitDraw(draws[k][i])) ==>
                Healthy()
      ensures (&& ShortMove(ap, c.moveDistance, c.moveDistance)
               && forall k, i :: 0 <= k < |draws| && 0 <= i < |draws[k]| ==> ValidInitDraw(draws[k][i])) ==>
                StepsShort()
    {
      var aperture := InitializeApertureParameters(c);
      var rows := MakeDotArray2d(c, aperture, draws);
      var arrays: seq<array<Dot>> := [];
      var k := 0;
      while k < |rows|
        invariant 0 <= k <= |rows| && |arrays| == k
        invariant forall j :: 0 <= j < k ==> fresh(arrays[j]) && arrays[j][..] == rows[j]
        invariant forall j, l :: 0 <= j < l < k ==> arrays[j] != arrays[l]
      {
        var row := rows[k];
        var a := new Dot[|row|](i requires 0 <= i < |row| => row[i]);
        assert a[..] == row;
        arrays := arrays + [a];
        k := k + 1;
      }
      cfg := c;
      ap := aperture;
      sets := arrays;
      sqrt := mathSqrt;
      currentSet := 0;
      new;
      forall k | 0 <= k < |sets| && forall k, i :: 0 <= k < |draws| && 0 <= i < |draws[k]| ==> ValidInitDraw(draws[k][i])
        ensures HealthyDots(cfg, ap, sets[k][..])
      {
        NewSetInAperture(c, ap, draws[k]);
      }
      forall k | 0 <= k < |sets| && ShortMove(ap, c.moveDistance, c.moveDistance)
                 && forall k, i :: 0 <= k < |draws| && 0 <= i < |draws[k]| ==> ValidInitDraw(draws[k][i])
        ensures forall i :: 0 <= i < sets[k].Length ==> ShortSteps(cfg, ap, sets[k][..][i])
      {
        NewSetShortSteps(c, ap, draws[k]);
      }
    }

    /**
     * updateDots: advance to the next set and step each of its dots with its
     * draws. The new current set holds the stepped dots; every other set is
     * untouched. With reinsertion on and valid draws all sets stay healthy
     * for a square or rectangle, and for a circle or ellipse while every
     * dot's steps are short. No dot's steps change.
     */
    method UpdateDots(draws: seq<DotDraws>)
      requires Valid() && |draws| == cfg.nDots
      modifies this, sets[NextSet(currentSet, cfg.nSets)]
      ensures Valid()
      ensures currentSet == NextSet(old(currentSet), cfg.nSets)
      ensures var k := currentSet; sets[k][..] == StepAll(cfg, ap, sqrt, old(sets[k][..]), draws)
      ensures forall k :: 0 <= k < |sets| && k != currentSet ==> sets[k][..] == old(sets[k][..])
      ensures old(StepsShort()) ==> StepsShort()
      ensures (&& old(Healthy()) && (cfg.reinsertType == 1 || cfg.reinsertType == 2)
               && (forall i :: 0 <= i < |draws| ==> ValidDotDraws(draws[i]))
               && (ap.shape.IsRound() ==> old(StepsShort()))) ==> Healthy()
    {
      if currentSet == cfg.nSets - 1 {
        currentSet := 0;
      } else {
        currentSet := currentSet + 1;
      }
      assert Valid();
      ghost var before := sets[currentSet][..];
      StepInPlace(cfg, ap, sqrt, sets[currentSet], draws);
      StepAllKeepsSteps(cfg, ap, sqrt, before, draws);
      assert forall k :: 0 <= k < |sets| && k != currentSet ==> sets[k][..] == old(sets[k][..]);
      if old(Healthy()) && (cfg.reinsertType == 1 || cfg.reinsertType == 2)
         && (forall i :: 0 <= i < |draws| ==> ValidDotDraws(draws[i]))
         && (ap.shape.IsRound() ==> old(StepsShort())) {
        StepAllKeepsHealthy(cfg, ap, sqrt, before, draws);
        assert forall k :: 0 <= k < |sets| ==> HealthyDots(cfg, ap, sets[k][..]);
      }
    }
  }
}
