/**
 * The per-dot record and the primitive updates that assign its fields: the
 * four motion policies, resetLocation, the velocity setters and the life
 * counter check.
 */
module Dots {
  import opened Arith
  import opened Params
  import opened Geometry

  /** The update-type tag a dot carries for the whole run. */
  datatype UpdateType =
    | Unassigned                 // the empty tag: no variant assigned one
    | ConstantDirection
    | RandomPosition
    | RandomWalk
    | RandomDirection
    | ConstantOrRandomPosition
    | ConstantOrRandomWalk
    | ConstantOrRandomDirection
  {
    /** The three tags whose dots flip a coherence-weighted coin every frame. */
    predicate IsMixed() {
      ConstantOrRandomPosition? || ConstantOrRandomWalk? || ConstantOrRandomDirection?
    }
  }

  datatype Dot = Dot(
    x: real, y: real,                      // position
    vx: real, vy: real,                    // coherent step
    vx2: real, vy2: real,                  // the dot's own alternate step
    latestXMove: real, latestYMove: real,  // the step applied last
    lifeCount: int,                        // frames since the last resample
    updateType: UpdateType)

  /**
   * The draws resetLocation consumes. For a circle or ellipse: phi, drawn in
   * [-pi, pi) from `first` and seen through its cosine and sine, and
   * rho = `second` with its square root `rootRho`. For a square or rectangle:
   * `first` places x and `second` places y.
   */
  datatype LocationDraw = LocationDraw(first: real, second: real, phi: Direction, rootRho: real)

  predicate ValidLocationDraw(r: LocationDraw) {
    && IsUniform(r.first) && IsUniform(r.second) && IsUnit(r.phi)
    && r.rootRho >= 0.0 && r.rootRho * r.rootRho == r.second
  }

  /** resetLocation: a fresh position inside the aperture; nothing else changes. */
  function ResetLocation(ap: Aperture, d: Dot, r: LocationDraw): (d': Dot)
    ensures d'.(x := d.x, y := d.y) == d
  {
    if ap.shape.IsRound() then
      var x := r.rootRho * r.phi.cos;
      var y := r.rootRho * r.phi.sin;
      d.(x := x * ap.horizontalAxis + ap.cx, y := y * ap.verticalAxis + ap.cy)
    else
      d.(x := RandomNumberBetween(ap.cx - ap.horizontalAxis, ap.cx + ap.horizontalAxis, r.first),
         y := RandomNumberBetween(ap.cy - ap.verticalAxis, ap.cy + ap.verticalAxis, r.second))
  }

  /** A point sqrt(rho) * (cos phi, sin phi) of the unit disk has squared radius rho. */
  lemma PolarLevel(root: real, c: real, s: real)
    requires c * c + s * s == 1.0
    ensures Sq(root * c) + Sq(root * s) == Sq(root)
  {
    SqProduct(root, c);
    SqProduct(root, s);
    assert Sq(root) * Sq(c) + Sq(root) * Sq(s) == Sq(root) * (Sq(c) + Sq(s));
  }

  /**
   * A resampled position is inside the aperture: on a circle or ellipse its
   * ellipse level is the drawn rho < 1; in a square or rectangle it lies in the
   * half-open box.
   */
  lemma ResetLocationInAperture(ap: Aperture, d: Dot, r: LocationDraw)
    ensures ValidAperture(ap) && ValidLocationDraw(r) ==>
            var d' := ResetLocation(ap, d, r);
            && !OutOfBounds(ap, d'.x, d'.y)
            && (ap.shape.IsRound() ==> Level(ap, d'.x, d'.y) == r.second)
            && (!ap.shape.IsRound() ==>
                  && ap.cx - ap.horizontalAxis <= d'.x < ap.cx + ap.horizontalAxis
                  && ap.cy - ap.verticalAxis <= d'.y < ap.cy + ap.verticalAxis)
  {
    var d' := ResetLocation(ap, d, r);
    if ValidAperture(ap) && ValidLocationDraw(r) && ap.shape.IsRound() {
      var x, y := r.rootRho * r.phi.cos, r.rootRho * r.phi.sin;
      MulDivCancel(x, ap.horizontalAxis);
      MulDivCancel(y, ap.verticalAxis);
      assert NormX(ap, d'.x) == x;
      assert NormY(ap, d'.y) == y;
      PolarLevel(r.rootRho, r.phi.cos, r.phi.sin);
    }
  }

  /**
   * d' is d moved by (mx, my): the position shifted by the move, the move
   * recorded as the latest move, every other field unchanged. Undoing the
   * latest move of d' gives back the position of d.
   */
  predicate MovedBy(d: Dot, d': Dot, mx: real, my: real) {
    && d'.latestXMove == mx && d'.latestYMove == my
    && d'.x - d'.latestXMove == d.x && d'.y - d'.latestYMove == d.y
    && d'.(x := d.x, y := d.y, latestXMove := d.latestXMove, latestYMove := d.latestYMove) == d
  }

  /** constantDirectionUpdate: one coherent step. */
  function ConstantDirectionUpdate(d: Dot): (d': Dot)
    ensures MovedBy(d, d', d.vx, d.vy)
  {
    d.(x := d.x + d.vx, y := d.y + d.vy, latestXMove := d.vx, latestYMove := d.vy)
  }

  /** A step of length m in direction theta, with screen y pointing down. */
  lemma StepLength(m: real, theta: Direction)
    ensures IsUnit(theta) ==> Sq(theta.cos * m) + Sq(-theta.sin * m) == Sq(m)
  {
    if IsUnit(theta) {
      PolarLevel(m, theta.cos, theta.sin);
      assert -theta.sin * m == -(m * theta.sin);
      SqNegate(m * theta.sin);
    }
  }

  /**
   * randomWalkUpdate with the angle drawn this frame: a step of exactly
   * moveDistance in that direction.
   */
  function RandomWalkUpdate(d: Dot, moveDistance: real, theta: Direction): (d': Dot)
    ensures MovedBy(d, d', theta.cos * moveDistance, -theta.sin * moveDistance)
    ensures IsUnit(theta) ==> Sq(d'.latestXMove) + Sq(d'.latestYMove) == Sq(moveDistance)
  {
    StepLength(moveDistance, theta);
    var latestXMove := theta.cos * moveDistance;
    var latestYMove := -theta.sin * moveDistance;
    d.(latestXMove := latestXMove, latestYMove := latestYMove,
       x := d.x + latestXMove, y := d.y + latestYMove)
  }

  /** randomDirectionUpdate: one step along the dot's own alternate direction. */
  function RandomDirectionUpdate(d: Dot): (d': Dot)
    ensures MovedBy(d, d', d.vx2, d.vy2)
  {
    d.(x := d.x + d.vx2, y := d.y + d.vy2, latestXMove := d.vx2, latestYMove := d.vy2)
  }

  /** setvxvy: the coherent step becomes the run's coherent jump; nothing else changes. */
  function SetVxVy(c: Config, d: Dot): (d': Dot)
    ensures d'.(vx := d.vx, vy := d.vy) == d
    ensures IsUnit(c.coherentDirection) ==> Sq(d'.vx) + Sq(d'.vy) == Sq(c.moveDistance)
  {
    CoherentJumpLength(c);
    d.(vx := CalculateCoherentJumpSizeX(c), vy := CalculateCoherentJumpSizeY(c))
  }

  /**
   * setvx2vy2 with its drawn angle: the alternate step has length moveDistance;
   * nothing else changes.
   */
  function SetVx2Vy2(d: Dot, moveDistance: real, theta: Direction): (d': Dot)
    ensures d'.(vx2 := d.vx2, vy2 := d.vy2) == d
    ensures IsUnit(theta) ==> Sq(d'.vx2) + Sq(d'.vy2) == Sq(moveDistance)
  {
    StepLength(moveDistance, theta);
    d.(vx2 := theta.cos * moveDistance, vy2 := -theta.sin * moveDistance)
  }

  /** The answer of lifeEnded together with the dot as lifeEnded leaves it. */
  datatype LifeVerdict = LifeVerdict(ended: bool, dot: Dot)

  /**
   * lifeEnded: with infinite life (a negative dotLife) never, and the counter is
   * pinned to 0; otherwise exactly when the counter has reached dotLife, and
   * then the counter restarts at 0. Only the counter can change.
   */
  function LifeEnded(dotLife: int, d: Dot): (v: LifeVerdict)
    ensures v.dot == d.(lifeCount := v.dot.lifeCount)
    ensures dotLife < 0 ==> !v.ended && v.dot.lifeCount == 0
    ensures 0 <= dotLife <= d.lifeCount ==> v.ended && v.dot.lifeCount == 0
    ensures 0 <= dotLife && d.lifeCount < dotLife ==> !v.ended && v.dot == d
  {
    if dotLife < 0 then LifeVerdict(false, d.(lifeCount := 0))
    else if d.lifeCount >= dotLife then LifeVerdict(true, d.(lifeCount := 0))
    else LifeVerdict(false, d)
  }

  /**
   * The range the life counter keeps between frames: [0, dotLife) for a finite
   * positive life; otherwise [dotLife, 0], where the initial draw can put it.
   */
  predicate LifeInRange(dotLife: int, lifeCount: int) {
    if dotLife > 0 then 0 <= lifeCount < dotLife else dotLife <= lifeCount <= 0
  }

  /**
   * One frame of ageing (increment, then lifeEnded) keeps the counter in range,
   * and a finite life ends exactly every dotLife frames: when the counter was
   * dotLife - 1 before the increment.
   */
  lemma AgeingKeepsLifeInRange(dotLife: int, d: Dot)
    requires LifeInRange(dotLife, d.lifeCount)
    ensures var v := LifeEnded(dotLife, d.(lifeCount := d.lifeCount + 1));
            && LifeInRange(dotLife, v.dot.lifeCount)
            && (dotLife > 0 ==> (v.ended <==> d.lifeCount == dotLife - 1))
            && (dotLife == 0 ==> v.ended)
            && (dotLife < 0 ==> !v.ended && v.dot.lifeCount == 0)
  {}

  /**
   * The initial counter floor(randomNumberBetween(0, dotLife)): a uniform phase
   * within the first life.
   */
  function InitialLifeCount(dotLife: int, u: real): (lifeCount: int)
    ensures IsUniform(u) ==> LifeInRange(dotLife, lifeCount)
  {
    var r := RandomNumberBetween(0.0, dotLife as real, u);
    r.Floor
  }
}
