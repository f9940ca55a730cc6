/**
 * Construction of the dot sets: makeDotArray builds one set of nDots dots,
 * makeDotArray2d builds nSets of them. Each dot gets a random phase of its
 * life, a random position in the aperture and, from the RDK variant and its
 * index, an update type and the steps that type uses.
 */
module DotSets {
  import opened Arith
  import opened Params
  import opened Geometry
  import opened Dots

  /** The draws one new dot consumes: its life phase, its position, its alternate direction. */
  datatype InitDraw = InitDraw(life: real, location: LocationDraw, alternate: Direction)

  predicate ValidInitDraw(dr: InitDraw) {
    IsUniform(dr.life) && ValidLocationDraw(dr.location) && IsUnit(dr.alternate)
  }

  /**
   * The indices below nDots * coherence (ceil(nDots * coherence) of them) are the
   * coherent dots of variants 1 to 3. The product is not rounded: index i is
   * coherent when i < nDots * coherence.
   */
  predicate IsCoherentIndex(c: Config, i: int) {
    (i as real) < (c.nDots as real) * c.coherence
  }

  /** The update types of the incoherent dots of variants 1 to 3, and of all dots of 4 to 6. */
  const IncoherentTypes: seq<UpdateType> := [RandomPosition, RandomWalk, RandomDirection]
  const MixedTypes: seq<UpdateType> :=
    [ConstantOrRandomPosition, ConstantOrRandomWalk, ConstantOrRandomDirection]

  /** Does this update type ever take the coherent step? */
  predicate UsesCoherentStep(t: UpdateType) { t == ConstantDirection || t.IsMixed() }

  /** Does this update type ever take the dot's alternate step? */
  predicate UsesAlternateStep(t: UpdateType) { t == RandomDirection || t == ConstantOrRandomDirection }

  /** The all-zero dot with an empty update type that makeDotArray starts from. */
  function BlankDot(lifeCount: int): Dot {
    Dot(0.0, 0.0, 0.0, 0.0, 0.0, 0.0, 0.0, 0.0, lifeCount, Unassigned)
  }

  /**
   * The dot at index i of a new set. It starts inside the aperture with its
   * life counter in range and no latest move. Variants 1 to 3 give the coherent
   * dots (exactly the coherent indices) the constant direction and the others
   * random position, walk or direction; variants 4 to 6 give every dot the
   * matching mixed type; any other code leaves the type empty. The coherent
   * step is set exactly for the types that use it and the alternate step,
   * moveDistance long, exactly for the types that use it.
   */
  function InitDot(c: Config, ap: Aperture, i: int, dr: InitDraw): (d: Dot)
    ensures d.latestXMove == 0.0 && d.latestYMove == 0.0
    ensures IsUniform(dr.life) ==> LifeInRange(c.dotLife, d.lifeCount)
    ensures ValidAperture(ap) && ValidLocationDraw(dr.location) ==> !OutOfBounds(ap, d.x, d.y)
    ensures 1 <= c.rdk <= 3 ==>
              (d.updateType == ConstantDirection <==> IsCoherentIndex(c, i))
              && (!IsCoherentIndex(c, i) ==> d.updateType == IncoherentTypes[c.rdk - 1])
    ensures 4 <= c.rdk <= 6 ==> d.updateType == MixedTypes[c.rdk - 4]
    ensures !(1 <= c.rdk <= 6) ==> d.updateType == Unassigned
    ensures UsesCoherentStep(d.updateType) ==>
              d.vx == CalculateCoherentJumpSizeX(c) && d.vy == CalculateCoherentJumpSizeY(c)
    ensures !UsesCoherentStep(d.updateType) ==> d.vx == 0.0 && d.vy == 0.0
    ensures UsesAlternateStep(d.updateType) && IsUnit(dr.alternate) ==>
              Sq(d.vx2) + Sq(d.vy2) == Sq(c.moveDistance)
    ensures !UsesAlternateStep(d.updateType) ==> d.vx2 == 0.0 && d.vy2 == 0.0
  {
    var blank := BlankDot(InitialLifeCount(c.dotLife, dr.life));
    ResetLocationInAperture(ap, blank, dr.location);
    AssignMotion(c, i, ResetLocation(ap, blank, dr.location), dr.alternate)
  }

  /** The RDK-variant part of InitDot: update type and steps; position and life are kept. */
  function AssignMotion(c: Config, i: int, d: Dot, theta: Direction): (d': Dot)
    ensures d'.(vx := d.vx, vy := d.vy, vx2 := d.vx2, vy2 := d.vy2, updateType := d.updateType) == d
  {
    if 1 <= c.rdk <= 3 && IsCoherentIndex(c, i) then
      SetVxVy(c, d).(updateType := ConstantDirection)
    else if c.rdk == 1 then d.(updateType := RandomPosition)
    else if c.rdk == 2 then d.(updateType := RandomWalk)
    else if c.rdk == 3 then SetVx2Vy2(d, c.moveDistance, theta).(updateType := RandomDirection)
    else if c.rdk == 4 then SetVxVy(c, d).(updateType := ConstantOrRandomPosition)
    else if c.rdk == 5 then SetVxVy(c, d).(updateType := ConstantOrRandomWalk)
    else if c.rdk == 6 then
      SetVx2Vy2(SetVxVy(c, d), c.moveDistance, theta).(updateType := ConstantOrRandomDirection)
    else d
  }

  /** The set of dots built from one draw per dot. */
  function InitDots(c: Config, ap: Aperture, draws: seq<InitDraw>): (dots: seq<Dot>)
    ensures |dots| == |draws|
    ensures forall i :: 0 <= i < |dots| ==> dots[i] == InitDot(c, ap, i, draws[i])
  {
    seq(|draws|, i requires 0 <= i < |draws| => InitDot(c, ap, i, draws[i]))
  }

  /**
   * makeDotArray: one blank dot per index, given its life phase, placed by
   * resetLocation, then set up by the variant tests one after another.
   */
  method MakeDotArray(c: Config, ap: Aperture, draws: seq<InitDraw>) returns (dots: seq<Dot>)
    requires |draws| == c.nDots
    ensures dots == InitDots(c, ap, draws)
  {
    dots := [];
    var i := 0;
    while i < c.nDots
      invariant 0 <= i <= c.nDots
      invariant dots == InitDots(c, ap, draws[..i])
    {
      var dot := BlankDot(InitialLifeCount(c.dotLife, draws[i].life));
      dot := ResetLocation(ap, dot, draws[i].location);
      if c.rdk == 1 {
        if IsCoherentIndex(c, i) {
          dot := SetVxVy(c, dot);
          dot := dot.(updateType := ConstantDirection);
        } else {
          dot := dot.(updateType := RandomPosition);
        }
      }
      if c.rdk == 2 {
        if IsCoherentIndex(c, i) {
          dot := SetVxVy(c, dot);
          dot := dot.(updateType := ConstantDirection);
        } else {
          dot := dot.(updateType := RandomWalk);
        }
      }
      if c.rdk == 3 {
        if IsCoherentIndex(c, i) {
          dot := SetVxVy(c, dot);
          dot := dot.(updateType := ConstantDirection);
        } else {
          dot := SetVx2Vy2(dot, c.moveDistance, draws[i].alternate);
          dot := dot.(updateType := RandomDirection);
        }
      }
      if c.rdk == 4 {
        dot := SetVxVy(c, dot);
        dot := dot.(updateType := ConstantOrRandomPosition);
      }
      if c.rdk == 5 {
        dot := SetVxVy(c, dot);
        dot := dot.(updateType := ConstantOrRandomWalk);
      }
      if c.rdk == 6 {
        dot := SetVxVy(c, dot);
        dot := SetVx2Vy2(dot, c.moveDistance, draws[i].alternate);
        dot := dot.(updateType := ConstantOrRandomDirection);
      }
      assert draws[..i + 1] == draws[..i] + [draws[i]];
      dots := dots + [dot];
      i := i + 1;
    }
    assert draws[..i] == draws;
  }

  /** makeDotArray2d: nSets independently drawn sets. */
  method MakeDotArray2d(c: Config, ap: Aperture, draws: seq<seq<InitDraw>>) returns (sets: seq<seq<Dot>>)
    requires |draws| == c.nSets
    requires forall k :: 0 <= k < |draws| ==> |draws[k]| == c.nDots
    ensures |sets| == c.nSets
    ensures forall k :: 0 <= k < |sets| ==> sets[k] == InitDots(c, ap, draws[k])
  {
    sets := [];
    var k := 0;
    while k < c.nSets
      invariant 0 <= k <= c.nSets
      invariant |sets| == k
      invariant forall j :: 0 <= j < k ==> sets[j] == InitDots(c, ap, draws[j])
    {
      var dots := MakeDotArray(c, ap, draws[k]);
      sets := sets + [dots];
      k := k + 1;
    }
  }

  /** The smallest integer not below r. */
  function Ceil(r: real): (n: int)
    ensures r <= n as real < r + 1.0
  {
    -((-r).Floor)
  }

  /** An integer lies below r exactly when it lies below the ceiling of r. */
  lemma BelowCeil(i: int, r: real)
    ensures (i as real) < r <==> i < Ceil(r)
  {}

  /** The number of dots with the constant direction type. */
  function CoherentCount(dots: seq<Dot>): (n: nat)
    ensures n <= |dots|
  {
    if |dots| == 0 then 0
    else CoherentCount(dots[..|dots| - 1]) + (if dots[|dots| - 1].updateType == ConstantDirection then 1 else 0)
  }

  function Min(a: int, b: int): int { if a <= b then a else b }

  /**
   * Among the first k dots of a sequence whose coherent dots are exactly the
   * indices below a bound x >= 0, there are min(k, ceil(x)) coherent ones.
   */
  lemma {:induction false} CoherentPrefixCount(dots: seq<Dot>, x: real, k: nat)
    requires x >= 0.0 && k <= |dots|
    requires forall i :: 0 <= i < |dots| ==> (dots[i].updateType == ConstantDirection <==> (i as real) < x)
    ensures CoherentCount(dots[..k]) == Min(k, Ceil(x))
  {
    if k > 0 {
      CoherentPrefixCount(dots, x, k - 1);
      assert dots[..k][..k - 1] == dots[..k - 1];
      BelowCeil(k - 1, x);
    }
  }

  /**
   * A set of variant 1 to 3 has exactly ceil(nDots * coherence) coherent dots
   * when coherence is in [0, 1]: the count is rounded up, not to nearest.
   */
  lemma CoherentDotCount(c: Config, ap: Aperture, draws: seq<InitDraw>)
    requires 1 <= c.rdk <= 3 && |draws| == c.nDots && 0.0 <= c.coherence <= 1.0
    ensures CoherentCount(InitDots(c, ap, draws)) == Ceil((c.nDots as real) * c.coherence)
  {
    var dots := InitDots(c, ap, draws);
    var x := (c.nDots as real) * c.coherence;
    MulNonNegative(c.nDots as real, c.coherence);
    CoherentTags(c, ap, draws);
    CoherentPrefixCount(dots, x, |dots|);
    assert dots[..|dots|] == dots;
    CoherentAtMostAll(c);
  }

  lemma CoherentAtMostAll(c: Config)
    requires 0.0 <= c.coherence <= 1.0
    ensures Ceil((c.nDots as real) * c.coherence) <= c.nDots
  {
    AtMostAll(c.nDots as real, c.coherence);
    CeilAtMost((c.nDots as real) * c.coherence, c.nDots);
  }

  lemma CeilAtMost(r: real, n: int)
    requires r <= n as real
    ensures Ceil(r) <= n
  {
    BelowCeil(n, r);
  }

  /** In a set of variant 1 to 3 the coherent dots are the coherent indices. */
  lemma CoherentTags(c: Config, ap: Aperture, draws: seq<InitDraw>)
    requires 1 <= c.rdk <= 3
    ensures var dots := InitDots(c, ap, draws);
            forall i :: 0 <= i < |dots| ==>
              (dots[i].updateType == ConstantDirection <==> (i as real) < (c.nDots as real) * c.coherence)
  {}

  lemma AtMostAll(n: real, p: real)
    requires n >= 0.0 && p <= 1.0
    ensures n * p <= n
  {
    MulNonNegative(n, 1.0 - p);
    assert n - n * p == n * (1.0 - p);
  }

  /** A variant-1 set of ten dots at coherence 0.22: 2.2 coherent dots in principle, three in the set. */
  lemma CoherentCountRoundsUp(ap: Aperture, draws: seq<InitDraw>)
    requires |draws| == 10
    ensures var c := Config(10, 1, Direction(1.0, 0.0), 0.22, -1, 1.0, 200.0, 200.0, 0.0, 0.0, 1, Circle, 1);
            CoherentCount(InitDots(c, ap, draws)) == 3
  {
    var c := Config(10, 1, Direction(1.0, 0.0), 0.22, -1, 1.0, 200.0, 200.0, 0.0, 0.0, 1, Circle, 1);
    CoherentDotCount(c, ap, draws);
    assert Ceil(10.0 * 0.22) == 3;
  }

  /**
   * Every dot of a new set starts inside the aperture with its life counter in
   * range, given valid draws.
   */
  lemma NewSetInAperture(c: Config, ap: Aperture, draws: seq<InitDraw>)
    requires ValidAperture(ap)
    requires forall i :: 0 <= i < |draws| ==> ValidInitDraw(draws[i])
    ensures var dots := InitDots(c, ap, draws);
            forall i :: 0 <= i < |dots| ==>
              !OutOfBounds(ap, dots[i].x, dots[i].y) && LifeInRange(c.dotLife, dots[i].lifeCount)
  {}
}
