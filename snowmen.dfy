/** The snowmen's state (hacks/glx/snowmen.c:224-237, 1430-1458): fixed
    fields drawn once by initSnowman, and derived fields snowmanUpdateState
    recomputes every frame from the shared phase. */
module Snowmen {
  import opened Geometry

  const kCountOfSnowmen: nat := 9

  const kSnowmanTravelRadiusVariation: real := 2.0
  const kSnowmanTravelRadius: real := 10.0
  const kSnowmanMinorLoopMinimumCount: real := 3.0
  const kSnowmanMinorLoopCountRange: real := 2.0
  const kSnowmanTiltAngleMultiplier: real := -10.0

  /** snowmanHatColors: brown, cornsilk, dark orchid, plum, crimson,
      salmon, sandy brown, gray and orange. */
  const kSnowmanHatColors: seq<Vec4> := [
    Vec4(0.65, 0.16, 0.16, 1.0), Vec4(1.0, 0.97, 0.86, 1.0), Vec4(0.6, 0.2, 0.8, 1.0),
    Vec4(0.87, 0.63, 0.87, 1.0), Vec4(0.86, 0.08, 0.24, 1.0), Vec4(0.98, 0.5, 0.54, 1.0),
    Vec4(0.96, 0.64, 0.38, 1.0), Vec4(0.5, 0.5, 0.5, 1.0), Vec4(1.0, 0.35, 0.0, 1.0) ]

  /** SnowmanState_t. The first five fields are fixed at set-up; the rest
      are recomputed by every update. */
  datatype SnowmanState = SnowmanState(
    hatColor: Vec4,
    baseSnowballRotation: real,
    startingRho: real,
    startingMinorRho: real,
    countOfMinorLoops: real,
    currentRho: real,
    minorRho: real,
    positionX: real,
    positionY: real,
    direction: real,
    tilt: real)

  /** A snowman slot of the zero-filled configuration. */
  const kUnsetSnowman: SnowmanState :=
    SnowmanState(Vec4(0.0, 0.0, 0.0, 0.0), 0.0, 0.0, 0.0, 0.0, 0.0, 0.0, 0.0, 0.0, 0.0, 0.0)

  /** Two states that agree on every field initSnowman sets. */
  predicate SameFixed(a: SnowmanState, b: SnowmanState)
  {
    && a.hatColor == b.hatColor
    && a.baseSnowballRotation == b.baseSnowballRotation
    && a.startingRho == b.startingRho
    && a.startingMinorRho == b.startingMinorRho
    && a.countOfMinorLoops == b.countOfMinorLoops
  }

  /** Two states that agree on every field snowmanUpdateState writes. */
  predicate SameDerived(a: SnowmanState, b: SnowmanState)
  {
    && a.currentRho == b.currentRho
    && a.minorRho == b.minorRho
    && a.positionX == b.positionX
    && a.positionY == b.positionY
    && a.direction == b.direction
    && a.tilt == b.tilt
  }

  /** A draw of random() scaled to [0, scale]. */
  function Scaled(draw: int, scale: real): (r: real)
    requires IsDraw(draw) && scale >= 0.0
    ensures 0.0 <= r <= scale
    ensures draw == 0 ==> r == 0.0
  {
    QuotientInUnit(draw as real, kRandMax as real);
    var q := (draw as real) / (kRandMax as real);
    assert (draw as real) * scale / (kRandMax as real) == q * scale;
    (draw as real) * scale / (kRandMax as real)
  }

  /** The number of minor loops: 3 plus the floor of a draw scaled to
      [0, 2]; it is 5 only for the largest draw. */
  function MinorLoops(draw: int): (r: real)
    requires IsDraw(draw)
    ensures r == 3.0 || r == 4.0 || r == 5.0
    ensures r == 5.0 <==> draw == kRandMax
  {
    var t := kSnowmanMinorLoopCountRange / (kRandMax as real) * (draw as real);
    QuotientInUnit(draw as real, kRandMax as real);
    assert t == 2.0 * ((draw as real) / (kRandMax as real));
    assert draw < kRandMax ==> (draw as real) / (kRandMax as real) < 1.0;
    kSnowmanMinorLoopMinimumCount + t.Floor as real
  }

  /** initSnowman: draws the starting minor phase, the count of minor
      loops and the ball rotation, in that order; the derived fields keep
      what the slot held. */
  function InitSnowman(s: SnowmanState, startingRho: real, hatColor: Vec4,
                       d0: int, d1: int, d2: int): (r: SnowmanState)
    requires IsDraw(d0) && IsDraw(d1) && IsDraw(d2)
    ensures r.hatColor == hatColor && r.startingRho == startingRho
    ensures 0.0 <= r.startingMinorRho <= kTau
    ensures r.countOfMinorLoops in {3.0, 4.0, 5.0}
    ensures 0.0 <= r.baseSnowballRotation <= 360.0
    ensures SameDerived(r, s)
  {
    s.(hatColor := hatColor,
       startingRho := startingRho,
       startingMinorRho := Scaled(d0, kTau),
       countOfMinorLoops := MinorLoops(d1),
       baseSnowballRotation := Scaled(d2, 360.0))
  }

  /** Snowman i starts i ninths of the way round the travel circle. */
  function StartingRho(i: nat): real
  {
    kTau * (i as real) / (kCountOfSnowmen as real)
  }

  lemma StartingRhoSpacing(i: nat)
    requires i < kCountOfSnowmen
    ensures 0.0 <= StartingRho(i) < kTau
    ensures StartingRho(i + 1) - StartingRho(i) == kTau / (kCountOfSnowmen as real)
  {
  }

  ghost predicate SnowmanDrawsReady(draws: seq<int>)
  {
    |draws| >= 3 * kCountOfSnowmen && forall k :: 0 <= k < |draws| ==> IsDraw(draws[k])
  }

  /** The state setupSnowmen leaves in slot i. */
  function InitialSnowman(s: SnowmanState, draws: seq<int>, i: nat): SnowmanState
    requires SnowmanDrawsReady(draws) && i < kCountOfSnowmen
  {
    InitSnowman(s, StartingRho(i), kSnowmanHatColors[i], draws[3 * i], draws[3 * i + 1], draws[3 * i + 2])
  }

  /** setupSnowmen: the nine snowmen, spaced evenly round the circle, each
      with its own hat color and three draws. */
  method SetupSnowmen(snowmen: array<SnowmanState>, draws: seq<int>)
    requires snowmen.Length == kCountOfSnowmen && SnowmanDrawsReady(draws)
    modifies snowmen
    ensures forall i :: 0 <= i < kCountOfSnowmen ==> snowmen[i] == InitialSnowman(old(snowmen[i]), draws, i)
  {
    for i := 0 to kCountOfSnowmen
      invariant forall k :: 0 <= k < i ==> snowmen[k] == InitialSnowman(old(snowmen[k]), draws, k)
      invariant forall k :: i <= k < kCountOfSnowmen ==> snowmen[k] == old(snowmen[k])
    {
      snowmen[i] := InitSnowman(snowmen[i], kTau * (i as real) / (kCountOfSnowmen as real),
                                kSnowmanHatColors[i], draws[3 * i], draws[3 * i + 1], draws[3 * i + 2]);
    }
  }

  /** The state snowmanUpdateState leaves for phase rho. */
  function UpdatedSnowman(m: Libm, s: SnowmanState, rho: real): (u: SnowmanState)
    ensures SameFixed(u, s) && u.currentRho == 0.0
  {
    var r := rho + s.startingRho;
    var minorRho := r * s.countOfMinorLoops + s.startingMinorRho;
    var travel := kSnowmanTravelRadius + kSnowmanTravelRadiusVariation * m.sin(minorRho);
    SnowmanState(s.hatColor, s.baseSnowballRotation, s.startingRho, s.startingMinorRho, s.countOfMinorLoops,
                 0.0, minorRho, travel * m.sin(r), travel * m.cos(r),
                 r * 180.0 / kPi + 90.0 - m.cos(minorRho) * 30.0,
                 kSnowmanTiltAngleMultiplier * m.sin(minorRho))
  }

  /** snowmanUpdateState writes only the derived fields. */
  lemma UpdateKeepsFixed(m: Libm, s: SnowmanState, rho: real)
    ensures SameFixed(UpdatedSnowman(m, s, rho), s)
    ensures UpdatedSnowman(m, s, rho).currentRho == 0.0
  {
  }

  /** What snowmanUpdateState writes depends only on rho and the fixed
      fields: the derived fields a state held before are overwritten. */
  lemma UpdateIsFrameLocal(m: Libm, a: SnowmanState, b: SnowmanState, rho: real)
    requires SameFixed(a, b)
    ensures UpdatedSnowman(m, a, rho) == UpdatedSnowman(m, b, rho)
  {
    var ua, ub := UpdatedSnowman(m, a, rho), UpdatedSnowman(m, b, rho);
    assert ua.minorRho == ub.minorRho;
    assert ua.positionX == ub.positionX && ua.positionY == ub.positionY;
    assert ua.direction == ub.direction && ua.tilt == ub.tilt;
  }

  /** So a later update overrides an earlier one, and an update repeated
      with the same phase changes nothing. */
  lemma UpdateOverrides(m: Libm, s: SnowmanState, rho0: real, rho1: real)
    ensures UpdatedSnowman(m, UpdatedSnowman(m, s, rho0), rho1) == UpdatedSnowman(m, s, rho1)
    ensures UpdatedSnowman(m, UpdatedSnowman(m, s, rho1), rho1) == UpdatedSnowman(m, s, rho1)
  {
    UpdateKeepsFixed(m, s, rho0);
    UpdateIsFrameLocal(m, UpdatedSnowman(m, s, rho0), s, rho1);
    UpdateKeepsFixed(m, s, rho1);
    UpdateIsFrameLocal(m, UpdatedSnowman(m, s, rho1), s, rho1);
  }

  /** The snowman travels between circles of radius 8 and 12 round the
      pond's centre, and tilts at most 10 degrees either way. */
  lemma SnowmanOnTrack(m: Libm, s: SnowmanState, rho: real)
    requires TrigLaw(m)
    ensures var u := UpdatedSnowman(m, s, rho);
            && Sq(u.positionX) + Sq(u.positionY) == Sq(kSnowmanTravelRadius + kSnowmanTravelRadiusVariation * m.sin(u.minorRho))
            && 8.0 <= kSnowmanTravelRadius + kSnowmanTravelRadiusVariation * m.sin(u.minorRho) <= 12.0
            && -10.0 <= u.tilt <= 10.0
  {
    var u := UpdatedSnowman(m, s, rho);
    PolarRadius(m, kSnowmanTravelRadius + kSnowmanTravelRadiusVariation * m.sin(u.minorRho), rho + s.startingRho);
  }

  /** snowmanUpdateState on slot i: the fields are written one after
      another, each from the state as the previous writes left it. */
  method SnowmanUpdateState(m: Libm, snowmen: array<SnowmanState>, i: nat, rho: real)
    requires i < snowmen.Length
    modifies snowmen
    ensures snowmen[i] == UpdatedSnowman(m, old(snowmen[i]), rho)
    ensures forall k :: 0 <= k < snowmen.Length && k != i ==> snowmen[k] == old(snowmen[k])
  {
    ghost var s := snowmen[i];
    snowmen[i] := snowmen[i].(currentRho := 0.0);
    var r := rho + snowmen[i].startingRho;
    snowmen[i] := snowmen[i].(minorRho := r * snowmen[i].countOfMinorLoops + snowmen[i].startingMinorRho);
    var travel := kSnowmanTravelRadius + kSnowmanTravelRadiusVariation * m.sin(snowmen[i].minorRho);
    snowmen[i] := snowmen[i].(positionX := travel * m.sin(r));
    snowmen[i] := snowmen[i].(positionY := (kSnowmanTravelRadius + kSnowmanTravelRadiusVariation * m.sin(snowmen[i].minorRho)) * m.cos(r));
    snowmen[i] := snowmen[i].(direction := r * 180.0 / kPi + 90.0 - m.cos(snowmen[i].minorRho) * 30.0);
    snowmen[i] := snowmen[i].(tilt := kSnowmanTiltAngleMultiplier * m.sin(snowmen[i].minorRho));
    assert snowmen[i].minorRho == UpdatedSnowman(m, s, rho).minorRho;
  }
}
