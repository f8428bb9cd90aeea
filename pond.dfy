/** The frozen pond (hacks/glx/snowmen.c:494-559): a triangle fan whose
    centre is the origin and whose rim is a polar curve, a weighted sum of
    sines, sampled at 160 angles. The texture maps the rim's bounding box
    (which also holds the origin, since the box starts at 0) onto [0, 1]. */
module Pond {
  import opened Geometry

  const kCountOfPondExteriorVertices: nat := 160
  const kCountOfPondWeights: nat := 11
  /** Buffer length: the centre, the rim, and the rim's first vertex again. */
  const kCountOfPondVertices: nat := kCountOfPondExteriorVertices + 2

  /** The eleven weights; the initializer lists ten, so the last one is the
      zero C fills in. */
  const kPondWeights: seq<real> := [12.0, 2.0, 0.0, 3.0, 4.0, 5.0, 0.0, 0.0, 0.0, 0.0, 0.0]
  const kPondWeightModerator: real := 0.7

  /** The sum of the first j weights. */
  function WeightTotal(j: nat): real
    requires j <= kCountOfPondWeights
  {
    if j == 0 then 0.0 else WeightTotal(j - 1) + kPondWeights[j - 1]
  }

  /** The argument of the j-th sine at rim sample i. */
  function Harmonic(i: nat, j: nat): real
  {
    3.0 * (i as real) * (j as real) * kTau / (kCountOfPondExteriorVertices as real)
  }

  /** The first j terms of the radius sum at rim sample i. */
  function WeightSum(m: Libm, i: nat, j: nat): real
    requires j <= kCountOfPondWeights
  {
    if j == 0 then 0.0 else WeightSum(m, i, j - 1) + kPondWeights[j - 1] * (2.0 + m.sin(Harmonic(i, j - 1)))
  }

  function Radius(m: Libm, i: nat): real
  {
    WeightSum(m, i, kCountOfPondWeights)
  }

  function Angle(i: nat): real
  {
    kTau * (i as real) / (kCountOfPondExteriorVertices as real)
  }

  /** Rim vertex i, at distance 0.7 * Radius in direction Angle(i). */
  function Exterior(m: Libm, i: nat): Vec3
  {
    var r := Radius(m, i);
    Vec3(kPondWeightModerator * r * m.sin(Angle(i)), 0.0, kPondWeightModerator * r * m.cos(Angle(i)))
  }

  /** The vertex buffer: the centre, rim vertices 0..159, then rim vertex 0
      again to close the fan. */
  function PondVertex(m: Libm, k: nat): Vec3
  {
    if k == 0 then Origin
    else if k <= kCountOfPondExteriorVertices then Exterior(m, k - 1)
    else Exterior(m, 0)
  }

  function PondVerts(m: Libm): (r: seq<Vec3>)
    ensures |r| == kCountOfPondVertices
  {
    seq(kCountOfPondVertices, k requires 0 <= k => PondVertex(m, k))
  }

  /** The closed fan: slot 0 is the origin, the last slot repeats slot 1, and
      every vertex lies in the plane y = 0. */
  lemma PondFan(m: Libm)
    ensures PondVerts(m)[0] == Origin
    ensures PondVerts(m)[kCountOfPondVertices - 1] == PondVerts(m)[1]
    ensures forall v <- PondVerts(m) :: v.y == 0.0
  {
    var s := PondVerts(m);
    forall v | v in s
      ensures v.y == 0.0
    {
      var k :| 0 <= k < |s| && s[k] == v;
      assert v == PondVertex(m, k);
    }
  }

  /** The fold `if (x < min) min = x` over xs, starting from 0. */
  function MinFrom0(xs: seq<real>): real
  {
    if |xs| == 0 then 0.0
    else
      var p := MinFrom0(xs[..|xs| - 1]);
      if xs[|xs| - 1] < p then xs[|xs| - 1] else p
  }

  /** The fold `if (x > max) max = x` over xs, starting from 0. */
  function MaxFrom0(xs: seq<real>): real
  {
    if |xs| == 0 then 0.0
    else
      var p := MaxFrom0(xs[..|xs| - 1]);
      if xs[|xs| - 1] > p then xs[|xs| - 1] else p
  }

  /** The folds bound 0 and every element. */
  lemma {:induction false} FoldBounds(xs: seq<real>)
    ensures MinFrom0(xs) <= 0.0 <= MaxFrom0(xs)
    ensures forall k :: 0 <= k < |xs| ==> MinFrom0(xs) <= xs[k] <= MaxFrom0(xs)
  {
    if |xs| > 0 {
      var init := xs[..|xs| - 1];
      FoldBounds(init);
      assert forall k :: 0 <= k < |xs| - 1 ==> xs[k] == init[k];
    }
  }

  function RimX(m: Libm): (r: seq<real>)
    ensures |r| == kCountOfPondExteriorVertices
  {
    seq(kCountOfPondExteriorVertices, i requires 0 <= i => Exterior(m, i).x)
  }

  function RimZ(m: Libm): (r: seq<real>)
    ensures |r| == kCountOfPondExteriorVertices
  {
    seq(kCountOfPondExteriorVertices, i requires 0 <= i => Exterior(m, i).z)
  }

  /** Each term of the radius sum lies between its weight and three times it,
      since 1 <= 2 + sin <= 3. */
  lemma {:induction false} WeightSumBounds(m: Libm, i: nat, j: nat)
    requires TrigLaw(m) && j <= kCountOfPondWeights
    ensures WeightTotal(j) <= WeightSum(m, i, j) <= 3.0 * WeightTotal(j)
  {
    if j > 0 {
      WeightSumBounds(m, i, j - 1);
      var w, t := kPondWeights[j - 1], 2.0 + m.sin(Harmonic(i, j - 1));
      assert w >= 0.0;
      ScaledBetween(w, t);
    }
  }

  lemma ScaledBetween(w: real, t: real)
    requires w >= 0.0 && 1.0 <= t <= 3.0
    ensures w <= w * t <= 3.0 * w
  {
    assert w * t - w == w * (t - 1.0);
    assert 3.0 * w - w * t == w * (3.0 - t);
  }

  /** The polar radius lies in [26, 78]: the weights sum to 26. */
  lemma RadiusBounds(m: Libm, i: nat)
    requires TrigLaw(m)
    ensures 26.0 <= Radius(m, i) <= 78.0
  {
    WeightSumBounds(m, i, kCountOfPondWeights);
    assert WeightTotal(kCountOfPondWeights) == 26.0;
  }

  /** Rim vertex i lies on the circle of radius 0.7 * Radius(m, i) about the
      vertical axis. */
  lemma ExteriorOnCircle(m: Libm, i: nat)
    requires TrigLaw(m)
    ensures RadialSq(Exterior(m, i)) == Sq(kPondWeightModerator * Radius(m, i))
    ensures RadialSq(Exterior(m, i)) > 0.0
  {
    var a := kPondWeightModerator * Radius(m, i);
    PolarRadius(m, a, Angle(i));
    RadiusBounds(m, i);
    SqOfPositive(a);
  }

  /** Every rim slot of the buffer, 1 to 161, is off the vertical axis, so the
      shore, the hills and the trees may divide by its horizontal length. */
  lemma PondOffAxis(m: Libm, k: nat)
    requires TrigLaw(m) && 1 <= k < kCountOfPondVertices
    ensures RadialSq(PondVerts(m)[k]) > 0.0
  {
    if k <= kCountOfPondExteriorVertices {
      ExteriorOnCircle(m, k - 1);
    } else {
      ExteriorOnCircle(m, 0);
    }
  }

  /** A pond vertex buffer as the shore, the hills and the trees read it:
      a centre slot, then at least two slots off the vertical axis. */
  ghost predicate OffAxisRim(pond: seq<Vec3>)
  {
    |pond| >= 3 && forall k :: 1 <= k < |pond| ==> RadialSq(pond[k]) > 0.0
  }

  /** What the shore, the hills and the trees need to divide by a rim
      vertex's horizontal length: a square root that obeys its law and a
      rim off the vertical axis. */
  ghost predicate RimReady(m: Libm, pond: seq<Vec3>)
  {
    SqrtLaw(m) && OffAxisRim(pond)
  }

  lemma PondRimOffAxis(m: Libm)
    requires TrigLaw(m)
    ensures OffAxisRim(PondVerts(m))
  {
    forall k | 1 <= k < kCountOfPondVertices
      ensures RadialSq(PondVerts(m)[k]) > 0.0
    {
      PondOffAxis(m, k);
    }
  }

  /** The bounding box is not flat: rim vertex 40 (angle pi/2) has x > 0 and
      rim vertex 0 (angle 0) has z > 0, while both minima are at most 0. */
  lemma BoxWide(m: Libm)
    requires TrigLaw(m)
    ensures MinFrom0(RimX(m)) < MaxFrom0(RimX(m))
    ensures MinFrom0(RimZ(m)) < MaxFrom0(RimZ(m))
  {
    FoldBounds(RimX(m));
    FoldBounds(RimZ(m));
    assert Angle(40) == kPi / 2.0;
    assert Angle(0) == 0.0;
    RadiusBounds(m, 40);
    RadiusBounds(m, 0);
    assert RimX(m)[40] == kPondWeightModerator * Radius(m, 40);
    assert RimZ(m)[0] == kPondWeightModerator * Radius(m, 0);
  }

  /** The texture coordinates of a vertex buffer: each vertex's x and z
      normalized on the box [x0, x1] x [z0, z1]. */
  function BoxTex(verts: seq<Vec3>, x0: real, x1: real, z0: real, z1: real): (r: seq<Vec2>)
    requires x0 != x1 && z0 != z1
    ensures |r| == |verts|
  {
    seq(|verts|, k requires 0 <= k < |verts| => Vec2(NormalizeOnRange(verts[k].x, x0, x1), NormalizeOnRange(verts[k].z, z0, z1)))
  }

  /** The pond's texture: its vertices normalized on the rim's box. */
  function PondTex(m: Libm): (r: seq<Vec2>)
    requires TrigLaw(m)
    ensures |r| == kCountOfPondVertices
  {
    BoxWide(m);
    BoxTex(PondVerts(m), MinFrom0(RimX(m)), MaxFrom0(RimX(m)), MinFrom0(RimZ(m)), MaxFrom0(RimZ(m)))
  }

  /** Every vertex of the buffer, the origin included, lies in the box. */
  lemma InBox(m: Libm, k: nat)
    requires k < kCountOfPondVertices
    ensures MinFrom0(RimX(m)) <= PondVertex(m, k).x <= MaxFrom0(RimX(m))
    ensures MinFrom0(RimZ(m)) <= PondVertex(m, k).z <= MaxFrom0(RimZ(m))
  {
    FoldBounds(RimX(m));
    FoldBounds(RimZ(m));
    if 1 <= k <= kCountOfPondExteriorVertices {
      assert PondVertex(m, k).x == RimX(m)[k - 1] && PondVertex(m, k).z == RimZ(m)[k - 1];
    } else if k > kCountOfPondExteriorVertices {
      assert PondVertex(m, k).x == RimX(m)[0] && PondVertex(m, k).z == RimZ(m)[0];
    }
  }

  /** So every pond texture coordinate lies in [0, 1] x [0, 1]. */
  lemma PondTexInUnit(m: Libm)
    requires TrigLaw(m)
    ensures forall t <- PondTex(m) :: InUnitSquare(t)
  {
    BoxWide(m);
    forall k | 0 <= k < kCountOfPondVertices
      ensures InUnitSquare(PondTex(m)[k])
    {
      InBox(m, k);
      var v := PondVertex(m, k);
      NormalizeOnRangeInUnit(v.x, MinFrom0(RimX(m)), MaxFrom0(RimX(m)));
      NormalizeOnRangeInUnit(v.z, MinFrom0(RimZ(m)), MaxFrom0(RimZ(m)));
    }
  }

  /** createPondBufferObjects without the OpenGL upload: the centre, then the
      rim in a loop that sums the weighted sines and grows the bounding box,
      then the closing vertex, then the texture coordinates from the box. */
  method CreatePondBufferObjects(m: Libm) returns (vertAry: array<Vec3>, texAry: array<Vec2>, countOfVertices: nat)
    requires TrigLaw(m)
    ensures fresh(vertAry) && fresh(texAry)
    ensures countOfVertices == vertAry.Length == texAry.Length == kCountOfPondVertices
    ensures vertAry[..] == PondVerts(m) && texAry[..] == PondTex(m)
  {
    countOfVertices := kCountOfPondExteriorVertices + 2;
    vertAry := new Vec3[countOfVertices];
    texAry := new Vec2[countOfVertices];
    vertAry[0] := Origin;
    var minX, maxX, minZ, maxZ := FillRim(m, vertAry);
    vertAry[kCountOfPondExteriorVertices + 1] := vertAry[1];
    assert vertAry[..] == PondVerts(m);
    BoxWide(m);
    FillPondTex(vertAry, texAry, minX, maxX, minZ, maxZ);
  }

  /** The rim loop: slots 1 to 160 receive the rim, slot 0 is kept, and the
      box bounds come back as the folds over the rim. */
  method FillRim(m: Libm, vertAry: array<Vec3>) returns (minX: real, maxX: real, minZ: real, maxZ: real)
    requires vertAry.Length == kCountOfPondVertices && vertAry[0] == Origin
    modifies vertAry
    ensures forall k :: 0 <= k <= kCountOfPondExteriorVertices ==> vertAry[k] == PondVertex(m, k)
    ensures minX == MinFrom0(RimX(m)) && maxX == MaxFrom0(RimX(m))
    ensures minZ == MinFrom0(RimZ(m)) && maxZ == MaxFrom0(RimZ(m))
  {
    minX, minZ, maxX, maxZ := 0.0, 0.0, 0.0, 0.0;
    var i: nat := 0;
    while i < kCountOfPondExteriorVertices
      invariant i <= kCountOfPondExteriorVertices
      invariant forall k :: 0 <= k <= i ==> vertAry[k] == PondVertex(m, k)
      invariant minX == MinFrom0(RimX(m)[..i]) && maxX == MaxFrom0(RimX(m)[..i])
      invariant minZ == MinFrom0(RimZ(m)[..i]) && maxZ == MaxFrom0(RimZ(m)[..i])
    {
      var v := RimVertex(m, i);
      var x, z := v.x, v.z;
      vertAry[i + 1] := v;
      minX, maxX := Widen(RimX(m), i, minX, maxX, x);
      minZ, maxZ := Widen(RimZ(m), i, minZ, maxZ, z);
      i := i + 1;
    }
    assert RimX(m)[..kCountOfPondExteriorVertices] == RimX(m);
    assert RimZ(m)[..kCountOfPondExteriorVertices] == RimZ(m);
  }

  /** One coordinate of the box, holding xs[..i], grown to hold v = xs[i]. */
  method Widen(xs: seq<real>, i: nat, lo: real, hi: real, v: real) returns (lo': real, hi': real)
    requires i < |xs| && v == xs[i]
    requires lo == MinFrom0(xs[..i]) && hi == MaxFrom0(xs[..i])
    ensures lo' == MinFrom0(xs[..i + 1]) && hi' == MaxFrom0(xs[..i + 1])
  {
    FoldStep(xs, i);
    lo', hi' := lo, hi;
    if v < lo' { lo' := v; }
    if v > hi' { hi' := v; }
  }

  /** The inner loop of the rim: the weighted sum of sines at rim sample i. */
  method RimRadius(m: Libm, i: nat) returns (r: real)
    ensures r == Radius(m, i)
  {
    r := 0.0;
    var j: nat := 0;
    while j < kCountOfPondWeights
      invariant j <= kCountOfPondWeights
      invariant r == WeightSum(m, i, j)
    {
      var term := kPondWeights[j] * (2.0 + m.sin(3.0 * (i as real) * (j as real) * kTau / (kCountOfPondExteriorVertices as real)));
      assert term == kPondWeights[j] * (2.0 + m.sin(Harmonic(i, j)));
      r := r + term;
      j := j + 1;
    }
  }

  /** The body of the rim loop: the radius sum, then the polar point. */
  method RimVertex(m: Libm, i: nat) returns (v: Vec3)
    ensures v == Exterior(m, i)
  {
    var r := RimRadius(m, i);
    var x := kPondWeightModerator * r * m.sin(kTau * (i as real) / (kCountOfPondExteriorVertices as real));
    var z := kPondWeightModerator * r * m.cos(kTau * (i as real) / (kCountOfPondExteriorVertices as real));
    v := Vec3(x, 0.0, z);
  }

  /** One more element extends both folds by one comparison. */
  lemma FoldStep(xs: seq<real>, i: nat)
    requires i < |xs|
    ensures MinFrom0(xs[..i + 1]) == if xs[i] < MinFrom0(xs[..i]) then xs[i] else MinFrom0(xs[..i])
    ensures MaxFrom0(xs[..i + 1]) == if xs[i] > MaxFrom0(xs[..i]) then xs[i] else MaxFrom0(xs[..i])
  {
    assert xs[..i + 1][..i] == xs[..i];
  }

  /** The texture loop over all 162 slots. */
  method FillPondTex(vertAry: array<Vec3>, texAry: array<Vec2>, minX: real, maxX: real, minZ: real, maxZ: real)
    requires minX != maxX && minZ != maxZ && texAry.Length == vertAry.Length
    modifies texAry
    ensures texAry[..] == BoxTex(vertAry[..], minX, maxX, minZ, maxZ)
  {
    var i: nat := 0;
    while i < texAry.Length
      invariant i <= texAry.Length
      invariant forall k :: 0 <= k < i ==> texAry[k] == BoxTex(vertAry[..], minX, maxX, minZ, maxZ)[k]
    {
      texAry[i] := Vec2(NormalizeOnRange(vertAry[i].x, minX, maxX), NormalizeOnRange(vertAry[i].z, minZ, maxZ));
      i := i + 1;
    }
  }
}
