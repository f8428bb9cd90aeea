/** The shore around the pond (hacks/glx/snowmen.c:769-866): one spoke per
    pair of neighbouring pond rim vertices, each a strip across seven
    circles, six stepping up and out from the pond edge and a seventh,
    flat, at the edge of the universe. */
module Shore {
  import opened Geometry
  import opened Pond
  import opened Splices

  const kCountOfSlopedCircleSteps: nat := 7
  const kRadiusOfSlopedCircle: real := 2.0
  const kShoreTextureRepeatCount: real := 3.0
  const kPortionOfTexture: real := 0.25
  const kCurveValue: real := 1.0 / 3.0
  const kFlatTextureY: real := 0.01
  /** Vertices per spoke: 2 * (kCountOfSlopedCircleSteps + 1). */
  const kSpokeLength: nat := 16

  /** A vertex of sloped circle c behind rim vertex p, d being its horizontal length. */
  function Sloped(m: Libm, p: Vec3, d: real, c: nat): Vec3
    requires d != 0.0
  {
    var step := p.x / d * (c as real) / (kCountOfSlopedCircleSteps as real) * kRadiusOfSlopedCircle;
    var stepZ := p.z / d * (c as real) / (kCountOfSlopedCircleSteps as real) * kRadiusOfSlopedCircle;
    Vec3(p.x + step,
         kShoreHeight * m.pow((c as real) * kRadiusOfSlopedCircle / (kCountOfSlopedCircleSteps as real), kCurveValue),
         p.z + stepZ)
  }

  /** The texture V of sloped circle c. */
  function SlopedTexY(m: Libm, c: nat): real
  {
    1.0 - kPortionOfTexture * m.pow((c as real) / ((kCountOfSlopedCircleSteps as real) - 2.0), kCurveValue)
  }

  /** The texture U where spoke s begins, out of n spokes. */
  function TexEdge(s: nat, n: nat): real
    requires n > 0
  {
    kShoreTextureRepeatCount * 2.0 * (s as real) / (n as real)
  }

  /** The vertices one circle contributes to the spoke from p1 to p2: the
      first circle repeats its first vertex and the last repeats its last,
      so that consecutive spokes join into one strip. */
  function CircleVerts(m: Libm, p1: Vec3, p2: Vec3, c: nat): (r: seq<Vec3>)
    requires SqrtLaw(m) && RadialSq(p1) > 0.0 && RadialSq(p2) > 0.0
    ensures |r| == if c == 0 || c == kCountOfSlopedCircleSteps - 1 then 3 else 2
  {
    if c == kCountOfSlopedCircleSteps - 1 then
      var f1 := PushedOut(m, p1, kUniverseEdgeRadius, kShoreHeight);
      var f2 := PushedOut(m, p2, kUniverseEdgeRadius, kShoreHeight);
      [f1, f2, f2]
    else
      var s1 := Sloped(m, p1, Spread(m, p1), c);
      var s2 := Sloped(m, p2, Spread(m, p2), c);
      if c == 0 then [s1, s1, s2] else [s1, s2]
  }

  function CircleTex(m: Libm, u1: real, u2: real, c: nat): (r: seq<Vec2>)
    ensures |r| == if c == 0 || c == kCountOfSlopedCircleSteps - 1 then 3 else 2
  {
    if c == kCountOfSlopedCircleSteps - 1 then
      [Vec2(u1, kFlatTextureY), Vec2(u2, kFlatTextureY), Vec2(u2, kFlatTextureY)]
    else
      var v := SlopedTexY(m, c);
      if c == 0 then [Vec2(u1, v), Vec2(u1, v), Vec2(u2, v)] else [Vec2(u1, v), Vec2(u2, v)]
  }

  /** Number of vertices of the first c circles of a spoke. */
  function CirclesCount(c: nat): (r: nat)
    requires c <= kCountOfSlopedCircleSteps
    ensures c == kCountOfSlopedCircleSteps ==> r == kSpokeLength
  {
    if c == 0 then 0 else if c == kCountOfSlopedCircleSteps then kSpokeLength else 2 * c + 1
  }

  /** The first c circles of the spoke from p1 to p2. */
  function CirclesUpTo(m: Libm, p1: Vec3, p2: Vec3, c: nat): (r: seq<Vec3>)
    requires SqrtLaw(m) && RadialSq(p1) > 0.0 && RadialSq(p2) > 0.0
    requires c <= kCountOfSlopedCircleSteps
    ensures |r| == CirclesCount(c)
  {
    if c == 0 then [] else CirclesUpTo(m, p1, p2, c - 1) + CircleVerts(m, p1, p2, c - 1)
  }

  function CirclesTexUpTo(m: Libm, u1: real, u2: real, c: nat): (r: seq<Vec2>)
    requires c <= kCountOfSlopedCircleSteps
    ensures |r| == CirclesCount(c)
  {
    if c == 0 then [] else CirclesTexUpTo(m, u1, u2, c - 1) + CircleTex(m, u1, u2, c - 1)
  }

  /** The vertices of spoke s, between pond slots s + 1 and s + 2. */
  function SpokeVerts(m: Libm, pond: seq<Vec3>, s: nat): (r: seq<Vec3>)
    requires RimReady(m, pond) && s < |pond| - 2
    ensures |r| == kSpokeLength
  {
    CirclesUpTo(m, pond[s + 1], pond[s + 2], kCountOfSlopedCircleSteps)
  }

  function SpokeTex(m: Libm, pond: seq<Vec3>, s: nat): (r: seq<Vec2>)
    requires |pond| >= 3
    ensures |r| == kSpokeLength
  {
    var n := |pond| - 2;
    CirclesTexUpTo(m, TexEdge(s, n), TexEdge(s + 1, n), kCountOfSlopedCircleSteps)
  }

  /** The first s spokes. */
  function SpokesUpTo(m: Libm, pond: seq<Vec3>, s: nat): (r: seq<Vec3>)
    requires RimReady(m, pond) && s <= |pond| - 2
    ensures |r| == kSpokeLength * s
  {
    if s == 0 then [] else SpokesUpTo(m, pond, s - 1) + SpokeVerts(m, pond, s - 1)
  }

  function SpokesTexUpTo(m: Libm, pond: seq<Vec3>, s: nat): (r: seq<Vec2>)
    requires |pond| >= 3 && s <= |pond| - 2
    ensures |r| == kSpokeLength * s
  {
    if s == 0 then [] else SpokesTexUpTo(m, pond, s - 1) + SpokeTex(m, pond, s - 1)
  }

  /** The whole shore: 2 * (7 + 1) vertices for each of the |pond| - 2 spokes. */
  function ShoreVerts(m: Libm, pond: seq<Vec3>): (r: seq<Vec3>)
    requires RimReady(m, pond)
    ensures |r| == kSpokeLength * (|pond| - 2)
  {
    SpokesUpTo(m, pond, |pond| - 2)
  }

  function ShoreTex(m: Libm, pond: seq<Vec3>): (r: seq<Vec2>)
    requires |pond| >= 3
    ensures |r| == kSpokeLength * (|pond| - 2)
  {
    SpokesTexUpTo(m, pond, |pond| - 2)
  }

  /** Slot j of spoke s of the shore is slot j of that spoke's own vertices. */
  lemma {:induction false} ShoreSlot(m: Libm, pond: seq<Vec3>, n: nat, s: nat, j: nat)
    requires RimReady(m, pond) && s < n <= |pond| - 2 && j < kSpokeLength
    ensures SpokesUpTo(m, pond, n)[kSpokeLength * s + j] == SpokeVerts(m, pond, s)[j]
    ensures SpokesTexUpTo(m, pond, n)[kSpokeLength * s + j] == SpokeTex(m, pond, s)[j]
  {
    if s < n - 1 {
      ShoreSlot(m, pond, n - 1, s, j);
    }
  }

  /** A spoke's first c + 1 circles are its first c circles and then circle c. */
  lemma CircleStep(m: Libm, p1: Vec3, p2: Vec3, u1: real, u2: real, c: nat)
    requires SqrtLaw(m) && RadialSq(p1) > 0.0 && RadialSq(p2) > 0.0 && c < kCountOfSlopedCircleSteps
    ensures CirclesUpTo(m, p1, p2, c + 1) == CirclesUpTo(m, p1, p2, c) + CircleVerts(m, p1, p2, c)
    ensures CirclesTexUpTo(m, u1, u2, c + 1) == CirclesTexUpTo(m, u1, u2, c) + CircleTex(m, u1, u2, c)
  {
  }

  /** Slot j of circle c of a spoke is slot j of that circle's own vertices. */
  lemma {:induction false} CircleSlot(m: Libm, p1: Vec3, p2: Vec3, u1: real, u2: real, n: nat, c: nat, j: nat)
    requires SqrtLaw(m) && RadialSq(p1) > 0.0 && RadialSq(p2) > 0.0
    requires c < n <= kCountOfSlopedCircleSteps && j < |CircleVerts(m, p1, p2, c)|
    ensures CirclesUpTo(m, p1, p2, n)[CirclesCount(c) + j] == CircleVerts(m, p1, p2, c)[j]
    ensures CirclesTexUpTo(m, u1, u2, n)[CirclesCount(c) + j] == CircleTex(m, u1, u2, c)[j]
  {
    if c < n - 1 {
      CircleSlot(m, p1, p2, u1, u2, n - 1, c, j);
    }
  }

  /** The circle that slot r of a spoke belongs to. */
  function CircleOf(r: nat): (c: nat)
    requires r < kSpokeLength
    ensures c < kCountOfSlopedCircleSteps
    ensures CirclesCount(c) <= r < CirclesCount(c) + (if c == 0 || c == kCountOfSlopedCircleSteps - 1 then 3 else 2)
  {
    if r < 3 then 0 else if r < 13 then (r - 1) / 2 else kCountOfSlopedCircleSteps - 1
  }

  /** Every shore slot, traced to its spoke, its circle and its place in the circle. */
  lemma ShoreSlotOf(m: Libm, pond: seq<Vec3>, k: nat)
    requires RimReady(m, pond) && k < kSpokeLength * (|pond| - 2)
    ensures var s, c := k / kSpokeLength, CircleOf(k % kSpokeLength);
            var j := k % kSpokeLength - CirclesCount(c);
            var n := |pond| - 2;
            && s < n && j < |CircleVerts(m, pond[s + 1], pond[s + 2], c)|
            && ShoreVerts(m, pond)[k] == CircleVerts(m, pond[s + 1], pond[s + 2], c)[j]
            && ShoreTex(m, pond)[k] == CircleTex(m, TexEdge(s, n), TexEdge(s + 1, n), c)[j]
  {
    var s, r := k / kSpokeLength, k % kSpokeLength;
    var c := CircleOf(r);
    var n := |pond| - 2;
    assert k == kSpokeLength * s + r;
    ShoreSlot(m, pond, n, s, r);
    CircleSlot(m, pond[s + 1], pond[s + 2], TexEdge(s, n), TexEdge(s + 1, n),
               kCountOfSlopedCircleSteps, c, r - CirclesCount(c));
  }

  /** The innermost circle lies on the pond edge: at step 0 a sloped vertex
      keeps the rim vertex's x and z, at height powf(0, 1/3) = 0. */
  lemma InnerCircleOnPond(m: Libm, p: Vec3, d: real)
    requires PowLaw(m) && d != 0.0
    ensures Sloped(m, p, d, 0) == Vec3(p.x, 0.0, p.z)
  {
  }

  /** Each sloped circle c lies at horizontal distance c * 2 / 7 beyond the
      pond edge, and above the ground. */
  lemma SlopedBeyondRim(m: Libm, p: Vec3, c: nat)
    requires SqrtLaw(m) && PowLaw(m) && RadialSq(p) > 0.0
    ensures Spread(m, p) > 0.0
    ensures RadialSq(Sloped(m, p, Spread(m, p), c))
         == Sq(Spread(m, p) + (c as real) / (kCountOfSlopedCircleSteps as real) * kRadiusOfSlopedCircle)
    ensures Sloped(m, p, Spread(m, p), c).y >= 0.0
  {
    var d := Spread(m, p);
    var t := (c as real) / (kCountOfSlopedCircleSteps as real) * kRadiusOfSlopedCircle;
    var k := 1.0 + t / d;
    assert p.x / d * (c as real) / (kCountOfSlopedCircleSteps as real) * kRadiusOfSlopedCircle == p.x * (t / d);
    assert p.z / d * (c as real) / (kCountOfSlopedCircleSteps as real) * kRadiusOfSlopedCircle == p.z * (t / d);
    var v := Sloped(m, p, d, c);
    assert v == Vec3(p.x * k, v.y, p.z * k);
    RadialScale(p, k, v.y);
    SqOfProduct(d, k);
    assert d * k == d + t;
  }

  /** Every shore vertex stands at or above the ground; the flat circle sits
      at the shore height on the universe edge. */
  lemma CircleHeights(m: Libm, p1: Vec3, p2: Vec3, c: nat, j: nat)
    requires SqrtLaw(m) && PowLaw(m) && RadialSq(p1) > 0.0 && RadialSq(p2) > 0.0
    requires j < |CircleVerts(m, p1, p2, c)|
    ensures CircleVerts(m, p1, p2, c)[j].y >= 0.0
    ensures c == kCountOfSlopedCircleSteps - 1 ==>
              CircleVerts(m, p1, p2, c)[j].y == kShoreHeight
              && RadialSq(CircleVerts(m, p1, p2, c)[j]) == Sq(kUniverseEdgeRadius)
  {
    if c == kCountOfSlopedCircleSteps - 1 {
      PushedOutOnCircle(m, p1, kUniverseEdgeRadius, kShoreHeight);
      PushedOutOnCircle(m, p2, kUniverseEdgeRadius, kShoreHeight);
    } else {
      SlopedBeyondRim(m, p1, c);
      SlopedBeyondRim(m, p2, c);
    }
  }

  /** The sloped part uses the top quarter of the texture, the flat circle
      its bottom edge. */
  lemma CircleTexRows(m: Libm, u1: real, u2: real, c: nat, j: nat)
    requires PowLaw(m) && c < kCountOfSlopedCircleSteps && j < |CircleTex(m, u1, u2, c)|
    ensures c < kCountOfSlopedCircleSteps - 1 ==> 1.0 - kPortionOfTexture <= CircleTex(m, u1, u2, c)[j].y <= 1.0
    ensures c == kCountOfSlopedCircleSteps - 1 ==> CircleTex(m, u1, u2, c)[j].y == kFlatTextureY
    ensures CircleTex(m, u1, u2, c)[j].x == if j == 0 || (c == 0 && j == 1) then u1 else u2
  {
    if c < kCountOfSlopedCircleSteps - 1 {
      QuotientInUnit(c as real, (kCountOfSlopedCircleSteps as real) - 2.0);
    }
  }

  /** The texture U of the spoke edges runs from 0 to 6 around the pond,
      and spoke s ends where spoke s + 1 begins. */
  lemma TexEdgeRange(s: nat, n: nat)
    requires s <= n && n > 0
    ensures 0.0 <= TexEdge(s, n) <= 2.0 * kShoreTextureRepeatCount
    ensures TexEdge(0, n) == 0.0 && TexEdge(n, n) == 2.0 * kShoreTextureRepeatCount
  {
    QuotientInUnit(s as real, n as real);
    SixTimesQuotient(s as real, n as real);
    SixTimesQuotient(0.0, n as real);
    SixTimesQuotient(n as real, n as real);
    assert (n as real) / (n as real) == 1.0;
  }

  lemma SixTimesQuotient(a: real, c: real)
    requires c > 0.0
    ensures kShoreTextureRepeatCount * 2.0 * a / c == 6.0 * (a / c)
  {
    var q := a / c;
    assert a == q * c;
    assert kShoreTextureRepeatCount * 2.0 * a == (6.0 * q) * c;
  }

  /** Every shore vertex stands at or above the ground; every texel takes
      its V from the top quarter of the texture or from the flat circle's
      row, and its U from [0, 6]. */
  lemma ShoreBounds(m: Libm, pond: seq<Vec3>, k: nat)
    requires RimReady(m, pond) && PowLaw(m) && k < kSpokeLength * (|pond| - 2)
    ensures ShoreVerts(m, pond)[k].y >= 0.0
    ensures 1.0 - kPortionOfTexture <= ShoreTex(m, pond)[k].y <= 1.0 || ShoreTex(m, pond)[k].y == kFlatTextureY
    ensures 0.0 <= ShoreTex(m, pond)[k].x <= 2.0 * kShoreTextureRepeatCount
  {
    ShoreSlotOf(m, pond, k);
    var s, c := k / kSpokeLength, CircleOf(k % kSpokeLength);
    var j := k % kSpokeLength - CirclesCount(c);
    var n := |pond| - 2;
    CircleHeights(m, pond[s + 1], pond[s + 2], c, j);
    CircleTexRows(m, TexEdge(s, n), TexEdge(s + 1, n), c, j);
    TexEdgeRange(s, n);
    TexEdgeRange(s + 1, n);
  }

  /** Each spoke starts on the pond edge: its first three vertices are the
      two rim vertices it joins, brought to height 0 (the pond's own height),
      the first of them twice. */
  lemma ShoreMeetsPond(m: Libm, pond: seq<Vec3>, s: nat)
    requires RimReady(m, pond) && PowLaw(m) && s < |pond| - 2
    ensures ShoreVerts(m, pond)[kSpokeLength * s] == Vec3(pond[s + 1].x, 0.0, pond[s + 1].z)
    ensures ShoreVerts(m, pond)[kSpokeLength * s + 1] == Vec3(pond[s + 1].x, 0.0, pond[s + 1].z)
    ensures ShoreVerts(m, pond)[kSpokeLength * s + 2] == Vec3(pond[s + 2].x, 0.0, pond[s + 2].z)
  {
    var p1, p2 := pond[s + 1], pond[s + 2];
    ShoreSlot(m, pond, |pond| - 2, s, 0);
    ShoreSlot(m, pond, |pond| - 2, s, 1);
    ShoreSlot(m, pond, |pond| - 2, s, 2);
    CircleSlot(m, p1, p2, 0.0, 0.0, kCountOfSlopedCircleSteps, 0, 0);
    CircleSlot(m, p1, p2, 0.0, 0.0, kCountOfSlopedCircleSteps, 0, 1);
    CircleSlot(m, p1, p2, 0.0, 0.0, kCountOfSlopedCircleSteps, 0, 2);
    InnerCircleOnPond(m, p1, Spread(m, p1));
    InnerCircleOnPond(m, p2, Spread(m, p2));
  }

  /** Each spoke ends on the universe edge: its last three vertices lie on
      the circle of radius 150 at the shore height. */
  lemma ShoreReachesHorizon(m: Libm, pond: seq<Vec3>, s: nat, j: nat)
    requires RimReady(m, pond) && PowLaw(m) && s < |pond| - 2 && 13 <= j < kSpokeLength
    ensures ShoreVerts(m, pond)[kSpokeLength * s + j].y == kShoreHeight
    ensures RadialSq(ShoreVerts(m, pond)[kSpokeLength * s + j]) == Sq(kUniverseEdgeRadius)
  {
    var k := kSpokeLength * s + j;
    assert k / kSpokeLength == s && k % kSpokeLength == j;
    ShoreSlotOf(m, pond, k);
    CircleHeights(m, pond[s + 1], pond[s + 2], kCountOfSlopedCircleSteps - 1, j - 13);
  }

  /** One pass of the circle loop: the vertices and texels of circle c of
      the spoke, written at dest. */
  method EmitCircle(m: Libm, vertAry: array<Vec3>, texAry: array<Vec2>, dest: nat,
                    p1: Vec3, p2: Vec3, d1: real, d2: real, u1: real, u2: real, c: nat)
    returns (next: nat)
    requires SqrtLaw(m) && RadialSq(p1) > 0.0 && RadialSq(p2) > 0.0
    requires d1 == Spread(m, p1) && d2 == Spread(m, p2) && c < kCountOfSlopedCircleSteps
    requires dest + |CircleVerts(m, p1, p2, c)| <= vertAry.Length && texAry.Length == vertAry.Length
    modifies vertAry, texAry
    ensures next == dest + |CircleVerts(m, p1, p2, c)|
    ensures Spliced(old(vertAry[..]), vertAry[..], dest, next, CircleVerts(m, p1, p2, c))
    ensures Spliced(old(texAry[..]), texAry[..], dest, next, CircleTex(m, u1, u2, c))
  {
    next := dest;
    if c == kCountOfSlopedCircleSteps - 1 {
      var f1 := PushedOut(m, p1, kUniverseEdgeRadius, kShoreHeight);
      vertAry[next] := f1;
      texAry[next] := Vec2(u1, kFlatTextureY);
      next := next + 1;
      for i := 0 to 2
        invariant next == dest + 1 + i
        invariant vertAry[..dest] == old(vertAry[..dest]) && texAry[..dest] == old(texAry[..dest])
        invariant vertAry[dest + 3..] == old(vertAry[dest + 3..]) && texAry[dest + 3..] == old(texAry[dest + 3..])
        invariant vertAry[dest] == f1 && texAry[dest] == Vec2(u1, kFlatTextureY)
        invariant forall k :: dest + 1 <= k < next ==> vertAry[k] == PushedOut(m, p2, kUniverseEdgeRadius, kShoreHeight)
        invariant forall k :: dest + 1 <= k < next ==> texAry[k] == Vec2(u2, kFlatTextureY)
      {
        vertAry[next] := PushedOut(m, p2, kUniverseEdgeRadius, kShoreHeight);
        texAry[next] := Vec2(u2, kFlatTextureY);
        next := next + 1;
      }
    } else {
      var v1 := Sloped(m, p1, d1, c);
      var t1 := Vec2(u1, SlopedTexY(m, c));
      vertAry[next] := v1;
      texAry[next] := t1;
      next := next + 1;
      if c == 0 {
        vertAry[next] := v1;
        texAry[next] := t1;
        next := next + 1;
      }
      vertAry[next] := Sloped(m, p2, d2, c);
      texAry[next] := Vec2(u2, SlopedTexY(m, c));
      next := next + 1;
    }
    assert vertAry[dest..next] == CircleVerts(m, p1, p2, c);
    assert texAry[dest..next] == CircleTex(m, u1, u2, c);
  }

  /** One pass of the spoke loop: the seven circles from p1 to p2, written at dest. */
  method EmitSpoke(m: Libm, vertAry: array<Vec3>, texAry: array<Vec2>, dest: nat,
                   p1: Vec3, p2: Vec3, d1: real, d2: real, u1: real, u2: real)
    returns (next: nat)
    requires SqrtLaw(m) && RadialSq(p1) > 0.0 && RadialSq(p2) > 0.0
    requires d1 == Spread(m, p1) && d2 == Spread(m, p2)
    requires dest + kSpokeLength <= vertAry.Length && texAry.Length == vertAry.Length
    modifies vertAry, texAry
    ensures next == dest + kSpokeLength
    ensures Spliced(old(vertAry[..]), vertAry[..], dest, next, CirclesUpTo(m, p1, p2, kCountOfSlopedCircleSteps))
    ensures Spliced(old(texAry[..]), texAry[..], dest, next, CirclesTexUpTo(m, u1, u2, kCountOfSlopedCircleSteps))
  {
    next := dest;
    var circle: nat := 0;
    while circle < kCountOfSlopedCircleSteps
      invariant circle <= kCountOfSlopedCircleSteps && next == dest + CirclesCount(circle)
      invariant Spliced(old(vertAry[..]), vertAry[..], dest, next, CirclesUpTo(m, p1, p2, circle))
      invariant Spliced(old(texAry[..]), texAry[..], dest, next, CirclesTexUpTo(m, u1, u2, circle))
    {
      ghost var verts, texels, at := vertAry[..], texAry[..], next;
      next := EmitCircle(m, vertAry, texAry, next, p1, p2, d1, d2, u1, u2, circle);
      SpliceTwo(old(vertAry[..]), verts, vertAry[..], dest, at, next,
                CirclesUpTo(m, p1, p2, circle), CircleVerts(m, p1, p2, circle));
      CircleStep(m, p1, p2, u1, u2, circle);
      SpliceTwo(old(texAry[..]), texels, texAry[..], dest, at, next,
                CirclesTexUpTo(m, u1, u2, circle), CircleTex(m, u1, u2, circle));
      circle := circle + 1;
    }
  }

  /** createShoreBufferObjects without the OpenGL upload. */
  method CreateShoreBufferObjects(m: Libm, pondVerts: array<Vec3>)
    returns (vertAry: array<Vec3>, texAry: array<Vec2>, countOfVertices: nat)
    requires RimReady(m, pondVerts[..])
    ensures fresh(vertAry) && fresh(texAry)
    ensures countOfVertices == vertAry.Length == texAry.Length == kSpokeLength * (pondVerts.Length - 2)
    ensures vertAry[..] == ShoreVerts(m, pondVerts[..]) && texAry[..] == ShoreTex(m, pondVerts[..])
  {
    ghost var pond := pondVerts[..];
    var countOfShoreVertices := pondVerts.Length - 2;
    countOfVertices := countOfShoreVertices * 2 * (kCountOfSlopedCircleSteps + 1);
    vertAry := new Vec3[countOfVertices];
    texAry := new Vec2[countOfVertices];
    var p2 := pondVerts[1];
    var d2 := m.sqrt(Sq(p2.x) + Sq(p2.z));
    var dest: nat := 0;
    var spoke: nat := 0;
    while spoke < countOfShoreVertices
      invariant spoke <= countOfShoreVertices && dest == kSpokeLength * spoke
      invariant p2 == pond[spoke + 1] && d2 == Spread(m, p2)
      invariant vertAry[..dest] == SpokesUpTo(m, pond, spoke)
      invariant texAry[..dest] == SpokesTexUpTo(m, pond, spoke)
    {
      var p1 := p2;
      p2 := pondVerts[spoke + 2];
      var d1 := d2;
      d2 := m.sqrt(Sq(p2.x) + Sq(p2.z));
      var texEdgeX1 := kShoreTextureRepeatCount * 2.0 * (spoke as real) / (countOfShoreVertices as real);
      var texEdgeX2 := kShoreTextureRepeatCount * 2.0 * ((spoke + 1) as real) / (countOfShoreVertices as real);
      ghost var verts, texels := vertAry[..], texAry[..];
      var next := EmitSpoke(m, vertAry, texAry, dest, p1, p2, d1, d2, texEdgeX1, texEdgeX2);
      SpliceExtends(verts, vertAry[..], dest, next, SpokeVerts(m, pond, spoke));
      SpliceExtends(texels, texAry[..], dest, next, SpokeTex(m, pond, spoke));
      dest := next;
      spoke := spoke + 1;
    }
  }
}
