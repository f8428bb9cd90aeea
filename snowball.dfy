/** The snowball mesh (hacks/glx/snowmen.c:324-470): a tetrahedron whose four
    faces are subdivided three times, each new vertex pushed out to the unit
    sphere. Subdivision writes triangles through one shared cursor into a
    vertex array and a texture-coordinate array of the same length. */
module Snowball {
  import opened Geometry
  import opened Splices

  /** 4 to the power k, for k >= 0; a non-positive iteration emits one triangle. */
  function Pow4(k: int): (r: nat)
    ensures r >= 1
    decreases k
  {
    if k <= 0 then 1 else 4 * Pow4(k - 1)
  }

  /** The corners divideTriangle emits for triangle (a, b, c) at the given
      iteration, in emission order, where mid makes the new corner on an edge.
      Vertices and texture coordinates follow the same order, each with its
      own rule. */
  function Subdivide<T>(mid: (T, T) -> T, a: T, b: T, c: T, iteration: int): (r: seq<T>)
    ensures |r| == 3 * Pow4(iteration)
    decreases iteration
  {
    if iteration > 0 then
      var m1 := mid(a, b);
      var m2 := mid(a, c);
      var m3 := mid(c, b);
      Subdivide(mid, a, m1, m2, iteration - 1)
      + Subdivide(mid, c, m2, m3, iteration - 1)
      + Subdivide(mid, b, m3, m1, iteration - 1)
      + Subdivide(mid, m1, m3, m2, iteration - 1)
    else
      [a, b, c]
  }

  /** A property that the edge rule keeps (it holds of the new corner whenever
      it holds of both ends) holds of everything a subdivision of corners
      that have it emits. */
  lemma {:induction false} SubdivideClosed<T>(mid: (T, T) -> T, p: T -> bool, a: T, b: T, c: T, iteration: int)
    requires forall x, y :: p(x) && p(y) ==> p(mid(x, y))
    requires p(a) && p(b) && p(c)
    ensures forall v <- Subdivide(mid, a, b, c, iteration) :: p(v)
    decreases iteration
  {
    if iteration > 0 {
      var m1, m2, m3 := mid(a, b), mid(a, c), mid(c, b);
      SubdivideClosed(mid, p, a, m1, m2, iteration - 1);
      SubdivideClosed(mid, p, c, m2, m3, iteration - 1);
      SubdivideClosed(mid, p, b, m3, m1, iteration - 1);
      SubdivideClosed(mid, p, m1, m3, m2, iteration - 1);
    }
  }

  /** A subdivided triangle starts with its own first corner. */
  lemma {:induction false} SubdivideStart<T>(mid: (T, T) -> T, a: T, b: T, c: T, iteration: int)
    ensures Subdivide(mid, a, b, c, iteration)[0] == a
    decreases iteration
  {
    if iteration > 0 {
      SubdivideStart(mid, a, mid(a, b), mid(a, c), iteration - 1);
    }
  }

  /** The vertex rule: the sum of the two ends, normalized. */
  function Midpoint(m: Libm, a: Vec3, b: Vec3): Vec3
  {
    NormalizeVertex(m, Add(a, b))
  }

  function SphereMid(m: Libm): (Vec3, Vec3) -> Vec3
  {
    (a: Vec3, b: Vec3) => Midpoint(m, a, b)
  }

  /** The texture rule: the average of the two ends. */
  function TexMidpoint(a: Vec2, b: Vec2): Vec2
  {
    Vec2((a.x + b.x) / 2.0, (a.y + b.y) / 2.0)
  }

  /** v lies strictly on the positive side of the plane through the origin
      whose normal is n. */
  predicate OnSide(n: Vec3, v: Vec3)
  {
    Dot(n, v) > 0.0
  }

  lemma DotOfSum(n: Vec3, a: Vec3, b: Vec3)
    ensures Dot(n, Add(a, b)) == Dot(n, a) + Dot(n, b)
  {
  }

  /** Two points in front of a plane through the origin have a midpoint in
      front of it, on the unit sphere: their sum is never the zero vector. */
  lemma MidpointOnSide(m: Libm, n: Vec3, a: Vec3, b: Vec3)
    requires SqrtLaw(m) && OnSide(n, a) && OnSide(n, b)
    ensures OnSide(n, Midpoint(m, a, b)) && NormSq(Midpoint(m, a, b)) == 1.0
  {
    DotOfSum(n, a, b);
    NormalizeKeepsSide(m, n, Add(a, b));
  }

  /** divideTriangle (hacks/glx/snowmen.c:341-388), with the vertex rule
      passed in as mid and the texture rule as texMid (the snowball passes
      SphereMid and TexMidpoint). The cursor advances by exactly 3 * 4^iteration; the
      slots in between receive the subdivided triangle and every other slot
      is left alone. */
  method DivideTriangle(mid: (Vec3, Vec3) -> Vec3, texMid: (Vec2, Vec2) -> Vec2, vertAry: array<Vec3>, texAry: array<Vec2>,
                        va: Vec3, vb: Vec3, vc: Vec3, ta: Vec2, tb: Vec2, tc: Vec2,
                        iteration: int, index: nat) returns (next: nat)
    requires index + 3 * Pow4(iteration) <= vertAry.Length
    requires index + 3 * Pow4(iteration) <= texAry.Length
    modifies vertAry, texAry
    ensures next == index + 3 * Pow4(iteration)
    ensures Spliced(old(vertAry[..]), vertAry[..], index, next, Subdivide(mid, va, vb, vc, iteration))
    ensures Spliced(old(texAry[..]), texAry[..], index, next, Subdivide(texMid, ta, tb, tc, iteration))
    decreases iteration
  {
    if iteration > 0 {
      var v1 := mid(va, vb);
      var t1 := texMid(ta, tb);
      var v2 := mid(va, vc);
      var t2 := texMid(ta, tc);
      var v3 := mid(vc, vb);
      var t3 := texMid(tc, tb);
      ghost var vs0, ts0 := vertAry[..], texAry[..];
      var i1 := DivideTriangle(mid, texMid, vertAry, texAry, va, v1, v2, ta, t1, t2, iteration - 1, index);
      ghost var vs1, ts1 := vertAry[..], texAry[..];
      var i2 := DivideTriangle(mid, texMid, vertAry, texAry, vc, v2, v3, tc, t2, t3, iteration - 1, i1);
      ghost var vs2, ts2 := vertAry[..], texAry[..];
      SpliceTwo(vs0, vs1, vs2, index, i1, i2, Subdivide(mid, va, v1, v2, iteration - 1),
                Subdivide(mid, vc, v2, v3, iteration - 1));
      SpliceTwo(ts0, ts1, ts2, index, i1, i2, Subdivide(texMid, ta, t1, t2, iteration - 1),
                Subdivide(texMid, tc, t2, t3, iteration - 1));
      var i3 := DivideTriangle(mid, texMid, vertAry, texAry, vb, v3, v1, tb, t3, t1, iteration - 1, i2);
      ghost var vs3, ts3 := vertAry[..], texAry[..];
      SpliceTwo(vs0, vs2, vs3, index, i2, i3, Subdivide(mid, va, v1, v2, iteration - 1)
                + Subdivide(mid, vc, v2, v3, iteration - 1), Subdivide(mid, vb, v3, v1, iteration - 1));
      SpliceTwo(ts0, ts2, ts3, index, i2, i3, Subdivide(texMid, ta, t1, t2, iteration - 1)
                + Subdivide(texMid, tc, t2, t3, iteration - 1), Subdivide(texMid, tb, t3, t1, iteration - 1));
      next := DivideTriangle(mid, texMid, vertAry, texAry, v1, v3, v2, t1, t3, t2, iteration - 1, i3);
      SpliceTwo(vs0, vs3, vertAry[..], index, i3, next, Subdivide(mid, va, v1, v2, iteration - 1)
                + Subdivide(mid, vc, v2, v3, iteration - 1) + Subdivide(mid, vb, v3, v1, iteration - 1),
                Subdivide(mid, v1, v3, v2, iteration - 1));
      SpliceTwo(ts0, ts3, texAry[..], index, i3, next, Subdivide(texMid, ta, t1, t2, iteration - 1)
                + Subdivide(texMid, tc, t2, t3, iteration - 1) + Subdivide(texMid, tb, t3, t1, iteration - 1),
                Subdivide(texMid, t1, t3, t2, iteration - 1));
    } else {
      vertAry[index] := va;
      texAry[index] := ta;
      vertAry[index + 1] := vb;
      texAry[index + 1] := tb;
      vertAry[index + 2] := vc;
      texAry[index + 2] := tc;
      next := index + 3;
    }
  }

  const kCountOfIterations: int := 3

  /** The tetrahedron the snowball starts from (hacks/glx/snowmen.c:409-419). */
  const kVertSeed: seq<Vec3> := [
    Vec3(0.0, 1.0, 0.0),
    Vec3(0.816497, -0.333333, 0.471405),
    Vec3(0.0, -0.333333, -0.942809),
    Vec3(-0.816497, -0.333333, 0.471405)
  ]

  const kTexA: real := 0.211325
  const kTexB: real := 0.788675

  /** Texture seeds: the centre, then two points on each edge of the image
      (hacks/glx/snowmen.c:420-439). */
  const kTexSeed: seq<Vec2> := [
    Vec2(0.5, 0.5),
    Vec2(kTexB, 1.0), Vec2(kTexA, 1.0),
    Vec2(1.0, kTexA), Vec2(1.0, kTexB),
    Vec2(0.0, kTexB), Vec2(0.0, kTexA),
    Vec2(kTexA, 0.0), Vec2(kTexB, 0.0)
  ]

  /** A root triangle: three corners and their texture coordinates. */
  datatype Corners = Corners(a: Vec3, b: Vec3, c: Vec3, ta: Vec2, tb: Vec2, tc: Vec2)

  /** The four root triangles, face, bottom, left and right, as the four
      top-level divideTriangle calls pass the seeds
      (hacks/glx/snowmen.c:441-463). */
  const kFace: Corners := Corners(kVertSeed[0], kVertSeed[1], kVertSeed[2], kTexSeed[0], kTexSeed[1], kTexSeed[2])
  const kBottom: Corners := Corners(kVertSeed[3], kVertSeed[2], kVertSeed[1], kTexSeed[0], kTexSeed[3], kTexSeed[4])
  const kLeft: Corners := Corners(kVertSeed[0], kVertSeed[2], kVertSeed[3], kTexSeed[0], kTexSeed[5], kTexSeed[6])
  const kRight: Corners := Corners(kVertSeed[0], kVertSeed[3], kVertSeed[1], kTexSeed[0], kTexSeed[7], kTexSeed[8])
  const kRoots: seq<Corners> := [kFace, kBottom, kLeft, kRight]

  /** Four root triangles subdivided one after another. */
  function FourVerts(mid: (Vec3, Vec3) -> Vec3, r0: Corners, r1: Corners, r2: Corners, r3: Corners,
                     iteration: int): (r: seq<Vec3>)
    ensures |r| == 4 * (3 * Pow4(iteration))
  {
    Subdivide(mid, r0.a, r0.b, r0.c, iteration) + Subdivide(mid, r1.a, r1.b, r1.c, iteration)
    + Subdivide(mid, r2.a, r2.b, r2.c, iteration) + Subdivide(mid, r3.a, r3.b, r3.c, iteration)
  }

  function FourTex(texMid: (Vec2, Vec2) -> Vec2, r0: Corners, r1: Corners, r2: Corners, r3: Corners, iteration: int): (r: seq<Vec2>)
    ensures |r| == 4 * (3 * Pow4(iteration))
  {
    Subdivide(texMid, r0.ta, r0.tb, r0.tc, iteration) + Subdivide(texMid, r1.ta, r1.tb, r1.tc, iteration)
    + Subdivide(texMid, r2.ta, r2.tb, r2.tc, iteration) + Subdivide(texMid, r3.ta, r3.tb, r3.tc, iteration)
  }

  /** The whole snowball vertex buffer and its texture buffer, for a given
      edge rule (the snowball's own: SphereMid and TexMidpoint). */
  function SnowballVerts(mid: (Vec3, Vec3) -> Vec3): (r: seq<Vec3>)
    ensures |r| == 768
  {
    SnowballSlots();
    FourVerts(mid, kFace, kBottom, kLeft, kRight, kCountOfIterations)
  }

  function SnowballTex(texMid: (Vec2, Vec2) -> Vec2): (r: seq<Vec2>)
    ensures |r| == 768
  {
    SnowballSlots();
    FourTex(texMid, kFace, kBottom, kLeft, kRight, kCountOfIterations)
  }

  lemma SnowballSlots()
    ensures 3 * Pow4(kCountOfIterations) == 192 && Pow4(kCountOfIterations + 1) * 3 == 768
  {
  }

  /** The four top-level divideTriangle calls, sharing one cursor from slot 0. */
  method FillFour(mid: (Vec3, Vec3) -> Vec3, texMid: (Vec2, Vec2) -> Vec2, r0: Corners, r1: Corners, r2: Corners, r3: Corners, iteration: int,
                  vertAry: array<Vec3>, texAry: array<Vec2>)
    requires vertAry.Length == texAry.Length == 4 * (3 * Pow4(iteration))
    modifies vertAry, texAry
    ensures vertAry[..] == FourVerts(mid, r0, r1, r2, r3, iteration)
    ensures texAry[..] == FourTex(texMid, r0, r1, r2, r3, iteration)
  {
    var index: nat := 0;
    ghost var vs0, ts0 := vertAry[..], texAry[..];
    index := DivideTriangle(mid, texMid, vertAry, texAry, r0.a, r0.b, r0.c, r0.ta, r0.tb, r0.tc, iteration, index);
    ghost var i1, vs1, ts1 := index, vertAry[..], texAry[..];
    index := DivideTriangle(mid, texMid, vertAry, texAry, r1.a, r1.b, r1.c, r1.ta, r1.tb, r1.tc, iteration, index);
    ghost var i2, vs2, ts2 := index, vertAry[..], texAry[..];
    index := DivideTriangle(mid, texMid, vertAry, texAry, r2.a, r2.b, r2.c, r2.ta, r2.tb, r2.tc, iteration, index);
    ghost var i3, vs3, ts3 := index, vertAry[..], texAry[..];
    index := DivideTriangle(mid, texMid, vertAry, texAry, r3.a, r3.b, r3.c, r3.ta, r3.tb, r3.tc, iteration, index);
    SpliceFour(vs0, vs1, vs2, vs3, vertAry[..], i1, i2, i3, index,
               Subdivide(mid, r0.a, r0.b, r0.c, iteration), Subdivide(mid, r1.a, r1.b, r1.c, iteration),
               Subdivide(mid, r2.a, r2.b, r2.c, iteration), Subdivide(mid, r3.a, r3.b, r3.c, iteration));
    SpliceFour(ts0, ts1, ts2, ts3, texAry[..], i1, i2, i3, index,
               Subdivide(texMid, r0.ta, r0.tb, r0.tc, iteration), Subdivide(texMid, r1.ta, r1.tb, r1.tc, iteration),
               Subdivide(texMid, r2.ta, r2.tb, r2.tc, iteration), Subdivide(texMid, r3.ta, r3.tb, r3.tc, iteration));
  }

  /** createSnowballBufferObjects (hacks/glx/snowmen.c:390-465) without the
      OpenGL upload: two fresh arrays of 4^(3+1) * 3 slots, filled by the four
      root subdivisions, face, bottom, left and right, one after another. */
  method CreateSnowballBufferObjects(m: Libm) returns (vertAry: array<Vec3>, texAry: array<Vec2>, countOfVertices: nat)
    ensures fresh(vertAry) && fresh(texAry)
    ensures countOfVertices == vertAry.Length == texAry.Length == 768
    ensures vertAry[..] == SnowballVerts(SphereMid(m)) && texAry[..] == SnowballTex(TexMidpoint)
  {
    SnowballSlots();
    countOfVertices := Pow4(kCountOfIterations + 1) * 3;
    vertAry := new Vec3[countOfVertices];
    texAry := new Vec2[countOfVertices];
    FillSnowball(SphereMid(m), TexMidpoint, vertAry, texAry);
  }

  /** The four root subdivisions of the snowball, face, bottom, left and
      right, written into buffers of 768 slots. */
  method FillSnowball(mid: (Vec3, Vec3) -> Vec3, texMid: (Vec2, Vec2) -> Vec2, vertAry: array<Vec3>, texAry: array<Vec2>)
    requires vertAry.Length == texAry.Length == 768
    modifies vertAry, texAry
    ensures vertAry[..] == SnowballVerts(mid) && texAry[..] == SnowballTex(texMid)
  {
    SnowballSlots();
    FillFour(mid, texMid, kFace, kBottom, kLeft, kRight, kCountOfIterations, vertAry, texAry);
  }

  /** The plane a root triangle's subdivision stays in front of: the one whose
      normal is the sum of the triangle's corners. */
  function Normal(t: Corners): Vec3
  {
    Add(Add(t.a, t.b), t.c)
  }

  predicate Fronted(t: Corners)
  {
    OnSide(Normal(t), t.a) && OnSide(Normal(t), t.b) && OnSide(Normal(t), t.c)
  }

  /** Each root triangle lies in front of the plane its corner sum defines. */
  lemma RootFronted(t: Corners)
    requires t in kRoots
    ensures Fronted(t)
  {
    if t == kFace {
      assert Fronted(kFace);
    } else if t == kBottom {
      assert Fronted(kBottom);
    } else if t == kLeft {
      assert Fronted(kLeft);
    } else {
      assert Fronted(kRight);
    }
  }

  /** The corners of each root triangle are seeds, and its texture corners
      lie inside the image. */
  lemma RootCorners(t: Corners)
    requires t in kRoots
    ensures t.a in kVertSeed && t.b in kVertSeed && t.c in kVertSeed
    ensures InUnitSquare(t.ta) && InUnitSquare(t.tb) && InUnitSquare(t.tc)
  {
  }

  /** v is in front of the plane with normal n, and a seed or on the unit sphere. */
  ghost predicate Placed(n: Vec3, v: Vec3)
  {
    OnSide(n, v) && (v in kVertSeed || NormSq(v) == 1.0)
  }

  /** The vertex rule keeps Placed: both ends in front of the plane give a
      midpoint in front of it, on the sphere. */
  lemma SphereMidPlaced(m: Libm, n: Vec3)
    requires SqrtLaw(m)
    ensures forall x, y :: Placed(n, x) && Placed(n, y) ==> Placed(n, SphereMid(m)(x, y))
  {
    forall x, y | Placed(n, x) && Placed(n, y)
      ensures Placed(n, SphereMid(m)(x, y))
    {
      MidpointOnSide(m, n, x, y);
    }
  }

  /** The texture rule keeps the unit square. */
  lemma TexMidpointInSquare()
    ensures forall x, y :: InUnitSquare(x) && InUnitSquare(y) ==> InUnitSquare(TexMidpoint(x, y))
  {
  }

  /** A triangle in front of the plane its corner sum defines, with seed
      corners inside the image, subdivides into vertices that are seeds or on
      the unit sphere and texture coordinates inside the image. */
  lemma TriangleOnSphere(m: Libm, t: Corners, iteration: int)
    requires SqrtLaw(m) && Fronted(t)
    requires t.a in kVertSeed && t.b in kVertSeed && t.c in kVertSeed
    requires InUnitSquare(t.ta) && InUnitSquare(t.tb) && InUnitSquare(t.tc)
    ensures forall v <- Subdivide(SphereMid(m), t.a, t.b, t.c, iteration) :: v in kVertSeed || NormSq(v) == 1.0
    ensures forall x <- Subdivide(TexMidpoint, t.ta, t.tb, t.tc, iteration) :: InUnitSquare(x)
  {
    var n := Normal(t);
    SphereMidPlaced(m, n);
    SubdivideClosed(SphereMid(m), v => Placed(n, v), t.a, t.b, t.c, iteration);
    TexMidpointInSquare();
    SubdivideClosed(TexMidpoint, InUnitSquare, t.ta, t.tb, t.tc, iteration);
  }

  /** So does each of the four root triangles. */
  lemma RootOnSphere(m: Libm, t: Corners)
    requires SqrtLaw(m) && t in kRoots
    ensures forall v <- Subdivide(SphereMid(m), t.a, t.b, t.c, kCountOfIterations) :: v in kVertSeed || NormSq(v) == 1.0
    ensures forall x <- Subdivide(TexMidpoint, t.ta, t.tb, t.tc, kCountOfIterations) :: InUnitSquare(x)
  {
    RootFronted(t);
    RootCorners(t);
    TriangleOnSphere(m, t, kCountOfIterations);
  }

  /** Four triangles meeting the conditions of TriangleOnSphere subdivide,
      one after another, into vertices that are seeds or on the unit sphere
      and texture coordinates inside the image. */
  lemma FourOnSphere(m: Libm, r0: Corners, r1: Corners, r2: Corners, r3: Corners, iteration: int)
    requires SqrtLaw(m)
    requires forall v <- Subdivide(SphereMid(m), r0.a, r0.b, r0.c, iteration) :: v in kVertSeed || NormSq(v) == 1.0
    requires forall v <- Subdivide(SphereMid(m), r1.a, r1.b, r1.c, iteration) :: v in kVertSeed || NormSq(v) == 1.0
    requires forall v <- Subdivide(SphereMid(m), r2.a, r2.b, r2.c, iteration) :: v in kVertSeed || NormSq(v) == 1.0
    requires forall v <- Subdivide(SphereMid(m), r3.a, r3.b, r3.c, iteration) :: v in kVertSeed || NormSq(v) == 1.0
    requires forall x <- Subdivide(TexMidpoint, r0.ta, r0.tb, r0.tc, iteration) :: InUnitSquare(x)
    requires forall x <- Subdivide(TexMidpoint, r1.ta, r1.tb, r1.tc, iteration) :: InUnitSquare(x)
    requires forall x <- Subdivide(TexMidpoint, r2.ta, r2.tb, r2.tc, iteration) :: InUnitSquare(x)
    requires forall x <- Subdivide(TexMidpoint, r3.ta, r3.tb, r3.tc, iteration) :: InUnitSquare(x)
    ensures forall v <- FourVerts(SphereMid(m), r0, r1, r2, r3, iteration) :: v in kVertSeed || NormSq(v) == 1.0
    ensures forall x <- FourTex(TexMidpoint, r0, r1, r2, r3, iteration) :: InUnitSquare(x)
  {
  }

  /** Every vertex of the finished snowball is a seed or lies on the unit
      sphere, and every texture coordinate lies inside the image. */
  lemma SnowballOnSphere(m: Libm)
    requires SqrtLaw(m)
    ensures forall v <- SnowballVerts(SphereMid(m)) :: v in kVertSeed || NormSq(v) == 1.0
    ensures forall t <- SnowballTex(TexMidpoint) :: InUnitSquare(t)
  {
    RootOnSphere(m, kFace);
    RootOnSphere(m, kBottom);
    RootOnSphere(m, kLeft);
    RootOnSphere(m, kRight);
    FourOnSphere(m, kFace, kBottom, kLeft, kRight, kCountOfIterations);
  }

  /** Within 1e-5 of the unit sphere. */
  predicate NearUnit(v: Vec3)
  {
    -0.00001 <= NormSq(v) - 1.0 <= 0.00001
  }

  /** Each seed, given to six decimals, lies within 1e-5 of the unit sphere. */
  lemma SeedNearUnit(i: nat)
    requires i < |kVertSeed|
    ensures NearUnit(kVertSeed[i])
  {
    if i == 0 {
      assert kVertSeed[0] == Vec3(0.0, 1.0, 0.0);
    } else if i == 1 {
      assert kVertSeed[1] == Vec3(0.816497, -0.333333, 0.471405);
    } else if i == 2 {
      assert kVertSeed[2] == Vec3(0.0, -0.333333, -0.942809);
    } else {
      assert kVertSeed[3] == Vec3(-0.816497, -0.333333, 0.471405);
    }
  }

  lemma SeedOrUnitNearUnit(v: Vec3)
    requires v in kVertSeed || NormSq(v) == 1.0
    ensures NearUnit(v)
  {
    if v in kVertSeed {
      var i :| 0 <= i < |kVertSeed| && kVertSeed[i] == v;
      SeedNearUnit(i);
    }
  }

  /** Hence every vertex of the snowball lies within 1e-5 of the unit sphere. */
  lemma SnowballNearUnit(m: Libm)
    requires SqrtLaw(m)
    ensures forall v <- SnowballVerts(SphereMid(m)) :: NearUnit(v)
  {
    SnowballOnSphere(m);
    forall v | v in SnowballVerts(SphereMid(m))
      ensures NearUnit(v)
    {
      SeedOrUnitNearUnit(v);
    }
  }

  /** Four root triangles subdivided one after another start, at slots 0, n,
      2n and 3n (n the slots per triangle), with their first corners. */
  lemma FourStarts(mid: (Vec3, Vec3) -> Vec3, r0: Corners, r1: Corners, r2: Corners, r3: Corners, iteration: int)
    ensures var n := 3 * Pow4(iteration);
      var s := FourVerts(mid, r0, r1, r2, r3, iteration);
      s[0] == r0.a && s[n] == r1.a && s[2 * n] == r2.a && s[3 * n] == r3.a
  {
    SubdivideStart(mid, r0.a, r0.b, r0.c, iteration);
    SubdivideStart(mid, r1.a, r1.b, r1.c, iteration);
    SubdivideStart(mid, r2.a, r2.b, r2.c, iteration);
    SubdivideStart(mid, r3.a, r3.b, r3.c, iteration);
  }
}
