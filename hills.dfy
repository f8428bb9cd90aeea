/** The distant hills (hacks/glx/snowmen.c:695-761): a triangle strip of two
    vertices per pond rim vertex, each rim vertex pushed out to the edge of
    the universe, one copy at the rim's own height and one at the height of
    the hills. */
module Hills {
  import opened Geometry

  import opened Pond

  const kTextureRepeatCount: real := 3.0
  const kTextureYMin: real := 0.002
  const kTextureYMax: real := 0.998

  /** Slot k: column k / 2 reads pond slot k / 2 + 1; even slots keep the
      pond height, odd slots sit at the height of the hills. */
  function HillsVertex(m: Libm, pond: seq<Vec3>, k: nat): Vec3
    requires RimReady(m, pond) && k < 2 * (|pond| - 1)
  {
    var p := pond[k / 2 + 1];
    PushedOut(m, p, kUniverseEdgeRadius, if k % 2 == 0 then p.y else kHillsHeight)
  }

  function HillsVerts(m: Libm, pond: seq<Vec3>): (r: seq<Vec3>)
    requires RimReady(m, pond)
    ensures |r| == 2 * (|pond| - 1)
  {
    seq(2 * (|pond| - 1), k requires 0 <= k < 2 * (|pond| - 1) => HillsVertex(m, pond, k))
  }

  /** The texture U of column i: three repeats, so 6 at the last column. */
  function TexU(i: nat, countOfShoreVertices: nat): real
    requires countOfShoreVertices >= 2
  {
    (i as real) * kTextureRepeatCount * 2.0 / ((countOfShoreVertices - 1) as real)
  }

  function HillsTexel(pond: seq<Vec3>, k: nat): Vec2
    requires |pond| >= 3
  {
    Vec2(TexU(k / 2, |pond| - 1), if k % 2 == 0 then kTextureYMin else kTextureYMax)
  }

  function HillsTex(pond: seq<Vec3>): (r: seq<Vec2>)
    requires |pond| >= 3
    ensures |r| == 2 * (|pond| - 1)
  {
    seq(2 * (|pond| - 1), k requires 0 <= k => HillsTexel(pond, k))
  }

  /** Every hills vertex lies on the circle of radius 150 about the vertical axis. */
  lemma HillsOnHorizon(m: Libm, pond: seq<Vec3>, k: nat)
    requires RimReady(m, pond) && k < 2 * (|pond| - 1)
    ensures RadialSq(HillsVerts(m, pond)[k]) == Sq(kUniverseEdgeRadius)
  {
    var p := pond[k / 2 + 1];
    PushedOutOnCircle(m, p, kUniverseEdgeRadius, if k % 2 == 0 then p.y else kHillsHeight);
  }

  /** Bottom vertices keep the height of the pond vertex they come from; top
      vertices have the height of the hills; both share x and z. */
  lemma HillsHeights(m: Libm, pond: seq<Vec3>, c: nat)
    requires RimReady(m, pond) && c < |pond| - 1
    ensures HillsVerts(m, pond)[2 * c].y == pond[c + 1].y
    ensures HillsVerts(m, pond)[2 * c + 1].y == kHillsHeight
    ensures HillsVerts(m, pond)[2 * c].x == HillsVerts(m, pond)[2 * c + 1].x
    ensures HillsVerts(m, pond)[2 * c].z == HillsVerts(m, pond)[2 * c + 1].z
  {
    assert (2 * c) / 2 == c && (2 * c + 1) / 2 == c;
  }

  /** When the pond's closing slot repeats its first rim slot, the strip's
      last column repeats its first, closing the ring of hills. */
  lemma HillsSeam(m: Libm, pond: seq<Vec3>)
    requires RimReady(m, pond) && pond[|pond| - 1] == pond[1]
    ensures HillsVerts(m, pond)[2 * (|pond| - 2)] == HillsVerts(m, pond)[0]
    ensures HillsVerts(m, pond)[2 * (|pond| - 2) + 1] == HillsVerts(m, pond)[1]
  {
    var c := |pond| - 2;
    assert (2 * c) / 2 == c && (2 * c + 1) / 2 == c;
  }

  /** U runs without decreasing from 0 at the first column to 6 at the
      last, and V is 0.002 on the bottom row and 0.998 on the top row. */
  lemma HillsTexRange(pond: seq<Vec3>, k: nat, l: nat)
    requires |pond| >= 3 && k <= l < 2 * (|pond| - 1)
    ensures 0.0 <= HillsTex(pond)[k].x <= HillsTex(pond)[l].x <= 2.0 * kTextureRepeatCount
    ensures HillsTex(pond)[k].y == if k % 2 == 0 then kTextureYMin else kTextureYMax
    ensures HillsTex(pond)[0].x == 0.0 && HillsTex(pond)[2 * (|pond| - 1) - 1].x == 2.0 * kTextureRepeatCount
  {
    var n := |pond| - 1;
    assert (2 * n - 1) / 2 == n - 1;
    QuotientsOrdered((k / 2) as real, (l / 2) as real, ((n - 1) as real));
  }

  lemma QuotientsOrdered(a: real, b: real, c: real)
    requires 0.0 <= a <= b <= c && c > 0.0
    ensures 0.0 <= a * kTextureRepeatCount * 2.0 / c <= b * kTextureRepeatCount * 2.0 / c <= 2.0 * kTextureRepeatCount
    ensures c * kTextureRepeatCount * 2.0 / c == 2.0 * kTextureRepeatCount
  {
    QuotientInUnit(a, c);
    QuotientInUnit(b, c);
    ScaledQuotient(a, c);
    ScaledQuotient(b, c);
    ScaledQuotient(c, c);
    QuotientInUnit(b - a, c);
    assert (b - a) / c == b / c - a / c;
    assert c / c == 1.0;
  }

  lemma ScaledQuotient(a: real, c: real)
    requires c > 0.0
    ensures a * kTextureRepeatCount * 2.0 / c == 6.0 * (a / c)
  {
    var q := a / c;
    assert a == q * c;
    assert a * kTextureRepeatCount * 2.0 == (6.0 * q) * c;
  }

  /** One column of the coordinate loop: the rim vertex rescaled to the edge. */
  method EdgePoint(m: Libm, p: Vec3) returns (x: real, z: real)
    requires SqrtLaw(m) && RadialSq(p) > 0.0
    ensures forall y :: PushedOut(m, p, kUniverseEdgeRadius, y) == Vec3(x, y, z)
  {
    var d := m.sqrt(Sq(p.x) + Sq(p.z));
    x := p.x / d * kUniverseEdgeRadius;
    z := p.z / d * kUniverseEdgeRadius;
  }

  /** createHillsBufferObjects without the OpenGL upload. */
  method CreateHillsBufferObjects(m: Libm, pondVerts: array<Vec3>)
    returns (vertAry: array<Vec3>, texAry: array<Vec2>, countOfVertices: nat)
    requires RimReady(m, pondVerts[..])
    ensures fresh(vertAry) && fresh(texAry)
    ensures countOfVertices == vertAry.Length == texAry.Length == 2 * (pondVerts.Length - 1)
    ensures vertAry[..] == HillsVerts(m, pondVerts[..]) && texAry[..] == HillsTex(pondVerts[..])
  {
    var countOfShoreVertices := pondVerts.Length - 1;
    countOfVertices := countOfShoreVertices * 2;
    vertAry := new Vec3[countOfVertices];
    texAry := new Vec2[countOfVertices];
    var i: nat := 0;
    while i < countOfShoreVertices
      invariant i <= countOfShoreVertices
      invariant forall k :: 0 <= k < 2 * i ==> vertAry[k] == HillsVertex(m, pondVerts[..], k)
    {
      var p := pondVerts[i + 1];
      var x, z := EdgePoint(m, p);
      vertAry[2 * i] := Vec3(x, p.y, z);
      vertAry[2 * i + 1] := Vec3(x, kHillsHeight, z);
      assert (2 * i) / 2 == i && (2 * i + 1) / 2 == i;
      i := i + 1;
    }
    assert vertAry[..] == HillsVerts(m, pondVerts[..]);
    i := 0;
    while i < countOfShoreVertices
      invariant i <= countOfShoreVertices
      invariant vertAry[..] == HillsVerts(m, pondVerts[..])
      invariant forall k :: 0 <= k < 2 * i ==> texAry[k] == HillsTexel(pondVerts[..], k)
    {
      var x := (i as real) * kTextureRepeatCount * 2.0 / ((countOfShoreVertices - 1) as real);
      texAry[2 * i] := Vec2(x, kTextureYMin);
      texAry[2 * i + 1] := Vec2(x, kTextureYMax);
      assert (2 * i) / 2 == i && (2 * i + 1) / 2 == i;
      i := i + 1;
    }
    assert texAry[..] == HillsTex(pondVerts[..]);
  }
}
