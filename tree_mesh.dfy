/** The tree mesh (hacks/glx/snowmen.c:580-686): five stacked skirts, each a
    triangle fan of a centre vertex and a ring of sixteen edge vertices
    closed by repeating the first, with a matching outline fan and texture
    fan; then a trunk, a strip of eight slices closed by repeating its first
    two vertices. Every tree in the scene draws this one mesh. */
module TreeMesh {
  import opened Geometry
  import opened Splices

  const kCountOfTreeSkirts: nat := 5
  const kCountOfTreeSkirtVertices: nat := 16
  const kCountOfTreeTrunkSlices: nat := 8
  /** Slots of one skirt fan: the centre, the ring, the ring's first vertex again. */
  const kFanLength: nat := 18
  /** (kCountOfTreeSkirtVertices + 2) * kCountOfTreeSkirts */
  const kCountOfTreeFanVertices: nat := 90
  /** (kCountOfTreeTrunkSlices + 1) * 2 */
  const kCountOfTrunkVertices: nat := 18

  const kHeightOfTrunk: real := 0.3
  const kUpperRadiusOfTrunk: real := 0.11
  const kLowerRadiusOfTrunk: real := 0.15
  const kTreeHeightCenterAdd: real := 0.26
  const kTreeHeightAlternateEdgeAdd: real := 0.06
  const kOutlineCenterAdd: real := 0.04
  const kOutlineEdgeAdd: real := 0.05
  const kOutlineEdgeMult: real := 1.03

  /** The height of skirt j's edge: 0 is the base and 1 the top. */
  function NormalizedHeight(j: nat): real
  {
    ((j as real) + 1.0) / (kCountOfTreeSkirts as real)
  }

  function EdgeRadius(j: nat): real
  {
    1.0 - (j as real) / (1.0 * (kCountOfTreeSkirts as real))
  }

  function SkirtAngle(i: nat): real
  {
    (i as real) * kTau / (kCountOfTreeSkirtVertices as real)
  }

  /** The random turn of a skirt, in radians, from one draw of random(). */
  function Rotation(draw: int): real
  {
    (draw as real) * kTau / (kRandMax as real)
  }

  /** i & 1 */
  function Alternate(i: nat): real
  {
    (i % 2) as real
  }

  function SkirtCenter(j: nat): Vec3
  {
    var h := NormalizedHeight(j);
    Vec3(0.0, h + kTreeHeightCenterAdd * (2.0 - h), 0.0)
  }

  function OutlineCenter(j: nat): Vec3
  {
    var h := NormalizedHeight(j);
    Vec3(0.0, h + kTreeHeightCenterAdd * (2.0 - h) + kOutlineCenterAdd, 0.0)
  }

  function OutlineRadius(j: nat): real
  {
    EdgeRadius(j) * kOutlineEdgeMult + kOutlineEdgeAdd
  }

  function SkirtEdge(m: Libm, j: nat, rotation: real, i: nat): Vec3
  {
    var h := NormalizedHeight(j);
    OnCircle(m, EdgeRadius(j), SkirtAngle(i) + rotation, h + Alternate(i) * kTreeHeightAlternateEdgeAdd * (1.2 - h))
  }

  function OutlineEdge(m: Libm, j: nat, rotation: real, i: nat): Vec3
  {
    var h := NormalizedHeight(j);
    OnCircle(m, OutlineRadius(j), SkirtAngle(i) + rotation, h + Alternate(i) * kTreeHeightAlternateEdgeAdd * (1.0 - h))
  }

  /** The texture is not turned with the skirt. */
  function SkirtTexel(m: Libm, i: nat): Vec2
  {
    Vec2(0.5 + m.sin(SkirtAngle(i)) / 2.0, 0.5 + m.cos(SkirtAngle(i)) / 2.0)
  }

  function EdgeRule(m: Libm, j: nat, rotation: real): nat -> Vec3
  {
    (i: nat) => SkirtEdge(m, j, rotation, i)
  }

  function OutlineRule(m: Libm, j: nat, rotation: real): nat -> Vec3
  {
    (i: nat) => OutlineEdge(m, j, rotation, i)
  }

  function TexelRule(m: Libm): nat -> Vec2
  {
    (i: nat) => SkirtTexel(m, i)
  }

  const kTexCenter: Vec2 := Vec2(0.5, 0.5)

  function SkirtFan(m: Libm, j: nat, rotation: real): (r: seq<Vec3>)
    ensures |r| == kFanLength
  {
    Fan(SkirtCenter(j), EdgeRule(m, j, rotation), kCountOfTreeSkirtVertices)
  }

  function OutlineFan(m: Libm, j: nat, rotation: real): (r: seq<Vec3>)
    ensures |r| == kFanLength
  {
    Fan(OutlineCenter(j), OutlineRule(m, j, rotation), kCountOfTreeSkirtVertices)
  }

  function TexFan(m: Libm): (r: seq<Vec2>)
    ensures |r| == kFanLength
  {
    Fan(kTexCenter, TexelRule(m), kCountOfTreeSkirtVertices)
  }

  function VertFans(m: Libm, draws: seq<int>): (r: seq<seq<Vec3>>)
    requires |draws| == kCountOfTreeSkirts
    ensures |r| == kCountOfTreeSkirts && forall j :: 0 <= j < |r| ==> |r[j]| == kFanLength
  {
    seq(kCountOfTreeSkirts, j requires 0 <= j < kCountOfTreeSkirts => SkirtFan(m, j, Rotation(draws[j])))
  }

  function OutlineFans(m: Libm, draws: seq<int>): (r: seq<seq<Vec3>>)
    requires |draws| == kCountOfTreeSkirts
    ensures |r| == kCountOfTreeSkirts && forall j :: 0 <= j < |r| ==> |r[j]| == kFanLength
  {
    seq(kCountOfTreeSkirts, j requires 0 <= j < kCountOfTreeSkirts => OutlineFan(m, j, Rotation(draws[j])))
  }

  function TexFans(m: Libm): (r: seq<seq<Vec2>>)
    ensures |r| == kCountOfTreeSkirts && forall j :: 0 <= j < |r| ==> |r[j]| == kFanLength
  {
    var fan := TexFan(m);
    seq(kCountOfTreeSkirts, j requires 0 <= j < kCountOfTreeSkirts => fan)
  }

  /** Trunk slot t of the eight slices: slice t / 2, the lower ring on
      even slots and the upper ring on odd ones. */
  function TrunkVertex(m: Libm, t: nat): Vec3
  {
    var a := ((t / 2) as real) * kTau / (kCountOfTreeTrunkSlices as real);
    if t % 2 == 0 then OnCircleCosX(m, kLowerRadiusOfTrunk, a, 0.0)
    else OnCircleCosX(m, kUpperRadiusOfTrunk, a, kHeightOfTrunk)
  }

  /** The trunk strip, closed by repeating its first two slots. */
  function TrunkVerts(m: Libm): (r: seq<Vec3>)
    ensures |r| == kCountOfTrunkVertices
  {
    seq(2 * kCountOfTreeTrunkSlices, t requires 0 <= t => TrunkVertex(m, t)) + [TrunkVertex(m, 0), TrunkVertex(m, 1)]
  }

  function TreeVerts(m: Libm, draws: seq<int>): (r: seq<Vec3>)
    requires |draws| == kCountOfTreeSkirts
    ensures |r| == kCountOfTreeFanVertices + kCountOfTrunkVertices
  {
    ConcatLength(VertFans(m, draws), kFanLength);
    Concat(VertFans(m, draws)) + TrunkVerts(m)
  }

  function TreeOutline(m: Libm, draws: seq<int>): (r: seq<Vec3>)
    requires |draws| == kCountOfTreeSkirts
    ensures |r| == kCountOfTreeFanVertices
  {
    ConcatLength(OutlineFans(m, draws), kFanLength);
    Concat(OutlineFans(m, draws))
  }

  function TreeTex(m: Libm): (r: seq<Vec2>)
    ensures |r| == kCountOfTreeFanVertices
  {
    ConcatLength(TexFans(m), kFanLength);
    Concat(TexFans(m))
  }

  /** Every fan closes its ring: its last slot repeats its first edge slot,
      in the vertex, outline and texture buffers alike; the trunk strip,
      which follows the fans in the vertex buffer, closes the same way on its
      first two slots. */
  lemma TreeRingsClosed(m: Libm, draws: seq<int>, j: nat)
    requires |draws| == kCountOfTreeSkirts && j < kCountOfTreeSkirts
    ensures TreeVerts(m, draws)[kFanLength * j + 17] == TreeVerts(m, draws)[kFanLength * j + 1]
    ensures TreeOutline(m, draws)[kFanLength * j + 17] == TreeOutline(m, draws)[kFanLength * j + 1]
    ensures TreeTex(m)[kFanLength * j + 17] == TreeTex(m)[kFanLength * j + 1]
    ensures TreeVerts(m, draws)[kCountOfTreeFanVertices..] == TrunkVerts(m)
    ensures TrunkVerts(m)[16] == TrunkVerts(m)[0] && TrunkVerts(m)[17] == TrunkVerts(m)[1]
  {
    ConcatSlot(VertFans(m, draws), kFanLength, j, 17);
    ConcatSlot(VertFans(m, draws), kFanLength, j, 1);
    ConcatSlot(OutlineFans(m, draws), kFanLength, j, 17);
    ConcatSlot(OutlineFans(m, draws), kFanLength, j, 1);
    ConcatSlot(TexFans(m), kFanLength, j, 17);
    ConcatSlot(TexFans(m), kFanLength, j, 1);
    ConcatLength(VertFans(m, draws), kFanLength);
    var fans := Concat(VertFans(m, draws));
    assert (fans + TrunkVerts(m))[|fans|..] == TrunkVerts(m);
  }

  /** Each skirt's edge ring lies on the circle of its edge radius, and its
      outline ring on a wider circle. */
  lemma SkirtRing(m: Libm, j: nat, rotation: real, i: nat)
    requires TrigLaw(m) && j < kCountOfTreeSkirts
    ensures RadialSq(SkirtEdge(m, j, rotation, i)) == Sq(EdgeRadius(j))
    ensures RadialSq(OutlineEdge(m, j, rotation, i)) == Sq(OutlineRadius(j))
    ensures 0.0 < EdgeRadius(j) < OutlineRadius(j)
  {
    var a, h := SkirtAngle(i) + rotation, NormalizedHeight(j);
    OnCircleRadius(m, EdgeRadius(j), a, h + Alternate(i) * kTreeHeightAlternateEdgeAdd * (1.2 - h));
    OnCircleRadius(m, OutlineRadius(j), a, h + Alternate(i) * kTreeHeightAlternateEdgeAdd * (1.0 - h));
  }

  /** Each skirt is a cone: its centre rises above every vertex of its edge. */
  lemma SkirtPeak(m: Libm, j: nat, rotation: real, i: nat)
    requires j < kCountOfTreeSkirts
    ensures SkirtCenter(j).y > SkirtEdge(m, j, rotation, i).y
  {
    var h := NormalizedHeight(j);
    assert 0.0 < h <= 1.0;
    var alt := Alternate(i);
    assert alt == 0.0 || alt == 1.0;
    assert SkirtEdge(m, j, rotation, i).y == h + alt * kTreeHeightAlternateEdgeAdd * (1.2 - h);
    assert SkirtCenter(j).y == h + kTreeHeightCenterAdd * (2.0 - h);
  }

  /** Higher skirts are narrower and sit higher. */
  lemma SkirtsTaper(j: nat, k: nat)
    requires j < k < kCountOfTreeSkirts
    ensures EdgeRadius(k) < EdgeRadius(j) && NormalizedHeight(j) < NormalizedHeight(k)
  {
  }

  /** The trunk is a frustum: radius 0.15 on the ground, 0.11 at height 0.3. */
  lemma TrunkShape(m: Libm, t: nat)
    requires TrigLaw(m)
    ensures var v := TrunkVertex(m, t);
            if t % 2 == 0 then v.y == 0.0 && RadialSq(v) == Sq(kLowerRadiusOfTrunk)
            else v.y == kHeightOfTrunk && RadialSq(v) == Sq(kUpperRadiusOfTrunk)
  {
    var a := ((t / 2) as real) * kTau / (kCountOfTreeTrunkSlices as real);
    OnCircleRadius(m, kLowerRadiusOfTrunk, a, 0.0);
    OnCircleRadius(m, kUpperRadiusOfTrunk, a, kHeightOfTrunk);
  }

  lemma TexelInUnit(m: Libm, i: nat)
    requires TrigLaw(m)
    ensures InUnitSquare(SkirtTexel(m, i))
  {
    var a := SkirtAngle(i);
    assert -1.0 <= m.sin(a) <= 1.0 && -1.0 <= m.cos(a) <= 1.0;
  }

  lemma TexFanInUnit(m: Libm, r: nat)
    requires TrigLaw(m) && r < kFanLength
    ensures InUnitSquare(TexFan(m)[r])
  {
    FanSlots(kTexCenter, TexelRule(m), kCountOfTreeSkirtVertices);
    if r == 0 {
    } else if r == kFanLength - 1 {
      TexelInUnit(m, 0);
    } else {
      TexelInUnit(m, r - 1);
    }
  }

  /** Every texel of the tree lies in the unit square. */
  lemma TreeTexInUnit(m: Libm)
    requires TrigLaw(m)
    ensures forall t <- TreeTex(m) :: InUnitSquare(t)
  {
    forall k | 0 <= k < kCountOfTreeFanVertices
      ensures InUnitSquare(TreeTex(m)[k])
    {
      var j, r := k / kFanLength, k % kFanLength;
      ConcatSlot(TexFans(m), kFanLength, j, r);
      TexFanInUnit(m, r);
    }
  }

  /** One pass of the skirt loop: a fan of center and the sixteen slots of
      each ring rule, written at slot at of its buffer, for the vertex, the
      outline and the texture buffers at once. */
  method EmitSkirt(vertAry: array<Vec3>, outlineVertAry: array<Vec3>, texAry: array<Vec2>, at: nat,
                   center: Vec3, edge: nat -> Vec3, outlineCenter: Vec3, outlineEdge: nat -> Vec3,
                   texCenter: Vec2, texel: nat -> Vec2)
    requires vertAry != outlineVertAry
    requires at + kFanLength <= vertAry.Length && at + kFanLength <= outlineVertAry.Length
    requires at + kFanLength <= texAry.Length
    modifies vertAry, outlineVertAry, texAry
    ensures Spliced(old(vertAry[..]), vertAry[..], at, at + kFanLength, Fan(center, edge, kCountOfTreeSkirtVertices))
    ensures Spliced(old(outlineVertAry[..]), outlineVertAry[..], at, at + kFanLength,
                    Fan(outlineCenter, outlineEdge, kCountOfTreeSkirtVertices))
    ensures Spliced(old(texAry[..]), texAry[..], at, at + kFanLength, Fan(texCenter, texel, kCountOfTreeSkirtVertices))
  {
    vertAry[at] := center;
    outlineVertAry[at] := outlineCenter;
    texAry[at] := texCenter;
    EmitRing(vertAry, outlineVertAry, texAry, at + 1, edge, outlineEdge, texel);
    ghost var vertMid, outlineMid, texMid := vertAry[..], outlineVertAry[..], texAry[..];
    vertAry[at + 17] := vertAry[at + 1];
    outlineVertAry[at + 17] := outlineVertAry[at + 1];
    texAry[at + 17] := texAry[at + 1];
    FanWritten(old(vertAry[..]), vertMid, vertAry[..], at, center, edge);
    FanWritten(old(outlineVertAry[..]), outlineMid, outlineVertAry[..], at, outlineCenter, outlineEdge);
    FanWritten(old(texAry[..]), texMid, texAry[..], at, texCenter, texel);
  }

  /** A buffer whose center and ring slots were written (mid) and whose
      closing slot then copies the first ring slot (after) holds the fan
      there and nothing else changed. */
  lemma FanWritten<T>(before: seq<T>, mid: seq<T>, after: seq<T>, at: nat, center: T, edge: nat -> T)
    requires at + kFanLength <= |before| == |mid|
    requires forall k :: 0 <= k < |mid| && !(at <= k < at + 17) ==> mid[k] == before[k]
    requires mid[at] == center
    requires forall i :: 0 <= i < kCountOfTreeSkirtVertices ==> mid[at + 1 + i] == edge(i)
    requires after == mid[at + 17 := mid[at + 1]]
    ensures Spliced(before, after, at, at + kFanLength, Fan(center, edge, kCountOfTreeSkirtVertices))
  {
    var seg := Fan(center, edge, kCountOfTreeSkirtVertices);
    FanSlots(center, edge, kCountOfTreeSkirtVertices);
    forall i | 0 <= i < |seg|
      ensures after[at + i] == seg[i]
    {
      if 1 <= i <= kCountOfTreeSkirtVertices {
        assert seg[(i - 1) + 1] == edge(i - 1);
      }
    }
    SplicedBySlots(before, after, at, at + kFanLength, seg);
  }

  /** The ring loop of one skirt: slots first .. first + 15 of each buffer. */
  method EmitRing(vertAry: array<Vec3>, outlineVertAry: array<Vec3>, texAry: array<Vec2>, first: nat,
                  edge: nat -> Vec3, outlineEdge: nat -> Vec3, texel: nat -> Vec2)
    requires vertAry != outlineVertAry
    requires first + kCountOfTreeSkirtVertices <= vertAry.Length
    requires first + kCountOfTreeSkirtVertices <= outlineVertAry.Length
    requires first + kCountOfTreeSkirtVertices <= texAry.Length
    modifies vertAry, outlineVertAry, texAry
    ensures forall k :: 0 <= k < vertAry.Length && !(first <= k < first + kCountOfTreeSkirtVertices) ==>
              vertAry[k] == old(vertAry[k])
    ensures forall k :: 0 <= k < outlineVertAry.Length && !(first <= k < first + kCountOfTreeSkirtVertices) ==>
              outlineVertAry[k] == old(outlineVertAry[k])
    ensures forall k :: 0 <= k < texAry.Length && !(first <= k < first + kCountOfTreeSkirtVertices) ==>
              texAry[k] == old(texAry[k])
    ensures forall i :: 0 <= i < kCountOfTreeSkirtVertices ==>
              vertAry[first + i] == edge(i) && outlineVertAry[first + i] == outlineEdge(i) && texAry[first + i] == texel(i)
  {
    for i := 0 to kCountOfTreeSkirtVertices
      invariant forall k :: 0 <= k < vertAry.Length && !(first <= k < first + i) ==> vertAry[k] == old(vertAry[k])
      invariant forall k :: 0 <= k < outlineVertAry.Length && !(first <= k < first + i) ==>
                  outlineVertAry[k] == old(outlineVertAry[k])
      invariant forall k :: 0 <= k < texAry.Length && !(first <= k < first + i) ==> texAry[k] == old(texAry[k])
      invariant forall k :: 0 <= k < i ==>
                  vertAry[first + k] == edge(k) && outlineVertAry[first + k] == outlineEdge(k) && texAry[first + k] == texel(k)
    {
      vertAry[first + i] := edge(i);
      outlineVertAry[first + i] := outlineEdge(i);
      texAry[first + i] := texel(i);
    }
  }

  /** The trunk loop: eight slices of a lower and an upper vertex at slot
      kCountOfTreeFanVertices, then the first two repeated. */
  method EmitTrunk(m: Libm, vertAry: array<Vec3>)
    requires vertAry.Length == kCountOfTreeFanVertices + kCountOfTrunkVertices
    modifies vertAry
    ensures vertAry[..kCountOfTreeFanVertices] == old(vertAry[..kCountOfTreeFanVertices])
    ensures vertAry[kCountOfTreeFanVertices..] == TrunkVerts(m)
  {
    var start := kCountOfTreeFanVertices;
    for i := 0 to kCountOfTreeTrunkSlices
      invariant vertAry[..start] == old(vertAry[..start])
      invariant forall t :: 0 <= t < 2 * i ==> vertAry[start + t] == TrunkVertex(m, t)
    {
      vertAry[start + 2 * i] := TrunkVertex(m, 2 * i);
      vertAry[start + 2 * i + 1] := TrunkVertex(m, 2 * i + 1);
    }
    vertAry[start + 16] := vertAry[start];
    vertAry[start + 17] := vertAry[start + 1];
    assert vertAry[start..] == TrunkVerts(m);
  }

  /** The skirt loop: five fans at slots 0, 18, .., 72 of the three buffers,
      skirt j turned by the angle of draw j. */
  method EmitSkirts(m: Libm, draws: seq<int>, vertAry: array<Vec3>, outlineVertAry: array<Vec3>, texAry: array<Vec2>)
    requires |draws| == kCountOfTreeSkirts && vertAry != outlineVertAry
    requires vertAry.Length == kCountOfTreeFanVertices + kCountOfTrunkVertices
    requires outlineVertAry.Length == kCountOfTreeFanVertices == texAry.Length
    modifies vertAry, outlineVertAry, texAry
    ensures vertAry[..kCountOfTreeFanVertices] == Concat(VertFans(m, draws))
    ensures outlineVertAry[..] == Concat(OutlineFans(m, draws))
    ensures texAry[..] == Concat(TexFans(m))
  {
    for j := 0 to kCountOfTreeSkirts
      invariant vertAry[..kFanLength * j] == Concat(VertFans(m, draws)[..j])
      invariant outlineVertAry[..kFanLength * j] == Concat(OutlineFans(m, draws)[..j])
      invariant texAry[..kFanLength * j] == Concat(TexFans(m)[..j])
    {
      FansAt(m, draws, j);
      EmitSkirtOf(m, draws, j, vertAry, outlineVertAry, texAry, VertFans(m, draws), OutlineFans(m, draws), TexFans(m));
    }
    assert VertFans(m, draws)[..kCountOfTreeSkirts] == VertFans(m, draws);
    assert OutlineFans(m, draws)[..kCountOfTreeSkirts] == OutlineFans(m, draws);
    assert TexFans(m)[..kCountOfTreeSkirts] == TexFans(m);
  }

  /** One pass of the skirt loop at skirt j: the first j fans of each
      buffer are in place before, the first j + 1 after. */
  method EmitSkirtOf(m: Libm, draws: seq<int>, j: nat, vertAry: array<Vec3>, outlineVertAry: array<Vec3>, texAry: array<Vec2>,
                     ghost vertFans: seq<seq<Vec3>>, ghost outlineFans: seq<seq<Vec3>>, ghost texFans: seq<seq<Vec2>>)
    requires |draws| == kCountOfTreeSkirts && j < kCountOfTreeSkirts && vertAry != outlineVertAry
    requires j < |vertFans| && j < |outlineFans| && j < |texFans|
    requires vertFans[j] == Fan(SkirtCenter(j), EdgeRule(m, j, Rotation(draws[j])), kCountOfTreeSkirtVertices)
    requires outlineFans[j] == Fan(OutlineCenter(j), OutlineRule(m, j, Rotation(draws[j])), kCountOfTreeSkirtVertices)
    requires texFans[j] == Fan(kTexCenter, TexelRule(m), kCountOfTreeSkirtVertices)
    requires kFanLength * (j + 1) <= vertAry.Length && kFanLength * (j + 1) <= outlineVertAry.Length
    requires kFanLength * (j + 1) <= texAry.Length
    requires vertAry[..kFanLength * j] == Concat(vertFans[..j])
    requires outlineVertAry[..kFanLength * j] == Concat(outlineFans[..j])
    requires texAry[..kFanLength * j] == Concat(texFans[..j])
    modifies vertAry, outlineVertAry, texAry
    ensures vertAry[..kFanLength * (j + 1)] == Concat(vertFans[..j + 1])
    ensures outlineVertAry[..kFanLength * (j + 1)] == Concat(outlineFans[..j + 1])
    ensures texAry[..kFanLength * (j + 1)] == Concat(texFans[..j + 1])
  {
    var at := kFanLength * j;
    var rotation := (draws[j] as real) * kTau / (kRandMax as real);
    ghost var verts, outline, texels := vertAry[..], outlineVertAry[..], texAry[..];
    EmitSkirt(vertAry, outlineVertAry, texAry, at, SkirtCenter(j), EdgeRule(m, j, rotation),
              OutlineCenter(j), OutlineRule(m, j, rotation), kTexCenter, TexelRule(m));
    PieceAppended(verts, vertAry[..], at, vertFans, j);
    PieceAppended(outline, outlineVertAry[..], at, outlineFans, j);
    PieceAppended(texels, texAry[..], at, texFans, j);
  }

  /** Fan j of each buffer, spelled out as the fan EmitSkirt writes. */
  lemma FansAt(m: Libm, draws: seq<int>, j: nat)
    requires |draws| == kCountOfTreeSkirts && j < kCountOfTreeSkirts
    ensures VertFans(m, draws)[j] == Fan(SkirtCenter(j), EdgeRule(m, j, Rotation(draws[j])), kCountOfTreeSkirtVertices)
    ensures OutlineFans(m, draws)[j] == Fan(OutlineCenter(j), OutlineRule(m, j, Rotation(draws[j])), kCountOfTreeSkirtVertices)
    ensures TexFans(m)[j] == Fan(kTexCenter, TexelRule(m), kCountOfTreeSkirtVertices)
  {
  }

  /** createTreeBufferObjects without the OpenGL upload; draws are the five
      values random() returns, one per skirt. */
  method CreateTreeBufferObjects(m: Libm, draws: seq<int>)
    returns (vertAry: array<Vec3>, outlineVertAry: array<Vec3>, texAry: array<Vec2>)
    requires |draws| == kCountOfTreeSkirts
    ensures fresh(vertAry) && fresh(outlineVertAry) && fresh(texAry)
    ensures vertAry[..] == TreeVerts(m, draws)
    ensures outlineVertAry[..] == TreeOutline(m, draws)
    ensures texAry[..] == TreeTex(m)
  {
    vertAry := new Vec3[kCountOfTreeFanVertices + kCountOfTrunkVertices];
    outlineVertAry := new Vec3[kCountOfTreeFanVertices];
    texAry := new Vec2[kCountOfTreeFanVertices];
    EmitSkirts(m, draws, vertAry, outlineVertAry, texAry);
    EmitTrunk(m, vertAry);
    assert vertAry[..] == vertAry[..kCountOfTreeFanVertices] + vertAry[kCountOfTreeFanVertices..];
  }
}
