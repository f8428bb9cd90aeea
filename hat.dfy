/** The hat (hacks/glx/snowmen.c:874-1021): four rings of sixteen vertices
    (brim bottom, brim top, stem top, stem bottom), a matching outline ring
    set, and one index buffer of three fans and two strips whose offsets and
    counts the draw code reads back. */
module Hat {
  import opened Geometry

  import opened Splices

  const kCountOfHatSlices: nat := 16
  const kCountOfHatVertices: nat := kCountOfHatSlices * 4
  const kCountOfHatIndices: nat := kCountOfHatSlices * 7 + 4

  const kBrimRadius: real := 1.0
  const kBrimBottomY: real := -0.05
  const kBrimTopY: real := 0.05
  const kStemTopRadius: real := 0.6
  const kStemBottomRadius: real := 0.5
  const kStemBottomY: real := 0.05
  const kStemTopY: real := 1.2
  const kOutline: real := 0.05

  /** The rings, in the order the generator writes them. */
  const kBrimBottom: nat := 0
  const kBrimTop: nat := 1
  const kStemTop: nat := 2
  const kStemBottom: nat := 3

  function RingRadius(ring: nat): real
  {
    if ring == kBrimBottom || ring == kBrimTop then kBrimRadius
    else if ring == kStemTop then kStemTopRadius
    else kStemBottomRadius
  }

  function RingY(ring: nat): real
  {
    if ring == kBrimBottom then kBrimBottomY
    else if ring == kBrimTop then kBrimTopY
    else if ring == kStemTop then kStemTopY
    else kStemBottomY
  }

  /** The outline rings: radius widened by kOutline, the brim bottom moved
      down and every other ring moved up by it. */
  function OutlineRingRadius(ring: nat): real
  {
    RingRadius(ring) + kOutline
  }

  function OutlineRingY(ring: nat): real
  {
    if ring == kBrimBottom then kBrimBottomY - kOutline else RingY(ring) + kOutline
  }

  function SliceAngle(i: nat): real
  {
    kTau * (i as real) / (kCountOfHatSlices as real)
  }

  /** Slot i of a ring; the brim bottom ring negates x, so its fan runs the
      other way round and faces down. */
  function RingPoint(m: Libm, ring: nat, radius: real, y: real, i: nat): Vec3
  {
    var a := SliceAngle(i);
    Vec3(if ring == kBrimBottom then -m.sin(a) * radius else m.sin(a) * radius, y, m.cos(a) * radius)
  }

  function HatRing(m: Libm, ring: nat): (r: seq<Vec3>)
    ensures |r| == kCountOfHatSlices
  {
    seq(kCountOfHatSlices, i requires 0 <= i => RingPoint(m, ring, RingRadius(ring), RingY(ring), i))
  }

  function HatOutlineRing(m: Libm, ring: nat): (r: seq<Vec3>)
    ensures |r| == kCountOfHatSlices
  {
    seq(kCountOfHatSlices, i requires 0 <= i => RingPoint(m, ring, OutlineRingRadius(ring), OutlineRingY(ring), i))
  }

  function HatVerts(m: Libm): (r: seq<Vec3>)
    ensures |r| == kCountOfHatVertices
  {
    HatRing(m, kBrimBottom) + HatRing(m, kBrimTop) + HatRing(m, kStemTop) + HatRing(m, kStemBottom)
  }

  function HatOutline(m: Libm): (r: seq<Vec3>)
    ensures |r| == kCountOfHatVertices
  {
    HatOutlineRing(m, kBrimBottom) + HatOutlineRing(m, kBrimTop) + HatOutlineRing(m, kStemTop)
      + HatOutlineRing(m, kStemBottom)
  }

  /** The first vertex of each ring. */
  function RingStart(ring: nat): nat
  {
    kCountOfHatSlices * ring
  }

  /** A fan's indices: the sixteen vertices of one ring in order. */
  function RingIndices(first: int): (r: seq<int>)
    ensures |r| == kCountOfHatSlices
  {
    seq(kCountOfHatSlices, i requires 0 <= i => first + i)
  }

  /** A strip's indices: top ring slot i, then the bottom slot the rule
      picks for it, sixteen times, then the closing pair. */
  function StripIndices(top: int, bottom: int -> int, finishTop: int, finishBottom: int): (r: seq<int>)
    ensures |r| == 2 * kCountOfHatSlices + 2
  {
    seq(2 * kCountOfHatSlices, n requires 0 <= n => if n % 2 == 0 then top + n / 2 else bottom(n / 2))
      + [finishTop, finishBottom]
  }

  /** The brim strip meets the brim bottom ring in reverse order. */
  function BrimBottomRule(brimBottomIndices: int): int -> int
  {
    (i: int) => brimBottomIndices + kCountOfHatSlices - 1 - i
  }

  function StemBottomRule(stemBottomIndices: int): int -> int
  {
    (i: int) => stemBottomIndices + i
  }

  function BrimStrip(): seq<int>
  {
    var top, bottom := RingStart(kBrimTop), RingStart(kBrimBottom);
    StripIndices(top, BrimBottomRule(bottom), top, bottom + kCountOfHatSlices - 1)
  }

  function StemStrip(): seq<int>
  {
    var top, bottom := RingStart(kStemTop), RingStart(kStemBottom);
    StripIndices(top, StemBottomRule(bottom), top, bottom)
  }

  /** The index buffer: brim bottom fan, brim top fan, brim strip, stem top
      fan, stem strip. The stem bottom ring has no fan of its own. */
  function HatIndices(): (r: seq<int>)
    ensures |r| == kCountOfHatIndices
  {
    RingIndices(RingStart(kBrimBottom)) + RingIndices(RingStart(kBrimTop)) + BrimStrip()
      + RingIndices(RingStart(kStemTop)) + StemStrip()
  }

  /** Where each fan and strip sits in the index buffer, in indices. */
  datatype HatLayout = HatLayout(brimBottomFan: Range, brimTopFan: Range, brimStrip: Range,
                                 stemTopFan: Range, stemStrip: Range)

  /** Every index names one of the 64 vertices. */
  lemma HatIndicesValid()
    ensures IndicesBelow(HatIndices(), kCountOfHatVertices)
  {
    var s := HatIndices();
    forall k | 0 <= k < |s|
      ensures 0 <= s[k] < kCountOfHatVertices
    {
      if k < 32 {
        assert s[k] == k;
      } else if k < 66 {
        var n := k - 32;
        assert s[k] == BrimStrip()[n];
      } else if k < 82 {
        assert s[k] == RingIndices(32)[k - 66];
      } else {
        assert s[k] == StemStrip()[k - 82];
      }
    }
  }

  /** The five ranges are consecutive, fill the 116 indices exactly, and
      each selects its own piece of the buffer. */
  lemma HatLayoutSelects(layout: HatLayout)
    requires layout == HatLayout(Range(0, 16), Range(16, 16), Range(32, 34), Range(66, 16), Range(82, 34))
    ensures layout.brimTopFan.offset == layout.brimBottomFan.offset + layout.brimBottomFan.count
    ensures layout.brimStrip.offset == layout.brimTopFan.offset + layout.brimTopFan.count
    ensures layout.stemTopFan.offset == layout.brimStrip.offset + layout.brimStrip.count
    ensures layout.stemStrip.offset == layout.stemTopFan.offset + layout.stemTopFan.count
    ensures layout.stemStrip.offset + layout.stemStrip.count == kCountOfHatIndices
    ensures Slice(layout.brimBottomFan) == RingIndices(RingStart(kBrimBottom))
    ensures Slice(layout.brimTopFan) == RingIndices(RingStart(kBrimTop))
    ensures Slice(layout.brimStrip) == BrimStrip()
    ensures Slice(layout.stemTopFan) == RingIndices(RingStart(kStemTop))
    ensures Slice(layout.stemStrip) == StemStrip()
  {
    var a, b, c, d, e := RingIndices(0), RingIndices(16), BrimStrip(), RingIndices(32), StemStrip();
    assert HatIndices() == a + b + c + d + e;
    assert (a + b + c + d + e)[0..16] == a;
    assert (a + b + c + d + e)[16..32] == b;
    assert (a + b + c + d + e)[32..66] == c;
    assert (a + b + c + d + e)[66..82] == d;
    assert (a + b + c + d + e)[82..116] == e;
  }

  function Slice(r: Range): seq<int>
    requires Within(r, kCountOfHatIndices)
  {
    HatIndices()[r.offset..r.offset + r.count]
  }

  /** Both strips pair ring slot i of the upper ring with the matching slot
      of the lower ring, and close by repeating their first pair. */
  lemma HatStripsJoinRings(i: nat)
    requires i < kCountOfHatSlices
    ensures BrimStrip()[2 * i] == RingStart(kBrimTop) + i
    ensures BrimStrip()[2 * i + 1] == RingStart(kBrimBottom) + kCountOfHatSlices - 1 - i
    ensures StemStrip()[2 * i] == RingStart(kStemTop) + i
    ensures StemStrip()[2 * i + 1] == RingStart(kStemBottom) + i
    ensures BrimStrip()[32] == BrimStrip()[0] && BrimStrip()[33] == BrimStrip()[1]
    ensures StemStrip()[32] == StemStrip()[0] && StemStrip()[33] == StemStrip()[1]
  {
    assert (2 * i) / 2 == i && (2 * i + 1) / 2 == i && (2 * i + 1) % 2 == 1;
  }

  /** Every vertex of ring k / 16 lies on that ring's circle at that ring's
      height, and its outline vertex on the wider circle at the outline
      height; the outline rings enclose the hat. */
  lemma HatRingGeometry(m: Libm, k: nat)
    requires TrigLaw(m) && k < kCountOfHatVertices
    ensures RadialSq(HatVerts(m)[k]) == Sq(RingRadius(k / kCountOfHatSlices))
    ensures HatVerts(m)[k].y == RingY(k / kCountOfHatSlices)
    ensures RadialSq(HatOutline(m)[k]) == Sq(OutlineRingRadius(k / kCountOfHatSlices))
    ensures HatOutline(m)[k].y == OutlineRingY(k / kCountOfHatSlices)
    ensures 0.0 < RingRadius(k / kCountOfHatSlices) < OutlineRingRadius(k / kCountOfHatSlices)
  {
    var ring, i := k / kCountOfHatSlices, k % kCountOfHatSlices;
    assert k == RingStart(ring) + i;
    HatSlot(m, ring, i);
    RingPointRadius(m, ring, RingRadius(ring), RingY(ring), i);
    RingPointRadius(m, ring, OutlineRingRadius(ring), OutlineRingY(ring), i);
  }

  lemma RingPointRadius(m: Libm, ring: nat, radius: real, y: real, i: nat)
    requires TrigLaw(m)
    ensures RadialSq(RingPoint(m, ring, radius, y, i)) == Sq(radius) && RingPoint(m, ring, radius, y, i).y == y
  {
    var a := SliceAngle(i);
    OnCircleRadius(m, radius, a, y);
    assert Sq(-m.sin(a) * radius) == Sq(radius * m.sin(a));
    assert Sq(m.sin(a) * radius) == Sq(radius * m.sin(a));
    assert Sq(m.cos(a) * radius) == Sq(radius * m.cos(a));
  }

  /** Slot i of ring ring in both buffers. */
  lemma HatSlot(m: Libm, ring: nat, i: nat)
    requires ring < 4 && i < kCountOfHatSlices
    ensures HatVerts(m)[RingStart(ring) + i] == RingPoint(m, ring, RingRadius(ring), RingY(ring), i)
    ensures HatOutline(m)[RingStart(ring) + i] == RingPoint(m, ring, OutlineRingRadius(ring), OutlineRingY(ring), i)
  {
  }

  /** The brim bottom ring is the brim top ring mirrored in x. */
  lemma BrimMirrored(m: Libm, i: nat)
    requires i < kCountOfHatSlices
    ensures HatVerts(m)[i].x == -HatVerts(m)[RingStart(kBrimTop) + i].x
    ensures HatVerts(m)[i].z == HatVerts(m)[RingStart(kBrimTop) + i].z
  {
    HatSlot(m, kBrimBottom, i);
    HatSlot(m, kBrimTop, i);
  }

  /** One ring loop: sixteen vertices of ring ring at slot vertexAt of both
      vertex buffers and, when the ring has a fan, its sixteen indices at
      slot indexAt of the index buffer. */
  method EmitRing(m: Libm, vertAry: array<Vec3>, outlineVertAry: array<Vec3>, indexAry: array<int>,
                  ring: nat, vertexAt: nat, indexAt: nat, fan: bool)
    requires vertAry != outlineVertAry
    requires vertexAt + kCountOfHatSlices <= vertAry.Length && vertexAt + kCountOfHatSlices <= outlineVertAry.Length
    requires fan ==> indexAt + kCountOfHatSlices <= indexAry.Length
    modifies vertAry, outlineVertAry, indexAry
    ensures Spliced(old(vertAry[..]), vertAry[..], vertexAt, vertexAt + kCountOfHatSlices, HatRing(m, ring))
    ensures Spliced(old(outlineVertAry[..]), outlineVertAry[..], vertexAt, vertexAt + kCountOfHatSlices,
                    HatOutlineRing(m, ring))
    ensures fan ==> Spliced(old(indexAry[..]), indexAry[..], indexAt, indexAt + kCountOfHatSlices, RingIndices(vertexAt))
    ensures !fan ==> indexAry[..] == old(indexAry[..])
  {
    var radius, y := RingRadius(ring), RingY(ring);
    var outlineRadius, outlineY := OutlineRingRadius(ring), OutlineRingY(ring);
    for i := 0 to kCountOfHatSlices
      invariant forall k :: 0 <= k < vertAry.Length && !(vertexAt <= k < vertexAt + i) ==> vertAry[k] == old(vertAry[k])
      invariant forall k :: 0 <= k < outlineVertAry.Length && !(vertexAt <= k < vertexAt + i) ==>
                  outlineVertAry[k] == old(outlineVertAry[k])
      invariant forall k :: vertexAt <= k < vertexAt + i ==> vertAry[k] == RingPoint(m, ring, radius, y, k - vertexAt)
      invariant forall k :: vertexAt <= k < vertexAt + i ==>
                  outlineVertAry[k] == RingPoint(m, ring, outlineRadius, outlineY, k - vertexAt)
      invariant fan ==> forall k :: 0 <= k < indexAry.Length && !(indexAt <= k < indexAt + i) ==> indexAry[k] == old(indexAry[k])
      invariant fan ==> forall k :: indexAt <= k < indexAt + i ==> indexAry[k] == vertexAt + (k - indexAt)
      invariant !fan ==> indexAry[..] == old(indexAry[..])
    {
      vertAry[vertexAt + i] := RingPoint(m, ring, radius, y, i);
      outlineVertAry[vertexAt + i] := RingPoint(m, ring, outlineRadius, outlineY, i);
      if fan {
        indexAry[indexAt + i] := vertexAt + i;
      }
    }
    SplicedBySlots(old(vertAry[..]), vertAry[..], vertexAt, vertexAt + kCountOfHatSlices, HatRing(m, ring));
    SplicedBySlots(old(outlineVertAry[..]), outlineVertAry[..], vertexAt, vertexAt + kCountOfHatSlices,
                   HatOutlineRing(m, ring));
    if fan {
      SplicedBySlots(old(indexAry[..]), indexAry[..], indexAt, indexAt + kCountOfHatSlices, RingIndices(vertexAt));
    }
  }

  /** One strip loop with its closing pair, at slot at of the index buffer. */
  method EmitStrip(indexAry: array<int>, at: nat, top: int, bottom: int -> int, finishTop: int, finishBottom: int)
    requires at + 2 * kCountOfHatSlices + 2 <= indexAry.Length
    modifies indexAry
    ensures Spliced(old(indexAry[..]), indexAry[..], at, at + 2 * kCountOfHatSlices + 2,
                    StripIndices(top, bottom, finishTop, finishBottom))
  {
    var seg := StripIndices(top, bottom, finishTop, finishBottom);
    for i := 0 to kCountOfHatSlices
      invariant forall k :: 0 <= k < indexAry.Length && !(at <= k < at + 2 * i) ==> indexAry[k] == old(indexAry[k])
      invariant forall n :: 0 <= n < 2 * i ==> indexAry[at + n] == seg[n]
    {
      indexAry[at + 2 * i] := top + i;
      indexAry[at + 2 * i + 1] := bottom(i);
      assert (2 * i) / 2 == i && (2 * i + 1) / 2 == i && (2 * i + 1) % 2 == 1;
    }
    indexAry[at + 2 * kCountOfHatSlices] := finishTop;
    indexAry[at + 2 * kCountOfHatSlices + 1] := finishBottom;
    SplicedBySlots(old(indexAry[..]), indexAry[..], at, at + 2 * kCountOfHatSlices + 2, seg);
  }

  /** createHatBufferObjects without the OpenGL upload: the ranges it
      records are returned as layout. */
  method CreateHatBufferObjects(m: Libm)
    returns (vertAry: array<Vec3>, outlineVertAry: array<Vec3>, indexAry: array<int>, layout: HatLayout)
    ensures fresh(vertAry) && fresh(outlineVertAry) && fresh(indexAry)
    ensures vertAry[..] == HatVerts(m) && outlineVertAry[..] == HatOutline(m)
    ensures indexAry[..] == HatIndices()
    ensures layout == HatLayout(Range(0, 16), Range(16, 16), Range(32, 34), Range(66, 16), Range(82, 34))
  {
    var vertexIter: nat := 0;
    var indexIter: nat := 0;
    var countOfVertices := kCountOfHatSlices * 4;
    var countOfIndices := kCountOfHatSlices * 7 + 4;
    vertAry := new Vec3[countOfVertices];
    outlineVertAry := new Vec3[countOfVertices];
    indexAry := new int[countOfIndices];
    ghost var v, o, x := vertAry[..], outlineVertAry[..], indexAry[..];

    // the brim bottom fan
    var brimBottomFan := Range(indexIter, kCountOfHatSlices);
    var brimBottomIndices := vertexIter;
    EmitRing(m, vertAry, outlineVertAry, indexAry, kBrimBottom, vertexIter, indexIter, true);
    SpliceExtends(v, vertAry[..], 0, 16, HatRing(m, 0));
    SpliceExtends(o, outlineVertAry[..], 0, 16, HatOutlineRing(m, 0));
    SpliceExtends(x, indexAry[..], 0, 16, RingIndices(0));
    vertexIter, indexIter := vertexIter + kCountOfHatSlices, indexIter + kCountOfHatSlices;

    // the brim top fan
    v, o, x := vertAry[..], outlineVertAry[..], indexAry[..];
    var brimTopFan := Range(indexIter, kCountOfHatSlices);
    var brimTopIndices := vertexIter;
    EmitRing(m, vertAry, outlineVertAry, indexAry, kBrimTop, vertexIter, indexIter, true);
    SpliceExtends(v, vertAry[..], 16, 32, HatRing(m, 1));
    SpliceExtends(o, outlineVertAry[..], 16, 32, HatOutlineRing(m, 1));
    SpliceExtends(x, indexAry[..], 16, 32, RingIndices(16));
    vertexIter, indexIter := vertexIter + kCountOfHatSlices, indexIter + kCountOfHatSlices;

    // the brim strip between them
    x := indexAry[..];
    var brimStrip := Range(indexIter, kCountOfHatSlices * 2 + 2);
    EmitStrip(indexAry, indexIter, brimTopIndices, BrimBottomRule(brimBottomIndices),
              brimTopIndices, brimBottomIndices + kCountOfHatSlices - 1);
    SpliceExtends(x, indexAry[..], 32, 66, BrimStrip());
    indexIter := indexIter + kCountOfHatSlices * 2 + 2;

    // the stem top fan
    v, o, x := vertAry[..], outlineVertAry[..], indexAry[..];
    var stemTopFan := Range(indexIter, kCountOfHatSlices);
    var stemTopIndices := vertexIter;
    EmitRing(m, vertAry, outlineVertAry, indexAry, kStemTop, vertexIter, indexIter, true);
    SpliceExtends(v, vertAry[..], 32, 48, HatRing(m, 2));
    SpliceExtends(o, outlineVertAry[..], 32, 48, HatOutlineRing(m, 2));
    SpliceExtends(x, indexAry[..], 66, 82, RingIndices(32));
    vertexIter, indexIter := vertexIter + kCountOfHatSlices, indexIter + kCountOfHatSlices;

    // the stem bottom ring, without indices
    v, o := vertAry[..], outlineVertAry[..];
    var stemBottomIndices := vertexIter;
    EmitRing(m, vertAry, outlineVertAry, indexAry, kStemBottom, vertexIter, indexIter, false);
    SpliceExtends(v, vertAry[..], 48, 64, HatRing(m, 3));
    SpliceExtends(o, outlineVertAry[..], 48, 64, HatOutlineRing(m, 3));
    vertexIter := vertexIter + kCountOfHatSlices;

    // the stem strip between the stem rings
    x := indexAry[..];
    var stemStrip := Range(indexIter, kCountOfHatSlices * 2 + 2);
    EmitStrip(indexAry, indexIter, stemTopIndices, StemBottomRule(stemBottomIndices), stemTopIndices, stemBottomIndices);
    SpliceExtends(x, indexAry[..], 82, 116, StemStrip());
    indexIter := indexIter + kCountOfHatSlices * 2 + 2;

    layout := HatLayout(brimBottomFan, brimTopFan, brimStrip, stemTopFan, stemStrip);
    assert vertAry[..] == vertAry[..64];
    assert outlineVertAry[..] == outlineVertAry[..64];
    assert indexAry[..] == indexAry[..116];
  }
}
