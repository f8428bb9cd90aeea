/** The arms (hacks/glx/snowmen.c:1030-1193): six joints of eight vertices
    each, placed by createArmJoint, once for the arm and once, wider, for its
    outline, and a literal index buffer of one long triangle strip and one
    fan. */
module Arm {
  import opened Geometry

  import opened Splices

  const kCountOfJointVertices: nat := 8
  const kCountOfJoints: nat := 6
  const kCountOfArmVertices: nat := kCountOfJointVertices * kCountOfJoints
  const kArmOutlineWidth: real := 0.03
  const kCountOfArmStripIndices: nat := 18 * 5 + 4
  const kCountOfArmIndices: nat := 18 * 5 + 4 + 8

  /** The centre of a joint, and its half extent along each axis. */
  datatype Joint = Joint(pos: Vec3, range: Vec3)

  /** The range scaled by 1 / sqrt 2, for the four diagonal slots. */
  function Range45(m: Libm, range: Vec3): Vec3
    requires SqrtLaw(m)
  {
    var sqrt2 := 1.0 / m.sqrt(2.0);
    Vec3(range.x * sqrt2, range.y * sqrt2, range.z * sqrt2)
  }

  /** The eight vertices createArmJoint writes, in order, round the joint. */
  function JointVerts(m: Libm, joint: Joint): (r: seq<Vec3>)
    requires SqrtLaw(m)
    ensures |r| == kCountOfJointVertices
  {
    var o, d, d45 := joint.pos, joint.range, Range45(m, joint.range);
    [ Vec3(o.x - d.x, o.y + d.y, o.z),
      Vec3(o.x - d45.x, o.y + d45.y, o.z + d45.z),
      Vec3(o.x, o.y, o.z + d.z),
      Vec3(o.x + d45.x, o.y - d45.y, o.z + d45.z),
      Vec3(o.x + d.x, o.y - d.y, o.z),
      Vec3(o.x + d45.x, o.y - d45.y, o.z - d45.z),
      Vec3(o.x, o.y, o.z - d.z),
      Vec3(o.x - d45.x, o.y + d45.y, o.z - d45.z) ]
  }

  const kProximal: Joint := Joint(Vec3(0.76, 0.0, 0.0), Vec3(0.0, 0.06, 0.06))
  const kMedial1: Joint := Joint(Vec3(1.6, 0.2, 0.0), Vec3(0.0, 0.05, 0.05))
  const kMedial2: Joint := Joint(Vec3(1.9, 0.1, 0.0), Vec3(0.0, 0.04, 0.04))
  const kDistal1: Joint := Joint(Vec3(2.3, 0.2, 0.0), Vec3(0.01, 0.02, 0.02))
  const kDistal2: Joint := Joint(Vec3(2.0, 0.5, 0.3), Vec3(0.01, 0.02, 0.02))
  const kDistal3: Joint := Joint(Vec3(2.3, 0.0, 0.1), Vec3(-0.01, 0.02, 0.02))

  const kProximalOutline: Joint :=
    Joint(Vec3(0.793, 0.0, 0.0), Vec3(0.0, 0.06 + kArmOutlineWidth, 0.06 + kArmOutlineWidth))
  const kMedial1Outline: Joint :=
    Joint(Vec3(1.6, 0.2, 0.0), Vec3(0.0, 0.05 + kArmOutlineWidth, 0.05 + kArmOutlineWidth))
  const kMedial2Outline: Joint :=
    Joint(Vec3(1.9, 0.1, 0.0), Vec3(0.0, 0.04 + kArmOutlineWidth, 0.04 + kArmOutlineWidth))
  const kDistal1Outline: Joint :=
    Joint(Vec3(2.3 + kArmOutlineWidth, 0.2, 0.0), Vec3(0.01, 0.02 + kArmOutlineWidth, 0.02 + kArmOutlineWidth))
  const kDistal2Outline: Joint :=
    Joint(Vec3(2.0 + kArmOutlineWidth, 0.5, 0.3), Vec3(0.03, 0.02 + kArmOutlineWidth, 0.02 + kArmOutlineWidth))
  const kDistal3Outline: Joint :=
    Joint(Vec3(2.3 + kArmOutlineWidth, 0.0, 0.1), Vec3(-0.01, 0.02 + kArmOutlineWidth, 0.02 + kArmOutlineWidth))

  /** The joints of the arm and of its outline, in buffer order. */
  const kArmJoints: seq<Joint> := [kProximal, kMedial1, kMedial2, kDistal1, kDistal2, kDistal3]
  const kArmOutlineJoints: seq<Joint> :=
    [kProximalOutline, kMedial1Outline, kMedial2Outline, kDistal1Outline, kDistal2Outline, kDistal3Outline]

  function JointPieces(m: Libm, joints: seq<Joint>): (r: seq<seq<Vec3>>)
    requires SqrtLaw(m)
    ensures |r| == |joints| && forall j :: 0 <= j < |r| ==> r[j] == JointVerts(m, joints[j])
  {
    seq(|joints|, j requires 0 <= j < |joints| => JointVerts(m, joints[j]))
  }

  /** The buffer for a list of joints: their rings one after another. */
  function ArmVerts(m: Libm, joints: seq<Joint>): seq<Vec3>
    requires SqrtLaw(m)
  {
    Concat(JointPieces(m, joints))
  }

  /** The literal index buffer, row by row: three strip segments joining
      neighbouring joints, two more reaching the termini, each of the last
      three led in or out by a repeated index so that the joining triangles
      have no area, and the fan closing the proximal joint. */
  const kSegment3: seq<int> := [24,16, 25,17, 26,18, 27,19, 28,20, 29,21, 30,22, 31,23, 24,16]
  const kSegment2: seq<int> := [16,8, 17,9, 18,10, 19,11, 20,12, 21,13, 22,14, 23,15, 16,8]
  const kSegment1: seq<int> := [8,0, 9,1, 10,2, 11,3, 12,4, 13,5, 14,6, 15,7, 8,0, 0]
  const kSegment4: seq<int> := [32, 32,8, 33,9, 34,10, 35,11, 36,12, 37,13, 38,14, 39,15, 32,8, 8]
  const kSegment5: seq<int> := [40, 40,16, 41,17, 42,18, 43,19, 44,20, 45,21, 46,22, 47,23, 40,16]
  const kProximalOutlineFan: seq<int> := [7, 6, 5, 4, 3, 2, 1, 0]

  const kArmIndices: seq<int> := kSegment3 + kSegment2 + kSegment1 + kSegment4 + kSegment5 + kProximalOutlineFan

  /** Each joint's eight vertices lie mirrored through its centre: slot k
      and slot k + 4 average to the centre. */
  lemma JointAntipodal(m: Libm, joint: Joint, k: nat)
    requires SqrtLaw(m) && k < 4
    ensures Add(JointVerts(m, joint)[k], JointVerts(m, joint)[k + 4])
            == Vec3(2.0 * joint.pos.x, 2.0 * joint.pos.y, 2.0 * joint.pos.z)
  {
  }

  /** A joint whose range has no x part and equal y and z parts puts all
      eight vertices on the circle of that radius about its centre, in the
      plane x = centre x. */
  lemma JointOnCircle(m: Libm, joint: Joint, k: nat)
    requires SqrtLaw(m) && k < kCountOfJointVertices
    requires joint.range.x == 0.0 && joint.range.y == joint.range.z
    ensures JointVerts(m, joint)[k].x == joint.pos.x
    ensures NormSq(Offset(JointVerts(m, joint)[k], joint.pos)) == Sq(joint.range.y)
  {
    var s := 1.0 / m.sqrt(2.0);
    HalfSquare(m);
    var r := joint.range.y;
    var d45 := Range45(m, joint.range);
    assert d45.y == r * s && d45.z == r * s && d45.x == 0.0;
    SqOfProduct(r, s);
    assert Sq(r * s) + Sq(r * s) == Sq(r);
    assert Sq(-(r * s)) == Sq(r * s);
    assert Sq(-r) == Sq(r);
  }

  function Offset(v: Vec3, o: Vec3): Vec3
  {
    Vec3(v.x - o.x, v.y - o.y, v.z - o.z)
  }

  /** (1 / sqrt 2)^2 = 1/2. */
  lemma HalfSquare(m: Libm)
    requires SqrtLaw(m)
    ensures Sq(1.0 / m.sqrt(2.0)) == 0.5
  {
    var q := m.sqrt(2.0);
    assert q > 0.0 && Sq(q) == 2.0;
    var s := 1.0 / q;
    assert s * q == 1.0;
    assert Sq(s) * Sq(q) == Sq(s * q) by { SqOfProduct(s, q); }
  }

  /** One strip segment from index start pairs each slot of the outer joint
      with the same slot of the inner joint and closes on its first pair. */
  ghost predicate Segment(indices: seq<int>, start: nat, outer: nat, inner: nat)
  {
    && start + 18 <= |indices|
    && (forall i :: 0 <= i < kCountOfJointVertices ==>
          indices[start + 2 * i] == 8 * outer + i && indices[start + 2 * i + 1] == 8 * inner + i)
    && indices[start + 16] == indices[start] && indices[start + 17] == indices[start + 1]
  }

  /** The pairs of a segment from pair i on, checked one pair at a time. */
  predicate PairsFrom(indices: seq<int>, start: nat, outer: nat, inner: nat, i: nat)
    decreases kCountOfJointVertices - i
  {
    || i >= kCountOfJointVertices
    || (&& start + 2 * i + 1 < |indices|
        && indices[start + 2 * i] == 8 * outer + i && indices[start + 2 * i + 1] == 8 * inner + i
        && PairsFrom(indices, start, outer, inner, i + 1))
  }

  lemma {:induction false} PairsAll(indices: seq<int>, start: nat, outer: nat, inner: nat, i: nat)
    requires PairsFrom(indices, start, outer, inner, i)
    ensures forall j :: i <= j < kCountOfJointVertices ==>
              start + 2 * j + 1 < |indices| &&
              indices[start + 2 * j] == 8 * outer + j && indices[start + 2 * j + 1] == 8 * inner + j
    decreases kCountOfJointVertices - i
  {
    if i < kCountOfJointVertices {
      PairsAll(indices, start, outer, inner, i + 1);
    }
  }

  /** A row that checks out pair by pair and closes on its first pair is a segment. */
  lemma RowSegment(row: seq<int>, start: nat, outer: nat, inner: nat)
    requires PairsFrom(row, start, outer, inner, 0)
    requires start + 18 <= |row| && row[start + 16] == row[start] && row[start + 17] == row[start + 1]
    ensures Segment(row, start, outer, inner)
  {
    PairsAll(row, start, outer, inner, 0);
  }

  lemma SegmentPrefixed(before: seq<int>, row: seq<int>, start: nat, outer: nat, inner: nat)
    requires Segment(row, start, outer, inner)
    ensures Segment(before + row, |before| + start, outer, inner)
  {
    var all := before + row;
    forall i | 0 <= i < kCountOfJointVertices
      ensures all[|before| + start + 2 * i] == 8 * outer + i && all[|before| + start + 2 * i + 1] == 8 * inner + i
    {
      assert all[|before| + start + 2 * i] == row[start + 2 * i];
      assert all[|before| + start + 2 * i + 1] == row[start + 2 * i + 1];
    }
  }

  lemma SegmentExtended(s: seq<int>, t: seq<int>, start: nat, outer: nat, inner: nat)
    requires Segment(s, start, outer, inner)
    ensures Segment(s + t, start, outer, inner)
  {
    var all := s + t;
    forall i | 0 <= i < kCountOfJointVertices
      ensures all[start + 2 * i] == 8 * outer + i && all[start + 2 * i + 1] == 8 * inner + i
    {
      assert all[start + 2 * i] == s[start + 2 * i];
      assert all[start + 2 * i + 1] == s[start + 2 * i + 1];
    }
  }

  /** A literal row whose members are vertex numbers and which checks out
      pair by pair is a segment of valid indices. */
  lemma RowFacts(row: seq<int>, start: nat, outer: nat, inner: nat)
    requires forall x <- row :: 0 <= x < kCountOfArmVertices
    requires PairsFrom(row, start, outer, inner, 0)
    requires start + 18 <= |row| && row[start + 16] == row[start] && row[start + 17] == row[start + 1]
    ensures IndicesBelow(row, kCountOfArmVertices) && Segment(row, start, outer, inner)
  {
    MembersBelow(row, kCountOfArmVertices);
    RowSegment(row, start, outer, inner);
  }

  lemma Segment3Facts()
    ensures IndicesBelow(kSegment3, kCountOfArmVertices) && Segment(kSegment3, 0, 3, 2)
  {
    RowFacts(kSegment3, 0, 3, 2);
  }

  lemma Segment2Facts()
    ensures IndicesBelow(kSegment2, kCountOfArmVertices) && Segment(kSegment2, 0, 2, 1)
  {
    RowFacts(kSegment2, 0, 2, 1);
  }

  lemma Segment1Facts()
    ensures IndicesBelow(kSegment1, kCountOfArmVertices) && Segment(kSegment1, 0, 1, 0)
  {
    RowFacts(kSegment1, 0, 1, 0);
  }

  lemma Segment4Facts()
    ensures IndicesBelow(kSegment4, kCountOfArmVertices) && Segment(kSegment4, 1, 4, 1)
  {
    RowFacts(kSegment4, 1, 4, 1);
  }

  lemma Segment5Facts()
    ensures IndicesBelow(kSegment5, kCountOfArmVertices) && Segment(kSegment5, 1, 5, 2)
  {
    RowFacts(kSegment5, 1, 5, 2);
  }

  lemma FanFacts()
    ensures IndicesBelow(kProximalOutlineFan, kCountOfArmVertices)
    ensures forall k :: 0 <= k < 8 ==> kProximalOutlineFan[k] == 7 - k
  {
    assert forall x <- kProximalOutlineFan :: 0 <= x < kCountOfArmVertices;
    MembersBelow(kProximalOutlineFan, kCountOfArmVertices);
  }

  lemma RowsBelow()
    ensures IndicesBelow(kSegment3, kCountOfArmVertices) && IndicesBelow(kSegment2, kCountOfArmVertices)
    ensures IndicesBelow(kSegment1, kCountOfArmVertices) && IndicesBelow(kSegment4, kCountOfArmVertices)
    ensures IndicesBelow(kSegment5, kCountOfArmVertices) && IndicesBelow(kProximalOutlineFan, kCountOfArmVertices)
  {
    Segment3Facts();
    Segment2Facts();
    Segment1Facts();
    Segment4Facts();
    Segment5Facts();
    FanFacts();
  }

  /** Every index names one of the 48 vertices; the strip is the first 94
      indices and the fan the last 8, running round the proximal joint
      backwards. */
  lemma ArmIndicesValid()
    ensures |kArmIndices| == kCountOfArmIndices
    ensures IndicesBelow(kArmIndices, kCountOfArmVertices)
    ensures kArmIndices[kCountOfArmStripIndices..] == kProximalOutlineFan
    ensures forall k :: 0 <= k < 8 ==> kProximalOutlineFan[k] == 7 - k
  {
    RowsBelow();
    FanFacts();
    var a, b, c, d, e, f := kSegment3, kSegment2, kSegment1, kSegment4, kSegment5, kProximalOutlineFan;
    IndicesBelowJoin(a, b, kCountOfArmVertices);
    IndicesBelowJoin(a + b, c, kCountOfArmVertices);
    IndicesBelowJoin(a + b + c, d, kCountOfArmVertices);
    IndicesBelowJoin(a + b + c + d, e, kCountOfArmVertices);
    IndicesBelowJoin(a + b + c + d + e, f, kCountOfArmVertices);
  }

  lemma RowSegments()
    ensures Segment(kSegment3, 0, 3, 2) && Segment(kSegment2, 0, 2, 1) && Segment(kSegment1, 0, 1, 0)
    ensures Segment(kSegment4, 1, 4, 1) && Segment(kSegment5, 1, 5, 2)
  {
    Segment3Facts();
    Segment2Facts();
    Segment1Facts();
    Segment4Facts();
    Segment5Facts();
  }

  /** The strip is five segments: distal 1 to medial 2, medial 2 to
      medial 1, medial 1 to proximal, distal 2 to medial 1 and distal 3 to
      medial 2, joined by repeated indices so that the triangles bridging
      them have no area. */
  lemma ArmStripSegments()
    ensures Segment(kArmIndices, 0, 3, 2)
    ensures Segment(kArmIndices, 18, 2, 1)
    ensures Segment(kArmIndices, 36, 1, 0)
    ensures Segment(kArmIndices, 56, 4, 1)
    ensures Segment(kArmIndices, 76, 5, 2)
    ensures kArmIndices[54] == kArmIndices[53] && kArmIndices[55] == kArmIndices[56]
    ensures kArmIndices[74] == kArmIndices[73] && kArmIndices[75] == kArmIndices[76]
  {
    RowSegments();
    var a, b, c, d, e, f := kSegment3, kSegment2, kSegment1, kSegment4, kSegment5, kProximalOutlineFan;
    SegmentExtended(a, b, 0, 3, 2);
    SegmentExtended(a + b, c, 0, 3, 2);
    SegmentExtended(a + b + c, d, 0, 3, 2);
    SegmentExtended(a + b + c + d, e, 0, 3, 2);
    SegmentExtended(a + b + c + d + e, f, 0, 3, 2);
    SegmentPrefixed(a, b, 0, 2, 1);
    SegmentExtended(a + b, c, 18, 2, 1);
    SegmentExtended(a + b + c, d, 18, 2, 1);
    SegmentExtended(a + b + c + d, e, 18, 2, 1);
    SegmentExtended(a + b + c + d + e, f, 18, 2, 1);
    SegmentPrefixed(a + b, c, 0, 1, 0);
    SegmentExtended(a + b + c, d, 36, 1, 0);
    SegmentExtended(a + b + c + d, e, 36, 1, 0);
    SegmentExtended(a + b + c + d + e, f, 36, 1, 0);
    SegmentPrefixed(a + b + c, d, 1, 4, 1);
    SegmentExtended(a + b + c + d, e, 56, 4, 1);
    SegmentExtended(a + b + c + d + e, f, 56, 4, 1);
    SegmentPrefixed(a + b + c + d, e, 1, 5, 2);
    SegmentExtended(a + b + c + d + e, f, 76, 5, 2);
    BridgeSlots();
  }

  lemma BridgeSlots()
    ensures kArmIndices[53] == kSegment1[17] && kArmIndices[54] == kSegment1[18]
    ensures kArmIndices[55] == kSegment4[0] && kArmIndices[56] == kSegment4[1]
    ensures kArmIndices[73] == kSegment4[18] && kArmIndices[74] == kSegment4[19]
    ensures kArmIndices[75] == kSegment5[0] && kArmIndices[76] == kSegment5[1]
  {
  }

  /** createArmJoint: eight vertices at slot at of dest; returns the slot
      after them. */
  method CreateArmJoint(m: Libm, dest: array<Vec3>, at: nat, origin: Vec3, range: Vec3) returns (next: nat)
    requires SqrtLaw(m) && at + kCountOfJointVertices <= dest.Length
    modifies dest
    ensures next == at + kCountOfJointVertices
    ensures Spliced(old(dest[..]), dest[..], at, next, JointVerts(m, Joint(origin, range)))
  {
    var sqrt2 := 1.0 / m.sqrt(2.0);
    var range45 := Vec3(range.x * sqrt2, range.y * sqrt2, range.z * sqrt2);
    dest[at] := Vec3(origin.x - range.x, origin.y + range.y, origin.z);
    dest[at + 1] := Vec3(origin.x - range45.x, origin.y + range45.y, origin.z + range45.z);
    dest[at + 2] := Vec3(origin.x, origin.y, origin.z + range.z);
    dest[at + 3] := Vec3(origin.x + range45.x, origin.y - range45.y, origin.z + range45.z);
    dest[at + 4] := Vec3(origin.x + range.x, origin.y - range.y, origin.z);
    dest[at + 5] := Vec3(origin.x + range45.x, origin.y - range45.y, origin.z - range45.z);
    dest[at + 6] := Vec3(origin.x, origin.y, origin.z - range.z);
    dest[at + 7] := Vec3(origin.x - range45.x, origin.y + range45.y, origin.z - range45.z);
    next := at + kCountOfJointVertices;
    ghost var seg := JointVerts(m, Joint(origin, range));
    assert range45 == Range45(m, range);
    assert forall i :: 0 <= i < 8 ==> dest[at + i] == seg[i];
    SplicedBySlots(old(dest[..]), dest[..], at, next, seg);
  }

  /** The six createArmJoint calls of one buffer, each starting where the
      previous one stopped. */
  method CreateArmJoints(m: Libm, dest: array<Vec3>, joints: seq<Joint>)
    requires SqrtLaw(m) && |joints| == kCountOfJoints && dest.Length == kCountOfArmVertices
    modifies dest
    ensures dest[..] == ArmVerts(m, joints)
  {
    ghost var pieces := JointPieces(m, joints);
    ghost var before := dest[..];
    assert before[..0] == Concat(pieces[..0]);
    var vertPtr := CreateArmJoint(m, dest, 0, joints[0].pos, joints[0].range);
    PieceAppended(before, dest[..], 0, pieces, 0);
    before := dest[..];
    vertPtr := CreateArmJoint(m, dest, vertPtr, joints[1].pos, joints[1].range);
    PieceAppended(before, dest[..], 8, pieces, 1);
    before := dest[..];
    vertPtr := CreateArmJoint(m, dest, vertPtr, joints[2].pos, joints[2].range);
    PieceAppended(before, dest[..], 16, pieces, 2);
    before := dest[..];
    vertPtr := CreateArmJoint(m, dest, vertPtr, joints[3].pos, joints[3].range);
    PieceAppended(before, dest[..], 24, pieces, 3);
    before := dest[..];
    vertPtr := CreateArmJoint(m, dest, vertPtr, joints[4].pos, joints[4].range);
    PieceAppended(before, dest[..], 32, pieces, 4);
    before := dest[..];
    vertPtr := CreateArmJoint(m, dest, vertPtr, joints[5].pos, joints[5].range);
    PieceAppended(before, dest[..], 40, pieces, 5);
    assert pieces[..6] == pieces;
    assert dest[..] == dest[..48];
  }

  /** createArmBufferObjects without the OpenGL upload. */
  method CreateArmBufferObjects(m: Libm) returns (verts: array<Vec3>, outlineVerts: array<Vec3>, indices: seq<int>)
    requires SqrtLaw(m)
    ensures fresh(verts) && fresh(outlineVerts)
    ensures verts[..] == ArmVerts(m, kArmJoints) && outlineVerts[..] == ArmVerts(m, kArmOutlineJoints)
    ensures indices == kArmIndices
  {
    var countOfVertices := 8 * 6;
    verts := new Vec3[countOfVertices];
    outlineVerts := new Vec3[countOfVertices];
    CreateArmJoints(m, verts, kArmJoints);
    CreateArmJoints(m, outlineVerts, kArmOutlineJoints);
    indices := kArmIndices;
  }
}
