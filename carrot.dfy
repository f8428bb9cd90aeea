/** The carrot nose (hacks/glx/snowmen.c:1287-1361): a literal dorsal ring
    of eight vertices, a smaller medial ring of eight further forward, and
    the tip, with a literal index buffer of one strip and two fans. */
module Carrot {
  import opened Geometry

  import opened Splices

  const kDorsalDiameter: real := 0.15
  const kDiagDD: real := 0.11
  const kMedialDiameter: real := 0.1
  const kDiagMD: real := 0.07
  const kDorsalZ: real := 0.0
  const kMedialZ: real := 0.4

  const kCountOfRingVertices: nat := 8
  const kCountOfCarrotVertices: nat := 17
  const kCountOfCarrotIndices: nat := 18 + 10 + 8
  const kTip: nat := 16

  const kDorsalRing: seq<Vec3> := [
    Vec3(0.0, kDorsalDiameter, kDorsalZ), Vec3(-kDiagDD, kDiagDD, kDorsalZ),
    Vec3(-kDorsalDiameter, 0.0, kDorsalZ), Vec3(-kDiagDD, -kDiagDD, kDorsalZ),
    Vec3(0.0, -kDorsalDiameter, kDorsalZ), Vec3(kDiagDD, -kDiagDD, kDorsalZ),
    Vec3(kDorsalDiameter, 0.0, kDorsalZ), Vec3(kDiagDD, kDiagDD, kDorsalZ) ]

  const kMedialRing: seq<Vec3> := [
    Vec3(0.0, kMedialDiameter, kMedialZ), Vec3(-kDiagMD, kDiagMD, kMedialZ),
    Vec3(-kMedialDiameter, 0.0, kMedialZ), Vec3(-kDiagMD, -kDiagMD, kMedialZ),
    Vec3(0.0, -kMedialDiameter, kMedialZ), Vec3(kDiagMD, -kDiagMD, kMedialZ),
    Vec3(kMedialDiameter, 0.0, kMedialZ), Vec3(kDiagMD, kDiagMD, kMedialZ) ]

  const kVentralPoint: Vec3 := Vec3(0.0, -0.1, 0.8)

  const kCarrotVerts: seq<Vec3> := kDorsalRing + kMedialRing + [kVentralPoint]

  /** The index buffer, row by row. */
  const kSideStrip: seq<int> := [8,0,9,1,10,2,11,3,12,4,13,5,14,6,15,7,8,0]
  const kTipFan: seq<int> := [16,8,9,10,11,12,13,14,15,8]
  const kBaseFan: seq<int> := [7,6,5,4,3,2,1,0]

  const kCarrotIndices: seq<int> := kSideStrip + kTipFan + kBaseFan

  /** Each ring lies in its own plane across the nose, and its slots k and
      k + 4 lie opposite each other through the nose's axis. */
  lemma CarrotRings()
    ensures |kCarrotVerts| == kCountOfCarrotVertices
    ensures forall k :: 0 <= k < kCountOfRingVertices ==> kDorsalRing[k].z == kDorsalZ && kMedialRing[k].z == kMedialZ
    ensures forall k :: 0 <= k < 4 ==>
              kDorsalRing[k + 4] == Vec3(-kDorsalRing[k].x, -kDorsalRing[k].y, kDorsalZ)
              && kMedialRing[k + 4] == Vec3(-kMedialRing[k].x, -kMedialRing[k].y, kMedialZ)
    ensures kDorsalZ < kMedialZ < kCarrotVerts[kTip].z
  {
  }

  /** Every index names one of the 17 vertices, and the three rows sit one
      after another in the buffer. */
  lemma CarrotIndicesValid()
    ensures |kCarrotIndices| == kCountOfCarrotIndices
    ensures IndicesBelow(kCarrotIndices, kCountOfCarrotVertices)
    ensures kCarrotIndices[..18] == kSideStrip && kCarrotIndices[18..28] == kTipFan
    ensures kCarrotIndices[28..] == kBaseFan
  {
    SideStripFacts();
    TipFanFacts();
    BaseFanFacts();
    IndicesBelowJoin(kSideStrip, kTipFan, kCountOfCarrotVertices);
    IndicesBelowJoin(kSideStrip + kTipFan, kBaseFan, kCountOfCarrotVertices);
  }

  /** The side strip pairs medial slot i with dorsal slot i and closes on
      its first pair. */
  lemma SideStripFacts()
    ensures IndicesBelow(kSideStrip, kCountOfCarrotVertices)
    ensures forall i :: 0 <= i < kCountOfRingVertices ==> StripPair(i) == (8 + i, i)
    ensures kSideStrip[16] == kSideStrip[0] && kSideStrip[17] == kSideStrip[1]
  {
    assert forall x <- kSideStrip :: 0 <= x < kCountOfCarrotVertices;
    MembersBelow(kSideStrip, kCountOfCarrotVertices);
  }

  function StripPair(i: nat): (int, int)
    requires i < 9
  {
    (kSideStrip[2 * i], kSideStrip[2 * i + 1])
  }

  /** The tip fan runs from the tip round the medial ring and closes on
      its first ring slot. */
  lemma TipFanFacts()
    ensures IndicesBelow(kTipFan, kCountOfCarrotVertices)
    ensures kTipFan[0] == kTip
    ensures forall k :: 1 <= k <= kCountOfRingVertices ==> kTipFan[k] == 7 + k
    ensures kTipFan[9] == kTipFan[1]
  {
    assert forall x <- kTipFan :: 0 <= x < kCountOfCarrotVertices;
    MembersBelow(kTipFan, kCountOfCarrotVertices);
  }

  /** The base fan runs round the dorsal ring backwards, so it faces the
      other way. */
  lemma BaseFanFacts()
    ensures IndicesBelow(kBaseFan, kCountOfCarrotVertices)
    ensures forall k :: 0 <= k < kCountOfRingVertices ==> kBaseFan[k] == 7 - k
  {
    assert forall x <- kBaseFan :: 0 <= x < kCountOfCarrotVertices;
    MembersBelow(kBaseFan, kCountOfCarrotVertices);
  }
}
