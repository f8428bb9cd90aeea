/** The skates (hacks/glx/snowmen.c:1195-1266): a literal profile of
    thirteen vertices on each side of the blade, and a literal index buffer
    of two side strips and one strip round the edge. */
module Skate {
  import opened Geometry

  import opened Splices

  const kSkateHalfWidth: real := 1.0
  const kCountOfProfileVertices: nat := 13
  const kCountOfSkateVertices: nat := 26
  const kCountOfSkateIndices: nat := 13 + 13 + 28

  /** The side at x = +kSkateHalfWidth, slots 0 .. 12. */
  const kSkatePlusSide: seq<Vec3> := [
    Vec3(kSkateHalfWidth, 0.0, -15.0), Vec3(kSkateHalfWidth, 5.0, -12.0),
    Vec3(kSkateHalfWidth, 0.0, 13.0), Vec3(kSkateHalfWidth, 5.0, 12.0),
    Vec3(kSkateHalfWidth, 2.0, 18.0), Vec3(kSkateHalfWidth, 6.0, 14.0),
    Vec3(kSkateHalfWidth, 5.0, 20.0), Vec3(kSkateHalfWidth, 8.0, 15.0),
    Vec3(kSkateHalfWidth, 8.0, 20.0), Vec3(kSkateHalfWidth, 10.0, 14.0),
    Vec3(kSkateHalfWidth, 10.0, 19.0), Vec3(kSkateHalfWidth, 12.0, 12.0),
    Vec3(kSkateHalfWidth, 12.0, 15.0) ]

  /** The side at x = -kSkateHalfWidth, slots 13 .. 25. */
  const kSkateMinusSide: seq<Vec3> := [
    Vec3(-kSkateHalfWidth, 0.0, -15.0), Vec3(-kSkateHalfWidth, 5.0, -12.0),
    Vec3(-kSkateHalfWidth, 0.0, 13.0), Vec3(-kSkateHalfWidth, 5.0, 12.0),
    Vec3(-kSkateHalfWidth, 2.0, 18.0), Vec3(-kSkateHalfWidth, 6.0, 14.0),
    Vec3(-kSkateHalfWidth, 5.0, 20.0), Vec3(-kSkateHalfWidth, 8.0, 15.0),
    Vec3(-kSkateHalfWidth, 8.0, 20.0), Vec3(-kSkateHalfWidth, 10.0, 14.0),
    Vec3(-kSkateHalfWidth, 10.0, 19.0), Vec3(-kSkateHalfWidth, 12.0, 12.0),
    Vec3(-kSkateHalfWidth, 12.0, 15.0) ]

  const kSkateVerts: seq<Vec3> := kSkatePlusSide + kSkateMinusSide

  /** The index buffer, row by row: the minus side backwards (its strip
      faces the other way), the plus side forwards, and the edge strip. */
  const kMinusSideStrip: seq<int> := [25, 24, 23, 22, 21, 20, 19, 18, 17, 16, 15, 14, 13]
  const kPlusSideStrip: seq<int> := [0, 1, 2, 3, 4, 5, 6, 7, 8, 9, 10, 11, 12]
  const kEdgeStrip: seq<int> :=
    [0,13, 1,14, 3,16, 5,18, 7,20, 9,22, 11,24, 12,25, 10,23, 8,21, 6,19, 4,17, 2,15, 0,13]

  const kSkateIndices: seq<int> := kMinusSideStrip + kPlusSideStrip + kEdgeStrip

  /** The profile slot the edge strip visits at its pair i, and the slot
      it pairs that with. */
  function EdgeWalk(i: nat): int
    requires i < 14
  {
    kEdgeStrip[2 * i]
  }

  function EdgePartner(i: nat): int
    requires i < 14
  {
    kEdgeStrip[2 * i + 1]
  }

  /** The two sides are mirror images through the plane x = 0. */
  lemma SkateMirrored()
    ensures |kSkateVerts| == kCountOfSkateVertices
    ensures forall k :: 0 <= k < kCountOfProfileVertices ==>
              kSkateVerts[k + kCountOfProfileVertices] == Vec3(-kSkateVerts[k].x, kSkateVerts[k].y, kSkateVerts[k].z)
  {
    forall k | 0 <= k < kCountOfProfileVertices
      ensures kSkateMinusSide[k] == Vec3(-kSkatePlusSide[k].x, kSkatePlusSide[k].y, kSkatePlusSide[k].z)
    {
    }
  }

  /** Every index names one of the 26 vertices, and the three rows sit
      one after another in the buffer. */
  lemma SkateIndicesValid()
    ensures |kSkateIndices| == kCountOfSkateIndices
    ensures IndicesBelow(kSkateIndices, kCountOfSkateVertices)
    ensures kSkateIndices[..13] == kMinusSideStrip && kSkateIndices[13..26] == kPlusSideStrip
    ensures kSkateIndices[26..] == kEdgeStrip
  {
    MinusSideFacts();
    PlusSideFacts();
    EdgeBelow();
    IndicesBelowJoin(kMinusSideStrip, kPlusSideStrip, kCountOfSkateVertices);
    IndicesBelowJoin(kMinusSideStrip + kPlusSideStrip, kEdgeStrip, kCountOfSkateVertices);
  }

  /** The minus side strip runs over slots 25 down to 13. */
  lemma MinusSideFacts()
    ensures IndicesBelow(kMinusSideStrip, kCountOfSkateVertices)
    ensures forall k :: 0 <= k < |kMinusSideStrip| ==> kMinusSideStrip[k] == 25 - k
  {
    assert forall x <- kMinusSideStrip :: 0 <= x < kCountOfSkateVertices;
    MembersBelow(kMinusSideStrip, kCountOfSkateVertices);
  }

  /** The plus side strip runs over slots 0 up to 12. */
  lemma PlusSideFacts()
    ensures IndicesBelow(kPlusSideStrip, kCountOfSkateVertices)
    ensures forall k :: 0 <= k < |kPlusSideStrip| ==> kPlusSideStrip[k] == k
  {
    assert forall x <- kPlusSideStrip :: 0 <= x < kCountOfSkateVertices;
    MembersBelow(kPlusSideStrip, kCountOfSkateVertices);
  }

  lemma EdgeBelow()
    ensures IndicesBelow(kEdgeStrip, kCountOfSkateVertices)
  {
    assert forall x <- kEdgeStrip :: 0 <= x < kCountOfSkateVertices;
    MembersBelow(kEdgeStrip, kCountOfSkateVertices);
  }

  /** Each pair of the edge strip joins a profile vertex to its mirror
      image on the other side, and the strip closes on its first pair. */
  lemma EdgeMirrored()
    ensures forall i :: 0 <= i < 14 ==> EdgePartner(i) == EdgeWalk(i) + kCountOfProfileVertices
    ensures EdgeWalk(13) == EdgeWalk(0) && EdgePartner(13) == EdgePartner(0)
  {
    forall i | 0 <= i < 14
      ensures EdgePartner(i) == EdgeWalk(i) + kCountOfProfileVertices
    {
      if i < 7 {
        if i == 0 {} else if i == 1 {} else if i == 2 {} else if i == 3 {} else if i == 4 {} else if i == 5 {} else {}
      } else {
        if i == 7 {} else if i == 8 {} else if i == 9 {} else if i == 10 {} else if i == 11 {} else if i == 12 {} else {}
      }
    }
  }

  /** The walk round the edge passes profile vertex p. */
  predicate Visited(p: int)
  {
    exists i: nat :: i < 13 && EdgeWalk(i) == p
  }

  /** The walk round the edge visits every profile vertex. */
  lemma EdgeVisitsAll()
    ensures forall p :: 0 <= p < kCountOfProfileVertices ==> Visited(p)
  {
    var at := [0, 1, 12, 2, 11, 3, 10, 4, 9, 5, 8, 6, 7];
    forall p | 0 <= p < kCountOfProfileVertices
      ensures Visited(p)
    {
      assert EdgeWalk(at[p]) == p;
    }
  }
}
