/** The offset and count arguments of the draw calls (hacks/glx/snowmen.c,
    drawSkate to drawTree), checked against the buffers the create
    functions fill. An array draw reads the vertices [offset, offset +
    count); an indexed draw reads those indices and then the vertices they
    name. */
module DrawRanges {
  import opened Splices

  import TreeMesh

  import Hat

  import Arm

  import Skate

  import Carrot

  /** An indexed draw of r over the index buffer indices reads only
      vertices below vertexCount. */
  predicate IndexedDrawFits(indices: seq<int>, r: Range, vertexCount: nat)
  {
    Within(r, |indices|) && IndicesBelow(indices[r.offset..r.offset + r.count], vertexCount)
  }

  lemma SliceBelow(indices: seq<int>, r: Range, n: nat)
    requires IndicesBelow(indices, n) && Within(r, |indices|)
    ensures IndexedDrawFits(indices, r, n)
  {
    var s := indices[r.offset..r.offset + r.count];
    assert forall k :: 0 <= k < |s| ==> s[k] == indices[r.offset + k];
  }

  // ---- Skate (drawSkate) ----

  const kSkateDraws: seq<Range> := [Range(0, 13), Range(13, 13), Range(26, 28)]

  /** The two side strips and the edge strip read indices inside the 54
      and vertices inside the 26, and between them read every index. */
  lemma SkateDrawsFit()
    ensures forall r <- kSkateDraws :: IndexedDrawFits(Skate.kSkateIndices, r, Skate.kCountOfSkateVertices)
    ensures kSkateDraws[2].offset + kSkateDraws[2].count == |Skate.kSkateIndices|
  {
    Skate.SkateIndicesValid();
    forall r <- kSkateDraws
      ensures IndexedDrawFits(Skate.kSkateIndices, r, Skate.kCountOfSkateVertices)
    {
      SliceBelow(Skate.kSkateIndices, r, Skate.kCountOfSkateVertices);
    }
  }

  // ---- Carrot (drawCarrot) ----

  const kCarrotDraws: seq<Range> := [Range(0, 18), Range(18, 10), Range(28, 8)]

  /** The side strip, the tip fan and the base fan (the outline pass draws
      the first two again) fit the 36 indices and the 17 vertices. */
  lemma CarrotDrawsFit()
    ensures forall r <- kCarrotDraws :: IndexedDrawFits(Carrot.kCarrotIndices, r, Carrot.kCountOfCarrotVertices)
    ensures kCarrotDraws[2].offset + kCarrotDraws[2].count == |Carrot.kCarrotIndices|
  {
    Carrot.CarrotIndicesValid();
    forall r <- kCarrotDraws
      ensures IndexedDrawFits(Carrot.kCarrotIndices, r, Carrot.kCountOfCarrotVertices)
    {
      SliceBelow(Carrot.kCarrotIndices, r, Carrot.kCountOfCarrotVertices);
    }
  }

  // ---- Hat (drawHat) ----

  function HatDraws(layout: Hat.HatLayout): seq<Range>
  {
    [layout.brimBottomFan, layout.brimTopFan, layout.brimStrip, layout.stemTopFan, layout.stemStrip]
  }

  /** The five ranges createHatBufferObjects records fit its 116 indices
      and its 64 vertices (for the hat and for its outline alike). */
  lemma HatDrawsFit(layout: Hat.HatLayout)
    requires layout == Hat.HatLayout(Range(0, 16), Range(16, 16), Range(32, 34), Range(66, 16), Range(82, 34))
    ensures |Hat.HatIndices()| == Hat.kCountOfHatIndices
    ensures forall r <- HatDraws(layout) :: IndexedDrawFits(Hat.HatIndices(), r, Hat.kCountOfHatVertices)
  {
    Hat.HatIndicesValid();
    Hat.HatLayoutSelects(layout);
    forall r <- HatDraws(layout)
      ensures IndexedDrawFits(Hat.HatIndices(), r, Hat.kCountOfHatVertices)
    {
      SliceBelow(Hat.HatIndices(), r, Hat.kCountOfHatVertices);
    }
  }

  // ---- Arms (drawArms) ----

  const kArmStripDraw: Range := Range(0, 18 * 5 + 4)
  const kArmOutlineFanDraw: Range := Range(18 * 5 + 4, 8)

  /** drawArms, for both arms: the strip, then the three fans drawn
      straight from the vertex buffer; the outline pass adds the fan over
      the proximal ring's reversed indices. */
  method DrawArms(isDrawingShadows: bool) returns (indexed: seq<Range>, arrays: seq<Range>)
    ensures forall r <- indexed :: IndexedDrawFits(Arm.kArmIndices, r, Arm.kCountOfArmVertices)
    ensures forall r <- arrays :: Within(r, Arm.kCountOfArmVertices)
    ensures |indexed| == if isDrawingShadows then 2 else 6
    ensures |arrays| == if isDrawingShadows then 6 else 12
  {
    Arm.ArmIndicesValid();
    SliceBelow(Arm.kArmIndices, kArmStripDraw, Arm.kCountOfArmVertices);
    SliceBelow(Arm.kArmIndices, kArmOutlineFanDraw, Arm.kCountOfArmVertices);
    indexed, arrays := [], [];
    for i := 0 to 2
      invariant forall r <- indexed :: IndexedDrawFits(Arm.kArmIndices, r, Arm.kCountOfArmVertices)
      invariant forall r <- arrays :: Within(r, Arm.kCountOfArmVertices)
      invariant |indexed| == i && |arrays| == 3 * i
    {
      indexed := indexed + [kArmStripDraw];
      arrays := arrays + [Range(24, 8), Range(32, 8), Range(40, 8)];
    }
    if !isDrawingShadows {
      for i := 0 to 2
        invariant forall r <- indexed :: IndexedDrawFits(Arm.kArmIndices, r, Arm.kCountOfArmVertices)
        invariant forall r <- arrays :: Within(r, Arm.kCountOfArmVertices)
        invariant |indexed| == 2 + 2 * i && |arrays| == 6 + 3 * i
      {
        indexed := indexed + [kArmStripDraw, kArmOutlineFanDraw];
        arrays := arrays + [Range(24, 8), Range(32, 8), Range(40, 8)];
      }
    }
  }

  // ---- Trees (drawTree) ----

  /** The fan of skirt i. */
  function SkirtDraw(i: nat): Range
  {
    Range(i * (TreeMesh.kCountOfTreeSkirtVertices + 2), TreeMesh.kCountOfTreeSkirtVertices + 2)
  }

  const kTrunkDraw: Range :=
    Range(TreeMesh.kCountOfTreeSkirts * (TreeMesh.kCountOfTreeSkirtVertices + 2), (TreeMesh.kCountOfTreeTrunkSlices + 1) * 2)

  /** The skirt fans are the five fans createTreeBufferObjects lays out,
      and the trunk strip is the rest of the vertex buffer. */
  lemma TreeDrawsAreTheLayout(i: nat)
    requires i < TreeMesh.kCountOfTreeSkirts
    ensures SkirtDraw(i) == Range(TreeMesh.kFanLength * i, TreeMesh.kFanLength)
    ensures Within(SkirtDraw(i), TreeMesh.kCountOfTreeFanVertices)
    ensures kTrunkDraw == Range(TreeMesh.kCountOfTreeFanVertices, TreeMesh.kCountOfTrunkVertices)
  {
  }

  /** drawTree: the skirt fans from the vertex buffer (textured unless
      drawing shadows); when not drawing shadows, the trunk strip, the
      skirt outlines from the outline buffer, and the trunk again for its
      outline. */
  method DrawTree(isDrawingShadows: bool) returns (coordDraws: seq<Range>, outlineDraws: seq<Range>)
    ensures forall r <- coordDraws :: Within(r, TreeMesh.kCountOfTreeFanVertices + TreeMesh.kCountOfTrunkVertices)
    ensures forall r <- outlineDraws :: Within(r, TreeMesh.kCountOfTreeFanVertices)
    ensures |coordDraws| == if isDrawingShadows then 5 else 7
    ensures |outlineDraws| == if isDrawingShadows then 0 else 5
    ensures forall k :: 0 <= k < 5 ==> coordDraws[k] == SkirtDraw(k) && Within(coordDraws[k], TreeMesh.kCountOfTreeFanVertices)
  {
    coordDraws, outlineDraws := [], [];
    for i := 0 to TreeMesh.kCountOfTreeSkirts
      invariant |coordDraws| == i
      invariant forall k :: 0 <= k < i ==> coordDraws[k] == SkirtDraw(k)
    {
      coordDraws := coordDraws + [SkirtDraw(i)];
    }
    if !isDrawingShadows {
      coordDraws := coordDraws + [kTrunkDraw];
      for i := 0 to TreeMesh.kCountOfTreeSkirts
        invariant |outlineDraws| == i
        invariant forall k :: 0 <= k < i ==> outlineDraws[k] == SkirtDraw(k)
      {
        outlineDraws := outlineDraws + [SkirtDraw(i)];
      }
      coordDraws := coordDraws + [kTrunkDraw];
    }
  }
}
