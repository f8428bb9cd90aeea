/** Tree placement (hacks/glx/snowmen.c:1369-1421): twelve groups of one,
    two or three trees, each group led by a tree set back from a pond rim
    vertex towards the edge of the universe. */
module Trees {
  import opened Geometry

  import opened Pond

  import opened Splices

  /** TreeState_t. */
  datatype TreeState = TreeState(location: Vec3, height: real, bottomSkirtRadius: real, rotation: real)

  /** A slot of the zero-filled configuration that no call has written. */
  const kUnplantedTree: TreeState := TreeState(Origin, 0.0, 0.0, 0.0)

  const kCountOfTreeGroups: nat := 12

  /** kCountOfTrees as hacks/glx/snowmen.c:89 declares it. */
  const kCountOfTreesAsWritten: nat := 27

  /** The number of trees setupTrees writes; the tree array and the draw
      loop of this model use it in place of kCountOfTreesAsWritten. */
  const kCountOfTrees: nat := 24

  /** initTree: the rotation, a draw of random() scaled to degrees. */
  function InitTree(location: Vec3, height: real, bottomSkirtRadius: real, draw: int): (t: TreeState)
    requires IsDraw(draw)
    ensures t.location == location && t.height == height && t.bottomSkirtRadius == bottomSkirtRadius
    ensures 0.0 <= t.rotation <= 360.0
  {
    var q := (draw as real) / (kRandMax as real);
    QuotientInUnit(draw as real, kRandMax as real);
    assert (draw as real) * 360.0 / (kRandMax as real) == q * 360.0;
    TreeState(location, height, bottomSkirtRadius, (draw as real) * 360.0 / (kRandMax as real))
  }

  /** Group i holds its leader, a second tree when i is odd and a third
      when i % 4 > 1. */
  function TreesInGroup(i: nat): nat
  {
    1 + (if i % 2 == 1 then 1 else 0) + (if i % 4 > 1 then 1 else 0)
  }

  /** The number of trees the groups before group g hold. */
  function TreesBefore(g: nat): nat
  {
    if g == 0 then 0 else TreesBefore(g - 1) + TreesInGroup(g - 1)
  }

  /** The slot of the pond buffer group i reads: the centre is skipped,
      and n counts the rim vertices without their closing copy. */
  function PondIndex(i: nat, n: nat): nat
  {
    i * n / kCountOfTreeGroups + 1
  }

  ghost predicate DrawsReady(draws: seq<int>)
  {
    |draws| >= kCountOfTrees && forall k :: 0 <= k < |draws| ==> IsDraw(draws[k])
  }

  /** The leader's distance from the vertical axis: 85% of the way from
      the universe's edge to the rim vertex. */
  function TreeDistance(m: Libm, p: Vec3): real
  {
    Spread(m, p) * 0.85 + kUniverseEdgeRadius * 0.15
  }

  function LeaderLocation(m: Libm, p: Vec3): Vec3
    requires SqrtLaw(m) && RadialSq(p) > 0.0
  {
    PushedOut(m, p, TreeDistance(m, p), kShoreHeight)
  }

  function SecondLocation(l: Vec3): Vec3
  {
    Vec3(l.x + (0.5 * l.x + 0.2 * l.z), l.y, l.z + (0.5 * l.z - 0.1 * l.x))
  }

  function ThirdLocation(l: Vec3): Vec3
  {
    Vec3(l.x + (0.5 * l.x - 0.1 * l.z), l.y, l.z + (0.7 * l.z + 0.3 * l.x))
  }

  /** The leader of group i: set back from the pond slot the group reads. */
  function Leader(m: Libm, pond: seq<Vec3>, i: nat): Vec3
    requires RimReady(m, pond) && i < kCountOfTreeGroups
  {
    PondIndexInRange(i, |pond| - 2);
    LeaderLocation(m, pond[PondIndex(i, |pond| - 2)])
  }

  /** The trees of group i, led by a tree at l; the group's first draw
      is the one after the draws of the groups before it. */
  function Group(draws: seq<int>, i: nat, l: Vec3): (r: seq<TreeState>)
    requires DrawsReady(draws) && i < kCountOfTreeGroups
    ensures |r| == TreesInGroup(i)
  {
    TreesBeforeBound(i + 1);
    [InitTree(l, 8.0, 3.0, draws[TreesBefore(i)])] + SecondTree(draws, i, l) + ThirdTree(draws, i, l)
  }

  /** The tree an odd group adds, drawn after the leader. */
  function SecondTree(draws: seq<int>, i: nat, l: Vec3): (r: seq<TreeState>)
    requires DrawsReady(draws) && i < kCountOfTreeGroups && TreesBefore(i + 1) <= kCountOfTrees
    ensures |r| == if i % 2 == 1 then 1 else 0
  {
    if i % 2 == 1 then [InitTree(SecondLocation(l), 12.0, 5.0, draws[TreesBefore(i) + 1])] else []
  }

  /** The tree a group with i % 4 > 1 adds, drawn last in its group. */
  function ThirdTree(draws: seq<int>, i: nat, l: Vec3): (r: seq<TreeState>)
    requires DrawsReady(draws) && i < kCountOfTreeGroups && TreesBefore(i + 1) <= kCountOfTrees
    ensures |r| == if i % 4 > 1 then 1 else 0
  {
    var at := TreesBefore(i) + 1 + if i % 2 == 1 then 1 else 0;
    if i % 4 > 1 then [InitTree(ThirdLocation(l), 14.0, 5.0, draws[at])] else []
  }

  /** The trees groups 0 .. g - 1 write, in the order they write them. */
  function PlantedUpTo(m: Libm, pond: seq<Vec3>, draws: seq<int>, g: nat): (r: seq<TreeState>)
    requires RimReady(m, pond) && DrawsReady(draws) && g <= kCountOfTreeGroups
    ensures |r| == TreesBefore(g)
  {
    if g == 0 then [] else PlantedUpTo(m, pond, draws, g - 1) + Group(draws, g - 1, Leader(m, pond, g - 1))
  }

  function PlantedTrees(m: Libm, pond: seq<Vec3>, draws: seq<int>): seq<TreeState>
    requires RimReady(m, pond) && DrawsReady(draws)
  {
    PlantedUpTo(m, pond, draws, kCountOfTreeGroups)
  }

  /** No group runs past the 24 slots. */
  lemma TreesBeforeBound(g: nat)
    requires g <= kCountOfTreeGroups
    ensures TreesBefore(g) <= kCountOfTrees
  {
    if g < kCountOfTreeGroups {
      TreesBeforeGrows(g, kCountOfTreeGroups);
    }
    TreeTotal();
  }

  /** The groups before group g hold no more slots than those before h. */
  lemma {:induction false} TreesBeforeGrows(i: nat, g: nat)
    requires i < g
    ensures TreesBefore(i) + TreesInGroup(i) <= TreesBefore(g)
  {
    if i < g - 1 {
      TreesBeforeGrows(i, g - 1);
    }
  }

  /** The twelve groups hold 1, 2, 2, 3 trees in turn, 24 in all. */
  lemma TreeTotal()
    ensures TreesBefore(kCountOfTreeGroups) == kCountOfTrees
  {
  }

  lemma GroupPattern(i: nat)
    ensures TreesInGroup(i) == [1, 2, 2, 3][i % 4]
  {
  }

  /** Every pond slot setupTrees reads is a rim vertex: neither the centre
      nor past the closing copy; for the 160 rim vertices of the pond it
      is at most 147. */
  lemma PondIndexInRange(i: nat, n: nat)
    requires i < kCountOfTreeGroups && n >= 1
    ensures 1 <= PondIndex(i, n) <= n
    ensures n == kCountOfPondExteriorVertices ==> PondIndex(i, n) <= 147
  {
    assert i * n <= 11 * n;
  }

  /** As written, drawTrees walks 27 slots although the groups fill only
      24, so three slots the draw loop reads keep the zero-filled state. */
  lemma TreeCountAsWritten()
    ensures TreesBefore(kCountOfTreeGroups) + 3 == kCountOfTreesAsWritten
    ensures TreesInGroup(1) == 2
  {
    TreeTotal();
  }

  /** The count this model uses is the number of trees setupTrees plants,
      three fewer than the count as written. */
  lemma TreeCountCorrected(m: Libm, pond: seq<Vec3>, draws: seq<int>)
    requires RimReady(m, pond) && DrawsReady(draws)
    ensures |PlantedTrees(m, pond, draws)| == kCountOfTrees == kCountOfTreesAsWritten - 3
  {
    TreeTotal();
  }

  /** The group leader stands on the shore, on the circle of the tree
      distance, between its rim vertex and the universe's edge. */
  lemma LeaderPlacement(m: Libm, p: Vec3)
    requires SqrtLaw(m) && 0.0 < RadialSq(p) < Sq(kUniverseEdgeRadius)
    ensures LeaderLocation(m, p).y == kShoreHeight
    ensures RadialSq(LeaderLocation(m, p)) == Sq(TreeDistance(m, p))
    ensures Spread(m, p) < TreeDistance(m, p) < kUniverseEdgeRadius
  {
    PushedOutOnCircle(m, p, TreeDistance(m, p), kShoreHeight);
    SqrtBelow(m, RadialSq(p), kUniverseEdgeRadius);
  }

  /** Every tree setupTrees writes stands at the shore height, with one of
      the three sizes and a rotation in degrees. */
  lemma {:induction false} PlantedShapes(m: Libm, pond: seq<Vec3>, draws: seq<int>, g: nat)
    requires RimReady(m, pond) && DrawsReady(draws) && g <= kCountOfTreeGroups
    ensures forall t <- PlantedUpTo(m, pond, draws, g) ::
              && t.location.y == kShoreHeight
              && (t.height, t.bottomSkirtRadius) in {(8.0, 3.0), (12.0, 5.0), (14.0, 5.0)}
              && 0.0 <= t.rotation <= 360.0
  {
    if g > 0 {
      PlantedShapes(m, pond, draws, g - 1);
      var l := LeaderLocation(m, pond[PondIndex(g - 1, |pond| - 2)]);
      assert l.y == kShoreHeight;
    }
  }

  /** The slot TreesBefore(i) holds the leader of group i. */
  lemma {:induction false} GroupLeader(m: Libm, pond: seq<Vec3>, draws: seq<int>, i: nat, g: nat)
    requires RimReady(m, pond) && DrawsReady(draws) && i < g <= kCountOfTreeGroups
    ensures PondIndex(i, |pond| - 2) < |pond| && TreesBefore(i) < TreesBefore(g)
    ensures PlantedUpTo(m, pond, draws, g)[TreesBefore(i)].location
            == LeaderLocation(m, pond[PondIndex(i, |pond| - 2)])
    ensures PlantedUpTo(m, pond, draws, g)[TreesBefore(i)].height == 8.0
  {
    PondIndexInRange(i, |pond| - 2);
    TreesBeforeGrows(i, g);
    if i < g - 1 {
      GroupLeader(m, pond, draws, i, g - 1);
    }
  }

  /** setupTrees: the cursor tree walks the array of trees while the
      groups are placed. */
  method SetupTrees(m: Libm, pondVerts: array<Vec3>, draws: seq<int>, trees: array<TreeState>)
    requires RimReady(m, pondVerts[..]) && DrawsReady(draws)
    requires trees.Length >= kCountOfTrees
    modifies trees
    ensures trees[..kCountOfTrees] == PlantedTrees(m, pondVerts[..], draws)
    ensures trees[kCountOfTrees..] == old(trees[kCountOfTrees..])
  {
    var tree: nat := 0;
    TreesBeforeBound(0);
    for i := 0 to kCountOfTreeGroups
      invariant tree == TreesBefore(i) <= kCountOfTrees
      invariant trees[..tree] == PlantedUpTo(m, pondVerts[..], draws, i)
      invariant trees[kCountOfTrees..] == old(trees[kCountOfTrees..])
    {
      tree := PlaceGroup(m, pondVerts, draws, trees, i, tree);
    }
    TreeTotal();
  }

  /** The tree array as hacks/glx/snowmen.c sizes it, zero-filled with 27
      slots, after setupTrees: the groups fill the first 24, and the last
      three slots, which drawTrees also draws, keep the zero tree of
      height 0. */
  method SetupTreesAsWritten(m: Libm, pondVerts: array<Vec3>, draws: seq<int>) returns (trees: array<TreeState>)
    requires RimReady(m, pondVerts[..]) && DrawsReady(draws)
    ensures trees.Length == kCountOfTreesAsWritten
    ensures trees[..kCountOfTrees] == PlantedTrees(m, pondVerts[..], draws)
    ensures forall k :: kCountOfTrees <= k < trees.Length ==> trees[k] == kUnplantedTree && trees[k].height == 0.0
  {
    trees := new TreeState[kCountOfTreesAsWritten](_ => kUnplantedTree);
    SetupTrees(m, pondVerts, draws, trees);
    assert forall k :: kCountOfTrees <= k < trees.Length ==> trees[k] == trees[kCountOfTrees..][k - kCountOfTrees];
  }

  /** One pass of the group loop: read the pond slot, place the leader,
      then plant the group at the cursor. */
  method PlaceGroup(m: Libm, pondVerts: array<Vec3>, draws: seq<int>, trees: array<TreeState>, i: nat, tree: nat)
    returns (next: nat)
    requires RimReady(m, pondVerts[..]) && DrawsReady(draws) && i < kCountOfTreeGroups
    requires trees.Length >= kCountOfTrees && tree == TreesBefore(i) <= kCountOfTrees
    requires trees[..tree] == PlantedUpTo(m, pondVerts[..], draws, i)
    modifies trees
    ensures next == TreesBefore(i + 1) <= kCountOfTrees
    ensures trees[..next] == PlantedUpTo(m, pondVerts[..], draws, i + 1)
    ensures trees[kCountOfTrees..] == old(trees[kCountOfTrees..])
  {
    var countOfPondVertices := pondVerts.Length - 2;
    PondIndexInRange(i, countOfPondVertices);
    var pondVertex := pondVerts[i * countOfPondVertices / kCountOfTreeGroups + 1];
    var location := LeaderAt(m, pondVertex);
    assert location == Leader(m, pondVerts[..], i);
    ghost var before := trees[..];
    next := PlantGroup(draws, trees, i, tree, location);
    SpliceExtends(before, trees[..], tree, next, Group(draws, i, location));
  }

  /** The leader's location: the rim vertex rescaled to the tree distance,
      on the shore. */
  method LeaderAt(m: Libm, pondVertex: Vec3) returns (location: Vec3)
    requires SqrtLaw(m) && RadialSq(pondVertex) > 0.0
    ensures location == LeaderLocation(m, pondVertex)
  {
    var d := m.sqrt(pondVertex.x * pondVertex.x + pondVertex.z * pondVertex.z);
    assert d == Spread(m, pondVertex);
    var treeDistance := d * 0.85 + kUniverseEdgeRadius * 0.15;
    location := Vec3(pondVertex.x / d * treeDistance, kShoreHeight, pondVertex.z / d * treeDistance);
  }

  /** The rest of one pass of the group loop: the leader, then the trees
      the two tests of i add, each written at the cursor. */
  method PlantGroup(draws: seq<int>, trees: array<TreeState>, i: nat, tree: nat, location: Vec3)
    returns (next: nat)
    requires DrawsReady(draws)
    requires trees.Length >= kCountOfTrees && i < kCountOfTreeGroups && tree == TreesBefore(i)
    modifies trees
    ensures next == TreesBefore(i + 1) <= kCountOfTrees
    ensures Spliced(old(trees[..]), trees[..], tree, next, Group(draws, i, location))
  {
    TreesBeforeBound(i + 1);
    ghost var group := Group(draws, i, location);
    next := tree;
    trees[next] := InitTree(location, 8.0, 3.0, draws[next]);
    next := next + 1;
    if i % 2 == 1 {
      var tempLocation := Vec3(location.x + (0.5 * location.x + 0.2 * location.z), location.y,
                               location.z + (0.5 * location.z - 0.1 * location.x));
      trees[next] := InitTree(tempLocation, 12.0, 5.0, draws[next]);
      next := next + 1;
    }
    assert forall k :: tree <= k < next ==> trees[k] == group[k - tree];
    if i % 4 > 1 {
      var tempLocation := Vec3(location.x + (0.5 * location.x - 0.1 * location.z), location.y,
                               location.z + (0.7 * location.z + 0.3 * location.x));
      trees[next] := InitTree(tempLocation, 14.0, 5.0, draws[next]);
      next := next + 1;
    }
    SplicedBySlots(old(trees[..]), trees[..], tree, next, group);
  }
}
