# Snowmen: verified model of the mesh buffers and actors

`hacks/glx/snowmen.c` is an xscreensaver hack. It draws snowmen skating round
a frozen pond, with trees on the shore and hills on the horizon. At start-up
it builds one vertex buffer per kind of object. For the pond, shore, hills,
snowball, tree, hat and arms, it fills malloc'd arrays through advancing
cursors (`createArmJoint` computes the arm vertices joint by joint). The
skate and carrot use fixed vertex tables. The arms, hat, skate and carrot
also have index buffers; those of the arms, skate and carrot are fixed
tables. It then sets up the nine snowmen and the
trees. Every frame it advances two phases, recomputes each snowman's
position, and draws sub-ranges of the buffers, once flattened through a
planar shadow matrix and once lit.

This project models that core in Dafny:

- **Generators.** Each generator is a method that fills `array`s with an
  explicit cursor, as the C does. Its `ensures` ties the arrays to a
  specification function of the whole buffer (`PondVerts`, `ShoreVerts`,
  `Subdivide`, `TreeVerts`, `HatIndices`...).
- **Properties.** Lemmas about those functions prove what the buffers
  promise:
  - sizes equal the allocations;
  - fans and strips close on the right earlier vertex;
  - every index is below the vertex count;
  - texture coordinates stay in range;
  - vertices lie on the intended sphere, circle or height.
- **Library.** `sinf`, `cosf`, `sqrtf` and `powf` are the fields of a `Libm`
  value (module `Geometry`). The proofs use only the laws `TrigLaw`,
  `SqrtLaw` and `PowLaw` (bounds of sine and cosine, sin² + cos² = 1, the
  square root of a positive number, powers of numbers in [0, 1]).
- **Randomness.** Each value of `random()` is an arbitrary input draw in
  [0, RAND_MAX].
- **Actors.** Module `Trees` covers `setupTrees` and `initTree`. Modules
  `Snowmen` and `Scene` cover `initSnowman`, `setupSnowmen`,
  `snowmanUpdateState`, `init_snow`'s actor set-up and the phase update of
  `draw_snow`. `Scene.SnowConfiguration` is a class whose methods update its
  fields in place.
- **Shadow.** Module `Shadow` gives the matrix `setShadowMatrix` builds.
- **Draws.** Module `DrawRanges` gives the offset and count of every draw
  call, as range obligations.
- **Full-buffer draws.** `drawSnowball`, `drawIce`, `drawShore` and
  `drawHills` each draw `[0, countOfVertices)`. Every create method's
  `ensures` makes `countOfVertices` the length of the arrays, so those four
  draws fit by construction.

Three behaviours of the code that the model keeps as they are:

- The bottom row of the hills takes its height from the pond rim vertex it
  is built from (`hacks/glx/snowmen.c:718` and `725-727`), so it sits at
  the pond's height, 0, not at the shore's.
- The pond's texture box folds its minima and maxima from 0
  (`hacks/glx/snowmen.c:517-520`, compared at `543-546`), so the box always
  holds the origin.
- `snowmanUpdateState` sets `currentRho` to 0 (`hacks/glx/snowmen.c:1452`),
  not to the phase it is given.

## Model

| member | source | states |
|---|---|---|
| Geometry.NormalizeVertex | hacks/glx/snowmen.c:330-336 | each coordinate divided by the vector's length; its properties are the two lemmas below |
| Geometry.NormalizeOnSphere | hacks/glx/snowmen.c:330-336 | normalizing a vector of non-zero length puts it on the unit sphere |
| Geometry.NormalizeKeepsSide | hacks/glx/snowmen.c:330-336 | a vector in front of a plane through the origin stays in front of it after normalizing, and lands on the unit sphere |
| Geometry.NormalizeOnRange | hacks/glx/snowmen.c:489-492 | the position of a value within [min, max] as a fraction of the range; its properties are the two lemmas below |
| Geometry.NormalizeOnRangeInverse | hacks/glx/snowmen.c:489-492 | normalizing is undone by scaling back onto the range; min maps to 0 and max to 1 |
| Geometry.NormalizeOnRangeInUnit | hacks/glx/snowmen.c:489-492 | a value inside a non-empty range normalizes into [0, 1] |
| Geometry.PushedOutOnCircle | hacks/glx/snowmen.c:721-723 | rescaling a point off the vertical axis along its horizontal direction puts it on the circle of the given radius, at the chosen height |
| Splices.FanSlots | hacks/glx/snowmen.c:612-650 | a fan is its centre, then the n edge slots in order, then edge slot 0 again |
| Snowball.Subdivide | hacks/glx/snowmen.c:341-388 | subdividing a triangle to iteration n emits exactly 3·4^n corners |
| Snowball.SubdivideClosed | hacks/glx/snowmen.c:341-388 | a property the edge rule preserves, and that the three corners have, holds of every emitted corner |
| Snowball.SubdivideStart | hacks/glx/snowmen.c:341-388 | the first corner emitted for a triangle is its own first corner |
| Snowball.MidpointOnSide | hacks/glx/snowmen.c:349-370 | the normalized sum of two points in front of a plane through the origin is in front of it too, and on the unit sphere |
| Snowball.DivideTriangle | hacks/glx/snowmen.c:341-388 | the shared cursor advances by exactly 3·4^iteration; only slots [index, next) of both arrays change, and they receive the subdivided corners |
| Snowball.SnowballSlots | hacks/glx/snowmen.c:393-400 | each root triangle fills 192 slots, and powf(4, 4)·3 = 768 is the allocation |
| Snowball.SnowballVerts | hacks/glx/snowmen.c:396-400 | the four subdivided root triangles fill exactly the 768 allocated slots |
| Snowball.FourStarts | hacks/glx/snowmen.c:444-465 | the four root calls start at slots 0, 192, 384 and 576, each with its own first corner |
| Snowball.FillFour | hacks/glx/snowmen.c:444-465 | four divideTriangle calls sharing one cursor from slot 0 fill both arrays with the four subdivisions, one after another |
| Snowball.FillSnowball | hacks/glx/snowmen.c:444-465 | the face, bottom, left and right calls fill the 768 slots with the snowball |
| Snowball.CreateSnowballBufferObjects | hacks/glx/snowmen.c:390-465 | fresh arrays of countOfVertices = 768 slots holding the snowball's vertices and texels |
| Snowball.RootFronted | hacks/glx/snowmen.c:409-463 | each root triangle lies in front of the plane its corner sum defines |
| Snowball.RootCorners | hacks/glx/snowmen.c:409-463 | the root corners are seed vertices, and their texture corners lie in the unit square |
| Snowball.SphereMidPlaced | hacks/glx/snowmen.c:349-370 | the vertex rule keeps a point in front of the root's plane and on the unit sphere (or a seed) |
| Snowball.TexMidpointInSquare | hacks/glx/snowmen.c:353-368 | the average of two texels in the unit square is in the unit square |
| Snowball.TriangleOnSphere | hacks/glx/snowmen.c:341-388 | every vertex a fronted seed triangle subdivides to is a seed or on the unit sphere, and every texel stays in the unit square |
| Snowball.RootOnSphere | hacks/glx/snowmen.c:444-463 | the same for each of the four root calls at depth 3 |
| Snowball.FourOnSphere | hacks/glx/snowmen.c:444-465 | the property carries over to the four subdivisions laid end to end |
| Snowball.SnowballOnSphere | hacks/glx/snowmen.c:390-465 | every snowball vertex is a seed or on the unit sphere; every texel lies in the unit square |
| Snowball.SeedNearUnit | hacks/glx/snowmen.c:409-419 | each seed, given to six decimals, is within 1e-5 of the unit sphere |
| Snowball.SnowballNearUnit | hacks/glx/snowmen.c:390-465 | every snowball vertex is within 1e-5 of the unit sphere |
| Pond.PondVerts | hacks/glx/snowmen.c:510-512 | the buffer has kCountOfPondExteriorVertices + 2 = 162 slots, the allocation |
| Pond.PondFan | hacks/glx/snowmen.c:524-550 | slot 0 is the origin, the last slot repeats slot 1 to close the fan, and every vertex lies at height 0 |
| Pond.FoldBounds | hacks/glx/snowmen.c:517-546 | the min and max folds started at 0 bound 0 and every rim coordinate |
| Pond.WeightSumBounds | hacks/glx/snowmen.c:531-535 | the first j terms of the radius sum lie between the sum of the first j weights and three times it |
| Pond.RadiusBounds | hacks/glx/snowmen.c:499-535 | every polar radius lies in [26, 78], because the weights sum to 26 and 2 + sin lies in [1, 3] |
| Pond.ExteriorOnCircle | hacks/glx/snowmen.c:536-540 | rim vertex i lies on the circle of radius 0.7·r(i) about the vertical axis, off the axis |
| Pond.PondOffAxis | hacks/glx/snowmen.c:531-550 | every rim slot of the buffer, 1 to 161, is off the vertical axis |
| Pond.PondRimOffAxis | hacks/glx/snowmen.c:494-550 | the buffer is a centre, an off-axis rim and a closing slot: what the shore, hills and trees read |
| Pond.BoxWide | hacks/glx/snowmen.c:517-547 | min < max for both x and z, so normalizeOnRange never divides by zero |
| Pond.InBox | hacks/glx/snowmen.c:517-559 | every vertex of the buffer, the origin included, lies in the box |
| Pond.PondTexInUnit | hacks/glx/snowmen.c:552-559 | every pond texture coordinate lies in [0, 1] × [0, 1] |
| Pond.RimRadius | hacks/glx/snowmen.c:532-535 | the inner loop computes the weighted sum of sines for rim sample i |
| Pond.RimVertex | hacks/glx/snowmen.c:532-540 | the rim loop body yields rim vertex i |
| Pond.Widen | hacks/glx/snowmen.c:543-546 | the four comparisons extend the min and max folds by one element |
| Pond.FillRim | hacks/glx/snowmen.c:524-547 | the centre in slot 0 is kept and slots 1 to 160 receive the rim; the returned bounds are the folds of the rim coordinates |
| Pond.FillPondTex | hacks/glx/snowmen.c:552-559 | every texel is its vertex's x and z normalized on the box |
| Pond.CreatePondBufferObjects | hacks/glx/snowmen.c:494-559 | fresh arrays of countOfVertices = 162 slots holding the pond's vertices and texture |
| Shore.CircleVerts | hacks/glx/snowmen.c:805-851 | circle 0 and the last circle emit 3 vertices, the others 2 |
| Shore.CircleTex | hacks/glx/snowmen.c:805-851 | the texels come in the same 3, 2, ..., 2, 3 pattern |
| Shore.CirclesCount | hacks/glx/snowmen.c:779-805 | the seven circles of one spoke emit 16 = 2·(7 + 1) vertices |
| Shore.SpokeVerts | hacks/glx/snowmen.c:798-853 | each spoke emits exactly 16 vertices |
| Shore.ShoreVerts | hacks/glx/snowmen.c:778-779 | the spokes fill exactly 16·(countOfVertices of the pond − 2) slots, the allocation |
| Shore.ShoreTex | hacks/glx/snowmen.c:778-779 | the texture buffer has the same length |
| Shore.ShoreSlot | hacks/glx/snowmen.c:798-853 | slot j of spoke s of the shore is slot j of that spoke |
| Shore.ShoreSlotOf | hacks/glx/snowmen.c:798-853 | every shore slot comes from a circle of spoke s, built from pond slots s + 1 and s + 2, which are at most |pond| − 1 |
| Shore.InnerCircleOnPond | hacks/glx/snowmen.c:826-828 | the innermost sloped circle lies on the pond's edge at height 0 |
| Shore.SlopedBeyondRim | hacks/glx/snowmen.c:826-845 | sloped circle c lies c·2/7 beyond the rim vertex, at or above the ground |
| Shore.CircleHeights | hacks/glx/snowmen.c:805-851 | every shore vertex is at or above the ground; the flat circle lies at shore height on the universe edge |
| Shore.CircleTexRows | hacks/glx/snowmen.c:812-849 | the sloped circles use V in [0.75, 1], the flat circle V = 0.01; U is the spoke's left or right edge |
| Shore.TexEdgeRange | hacks/glx/snowmen.c:803-804 | the spoke edges' U runs from 0 at spoke 0 to 6 at the last edge |
| Shore.ShoreBounds | hacks/glx/snowmen.c:798-853 | every vertex is at or above the ground, every V is in the sloped band or 0.01, and every U is in [0, 6] |
| Shore.ShoreMeetsPond | hacks/glx/snowmen.c:826-846 | each spoke begins with its two rim vertices flattened to height 0, the first one twice |
| Shore.ShoreReachesHorizon | hacks/glx/snowmen.c:806-824 | each spoke's last three vertices lie at shore height on the universe edge |
| Shore.EmitCircle | hacks/glx/snowmen.c:805-851 | one circle pass writes its vertices and texels at the cursor and advances it by their count |
| Shore.EmitSpoke | hacks/glx/snowmen.c:799-852 | one spoke pass writes its seven circles at the cursor and advances it by 16 |
| Shore.CreateShoreBufferObjects | hacks/glx/snowmen.c:769-853 | fresh arrays of countOfVertices slots holding the shore's vertices and texels |
| Hills.HillsVerts | hacks/glx/snowmen.c:697-705 | two vertices per pond slot after the centre: 2·(countOfVertices of the pond − 1), the allocation |
| Hills.HillsTex | hacks/glx/snowmen.c:697-705 | the texture buffer has the same length |
| Hills.HillsOnHorizon | hacks/glx/snowmen.c:716-734 | every hills vertex lies on the circle of radius 150 about the vertical axis |
| Hills.HillsHeights | hacks/glx/snowmen.c:716-734 | the bottom vertex keeps its pond vertex's height, the top one has the hills' height, and both share x and z |
| Hills.HillsSeam | hacks/glx/snowmen.c:713-734 | when the pond's closing slot repeats its first rim slot, the last column repeats the first, closing the ring |
| Hills.HillsTexRange | hacks/glx/snowmen.c:737-748 | U never decreases, from 0 at the first column to 6 at the last; V is 0.002 on the bottom row and 0.998 on the top |
| Hills.EdgePoint | hacks/glx/snowmen.c:717-723 | one column's x and z are the rim vertex pushed out to the universe edge |
| Hills.CreateHillsBufferObjects | hacks/glx/snowmen.c:695-748 | fresh arrays of countOfVertices slots holding the hills' vertices and texels |
| TreeMesh.TreeVerts | hacks/glx/snowmen.c:593-595 | five fans of 18 and an 18-slot trunk fill exactly the 108 allocated slots |
| TreeMesh.TreeOutline | hacks/glx/snowmen.c:593-596 | the outline fills exactly its 90 slots |
| TreeMesh.TreeTex | hacks/glx/snowmen.c:593-597 | the texture fills exactly its 90 slots |
| TreeMesh.TreeRingsClosed | hacks/glx/snowmen.c:644-667 | each fan's last slot repeats its first edge slot in all three buffers, and the trunk's last two slots repeat its first two |
| TreeMesh.SkirtRing | hacks/glx/snowmen.c:629-637 | each skirt's edge lies on the circle of its edge radius, and the outline on a wider circle |
| TreeMesh.SkirtPeak | hacks/glx/snowmen.c:613-633 | each skirt's centre rises above every vertex of its edge |
| TreeMesh.SkirtsTaper | hacks/glx/snowmen.c:609-629 | higher skirts are narrower and sit higher |
| TreeMesh.TrunkShape | hacks/glx/snowmen.c:654-663 | trunk slots alternate between radius 0.15 on the ground and radius 0.11 at height 0.3 |
| TreeMesh.TreeTexInUnit | hacks/glx/snowmen.c:621-650 | every tree texel lies in the unit square |
| TreeMesh.EmitRing | hacks/glx/snowmen.c:630-642 | the ring loop writes the 16 edge slots of all three buffers and nothing else |
| TreeMesh.EmitSkirt | hacks/glx/snowmen.c:612-650 | one skirt pass writes a closed fan of 18 at the cursor in each buffer |
| TreeMesh.EmitSkirtOf | hacks/glx/snowmen.c:608-651 | after the pass for skirt j, each buffer begins with the first j + 1 fans |
| TreeMesh.EmitSkirts | hacks/glx/snowmen.c:608-651 | the skirt loop fills the first 90 slots of each buffer with the five fans |
| TreeMesh.EmitTrunk | hacks/glx/snowmen.c:653-667 | the trunk loop fills slots 90 to 107 with the trunk and leaves the fans alone |
| TreeMesh.CreateTreeBufferObjects | hacks/glx/snowmen.c:580-667 | fresh arrays holding the tree's vertices, outline and texels |
| Hat.HatVerts | hacks/glx/snowmen.c:896-900 | four rings of 16 fill exactly the 64 allocated vertices |
| Hat.HatIndices | hacks/glx/snowmen.c:897-901 | the index buffer has 16·7 + 4 = 116 entries, the allocation |
| Hat.HatIndicesValid | hacks/glx/snowmen.c:908-1002 | every index names one of the 64 vertices |
| Hat.HatLayoutSelects | hacks/glx/snowmen.c:909-991 | the five recorded ranges are consecutive, fill the 116 indices exactly, and select the two brim fans, the brim strip, the stem fan and the stem strip |
| Hat.HatStripsJoinRings | hacks/glx/snowmen.c:944-1002 | the brim strip pairs top slot i with bottom slot 15 − i, the stem strip pairs slot i with slot i, and both close on their first pair |
| Hat.HatRingGeometry | hacks/glx/snowmen.c:908-987 | every vertex lies on its ring's circle at its ring's height, and the outline ring is wider |
| Hat.HatSlot | hacks/glx/snowmen.c:908-987 | slot i of each ring, in both vertex buffers |
| Hat.BrimMirrored | hacks/glx/snowmen.c:912-933 | the brim bottom ring is the brim top ring mirrored in x |
| Hat.EmitRing | hacks/glx/snowmen.c:908-987 | one ring loop writes 16 vertices in both buffers, and also the fan's 16 indices when the ring has a fan |
| Hat.EmitStrip | hacks/glx/snowmen.c:944-1002 | one strip loop and its closing pair write 34 indices at the cursor |
| Hat.CreateHatBufferObjects | hacks/glx/snowmen.c:874-1002 | fresh buffers holding the hat's vertices, outline and indices, with the ranges at 0/16/32/66/82 |
| Arm.JointVerts | hacks/glx/snowmen.c:1034-1094 | createArmJoint writes exactly eight vertices |
| Arm.JointAntipodal | hacks/glx/snowmen.c:1045-1091 | slots k and k + 4 of a joint are mirrored through its centre |
| Arm.JointOnCircle | hacks/glx/snowmen.c:1038-1091 | a joint whose range has no x part and equal y and z parts puts all eight vertices on a circle round its centre |
| Arm.ArmIndicesValid | hacks/glx/snowmen.c:1166-1175 | 102 indices, each below 48; the last 8 run 7 down to 0 |
| Arm.ArmStripSegments | hacks/glx/snowmen.c:1168-1173 | the strip is five segments joining the right joints slot by slot, bridged by degenerate repeats |
| Arm.CreateArmJoint | hacks/glx/snowmen.c:1034-1094 | writes a joint's eight vertices at the cursor and returns the cursor advanced by 8 |
| Arm.CreateArmJoints | hacks/glx/snowmen.c:1104-1164 | six joints written one after another fill the buffer |
| Arm.CreateArmBufferObjects | hacks/glx/snowmen.c:1096-1175 | the arm and outline buffers hold the six joints each, with the fixed index table |
| Skate.SkateMirrored | hacks/glx/snowmen.c:1204-1258 | the two sides of the skate mirror each other through x = 0 |
| Skate.SkateIndicesValid | hacks/glx/snowmen.c:1259-1266 | 54 indices, each below 26, laid out as the two side strips and the edge strip |
| Skate.MinusSideFacts | hacks/glx/snowmen.c:1262 | the first side strip runs over slots 25 down to 13 |
| Skate.PlusSideFacts | hacks/glx/snowmen.c:1263 | the second side strip runs over slots 0 up to 12 |
| Skate.EdgeMirrored | hacks/glx/snowmen.c:1264 | each pair of the edge strip joins a profile vertex to its mirror, and the strip closes on its first pair |
| Skate.EdgeVisitsAll | hacks/glx/snowmen.c:1264 | the edge strip visits every profile vertex |
| Carrot.CarrotRings | hacks/glx/snowmen.c:1296-1339 | each ring lies in its own plane, its slots k and k + 4 are opposite, and the tip lies beyond both |
| Carrot.CarrotIndicesValid | hacks/glx/snowmen.c:1340-1348 | 36 indices, each below 17, laid out as the side strip, the tip fan and the base fan |
| Carrot.SideStripFacts | hacks/glx/snowmen.c:1343 | the side strip pairs medial slot i with dorsal slot i and closes on its first pair |
| Carrot.TipFanFacts | hacks/glx/snowmen.c:1344 | the tip fan starts at the tip, runs round the medial ring and closes on its first edge slot |
| Carrot.BaseFanFacts | hacks/glx/snowmen.c:1345 | the base fan runs round the dorsal ring backwards |
| DrawRanges.SkateDrawsFit | hacks/glx/snowmen.c:1666-1668 | the three strips fit the 54 indices and read only vertices below 26 |
| DrawRanges.CarrotDrawsFit | hacks/glx/snowmen.c:1743-1753 | the strip and both fans fit the 36 indices and read only vertices below 17 |
| DrawRanges.HatDrawsFit | hacks/glx/snowmen.c:1820-1866 | the five recorded ranges fit the 116 indices and read only vertices below 64 |
| DrawRanges.DrawArms | hacks/glx/snowmen.c:1691-1713 | every indexed draw of both passes fits the 102 indices below 48 vertices, and every array fan fits the 48 vertices |
| DrawRanges.TreeDrawsAreTheLayout | hacks/glx/snowmen.c:1954-1994 | fan i of a draw is the fan at 18·i that the generator writes, and the trunk draw is the trunk's 18 slots at 90 |
| DrawRanges.DrawTree | hacks/glx/snowmen.c:1954-1994 | every skirt and trunk draw fits the 108-vertex buffer, and every outline draw fits the 90-vertex outline |
| Trees.InitTree | hacks/glx/snowmen.c:1369-1378 | keeps location, height and skirt radius, and turns the tree by an angle in [0, 360] |
| Trees.Group | hacks/glx/snowmen.c:1398-1418 | group i plants its leader, a second tree when i is odd, and a third when i % 4 > 1 |
| Trees.TreesInGroup | hacks/glx/snowmen.c:1401-1418 | a group holds its leader, a second tree when its index is odd, a third when its index mod 4 exceeds 1; Trees.GroupPattern gives the counts |
| Trees.GroupPattern | hacks/glx/snowmen.c:1404-1418 | the groups plant 1, 2, 2, 3 trees in turn |
| Trees.TreeTotal | hacks/glx/snowmen.c:1391-1420 | the twelve groups plant 24 trees in all |
| Trees.TreesBeforeBound | hacks/glx/snowmen.c:1391-1420 | no group writes past the 24 slots |
| Trees.TreeCountAsWritten | hacks/glx/snowmen.c:1382-1418 | as written, 27 slots are counted, 3 more than the groups fill, and group 1 plants two trees, not the three the comment counts |
| Trees.TreeCountCorrected | hacks/glx/snowmen.c:1391-1420 | the count the model uses is exactly the number of trees setupTrees plants, 3 fewer than the 27 as written |
| Trees.PondIndexInRange | hacks/glx/snowmen.c:1388-1392 | every pond slot read is a rim vertex, at most 147 for the 160-vertex rim |
| Trees.LeaderPlacement | hacks/glx/snowmen.c:1392-1400 | the leader stands at shore height, beyond the rim vertex and inside the universe edge |
| Trees.PlantedShapes | hacks/glx/snowmen.c:1398-1418 | every planted tree stands at shore height, has one of the three shapes and a turn in [0, 360] |
| Trees.GroupLeader | hacks/glx/snowmen.c:1398-1402 | the first slot of group i holds its leader, of height 8, placed from the pond slot the group reads |
| Trees.LeaderAt | hacks/glx/snowmen.c:1392-1400 | computes the leader's location from the pond vertex |
| Trees.PlantGroup | hacks/glx/snowmen.c:1401-1418 | writes the group's trees at the cursor and advances it by their number |
| Trees.PlaceGroup | hacks/glx/snowmen.c:1391-1420 | one group pass extends the planted prefix by group i and stays within the 24 slots |
| Trees.SetupTrees | hacks/glx/snowmen.c:1380-1421 | the tree array holds the 24 planted trees in order; nothing beyond them changes |
| Trees.SetupTreesAsWritten | hacks/glx/snowmen.c:2052-2057 | with the 27 zero-filled slots the code sizes, setupTrees fills the first 24, and the last three slots, which drawTrees also draws, keep the zero tree of height 0 |
| Snowmen.Scaled | hacks/glx/snowmen.c:1436-1438 | a draw scaled to a range lies in [0, scale], and a zero draw gives 0 |
| Snowmen.MinorLoops | hacks/glx/snowmen.c:1437 | the count of minor loops is 3, 4 or 5, and it is 5 exactly when the draw is RAND_MAX |
| Snowmen.InitSnowman | hacks/glx/snowmen.c:1430-1439 | sets hat colour and starting phase; the minor phase is in [0, τ], the loop count in {3, 4, 5}, the turn in [0, 360]; the derived fields are untouched |
| Snowmen.StartingRhoSpacing | hacks/glx/snowmen.c:1443-1446 | the snowmen start in [0, τ), one ninth of a turn apart |
| Snowmen.SetupSnowmen | hacks/glx/snowmen.c:1441-1448 | each of the nine slots holds its initialized snowman |
| Snowmen.UpdatedSnowman | hacks/glx/snowmen.c:1450-1459 | the state the update leaves: every field set at initialization is kept and currentRho is 0 |
| Snowmen.UpdateKeepsFixed | hacks/glx/snowmen.c:1450-1459 | the update leaves every field initSnowman sets unchanged and sets currentRho to 0 |
| Snowmen.UpdateIsFrameLocal | hacks/glx/snowmen.c:1450-1459 | what the update writes depends only on the phase and the fixed fields |
| Snowmen.UpdateOverrides | hacks/glx/snowmen.c:1450-1459 | a later update overrides an earlier one, and repeating an update changes nothing |
| Snowmen.SnowmanOnTrack | hacks/glx/snowmen.c:1453-1458 | the snowman travels between circles of radius 8 and 12, and its tilt lies in [−10, 10] |
| Snowmen.SnowmanUpdateState | hacks/glx/snowmen.c:1450-1459 | slot i receives the updated state and every other slot is unchanged |
| Scene.PhaseStep | hacks/glx/snowmen.c:2079-2082 | one step moves the phase by delta, less a full turn when it passes one, and a phase that stays within two turns lands at most at one |
| Scene.PhaseStaysInRange | hacks/glx/snowmen.c:2079-2082 | a phase in [0, τ] stays there after a step in (0, τ), and goes back exactly when it passes a full turn |
| Scene.SnowConfiguration.InitSnow | hacks/glx/snowmen.c:1568-1587 | camera phase π/2 and snowman phase 0, the nine snowmen initialized, the trees planted, every tree at least 8 high |
| Scene.SnowConfiguration.UpdateActors | hacks/glx/snowmen.c:2079-2086 | both phases step and stay in [0, τ]; every snowman is recomputed from the new phase, with its fixed fields kept |
| Shadow.ShadowMatrix | hacks/glx/snowmen.c:1614-1632 | the sixteen entries: plane . light on the diagonal less light[r] * plane[c] in row r and column c; Shadow.ShadowOnPlane and the lemmas after it give what the matrix does |
| Shadow.SetShadowMatrix | hacks/glx/snowmen.c:1604-1634 | the matrix for the shore or the pond equals the level-plane projection at the shore's height or at 0 |
| Shadow.ShoreMatrixValue | hacks/glx/snowmen.c:1606-1632 | for the shore, the plane is y = 1 and the matrix is the level-plane matrix at height 1 |
| Shadow.PondMatrixValue | hacks/glx/snowmen.c:1606-1632 | for the pond, the plane is y = 0 and the matrix is the level-plane matrix at height 0 |
| Shadow.LevelApplied | hacks/glx/snowmen.c:1616-1633 | the image of a point under the level-plane matrix, entry by entry |
| Shadow.ShadowOnPlane | hacks/glx/snowmen.c:1602-1633 | every homogeneous point is projected onto the plane |
| Shadow.ShadowMovesAlongLight | hacks/glx/snowmen.c:1616-1632 | the projection moves a point along the light by its distance from the plane (the light·plane product is 1) |
| Shadow.ShadowAlongLight | hacks/glx/snowmen.c:1616-1632 | the light direction itself maps to zero |
| Shadow.ShadowFixesPlane | hacks/glx/snowmen.c:1616-1632 | points already on the plane stay where they are |
| Shadow.ShadowHeights | hacks/glx/snowmen.c:1602-1633 | an affine point's shadow lies at the plane's height, still affine |

## Left out

- Geometry.NormalizeVertex: for a vector of length 0 the model returns it
  unchanged, where the C divides by zero; no caller reaches that case
  (Geometry.NormalizeKeepsSide: every vector normalized lies in front of a
  plane through the origin, so its length is not 0).
- OpenGL: buffer names, uploads, matrix-stack, cull, blend and stencil state,
  and the draw calls themselves are foreign API calls. Only the offset and
  count arguments of the draws are modelled.
- Floating point: coordinates are `real`, so there is no rounding, and
  `powf(4, 4)` is taken as exactly 256.
- Library values: the actual values of `sinf`, `cosf`, `sqrtf` and `powf`
  are not modelled; only the laws listed above are used.
- `random()`: its distribution is not modelled; draws are arbitrary inputs.
  `RAND_MAX` is glibc's 2^31 − 1.
- Texture images: `createTexture` and `createAllTextures` decode images
  through foreign calls.
- Window and GLX plumbing: `reshape_snow`, `snow_handle_event`, `init_GL`,
  `MI_INIT`, the `glx_context` check, `glXSwapBuffers` and `free_snow`.
  `MI_INIT`'s zero-filled allocation is modelled as arrays of placeholder
  values.
- `createBufferObjects`: the order of the generators is not modelled as a
  method. `Scene.SnowConfiguration.InitSnow` takes the pond buffer as an
  input, because the pond is built before `setupTrees` reads it; the shore
  and hills creators take it the same way.
- `snowmenUtils/mkTreeOutline.py`: a build-time script that spawns an
  image tool; not part of this model.
- Drawing: `drawSnowman`, `drawSnowmen` and `drawObjectsForStage` only set
  GL transforms and call the draws above. `drawTrees` is not modelled
  beyond the count it walks (see Findings).
- Hat offsets: the model records the hat's range offsets in indices;
  `createHatBufferObjects` stores them as byte offsets (index × 4).
- Shadow.ShadowOnPlane: proved for the two planes and the light that
  `setShadowMatrix` uses, not for an arbitrary plane and light.
- TreeMesh.EmitSkirt, Snowball.DivideTriangle, Splices.FanSlots: the edge
  and midpoint rules are passed as function values, so the buffers are
  stated generically and then instantiated with the source's formulas.
- Scene.SnowConfiguration.InitSnow: the tree array has the 24 slots the
  groups fill, not the 27 of `kCountOfTrees` (see Findings).

## Findings

| source | as written | input that shows it | evidently intended | confidence | as-written member | corrected member |
|---|---|---|---|---|---|---|
| hacks/glx/snowmen.c:89 | `kCountOfTrees` is 27, and the comment at lines 1382-1386 describes groups of 1, 3, 2, 3. The branches at 1404 and 1412 plant 1, 2, 2, 3 trees per group, which is 24 over the 12 groups. So `drawTrees` (line 2054) also draws 3 tree slots that `setupTrees` never writes; Trees.SetupTreesAsWritten shows they keep the zero tree, of height 0. | any run: groups 0 to 11 plant 1, 2, 2, 3, 1, 2, 2, 3, 1, 2, 2, 3 trees | the tree count equals the number of trees planted, 24 | not executed | Trees.TreeCountAsWritten | Trees.TreeCountCorrected |
