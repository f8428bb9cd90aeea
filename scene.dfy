/** The configuration's actor state (hacks/glx/snowmen.c:248-275): the
    camera's and the snowmen's phases, the nine snowmen and the trees, as
    init_snow sets them up (1567-1586) and as draw_snow advances them each
    frame (2079-2086). */
module Scene {
  import opened Geometry

  import opened Pond

  import opened Snowmen

  import opened Trees

  const kDCameraRho: real := 0.001
  const kDSnowmanRho: real := 0.007

  /** One frame's advance of a phase: add delta, and subtract a full turn
      once the phase passes it. */
  function PhaseStep(rho: real, delta: real): (r: real)
    ensures r == rho + delta || r == rho + delta - kTau
    ensures rho + delta <= 2.0 * kTau ==> r <= kTau
  {
    if rho + delta > kTau then rho + delta - kTau else rho + delta
  }

  /** A phase in [0, tau] stays there, and it goes back exactly when the
      step carries it past a full turn. */
  lemma PhaseStaysInRange(rho: real, delta: real)
    requires 0.0 <= rho <= kTau && 0.0 < delta < kTau
    ensures 0.0 <= PhaseStep(rho, delta) <= kTau
    ensures PhaseStep(rho, delta) < rho <==> rho + delta > kTau
  {
  }

  /** snow_configuration, without its OpenGL handles and buffers. */
  class SnowConfiguration {
    var cameraRho: real
    var snowmanRho: real
    const snowmanIndividual: array<SnowmanState>
    const treeIndividual: array<TreeState>
    /** The fields each snowman got at set-up. */
    ghost const fixedSnowmen: seq<SnowmanState>

    ghost predicate Valid()
      reads this, snowmanIndividual
    {
      && 0.0 <= cameraRho <= kTau && 0.0 <= snowmanRho <= kTau
      && snowmanIndividual.Length == kCountOfSnowmen == |fixedSnowmen|
      && treeIndividual.Length == kCountOfTrees
      && forall i :: 0 <= i < kCountOfSnowmen ==> SameFixed(snowmanIndividual[i], fixedSnowmen[i])
    }

    /** init_snow's actor set-up: the phases, setupSnowmen, then (once the
        pond has been built) setupTrees, on zero-filled slots. */
    constructor InitSnow(m: Libm, pondVerts: array<Vec3>, snowmanDraws: seq<int>, treeDraws: seq<int>)
      requires RimReady(m, pondVerts[..]) && DrawsReady(treeDraws) && SnowmanDrawsReady(snowmanDraws)
      ensures Valid() && fresh(snowmanIndividual) && fresh(treeIndividual)
      ensures cameraRho == kPi / 2.0 && snowmanRho == 0.0
      ensures forall i :: 0 <= i < kCountOfSnowmen ==>
                snowmanIndividual[i] == InitialSnowman(kUnsetSnowman, snowmanDraws, i)
      ensures treeIndividual[..] == PlantedTrees(m, pondVerts[..], treeDraws)
      ensures forall i :: 0 <= i < treeIndividual.Length ==> treeIndividual[i].height >= 8.0
    {
      cameraRho := kPi / 2.0;
      snowmanRho := 0.0;
      snowmanIndividual := new SnowmanState[kCountOfSnowmen](_ => kUnsetSnowman);
      treeIndividual := new TreeState[kCountOfTrees](_ => kUnplantedTree);
      fixedSnowmen := seq(kCountOfSnowmen, i requires 0 <= i < kCountOfSnowmen =>
                            InitialSnowman(kUnsetSnowman, snowmanDraws, i));
      new;
      SetupSnowmen(snowmanIndividual, snowmanDraws);
      SetupTrees(m, pondVerts, treeDraws, treeIndividual);
      assert treeIndividual[..] == treeIndividual[..kCountOfTrees];
      PlantedShapes(m, pondVerts[..], treeDraws, kCountOfTreeGroups);
      assert forall i :: 0 <= i < treeIndividual.Length ==> treeIndividual[i] in treeIndividual[..];
    }

    /** The update at the head of draw_snow: both phases step, then every
        snowman is recomputed from the new snowman phase. */
    method UpdateActors(m: Libm)
      requires Valid()
      modifies this, snowmanIndividual
      ensures Valid()
      ensures cameraRho == PhaseStep(old(cameraRho), kDCameraRho)
      ensures snowmanRho == PhaseStep(old(snowmanRho), kDSnowmanRho)
      ensures forall i :: 0 <= i < kCountOfSnowmen ==>
                snowmanIndividual[i] == UpdatedSnowman(m, old(snowmanIndividual[i]), snowmanRho)
    {
      PhaseStaysInRange(cameraRho, kDCameraRho);
      PhaseStaysInRange(snowmanRho, kDSnowmanRho);
      cameraRho := cameraRho + kDCameraRho;
      if cameraRho > kTau {
        cameraRho := cameraRho - kTau;
      }
      snowmanRho := snowmanRho + kDSnowmanRho;
      if snowmanRho > kTau {
        snowmanRho := snowmanRho - kTau;
      }
      for i := 0 to kCountOfSnowmen
        modifies snowmanIndividual
        invariant forall k :: 0 <= k < i ==>
                    snowmanIndividual[k] == UpdatedSnowman(m, old(snowmanIndividual[k]), snowmanRho)
        invariant forall k :: i <= k < kCountOfSnowmen ==> snowmanIndividual[k] == old(snowmanIndividual[k])
        invariant forall k :: 0 <= k < kCountOfSnowmen ==> SameFixed(snowmanIndividual[k], fixedSnowmen[k])
      {
        UpdateKeepsFixed(m, snowmanIndividual[i], snowmanRho);
        SnowmanUpdateState(m, snowmanIndividual, i, snowmanRho);
      }
    }
  }
}
