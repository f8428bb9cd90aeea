/** setShadowMatrix (hacks/glx/snowmen.c:1597-1633): the planar projection
    that flattens the scene onto the pond or the shore along the light's
    direction. The matrix is written column-major, m[c][r] being the entry
    of column c and row r, as glMultMatrixf reads it. */
module Shadow {
  import opened Geometry

  /** The four columns of a 4 by 4 matrix. */
  datatype Mat4 = Mat4(c0: Vec4, c1: Vec4, c2: Vec4, c3: Vec4)

  function Dot4(a: Vec4, b: Vec4): real
  {
    a.x * b.x + a.y * b.y + a.z * b.z + a.w * b.w
  }

  function Scale4(v: Vec4, k: real): Vec4
  {
    Vec4(v.x * k, v.y * k, v.z * k, v.w * k)
  }

  function Add4(a: Vec4, b: Vec4): Vec4
  {
    Vec4(a.x + b.x, a.y + b.y, a.z + b.z, a.w + b.w)
  }

  /** The matrix applied to the column vector p: the columns weighted by
      p's coordinates. */
  function Apply(mat: Mat4, p: Vec4): Vec4
  {
    Add4(Add4(Scale4(mat.c0, p.x), Scale4(mat.c1, p.y)), Add4(Scale4(mat.c2, p.z), Scale4(mat.c3, p.w)))
  }

  /** The sixteen entries as setShadowMatrix writes them: dot on the
      diagonal, less light[r] * plane[c] in column c and row r. */
  function ShadowMatrix(plane: Vec4, light: Vec4): Mat4
  {
    var dot := plane.x * light.x + plane.y * light.y + plane.z * light.z + plane.w * light.w;
    Mat4(
      Vec4(dot - light.x * plane.x,     - light.y * plane.x,     - light.z * plane.x,     - light.w * plane.x),
      Vec4(    - light.x * plane.y, dot - light.y * plane.y,     - light.z * plane.y,     - light.w * plane.y),
      Vec4(    - light.x * plane.z,     - light.y * plane.z, dot - light.z * plane.z,     - light.w * plane.z),
      Vec4(    - light.x * plane.w,     - light.y * plane.w,     - light.z * plane.w, dot - light.w * plane.w))
  }

  /** The light direction setShadowMatrix uses (its static light array). */
  function ShadowLight(): Vec4
  {
    Vec4(0.0, 1.0, 1.1, 0.0)
  }

  /** The plane setShadowMatrix projects onto: shorePlane, y = the shore's
      height, or pondPlane, y = 0. */
  function ShadowPlane(isDrawingShore: bool): Vec4
  {
    if isDrawingShore then Vec4(0.0, 1.0, 0.0, -kShoreHeight) else Vec4(0.0, 1.0, 0.0, 0.0)
  }

  /** setShadowMatrix: the projection onto the shore's or the pond's
      plane along the light, which is the level projection at that height. */
  function SetShadowMatrix(isDrawingShore: bool): (r: Mat4)
    ensures r == LevelMatrix(if isDrawingShore then kShoreHeight else 0.0)
  {
    ShadowMatrix(ShadowPlane(isDrawingShore), Vec4(0.0, 1.0, 1.1, 0.0))
  }

  /** The horizontal plane y = h. */
  function LevelPlane(h: real): Vec4
  {
    Vec4(0.0, 1.0, 0.0, -h)
  }

  /** The projection onto y = h along the scene's light, worked out entry
      by entry: dot is 1, and only the y column and the w column pick up
      the light. */
  function LevelMatrix(h: real): Mat4
  {
    Mat4(Vec4(1.0, 0.0, 0.0, 0.0), Vec4(0.0, 0.0, -1.1, 0.0),
         Vec4(0.0, 0.0, 1.0, 0.0), Vec4(0.0, h, 1.1 * h, 1.0))
  }

  /** The sixteen entries setShadowMatrix computes for the shore. */
  lemma ShoreMatrixValue()
    ensures ShadowPlane(true) == LevelPlane(kShoreHeight)
    ensures SetShadowMatrix(true) == LevelMatrix(kShoreHeight)
  {
  }

  /** The sixteen entries setShadowMatrix computes for the pond. */
  lemma PondMatrixValue()
    ensures ShadowPlane(false) == LevelPlane(0.0)
    ensures SetShadowMatrix(false) == LevelMatrix(0.0)
  {
  }

  /** What the matrix does to a homogeneous point p. */
  lemma LevelApplied(h: real, p: Vec4)
    ensures Apply(LevelMatrix(h), p) == Vec4(p.x, h * p.w, p.z - 1.1 * p.y + 1.1 * h * p.w, p.w)
  {
    assert (1.1 * h) * p.w == 1.1 * h * p.w;
  }

  /** Every homogeneous point lands on the plane. */
  lemma ShadowOnPlane(h: real, p: Vec4)
    ensures Dot4(LevelPlane(h), Apply(LevelMatrix(h), p)) == 0.0
  {
    LevelApplied(h, p);
  }

  /** The plane and the light have dot product 1, so the matrix moves p
      back along the light by plane . p: it is dot * p less the light
      scaled by plane . p, as the construction intends. */
  lemma ShadowMovesAlongLight(h: real, p: Vec4)
    ensures Dot4(LevelPlane(h), ShadowLight()) == 1.0
    ensures Apply(LevelMatrix(h), p) == Add4(p, Scale4(ShadowLight(), -Dot4(LevelPlane(h), p)))
  {
    LevelApplied(h, p);
  }

  /** The light's own direction is flattened to nothing. */
  lemma ShadowAlongLight(h: real)
    ensures Apply(LevelMatrix(h), ShadowLight()) == Vec4(0.0, 0.0, 0.0, 0.0)
  {
    LevelApplied(h, ShadowLight());
  }

  /** A point already on the plane stays where it is. */
  lemma ShadowFixesPlane(h: real, p: Vec4)
    requires Dot4(LevelPlane(h), p) == 0.0
    ensures Apply(LevelMatrix(h), p) == p
  {
    LevelApplied(h, p);
  }

  /** A point with w = 1 keeps w = 1 and lands at height h. */
  lemma ShadowHeights(h: real, p: Vec4)
    requires p.w == 1.0
    ensures Apply(LevelMatrix(h), p).y == h && Apply(LevelMatrix(h), p).w == 1.0
  {
    LevelApplied(h, p);
  }
}
