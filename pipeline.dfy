/**
 * The per-frame transform pipeline of one shape: every vertex is rotated about
 * the shape's origin, moved to its world position and projected; its shadow
 * (the same world point dropped onto the ground plane y = -1.5) is projected
 * alongside it.
 */
module Pipeline {
  import opened Geometry
  import opened Shapes

  /** Supplies the cosine and sine of a rotation angle. */
  type Trig = real -> CosSin

  /** Height of the ground plane that shadows are cast on. */
  const GroundY: real := -1.5

  /**
   * A local vertex rotated (Z, then Y, then X) by the shape's angles and
   * translated to its position; with zero angles it is just translated.
   */
  function WorldPoint(s: Shape, v: Vec3, trig: Trig): (w: Vec3)
    ensures trig(s.rotation.x) == trig(s.rotation.y) == trig(s.rotation.z) == NoTurn ==> w == Add(v, s.position)
  {
    Add(Rotate(v, trig(s.rotation.x), trig(s.rotation.y), trig(s.rotation.z)), s.position)
  }

  /** With genuine angles a world point stays at its vertex's distance from the shape's position. */
  lemma WorldPointKeepsDistance(s: Shape, v: Vec3, trig: Trig)
    requires IsUnitAngle(trig(s.rotation.x)) && IsUnitAngle(trig(s.rotation.y)) && IsUnitAngle(trig(s.rotation.z))
    ensures NormSq(Sub(WorldPoint(s, v, trig), s.position)) == NormSq(v)
  {
    RotatePreservesNorm(v, trig(s.rotation.x), trig(s.rotation.y), trig(s.rotation.z));
  }

  /**
   * A world point dropped onto the ground plane y = GroundY: its depth is
   * kept, and a point already on the ground is its own shadow.
   */
  function ShadowPoint(w: Vec3): (r: Vec3)
    ensures r.y == GroundY && r.x == w.x && r.z == w.z
    ensures w.y == GroundY ==> r == w
  {
    Vec3(w.x, GroundY, w.z)
  }

  /** A shadow is clipped exactly when the world point it belongs to is clipped. */
  lemma ShadowClippedIffPointClipped(w: Vec3, f: real)
    ensures Project(ShadowPoint(w), f).None? <==> Project(w, f).None?
  {
  }

  /** With no rotation (every angle has cosine 1 and sine 0) a vertex is just translated. */
  lemma UnrotatedWorldPoint(s: Shape, v: Vec3, trig: Trig)
    requires s.rotation == Origin && trig(0.0) == NoTurn
    ensures WorldPoint(s, v, trig) == Add(v, s.position)
  {
  }

  /** The screen point of every vertex, in vertex order. */
  function ProjectedPoints(s: Shape, f: real, trig: Trig): (r: seq<Option<Pixel>>)
    ensures |r| == |s.vertices|
  {
    seq(|s.vertices|, k requires 0 <= k < |s.vertices| => Project(WorldPoint(s, s.vertices[k], trig), f))
  }

  /** The screen point of every vertex's shadow, in vertex order. */
  function ShadowProjections(s: Shape, f: real, trig: Trig): (r: seq<Option<Pixel>>)
    ensures |r| == |s.vertices|
  {
    seq(|s.vertices|, k requires 0 <= k < |s.vertices| => Project(ShadowPoint(WorldPoint(s, s.vertices[k], trig)), f))
  }

  /**
   * Builds both projected lists in one pass over the vertices. A vertex's
   * shadow is present exactly when the vertex's own screen point is.
   */
  method ProjectVertices(s: Shape, f: real, trig: Trig) returns (points: seq<Option<Pixel>>, shadows: seq<Option<Pixel>>)
    ensures points == ProjectedPoints(s, f, trig)
    ensures shadows == ShadowProjections(s, f, trig)
    ensures |points| == |shadows| == |s.vertices|
    ensures forall k :: 0 <= k < |points| ==> (points[k].None? <==> shadows[k].None?)
  {
    points, shadows := [], [];
    for i := 0 to |s.vertices|
      invariant |points| == |shadows| == i
      invariant forall k :: 0 <= k < i ==> points[k] == Project(WorldPoint(s, s.vertices[k], trig), f)
      invariant forall k :: 0 <= k < i ==> shadows[k] == Project(ShadowPoint(WorldPoint(s, s.vertices[k], trig)), f)
    {
      var world := WorldPoint(s, s.vertices[i], trig);
      points := points + [Project(world, f)];
      shadows := shadows + [Project(ShadowPoint(world), f)];
    }
  }
}
