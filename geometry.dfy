/**
 * Vector math of the renderer: the screen constants, near-plane clipping with
 * perspective projection, and the fixed-order rotation about Z, then Y, then X.
 * Numbers are reals; the focal factor f and every cosine/sine are parameters.
 */
module Geometry {

  datatype Option<+T> = None | Some(value: T)

  /** A triple of reals: a vertex, a world point, a position or a rotation (x, y, z). */
  datatype Vec3 = Vec3(x: real, y: real, z: real)

  /** Integer screen coordinates; y grows downward. */
  datatype Pixel = Pixel(x: int, y: int)

  /** The cosine and sine of one rotation angle. */
  datatype CosSin = CosSin(cos: real, sin: real)

  const Width: int := 800
  const Height: int := 600
  /** Screen centre, computed with integer division. */
  const CentreX: int := Width / 2
  const CentreY: int := Height / 2

  const NearPlane: real := 0.1
  const AspectRatio: real := Height as real / Width as real

  /** The angle 0: cosine 1, sine 0. */
  const NoTurn: CosSin := CosSin(1.0, 0.0)

  function Add(a: Vec3, b: Vec3): Vec3 {
    Vec3(a.x + b.x, a.y + b.y, a.z + b.z)
  }

  function Sub(a: Vec3, b: Vec3): Vec3 {
    Vec3(a.x - b.x, a.y - b.y, a.z - b.z)
  }

  function Scale(a: Vec3, k: real): Vec3 {
    Vec3(k * a.x, k * a.y, k * a.z)
  }

  function NormSq(a: Vec3): real {
    a.x * a.x + a.y * a.y + a.z * a.z
  }

  /** Conversion of a real to an integer that truncates toward zero. */
  function Trunc(r: real): (t: int)
    ensures 0.0 <= r ==> 0 <= t && t as real <= r < t as real + 1.0
    ensures r < 0.0 ==> t <= 0 && t as real - 1.0 < r <= t as real
  {
    if r >= 0.0 then r.Floor else -((-r).Floor)
  }

  lemma TruncMonotone(a: real, b: real)
    requires a <= b
    ensures Trunc(a) <= Trunc(b)
  {
  }

  lemma TruncOfInt(n: int)
    ensures Trunc(n as real) == n
  {
  }

  /**
   * Perspective divide of x, widened by the aspect ratio (defined in front of
   * the camera). For a positive f a point keeps its side of the viewing axis.
   */
  function PerspectiveX(p: Vec3, f: real): (r: real)
    requires p.z > 0.0
    ensures f > 0.0 ==> (r > 0.0 <==> p.x > 0.0) && (r < 0.0 <==> p.x < 0.0)
  {
    p.x * f * AspectRatio / p.z
  }

  /** Perspective divide of y; for a positive f a point keeps its side of the viewing axis. */
  function PerspectiveY(p: Vec3, f: real): (r: real)
    requires p.z > 0.0
    ensures f > 0.0 ==> (r > 0.0 <==> p.y > 0.0) && (r < 0.0 <==> p.y < 0.0)
  {
    p.y * f / p.z
  }

  /** Screen x of a perspective-divided x coordinate: scaled and centred. */
  function ScreenX(xProj: real): int {
    Trunc(xProj * (Width as real / 2.0) + CentreX as real)
  }

  /** Screen y of a perspective-divided y coordinate: scaled, inverted and centred. */
  function ScreenY(yProj: real): int {
    Trunc(-yProj * (Height as real / 2.0) + CentreY as real)
  }

  /**
   * Perspective projection from a camera at the origin looking down +z.
   * A point nearer than the near plane is clipped; a point exactly on it is kept.
   */
  function Project(p: Vec3, f: real): (r: Option<Pixel>)
    ensures r.None? <==> p.z < NearPlane
  {
    if p.z < NearPlane then None
    else Some(Pixel(ScreenX(PerspectiveX(p, f)), ScreenY(PerspectiveY(p, f))))
  }

  lemma ScreenCentre()
    ensures ScreenX(0.0) == CentreX && ScreenY(0.0) == CentreY
  {
  }

  /**
   * The projected range -1 .. 1 maps onto [0, Width] x [0, Height]: x = -1 is
   * column 0 and y = 1 row 0, while x = 1 and y = -1 land one past the last
   * column and row. Every other value of the range is a pixel of the window.
   */
  lemma ScreenInWindow(xProj: real, yProj: real)
    requires -1.0 <= xProj <= 1.0 && -1.0 <= yProj <= 1.0
    ensures 0 <= ScreenX(xProj) <= Width && 0 <= ScreenY(yProj) <= Height
    ensures xProj < 1.0 ==> ScreenX(xProj) < Width
    ensures yProj > -1.0 ==> ScreenY(yProj) < Height
    ensures ScreenX(-1.0) == 0 && ScreenX(1.0) == Width
    ensures ScreenY(1.0) == 0 && ScreenY(-1.0) == Height
  {
  }

  /** An unclipped point on the camera axis lands on the screen centre. */
  lemma ProjectAxisToCentre(p: Vec3, f: real)
    requires p.z >= NearPlane && p.x == 0.0 && p.y == 0.0
    ensures Project(p, f) == Some(Pixel(CentreX, CentreY))
  {
    assert PerspectiveX(p, f) == 0.0;
    assert PerspectiveY(p, f) == 0.0;
    ScreenCentre();
  }

  lemma MulMonotone(a: real, b: real, c: real)
    requires a <= b && c >= 0.0
    ensures a * c <= b * c
  {
  }

  lemma DivMonotone(a: real, b: real, c: real)
    requires a <= b && c > 0.0
    ensures a / c <= b / c
  {
    assert b / c - a / c == (b - a) / c;
  }

  /** Dividing numerator and denominator by the same positive factor. */
  lemma CancelFactor(a: real, k: real, z: real)
    requires k > 0.0 && z > 0.0
    ensures (k * a) / (k * z) == a / z
  {
    var q := a / z;
    assert q * z == a;
    assert q * (k * z) == k * a;
  }

  lemma ScreenXMonotone(a: real, b: real)
    requires a <= b
    ensures ScreenX(a) <= ScreenX(b)
  {
  }

  lemma ScreenYAntitone(a: real, b: real)
    requires a <= b
    ensures ScreenY(b) <= ScreenY(a)
  {
  }

  lemma PerspectiveXMonotone(p: Vec3, q: Vec3, f: real)
    requires p.x <= q.x && f > 0.0 && p.z == q.z && p.z > 0.0
    ensures PerspectiveX(p, f) <= PerspectiveX(q, f)
  {
    MulMonotone(p.x, q.x, f);
    MulMonotone(p.x * f, q.x * f, AspectRatio);
    DivMonotone(p.x * f * AspectRatio, q.x * f * AspectRatio, p.z);
  }

  lemma PerspectiveYMonotone(p: Vec3, q: Vec3, f: real)
    requires p.y <= q.y && f > 0.0 && p.z == q.z && p.z > 0.0
    ensures PerspectiveY(p, f) <= PerspectiveY(q, f)
  {
    MulMonotone(p.y, q.y, f);
    DivMonotone(p.y * f, q.y * f, p.z);
  }

  /** Moving a point rightwards (same depth) never moves its pixel leftwards. */
  lemma ProjectMonotoneX(p: Vec3, q: Vec3, f: real)
    requires f > 0.0
    requires p.z == q.z && p.z >= NearPlane
    requires p.x <= q.x
    ensures Project(p, f).Some? && Project(q, f).Some?
    ensures Project(p, f).value.x <= Project(q, f).value.x
  {
    PerspectiveXMonotone(p, q, f);
    ScreenXMonotone(PerspectiveX(p, f), PerspectiveX(q, f));
  }

  /** Moving a point upwards (same depth) never moves its pixel downwards: screen y is inverted. */
  lemma ProjectAntitoneY(p: Vec3, q: Vec3, f: real)
    requires f > 0.0
    requires p.z == q.z && p.z >= NearPlane
    requires p.y <= q.y
    ensures Project(p, f).Some? && Project(q, f).Some?
    ensures Project(p, f).value.y >= Project(q, f).value.y
  {
    PerspectiveYMonotone(p, q, f);
    ScreenYAntitone(PerspectiveY(p, f), PerspectiveY(q, f));
  }

  lemma PerspectiveAlongRay(p: Vec3, k: real, f: real)
    requires k > 0.0 && p.z > 0.0
    ensures Scale(p, k).z > 0.0
    ensures PerspectiveX(Scale(p, k), f) == PerspectiveX(p, f)
    ensures PerspectiveY(Scale(p, k), f) == PerspectiveY(p, f)
  {
    assert Scale(p, k).x * f * AspectRatio == k * (p.x * f * AspectRatio);
    CancelFactor(p.x * f * AspectRatio, k, p.z);
    assert Scale(p, k).y * f == k * (p.y * f);
    CancelFactor(p.y * f, k, p.z);
  }

  /**
   * The perspective divide: every unclipped point on one ray from the camera
   * lands on the same pixel.
   */
  lemma ProjectAlongRay(p: Vec3, k: real, f: real)
    requires k > 0.0
    requires p.z >= NearPlane && k * p.z >= NearPlane
    ensures Project(Scale(p, k), f).Some?
    ensures Project(Scale(p, k), f) == Project(p, f)
  {
    PerspectiveAlongRay(p, k, f);
  }

  /** Rotation about the z axis: z is unchanged. */
  function RotateZ(p: Vec3, t: CosSin): (r: Vec3)
    ensures r.z == p.z
  {
    Vec3(p.x * t.cos - p.y * t.sin, p.x * t.sin + p.y * t.cos, p.z)
  }

  /** Rotation about the y axis: y is unchanged. */
  function RotateY(p: Vec3, t: CosSin): (r: Vec3)
    ensures r.y == p.y
  {
    Vec3(p.x * t.cos + p.z * t.sin, p.y, -p.x * t.sin + p.z * t.cos)
  }

  /** Rotation about the x axis: x is unchanged. */
  function RotateX(p: Vec3, t: CosSin): (r: Vec3)
    ensures r.x == p.x
  {
    Vec3(p.x, p.y * t.cos - p.z * t.sin, p.y * t.sin + p.z * t.cos)
  }

  /**
   * The composite rotation: about Z first, then Y, then X, each step using the
   * previous step's result. With every angle zero the point is unchanged.
   */
  function Rotate(p: Vec3, ax: CosSin, ay: CosSin, az: CosSin): (r: Vec3)
    ensures ax == ay == az == NoTurn ==> r == p
  {
    RotateX(RotateY(RotateZ(p, az), ay), ax)
  }

  predicate IsUnitAngle(t: CosSin) {
    t.cos * t.cos + t.sin * t.sin == 1.0
  }

  /** The planar rotation formula keeps x^2 + y^2 when cos^2 + sin^2 = 1. */
  lemma PlanarRotationIsometry(a: real, b: real, c: real, s: real)
    requires c * c + s * s == 1.0
    ensures (a * c - b * s) * (a * c - b * s) + (a * s + b * c) * (a * s + b * c) == a * a + b * b
  {
    calc {
      (a * c - b * s) * (a * c - b * s) + (a * s + b * c) * (a * s + b * c);
      a * a * (c * c + s * s) + b * b * (s * s + c * c);
      a * a * 1.0 + b * b * 1.0;
    }
  }

  /** Each axis step, and so the whole rotation, preserves the distance to the origin. */
  lemma RotatePreservesNorm(p: Vec3, ax: CosSin, ay: CosSin, az: CosSin)
    requires IsUnitAngle(ax) && IsUnitAngle(ay) && IsUnitAngle(az)
    ensures NormSq(Rotate(p, ax, ay, az)) == NormSq(p)
  {
    var p1 := RotateZ(p, az);
    PlanarRotationIsometry(p.x, p.y, az.cos, az.sin);
    assert NormSq(p1) == NormSq(p);
    var p2 := RotateY(p1, ay);
    PlanarRotationIsometry(p1.z, p1.x, ay.cos, ay.sin);
    assert NormSq(p2) == NormSq(p1);
    var p3 := RotateX(p2, ax);
    PlanarRotationIsometry(p2.y, p2.z, ax.cos, ax.sin);
    assert NormSq(p3) == NormSq(p2);
  }

  /** A quarter turn about z sends (x, y, z) to (-y, x, z). */
  lemma QuarterTurnZ(p: Vec3)
    ensures RotateZ(p, CosSin(0.0, 1.0)) == Vec3(-p.y, p.x, p.z)
  {
  }

  /** A quarter turn about x sends (x, y, z) to (x, -z, y). */
  lemma QuarterTurnX(p: Vec3)
    ensures RotateX(p, CosSin(0.0, 1.0)) == Vec3(p.x, -p.z, p.y)
  {
  }

  lemma NoTurnY(p: Vec3)
    ensures RotateY(p, NoTurn) == p
  {
  }

  /**
   * The axis order matters: a quarter turn about Z and about X, applied in the
   * fixed order (Z first), sends (1, 0, 0) to (0, 0, 1); applied X first it
   * sends it to (0, 1, 0).
   */
  lemma RotationOrderMatters()
    ensures Rotate(Vec3(1.0, 0.0, 0.0), CosSin(0.0, 1.0), NoTurn, CosSin(0.0, 1.0)) == Vec3(0.0, 0.0, 1.0)
    ensures RotateZ(RotateX(Vec3(1.0, 0.0, 0.0), CosSin(0.0, 1.0)), CosSin(0.0, 1.0)) == Vec3(0.0, 1.0, 0.0)
  {
    QuarterTurnZ(Vec3(1.0, 0.0, 0.0));
    NoTurnY(Vec3(0.0, 1.0, 0.0));
    QuarterTurnX(Vec3(0.0, 1.0, 0.0));
    QuarterTurnX(Vec3(1.0, 0.0, 0.0));
  }
}
