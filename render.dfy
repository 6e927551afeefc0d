/**
 * The render step of one frame, as the list of drawing primitives it emits.
 * Per shape, in this order: the shadow polygon of every face whose shadow
 * points are all present and number at least three; a line per edge whose two
 * endpoints are both present; a marker per present screen point. Shapes are
 * drawn in scene order with no depth sorting between them.
 */
module Render {
  import opened Geometry
  import opened Shapes
  import opened Pipeline

  datatype Primitive =
    | Polygon(color: Color, points: seq<Pixel>)
    | Line(color: Color, from: Pixel, to: Pixel, width: nat)
    | Circle(color: Color, centre: Pixel, radius: nat)

  const LineWidth: nat := 2
  const MarkerRadius: nat := 3
  const MarkerColor: Color := Red

  /** The values of the present entries, in order. */
  function Present<T>(os: seq<Option<T>>): (r: seq<T>)
    ensures |r| <= |os|
    decreases |os|
  {
    if os == [] then []
    else Present(os[..|os| - 1]) + (if os[|os| - 1].Some? then [os[|os| - 1].value] else [])
  }

  /** When every entry is present, nothing is dropped and the order is kept. */
  lemma {:induction false} PresentAll<T>(os: seq<Option<T>>)
    requires forall k :: 0 <= k < |os| ==> os[k].Some?
    ensures |Present(os)| == |os|
    ensures forall k :: 0 <= k < |os| ==> Present(os)[k] == os[k].value
    decreases |os|
  {
    if os != [] {
      PresentAll(os[..|os| - 1]);
    }
  }

  /** When no entry is present, nothing is emitted. */
  lemma {:induction false} PresentNone<T>(os: seq<Option<T>>)
    requires forall k :: 0 <= k < |os| ==> os[k].None?
    ensures Present(os) == []
    decreases |os|
  {
    if os != [] {
      PresentNone(os[..|os| - 1]);
    }
  }

  /** Present over a prefix extended by one entry. */
  lemma PresentSnoc<T>(os: seq<Option<T>>, i: nat)
    requires i < |os|
    ensures Present(os[..i + 1]) == Present(os[..i]) + (if os[i].Some? then [os[i].value] else [])
  {
    assert os[..i + 1][..i] == os[..i];
  }

  /** A value is emitted exactly when it occurs as a present entry. */
  lemma {:induction false} PresentMembers<T>(os: seq<Option<T>>, x: T)
    ensures x in Present(os) <==> Some(x) in os
    decreases |os|
  {
    if os != [] {
      PresentMembers(os[..|os| - 1], x);
      assert os == os[..|os| - 1] + [os[|os| - 1]];
    }
  }

  /** Everything emitted comes from a present entry. */
  lemma PresentFrom<T>(os: seq<Option<T>>)
    ensures forall x :: x in Present(os) ==> Some(x) in os
  {
    forall x | x in Present(os)
      ensures Some(x) in os
    {
      PresentMembers(os, x);
    }
  }

  /** Some shadow point of the face is clipped. */
  predicate SomeClipped(face: seq<nat>, shadows: seq<Option<Pixel>>) {
    exists m :: 0 <= m < |face| && face[m] < |shadows| && shadows[face[m]].None?
  }

  /**
   * The shadow outline of a face: its shadow points in face order, or None as
   * soon as one of them is clipped.
   */
  function FaceOutline(face: seq<nat>, shadows: seq<Option<Pixel>>): (r: Option<seq<Pixel>>)
    requires IndicesBelow(face, |shadows|)
    ensures r.Some? <==> forall j :: 0 <= j < |face| ==> shadows[face[j]].Some?
    ensures r.Some? ==> |r.value| == |face|
    ensures r.Some? ==> forall j :: 0 <= j < |face| ==> r.value[j] == shadows[face[j]].value
    decreases |face|
  {
    if face == [] then Some([])
    else
      var last := shadows[face[|face| - 1]];
      match FaceOutline(face[..|face| - 1], shadows)
      case None => None
      case Some(pts) => if last.None? then None else Some(pts + [last.value])
  }

  /**
   * The shadow polygon of one face: drawn only when every shadow point of the
   * face is present and the face has at least three of them; all or nothing.
   */
  function FacePolygon(face: seq<nat>, shadows: seq<Option<Pixel>>): (r: Option<Primitive>)
    requires IndicesBelow(face, |shadows|)
    ensures r.Some? <==> |face| >= 3 && forall j :: 0 <= j < |face| ==> shadows[face[j]].Some?
    ensures r.Some? ==> r.value.Polygon? && r.value.color == ShadowGrey && |r.value.points| == |face|
    ensures r.Some? ==> forall j :: 0 <= j < |face| ==> r.value.points[j] == shadows[face[j]].value
  {
    match FaceOutline(face, shadows)
    case None => None
    case Some(pts) => if |pts| >= 3 then Some(Polygon(ShadowGrey, pts)) else None
  }

  /** The wireframe line of one edge: drawn exactly when both endpoints are present. */
  function EdgeLine(e: Edge, points: seq<Option<Pixel>>, color: Color): (r: Option<Primitive>)
    requires e.from < |points| && e.to < |points|
    ensures r.Some? <==> points[e.from].Some? && points[e.to].Some?
    ensures r.Some? ==> r.value == Line(color, points[e.from].value, points[e.to].value, LineWidth)
  {
    if points[e.from].Some? && points[e.to].Some? then
      Some(Line(color, points[e.from].value, points[e.to].value, LineWidth))
    else None
  }

  /** The marker of one screen point: drawn exactly when the point is present. */
  function Marker(p: Option<Pixel>): (r: Option<Primitive>)
    ensures r.Some? <==> p.Some?
    ensures r.Some? ==> r.value == Circle(MarkerColor, p.value, MarkerRadius)
  {
    if p.Some? then Some(Circle(MarkerColor, p.value, MarkerRadius)) else None
  }

  /** The shadow polygon (or nothing) of every face, in face order. */
  function FacePolygons(faces: seq<seq<nat>>, shadows: seq<Option<Pixel>>): (r: seq<Option<Primitive>>)
    requires FacesBelow(faces, |shadows|)
    ensures |r| == |faces|
  {
    seq(|faces|, k requires 0 <= k < |faces| => FacePolygon(faces[k], shadows))
  }

  /** The line (or nothing) of every edge, in edge order. */
  function EdgeLines(edges: seq<Edge>, points: seq<Option<Pixel>>, color: Color): (r: seq<Option<Primitive>>)
    requires EdgesBelow(edges, |points|)
    ensures |r| == |edges|
    ensures forall k :: 0 <= k < |edges| ==> r[k] == EdgeLine(edges[k], points, color)
  {
    seq(|edges|, k requires 0 <= k < |edges| => EdgeLine(edges[k], points, color))
  }

  /** The marker (or nothing) of every screen point, in point order. */
  function Markers(points: seq<Option<Pixel>>): (r: seq<Option<Primitive>>)
    ensures |r| == |points|
    ensures forall k :: 0 <= k < |points| ==> r[k] == Marker(points[k])
  {
    seq(|points|, k requires 0 <= k < |points| => Marker(points[k]))
  }

  /**
   * Shadow polygons, one face after the other. For each face the shadow points
   * are gathered in face order; the first clipped one abandons the face.
   */
  method DrawShadows(faces: seq<seq<nat>>, shadows: seq<Option<Pixel>>) returns (prims: seq<Primitive>)
    requires FacesBelow(faces, |shadows|)
    ensures prims == Present(FacePolygons(faces, shadows))
  {
    prims := [];
    for i := 0 to |faces|
      invariant prims == Present(FacePolygons(faces, shadows)[..i])
    {
      var face := faces[i];
      var outline: seq<Pixel> := [];
      var valid := true;
      for j := 0 to |face|
        invariant valid ==> |outline| == j
        invariant valid ==> forall m :: 0 <= m < j ==> shadows[face[m]].Some? && outline[m] == shadows[face[m]].value
        invariant !valid ==> SomeClipped(face, shadows)
      {
        var p := shadows[face[j]];
        if p.Some? {
          outline := outline + [p.value];
        } else {
          valid := false;
          break;
        }
      }
      if valid {
        assert outline == FaceOutline(face, shadows).value;
      }
      assert FacePolygon(face, shadows) == if valid && |outline| >= 3 then Some(Polygon(ShadowGrey, outline)) else None;
      if valid && |outline| >= 3 {
        prims := prims + [Polygon(ShadowGrey, outline)];
      }
      PresentSnoc(FacePolygons(faces, shadows), i);
    }
    assert FacePolygons(faces, shadows)[..|faces|] == FacePolygons(faces, shadows);
  }

  /** Wireframe lines, one per edge whose endpoints are both present, in edge order. */
  method DrawEdges(edges: seq<Edge>, points: seq<Option<Pixel>>, color: Color) returns (prims: seq<Primitive>)
    requires EdgesBelow(edges, |points|)
    ensures prims == Present(EdgeLines(edges, points, color))
  {
    prims := [];
    for i := 0 to |edges|
      invariant prims == Present(EdgeLines(edges, points, color)[..i])
    {
      var a, b := points[edges[i].from], points[edges[i].to];
      if a.Some? && b.Some? {
        prims := prims + [Line(color, a.value, b.value, LineWidth)];
      }
      PresentSnoc(EdgeLines(edges, points, color), i);
    }
    assert EdgeLines(edges, points, color)[..|edges|] == EdgeLines(edges, points, color);
  }

  /** A marker per present screen point, in vertex order. */
  method DrawMarkers(points: seq<Option<Pixel>>) returns (prims: seq<Primitive>)
    ensures prims == Present(Markers(points))
  {
    prims := [];
    for i := 0 to |points|
      invariant prims == Present(Markers(points)[..i])
    {
      if points[i].Some? {
        prims := prims + [Circle(MarkerColor, points[i].value, MarkerRadius)];
      }
      PresentSnoc(Markers(points), i);
    }
    assert Markers(points)[..|points|] == Markers(points);
  }

  /** The shadow polygons of a shape, in face order: at most one per face, each grey with at least three corners. */
  function ShadowsOf(s: Shape, f: real, trig: Trig): (r: seq<Primitive>)
    requires WellFormed(s)
    ensures |r| <= |s.faces|
    ensures forall p :: p in r ==> p.Polygon? && p.color == ShadowGrey && |p.points| >= 3
  {
    var polygons := FacePolygons(s.faces, ShadowProjections(s, f, trig));
    PresentFrom(polygons);
    Present(polygons)
  }

  /** The wireframe lines of a shape, in edge order: at most one per edge, each in the shape's colour and width 2. */
  function LinesOf(s: Shape, f: real, trig: Trig): (r: seq<Primitive>)
    requires WellFormed(s)
    ensures |r| <= |s.edges|
    ensures forall p :: p in r ==> p.Line? && p.color == s.color && p.width == LineWidth
  {
    var lines := EdgeLines(s.edges, ProjectedPoints(s, f, trig), s.color);
    PresentFrom(lines);
    Present(lines)
  }

  /** The vertex markers of a shape, in vertex order: at most one per vertex, each a red dot of radius 3. */
  function MarkersOf(s: Shape, f: real, trig: Trig): (r: seq<Primitive>)
    ensures |r| <= |s.vertices|
    ensures forall p :: p in r ==> p.Circle? && p.color == MarkerColor && p.radius == MarkerRadius
  {
    var markers := Markers(ProjectedPoints(s, f, trig));
    PresentFrom(markers);
    Present(markers)
  }

  /** The painting layer of a primitive: shadows first, then lines, then markers. */
  function Layer(p: Primitive): nat {
    match p
    case Polygon(_, _) => 0
    case Line(_, _, _, _) => 1
    case Circle(_, _, _) => 2
  }

  /**
   * Everything one shape contributes to a frame: shadows, then edges, then
   * markers, so every shadow lies under every line and every line under
   * every marker.
   */
  function ShapePrimitives(s: Shape, f: real, trig: Trig): (r: seq<Primitive>)
    requires WellFormed(s)
    ensures forall i, j :: 0 <= i < j < |r| ==> Layer(r[i]) <= Layer(r[j])
  {
    var shadows, lines, markers := ShadowsOf(s, f, trig), LinesOf(s, f, trig), MarkersOf(s, f, trig);
    assert forall i :: 0 <= i < |shadows| ==> shadows[i] in shadows;
    assert forall i :: 0 <= i < |lines| ==> lines[i] in lines;
    assert forall i :: 0 <= i < |markers| ==> markers[i] in markers;
    shadows + lines + markers
  }

  /** A line of the shape's colour joins a and b exactly when some edge has both ends present, at a and b. */
  lemma LineDrawnIff(s: Shape, f: real, trig: Trig, a: Pixel, b: Pixel)
    requires WellFormed(s)
    ensures Line(s.color, a, b, LineWidth) in LinesOf(s, f, trig) <==>
            exists k :: 0 <= k < |s.edges| && ProjectedPoints(s, f, trig)[s.edges[k].from] == Some(a)
                                          && ProjectedPoints(s, f, trig)[s.edges[k].to] == Some(b)
  {
    var points := ProjectedPoints(s, f, trig);
    var lines := EdgeLines(s.edges, points, s.color);
    var line := Line(s.color, a, b, LineWidth);
    PresentMembers(lines, line);
    if line in LinesOf(s, f, trig) {
      var k :| 0 <= k < |lines| && lines[k] == Some(line);
      assert points[s.edges[k].from] == Some(a) && points[s.edges[k].to] == Some(b);
    }
    if exists k :: 0 <= k < |s.edges| && points[s.edges[k].from] == Some(a) && points[s.edges[k].to] == Some(b) {
      var k :| 0 <= k < |s.edges| && points[s.edges[k].from] == Some(a) && points[s.edges[k].to] == Some(b);
      assert lines[k] == Some(line);
    }
  }

  /** A marker is drawn at c exactly when some vertex projects to c. */
  lemma MarkerDrawnIff(s: Shape, f: real, trig: Trig, c: Pixel)
    ensures Circle(MarkerColor, c, MarkerRadius) in MarkersOf(s, f, trig) <==> Some(c) in ProjectedPoints(s, f, trig)
  {
    var points := ProjectedPoints(s, f, trig);
    var markers := Markers(points);
    var dot := Circle(MarkerColor, c, MarkerRadius);
    PresentMembers(markers, dot);
    if dot in MarkersOf(s, f, trig) {
      var k :| 0 <= k < |markers| && markers[k] == Some(dot);
      assert points[k] == Some(c);
    }
    if Some(c) in points {
      var k :| 0 <= k < |points| && points[k] == Some(c);
      assert markers[k] == Some(dot);
    }
  }

  /**
   * A grey shadow polygon with these corners is drawn exactly when some face
   * of at least three corners has every shadow point present, at those corners.
   */
  lemma ShadowDrawnIff(s: Shape, f: real, trig: Trig, pts: seq<Pixel>)
    requires WellFormed(s)
    ensures Polygon(ShadowGrey, pts) in ShadowsOf(s, f, trig) <==>
            exists k :: 0 <= k < |s.faces| && |s.faces[k]| >= 3
                        && FaceOutline(s.faces[k], ShadowProjections(s, f, trig)) == Some(pts)
  {
    var shadows := ShadowProjections(s, f, trig);
    var polygons := FacePolygons(s.faces, shadows);
    var polygon := Polygon(ShadowGrey, pts);
    PresentMembers(polygons, polygon);
    if polygon in ShadowsOf(s, f, trig) {
      var k :| 0 <= k < |polygons| && polygons[k] == Some(polygon);
      assert FaceOutline(s.faces[k], shadows) == Some(pts);
    }
    if exists k :: 0 <= k < |s.faces| && |s.faces[k]| >= 3 && FaceOutline(s.faces[k], shadows) == Some(pts) {
      var k :| 0 <= k < |s.faces| && |s.faces[k]| >= 3 && FaceOutline(s.faces[k], shadows) == Some(pts);
      assert polygons[k] == Some(polygon);
    }
  }

  method RenderShape(s: Shape, f: real, trig: Trig) returns (prims: seq<Primitive>)
    requires WellFormed(s)
    ensures prims == ShapePrimitives(s, f, trig)
  {
    var points, shadows := ProjectVertices(s, f, trig);
    var polygons := DrawShadows(s.faces, shadows);
    var lines := DrawEdges(s.edges, points, s.color);
    var markers := DrawMarkers(points);
    prims := polygons + lines + markers;
  }

  ghost predicate AllWellFormed(shapes: seq<Shape>) {
    forall k :: 0 <= k < |shapes| ==> WellFormed(shapes[k])
  }

  /** The primitives of a whole frame: every shape in scene order. */
  function ScenePrimitives(shapes: seq<Shape>, f: real, trig: Trig): (r: seq<Primitive>)
    requires AllWellFormed(shapes)
    ensures forall p :: p in r ==> exists k :: 0 <= k < |shapes| && p in ShapePrimitives(shapes[k], f, trig)
    decreases |shapes|
  {
    if shapes == [] then []
    else ScenePrimitives(shapes[..|shapes| - 1], f, trig) + ShapePrimitives(shapes[|shapes| - 1], f, trig)
  }

  method RenderScene(shapes: seq<Shape>, f: real, trig: Trig) returns (prims: seq<Primitive>)
    requires AllWellFormed(shapes)
    ensures prims == ScenePrimitives(shapes, f, trig)
  {
    prims := [];
    for i := 0 to |shapes|
      invariant prims == ScenePrimitives(shapes[..i], f, trig)
    {
      var more := RenderShape(shapes[i], f, trig);
      assert shapes[..i + 1][..i] == shapes[..i];
      prims := prims + more;
    }
    assert shapes[..|shapes|] == shapes;
  }

  lemma ConcatAssoc<T>(a: seq<T>, b: seq<T>, c: seq<T>)
    ensures (a + b) + c == a + (b + c)
  {
  }

  /** Adding shapes at the end of the scene only appends their primitives: shapes are painted in list order. */
  lemma {:induction false} ScenePrimitivesAppend(front: seq<Shape>, back: seq<Shape>, f: real, trig: Trig)
    requires AllWellFormed(front) && AllWellFormed(back)
    ensures AllWellFormed(front + back)
    ensures ScenePrimitives(front + back, f, trig) == ScenePrimitives(front, f, trig) + ScenePrimitives(back, f, trig)
    decreases |back|
  {
    var whole := front + back;
    assert AllWellFormed(whole) by {
      forall k | 0 <= k < |whole|
        ensures WellFormed(whole[k])
      {
        if k >= |front| {
          assert whole[k] == back[k - |front|];
        }
      }
    }
    if back == [] {
      assert whole == front;
    } else {
      var init, last := back[..|back| - 1], back[|back| - 1];
      assert ScenePrimitives(whole, f, trig)
          == ScenePrimitives(whole[..|whole| - 1], f, trig) + ShapePrimitives(whole[|whole| - 1], f, trig);
      assert whole[..|whole| - 1] == front + init;
      assert whole[|whole| - 1] == last;
      ScenePrimitivesAppend(front, init, f, trig);
      var head := ScenePrimitives(front, f, trig);
      calc {
        ScenePrimitives(whole, f, trig);
        ScenePrimitives(front + init, f, trig) + ShapePrimitives(last, f, trig);
        (head + ScenePrimitives(init, f, trig)) + ShapePrimitives(last, f, trig);
        { ConcatAssoc(head, ScenePrimitives(init, f, trig), ShapePrimitives(last, f, trig)); }
        head + (ScenePrimitives(init, f, trig) + ShapePrimitives(last, f, trig));
        head + ScenePrimitives(back, f, trig);
      }
    }
  }

  /** An empty scene draws nothing. */
  lemma EmptySceneDrawsNothing(f: real, trig: Trig)
    ensures ScenePrimitives([], f, trig) == []
  {
  }

  /**
   * A shape whose every world point lies on or beyond the near plane is drawn
   * completely: one shadow polygon per face (all its faces having at least
   * three vertices), one line per edge between its projected endpoints and one
   * marker per vertex, each in the order the shape lists them.
   */
  lemma FullyVisibleShape(s: Shape, f: real, trig: Trig)
    requires WellFormed(s)
    requires forall k :: 0 <= k < |s.vertices| ==> WorldPoint(s, s.vertices[k], trig).z >= NearPlane
    requires forall k :: 0 <= k < |s.faces| ==> |s.faces[k]| >= 3
    ensures forall k :: 0 <= k < |s.vertices| ==> ProjectedPoints(s, f, trig)[k].Some?
    ensures |ShadowsOf(s, f, trig)| == |s.faces|
    ensures forall k :: 0 <= k < |s.faces| ==>
              ShadowsOf(s, f, trig)[k].Polygon? && |ShadowsOf(s, f, trig)[k].points| == |s.faces[k]|
    ensures |LinesOf(s, f, trig)| == |s.edges|
    ensures forall k :: 0 <= k < |s.edges| ==>
              LinesOf(s, f, trig)[k] == Line(s.color, ProjectedPoints(s, f, trig)[s.edges[k].from].value,
                                             ProjectedPoints(s, f, trig)[s.edges[k].to].value, LineWidth)
    ensures |MarkersOf(s, f, trig)| == |s.vertices|
    ensures forall k :: 0 <= k < |s.vertices| ==>
              MarkersOf(s, f, trig)[k] == Circle(MarkerColor, ProjectedPoints(s, f, trig)[k].value, MarkerRadius)
  {
    var points := ProjectedPoints(s, f, trig);
    var shadows := ShadowProjections(s, f, trig);
    assert forall k :: 0 <= k < |shadows| ==> shadows[k].Some?;
    PresentAll(FacePolygons(s.faces, shadows));
    PresentAll(EdgeLines(s.edges, points, s.color));
    PresentAll(Markers(points));
  }

  /** Every vertex of the unrotated cube lies in front of the near plane once its centre is 1.1 deep. */
  lemma CubeVerticesInFront(position: Vec3, trig: Trig)
    requires trig(0.0) == NoTurn && position.z >= 1.1
    ensures forall k :: 0 <= k < 8 ==> WorldPoint(Cube(position), Cube(position).vertices[k], trig).z >= NearPlane
  {
    var s := Cube(position);
    forall k | 0 <= k < 8
      ensures WorldPoint(s, s.vertices[k], trig).z >= NearPlane
    {
      UnrotatedWorldPoint(s, s.vertices[k], trig);
      assert s.vertices[k].z == 1.0 || s.vertices[k].z == -1.0;
    }
  }

  /**
   * The unrotated cube fully in front of the camera is drawn as exactly 6
   * shadow quadrilaterals, 12 lines and 8 markers.
   */
  lemma CubeInFrontDrawnWhole(position: Vec3, f: real, trig: Trig)
    requires trig(0.0) == NoTurn && position.z >= 1.1
    ensures |ShadowsOf(Cube(position), f, trig)| == 6
    ensures forall k :: 0 <= k < 6 ==>
              ShadowsOf(Cube(position), f, trig)[k].Polygon? && |ShadowsOf(Cube(position), f, trig)[k].points| == 4
    ensures |LinesOf(Cube(position), f, trig)| == 12
    ensures forall k :: 0 <= k < 12 ==> LinesOf(Cube(position), f, trig)[k].Line?
    ensures |MarkersOf(Cube(position), f, trig)| == 8
    ensures forall k :: 0 <= k < 8 ==> MarkersOf(Cube(position), f, trig)[k].Circle?
  {
    CubeVerticesInFront(position, trig);
    FullyVisibleShape(Cube(position), f, trig);
  }

  /**
   * End to end: the unrotated cube at (0, 0, 5) seen with f = 1 (a 90 degree
   * field of view) puts its eight corners on these exact pixels.
   */
  lemma CubeAtDepthFiveCorners(trig: Trig)
    requires trig(0.0) == NoTurn
    ensures ProjectedPoints(Cube(Vec3(0.0, 0.0, 5.0)), 1.0, trig) ==
      [Some(Pixel(325, 375)), Some(Pixel(475, 375)), Some(Pixel(475, 225)), Some(Pixel(325, 225)),
       Some(Pixel(350, 350)), Some(Pixel(450, 350)), Some(Pixel(450, 250)), Some(Pixel(350, 250))]
  {
    var s := Cube(Vec3(0.0, 0.0, 5.0));
    forall k | 0 <= k < 8
      ensures WorldPoint(s, s.vertices[k], trig) == Add(s.vertices[k], s.position)
    {
      UnrotatedWorldPoint(s, s.vertices[k], trig);
    }
    CornerPixel(-1.0, -1.0, 4.0, 325, 375);
    CornerPixel( 1.0, -1.0, 4.0, 475, 375);
    CornerPixel( 1.0,  1.0, 4.0, 475, 225);
    CornerPixel(-1.0,  1.0, 4.0, 325, 225);
    CornerPixel(-1.0, -1.0, 6.0, 350, 350);
    CornerPixel( 1.0, -1.0, 6.0, 450, 350);
    CornerPixel( 1.0,  1.0, 6.0, 450, 250);
    CornerPixel(-1.0,  1.0, 6.0, 350, 250);
  }

  lemma CornerPixel(x: real, y: real, z: real, px: int, py: int)
    requires z >= NearPlane
    requires px as real == x * AspectRatio / z * 400.0 + 400.0
    requires py as real == -(y / z) * 300.0 + 300.0
    ensures Project(Vec3(x, y, z), 1.0) == Some(Pixel(px, py))
  {
    assert PerspectiveX(Vec3(x, y, z), 1.0) == x * AspectRatio / z;
    assert PerspectiveY(Vec3(x, y, z), 1.0) == y / z;
    TruncOfInt(px);
    TruncOfInt(py);
  }
}
