/**
 * The scene objects: a shape's topology (vertices, edges, faces), its colour
 * and its pose (world position and rotation angles), plus the two preset
 * shapes, the cube and the pyramid.
 */
module Shapes {
  import opened Geometry

  /** An edge between two vertex indices. */
  datatype Edge = Edge(from: nat, to: nat)

  datatype Color = Rgb(r: int, g: int, b: int)

  const Red: Color := Rgb(255, 0, 0)
  const Green: Color := Rgb(0, 255, 0)
  const Blue: Color := Rgb(0, 0, 255)
  /** Light grey used for shadow polygons. */
  const ShadowGrey: Color := Rgb(190, 190, 190)

  /**
   * A shape: local-space vertices, edges and faces as vertex indices, a colour,
   * a world position and one rotation angle per axis (x, y, z).
   */
  datatype Shape = Shape(vertices: seq<Vec3>, edges: seq<Edge>, faces: seq<seq<nat>>,
                         color: Color, position: Vec3, rotation: Vec3)

  const Origin: Vec3 := Vec3(0.0, 0.0, 0.0)

  /** Every index of the face is below n. */
  predicate IndicesBelow(face: seq<nat>, n: nat) {
    forall j :: 0 <= j < |face| ==> face[j] < n
  }

  predicate FacesBelow(faces: seq<seq<nat>>, n: nat) {
    forall k :: 0 <= k < |faces| ==> IndicesBelow(faces[k], n)
  }

  /** Both endpoints of every edge are below n. */
  predicate EdgesBelow(edges: seq<Edge>, n: nat) {
    forall k :: 0 <= k < |edges| ==> edges[k].from < n && edges[k].to < n
  }

  /** Every edge endpoint and every face index names a vertex. */
  predicate WellFormed(s: Shape) {
    EdgesBelow(s.edges, |s.vertices|) && FacesBelow(s.faces, |s.vertices|)
  }

  /** A new shape (blue unless a colour is given) starts at the origin with no rotation. */
  function NewShape(vertices: seq<Vec3>, edges: seq<Edge>, faces: seq<seq<nat>>, color: Color := Blue): (s: Shape)
    ensures s.position == Origin && s.rotation == Origin
    ensures s.vertices == vertices && s.edges == edges && s.faces == faces && s.color == color
  {
    Shape(vertices, edges, faces, color, Origin, Origin)
  }

  const CubeVertices: seq<Vec3> := [
    Vec3(-1.0, -1.0, -1.0), Vec3( 1.0, -1.0, -1.0), Vec3( 1.0,  1.0, -1.0), Vec3(-1.0,  1.0, -1.0),
    Vec3(-1.0, -1.0,  1.0), Vec3( 1.0, -1.0,  1.0), Vec3( 1.0,  1.0,  1.0), Vec3(-1.0,  1.0,  1.0)
  ]

  const CubeEdges: seq<Edge> := [
    Edge(0, 1), Edge(1, 2), Edge(2, 3), Edge(3, 0),
    Edge(4, 5), Edge(5, 6), Edge(6, 7), Edge(7, 4),
    Edge(0, 4), Edge(1, 5), Edge(2, 6), Edge(3, 7)
  ]

  const CubeFaces: seq<seq<nat>> := [
    [0, 1, 2, 3], [4, 5, 6, 7], [0, 1, 5, 4], [2, 3, 7, 6], [1, 2, 6, 5], [0, 3, 7, 4]
  ]

  const PyramidVertices: seq<Vec3> := [
    Vec3(-1.0, -1.0, -1.0), Vec3( 1.0, -1.0, -1.0), Vec3( 1.0, -1.0,  1.0), Vec3(-1.0, -1.0,  1.0),
    Vec3( 0.0,  1.0,  0.0)
  ]

  const PyramidEdges: seq<Edge> := [
    Edge(0, 1), Edge(1, 2), Edge(2, 3), Edge(3, 0),
    Edge(0, 4), Edge(1, 4), Edge(2, 4), Edge(3, 4)
  ]

  const PyramidFaces: seq<seq<nat>> := [
    [0, 1, 2, 3], [0, 1, 4], [1, 2, 4], [2, 3, 4], [3, 0, 4]
  ]

  /** The blue cube of the initial scene, at the given position. */
  function Cube(position: Vec3): (s: Shape)
    ensures WellFormed(s)
    ensures |s.vertices| == 8 && |s.edges| == 12 && |s.faces| == 6
    ensures forall k :: 0 <= k < |s.faces| ==> |s.faces[k]| == 4
    ensures s.position == position && s.rotation == Origin
  {
    NewShape(CubeVertices, CubeEdges, CubeFaces, Blue).(position := position)
  }

  /** The green pyramid of the initial scene, at the given position. */
  function Pyramid(position: Vec3): (s: Shape)
    ensures WellFormed(s)
    ensures |s.vertices| == 5 && |s.edges| == 8 && |s.faces| == 5
    ensures forall k :: 0 <= k < |s.faces| ==> |s.faces[k]| >= 3
    ensures s.position == position && s.rotation == Origin
  {
    NewShape(PyramidVertices, PyramidEdges, PyramidFaces, Green).(position := position)
  }
}
