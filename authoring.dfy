/**
 * Authoring a custom shape from mouse clicks: 'C' connects the last two clicks,
 * 'D' turns three or more clicks into a flat shape in the local z = 0 plane,
 * closes the outline with an edge between consecutive clicks (unless the user
 * already drew that edge, in either direction) and gives it one face spanning
 * every vertex in click order.
 */
module Authoring {
  import opened Geometry
  import opened Shapes

  /** Where a finished custom shape is placed in the world. */
  const AuthoredPosition: Vec3 := Vec3(0.0, 0.0, 7.0)

  /**
   * The 'C' key: an edge between the last two clicks, when there are two.
   * The new edge always names existing clicks.
   */
  function ConnectLast(clicks: seq<Pixel>, edges: seq<Edge>): (r: seq<Edge>)
    ensures |clicks| < 2 ==> r == edges
    ensures |clicks| >= 2 ==> r == edges + [Edge(|clicks| - 2, |clicks| - 1)]
    ensures EdgesBelow(edges, |clicks|) ==> EdgesBelow(r, |clicks|)
  {
    if |clicks| >= 2 then edges + [Edge(|clicks| - 2, |clicks| - 1)] else edges
  }

  /**
   * A click normalised into the shape's local plane: a quarter of the screen
   * width (height) is one unit, y points up, z is 0. The screen centre maps to
   * the origin.
   */
  function LocalPoint(c: Pixel): (v: Vec3)
    ensures v.z == 0.0
    ensures c == Pixel(CentreX, CentreY) ==> v == Origin
  {
    Vec3((c.x - CentreX) as real / (Width as real / 4.0),
         -((c.y - CentreY) as real) / (Height as real / 4.0),
         0.0)
  }

  /** Distinct clicks become distinct vertices. */
  lemma LocalPointInjective(a: Pixel, b: Pixel)
    requires LocalPoint(a) == LocalPoint(b)
    ensures a == b
  {
    var wq, hq := Width as real / 4.0, Height as real / 4.0;
    assert (a.x - CentreX) as real == LocalPoint(a).x * wq;
    assert (b.x - CentreX) as real == LocalPoint(b).x * wq;
    assert (a.y - CentreY) as real == -LocalPoint(a).y * hq;
    assert (b.y - CentreY) as real == -LocalPoint(b).y * hq;
  }

  /** Converts every click, in click order, into a local vertex. */
  method NormaliseClicks(clicks: seq<Pixel>) returns (vertices: seq<Vec3>)
    ensures |vertices| == |clicks|
    ensures forall k :: 0 <= k < |clicks| ==> vertices[k] == LocalPoint(clicks[k])
  {
    vertices := [];
    for i := 0 to |clicks|
      invariant |vertices| == i
      invariant forall k :: 0 <= k < i ==> vertices[k] == LocalPoint(clicks[k])
    {
      vertices := vertices + [LocalPoint(clicks[i])];
    }
  }

  /** Some edge joins a and b, in one direction or the other. */
  predicate Connected(edges: seq<Edge>, a: nat, b: nat) {
    Edge(a, b) in edges || Edge(b, a) in edges
  }

  /** Some edge joins vertex j of an n-gon to its successor. */
  predicate Joins(edges: seq<Edge>, n: nat, j: nat)
    requires j < n
  {
    Connected(edges, j, (j + 1) % n)
  }

  /** The closing edge that leaves vertex i of an n-gon. */
  function Closer(i: nat, n: nat): (e: Edge)
    requires i < n
    ensures e.from == i && e.to < n
  {
    Edge(i, (i + 1) % n)
  }

  /**
   * The closing pass from index i on: closing edge i is appended unless the
   * edges collected so far already join its two ends.
   */
  function CloseFrom(acc: seq<Edge>, n: nat, i: nat): (r: seq<Edge>)
    requires i <= n
    ensures |acc| <= |r| <= |acc| + (n - i)
    decreases n - i
  {
    if i == n then acc
    else CloseFrom(if Connected(acc, i, (i + 1) % n) then acc else acc + [Closer(i, n)], n, i + 1)
  }

  /** The user's edges with the outline of an n-gon closed: at most one edge added per vertex. */
  function CloseLoop(edges: seq<Edge>, n: nat): (r: seq<Edge>)
    ensures |edges| <= |r| <= |edges| + n
  {
    CloseFrom(edges, n, 0)
  }

  /** Appends, one vertex at a time, each closing edge that is not yet there. */
  method CloseOutline(edges: seq<Edge>, n: nat) returns (closed: seq<Edge>)
    ensures closed == CloseLoop(edges, n)
  {
    closed := edges;
    for i := 0 to n
      invariant CloseFrom(closed, n, i) == CloseLoop(edges, n)
    {
      if !Connected(closed, i, (i + 1) % n) {
        closed := closed + [Edge(i, (i + 1) % n)];
      }
    }
  }

  /** The user's edges are kept unchanged, in order, at the front. */
  lemma {:induction false} CloseFromKeepsPrefix(acc: seq<Edge>, n: nat, i: nat)
    requires i <= n
    ensures |CloseFrom(acc, n, i)| >= |acc|
    ensures CloseFrom(acc, n, i)[..|acc|] == acc
    decreases n - i
  {
    if i < n {
      var next := if Connected(acc, i, (i + 1) % n) then acc else acc + [Closer(i, n)];
      CloseFromKeepsPrefix(next, n, i + 1);
      assert next[..|acc|] == acc;
      assert CloseFrom(acc, n, i)[..|acc|] == CloseFrom(next, n, i + 1)[..|next|][..|acc|];
    }
  }

  lemma CloseLoopKeepsPrefix(edges: seq<Edge>, n: nat)
    ensures |CloseLoop(edges, n)| >= |edges|
    ensures CloseLoop(edges, n)[..|edges|] == edges
  {
    CloseFromKeepsPrefix(edges, n, 0);
  }

  /** Edges already joined stay joined: the pass only appends. */
  lemma ConnectedInPrefix(edges: seq<Edge>, longer: seq<Edge>, a: nat, b: nat)
    requires |longer| >= |edges| && longer[..|edges|] == edges
    requires Connected(edges, a, b)
    ensures Connected(longer, a, b)
  {
    if Edge(a, b) in edges {
      var k :| 0 <= k < |edges| && edges[k] == Edge(a, b);
      assert longer[k] == Edge(a, b);
    } else {
      var k :| 0 <= k < |edges| && edges[k] == Edge(b, a);
      assert longer[k] == Edge(b, a);
    }
  }

  /** After the pass from i, every consecutive pair from i on is joined. */
  lemma {:induction false} CloseFromCloses(acc: seq<Edge>, n: nat, i: nat, j: nat)
    requires i <= j < n
    ensures Connected(CloseFrom(acc, n, i), j, (j + 1) % n)
    decreases n - i
  {
    var next := if Connected(acc, i, (i + 1) % n) then acc else acc + [Closer(i, n)];
    if i < j {
      CloseFromCloses(next, n, i + 1, j);
    } else {
      assert Connected(next, i, (i + 1) % n) by {
        if !Connected(acc, i, (i + 1) % n) {
          assert next[|acc|] == Edge(i, (i + 1) % n);
        }
      }
      CloseFromKeepsPrefix(next, n, i + 1);
      ConnectedInPrefix(next, CloseFrom(next, n, i + 1), i, (i + 1) % n);
    }
  }

  /** The outline is closed: every pair (i, (i+1) % n) is joined in one direction or the other. */
  lemma CloseLoopCloses(edges: seq<Edge>, n: nat)
    ensures forall j :: 0 <= j < n ==> Joins(CloseLoop(edges, n), n, j)
  {
    forall j | 0 <= j < n
      ensures Joins(CloseLoop(edges, n), n, j)
    {
      CloseFromCloses(edges, n, 0, j);
    }
  }

  /** Closing never introduces an index out of range. */
  lemma {:induction false} CloseFromInRange(acc: seq<Edge>, n: nat, i: nat)
    requires i <= n
    requires EdgesBelow(acc, n)
    ensures EdgesBelow(CloseFrom(acc, n, i), n)
    decreases n - i
  {
    if i < n {
      var next := if Connected(acc, i, (i + 1) % n) then acc else acc + [Closer(i, n)];
      CloseFromInRange(next, n, i + 1);
    }
  }

  lemma CloseLoopInRange(edges: seq<Edge>, n: nat)
    requires EdgesBelow(edges, n)
    ensures EdgesBelow(CloseLoop(edges, n), n)
  {
    CloseFromInRange(edges, n, 0);
  }

  /** The closing edges missing from the user's edges, from index i on, in index order. */
  function MissingClosers(edges: seq<Edge>, n: nat, i: nat): (r: seq<Edge>)
    requires i <= n
    ensures |r| <= n - i
    ensures forall k :: 0 <= k < |r| ==>
              && i <= r[k].from < n && r[k] == Closer(r[k].from, n)
              && !Connected(edges, r[k].from, r[k].to)
    ensures forall k, m :: 0 <= k < m < |r| ==> r[k].from < r[m].from
    decreases n - i
  {
    if i == n then []
    else (if Connected(edges, i, (i + 1) % n) then [] else [Closer(i, n)]) + MissingClosers(edges, n, i + 1)
  }

  /** Every edge of the list is a closing edge leaving a vertex below i. */
  predicate ClosersBelow(extra: seq<Edge>, n: nat, i: nat) {
    n > 0 && forall k :: 0 <= k < |extra| ==> extra[k].from < i && extra[k].to == (extra[k].from + 1) % n
  }

  /** The successor of vertex i in an n-gon, wrapping from the last to 0. */
  lemma SuccessorMod(i: nat, n: nat)
    requires i < n
    ensures (i + 1) % n == if i + 1 < n then i + 1 else 0
  {
  }

  /** For n >= 3, a closing edge leaving a vertex below i never joins i and i + 1. */
  lemma EarlierClosersDoNotJoin(extra: seq<Edge>, n: nat, i: nat)
    requires n >= 3 && i < n
    requires ClosersBelow(extra, n, i)
    ensures !Connected(extra, i, (i + 1) % n)
  {
    var m := (i + 1) % n;
    SuccessorMod(i, n);
    SuccessorMod(0, n);
    forall k | 0 <= k < |extra|
      ensures extra[k] != Edge(i, m) && extra[k] != Edge(m, i)
    {
      var e := extra[k];
      SuccessorMod(e.from, n);
      assert e.from < i;
    }
  }

  lemma ConnectedSplit(edges: seq<Edge>, extra: seq<Edge>, a: nat, b: nat)
    ensures Connected(edges + extra, a, b) <==> Connected(edges, a, b) || Connected(extra, a, b)
  {
    assert forall e :: e in edges + extra <==> e in edges || e in extra;
  }

  lemma {:induction false} CloseFromAddsMissing(edges: seq<Edge>, extra: seq<Edge>, n: nat, i: nat)
    requires n >= 3 && i <= n
    requires ClosersBelow(extra, n, i)
    ensures CloseFrom(edges + extra, n, i) == edges + extra + MissingClosers(edges, n, i)
    decreases n - i
  {
    if i < n {
      EarlierClosersDoNotJoin(extra, n, i);
      ConnectedSplit(edges, extra, i, (i + 1) % n);
      if Connected(edges, i, (i + 1) % n) {
        CloseFromAddsMissing(edges, extra, n, i + 1);
      } else {
        var extra' := extra + [Closer(i, n)];
        assert edges + extra + [Closer(i, n)] == edges + extra';
        CloseFromAddsMissing(edges, extra', n, i + 1);
        assert edges + extra' + MissingClosers(edges, n, i + 1)
            == edges + extra + ([Closer(i, n)] + MissingClosers(edges, n, i + 1));
      }
    }
  }

  /**
   * For an outline of n >= 3 clicks the pass appends exactly the closing edges
   * that the user's edges lack, in index order: none is added when it already
   * exists in either direction, and none twice.
   */
  lemma CloseLoopAddsExactlyMissing(edges: seq<Edge>, n: nat)
    requires n >= 3
    ensures CloseLoop(edges, n) == edges + MissingClosers(edges, n, 0)
  {
    assert edges + [] == edges;
    CloseFromAddsMissing(edges, [], n, 0);
  }

  /** Three clicks with no user edges: the triangle is closed by exactly three edges. */
  lemma TriangleOutline()
    ensures CloseLoop([], 3) == [Edge(0, 1), Edge(1, 2), Edge(2, 0)]
  {
    CloseLoopAddsExactlyMissing([], 3);
    assert MissingClosers([], 3, 0) == [Edge(0, 1), Edge(1, 2), Edge(2, 0)];
  }

  /** The vertex indices 0, 1, ..., n - 1 in order. */
  function Range(n: nat): (r: seq<nat>)
    ensures |r| == n && forall k :: 0 <= k < n ==> r[k] == k
  {
    seq(n, k requires 0 <= k < n => k)
  }

  /**
   * The shape that 'D' builds from the clicks and the user's edges: one flat
   * vertex per click and a single face through all of them in click order.
   */
  function AuthoredShape(clicks: seq<Pixel>, edges: seq<Edge>): (s: Shape)
    ensures |s.vertices| == |clicks|
    ensures forall k :: 0 <= k < |clicks| ==> s.vertices[k].z == 0.0
    ensures |s.faces| == 1 && |s.faces[0]| == |clicks|
    ensures forall k :: 0 <= k < |clicks| ==> s.faces[0][k] == k
  {
    Shape(seq(|clicks|, k requires 0 <= k < |clicks| => LocalPoint(clicks[k])),
          CloseLoop(edges, |clicks|), [Range(|clicks|)], Red, AuthoredPosition, Origin)
  }

  /**
   * The authored shape has one flat vertex per click, keeps the user's edges
   * as a prefix of a closed outline, has the single face 0, ..., n - 1, sits
   * at (0, 0, 7) unrotated, and is well formed when the user's edges are.
   */
  lemma AuthoredShapeFacts(clicks: seq<Pixel>, edges: seq<Edge>)
    requires EdgesBelow(edges, |clicks|)
    ensures var s := AuthoredShape(clicks, edges);
            && |s.vertices| == |clicks|
            && (forall k :: 0 <= k < |clicks| ==> s.vertices[k] == LocalPoint(clicks[k]) && s.vertices[k].z == 0.0)
            && |s.edges| >= |edges| && s.edges[..|edges|] == edges
            && (forall j :: 0 <= j < |clicks| ==> Joins(s.edges, |clicks|, j))
            && s.faces == [Range(|clicks|)]
            && s.position == AuthoredPosition && s.rotation == Origin && s.color == Red
            && WellFormed(s)
  {
    var n := |clicks|;
    CloseLoopKeepsPrefix(edges, n);
    CloseLoopCloses(edges, n);
    CloseLoopInRange(edges, n);
  }

  /**
   * The 'D' key: nothing with fewer than three clicks, otherwise the
   * authored shape, built by normalising the clicks and closing the outline.
   */
  method Finish(clicks: seq<Pixel>, edges: seq<Edge>) returns (r: Option<Shape>)
    ensures r.None? <==> |clicks| < 3
    ensures r.Some? ==> r.value == AuthoredShape(clicks, edges)
  {
    if |clicks| < 3 {
      return None;
    }
    var vertices := NormaliseClicks(clicks);
    var closed := CloseOutline(edges, |clicks|);
    var face := Range(|clicks|);
    r := Some(Shape(vertices, closed, [face], Red, AuthoredPosition, Origin));
  }
}
