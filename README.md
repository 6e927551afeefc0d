# 3D renderer — a Dafny model

This project models the core of a small interactive 3D wireframe renderer. The
scene holds a cube and a pyramid, and the user can draw new flat shapes on top of them.

It covers:

- **Projection.** A camera at the origin looks down +z. Points closer than the near
  plane (z < 0.1) are clipped. Every other point is divided by its depth, scaled to
  the 800×600 window and truncated to integer pixels, with y pointing down.
- **Rotation.** A vertex is rotated about z, then y, then x. It is then moved to the
  shape's world position.
- **Per-shape rendering.**
  - The planar shadow is each world point dropped onto the ground plane y = -1.5.
  - One grey shadow polygon is drawn per face, only when every shadow point of the
    face survives clipping and the face has at least three corners.
  - One wire line is drawn per edge whose two endpoints survive.
  - One red marker is drawn per surviving vertex.

  The result is a list of drawing primitives in the order they are painted.
- **Authoring.** In draw mode the user clicks points, and 'C' connects the last two
  clicks. 'D' (with at least three clicks) maps the clicks to a flat shape centred in
  front of the camera. It closes the outline with every missing edge between
  consecutive points and appends the shape as "Custom n". That shape becomes active
  and the scene returns to view mode.
- **Scene state.** TAB cycles the active shape. Twelve held keys turn and move the
  active shape every frame. The pyramid spins on its own while it is not the active
  shape.

Modules, one file each:

| file | module | contents |
|---|---|---|
| geometry.dfy | `Geometry` | vectors, pixels, truncation, `Project`, `Rotate` and their lemmas |
| shapes.dfy | `Shapes` | edges, colours, the `Shape` value, index well-formedness, the cube and pyramid presets |
| pipeline.dfy | `Pipeline` | world points, shadow points, the vertex projection loop |
| render.dfy | `Render` | drawing primitives, the shadow/edge/marker loops and their specification functions |
| authoring.dfy | `Authoring` | click normalisation, outline closing, the finished custom shape |
| scene.dfy | `Scenes` | the `Scene` class: event handling, held keys, auto-spin, the frame |

The scene is a class whose methods update it in place. Projection, rotation and
the primitive selection are functions. The loops over vertices, faces, edges,
clicks, closing points and shapes are methods whose `ensures` tie their results to
those functions, and the twelve held-key checks are the straight-line method
`SteeredShape`, proved equal to `Steer`. The main loop and the event loop are not loops here:
one pass of the main loop is a `Frame` call, and each queued event is one
`HandleEvent` call.

The field-of-view factor `f = 1/tan(45°)` is a parameter of the projection.
Cosine and sine are also parameters: `Trig` maps an angle to a `CosSin` pair.
So every statement here holds for any values of them. Statements about rotation
that need cos² + sin² = 1 say so through `IsUnitAngle`.

## Model

| member | source | states |
|---|---|---|
| Geometry.Trunc | 3d_renderer.py:116-117 | `int()` on a float: the integer part toward zero, i.e. the floor for non-negative and the ceiling for negative values |
| Geometry.TruncMonotone | 3d_renderer.py:116-117 | truncation never reverses the order of two values |
| Geometry.TruncOfInt | 3d_renderer.py:116-117 | truncating a whole number gives it back |
| Geometry.PerspectiveX | 3d_renderer.py:111 | with a positive field-of-view factor the perspective x has the sign of the point's x: right of the axis stays right, left stays left |
| Geometry.PerspectiveY | 3d_renderer.py:112 | with a positive field-of-view factor the perspective y has the sign of the point's y |
| Geometry.ScreenX | 3d_renderer.py:116 | the horizontal pixel: scaled by half the width, shifted to the centre, truncated (its range is `ScreenInWindow`, its order `ScreenXMonotone`) |
| Geometry.ScreenY | 3d_renderer.py:117 | the vertical pixel: scaled by half the height, flipped, shifted to the centre, truncated (range in `ScreenInWindow`, order in `ScreenYAntitone`) |
| Geometry.ScreenInWindow | 3d_renderer.py:116-117 | `ScreenX`/`ScreenY` map the visible range −1 … 1 onto [0, 800] × [0, 600]: x = −1 is column 0 and y = 1 row 0, x = 1 and y = −1 land one past the last column (800) and row (600), and every x below 1 and every y above −1 is a pixel of the 800×600 window |
| Geometry.Project | 3d_renderer.py:97-119 | a point is clipped (no pixel) exactly when its depth is below the near plane 0.1 |
| Geometry.ScreenCentre | 3d_renderer.py:116-117 | a projected coordinate of zero lands on the screen centre (400, 300) |
| Geometry.ProjectAxisToCentre | 3d_renderer.py:97-119 | any unclipped point on the viewing axis projects to the screen centre |
| Geometry.ScreenXMonotone | 3d_renderer.py:116 | the horizontal screen mapping preserves order |
| Geometry.ScreenYAntitone | 3d_renderer.py:117 | the vertical screen mapping reverses order (screen y grows downwards) |
| Geometry.PerspectiveXMonotone | 3d_renderer.py:111 | at a fixed depth the perspective divide preserves the order of x (for f > 0) |
| Geometry.PerspectiveYMonotone | 3d_renderer.py:112 | at a fixed depth the perspective divide preserves the order of y (for f > 0) |
| Geometry.ProjectMonotoneX | 3d_renderer.py:97-119 | of two unclipped points at the same depth, the one further right is never drawn further left |
| Geometry.ProjectAntitoneY | 3d_renderer.py:97-119 | of two unclipped points at the same depth, the higher one is never drawn lower on screen |
| Geometry.PerspectiveAlongRay | 3d_renderer.py:111-112 | scaling a point away from the camera leaves its perspective coordinates unchanged |
| Geometry.ProjectAlongRay | 3d_renderer.py:97-119 | every unclipped point on one ray from the camera lands on the same pixel |
| Geometry.RotateZ | 3d_renderer.py:128-133 | rotation about z keeps z |
| Geometry.RotateY | 3d_renderer.py:135-140 | rotation about y keeps y |
| Geometry.RotateX | 3d_renderer.py:142-147 | rotation about x keeps x |
| Geometry.Rotate | 3d_renderer.py:121-149 | Z then Y then X; three zero angles (cos 1, sin 0) leave the point unchanged |
| Geometry.PlanarRotationIsometry | 3d_renderer.py:131-132 | one planar rotation step with cos² + sin² = 1 keeps the squared length in its plane |
| Geometry.RotatePreservesNorm | 3d_renderer.py:121-149 | with unit cos/sin pairs the full rotation keeps the distance from the shape's origin |
| Geometry.QuarterTurnZ | 3d_renderer.py:128-133 | a quarter turn about z sends (x, y, z) to (−y, x, z) |
| Geometry.QuarterTurnX | 3d_renderer.py:142-147 | a quarter turn about x sends (x, y, z) to (x, −z, y) |
| Geometry.NoTurnY | 3d_renderer.py:135-140 | a zero angle about y is the identity |
| Geometry.RotationOrderMatters | 3d_renderer.py:121-149 | the fixed Z-then-X order is observable: quarter turns about z and x send (1,0,0) to (0,0,1), while x-then-z sends it to (0,1,0) |
| Shapes.NewShape | 3d_renderer.py:89-95 | a new shape keeps the given vertices, edges, faces and colour (blue by default) and starts at the origin with no rotation |
| Shapes.WellFormed | 3d_renderer.py:89-95 | every edge endpoint and face corner names an existing vertex, which the drawing code relies on when it indexes the vertex lists (kept by the presets, the authored shape, steering, spinning and the scene invariant) |
| Shapes.Cube | 3d_renderer.py:28-48 | the cube has 8 vertices, 12 edges, 6 four-cornered faces, all indices in range, no rotation |
| Shapes.Pyramid | 3d_renderer.py:51-69 | the pyramid has 5 vertices, 8 edges, 5 faces of at least three corners, all indices in range, no rotation |
| Pipeline.WorldPoint | 3d_renderer.py:327-337 | a vertex is rotated by the shape's three angles and then moved by its position; with no turn it is just moved |
| Pipeline.WorldPointKeepsDistance | 3d_renderer.py:327-337 | with unit cos/sin pairs a world point lies as far from the shape's position as the vertex lies from the local origin |
| Pipeline.ShadowPoint | 3d_renderer.py:345 | the shadow keeps x and z and sits on the ground plane y = −1.5; a point already on the ground is its own shadow |
| Pipeline.ShadowClippedIffPointClipped | 3d_renderer.py:343-347 | the shadow of a vertex is clipped exactly when the vertex is |
| Pipeline.UnrotatedWorldPoint | 3d_renderer.py:327-337 | with zero rotation the world point is the local vertex plus the position |
| Pipeline.ProjectedPoints | 3d_renderer.py:323-341 | one screen point (or clip) per vertex |
| Pipeline.ShadowProjections | 3d_renderer.py:324-347 | one shadow screen point (or clip) per vertex |
| Pipeline.ProjectVertices | 3d_renderer.py:323-347 | the loop builds both lists in vertex order, of equal length, and a shadow is missing exactly where its point is |
| Render.Present | 3d_renderer.py:374-380 | keeping only what is drawn never adds elements |
| Render.PresentAll | 3d_renderer.py:374-380 | when everything survives, everything is drawn, in order |
| Render.PresentNone | 3d_renderer.py:374-380 | when nothing survives, nothing is drawn |
| Render.PresentSnoc | 3d_renderer.py:366-380 | one more loop step adds exactly the element of that step when it is present |
| Render.PresentMembers | 3d_renderer.py:374-380 | a value is drawn exactly when it occurs as a surviving (non-clipped) entry |
| Render.PresentFrom | 3d_renderer.py:374-380 | everything drawn comes from a surviving entry |
| Render.FaceOutline | 3d_renderer.py:351-360 | a face has a shadow outline exactly when all its shadow points are present; the outline lists them in face order |
| Render.FacePolygon | 3d_renderer.py:351-363 | a grey shadow polygon is drawn exactly when the face has ≥ 3 corners, all present; its points follow the face |
| Render.EdgeLine | 3d_renderer.py:366-375 | a line of the shape's colour and width 2 is drawn exactly when both endpoints are present |
| Render.Marker | 3d_renderer.py:378-380 | a red radius-3 marker is drawn exactly at each present point |
| Render.FacePolygons | 3d_renderer.py:351-363 | one shadow-polygon decision per face |
| Render.EdgeLines | 3d_renderer.py:366-375 | the line decision for edge k is that edge's own `EdgeLine` |
| Render.Markers | 3d_renderer.py:378-380 | the marker decision for vertex k is that vertex's own `Marker` |
| Render.ShadowsOf | 3d_renderer.py:349-363 | at most one polygon per face; every one is grey with at least three points |
| Render.LinesOf | 3d_renderer.py:365-375 | at most one line per edge; every one has the shape's colour and width 2 |
| Render.MarkersOf | 3d_renderer.py:377-380 | at most one marker per vertex; every one is a red circle of radius 3 |
| Render.ShapePrimitives | 3d_renderer.py:323-380 | a shape's primitives are layered: no shadow after a line, no line after a marker |
| Render.LineDrawnIff | 3d_renderer.py:365-375 | a line from a to b in the shape's colour is drawn exactly when some edge has both endpoints unclipped, projecting to a and b |
| Render.MarkerDrawnIff | 3d_renderer.py:377-380 | a marker is drawn at c exactly when some vertex projects, unclipped, to c |
| Render.ShadowDrawnIff | 3d_renderer.py:349-363 | a grey polygon is drawn exactly when some face of ≥ 3 corners has that whole shadow outline |
| Render.DrawShadows | 3d_renderer.py:349-363 | the early-exit face loop draws exactly the shadow polygons of the faces whose shadows are whole |
| Render.DrawEdges | 3d_renderer.py:365-375 | the edge loop draws exactly the lines whose endpoints survive, in edge order |
| Render.DrawMarkers | 3d_renderer.py:377-380 | the vertex loop draws exactly one marker per surviving vertex, in order |
| Render.RenderShape | 3d_renderer.py:323-380 | one shape is painted as its shadows, then its edges, then its vertex markers |
| Render.RenderScene | 3d_renderer.py:320-380 | the scene is painted shape by shape, in list order |
| Render.ScenePrimitives | 3d_renderer.py:320-380 | everything painted for the scene is painted for one of its shapes |
| Render.ScenePrimitivesAppend | 3d_renderer.py:320-380 | painting two lists of shapes one after the other paints the same as painting their concatenation |
| Render.EmptySceneDrawsNothing | 3d_renderer.py:320-321 | an empty scene paints nothing |
| Render.FullyVisibleShape | 3d_renderer.py:323-380 | a shape wholly in front of the near plane draws one polygon per face, one exact line per edge and one exact marker per vertex |
| Render.CubeVerticesInFront | 3d_renderer.py:28-31 | an unrotated cube at depth ≥ 1.1 has every vertex in front of the near plane |
| Render.CubeInFrontDrawnWhole | 3d_renderer.py:323-380 | such a cube draws 6 shadow polygons of 4 points, 12 lines and 8 markers |
| Render.CubeAtDepthFiveCorners | 3d_renderer.py:97-119 | with f = 1 an unrotated cube at (0, 0, 5) has the eight corner pixels (325,375) (475,375) (475,225) (325,225) (350,350) (450,350) (450,250) (350,250) |
| Render.CornerPixel | 3d_renderer.py:111-117 | the projection with f = 1 of an unclipped point whose screen position is a whole pixel |
| Authoring.ConnectLast | 3d_renderer.py:213-217 | 'C' adds the edge between the last two clicks when there are two, else nothing; edges stay in range |
| Authoring.LocalPoint | 3d_renderer.py:225-228 | a click becomes a point on the plane z = 0; the screen centre becomes the shape's origin |
| Authoring.LocalPointInjective | 3d_renderer.py:225-228 | distinct clicks become distinct vertices |
| Authoring.NormaliseClicks | 3d_renderer.py:223-228 | the loop turns every click, in order, into its local vertex |
| Authoring.Closer | 3d_renderer.py:233-235 | the closing edge out of point i goes to a point in range |
| Authoring.CloseFrom | 3d_renderer.py:233-235 | the steps from i on add at most one edge per remaining point |
| Authoring.CloseLoop | 3d_renderer.py:231-235 | closing adds at most one edge per point |
| Authoring.MissingClosers | 3d_renderer.py:233-235 | the closers from point i on that the user's edges lack, at most one per point, in point order, each a real closer out of a point ≥ i |
| Authoring.CloseOutline | 3d_renderer.py:231-235 | the loop over the points computes the closed edge list |
| Authoring.CloseLoopKeepsPrefix | 3d_renderer.py:231-235 | closing keeps the user's edges first and unchanged |
| Authoring.CloseFromKeepsPrefix | 3d_renderer.py:233-235 | each remaining step of the closing loop only appends |
| Authoring.CloseLoopCloses | 3d_renderer.py:233-235 | after closing, every point is joined (in one direction or the other) to its successor, the last to the first |
| Authoring.CloseFromCloses | 3d_renderer.py:233-235 | the steps from i on join every point from i on to its successor |
| Authoring.CloseLoopInRange | 3d_renderer.py:231-235 | closing never creates an edge to a missing point |
| Authoring.CloseFromInRange | 3d_renderer.py:233-235 | each step of the closing loop keeps edges in range |
| Authoring.EarlierClosersDoNotJoin | 3d_renderer.py:233-235 | with ≥ 3 points, closing edges added before point i never join i to its successor |
| Authoring.CloseFromAddsMissing | 3d_renderer.py:233-235 | from step i on the loop appends exactly the closers the user's own edges lack |
| Authoring.CloseLoopAddsExactlyMissing | 3d_renderer.py:231-235 | with ≥ 3 points, closing appends exactly the consecutive edges missing in both directions, and no duplicates |
| Authoring.TriangleOutline | 3d_renderer.py:231-235 | three clicks with no edges close into (0,1), (1,2), (2,0) |
| Authoring.Range | 3d_renderer.py:237 | the single face lists the points 0 … n−1 in order |
| Authoring.AuthoredShape | 3d_renderer.py:222-241 | one vertex on z = 0 per click, and a single face listing the points 0 … n−1 in order |
| Authoring.AuthoredShapeFacts | 3d_renderer.py:222-241 | the new shape has one flat vertex per click, the user's edges first, a closed outline, a single face of all points, red, at (0, 0, 7), unrotated and well formed |
| Authoring.Finish | 3d_renderer.py:220-241 | 'D' makes a shape exactly when there are at least three clicks |
| Scenes.Nudge | 3d_renderer.py:279-304 | a held key pair moves one component by +step, −step, or not at all when both or neither are held |
| Scenes.Steer | 3d_renderer.py:278-304 | the held keys change only the pose: vertices, edges, faces and colour are kept, so well-formedness is too |
| Scenes.KeyEffect | 3d_renderer.py:278-304 | rotation keys change only the rotation, translation keys only the position |
| Scenes.SingleKeySteer | 3d_renderer.py:278-304 | holding one key changes exactly its own pose component by its own step (0.03 rad or 0.1) |
| Scenes.SteerBalanced | 3d_renderer.py:278-304 | holding no key, or every key, leaves the pose unchanged |
| Scenes.SteeredShape | 3d_renderer.py:278-304 | the twelve sequential key checks compute the combined pose change |
| Scenes.SteerActiveIn | 3d_renderer.py:275-304 | steering changes no shape but the active one and keeps the list well formed |
| Scenes.FirstIndex | 3d_renderer.py:310 | the index of the first shape with that name |
| Scenes.SpinTarget | 3d_renderer.py:309-311 | the shape to spin is the first pyramid; there is one only with more than one shape and only when the pyramid is not active |
| Scenes.PyramidSpinsWhenInactive | 3d_renderer.py:308-313 | with the initial names the pyramid (index 1) spins exactly when the active index is not 1 |
| Scenes.Spin | 3d_renderer.py:312-313 | one frame of spin raises the x and y angles, keeps z, and changes nothing else |
| Scenes.SpinIn | 3d_renderer.py:308-313 | auto-spin changes no shape but the spin target and keeps the list well formed |
| Scenes.Scene.constructor | 3d_renderer.py:158-175 | the start state: cube at (−2.5, 0, 7), pyramid at (2.5, 0, 7), cube active, view mode, nothing drawn |
| Scenes.Scene.SelectNext | 3d_renderer.py:192-195 | TAB moves to the next shape, wraps from the last to the first, and does nothing with no shapes |
| Scenes.Scene.EnterDrawMode | 3d_renderer.py:196-200 | 'M' in view mode enters draw mode with no clicks and no edges |
| Scenes.Scene.LeaveDrawMode | 3d_renderer.py:209-210 | 'M' in draw mode returns to view mode and changes nothing else |
| Scenes.Scene.AddClick | 3d_renderer.py:204-206 | a left click appends its position |
| Scenes.Scene.ConnectLastClicks | 3d_renderer.py:212-217 | 'C' connects the last two clicks |
| Scenes.Scene.FinishShape | 3d_renderer.py:219-247 | 'D' with ≥ 3 clicks appends the authored shape named "Custom n" with n = shape count − 2, makes it active and returns to view mode; otherwise nothing changes |
| Scenes.Scene.HandleEvent | 3d_renderer.py:184-247 | events only ever append shapes, never alter or drop one; in view mode they change no shape |
| Scenes.Scene.SteerActive | 3d_renderer.py:275-304 | the held keys change the active shape's pose and no other shape |
| Scenes.Scene.AutoRotate | 3d_renderer.py:306-313 | the first pyramid gains 0.01 about y and 0.005 about x, unless it is active |
| Scenes.Scene.Frame | 3d_renderer.py:249-380 | draw mode skips steering, spin and 3D rendering; view mode steers, spins, then paints every shape |

## Left out

- The window, fonts, event queue, frame clock and display flip are left out. The
  model turns the event queue into `HandleEvent` calls and the pressed-key state
  into a set of held `Control`s. Each view-mode `Frame` returns the primitives the
  pygame draw calls of the 3D rendering would receive.
- Draw-mode screen rendering is left out: the "DRAW MODE" and help text, a red
  dot of radius 5 per click (3d_renderer.py:260-261) and a blue line of width 2
  per user edge whose endpoints exist (3d_renderer.py:264-266). A draw-mode
  `Frame` returns no primitives for them. The HUD (FPS, active name, mode text)
  only paints text and is left out too. Neither changes any state.
- The QUIT event only ends the main loop. It changes nothing in the scene.
- Floating point is modelled as exact reals. `math.tan`, `math.cos` and
  `math.sin` are parameters (`f` and `Trig`). Pixel values proved in
  `CubeAtDepthFiveCorners` use exact arithmetic. IEEE rounding could move a pixel
  that lands exactly on a whole number by one.
- `FAR_PLANE` is declared in the original but never used, so it is not modelled.
- There is no depth ordering or occlusion beyond "shadows, then edges, then
  markers" per shape, in list order, which the model does capture.
- Shapes are values inside the scene's sequence rather than shared mutable
  objects. The only aliases in the original are the setup names `cube` and
  `pyramid` (3d_renderer.py:160, 164), which are never used after setup, and
  `active_shape` (3d_renderer.py:276), which is updated in place through lines
  280-304. `SteerActive` writes the steered value back into the active slot of
  the sequence, which is the effect that aliasing has.
- Shape names are modelled as `CubeName`, `PyramidName` and `CustomName(n)`, not
  strings. The model uses only name equality, in the pyramid search. The HUD
  also prints the active shape's name (3d_renderer.py:390); that text is left out
  with the rest of the HUD.
- Scenes.Scene.HandleEvent: does not list the per-event state changes in its own
  contract. Those are the contracts of the methods it dispatches to.
