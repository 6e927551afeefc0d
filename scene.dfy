/**
 * The scene and its interaction rules: the list of shapes with their display
 * names, the active shape that the keyboard controls, the view/draw mode with
 * the clicks and edges of a shape being authored, the held-key pose edits,
 * the pyramid's automatic rotation and the per-frame render.
 */
module Scenes {
  import opened Geometry
  import opened Shapes
  import opened Pipeline
  import opened Render
  import opened Authoring

  /** The display name of a shape; custom shapes are numbered. */
  datatype ShapeName = CubeName | PyramidName | CustomName(number: int)

  datatype Mode = View | Draw

  /** Keys whose press is an event. */
  datatype Key = KeyTab | KeyM | KeyC | KeyD | OtherKey

  /** The input events the scene reacts to; anything else is ignored. */
  datatype Event = KeyDown(key: Key) | MouseDown(button: int, pos: Pixel) | OtherEvent

  /** Keys that are polled every frame while held. */
  datatype Control =
    | ArrowLeft | ArrowRight | ArrowUp | ArrowDown | HoldQ | HoldE
    | HoldA | HoldD | HoldW | HoldS | HoldR | HoldF

  /** Per-frame step of a held rotation key (radians) and of a held translation key. */
  const RotationSpeed: real := 0.03
  const TranslationSpeed: real := 0.1

  /** Per-frame spin of the pyramid while it is not active, about x and about y. */
  const SpinX: real := 0.005
  const SpinY: real := 0.01

  const LeftButton: int := 1

  /** The net change of one pose component: plus its step if one key is held, minus it if the other is. */
  function Nudge(keys: set<Control>, plus: Control, minus: Control, step: real): (d: real)
    ensures plus in keys && minus !in keys ==> d == step
    ensures minus in keys && plus !in keys ==> d == -step
    ensures (plus in keys) == (minus in keys) ==> d == 0.0
  {
    (if plus in keys then step else 0.0) - (if minus in keys then step else 0.0)
  }

  /**
   * The pose of a shape after one frame with these keys held: the arrows turn
   * it about y (left/right) and x (up/down), Q/E about z; A/D move it along x,
   * R/F along y, W/S along z.
   */
  function Steer(s: Shape, keys: set<Control>): (r: Shape)
    ensures r.vertices == s.vertices && r.edges == s.edges && r.faces == s.faces && r.color == s.color
    ensures WellFormed(r) == WellFormed(s)
  {
    s.(rotation := Vec3(s.rotation.x + Nudge(keys, ArrowDown, ArrowUp, RotationSpeed),
                        s.rotation.y + Nudge(keys, ArrowRight, ArrowLeft, RotationSpeed),
                        s.rotation.z + Nudge(keys, HoldE, HoldQ, RotationSpeed)),
       position := Vec3(s.position.x + Nudge(keys, HoldD, HoldA, TranslationSpeed),
                        s.position.y + Nudge(keys, HoldR, HoldF, TranslationSpeed),
                        s.position.z + Nudge(keys, HoldW, HoldS, TranslationSpeed)))
  }

  /** What holding one key alone does: a (rotation, position) change. */
  function KeyEffect(c: Control): (r: (Vec3, Vec3))
    ensures c in {ArrowLeft, ArrowRight, ArrowUp, ArrowDown, HoldQ, HoldE} ==> r.1 == Origin
    ensures c in {HoldA, HoldD, HoldW, HoldS, HoldR, HoldF} ==> r.0 == Origin
  {
    match c
    case ArrowLeft => (Vec3(0.0, -RotationSpeed, 0.0), Origin)
    case ArrowRight => (Vec3(0.0, RotationSpeed, 0.0), Origin)
    case ArrowUp => (Vec3(-RotationSpeed, 0.0, 0.0), Origin)
    case ArrowDown => (Vec3(RotationSpeed, 0.0, 0.0), Origin)
    case HoldQ => (Vec3(0.0, 0.0, -RotationSpeed), Origin)
    case HoldE => (Vec3(0.0, 0.0, RotationSpeed), Origin)
    case HoldA => (Origin, Vec3(-TranslationSpeed, 0.0, 0.0))
    case HoldD => (Origin, Vec3(TranslationSpeed, 0.0, 0.0))
    case HoldW => (Origin, Vec3(0.0, 0.0, TranslationSpeed))
    case HoldS => (Origin, Vec3(0.0, 0.0, -TranslationSpeed))
    case HoldR => (Origin, Vec3(0.0, TranslationSpeed, 0.0))
    case HoldF => (Origin, Vec3(0.0, -TranslationSpeed, 0.0))
  }

  /**
   * A single held key changes exactly its own pose component, by its own step,
   * and leaves the geometry and every other component alone.
   */
  lemma SingleKeySteer(s: Shape, c: Control)
    ensures Steer(s, {c}) == s.(rotation := Add(s.rotation, KeyEffect(c).0),
                                position := Add(s.position, KeyEffect(c).1))
  {
    var keys := {c};
    var effect := KeyEffect(c);
    assert Nudge(keys, ArrowDown, ArrowUp, RotationSpeed) == effect.0.x;
    assert Nudge(keys, ArrowRight, ArrowLeft, RotationSpeed) == effect.0.y;
    assert Nudge(keys, HoldE, HoldQ, RotationSpeed) == effect.0.z;
    assert Nudge(keys, HoldD, HoldA, TranslationSpeed) == effect.1.x;
    assert Nudge(keys, HoldR, HoldF, TranslationSpeed) == effect.1.y;
    assert Nudge(keys, HoldW, HoldS, TranslationSpeed) == effect.1.z;
  }

  /** With no key held, or with every key held, the pose does not change. */
  lemma SteerBalanced(s: Shape)
    ensures Steer(s, {}) == s
    ensures Steer(s, {ArrowLeft, ArrowRight, ArrowUp, ArrowDown, HoldQ, HoldE,
                      HoldA, HoldD, HoldW, HoldS, HoldR, HoldF}) == s
  {
  }

  /** The shapes with the active one steered; an empty list is left alone. */
  function SteerActiveIn(shapes: seq<Shape>, active: nat, keys: set<Control>): (r: seq<Shape>)
    requires |shapes| > 0 ==> active < |shapes|
    ensures |r| == |shapes|
    ensures forall k :: 0 <= k < |r| && k != active ==> r[k] == shapes[k]
    ensures AllWellFormed(shapes) ==> AllWellFormed(r)
  {
    if |shapes| == 0 then shapes else shapes[active := Steer(shapes[active], keys)]
  }

  /** The index of the first shape with the given name. */
  function FirstIndex(names: seq<ShapeName>, name: ShapeName): (i: nat)
    requires name in names
    ensures i < |names| && names[i] == name
    ensures forall j :: 0 <= j < i ==> names[j] != name
  {
    if names[0] == name then 0 else 1 + FirstIndex(names[1..], name)
  }

  /**
   * Which shape spins this frame: the first shape named Pyramid, when there
   * is more than one shape and it is not the active one.
   */
  function SpinTarget(names: seq<ShapeName>, active: nat): (r: Option<nat>)
    ensures r.Some? ==> |names| > 1 && r.value < |names| && names[r.value] == PyramidName && r.value != active
    ensures r.Some? ==> forall j :: 0 <= j < r.value ==> names[j] != PyramidName
    ensures r.None? ==> |names| <= 1 || PyramidName !in names || FirstIndex(names, PyramidName) == active
  {
    if |names| > 1 && PyramidName in names then
      var i := FirstIndex(names, PyramidName);
      if active != i then Some(i) else None
    else None
  }

  /** In the initial naming (cube, then pyramid) the pyramid spins exactly while it is not active. */
  lemma PyramidSpinsWhenInactive(names: seq<ShapeName>, active: nat)
    requires |names| >= 2 && names[0] == CubeName && names[1] == PyramidName
    ensures SpinTarget(names, active) == if active != 1 then Some(1) else None
  {
    assert FirstIndex(names, PyramidName) == 1;
  }

  /** One frame of spin: x grows by 0.005 and y by 0.01; nothing else changes. */
  function Spin(s: Shape): (r: Shape)
    ensures r == s.(rotation := r.rotation)
    ensures r.rotation.x > s.rotation.x && r.rotation.y > s.rotation.y && r.rotation.z == s.rotation.z
  {
    s.(rotation := Vec3(s.rotation.x + SpinX, s.rotation.y + SpinY, s.rotation.z))
  }

  /** The shapes after the automatic spin of this frame. */
  function SpinIn(shapes: seq<Shape>, names: seq<ShapeName>, active: nat): (r: seq<Shape>)
    requires |names| == |shapes|
    ensures |r| == |shapes|
    ensures forall k :: 0 <= k < |r| && SpinTarget(names, active) != Some(k) ==> r[k] == shapes[k]
    ensures AllWellFormed(shapes) ==> AllWellFormed(r)
  {
    match SpinTarget(names, active)
    case Some(i) => shapes[i := Spin(shapes[i])]
    case None => shapes
  }

  /** Applies the held keys to one shape's pose in the order they are polled. */
  method SteeredShape(s: Shape, keys: set<Control>) returns (t: Shape)
    ensures t == Steer(s, keys)
  {
    var rx, ry, rz := s.rotation.x, s.rotation.y, s.rotation.z;
    var px, py, pz := s.position.x, s.position.y, s.position.z;
    if ArrowLeft in keys { ry := ry - RotationSpeed; }
    if ArrowRight in keys { ry := ry + RotationSpeed; }
    if ArrowUp in keys { rx := rx - RotationSpeed; }
    if ArrowDown in keys { rx := rx + RotationSpeed; }
    if HoldQ in keys { rz := rz - RotationSpeed; }
    if HoldE in keys { rz := rz + RotationSpeed; }
    if HoldA in keys { px := px - TranslationSpeed; }
    if HoldD in keys { px := px + TranslationSpeed; }
    if HoldW in keys { pz := pz + TranslationSpeed; }
    if HoldS in keys { pz := pz - TranslationSpeed; }
    if HoldR in keys { py := py + TranslationSpeed; }
    if HoldF in keys { py := py - TranslationSpeed; }
    t := s.(rotation := Vec3(rx, ry, rz), position := Vec3(px, py, pz));
  }

  class Scene {
    var shapes: seq<Shape>
    var names: seq<ShapeName>
    var active: nat
    var mode: Mode
    /** Draw mode: the clicks so far and the edges connected with 'C'. */
    var clicks: seq<Pixel>
    var drawEdges: seq<Edge>

    ghost predicate Valid()
      reads this
    {
      && |names| == |shapes|
      && (|shapes| > 0 ==> active < |shapes|)
      && AllWellFormed(shapes)
      && EdgesBelow(drawEdges, |clicks|)
    }

    /** The initial scene: the cube on the left and the pyramid on the right, the cube active. */
    constructor ()
      ensures Valid()
      ensures shapes == [Cube(Vec3(-2.5, 0.0, 7.0)), Pyramid(Vec3(2.5, 0.0, 7.0))]
      ensures names == [CubeName, PyramidName]
      ensures active == 0 && mode == View && clicks == [] && drawEdges == []
    {
      shapes := [Cube(Vec3(-2.5, 0.0, 7.0)), Pyramid(Vec3(2.5, 0.0, 7.0))];
      names := [CubeName, PyramidName];
      active := 0;
      mode := View;
      clicks := [];
      drawEdges := [];
    }

    /** TAB: the next shape becomes active, wrapping from the last to the first. */
    method SelectNext()
      requires Valid()
      modifies this`active
      ensures Valid()
      ensures |shapes| == 0 ==> active == old(active)
      ensures |shapes| > 0 && old(active) + 1 < |shapes| ==> active == old(active) + 1
      ensures |shapes| > 0 && old(active) + 1 == |shapes| ==> active == 0
    {
      if |shapes| > 0 {
        active := (active + 1) % |shapes|;
      }
    }

    /** 'M' in view mode: start authoring with no clicks and no edges. */
    method EnterDrawMode()
      requires Valid()
      modifies this`mode, this`clicks, this`drawEdges
      ensures Valid()
      ensures mode == Draw && clicks == [] && drawEdges == []
    {
      mode := Draw;
      clicks := [];
      drawEdges := [];
    }

    /** 'M' in draw mode: back to view mode; the clicks are kept until the next 'M' from view. */
    method LeaveDrawMode()
      requires Valid()
      modifies this`mode
      ensures Valid()
      ensures mode == View
    {
      mode := View;
    }

    /** A left click in draw mode adds a point. */
    method AddClick(pos: Pixel)
      requires Valid()
      modifies this`clicks
      ensures Valid()
      ensures clicks == old(clicks) + [pos]
    {
      clicks := clicks + [pos];
    }

    /** 'C' in draw mode: connect the last two clicks. */
    method ConnectLastClicks()
      requires Valid()
      modifies this`drawEdges
      ensures Valid()
      ensures drawEdges == ConnectLast(clicks, old(drawEdges))
    {
      if |clicks| >= 2 {
        drawEdges := drawEdges + [Edge(|clicks| - 2, |clicks| - 1)];
      }
    }

    /**
     * 'D' in draw mode: with fewer than three clicks nothing happens; otherwise
     * the authored shape is appended as "Custom n", becomes active, and the
     * scene returns to view mode.
     */
    method FinishShape()
      requires Valid()
      modifies this`shapes, this`names, this`active, this`mode
      ensures Valid()
      ensures |clicks| < 3 ==>
                shapes == old(shapes) && names == old(names) && active == old(active) && mode == old(mode)
      ensures |clicks| >= 3 ==>
                && shapes == old(shapes) + [AuthoredShape(clicks, drawEdges)]
                && names == old(names) + [CustomName(|shapes| - 2)]
                && active == |shapes| - 1
                && mode == View
    {
      var made := Finish(clicks, drawEdges);
      if made.Some? {
        AuthoredShapeFacts(clicks, drawEdges);
        shapes := shapes + [made.value];
        names := names + [CustomName(|shapes| - 2)];
        active := |shapes| - 1;
        mode := View;
      }
    }

    /**
     * One input event, dispatched on the mode. Events never remove or alter an
     * existing shape; they can only append one.
     */
    method HandleEvent(e: Event)
      requires Valid()
      modifies this
      ensures Valid()
      ensures |shapes| >= |old(shapes)| && shapes[..|old(shapes)|] == old(shapes)
      ensures old(mode) == View ==> shapes == old(shapes)
    {
      if mode == View {
        match e
        case KeyDown(KeyTab) => SelectNext();
        case KeyDown(KeyM) => EnterDrawMode();
        case _ =>
      } else {
        match e
        case MouseDown(button, pos) =>
          if button == LeftButton {
            AddClick(pos);
          }
        case KeyDown(KeyM) => LeaveDrawMode();
        case KeyDown(KeyC) => ConnectLastClicks();
        case KeyDown(KeyD) => FinishShape();
        case _ =>
      }
    }

    /** The held keys edit the active shape's pose, one key at a time. */
    method SteerActive(keys: set<Control>)
      requires Valid()
      modifies this`shapes
      ensures Valid()
      ensures shapes == SteerActiveIn(old(shapes), active, keys)
    {
      if |shapes| > 0 {
        var s := SteeredShape(shapes[active], keys);
        shapes := shapes[active := s];
      }
    }

    /** The pyramid spins a little every frame, unless it is the active shape. */
    method AutoRotate()
      requires Valid()
      modifies this`shapes
      ensures Valid()
      ensures shapes == SpinIn(old(shapes), names, active)
    {
      if |shapes| > 1 && PyramidName in names {
        var i := FirstIndex(names, PyramidName);
        if active != i {
          var s := shapes[i];
          s := s.(rotation := s.rotation.(y := s.rotation.y + SpinY));
          s := s.(rotation := s.rotation.(x := s.rotation.x + SpinX));
          shapes := shapes[i := s];
        }
      }
    }

    /**
     * One frame after the events: in view mode the held keys steer the active
     * shape, the pyramid spins, and every shape is rendered; draw mode skips
     * all of it.
     */
    method Frame(keys: set<Control>, f: real, trig: Trig) returns (prims: seq<Primitive>)
      requires Valid()
      modifies this`shapes
      ensures Valid()
      ensures mode == Draw ==> shapes == old(shapes) && prims == []
      ensures mode == View ==> shapes == SpinIn(SteerActiveIn(old(shapes), active, keys), names, active)
      ensures mode == View ==> prims == ScenePrimitives(shapes, f, trig)
    {
      if mode == Draw {
        return [];
      }
      SteerActive(keys);
      AutoRotate();
      prims := RenderScene(shapes, f, trig);
    }
  }
}
