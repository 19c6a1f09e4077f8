/**
 * One frame of drawing (render.js, FlatBuildings.js, Shadows.js): which
 * items each pass draws and what it draws for them. Canvas calls become
 * values: wall quadrilaterals and roof rings for the extrusion pass, path
 * commands for the flat and shadow passes.
 */
module Render {
  import opened Wrappers
  import opened Js
  import opened Items
  import Colors
  import Scene
  import DataLayer

  /** FlatBuildings.MAX_HEIGHT: items up to this height are drawn flat. */
  const FlatMaxHeight: int := 8

  /** The view values a frame reads. */
  datatype Camera = Camera(
    originX: int, originY: int, width: int, height: int,
    camX: int, camY: int, zoom: int, minZoom: int, isZooming: bool,
    wallColor: Colors.Color)

  /** The camera of a view. */
  function CameraOf(v: Scene.View): (c: Camera)
    reads v
    ensures c.originX == v.originX && c.originY == v.originY && c.camX == v.camX && c.camY == v.camY
  {
    Camera(v.originX, v.originY, v.width, v.height, v.camX, v.camY, v.zoom, v.minZoom, v.isZooming, v.wallColorAlpha)
  }

  /** Every pass draws nothing below `minZoom` or while zooming. */
  predicate Hidden(cam: Camera)
  {
    cam.zoom < cam.minZoom || cam.isZooming
  }

  /** A path command. */
  datatype Cmd = MoveTo(x: real, y: real) | LineTo(x: real, y: real) | ClosePath

  // ---------------------------------------------------------------------------
  // Visibility

  /** A point strictly inside the viewport, in world pixels. */
  predicate Inside(x: int, y: int, cam: Camera)
  {
    cam.originX < x < cam.originX + cam.width && cam.originY < y < cam.originY + cam.height
  }

  /** Some vertex of the footprint lies strictly inside the viewport. */
  predicate Visible(fp: seq<int>, cam: Camera)
  {
    exists k :: 0 <= k < |fp| / 2 && Inside(fp[2 * k], fp[2 * k + 1], cam)
  }

  /** The visibility loop of `render`. */
  method IsVisible(fp: seq<int>, cam: Camera) returns (v: bool)
    ensures v == Visible(fp, cam)
  {
    v := false;
    var j := 0;
    while j < |fp| - 1
      invariant 0 <= j <= |fp| && j % 2 == 0
      invariant v <==> exists k :: 0 <= k < j / 2 && Inside(fp[2 * k], fp[2 * k + 1], cam)
    {
      if !v {
        v := cam.originX < fp[j] < cam.originX + cam.width && cam.originY < fp[j + 1] < cam.originY + cam.height;
        assert v ==> Inside(fp[2 * (j / 2)], fp[2 * (j / 2) + 1], cam);
      }
      j := j + 2;
    }
    assert j / 2 == |fp| / 2;
  }

  /** A footprint in viewport coordinates, as the flat and shadow passes copy it. */
  function Shifted(fp: seq<int>, cam: Camera): (r: seq<int>)
    ensures |r| == |fp|
  {
    seq(|fp|, k requires 0 <= k < |fp| => if k % 2 == 0 then fp[k] - cam.originX else fp[k] - cam.originY)
  }

  /**
   * The copy-and-test loop of the flat and shadow passes: their test in
   * viewport coordinates is the same as `render`'s in world pixels.
   */
  method ShiftFootprint(f: seq<int>, cam: Camera) returns (fp: seq<int>, v: bool)
    requires |f| % 2 == 0
    ensures fp == Shifted(f, cam)
    ensures v == Visible(f, cam)
  {
    fp := [];
    v := false;
    var j := 0;
    while j < |f| - 1
      invariant 0 <= j <= |f| && j % 2 == 0
      invariant fp == Shifted(f, cam)[..j]
      invariant v <==> exists k :: 0 <= k < j / 2 && Inside(f[2 * k], f[2 * k + 1], cam)
    {
      var x := f[j] - cam.originX;
      var y := f[j + 1] - cam.originY;
      fp := fp + [x, y];
      if !v {
        v := x > 0 && x < cam.width && y > 0 && y < cam.height;
        assert v ==> Inside(f[2 * (j / 2)], f[2 * (j / 2) + 1], cam);
      }
      j := j + 2;
    }
    assert fp == Shifted(f, cam)[..j];
  }

  // ---------------------------------------------------------------------------
  // The extrusion pass: `render` and `renderPolygon`

  /** The faded height: `scale < 1 ? h * scale : h`, with the scale in tenths. */
  function Faded(h: int, scale: nat): real
  {
    if scale < DataLayer.Full then h as real * scale as real / 10.0 else h as real
  }

  /** A faded height stays below the camera when the height does. */
  lemma FadedBelow(h: int, scale: nat)
    requires h < Scene.CamZ && scale <= DataLayer.Full
    ensures Faded(h, scale) < Scene.CamZ as real
  {
    if scale < DataLayer.Full {
      var d := (10 - scale) as real;
      assert h as real * 10.0 == h as real * scale as real + h as real * d;
      if h >= 0 {
        assert h as real * d >= 0.0;
      } else {
        assert h as real * scale as real <= 0.0;
      }
    }
  }

  /** `camZ / (camZ - h)`: how much farther from the camera a point at height `h` is drawn. */
  function HeightFactor(h: real): real
    requires h < Scene.CamZ as real
  {
    Scene.CamZ as real / (Scene.CamZ as real - h)
  }

  /** A point on the ground is drawn where it is. */
  lemma GroundFactor()
    ensures HeightFactor(0.0) == 1.0
  {
  }

  /** `project(x, y, m)`: scaled away from the camera, truncated and wrapped to 32 bits. */
  function Project(x: int, y: int, m: real, cam: Camera): (int, int)
  {
    (ToInt32((x - cam.camX) as real * m + cam.camX as real), ToInt32((y - cam.camY) as real * m + cam.camY as real))
  }

  /** A whole number truncates to itself. */
  lemma TruncWhole(n: int)
    ensures Trunc(n as real) == n
  {
  }

  /**
   * With factor 1 a point stays put up to the 32-bit wrap, and so does the
   * camera point whatever the factor.
   */
  lemma ProjectFixed(x: int, y: int, m: real, cam: Camera)
    ensures Project(x, y, 1.0, cam) == (Int32(x), Int32(y))
    ensures Project(cam.camX, cam.camY, m, cam) == (Int32(cam.camX), Int32(cam.camY))
  {
    assert (x - cam.camX) as real * 1.0 + cam.camX as real == x as real;
    assert (y - cam.camY) as real * 1.0 + cam.camY as real == y as real;
    TruncWhole(x);
    TruncWhole(y);
    assert (cam.camX - cam.camX) as real * m + cam.camX as real == cam.camX as real;
    assert (cam.camY - cam.camY) as real * m + cam.camY as real == cam.camY as real;
    TruncWhole(cam.camX);
    TruncWhole(cam.camY);
  }

  /** Vertex `k` of a ring, in viewport coordinates. */
  function Vertex(p: seq<int>, k: nat, cam: Camera): (int, int)
    requires 2 * k + 1 < |p|
  {
    (p[2 * k] - cam.originX, p[2 * k + 1] - cam.originY)
  }

  /** A wall quadrilateral, shaded with the alternative colour or the wall colour. */
  datatype Wall = Wall(alt: bool, quad: seq<int>)

  /** The wall of edge `k`, when the backface test lets it through. */
  function EdgeWall(p: seq<int>, k: nat, h: real, mh: real, cam: Camera): Option<Wall>
    requires 2 * k + 3 < |p|
  {
    var (xa, ya) := Vertex(p, k, cam);
    var (xb, yb) := Vertex(p, k + 1, cam);
    var ta := Project(xa, ya, h, cam);
    var tb := Project(xb, yb, h, cam);
    var a := if mh != 0.0 then Project(xa, ya, mh, cam) else (xa, ya);
    var b := if mh != 0.0 then Project(xb, yb, mh, cam) else (xb, yb);
    if (b.0 - a.0) * (ta.1 - a.1) > (ta.0 - a.0) * (b.1 - a.1) then
      var alt := (a.0 < b.0 && a.1 < b.1) || (a.0 > b.0 && a.1 > b.1);
      Some(Wall(alt, [b.0, b.1, a.0, a.1, ta.0, ta.1, tb.0, tb.1]))
    else None
  }

  /** The walls of the first `n` edges, in order. */
  function WallsOf(p: seq<int>, n: nat, h: real, mh: real, cam: Camera): seq<Wall>
    requires 2 * n + 1 < |p| || n == 0
  {
    if n == 0 then []
    else WallsOf(p, n - 1, h, mh, cam) + match EdgeWall(p, n - 1, h, mh, cam) { case Some(w) => [w] case None => [] }
  }

  /** The number of edges `renderPolygon` visits. */
  function Edges(p: seq<int>): (n: nat)
    requires |p| % 2 == 0
    ensures 2 * n + 1 < |p| || n == 0
  {
    if |p| < 4 then 0 else |p| / 2 - 1
  }

  /** Vertex `k` raised by the factor `h`: the roof point above it. */
  function Top(p: seq<int>, k: nat, h: real, cam: Camera): (int, int)
    requires 2 * k + 1 < |p|
  {
    Project(Vertex(p, k, cam).0, Vertex(p, k, cam).1, h, cam)
  }

  /** The roof points above the first `n` vertices, as a flat list of coordinates. */
  function RoofPoints(p: seq<int>, n: nat, h: real, cam: Camera): (r: seq<int>)
    requires 2 * n <= |p|
  {
    if n == 0 then [] else RoofPoints(p, n - 1, h, cam) + [Top(p, n - 1, h, cam).0, Top(p, n - 1, h, cam).1]
  }

  /** The roof `renderPolygon` returns: the top of every vertex but the last. */
  function RoofOf(p: seq<int>, h: real, cam: Camera): seq<int>
    requires |p| % 2 == 0
  {
    RoofPoints(p, Edges(p), h, cam)
  }

  /** The roof lists the top of each vertex in turn, one vertex fewer than the ring. */
  lemma {:induction false} RoofPointsAt(p: seq<int>, n: nat, h: real, cam: Camera)
    requires 2 * n <= |p|
    ensures |RoofPoints(p, n, h, cam)| == 2 * n
    ensures forall k :: 0 <= k < n ==>
      RoofPoints(p, n, h, cam)[2 * k] == Top(p, k, h, cam).0 && RoofPoints(p, n, h, cam)[2 * k + 1] == Top(p, k, h, cam).1
  {
    if n > 0 {
      RoofPointsAt(p, n - 1, h, cam);
    }
  }

  lemma RoofLength(p: seq<int>, h: real, cam: Camera)
    requires |p| % 2 == 0
    ensures |p| >= 4 ==> |RoofOf(p, h, cam)| == |p| - 2
    ensures |p| < 4 ==> RoofOf(p, h, cam) == []
  {
    RoofPointsAt(p, Edges(p), h, cam);
  }

  /** One step of `renderPolygon`: the wall of edge `k`, if it faces the camera, and the roof point above its start. */
  method RenderEdge(p: seq<int>, i: nat, ghost k: nat, h: real, mh: real, cam: Camera) returns (wall: Option<Wall>, top: (int, int))
    requires i == 2 * k && i + 3 < |p|
    ensures wall == EdgeWall(p, k, h, mh, cam)
    ensures top == Top(p, k, h, cam)
  {
    var a := (p[i] - cam.originX, p[i + 1] - cam.originY);
    var b := (p[i + 2] - cam.originX, p[i + 3] - cam.originY);
    assert a == Vertex(p, k, cam) && b == Vertex(p, k + 1, cam);
    var ta := Project(a.0, a.1, h, cam);
    var tb := Project(b.0, b.1, h, cam);
    if mh != 0.0 {
      a := Project(a.0, a.1, mh, cam);
      b := Project(b.0, b.1, mh, cam);
    }
    wall := None;
    if (b.0 - a.0) * (ta.1 - a.1) > (ta.0 - a.0) * (b.1 - a.1) {
      var alt := (a.0 < b.0 && a.1 < b.1) || (a.0 > b.0 && a.1 > b.1);
      wall := Some(Wall(alt, [b.0, b.1, a.0, a.1, ta.0, ta.1, tb.0, tb.1]));
    }
    top := ta;
  }

  /** `renderPolygon(polygon, h, mh, ...)`: the walls drawn, and the roof returned. */
  method RenderPolygon(p: seq<int>, h: real, mh: real, cam: Camera) returns (walls: seq<Wall>, roof: seq<int>)
    requires |p| % 2 == 0
    ensures walls == WallsOf(p, Edges(p), h, mh, cam)
    ensures roof == RoofOf(p, h, cam)
  {
    walls := [];
    roof := [];
    var i := 0;
    ghost var k := 0;
    while i < |p| - 3
      invariant i == 2 * k && k <= Edges(p)
      invariant walls == WallsOf(p, k, h, mh, cam)
      invariant roof == RoofPoints(p, k, h, cam)
    {
      var wall, top := RenderEdge(p, i, k, h, mh, cam);
      if wall.Some? {
        walls := walls + [wall.value];
      }
      roof := roof + [top.0, top.1];
      i, k := i + 2, k + 1;
    }
    assert k == Edges(p);
  }

  /**
   * On the ground (factor 1, no minimum height) no wall faces the camera,
   * and the roof is the ring itself, in viewport coordinates, less its last
   * vertex.
   */
  lemma {:induction false} GroundHasNoWalls(p: seq<int>, n: nat, cam: Camera)
    requires 2 * n + 1 < |p| || n == 0
    requires AllInt32(Shifted(p, cam))
    ensures WallsOf(p, n, 1.0, 0.0, cam) == []
  {
    if n > 0 {
      GroundHasNoWalls(p, n - 1, cam);
      GroundEdge(p, n - 1, cam);
    }
  }

  /**
   * On the ground an edge's top is its base, so the backface test fails (for
   * viewport coordinates that `<<0` leaves alone).
   */
  lemma GroundEdge(p: seq<int>, k: nat, cam: Camera)
    requires 2 * k + 3 < |p|
    requires AllInt32(Shifted(p, cam))
    ensures EdgeWall(p, k, 1.0, 0.0, cam) == None
  {
    var s := Shifted(p, cam);
    var (xa, ya) := Vertex(p, k, cam);
    var (xb, yb) := Vertex(p, k + 1, cam);
    assert (xa, ya) == (s[2 * k], s[2 * k + 1]) && (xb, yb) == (s[2 * k + 2], s[2 * k + 3]);
    ProjectFixed(xa, ya, 1.0, cam);
    ProjectFixed(xb, yb, 1.0, cam);
    assert Project(xa, ya, 1.0, cam) == (xa, ya);
    assert (xb - xa) * (ya - ya) == 0 && (xa - xa) * (yb - ya) == 0;
  }

  lemma {:induction false} GroundRoofPoints(p: seq<int>, n: nat, cam: Camera)
    requires 2 * n <= |p|
    requires AllInt32(Shifted(p, cam))
    ensures RoofPoints(p, n, 1.0, cam) == Shifted(p, cam)[..2 * n]
  {
    if n > 0 {
      GroundRoofPoints(p, n - 1, cam);
      var k := n - 1;
      GroundTop(p, k, cam);
      RoofPointsStep(p, n, 1.0, cam);
      PairPrefix(Shifted(p, cam), k);
      assert 2 * n == 2 * k + 2;
    }
  }

  /** On the ground the top of a vertex is the vertex, in viewport coordinates. */
  lemma GroundTop(p: seq<int>, k: nat, cam: Camera)
    requires 2 * k + 1 < |p|
    requires AllInt32(Shifted(p, cam))
    ensures Top(p, k, 1.0, cam) == (Shifted(p, cam)[2 * k], Shifted(p, cam)[2 * k + 1])
  {
    var s := Shifted(p, cam);
    var (x, y) := Vertex(p, k, cam);
    assert x == s[2 * k] && y == s[2 * k + 1];
    ProjectFixed(x, y, 1.0, cam);
  }

  lemma RoofPointsStep(p: seq<int>, n: nat, h: real, cam: Camera)
    requires 0 < n && 2 * n <= |p|
    ensures RoofPoints(p, n, h, cam) == RoofPoints(p, n - 1, h, cam) + [Top(p, n - 1, h, cam).0, Top(p, n - 1, h, cam).1]
  {
  }

  lemma PairPrefix(s: seq<int>, k: nat)
    requires 2 * k + 2 <= |s|
    ensures s[..2 * k + 2] == s[..2 * k] + [s[2 * k], s[2 * k + 1]]
  {
  }

  lemma GroundRoof(p: seq<int>, cam: Camera)
    requires |p| % 2 == 0 && |p| >= 4
    requires AllInt32(Shifted(p, cam))
    ensures RoofOf(p, 1.0, cam) == Shifted(p, cam)[..|p| - 2]
  {
    GroundRoofPoints(p, Edges(p), cam);
  }

  /** What the extrusion pass draws for one item. */
  datatype Drawn = Drawn(
    id: Key, walls: seq<Wall>, roof: seq<int>, holes: seq<seq<int>>,
    wallColor: Colors.Color, roofColor: Option<Colors.Color>)

  /** Footprints and holes of pixel pairs, and heights below the camera. */
  predicate DrawableItem(s: DataLayer.Shown)
  {
    && |s.item.footprint| % 2 == 0
    && (forall j :: 0 <= j < |s.item.holes| ==> |s.item.holes[j]| % 2 == 0)
    && s.item.height < Scene.CamZ && s.item.minHeight < Scene.CamZ
    && s.scale <= DataLayer.Full
  }

  predicate Drawable(items: seq<DataLayer.Shown>)
  {
    forall i :: 0 <= i < |items| ==> DrawableItem(items[i])
  }

  /**
   * What the data layer scales is drawable whenever `maxHeight` is below the
   * camera, as `setSize` makes it (`camZ - 50`), whatever the fade.
   */
  lemma ScaledDrawable(b: Building, f: DataLayer.Frame, scale: nat)
    requires DataLayer.PairedItem(b) && DataLayer.ScaleItem(b, f).Some?
    requires f.maxHeight < Scene.CamZ && scale <= DataLayer.Full
    ensures DrawableItem(DataLayer.Shown(DataLayer.ScaleItem(b, f).value, scale))
  {
    DataLayer.ScaleItemRule(b, f);
  }

  /** The height factors of an item: `_h`, and `_mh`, which is 0 when it has no minimum height. */
  function Factors(s: DataLayer.Shown): (real, real)
    requires DrawableItem(s)
  {
    FadedBelow(s.item.height, s.scale);
    var h := HeightFactor(Faded(s.item.height, s.scale));
    var mh := if s.item.minHeight != 0 then
      FadedBelow(s.item.minHeight, s.scale);
      HeightFactor(Faded(s.item.minHeight, s.scale))
    else 0.0;
    (h, mh)
  }

  /** The walls of the holes, one list after the other. */
  function HoleWalls(holes: seq<seq<int>>, n: nat, h: real, mh: real, cam: Camera): seq<Wall>
    requires n <= |holes| && forall j :: 0 <= j < |holes| ==> |holes[j]| % 2 == 0
  {
    if n == 0 then []
    else HoleWalls(holes, n - 1, h, mh, cam) + WallsOf(holes[n - 1], Edges(holes[n - 1]), h, mh, cam)
  }

  /** The roofs of the first `n` holes. */
  function HoleRoofs(holes: seq<seq<int>>, n: nat, h: real, cam: Camera): seq<seq<int>>
    requires n <= |holes| && forall j :: 0 <= j < |holes| ==> |holes[j]| % 2 == 0
  {
    if n == 0 then [] else HoleRoofs(holes, n - 1, h, cam) + [RoofOf(holes[n - 1], h, cam)]
  }

  /** The roofs of the holes are the holes' own roofs, one per hole, in order. */
  lemma {:induction false} HoleRoofsAt(holes: seq<seq<int>>, n: nat, h: real, cam: Camera)
    requires n <= |holes| && forall j :: 0 <= j < |holes| ==> |holes[j]| % 2 == 0
    ensures |HoleRoofs(holes, n, h, cam)| == n
    ensures forall k :: 0 <= k < n ==> HoleRoofs(holes, n, h, cam)[k] == RoofOf(holes[k], h, cam)
  {
    if n > 0 {
      HoleRoofsAt(holes, n - 1, h, cam);
    }
  }

  /** One item of the extrusion pass. */
  function Draw(s: DataLayer.Shown, cam: Camera): Drawn
    requires DrawableItem(s)
  {
    var (h, mh) := Factors(s);
    var fp := s.item.footprint;
    var holes := s.item.holes;
    Drawn(
      s.item.id,
      WallsOf(fp, Edges(fp), h, mh, cam) + HoleWalls(holes, |holes|, h, mh, cam),
      RoofOf(fp, h, cam),
      HoleRoofs(holes, |holes|, h, cam),
      if s.item.wallColor.Some? then s.item.wallColor.value else cam.wallColor,
      s.item.roofColor)
  }

  /**
   * An item that has just arrived (scale 0) is drawn flat: no walls, and its
   * footprint as the roof, when its viewport coordinates fit in 32 bits.
   */
  lemma FreshItemFlat(s: DataLayer.Shown, cam: Camera)
    requires DrawableItem(s) && s.scale == 0 && s.item.minHeight == 0 && s.item.holes == []
    requires |s.item.footprint| >= 4
    requires AllInt32(Shifted(s.item.footprint, cam))
    ensures Draw(s, cam).walls == []
    ensures Draw(s, cam).roof == Shifted(s.item.footprint, cam)[..|s.item.footprint| - 2]
  {
    assert Faded(s.item.height, 0) == 0.0;
    GroundFactor();
    GroundHasNoWalls(s.item.footprint, Edges(s.item.footprint), cam);
    GroundRoof(s.item.footprint, cam);
  }

  /** The items the extrusion pass draws: taller than FlatMaxHeight and visible. */
  predicate Extruded(s: DataLayer.Shown, cam: Camera)
  {
    s.item.height > FlatMaxHeight && Visible(s.item.footprint, cam)
  }

  /** The items the flat pass draws: at most FlatMaxHeight tall and visible. */
  predicate Flat(s: DataLayer.Shown, cam: Camera)
  {
    !(s.item.height > FlatMaxHeight) && Visible(s.item.footprint, cam)
  }

  /** The extrusion pass over the items, in list order. */
  function ExtrusionPass(items: seq<DataLayer.Shown>, cam: Camera): seq<Drawn>
    requires Drawable(items)
  {
    if Hidden(cam) || items == [] then []
    else
      var last := items[|items| - 1];
      ExtrusionPass(items[..|items| - 1], cam) + if Extruded(last, cam) then [Draw(last, cam)] else []
  }

  /** `render()`'s loop for one item: the walls and roof of the footprint, then of each hole. */
  method DrawItem(s: DataLayer.Shown, cam: Camera) returns (d: Drawn)
    requires DrawableItem(s)
    ensures d == Draw(s, cam)
  {
    FadedBelow(s.item.height, s.scale);
    var h := Scene.CamZ as real / (Scene.CamZ as real - Faded(s.item.height, s.scale));
    var mh := 0.0;
    if s.item.minHeight != 0 {
      FadedBelow(s.item.minHeight, s.scale);
      mh := Scene.CamZ as real / (Scene.CamZ as real - Faded(s.item.minHeight, s.scale));
    }
    assert (h, mh) == Factors(s);
    var wallColor := if s.item.wallColor.Some? then s.item.wallColor.value else cam.wallColor;
    var walls, roof := RenderPolygon(s.item.footprint, h, mh, cam);
    var holeWalls, holeRoofs := RenderHoles(s.item.holes, h, mh, cam);
    d := Drawn(s.item.id, walls + holeWalls, roof, holeRoofs, wallColor, s.item.roofColor);
  }

  /** The hole loop of `render()`: each hole's walls are drawn and its roof kept. */
  method RenderHoles(holes: seq<seq<int>>, h: real, mh: real, cam: Camera) returns (walls: seq<Wall>, roofs: seq<seq<int>>)
    requires forall j :: 0 <= j < |holes| ==> |holes[j]| % 2 == 0
    ensures walls == HoleWalls(holes, |holes|, h, mh, cam)
    ensures roofs == HoleRoofs(holes, |holes|, h, cam)
  {
    walls, roofs := [], [];
    var j := 0;
    while j < |holes|
      invariant 0 <= j <= |holes|
      invariant walls == HoleWalls(holes, j, h, mh, cam)
      invariant roofs == HoleRoofs(holes, j, h, cam)
    {
      var w, r := RenderPolygon(holes[j], h, mh, cam);
      walls := walls + w;
      roofs := roofs + [r];
      j := j + 1;
    }
  }

  /** `render()`, over `renderItems` in their current order. */
  method RenderExtruded(items: seq<DataLayer.Shown>, cam: Camera) returns (drawn: seq<Drawn>)
    requires Drawable(items)
    ensures drawn == ExtrusionPass(items, cam)
  {
    drawn := [];
    if cam.zoom < cam.minZoom || cam.isZooming {
      return;
    }
    var i := 0;
    while i < |items|
      invariant 0 <= i <= |items|
      invariant Drawable(items[..i])
      invariant drawn == ExtrusionPass(items[..i], cam)
    {
      assert items[..i + 1][..i] == items[..i];
      var item := items[i];
      if item.item.height > FlatMaxHeight {
        var visible := IsVisible(item.item.footprint, cam);
        if visible {
          var d := DrawItem(item, cam);
          drawn := drawn + [d];
        }
      }
      i := i + 1;
    }
    assert items[..i] == items;
  }

  // ---------------------------------------------------------------------------
  // The flat pass: `FlatBuildings.render`

  /** The outline of a flat item: every vertex but the last, then close. */
  function FlatOutline(fp: seq<int>, n: nat): seq<Cmd>
    requires 2 * n <= |fp|
  {
    if n == 0 then []
    else
      var k := n - 1;
      var x := fp[2 * k] as real;
      var y := fp[2 * k + 1] as real;
      FlatOutline(fp, n - 1) + [if k == 0 then MoveTo(x, y) else LineTo(x, y)]
  }

  /** The flat pass over the items, one closed outline each. */
  function FlatPass(items: seq<DataLayer.Shown>, cam: Camera): seq<Cmd>
    requires Drawable(items)
  {
    if Hidden(cam) || items == [] then []
    else
      var last := items[|items| - 1];
      var fp := Shifted(last.item.footprint, cam);
      FlatPass(items[..|items| - 1], cam) + if Flat(last, cam) then FlatOutline(fp, Edges(fp)) + [ClosePath] else []
  }

  /** An outline moves to the first vertex and draws lines through the rest. */
  lemma {:induction false} FlatOutlineShape(fp: seq<int>, n: nat)
    requires 2 * n <= |fp|
    ensures |FlatOutline(fp, n)| == n
    ensures n > 0 ==> FlatOutline(fp, n)[0] == MoveTo(fp[0] as real, fp[1] as real)
    ensures forall k :: 1 <= k < n ==> FlatOutline(fp, n)[k] == LineTo(fp[2 * k] as real, fp[2 * k + 1] as real)
  {
    if n > 0 {
      FlatOutlineShape(fp, n - 1);
    }
  }

  /** The path loop of `FlatBuildings.render` for one footprint. */
  method Outline(fp: seq<int>) returns (outline: seq<Cmd>)
    requires |fp| % 2 == 0
    ensures outline == FlatOutline(fp, Edges(fp))
  {
    outline := [];
    var j := 0;
    ghost var k := 0;
    while j < |fp| - 3
      invariant j == 2 * k && k <= Edges(fp)
      invariant outline == FlatOutline(fp, k)
    {
      var xa := fp[j] as real;
      var ya := fp[j + 1] as real;
      outline := outline + [if j == 0 then MoveTo(xa, ya) else LineTo(xa, ya)];
      j, k := j + 2, k + 1;
    }
  }

  /** `FlatBuildings.render()`. */
  method RenderFlat(items: seq<DataLayer.Shown>, cam: Camera) returns (path: seq<Cmd>)
    requires Drawable(items)
    ensures path == FlatPass(items, cam)
  {
    path := [];
    if cam.zoom < cam.minZoom || cam.isZooming {
      return;
    }
    var i := 0;
    while i < |items|
      invariant 0 <= i <= |items|
      invariant Drawable(items[..i])
      invariant path == FlatPass(items[..i], cam)
    {
      assert items[..i + 1][..i] == items[..i];
      var item := items[i];
      if !(item.item.height > FlatMaxHeight) {
        var fp, visible := ShiftFootprint(item.item.footprint, cam);
        if visible {
          var outline := Outline(fp);
          path := path + (outline + [ClosePath]);
        }
      }
      i := i + 1;
    }
    assert items[..i] == items;
  }

  /**
   * The two passes split the visible items between them: an item is drawn
   * extruded or flat, never both, and every visible item is drawn by one.
   */
  lemma PassesSplit(s: DataLayer.Shown, cam: Camera)
    ensures Extruded(s, cam) ==> !Flat(s, cam)
    ensures Visible(s.item.footprint, cam) <==> Extruded(s, cam) || Flat(s, cam)
  {
  }

  /** Counted over a list: the items the two passes draw add up to the visible ones. */
  lemma {:induction false} PassesCount(items: seq<DataLayer.Shown>, cam: Camera)
    ensures |set i | 0 <= i < |items| && Extruded(items[i], cam)| + |set i | 0 <= i < |items| && Flat(items[i], cam)|
         == |set i | 0 <= i < |items| && Visible(items[i].item.footprint, cam)|
  {
    var e := set i | 0 <= i < |items| && Extruded(items[i], cam);
    var f := set i | 0 <= i < |items| && Flat(items[i], cam);
    var v := set i | 0 <= i < |items| && Visible(items[i].item.footprint, cam);
    assert e * f == {};
    assert e + f == v;
  }

  // ---------------------------------------------------------------------------
  // The shadow pass: `Shadows.render`

  /** Which kind of edge the shadow outline last drew: none yet, a floor edge or a roof edge. */
  datatype Mode = NoMode | FloorEdges | RoofEdges

  /** `_project(x, y, h)`: a point at height `h`, moved along the shadow direction. */
  function Cast(x: real, y: real, h: real, dir: (real, real)): (real, real)
  {
    (x + dir.0 * h, y + dir.1 * h)
  }

  /**
   * One edge of the shadow outline. A floor edge is drawn along the (raised)
   * footprint and a roof edge along the cast roof; when the kind changes, a
   * line joins the two, and the first edge starts the path.
   */
  function ShadowEdge(mode: Mode, first: bool, a: (real, real), b: (real, real), ta: (real, real), tb: (real, real))
    : (seq<Cmd>, Mode)
  {
    if (b.0 - a.0) * (ta.1 - a.1) > (ta.0 - a.0) * (b.1 - a.1) then
      ((if mode == RoofEdges then [LineTo(a.0, a.1)] else [])
        + (if first then [MoveTo(a.0, a.1)] else []) + [LineTo(b.0, b.1)], FloorEdges)
    else
      ((if mode == FloorEdges then [LineTo(ta.0, ta.1)] else [])
        + (if first then [MoveTo(ta.0, ta.1)] else []) + [LineTo(tb.0, tb.1)], RoofEdges)
  }

  /** Edge `k` of a shadow: its floor points (raised to `g` when there is a minimum height) and roof points. */
  function ShadowPoints(fp: seq<int>, k: nat, h: real, g: Option<real>, dir: (real, real))
    : ((real, real), (real, real), (real, real), (real, real))
    requires 2 * k + 3 < |fp|
  {
    var xa := fp[2 * k] as real;
    var ya := fp[2 * k + 1] as real;
    var xb := fp[2 * k + 2] as real;
    var yb := fp[2 * k + 3] as real;
    var ta := Cast(xa, ya, h, dir);
    var tb := Cast(xb, yb, h, dir);
    var a := if g.Some? then Cast(xa, ya, g.value, dir) else (xa, ya);
    var b := if g.Some? then Cast(xb, yb, g.value, dir) else (xb, yb);
    (a, b, ta, tb)
  }

  /** The shadow outline over the first `n` edges, and the mode it ends in. */
  function ShadowEdges(fp: seq<int>, n: nat, h: real, g: Option<real>, dir: (real, real)): (seq<Cmd>, Mode)
    requires 2 * n + 1 < |fp| || n == 0
  {
    if n == 0 then ([], NoMode)
    else
      var (cmds, mode) := ShadowEdges(fp, n - 1, h, g, dir);
      var (a, b, ta, tb) := ShadowPoints(fp, n - 1, h, g, dir);
      var (more, next) := ShadowEdge(mode, n == 1, a, b, ta, tb);
      (cmds + more, next)
  }

  /**
   * A shadow outline of `n` edges starts with one move and continues with
   * lines only: one per edge and at most one more per change of edge kind.
   */
  lemma {:induction false} ShadowEdgesShape(fp: seq<int>, n: nat, h: real, g: Option<real>, dir: (real, real))
    requires 2 * n + 1 < |fp|
    requires n >= 1
    ensures var cmds := ShadowEdges(fp, n, h, g, dir).0;
      && n + 1 <= |cmds| <= 2 * n
      && cmds[0].MoveTo?
      && forall k :: 1 <= k < |cmds| ==> cmds[k].LineTo?
    ensures ShadowEdges(fp, n, h, g, dir).1 != NoMode
  {
    if n > 1 {
      ShadowEdgesShape(fp, n - 1, h, g, dir);
    }
  }

  /** With no shadow direction every edge is a roof edge on the footprint itself: a plain outline. */
  lemma {:induction false} ShadowWithoutDirection(fp: seq<int>, n: nat, h: real)
    requires 2 * n + 1 < |fp| && n >= 1
    ensures var cmds := ShadowEdges(fp, n, h, None, (0.0, 0.0)).0;
      && |cmds| == n + 1
      && cmds[0] == MoveTo(fp[0] as real, fp[1] as real)
      && forall k :: 1 <= k <= n ==> cmds[k] == LineTo(fp[2 * k] as real, fp[2 * k + 1] as real)
    ensures ShadowEdges(fp, n, h, None, (0.0, 0.0)).1 == RoofEdges
  {
    if n > 1 {
      ShadowWithoutDirection(fp, n - 1, h);
    }
  }

  /** The shadow of one item: its outline, closed. */
  function ShadowOf(s: DataLayer.Shown, cam: Camera, dir: (real, real)): seq<Cmd>
    requires DrawableItem(s)
  {
    var fp := Shifted(s.item.footprint, cam);
    var h := Faded(s.item.height, s.scale);
    var g := if s.item.minHeight != 0 then Some(Faded(s.item.minHeight, s.scale)) else None;
    ShadowEdges(fp, Edges(fp), h, g, dir).0 + [ClosePath]
  }

  /** The mask of one footprint: move to the first vertex, line through the others and back, close. */
  function MaskOf(fp: seq<int>): seq<Cmd>
    requires |fp| >= 2 && |fp| % 2 == 0
  {
    [MoveTo(fp[0] as real, fp[1] as real)]
      + seq(|fp| / 2 - 1, k requires 0 <= k < |fp| / 2 - 1 => LineTo(fp[2 * k + 2] as real, fp[2 * k + 3] as real))
      + [LineTo(fp[0] as real, fp[1] as real), ClosePath]
  }

  /**
   * The shadow pass: nothing when shadows are disabled, the frame is hidden
   * or the sun is down (`dir` is `None`); otherwise one outline per visible
   * item, whatever its height, and the visible footprints as the mask.
   */
  function ShadowPass(items: seq<DataLayer.Shown>, cam: Camera, enabled: bool, dir: Option<(real, real)>)
    : (seq<Cmd>, seq<Cmd>)
    requires Drawable(items)
  {
    if !enabled || Hidden(cam) || dir.None? || items == [] then ([], [])
    else
      var (path, mask) := ShadowPass(items[..|items| - 1], cam, enabled, dir);
      var last := items[|items| - 1];
      if Visible(last.item.footprint, cam) then
        (path + ShadowOf(last, cam, dir.value), mask + MaskOf(Shifted(last.item.footprint, cam)))
      else (path, mask)
  }

  /** One step of the edge loop of `Shadows.render`: the commands for edge `j / 2` and the new mode. */
  method ShadowStep(fp: seq<int>, j: nat, ghost k: nat, h: real, g: Option<real>, dir: (real, real), mode: Mode)
    returns (more: seq<Cmd>, next: Mode)
    requires j == 2 * k && j + 3 < |fp|
    ensures (more, next) == ShadowEdge(mode, k == 0,
      ShadowPoints(fp, k, h, g, dir).0, ShadowPoints(fp, k, h, g, dir).1,
      ShadowPoints(fp, k, h, g, dir).2, ShadowPoints(fp, k, h, g, dir).3)
  {
    ghost var pts := ShadowPoints(fp, k, h, g, dir);
    var xa := fp[j] as real;
    var ya := fp[j + 1] as real;
    var xb := fp[j + 2] as real;
    var yb := fp[j + 3] as real;
    var ta := Cast(xa, ya, h, dir);
    var tb := Cast(xb, yb, h, dir);
    if g.Some? {
      var a := Cast(xa, ya, g.value, dir);
      var b := Cast(xb, yb, g.value, dir);
      xa, ya := a.0, a.1;
      xb, yb := b.0, b.1;
    }
    assert pts == ((xa, ya), (xb, yb), ta, tb);
    // A change of edge kind first joins the two outlines; the first edge opens the path.
    if (xb - xa) * (ta.1 - ya) > (ta.0 - xa) * (yb - ya) {
      more := (if mode == RoofEdges then [LineTo(xa, ya)] else [])
        + (if j == 0 then [MoveTo(xa, ya)] else []) + [LineTo(xb, yb)];
      next := FloorEdges;
    } else {
      more := (if mode == FloorEdges then [LineTo(ta.0, ta.1)] else [])
        + (if j == 0 then [MoveTo(ta.0, ta.1)] else []) + [LineTo(tb.0, tb.1)];
      next := RoofEdges;
    }
  }

  /** The edge loop of `Shadows.render` for one item. */
  method ShadowOutline(fp: seq<int>, h: real, g: Option<real>, dir: (real, real)) returns (cmds: seq<Cmd>)
    requires |fp| % 2 == 0
    ensures cmds == ShadowEdges(fp, Edges(fp), h, g, dir).0
  {
    cmds := [];
    var mode := NoMode;
    var j := 0;
    ghost var k := 0;
    while j < |fp| - 3
      invariant j == 2 * k && k <= Edges(fp)
      invariant (cmds, mode) == ShadowEdges(fp, k, h, g, dir)
    {
      var more, next := ShadowStep(fp, j, k, h, g, dir, mode);
      cmds, mode := cmds + more, next;
      j, k := j + 2, k + 1;
    }
  }

  /** The mask loop of `Shadows.render` for one footprint. */
  method Mask(fp: seq<int>) returns (cmds: seq<Cmd>)
    requires |fp| >= 2 && |fp| % 2 == 0
    ensures cmds == MaskOf(fp)
  {
    cmds := [MoveTo(fp[0] as real, fp[1] as real)];
    var j := 2;
    while j < |fp|
      invariant 2 <= j <= |fp| && j % 2 == 0
      invariant cmds == [MoveTo(fp[0] as real, fp[1] as real)]
        + seq(j / 2 - 1, k requires 0 <= k < j / 2 - 1 => LineTo(fp[2 * k + 2] as real, fp[2 * k + 3] as real))
    {
      cmds := cmds + [LineTo(fp[j] as real, fp[j + 1] as real)];
      j := j + 2;
    }
    cmds := cmds + [LineTo(fp[0] as real, fp[1] as real), ClosePath];
  }

  /** `Shadows.render()`, with the sun's direction given (`None` when the sun is down). */
  method RenderShadows(items: seq<DataLayer.Shown>, cam: Camera, enabled: bool, dir: Option<(real, real)>)
    returns (path: seq<Cmd>, mask: seq<Cmd>)
    requires Drawable(items)
    ensures (path, mask) == ShadowPass(items, cam, enabled, dir)
  {
    path, mask := [], [];
    if !enabled || cam.zoom < cam.minZoom || cam.isZooming || dir.None? {
      return;
    }
    var i := 0;
    while i < |items|
      invariant 0 <= i <= |items|
      invariant Drawable(items[..i])
      invariant (path, mask) == ShadowPass(items[..i], cam, enabled, dir)
    {
      assert items[..i + 1][..i] == items[..i];
      var item := items[i];
      var fp, visible := ShiftFootprint(item.item.footprint, cam);
      if visible {
        var h := Faded(item.item.height, item.scale);
        var g := if item.item.minHeight != 0 then Some(Faded(item.item.minHeight, item.scale)) else None;
        var outline := ShadowOutline(fp, h, g, dir.value);
        var m := Mask(fp);
        path := path + (outline + [ClosePath]);
        mask := mask + m;
      }
      i := i + 1;
    }
    assert items[..i] == items;
  }
}
