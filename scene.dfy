/**
 * The module-level view state of the bundle (variables.js) and the setters
 * that write it (properties.js), with `fromRange` from functions.js.
 */
module Scene {
  import opened Wrappers
  import opened Js
  import opened Colors

  /** MAP_TILE_SIZE: map tile size in pixels. */
  const MapTileSize: int := 256
  /** MIN_ZOOM: the initial `minZoom`. */
  const MinZoom: int := 15
  /** The initial `maxZoom`. */
  const MaxZoom: int := 20
  /** `camZ`: the camera's height above the map plane. */
  const CamZ: int := 450

  /** `defaultWallColor = new Color(200, 190, 180)`. */
  const DefaultWallColor: Color := NewColor(Finite(200.0), Finite(190.0), Finite(180.0), None)

  function Min(a: real, b: real): real { if a <= b then a else b }
  function Max(a: real, b: real): real { if a >= b then a else b }

  /**
   * `fromRange(sVal, sMin, sMax, dMin, dMax)`: `sVal` clamped to the source
   * range, mapped linearly onto the destination range and clamped again.
   * An empty source range divides 0 by 0, and the NaN passes both clamps.
   */
  function FromRange(sVal: real, sMin: real, sMax: real, dMin: real, dMax: real): (r: JsNum)
    ensures r.NaN? <==> sMax == sMin
  {
    var s := Min(Max(sVal, sMin), sMax);
    if sMax == sMin then NaN
    else
      var rel := (s - sMin) / (sMax - sMin);
      Finite(Min(Max(dMin + rel * (dMax - dMin), dMin), dMax))
  }

  /** With ordered ranges the result lies in the destination range, and the ends map to its ends. */
  lemma FromRangeBounds(sVal: real, sMin: real, sMax: real, dMin: real, dMax: real)
    requires sMin < sMax && dMin <= dMax
    ensures FromRange(sVal, sMin, sMax, dMin, dMax).Finite?
    ensures dMin <= FromRange(sVal, sMin, sMax, dMin, dMax).v <= dMax
    ensures sVal <= sMin ==> FromRange(sVal, sMin, sMax, dMin, dMax).v == dMin
    ensures sVal >= sMax ==> FromRange(sVal, sMin, sMax, dMin, dMax).v == dMax
  {
    var s := Min(Max(sVal, sMin), sMax);
    var d := sMax - sMin;
    if sVal >= sMax {
      assert s - sMin == d;
      DivSelf(d);
      assert (s - sMin) / d == 1.0;
    }
  }

  lemma DivSelf(d: real)
    requires d != 0.0
    ensures d / d == 1.0
  {
  }

  /** `1 - fromRange(zoom, minZoom, maxZoom, 0, 0.3)`, the alpha applied to all building colours. */
  function ZoomAlpha(zoom: int, minZoom: int, maxZoom: int): (r: JsNum)
    ensures r.NaN? <==> minZoom == maxZoom
  {
    var f := FromRange(zoom as real, minZoom as real, maxZoom as real, 0.0, 0.3);
    if f.NaN? then NaN else Finite(1.0 - f.v)
  }

  /** Colours fade from opaque at `minZoom` and below to 0.7 at `maxZoom` and above. */
  lemma ZoomAlphaBounds(zoom: int, minZoom: int, maxZoom: int)
    requires minZoom < maxZoom
    ensures ZoomAlpha(zoom, minZoom, maxZoom).Finite?
    ensures 0.7 <= ZoomAlpha(zoom, minZoom, maxZoom).v <= 1.0
    ensures zoom <= minZoom ==> ZoomAlpha(zoom, minZoom, maxZoom).v == 1.0
    ensures zoom >= maxZoom ==> ZoomAlpha(zoom, minZoom, maxZoom).v == 0.7
  {
    FromRangeBounds(zoom as real, minZoom as real, maxZoom as real, 0.0, 0.3);
  }

  /**
   * The view state. Variables the bundle leaves `undefined` until a setter
   * runs (`zoom`, `size`, `camX`, `camY`, `maxHeight`) start at 0 here. The
   * lighter and darker defaults `defaultAltColor` and `defaultRoofColor` are
   * `setLightness` of the wall colour, which the model does not compute: the
   * constructor takes them.
   */
  class View {
    var width: int
    var height: int
    var halfWidth: int
    var halfHeight: int
    var originX: int
    var originY: int
    var zoom: int
    var size: int
    var camX: int
    var camY: int
    var maxHeight: int
    var zoomAlpha: JsNum
    var minZoom: int
    var maxZoom: int
    var isZooming: bool
    var defaultAltColor: Color
    var defaultRoofColor: Color
    /** `wallColorAlpha`, `altColorAlpha` and `roofColorAlpha`, before they are turned into strings. */
    var wallColorAlpha: Color
    var altColorAlpha: Color
    var roofColorAlpha: Color

    constructor(altColor: Color, roofColor: Color)
      ensures width == 0 && height == 0 && halfWidth == 0 && halfHeight == 0
      ensures originX == 0 && originY == 0
      ensures zoom == 0 && size == 0 && camX == 0 && camY == 0 && maxHeight == 0
      ensures zoomAlpha == Finite(1.0) && minZoom == MinZoom && maxZoom == MaxZoom
      ensures !isZooming && wallColorAlpha == DefaultWallColor
      ensures defaultAltColor == altColor && defaultRoofColor == roofColor
      ensures altColorAlpha == altColor && roofColorAlpha == roofColor
    {
      width, height, halfWidth, halfHeight := 0, 0, 0, 0;
      originX, originY := 0, 0;
      zoom, size, camX, camY, maxHeight := 0, 0, 0, 0, 0;
      zoomAlpha := Finite(1.0);
      minZoom, maxZoom := MinZoom, MaxZoom;
      isZooming := false;
      defaultAltColor, defaultRoofColor := altColor, roofColor;
      wallColorAlpha, altColorAlpha, roofColorAlpha := DefaultWallColor, altColor, roofColor;
    }

    /** `setOrigin(origin)`. */
    method SetOrigin(x: int, y: int)
      modifies this
      ensures originX == x && originY == y
      ensures width == old(width) && height == old(height) && halfWidth == old(halfWidth) && halfHeight == old(halfHeight)
      ensures camX == old(camX) && camY == old(camY)
      ensures zoom == old(zoom) && size == old(size) && maxHeight == old(maxHeight) && zoomAlpha == old(zoomAlpha)
      ensures wallColorAlpha == old(wallColorAlpha) && altColorAlpha == old(altColorAlpha) && roofColorAlpha == old(roofColorAlpha)
      ensures defaultAltColor == old(defaultAltColor) && defaultRoofColor == old(defaultRoofColor)
      ensures minZoom == old(minZoom) && maxZoom == old(maxZoom) && isZooming == old(isZooming)
    {
      originX, originY := x, y;
    }

    /** `setCamOffset(offset)`: the camera moves from the bottom centre by the offset. */
    method SetCamOffset(dx: int, dy: int)
      modifies this
      ensures camX == halfWidth + dx && camY == height + dy
      ensures width == old(width) && height == old(height) && halfWidth == old(halfWidth) && halfHeight == old(halfHeight)
      ensures originX == old(originX) && originY == old(originY)
      ensures zoom == old(zoom) && size == old(size) && maxHeight == old(maxHeight) && zoomAlpha == old(zoomAlpha)
      ensures wallColorAlpha == old(wallColorAlpha) && altColorAlpha == old(altColorAlpha) && roofColorAlpha == old(roofColorAlpha)
      ensures defaultAltColor == old(defaultAltColor) && defaultRoofColor == old(defaultRoofColor)
      ensures minZoom == old(minZoom) && maxZoom == old(maxZoom) && isZooming == old(isZooming)
    {
      camX := halfWidth + dx;
      camY := height + dy;
    }

    /**
     * `setSize(size)`: the halves are truncated, the camera sits at the
     * bottom centre, and buildings are capped 50 below the camera.
     */
    method SetSize(w: int, h: int)
      modifies this
      ensures width == w && height == h
      ensures halfWidth == Int32(TruncDiv(w, 2)) && halfHeight == Int32(TruncDiv(h, 2))
      ensures camX == halfWidth && camY == h
      ensures maxHeight == CamZ - 50
      ensures originX == old(originX) && originY == old(originY) && zoom == old(zoom) && size == old(size)
      ensures zoomAlpha == old(zoomAlpha)
      ensures wallColorAlpha == old(wallColorAlpha) && altColorAlpha == old(altColorAlpha) && roofColorAlpha == old(roofColorAlpha)
      ensures defaultAltColor == old(defaultAltColor) && defaultRoofColor == old(defaultRoofColor)
      ensures minZoom == old(minZoom) && maxZoom == old(maxZoom) && isZooming == old(isZooming)
    {
      width := w;
      height := h;
      halfWidth := Int32(TruncDiv(w, 2));
      halfHeight := Int32(TruncDiv(h, 2));
      camX := halfWidth;
      camY := height;
      maxHeight := CamZ - 50;
    }

    /** `setZoom(z)`: the world size in pixels and the zoom-dependent alpha of the three default colours. */
    method SetZoom(z: int)
      modifies this
      ensures zoom == z && size == ShiftLeft(MapTileSize, z)
      ensures zoomAlpha == ZoomAlpha(z, minZoom, maxZoom)
      ensures wallColorAlpha == SetAlpha(DefaultWallColor, zoomAlpha)
      ensures altColorAlpha == SetAlpha(defaultAltColor, zoomAlpha)
      ensures roofColorAlpha == SetAlpha(defaultRoofColor, zoomAlpha)
      ensures width == old(width) && height == old(height) && halfWidth == old(halfWidth) && halfHeight == old(halfHeight)
      ensures originX == old(originX) && originY == old(originY)
      ensures camX == old(camX) && camY == old(camY) && maxHeight == old(maxHeight)
      ensures defaultAltColor == old(defaultAltColor) && defaultRoofColor == old(defaultRoofColor)
      ensures minZoom == old(minZoom) && maxZoom == old(maxZoom) && isZooming == old(isZooming)
    {
      zoom := z;
      size := ShiftLeft(MapTileSize, zoom);
      zoomAlpha := ZoomAlpha(zoom, minZoom, maxZoom);
      wallColorAlpha := SetAlpha(DefaultWallColor, zoomAlpha);
      altColorAlpha := SetAlpha(defaultAltColor, zoomAlpha);
      roofColorAlpha := SetAlpha(defaultRoofColor, zoomAlpha);
    }
  }

  /** At the zoom levels a map uses, the world is 256 * 2^zoom pixels wide. */
  lemma WorldSize(z: nat)
    requires z <= 22
    ensures ShiftLeft(MapTileSize, z) == Pow2(z + 8)
  {
    ShiftLeftExact(z);
  }

  /** `setSize` halves a non-negative width to within one pixel, so `camX` is its centre column. */
  lemma HalfWidthBounds(w: int)
    requires 0 <= w < TwoTo31
    ensures 0 <= TruncDiv(w, 2) <= w
    ensures w - 1 <= 2 * TruncDiv(w, 2) <= w
  {
  }
}
