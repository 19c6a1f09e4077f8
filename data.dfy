/**
 * The data layer (`Data`, with `fadeIn` from render.js): building records
 * projected to pixels, scaled to the zoom level and kept, once per id, in
 * the list of items to render; data tiles are taken from the cache or
 * requested, and newly arrived items fade in.
 *
 * The module-level values the layer reads (`zoom`, `maxZoom`, `maxHeight`,
 * `zoomAlpha`) arrive together as a `Frame`, with `geoToPixel` as an
 * uninterpreted projection. Data tiles are named by integer indices: tile
 * `(i, j)` spans latitudes `i * 0.0075 .. (i + 1) * 0.0075` and longitudes
 * `j * 0.015 .. (j + 1) * 0.015`.
 */
module DataLayer {
  import opened Wrappers
  import opened Js
  import opened Items
  import Geometry
  import Colors
  import Caching
  import Template
  import GeoJson
  import OsmReader
  import Scene

  /** DEFAULT_HEIGHT. */
  const DefaultHeight: int := 5
  /** HEIGHT_SCALE. */
  const HeightScale: int := 1
  /** Full scale: `scale` is kept in tenths, the step `0.5 * 0.2` of the fade. */
  const Full: nat := 10

  /** OSM_XAPI_URL, the default data source. */
  const OsmXapiUrl: string :=
    "http://overpass-api.de/api/interpreter?data=[out:json];(way[%22building%22]({s},{w},{n},{e});node(w);way[%22building:part%22=%22yes%22]({s},{w},{n},{e});node(w);relation[%22building%22]({s},{w},{n},{e});way(r);node(w););out;"

  /** The view values the layer reads, and `geoToPixel`. */
  datatype Frame = Frame(
    zoom: int, maxZoom: int, maxHeight: int, zoomAlpha: JsNum,
    toPixel: (real, real) -> (int, int))

  /**
   * An item as `_scale` emits it. The wall and roof colours are kept as
   * colours; their text and the lighter `altColor` are not modelled.
   * `holes` empty stands for `null`.
   */
  datatype Scaled = Scaled(
    id: Key, footprint: seq<int>, height: int, minHeight: int,
    wallColor: Option<Colors.Color>, roofColor: Option<Colors.Color>,
    center: (int, int), holes: seq<seq<int>>)

  /** An entry of `renderItems`: the item and its `scale`, in tenths. */
  datatype Shown = Shown(item: Scaled, scale: nat)

  /** Both readers emit footprints and holes of (lat, lon) pairs. */
  predicate PairedItem(b: Building)
  {
    |b.footprint| % 2 == 0 && forall h :: h in b.holes ==> |h| % 2 == 0
  }

  predicate Paired(items: seq<Building>)
  {
    forall i :: 0 <= i < |items| ==> PairedItem(items[i])
  }

  // ---------------------------------------------------------------------------
  // `_getFootprint`

  /** Entry `k` of the `Int32Array` filled from `polygon`; a slot the loop does not reach stays 0. */
  function PixelAt(polygon: seq<real>, toPixel: (real, real) -> (int, int), k: nat): int
    requires k < |polygon|
  {
    if k % 2 == 0 then
      if k + 1 < |polygon| then Int32(toPixel(polygon[k], polygon[k + 1]).0) else 0
    else Int32(toPixel(polygon[k - 1], polygon[k]).1)
  }

  /** The projected ring: one pixel pair per (lat, lon) pair. */
  function PixelsOf(polygon: seq<real>, toPixel: (real, real) -> (int, int)): (r: seq<int>)
    ensures |r| == |polygon|
  {
    seq(|polygon|, k requires 0 <= k < |polygon| => PixelAt(polygon, toPixel, k))
  }

  /** The projected, simplified ring, or nothing when fewer than four vertices remain. */
  function FootprintOf(polygon: seq<real>, toPixel: (real, real) -> (int, int)): (r: Option<seq<int>>)
    requires |polygon| % 2 == 0
  {
    var s := Geometry.Simplified(PixelsOf(polygon, toPixel));
    if |s| < 8 then None else Some(s)
  }

  /**
   * A footprint is at least four vertices of pixel pairs, no longer than the
   * ring, and starts and ends where the projected ring does.
   */
  lemma FootprintShape(polygon: seq<real>, toPixel: (real, real) -> (int, int))
    requires |polygon| % 2 == 0
    ensures FootprintOf(polygon, toPixel).Some? <==> |Geometry.Simplified(PixelsOf(polygon, toPixel))| >= 8
    ensures FootprintOf(polygon, toPixel).Some? ==>
      var f := FootprintOf(polygon, toPixel).value;
      var p := PixelsOf(polygon, toPixel);
      && 8 <= |f| <= |polygon| && |f| % 2 == 0
      && f[..2] == p[..2] && f[|f| - 2..] == p[|p| - 2..]
  {
    var p := PixelsOf(polygon, toPixel);
    if |p| >= 2 {
      Geometry.SimplifyKeepsEnds(p);
    } else {
      Geometry.SimplifyShort(p);
    }
  }

  /** Rings of fewer than four vertices never make a footprint. */
  lemma ShortRingDropped(polygon: seq<real>, toPixel: (real, real) -> (int, int))
    requires |polygon| % 2 == 0 && |polygon| < 8
    ensures FootprintOf(polygon, toPixel) == None
  {
    var p := PixelsOf(polygon, toPixel);
    if |p| >= 2 {
      Geometry.SimplifyKeepsEnds(p);
    } else {
      Geometry.SimplifyShort(p);
    }
  }

  /** `_getFootprint(polygon)`: fill an `Int32Array`, simplify it, drop it when too short. */
  method GetFootprint(polygon: seq<real>, toPixel: (real, real) -> (int, int)) returns (r: Option<seq<int>>)
    requires |polygon| % 2 == 0
    ensures r == FootprintOf(polygon, toPixel)
  {
    var footprint := new int[|polygon|](_ => 0);
    var i := 0;
    while i < |polygon| - 1
      invariant 0 <= i <= |polygon| && i % 2 == 0
      invariant forall k :: 0 <= k < footprint.Length ==>
        footprint[k] == if k < i then PixelAt(polygon, toPixel, k) else 0
    {
      var px := toPixel(polygon[i], polygon[i + 1]);
      footprint[i] := Int32(px.0);
      footprint[i + 1] := Int32(px.1);
      i := i + 2;
    }
    assert footprint[..] == PixelsOf(polygon, toPixel);
    var simplified := Geometry.Simplify(footprint[..]);
    if |simplified| < 8 {
      return None;
    }
    return Some(simplified);
  }

  // ---------------------------------------------------------------------------
  // `_scale`

  /** `(item.height || DEFAULT_HEIGHT) * HEIGHT_SCALE >> zoomDelta`. */
  function ItemHeight(b: Building, f: Frame): int
  {
    ShiftRight((if b.height != 0 then b.height else DefaultHeight) * HeightScale, f.maxZoom - f.zoom)
  }

  /** `item.minHeight * HEIGHT_SCALE >> zoomDelta`; an absent value is 0 either way. */
  function ItemMinHeight(b: Building, f: Frame): int
  {
    ShiftRight(Trunc(b.minHeight * HeightScale as real), f.maxZoom - f.zoom)
  }

  /** A colour property: parsed when truthy and parseable, then given the zoom alpha. */
  function ColourOf(c: Option<string>, alpha: JsNum): Option<Colors.Color>
  {
    if c.Some? && c.value != "" then
      match Colors.Parse(c.value)
      case Some(col) => Some(Colors.SetAlpha(col, alpha))
      case None => None
    else None
  }

  /** The footprints of the holes that make one, in order. */
  function HolesOf(holes: seq<seq<real>>, toPixel: (real, real) -> (int, int)): (r: seq<seq<int>>)
    requires forall h :: h in holes ==> |h| % 2 == 0
    ensures |r| <= |holes|
    ensures forall j :: 0 <= j < |r| ==> 8 <= |r[j]| && |r[j]| % 2 == 0
  {
    if holes == [] then []
    else
      var init := holes[..|holes| - 1];
      assert forall h :: h in init ==> h in holes;
      var last := holes[|holes| - 1];
      FootprintShape(last, toPixel);
      HolesOf(init, toPixel) + match FootprintOf(last, toPixel) { case Some(fp) => [fp] case None => [] }
  }

  /** What `_scale` makes of one item, or nothing when it skips it. */
  function ScaleItem(b: Building, f: Frame): Option<Scaled>
    requires PairedItem(b)
  {
    var height := ItemHeight(b, f);
    if height == 0 then None
    else
      var minHeight := ItemMinHeight(b, f);
      if minHeight > f.maxHeight then None
      else
        match FootprintOf(b.footprint, f.toPixel)
        case None => None
        case Some(fp) =>
          Some(Scaled(
            b.id, fp, if height < f.maxHeight then height else f.maxHeight, minHeight,
            ColourOf(b.wallColor, f.zoomAlpha), ColourOf(b.roofColor, f.zoomAlpha),
            Geometry.Center(fp), HolesOf(b.holes, f.toPixel)))
  }

  /** `_scale(items, zoom)`: the items it keeps, in order. */
  function ScaleAll(items: seq<Building>, f: Frame): (r: seq<Scaled>)
    requires Paired(items)
  {
    if items == [] then []
    else
      var init := items[..|items| - 1];
      ScaleAll(init, f) + match ScaleItem(items[|items| - 1], f) { case Some(s) => [s] case None => [] }
  }

  /**
   * The three reasons an item is dropped, and what a kept item carries: its
   * own id, the shifted height capped at `maxHeight`, the shifted `minHeight`
   * and a footprint of at least four vertices.
   */
  lemma ScaleItemRule(b: Building, f: Frame)
    requires PairedItem(b)
    ensures ScaleItem(b, f).Some? <==>
      ItemHeight(b, f) != 0 && ItemMinHeight(b, f) <= f.maxHeight && FootprintOf(b.footprint, f.toPixel).Some?
    ensures ScaleItem(b, f).Some? ==>
      var s := ScaleItem(b, f).value;
      && s.id == b.id
      && s.height <= f.maxHeight && s.height <= ItemHeight(b, f)
      && (s.height == f.maxHeight || s.height == ItemHeight(b, f))
      && s.minHeight == ItemMinHeight(b, f) <= f.maxHeight
      && 8 <= |s.footprint| <= |b.footprint| && |s.footprint| % 2 == 0
      && |s.holes| <= |b.holes|
      && forall j :: 0 <= j < |s.holes| ==> |s.holes[j]| % 2 == 0
  {
    FootprintShape(b.footprint, f.toPixel);
  }

  /** An item without a height of its own is dropped three or more zoom levels below `maxZoom`. */
  lemma DefaultHeightVanishes(b: Building, f: Frame)
    requires PairedItem(b) && b.height == 0
    requires 3 <= f.maxZoom - f.zoom < 32
    ensures ScaleItem(b, f) == None
  {
    var k := f.maxZoom - f.zoom;
    assert k % 32 == k;
    assert Halved(5, k) == Halved(0, k - 3) by {
      assert Halved(5, k) == Halved(2, k - 1) == Halved(1, k - 2);
    }
    HalvedZero(k - 3);
  }

  lemma {:induction false} HalvedZero(k: nat)
    ensures Halved(0, k) == 0
  {
    if k > 0 {
      HalvedZero(k - 1);
    }
  }

  lemma PairedAppend(a: seq<Building>, b: seq<Building>)
    requires Paired(a) && Paired(b)
    ensures Paired(a + b)
  {
    forall i | 0 <= i < |a + b| ensures PairedItem((a + b)[i]) {
      if i < |a| { assert (a + b)[i] == a[i]; } else { assert (a + b)[i] == b[i - |a|]; }
    }
  }

  /** `_scale` keeps items in order: scaling two lists one after the other is scaling them joined. */
  lemma {:induction false} ScaleAllAppend(a: seq<Building>, b: seq<Building>, f: Frame)
    requires Paired(a) && Paired(b)
    ensures Paired(a + b)
    ensures ScaleAll(a + b, f) == ScaleAll(a, f) + ScaleAll(b, f)
    decreases |b|
  {
    PairedAppend(a, b);
    if b == [] {
      assert a + b == a;
    } else {
      var init := b[..|b| - 1];
      assert (a + b)[..|a + b| - 1] == a + init;
      assert Paired(init) by {
        forall i | 0 <= i < |init| ensures PairedItem(init[i]) { assert init[i] == b[i]; }
      }
      ScaleAllAppend(a, init, f);
      assert (a + b)[|a + b| - 1] == b[|b| - 1];
      var tail := match ScaleItem(b[|b| - 1], f) { case Some(s) => [s] case None => [] };
      assert ScaleAll(a + b, f) == ScaleAll(a + init, f) + tail;
      assert ScaleAll(b, f) == ScaleAll(init, f) + tail;
      assert ScaleAll(a, f) + ScaleAll(init, f) + tail == ScaleAll(a, f) + (ScaleAll(init, f) + tail);
    }
  }

  /** `_scale` never emits more items than it is given. */
  lemma {:induction false} ScaleAllLength(items: seq<Building>, f: Frame)
    requires Paired(items)
    ensures |ScaleAll(items, f)| <= |items|
  {
    if items != [] {
      ScaleAllLength(items[..|items| - 1], f);
    }
  }

  /** Every item `_scale` emits is what it made of one of its inputs. */
  lemma {:induction false} ScaleAllFrom(items: seq<Building>, f: Frame)
    requires Paired(items)
    ensures forall s :: s in ScaleAll(items, f) ==>
      exists i :: 0 <= i < |items| && ScaleItem(items[i], f) == Some(s)
  {
    if items != [] {
      var init := items[..|items| - 1];
      ScaleAllFrom(init, f);
      forall s | s in ScaleAll(items, f)
        ensures exists i :: 0 <= i < |items| && ScaleItem(items[i], f) == Some(s)
      {
        if s in ScaleAll(init, f) {
          var i :| 0 <= i < |init| && ScaleItem(init[i], f) == Some(s);
          assert items[i] == init[i];
        } else {
          assert ScaleItem(items[|items| - 1], f) == Some(s);
        }
      }
    }
  }

  /** The hole loop of `_scale`. */
  method ScaleHoles(holes: seq<seq<real>>, toPixel: (real, real) -> (int, int)) returns (r: seq<seq<int>>)
    requires forall h :: h in holes ==> |h| % 2 == 0
    ensures r == HolesOf(holes, toPixel)
  {
    r := [];
    var j := 0;
    while j < |holes|
      invariant 0 <= j <= |holes|
      invariant forall h :: h in holes[..j] ==> h in holes
      invariant r == HolesOf(holes[..j], toPixel)
    {
      assert holes[..j + 1][..j] == holes[..j];
      var inner := GetFootprint(holes[j], toPixel);
      if inner.Some? {
        r := r + [inner.value];
      }
      j := j + 1;
    }
    assert holes[..j] == holes;
  }

  /** One turn of the `_scale` loop. */
  method ScaleOne(b: Building, f: Frame) returns (r: Option<Scaled>)
    requires PairedItem(b)
    ensures r == ScaleItem(b, f)
  {
    var height := ShiftRight((if b.height != 0 then b.height else DefaultHeight) * HeightScale, f.maxZoom - f.zoom);
    assert height == ItemHeight(b, f);
    if height == 0 {
      return None;
    }
    var minHeight := ShiftRight(Trunc(b.minHeight * HeightScale as real), f.maxZoom - f.zoom);
    assert minHeight == ItemMinHeight(b, f);
    if minHeight > f.maxHeight {
      return None;
    }
    var footprint := GetFootprint(b.footprint, f.toPixel);
    if footprint.None? {
      return None;
    }
    var holes := ScaleHoles(b.holes, f.toPixel);
    var wallColor := ColourOf(b.wallColor, f.zoomAlpha);
    var roofColor := ColourOf(b.roofColor, f.zoomAlpha);
    var center := Geometry.GetCenter(footprint.value);
    r := Some(Scaled(
      b.id, footprint.value, if height < f.maxHeight then height else f.maxHeight, minHeight,
      wallColor, roofColor, center, holes));
  }

  /** `_scale(items, zoom)`. */
  method ScaleItems(items: seq<Building>, f: Frame) returns (res: seq<Scaled>)
    requires Paired(items)
    ensures res == ScaleAll(items, f)
  {
    res := [];
    var i := 0;
    while i < |items|
      invariant 0 <= i <= |items|
      invariant Paired(items[..i])
      invariant res == ScaleAll(items[..i], f)
    {
      assert items[..i + 1][..i] == items[..i];
      var s := ScaleOne(items[i], f);
      if s.Some? {
        res := res + [s.value];
      }
      i := i + 1;
    }
    assert items[..i] == items;
  }

  // ---------------------------------------------------------------------------
  // `_add` and the index of ids

  /** `renderItems` and the ids recorded in `_index`. */
  datatype Listing = Listing(items: seq<Shown>, index: set<Key>)

  /** The ids of a list of entries. */
  function IdsOf(items: seq<Shown>): set<Key>
  {
    set i | 0 <= i < |items| :: items[i].item.id
  }

  /** The ids of a list of scaled items. */
  function ScaledIds(items: seq<Scaled>): set<Key>
  {
    set i | 0 <= i < |items| :: items[i].id
  }

  /** What `_index` is for: it holds exactly the ids of `renderItems`, each shown once. */
  predicate Indexed(l: Listing)
  {
    && l.index == IdsOf(l.items)
    && forall i, j :: 0 <= i < j < |l.items| ==> l.items[i].item.id != l.items[j].item.id
  }

  /** The loop of `_add`: an item whose id is not yet indexed is appended with the given scale. */
  function Added(l: Listing, items: seq<Scaled>, scale: nat): Listing
  {
    if items == [] then l
    else
      var prev := Added(l, items[..|items| - 1], scale);
      var it := items[|items| - 1];
      if it.id in prev.index then prev
      else Listing(prev.items + [Shown(it, scale)], prev.index + {it.id})
  }

  lemma IdsOfSnoc(items: seq<Shown>, x: Shown)
    ensures IdsOf(items + [x]) == IdsOf(items) + {x.item.id}
  {
    var s := items + [x];
    forall k | k in IdsOf(s) ensures k in IdsOf(items) + {x.item.id} {
      var i :| 0 <= i < |s| && s[i].item.id == k;
      if i < |items| { assert s[i] == items[i]; }
    }
    forall k | k in IdsOf(items) ensures k in IdsOf(s) {
      var i :| 0 <= i < |items| && items[i].item.id == k;
      assert s[i] == items[i];
    }
    assert s[|items|] == x;
  }

  /**
   * `_add` never removes or reorders entries: the old list is a prefix, every
   * entry after it is one of the items at the given scale, and the index
   * grows by exactly the items' ids.
   */
  lemma {:induction false} AddedAppends(l: Listing, items: seq<Scaled>, scale: nat)
    ensures l.items <= Added(l, items, scale).items
    ensures forall k :: |l.items| <= k < |Added(l, items, scale).items| ==>
      Added(l, items, scale).items[k].scale == scale && Added(l, items, scale).items[k].item in items
    ensures Added(l, items, scale).index == l.index + ScaledIds(items)
  {
    if items != [] {
      var init := items[..|items| - 1];
      AddedAppends(l, init, scale);
      assert forall x :: x in init ==> x in items;
      assert ScaledIds(items) == ScaledIds(init) + {items[|items| - 1].id} by {
        forall k | k in ScaledIds(items) ensures k in ScaledIds(init) + {items[|items| - 1].id} {
          var i :| 0 <= i < |items| && items[i].id == k;
          if i < |init| { assert init[i] == items[i]; }
        }
        forall k | k in ScaledIds(init) ensures k in ScaledIds(items) {
          var i :| 0 <= i < |init| && init[i].id == k;
          assert items[i] == init[i];
        }
      }
    }
  }

  /** `_add` keeps `_index` in step with `renderItems`, so no id is ever shown twice. */
  lemma {:induction false} AddedIndexed(l: Listing, items: seq<Scaled>, scale: nat)
    requires Indexed(l)
    ensures Indexed(Added(l, items, scale))
  {
    if items != [] {
      var init := items[..|items| - 1];
      AddedIndexed(l, init, scale);
      var prev := Added(l, init, scale);
      var it := items[|items| - 1];
      if it.id !in prev.index {
        IdsOfSnoc(prev.items, Shown(it, scale));
        var next := prev.items + [Shown(it, scale)];
        forall i, j | 0 <= i < j < |next| ensures next[i].item.id != next[j].item.id {
          if j < |prev.items| {
            assert next[i] == prev.items[i] && next[j] == prev.items[j];
          } else {
            assert next[i] == prev.items[i];
            assert next[i].item.id in IdsOf(prev.items);
          }
        }
      }
    }
  }

  /** Items whose ids are all indexed already add nothing. */
  lemma {:induction false} AddedKnown(l: Listing, items: seq<Scaled>, scale: nat)
    requires ScaledIds(items) <= l.index
    ensures Added(l, items, scale) == l
  {
    if items != [] {
      var init := items[..|items| - 1];
      assert ScaledIds(init) <= ScaledIds(items) by {
        forall k | k in ScaledIds(init) ensures k in ScaledIds(items) {
          var i :| 0 <= i < |init| && init[i].id == k;
          assert items[i] == init[i];
        }
      }
      AddedKnown(l, init, scale);
      assert items[|items| - 1].id in ScaledIds(items);
    }
  }

  /** Adding the same items a second time, at any scale, changes nothing. */
  lemma AddedTwice(l: Listing, items: seq<Scaled>, scale1: nat, scale2: nat)
    ensures Added(Added(l, items, scale1), items, scale2) == Added(l, items, scale1)
  {
    AddedAppends(l, items, scale1);
    AddedKnown(Added(l, items, scale1), items, scale2);
  }

  // ---------------------------------------------------------------------------
  // `fadeIn`

  /** One tick for one entry: a scale below full goes up a tenth, capped at full. */
  function Ticked(x: Shown): Shown
  {
    if x.scale < Full then
      var s := x.scale + 1;
      x.(scale := if s > Full then Full else s)
    else x
  }

  /** One tick for the whole list. */
  function TickAll(items: seq<Shown>): (r: seq<Shown>)
    ensures |r| == |items|
  {
    seq(|items|, i requires 0 <= i < |items| => Ticked(items[i]))
  }

  /** `needed`: some entry was still below full scale. */
  predicate Fading(items: seq<Shown>)
  {
    exists i :: 0 <= i < |items| && items[i].scale < Full
  }

  /** Every scale is at most full. */
  predicate Bounded(items: seq<Shown>)
  {
    forall i :: 0 <= i < |items| ==> items[i].scale <= Full
  }

  /** `n` ticks in a row. */
  function TickN(items: seq<Shown>, n: nat): (r: seq<Shown>)
    ensures |r| == |items|
  {
    if n == 0 then items else TickAll(TickN(items, n - 1))
  }

  /**
   * A tick changes only scales: below full they rise by one tenth, full
   * ones are left as they are, and no scale passes full.
   */
  lemma TickRule(items: seq<Shown>)
    requires Bounded(items)
    ensures Bounded(TickAll(items))
    ensures forall i :: 0 <= i < |items| ==> TickAll(items)[i].item == items[i].item
    ensures forall i :: 0 <= i < |items| && items[i].scale < Full ==> TickAll(items)[i].scale == items[i].scale + 1
    ensures forall i :: 0 <= i < |items| && items[i].scale == Full ==> TickAll(items)[i] == items[i]
  {
  }

  /** After `n` ticks an entry has risen by `n` tenths or reached full scale. */
  lemma {:induction false} TickNScale(items: seq<Shown>, n: nat)
    requires Bounded(items)
    ensures Bounded(TickN(items, n))
    ensures forall i :: 0 <= i < |items| ==>
      TickN(items, n)[i].scale == (if items[i].scale + n < Full then items[i].scale + n else Full)
      && TickN(items, n)[i].item == items[i].item
  {
    if n > 0 {
      TickNScale(items, n - 1);
      TickRule(TickN(items, n - 1));
    }
  }

  /** Ten ticks bring every entry to full scale, and the tick after that stops the timer. */
  lemma FadeCompletes(items: seq<Shown>)
    requires Bounded(items)
    ensures forall i :: 0 <= i < |items| ==> TickN(items, Full)[i].scale == Full
    ensures !Fading(TickN(items, Full))
  {
    TickNScale(items, Full);
  }

  // ---------------------------------------------------------------------------
  // `_parse`: what a response becomes

  /** A response as `_parse` tells them apart; `None` stands for a falsy one. */
  datatype Payload =
    | FeatureCollection(features: seq<GeoJson.Feature>)
    | Overpass(elements: seq<OsmReader.Element>)
    | OtherPayload

  /**
   * What the readers make of a payload: the items (`None` for the
   * `undefined` of an unrecognised payload), a TypeError thrown inside a
   * reader, or the GeoJSON case the model does not follow.
   */
  datatype Reading = Read(items: Option<seq<Building>>) | ReaderThrew | NotFollowed

  /** Whatever a reader returns is made of (lat, lon) pairs. */
  function ReadPayload(p: Payload): (r: Reading)
    ensures r.Read? && r.items.Some? ==> Paired(r.items.value)
  {
    match p
    case FeatureCollection(fs) =>
      (match GeoJson.ReadAll(fs)
       case Next(items) =>
         GeoJson.ReadAllClockwise(fs);
         assert forall i :: 0 <= i < |items| ==> items[i] in items;
         Read(Some(items))
       case TypeError => ReaderThrew
       case LineAsRings => NotFollowed)
    case Overpass(es) =>
      OsmReader.RunOk(es);
      (match OsmReader.ReadAll(es)
       case Ok(items) => Read(Some(items))
       case Thrown(_) => ReaderThrew)
    case OtherPayload => Read(None)
  }

  /** The readers, run as the source runs them. */
  method ReadResponse(p: Payload) returns (r: Reading)
    ensures r == ReadPayload(p)
  {
    match p
    case FeatureCollection(fs) =>
      var o := GeoJson.ReadGeoJson(fs);
      r := match o
        case Next(items) => Read(Some(items))
        case TypeError => ReaderThrew
        case LineAsRings => NotFollowed;
    case Overpass(es) =>
      var reader := new OsmReader.Reader();
      var o := reader.Read(es);
      r := match o
        case Ok(items) => Read(Some(items))
        case Thrown(_) => ReaderThrew;
    case OtherPayload =>
      r := Read(None);
  }

  /** How a call of `_parse` ends. */
  datatype Response = Done | Threw | Unfollowed

  /**
   * `_parse(data, cacheKey)` on the listing and the fade flag: a falsy
   * response does nothing; a recognised one is added as new (scale 0) and
   * starts the fade; an unrecognised one reaches `_scale(undefined)`, which
   * throws.
   */
  function Respond(l: Listing, fading: bool, payload: Option<Payload>, f: Frame): (Response, Listing, bool)
  {
    if payload.None? then (Done, l, fading)
    else
      match ReadPayload(payload.value)
      case ReaderThrew => (Threw, l, fading)
      case NotFollowed => (Unfollowed, l, fading)
      case Read(items) =>
        if items.None? then (Threw, l, fading)
        else (Done, Added(l, ScaleAll(items.value, f), 0), true)
  }

  /** The cache after `_parse`: whatever the readers returned is stored under the key, `undefined` included. */
  function CachedAfter(data: map<(int, int), Caching.Entry>, payload: Option<Payload>, key: Option<(int, int)>, now: int)
    : map<(int, int), Caching.Entry>
  {
    if payload.Some? && ReadPayload(payload.value).Read? && key.Some? then
      data[key.value := Caching.Entry(ReadPayload(payload.value).items, now)]
    else data
  }

  /** A successful response keeps what was listed and appends its new items at scale 0. */
  lemma RespondAppendsNew(l: Listing, fading: bool, payload: Option<Payload>, f: Frame)
    requires Indexed(l) && Bounded(l.items)
    ensures var (r, l2, fading2) := Respond(l, fading, payload, f);
      && Indexed(l2) && Bounded(l2.items) && l.items <= l2.items
      && (forall k :: |l.items| <= k < |l2.items| ==> l2.items[k].scale == 0)
      && (r != Done || payload.None? ==> l2 == l && fading2 == fading)
  {
    if payload.Some? {
      var rd := ReadPayload(payload.value);
      if rd.Read? && rd.items.Some? {
        AddedIndexed(l, ScaleAll(rd.items.value, f), 0);
        AddedAppends(l, ScaleAll(rd.items.value, f), 0);
      }
    }
  }

  /**
   * An unrecognised response is cached as `undefined` for its tile, which the
   * next walk reads as missing and requests again.
   */
  lemma UnrecognisedRequestedAgain(data: map<(int, int), Caching.Entry>, tile: (int, int), now: int,
                                  st: Loaded, url: string, f: Frame)
    requires CachePaired(data)
    ensures CachePaired(CachedAfter(data, Some(OtherPayload), Some(tile), now))
    ensures Respond(st.listing, st.fading, Some(OtherPayload), f).0 == Threw
    ensures Visit(st, tile, CachedAfter(data, Some(OtherPayload), Some(tile), now), url, f).requests
         == st.requests + [Request(Template.Fill(url, TileParams(tile)), tile)]
  {
  }

  /** Every cached list is made of (lat, lon) pairs. */
  predicate CachePaired(data: map<(int, int), Caching.Entry>)
  {
    forall k :: k in data && data[k].items.Some? ==> Paired(data[k].items.value)
  }

  // ---------------------------------------------------------------------------
  // `update`: the tile walk

  /** The tiles of one row, west to east. */
  function Row(i: int, west: int, east: int): (r: seq<(int, int)>)
    decreases east - west
  {
    if east < west then [] else Row(i, west, east - 1) + [(i, east)]
  }

  /** Visiting one more tile of a row extends the tiles visited by that tile. */
  lemma RowStep(done: seq<(int, int)>, i: int, west: int, j: int)
    requires west <= j
    ensures done + Row(i, west, j) == done + Row(i, west, j - 1) + [(i, j)]
  {
    assert Row(i, west, j) == Row(i, west, j - 1) + [(i, j)];
  }

  /** The tiles between the bounds, row by row from south to north. */
  function Tiles(south: int, north: int, west: int, east: int): (r: seq<(int, int)>)
    decreases north - south
  {
    if north < south then [] else Tiles(south, north - 1, west, east) + Row(north, west, east)
  }

  /** The walk visits exactly the tiles inside the bounds. */
  lemma {:induction false} RowCover(i: int, west: int, east: int)
    ensures forall t :: t in Row(i, west, east) <==> t.0 == i && west <= t.1 <= east
    decreases east - west
  {
    if west <= east {
      RowCover(i, west, east - 1);
    }
  }

  lemma {:induction false} TilesCover(south: int, north: int, west: int, east: int)
    ensures forall t :: t in Tiles(south, north, west, east) <==> south <= t.0 <= north && west <= t.1 <= east
    decreases north - south
  {
    if south <= north {
      TilesCover(south, north - 1, west, east);
      RowCover(north, west, east);
    }
  }

  /** The `xhr` call issued for a tile: the filled URL, and the tile the response is cached under. */
  datatype Request = Request(url: string, tile: (int, int))

  /** `{n, e, s, w}` for a tile: `crop` of its edges, in ten-thousandths. */
  function TileParams(tile: (int, int)): map<string, Template.Value>
  {
    var lat := tile.0 as real * 0.0075;
    var lon := tile.1 as real * 0.015;
    map[
      "n" := Template.Num(Geometry.CropUnits(lat + 0.0075)),
      "e" := Template.Num(Geometry.CropUnits(lon + 0.015)),
      "s" := Template.Num(Geometry.CropUnits(lat)),
      "w" := Template.Num(Geometry.CropUnits(lon))]
  }

  /**
   * A tile's edges crop to whole multiples of the tile size (for tiles within a
   * million rows and columns of the origin, which covers the globe's 24000).
   */
  lemma TileEdges(i: int, j: int)
    requires -1_000_000 <= i <= 1_000_000 && -1_000_000 <= j <= 1_000_000
    ensures TileParams((i, j))["n"] == Template.Num(75 * (i + 1))
    ensures TileParams((i, j))["e"] == Template.Num(150 * (j + 1))
    ensures TileParams((i, j))["s"] == Template.Num(75 * i)
    ensures TileParams((i, j))["w"] == Template.Num(150 * j)
  {
    var lat := i as real * 0.0075;
    var lon := j as real * 0.015;
    assert (lat + 0.0075) * 10000.0 == (75 * (i + 1)) as real;
    assert (lon + 0.015) * 10000.0 == (150 * (j + 1)) as real;
    assert lat * 10000.0 == (75 * i) as real;
    assert lon * 10000.0 == (150 * j) as real;
  }

  /**
   * The tiles on the equator have south edge 0, which is falsy, so their
   * `{s}` placeholders stay in the request URL.
   */
  lemma EquatorTileKeepsPlaceholder(j: int, plain: string, rest: string)
    requires '{' !in plain
    ensures Template.Fill(plain + Template.Placeholder("", "s", "") + rest, TileParams((0, j)))
         == plain + Template.Placeholder("", "s", "") + Template.Fill(rest, TileParams((0, j)))
  {
    assert TileParams((0, j))["s"] == Template.Num(0) by {
      assert 0 as real * 0.0075 * 10000.0 == 0.0;
    }
    Template.ZeroNotSubstituted(plain, "s", rest, TileParams((0, j)));
  }

  /** What the walk has built: the listing, the requests issued and whether the fade timer is set. */
  datatype Loaded = Loaded(listing: Listing, requests: seq<Request>, fading: bool)

  /** One tile of the walk: a cached tile is added at full scale, any other one is requested. */
  function Visit(st: Loaded, tile: (int, int), data: map<(int, int), Caching.Entry>, url: string, f: Frame): Loaded
    requires CachePaired(data)
  {
    match Caching.Lookup(data, tile)
    case Some(items) => Loaded(Added(st.listing, ScaleAll(items, f), Full), st.requests, true)
    case None => st.(requests := st.requests + [Request(Template.Fill(url, TileParams(tile)), tile)])
  }

  /** The walk over a list of tiles. */
  function VisitAll(st: Loaded, tiles: seq<(int, int)>, data: map<(int, int), Caching.Entry>, url: string, f: Frame): Loaded
    requires CachePaired(data)
  {
    if tiles == [] then st
    else Visit(VisitAll(st, tiles[..|tiles| - 1], data, url, f), tiles[|tiles| - 1], data, url, f)
  }

  /** The requests the walk issues: one per uncached tile, in walk order. */
  function Requested(tiles: seq<(int, int)>, data: map<(int, int), Caching.Entry>, url: string): seq<Request>
  {
    if tiles == [] then []
    else
      var t := tiles[|tiles| - 1];
      Requested(tiles[..|tiles| - 1], data, url)
        + if Caching.Lookup(data, t).None? then [Request(Template.Fill(url, TileParams(t)), t)] else []
  }

  /**
   * The walk appends one request per uncached tile and nothing else,
   * whatever was requested before: there is no record of requests in flight.
   */
  lemma {:induction false} VisitAllRequests(st: Loaded, tiles: seq<(int, int)>, data: map<(int, int), Caching.Entry>, url: string, f: Frame)
    requires CachePaired(data)
    ensures VisitAll(st, tiles, data, url, f).requests == st.requests + Requested(tiles, data, url)
  {
    if tiles != [] {
      VisitAllRequests(st, tiles[..|tiles| - 1], data, url, f);
    }
  }

  /** Every request is for an uncached tile of the walk, with the tile's URL, and every uncached tile is requested. */
  lemma {:induction false} RequestedTiles(tiles: seq<(int, int)>, data: map<(int, int), Caching.Entry>, url: string)
    ensures forall r :: r in Requested(tiles, data, url) ==>
      r.tile in tiles && Caching.Lookup(data, r.tile).None? && r.url == Template.Fill(url, TileParams(r.tile))
    ensures forall t :: t in tiles && Caching.Lookup(data, t).None? ==>
      Request(Template.Fill(url, TileParams(t)), t) in Requested(tiles, data, url)
  {
    if tiles != [] {
      var init := tiles[..|tiles| - 1];
      RequestedTiles(init, data, url);
      assert forall t :: t in tiles ==> t in init || t == tiles[|tiles| - 1];
      assert forall t :: t in init ==> t in tiles;
    }
  }

  /** The walk keeps the index in step, adds at full scale only, and sets the timer only for cached tiles. */
  lemma {:induction false} VisitAllListing(st: Loaded, tiles: seq<(int, int)>, data: map<(int, int), Caching.Entry>, url: string, f: Frame)
    requires CachePaired(data) && Indexed(st.listing) && Bounded(st.listing.items)
    ensures Indexed(VisitAll(st, tiles, data, url, f).listing)
    ensures Bounded(VisitAll(st, tiles, data, url, f).listing.items)
    ensures st.listing.items <= VisitAll(st, tiles, data, url, f).listing.items
    ensures forall k :: |st.listing.items| <= k < |VisitAll(st, tiles, data, url, f).listing.items| ==>
      VisitAll(st, tiles, data, url, f).listing.items[k].scale == Full
    ensures VisitAll(st, tiles, data, url, f).fading ==
      (st.fading || exists t :: t in tiles && Caching.Lookup(data, t).Some?)
  {
    if tiles != [] {
      var init := tiles[..|tiles| - 1];
      VisitAllListing(st, init, data, url, f);
      var mid := VisitAll(st, init, data, url, f);
      var t := tiles[|tiles| - 1];
      assert forall u :: u in tiles <==> u in init || u == t;
      match Caching.Lookup(data, t)
      case Some(items) =>
        AddedIndexed(mid.listing, ScaleAll(items, f), Full);
        AddedAppends(mid.listing, ScaleAll(items, f), Full);
      case None =>
    }
  }

  /** The walk over a list with one more tile. */
  lemma VisitSnoc(st: Loaded, tiles: seq<(int, int)>, t: (int, int), data: map<(int, int), Caching.Entry>, url: string, f: Frame)
    requires CachePaired(data)
    ensures VisitAll(st, tiles + [t], data, url, f) == Visit(VisitAll(st, tiles, data, url, f), t, data, url, f)
  {
    assert (tiles + [t])[..|tiles|] == tiles;
  }

  // ---------------------------------------------------------------------------
  // The layer

  class Data {
    /** `_url`; "" until `load` sets it. */
    var url: string
    /** `me.renderItems`. */
    var renderItems: seq<Shown>
    /** `_index`: the ids of the items in `renderItems`. */
    var index: set<Key>
    /** `animTimer` is set. */
    var animating: bool
    /** The `xhr` calls issued so far, in order. */
    var requests: seq<Request>
    /** `Cache`, keyed by tile. */
    const cache: Caching.Cache<(int, int)>

    /** The index is in step with the items, scales are at most full, and the cache holds reader output. */
    predicate Valid()
      reads this, cache
    {
      && CachePaired(cache.data)
      && Indexed(Listing(renderItems, index))
      && Bounded(renderItems)
    }

    constructor(c: Caching.Cache<(int, int)>)
      requires CachePaired(c.data)
      ensures Valid()
      ensures cache == c && url == "" && renderItems == [] && index == {} && !animating && requests == []
    {
      cache := c;
      url := "";
      renderItems := [];
      index := {};
      animating := false;
      requests := [];
    }

    /** `fadeIn()`: start the timer unless it is already running. */
    method FadeIn()
      modifies this
      ensures animating
      ensures renderItems == old(renderItems) && index == old(index)
      ensures url == old(url) && requests == old(requests)
    {
      if animating {
        return;
      }
      animating := true;
    }

    /** One run of the `fadeIn` timer; the timer is cleared when no item needed raising. */
    method Tick()
      requires Valid() && animating
      modifies this
      ensures Valid()
      ensures renderItems == TickAll(old(renderItems))
      ensures animating == Fading(old(renderItems))
      ensures index == old(index) && url == old(url) && requests == old(requests)
    {
      ghost var start := renderItems;
      var needed := false;
      var i := 0;
      while i < |renderItems|
        invariant |renderItems| == |start| && 0 <= i <= |start|
        invariant forall k :: 0 <= k < i ==> renderItems[k] == Ticked(start[k])
        invariant forall k :: i <= k < |start| ==> renderItems[k] == start[k]
        invariant needed <==> exists k :: 0 <= k < i && start[k].scale < Full
        invariant index == old(index) && url == old(url) && requests == old(requests) && animating == old(animating)
      {
        var item := renderItems[i];
        if item.scale < Full {
          var s := item.scale + 1;
          if s > Full {
            s := Full;
          }
          renderItems := renderItems[i := item.(scale := s)];
          needed := true;
        }
        i := i + 1;
      }
      assert renderItems == TickAll(start);
      TickRule(start);
      assert IdsOf(renderItems) == IdsOf(start) by {
        assert forall k :: 0 <= k < |start| ==> renderItems[k].item == start[k].item;
      }
      if !needed {
        animating := false;
      }
    }

    /** `_add(items, isNew)`: scale the items, append the new ids, start the fade. */
    method Add(items: seq<Building>, isNew: bool, f: Frame)
      requires Valid() && Paired(items)
      modifies this
      ensures Valid()
      ensures Listing(renderItems, index)
           == Added(old(Listing(renderItems, index)), ScaleAll(items, f), if isNew then 0 else Full)
      ensures animating
      ensures url == old(url) && requests == old(requests)
    {
      var scale: nat := if isNew then 0 else Full;
      var scaled := ScaleItems(items, f);
      ghost var start := Listing(renderItems, index);
      Append(scaled, scale);
      AddedIndexed(start, scaled, scale);
      AddedAppends(start, scaled, scale);
      assert Bounded(renderItems);
      FadeIn();
    }

    /** The loop of `_add`: each item whose id is not in the index is appended at the given scale. */
    method Append(scaled: seq<Scaled>, scale: nat)
      modifies this
      ensures Listing(renderItems, index) == Added(old(Listing(renderItems, index)), scaled, scale)
      ensures url == old(url) && requests == old(requests) && animating == old(animating)
    {
      ghost var start := Listing(renderItems, index);
      var i := 0;
      while i < |scaled|
        invariant 0 <= i <= |scaled|
        invariant Listing(renderItems, index) == Added(start, scaled[..i], scale)
        invariant url == old(url) && requests == old(requests) && animating == old(animating)
      {
        ghost var prev := Listing(renderItems, index);
        var item := scaled[i];
        assert scaled[..i + 1][..i] == scaled[..i] && scaled[..i + 1][i] == item;
        assert Added(start, scaled[..i + 1], scale)
            == if item.id in prev.index then prev
               else Listing(prev.items + [Shown(item, scale)], prev.index + {item.id});
        if item.id !in index {
          renderItems := renderItems + [Shown(item, scale)];
          index := index + {item.id};
        }
        i := i + 1;
      }
      assert scaled[..i] == scaled;
    }

    /** `_parse(data, cacheKey)`, for a response that arrived at time `now`. */
    method Parse(payload: Option<Payload>, key: Option<(int, int)>, now: int, f: Frame) returns (r: Response)
      requires Valid()
      modifies this, cache
      ensures Valid()
      ensures (r, Listing(renderItems, index), animating) == Respond(old(Listing(renderItems, index)), old(animating), payload, f)
      ensures cache.data == CachedAfter(old(cache.data), payload, key, now) && cache.time == old(cache.time)
      ensures url == old(url) && requests == old(requests)
    {
      if payload.None? {
        return Done;
      }
      var reading := ReadResponse(payload.value);
      if reading.ReaderThrew? {
        return Threw;
      }
      if reading.NotFollowed? {
        return Unfollowed;
      }
      if key.Some? {
        cache.Add(key.value, reading.items, now);
      }
      if reading.items.None? {
        return Threw;
      }
      Add(reading.items.value, true, f);
      return Done;
    }

    /** `set(data)`: empty the list and the index, then parse the data without caching it. */
    method Set(payload: Option<Payload>, now: int, f: Frame) returns (r: Response)
      requires Valid()
      modifies this, cache
      ensures Valid()
      ensures (r, Listing(renderItems, index), animating) == Respond(Listing([], {}), old(animating), payload, f)
      ensures cache.data == old(cache.data) && cache.time == old(cache.time)
      ensures url == old(url) && requests == old(requests)
    {
      renderItems := [];
      index := {};
      r := Parse(payload, None, now, f);
    }

    /**
     * `update()`, with the data tiles covering the view given by their
     * indices. Below MIN_ZOOM, or before `load`, nothing happens; otherwise
     * the cache is purged, the list and index are emptied and every tile is
     * visited.
     */
    method Update(f: Frame, south: int, north: int, west: int, east: int)
      requires Valid()
      modifies this, cache
      ensures Valid()
      ensures url == old(url)
      ensures url == "" || f.zoom < Scene.MinZoom ==>
        && renderItems == old(renderItems) && index == old(index) && animating == old(animating)
        && requests == old(requests) && cache.data == old(cache.data) && cache.time == old(cache.time)
      ensures url != "" && f.zoom >= Scene.MinZoom ==>
        && cache.time == old(cache.time) - Caching.PurgeStep
        && cache.data == Caching.Kept(old(cache.data), cache.time)
        && Loaded(Listing(renderItems, index), requests, animating)
           == VisitAll(Loaded(Listing([], {}), old(requests), old(animating)), Tiles(south, north, west, east), cache.data, url, f)
    {
      if url == "" || f.zoom < Scene.MinZoom {
        return;
      }
      cache.Purge();
      renderItems := [];
      index := {};
      ghost var st0 := Loaded(Listing([], {}), requests, animating);
      var i := south;
      while i <= north
        invariant south <= i && (i <= north + 1 || i == south)
        invariant Valid() && url == old(url)
        invariant cache.time == old(cache.time) - Caching.PurgeStep
        invariant cache.data == Caching.Kept(old(cache.data), cache.time)
        invariant Loaded(Listing(renderItems, index), requests, animating)
               == VisitAll(st0, Tiles(south, i - 1, west, east), cache.data, url, f)
      {
        VisitRow(f, i, west, east, st0, Tiles(south, i - 1, west, east));
        assert Tiles(south, i, west, east) == Tiles(south, i - 1, west, east) + Row(i, west, east);
        i := i + 1;
      }
      assert Tiles(south, i - 1, west, east) == Tiles(south, north, west, east);
    }

    /** The inner loop of `update`: the tiles of row `i`, west to east. */
    method VisitRow(f: Frame, i: int, west: int, east: int, ghost st0: Loaded, ghost done: seq<(int, int)>)
      requires Valid()
      requires Loaded(Listing(renderItems, index), requests, animating) == VisitAll(st0, done, cache.data, url, f)
      modifies this
      ensures Valid() && url == old(url)
      ensures Loaded(Listing(renderItems, index), requests, animating)
           == VisitAll(st0, done + Row(i, west, east), cache.data, url, f)
    {
      var j := west;
      assert done + Row(i, west, j - 1) == done;
      while j <= east
        invariant west <= j && (j <= east + 1 || j == west)
        invariant Valid() && url == old(url)
        invariant Loaded(Listing(renderItems, index), requests, animating)
               == VisitAll(st0, done + Row(i, west, j - 1), cache.data, url, f)
      {
        VisitTile(f, (i, j), st0, done + Row(i, west, j - 1));
        RowStep(done, i, west, j);
        j := j + 1;
      }
    }

    /** One turn of the inner loop: add the cached items at full scale, or request the tile. */
    method VisitTile(f: Frame, key: (int, int), ghost st0: Loaded, ghost done: seq<(int, int)>)
      requires Valid()
      requires Loaded(Listing(renderItems, index), requests, animating) == VisitAll(st0, done, cache.data, url, f)
      modifies this
      ensures Valid() && url == old(url)
      ensures Loaded(Listing(renderItems, index), requests, animating)
           == VisitAll(st0, done + [key], cache.data, url, f)
    {
      VisitSnoc(st0, done, key, cache.data, url, f);
      var cached := cache.Get(key);
      if cached.Some? {
        Add(cached.value, false, f);
      } else {
        requests := requests + [Request(Template.Fill(url, TileParams(key)), key)];
      }
    }

    /** `load(url)`: the given URL or OSM_XAPI_URL, then `update()`. */
    method Load(newUrl: string, f: Frame, south: int, north: int, west: int, east: int)
      requires Valid()
      modifies this, cache
      ensures Valid()
      ensures url == (if newUrl != "" then newUrl else OsmXapiUrl) && url != ""
      ensures f.zoom < Scene.MinZoom ==>
        && renderItems == old(renderItems) && index == old(index) && animating == old(animating)
        && requests == old(requests) && cache.data == old(cache.data) && cache.time == old(cache.time)
      ensures f.zoom >= Scene.MinZoom ==>
        && cache.time == old(cache.time) - Caching.PurgeStep
        && cache.data == Caching.Kept(old(cache.data), cache.time)
        && Loaded(Listing(renderItems, index), requests, animating)
           == VisitAll(Loaded(Listing([], {}), old(requests), old(animating)), Tiles(south, north, west, east), cache.data, url, f)
    {
      url := if newUrl != "" then newUrl else OsmXapiUrl;
      Update(f, south, north, west, east);
    }
  }
}
