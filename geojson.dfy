/**
 * `readGeoJSON(collection)`: a GeoJSON feature list turned into buildings.
 *
 * The reader keeps `coordinates`, `wallColor` and `roofColor` in variables
 * that are never reset between features, so a feature without a polygon of
 * its own reuses the previous one's, and colours carry over. The hole loop
 * reads `coordinates[i]` (the feature's index in the collection) where the
 * ring index `j` was meant, and the height sum is divided by the length of
 * the last ring that loop visited. All of this is kept as written.
 */
module GeoJson {
  import opened Wrappers
  import opened Js
  import opened Geometry
  import opened Items

  /** A GeoJSON position: longitude, latitude and an altitude that is 0 when absent. */
  datatype Position = Position(lon: real, lat: real, alt: real)

  type Ring = seq<Position>

  /**
   * The geometry of a feature; every other geometry type is `OtherShape`, and
   * `NullGeometry` is a `geometry` that is null or missing.
   */
  datatype Shape =
    | LineString(line: seq<Position>)
    | Polygon(rings: seq<Ring>)
    | MultiPolygon(polygons: seq<seq<Ring>>)
    | OtherShape
    | NullGeometry

  /**
   * The feature properties the reader looks at; "" and 0 stand for a property
   * that is absent or falsy (the reader tests each with `||` or `if`).
   */
  datatype Properties = Properties(
    id: string, color: string, wallColor: string, roofColor: string, height: real, minHeight: real)

  /** A collection entry; `properties` is `None` when it is null or missing. */
  datatype Feature = Feature(kind: string, geometry: Shape, properties: Option<Properties>)

  /** The carried `coordinates` variable: still undefined, or a polygon's rings. */
  datatype Coordinates = Unset | Rings(rings: seq<Ring>)

  /**
   * How far the reader gets. `TypeError` is a property read on `undefined`.
   * `LineAsRings` is the point where a line string's positions have been put
   * in `coordinates`: the source then reads numbers as rings and emits an
   * item of undefined coordinates, which the model does not follow.
   */
  datatype Outcome<+T> = Next(value: T) | TypeError | LineAsRings

  /** The variables carried from one feature to the next, and the result list. */
  datatype State = State(coords: Coordinates, wallColor: string, roofColor: string, res: seq<Building>)

  const Start := State(Unset, "", "", [])

  /** A JS string property as an optional colour: "" is falsy. */
  function Truthy(s: string): (r: Option<string>)
    ensures r.None? <==> s == ""
    ensures r.Some? ==> r.value == s
  {
    if s == "" then None else Some(s)
  }

  /** The pushes `lat, lon` for each position of a ring, in order. */
  function Flat(ring: Ring): (r: seq<real>)
    ensures |r| == 2 * |ring|
  {
    if ring == [] then []
    else Flat(ring[..|ring| - 1]) + [ring[|ring| - 1].lat, ring[|ring| - 1].lon]
  }

  /** The footprint starts with the first position's latitude and longitude. */
  lemma {:induction false} FlatFirst(ring: Ring)
    requires |ring| > 0
    ensures Flat(ring)[..2] == [ring[0].lat, ring[0].lon]
  {
    if |ring| > 1 {
      var init := ring[..|ring| - 1];
      FlatFirst(init);
      assert init[0] == ring[0];
      assert Flat(ring)[..2] == Flat(init)[..2];
    }
  }

  /** What one position adds to `heightSum`: `height || alt || 0`. */
  function HeightTerm(height: real, p: Position): real
  {
    if height != 0.0 then height else p.alt
  }

  /** `heightSum` after the loop over a ring. */
  function HeightSum(ring: Ring, height: real): real
  {
    if ring == [] then 0.0
    else HeightSum(ring[..|ring| - 1], height) + HeightTerm(height, ring[|ring| - 1])
  }

  /** With a height property every position adds that height. */
  lemma {:induction false} HeightSumUniform(ring: Ring, height: real)
    requires height != 0.0
    ensures HeightSum(ring, height) == |ring| as real * height
  {
    if ring != [] {
      HeightSumUniform(ring[..|ring| - 1], height);
    }
  }

  /** `n` copies of `x`. */
  function Repeat<T>(x: T, n: nat): (r: seq<T>)
    ensures |r| == n
    ensures forall k :: 0 <= k < n ==> r[k] == x
  {
    if n == 0 then [] else Repeat(x, n - 1) + [x]
  }

  /**
   * `rs[a][k] === rs[b][k]`: positions are distinct objects, so the two
   * entries are identical only when they are the same entry of the same ring
   * or both missing.
   */
  predicate SameEntry(rs: seq<Ring>, a: nat, b: nat, k: nat)
    requires a < |rs| && b < |rs|
  {
    a == b || (k >= |rs[a]| && k >= |rs[b]|)
  }

  /** The `coordinates` that the geometry branches leave for a feature. */
  function Select(c: Coordinates, g: Shape): Outcome<Coordinates>
  {
    match g
    case LineString(_) =>
      if c.Unset? || |c.rings| == 0 then TypeError
      else
        var last := |c.rings| - 1;
        if SameEntry(c.rings, 0, last, 0) && SameEntry(c.rings, 0, last, 1) then LineAsRings
        else Next(c)
    case Polygon(rs) => Next(Rings(rs))
    case MultiPolygon(ps) => Next(if |ps| == 0 then Unset else Rings(ps[0]))
    case OtherShape => Next(c)
    case NullGeometry => TypeError
  }

  /**
   * `heightSum/polygon.length <<0` when `heightSum` is truthy, else no height;
   * dividing by an empty ring gives an infinity, and `<<0` turns it into 0.
   */
  function MeanHeight(sum: real, n: nat): int
  {
    if sum == 0.0 || n == 0 then 0 else ToInt32(sum / n as real)
  }

  /** Dividing a product by one of its positive factors. */
  lemma CancelFactor(m: real, h: real)
    requires m > 0.0
    ensures m * h / m == h
    ensures h != 0.0 ==> m * h != 0.0
  {
    var q := m * h / m;
    assert q * m == m * h;
    assert (q - h) * m == 0.0;
    if m * h == 0.0 {
      assert q == 0.0 / m == 0.0;
    }
  }

  /** `n` equal terms summed and divided by `n` give the term back, as `<<0` makes it. */
  lemma MeanOfEqual(n: nat, h: real)
    requires n > 0
    ensures MeanHeight(n as real * h, n) == ToInt32(h)
  {
    CancelFactor(n as real, h);
    if h == 0.0 {
      assert n as real * h == 0.0;
    }
  }

  /** The mean height of a ring whose every position adds the same height. */
  lemma UniformMean(ring: Ring, h: real, n: nat)
    requires |ring| > 0 && h != 0.0 && n > 0
    ensures MeanHeight(HeightSum(ring, h), n) == ToInt32(|ring| as real * h / n as real)
  {
    HeightSumUniform(ring, h);
    CancelFactor(|ring| as real, h);
  }

  /**
   * Where the item's height comes from: the outer ring's height sum divided
   * by the length of the last ring visited, which is ring `index` once there
   * are holes.
   */
  lemma ItemHeight(rs: seq<Ring>, index: nat, p: Properties, wall: string, roof: string)
    requires |rs| > 0 && (|rs| == 1 || index < |rs|)
    ensures ItemOf(rs, index, p, wall, roof).Next?
    ensures ItemOf(rs, index, p, wall, roof).value.height
         == MeanHeight(HeightSum(rs[0], p.height), if |rs| > 1 then |rs[index]| else |rs[0]|)
  {
  }

  /** The item built from the rings `rs` for the feature at position `index`. */
  function ItemOf(rs: seq<Ring>, index: nat, p: Properties, wall: string, roof: string): Outcome<Building>
  {
    if |rs| == 0 || (|rs| > 1 && index >= |rs|) then TypeError
    else
      var footprint := Flat(rs[0]);
      var sum := HeightSum(rs[0], p.height);
      var holes := if |rs| > 1 then Repeat(Flat(rs[index]), |rs| - 1) else [];
      var last := if |rs| > 1 then rs[index] else rs[0];
      var height := MeanHeight(sum, |last|);
      var id := if p.id != "" then Given(p.id) else Corner(footprint[..if |footprint| < 2 then |footprint| else 2]);
      Next(Building(id, Oriented(footprint, CW), holes, height, p.minHeight, Truthy(wall), Truthy(roof)))
  }

  /** The wall colour after a feature: `color || wallColor` when truthy, else the carried one. */
  function WallAfter(carried: string, p: Properties): string
  {
    if p.color != "" then p.color else if p.wallColor != "" then p.wallColor else carried
  }

  /** The roof colour after a feature. */
  function RoofAfter(carried: string, p: Properties): string
  {
    if p.roofColor != "" then p.roofColor else carried
  }

  /** One turn of the loop, for the entry at position `index`. */
  function Step(st: State, index: nat, f: Feature): Outcome<State>
  {
    if f.kind != "Feature" then Next(st)
    else
      match Select(st.coords, f.geometry)
      case TypeError => TypeError
      case LineAsRings => LineAsRings
      case Next(coords) =>
        if coords.Unset? then Next(st.(coords := coords))
        else if f.properties.None? then TypeError
        else
          var p := f.properties.value;
          var wall := WallAfter(st.wallColor, p);
          var roof := RoofAfter(st.roofColor, p);
          match ItemOf(coords.rings, index, p, wall, roof)
          case TypeError => TypeError
          case LineAsRings => LineAsRings
          case Next(b) => Next(State(coords, wall, roof, st.res + [b]))
  }

  /** The loop over a prefix of the collection. */
  function Run(fs: seq<Feature>): Outcome<State>
  {
    if fs == [] then Next(Start)
    else
      match Run(fs[..|fs| - 1])
      case Next(st) => Step(st, |fs| - 1, fs[|fs| - 1])
      case TypeError => TypeError
      case LineAsRings => LineAsRings
  }

  /** `readGeoJSON(collection)`. */
  function ReadAll(fs: seq<Feature>): Outcome<seq<Building>>
  {
    match Run(fs)
    case Next(st) => Next(st.res)
    case TypeError => TypeError
    case LineAsRings => LineAsRings
  }

  /** Once the loop stops on a prefix, the whole collection stops the same way. */
  lemma {:induction false} RunStops(fs: seq<Feature>, n: nat)
    requires n <= |fs| && !Run(fs[..n]).Next?
    ensures Run(fs) == Run(fs[..n])
    decreases |fs| - n
  {
    if n < |fs| {
      assert fs[..|fs| - 1][..n] == fs[..n];
      RunStops(fs[..|fs| - 1], n);
      assert fs[..|fs| - 1][..n] == fs[..n];
    } else {
      assert fs[..n] == fs;
    }
  }

  /** The loop pushing `lat, lon` for every position of a ring, and summing `heightSum`. */
  method FlattenRing(polygon: Ring, height: real) returns (footprint: seq<real>, heightSum: real)
    ensures footprint == Flat(polygon)
    ensures heightSum == HeightSum(polygon, height)
  {
    footprint := [];
    heightSum := 0.0;
    var j := 0;
    while j < |polygon|
      invariant 0 <= j <= |polygon|
      invariant footprint == Flat(polygon[..j])
      invariant heightSum == HeightSum(polygon[..j], height)
    {
      assert polygon[..j + 1][..j] == polygon[..j];
      footprint := footprint + [polygon[j].lat, polygon[j].lon];
      heightSum := heightSum + if height != 0.0 then height else polygon[j].alt;
      j := j + 1;
    }
    assert polygon[..j] == polygon;
  }

  /** The hole loop: one copy of ring `index` per ring after the first. */
  method CollectHoles(rs: seq<Ring>, index: nat) returns (r: Option<seq<seq<real>>>)
    requires |rs| > 0
    ensures r.None? <==> |rs| > 1 && index >= |rs|
    ensures r.Some? ==> r.value == if |rs| > 1 then Repeat(Flat(rs[index]), |rs| - 1) else []
  {
    var holes: seq<seq<real>> := [];
    var j := 1;
    while j < |rs|
      invariant 1 <= j <= |rs|
      invariant j == 1 ==> holes == []
      invariant j > 1 ==> index < |rs| && holes == Repeat(Flat(rs[index]), j - 1)
    {
      if index >= |rs| {
        return None;
      }
      var hole, _ := FlattenRing(rs[index], 0.0);
      holes := holes + [hole];
      j := j + 1;
    }
    return Some(holes);
  }

  /** From `polygon = coordinates[0]` to the finished item. */
  method BuildItem(rs: seq<Ring>, index: nat, properties: Properties, wallColor: string, roofColor: string)
    returns (r: Outcome<Building>)
    ensures r == ItemOf(rs, index, properties, wallColor, roofColor)
  {
    if |rs| == 0 {
      return TypeError;
    }
    var footprint, heightSum := FlattenRing(rs[0], properties.height);
    var holes := CollectHoles(rs, index);
    if holes.None? {
      return TypeError;
    }
    var polygon := if |rs| > 1 then rs[index] else rs[0];
    var id := if properties.id != "" then Given(properties.id)
              else Corner(footprint[..if |footprint| < 2 then |footprint| else 2]);
    var oriented := MakeWinding(footprint, CW);
    var height := 0;
    if heightSum != 0.0 {
      // an empty last ring divides by 0, and `Infinity <<0` is 0
      height := if |polygon| == 0 then 0 else ToInt32(heightSum / |polygon| as real);
    }
    assert height == MeanHeight(heightSum, |polygon|);
    return Next(Building(id, oriented, holes.value, height, properties.minHeight,
                         Truthy(wallColor), Truthy(roofColor)));
  }

  /** The three geometry branches that may assign `coordinates`. */
  method SelectCoordinates(coordinates: Coordinates, geometry: Shape) returns (r: Outcome<Coordinates>)
    ensures r == Select(coordinates, geometry)
  {
    r := Next(coordinates);
    if geometry.NullGeometry? {
      return TypeError;
    }
    if geometry.LineString? {
      if coordinates.Unset? || |coordinates.rings| == 0 {
        return TypeError;
      }
      var last := |coordinates.rings| - 1;
      if SameEntry(coordinates.rings, 0, last, 0) && SameEntry(coordinates.rings, 0, last, 1) {
        return LineAsRings;
      }
    }
    if geometry.Polygon? {
      r := Next(Rings(geometry.rings));
    }
    if geometry.MultiPolygon? {
      r := Next(if |geometry.polygons| == 0 then Unset else Rings(geometry.polygons[0]));
    }
  }

  /** `readGeoJSON`, with the loops of the source. */
  method ReadGeoJson(collection: seq<Feature>) returns (r: Outcome<seq<Building>>)
    ensures r == ReadAll(collection)
  {
    var res: seq<Building> := [];
    var coordinates := Unset;
    var wallColor := "";
    var roofColor := "";
    var i := 0;
    while i < |collection|
      invariant 0 <= i <= |collection|
      invariant Run(collection[..i]) == Next(State(coordinates, wallColor, roofColor, res))
    {
      assert collection[..i + 1][..i] == collection[..i];
      var st := State(coordinates, wallColor, roofColor, res);
      var feature := collection[i];
      if feature.kind != "Feature" {
        i := i + 1;
        continue;
      }
      var sel := SelectCoordinates(coordinates, feature.geometry);
      if !sel.Next? {
        RunStops(collection, i + 1);
        return if sel.TypeError? then TypeError else LineAsRings;
      }
      coordinates := sel.value;
      if coordinates.Unset? {
        i := i + 1;
        continue;
      }
      if feature.properties.None? {
        RunStops(collection, i + 1);
        return TypeError;
      }
      var properties := feature.properties.value;
      if properties.color != "" || properties.wallColor != "" {
        wallColor := if properties.color != "" then properties.color else properties.wallColor;
      }
      if properties.roofColor != "" {
        roofColor := properties.roofColor;
      }
      var built := BuildItem(coordinates.rings, i, properties, wallColor, roofColor);
      if !built.Next? {
        RunStops(collection, i + 1);
        return if built.TypeError? then TypeError else LineAsRings;
      }
      var item := built.value;
      res := res + [item];
      i := i + 1;
    }
    assert collection[..i] == collection;
    return Next(res);
  }

  // ---------------------------------------------------------------------------
  // What the reader promises

  /** An emitted item: an even-length footprint, clockwise unless of zero area, and even-length holes. */
  predicate Clockwise(b: Building)
  {
    && |b.footprint| % 2 == 0
    && (CrossSum(b.footprint) != 0.0 ==> WindingOf(b.footprint) == CW)
    && forall h :: h in b.holes ==> |h| % 2 == 0
  }

  /** Every item built is clockwise, with one footprint vertex per position of the outer ring. */
  lemma ItemClockwise(rs: seq<Ring>, index: nat, p: Properties, wall: string, roof: string)
    requires ItemOf(rs, index, p, wall, roof).Next?
    ensures Clockwise(ItemOf(rs, index, p, wall, roof).value)
    ensures |ItemOf(rs, index, p, wall, roof).value.footprint| == 2 * |rs[0]|
  {
    var b := ItemOf(rs, index, p, wall, roof).value;
    OrientedDirection(Flat(rs[0]), CW);
    assert b.footprint == Oriented(Flat(rs[0]), CW);
    forall h | h in b.holes ensures |h| % 2 == 0 {
      var k :| 0 <= k < |b.holes| && b.holes[k] == h;
      assert h == Flat(rs[index]);
    }
  }

  /** The loop only appends, at most one item per entry, and every item is clockwise. */
  lemma {:induction false} RunClockwise(fs: seq<Feature>)
    ensures Run(fs).Next? ==> |Run(fs).value.res| <= |fs|
    ensures Run(fs).Next? ==> forall b :: b in Run(fs).value.res ==> Clockwise(b)
  {
    if fs != [] {
      var init := fs[..|fs| - 1];
      RunClockwise(init);
      var prev := Run(init);
      if prev.Next? {
        var st := prev.value;
        var f := fs[|fs| - 1];
        if f.kind == "Feature" {
          var sel := Select(st.coords, f.geometry);
          if sel.Next? && sel.value.Rings? && f.properties.Some? {
            var p := f.properties.value;
            var wall := WallAfter(st.wallColor, p);
            var roof := RoofAfter(st.roofColor, p);
            var item := ItemOf(sel.value.rings, |fs| - 1, p, wall, roof);
            if item.Next? {
              ItemClockwise(sel.value.rings, |fs| - 1, p, wall, roof);
            }
          }
        }
      }
    }
  }

  /** `readGeoJSON` emits at most one building per entry, each clockwise. */
  lemma ReadAllClockwise(fs: seq<Feature>)
    requires ReadAll(fs).Next?
    ensures |ReadAll(fs).value| <= |fs|
    ensures forall b :: b in ReadAll(fs).value ==> Clockwise(b)
  {
    RunClockwise(fs);
  }

  /** Entries whose type is not 'Feature' are skipped and change nothing. */
  lemma SkipsOtherKinds(fs: seq<Feature>, f: Feature)
    requires f.kind != "Feature"
    ensures ReadAll(fs + [f]) == ReadAll(fs)
  {
    assert (fs + [f])[..|fs|] == fs;
  }

  /** A MultiPolygon is read as its first polygon. */
  lemma MultiPolygonFirst(st: State, index: nat, ps: seq<seq<Ring>>, p: Properties)
    requires |ps| > 0
    ensures Step(st, index, Feature("Feature", MultiPolygon(ps), Some(p)))
         == Step(st, index, Feature("Feature", Polygon(ps[0]), Some(p)))
  {
  }

  /** An empty MultiPolygon unsets the carried coordinates and emits nothing. */
  lemma MultiPolygonEmpty(st: State, index: nat, p: Properties)
    ensures Step(st, index, Feature("Feature", MultiPolygon([]), Some(p))) == Next(st.(coords := Unset))
  {
  }

  /** A feature of another geometry type is built from the rings carried over from an earlier feature. */
  lemma CarriedRings(st: State, index: nat, p: Properties)
    requires st.coords.Rings?
    ensures Step(st, index, Feature("Feature", OtherShape, Some(p)))
         == Step(st, index, Feature("Feature", Polygon(st.coords.rings), Some(p)))
  {
  }

  /** Before any polygon, a feature of another geometry type is skipped. */
  lemma NothingCarried(st: State, index: nat, p: Properties)
    requires st.coords.Unset?
    ensures Step(st, index, Feature("Feature", OtherShape, Some(p))) == Next(st)
  {
  }

  /** Reading `coordinates.length` before any polygon: a LineString first throws. */
  lemma LineStringFirst(index: nat, line: seq<Position>, p: Properties)
    ensures Step(Start, index, Feature("Feature", LineString(line), Some(p))) == TypeError
  {
  }

  /**
   * After a one-ring polygon the closed-line test compares an entry with
   * itself, so the line's positions are taken as rings.
   */
  lemma LineStringAfterOneRing(st: State, index: nat, ring: Ring, line: seq<Position>, p: Properties)
    requires st.coords == Rings([ring])
    ensures Step(st, index, Feature("Feature", LineString(line), Some(p))) == LineAsRings
  {
  }

  /**
   * After a polygon with holes the test compares two distinct positions, so
   * the line is ignored and the carried rings are built again.
   */
  lemma LineStringAfterHoles(st: State, index: nat, line: seq<Position>, p: Properties)
    requires st.coords.Rings? && |st.coords.rings| > 1 && |st.coords.rings[0]| > 0
    ensures Step(st, index, Feature("Feature", LineString(line), Some(p)))
         == Step(st, index, Feature("Feature", Polygon(st.coords.rings), Some(p)))
  {
  }

  /** A feature with no colour properties is emitted with the colours of an earlier one. */
  lemma ColoursCarry(st: State, index: nat, rs: seq<Ring>, id: string, height: real, minHeight: real)
    requires Step(st, index, Feature("Feature", Polygon(rs), Some(Properties(id, "", "", "", height, minHeight)))).Next?
    ensures var st2 := Step(st, index, Feature("Feature", Polygon(rs), Some(Properties(id, "", "", "", height, minHeight)))).value;
            |st2.res| == |st.res| + 1
            && st2.res[|st.res|].wallColor == Truthy(st.wallColor)
            && st2.res[|st.res|].roofColor == Truthy(st.roofColor)
  {
  }

  /** `color` takes precedence over `wallColor`; either replaces the carried colour. */
  lemma WallColourChoice(carried: string, p: Properties)
    ensures p.color != "" ==> WallAfter(carried, p) == p.color
    ensures p.color == "" && p.wallColor != "" ==> WallAfter(carried, p) == p.wallColor
    ensures p.color == "" && p.wallColor == "" ==> WallAfter(carried, p) == carried
  {
  }

  /** The id is `properties.id`, or else the first position's "lat,lon". */
  lemma ItemId(rs: seq<Ring>, index: nat, p: Properties, wall: string, roof: string)
    requires ItemOf(rs, index, p, wall, roof).Next?
    ensures p.id != "" ==> ItemOf(rs, index, p, wall, roof).value.id == Given(p.id)
    ensures p.id == "" && |rs[0]| > 0 ==>
              ItemOf(rs, index, p, wall, roof).value.id == Corner([rs[0][0].lat, rs[0][0].lon])
  {
    if |rs[0]| > 0 {
      FlatFirst(rs[0]);
    }
  }

  /**
   * The hole loop reads ring `i`, the feature's index: the first feature of a
   * collection gets its outer ring as its hole, whatever its inner ring is.
   */
  lemma FirstFeatureHoleIsOuter(outer: Ring, inner: Ring, p: Properties)
    ensures ReadAll([Feature("Feature", Polygon([outer, inner]), Some(p))]).Next?
    ensures ReadAll([Feature("Feature", Polygon([outer, inner]), Some(p))]).value[0].holes == [Flat(outer)]
  {
    var fs := [Feature("Feature", Polygon([outer, inner]), Some(p))];
    assert fs[..0] == [];
    assert Run(fs) == Step(Start, 0, fs[0]);
    assert Repeat(Flat(outer), 1) == [Flat(outer)];
    var wall := WallAfter("", p);
    var roof := RoofAfter("", p);
    assert ItemOf([outer, inner], 0, p, wall, roof).Next?;
  }

  /** A polygon with holes at an index past its ring count throws. */
  lemma HolesPastRings(st: State, index: nat, rs: seq<Ring>, p: Properties)
    requires 1 < |rs| <= index
    ensures Step(st, index, Feature("Feature", Polygon(rs), Some(p))) == TypeError
  {
  }

  /** A feature whose `geometry` is null throws on `geometry.type`, whatever was carried. */
  lemma NullGeometryThrows(st: State, index: nat, p: Option<Properties>)
    ensures Step(st, index, Feature("Feature", NullGeometry, p)) == TypeError
  {
  }

  /**
   * A feature whose `properties` is null is skipped while there are no
   * coordinates, since the skip comes before any property is read.
   */
  lemma NullPropertiesSkipped(st: State, index: nat)
    requires st.coords.Unset?
    ensures Step(st, index, Feature("Feature", OtherShape, None)) == Next(st)
  {
  }

  /** Once there are coordinates, a feature whose `properties` is null throws on `properties.color`. */
  lemma NullPropertiesThrow(st: State, index: nat, rs: seq<Ring>)
    ensures Step(st, index, Feature("Feature", Polygon(rs), None)) == TypeError
  {
  }
}
