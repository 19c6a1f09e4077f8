/**
 * `readOSMXAPI`: turns the element list of an Overpass/OSM JSON answer into
 * building items. Nodes, tagged non-building ways and the result list are
 * module-level state that the element pass fills in input order.
 */
module OsmReader {
  import opened Wrappers
  import opened Js
  import opened Geometry
  import opened Items

  type Tags = map<string, string>

  /** `tags[k]` is truthy: present and not the empty string. */
  predicate Has(t: Tags, k: string)
  {
    k in t && t[k] != ""
  }

  const YardToMeter: real := 0.9144
  const FootToMeter: real := 0.3048
  const InchToMeter: real := 0.0254
  const MetersPerLevel: real := 3.0

  // ---------------------------------------------------------------------------
  // parseDimension

  /** Index of the first `c` in `s` at or after `i`; `|s|` when there is none. */
  function IndexFrom(s: string, c: char, i: nat): (k: nat)
    requires i <= |s|
    ensures i <= k <= |s|
    ensures forall j :: i <= j < k ==> s[j] != c
    ensures k < |s| ==> s[k] == c
    decreases |s| - i
  {
    if i == |s| || s[i] == c then i else IndexFrom(s, c, i + 1)
  }

  /** `str.split(c)[0]` and `str.split(c)[1]` for a string that contains `c`. */
  function SplitTwo(s: string, c: char): (r: (string, string))
    requires c in s
    ensures c !in r.0 && c !in r.1
    ensures |r.0| + 1 + |r.1| <= |s| && s[..|r.0|] == r.0 && s[|r.0|] == c
    ensures s[|r.0| + 1..|r.0| + 1 + |r.1|] == r.1
    ensures |r.0| + 1 + |r.1| == |s| || s[|r.0| + 1 + |r.1|] == c
  {
    var a := IndexFrom(s, c, 0);
    assert a < |s| by {
      var j :| 0 <= j < |s| && s[j] == c;
    }
    var b := IndexFrom(s, c, a + 1);
    (s[..a], s[a + 1..b])
  }

  /**
   * `parseDimension(str)`: the leading number of `str` in metres, truncated
   * and wrapped to 32 bits by `<<0`.
   * The unit is looked for in the order 'm', "yd", "ft", then the feet-inch
   * form `f'i`, whose two parts go through `Number` (so a closing `"` on the
   * inches makes the sum NaN, which truncates to 0).
   */
  function ParseDimension(str: string): int
  {
    var value := ParseFloat(str);
    if Contains(str, 'm') then ToInt(value)
    else if ContainsPair(str, 'y', 'd') then ToInt(Times(value, YardToMeter))
    else if ContainsPair(str, 'f', 't') then ToInt(Times(value, FootToMeter))
    else if Contains(str, '\'') then
      var parts := SplitTwo(str, '\'');
      ToInt(Plus(Times(ToNumber(parts.0), FootToMeter), Times(ToNumber(parts.1), InchToMeter)))
    else ToInt(value)
  }

  /** A plain number is read as metres, wrapped to 32 bits by `<<0`. */
  lemma DimensionPlain(n: nat)
    ensures ParseDimension(NatToString(n)) == Int32(n)
    ensures n < TwoTo31 ==> ParseDimension(NatToString(n)) == n
  {
    var s := NatToString(n);
    ParseFloatNatToString(n);
    assert forall k :: 0 <= k < |s| ==> IsDigit(s[k]);
    assert !Contains(s, 'm') && !Contains(s, '\'');
  }

  /** "<n>m" is n metres, wrapped to 32 bits. */
  lemma DimensionMetres(n: nat)
    ensures ParseDimension(NatToString(n) + "m") == Int32(n)
    ensures n < TwoTo31 ==> ParseDimension(NatToString(n) + "m") == n
  {
    var s := NatToString(n) + "m";
    ParseFloatDigitsThen(n, "m");
    assert s[|s| - 1] == 'm';
  }

  /** Three thousand million metres wrap around to a negative height. */
  lemma DimensionWraps()
    ensures ParseDimension(NatToString(3_000_000_000)) == -1_294_967_296
  {
    DimensionPlain(3_000_000_000);
    assert Int32(3_000_000_000) == -1_294_967_296;
  }

  /** The characters of `String(n) + tail` before the tail are digits. */
  lemma DigitsPrefix(n: nat, tail: string)
    ensures forall k :: 0 <= k < |NatToString(n)| ==> IsDigit((NatToString(n) + tail)[k])
  {
  }

  /** After a number, the unit "yd" or "ft" is the only unit `parseDimension` finds. */
  lemma UnitAfterNumber(n: nat, u: string)
    requires u == "yd" || u == "ft"
    ensures var s := NatToString(n) + u;
      && !Contains(s, 'm')
      && (ContainsPair(s, 'y', 'd') <==> u == "yd")
      && (ContainsPair(s, 'f', 't') <==> u == "ft")
  {
    var d := NatToString(n);
    var s := d + u;
    DigitsPrefix(n, u);
    assert s[|d|] == u[0] && s[|d| + 1] == u[1];
    assert forall k :: 0 <= k < |s| ==> s[k] != 'm' by {
      forall k | 0 <= k < |s| ensures s[k] != 'm' {
        if k >= |d| { assert s[k] == u[k - |d|]; }
      }
    }
    assert forall k :: 0 <= k < |d| ==> s[k] != 'y' && s[k] != 'f';
  }

  /** Text naming yards and no metres takes the yard branch. */
  lemma YardBranch(s: string, x: real)
    requires !Contains(s, 'm') && ContainsPair(s, 'y', 'd')
    requires ParseFloat(s) == Finite(x)
    ensures ParseDimension(s) == ToInt32(x * YardToMeter)
  {
    assert ParseDimension(s) == ToInt(Times(ParseFloat(s), YardToMeter));
    ScaledValue(ParseFloat(s), x, YardToMeter);
  }

  /** Text naming feet and neither metres nor yards takes the foot branch. */
  lemma FootBranch(s: string, x: real)
    requires !Contains(s, 'm') && !ContainsPair(s, 'y', 'd') && ContainsPair(s, 'f', 't')
    requires ParseFloat(s) == Finite(x)
    ensures ParseDimension(s) == ToInt32(x * FootToMeter)
  {
    assert ParseDimension(s) == ToInt(Times(ParseFloat(s), FootToMeter));
    ScaledValue(ParseFloat(s), x, FootToMeter);
  }

  /** A finite value times a unit factor, under `<<0`. */
  lemma ScaledValue(a: JsNum, x: real, f: real)
    requires a == Finite(x)
    ensures ToInt(Times(a, f)) == ToInt32(x * f)
  {
    assert Times(a, f) == Finite(x * f);
    ToIntFinite(x * f);
  }

  /** "<n>yd" is n yards, truncated to whole metres and wrapped to 32 bits. */
  lemma DimensionYards(n: nat)
    ensures ParseDimension(NatToString(n) + "yd") == ToInt32(n as real * YardToMeter)
  {
    ParseFloatDigitsThen(n, "yd");
    YardsNumber(n);
  }

  /** "<n>yd" names yards and no metres. */
  lemma YardsAfterNumber(n: nat)
    ensures !Contains(NatToString(n) + "yd", 'm') && ContainsPair(NatToString(n) + "yd", 'y', 'd')
  {
    UnitAfterNumber(n, "yd");
  }

  /** "<n>ft" names feet and neither metres nor yards. */
  lemma FeetAfterNumber(n: nat)
    ensures var s := NatToString(n) + "ft";
      !Contains(s, 'm') && !ContainsPair(s, 'y', 'd') && ContainsPair(s, 'f', 't')
  {
    UnitAfterNumber(n, "ft");
    assert "ft" != "yd" by {
      assert "ft"[0] != "yd"[0];
    }
  }

  lemma YardsNumber(n: nat)
    requires ParseFloat(NatToString(n) + "yd") == Finite(n as real)
    ensures ParseDimension(NatToString(n) + "yd") == ToInt32(n as real * YardToMeter)
  {
    YardsAfterNumber(n);
    YardBranch(NatToString(n) + "yd", n as real);
  }

  /** "<n>ft" is n feet, truncated to whole metres and wrapped to 32 bits. */
  lemma DimensionFeet(n: nat)
    ensures ParseDimension(NatToString(n) + "ft") == ToInt32(n as real * FootToMeter)
  {
    ParseFloatDigitsThen(n, "ft");
    FeetNumber(n);
  }

  lemma FeetNumber(n: nat)
    requires ParseFloat(NatToString(n) + "ft") == Finite(n as real)
    ensures ParseDimension(NatToString(n) + "ft") == ToInt32(n as real * FootToMeter)
  {
    FeetAfterNumber(n);
    FootBranch(NatToString(n) + "ft", n as real);
  }

  /** The two parts of "<f>'<tail>" are the feet and the tail. */
  lemma SplitFeet(f: nat, tail: string)
    requires '\'' !in tail
    ensures '\'' in NatToString(f) + "'" + tail
    ensures SplitTwo(NatToString(f) + "'" + tail, '\'') == (NatToString(f), tail)
  {
    var d := NatToString(f);
    var s := d + "'" + tail;
    DigitsPrefix(f, "'" + tail);
    assert s[|d|] == '\'';
    var a := IndexFrom(s, '\'', 0);
    assert a == |d|;
    var b := IndexFrom(s, '\'', a + 1);
    assert b == |s|;
    assert s[..a] == d;
    assert s[a + 1..b] == tail;
  }

  /** Characters of the feet-inch form other than digits. */
  predicate FeetInchChar(c: char)
  {
    IsDigit(c) || c == '\'' || c == '"'
  }

  /** Text made of digits and feet-inch marks names none of the other units. */
  lemma NoOtherUnit(s: string)
    requires forall k :: 0 <= k < |s| ==> FeetInchChar(s[k])
    ensures !Contains(s, 'm') && !ContainsPair(s, 'y', 'd') && !ContainsPair(s, 'f', 't')
  {
    assert forall k :: 0 <= k < |s| ==> s[k] != 'm' && s[k] != 'y' && s[k] != 'f';
  }

  /** "<f>'<tail>" is made of feet-inch characters when the tail is. */
  lemma FeetInchText(f: nat, tail: string)
    requires forall k :: 0 <= k < |tail| ==> FeetInchChar(tail[k])
    ensures var s := NatToString(f) + "'" + tail;
            forall k :: 0 <= k < |s| ==> FeetInchChar(s[k])
  {
    var d := NatToString(f);
    var s := d + "'" + tail;
    DigitsPrefix(f, "'" + tail);
    forall k | 0 <= k < |s|
      ensures FeetInchChar(s[k])
    {
      if k > |d| {
        assert s[k] == tail[k - |d| - 1];
      }
    }
  }

  /** "<f>'<i>" is f feet and i inches, truncated to whole metres and wrapped to 32 bits. */
  lemma DimensionFeetInches(f: nat, i: nat)
    ensures ParseDimension(NatToString(f) + "'" + NatToString(i))
            == ToInt32(f as real * FootToMeter + i as real * InchToMeter)
  {
    ToNumberNatToString(f);
    ToNumberNatToString(i);
    FeetInchNumbers(f, i);
  }

  /** The feet-inch branch once both parts are known to read as numbers. */
  lemma FeetInchNumbers(f: nat, i: nat)
    requires ToNumber(NatToString(f)) == Finite(f as real) && ToNumber(NatToString(i)) == Finite(i as real)
    ensures ParseDimension(NatToString(f) + "'" + NatToString(i))
            == ToInt32(f as real * FootToMeter + i as real * InchToMeter)
  {
    FeetInchForm(f, i);
    FeetInchBranch(NatToString(f) + "'" + NatToString(i), f as real, i as real);
  }

  /** "<f>'<i>" names only the foot mark and splits into the two numbers. */
  lemma FeetInchForm(f: nat, i: nat)
    ensures var s := NatToString(f) + "'" + NatToString(i);
      && !Contains(s, 'm') && !ContainsPair(s, 'y', 'd') && !ContainsPair(s, 'f', 't')
      && '\'' in s
      && SplitTwo(s, '\'') == (NatToString(f), NatToString(i))
  {
    var e := NatToString(i);
    var s := NatToString(f) + "'" + e;
    NatToStringDigits(i);
    assert '\'' !in e;
    FeetInchText(f, e);
    NoOtherUnit(s);
    SplitFeet(f, e);
  }

  /** Text with a foot mark and none of the other units takes the feet-inch branch. */
  lemma FeetInchBranch(s: string, x: real, y: real)
    requires !Contains(s, 'm') && !ContainsPair(s, 'y', 'd') && !ContainsPair(s, 'f', 't')
    requires '\'' in s
    requires ToNumber(SplitTwo(s, '\'').0) == Finite(x) && ToNumber(SplitTwo(s, '\'').1) == Finite(y)
    ensures ParseDimension(s) == ToInt32(x * FootToMeter + y * InchToMeter)
  {
    var parts := SplitTwo(s, '\'');
    assert ParseDimension(s) == ToInt(Plus(Times(ToNumber(parts.0), FootToMeter), Times(ToNumber(parts.1), InchToMeter)));
    FeetInchValue(ToNumber(parts.0), ToNumber(parts.1), x, y);
  }

  /** Feet and inches as metres, under `<<0`. */
  lemma FeetInchValue(a: JsNum, b: JsNum, x: real, y: real)
    requires a == Finite(x) && b == Finite(y)
    ensures ToInt(Plus(Times(a, FootToMeter), Times(b, InchToMeter))) == ToInt32(x * FootToMeter + y * InchToMeter)
  {
    var w := x * FootToMeter + y * InchToMeter;
    assert Plus(Times(a, FootToMeter), Times(b, InchToMeter)) == Finite(w);
    ToIntFinite(w);
  }

  /** With the inch mark written out, `Number` fails on the inch part and the height is 0. */
  lemma DimensionInchMark(f: nat, i: nat)
    ensures ParseDimension(NatToString(f) + "'" + NatToString(i) + "\"") == 0
  {
    var e := NatToString(i) + "\"";
    var s := NatToString(f) + "'" + e;
    assert s == NatToString(f) + "'" + NatToString(i) + "\"";
    DigitsPrefix(i, "\"");
    assert forall k :: 0 <= k < |e| ==> FeetInchChar(e[k]);
    assert '\'' !in e;
    FeetInchText(f, e);
    NoOtherUnit(s);
    SplitFeet(f, e);
    ToNumberDigitsThen(i, '"');
  }

  // ---------------------------------------------------------------------------
  // Materials

  /** `baseMaterials`: material names folded onto the ones that have a colour. */
  const BaseMaterials: map<string, string> := map[
    "asphalt" := "tar_paper", "bitumen" := "tar_paper", "block" := "stone", "bricks" := "brick",
    "glas" := "glass", "glassfront" := "glass", "grass" := "plants", "masonry" := "stone",
    "granite" := "stone", "panels" := "panel", "paving_stones" := "stone", "plastered" := "plaster",
    "rooftiles" := "roof_tiles", "roofingfelt" := "tar_paper", "sandstone" := "stone",
    "sheet" := "canvas", "sheets" := "canvas", "shingle" := "tar_paper", "shingles" := "tar_paper",
    "slates" := "slate", "steel" := "metal", "tar" := "tar_paper", "tent" := "canvas",
    "thatch" := "plants", "tile" := "roof_tiles", "tiles" := "roof_tiles"]

  /** `materialColors`: the colour of each base material. */
  const MaterialColors: map<string, string> := map[
    "brick" := "#cc7755", "bronze" := "#ffeecc", "canvas" := "#fff8f0", "concrete" := "#999999",
    "copper" := "#a0e0d0", "glass" := "#e8f8f8", "gold" := "#ffcc00", "plants" := "#009933",
    "metal" := "#aaaaaa", "panel" := "#fff8f0", "plaster" := "#999999", "roof_tiles" := "#f08060",
    "silver" := "#cccccc", "slate" := "#666666", "stone" := "#996666", "tar_paper" := "#333333",
    "wood" := "#deb887"]

  /** Every colour in the table is a '#' colour. */
  lemma MaterialColorsAreHex()
    ensures forall k :: k in MaterialColors ==> |MaterialColors[k]| == 7 && MaterialColors[k][0] == '#'
  {
  }

  /** Every base material has a colour. */
  lemma BaseMaterialsHaveColors()
    ensures forall k :: k in BaseMaterials ==> BaseMaterials[k] in MaterialColors
  {
  }

  /**
   * `parseMaterial(str)`: a '#' colour is passed through lower-cased; a name
   * is folded through `baseMaterials` (or kept) and looked up in
   * `materialColors`; anything else is null.
   */
  function ParseMaterial(str: string): (r: Option<string>)
    ensures |str| > 0 && str[0] == '#' ==> r == Some(Lower(str))
    ensures r.Some? ==> |r.value| > 0 && r.value[0] == '#'
    ensures r.Some? <==> (|str| > 0 && str[0] == '#') || Lower(str) in BaseMaterials || Lower(str) in MaterialColors
  {
    MaterialColorsAreHex();
    BaseMaterialsHaveColors();
    var s := Lower(str);
    if |s| > 0 && s[0] == '#' then Some(s)
    else
      var name := if s in BaseMaterials then BaseMaterials[s] else s;
      if name in MaterialColors then Some(MaterialColors[name]) else None
  }

  /** Material names are matched without regard to case. */
  lemma ParseMaterialCaseInsensitive(str: string)
    ensures ParseMaterial(Lower(str)) == ParseMaterial(str)
  {
    LowerIdempotent(str);
  }

  // ---------------------------------------------------------------------------
  // isBuilding, getBuildingType

  /**
   * `isBuilding(data)`: tags present, no landuse, a building or building:part
   * tag, and a layer that is absent or compares as a number >= 0.
   */
  predicate IsBuilding(tags: Option<Tags>)
  {
    tags.Some? && !Has(tags.value, "landuse")
    && (Has(tags.value, "building") || Has(tags.value, "building:part"))
    && (!Has(tags.value, "layer")
        || (ToNumber(tags.value["layer"]).Finite? && ToNumber(tags.value["layer"]).v >= 0.0))
  }

  /** A layer given as a number of storeys above ground keeps a building a building. */
  lemma IsBuildingLayer(t: Tags, n: nat)
    requires Has(t, "building") && !Has(t, "landuse")
    ensures IsBuilding(Some(t["layer" := NatToString(n)]))
  {
    ToNumberNatToString(n);
    var t' := t["layer" := NatToString(n)];
    assert Has(t', "building") && !Has(t', "landuse");
  }

  /** A layer that is no number at all makes it no building. */
  lemma IsBuildingLayerNaN(t: Tags, layer: string)
    requires ToNumber(layer).NaN?
    ensures !IsBuilding(Some(t["layer" := layer]))
  {
  }

  datatype BuildingType = Living | Worship | Nonliving

  /** A tag value as `tags[k]` reads it: None when absent. */
  function Tag(t: Tags, k: string): Option<string>
  {
    if k in t then Some(t[k]) else None
  }

  /**
   * `getBuildingType(tags)`: worship for an amenity place_of_worship; else the
   * building value, replaced by building:use when it is 'yes' or 'roof', and by
   * the amenity when that leaves nothing; then living or worship by value.
   */
  function BuildingTypeOf(t: Tags): (r: BuildingType)
    ensures Tag(t, "amenity") == Some("place_of_worship") ==> r == Worship
    ensures Tag(t, "building") == Some("church") && Tag(t, "amenity") != Some("place_of_worship") ==> r == Worship
    ensures (Tag(t, "building") in {Some("apartments"), Some("house"), Some("residential"), Some("hut")}
             && Tag(t, "amenity") != Some("place_of_worship")) ==> r == Living
  {
    if Tag(t, "amenity") == Some("place_of_worship") then Worship
    else
      var b := Tag(t, "building");
      var ty := if b == Some("yes") || b == Some("roof") then Tag(t, "building:use") else b;
      var ty' := if ty.None? || ty == Some("") then Tag(t, "amenity") else ty;
      if ty' in {Some("apartments"), Some("house"), Some("residential"), Some("hut")} then Living
      else if ty' == Some("church") then Worship
      else Nonliving
  }

  /** With `building=yes`, the use tag decides, and the amenity when there is none. */
  lemma BuildingTypeOfYes(t: Tags)
    requires Tag(t, "building") == Some("yes") && Tag(t, "amenity") != Some("place_of_worship")
    ensures Tag(t, "building:use") == Some("house") ==> BuildingTypeOf(t) == Living
    ensures Tag(t, "building:use").None? && Tag(t, "amenity") == Some("church") ==> BuildingTypeOf(t) == Worship
    ensures Tag(t, "building:use").None? && Tag(t, "amenity").None? ==> BuildingTypeOf(t) == Nonliving
  {
  }

  // ---------------------------------------------------------------------------
  // filterTags, mergeTags

  /** What `filterTags` returns: heights in whole metres (0 when unset) and colours. */
  datatype Filtered = Filtered(height: int, minHeight: int, wallColor: Option<string>, roofColor: Option<string>)

  /** The height a dimension tag gives, 0 when the tag is not set. */
  function Dimension(t: Tags, k: string): int
  {
    if Has(t, k) then ParseDimension(t[k]) else 0
  }

  /** The height a level-count tag gives (`levels * 3 <<0`), 0 when the tag is not set. */
  function LevelHeight(t: Tags, k: string): int
  {
    if Has(t, k) then ToInt(Times(ToNumber(t[k]), MetersPerLevel)) else 0
  }

  /** A material tag, when set, gives its colour or null. */
  function Material(t: Tags, k: string): Option<Option<string>>
  {
    if Has(t, k) then Some(ParseMaterial(t[k])) else None
  }

  /** A colour tag, when set, gives its own text. */
  function Colour(t: Tags, k: string): Option<Option<string>>
  {
    if Has(t, k) then Some(Some(t[k])) else None
  }

  /** The first non-zero value of the list, or 0. */
  function FirstNonZero(xs: seq<int>): (r: int)
    ensures r == 0 <==> forall k :: 0 <= k < |xs| ==> xs[k] == 0
    ensures r != 0 ==> exists k :: 0 <= k < |xs| && xs[k] == r && forall j :: 0 <= j < k ==> xs[j] == 0
  {
    if xs == [] then 0
    else if xs[0] != 0 then xs[0]
    else
      var r := FirstNonZero(xs[1..]);
      assert forall k :: 1 <= k < |xs| ==> xs[k] == xs[1..][k - 1];
      if r != 0 then
        var k :| 0 <= k < |xs[1..]| && xs[1..][k] == r && forall j :: 0 <= j < k ==> xs[1..][j] == 0;
        assert xs[k + 1] == r && forall j :: 0 <= j < k + 1 ==> xs[j] == 0;
        r
      else r
  }

  /** `if (tags[k]) value = ...`: a tag that is set replaces the value so far. */
  function Replace(prev: Option<string>, x: Option<Option<string>>): Option<string>
  {
    if x.Some? then x.value else prev
  }

  /** Going through the list, each entry that is set replaces the value so far. */
  function Overlay(prev: Option<string>, xs: seq<Option<Option<string>>>): Option<string>
    decreases |xs|
  {
    if xs == [] then prev else Overlay(Replace(prev, xs[0]), xs[1..])
  }

  /** The value of the last entry that is set, or nothing. */
  function LastSet(xs: seq<Option<Option<string>>>): Option<string>
  {
    Overlay(None, xs)
  }

  /** Overlaying keeps the earlier value exactly when no entry is set, and otherwise gives the last one set. */
  lemma {:induction false} OverlayLast(prev: Option<string>, xs: seq<Option<Option<string>>>)
    ensures (forall j :: 0 <= j < |xs| ==> xs[j].None?) ==> Overlay(prev, xs) == prev
    ensures forall j :: 0 <= j < |xs| && xs[j].Some? && (forall k :: j < k < |xs| ==> xs[k].None?)
              ==> Overlay(prev, xs) == xs[j].value
    decreases |xs|
  {
    if xs != [] {
      OverlayLast(Replace(prev, xs[0]), xs[1..]);
      forall j | 0 <= j < |xs| && xs[j].Some? && (forall k :: j < k < |xs| ==> xs[k].None?)
        ensures Overlay(prev, xs) == xs[j].value
      {
        if j > 0 {
          assert xs[1..][j - 1].Some? && forall k :: j - 1 < k < |xs| - 1 ==> xs[1..][k].None?;
        }
      }
    }
  }

  function HeightChain(t: Tags): seq<int>
  {
    [Dimension(t, "height"), Dimension(t, "building:height"), LevelHeight(t, "levels"), LevelHeight(t, "building:levels")]
  }

  function MinHeightChain(t: Tags): seq<int>
  {
    [Dimension(t, "min_height"), Dimension(t, "building:min_height"),
     LevelHeight(t, "min_level"), LevelHeight(t, "building:min_level")]
  }

  function WallChain(t: Tags): seq<Option<Option<string>>>
  {
    [Material(t, "building:material"), Material(t, "building:facade:material"), Material(t, "building:cladding"),
     Colour(t, "building:color"), Colour(t, "building:colour")]
  }

  function RoofChain(t: Tags): seq<Option<Option<string>>>
  {
    [Material(t, "roof:material"), Material(t, "building:roof:material"), Colour(t, "roof:color"),
     Colour(t, "roof:colour"), Colour(t, "building:roof:color"), Colour(t, "building:roof:colour")]
  }

  /**
   * `filterTags(tags)`: height is the first non-zero of height,
   * building:height, levels*3 and building:levels*3 (minHeight likewise), and
   * of the colour and material tags the last one set wins, even when its
   * material is unknown and so null.
   */
  function FilterTags(t: Tags): Filtered
  {
    var h0 := Dimension(t, "height");
    var h1 := if h0 == 0 then Dimension(t, "building:height") else h0;
    var h2 := if h1 == 0 then LevelHeight(t, "levels") else h1;
    var h3 := if h2 == 0 then LevelHeight(t, "building:levels") else h2;
    var m0 := Dimension(t, "min_height");
    var m1 := if m0 == 0 then Dimension(t, "building:min_height") else m0;
    var m2 := if m1 == 0 then LevelHeight(t, "min_level") else m1;
    var m3 := if m2 == 0 then LevelHeight(t, "building:min_level") else m2;
    var w0 := Replace(None, Material(t, "building:material"));
    var w1 := Replace(w0, Material(t, "building:facade:material"));
    var w2 := Replace(w1, Material(t, "building:cladding"));
    var w3 := Replace(w2, Colour(t, "building:color"));
    var w4 := Replace(w3, Colour(t, "building:colour"));
    var r0 := Replace(None, Material(t, "roof:material"));
    var r1 := Replace(r0, Material(t, "building:roof:material"));
    var r2 := Replace(r1, Colour(t, "roof:color"));
    var r3 := Replace(r2, Colour(t, "roof:colour"));
    var r4 := Replace(r3, Colour(t, "building:roof:color"));
    var r5 := Replace(r4, Colour(t, "building:roof:colour"));
    Filtered(h3, m3, w4, r5)
  }

  /** The heights of `filterTags` are the first non-zero values of their chains. */
  lemma FilterTagsHeights(t: Tags)
    ensures FilterTags(t).height == FirstNonZero(HeightChain(t))
    ensures FilterTags(t).minHeight == FirstNonZero(MinHeightChain(t))
  {
    var h := HeightChain(t);
    var m := MinHeightChain(t);
    FirstNonZeroOfFour(h[0], h[1], h[2], h[3]);
    FirstNonZeroOfFour(m[0], m[1], m[2], m[3]);
    assert h == [h[0], h[1], h[2], h[3]] && m == [m[0], m[1], m[2], m[3]];
  }

  lemma FirstNonZeroOfFour(a: int, b: int, c: int, d: int)
    ensures FirstNonZero([a, b, c, d]) == if a != 0 then a else if b != 0 then b else if c != 0 then c else d
  {
    assert [d][1..] == [];
    assert FirstNonZero([d]) == d;
    assert [c, d][1..] == [d];
    assert FirstNonZero([c, d]) == if c != 0 then c else d;
    assert [b, c, d][1..] == [c, d];
    assert FirstNonZero([b, c, d]) == if b != 0 then b else if c != 0 then c else d;
    assert [a, b, c, d][1..] == [b, c, d];
  }

  lemma {:induction false} OverlayAppend(prev: Option<string>, xs: seq<Option<Option<string>>>, x: Option<Option<string>>)
    ensures Overlay(prev, xs + [x]) == Replace(Overlay(prev, xs), x)
    decreases |xs|
  {
    if xs == [] {
      assert [x][1..] == [];
    } else {
      assert (xs + [x])[1..] == xs[1..] + [x];
      OverlayAppend(Replace(prev, xs[0]), xs[1..], x);
    }
  }

  /** Five overlays in a row. */
  lemma LastSetOfFive(a: Option<Option<string>>, b: Option<Option<string>>, c: Option<Option<string>>,
                      d: Option<Option<string>>, e: Option<Option<string>>)
    ensures LastSet([a, b, c, d, e]) == Replace(Replace(Replace(Replace(Replace(None, a), b), c), d), e)
  {
    assert [a][1..] == [];
    assert Overlay(None, [a]) == Replace(None, a);
    OverlayAppend(None, [a], b);
    assert [a] + [b] == [a, b];
    OverlayAppend(None, [a, b], c);
    assert [a, b] + [c] == [a, b, c];
    OverlayAppend(None, [a, b, c], d);
    assert [a, b, c] + [d] == [a, b, c, d];
    OverlayAppend(None, [a, b, c, d], e);
    assert [a, b, c, d] + [e] == [a, b, c, d, e];
  }

  /** The wall colour of `filterTags` comes from the last wall tag set. */
  lemma FilterTagsWall(t: Tags)
    ensures FilterTags(t).wallColor == LastSet(WallChain(t))
  {
    var w := WallChain(t);
    LastSetOfFive(w[0], w[1], w[2], w[3], w[4]);
    assert w == [w[0], w[1], w[2], w[3], w[4]];
  }

  /** The roof colour of `filterTags` comes from the last roof tag set. */
  lemma FilterTagsRoof(t: Tags)
    ensures FilterTags(t).roofColor == LastSet(RoofChain(t))
  {
    var r := RoofChain(t);
    LastSetOfFive(r[0], r[1], r[2], r[3], r[4]);
    OverlayAppend(None, [r[0], r[1], r[2], r[3], r[4]], r[5]);
    assert r == [r[0], r[1], r[2], r[3], r[4]] + [r[5]];
  }

  /** A value `mergeTags` treats as set: a non-zero height, a present colour. */
  function MergeTags(dst: Filtered, src: Filtered): (r: Filtered)
    ensures dst.height != 0 ==> r.height == dst.height
    ensures dst.minHeight != 0 ==> r.minHeight == dst.minHeight
    ensures dst.wallColor.Some? ==> r.wallColor == dst.wallColor
    ensures dst.roofColor.Some? ==> r.roofColor == dst.roofColor
    ensures dst.height == 0 ==> r.height == src.height
    ensures dst.minHeight == 0 ==> r.minHeight == src.minHeight
    ensures dst.wallColor.None? ==> r.wallColor == src.wallColor
    ensures dst.roofColor.None? ==> r.roofColor == src.roofColor
  {
    Filtered(if dst.height != 0 then dst.height else src.height,
             if dst.minHeight != 0 then dst.minHeight else src.minHeight,
             if dst.wallColor.Some? then dst.wallColor else src.wallColor,
             if dst.roofColor.Some? then dst.roofColor else src.roofColor)
  }

  /** Merging the same source twice changes nothing more. */
  lemma MergeTagsIdempotent(dst: Filtered, src: Filtered)
    ensures MergeTags(MergeTags(dst, src), src) == MergeTags(dst, src)
  {
  }

  // ---------------------------------------------------------------------------
  // Elements

  datatype Member = Member(kind: string, ref: int, role: Option<string>)

  datatype WayData = WayData(id: int, nodeIds: Option<seq<int>>, tags: Option<Tags>)

  datatype Element =
    | Node(id: int, lat: real, lon: real)
    | Way(way: WayData)
    | Relation(id: int, members: seq<Member>, tags: Option<Tags>)
    | Other

  type NodeMap = map<int, (real, real)>
  type WayMap = map<int, WayData>

  // ---------------------------------------------------------------------------
  // getFootprint

  /** The coordinates of the listed nodes, two numbers each; None when one is missing. */
  function Coords(nodes: NodeMap, ids: seq<int>): (r: Option<seq<real>>)
    ensures r.Some? ==> |r.value| == 2 * |ids|
  {
    if ids == [] then Some([])
    else
      var rest := Coords(nodes, ids[..|ids| - 1]);
      var last := ids[|ids| - 1];
      if rest.None? || last !in nodes then None else Some(rest.value + [nodes[last].0, nodes[last].1])
  }

  lemma {:induction false} CoordsNone(nodes: NodeMap, ids: seq<int>)
    ensures Coords(nodes, ids).None? <==> exists k :: 0 <= k < |ids| && ids[k] !in nodes
  {
    if ids != [] {
      var init := ids[..|ids| - 1];
      CoordsNone(nodes, init);
      if exists k :: 0 <= k < |init| && init[k] !in nodes {
        var k :| 0 <= k < |init| && init[k] !in nodes;
        assert ids[k] !in nodes;
      }
      if exists k :: 0 <= k < |ids| && ids[k] !in nodes {
        var k :| 0 <= k < |ids| && ids[k] !in nodes;
        if k < |init| {
          assert init[k] !in nodes;
        }
      }
    }
  }

  /**
   * The source's closing step: the first vertex is appended only when the
   * last one differs from it in BOTH coordinates.
   */
  function Closed(fp: seq<real>): (r: seq<real>)
    ensures r == fp || (|fp| >= 2 && r == fp + fp[..2])
    ensures r != fp <==> |fp| >= 2 && fp[|fp| - 2] != fp[0] && fp[|fp| - 1] != fp[1]
    ensures |r| >= 2 ==> r[|r| - 2] == r[0] || r[|r| - 1] == r[1]
  {
    if |fp| >= 2 && fp[|fp| - 2] != fp[0] && fp[|fp| - 1] != fp[1] then fp + [fp[0], fp[1]] else fp
  }

  /**
   * A ring whose last vertex shares exactly one coordinate with the first
   * stays open: it is returned as it is, and its last vertex still differs
   * from its first.
   */
  lemma ClosedSharedCoordinate(fp: seq<real>)
    requires |fp| >= 2 && (fp[|fp| - 2] == fp[0]) != (fp[|fp| - 1] == fp[1])
    ensures Closed(fp) == fp
    ensures Closed(fp)[|fp| - 2..] != Closed(fp)[..2]
  {
    assert fp[|fp| - 2..] == [fp[|fp| - 2], fp[|fp| - 1]];
    assert fp[..2] == [fp[0], fp[1]];
  }

  /**
   * `getFootprint(points)`: nothing without a node list; a TypeError when a
   * node is missing; otherwise the closed coordinate list, or nothing when it
   * has fewer than 8 numbers.
   */
  function FootprintOf(nodes: NodeMap, ids: Option<seq<int>>): (r: Result<Option<seq<real>>>)
    ensures r.Thrown? <==> ids.Some? && exists k :: 0 <= k < |ids.value| && ids.value[k] !in nodes
    ensures r.Ok? && r.value.Some? ==> |r.value.value| >= 8 && |r.value.value| % 2 == 0
    ensures r.Ok? && ids.Some? && |ids.value| >= 5 ==> r.value.Some?
    ensures r.Ok? && (ids.None? || |ids.value| <= 2) ==> r.value.None?
  {
    if ids.None? then Ok(None)
    else
      CoordsNone(nodes, ids.value);
      var c := Coords(nodes, ids.value);
      if c.None? then Thrown("TypeError")
      else
        var fp := Closed(c.value);
        if |fp| < 8 then Ok(None) else Ok(Some(fp))
  }

  // ---------------------------------------------------------------------------
  // getRelationWays

  predicate IsMemberWay(ways: WayMap, m: Member)
  {
    m.kind == "way" && m.ref in ways
  }

  /** A member naming a stored way with no role or role 'outer'. */
  predicate IsOuter(ways: WayMap, m: Member)
  {
    IsMemberWay(ways, m) && (m.role.None? || m.role == Some("") || m.role == Some("outer"))
  }

  /** A member naming a stored way with role 'inner' or 'enclave'. */
  predicate IsInner(ways: WayMap, m: Member)
  {
    IsMemberWay(ways, m) && (m.role == Some("inner") || m.role == Some("enclave"))
  }

  /** The way the last outer member names. */
  function OuterOf(ways: WayMap, ms: seq<Member>): Option<WayData>
  {
    if ms == [] then None
    else if IsOuter(ways, ms[|ms| - 1]) then Some(ways[ms[|ms| - 1].ref])
    else OuterOf(ways, ms[..|ms| - 1])
  }

  /** The ways the inner members name, in member order. */
  function InnerOf(ways: WayMap, ms: seq<Member>): seq<WayData>
  {
    if ms == [] then []
    else if IsInner(ways, ms[|ms| - 1]) then InnerOf(ways, ms[..|ms| - 1]) + [ways[ms[|ms| - 1].ref]]
    else InnerOf(ways, ms[..|ms| - 1])
  }

  datatype RelationWays = RelationWays(outer: WayData, inner: seq<WayData>)

  /** `getRelationWays(members)`: nothing when the outer way is missing or untagged. */
  function RelationWaysOf(ways: WayMap, ms: seq<Member>): Option<RelationWays>
  {
    var o := OuterOf(ways, ms);
    if o.None? || o.value.tags.None? then None else Some(RelationWays(o.value, InnerOf(ways, ms)))
  }

  /** The outer way is the one named by the last outer member, and exists exactly when such a member does. */
  lemma {:induction false} OuterIsLast(ways: WayMap, ms: seq<Member>)
    ensures OuterOf(ways, ms).Some? <==> exists j :: 0 <= j < |ms| && IsOuter(ways, ms[j])
    ensures forall j :: 0 <= j < |ms| && IsOuter(ways, ms[j]) && (forall k :: j < k < |ms| ==> !IsOuter(ways, ms[k]))
              ==> OuterOf(ways, ms) == Some(ways[ms[j].ref])
  {
    if ms != [] {
      var init := ms[..|ms| - 1];
      OuterIsLast(ways, init);
      if !IsOuter(ways, ms[|ms| - 1]) {
        if exists j :: 0 <= j < |ms| && IsOuter(ways, ms[j]) {
          var j :| 0 <= j < |ms| && IsOuter(ways, ms[j]);
          assert IsOuter(ways, init[j]);
        }
        forall j | 0 <= j < |ms| && IsOuter(ways, ms[j]) && (forall k :: j < k < |ms| ==> !IsOuter(ways, ms[k]))
          ensures OuterOf(ways, ms) == Some(ways[ms[j].ref])
        {
          assert IsOuter(ways, init[j]) && forall k :: j < k < |init| ==> !IsOuter(ways, init[k]);
        }
      }
    }
  }

  /** Inner ways are collected member by member: the list for a concatenation is the concatenation. */
  lemma {:induction false} InnerOfAppend(ways: WayMap, a: seq<Member>, b: seq<Member>)
    ensures InnerOf(ways, a + b) == InnerOf(ways, a) + InnerOf(ways, b)
    decreases |b|
  {
    if b == [] {
      assert a + b == a;
    } else {
      InnerOfAppend(ways, a, b[..|b| - 1]);
      assert (a + b)[..|a + b| - 1] == a + b[..|b| - 1];
    }
  }

  // ---------------------------------------------------------------------------
  // The element pass

  /** Everything the pass keeps: the node and way maps and the result list. */
  datatype State = State(nodes: NodeMap, ways: WayMap, res: seq<Building>)

  /** `addResult`: the footprint turned clockwise, holes as given. */
  function Item(id: int, f: Filtered, footprint: seq<real>, holes: seq<seq<real>>): Building
  {
    Building(Osm(id), Oriented(footprint, CW), holes, f.height, f.minHeight as real, f.wallColor, f.roofColor)
  }

  /** A way that `processWay` stores: not a highway, railway or landuse. */
  predicate Storable(tags: Option<Tags>)
  {
    tags.None? || (!Has(tags.value, "highway") && !Has(tags.value, "railway") && !Has(tags.value, "landuse"))
  }

  /** `processWay(way)`. */
  function WayStep(st: State, w: WayData): Result<State>
  {
    if IsBuilding(w.tags) then
      var f := FilterTags(w.tags.value);
      var fp := FootprintOf(st.nodes, w.nodeIds);
      if fp.Thrown? then Thrown(fp.reason)
      else if fp.value.None? then Ok(st)
      else Ok(st.(res := st.res + [Item(w.id, f, fp.value.value, [])]))
    else if Storable(w.tags) then Ok(st.(ways := st.ways[w.id := w]))
    else Ok(st)
  }

  /** The holes of a relation: each inner way's footprint that exists, turned counter-clockwise. */
  function HolesOf(nodes: NodeMap, inner: seq<WayData>): Result<seq<seq<real>>>
  {
    if inner == [] then Ok([])
    else
      var rest := HolesOf(nodes, inner[..|inner| - 1]);
      var fp := FootprintOf(nodes, inner[|inner| - 1].nodeIds);
      if rest.Thrown? then rest
      else if fp.Thrown? then Thrown(fp.reason)
      else if fp.value.None? then rest
      else Ok(rest.value + [Oriented(fp.value.value, CCW)])
  }

  /** The relations `processRelation` reads: buildings of type multipolygon or building. */
  predicate IsBuildingRelation(tags: Option<Tags>)
  {
    IsBuilding(tags) && (Tag(tags.value, "type") == Some("multipolygon") || Tag(tags.value, "type") == Some("building"))
  }

  /** `processRelation(relation)`: the outer way's tags, completed by the relation's. */
  function RelationStep(st: State, members: seq<Member>, tags: Option<Tags>): Result<State>
  {
    if !IsBuildingRelation(tags) then Ok(st)
    else
      var rw := RelationWaysOf(st.ways, members);
      if rw.None? then Ok(st)
      else
        var relTags := FilterTags(tags.value);
        var outer := rw.value.outer;
        var own := FilterTags(outer.tags.value);
        var fp := FootprintOf(st.nodes, outer.nodeIds);
        if fp.Thrown? then Thrown(fp.reason)
        else if fp.value.None? then Ok(st)
        else
          var holes := HolesOf(st.nodes, rw.value.inner);
          if holes.Thrown? then Thrown(holes.reason)
          else Ok(st.(res := st.res + [Item(outer.id, MergeTags(own, relTags), fp.value.value, holes.value)]))
  }

  /** One element of the pass. */
  function Step(st: State, e: Element): Result<State>
  {
    match e
    case Node(id, lat, lon) => Ok(st.(nodes := st.nodes[id := (lat, lon)]))
    case Way(w) => WayStep(st, w)
    case Relation(_, members, tags) => RelationStep(st, members, tags)
    case Other => Ok(st)
  }

  /** The pass over `data` from empty maps and an empty list. */
  function Run(data: seq<Element>): Result<State>
  {
    if data == [] then Ok(State(map[], map[], []))
    else
      var st := Run(data[..|data| - 1]);
      if st.Thrown? then st else Step(st.value, data[|data| - 1])
  }

  /** `readOSMXAPI(data)`. */
  function ReadAll(data: seq<Element>): Result<seq<Building>>
  {
    var st := Run(data);
    if st.Thrown? then Thrown(st.reason) else Ok(st.value.res)
  }

  // ---------------------------------------------------------------------------
  // What the pass keeps true

  /** Only tagged-or-untagged non-building, storable ways are kept, each under its own id. */
  predicate WaysOk(ways: WayMap)
  {
    forall id :: id in ways ==> ways[id].id == id && !IsBuilding(ways[id].tags) && Storable(ways[id].tags)
  }

  predicate RingOk(r: seq<real>)
  {
    |r| >= 8 && |r| % 2 == 0
  }

  /** Every emitted item has a footprint and holes of at least four vertices. */
  predicate ItemsOk(res: seq<Building>)
  {
    forall i :: 0 <= i < |res| ==> RingOk(res[i].footprint) && forall h :: h in res[i].holes ==> RingOk(h)
  }

  lemma OrientedRing(r: seq<real>, d: Winding)
    requires RingOk(r)
    ensures RingOk(Oriented(r, d))
  {
  }

  lemma {:induction false} HolesOk(nodes: NodeMap, inner: seq<WayData>)
    ensures HolesOf(nodes, inner).Ok? ==> forall h :: h in HolesOf(nodes, inner).value ==> RingOk(h)
  {
    if inner != [] {
      HolesOk(nodes, inner[..|inner| - 1]);
      var fp := FootprintOf(nodes, inner[|inner| - 1].nodeIds);
      if fp.Ok? && fp.value.Some? {
        OrientedRing(fp.value.value, CCW);
      }
    }
  }

  /** Appending a proper item keeps the list proper. */
  lemma AppendItemOk(res: seq<Building>, b: Building)
    requires ItemsOk(res) && RingOk(b.footprint) && forall h :: h in b.holes ==> RingOk(h)
    ensures ItemsOk(res + [b])
  {
    forall i | 0 <= i < |res + [b]|
      ensures RingOk((res + [b])[i].footprint) && forall h :: h in (res + [b])[i].holes ==> RingOk(h)
    {
      if i < |res| { assert (res + [b])[i] == res[i]; }
    }
  }

  lemma WayStepOk(st: State, w: WayData)
    requires WaysOk(st.ways) && ItemsOk(st.res)
    ensures WayStep(st, w).Ok? ==> WaysOk(WayStep(st, w).value.ways) && ItemsOk(WayStep(st, w).value.res)
    ensures WayStep(st, w).Ok? ==> st.res <= WayStep(st, w).value.res
  {
    if IsBuilding(w.tags) {
      var fp := FootprintOf(st.nodes, w.nodeIds);
      if fp.Ok? && fp.value.Some? {
        OrientedRing(fp.value.value, CW);
        AppendItemOk(st.res, Item(w.id, FilterTags(w.tags.value), fp.value.value, []));
      }
    }
  }

  lemma RelationStepOk(st: State, members: seq<Member>, tags: Option<Tags>)
    requires WaysOk(st.ways) && ItemsOk(st.res)
    ensures RelationStep(st, members, tags).Ok? ==>
      WaysOk(RelationStep(st, members, tags).value.ways) && ItemsOk(RelationStep(st, members, tags).value.res)
    ensures RelationStep(st, members, tags).Ok? ==> st.res <= RelationStep(st, members, tags).value.res
  {
    if IsBuildingRelation(tags) && RelationWaysOf(st.ways, members).Some? {
      var rw := RelationWaysOf(st.ways, members).value;
      var outer := rw.outer;
      var fp := FootprintOf(st.nodes, outer.nodeIds);
      var holes := HolesOf(st.nodes, rw.inner);
      if fp.Ok? && fp.value.Some? && holes.Ok? {
        OrientedRing(fp.value.value, CW);
        HolesOk(st.nodes, rw.inner);
        var item := Item(outer.id, MergeTags(FilterTags(outer.tags.value), FilterTags(tags.value)),
                         fp.value.value, holes.value);
        AppendItemOk(st.res, item);
        assert RelationStep(st, members, tags) == Ok(st.(res := st.res + [item]));
      } else {
        assert RelationStep(st, members, tags).Ok? ==> RelationStep(st, members, tags) == Ok(st);
      }
    } else {
      assert RelationStep(st, members, tags) == Ok(st);
    }
  }

  /** One step keeps the way map and the result list well formed, and only appends to the list. */
  lemma StepOk(st: State, e: Element)
    requires WaysOk(st.ways) && ItemsOk(st.res)
    ensures Step(st, e).Ok? ==> WaysOk(Step(st, e).value.ways) && ItemsOk(Step(st, e).value.res)
    ensures Step(st, e).Ok? ==> st.res <= Step(st, e).value.res
  {
    match e
    case Way(w) => WayStepOk(st, w);
    case Relation(_, members, tags) => RelationStepOk(st, members, tags);
    case Node(_, _, _) =>
    case Other =>
  }

  /** Whatever the input, the way map never holds a building and every item is a proper ring. */
  lemma {:induction false} RunOk(data: seq<Element>)
    ensures Run(data).Ok? ==> WaysOk(Run(data).value.ways) && ItemsOk(Run(data).value.res)
  {
    if data != [] {
      RunOk(data[..|data| - 1]);
      var st := Run(data[..|data| - 1]);
      if st.Ok? {
        StepOk(st.value, data[|data| - 1]);
      }
    }
  }

  /** A building way is emitted (or dropped) but never stored for later relations. */
  lemma BuildingWayNotStored(st: State, w: WayData)
    requires IsBuilding(w.tags) && WayStep(st, w).Ok?
    ensures WayStep(st, w).value.ways == st.ways
  {
  }

  /** A relation can only use a way that is in the map, hence never a building way. */
  lemma RelationOuterNotBuilding(st: State, members: seq<Member>)
    requires WaysOk(st.ways) && RelationWaysOf(st.ways, members).Some?
    ensures !IsBuilding(RelationWaysOf(st.ways, members).value.outer.tags)
  {
    OuterFromMap(st.ways, members);
  }

  lemma {:induction false} OuterFromMap(ways: WayMap, ms: seq<Member>)
    requires WaysOk(ways)
    ensures OuterOf(ways, ms).Some? ==> !IsBuilding(OuterOf(ways, ms).value.tags)
  {
    if ms != [] {
      OuterFromMap(ways, ms[..|ms| - 1]);
    }
  }

  // ---------------------------------------------------------------------------
  // The reader's state and its methods

  class Reader {
    var nodes: NodeMap
    var ways: WayMap
    var res: seq<Building>

    function Snapshot(): State
      reads this
    {
      State(nodes, ways, res)
    }

    constructor ()
      ensures Snapshot() == State(map[], map[], [])
    {
      nodes := map[];
      ways := map[];
      res := [];
    }

    /** `getFootprint`, with its loop over the node ids. */
    method GetFootprint(ids: Option<seq<int>>) returns (r: Result<Option<seq<real>>>)
      ensures r == FootprintOf(nodes, ids)
    {
      if ids.None? {
        return Ok(None);
      }
      var points := ids.value;
      var footprint: seq<real> := [];
      var i := 0;
      while i < |points|
        invariant 0 <= i <= |points|
        invariant Coords(nodes, points[..i]) == Some(footprint)
      {
        assert points[..i + 1][..i] == points[..i];
        if points[i] !in nodes {
          CoordsNone(nodes, points);
          return Thrown("TypeError");
        }
        var p := nodes[points[i]];
        footprint := footprint + [p.0, p.1];
        i := i + 1;
      }
      assert points[..i] == points;
      var n := |footprint|;
      if n >= 2 && footprint[n - 2] != footprint[0] && footprint[n - 1] != footprint[1] {
        footprint := footprint + [footprint[0], footprint[1]];
      }
      if |footprint| < 8 {
        return Ok(None);
      }
      return Ok(Some(footprint));
    }

    /** `getRelationWays`, with its loop over the members. */
    method GetRelationWays(members: seq<Member>) returns (r: Option<RelationWays>)
      ensures r == RelationWaysOf(ways, members)
    {
      var outer: Option<WayData> := None;
      var inner: seq<WayData> := [];
      var i := 0;
      while i < |members|
        invariant 0 <= i <= |members|
        invariant outer == OuterOf(ways, members[..i])
        invariant inner == InnerOf(ways, members[..i])
      {
        assert members[..i + 1][..i] == members[..i];
        var m := members[i];
        if m.kind == "way" && m.ref in ways {
          if m.role.None? || m.role == Some("") || m.role == Some("outer") {
            outer := Some(ways[m.ref]);
          } else if m.role == Some("inner") || m.role == Some("enclave") {
            inner := inner + [ways[m.ref]];
          }
        }
        i := i + 1;
      }
      assert members[..i] == members;
      if outer.None? || outer.value.tags.None? {
        return None;
      }
      return Some(RelationWays(outer.value, inner));
    }

    /** `processNode`. */
    method ProcessNode(id: int, lat: real, lon: real)
      modifies this
      ensures Step(old(Snapshot()), Node(id, lat, lon)) == Ok(Snapshot())
    {
      nodes := nodes[id := (lat, lon)];
    }

    /** `addResult`. */
    method AddResult(id: int, f: Filtered, footprint: seq<real>, holes: seq<seq<real>>)
      modifies this
      ensures nodes == old(nodes) && ways == old(ways) && res == old(res) + [Item(id, f, footprint, holes)]
    {
      var ring := MakeWinding(footprint, CW);
      res := res + [Building(Osm(id), ring, holes, f.height, f.minHeight as real, f.wallColor, f.roofColor)];
    }

    /** `processWay`; a missing node is the TypeError it throws. */
    method ProcessWay(w: WayData) returns (thrown: Option<string>)
      modifies this
      ensures WayStep(old(Snapshot()), w) == if thrown.None? then Ok(Snapshot()) else Thrown(thrown.value)
    {
      if IsBuilding(w.tags) {
        var f := FilterTags(w.tags.value);
        var fp := GetFootprint(w.nodeIds);
        if fp.Thrown? {
          return Some(fp.reason);
        }
        if fp.value.Some? {
          AddResult(w.id, f, fp.value.value, []);
        }
      } else if Storable(w.tags) {
        ways := ways[w.id := w];
      }
      return None;
    }

    /** The loop over the inner ways of `processRelation`. */
    method CollectHoles(inner: seq<WayData>) returns (r: Result<seq<seq<real>>>)
      ensures r == HolesOf(nodes, inner)
    {
      var holes: seq<seq<real>> := [];
      var i := 0;
      while i < |inner|
        invariant 0 <= i <= |inner|
        invariant HolesOf(nodes, inner[..i]) == Ok(holes)
      {
        assert inner[..i + 1][..i] == inner[..i];
        var fp := GetFootprint(inner[i].nodeIds);
        if fp.Thrown? {
          HolesThrown(nodes, inner, i + 1);
          return Thrown(fp.reason);
        }
        if fp.value.Some? {
          var ring := MakeWinding(fp.value.value, CCW);
          holes := holes + [ring];
        }
        i := i + 1;
      }
      assert inner[..i] == inner;
      return Ok(holes);
    }

    /** `processRelation`. */
    method ProcessRelation(members: seq<Member>, tags: Option<Tags>) returns (thrown: Option<string>)
      modifies this
      ensures RelationStep(old(Snapshot()), members, tags) == if thrown.None? then Ok(Snapshot()) else Thrown(thrown.value)
    {
      if !(IsBuilding(tags) && (Tag(tags.value, "type") == Some("multipolygon") || Tag(tags.value, "type") == Some("building"))) {
        return None;
      }
      var rw := GetRelationWays(members);
      if rw.None? {
        return None;
      }
      var relTags := FilterTags(tags.value);
      var outer := rw.value.outer;
      var own := FilterTags(outer.tags.value);
      var fp := GetFootprint(outer.nodeIds);
      if fp.Thrown? {
        return Some(fp.reason);
      }
      if fp.value.None? {
        return None;
      }
      var merged := MergeTags(own, relTags);
      var holes := CollectHoles(rw.value.inner);
      if holes.Thrown? {
        return Some(holes.reason);
      }
      AddResult(outer.id, merged, fp.value.value, holes.value);
      return None;
    }

    /** One element of the pass: a node is recorded, a way or a relation processed. */
    method ProcessElement(e: Element) returns (thrown: Option<string>)
      modifies this
      ensures Step(old(Snapshot()), e) == if thrown.None? then Ok(Snapshot()) else Thrown(thrown.value)
    {
      thrown := None;
      match e {
        case Node(id, lat, lon) =>
          ProcessNode(id, lat, lon);
        case Way(w) =>
          thrown := ProcessWay(w);
        case Relation(_, members, tags) =>
          thrown := ProcessRelation(members, tags);
        case Other =>
      }
    }

    /** The function `readOSMXAPI` returns: fresh maps, then every element in order. */
    method Read(data: seq<Element>) returns (r: Result<seq<Building>>)
      modifies this
      ensures r == ReadAll(data)
    {
      nodes := map[];
      ways := map[];
      res := [];
      var i := 0;
      while i < |data|
        invariant 0 <= i <= |data|
        invariant Run(data[..i]) == Ok(Snapshot())
      {
        RunNext(data, i);
        var thrown := ProcessElement(data[i]);
        if thrown.Some? {
          RunThrown(data, i + 1);
          return Thrown(thrown.value);
        }
        i := i + 1;
      }
      assert data[..i] == data;
      return Ok(res);
    }
  }

  /** Once a prefix of the inner ways throws, the whole list does. */
  lemma {:induction false} HolesThrown(nodes: NodeMap, inner: seq<WayData>, i: nat)
    requires i <= |inner| && HolesOf(nodes, inner[..i]).Thrown?
    ensures HolesOf(nodes, inner).Thrown? && HolesOf(nodes, inner).reason == HolesOf(nodes, inner[..i]).reason
    decreases |inner| - i
  {
    if i < |inner| {
      assert inner[..i + 1][..i] == inner[..i];
      HolesThrown(nodes, inner, i + 1);
    } else {
      assert inner[..i] == inner;
    }
  }

  /** The pass over one more element steps from the pass over the ones before it. */
  lemma RunNext(data: seq<Element>, i: nat)
    requires i < |data|
    ensures Run(data[..i + 1]) == if Run(data[..i]).Thrown? then Run(data[..i]) else Step(Run(data[..i]).value, data[i])
  {
    assert data[..i + 1][..i] == data[..i];
  }

  /** Once a prefix of the elements throws, the whole pass does. */
  lemma {:induction false} RunThrown(data: seq<Element>, i: nat)
    requires i <= |data| && Run(data[..i]).Thrown?
    ensures Run(data).Thrown? && Run(data).reason == Run(data[..i]).reason
    decreases |data| - i
  {
    if i < |data| {
      assert data[..i + 1][..i] == data[..i];
      RunThrown(data, i + 1);
    } else {
      assert data[..i] == data;
    }
  }
}
