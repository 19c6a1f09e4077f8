# OSM Buildings for OpenLayers, modelled in Dafny

OSM Buildings draws extruded 2.5D buildings over an OpenLayers map. This project models the core of its
combined script `dist/OSMBuildings-OpenLayers.debug.js` and proves properties of it. The core covers:

- the two data readers: GeoJSON feature collections and OpenStreetMap XAPI element lists, with their tag
  filtering, dimension and material parsing and ring closing;
- the geometry helpers: squared distance, crop, centre, Douglas-Peucker `simplify`, winding detection
  and `makeWinding`;
- `Color.parse` and `setAlpha`;
- the tile cache;
- the data layer: `_getFootprint`, `_scale`, `_add`, `_parse`, `load`, `update`, `set` and the fade-in
  timer;
- the view state set by the property setters;
- the URL template of `xhr`;
- the three drawing passes: extruded buildings, flat buildings and shadows.

Modules, one file each:

| file | module | what it holds |
|---|---|---|
| `wrappers.dfy` | `Wrappers` | `Option` and `Result` |
| `js.dfy` | `Js` | the JavaScript number and string semantics the source relies on: `<<0`, `>>`, `<<` on 32-bit integers, `parseInt`, `parseFloat`, `Number`, `String(n)`, `toLowerCase` |
| `pattern.dfy` | `Pattern` | a backtracking matcher for the regular expressions the source uses (greedy runs, optional parts, anchors, groups) |
| `colors.dfy` | `Colors` | `Color`, `Color.parse`, `setAlpha` and the lightness clamp |
| `items.dfy` | `Items` | the item record both readers produce |
| `geometry.dfy` | `Geometry` | the geometry functions; `simplify` marks a `markers` array in place |
| `osm.dfy` | `OsmReader` | `readOSMXAPI`; class `Reader` holds the `nodes`, `ways` and `res` state the inner functions update |
| `geojson.dfy` | `GeoJson` | `readGeoJSON`, with the variables its loop carries from one feature to the next |
| `cache.dfy` | `Caching` | `Cache` as a class over a map from keys to timestamped entries |
| `scene.dfy` | `Scene` | the view variables as class `View`, `fromRange` and the zoom alpha |
| `template.dfy` | `Template` | the placeholder replacement of `xhr` and the text of cropped numbers |
| `data.dfy` | `DataLayer` | `Data` as a class over `renderItems`, `_index`, the URL, the requests issued and the timer |
| `render.dfy` | `Render` | the drawing passes, with what they draw returned as values |

How the model is built:

- Each loop of the source is a method with invariants. Each method is proved equal to a function that
  states what the loop computes. The properties are lemmas about those functions.
- Object state the source mutates is a class: the reader state, the cache, the view and the data layer.
  Its methods state the whole new state.
- JavaScript quirks are kept, not smoothed over:
  - truthiness of 0 and "";
  - `undefined` coordinates carried from one feature to the next;
  - `coordinates[i]` in the GeoJSON hole loop;
  - `Number` on text with an inch mark;
  - the zero-area winding;
  - the ring-closing test that needs both coordinates to differ.

  Lemmas state each of them.
- Numbers are `int` where the source works in whole pixels or with integer operators. Every `x <<0`
  of the core is `ToInt32` (truncation, then the 32-bit wrap-around), and `<<`, `>>` wrap through
  `Int32`. Lemmas that need values to stay put state the 32-bit range they hold in. Coordinates and heights that the source
  keeps as doubles are `real`.
- A JavaScript value that may be NaN is `JsNum`.

## Model

| member | source | states |
|---|---|---|
| Js.Trunc | dist/OSMBuildings-OpenLayers.debug.js:720 | truncation toward zero of a finite double, the first step of `x <<0`: the result is within one unit of `x` on the side of zero |
| Js.ToInt32 | dist/OSMBuildings-OpenLayers.debug.js:346-364 | `x <<0` on a finite double: in the signed 32-bit range, and equal to the truncation for values in the 32-bit range |
| Js.ToInt32Wraps | dist/OSMBuildings-OpenLayers.debug.js:346-364 | `x <<0` differs from the truncated value by a multiple of 2^32 |
| Js.ToInt | dist/OSMBuildings-OpenLayers.debug.js:346-364 | `n <<0` is 0 for NaN, in the signed 32-bit range, and the truncation of a finite value in that range |
| Js.Times | dist/OSMBuildings-OpenLayers.debug.js:1258 | `x * f` for a finite factor: NaN exactly when `x` is NaN, otherwise the product |
| Js.Plus | dist/OSMBuildings-OpenLayers.debug.js:1055 | `x + y` is NaN exactly when either side is, otherwise the sum |
| Js.TruncDiv | dist/OSMBuildings-OpenLayers.debug.js:2212-2213 | integer division rounding toward zero, as truncating `a / b` does: `a / b` for non-negative `a` and positive `b`; `|b|·|r| <= |a| < |b|·|r| + |b|`; non-negative when `a` and `b` have the same sign and non-positive otherwise |
| Js.TruncDivTruncates | dist/OSMBuildings-OpenLayers.debug.js:2212-2213 | TruncDiv is the real quotient `a / b` truncated toward zero, which is what `<<0` does to it before the wrap |
| Js.Int32 | dist/OSMBuildings-OpenLayers.debug.js:2212-2213 | ToInt32 on an integer lands in the signed 32-bit range, differs from the input by a multiple of 2^32, and leaves values already in range unchanged |
| Js.Halved | dist/OSMBuildings-OpenLayers.debug.js:1055-1060 | halving `k` times with rounding toward minus infinity is division by 2^k rounded down, and stays between 0 and `x` for non-negative `x` |
| Js.ShiftRight | dist/OSMBuildings-OpenLayers.debug.js:1055-1060 | `a >> n` is ToInt32(a) divided by 2^(n mod 32) rounded down, and stays between 0 and that value when it is non-negative |
| Js.ShiftLeftExact | dist/OSMBuildings-OpenLayers.debug.js:2222 | `256 << n` is exactly 2^(n+8) for shift counts up to 22 |
| Js.ShiftLeftWraps | dist/OSMBuildings-OpenLayers.debug.js:2222 | at shift count 23, `256 << n` wraps to -2^31 |
| Js.RadixRun | dist/OSMBuildings-OpenLayers.debug.js:121-124 | the run of base-`radix` digits that `parseInt` reads: every character in it is a digit and the next one is not |
| Js.DigitRun | dist/OSMBuildings-OpenLayers.debug.js:347 | the run of decimal digits `parseFloat` reads: all digits, followed by a non-digit or the end |
| Js.NatToString | dist/OSMBuildings-OpenLayers.debug.js:1146 | `String(n)` is a non-empty string of decimal digits |
| Js.Lower | dist/OSMBuildings-OpenLayers.debug.js:421 | `toLowerCase` on ASCII letters: keeps the length and lowers each character on its own |
| Js.NatToStringValue | dist/OSMBuildings-OpenLayers.debug.js:1146 | the digits of `String(n)` are worth `n` |
| Js.ParseIntNatToString | dist/OSMBuildings-OpenLayers.debug.js:129-131 | `parseInt(String(n), 10)` gives back `n` |
| Js.ParseFloatNatToString | dist/OSMBuildings-OpenLayers.debug.js:347 | `parseFloat(String(n))` gives back `n` |
| Js.ToNumberNatToString | dist/OSMBuildings-OpenLayers.debug.js:433 | `Number(String(n))` gives back `n` |
| Js.ParseFloatDigitsThen | dist/OSMBuildings-OpenLayers.debug.js:347 | `parseFloat` reads `String(n)` back from the front of a longer string whose rest does not continue the number |
| Js.ToNumberDigitsThen | dist/OSMBuildings-OpenLayers.debug.js:358-361 | `Number` rejects `String(n)` followed by a character that is not a digit, not '.', and not one of the white-space or line-terminator characters it trims |
| Js.ToNumberHex | dist/OSMBuildings-OpenLayers.debug.js:433 | `Number("0x10")` is 16 |
| Js.ToNumberHexSpaced | dist/OSMBuildings-OpenLayers.debug.js:433 | `Number` trims white space around a prefixed literal and takes either case: `Number(" 0XfF ")` is 255 |
| Js.ToNumberSignedHex | dist/OSMBuildings-OpenLayers.debug.js:433 | a sign before a prefixed literal makes `Number` NaN |
| Js.LowerIdempotent | dist/OSMBuildings-OpenLayers.debug.js:421 | lower-casing twice is lower-casing once |
| Pattern.ClassRun | dist/OSMBuildings-OpenLayers.debug.js:119 | the greedy run of one character class: all its characters are in the class and the next is not |
| Pattern.Match | dist/OSMBuildings-OpenLayers.debug.js:119 | a match found by backtracking ends inside the input, after its start |
| Pattern.Search | dist/OSMBuildings-OpenLayers.debug.js:119 | `str.match(re)` without the `g` flag: the match found starts at the leftmost position where the pattern matches, none matches before it, and None means no position matches |
| Pattern.Group | dist/OSMBuildings-OpenLayers.debug.js:119-125 | capture group `g` is present exactly when both its ends were recorded in order, and is then the text between them |
| Pattern.MatchManyLongest | dist/OSMBuildings-OpenLayers.debug.js:119 | a greedy run whose longest choice lets the rest match takes that choice |
| Pattern.MatchManyShort | dist/OSMBuildings-OpenLayers.debug.js:128 | a greedy run shorter than its minimum fails |
| Pattern.TryRunOnlyLongest | dist/OSMBuildings-OpenLayers.debug.js:128 | a greedy run whose shorter choices all leave a character the rest cannot start with is all-or-nothing |
| Pattern.SearchFirst | dist/OSMBuildings-OpenLayers.debug.js:128 | the search returns the match at the first position where one exists |
| Pattern.SearchAnchored | dist/OSMBuildings-OpenLayers.debug.js:119 | a pattern anchored with `^` is searched only at position 0 |
| Colors.NewColor | dist/OSMBuildings-OpenLayers.debug.js:83-88 | `new Color(r, g, b[, a])` keeps the three channels, and alpha is 1 when the fourth argument is left out |
| Colors.SetAlpha | dist/OSMBuildings-OpenLayers.debug.js:106-108 | `setAlpha(a)` keeps the channels (or hue, saturation and lightness) and multiplies alpha by `a` |
| Colors.SetAlphaTwice | dist/OSMBuildings-OpenLayers.debug.js:106-108 | two `setAlpha` calls multiply their factors |
| Colors.SetAlphaOne | dist/OSMBuildings-OpenLayers.debug.js:106-108 | `setAlpha(1)` changes nothing |
| Colors.ScaledLightness | dist/OSMBuildings-OpenLayers.debug.js:99-104 | the scaled lightness lies in [0, 1]: `l * f` when inside, 0 below, 1 above |
| Colors.ParseIntHex2 | dist/OSMBuildings-OpenLayers.debug.js:119-126 | `parseInt` in base 16 reads a two-hex-digit text back as its value |
| Colors.SearchHex | dist/OSMBuildings-OpenLayers.debug.js:119 | '#' followed by six or eight word characters matches the anchored hex pattern as a whole, with the pairs as groups |
| Colors.ParseHexShape | dist/OSMBuildings-OpenLayers.debug.js:119-126 | for such a string `Color.parse` takes the hex form |
| Colors.HexGroups | dist/OSMBuildings-OpenLayers.debug.js:119-125 | the hex groups are the three pairs, and the fourth pair exactly when there are eight characters after '#' |
| Colors.ParseHexColor | dist/OSMBuildings-OpenLayers.debug.js:119-126 | '#rrggbb' parses back to its three channels with alpha 1 |
| Colors.ParseHexColorAlpha | dist/OSMBuildings-OpenLayers.debug.js:119-126 | '#rrggbbaa' parses back to its channels with alpha aa / 255 |
| Colors.ParseRgbFound | dist/OSMBuildings-OpenLayers.debug.js:128-135 | with no '#' in the string, `Color.parse` takes the first `rgb(...)` match |
| Colors.SearchRgb | dist/OSMBuildings-OpenLayers.debug.js:128 | "rgb(" digits "," digits "," digits ")" matches the rgb pattern as a whole, with the three digit runs as groups and no alpha group |
| Colors.ParseRgbText | dist/OSMBuildings-OpenLayers.debug.js:128-135 | such a text parses to `parseInt` of its three digit runs, with alpha 1 |
| Colors.ParseRgbDigits | dist/OSMBuildings-OpenLayers.debug.js:128-135 | "rgb(" dr "," dg "," db ")" with decimal digit strings parses to their values, alpha 1 |
| Colors.ParseRgbColor | dist/OSMBuildings-OpenLayers.debug.js:128-135 | 'rgb(r,g,b)' parses back to its three channels with alpha 1 |
| Colors.ParseNothing | dist/OSMBuildings-OpenLayers.debug.js:116-145 | a string with no '#', no "rgb" and no "hsl" in it is no colour |
| Geometry.GetDistance | dist/OSMBuildings-OpenLayers.debug.js:703-707 | the squared distance is non-negative and zero exactly for equal points |
| Geometry.CropUnits | dist/OSMBuildings-OpenLayers.debug.js:709-711 | `crop` lands in the 32-bit range (its `<<0`) and, for numbers whose ten-thousandths fit in it, is within one ten-thousandth of the number, toward zero |
| Geometry.CropIdempotent | dist/OSMBuildings-OpenLayers.debug.js:709-711 | cropping a cropped number changes nothing |
| Geometry.GetCenter | dist/OSMBuildings-OpenLayers.debug.js:713-721 | the loop computes the truncated mean of the vertices without the closing one, wrapped to 32 bits |
| Geometry.CenterInBoundingBox | dist/OSMBuildings-OpenLayers.debug.js:713-721 | the centre lies within the bounding box of the vertices it averages, for a box in the 32-bit range |
| Geometry.SqSegDist | dist/OSMBuildings-OpenLayers.debug.js:723-740 | the squared segment distance is non-negative |
| Geometry.SqSegDistOfEnds | dist/OSMBuildings-OpenLayers.debug.js:723-740 | each end of the segment is at distance 0 from it |
| Geometry.Farthest | dist/OSMBuildings-OpenLayers.debug.js:765-775 | the scan returns a distance at least the one carried in and at least every scanned vertex's, and the index of a vertex with that distance whenever it beats the carried one |
| Geometry.FarthestCarriedIndex | dist/OSMBuildings-OpenLayers.debug.js:765-775 | the carried index matters only when no vertex beats the initial maximum |
| Geometry.MarksInside | dist/OSMBuildings-OpenLayers.debug.js:777-785 | the vertices marked for a segment lie strictly inside it |
| Geometry.KeptInRange | dist/OSMBuildings-OpenLayers.debug.js:742-798 | every kept index is a vertex, and both ends are kept |
| Geometry.MarksCover | dist/OSMBuildings-OpenLayers.debug.js:777-788 | every unmarked interior vertex lies within the tolerance of the segment between its nearest kept neighbours |
| Geometry.SimplifyTolerance | dist/OSMBuildings-OpenLayers.debug.js:742-798 | every vertex `simplify` drops lies within the squared tolerance 2 of the segment joining its nearest kept neighbours |
| Geometry.KeptBetween | dist/OSMBuildings-OpenLayers.debug.js:791-795 | no vertex strictly between two vertices is kept when none of them is marked |
| Geometry.SelectEnds | dist/OSMBuildings-OpenLayers.debug.js:791-795 | a selection that keeps the first and the last vertex starts and ends with them |
| Geometry.SimplifyKeepsEnds | dist/OSMBuildings-OpenLayers.debug.js:742-798 | the simplified ring starts at the first vertex, ends at the last and is no longer than the input |
| Geometry.SimplifyShort | dist/OSMBuildings-OpenLayers.debug.js:742-798 | rings of up to two vertices come back unchanged |
| Geometry.FarthestVertex | dist/OSMBuildings-OpenLayers.debug.js:765-775 | the inner `for` loop computes the farthest-vertex scan |
| Geometry.SplitSegment | dist/OSMBuildings-OpenLayers.debug.js:763-785 | one pass over a segment keeps the marker array equal to the set of marked vertices, and the marked vertices plus those still owed by the stacked segments stay the same |
| Geometry.FindSplit | dist/OSMBuildings-OpenLayers.debug.js:777-785 | a split happens only strictly inside the segment, and adds exactly the segment's marks |
| Geometry.MarkVertex | dist/OSMBuildings-OpenLayers.debug.js:778 | setting `markers[index]` marks exactly one more vertex |
| Geometry.MarkStep | dist/OSMBuildings-OpenLayers.debug.js:762-789 | one turn of the marking loop keeps its invariant and decreases the work still owed |
| Geometry.MarkVertices | dist/OSMBuildings-OpenLayers.debug.js:760-789 | after the loop the marker array holds exactly the vertices Douglas-Peucker keeps |
| Geometry.Simplify | dist/OSMBuildings-OpenLayers.debug.js:742-798 | `simplify` returns exactly the kept vertices, in order |
| Geometry.WindingOf | dist/OSMBuildings-OpenLayers.debug.js:801-813 | a ring is reported 'CW' exactly when its cross sum is positive |
| Geometry.GetWinding | dist/OSMBuildings-OpenLayers.debug.js:801-813 | the accumulation loop computes that answer |
| Geometry.ReversePairs | dist/OSMBuildings-OpenLayers.debug.js:816-826 | the reversed ring has the length of the input rounded down to whole vertices |
| Geometry.ReverseVertices | dist/OSMBuildings-OpenLayers.debug.js:821-825 | the reversing loop collects the vertices from the last one back |
| Geometry.MakeWinding | dist/OSMBuildings-OpenLayers.debug.js:816-826 | `makeWinding` returns the ring unchanged when it already turns the requested way, and reversed otherwise |
| Geometry.CrossSumReverse | dist/OSMBuildings-OpenLayers.debug.js:816-826 | reversing the vertices negates the cross sum |
| Geometry.ReversePairsInvolutive | dist/OSMBuildings-OpenLayers.debug.js:816-826 | reversing an even-length ring twice gives it back |
| Geometry.OrientedWinding | dist/OSMBuildings-OpenLayers.debug.js:816-826 | with non-zero area the result turns the requested way and has the same cross sum up to sign |
| Geometry.OrientedDirection | dist/OSMBuildings-OpenLayers.debug.js:816-826 | the result keeps the length and turns the requested way unless its area is zero |
| Geometry.OrientedIdempotent | dist/OSMBuildings-OpenLayers.debug.js:816-826 | orienting twice in the same direction changes nothing more |
| Geometry.ZeroAreaFlips | dist/OSMBuildings-OpenLayers.debug.js:801-826 | a ring of zero area is always reported 'CCW', so orienting it clockwise reverses it on every call |
| OsmReader.SplitTwo | dist/OSMBuildings-OpenLayers.debug.js:358-361 | `split(c)[0]` and `[1]` are the texts before the first `c` and between it and the next |
| OsmReader.DimensionPlain | dist/OSMBuildings-OpenLayers.debug.js:346-364 | a plain number is read as metres, wrapped to 32 bits (unchanged below 2^31) |
| OsmReader.DimensionWraps | dist/OSMBuildings-OpenLayers.debug.js:346-364 | a plain 3000000000 wraps to -1294967296, as `<<0` makes it |
| OsmReader.DimensionMetres | dist/OSMBuildings-OpenLayers.debug.js:348-351 | "<n>m" is n metres, wrapped to 32 bits (unchanged below 2^31) |
| OsmReader.DimensionYards | dist/OSMBuildings-OpenLayers.debug.js:352-354 | "<n>yd" is n yards, truncated to whole metres and wrapped to 32 bits |
| OsmReader.DimensionFeet | dist/OSMBuildings-OpenLayers.debug.js:355-357 | "<n>ft" is n feet, truncated to whole metres and wrapped to 32 bits |
| OsmReader.DimensionFeetInches | dist/OSMBuildings-OpenLayers.debug.js:358-362 | "<f>'<i>" is f feet and i inches, truncated to whole metres and wrapped to 32 bits |
| OsmReader.DimensionInchMark | dist/OSMBuildings-OpenLayers.debug.js:358-362 | with the inch mark written out, `Number` fails on the inch part and the height is 0 |
| OsmReader.MaterialColorsAreHex | dist/OSMBuildings-OpenLayers.debug.js:400-418 | every colour of the material table is a seven-character '#' colour |
| OsmReader.BaseMaterialsHaveColors | dist/OSMBuildings-OpenLayers.debug.js:366-418 | every base material names a material with a colour |
| OsmReader.ParseMaterial | dist/OSMBuildings-OpenLayers.debug.js:420-426 | a '#' colour is passed through lower-cased; otherwise there is a colour exactly when the name, lower-cased, is a base or known material; every result is a '#' colour |
| OsmReader.ParseMaterialCaseInsensitive | dist/OSMBuildings-OpenLayers.debug.js:420-426 | material names are matched without regard to case |
| OsmReader.IsBuildingLayer | dist/OSMBuildings-OpenLayers.debug.js:428-434 | a layer given as a non-negative number keeps a building a building |
| OsmReader.IsBuildingLayerNaN | dist/OSMBuildings-OpenLayers.debug.js:428-434 | a layer that is no number at all makes it no building |
| OsmReader.BuildingTypeOf | dist/OSMBuildings-OpenLayers.debug.js:440-464 | place_of_worship and church give worship; the residential building values give living |
| OsmReader.BuildingTypeOfYes | dist/OSMBuildings-OpenLayers.debug.js:440-464 | with `building=yes` the use tag decides, then the amenity, else non-living |
| OsmReader.FirstNonZero | dist/OSMBuildings-OpenLayers.debug.js:521-551 | the pick is 0 exactly when every candidate is 0, and otherwise the first non-zero candidate |
| OsmReader.OverlayLast | dist/OSMBuildings-OpenLayers.debug.js:553-592 | overlaying keeps the earlier value exactly when no entry is set, and otherwise gives the last one set |
| OsmReader.FilterTagsHeights | dist/OSMBuildings-OpenLayers.debug.js:521-551 | height and minHeight are the first non-zero values of their tag chains |
| OsmReader.FilterTagsWall | dist/OSMBuildings-OpenLayers.debug.js:553-571 | the wall colour comes from the last wall colour or material tag set |
| OsmReader.FilterTagsRoof | dist/OSMBuildings-OpenLayers.debug.js:573-592 | the roof colour comes from the last roof colour or material tag set |
| OsmReader.MergeTags | dist/OSMBuildings-OpenLayers.debug.js:512-519 | each value of the merge is the destination's when the destination sets it (non-zero height, present colour) and the source's otherwise |
| OsmReader.MergeTagsIdempotent | dist/OSMBuildings-OpenLayers.debug.js:512-519 | merging the same source twice changes nothing more |
| OsmReader.Coords | dist/OSMBuildings-OpenLayers.debug.js:493-497 | the coordinates of the listed nodes are two numbers per node |
| OsmReader.CoordsNone | dist/OSMBuildings-OpenLayers.debug.js:493-497 | the coordinates are missing exactly when some listed node is |
| OsmReader.Closed | dist/OSMBuildings-OpenLayers.debug.js:499-502 | the ring is returned as is or with its first vertex appended; it is appended exactly when the last vertex differs from the first in both coordinates; either way the result ends where it starts in at least one coordinate |
| OsmReader.ClosedSharedCoordinate | dist/OSMBuildings-OpenLayers.debug.js:499-502 | every ring whose last vertex shares exactly one coordinate with the first is returned open, its last vertex still differing from its first |
| OsmReader.FootprintOf | dist/OSMBuildings-OpenLayers.debug.js:488-510 | `getFootprint` throws exactly when a node is missing; a footprint has at least 8 numbers in pairs; five or more nodes always give one and two or fewer never |
| OsmReader.OuterIsLast | dist/OSMBuildings-OpenLayers.debug.js:466-486 | the outer way is the one the last outer member names, and exists exactly when such a member does |
| OsmReader.InnerOfAppend | dist/OSMBuildings-OpenLayers.debug.js:466-486 | inner ways are collected member by member |
| OsmReader.HolesOk | dist/OSMBuildings-OpenLayers.debug.js:631-635 | every hole a relation collects is a proper ring |
| OsmReader.AppendItemOk | dist/OSMBuildings-OpenLayers.debug.js:643-651 | appending a proper item keeps the result list proper |
| OsmReader.WayStepOk | dist/OSMBuildings-OpenLayers.debug.js:606-619 | `processWay` keeps the way map free of buildings and the result list proper, and only appends |
| OsmReader.RelationStepOk | dist/OSMBuildings-OpenLayers.debug.js:621-641 | `processRelation` keeps the way map and the result list proper, and only appends |
| OsmReader.StepOk | dist/OSMBuildings-OpenLayers.debug.js:655-671 | one element keeps the way map and the result list proper, and only appends |
| OsmReader.RunOk | dist/OSMBuildings-OpenLayers.debug.js:339-672 | whatever the input, the way map never holds a building and every item is a proper ring |
| OsmReader.BuildingWayNotStored | dist/OSMBuildings-OpenLayers.debug.js:606-619 | a building way is emitted or dropped but never stored for relations |
| OsmReader.RelationOuterNotBuilding | dist/OSMBuildings-OpenLayers.debug.js:466-486 | a relation can only use a stored way, hence never a building way |
| OsmReader.OuterFromMap | dist/OSMBuildings-OpenLayers.debug.js:466-486 | the outer way, when found, is no building |
| OsmReader.Reader.constructor | dist/OSMBuildings-OpenLayers.debug.js:655-657 | the reader starts from empty node and way maps and an empty result list |
| OsmReader.Reader.GetFootprint | dist/OSMBuildings-OpenLayers.debug.js:488-510 | the loop over the node ids computes `getFootprint` |
| OsmReader.Reader.GetRelationWays | dist/OSMBuildings-OpenLayers.debug.js:466-486 | the loop over the members computes the outer way and the inner ways |
| OsmReader.Reader.ProcessNode | dist/OSMBuildings-OpenLayers.debug.js:602-604 | `processNode` records the node's coordinates and changes nothing else |
| OsmReader.Reader.AddResult | dist/OSMBuildings-OpenLayers.debug.js:643-651 | `addResult` appends one item, with its footprint turned clockwise and its holes as given |
| OsmReader.Reader.ProcessWay | dist/OSMBuildings-OpenLayers.debug.js:606-619 | `processWay` updates the maps and list as one way step does, or throws as it does |
| OsmReader.Reader.CollectHoles | dist/OSMBuildings-OpenLayers.debug.js:631-635 | the inner-way loop collects the holes or throws on a missing node |
| OsmReader.Reader.ProcessRelation | dist/OSMBuildings-OpenLayers.debug.js:621-641 | `processRelation` updates the state as one relation step does, or throws as it does |
| OsmReader.Reader.ProcessElement | dist/OSMBuildings-OpenLayers.debug.js:660-668 | one element is dispatched to the node, way or relation handler |
| OsmReader.Reader.Read | dist/OSMBuildings-OpenLayers.debug.js:339-672 | `readOSMXAPI` returns the items of the pass over every element, or the TypeError it throws |
| OsmReader.HolesThrown | dist/OSMBuildings-OpenLayers.debug.js:631-635 | once a prefix of the inner ways throws, the whole list does |
| OsmReader.RunNext | dist/OSMBuildings-OpenLayers.debug.js:660-668 | the pass over one more element steps from the pass over the earlier ones |
| OsmReader.RunThrown | dist/OSMBuildings-OpenLayers.debug.js:660-668 | once a prefix of the elements throws, the whole pass does |
| GeoJson.Truthy | dist/OSMBuildings-OpenLayers.debug.js:293-299 | a colour property is taken exactly when it is not the empty string |
| GeoJson.Flat | dist/OSMBuildings-OpenLayers.debug.js:301-308 | the footprint holds two numbers per position |
| GeoJson.FlatFirst | dist/OSMBuildings-OpenLayers.debug.js:301-308 | the footprint starts with the first position's latitude and longitude |
| GeoJson.HeightSumUniform | dist/OSMBuildings-OpenLayers.debug.js:301-308 | with a height property every position adds that height |
| GeoJson.UniformMean | dist/OSMBuildings-OpenLayers.debug.js:325 | the mean height of a uniform ring is the height scaled by the ring length over the divisor, truncated and wrapped to 32 bits |
| GeoJson.ItemHeight | dist/OSMBuildings-OpenLayers.debug.js:325 | the height is the outer ring's sum divided by the length of the last ring visited |
| GeoJson.RunStops | dist/OSMBuildings-OpenLayers.debug.js:252-334 | once the loop stops on a prefix, the whole collection stops the same way |
| GeoJson.FlattenRing | dist/OSMBuildings-OpenLayers.debug.js:301-308 | the loop pushes every position's latitude and longitude and sums the height |
| GeoJson.CollectHoles | dist/OSMBuildings-OpenLayers.debug.js:310-317 | the hole loop throws exactly when there are holes and the feature's index is past the rings, and otherwise pushes one copy of ring `index` per hole |
| GeoJson.BuildItem | dist/OSMBuildings-OpenLayers.debug.js:301-330 | the item is built from the rings as the loop body builds it |
| GeoJson.SelectCoordinates | dist/OSMBuildings-OpenLayers.debug.js:270-287 | the geometry branches leave `coordinates` as the reference definition says, and a null `geometry` throws on `geometry.type` |
| GeoJson.ReadGeoJson | dist/OSMBuildings-OpenLayers.debug.js:252-334 | `readGeoJSON` computes the items of the loop over the collection, or the TypeError it throws (a LineString before any polygon, a null `geometry`, a null `properties` once there are coordinates, a hole index past the rings); a LineString after a one-ring polygon ends the model's run (see "Left out") |
| GeoJson.ItemClockwise | dist/OSMBuildings-OpenLayers.debug.js:322 | every item built is clockwise, with one footprint vertex per position of the outer ring |
| GeoJson.RunClockwise | dist/OSMBuildings-OpenLayers.debug.js:252-334 | the loop emits at most one clockwise item per entry |
| GeoJson.ReadAllClockwise | dist/OSMBuildings-OpenLayers.debug.js:252-334 | `readGeoJSON` emits at most one building per entry, each clockwise |
| GeoJson.SkipsOtherKinds | dist/OSMBuildings-OpenLayers.debug.js:264-267 | entries whose type is not 'Feature' are skipped and change nothing |
| GeoJson.MultiPolygonFirst | dist/OSMBuildings-OpenLayers.debug.js:285-287 | a MultiPolygon is read as its first polygon |
| GeoJson.MultiPolygonEmpty | dist/OSMBuildings-OpenLayers.debug.js:285-291 | an empty MultiPolygon unsets the carried coordinates and emits nothing |
| GeoJson.CarriedRings | dist/OSMBuildings-OpenLayers.debug.js:273-291 | a feature of another geometry type is built from the rings carried over from an earlier feature |
| GeoJson.NothingCarried | dist/OSMBuildings-OpenLayers.debug.js:289-291 | before any polygon, a feature of another geometry type is skipped |
| GeoJson.LineStringFirst | dist/OSMBuildings-OpenLayers.debug.js:273-278 | a LineString before any polygon throws |
| GeoJson.NullGeometryThrows | dist/OSMBuildings-OpenLayers.debug.js:270-273 | a feature whose `geometry` is null throws on `geometry.type` |
| GeoJson.NullPropertiesSkipped | dist/OSMBuildings-OpenLayers.debug.js:289-291 | a feature whose `properties` is null is skipped while there are no coordinates, before any property is read |
| GeoJson.NullPropertiesThrow | dist/OSMBuildings-OpenLayers.debug.js:289-295 | once there are coordinates, a feature whose `properties` is null throws on `properties.color` |
| GeoJson.LineStringAfterOneRing | dist/OSMBuildings-OpenLayers.debug.js:273-278 | after a one-ring polygon, a closed-line test compares an entry with itself, so the line's positions are taken as rings, where the model stops |
| GeoJson.LineStringAfterHoles | dist/OSMBuildings-OpenLayers.debug.js:273-278 | after a polygon with holes the line is ignored and the carried rings are built again |
| GeoJson.ColoursCarry | dist/OSMBuildings-OpenLayers.debug.js:293-299 | a feature with no colour properties is emitted with the colours of an earlier one |
| GeoJson.WallColourChoice | dist/OSMBuildings-OpenLayers.debug.js:293-296 | `color` takes precedence over `wallColor`; either replaces the carried colour |
| GeoJson.ItemId | dist/OSMBuildings-OpenLayers.debug.js:321 | the id is `properties.id`, or else the first position's "lat,lon" |
| GeoJson.FirstFeatureHoleIsOuter | dist/OSMBuildings-OpenLayers.debug.js:310-317 | the first feature of a collection gets its outer ring as its hole, whatever its inner ring is |
| GeoJson.HolesPastRings | dist/OSMBuildings-OpenLayers.debug.js:310-317 | a polygon with holes at an index past its ring count throws |
| Caching.Lookup | dist/OSMBuildings-OpenLayers.debug.js:962-964 | a key that is absent gives nothing, a present one its items |
| Caching.Kept | dist/OSMBuildings-OpenLayers.debug.js:966-973 | a purge keeps exactly the entries added at or after the cutoff, unchanged |
| Caching.KeptAgain | dist/OSMBuildings-OpenLayers.debug.js:966-973 | a later purge with an earlier cutoff deletes nothing |
| Caching.FreshSurvives | dist/OSMBuildings-OpenLayers.debug.js:958-973 | an entry added after the cutoff survives a purge with its items |
| Caching.Cache.constructor | dist/OSMBuildings-OpenLayers.debug.js:951-954 | the cache starts empty, with its time set to the moment it is created |
| Caching.Cache.Get | dist/OSMBuildings-OpenLayers.debug.js:962-964 | `get(key)` is the entry's items when the key is cached and nothing otherwise |
| Caching.Cache.Add | dist/OSMBuildings-OpenLayers.debug.js:958-960 | `add` stores the items under the key with the time and leaves every other key as it was |
| Caching.Cache.Purge | dist/OSMBuildings-OpenLayers.debug.js:966-973 | `purge` moves the cutoff five minutes back and keeps exactly the entries added at or after it |
| Scene.FromRange | dist/OSMBuildings-OpenLayers.debug.js:882-887 | `fromRange` is NaN exactly when the source range is empty |
| Scene.FromRangeBounds | dist/OSMBuildings-OpenLayers.debug.js:882-887 | with ordered ranges the result lies in the destination range, and the ends map to its ends |
| Scene.ZoomAlpha | dist/OSMBuildings-OpenLayers.debug.js:2224 | the zoom alpha is NaN exactly when minZoom equals maxZoom |
| Scene.ZoomAlphaBounds | dist/OSMBuildings-OpenLayers.debug.js:2224 | colours fade from opaque at minZoom and below to 0.7 at maxZoom and above |
| Scene.View.constructor | dist/OSMBuildings-OpenLayers.debug.js:832-859 | the view starts with zero sizes, offsets and camera, full alpha, the default zoom range and the default wall, alternative and roof colours |
| Scene.View.SetOrigin | dist/OSMBuildings-OpenLayers.debug.js:2199-2202 | `setOrigin` sets the origin and every other view variable keeps its value |
| Scene.View.SetCamOffset | dist/OSMBuildings-OpenLayers.debug.js:2204-2207 | `setCamOffset` moves the camera from the bottom centre by the offset and every other view variable keeps its value |
| Scene.View.SetSize | dist/OSMBuildings-OpenLayers.debug.js:2209-2218 | `setSize` sets the size, the truncated halves, the camera at the bottom centre and `maxHeight = camZ - 50`; every other view variable keeps its value |
| Scene.View.SetZoom | dist/OSMBuildings-OpenLayers.debug.js:2220-2229 | `setZoom` sets the zoom, the world size `256 << zoom`, the zoom alpha and the wall, alternative and roof colours with that alpha; every other view variable keeps its value |
| Scene.WorldSize | dist/OSMBuildings-OpenLayers.debug.js:2222 | at map zoom levels the world is 256 * 2^zoom pixels wide |
| Scene.HalfWidthBounds | dist/OSMBuildings-OpenLayers.debug.js:2212 | `setSize` halves a non-negative width to within one pixel |
| Template.TrimZeros | dist/OSMBuildings-OpenLayers.debug.js:1151-1154 | the shortest decimal drops exactly the trailing zeros |
| Template.DecimalWhole | dist/OSMBuildings-OpenLayers.debug.js:1151-1154 | whole numbers are written with no decimal point and read back as themselves |
| Template.DecimalFractions | dist/OSMBuildings-OpenLayers.debug.js:1151-1154 | examples of fractions keeping their leading zeros and losing their trailing ones |
| Template.DecimalShape | dist/OSMBuildings-OpenLayers.debug.js:1151-1154 | for every cropped number with a fractional part, the text is its sign, its whole part, a point and one to four digits, the last of which is not 0 |
| Template.DecimalRoundTrip | dist/OSMBuildings-OpenLayers.debug.js:1151-1154 | `parseFloat` reads back every cropped number from the text written for it |
| Template.TagAt | dist/OSMBuildings-OpenLayers.debug.js:890 | a recognised placeholder starts with '{', ends with '}' and has a non-empty key of word characters |
| Template.Replacement | dist/OSMBuildings-OpenLayers.debug.js:890-891 | a placeholder becomes the parameter when it is truthy and stays as it is otherwise |
| Template.TagOfPlaceholder | dist/OSMBuildings-OpenLayers.debug.js:890 | any spacing around a key is recognised, whatever follows it |
| Template.FillPlain | dist/OSMBuildings-OpenLayers.debug.js:889-892 | text with no '{' is copied as it is, and the rest is filled on its own |
| Template.NoPlaceholders | dist/OSMBuildings-OpenLayers.debug.js:889-892 | a template with no '{' comes back unchanged |
| Template.NoParameters | dist/OSMBuildings-OpenLayers.debug.js:889-892 | with no parameters every placeholder stays verbatim, so the template comes back unchanged |
| Template.FillOne | dist/OSMBuildings-OpenLayers.debug.js:889-892 | one placeholder after plain text becomes its truthy value or stays verbatim |
| Template.FillAtPlaceholder | dist/OSMBuildings-OpenLayers.debug.js:889-892 | a text that starts with a placeholder is its replacement, then the rest filled |
| Template.ZeroNotSubstituted | dist/OSMBuildings-OpenLayers.debug.js:889-892 | a parameter equal to 0 leaves its placeholder in the URL |
| DataLayer.PixelsOf | dist/OSMBuildings-OpenLayers.debug.js:1012-1019 | the projected ring has one pixel coordinate per coordinate of the input |
| DataLayer.FootprintShape | dist/OSMBuildings-OpenLayers.debug.js:1012-1025 | a footprint exists exactly when the simplified ring has at least 8 numbers, and then starts and ends where the projected ring does |
| DataLayer.ShortRingDropped | dist/OSMBuildings-OpenLayers.debug.js:1020-1023 | rings of fewer than four vertices never make a footprint |
| DataLayer.GetFootprint | dist/OSMBuildings-OpenLayers.debug.js:1012-1025 | `_getFootprint` fills the array, simplifies it and drops it when too short |
| DataLayer.HolesOf | dist/OSMBuildings-OpenLayers.debug.js:1069-1076 | there are no more holes than inputs, each of at least four vertices |
| DataLayer.ScaleItemRule | dist/OSMBuildings-OpenLayers.debug.js:1051-1106 | an item is dropped exactly when its shifted height is 0, its shifted minHeight is above maxHeight or it has no footprint; a kept item keeps its id and carries the capped height |
| DataLayer.DefaultHeightVanishes | dist/OSMBuildings-OpenLayers.debug.js:1055-1058 | an item without a height of its own is dropped three or more zoom levels below maxZoom |
| DataLayer.ScaleAllAppend | dist/OSMBuildings-OpenLayers.debug.js:1042-1109 | scaling two lists one after the other is scaling them joined |
| DataLayer.ScaleAllLength | dist/OSMBuildings-OpenLayers.debug.js:1042-1109 | `_scale` never emits more items than it is given |
| DataLayer.ScaleAllFrom | dist/OSMBuildings-OpenLayers.debug.js:1042-1109 | every item `_scale` emits is what it made of one of its inputs |
| DataLayer.ScaleHoles | dist/OSMBuildings-OpenLayers.debug.js:1069-1076 | the hole loop keeps the holes that make a footprint, in order |
| DataLayer.ScaleOne | dist/OSMBuildings-OpenLayers.debug.js:1053-1105 | one turn of the loop makes what the reference definition makes of the item |
| DataLayer.ScaleItems | dist/OSMBuildings-OpenLayers.debug.js:1042-1109 | `_scale` returns the items it keeps, in order |
| DataLayer.AddedAppends | dist/OSMBuildings-OpenLayers.debug.js:1027-1040 | `_add` never removes or reorders entries, appends items at the given scale and grows the index by their ids |
| DataLayer.AddedIndexed | dist/OSMBuildings-OpenLayers.debug.js:1027-1040 | `_add` keeps `_index` equal to the ids of `renderItems`, each shown once |
| DataLayer.AddedKnown | dist/OSMBuildings-OpenLayers.debug.js:1033 | items whose ids are all indexed add nothing |
| DataLayer.AddedTwice | dist/OSMBuildings-OpenLayers.debug.js:1027-1040 | adding the same items again, at any scale, changes nothing |
| DataLayer.TickRule | dist/OSMBuildings-OpenLayers.debug.js:1180-1199 | a tick raises every scale below full by a tenth, leaves full ones alone, changes nothing else and never passes full |
| DataLayer.TickNScale | dist/OSMBuildings-OpenLayers.debug.js:1180-1199 | after `n` ticks an entry has risen by `n` tenths or reached full scale |
| DataLayer.FadeCompletes | dist/OSMBuildings-OpenLayers.debug.js:1180-1199 | ten ticks bring every entry to full scale, and the tick after that clears the timer |
| DataLayer.ReadPayload | dist/OSMBuildings-OpenLayers.debug.js:999-1003 | whatever a reader returns is made of latitude/longitude pairs |
| DataLayer.ReadResponse | dist/OSMBuildings-OpenLayers.debug.js:999-1003 | the readers are chosen by the response's kind as the source chooses them |
| DataLayer.RespondAppendsNew | dist/OSMBuildings-OpenLayers.debug.js:993-1010 | a successful response keeps what was listed and appends its new items at scale 0 |
| DataLayer.UnrecognisedRequestedAgain | dist/OSMBuildings-OpenLayers.debug.js:1001-1009 | an unrecognised response is cached as `undefined`, throws in `_scale`, and its tile is requested again on the next walk |
| DataLayer.RowCover | dist/OSMBuildings-OpenLayers.debug.js:1145 | a row visits exactly the tiles between its west and east bounds |
| DataLayer.TilesCover | dist/OSMBuildings-OpenLayers.debug.js:1144-1145 | the walk visits exactly the tiles inside the bounds |
| DataLayer.TileEdges | dist/OSMBuildings-OpenLayers.debug.js:1150-1155 | a tile's edges crop to whole multiples of the tile size, for tiles within a million rows and columns of the origin |
| DataLayer.EquatorTileKeepsPlaceholder | dist/OSMBuildings-OpenLayers.debug.js:1153 | tiles on the equator have south edge 0, which is falsy, so their `{s}` placeholder stays in the URL |
| DataLayer.VisitAllRequests | dist/OSMBuildings-OpenLayers.debug.js:1144-1158 | the walk appends one request per uncached tile and nothing else |
| DataLayer.RequestedTiles | dist/OSMBuildings-OpenLayers.debug.js:1144-1158 | every request is for an uncached tile of the walk with that tile's URL, and every uncached tile is requested |
| DataLayer.VisitAllListing | dist/OSMBuildings-OpenLayers.debug.js:1144-1158 | the walk keeps the index in step, adds at full scale only and starts the fade only for cached tiles |
| DataLayer.VisitSnoc | dist/OSMBuildings-OpenLayers.debug.js:1144-1158 | the walk over one more tile is one more visit |
| DataLayer.Data.constructor | dist/OSMBuildings-OpenLayers.debug.js:982-1113 | the data layer starts with no URL, no items, an empty index and no timer |
| DataLayer.Data.FadeIn | dist/OSMBuildings-OpenLayers.debug.js:1175-1180 | `fadeIn` starts the timer and changes no items |
| DataLayer.Data.Tick | dist/OSMBuildings-OpenLayers.debug.js:1180-1199 | one timer run ticks every item and clears the timer exactly when none was fading |
| DataLayer.Data.Add | dist/OSMBuildings-OpenLayers.debug.js:1027-1040 | `_add` appends the scaled items not yet indexed and starts the fade |
| DataLayer.Data.Append | dist/OSMBuildings-OpenLayers.debug.js:1030-1038 | the loop of `_add` appends as the reference definition does |
| DataLayer.Data.Parse | dist/OSMBuildings-OpenLayers.debug.js:993-1010 | `_parse` caches what the readers returned and updates the listing and timer as the response rule says |
| DataLayer.Data.Set | dist/OSMBuildings-OpenLayers.debug.js:1161-1165 | `set` empties the list and the index, then parses the data without caching it |
| DataLayer.Data.Update | dist/OSMBuildings-OpenLayers.debug.js:1120-1159 | below MIN_ZOOM or before `load` nothing happens; otherwise the cache is purged and the walk over the tiles is done from an empty listing |
| DataLayer.Data.VisitRow | dist/OSMBuildings-OpenLayers.debug.js:1145-1157 | the inner loop visits the tiles of one row |
| DataLayer.Data.VisitTile | dist/OSMBuildings-OpenLayers.debug.js:1146-1156 | a cached tile is added at full scale, any other one requested |
| DataLayer.Data.Load | dist/OSMBuildings-OpenLayers.debug.js:1115-1118 | `load` sets the given URL or OSM_XAPI_URL, then updates |
| Render.CameraOf | dist/OSMBuildings-OpenLayers.debug.js:1220-1226 | the camera carries the view's origin and camera position |
| Render.IsVisible | dist/OSMBuildings-OpenLayers.debug.js:1243-1255 | the visibility loop answers whether some vertex lies strictly inside the viewport |
| Render.ShiftFootprint | dist/OSMBuildings-OpenLayers.debug.js:1947-1962 | the flat and shadow passes' copy-and-test loop gives the shifted footprint and the same visibility as `render` |
| Render.FadedBelow | dist/OSMBuildings-OpenLayers.debug.js:1257-1260 | a faded height stays below the camera when the height does |
| Render.GroundFactor | dist/OSMBuildings-OpenLayers.debug.js:1260 | a point on the ground is drawn where it is |
| Render.ProjectFixed | dist/OSMBuildings-OpenLayers.debug.js:1359-1364 | with factor 1 a point stays put up to the 32-bit wrap, and so does the camera point whatever the factor |
| Render.RoofPointsAt | dist/OSMBuildings-OpenLayers.debug.js:1287-1326 | the roof lists the top of each vertex in turn |
| Render.RoofLength | dist/OSMBuildings-OpenLayers.debug.js:1287-1326 | the roof has one vertex fewer than the ring |
| Render.RenderEdge | dist/OSMBuildings-OpenLayers.debug.js:1291-1323 | one step of `renderPolygon` draws the edge's wall when it faces the camera and returns the roof point above it |
| Render.RenderPolygon | dist/OSMBuildings-OpenLayers.debug.js:1287-1326 | `renderPolygon` draws the walls of the edges that face the camera and returns the roof |
| Render.GroundHasNoWalls | dist/OSMBuildings-OpenLayers.debug.js:1287-1326 | on the ground no wall faces the camera, when the viewport coordinates fit in 32 bits |
| Render.GroundEdge | dist/OSMBuildings-OpenLayers.debug.js:1298-1307 | on the ground an edge's top is its base, so the backface test fails, when the viewport coordinates fit in 32 bits |
| Render.GroundRoof | dist/OSMBuildings-OpenLayers.debug.js:1287-1326 | on the ground the roof is the ring itself, less its last vertex, when the viewport coordinates fit in 32 bits |
| Render.ScaledDrawable | dist/OSMBuildings-OpenLayers.debug.js:1051-1106 | what the data layer scales is drawable whenever maxHeight is below the camera, whatever the fade |
| Render.HoleRoofsAt | dist/OSMBuildings-OpenLayers.debug.js:1273-1278 | the roofs of the holes are the holes' own roofs, in order |
| Render.FreshItemFlat | dist/OSMBuildings-OpenLayers.debug.js:1257-1283 | an item that has just arrived is drawn flat: no walls, and its footprint as the roof, when its viewport coordinates fit in 32 bits |
| Render.DrawItem | dist/OSMBuildings-OpenLayers.debug.js:1257-1283 | one item of the loop draws its footprint's and its holes' walls and roofs |
| Render.RenderHoles | dist/OSMBuildings-OpenLayers.debug.js:1273-1278 | the hole loop draws each hole's walls and keeps its roof |
| Render.RenderExtruded | dist/OSMBuildings-OpenLayers.debug.js:1208-1285 | `render` draws, in list order, the visible items taller than the flat height |
| Render.FlatOutlineShape | dist/OSMBuildings-OpenLayers.debug.js:2063-2123 | an outline moves to the first vertex and draws lines through the rest |
| Render.Outline | dist/OSMBuildings-OpenLayers.debug.js:2105-2115 | the path loop of the flat pass builds the outline of one footprint |
| Render.RenderFlat | dist/OSMBuildings-OpenLayers.debug.js:2063-2123 | the flat pass draws one closed outline per visible item at most the flat height |
| Render.PassesSplit | dist/OSMBuildings-OpenLayers.debug.js:1239-1241 | an item is drawn extruded or flat, never both, and every visible item by one of them |
| Render.PassesCount | dist/OSMBuildings-OpenLayers.debug.js:1239-1241 | the two passes together draw as many items as are visible |
| Render.ShadowEdgesShape | dist/OSMBuildings-OpenLayers.debug.js:1974-2012 | a shadow outline starts with one move and continues with lines only |
| Render.ShadowWithoutDirection | dist/OSMBuildings-OpenLayers.debug.js:1974-2012 | with no shadow direction every edge is a roof edge on the footprint: a plain outline |
| Render.ShadowStep | dist/OSMBuildings-OpenLayers.debug.js:1974-2012 | one step of the edge loop adds the commands of one edge and the new mode |
| Render.ShadowOutline | dist/OSMBuildings-OpenLayers.debug.js:1974-2012 | the edge loop builds the outline of one item |
| Render.Mask | dist/OSMBuildings-OpenLayers.debug.js:2022-2036 | the mask loop outlines one footprint |
| Render.RenderShadows | dist/OSMBuildings-OpenLayers.debug.js:1898-2037 | `Shadows.render` draws nothing when disabled, hidden or with the sun down, else the visible items' shadows and their footprints as the mask |

## Left out

- `Color.toHSLA`, `hsla2rgb` and the body of `setLightness`: the HSL conversion is floating-point colour arithmetic. Only the clamp `setLightness` applies is modelled (`ScaledLightness`). An `hsl(...)` match is kept as an `Hsla` colour, not converted to RGB.
- `Color.prototype.toString`: colours stay values; the text the canvas receives is not modelled.
- Colors.Parse: the `hsl(...)` branch and the `rgba(...)` alpha branch are modelled. No round-trip lemma is proved for them; the round trips cover the hex forms and `rgb(r,g,b)`.
- Geometry.SqSegDist: only non-negativity and the zero distance at both ends are proved. That it is the distance to the nearest point of the segment is not.
- `getSunPosition`, `pixelToGeo`, `geoToPixel`, the trigonometry of the shadow direction: floating-point astronomy and projection. The shadow direction is a parameter of the shadow pass (`None` when the sun is down), and the projection to pixels is a function parameter `toPixel`.
- The `xhr` transport, `XDomainRequest`/`XMLHttpRequest` and the asynchronous callbacks: a request is recorded as the filled URL and its tile, and a response is handed to `Data.Parse` by the caller.
- DataLayer.Data.Update: the bounds come in as tile indices, not as the latitudes and longitudes `pixelToGeo` and `ceil`/`floor` produce. The cache key is the tile's index pair, not the text `lat + ',' + lon`, so floating-point accumulation of `lat += sizeLat` and key collisions are not modelled.
- The depth sort of `render` (lines 1232-1234): it orders by a floating-point ratio of distance over height. The extrusion pass draws in list order; the flat and shadow passes do not sort in the source either.
- `setInterval` and `clearInterval` timing: the timer is a flag, and each run is a call to `Data.Tick`. The fade counts scales in tenths, so the floating-point drift of `scale += 0.5*0.2` is not modelled.
- The canvas, its contexts, `Layers`, the DOM and the OpenLayers glue: drawing becomes values (walls, roofs, path commands). Fill and stroke styles are not modelled.
- The `objects.js` part of the file (cylinders, domes and other shapes): not part of this core. Its `function render()` (line 1388) is declared in the same function scope as the extrusion pass's `render` (line 1208). Being the later declaration, it replaces that one when declarations are hoisted. So in the bundle as written `renderAll` calls the `objects.js` version, which clears the canvas and draws a dome at a fixed position. Render.RenderExtruded models the extrusion pass at line 1208 that the other passes and `renderAll` are designed around; the override is not modelled.
- Debug helpers and `setStyle`: not part of this core.
- Scene.View.constructor: `zoom`, `size`, `camX`, `camY` and `maxHeight` start as `undefined` in the source; the model starts them at 0. `defaultAltColor` and `defaultRoofColor` are `setLightness` of the wall colour, which is not computed: they are constructor parameters.
- DataLayer.ScaleItem: the lighter `altColor` (`setLightness(0.8)`) is not computed. The colours are kept as `Color` values rather than their text. An empty hole list stands for `holes: null`. A missing roof colour stays `None`; the draw-time fallback to `roofColorAlpha` is a fill style and is not modelled.
- Caching.Cache.Purge: the source compares a number with a `Date` object. The model compares integer times, and `Date.now()` and the creation moment are parameters.
- Template: a key that is present on the parameter object's prototype chain (such as `constructor`) is not modelled; the parameters are a plain map.
- DataLayer.GetFootprint, DataLayer.ScaleItem, Render.RenderPolygon and the `Drawable` predicate require even-length rings. Both readers only produce such rings (`ReadPayload`, `Paired`); an odd-length ring passed in by `set` is not modelled.
- GeoJson: a `LineString` before any polygon reads `coordinates.length` of `undefined` and throws. It is modelled as the TypeError outcome. The closed-line test on `undefined` entries is modelled by `SameEntry`, since positions are distinct objects.
- Js.ParseFloat and Js.ToNumber: exponents and `Infinity` in the text are not modelled. Decimal digits with an optional fraction are, and so are `Number`'s `0x`, `0o` and `0b` literals and the full set of white-space and line-terminator characters both conversions trim.
- Js.Lower: `toLowerCase` is modelled on ASCII letters only. Unicode case mappings are not, such as U+212A KELVIN SIGN to `k` or U+0130 to two characters. Js.LowerIdempotent and OsmReader.ParseMaterialCaseInsensitive hold for this ASCII model.
- DataLayer.Added: `_index[item.id]` keys a plain object, so the source compares ids by their string form: an OSM id `123` and a GeoJSON id `"123"` are one entry, and so are a corner id and a given id `"52.5,13.4"`. The model's `Key` keeps the three kinds of id apart (the text of a corner id would need JavaScript's number-to-string conversion, which is not modelled), so DataLayer.AddedIndexed, DataLayer.AddedAppends and DataLayer.AddedKnown are about these distinct keys, and the model shows both items where the source shows only the first.
- GeoJson.ReadGeoJson: after a one-ring polygon, a `LineString`'s closed-line test compares an entry with itself and the line's positions become the carried `coordinates`. The source then reads each position as a ring: the item gets `undefined` coordinates, or a TypeError is thrown once the feature's index passes the line's length. The positions also stay carried into later features. The model cannot represent `undefined` coordinates, so it stops the run at that feature (outcome `LineAsRings`, GeoJson.LineStringAfterOneRing) and drops every later feature.
- Render.GroundHasNoWalls, Render.GroundEdge, Render.GroundRoof and Render.FreshItemFlat: proved for footprints whose viewport coordinates are in the 32-bit range, where the `<<0` of the projection leaves them unchanged.
- Geometry.CenterInBoundingBox: proved for footprints whose bounding box is in the 32-bit range; outside it the `<<0` of the centre wraps.
- DataLayer.TileEdges: proved for tiles within a million rows and columns of the origin, where the cropped edges stay in the 32-bit range; the globe spans 24000 rows and columns.
- Doubles are modelled as unbounded reals (or integers where the source truncates), so rounding errors of floating-point arithmetic are not modelled.
