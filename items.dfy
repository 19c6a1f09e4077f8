/**
 * The building record both readers produce and the data layer consumes.
 */
module Items {
  import opened Wrappers

  /**
   * An item's id. OSM ids are numbers; a GeoJSON feature gives its own id or
   * falls back to the text `lat + ',' + lon` of its first vertex, kept here as
   * the (at most two) numbers it is made of.
   */
  datatype Key = Osm(n: int) | Given(s: string) | Corner(first: seq<real>)

  /**
   * A building as the readers emit it. `height` 0 and `minHeight` 0 stand for
   * a property that is absent (the consumers read both the same way); `holes`
   * empty stands for no holes (neither reader emits an empty list).
   */
  datatype Building = Building(
    id: Key,
    footprint: seq<real>,
    holes: seq<seq<real>>,
    height: int,
    minHeight: real,
    wallColor: Option<string>,
    roofColor: Option<string>)
}
