/**
 * Positions. The floating-point geometry (haversine, initial bearing,
 * geopy's geodesic) is not modelled: every operation that uses it takes
 * it as a function parameter, so the model covers only the rules that
 * compare, threshold and order its results.
 */
module Geo {
  import opened Wrappers
  import opened Json

  /** A latitude/longitude pair in decimal degrees. */
  datatype Coord = Coord(lat: real, lon: real)

  /** Great-circle distance in km from the observer to a target (radar.py `haversine`). */
  type DistanceFn = (Coord, Coord) -> real

  /** Initial bearing in degrees from the observer to a target (radar.py `calculate_bearing`). */
  type BearingFn = (Coord, Coord) -> real

  /**
   * geopy's `geodesic(observer, (lat, lon)).km` on the two raw JSON
   * coordinates of a state vector; None when geopy raises (a coordinate
   * it cannot read, a latitude out of range).
   */
  type GeodesicFn = (Coord, Value, Value) -> Option<real>
}
