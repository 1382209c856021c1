/** Values shared by both passes of the renderer: road geometries in
    geographic degrees, location-history records in E7 fixed point, planar
    points, and the extended reals the running extrema start from. */
module Geo {

  datatype Option<T> = None | Some(value: T)

  /** One coordinate of a road geometry, longitude first (GeoJSON order). */
  datatype Position = Position(lon: real, lat: real)

  /** The geometry of one road record: an ordered polyline. */
  datatype Geometry = Geometry(coordinates: seq<Position>)

  /** The argument object of the Mercator projection, `{lat, lng}`. */
  datatype LatLng = LatLng(lat: real, lng: real)

  /** A planar point: a projection result, or a pixel position once scaled. */
  datatype Point = Point(x: real, y: real)

  /** One location-history entry, in degrees times 10^7. */
  datatype Location = Location(latitudeE7: int, longitudeE7: int)

  /** The Mercator projection `fromLatLngToPoint` of a foreign library. The
      model takes it as a parameter and assumes nothing about it. */
  type Projection = LatLng -> Point

  /** A real extended with the two infinities the extrema start from. */
  datatype Ext = NegInf | Fin(r: real) | PosInf

  /** `v > e` with JavaScript's ordering of infinities. */
  predicate Exceeds(v: real, e: Ext)
  {
    match e
    case NegInf => true
    case Fin(r) => v > r
    case PosInf => false
  }

  /** `v < e` with JavaScript's ordering of infinities. */
  predicate Undercuts(v: real, e: Ext)
  {
    match e
    case NegInf => false
    case Fin(r) => v < r
    case PosInf => true
  }

  /** Projects a road coordinate: `toMercator({ lng: lon, lat })`. */
  function Project(proj: Projection, c: Position): Point
  {
    proj(LatLng(c.lat, c.lon))
  }

  /** The projected points of a geometry, in coordinate order. */
  function GeometryPoints(g: Geometry, proj: Projection): seq<Point>
  {
    seq(|g.coordinates|, i requires 0 <= i < |g.coordinates| => Project(proj, g.coordinates[i]))
  }

  /** The projected points of one callback argument; an absent datum has none. */
  function DatumPoints(d: Option<Geometry>, proj: Projection): seq<Point>
  {
    match d
    case None => []
    case Some(g) => GeometryPoints(g, proj)
  }

  /** The projected points of a sequence of callback arguments, in order. */
  function AllPoints(ds: seq<Option<Geometry>>, proj: Projection): seq<Point>
    decreases |ds|
  {
    if ds == [] then [] else AllPoints(ds[..|ds| - 1], proj) + DatumPoints(ds[|ds| - 1], proj)
  }

  /** Degrees per E7 unit, as the divisor `1e7`. */
  const E7: real := 10000000.0

  /** Converts an E7 fixed-point location to the projection's argument. */
  function LatLngOfE7(l: Location): (p: LatLng)
    ensures p.lat * E7 == l.latitudeE7 as real
    ensures p.lng * E7 == l.longitudeE7 as real
  {
    LatLng(l.latitudeE7 as real / E7, l.longitudeE7 as real / E7)
  }
}
