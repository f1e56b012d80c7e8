/** GeoJSON geometries (RFC 7946) as the tiling pipeline reads them. */
module GeoJson {

  /** A position per section 3.1.1 of RFC 7946: longitude, latitude and an optional elevation. */
  type Position = p: seq<real> | |p| >= 2 witness [0.0, 0.0]

  datatype Geometry =
    | Point(position: Position)
    | MultiPoint(points: seq<Position>)
    | LineString(line: seq<Position>)
    | MultiLineString(lines: seq<seq<Position>>)
    | Polygon(rings: seq<seq<Position>>)
    | MultiPolygon(polygons: seq<seq<seq<Position>>>)
    /** Any other `type` member, e.g. GeometryCollection; its coordinates are not read. */
    | OtherGeometry(typeName: string)

  function TypeName(g: Geometry): string
  {
    match g
    case Point(_) => "Point"
    case MultiPoint(_) => "MultiPoint"
    case LineString(_) => "LineString"
    case MultiLineString(_) => "MultiLineString"
    case Polygon(_) => "Polygon"
    case MultiPolygon(_) => "MultiPolygon"
    case OtherGeometry(name) => name
  }
}
