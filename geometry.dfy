/** Planar geometry values tagged with a coordinate reference system. */
module Geometry {

  /** EPSG code of the Dutch national grid (Amersfoort / RD New). */
  const RD_NEW: int := 28992

  datatype Point = Point(x: real, y: real)

  /** A polygon given by its outer ring and the SRID its coordinates are in. */
  datatype Polygon = Polygon(shell: seq<Point>, srid: int)

  /** A collection of polygons in one SRID (a tile's stored footprint). */
  datatype MultiPolygon = MultiPolygon(polygons: seq<Polygon>, srid: int)

  /** The cross product of two ring vertices, one term of the shoelace formula. */
  function Cross(p: Point, q: Point): (c: real)
  {
    p.x * q.y - q.x * p.y
  }

  /**
   * Twice the signed area enclosed by a closed ring (shoelace formula over
   * consecutive vertices): positive for a counter-clockwise ring.
   */
  function TwiceSignedArea(ring: seq<Point>): (area2: real)
  {
    if |ring| < 2 then 0.0 else Cross(ring[0], ring[1]) + TwiceSignedArea(ring[1..])
  }
}
