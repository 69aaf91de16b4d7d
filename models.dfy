/**
 * The AHN tile index of `lizard_raster/models.py`: one record per elevation
 * tile, opening a tile's dataset with a trustworthy nodata value, and
 * selecting the tiles whose footprint meets an area of interest.
 */
module Models {
  import opened Errors
  import opened Geometry
  import opened Gdal
  import opened Raster

  datatype Date = Date(year: int, month: int, day: int)

  /** The driver's open call, seen as the dataset each argument yields; an absent argument yields `None`. */
  type Driver = map<string, Dataset>

  /** Spatial intersection of a stored tile footprint with a query polygon, left uninterpreted. */
  type Intersects = (MultiPolygon, Polygon) -> bool

  function Open(driver: Driver, argument: string): (ds: Dataset?)
  {
    if argument in driver then driver[argument] else null
  }

  /** One row of the `data_index` table. */
  datatype AhnIndex = AhnIndex(
    gid: int,
    x: Option<real>, y: Option<real>,
    cellsize: string, loX: string, loY: string,
    bladnr: string,
    update: Option<Date>, datum: Option<Date>, minDatum: Option<Date>, maxDatum: Option<Date>,
    ar: Option<real>,
    theGeom: Option<MultiPolygon>)
  {
    /** `__unicode__`: a tile is shown by its sheet name. */
    function Unicode(): (s: string)
      ensures s == bladnr
    {
      bladnr
    }

    /**
     * `get_ds`: open this tile from `tablename` through the PostGIS raster
     * driver. When band 1 reports nodata 0 (the driver's default), the value
     * stored with the tile is looked up and set on the band in place; the
     * lookup is the only query sent, and only then. Returns the opened
     * dataset itself, or `None` when the driver yields nothing. The
     * connections are made from the same settings as the driver argument,
     * so they know the same aliases.
     */
    method GetDs(databases: map<string, DbConfig>, connections: map<string, Database>, driver: Driver,
                 tablename: string := "data_ahn")
      returns (r: Result<Dataset?>, queries: seq<string>)
      requires databases.Keys == connections.Keys
      modifies driver.Values
      ensures var argument := GetPostgisRasterArgument(databases, tablename, bladnr);
        argument.Err? ==> r == Err(argument.error) && queries == [] && unchanged(driver.Values)
      ensures var argument := GetPostgisRasterArgument(databases, tablename, bladnr);
        argument.Ok? ==>
          var ds := Open(driver, argument.value);
          && (forall d <- driver.Values | d != ds :: unchanged(d))
          && (ds == null || old(ds.nodata) != Some(0.0) ==>
                r == Ok(ds) && queries == [] && unchanged(driver.Values))
          && (ds != null && old(ds.nodata) == Some(0.0) ==>
                var nodatavalue := GetPostgisRasterNodataValue(connections, tablename, bladnr);
                && queries == [NodataQuery(tablename, bladnr)]
                && (nodatavalue.Ok? ==> r == Ok(ds) && ds.nodata == Some(nodatavalue.value))
                && (nodatavalue.Err? ==> r == Err(nodatavalue.error) && ds.nodata == old(ds.nodata)))
    {
      var tilename := bladnr;
      var argument := GetPostgisRasterArgument(databases, tablename, tilename);
      if argument.Err? {
        return Err(argument.error), [];
      }
      var dataset := Open(driver, argument.value);
      queries := [];
      if dataset != null && dataset.nodata == Some(0.0) {
        queries := [NodataQuery(tablename, tilename)];
        var nodatavalue := GetPostgisRasterNodataValue(connections, tablename, tilename);
        if nodatavalue.Err? {
          return Err(nodatavalue.error), queries;
        }
        dataset.nodata := Some(nodatavalue.value);
      }
      r := Ok(dataset);
    }
  }

  /** A record matches a footprint when its stored geometry is present and intersects it. */
  predicate Covers(a: AhnIndex, intersects: Intersects, footprint: Polygon)
  {
    a.theGeom.Some? && intersects(a.theGeom.value, footprint)
  }

  /**
   * The records, in index order, whose geometry intersects the footprint:
   * each matching record as often as the index holds it, and nothing else.
   */
  function Intersecting(objects: seq<AhnIndex>, intersects: Intersects, footprint: Polygon): (r: seq<AhnIndex>)
    ensures forall a :: a in r <==> a in objects && Covers(a, intersects, footprint)
    ensures forall a :: multiset(r)[a] == if Covers(a, intersects, footprint) then multiset(objects)[a] else 0
    ensures |r| <= |objects|
  {
    if |objects| == 0 then []
    else
      var rest := Intersecting(objects[1..], intersects, footprint);
      assert objects == [objects[0]] + objects[1..];
      assert forall a :: a in objects <==> a == objects[0] || a in objects[1..];
      if Covers(objects[0], intersects, footprint) then [objects[0]] + rest else rest
  }

  /**
   * `get_ahn_indices`: the index records meeting an explicit polygon, or
   * else the footprint of `ds`. With neither, the footprint lookup on `None`
   * raises.
   */
  function GetAhnIndices(objects: seq<AhnIndex>, intersects: Intersects,
                         ds: Dataset? := null, polygon: Option<Polygon> := None): (r: Result<seq<AhnIndex>>)
    ensures r.Err? <==> polygon.None? && ds == null
    ensures r.Err? ==> r.error == AttributeError("GetGeoTransform")
    ensures r.Ok? ==>
      var footprint := if polygon.Some? then polygon.value else GetPolygon(ds);
      && (forall a :: a in r.value <==> a in objects && Covers(a, intersects, footprint))
      && (forall a :: multiset(r.value)[a]
                       == if Covers(a, intersects, footprint) then multiset(objects)[a] else 0)
  {
    if polygon.Some? then Ok(Intersecting(objects, intersects, polygon.value))
    else if ds == null then Err(AttributeError("GetGeoTransform"))
    else Ok(Intersecting(objects, intersects, GetPolygon(ds)))
  }

  /** An explicit polygon decides the result on its own: the dataset argument is ignored. */
  lemma ExplicitPolygonWins(objects: seq<AhnIndex>, intersects: Intersects, ds1: Dataset?, ds2: Dataset?, p: Polygon)
    ensures GetAhnIndices(objects, intersects, ds1, Some(p)) == GetAhnIndices(objects, intersects, ds2, Some(p))
    ensures GetAhnIndices(objects, intersects, ds1, Some(p)).Ok?
  {
  }

  /** Without a polygon, a dataset's footprint is the query polygon, so its tiles are those meeting GetPolygon(ds). */
  lemma DatasetFootprintUsed(objects: seq<AhnIndex>, intersects: Intersects, ds: Dataset)
    ensures GetAhnIndices(objects, intersects, ds, None)
            == GetAhnIndices(objects, intersects, null, Some(GetPolygon(ds)))
  {
  }

  /**
   * Intersection of axis-aligned rectangles whose first and third ring
   * vertices are opposite corners, as `GetPolygon` builds them; this stands
   * in for the spatial predicate in the client below.
   */
  predicate RectanglesMeet(m: MultiPolygon, p: Polygon)
  {
    && |m.polygons| > 0 && |m.polygons[0].shell| >= 3 && |p.shell| >= 3
    && var s, t := m.polygons[0].shell, p.shell;
       s[0].x <= t[2].x && t[0].x <= s[2].x && s[0].y <= t[2].y && t[0].y <= s[2].y
  }

  /**
   * A client: tile T1 opened with the driver's nodata 0 comes back with the
   * stored value -9999; a query square inside its footprint finds it and a
   * square far outside does not.
   */
  method OpenTileScenario()
  {
    var ds := new Dataset(10, 10, GeoTransform(0.0, 10.0, 0.0, 100.0, 0.0, -10.0), Some(0.0));
    var tile := AhnIndex(1, None, None, "", "", "", "T1", None, None, None, None, None, None);
    var databases := map[DEFAULT_DATABASE := DbConfig("", "", "lizard", "web", "secret")];
    var argument := GetPostgisRasterArgument(databases, "data_ahn", "T1");
    var raster: Database := q => if q == NodataQuery("data_ahn", "T1") then [[-9999.0]] else [];
    var r, queries := tile.GetDs(databases, map[DEFAULT_DATABASE := raster], map[argument.value := ds]);
    assert r == Ok(ds) && ds.nodata == Some(-9999.0);
    assert queries == [NodataQuery("data_ahn", "T1")];

    var inside := Polygon([Point(10.0, 10.0), Point(20.0, 10.0), Point(20.0, 20.0), Point(10.0, 20.0),
                           Point(10.0, 10.0)], RD_NEW);
    var outside := Polygon([Point(200.0, 200.0), Point(210.0, 200.0), Point(210.0, 210.0), Point(200.0, 210.0),
                            Point(200.0, 200.0)], RD_NEW);
    var indexed := tile.(theGeom := Some(MultiPolygon([GetPolygon(ds)], RD_NEW)));
    var found := GetAhnIndices([indexed], RectanglesMeet, polygon := Some(inside));
    assert found.Ok? && indexed in found.value;
    var missed := GetAhnIndices([indexed], RectanglesMeet, polygon := Some(outside));
    assert missed.Ok? && indexed !in missed.value;
  }
}
