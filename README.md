# lizard-raster tile handling, modelled in Dafny

This project models the tile-handling core of `lizard_raster`, the reusable
raster helpers of lizard-damage. AHN elevation tiles are stored as rows of a
PostGIS raster table. A Django model, `AhnIndex`, indexes them by sheet name
(`bladnr`) and footprint geometry. The model covers:

- **Footprint polygon** (`get_polygon`): the closed five-point ring around a
  dataset's extent, computed from its geotransform and size. It is tagged with
  SRID 28992 (Amersfoort / RD New).
- **Driver argument** (`get_postgisraster_argument`): the `PG:` connection
  string that opens one tile through GDAL's PostGIS raster driver. Host and
  port come from the database settings, with fallbacks for empty values.
- **Nodata lookup** (`get_postgisraster_nodatavalue`): the query text sent to
  the raster database, and the selection of `row[0][0]` from its answer.
- **Opening a tile** (`AhnIndex.get_ds`): the driver sets band-1 nodata to 0.
  When it does, the tile's stored nodata value is looked up and set on the
  band in place.
- **Tile selection** (`AhnIndex.get_ahn_indices`): the records whose stored
  geometry intersects an explicit polygon, or else the footprint of a dataset.

Files: `errors.dfy` (Option, Result and the raised exceptions), `strings.dfy`
(join and split), `geometry.dfy` (points, polygons, shoelace area), `gdal.dfy`
(geotransform and the dataset handle), `raster.dfy` (lizard_raster/raster.py)
and `models.dfy` (lizard_raster/models.py).

How the outside world is represented:

- Django's `settings.DATABASES` is a `map<string, DbConfig>` parameter. An
  unknown alias raises `KeyError`.
- `django.db.connections` is a `map<string, Database>` parameter. A `Database`
  is a function from query text to the rows `fetchall` returns. An unknown
  alias raises `ConnectionDoesNotExist`.
- `gdal.Open` is a `Driver`: a map from connection argument to the dataset it
  opens. An argument that is not in the map opens nothing (`None`).
- A dataset is a class. Its size and geotransform are constants. Its band-1
  nodata is a mutable `Option<real>` (`None` when the band has no nodata).
- The spatial `intersects` predicate of the ORM filter is an uninterpreted
  function parameter.

The port rule is reproduced as written. When `PORT` is non-empty, the
argument's port is the configured `HOST` (lizard_raster/raster.py:83).
`PortIsHost` and `ConfiguredPortIgnored` state this defect. Nothing in the
model corrects it.

In these points the model follows the code as written:

- The tile name and table name go into the argument and into the SQL text
  verbatim. Nothing is escaped.
- A failed nodata lookup raises. An unknown connection alias raises too.
- Without a polygon or a dataset, `get_ahn_indices` raises `AttributeError`
  on `None`.

## Model

| member | source | states |
|---|---|---|
| `Raster.GetPolygon` | lizard_raster/raster.py:34-50 | The ring has exactly 5 points and is closed (first point equals last). It is tagged SRID 28992. x1 is the x origin and y2 the y origin. The width x2-x1 is RasterXSize times the pixel width; the height y1-y2 is RasterYSize times the pixel height. The ring is the axis-aligned rectangle (x1,y1),(x2,y1),(x2,y2),(x1,y2),(x1,y1). |
| `Raster.FootprintCorners` | lizard_raster/raster.py:38-49 | If both rotation terms are zero, the four ring corners are GDAL's projected positions of pixel corners (0,h), (w,h), (w,0) and (0,0). |
| `Raster.FootprintOrdered` | lizard_raster/raster.py:39-42 | For positive pixel width, negative pixel height and positive sizes, x1 < x2 and y1 < y2. |
| `Raster.FootprintArea` | lizard_raster/raster.py:38-49 | The ring's shoelace area is the pixel count times the pixel area. For a north-up dataset it is positive, so the ring runs counter-clockwise. |
| `Raster.PixelCornerInFootprint` | lizard_raster/raster.py:38-42 | For an unrotated north-up dataset, every pixel corner lies within the ring's x and y bounds. |
| `Raster.GetPostgisRasterArgument` | lizard_raster/raster.py:53-93 | It fails exactly when the database alias is not in the settings, and then it raises KeyError for that alias. |
| `Raster.SubstituteJoin` | lizard_raster/raster.py:61-71 | Filling the placeholders of the whitespace-normalised template gives the filled words joined by single spaces. |
| `Raster.ArgumentLayout` | lizard_raster/raster.py:61-93 | The argument is exactly these nine words joined by single spaces: `PG:host=H`, `port=P`, `dbname='N'`, `user='U'`, `password='W'`, `schema='public'`, `table='T'`, `where='filename=\'F\''`, `mode=1`. H is `localhost` when HOST is empty, else HOST. P is `5432` when PORT is empty, else HOST. Table and tile name appear verbatim. |
| `Raster.ArgumentFrame` | lizard_raster/raster.py:61-71 | The argument starts with `PG:host=` and ends with `mode=1`. |
| `Raster.ArgumentSplits` | lizard_raster/raster.py:61-93 | When no substituted value holds a space, splitting the argument on single spaces gives back exactly the nine words. |
| `Raster.PortIsHost` | lizard_raster/raster.py:80-83 | For every configuration with a non-empty PORT, the argument is the nine-word layout with the configured HOST in the port slot, so its port word is `port=` followed by HOST. |
| `Raster.ConfiguredPortIgnored` | lizard_raster/raster.py:80-83 | For every configuration whose non-empty PORT differs from HOST, the argument differs from the one that would carry the configured PORT in the port slot. |
| `Raster.NodataQueryEmbeds` | lizard_raster/raster.py:105-114 | Filling the two-placeholder query template gives the fixed SQL fragments with the table name inserted verbatim after `FROM` and the tile name verbatim inside `filename='…'`; both can be read back at fixed offsets. |
| `Raster.GetPostgisRasterNodataValue` | lizard_raster/raster.py:96-117 | An unknown connection alias raises ConnectionDoesNotExist. Otherwise the result succeeds exactly when the rows for this query are non-empty and the first row is non-empty; it is then the first column of the first row. The failure in the other case is IndexError. |
| `Models.AhnIndex.Unicode` | lizard_raster/models.py:49-50 | A record is shown as its `bladnr`. |
| `Models.AhnIndex.GetDs` | lizard_raster/models.py:68-95 | The argument is built from `tablename` (default `data_ahn`) and the record's `bladnr`; a settings KeyError comes back with no query and no change. It returns the very dataset the driver opened for that argument, or None. No query is sent and nothing changes when the dataset is None or its band-1 nodata is not 0. When it is 0, exactly the nodata query for the same table and tile is sent, on a connection registry with the same aliases as the settings. The band's nodata then becomes the looked-up value, or the lookup's error is returned with the dataset unchanged. No other dataset changes. |
| `Models.Intersecting` | lizard_raster/models.py:103-105 | A record is in the result if and only if it is in the index and its stored geometry is present and intersects the footprint. Each matching record occurs exactly as often as in the index, and no other record occurs. The result is no longer than the index. |
| `Models.GetAhnIndices` | lizard_raster/models.py:99-106 | It fails, with AttributeError, exactly when neither a polygon nor a dataset is given. Otherwise the result holds exactly the records that intersect the footprint, each as often as the index holds it. The footprint is the given polygon, or else `GetPolygon(ds)`. |
| `Models.ExplicitPolygonWins` | lizard_raster/models.py:101-102 | With a polygon given, the result does not depend on the dataset argument, and the call succeeds. |
| `Models.DatasetFootprintUsed` | lizard_raster/models.py:101-102 | Without a polygon, the call equals the call with `GetPolygon(ds)` given as the polygon. |

## Left out

- `reproject` (lizard_raster/raster.py:10-31): a thin wrapper over GDAL's image reprojection. As written it uses `gdal`, `gdalconst` and `init_dataset`, which are never imported or defined in that file, so it has no behaviour to state.
- Driver registration (`gdal.GetDriverByName`, lizard_raster/models.py:77) has no effect on the result and is not modelled.
- The debug log line (lizard_raster/models.py:84) and the commented-out `extent_wgs84` (lizard_raster/models.py:52-66) are not modelled.
- Cursor creation, `execute` and `fetchall` (lizard_raster/raster.py:102-115) are not modelled as I/O. A connection is the function from query text to its rows.
- PostGIS intersection geometry is not modelled. `intersects` is an uninterpreted parameter.
- Django's lazy queryset and its database ordering are not modelled. `Intersecting` keeps index order, and callers may not rely on any order.
- Field declarations and `Meta` (lizard_raster/models.py:31-47) are schema only. The record is a datatype with these fields, and column widths are not enforced.
- Geotransform coefficients and nodata values are exact reals. IEEE rounding, NaN and signed zero are not modelled, and `== 0` is exact equality.
- A SQL NULL nodata value (a `None` cell from `ST_BandNoDataValue`) is not modelled: cells are reals.
- A dataset without a band 1 is not modelled. The dataset has exactly the band-1 nodata field.
- Settings values that are not strings, such as an integer `PORT`, are not modelled.
- Raster.GetPostgisRasterArgument: each settings entry is assumed to carry all five keys HOST, PORT, NAME, USER and PASSWORD. The KeyError the code raises for a missing one of them is not modelled, because an entry is a record.
- Errors raised by `execute` (lizard_raster/raster.py:105-114) are not modelled. A table or tile name holding `'` breaks the unescaped SQL, and a missing table fails; a `Database` is a total function and cannot raise.
- The `str(open_argument)` conversion (lizard_raster/models.py:82) is not modelled. Under Python 2 with `unicode_literals` it raises UnicodeEncodeError for non-ASCII settings, table or tile names.
- Models.AhnIndex.GetDs: requires the connection registry to know exactly the aliases of the settings, as Django builds one from the other. An alias present in one and missing in the other is not modelled.
- The raw template literal is modelled as its nine words. `split()` on that literal yields exactly these words; a general whitespace splitter is not modelled.
- Python's `%` formatting is modelled over a closed set of seven placeholders. The KeyError it could raise for a missing key cannot happen here: the dictionary always has all seven.
- Releasing native dataset handles is not modelled.
