/**
 * Tile helpers of `lizard_raster/raster.py`: the footprint polygon of a
 * dataset, the connection argument of the PostGIS raster driver, and the
 * lookup of a tile's nodata value in the raster database.
 */
module Raster {
  import opened Errors
  import opened Strings
  import opened Geometry
  import opened Gdal

  /** The database alias both driver argument and nodata lookup use by default. */
  const DEFAULT_DATABASE: string := "raster"

  // ---------------------------------------------------------------------
  // Footprint polygon
  // ---------------------------------------------------------------------

  /**
   * `get_polygon`: the closed five-point ring around a dataset's extent,
   * tagged with the Dutch national grid. The rotation terms of the
   * geotransform are not used.
   */
  function GetPolygon(ds: Dataset): (p: Polygon)
    ensures |p.shell| == 5 && p.shell[0] == p.shell[4]
    ensures p.srid == RD_NEW
    ensures p.shell[0].x == ds.geoTransform.originX && p.shell[2].y == ds.geoTransform.originY
    ensures p.shell[2].x - p.shell[0].x == ds.rasterXSize as real * ds.geoTransform.pixelWidth
    ensures p.shell[0].y - p.shell[2].y == ds.rasterYSize as real * ds.geoTransform.pixelHeight
    ensures p.shell[1] == Point(p.shell[2].x, p.shell[0].y)
    ensures p.shell[3] == Point(p.shell[0].x, p.shell[2].y)
  {
    var gs := ds.geoTransform;
    var x1 := gs.originX;
    var x2 := x1 + ds.rasterXSize as real * gs.pixelWidth;
    var y2 := gs.originY;
    var y1 := y2 + ds.rasterYSize as real * gs.pixelHeight;
    Polygon([Point(x1, y1), Point(x2, y1), Point(x2, y2), Point(x1, y2), Point(x1, y1)], RD_NEW)
  }

  /**
   * Without rotation the ring runs through the projected positions of the
   * four outer pixel corners: bottom-left, bottom-right, top-right, top-left.
   */
  lemma FootprintCorners(ds: Dataset)
    requires ds.geoTransform.rowRotation == 0.0 && ds.geoTransform.columnRotation == 0.0
    ensures var p, gt := GetPolygon(ds), ds.geoTransform;
      var w, h := ds.rasterXSize as real, ds.rasterYSize as real;
      && p.shell[0] == PixelToWorld(gt, 0.0, h)
      && p.shell[1] == PixelToWorld(gt, w, h)
      && p.shell[2] == PixelToWorld(gt, w, 0.0)
      && p.shell[3] == PixelToWorld(gt, 0.0, 0.0)
  {
  }

  /** A north-up dataset of positive size gets a non-degenerate ring: x1 < x2 and y1 < y2. */
  lemma FootprintOrdered(ds: Dataset)
    requires ds.geoTransform.pixelWidth > 0.0 && ds.geoTransform.pixelHeight < 0.0
    requires ds.rasterXSize > 0 && ds.rasterYSize > 0
    ensures var s := GetPolygon(ds).shell;
      s[0].x < s[1].x && s[0].y < s[3].y
  {
  }

  /**
   * The ring encloses the pixel count times the pixel area; for a north-up
   * dataset the signed area is positive, so the ring runs counter-clockwise.
   */
  lemma {:induction false} FootprintArea(ds: Dataset)
    ensures var gt := ds.geoTransform;
      TwiceSignedArea(GetPolygon(ds).shell)
        == 2.0 * (ds.rasterXSize * ds.rasterYSize) as real * (gt.pixelWidth * -gt.pixelHeight)
    ensures ds.geoTransform.pixelWidth > 0.0 && ds.geoTransform.pixelHeight < 0.0
            && ds.rasterXSize > 0 && ds.rasterYSize > 0
            ==> TwiceSignedArea(GetPolygon(ds).shell) > 0.0
  {
    var s := GetPolygon(ds).shell;
    var gt := ds.geoTransform;
    var w, h := ds.rasterXSize as real, ds.rasterYSize as real;
    var x1, y1, x2, y2 := s[0].x, s[0].y, s[2].x, s[2].y;
    assert TwiceSignedArea(s[4..]) == 0.0;
    assert TwiceSignedArea(s[3..]) == Cross(s[3], s[4]) + TwiceSignedArea(s[4..]);
    assert TwiceSignedArea(s[2..]) == Cross(s[2], s[3]) + TwiceSignedArea(s[3..]);
    assert TwiceSignedArea(s[1..]) == Cross(s[1], s[2]) + TwiceSignedArea(s[2..]);
    assert TwiceSignedArea(s) == Cross(s[0], s[1]) + TwiceSignedArea(s[1..]);
    assert TwiceSignedArea(s) == 2.0 * (x2 - x1) * (y2 - y1);
    assert (x2 - x1) * (y2 - y1) == (w * gt.pixelWidth) * -(h * gt.pixelHeight);
    assert (w * gt.pixelWidth) * -(h * gt.pixelHeight) == (w * h) * (gt.pixelWidth * -gt.pixelHeight);
    assert (ds.rasterXSize * ds.rasterYSize) as real == w * h;
    if gt.pixelWidth > 0.0 && gt.pixelHeight < 0.0 && w > 0.0 && h > 0.0 {
      assert w * h > 0.0;
      assert gt.pixelWidth * -gt.pixelHeight > 0.0;
    }
  }

  /** Every pixel corner of a north-up, unrotated dataset lies inside its footprint's bounds. */
  lemma PixelCornerInFootprint(ds: Dataset, col: nat, row: nat)
    requires ds.geoTransform.rowRotation == 0.0 && ds.geoTransform.columnRotation == 0.0
    requires ds.geoTransform.pixelWidth > 0.0 && ds.geoTransform.pixelHeight < 0.0
    requires col <= ds.rasterXSize && row <= ds.rasterYSize
    ensures var s, q := GetPolygon(ds).shell, PixelToWorld(ds.geoTransform, col as real, row as real);
      s[0].x <= q.x <= s[2].x && s[0].y <= q.y <= s[2].y
  {
    var gt := ds.geoTransform;
    var w, h := ds.rasterXSize as real, ds.rasterYSize as real;
    assert (w - col as real) * gt.pixelWidth >= 0.0;
    assert (h - row as real) * gt.pixelHeight <= 0.0;
    assert col as real * gt.pixelWidth >= 0.0;
    assert row as real * gt.pixelHeight <= 0.0;
  }

  // ---------------------------------------------------------------------
  // PostGIS raster driver argument
  // ---------------------------------------------------------------------

  /** One entry of the database settings. */
  datatype DbConfig = DbConfig(host: string, port: string, name: string, user: string, password: string)

  /** The named placeholders of the argument template. */
  datatype Slot = Host | Port | DbName | User | Password | Table | FileName

  /** A piece of a template: literal text or a `%(name)s` placeholder. */
  datatype Piece = Lit(text: string) | Hole(slot: Slot)

  /** The values substituted for the placeholders. */
  datatype Bindings = Bindings(
    host: string, port: string, dbname: string, user: string,
    password: string, table: string, filename: string)
  {
    function Get(s: Slot): string
    {
      match s
      case Host => host
      case Port => port
      case DbName => dbname
      case User => user
      case Password => password
      case Table => table
      case FileName => filename
    }
  }

  /** `template % values`: every placeholder replaced by its value, literal text kept. */
  function Substitute(t: seq<Piece>, b: Bindings): (s: string)
  {
    if |t| == 0 then ""
    else (match t[0] case Lit(s) => s case Hole(k) => b.Get(k)) + Substitute(t[1..], b)
  }

  /** The words of the argument template, each line of the template literal stripped of its indentation. */
  const TEMPLATE_WORDS: seq<seq<Piece>> := [
    [Lit("PG:host="), Hole(Host)],
    [Lit("port="), Hole(Port)],
    [Lit("dbname='"), Hole(DbName), Lit("'")],
    [Lit("user='"), Hole(User), Lit("'")],
    [Lit("password='"), Hole(Password), Lit("'")],
    [Lit("schema='public'")],
    [Lit("table='"), Hole(Table), Lit("'")],
    [Lit("where='filename=\\'"), Hole(FileName), Lit("\\''")],
    [Lit("mode=1")]
  ]

  /** The whitespace-normalised template: its words joined by single spaces. */
  function Template(): (t: seq<Piece>)
  {
    Join(TEMPLATE_WORDS, [Lit(" ")])
  }

  /**
   * `get_postgisraster_argument`: the PostGIS raster connection string for
   * one tile. An empty host falls back to `localhost`; an empty port falls
   * back to `5432`, while a non-empty port is replaced by the host (the code
   * assigns `HOST` to the port). Fails with `KeyError` for an unknown alias.
   */
  function GetPostgisRasterArgument(databases: map<string, DbConfig>, tablename: string,
                                    tilename: string, dbname: string := DEFAULT_DATABASE): (r: Result<string>)
    ensures r.Err? <==> dbname !in databases
    ensures r.Err? ==> r.error == KeyError(dbname)
  {
    if dbname !in databases then Err(KeyError(dbname))
    else
      var db := databases[dbname];
      Ok(Substitute(Template(), Bindings(ArgumentHost(db), ArgumentPort(db), db.name, db.user, db.password,
                                         tablename, tilename)))
  }

  /** The nine words of the argument, as the template lays them out. */
  function ArgumentWords(host: string, port: string, name: string, user: string,
                         password: string, table: string, filename: string): (words: seq<string>)
  {
    [ "PG:host=" + host,
      "port=" + port,
      "dbname='" + name + "'",
      "user='" + user + "'",
      "password='" + password + "'",
      "schema='public'",
      "table='" + table + "'",
      "where='filename=\\'" + filename + "\\''",
      "mode=1" ]
  }

  /** The host the argument names: the configured one, or `localhost` when it is empty. */
  function ArgumentHost(db: DbConfig): (host: string)
  {
    if db.host == "" then "localhost" else db.host
  }

  /** The port the argument names: `5432` when the configured port is empty, else the configured HOST. */
  function ArgumentPort(db: DbConfig): (port: string)
  {
    if db.port == "" then "5432" else db.host
  }

  lemma {:induction false} SubstituteAppend(t: seq<Piece>, u: seq<Piece>, b: Bindings)
    ensures Substitute(t + u, b) == Substitute(t, b) + Substitute(u, b)
  {
    if |t| > 0 {
      assert (t + u)[1..] == t[1..] + u;
      SubstituteAppend(t[1..], u, b);
    } else {
      assert t + u == u;
    }
  }

  /** Substitution distributes over the words of a template joined by literal spaces. */
  lemma {:induction false} SubstituteJoin(words: seq<seq<Piece>>, b: Bindings)
    ensures Substitute(Join(words, [Lit(" ")]), b)
            == Join(seq(|words|, i requires 0 <= i < |words| => Substitute(words[i], b)), " ")
  {
    var filled := seq(|words|, i requires 0 <= i < |words| => Substitute(words[i], b));
    if |words| > 1 {
      SubstituteAppend(words[0] + [Lit(" ")], Join(words[1..], [Lit(" ")]), b);
      SubstituteAppend(words[0], [Lit(" ")], b);
      SubstituteJoin(words[1..], b);
      assert filled[1..] == seq(|words[1..]|, i requires 0 <= i < |words[1..]| => Substitute(words[1..][i], b));
    }
  }

  lemma SubstituteLit(a: string, b: Bindings)
    ensures Substitute([Lit(a)], b) == a
  {
  }

  lemma SubstituteLitHole(a: string, k: Slot, b: Bindings)
    ensures Substitute([Lit(a), Hole(k)], b) == a + b.Get(k)
  {
    assert [Lit(a), Hole(k)][1..] == [Hole(k)];
    assert [Hole(k)][1..] == [];
    assert Substitute([Hole(k)], b) == b.Get(k) + "";
    assert b.Get(k) + "" == b.Get(k);
  }

  lemma SubstituteLitHoleLit(a: string, k: Slot, c: string, b: Bindings)
    ensures Substitute([Lit(a), Hole(k), Lit(c)], b) == a + b.Get(k) + c
  {
    assert [Lit(a), Hole(k), Lit(c)][1..] == [Hole(k), Lit(c)];
    assert [Hole(k), Lit(c)][1..] == [Lit(c)];
    SubstituteLit(c, b);
  }

  /** The argument is exactly the nine template words, host and port resolved, joined by single spaces. */
  lemma ArgumentLayout(databases: map<string, DbConfig>, tablename: string, tilename: string, dbname: string)
    requires dbname in databases
    ensures var db := databases[dbname];
      GetPostgisRasterArgument(databases, tablename, tilename, dbname)
        == Ok(Join(ArgumentWords(ArgumentHost(db), ArgumentPort(db), db.name, db.user, db.password,
                                 tablename, tilename), " "))
  {
    var db := databases[dbname];
    var b := Bindings(ArgumentHost(db), ArgumentPort(db), db.name, db.user, db.password, tablename, tilename);
    SubstituteJoin(TEMPLATE_WORDS, b);
    var filled := seq(|TEMPLATE_WORDS|, i requires 0 <= i < |TEMPLATE_WORDS| => Substitute(TEMPLATE_WORDS[i], b));
    var ws := ArgumentWords(b.host, b.port, b.dbname, b.user, b.password, b.table, b.filename);
    SubstituteLitHole("PG:host=", Host, b);
    SubstituteLitHole("port=", Port, b);
    SubstituteLitHoleLit("dbname='", DbName, "'", b);
    SubstituteLitHoleLit("user='", User, "'", b);
    SubstituteLitHoleLit("password='", Password, "'", b);
    SubstituteLit("schema='public'", b);
    SubstituteLitHoleLit("table='", Table, "'", b);
    SubstituteLitHoleLit("where='filename=\\'", FileName, "\\''", b);
    SubstituteLit("mode=1", b);
    assert filled[0] == ws[0];
    assert filled[1] == ws[1];
    assert filled[2] == ws[2];
    assert filled[3] == ws[3];
    assert filled[4] == ws[4];
    assert filled[5] == ws[5];
    assert filled[6] == ws[6];
    assert filled[7] == ws[7];
    assert filled[8] == ws[8];
    assert filled == ws;
    assert Template() == Join(TEMPLATE_WORDS, [Lit(" ")]);
  }

  /** The argument starts with `PG:host=` and ends with `mode=1`. */
  lemma ArgumentFrame(databases: map<string, DbConfig>, tablename: string, tilename: string, dbname: string)
    requires dbname in databases
    ensures var r := GetPostgisRasterArgument(databases, tablename, tilename, dbname);
      r.Ok? && |r.value| >= 14 && r.value[..8] == "PG:host=" && r.value[|r.value| - 6..] == "mode=1"
  {
    var db := databases[dbname];
    var ws := ArgumentWords(ArgumentHost(db), ArgumentPort(db), db.name, db.user, db.password, tablename, tilename);
    ArgumentLayout(databases, tablename, tilename, dbname);
    JoinStartsWith(ws, " ");
    JoinEndsWith(ws, " ");
    var j := Join(ws, " ");
    assert j[..8] == j[..|ws[0]|][..8];
    assert |j| >= |ws[0]| + 6 by {
      assert j == ws[0] + " " + Join(ws[1..], " ");
      JoinEndsWith(ws[1..], " ");
      assert ws[1..][|ws[1..]| - 1] == ws[8];
    }
  }

  /** No value holds a space. */
  predicate SpaceFree(ss: seq<string>)
  {
    forall s <- ss :: ' ' !in s
  }

  /** The nine words hold no space when the substituted values hold none. */
  lemma ArgumentWordsSpaceFree(host: string, port: string, name: string, user: string,
                               password: string, table: string, filename: string)
    requires ' ' !in host && ' ' !in port && ' ' !in name && ' ' !in user
    requires ' ' !in password && ' ' !in table && ' ' !in filename
    ensures forall w <- ArgumentWords(host, port, name, user, password, table, filename) :: ' ' !in w
  {
    var ws := ArgumentWords(host, port, name, user, password, table, filename);
    assert ' ' !in ws[0] && ' ' !in ws[1] && ' ' !in ws[2];
    assert ' ' !in ws[3] && ' ' !in ws[4] && ' ' !in ws[5];
    assert ' ' !in ws[6] && ' ' !in ws[7] && ' ' !in ws[8];
  }

  /** The resolved host and port hold no space when the configured host holds none. */
  lemma ResolvedSpaceFree(db: DbConfig)
    requires ' ' !in db.host
    ensures ' ' !in ArgumentHost(db) && ' ' !in ArgumentPort(db)
  {
    assert ' ' !in "localhost";
    assert ' ' !in "5432";
  }

  /**
   * The argument is single-space separated: when no configured value, table or
   * tile name holds a space, splitting it on spaces gives back the nine words.
   */
  lemma ArgumentSplits(databases: map<string, DbConfig>, tablename: string, tilename: string, dbname: string)
    requires dbname in databases
    requires var db := databases[dbname];
      SpaceFree([db.host, db.name, db.user, db.password, tablename, tilename])
    ensures var db := databases[dbname];
      var r := GetPostgisRasterArgument(databases, tablename, tilename, dbname);
      r.Ok? && Split(r.value, ' ')
        == ArgumentWords(ArgumentHost(db), ArgumentPort(db), db.name, db.user, db.password, tablename, tilename)
  {
    var db := databases[dbname];
    var vs := [db.host, db.name, db.user, db.password, tablename, tilename];
    assert vs[0] in vs && vs[1] in vs && vs[2] in vs && vs[3] in vs && vs[4] in vs && vs[5] in vs;
    ResolvedSpaceFree(db);
    var ws := ArgumentWords(ArgumentHost(db), ArgumentPort(db), db.name, db.user, db.password, tablename, tilename);
    ArgumentWordsSpaceFree(ArgumentHost(db), ArgumentPort(db), db.name, db.user, db.password, tablename, tilename);
    ArgumentLayout(databases, tablename, tilename, dbname);
    SplitJoin(ws, ' ');
  }

  /**
   * The port rule as written: once a port is configured, the port word of the
   * argument carries the configured HOST, whatever the port says.
   */
  lemma PortIsHost(databases: map<string, DbConfig>, tablename: string, tilename: string, dbname: string)
    requires dbname in databases && databases[dbname].port != ""
    ensures var db := databases[dbname];
      GetPostgisRasterArgument(databases, tablename, tilename, dbname)
        == Ok(Join(ArgumentWords(ArgumentHost(db), db.host, db.name, db.user, db.password,
                                 tablename, tilename), " "))
  {
    ArgumentLayout(databases, tablename, tilename, dbname);
  }

  /** Two joins of words that agree except in the second word are equal only if that word is too. */
  lemma {:induction false} JoinSecondWord(ws: seq<string>, vs: seq<string>)
    requires |ws| == |vs| >= 2 && ws[0] == vs[0] && ws[2..] == vs[2..]
    ensures Join(ws, " ") == Join(vs, " ") ==> ws[1] == vs[1]
  {
    if Join(ws, " ") == Join(vs, " ") {
      var head := ws[0] + " ";
      var jw, jv := Join(ws[1..], " "), Join(vs[1..], " ");
      assert Join(ws, " ") == head + jw;
      assert Join(vs, " ") == head + jv;
      assert jw == (head + jw)[|head|..];
      assert jv == (head + jv)[|head|..];
      if |ws| == 2 {
        assert jw == ws[1] && jv == vs[1];
      } else {
        var tail := " " + Join(ws[2..], " ");
        assert ws[1..][1..] == ws[2..] && vs[1..][1..] == vs[2..];
        assert jw == ws[1] + tail;
        assert jv == vs[1] + tail;
        assert |ws[1]| == |vs[1]|;
        assert ws[1] == jw[..|ws[1]|];
        assert vs[1] == jv[..|vs[1]|];
      }
    }
  }

  /**
   * The configured port never reaches the argument unless it equals the host:
   * the argument differs from the one the configured port would give.
   */
  lemma ConfiguredPortIgnored(databases: map<string, DbConfig>, tablename: string, tilename: string, dbname: string)
    requires dbname in databases && databases[dbname].port != ""
    requires databases[dbname].host != databases[dbname].port
    ensures var db := databases[dbname];
      var r := GetPostgisRasterArgument(databases, tablename, tilename, dbname);
      r.Ok? && r.value != Join(ArgumentWords(ArgumentHost(db), db.port, db.name, db.user, db.password,
                                             tablename, tilename), " ")
  {
    var db := databases[dbname];
    var ws := ArgumentWords(ArgumentHost(db), db.host, db.name, db.user, db.password, tablename, tilename);
    var vs := ArgumentWords(ArgumentHost(db), db.port, db.name, db.user, db.password, tablename, tilename);
    PortIsHost(databases, tablename, tilename, dbname);
    assert ws[1] != vs[1] by {
      assert ws[1][5..] == db.host && vs[1][5..] == db.port;
    }
    JoinSecondWord(ws, vs);
  }

  // ---------------------------------------------------------------------
  // Nodata lookup
  // ---------------------------------------------------------------------

  /** A database connection, seen as the rows `fetchall` returns for each query text. */
  type Database = string -> seq<seq<real>>

  const QUERY_HEAD: string := "\n        SELECT\n            ST_BandNoDataValue(rast)\n        FROM\n            "
  const QUERY_MIDDLE: string := "\n        WHERE\n            filename='"
  const QUERY_TAIL: string := "'\n        "

  /** The query template: its two placeholders are the table and the tile's filename. */
  const QUERY_TEMPLATE: seq<Piece> := [Lit(QUERY_HEAD), Hole(Table), Lit(QUERY_MIDDLE), Hole(FileName), Lit(QUERY_TAIL)]

  /** The query text that asks the tile's table for the band nodata value of the tile. */
  function NodataQuery(tablename: string, tilename: string): (q: string)
  {
    Substitute(QUERY_TEMPLATE, Bindings("", "", "", "", "", tablename, tilename))
  }

  /**
   * The query embeds table and tile name verbatim, in the FROM clause and the
   * filename filter, between the fixed fragments of the SQL text.
   */
  lemma NodataQueryEmbeds(tablename: string, tilename: string)
    ensures var q, m := NodataQuery(tablename, tilename), |QUERY_HEAD| + |tablename|;
      && q == QUERY_HEAD + tablename + QUERY_MIDDLE + tilename + QUERY_TAIL
      && q[|QUERY_HEAD|..m] == tablename
      && q[m + |QUERY_MIDDLE|..m + |QUERY_MIDDLE| + |tilename|] == tilename
  {
    var b := Bindings("", "", "", "", "", tablename, tilename);
    SubstituteAppend([Lit(QUERY_HEAD), Hole(Table)], [Lit(QUERY_MIDDLE), Hole(FileName), Lit(QUERY_TAIL)], b);
    assert QUERY_TEMPLATE == [Lit(QUERY_HEAD), Hole(Table)] + [Lit(QUERY_MIDDLE), Hole(FileName), Lit(QUERY_TAIL)];
    SubstituteLitHole(QUERY_HEAD, Table, b);
    SubstituteLitHoleLit(QUERY_MIDDLE, FileName, QUERY_TAIL, b);
    var q := NodataQuery(tablename, tilename);
    assert q == QUERY_HEAD + (tablename + (QUERY_MIDDLE + (tilename + QUERY_TAIL)));
  }

  /**
   * `get_postgisraster_nodatavalue`: the first column of the first row the
   * query returns. Fails when the alias is unknown, when no row comes back,
   * or when the first row is empty.
   */
  function GetPostgisRasterNodataValue(connections: map<string, Database>, tablename: string,
                                       tilename: string, dbname: string := DEFAULT_DATABASE): (r: Result<real>)
    ensures dbname !in connections ==> r == Err(ConnectionDoesNotExist(dbname))
    ensures dbname in connections ==>
      var rows := connections[dbname](NodataQuery(tablename, tilename));
      && (r.Ok? <==> |rows| > 0 && |rows[0]| > 0)
      && (r.Ok? ==> r.value == rows[0][0])
      && (r.Err? ==> r.error == IndexError)
  {
    if dbname !in connections then Err(ConnectionDoesNotExist(dbname))
    else
      var row := connections[dbname](NodataQuery(tablename, tilename));
      if |row| == 0 || |row[0]| == 0 then Err(IndexError) else Ok(row[0][0])
  }
}
