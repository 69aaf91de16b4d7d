/** The part of a raster dataset handle that the tile code reads and writes. */
module Gdal {
  import opened Errors
  import opened Geometry

  /**
   * The six affine coefficients of a dataset, in the order of
   * `GetGeoTransform()`: x origin, pixel width, row rotation,
   * y origin, column rotation, pixel height.
   */
  datatype GeoTransform = GeoTransform(
    originX: real, pixelWidth: real, rowRotation: real,
    originY: real, columnRotation: real, pixelHeight: real)

  /** The projected coordinates of pixel position (col, row) under a geotransform. */
  function PixelToWorld(gt: GeoTransform, col: real, row: real): (p: Point)
  {
    Point(gt.originX + col * gt.pixelWidth + row * gt.rowRotation,
          gt.originY + col * gt.columnRotation + row * gt.pixelHeight)
  }

  /**
   * An opened dataset. Its size and geotransform are fixed once opened;
   * the nodata value of band 1 can be changed in place (`SetNoDataValue`)
   * and is `None` when the band has none.
   */
  class Dataset {
    const rasterXSize: nat
    const rasterYSize: nat
    const geoTransform: GeoTransform
    var nodata: Option<real>

    constructor (xSize: nat, ySize: nat, gt: GeoTransform, bandNodata: Option<real>)
      ensures rasterXSize == xSize && rasterYSize == ySize
      ensures geoTransform == gt && nodata == bandNodata
    {
      rasterXSize, rasterYSize, geoTransform := xSize, ySize, gt;
      nodata := bandNodata;
    }
  }
}
