/** Tile coordinates and the one question the canvas tiles ask of a tile
    grid: the pixel size of a tile at a zoom level. */
module Grid {
  import opened Wrappers

  /** A tile coordinate `[z, x, y]`. */
  datatype TileCoord = TileCoord(z: int, x: int, y: int)

  /** The error a grid raises when it has no tile size for a zoom level. */
  datatype GridError = NoTileSizeAt(z: int)

  /** A tile grid, reduced to its tile size per zoom level; `None` stands
      for a zoom level at which the grid throws. */
  datatype TileGrid = TileGrid(tileSizeAt: int -> Option<nat>)

  /** `tileGrid.getTileSize(z)`: the size, or the grid's error. */
  function GetTileSize(grid: TileGrid, z: int): (r: Result<nat, GridError>)
    ensures r.Success? <==> grid.tileSizeAt(z).Some?
    ensures r.Success? ==> r.value == grid.tileSizeAt(z).value
    ensures r.Failure? ==> r.error == NoTileSizeAt(z)
  {
    match grid.tileSizeAt(z)
    case Some(size) => Success(size)
    case None => Failure(NoTileSizeAt(z))
  }
}
