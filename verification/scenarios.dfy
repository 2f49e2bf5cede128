/** Concrete scenarios of the source: a grid of 256-pixel tiles that has no
    negative zoom levels, a draw procedure that fills every pixel with the
    marker `z * 1000 + x * 10 + y`, tile keys written `z/x/y`, and a
    container that never evicts. */
module Scenarios {
  import opened Wrappers
  import opened Dom
  import opened Grid
  import opened CanvasTile
  import opened TileHeap
  import opened TileCache
  import opened TileCanvas

  const Grid256: TileGrid := TileGrid(z => if z < 0 then None else Some(256))

  const MarkerPainter: Painter :=
    (c: Canvas, tc: TileCoord) => seq(c.width * c.height, _ => tc.z * 1000 + tc.x * 10 + tc.y)

  const KeepAll: Policy<TileRef> := Policy(_ => false, (_, _) => {})

  function DigitsOf(n: nat): string
    decreases n
  {
    var d := [('0' as int + n % 10) as char];
    if n < 10 then d else DigitsOf(n / 10) + d
  }

  function DecimalOf(n: int): string
  {
    if n < 0 then "-" + DigitsOf(-n) else DigitsOf(n)
  }

  /** The key of a coordinate, written `z/x/y`. */
  function ZxyKey(c: TileCoord): Key
  {
    DecimalOf(c.z) + "/" + DecimalOf(c.x) + "/" + DecimalOf(c.y)
  }

  function MarkerSource(): TileCanvas.Source
  {
    NewSource(Grid256, ZxyKey, MarkerPainter, KeepAll)
  }

  /** `getTile(3, 1, 2).getImage()` answers a 256 by 256 canvas whose
      pixels carry the marker 3012, after exactly one draw. */
  lemma MarkerTile()
    ensures var r := GetTile(MarkerSource(), EmptyHeap(), 3, 1, 2);
      && r.Success?
      && var (h, c) := TileHeap.GetImage(r.value.heap, r.value.tile, None);
      && c.width == 256 && c.height == 256
      && |c.pixels| == 256 * 256 && c.pixels[0] == 3012
      && |h.draws| == 1
  {
  }

  /** `getTile(0, 0, 0)` twice, rendering each time: the identical tile and
      canvas, and the draw count is still one. */
  lemma SameTileTwice(ctx: Option<RenderContext>)
    ensures var r1 := GetTile(MarkerSource(), EmptyHeap(), 0, 0, 0);
      && r1.Success?
      && var (h1, c1) := TileHeap.GetImage(r1.value.heap, r1.value.tile, ctx);
      && var r2 := GetTile(r1.value.source, h1, 0, 0, 0);
      && r2.Success? && r2.value.tile == r1.value.tile
      && var (h2, c2) := TileHeap.GetImage(r2.value.heap, r2.value.tile, ctx);
      && c2 == c1 && |h2.draws| == 1
  {
  }

  /** `getTile(-1, 0, 0)` on a grid without negative zoom levels: the grid's
      error propagates, and since nothing was inserted, asking again from
      any heap fails the same way. */
  lemma NegativeZoomFails()
    ensures GetTile(MarkerSource(), EmptyHeap(), -1, 0, 0) == Failure(NoTileSizeAt(-1))
    ensures forall h' :: GetTile(MarkerSource(), h', -1, 0, 0) == Failure(NoTileSizeAt(-1))
  {
  }
}
