/** `ol.source.TileCanvas`: a tile source that draws its tiles itself. It
    maps `(z, x, y)` to canvas tiles through a keyed container, creating a
    tile on first request and returning that same tile object until the
    container evicts it, and forwards cache expiry to the container. */
module TileCanvas {
  import opened Wrappers
  import opened Grid
  import opened CanvasTile
  import opened TileHeap
  import opened TileCache

  datatype Source = Source(
    tileGrid: TileGrid,
    keyZXY: TileCoord -> Key,
    tileCache: Cache<TileRef>,
    canvasFunction: Painter)

  /** The outcome of a successful `getTile`: the source and heap afterwards
      and the tile returned. */
  datatype TileStep = TileStep(source: Source, heap: Heap, tile: TileRef)

  /** The tile-coordinate key function names each coordinate by its own key. */
  ghost predicate KeyInjective(keyZXY: TileCoord -> Key)
  {
    forall a, b :: keyZXY(a) == keyZXY(b) ==> a == b
  }

  /** The source agrees with the heap: its key function is injective, and
      every cached entry is a live tile whose coordinate has that key. */
  ghost predicate Valid(s: Source, h: Heap)
  {
    && KeyInjective(s.keyZXY)
    && forall k :: k in s.tileCache.entries ==>
         s.tileCache.entries[k] < |h.tiles|
         && s.keyZXY(h.tiles[s.tileCache.entries[k]].coord) == k
  }

  /** The source after differs at most in its cache's entries, which only grow. */
  ghost predicate CacheGrows(s: Source, s': Source)
  {
    && s'.tileGrid == s.tileGrid && s'.keyZXY == s.keyZXY
    && s'.canvasFunction == s.canvasFunction && s'.tileCache.policy == s.tileCache.policy
    && Extends(s.tileCache.entries, s'.tileCache.entries)
  }

  /** The constructor: the source keeps the grid and the draw procedure and
      starts with an empty container of its own. */
  function NewSource(tileGrid: TileGrid, keyZXY: TileCoord -> Key, canvasFunction: Painter,
                     policy: Policy<TileRef>): (s: Source)
    ensures s.tileCache.entries == map[] && s.tileCache.policy == policy
    ensures s.tileGrid == tileGrid && s.keyZXY == keyZXY && s.canvasFunction == canvasFunction
    ensures forall h :: KeyInjective(keyZXY) ==> Valid(s, h)
  {
    Source(tileGrid, keyZXY, NewCache(policy), canvasFunction)
  }

  /** `getTile(z, x, y)`. A cached key answers its tile and changes nothing.
      Otherwise a new tile for `[z, x, y]` is allocated, inserted under the
      key and returned; if the grid cannot size it, the grid's error
      propagates and nothing is allocated or inserted. */
  function GetTile(s: Source, h: Heap, z: int, x: int, y: int): (r: Result<TileStep, GridError>)
    ensures var key := s.keyZXY(TileCoord(z, x, y));
      key in s.tileCache.entries ==> r == Success(TileStep(s, h, s.tileCache.entries[key]))
    ensures var key := s.keyZXY(TileCoord(z, x, y));
      r.Failure? <==> key !in s.tileCache.entries && s.tileGrid.tileSizeAt(z).None?
    ensures r.Failure? ==> r.error == NoTileSizeAt(z)
    ensures var key := s.keyZXY(TileCoord(z, x, y));
      key !in s.tileCache.entries && r.Success? ==>
      var t := r.value.tile;
      && t == |h.tiles|
      && r.value.heap.tiles == h.tiles + [Tile(TileCoord(z, x, y), Loaded,
                                             s.tileGrid.tileSizeAt(z).value, map[], s.canvasFunction)]
      && r.value.heap.doc == h.doc && r.value.heap.draws == h.draws
      && r.value.source.tileCache.entries == s.tileCache.entries[key := t]
      && CacheGrows(s, r.value.source)
  {
    var coord := TileCoord(z, x, y);
    var key := s.keyZXY(coord);
    if ContainsKey(s.tileCache, key) then
      Success(TileStep(s, h, Get(s.tileCache, key)))
    else
      match NewTile(coord, s.tileGrid, s.canvasFunction)
      case Failure(e) => Failure(e)
      case Success(tile) =>
        var (h', ref) := Alloc(h, tile);
        Success(TileStep(s.(tileCache := Set(s.tileCache, key, ref)), h', ref))
  }

  /** On a consistent source, `getTile(z, x, y)` answers a live tile whose
      coordinate is `[z, x, y]`, cached under that coordinate's key; the
      source stays consistent and both the container and the heap only grow. */
  lemma GetTileAnswersItsCoordinate(s: Source, h: Heap, z: int, x: int, y: int)
    requires Valid(s, h)
    requires GetTile(s, h, z, x, y).Success?
    ensures var st := GetTile(s, h, z, x, y).value;
      && st.tile < |st.heap.tiles|
      && st.heap.tiles[st.tile].coord == TileCoord(z, x, y)
      && st.source.tileCache.entries[s.keyZXY(TileCoord(z, x, y))] == st.tile
      && Valid(st.source, st.heap)
      && CacheGrows(s, st.source)
      && TilesGrow(h, st.heap)
  {
    var coord := TileCoord(z, x, y);
    var key := s.keyZXY(coord);
    var st := GetTile(s, h, z, x, y).value;
    if key in s.tileCache.entries {
      assert s.keyZXY(h.tiles[st.tile].coord) == key;
    } else {
      assert forall r :: 0 <= r < |h.tiles| ==> st.heap.tiles[r] == h.tiles[r];
      forall k | k in st.source.tileCache.entries
        ensures st.source.tileCache.entries[k] < |st.heap.tiles|
        ensures s.keyZXY(st.heap.tiles[st.source.tileCache.entries[k]].coord) == k
      {
        if k != key {
          assert k in s.tileCache.entries;
        }
      }
    }
  }

  /** `getTile` keeps the heap consistent: a tile it allocates has nothing
      rendered yet. */
  lemma GetTileKeepsHeapValid(s: Source, h: Heap, z: int, x: int, y: int)
    requires TileHeap.Valid(h)
    requires GetTile(s, h, z, x, y).Success?
    ensures TileHeap.Valid(GetTile(s, h, z, x, y).value.heap)
  {
    if s.keyZXY(TileCoord(z, x, y)) !in s.tileCache.entries {
      AllocPreservesValid(h, Tile(TileCoord(z, x, y), Loaded, s.tileGrid.tileSizeAt(z).value, map[], s.canvasFunction));
    }
  }

  /** A second `getTile` with the same arguments returns the identical tile
      and leaves the source and the heap exactly as the first left them. */
  lemma GetTileTwice(s: Source, h: Heap, z: int, x: int, y: int)
    requires GetTile(s, h, z, x, y).Success?
    ensures var st := GetTile(s, h, z, x, y).value;
      GetTile(st.source, st.heap, z, x, y) == Success(st)
  {
  }

  /** A grid error can only surface on a miss, and then no tile was
      inserted: asking again fails the same way. */
  lemma GetTileFailureInsertsNothing(s: Source, h: Heap, z: int, x: int, y: int)
    requires GetTile(s, h, z, x, y).Failure?
    ensures s.keyZXY(TileCoord(z, x, y)) !in s.tileCache.entries
    ensures forall h' :: GetTile(s, h', z, x, y) == Failure(NoTileSizeAt(z))
  {
  }

  /** At most one cached tile per coordinate, and one key per cached tile. */
  lemma OneTilePerCoordinate(s: Source, h: Heap, k1: Key, k2: Key)
    requires Valid(s, h)
    requires k1 in s.tileCache.entries && k2 in s.tileCache.entries
    requires s.tileCache.entries[k1] == s.tileCache.entries[k2]
          || h.tiles[s.tileCache.entries[k1]].coord == h.tiles[s.tileCache.entries[k2]].coord
    ensures k1 == k2
  {
  }

  /** Rendering through a tile keeps the source consistent with the heap:
      `getImage` never moves a tile to another coordinate. */
  lemma GetImagePreservesValid(s: Source, h: Heap, ref: TileRef, ctx: Option<RenderContext>)
    requires Valid(s, h) && ref < |h.tiles|
    ensures Valid(s, TileHeap.GetImage(h, ref, ctx).0)
  {
    var h' := TileHeap.GetImage(h, ref, ctx).0;
    forall k | k in s.tileCache.entries
      ensures s.keyZXY(h'.tiles[s.tileCache.entries[k]].coord) == k
    {
      assert SameTileBut(h.tiles[s.tileCache.entries[k]], h'.tiles[s.tileCache.entries[k]]);
    }
  }

  /** Render-once through the source: fetching a tile and rendering it, then
      fetching the same coordinate again and rendering it with the same
      context, yields the identical tile and the identical canvas, with at
      most one draw in total. */
  lemma RenderOnceThroughSource(s: Source, h: Heap, z: int, x: int, y: int, ctx: Option<RenderContext>)
    requires Valid(s, h)
    requires GetTile(s, h, z, x, y).Success?
    ensures var st1 := GetTile(s, h, z, x, y).value;
      var (h1, c1) := TileHeap.GetImage(st1.heap, st1.tile, ctx);
      var r2 := GetTile(st1.source, h1, z, x, y);
      && r2.Success? && r2.value.tile == st1.tile && r2.value.heap == h1
      && var (h2, c2) := TileHeap.GetImage(h1, st1.tile, ctx);
      && c2 == c1 && h2 == h1
      && |h2.draws| <= |h.draws| + 1
  {
    var st1 := GetTile(s, h, z, x, y).value;
    GetTileAnswersItsCoordinate(s, h, z, x, y);
  }

  /** `canExpireCache()`: the container's answer, unchanged. */
  function CanExpireCache(s: Source): (b: bool)
    ensures b == TileCache.CanExpireCache(s.tileCache)
  {
    TileCache.CanExpireCache(s.tileCache)
  }

  /** `expireCache(usedTiles)`: the container expires with the same argument;
      nothing else in the source changes. */
  function ExpireCache(s: Source, usedTiles: set<Key>): (s': Source)
    ensures s'.tileCache == TileCache.ExpireCache(s.tileCache, usedTiles)
    ensures s'.tileGrid == s.tileGrid && s'.keyZXY == s.keyZXY && s'.canvasFunction == s.canvasFunction
  {
    s.(tileCache := TileCache.ExpireCache(s.tileCache, usedTiles))
  }

  /** Expiry only forgets entries, so the source stays consistent with the
      heap, and every entry that survives still names the same tile. */
  lemma ExpireCachePreservesValid(s: Source, h: Heap, usedTiles: set<Key>)
    requires Valid(s, h)
    ensures var s' := ExpireCache(s, usedTiles);
      Valid(s', h) && Extends(s'.tileCache.entries, s.tileCache.entries)
  {
  }
}
