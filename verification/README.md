# Canvas tile source — a Dafny model

This project models `ol.source.TileCanvas` and its private tile class
`ol.CanvasTile_` from OpenLayers 3 (`src/ol/source/tilecanvassource.js`). The source does not fetch
tiles. It draws each tile with a user-supplied `canvasFunction`. Caching
happens at two levels:

- **`ol.CanvasTile_`** is always `LOADED`. It keeps one rendered canvas
  per rendering context, keyed by the context's uid, or by `-1` when
  `getImage` is called without a context. The draw procedure runs only on
  a cache miss, onto a fresh `tileSize` × `tileSize` canvas, and the
  canvas is then stored and handed back on every later call.
- **`ol.source.TileCanvas`** maps `(z, x, y)` to tile objects through a
  keyed container (`ol.TileCache`). It creates a tile on the first
  request and returns that same object until the container evicts it;
  a request after eviction builds, and later renders, a new tile. `canExpireCache` and
  `expireCache` are passed straight to the container.

The JavaScript objects are shared by reference, so the model gives them
explicit identities:

- Tiles live in a heap (`TileHeap.Heap`) and are named by their index
  (`TileRef`). "The same tile" means the same reference.
- Canvases carry an `id` taken from the document's creation counter
  (`Dom.Document`). "The same canvas" means the same id.
- The heap also records every invocation of the draw procedure
  (`DrawCall`). Draw counts are stated over that trace.

Modules:

- `Wrappers`: `Option` and `Result`.
- `Dom`: canvases and their creation.
- `Grid`: tile coordinates, and the grid's tile size per zoom level.
- `CanvasTile`: `ol.CanvasTile_`.
- `TileHeap`: tile objects, the draw trace, and the consistency invariant
  over both.
- `TileCache`: the container interface the source uses.
- `TileCanvas`: `ol.source.TileCanvas`.
- `Scenarios`: concrete scenarios with a 256-pixel grid and a marker-filling
  draw procedure.

Collaborators the model cannot see are turned into parameters:

- The tile grid becomes `tileSizeAt: int -> Option<nat>`. `None` stands
  for a zoom level at which the grid throws. In that case the tile
  constructor fails and `getTile` inserts nothing, because the constructor
  call (line 130) comes before the container `set` (line 131).
- `getKeyZXY` becomes the source's `keyZXY` field. Its injectivity is
  assumed in `TileCanvas.Valid`.
- `canvasFunction` becomes a pure function value from the blank canvas and
  the tile coordinate to the pixels it paints.
- The container's capacity test and eviction choice become an injected
  `TileCache.Policy`.

## Model

| member | source | states |
|---|---|---|
| Grid.GetTileSize | src/ol/source/tilecanvassource.js:29 | the tile size comes from the grid for the tile's zoom level; a grid that cannot size that zoom level raises its error instead |
| CanvasTile.NewTile | src/ol/source/tilecanvassource.js:21-43 | a new tile has the given coordinate and is LOADED; its size is the grid's size for its zoom; its per-context map is empty and it keeps the draw procedure; construction fails exactly when the grid has no size for that zoom |
| CanvasTile.ContextKey | src/ol/source/tilecanvassource.js:51 | the cache key is -1 exactly when no context is given; otherwise it is the context's uid, which is never negative |
| CanvasTile.ContextKeyInjective | src/ol/source/tilecanvassource.js:51 | two optional contexts share a slot if and only if they are the same context, or both absent |
| CanvasTile.GetImage | src/ol/source/tilecanvassource.js:50-65 | afterwards the key maps to the returned canvas and every earlier entry is unchanged; the call draws nothing exactly when the key was already cached, and then nothing changes; on a miss it makes exactly one draw, for the tile's coordinate and size, onto a new canvas of tileSize x tileSize |
| CanvasTile.GetImageMissPaints | src/ol/source/tilecanvassource.js:55-62 | on a miss, the stored and returned canvas is the blank canvas of the tile's size as painted by the draw procedure for the tile's own coordinate |
| CanvasTile.GetImageTwice | src/ol/source/tilecanvassource.js:51-62 | two calls with the same context return the identical canvas; the second changes nothing and draws nothing; the pair draws at most once |
| CanvasTile.GetImageIsolation | src/ol/source/tilecanvassource.js:51-62 | two distinct contexts that are both uncached each get one draw, onto two distinct canvases; the second call leaves the first context's slot as it was |
| CanvasTile.GetImagesDrawsOncePerSlot | src/ol/source/tilecanvassource.js:55-61 | over any sequence of getImage calls, every draw fills exactly one new slot: slots before plus draws equals slots after |
| CanvasTile.GetImagesDrawsOncePerContext | src/ol/source/tilecanvassource.js:51-62 | over any sequence of getImage calls, the number of draws equals the number of distinct context keys that were not cached before the sequence |
| CanvasTile.GetImagesKeys | src/ol/source/tilecanvassource.js:52-61 | over any sequence of getImage calls, the canvas map gains exactly the keys of the contexts asked for |
| CanvasTile.GetImagesGrows | src/ol/source/tilecanvassource.js:35-61 | over any sequence of getImage calls the canvas map only grows, every earlier entry is kept, and the coordinate, state, size and draw procedure do not change |
| CanvasTile.GetImagesAnswersFromCache | src/ol/source/tilecanvassource.js:52-53 | in any sequence of calls, each call is answered with the canvas the tile finally holds for that call's context, so repeated contexts get the identical canvas |
| TileHeap.Alloc | src/ol/source/tilecanvassource.js:130 | a new tile object gets a reference that was not in use; every existing object, the document and the draw trace are untouched |
| TileHeap.AllocPreservesValid | src/ol/source/tilecanvassource.js:35 | adding a tile with an empty canvas map keeps the heap consistent, and every existing tile stays as it was; every drawn canvas is still held by its slot |
| TileHeap.GetImage | src/ol/source/tilecanvassource.js:50-65 | getImage on a heap tile updates only that tile, in place. The requested slot then holds the returned canvas. A hit changes nothing. A miss appends exactly one draw, for that tile's coordinate and size, to the trace |
| TileHeap.GetImagePreservesValid | src/ol/source/tilecanvassource.js:55-62 | getImage keeps the heap consistent: every created canvas was drawn exactly once, in creation order, for the coordinate and size of the tile that holds it; no canvas sits in two slots; and every drawn canvas is held by some slot, so draws and filled slots match one to one |
| TileHeap.GetImageTwice | src/ol/source/tilecanvassource.js:52-53 | a second getImage with the same context on the same tile returns the identical canvas and leaves the heap unchanged; the trace grows by at most one |
| TileHeap.SlotsAreIsolated | src/ol/source/tilecanvassource.js:57-61 | in a consistent heap, two different (tile, context) slots never hold the same canvas object |
| Dom.CreateCanvas | src/ol/source/tilecanvassource.js:57 | a created canvas is a new object: its id is one no earlier canvas has, and the document's counter moves past it. It has the requested width and height and width x height transparent pixels |
| TileCache.ContainsKey | src/ol/source/tilecanvassource.js:127 | containsKey(key) is true exactly when the container holds an entry under key |
| TileCache.Get | src/ol/source/tilecanvassource.js:128 | get(key), on a key the container holds, answers the tile stored under that key |
| TileCache.CanExpireCache | src/ol/source/tilecanvassource.js:110 | the container's canExpireCache is its capacity rule, an injected policy, applied to its current entries |
| TileCache.NewCache | src/ol/source/tilecanvassource.js:94 | the source's container starts empty |
| TileCache.Set | src/ol/source/tilecanvassource.js:131 | after set(key, tile), get(key) answers that tile and every other entry is unchanged |
| TileCache.ExpireCache | src/ol/source/tilecanvassource.js:118 | expiry only removes entries, namely those the container's policy chooses, and leaves every surviving entry unchanged |
| TileCanvas.NewSource | src/ol/source/tilecanvassource.js:82-102 | a new source keeps its grid and its draw procedure, and starts with an empty container of its own; with an injective key function it is consistent with any heap |
| TileCanvas.GetTile | src/ol/source/tilecanvassource.js:125-134 | a cached key answers its tile and changes nothing. On a miss, the new tile gets a fresh reference, coordinate [z, x, y], state LOADED, the grid's size and an empty canvas map; it is inserted under the key and nothing else changes. The call fails exactly on a miss where the grid has no size for z, and then fails with the grid's error |
| TileCanvas.GetTileAnswersItsCoordinate | src/ol/source/tilecanvassource.js:125-133 | on a consistent source, getTile answers a live tile with coordinate [z, x, y], cached under that coordinate's key; the source stays consistent, the container and the heap only grow |
| TileCanvas.GetTileKeepsHeapValid | src/ol/source/tilecanvassource.js:129-132 | getTile keeps the heap consistent, because the tile it allocates on a miss has nothing rendered yet |
| TileCanvas.GetTileTwice | src/ol/source/tilecanvassource.js:126-128 | a second getTile with the same arguments returns the identical tile and leaves the source and the heap as the first call left them |
| TileCanvas.GetTileFailureInsertsNothing | src/ol/source/tilecanvassource.js:130-131 | a grid error only happens on a miss, and no entry is inserted: the same request fails the same way again |
| TileCanvas.OneTilePerCoordinate | src/ol/source/tilecanvassource.js:126-131 | in a consistent source, no two keys hold the same tile object, and no two keys hold tiles with the same coordinate |
| TileCanvas.GetImagePreservesValid | src/ol/source/tilecanvassource.js:50-65 | rendering a tile never changes its coordinate, so the source stays consistent with the heap |
| TileCanvas.RenderOnceThroughSource | src/ol/source/tilecanvassource.js:125-133 | getTile, getImage(ctx), then getTile and getImage(ctx) again give the identical tile and the identical canvas, with at most one draw in total |
| TileCanvas.CanExpireCache | src/ol/source/tilecanvassource.js:109-111 | canExpireCache answers whatever the container answers |
| TileCanvas.ExpireCache | src/ol/source/tilecanvassource.js:117-119 | expireCache(usedTiles) expires the container with the same argument and changes nothing else in the source |
| TileCanvas.ExpireCachePreservesValid | src/ol/source/tilecanvassource.js:117-119 | after expiry every surviving entry names the same tile as before, and the source stays consistent with the heap |
| Scenarios.MarkerTile | src/ol/source/tilecanvassource.js:125-133 | with a marker draw procedure, getTile(3, 1, 2).getImage() answers a 256 x 256 canvas whose first pixel is 3012, after exactly one draw |
| Scenarios.SameTileTwice | src/ol/source/tilecanvassource.js:126-128 | getTile(0, 0, 0) twice, rendering each time, gives the identical tile and canvas, and one draw in total |
| Scenarios.NegativeZoomFails | src/ol/source/tilecanvassource.js:29 | getTile(-1, 0, 0) on a grid without negative zoom levels fails with the grid's error, and fails the same way again from any heap, so nothing was inserted |

## Left out

- Canvas creation and pixel drawing (`ol.dom.createCanvasContext2D`, the
  2D context). These are DOM plumbing. A canvas is a value with an
  identity, a size and pixels. The draw procedure receives the blank canvas
  rather than its 2D context, and it returns the pixels it paints. It
  therefore cannot resize the canvas or keep a reference to it.
- CanvasTile.ContextKey: `None` stands only for an undefined context
  (the `goog.isDef` test at line 51). A null context is not modelled:
  `goog.getUid` rejects it with a TypeError before the lookup at line 52.
- The draw procedure has no side effects on the tile or the source. It
  cannot call `getImage` or `getTile` back, and it cannot change the
  coordinate array that line 59 passes, which is the tile's own. In the
  source, a re-entrant `getImage(ctx)` from inside the draw procedure would
  miss at line 52, because the store at line 61 has not happened yet, and
  would draw a second time for the same key. CanvasTile.GetImageTwice,
  CanvasTile.GetImagesDrawsOncePerContext and
  TileCanvas.RenderOnceThroughSource, which promise at most one draw per
  key, hold only for draw procedures without such side effects.
- A draw procedure that throws. JavaScript exceptions are outside this
  pure model. In the source the canvas is stored only after the call
  returns (line 61 follows line 59), so a throwing call would store nothing.
- `goog.getUid`. A context is represented only by its uid, a natural
  number, so a uid never equals the `-1` no-context key.
- `getKeyZXY` of the base class `ol.source.Tile`, which is not part of
  this model. It is a field of the source, assumed injective.
  `Scenarios.ZxyKey` is a `z/x/y` stand-in used only by the concrete scenarios.
- The eviction algorithm of `ol.TileCache`, which is not part of this
  model. Its LRU bookkeeping is not modelled either, including the move of
  an entry to the front on `get`. The model keeps only the container's
  key-to-tile entries. An entry that `expireCache` drops stays in the
  heap, because the caller may still hold its reference. Its disposal is
  not modelled.
- The usedTiles argument of `expireCache`: modelled as a set of tile keys,
  and only passed through.
- TileCanvas.CanExpireCache: states only that the answer is forwarded,
  because the container's capacity rule is not part of this model.
- Projection, the `opaque` flag, and the tile-grid geometry handled by
  the base-class constructor (lines 84-88).
- `getTileCoord` of the base class `ol.Tile` is the tile's `coord` field.
- The draw procedure's arguments are the ones the code passes at line 59:
  the canvas (standing in for its 2D context) and the tile's coordinate.
