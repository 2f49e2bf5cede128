/** `ol.CanvasTile_`: a tile that is loaded from birth and renders one
    canvas per rendering context on first request, memoizing it under the
    context's uid (or under `-1` when no context is given). */
module CanvasTile {
  import opened Wrappers
  import opened Dom
  import opened Grid

  /** The states of an `ol.Tile`; a canvas tile only ever is `Loaded`. */
  datatype TileState = Idle | Loading | Loaded | Error | Empty

  /** A rendering context, known to the tile only through its uid. */
  datatype RenderContext = RenderContext(uid: nat)

  /** The cache slot used when `getImage` is called without a context. */
  const NoContextKey: int := -1

  /** The user's `canvasFunction`: given the blank canvas and the tile's
      coordinate, the pixels it paints onto that canvas. */
  type Painter = (Canvas, TileCoord) -> seq<int>

  /** One invocation of the draw procedure: which canvas it painted, for
      which coordinate, at which size. */
  datatype DrawCall = DrawCall(canvas: nat, coord: TileCoord, size: nat)

  datatype Tile = Tile(
    coord: TileCoord,
    state: TileState,
    tileSize: nat,
    canvasByContext: map<int, Canvas>,
    canvasFunction: Painter)

  /** The outcome of `getImage`: the tile afterwards, the document
      afterwards, the returned canvas and the draw calls it made. */
  datatype ImageStep = ImageStep(tile: Tile, doc: Document, canvas: Canvas, draws: seq<DrawCall>)

  /** `m'` holds every entry of `m` unchanged (and possibly more). */
  ghost predicate Extends<K, V>(m: map<K, V>, m': map<K, V>)
  {
    forall k :: k in m ==> k in m' && m'[k] == m[k]
  }

  /** The tile before and after differ at most in their canvas cache. */
  ghost predicate SameTileBut(t: Tile, t': Tile)
  {
    t'.coord == t.coord && t'.state == t.state && t'.tileSize == t.tileSize
    && t'.canvasFunction == t.canvasFunction
  }

  /** The constructor: a loaded tile, sized by the grid for its zoom level,
      with nothing rendered yet. It fails exactly when the grid fails. */
  function NewTile(coord: TileCoord, grid: TileGrid, canvasFunction: Painter): (r: Result<Tile, GridError>)
    ensures r.Success? <==> grid.tileSizeAt(coord.z).Some?
    ensures r.Success? ==>
      && r.value.coord == coord
      && r.value.state == Loaded
      && r.value.tileSize == grid.tileSizeAt(coord.z).value
      && r.value.canvasByContext == map[]
      && r.value.canvasFunction == canvasFunction
    ensures r.Failure? ==> r.error == NoTileSizeAt(coord.z)
  {
    match GetTileSize(grid, coord.z)
    case Failure(e) => Failure(e)
    case Success(size) => Success(Tile(coord, Loaded, size, map[], canvasFunction))
  }

  /** The cache key of an optional context: its uid, or `-1` for none.
      Keys of real contexts are never the no-context key. */
  function ContextKey(ctx: Option<RenderContext>): (k: int)
    ensures k == NoContextKey <==> ctx.None?
    ensures k >= 0 <==> ctx.Some?
    ensures ctx.Some? ==> k == ctx.value.uid
  {
    match ctx
    case Some(c) => c.uid
    case None => NoContextKey
  }

  /** Two optional contexts share a cache slot exactly when they are the
      same context, or both absent. */
  lemma ContextKeyInjective(a: Option<RenderContext>, b: Option<RenderContext>)
    ensures ContextKey(a) == ContextKey(b) <==> a == b
  {
  }

  /** `getImage(opt_context)`. On a hit the stored canvas is returned and
      nothing changes; on a miss a fresh `tileSize` square canvas is created,
      painted by one call of the draw procedure for this tile's coordinate,
      stored under the key and returned. */
  function GetImage(t: Tile, doc: Document, ctx: Option<RenderContext>): (r: ImageStep)
    ensures var key := ContextKey(ctx);
      && key in r.tile.canvasByContext
      && r.tile.canvasByContext[key] == r.canvas
      && Extends(t.canvasByContext, r.tile.canvasByContext)
      && r.tile.canvasByContext.Keys == t.canvasByContext.Keys + {key}
      && SameTileBut(t, r.tile)
    // hit: nothing is drawn, nothing changes
    ensures ContextKey(ctx) in t.canvasByContext <==> r.draws == []
    ensures ContextKey(ctx) in t.canvasByContext ==> r.tile == t && r.doc == doc
    // miss: exactly one draw, onto a new canvas of the tile's size
    ensures ContextKey(ctx) !in t.canvasByContext ==>
      && r.canvas.id >= doc.created
      && r.doc.created > r.canvas.id
      && r.canvas.width == t.tileSize && r.canvas.height == t.tileSize
      && r.draws == [DrawCall(r.canvas.id, t.coord, t.tileSize)]
  {
    var key := ContextKey(ctx);
    if key in t.canvasByContext then
      ImageStep(t, doc, t.canvasByContext[key], [])
    else
      var (blank, doc') := CreateCanvas(doc, t.tileSize, t.tileSize);
      var canvas := blank.(pixels := t.canvasFunction(blank, t.coord));
      ImageStep(t.(canvasByContext := t.canvasByContext[key := canvas]), doc', canvas,
                [DrawCall(canvas.id, t.coord, t.tileSize)])
  }

  /** The canvas stored on a miss holds what the draw procedure painted onto
      a blank canvas of the tile's size. */
  lemma GetImageMissPaints(t: Tile, doc: Document, ctx: Option<RenderContext>)
    requires ContextKey(ctx) !in t.canvasByContext
    ensures var r := GetImage(t, doc, ctx);
      var blank := CreateCanvas(doc, t.tileSize, t.tileSize).0;
      r.canvas == blank.(pixels := t.canvasFunction(blank, t.coord))
  {
  }

  /** Asking twice with the same context returns the identical canvas; the
      second call draws nothing, so the pair draws at most once. */
  lemma GetImageTwice(t: Tile, doc: Document, ctx: Option<RenderContext>)
    ensures var r1 := GetImage(t, doc, ctx);
      var r2 := GetImage(r1.tile, r1.doc, ctx);
      && r2.canvas == r1.canvas
      && r2.tile == r1.tile && r2.doc == r1.doc
      && r2.draws == []
      && |r1.draws + r2.draws| <= 1
  {
  }

  /** Distinct contexts get independent slots: each draws once on first use,
      onto distinct canvases, and the second leaves the first's slot alone. */
  lemma GetImageIsolation(t: Tile, doc: Document, a: Option<RenderContext>, b: Option<RenderContext>)
    requires a != b
    requires ContextKey(a) !in t.canvasByContext && ContextKey(b) !in t.canvasByContext
    ensures var r1 := GetImage(t, doc, a);
      var r2 := GetImage(r1.tile, r1.doc, b);
      && |r1.draws| == 1 && |r2.draws| == 1
      && r2.canvas.id != r1.canvas.id
      && r2.tile.canvasByContext[ContextKey(a)] == r1.canvas
      && r2.tile.canvasByContext[ContextKey(b)] == r2.canvas
  {
    ContextKeyInjective(a, b);
  }

  /** The outcome of a run of `getImage` calls on one tile. */
  datatype ImageRun = ImageRun(tile: Tile, doc: Document, canvases: seq<Canvas>, draws: seq<DrawCall>)

  /** Calls `getImage` with each context of `ctxs` in turn. */
  function GetImages(t: Tile, doc: Document, ctxs: seq<Option<RenderContext>>): (r: ImageRun)
    ensures |r.canvases| == |ctxs|
    decreases |ctxs|
  {
    if ctxs == [] then ImageRun(t, doc, [], [])
    else
      var step := GetImage(t, doc, ctxs[0]);
      var rest := GetImages(step.tile, step.doc, ctxs[1..]);
      ImageRun(rest.tile, rest.doc, [step.canvas] + rest.canvases, step.draws + rest.draws)
  }

  /** The cache keys of a sequence of contexts. */
  function ContextKeys(ctxs: seq<Option<RenderContext>>): (s: set<int>)
    decreases |ctxs|
  {
    if ctxs == [] then {} else {ContextKey(ctxs[0])} + ContextKeys(ctxs[1..])
  }

  /** Over any run of `getImage` calls the tile's cache only grows, and
      nothing but the cache changes. */
  lemma {:induction false} GetImagesGrows(t: Tile, doc: Document, ctxs: seq<Option<RenderContext>>)
    ensures var r := GetImages(t, doc, ctxs);
      Extends(t.canvasByContext, r.tile.canvasByContext) && SameTileBut(t, r.tile)
    decreases |ctxs|
  {
    if ctxs != [] {
      var step := GetImage(t, doc, ctxs[0]);
      GetImagesGrows(step.tile, step.doc, ctxs[1..]);
    }
  }

  /** One `getImage` call adds its key to the cache, drawing once exactly
      when the key is new; a run starting with it continues from the tile
      it leaves. */
  lemma GetImageStepKeys(t: Tile, doc: Document, ctx: Option<RenderContext>)
    ensures var step := GetImage(t, doc, ctx);
      && step.tile.canvasByContext.Keys == t.canvasByContext.Keys + {ContextKey(ctx)}
      && |step.draws| == if ContextKey(ctx) in t.canvasByContext then 0 else 1
  {
  }

  /** Over any run of `getImage` calls the tile's cache gains exactly the
      keys asked for. */
  lemma {:induction false} GetImagesKeys(t: Tile, doc: Document, ctxs: seq<Option<RenderContext>>)
    ensures GetImages(t, doc, ctxs).tile.canvasByContext.Keys == t.canvasByContext.Keys + ContextKeys(ctxs)
    decreases |ctxs|
  {
    if ctxs != [] {
      var step := GetImage(t, doc, ctxs[0]);
      GetImageStepKeys(t, doc, ctxs[0]);
      GetImagesKeys(step.tile, step.doc, ctxs[1..]);
    }
  }

  /** Over any run of `getImage` calls, each draw fills exactly one new
      slot of the tile's cache: the draws and the slots held before add up
      to the slots held after. */
  lemma {:induction false} GetImagesDrawsOncePerSlot(t: Tile, doc: Document, ctxs: seq<Option<RenderContext>>)
    ensures |t.canvasByContext.Keys| + |GetImages(t, doc, ctxs).draws| == |GetImages(t, doc, ctxs).tile.canvasByContext.Keys|
    decreases |ctxs|
  {
    if ctxs != [] {
      var step := GetImage(t, doc, ctxs[0]);
      GetImagesDrawsOncePerSlot(step.tile, step.doc, ctxs[1..]);
    }
  }

  /** The keys of `ctxs` that the tile has not rendered for yet. */
  function UncachedKeys(t: Tile, ctxs: seq<Option<RenderContext>>): set<int>
  {
    set k | k in ContextKeys(ctxs) && k !in t.canvasByContext
  }

  /** Over any run of `getImage` calls, the draw procedure runs exactly once
      per context key not cached before the run. */
  lemma GetImagesDrawsOncePerContext(t: Tile, doc: Document, ctxs: seq<Option<RenderContext>>)
    ensures |GetImages(t, doc, ctxs).draws| == |UncachedKeys(t, ctxs)|
  {
    var K := t.canvasByContext.Keys;
    var S := ContextKeys(ctxs);
    assert UncachedKeys(t, ctxs) == S - K;
    GetImagesKeys(t, doc, ctxs);
    GetImagesDrawsOncePerSlot(t, doc, ctxs);
    UnionCardinality(K, S);
  }

  /** Adding `S` to `K` adds as many elements as `S` has outside `K`. */
  lemma UnionCardinality(K: set<int>, S: set<int>)
    ensures |K + S| == |K| + |S - K|
  {
    assert K + S == K + (S - K);
    assert K !! (S - K);
  }

  /** Within a run, every call is answered with the canvas the tile ends up
      holding for that call's context: a context asked for twice gets the
      identical canvas both times. */
  lemma {:induction false} GetImagesAnswersFromCache(t: Tile, doc: Document, ctxs: seq<Option<RenderContext>>)
    ensures var r := GetImages(t, doc, ctxs);
      forall i :: 0 <= i < |ctxs| ==>
        && ContextKey(ctxs[i]) in r.tile.canvasByContext
        && r.canvases[i] == r.tile.canvasByContext[ContextKey(ctxs[i])]
    decreases |ctxs|
  {
    if ctxs != [] {
      var r := GetImages(t, doc, ctxs);
      var step := GetImage(t, doc, ctxs[0]);
      var rest := GetImages(step.tile, step.doc, ctxs[1..]);
      GetImagesAnswersFromCache(step.tile, step.doc, ctxs[1..]);
      GetImagesGrows(step.tile, step.doc, ctxs[1..]);
      forall i | 0 <= i < |ctxs|
        ensures ContextKey(ctxs[i]) in r.tile.canvasByContext
        ensures r.canvases[i] == r.tile.canvasByContext[ContextKey(ctxs[i])]
      {
        if i > 0 {
          assert r.canvases[i] == rest.canvases[i - 1];
          assert ctxs[i] == ctxs[1..][i - 1];
        }
      }
    }
  }
}
