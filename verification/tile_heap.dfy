/** The JavaScript objects the core shares by reference. Tiles live in a
    heap and are named by `TileRef`s (their index), so "the same tile" means
    the same reference and a tile's canvas cache, once filled, is seen by
    every holder of the reference. The heap also owns the document that
    creates canvases and the trace of every draw-procedure invocation. */
module TileHeap {
  import opened Wrappers
  import opened Dom
  import opened Grid
  import opened CanvasTile

  type TileRef = nat

  datatype Heap = Heap(tiles: seq<Tile>, doc: Document, draws: seq<DrawCall>)

  /** The heap before and after hold the same tiles at the same references,
      except that their canvas caches may have grown. */
  ghost predicate TilesGrow(h: Heap, h': Heap)
  {
    && |h.tiles| <= |h'.tiles|
    && forall r :: 0 <= r < |h.tiles| ==>
         SameTileBut(h.tiles[r], h'.tiles[r])
         && Extends(h.tiles[r].canvasByContext, h'.tiles[r].canvasByContext)
  }

  /** Slot `(r, k)` of the heap holds a canvas: tile `r` exists and has
      rendered for context key `k`. */
  ghost predicate Holds(h: Heap, r: int, k: int)
  {
    0 <= r < |h.tiles| && k in h.tiles[r].canvasByContext
  }

  /** The canvas in slot `(r, k)`. */
  ghost function At(h: Heap, r: int, k: int): Canvas
    requires Holds(h, r, k)
  {
    h.tiles[r].canvasByContext[k]
  }

  /** Every canvas the document created was drawn once, in creation order. */
  ghost predicate DrawsNumbered(h: Heap)
  {
    |h.draws| == h.doc.created && forall i :: 0 <= i < |h.draws| ==> h.draws[i].canvas == i
  }

  /** Every held canvas exists and was drawn for its tile's coordinate at
      its tile's size. */
  ghost predicate SlotsDrawn(h: Heap)
  {
    forall r, k :: Holds(h, r, k) ==>
      At(h, r, k).id < |h.draws|
      && h.draws[At(h, r, k).id] == DrawCall(At(h, r, k).id, h.tiles[r].coord, h.tiles[r].tileSize)
  }

  /** No canvas object sits in two slots. */
  ghost predicate SlotsDistinct(h: Heap)
  {
    forall r1, k1, r2, k2 :: Holds(h, r1, k1) && Holds(h, r2, k2) && At(h, r1, k1).id == At(h, r2, k2).id
      ==> r1 == r2 && k1 == k2
  }

  /** Some slot of the heap holds the canvas with id `id`. */
  ghost predicate HeldCanvas(h: Heap, id: nat)
  {
    exists r, k :: Holds(h, r, k) && At(h, r, k).id == id
  }

  /** Every drawn canvas is held by some slot: no draw is wasted. */
  ghost predicate DrawsHeld(h: Heap)
  {
    forall i :: 0 <= i < |h.draws| ==> HeldCanvas(h, h.draws[i].canvas)
  }

  /** The heap is consistent: every canvas the document created was drawn
      exactly once, in creation order; every canvas a tile holds exists,
      sits in exactly one (tile, context) slot, and was drawn for that
      tile's coordinate at that tile's size; and every drawn canvas is held
      by a slot, so the draws match the filled slots one to one. */
  ghost predicate Valid(h: Heap)
  {
    DrawsNumbered(h) && SlotsDrawn(h) && SlotsDistinct(h) && DrawsHeld(h)
  }

  /** The empty heap, before any tile or canvas exists. */
  function EmptyHeap(): (h: Heap)
    ensures Valid(h) && h.tiles == [] && h.draws == []
  {
    Heap([], Document(0), [])
  }

  /** Allocates `t` as a new object: its reference was not in use, and every
      existing object is untouched. */
  function Alloc(h: Heap, t: Tile): (r: (Heap, TileRef))
    ensures r.1 == |h.tiles| && r.1 < |r.0.tiles| && r.0.tiles[r.1] == t
    ensures r.0.tiles[..|h.tiles|] == h.tiles
    ensures r.0.doc == h.doc && r.0.draws == h.draws
  {
    (h.(tiles := h.tiles + [t]), |h.tiles|)
  }

  /** Allocating a tile with nothing rendered keeps the heap consistent. */
  lemma AllocPreservesValid(h: Heap, t: Tile)
    requires Valid(h) && t.canvasByContext == map[]
    ensures Valid(Alloc(h, t).0) && TilesGrow(h, Alloc(h, t).0)
  {
    var h' := Alloc(h, t).0;
    assert forall r :: 0 <= r < |h.tiles| ==> h'.tiles[r] == h.tiles[r];
    forall r, k | Holds(h', r, k) ensures Holds(h, r, k) && At(h', r, k) == At(h, r, k) {
      assert r < |h.tiles|;
    }
    forall i | 0 <= i < |h'.draws| ensures HeldCanvas(h', h'.draws[i].canvas) {
      assert h'.draws[i] == h.draws[i] && HeldCanvas(h, h.draws[i].canvas);
      var r, k :| Holds(h, r, k) && At(h, r, k).id == h.draws[i].canvas;
      assert Holds(h', r, k) && At(h', r, k) == At(h, r, k);
    }
  }

  /** `tile.getImage(opt_context)` on the tile at `ref`: the tile object is
      updated in place, canvases come from the heap's document and the draw,
      if any, is appended to the trace. */
  function GetImage(h: Heap, ref: TileRef, ctx: Option<RenderContext>): (r: (Heap, Canvas))
    requires ref < |h.tiles|
    ensures |r.0.tiles| == |h.tiles|
    ensures forall q :: 0 <= q < |h.tiles| && q != ref ==> r.0.tiles[q] == h.tiles[q]
    ensures ContextKey(ctx) in r.0.tiles[ref].canvasByContext
    ensures r.0.tiles[ref].canvasByContext[ContextKey(ctx)] == r.1
    ensures TilesGrow(h, r.0)
    ensures ContextKey(ctx) in h.tiles[ref].canvasByContext ==> r.0 == h
    ensures ContextKey(ctx) !in h.tiles[ref].canvasByContext ==>
      r.0.draws == h.draws + [DrawCall(r.1.id, h.tiles[ref].coord, h.tiles[ref].tileSize)]
  {
    var step := CanvasTile.GetImage(h.tiles[ref], h.doc, ctx);
    (Heap(h.tiles[ref := step.tile], step.doc, h.draws + step.draws), step.canvas)
  }

  /** The slots after a `getImage` miss: the old ones, unchanged, plus the
      one just filled. */
  lemma GetImageMissSlots(h: Heap, ref: TileRef, ctx: Option<RenderContext>)
    requires ref < |h.tiles| && ContextKey(ctx) !in h.tiles[ref].canvasByContext
    ensures var (h', c) := GetImage(h, ref, ctx);
      && Holds(h', ref, ContextKey(ctx)) && At(h', ref, ContextKey(ctx)) == c
      && forall r, k :: Holds(h', r, k) && !(r == ref && k == ContextKey(ctx)) ==>
           Holds(h, r, k) && At(h', r, k) == At(h, r, k)
  {
  }

  /** `getImage` keeps the heap consistent: a newly created canvas is drawn
      exactly once and lands in exactly one slot. */
  lemma GetImagePreservesValid(h: Heap, ref: TileRef, ctx: Option<RenderContext>)
    requires Valid(h) && ref < |h.tiles|
    ensures Valid(GetImage(h, ref, ctx).0)
  {
    var key := ContextKey(ctx);
    if key !in h.tiles[ref].canvasByContext {
      var (h', c) := GetImage(h, ref, ctx);
      GetImageMissSlots(h, ref, ctx);
      assert c.id == |h.draws|;
      assert h'.draws == h.draws + [DrawCall(c.id, h.tiles[ref].coord, h.tiles[ref].tileSize)];
      assert DrawsNumbered(h');
      forall r, k | Holds(h', r, k)
        ensures At(h', r, k).id < |h'.draws|
        ensures h'.draws[At(h', r, k).id] == DrawCall(At(h', r, k).id, h'.tiles[r].coord, h'.tiles[r].tileSize)
        ensures (r == ref && k == key) || At(h', r, k).id < |h.draws|
      {
        if !(r == ref && k == key) {
          assert Holds(h, r, k);
        }
      }
      assert SlotsDrawn(h');
    }
  }

  /** Asking the tile at `ref` twice for the same context returns the
      identical canvas, and the trace grows by at most one draw. */
  lemma GetImageTwice(h: Heap, ref: TileRef, ctx: Option<RenderContext>)
    requires ref < |h.tiles|
    ensures var (h1, c1) := GetImage(h, ref, ctx);
      var (h2, c2) := GetImage(h1, ref, ctx);
      c2 == c1 && h2 == h1 && |h2.draws| <= |h.draws| + 1
  {
  }

  /** In a consistent heap, distinct slots — different tiles, or different
      contexts of one tile — never hold the same canvas object. */
  lemma SlotsAreIsolated(h: Heap, r1: TileRef, k1: int, r2: TileRef, k2: int)
    requires Valid(h)
    requires r1 < |h.tiles| && r2 < |h.tiles|
    requires k1 in h.tiles[r1].canvasByContext && k2 in h.tiles[r2].canvasByContext
    requires r1 != r2 || k1 != k2
    ensures h.tiles[r1].canvasByContext[k1].id != h.tiles[r2].canvasByContext[k2].id
  {
    assert Holds(h, r1, k1) && Holds(h, r2, k2);
  }
}
