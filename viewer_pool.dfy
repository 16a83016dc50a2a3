/**
 * The per-viewer canvas ring of the datagrid plugin (src/custom_datagrid.ts).
 *
 * `VIEWER_CACHE` maps a viewer id (its workspace slot) to an array of 50x50
 * canvases that grows one canvas at a time up to `MAX_CACHE`; `LAST_CANVAS`
 * maps the viewer id to a cursor into that array. `makeCanvas` wraps the
 * cursor to 0 once it has reached `MAX_CACHE`, reuses the canvas at the
 * cursor or creates one there, draws the asset's tile into it and advances
 * the cursor; each refresh of a viewer first puts its cursor back to 0.
 * Canvases are handles; `pixels` records, per canvas, the asset id whose
 * tile was last copied onto it, and `Shown` turns that id into the source
 * rectangle `drawImage` read (the id and the rectangle determine each other,
 * by `Tiles.SourceRectInverse`).
 */
module ViewerPool {
  import opened Common
  import opened Tiles

  /** Most canvases a viewer ever holds. */
  const MAX_CACHE: nat := 300

  /** Width and height of a pooled canvas, and of a tile of the 50-pixel sheet. */
  const CANVAS_SIZE: nat := 50

  /** The two module-level maps, the canvas allocator, and what each canvas shows. */
  datatype PoolState = PoolState(
    caches: map<string, seq<Canvas>>,
    cursors: map<string, nat>,
    nextHandle: nat,
    pixels: map<nat, nat>)

  /** `VIEWER_CACHE[v] || []` */
  function Pool(s: PoolState, v: string): seq<Canvas> {
    if v in s.caches then s.caches[v] else []
  }

  /** `LAST_CANVAS[v] || 0` */
  function Cursor(s: PoolState, v: string): nat {
    if v in s.cursors then s.cursors[v] else 0
  }

  /** The asset whose tile was last drawn into a canvas, if any was. */
  function Painted(s: PoolState, c: Canvas): Option<nat> {
    if c.handle in s.pixels then Some(s.pixels[c.handle]) else None
  }

  /** The sheet rectangle a canvas currently shows, if any tile was drawn into it. */
  function Shown(s: PoolState, c: Canvas): (r: Option<Rect>)
    ensures r.Some? <==> Painted(s, c).Some?
    ensures r.Some? ==> r.value == SourceRect(Painted(s, c).value, CANVAS_SIZE)
  {
    match Painted(s, c)
    case Some(id) => Some(SourceRect(id, CANVAS_SIZE))
    case None => None
  }

  /** No viewer holds more than MAX_CACHE canvases. */
  ghost predicate PoolsBounded(caches: map<string, seq<Canvas>>) {
    forall v :: v in caches ==> |caches[v]| <= MAX_CACHE
  }

  /** A cursor never points past the end of its viewer's pool. */
  ghost predicate CursorsInPool(caches: map<string, seq<Canvas>>, cursors: map<string, nat>) {
    forall v :: v in cursors ==> cursors[v] <= if v in caches then |caches[v]| else 0
  }

  /** Every pooled canvas is a 50x50 surface created before `next`. */
  ghost predicate CanvasesIssued(caches: map<string, seq<Canvas>>, next: nat) {
    forall v, i :: v in caches && 0 <= i < |caches[v]| ==>
      && caches[v][i].handle < next
      && caches[v][i].width == CANVAS_SIZE
      && caches[v][i].height == CANVAS_SIZE
  }

  /** No canvas sits in two slots, of one viewer or of two. */
  ghost predicate CanvasesDistinct(caches: map<string, seq<Canvas>>) {
    forall v, i, w, j ::
      && v in caches && w in caches
      && 0 <= i < |caches[v]| && 0 <= j < |caches[w]|
      && caches[v][i].handle == caches[w][j].handle
      ==> v == w && i == j
  }

  /** Only canvases created before `next` have had a tile drawn into them. */
  ghost predicate PaintedIssued(pixels: map<nat, nat>, next: nat) {
    forall h :: h in pixels ==> h < next
  }

  /** What every reachable state satisfies. */
  ghost predicate Consistent(s: PoolState) {
    && PoolsBounded(s.caches)
    && CursorsInPool(s.caches, s.cursors)
    && CanvasesIssued(s.caches, s.nextHandle)
    && CanvasesDistinct(s.caches)
    && PaintedIssued(s.pixels, s.nextHandle)
  }

  /** The state before any viewer has drawn: both maps empty. */
  const EMPTY: PoolState := PoolState(map[], map[], 0, map[])

  lemma EmptyIsConsistent()
    ensures Consistent(EMPTY)
  {
  }

  /** The slot `makeCanvas` uses: the cursor, or 0 once the cursor has reached MAX_CACHE. */
  function Slot(s: PoolState, v: string): nat {
    if Cursor(s, v) >= MAX_CACHE then 0 else Cursor(s, v)
  }

  /** Viewer `v`'s cursor is within its pool, and its pool within MAX_CACHE. */
  predicate Fits(s: PoolState, v: string) {
    Cursor(s, v) <= |Pool(s, v)| <= MAX_CACHE
  }

  lemma ConsistentFits(s: PoolState, v: string)
    requires Consistent(s)
    ensures Fits(s, v)
  {
    assert v in s.cursors ==> s.cursors[v] <= |Pool(s, v)|;
  }

  /**
   * One call of `makeCanvas(v, asset, image)`: the canvas returned and the
   * state afterwards. The slot used is below MAX_CACHE and the cursor moves
   * just past it; canvases already pooled stay where they are, and only when
   * the slot is the end of the pool is one fresh 50x50 canvas appended. The
   * returned canvas now shows the asset's tile (NaN draws nothing), no other
   * canvas's picture changes, and no other viewer's pool or cursor changes.
   */
  function NextCanvas(s: PoolState, v: string, asset: AssetId): (r: (PoolState, Canvas))
    requires Fits(s, v)
    ensures Fits(r.0, v)
    ensures Slot(s, v) < MAX_CACHE && Cursor(r.0, v) == Slot(s, v) + 1
    ensures Slot(s, v) < |Pool(r.0, v)| && r.1 == Pool(r.0, v)[Slot(s, v)]
    ensures Pool(s, v) <= Pool(r.0, v)
    ensures Slot(s, v) < |Pool(s, v)| ==> Pool(r.0, v) == Pool(s, v) && r.0.nextHandle == s.nextHandle
    ensures Slot(s, v) >= |Pool(s, v)| ==>
              && r.1 == Canvas(s.nextHandle, CANVAS_SIZE, CANVAS_SIZE)
              && Pool(r.0, v) == Pool(s, v) + [r.1]
              && r.0.nextHandle == s.nextHandle + 1
    ensures Painted(r.0, r.1) == if asset.Id? then Some(asset.n) else Painted(s, r.1)
    ensures forall c: Canvas :: c.handle != r.1.handle ==> Painted(r.0, c) == Painted(s, c)
    ensures forall w :: w != v ==> Pool(r.0, w) == Pool(s, w) && Cursor(r.0, w) == Cursor(s, w)
  {
    var pool, slot := Pool(s, v), Slot(s, v);
    var canvas := if slot < |pool| then pool[slot] else Canvas(s.nextHandle, CANVAS_SIZE, CANVAS_SIZE);
    var pool' := if slot < |pool| then pool else pool + [canvas];
    var next' := if slot < |pool| then s.nextHandle else s.nextHandle + 1;
    var pixels' := if asset.Id? then s.pixels[canvas.handle := asset.n] else s.pixels;
    (PoolState(s.caches[v := pool'], s.cursors[v := slot + 1], next', pixels'), canvas)
  }

  /** `NextCanvas` spelled out field by field, given which canvas the slot yields. */
  lemma NextCanvasFrom(s: PoolState, v: string, asset: AssetId, canvas: Canvas, pool': seq<Canvas>, next': nat)
    requires Fits(s, v)
    requires Slot(s, v) < |Pool(s, v)| ==> canvas == Pool(s, v)[Slot(s, v)] && pool' == Pool(s, v) && next' == s.nextHandle
    requires Slot(s, v) >= |Pool(s, v)| ==>
      canvas == Canvas(s.nextHandle, CANVAS_SIZE, CANVAS_SIZE) && pool' == Pool(s, v) + [canvas] && next' == s.nextHandle + 1
    ensures NextCanvas(s, v, asset) ==
      (PoolState(s.caches[v := pool'], s.cursors[v := Slot(s, v) + 1], next',
                 if asset.Id? then s.pixels[canvas.handle := asset.n] else s.pixels),
       canvas)
  {
  }

  /**
   * After `makeCanvas`, the canvas returned shows the tile
   * `((id % 94) * 50, floor(id / 94) * 50)` of the asset, or, for NaN, what it
   * showed before; every other canvas shows what it showed before.
   */
  lemma NextCanvasShowsTile(s: PoolState, v: string, asset: AssetId)
    requires Fits(s, v)
    ensures Shown(NextCanvas(s, v, asset).0, NextCanvas(s, v, asset).1) ==
      if asset.Id? then DrawnRect(asset, CANVAS_SIZE) else Shown(s, NextCanvas(s, v, asset).1)
    ensures forall c: Canvas :: c.handle != NextCanvas(s, v, asset).1.handle ==>
      Shown(NextCanvas(s, v, asset).0, c) == Shown(s, c)
  {
  }

  /**
   * Pool `v` after its cursor lands on `slot`: unchanged when the slot is
   * taken, grown by one fresh canvas when the slot is the end of the pool.
   */
  lemma ClaimKeepsConsistent(s: PoolState, v: string, slot: nat, pool': seq<Canvas>, next': nat, pixels': map<nat, nat>)
    requires Consistent(s) && slot < MAX_CACHE
    requires || (slot < |Pool(s, v)| && pool' == Pool(s, v) && next' == s.nextHandle)
             || (slot == |Pool(s, v)| && pool' == Pool(s, v) + [Canvas(s.nextHandle, CANVAS_SIZE, CANVAS_SIZE)]
                 && next' == s.nextHandle + 1)
    requires PaintedIssued(pixels', next')
    ensures Consistent(PoolState(s.caches[v := pool'], s.cursors[v := slot + 1], next', pixels'))
  {
    var caches := s.caches[v := pool'];
    assert PoolsBounded(caches);
    assert CursorsInPool(caches, s.cursors[v := slot + 1]);
    assert CanvasesIssued(caches, next') by {
      forall w, i | w in caches && 0 <= i < |caches[w]|
        ensures caches[w][i].handle < next' && caches[w][i].width == CANVAS_SIZE && caches[w][i].height == CANVAS_SIZE
      {
        if w != v || i < |Pool(s, v)| {
          assert caches[w][i] == s.caches[w][i];
        }
      }
    }
    assert CanvasesDistinct(caches) by {
      forall w1, i, w2, j |
        && w1 in caches && w2 in caches
        && 0 <= i < |caches[w1]| && 0 <= j < |caches[w2]|
        && caches[w1][i].handle == caches[w2][j].handle
        ensures w1 == w2 && i == j
      {
        var old1 := w1 != v || i < |Pool(s, v)|;
        var old2 := w2 != v || j < |Pool(s, v)|;
        if old1 {
          assert caches[w1][i] == s.caches[w1][i];
        }
        if old2 {
          assert caches[w2][j] == s.caches[w2][j];
        }
      }
    }
  }

  /**
   * `makeCanvas` keeps the pool invariant, the canvas it hands to `v`
   * belongs to no other viewer, and a canvas it has just created shows the
   * asset's tile or, for NaN, nothing at all.
   */
  lemma NextCanvasKeepsConsistent(s: PoolState, v: string, asset: AssetId)
    requires Consistent(s)
    ensures Fits(s, v)
    ensures Consistent(NextCanvas(s, v, asset).0)
    ensures forall w, c :: w != v && c in Pool(s, w) ==> c.handle != NextCanvas(s, v, asset).1.handle
    ensures Slot(s, v) >= |Pool(s, v)| ==>
      Painted(NextCanvas(s, v, asset).0, NextCanvas(s, v, asset).1) == if asset.Id? then Some(asset.n) else None
  {
    ConsistentFits(s, v);
    var (s', canvas) := NextCanvas(s, v, asset);
    var slot := Slot(s, v);
    assert PaintedIssued(s'.pixels, s'.nextHandle);
    ClaimKeepsConsistent(s, v, slot, Pool(s', v), s'.nextHandle, s'.pixels);
    assert s' == PoolState(s.caches[v := Pool(s', v)], s.cursors[v := slot + 1], s'.nextHandle, s'.pixels);
    forall w, j | w != v && 0 <= j < |Pool(s, w)| ensures Pool(s, w)[j].handle != canvas.handle {
      assert s'.caches[v][slot] == canvas && s'.caches[w][j] == Pool(s, w)[j];
    }
  }

  /**
   * The listener's `LAST_CANVAS[viewer_id] = 0` before each refresh: only
   * that viewer's cursor changes.
   */
  function Rewind(s: PoolState, v: string): (r: PoolState)
    ensures Cursor(r, v) == 0
    ensures forall w :: Pool(r, w) == Pool(s, w)
    ensures forall w :: w != v ==> Cursor(r, w) == Cursor(s, w)
    ensures forall c: Canvas :: Painted(r, c) == Painted(s, c)
  {
    s.(cursors := s.cursors[v := 0])
  }

  lemma RewindKeepsConsistent(s: PoolState, v: string)
    requires Consistent(s)
    ensures Consistent(Rewind(s, v)) && Fits(Rewind(s, v), v)
  {
    ConsistentFits(Rewind(s, v), v);
  }

  /** Consecutive `makeCanvas` calls for one viewer: the final state and the canvases, in call order. */
  function NextCanvases(s: PoolState, v: string, assets: seq<AssetId>): (r: (PoolState, seq<Canvas>))
    requires Fits(s, v)
    ensures Fits(r.0, v) && |r.1| == |assets|
    ensures Pool(s, v) <= Pool(r.0, v)
    ensures forall w :: w != v ==> Pool(r.0, w) == Pool(s, w) && Cursor(r.0, w) == Cursor(s, w)
    decreases |assets|
  {
    if assets == [] then (s, [])
    else
      var before := NextCanvases(s, v, assets[..|assets| - 1]);
      var last := NextCanvas(before.0, v, assets[|assets| - 1]);
      (last.0, before.1 + [last.1])
  }

  /**
   * Consecutive calls keep the pool invariant, and the pictures on other
   * viewers' canvases are never touched.
   */
  lemma {:induction false} NextCanvasesKeepConsistent(s: PoolState, v: string, assets: seq<AssetId>)
    requires Consistent(s)
    ensures Fits(s, v)
    ensures Consistent(NextCanvases(s, v, assets).0)
    ensures forall w, c :: w != v && c in Pool(s, w) ==> Painted(NextCanvases(s, v, assets).0, c) == Painted(s, c)
    decreases |assets|
  {
    ConsistentFits(s, v);
    if assets != [] {
      var front := assets[..|assets| - 1];
      NextCanvasesKeepConsistent(s, v, front);
      var t := NextCanvases(s, v, front).0;
      NextCanvasKeepsConsistent(t, v, assets[|assets| - 1]);
    }
  }

  /** One refresh of viewer `v`: the cursor is rewound, then one canvas is taken per image drawn. */
  function Refresh(s: PoolState, v: string, assets: seq<AssetId>): (r: (PoolState, seq<Canvas>))
    requires Fits(s, v)
  {
    NextCanvases(Rewind(s, v), v, assets)
  }

  /** The slot of the k-th call (from 0) of a run that starts with the cursor at `c0`. */
  function SlotAfter(c0: nat, k: nat): nat {
    (c0 + k) % MAX_CACHE
  }

  /** Arithmetic of the cursor: wrapping at MAX_CACHE and then adding one is counting modulo MAX_CACHE. */
  lemma SlotArithmetic(c0: nat, m: nat, cursor: nat)
    requires c0 <= MAX_CACHE
    requires m == 0 ==> cursor == c0
    requires m > 0 ==> cursor == SlotAfter(c0, m - 1) + 1
    ensures (if cursor >= MAX_CACHE then 0 else cursor) == SlotAfter(c0, m)
  {
  }

  /** After n > 0 consecutive calls from cursor c, the cursor is ((c + n - 1) mod MAX_CACHE) + 1. */
  lemma {:induction false} CursorAfterCalls(s: PoolState, v: string, assets: seq<AssetId>)
    requires Fits(s, v)
    ensures assets != [] ==> Cursor(NextCanvases(s, v, assets).0, v) == SlotAfter(Cursor(s, v), |assets| - 1) + 1
    decreases |assets|
  {
    if assets != [] {
      var front := assets[..|assets| - 1];
      CursorAfterCalls(s, v, front);
      var t := NextCanvases(s, v, front).0;
      SlotArithmetic(Cursor(s, v), |front|, Cursor(t, v));
    }
  }

  /** The slots of the calls so far, extended by one more call. */
  lemma StepFollowsSlots(t: PoolState, v: string, a: AssetId, c0: nat, cs: seq<Canvas>)
    requires Fits(t, v) && c0 <= MAX_CACHE
    requires Slot(t, v) == SlotAfter(c0, |cs|)
    requires forall k :: 0 <= k < |cs| ==> SlotAfter(c0, k) < |Pool(t, v)| && cs[k] == Pool(t, v)[SlotAfter(c0, k)]
    ensures forall k :: 0 <= k < |cs| + 1 ==>
      && SlotAfter(c0, k) < |Pool(NextCanvas(t, v, a).0, v)|
      && (cs + [NextCanvas(t, v, a).1])[k] == Pool(NextCanvas(t, v, a).0, v)[SlotAfter(c0, k)]
  {
    var u, c := NextCanvas(t, v, a).0, NextCanvas(t, v, a).1;
    forall k | 0 <= k < |cs| + 1
      ensures SlotAfter(c0, k) < |Pool(u, v)| && (cs + [c])[k] == Pool(u, v)[SlotAfter(c0, k)]
    {
      if k < |cs| {
        assert Pool(t, v) <= Pool(u, v);
      }
    }
  }

  /**
   * The k-th of consecutive calls uses slot (c + k) mod MAX_CACHE, where c is
   * the cursor before the first call, and returns the canvas that ends up in
   * that slot.
   */
  lemma {:induction false} CanvasesFollowSlots(s: PoolState, v: string, assets: seq<AssetId>)
    requires Fits(s, v)
    ensures forall k :: 0 <= k < |assets| ==>
      && SlotAfter(Cursor(s, v), k) < |Pool(NextCanvases(s, v, assets).0, v)|
      && NextCanvases(s, v, assets).1[k] == Pool(NextCanvases(s, v, assets).0, v)[SlotAfter(Cursor(s, v), k)]
    decreases |assets|
  {
    if assets != [] {
      var m := |assets| - 1;
      var front := assets[..m];
      CanvasesFollowSlots(s, v, front);
      CursorAfterCalls(s, v, front);
      var t := NextCanvases(s, v, front).0;
      SlotArithmetic(Cursor(s, v), m, Cursor(t, v));
      StepFollowsSlots(t, v, assets[m], Cursor(s, v), NextCanvases(s, v, front).1);
    }
  }

  /** Within one refresh cycle, the k-th image drawn lands on the canvas in slot k mod MAX_CACHE. */
  lemma RefreshUsesSlotModulo(s: PoolState, v: string, assets: seq<AssetId>)
    requires Fits(s, v)
    ensures var (t, cs) := Refresh(s, v, assets);
      forall k :: 0 <= k < |cs| ==> k % MAX_CACHE < |Pool(t, v)| && cs[k] == Pool(t, v)[k % MAX_CACHE]
  {
    CanvasesFollowSlots(Rewind(s, v), v, assets);
    var (t, cs) := Refresh(s, v, assets);
    forall k | 0 <= k < |cs| ensures k % MAX_CACHE < |Pool(t, v)| && cs[k] == Pool(t, v)[k % MAX_CACHE] {
      assert SlotAfter(Cursor(Rewind(s, v), v), k) == k % MAX_CACHE;
    }
  }

  /** Call MAX_CACHE + 1 of a refresh returns the canvas of call 1, and so on round the ring. */
  lemma RefreshWrapsAround(s: PoolState, v: string, assets: seq<AssetId>)
    requires Fits(s, v)
    ensures var (t, cs) := Refresh(s, v, assets);
      forall k :: 0 <= k && k + MAX_CACHE < |cs| ==> cs[k + MAX_CACHE] == cs[k]
  {
    RefreshUsesSlotModulo(s, v, assets);
    var (t, cs) := Refresh(s, v, assets);
    forall k | 0 <= k && k + MAX_CACHE < |cs| ensures cs[k + MAX_CACHE] == cs[k] {
      var q, m := k / MAX_CACHE, k % MAX_CACHE;
      assert k + MAX_CACHE == (q + 1) * MAX_CACHE + m;
    }
  }

  /** Calls of one refresh whose slots differ get different canvases: the ring never hands one canvas to two slots. */
  lemma RefreshSlotsDistinct(s: PoolState, v: string, assets: seq<AssetId>)
    requires Consistent(s)
    ensures var (t, cs) := Refresh(s, v, assets);
      forall k, j :: 0 <= k < |cs| && 0 <= j < |cs| && k % MAX_CACHE != j % MAX_CACHE ==> cs[k] != cs[j]
  {
    ConsistentFits(s, v);
    RefreshUsesSlotModulo(s, v, assets);
    RewindKeepsConsistent(s, v);
    NextCanvasesKeepConsistent(Rewind(s, v), v, assets);
    var (t, cs) := Refresh(s, v, assets);
    forall k, j | 0 <= k < |cs| && 0 <= j < |cs| && k % MAX_CACHE != j % MAX_CACHE
      ensures cs[k] != cs[j]
    {
      assert v in t.caches;
      assert t.caches[v][k % MAX_CACHE] == cs[k] && t.caches[v][j % MAX_CACHE] == cs[j];
    }
  }

  /**
   * The datagrid's two module-level maps as one object. `makeCanvas` and the
   * listener's cursor reset are its methods; each is proved to perform
   * exactly the transition given by `NextCanvas` and `Rewind`.
   */
  class ViewerCanvases {
    /** `VIEWER_CACHE` */
    var viewerCache: map<string, seq<Canvas>>
    /** `LAST_CANVAS` */
    var lastCanvas: map<string, nat>
    /** Number of canvases `document.createElement` has produced. */
    var nextHandle: nat
    /** The asset id whose tile was last drawn into each canvas. */
    var pixels: map<nat, nat>

    function State(): PoolState
      reads this
    {
      PoolState(viewerCache, lastCanvas, nextHandle, pixels)
    }

    ghost predicate Valid()
      reads this
    {
      Consistent(State())
    }

    constructor ()
      ensures Valid() && State() == EMPTY
    {
      viewerCache, lastCanvas, nextHandle, pixels := map[], map[], 0, map[];
    }

    /** `makeCanvas(viewer_id, asset_id, image)` */
    method MakeCanvas(viewerId: string, asset: AssetId) returns (canvas: Canvas)
      requires Valid()
      modifies this
      ensures Valid()
      ensures (State(), canvas) == NextCanvas(old(State()), viewerId, asset)
    {
      ghost var s0 := State();
      ConsistentFits(s0, viewerId);
      var cursor := if viewerId in lastCanvas then lastCanvas[viewerId] else 0;
      var cache := if viewerId in viewerCache then viewerCache[viewerId] else [];
      if cursor >= MAX_CACHE {
        cursor := 0;
      }
      assert cursor == Slot(s0, viewerId) && cache == Pool(s0, viewerId);
      if cursor < |cache| {
        canvas := cache[cursor];
      } else {
        canvas := Canvas(nextHandle, CANVAS_SIZE, CANVAS_SIZE);
        nextHandle := nextHandle + 1;
        cache := cache + [canvas];
      }
      viewerCache := viewerCache[viewerId := cache];
      if asset.Id? {
        pixels := pixels[canvas.handle := asset.n];
      }
      lastCanvas := lastCanvas[viewerId := cursor + 1];
      NextCanvasFrom(s0, viewerId, asset, canvas, cache, nextHandle);
      assert (State(), canvas) == NextCanvas(s0, viewerId, asset);
      assert Valid() by {
        NextCanvasKeepsConsistent(s0, viewerId, asset);
      }
    }

    /** `LAST_CANVAS[viewer_id] = 0` in the style listener registration. */
    method ResetCursor(viewerId: string)
      requires Valid()
      modifies this
      ensures Valid()
      ensures State() == Rewind(old(State()), viewerId)
    {
      RewindKeepsConsistent(State(), viewerId);
      lastCanvas := lastCanvas[viewerId := 0];
    }
  }
}
