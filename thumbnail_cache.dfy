/**
 * The memoising canvas factory of the React shell (src/index.tsx).
 *
 * `CACHE` maps an asset id to a 100x100 canvas. The first request for an id
 * creates the canvas and copies the id's 100-pixel tile of the sheet onto
 * it; every later request returns that same canvas without drawing or
 * creating anything. Entries are never removed. NaN, what `parseInt` yields
 * for text without leading digits, is a key like any other. Canvases are
 * handles; `pixels` records the asset id whose tile was copied onto each.
 */
module ThumbnailCache {
  import opened Common
  import opened Tiles

  /** Width and height of a memoised canvas, and of a tile of the 100-pixel sheet. */
  const THUMB_SIZE: nat := 100

  /** `CACHE`, the canvas allocator, and what each canvas shows. */
  datatype MemoState = MemoState(entries: map<AssetId, Canvas>, nextHandle: nat, pixels: map<nat, nat>)

  /** The asset whose tile was drawn into a canvas, if any was. */
  function Painted(s: MemoState, c: Canvas): Option<nat> {
    if c.handle in s.pixels then Some(s.pixels[c.handle]) else None
  }

  /** The sheet rectangle a canvas shows, if any tile was drawn into it. */
  function Shown(s: MemoState, c: Canvas): (r: Option<Rect>)
    ensures r.Some? <==> Painted(s, c).Some?
    ensures r.Some? ==> r.value == SourceRect(Painted(s, c).value, THUMB_SIZE)
  {
    match Painted(s, c)
    case Some(id) => Some(SourceRect(id, THUMB_SIZE))
    case None => None
  }

  /** Every memoised canvas is a 100x100 surface created before `next`; nothing was drawn on a canvas not yet created. */
  ghost predicate Issued(s: MemoState) {
    && (forall a :: a in s.entries ==>
          s.entries[a].handle < s.nextHandle && s.entries[a].width == THUMB_SIZE && s.entries[a].height == THUMB_SIZE)
    && (forall h :: h in s.pixels ==> h < s.nextHandle)
  }

  /** No canvas is memoised under two ids. */
  ghost predicate Unshared(entries: map<AssetId, Canvas>) {
    forall a, b :: a in entries && b in entries && entries[a].handle == entries[b].handle ==> a == b
  }

  /** The canvas memoised for an id shows that id's tile; the one memoised for NaN shows nothing. */
  ghost predicate ShowsOwnTile(s: MemoState) {
    forall a :: a in s.entries ==> Painted(s, s.entries[a]) == if a.Id? then Some(a.n) else None
  }

  /** What every reachable state satisfies. */
  ghost predicate Consistent(s: MemoState) {
    Issued(s) && Unshared(s.entries) && ShowsOwnTile(s)
  }

  /** The state at page load: `CACHE` empty. */
  const EMPTY: MemoState := MemoState(map[], 0, map[])

  lemma EmptyIsConsistent()
    ensures Consistent(EMPTY)
  {
  }

  /**
   * One call of `makeCanvas(asset_id, image)`: the canvas returned and the
   * state afterwards. The returned canvas is the one memoised under the id
   * afterwards; on a hit nothing changes at all; on a miss exactly one
   * fresh 100x100 canvas is created, drawn from the id's tile (NaN draws
   * nothing) and memoised under the id. No entry is ever dropped or replaced.
   */
  function Lookup(s: MemoState, a: AssetId): (r: (MemoState, Canvas))
    ensures a in r.0.entries && r.1 == r.0.entries[a]
    ensures r.0.entries.Keys == s.entries.Keys + {a}
    ensures forall b :: b in s.entries ==> r.0.entries[b] == s.entries[b]
    ensures a in s.entries ==> r.0 == s
    ensures a !in s.entries ==>
              && r.1 == Canvas(s.nextHandle, THUMB_SIZE, THUMB_SIZE)
              && r.0.nextHandle == s.nextHandle + 1
              && Painted(r.0, r.1) == (if a.Id? then Some(a.n) else Painted(s, r.1))
              && forall c: Canvas :: c.handle != r.1.handle ==> Painted(r.0, c) == Painted(s, c)
  {
    if a in s.entries then (s, s.entries[a])
    else
      var canvas := Canvas(s.nextHandle, THUMB_SIZE, THUMB_SIZE);
      var pixels' := if a.Id? then s.pixels[canvas.handle := a.n] else s.pixels;
      (MemoState(s.entries[a := canvas], s.nextHandle + 1, pixels'), canvas)
  }

  /** Asking twice for the same id: the second call returns the same canvas and changes nothing. */
  lemma LookupIdempotent(s: MemoState, a: AssetId)
    ensures Lookup(Lookup(s, a).0, a) == Lookup(s, a)
  {
  }

  /**
   * `makeCanvas` keeps the memo consistent: a canvas memoised under id `n`
   * shows tile `((n % 94) * 100, floor(n / 94) * 100)`, and different ids
   * never share a canvas.
   */
  lemma LookupKeepsConsistent(s: MemoState, a: AssetId)
    requires Consistent(s)
    ensures Consistent(Lookup(s, a).0)
  {
    var (t, canvas) := Lookup(s, a);
    if a !in s.entries {
      forall b | b in t.entries
        ensures Painted(t, t.entries[b]) == if b.Id? then Some(b.n) else None
      {
        if b != a {
          assert t.entries[b].handle < s.nextHandle;
        }
      }
    }
  }

  /** In a consistent memo, the canvas memoised under an id shows exactly that id's 100-pixel tile. */
  lemma MemoisedTile(s: MemoState, a: AssetId)
    requires Consistent(s) && a in s.entries
    ensures Shown(s, s.entries[a]) == DrawnRect(a, THUMB_SIZE)
  {
  }

  /** Consecutive `makeCanvas` calls: the final state and the canvases returned, in call order. */
  function LookupAll(s: MemoState, assets: seq<AssetId>): (r: (MemoState, seq<Canvas>))
    ensures |r.1| == |assets|
    decreases |assets|
  {
    if assets == [] then (s, [])
    else
      var before := LookupAll(s, assets[..|assets| - 1]);
      var last := Lookup(before.0, assets[|assets| - 1]);
      (last.0, before.1 + [last.1])
  }

  /**
   * After consecutive calls the memo holds exactly the old ids and the ids
   * asked for, and every old entry is unchanged.
   */
  lemma {:induction false} LookupAllGrows(s: MemoState, assets: seq<AssetId>)
    ensures LookupAll(s, assets).0.entries.Keys == s.entries.Keys + set a | a in assets
    ensures forall b :: b in s.entries ==> b in LookupAll(s, assets).0.entries && LookupAll(s, assets).0.entries[b] == s.entries[b]
    decreases |assets|
  {
    if assets != [] {
      var front := assets[..|assets| - 1];
      LookupAllGrows(s, front);
      assert (set x | x in assets) == (set x | x in front) + {assets[|assets| - 1]} by {
        assert assets == front + [assets[|assets| - 1]];
      }
    }
  }

  /** Each call of a run returns the canvas the memo finally holds under its id. */
  lemma {:induction false} LookupAllReturnsEntries(s: MemoState, assets: seq<AssetId>)
    ensures forall k :: 0 <= k < |assets| ==>
      assets[k] in LookupAll(s, assets).0.entries && LookupAll(s, assets).1[k] == LookupAll(s, assets).0.entries[assets[k]]
    decreases |assets|
  {
    if assets != [] {
      var front := assets[..|assets| - 1];
      LookupAllReturnsEntries(s, front);
      var u, ds := LookupAll(s, front).0, LookupAll(s, front).1;
      var t, cs := LookupAll(s, assets).0, LookupAll(s, assets).1;
      forall k | 0 <= k < |assets| ensures assets[k] in t.entries && cs[k] == t.entries[assets[k]] {
        if k < |front| {
          assert assets[k] == front[k] && cs[k] == ds[k];
        }
      }
    }
  }

  lemma {:induction false} LookupAllKeepsConsistent(s: MemoState, assets: seq<AssetId>)
    requires Consistent(s)
    ensures Consistent(LookupAll(s, assets).0)
    decreases |assets|
  {
    if assets != [] {
      LookupAllKeepsConsistent(s, assets[..|assets| - 1]);
      LookupKeepsConsistent(LookupAll(s, assets[..|assets| - 1]).0, assets[|assets| - 1]);
    }
  }

  /**
   * Starting from a consistent memo, two calls of a run return the same
   * canvas exactly when they ask for the same id.
   */
  lemma SameCanvasIffSameAsset(s: MemoState, assets: seq<AssetId>, i: nat, j: nat)
    requires Consistent(s) && i < |assets| && j < |assets|
    ensures LookupAll(s, assets).1[i] == LookupAll(s, assets).1[j] <==> assets[i] == assets[j]
  {
    LookupAllReturnsEntries(s, assets);
    LookupAllKeepsConsistent(s, assets);
    var t := LookupAll(s, assets).0;
    assert assets[i] in t.entries && assets[j] in t.entries;
  }

  /** `CACHE` and the canvas allocator as one object; `makeCanvas` is its method. */
  class ThumbnailCanvases {
    /** `CACHE` */
    var cache: map<AssetId, Canvas>
    /** Number of canvases `document.createElement` has produced. */
    var nextHandle: nat
    /** The asset id whose tile was drawn into each canvas. */
    var pixels: map<nat, nat>

    function State(): MemoState
      reads this
    {
      MemoState(cache, nextHandle, pixels)
    }

    ghost predicate Valid()
      reads this
    {
      Consistent(State())
    }

    constructor ()
      ensures Valid() && State() == EMPTY
    {
      cache, nextHandle, pixels := map[], 0, map[];
    }

    /** `makeCanvas(asset_id, image)` */
    method MakeCanvas(asset: AssetId) returns (canvas: Canvas)
      requires Valid()
      modifies this
      ensures Valid()
      ensures (State(), canvas) == Lookup(old(State()), asset)
    {
      LookupKeepsConsistent(State(), asset);
      if asset in cache {
        return cache[asset];
      }
      canvas := Canvas(nextHandle, THUMB_SIZE, THUMB_SIZE);
      nextHandle := nextHandle + 1;
      if asset.Id? {
        pixels := pixels[canvas.handle := asset.n];
      }
      cache := cache[asset := canvas];
    }
  }
}
