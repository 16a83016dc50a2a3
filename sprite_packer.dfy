/**
 * The layout pass of the sprite-sheet builder (`process_images` in
 * scripts/image_fetcher.py).
 *
 * The builder lists the image directory, sorts the names by the number
 * before `.png` (other names sort first, with key -1), and pastes each
 * readable `<id>.png`, shrunk to 50x50, at a cursor that advances 50 pixels
 * to the right and wraps to the next 50-pixel line once it reaches the
 * sheet's width of 4700 = 94 * 50 pixels. It records each tile's box in
 * `lookup`, raises on a repeated id, and stops once the cursor's line lies
 * below the sheet's height. The directory listing, and whether each file
 * opens, are inputs; the pixels and the files written are not modelled.
 */
module SpritePacker {
  import opened Common
  import opened Strings
  import opened Tiles

  /** `WIDTH = int(18800 / 4)` */
  const WIDTH: nat := 4700

  /** `HEIGHT = int(19000 / 4)` */
  const HEIGHT: nat := 4750

  /** Side of a pasted tile, and the cursor's step. */
  const TILE: nat := 50

  const PNG: string := ".png"

  /** A directory entry, and whether PIL opens and resizes it without raising `OSError`. */
  datatype ImageFile = ImageFile(name: string, readable: bool)

  /** A `lookup` value `[x0, x1, y0, y1]`: the tile's left, right, top and bottom edges. */
  datatype Box = Box(x0: nat, x1: nat, y0: nat, y1: nat)

  /** Why `process_images` raises: `int()` of a name's prefix fails, or an id comes twice. */
  datatype PackError = BadName(name: string) | Collision(id: nat)

  /** `int(name.split(".png")[0])`: the asset id of a png name, or `None` where `int()` raises. */
  function AssetIdOf(name: string): Option<nat> {
    ParseDecimal(BeforeFirst(name, PNG))
  }

  /**
   * The downloader saves the image of asset `n` as `"{}.png".format(n)`
   * (scripts/image_fetcher.py:88); such a file name reads back as `n`.
   */
  lemma SavedNameReadsBack(n: nat)
    ensures Contains(Decimal(n) + PNG, PNG)
    ensures AssetIdOf(Decimal(n) + PNG) == Some(n)
  {
    BeforeFirstAfterDigits(Decimal(n), PNG);
    DecimalRoundTrip(n);
  }

  /** The sort key: `int(name.split(".png")[0]) if ".png" in name else -1`; `None` where `int()` raises. */
  function SortKey(name: string): (r: Option<int>)
    ensures !Contains(name, PNG) ==> r == Some(-1)
    ensures Contains(name, PNG) ==> (r.Some? <==> AssetIdOf(name).Some?)
    ensures Contains(name, PNG) && r.Some? ==> r.value >= 0 && r.value == AssetIdOf(name).value
  {
    if Contains(name, PNG) then
      match AssetIdOf(name)
      case Some(n) => Some(n as int)
      case None => None
    else Some(-1 as int)
  }

  /** A listed file with its sort key. */
  datatype Keyed = Keyed(file: ImageFile, key: int)

  /**
   * The keys `list.sort` computes, one per file in listing order, before it
   * moves anything; the first name whose key raises aborts the run.
   */
  function KeyAll(listing: seq<ImageFile>): (r: Result<seq<Keyed>, PackError>)
    ensures r.Ok? ==> |r.value| == |listing|
    ensures r.Ok? ==> forall i :: 0 <= i < |listing| ==>
              r.value[i].file == listing[i] && SortKey(listing[i].name) == Some(r.value[i].key)
  {
    if listing == [] then Ok([])
    else
      match SortKey(listing[0].name)
      case None => Err(BadName(listing[0].name))
      case Some(k) =>
        match KeyAll(listing[1..])
        case Err(e) => Err(e)
        case Ok(rest) => Ok([Keyed(listing[0], k)] + rest)
  }

  /** Keying fails exactly when some name's key raises, and reports the first such name. */
  lemma {:induction false} KeyAllError(listing: seq<ImageFile>)
    ensures KeyAll(listing).Err? <==> exists i :: 0 <= i < |listing| && SortKey(listing[i].name).None?
    ensures KeyAll(listing).Err? ==>
              exists i :: (&& 0 <= i < |listing| && SortKey(listing[i].name).None?
                           && KeyAll(listing).error == BadName(listing[i].name)
                           && forall j :: 0 <= j < i ==> SortKey(listing[j].name).Some?)
    decreases |listing|
  {
    if listing != [] && SortKey(listing[0].name).Some? {
      var tail := listing[1..];
      KeyAllError(tail);
      assert forall j :: 0 <= j < |tail| ==> tail[j] == listing[j + 1];
      if KeyAll(tail).Err? {
        var i :| (&& 0 <= i < |tail| && SortKey(tail[i].name).None?
                  && KeyAll(tail).error == BadName(tail[i].name)
                  && forall j :: 0 <= j < i ==> SortKey(tail[j].name).Some?);
        assert SortKey(listing[i + 1].name).None?;
        forall j | 0 <= j < i + 1 ensures SortKey(listing[j].name).Some? {
          if j > 0 {
            assert listing[j] == tail[j - 1];
          }
        }
      } else {
        forall i | 0 <= i < |listing| ensures SortKey(listing[i].name).Some? {
          if i > 0 {
            assert listing[i] == tail[i - 1];
          }
        }
      }
    }
  }

  /** Keys never decrease along `s`. */
  predicate SortedByKey(s: seq<Keyed>) {
    forall i, j :: 0 <= i < j < |s| ==> s[i].key <= s[j].key
  }

  /** `x` placed before the first element of `s` whose key is at least its own. */
  function Insert(x: Keyed, s: seq<Keyed>): (r: seq<Keyed>)
    ensures |r| == |s| + 1
  {
    if s == [] then [x]
    else if x.key <= s[0].key then [x] + s
    else
      assert s == [s[0]] + s[1..];
      [s[0]] + Insert(x, s[1..])
  }

  /** `list.sort(key=...)`: a stable sort by key, here by insertion. */
  function SortByKey(s: seq<Keyed>): (r: seq<Keyed>)
    ensures |r| == |s|
  {
    if s == [] then []
    else
      assert s == [s[0]] + s[1..];
      Insert(s[0], SortByKey(s[1..]))
  }

  lemma {:induction false} InsertPermutes(x: Keyed, s: seq<Keyed>)
    ensures multiset(Insert(x, s)) == multiset(s) + multiset{x}
    decreases |s|
  {
    if s != [] && x.key > s[0].key {
      InsertPermutes(x, s[1..]);
      assert s == [s[0]] + s[1..];
    }
  }

  /** The sort only reorders: its result is a permutation of its input. */
  lemma {:induction false} SortByKeyPermutes(s: seq<Keyed>)
    ensures multiset(SortByKey(s)) == multiset(s)
    decreases |s|
  {
    if s != [] {
      SortByKeyPermutes(s[1..]);
      InsertPermutes(s[0], SortByKey(s[1..]));
      assert s == [s[0]] + s[1..];
    }
  }

  lemma {:induction false} InsertSorted(x: Keyed, s: seq<Keyed>)
    requires SortedByKey(s)
    ensures SortedByKey(Insert(x, s))
    decreases |s|
  {
    if s != [] && x.key > s[0].key {
      var tail := s[1..];
      InsertSorted(x, tail);
      InsertPermutes(x, tail);
      var r := Insert(x, tail);
      forall k | 0 <= k < |r| ensures s[0].key <= r[k].key {
        assert r[k] in multiset(tail) + multiset{x};
        if r[k] != x {
          assert r[k] in multiset(tail);
          var m :| 0 <= m < |tail| && tail[m] == r[k];
          assert tail[m] == s[m + 1];
        }
      }
      PrependSorted(s[0], r);
    }
  }

  /** A file whose key is at most every key of `s`, put in front of `s`. */
  lemma PrependSorted(x: Keyed, s: seq<Keyed>)
    requires SortedByKey(s) && forall m :: 0 <= m < |s| ==> x.key <= s[m].key
    ensures SortedByKey([x] + s)
  {
    var t := [x] + s;
    forall a, b | 0 <= a < b < |t| ensures t[a].key <= t[b].key {
      assert t[b] == s[b - 1];
      if a > 0 {
        assert t[a] == s[a - 1];
      }
    }
  }

  /** The sort's result is ordered by key. */
  lemma {:induction false} SortByKeySorted(s: seq<Keyed>)
    ensures SortedByKey(SortByKey(s))
    decreases |s|
  {
    if s != [] {
      SortByKeySorted(s[1..]);
      InsertSorted(s[0], SortByKey(s[1..]));
    }
  }

  /** Keys strictly increase along `s`. */
  predicate StrictlyByKey(s: seq<Keyed>) {
    forall i, j :: 0 <= i < j < |s| ==> s[i].key < s[j].key
  }

  /** A file whose key is below every key of `s`, put in front of `s`. */
  lemma PrependStrictly(x: Keyed, s: seq<Keyed>)
    requires StrictlyByKey(s) && forall m :: 0 <= m < |s| ==> x.key < s[m].key
    ensures StrictlyByKey([x] + s)
  {
    var t := [x] + s;
    forall a, b | 0 <= a < b < |t| ensures t[a].key < t[b].key {
      assert t[b] == s[b - 1];
      if a > 0 {
        assert t[a] == s[a - 1];
      }
    }
  }

  lemma {:induction false} InsertStrictly(x: Keyed, s: seq<Keyed>)
    requires StrictlyByKey(s) && forall m :: 0 <= m < |s| ==> s[m].key != x.key
    ensures StrictlyByKey(Insert(x, s))
    decreases |s|
  {
    if s == [] {
    } else if x.key <= s[0].key {
      forall m | 0 <= m < |s| ensures x.key < s[m].key {
        if m > 0 {
          assert s[0].key < s[m].key;
        }
      }
      PrependStrictly(x, s);
    } else {
      var tail := s[1..];
      InsertStrictly(x, tail);
      InsertPermutes(x, tail);
      var r := Insert(x, tail);
      forall k | 0 <= k < |r| ensures s[0].key < r[k].key {
        assert r[k] in multiset(tail) + multiset{x};
        if r[k] != x {
          assert r[k] in multiset(tail);
          var m :| 0 <= m < |tail| && tail[m] == r[k];
          assert tail[m] == s[m + 1];
        }
      }
      PrependStrictly(s[0], r);
    }
  }

  /** When no two files share a key, the sort's result has strictly increasing keys. */
  lemma {:induction false} SortByKeyStrictly(s: seq<Keyed>)
    requires forall i, j :: 0 <= i < j < |s| ==> s[i].key != s[j].key
    ensures StrictlyByKey(SortByKey(s))
    decreases |s|
  {
    if s != [] {
      var tail := s[1..];
      SortByKeyStrictly(tail);
      SortByKeyPermutes(tail);
      var r := SortByKey(tail);
      forall m | 0 <= m < |r| ensures r[m].key != s[0].key {
        assert r[m] in multiset(tail);
        var h :| 0 <= h < |tail| && tail[h] == r[m];
        assert tail[h] == s[h + 1];
      }
      InsertStrictly(s[0], r);
    }
  }

  lemma {:induction false} KeyAtLeast(r: seq<Keyed>, i: nat)
    requires StrictlyByKey(r) && i < |r| && forall j :: 0 <= j < |r| ==> 0 <= r[j].key
    ensures r[i].key >= i
    decreases i
  {
    if i > 0 {
      KeyAtLeast(r, i - 1);
    }
  }

  lemma {:induction false} KeyAtMost(r: seq<Keyed>, i: nat)
    requires StrictlyByKey(r) && i < |r| && forall j :: 0 <= j < |r| ==> r[j].key < |r|
    ensures r[i].key <= i
    decreases |r| - i
  {
    if i + 1 < |r| {
      KeyAtMost(r, i + 1);
    }
  }

  /** `n` strictly increasing keys, all in `[0, n)`, are `0, 1, ..., n-1`. */
  lemma KeysCountUp(r: seq<Keyed>)
    requires StrictlyByKey(r) && forall j :: 0 <= j < |r| ==> 0 <= r[j].key < |r|
    ensures forall i :: 0 <= i < |r| ==> r[i].key == i
  {
    forall i | 0 <= i < |r| ensures r[i].key == i {
      KeyAtLeast(r, i);
      KeyAtMost(r, i);
    }
  }

  /** The elements of `s` with key `k`, in order. */
  function WithKey(s: seq<Keyed>, k: int): (r: seq<Keyed>)
    ensures |r| <= |s|
  {
    if s == [] then []
    else (if s[0].key == k then [s[0]] else []) + WithKey(s[1..], k)
  }

  lemma {:induction false} InsertWithKey(x: Keyed, s: seq<Keyed>, k: int)
    ensures WithKey(Insert(x, s), k) == (if x.key == k then [x] else []) + WithKey(s, k)
    decreases |s|
  {
    if s == [] {
      assert [x][1..] == [];
    } else if x.key <= s[0].key {
      assert ([x] + s)[1..] == s;
    } else {
      var r := Insert(x, s[1..]);
      InsertWithKey(x, s[1..], k);
      assert ([s[0]] + r)[1..] == r;
      if x.key == k {
        assert WithKey([s[0]] + r, k) == WithKey(r, k);
        assert WithKey(s, k) == WithKey(s[1..], k);
      } else {
        assert WithKey(r, k) == WithKey(s[1..], k);
      }
    }
  }

  /** Stability: files with equal keys keep their listing order. */
  lemma {:induction false} SortByKeyStable(s: seq<Keyed>, k: int)
    ensures WithKey(SortByKey(s), k) == WithKey(s, k)
    decreases |s|
  {
    if s != [] {
      SortByKeyStable(s[1..], k);
      InsertWithKey(s[0], SortByKey(s[1..]), k);
    }
  }

  /** Names without `.png` come first in the sorted order. */
  lemma NonPngFirst(s: seq<Keyed>, i: nat, j: nat)
    requires forall k :: 0 <= k < |s| ==> SortKey(s[k].file.name) == Some(s[k].key)
    requires i < |s| && j < |s|
    requires !Contains(SortByKey(s)[i].file.name, PNG) && Contains(SortByKey(s)[j].file.name, PNG)
    ensures i < j
  {
    var r := SortByKey(s);
    SortByKeySorted(s);
    SortByKeyPermutes(s);
    assert r[i] in multiset(s) && r[j] in multiset(s);
    var a :| 0 <= a < |s| && s[a] == r[i];
    var b :| 0 <= b < |s| && s[b] == r[j];
    assert r[i].key < r[j].key;
    assert i != j;
  }

  /** The files in sorted order: `inputs` after `inputs.sort(...)`. */
  function FilesOf(s: seq<Keyed>): (r: seq<ImageFile>)
    ensures |r| == |s| && forall i :: 0 <= i < |s| ==> r[i] == s[i].file
  {
    seq(|s|, i requires 0 <= i < |s| => s[i].file)
  }

  /** The loop's variables `x`, `y` and `lookup`, and the ids placed so far, in order. */
  datatype Cursor = Cursor(x: nat, y: nat, lookup: map<nat, Box>, placed: seq<nat>)

  /** The loop between two files: still going, left by `break`, or left by an exception. */
  datatype Run = Running(c: Cursor) | Stopped(c: Cursor) | Raised(error: PackError)

  const START: Cursor := Cursor(0, 0, map[], [])

  /** The box at the cursor after the wrap test: the next line once the cursor has reached the right edge. */
  function AdvanceBox(c: Cursor): Box {
    if WIDTH - c.x == 0 then Box(0, TILE, c.y + TILE, c.y + 2 * TILE)
    else Box(c.x, c.x + TILE, c.y, c.y + TILE)
  }

  /** Recording `id` in the box at the cursor after the wrap test, and moving right by one tile. */
  function Advance(c: Cursor, id: nat): Cursor {
    var b := AdvanceBox(c);
    Cursor(b.x1, b.y0, c.lookup[id := b], c.placed + [id])
  }

  /**
   * One iteration of the loop, in the source's order: skip a name without
   * `.png`, skip a file that raises `OSError`, stop when `HEIGHT - y < 0`,
   * wrap to the next line when `WIDTH - x == 0`, read the id, raise on a
   * repeat, record the box and move right by one tile.
   */
  function Step(c: Cursor, f: ImageFile): Run {
    if !Contains(f.name, PNG) then Running(c)
    else if !f.readable then Running(c)
    else if HEIGHT - c.y < 0 then Stopped(c)
    else
      match AssetIdOf(f.name)
      case None => Raised(BadName(f.name))
      case Some(id) =>
        if id in c.lookup then Raised(Collision(id))
        else Running(Advance(c, id))
  }

  /** The loop over the first files of `inputs`. */
  function Layout(inputs: seq<ImageFile>): Run {
    if inputs == [] then Running(START)
    else
      match Layout(inputs[..|inputs| - 1])
      case Running(c) => Step(c, inputs[|inputs| - 1])
      case other => other
  }

  /** `process_images`: the final `lookup`, or the exception it raises. */
  function Process(listing: seq<ImageFile>): Result<map<nat, Box>, PackError> {
    match KeyAll(listing)
    case Err(e) => Err(e)
    case Ok(keyed) =>
      match Layout(FilesOf(SortByKey(keyed)))
      case Raised(e) => Err(e)
      case Running(c) => Ok(c.lookup)
      case Stopped(c) => Ok(c.lookup)
  }

  /** Where the cursor stands after `k` placements. */
  function CursorAfter(k: nat): (nat, nat) {
    if k == 0 then (0, 0)
    else (((k - 1) % TILES_PER_ROW + 1) * TILE, ((k - 1) / TILES_PER_ROW) * TILE)
  }

  /** The box of tile `k` of the 50-pixel sheet, as the grid plugin reads it. */
  function SheetBox(k: nat): (b: Box)
    ensures b.x1 == b.x0 + TILE && b.y1 == b.y0 + TILE
    ensures b.x0 == SourceRect(k, TILE).sx && b.y0 == SourceRect(k, TILE).sy
    ensures b.x1 <= WIDTH && TileIndex(Rect(b.x0, b.y0, TILE, TILE), TILE) == k
  {
    SourceRectInverse(k, TILE);
    var r := SourceRect(k, TILE);
    Box(r.sx, r.sx + TILE, r.sy, r.sy + TILE)
  }

  /**
   * The cursor arithmetic: placement `k` (from 0), made after the wrap test
   * on the cursor left by the previous `k`, lands on tile `k` of the sheet
   * at `((k % 94) * 50, floor(k / 94) * 50)`, and leaves the cursor one tile
   * to its right.
   */
  lemma CursorStep(k: nat)
    ensures var (x, y) := CursorAfter(k);
      var wrap := WIDTH - x == 0;
      var x' := if wrap then 0 else x;
      var y' := if wrap then y + TILE else y;
      && SheetBox(k) == Box(x', x' + TILE, y', y' + TILE)
      && CursorAfter(k + 1) == (x' + TILE, y')
  {
    if k > 0 {
      var q, m := (k - 1) / TILES_PER_ROW, (k - 1) % TILES_PER_ROW;
      if m == TILES_PER_ROW - 1 {
        DivModUnique(q + 1, 0);
        assert k == (q + 1) * TILES_PER_ROW + 0;
      } else {
        DivModUnique(q, m + 1);
        assert k == q * TILES_PER_ROW + (m + 1);
      }
    }
  }

  /** The cursor's line is inside the stop test's bound only for the first 9025 placements. */
  lemma CursorBound(k: nat)
    ensures HEIGHT - CursorAfter(k).1 >= 0 <==> k <= 9024
  {
  }

  /** Tile `k` starts at or below the bottom edge of the 4700x4750 sheet exactly from `k = 8930` on. */
  lemma OffSheet(k: nat)
    ensures SheetBox(k).y0 >= HEIGHT <==> k >= 8930
    ensures SheetBox(k).x1 <= WIDTH
  {
    SourceRectInverse(k, TILE);
  }

  /**
   * What the loop keeps: the cursor stands after the placements made, the
   * placed ids are distinct and are exactly `lookup`'s keys, and placement
   * `j` recorded the box of tile `j` of the sheet.
   */
  ghost predicate Placed(c: Cursor) {
    && (c.x, c.y) == CursorAfter(|c.placed|)
    && c.lookup.Keys == Elements(c.placed)
    && (forall i, j :: 0 <= i < j < |c.placed| ==> c.placed[i] != c.placed[j])
    && (forall j :: 0 <= j < |c.placed| ==> c.placed[j] in c.lookup && c.lookup[c.placed[j]] == SheetBox(j))
  }

  /** Whether the loop body reaches `lookup[asset_id] = ...` for file `f`. */
  predicate Places(c: Cursor, f: ImageFile) {
    && Contains(f.name, PNG) && f.readable && HEIGHT - c.y >= 0
    && AssetIdOf(f.name).Some? && AssetIdOf(f.name).value !in c.lookup
  }

  /**
   * An iteration keeps `Placed`. One that places a tile appends the file's
   * id, and can only happen while fewer than 9025 tiles are placed; any
   * other iteration that does not raise leaves the cursor as it was.
   */
  lemma StepKeepsPlaced(c: Cursor, f: ImageFile)
    requires Placed(c)
    ensures Places(c, f) ==> (&& Step(c, f).Running? && Placed(Step(c, f).c)
                              && Step(c, f).c.placed == c.placed + [AssetIdOf(f.name).value]
                              && |c.placed| <= 9024)
    ensures !Places(c, f) && !Step(c, f).Raised? ==> Step(c, f).c == c
  {
    if Places(c, f) {
      var id := AssetIdOf(f.name).value;
      assert Step(c, f) == Running(Advance(c, id));
      CursorBound(|c.placed|);
      AdvanceKeepsPlaced(c, id);
    }
  }

  /** Placement `k` records tile `k` of the sheet and leaves the cursor after `k + 1` placements. */
  lemma AdvanceAt(c: Cursor, id: nat)
    requires (c.x, c.y) == CursorAfter(|c.placed|)
    ensures var k := |c.placed|;
      Advance(c, id) == Cursor(CursorAfter(k + 1).0, CursorAfter(k + 1).1, c.lookup[id := SheetBox(k)], c.placed + [id])
  {
    CursorStep(|c.placed|);
  }

  /** Placing a new id at the cursor keeps `Placed`. */
  lemma AdvanceKeepsPlaced(c: Cursor, id: nat)
    requires Placed(c) && id !in c.lookup
    ensures Placed(Advance(c, id))
  {
    var k := |c.placed|;
    var d := Advance(c, id);
    AdvanceAt(c, id);
    assert Elements(d.placed) == Elements(c.placed) + {id} by {
      ElementsSnoc(c.placed, id);
    }
    forall j | 0 <= j < |d.placed| ensures d.placed[j] in d.lookup && d.lookup[d.placed[j]] == SheetBox(j) {
      if j < k {
        assert d.placed[j] == c.placed[j];
      } else {
        assert d.placed[j] == id;
      }
    }
    forall i, j | 0 <= i < j < |d.placed| ensures d.placed[i] != d.placed[j] {
      if j == k {
        assert d.placed[i] == c.placed[i];
      } else {
        assert d.placed[i] == c.placed[i] && d.placed[j] == c.placed[j];
      }
    }
  }

  /** An iteration that reaches `lookup[asset_id] = ...` records the id at the cursor. */
  lemma StepPlaces(c: Cursor, f: ImageFile, id: nat)
    requires Contains(f.name, PNG) && f.readable && HEIGHT - c.y >= 0
    requires AssetIdOf(f.name) == Some(id) && id !in c.lookup
    ensures Step(c, f) == Running(Advance(c, id))
  {
  }

  /** The loop over a prefix of the files ran into an exception or a `break`: later files change nothing. */
  lemma {:induction false} LayoutHalts(inputs: seq<ImageFile>, i: nat)
    requires i <= |inputs| && !Layout(inputs[..i]).Running?
    ensures Layout(inputs) == Layout(inputs[..i])
    decreases |inputs| - i
  {
    if i < |inputs| {
      assert inputs[..i + 1][..i] == inputs[..i];
      LayoutHalts(inputs, i + 1);
    } else {
      assert inputs[..i] == inputs;
    }
  }

  /** One more iteration of the loop. */
  lemma LayoutSnoc(inputs: seq<ImageFile>, i: nat)
    requires i < |inputs|
    ensures Layout(inputs[..i + 1]) == match Layout(inputs[..i])
                                       case Running(c) => Step(c, inputs[i])
                                       case other => other
  {
    assert inputs[..i + 1][..i] == inputs[..i];
  }

  /**
   * Wherever the loop is, what it has placed satisfies `Placed`, at most
   * 9025 tiles were placed, and each placed id is that of a readable png
   * file of `inputs`.
   */
  lemma {:induction false} LayoutPlaced(inputs: seq<ImageFile>)
    requires !Layout(inputs).Raised?
    ensures Placed(Layout(inputs).c)
    ensures |Layout(inputs).c.placed| <= 9025
    ensures forall id :: id in Layout(inputs).c.placed ==>
              exists f :: f in inputs && f.readable && Contains(f.name, PNG) && AssetIdOf(f.name) == Some(id)
    decreases |inputs|
  {
    if inputs != [] {
      var front := inputs[..|inputs| - 1];
      var f := inputs[|inputs| - 1];
      LayoutPlaced(front);
      var c := Layout(front).c;
      if Layout(front).Running? {
        StepKeepsPlaced(c, f);
        forall id | id in Layout(inputs).c.placed
          ensures exists g :: g in inputs && g.readable && Contains(g.name, PNG) && AssetIdOf(g.name) == Some(id)
        {
          if id in c.placed {
            var g :| g in front && g.readable && Contains(g.name, PNG) && AssetIdOf(g.name) == Some(id);
            assert g in inputs;
          } else {
            assert f in inputs;
          }
        }
      }
    }
  }

  /**
   * What the loop has recorded in `lookup`: at most 9025 entries; each the
   * box of the sheet tile of its placement, 50 pixels square and never past
   * the right edge; and no two entries share a box.
   */
  lemma LayoutBoxes(inputs: seq<ImageFile>)
    requires !Layout(inputs).Raised?
    ensures var lookup := Layout(inputs).c.lookup;
      && |lookup| <= 9025
      && (forall id :: id in lookup ==> exists j: nat :: j < 9025 && lookup[id] == SheetBox(j))
      && (forall id :: id in lookup ==> lookup[id].x1 == lookup[id].x0 + TILE <= WIDTH && lookup[id].y1 == lookup[id].y0 + TILE)
      && (forall a, b :: a in lookup && b in lookup && a != b ==> lookup[a] != lookup[b])
  {
    LayoutPlaced(inputs);
    var c := Layout(inputs).c;
    PlacedCount(c);
    PlacedOnSheet(c);
    PlacedDistinctBoxes(c);
  }

  /** `lookup` holds one entry per placement, hence at most 9025 entries. */
  lemma PlacedCount(c: Cursor)
    requires Placed(c) && |c.placed| <= 9025
    ensures |c.lookup| == |c.placed|
    ensures |c.lookup| <= 9025
  {
    DistinctCard(c.placed);
    assert |c.lookup| == |c.lookup.Keys|;
  }

  lemma PlacedOnSheet(c: Cursor)
    requires Placed(c) && |c.placed| <= 9025
    ensures forall id :: id in c.lookup ==> exists j: nat :: j < 9025 && c.lookup[id] == SheetBox(j)
    ensures forall id :: id in c.lookup ==> c.lookup[id].x1 == c.lookup[id].x0 + TILE <= WIDTH && c.lookup[id].y1 == c.lookup[id].y0 + TILE
  {
    forall id | id in c.lookup
      ensures exists j: nat :: j < 9025 && c.lookup[id] == SheetBox(j)
      ensures c.lookup[id].x1 == c.lookup[id].x0 + TILE <= WIDTH
    {
      var j :| 0 <= j < |c.placed| && c.placed[j] == id;
      OffSheet(j);
    }
  }

  lemma PlacedDistinctBoxes(c: Cursor)
    requires Placed(c)
    ensures forall a, b :: a in c.lookup && b in c.lookup && a != b ==> c.lookup[a] != c.lookup[b]
  {
    forall a, b | a in c.lookup && b in c.lookup && a != b ensures c.lookup[a] != c.lookup[b] {
      var i :| 0 <= i < |c.placed| && c.placed[i] == a;
      var j :| 0 <= j < |c.placed| && c.placed[j] == b;
      SheetBoxInjective(i, j);
    }
  }

  /** Different tiles of the sheet have different boxes. */
  lemma SheetBoxInjective(i: nat, j: nat)
    requires i != j
    ensures SheetBox(i) != SheetBox(j)
  {
    SourceRectInjective(i, j, TILE);
    assert SourceRect(i, TILE) == Rect(SheetBox(i).x0, SheetBox(i).y0, TILE, TILE);
    assert SourceRect(j, TILE) == Rect(SheetBox(j).x0, SheetBox(j).y0, TILE, TILE);
  }

  /** Sorting only reorders: every file of the sorted list is a file of the listing. */
  lemma SortedFromListing(listing: seq<ImageFile>, f: ImageFile)
    requires KeyAll(listing).Ok? && f in FilesOf(SortByKey(KeyAll(listing).value))
    ensures f in listing
  {
    var keyed := KeyAll(listing).value;
    var sorted := SortByKey(keyed);
    var i :| 0 <= i < |sorted| && sorted[i].file == f;
    SortByKeyPermutes(keyed);
    assert sorted[i] in multiset(keyed);
    var h :| 0 <= h < |keyed| && keyed[h] == sorted[i];
    assert listing[h] == f;
  }

  /**
   * The result of `process_images` when it returns: the layout's bounds
   * hold, and every key is the id of a readable png file of the listing.
   */
  lemma ProcessResult(listing: seq<ImageFile>)
    requires Process(listing).Ok?
    ensures var lookup := Process(listing).value;
      && |lookup| <= 9025
      && (forall id :: id in lookup ==> exists j: nat :: j < 9025 && lookup[id] == SheetBox(j))
      && (forall a, b :: a in lookup && b in lookup && a != b ==> lookup[a] != lookup[b])
      && (forall id :: id in lookup ==>
            exists f :: f in listing && f.readable && Contains(f.name, PNG) && AssetIdOf(f.name) == Some(id))
  {
    var inputs := FilesOf(SortByKey(KeyAll(listing).value));
    assert !Layout(inputs).Raised? && Process(listing).value == Layout(inputs).c.lookup;
    LayoutBoxes(inputs);
    LayoutPlaced(inputs);
    var c := Layout(inputs).c;
    forall id | id in c.lookup
      ensures exists f :: f in listing && f.readable && Contains(f.name, PNG) && AssetIdOf(f.name) == Some(id)
    {
      assert id in c.placed;
      var f :| f in inputs && f.readable && Contains(f.name, PNG) && AssetIdOf(f.name) == Some(id);
      SortedFromListing(listing, f);
    }
  }

  /** The ids of a sequence, as a set. */
  function Elements(ids: seq<nat>): (r: set<nat>)
    ensures forall id :: id in r <==> id in ids
  {
    set id | id in ids
  }

  lemma ElementsSnoc(ids: seq<nat>, id: nat)
    ensures Elements(ids + [id]) == Elements(ids) + {id}
  {
  }

  /** `n` distinct ids form a set of `n` elements. */
  lemma {:induction false} DistinctCard(ids: seq<nat>)
    requires forall i, j :: 0 <= i < j < |ids| ==> ids[i] != ids[j]
    ensures |Elements(ids)| == |ids|
    decreases |ids|
  {
    if ids != [] {
      var front, last := ids[..|ids| - 1], ids[|ids| - 1];
      DistinctCard(front);
      assert ids == front + [last];
      ElementsSnoc(front, last);
      forall i | 0 <= i < |front| ensures front[i] != last {
        assert front[i] == ids[i];
      }
      assert last !in Elements(front);
    }
  }

  /**
   * Producer and consumers agree: when the ids 0, 1, ..., n-1 are placed
   * in that order, `lookup[k]` is the box at `((k % 94) * 50, floor(k / 94) * 50)`,
   * the tile the grid plugin's `makeCanvas` reads for asset `k`.
   */
  lemma ContiguousIdsMatchSheet(listing: seq<ImageFile>, n: nat)
    requires KeyAll(listing).Ok? && !Layout(FilesOf(SortByKey(KeyAll(listing).value))).Raised?
    requires Layout(FilesOf(SortByKey(KeyAll(listing).value))).c.placed == seq(n, k => k)
    ensures Process(listing) == Ok(Layout(FilesOf(SortByKey(KeyAll(listing).value))).c.lookup)
    ensures var lookup := Layout(FilesOf(SortByKey(KeyAll(listing).value))).c.lookup;
      forall k :: 0 <= k < n ==> k in lookup && lookup[k] == Box(SourceRect(k, TILE).sx, SourceRect(k, TILE).sx + TILE,
                                                                SourceRect(k, TILE).sy, SourceRect(k, TILE).sy + TILE)
  {
    var inputs := FilesOf(SortByKey(KeyAll(listing).value));
    LayoutPlaced(inputs);
    var c := Layout(inputs).c;
    forall k | 0 <= k < n ensures k in c.lookup && c.lookup[k] == SheetBox(k) {
      assert c.placed[k] == k;
    }
  }

  /** The files the downloader saves for assets 0 to n-1 (`"{}.png".format(k)`), all readable, in that order. */
  function SavedFiles(n: nat): (r: seq<ImageFile>)
    ensures |r| == n && forall k :: 0 <= k < n ==> r[k] == ImageFile(Decimal(k) + PNG, true)
  {
    seq(n, k requires 0 <= k => ImageFile(Decimal(k) + PNG, true))
  }

  /** The loop over the saved files of assets 0 to n-1, in order, places each of them in turn, for n up to 9025. */
  lemma {:induction false} LayoutSavedFiles(n: nat)
    requires n <= 9025
    ensures Layout(SavedFiles(n)).Running? && Layout(SavedFiles(n)).c.placed == seq(n, k => k)
    decreases n
  {
    if n > 0 {
      var m := n - 1;
      var fs := SavedFiles(n);
      LayoutSavedFiles(m);
      assert fs[..m] == SavedFiles(m);
      LayoutSnoc(fs, m);
      assert fs[..n] == fs;
      LayoutPlaced(SavedFiles(m));
      var c := Layout(SavedFiles(m)).c;
      assert m !in Elements(c.placed);
      CursorBound(m);
      SavedNameReadsBack(m);
      StepPlaces(c, fs[m], m);
      assert c.placed + [m] == seq(n, k => k);
    }
  }

  /** The directory holds the files saved for assets `ids`, all readable, and `ids` is a permutation of 0 to n-1. */
  ghost predicate SavedListing(listing: seq<ImageFile>, ids: seq<nat>) {
    && |listing| == |ids|
    && (forall i :: 0 <= i < |ids| ==> ids[i] < |ids| && listing[i] == ImageFile(Decimal(ids[i]) + PNG, true))
    && (forall i, j :: 0 <= i < j < |ids| ==> ids[i] != ids[j])
  }

  /** Each file of such a listing gets its asset id as its sort key. */
  lemma SavedListingKeys(listing: seq<ImageFile>, ids: seq<nat>)
    requires SavedListing(listing, ids)
    ensures KeyAll(listing).Ok?
    ensures forall i :: 0 <= i < |ids| ==> KeyAll(listing).value[i] == Keyed(listing[i], ids[i])
  {
    forall i | 0 <= i < |ids| ensures SortKey(listing[i].name) == Some(ids[i] as int) {
      SavedNameReadsBack(ids[i]);
    }
    KeyAllError(listing);
  }

  /** Sorting such a listing by key puts the files in the order of their ids, 0 to n-1. */
  lemma SavedListingSorts(listing: seq<ImageFile>, ids: seq<nat>)
    requires SavedListing(listing, ids)
    ensures KeyAll(listing).Ok? && FilesOf(SortByKey(KeyAll(listing).value)) == SavedFiles(|ids|)
  {
    var n := |ids|;
    SavedListingKeys(listing, ids);
    var keyed := KeyAll(listing).value;
    SortByKeyStrictly(keyed);
    SortByKeyPermutes(keyed);
    var r := SortByKey(keyed);
    forall i | 0 <= i < n ensures 0 <= r[i].key < n && r[i].file == ImageFile(Decimal(r[i].key) + PNG, true) {
      assert r[i] in multiset(keyed);
      var h :| 0 <= h < n && keyed[h] == r[i];
    }
    KeysCountUp(r);
  }

  /**
   * Producer and consumers agree on a whole download: when the directory
   * holds the files the downloader saved for assets 0 to n-1, all readable,
   * listed in any order, and n <= 9025, `process_images` returns the
   * `lookup` whose keys are 0 to n-1 and whose entry `k` is the box of tile
   * `k` of the sheet, the tile the grid plugin's `makeCanvas` reads for
   * asset `k` (see `ContiguousIdsMatchSheet` and `SheetBox`).
   */
  lemma SavedListingMatchesSheet(listing: seq<ImageFile>, ids: seq<nat>)
    requires SavedListing(listing, ids) && |ids| <= 9025
    ensures Process(listing) == Ok(map k: nat | k < |ids| :: SheetBox(k))
  {
    SavedListingSorts(listing, ids);
    LayoutSavedLookup(|ids|);
  }

  /** What the loop over the saved files of assets 0 to n-1, in order, leaves in `lookup`. */
  lemma LayoutSavedLookup(n: nat)
    requires n <= 9025
    ensures Layout(SavedFiles(n)).Running?
    ensures Layout(SavedFiles(n)).c.lookup == map k: nat | k < n :: SheetBox(k)
  {
    LayoutSavedFiles(n);
    LayoutPlaced(SavedFiles(n));
    var c := Layout(SavedFiles(n)).c;
    forall k: nat ensures k in c.lookup <==> k < n {
      assert k in c.lookup <==> k in c.placed;
      if k < n {
        assert c.placed[k] == k;
      }
    }
    forall k: nat | k < n ensures c.lookup[k] == SheetBox(k) {
      assert c.placed[k] == k;
    }
  }

  /** `process_images()`, with the directory listing and the readability of each file as input. */
  method ProcessImages(listing: seq<ImageFile>) returns (r: Result<map<nat, Box>, PackError>)
    ensures r == Process(listing)
  {
    var keyed := KeyAll(listing);
    if keyed.Err? {
      return Err(keyed.error);
    }
    var inputs := FilesOf(SortByKey(keyed.value));
    var x: nat, y: nat := 0, 0;
    var lookup: map<nat, Box> := map[];
    ghost var placed: seq<nat> := [];
    ghost var stopped := false;
    assert inputs[..0] == [];
    for i := 0 to |inputs|
      invariant Layout(inputs[..i]) == Running(Cursor(x, y, lookup, placed))
    {
      ghost var c := Cursor(x, y, lookup, placed);
      LayoutSnoc(inputs, i);
      var name := inputs[i].name;
      if !Contains(name, PNG) {
        assert Step(c, inputs[i]) == Running(c);
        continue;
      }
      if !inputs[i].readable {
        assert Step(c, inputs[i]) == Running(c);
        continue;
      }
      var xRemaining := WIDTH - x;
      var yRemaining := HEIGHT - y;
      if yRemaining < 0 {
        assert Step(c, inputs[i]) == Stopped(c);
        LayoutHalts(inputs, i + 1);
        stopped := true;
        break;
      }
      if xRemaining == 0 {
        y := y + TILE;
        x := 0;
      }
      assert Box(x, x + TILE, y, y + TILE) == AdvanceBox(c);
      var assetId := AssetIdOf(name);
      if assetId.None? {
        assert Step(c, inputs[i]) == Raised(BadName(name));
        LayoutHalts(inputs, i + 1);
        return Err(BadName(name));
      }
      var id := assetId.value;
      if id in lookup {
        assert Step(c, inputs[i]) == Raised(Collision(id));
        LayoutHalts(inputs, i + 1);
        return Err(Collision(id));
      }
      lookup := lookup[id := Box(x, x + TILE, y, y + TILE)];
      placed := placed + [id];
      x := x + TILE;
      StepPlaces(c, inputs[i], id);
    }
    if !stopped {
      assert inputs[..|inputs|] == inputs;
    }
    return Ok(lookup);
  }
}
