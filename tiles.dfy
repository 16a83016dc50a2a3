/**
 * Tile addressing in the thumbnail sprite sheet. The sheet is a grid of
 * square tiles, 94 per row, laid out row-major by asset id; the datagrid
 * plugin reads 50-pixel tiles (src/custom_datagrid.ts) and the React shell
 * 100-pixel tiles (src/index.tsx), both with the same 94-per-row formula.
 */
module Tiles {
  import opened Common

  /** Tiles per row of the sheet: asset `id` sits in column `id % 94` and row `id / 94`. */
  const TILES_PER_ROW: nat := 94

  /** An asset id after JavaScript's number coercion: a natural number, or NaN for non-numeric text. */
  datatype AssetId = Id(n: nat) | NaN

  /** A rectangle of the sheet: top-left corner and size, in pixels. */
  datatype Rect = Rect(sx: nat, sy: nat, width: nat, height: nat)

  /** A drawing surface (an HTML canvas), seen as an opaque handle and its pixel size. */
  datatype Canvas = Canvas(handle: nat, width: nat, height: nat)

  lemma MulDivExact(k: nat, size: nat)
    requires size > 0
    ensures (k * size) / size == k && (k * size) % size == 0
  {
    var q, m := (k * size) / size, (k * size) % size;
    assert (k - q) * size == m by {
      assert k * size == q * size + m;
    }
    MulAtLeast(k - q, size);
    MulAtLeast(q - k, size);
  }

  lemma MulAtLeast(d: int, size: nat)
    ensures d >= 1 ==> d * size >= size
  {
  }

  lemma MulMonotone(a: nat, b: nat, size: nat)
    requires a < b && size > 0
    ensures a * size < b * size
  {
  }

  /** The source rectangle of a tile: `((id % 94) * size, floor(id / 94) * size)`, `size` pixels square. */
  function SourceRect(id: nat, size: nat): (r: Rect)
    ensures r.width == size && r.height == size
  {
    Rect((id % TILES_PER_ROW) * size, (id / TILES_PER_ROW) * size, size, size)
  }

  /** The asset id whose tile starts at the corner of `r`. */
  function TileIndex(r: Rect, size: nat): nat
    requires size > 0
  {
    (r.sy / size) * TILES_PER_ROW + r.sx / size
  }

  /**
   * A tile's corner is on the tile grid and inside the 94 columns, and the
   * id can be read back from it, so no two ids share a tile.
   */
  lemma SourceRectInverse(id: nat, size: nat)
    requires size > 0
    ensures SourceRect(id, size).sx < TILES_PER_ROW * size
    ensures SourceRect(id, size).sx % size == 0 && SourceRect(id, size).sy % size == 0
    ensures TileIndex(SourceRect(id, size), size) == id
  {
    var col, row := id % TILES_PER_ROW, id / TILES_PER_ROW;
    MulDivExact(col, size);
    MulDivExact(row, size);
    MulMonotone(col, TILES_PER_ROW, size);
  }

  /** The tile drawn for a coerced asset id; `drawImage` with NaN coordinates draws nothing. */
  function DrawnRect(a: AssetId, size: nat): (r: Option<Rect>)
    ensures r.Some? <==> a.Id?
    ensures a.Id? ==> r.value == SourceRect(a.n, size)
    ensures r.Some? && size > 0 ==> r.value.sx < TILES_PER_ROW * size && TileIndex(r.value, size) == a.n
  {
    match a
    case Id(n) =>
      if size > 0 then
        SourceRectInverse(n, size);
        Some(SourceRect(n, size))
      else Some(SourceRect(n, size))
    case NaN => None
  }

  /** Different assets never read the same tile. */
  lemma SourceRectInjective(a: nat, b: nat, size: nat)
    requires size > 0 && a != b
    ensures SourceRect(a, size) != SourceRect(b, size)
  {
    SourceRectInverse(a, size);
    SourceRectInverse(b, size);
  }

  lemma DivModUnique(row: nat, col: nat)
    requires col < TILES_PER_ROW
    ensures (row * TILES_PER_ROW + col) % TILES_PER_ROW == col
    ensures (row * TILES_PER_ROW + col) / TILES_PER_ROW == row
  {
  }

  /** Every tile-aligned square inside the 94 columns is the source rectangle of exactly its own index. */
  lemma {:induction false} TileIndexRoundTrip(r: Rect, size: nat)
    requires size > 0 && r.width == size && r.height == size
    requires r.sx % size == 0 && r.sy % size == 0 && r.sx < TILES_PER_ROW * size
    ensures SourceRect(TileIndex(r, size), size) == r
  {
    var col, row := r.sx / size, r.sy / size;
    assert col * size == r.sx && row * size == r.sy;
    if col >= TILES_PER_ROW {
      MulMonotone(TILES_PER_ROW, col + 1, size);
      assert false;
    }
    DivModUnique(row, col);
    assert (row * TILES_PER_ROW + col) % TILES_PER_ROW * size == r.sx;
  }

  /** The boundary ids of the first two rows, with 50-pixel tiles. */
  lemma RowBoundaries()
    ensures SourceRect(0, 50) == Rect(0, 0, 50, 50)
    ensures SourceRect(93, 50) == Rect(4650, 0, 50, 50)
    ensures SourceRect(94, 50) == Rect(0, 50, 50, 50)
    ensures SourceRect(187, 50) == Rect(4650, 50, 50, 50)
  {
  }
}
