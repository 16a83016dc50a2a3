# Thumbnail pipeline of pudgy-penguin-perspective

This project models the thumbnail pipeline of the Pudgy Penguins Perspective dashboard and proves properties of it.

- An offline script packs one 50x50 image per asset into a sprite sheet. It records each tile's box in `lookup`.
- Two grid front ends address the sheet by asset id. Tile `id` starts at `((id % 94) * T, floor(id / 94) * T)`.
- Each front end copies that tile onto a canvas placed in a grid cell:
  - The custom datagrid plugin uses `T = 50`. Its canvases come from a per-viewer ring of at most 300 reusable canvases.
  - The React shell uses `T = 100`. Its canvases come from a memo that keeps one canvas per asset forever.

Modules:

- `Common`: `Option` and `Result`.
- `Strings`: the string and number primitives the sources rely on:
  - `includes` / `in`;
  - `split(".png")[0]`;
  - `substring` with its index clamping;
  - `replace(/,/g, "")`;
  - Python `int()` and JavaScript `Number` on digit strings;
  - `Number.parseInt`;
  - `indexOf`;
  - the decimal printing of a number (`"{}".format(n)`, `String(n)`), which the readers invert.
- `Tiles`: asset ids, source rectangles and canvases.
  - A JavaScript asset id is `Id(n)` or `NaN`. `Number` gives NaN for text that is not all digits, and `parseInt` gives NaN for text that does not start with a digit. `drawImage` with NaN coordinates draws nothing.
  - Canvases are abstract handles.
- `GridMeta`: the cell metadata regular-table hands to a style listener, and the schema lookup.
- `ViewerPool`: `makeCanvas` of `src/custom_datagrid.ts`.
  - `VIEWER_CACHE`, `LAST_CANVAS` and `MAX_CACHE` form a ring pool. It is modelled by the spec function `NextCanvas` and a class `ViewerCanvases` whose methods are proved to perform exactly that transition.
  - The invariant `Consistent` keeps:
    - each pool within 300 canvases;
    - each cursor within its pool;
    - every canvas issued, 50x50 and owned by one slot of one viewer;
    - only issued canvases have had a tile drawn into them.
- `Datagrid`: `style_listener` of `src/custom_datagrid.ts`.
  - The header pass that tags timestamp columns.
  - The per-cell classification of the body pass, including the pivot-image branch that ends a row, the image column, and permalink labels.
  - The throw on a pivot cell whose value is null or undefined, which ends the pass.
  - The nested row and cell loops that draw through the ring.
  - The listener registration that rewinds the viewer's cursor first.
- `ThumbnailCache`: the memoising `makeCanvas` of `src/index.tsx`. It is a spec function `Lookup` and a class `ThumbnailCanvases` holding `CACHE`.
- `RenderImage`: the style listener `renderImage` installs in `src/index.tsx`. It covers the pivot-column branch, the `image`-column branch, and the row and cell loops that draw through the memo.
- `SpritePacker`: `process_images` of `scripts/image_fetcher.py`.
  - The sort key, modelled together with the stable sort.
  - The placement loop: cursor, wrap, collision and stop.
  - The proof that placement `k` lands on tile `k` of the sheet, the tile the datagrid reads for asset `k`.

## Model

| member | source | states |
|---|---|---|
| Tiles.SourceRect | src/custom_datagrid.ts:184-186 | the source rectangle of an asset is a `size` x `size` square |
| Tiles.SourceRectInverse | src/custom_datagrid.ts:184-185 | a tile's corner is grid-aligned and within the 94 columns, and the asset id is recovered from it |
| Tiles.SourceRectInjective | src/index.tsx:50-51 | different ids read different tiles |
| Tiles.TileIndexRoundTrip | src/custom_datagrid.ts:184-185 | every grid-aligned square inside the 94 columns is the tile of exactly its own index |
| Tiles.RowBoundaries | src/custom_datagrid.ts:184-185 | ids 0, 93, 94 and 187 map to (0,0), (4650,0), (0,50) and (4650,50) |
| Tiles.DrawnRect | src/custom_datagrid.ts:186 | `drawImage` copies nothing for NaN; for a numeric id it copies a tile inside the 94 columns whose grid position reads back as that id |
| Strings.StripCommas | src/custom_datagrid.ts:41-43 | the result has no comma and keeps every other character with its count |
| Strings.StripCommasAppend | src/custom_datagrid.ts:41-43 | a single character is dropped exactly when it is a comma, and the result for `a + b` is that for `a` followed by that for `b`, so the kept characters stay in order |
| Strings.Substring | src/custom_datagrid.ts:91 | `substring(start, end)` is the slice when in range and clamps to the string's end otherwise |
| Strings.IndexOf | src/custom_datagrid.ts:9 | `indexOf` is -1 exactly when absent, otherwise the first position of the element |
| Strings.ParseIntPrefix | src/index.tsx:111 | `parseInt` fails exactly on text not starting with a digit; otherwise its value is what `int()` reads from the longest digit prefix |
| Strings.ParseIntPrefixDecimal | src/index.tsx:111 | `parseInt` of a number's digits, followed by text not starting with a digit, is that number |
| Strings.ParseDecimal | scripts/image_fetcher.py:101 | `int()` succeeds exactly on a non-empty all-digit string |
| Strings.DecimalRoundTrip | scripts/image_fetcher.py:88 | `int()` of a number printed in decimal is the number |
| Strings.DecimalCanonical | scripts/image_fetcher.py:101 | a digit string without a leading zero is the decimal printing of the value `int()` reads, so `int()` is one-to-one on such strings |
| Strings.BeforeFirstAfterDigits | scripts/image_fetcher.py:101 | for digits followed by a separator that starts with a non-digit, `split(sep)[0]` is the digits |
| Strings.BeforeFirst | scripts/image_fetcher.py:101 | `split(sep)[0]` is the prefix before the first occurrence of `sep`, or the whole string |
| ViewerPool.NextCanvas | src/custom_datagrid.ts:161-191 | the slot is the cursor wrapped to 0 at 300 and is below 300; the cursor ends one past it; a pooled canvas is reused and never replaced; only at the end of the pool is one fresh 50x50 canvas appended; the returned canvas is the one in the slot and shows the asset's tile; other viewers' pools and cursors are unchanged |
| ViewerPool.NextCanvasShowsTile | src/custom_datagrid.ts:183-186 | after a call, the returned canvas shows the asset's 50-pixel tile (NaN leaves it as it was) and every other canvas is unchanged |
| ViewerPool.EmptyIsConsistent | src/custom_datagrid.ts:157-159 | the empty maps satisfy the pool invariant |
| ViewerPool.ConsistentFits | src/custom_datagrid.ts:171-181 | under the invariant each viewer's cursor is within its pool and the pool within 300 |
| ViewerPool.NextCanvasKeepsConsistent | src/custom_datagrid.ts:166-188 | a call keeps the invariant, the canvas it returns belongs to no other viewer, and a canvas it has just created shows the asset's tile or, for NaN, nothing |
| ViewerPool.Rewind | src/custom_datagrid.ts:139 | the reset sets this viewer's cursor to 0 and changes no pool, no other cursor and no canvas |
| ViewerPool.RewindKeepsConsistent | src/custom_datagrid.ts:139 | the reset keeps the invariant |
| ViewerPool.NextCanvases | src/custom_datagrid.ts:161-191 | consecutive calls return one canvas per call, only grow this viewer's pool and leave other viewers alone |
| ViewerPool.NextCanvasesKeepConsistent | src/custom_datagrid.ts:161-191 | consecutive calls keep the invariant and never change what another viewer's canvases show |
| ViewerPool.SlotArithmetic | src/custom_datagrid.ts:171-172 | wrapping at 300 and then adding one is counting modulo 300 |
| ViewerPool.CursorAfterCalls | src/custom_datagrid.ts:171-188 | after n > 0 calls from cursor c the cursor is ((c + n - 1) mod 300) + 1 |
| ViewerPool.CanvasesFollowSlots | src/custom_datagrid.ts:171-188 | call k of a run uses slot (c + k) mod 300 and returns the canvas that ends up in that slot |
| ViewerPool.RefreshUsesSlotModulo | src/custom_datagrid.ts:137-141 | after the listener's reset, the k-th image drawn in a refresh lands on slot k mod 300 |
| ViewerPool.RefreshWrapsAround | src/custom_datagrid.ts:171-172 | within a refresh, call k + 300 returns the same canvas as call k |
| ViewerPool.RefreshSlotsDistinct | src/custom_datagrid.ts:175-181 | within a refresh, calls with different slots get different canvases |
| ViewerPool.ViewerCanvases.MakeCanvas | src/custom_datagrid.ts:161-191 | the method keeps the invariant and performs exactly `NextCanvas` on the two maps |
| ViewerPool.ViewerCanvases.ResetCursor | src/custom_datagrid.ts:139 | the method keeps the invariant and performs exactly `Rewind` |
| Datagrid.MatchColumn | src/custom_datagrid.ts:193-199 | `matchColumn` holds exactly when the column header path is present and ends with the name |
| Datagrid.MatchColumnExclusive | src/custom_datagrid.ts:64-82 | a cell matches at most one column name, so the image test and the link test never both hold |
| Datagrid.PermalinkLabelCases | src/custom_datagrid.ts:84-95 | the label is the url without its first 8 characters; a `googleusercontent` url keeps characters 8 to 30 and gets `...` |
| Datagrid.PermalinkDropsScheme | src/custom_datagrid.ts:90-91 | for an ordinary `https://` url the label is the url without its scheme |
| Datagrid.ShortLabelBounded | src/custom_datagrid.ts:93-95 | a shortened label has at most 25 characters and ends in `...` |
| Datagrid.NumberOf | src/custom_datagrid.ts:41-52 | the comma-free pivot value is a number exactly when it is all digits, and then it is the number `int()` reads; otherwise NaN |
| Datagrid.PivotValueReadsBack | src/custom_datagrid.ts:41-52 | a pivot value whose text, once its commas are stripped, is an asset id in decimal is read back as that id |
| Datagrid.PivotBranch | src/custom_datagrid.ts:35-56 | the pivot branch is taken exactly when the four-part test holds; it throws exactly when the value is null or undefined, and otherwise draws the comma-free value, or skips when nothing is left |
| Datagrid.PivotNeedsImagePivot | src/custom_datagrid.ts:8-9 | a pivot image needs `"image"` among the row pivots at position `row_header_x - 1` |
| Datagrid.ImageColumnFirst | src/custom_datagrid.ts:64-78 | outside the pivot branch an image cell is tagged, never becomes a link, and is drawn exactly when `meta.user` is truthy |
| Datagrid.LinkOnlyInLinkColumns | src/custom_datagrid.ts:79-98 | a link is made only in a `permalink` or `asset_image_url` column, from the cell's text and its label |
| Datagrid.ClassifiedAt | src/custom_datagrid.ts:27-29 | the row's decisions are the per-cell decisions in cell order |
| Datagrid.UpToExit | src/custom_datagrid.ts:41-55 | the actions carried out are a prefix that ends at the first pivot image or throw, if any |
| Datagrid.UpToExitAll | src/custom_datagrid.ts:27 | with no pivot image and no throw, every cell of the row is processed |
| Datagrid.UpToExitAt | src/custom_datagrid.ts:41-55 | with the first pivot image or throw at cell c, exactly cells 0..c are processed |
| Datagrid.RowActionsVisit | src/custom_datagrid.ts:27-56 | the body pass classifies a row's cells in order and leaves the row right after the first pivot image or throw, and only there |
| Datagrid.OneExitPerRow | src/custom_datagrid.ts:41-55 | a processed row holds at most one pivot image or throw, as its last action |
| Datagrid.ReachedRowsAll | src/custom_datagrid.ts:25 | when no row throws, the body pass reaches every row |
| Datagrid.ReachedRowsAt | src/custom_datagrid.ts:35-43 | when row r is the first to throw, the pass reaches rows 0 to r and no further |
| Datagrid.RowTags | src/custom_datagrid.ts:16-21 | a header row is tagged exactly when every cell has metadata with a column header, one timestamp flag per cell |
| Datagrid.HeaderPass | src/custom_datagrid.ts:14-23 | the header pass completes exactly when every header cell is readable, with one flag row per header row |
| Datagrid.HeaderPassTags | src/custom_datagrid.ts:19-20 | each header cell's flag is whether its column's schema type is `date` or `datetime` |
| Datagrid.HeaderTags | src/custom_datagrid.ts:14-23 | the nested header loops compute `HeaderPass` |
| Datagrid.DrawRow | src/custom_datagrid.ts:27-78 | the row loop makes one ring call per drawn cell, in cell order, continuing the refresh's run of calls |
| Datagrid.BodyPass | src/custom_datagrid.ts:25-101 | the row loop processes the rows the pass reaches, each as classified, and the ring makes exactly the calls of their drawn assets in order |
| Datagrid.StyleListener | src/custom_datagrid.ts:4-102 | a header failure leaves the ring alone; otherwise the body pass runs over the rows it reaches |
| Datagrid.OnStyle | src/custom_datagrid.ts:137-141 | the listener rewinds the viewer's cursor and then performs one refresh of the ring over the assets drawn in the rows the pass reaches |
| ThumbnailCache.Lookup | src/index.tsx:46-60 | a hit changes nothing and returns the memoised canvas; a miss stores exactly one fresh 100x100 canvas under the id and returns it; no entry is dropped or replaced |
| ThumbnailCache.LookupIdempotent | src/index.tsx:47-48 | asking twice for one id returns the same canvas and changes nothing the second time |
| ThumbnailCache.EmptyIsConsistent | src/index.tsx:44 | the empty `CACHE` satisfies the memo invariant |
| ThumbnailCache.LookupKeepsConsistent | src/index.tsx:44-60 | a call keeps every memoised canvas showing its own id's tile and unshared |
| ThumbnailCache.MemoisedTile | src/index.tsx:50-56 | the canvas memoised under an id shows exactly that id's 100-pixel tile |
| ThumbnailCache.LookupAllGrows | src/index.tsx:58 | after calls, the memo's ids are the old ids plus the ids asked for, and old entries are unchanged |
| ThumbnailCache.LookupAllReturnsEntries | src/index.tsx:47-59 | each call returns the canvas the memo finally holds under its id |
| ThumbnailCache.LookupAllKeepsConsistent | src/index.tsx:44-60 | consecutive calls keep the memo invariant |
| ThumbnailCache.SameCanvasIffSameAsset | src/index.tsx:44-60 | two calls return the same canvas exactly when they ask for the same id |
| ThumbnailCache.ThumbnailCanvases.MakeCanvas | src/index.tsx:46-60 | the method keeps the invariant and performs exactly `Lookup` on `CACHE` |
| RenderImage.ParseAsset | src/index.tsx:111 | `parseInt` gives NaN exactly for text not starting with a digit, and otherwise the id `parseInt` reads |
| RenderImage.ParseAssetReadsBack | src/index.tsx:111 | an asset id printed in decimal, followed by text not starting with a digit, is read back as that id |
| RenderImage.NoMetaUntouched | src/index.tsx:96 | a cell without metadata draws nothing and keeps its content |
| RenderImage.HeaderRowGetsNoThumbnail | src/index.tsx:100-103 | row 0 never gets a thumbnail; its pivot cell, and only that, is emptied |
| RenderImage.PivotBranchDraws | src/index.tsx:99-114 | the pivot branch draws exactly when its test holds past row 0 and path entry `rpidx + 1` is non-empty, and draws `parseInt` of that entry |
| RenderImage.ColumnBranchDraws | src/index.tsx:116-120 | the image-column branch draws `parseInt(meta.value)` exactly when the header is exactly `["image"]` past row 0, unless the pivot branch skipped the cell; a null or undefined value is drawn as NaN |
| RenderImage.ColumnCanvasWins | src/index.tsx:99-120 | a cell in both branches gets the pivot's canvas and then the column's, and ends up showing the column's asset |
| RenderImage.HeaderRowDrawsNothing | src/index.tsx:89-120 | row 0 makes no memo call |
| RenderImage.Draw | src/index.tsx:113 | one memo call per asset drawn, continuing the run of calls |
| RenderImage.RenderCell | src/index.tsx:93-120 | one cell makes the memo calls of its plan, the pivot's before the column's |
| RenderImage.RenderRow | src/index.tsx:92-121 | the cell loop computes every cell's plan and makes the row's memo calls in order |
| RenderImage.RenderTable | src/index.tsx:89-122 | the listener plans every cell of every row and leaves the memo as the run of all drawn assets leaves it |
| SpritePacker.SavedNameReadsBack | scripts/image_fetcher.py:88-101 | the file the downloader saves for asset n contains `.png` and its name reads back as n |
| SpritePacker.SortKey | scripts/image_fetcher.py:101 | a name without `.png` has key -1; a png name has the non-negative id before `.png`, or raises |
| SpritePacker.KeyAll | scripts/image_fetcher.py:101 | when keying succeeds, each file gets its key, in listing order |
| SpritePacker.KeyAllError | scripts/image_fetcher.py:101 | the sort raises exactly when some name's key raises, naming the first such file |
| SpritePacker.SortByKeySorted | scripts/image_fetcher.py:101 | the sorted list is ordered by key |
| SpritePacker.SortByKeyPermutes | scripts/image_fetcher.py:101 | the sorted list is a permutation of the listing |
| SpritePacker.SortByKeyStable | scripts/image_fetcher.py:101 | files with equal keys keep their listing order |
| SpritePacker.SortByKeyStrictly | scripts/image_fetcher.py:101 | when no two files share a key, the sorted list has strictly increasing keys |
| SpritePacker.KeysCountUp | scripts/image_fetcher.py:101 | n strictly increasing keys, all in [0, n), are 0, 1, ..., n-1 |
| SpritePacker.NonPngFirst | scripts/image_fetcher.py:101 | every name without `.png` sorts before every png name |
| SpritePacker.SheetBox | scripts/image_fetcher.py:131 | the box of placement k is 50 pixels square, ends within the sheet's width, and its corner reads back as tile k |
| SpritePacker.CursorStep | scripts/image_fetcher.py:118-137 | placement k, after the wrap test, records tile k at ((k % 94) * 50, floor(k / 94) * 50) and leaves the cursor one tile to its right |
| SpritePacker.CursorBound | scripts/image_fetcher.py:111-116 | the stop test lets placement k + 1 happen exactly when k <= 9024 |
| SpritePacker.OffSheet | scripts/image_fetcher.py:95-96 | tile k starts below the sheet's bottom edge exactly from k = 8930, and never past its right edge |
| SpritePacker.StepKeepsPlaced | scripts/image_fetcher.py:105-140 | an iteration keeps the placement invariant; a placement appends the file's id; any other iteration that does not raise changes nothing |
| SpritePacker.AdvanceAt | scripts/image_fetcher.py:118-137 | placement k records tile k of the sheet and moves the cursor to its position after k + 1 placements |
| SpritePacker.AdvanceKeepsPlaced | scripts/image_fetcher.py:125-131 | placing a new id keeps ids distinct, keys equal to the placed ids, and each id on its own placement's box |
| SpritePacker.StepPlaces | scripts/image_fetcher.py:105-137 | a readable png file, with room left and a new id, is placed at the cursor |
| SpritePacker.LayoutHalts | scripts/image_fetcher.py:114-128 | after a `break` or an exception, later files change nothing |
| SpritePacker.LayoutPlaced | scripts/image_fetcher.py:105-140 | through the loop the invariant holds, at most 9025 tiles are placed, and every placed id is that of a readable png file |
| SpritePacker.LayoutBoxes | scripts/image_fetcher.py:131 | `lookup` has at most 9025 entries, each the 50x50 box of a sheet tile within the width, and no two share a box |
| SpritePacker.PlacedCount | scripts/image_fetcher.py:127-131 | `lookup` has exactly one entry per placement, hence at most 9025 |
| SpritePacker.PlacedOnSheet | scripts/image_fetcher.py:131 | every `lookup` box is a 50x50 sheet tile that does not pass the right edge |
| SpritePacker.PlacedDistinctBoxes | scripts/image_fetcher.py:127-131 | no two `lookup` entries share a box |
| SpritePacker.SheetBoxInjective | scripts/image_fetcher.py:131 | different placements have different boxes |
| SpritePacker.SortedFromListing | scripts/image_fetcher.py:100-101 | every file of the sorted list is a file of the listing |
| SpritePacker.ProcessResult | scripts/image_fetcher.py:93-149 | a returned `lookup` has at most 9025 entries on distinct sheet tiles, and every key is the id of a readable png file of the listing |
| SpritePacker.ContiguousIdsMatchSheet | scripts/image_fetcher.py:118-137 | when ids 0..n-1 are placed in order, `lookup[k]` is the box at ((k % 94) * 50, floor(k / 94) * 50), the tile the datagrid reads for asset k |
| SpritePacker.SavedListingKeys | scripts/image_fetcher.py:88-101 | the files saved for a permutation of the assets 0..n-1 each get their asset id as sort key |
| SpritePacker.SavedListingSorts | scripts/image_fetcher.py:88-101 | the files saved for assets 0..n-1, listed in any order, sort into the order 0..n-1 |
| SpritePacker.LayoutSavedFiles | scripts/image_fetcher.py:105-137 | the loop over the saved files 0..n-1 in order places every one of them, in order, for n <= 9025 |
| SpritePacker.LayoutSavedLookup | scripts/image_fetcher.py:105-137 | after that loop, `lookup` has exactly the keys 0..n-1, and entry k is the box of sheet tile k |
| SpritePacker.SavedListingMatchesSheet | scripts/image_fetcher.py:88-149 | for the files saved for assets 0..n-1, readable and listed in any order, with n <= 9025, `process_images` returns the `lookup` whose entry k is the box of sheet tile k, the tile the datagrid reads for asset k |
| SpritePacker.DistinctCard | scripts/image_fetcher.py:131 | n distinct ids make a key set of n elements |
| SpritePacker.ProcessImages | scripts/image_fetcher.py:93-149 | the loop, with its `continue`, `break` and exceptions, returns exactly `Process` of the listing |

## Left out

- Pixels and the DOM are not modelled. A canvas is a handle, and `pixels` records which asset's tile was copied onto it. Not modelled: `innerHTML`, `appendChild`, `classList`, `<a>` creation, and the browser moving a canvas between cells when it is appended again. Per cell, the model records the action or plan that those DOM calls would carry out.
- The host event loop is not modelled. A style listener run is one atomic step: `viewer.save()` is taken to resolve before the next render. Also left out: the atlas load (`onload`/`onerror`), `addStyleListener` registration, and the busy-poll for the table element.
- Plugin and React glue are not modelled: the `CustomDatagrid` class, element registration, `delete()`, custom_heatmap.ts, the workspace components, the `setup_complete` flag and persistence. These are host-library wiring.
- scripts/data_fetcher.py and the network and image I/O of scripts/image_fetcher.py are not modelled: fetching, downloading, PIL resize and paste, and writing the sheet and `lookup.json`. Whether PIL opens and resizes a file is an input flag per file, and the paste is taken never to fail.
- The `rendered_assets` set (src/custom_datagrid.ts:12) is never read, so it has no counterpart.
- The schema is a map from column name to type string. A missing column gives `undefined`, which is never `date` or `datetime`.
- Datagrid.HeaderPass: when a header cell has no metadata, the listener throws part-way through the header pass. The model reports only that the pass failed: the body pass and all drawing are skipped. It does not keep the timestamp toggles already applied to earlier header cells.
- The number readers model digit strings only. Not covered: signs, whitespace, underscores, `0x` and similar forms that `Number`, `parseInt` and Python `int()` accept. For example, `-5.png` is treated as a name whose key raises.
- SpritePacker.Process: the exception on a repeated id is reported as `Collision(id)`. The exception's type and message are not modelled, because the source builds the message from an attribute of the resized image.
- Datagrid.RowActions: the listener decides and draws cell by cell. The model splits this into the decisions of the cells the pass reaches (`RowActions`) and a loop that draws them (`DrawRow`). For every cell the pass reaches, both the order of the ring calls and the decisions are the same as in the source.
- RenderImage.RenderCell: a cell's two draws are decided before either is made. This is the same as the source, because neither branch's test depends on the first draw.
- SpritePacker.SortByKey: `list.sort` is modelled by a stable insertion sort. The proved properties are what Python guarantees for `list.sort`: a sorted, stable permutation of its input. The algorithm itself is not modelled.
- Facts about the code that the model keeps as they are:
  - the ring grows one canvas at a time, as `makeCanvas` needs a new slot;
  - a cursor may rest at 300 after a call and is wrapped only by the next call;
  - no canvas is ever released;
  - the header-row rule of the datagrid listener is commented out, so row 0 of the body is processed like any other.
