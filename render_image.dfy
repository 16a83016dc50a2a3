/**
 * The style listener `renderImage` installs on the React shell's grid
 * (src/index.tsx).
 *
 * After every render it walks all rows of the grid's table, header rows
 * included (row 0 is the first header row), and every cell of each row. A
 * cell in the column of the `image` row pivot gets the thumbnail of the
 * asset named in its row-header path; a cell of a column headed exactly
 * `image` gets the thumbnail of `parseInt` of its value. Thumbnails come from
 * the memo `CACHE` (module ThumbnailCache), so an asset drawn twice shows
 * the same canvas.
 */
module RenderImage {
  import opened Common
  import opened Strings
  import opened Tiles
  import opened GridMeta
  import opened ThumbnailCache

  /** What the listener does to one cell. */
  datatype CellPlan =
    | NoMeta                                          // `if (!meta) continue;`
    | HeaderCleared                                   // pivot cell of row 0: emptied, and nothing more
    | NoRowPath                                       // pivot cell without a usable path entry: left alone, and nothing more
    | Visit(pivot: Option<AssetId>, column: Option<AssetId>)
                                                      // the thumbnail of the pivot branch, then that of the image-column branch

  /** What a cell holds once the listener is done with it. */
  datatype CellContent =
    | Kept                    // what the grid rendered
    | Emptied                 // nothing
    | Thumbnail(asset: AssetId) // the memoised canvas of that asset

  /** The pivot branch's test: `rpidx !== -1 && cidx === rpidx && meta.row_header`. */
  predicate PivotColumn(rowPivots: seq<string>, cidx: nat, meta: Meta) {
    var rpidx := IndexOf(rowPivots, "image");
    rpidx != -1 && cidx == rpidx && meta.rowHeader.Some?
  }

  /** `row_header[i]?.toString()`: the path entry, if the path is that long. */
  function PathEntry(rowHeader: seq<string>, i: nat): (r: Option<string>)
    ensures r.Some? <==> i < |rowHeader|
    ensures r.Some? ==> r.value == rowHeader[i]
  {
    if i < |rowHeader| then Some(rowHeader[i]) else None
  }

  /** The image-column branch's test: `column_header?.length === 1 && column_header[0] === "image" && ridx > 0`. */
  predicate ImageColumn(meta: Meta, ridx: nat) {
    meta.columnHeader == Some(["image"]) && ridx > 0
  }

  /** `Number.parseInt(s)` as an asset id: the leading digits' value, or NaN. */
  function ParseAsset(s: string): (a: AssetId)
    ensures a.NaN? <==> s == [] || !IsDigit(s[0])
    ensures a.Id? ==> ParseIntPrefix(s) == Some(a.n)
  {
    match ParseIntPrefix(s)
    case Some(n) => Id(n)
    case None => NaN
  }

  /** An asset id printed in decimal, followed by anything that is not a digit, is read back as that id. */
  lemma ParseAssetReadsBack(n: nat, rest: string)
    requires rest == [] || !IsDigit(rest[0])
    ensures ParseAsset(Decimal(n) + rest) == Id(n)
  {
    ParseIntPrefixDecimal(n, rest);
  }

  /**
   * `Number.parseInt(meta.value)`: the value is read as text; a null or
   * undefined value becomes `"null"` or `"undefined"`, which is NaN.
   */
  function ValueAsset(value: Option<string>): AssetId {
    match value
    case Some(text) => ParseAsset(text)
    case None => NaN
  }

  /** The listener's decision for the cell in row `ridx`, column `cidx`. */
  function Plan(rowPivots: seq<string>, ridx: nat, cidx: nat, cell: Cell): CellPlan {
    match cell.meta
    case None => NoMeta
    case Some(meta) =>
      var pivot := PivotColumn(rowPivots, cidx, meta);
      var path := if pivot then PathEntry(meta.rowHeader.value, IndexOf(rowPivots, "image") + 1) else None;
      if pivot && ridx < 1 then HeaderCleared
      else if pivot && (path.None? || path.value == "") then NoRowPath
      else
        Visit(if pivot then Some(ParseAsset(path.value)) else None,
              if ImageColumn(meta, ridx) then Some(ValueAsset(meta.value)) else None)
  }

  /** The asset the pivot branch draws, if it draws. */
  function PivotDrawn(p: CellPlan): (r: seq<AssetId>)
    ensures |r| <= 1
  {
    if p.Visit? && p.pivot.Some? then [p.pivot.value] else []
  }

  /** The asset the image-column branch draws, if it draws. */
  function ColumnDrawn(p: CellPlan): (r: seq<AssetId>)
    ensures |r| <= 1
  {
    if p.Visit? && p.column.Some? then [p.column.value] else []
  }

  /** The assets a plan draws, in the order of its `makeCanvas` calls. */
  function PlanAssets(p: CellPlan): seq<AssetId> {
    PivotDrawn(p) + ColumnDrawn(p)
  }

  /** The content a plan leaves: every draw empties the cell first, so the last canvas appended stays. */
  function Outcome(p: CellPlan): CellContent {
    match p
    case HeaderCleared => Emptied
    case Visit(_, Some(a)) => Thumbnail(a)
    case Visit(Some(a), None) => Thumbnail(a)
    case _ => Kept
  }

  /** A cell without metadata is left entirely alone. */
  lemma NoMetaUntouched(rowPivots: seq<string>, ridx: nat, cidx: nat, cell: Cell)
    requires cell.meta.None?
    ensures PlanAssets(Plan(rowPivots, ridx, cidx, cell)) == [] && Outcome(Plan(rowPivots, ridx, cidx, cell)) == Kept
  {
  }

  /**
   * The first row never gets a thumbnail: its pivot cell is emptied and
   * the image-column test needs a later row.
   */
  lemma HeaderRowGetsNoThumbnail(rowPivots: seq<string>, cidx: nat, cell: Cell)
    ensures PlanAssets(Plan(rowPivots, 0, cidx, cell)) == []
    ensures !Outcome(Plan(rowPivots, 0, cidx, cell)).Thumbnail?
    ensures Outcome(Plan(rowPivots, 0, cidx, cell)) == Emptied <==>
              cell.meta.Some? && PivotColumn(rowPivots, cidx, cell.meta.value)
  {
  }

  /**
   * The pivot branch draws exactly when the pivot test holds past row 0 and
   * the path entry one beyond the pivot's position is non-empty, and then it
   * draws `parseInt` of that entry.
   */
  lemma PivotBranchDraws(rowPivots: seq<string>, ridx: nat, cidx: nat, cell: Cell)
    ensures var p := Plan(rowPivots, ridx, cidx, cell);
      && ((p.Visit? && p.pivot.Some?) <==>
            && cell.meta.Some? && PivotColumn(rowPivots, cidx, cell.meta.value) && ridx > 0
            && var path := PathEntry(cell.meta.value.rowHeader.value, IndexOf(rowPivots, "image") + 1);
               path.Some? && path.value != "")
      && (p.Visit? && p.pivot.Some? ==>
            p.pivot.value == ParseAsset(cell.meta.value.rowHeader.value[IndexOf(rowPivots, "image") + 1]))
  {
  }

  /**
   * The image-column branch draws `parseInt` of the value exactly when the
   * column test holds, unless the pivot branch has already left the cell
   * with `continue`.
   */
  lemma ColumnBranchDraws(rowPivots: seq<string>, ridx: nat, cidx: nat, cell: Cell)
    ensures var p := Plan(rowPivots, ridx, cidx, cell);
      && ((p.Visit? && p.column.Some?) <==>
            && cell.meta.Some? && ImageColumn(cell.meta.value, ridx)
            && !(p.NoRowPath?))
      && (p.Visit? && p.column.Some? ==> p.column.value == ValueAsset(cell.meta.value.value))
  {
  }

  /**
   * A cell in both branches gets two canvases, the pivot's first, and ends
   * up showing the image column's asset.
   */
  lemma ColumnCanvasWins(rowPivots: seq<string>, ridx: nat, cidx: nat, cell: Cell)
    requires var p := Plan(rowPivots, ridx, cidx, cell); p.Visit? && p.pivot.Some? && p.column.Some?
    ensures var p := Plan(rowPivots, ridx, cidx, cell);
      && PlanAssets(p) == [p.pivot.value, ValueAsset(cell.meta.value.value)]
      && Outcome(p) == Thumbnail(ValueAsset(cell.meta.value.value))
  {
  }

  /** The plans of the cells of row `ridx`. */
  function RowPlans(rowPivots: seq<string>, ridx: nat, cells: seq<Cell>): seq<CellPlan> {
    seq(|cells|, c requires 0 <= c < |cells| => Plan(rowPivots, ridx, c, cells[c]))
  }

  /** The plans of every cell of the table. */
  function TablePlans(rowPivots: seq<string>, rows: seq<seq<Cell>>): seq<seq<CellPlan>> {
    seq(|rows|, r requires 0 <= r < |rows| => RowPlans(rowPivots, r, rows[r]))
  }

  /** The assets drawn in row `ridx`, in call order. */
  function RowAssets(rowPivots: seq<string>, ridx: nat, cells: seq<Cell>): (r: seq<AssetId>)
    ensures |r| <= 2 * |cells|
  {
    if cells == [] then []
    else RowAssets(rowPivots, ridx, cells[..|cells| - 1]) + PlanAssets(Plan(rowPivots, ridx, |cells| - 1, cells[|cells| - 1]))
  }

  /** The assets drawn in the whole table, in call order. */
  function TableAssets(rowPivots: seq<string>, rows: seq<seq<Cell>>): seq<AssetId> {
    if rows == [] then []
    else TableAssets(rowPivots, rows[..|rows| - 1]) + RowAssets(rowPivots, |rows| - 1, rows[|rows| - 1])
  }

  /** Row 0 draws nothing. */
  lemma {:induction false} HeaderRowDrawsNothing(rowPivots: seq<string>, cells: seq<Cell>)
    ensures RowAssets(rowPivots, 0, cells) == []
    decreases |cells|
  {
    if cells != [] {
      HeaderRowDrawsNothing(rowPivots, cells[..|cells| - 1]);
      HeaderRowGetsNoThumbnail(rowPivots, |cells| - 1, cells[|cells| - 1]);
    }
  }

  /** Extending a run of memo calls by one call. */
  lemma LookupAllSnoc(s: MemoState, assets: seq<AssetId>, a: AssetId)
    ensures LookupAll(s, assets + [a]).0 == Lookup(LookupAll(s, assets).0, a).0
    ensures LookupAll(s, assets + [a]).1 == LookupAll(s, assets).1 + [Lookup(LookupAll(s, assets).0, a).1]
  {
    assert (assets + [a])[..|assets|] == assets;
  }

  lemma CellSnoc(rowPivots: seq<string>, ridx: nat, cells: seq<Cell>, c: nat, prefix: seq<AssetId>)
    requires c < |cells|
    ensures RowPlans(rowPivots, ridx, cells[..c + 1]) == RowPlans(rowPivots, ridx, cells[..c]) + [Plan(rowPivots, ridx, c, cells[c])]
    ensures prefix + RowAssets(rowPivots, ridx, cells[..c + 1]) ==
              (prefix + RowAssets(rowPivots, ridx, cells[..c])) + PlanAssets(Plan(rowPivots, ridx, c, cells[c]))
  {
    assert cells[..c + 1][..c] == cells[..c];
  }

  lemma RowSnoc(rowPivots: seq<string>, rows: seq<seq<Cell>>, r: nat)
    requires r < |rows|
    ensures TablePlans(rowPivots, rows[..r + 1]) == TablePlans(rowPivots, rows[..r]) + [RowPlans(rowPivots, r, rows[r])]
    ensures TableAssets(rowPivots, rows[..r + 1]) == TableAssets(rowPivots, rows[..r]) + RowAssets(rowPivots, r, rows[r])
  {
    assert rows[..r + 1][..r] == rows[..r];
  }

  /**
   * A branch's `makeCanvas(asset_id, image)` call and `appendChild`, if the
   * branch draws, as the next call of a run from `s0` that has drawn
   * `prefix` so far.
   */
  method Draw(memo: ThumbnailCanvases, drawn: seq<AssetId>, ghost s0: MemoState, ghost prefix: seq<AssetId>)
    returns (canvases: seq<Canvas>)
    requires |drawn| <= 1
    requires memo.Valid() && memo.State() == LookupAll(s0, prefix).0
    modifies memo
    ensures memo.Valid()
    ensures memo.State() == LookupAll(s0, prefix + drawn).0
    ensures LookupAll(s0, prefix + drawn).1 == LookupAll(s0, prefix).1 + canvases
  {
    if drawn == [] {
      assert prefix + drawn == prefix;
      canvases := [];
    } else {
      var canvas := memo.MakeCanvas(drawn[0]);
      LookupAllSnoc(s0, prefix, drawn[0]);
      assert drawn == [drawn[0]];
      canvases := [canvas];
    }
  }

  /**
   * The loop body for one cell: the listener's tests decide the plan, then
   * its `makeCanvas` calls run, the pivot branch's first. It returns the
   * plan and the canvases appended, in call order.
   */
  method RenderCell(memo: ThumbnailCanvases, rowPivots: seq<string>, ridx: nat, cidx: nat, cell: Cell,
                    ghost s0: MemoState, ghost prefix: seq<AssetId>)
    returns (plan: CellPlan, canvases: seq<Canvas>)
    requires memo.Valid() && memo.State() == LookupAll(s0, prefix).0
    modifies memo
    ensures memo.Valid()
    ensures plan == Plan(rowPivots, ridx, cidx, cell)
    ensures memo.State() == LookupAll(s0, prefix + PlanAssets(plan)).0
    ensures LookupAll(s0, prefix + PlanAssets(plan)).1 == LookupAll(s0, prefix).1 + canvases
  {
    plan := Plan(rowPivots, ridx, cidx, cell);
    var pivotCanvases := Draw(memo, PivotDrawn(plan), s0, prefix);
    var columnCanvases := Draw(memo, ColumnDrawn(plan), s0, prefix + PivotDrawn(plan));
    AppendAssoc(prefix, PivotDrawn(plan), ColumnDrawn(plan));
    AppendAssoc(LookupAll(s0, prefix).1, pivotCanvases, columnCanvases);
    canvases := pivotCanvases + columnCanvases;
  }

  /** The inner loop over the cells of row `ridx`. */
  method RenderRow(memo: ThumbnailCanvases, rowPivots: seq<string>, ridx: nat, cells: seq<Cell>,
                   ghost s0: MemoState, ghost prefix: seq<AssetId>)
    returns (plans: seq<CellPlan>, canvases: seq<Canvas>)
    requires memo.Valid() && memo.State() == LookupAll(s0, prefix).0
    modifies memo
    ensures memo.Valid()
    ensures plans == RowPlans(rowPivots, ridx, cells)
    ensures memo.State() == LookupAll(s0, prefix + RowAssets(rowPivots, ridx, cells)).0
    ensures LookupAll(s0, prefix + RowAssets(rowPivots, ridx, cells)).1 == LookupAll(s0, prefix).1 + canvases
  {
    plans, canvases := [], [];
    ghost var drawn := prefix;
    ghost var done := LookupAll(s0, prefix).1;
    assert prefix + RowAssets(rowPivots, ridx, cells[..0]) == prefix;
    var cidx := 0;
    while cidx < |cells|
      invariant 0 <= cidx <= |cells|
      invariant memo.Valid()
      invariant plans == RowPlans(rowPivots, ridx, cells[..cidx])
      invariant drawn == prefix + RowAssets(rowPivots, ridx, cells[..cidx])
      invariant memo.State() == LookupAll(s0, drawn).0
      invariant LookupAll(s0, drawn).1 == done + canvases
    {
      var plan, cellCanvases := RenderCell(memo, rowPivots, ridx, cidx, cells[cidx], s0, drawn);
      CellSnoc(rowPivots, ridx, cells, cidx, prefix);
      AppendAssoc(done, canvases, cellCanvases);
      plans, canvases, drawn := plans + [plan], canvases + cellCanvases, drawn + PlanAssets(plan);
      cidx := cidx + 1;
    }
    assert cells[..cidx] == cells;
  }

  /**
   * The listener's body: every cell of every row, in order, with the memo
   * as `memo`. It returns each cell's plan and the canvases appended, in
   * call order; the memo ends as the run of `makeCanvas` calls over the
   * table's assets leaves it.
   */
  method RenderTable(memo: ThumbnailCanvases, rowPivots: seq<string>, rows: seq<seq<Cell>>)
    returns (plans: seq<seq<CellPlan>>, canvases: seq<Canvas>)
    requires memo.Valid()
    modifies memo
    ensures memo.Valid()
    ensures plans == TablePlans(rowPivots, rows)
    ensures memo.State() == LookupAll(old(memo.State()), TableAssets(rowPivots, rows)).0
    ensures canvases == LookupAll(old(memo.State()), TableAssets(rowPivots, rows)).1
  {
    plans, canvases := [], [];
    ghost var s0 := memo.State();
    var ridx := 0;
    while ridx < |rows|
      invariant 0 <= ridx <= |rows|
      invariant memo.Valid()
      invariant plans == TablePlans(rowPivots, rows[..ridx])
      invariant memo.State() == LookupAll(s0, TableAssets(rowPivots, rows[..ridx])).0
      invariant canvases == LookupAll(s0, TableAssets(rowPivots, rows[..ridx])).1
    {
      var rowPlans, rowCanvases := RenderRow(memo, rowPivots, ridx, rows[ridx], s0, TableAssets(rowPivots, rows[..ridx]));
      RowSnoc(rowPivots, rows, ridx);
      plans, canvases := plans + [rowPlans], canvases + rowCanvases;
      ridx := ridx + 1;
    }
    assert rows[..ridx] == rows;
  }
}
