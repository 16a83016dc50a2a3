/**
 * The style listener of the custom datagrid plugin (src/custom_datagrid.ts).
 *
 * After every render of the grid the listener first tags the header cells
 * whose column is a date or datetime, then walks the body rows cell by cell
 * and decides, from the row-pivot configuration, the cell metadata and the
 * column schema, what each cell becomes: a thumbnail drawn from the sprite
 * sheet (through the viewer's canvas ring), a link, or the cell as it was.
 * A pivot cell whose value is null or undefined makes the listener throw,
 * which ends the pass where it stands. Before each run the viewer's ring
 * cursor is put back to 0.
 */
module Datagrid {
  import opened Common
  import opened Strings
  import opened Tiles
  import opened GridMeta
  import opened ViewerPool

  /** `matchColumn(meta, name)`: the cell's column header path is present and ends with `name`. */
  function MatchColumn(meta: Meta, name: string): (r: bool)
    ensures r <==> && meta.columnHeader.Some? && |meta.columnHeader.value| > 0
                   && meta.columnHeader.value[|meta.columnHeader.value| - 1] == name
  {
    meta.columnHeader.Some? && LastOf(meta.columnHeader.value) == Some(name)
  }

  /** A cell belongs to at most one column name, so the image test and the link test never both hold. */
  lemma MatchColumnExclusive(meta: Meta, a: string, b: string)
    requires MatchColumn(meta, a) && MatchColumn(meta, b)
    ensures a == b
  {
  }

  /** The host marker of image urls whose link label is shortened. */
  const LONG_URL_HOST: string := "googleusercontent"

  /** Characters dropped from the front of a url for its label: the length of `https://`. */
  const SCHEME_LENGTH: nat := 8

  /** Where the shortened label is cut. */
  const SHORT_LABEL_END: nat := 30

  /**
   * The text of a permalink: `url.substring(8)`, or for a
   * `googleusercontent` url `url.substring(8, 30) + "..."`.
   */
  function PermalinkLabel(url: string): string {
    if Contains(url, LONG_URL_HOST) then
      Substring(url, SCHEME_LENGTH, SHORT_LABEL_END) + "..."
    else
      Substring(url, SCHEME_LENGTH, |url|)
  }

  /**
   * The label drops the first 8 characters of the url; a url mentioning
   * `googleusercontent` keeps at most the next 22 and gets `...` appended.
   */
  lemma PermalinkLabelCases(url: string)
    ensures !Contains(url, LONG_URL_HOST) ==>
              PermalinkLabel(url) == if |url| < SCHEME_LENGTH then [] else url[SCHEME_LENGTH..]
    ensures Contains(url, LONG_URL_HOST) ==>
              && |url| >= |LONG_URL_HOST|
              && PermalinkLabel(url) == url[SCHEME_LENGTH..Min(|url|, SHORT_LABEL_END)] + "..."
  {
    if Contains(url, LONG_URL_HOST) {
      var i: nat :| OccursAt(url, LONG_URL_HOST, i);
    }
  }

  /** For an ordinary `https://` url the label is the url without its scheme. */
  lemma PermalinkDropsScheme(rest: string)
    requires !Contains("https://" + rest, LONG_URL_HOST)
    ensures PermalinkLabel("https://" + rest) == rest
  {
    PermalinkLabelCases("https://" + rest);
    assert ("https://" + rest)[SCHEME_LENGTH..] == rest;
  }

  /** A shortened label is at most 25 characters and ends in an ellipsis. */
  lemma ShortLabelBounded(url: string)
    requires Contains(url, LONG_URL_HOST)
    ensures var caption := PermalinkLabel(url);
      |caption| <= SHORT_LABEL_END - SCHEME_LENGTH + 3 && caption[|caption| - 3..] == "..."
  {
    PermalinkLabelCases(url);
  }

  /** `Number(s)` for the comma-free text of a pivot value: the digits' value, or NaN. */
  function NumberOf(s: string): (a: AssetId)
    ensures a.Id? <==> s != [] && AllDigits(s)
    ensures a.Id? ==> ParseDecimal(s) == Some(a.n)
  {
    match ParseDecimal(s)
    case Some(n) => Id(n)
    case None => NaN
  }

  /**
   * A pivot value that shows asset id `n` in decimal, with or without
   * commas anywhere in it (a thousands separator's, say), is read back as
   * that id once the commas are stripped.
   */
  lemma PivotValueReadsBack(n: nat, s: string)
    requires StripCommas(s) == Decimal(n)
    ensures NumberOf(StripCommas(s)) == Id(n)
  {
    DecimalRoundTrip(n);
  }

  /** What the listener's body pass does to one cell's content. */
  datatype Content =
    | Untouched                         // left as regular-table rendered it
    | Image(asset: AssetId)             // replaced by a ring canvas showing the asset's tile
    | Link(href: string, caption: string) // replaced by `<a href=... target="blank">caption</a>`

  /** The outcome of the body pass for one cell. */
  datatype CellAction =
    | NoMeta                            // `if (!meta) continue;`
    | Throws                            // pivot cell whose value is null or undefined: `toString()` throws, ending the listener
    | PivotEmpty                        // pivot cell whose value is only commas: `continue`
    | PivotImage(asset: AssetId)        // pivot cell drawn as a thumbnail; the rest of the row is skipped
    | Styled(timestamp: bool, penguin: bool, content: Content)
                                        // `is-timestamp` and `penguin-canvas` toggled, then the content

  /** The pivot-image test: `num_row_pivots > 0 && rpidx !== -1 && rpidx + 1 === meta.row_header_x && meta.value !== ""`. */
  predicate PivotFires(rowPivots: seq<string>, meta: Meta) {
    var rpidx := IndexOf(rowPivots, "image");
    && |rowPivots| > 0
    && rpidx != -1
    && meta.rowHeaderX == Some(rpidx + 1)
    && meta.value != Some("")
  }

  /** The `user` field is truthy: present and not 0. */
  predicate Truthy(user: Option<nat>) {
    user.Some? && user.value != 0
  }

  /** The header path's last column, for the timestamp test (`column_header?.[length - 1]`). */
  function ColumnOf(meta: Meta): Option<string> {
    if meta.columnHeader.Some? then LastOf(meta.columnHeader.value) else None
  }

  /** The body pass's decision for one cell, in the order the listener tests things. */
  function Classify(rowPivots: seq<string>, schema: Schema, cell: Cell): CellAction {
    match cell.meta
    case None => NoMeta
    case Some(meta) =>
      if PivotFires(rowPivots, meta) then
        match meta.value
        case None => Throws
        case Some(value) =>
          var path := StripCommas(value);
          if path == [] then PivotEmpty else PivotImage(NumberOf(path))
      else
        var image := MatchColumn(meta, "image");
        var content :=
          if image then
            (if Truthy(meta.user) then Image(Id(meta.user.value)) else Untouched)
          else if MatchColumn(meta, "permalink") || MatchColumn(meta, "asset_image_url") then
            Link(cell.text, PermalinkLabel(cell.text))
          else
            Untouched;
        Styled(IsTimestampColumn(schema, ColumnOf(meta)), image, content)
  }

  /**
   * The pivot branch is taken exactly when the pivot test holds; it throws
   * exactly when the value is null or undefined, and otherwise draws the
   * value without its commas, read as a number, unless nothing is left.
   */
  lemma PivotBranch(rowPivots: seq<string>, schema: Schema, cell: Cell)
    ensures var a := Classify(rowPivots, schema, cell);
      && ((a.PivotImage? || a.PivotEmpty? || a.Throws?) <==> cell.meta.Some? && PivotFires(rowPivots, cell.meta.value))
      && (a.Throws? <==> cell.meta.Some? && PivotFires(rowPivots, cell.meta.value) && cell.meta.value.value.None?)
      && (a.PivotImage? ==> a.asset == NumberOf(StripCommas(cell.meta.value.value.value)))
      && (a.PivotEmpty? ==> StripCommas(cell.meta.value.value.value) == [])
  {
  }

  /** The pivot branch needs `"image"` among the row pivots, one column left of the cell. */
  lemma PivotNeedsImagePivot(rowPivots: seq<string>, schema: Schema, cell: Cell)
    requires Classify(rowPivots, schema, cell).PivotImage?
    ensures exists i :: 0 <= i < |rowPivots| && rowPivots[i] == "image" && cell.meta.value.rowHeaderX == Some(i + 1)
  {
    var i := IndexOf(rowPivots, "image");
    assert rowPivots[i] == "image";
  }

  /**
   * Outside the pivot branch an image cell is never turned into a link, and
   * it is drawn exactly when its `user` is truthy, with that asset.
   */
  lemma ImageColumnFirst(rowPivots: seq<string>, schema: Schema, cell: Cell)
    requires cell.meta.Some? && !PivotFires(rowPivots, cell.meta.value)
    requires MatchColumn(cell.meta.value, "image")
    ensures var a := Classify(rowPivots, schema, cell);
      && a.Styled? && a.penguin && !a.content.Link?
      && (a.content.Image? <==> Truthy(cell.meta.value.user))
      && (a.content.Image? ==> a.content.asset == Id(cell.meta.value.user.value))
  {
  }

  /** A link is made only in a `permalink` or `asset_image_url` column, from the cell's text. */
  lemma LinkOnlyInLinkColumns(rowPivots: seq<string>, schema: Schema, cell: Cell)
    requires Classify(rowPivots, schema, cell).Styled? && Classify(rowPivots, schema, cell).content.Link?
    ensures var meta := cell.meta.value;
      && !MatchColumn(meta, "image")
      && (MatchColumn(meta, "permalink") || MatchColumn(meta, "asset_image_url"))
      && Classify(rowPivots, schema, cell).content == Link(cell.text, PermalinkLabel(cell.text))
  {
  }

  /** The body pass's decision for every cell of a row, whether or not the pass gets that far. */
  function Classified(rowPivots: seq<string>, schema: Schema, cells: seq<Cell>): (r: seq<CellAction>)
    ensures |r| == |cells|
  {
    if cells == [] then []
    else [Classify(rowPivots, schema, cells[0])] + Classified(rowPivots, schema, cells[1..])
  }

  lemma {:induction false} ClassifiedAt(rowPivots: seq<string>, schema: Schema, cells: seq<Cell>, i: nat)
    requires i < |cells|
    ensures Classified(rowPivots, schema, cells)[i] == Classify(rowPivots, schema, cells[i])
  {
    if i > 0 {
      ClassifiedAt(rowPivots, schema, cells[1..], i - 1);
    }
  }

  /** An action after which the pass leaves the row: the `break` after a pivot thumbnail, or a throw. */
  predicate LeavesRow(a: CellAction) {
    a.PivotImage? || a.Throws?
  }

  /**
   * The actions the pass carries out: the leading ones up to and including
   * the first that leaves the row, or all of them.
   */
  function UpToExit(actions: seq<CellAction>): (r: seq<CellAction>)
    ensures r <= actions
    ensures forall i :: 0 <= i < |r| - 1 ==> !LeavesRow(r[i])
    ensures |r| < |actions| ==> |r| > 0 && LeavesRow(r[|r| - 1])
  {
    if actions == [] then []
    else if LeavesRow(actions[0]) then [actions[0]]
    else [actions[0]] + UpToExit(actions[1..])
  }

  predicate NoExit(actions: seq<CellAction>) {
    forall i :: 0 <= i < |actions| ==> !LeavesRow(actions[i])
  }

  /** When no action leaves the row, every action is carried out. */
  lemma {:induction false} UpToExitAll(actions: seq<CellAction>)
    requires NoExit(actions)
    ensures UpToExit(actions) == actions
  {
    if actions != [] {
      UpToExitAll(actions[1..]);
    }
  }

  /** The actions are carried out up to and including the first that leaves the row, at index `c`. */
  lemma {:induction false} UpToExitAt(actions: seq<CellAction>, c: nat)
    requires c < |actions| && NoExit(actions[..c]) && LeavesRow(actions[c])
    ensures UpToExit(actions) == actions[..c + 1]
  {
    if c > 0 {
      assert actions[1..][..c - 1] == actions[1..c];
      UpToExitAt(actions[1..], c - 1);
      assert actions[..c + 1] == [actions[0]] + actions[1..][..c];
    }
  }

  /** The cells of one row that the body pass visits, and what it does to each. */
  function RowActions(rowPivots: seq<string>, schema: Schema, cells: seq<Cell>): seq<CellAction> {
    UpToExit(Classified(rowPivots, schema, cells))
  }

  /**
   * The body pass classifies the cells of a row in order; it leaves the row
   * right after the first pivot thumbnail or throw, and only there, or at
   * the end of the row.
   */
  lemma RowActionsVisit(rowPivots: seq<string>, schema: Schema, cells: seq<Cell>)
    ensures var r := RowActions(rowPivots, schema, cells);
      && |r| <= |cells|
      && (forall i :: 0 <= i < |r| ==> r[i] == Classify(rowPivots, schema, cells[i]))
      && (forall i :: 0 <= i < |r| - 1 ==> !LeavesRow(r[i]))
      && (|r| < |cells| ==> |r| > 0 && LeavesRow(r[|r| - 1]))
  {
    var r, all := RowActions(rowPivots, schema, cells), Classified(rowPivots, schema, cells);
    forall i | 0 <= i < |r|
      ensures r[i] == Classify(rowPivots, schema, cells[i])
    {
      assert r[i] == all[i];
      ClassifiedAt(rowPivots, schema, cells, i);
    }
  }

  /** The asset drawn by a cell's action, if any: one `makeCanvas` call each. */
  function AssetOf(a: CellAction): seq<AssetId> {
    match a
    case PivotImage(x) => [x]
    case Styled(_, _, Image(x)) => [x]
    case _ => []
  }

  /** The assets drawn by a sequence of actions, in order. */
  function Drawn(actions: seq<CellAction>): (r: seq<AssetId>)
    ensures |r| <= |actions|
  {
    if actions == [] then []
    else Drawn(actions[..|actions| - 1]) + AssetOf(actions[|actions| - 1])
  }

  /** The body pass's actions, row by row. */
  function BodyActions(rowPivots: seq<string>, schema: Schema, body: seq<seq<Cell>>): seq<seq<CellAction>> {
    seq(|body|, r requires 0 <= r < |body| => RowActions(rowPivots, schema, body[r]))
  }

  /** The assets the body pass draws, in the order of its `makeCanvas` calls. */
  function BodyAssets(rowPivots: seq<string>, schema: Schema, body: seq<seq<Cell>>): seq<AssetId> {
    if body == [] then []
    else BodyAssets(rowPivots, schema, body[..|body| - 1]) + Drawn(RowActions(rowPivots, schema, body[|body| - 1]))
  }

  /** The pass threw in this row: its last visited cell is the throw. */
  predicate RowThrows(row: seq<CellAction>) {
    |row| > 0 && row[|row| - 1].Throws?
  }

  /** How many body rows the pass reaches: all of them, or those up to and including the first that throws. */
  function ReachedRows(rowPivots: seq<string>, schema: Schema, body: seq<seq<Cell>>): (n: nat)
    ensures n <= |body|
  {
    if body == [] then 0
    else if RowThrows(RowActions(rowPivots, schema, body[0])) then 1
    else 1 + ReachedRows(rowPivots, schema, body[1..])
  }

  /** The body rows the pass reaches. */
  function Reached(rowPivots: seq<string>, schema: Schema, body: seq<seq<Cell>>): seq<seq<Cell>> {
    body[..ReachedRows(rowPivots, schema, body)]
  }

  /** When no row throws, the pass reaches every row. */
  lemma {:induction false} ReachedRowsAll(rowPivots: seq<string>, schema: Schema, body: seq<seq<Cell>>)
    requires forall k :: 0 <= k < |body| ==> !RowThrows(RowActions(rowPivots, schema, body[k]))
    ensures ReachedRows(rowPivots, schema, body) == |body|
  {
    if body != [] {
      assert forall k :: 0 <= k < |body| - 1 ==> body[1..][k] == body[k + 1];
      ReachedRowsAll(rowPivots, schema, body[1..]);
    }
  }

  /** When row `r` is the first that throws, the pass reaches rows 0 to `r` and no further. */
  lemma {:induction false} ReachedRowsAt(rowPivots: seq<string>, schema: Schema, body: seq<seq<Cell>>, r: nat)
    requires r < |body| && RowThrows(RowActions(rowPivots, schema, body[r]))
    requires forall k :: 0 <= k < r ==> !RowThrows(RowActions(rowPivots, schema, body[k]))
    ensures ReachedRows(rowPivots, schema, body) == r + 1
  {
    if r > 0 {
      assert forall k :: 0 <= k < r - 1 ==> body[1..][k] == body[k + 1];
      ReachedRowsAt(rowPivots, schema, body[1..], r - 1);
    }
  }

  /** Walking one more body row. */
  lemma BodySnoc(rowPivots: seq<string>, schema: Schema, body: seq<seq<Cell>>, r: nat)
    requires r < |body|
    ensures BodyActions(rowPivots, schema, body[..r + 1]) == BodyActions(rowPivots, schema, body[..r]) + [RowActions(rowPivots, schema, body[r])]
    ensures BodyAssets(rowPivots, schema, body[..r + 1]) == BodyAssets(rowPivots, schema, body[..r]) + Drawn(RowActions(rowPivots, schema, body[r]))
  {
    assert body[..r + 1][..r] == body[..r];
  }

  /**
   * A body row draws at most one pivot thumbnail and throws at most once,
   * never both, and only at its last visited cell.
   */
  lemma OneExitPerRow(rowPivots: seq<string>, schema: Schema, cells: seq<Cell>, i: nat, j: nat)
    requires var r := RowActions(rowPivots, schema, cells); i < |r| && j < |r| && LeavesRow(r[i]) && LeavesRow(r[j])
    ensures i == j == |RowActions(rowPivots, schema, cells)| - 1
  {
    RowActionsVisit(rowPivots, schema, cells);
  }

  /** The header pass reads `meta.column_header` of every header cell: it must be there. */
  predicate HeaderCellOk(cell: Cell) {
    cell.meta.Some? && cell.meta.value.columnHeader.Some?
  }

  predicate HeaderOk(header: seq<seq<Cell>>) {
    forall r, c :: 0 <= r < |header| && 0 <= c < |header[r]| ==> HeaderCellOk(header[r][c])
  }

  /** The `is-timestamp` tag of a header cell. */
  function HeaderTag(schema: Schema, cell: Cell): bool
    requires HeaderCellOk(cell)
  {
    IsTimestampColumn(schema, LastOf(cell.meta.value.columnHeader.value))
  }

  /** The tags of one header row, or `None` when one of its cells cannot be read. */
  function RowTags(schema: Schema, cells: seq<Cell>): (r: Option<seq<bool>>)
    ensures r.Some? <==> forall c :: 0 <= c < |cells| ==> HeaderCellOk(cells[c])
    ensures r.Some? ==> |r.value| == |cells|
    ensures r.Some? ==> forall c :: 0 <= c < |cells| ==> r.value[c] == HeaderTag(schema, cells[c])
  {
    if cells == [] then Some([])
    else
      var last := cells[|cells| - 1];
      match RowTags(schema, cells[..|cells| - 1])
      case None => None
      case Some(tags) => if HeaderCellOk(last) then Some(tags + [HeaderTag(schema, last)]) else None
  }

  /**
   * The header pass: the tag of every header cell, or `None` when a header
   * cell has no metadata or no column header, where the listener throws
   * and the body pass never runs.
   */
  function HeaderPass(schema: Schema, header: seq<seq<Cell>>): (r: Option<seq<seq<bool>>>)
    ensures r.Some? <==> HeaderOk(header)
    ensures r.Some? ==> |r.value| == |header|
    ensures r.Some? ==> forall i :: 0 <= i < |header| ==> RowTags(schema, header[i]) == Some(r.value[i])
  {
    if header == [] then Some([])
    else
      match HeaderPass(schema, header[..|header| - 1])
      case None =>
        assert !HeaderOk(header) by {
          assert forall i :: 0 <= i < |header| - 1 ==> header[..|header| - 1][i] == header[i];
        }
        None
      case Some(rows) =>
        match RowTags(schema, header[|header| - 1])
        case None => None
        case Some(row) => Some(rows + [row])
  }

  /** Reading one more cell of a header row. */
  lemma RowTagsSnoc(schema: Schema, cells: seq<Cell>, c: nat, row: seq<bool>)
    requires c < |cells| && RowTags(schema, cells[..c]) == Some(row) && HeaderCellOk(cells[c])
    ensures RowTags(schema, cells[..c + 1]) == Some(row + [HeaderTag(schema, cells[c])])
  {
    assert cells[..c + 1][..c] == cells[..c];
  }

  /** Reading one more header row. */
  lemma HeaderPassSnoc(schema: Schema, header: seq<seq<Cell>>, r: nat, rows: seq<seq<bool>>, row: seq<bool>)
    requires r < |header| && HeaderPass(schema, header[..r]) == Some(rows) && RowTags(schema, header[r]) == Some(row)
    ensures HeaderPass(schema, header[..r + 1]) == Some(rows + [row])
  {
    assert header[..r + 1][..r] == header[..r];
  }

  /** Every tag is the timestamp test of its header cell's column. */
  lemma HeaderPassTags(schema: Schema, header: seq<seq<Cell>>, i: nat, j: nat)
    requires HeaderPass(schema, header).Some? && i < |header| && j < |header[i]|
    ensures HeaderCellOk(header[i][j])
    ensures HeaderPass(schema, header).value[i][j] == IsTimestampColumn(schema, ColumnOf(header[i][j].meta.value))
  {
  }

  /** Extending a run of `makeCanvas` calls by one call. */
  lemma NextCanvasesSnoc(s: PoolState, v: string, assets: seq<AssetId>, a: AssetId)
    requires Fits(s, v)
    ensures NextCanvases(s, v, assets + [a]).0 == NextCanvas(NextCanvases(s, v, assets).0, v, a).0
    ensures NextCanvases(s, v, assets + [a]).1 == NextCanvases(s, v, assets).1 + [NextCanvas(NextCanvases(s, v, assets).0, v, a).1]
  {
    assert (assets + [a])[..|assets|] == assets;
  }

  /** The first `i + 1` actions of a row draw the assets of the first `i`, then that of action `i`. */
  lemma DrawnSnoc(prefix: seq<AssetId>, row: seq<CellAction>, i: nat)
    requires i < |row|
    ensures Drawn(row[..i + 1]) == Drawn(row[..i]) + AssetOf(row[i])
    ensures prefix + Drawn(row[..i + 1]) == (prefix + Drawn(row[..i])) + AssetOf(row[i])
  {
    assert row[..i + 1][..i] == row[..i];
  }

  /**
   * The `makeCanvas` call a cell's action makes, if any
   * (`td.appendChild(makeCanvas(viewer_id, asset_id, image))`), as the next
   * call of a run from `s0` that has drawn `prefix` so far.
   */
  method DrawAction(pool: ViewerCanvases, viewerId: string, a: CellAction, ghost s0: PoolState, ghost prefix: seq<AssetId>)
    returns (canvases: seq<Canvas>)
    requires pool.Valid() && Fits(s0, viewerId) && pool.State() == NextCanvases(s0, viewerId, prefix).0
    modifies pool
    ensures pool.Valid()
    ensures pool.State() == NextCanvases(s0, viewerId, prefix + AssetOf(a)).0
    ensures NextCanvases(s0, viewerId, prefix + AssetOf(a)).1 == NextCanvases(s0, viewerId, prefix).1 + canvases
  {
    var drawn := AssetOf(a);
    if drawn == [] {
      assert prefix + drawn == prefix;
      canvases := [];
    } else {
      var canvas := pool.MakeCanvas(viewerId, drawn[0]);
      NextCanvasesSnoc(s0, viewerId, prefix, drawn[0]);
      assert drawn == [drawn[0]];
      canvases := [canvas];
    }
  }

  /**
   * The thumbnails of one body row, drawn through the ring left to right as
   * the row's actions say. The ring calls continue a run from `s0` that has
   * drawn `prefix` so far.
   */
  method DrawRow(pool: ViewerCanvases, viewerId: string, row: seq<CellAction>, ghost s0: PoolState, ghost prefix: seq<AssetId>)
    returns (canvases: seq<Canvas>)
    requires pool.Valid() && Fits(s0, viewerId) && pool.State() == NextCanvases(s0, viewerId, prefix).0
    modifies pool
    ensures pool.Valid()
    ensures pool.State() == NextCanvases(s0, viewerId, prefix + Drawn(row)).0
    ensures NextCanvases(s0, viewerId, prefix + Drawn(row)).1 == NextCanvases(s0, viewerId, prefix).1 + canvases
  {
    canvases := [];
    ghost var drawn := prefix;
    ghost var done := NextCanvases(s0, viewerId, prefix).1;
    assert prefix + Drawn(row[..0]) == prefix;
    var i := 0;
    while i < |row|
      invariant 0 <= i <= |row|
      invariant pool.Valid()
      invariant drawn == prefix + Drawn(row[..i])
      invariant pool.State() == NextCanvases(s0, viewerId, drawn).0
      invariant NextCanvases(s0, viewerId, drawn).1 == done + canvases
    {
      var drawnCanvases := DrawAction(pool, viewerId, row[i], s0, drawn);
      DrawnSnoc(prefix, row, i);
      AppendAssoc(done, canvases, drawnCanvases);
      drawn := drawn + AssetOf(row[i]);
      canvases := canvases + drawnCanvases;
      i := i + 1;
    }
    assert row[..i] == row;
  }

  /**
   * The body pass: the rows of the body, cell by cell, drawing through the
   * ring, until the last row or a throw. Its ring calls run from the state
   * the pass starts in.
   */
  method BodyPass(pool: ViewerCanvases, viewerId: string, rowPivots: seq<string>, schema: Schema, body: seq<seq<Cell>>)
    returns (actions: seq<seq<CellAction>>, canvases: seq<Canvas>)
    requires pool.Valid()
    modifies pool
    ensures pool.Valid()
    ensures actions == BodyActions(rowPivots, schema, Reached(rowPivots, schema, body))
    ensures (pool.State(), canvases) == NextCanvases(old(pool.State()), viewerId, BodyAssets(rowPivots, schema, Reached(rowPivots, schema, body)))
  {
    actions, canvases := [], [];
    ghost var s0 := pool.State();
    ConsistentFits(s0, viewerId);
    var r, threw := 0, false;
    while r < |body| && !threw
      invariant 0 <= r <= |body|
      invariant pool.Valid()
      invariant threw ==> ReachedRows(rowPivots, schema, body) == r
      invariant !threw ==> forall k :: 0 <= k < r ==> !RowThrows(RowActions(rowPivots, schema, body[k]))
      invariant actions == BodyActions(rowPivots, schema, body[..r])
      invariant (pool.State(), canvases) == NextCanvases(s0, viewerId, BodyAssets(rowPivots, schema, body[..r]))
    {
      var row := RowActions(rowPivots, schema, body[r]);
      var drawnCanvases := DrawRow(pool, viewerId, row, s0, BodyAssets(rowPivots, schema, body[..r]));
      BodySnoc(rowPivots, schema, body, r);
      actions := actions + [row];
      canvases := canvases + drawnCanvases;
      threw := RowThrows(row);
      if threw {
        ReachedRowsAt(rowPivots, schema, body, r);
      } else {
        forall k | 0 <= k < r + 1
          ensures !RowThrows(RowActions(rowPivots, schema, body[k]))
        {
          if k == r {
            assert RowActions(rowPivots, schema, body[k]) == row;
          }
        }
      }
      r := r + 1;
    }
    if !threw {
      ReachedRowsAll(rowPivots, schema, body);
    }
    assert Reached(rowPivots, schema, body) == body[..r];
  }

  /** `style_listener(viewer_id, image, table, viewer)`, with the ring as `pool`. */
  method StyleListener(pool: ViewerCanvases, viewerId: string, rowPivots: seq<string>, schema: Schema,
                       header: seq<seq<Cell>>, body: seq<seq<Cell>>)
    returns (tags: Option<seq<seq<bool>>>, actions: seq<seq<CellAction>>, canvases: seq<Canvas>)
    requires pool.Valid()
    modifies pool
    ensures pool.Valid()
    ensures tags == HeaderPass(schema, header)
    ensures tags.None? ==> actions == [] && canvases == [] && pool.State() == old(pool.State())
    ensures tags.Some? ==> actions == BodyActions(rowPivots, schema, Reached(rowPivots, schema, body))
    ensures tags.Some? ==>
              (pool.State(), canvases) == NextCanvases(old(pool.State()), viewerId, BodyAssets(rowPivots, schema, Reached(rowPivots, schema, body)))
  {
    actions, canvases := [], [];
    tags := HeaderTags(schema, header);
    if tags.Some? {
      actions, canvases := BodyPass(pool, viewerId, rowPivots, schema, body);
    }
  }

  /** The header pass as a loop over header rows and cells, stopping at the first cell it cannot read. */
  method HeaderTags(schema: Schema, header: seq<seq<Cell>>) returns (tags: Option<seq<seq<bool>>>)
    ensures tags == HeaderPass(schema, header)
  {
    var rows: seq<seq<bool>> := [];
    var r := 0;
    while r < |header|
      invariant 0 <= r <= |header|
      invariant HeaderPass(schema, header[..r]) == Some(rows)
    {
      var row: seq<bool> := [];
      var c := 0;
      while c < |header[r]|
        invariant 0 <= c <= |header[r]|
        invariant RowTags(schema, header[r][..c]) == Some(row)
      {
        if !HeaderCellOk(header[r][c]) {
          assert !HeaderOk(header) by {
            assert !HeaderCellOk(header[r][c]);
          }
          return None;
        }
        RowTagsSnoc(schema, header[r], c, row);
        row := row + [HeaderTag(schema, header[r][c])];
        c := c + 1;
      }
      assert header[r][..c] == header[r];
      HeaderPassSnoc(schema, header, r, rows, row);
      rows := rows + [row];
      r := r + 1;
    }
    assert header[..r] == header;
    tags := Some(rows);
  }

  /**
   * The listener registered in `draw`: `LAST_CANVAS[viewer_id] = 0`, then
   * `style_listener`. When the header pass succeeds, the canvases are those
   * of one refresh of the viewer's ring over the drawn assets.
   */
  method OnStyle(pool: ViewerCanvases, viewerId: string, rowPivots: seq<string>, schema: Schema,
                 header: seq<seq<Cell>>, body: seq<seq<Cell>>)
    returns (tags: Option<seq<seq<bool>>>, actions: seq<seq<CellAction>>, canvases: seq<Canvas>)
    requires pool.Valid()
    modifies pool
    ensures pool.Valid()
    ensures tags == HeaderPass(schema, header)
    ensures tags.None? ==> canvases == [] && pool.State() == Rewind(old(pool.State()), viewerId)
    ensures tags.Some? ==> actions == BodyActions(rowPivots, schema, Reached(rowPivots, schema, body))
    ensures tags.Some? ==>
              (pool.State(), canvases) == Refresh(old(pool.State()), viewerId, BodyAssets(rowPivots, schema, Reached(rowPivots, schema, body)))
  {
    ConsistentFits(pool.State(), viewerId);
    pool.ResetCursor(viewerId);
    tags, actions, canvases := StyleListener(pool, viewerId, rowPivots, schema, header, body);
  }
}
