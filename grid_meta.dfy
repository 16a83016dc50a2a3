/**
 * The cell metadata that regular-table's `getMeta(td)` hands to both style
 * listeners (src/custom_datagrid.ts and src/index.tsx), and the view's
 * column schema. Only the fields the listeners read are kept.
 */
module GridMeta {
  import opened Common

  /**
   * `column_header` and `row_header` are the header paths of the cell (absent
   * on some cells), `row_header_x` the column index of a row-header cell,
   * `value` the cell's value as text (`toString()`), `None` when it is null
   * or undefined, and `user` the row's asset id carried as user data, if any.
   */
  datatype Meta = Meta(
    columnHeader: Option<seq<string>>,
    rowHeader: Option<seq<string>>,
    rowHeaderX: Option<nat>,
    value: Option<string>,
    user: Option<nat>)

  /** A `<td>` or `<th>`: its metadata (`getMeta` may return nothing) and its rendered text (`innerText`). */
  datatype Cell = Cell(meta: Option<Meta>, text: string)

  /** The view's `_schema`: column name to type name. */
  type Schema = map<string, string>

  /** The last element of a header path, if the path is non-empty. */
  function LastOf(path: seq<string>): (r: Option<string>)
    ensures r.Some? <==> |path| > 0
    ensures r.Some? ==> r.value == path[|path| - 1]
  {
    if |path| == 0 then None else Some(path[|path| - 1])
  }

  /**
   * `type === "date" || type === "datetime"` for the type of the column
   * named `column`; an absent name or an unknown column is no timestamp.
   */
  predicate IsTimestampColumn(schema: Schema, column: Option<string>) {
    column.Some? && column.value in schema && (schema[column.value] == "date" || schema[column.value] == "datetime")
  }
}
