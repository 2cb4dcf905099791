/** The shape of the spreadsheet feed once `JSON.parse` has run:
    `{ table: { rows: [ { c: [ { v: value }, ... ] }, ... ] } }`.
    JSON parsing itself is not modelled: its outcome is an input (ParseResult). */
module Sheet {
  import opened Wrappers

  /** A cell value as the feed delivers it: a JSON string, number or boolean, or a
      JSON object or array (`Composite`, whose contents are not modelled).
      A JSON `null` or a missing `v` is `None` at the cell. */
  datatype Value = Str(s: string) | Num(x: real) | Bool(b: bool) | Composite

  /** A cell object `{ v: ... }`. */
  datatype Cell = Cell(v: Option<Value>)

  /** A row of the table. `NullRow` is a JSON `null` in the rows array, on which
      reading `row.c` throws. A `Row` whose `c` is absent (or falsy) has `c == None`;
      a `None` entry in `c` is a `null` or missing cell. */
  datatype Row = NullRow | Row(c: Option<seq<Option<Cell>>>)

  /** The `rows` field: absent or falsy, an array, or some other truthy value
      (on which `rows.slice(1).forEach` throws). */
  datatype Rows = Missing | Array(items: seq<Row>) | NotArray

  datatype Table = Table(rows: Rows)

  /** The parsed document; `table == None` when the parsed value is falsy or has no
      truthy `table` property. */
  datatype Document = Document(table: Option<Table>)

  /** What `JSON.parse` did with the payload. */
  datatype ParseResult = SyntaxError | Json(doc: Document)

  /** JavaScript truthiness of a present value (a JSON number is never NaN). */
  predicate Truthy(v: Value)
    ensures Truthy(v) <==> v != Str("") && v != Num(0.0) && v != Bool(false)
  {
    match v
    case Str(s) => s != ""
    case Num(x) => x != 0.0
    case Bool(b) => b
    case Composite => true
  }
}
