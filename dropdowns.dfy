/** The dropdown loader of OrderStatusFrom.jsx (lines 15-79): projecting four
    fixed columns out of the data rows of the DROPDOWN sheet, the static fallback
    lists, and the outcome of one load. */
module Dropdowns {
  import opened Wrappers
  import opened Sheet
  import Payload

  /** Column H: acceptance channels. */
  const ACCEPTANCE_VIA_COLUMN: nat := 7
  /** Column I: payment modes. */
  const PAYMENT_MODE_COLUMN: nat := 8
  /** Column J: reasons an order was lost. */
  const REASON_STATUS_COLUMN: nat := 9
  /** Column K: reasons an order is on hold. */
  const HOLD_REASON_COLUMN: nat := 10

  /** The four option lists the component keeps in state. */
  datatype OptionLists = OptionLists(
    acceptanceVia: seq<Value>,
    paymentMode: seq<Value>,
    reasonStatus: seq<Value>,
    holdReason: seq<Value>)

  /** Which state option list a select draws from. */
  datatype OptionList = AcceptanceVia | PaymentMode | ReasonStatus | HoldReason

  /** The list of `lists` that a select naming `list` draws from. */
  function ListOf(lists: OptionLists, list: OptionList): seq<Value> {
    match list
    case AcceptanceVia => lists.acceptanceVia
    case PaymentMode => lists.paymentMode
    case ReasonStatus => lists.reasonStatus
    case HoldReason => lists.holdReason
  }

  /** The lists before any load has set them. */
  const EMPTY_LISTS := OptionLists([], [], [], [])

  /** The lists substituted when the load throws. */
  const FALLBACK_LISTS := OptionLists(
    [Str("email"), Str("phone"), Str("in-person"), Str("other")],
    [Str("cash"), Str("check"), Str("bank-transfer"), Str("credit-card")],
    [Str("price"), Str("competitor"), Str("timeline"), Str("specifications"), Str("other")],
    [Str("budget"), Str("approval"), Str("project-delay"), Str("reconsideration"), Str("other")])

  /** The outcome of the column loop: four lists, or the TypeError thrown by
      reading `row.c` on a `null` row. */
  datatype Extraction = Lists(lists: OptionLists) | TypeError

  /** The outcome of a whole load: lists to set, nothing to set (no `table.rows`),
      or a failure that brings in the fallback lists. */
  datatype Load = Loaded(lists: OptionLists) | NoTable | Failed

  /** The value the loop pushes for `row` at column `col`: present only when
      `row.c`, `row.c[col]` and `row.c[col].v` are all truthy. */
  function CellValue(row: Row, col: nat): (r: Option<Value>)
    ensures r.Some? ==>
      (Truthy(r.value) && row.Row? && row.c.Some? && col < |row.c.value|
       && row.c.value[col] == Some(Cell(r)))
    ensures forall v ::
      (row.Row? && row.c.Some? && col < |row.c.value|
       && row.c.value[col] == Some(Cell(Some(v))) && Truthy(v)) ==> r == Some(v)
  {
    match row
    case NullRow => None
    case Row(c) =>
      match c
      case None => None
      case Some(cells) =>
        if col < |cells| && cells[col].Some? && cells[col].value.v.Some?
           && Truthy(cells[col].value.v.value)
        then cells[col].value.v
        else None
  }

  /** What one row adds to the list of column `col`. */
  function Pushed(row: Row, col: nat): (r: seq<Value>)
    ensures |r| <= 1
    ensures r == [] <==> CellValue(row, col).None?
    ensures r != [] ==> CellValue(row, col) == Some(r[0])
  {
    match CellValue(row, col)
    case Some(v) => [v]
    case None => []
  }

  /** The list collected for column `col` over `rows`, in row order. */
  function Column(rows: seq<Row>, col: nat): (r: seq<Value>)
    ensures |r| <= |rows|
    ensures forall v :: v in r ==> Truthy(v)
  {
    if rows == [] then []
    else Column(rows[..|rows| - 1], col) + Pushed(rows[|rows| - 1], col)
  }

  /** `rows.slice(1)`: every row but the header. */
  function DataRows(rows: seq<Row>): (r: seq<Row>)
    ensures |r| == (if rows == [] then 0 else |rows| - 1)
    ensures forall k :: 0 <= k < |r| ==> r[k] == rows[k + 1]
  {
    if rows == [] then [] else rows[1..]
  }

  /** Some row of `rows` is `null`, so reading its `c` throws. */
  predicate HasNullRow(rows: seq<Row>) {
    exists k :: 0 <= k < |rows| && rows[k].NullRow?
  }

  /** The four lists built from the data rows, or the TypeError of a `null` row. */
  function Extract(rows: seq<Row>): (r: Extraction)
    ensures r.TypeError? <==> HasNullRow(DataRows(rows))
    ensures |rows| <= 1 ==> r == Lists(EMPTY_LISTS)
    ensures r.Lists? ==> var n := |DataRows(rows)|;
      && |r.lists.acceptanceVia| <= n && |r.lists.paymentMode| <= n
      && |r.lists.reasonStatus| <= n && |r.lists.holdReason| <= n
  {
    var data := DataRows(rows);
    if HasNullRow(data) then TypeError
    else Lists(OptionLists(
      Column(data, ACCEPTANCE_VIA_COLUMN),
      Column(data, PAYMENT_MODE_COLUMN),
      Column(data, REASON_STATUS_COLUMN),
      Column(data, HOLD_REASON_COLUMN)))
  }

  /** How a parsed document is acted on (line 31 and the loop it guards). */
  function Interpret(doc: Document): (r: Load)
    ensures r == NoTable <==> doc.table.None? || doc.table.value.rows.Missing?
    ensures r.Loaded? ==> exists rows :: doc.table == Some(Table(Array(rows))) && Extract(rows) == Lists(r.lists)
    ensures doc.table.Some? && doc.table.value.rows.NotArray? ==> r == Failed
    ensures doc.table.Some? && doc.table.value.rows.Array? && Extract(doc.table.value.rows.items).Lists? ==>
      r == Loaded(Extract(doc.table.value.rows.items).lists)
  {
    match doc.table
    case None => NoTable
    case Some(t) =>
      match t.rows
      case Missing => NoTable
      case NotArray => Failed
      case Array(rows) =>
        match Extract(rows)
        case TypeError => Failed
        case Lists(l) => Loaded(l)
  }

  /** The outcome of a load. `response` is the body text, or `None` when `fetch`
      or `response.text()` rejected; `parse` stands for `JSON.parse`. */
  function LoadOutcome(response: Option<string>, parse: string -> ParseResult): (r: Load)
    ensures response.None? ==> r == Failed
    ensures response.Some? && parse(Payload.ExtractPayload(response.value)).SyntaxError? ==> r == Failed
    ensures r.Loaded? ==> response.Some? && exists rows ::
      parse(Payload.ExtractPayload(response.value)) == Json(Document(Some(Table(Array(rows)))))
      && Extract(rows) == Lists(r.lists)
    ensures r == NoTable ==> response.Some? && var p := parse(Payload.ExtractPayload(response.value));
      p.Json? && (p.doc.table.None? || p.doc.table.value.rows.Missing?)
  {
    match response
    case None => Failed
    case Some(text) =>
      match parse(Payload.ExtractPayload(text))
      case SyntaxError => Failed
      case Json(doc) => Interpret(doc)
  }

  /** The lists the component holds after a load, starting from `before`: all four
      come from the same source, never some fetched and some fallback. */
  function AfterLoad(before: OptionLists, outcome: Load): (r: OptionLists)
    ensures outcome == Failed ==> r == FALLBACK_LISTS
    ensures outcome == NoTable ==> r == before
    ensures outcome.Loaded? ==> r == outcome.lists
  {
    match outcome
    case Loaded(l) => l
    case NoTable => before
    case Failed => FALLBACK_LISTS
  }

  /** The column loop of lines 33-62, written as the source writes it: four
      accumulators, one pass over `rows.slice(1)`, and a throw on a `null` row. */
  method CollectColumns(rows: seq<Row>) returns (r: Extraction)
    ensures r == Extract(rows)
  {
    var data := if rows == [] then [] else rows[1..];
    var acceptanceOptions: seq<Value> := [];
    var paymentOptions: seq<Value> := [];
    var reasonOptions: seq<Value> := [];
    var holdOptions: seq<Value> := [];
    var i := 0;
    while i < |data|
      invariant 0 <= i <= |data|
      invariant !HasNullRow(data[..i])
      invariant acceptanceOptions == Column(data[..i], ACCEPTANCE_VIA_COLUMN)
      invariant paymentOptions == Column(data[..i], PAYMENT_MODE_COLUMN)
      invariant reasonOptions == Column(data[..i], REASON_STATUS_COLUMN)
      invariant holdOptions == Column(data[..i], HOLD_REASON_COLUMN)
    {
      var row := data[i];
      if row.NullRow? {
        assert HasNullRow(data);
        return TypeError;
      }
      assert data[..i + 1][..i] == data[..i];
      match CellValue(row, ACCEPTANCE_VIA_COLUMN) {
        case Some(v) => acceptanceOptions := acceptanceOptions + [v];
        case None =>
      }
      match CellValue(row, PAYMENT_MODE_COLUMN) {
        case Some(v) => paymentOptions := paymentOptions + [v];
        case None =>
      }
      match CellValue(row, REASON_STATUS_COLUMN) {
        case Some(v) => reasonOptions := reasonOptions + [v];
        case None =>
      }
      match CellValue(row, HOLD_REASON_COLUMN) {
        case Some(v) => holdOptions := holdOptions + [v];
        case None =>
      }
      i := i + 1;
    }
    assert data[..i] == data;
    return Lists(OptionLists(acceptanceOptions, paymentOptions, reasonOptions, holdOptions));
  }

  // ---------------------------------------------------------------------------
  // Properties of the column projection

  /** Collecting over two stretches of rows is collecting over each in turn:
      values keep their row order. */
  lemma {:induction false} ColumnAppend(a: seq<Row>, b: seq<Row>, col: nat)
    ensures Column(a + b, col) == Column(a, col) + Column(b, col)
  {
    if b == [] {
      assert a + b == a;
    } else {
      var last := b[|b| - 1];
      assert (a + b)[..|a + b| - 1] == a + b[..|b| - 1];
      ColumnAppend(a, b[..|b| - 1], col);
    }
  }

  /** A value is in the list of a column exactly when some row holds it,
      present and truthy, in that column. */
  lemma {:induction false} ColumnMembers(rows: seq<Row>, col: nat, v: Value)
    ensures v in Column(rows, col) <==> exists k :: 0 <= k < |rows| && CellValue(rows[k], col) == Some(v)
  {
    if rows != [] {
      var init := rows[..|rows| - 1];
      ColumnMembers(init, col, v);
      if v in Column(rows, col) && v !in Column(init, col) {
        assert CellValue(rows[|rows| - 1], col) == Some(v);
      }
      if exists k :: 0 <= k < |rows| && CellValue(rows[k], col) == Some(v) {
        var k :| 0 <= k < |rows| && CellValue(rows[k], col) == Some(v);
        if k < |rows| - 1 {
          assert init[k] == rows[k];
        }
      }
    }
  }

  /** The list of a column depends only on that column: two tables that agree
      at `col` row by row give the same list, whatever their other columns hold. */
  lemma {:induction false} ColumnIndependent(rows: seq<Row>, rows': seq<Row>, col: nat)
    requires |rows| == |rows'|
    requires forall k :: 0 <= k < |rows| ==> CellValue(rows[k], col) == CellValue(rows'[k], col)
    ensures Column(rows, col) == Column(rows', col)
  {
    if rows != [] {
      var n := |rows| - 1;
      assert forall k :: 0 <= k < n ==> rows[..n][k] == rows[k] && rows'[..n][k] == rows'[k];
      ColumnIndependent(rows[..n], rows'[..n], col);
    }
  }

  /** Row `row` with cell `col` emptied. */
  function ClearCell(row: Row, col: nat): Row {
    match row
    case NullRow => NullRow
    case Row(c) =>
      match c
      case None => row
      case Some(cells) => if col < |cells| then Row(Some(cells[col := None])) else row
  }

  /** A missing cell in one column does not stop the same row's values in the
      other columns from being collected. */
  lemma ClearingOtherColumnKeepsList(rows: seq<Row>, k: nat, cleared: nat, col: nat)
    requires k < |rows| && cleared != col
    ensures Column(rows[k := ClearCell(rows[k], cleared)], col) == Column(rows, col)
  {
    ColumnIndependent(rows[k := ClearCell(rows[k], cleared)], rows, col);
  }

  // ---------------------------------------------------------------------------
  // Properties of the extraction

  /** The header row never contributes: replacing row 0 by any row at all
      (even a `null` one) leaves the extraction as it was. */
  lemma HeaderIgnored(rows: seq<Row>, header: Row)
    requires rows != []
    ensures Extract([header] + rows[1..]) == Extract(rows)
  {
    assert DataRows([header] + rows[1..]) == rows[1..];
  }

  /** A response whose payload parses to an array of rows with no `null` data row
      loads exactly the lists extracted from those rows. */
  lemma SuccessLoads(text: string, parse: string -> ParseResult, rows: seq<Row>)
    requires parse(Payload.ExtractPayload(text)) == Json(Document(Some(Table(Array(rows)))))
    requires forall k :: 1 <= k < |rows| ==> !rows[k].NullRow?
    ensures Extract(rows).Lists? && LoadOutcome(Some(text), parse) == Loaded(Extract(rows).lists)
  {
    ExtractThrows(rows);
  }

  /** The loop throws exactly when some data row (index 1 onwards) is `null`;
      then no list is produced at all. */
  lemma ExtractThrows(rows: seq<Row>)
    ensures Extract(rows).TypeError? <==> exists k :: 1 <= k < |rows| && rows[k].NullRow?
  {
    var data := DataRows(rows);
    if exists k :: 1 <= k < |rows| && rows[k].NullRow? {
      var k :| 1 <= k < |rows| && rows[k].NullRow?;
      assert data[k - 1].NullRow?;
    }
    if HasNullRow(data) {
      var k :| 0 <= k < |data| && data[k].NullRow?;
      assert rows[k + 1].NullRow?;
    }
  }

  /** Each extracted list holds exactly the present, truthy values of its column
      across rows 1..n, and is no longer than the number of data rows. */
  lemma ExtractedList(rows: seq<Row>, col: nat, v: Value)
    requires col in {ACCEPTANCE_VIA_COLUMN, PAYMENT_MODE_COLUMN, REASON_STATUS_COLUMN, HOLD_REASON_COLUMN}
    requires Extract(rows).Lists?
    ensures var l := Extract(rows).lists;
            var list := if col == ACCEPTANCE_VIA_COLUMN then l.acceptanceVia
                        else if col == PAYMENT_MODE_COLUMN then l.paymentMode
                        else if col == REASON_STATUS_COLUMN then l.reasonStatus
                        else l.holdReason;
            && (v in list <==> exists k :: 1 <= k < |rows| && CellValue(rows[k], col) == Some(v))
            && |list| <= if rows == [] then 0 else |rows| - 1
  {
    var data := DataRows(rows);
    ColumnMembers(data, col, v);
    if exists k :: 1 <= k < |rows| && CellValue(rows[k], col) == Some(v) {
      var k :| 1 <= k < |rows| && CellValue(rows[k], col) == Some(v);
      assert data[k - 1] == rows[k];
    }
    if exists k :: 0 <= k < |data| && CellValue(data[k], col) == Some(v) {
      var k :| 0 <= k < |data| && CellValue(data[k], col) == Some(v);
      assert rows[k + 1] == data[k];
    }
  }

  /** One more data row appends that row's values, at the end, to each list
      independently (row order is kept). */
  lemma ExtractAppendRow(rows: seq<Row>, row: Row)
    requires rows != [] && Extract(rows).Lists? && !row.NullRow?
    ensures Extract(rows + [row]).Lists?
    ensures var l, l' := Extract(rows).lists, Extract(rows + [row]).lists;
            && l'.acceptanceVia == l.acceptanceVia + Pushed(row, ACCEPTANCE_VIA_COLUMN)
            && l'.paymentMode == l.paymentMode + Pushed(row, PAYMENT_MODE_COLUMN)
            && l'.reasonStatus == l.reasonStatus + Pushed(row, REASON_STATUS_COLUMN)
            && l'.holdReason == l.holdReason + Pushed(row, HOLD_REASON_COLUMN)
  {
    var data := DataRows(rows);
    assert DataRows(rows + [row]) == data + [row];
    ExtractThrows(rows);
    ExtractThrows(rows + [row]);
    assert forall col: nat :: Column(data + [row], col) == Column(data, col) + Pushed(row, col) by {
      forall col: nat ensures Column(data + [row], col) == Column(data, col) + Pushed(row, col) {
        ColumnAppend(data, [row], col);
      }
    }
  }

  /** The one-data-row feed `[null x 7, email, cash, price, budget]` after a header
      yields one value in each list. */
  lemma SingleDataRow(header: Row)
    ensures var cells := [None, None, None, None, None, None, None,
                          Some(Cell(Some(Str("email")))), Some(Cell(Some(Str("cash")))),
                          Some(Cell(Some(Str("price")))), Some(Cell(Some(Str("budget"))))];
            Extract([header, Row(Some(cells))])
              == Lists(OptionLists([Str("email")], [Str("cash")], [Str("price")], [Str("budget")]))
  {
    var cells := [None, None, None, None, None, None, None,
                  Some(Cell(Some(Str("email")))), Some(Cell(Some(Str("cash")))),
                  Some(Cell(Some(Str("price")))), Some(Cell(Some(Str("budget"))))];
    var rows := [header, Row(Some(cells))];
    assert DataRows(rows) == [Row(Some(cells))];
    assert [Row(Some(cells))][..0] == [];
  }

  // ---------------------------------------------------------------------------
  // Properties of a load

  /** After a load the four lists come from one source only: exactly the fallback
      lists on a failure, exactly what they were without `table.rows`, and
      otherwise exactly the lists extracted from the rows of the parsed payload. */
  lemma LoadAllOrNothing(before: OptionLists, response: Option<string>, parse: string -> ParseResult)
    ensures var after := AfterLoad(before, LoadOutcome(response, parse));
            match LoadOutcome(response, parse)
            case Failed => after == FALLBACK_LISTS
            case NoTable => after == before
            case Loaded(l) =>
              && after == l
              && response.Some?
              && exists rows ::
                   parse(Payload.ExtractPayload(response.value)) == Json(Document(Some(Table(Array(rows)))))
                   && Extract(rows) == Lists(after)
  {
  }

  /** A load fails (and so falls back) exactly on a rejected fetch, an unparsable
      payload, a truthy non-array `rows`, or a `null` data row. */
  lemma FailureFallsBack(response: Option<string>, parse: string -> ParseResult)
    ensures LoadOutcome(response, parse) == Failed <==>
      || response.None?
      || (var p := parse(Payload.ExtractPayload(response.value));
          || p.SyntaxError?
          || (p.doc.table.Some? && p.doc.table.value.rows.NotArray?)
          || (p.doc.table.Some? && p.doc.table.value.rows.Array?
              && exists k :: 1 <= k < |p.doc.table.value.rows.items| && p.doc.table.value.rows.items[k].NullRow?))
  {
    if response.Some? {
      var p := parse(Payload.ExtractPayload(response.value));
      if p.Json? && p.doc.table.Some? && p.doc.table.value.rows.Array? {
        ExtractThrows(p.doc.table.value.rows.items);
      }
    }
  }

  /** Without a truthy `table.rows` nothing is set: the lists keep whatever they
      held (empty, on a fresh mount) and the fallback is not applied. */
  lemma NoRowsKeepsLists(before: OptionLists, doc: Document)
    requires doc.table.None? || doc.table.value.rows.Missing?
    ensures AfterLoad(before, Interpret(doc)) == before
  {
  }
}
