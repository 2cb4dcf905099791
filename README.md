# OrderStatusForm — a verified model of the order-status form's decision core

`OrderStatusForm` is the React component of a lead-to-order tracker that records
whether an order was received ("yes"), lost ("no") or put on hold ("hold"). It
does three things, and this project models each of them in Dafny:

1. **Dropdown loader.** On mount the component fetches the DROPDOWN sheet of a
   spreadsheet as a text-wrapped JSON feed. It cuts the JSON payload from the first `{`
   to the last `}` and hands it to `JSON.parse`. It skips the header row and collects
   the truthy cell values of columns H, I, J and K (indices 7 to 10) into four option
   lists: acceptance channel, payment mode, lost reason and hold reason. Any throw
   replaces all four lists with fixed fallback lists. A document without `table.rows`
   sets nothing. A loading flag is raised for the duration.
2. **Status-gated sections.** The status radios choose which of three field
   groups is rendered. Each select offers a placeholder entry and then one entry per
   option, whose value is the lower-cased option text.
3. **Change forwarding.** Text, number, date and select changes are forwarded
   verbatim to the parent's `onFieldChange(name, value)`. A file change is forwarded
   only when a first file exists. A status change sets the local status and forwards
   `('orderStatus', status)`.

Modules (one file each):

- `Wrappers` (wrappers.dfy): `Option`.
- `Sheet` (sheet.dfy): the parsed feed as datatypes (`Document`, `Table`, `Rows`,
  `Row`, `Cell`, `Value`), `ParseResult` for the outcome of `JSON.parse`, and
  JavaScript truthiness.
- `Payload` (payload.dfy): `indexOf`, `lastIndexOf` and `substring` with
  JavaScript's clamping and swapping rules, positions counted in characters, and the
  payload slice.
- `Dropdowns` (dropdowns.dfy): the column projection (`Column`, `Extract`), the column
  loop as written (`CollectColumns`), the fallback lists and the outcome of a load
  (`LoadOutcome`, `AfterLoad`).
- `Sections` (sections.dfy): the status gates, the fields of each group (name, kind,
  `required` hint) and the entries of a select.
- `Bridge` (bridge.dfy): the forwarded calls (`Change`). `Store` models a parent that
  stores every forwarded pair. It is used to state that switching status never clears
  values entered in the groups.
- `OrderStatusForm` (form.dfy): the class with the component's state fields and
  handlers. Every call to `onFieldChange` is appended to the field `forwarded`.

The network response and `JSON.parse` are inputs. `CompleteDropdownFetch`, `RunLoad`
and `FetchDropdownOptions` take `response: Option<string>`, which is `None` when
`fetch` or `response.text()` rejects. They also take `parse: string -> ParseResult`,
which stands for `JSON.parse`.

Edge cases of the code that the model follows:

- `substring` swaps its arguments when the start is after the end. So a text with a
  `{` but no `}` gives the text *before* the first `{` as the payload, and no error is
  raised at that point (`PayloadWithoutClosingBrace`).
- A `null` entry among the data rows makes `row.c` throw. A truthy `rows` that is not
  an array makes `slice`/`forEach` throw. Both lead to the fallback lists
  (`FailureFallsBack`). A `null` header row is harmless.
- A JSON object or array at `v` is truthy, so it is pushed into its list. Such a
  value (`Composite`) has no `toLowerCase`, so rendering that select throws
  (`SelectEntries` is `None`).
- The status is initialised from `formData.orderStatus || ""`, so it is a string and
  not only one of the four documented values. Any value other than "yes", "no" or
  "hold" renders no group.

## Model

| member | source | states |
|---|---|---|
| `Payload.IndexOf` | src/components/call-tracker/OrderStatusFrom.jsx:25 | result is -1 exactly when the character is absent, otherwise its first position |
| `Payload.LastIndexOf` | src/components/call-tracker/OrderStatusFrom.jsx:26 | result is -1 exactly when the character is absent, otherwise its last position |
| `Payload.Clamp` | src/components/call-tracker/OrderStatusFrom.jsx:27 | an argument of substring is clamped into [0, len]: kept when in range, 0 when negative, len when above len |
| `Payload.Substring` | src/components/call-tracker/OrderStatusFrom.jsx:27 | the slice between start and end when 0 <= start <= end <= len, the swapped slice when end <= start, the prefix s[..end] for a negative start, the suffix s[start..] for an end past the text, the whole text when the bounds cover it |
| `Payload.ExtractPayload` | src/components/call-tracker/OrderStatusFrom.jsx:25-27 | the payload is no longer than the text, is empty when the text has no brace, and is text[first `{`..last `}`] (starting with `{`, ending with `}`) when the first `{` precedes the last `}` |
| `Payload.PayloadBetweenBraces` | src/components/call-tracker/OrderStatusFrom.jsx:25-27 | with the first `{` at i and the last `}` at j >= i, the payload is text[i..j+1]: it starts with `{` and ends with `}` |
| `Payload.PayloadWithoutBraces` | src/components/call-tracker/OrderStatusFrom.jsx:25-27 | a text with neither brace gives the empty payload |
| `Payload.PayloadWithoutClosingBrace` | src/components/call-tracker/OrderStatusFrom.jsx:25-27 | a `{` with no `}` gives the text before the first `{`, because substring swaps its arguments |
| `Payload.PayloadWithoutOpeningBrace` | src/components/call-tracker/OrderStatusFrom.jsx:25-27 | a `}` with no `{` gives the text up to and including the last `}` |
| `Payload.PayloadBracesReversed` | src/components/call-tracker/OrderStatusFrom.jsx:25-27 | when the last `}` precedes the first `{`, the payload is the text strictly between them |
| `Sheet.Truthy` | src/components/call-tracker/OrderStatusFrom.jsx:44-59 | a present value is truthy exactly when it is not the empty string, zero or false (objects and arrays are truthy) |
| `Dropdowns.CellValue` | src/components/call-tracker/OrderStatusFrom.jsx:44-59 | a pushed value is present and truthy at `row.c[col].v`; every present, truthy value there is pushed |
| `Dropdowns.Pushed` | src/components/call-tracker/OrderStatusFrom.jsx:44-60 | a row pushes at most one value per column, exactly when `CellValue` is present, and that value |
| `Dropdowns.DataRows` | src/components/call-tracker/OrderStatusFrom.jsx:42 | `rows.slice(1)`: one row fewer (none for no rows), row k being row k+1 of the table |
| `Dropdowns.Column` | src/components/call-tracker/OrderStatusFrom.jsx:42-61 | a column's list is no longer than the rows it is collected from, and each of its values is truthy |
| `Dropdowns.CollectColumns` | src/components/call-tracker/OrderStatusFrom.jsx:33-62 | the four-accumulator loop over rows.slice(1), including its throw on a null row, computes exactly `Extract` |
| `Dropdowns.ColumnAppend` | src/components/call-tracker/OrderStatusFrom.jsx:42-61 | collecting over a+b gives a's list followed by b's list, so source row order is kept |
| `Dropdowns.ColumnMembers` | src/components/call-tracker/OrderStatusFrom.jsx:44-61 | a value is in a column's list exactly when some row has it, present and truthy, at that column |
| `Dropdowns.ColumnIndependent` | src/components/call-tracker/OrderStatusFrom.jsx:44-61 | a column's list depends only on the cells at that column, row by row |
| `Dropdowns.ClearingOtherColumnKeepsList` | src/components/call-tracker/OrderStatusFrom.jsx:44-61 | emptying a cell of another column in any row leaves a column's list unchanged |
| `Dropdowns.HeaderIgnored` | src/components/call-tracker/OrderStatusFrom.jsx:41-42 | replacing row 0 by any row, even a null one, leaves the extraction unchanged |
| `Dropdowns.ExtractThrows` | src/components/call-tracker/OrderStatusFrom.jsx:42-44 | the extraction throws exactly when some row at index 1 or later is null |
| `Dropdowns.Extract` | src/components/call-tracker/OrderStatusFrom.jsx:42-61 | throws exactly when a row of rows.slice(1) is null; a table of at most one row gives four empty lists; each list has at most rows-1 entries |
| `Dropdowns.ExtractedList` | src/components/call-tracker/OrderStatusFrom.jsx:42-61 | each of the four lists holds exactly the truthy values of its column (7, 8, 9, 10) in rows 1..n, and has at most rows-1 entries |
| `Dropdowns.ExtractAppendRow` | src/components/call-tracker/OrderStatusFrom.jsx:42-61 | one more data row appends that row's values, at the end, to each list independently |
| `Dropdowns.SingleDataRow` | src/components/call-tracker/OrderStatusFrom.jsx:42-61 | a header and one row with email, cash, price, budget at columns 7-10 give one matching value in each list |
| `Dropdowns.Interpret` | src/components/call-tracker/OrderStatusFrom.jsx:31-62 | nothing is set exactly when `table` or `table.rows` is missing; a non-array `rows` fails; an array `rows` whose extraction succeeds loads exactly those lists, and lists are loaded only from the rows of the table |
| `Dropdowns.LoadOutcome` | src/components/call-tracker/OrderStatusFrom.jsx:21-62 | a rejected fetch or a parse error fails; loaded lists are always the extraction of the rows of the parsed payload; nothing is set only when the parsed document lacks `table` or `table.rows` |
| `Dropdowns.SuccessLoads` | src/components/call-tracker/OrderStatusFrom.jsx:21-62 | a response whose payload parses to an array of rows with no null data row loads exactly the lists extracted from those rows |
| `Dropdowns.AfterLoad` | src/components/call-tracker/OrderStatusFrom.jsx:64-75 | after a failure the lists are exactly the fallback lists (email/phone/in-person/other, cash/check/bank-transfer/credit-card, price/competitor/timeline/specifications/other, budget/approval/project-delay/reconsideration/other); without table.rows they are unchanged; otherwise the loaded lists |
| `Dropdowns.LoadAllOrNothing` | src/components/call-tracker/OrderStatusFrom.jsx:64-75 | per outcome, the four lists come from one source: exactly the fallback lists on a failure, exactly the previous lists without table.rows, exactly the lists extracted from the rows of the parsed payload otherwise |
| `Dropdowns.FailureFallsBack` | src/components/call-tracker/OrderStatusFrom.jsx:21-44 | a load fails exactly on a rejected fetch, a parse error, a non-array truthy rows, or a null data row |
| `Dropdowns.NoRowsKeepsLists` | src/components/call-tracker/OrderStatusFrom.jsx:31 | a document without table or without truthy rows sets no list and does not fall back |
| `Sections.GateOf` | src/components/call-tracker/OrderStatusFrom.jsx:172-326 | the gates "yes", "no" and "hold" belong to Received, Lost and OnHold, each to that group only |
| `Sections.GroupsShown` | src/components/call-tracker/OrderStatusFrom.jsx:172-378 | a group is shown exactly when the status equals its gate, and at most one group is shown |
| `Sections.GroupFields` | src/components/call-tracker/OrderStatusFrom.jsx:176-376 | every select of a group is required and draws from a list of that group; file inputs and remarks are optional |
| `Sections.VisibleFields` | src/components/call-tracker/OrderStatusFrom.jsx:107-378 | the common fields come first; a status that gates a group renders exactly the common fields and that group's; any other status renders only the common fields |
| `Sections.ExactlyOneGroup` | src/components/call-tracker/OrderStatusFrom.jsx:172-378 | "yes", "no" and "hold" each show exactly their own group (iff); every other status, "" included, shows none |
| `Sections.FieldVisibility` | src/components/call-tracker/OrderStatusFrom.jsx:172-378 | a group's field is rendered exactly when its group is shown, and the common fields always are |
| `Sections.FieldNamesDistinct` | src/components/call-tracker/OrderStatusFrom.jsx:107-376 | field names differ across groups and from the common fields, and no group field is named orderStatus |
| `Sections.ApartFromCommon` | src/components/call-tracker/OrderStatusFrom.jsx:107-170 | no group field is named like a common field, orderStatus included |
| `Sections.GroupsApart` | src/components/call-tracker/OrderStatusFrom.jsx:176-376 | two different groups share no field name |
| `Sections.LowerChar` | src/components/call-tracker/OrderStatusFrom.jsx:191 | a capital A-Z maps to the letter 32 code points above it; every other character is unchanged; the result is never a capital |
| `Sections.Lower` | src/components/call-tracker/OrderStatusFrom.jsx:191 | lower-casing keeps the length, maps each character by LowerChar, and leaves no upper-case letter |
| `Sections.LowerProperties` | src/components/call-tracker/OrderStatusFrom.jsx:191 | lower-casing changes only upper-case letters, is idempotent, and leaves lower-case text as it is |
| `Sections.Entries` | src/components/call-tracker/OrderStatusFrom.jsx:190-192 | defined exactly when every option is a string, and then entry i has value Lower(option i) and caption option i |
| `Sections.SelectEntries` | src/components/call-tracker/OrderStatusFrom.jsx:189-192 | a select's entries are the empty-valued placeholder followed, in order, by one lower-cased entry per option; none when an option is not a string |
| `Sections.LowerCaseEntries` | src/components/call-tracker/OrderStatusFrom.jsx:189-192 | options that are strings without capitals render, and each entry's value equals its caption |
| `OrderStatusForm.FallbackSelectsRender` | src/components/call-tracker/OrderStatusFrom.jsx:72-75 | each select renders over its fallback list, with every entry's value equal to its caption |
| `OrderStatusForm.NoCapitalsInFallback` | src/components/call-tracker/OrderStatusFrom.jsx:72-75 | every fallback option is a string without capitals |
| `Bridge.FileChanges` | src/components/call-tracker/OrderStatusFrom.jsx:89-95 | one forwarded call, for files[0], when a file exists; none otherwise |
| `Bridge.Store` | src/components/call-tracker/OrderStatusFrom.jsx:84-100 | applying forwarded calls removes no key |
| `Bridge.StoreKeepsUnnamed` | src/components/call-tracker/OrderStatusFrom.jsx:84-100 | a key that no forwarded call names keeps its value (or stays absent) |
| `OrderStatusForm.RunLoad` | src/components/call-tracker/OrderStatusFrom.jsx:21-68 | the try block's computation (slice, parse, table check, column loop) yields exactly `LoadOutcome` |
| `OrderStatusForm.SwitchingStatusKeepsGroupValues` | src/components/call-tracker/OrderStatusFrom.jsx:97-100 | any run of status switches leaves every group field's stored value as it was |
| `OrderStatusForm.OrderStatusForm.Rendered` | src/components/call-tracker/OrderStatusFrom.jsx:102-380 | the common fields first; for a status that gates a group, the common fields then that group's; for any other status, only the common fields |
| `OrderStatusForm.OrderStatusForm.constructor` | src/components/call-tracker/OrderStatusFrom.jsx:6-11 | the status starts as formData.orderStatus or "", the four lists start empty, loading is false, nothing is forwarded |
| `OrderStatusForm.OrderStatusForm.BeginDropdownFetch` | src/components/call-tracker/OrderStatusFrom.jsx:17 | the loading flag is raised before the fetch is awaited |
| `OrderStatusForm.OrderStatusForm.CompleteDropdownFetch` | src/components/call-tracker/OrderStatusFrom.jsx:21-77 | the lists become exactly the fetched lists, the fallback lists on any failure, or stay unchanged without table.rows; the loading flag is false; status and forwarded calls are untouched |
| `OrderStatusForm.OrderStatusForm.FetchDropdownOptions` | src/components/call-tracker/OrderStatusFrom.jsx:15-79 | the whole load: the lists follow `AfterLoad` of the outcome and loading ends false |
| `OrderStatusForm.OrderStatusForm.HandleChange` | src/components/call-tracker/OrderStatusFrom.jsx:84-87 | exactly one call (name, raw value) is forwarded |
| `OrderStatusForm.OrderStatusForm.HandleFileChange` | src/components/call-tracker/OrderStatusFrom.jsx:89-95 | forwards (name, files[0]) when a file exists, and nothing otherwise |
| `OrderStatusForm.OrderStatusForm.HandleStatusChange` | src/components/call-tracker/OrderStatusFrom.jsx:97-100 | the local status becomes the chosen one, exactly ('orderStatus', status) is forwarded, and the rendered fields are those of that status |

## Left out

- Network I/O: `fetch`, `response.text()` and the spreadsheet URL. The awaited response is an input, `None` when it rejects.
- `JSON.parse`: a foreign call, passed in as `parse`. Its result is the `Sheet` datatypes and its failure is `SyntaxError`.
- `row.c` as a truthy value that is not an array (an object with numeric keys, a string) is not modelled. `c` is an array or absent.
- IndexOf: positions are counted in characters, while JavaScript counts UTF-16 code units. With a character outside the Basic Multilingual Plane before the brace, the model's position differs from JavaScript's.
- LastIndexOf: counts positions in characters, not UTF-16 code units, for the same reason.
- Substring: takes its bounds in characters, not UTF-16 code units, for the same reason.
- ExtractPayload: works in characters throughout, so the payload text cut out is the same as JavaScript's, although the positions may differ.
- Lower: models `toLowerCase` for the ASCII letters only. Unicode case mapping is not modelled. JavaScript strings are UTF-16, while Dafny strings are sequences of characters.
- LowerChar: maps the ASCII capitals only, for the same reason.
- LowerProperties: holds of the ASCII-only mapping, for the same reason.
- React scheduling: `useState`/`useEffect`, re-rendering, JSX markup and CSS classes, and the browser's own enforcement of `required`. The `required` hint is kept as a flag on each field.
- Async timing: the model cannot observe the moment between raising and clearing the loading flag. `BeginDropdownFetch` and `CompleteDropdownFetch` are the two halves either side of the await. A state write after unmount is not modelled.
- `console.error` logging.
- `File` objects are opaque handles (`FileHandle`).
- The parent's handling of `onFieldChange` is not part of this component. `Store` assumes a parent that stores each pair. It is used only to state what forwarding can and cannot change.
