/** The component `OrderStatusForm` of OrderStatusFrom.jsx: its state (lines 6-11),
    the dropdown load that overwrites that state (lines 15-79), and the change
    handlers that forward to the parent (lines 84-100). Calls to the parent's
    `onFieldChange` are recorded, in order, in `forwarded`. */
module OrderStatusForm {
  import opened Wrappers
  import opened Sheet
  import opened Dropdowns
  import opened Sections
  import opened Bridge

  class OrderStatusForm {
    var orderStatus: string
    var acceptanceViaOptions: seq<Value>
    var paymentModeOptions: seq<Value>
    var reasonStatusOptions: seq<Value>
    var holdReasonOptions: seq<Value>
    var isLoadingDropdowns: bool
    /** The calls made so far to the parent's `onFieldChange`. */
    var forwarded: seq<Change>

    /** The four option lists held in state. */
    function Options(): OptionLists
      reads this
    {
      OptionLists(acceptanceViaOptions, paymentModeOptions, reasonStatusOptions, holdReasonOptions)
    }

    /** The fields rendered for the current status. */
    function Rendered(): (r: seq<Field>)
      reads this
      ensures |COMMON_FIELDS| <= |r| && r[..|COMMON_FIELDS|] == COMMON_FIELDS
      ensures forall g :: GateOf(g) == orderStatus ==> r == COMMON_FIELDS + GroupFields(g)
      ensures orderStatus !in {"yes", "no", "hold"} ==> r == COMMON_FIELDS
    {
      VisibleFields(orderStatus)
    }

    /** Mounting with the parent's `formData.orderStatus` (`None` when undefined):
        the status is that value or "", the lists are empty, nothing is loading
        and nothing has been forwarded. */
    constructor (formOrderStatus: Option<string>)
      ensures orderStatus == match formOrderStatus
        case Some(s) => s
        case None => ""
      ensures Options() == EMPTY_LISTS
      ensures !isLoadingDropdowns && forwarded == []
    {
      orderStatus := match formOrderStatus
        case Some(s) => s
        case None => "";
      acceptanceViaOptions := [];
      paymentModeOptions := [];
      reasonStatusOptions := [];
      holdReasonOptions := [];
      isLoadingDropdowns := false;
      forwarded := [];
    }

    /** Line 17: the loading flag is raised before the fetch is awaited. */
    method BeginDropdownFetch()
      modifies this`isLoadingDropdowns
      ensures isLoadingDropdowns
    {
      isLoadingDropdowns := true;
    }

    /** Lines 21-77, after the fetch settles: the lists become the fetched lists,
        stay as they were (no `table.rows`), or become the fallback lists; the
        loading flag is cleared on every path. */
    method CompleteDropdownFetch(response: Option<string>, parse: string -> ParseResult)
      modifies this
      ensures Options() == AfterLoad(old(Options()), LoadOutcome(response, parse))
      ensures LoadOutcome(response, parse) == Failed ==> Options() == FALLBACK_LISTS
      ensures LoadOutcome(response, parse) == NoTable ==> Options() == old(Options())
      ensures !isLoadingDropdowns
      ensures orderStatus == old(orderStatus) && forwarded == old(forwarded)
    {
      var outcome := RunLoad(response, parse);
      match outcome {
        case Loaded(l) =>
          acceptanceViaOptions := l.acceptanceVia;
          paymentModeOptions := l.paymentMode;
          reasonStatusOptions := l.reasonStatus;
          holdReasonOptions := l.holdReason;
        case NoTable =>
        case Failed =>
          acceptanceViaOptions := FALLBACK_LISTS.acceptanceVia;
          paymentModeOptions := FALLBACK_LISTS.paymentMode;
          reasonStatusOptions := FALLBACK_LISTS.reasonStatus;
          holdReasonOptions := FALLBACK_LISTS.holdReason;
      }
      isLoadingDropdowns := false;
    }

    /** The whole of `fetchDropdownOptions`, with the awaited response as input. */
    method FetchDropdownOptions(response: Option<string>, parse: string -> ParseResult)
      modifies this
      ensures Options() == AfterLoad(old(Options()), LoadOutcome(response, parse))
      ensures !isLoadingDropdowns
      ensures orderStatus == old(orderStatus) && forwarded == old(forwarded)
    {
      BeginDropdownFetch();
      CompleteDropdownFetch(response, parse);
    }

    /** `handleChange`: the input's name and raw value are forwarded verbatim. */
    method HandleChange(name: string, value: string)
      modifies this`forwarded
      ensures forwarded == old(forwarded) + [Change(name, Text(value))]
    {
      forwarded := forwarded + [Change(name, Text(value))];
    }

    /** `handleFileChange`: forwards the first selected file, if there is one. */
    method HandleFileChange(name: string, files: seq<FileHandle>)
      modifies this`forwarded
      ensures forwarded == old(forwarded) + FileChanges(name, files)
      ensures files == [] ==> forwarded == old(forwarded)
    {
      if files != [] {
        forwarded := forwarded + [Change(name, File(files[0]))];
      }
    }

    /** `handleStatusChange`: the local status becomes `status` and exactly
        `('orderStatus', status)` is forwarded; the rendered groups follow. */
    method HandleStatusChange(status: string)
      modifies this`orderStatus, this`forwarded
      ensures orderStatus == status
      ensures forwarded == old(forwarded) + [Change("orderStatus", Text(status))]
      ensures Rendered() == VisibleFields(status)
    {
      orderStatus := status;
      forwarded := forwarded + [Change("orderStatus", Text(status))];
    }
  }

  /** The body of the `try` block (lines 21-68) up to the state updates: the
      payload is cut out, parsed, checked for `table.rows` and run through the
      column loop; a throw anywhere is reported as `Failed`. */
  method RunLoad(response: Option<string>, parse: string -> ParseResult) returns (outcome: Load)
    ensures outcome == LoadOutcome(response, parse)
  {
    match response {
      case None =>
        return Failed;
      case Some(text) =>
        var jsonData := Payload.ExtractPayload(text);
        match parse(jsonData) {
          case SyntaxError =>
            return Failed;
          case Json(data) =>
            if data.table.None? || data.table.value.rows.Missing? {
              return NoTable;
            }
            match data.table.value.rows {
              case NotArray =>
                return Failed;
              case Array(rows) =>
                var extraction := CollectColumns(rows);
                match extraction {
                  case TypeError => return Failed;
                  case Lists(l) => return Loaded(l);
                }
            }
        }
    }
  }

  /** Every select renders over the fallback lists: each option is a string
      without capitals, so the value of its entry is its own text. */
  lemma FallbackSelectsRender(placeholder: string, list: OptionList)
    ensures var options := ListOf(FALLBACK_LISTS, list);
            var r := SelectEntries(placeholder, options);
            && r.Some?
            && forall i :: 1 <= i < |r.value| ==> r.value[i].value == r.value[i].caption == options[i - 1].s
  {
    var options := ListOf(FALLBACK_LISTS, list);
    forall i, k | 0 <= i < |options| && 0 <= k < |options[i].s| ensures !IsUpper(options[i].s[k]) {
      NoCapitalsInFallback(list, i, k);
    }
    LowerCaseEntries(placeholder, options);
  }

  /** Each fallback option is a string without capitals. */
  lemma NoCapitalsInFallback(list: OptionList, i: nat, k: nat)
    requires i < |ListOf(FALLBACK_LISTS, list)|
    ensures ListOf(FALLBACK_LISTS, list)[i].Str?
    ensures k < |ListOf(FALLBACK_LISTS, list)[i].s| ==> !IsUpper(ListOf(FALLBACK_LISTS, list)[i].s[k])
  {
  }

  /** Switching the status any number of times (yes, then no, then yes again)
      keeps the values already entered in every group's fields in the parent's
      form data: each switch forwards only the `orderStatus` key. */
  lemma SwitchingStatusKeepsGroupValues(data: map<string, FieldValue>, statuses: seq<string>, g: Group, f: Field)
    requires f in GroupFields(g) && f.name in data
    ensures var changes := seq(|statuses|, i requires 0 <= i < |statuses| => Change("orderStatus", Text(statuses[i])));
            f.name in Store(data, changes) && Store(data, changes)[f.name] == data[f.name]
  {
    var changes := seq(|statuses|, i requires 0 <= i < |statuses| => Change("orderStatus", Text(statuses[i])));
    FieldNamesDistinct(g, g, f, f);
    StoreKeepsUnnamed(data, changes, f.name);
  }
}
