/** The status-gated field groups of OrderStatusFrom.jsx (lines 102-380) and the
    option entries of its selects. Markup and styling are not modelled; what is
    kept is which fields are rendered for a status, their kinds, their `required`
    hints, and the value each select option carries. */
module Sections {
  import opened Wrappers
  import opened Sheet
  import opened Dropdowns

  /** The three optional field groups. */
  datatype Group = Received | Lost | OnHold

  datatype Kind =
    | TextInput | NumberInput | DateInput | FileInput | TextArea | StatusRadios
    | Select(list: OptionList, placeholder: string)

  /** A rendered form field: its `name`, its kind and whether it bears `required`. */
  datatype Field = Field(name: string, kind: Kind, required: bool)

  /** The status value that shows a group (`orderStatus === "yes"` and so on). */
  function GateOf(g: Group): (r: string)
    ensures r == "yes" <==> g == Received
    ensures r == "no" <==> g == Lost
    ensures r == "hold" <==> g == OnHold
  {
    match g
    case Received => "yes"
    case Lost => "no"
    case OnHold => "hold"
  }

  /** The groups rendered for a status: a group is shown when the status equals its gate. */
  function GroupsShown(status: string): (r: set<Group>)
    ensures forall g :: g in r <==> GateOf(g) == status
    ensures forall g, h :: g in r && h in r ==> g == h
  {
    set g: Group | g in {Received, Lost, OnHold} && GateOf(g) == status
  }

  /** The fields rendered whatever the status. */
  const COMMON_FIELDS: seq<Field> := [
    Field("orderStatusQuotationNumber", TextInput, true),
    Field("orderStatus", StatusRadios, false)]

  /** The group whose select draws from a list. */
  function ListGroup(list: OptionList): Group {
    match list
    case AcceptanceVia => Received
    case PaymentMode => Received
    case ReasonStatus => Lost
    case HoldReason => OnHold
  }

  /** The fields of each group, in rendering order. Every select is required and
      draws from a list of its own group; file inputs and remarks are optional.
      (Names are kept apart by `FieldNamesDistinct`.) */
  function GroupFields(g: Group): (r: seq<Field>)
    ensures forall i :: 0 <= i < |r| && r[i].kind.Select? ==> r[i].required && ListGroup(r[i].kind.list) == g
    ensures forall i :: 0 <= i < |r| && (r[i].kind.FileInput? || r[i].kind.TextArea?) ==> !r[i].required
  {
    match g
    case Received => [
      Field("acceptanceVia", Select(AcceptanceVia, "Select method"), true),
      Field("paymentMode", Select(PaymentMode, "Select mode"), true),
      Field("paymentTerms", NumberInput, true),
      Field("orderVideo", FileInput, false),
      Field("acceptanceFile", FileInput, false),
      Field("orderRemark", TextArea, false)]
    case Lost => [
      Field("apologyVideo", FileInput, false),
      Field("reasonStatus", Select(ReasonStatus, "Select reason"), true),
      Field("reasonRemark", TextArea, false)]
    case OnHold => [
      Field("holdReason", Select(HoldReason, "Select reason"), true),
      Field("holdingDate", DateInput, true),
      Field("holdRemark", TextArea, false)]
  }

  /** The fields rendered for a status, in rendering order: the common fields
      first, then the fields of the group the status gates, if any. */
  function VisibleFields(status: string): (r: seq<Field>)
    ensures |r| >= |COMMON_FIELDS| && r[..|COMMON_FIELDS|] == COMMON_FIELDS
    ensures forall g :: GateOf(g) == status ==> r == COMMON_FIELDS + GroupFields(g)
    ensures status !in {"yes", "no", "hold"} ==> r == COMMON_FIELDS
  {
    COMMON_FIELDS
      + (if status == "yes" then GroupFields(Received) else [])
      + (if status == "no" then GroupFields(Lost) else [])
      + (if status == "hold" then GroupFields(OnHold) else [])
  }

  /** "yes", "no" and "hold" each show exactly their own group; any other
      status, the unset "" among them, shows none. */
  lemma ExactlyOneGroup(status: string)
    ensures status == "yes" <==> GroupsShown(status) == {Received}
    ensures status == "no" <==> GroupsShown(status) == {Lost}
    ensures status == "hold" <==> GroupsShown(status) == {OnHold}
    ensures status !in {"yes", "no", "hold"} <==> GroupsShown(status) == {}
    ensures |GroupsShown(status)| <= 1
  {
    if status == "yes" {
      assert Received in GroupsShown(status);
      assert GroupsShown(status) == {Received};
    } else if status == "no" {
      assert Lost in GroupsShown(status);
      assert GroupsShown(status) == {Lost};
    } else if status == "hold" {
      assert OnHold in GroupsShown(status);
      assert GroupsShown(status) == {OnHold};
    } else {
      assert GroupsShown(status) == {};
    }
  }

  /** A field of a group is rendered exactly when that group is shown; the common
      fields are always rendered. */
  lemma FieldVisibility(status: string, g: Group, f: Field)
    requires f in GroupFields(g)
    ensures f in VisibleFields(status) <==> g in GroupsShown(status)
    ensures forall c :: c in COMMON_FIELDS ==> c in VisibleFields(status)
  {
    var r := VisibleFields(status);
    assert forall c :: c in COMMON_FIELDS ==> c in r[..|COMMON_FIELDS|];
    if GateOf(g) == status {
      assert r == COMMON_FIELDS + GroupFields(g);
    } else {
      assert g !in GroupsShown(status);
      FieldNamesDistinct(g, g, f, f);
      assert f !in COMMON_FIELDS;
      if status in {"yes", "no", "hold"} {
        var h := if status == "yes" then Received else if status == "no" then Lost else OnHold;
        assert GateOf(h) == status && h != g;
        assert r == COMMON_FIELDS + GroupFields(h);
        if f in GroupFields(h) {
          FieldNamesDistinct(g, h, f, f);
        }
      } else {
        assert r == COMMON_FIELDS;
      }
    }
  }

  /** No two fields share a name: a group's fields are named apart from the other
      groups' and from the common fields, so the status radios' `orderStatus` key
      is never the key of a group field. */
  lemma FieldNamesDistinct(g: Group, h: Group, f: Field, e: Field)
    requires f in GroupFields(g)
    ensures e in GroupFields(h) && g != h ==> f.name != e.name
    ensures e in COMMON_FIELDS ==> f.name != e.name
    ensures f.name != "orderStatus"
  {
    ApartFromCommon(g, f, e);
    if e in GroupFields(h) && g != h {
      var i :| 0 <= i < |GroupFields(g)| && GroupFields(g)[i] == f;
      var j :| 0 <= j < |GroupFields(h)| && GroupFields(h)[j] == e;
      GroupsApart(g, h, i, j);
    }
  }

  /** No group field shares a name with a common field. */
  lemma ApartFromCommon(g: Group, f: Field, e: Field)
    requires f in GroupFields(g)
    ensures e in COMMON_FIELDS ==> f.name != e.name
    ensures f.name != "orderStatus"
  {
  }

  /** Two different groups share no field name. */
  lemma GroupsApart(g: Group, h: Group, i: nat, j: nat)
    requires g != h && i < |GroupFields(g)| && j < |GroupFields(h)|
    ensures GroupFields(g)[i].name != GroupFields(h)[j].name
  {
    PrefixNamesGroup(g, i);
    PrefixNamesGroup(h, j);
  }

  /** Proof device: the group a field name belongs to, read off its first two
      characters. Comparing every pair of the long name literals of two groups
      directly is too costly for the solver; two characters already tell the
      groups apart, so distinctness across groups follows from this function. */
  function PrefixGroup(name: string): Option<Group> {
    if |name| < 2 then None
    else match (name[0], name[1])
      case ('a', 'c') => Some(Received)
      case ('p', 'a') => Some(Received)
      case ('o', 'r') => Some(Received)
      case ('a', 'p') => Some(Lost)
      case ('r', 'e') => Some(Lost)
      case ('h', 'o') => Some(OnHold)
      case _ => None
  }

  /** Every field name of a group starts with a prefix of that group. */
  lemma PrefixNamesGroup(g: Group, i: nat)
    requires i < |GroupFields(g)|
    ensures PrefixGroup(GroupFields(g)[i].name) == Some(g)
  {
  }

  // ---------------------------------------------------------------------------
  // Option entries of a select

  predicate IsUpper(c: char) {
    'A' <= c <= 'Z'
  }

  /** `String.prototype.toLowerCase` on one character, for the ASCII letters. */
  function LowerChar(c: char): (r: char)
    ensures !IsUpper(r)
    ensures IsUpper(c) ==> r as int == c as int - 'A' as int + 'a' as int
    ensures !IsUpper(c) ==> r == c
  {
    if IsUpper(c) then (c as int - 'A' as int + 'a' as int) as char else c
  }

  /** `s.toLowerCase()`, for the ASCII letters. */
  function Lower(s: string): (r: string)
    ensures |r| == |s|
    ensures forall i :: 0 <= i < |r| ==> !IsUpper(r[i])
    ensures forall i :: 0 <= i < |r| ==> r[i] == LowerChar(s[i])
  {
    seq(|s|, i requires 0 <= i < |s| => LowerChar(s[i]))
  }

  /** Lower-casing changes only the upper-case letters and is idempotent. */
  lemma LowerProperties(s: string)
    ensures forall i :: 0 <= i < |s| && !IsUpper(s[i]) ==> Lower(s)[i] == s[i]
    ensures Lower(Lower(s)) == Lower(s)
    ensures (forall i :: 0 <= i < |s| ==> !IsUpper(s[i])) ==> Lower(s) == s
  {
  }

  /** A rendered `<option value=...>caption</option>`. */
  datatype OptionEntry = OptionEntry(value: string, caption: string)

  /** The entries `list.map(option => <option value={option.toLowerCase()}>{option}</option>)`;
      `None` when some option is not a string, on which `toLowerCase` throws. */
  function Entries(options: seq<Value>): (r: Option<seq<OptionEntry>>)
    ensures r.Some? <==> forall i :: 0 <= i < |options| ==> options[i].Str?
    ensures r.Some? ==> |r.value| == |options|
    ensures r.Some? ==> forall i :: 0 <= i < |options| ==>
      r.value[i] == OptionEntry(Lower(options[i].s), options[i].s)
  {
    if options == [] then Some([])
    else
      match Entries(options[1..])
      case None => None
      case Some(rest) =>
        if options[0].Str? then Some([OptionEntry(Lower(options[0].s), options[0].s)] + rest)
        else None
  }

  /** A select's entries: the empty-valued placeholder, then one entry per option. */
  function SelectEntries(placeholder: string, options: seq<Value>): (r: Option<seq<OptionEntry>>)
    ensures r.Some? <==> forall i :: 0 <= i < |options| ==> options[i].Str?
    ensures r.Some? ==> |r.value| == |options| + 1 && r.value[0] == OptionEntry("", placeholder)
    ensures r.Some? ==> forall i :: 0 <= i < |options| ==>
      r.value[i + 1] == OptionEntry(Lower(options[i].s), options[i].s)
  {
    match Entries(options)
    case None => None
    case Some(e) => Some([OptionEntry("", placeholder)] + e)
  }

  /** Options that are strings without capitals render with each entry's value
      equal to its caption. */
  lemma LowerCaseEntries(placeholder: string, options: seq<Value>)
    requires forall i :: 0 <= i < |options| ==> options[i].Str?
    requires forall i, k :: 0 <= i < |options| && 0 <= k < |options[i].s| ==> !IsUpper(options[i].s[k])
    ensures SelectEntries(placeholder, options).Some?
    ensures var r := SelectEntries(placeholder, options).value;
            forall i :: 1 <= i < |r| ==> r[i].value == r[i].caption == options[i - 1].s
  {
    forall i | 0 <= i < |options| ensures Lower(options[i].s) == options[i].s {
      LowerProperties(options[i].s);
    }
  }
}
