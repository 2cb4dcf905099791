/** What the component forwards to its parent through `onFieldChange`
    (OrderStatusFrom.jsx lines 84-100), and a parent that stores each forwarded
    pair, used to state what forwarding does to the form data. */
module Bridge {
  import opened Wrappers

  /** A `File` handle taken from an input's `files`; its contents are not modelled. */
  datatype FileHandle = FileHandle(id: nat)

  /** A forwarded value: the raw string of a text, number, date, select or radio
      input, or a file. */
  datatype FieldValue = Text(s: string) | File(f: FileHandle)

  /** One call `onFieldChange(name, value)`. */
  datatype Change = Change(name: string, value: FieldValue)

  /** The calls made for a change on a file input: one for the first file when
      `files[0]` exists, none otherwise. */
  function FileChanges(name: string, files: seq<FileHandle>): (r: seq<Change>)
    ensures |r| <= 1
    ensures r != [] <==> files != []
    ensures r != [] ==> r[0] == Change(name, File(files[0]))
  {
    if files == [] then [] else [Change(name, File(files[0]))]
  }

  /** The form data of a parent that sets `formData[name] = value` on every call,
      in call order. Keys are only ever set, never removed. */
  function Store(form: map<string, FieldValue>, changes: seq<Change>): (r: map<string, FieldValue>)
    ensures form.Keys <= r.Keys
    decreases |changes|
  {
    if changes == [] then form
    else Store(form[changes[0].name := changes[0].value], changes[1..])
  }

  /** Keys that no forwarded call names keep their values, so values entered in a
      group that is hidden again remain in the form data. */
  lemma {:induction false} StoreKeepsUnnamed(form: map<string, FieldValue>, changes: seq<Change>, key: string)
    requires forall i :: 0 <= i < |changes| ==> changes[i].name != key
    ensures key in form ==> key in Store(form, changes) && Store(form, changes)[key] == form[key]
    ensures key !in form ==> key !in Store(form, changes)
    decreases |changes|
  {
    if changes != [] {
      StoreKeepsUnnamed(form[changes[0].name := changes[0].value], changes[1..], key);
    }
  }
}
