/**
 Form controls (`input`, `select`, `textarea`) and the required-field check
 a step must pass before the wizard moves on.
 */
module Fields {
  import opened Wrappers
  import opened Text

  /** A form control: its `name` attribute, current value, whether it carries
      the `required` attribute, and whether it is an `input[type="tel"]`. */
  datatype Field = Field(name: string, value: string, required: bool, tel: bool)

  /** A required control whose trimmed value is empty. */
  predicate Missing(f: Field) {
    f.required && Trim(f.value) == []
  }

  /** The verdict of the required-field check: pass, or fail with focus moved
      to one control (its index in document order). */
  datatype Verdict = Valid | Invalid(focus: nat)

  /** `validateRequiredFields`: the first missing control, in document order,
      fails the check and takes the focus. */
  function ValidateRequiredFields(fields: seq<Field>): (r: Verdict)
    ensures r.Valid? <==> forall j :: 0 <= j < |fields| ==> !Missing(fields[j])
    ensures r.Invalid? ==> r.focus < |fields| && Missing(fields[r.focus])
    ensures r.Invalid? ==> forall j :: 0 <= j < r.focus ==> !Missing(fields[j])
  {
    ScanFrom(fields, 0)
  }

  /** The scan of `validateRequiredFields` from control `k` on. */
  function ScanFrom(fields: seq<Field>, k: nat): (r: Verdict)
    requires k <= |fields|
    ensures r.Valid? <==> forall j :: k <= j < |fields| ==> !Missing(fields[j])
    ensures r.Invalid? ==> k <= r.focus < |fields| && Missing(fields[r.focus])
    ensures r.Invalid? ==> forall j :: k <= j < r.focus ==> !Missing(fields[j])
    decreases |fields| - k
  {
    if k == |fields| then Valid
    else if Missing(fields[k]) then Invalid(k)
    else ScanFrom(fields, k + 1)
  }

  /** The verdict never depends on the value of a control that is not
      required. */
  lemma OptionalFieldIgnored(fields: seq<Field>, i: nat, v: string)
    requires i < |fields| && !fields[i].required
    ensures ValidateRequiredFields(fields[i := fields[i].(value := v)]) == ValidateRequiredFields(fields)
  {
    var edited := fields[i := fields[i].(value := v)];
    assert forall j :: 0 <= j < |fields| ==> (Missing(edited[j]) <==> Missing(fields[j]));
  }

  /** The two control queries the script makes: `[name="…"]` within the form
      and `input[type="tel"]` within a step. */
  datatype Selector = ByName(name: string) | Tel

  predicate Selects(sel: Selector, f: Field) {
    match sel
    case ByName(n) => f.name == n
    case Tel => f.tel
  }

  /** `querySelector`: the first control, in document order, the selector
      matches, if any. */
  function QuerySelector(fields: seq<Field>, sel: Selector): (r: Option<nat>)
    ensures r.Some? ==> r.value < |fields| && Selects(sel, fields[r.value])
    ensures r.Some? ==> forall j :: 0 <= j < r.value ==> !Selects(sel, fields[j])
    ensures r.None? ==> forall j :: 0 <= j < |fields| ==> !Selects(sel, fields[j])
  {
    if fields == [] then None
    else if Selects(sel, fields[0]) then Some(0)
    else
      match QuerySelector(fields[1..], sel)
      case None => None
      case Some(i) => Some(i + 1)
  }

  function TelField(fields: seq<Field>): Option<nat> {
    QuerySelector(fields, Tel)
  }

  function Named(fields: seq<Field>, name: string): Option<nat> {
    QuerySelector(fields, ByName(name))
  }

  /** Queries look at names and types, never at values: editing a value does
      not change which control a query finds. */
  lemma {:induction false} QueryIgnoresValues(fields: seq<Field>, i: nat, v: string, sel: Selector)
    requires i < |fields|
    ensures QuerySelector(fields[i := fields[i].(value := v)], sel) == QuerySelector(fields, sel)
  {
    var edited := fields[i := fields[i].(value := v)];
    if fields != [] && !Selects(sel, fields[0]) {
      if i == 0 {
        assert edited[1..] == fields[1..];
      } else {
        assert edited[1..] == fields[1..][i - 1 := fields[i].(value := v)];
        QueryIgnoresValues(fields[1..], i - 1, v, sel);
      }
    }
  }
}
