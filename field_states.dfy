/** The per-field state of a form (`$value`, `$errors`, `$isValid`), the
    change each event makes to the map of those records, and the two views
    derived from it (`$isFormValid` and `$values`). */
module FieldStates {
  import opened Validation

  /** The three stores of one field. */
  datatype FieldState = FieldState(value: FieldValue, errors: seq<string>, isValid: bool)

  /** The state of every field, by key. */
  type Fields = map<string, FieldState>

  /** A field as created: its initial value, no errors, not (yet) valid. */
  function InitialField(config: FieldConfig): FieldState {
    FieldState(config.initialValue, [], false)
  }

  /** The fields of a freshly created form. */
  function InitialFields(configs: map<string, FieldConfig>): (fs: Fields)
    ensures fs.Keys == configs.Keys
    ensures forall k :: k in fs ==>
      fs[k].value == configs[k].initialValue && fs[k].errors == [] && !fs[k].isValid
  {
    map k | k in configs :: InitialField(configs[k])
  }

  /** `changed(v)` on field `k`: the value becomes `v`; the errors and the
      validity flag of `k` are left as they were (validity goes stale), and
      no other field moves. */
  function Change(fs: Fields, k: string, v: FieldValue): (r: Fields)
    requires k in fs
    ensures r.Keys == fs.Keys
    ensures r[k].value == v && r[k].errors == fs[k].errors && r[k].isValid == fs[k].isValid
    ensures forall j :: j in fs && j != k ==> r[j] == fs[j]
  {
    fs[k := fs[k].(value := v)]
  }

  /** `cleared()` on field `k`: all three stores of `k` go back to their
      initial state; no other field moves. */
  function Clear(fs: Fields, k: string, initialValue: FieldValue): (r: Fields)
    requires k in fs
    ensures r.Keys == fs.Keys
    ensures r[k].value == initialValue && r[k].errors == [] && !r[k].isValid
    ensures forall j :: j in fs && j != k ==> r[j] == fs[j]
  {
    fs[k := FieldState(initialValue, [], false)]
  }

  /** `validated(b)` on field `k`: only the validity flag of `k` changes. */
  function SetValidated(fs: Fields, k: string, b: bool): (r: Fields)
    requires k in fs
    ensures r.Keys == fs.Keys
    ensures r[k].isValid == b && r[k].value == fs[k].value && r[k].errors == fs[k].errors
    ensures forall j :: j in fs && j != k ==> r[j] == fs[j]
  {
    fs[k := fs[k].(isValid := b)]
  }

  /** The completion of `validateFx` on field `k` with result `res`.
      Success marks `k` valid and clears its errors. Failure replaces the
      errors of `k` with the validator's list and leaves its validity flag
      untouched: nothing routes a failed field validation to `validated`. */
  function ApplyFieldResult(fs: Fields, k: string, res: FieldValidationResult): (r: Fields)
    requires k in fs
    ensures r.Keys == fs.Keys
    ensures r[k].value == fs[k].value
    ensures res.FieldSuccess? ==> r[k].isValid && r[k].errors == []
    ensures res.FieldFail? ==> r[k].isValid == fs[k].isValid && r[k].errors == res.errors
    ensures forall j :: j in fs && j != k ==> r[j] == fs[j]
  {
    match res
    case FieldSuccess => fs[k := fs[k].(isValid := true, errors := [])]
    case FieldFail(errs) => fs[k := fs[k].(errors := errs)]
  }

  /** The completion of the whole-form validation with result `res`, as every
      field reacts to it. Success marks every field valid with no errors.
      Failure marks every field invalid, whether or not the validator named
      it, and gives it the messages listed for its key, or none. No value
      changes. */
  function ApplyFormResult(fs: Fields, res: FormValidationResult): (r: Fields)
    ensures r.Keys == fs.Keys
    ensures forall k :: k in r ==> r[k].value == fs[k].value
    ensures res.FormSuccess? ==> forall k :: k in r ==> r[k].isValid && r[k].errors == []
    ensures res.FormFail? ==> forall k :: k in r ==>
      !r[k].isValid && r[k].errors == (if k in res.errors then res.errors[k] else [])
  {
    match res
    case FormSuccess =>
      map k | k in fs :: fs[k].(isValid := true, errors := [])
    case FormFail(_) =>
      map k | k in fs :: fs[k].(isValid := false, errors := FieldErrorsOf(res, k))
  }

  /** No field has its validity flag down (vacuously true for no fields). */
  predicate AllFieldsValid(fs: Fields) {
    forall k :: k in fs ==> fs[k].isValid
  }

  /** The `$values` view: the current value of every field, by key. */
  function ValuesOf(fs: Fields): (vs: ValueRecord)
    ensures vs.Keys == fs.Keys
    ensures forall k :: k in vs ==> vs[k] == fs[k].value
  {
    map k | k in fs :: fs[k].value
  }

  /** The validity flags of the fields listed in `order`, in that order: the
      array that `$isFormValid` combines. */
  function Flags(fs: Fields, order: seq<string>): (flags: seq<bool>)
    requires forall i :: 0 <= i < |order| ==> order[i] in fs
    ensures |flags| == |order|
    ensures forall i :: 0 <= i < |order| ==> flags[i] == fs[order[i]].isValid
  {
    if order == [] then [] else [fs[order[0]].isValid] + Flags(fs, order[1..])
  }

  /** `order` lists every one of `keys` exactly once. */
  ghost predicate ListsKeysOnce(order: seq<string>, keys: set<string>) {
    && (forall i, j :: 0 <= i < j < |order| ==> order[i] != order[j])
    && (forall k :: k in order <==> k in keys)
  }

  /** The `$isFormValid` store as the source computes it: the combined
      array of flags does not include `false`. It agrees with "no field is
      invalid". */
  function IsFormValid(fs: Fields, order: seq<string>): (b: bool)
    requires ListsKeysOnce(order, fs.Keys)
    ensures b <==> AllFieldsValid(fs)
  {
    assert forall k :: k in fs ==> exists i :: 0 <= i < |order| && order[i] == k;
    false !in Flags(fs, order)
  }
}
