/** Properties of the field-state transitions that relate several events, or
    an event and the derived views. */
module FormProperties {
  import opened Validation
  import opened FieldStates

  /** A freshly created form is valid exactly when it has no fields. */
  lemma InitialFormValidIffEmpty(configs: map<string, FieldConfig>)
    ensures AllFieldsValid(InitialFields(configs)) <==> configs == map[]
  {

  }

  /** `changed` never moves the form's validity, in either direction: a field
      validated once stays valid whatever value it is changed to. */
  lemma ChangeKeepsFormValidity(fs: Fields, k: string, v: FieldValue)
    requires k in fs
    ensures AllFieldsValid(Change(fs, k, v)) <==> AllFieldsValid(fs)
  {

  }

  /** `changed(v)` on `k` moves exactly the entry of `k` in `$values`. */
  lemma ChangeUpdatesValues(fs: Fields, k: string, v: FieldValue)
    requires k in fs
    ensures ValuesOf(Change(fs, k, v)) == ValuesOf(fs)[k := v]
  {

  }

  /** Clearing a field leaves the form invalid until it is validated again. */
  lemma ClearInvalidatesForm(fs: Fields, k: string, init: FieldValue)
    requires k in fs
    ensures !AllFieldsValid(Clear(fs, k, init))
  {

  }

  /** Clearing forgets any earlier change of the same field, and clearing
      twice is clearing once. */
  lemma ClearAbsorbsChange(fs: Fields, k: string, v: FieldValue, init: FieldValue)
    requires k in fs
    ensures Clear(Change(fs, k, v), k, init) == Clear(fs, k, init)
    ensures Clear(Clear(fs, k, init), k, init) == Clear(fs, k, init)
  {

  }

  /** A successful field validation makes the form valid exactly when every
      other field is already valid. */
  lemma FieldSuccessFormValidity(fs: Fields, k: string)
    requires k in fs
    ensures AllFieldsValid(ApplyFieldResult(fs, k, FieldSuccess))
        <==> (forall j :: j in fs && j != k ==> fs[j].isValid)
  {

  }

  /** A failed field validation never moves the form's validity: a field
      that was valid stays valid, showing the new errors. */
  lemma FieldFailKeepsFormValidity(fs: Fields, k: string, errs: seq<string>)
    requires k in fs
    ensures AllFieldsValid(ApplyFieldResult(fs, k, FieldFail(errs))) <==> AllFieldsValid(fs)
  {

  }

  /** Whole-form validation changes no value: `$values` is the same after. */
  lemma FormResultKeepsValues(fs: Fields, res: FormValidationResult)
    ensures ValuesOf(ApplyFormResult(fs, res)) == ValuesOf(fs)
  {

  }

  /** After whole-form validation the form is valid exactly when the
      validator succeeded or the form has no fields: so `submitted` follows a
      failing validator on a form without fields. */
  lemma FormResultValidIff(fs: Fields, res: FormValidationResult)
    ensures AllFieldsValid(ApplyFormResult(fs, res)) <==> (res.FormSuccess? || fs == map[])
  {

  }

  /** The outcome of whole-form validation depends only on the values of the
      fields and the validator's answer, not on the errors or flags the
      fields held before. */
  lemma FormResultDependsOnlyOnValues(fs: Fields, gs: Fields, res: FormValidationResult)
    requires ValuesOf(fs) == ValuesOf(gs)
    ensures ApplyFormResult(fs, res) == ApplyFormResult(gs, res)
  {

  }

  /** Hence whole-form validation overrides any earlier field validation,
      and running it twice with the same answer is running it once. */
  lemma FormResultOverrides(fs: Fields, k: string, fieldRes: FieldValidationResult, res: FormValidationResult)
    requires k in fs
    ensures ApplyFormResult(ApplyFieldResult(fs, k, fieldRes), res) == ApplyFormResult(fs, res)
    ensures ApplyFormResult(ApplyFormResult(fs, res), res) == ApplyFormResult(fs, res)
  {

  }

  /** Validity is stale after a change: once the form validator succeeded,
      changing any field to any value leaves the form valid. */
  lemma ValidityStaleAfterChange(fs: Fields, k: string, v: FieldValue)
    requires k in fs
    ensures AllFieldsValid(Change(ApplyFormResult(fs, FormSuccess), k, v))
  {

  }
}
