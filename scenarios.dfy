/** Client scenarios: what a caller of the form can conclude from the
    contracts of `Form` alone, one scenario per behaviour the repository's
    tests and examples rely on. */
module Scenarios {
  import opened Validation
  import opened FieldStates
  import opened CreateForm

  /** A fresh form with at least one field: every field at its initial value
      with no errors and not valid, `$values` the initial values, and the
      form not valid. */
  method FreshFormState(schema: Schema) returns (valid: bool, values: ValueRecord)
    requires schema.values != map[]
    ensures !valid
    ensures values.Keys == schema.values.Keys
    ensures forall k :: k in values ==> values[k] == schema.values[k].initialValue
  {
    var form := new Form(schema);
    var k :| k in schema.values;
    assert !form.fields[k].isValid;
    valid := form.IsFormValid();
    values := form.Values();
  }

  /** `submit()` calls the form validator exactly once, on the current values. */
  method SubmitCallsValidatorOnce(schema: Schema) returns (calls: seq<ValueRecord>)
    ensures |calls| == 1
    ensures calls[0].Keys == schema.values.Keys
    ensures forall k :: k in calls[0] ==> calls[0][k] == schema.values[k].initialValue
  {
    var form := new Form(schema);
    var _ := form.Submit();
    calls := form.validatorCalls;
  }

  /** A form with no fields and a validator that succeeds: one `submit()`
      fires `submitted` exactly once. */
  method EmptyFormSubmitFiresOnce() returns (count: nat)
    ensures count == 1
  {
    var form := new Form(Schema(map[], _ => FormSuccess));
    var _ := form.Submit();
    count := form.submittedCount;
  }

  /** A form with no fields fires `submitted` even when its validator fails. */
  method EmptyFormFiresOnFailure() returns (fired: bool)
    ensures fired
  {
    var form := new Form(Schema(map[], _ => FormFail(map[])));
    fired := form.Submit();
  }

  function EmailValidator(v: FieldValue): FieldValidationResult {
    if v.Str? && '@' in v.s then FieldSuccess else FieldFail(["Email must contains @"])
  }

  /** A form with one e-mail field that must contain `@`. */
  method NewEmailForm() returns (form: Form)
    ensures fresh(form) && form.Valid()
    ensures form.fields == map["email" := FieldState(Str(""), [], false)]
    ensures form.schema.values == map["email" := FieldConfig(Str(""), EmailValidator)]
  {
    form := new Form(Schema(map["email" := FieldConfig(Str(""), EmailValidator)], _ => FormSuccess));
  }

  /** The e-mail form after the user typed `v`. */
  method TypedEmailForm(v: string) returns (form: Form)
    ensures fresh(form) && form.Valid()
    ensures form.fields == map["email" := FieldState(Str(v), [], false)]
    ensures form.schema.values == map["email" := FieldConfig(Str(""), EmailValidator)]
  {
    form := NewEmailForm();
    form.Changed("email", Str(v));
  }

  /** Validating an e-mail without `@` shows the message and leaves the field
      invalid. */
  method EmailWithoutAt() returns (state: FieldState)
    ensures state == FieldState(Str("no-at-sign"), ["Email must contains @"], false)
  {
    var form := TypedEmailForm("no-at-sign");
    assert '@' !in "no-at-sign";
    var _ := form.ValidateField("email");
    state := form.fields["email"];
  }

  /** The e-mail form after the user typed a value with `@` and the field
      was validated. */
  method ValidatedEmailForm() returns (form: Form)
    ensures fresh(form) && form.Valid()
    ensures form.fields == map["email" := FieldState(Str("a@b.com"), [], true)]
    ensures form.schema.values == map["email" := FieldConfig(Str(""), EmailValidator)]
  {
    form := TypedEmailForm("a@b.com");
    assert "a@b.com"[1] == '@';
    var _ := form.ValidateField("email");
  }

  /** Validating an e-mail with `@` makes the field valid with no message. */
  method EmailWithAt() returns (state: FieldState)
    ensures state == FieldState(Str("a@b.com"), [], true)
  {
    var form := ValidatedEmailForm();
    state := form.fields["email"];
  }

  /** Changing a validated e-mail to a bad value leaves the field and the
      form valid, until the next validation. */
  method EmailStaleAfterChange() returns (stale: FieldState, staleFormValid: bool)
    ensures stale == FieldState(Str("bad"), [], true) && staleFormValid
  {
    var form := ValidatedEmailForm();
    form.Changed("email", Str("bad"));
    stale := form.fields["email"];
    staleFormValid := form.IsFormValid();
  }

  /** The form validator names only `age`: both fields become invalid, `age`
      shows its message and `email` shows none. */
  method FailClosedScenario() returns (age: FieldState, email: FieldState, fired: bool)
    ensures age == FieldState(Num(20), ["too young"], false)
    ensures email == FieldState(Str(""), [], false)
    ensures !fired
  {
    var configs := map["age" := FieldConfig(Num(20), _ => FieldSuccess), "email" := FieldConfig(Str(""), _ => FieldSuccess)];
    var form := new Form(Schema(configs, _ => FormFail(map["age" := ["too young"]])));
    fired := form.ValidateForm();
    age, email := form.fields["age"], form.fields["email"];
  }
}
