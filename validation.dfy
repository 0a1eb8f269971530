/** The value and validation-result types that a form schema is written in:
    a field holds a string, a number or a boolean; a field validator answers
    success or a list of messages; the whole-form validator answers success
    or a partial map from field key to messages. */
module Validation {

  /** A field value. The form only stores and compares values, so a number
      is an integer here. */
  datatype FieldValue = Str(s: string) | Num(n: int) | Bool(b: bool)

  /** `{ result: true }` or `{ result: false, errors }` for one field. */
  datatype FieldValidationResult = FieldSuccess | FieldFail(errors: seq<string>)

  /** `{ result: true }` or `{ result: false, errors }` for the whole form,
      where `errors` may leave keys out. */
  datatype FormValidationResult = FormSuccess | FormFail(errors: map<string, seq<string>>)

  /** The snapshot of all field values handed to the form validator. */
  type ValueRecord = map<string, FieldValue>

  /** One field of the schema: its initial value and its validator. */
  datatype FieldConfig = FieldConfig(initialValue: FieldValue, validator: FieldValue -> FieldValidationResult)

  /** The schema: the field configurations by key and the form validator. */
  datatype Schema = Schema(values: map<string, FieldConfig>, validator: ValueRecord -> FormValidationResult)

  /** The messages the form validator's answer gives field `key`: those it
      lists for the key on failure, or none when it lists none. */
  function FieldErrorsOf(r: FormValidationResult, key: string): seq<string>
    requires r.FormFail?
  {
    if key in r.errors then r.errors[key] else []
  }
}
