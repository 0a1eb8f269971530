# effective-forms `createForm`, modelled in Dafny

This project models the form-state engine of effective-forms: `createForm`
takes a schema (for each field key an initial value and a field validator,
plus one whole-form validator) and builds, for every field, three stores —
`$value`, `$errors`, `$isValid` — driven by the events `changed`, `cleared`,
`validated` and the effect `validateFx`; at form level it derives
`$isFormValid` and `$values`, runs the form validator through
`validateFormFx`, and fires `submitted` after a form validation that leaves
the form valid. `submit` hands the current values to `validateFormFx`.

Without the reactive runtime this is a small deterministic state machine, and
the model has that shape:

- `validation.dfy` (module `Validation`): field values (`Str | Num | Bool`),
  the field and form validation results, field configurations and the schema.
  Validators are total Dafny functions passed in with the schema.
- `field_states.dfy` (module `FieldStates`): the record of one field's stores,
  one pure function per transition over the map of all fields, with the exact
  post-state and frame of each, and the derived views `$values` and
  `$isFormValid` (the latter computed as the source does, as "the array of
  flags does not include `false`", and proved equal to "every field is valid").
- `form_properties.dfy` (module `FormProperties`): lemmas relating several
  events or an event and the derived views.
- `event_traces.dfy` (module `EventTraces`): a form's life as a sequence of
  completed events. `Replay` applies a sequence to a fresh form and counts
  the form validations and the firings of `submitted`; the lemmas say what
  any sequence leaves behind: a field's flag is the answer of the last event
  that wrote it, its value is the last value written to it, and `submitted`
  fires once per successful form validation (once per form validation of any
  outcome on a form without fields).
- `create_form.dfy` (module `CreateForm`): the construction loop
  (`BuildFields`) and the class `Form`, whose fields are the field stores, the
  history of form-validator calls and the number of times `submitted` fired;
  one method per event, each stating the whole new state. Its invariant
  ties the stores and counters to a ghost list of the events handled so far:
  they are always what `Replay` yields for that list, so every lemma of
  `EventTraces` applies to every `Form`.
- `scenarios.dfy` (module `Scenarios`): callers of `Form` that replay the
  behaviour the repository's tests check, proved from the class contracts.

Behaviour reproduced as the code has it:

- A failed field validation replaces the field's errors but never sets its
  `$isValid` to false (only a success is routed to `validated`).
- `changed` does not touch `$isValid` or `$errors`: validity is stale until the
  next validation.
- `submit` always runs the form validator, whether or not the form is already
  valid.
- `submitted` is wired to every completion of `validateFormFx`, so calling
  `validateFormFx` directly fires it too when the form ends up valid.
- With no fields `$isFormValid` is vacuously true, so `submitted` fires even
  when the form validator fails.

## Model

| member | source | states |
|---|---|---|
| `FieldStates.InitialFields` | packages/core/src/create-form.ts:87-89 | a new form has exactly the schema's keys, each at its initial value with no errors and not valid |
| `FieldStates.Change` | packages/core/src/create-form.ts:99-101 | `changed(v)` sets the field's value to `v`, keeps its errors and validity flag, and leaves every other field as it was |
| `FieldStates.Clear` | packages/core/src/create-form.ts:99-109 | `cleared()` puts the field back to its initial value, no errors, not valid, and leaves every other field as it was |
| `FieldStates.SetValidated` | packages/core/src/create-form.ts:103-105 | `validated(b)` sets only the field's validity flag to `b` |
| `FieldStates.ApplyFieldResult` | packages/core/src/create-form.ts:111-131 | a field validation success makes the field valid with no errors; a failure sets its errors to the validator's list and leaves its validity flag; no other field changes |
| `FieldStates.ApplyFormResult` | packages/core/src/create-form.ts:133-157 | form validation success makes every field valid with no errors; failure makes every field invalid with the messages listed for its key or none; no value changes |
| `FieldStates.ValuesOf` | packages/core/src/create-form.ts:172 | `$values` has exactly the field keys, each mapped to that field's current value |
| `FieldStates.Flags` | packages/core/src/create-form.ts:91 | the combined validity array holds, position by position, the flag of the field pushed there |
| `FieldStates.IsFormValid` | packages/core/src/create-form.ts:170-171 | "the flag array does not include `false`" holds exactly when every field is valid, for any order listing each key once |
| `FormProperties.InitialFormValidIffEmpty` | packages/core/src/create-form.spec.ts:148-174 | a fresh form is valid exactly when it has no fields |
| `FormProperties.ChangeKeepsFormValidity` | packages/core/src/create-form.ts:99-105 | `changed` leaves `$isFormValid` as it was, in both directions |
| `FormProperties.ChangeUpdatesValues` | packages/core/src/create-form.ts:99-101 | after `changed(v)` on `k`, `$values` is the old record with `k` mapped to `v` |
| `FormProperties.ClearInvalidatesForm` | packages/core/src/create-form.ts:103-105 | after a field is cleared the form is not valid |
| `FormProperties.ClearAbsorbsChange` | packages/core/src/create-form.ts:99-109 | clearing after a change equals clearing alone, and clearing is idempotent |
| `FormProperties.FieldSuccessFormValidity` | packages/core/src/create-form.ts:111-121 | after a successful field validation the form is valid exactly when every other field was valid |
| `FormProperties.FieldFailKeepsFormValidity` | packages/core/src/create-form.ts:123-131 | a failed field validation leaves `$isFormValid` as it was, in both directions |
| `FormProperties.FormResultKeepsValues` | packages/core/src/create-form.ts:133-157 | whole-form validation leaves `$values` unchanged |
| `FormProperties.FormResultValidIff` | packages/core/src/create-form.ts:133-171 | after whole-form validation the form is valid exactly when the validator succeeded or there are no fields |
| `FormProperties.FormResultDependsOnlyOnValues` | packages/core/src/create-form.ts:133-157 | two field maps with the same values reach the same state after the same form validation answer |
| `FormProperties.FormResultOverrides` | packages/core/src/create-form.ts:111-157 | form validation erases the effect of any earlier field validation, and repeating it with the same answer changes nothing |
| `FormProperties.ValidityStaleAfterChange` | packages/core/src/create-form.ts:99-105 | once the form validator succeeded, changing any field to any value leaves the form valid |
| `EventTraces.Replay` | packages/core/src/create-form.ts:87-186 | replaying events from a fresh form never adds or removes a field, and `submitted` fires at most once per form validation |
| `EventTraces.StepFlag` | packages/core/src/create-form.ts:103-157 | one event moves a field's `$isValid` exactly when it is that field's `cleared` or `validated`, a successful validation of that field, or a form validation, and then to the answer it carries |
| `EventTraces.StepValue` | packages/core/src/create-form.ts:99-101 | one event moves a field's `$value` exactly when it is that field's `changed` (to the new value) or `cleared` (to the initial value) |
| `EventTraces.ValidIffLastFlagWriteSucceeded` | packages/core/src/create-form.ts:103-157 | after any sequence of events a field is valid exactly when the last event that wrote its flag reported success; failed field validations and changes never take validity away |
| `EventTraces.ValueIsLastValueWrite` | packages/core/src/create-form.ts:87-101 | after any sequence of events a field holds the value of the last `changed` or `cleared` of it, or its initial value when there was none |
| `EventTraces.SubmittedByStep` | packages/core/src/create-form.ts:170-186 | one event fires `submitted` exactly when it is a successful form validation, or any form validation on a form without fields |
| `EventTraces.SubmissionsCount` | packages/core/src/create-form.ts:170-186 | along any sequence of events `submitted` fires once per successful form validation, and on a form without fields once per form validation |
| `EventTraces.Extend` | packages/core/src/create-form.ts:87-186 | replaying one more event applies one more transition and counts it |
| `CreateForm.ReachableStep` | packages/core/src/create-form.ts:94-186 | every event handled by a form keeps its stores and counters equal to the replay of its history, |
| `CreateForm.BuildFields` | packages/core/src/create-form.ts:78-92 | the construction loop yields every schema key at its initial state and a flag order listing each key exactly once |
| `CreateForm.Form.constructor` | packages/core/src/create-form.ts:64-92 | a new form holds the initial fields, no validator calls and no `submitted` firings |
| `CreateForm.Form.IsFormValid` | packages/core/src/create-form.ts:170-171 | `$isFormValid` holds exactly when every field is valid |
| `CreateForm.Form.Values` | packages/core/src/create-form.ts:172 | `$values` maps every field key to its current value |
| `CreateForm.Form.Changed` | packages/core/src/create-form.ts:99-101 | the new field map is `Change` of the old one; logs and counters unchanged |
| `CreateForm.Form.Cleared` | packages/core/src/create-form.ts:99-109 | the new field map is `Clear` of the old one with the schema's initial value |
| `CreateForm.Form.Validated` | packages/core/src/create-form.ts:103-105 | the new field map is `SetValidated` of the old one |
| `CreateForm.Form.ValidateField` | packages/core/src/create-form.ts:94-131 | the field validator runs on the field's current value and its answer is applied by `ApplyFieldResult` |
| `CreateForm.Form.ValidateForm` | packages/core/src/create-form.ts:174-186 | the form validator runs once on the current values, its answer is applied to every field, and `submitted` fires exactly when the form is then valid |
| `CreateForm.Form.Submit` | packages/core/src/create-form.ts:176-180 | `submit` always runs the whole-form validation once, with the same outcome as `ValidateForm` |
| `Scenarios.FreshFormState` | packages/core/src/create-form.spec.ts:148-174 | a fresh form with fields is not valid and its values are the initial values |
| `Scenarios.SubmitCallsValidatorOnce` | packages/core/src/create-form.spec.ts:363-375 | one `submit` calls the form validator exactly once, on the current values |
| `Scenarios.EmptyFormSubmitFiresOnce` | packages/core/src/create-form.spec.ts:377-393 | a form with no fields and a succeeding validator fires `submitted` exactly once on `submit` |
| `Scenarios.EmptyFormFiresOnFailure` | packages/core/src/create-form.ts:170-186 | a form with no fields fires `submitted` even when its validator fails |
| `Scenarios.NewEmailForm` | examples/simple-form/src/app/simple-form.tsx:22-32 | a form with one e-mail field starts empty, without errors and not valid |
| `Scenarios.TypedEmailForm` | packages/core/src/create-form.spec.ts:254-257 | typing into the field changes only its value |
| `Scenarios.EmailWithoutAt` | examples/simple-form/src/app/simple-form.tsx:24-32 | validating a bad value shows the validator's message and the field stays invalid |
| `Scenarios.ValidatedEmailForm` | packages/core/src/create-form.spec.ts:254-311 | validating a good value makes the field valid with no message |
| `Scenarios.EmailWithAt` | packages/core/src/create-form.spec.ts:281-311 | the validated field holds the typed value, no message, and is valid |
| `Scenarios.EmailStaleAfterChange` | packages/core/src/create-form.ts:99-105 | changing a validated field to a bad value leaves it and the form valid until the next validation |
| `Scenarios.FailClosedScenario` | packages/core/src/create-form.ts:143-157 | a form validator naming one field marks both fields invalid, the named one with its message, the other with none, and `submitted` does not fire |

## Left out

- The reactive runtime: stores, events and effects as objects, `sample`/`attach`/`combine` scheduling, `fork` scopes and `watch` subscriptions. Each event together with every store update it causes is one atomic method call, and `submitted` is a counter (plus the method's result) rather than an event with subscribers.
- Asynchrony and faults: overlapping in-flight validations and validators that throw or reject are not modelled; validators are total functions, as the code wires only `doneData`.
- Key enumeration order of `for … in`: keys are taken in an arbitrary order; only the order of the validity flag array depends on it, and `$isFormValid` is proved independent of it.
- JavaScript numbers: a number field holds an integer; validators only compare values.
- Field types: the source leaves them to TypeScript, and the model does not enforce them either: `Form.Changed` accepts a value of any kind, as a field declared with a union type does.
- The `setErrors` event is internal to each field and appears only inside the transitions that use it.
- The yup and zod schema adapters (`packages/yup/src/index.ts`, `packages/zod/src/index.ts`), the earlier prototype (`src/index.ts`, `src/main.js`), `packages/core/src/types.ts`, the example React applications and build configuration are not part of this model.
- `validateOn` and `clearOn` (in the yup adapter) and a form-level `cleared` (in the simple-form example) are not in `packages/core/src/create-form.ts`, so they are not modelled.
- Field keys are assumed not to name members of JavaScript's `Object.prototype` (`constructor`, `toString`, `valueOf`, …): for such a key, a failed form result whose `errors` object omits it would hand the field the inherited member as its errors in the source, while the model's map lookup gives no messages.
- `submitted` is a public event of the form, so a caller can fire it directly with no validation; the model fires it only through `validateFormFx`, and `EventTraces.SubmissionsCount` counts only those firings.
