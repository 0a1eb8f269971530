/** `createForm`: builds the stores of every field of a schema and then
    reacts to the form's events, one method per event. Each effect is taken
    to complete synchronously, so an event and every store update it causes
    form one step. */
module CreateForm {
  import opened Validation
  import opened FieldStates
  import FormProperties
  import opened EventTraces

  /** The construction loop: for every key of the schema, create the field's
      stores at their initial state and push its validity store onto the
      array that `$isFormValid` combines. Keys are taken in an arbitrary
      order, which only the order of that array depends on. */
  method BuildFields(configs: map<string, FieldConfig>) returns (fields: Fields, order: seq<string>)
    ensures fields == InitialFields(configs)
    ensures ListsKeysOnce(order, configs.Keys)
  {
    fields, order := map[], [];
    var remaining := configs.Keys;
    while remaining != {}
      invariant remaining <= configs.Keys
      invariant fields.Keys == configs.Keys - remaining
      invariant forall k :: k in fields ==> fields[k] == InitialField(configs[k])
      invariant ListsKeysOnce(order, fields.Keys)
      decreases remaining
    {
      var k :| k in remaining;
      fields := fields[k := InitialField(configs[k])];
      order := order + [k];
      remaining := remaining - {k};
    }
    assert fields.Keys == InitialFields(configs).Keys;
  }

  /** The stores of a form built from `schema` with flag order `order`, after
      `calls` form validations of which `count` fired `submitted`: the
      stores and both counts are those that `history` yields from a fresh
      form. */
  ghost predicate Reachable(schema: Schema, order: seq<string>, fields: Fields, calls: nat, count: nat, history: seq<FormEvent>) {
    && AllTarget(history, schema.values.Keys)
    && Replay(schema.values, history) == Replayed(fields, calls, count)
    && ListsKeysOnce(order, schema.values.Keys)
  }

  /** One more event keeps a form reachable, with the form validation
      counted and `submitted` counted when the form is then valid. */
  lemma ReachableStep(schema: Schema, order: seq<string>, fields: Fields, calls: nat, count: nat,
                      history: seq<FormEvent>, e: FormEvent)
    requires Reachable(schema, order, fields, calls, count, history)
    requires Targets(e, fields.Keys)
    ensures var next := Step(schema.values, fields, e);
      Reachable(schema, order, next,
                calls + (if e.FormResultEvent? then 1 else 0),
                count + (if e.FormResultEvent? && AllFieldsValid(next) then 1 else 0),
                history + [e])
  {
    Extend(schema.values, history, e);
  }

  /** A whole-form validation with answer `res` keeps a form reachable: the
      validation is counted, and `submitted` is counted when the form is then
      valid. */
  lemma ReachableAfterFormResult(schema: Schema, order: seq<string>, fields: Fields, calls: nat, count: nat,
                                 history: seq<FormEvent>, res: FormValidationResult, next: Fields, fired: bool)
    requires Reachable(schema, order, fields, calls, count, history)
    requires next == ApplyFormResult(fields, res) && (fired <==> AllFieldsValid(next))
    ensures Reachable(schema, order, next, calls + 1, count + (if fired then 1 else 0), history + [FormResultEvent(res)])
  {
    ReachableStep(schema, order, fields, calls, count, history, FormResultEvent(res));
  }

  /** The form object: the schema it was built from, the field stores, the
      history of calls to the form validator and the number of times
      `submitted` has fired. The ghost `history` lists the completed events
      so far; the stores and counters are always what that history yields. */
  class Form {
    const schema: Schema
    /** The order of the validity stores in the array `$isFormValid` combines. */
    const order: seq<string>
    var fields: Fields
    /** The value record handed to the form validator at each call, oldest first. */
    var validatorCalls: seq<ValueRecord>
    var submittedCount: nat
    ghost var history: seq<FormEvent>

    /** The form is in a state reachable from a fresh one by its history. */
    ghost predicate Valid()
      reads this
    {
      Reachable(schema, order, fields, |validatorCalls|, submittedCount, history)
    }

    constructor (schema: Schema)
      ensures Valid()
      ensures this.schema == schema
      ensures fields == InitialFields(schema.values)
      ensures validatorCalls == [] && submittedCount == 0 && history == []
    {
      this.schema := schema;
      var fs, ord := BuildFields(schema.values);
      fields, order := fs, ord;
      validatorCalls, submittedCount := [], 0;
      history := [];
    }

    /** The `$isFormValid` store. */
    function IsFormValid(): (b: bool)
      reads this
      requires Valid()
      ensures b <==> forall k :: k in fields ==> fields[k].isValid
    {
      FieldStates.IsFormValid(fields, order)
    }

    /** The `$values` store. */
    function Values(): (vs: ValueRecord)
      reads this
      ensures vs.Keys == fields.Keys
      ensures forall k :: k in vs ==> vs[k] == fields[k].value
    {
      ValuesOf(fields)
    }

    /** Field `k`'s `changed(v)`. */
    method Changed(k: string, v: FieldValue)
      requires Valid() && k in fields
      modifies this
      ensures Valid()
      ensures fields == Change(old(fields), k, v)
      ensures validatorCalls == old(validatorCalls) && submittedCount == old(submittedCount)
      ensures history == old(history) + [ChangedEvent(k, v)]
    {
      ReachableStep(schema, order, fields, |validatorCalls|, submittedCount, history, ChangedEvent(k, v));
      fields := Change(fields, k, v);
      history := history + [ChangedEvent(k, v)];
    }

    /** Field `k`'s `cleared()`. */
    method Cleared(k: string)
      requires Valid() && k in fields
      modifies this
      ensures Valid()
      ensures fields == Clear(old(fields), k, schema.values[k].initialValue)
      ensures validatorCalls == old(validatorCalls) && submittedCount == old(submittedCount)
      ensures history == old(history) + [ClearedEvent(k)]
    {
      ReachableStep(schema, order, fields, |validatorCalls|, submittedCount, history, ClearedEvent(k));
      fields := Clear(fields, k, schema.values[k].initialValue);
      history := history + [ClearedEvent(k)];
    }

    /** Field `k`'s `validated(b)`, which the form object exposes. */
    method Validated(k: string, b: bool)
      requires Valid() && k in fields
      modifies this
      ensures Valid()
      ensures fields == SetValidated(old(fields), k, b)
      ensures validatorCalls == old(validatorCalls) && submittedCount == old(submittedCount)
      ensures history == old(history) + [ValidatedEvent(k, b)]
    {
      ReachableStep(schema, order, fields, |validatorCalls|, submittedCount, history, ValidatedEvent(k, b));
      fields := SetValidated(fields, k, b);
      history := history + [ValidatedEvent(k, b)];
    }

    /** Field `k`'s `validateFx()`: the field's validator runs on the field's
        current value and its answer is routed to the field's stores. */
    method ValidateField(k: string) returns (res: FieldValidationResult)
      requires Valid() && k in fields
      modifies this
      ensures Valid()
      ensures res == schema.values[k].validator(old(fields)[k].value)
      ensures fields == ApplyFieldResult(old(fields), k, res)
      ensures validatorCalls == old(validatorCalls) && submittedCount == old(submittedCount)
      ensures history == old(history) + [FieldResultEvent(k, res)]
    {
      res := schema.values[k].validator(fields[k].value);
      ReachableStep(schema, order, fields, |validatorCalls|, submittedCount, history, FieldResultEvent(k, res));
      fields := ApplyFieldResult(fields, k, res);
      history := history + [FieldResultEvent(k, res)];
    }

    /** `validateFormFx()`: the form validator runs once on `$values`, every
        field takes its share of the answer, and then `submitted` fires if
        `$isFormValid` holds, which is when the validator succeeded or the
        form has no fields. */
    method ValidateForm() returns (fired: bool)
      requires Valid()
      modifies this
      ensures Valid()
      ensures validatorCalls == old(validatorCalls) + [ValuesOf(old(fields))]
      ensures fields == ApplyFormResult(old(fields), schema.validator(ValuesOf(old(fields))))
      ensures fired <==> AllFieldsValid(fields)
      ensures fired <==> schema.validator(ValuesOf(old(fields))).FormSuccess? || fields == map[]
      ensures submittedCount == old(submittedCount) + (if fired then 1 else 0)
      ensures history == old(history) + [FormResultEvent(schema.validator(ValuesOf(old(fields))))]
    {
      var snapshot := ValuesOf(fields);
      var res := schema.validator(snapshot);
      var after := ApplyFormResult(fields, res);
      fired := AllFieldsValid(after);
      assert fired <==> res.FormSuccess? || fields == map[] by {
        FormProperties.FormResultValidIff(fields, res);
      }
      ReachableAfterFormResult(schema, order, fields, |validatorCalls|, submittedCount, history, res, after, fired);
      validatorCalls, fields, history, submittedCount :=
        validatorCalls + [snapshot], after, history + [FormResultEvent(res)], submittedCount + (if fired then 1 else 0);
    }

    /** `submit()`: always hands `$values` to `validateFormFx`, whatever
        `$isFormValid` was before. */
    method Submit() returns (fired: bool)
      requires Valid()
      modifies this
      ensures Valid()
      ensures validatorCalls == old(validatorCalls) + [ValuesOf(old(fields))]
      ensures fields == ApplyFormResult(old(fields), schema.validator(ValuesOf(old(fields))))
      ensures fired <==> AllFieldsValid(fields)
      ensures fired <==> schema.validator(ValuesOf(old(fields))).FormSuccess? || fields == map[]
      ensures submittedCount == old(submittedCount) + (if fired then 1 else 0)
      ensures history == old(history) + [FormResultEvent(schema.validator(ValuesOf(old(fields))))]
    {
      fired := ValidateForm();
    }
  }
}
