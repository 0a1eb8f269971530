/** A form's life as a sequence of completed events. Every store of a field
    is rewritten only by the events it listens to (`.on(…)`, `.reset(…)`),
    so its content after any sequence is decided by the last such event. */
module EventTraces {
  import opened Validation
  import opened FieldStates
  import FormProperties

  /** One completed event; a validation carries the validator's answer. */
  datatype FormEvent =
    | ChangedEvent(key: string, value: FieldValue)
    | ClearedEvent(key: string)
    | ValidatedEvent(key: string, flag: bool)
    | FieldResultEvent(key: string, fieldResult: FieldValidationResult)
    | FormResultEvent(formResult: FormValidationResult)

  /** The event names one of `keys`, or concerns the whole form. */
  predicate Targets(e: FormEvent, keys: set<string>) {
    e.FormResultEvent? || e.key in keys
  }

  ghost predicate AllTarget(evs: seq<FormEvent>, keys: set<string>) {
    forall i :: 0 <= i < |evs| ==> Targets(evs[i], keys)
  }

  /** The state after one event. */
  function Step(configs: map<string, FieldConfig>, fs: Fields, e: FormEvent): Fields
    requires fs.Keys == configs.Keys && Targets(e, fs.Keys)
  {
    match e
    case ChangedEvent(k, v) => Change(fs, k, v)
    case ClearedEvent(k) => Clear(fs, k, configs[k].initialValue)
    case ValidatedEvent(k, b) => SetValidated(fs, k, b)
    case FieldResultEvent(k, res) => ApplyFieldResult(fs, k, res)
    case FormResultEvent(res) => ApplyFormResult(fs, res)
  }

  /** What a fresh form's stores and counters hold after a sequence of
      events: the field stores, the number of form validations, and the
      number of times `submitted` fired (once for every form validation
      after which the form is valid). No event adds or removes a field. */
  datatype Replayed = Replayed(fields: Fields, validations: nat, submissions: nat)

  /** Replays `evs` on a fresh form built from `configs`, the last event
      applied last. */
  function Replay(configs: map<string, FieldConfig>, evs: seq<FormEvent>): (r: Replayed)
    requires AllTarget(evs, configs.Keys)
    ensures r.fields.Keys == configs.Keys
    ensures r.submissions <= r.validations <= |evs|
    decreases |evs|
  {
    if evs == [] then Replayed(InitialFields(configs), 0, 0)
    else
      var e := evs[|evs| - 1];
      var p := Replay(configs, evs[..|evs| - 1]);
      var next := Step(configs, p.fields, e);
      Replayed(next,
               p.validations + (if e.FormResultEvent? then 1 else 0),
               p.submissions + (if e.FormResultEvent? && AllFieldsValid(next) then 1 else 0))
  }

  /** The events that write the `$isValid` store of `k`: its `cleared`, its
      `validated`, a successful validation of `k`, and every form
      validation. A failed validation of `k` is not among them. */
  predicate WritesFlag(e: FormEvent, k: string) {
    match e
    case ChangedEvent(_, _) => false
    case ClearedEvent(j) => j == k
    case ValidatedEvent(j, _) => j == k
    case FieldResultEvent(j, res) => j == k && res.FieldSuccess?
    case FormResultEvent(_) => true
  }

  /** A flag-writing event that reports success for `k`. */
  predicate ReportsSuccess(e: FormEvent, k: string) {
    match e
    case ChangedEvent(_, _) => false
    case ClearedEvent(_) => false
    case ValidatedEvent(j, b) => j == k && b
    case FieldResultEvent(j, res) => j == k && res.FieldSuccess?
    case FormResultEvent(res) => res.FormSuccess?
  }

  /** The events that write the `$value` store of `k`. */
  predicate WritesValue(e: FormEvent, k: string) {
    (e.ChangedEvent? || e.ClearedEvent?) && e.key == k
  }

  /** `evs[i]` is the last event of `evs` that writes the flag of `k`. */
  ghost predicate LastFlagWrite(evs: seq<FormEvent>, i: int, k: string) {
    0 <= i < |evs| && WritesFlag(evs[i], k) &&
    forall j :: i < j < |evs| ==> !WritesFlag(evs[j], k)
  }

  /** `evs[i]` is the last event of `evs` that writes the value of `k`. */
  ghost predicate LastValueWrite(evs: seq<FormEvent>, i: int, k: string) {
    0 <= i < |evs| && WritesValue(evs[i], k) &&
    forall j :: i < j < |evs| ==> !WritesValue(evs[j], k)
  }

  /** One step moves the flag of `k` exactly when it writes it. */
  lemma StepFlag(configs: map<string, FieldConfig>, fs: Fields, e: FormEvent, k: string)
    requires fs.Keys == configs.Keys && Targets(e, fs.Keys) && k in fs
    ensures Step(configs, fs, e)[k].isValid ==
      if WritesFlag(e, k) then ReportsSuccess(e, k) else fs[k].isValid
  {
  }

  /** One step moves the value of `k` exactly when it writes it. */
  lemma StepValue(configs: map<string, FieldConfig>, fs: Fields, e: FormEvent, k: string)
    requires fs.Keys == configs.Keys && Targets(e, fs.Keys) && k in fs
    ensures Step(configs, fs, e)[k].value ==
      if !WritesValue(e, k) then fs[k].value
      else if e.ChangedEvent? then e.value else configs[k].initialValue
  {
  }

  /** Starting from a fresh form, a field is valid exactly when the last
      event that wrote its flag reported success: a failed validation of the
      field, or a change of its value, never takes validity away. */
  lemma {:induction false} ValidIffLastFlagWriteSucceeded(configs: map<string, FieldConfig>, evs: seq<FormEvent>, k: string)
    requires k in configs && AllTarget(evs, configs.Keys)
    ensures Replay(configs, evs).fields[k].isValid <==>
      exists i :: LastFlagWrite(evs, i, k) && ReportsSuccess(evs[i], k)
  {
    if evs != [] {
      var n := |evs| - 1;
      var prefix := evs[..n];
      assert AllTarget(prefix, configs.Keys);
      ValidIffLastFlagWriteSucceeded(configs, prefix, k);
      StepFlag(configs, Replay(configs, prefix).fields, evs[n], k);
      if WritesFlag(evs[n], k) {
        assert LastFlagWrite(evs, n, k);
        forall i | LastFlagWrite(evs, i, k) ensures i == n { }
      } else {
        forall i | LastFlagWrite(prefix, i, k) ensures LastFlagWrite(evs, i, k) {
          assert evs[i] == prefix[i];
          forall j | i < j < |evs| ensures !WritesFlag(evs[j], k) {
            if j < n { assert evs[j] == prefix[j]; }
          }
        }
        forall i | LastFlagWrite(evs, i, k) ensures LastFlagWrite(prefix, i, k) && evs[i] == prefix[i] {
          assert i != n;
          assert evs[i] == prefix[i];
          forall j | i < j < n ensures !WritesFlag(prefix[j], k) {
            assert evs[j] == prefix[j];
          }
        }
      }
    }
  }

  /** Starting from a fresh form, a field holds the value of the last event
      that wrote it (`changed(v)` gives `v`, `cleared` the initial value), or
      its initial value when no event wrote it. */
  lemma {:induction false} ValueIsLastValueWrite(configs: map<string, FieldConfig>, evs: seq<FormEvent>, k: string)
    requires k in configs && AllTarget(evs, configs.Keys)
    ensures (forall j :: 0 <= j < |evs| ==> !WritesValue(evs[j], k)) ==>
      Replay(configs, evs).fields[k].value == configs[k].initialValue
    ensures forall i :: LastValueWrite(evs, i, k) ==>
      Replay(configs, evs).fields[k].value ==
        if evs[i].ChangedEvent? then evs[i].value else configs[k].initialValue
  {
    if evs != [] {
      var n := |evs| - 1;
      var prefix := evs[..n];
      assert AllTarget(prefix, configs.Keys);
      ValueIsLastValueWrite(configs, prefix, k);
      var before := Replay(configs, prefix).fields;
      var after := Replay(configs, evs).fields;
      assert after == Step(configs, before, evs[n]);
      StepValue(configs, before, evs[n], k);
      if WritesValue(evs[n], k) {
        forall i | LastValueWrite(evs, i, k) ensures i == n { }
      } else {
        assert after[k].value == before[k].value;
        if forall j :: 0 <= j < |evs| ==> !WritesValue(evs[j], k) {
          assert forall j :: 0 <= j < n ==> !WritesValue(prefix[j], k);
        }
        forall i | LastValueWrite(evs, i, k)
          ensures after[k].value == if evs[i].ChangedEvent? then evs[i].value else configs[k].initialValue
        {
          assert i != n;
          assert prefix[i] == evs[i];
          forall j | i < j < n ensures !WritesValue(prefix[j], k) {
            assert prefix[j] == evs[j];
          }
          assert LastValueWrite(prefix, i, k);
        }
      }
    }
  }

  /** The number of successful form validations in `evs`. */
  function FormSuccesses(evs: seq<FormEvent>): (n: nat)
    ensures n <= |evs|
  {
    if evs == [] then 0
    else FormSuccesses(evs[..|evs| - 1]) + (if evs[|evs| - 1] == FormResultEvent(FormSuccess) then 1 else 0)
  }

  /** One event fires `submitted` exactly when it is a form validation that
      succeeded, or any form validation on a form without fields. */
  lemma SubmittedByStep(configs: map<string, FieldConfig>, fs: Fields, e: FormEvent)
    requires fs.Keys == configs.Keys && Targets(e, fs.Keys)
    ensures (e.FormResultEvent? && AllFieldsValid(Step(configs, fs, e))) ==
      if configs == map[] then e.FormResultEvent? else e == FormResultEvent(FormSuccess)
  {
    if e.FormResultEvent? {
      FormProperties.FormResultValidIff(fs, e.formResult);
      assert (fs == map[]) == (configs == map[]) by {
        assert fs.Keys == configs.Keys;
      }
    }
  }

  /** `submitted` fires once per successful form validation, and on a form
      without fields once per form validation of any outcome. */
  lemma {:induction false} SubmissionsCount(configs: map<string, FieldConfig>, evs: seq<FormEvent>)
    requires AllTarget(evs, configs.Keys)
    ensures Replay(configs, evs).submissions ==
      if configs == map[] then Replay(configs, evs).validations else FormSuccesses(evs)
  {
    if evs != [] {
      var n := |evs| - 1;
      var prefix := evs[..n];
      assert AllTarget(prefix, configs.Keys);
      SubmissionsCount(configs, prefix);
      SubmittedByStep(configs, Replay(configs, prefix).fields, evs[n]);
    }
  }

  /** Appending one event applies one more step and counts it. */
  lemma Extend(configs: map<string, FieldConfig>, evs: seq<FormEvent>, e: FormEvent)
    requires AllTarget(evs, configs.Keys) && Targets(e, configs.Keys)
    ensures AllTarget(evs + [e], configs.Keys)
    ensures var p := Replay(configs, evs);
      var next := Step(configs, p.fields, e);
      Replay(configs, evs + [e]) ==
        Replayed(next,
                 p.validations + (if e.FormResultEvent? then 1 else 0),
                 p.submissions + (if e.FormResultEvent? && AllFieldsValid(next) then 1 else 0))
  {
    assert (evs + [e])[..|evs|] == evs;
  }
}
