/**
 * The state machine of one form field over `value`, `valid` and `error`
 * (src/FormItem.tsx): the initial state, `resetField`, `setFieldValue`, and
 * the update made on each outcome of `validate`, as pure transitions.
 */
module Validation {
  import opened Wrappers
  import opened Rules
  import opened Binding

  /** One error object reported by the validation engine. */
  datatype FieldError = FieldError(message: Option<string>)

  /**
   * What the engine's completion callback receives: no errors, or a
   * non-empty list of errors (`first` is `errors[0]`).
   */
  datatype EngineResult = Passed | Failed(first: FieldError, rest: seq<FieldError>) {
    function Errors(): (es: seq<FieldError>)
      requires Failed?
      ensures |es| > 0 && es[0] == first
    {
      [first] + rest
    }
  }

  /**
   * The external rule engine, run on a one-field descriptor and model:
   * field name, the rules for that field, and its value.
   */
  type Engine = (string, seq<Rule>, Value) -> EngineResult

  /** The part of the enclosing form's context that validation reads. */
  datatype FormContext = FormContext(rules: map<string, RulesArg>)

  /** The props of a field that validation reads. */
  datatype Props = Props(
    prop: Option<string>,
    rules: RulesArg,
    required: bool,
    initialValue: Option<Value>,
    ctx: FormContext)

  /** The field's `this.state`. */
  datatype FieldState = FieldState(value: Value, valid: bool, error: string)

  /** How the promise returned by `validate` settles. */
  datatype Settlement = Resolved(model: Option<map<string, Value>>) | Rejected(errors: seq<FieldError>)

  /** The settlement of one validation and the field state it leaves. */
  datatype Step = Step(settlement: Settlement, state: FieldState)

  /** The field's effective rules (`getRules`). */
  function FieldRules(p: Props): seq<Rule> {
    EffectiveRules(p.rules, p.ctx.rules, p.prop, p.required)
  }

  /** The field's rules for one trigger (`getFilteredRule`). */
  function FilteredRules(p: Props, trigger: string): seq<Rule> {
    FilterByTrigger(FieldRules(p), trigger)
  }

  /** A field marked valid shows no error. */
  predicate Consistent(s: FieldState) {
    s.valid ==> s.error == ""
  }

  /** The state at construction and after `resetField`. */
  function InitialState(p: Props): FieldState {
    FieldState(p.initialValue.GetOr(EmptyValue), true, "")
  }

  /** The state after `setFieldValue(v)`: no validation runs. */
  function ValueSetState(v: Value): FieldState {
    FieldState(v, true, "")
  }

  /**
   * One run of `validate(trigger)`, the engine's completion applied at once.
   * An unnamed field resolves with no model; an empty rule list resolves
   * with the model; otherwise the engine decides. The value never changes.
   */
  function ValidateStep(p: Props, s: FieldState, trigger: string, engine: Engine): (r: Step)
    ensures r.state.value == s.value
    ensures Consistent(s) ==> Consistent(r.state)
    ensures r.settlement.Rejected? <==>
      HasProp(p.prop) && FilteredRules(p, trigger) != [] && engine(p.prop.value, FilteredRules(p, trigger), s.value).Failed?
    ensures r.settlement.Rejected? ==>
      var e := engine(p.prop.value, FilteredRules(p, trigger), s.value);
      r.settlement.errors == e.Errors() && !r.state.valid && r.state.error == e.first.message.GetOr("")
    ensures !HasProp(p.prop) || FilteredRules(p, trigger) == [] ==> r.state == s
    ensures HasProp(p.prop) && FilteredRules(p, trigger) != [] && engine(p.prop.value, FilteredRules(p, trigger), s.value).Passed? ==>
      r.state == s.(valid := true, error := "")
    ensures r.settlement.Resolved? && HasProp(p.prop) ==> r.settlement.model == Some(map[p.prop.value := s.value])
    ensures r.settlement.Resolved? && !HasProp(p.prop) ==> r.settlement.model == None
  {
    var rules := FilteredRules(p, trigger);
    if !HasProp(p.prop) then
      Step(Resolved(None), s)
    else
      var model := map[p.prop.value := s.value];
      if |rules| == 0 then
        Step(Resolved(Some(model)), s)
      else
        match engine(p.prop.value, rules, s.value)
        case Passed => Step(Resolved(Some(model)), s.(valid := true, error := ""))
        case Failed(first, rest) => Step(Rejected([first] + rest), s.(valid := false, error := first.message.GetOr("")))
  }

  /** `handleChange(e)`: store the extracted value, then validate for "change". */
  function ChangeState(p: Props, s: FieldState, e: Event, engine: Engine): (r: FieldState)
    ensures r.value == ValueFromEvent(e)
    ensures HasProp(p.prop) && FilteredRules(p, "change") != [] ==>
      var outcome := engine(p.prop.value, FilteredRules(p, "change"), ValueFromEvent(e));
      (r.valid <==> outcome.Passed?) && r.error == (if outcome.Passed? then "" else outcome.first.message.GetOr(""))
    ensures !(HasProp(p.prop) && FilteredRules(p, "change") != []) ==> r.valid == s.valid && r.error == s.error
  {
    ValidateStep(p, s.(value := ValueFromEvent(e)), "change", engine).state
  }

  /** `handleBlur()`: validate the stored value for "blur". */
  function BlurState(p: Props, s: FieldState, engine: Engine): (r: FieldState)
    ensures r.value == s.value
    ensures HasProp(p.prop) && FilteredRules(p, "blur") != [] ==>
      var outcome := engine(p.prop.value, FilteredRules(p, "blur"), s.value);
      (r.valid <==> outcome.Passed?) && r.error == (if outcome.Passed? then "" else outcome.first.message.GetOr(""))
    ensures !(HasProp(p.prop) && FilteredRules(p, "blur") != []) ==> r == s
  {
    ValidateStep(p, s, "blur", engine).state
  }

  /** The operations that change a field's state. */
  datatype Action = ResetField | SetFieldValue(v: Value) | Change(e: Event) | Blur | Revalidate(trigger: string)

  function Apply(p: Props, s: FieldState, a: Action, engine: Engine): FieldState {
    match a
    case ResetField => InitialState(p)
    case SetFieldValue(v) => ValueSetState(v)
    case Change(e) => ChangeState(p, s, e, engine)
    case Blur => BlurState(p, s, engine)
    case Revalidate(t) => ValidateStep(p, s, t, engine).state
  }

  /** The state after a sequence of operations, each validation completing before the next one. */
  function Run(p: Props, s: FieldState, actions: seq<Action>, engine: Engine): FieldState
    decreases |actions|
  {
    if actions == [] then s else Run(p, Apply(p, s, actions[0], engine), actions[1..], engine)
  }

  // ---------------------------------------------------------------------

  /** Every state a field can reach shows no error while it is marked valid. */
  lemma {:induction false} RunConsistent(p: Props, actions: seq<Action>, engine: Engine)
    ensures Consistent(Run(p, InitialState(p), actions, engine))
  {
    RunFromConsistent(p, InitialState(p), actions, engine);
  }

  lemma {:induction false} RunFromConsistent(p: Props, s: FieldState, actions: seq<Action>, engine: Engine)
    requires Consistent(s)
    ensures Consistent(Run(p, s, actions, engine))
    decreases |actions|
  {
    if actions != [] {
      RunFromConsistent(p, Apply(p, s, actions[0], engine), actions[1..], engine);
    }
  }

  /**
   * A field marked invalid need not show an error: when the engine's first
   * error has no message, the field ends invalid with an empty error.
   */
  lemma InvalidWithEmptyError(p: Props, s: FieldState, trigger: string, engine: Engine)
    requires HasProp(p.prop) && FilteredRules(p, trigger) != []
    requires engine(p.prop.value, FilteredRules(p, trigger), s.value).Failed?
    requires engine(p.prop.value, FilteredRules(p, trigger), s.value).first.message.None?
    ensures !ValidateStep(p, s, trigger, engine).state.valid
    ensures ValidateStep(p, s, trigger, engine).state.error == ""
  {
  }

  /**
   * A change that no rule applies to keeps the earlier outcome. A named,
   * required field with no rules of its own that fails on "blur" stays
   * invalid with that error after any change, even to a value the engine
   * would accept, since the default rule is not run on "change".
   */
  lemma StaleErrorAfterChange(p: Props, s: FieldState, e: Event, engine: Engine)
    requires HasProp(p.prop) && p.required && p.rules == Absent
    requires !(p.prop.value in p.ctx.rules && p.ctx.rules[p.prop.value] != Absent)
    requires engine(p.prop.value, [DefaultRequired], s.value).Failed?
    ensures var msg := engine(p.prop.value, [DefaultRequired], s.value).first.message.GetOr("");
      ChangeState(p, BlurState(p, s, engine), e, engine) == FieldState(ValueFromEvent(e), false, msg)
  {
    DefaultRuleTriggers();
    assert FieldRules(p) == [DefaultRequired];
    assert FilteredRules(p, "blur") == [DefaultRequired] by {
      assert FilterByTrigger([DefaultRequired][1..], "blur") == [];
    }
    assert FilteredRules(p, "change") == [] by {
      assert FilterByTrigger([DefaultRequired][1..], "change") == [];
    }
  }

  /** A field without a name never fails validation, whatever its rules. */
  lemma NamelessFieldNeverFails(p: Props, s: FieldState, trigger: string, engine: Engine)
    requires !HasProp(p.prop)
    ensures ValidateStep(p, s, trigger, engine) == Step(Resolved(None), s)
  {
  }

  /** Validating the same value again gives the same outcome and the same state. */
  lemma ValidateTwice(p: Props, s: FieldState, trigger: string, engine: Engine)
    ensures var r := ValidateStep(p, s, trigger, engine);
      ValidateStep(p, r.state, trigger, engine) == r
  {
  }

  /** After a reset the field is back in its initial state, whatever happened before. */
  lemma ResetRestores(p: Props, s: FieldState, actions: seq<Action>, engine: Engine)
    ensures Run(p, s, actions + [ResetField], engine) == InitialState(p)
  {
    RunAppend(p, s, actions, [ResetField], engine);
  }

  lemma {:induction false} RunAppend(p: Props, s: FieldState, a: seq<Action>, b: seq<Action>, engine: Engine)
    ensures Run(p, s, a + b, engine) == Run(p, Run(p, s, a, engine), b, engine)
    decreases |a|
  {
    if a == [] {
      assert a + b == b;
    } else {
      assert (a + b)[0] == a[0];
      assert (a + b)[1..] == a[1..] + b;
      RunAppend(p, Apply(p, s, a[0], engine), a[1..], b, engine);
    }
  }

  /**
   * With the `required` shortcut adding its rule, the field's rules for
   * "blur" are that rule followed by the base rules for "blur", and its rules
   * for "change" are the base rules for "change".
   */
  lemma RequiredShortcutOnBlur(p: Props)
    requires p.required
    requires !(BaseRules(p.rules, p.ctx.rules, p.prop).Some? && SomeRequired(BaseRules(p.rules, p.ctx.rules, p.prop).value))
    ensures var b := BaseRules(p.rules, p.ctx.rules, p.prop).GetOr([]);
      FilteredRules(p, "blur") == [DefaultRequired] + FilterByTrigger(b, "blur")
      && FilteredRules(p, "change") == FilterByTrigger(b, "change")
  {
    ShortcutFiltered(BaseRules(p.rules, p.ctx.rules, p.prop), p.required);
  }
}
