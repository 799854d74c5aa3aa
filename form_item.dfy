/**
 * The field controller `FormItemComponent` of src/FormItem.tsx: props are
 * fixed at construction, `this.state` is the three fields `value`, `valid`
 * and `error`, and `triggerHandleCache` is the one-slot handler cache.
 */
module FormItem {
  import opened Wrappers
  import opened Rules
  import opened Binding
  import opened Validation
  import opened Lifecycle

  class FormItemComponent {
    const props: Props

    var value: Value
    var valid: bool
    var error: string
    var triggerHandleCache: Option<Handler>

    /** The field's `this.state`. */
    function State(): FieldState
      reads this
    {
      FieldState(value, valid, error)
    }

    constructor (props: Props)
      ensures this.props == props
      ensures State() == InitialState(props) && Consistent(State())
      ensures triggerHandleCache == None
    {
      this.props := props;
      value := props.initialValue.GetOr(EmptyValue);
      valid := true;
      error := "";
      triggerHandleCache := None;
    }

    method ResetField()
      modifies this`value, this`valid, this`error
      ensures State() == InitialState(props)
    {
      value := props.initialValue.GetOr(EmptyValue);
      valid := true;
      error := "";
    }

    method SetFieldValue(v: Value)
      modifies this`value, this`valid, this`error
      ensures State() == ValueSetState(v)
    {
      value := v;
      valid := true;
      error := "";
    }

    /** `isRequired`: some effective rule is required, whatever its trigger. */
    method IsRequired() returns (b: bool)
      ensures b <==> SomeRequired(FieldRules(props))
      ensures props.required ==> b
    {
      var rules := GetRules();
      var index := 0;
      while index < |rules|
        invariant 0 <= index <= |rules|
        invariant forall j :: 0 <= j < index ==> !rules[j].required
      {
        if rules[index].required {
          return true;
        }
        index := index + 1;
      }
      return false;
    }

    /** `getRules`: the effective rule list. */
    method GetRules() returns (result: seq<Rule>)
      ensures result == FieldRules(props)
    {
      var base := BaseRules(props.rules, props.ctx.rules, props.prop);
      if base.None? {
        return if props.required then [DefaultRequired] else [];
      }
      result := base.value;
      if props.required {
        var index := 0;
        while index < |result|
          invariant 0 <= index <= |result|
          invariant forall j :: 0 <= j < index ==> !result[j].required
        {
          if result[index].required {
            return;
          }
          index := index + 1;
        }
        result := [DefaultRequired] + result;
      }
    }

    /** `getFilteredRule(trigger)`. */
    method GetFilteredRule(trigger: string) returns (result: seq<Rule>)
      ensures result == FilteredRules(props, trigger)
    {
      var rules := GetRules();
      result := FilterByTrigger(rules, trigger);
    }

    /** `validate(trigger)`, with the engine's completion applied at once. */
    method Validate(trigger: string, engine: Engine) returns (s: Settlement)
      modifies this`valid, this`error
      ensures Step(s, State()) == ValidateStep(props, old(State()), trigger, engine)
      ensures value == old(value)
      ensures Consistent(old(State())) ==> Consistent(State())
    {
      var rules := GetFilteredRule(trigger);
      if !HasProp(props.prop) {
        return Resolved(None);
      }
      var model := map[props.prop.value := value];
      if |rules| == 0 {
        return Resolved(Some(model));
      }
      match engine(props.prop.value, rules, value)
      case Failed(first, rest) =>
        error := first.message.GetOr("");
        valid := false;
        s := Rejected([first] + rest);
      case Passed =>
        error := "";
        valid := true;
        s := Resolved(Some(model));
    }

    /** `handleChange(e)`: store the extracted value, then validate for "change". */
    method HandleChange(e: Event, engine: Engine)
      modifies this`value, this`valid, this`error
      ensures State() == ChangeState(props, old(State()), e, engine)
      ensures Consistent(old(State())) ==> Consistent(State())
    {
      value := ValueFromEvent(e);
      var _ := Validate("change", engine);
    }

    /** `handleBlur()`: validate the stored value for "blur". */
    method HandleBlur(engine: Engine)
      modifies this`valid, this`error
      ensures State() == BlurState(props, old(State()), engine)
      ensures Consistent(old(State())) ==> Consistent(State())
    {
      var _ := Validate("blur", engine);
    }

    /** `getTriggerHandle(trigger)`: the first call fills the cache, every later call returns it. */
    method GetTriggerHandle(trigger: Option<Callback>) returns (h: Handler)
      modifies this`triggerHandleCache
      ensures (h, triggerHandleCache) == CacheCall(old(triggerHandleCache), trigger)
    {
      if triggerHandleCache.Some? {
        return triggerHandleCache.value;
      }
      if trigger.Some? {
        triggerHandleCache := Some(ChangeThen(trigger.value));
      } else {
        triggerHandleCache := Some(ChangeOnly);
      }
      h := triggerHandleCache.value;
    }

    /**
     * Run a handler built by `GetTriggerHandle` on an event: `handleChange`
     * runs first; the consumer's handler, if any, is then due with the same event.
     */
    method Dispatch(h: Handler, e: Event, engine: Engine) returns (call: Option<ConsumerCall>)
      modifies this`value, this`valid, this`error
      ensures State() == ChangeState(props, old(State()), e, engine)
      ensures call == Forwarded(h, e)
    {
      HandleChange(e, engine);
      match h
      case ChangeOnly => call := None;
      case ChangeThen(cb) => call := Some(ConsumerCall(cb, e));
    }

    /** `componentDidMount`: the calls made on the form's registry. */
    method ComponentDidMount() returns (calls: seq<RegistryCall>)
      ensures calls == MountCalls(props.prop)
    {
      calls := [];
      if HasProp(props.prop) {
        calls := [AddField];
      }
    }

    /** `componentWillUnmount`: the calls made on the form's registry. */
    method ComponentWillUnmount() returns (calls: seq<RegistryCall>)
      ensures calls == UnmountCalls()
    {
      calls := [RemoveField];
    }
  }

  /** A field named "email" with one format rule and no trigger. */
  function EmailProps(): Props {
    Props(Some("email"), One(EmailRule()), false, Some(Str("")), FormContext(map[]))
  }

  function EmailRule(): Rule {
    Rule(false, None, None, map["type" := "email"])
  }

  /** An engine that accepts only "a@b.com". */
  function EmailEngine(): Engine {
    (name, rules, v) => if v == Str("a@b.com") then Passed else Failed(FieldError(Some("not an email")), [])
  }

  lemma EmailRulesOnChange()
    ensures FilteredRules(EmailProps(), "change") == [EmailRule()]
  {
    var rule := EmailRule();
    assert BaseRules(EmailProps().rules, EmailProps().ctx.rules, EmailProps().prop) == Some([rule]);
    assert FilterByTrigger([rule], "change") == [rule] by {
      assert AppliesTo(rule, "change");
      assert FilterByTrigger([rule][1..], "change") == [];
    }
  }

  /** An invalid value fails with the engine's message; a valid one clears the error. */
  method EmailScenario()
  {
    var item := new FormItemComponent(EmailProps());
    EmailRulesOnChange();
    item.SetFieldValue(Str("not-an-email"));
    var s := item.Validate("change", EmailEngine());
    assert s.Rejected? && !item.valid && item.error == "not an email";

    item.SetFieldValue(Str("a@b.com"));
    s := item.Validate("change", EmailEngine());
    assert s == Resolved(Some(map["email" := Str("a@b.com")]));
    assert item.valid && item.error == "";
  }

  /** A change stores the value and may leave the field invalid; a reset restores the initial state. */
  method ResetScenario()
  {
    var item := new FormItemComponent(EmailProps());
    EmailRulesOnChange();
    item.HandleChange(Raw(Str("x")), EmailEngine());
    assert item.value == Str("x") && !item.valid;
    item.ResetField();
    assert item.value == Str("") && item.valid && item.error == "";
  }
}
