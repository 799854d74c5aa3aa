/**
 * Rule resolution and trigger filtering of a form field (`getRules`,
 * `getFilteredRule` and the check behind `isRequired` in src/FormItem.tsx).
 */
module Rules {
  import opened Wrappers

  /**
   * The `trigger` attribute of a rule. An array is searched with `indexOf`
   * for an equal element; a string is searched with `indexOf` for a substring.
   */
  datatype TriggerSpec = Events(names: seq<string>) | Text(word: string)

  /**
   * One validation rule. Only `required`, `trigger` and `message` are read by
   * the field; everything else is passed to the validation engine untouched.
   */
  datatype Rule = Rule(
    required: bool,
    trigger: Option<TriggerSpec>,
    message: Option<string>,
    constraints: map<string, string>)

  /** The `rules` prop, or one entry of the form-level rules: absent, one rule, or a list. */
  datatype RulesArg = Absent | One(rule: Rule) | Many(rules: seq<Rule>)

  /** The rule the `required` shortcut inserts; its trigger is the string "blur". */
  const DefaultRequired: Rule := Rule(true, Some(Text("blur")), Some("required"), map[])

  /** A field name takes part in rule lookup and validation only when it is truthy. */
  predicate HasProp(prop: Option<string>) {
    prop.Some? && prop.value != ""
  }

  /** `[].concat(rules)`: a single rule becomes a one-element list. */
  function Coerce(arg: RulesArg): seq<Rule>
    requires arg != Absent
  {
    match arg
    case One(rule) => [rule]
    case Many(rules) => rules
  }

  /**
   * The base list: the explicit rules if there are any, otherwise the
   * form-level entry under the field's name; None when neither is there.
   */
  function BaseRules(explicit: RulesArg, formRules: map<string, RulesArg>, prop: Option<string>): Option<seq<Rule>>
  {
    var fromForm := if HasProp(prop) && prop.value in formRules then formRules[prop.value] else Absent;
    var chosen := if explicit != Absent then explicit else fromForm;
    if chosen == Absent then None else Some(Coerce(chosen))
  }

  /** Some rule of the list has `required` set. */
  predicate SomeRequired(rules: seq<Rule>) {
    exists i :: 0 <= i < |rules| && rules[i].required
  }

  /** The number of rules of the list that have `required` set. */
  function CountRequired(rules: seq<Rule>): nat {
    if rules == [] then 0 else (if rules[0].required then 1 else 0) + CountRequired(rules[1..])
  }

  /**
   * The `required` shortcut applied to a base list: without a base list the
   * result is the default rule or nothing; with one, the default rule is put
   * in front only when `required` is set and no rule of the base is required.
   */
  function Shortcut(base: Option<seq<Rule>>, required: bool): (r: seq<Rule>)
    ensures base.None? ==> r == (if required then [DefaultRequired] else [])
    ensures base.Some? ==> |base.value| <= |r| <= |base.value| + 1
    ensures base.Some? ==> r[|r| - |base.value|..] == base.value
    ensures base.Some? && |r| > |base.value| ==> r[0] == DefaultRequired
    ensures base.Some? && |r| > |base.value| <==> base.Some? && required && !SomeRequired(base.value)
    ensures required ==> SomeRequired(r)
    ensures !required ==> r == base.GetOr([])
  {
    match base
    case None =>
      if required then
        assert [DefaultRequired][0].required;
        [DefaultRequired]
      else
        []
    case Some(rules) =>
      if required && !SomeRequired(rules) then
        assert ([DefaultRequired] + rules)[0].required;
        [DefaultRequired] + rules
      else
        rules
  }

  /** The effective rule list of a field, as `getRules` computes it. */
  function EffectiveRules(explicit: RulesArg, formRules: map<string, RulesArg>, prop: Option<string>, required: bool): seq<Rule>
  {
    Shortcut(BaseRules(explicit, formRules, prop), required)
  }

  /** `indexOf(t) !== -1` on a string: `t` occurs somewhere in `w`. */
  predicate Occurs(t: string, w: string)
    decreases |w|
  {
    t <= w || (|w| > 0 && Occurs(t, w[1..]))
  }

  /** `t` occurs in `w` starting at position `i`. */
  predicate OccursAt(t: string, w: string, i: nat) {
    i + |t| <= |w| && w[i..i + |t|] == t
  }

  /** `Array.prototype.indexOf` on a list of names: the first position holding `t`, or -1. */
  function IndexOfElement(names: seq<string>, t: string): (r: int)
    ensures r == -1 <==> t !in names
    ensures r != -1 ==> 0 <= r < |names| && names[r] == t
    ensures r != -1 ==> forall j :: 0 <= j < r ==> names[j] != t
  {
    if names == [] then -1
    else if names[0] == t then 0
    else
      var k := IndexOfElement(names[1..], t);
      if k == -1 then -1 else k + 1
  }

  /** `String.prototype.indexOf`: the first position of `w` where `t` starts, or -1. */
  function IndexOfText(w: string, t: string): (r: int)
    ensures r == -1 <==> !Occurs(t, w)
    ensures r != -1 ==> 0 <= r && OccursAt(t, w, r)
    ensures r != -1 ==> forall j: nat :: j < r ==> !OccursAt(t, w, j)
    decreases |w|
  {
    if t <= w then
      assert w[..|t|] == t;
      0
    else if |w| == 0 then -1
    else
      var k := IndexOfText(w[1..], t);
      OccursAtShiftAll(t, w);
      if k == -1 then -1 else FirstPositionShift(t, w, k); k + 1
  }

  /** `indexOf` on a trigger attribute of either shape. */
  function IndexOf(spec: TriggerSpec, t: string): int {
    match spec
    case Events(names) => IndexOfElement(names, t)
    case Text(w) => IndexOfText(w, t)
  }

  /** JavaScript truthiness of a rule's trigger attribute: absent and "" are falsy, any array is truthy. */
  predicate TriggerTruthy(trigger: Option<TriggerSpec>) {
    trigger.Some? && trigger.value != Text("")
  }

  /** The filter callback of `getFilteredRule`: a falsy trigger keeps the rule. */
  predicate AppliesTo(rule: Rule, trigger: string) {
    match rule.trigger
    case None => true
    case Some(Text(w)) => w == "" || Occurs(trigger, w)
    case Some(Events(names)) => trigger in names
  }

  /** `rules.filter(...)` in `getFilteredRule`. */
  function FilterByTrigger(rules: seq<Rule>, trigger: string): (r: seq<Rule>)
    ensures |r| <= |rules|
    ensures forall x :: x in r <==> x in rules && AppliesTo(x, trigger)
  {
    if rules == [] then []
    else
      var rest := FilterByTrigger(rules[1..], trigger);
      assert forall x :: x in rules <==> x == rules[0] || x in rules[1..];
      if AppliesTo(rules[0], trigger) then [rules[0]] + rest else rest
  }

  /** `a` is `b` with some elements dropped, the others kept in order. */
  predicate IsSubsequence<T(==)>(a: seq<T>, b: seq<T>)
    decreases |b|
  {
    |a| == 0 || (|b| > 0 && (IsSubsequence(a, b[1..]) || (a[0] == b[0] && IsSubsequence(a[1..], b[1..]))))
  }

  // ---------------------------------------------------------------------
  // Rule resolution

  /** Explicit rules decide the base list alone: neither the form-level rules nor the name matter. */
  lemma ExplicitRulesOverride(explicit: RulesArg, formRules1: map<string, RulesArg>, formRules2: map<string, RulesArg>,
                              prop1: Option<string>, prop2: Option<string>, required: bool)
    requires explicit != Absent
    ensures EffectiveRules(explicit, formRules1, prop1, required) == EffectiveRules(explicit, formRules2, prop2, required)
    ensures EffectiveRules(explicit, formRules1, prop1, required) == Shortcut(Some(Coerce(explicit)), required)
  {
  }

  /** Without explicit rules, the form-level entry is used exactly when the name is set and has an entry. */
  lemma FormRulesByName(formRules: map<string, RulesArg>, prop: Option<string>, required: bool)
    ensures HasProp(prop) && prop.value in formRules && formRules[prop.value] != Absent ==>
      EffectiveRules(Absent, formRules, prop, required) == Shortcut(Some(Coerce(formRules[prop.value])), required)
    ensures !(HasProp(prop) && prop.value in formRules && formRules[prop.value] != Absent) ==>
      EffectiveRules(Absent, formRules, prop, required) == (if required then [DefaultRequired] else [])
  {
  }

  lemma {:induction false} CountRequiredAppend(a: seq<Rule>, b: seq<Rule>)
    ensures CountRequired(a + b) == CountRequired(a) + CountRequired(b)
  {
    if a != [] {
      assert (a + b)[1..] == a[1..] + b;
      CountRequiredAppend(a[1..], b);
    } else {
      assert a + b == b;
    }
  }

  /** Counting and the existential agree. */
  lemma {:induction false} CountRequiredPositive(rules: seq<Rule>)
    ensures CountRequired(rules) > 0 <==> SomeRequired(rules)
  {
    if rules != [] {
      CountRequiredPositive(rules[1..]);
      if SomeRequired(rules[1..]) {
        var i :| 0 <= i < |rules[1..]| && rules[1..][i].required;
        assert rules[i + 1].required;
      }
      if SomeRequired(rules) && !rules[0].required {
        var i :| 0 <= i < |rules| && rules[i].required;
        assert rules[1..][i - 1].required;
      }
    }
  }

  /**
   * The shortcut never adds a second required rule: with `required` set the
   * result holds exactly one required rule more than the base when the base
   * has none, and exactly as many as the base otherwise.
   */
  lemma ShortcutNeverDuplicates(base: Option<seq<Rule>>)
    ensures var n := CountRequired(base.GetOr([]));
      CountRequired(Shortcut(base, true)) == if n == 0 then 1 else n
  {
    var b := base.GetOr([]);
    CountRequiredPositive(b);
    if base.Some? && !SomeRequired(b) {
      CountRequiredAppend([DefaultRequired], b);
    }
  }

  /** Resolving an already-resolved list once more changes nothing. */
  lemma ShortcutIdempotent(base: Option<seq<Rule>>, required: bool)
    ensures Shortcut(Some(Shortcut(base, required)), required) == Shortcut(base, required)
  {
  }

  // ---------------------------------------------------------------------
  // Trigger filtering

  lemma {:induction false} OccursLonger(t: string, w: string)
    requires |t| > |w|
    ensures !Occurs(t, w)
    decreases |w|
  {
    if |w| > 0 {
      OccursLonger(t, w[1..]);
    }
  }

  lemma OccursAtShift(t: string, w: string, j: nat)
    requires |w| > 0
    ensures OccursAt(t, w[1..], j) <==> OccursAt(t, w, j + 1)
  {
    if j + 1 + |t| <= |w| {
      assert w[1..][j..j + |t|] == w[j + 1..j + 1 + |t|];
    }
  }

  lemma OccursAtStart(t: string, w: string)
    ensures OccursAt(t, w, 0) ==> t <= w
  {
    if OccursAt(t, w, 0) {
      assert w[..|t|] == t;
    }
  }

  /** A first match at `k` in `w[1..]` is a first match at `k + 1` in `w` when `t` is no prefix of `w`. */
  lemma FirstPositionShift(t: string, w: string, k: nat)
    requires |w| > 0 && !(t <= w)
    requires forall j: nat :: j < k ==> !OccursAt(t, w[1..], j)
    ensures forall j: nat :: j < k + 1 ==> !OccursAt(t, w, j)
  {
    forall j: nat | j < k + 1 ensures !OccursAt(t, w, j) {
      if j == 0 {
        OccursAtStart(t, w);
      } else {
        OccursAtShift(t, w, j - 1);
      }
    }
  }

  lemma OccursAtShiftAll(t: string, w: string)
    requires |w| > 0
    ensures forall j: nat :: OccursAt(t, w[1..], j) <==> OccursAt(t, w, j + 1)
  {
    forall j: nat ensures OccursAt(t, w[1..], j) <==> OccursAt(t, w, j + 1) {
      OccursAtShift(t, w, j);
    }
  }

  lemma {:induction false} OccursFromPosition(t: string, w: string, i: nat)
    requires OccursAt(t, w, i)
    ensures Occurs(t, w)
    decreases i
  {
    if i == 0 {
      assert w[..|t|] == t;
    } else {
      OccursAtShift(t, w, i - 1);
      OccursFromPosition(t, w[1..], i - 1);
    }
  }

  lemma {:induction false} PositionFromOccurs(t: string, w: string) returns (i: nat)
    requires Occurs(t, w)
    ensures OccursAt(t, w, i)
    decreases |w|
  {
    if t <= w {
      assert w[0..|t|] == t;
      i := 0;
    } else {
      var j := PositionFromOccurs(t, w[1..]);
      OccursAtShift(t, w, j);
      i := j + 1;
    }
  }

  /** The recursive substring test agrees with "some position where `t` starts". */
  lemma OccursIff(t: string, w: string)
    ensures Occurs(t, w) <==> exists i: nat :: OccursAt(t, w, i)
  {
    if Occurs(t, w) {
      var i := PositionFromOccurs(t, w);
    }
    if i: nat :| OccursAt(t, w, i) {
      OccursFromPosition(t, w, i);
    }
  }

  /**
   * The filter callback as the source writes it, `!rule.trigger ||
   * rule.trigger.indexOf(trigger) !== -1`, is membership for an array
   * trigger and a substring test for a string trigger.
   */
  lemma AppliesToIndexOf(rule: Rule, t: string)
    ensures AppliesTo(rule, t) <==> !TriggerTruthy(rule.trigger) || IndexOf(rule.trigger.value, t) != -1
  {
  }

  /** The default rule takes part on "blur" and not on "change". */
  lemma DefaultRuleTriggers()
    ensures AppliesTo(DefaultRequired, "blur")
    ensures !AppliesTo(DefaultRequired, "change")
  {
    assert "blur" <= "blur";
    OccursLonger("change", "blur");
  }

  /** Filtering keeps the order of the rules it keeps. */
  lemma {:induction false} FilterIsSubsequence(rules: seq<Rule>, trigger: string)
    ensures IsSubsequence(FilterByTrigger(rules, trigger), rules)
  {
    if rules != [] {
      FilterIsSubsequence(rules[1..], trigger);
    }
  }

  /** Filtering keeps every applicable rule as often as it occurs and drops every other rule. */
  lemma {:induction false} FilterMultiplicity(rules: seq<Rule>, trigger: string, x: Rule)
    ensures multiset(FilterByTrigger(rules, trigger))[x] == if AppliesTo(x, trigger) then multiset(rules)[x] else 0
  {
    if rules != [] {
      FilterMultiplicity(rules[1..], trigger, x);
      assert rules == [rules[0]] + rules[1..];
      assert multiset(rules) == multiset([rules[0]]) + multiset(rules[1..]);
    }
  }

  /** Filtering distributes over concatenation. */
  lemma {:induction false} FilterAppend(a: seq<Rule>, b: seq<Rule>, trigger: string)
    ensures FilterByTrigger(a + b, trigger) == FilterByTrigger(a, trigger) + FilterByTrigger(b, trigger)
  {
    if a != [] {
      assert (a + b)[0] == a[0];
      assert (a + b)[1..] == a[1..] + b;
      FilterAppend(a[1..], b, trigger);
    } else {
      assert a + b == b;
    }
  }

  /**
   * The rule the shortcut inserts shows up when filtering for "blur" and never
   * when filtering for "change"; the base rules are filtered as they are.
   */
  lemma ShortcutFiltered(base: Option<seq<Rule>>, required: bool)
    ensures var b := base.GetOr([]);
      var added := required && !(base.Some? && SomeRequired(b));
      FilterByTrigger(Shortcut(base, required), "blur") == (if added then [DefaultRequired] else []) + FilterByTrigger(b, "blur")
      && FilterByTrigger(Shortcut(base, required), "change") == FilterByTrigger(b, "change")
  {
    DefaultRuleTriggers();
    var b := base.GetOr([]);
    FilterAppend([DefaultRequired], b, "blur");
    FilterAppend([DefaultRequired], b, "change");
    assert b + [] == b;
  }
}
