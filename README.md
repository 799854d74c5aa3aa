# Form field validation controller, modelled in Dafny

This project models `FormItemComponent`, the field controller of a small React
form library. A field has a name (`prop`), explicit `rules`, a `required`
shortcut and an `initialValue`, and it reads form-level rules from its form's
context. The controller works out the field's effective rule list and narrows it
to the rules for one trigger ("change" or "blur"). It runs an external rule
engine on that list and the field's value, and keeps `value`, `valid` and `error`
in its state.

Modules:

- `Rules` (rules.dfy): the rule data model, rule resolution (`getRules`), the
  trigger filter (`getFilteredRule`) and the "some rule is required" check,
  written as functions, with lemmas about them.
- `Binding` (binding.dfy): field values and interaction events
  (`getValueFromComponent`), and the one-slot handler cache of
  `getTriggerHandle`, written as a pure transition with a lemma that the first
  call wins.
- `Validation` (validation.dfy): the field state and its transitions. These are
  the initial state, reset, `setFieldValue`, and one `validate` run with each
  engine outcome. It also has lemmas about any sequence of these operations.
- `Lifecycle` (lifecycle.dfy): the registry calls made at mount and unmount.
- `FormItem` (form_item.dfy): the class `FormItemComponent`, whose fields are
  `value`, `valid`, `error` and `triggerHandleCache`. Its methods change state
  the way the source does. Each method's postcondition ties the new state to
  the matching transition in `Validation` or `Binding`. `getRules` and
  `isRequired` keep the source's loops. Two client methods at the end walk
  through a failing validation, a passing one, a change and a reset.

Choices the model makes:

- The external validation engine (`async-validator`'s `Schema`) is a parameter
  `engine: (string, seq<Rule>, Value) -> EngineResult`. It gets the field name,
  the filtered rules and the value. It returns `Passed` or `Failed(first, rest)`,
  so an error list can never be empty. The engine is a deterministic function
  of those three inputs; `Validation.ValidateTwice` depends on that. Each
  validation finishes at once: the state update and the settlement of the
  returned promise are one step.
- `rule.trigger.indexOf(trigger) !== -1` (src/FormItem.tsx:87) is modelled for
  both shapes JavaScript allows. For an array (`Events`) it tests membership.
  For a string (`Text`) it tests for a substring. The default required rule
  keeps the source's string trigger `'blur'`. A falsy trigger keeps the rule:
  an absent one or the empty string. An empty array is truthy, so it drops the
  rule.
- A `prop` that is the empty string is treated as unset, because the source
  tests `prop` for truthiness. `initialValue` is optional, and an explicit
  `Undefined` is a value of its own (`hasOwnProperty`, src/FormItem.tsx:29).
- Props are fixed when the component is constructed. Form-level rules that are
  missing (`ctx.rules` undefined) are an empty map.
- The consumer's own change handler is foreign code. `Dispatch` runs
  `handleChange` and then returns the consumer call that is now due, with the
  same event.
- The registry behind `ctx.addField`/`ctx.removeField` is not part of this
  model. `Lifecycle.Registered` is the model's own assumption about it: a set
  of fields by identity, where adding twice is adding once and removing an
  absent field does nothing.

Behaviours of the code that the model keeps, each stated by a lemma or contract:

- An engine error without a message leaves the field invalid with an empty
  error, because `error` is set to `errors[0].message || ''`
  (src/FormItem.tsx:108). So "invalid" does not imply "an error is shown";
  only "valid implies no error" holds in every state
  (`Validation.InvalidWithEmptyError`, `Validation.RunConsistent`).
- A validation that has no name or no applicable rules resolves without
  touching `valid` or `error` (src/FormItem.tsx:94-101). An earlier outcome
  therefore stays. Take a named, required field with no rules of its own that
  fails on "blur". Any later change keeps it invalid with that error, even for
  a value the engine would accept, since the default rule never runs on
  "change" (`Validation.StaleErrorAfterChange`).
- A rejection carries the engine's whole error list (src/FormItem.tsx:111);
  only the first error's message goes into `error`
  (`Validation.ValidateStep`).

## Model

| member | source | states |
|---|---|---|
| Rules.Shortcut | src/FormItem.tsx:66-80 | with no base list the result is exactly the default rule when `required` is set, else empty. With a base list, the result is the base with at most one rule in front, and that rule is the default rule. The default rule is added exactly when `required` is set and no base rule is required. With `required` set the result always holds a required rule. With `required` clear the base is returned unchanged |
| Rules.ExplicitRulesOverride | src/FormItem.tsx:63-70 | when explicit rules are present, the base list (`BaseRules`) is the explicit rules coerced to a list (`Coerce`: one rule becomes a one-element list). The effective list (`EffectiveRules`) then depends neither on the form-level rules nor on the field name |
| Rules.FormRulesByName | src/FormItem.tsx:64-70 | without explicit rules, `EffectiveRules` uses the form-level entry, coerced to a list, exactly when the name is truthy and has an entry. Otherwise the result is the default rule or nothing |
| Rules.ShortcutNeverDuplicates | src/FormItem.tsx:71-78 | with `required` set, the number of required rules is one when the base has none, and the base's own count otherwise. No second required rule is ever added |
| Rules.ShortcutIdempotent | src/FormItem.tsx:66-80 | resolving an already-resolved list again returns it unchanged |
| Rules.FilterByTrigger | src/FormItem.tsx:83-89 | a rule is in the result iff it is in the input and has no trigger or a trigger that contains the given one; the result is no longer than the input |
| Rules.FilterIsSubsequence | src/FormItem.tsx:86-88 | the filtered list keeps the input's relative order |
| Rules.FilterMultiplicity | src/FormItem.tsx:86-88 | every applicable rule is kept as many times as it occurs, and every other rule is dropped |
| Rules.FilterAppend | src/FormItem.tsx:86-88 | filtering a concatenation is concatenating the filtered parts |
| Rules.OccursIff | src/FormItem.tsx:87 | the substring test `Occurs` used for string triggers holds iff the trigger starts at some position of the string |
| Rules.IndexOfElement | src/FormItem.tsx:87 | `indexOf` on an array trigger is -1 exactly when the trigger is absent from the array; otherwise it is the first position that holds it |
| Rules.IndexOfText | src/FormItem.tsx:87 | `indexOf` on a string trigger is -1 exactly when the trigger does not occur in the string; otherwise it is the first position where it starts |
| Rules.AppliesToIndexOf | src/FormItem.tsx:86-88 | the filter predicate `AppliesTo` holds iff the rule's trigger is falsy (absent or the empty string) or its `indexOf` is not -1. For an array that means membership, for a string a substring; an empty array drops the rule |
| Rules.DefaultRuleTriggers | src/FormItem.tsx:66 | the synthesized required rule applies to "blur" and not to "change" |
| Rules.ShortcutFiltered | src/FormItem.tsx:66-89 | on "blur", the filtered list is the added default rule, if any, followed by the filtered base. On "change" it is the filtered base alone |
| Binding.FirstCallWins | src/FormItem.tsx:138-151 | after any sequence of `getTriggerHandle` calls (`CacheCall`) from an empty cache, every call returns the handler built for the first call's argument (`HandlerFor`) |
| Validation.ValidateStep | src/FormItem.tsx:91-121 | the value never changes. With no name, or no rules for the trigger, the state is unchanged: an unnamed field resolves with no model, a named one with `{prop: value}`. Otherwise the engine decides. If it passes, the field becomes valid with an empty error and the model `{prop: value}` resolves. If it fails, the promise rejects with all the engine's errors, the field becomes invalid, and the error is the first error's message, or '' if it has none. "Valid implies no error" is preserved |
| Validation.ChangeState | src/FormItem.tsx:123-136 | the value becomes `ValueFromEvent(e)`: a plain value as it is, a checkbox's checked flag, any other target's value. If the field is named and has "change" rules, it is valid exactly when the engine accepts the new value, and its error is '' or the first error's message. Otherwise `valid` and `error` are kept |
| Validation.BlurState | src/FormItem.tsx:153-155 | the value is kept. If the field is named and has "blur" rules, it is valid exactly when the engine accepts the stored value, and its error is '' or the first error's message. Otherwise the state is unchanged |
| Validation.RunConsistent | src/FormItem.tsx:28-155 | in every state reachable from the initial state by resets, `setFieldValue`, changes, blurs and validations, a valid field has an empty error |
| Validation.InvalidWithEmptyError | src/FormItem.tsx:105-111 | when the engine's first error has no message, the field ends invalid with an empty error |
| Validation.StaleErrorAfterChange | src/FormItem.tsx:94-101 | for every named, required field with no rules of its own, every state on which the engine rejects the default rule, and every event: after a "blur" and then a change, the field holds the new value, is invalid, and keeps the "blur" error, because no rule applies to "change" |
| Validation.NamelessFieldNeverFails | src/FormItem.tsx:94-96 | an unnamed field resolves with no model and keeps its state, whatever its rules and the engine |
| Validation.ValidateTwice | src/FormItem.tsx:91-121 | validating again right after a validation gives the same settlement and the same state |
| Validation.ResetRestores | src/FormItem.tsx:35-41 | after any sequence of operations followed by a reset, the field is in its initial state |
| Validation.RequiredShortcutOnBlur | src/FormItem.tsx:66-89 | when the shortcut adds its rule, the field's rule list for "blur" (`FilteredRules`) is that rule followed by the base rules that apply to "blur". Its list for "change" is the base rules that apply to "change" |
| Lifecycle.MountRegistersNamed | src/FormItem.tsx:187-192 | with the assumed set registry, after the mount calls the field is registered iff it is named or was registered already, and no other entry changes |
| Lifecycle.MountThenUnmount | src/FormItem.tsx:187-197 | with the assumed set registry, the mount calls followed by the unmount call remove the field and leave every other entry as it was |
| FormItem.FormItemComponent.constructor | src/FormItem.tsx:26-33 | the state is `InitialState`: the value is `initialValue` when one was given, else the empty string, and the field is valid with an empty error. The handler cache is empty |
| FormItem.FormItemComponent.ResetField | src/FormItem.tsx:35-41 | the state becomes `InitialState` again; the handler cache is kept |
| FormItem.FormItemComponent.SetFieldValue | src/FormItem.tsx:43-49 | the state becomes the given value, valid, with an empty error (`ValueSetState`); no validation runs |
| FormItem.FormItemComponent.IsRequired | src/FormItem.tsx:51-60 | true iff some effective rule is required, whatever its trigger; true whenever `required` is set |
| FormItem.FormItemComponent.GetRules | src/FormItem.tsx:62-81 | the early-return loop returns the effective rule list `EffectiveRules`, for this field `FieldRules` |
| FormItem.FormItemComponent.GetFilteredRule | src/FormItem.tsx:83-89 | returns `FilteredRules`: the effective rules filtered for the trigger |
| FormItem.FormItemComponent.Validate | src/FormItem.tsx:91-121 | the settlement and the new state are those of one validation step. `value` is unchanged, and "valid implies no error" is kept |
| FormItem.FormItemComponent.HandleChange | src/FormItem.tsx:131-136 | stores `ValueFromEvent(e)` (`getValueFromComponent`), then validates it for "change": the new state is `ChangeState` of the old one |
| FormItem.FormItemComponent.HandleBlur | src/FormItem.tsx:153-155 | validates the stored value for "blur" |
| FormItem.FormItemComponent.GetTriggerHandle | src/FormItem.tsx:138-151 | a filled cache is returned and kept. An empty cache is filled with the handler for the given trigger, and that handler is returned (`CacheCall`) |
| FormItem.FormItemComponent.Dispatch | src/FormItem.tsx:143-148 | runs `handleChange` on the event. A combined handler then hands the same event to the consumer's trigger (`Forwarded`); `handleChange` alone hands nothing on |
| FormItem.FormItemComponent.ComponentDidMount | src/FormItem.tsx:187-192 | makes the mount calls (`MountCalls`): `addField` only for a named field |
| FormItem.FormItemComponent.ComponentWillUnmount | src/FormItem.tsx:194-197 | makes the unmount call (`UnmountCalls`) `removeField` unconditionally |

## Left out

- `render`, `getLabelStyle`, `contentStyle` and the class-name composition (src/FormItem.tsx:157-236) are left out. They are styling and React element cloning. The `trigger` and `valuePropName` props are only used there.
- The wrapping `Consumer` component (src/FormItem.tsx:239-241) and src/Formx.tsx are left out. They are context-provider plumbing for configuration.
- The internals of the rule engine are left out: descriptor semantics, the `{first: true}` option, and what each rule checks. The engine is a parameter, and the model assumes it always calls back with no errors or a non-empty list.
- Asynchrony is left out. This covers promise completion order, and an older validation's completion overwriting a newer one. It also covers `setState` batching and its callbacks, and a completion that arrives after unmount. Every validation completes atomically before the next operation.
- The form's registry behind `ctx.addField`/`ctx.removeField` is not part of this model. Only the calls the field makes are modelled; the set-based registry in `Lifecycle` is an assumption of the model.
- The promises returned by `validate` inside `handleChange` and `handleBlur` are dropped (src/FormItem.tsx:134, 154). A rejection there is an unhandled promise rejection; the model discards the settlement and does not model that effect.
- JavaScript truthiness of values other than the ones modelled is left out. In the model, `required` is a boolean, and field values are strings, booleans, integers or `undefined`. Objects, arrays and floating-point numbers are not modelled.
- `[].concat` is modelled only for one rule or a flat list of rules. Nested arrays and property lookups that reach the prototype chain are not modelled.
- Props that change after construction are not modelled: the props are fixed for the component's lifetime.
- `Binding.ValueFromEvent` covers plain values and events with a target. A non-value argument without a target, which the source returns unchanged, has no counterpart in the model.
