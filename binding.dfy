/**
 * Values, interaction events and the cached change handler of a form field
 * (`getValueFromComponent` and `getTriggerHandle` in src/FormItem.tsx).
 */
module Binding {
  import opened Wrappers

  /** The field values the model distinguishes; the empty value is `Str("")`. */
  datatype Value = Str(s: string) | Bool(b: bool) | Num(n: int) | Undefined

  const EmptyValue: Value := Str("")

  /**
   * What a bound control hands to its change handler: either a plain value,
   * or an event whose target has a `type`, a `checked` flag and a `value`.
   */
  datatype Event = Raw(raw: Value) | Target(kind: string, checked: bool, value: Value)

  /** `getValueFromComponent`: a checkbox yields its checked flag, any other target its value. */
  function ValueFromEvent(e: Event): Value {
    match e
    case Raw(v) => v
    case Target(kind, checked, value) => if kind == "checkbox" then Bool(checked) else value
  }

  /** A handler supplied by the consumer of the field (the child's own `onChange`), by identity. */
  datatype Callback = Callback(id: nat)

  /**
   * The handler given to the bound control: the field's own `handleChange`,
   * or a closure that runs `handleChange` and then the consumer's handler.
   */
  datatype Handler = ChangeOnly | ChangeThen(consumer: Callback)

  /** The call of the consumer's handler that a handler makes after `handleChange`. */
  datatype ConsumerCall = ConsumerCall(consumer: Callback, event: Event)

  /** The handler a first call of `getTriggerHandle(trigger)` builds. */
  function HandlerFor(trigger: Option<Callback>): Handler {
    match trigger
    case None => ChangeOnly
    case Some(cb) => ChangeThen(cb)
  }

  /** What a handler forwards to the consumer once `handleChange` has run: the same event. */
  function Forwarded(h: Handler, e: Event): Option<ConsumerCall> {
    match h
    case ChangeOnly => None
    case ChangeThen(cb) => Some(ConsumerCall(cb, e))
  }

  /**
   * One call of `getTriggerHandle`: the handler it returns and the cache
   * afterwards. A filled cache is returned as it is and stays.
   */
  function CacheCall(cache: Option<Handler>, trigger: Option<Callback>): (Handler, Option<Handler>) {
    match cache
    case Some(h) => (h, cache)
    case None => var h := HandlerFor(trigger); (h, Some(h))
  }

  /** The handlers returned by successive calls of `getTriggerHandle`, starting from `cache`. */
  function Handles(cache: Option<Handler>, triggers: seq<Option<Callback>>): (hs: seq<Handler>)
    ensures |hs| == |triggers|
    decreases |triggers|
  {
    if triggers == [] then []
    else
      var (h, next) := CacheCall(cache, triggers[0]);
      [h] + Handles(next, triggers[1..])
  }

  lemma {:induction false} CachedHandlerStays(h: Handler, triggers: seq<Option<Callback>>)
    ensures forall i :: 0 <= i < |triggers| ==> Handles(Some(h), triggers)[i] == h
  {
    if triggers != [] {
      CachedHandlerStays(h, triggers[1..]);
    }
  }

  /**
   * First call wins: every call returns the handler built for the first
   * call's argument, whatever the later calls pass.
   */
  lemma FirstCallWins(triggers: seq<Option<Callback>>)
    requires |triggers| > 0
    ensures forall i :: 0 <= i < |triggers| ==> Handles(None, triggers)[i] == HandlerFor(triggers[0])
  {
    CachedHandlerStays(HandlerFor(triggers[0]), triggers[1..]);
  }
}
