/**
 * Registration of a field with its form on mount and unmount
 * (`componentDidMount` and `componentWillUnmount` in src/FormItem.tsx).
 */
module Lifecycle {
  import opened Wrappers
  import opened Rules

  /** A call the field makes on its form's context. */
  datatype RegistryCall = AddField | RemoveField

  /** On mount, only a named field registers. */
  function MountCalls(prop: Option<string>): seq<RegistryCall> {
    if HasProp(prop) then [AddField] else []
  }

  /** On unmount, every field asks to be removed. */
  function UnmountCalls(): seq<RegistryCall> {
    [RemoveField]
  }

  /**
   * An assumed registry keeping a set of fields by identity: adding twice is
   * adding once, removing an absent field does nothing. The form's own
   * registry is not part of this model.
   */
  function Registered(members: set<nat>, field: nat, calls: seq<RegistryCall>): set<nat>
    decreases |calls|
  {
    if calls == [] then members
    else
      var next := if calls[0] == AddField then members + {field} else members - {field};
      Registered(next, field, calls[1..])
  }

  /** A mounted field is registered exactly when it has a name; other fields are untouched. */
  lemma MountRegistersNamed(members: set<nat>, field: nat, prop: Option<string>)
    ensures field in Registered(members, field, MountCalls(prop)) <==> HasProp(prop) || field in members
    ensures Registered(members, field, MountCalls(prop)) - {field} == members - {field}
  {
  }

  /** After mount and unmount the field is gone and the registry is otherwise as before. */
  lemma MountThenUnmount(members: set<nat>, field: nat, prop: Option<string>)
    ensures Registered(Registered(members, field, MountCalls(prop)), field, UnmountCalls()) == members - {field}
  {
  }
}
