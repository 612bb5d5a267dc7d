/** The process-wide trigger registry that the `message` decorator fills:
    trigger name to message class, later registrations winning. */
module Registry {
  import opened Types

  /** A decorated message class: where it lives, the trigger name and the
      (coerced) behaviour attached to it, and its static options (subject, ...). */
  datatype MessageClass = MessageClass(
    path: string,
    triggerName: string,
    behavior: Behavior,
    options: map<string, string>)

  /** The behaviour stored on the class: the given value when it is a declared
      TriggerBehavior value, DEFAULT otherwise (including no value at all). */
  function Coerce(raw: Option<int>): (b: Behavior)
    ensures raw.Some? && BehaviorOf(raw.value).Some? ==> b.Value() == raw.value
    ensures raw.None? || BehaviorOf(raw.value).None? ==> b == Default
  {
    match raw
    case None => Default
    case Some(v) => if BehaviorOf(v).Some? then BehaviorOf(v).value else Default
  }

  /** Every declared behaviour survives coercion of its own value. */
  lemma CoerceKeepsDeclared(b: Behavior)
    ensures Coerce(Some(b.Value())) == b
  {
  }

  class Registry {
    /** trigger name -> registered message class */
    var entries: map<string, MessageClass>

    constructor ()
      ensures entries == map[]
    {
      entries := map[];
    }

    /** @message(name, behavior, **options) applied to the class at path.
        A name already present is overwritten (a warning is only logged). */
    method Message(name: string, behavior: Option<int>, path: string, options: map<string, string>)
      returns (cls: MessageClass)
      modifies this
      ensures cls == MessageClass(path, name, Coerce(behavior), options)
      ensures name in entries && entries[name] == cls
      ensures forall other :: other != name ==> (other in entries <==> other in old(entries))
      ensures forall other :: other != name && other in old(entries) ==> entries[other] == old(entries)[other]
    {
      cls := MessageClass(path, name, Coerce(behavior), options);
      entries := entries[name := cls];
    }
  }
}
