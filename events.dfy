/**
 * The event registry: for each event type, the list of handlers registered
 * under it, in registration order. Handlers are abstract ids; emitting an
 * event returns the sequence of handler invocations it makes.
 */
module Events {

  type HandlerId = nat

  // The event types the registry class declares.
  const SELF_ELECTED_AS_LEADER := "SELF_ELECTED_AS_LEADER"
  const NO_VALID_LEADER := "NO_VALID_LEADER"
  const NEW_VALID_LEADER_ASSIGNED := "NEW_VALID_LEADER_ASSIGNED"

  /** The handlers registered under `eventType`, or none when it has no entry. */
  function HandlersOf(registered: map<string, seq<HandlerId>>, eventType: string): seq<HandlerId>
  {
    if eventType in registered then registered[eventType] else []
  }

  /** The table after registering `handler` under `eventType`. */
  function Registered(registered: map<string, seq<HandlerId>>, eventType: string, handler: HandlerId): (r: map<string, seq<HandlerId>>)
    ensures r.Keys == registered.Keys + {eventType}
    ensures HandlersOf(r, eventType) == HandlersOf(registered, eventType) + [handler]
    ensures forall t :: t != eventType ==> HandlersOf(r, t) == HandlersOf(registered, t)
  {
    registered[eventType := HandlersOf(registered, eventType) + [handler]]
  }

  /** Registering a run of handlers under one type lists them after the earlier ones, in order. */
  lemma {:induction false} RegisterAllInOrder(registered: map<string, seq<HandlerId>>, eventType: string, handlers: seq<HandlerId>)
    ensures HandlersOf(RegisterAll(registered, eventType, handlers), eventType) == HandlersOf(registered, eventType) + handlers
    ensures forall t :: t != eventType ==> HandlersOf(RegisterAll(registered, eventType, handlers), t) == HandlersOf(registered, t)
    decreases |handlers|
  {
    if handlers != [] {
      var r := Registered(registered, eventType, handlers[0]);
      RegisterAllInOrder(r, eventType, handlers[1..]);
      assert HandlersOf(registered, eventType) + handlers == HandlersOf(r, eventType) + handlers[1..];
    }
  }

  function RegisterAll(registered: map<string, seq<HandlerId>>, eventType: string, handlers: seq<HandlerId>): map<string, seq<HandlerId>>
    decreases |handlers|
  {
    if handlers == [] then registered
    else RegisterAll(Registered(registered, eventType, handlers[0]), eventType, handlers[1..])
  }

  class EventRegistry {
    var registered: map<string, seq<HandlerId>>

    constructor ()
      ensures registered == map[]
    {
      registered := map[];
    }

    /**
     * `register_event`: appends the handler to the type's list, creating the
     * list if missing. An unknown type is not refused (the exception object
     * is built but never raised), hence no precondition.
     */
    method RegisterEvent(eventType: string, handler: HandlerId)
      modifies this
      ensures registered == Registered(old(registered), eventType, handler)
    {
      if eventType !in registered {
        registered := registered[eventType := []];
      }
      registered := registered[eventType := registered[eventType] + [handler]];
    }

    /** `emit_event`: invokes the type's handlers once each, in registration order. */
    method EmitEvent(eventType: string) returns (invoked: seq<HandlerId>)
      ensures invoked == HandlersOf(registered, eventType)
      ensures eventType !in registered ==> invoked == []
    {
      invoked := [];
      if eventType in registered {
        var handlers := registered[eventType];
        var i := 0;
        while i < |handlers|
          invariant 0 <= i <= |handlers|
          invariant invoked == handlers[..i]
        {
          invoked := invoked + [handlers[i]];
          i := i + 1;
        }
        assert handlers[..i] == handlers;
      }
    }
  }
}
