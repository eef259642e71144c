/** `EventRouter`: handlers per event type, called in registration order, stopping at the first raise. */
module EventRouter {
  import opened Prelude

  type EventType = string
  type HandlerId = nat
  type Registry = map<EventType, seq<HandlerId>>

  function HandlersFor(r: Registry, e: EventType): seq<HandlerId> {
    if e in r then r[e] else []
  }

  class Router {
    var handlers: Registry

    constructor ()
      ensures handlers == map[]
    {
      handlers := map[];
    }

    method On(e: EventType, handler: HandlerId)
      modifies this
      ensures HandlersFor(handlers, e) == HandlersFor(old(handlers), e) + [handler]
      ensures forall x :: x != e ==> HandlersFor(handlers, x) == HandlersFor(old(handlers), x)
    {
      handlers := handlers[e := HandlersFor(handlers, e) + [handler]];
    }

    /** `raises(h)` tells whether handler `h` raises on this event; `returned` are the calls that completed. */
    method Dispatch(e: EventType, raises: HandlerId -> bool) returns (returned: seq<HandlerId>, ok: bool)
      ensures ok <==> forall i :: 0 <= i < |HandlersFor(handlers, e)| ==> !raises(HandlersFor(handlers, e)[i])
      ensures ok ==> returned == HandlersFor(handlers, e)
      ensures !ok ==> |returned| < |HandlersFor(handlers, e)| && raises(HandlersFor(handlers, e)[|returned|])
      ensures !ok ==> returned == HandlersFor(handlers, e)[..|returned|]
      ensures forall i :: 0 <= i < |returned| ==> !raises(returned[i])
    {
      var hs := HandlersFor(handlers, e);
      returned := [];
      if hs == [] {
        return returned, true;
      }
      for i := 0 to |hs|
        invariant returned == hs[..i]
        invariant forall j :: 0 <= j < i ==> !raises(hs[j])
      {
        if raises(hs[i]) {
          return returned, false;
        }
        returned := returned + [hs[i]];
      }
      return returned, true;
    }
  }
}
