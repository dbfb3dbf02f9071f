/**
 * The closures a container invokes. Their bodies are user code and stay
 * opaque: `body(id, n)` is what closure `id` returns on the invocation that
 * follows `n` earlier ones, so a closure may return a new value every time.
 */
module Closures {
  import opened Values

  type Body = (ObjId, nat) -> Value

  /** How many times closure `id` has been invoked. */
  function Count(calls: map<ObjId, nat>, id: ObjId): nat {
    if id in calls then calls[id] else 0
  }

  /** One invocation of closure `id`: its result and the new call counts. */
  function Call(body: Body, calls: map<ObjId, nat>, id: ObjId): (res: (Value, map<ObjId, nat>))
    ensures res.0 == body(id, Count(calls, id))
    ensures Count(res.1, id) == Count(calls, id) + 1
    ensures forall other :: other != id ==> Count(res.1, other) == Count(calls, other)
  {
    (body(id, Count(calls, id)), calls[id := Count(calls, id) + 1])
  }

  /** The closures' side of the program: their behaviour and how often each has run. */
  class Runtime {
    const body: Body
    var calls: map<ObjId, nat>

    constructor (body: Body)
      ensures this.body == body && calls == map[]
    {
      this.body := body;
      calls := map[];
    }

    /** `$closure($container)`. */
    method Invoke(id: ObjId) returns (v: Value)
      modifies this
      ensures (v, calls) == Call(body, old(calls), id)
    {
      var n := Count(calls, id);
      v := body(id, n);
      calls := calls[id := n + 1];
    }
  }
}
