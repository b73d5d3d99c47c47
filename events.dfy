/**
 * The event hub's payloads: JSON objects with string, integer, float and
 * null values, as published by the scheduler, the manager and the HTTP handlers
 * and read back by the manager.  A payload sent through the hub is encoded
 * as JSON and decoded into `map[string]any`, where every number becomes a
 * float64.  Subscriber channels and their buffering are not modelled: the hub
 * records what was published, in order.
 */
module Events {
  import opened Wrappers

  datatype Value = Str(s: string) | Int(i: int) | Float(x: real) | Null

  /** A Go `*string` field: `nil` is JSON `null`. */
  function OptStr(o: Option<string>): (v: Value)
    ensures o.None? <==> v == Null
    ensures o.Some? ==> v == Str(o.value)
  {
    if o.Some? then Str(o.value) else Null
  }

  type Payload = map<string, Value>

  const TaskUpdateType := "task_update"
  const MessageType := "message"

  /** A payload after a JSON round trip: integers arrive as floats, everything else as sent. */
  function Decoded(p: Payload): (d: Payload)
    ensures d.Keys == p.Keys
    ensures forall k :: k in p && p[k].Int? ==> d[k] == Float(p[k].i as real)
    ensures forall k :: k in p && !p[k].Int? ==> d[k] == p[k]
  {
    map k | k in p :: if p[k].Int? then Float(p[k].i as real) else p[k]
  }

  /** Go's `int64(v)` of a float64: truncation toward zero. */
  function Truncate(x: real): int {
    if x >= 0.0 then x.Floor else -((-x).Floor)
  }

  /** Truncating the float of an integer gives the integer back. */
  lemma TruncateOfInt(i: int)
    ensures Truncate(i as real) == i
  {
    if i < 0 {
      assert -(i as real) == (-i) as real;
    }
  }

  /** The hub: everything published, oldest first. */
  class Hub {
    var published: seq<Payload>

    constructor()
      ensures published == []
    {
      published := [];
    }

    /** `PublishJSON`. */
    method Publish(p: Payload)
      modifies this
      ensures published == old(published) + [p]
    {
      published := published + [p];
    }
  }
}
