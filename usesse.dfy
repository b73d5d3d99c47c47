/**
 * `useSSE`: one server-sent event stream per mounted component.  The hook
 * tracks whether the stream is connected, turns each event's data into a
 * JSON value and hands every value but the server's greeting to the most
 * recently rendered handler.
 */
module UseSse {
  import opened Wrappers
  import opened WebApi

  /** The `type` of the server's greeting. */
  const ConnectedType := "connected"

  /** What `onmessage` does with one event. */
  datatype Delivery = Ignore | Connect | Forward(data: Json)

  /**
   * The decision for an event whose data parsed to `parsed` (`None` when
   * `JSON.parse` threw): unparseable data is dropped, the greeting marks the
   * stream connected, anything else, `null` included, is forwarded as is.
   */
  function Classify(parsed: Option<Json>): (d: Delivery)
    ensures d.Ignore? <==> parsed.None?
    ensures d.Connect? <==> parsed.Some? && Prop(parsed.value, "type") == JStr(ConnectedType)
    ensures d.Forward? <==> parsed.Some? && Prop(parsed.value, "type") != JStr(ConnectedType)
    ensures d.Forward? ==> d.data == parsed.value
  {
    match parsed
    case None => Ignore
    case Some(data) => if Prop(data, "type") == JStr(ConnectedType) then Connect else Forward(data)
  }

  /** The identity of the callback one render passes to the hook. */
  type Handler = nat

  /** One mounted hook: the connected flag, `onMessageRef.current`, the streams opened and closed, and every delivery made. */
  class Hook {
    var connected: bool
    var current: Handler
    var streamsOpened: nat
    var streamsClosed: nat
    var delivered: seq<(Handler, Json)>

    /** Exactly one stream is opened per mount, and it is closed at most once. */
    predicate Valid()
      reads this
    {
      streamsOpened == 1 && streamsClosed <= 1
    }

    /** The stream is still open, so its events still arrive. */
    predicate Open()
      reads this
    {
      streamsClosed == 0
    }

    /** The first render: `connected` starts false and the mount effect opens the stream. */
    constructor (h: Handler)
      ensures Valid() && Open()
      ensures !connected && current == h && delivered == []
    {
      connected := false;
      current := h;
      streamsOpened := 1;
      streamsClosed := 0;
      delivered := [];
    }

    /** A later render: the ref takes the new handler and, the effect having no dependencies, no stream is opened. */
    method Render(h: Handler)
      requires Valid()
      modifies this
      ensures Valid()
      ensures current == h
      ensures connected == old(connected) && streamsOpened == old(streamsOpened) && streamsClosed == old(streamsClosed) && delivered == old(delivered)
    {
      current := h;
    }

    /** `onopen`. */
    method OnOpen()
      requires Valid() && Open()
      modifies this
      ensures Valid() && Open() && connected
      ensures current == old(current) && delivered == old(delivered) && streamsOpened == old(streamsOpened) && streamsClosed == old(streamsClosed)
    {
      connected := true;
    }

    /** `onerror`. */
    method OnError()
      requires Valid() && Open()
      modifies this
      ensures Valid() && Open() && !connected
      ensures current == old(current) && delivered == old(delivered) && streamsOpened == old(streamsOpened) && streamsClosed == old(streamsClosed)
    {
      connected := false;
    }

    /** `onmessage`: by `Classify`, nothing, the connected flag, or one delivery to the current handler. */
    method OnMessage(parsed: Option<Json>)
      requires Valid() && Open()
      modifies this
      ensures Valid() && Open()
      ensures current == old(current) && streamsOpened == old(streamsOpened) && streamsClosed == old(streamsClosed)
      ensures Classify(parsed).Ignore? ==> connected == old(connected) && delivered == old(delivered)
      ensures Classify(parsed).Connect? ==> connected && delivered == old(delivered)
      ensures Classify(parsed).Forward? ==>
        connected == old(connected) && delivered == old(delivered) + [(old(current), parsed.value)]
    {
      match Classify(parsed)
      case Ignore =>
      case Connect =>
        connected := true;
      case Forward(data) =>
        delivered := delivered + [(current, data)];
    }

    /** The effect's cleanup: the stream is closed and `connected` goes false. */
    method Unmount()
      requires Valid() && Open()
      modifies this
      ensures Valid() && !Open() && streamsClosed == 1 && !connected
      ensures current == old(current) && delivered == old(delivered) && streamsOpened == old(streamsOpened)
    {
      streamsClosed := streamsClosed + 1;
      connected := false;
    }
  }

  /**
   * Across renders, a message is delivered to the handler of the latest
   * render: the handler a render passes is the one the next forward uses.
   */
  method RenderThenForward(hook: Hook, h: Handler, data: Json) returns (to: Handler)
    requires hook.Valid() && hook.Open()
    requires Prop(data, "type") != JStr(ConnectedType)
    modifies hook
    ensures hook.Valid() && hook.Open()
    ensures to == h && hook.delivered == old(hook.delivered) + [(h, data)]
  {
    hook.Render(h);
    hook.OnMessage(Some(data));
    to := hook.delivered[|hook.delivered| - 1].0;
  }
}
