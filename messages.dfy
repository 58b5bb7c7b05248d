/** The readable side of a message (`common/ReadableMessage.java`) and the server's request
    (`server/ServerRequest.java`). Handlers are identified by number; what a handler is told is
    recorded, in order, in `delivered`. */
module Messages {
  import opened Text
  import opened HttpText
  import opened StartLines

  type HandlerId = nat

  /** One `completed` call on a registered handler. */
  datatype Delivery =
    | HeadersTo(handler: HandlerId, headers: Headers)
    | DataTo(handler: HandlerId, data: seq<byte>)
    | TrailersTo(handler: HandlerId, trailers: Headers)

  /** The calls that tell each of `hs`, in order, about the header map `h`. */
  function HeadersCalls(hs: seq<HandlerId>, h: Headers): (r: seq<Delivery>)
    ensures |r| == |hs| && forall k :: 0 <= k < |hs| ==> r[k] == HeadersTo(hs[k], h)
  {
    if hs == [] then [] else [HeadersTo(hs[0], h)] + HeadersCalls(hs[1..], h)
  }

  /** The calls that tell each of `hs`, in order, about the trailer map `t`. */
  function TrailersCalls(hs: seq<HandlerId>, t: Headers): (r: seq<Delivery>)
    ensures |r| == |hs| && forall k :: 0 <= k < |hs| ==> r[k] == TrailersTo(hs[k], t)
  {
    if hs == [] then [] else [TrailersTo(hs[0], t)] + TrailersCalls(hs[1..], t)
  }

  class ReadableMessage {
    var onHeaders: seq<HandlerId>
    var onData: Option<HandlerId>
    var onTrailers: seq<HandlerId>
    var delivered: seq<Delivery>

    constructor()
      ensures onHeaders == [] && onData == None && onTrailers == [] && delivered == []
    {
      onHeaders, onData, onTrailers, delivered := [], None, [], [];
    }

    /** Headers handlers accumulate, in registration order. */
    method OnHeaders(h: HandlerId)
      modifies this`onHeaders
      ensures onHeaders == old(onHeaders) + [h]
    {
      onHeaders := onHeaders + [h];
    }

    /** There is one data handler: a new one replaces the earlier one. */
    method OnData(h: HandlerId)
      modifies this`onData
      ensures onData == Some(h)
    {
      onData := Some(h);
    }

    /** Trailer handlers accumulate, in registration order. */
    method OnTrailers(h: HandlerId)
      modifies this`onTrailers
      ensures onTrailers == old(onTrailers) + [h]
    {
      onTrailers := onTrailers + [h];
    }

    /** Every headers handler is told about `h`, in registration order. */
    method HeadersReceived(h: Headers)
      modifies this`delivered
      ensures delivered == old(delivered) + HeadersCalls(onHeaders, h)
    {
      var i := 0;
      while i < |onHeaders|
        invariant i <= |onHeaders|
        invariant delivered == old(delivered) + HeadersCalls(onHeaders[..i], h)
      {
        HeadersCallsSnoc(onHeaders[..i], onHeaders[i], h);
        assert onHeaders[..i + 1] == onHeaders[..i] + [onHeaders[i]];
        delivered := delivered + [HeadersTo(onHeaders[i], h)];
        i := i + 1;
      }
      assert onHeaders[..i] == onHeaders;
    }

    /** The data handler, if one is registered, is told about `data`; without one nothing happens. */
    method DataReceived(data: seq<byte>)
      modifies this`delivered
      ensures delivered == old(delivered) + if onData.Some? then [DataTo(onData.value, data)] else []
    {
      if onData.Some? {
        delivered := delivered + [DataTo(onData.value, data)];
      }
    }

    /** Every trailers handler is told about `t`, in registration order. */
    method TrailersReceived(t: Headers)
      modifies this`delivered
      ensures delivered == old(delivered) + TrailersCalls(onTrailers, t)
    {
      var i := 0;
      while i < |onTrailers|
        invariant i <= |onTrailers|
        invariant delivered == old(delivered) + TrailersCalls(onTrailers[..i], t)
      {
        TrailersCallsSnoc(onTrailers[..i], onTrailers[i], t);
        assert onTrailers[..i + 1] == onTrailers[..i] + [onTrailers[i]];
        delivered := delivered + [TrailersTo(onTrailers[i], t)];
        i := i + 1;
      }
      assert onTrailers[..i] == onTrailers;
    }

    /** A failure is not passed on to any handler. */
    method FailureReceived()
    {
    }
  }

  lemma HeadersCallsSnoc(hs: seq<HandlerId>, x: HandlerId, h: Headers)
    ensures HeadersCalls(hs + [x], h) == HeadersCalls(hs, h) + [HeadersTo(x, h)]
  {
    assert forall k :: 0 <= k < |hs| + 1 ==> HeadersCalls(hs + [x], h)[k] == (HeadersCalls(hs, h) + [HeadersTo(x, h)])[k];
  }

  lemma TrailersCallsSnoc(hs: seq<HandlerId>, x: HandlerId, t: Headers)
    ensures TrailersCalls(hs + [x], t) == TrailersCalls(hs, t) + [TrailersTo(x, t)]
  {
    assert forall k :: 0 <= k < |hs| + 1 ==> TrailersCalls(hs + [x], t)[k] == (TrailersCalls(hs, t) + [TrailersTo(x, t)])[k];
  }

  /** The request of the server: its request line, its header map (empty until the parser's
      headers arrive) and the handlers registered on it. */
  class ServerRequest {
    const requestLine: RequestLine
    const events: ReadableMessage
    var headers: Headers

    constructor(line: RequestLine)
      ensures requestLine == line && headers == [] && fresh(events)
      ensures events.onHeaders == [] && events.onData == None && events.onTrailers == [] && events.delivered == []
    {
      requestLine := line;
      headers := [];
      events := new ReadableMessage();
    }

    /** The parser's header map replaces the whole map. */
    method SetHeaders(h: Headers)
      modifies this`headers
      ensures headers == h
    {
      headers := h;
    }

    /** `getHeader`: the first value stored under exactly `name`, or none when the name is absent
        or has no values. */
    function GetHeader(name: string): (r: Option<string>)
      reads this
      ensures r.Some? <==> name in Keys(headers) && ValuesOf(headers, name) != []
      ensures r.Some? ==> r.value == ValuesOf(headers, name)[0]
    {
      match Lookup(headers, name)
      case Some(vs) => if |vs| > 0 then Some(vs[0]) else None
      case None => None
    }
  }
}
