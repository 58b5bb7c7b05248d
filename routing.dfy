/** Routing the parser's events to the messages waiting in a pipeline's queue: the server side
    (`server/ServerRequestPipeline.java`, and the older `server/RequestPipeline.java`, which keeps
    one request and response pair instead of queues) and the client side
    (`client/ClientResponsePipeline.java`).

    Every callback reaches the queue in one of a few ways: it looks at the head without removing
    it, removes the head (`poll` gives nothing for an empty queue, `take` waits until a message
    arrives, which here means forever), or leaves the queue alone. The functions below state which
    way each parser event uses; the classes are the callbacks themselves. */
module Routing {
  import opened Text
  import opened HttpText
  import opened StartLines
  import opened HttpParsing
  import opened Messages
  import opened Dispatch
  import opened WritablePipelines

  datatype Access = PeekHead | PollHead | TakeHead | Untouched

  /** The queue after one access, the message the event is delivered to (none when the queue is
      not looked at or is empty) and whether the callback waits forever. */
  datatype Reach<T> = Reach(queue: seq<T>, target: Option<T>, waits: bool)

  function Accessed<T>(q: seq<T>, a: Access): (r: Reach<T>)
    ensures r.target.Some? ==> q != [] && r.target.value == q[0]
    ensures r.waits <==> a == TakeHead && q == []
    ensures r.target.None? ==> r.queue == q
  {
    match a
    case Untouched => Reach(q, None, false)
    case PeekHead => if q == [] then Reach(q, None, false) else Reach(q, Some(q[0]), false)
    case PollHead => if q == [] then Reach(q, None, false) else Reach(q[1..], Some(q[0]), false)
    case TakeHead => if q == [] then Reach(q, None, true) else Reach(q[1..], Some(q[0]), false)
  }

  datatype Side = ServerSide | ClientSide

  /** How each parser event reaches the queue. On the server the request line adds a request
      (see `RouteStep`) and a header failure polls the response queue, not the request queue. On the
      client a failure or the trailers `take` the head. */
  function AccessOf(side: Side, e: Event): Access
  {
    match side
    case ServerSide =>
      (match e
       case HeadersParsed(_) => PeekHead
       case DataParsed(_) => PeekHead
       case DataFailed(_) => PollHead
       case TrailersParsed(_) => PollHead
       case TrailersFailed(_) => PollHead
       case _ => Untouched)
    case ClientSide =>
      (match e
       case ResponseLineParsed(_) => PeekHead
       case HeadersParsed(_) => PeekHead
       case DataParsed(_) => PeekHead
       case HeadersFailed(_) => TakeHead
       case DataFailed(_) => TakeHead
       case TrailersParsed(_) => TakeHead
       case TrailersFailed(_) => TakeHead
       case _ => Untouched)
  }

  /** One event; on the server a request line appends the request `created` for it. */
  function RouteStep<T>(side: Side, q: seq<T>, e: Event, created: T): Reach<T>
  {
    if side == ServerSide && e.RequestLineParsed? then Reach(q + [created], Some(created), false)
    else Accessed(q, AccessOf(side, e))
  }

  /** The targets of a run of events and the queue after them; nothing runs after a wait. */
  datatype Route<T> = Route(targets: seq<Option<T>>, queue: seq<T>, waits: bool)

  function RouteOf<T>(side: Side, q: seq<T>, es: seq<Event>, created: T): (r: Route<T>)
    decreases |es|
  {
    if es == [] then Route([], q, false)
    else
      var s := RouteStep(side, q, es[0], created);
      if s.waits then Route([None], q, true)
      else
        var rest := RouteOf(side, s.queue, es[1..], created);
        Route([s.target] + rest.targets, rest.queue, rest.waits)
  }

  function DataEvents(data: seq<seq<byte>>): (r: seq<Event>)
    ensures |r| == |data| && forall k :: 0 <= k < |data| ==> r[k] == DataParsed(data[k])
  {
    if data == [] then [] else [DataParsed(data[0])] + DataEvents(data[1..])
  }

  /** The events of one message as the parser delivers them: the start line, the headers, the
      body in pieces and the trailers (the parser looks for trailers after every body). */
  function MessageEvents(start: Event, h: Headers, data: seq<seq<byte>>, t: Headers): seq<Event>
  {
    [start, HeadersParsed(h)] + DataEvents(data) + [TrailersParsed(t)]
  }

  function Targets<T>(x: T, n: nat): (r: seq<Option<T>>)
    ensures |r| == n && forall k :: 0 <= k < n ==> r[k] == Some(x)
  {
    if n == 0 then [] else [Some(x)] + Targets(x, n - 1)
  }

  /** Data leaves the head in place and goes to it. */
  lemma {:induction false} DataGoesToHead<T>(side: Side, q: seq<T>, data: seq<seq<byte>>, created: T)
    requires q != []
    ensures RouteOf(side, q, DataEvents(data), created) == Route(Targets(q[0], |data|), q, false)
  {
    if data != [] {
      assert DataEvents(data)[1..] == DataEvents(data[1..]);
      DataGoesToHead(side, q, data[1..], created);
    }
  }

  /** Running `a` then `b` is running `a + b`. */
  lemma {:induction false} RouteAppend<T>(side: Side, q: seq<T>, a: seq<Event>, b: seq<Event>, created: T)
    requires !RouteOf(side, q, a, created).waits
    ensures var ra := RouteOf(side, q, a, created);
      var rb := RouteOf(side, ra.queue, b, created);
      RouteOf(side, q, a + b, created) == Route(ra.targets + rb.targets, rb.queue, rb.waits)
    decreases |a|
  {
    if a == [] {
      assert a + b == b;
    } else {
      assert (a + b)[0] == a[0] && (a + b)[1..] == a[1..] + b;
      var s := RouteStep(side, q, a[0], created);
      RouteAppend(side, s.queue, a[1..], b, created);
      var ra := RouteOf(side, s.queue, a[1..], created);
      var rb := RouteOf(side, ra.queue, b, created);
      assert [s.target] + (ra.targets + rb.targets) == [s.target] + ra.targets + rb.targets;
    }
  }

  lemma TargetsSnoc<T>(x: T, n: nat)
    ensures Targets(x, n) + [Some(x)] == Targets(x, n + 1)
  {
    assert forall k :: 0 <= k < n + 1 ==> (Targets(x, n) + [Some(x)])[k] == Some(x);
  }

  lemma MessageSplit(start: Event, h: Headers, data: seq<seq<byte>>, t: Headers)
    ensures MessageEvents(start, h, data, t) == [start] + ([HeadersParsed(h)] + DataEvents(data) + [TrailersParsed(t)])
  {
  }

  lemma TargetsCons<T>(x: T, n: nat)
    ensures [Some(x)] + Targets(x, n) == Targets(x, n + 1)
  {
  }

  /** One event at the head of a non-empty queue. */
  lemma OneEvent<T>(side: Side, q: seq<T>, e: Event, created: T)
    requires q != [] && AccessOf(side, e) in {PeekHead, PollHead, TakeHead} && !e.RequestLineParsed?
    ensures RouteOf(side, q, [e], created) ==
      Route([Some(q[0])], if AccessOf(side, e) == PeekHead then q else q[1..], false)
  {
    assert [e][1..] == [];
  }

  /** Once a message is at the head, its headers, data and trailers all go to it and the trailers
      remove it. */
  lemma BodyGoesToHead<T>(side: Side, q: seq<T>, h: Headers, data: seq<seq<byte>>, t: Headers, created: T)
    requires q != []
    ensures RouteOf(side, q, [HeadersParsed(h)] + DataEvents(data) + [TrailersParsed(t)], created) ==
      Route(Targets(q[0], |data| + 2), q[1..], false)
  {
    var hs: seq<Event> := [HeadersParsed(h)];
    var ts: seq<Event> := [TrailersParsed(t)];
    OneEvent(side, q, HeadersParsed(h), created);
    DataGoesToHead(side, q, data, created);
    RouteAppend(side, q, hs, DataEvents(data), created);
    OneEvent(side, q, TrailersParsed(t), created);
    RouteAppend(side, q, hs + DataEvents(data), ts, created);
    TargetsSnoc(q[0], |data| + 1);
  }

  /** On the server, a whole request arriving when no other request is waiting is delivered,
      every event of it, to the request its request line created, and leaves the queue empty. */
  lemma ServerMessageRoutes<T>(line: RequestLine, h: Headers, data: seq<seq<byte>>, t: Headers, created: T)
    ensures RouteOf(ServerSide, [], MessageEvents(RequestLineParsed(line), h, data, t), created) ==
      Route(Targets(created, |data| + 3), [], false)
  {
    var start: seq<Event> := [RequestLineParsed(line)];
    var body := [HeadersParsed(h)] + DataEvents(data) + [TrailersParsed(t)];
    MessageSplit(RequestLineParsed(line), h, data, t);
    assert start[1..] == [];
    assert RouteOf(ServerSide, [], start, created) == Route([Some(created)], [created], false);
    BodyGoesToHead(ServerSide, [created], h, data, t, created);
    RouteAppend(ServerSide, [], start, body, created);
  }

  /** On the client, a whole response is delivered, every event of it, to the response at the
      head of the queue, which it then removes. */
  lemma ClientMessageRoutes<T>(q: seq<T>, line: ResponseLine, h: Headers, data: seq<seq<byte>>, t: Headers, created: T)
    requires q != []
    ensures RouteOf(ClientSide, q, MessageEvents(ResponseLineParsed(line), h, data, t), created) ==
      Route(Targets(q[0], |data| + 3), q[1..], false)
  {
    var start: seq<Event> := [ResponseLineParsed(line)];
    var body := [HeadersParsed(h)] + DataEvents(data) + [TrailersParsed(t)];
    assert MessageEvents(ResponseLineParsed(line), h, data, t) == start + body by {
      MessageSplit(ResponseLineParsed(line), h, data, t);
    }
    var ra := RouteOf(ClientSide, q, start, created);
    assert ra == Route([Some(q[0])], q, false) by {
      OneEvent(ClientSide, q, ResponseLineParsed(line), created);
    }
    var rb := RouteOf(ClientSide, q, body, created);
    assert rb == Route(Targets(q[0], |data| + 2), q[1..], false) by {
      BodyGoesToHead(ClientSide, q, h, data, t, created);
    }
    assert RouteOf(ClientSide, q, start + body, created) == Route(ra.targets + rb.targets, rb.queue, rb.waits) by {
      RouteAppend(ClientSide, q, start, body, created);
    }
    TargetsCons(q[0], |data| + 2);
  }

  /** On the client, a response's trailers or any failure arriving with no response waiting make
      the callback wait forever; its headers and data are dropped instead. */
  lemma ClientWaitsOnEmptyQueue<T>(e: Event, created: T)
    ensures RouteStep(ClientSide, [], e, created).waits <==>
      e.HeadersFailed? || e.DataFailed? || e.TrailersParsed? || e.TrailersFailed?
    ensures RouteStep(ServerSide, [], e, created).waits == false
  {
  }

  /** A call made on a response, named by its position in the response pipeline; `None` is the
      `null` the response queue gives when it is empty. */
  datatype ResponseCall = ResponseCall(response: Option<MessageId>, action: Action)

  function CallsOn(response: Option<MessageId>, actions: seq<Action>): (r: seq<ResponseCall>)
    ensures |r| == |actions| && forall k :: 0 <= k < |actions| ==> r[k] == ResponseCall(response, actions[k])
  {
    if actions == [] then [] else [ResponseCall(response, actions[0])] + CallsOn(response, actions[1..])
  }

  /** `ServerRequestPipeline`: the queue of requests whose events are still arriving, the response
      pipeline the responses are pushed onto, and the calls made on responses. */
  class ServerRequestPipeline {
    const handlers: Registry
    const sink: WritablePipeline
    var requests: seq<ServerRequest>
    var nextResponse: MessageId
    var calls: seq<ResponseCall>

    constructor(reg: Registry, out: WritablePipeline, firstResponse: MessageId)
      ensures handlers == reg && sink == out && requests == [] && nextResponse == firstResponse && calls == []
    {
      handlers, sink := reg, out;
      requests, nextResponse, calls := [], firstResponse, [];
    }

    function HeadRequest(): set<ServerRequest>
      reads this
    {
      if requests == [] then {} else {requests[0]}
    }

    function HeadEvents(): set<ReadableMessage>
      reads this
    {
      if requests == [] then {} else {requests[0].events}
    }

    /** A request line: a new request joins the request queue and a new response the response
        pipeline. */
    method RequestLineCompleted(line: RequestLine) returns (request: ServerRequest)
      modifies this`requests, this`nextResponse, sink`queue
      ensures fresh(request) && request.requestLine == line && request.headers == []
      ensures requests == RouteStep(ServerSide, old(requests), RequestLineParsed(line), request).queue
      ensures sink.queue == old(sink.queue) + [old(nextResponse)] && nextResponse == old(nextResponse) + 1
    {
      request := new ServerRequest(line);
      var response := nextResponse;
      nextResponse := nextResponse + 1;
      requests := requests + [request];
      sink.Push(response);
    }

    /** A bad request line: a new response, never pushed, is given 400 and ended. */
    method RequestLineFailed()
      modifies this`nextResponse, this`calls
      ensures nextResponse == old(nextResponse) + 1
      ensures calls == old(calls) + CallsOn(Some(old(nextResponse)), [SetStatus(400, "Bad Request"), End])
    {
      var response := nextResponse;
      nextResponse := nextResponse + 1;
      calls := calls + CallsOn(Some(response), [SetStatus(400, "Bad Request"), End]);
    }

    /** The headers: the head request takes the map; a connection header equal to "close" makes
        the response pipeline close when done; the request is dispatched with the response at the
        head of the response pipeline. With no request waiting, `setHeaders` is called on `null`. */
    method HeadersCompleted(h: Headers) returns (target: Option<ServerRequest>, crashed: bool)
      modifies this`calls, HeadRequest(), sink`closeWhenDone
      ensures target == Accessed(requests, AccessOf(ServerSide, HeadersParsed(h))).target
      ensures crashed <==> requests == []
      ensures crashed ==> calls == old(calls) && sink.closeWhenDone == old(sink.closeWhenDone)
      ensures !crashed ==> requests[0].headers == h
      ensures !crashed ==> sink.closeWhenDone == (old(sink.closeWhenDone) || requests[0].GetHeader("connection") == Some("close"))
      ensures !crashed ==> (calls == old(calls) +
        CallsOn(Peek(sink.queue), DispatchOf(Pipelined, handlers, requests[0].requestLine.httpMethod, requests[0].requestLine.uri).calls))
    {
      if requests == [] {
        return None, true;
      }
      crashed := false;
      var request := requests[0];
      target := Some(request);
      request.SetHeaders(h);
      var response := Peek(sink.queue);
      if request.GetHeader("connection") == Some("close") {
        sink.CloseWhenDone();
      }
      var d := InvokeApp(Pipelined, handlers, request.requestLine.httpMethod, request.requestLine.uri);
      calls := calls + CallsOn(response, d.calls);
    }

    /** A header failure removes the head of the response pipeline, not of the request queue, and
        answers it with 500; with no response waiting, `setStatus` is called on `null`. */
    method HeadersFailed() returns (crashed: bool)
      modifies this`calls, sink`queue
      ensures crashed <==> old(sink.queue) == []
      ensures sink.queue == if crashed then [] else old(sink.queue)[1..]
      ensures calls == old(calls) + if crashed then [] else CallsOn(Some(old(sink.queue)[0]), [InternalError, End])
    {
      var response := sink.Poll();
      crashed := response.None?;
      if !crashed {
        calls := calls + CallsOn(response, [InternalError, End]);
      }
    }

    /** A piece of the body goes to the head request, which stays. */
    method DataCompleted(bytes: seq<byte>) returns (target: Option<ServerRequest>)
      modifies HeadEvents()
      ensures target == Accessed(requests, AccessOf(ServerSide, DataParsed(bytes))).target
      ensures target.Some? ==> (target.value.events.delivered == old(target.value.events.delivered) +
        if target.value.events.onData.Some? then [DataTo(target.value.events.onData.value, bytes)] else [])
    {
      target := None;
      if requests != [] {
        target := Some(requests[0]);
        requests[0].events.DataReceived(bytes);
      }
    }

    /** Removes the head request, if any. */
    method PollRequest() returns (target: Option<ServerRequest>)
      modifies this`requests
      ensures requests == Accessed(old(requests), PollHead).queue
      ensures target == Accessed(old(requests), PollHead).target
    {
      target := None;
      if requests != [] {
        target := Some(requests[0]);
        requests := requests[1..];
      }
    }

    /** A body failure removes the head request and reports the failure to it. */
    method DataFailed(reason: Reason) returns (target: Option<ServerRequest>)
      modifies this`requests
      ensures requests == Accessed(old(requests), AccessOf(ServerSide, Event.DataFailed(reason))).queue
      ensures target == Accessed(old(requests), AccessOf(ServerSide, Event.DataFailed(reason))).target
    {
      target := PollRequest();
      if target.Some? {
        target.value.events.FailureReceived();
      }
    }

    /** The trailers remove the head request and go to it. */
    method TrailersCompleted(t: Headers) returns (target: Option<ServerRequest>)
      modifies this`requests, HeadEvents()
      ensures requests == Accessed(old(requests), AccessOf(ServerSide, TrailersParsed(t))).queue
      ensures target == Accessed(old(requests), AccessOf(ServerSide, TrailersParsed(t))).target
      ensures target.Some? ==> (target.value.events.delivered ==
        old(target.value.events.delivered) + TrailersCalls(target.value.events.onTrailers, t))
    {
      target := PollRequest();
      if target.Some? {
        target.value.events.TrailersReceived(t);
      }
    }

    /** A trailer failure removes the head request and reports the failure to it. */
    method TrailersFailed(reason: Reason) returns (target: Option<ServerRequest>)
      modifies this`requests
      ensures requests == Accessed(old(requests), AccessOf(ServerSide, Event.TrailersFailed(reason))).queue
      ensures target == Accessed(old(requests), AccessOf(ServerSide, Event.TrailersFailed(reason))).target
    {
      target := PollRequest();
      if target.Some? {
        target.value.events.FailureReceived();
      }
    }
  }

  /** `RequestPipeline`: one request and response pair, replaced at every request line. Its
      response constructor joins the response pipeline itself. */
  class RequestPipeline {
    const handlers: Registry
    const sink: WritablePipeline
    var request: ServerRequest?
    var response: Option<MessageId>
    var nextResponse: MessageId
    var calls: seq<ResponseCall>

    constructor(reg: Registry, out: WritablePipeline, firstResponse: MessageId)
      ensures handlers == reg && sink == out && request == null && response == None
      ensures nextResponse == firstResponse && calls == []
    {
      handlers, sink := reg, out;
      request, response, nextResponse, calls := null, None, firstResponse, [];
    }

    function Request(): set<ServerRequest>
      reads this
    {
      if request == null then {} else {request}
    }

    /** A request line makes a new pair. */
    method RequestLineCompleted(line: RequestLine)
      modifies this`request, this`response, this`nextResponse, sink`queue
      ensures fresh(request) && request.requestLine == line && request.headers == []
      ensures response == Some(old(nextResponse)) && nextResponse == old(nextResponse) + 1
      ensures sink.queue == old(sink.queue) + [old(nextResponse)]
    {
      request := new ServerRequest(line);
      response := Some(nextResponse);
      sink.Push(nextResponse);
      nextResponse := nextResponse + 1;
    }

    /** A bad request line: a new response, outside the pair, is given 400 and ended. */
    method RequestLineFailed()
      modifies this`nextResponse, this`calls, sink`queue
      ensures nextResponse == old(nextResponse) + 1 && sink.queue == old(sink.queue) + [old(nextResponse)]
      ensures calls == old(calls) + CallsOn(Some(old(nextResponse)), [SetStatus(400, "Bad Request"), End])
    {
      var id := nextResponse;
      sink.Push(id);
      nextResponse := nextResponse + 1;
      calls := calls + CallsOn(Some(id), [SetStatus(400, "Bad Request"), End]);
    }

    /** The headers: the connection header is looked up BEFORE the request takes the new map, so
        it is the earlier map's; then the request takes the map and is dispatched. Without a pair,
        `getHeader` is called on `null`. */
    method HeadersCompleted(h: Headers) returns (crashed: bool)
      modifies this`calls, Request(), sink`closeWhenDone
      ensures crashed <==> request == null
      ensures crashed ==> calls == old(calls) && sink.closeWhenDone == old(sink.closeWhenDone)
      ensures !crashed ==> request.headers == h
      ensures !crashed ==> sink.closeWhenDone == (old(sink.closeWhenDone) || old(request.GetHeader("connection")) == Some("close"))
      ensures !crashed ==> (calls == old(calls) +
        CallsOn(response, DispatchOf(Pipelined, handlers, request.requestLine.httpMethod, request.requestLine.uri).calls))
    {
      if request == null {
        return true;
      }
      crashed := false;
      if request.GetHeader("connection") == Some("close") {
        sink.CloseWhenDone();
      }
      request.SetHeaders(h);
      var d := InvokeApp(Pipelined, handlers, request.requestLine.httpMethod, request.requestLine.uri);
      calls := calls + CallsOn(response, d.calls);
    }

    /** A header failure answers the pair's response with 500; without a pair, `setStatus` is
        called on `null`. */
    method HeadersFailed() returns (crashed: bool)
      modifies this`calls
      ensures crashed <==> response.None?
      ensures calls == old(calls) + if crashed then [] else CallsOn(response, [InternalError, End])
    {
      crashed := response.None?;
      if !crashed {
        calls := calls + CallsOn(response, [InternalError, End]);
      }
    }
  }

  /** A fresh request has no headers, so in `RequestPipeline` the connection check made before the
      first header map is stored never asks the pipeline to close. */
  lemma FreshRequestHasNoConnection(r: ServerRequest)
    requires r.headers == []
    ensures r.GetHeader("connection").None?
  {
  }

  /** A response the client waits for: the request it answers (by number), its response line once
      known, whether that request has been told about it, and the handlers of its parts. */
  class ClientResponse {
    const request: nat
    var responseLine: Option<ResponseLine>
    var announced: bool
    const events: ReadableMessage

    constructor(req: nat)
      ensures request == req && responseLine == None && !announced && fresh(events)
      ensures events.onHeaders == [] && events.onData == None && events.onTrailers == [] && events.delivered == []
    {
      request := req;
      responseLine := None;
      announced := false;
      events := new ReadableMessage();
    }
  }

  /** `ClientResponsePipeline`: the responses expected, oldest first. */
  class ClientResponsePipeline {
    var responses: seq<ClientResponse>

    constructor()
      ensures responses == []
    {
      responses := [];
    }

    function Head(): set<ClientResponse>
      reads this
    {
      if responses == [] then {} else {responses[0]}
    }

    function HeadEvents(): set<ReadableMessage>
      reads this
    {
      if responses == [] then {} else {responses[0].events}
    }

    /** A request sent: its response is expected after the earlier ones. */
    method Push(r: ClientResponse)
      modifies this
      ensures responses == old(responses) + [r]
    {
      responses := responses + [r];
    }

    /** A response line goes to the head response, which stays, and its request is told; with no
        response waiting, `setResponseLine` is called on `null`. */
    method ResponseLineCompleted(line: ResponseLine) returns (target: Option<ClientResponse>, crashed: bool)
      modifies Head()
      ensures target == Accessed(responses, AccessOf(ClientSide, ResponseLineParsed(line))).target
      ensures crashed <==> responses == []
      ensures !crashed ==> responses[0].responseLine == Some(line) && responses[0].announced
    {
      if responses == [] {
        return None, true;
      }
      crashed := false;
      target := Some(responses[0]);
      responses[0].responseLine := Some(line);
      responses[0].announced := true;
    }

    /** Headers go to the head response, which stays. */
    method HeadersCompleted(h: Headers) returns (target: Option<ClientResponse>)
      modifies HeadEvents()
      ensures target == Accessed(responses, AccessOf(ClientSide, HeadersParsed(h))).target
      ensures target.Some? ==> (target.value.events.delivered ==
        old(target.value.events.delivered) + HeadersCalls(target.value.events.onHeaders, h))
    {
      target := None;
      if responses != [] {
        target := Some(responses[0]);
        responses[0].events.HeadersReceived(h);
      }
    }

    /** A piece of the body goes to the head response, which stays. */
    method DataCompleted(bytes: seq<byte>) returns (target: Option<ClientResponse>)
      modifies HeadEvents()
      ensures target == Accessed(responses, AccessOf(ClientSide, DataParsed(bytes))).target
      ensures target.Some? ==> (target.value.events.delivered == old(target.value.events.delivered) +
        if target.value.events.onData.Some? then [DataTo(target.value.events.onData.value, bytes)] else [])
    {
      target := None;
      if responses != [] {
        target := Some(responses[0]);
        responses[0].events.DataReceived(bytes);
      }
    }

    /** `take`: removes the head; on an empty queue it waits, for ever. */
    method TakeResponse() returns (target: Option<ClientResponse>, waits: bool)
      modifies this
      ensures responses == Accessed(old(responses), TakeHead).queue
      ensures target == Accessed(old(responses), TakeHead).target
      ensures waits == Accessed(old(responses), TakeHead).waits
    {
      if responses == [] {
        return None, true;
      }
      target, waits := Some(responses[0]), false;
      responses := responses[1..];
    }

    /** A header, body or trailer failure takes the head and reports the failure to it. */
    method Failed(e: Event) returns (target: Option<ClientResponse>, waits: bool)
      requires e.HeadersFailed? || e.DataFailed? || e.TrailersFailed?
      modifies this
      ensures responses == Accessed(old(responses), AccessOf(ClientSide, e)).queue
      ensures target == Accessed(old(responses), AccessOf(ClientSide, e)).target
      ensures waits == Accessed(old(responses), AccessOf(ClientSide, e)).waits
    {
      target, waits := TakeResponse();
      if target.Some? {
        target.value.events.FailureReceived();
      }
    }

    /** The trailers take the head and go to it. */
    method TrailersCompleted(t: Headers) returns (target: Option<ClientResponse>, waits: bool)
      modifies this, HeadEvents()
      ensures responses == Accessed(old(responses), AccessOf(ClientSide, TrailersParsed(t))).queue
      ensures target == Accessed(old(responses), AccessOf(ClientSide, TrailersParsed(t))).target
      ensures waits == Accessed(old(responses), AccessOf(ClientSide, TrailersParsed(t))).waits
      ensures target.Some? ==> (target.value.events.delivered ==
        old(target.value.events.delivered) + TrailersCalls(target.value.events.onTrailers, t))
    {
      target, waits := TakeResponse();
      if target.Some? {
        target.value.events.TrailersReceived(t);
      }
    }
  }
}
