/** Dispatching a request to an application handler (`invokeApp` in
    `server/ServerRequestPipeline.java`, `server/RequestPipeline.java`, `aio/Server.java` and
    `core/RequestHandler.java`).

    Reflection is described as data: a handler object is the list of its public methods, each with
    its name, the annotations it carries and what `Method.invoke` does with it. The response is
    not touched here; a dispatch is the list of calls made on it, in order. */
module Dispatch {
  import opened Text

  /** What `Method.invoke` does with a handler method. */
  datatype Invocation =
    | Returns           // the method runs to its end
    | ThrowsInside      // the method throws: `InvocationTargetException`
    | Inaccessible      // `IllegalAccessException`
    | RejectsArguments  // any other throwable, e.g. `IllegalArgumentException` for a wrong signature

  datatype HandlerMethod = HandlerMethod(name: string, annotations: set<string>, invocation: Invocation)

  /** A handler object, seen through `getClass().getMethods()`, in that order. */
  datatype Handler = Handler(methods: seq<HandlerMethod>)

  /** The handler map, keyed by URI; `None` is the `null` key, the default handler. */
  type Registry = map<Option<string>, Handler>

  /** The HTTP-method annotations of `javax.ws.rs`, by simple class name. */
  const Annotations: set<string> := {"GET", "POST", "PUT", "DELETE", "HEAD", "OPTIONS"}

  /** `Class.forName("javax.ws.rs." + methodName.toUpperCase())`: the annotation, or none when
      the class is not found. */
  function AnnotationFor(methodName: string): Option<string>
  {
    var upper := ToUpper(methodName);
    if upper in Annotations then Some(upper) else None
  }

  /** The handler registered under the exact URI, else the one under `null`. */
  function FindHandler(reg: Registry, uri: string): Option<Handler>
  {
    if Some(uri) in reg then Some(reg[Some(uri)])
    else if None in reg then Some(reg[None])
    else None
  }

  /** The position of the first method carrying annotation `a`. */
  function FirstAnnotated(ms: seq<HandlerMethod>, a: string): (r: Option<nat>)
    ensures r.Some? ==> r.value < |ms| && a in ms[r.value].annotations
    ensures r.Some? ==> forall j :: 0 <= j < r.value ==> a !in ms[j].annotations
    ensures r.None? ==> forall j :: 0 <= j < |ms| ==> a !in ms[j].annotations
  {
    if ms == [] then None
    else if a in ms[0].annotations then Some(0)
    else match FirstAnnotated(ms[1..], a)
      case Some(i) => Some(i + 1)
      case None => None
  }

  /** The position of the last method named "service". */
  function LastService(ms: seq<HandlerMethod>): (r: Option<nat>)
    ensures r.Some? ==> r.value < |ms| && ms[r.value].name == "service"
    ensures r.Some? ==> forall j :: r.value < j < |ms| ==> ms[j].name != "service"
    ensures r.None? ==> forall j :: 0 <= j < |ms| ==> ms[j].name != "service"
  {
    if ms == [] then None
    else if ms[|ms| - 1].name == "service" then Some(|ms| - 1)
    else LastService(ms[..|ms| - 1])
  }

  /** The method dispatch picks: the first one annotated with `a`, else the last "service". */
  function Selected(ms: seq<HandlerMethod>, a: string): Option<HandlerMethod>
  {
    match FirstAnnotated(ms, a)
    case Some(i) => Some(ms[i])
    case None =>
      match LastService(ms)
      case Some(i) => Some(ms[i])
      case None => None
  }

  /** The method search: the loop stops at the first annotated method and, until then, keeps the
      latest "service" method as the fallback. */
  method SelectMethod(ms: seq<HandlerMethod>, a: string) returns (chosen: Option<HandlerMethod>)
    ensures chosen == Selected(ms, a)
  {
    var hMethod: Option<HandlerMethod> := None;
    var fallback: Option<HandlerMethod> := None;
    ghost var at: nat := 0;
    var i := 0;
    while i < |ms|
      invariant i <= |ms|
      invariant hMethod.None? && forall j :: 0 <= j < i ==> a !in ms[j].annotations
      invariant fallback.None? ==> forall j :: 0 <= j < i ==> ms[j].name != "service"
      invariant fallback.Some? ==> at < i && fallback.value == ms[at] && ms[at].name == "service"
      invariant fallback.Some? ==> forall j :: at < j < i ==> ms[j].name != "service"
    {
      if a in ms[i].annotations {
        hMethod := Some(ms[i]);
        break;
      } else if ms[i].name == "service" {
        fallback := Some(ms[i]);
        at := i;
      }
      i := i + 1;
    }
    if hMethod.None? && fallback.Some? {
      assert LastService(ms) == Some(at);
      hMethod := fallback;
    }
    chosen := hMethod;
  }

  /** The two behaviours of `invokeApp`. `Pipelined` is the one of the request pipelines: an
      unknown method name ends the response with 500, and every throwable from the invocation is
      caught. `Direct` is the one of the aio server and the Netty handler: an unknown method name
      sets 500 and the dispatch goes on with the GET annotation, and only the access and
      invocation exceptions are caught. */
  datatype Style = Pipelined | Direct

  /** A call made on the response. `End` is `end()`, or `close()` for the Netty response; `Invoke`
      hands the request and the response to the handler method. */
  datatype Action = SetStatus(code: int, reason: string) | End | Invoke(target: HandlerMethod)

  /** The calls made on the response, and whether an exception leaves `invokeApp`. */
  datatype Dispatched = Dispatched(calls: seq<Action>, escapes: bool)

  const InternalError: Action := SetStatus(500, "Internal Server Error")
  const NotFound: Action := SetStatus(404, "Not Found")
  const MethodNotAllowed: Action := SetStatus(405, "Method Not Allowed")

  function InvokeOf(style: Style, m: HandlerMethod): Dispatched
  {
    match m.invocation
    case Returns => Dispatched([Invoke(m)], false)
    case ThrowsInside => Dispatched([Invoke(m), InternalError, End], false)
    case Inaccessible => Dispatched([Invoke(m), InternalError, End], false)
    case RejectsArguments =>
      if style == Pipelined then Dispatched([Invoke(m), InternalError, End], false)
      else Dispatched([Invoke(m)], true)
  }

  /** Dispatch once the annotation `a` is known. */
  function LookupOf(style: Style, reg: Registry, a: string, uri: string): Dispatched
  {
    match FindHandler(reg, uri)
    case None => Dispatched([NotFound], false)
    case Some(h) =>
      match Selected(h.methods, a)
      case None => Dispatched([MethodNotAllowed, End], false)
      case Some(m) => InvokeOf(style, m)
  }

  /** `invokeApp` for a request with method `methodName` and URI `uri`. */
  function DispatchOf(style: Style, reg: Registry, methodName: string, uri: string): Dispatched
  {
    match AnnotationFor(methodName)
    case Some(a) => LookupOf(style, reg, a, uri)
    case None =>
      if style == Pipelined then Dispatched([InternalError, End], false)
      else
        var d := LookupOf(style, reg, "GET", uri);
        Dispatched([InternalError] + d.calls, d.escapes)
  }

  /** The annotation dispatch searches for. */
  function AnnotationUsed(methodName: string): string
  {
    match AnnotationFor(methodName)
    case Some(a) => a
    case None => "GET"
  }

  method InvokeApp(style: Style, reg: Registry, methodName: string, uri: string) returns (d: Dispatched)
    ensures d == DispatchOf(style, reg, methodName, uri)
  {
    var calls: seq<Action> := [];
    var annotation := "GET";
    var known := AnnotationFor(methodName);
    if known.None? {
      calls := [InternalError];
      if style == Pipelined {
        return Dispatched(calls + [End], false);
      }
    } else {
      annotation := known.value;
    }
    var handler := FindHandler(reg, uri);
    if handler.None? {
      return Dispatched(calls + [NotFound], false);
    }
    var hMethod := SelectMethod(handler.value.methods, annotation);
    if hMethod.Some? {
      var m := hMethod.value;
      calls := calls + [Invoke(m)];
      match m.invocation
      case Returns =>
        d := Dispatched(calls, false);
      case ThrowsInside =>
        d := Dispatched(calls + [InternalError, End], false);
      case Inaccessible =>
        d := Dispatched(calls + [InternalError, End], false);
      case RejectsArguments =>
        if style == Pipelined {
          d := Dispatched(calls + [InternalError, End], false);
        } else {
          d := Dispatched(calls, true);
        }
    } else {
      d := Dispatched(calls + [MethodNotAllowed, End], false);
    }
  }

  /** The method chosen is the first annotated one; only when no method carries the annotation is
      it the last method named "service"; none is chosen exactly when neither exists. */
  lemma SelectionRule(ms: seq<HandlerMethod>, a: string)
    ensures Selected(ms, a).None? <==>
      forall j :: 0 <= j < |ms| ==> a !in ms[j].annotations && ms[j].name != "service"
    ensures Selected(ms, a).Some? ==> Selected(ms, a).value in ms
    ensures Selected(ms, a).Some? && a !in Selected(ms, a).value.annotations ==>
      Selected(ms, a).value.name == "service" && forall j :: 0 <= j < |ms| ==> a !in ms[j].annotations
    ensures forall i :: 0 <= i < |ms| && a in ms[i].annotations ==>
      Selected(ms, a).Some? && a in Selected(ms, a).value.annotations
  {
    match FirstAnnotated(ms, a)
    case Some(i) =>
    case None =>
      match LastService(ms)
      case Some(i) =>
      case None =>
  }

  /** 404 is set exactly when the lookup runs and finds no handler, and then nothing else happens:
      the response is not ended and no method is invoked. */
  lemma NotFoundRule(style: Style, reg: Registry, methodName: string, uri: string)
    ensures var d := DispatchOf(style, reg, methodName, uri);
      NotFound in d.calls <==>
        FindHandler(reg, uri).None? && (style == Direct || AnnotationFor(methodName).Some?)
    ensures var d := DispatchOf(style, reg, methodName, uri);
      NotFound in d.calls ==> End !in d.calls && !d.escapes && d.calls[|d.calls| - 1] == NotFound
  {
  }

  /** 405 is set exactly when a handler is found but neither an annotated nor a "service" method,
      and then the response is ended. */
  lemma MethodNotAllowedRule(style: Style, reg: Registry, methodName: string, uri: string)
    ensures var d := DispatchOf(style, reg, methodName, uri);
      MethodNotAllowed in d.calls <==>
        (style == Direct || AnnotationFor(methodName).Some?) &&
        FindHandler(reg, uri).Some? && Selected(FindHandler(reg, uri).value.methods, AnnotationUsed(methodName)).None?
    ensures var d := DispatchOf(style, reg, methodName, uri);
      MethodNotAllowed in d.calls ==> d.calls[|d.calls| - 1] == End && !d.escapes
  {
  }

  /** An unknown method name: the request pipelines answer 500 and end the response at once; the
      aio server and the Netty handler set 500 and then dispatch exactly as for GET. */
  lemma UnknownMethodRule(style: Style, reg: Registry, methodName: string, uri: string)
    requires AnnotationFor(methodName).None?
    ensures style == Pipelined ==> DispatchOf(style, reg, methodName, uri) == Dispatched([InternalError, End], false)
    ensures style == Direct ==>
      DispatchOf(style, reg, methodName, uri).calls == [InternalError] + DispatchOf(style, reg, "GET", uri).calls &&
      DispatchOf(style, reg, methodName, uri).escapes == DispatchOf(style, reg, "GET", uri).escapes
  {
    var get := ToUpper("GET");
    assert get[0] == 'G' && get[1] == 'E' && get[2] == 'T';
    assert get == "GET";
  }

  /** A method is invoked only when it is the selected one, and a failing invocation is answered
      with 500 and the end of the response, except that in the `Direct` style an exception other
      than the access and invocation ones escapes instead. */
  lemma InvocationRule(style: Style, reg: Registry, methodName: string, uri: string, m: HandlerMethod)
    requires Invoke(m) in DispatchOf(style, reg, methodName, uri).calls
    ensures FindHandler(reg, uri).Some?
    ensures Selected(FindHandler(reg, uri).value.methods, AnnotationUsed(methodName)) == Some(m)
    ensures var d := DispatchOf(style, reg, methodName, uri);
      d.escapes <==> style == Direct && m.invocation == RejectsArguments
    ensures var d := DispatchOf(style, reg, methodName, uri);
      d.calls[|d.calls| - 1] == End <==> m.invocation != Returns && !d.escapes
  {
  }

  /** The response is ended at most once, always by the last call, and only after a 500 or 405
      status. */
  lemma EndsOnce(style: Style, reg: Registry, methodName: string, uri: string)
    ensures EndsAfterFailure(DispatchOf(style, reg, methodName, uri).calls)
  {
    match AnnotationFor(methodName)
    case Some(a) =>
      LookupEndsOnce(style, reg, a, uri);
    case None =>
      if style == Direct {
        var d := LookupOf(style, reg, "GET", uri);
        LookupEndsOnce(style, reg, "GET", uri);
        assert ([InternalError] + d.calls)[1..] == d.calls;
      }
  }

  /** `End` occurs at most once, as the last call, right after a 500 or 405 status. */
  predicate EndsAfterFailure(calls: seq<Action>)
  {
    End in calls ==>
      calls[|calls| - 1] == End && End !in calls[..|calls| - 1] &&
      |calls| >= 2 && calls[|calls| - 2] in {InternalError, MethodNotAllowed}
  }

  lemma LookupEndsOnce(style: Style, reg: Registry, a: string, uri: string)
    ensures EndsAfterFailure(LookupOf(style, reg, a, uri).calls)
    ensures EndsAfterFailure([InternalError] + LookupOf(style, reg, a, uri).calls)
  {
  }

  lemma UpperOfLower(s: string)
    ensures ToUpper(ToLower(s)) == ToUpper(s)
  {
    assert forall i :: 0 <= i < |s| ==> ToUpper(ToLower(s))[i] == ToUpper(s)[i];
  }

  /** The method name is matched without regard to case. */
  lemma MethodNameCaseInsensitive(style: Style, reg: Registry, methodName: string, uri: string)
    ensures DispatchOf(style, reg, ToLower(methodName), uri) == DispatchOf(style, reg, methodName, uri)
  {
    UpperOfLower(methodName);
  }

  /** `aio/Server.java`: the handler map and `use`. */
  class Server {
    var handlers: Registry

    constructor()
      ensures handlers == map[]
    {
      handlers := map[];
    }

    /** `use`: registers `handler` under `path` (`None` for the default), replacing any earlier one. */
    method Use(path: Option<string>, handler: Handler)
      modifies this
      ensures handlers == old(handlers)[path := handler]
    {
      handlers := handlers[path := handler];
    }

    /** `invokeApp` of the aio server. */
    method Serve(methodName: string, uri: string) returns (d: Dispatched)
      ensures d == DispatchOf(Direct, handlers, methodName, uri)
    {
      d := InvokeApp(Direct, handlers, methodName, uri);
    }
  }

  /** After `use(uri, h)` the request for `uri` goes to `h`; after `use(null, h)` so does every
      request whose URI has no handler of its own. */
  lemma UseThenFind(reg: Registry, path: Option<string>, h: Handler, uri: string)
    ensures path == Some(uri) ==> FindHandler(reg[path := h], uri) == Some(h)
    ensures path.None? && Some(uri) !in reg ==> FindHandler(reg[path := h], uri) == Some(h)
    ensures path.Some? && path != Some(uri) ==> FindHandler(reg[path := h], uri) == FindHandler(reg, uri)
  {
  }

  /** What the Netty channel delivers: a full HTTP message or a bare chunk of one. */
  datatype NettyMessage = FullMessage(methodName: string, uri: string) | Chunk(bytes: seq<byte>)

  /** `core/RequestHandler.java`: the handler map and the request being served. */
  class RequestHandler {
    const handlers: Registry
    var current: Option<NettyMessage>

    constructor(reg: Registry)
      ensures handlers == reg && current == None
    {
      handlers := reg;
      current := None;
    }

    /** `messageReceived`: a full message becomes the current request and is dispatched; a chunk
        is ignored. */
    method MessageReceived(msg: NettyMessage) returns (d: Dispatched)
      modifies this`current
      ensures msg.FullMessage? ==> current == Some(msg) && d == DispatchOf(Direct, handlers, msg.methodName, msg.uri)
      ensures msg.Chunk? ==> current == old(current) && d == Dispatched([], false)
    {
      if msg.FullMessage? {
        current := Some(msg);
        d := InvokeApp(Direct, handlers, msg.methodName, msg.uri);
      } else {
        d := Dispatched([], false);
      }
    }
  }
}
