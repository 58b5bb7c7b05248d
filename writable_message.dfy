/** The message writer shared by the server's responses and the client's requests
    (`common/WritableMessage.java`, with `server/ServerResponse.java` and
    `client/ClientRequest.java` as its two kinds). A message keeps a single-valued header map,
    writes its head at most once, frames its body chunked unless a content-length header is
    present, and hands each piece of output to its sink. The sink is the list of events it
    receives, in order. */
module Serializer {
  import opened Text
  import opened HttpText
  import opened HeaderMaps
  import opened Messages

  /** What the sink runs once a write is done: nothing, or the client's "read the response". */
  datatype Completion = NoHandler | ReadNext

  datatype SinkEvent =
    | Wrote(bytes: seq<byte>, after: Completion)
    | EndOfMessage
    | CloseWhenDone

  /** The two kinds of message: the server's response, and a client's request to `host`:`port`. */
  datatype Kind =
    | ServerResponse
    | ClientRequest(host: string, port: int, httpMethod: string, path: string)

  /** The fields of a message that its operations change. */
  datatype Message = Message(headers: Fields, headersWritten: bool, hasEnded: bool, isChunked: bool,
                             hasBody: bool, status: int, reason: string, sink: seq<SinkEvent>)

  /** Every byte the sink was asked to write, in order. */
  function Output(events: seq<SinkEvent>): seq<byte>
  {
    if events == [] then []
    else Output(events[..|events| - 1]) + match events[|events| - 1]
      case Wrote(bytes, _) => bytes
      case _ => []
  }

  // ---------------------------------------------------------------------------------------
  // The head

  /** `writeFirstLine`: the status line of a response, the request line of a request. */
  function FirstLine(kind: Kind, status: int, reason: string): string
  {
    match kind
    case ServerResponse => "HTTP/1.1 " + IntToString(status) + " " + reason
    case ClientRequest(_, _, m, p) => m + " " + p + " HTTP/1.1"
  }

  /** One header as written: the lower-cased name, ": ", the value and CRLF. */
  function FieldLine(f: (string, string)): seq<byte>
  {
    EncodeAscii(ToLower(f.0) + ": " + f.1) + CRLF
  }

  function HeaderSection(h: Fields): seq<byte>
  {
    if h == [] then [] else FieldLine(h[0]) + HeaderSection(h[1..])
  }

  /** The first line, CRLF, one line per header in map order, and the empty line. */
  function Head(first: string, h: Fields): seq<byte>
  {
    EncodeAscii(first) + CRLF + HeaderSection(h) + CRLF
  }

  /** How a write frames its data: a chunk, or the bytes themselves. */
  function Framed(chunked: bool, data: seq<byte>): seq<byte>
  {
    if chunked then ChunkFrame(data) else data
  }

  // ---------------------------------------------------------------------------------------
  // The operations, on the message's fields. `reqConn` is the connection header of the
  // request a response answers (none when there is no request or no such header).

  /** `"close".equalsIgnoreCase(v)`, case folded on ASCII letters. */
  predicate SaysClose(v: string)
  {
    ToLower(v) == "close"
  }

  /** `name.equalsIgnoreCase("connection")`, case folded on ASCII letters. */
  predicate IsConnection(name: string)
  {
    ToLower(name) == "connection"
  }

  /** `doClose`'s answer: a response closes when its request asked for it, a request when its own
      connection header says so (both ignoring case). */
  function Closing(kind: Kind, reqConn: Option<string>, h: Fields): bool
  {
    match kind
    case ServerResponse => reqConn.Some? && SaysClose(reqConn.value)
    case ClientRequest(_, _, _, _) => Get(h, "connection").Some? && SaysClose(Get(h, "connection").value)
  }

  /** `doClose`'s change to the headers: a response that closes says so; one that stays open adds
      keep-alive unless it already has a connection header. A request changes nothing. */
  function DoCloseOf(kind: Kind, reqConn: Option<string>, m: Message): (r: (Message, bool))
    ensures r.1 == Closing(kind, reqConn, m.headers)
    ensures r.0 == m.(headers := r.0.headers)
  {
    var close := Closing(kind, reqConn, m.headers);
    match kind
    case ServerResponse =>
      if !close && "connection" !in Keys(m.headers) then (m.(headers := Put(m.headers, "connection", "keep-alive")), close)
      else if close then (m.(headers := Put(m.headers, "connection", "close")), close)
      else (m, close)
    case ClientRequest(_, _, _, _) => (m, close)
  }

  /** `setTransferEncoding`: only once a body exists, a content-length header turns chunking off
      and removes any transfer-encoding header; without one the body is chunked. */
  function TransferEncodingOf(m: Message): (r: Message)
    ensures r == m.(headers := r.headers, isChunked := r.isChunked)
  {
    if !m.hasBody then m
    else if "content-length" in Keys(m.headers) then
      m.(headers := Remove(m.headers, "transfer-encoding"), isChunked := false)
    else m.(headers := Put(m.headers, "transfer-encoding", "chunked"), isChunked := true)
  }

  /** The private `writeHead(doClose)`: nothing once the head is written; otherwise the framing is
      settled, the connection header is set from `close`, and the head is serialised. */
  function WriteHeadOf(kind: Kind, m: Message, close: bool): (r: (Message, seq<byte>))
    ensures r.0 == m.(headers := r.0.headers, isChunked := r.0.isChunked, headersWritten := true)
    ensures m.headersWritten ==> r == (m, [])
    ensures !m.headersWritten ==> r.1 == Head(FirstLine(kind, m.status, m.reason), r.0.headers)
  {
    if m.headersWritten then (m, [])
    else
      var m1 := TransferEncodingOf(m);
      var h := Put(m1.headers, "connection", if close then "close" else "keep-alive");
      (m1.(headers := h, headersWritten := true), Head(FirstLine(kind, m.status, m.reason), h))
  }

  /** `write(data)`: the message gets a body, the head goes out with the first write, and the
      data follows framed in one sink write. */
  function WriteOf(kind: Kind, reqConn: Option<string>, m: Message, data: seq<byte>): (r: Message)
    ensures r == m.(headers := r.headers, isChunked := r.isChunked, headersWritten := true, hasBody := true, sink := r.sink)
  {
    var closing := DoCloseOf(kind, reqConn, m.(hasBody := true));
    var written := WriteHeadOf(kind, closing.0, closing.1);
    written.0.(sink := written.0.sink + [Wrote(written.1 + Framed(written.0.isChunked, data), NoHandler)])
  }

  /** `end()`: once only; the head if still pending, the last chunk when the body is chunked and
      some body was written, then the sink is ended. */
  function EndOf(kind: Kind, reqConn: Option<string>, m: Message): (r: Message)
    ensures r == m.(headers := r.headers, isChunked := r.isChunked, headersWritten := r.headersWritten, hasEnded := true, sink := r.sink)
  {
    if m.hasEnded then m
    else
      var closing := DoCloseOf(kind, reqConn, m);
      var written := WriteHeadOf(kind, closing.0, closing.1);
      var m2 := written.0;
      var bytes := written.1 + if m2.isChunked && m2.hasBody then LastChunk else [];
      m2.(sink := m2.sink + (if |bytes| > 0 then [Wrote(bytes, NoHandler)] else []) + [EndOfMessage],
          hasEnded := true)
  }

  /** The host header a request gets when it has none: the host, with ":" and the port unless
      the port is 80. */
  function DefaultHost(host: string, port: int): string
  {
    if port == 80 then host else host + ":" + IntToString(port)
  }

  /** A request without a host header gets the default one; a response is left alone. */
  function HostOf(kind: Kind, m: Message): (r: Message)
    ensures r == m.(headers := r.headers)
  {
    if kind.ClientRequest? && "host" !in Keys(m.headers) then m.(headers := Put(m.headers, "host", DefaultHost(kind.host, kind.port)))
    else m
  }

  /** The public `writeHead()`: a request first adds its default host header and has the response
      read once the head is written; the head goes out in a sink write of its own, which is empty
      when the head was already written. */
  function WriteHeadPublicOf(kind: Kind, reqConn: Option<string>, m: Message): (r: Message)
    ensures r == m.(headers := r.headers, isChunked := r.isChunked, headersWritten := true, sink := r.sink)
  {
    var m0 := HostOf(kind, m);
    var closing := DoCloseOf(kind, reqConn, m0);
    var written := WriteHeadOf(kind, closing.0, closing.1);
    written.0.(sink := written.0.sink + [Wrote(written.1, if kind.ClientRequest? then ReadNext else NoHandler)])
  }

  /** `addHeader`: the value is stored under the lower-cased name, replacing an earlier value;
      "connection: close" (name in any case) tells the sink to close when done. */
  function AddHeaderOf(m: Message, name: string, value: string): (r: Message)
    ensures r == m.(headers := r.headers, sink := r.sink)
  {
    m.(headers := Put(m.headers, ToLower(name), value),
       sink := m.sink + if IsConnection(name) && value == "close" then [CloseWhenDone] else [])
  }

  /** The (name, value) pairs `addHeaders` adds, name by name and value by value. */
  function Pairs(hs: seq<(string, seq<string>)>): seq<(string, string)>
  {
    if hs == [] then [] else Pairs(hs[..|hs| - 1]) + PairsOf(hs[|hs| - 1].0, hs[|hs| - 1].1)
  }

  function PairsOf(name: string, values: seq<string>): (r: seq<(string, string)>)
    ensures |r| == |values| && forall k :: 0 <= k < |values| ==> r[k] == (name, values[k])
  {
    if values == [] then [] else PairsOf(name, values[..|values| - 1]) + [(name, values[|values| - 1])]
  }

  function AddAllOf(m: Message, ps: seq<(string, string)>): (r: Message)
  {
    if ps == [] then m else AddHeaderOf(AddAllOf(m, ps[..|ps| - 1]), ps[|ps| - 1].0, ps[|ps| - 1].1)
  }

  // ---------------------------------------------------------------------------------------
  // The message object

  class WritableMessage {
    const kind: Kind
    /** The request a response answers, if any; a request has none. */
    const request: ServerRequest?
    var headers: Fields
    var headersWritten: bool
    var hasEnded: bool
    var isChunked: bool
    var hasBody: bool
    var status: int
    var reason: string
    var sink: seq<SinkEvent>

    function State(): Message
      reads this
    {
      Message(headers, headersWritten, hasEnded, isChunked, hasBody, status, reason, sink)
    }

    /** The request's connection header, as `getHeader("connection")` gives it. */
    function RequestConnection(): Option<string>
      reads this, request
    {
      if request == null then None else request.GetHeader("connection")
    }

    /** A new response: 200 "OK", a Server header and a Date header (the date is a parameter). */
    constructor Response(req: ServerRequest?, date: string)
      ensures kind == ServerResponse && request == req
      ensures State() == Message([("Server", "tini/1.0"), ("Date", date)], false, false, true, false, 200, "OK", [])
    {
      kind, request := ServerResponse, req;
      headers := [("Server", "tini/1.0"), ("Date", date)];
      headersWritten, hasEnded, isChunked, hasBody := false, false, true, false;
      status, reason := 200, "OK";
      sink := [];
    }

    /** A new request; a missing or empty path becomes "/". */
    constructor Request(host: string, port: int, path: Option<string>, httpMethod: string)
      ensures kind == ClientRequest(host, port, httpMethod, if path.None? || path.value == "" then "/" else path.value)
      ensures request == null
      ensures State() == Message([], false, false, true, false, 200, "OK", [])
    {
      kind := ClientRequest(host, port, httpMethod, if path.None? || path.value == "" then "/" else path.value);
      request := null;
      headers := [];
      headersWritten, hasEnded, isChunked, hasBody := false, false, true, false;
      status, reason := 200, "OK";
      sink := [];
    }

    method AddHeader(name: string, value: string)
      modifies this`headers, this`sink
      ensures State() == AddHeaderOf(old(State()), name, value)
    {
      if IsConnection(name) && value == "close" {
        sink := sink + [CloseWhenDone];
      }
      headers := Put(headers, ToLower(name), value);
    }

    /** `addHeaders`: every value of every name, through `addHeader`. */
    method AddHeaders(hs: seq<(string, seq<string>)>)
      modifies this`headers, this`sink
      ensures State() == AddAllOf(old(State()), Pairs(hs))
    {
      var i := 0;
      while i < |hs|
        invariant i <= |hs|
        invariant State() == AddAllOf(old(State()), Pairs(hs[..i]))
      {
        AddValues(hs[i].0, hs[i].1);
        PairsStep(hs, i);
        AddAllConcat(old(State()), Pairs(hs[..i]), PairsOf(hs[i].0, hs[i].1));
        i := i + 1;
      }
      assert hs[..i] == hs;
    }

    method AddValues(name: string, values: seq<string>)
      modifies this`headers, this`sink
      ensures State() == AddAllOf(old(State()), PairsOf(name, values))
    {
      var j := 0;
      while j < |values|
        invariant j <= |values|
        invariant State() == AddAllOf(old(State()), PairsOf(name, values[..j]))
      {
        AddHeader(name, values[j]);
        AddOneMore(old(State()), name, values, j);
        j := j + 1;
      }
      assert values[..j] == values;
    }

    method SetContentType(t: string)
      modifies this`headers
      ensures headers == Put(old(headers), "content-type", t)
    {
      headers := Put(headers, "content-type", t);
    }

    /** A response's `setStatus`: both the code and the reason phrase are replaced. */
    method SetStatus(code: int, phrase: string)
      requires kind == ServerResponse
      modifies this`status, this`reason
      ensures status == code && reason == phrase
    {
      status, reason := code, phrase;
    }

    method DoClose() returns (close: bool)
      modifies this`headers
      ensures (State(), close) == DoCloseOf(kind, RequestConnection(), old(State()))
    {
      var conn := RequestConnection();
      match kind
      case ServerResponse =>
        close := conn.Some? && SaysClose(conn.value);
        if !close && "connection" !in Keys(headers) {
          headers := Put(headers, "connection", "keep-alive");
        } else if close {
          headers := Put(headers, "connection", "close");
        }
      case ClientRequest(_, _, _, _) =>
        var val := Get(headers, "connection");
        close := val.Some? && SaysClose(val.value);
    }

    method SetTransferEncoding()
      modifies this`headers, this`isChunked
      ensures State() == TransferEncodingOf(old(State()))
    {
      if !hasBody {
        return;
      }
      if "content-length" in Keys(headers) {
        headers := Remove(headers, "transfer-encoding");
        isChunked := false;
      } else {
        headers := Put(headers, "transfer-encoding", "chunked");
        isChunked := true;
      }
    }

    /** The private `writeHead(doClose)`. */
    method SerializeHead(close: bool) returns (bytes: seq<byte>)
      modifies this`headers, this`isChunked, this`headersWritten
      ensures (State(), bytes) == WriteHeadOf(kind, old(State()), close)
    {
      if headersWritten {
        return [];
      }
      SetTransferEncoding();
      ghost var s1 := State();
      headers := Put(headers, "connection", if close then "close" else "keep-alive");
      var first := EncodeAscii(FirstLine(kind, status, reason));
      var section := SerializeHeaders(headers);
      bytes := first + CRLF + section + CRLF;
      headersWritten := true;
      HeadStep(kind, old(State()), close, s1);
    }

    method Write(data: seq<byte>)
      modifies this`headers, this`isChunked, this`headersWritten, this`hasBody, this`sink
      ensures State() == WriteOf(kind, RequestConnection(), old(State()), data)
    {
      hasBody := true;
      ghost var s0 := State();
      var close := DoClose();
      ghost var s1 := State();
      var head := SerializeHead(close);
      ghost var s2 := State();
      var frame := FrameBytes(isChunked, data);
      sink := sink + [Wrote(head + frame, NoHandler)];
      WriteSteps(kind, RequestConnection(), old(State()), data, s1, close, s2, head);
    }

    method End()
      modifies this`headers, this`isChunked, this`headersWritten, this`hasEnded, this`sink
      ensures State() == EndOf(kind, RequestConnection(), old(State()))
    {
      if hasEnded {
        return;
      }
      var close := DoClose();
      ghost var s1 := State();
      var bytes: seq<byte>;
      if !headersWritten {
        bytes := SerializeHead(close);
      } else {
        bytes := [];
      }
      ghost var s2 := State();
      ghost var head := bytes;
      assert (s2, head) == WriteHeadOf(kind, s1, close);
      if isChunked && hasBody {
        bytes := bytes + LastChunk;
      }
      if |bytes| > 0 {
        sink := sink + [Wrote(bytes, NoHandler)];
      }
      sink := sink + [EndOfMessage];
      hasEnded := true;
      EndSteps(kind, RequestConnection(), old(State()), s1, close, s2, head);
      assert bytes == head + if s2.isChunked && s2.hasBody then LastChunk else [];
      assert sink == s2.sink + (if |bytes| > 0 then [Wrote(bytes, NoHandler)] else []) + [EndOfMessage];
      assert State() == s2.(sink := sink, hasEnded := true);
    }

    /** The public `writeHead()`. */
    method WriteHead()
      modifies this`headers, this`isChunked, this`headersWritten, this`sink
      ensures State() == WriteHeadPublicOf(kind, RequestConnection(), old(State()))
    {
      var after := NoHandler;
      if kind.ClientRequest? {
        if "host" !in Keys(headers) {
          headers := Put(headers, "host", DefaultHost(kind.host, kind.port));
        }
        after := ReadNext;
      }
      ghost var s0 := State();
      assert s0 == HostOf(kind, old(State()));
      var close := DoClose();
      ghost var s1 := State();
      var head := SerializeHead(close);
      ghost var s2 := State();
      sink := sink + [Wrote(head, after)];
      WriteHeadSteps(kind, RequestConnection(), old(State()), s0, s1, close, s2, head);
    }
  }

  /** `write`'s framing, piece by piece: size line, data and CRLF when chunked. */
  method FrameBytes(chunked: bool, data: seq<byte>) returns (bytes: seq<byte>)
    ensures bytes == Framed(chunked, data)
  {
    bytes := [];
    if chunked {
      bytes := EncodeAscii(ToHexString(|data|)) + CRLF;
    }
    bytes := bytes + data;
    if chunked {
      bytes := bytes + CRLF;
    }
  }

  lemma HeadStep(kind: Kind, m: Message, close: bool, s1: Message)
    requires !m.headersWritten && s1 == TransferEncodingOf(m)
    ensures var h := Put(s1.headers, "connection", if close then "close" else "keep-alive");
      WriteHeadOf(kind, m, close) == (s1.(headers := h, headersWritten := true), Head(FirstLine(kind, s1.status, s1.reason), h))
  {
  }

  lemma WriteSteps(kind: Kind, rc: Option<string>, m: Message, data: seq<byte>, s1: Message, close: bool, s2: Message, head: seq<byte>)
    requires (s1, close) == DoCloseOf(kind, rc, m.(hasBody := true))
    requires (s2, head) == WriteHeadOf(kind, s1, close)
    ensures WriteOf(kind, rc, m, data) == s2.(sink := s2.sink + [Wrote(head + Framed(s2.isChunked, data), NoHandler)])
  {
  }

  lemma EndSteps(kind: Kind, rc: Option<string>, m: Message, s1: Message, close: bool, s2: Message, head: seq<byte>)
    requires !m.hasEnded
    requires (s1, close) == DoCloseOf(kind, rc, m)
    requires (s2, head) == WriteHeadOf(kind, s1, close)
    ensures var bytes := head + if s2.isChunked && s2.hasBody then LastChunk else [];
      EndOf(kind, rc, m) == s2.(sink := s2.sink + (if |bytes| > 0 then [Wrote(bytes, NoHandler)] else []) + [EndOfMessage], hasEnded := true)
  {
  }

  lemma WriteHeadSteps(kind: Kind, rc: Option<string>, m: Message, s0: Message, s1: Message, close: bool, s2: Message, head: seq<byte>)
    requires s0 == HostOf(kind, m)
    requires (s1, close) == DoCloseOf(kind, rc, s0)
    requires (s2, head) == WriteHeadOf(kind, s1, close)
    ensures WriteHeadPublicOf(kind, rc, m) == s2.(sink := s2.sink + [Wrote(head, if kind.ClientRequest? then ReadNext else NoHandler)])
  {
  }

  /** The header loop of `writeHead`: one line per header, in map order. */
  method SerializeHeaders(h: Fields) returns (out: seq<byte>)
    ensures out == HeaderSection(h)
  {
    out := [];
    var i := 0;
    while i < |h|
      invariant i <= |h|
      invariant out == HeaderSection(h[..i])
    {
      var line := EncodeAscii(ToLower(h[i].0)) + EncodeAscii(": ") + EncodeAscii(h[i].1) + CRLF;
      FieldLineParts(h[i]);
      HeaderSectionSnoc(h[..i], h[i]);
      assert h[..i + 1] == h[..i] + [h[i]];
      out := out + line;
      i := i + 1;
    }
    assert h[..i] == h;
  }

  /** US-ASCII encodes a concatenation piece by piece. */
  lemma FieldLineParts(f: (string, string))
    ensures FieldLine(f) == EncodeAscii(ToLower(f.0)) + EncodeAscii(": ") + EncodeAscii(f.1) + CRLF
  {
    EncodeAsciiConcat(ToLower(f.0), ": ");
    EncodeAsciiConcat(ToLower(f.0) + ": ", f.1);
  }

  lemma {:induction false} HeaderSectionSnoc(h: Fields, f: (string, string))
    ensures HeaderSection(h + [f]) == HeaderSection(h) + FieldLine(f)
  {
    if h == [] {
      assert [f][1..] == [];
    } else {
      assert (h + [f])[1..] == h[1..] + [f];
      HeaderSectionSnoc(h[1..], f);
    }
  }

  lemma PairsStep(hs: seq<(string, seq<string>)>, i: nat)
    requires i < |hs|
    ensures Pairs(hs[..i + 1]) == Pairs(hs[..i]) + PairsOf(hs[i].0, hs[i].1)
  {
    assert hs[..i + 1][..i] == hs[..i];
  }

  lemma AddOneMore(m: Message, name: string, values: seq<string>, j: nat)
    requires j < |values|
    ensures AddAllOf(m, PairsOf(name, values[..j + 1])) == AddHeaderOf(AddAllOf(m, PairsOf(name, values[..j])), name, values[j])
  {
    assert values[..j + 1][..j] == values[..j];
    var ps := PairsOf(name, values[..j + 1]);
    assert ps[..j] == PairsOf(name, values[..j]);
  }

  lemma {:induction false} AddAllConcat(m: Message, a: seq<(string, string)>, b: seq<(string, string)>)
    ensures AddAllOf(m, a + b) == AddAllOf(AddAllOf(m, a), b)
    decreases |b|
  {
    if b == [] {
      assert a + b == a;
    } else {
      assert (a + b)[..|a + b| - 1] == a + b[..|b| - 1];
      AddAllConcat(m, a, b[..|b| - 1]);
    }
  }
}
