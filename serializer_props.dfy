/** What a message writer puts on the wire over its whole life: the head once, then every write
    framed the same way, then the last chunk when the body is chunked. */
module SerializerProperties {
  import opened Text
  import opened HttpText
  import opened HeaderMaps
  import opened Serializer

  /** Writing each of `ds` in turn. */
  function WriteAll(kind: Kind, rc: Option<string>, m: Message, ds: seq<seq<byte>>): Message
    decreases |ds|
  {
    if ds == [] then m else WriteAll(kind, rc, WriteOf(kind, rc, m, ds[0]), ds[1..])
  }

  function Concat(ds: seq<seq<byte>>): seq<byte>
  {
    if ds == [] then [] else ds[0] + Concat(ds[1..])
  }

  function Frames(chunked: bool, ds: seq<seq<byte>>): seq<byte>
  {
    if ds == [] then [] else Framed(chunked, ds[0]) + Frames(chunked, ds[1..])
  }

  /** A message whose head is out and whose connection header already says what `doClose` would
      make it say: later writes change nothing but the sink. */
  predicate Settled(kind: Kind, rc: Option<string>, m: Message)
  {
    m.headersWritten && m.hasBody && DoCloseOf(kind, rc, m).0 == m
  }

  lemma OutputSnoc(s: seq<SinkEvent>, e: SinkEvent)
    ensures Output(s + [e]) == Output(s) + if e.Wrote? then e.bytes else []
  {
    assert (s + [e])[..|s|] == s;
  }

  /** The headers of a written head against the headers `h` that were set: the framing header
      says chunked, or there is no transfer-encoding header; the connection header says whether
      the connection closes; every other header is as it was set. */
  ghost predicate HeadFields(h: Fields, r: Fields, chunked: bool, close: bool)
  {
    (chunked ==> Get(r, "transfer-encoding") == Some("chunked")) &&
    (!chunked ==> Get(r, "transfer-encoding") == None) &&
    Get(r, "connection") == Some(if close then "close" else "keep-alive") &&
    forall other :: other != "connection" && other != "transfer-encoding" ==> Get(r, other) == Get(h, other)
  }

  /** The headers the head is written with. */
  lemma HeadHeaders(kind: Kind, m: Message, close: bool)
    requires !m.headersWritten && m.hasBody
    ensures var r := WriteHeadOf(kind, m, close).0;
      r.headersWritten && (r.isChunked <==> "content-length" !in Keys(m.headers)) &&
      HeadFields(m.headers, r.headers, r.isChunked, close)
  {
    var m1 := TransferEncodingOf(m);
    var v := if close then "close" else "keep-alive";
    var r := Put(m1.headers, "connection", v);
    PutGet(m1.headers, "connection", v, "transfer-encoding");
    if "content-length" in Keys(m.headers) {
      RemoveGet(m.headers, "transfer-encoding", "transfer-encoding");
    } else {
      PutGet(m.headers, "transfer-encoding", "chunked", "transfer-encoding");
    }
    forall other | other != "connection" && other != "transfer-encoding"
      ensures Get(r, other) == Get(m.headers, other)
    {
      PutGet(m1.headers, "connection", v, other);
      if "content-length" in Keys(m.headers) {
        RemoveGet(m.headers, "transfer-encoding", other);
      } else {
        PutGet(m.headers, "transfer-encoding", "chunked", other);
      }
    }
    assert HeadFields(m.headers, r, m1.isChunked, close);
  }

  /** `doClose` leaves every header but the connection header alone. */
  lemma DoCloseHeaders(kind: Kind, rc: Option<string>, m: Message)
    ensures var r := DoCloseOf(kind, rc, m).0;
      forall other :: other != "connection" ==> Get(r.headers, other) == Get(m.headers, other)
  {
    forall other | other != "connection"
      ensures Get(DoCloseOf(kind, rc, m).0.headers, other) == Get(m.headers, other)
    {
      PutGet(m.headers, "connection", "keep-alive", other);
      PutGet(m.headers, "connection", "close", other);
    }
  }

  /** Once the connection header says what `doClose` decides, `doClose` changes nothing. */
  lemma DoCloseSettles(kind: Kind, rc: Option<string>, m: Message, close: bool)
    requires close == Closing(kind, rc, m.headers) || kind.ClientRequest?
    requires Get(m.headers, "connection") == Some(if close then "close" else "keep-alive")
    ensures DoCloseOf(kind, rc, m).0 == m
  {
    if kind.ServerResponse? && close {
      PutSame(m.headers, "connection", "close");
    }
  }

  lemma OutputOfWrite(s: seq<SinkEvent>, head: seq<byte>, f: seq<byte>, c: Completion)
    ensures Output(s + [Wrote(head + f, c)]) == Output(s) + head + f
  {
    OutputSnoc(s, Wrote(head + f, c));
  }

  /** The first write puts out the head and the framed data, and settles the message. */
  lemma FirstWrite(kind: Kind, rc: Option<string>, m: Message, d: seq<byte>)
    requires !m.headersWritten
    ensures var r := WriteOf(kind, rc, m, d);
      Settled(kind, rc, r) && r.hasEnded == m.hasEnded &&
      (r.isChunked <==> "content-length" !in Keys(m.headers)) &&
      HeadFields(m.headers, r.headers, r.isChunked, Closing(kind, rc, m.headers)) &&
      Output(r.sink) == Output(m.sink) + Head(FirstLine(kind, m.status, m.reason), r.headers) + Framed(r.isChunked, d)
  {
    var p1 := DoCloseOf(kind, rc, m.(hasBody := true));
    var p2 := WriteHeadOf(kind, p1.0, p1.1);
    var m2 := p2.0;
    WriteSteps(kind, rc, m, d, p1.0, p1.1, m2, p2.1);
    FirstWriteHeaders(kind, rc, m, p1.0, p1.1, m2);
    assert p2.1 == Head(FirstLine(kind, m.status, m.reason), m2.headers);
    OutputOfWrite(m.sink, p2.1, Framed(m2.isChunked, d), NoHandler);
    DoCloseSettles(kind, rc, WriteOf(kind, rc, m, d), p1.1);
  }

  lemma FirstWriteHeaders(kind: Kind, rc: Option<string>, m: Message, m1: Message, close: bool, m2: Message)
    requires !m.headersWritten
    requires (m1, close) == DoCloseOf(kind, rc, m.(hasBody := true))
    requires m2 == WriteHeadOf(kind, m1, close).0
    ensures m2.headersWritten && m2.hasBody && m2.sink == m.sink && m2.hasEnded == m.hasEnded
    ensures m2.isChunked <==> "content-length" !in Keys(m.headers)
    ensures HeadFields(m.headers, m2.headers, m2.isChunked, close)
  {
    DoCloseHeaders(kind, rc, m.(hasBody := true));
    HeadHeaders(kind, m1, close);
    assert Get(m1.headers, "content-length") == Get(m.headers, "content-length");
    forall other | other != "connection" && other != "transfer-encoding"
      ensures Get(m2.headers, other) == Get(m.headers, other)
    {
      assert Get(m2.headers, other) == Get(m1.headers, other);
    }
  }

  /** A write on a settled message adds its framed data to the sink and changes nothing else. */
  lemma SettledWrite(kind: Kind, rc: Option<string>, m: Message, d: seq<byte>)
    requires Settled(kind, rc, m)
    ensures WriteOf(kind, rc, m, d) == m.(sink := m.sink + [Wrote(Framed(m.isChunked, d), NoHandler)])
  {
    assert m.(hasBody := true) == m;
    var close := Closing(kind, rc, m.headers);
    assert DoCloseOf(kind, rc, m) == (m, close);
    assert WriteHeadOf(kind, m, close) == (m, []);
    var bytes: seq<byte> := [];
    assert bytes + Framed(m.isChunked, d) == Framed(m.isChunked, d);
  }

  lemma DoCloseIgnoresSink(kind: Kind, rc: Option<string>, m: Message, s: seq<SinkEvent>)
    ensures DoCloseOf(kind, rc, m.(sink := s)).0 == DoCloseOf(kind, rc, m).0.(sink := s)
  {
  }

  /** Writes on a settled message add their framed data, one after the other. */
  lemma {:induction false} SettledWrites(kind: Kind, rc: Option<string>, m: Message, ds: seq<seq<byte>>)
    requires Settled(kind, rc, m)
    ensures var r := WriteAll(kind, rc, m, ds);
      r == m.(sink := r.sink) && Output(r.sink) == Output(m.sink) + Frames(m.isChunked, ds)
    decreases |ds|
  {
    if ds != [] {
      var a := Framed(m.isChunked, ds[0]);
      var m1 := m.(sink := m.sink + [Wrote(a, NoHandler)]);
      SettledWrite(kind, rc, m, ds[0]);
      assert Settled(kind, rc, m1) by {
        DoCloseIgnoresSink(kind, rc, m, m1.sink);
      }
      SettledWrites(kind, rc, m1, ds[1..]);
      var r := WriteAll(kind, rc, m1, ds[1..]);
      assert WriteAll(kind, rc, m, ds) == r;
      var b := Frames(m.isChunked, ds[1..]);
      assert Frames(m.isChunked, ds) == a + b;
      assert Output(m1.sink) == Output(m.sink) + a by {
        OutputSnoc(m.sink, Wrote(a, NoHandler));
      }
      assert Output(r.sink) == Output(m1.sink) + b;
      AppendAssociates(Output(m.sink), a, b);
    }
  }

  /** Ending a settled message adds the last chunk when the body is chunked. */
  lemma SettledEnd(kind: Kind, rc: Option<string>, m: Message)
    requires Settled(kind, rc, m) && !m.hasEnded
    ensures var r := EndOf(kind, rc, m);
      r == m.(sink := r.sink, hasEnded := true) &&
      Output(r.sink) == Output(m.sink) + (if m.isChunked then LastChunk else []) &&
      |r.sink| > 0 && r.sink[|r.sink| - 1] == EndOfMessage
  {
    var close := Closing(kind, rc, m.headers);
    assert DoCloseOf(kind, rc, m) == (m, close);
    assert WriteHeadOf(kind, m, close) == (m, []);
    var none: seq<byte> := [];
    var bytes: seq<byte> := none + if m.isChunked then LastChunk else [];
    assert bytes == if m.isChunked then LastChunk else [];
    var s1 := m.sink + (if |bytes| > 0 then [Wrote(bytes, NoHandler)] else []);
    assert EndOf(kind, rc, m) == m.(sink := s1 + [EndOfMessage], hasEnded := true);
    OutputSnoc(s1, EndOfMessage);
    if |bytes| > 0 {
      OutputSnoc(m.sink, Wrote(bytes, NoHandler));
    } else {
      assert s1 == m.sink;
    }
  }

  /** Chunk frames followed by the last chunk are the chunked body. */
  lemma {:induction false} ChunkFrames(ds: seq<seq<byte>>)
    ensures Frames(true, ds) + LastChunk == ChunkedBody(ds)
  {
    if ds != [] {
      ChunkFrames(ds[1..]);
    }
  }

  /** Unframed writes are the data as it is. */
  lemma {:induction false} PlainFrames(ds: seq<seq<byte>>)
    ensures Frames(false, ds) == Concat(ds)
  {
    if ds != [] {
      PlainFrames(ds[1..]);
    }
  }

  /** A message written with `ds` and ended: the head once, then the body, chunked with its last
      chunk unless a content-length header was set; the head carries the framing header (or no
      transfer-encoding at all) and a connection header saying whether the connection closes,
      and every other header as it was set. */
  lemma MessageOutput(kind: Kind, rc: Option<string>, m: Message, ds: seq<seq<byte>>)
    requires !m.headersWritten && !m.hasEnded && ds != []
    ensures var r := EndOf(kind, rc, WriteAll(kind, rc, m, ds));
      r.hasEnded && r.headersWritten && |r.sink| > 0 && r.sink[|r.sink| - 1] == EndOfMessage &&
      Output(r.sink) == Output(m.sink) + Head(FirstLine(kind, m.status, m.reason), r.headers) +
        (if r.isChunked then ChunkedBody(ds) else Concat(ds)) &&
      (r.isChunked <==> "content-length" !in Keys(m.headers)) &&
      HeadFields(m.headers, r.headers, r.isChunked, Closing(kind, rc, m.headers))
  {
    FirstWrite(kind, rc, m, ds[0]);
    var m1 := WriteOf(kind, rc, m, ds[0]);
    assert WriteAll(kind, rc, m, ds) == WriteAll(kind, rc, m1, ds[1..]);
    SettledWrites(kind, rc, m1, ds[1..]);
    var m2 := WriteAll(kind, rc, m1, ds[1..]);
    assert Settled(kind, rc, m2) by {
      DoCloseIgnoresSink(kind, rc, m1, m2.sink);
    }
    SettledEnd(kind, rc, m2);
    var r := EndOf(kind, rc, m2);
    BodyOutput(m1.isChunked, ds, Output(m.sink), Head(FirstLine(kind, m.status, m.reason), m1.headers),
      Output(m1.sink), Output(m2.sink), Output(r.sink));
  }

  /** The pieces of the output add up: head and first frame, later frames, last chunk. */
  lemma BodyOutput(chunked: bool, ds: seq<seq<byte>>, o: seq<byte>, head: seq<byte>, o1: seq<byte>, o2: seq<byte>, o3: seq<byte>)
    requires ds != []
    requires o1 == o + head + Framed(chunked, ds[0])
    requires o2 == o1 + Frames(chunked, ds[1..])
    requires o3 == o2 + if chunked then LastChunk else []
    ensures o3 == o + head + if chunked then ChunkedBody(ds) else Concat(ds)
  {
    var a, b, c := Framed(chunked, ds[0]), Frames(chunked, ds[1..]), if chunked then LastChunk else [];
    assert Frames(chunked, ds) == a + b;
    Associate(o + head, a, b, c);
    if chunked {
      ChunkFrames(ds);
    } else {
      PlainFrames(ds);
      assert a + b + c == a + b;
    }
  }

  lemma Associate(x: seq<byte>, a: seq<byte>, b: seq<byte>, c: seq<byte>)
    ensures x + a + b + c == x + (a + b + c)
  {
  }

  /** A message ended without any write: only the head goes out, the framing headers are left as
      they were set, and the connection header says whether the connection closes. */
  lemma EndWithoutBody(kind: Kind, rc: Option<string>, m: Message)
    requires !m.headersWritten && !m.hasEnded && !m.hasBody
    ensures var r := EndOf(kind, rc, m);
      r.hasEnded && r.headersWritten && |r.sink| > 0 && r.sink[|r.sink| - 1] == EndOfMessage &&
      Output(r.sink) == Output(m.sink) + Head(FirstLine(kind, m.status, m.reason), r.headers) &&
      Get(r.headers, "connection") == Some(if Closing(kind, rc, m.headers) then "close" else "keep-alive") &&
      forall other :: other != "connection" ==> Get(r.headers, other) == Get(m.headers, other)
  {
    var p1 := DoCloseOf(kind, rc, m);
    var p2 := WriteHeadOf(kind, p1.0, p1.1);
    EndSteps(kind, rc, m, p1.0, p1.1, p2.0, p2.1);
    var v := if p1.1 then "close" else "keep-alive";
    assert p2.0.headers == Put(p1.0.headers, "connection", v);
    assert Get(p2.0.headers, "connection") == Some(v) by {
      PutGet(p1.0.headers, "connection", v, "connection");
    }
    assert forall other :: other != "connection" ==> Get(p2.0.headers, other) == Get(m.headers, other) by {
      DoCloseHeaders(kind, rc, m);
      forall other | other != "connection"
        ensures Get(p2.0.headers, other) == Get(m.headers, other)
      {
        PutGet(p1.0.headers, "connection", v, other);
      }
    }
    var head := Head(FirstLine(kind, m.status, m.reason), p2.0.headers);
    assert p2.1 == head;
    HeadThenEnd(m.sink, head);
  }

  /** A head written alone and then the end of the message put out the head and nothing more. */
  lemma HeadThenEnd(s: seq<SinkEvent>, head: seq<byte>)
    ensures Output(s + [Wrote(head + [], NoHandler)] + [EndOfMessage]) == Output(s) + head
  {
    var none: seq<byte> := [];
    assert head + none == head;
    OutputOfWrite(s, head, none, NoHandler);
    OutputSnoc(s + [Wrote(head + none, NoHandler)], EndOfMessage);
  }

  /** A second `end` does nothing. */
  lemma EndOnce(kind: Kind, rc: Option<string>, m: Message)
    ensures EndOf(kind, rc, EndOf(kind, rc, m)) == EndOf(kind, rc, m)
  {
  }

  /** The public `writeHead` of a request gives it a host header unless it has one, and has the
      response read once the head is out. */
  lemma RequestHost(kind: Kind, rc: Option<string>, m: Message)
    requires kind.ClientRequest? && !m.headersWritten
    ensures var r := WriteHeadPublicOf(kind, rc, m);
      Get(r.headers, "host") == (if "host" in Keys(m.headers) then Get(m.headers, "host") else Some(DefaultHost(kind.host, kind.port))) &&
      |r.sink| > 0 && r.sink[|r.sink| - 1] == Wrote(Head(FirstLine(kind, m.status, m.reason), r.headers), ReadNext)
  {
    var m0 := HostOf(kind, m);
    PutGet(m.headers, "host", DefaultHost(kind.host, kind.port), "host");
    var p1 := DoCloseOf(kind, rc, m0);
    var p2 := WriteHeadOf(kind, p1.0, p1.1);
    WriteHeadSteps(kind, rc, m, m0, p1.0, p1.1, p2.0, p2.1);
    var m1 := TransferEncodingOf(m0);
    var v := if p1.1 then "close" else "keep-alive";
    assert p2.0.headers == Put(m1.headers, "connection", v);
    assert Get(p2.0.headers, "host") == Get(m1.headers, "host") by {
      PutGet(m1.headers, "connection", v, "host");
    }
    TransferEncodingGet(m0, "host");
  }

  /** Settling the framing touches no header but transfer-encoding. */
  lemma TransferEncodingGet(m: Message, other: string)
    requires other != "transfer-encoding"
    ensures Get(TransferEncodingOf(m).headers, other) == Get(m.headers, other)
  {
    if m.hasBody {
      if "content-length" in Keys(m.headers) {
        RemoveGet(m.headers, "transfer-encoding", other);
      } else {
        PutGet(m.headers, "transfer-encoding", "chunked", other);
      }
    }
  }

  /** The public `writeHead` on a message without a body: the head goes out with the framing
      headers as they were set and the connection header `doClose` decides. */
  lemma HeadAlone(kind: Kind, rc: Option<string>, m: Message)
    requires !m.headersWritten && !m.hasBody
    ensures var h := WriteHeadPublicOf(kind, rc, m);
      h.isChunked == m.isChunked && Get(h.headers, "transfer-encoding") == Get(m.headers, "transfer-encoding") &&
      Settled(kind, rc, h.(hasBody := true)) &&
      h.sink == m.sink + [Wrote(Head(FirstLine(kind, m.status, m.reason), h.headers), if kind.ClientRequest? then ReadNext else NoHandler)]
  {
    var m0 := HostOf(kind, m);
    var p1 := DoCloseOf(kind, rc, m0);
    var p2 := WriteHeadOf(kind, p1.0, p1.1);
    WriteHeadSteps(kind, rc, m, m0, p1.0, p1.1, p2.0, p2.1);
    var v := if p1.1 then "close" else "keep-alive";
    assert p2.0.headers == Put(p1.0.headers, "connection", v);
    assert Get(m0.headers, "transfer-encoding") == Get(m.headers, "transfer-encoding") by {
      if kind.ClientRequest? {
        PutGet(m.headers, "host", DefaultHost(kind.host, kind.port), "transfer-encoding");
      }
    }
    DoCloseHeaders(kind, rc, m0);
    PutGet(p1.0.headers, "connection", v, "transfer-encoding");
    PutGet(p1.0.headers, "connection", v, "connection");
    var h := WriteHeadPublicOf(kind, rc, m);
    DoCloseSettles(kind, rc, h.(hasBody := true), p1.1);
  }

  /** A head sent by the public `writeHead` before any write carries no transfer-encoding header
      of its own, yet the write that follows is chunked: the body goes out in a chunk frame that
      the head does not announce. */
  lemma HeadBeforeWrite(kind: Kind, rc: Option<string>, m: Message, d: seq<byte>)
    requires !m.headersWritten && !m.hasBody && m.isChunked && "transfer-encoding" !in Keys(m.headers)
    ensures var h := WriteHeadPublicOf(kind, rc, m);
      var r := WriteOf(kind, rc, h, d);
      r.isChunked && Get(r.headers, "transfer-encoding") == None &&
      Output(r.sink) == Output(m.sink) + Head(FirstLine(kind, m.status, m.reason), r.headers) + ChunkFrame(d)
  {
    HeadAlone(kind, rc, m);
    var h := WriteHeadPublicOf(kind, rc, m);
    SettledWrite(kind, rc, h.(hasBody := true), d);
    assert WriteOf(kind, rc, h, d) == WriteOf(kind, rc, h.(hasBody := true), d);
    var head := Head(FirstLine(kind, m.status, m.reason), h.headers);
    var none: seq<byte> := [];
    OutputOfWrite(m.sink, head, none, if kind.ClientRequest? then ReadNext else NoHandler);
    assert head + none == head;
    OutputOfWrite(h.sink, none, ChunkFrame(d), NoHandler);
    assert none + ChunkFrame(d) == ChunkFrame(d);
  }

  /** The value `name` ends up with after adding the pairs `ps`: the last one added under a name
      that lower-cases to it. */
  function LastValue(ps: seq<(string, string)>, name: string): Option<string>
  {
    if ps == [] then None
    else if ToLower(ps[|ps| - 1].0) == name then Some(ps[|ps| - 1].1)
    else LastValue(ps[..|ps| - 1], name)
  }

  /** `addHeaders` keeps, for each name (in any case), the last value added, and leaves the
      names it does not add alone. */
  lemma {:induction false} AddAllGet(m: Message, ps: seq<(string, string)>, name: string)
    ensures Get(AddAllOf(m, ps).headers, name) == if LastValue(ps, name).Some? then LastValue(ps, name) else Get(m.headers, name)
  {
    if ps != [] {
      var init := ps[..|ps| - 1];
      var last := ps[|ps| - 1];
      AddAllGet(m, init, name);
      PutGet(AddAllOf(m, init).headers, ToLower(last.0), last.1, name);
    }
  }
}
