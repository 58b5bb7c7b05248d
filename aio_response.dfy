/** The response of the small asynchronous server (`aio/HttpResponse.java`): a status, a header
    map whose names are kept as given, and a channel that receives each piece of output as a
    write of its own. The body is always sent in chunks. */
module AioResponse {
  import opened Text
  import opened HttpText
  import opened HeaderMaps
  import opened StartLines
  import Serializer
  import SerializerProperties

  /** The fields of a response that its operations change; `writes` is what the channel was asked
      to write, one entry per `channel.write`. */
  datatype Response = Response(status: int, message: string, headersWritten: bool, closed: bool,
                               headers: Fields, writes: seq<seq<byte>>)

  /** Every byte written to the channel, in order. */
  function Flat(ws: seq<seq<byte>>): seq<byte>
  {
    if ws == [] then [] else Flat(ws[..|ws| - 1]) + ws[|ws| - 1]
  }

  /** The status line as this response writes it: version, code and message, each followed by a
      space, so the line ends in a space before its CRLF. */
  function StatusLine(status: int, message: string): string
  {
    "HTTP/1.1" + " " + IntToString(status) + " " + message + " "
  }

  /** The head: the status line, CRLF, one lower-cased header line per header, and CRLF. */
  function HeadBytes(status: int, message: string, h: Fields): seq<byte>
  {
    EncodeAscii(StatusLine(status, message)) + CRLF + Serializer.HeaderSection(h) + CRLF
  }

  /** The headers the head goes out with: "Transfer-Encoding: chunked" is added unless a header is
      named exactly "content-length". */
  function HeadersAtHead(h: Fields): Fields
  {
    if "content-length" in Keys(h) then h else Put(h, "Transfer-Encoding", "chunked")
  }

  /** The private `writeHead`: once only, the framing header is settled and the head written. */
  function WriteHeadOf(r: Response): (q: Response)
    ensures q == r.(headers := q.headers, headersWritten := true, writes := q.writes)
    ensures r.headersWritten ==> q == r
  {
    if r.headersWritten then r
    else
      var h := HeadersAtHead(r.headers);
      r.(headers := h, headersWritten := true, writes := r.writes + [HeadBytes(r.status, r.message, h)])
  }

  /** `write(byte[])`: the head if pending, then the size in hexadecimal, CRLF, the bytes and CRLF,
      each in a channel write of its own. */
  function WriteOf(r: Response, body: seq<byte>): (q: Response)
    ensures q == r.(headers := q.headers, headersWritten := true, writes := q.writes)
  {
    var p := WriteHeadOf(r);
    p.(writes := p.writes + [EncodeAscii(ToHexString(|body|))] + [CRLF] + [body] + [CRLF])
  }

  /** `end`: unless closed, the head if pending and then the last chunk. */
  function EndOf(r: Response): (q: Response)
    ensures q == r.(headers := q.headers, headersWritten := q.headersWritten, writes := q.writes)
  {
    if r.closed then r
    else
      var p := WriteHeadOf(r);
      p.(writes := p.writes + [LastChunk])
  }

  class HttpResponse {
    var status: int
    var message: string
    var headersWritten: bool
    var closed: bool
    var headers: Fields
    var writes: seq<seq<byte>>

    function State(): Response
      reads this
    {
      Response(status, message, headersWritten, closed, headers, writes)
    }

    /** A new response: 200 "OK", no headers, nothing written. */
    constructor()
      ensures State() == Response(200, "OK", false, false, [], [])
    {
      status, message := 200, "OK";
      headersWritten, closed := false, false;
      headers, writes := [], [];
    }

    method SetStatus(code: int, msg: string)
      modifies this`status, this`message
      ensures status == code && message == msg
    {
      status, message := code, msg;
    }

    method SetContentType(t: string)
      modifies this`headers
      ensures headers == Put(old(headers), "content-type", t)
    {
      headers := Put(headers, "content-type", t);
    }

    /** The name is stored as given, not lower-cased. */
    method AddHeader(name: string, value: string)
      modifies this`headers
      ensures headers == Put(old(headers), name, value)
    {
      headers := Put(headers, name, value);
    }

    method WriteHead()
      modifies this`headers, this`headersWritten, this`writes
      ensures State() == WriteHeadOf(old(State()))
    {
      ghost var s0 := State();
      if !headersWritten {
        headers := HeadersAtHead(headers);
        var bytes := EncodeAscii(StatusLine(status, message)) + CRLF;
        bytes := HeadBytesOf(bytes, headers);
        writes := writes + [bytes];
        headersWritten := true;
        HeadStep(s0, headers, bytes);
      }
    }

    method Write(body: seq<byte>)
      modifies this`headers, this`headersWritten, this`writes
      ensures State() == WriteOf(old(State()), body)
    {
      WriteHead();
      var size := EncodeAscii(ToHexString(|body|));
      writes := writes + [size];
      writes := writes + [CRLF];
      writes := writes + [body];
      writes := writes + [CRLF];
    }

    method End()
      modifies this`headers, this`headersWritten, this`writes
      ensures State() == EndOf(old(State()))
    {
      if closed {
        return;
      }
      WriteHead();
      writes := writes + [LastChunk];
    }
  }

  lemma HeadStep(r: Response, h: Fields, bytes: seq<byte>)
    requires !r.headersWritten && h == HeadersAtHead(r.headers)
    requires bytes == EncodeAscii(StatusLine(r.status, r.message)) + CRLF + Serializer.HeaderSection(h) + CRLF
    ensures WriteHeadOf(r) == r.(headers := h, headersWritten := true, writes := r.writes + [bytes])
  {
  }

  /** The head's header lines and empty line after the status line `line`. */
  method HeadBytesOf(line: seq<byte>, h: Fields) returns (bytes: seq<byte>)
    ensures bytes == line + Serializer.HeaderSection(h) + CRLF
  {
    var section := Serializer.SerializeHeaders(h);
    bytes := line + section + CRLF;
  }

  // ---------------------------------------------------------------------------------------
  // Properties

  function WriteAll(r: Response, ds: seq<seq<byte>>): Response
    decreases |ds|
  {
    if ds == [] then r else WriteAll(WriteOf(r, ds[0]), ds[1..])
  }

  lemma FlatSnoc(ws: seq<seq<byte>>, w: seq<byte>)
    ensures Flat(ws + [w]) == Flat(ws) + w
  {
    assert (ws + [w])[..|ws|] == ws;
  }

  /** The head goes out once, and only before anything else. */
  lemma HeadOutput(r: Response)
    ensures Flat(WriteHeadOf(r).writes) == Flat(r.writes) + if r.headersWritten then [] else HeadBytes(r.status, r.message, HeadersAtHead(r.headers))
  {
    if !r.headersWritten {
      FlatSnoc(r.writes, HeadBytes(r.status, r.message, HeadersAtHead(r.headers)));
    } else {
      assert Flat(r.writes) + [] == Flat(r.writes);
    }
  }

  /** The four channel writes of `write` put one chunk on the wire. */
  lemma WriteOutput(r: Response, body: seq<byte>)
    ensures Flat(WriteOf(r, body).writes) == Flat(WriteHeadOf(r).writes) + ChunkFrame(body)
  {
    var p := WriteHeadOf(r).writes;
    var size := EncodeAscii(ToHexString(|body|));
    FlatSnoc(p, size);
    FlatSnoc(p + [size], CRLF);
    FlatSnoc(p + [size] + [CRLF], body);
    FlatSnoc(p + [size] + [CRLF] + [body], CRLF);
    FrameParts(Flat(p), size, body);
  }

  lemma FrameParts(f: seq<byte>, size: seq<byte>, body: seq<byte>)
    ensures f + size + CRLF + body + CRLF == f + (size + CRLF + body + CRLF)
  {
  }

  /** After the head, each write adds its chunk frame. */
  lemma {:induction false} LaterWrites(r: Response, ds: seq<seq<byte>>)
    requires r.headersWritten
    ensures var q := WriteAll(r, ds);
      q == r.(writes := q.writes) && Flat(q.writes) == Flat(r.writes) + SerializerProperties.Frames(true, ds)
    decreases |ds|
  {
    if ds != [] {
      var r1 := WriteOf(r, ds[0]);
      WriteOutput(r, ds[0]);
      assert WriteHeadOf(r) == r;
      LaterWrites(r1, ds[1..]);
      var q := WriteAll(r1, ds[1..]);
      assert WriteAll(r, ds) == q;
      assert SerializerProperties.Frames(true, ds) == ChunkFrame(ds[0]) + SerializerProperties.Frames(true, ds[1..]);
      AppendAssociates(Flat(r.writes), ChunkFrame(ds[0]), SerializerProperties.Frames(true, ds[1..]));
    }
  }

  /** A response written with `ds` and ended puts on the wire its head (with the framing header
      unless "content-length" is set) and then a chunked body, whatever the headers: a
      content-length header removes only the transfer-encoding header, not the chunking. */
  lemma ResponseOutput(r: Response, ds: seq<seq<byte>>)
    requires !r.headersWritten && !r.closed
    ensures Flat(EndOf(WriteAll(r, ds)).writes) ==
      Flat(r.writes) + HeadBytes(r.status, r.message, HeadersAtHead(r.headers)) + ChunkedBody(ds)
  {
    var r1 := WriteHeadOf(r);
    HeadOutput(r);
    AllWritesWriteHead(r, ds);
    LaterWrites(r1, ds);
    var q := WriteAll(r1, ds);
    LastChunkOutput(q);
    SerializerProperties.ChunkFrames(ds);
    Concatenate(Flat(r.writes), HeadBytes(r.status, r.message, HeadersAtHead(r.headers)),
      SerializerProperties.Frames(true, ds), Flat(r1.writes), Flat(q.writes), Flat(EndOf(q).writes));
  }

  /** On a response whose head is out, `end` adds the last chunk and nothing else. */
  lemma LastChunkOutput(q: Response)
    requires q.headersWritten && !q.closed
    ensures Flat(EndOf(q).writes) == Flat(q.writes) + LastChunk
  {
    assert EndOf(q).writes == q.writes + [LastChunk];
    FlatSnoc(q.writes, LastChunk);
  }

  lemma Concatenate(f: seq<byte>, head: seq<byte>, frames: seq<byte>, a: seq<byte>, b: seq<byte>, c: seq<byte>)
    requires a == f + head && b == a + frames && c == b + LastChunk
    ensures c == f + head + (frames + LastChunk)
  {
  }

  /** Writing first settles the head exactly as `writeHead` does. */
  lemma AllWritesWriteHead(r: Response, ds: seq<seq<byte>>)
    requires !r.closed
    ensures EndOf(WriteAll(r, ds)) == EndOf(WriteAll(WriteHeadOf(r), ds))
  {
    if ds != [] {
      assert WriteHeadOf(WriteHeadOf(r)) == WriteHeadOf(r);
      assert WriteOf(r, ds[0]) == WriteOf(WriteHeadOf(r), ds[0]);
      assert WriteAll(r, ds) == WriteAll(WriteOf(r, ds[0]), ds[1..]);
      assert WriteAll(WriteHeadOf(r), ds) == WriteAll(WriteOf(WriteHeadOf(r), ds[0]), ds[1..]);
    } else {
      assert WriteHeadOf(WriteHeadOf(r)) == WriteHeadOf(r);
    }
  }
  /** `closed` is never set, so a second `end` writes the last chunk once more. */
  lemma EndTwice(r: Response)
    requires !r.closed
    ensures !EndOf(r).closed && EndOf(r).headersWritten
    ensures EndOf(EndOf(r)).writes == EndOf(r).writes + [LastChunk]
  {
    var e := EndOf(r);
    assert WriteHeadOf(e) == e;
  }

  /** The framing header: with a header named exactly "content-length" the headers stay as they
      are; otherwise "Transfer-Encoding" is set to "chunked" and every other name keeps its value. */
  lemma FramingHeader(h: Fields, other: string)
    ensures "content-length" in Keys(h) ==> HeadersAtHead(h) == h
    ensures "content-length" !in Keys(h) ==> Get(HeadersAtHead(h), "Transfer-Encoding") == Some("chunked")
    ensures "content-length" !in Keys(h) && other != "Transfer-Encoding" ==> Get(HeadersAtHead(h), other) == Get(h, other)
  {
    PutGet(h, "Transfer-Encoding", "chunked", other);
  }

  /** The test is case-sensitive and `addHeader` keeps the name as given: a "Content-Length"
      header does not stop the chunked framing header from being added. */
  lemma CapitalisedLengthStillChunked(value: string)
    ensures HeadersAtHead([("Content-Length", value)]) ==
      [("Content-Length", value), ("Transfer-Encoding", "chunked")]
  {
    var h := [("Content-Length", value)];
    assert Keys(h) == ["Content-Length"];
    assert "content-length" != "Content-Length";
    PutNew(h, "Transfer-Encoding", "chunked");
  }

  /** The status line, its trailing space included, is read back by the response parser as the
      version "HTTP/1.1", the code and the message. */
  lemma StatusLineParses(status: int, message: string)
    requires INT_MIN <= status <= INT_MAX && IsPhrase(message)
    ensures ParseResponseLine(StatusLine(status, message) + "\r\n") == Parsed(ResponseLine("HTTP/1.1", status, message))
  {
    var line := ResponseLine("HTTP/1.1", status, message);
    var wire := line.WireForm();
    assert IsToken("HTTP/1.1") by { VersionIsToken(); }
    assert StatusLine(status, message) + "\r\n" == wire + " \r\n" by {
      StatusLineLayout(IntToString(status), message);
    }
    assert ParseResponseLine(wire + " \r\n") == ParseResponseLine(wire + "\r\n") by {
      TrailingWhitespace(wire);
    }
    ResponseLineRoundTrip(line);
  }

  lemma VersionIsToken()
    ensures IsToken("HTTP/1.1")
  {
  }

  lemma StatusLineLayout(code: string, message: string)
    ensures "HTTP/1.1" + " " + code + " " + message + " " + "\r\n" == ("HTTP/1.1" + " " + code + " " + message) + " \r\n"
  {
  }

  lemma TrailingWhitespace(s: string)
    ensures ParseResponseLine(s + " \r\n") == ParseResponseLine(s + "\r\n")
  {
    assert AllWhitespace(" \r\n") && AllWhitespace("\r\n");
    SplitInitialLineExtended(s, " \r\n");
    SplitInitialLineExtended(s, "\r\n");
  }
}
