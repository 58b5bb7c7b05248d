/** The blocking request reader of the asynchronous server (`aio/HttpRequest.java`): it reads the
    request line and the header block byte by byte when the request is created, keeps the headers
    in a single-valued map in arrival order, and reads the body on demand, chunk by chunk. The
    connection is the byte sequence `input`, all of it already received. */
module AioRequest {
  import opened Text
  import opened HttpText
  import opened HeaderMaps

  /** `(char)` applied to a Java `byte` (-128..127): sign extension to 16 bits, so the bytes
      0x80..0xFF become U+FF80..U+FFFF and the end-of-input marker -1 becomes U+FFFF. */
  function JavaChar(b: int): (c: char)
    requires -128 <= b < 128
    ensures b >= 0 ==> c as int == b
    ensures b < 0 ==> c as int >= 0xFF80
  {
    if b >= 0 then b as char else (b + 0x1_0000) as char
  }

  /** Java's `byte` value of an octet. */
  function SignedByte(b: byte): (r: int)
    ensures -128 <= r < 128
    ensures b < 128 ==> r == b
    ensures b >= 128 ==> r < 0
  {
    if b < 128 then b else b - 256
  }

  // ---------------------------------------------------------------------------------------
  // Lines

  /** `readLine` from index `i`: the characters before CR LF, a lone LF, a 0xFF octet (which reads
      as -1) or the end of input, and the index after what was consumed. A CR followed by anything
      but LF is dropped together with that octet. */
  function LineFrom(input: seq<byte>, i: nat): (r: (string, nat))
    requires i <= |input|
    ensures i <= r.1 <= |input|
    ensures i < |input| ==> i < r.1
    ensures forall k :: 0 <= k < |r.0| ==> r.0[k] != '\r' && r.0[k] != '\n'
    decreases |input| - i
  {
    if i == |input| then ([], i)
    else if input[i] == CR then
      if i + 1 < |input| && input[i + 1] == LF then ([], i + 2)
      else LineFrom(input, if i + 1 < |input| then i + 2 else i + 1)
    else if input[i] == LF || input[i] == 255 then ([], i + 1)
    else
      var (rest, end) := LineFrom(input, i + 1);
      ([JavaChar(SignedByte(input[i]))] + rest, end)
  }

  /** `readHeader` from index `i`: the characters before CR LF or a lone LF, and the index after the
      terminator. The octet after a CR that is not LF is kept, whatever it is. `None` when the end
      of input comes first: the source then appends U+FFFF forever and never returns. */
  function HeaderLineFrom(input: seq<byte>, i: nat): (r: Option<(string, nat)>)
    requires i <= |input|
    ensures r.Some? ==> i < r.value.1 <= |input|
    decreases |input| - i
  {
    if i == |input| then None
    else if input[i] == CR then
      if i + 1 == |input| then None
      else if input[i + 1] == LF then Some(([], i + 2))
      else Prepended([JavaChar(SignedByte(input[i + 1]))], HeaderLineFrom(input, i + 2))
    else if input[i] == LF then Some(([], i + 1))
    else Prepended([JavaChar(SignedByte(input[i]))], HeaderLineFrom(input, i + 1))
  }

  // ---------------------------------------------------------------------------------------
  // The header block

  /** The pending header of `readHeaders`: `name` and `value` once a header line was split. */
  function Flush(h: Fields, cur: Option<HeaderField>): Fields
  {
    match cur
    case None => h
    case Some(f) => Put(h, ToLower(f.name), f.value)
  }

  /** One non-empty header line: a line starting with a space or a tab continues the pending header
      (obs-fold), its value growing by a space and the trimmed line; any other line stores the
      pending header and is split into the next one. */
  function Absorb(cur: Option<HeaderField>, h: Fields, line: string): (r: (Option<HeaderField>, Fields))
    requires line != []
    ensures r.0.Some?
  {
    if cur.Some? && (line[0] == ' ' || line[0] == '\t') then
      (Some(HeaderField(cur.value.name, cur.value.value + " " + Trim(line))), h)
    else
      (Some(SplitHeader(line)), Flush(h, cur))
  }

  /** The headers a sequence of non-empty header lines leaves, the pending one stored at the end:
      the reference reading of a header block, line by line. */
  function FoldLines(lines: seq<string>, cur: Option<HeaderField>, h: Fields): Fields
    requires forall i :: 0 <= i < |lines| ==> lines[i] != []
  {
    if lines == [] then Flush(h, cur)
    else
      var (cur', h') := Absorb(cur, h, lines[0]);
      FoldLines(lines[1..], cur', h')
  }

  /** `readHeaders` from index `i`: header lines up to the first empty one, folded into `h`, and
      the index after the empty line; `None` when the input ends first. */
  function HeadersFrom(input: seq<byte>, i: nat, cur: Option<HeaderField>, h: Fields): Option<(Fields, nat)>
    requires i <= |input|
    decreases |input| - i
  {
    match HeaderLineFrom(input, i)
    case None => None
    case Some((line, j)) =>
      if line == [] then Some((Flush(h, cur), j))
      else
        var (cur', h') := Absorb(cur, h, line);
        HeadersFrom(input, j, cur', h')
  }

  // ---------------------------------------------------------------------------------------
  // Body framing

  /** `isChunked`: the transfer-encoding value is exactly "chunked". */
  predicate IsChunkedRequest(h: Fields)
  {
    Get(h, "transfer-encoding") == Some("chunked")
  }

  /** `getContentLength`: the content-length value as a decimal integer, else -1. */
  function RequestContentLength(h: Fields): int
  {
    match Get(h, "content-length")
    case None => -1
    case Some(v) =>
      match ParseInt(v, 10)
      case Some(n) => n
      case None => -1
  }

  /** A content length written in decimal reads back, a missing one reads as -1, and only the
      coding "chunked" marks the body as chunked. */
  lemma FramingOfWritten(h: Fields, n: int, coding: string)
    requires INT_MIN <= n <= INT_MAX
    ensures Get(h, "content-length") == None ==> RequestContentLength(h) == -1
    ensures Get(h, "content-length") == Some(IntToString(n)) ==> RequestContentLength(h) == n
    ensures Get(h, "transfer-encoding") == Some(coding) ==> (IsChunkedRequest(h) <==> coding == "chunked")
  {
    DecimalRoundTrip(n);
  }

  /** What the body reader hands to the application, in order. */
  datatype Notice =
    | Completed(data: seq<byte>, count: int)         // handler.completed(stream, count)
    | BodyReadIssued(buffered: seq<byte>, capacity: int)  // a channel read for a fixed-length body
    | ChunkReadIssued(buffered: seq<byte>, size: int)     // a channel read for the rest of a chunk
    | SizeUnreadable                                   // getChunkSize threw NumberFormatException

  /** `readChunk` from index `i`: the notices the chunks from there give, and where reading stops.
      A zero size completes the body (the trailers are not read); a size that fits in the bytes
      at hand is delivered with that size as count (a negative size delivers nothing), the rest of
      the line after the data is skipped and the next chunk read; a larger size issues a channel
      read with the bytes at hand. */
  function ChunksFrom(input: seq<byte>, i: nat): (r: (seq<Notice>, nat))
    requires i <= |input|
    ensures i <= r.1 <= |input|
    decreases |input| - i
  {
    var (line, j) := LineFrom(input, i);
    match ChunkSize(line)
    case None => ([SizeUnreadable], j)
    case Some(size) =>
      if size == 0 then ([Completed([], 0)], j)
      else if size <= |input| - j then
        var dataEnd := if size > 0 then j + size else j;
        var (_, k) := LineFrom(input, dataEnd);
        var (rest, end) := ChunksFrom(input, k);
        ([Completed(input[j..dataEnd], size)] + rest, end)
      else ([ChunkReadIssued(input[j..], size)], |input|)
  }

  // ---------------------------------------------------------------------------------------
  // The request

  class HttpRequest {
    const input: seq<byte>
    var pos: nat
    var version: string
    var httpMethod: string
    var requestUri: string
    var headers: Fields
    var headerSize: nat
    /** Set where the source would keep reading past the end of input forever. */
    var stalled: bool
    /** What the registered body handler was told, in order. */
    var notices: seq<Notice>

    /** Reads the request line and the header block; the body is read on demand. */
    constructor (input: seq<byte>)
      ensures this.input == input && notices == []
      ensures var (line, p) := LineFrom(input, 0);
        var parts := SplitInitialLine(line);
        httpMethod == parts.first && requestUri == parts.second && version == parts.rest &&
        match HeadersFrom(input, p, None, [])
        case None => stalled && pos == |input|
        case Some((h, e)) => !stalled && headers == h && pos == e && headerSize == e - p
    {
      this.input := input;
      pos := 0;
      version := "1.1";
      httpMethod := "";
      requestUri := "";
      headers := [];
      headerSize := 0;
      stalled := false;
      notices := [];
      new;
      ReadRequestLine();
      ReadHeaders();
    }

    /** `read`: the next octet as a Java byte, or -1 (and no progress) at the end of input. */
    method Read() returns (b: int)
      requires pos <= |input|
      modifies this`pos
      ensures old(pos) < |input| ==> b == SignedByte(input[old(pos)]) && pos == old(pos) + 1
      ensures old(pos) == |input| ==> b == -1 && pos == old(pos)
    {
      if pos < |input| {
        b := SignedByte(input[pos]);
        pos := pos + 1;
      } else {
        b := -1;
      }
    }

    method ReadLine() returns (line: string)
      requires pos <= |input|
      modifies this`pos
      ensures (line, pos) == LineFrom(input, old(pos))
    {
      var sb := "";
      assert sb + LineFrom(input, pos).0 == LineFrom(input, pos).0;
      while true
        invariant pos <= |input|
        invariant LineFrom(input, old(pos)) == (sb + LineFrom(input, pos).0, LineFrom(input, pos).1)
        decreases |input| - pos
      {
        ghost var p := pos;
        var b := Read();
        if b == 13 {
          b := Read();
          if b == 10 {
            assert LineFrom(input, p) == ([], pos) && sb + [] == sb;
            return sb;
          }
        } else if b == 10 {
          assert LineFrom(input, p) == ([], pos) && sb + [] == sb;
          return sb;
        } else if b == -1 {
          assert LineFrom(input, p) == ([], pos) && sb + [] == sb;
          return sb;
        } else {
          var c := JavaChar(b);
          assert LineFrom(input, p).0 == [c] + LineFrom(input, pos).0;
          AppendAssociates(sb, [c], LineFrom(input, pos).0);
          sb := sb + [c];
        }
      }
    }

    /** `readHeader`, counting every octet read in `headerSize`. */
    method ReadHeader() returns (line: Option<string>)
      requires pos <= |input|
      modifies this`pos, this`headerSize
      ensures match HeaderLineFrom(input, old(pos))
        case None => line.None? && pos == |input| && headerSize >= old(headerSize)
        case Some((s, e)) => line == Some(s) && pos == e && headerSize == old(headerSize) + (e - old(pos))
    {
      var sb := "";
      assert Prepended(sb, HeaderLineFrom(input, pos)) == HeaderLineFrom(input, pos) by {
        if HeaderLineFrom(input, pos).Some? {
          assert sb + HeaderLineFrom(input, pos).value.0 == HeaderLineFrom(input, pos).value.0;
        }
      }
      while true
        invariant old(pos) <= pos <= |input|
        invariant HeaderLineFrom(input, old(pos)) == Prepended(sb, HeaderLineFrom(input, pos))
        invariant headerSize == old(headerSize) + (pos - old(pos))
        decreases |input| - pos
      {
        if pos == |input| {
          return None;
        }
        ghost var p := pos;
        var b := Read();
        headerSize := headerSize + 1;
        var c := JavaChar(b);
        if c == '\r' {
          if pos == |input| {
            return None;
          }
          b := Read();
          headerSize := headerSize + 1;
          c := JavaChar(b);
          if c == '\n' {
            assert HeaderLineFrom(input, p) == Some(([], pos)) && sb + [] == sb;
            return Some(sb);
          }
        } else if c == '\n' {
          assert HeaderLineFrom(input, p) == Some(([], pos)) && sb + [] == sb;
          return Some(sb);
        }
        assert HeaderLineFrom(input, p) == Prepended([c], HeaderLineFrom(input, pos));
        PrependedTwice(sb, c, HeaderLineFrom(input, pos));
        sb := sb + [c];
      }
    }

    method ReadHeaders()
      requires pos <= |input|
      modifies this`pos, this`headerSize, this`headers, this`stalled
      ensures match HeadersFrom(input, old(pos), None, old(headers))
        case None => stalled && pos == |input|
        case Some((h, e)) =>
          headers == h && pos == e && stalled == old(stalled) && headerSize == old(headerSize) + (e - old(pos))
    {
      var cur: Option<HeaderField> := None;
      while true
        invariant old(pos) <= pos <= |input| && stalled == old(stalled)
        invariant HeadersFrom(input, old(pos), None, old(headers)) == HeadersFrom(input, pos, cur, headers)
        invariant headerSize == old(headerSize) + (pos - old(pos))
        decreases |input| - pos
      {
        var line := ReadHeader();
        if line.None? {
          stalled := true;
          return;
        }
        var l := line.value;
        if l == [] {
          if cur.Some? {
            headers := Put(headers, ToLower(cur.value.name), cur.value.value);
          }
          return;
        }
        if cur.Some? && (l[0] == ' ' || l[0] == '\t') {
          cur := Some(HeaderField(cur.value.name, cur.value.value + " " + Trim(l)));
        } else {
          if cur.Some? {
            headers := Put(headers, ToLower(cur.value.name), cur.value.value);
          }
          cur := Some(SplitHeader(l));
        }
      }
    }

    /** `readRequestLine`: the three parts of `splitInitialLine`, which always yields three. */
    method ReadRequestLine()
      requires pos <= |input|
      modifies this`pos, this`httpMethod, this`requestUri, this`version
      ensures var (line, e) := LineFrom(input, old(pos));
        var parts := SplitInitialLine(line);
        pos == e && httpMethod == parts.first && requestUri == parts.second && version == parts.rest
    {
      var firstLine := ReadLine();
      var initialLine := SplitInitialLine(firstLine);
      httpMethod := initialLine.first;
      requestUri := initialLine.second;
      version := initialLine.rest;
    }

    /** `onData`: a chunked body is read chunk by chunk; a positive content length issues one
        channel read holding the bytes at hand; any other body completes at once, empty. */
    method OnData()
      requires pos <= |input|
      modifies this`pos, this`notices
      ensures IsChunkedRequest(headers) ==>
        notices == old(notices) + ChunksFrom(input, old(pos)).0 && pos == ChunksFrom(input, old(pos)).1
      ensures !IsChunkedRequest(headers) && RequestContentLength(headers) > 0 ==>
        pos == old(pos) &&
        notices == old(notices) + [BodyReadIssued(input[pos..], Max(RequestContentLength(headers), |input| - pos))]
      ensures !IsChunkedRequest(headers) && RequestContentLength(headers) <= 0 ==>
        pos == old(pos) && notices == old(notices) + [Completed([], 0)]
    {
      var chunked := IsChunkedRequest(headers);
      var contentLength := RequestContentLength(headers);
      if chunked {
        ReadChunk();
      } else {
        if contentLength > 0 {
          notices := notices + [BodyReadIssued(input[pos..], Max(contentLength, |input| - pos))];
        } else {
          notices := notices + [Completed([], 0)];
        }
      }
    }

    /** Moves to the end of a delivered chunk, octet by octet, unless already there. */
    method SkipTo(end: nat)
      requires pos <= end <= |input|
      modifies this`pos
      ensures pos == end
    {
      while pos < end
        invariant pos <= end
        decreases end - pos
      {
        var _ := Read();
      }
    }

    /** Copies the octets at hand into a new buffer, consuming them. */
    method TakeRemaining() returns (buffered: seq<byte>)
      requires pos <= |input|
      modifies this`pos
      ensures buffered == input[old(pos)..] && pos == |input|
    {
      buffered := [];
      var remaining := |input| - pos;
      for n := 0 to remaining
        invariant pos == old(pos) + n
        invariant buffered == input[old(pos)..pos]
      {
        var b := Read();
        buffered := buffered + [input[pos - 1]];
      }
    }

    method ReadChunk()
      requires pos <= |input|
      modifies this`pos, this`notices
      ensures notices == old(notices) + ChunksFrom(input, old(pos)).0 && pos == ChunksFrom(input, old(pos)).1
      decreases |input| - pos
    {
      ghost var i := pos;
      var line := ReadLine();
      ghost var j := pos;
      var chunkSize := ChunkSize(line);
      ChunkEnds(input, i, line, j);
      if chunkSize.None? {
        notices := notices + [SizeUnreadable];
        return;
      }
      var size := chunkSize.value;
      if size == 0 {
        notices := notices + [Completed([], 0)];
      } else if size <= |input| - pos {
        var start := pos;
        var dataEnd := if size > 0 then start + size else start;
        ghost var before := notices;
        notices := notices + [Completed(input[start..dataEnd], size)];
        SkipTo(dataEnd);
        var _ := ReadLine();
        ghost var k := pos;
        ReadChunk();
        ChunkDelivered(input, i, line, j, size, dataEnd, k);
        AppendAssociates(before, [Completed(input[start..dataEnd], size)], ChunksFrom(input, k).0);
      } else {
        var buffered := TakeRemaining();
        notices := notices + [ChunkReadIssued(buffered, size)];
      }
    }
  }

  /** The chunk reads that stop: an unreadable size, the zero-size chunk, and a chunk larger than
      the bytes at hand. */
  lemma ChunkEnds(input: seq<byte>, i: nat, line: string, j: nat)
    requires i <= |input| && LineFrom(input, i) == (line, j)
    ensures ChunkSize(line).None? ==> ChunksFrom(input, i) == ([SizeUnreadable], j)
    ensures ChunkSize(line) == Some(0) ==> ChunksFrom(input, i) == ([Completed([], 0)], j)
    ensures ChunkSize(line).Some? && ChunkSize(line).value > |input| - j ==>
      ChunksFrom(input, i) == ([ChunkReadIssued(input[j..], ChunkSize(line).value)], |input|)
  {
  }

  /** A chunk that fits in the bytes at hand: delivered, then reading goes on after the line that
      follows its data. */
  lemma ChunkDelivered(input: seq<byte>, i: nat, line: string, j: nat, size: int, dataEnd: nat, k: nat)
    requires i <= |input| && LineFrom(input, i) == (line, j)
    requires ChunkSize(line) == Some(size) && size != 0 && size <= |input| - j
    requires dataEnd == if size > 0 then j + size else j
    requires LineFrom(input, dataEnd).1 == k
    ensures ChunksFrom(input, i) == ([Completed(input[j..dataEnd], size)] + ChunksFrom(input, k).0, ChunksFrom(input, k).1)
  {
  }

  function Max(a: int, b: int): int
  {
    if a >= b then a else b
  }

  function Prepended(sb: string, r: Option<(string, nat)>): Option<(string, nat)>
  {
    match r
    case None => None
    case Some((s, end)) => Some((sb + s, end))
  }

  lemma PrependedTwice(sb: string, c: char, r: Option<(string, nat)>)
    ensures Prepended(sb, Prepended([c], r)) == Prepended(sb + [c], r)
  {
    if r.Some? {
      AppendAssociates(sb, [c], r.value.0);
    }
  }

  // ---------------------------------------------------------------------------------------
  // Reading back what a sender writes

  /** `w` lies in `input` from index `i` on. */
  predicate WrittenAt(input: seq<byte>, i: nat, w: seq<byte>)
  {
    i <= |input| && |w| <= |input| - i && input[i..][..|w|] == w
  }

  lemma WrittenSplit(input: seq<byte>, i: nat, a: seq<byte>, b: seq<byte>)
    requires WrittenAt(input, i, a + b)
    ensures WrittenAt(input, i, a) && WrittenAt(input, i + |a|, b)
  {
    assert input[i..i + |a|] == (a + b)[..|a|];
    assert input[i + |a|..i + |a| + |b|] == (a + b)[|a|..];
  }

  lemma WrittenSlice(input: seq<byte>, i: nat, w: seq<byte>)
    requires WrittenAt(input, i, w)
    ensures i + |w| <= |input| && input[i..i + |w|] == w
  {
    assert input[i..i + |w|] == input[i..][..|w|];
  }

  lemma WrittenByte(input: seq<byte>, i: nat, b: byte)
    requires WrittenAt(input, i, [b])
    ensures i < |input| && input[i] == b
  {
    assert input[i..][..1][0] == input[i];
  }

  /** A line as a sender writes it: US-ASCII text without CR or LF. */
  predicate PlainLine(l: string)
  {
    IsAscii(l) && forall k :: 0 <= k < |l| ==> l[k] != '\r' && l[k] != '\n'
  }

  datatype Terminator = CrLf | Lf | EndOfInput

  /** Where a written line ends: CR LF, a lone LF, or the end of the input. */
  predicate TerminatedAt(input: seq<byte>, at: nat, t: Terminator)
  {
    match t
    case CrLf => WrittenAt(input, at, CRLF)
    case Lf => WrittenAt(input, at, [LF])
    case EndOfInput => at == |input|
  }

  function TerminatorLength(t: Terminator): nat
  {
    match t
    case CrLf => 2
    case Lf => 1
    case EndOfInput => 0
  }

  lemma TerminatorBytes(input: seq<byte>, at: nat, t: Terminator)
    requires TerminatedAt(input, at, t)
    ensures at + TerminatorLength(t) <= |input|
    ensures t == CrLf ==> input[at] == CR && input[at + 1] == LF
    ensures t == Lf ==> input[at] == LF
  {
    if t == CrLf {
      WrittenSplit(input, at, [CR], [LF]);
      WrittenByte(input, at, CR);
      WrittenByte(input, at + 1, LF);
    } else if t == Lf {
      WrittenByte(input, at, LF);
    }
  }

  /** The first character of a written line and the rest of it. */
  lemma WrittenFirst(input: seq<byte>, i: nat, l: string)
    requires l != [] && WrittenAt(input, i, EncodeAscii(l))
    ensures i < |input| && input[i] == AsciiByte(l[0]) && WrittenAt(input, i + 1, EncodeAscii(l[1..]))
  {
    WrittenSplit(input, i, [AsciiByte(l[0])], EncodeAscii(l[1..]));
    WrittenByte(input, i, AsciiByte(l[0]));
  }

  /** A written line is read back by `readLine`, without its terminator, which is consumed. */
  lemma {:induction false} LineOfWritten(input: seq<byte>, i: nat, l: string, t: Terminator)
    requires PlainLine(l) && WrittenAt(input, i, EncodeAscii(l)) && TerminatedAt(input, i + |l|, t)
    ensures LineFrom(input, i) == (l, i + |l| + TerminatorLength(t))
    decreases |l|
  {
    if l == [] {
      TerminatorBytes(input, i, t);
    } else {
      WrittenFirst(input, i, l);
      LineOfWritten(input, i + 1, l[1..], t);
      assert [l[0]] + l[1..] == l;
    }
  }

  /** A written header line is read back by `readHeader`; one that the input ends before
      terminating is never returned. */
  lemma {:induction false} HeaderLineOfWritten(input: seq<byte>, i: nat, l: string, t: Terminator)
    requires PlainLine(l) && WrittenAt(input, i, EncodeAscii(l)) && TerminatedAt(input, i + |l|, t)
    ensures t != EndOfInput ==> HeaderLineFrom(input, i) == Some((l, i + |l| + TerminatorLength(t)))
    ensures t == EndOfInput ==> HeaderLineFrom(input, i) == None
    decreases |l|
  {
    if l == [] {
      TerminatorBytes(input, i, t);
    } else {
      WrittenFirst(input, i, l);
      HeaderLineOfWritten(input, i + 1, l[1..], t);
      assert [l[0]] + l[1..] == l;
    }
  }

  /** A header block as a sender writes it: each line and CRLF, then an empty line. */
  function Block(lines: seq<string>): (r: seq<byte>)
  {
    if lines == [] then CRLF else EncodeAscii(lines[0]) + CRLF + Block(lines[1..])
  }

  /** `readHeaders` reads a written block of non-empty lines exactly as the line-by-line
      reference reading does, and stops right after the empty line. */
  lemma {:induction false} HeaderBlockOfWritten(input: seq<byte>, i: nat, lines: seq<string>, cur: Option<HeaderField>, h: Fields, end: nat)
    requires forall k :: 0 <= k < |lines| ==> lines[k] != [] && PlainLine(lines[k])
    requires WrittenAt(input, i, Block(lines)) && end == i + |Block(lines)|
    ensures HeadersFrom(input, i, cur, h) == Some((FoldLines(lines, cur, h), end))
    decreases |lines|
  {
    if lines == [] {
      assert |Block(lines)| == 2;
      HeaderLineOfWritten(input, i, [], CrLf);
      HeadersFromStep(input, i, cur, h, [], end);
      assert FoldLines(lines, cur, h) == Flush(h, cur);
    } else {
      var next := i + |lines[0]| + 2;
      var (c1, h1) := Absorb(cur, h, lines[0]);
      BlockStep(input, i, next, lines, cur, h);
      HeaderBlockOfWritten(input, next, lines[1..], c1, h1, end);
    }
  }

  lemma BlockStep(input: seq<byte>, i: nat, next: nat, lines: seq<string>, cur: Option<HeaderField>, h: Fields)
    requires forall k :: 0 <= k < |lines| ==> lines[k] != [] && PlainLine(lines[k])
    requires lines != [] && WrittenAt(input, i, Block(lines)) && next == i + |lines[0]| + 2
    ensures WrittenAt(input, next, Block(lines[1..])) && i + |Block(lines)| == next + |Block(lines[1..])|
    ensures HeadersFrom(input, i, cur, h) == HeadersFrom(input, next, Absorb(cur, h, lines[0]).0, Absorb(cur, h, lines[0]).1)
    ensures FoldLines(lines, cur, h) == FoldLines(lines[1..], Absorb(cur, h, lines[0]).0, Absorb(cur, h, lines[0]).1)
  {
    BlockLayout(input, i, lines, i + |lines[0]|, next);
    HeaderLineOfWritten(input, i, lines[0], CrLf);
    HeadersFromStep(input, i, cur, h, lines[0], next);
  }

  lemma HeadersFromStep(input: seq<byte>, i: nat, cur: Option<HeaderField>, h: Fields, line: string, j: nat)
    requires i <= |input| && HeaderLineFrom(input, i) == Some((line, j))
    ensures line == [] ==> HeadersFrom(input, i, cur, h) == Some((Flush(h, cur), j))
    ensures line != [] ==> HeadersFrom(input, i, cur, h) == HeadersFrom(input, j, Absorb(cur, h, line).0, Absorb(cur, h, line).1)
  {
  }

  lemma BlockLayout(input: seq<byte>, i: nat, lines: seq<string>, j: nat, k: nat)
    requires lines != [] && WrittenAt(input, i, Block(lines)) && j == i + |lines[0]| && k == j + 2
    ensures WrittenAt(input, i, EncodeAscii(lines[0])) && TerminatedAt(input, j, CrLf)
    ensures WrittenAt(input, k, Block(lines[1..])) && i + |Block(lines)| == k + |Block(lines[1..])|
  {
    var e, b := EncodeAscii(lines[0]), Block(lines[1..]);
    assert Block(lines) == e + CRLF + b;
    WrittenThree(input, i, e, CRLF, b, j, k);
  }

  lemma WrittenThree(input: seq<byte>, i: nat, a: seq<byte>, b: seq<byte>, c: seq<byte>, j: nat, k: nat)
    requires WrittenAt(input, i, a + b + c) && j == i + |a| && k == j + |b|
    ensures WrittenAt(input, i, a) && WrittenAt(input, j, b) && WrittenAt(input, k, c)
  {
    WrittenSplit(input, i, a + b, c);
    WrittenSplit(input, i, a, b);
  }

  /** An immediately empty line ends the block with no headers added. */
  lemma EmptyBlock(input: seq<byte>, i: nat, h: Fields, t: Terminator)
    requires t != EndOfInput && TerminatedAt(input, i, t)
    ensures HeadersFrom(input, i, None, h) == Some((h, i + TerminatorLength(t)))
  {
    HeaderLineOfWritten(input, i, [], t);
  }

  /** Every name `readHeaders` stores is lower case. */
  predicate LowerKeys(h: Fields)
  {
    forall k :: 0 <= k < |h| ==> ToLower(h[k].0) == h[k].0
  }

  lemma PutLowerKeys(h: Fields, name: string, value: string)
    requires LowerKeys(h)
    ensures LowerKeys(Put(h, ToLower(name), value))
  {
    PutKeys(h, ToLower(name), value);
    ToLowerIdempotent(name);
    var r := Put(h, ToLower(name), value);
    assert forall k :: 0 <= k < |r| ==> Keys(r)[k] == r[k].0;
    assert forall k :: 0 <= k < |h| ==> Keys(h)[k] == h[k].0;
  }

  lemma {:induction false} HeadersLowerCase(input: seq<byte>, i: nat, cur: Option<HeaderField>, h: Fields)
    requires i <= |input| && LowerKeys(h)
    ensures HeadersFrom(input, i, cur, h).Some? ==> LowerKeys(HeadersFrom(input, i, cur, h).value.0)
    decreases |input| - i
  {
    match HeaderLineFrom(input, i)
    case None =>
    case Some((line, j)) =>
      if cur.Some? {
        PutLowerKeys(h, cur.value.name, cur.value.value);
      }
      if line != [] {
        var (cur', h') := Absorb(cur, h, line);
        HeadersLowerCase(input, j, cur', h');
      }
  }

  /** The header line "name: value" as a sender writes it, without terminator. */
  function HeaderText(name: string, value: string): string
  {
    name + ": " + value
  }

  predicate IsName(name: string)
  {
    |name| > 0 && forall k :: 0 <= k < |name| ==> name[k] != ':' && !IsWhitespace(name[k])
  }

  lemma SplitHeaderText(name: string, value: string)
    requires IsName(name) && Trimmed(value)
    ensures SplitHeader(HeaderText(name, value)) == HeaderField(name, value)
    ensures HeaderText(name, value) != [] && HeaderText(name, value)[0] == name[0]
  {
    SplitHeaderOfWritten(name, value);
    SplitHeaderExtended(HeaderText(name, value), "\r\n");
  }

  /** A later header with the same name replaces the earlier value, in the earlier place. */
  lemma LaterHeaderOverwrites(name: string, v1: string, v2: string, h: Fields)
    requires IsName(name) && Trimmed(v1) && Trimmed(v2)
    ensures var r := FoldLines([HeaderText(name, v1), HeaderText(name, v2)], None, h);
      Get(r, ToLower(name)) == Some(v2) && Keys(r) == Keys(Put(h, ToLower(name), v1))
  {
    var h1 := Put(h, ToLower(name), v1);
    TwoHeaders(name, v1, v2, h);
    PutGet(h1, ToLower(name), v2, ToLower(name));
    PutKeys(h, ToLower(name), v1);
    PutKeys(h1, ToLower(name), v2);
  }

  lemma TwoHeaders(name: string, v1: string, v2: string, h: Fields)
    requires IsName(name) && Trimmed(v1) && Trimmed(v2)
    ensures FoldLines([HeaderText(name, v1), HeaderText(name, v2)], None, h) ==
      Put(Put(h, ToLower(name), v1), ToLower(name), v2)
  {
    var l1, l2 := HeaderText(name, v1), HeaderText(name, v2);
    SplitHeaderText(name, v1);
    SplitHeaderText(name, v2);
    FoldTwo(l1, l2, None, h);
  }

  /** Two lines are absorbed one after the other, then the header left open is stored. */
  lemma FoldTwo(l1: string, l2: string, cur: Option<HeaderField>, h: Fields)
    requires l1 != [] && l2 != []
    ensures var (c1, h1) := Absorb(cur, h, l1);
      var (c2, h2) := Absorb(c1, h1, l2);
      FoldLines([l1, l2], cur, h) == Flush(h2, c2)
  {
    var (c1, h1) := Absorb(cur, h, l1);
    assert [l1, l2][1..] == [l2];
    assert FoldLines([l1, l2], cur, h) == FoldLines([l2], c1, h1);
    var (c2, h2) := Absorb(c1, h1, l2);
    assert [l2][1..] == [];
    assert FoldLines([l2], c1, h1) == FoldLines([], c2, h2);
  }

  /** A line starting with a space or a tab continues the header before it: the value grows by one
      space and the trimmed line. */
  lemma ObsFoldJoins(name: string, v: string, sep: char, w: string, h: Fields)
    requires IsName(name) && Trimmed(v)
    requires sep == ' ' || sep == '\t'
    requires w != [] && w[0] > ' ' && w[|w| - 1] > ' '
    ensures FoldLines([HeaderText(name, v), [sep] + w], None, h) == Put(h, ToLower(name), v + " " + w)
  {
    var l1, l2 := HeaderText(name, v), [sep] + w;
    SplitHeaderText(name, v);
    assert [l1, l2][1..] == [l2];
    assert l2[1..] == w;
    assert TrimStart(l2) == TrimStart(w) == w;
    assert TrimEnd(w) == w;
    var f1 := Some(HeaderField(name, v));
    assert FoldLines([l1, l2], None, h) == FoldLines([l2], f1, h);
    assert Absorb(f1, h, l2) == (Some(HeaderField(name, v + " " + w)), h);
  }

  /** `getChunkSize` reads back the hexadecimal size `Integer.toHexString` writes. */
  lemma ChunkSizeOfHex(n: nat)
    requires n <= INT_MAX
    ensures ChunkSize(ToHexString(n)) == Some(n)
  {
    var hex := ToHexString(n);
    HexHasNoSeparators(n);
    TrimIdentity(hex);
    FirstExtStartAt(hex, 0, |hex|);
    assert hex[..|hex|] == hex;
    HexRoundTrip(n);
  }

  /** What the body handler is told for each chunk at hand: its data, and its size as count. */
  function Deliveries(chunks: seq<seq<byte>>): (r: seq<Notice>)
    ensures |r| == |chunks|
  {
    if chunks == [] then [] else [Completed(chunks[0], |chunks[0]|)] + Deliveries(chunks[1..])
  }

  /** A chunked body framed as the serializer frames it is delivered chunk by chunk, each with its
      size as count, then completed by the zero-size chunk, after whose size line reading stops
      (the trailer section is left unread). */
  lemma {:induction false} ChunkedBodyOfWritten(input: seq<byte>, i: nat, chunks: seq<seq<byte>>, end: nat)
    requires forall k :: 0 <= k < |chunks| ==> 0 < |chunks[k]| <= INT_MAX
    requires WrittenAt(input, i, ChunkedBody(chunks)) && end + 2 == i + |ChunkedBody(chunks)|
    ensures ChunksFrom(input, i) == (Deliveries(chunks) + [Completed([], 0)], end)
    decreases |chunks|
  {
    if chunks == [] {
      WrittenSplit(input, i, [48], CRLF);
      WrittenByte(input, i, 48);
      LastChunkLine(input, i);
      assert |ChunkedBody(chunks)| == 5;
      assert Deliveries(chunks) + [Completed([], 0)] == [Completed([], 0)];
    } else {
      var data, rest := chunks[0], chunks[1..];
      var next := i + |ChunkFrame(data)|;
      BodyParts(chunks);
      ChunkStep(input, i, data, ChunkedBody(rest), next);
      ChunkedBodyOfWritten(input, next, rest, end);
      AppendAssociates([Completed(data, |data|)], Deliveries(rest), [Completed([], 0)]);
    }
  }

  lemma BodyParts(chunks: seq<seq<byte>>)
    requires chunks != []
    ensures ChunkedBody(chunks) == ChunkFrame(chunks[0]) + ChunkedBody(chunks[1..])
    ensures |ChunkedBody(chunks)| == |ChunkFrame(chunks[0])| + |ChunkedBody(chunks[1..])|
    ensures Deliveries(chunks) == [Completed(chunks[0], |chunks[0]|)] + Deliveries(chunks[1..])
  {
  }

  /** One written chunk at hand: delivered with its size as count, reading going on after it. */
  lemma ChunkStep(input: seq<byte>, i: nat, data: seq<byte>, rest: seq<byte>, next: nat)
    requires 0 < |data| <= INT_MAX && WrittenAt(input, i, ChunkFrame(data) + rest)
    requires next == i + |ChunkFrame(data)|
    ensures WrittenAt(input, next, rest) && next <= |input|
    ensures ChunksFrom(input, i) == ([Completed(data, |data|)] + ChunksFrom(input, next).0, ChunksFrom(input, next).1)
  {
    var hex := ToHexString(|data|);
    var j := i + |hex| + 2;
    var dataEnd := j + |data|;
    ChunkLayout(input, i, data, rest, j, dataEnd, next);
    ChunkSizeOfHex(|data|);
    ChunkDelivered(input, i, hex, j, |data|, dataEnd, next);
  }

  /** Where the parts of a written chunk frame are read: its size line, its data and the line
      after the data. */
  lemma ChunkLayout(input: seq<byte>, i: nat, data: seq<byte>, rest: seq<byte>, j: nat, dataEnd: nat, next: nat)
    requires 0 < |data| && WrittenAt(input, i, ChunkFrame(data) + rest)
    requires j == i + |ToHexString(|data|)| + 2 && dataEnd == j + |data| && next == dataEnd + 2
    ensures WrittenAt(input, next, rest) && dataEnd <= |input| && next <= |input|
    ensures LineFrom(input, i) == (ToHexString(|data|), j)
    ensures input[j..dataEnd] == data
    ensures LineFrom(input, dataEnd).1 == next
  {
    assert WrittenAt(input, next, rest) && next <= |input| && input[j..dataEnd] == data by {
      FrameOf(input, i, data, rest, j, dataEnd, next);
      WrittenSlice(input, j, data);
      TerminatorBytes(input, dataEnd, CrLf);
    }
    assert LineFrom(input, i) == (ToHexString(|data|), j) by {
      FrameOf(input, i, data, rest, j, dataEnd, next);
      HexLine(input, i, |data|);
    }
    assert LineFrom(input, dataEnd).1 == next by {
      FrameOf(input, i, data, rest, j, dataEnd, next);
      LineOfWritten(input, dataEnd, [], CrLf);
    }
  }

  lemma FrameOf(input: seq<byte>, i: nat, data: seq<byte>, rest: seq<byte>, j: nat, dataEnd: nat, next: nat)
    requires WrittenAt(input, i, ChunkFrame(data) + rest)
    requires j == i + |ToHexString(|data|)| + 2 && dataEnd == j + |data| && next == dataEnd + 2
    ensures WrittenAt(input, i, EncodeAscii(ToHexString(|data|))) && TerminatedAt(input, j - 2, CrLf)
    ensures WrittenAt(input, j, data) && TerminatedAt(input, dataEnd, CrLf) && WrittenAt(input, next, rest)
  {
    var hex := ToHexString(|data|);
    var e := EncodeAscii(hex);
    assert ChunkFrame(data) + rest == e + CRLF + data + CRLF + rest;
    FrameParts(input, i, e, data, rest, i + |hex|, j, dataEnd, next);
  }

  lemma LastChunkLine(input: seq<byte>, i: nat)
    requires i < |input| && input[i] == 48 && TerminatedAt(input, i + 1, CrLf)
    ensures ChunksFrom(input, i) == ([Completed([], 0)], i + 3)
  {
    assert LineFrom(input, i) == ("0", i + 3) by {
      assert EncodeAscii("0") == [48];
      assert input[i..][..1] == [48];
      LineOfWritten(input, i, "0", CrLf);
    }
    assert ChunkSize("0") == Some(0) by {
      ChunkSizeOfHex(0);
      assert ToHexString(0) == "0";
    }
  }

  lemma HexLine(input: seq<byte>, i: nat, n: nat)
    requires WrittenAt(input, i, EncodeAscii(ToHexString(n))) && TerminatedAt(input, i + |ToHexString(n)|, CrLf)
    ensures LineFrom(input, i) == (ToHexString(n), i + |ToHexString(n)| + 2)
  {
    HexHasNoSeparators(n);
    LineOfWritten(input, i, ToHexString(n), CrLf);
  }

  /** The parts of a written chunk frame and what follows it, at the positions they occupy. */
  lemma FrameParts(input: seq<byte>, i: nat, e: seq<byte>, data: seq<byte>, rest: seq<byte>, p1: nat, p2: nat, p3: nat, p4: nat)
    requires WrittenAt(input, i, e + CRLF + data + CRLF + rest)
    requires p1 == i + |e| && p2 == p1 + 2 && p3 == p2 + |data| && p4 == p3 + 2
    ensures WrittenAt(input, i, e) && TerminatedAt(input, p1, CrLf) && WrittenAt(input, p2, data)
    ensures TerminatedAt(input, p3, CrLf) && WrittenAt(input, p4, rest)
  {
    WrittenSplit(input, i, e + CRLF + data + CRLF, rest);
    WrittenSplit(input, i, e + CRLF + data, CRLF);
    WrittenSplit(input, i, e + CRLF, data);
    WrittenSplit(input, i, e, CRLF);
  }

  /** The request line as a client writes it, three parts and CRLF, is read back into the method,
      the request URI and the version. */
  lemma RequestLineOfWritten(input: seq<byte>, m: string, u: string, v: string)
    requires |m| > 0 && NoWhitespace(m) && |u| > 0 && NoWhitespace(u) && |v| > 0 && NoWhitespace(v)
    requires PlainLine(m + " " + u + " " + v)
    requires WrittenAt(input, 0, EncodeAscii(m + " " + u + " " + v)) && TerminatedAt(input, |m| + |u| + |v| + 2, CrLf)
    ensures LineFrom(input, 0).0 == m + " " + u + " " + v
    ensures SplitInitialLine(LineFrom(input, 0).0) == InitialLine(m, u, v)
  {
    var l := m + " " + u + " " + v;
    assert |l| == |m| + |u| + |v| + 2;
    LineOfWritten(input, 0, l, CrLf);
    SplitRequestLine(m, u, v, l);
  }

  lemma SplitRequestLine(m: string, u: string, v: string, l: string)
    requires |m| > 0 && NoWhitespace(m) && |u| > 0 && NoWhitespace(u) && |v| > 0 && NoWhitespace(v)
    requires l == m + " " + u + " " + v
    ensures SplitInitialLine(l) == InitialLine(m, u, v)
  {
    SplitInitialLineOfWritten(m, u, v);
    SplitInitialLineExtended(l, "\r\n");
  }
}
