/** The event-driven HTTP/1.1 parser shared by the request and response parsers
    (`parser/HttpParser.java` with `RequestParser.java` and `ResponseParser.java`).

    The bytes of the connection are one buffer that is already filled: nothing arrives after it,
    and a read that would wait for more never completes, so the callback waiting on it never runs
    while the callers it returns to carry on. The parser is described twice: as a
    specification, a function from the buffer to the ordered list of events the registered
    handlers receive, and as the class `HttpParser`, whose methods consume the buffer byte by byte
    as the source does and are proved to produce exactly those events.

    The source drives parsing through callbacks that call each other synchronously: a handler's
    `failed` may start a continuation and its `completed` another, and the first runs to its end
    before the second starts. The list `pending` of modes still to run is that call stack,
    innermost first. */
module HttpParsing {
  import opened Text
  import opened HttpText
  import opened StartLines

  const MAX_INITIAL_LINE_LENGTH: nat := 8192
  const MAX_HEADER_LINE_SIZE: nat := 2048
  const MAX_CHUNK_SIZE: nat := 8192

  /** Which subclass drives the parser: `RequestParser` or `ResponseParser`. */
  datatype Kind = Requests | Responses

  /** Why a handler's `failed` was called. */
  datatype Reason = TooLong(limit: nat) | Rejected(error: LineError) | ChunkTooLarge

  /** What the registered handlers receive, in order. `Closed` is `shutdown()`. */
  datatype Event =
    | StartLineFailed(reason: Reason)
    | RequestLineParsed(request: RequestLine)
    | ResponseLineParsed(response: ResponseLine)
    | HeadersParsed(headers: Headers)
    | HeadersFailed(reason: Reason)
    | DataParsed(bytes: seq<byte>)
    | DataFailed(reason: Reason)
    | TrailersParsed(trailers: Headers)
    | TrailersFailed(reason: Reason)
    | Closed

  /** A parsing step still to run. All but `Body` (`findData`) and `Trailers` (`findTrailers`)
      first read a line: the start line, a header or trailer line (with the folded lines held so
      far), a chunk-size line, the line after a chunk's data, the line after a fixed-length body. */
  datatype Mode =
    | StartLine
    | HeaderBlock(trailers: bool, held: seq<string>)
    | Body
    | ChunkSizeLine
    | ChunkEnd
    | BodyEnd
    | Trailers

  /** Position in the buffer, the `headers` field, and the modes still to run. */
  datatype State = State(pos: nat, headers: Headers, pending: seq<Mode>)

  datatype Outcome = Outcome(events: seq<Event>, next: State)

  predicate ReadsLine(m: Mode)
  {
    !m.Body? && !m.Trailers?
  }

  /** The line-length limit each line is read with. */
  function Limit(m: Mode): nat
  {
    if m.StartLine? then MAX_INITIAL_LINE_LENGTH else MAX_HEADER_LINE_SIZE
  }

  function ModeWeight(m: Mode): nat
  {
    match m
    case Body => 3
    case Trailers => 2
    case _ => 1
  }

  function Weight(ms: seq<Mode>): nat
  {
    if ms == [] then 0 else ModeWeight(ms[0]) + Weight(ms[1..])
  }

  lemma {:induction false} WeightAppend(a: seq<Mode>, b: seq<Mode>)
    ensures Weight(a + b) == Weight(a) + Weight(b)
  {
    if a == [] {
      assert a + b == b;
    } else {
      WeightAppend(a[1..], b);
      assert (a + b)[1..] == a[1..] + b;
    }
  }

  lemma AppendAssoc<T>(a: seq<T>, b: seq<T>, c: seq<T>)
    ensures a + (b + c) == (a + b) + c
  {
  }

  /** Java's `byte` value of an octet. */
  function SignedByte(b: byte): (r: int)
    ensures -128 <= r < 128
  {
    if b < 128 then b else b - 256
  }

  // ---------------------------------------------------------------------------------------
  // Line scanning

  /** Where the line starting at `i` ends and whether its end was found: at CR LF, at a lone LF or
      at an octet 0xFF (the -1 that also means "no more bytes"). The octet after a CR is consumed
      even when it is not an LF. Without an end the line runs to the end of the buffer. */
  function LineEnd(input: seq<byte>, i: nat): (r: (nat, bool))
    requires i <= |input|
    ensures i <= r.0 <= |input|
    ensures i < |input| ==> r.0 > i
    ensures r.1 ==> r.0 > i && (input[r.0 - 1] == LF || input[r.0 - 1] == 255)
    ensures !r.1 ==> r.0 == |input|
    decreases |input| - i
  {
    if i == |input| then (i, false)
    else if input[i] == CR then
      if i + 1 == |input| then (i + 1, false)
      else if input[i + 1] == LF then (i + 2, true)
      else LineEnd(input, i + 2)
    else if input[i] == LF || input[i] == 255 then (i + 1, true)
    else LineEnd(input, i + 1)
  }

  /** Octets that cannot end a line or start a line end. */
  predicate PlainBytes(s: seq<byte>)
  {
    forall i :: 0 <= i < |s| ==> s[i] != CR && s[i] != LF && s[i] != 255
  }

  /** A line written as plain octets and CRLF is found, terminator included. */
  lemma {:induction false} LineOfWritten(input: seq<byte>, i: nat, s: seq<byte>)
    requires i + |s| + 2 <= |input| && input[i..i + |s| + 2] == s + CRLF
    requires PlainBytes(s)
    ensures LineEnd(input, i) == (i + |s| + 2, true)
    decreases |s|
  {
    if s == [] {
      assert input[i] == CR && input[i + 1] == LF;
    } else {
      assert input[i] == s[0];
      assert input[i + 1..i + 1 + |s[1..]| + 2] == s[1..] + CRLF;
      LineOfWritten(input, i + 1, s[1..]);
    }
  }

  /** A line that was found ends with its terminator: the line handed on is the decoded octets up
      to and including the LF (or the 0xFF). */
  lemma LineKeepsTerminator(input: seq<byte>, i: nat)
    requires i <= |input| && LineEnd(input, i).1
    ensures var line := DecodeAscii(input[i..LineEnd(input, i).0]);
      |line| > 0 && (line[|line| - 1] == '\n' || line[|line| - 1] == '\U{FFFD}')
  {
    DecodeAsciiIndex(input[i..LineEnd(input, i).0]);
  }

  // ---------------------------------------------------------------------------------------
  // The parsing steps

  /** The held continuation lines, concatenated without separator. */
  function Concat(lines: seq<string>): (r: string)
  {
    if lines == [] then "" else Concat(lines[..|lines| - 1]) + lines[|lines| - 1]
  }

  /** What a `failed` call produces: the failure to the mode's handlers, and `shutdown()` except
      for the two lines after data, whose failure goes to the data handler. */
  function FailedEvents(m: Mode, reason: Reason): seq<Event>
    requires ReadsLine(m)
  {
    match m
    case StartLine => [StartLineFailed(reason), Closed]
    case HeaderBlock(trailers, _) =>
      [if trailers then TrailersFailed(reason) else HeadersFailed(reason), Closed]
    case ChunkSizeLine => [DataFailed(reason), Closed]
    case ChunkEnd => [DataFailed(reason)]
    case BodyEnd => [DataFailed(reason)]
  }

  /** The continuation a `failed` call starts: `findTrailers` after the two lines after data. */
  function FailedModes(m: Mode): seq<Mode>
  {
    if m.ChunkEnd? || m.BodyEnd? then [Trailers] else []
  }

  /** The start-line handler's `completed`: a rejected line fails and shuts down; an accepted one
      goes to the handlers and header parsing starts with an empty map. */
  function StartLineOutcome(kind: Kind, line: string, s: State): (o: Outcome)
  {
    match kind
    case Requests =>
      (match ParseRequestLine(line)
       case Failed(e) => Outcome([StartLineFailed(Rejected(e)), Closed], s)
       case Parsed(r) =>
         Outcome([RequestLineParsed(r)], State(s.pos, [], [HeaderBlock(false, [])] + s.pending)))
    case Responses =>
      (match ParseResponseLine(line)
       case Failed(e) => Outcome([StartLineFailed(Rejected(e)), Closed], s)
       case Parsed(r) =>
         Outcome([ResponseLineParsed(r)], State(s.pos, [], [HeaderBlock(false, [])] + s.pending)))
  }

  predicate IsBlankLine(line: string)
  {
    line == "\r\n" || line == "\n"
  }

  /** `findHeaders`' `completed`: a blank line delivers the map (dropping any held lines) and
      continues with the body or, after trailers, the next message; a line starting with SP or HT
      is held, trimmed; any other line is stored, except that when lines are held their
      concatenation is stored in its place. */
  function HeaderLineOutcome(trailers: bool, held: seq<string>, line: string, s: State): (o: Outcome)
    requires |line| > 0
  {
    if IsBlankLine(line) then
      Outcome([if trailers then TrailersParsed(s.headers) else HeadersParsed(s.headers)],
              State(s.pos, s.headers, [if trailers then StartLine else Body] + s.pending))
    else if line[0] == ' ' || line[0] == '\t' then
      Outcome([], State(s.pos, s.headers, [HeaderBlock(trailers, held + [Trim(line)])] + s.pending))
    else if held != [] then
      Outcome([], State(s.pos, HeaderLineAdded(s.headers, Concat(held)), [HeaderBlock(trailers, [])] + s.pending))
    else
      Outcome([], State(s.pos, HeaderLineAdded(s.headers, line), [HeaderBlock(trailers, [])] + s.pending))
  }

  /** `readChunk`'s `completed`. A size that does not parse, or a negative one, throws inside the
      handler and parsing stops; a size from 8192 on is a failure for the data handler and parsing
      stops; 0 delivers the empty end-of-body buffer and the trailers follow; otherwise the chunk's
      bytes are delivered, all of them if they are in the buffer (then the line after them is
      read), else what the buffer holds. */
  function ChunkSizeOutcome(size: Option<int>, input: seq<byte>, s: State): (o: Outcome)
    requires s.pos <= |input|
    ensures s.pos <= o.next.pos <= |input|
  {
    match size
    case None => Outcome([], s)
    case Some(n) =>
      if n >= MAX_CHUNK_SIZE as int then Outcome([DataFailed(ChunkTooLarge)], s)
      else if n == 0 then Outcome([DataParsed([])], State(s.pos, s.headers, [Trailers] + s.pending))
      else if n < 0 then Outcome([], s)
      else if n <= |input| - s.pos then
        Outcome([DataParsed(input[s.pos..s.pos + n])], State(s.pos + n, s.headers, [ChunkEnd] + s.pending))
      else Outcome([DataParsed(input[s.pos..])], State(|input|, s.headers, s.pending))
  }

  /** The `completed` of the handler that reads a line in mode `m`; `s` is the state after the
      line. */
  function LineOutcome(kind: Kind, m: Mode, line: string, input: seq<byte>, s: State): (o: Outcome)
    requires ReadsLine(m) && |line| > 0 && s.pos <= |input|
    ensures s.pos <= o.next.pos <= |input|
  {
    match m
    case StartLine => StartLineOutcome(kind, line, s)
    case HeaderBlock(trailers, held) => HeaderLineOutcome(trailers, held, line, s)
    case ChunkSizeLine => ChunkSizeOutcome(ChunkSize(line), input, s)
    case ChunkEnd => Outcome([], State(s.pos, s.headers, [ChunkSizeLine] + s.pending))
    case BodyEnd => Outcome([], State(s.pos, s.headers, [Trailers] + s.pending))
  }

  /** What follows the scan of a line in mode `m`: the line is reported as failed when it reaches
      the limit and, if its end was found, handed to `completed` (after the continuation of
      `failed`, if any); `s` is the state after the line, without `m`. */
  function LineHandled(kind: Kind, m: Mode, line: string, found: bool, input: seq<byte>, s: State): (o: Outcome)
    requires ReadsLine(m) && s.pos <= |input| && (found ==> |line| > 0)
    ensures s.pos <= o.next.pos <= |input|
  {
    var tooLong := |line| >= Limit(m);
    var failEvents := if tooLong then FailedEvents(m, TooLong(Limit(m))) else [];
    var failModes := if tooLong then FailedModes(m) else [];
    if !found then Outcome(failEvents, State(s.pos, s.headers, failModes + s.pending))
    else
      var c := LineOutcome(kind, m, line, input, s);
      Outcome(failEvents + c.events, State(c.next.pos, c.next.headers, failModes + c.next.pending))
  }

  /** `onLine` in mode `m`: with the buffer used up it waits for a read that never completes;
      otherwise one line is scanned and handled. */
  function LineStep(kind: Kind, input: seq<byte>, s: State): (o: Outcome)
    requires s.pos <= |input| && s.pending != [] && ReadsLine(s.pending[0])
    ensures o.next.pos <= |input|
    ensures o.next.pos > s.pos || (o.next.pos == s.pos && Weight(o.next.pending) < Weight(s.pending))
  {
    if s.pos == |input| then Outcome([], State(s.pos, s.headers, s.pending[1..]))
    else
      var (end, found) := LineEnd(input, s.pos);
      LineHandled(kind, s.pending[0], DecodeAscii(input[s.pos..end]), found, input, State(end, s.headers, s.pending[1..]))
  }

  /** `findData`: chunked bodies are read chunk by chunk; otherwise the body has the length the
      headers give. */
  function BodyStep(input: seq<byte>, s: State): (o: Outcome)
    requires s.pos <= |input| && s.pending != [] && s.pending[0] == Body
    ensures s.pos <= o.next.pos <= |input|
    ensures o.next.pos > s.pos || Weight(o.next.pending) < Weight(s.pending)
  {
    if IsChunked(s.headers) then
      assert Weight(s.pending) == 3 + Weight(s.pending[1..]);
      WeightAppend([ChunkSizeLine], s.pending[1..]);
      Outcome([], State(s.pos, s.headers, [ChunkSizeLine] + s.pending[1..]))
    else FixedBody(input, s, ContentLength(s.headers))
  }

  /** `findData` for a body that is not chunked: a positive length delivers that many bytes (what
      the buffer holds, if fewer) and any other value one empty buffer, after which the trailers
      are looked for. */
  function FixedBody(input: seq<byte>, s: State, length: int): (o: Outcome)
    requires s.pos <= |input| && s.pending != [] && s.pending[0] == Body
    ensures s.pos <= o.next.pos <= |input|
    ensures o.next.pos > s.pos || Weight(o.next.pending) < Weight(s.pending)
  {
    var rest := s.pending[1..];
    assert Weight(s.pending) == 3 + Weight(rest);
    WeightAppend([BodyEnd], rest);
    WeightAppend([Trailers], rest);
    if length > 0 then
      if length <= |input| - s.pos then
        Outcome([DataParsed(input[s.pos..s.pos + length])], State(s.pos + length, s.headers, [BodyEnd] + rest))
      else Outcome([DataParsed(input[s.pos..])], State(|input|, s.headers, rest))
    else Outcome([DataParsed([])], State(s.pos, s.headers, [Trailers] + rest))
  }

  /** `findTrailers`: a chunked message has a trailer section, parsed as a header block into a
      fresh map; otherwise the next message is read. */
  function TrailersStep(s: State): (o: Outcome)
    requires s.pending != [] && s.pending[0] == Trailers
    ensures o.next.pos == s.pos && Weight(o.next.pending) < Weight(s.pending)
  {
    var rest := s.pending[1..];
    assert Weight(s.pending) == 2 + Weight(rest);
    WeightAppend([HeaderBlock(true, [])], rest);
    WeightAppend([StartLine], rest);
    if IsChunked(s.headers) then Outcome([], State(s.pos, [], [HeaderBlock(true, [])] + rest))
    else Outcome([], State(s.pos, s.headers, [StartLine] + rest))
  }

  /** Runs the innermost pending mode. Every step either consumes input or shrinks what remains
      to run. */
  function Step(kind: Kind, input: seq<byte>, s: State): (o: Outcome)
    requires s.pos <= |input| && s.pending != []
    ensures o.next.pos <= |input|
    ensures o.next.pos > s.pos || (o.next.pos == s.pos && Weight(o.next.pending) < Weight(s.pending))
  {
    match s.pending[0]
    case Body => BodyStep(input, s)
    case Trailers => TrailersStep(s)
    case _ => LineStep(kind, input, s)
  }

  /** The events from state `s` on. */
  function Run(kind: Kind, input: seq<byte>, s: State): seq<Event>
    requires s.pos <= |input|
    decreases |input| - s.pos, Weight(s.pending)
  {
    if s.pending == [] then []
    else
      var o := Step(kind, input, s);
      o.events + Run(kind, input, o.next)
  }

  /** One step further along a run: the events still to come are the step's and then the rest. */
  lemma RunAfterStep(kind: Kind, input: seq<byte>, s: State, total: seq<Event>, before: seq<Event>)
    requires s.pos <= |input| && s.pending != []
    requires total == before + Run(kind, input, s)
    ensures total == (before + Step(kind, input, s).events) + Run(kind, input, Step(kind, input, s).next)
  {
    var o := Step(kind, input, s);
    assert Run(kind, input, s) == o.events + Run(kind, input, o.next);
    AppendAssoc(before, o.events, Run(kind, input, o.next));
  }

  /** `go()`: the events for a whole buffer, starting with a start line. */
  function Parse(kind: Kind, input: seq<byte>): seq<Event>
  {
    Run(kind, input, State(0, [], [StartLine]))
  }

  // ---------------------------------------------------------------------------------------
  // The parser object

  /** `HttpParser` over a filled read buffer: the position in `readBuffer` with the matching
      `bytesRemaining`, the `headers` field, the continuations still to run, and the events
      delivered so far. */
  class HttpParser {
    const kind: Kind
    const readBuffer: array<byte>
    var position: nat
    var bytesRemaining: int
    var headers: Headers
    var pending: seq<Mode>
    var events: seq<Event>

    ghost predicate Valid()
      reads this
    {
      position <= readBuffer.Length && bytesRemaining == readBuffer.Length - position
    }

    function Input(): seq<byte>
      reads readBuffer
    {
      readBuffer[..]
    }

    function Snapshot(): State
      reads this
    {
      State(position, headers, pending)
    }

    constructor (kind: Kind, readBuffer: array<byte>)
      ensures Valid() && this.kind == kind && this.readBuffer == readBuffer
      ensures position == 0 && headers == [] && pending == [] && events == []
    {
      this.kind := kind;
      this.readBuffer := readBuffer;
      position := 0;
      bytesRemaining := readBuffer.Length;
      headers := [];
      pending := [];
      events := [];
    }

    /** `getAByte`: the next octet as a Java `byte`, or -1 when none remains. */
    method GetAByte() returns (b: int)
      requires Valid()
      modifies this
      ensures Valid() && headers == old(headers) && pending == old(pending) && events == old(events)
      ensures old(bytesRemaining) > 0 ==> position == old(position) + 1 && b == SignedByte(readBuffer[old(position)])
      ensures old(bytesRemaining) <= 0 ==> position == old(position) && b == -1
    {
      b := -1;
      if bytesRemaining > 0 {
        bytesRemaining := bytesRemaining - 1;
        b := SignedByte(readBuffer[position]);
        position := position + 1;
      }
    }

    /** `inflightLine`'s scan: consumes one line and returns it with its terminator, and whether
        its end was found. */
    method InflightLine() returns (line: string, found: bool)
      requires Valid()
      modifies this
      ensures Valid() && headers == old(headers) && pending == old(pending) && events == old(events)
      ensures (position, found) == LineEnd(Input(), old(position))
      ensures line == DecodeAscii(Input()[old(position)..position])
    {
      found := false;
      var start := position;
      while bytesRemaining > 0
        invariant Valid() && start <= position && !found
        invariant headers == old(headers) && pending == old(pending) && events == old(events)
        invariant LineEnd(Input(), start) == LineEnd(Input(), position)
        decreases bytesRemaining
      {
        var nextByte := GetAByte();
        if nextByte == 13 {
          nextByte := GetAByte();
          if nextByte == 10 {
            found := true;
            break;
          }
        } else if nextByte == 10 {
          found := true;
          break;
        } else if nextByte == -1 {
          found := true;
          break;
        }
      }
      line := DecodeAscii(readBuffer[start..position]);
    }

    /** `sendDataToApp`: hands the next `size` octets to the data handler, then moves past them. */
    method SendDataToApp(size: nat)
      requires Valid() && size <= bytesRemaining
      modifies this
      ensures Valid() && position == old(position) + size
      ensures headers == old(headers) && pending == old(pending)
      ensures events == old(events) + [DataParsed(Input()[old(position)..old(position) + size])]
    {
      var pos := position;
      var dest := readBuffer[pos..pos + size];
      events := events + [DataParsed(dest)];
      while position < pos + size
        invariant Valid() && pos <= position <= pos + size
        invariant headers == old(headers) && pending == old(pending)
        invariant events == old(events) + [DataParsed(Input()[pos..pos + size])]
      {
        position := position + 1;
        bytesRemaining := bytesRemaining - 1;
      }
    }

    /** `parseHeaderLine`: the value goes under the lower-cased name. */
    method ParseHeaderLine(line: string)
      modifies this
      ensures headers == HeaderLineAdded(old(headers), line)
      ensures position == old(position) && bytesRemaining == old(bytesRemaining)
      ensures pending == old(pending) && events == old(events)
    {
      var field := SplitHeader(line);
      var name := ToLower(field.name);
      headers := AddValue(headers, name, field.value);
    }

    /** The `StringBuilder` loop that joins the held continuation lines. */
    static method JoinHeld(held: seq<string>) returns (joined: string)
      ensures joined == Concat(held)
    {
      joined := "";
      var i := 0;
      while i < |held|
        invariant 0 <= i <= |held| && joined == Concat(held[..i])
      {
        assert held[..i + 1][..i] == held[..i];
        joined := joined + held[i];
        i := i + 1;
      }
      assert held[..i] == held;
    }

    /** The start-line handler's `completed`. */
    method StartLineCompleted(line: string)
      modifies this
      ensures Snapshot() == StartLineOutcome(kind, line, old(Snapshot())).next
      ensures events == old(events) + StartLineOutcome(kind, line, old(Snapshot())).events
      ensures bytesRemaining == old(bytesRemaining)
    {
      match kind {
        case Requests =>
          match ParseRequestLine(line) {
            case Failed(e) =>
              events := events + [StartLineFailed(Rejected(e)), Closed];
            case Parsed(r) =>
              events := events + [RequestLineParsed(r)];
              headers := [];
              pending := [HeaderBlock(false, [])] + pending;
          }
        case Responses =>
          match ParseResponseLine(line) {
            case Failed(e) =>
              events := events + [StartLineFailed(Rejected(e)), Closed];
            case Parsed(r) =>
              events := events + [ResponseLineParsed(r)];
              headers := [];
              pending := [HeaderBlock(false, [])] + pending;
          }
      }
    }

    /** `findHeaders`' `completed`. */
    method HeaderLineCompleted(trailers: bool, held: seq<string>, line: string)
      requires |line| > 0
      modifies this
      ensures Snapshot() == HeaderLineOutcome(trailers, held, line, old(Snapshot())).next
      ensures events == old(events) + HeaderLineOutcome(trailers, held, line, old(Snapshot())).events
      ensures bytesRemaining == old(bytesRemaining)
    {
      if line == "\r\n" || line == "\n" {
        events := events + [if trailers then TrailersParsed(headers) else HeadersParsed(headers)];
        pending := [if trailers then StartLine else Body] + pending;
      } else if line[0] == ' ' || line[0] == '\t' {
        pending := [HeaderBlock(trailers, held + [Trim(line)])] + pending;
      } else {
        if |held| > 0 {
          var joined := JoinHeld(held);
          ParseHeaderLine(joined);
        } else {
          ParseHeaderLine(line);
        }
        pending := [HeaderBlock(trailers, [])] + pending;
      }
    }

    /** `readChunk`'s `completed`. */
    method ChunkSizeCompleted(size: Option<int>)
      requires Valid()
      modifies this
      ensures Valid()
      ensures Snapshot() == ChunkSizeOutcome(size, Input(), old(Snapshot())).next
      ensures events == old(events) + ChunkSizeOutcome(size, Input(), old(Snapshot())).events
    {
      ghost var s := Snapshot();
      ghost var input := Input();
      match size {
        case None =>
        case Some(chunkSize) =>
          if chunkSize >= MAX_CHUNK_SIZE as int {
            events := events + [DataFailed(ChunkTooLarge)];
          } else if chunkSize == 0 {
            events := events + [DataParsed([])];
            pending := [Trailers] + pending;
          } else if chunkSize < 0 {
          } else if chunkSize <= bytesRemaining {
            SendDataToApp(chunkSize);
            pending := [ChunkEnd] + pending;
          } else {
            assert input[s.pos..s.pos + bytesRemaining] == input[s.pos..];
            SendDataToApp(bytesRemaining);
          }
      }
    }

    /** The `completed` of the handler for line mode `m`. */
    method LineCompleted(m: Mode, line: string)
      requires Valid() && ReadsLine(m) && |line| > 0
      modifies this
      ensures Valid()
      ensures Snapshot() == LineOutcome(kind, m, line, Input(), old(Snapshot())).next
      ensures events == old(events) + LineOutcome(kind, m, line, Input(), old(Snapshot())).events
    {
      match m {
        case StartLine => StartLineCompleted(line);
        case HeaderBlock(trailers, held) => HeaderLineCompleted(trailers, held, line);
        case ChunkSizeLine =>
          var size := ChunkSize(line);
          ChunkSizeCompleted(size);
        case ChunkEnd => pending := [ChunkSizeLine] + pending;
        case BodyEnd => pending := [Trailers] + pending;
      }
    }

    /** `onLine` followed by the handler of the innermost pending mode. */
    method ReadLineStep()
      requires Valid() && pending != [] && ReadsLine(pending[0])
      modifies this
      ensures Valid()
      ensures Snapshot() == LineStep(kind, Input(), old(Snapshot())).next
      ensures events == old(events) + LineStep(kind, Input(), old(Snapshot())).events
    {
      var m := pending[0];
      pending := pending[1..];
      if bytesRemaining > 0 {
        ScanAndHandle(m);
      }
    }

    /** The part of `inflightLine` after the buffer was found non-empty: scan a line and handle
        it. */
    method ScanAndHandle(m: Mode)
      requires Valid() && ReadsLine(m) && bytesRemaining > 0
      modifies this
      ensures Valid()
      ensures Snapshot() == LineStep(kind, Input(), State(old(position), old(headers), [m] + old(pending))).next
      ensures events == old(events) + LineStep(kind, Input(), State(old(position), old(headers), [m] + old(pending))).events
    {
      ghost var s := State(position, headers, [m] + pending);
      assert s.pending[1..] == pending;
      var line, found := InflightLine();
      HandleLine(m, line, found);
    }

    /** `inflightLine` after the scan: a line reaching the limit goes to `failed`, and a line whose
        end was found then to `completed`. */
    method HandleLine(m: Mode, line: string, found: bool)
      requires Valid() && ReadsLine(m) && (found ==> |line| > 0)
      modifies this
      ensures Valid()
      ensures Snapshot() == LineHandled(kind, m, line, found, Input(), old(Snapshot())).next
      ensures events == old(events) + LineHandled(kind, m, line, found, Input(), old(Snapshot())).events
    {
      var limit := Limit(m);
      var tooLong := |line| >= limit;
      var failEvents := if tooLong then FailedEvents(m, TooLong(limit)) else [];
      var failModes := if tooLong then FailedModes(m) else [];
      if found {
        CompleteAfterFailure(m, line, failEvents, failModes);
      } else {
        events := events + failEvents;
        pending := failModes + pending;
      }
    }

    /** Runs `completed` after the continuation of `failed`, if any. */
    method CompleteAfterFailure(m: Mode, line: string, failEvents: seq<Event>, failModes: seq<Mode>)
      requires Valid() && ReadsLine(m) && |line| > 0
      modifies this
      ensures Valid()
      ensures var c := LineOutcome(kind, m, line, Input(), old(Snapshot()));
        Snapshot() == State(c.next.pos, c.next.headers, failModes + c.next.pending) &&
        events == old(events) + (failEvents + c.events)
    {
      events := events + failEvents;
      LineCompleted(m, line);
      pending := failModes + pending;
      AppendAssoc(old(events), failEvents, LineOutcome(kind, m, line, Input(), old(Snapshot())).events);
    }

    /** `findData`. */
    method FindData()
      requires Valid() && pending != [] && pending[0] == Body
      modifies this
      ensures Valid()
      ensures Snapshot() == BodyStep(Input(), old(Snapshot())).next
      ensures events == old(events) + BodyStep(Input(), old(Snapshot())).events
    {
      if IsChunked(headers) {
        pending := [ChunkSizeLine] + pending[1..];
      } else {
        var contentLength := ContentLength(headers);
        FixedLengthBody(contentLength);
      }
    }

    /** `findData` for a body that is not chunked, with the content length read from the headers. */
    method FixedLengthBody(contentLength: int)
      requires Valid() && pending != [] && pending[0] == Body
      modifies this
      ensures Valid()
      ensures Snapshot() == FixedBody(Input(), old(Snapshot()), contentLength).next
      ensures events == old(events) + FixedBody(Input(), old(Snapshot()), contentLength).events
    {
      pending := pending[1..];
      if contentLength > 0 {
        if contentLength <= bytesRemaining {
          SendDataToApp(contentLength);
          pending := [BodyEnd] + pending;
        } else {
          assert Input()[position..position + bytesRemaining] == Input()[position..];
          SendDataToApp(bytesRemaining);
        }
      } else {
        events := events + [DataParsed([])];
        pending := [Trailers] + pending;
      }
    }

    /** `findTrailers`. */
    method FindTrailers()
      requires Valid() && pending != [] && pending[0] == Trailers
      modifies this
      ensures Valid()
      ensures Snapshot() == TrailersStep(old(Snapshot())).next
      ensures events == old(events) + TrailersStep(old(Snapshot())).events
    {
      pending := pending[1..];
      if IsChunked(headers) {
        headers := [];
        pending := [HeaderBlock(true, [])] + pending;
      } else {
        pending := [StartLine] + pending;
      }
    }

    /** Runs the innermost pending mode. */
    method StepOnce()
      requires Valid() && pending != []
      modifies this
      ensures Valid()
      ensures Snapshot() == Step(kind, Input(), old(Snapshot())).next
      ensures events == old(events) + Step(kind, Input(), old(Snapshot())).events
    {
      match pending[0] {
        case Body => FindData();
        case Trailers => FindTrailers();
        case _ => ReadLineStep();
      }
    }

    /** Runs parsing from a start line until nothing is left to run: `go()`. */
    method Go()
      requires Valid()
      modifies this
      ensures Valid()
      ensures events == old(events) + Run(kind, Input(), State(old(position), old(headers), [StartLine]))
    {
      ghost var input := Input();
      ghost var all := Run(kind, input, State(position, headers, [StartLine]));
      ghost var start := events;
      pending := [StartLine];
      while pending != []
        invariant Valid() && Input() == input
        invariant start + all == events + Run(kind, input, Snapshot())
        decreases bytesRemaining, Weight(pending)
      {
        ghost var s := Snapshot();
        ghost var before := events;
        StepOnce();
        RunAfterStep(kind, input, s, start + all, before);
      }
    }
  }

  /** A parser over a fresh buffer delivers exactly the events of `Parse`. */
  method ParseBuffer(kind: Kind, input: array<byte>) returns (events: seq<Event>)
    ensures events == Parse(kind, input[..])
  {
    var parser := new HttpParser(kind, input);
    parser.Go();
    events := parser.events;
  }
}
