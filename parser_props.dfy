/** What the event parser does with messages as a sender writes them: start lines, header blocks,
    the folding quirk, fixed-length and chunked bodies, bodyless requests in sequence, and the
    failures an over-long line or chunk size causes. Each property is stated about `Step` or
    `Run` of `HttpParsing`, which the `HttpParser` class is proved to follow.

    States are written `State(pos, headers, [m] + rest)`: `m` is the mode about to run and
    `rest` the modes waiting behind it. */
module ParserProperties {
  import opened Text
  import opened HttpText
  import opened StartLines
  import opened HttpParsing

  /** Text a single line can carry: ASCII without CR or LF. */
  predicate LineText(t: string)
  {
    forall i :: 0 <= i < |t| ==> t[i] as int < 128 && t[i] != '\r' && t[i] != '\n'
  }

  /** The octets of a line as written: the text in US-ASCII, then CRLF. */
  function WireLine(t: string): seq<byte>
  {
    EncodeAscii(t) + CRLF
  }

  lemma WireLineDecoded(t: string)
    requires LineText(t)
    ensures PlainBytes(EncodeAscii(t))
    ensures DecodeAscii(WireLine(t)) == t + "\r\n"
  {
    var w := WireLine(t);
    EncodeAsciiIndex(t);
    DecodeAsciiIndex(w);
    assert forall i :: 0 <= i < |t| ==> w[i] == t[i] as int;
    assert forall i :: 0 <= i < |t| ==> DecodeAscii(w)[i] == t[i];
  }

  /** `input` holds `w` at `pos`. */
  predicate At(input: seq<byte>, pos: nat, w: seq<byte>)
  {
    pos <= |input| && |w| <= |input| - pos && input[pos..][..|w|] == w
  }

  lemma AtSlice(input: seq<byte>, pos: nat, w: seq<byte>)
    requires At(input, pos, w)
    ensures pos + |w| <= |input| && input[pos..pos + |w|] == w
  {
    assert input[pos..pos + |w|] == input[pos..][..|w|];
  }

  lemma PrefixAt(input: seq<byte>, pos: nat, a: seq<byte>, b: seq<byte>)
    requires pos <= |input| && input[pos..] == a + b
    ensures At(input, pos, a) && pos + |a| <= |input| && input[pos + |a|..] == b
  {
    assert input[pos..][..|a|] == a;
    assert input[pos + |a|..] == input[pos..][|a|..];
  }

  lemma AtSplitWhole(input: seq<byte>, pos: nat, w: seq<byte>, a: seq<byte>, b: seq<byte>)
    requires w == a + b && At(input, pos, w)
    ensures At(input, pos, a) && At(input, pos + |a|, b) && |w| == |a| + |b|
  {
    AtSplit(input, pos, a, b);
  }

  lemma AtSplit(input: seq<byte>, pos: nat, a: seq<byte>, b: seq<byte>)
    requires At(input, pos, a + b)
    ensures At(input, pos, a) && At(input, pos + |a|, b)
  {
    assert input[pos..pos + |a|] == (a + b)[..|a|];
    assert input[pos + |a|..pos + |a| + |b|] == (a + b)[|a|..];
  }

  lemma AppendTwo<T>(a: seq<T>, x: T, y: T)
    ensures a + [x] + [y] == a + [x, y]
  {
    assert [x] + [y] == [x, y];
    AppendAssoc(a, [x], [y]);
  }

  // ---------------------------------------------------------------------------------------
  // From steps to runs

  /** A step with a known outcome: its events, then the run from its next state. */
  lemma RunThrough(kind: Kind, input: seq<byte>, s: State, events: seq<Event>, next: State)
    requires s.pos <= |input| && s.pending != [] && Step(kind, input, s) == Outcome(events, next)
    ensures next.pos <= |input| && Run(kind, input, s) == events + Run(kind, input, next)
  {
  }

  /** A step without events: the run continues from its next state. */
  lemma RunThroughSilent(kind: Kind, input: seq<byte>, s: State, next: State)
    requires s.pos <= |input| && s.pending != [] && Step(kind, input, s) == Outcome([], next)
    ensures next.pos <= |input| && Run(kind, input, s) == Run(kind, input, next)
  {
    RunThrough(kind, input, s, [], next);
    assert [] + Run(kind, input, next) == Run(kind, input, next);
  }

  // ---------------------------------------------------------------------------------------
  // Reading one line

  /** A line shorter than its limit goes to `completed` alone. */
  lemma ShortLineHandled(kind: Kind, m: Mode, line: string, input: seq<byte>, s: State)
    requires ReadsLine(m) && 0 < |line| < Limit(m) && s.pos <= |input|
    ensures LineHandled(kind, m, line, true, input, s) == LineOutcome(kind, m, line, input, s)
  {
    var c := LineOutcome(kind, m, line, input, s);
    assert [] + c.events == c.events && [] + c.next.pending == c.next.pending;
  }

  /** A step in a line-reading mode hands the line up to its end to `LineHandled`. */
  lemma StepOnFoundLine(kind: Kind, input: seq<byte>, s: State, end: nat, line: string)
    requires s.pos < |input| && s.pending != [] && ReadsLine(s.pending[0])
    requires LineEnd(input, s.pos) == (end, true) && DecodeAscii(input[s.pos..end]) == line
    ensures Step(kind, input, s) == LineHandled(kind, s.pending[0], line, true, input, State(end, s.headers, s.pending[1..]))
  {
    assert Step(kind, input, s) == LineStep(kind, input, s);
  }

  /** A written line is found at its CRLF and decodes to its text and terminator. */
  lemma WrittenLineFound(input: seq<byte>, pos: nat, t: string)
    requires LineText(t) && At(input, pos, WireLine(t))
    ensures LineEnd(input, pos) == (pos + |t| + 2, true)
    ensures DecodeAscii(input[pos..pos + |t| + 2]) == t + "\r\n"
  {
    WireLineDecoded(t);
    LineOfWritten(input, pos, EncodeAscii(t));
  }

  /** A written line, shorter than the limit of the mode about to run, is read with its
      terminator and handed to that mode's `completed` alone. */
  lemma StepOnWrittenLine(kind: Kind, input: seq<byte>, pos: nat, h: Headers, m: Mode, rest: seq<Mode>, t: string)
    requires ReadsLine(m) && LineText(t) && |t| + 2 < Limit(m) && At(input, pos, WireLine(t))
    ensures Step(kind, input, State(pos, h, [m] + rest)) ==
      LineOutcome(kind, m, t + "\r\n", input, State(pos + |t| + 2, h, rest))
  {
    var s := State(pos, h, [m] + rest);
    assert s.pending[0] == m && s.pending[1..] == rest;
    WrittenLineStep(kind, input, s, t);
    var after := State(pos + |t| + 2, h, rest);
    assert after == State(s.pos + |t| + 2, s.headers, s.pending[1..]);
    assert Step(kind, input, s) == LineOutcome(kind, m, t + "\r\n", input, after);
  }

  lemma WrittenLineStep(kind: Kind, input: seq<byte>, s: State, t: string)
    requires s.pos <= |input| && s.pending != [] && ReadsLine(s.pending[0])
    requires LineText(t) && |t| + 2 < Limit(s.pending[0]) && At(input, s.pos, WireLine(t))
    ensures Step(kind, input, s) ==
      LineOutcome(kind, s.pending[0], t + "\r\n", input, State(s.pos + |t| + 2, s.headers, s.pending[1..]))
  {
    var end := s.pos + |t| + 2;
    var line := t + "\r\n";
    var after := State(end, s.headers, s.pending[1..]);
    WrittenLineFound(input, s.pos, t);
    StepOnFoundLine(kind, input, s, end, line);
    ShortLineHandled(kind, s.pending[0], line, input, after);
    assert after == State(s.pos + |t| + 2, s.headers, s.pending[1..]);
  }

  /** A line that reaches its limit is reported as failed to the mode's handlers before anything
      else happens. */
  lemma LongLineFails(kind: Kind, input: seq<byte>, s: State)
    requires s.pos < |input| && s.pending != [] && ReadsLine(s.pending[0])
    requires LineEnd(input, s.pos).0 - s.pos >= Limit(s.pending[0])
    ensures var failure := FailedEvents(s.pending[0], TooLong(Limit(s.pending[0])));
      |failure| <= |Step(kind, input, s).events| &&
      Step(kind, input, s).events[..|failure|] == failure
  {
    var m := s.pending[0];
    var (end, found) := LineEnd(input, s.pos);
    var line := DecodeAscii(input[s.pos..end]);
    assert |line| >= Limit(m);
    var failure := FailedEvents(m, TooLong(Limit(m)));
    if found {
      var c := LineOutcome(kind, m, line, input, State(end, s.headers, s.pending[1..]));
      assert Step(kind, input, s).events == failure + c.events;
      assert (failure + c.events)[..|failure|] == failure;
    }
  }

  // ---------------------------------------------------------------------------------------
  // Start lines

  predicate WritableRequestLine(r: RequestLine)
  {
    IsToken(r.httpMethod) && IsToken(r.uri) && IsPhrase(r.version) &&
    LineText(r.ToString()) && |r.ToString()| + 2 < MAX_INITIAL_LINE_LENGTH
  }

  /** A request line written in wire order goes to the request-line handlers, and header parsing
      starts after it with an empty map. */
  lemma RequestLineStep(input: seq<byte>, pos: nat, h: Headers, rest: seq<Mode>, r: RequestLine)
    requires WritableRequestLine(r) && At(input, pos, WireLine(r.ToString()))
    ensures Step(Requests, input, State(pos, h, [StartLine] + rest)) ==
      Outcome([RequestLineParsed(r)], State(pos + |r.ToString()| + 2, [], [HeaderBlock(false, [])] + rest))
  {
    StepOnWrittenLine(Requests, input, pos, h, StartLine, rest, r.ToString());
    RequestLineRoundTrip(r);
  }

  /** A status line written in wire order goes to the response-line handlers, and header parsing
      starts after it with an empty map. */
  lemma ResponseLineStep(input: seq<byte>, pos: nat, h: Headers, rest: seq<Mode>, r: ResponseLine)
    requires IsToken(r.version) && IsPhrase(r.status) && INT_MIN <= r.code <= INT_MAX
    requires LineText(r.WireForm()) && |r.WireForm()| + 2 < MAX_INITIAL_LINE_LENGTH
    requires At(input, pos, WireLine(r.WireForm()))
    ensures Step(Responses, input, State(pos, h, [StartLine] + rest)) ==
      Outcome([ResponseLineParsed(r)], State(pos + |r.WireForm()| + 2, [], [HeaderBlock(false, [])] + rest))
  {
    StepOnWrittenLine(Responses, input, pos, h, StartLine, rest, r.WireForm());
    ResponseLineRoundTrip(r);
  }

  /** A request line with only a method ("GET " CRLF) is malformed: every start-line handler is
      told, the connection is shut down, and the parser goes no further at this level. */
  lemma MalformedRequestLineStops(input: seq<byte>, pos: nat, h: Headers, rest: seq<Mode>, verb: string)
    requires IsToken(verb) && LineText(verb + " ") && |verb| + 3 < MAX_INITIAL_LINE_LENGTH
    requires At(input, pos, WireLine(verb + " "))
    ensures Step(Requests, input, State(pos, h, [StartLine] + rest)) ==
      Outcome([StartLineFailed(Rejected(Malformed)), Closed], State(pos + |verb| + 3, h, rest))
  {
    StepOnWrittenLine(Requests, input, pos, h, StartLine, rest, verb + " ");
    MissingPartIsMalformed(verb, "x");
  }

  // ---------------------------------------------------------------------------------------
  // Header blocks

  predicate HeaderName(name: string)
  {
    |name| > 0 && forall i :: 0 <= i < |name| ==> name[i] != ':' && !IsWhitespace(name[i])
  }

  function HeaderText(name: string, value: string): string
  {
    name + ": " + value
  }

  predicate WritableHeader(name: string, value: string)
  {
    HeaderName(name) && Trimmed(value) && LineText(HeaderText(name, value)) &&
    |HeaderText(name, value)| + 2 < MAX_HEADER_LINE_SIZE
  }

  /** A header line with nothing held goes into the map under its lower-cased name, and the next
      line of the block is read. */
  lemma HeaderLineStep(kind: Kind, input: seq<byte>, pos: nat, h: Headers, rest: seq<Mode>, trailers: bool,
                       name: string, value: string)
    requires WritableHeader(name, value) && At(input, pos, WireLine(HeaderText(name, value)))
    ensures Step(kind, input, State(pos, h, [HeaderBlock(trailers, [])] + rest)) ==
      Outcome([], State(pos + |HeaderText(name, value)| + 2, AddValue(h, ToLower(name), value),
                        [HeaderBlock(trailers, [])] + rest))
  {
    var t := HeaderText(name, value);
    StepOnWrittenLine(kind, input, pos, h, HeaderBlock(trailers, []), rest, t);
    SplitHeaderOfWritten(name, value);
    var line := t + "\r\n";
    assert line[0] == name[0] && |line| > 2;
  }

  /** A header line, as a run: the value is stored and the block goes on. */
  lemma HeaderLineRun(kind: Kind, input: seq<byte>, pos: nat, h: Headers, rest: seq<Mode>, trailers: bool,
                      name: string, value: string)
    requires WritableHeader(name, value) && At(input, pos, WireLine(HeaderText(name, value)))
    ensures pos + |HeaderText(name, value)| + 2 <= |input|
    ensures Run(kind, input, State(pos, h, [HeaderBlock(trailers, [])] + rest)) ==
      Run(kind, input, State(pos + |HeaderText(name, value)| + 2, AddValue(h, ToLower(name), value),
                             [HeaderBlock(trailers, [])] + rest))
  {
    HeaderLineStep(kind, input, pos, h, rest, trailers, name, value);
    RunThroughSilent(kind, input, State(pos, h, [HeaderBlock(trailers, [])] + rest),
      State(pos + |HeaderText(name, value)| + 2, AddValue(h, ToLower(name), value), [HeaderBlock(trailers, [])] + rest));
  }

  /** A value repeated under one name is kept in arrival order: "h1: v1" then "h1: v11" are
      each stored in one step, and the list under "h1" ends with v1, v11. */
  lemma RepeatedHeaderKeepsOrder(kind: Kind, input: seq<byte>, pos: nat, next: nat, h: Headers, rest: seq<Mode>,
                                 trailers: bool, name: string, v1: string, v2: string)
    requires WritableHeader(name, v1) && WritableHeader(name, v2)
    requires next == pos + |HeaderText(name, v1)| + 2
    requires At(input, pos, WireLine(HeaderText(name, v1))) && At(input, next, WireLine(HeaderText(name, v2)))
    ensures Step(kind, input, State(pos, h, [HeaderBlock(trailers, [])] + rest)) ==
      Outcome([], State(next, AddValue(h, ToLower(name), v1), [HeaderBlock(trailers, [])] + rest))
    ensures Step(kind, input, State(next, AddValue(h, ToLower(name), v1), [HeaderBlock(trailers, [])] + rest)) ==
      Outcome([], State(next + |HeaderText(name, v2)| + 2, AddValue(AddValue(h, ToLower(name), v1), ToLower(name), v2),
                        [HeaderBlock(trailers, [])] + rest))
    ensures Lookup(AddValue(AddValue(h, ToLower(name), v1), ToLower(name), v2), ToLower(name)) ==
      Some(ValuesOf(h, ToLower(name)) + [v1, v2])
  {
    HeaderLineStep(kind, input, pos, h, rest, trailers, name, v1);
    HeaderLineStep(kind, input, next, AddValue(h, ToLower(name), v1), rest, trailers, name, v2);
    AddValueTwice(h, ToLower(name), v1, v2);
  }

  lemma AddValueTwice(h: Headers, name: string, v1: string, v2: string)
    ensures Lookup(AddValue(AddValue(h, name, v1), name, v2), name) == Some(ValuesOf(h, name) + [v1, v2])
  {
    AddValueLookup(h, name, v1);
    AddValueLookup(AddValue(h, name, v1), name, v2);
    AppendTwo(ValuesOf(h, name), v1, v2);
  }

  /** A blank line ends the block: the handlers receive the map (held lines are dropped), then the
      body follows a header block and the next message a trailer block. */
  lemma BlankLineStep(kind: Kind, input: seq<byte>, pos: nat, h: Headers, rest: seq<Mode>, trailers: bool, held: seq<string>)
    requires At(input, pos, CRLF)
    ensures Step(kind, input, State(pos, h, [HeaderBlock(trailers, held)] + rest)) ==
      Outcome([if trailers then TrailersParsed(h) else HeadersParsed(h)],
              State(pos + 2, h, [if trailers then StartLine else Body] + rest))
  {
    assert WireLine("") == CRLF;
    StepOnWrittenLine(kind, input, pos, h, HeaderBlock(trailers, held), rest, "");
  }

  /** The folding quirk, first half: a line starting with SP is held, trimmed, and nothing is
      stored yet. */
  lemma ContinuationLineHeld(kind: Kind, input: seq<byte>, pos: nat, h: Headers, rest: seq<Mode>, trailers: bool,
                             held: seq<string>, folded: string)
    requires LineText(" " + folded) && |folded| + 3 < MAX_HEADER_LINE_SIZE
    requires At(input, pos, WireLine(" " + folded))
    ensures Step(kind, input, State(pos, h, [HeaderBlock(trailers, held)] + rest)) ==
      Outcome([], State(pos + |folded| + 3, h, [HeaderBlock(trailers, held + [Trim(" " + folded + "\r\n")])] + rest))
  {
    StepOnWrittenLine(kind, input, pos, h, HeaderBlock(trailers, held), rest, " " + folded);
    var line := " " + folded + "\r\n";
    assert line[0] == ' ' && |line| > 2;
  }

  /** The folding quirk, second half: with lines held, the next ordinary line is not stored; the
      held lines' concatenation is parsed as a header line in its place. */
  lemma HeldLinesReplaceNext(kind: Kind, input: seq<byte>, pos: nat, h: Headers, rest: seq<Mode>, trailers: bool,
                             held: seq<string>, next: string)
    requires held != []
    requires LineText(next) && |next| + 2 < MAX_HEADER_LINE_SIZE && next != [] && next[0] != ' ' && next[0] != '\t'
    requires At(input, pos, WireLine(next))
    ensures Step(kind, input, State(pos, h, [HeaderBlock(trailers, held)] + rest)) ==
      Outcome([], State(pos + |next| + 2, HeaderLineAdded(h, Concat(held)), [HeaderBlock(trailers, [])] + rest))
  {
    StepOnWrittenLine(kind, input, pos, h, HeaderBlock(trailers, held), rest, next);
    var line := next + "\r\n";
    assert line[0] == next[0] && |line| > 2;
  }

  // ---------------------------------------------------------------------------------------
  // Bodies

  /** A header map without framing headers: no body bytes, one empty buffer. */
  lemma UnframedBodyStep(kind: Kind, input: seq<byte>, pos: nat, h: Headers, rest: seq<Mode>)
    requires pos <= |input|
    requires ValuesOf(h, "transfer-encoding") == [] && ValuesOf(h, "content-length") == []
    ensures Step(kind, input, State(pos, h, [Body] + rest)) == Outcome([DataParsed([])], State(pos, h, [Trailers] + rest))
  {
    FramingOfWritten(h, 0, "");
    var s := State(pos, h, [Body] + rest);
    assert s.pending[0] == Body && s.pending[1..] == rest;
    assert Step(kind, input, s) == FixedBody(input, s, -1);
  }

  /** After a message that is not chunked, the next message's start line is read. */
  lemma PlainTrailersStep(kind: Kind, input: seq<byte>, pos: nat, h: Headers, rest: seq<Mode>)
    requires pos <= |input| && !IsChunked(h)
    ensures Step(kind, input, State(pos, h, [Trailers] + rest)) == Outcome([], State(pos, h, [StartLine] + rest))
  {
    var s := State(pos, h, [Trailers] + rest);
    assert s.pending[0] == Trailers && s.pending[1..] == rest;
  }

  /** After a chunked body, a trailer block is parsed into a fresh map. */
  lemma ChunkedTrailersStep(kind: Kind, input: seq<byte>, pos: nat, h: Headers, rest: seq<Mode>)
    requires pos <= |input| && IsChunked(h)
    ensures Step(kind, input, State(pos, h, [Trailers] + rest)) == Outcome([], State(pos, [], [HeaderBlock(true, [])] + rest))
  {
    var s := State(pos, h, [Trailers] + rest);
    assert s.pending[0] == Trailers && s.pending[1..] == rest;
  }

  /** A body of the length the headers declare, all in the buffer, is delivered as one buffer;
      then a line is read before the trailers are looked for. */
  lemma FixedBodyStep(kind: Kind, input: seq<byte>, pos: nat, h: Headers, rest: seq<Mode>, body: seq<byte>)
    requires 0 < |body| <= INT_MAX && At(input, pos, body)
    requires ValuesOf(h, "transfer-encoding") == []
    requires |ValuesOf(h, "content-length")| > 0 && ValuesOf(h, "content-length")[0] == IntToString(|body|)
    ensures Step(kind, input, State(pos, h, [Body] + rest)) ==
      Outcome([DataParsed(body)], State(pos + |body|, h, [BodyEnd] + rest))
  {
    FramingOfWritten(h, |body|, "");
    DeclaredBodyStep(kind, input, pos, h, rest, body);
  }

  lemma DeclaredBodyStep(kind: Kind, input: seq<byte>, pos: nat, h: Headers, rest: seq<Mode>, body: seq<byte>)
    requires 0 < |body| && At(input, pos, body) && !IsChunked(h) && ContentLength(h) == |body|
    ensures Step(kind, input, State(pos, h, [Body] + rest)) ==
      Outcome([DataParsed(body)], State(pos + |body|, h, [BodyEnd] + rest))
  {
    var s := State(pos, h, [Body] + rest);
    assert s.pending[0] == Body && s.pending[1..] == rest;
    FixedBodyInBuffer(input, s, rest, body);
    assert Step(kind, input, s) == FixedBody(input, s, |body|);
  }

  lemma FixedBodyInBuffer(input: seq<byte>, s: State, rest: seq<Mode>, body: seq<byte>)
    requires 0 < |body| && At(input, s.pos, body) && s.pending == [Body] + rest
    ensures FixedBody(input, s, |body|) == Outcome([DataParsed(body)], State(s.pos + |body|, s.headers, [BodyEnd] + rest))
  {
    AtSlice(input, s.pos, body);
    assert s.pending[1..] == rest;
  }

  /** The line read after a fixed-length body is consumed and dropped, whatever it holds. */
  lemma LineAfterBodyDropped(kind: Kind, input: seq<byte>, pos: nat, h: Headers, rest: seq<Mode>, t: string)
    requires LineText(t) && |t| + 2 < MAX_HEADER_LINE_SIZE && At(input, pos, WireLine(t))
    ensures Step(kind, input, State(pos, h, [BodyEnd] + rest)) == Outcome([], State(pos + |t| + 2, h, [Trailers] + rest))
  {
    StepOnWrittenLine(kind, input, pos, h, BodyEnd, rest, t);
  }

  /** The events of a chunked body: each chunk's bytes in order. */
  function ChunkEvents(chunks: seq<seq<byte>>): (r: seq<Event>)
    ensures |r| == |chunks|
  {
    if chunks == [] then [] else [DataParsed(chunks[0])] + ChunkEvents(chunks[1..])
  }

  predicate ChunkSizes(chunks: seq<seq<byte>>)
  {
    forall i :: 0 <= i < |chunks| ==> 0 < |chunks[i]| < MAX_CHUNK_SIZE
  }

  function Pow16(k: nat): (r: nat)
    ensures r > 0
  {
    if k == 0 then 1 else 16 * Pow16(k - 1)
  }

  /** A value below 16^k takes at most k hexadecimal digits. */
  lemma {:induction false} HexLength(n: nat, k: nat)
    requires 0 < k && n < Pow16(k)
    ensures |ToHexString(n)| <= k
  {
    if n >= 16 {
      assert k > 1;
      HexLength(n / 16, k - 1);
    }
  }

  /** A size line as a sender writes it is a line of text and is read back as the size. */
  lemma HexLine(n: nat, digits: nat)
    requires 0 < digits && n < Pow16(digits) && n <= INT_MAX
    ensures LineText(ToHexString(n)) && |ToHexString(n)| <= digits
    ensures ChunkSize(ToHexString(n) + "\r\n") == Some(n)
  {
    HexLength(n, digits);
    HexHasNoSeparators(n);
    ChunkSizeOfWritten(n, "");
    assert ToHexString(n) + "" == ToHexString(n);
  }

  /** A chunk-size line followed by that many bytes: the bytes are delivered, and the line after
      them is read next. */
  lemma ChunkSizeStep(kind: Kind, input: seq<byte>, pos: nat, h: Headers, rest: seq<Mode>, data: seq<byte>)
    requires 0 < |data| < MAX_CHUNK_SIZE && At(input, pos, WireLine(ToHexString(|data|)) + data)
    ensures Step(kind, input, State(pos, h, [ChunkSizeLine] + rest)) ==
      Outcome([DataParsed(data)], State(pos + |ToHexString(|data|)| + 2 + |data|, h, [ChunkEnd] + rest))
  {
    var hex := ToHexString(|data|);
    assert LineText(hex) && |hex| + 2 < MAX_HEADER_LINE_SIZE && ChunkSize(hex + "\r\n") == Some(|data|) by {
      HexLine(|data|, 4);
    }
    assert At(input, pos, WireLine(hex)) && At(input, pos + |hex| + 2, data) by {
      AtSplit(input, pos, WireLine(hex), data);
    }
    SizeLineStep(kind, input, pos, h, rest, hex, data);
  }

  lemma SizeLineStep(kind: Kind, input: seq<byte>, pos: nat, h: Headers, rest: seq<Mode>, t: string, data: seq<byte>)
    requires LineText(t) && |t| + 2 < MAX_HEADER_LINE_SIZE && At(input, pos, WireLine(t))
    requires 0 < |data| < MAX_CHUNK_SIZE && ChunkSize(t + "\r\n") == Some(|data|) && At(input, pos + |t| + 2, data)
    ensures Step(kind, input, State(pos, h, [ChunkSizeLine] + rest)) ==
      Outcome([DataParsed(data)], State(pos + |t| + 2 + |data|, h, [ChunkEnd] + rest))
  {
    var s := State(pos, h, [ChunkSizeLine] + rest);
    var after := State(pos + |t| + 2, h, rest);
    assert Step(kind, input, s) == LineOutcome(kind, ChunkSizeLine, t + "\r\n", input, after) by {
      StepOnWrittenLine(kind, input, pos, h, ChunkSizeLine, rest, t);
    }
    SizeLineRead(kind, input, s, t + "\r\n", after, data);
  }

  lemma SizeLineRead(kind: Kind, input: seq<byte>, s: State, line: string, after: State, data: seq<byte>)
    requires s.pos <= |input| && s.pending != [] && after.pos <= |input| && |line| > 0
    requires Step(kind, input, s) == LineOutcome(kind, ChunkSizeLine, line, input, after)
    requires 0 < |data| < MAX_CHUNK_SIZE && ChunkSize(line) == Some(|data|) && At(input, after.pos, data)
    ensures Step(kind, input, s) == Outcome([DataParsed(data)], State(after.pos + |data|, after.headers, [ChunkEnd] + after.pending))
  {
    assert LineOutcome(kind, ChunkSizeLine, line, input, after) == ChunkSizeOutcome(Some(|data|), input, after);
    ChunkInBuffer(input, after.pos, after.headers, after.pending, data);
  }

  lemma ChunkInBuffer(input: seq<byte>, pos: nat, h: Headers, rest: seq<Mode>, data: seq<byte>)
    requires 0 < |data| < MAX_CHUNK_SIZE && At(input, pos, data)
    ensures ChunkSizeOutcome(Some(|data|), input, State(pos, h, rest)) ==
      Outcome([DataParsed(data)], State(pos + |data|, h, [ChunkEnd] + rest))
  {
    AtSlice(input, pos, data);
  }

  /** The CRLF after a chunk's bytes: the next chunk-size line is read. */
  lemma ChunkEndStep(kind: Kind, input: seq<byte>, pos: nat, h: Headers, rest: seq<Mode>)
    requires At(input, pos, CRLF)
    ensures Step(kind, input, State(pos, h, [ChunkEnd] + rest)) == Outcome([], State(pos + 2, h, [ChunkSizeLine] + rest))
  {
    assert WireLine("") == CRLF;
    StepOnWrittenLine(kind, input, pos, h, ChunkEnd, rest, "");
  }

  /** The last-chunk line: the empty end-of-body buffer, then the trailers. */
  lemma LastChunkStep(kind: Kind, input: seq<byte>, pos: nat, h: Headers, rest: seq<Mode>)
    requires At(input, pos, WireLine("0"))
    ensures Step(kind, input, State(pos, h, [ChunkSizeLine] + rest)) == Outcome([DataParsed([])], State(pos + 3, h, [Trailers] + rest))
  {
    HexLine(0, 1);
    assert ToHexString(0) == "0";
    StepOnWrittenLine(kind, input, pos, h, ChunkSizeLine, rest, "0");
    assert Step(kind, input, State(pos, h, [ChunkSizeLine] + rest)) ==
      ChunkSizeOutcome(Some(0), input, State(pos + 3, h, rest));
    var after := State(pos + 3, h, [Trailers] + rest);
    assert ChunkSizeOutcome(Some(0), input, State(pos + 3, h, rest)) == Outcome([DataParsed([])], after);
  }

  /** A chunk size from 8192 on is a failure for the data handler, and the body goes no further. */
  lemma ChunkTooLargeStops(kind: Kind, input: seq<byte>, pos: nat, h: Headers, rest: seq<Mode>, n: nat)
    requires MAX_CHUNK_SIZE <= n <= INT_MAX && At(input, pos, WireLine(ToHexString(n)))
    ensures Step(kind, input, State(pos, h, [ChunkSizeLine] + rest)) ==
      Outcome([DataFailed(ChunkTooLarge)], State(pos + |ToHexString(n)| + 2, h, rest))
  {
    HexLine(n, 8);
    LargeSizeLineStep(kind, input, pos, h, rest, ToHexString(n), n);
  }

  lemma LargeSizeLineStep(kind: Kind, input: seq<byte>, pos: nat, h: Headers, rest: seq<Mode>, t: string, n: int)
    requires LineText(t) && |t| + 2 < MAX_HEADER_LINE_SIZE && At(input, pos, WireLine(t))
    requires n >= MAX_CHUNK_SIZE && ChunkSize(t + "\r\n") == Some(n)
    ensures Step(kind, input, State(pos, h, [ChunkSizeLine] + rest)) ==
      Outcome([DataFailed(ChunkTooLarge)], State(pos + |t| + 2, h, rest))
  {
    StepOnWrittenLine(kind, input, pos, h, ChunkSizeLine, rest, t);
    var after := State(pos + |t| + 2, h, rest);
    assert ChunkSizeOutcome(Some(n), input, after) == Outcome([DataFailed(ChunkTooLarge)], after);
  }

  /** One framed chunk: its bytes are delivered and the next size line is read. */
  lemma ChunkRun(kind: Kind, input: seq<byte>, pos: nat, next: nat, h: Headers, rest: seq<Mode>, data: seq<byte>)
    requires 0 < |data| < MAX_CHUNK_SIZE && At(input, pos, ChunkFrame(data)) && next == pos + |ChunkFrame(data)|
    ensures next <= |input|
    ensures Run(kind, input, State(pos, h, [ChunkSizeLine] + rest)) ==
      [DataParsed(data)] + Run(kind, input, State(next, h, [ChunkSizeLine] + rest))
  {
    var mid := pos + |ToHexString(|data|)| + 2 + |data|;
    ChunkFrameLayout(input, pos, mid, next, data);
    ChunkSizeStep(kind, input, pos, h, rest, data);
    RunThrough(kind, input, State(pos, h, [ChunkSizeLine] + rest), [DataParsed(data)], State(mid, h, [ChunkEnd] + rest));
    ChunkEndStep(kind, input, mid, h, rest);
    assert State(mid + 2, h, [ChunkSizeLine] + rest) == State(next, h, [ChunkSizeLine] + rest);
    RunThroughSilent(kind, input, State(mid, h, [ChunkEnd] + rest), State(next, h, [ChunkSizeLine] + rest));
  }

  /** Where the size line with the bytes, and the CRLF after them, lie in a framed chunk. */
  lemma ChunkFrameLayout(input: seq<byte>, pos: nat, mid: nat, next: nat, data: seq<byte>)
    requires At(input, pos, ChunkFrame(data)) && next == pos + |ChunkFrame(data)|
    requires mid == pos + |ToHexString(|data|)| + 2 + |data|
    ensures At(input, pos, WireLine(ToHexString(|data|)) + data) && At(input, mid, CRLF) && next == mid + 2
  {
    var hex := ToHexString(|data|);
    assert ChunkFrame(data) == (WireLine(hex) + data) + CRLF;
    AtSplit(input, pos, WireLine(hex) + data, CRLF);
  }

  /** The last chunk and an empty trailer section: the empty end-of-body buffer and the empty
      trailer map, and then the next message is read. */
  lemma LastChunkRun(kind: Kind, input: seq<byte>, pos: nat, h: Headers, rest: seq<Mode>)
    requires IsChunked(h) && At(input, pos, LastChunk)
    ensures pos + 5 <= |input|
    ensures Run(kind, input, State(pos, h, [ChunkSizeLine] + rest)) ==
      [DataParsed([]), TrailersParsed([])] + Run(kind, input, State(pos + 5, [], [StartLine] + rest))
  {
    assert LastChunk == WireLine("0") + CRLF;
    AtSplit(input, pos, WireLine("0"), CRLF);
    LastChunkStep(kind, input, pos, h, rest);
    RunThrough(kind, input, State(pos, h, [ChunkSizeLine] + rest), [DataParsed([])], State(pos + 3, h, [Trailers] + rest));
    ChunkedTrailersStep(kind, input, pos + 3, h, rest);
    RunThroughSilent(kind, input, State(pos + 3, h, [Trailers] + rest), State(pos + 3, [], [HeaderBlock(true, [])] + rest));
    BlankLineStep(kind, input, pos + 3, [], rest, true, []);
    RunThrough(kind, input, State(pos + 3, [], [HeaderBlock(true, [])] + rest), [TrailersParsed([])],
               State(pos + 5, [], [StartLine] + rest));
    ConsTwo(DataParsed([]), TrailersParsed([]), Run(kind, input, State(pos + 5, [], [StartLine] + rest)));
  }

  /** Two runs, the second continuing where the first's events end. */
  lemma RunsCompose(kind: Kind, input: seq<byte>, s0: State, s1: State, a: seq<Event>, b: seq<Event>, c: seq<Event>)
    requires s0.pos <= |input| && s1.pos <= |input|
    requires Run(kind, input, s0) == a + Run(kind, input, s1) && Run(kind, input, s1) == b + c
    ensures Run(kind, input, s0) == (a + b) + c
  {
    AppendAssoc(a, b, c);
  }

  lemma ConsTwo<T>(x: T, y: T, tail: seq<T>)
    ensures [x] + ([y] + tail) == [x, y] + tail
  {
    AppendAssoc([x], [y], tail);
    assert [x] + [y] == [x, y];
  }

  /** A chunked body as written: every chunk's bytes in order, the empty end-of-body buffer, the
      (empty) trailers, and then the next message is read from right after the body. */
  lemma {:induction false} ChunkedBodyRun(kind: Kind, input: seq<byte>, pos: nat, end: nat, h: Headers, rest: seq<Mode>,
                                          chunks: seq<seq<byte>>)
    requires IsChunked(h) && ChunkSizes(chunks) && At(input, pos, ChunkedBody(chunks))
    requires end == pos + |ChunkedBody(chunks)|
    ensures end <= |input|
    ensures Run(kind, input, State(pos, h, [ChunkSizeLine] + rest)) ==
      ChunkEvents(chunks) + ([DataParsed([]), TrailersParsed([])] + Run(kind, input, State(end, [], [StartLine] + rest)))
    decreases |chunks|
  {
    if chunks == [] {
      assert ChunkedBody(chunks) == LastChunk;
      LastChunkRun(kind, input, pos, h, rest);
    } else {
      var next := pos + |ChunkFrame(chunks[0])|;
      ChunkedBodyLayout(input, pos, chunks);
      ChunkRun(kind, input, pos, next, h, rest, chunks[0]);
      ChunkedBodyRun(kind, input, next, end, h, rest, chunks[1..]);
      var tail := [DataParsed([]), TrailersParsed([])] + Run(kind, input, State(end, [], [StartLine] + rest));
      RunsCompose(kind, input, State(pos, h, [ChunkSizeLine] + rest), State(next, h, [ChunkSizeLine] + rest),
                  [DataParsed(chunks[0])], ChunkEvents(chunks[1..]), tail);
      assert ChunkEvents(chunks) == [DataParsed(chunks[0])] + ChunkEvents(chunks[1..]);
    }
  }

  /** A chunked body is its first framed chunk and then the rest of the body. */
  lemma ChunkedBodyLayout(input: seq<byte>, pos: nat, chunks: seq<seq<byte>>)
    requires chunks != [] && At(input, pos, ChunkedBody(chunks))
    ensures At(input, pos, ChunkFrame(chunks[0])) && At(input, pos + |ChunkFrame(chunks[0])|, ChunkedBody(chunks[1..]))
    ensures |ChunkedBody(chunks)| == |ChunkFrame(chunks[0])| + |ChunkedBody(chunks[1..])|
  {
    AtSplitWhole(input, pos, ChunkedBody(chunks), ChunkFrame(chunks[0]), ChunkedBody(chunks[1..]));
  }

  // ---------------------------------------------------------------------------------------
  // Bodyless requests on one connection

  /** A request without headers or body: its request line and a blank line. */
  function BodylessRequest(r: RequestLine): seq<byte>
  {
    WireLine(r.ToString()) + CRLF
  }

  function BodylessStream(rs: seq<RequestLine>): seq<byte>
  {
    if rs == [] then [] else BodylessRequest(rs[0]) + BodylessStream(rs[1..])
  }

  /** What each bodyless request produces: its request line, an empty header map, and the empty
      end-of-body buffer. */
  function BodylessEvents(rs: seq<RequestLine>): (r: seq<Event>)
    ensures |r| == 3 * |rs|
  {
    if rs == [] then []
    else [RequestLineParsed(rs[0]), HeadersParsed([]), DataParsed([])] + BodylessEvents(rs[1..])
  }

  /** The two steps after an empty header block of a request: one empty buffer, then the next
      start line. */
  lemma EmptyBodyRun(input: seq<byte>, pos: nat, rest: seq<Mode>)
    requires pos <= |input|
    ensures Run(Requests, input, State(pos, [], [Body] + rest)) == [DataParsed([])] + Run(Requests, input, State(pos, [], [StartLine] + rest))
  {
    UnframedBodyStep(Requests, input, pos, [], rest);
    RunThrough(Requests, input, State(pos, [], [Body] + rest), [DataParsed([])], State(pos, [], [Trailers] + rest));
    PlainTrailersStep(Requests, input, pos, [], rest);
    RunThroughSilent(Requests, input, State(pos, [], [Trailers] + rest), State(pos, [], [StartLine] + rest));
  }

  /** One bodyless request, then the next start line. */
  lemma BodylessRequestRun(input: seq<byte>, pos: nat, next: nat, h: Headers, rest: seq<Mode>, r: RequestLine)
    requires WritableRequestLine(r) && At(input, pos, BodylessRequest(r)) && next == pos + |BodylessRequest(r)|
    ensures next <= |input|
    ensures Run(Requests, input, State(pos, h, [StartLine] + rest)) ==
      [RequestLineParsed(r)] + ([HeadersParsed([])] + ([DataParsed([])] + Run(Requests, input, State(next, [], [StartLine] + rest))))
  {
    var p1 := pos + |r.ToString()| + 2;
    BodylessRequestLayout(input, pos, p1, next, r);
    EmptyHeadersRun(input, p1, next, rest);
    RequestLineRun(input, pos, p1, h, rest, r);
  }

  /** Where the request line and the blank line of a bodyless request lie. */
  lemma BodylessRequestLayout(input: seq<byte>, pos: nat, p1: nat, next: nat, r: RequestLine)
    requires At(input, pos, BodylessRequest(r)) && p1 == pos + |r.ToString()| + 2 && next == pos + |BodylessRequest(r)|
    ensures At(input, pos, WireLine(r.ToString())) && At(input, p1, CRLF) && next == p1 + 2
  {
    var w := WireLine(r.ToString());
    assert BodylessRequest(r) == w + CRLF;
    AtSplit(input, pos, w, CRLF);
  }

  /** A request line as a run: the line is reported and an empty header block follows. */
  lemma RequestLineRun(input: seq<byte>, pos: nat, next: nat, h: Headers, rest: seq<Mode>, r: RequestLine)
    requires WritableRequestLine(r) && At(input, pos, WireLine(r.ToString())) && next == pos + |r.ToString()| + 2
    ensures next <= |input|
    ensures Run(Requests, input, State(pos, h, [StartLine] + rest)) ==
      [RequestLineParsed(r)] + Run(Requests, input, State(next, [], [HeaderBlock(false, [])] + rest))
  {
    RequestLineStep(input, pos, h, rest, r);
    RunThrough(Requests, input, State(pos, h, [StartLine] + rest), [RequestLineParsed(r)],
               State(next, [], [HeaderBlock(false, [])] + rest));
  }

  /** An empty header block of a request: the empty map, the empty body, the next start line. */
  lemma EmptyHeadersRun(input: seq<byte>, pos: nat, next: nat, rest: seq<Mode>)
    requires At(input, pos, CRLF) && next == pos + 2
    ensures next <= |input|
    ensures Run(Requests, input, State(pos, [], [HeaderBlock(false, [])] + rest)) ==
      [HeadersParsed([])] + ([DataParsed([])] + Run(Requests, input, State(next, [], [StartLine] + rest)))
  {
    BlankLineStep(Requests, input, pos, [], rest, false, []);
    RunThrough(Requests, input, State(pos, [], [HeaderBlock(false, [])] + rest), [HeadersParsed([])],
               State(next, [], [Body] + rest));
    EmptyBodyRun(input, next, rest);
  }

  /** Three events and then the rest, as one sequence. */
  lemma ConsThree<T>(x: T, y: T, z: T, tail: seq<T>)
    ensures [x] + ([y] + ([z] + tail)) == [x, y, z] + tail
  {
    AppendAssoc([y], [z], tail);
    AppendAssoc([x], [y] + [z], tail);
    assert [x] + ([y] + [z]) == [x, y, z];
  }

  /** At the end of the buffer the next start line is never read, and the run ends. */
  lemma RunAtEnd(kind: Kind, input: seq<byte>, h: Headers)
    ensures Run(kind, input, State(|input|, h, [StartLine])) == []
  {
    var s := State(|input|, h, [StartLine]);
    assert Step(kind, input, s) == Outcome([], State(|input|, h, []));
  }

  /** Bodyless requests sent back to back are reported in order, each as its request line, an
      empty header map and an empty body. */
  lemma {:induction false} BodylessRun(input: seq<byte>, pos: nat, h: Headers, rs: seq<RequestLine>)
    requires forall i :: 0 <= i < |rs| ==> WritableRequestLine(rs[i])
    requires pos <= |input| && input[pos..] == BodylessStream(rs)
    ensures Run(Requests, input, State(pos, h, [StartLine])) == BodylessEvents(rs)
    decreases |rs|
  {
    if rs == [] {
      RunAtEnd(Requests, input, h);
    } else {
      var next := pos + |BodylessRequest(rs[0])|;
      BodylessStreamLayout(input, pos, next, rs);
      assert [StartLine] + [] == [StartLine];
      BodylessRequestRun(input, pos, next, h, [], rs[0]);
      BodylessRun(input, next, [], rs[1..]);
      ConsThree(RequestLineParsed(rs[0]), HeadersParsed([]), DataParsed([]), BodylessEvents(rs[1..]));
    }
  }

  /** A stream of bodyless requests is its first request and then the rest of the stream. */
  lemma BodylessStreamLayout(input: seq<byte>, pos: nat, next: nat, rs: seq<RequestLine>)
    requires rs != [] && pos <= |input| && input[pos..] == BodylessStream(rs) && next == pos + |BodylessRequest(rs[0])|
    ensures At(input, pos, BodylessRequest(rs[0])) && next <= |input| && input[next..] == BodylessStream(rs[1..])
  {
    assert BodylessStream(rs) == BodylessRequest(rs[0]) + BodylessStream(rs[1..]);
    PrefixAt(input, pos, BodylessRequest(rs[0]), BodylessStream(rs[1..]));
  }

  /** The parse of a connection carrying bodyless requests: they come out in the order they
      were sent. */
  lemma BodylessRequestsInOrder(rs: seq<RequestLine>)
    requires forall i :: 0 <= i < |rs| ==> WritableRequestLine(rs[i])
    ensures Parse(Requests, BodylessStream(rs)) == BodylessEvents(rs)
  {
    BodylessRun(BodylessStream(rs), 0, [], rs);
  }
}
