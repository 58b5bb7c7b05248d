/** Request and status lines: the `RequestLine` and `ResponseLine` values, the validation the
    request and response parsers apply to a split start line, and the way each parser hands a
    result to its registered handlers. */
module StartLines {
  import opened Text
  import opened HttpText

  /** `RequestLine`: the three parts as given; the getters are the datatype's destructors. */
  datatype RequestLine = RequestLine(httpMethod: string, uri: string, version: string)
  {
    /** `toString`: the parts joined by single spaces, which is the wire order. */
    function ToString(): string
    {
      httpMethod + " " + uri + " " + version
    }
  }

  /** `ResponseLine(version, code, status)`; the getters are the datatype's destructors. */
  datatype ResponseLine = ResponseLine(version: string, code: int, status: string)
  {
    /** `toString`: code, status and version joined by single spaces (not the wire order). */
    function ToString(): string
    {
      IntToString(code) + " " + status + " " + version
    }

    /** The order in which a status line is written: version, code, reason phrase. */
    function WireForm(): string
    {
      version + " " + IntToString(code) + " " + status
    }
  }

  datatype LineError = Malformed | BadResponseLine

  datatype Parsed<T> = Parsed(value: T) | Failed(error: LineError)

  /** What a written token looks like: non-empty and free of whitespace. */
  predicate IsToken(s: string)
  {
    |s| > 0 && NoWhitespace(s)
  }

  /** A last part as the parsers accept it: non-empty, no whitespace at its ends. */
  predicate IsPhrase(s: string)
  {
    |s| > 0 && Trimmed(s)
  }

  /** The request parser's check of a start line: the three parts of `splitInitialLine` must all
      be non-empty, otherwise the line is malformed. */
  function ParseRequestLine(line: string): (r: Parsed<RequestLine>)
    ensures r.Failed? ==> r.error == Malformed
    ensures r.Parsed? ==> IsToken(r.value.httpMethod) && IsToken(r.value.uri) && IsPhrase(r.value.version)
    ensures r.Failed? <==>
      var p := SplitInitialLine(line); p.first == [] || p.second == [] || p.rest == []
  {
    var p := SplitInitialLine(line);
    if p.first == [] || p.second == [] || p.rest == [] then Failed(Malformed)
    else Parsed(RequestLine(p.first, p.second, p.rest))
  }

  /** The response parser's check of a status line: all three parts non-empty (else malformed)
      and the second an integer (else a bad response line). */
  function ParseResponseLine(line: string): (r: Parsed<ResponseLine>)
    ensures r.Parsed? ==> INT_MIN <= r.value.code <= INT_MAX
    ensures r.Parsed? ==> IsToken(r.value.version) && IsPhrase(r.value.status)
    ensures r == Failed(Malformed) <==>
      var p := SplitInitialLine(line); p.first == [] || p.second == [] || p.rest == []
  {
    var p := SplitInitialLine(line);
    if p.first == [] || p.second == [] || p.rest == [] then Failed(Malformed)
    else match ParseInt(p.second, 10)
      case None => Failed(BadResponseLine)
      case Some(code) => Parsed(ResponseLine(p.first, code, p.rest))
  }

  /** A request line read back from its own `toString` and a CRLF is the same request line. */
  lemma RequestLineRoundTrip(r: RequestLine)
    requires IsToken(r.httpMethod) && IsToken(r.uri) && IsPhrase(r.version)
    ensures ParseRequestLine(r.ToString() + "\r\n") == Parsed(r)
  {
    SplitInitialLineOfWritten(r.httpMethod, r.uri, r.version);
  }

  /** A request line with a missing part, such as "GET " CRLF, is malformed. */
  lemma MissingPartIsMalformed(verb: string, uri: string)
    requires IsToken(verb) && IsToken(uri)
    ensures ParseRequestLine(verb + " " + uri + "\r\n") == Failed(Malformed)
    ensures ParseRequestLine(verb + " \r\n") == Failed(Malformed)
  {
    SplitInitialLineMissingPart(verb, uri);
    SplitInitialLineOneToken(verb);
  }

  lemma IntToStringIsToken(n: int)
    ensures IsToken(IntToString(n))
  {
    if n < 0 {
      DecimalHasNoWhitespace(-n);
      MinusPrefix(NatToString(-n));
    } else {
      DecimalHasNoWhitespace(n);
    }
  }

  lemma MinusPrefix(d: string)
    requires NoWhitespace(d)
    ensures NoWhitespace("-" + d)
  {
    var s := "-" + d;
    assert forall i :: 1 <= i < |s| ==> s[i] == d[i - 1];
  }

  /** A status line written in wire order is read back as the same response line. */
  lemma ResponseLineRoundTrip(r: ResponseLine)
    requires IsToken(r.version) && IsPhrase(r.status) && INT_MIN <= r.code <= INT_MAX
    ensures ParseResponseLine(r.WireForm() + "\r\n") == Parsed(r)
  {
    IntToStringIsToken(r.code);
    SplitInitialLineOfWritten(r.version, IntToString(r.code), r.status);
    DecimalRoundTrip(r.code);
  }

  /** A status line whose code part is not a number (such as "HTTP/1.1 Hello OK") is a bad
      response line. */
  lemma NonNumericCodeIsBad(version: string, code: string, status: string)
    requires IsToken(version) && IsToken(code) && IsPhrase(status)
    requires ParseInt(code, 10) == None
    ensures ParseResponseLine(version + " " + code + " " + status + "\r\n") == Failed(BadResponseLine)
  {
    SplitInitialLineOfWritten(version, code, status);
  }

  /** `toString` is not the wire order: read back as a status line, its reason phrase lands where
      the code belongs, so a one-word phrase that is not a number makes it a bad response line. */
  lemma ToStringIsNotWireOrder(r: ResponseLine)
    requires IsPhrase(r.version) && IsToken(r.status) && ParseInt(r.status, 10) == None
    ensures ParseResponseLine(r.ToString() + "\r\n") == Failed(BadResponseLine)
  {
    IntToStringIsToken(r.code);
    NonNumericCodeIsBad(IntToString(r.code), r.status, r.version);
  }

  // ---------------------------------------------------------------------------------------
  // Handler fan-out

  /** A registered completion handler, reduced to a name and whether its call throws. */
  datatype Handler = Handler(id: nat, throws: bool)

  datatype Notice<T> = Completed(value: T) | Failure(error: string)

  datatype Call<T> = Call(handler: nat, notice: Notice<T>)

  /** One call per handler, in registration order. */
  function CallsTo<T>(hs: seq<Handler>, n: Notice<T>): (r: seq<Call<T>>)
    ensures |r| == |hs| && forall i :: 0 <= i < |hs| ==> r[i] == Call(hs[i].id, n)
  {
    if hs == [] then [] else [Call(hs[0].id, n)] + CallsTo(hs[1..], n)
  }

  /** How many handlers a loop without a per-handler `try` reaches: up to and including the first
      one that throws. */
  function Reached(hs: seq<Handler>): (r: nat)
    ensures r <= |hs|
    ensures forall i :: 0 <= i < r - 1 ==> !hs[i].throws
    ensures r < |hs| ==> r > 0 && hs[r - 1].throws
    ensures (exists i :: 0 <= i < |hs| && hs[i].throws) <==> r > 0 && hs[r - 1].throws
  {
    if hs == [] then 0 else if hs[0].throws then 1 else 1 + Reached(hs[1..])
  }

  /** When no handler throws, stopping at the first thrower reaches them all. */
  lemma {:induction false} NoThrowerReachesAll(hs: seq<Handler>)
    requires forall i :: 0 <= i < |hs| ==> !hs[i].throws
    ensures CallsTo(hs[..Reached(hs)], Completed(0)) == CallsTo(hs, Completed(0))
  {
    assert hs[..Reached(hs)] == hs;
  }

  /** The handler list of a parser (`onRequestLine` or `onResponseLine`) with a record of the
      calls made on it. */
  class HandlerList<T> {
    var handlers: seq<Handler>
    var calls: seq<Call<T>>

    constructor ()
      ensures handlers == [] && calls == []
    {
      handlers := [];
      calls := [];
    }

    /** `onRequestLine` / `onResponseLine`: append a handler. */
    method Add(h: Handler)
      modifies this
      ensures handlers == old(handlers) + [h] && calls == old(calls)
    {
      handlers := handlers + [h];
    }

    /** The request parser's loops: every handler in its own `try`, so each one is called
        whatever the others do. */
    method NotifyEach(n: Notice<T>)
      modifies this
      ensures handlers == old(handlers)
      ensures calls == old(calls) + CallsTo(handlers, n)
    {
      var i := 0;
      while i < |handlers|
        invariant 0 <= i <= |handlers| && handlers == old(handlers)
        invariant calls == old(calls) + CallsTo(handlers[..i], n)
      {
        AppendOne(old(calls), CallsTo(handlers[..i], n), Call(handlers[i].id, n));
        calls := calls + [Call(handlers[i].id, n)];
        assert handlers[..i + 1] == handlers[..i] + [handlers[i]];
        CallsToSnoc(handlers[..i], handlers[i], n);
        i := i + 1;
      }
      assert handlers[..i] == handlers;
    }

    /** The response parser's loops: one `try` around the whole loop, so the first handler that
        throws is the last one called. */
    method NotifyUntilThrow(n: Notice<T>)
      modifies this
      ensures handlers == old(handlers)
      ensures calls == old(calls) + CallsTo(handlers[..Reached(handlers)], n)
    {
      var hs := handlers;
      var i := 0;
      var thrown := false;
      while i < |hs| && !thrown
        invariant 0 <= i <= |hs| && handlers == hs
        invariant calls == old(calls) + CallsTo(hs[..i], n)
        invariant thrown <==> i > 0 && hs[i - 1].throws
        invariant forall k :: 0 <= k < i - 1 ==> !hs[k].throws
      {
        var c := Call(hs[i].id, n);
        AppendOne(old(calls), CallsTo(hs[..i], n), c);
        CallsToSnoc(hs[..i], hs[i], n);
        assert hs[..i + 1] == hs[..i] + [hs[i]];
        calls := calls + [c];
        thrown := hs[i].throws;
        i := i + 1;
      }
      ReachedIs(hs, i);
    }
  }

  lemma AppendOne<T>(a: seq<T>, b: seq<T>, x: T)
    ensures (a + b) + [x] == a + (b + [x])
  {
  }

  lemma CallsToSnoc<T>(hs: seq<Handler>, h: Handler, n: Notice<T>)
    ensures CallsTo(hs + [h], n) == CallsTo(hs, n) + [Call(h.id, n)]
  {
  }

  lemma {:induction false} ReachedIs(hs: seq<Handler>, i: nat)
    requires i <= |hs|
    requires forall k :: 0 <= k < i - 1 ==> !hs[k].throws
    requires (i > 0 && hs[i - 1].throws) || (i == |hs| && (i == 0 || !hs[i - 1].throws))
    ensures Reached(hs) == i
  {
    if i > 0 && !hs[0].throws {
      ReachedIs(hs[1..], i - 1);
    }
  }
}
