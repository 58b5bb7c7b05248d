/** The string scanners shared by the two HTTP parsers: header-line and start-line splitting,
    chunk-size parsing, and the multi-valued header map the event parser fills.
    `parser/HttpParser.java` and `aio/HttpRequest.java` carry identical copies of the scanners. */
module HttpText {
  import opened Text

  /** First index at or after `offset` that is not whitespace, or `|s|`. */
  function FindNonWhitespace(s: string, offset: nat): (r: nat)
    requires offset <= |s|
    ensures offset <= r <= |s|
    ensures forall i :: offset <= i < r ==> IsWhitespace(s[i])
    ensures r < |s| ==> !IsWhitespace(s[r])
    decreases |s| - offset
  {
    if offset == |s| || !IsWhitespace(s[offset]) then offset else FindNonWhitespace(s, offset + 1)
  }

  /** First index at or after `offset` that is whitespace, or `|s|`. */
  function FindWhitespace(s: string, offset: nat): (r: nat)
    requires offset <= |s|
    ensures offset <= r <= |s|
    ensures forall i :: offset <= i < r ==> !IsWhitespace(s[i])
    ensures r < |s| ==> IsWhitespace(s[r])
    decreases |s| - offset
  {
    if offset == |s| || IsWhitespace(s[offset]) then offset else FindWhitespace(s, offset + 1)
  }

  /** One past the last character that is not whitespace, or 0. */
  function FindEndOfString(s: string): (r: nat)
    ensures r <= |s|
    ensures forall i :: r <= i < |s| ==> IsWhitespace(s[i])
    ensures r > 0 ==> !IsWhitespace(s[r - 1])
  {
    if s == [] || !IsWhitespace(s[|s| - 1]) then |s| else FindEndOfString(s[..|s| - 1])
  }

  predicate NoWhitespace(s: string)
  {
    forall i :: 0 <= i < |s| ==> !IsWhitespace(s[i])
  }

  /** No whitespace at either end (what `splitHeader` and `splitInitialLine` leave of a value). */
  predicate Trimmed(s: string)
  {
    s == [] || (!IsWhitespace(s[0]) && !IsWhitespace(s[|s| - 1]))
  }

  /** Index of the first ':' or whitespace at or after `offset`, or `|s|`: the end of a header name. */
  function FindNameEnd(s: string, offset: nat): (r: nat)
    requires offset <= |s|
    ensures offset <= r <= |s|
    ensures forall i :: offset <= i < r ==> s[i] != ':' && !IsWhitespace(s[i])
    ensures r < |s| ==> s[r] == ':' || IsWhitespace(s[r])
    decreases |s| - offset
  {
    if offset == |s| || s[offset] == ':' || IsWhitespace(s[offset]) then offset
    else FindNameEnd(s, offset + 1)
  }

  /** One past the first ':' at or after `offset`, or `|s|` when there is none. */
  function FindColonEnd(s: string, offset: nat): (r: nat)
    requires offset <= |s|
    ensures offset <= r <= |s|
    ensures r < |s| ==> r > offset && s[r - 1] == ':'
    decreases |s| - offset
  {
    if offset == |s| then offset
    else if s[offset] == ':' then offset + 1
    else FindColonEnd(s, offset + 1)
  }

  datatype HeaderField = HeaderField(name: string, value: string)

  /** `splitHeader`: the name runs from the first non-whitespace character to the first ':' or
      whitespace; the value is what follows the colon without surrounding whitespace, or "". */
  function SplitHeader(line: string): (r: HeaderField)
    ensures forall i :: 0 <= i < |r.name| ==> r.name[i] != ':' && !IsWhitespace(r.name[i])
    ensures Trimmed(r.value)
    ensures |r.name| + |r.value| <= |line|
  {
    var nameStart := FindNonWhitespace(line, 0);
    var nameEnd := FindNameEnd(line, nameStart);
    var colonEnd := FindColonEnd(line, nameEnd);
    var valueStart := FindNonWhitespace(line, colonEnd);
    NameSlice(line, nameStart, nameEnd);
    if valueStart == |line| then
      HeaderField(line[nameStart..nameEnd], "")
    else
      ValueSlice(line, valueStart, FindEndOfString(line));
      HeaderField(line[nameStart..nameEnd], line[valueStart..FindEndOfString(line)])
  }

  lemma NameSlice(line: string, i: nat, j: nat)
    requires i <= j <= |line| && forall k :: i <= k < j ==> line[k] != ':' && !IsWhitespace(line[k])
    ensures forall k :: 0 <= k < j - i ==> line[i..j][k] != ':' && !IsWhitespace(line[i..j][k])
  {
  }

  /** From a non-whitespace character to the end of the last one, a value is trimmed. */
  lemma ValueSlice(line: string, i: nat, e: nat)
    requires i < |line| && !IsWhitespace(line[i]) && e == FindEndOfString(line)
    ensures i < e && Trimmed(line[i..e])
  {
    EndAfterNonWhitespace(line, i, e);
    SliceTrimmed(line, i, e);
  }

  lemma EndAfterNonWhitespace(line: string, i: nat, e: nat)
    requires i < |line| && !IsWhitespace(line[i]) && e == FindEndOfString(line)
    ensures i < e && !IsWhitespace(line[e - 1])
  {
  }

  lemma SliceTrimmed(line: string, i: nat, e: nat)
    requires i < e <= |line| && !IsWhitespace(line[i]) && !IsWhitespace(line[e - 1])
    ensures Trimmed(line[i..e])
  {
    assert line[i..e][0] == line[i] && line[i..e][e - i - 1] == line[e - 1];
  }

  datatype InitialLine = InitialLine(first: string, second: string, rest: string)

  /** One token of `splitInitialLine`: whitespace from `offset` on is skipped and the token runs to
      the next whitespace; the result also gives where the token ends. */
  function NextToken(line: string, offset: nat): (r: (string, nat))
    requires offset <= |line|
    ensures offset <= r.1 <= |line| && NoWhitespace(r.0)
  {
    var start := FindNonWhitespace(line, offset);
    var end := FindWhitespace(line, start);
    TokenSlice(line, start, end);
    (line[start..end], end)
  }

  /** The last part of `splitInitialLine`: the line from `offset` on without whitespace at either
      end, or "" when nothing but whitespace remains. */
  function RestFrom(line: string, offset: nat): (r: string)
    requires offset <= |line|
    ensures Trimmed(r)
  {
    var start := FindNonWhitespace(line, offset);
    var end := FindEndOfString(line);
    if start < end then line[start..end] else ""
  }

  /** `splitInitialLine`: always three parts: the first token, the second token, and the rest of
      the line without surrounding whitespace (which may itself hold spaces), each possibly "". */
  function SplitInitialLine(line: string): (r: InitialLine)
    ensures NoWhitespace(r.first) && NoWhitespace(r.second) && Trimmed(r.rest)
  {
    var (first, firstEnd) := NextToken(line, 0);
    var (second, secondEnd) := NextToken(line, firstEnd);
    InitialLine(first, second, RestFrom(line, secondEnd))
  }

  lemma TokenSlice(s: string, i: nat, j: nat)
    requires i <= j <= |s| && forall k :: i <= k < j ==> !IsWhitespace(s[k])
    ensures NoWhitespace(s[i..j])
  {
  }

  lemma FindNonWhitespaceAt(s: string, offset: nat, k: nat)
    requires offset <= k <= |s|
    requires forall i :: offset <= i < k ==> IsWhitespace(s[i])
    requires k == |s| || !IsWhitespace(s[k])
    ensures FindNonWhitespace(s, offset) == k
    decreases k - offset
  {
    if offset < k {
      FindNonWhitespaceAt(s, offset + 1, k);
    }
  }

  lemma FindWhitespaceAt(s: string, offset: nat, k: nat)
    requires offset <= k <= |s|
    requires forall i :: offset <= i < k ==> !IsWhitespace(s[i])
    requires k == |s| || IsWhitespace(s[k])
    ensures FindWhitespace(s, offset) == k
    decreases k - offset
  {
    if offset < k {
      FindWhitespaceAt(s, offset + 1, k);
    }
  }

  lemma FindNameEndAt(s: string, offset: nat, k: nat)
    requires offset <= k <= |s|
    requires forall i :: offset <= i < k ==> s[i] != ':' && !IsWhitespace(s[i])
    requires k == |s| || s[k] == ':' || IsWhitespace(s[k])
    ensures FindNameEnd(s, offset) == k
    decreases k - offset
  {
    if offset < k {
      FindNameEndAt(s, offset + 1, k);
    }
  }

  lemma FindEndOfStringAt(s: string, k: nat)
    requires k <= |s|
    requires forall i :: k <= i < |s| ==> IsWhitespace(s[i])
    requires k == 0 || !IsWhitespace(s[k - 1])
    ensures FindEndOfString(s) == k
    decreases |s|
  {
    if k < |s| {
      FindEndOfStringAt(s[..|s| - 1], k);
    }
  }

  /** A header written as "name: value" CRLF is split back into that name and value, when the
      name holds no ':' or whitespace and the value has no whitespace at its ends. */
  lemma SplitHeaderOfWritten(name: string, value: string)
    requires |name| > 0 && forall i :: 0 <= i < |name| ==> name[i] != ':' && !IsWhitespace(name[i])
    requires Trimmed(value)
    ensures SplitHeader(name + ": " + value + "\r\n") == HeaderField(name, value)
  {
    var line := name + ": " + value + "\r\n";
    var n := |name|;
    HeaderLayout(line, name, value);
    FindNonWhitespaceAt(line, 0, 0);
    FindNameEndAt(line, 0, n);
    assert FindColonEnd(line, n) == n + 1;
    ValueScan(line, n + 1, value);
  }

  /** The scans over a value after one space and before CRLF find exactly the value. */
  lemma ValueScan(line: string, at: nat, value: string)
    requires Trimmed(value) && |line| == at + |value| + 3 && line[at] == ' '
    requires line[at + 1..at + 1 + |value|] == value
    requires line[|line| - 2] == '\r' && line[|line| - 1] == '\n'
    ensures value == [] ==> FindNonWhitespace(line, at) == |line|
    ensures value != [] ==> FindNonWhitespace(line, at) == at + 1 && FindEndOfString(line) == at + 1 + |value|
  {
    if value == [] {
      FindNonWhitespaceAt(line, at, |line|);
    } else {
      assert line[at + 1] == value[0] && line[at + |value|] == value[|value| - 1];
      FindNonWhitespaceAt(line, at, at + 1);
      FindEndOfStringAt(line, at + 1 + |value|);
    }
  }

  lemma HeaderLayout(line: string, name: string, value: string)
    requires line == name + ": " + value + "\r\n"
    ensures |line| == |name| + |value| + 4
    ensures line[0..|name|] == name && line[|name|] == ':' && line[|name| + 1] == ' '
    ensures forall i :: 0 <= i < |name| ==> line[i] == name[i]
    ensures line[|name| + 2..|name| + 2 + |value|] == value
    ensures forall i :: 0 <= i < |value| ==> line[|name| + 2 + i] == value[i]
    ensures line[|line| - 2] == '\r' && line[|line| - 1] == '\n'
  {
    assert line[0..|name|] == name;
    assert line[|name| + 2..|name| + 2 + |value|] == value;
  }

  /** A token found in place: the whitespace scan from its first character stops right after it. */
  lemma TokenEndsAt(s: string, start: nat, tok: string)
    requires start + |tok| < |s| && s[start..start + |tok|] == tok
    requires NoWhitespace(tok) && IsWhitespace(s[start + |tok|])
    ensures FindWhitespace(s, start) == start + |tok|
  {
    assert forall i :: start <= i < start + |tok| ==> s[i] == tok[i - start];
    FindWhitespaceAt(s, start, start + |tok|);
  }

  /** A start line written as three space-separated parts and CRLF is split back into them, when
      the first two are non-empty tokens and the third is non-empty with no whitespace at its ends
      (it may contain spaces, as a reason phrase does). */
  lemma SplitInitialLineOfWritten(a: string, b: string, c: string)
    requires |a| > 0 && NoWhitespace(a) && |b| > 0 && NoWhitespace(b)
    requires |c| > 0 && Trimmed(c)
    ensures SplitInitialLine(a + " " + b + " " + c + "\r\n") == InitialLine(a, b, c)
  {
    var line := a + " " + b + " " + c + "\r\n";
    var na, nb, nc := |a|, |b|, |c|;
    assert line[0..na] == a && line[na] == ' ';
    assert line[na + 1..na + 1 + nb] == b && line[na + 1 + nb] == ' ';
    assert line[na + nb + 2..na + nb + 2 + nc] == c;
    assert line[|line| - 2] == '\r' && line[|line| - 1] == '\n';
    SplitInitialLineOfLayout(line, a, b, c);
  }

  /** The same, for any line laid out as the three parts, single spaces between them, and CRLF. */
  lemma SplitInitialLineOfLayout(line: string, a: string, b: string, c: string)
    requires |a| > 0 && NoWhitespace(a) && |b| > 0 && NoWhitespace(b)
    requires |c| > 0 && Trimmed(c)
    requires |line| == |a| + |b| + |c| + 4
    requires line[0..|a|] == a && line[|a|] == ' '
    requires line[|a| + 1..|a| + 1 + |b|] == b && line[|a| + 1 + |b|] == ' '
    requires line[|a| + |b| + 2..|a| + |b| + 2 + |c|] == c
    requires line[|line| - 2] == '\r' && line[|line| - 1] == '\n'
    ensures SplitInitialLine(line) == InitialLine(a, b, c)
  {
    FirstTokenAt(line, a);
    TokenAfterSpace(line, |a|, b);
    RestAfterSpace(line, |a| + 1 + |b|, c);
  }

  /** The first token of a line that starts with it and a whitespace character. */
  lemma FirstTokenAt(line: string, a: string)
    requires |a| > 0 && NoWhitespace(a) && |a| < |line|
    requires line[0..|a|] == a && IsWhitespace(line[|a|])
    ensures NextToken(line, 0) == (a, |a|)
  {
    assert line[0] == a[0];
    FindNonWhitespaceAt(line, 0, 0);
    TokenEndsAt(line, 0, a);
  }

  /** A token after one space, followed by a whitespace character. */
  lemma TokenAfterSpace(line: string, at: nat, b: string)
    requires |b| > 0 && NoWhitespace(b) && at + 1 + |b| < |line|
    requires line[at] == ' ' && line[at + 1..at + 1 + |b|] == b && IsWhitespace(line[at + 1 + |b|])
    ensures NextToken(line, at) == (b, at + 1 + |b|)
  {
    assert line[at + 1] == b[0];
    FindNonWhitespaceAt(line, at, at + 1);
    TokenEndsAt(line, at + 1, b);
  }

  /** A trimmed last part after one space, followed by CRLF. */
  lemma RestAfterSpace(line: string, at: nat, c: string)
    requires |c| > 0 && Trimmed(c) && |line| == at + 1 + |c| + 2
    requires line[at] == ' ' && line[at + 1..at + 1 + |c|] == c
    requires line[|line| - 2] == '\r' && line[|line| - 1] == '\n'
    ensures RestFrom(line, at) == c
  {
    assert line[at + 1] == c[0];
    FindNonWhitespaceAt(line, at, at + 1);
    assert line[at + |c|] == c[|c| - 1];
    FindEndOfStringAt(line, at + 1 + |c|);
  }

  /** Nothing but whitespace from `at` on: no token and no last part. */
  lemma NothingAfter(line: string, at: nat)
    requires at <= |line| && forall i :: at <= i < |line| ==> IsWhitespace(line[i])
    ensures NextToken(line, at) == ("", |line|) && RestFrom(line, at) == ""
  {
    FindNonWhitespaceAt(line, at, |line|);
    FindWhitespaceAt(line, |line|, |line|);
  }

  /** A line with nothing after its second token yields "" as the third part. */
  lemma SplitInitialLineMissingPart(a: string, b: string)
    requires |a| > 0 && NoWhitespace(a) && |b| > 0 && NoWhitespace(b)
    ensures SplitInitialLine(a + " " + b + "\r\n") == InitialLine(a, b, "")
  {
    var line := a + " " + b + "\r\n";
    TwoPartLayout(line, a, b);
    FirstTokenAt(line, a);
    TokenAfterSpace(line, |a|, b);
    NothingAfter(line, |a| + 1 + |b|);
  }

  lemma TwoPartLayout(line: string, a: string, b: string)
    requires line == a + " " + b + "\r\n"
    ensures |line| == |a| + |b| + 3
    ensures line[0..|a|] == a && line[|a|] == ' '
    ensures line[|a| + 1..|a| + 1 + |b|] == b && IsWhitespace(line[|a| + 1 + |b|])
    ensures forall i :: |a| + 1 + |b| <= i < |line| ==> IsWhitespace(line[i])
  {
    var na, nb := |a|, |b|;
    assert line[0..na] == a;
    assert line[na + 1..na + 1 + nb] == b;
    assert line[na + 1 + nb] == '\r' && line[na + 2 + nb] == '\n';
  }

  /** A line with a single token yields "" as the second and third parts. */
  lemma SplitInitialLineOneToken(a: string)
    requires |a| > 0 && NoWhitespace(a)
    ensures SplitInitialLine(a + " \r\n") == InitialLine(a, "", "")
  {
    var line := a + " \r\n";
    var na := |a|;
    assert line[0..na] == a && line[na] == ' ';
    assert line[na + 1] == '\r' && line[na + 2] == '\n';
    FirstTokenAt(line, a);
    NothingAfter(line, na);
  }

  // ---------------------------------------------------------------------------------------
  // Multi-valued headers, in arrival order of their names (a LinkedHashMap of lists)

  type Headers = seq<(string, seq<string>)>

  predicate UniqueNames(h: Headers)
  {
    forall i, j :: 0 <= i < j < |h| ==> h[i].0 != h[j].0
  }

  /** `Map.get`: the values stored under `name`, if any. */
  function Lookup(h: Headers, name: string): (r: Option<seq<string>>)
    ensures r.None? <==> name !in Keys(h)
    ensures r.Some? ==> exists i :: 0 <= i < |h| && h[i] == (name, r.value)
  {
    if h == [] then None
    else if h[0].0 == name then Some(h[0].1)
    else Lookup(h[1..], name)
  }

  function ValuesOf(h: Headers, name: string): seq<string>
  {
    match Lookup(h, name)
    case Some(vs) => vs
    case None => []
  }

  /** Appends `value` to the list under `name`, creating the list at the end when absent. */
  function AddValue(h: Headers, name: string, value: string): (r: Headers)
    ensures |r| == if name in Keys(h) then |h| else |h| + 1
  {
    if h == [] then [(name, [value])]
    else if h[0].0 == name then [(name, h[0].1 + [value])] + h[1..]
    else [h[0]] + AddValue(h[1..], name, value)
  }

  /** Appending a value: the name's list grows by that value at its end and every other name
      keeps its list. */
  lemma {:induction false} AddValueLookup(h: Headers, name: string, value: string)
    ensures Lookup(AddValue(h, name, value), name) == Some(ValuesOf(h, name) + [value])
    ensures forall other :: other != name ==> Lookup(AddValue(h, name, value), other) == Lookup(h, other)
  {
    var r := AddValue(h, name, value);
    if h == [] {
      assert r == [(name, [value])];
      assert Lookup(r, name) == Some([value]);
      assert ValuesOf(h, name) + [value] == [value];
      assert forall other :: other != name ==> Lookup(r, other) == Lookup(r[1..], other);
    } else if h[0].0 == name {
      assert r[0] == (name, h[0].1 + [value]) && r[1..] == h[1..];
      assert Lookup(r, name) == Some(r[0].1);
      assert ValuesOf(h, name) == h[0].1;
    } else {
      AddValueLookup(h[1..], name, value);
      assert r == [h[0]] + AddValue(h[1..], name, value);
      assert ValuesOf(h, name) == ValuesOf(h[1..], name);
    }
  }

  /** Names keep their arrival order, a new name going last, and stay unique. */
  lemma {:induction false} AddValueNames(h: Headers, name: string, value: string)
    requires UniqueNames(h)
    ensures Keys(AddValue(h, name, value)) == if name in Keys(h) then Keys(h) else Keys(h) + [name]
    ensures UniqueNames(AddValue(h, name, value))
  {
    var r := AddValue(h, name, value);
    if h == [] {
    } else if h[0].0 == name {
      assert Keys(r) == Keys(h);
    } else {
      AddValueNames(h[1..], name, value);
      assert r == [h[0]] + AddValue(h[1..], name, value);
      assert Keys(r) == [h[0].0] + Keys(AddValue(h[1..], name, value));
      assert Keys(h) == [h[0].0] + Keys(h[1..]);
      assert h[0].0 !in Keys(h[1..]);
    }
  }

  /** `parseHeaderLine`: store the value under the lower-cased name. */
  function HeaderLineAdded(h: Headers, line: string): Headers
  {
    var field := SplitHeader(line);
    AddValue(h, ToLower(field.name), field.value)
  }

  /** `isChunked`: the first transfer-encoding value is exactly "chunked". */
  predicate IsChunked(h: Headers)
  {
    var vs := ValuesOf(h, "transfer-encoding");
    |vs| > 0 && vs[0] == "chunked"
  }

  /** `getContentLength`: the first content-length value as a decimal integer, else -1. */
  function ContentLength(h: Headers): int
  {
    var vs := ValuesOf(h, "content-length");
    if |vs| > 0 then
      match ParseInt(vs[0], 10)
      case Some(n) => n
      case None => -1
    else -1
  }

  /** The framing headers as a sender writes them are read back: a decimal content length is that
      length, a missing one is -1, and "chunked" as the first transfer coding marks a chunked
      body while any other first coding does not. */
  lemma FramingOfWritten(h: Headers, n: int, coding: string)
    requires INT_MIN <= n <= INT_MAX
    ensures ValuesOf(h, "content-length") == [] ==> ContentLength(h) == -1
    ensures |ValuesOf(h, "content-length")| > 0 && ValuesOf(h, "content-length")[0] == IntToString(n) ==>
      ContentLength(h) == n
    ensures |ValuesOf(h, "transfer-encoding")| > 0 && ValuesOf(h, "transfer-encoding")[0] == coding ==>
      (IsChunked(h) <==> coding == "chunked")
  {
    DecimalRoundTrip(n);
  }

  // ---------------------------------------------------------------------------------------
  // Chunk sizes

  predicate IsChunkExtStart(c: char)
  {
    c == ';' || IsWhitespace(c) || IsIsoControl(c)
  }

  /** Index of the first ';', whitespace or control character, or `|s|`. */
  function FirstExtStart(s: string, from: nat): (r: nat)
    requires from <= |s|
    ensures from <= r <= |s|
    ensures forall i :: from <= i < r ==> !IsChunkExtStart(s[i])
    ensures r < |s| ==> IsChunkExtStart(s[r])
    decreases |s| - from
  {
    if from == |s| || IsChunkExtStart(s[from]) then from else FirstExtStart(s, from + 1)
  }

  /** `getChunkSize`: trim, drop everything from the first ';', whitespace or control character
      (the chunk extension), and read the rest as hexadecimal. `None` is the
      `NumberFormatException` the source throws. */
  function ChunkSize(line: string): (r: Option<int>)
  {
    var t := Trim(line);
    ParseInt(t[..FirstExtStart(t, 0)], 16)
  }

  /** A chunk-size line as the serializer writes it (lower-case hex, optionally followed by a
      chunk extension starting with ';', then CRLF) is read back as that size. */
  lemma ChunkSizeOfWritten(n: nat, ext: string)
    requires n <= INT_MAX
    requires ext == [] || ext[0] == ';'
    ensures ChunkSize(ToHexString(n) + ext + "\r\n") == Some(n)
  {
    var hex := ToHexString(n);
    var t := Trim(hex + ext + "\r\n");
    HexHasNoSeparators(n);
    TrimmedSizeLine(hex, ext);
    assert forall i :: 0 <= i < |hex| ==> t[i] == hex[i];
    FirstExtStartAt(t, 0, |hex|);
    assert t[..|hex|] == hex;
    HexRoundTrip(n);
  }

  /** `trim` of a size line keeps the digits and the extension's ';' at its front. */
  lemma TrimmedSizeLine(hex: string, ext: string)
    requires |hex| > 0 && forall i :: 0 <= i < |hex| ==> hex[i] > ' ' && hex[i] != ';'
    requires ext == [] || ext[0] == ';'
    ensures var t := Trim(hex + ext + "\r\n");
      |t| >= |hex| && t[..|hex|] == hex && (|t| > |hex| ==> t[|hex|] == ';')
  {
    var line := hex + ext + "\r\n";
    assert line[0] == hex[0];
    assert TrimStart(line) == line;
    var t := TrimEnd(line);
    TrimEndShape(line);
    assert line[|hex| - 1] == hex[|hex| - 1];
    assert |t| >= |hex|;
    assert t[..|hex|] == line[..|hex|] == hex;
    if |t| > |hex| {
      assert t[|hex|] == line[|hex|] == ext[0];
    }
  }

  lemma FirstExtStartAt(t: string, from: nat, k: nat)
    requires from <= k <= |t|
    requires forall i :: from <= i < k ==> !IsChunkExtStart(t[i])
    requires k == |t| || IsChunkExtStart(t[k])
    ensures FirstExtStart(t, from) == k
    decreases k - from
  {
    if from < k {
      FirstExtStartAt(t, from + 1, k);
    }
  }

  /** One chunk as section 4.1 of RFC 7230 frames it, without extension: the size in lower-case
      hexadecimal, CRLF, the data, CRLF. */
  function ChunkFrame(data: seq<byte>): (r: seq<byte>)
    ensures |r| == |ToHexString(|data|)| + |data| + 4
  {
    EncodeAscii(ToHexString(|data|)) + CRLF + data + CRLF
  }

  /** The last chunk and the empty trailer section that close a chunked body. */
  const LastChunk: seq<byte> := [48, 13, 10, 13, 10]

  /** A chunked body: each chunk framed in order, then the last chunk. */
  function ChunkedBody(chunks: seq<seq<byte>>): (r: seq<byte>)
  {
    if chunks == [] then LastChunk else ChunkFrame(chunks[0]) + ChunkedBody(chunks[1..])
  }

  // ---------------------------------------------------------------------------------------
  // Trailing whitespace: `aio/HttpRequest.java` splits lines without their terminator, the
  // event parser splits them with it; both give the same parts.

  predicate AllWhitespace(w: string)
  {
    forall i :: 0 <= i < |w| ==> IsWhitespace(w[i])
  }

  lemma ExtendedSlice(s: string, w: string, i: nat, j: nat)
    requires i <= j <= |s|
    ensures (s + w)[i..j] == s[i..j]
  {
  }

  lemma FindWhitespaceExtended(s: string, w: string, o: nat)
    requires o <= |s| && AllWhitespace(w)
    ensures FindWhitespace(s + w, o) == FindWhitespace(s, o)
  {
    var k := FindWhitespace(s, o);
    assert k == |s| && w != [] ==> IsWhitespace((s + w)[k]);
    FindWhitespaceAt(s + w, o, k);
  }

  lemma FindNameEndExtended(s: string, w: string, o: nat)
    requires o <= |s| && AllWhitespace(w)
    ensures FindNameEnd(s + w, o) == FindNameEnd(s, o)
  {
    var k := FindNameEnd(s, o);
    assert k == |s| && w != [] ==> IsWhitespace((s + w)[k]);
    FindNameEndAt(s + w, o, k);
  }

  /** Non-whitespace found in `s` is found in the same place; otherwise the scan runs to the end. */
  lemma FindNonWhitespaceExtended(s: string, w: string, o: nat)
    requires o <= |s| + |w| && AllWhitespace(w)
    ensures o <= |s| && FindNonWhitespace(s, o) < |s| ==> FindNonWhitespace(s + w, o) == FindNonWhitespace(s, o)
    ensures (o <= |s| && FindNonWhitespace(s, o) == |s|) || o >= |s| ==> FindNonWhitespace(s + w, o) == |s| + |w|
  {
    if o <= |s| && FindNonWhitespace(s, o) < |s| {
      FindNonWhitespaceAt(s + w, o, FindNonWhitespace(s, o));
    } else {
      FindNonWhitespaceAt(s + w, o, |s| + |w|);
    }
  }

  lemma FindEndOfStringExtended(s: string, w: string)
    requires AllWhitespace(w)
    ensures FindEndOfString(s + w) == FindEndOfString(s)
  {
    FindEndOfStringAt(s + w, FindEndOfString(s));
  }

  lemma {:induction false} FindColonEndExtended(s: string, w: string, o: nat)
    requires o <= |s|
    ensures FindColonEnd(s, o) < |s| ==> FindColonEnd(s + w, o) == FindColonEnd(s, o)
    ensures FindColonEnd(s + w, o) >= FindColonEnd(s, o)
    decreases |s| - o
  {
    if o < |s| && s[o] != ':' {
      FindColonEndExtended(s, w, o + 1);
    }
  }

  /** Splitting a header line does not see trailing whitespace, such as the line terminator. */
  lemma SplitHeaderExtended(s: string, w: string)
    requires AllWhitespace(w)
    ensures SplitHeader(s + w) == SplitHeader(s)
  {
    var t := s + w;
    var nameStart := FindNonWhitespace(s, 0);
    FindNonWhitespaceExtended(s, w, 0);
    if nameStart < |s| {
      var nameEnd := FindNameEnd(s, nameStart);
      FindNameEndExtended(s, w, nameStart);
      ExtendedSlice(s, w, nameStart, nameEnd);
      SplitHeaderValueExtended(s, w, nameEnd);
    } else {
      FindNameEndAt(s, |s|, |s|);
      FindNameEndAt(t, |t|, |t|);
      FindColonEndExtended(s, w, |s|);
      FindNonWhitespaceExtended(s, w, |s|);
      FindNonWhitespaceExtended(s, w, FindColonEnd(t, |t|));
    }
  }

  /** The value part of the same split, from the end of the name on. */
  lemma SplitHeaderValueExtended(s: string, w: string, nameEnd: nat)
    requires nameEnd <= |s| && AllWhitespace(w)
    ensures var c, c' := FindColonEnd(s, nameEnd), FindColonEnd(s + w, nameEnd);
      var v, v' := FindNonWhitespace(s, c), FindNonWhitespace(s + w, c');
      (v == |s| <==> v' == |s + w|) &&
      (v < |s| ==> v' == v && (s + w)[v'..FindEndOfString(s + w)] == s[v..FindEndOfString(s)])
  {
    var c, c' := FindColonEnd(s, nameEnd), FindColonEnd(s + w, nameEnd);
    FindColonEndExtended(s, w, nameEnd);
    FindNonWhitespaceExtended(s, w, c);
    FindNonWhitespaceExtended(s, w, c');
    var v := FindNonWhitespace(s, c);
    if v < |s| {
      FindEndOfStringExtended(s, w);
      EndAfterNonWhitespace(s, v, FindEndOfString(s));
      ExtendedSlice(s, w, v, FindEndOfString(s));
    }
  }

  /** A token scan started at the same place, or anywhere past the end of `s`, finds the same token;
      the scans end together, or both at or past the end of `s`. */
  lemma NextTokenExtended(s: string, w: string, o: nat, o': nat)
    requires o <= |s| && AllWhitespace(w)
    requires o' == o || (o == |s| && |s| <= o' <= |s| + |w|)
    ensures NextToken(s + w, o').0 == NextToken(s, o).0
    ensures NextToken(s + w, o').1 == NextToken(s, o).1 || (NextToken(s, o).1 == |s| && NextToken(s + w, o').1 >= |s|)
  {
    var start := FindNonWhitespace(s, o);
    FindNonWhitespaceExtended(s, w, o');
    if o' == o && start < |s| {
      FindWhitespaceExtended(s, w, start);
      ExtendedSlice(s, w, start, FindWhitespace(s, start));
    } else {
      FindWhitespaceAt(s, |s|, |s|);
      FindWhitespaceAt(s + w, |s| + |w|, |s| + |w|);
    }
  }

  lemma RestFromExtended(s: string, w: string, o: nat, o': nat)
    requires o <= |s| && AllWhitespace(w)
    requires o' == o || (o == |s| && |s| <= o' <= |s| + |w|)
    ensures RestFrom(s + w, o') == RestFrom(s, o)
  {
    var start := FindNonWhitespace(s, o);
    FindNonWhitespaceExtended(s, w, o');
    FindEndOfStringExtended(s, w);
    if o' == o && start < |s| {
      if start < FindEndOfString(s) {
        ExtendedSlice(s, w, start, FindEndOfString(s));
      }
    }
  }

  /** Splitting a start line does not see trailing whitespace, such as the line terminator. */
  lemma SplitInitialLineExtended(s: string, w: string)
    requires AllWhitespace(w)
    ensures SplitInitialLine(s + w) == SplitInitialLine(s)
  {
    var (a, aEnd) := NextToken(s, 0);
    var (a', aEnd') := NextToken(s + w, 0);
    NextTokenExtended(s, w, 0, 0);
    var (b, bEnd) := NextToken(s, aEnd);
    var (b', bEnd') := NextToken(s + w, aEnd');
    NextTokenExtended(s, w, aEnd, aEnd');
    RestFromExtended(s, w, bEnd, bEnd');
  }
}
