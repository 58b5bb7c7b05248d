/** Character, byte and number conversions the library borrows from the Java platform:
    `Character.isWhitespace`, `String.trim`, `toLowerCase`, `Integer.parseInt`,
    `Integer.toHexString`, `String.valueOf(int)` and the US-ASCII charset. */
module Text {

  datatype Option<T> = None | Some(value: T)

  /** An octet on the wire. */
  type byte = b: int | 0 <= b < 256

  const CR: byte := 13
  const LF: byte := 10
  const CRLF: seq<byte> := [13, 10]

  const INT_MIN: int := -0x8000_0000
  const INT_MAX: int := 0x7FFF_FFFF

  /** `Character.isWhitespace`: the ASCII controls 9..13 and 28..31, and the Unicode space,
      line and paragraph separators except the three non-breaking spaces. */
  predicate IsWhitespace(c: char)
  {
    ('\t' <= c <= '\r') || ('\U{1C}' <= c <= ' ') ||
    c == '\U{1680}' || ('\U{2000}' <= c <= '\U{2006}') || ('\U{2008}' <= c <= '\U{200A}') ||
    c == '\U{2028}' || c == '\U{2029}' || c == '\U{205F}' || c == '\U{3000}'
  }

  /** `Character.isISOControl`. */
  predicate IsIsoControl(c: char)
  {
    c <= '\U{1F}' || ('\U{7F}' <= c <= '\U{9F}')
  }

  /** `String.trim` removes every leading and trailing character not above U+0020. */
  function TrimStart(s: string): (r: string)
    ensures |r| <= |s|
  {
    if s == [] || s[0] > ' ' then s else TrimStart(s[1..])
  }

  function TrimEnd(s: string): (r: string)
    ensures |r| <= |s|
  {
    if s == [] || s[|s| - 1] > ' ' then s else TrimEnd(s[..|s| - 1])
  }

  function Trim(s: string): string
  {
    TrimEnd(TrimStart(s))
  }

  /** What `TrimStart` leaves: a suffix that starts above U+0020, after dropping only characters
      at or below it. */
  lemma {:induction false} TrimStartShape(s: string)
    ensures var r := TrimStart(s);
      r == s[|s| - |r|..] && (r == [] || r[0] > ' ') &&
      forall i :: 0 <= i < |s| - |r| ==> s[i] <= ' '
  {
    if s != [] && s[0] <= ' ' {
      TrimStartShape(s[1..]);
    }
  }

  /** What `TrimEnd` leaves: a prefix that ends above U+0020, after dropping only characters at or
      below it. */
  lemma {:induction false} TrimEndShape(s: string)
    ensures var r := TrimEnd(s);
      r == s[..|r|] && (r == [] || r[|r| - 1] > ' ') &&
      forall i :: |r| <= i < |s| ==> s[i] <= ' '
  {
    if s != [] && s[|s| - 1] > ' ' {
    } else if s != [] {
      TrimEndShape(s[..|s| - 1]);
    }
  }

  /** A string that `String.trim` leaves unchanged is one with no edge character at or below U+0020. */
  lemma TrimIdentity(s: string)
    requires s == [] || (s[0] > ' ' && s[|s| - 1] > ' ')
    ensures Trim(s) == s
  {
  }

  function LowerChar(c: char): char
  {
    if 'A' <= c <= 'Z' then (c as int + 32) as char else c
  }

  function UpperChar(c: char): char
  {
    if 'a' <= c <= 'z' then (c as int - 32) as char else c
  }

  /** `String.toLowerCase`, restricted to the ASCII letters. */
  function ToLower(s: string): (r: string)
    ensures |r| == |s| && forall i :: 0 <= i < |s| ==> r[i] == LowerChar(s[i])
  {
    if s == [] then [] else [LowerChar(s[0])] + ToLower(s[1..])
  }

  function ToUpper(s: string): (r: string)
    ensures |r| == |s| && forall i :: 0 <= i < |s| ==> r[i] == UpperChar(s[i])
  {
    if s == [] then [] else [UpperChar(s[0])] + ToUpper(s[1..])
  }

  /** `String.equalsIgnoreCase` on ASCII letters. */
  predicate EqualsIgnoreCase(a: string, b: string)
  {
    ToLower(a) == ToLower(b)
  }

  /** Lower-casing twice is lower-casing once. */
  lemma ToLowerIdempotent(s: string)
    ensures ToLower(ToLower(s)) == ToLower(s)
  {
  }

  /** Decoding with the US-ASCII charset: bytes above 127 become U+FFFD. */
  function AsciiChar(b: byte): char
  {
    if b < 128 then b as char else '\U{FFFD}'
  }

  function DecodeAscii(bs: seq<byte>): (r: string)
    ensures |r| == |bs|
  {
    if bs == [] then [] else [AsciiChar(bs[0])] + DecodeAscii(bs[1..])
  }

  /** Decoding maps each byte to one character on its own. */
  lemma {:induction false} DecodeAsciiIndex(bs: seq<byte>)
    ensures forall i :: 0 <= i < |bs| ==> DecodeAscii(bs)[i] == AsciiChar(bs[i])
  {
    if bs != [] {
      DecodeAsciiIndex(bs[1..]);
      assert DecodeAscii(bs) == [AsciiChar(bs[0])] + DecodeAscii(bs[1..]);
    }
  }

  /** Encoding with the US-ASCII charset: characters above 127 become '?'. */
  function AsciiByte(c: char): byte
  {
    if c as int < 128 then c as int else 63
  }

  function EncodeAscii(s: string): (r: seq<byte>)
    ensures |r| == |s|
  {
    if s == [] then [] else [AsciiByte(s[0])] + EncodeAscii(s[1..])
  }

  /** Encoding maps each character to one byte on its own. */
  lemma {:induction false} EncodeAsciiIndex(s: string)
    ensures forall i :: 0 <= i < |s| ==> EncodeAscii(s)[i] == AsciiByte(s[i])
  {
    if s != [] {
      EncodeAsciiIndex(s[1..]);
      assert EncodeAscii(s) == [AsciiByte(s[0])] + EncodeAscii(s[1..]);
    }
  }

  lemma EncodeAsciiConcat(a: string, b: string)
    ensures EncodeAscii(a + b) == EncodeAscii(a) + EncodeAscii(b)
  {
    EncodeAsciiIndex(a + b);
    EncodeAsciiIndex(a);
    EncodeAsciiIndex(b);
    assert forall i :: 0 <= i < |a + b| ==> EncodeAscii(a + b)[i] == (EncodeAscii(a) + EncodeAscii(b))[i];
  }

  predicate IsAscii(s: string)
  {
    forall i :: 0 <= i < |s| ==> s[i] as int < 128
  }

  /** An ASCII string survives encoding and decoding unchanged. */
  lemma {:induction false} AsciiRoundTrip(s: string)
    requires IsAscii(s)
    ensures DecodeAscii(EncodeAscii(s)) == s
  {
    if s != [] {
      AsciiRoundTrip(s[1..]);
      assert EncodeAscii(s) == [AsciiByte(s[0])] + EncodeAscii(s[1..]);
    }
  }

  /** `Character.digit(c, radix)` on ASCII digits and letters. */
  function DigitOf(c: char): (d: int)
    ensures -1 <= d < 36
  {
    if '0' <= c <= '9' then c as int - '0' as int
    else if 'a' <= c <= 'z' then c as int - 'a' as int + 10
    else if 'A' <= c <= 'Z' then c as int - 'A' as int + 10
    else -1
  }

  predicate AllDigits(s: string, radix: nat)
  {
    forall i :: 0 <= i < |s| ==> 0 <= DigitOf(s[i]) < radix
  }

  function DigitsValue(s: string, radix: nat): (v: nat)
    requires AllDigits(s, radix)
  {
    if s == [] then 0 else DigitsValue(s[..|s| - 1], radix) * radix + DigitOf(s[|s| - 1])
  }

  /** `Integer.parseInt(s, radix)`: an optional sign, at least one digit, and a value in the
      32-bit range; anything else is a `NumberFormatException`, here `None`. */
  function ParseInt(s: string, radix: nat): (r: Option<int>)
    ensures r.Some? ==> INT_MIN <= r.value <= INT_MAX
    ensures r.Some? ==> |s| > 0
  {
    if s == [] then None
    else
      var signed := s[0] == '-' || s[0] == '+';
      var digits := if signed then s[1..] else s;
      if digits == [] || !AllDigits(digits, radix) then None
      else
        var magnitude: int := DigitsValue(digits, radix);
        var v := if s[0] == '-' then 0 - magnitude else magnitude;
        if INT_MIN <= v <= INT_MAX then Some(v) else None
  }

  function HexDigit(d: nat): char
    requires d < 16
  {
    if d < 10 then ('0' as int + d) as char else ('a' as int + d - 10) as char
  }

  function DecDigit(d: nat): char
    requires d < 10
  {
    ('0' as int + d) as char
  }

  /** `Integer.toHexString` of a non-negative value: lower-case digits, no leading zeros. */
  function ToHexString(n: nat): (r: string)
    ensures |r| > 0
  {
    if n < 16 then [HexDigit(n)] else ToHexString(n / 16) + [HexDigit(n % 16)]
  }

  function NatToString(n: nat): (r: string)
    ensures |r| > 0
  {
    if n < 10 then [DecDigit(n)] else NatToString(n / 10) + [DecDigit(n % 10)]
  }

  /** `String.valueOf(int)`. */
  function IntToString(n: int): string
  {
    if n < 0 then "-" + NatToString(-n) else NatToString(n)
  }

  lemma {:induction false} HexDigitsValue(n: nat)
    ensures AllDigits(ToHexString(n), 16) && DigitsValue(ToHexString(n), 16) == n
    ensures '0' <= ToHexString(n)[0] <= '9' || 'a' <= ToHexString(n)[0] <= 'f'
  {
    if n >= 16 {
      HexDigitsValue(n / 16);
      var s := ToHexString(n);
      assert s[..|s| - 1] == ToHexString(n / 16);
    }
  }

  lemma {:induction false} DecDigitsValue(n: nat)
    ensures AllDigits(NatToString(n), 10) && DigitsValue(NatToString(n), 10) == n
    ensures '0' <= NatToString(n)[0] <= '9'
  {
    if n >= 10 {
      DecDigitsValue(n / 10);
      var s := NatToString(n);
      assert s[..|s| - 1] == NatToString(n / 10);
    }
  }

  /** What `Integer.toHexString` writes, `Integer.parseInt(_, 16)` reads back. */
  lemma HexRoundTrip(n: nat)
    requires n <= INT_MAX
    ensures ParseInt(ToHexString(n), 16) == Some(n)
  {
    HexDigitsValue(n);
  }

  /** What `String.valueOf(int)` writes, `Integer.parseInt` reads back. */
  lemma DecimalRoundTrip(n: int)
    requires INT_MIN <= n <= INT_MAX
    ensures ParseInt(IntToString(n), 10) == Some(n)
  {
    var s := IntToString(n);
    if n < 0 {
      DecDigitsValue(-n);
      assert s[0] == '-' && s[1..] == NatToString(-n);
    } else {
      DecDigitsValue(n);
      assert s[0] != '-' && s[0] != '+';
    }
  }



  /** Neither hexadecimal nor decimal renderings contain whitespace or control characters. */
  lemma {:induction false} HexHasNoSeparators(n: nat)
    ensures forall i :: 0 <= i < |ToHexString(n)| ==>
      var c := ToHexString(n)[i];
      c != ';' && !IsWhitespace(c) && !IsIsoControl(c) && c > ' ' && c as int < 128
  {
    if n >= 16 {
      HexHasNoSeparators(n / 16);
    }
  }

  /** Concatenation regrouped; stated once so that proofs can call it where the solver would
      not find the regrouping in a large context. */
  lemma AppendAssociates<T>(x: seq<T>, a: seq<T>, b: seq<T>)
    ensures x + a + b == x + (a + b)
  {
  }

  /** The names of an association list of (name, value) entries, in entry order. */
  function Keys<V>(h: seq<(string, V)>): (r: seq<string>)
    ensures |r| == |h| && forall i :: 0 <= i < |h| ==> r[i] == h[i].0
  {
    if h == [] then [] else [h[0].0] + Keys(h[1..])
  }

  lemma {:induction false} DecimalHasNoWhitespace(n: nat)
    ensures forall i :: 0 <= i < |NatToString(n)| ==>
      var c := NatToString(n)[i];
      !IsWhitespace(c) && c > ' ' && c as int < 128
  {
    if n >= 10 {
      DecimalHasNoWhitespace(n / 10);
    }
  }
}
