/** Percent-encoding as Go's net/url performs it for query components and for
    path segments. A Go string is a sequence of bytes: characters below 256. */
module PercentEncoding {
  import opened Wrappers
  import opened Sequences

  predicate Bytes(s: string) {
    forall i :: 0 <= i < |s| ==> s[i] as int < 256
  }

  type GoString = s: string | Bytes(s) witness ""

  datatype Mode = QueryComponent | PathSegment

  predicate Unreserved(c: char) {
    'a' <= c <= 'z' || 'A' <= c <= 'Z' || '0' <= c <= '9' || c in "-_.~"
  }

  /** Characters that the encoder leaves alone. */
  predicate Literal(c: char, mode: Mode) {
    Unreserved(c) || (mode.PathSegment? && c in "$&+:=@")
  }

  /** Characters that can occur in encoded text. */
  predicate Emitted(c: char, mode: Mode) {
    Literal(c, mode) || c == '%' || c == '+'
  }

  function HexDigit(n: nat): (c: char)
    requires n < 16
    ensures Unreserved(c)
  {
    if n < 10 then '0' + n as char else 'A' + (n - 10) as char
  }

  /** The value of a hexadecimal digit of either case, or 16. */
  function HexValue(c: char): (n: nat)
    ensures n <= 16
  {
    if '0' <= c <= '9' then c as int - '0' as int
    else if 'A' <= c <= 'F' then c as int - 'A' as int + 10
    else if 'a' <= c <= 'f' then c as int - 'a' as int + 10
    else 16
  }

  function EscapeChar(c: char, mode: Mode): (r: string)
    ensures |r| > 0
    ensures forall i :: 0 <= i < |r| ==> Emitted(r[i], mode)
  {
    if Literal(c, mode) then [c]
    else if mode.QueryComponent? && c == ' ' then "+"
    else ['%', HexDigit(c as int / 16 % 16), HexDigit(c as int % 16)]
  }

  function Escape(s: string, mode: Mode): (r: string)
    ensures forall i :: 0 <= i < |r| ==> Emitted(r[i], mode)
    ensures r == "" <==> s == ""
  {
    if s == "" then "" else EscapeChar(s[0], mode) + Escape(s[1..], mode)
  }

  function Unescape(s: string, mode: Mode): (r: Option<string>)
    ensures r.Some? && s != "" ==> r.value != ""
  {
    if s == "" then Some("")
    else if s[0] == '%' then
      if |s| < 3 || HexValue(s[1]) == 16 || HexValue(s[2]) == 16 then None
      else Prepend((HexValue(s[1]) * 16 + HexValue(s[2])) as char, Unescape(s[3..], mode))
    else if mode.QueryComponent? && s[0] == '+' then Prepend(' ', Unescape(s[1..], mode))
    else Prepend(s[0], Unescape(s[1..], mode))
  }

  function Prepend(c: char, r: Option<string>): Option<string> {
    if r.None? then None else Some([c] + r.value)
  }

  /** Decoding keeps strings within bytes. */
  lemma {:induction false} UnescapeBytes(s: string, mode: Mode)
    requires Bytes(s)
    ensures Unescape(s, mode).Some? ==> Bytes(Unescape(s, mode).value)
  {
    if s != "" {
      if s[0] == '%' {
        if |s| >= 3 { UnescapeBytes(s[3..], mode); }
      } else {
        UnescapeBytes(s[1..], mode);
      }
    }
  }

  lemma HexRoundTrip(n: nat)
    requires n < 16
    ensures HexValue(HexDigit(n)) == n
  {
  }

  lemma UnescapeChar(c: char, rest: string, mode: Mode)
    requires c as int < 256
    ensures Unescape(EscapeChar(c, mode) + rest, mode) == Prepend(c, Unescape(rest, mode))
  {
    var e := EscapeChar(c, mode);
    if |e| == 3 {
      UnescapeTriple(c, rest, mode);
    } else {
      assert (e + rest)[1..] == rest;
    }
  }

  lemma HexDigits(n: nat)
    requires n < 256
    ensures n / 16 % 16 * 16 + n % 16 == n
  {
  }

  lemma UnescapeTriple(c: char, rest: string, mode: Mode)
    requires c as int < 256
    ensures Unescape(['%', HexDigit(c as int / 16 % 16), HexDigit(c as int % 16)] + rest, mode) == Prepend(c, Unescape(rest, mode))
  {
    var n := c as int;
    var s := ['%', HexDigit(n / 16 % 16), HexDigit(n % 16)] + rest;
    HexRoundTrip(n / 16 % 16);
    HexRoundTrip(n % 16);
    HexDigits(n);
    assert s[3..] == rest;
  }

  /** Decoding undoes encoding on every byte string, in both modes. */
  lemma {:induction false} EscapeRoundTrip(s: string, mode: Mode)
    requires Bytes(s)
    ensures Unescape(Escape(s, mode), mode) == Some(s)
  {
    if s != "" {
      UnescapeChar(s[0], Escape(s[1..], mode), mode);
      EscapeRoundTrip(s[1..], mode);
      assert s == [s[0]] + s[1..];
    }
  }

  lemma PrependAppend(c: char, x: string, y: string)
    ensures Prepend(c, Some(x + y)) == Some([c] + x + y)
  {
    assert [c] + (x + y) == [c] + x + y;
  }

  /** Decoding goes piece by piece where the pieces are complete. */
  lemma {:induction false} UnescapeAppend(a: string, b: string, mode: Mode)
    requires Unescape(a, mode).Some? && Unescape(b, mode).Some?
    ensures Unescape(a + b, mode) == Some(Unescape(a, mode).value + Unescape(b, mode).value)
  {
    if a == "" {
      assert a + b == b && "" + Unescape(b, mode).value == Unescape(b, mode).value;
    } else if a[0] == '%' {
      assert (a + b)[3..] == a[3..] + b;
      UnescapeAppend(a[3..], b, mode);
      PrependAppend(Unescape(a, mode).value[0], Unescape(a[3..], mode).value, Unescape(b, mode).value);
    } else {
      assert (a + b)[1..] == a[1..] + b;
      UnescapeAppend(a[1..], b, mode);
      PrependAppend(Unescape(a, mode).value[0], Unescape(a[1..], mode).value, Unescape(b, mode).value);
    }
  }

  lemma {:induction false} SplitBytes(s: string, sep: char)
    requires Bytes(s)
    ensures forall i :: 0 <= i < |Split(s, sep)| ==> Bytes(Split(s, sep)[i])
    decreases |s|
  {
    var i := IndexOf(s, sep);
    if i < |s| { SplitBytes(s[i + 1..], sep); }
  }
}
