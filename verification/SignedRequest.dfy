/** The string that a signed service-API request is authenticated by
    (serviceAPICanonicalString and the syntactic checks of authenticate). */
module SignedRequest {
  import opened Wrappers
  import opened Sequences
  import opened PercentEncoding
  import opened ServiceApiPath
  import opened ServiceApiQuery

  const SIGNATURE_PREFIX := "BIZ-HMAC-SHA256-V1"
  const MIN_INT64 := -0x8000_0000_0000_0000
  const MAX_INT64 := 0x7fff_ffff_ffff_ffff

  /** The signed parts of a request; `bodyDigest` is the hexadecimal SHA-256. */
  datatype Request = Request(
    httpMethod: string, escapedPath: GoString, rawQuery: GoString,
    timestamp: string, nonce: string, bodyDigest: string)

  // ------------------------------------------------------- syntactic checks

  function UpperChar(c: char): char {
    if 'a' <= c <= 'z' then c - 'a' + 'A' else c
  }

  function Upper(s: string): string {
    seq(|s|, i requires 0 <= i < |s| => UpperChar(s[i]))
  }

  function NormalMethod(m: string): string { Upper(TrimSpace(m)) }

  predicate Identifier(s: string, min: nat, max: nat) {
    min <= |s| <= max && forall i :: 0 <= i < |s| ==>
      'a' <= s[i] <= 'z' || 'A' <= s[i] <= 'Z' || '0' <= s[i] <= '9' || s[i] in "-_.:"
  }

  predicate LowerHex(s: string, length: nat) {
    |s| == length && forall i :: 0 <= i < |s| ==> '0' <= s[i] <= '9' || 'a' <= s[i] <= 'f'
  }

  /** strconv.FormatInt(n, 10). */
  function IntText(n: int): (s: string)
    ensures forall c :: c in s ==> IsDigit(c) || c == '-'
  {
    if n < 0 then "-" + Decimal(-n) else Decimal(n)
  }

  /** The number a timestamp header spells, if it spells it canonically:
      parsing must succeed within 64 bits and formatting must give it back. */
  function ParseTimestamp(raw: string): (r: Option<int>)
    ensures r.Some? ==> raw == IntText(r.value) && MIN_INT64 <= r.value <= MAX_INT64
  {
    var negative := raw != "" && raw[0] == '-';
    var digits := if negative then raw[1..] else raw;
    if digits == "" || exists c :: c in digits && !IsDigit(c) then None
    else
      var n: int := if negative then 0 - DecimalValue(digits) else DecimalValue(digits);
      if MIN_INT64 <= n <= MAX_INT64 && IntText(n) == raw then Some(n) else None
  }

  /** Every 64-bit number has exactly one accepted spelling. */
  lemma TimestampRoundTrip(n: int)
    requires MIN_INT64 <= n <= MAX_INT64
    ensures ParseTimestamp(IntText(n)) == Some(n)
  {
    var raw := IntText(n);
    if n < 0 {
      DecimalRoundTrip(-n);
      assert raw[1..] == Decimal(-n);
    } else {
      DecimalRoundTrip(n);
      assert IsDigit(raw[0]) by { assert raw[0] in Decimal(n); }
    }
  }

  predicate WellFormed(r: Request) {
    && Identifier(r.nonce, 16, 128)
    && LowerHex(r.bodyDigest, 64)
    && ParseTimestamp(r.timestamp).Some?
    && CanonicalPath(r.escapedPath).Some?
    && CanonicalQuery(r.rawQuery).Some?
  }

  /** The root path without a query is well formed at every time, with every
      method, nonce and digest of the right shape. */
  lemma RootRequestWellFormed(httpMethod: string, time: int, nonce: string, digest: string)
    requires MIN_INT64 <= time <= MAX_INT64 && Identifier(nonce, 16, 128) && LowerHex(digest, 64)
    ensures WellFormed(Request(httpMethod, "/", "", IntText(time), nonce, digest))
  {
    TimestampRoundTrip(time);
    RootParts();
    assert Split("", '&') == [""];
    assert Unescape("", QueryComponent) == Some("");
  }

  // ------------------------------------------------------------ signed string

  function CanonicalString(m: string, path: string, query: string, timestamp: string, nonce: string, digest: string): string {
    Join([SIGNATURE_PREFIX, m, path, query, timestamp, nonce, digest], '\n')
  }

  function SignedString(r: Request): string
    requires WellFormed(r)
  {
    CanonicalString(NormalMethod(r.httpMethod), CanonicalPath(r.escapedPath).value,
                    CanonicalQuery(r.rawQuery).value, r.timestamp, r.nonce, r.bodyDigest)
  }

  /** Two requests ask for the same thing at the same time with the same nonce. */
  ghost predicate SameRequest(a: Request, b: Request)
    requires WellFormed(a) && WellFormed(b)
  {
    && NormalMethod(a.httpMethod) == NormalMethod(b.httpMethod)
    && DecodedSegments(a.escapedPath) == DecodedSegments(b.escapedPath)
    && multiset(ParseQuery(a.rawQuery).value) == multiset(ParseQuery(b.rawQuery).value)
    && ParseTimestamp(a.timestamp) == ParseTimestamp(b.timestamp)
    && a.nonce == b.nonce
    && a.bodyDigest == b.bodyDigest
  }

  lemma LeftAssociated(m: string, path: string, query: string, timestamp: string, nonce: string, digest: string)
    ensures CanonicalString(m, path, query, timestamp, nonce, digest) ==
      ((((SIGNATURE_PREFIX + ['\n'] + m) + ['\n'] + path) + ['\n'] + query) + ['\n'] + timestamp) + ['\n'] + nonce + ['\n'] + digest
  {
    var p1 := [m, path, query, timestamp, nonce, digest];
    var p2 := [path, query, timestamp, nonce, digest];
    var p3 := [query, timestamp, nonce, digest];
    var p4 := [timestamp, nonce, digest];
    assert Join([nonce, digest], '\n') == nonce + ['\n'] + digest;
    assert p4[1..] == [nonce, digest] && p3[1..] == p4 && p2[1..] == p3 && p1[1..] == p2;
    assert Join(p4, '\n') == timestamp + ['\n'] + Join([nonce, digest], '\n');
    assert Join(p3, '\n') == query + ['\n'] + Join(p4, '\n');
    assert Join(p2, '\n') == path + ['\n'] + Join(p3, '\n');
    assert Join(p1, '\n') == m + ['\n'] + Join(p2, '\n');
    assert [SIGNATURE_PREFIX, m, path, query, timestamp, nonce, digest][1..] == p1;
  }

  ghost predicate OneLine(r: Request)
    requires WellFormed(r)
  {
    && '\n' !in CanonicalPath(r.escapedPath).value
    && '\n' !in CanonicalQuery(r.rawQuery).value
    && '\n' !in r.timestamp && '\n' !in r.nonce && '\n' !in r.bodyDigest
  }

  lemma FieldsOneLine(r: Request)
    requires WellFormed(r)
    ensures OneLine(r)
  {
    CanonicalPathOneLine(r.escapedPath);
    CanonicalQueryOneLine(r.rawQuery);
  }

  /** Reading fields from the right recovers all of them, even from a method
      that contains line breaks. */
  lemma FieldsRecovered(m: string, p: string, q: string, t: string, n: string, d: string,
                        m': string, p': string, q': string, t': string, n': string, d': string)
    requires '\n' !in p && '\n' !in q && '\n' !in t && '\n' !in n && '\n' !in d
    requires '\n' !in p' && '\n' !in q' && '\n' !in t' && '\n' !in n' && '\n' !in d'
    requires CanonicalString(m, p, q, t, n, d) == CanonicalString(m', p', q', t', n', d')
    ensures m == m' && p == p' && q == q' && t == t' && n == n' && d == d'
  {
    LeftAssociated(m, p, q, t, n, d);
    LeftAssociated(m', p', q', t', n', d');
    var s0, s0' := SIGNATURE_PREFIX + ['\n'] + m, SIGNATURE_PREFIX + ['\n'] + m';
    var s1, s1' := s0 + ['\n'] + p, s0' + ['\n'] + p';
    var s2, s2' := s1 + ['\n'] + q, s1' + ['\n'] + q';
    var s3, s3' := s2 + ['\n'] + t, s2' + ['\n'] + t';
    var s4, s4' := s3 + ['\n'] + n, s3' + ['\n'] + n';
    CutLast(s4, d, s4', d', '\n');
    CutLast(s3, n, s3', n', '\n');
    CutLast(s2, t, s2', t', '\n');
    CutLast(s1, q, s1', q', '\n');
    CutLast(s0, p, s0', p', '\n');
    CutFirst(SIGNATURE_PREFIX, m, SIGNATURE_PREFIX, m', '\n');
  }

  /** The signed string identifies a request: equal strings, equal requests,
      and the other way round. */
  lemma SignedStringDecides(a: Request, b: Request)
    requires WellFormed(a) && WellFormed(b)
    ensures SignedString(a) == SignedString(b) <==> SameRequest(a, b)
  {
    CanonicalPathDecides(a.escapedPath, b.escapedPath);
    CanonicalQueryDecides(a.rawQuery, b.rawQuery);
    FieldsOneLine(a);
    FieldsOneLine(b);
    if SignedString(a) == SignedString(b) {
      FieldsRecovered(NormalMethod(a.httpMethod), CanonicalPath(a.escapedPath).value, CanonicalQuery(a.rawQuery).value,
                      a.timestamp, a.nonce, a.bodyDigest,
                      NormalMethod(b.httpMethod), CanonicalPath(b.escapedPath).value, CanonicalQuery(b.rawQuery).value,
                      b.timestamp, b.nonce, b.bodyDigest);
    }
  }
}
