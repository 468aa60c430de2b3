/** Canonical paths of signed service-API requests (canonicalServiceAPIPath,
    applied to the escaped path of a URL). */
module ServiceApiPath {
  import opened Wrappers
  import opened Sequences
  import opened PercentEncoding

  function LowerChar(c: char): char {
    if 'A' <= c <= 'Z' then c - 'A' + 'a' else c
  }

  /** strings.Contains(strings.ToLower(s), "%2f") and likewise for "%5c". */
  predicate HidesSeparator(s: string) {
    exists i :: 0 <= i < |s| - 2 && s[i] == '%' && SeparatorCode(s[i + 1], s[i + 2])
  }

  predicate SeparatorCode(a: char, b: char) {
    (a == '2' && LowerChar(b) == 'f') || (a == '5' && LowerChar(b) == 'c')
  }

  predicate ValidSegment(decoded: string) {
    decoded != "." && decoded != ".." && '/' !in decoded && '\\' !in decoded
  }

  function DecodeSegment(segment: string): Option<string> {
    if segment == "" then None
    else
      var decoded := Unescape(segment, PathSegment);
      if decoded.None? || !ValidSegment(decoded.value) then None else decoded
  }

  function DecodeAll(segments: seq<string>): (r: Option<seq<string>>)
    ensures r.Some? ==> |r.value| == |segments|
  {
    if segments == [] then Some([])
    else
      var head, tail := DecodeSegment(segments[0]), DecodeAll(segments[1..]);
      if head.None? || tail.None? then None else Some([head.value] + tail.value)
  }

  /** The decoded segments of an acceptable path; none for the root. */
  function DecodedSegments(escaped: string): Option<seq<string>> {
    if escaped == "" then Some([])
    else if escaped[0] != '/' || HidesSeparator(escaped) then None
    else
      var segments := Split(escaped, '/')[1..];
      if segments == [""] then Some([]) else DecodeAll(segments)
  }

  function EscapeAll(segments: seq<string>): (r: seq<string>)
    ensures |r| == |segments|
    ensures forall i :: 0 <= i < |r| ==> r[i] == Escape(segments[i], PathSegment)
  {
    if segments == [] then [] else [Escape(segments[0], PathSegment)] + EscapeAll(segments[1..])
  }

  /** The one canonical spelling of a list of decoded segments. */
  function RenderPath(segments: seq<string>): string {
    if segments == [] then "/" else Join([""] + EscapeAll(segments), '/')
  }

  function CanonicalPath(escaped: string): Option<string> {
    var segments := DecodedSegments(escaped);
    if segments.None? then None else Some(RenderPath(segments.value))
  }

  ghost predicate CleanSegments(segments: seq<string>) {
    forall i :: 0 <= i < |segments| ==> segments[i] != "" && ValidSegment(segments[i]) && Bytes(segments[i])
  }

  // --------------------------------------------------------------- properties

  /** Every `%` starts a complete escape that is not a path separator. */
  predicate Settled(s: string) {
    forall i :: 0 <= i < |s| && s[i] == '%' ==> i + 2 < |s| && !SeparatorCode(s[i + 1], s[i + 2])
  }

  lemma SettledAppend(a: string, b: string)
    requires Settled(a) && Settled(b)
    ensures Settled(a + b)
  {
  }

  lemma HexCodes(n: nat)
    requires n < 256
    requires SeparatorCode(HexDigit(n / 16 % 16), HexDigit(n % 16))
    ensures n == 0x2f || n == 0x5c
  {
  }

  lemma {:induction false} EscapeSettled(s: string)
    requires Bytes(s) && '/' !in s && '\\' !in s
    ensures Settled(Escape(s, PathSegment))
  {
    if s != "" {
      var e := EscapeChar(s[0], PathSegment);
      assert s[0] in s;
      if |e| == 3 && SeparatorCode(e[1], e[2]) {
        HexCodes(s[0] as int);
        assert false;
      }
      EscapeSettled(s[1..]);
      SettledAppend(e, Escape(s[1..], PathSegment));
    }
  }

  lemma {:induction false} JoinSettled(parts: seq<string>)
    requires forall i :: 0 <= i < |parts| ==> Settled(parts[i])
    ensures Settled(Join(parts, '/'))
  {
    if |parts| > 1 {
      JoinSettled(parts[1..]);
      SettledAppend(parts[0], "/");
      SettledAppend(parts[0] + "/", Join(parts[1..], '/'));
    }
  }

  lemma {:induction false} DecodeEscaped(segments: seq<string>)
    requires CleanSegments(segments)
    ensures DecodeAll(EscapeAll(segments)) == Some(segments)
  {
    if segments != [] {
      EscapeRoundTrip(segments[0], PathSegment);
      DecodeEscaped(segments[1..]);
      assert EscapeAll(segments)[1..] == EscapeAll(segments[1..]);
      assert segments == [segments[0]] + segments[1..];
    }
  }

  lemma {:induction false} DecodeAllClean(segments: seq<string>)
    requires forall i :: 0 <= i < |segments| ==> Bytes(segments[i])
    ensures DecodeAll(segments).Some? ==> CleanSegments(DecodeAll(segments).value)
  {
    if segments != [] {
      UnescapeBytes(segments[0], PathSegment);
      DecodeAllClean(segments[1..]);
    }
  }

  lemma DecodedClean(escaped: GoString)
    ensures DecodedSegments(escaped).Some? ==> CleanSegments(DecodedSegments(escaped).value)
  {
    SplitBytes(escaped, '/');
    DecodeAllClean(Split(escaped, '/')[1..]);
  }

  lemma RenderShape(segments: seq<string>)
    requires CleanSegments(segments) && segments != []
    ensures var path := RenderPath(segments);
      && path != "" && path[0] == '/' && Settled(path)
      && Split(path, '/') == [""] + EscapeAll(segments)
  {
    EscapeAllSettled(segments);
    EscapeAllAvoids(segments, '/');
    PartsShape(EscapeAll(segments));
  }

  lemma EscapeAllSettled(segments: seq<string>)
    requires CleanSegments(segments)
    ensures forall i :: 0 <= i < |segments| ==> Settled(EscapeAll(segments)[i])
  {
    forall i | 0 <= i < |segments| ensures Settled(EscapeAll(segments)[i]) { EscapeSettled(segments[i]); }
  }

  lemma PartsShape(escaped: seq<string>)
    requires escaped != [] && forall i :: 0 <= i < |escaped| ==> Settled(escaped[i]) && '/' !in escaped[i]
    ensures var path := Join([""] + escaped, '/');
      path != "" && path[0] == '/' && Settled(path) && Split(path, '/') == [""] + escaped
  {
    var parts := [""] + escaped;
    forall i | 0 <= i < |parts| ensures Settled(parts[i]) && '/' !in parts[i] { assert i > 0 ==> parts[i] == escaped[i - 1]; }
    JoinSettled(parts);
    SplitOfJoin(parts, '/');
    assert Join(parts, '/') == "" + ['/'] + Join(parts[1..], '/');
  }

  /** The canonical spelling is accepted again and decodes to the same segments. */
  lemma RenderRoundTrip(segments: seq<string>)
    requires CleanSegments(segments)
    ensures DecodedSegments(RenderPath(segments)) == Some(segments)
  {
    if segments == [] {
      RootParts();
    } else {
      RenderShape(segments);
      assert Split(RenderPath(segments), '/')[1..] == EscapeAll(segments);
      assert EscapeAll(segments)[0] != "";
      DecodeEscaped(segments);
    }
  }

  lemma RootParts()
    ensures Split("/", '/') == ["", ""] && Join(["", ""], '/') == "/"
  {
  }

  /** Canonical paths are fixed points of canonicalisation. */
  lemma CanonicalPathIdempotent(escaped: GoString)
    requires CanonicalPath(escaped).Some?
    ensures CanonicalPath(CanonicalPath(escaped).value) == CanonicalPath(escaped)
  {
    DecodedClean(escaped);
    RenderRoundTrip(DecodedSegments(escaped).value);
  }

  /** Accepted paths have one canonical string exactly when they decode alike. */
  lemma CanonicalPathDecides(a: GoString, b: GoString)
    requires CanonicalPath(a).Some? && CanonicalPath(b).Some?
    ensures CanonicalPath(a) == CanonicalPath(b) <==> DecodedSegments(a) == DecodedSegments(b)
  {
    DecodedClean(a);
    DecodedClean(b);
    RenderRoundTrip(DecodedSegments(a).value);
    RenderRoundTrip(DecodedSegments(b).value);
  }

  lemma EscapeAllAvoids(segments: seq<string>, c: char)
    requires !Emitted(c, PathSegment)
    ensures forall i :: 0 <= i < |segments| ==> c !in EscapeAll(segments)[i]
  {
  }

  lemma PartsOneLine(parts: seq<string>)
    requires forall i :: 0 <= i < |parts| ==> '\n' !in parts[i]
    ensures '\n' !in Join([""] + parts, '/')
  {
    var all := [""] + parts;
    forall i | 0 <= i < |all| ensures '\n' !in all[i] { assert i > 0 ==> all[i] == parts[i - 1]; }
    JoinAvoids(all, '/', '\n');
  }

  lemma RenderOneLine(segments: seq<string>)
    ensures '\n' !in RenderPath(segments)
  {
    EscapeAllAvoids(segments, '\n');
    PartsOneLine(EscapeAll(segments));
  }

  lemma CanonicalPathOneLine(escaped: string)
    requires CanonicalPath(escaped).Some?
    ensures '\n' !in CanonicalPath(escaped).value
  {
    RenderOneLine(DecodedSegments(escaped).value);
  }

  // ------------------------------------------------------ the path of the URL

  /** The URL's decoded path, which the escaped path spells. */
  function UrlPath(escaped: string): Option<string> { Unescape(escaped, PathSegment) }

  lemma {:induction false} JoinUnescapes(segments: seq<string>)
    requires segments != [] && DecodeAll(segments).Some?
    ensures Unescape(Join(segments, '/'), PathSegment) == Some(Join(DecodeAll(segments).value, '/'))
  {
    var decoded := DecodeAll(segments).value;
    if |segments| > 1 {
      JoinUnescapes(segments[1..]);
      assert decoded[1..] == DecodeAll(segments[1..]).value;
      var rest := Join(segments[1..], '/');
      SlashUnescapes(rest);
      UnescapeAppend(segments[0], ['/'] + rest, PathSegment);
      assert segments[0] + ['/'] + rest == segments[0] + (['/'] + rest);
      assert decoded[0] + ['/'] + Join(decoded[1..], '/') == decoded[0] + (['/'] + Join(decoded[1..], '/'));
    }
  }

  lemma SlashUnescapes(rest: string)
    requires Unescape(rest, PathSegment).Some?
    ensures Unescape(['/'] + rest, PathSegment) == Some(['/'] + Unescape(rest, PathSegment).value)
  {
    assert (['/'] + rest)[1..] == rest;
  }

  /** An accepted path is the root, or its decoding is its decoded segments with
      slashes before them. */
  lemma UrlPathSpelled(escaped: string)
    requires DecodedSegments(escaped).Some?
    ensures var segments := DecodedSegments(escaped).value;
      && UrlPath(escaped).Some?
      && (segments == [] ==> UrlPath(escaped).value == "" || UrlPath(escaped).value == "/")
      && (segments != [] ==> UrlPath(escaped).value == ['/'] + Join(segments, '/'))
  {
    if escaped != "" {
      var parts := Split(escaped, '/');
      JoinOfSplit(escaped, '/');
      assert parts[0] == "" by { assert IndexOf(escaped, '/') == 0; }
      assert parts[1..] != [] by { assert |Split(escaped[1..], '/')| > 0; }
      assert escaped == ['/'] + Join(parts[1..], '/');
      if parts[1..] == [""] {
        SlashUnescapes("");
      } else {
        JoinUnescapes(parts[1..]);
        SlashUnescapes(Join(parts[1..], '/'));
      }
    }
  }

  // --------------------------------------------- the segment loop of the source

  /** Decoding the rest completes the decoding of the whole. */
  ghost predicate Continues(all: seq<string>, decoded: seq<string>, rest: seq<string>) {
    DecodeAll(all) == if DecodeAll(rest).None? then None else Some(decoded + DecodeAll(rest).value)
  }

  lemma ContinuesStep(all: seq<string>, decoded: seq<string>, rest: seq<string>)
    requires rest != [] && Continues(all, decoded, rest)
    ensures var head := DecodeSegment(rest[0]);
      if head.None? then DecodeAll(all).None? else Continues(all, decoded + [head.value], rest[1..])
  {
    var head, tail := DecodeSegment(rest[0]), DecodeAll(rest[1..]);
    if head.Some? && tail.Some? {
      assert decoded + ([head.value] + tail.value) == decoded + [head.value] + tail.value;
    }
  }

  /** The loop over the segments after the leading slash. */
  method CanonicalSegments(segments: seq<string>) returns (canonical: Option<seq<string>>)
    ensures canonical ==
      if DecodeAll(segments).None? then None else Some(EscapeAll(DecodeAll(segments).value))
  {
    var texts: seq<string> := [];
    ghost var decoded: seq<string> := [];
    assert DecodeAll(segments).Some? ==> decoded + DecodeAll(segments).value == DecodeAll(segments).value;
    assert segments[0..] == segments;
    var i := 0;
    while i < |segments|
      invariant 0 <= i <= |segments|
      invariant texts == EscapeAll(decoded)
      invariant Continues(segments, decoded, segments[i..])
    {
      ContinuesStep(segments, decoded, segments[i..]);
      assert segments[i..][1..] == segments[i + 1..];
      if segments[i] == "" {
        return None;
      }
      var text := Unescape(segments[i], PathSegment);
      if text.None? || !ValidSegment(text.value) {
        return None;
      }
      EscapeAllAppend(decoded, text.value);
      decoded := decoded + [text.value];
      texts := texts + [Escape(text.value, PathSegment)];
      i := i + 1;
    }
    assert segments[i..] == [] && decoded + [] == decoded;
    canonical := Some(texts);
  }

  /** canonicalServiceAPIPath: reject ambiguous spellings, then re-spell each
      segment; the root path is the one place an empty segment is allowed. */
  method CanonicalServiceApiPath(escapedPath: string) returns (r: Option<string>)
    ensures r == CanonicalPath(escapedPath)
  {
    RootParts();
    var escaped := if escapedPath == "" then "/" else escapedPath;
    if escaped[0] != '/' || HidesSeparator(escaped) {
      return None;
    }
    var segments := Split(escaped, '/')[1..];
    if segments == [""] {
      return Some("/");
    }
    assert Split(escaped, '/') == [""] + segments && |segments| > 0;
    var canonical := CanonicalSegments(segments);
    r := if canonical.None? then None else Some(Join([""] + canonical.value, '/'));
  }

  lemma EscapeAllAppend(segments: seq<string>, last: string)
    ensures EscapeAll(segments + [last]) == EscapeAll(segments) + [Escape(last, PathSegment)]
  {
  }
}
