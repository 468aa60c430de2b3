/** Canonical query strings of signed service-API requests
    (canonicalServiceAPIQuery over url.ParseQuery and url.Values.Encode). */
module ServiceApiQuery {
  import opened Wrappers
  import opened Sequences
  import opened Ordering
  import opened PercentEncoding

  datatype Pair = Pair(key: string, value: string)

  // ------------------------------------------------------------------ parsing

  datatype Piece = Skipped | Malformed | Parsed(pair: Pair)

  /** One `&`-separated piece: empty pieces are skipped, semicolons and bad
      escapes are errors, and a missing `=` means an empty value. */
  function ParsePiece(piece: string): Piece {
    if ';' in piece then Malformed
    else if piece == "" then Skipped
    else
      var i := IndexOf(piece, '=');
      var key := Unescape(piece[..i], QueryComponent);
      var value := Unescape(if i < |piece| then piece[i + 1..] else "", QueryComponent);
      if key.None? || value.None? then Malformed else Parsed(Pair(key.value, value.value))
  }

  function ParsePieces(pieces: seq<string>): Option<seq<Pair>> {
    if pieces == [] then Some([])
    else
      var rest := ParsePieces(pieces[1..]);
      match ParsePiece(pieces[0])
      case Malformed => None
      case Skipped => rest
      case Parsed(pair) => if rest.None? then None else Some([pair] + rest.value)
  }

  /** url.ParseQuery: the decoded pairs in order of appearance. */
  function ParseQuery(raw: string): Option<seq<Pair>> {
    ParsePieces(Split(raw, '&'))
  }

  // ----------------------------------------------------------------- encoding

  function PairText(pair: Pair): string {
    Escape(pair.key, QueryComponent) + "=" + Escape(pair.value, QueryComponent)
  }

  function PairTexts(pairs: seq<Pair>): (r: seq<string>)
    ensures |r| == |pairs|
    ensures forall i :: 0 <= i < |r| ==> r[i] == PairText(pairs[i])
  {
    if pairs == [] then [] else [PairText(pairs[0])] + PairTexts(pairs[1..])
  }

  function EncodePairs(pairs: seq<Pair>): string {
    Join(PairTexts(pairs), '&')
  }

  predicate PairLe(a: Pair, b: Pair) {
    if a.key == b.key then Le(a.value, b.value) else Le(a.key, b.key)
  }

  /** The canonical form: all decoded pairs, sorted and re-encoded. */
  function CanonicalQuery(raw: string): Option<string> {
    var pairs := ParseQuery(raw);
    if pairs.None? then None else Some(EncodePairs(Sort(PairLe, pairs.value)))
  }

  ghost predicate BytePairs(pairs: seq<Pair>) {
    forall p :: p in pairs ==> Bytes(p.key) && Bytes(p.value)
  }

  // --------------------------------------------------------------- properties

  lemma PairTextShape(pair: Pair)
    ensures forall i :: 0 <= i < |PairText(pair)| ==>
      Emitted(PairText(pair)[i], QueryComponent) || PairText(pair)[i] == '='
    ensures '&' !in PairText(pair) && ';' !in PairText(pair) && '\n' !in PairText(pair)
  {
  }

  lemma ParsePairText(pair: Pair)
    requires Bytes(pair.key) && Bytes(pair.value)
    ensures ParsePiece(PairText(pair)) == Parsed(pair)
  {
    var k, v := Escape(pair.key, QueryComponent), Escape(pair.value, QueryComponent);
    var t := PairText(pair);
    PairTextShape(pair);
    assert t == k + ['='] + v;
    FirstSeparator(k, v, '=');
    assert t[..|k|] == k && t[|k| + 1..] == v;
    EscapeRoundTrip(pair.key, QueryComponent);
    EscapeRoundTrip(pair.value, QueryComponent);
  }

  lemma {:induction false} ParsedPieces(texts: seq<string>, pairs: seq<Pair>)
    requires |texts| == |pairs| && forall i :: 0 <= i < |texts| ==> ParsePiece(texts[i]) == Parsed(pairs[i])
    ensures ParsePieces(texts) == Some(pairs)
  {
    if pairs != [] {
      ParsedPieces(texts[1..], pairs[1..]);
      assert pairs == [pairs[0]] + pairs[1..];
    }
  }

  lemma ParsePairTexts(pairs: seq<Pair>)
    requires BytePairs(pairs)
    ensures ParsePieces(PairTexts(pairs)) == Some(pairs)
  {
    var texts := PairTexts(pairs);
    forall i | 0 <= i < |texts| ensures ParsePiece(texts[i]) == Parsed(pairs[i]) { ParsePairText(pairs[i]); }
    ParsedPieces(texts, pairs);
  }

  /** Parsing reads back exactly the pairs that were encoded. */
  lemma EncodeRoundTrip(pairs: seq<Pair>)
    requires BytePairs(pairs)
    ensures ParseQuery(EncodePairs(pairs)) == Some(pairs)
  {
    if pairs == [] {
      assert Split("", '&') == [""];
    } else {
      forall i | 0 <= i < |pairs| ensures '&' !in PairTexts(pairs)[i] { PairTextShape(pairs[i]); }
      SplitOfJoin(PairTexts(pairs), '&');
      ParsePairTexts(pairs);
    }
  }

  lemma {:induction false} ParsePiecesBytes(pieces: seq<string>)
    requires forall i :: 0 <= i < |pieces| ==> Bytes(pieces[i])
    ensures ParsePieces(pieces).Some? ==> BytePairs(ParsePieces(pieces).value)
  {
    if pieces != [] {
      ParsePiecesBytes(pieces[1..]);
      var piece := pieces[0];
      var i := IndexOf(piece, '=');
      UnescapeBytes(piece[..i], QueryComponent);
      UnescapeBytes(if i < |piece| then piece[i + 1..] else "", QueryComponent);
    }
  }

  lemma PairLeIsTotalOrder()
    ensures TotalOrder(PairLe)
  {
    LeIsTotalOrder();
  }

  /** Canonicalisation keeps the multiset of decoded pairs, and its own output
      parses back to those pairs in sorted order. */
  lemma CanonicalKeepsPairs(raw: GoString)
    requires ParseQuery(raw).Some?
    ensures var sorted := Sort(PairLe, ParseQuery(raw).value);
      && Sorted(PairLe, sorted) && BytePairs(sorted)
      && multiset(sorted) == multiset(ParseQuery(raw).value)
      && ParseQuery(CanonicalQuery(raw).value) == Some(sorted)
  {
    var pairs := ParseQuery(raw).value;
    SplitBytes(raw, '&');
    ParsePiecesBytes(Split(raw, '&'));
    PairLeIsTotalOrder();
    SortSorts(PairLe, pairs);
    forall p | p in Sort(PairLe, pairs) ensures p in pairs {
      assert p in multiset(Sort(PairLe, pairs));
    }
    EncodeRoundTrip(Sort(PairLe, pairs));
  }

  /** Two parsable queries have the same canonical string exactly when they
      carry the same multiset of decoded pairs. */
  lemma CanonicalQueryDecides(a: GoString, b: GoString)
    requires ParseQuery(a).Some? && ParseQuery(b).Some?
    ensures CanonicalQuery(a) == CanonicalQuery(b)
      <==> multiset(ParseQuery(a).value) == multiset(ParseQuery(b).value)
  {
    CanonicalKeepsPairs(a);
    CanonicalKeepsPairs(b);
    PairLeIsTotalOrder();
    if multiset(ParseQuery(a).value) == multiset(ParseQuery(b).value) {
      SortedUnique(PairLe, Sort(PairLe, ParseQuery(a).value), Sort(PairLe, ParseQuery(b).value));
    }
  }

  /** Canonicalising a canonical query changes nothing. */
  lemma CanonicalQueryIdempotent(raw: GoString)
    requires CanonicalQuery(raw).Some?
    ensures CanonicalQuery(CanonicalQuery(raw).value) == CanonicalQuery(raw)
  {
    CanonicalKeepsPairs(raw);
    var sorted := Sort(PairLe, ParseQuery(raw).value);
    PairLeIsTotalOrder();
    SortSorts(PairLe, sorted);
    SortedUnique(PairLe, Sort(PairLe, sorted), sorted);
  }

  /** No line break survives in a canonical query. */
  lemma CanonicalQueryOneLine(raw: string)
    requires CanonicalQuery(raw).Some?
    ensures '\n' !in CanonicalQuery(raw).value
  {
    var sorted := Sort(PairLe, ParseQuery(raw).value);
    forall i | 0 <= i < |sorted| ensures '\n' !in PairTexts(sorted)[i] { PairTextShape(sorted[i]); }
    JoinAvoids(PairTexts(sorted), '&', '\n');
  }

  // --------------------------------------- the map-based canonicaliser itself

  type Values = map<string, seq<string>>

  function Lookup(values: Values, key: string): seq<string> {
    if key in values then values[key] else []
  }

  /** url.Values built by appending each pair in order. */
  function Group(pairs: seq<Pair>): (values: Values)
    decreases |pairs|
  {
    if pairs == [] then map[]
    else
      var last := pairs[|pairs| - 1];
      var before := Group(pairs[..|pairs| - 1]);
      before[last.key := Lookup(before, last.key) + [last.value]]
  }

  function Entries(key: string, vs: seq<string>): (r: seq<Pair>)
    ensures |r| == |vs|
    ensures forall i :: 0 <= i < |r| ==> r[i] == Pair(key, vs[i])
  {
    seq(|vs|, i requires 0 <= i < |vs| => Pair(key, vs[i]))
  }

  function Flatten(keys: seq<string>, values: Values): seq<Pair>
    requires forall k :: k in keys ==> k in values
  {
    if keys == [] then [] else Entries(keys[0], values[keys[0]]) + Flatten(keys[1..], values)
  }

  /** url.Values.Encode: keys in ascending order, values in stored order. */
  function EncodeValues(values: Values): string {
    EncodePairs(Flatten(SortedKeys(values.Keys), values))
  }

  ghost function Count(pairs: seq<Pair>, p: Pair): nat { multiset(pairs)[p] }

  lemma {:induction false} GroupCount(pairs: seq<Pair>, p: Pair)
    ensures multiset(Lookup(Group(pairs), p.key))[p.value] == Count(pairs, p)
    decreases |pairs|
  {
    if pairs != [] {
      GroupCount(pairs[..|pairs| - 1], p);
      assert pairs == pairs[..|pairs| - 1] + [pairs[|pairs| - 1]];
    }
  }

  lemma {:induction false} EntriesCount(key: string, vs: seq<string>, p: Pair)
    ensures Count(Entries(key, vs), p) == if p.key == key then multiset(vs)[p.value] else 0
    decreases |vs|
  {
    if vs != [] {
      var n := |vs| - 1;
      EntriesCount(key, vs[..n], p);
      assert vs == vs[..n] + [vs[n]];
      assert Entries(key, vs) == Entries(key, vs[..n]) + [Pair(key, vs[n])];
    } else {
      assert Entries(key, vs) == [];
    }
  }

  lemma {:induction false} FlattenCount(keys: seq<string>, values: Values, p: Pair)
    requires forall k :: k in keys ==> k in values
    requires Ascending(keys)
    ensures Count(Flatten(keys, values), p)
      == if p.key in keys then multiset(values[p.key])[p.value] else 0
  {
    if keys != [] {
      EntriesCount(keys[0], values[keys[0]], p);
      FlattenCount(keys[1..], values, p);
      assert keys == [keys[0]] + keys[1..];
    }
  }

  lemma {:induction false} FlattenMember(keys: seq<string>, values: Values, p: Pair)
    requires forall k :: k in keys ==> k in values
    requires p in Flatten(keys, values)
    ensures p.key in keys
  {
    if p !in Entries(keys[0], values[keys[0]]) { FlattenMember(keys[1..], values, p); }
  }

  lemma {:induction false} FlattenSorted(keys: seq<string>, values: Values)
    requires forall k :: k in keys ==> k in values && Sorted(Le, values[k])
    requires Ascending(keys)
    ensures Sorted(PairLe, Flatten(keys, values))
  {
    if keys != [] {
      var head, tail := Entries(keys[0], values[keys[0]]), Flatten(keys[1..], values);
      FlattenSorted(keys[1..], values);
      forall p, q | p in head && q in tail ensures PairLe(p, q) {
        FlattenMember(keys[1..], values, q);
        var j :| 0 <= j < |keys[1..]| && keys[1..][j] == q.key;
        assert Le(keys[0], keys[j + 1]) && keys[0] != keys[j + 1];
      }
    }
  }

  ghost predicate SortedCopy(sorted: Values, values: Values) {
    sorted.Keys == values.Keys && forall k :: k in values ==> sorted[k] == Sort(Le, values[k])
  }

  lemma FlattenGroup(pairs: seq<Pair>, sorted: Values)
    requires SortedCopy(sorted, Group(pairs))
    ensures multiset(Flatten(SortedKeys(sorted.Keys), sorted)) == multiset(pairs)
  {
    var keys := SortedKeys(sorted.Keys);
    var flat := Flatten(keys, sorted);
    LeIsTotalOrder();
    SortedKeysAscending(sorted.Keys);
    forall p ensures multiset(flat)[p] == multiset(pairs)[p] {
      FlattenCount(keys, sorted, p);
      GroupCount(pairs, p);
      if p.key in keys { SortSorts(Le, Group(pairs)[p.key]); }
    }
  }

  /** Sorting each value list and encoding in key order equals sorting pairs. */
  lemma EncodeSorted(pairs: seq<Pair>, sorted: Values)
    requires SortedCopy(sorted, Group(pairs))
    ensures EncodeValues(sorted) == EncodePairs(Sort(PairLe, pairs))
  {
    var keys := SortedKeys(sorted.Keys);
    var flat := Flatten(keys, sorted);
    FlattenGroup(pairs, sorted);
    assert Sorted(PairLe, flat) by {
      LeIsTotalOrder();
      SortedKeysAscending(sorted.Keys);
      forall k | k in keys ensures Sorted(Le, sorted[k]) { SortSorts(Le, Group(pairs)[k]); }
      FlattenSorted(keys, sorted);
    }
    PairLeIsTotalOrder();
    SortSorts(PairLe, pairs);
    SortedUnique(PairLe, flat, Sort(PairLe, pairs));
  }

  /** canonicalServiceAPIQuery: group, sort each key's values in place, encode. */
  method CanonicalServiceApiQuery(raw: GoString) returns (r: Option<string>)
    ensures r == CanonicalQuery(raw)
  {
    if raw == "" {
      EmptyQuery();
      return Some("");
    }
    var parsed := ParseQuery(raw);
    if parsed.None? {
      return None;
    }
    var values := SortValues(Group(parsed.value));
    EncodeSorted(parsed.value, values);
    r := Some(EncodeValues(values));
  }

  lemma EmptyQuery()
    ensures CanonicalQuery("") == Some("")
  {
    assert Split("", '&') == [""];
    assert ParsePieces([""]) == Some([]) by { assert [""][1..] == []; }
    assert Sort(PairLe, []) == [];
  }

  /** Its loop over the keys, in no particular order. */
  method SortValues(original: Values) returns (values: Values)
    ensures SortedCopy(values, original)
  {
    values := original;
    var pending := values.Keys;
    while pending != {}
      invariant pending <= values.Keys == original.Keys
      invariant forall k :: k in values ==> values[k] == if k in pending then original[k] else Sort(Le, original[k])
    {
      var key :| key in pending;
      values := values[key := Sort(Le, values[key])];
      pending := pending - {key};
    }
  }
}
