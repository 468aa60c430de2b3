/** Locked modules and transport-failure diagnostics of the dependency recovery
    protocol (locked_modules, go_escape and classify). */
module RecoveryClassifier {
  import opened Wrappers
  import opened Sequences

  datatype Failure = Http2InternalError | TransientHttp

  // ------------------------------------------------------------ module names

  predicate IsAlnum(c: char) {
    'a' <= c <= 'z' || 'A' <= c <= 'Z' || '0' <= c <= '9'
  }

  predicate AllIn(s: string, extra: string) {
    forall i :: 0 <= i < |s| ==> IsAlnum(s[i]) || s[i] in extra
  }

  predicate ValidPath(path: string) {
    && |path| >= 2 && IsAlnum(path[0]) && AllIn(path, "._~!+/-")
    && ".." !in Split(path, '/')
  }

  predicate PlainVersion(version: string) {
    |version| >= 2 && version[0] == 'v' && IsDigit(version[1]) && AllIn(version[1..], ".+-")
  }

  /** The version pattern; its suffix `/go.mod` is written with an unescaped
      dot, so any character but a line break stands for the dot. */
  predicate ValidVersion(version: string) {
    || PlainVersion(version)
    || (|version| > 7 && PlainVersion(version[..|version| - 7]) && GoModLike(version[|version| - 7..]))
  }

  predicate GoModLike(s: string) {
    |s| == 7 && s[..3] == "/go" && s[3] != '\n' && s[4..] == "mod"
  }

  predicate ValidChecksum(sum: string) {
    && |sum| == 47 && sum[..3] == "h1:" && sum[46] == '='
    && AllIn(sum[3..46], "+/")
  }

  function WordEnd(s: string): (n: nat)
    ensures n <= |s| && forall i :: 0 <= i < n ==> !IsSpace(s[i])
    ensures s != "" && !IsSpace(s[0]) ==> n > 0
  {
    if s == "" || IsSpace(s[0]) then 0 else 1 + WordEnd(s[1..])
  }

  /** The words between white space. */
  function Fields(line: string): (r: seq<string>)
    ensures forall w :: w in r ==> forall i :: 0 <= i < |w| ==> !IsSpace(w[i])
    decreases |line|
  {
    if line == "" then []
    else if IsSpace(line[0]) then Fields(line[1..])
    else [line[..WordEnd(line)]] + Fields(line[WordEnd(line)..])
  }

  /** What a line of go.sum, split at white space, contributes. */
  datatype Entry = Invalid | ModFileOnly | Archive(key: string, sum: string)

  function EntryOf(line: seq<string>): Entry {
    if |line| != 3 || !ValidChecksum(line[2]) || !ValidPath(line[0]) || !ValidVersion(line[1]) then Invalid
    else if EndsWith(line[1], "/go.mod") then ModFileOnly
    else Archive(line[0] + "@" + line[1], line[2])
  }

  function Entries(lines: seq<string>): (r: seq<Entry>)
    ensures |r| == |lines|
  {
    seq(|lines|, i requires 0 <= i < |lines| => EntryOf(Fields(lines[i])))
  }

  /** The lock table that the entries define: one checksum for each key. */
  ghost predicate Locks(modules: map<string, string>, entries: seq<Entry>) {
    && (forall e :: e in entries && e.Archive? ==> e.key in modules && modules[e.key] == e.sum)
    && (forall k :: k in modules ==> Archive(k, modules[k]) in entries)
  }

  ghost predicate DistinctKeys(entries: seq<Entry>) {
    forall i, j :: 0 <= i < j < |entries| && entries[i].Archive? && entries[j].Archive?
      ==> entries[i].key != entries[j].key
  }

  /** locked_modules: accepts exactly the well-formed files without duplicate
      archives that lock between 1 and 1024 modules. */
  method LockedModules(lines: seq<string>) returns (r: Option<map<string, string>>)
    ensures r.Some? <==>
      && DistinctKeys(Entries(lines)) && Invalid !in Entries(lines)
      && exists modules :: Locks(modules, Entries(lines)) && 0 < |modules| <= 1024
    ensures r.Some? ==> Locks(r.value, Entries(lines))
  {
    r := LockTable(Entries(lines));
  }

  /** The accumulation loop over the entries. */
  method LockTable(entries: seq<Entry>) returns (r: Option<map<string, string>>)
    ensures r.Some? <==>
      && DistinctKeys(entries) && Invalid !in entries
      && exists modules :: Locks(modules, entries) && 0 < |modules| <= 1024
    ensures r.Some? ==> Locks(r.value, entries)
  {
    var modules: map<string, string> := map[];
    var i := 0;
    while i < |entries|
      invariant 0 <= i <= |entries|
      invariant Locks(modules, entries[..i]) && DistinctKeys(entries[..i])
      invariant Invalid !in entries[..i]
    {
      var entry := entries[i];
      assert entries[..i + 1] == entries[..i] + [entry];
      if entry.Invalid? {
        return None;
      }
      if entry.Archive? {
        if entry.key in modules {
          var j :| 0 <= j < i && entries[..i][j] == Archive(entry.key, modules[entry.key]);
          assert entries[j].Archive? && entries[j].key == entries[i].key;
          return None;
        }
        modules := modules[entry.key := entry.sum];
      }
      i := i + 1;
    }
    assert entries[..i] == entries;
    if modules == map[] || |modules| > 1024 {
      forall other | Locks(other, entries) ensures other == modules { LocksUnique(other, modules, entries); }
      return None;
    }
    r := Some(modules);
  }

  lemma LocksUnique(a: map<string, string>, b: map<string, string>, entries: seq<Entry>)
    requires Locks(a, entries) && Locks(b, entries)
    ensures a == b
  {
  }

  // -------------------------------------------------------------- escaping

  function EscapeOne(c: char): (r: string)
    ensures 1 <= |r| <= 2
  {
    if 'A' <= c <= 'Z' then ['!', c - 'A' + 'a'] else [c]
  }

  /** Module proxy escaping: an upper-case letter becomes `!` and lower case. */
  function GoEscape(text: string): string {
    if text == "" then "" else EscapeOne(text[0]) + GoEscape(text[1..])
  }

  lemma {:induction false} GoEscapeAppend(a: string, b: string)
    ensures GoEscape(a + b) == GoEscape(a) + GoEscape(b)
  {
    if a == "" {
      assert a + b == b;
    } else {
      assert (a + b)[1..] == a[1..] + b;
      GoEscapeAppend(a[1..], b);
    }
  }

  /** Escaping loses nothing on text without `!`. */
  lemma {:induction false} GoEscapeInjective(a: string, b: string)
    requires '!' !in a && '!' !in b && GoEscape(a) == GoEscape(b)
    ensures a == b
  {
    if a != "" && b != "" {
      var x, y := GoEscape(a), GoEscape(b);
      assert x[0] == EscapeOne(a[0])[0] && y[0] == EscapeOne(b[0])[0];
      assert a[0] in a && b[0] in b;
      assert |EscapeOne(a[0])| == |EscapeOne(b[0])|;
      assert |EscapeOne(a[0])| == 2 ==> x[1] == EscapeOne(a[0])[1] && y[1] == EscapeOne(b[0])[1];
      assert a[0] == b[0];
      assert GoEscape(a[1..]) == x[|EscapeOne(a[0])|..] == y[|EscapeOne(b[0])|..] == GoEscape(b[1..]);
      GoEscapeInjective(a[1..], b[1..]);
      assert a == [a[0]] + a[1..] && b == [b[0]] + b[1..];
    }
  }

  lemma {:induction false} GoEscapeAvoids(text: string, c: char)
    requires c !in text && c != '!' && !('a' <= c <= 'z')
    ensures c !in GoEscape(text)
  {
    if text != "" { GoEscapeAvoids(text[1..], c); }
  }

  // ----------------------------------------------------------- classification

  function VersionOf(key: string): string { key[AfterLast(key, '@')..] }

  function PathOf(key: string): string
    requires '@' in key
  {
    assert AfterLast(key, '@') > 0 by { assert key[0..] == key; }
    key[..AfterLast(key, '@') - 1]
  }

  function Endpoint(proxy: string, key: string): string
    requires '@' in key
  {
    proxy + "/" + GoEscape(PathOf(key)) + "/@v/" + GoEscape(VersionOf(key)) + ".zip"
  }

  /** `[1-9][0-9]*` */
  predicate StreamId(s: string) {
    |s| > 0 && '1' <= s[0] <= '9' && forall i :: 0 <= i < |s| ==> IsDigit(s[i])
  }

  const STREAM_HEAD := "stream error: stream ID "
  const STREAM_TAIL := "; INTERNAL_ERROR; received from peer"

  predicate StreamErrorTail(tail: string) {
    && StartsWith(tail, STREAM_HEAD) && EndsWith(tail, STREAM_TAIL) && |tail| > |STREAM_HEAD| + |STREAM_TAIL|
    && StreamId(tail[|STREAM_HEAD|..|tail| - |STREAM_TAIL|])
  }

  predicate TransientTail(tail: string) {
    tail == "502 Bad Gateway" || tail == "503 Service Unavailable" || tail == "504 Gateway Timeout"
  }

  predicate Tail(failure: Failure, tail: string) {
    match failure
    case Http2InternalError => StreamErrorTail(tail)
    case TransientHttp => TransientTail(tail)
  }

  /** The fixed text of a diagnostic before its tail. */
  function Head(proxy: string, key: string, named: bool, verb: string): string
    requires '@' in key
  {
    (if named then key + ": " else "") + verb + " \"" + Endpoint(proxy, key) + "\": "
  }

  predicate MatchesHead(error: string, head: string, failure: Failure) {
    StartsWith(error, head) && Tail(failure, error[|head|..])
  }

  predicate Diagnosed(error: string, key: string, proxy: string, failure: Failure)
    requires '@' in key
  {
    || MatchesHead(error, Head(proxy, key, false, "read"), failure)
    || MatchesHead(error, Head(proxy, key, false, "Get"), failure)
    || MatchesHead(error, Head(proxy, key, true, "read"), failure)
    || MatchesHead(error, Head(proxy, key, true, "Get"), failure)
  }

  /** classify: the transport failure a diagnostic proves about a module. */
  function Classify(error: string, key: string, proxy: string): Option<Failure>
    requires '@' in key
  {
    if Diagnosed(error, key, proxy, Http2InternalError) then Some(Http2InternalError)
    else if Diagnosed(error, key, proxy, TransientHttp) then Some(TransientHttp)
    else None
  }

  // --------------------------------------------------------------- properties

  lemma KeySplits(key: string)
    requires '@' in key
    ensures key == PathOf(key) + (['@'] + VersionOf(key)) && '@' !in VersionOf(key)
  {
    var i := AfterLast(key, '@');
    assert i > 0 by { assert key[0..] == key; }
    assert key[i - 1] == '@';
  }

  lemma EscapedAround(path: string, version: string)
    ensures GoEscape(path + (['@'] + version)) == GoEscape(path) + ['@'] + GoEscape(version)
  {
    GoEscapeAppend(path, ['@'] + version);
    GoEscapeAppend(['@'], version);
    assert GoEscape(['@']) == ['@'];
  }

  lemma KeyParts(key: string)
    requires '@' in key
    ensures '@' !in VersionOf(key)
    ensures GoEscape(key) == GoEscape(PathOf(key)) + ['@'] + GoEscape(VersionOf(key))
  {
    KeySplits(key);
    EscapedAround(PathOf(key), VersionOf(key));
  }

  lemma EndpointCut(proxy: string, pa: string, va: string, pb: string, vb: string)
    requires '@' !in va && '@' !in vb
    ensures proxy + "/" + pa + "/@v/" + va + ".zip" == proxy + "/" + pb + "/@v/" + vb + ".zip" <==> pa == pb && va == vb
  {
    var ha, hb := proxy + "/" + pa + "/", proxy + "/" + pb + "/";
    var ta, tb := "v/" + va + ".zip", "v/" + vb + ".zip";
    assert proxy + "/" + pa + "/@v/" + va + ".zip" == ha + ['@'] + ta;
    assert proxy + "/" + pb + "/@v/" + vb + ".zip" == hb + ['@'] + tb;
    if ha + ['@'] + ta == hb + ['@'] + tb {
      CutLast(ha, ta, hb, tb, '@');
      assert pa == ha[|proxy| + 1..|ha| - 1] && pb == hb[|proxy| + 1..|hb| - 1];
      assert va == ta[2..|ta| - 4] && vb == tb[2..|tb| - 4];
    }
  }

  /** The endpoint of a module is its escaped key in another spelling. */
  lemma EndpointDecides(proxy: string, a: string, b: string)
    requires '@' in a && '@' in b
    ensures Endpoint(proxy, a) == Endpoint(proxy, b) <==> GoEscape(a) == GoEscape(b)
  {
    KeyParts(a);
    KeyParts(b);
    GoEscapeAvoids(VersionOf(a), '@');
    GoEscapeAvoids(VersionOf(b), '@');
    var pa, pb := GoEscape(PathOf(a)), GoEscape(PathOf(b));
    var va, vb := GoEscape(VersionOf(a)), GoEscape(VersionOf(b));
    EndpointCut(proxy, pa, va, pb, vb);
    if GoEscape(a) == GoEscape(b) {
      CutLast(pa, va, pb, vb, '@');
    }
  }

  lemma FixedTextQuoteFree()
    ensures '"' !in STREAM_HEAD && '"' !in STREAM_TAIL
  {
  }

  lemma PartsQuoteFree(text: string, n: nat, m: nat)
    requires n <= m <= |text| && '"' !in text[..n] && StreamId(text[n..m]) && '"' !in text[m..]
    ensures '"' !in text
  {
  }

  lemma StreamTailQuoteFree(tail: string)
    requires StreamErrorTail(tail)
    ensures '"' !in tail
  {
    FixedTextQuoteFree();
    PartsQuoteFree(tail, |STREAM_HEAD|, |tail| - |STREAM_TAIL|);
  }

  lemma TailQuoteFree(failure: Failure, tail: string)
    requires Tail(failure, tail)
    ensures '"' !in tail
  {
    if failure.Http2InternalError? { StreamTailQuoteFree(tail); }
  }

  /** What a classified diagnostic must look like. */
  ghost predicate Shaped(error: string, key: string, proxy: string, named: bool, verb: string, tail: string)
    requires '@' in key
  {
    (verb == "read" || verb == "Get") && '"' !in tail && error == Head(proxy, key, named, verb) + tail
  }

  lemma ShapeOf(error: string, key: string, proxy: string) returns (named: bool, verb: string, tail: string)
    requires '@' in key && Classify(error, key, proxy).Some?
    ensures Shaped(error, key, proxy, named, verb, tail)
  {
    var failure := Classify(error, key, proxy).value;
    assert Diagnosed(error, key, proxy, failure);
    if MatchesHead(error, Head(proxy, key, false, "read"), failure) {
      named, verb := false, "read";
    } else if MatchesHead(error, Head(proxy, key, false, "Get"), failure) {
      named, verb := false, "Get";
    } else if MatchesHead(error, Head(proxy, key, true, "read"), failure) {
      named, verb := true, "read";
    } else {
      named, verb := true, "Get";
    }
    tail := error[|Head(proxy, key, named, verb)|..];
    TailQuoteFree(failure, tail);
  }

  function FirstWord(key: string, named: bool, verb: string): string {
    if named then key + ":" else verb
  }

  function AfterFirstWord(proxy: string, key: string, named: bool, verb: string, tail: string): string
    requires '@' in key
  {
    (if named then verb + " " else "") + "\"" + Endpoint(proxy, key) + "\": " + tail
  }

  lemma HeadWords(proxy: string, key: string, named: bool, verb: string)
    requires '@' in key
    ensures Head(proxy, key, named, verb) ==
      FirstWord(key, named, verb) + [' '] + ((if named then verb + " " else "") + "\"" + Endpoint(proxy, key) + "\": ")
  {
    var e := Endpoint(proxy, key);
    if named {
      assert key + ": " == (key + ":") + [' '];
      assert (key + ": ") + verb + " \"" + e + "\": " == (key + ":") + [' '] + (verb + " " + "\"" + e + "\": ");
    } else {
      assert "" + verb + " \"" + e + "\": " == verb + [' '] + ("" + "\"" + e + "\": ");
    }
  }

  lemma WordsOf(error: string, key: string, proxy: string, named: bool, verb: string, tail: string)
    requires '@' in key && Shaped(error, key, proxy, named, verb, tail)
    ensures error == FirstWord(key, named, verb) + [' '] + AfterFirstWord(proxy, key, named, verb, tail)
  {
    HeadWords(proxy, key, named, verb);
    var rest := (if named then verb + " " else "") + "\"" + Endpoint(proxy, key) + "\": ";
    assert FirstWord(key, named, verb) + [' '] + rest + tail == FirstWord(key, named, verb) + [' '] + (rest + tail);
  }

  lemma QuotedCut(ea: string, ta: string, eb: string, tb: string)
    requires '"' !in ta && '"' !in tb
    requires "\"" + ea + "\": " + ta == "\"" + eb + "\": " + tb
    ensures ea == eb
  {
    var qa, qb := "\"" + ea, "\"" + eb;
    assert "\"" + ea + "\": " + ta == qa + ['"'] + (": " + ta);
    assert "\"" + eb + "\": " + tb == qb + ['"'] + (": " + tb);
    CutLast(qa, ": " + ta, qb, ": " + tb, '"');
    assert ea == qa[1..] && eb == qb[1..];
  }

  lemma FirstWordsAgree(a: string, na: bool, va: string, b: string, nb: bool, vb: string)
    requires '@' in a && '@' in b && '@' !in va && '@' !in vb
    requires FirstWord(a, na, va) == FirstWord(b, nb, vb)
    ensures na == nb && (na ==> a == b)
  {
    var wa, wb := FirstWord(a, na, va), FirstWord(b, nb, vb);
    assert na ==> a == wa[..|wa| - 1] && '@' in wa;
    assert nb ==> b == wb[..|wb| - 1] && '@' in wb;
  }

  lemma SharedShape(error: string, proxy: string, a: string, na: bool, va: string, ta: string, b: string, nb: bool, vb: string, tb: string)
    requires '@' in a && '@' in b && ' ' !in a && ' ' !in b
    requires Shaped(error, a, proxy, na, va, ta) && Shaped(error, b, proxy, nb, vb, tb)
    ensures a == b || Endpoint(proxy, a) == Endpoint(proxy, b)
  {
    WordsOf(error, a, proxy, na, va, ta);
    WordsOf(error, b, proxy, nb, vb, tb);
    CutFirst(FirstWord(a, na, va), AfterFirstWord(proxy, a, na, va, ta),
             FirstWord(b, nb, vb), AfterFirstWord(proxy, b, nb, vb, tb), ' ');
    FirstWordsAgree(a, na, va, b, nb, vb);
    if !na {
      Unnamed(proxy, a, va, ta);
      Unnamed(proxy, b, vb, tb);
      QuotedCut(Endpoint(proxy, a), ta, Endpoint(proxy, b), tb);
    }
  }

  lemma Unnamed(proxy: string, key: string, verb: string, tail: string)
    requires '@' in key
    ensures AfterFirstWord(proxy, key, false, verb, tail) == "\"" + Endpoint(proxy, key) + "\": " + tail
  {
  }

  /** A diagnostic that fits two modules cannot tell their escaped names apart. */
  lemma SharedDiagnostic(error: string, a: string, b: string, proxy: string)
    requires '@' in a && '@' in b && ' ' !in a && ' ' !in b
    requires Classify(error, a, proxy).Some? && Classify(error, b, proxy).Some?
    ensures GoEscape(a) == GoEscape(b)
  {
    var na, va, ta := ShapeOf(error, a, proxy);
    var nb, vb, tb := ShapeOf(error, b, proxy);
    SharedShape(error, proxy, a, na, va, ta, b, nb, vb, tb);
    EndpointDecides(proxy, a, b);
  }

  function BadGateway(key: string, proxy: string): string
    requires '@' in key
  {
    Head(proxy, key, false, "Get") + "502 Bad Gateway"
  }

  lemma BadGatewayDiagnosed(key: string, other: string, proxy: string)
    requires '@' in key && '@' in other && Endpoint(proxy, key) == Endpoint(proxy, other)
    ensures Classify(BadGateway(key, proxy), other, proxy).Some?
  {
    var head := Head(proxy, other, false, "Get");
    assert BadGateway(key, proxy) == head + "502 Bad Gateway";
    assert BadGateway(key, proxy)[|head|..] == "502 Bad Gateway";
    assert MatchesHead(BadGateway(key, proxy), head, TransientHttp);
  }

  /** Exactly when can one diagnostic incriminate two modules: when the two
      names escape to the same text. */
  lemma AmbiguityCondition(a: string, b: string, proxy: string)
    requires '@' in a && '@' in b && ' ' !in a && ' ' !in b
    ensures (exists error :: Classify(error, a, proxy).Some? && Classify(error, b, proxy).Some?)
      <==> GoEscape(a) == GoEscape(b)
  {
    if GoEscape(a) == GoEscape(b) {
      EndpointDecides(proxy, a, b);
      BadGatewayDiagnosed(a, a, proxy);
      BadGatewayDiagnosed(a, b, proxy);
    }
    forall error | Classify(error, a, proxy).Some? && Classify(error, b, proxy).Some?
      ensures GoEscape(a) == GoEscape(b)
    {
      SharedDiagnostic(error, a, b, proxy);
    }
  }

  // ------------------------------------------------------------- locked modules

  predicate OneWord(s: string) { forall i :: 0 <= i < |s| ==> !IsSpace(s[i]) }

  /** Path and version of a module that go.sum can lock. */
  predicate Lockable(path: string, version: string) {
    ValidPath(path) && ValidVersion(version) && OneWord(version)
  }

  function KeyOf(path: string, version: string): string { path + "@" + version }

  lemma PathAvoids(path: string, c: char)
    requires ValidPath(path) && (c == '@' || c == ' ')
    ensures c !in path
  {
  }

  /** Keys are what classification needs them to be. */
  lemma KeyShape(path: string, version: string)
    requires Lockable(path, version)
    ensures '@' in KeyOf(path, version) && ' ' !in KeyOf(path, version)
  {
    PathAvoids(path, ' ');
    assert IsSpace(' ');
    assert KeyOf(path, version)[|path|] == '@';
  }

  /** Every key of an accepted lock table is the key of a lockable module. */
  lemma LockedKey(lines: seq<string>, modules: map<string, string>, key: string) returns (path: string, version: string)
    requires Locks(modules, Entries(lines)) && key in modules
    ensures Lockable(path, version) && key == KeyOf(path, version)
  {
    var i :| 0 <= i < |lines| && Entries(lines)[i] == Archive(key, modules[key]);
    path, version := EntryParts(Fields(lines[i]), key, modules[key]);
    assert version in Fields(lines[i]);
  }

  lemma EntryParts(words: seq<string>, key: string, sum: string) returns (path: string, version: string)
    requires EntryOf(words) == Archive(key, sum)
    ensures ValidPath(path) && ValidVersion(version) && version in words && key == KeyOf(path, version)
  {
    path, version := words[0], words[1];
  }

  lemma {:induction false} WordEnds(word: string, rest: string)
    requires OneWord(word) && (rest == "" || IsSpace(rest[0]))
    ensures WordEnd(word + rest) == |word|
  {
    if word == "" {
      assert word + rest == rest;
    } else {
      assert (word + rest)[1..] == word[1..] + rest;
      WordEnds(word[1..], rest);
    }
  }

  lemma FirstField(word: string, rest: string)
    requires word != "" && OneWord(word) && (rest == "" || IsSpace(rest[0]))
    ensures Fields(word + rest) == [word] + Fields(rest)
  {
    WordEnds(word, rest);
    assert (word + rest)[..|word|] == word && (word + rest)[|word|..] == rest;
  }

  lemma NextField(word: string, rest: string)
    requires word != "" && OneWord(word) && (rest == "" || IsSpace(rest[0]))
    ensures Fields(" " + (word + rest)) == [word] + Fields(rest)
  {
    SpaceSkipped(word + rest);
    FirstField(word, rest);
  }

  lemma SpaceSkipped(line: string)
    ensures Fields(" " + line) == Fields(line)
  {
    assert IsSpace(' ') && (" " + line)[1..] == line;
  }

  lemma WordsOfLine(a: string, b: string, c: string)
    requires a != "" && b != "" && c != "" && OneWord(a) && OneWord(b) && OneWord(c)
    ensures Fields(a + (" " + (b + (" " + (c + ""))))) == [a, b, c]
  {
    assert IsSpace(' ');
    FirstField(a, " " + (b + (" " + (c + ""))));
    NextField(b, " " + (c + ""));
    NextField(c, "");
  }

  lemma ValidWords(path: string, sum: string)
    requires ValidPath(path) && ValidChecksum(sum)
    ensures OneWord(path) && OneWord(sum)
  {
    forall i | 0 <= i < |sum| ensures !IsSpace(sum[i]) {
      if i < 3 {
        assert sum[..3][i] == sum[i];
      } else if i < 46 {
        assert sum[3..46][i - 3] == sum[i];
      }
    }
  }

  /** A lock table of one module that go.sum can lock, accepted as such. */
  lemma OneModuleLocked(path: string, version: string, sum: string) returns (lines: seq<string>)
    requires Lockable(path, version) && !EndsWith(version, "/go.mod") && ValidChecksum(sum)
    ensures Locks(map[KeyOf(path, version) := sum], Entries(lines)) && DistinctKeys(Entries(lines)) && Invalid !in Entries(lines)
  {
    ValidWords(path, sum);
    lines := [path + (" " + (version + (" " + (sum + ""))))];
    WordsOfLine(path, version, sum);
    EntryOfModule(path, version, sum);
    OneEntryLocks(KeyOf(path, version), sum, Entries(lines));
  }

  lemma EntryOfModule(path: string, version: string, sum: string)
    requires ValidPath(path) && ValidVersion(version) && !EndsWith(version, "/go.mod") && ValidChecksum(sum)
    ensures EntryOf([path, version, sum]) == Archive(KeyOf(path, version), sum)
  {
  }

  lemma OneEntryLocks(key: string, sum: string, entries: seq<Entry>)
    requires |entries| == 1 && entries[0] == Archive(key, sum)
    ensures Locks(map[key := sum], entries) && DistinctKeys(entries) && Invalid !in entries
  {
    assert entries[0] in entries;
  }

  lemma PlainVersionFree(version: string)
    requires PlainVersion(version)
    ensures '/' !in version && '!' !in version
  {
    forall i | 0 <= i < |version| ensures version[i] != '/' && version[i] != '!' {
      assert i > 0 ==> version[1..][i - 1] == version[i];
    }
  }

  lemma GoModEscape(plain: string, c: char)
    ensures GoEscape(plain + "/go" + [c] + "mod") == GoEscape(plain) + ['/'] + ("go" + EscapeOne(c) + "mod")
  {
    var tail := ['/'] + ("go" + EscapeOne(c) + "mod");
    assert plain + "/go" + [c] + "mod" == plain + ("/go" + [c] + "mod");
    GoEscapeAppend(plain, "/go" + [c] + "mod");
    GoModTail(c);
    assert GoEscape(plain) + tail == GoEscape(plain) + ['/'] + ("go" + EscapeOne(c) + "mod");
  }

  lemma GoModTail(c: char)
    ensures GoEscape("/go" + [c] + "mod") == ['/'] + ("go" + EscapeOne(c) + "mod")
  {
    GoEscapeAppend("/go" + [c], "mod");
    GoEscapeAppend("/go", [c]);
    GoModWords();
    assert [c][1..] == "" && GoEscape([c]) == EscapeOne(c);
  }

  lemma GoModWords()
    ensures GoEscape("/go") == "/go" && GoEscape("mod") == "mod"
  {
    assert "/go"[1..] == "go" && "go"[1..] == "o" && "o"[1..] == "" && "mod"[1..] == "od" && "od"[1..] == "d" && "d"[1..] == "";
    assert GoEscape("o") == "o" && GoEscape("go") == "go" && GoEscape("d") == "d" && GoEscape("od") == "od";
  }

  lemma SuffixesAgree(c: char, d: char)
    requires "go" + EscapeOne(c) + "mod" == "go" + EscapeOne(d) + "mod"
    ensures c == d
  {
    var x, y := "go" + EscapeOne(c) + "mod", "go" + EscapeOne(d) + "mod";
    assert x[2] == EscapeOne(c)[0] && y[2] == EscapeOne(d)[0];
    assert |EscapeOne(c)| == 2 ==> x[3] == EscapeOne(c)[1];
    assert |EscapeOne(d)| == 2 ==> y[3] == EscapeOne(d)[1];
  }

  /** The two parts of a version that is not plain. */
  lemma GoModParts(version: string) returns (plain: string, c: char)
    requires ValidVersion(version) && !PlainVersion(version)
    ensures PlainVersion(plain) && version == plain + "/go" + [c] + "mod"
  {
    var n := |version| - 7;
    plain, c := version[..n], version[n + 3];
    var rest := version[n..];
    assert rest == rest[..3] + [rest[3]] + rest[4..];
    assert version == plain + rest;
  }

  /** Escaping tells all valid versions apart, even those with a `!`. */
  lemma VersionsInjective(a: string, b: string)
    requires ValidVersion(a) && ValidVersion(b) && GoEscape(a) == GoEscape(b)
    ensures a == b
  {
    if PlainVersion(a) && PlainVersion(b) {
      PlainVersionFree(a);
      PlainVersionFree(b);
      GoEscapeInjective(a, b);
    } else if PlainVersion(a) {
      OneKindOfVersion(a, b);
    } else if PlainVersion(b) {
      OneKindOfVersion(b, a);
    } else {
      var pa, ca := GoModParts(a);
      var pb, cb := GoModParts(b);
      GoModsInjective(pa, ca, pb, cb);
    }
  }

  lemma OneKindOfVersion(a: string, b: string)
    requires PlainVersion(a) && ValidVersion(b) && GoEscape(a) == GoEscape(b)
    ensures PlainVersion(b) && a == b
  {
    PlainVersionFree(a);
    GoEscapeAvoids(a, '/');
    if PlainVersion(b) {
      PlainVersionFree(b);
      GoEscapeInjective(a, b);
    } else {
      SlashEscapes(b);
      assert false;
    }
  }

  lemma SlashEscapes(version: string)
    requires ValidVersion(version) && !PlainVersion(version)
    ensures '/' in GoEscape(version)
  {
    var plain, c := GoModParts(version);
    GoModEscape(plain, c);
    assert GoEscape(version)[|GoEscape(plain)|] == '/';
  }

  lemma GoModsInjective(pa: string, ca: char, pb: string, cb: char)
    requires PlainVersion(pa) && PlainVersion(pb)
    requires GoEscape(pa + "/go" + [ca] + "mod") == GoEscape(pb + "/go" + [cb] + "mod")
    ensures pa == pb && ca == cb
  {
    PlainVersionFree(pa);
    PlainVersionFree(pb);
    GoEscapeAvoids(pa, '/');
    GoEscapeAvoids(pb, '/');
    GoModEscape(pa, ca);
    GoModEscape(pb, cb);
    CutFirst(GoEscape(pa), "go" + EscapeOne(ca) + "mod", GoEscape(pb), "go" + EscapeOne(cb) + "mod", '/');
    GoEscapeInjective(pa, pb);
    SuffixesAgree(ca, cb);
  }

  /** Keys of lockable modules escape alike if and only if the versions are the
      same and the paths escape alike. */
  lemma KeysEscapeAlike(pa: string, va: string, pb: string, vb: string)
    requires Lockable(pa, va) && Lockable(pb, vb)
    ensures GoEscape(KeyOf(pa, va)) == GoEscape(KeyOf(pb, vb)) <==> GoEscape(pa) == GoEscape(pb) && va == vb
  {
    EscapedPathAvoids(pa);
    EscapedPathAvoids(pb);
    KeysCut(pa, va, pb, vb);
    if GoEscape(va) == GoEscape(vb) { VersionsInjective(va, vb); }
  }

  lemma EscapedPathAvoids(path: string)
    requires ValidPath(path)
    ensures '@' !in GoEscape(path)
  {
    PathAvoids(path, '@');
    GoEscapeAvoids(path, '@');
  }

  lemma KeysCut(pa: string, va: string, pb: string, vb: string)
    requires '@' !in GoEscape(pa) && '@' !in GoEscape(pb)
    ensures GoEscape(KeyOf(pa, va)) == GoEscape(KeyOf(pb, vb)) <==> GoEscape(pa) == GoEscape(pb) && GoEscape(va) == GoEscape(vb)
  {
    EscapedKey(pa, va);
    EscapedKey(pb, vb);
    AtCut(GoEscape(pa), GoEscape(va), GoEscape(pb), GoEscape(vb));
  }

  lemma EscapedKey(path: string, version: string)
    ensures GoEscape(KeyOf(path, version)) == GoEscape(path) + ['@'] + GoEscape(version)
  {
    EscapedAround(path, version);
    assert KeyOf(path, version) == path + (['@'] + version);
  }

  lemma AtCut(x: string, y: string, x': string, y': string)
    requires '@' !in x && '@' !in x'
    ensures x + ['@'] + y == x' + ['@'] + y' <==> x == x' && y == y'
  {
    if x + ['@'] + y == x' + ['@'] + y' { CutFirst(x, y, x', y', '@'); }
  }

  /** No diagnostic is a transport failure of two different lockable modules
      whose paths are free of `!`. */
  lemma ClassificationUnambiguous(error: string, pa: string, va: string, pb: string, vb: string, proxy: string)
    requires Lockable(pa, va) && Lockable(pb, vb) && '!' !in pa && '!' !in pb
    requires '@' in KeyOf(pa, va) && Classify(error, KeyOf(pa, va), proxy).Some?
    requires '@' in KeyOf(pb, vb) && Classify(error, KeyOf(pb, vb), proxy).Some?
    ensures pa == pb && va == vb
  {
    KeyShape(pa, va);
    KeyShape(pb, vb);
    SharedDiagnostic(error, KeyOf(pa, va), KeyOf(pb, vb), proxy);
    KeysEscapeAlike(pa, va, pb, vb);
    GoEscapeInjective(pa, pb);
  }

  /** Among the modules of an accepted lock table, one diagnostic can be a
      transport failure of two different ones if and only if their versions are
      the same and their paths escape alike. */
  lemma LockedAmbiguity(lines: seq<string>, modules: map<string, string>, a: string, b: string, proxy: string)
      returns (pa: string, va: string, pb: string, vb: string)
    requires Locks(modules, Entries(lines)) && a in modules && b in modules
    ensures Lockable(pa, va) && Lockable(pb, vb) && a == KeyOf(pa, va) && b == KeyOf(pb, vb) && '@' in a && '@' in b
    ensures (exists error :: Classify(error, a, proxy).Some? && Classify(error, b, proxy).Some?)
      <==> GoEscape(pa) == GoEscape(pb) && va == vb
  {
    pa, va := LockedKey(lines, modules, a);
    pb, vb := LockedKey(lines, modules, b);
    KeyShape(pa, va);
    KeyShape(pb, vb);
    AmbiguityCondition(a, b, proxy);
    KeysEscapeAlike(pa, va, pb, vb);
  }

  /** Where the condition fails: `!a` in one name against `A` in the other. */
  lemma EscapeCollision(prefix: string, suffix: string)
    ensures GoEscape(prefix + "!a" + suffix) == GoEscape(prefix + "A" + suffix)
    ensures prefix + "!a" + suffix != prefix + "A" + suffix
  {
    EscapedPair();
    GoEscapeAppend(prefix + "!a", suffix);
    GoEscapeAppend(prefix + "A", suffix);
    GoEscapeAppend(prefix, "!a");
    GoEscapeAppend(prefix, "A");
    assert |prefix + "!a" + suffix| != |prefix + "A" + suffix|;
  }

  lemma EscapedPair()
    ensures GoEscape("!a") == GoEscape("A")
  {
  }

  /** Both spellings can be locked, so such a pair is ambiguous in practice. */
  lemma CollidingModulesAreValid()
    ensures ValidPath("x!a") && ValidPath("xA") && ValidVersion("v1")
  {
    assert '/' !in "x!a" && '/' !in "xA";
    assert Split("x!a", '/') == ["x!a"];
    assert Split("xA", '/') == ["xA"];
  }
}
