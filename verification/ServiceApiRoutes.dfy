/** Which operation a signed request addresses (newServiceAPIAuthenticator's
    route table, matchServiceAPIRoute and resolveRoute). */
module ServiceApiRoutes {
  import opened Wrappers
  import opened Sequences
  import opened Ordering
  import opened ServiceApiPath
  import opened SignedRequest

  datatype Route = Route(operation: string, httpMethod: string, template: string)
  datatype Resolved = Resolved(operation: string, tenantId: string)
  datatype Action = Action(code: string, bindings: seq<(string, string)>)

  type Params = map<string, string>

  // ------------------------------------------------------------------ matching

  function TrimSlashes(s: string): string
    decreases |s|
  {
    if s != "" && s[0] == '/' then TrimSlashes(s[1..])
    else if s != "" && s[|s| - 1] == '/' then TrimSlashes(s[..|s| - 1])
    else s
  }

  predicate DoubleSlash(s: string) {
    exists i :: 0 <= i < |s| - 1 && s[i] == '/' && s[i + 1] == '/'
  }

  predicate IsParameter(part: string) {
    |part| >= 2 && part[0] == '{' && part[|part| - 1] == '}'
  }

  function ParameterName(part: string): string
    requires IsParameter(part)
  {
    TrimSpace(part[1..|part| - 1])
  }

  predicate PartMatches(expected: string, actual: string) {
    && actual != "" && actual != "." && actual != ".."
    && if IsParameter(expected) then ParameterName(expected) != "" else expected == actual
  }

  function TemplateParts(template: string): seq<string> { Split(TrimSlashes(template), '/') }

  predicate Matches(template: string, path: string) {
    && template != "" && path != "" && !DoubleSlash(path)
    && |TemplateParts(template)| == |TemplateParts(path)|
    && forall i :: 0 <= i < |TemplateParts(path)| ==> PartMatches(TemplateParts(template)[i], TemplateParts(path)[i])
  }

  /** The value a name is left with: that of its last occurrence. */
  function Bindings(parts: seq<string>, actuals: seq<string>): (params: Params)
    requires |parts| == |actuals|
    decreases |parts|
  {
    if parts == [] then map[]
    else
      var n := |parts| - 1;
      var before := Bindings(parts[..n], actuals[..n]);
      if IsParameter(parts[n]) then before[ParameterName(parts[n]) := actuals[n]] else before
  }

  function MatchParams(template: string, path: string): Params
    requires Matches(template, path)
  {
    Bindings(TemplateParts(template), TemplateParts(path))
  }

  /** matchServiceAPIRoute. */
  method MatchRoute(template: string, path: string) returns (params: Params, ok: bool)
    ensures ok == Matches(template, path)
    ensures ok ==> params == MatchParams(template, path)
  {
    if template == "" || path == "" || DoubleSlash(path) || |TemplateParts(template)| != |TemplateParts(path)| {
      return map[], false;
    }
    params, ok := MatchParts(TemplateParts(template), TemplateParts(path));
  }

  /** Its loop over the parts, binding parameters as it goes. */
  method MatchParts(expected: seq<string>, actual: seq<string>) returns (params: Params, ok: bool)
    requires |expected| == |actual|
    ensures ok <==> forall i :: 0 <= i < |actual| ==> PartMatches(expected[i], actual[i])
    ensures ok ==> params == Bindings(expected, actual)
  {
    params := map[];
    var i := 0;
    while i < |expected|
      invariant 0 <= i <= |expected|
      invariant forall j :: 0 <= j < i ==> PartMatches(expected[j], actual[j])
      invariant params == Bindings(expected[..i], actual[..i])
    {
      BindingsStep(expected, actual, i);
      if actual[i] == "" || actual[i] == "." || actual[i] == ".." {
        return map[], false;
      }
      if IsParameter(expected[i]) {
        var name := ParameterName(expected[i]);
        if name == "" {
          return map[], false;
        }
        params := params[name := actual[i]];
      } else if expected[i] != actual[i] {
        return map[], false;
      }
      i := i + 1;
    }
    assert expected[..i] == expected && actual[..i] == actual;
    ok := true;
  }

  lemma BindingsStep(parts: seq<string>, actuals: seq<string>, i: nat)
    requires |parts| == |actuals| && i < |parts|
    ensures var before := Bindings(parts[..i], actuals[..i]);
      Bindings(parts[..i + 1], actuals[..i + 1]) ==
      if IsParameter(parts[i]) then before[ParameterName(parts[i]) := actuals[i]] else before
  {
    assert parts[..i + 1][..i] == parts[..i] && actuals[..i + 1][..i] == actuals[..i];
  }

  // -------------------------------------------------------------- substitution

  function Filled(parts: seq<string>, params: Params): (r: seq<string>)
    ensures |r| == |parts|
  {
    seq(|parts|, i requires 0 <= i < |parts| =>
      if IsParameter(parts[i]) && ParameterName(parts[i]) in params then params[ParameterName(parts[i])] else parts[i])
  }

  /** Putting matched values back into a template. */
  function Substitute(template: string, params: Params): string {
    Join(Filled(TemplateParts(template), params), '/')
  }

  predicate SameName(parts: seq<string>, i: int, j: int) {
    && 0 <= i < |parts| && 0 <= j < |parts| && IsParameter(parts[i]) && IsParameter(parts[j])
    && ParameterName(parts[i]) == ParameterName(parts[j])
  }

  /** Parameters that share a name matched the same text. */
  predicate Coherent(parts: seq<string>, actuals: seq<string>)
    requires |parts| == |actuals|
  {
    forall i, j :: 0 <= i < j < |parts| && SameName(parts, i, j) ==> actuals[i] == actuals[j]
  }

  /** Each bound name holds the text at its last occurrence. */
  lemma {:induction false} BindingsLast(parts: seq<string>, actuals: seq<string>, name: string) returns (last: nat)
    requires |parts| == |actuals|
    requires exists i :: 0 <= i < |parts| && IsParameter(parts[i]) && ParameterName(parts[i]) == name
    ensures last < |parts| && IsParameter(parts[last]) && ParameterName(parts[last]) == name
    ensures name in Bindings(parts, actuals) && Bindings(parts, actuals)[name] == actuals[last]
    ensures forall i :: last < i < |parts| && IsParameter(parts[i]) ==> ParameterName(parts[i]) != name
    decreases |parts|
  {
    var n := |parts| - 1;
    if IsParameter(parts[n]) && ParameterName(parts[n]) == name {
      last := n;
    } else {
      var i :| 0 <= i < |parts| && IsParameter(parts[i]) && ParameterName(parts[i]) == name;
      assert parts[..n][i] == parts[i];
      last := BindingsLast(parts[..n], actuals[..n], name);
    }
  }

  lemma FilledAt(parts: seq<string>, actuals: seq<string>, i: nat) returns (last: nat)
    requires |parts| == |actuals| && i < |parts| && IsParameter(parts[i])
    ensures i <= last < |parts| && SameName(parts, i, last)
    ensures Filled(parts, Bindings(parts, actuals))[i] == actuals[last]
  {
    last := BindingsLast(parts, actuals, ParameterName(parts[i]));
  }

  lemma FilledAlike(parts: seq<string>, params: Params, i: nat, j: nat)
    requires SameName(parts, i, j) && ParameterName(parts[i]) in params
    ensures Filled(parts, params)[i] == Filled(parts, params)[j]
  {
  }

  lemma FilledImpliesCoherent(parts: seq<string>, actuals: seq<string>)
    requires |parts| == |actuals|
    requires Filled(parts, Bindings(parts, actuals)) == actuals
    ensures Coherent(parts, actuals)
  {
    forall i, j | 0 <= i < j < |parts| && SameName(parts, i, j) ensures actuals[i] == actuals[j] {
      var last := BindingsLast(parts, actuals, ParameterName(parts[i]));
      FilledAlike(parts, Bindings(parts, actuals), i, j);
    }
  }

  lemma CoherentImpliesFilled(parts: seq<string>, actuals: seq<string>)
    requires |parts| == |actuals|
    requires forall i :: 0 <= i < |parts| ==> PartMatches(parts[i], actuals[i])
    requires Coherent(parts, actuals)
    ensures Filled(parts, Bindings(parts, actuals)) == actuals
  {
    forall i | 0 <= i < |parts| ensures Filled(parts, Bindings(parts, actuals))[i] == actuals[i] {
      if IsParameter(parts[i]) {
        var last := FilledAt(parts, actuals, i);
        assert i == last || SameName(parts, i, last);
      }
    }
  }

  lemma {:induction false} TrimmedPartsFree(s: string)
    ensures Free(TemplateParts(s), '/') && Join(TemplateParts(s), '/') == TrimSlashes(s)
  {
    JoinOfSplit(TrimSlashes(s), '/');
  }

  /** Substituting the matched parameters gives back the trimmed path exactly
      when equally named parameters matched equal text; in particular whenever
      the template's parameter names are distinct. */
  lemma SubstitutionRestoresPath(template: string, path: string)
    requires Matches(template, path)
    ensures Substitute(template, MatchParams(template, path)) == TrimSlashes(path)
      <==> Coherent(TemplateParts(template), TemplateParts(path))
    ensures (forall i, j :: 0 <= i < j < |TemplateParts(template)| ==> !SameName(TemplateParts(template), i, j))
      ==> Substitute(template, MatchParams(template, path)) == TrimSlashes(path)
  {
    var parts, actuals := TemplateParts(template), TemplateParts(path);
    var filled := Filled(parts, MatchParams(template, path));
    TrimmedPartsFree(path);
    TrimmedPartsFree(template);
    if Coherent(parts, actuals) { CoherentImpliesFilled(parts, actuals); }
    if Join(filled, '/') == TrimSlashes(path) {
      forall i | 0 <= i < |filled| ensures '/' !in filled[i] {
        if IsParameter(parts[i]) {
          var last := FilledAt(parts, actuals, i);
        }
      }
      JoinInjective(filled, actuals, '/');
      FilledImpliesCoherent(parts, actuals);
    }
  }

  lemma NoSlashToTrim(s: string)
    requires s != "" && s[0] != '/' && s[|s| - 1] != '/'
    ensures TrimSlashes(s) == s
  {
  }

  lemma TwoParts(x: string, y: string)
    requires x != "" && y != "" && '/' !in x && '/' !in y
    ensures TemplateParts(x + ['/'] + y) == [x, y] && TrimSlashes(x + ['/'] + y) == x + ['/'] + y
  {
    var s := x + ['/'] + y;
    assert s[0] == x[0] && s[|s| - 1] == y[|y| - 1];
    NoSlashToTrim(s);
    SplitHead(x, y, '/');
    assert IndexOf(y, '/') == |y|;
  }

  lemma NameOfA()
    ensures IsParameter("{a}") && ParameterName("{a}") == "a"
  {
    assert "{a}"[1..2] == "a";
    assert "a"[0] == 'a' && !IsSpace('a');
    assert TrimLeft("a") == "a" && TrimRight("a") == "a";
  }

  /** Where the condition fails: one name twice, matched by different texts. */
  lemma RepeatedNameDiffers(x: string, y: string)
    requires x != y && '/' !in x && '/' !in y && PartMatches("{a}", x) && PartMatches("{a}", y)
    ensures var template, path := "{a}" + ['/'] + "{a}", x + ['/'] + y;
      Matches(template, path) && Substitute(template, MatchParams(template, path)) != TrimSlashes(path)
  {
    var template, path := "{a}" + ['/'] + "{a}", x + ['/'] + y;
    NameOfA();
    TwoParts("{a}", "{a}");
    TwoParts(x, y);
    assert !DoubleSlash(path) by {
      forall i | 0 <= i < |path| - 1 ensures !(path[i] == '/' && path[i + 1] == '/') {
        assert i < |x| ==> path[i] == x[i];
        assert i == |x| ==> path[i + 1] == y[0];
        assert i > |x| ==> path[i] == y[i - |x| - 1];
      }
    }
    SubstitutionRestoresPath(template, path);
    assert SameName(TemplateParts(template), 0, 1) && TemplateParts(path)[0] != TemplateParts(path)[1];
  }

  // ---------------------------------------------------------------- resolution

  /** What one route makes of a request. */
  function Answer(route: Route, httpMethod: string, path: string): Option<Resolved> {
    if route.httpMethod != NormalMethod(httpMethod) || !Matches(route.template, path) then None
    else
      var params := MatchParams(route.template, path);
      Some(Resolved(route.operation, if "tenant_id" in params then params["tenant_id"] else ""))
  }

  function Answers(routes: seq<Route>, httpMethod: string, path: string): (r: seq<Option<Resolved>>)
    ensures |r| == |routes|
  {
    seq(|routes|, i requires 0 <= i < |routes| => Answer(routes[i], httpMethod, path))
  }

  ghost predicate OneOperation(answers: seq<Option<Resolved>>) {
    forall i, j :: 0 <= i < |answers| && 0 <= j < |answers| && answers[i].Some? && answers[j].Some?
      ==> answers[i].value.operation == answers[j].value.operation
  }

  /** Some route answers, and all that answer name one operation. */
  ghost predicate Unambiguous(answers: seq<Option<Resolved>>) {
    (exists i :: 0 <= i < |answers| && answers[i].Some?) && OneOperation(answers)
  }

  ghost predicate LastAnswer(answers: seq<Option<Resolved>>, i: int) {
    0 <= i < |answers| && answers[i].Some? && forall j :: i < j < |answers| ==> answers[j].None?
  }

  method AnswerRoute(route: Route, wanted: string, ghost httpMethod: string, path: string) returns (r: Option<Resolved>)
    requires wanted == NormalMethod(httpMethod)
    ensures r == Answer(route, httpMethod, path)
  {
    if route.httpMethod != wanted {
      return None;
    }
    var params, ok := MatchRoute(route.template, path);
    r := if ok then Some(Resolved(route.operation, if "tenant_id" in params then params["tenant_id"] else "")) else None;
  }

  /** resolveRoute: succeeds exactly when the answer is unambiguous; the tenant
      comes from the last matching route. */
  method ResolveRoute(routes: seq<Route>, httpMethod: string, path: string) returns (r: Option<Resolved>)
    ensures r.Some? <==> Unambiguous(Answers(routes, httpMethod, path))
    ensures r.Some? ==> exists i :: LastAnswer(Answers(routes, httpMethod, path), i) && Answers(routes, httpMethod, path)[i] == r
  {
    var wanted := NormalMethod(httpMethod);
    var found := None;
    ghost var answers := Answers(routes, httpMethod, path);
    ghost var at := -1;
    var i := 0;
    while i < |routes|
      invariant 0 <= i <= |routes|
      invariant FoundSoFar(answers, i, found, at)
    {
      var candidate := AnswerRoute(routes[i], wanted, httpMethod, path);
      FoundStep(answers, i, found, at, candidate);
      if candidate.Some? {
        if found.Some? && found.value.operation != candidate.value.operation {
          return None;
        }
        found := candidate;
        at := i;
      }
      i := i + 1;
    }
    FoundAtEnd(answers, found, at);
    r := found;
  }

  /** The answers before `i` name one operation, and `found` is the last of them. */
  ghost predicate FoundSoFar(answers: seq<Option<Resolved>>, i: nat, found: Option<Resolved>, at: int)
    requires i <= |answers|
  {
    && (found.None? ==> forall j :: 0 <= j < i ==> answers[j].None?)
    && (found.Some? ==> 0 <= at < i && answers[at] == found && forall j :: at < j < i ==> answers[j].None?)
    && (found.Some? ==> forall j :: 0 <= j < i && answers[j].Some? ==> answers[j].value.operation == found.value.operation)
  }

  lemma FoundStep(answers: seq<Option<Resolved>>, i: nat, found: Option<Resolved>, at: int, candidate: Option<Resolved>)
    requires i < |answers| && answers[i] == candidate && FoundSoFar(answers, i, found, at)
    ensures candidate.None? ==> FoundSoFar(answers, i + 1, found, at)
    ensures candidate.Some? ==>
      if found.Some? && found.value.operation != candidate.value.operation then !Unambiguous(answers)
      else FoundSoFar(answers, i + 1, candidate, i)
  {
    if candidate.Some? && found.Some? { assert answers[at].Some? && answers[i].Some?; }
  }

  lemma FoundAtEnd(answers: seq<Option<Resolved>>, found: Option<Resolved>, at: int)
    requires FoundSoFar(answers, |answers|, found, at)
    ensures found.Some? <==> Unambiguous(answers)
    ensures found.Some? ==> LastAnswer(answers, at) && answers[at] == found
  {
  }

  lemma RootUnanswered(route: Route, httpMethod: string, path: string)
    requires path == "" || path == "/"
    ensures Answer(route, httpMethod, path) == None
  {
    if path == "/" {
      assert TrimSlashes("/") == TrimSlashes("") == "" by { assert "/"[1..] == ""; }
      assert Split("", '/') == [""];
      assert TemplateParts(path)[0] == "";
    }
  }

  /** The path that authenticate resolves: the decoding of the one it signs. */
  function RequestPath(r: Request): string
    requires WellFormed(r)
  {
    UrlPathSpelled(r.escapedPath);
    UrlPath(r.escapedPath).value
  }

  /** The signature binds the operation: requests with one signed string get the
      same answer from every route, hence resolve to the same operation and
      tenant or both to none, although the route is found on the decoded path
      and the signature is made over the canonical one. */
  lemma SignatureBindsOperation(routes: seq<Route>, a: Request, b: Request)
    requires WellFormed(a) && WellFormed(b) && SignedString(a) == SignedString(b)
    ensures Answers(routes, a.httpMethod, RequestPath(a)) == Answers(routes, b.httpMethod, RequestPath(b))
  {
    SignedStringDecides(a, b);
    PathsAlike(a.escapedPath, b.escapedPath);
    AnswersAlike(routes, a.httpMethod, RequestPath(a), b.httpMethod, RequestPath(b));
  }

  ghost predicate RootPath(path: string) { path == "" || path == "/" }

  lemma PathsAlike(a: string, b: string)
    requires DecodedSegments(a).Some? && DecodedSegments(a) == DecodedSegments(b)
    ensures UrlPath(a).Some? && UrlPath(b).Some?
    ensures UrlPath(a) == UrlPath(b) || (RootPath(UrlPath(a).value) && RootPath(UrlPath(b).value))
  {
    UrlPathSpelled(a);
    UrlPathSpelled(b);
  }

  lemma AnswersAlike(routes: seq<Route>, m: string, path: string, m': string, path': string)
    requires NormalMethod(m) == NormalMethod(m')
    requires path == path' || (RootPath(path) && RootPath(path'))
    ensures Answers(routes, m, path) == Answers(routes, m', path')
  {
    forall i | 0 <= i < |routes| ensures Answer(routes[i], m, path) == Answer(routes[i], m', path') {
      if path != path' {
        RootUnanswered(routes[i], m, path);
        RootUnanswered(routes[i], m', path');
      }
    }
  }

  // ------------------------------------------------------------- construction

  predicate RouteLe(a: Route, b: Route) {
    if a.httpMethod != b.httpMethod then Le(a.httpMethod, b.httpMethod)
    else Le(a.template, b.template)
  }

  function ActionRoutes(action: Action): (r: seq<Route>)
    ensures |r| == |action.bindings|
  {
    seq(|action.bindings|, i requires 0 <= i < |action.bindings| =>
      Route(action.code, Upper(action.bindings[i].0), action.bindings[i].1))
  }

  /** A route of the table is a binding of a required action. */
  ghost predicate InTable(route: Route, required: set<string>, catalog: seq<Action>) {
    exists action :: action in catalog && action.code in required && route in ActionRoutes(action)
  }

  /** The constructor's collection loop: operations of all credentials, then the
      bindings of every catalogued action among them. */
  method CollectRoutes(credentials: seq<seq<string>>, catalog: seq<Action>) returns (required: set<string>, routes: seq<Route>)
    ensures forall op :: op in required <==> exists c :: 0 <= c < |credentials| && op in credentials[c]
    ensures forall route :: route in routes <==> InTable(route, required, catalog)
  {
    required := {};
    var i := 0;
    while i < |credentials|
      invariant 0 <= i <= |credentials|
      invariant forall op :: op in required <==> exists c :: 0 <= c < i && op in credentials[c]
    {
      required := required + set op | op in credentials[i];
      i := i + 1;
    }
    routes := [];
    i := 0;
    while i < |catalog|
      invariant 0 <= i <= |catalog|
      invariant forall route :: route in routes <==> InTable(route, required, catalog[..i])
    {
      TableStep(required, catalog, i);
      if catalog[i].code in required {
        routes := routes + ActionRoutes(catalog[i]);
      }
      i := i + 1;
    }
    assert catalog[..i] == catalog;
  }

  lemma TableStep(required: set<string>, catalog: seq<Action>, i: nat)
    requires i < |catalog|
    ensures forall route :: InTable(route, required, catalog[..i + 1]) <==>
      InTable(route, required, catalog[..i]) || (catalog[i].code in required && route in ActionRoutes(catalog[i]))
  {
  }

  /** A resolved operation always requires a signature, so the membership test
      that authenticate repeats after resolving never fails. */
  lemma ResolvedIsRequired(routes: seq<Route>, required: set<string>, catalog: seq<Action>, httpMethod: string, path: string, i: nat)
    requires forall route :: route in routes ==> InTable(route, required, catalog)
    requires i < |routes| && Answer(routes[i], httpMethod, path).Some?
    ensures Answer(routes[i], httpMethod, path).value.operation in required
  {
    assert InTable(routes[i], required, catalog);
  }

  lemma TiedRoutesAnswerAlike(a: Route, b: Route, httpMethod: string, path: string)
    requires RouteLe(a, b) && RouteLe(b, a)
    requires Answer(a, httpMethod, path).Some? && Answer(b, httpMethod, path).Some?
    ensures Answer(a, httpMethod, path).value.tenantId == Answer(b, httpMethod, path).value.tenantId
  {
    LeAntisymmetric(a.template, b.template);
  }

  lemma LastAnswersAgree(a: seq<Route>, b: seq<Route>, httpMethod: string, path: string, i: int, j: int)
    requires multiset(a) == multiset(b) && Sorted(RouteLe, a) && Sorted(RouteLe, b)
    requires OneOperation(Answers(a, httpMethod, path))
    requires LastAnswer(Answers(a, httpMethod, path), i) && LastAnswer(Answers(b, httpMethod, path), j)
    ensures Answers(a, httpMethod, path)[i] == Answers(b, httpMethod, path)[j]
  {
    assert b[j] in multiset(a) && a[i] in multiset(b);
    var k :| 0 <= k < |a| && a[k] == b[j];
    var l :| 0 <= l < |b| && b[l] == a[i];
    assert Answers(a, httpMethod, path)[k] == Answers(b, httpMethod, path)[j];
    assert Answers(b, httpMethod, path)[l] == Answers(a, httpMethod, path)[i];
    assert k <= i && l <= j;
    if k != i && l != j {
      assert RouteLe(a[k], a[i]) && RouteLe(b[l], b[j]);
      TiedRoutesAnswerAlike(a[i], b[j], httpMethod, path);
    }
  }

  lemma AmbiguityIgnoresOrder(a: seq<Route>, b: seq<Route>, httpMethod: string, path: string)
    requires multiset(a) == multiset(b) && Unambiguous(Answers(a, httpMethod, path))
    ensures Unambiguous(Answers(b, httpMethod, path))
  {
    AnswersCarryOver(a, b, httpMethod, path);
    AnswersCarryOver(b, a, httpMethod, path);
    UnambiguousAlike(Answers(a, httpMethod, path), Answers(b, httpMethod, path));
  }

  /** Every answer of one arrangement is an answer of the other. */
  ghost predicate Within(x: seq<Option<Resolved>>, y: seq<Option<Resolved>>) {
    forall i :: 0 <= i < |x| ==> x[i] in y
  }

  lemma AnswersCarryOver(a: seq<Route>, b: seq<Route>, httpMethod: string, path: string)
    requires multiset(a) == multiset(b)
    ensures Within(Answers(a, httpMethod, path), Answers(b, httpMethod, path))
  {
    forall i | 0 <= i < |a| ensures Answers(a, httpMethod, path)[i] in Answers(b, httpMethod, path) {
      var j := SameRoute(a, b, i);
      assert Answers(b, httpMethod, path)[j] == Answers(a, httpMethod, path)[i];
    }
  }

  lemma SameRoute(a: seq<Route>, b: seq<Route>, i: nat) returns (j: nat)
    requires multiset(a) == multiset(b) && i < |a|
    ensures j < |b| && b[j] == a[i]
  {
    assert a[i] in multiset(b);
    j :| 0 <= j < |b| && b[j] == a[i];
  }

  lemma UnambiguousAlike(x: seq<Option<Resolved>>, y: seq<Option<Resolved>>)
    requires Within(x, y) && Within(y, x) && Unambiguous(x)
    ensures Unambiguous(y)
  {
    var i :| 0 <= i < |x| && x[i].Some?;
    assert x[i] in y;
    forall k, l | 0 <= k < |y| && 0 <= l < |y| && y[k].Some? && y[l].Some? ensures y[k].value.operation == y[l].value.operation {
      assert y[k] in x && y[l] in x;
    }
  }

  /** Two arrangements of one route table that are both sorted by method and
      template resolve alike: the order an unstable sort leaves between equal
      keys cannot be observed. */
  lemma ResolutionIgnoresTies(a: seq<Route>, b: seq<Route>, httpMethod: string, path: string)
    requires multiset(a) == multiset(b) && Sorted(RouteLe, a) && Sorted(RouteLe, b)
    ensures Unambiguous(Answers(a, httpMethod, path)) <==> Unambiguous(Answers(b, httpMethod, path))
    ensures forall i, j ::
      && Unambiguous(Answers(a, httpMethod, path))
      && LastAnswer(Answers(a, httpMethod, path), i) && LastAnswer(Answers(b, httpMethod, path), j)
      ==> Answers(a, httpMethod, path)[i] == Answers(b, httpMethod, path)[j]
  {
    if Unambiguous(Answers(a, httpMethod, path)) {
      AmbiguityIgnoresOrder(a, b, httpMethod, path);
      forall i, j | LastAnswer(Answers(a, httpMethod, path), i) && LastAnswer(Answers(b, httpMethod, path), j)
        ensures Answers(a, httpMethod, path)[i] == Answers(b, httpMethod, path)[j]
      {
        LastAnswersAgree(a, b, httpMethod, path, i, j);
      }
    }
    if Unambiguous(Answers(b, httpMethod, path)) { AmbiguityIgnoresOrder(b, a, httpMethod, path); }
  }
}
