/** The fail-closed routing of changed files to qualification domains
    (classify_path and route). Paths are the cleaned ones. */
module ChangeRouter {
  import opened Sequences
  import opened RouterTables

  datatype Domain = Access | Commercial | DeviceOps | Web | Core

  datatype Flag =
    | NativeLogin | DeliveryIsolation | CeReceipts | WebE2eHarness | CoffeelinkGovernance | Ce13Governance
    | WebProduct | Enterprise180 | RoleGrants | DesignWeb

  datatype ChangeClass = SkillOnly | DesignGovernance | DocsOnly | ProductChange

  datatype Routing = Routing(changeClass: ChangeClass, domains: set<Domain>, flags: set<Flag>) {
    predicate GateRequired() { changeClass.ProductChange? }
  }

  const ALL_DOMAINS := {Access, Commercial, DeviceOps, Web, Core}
  const ALL_FLAGS := {
    NativeLogin, DeliveryIsolation, CeReceipts, WebE2eHarness, CoffeelinkGovernance, Ce13Governance,
    WebProduct, Enterprise180, RoleGrants, DesignWeb
  }

  // ------------------------------------------------------------ path predicates

  predicate HasPrefix(path: string, prefixes: seq<string>) {
    exists i :: 0 <= i < |prefixes| && StartsWith(path, prefixes[i])
  }

  predicate IsSkillPath(path: string) { HasPrefix(path, SKILL_PREFIXES) }

  predicate IsSkillCompanion(path: string) { path in SKILL_COMPANION_FILES }

  predicate IsDesignPath(path: string) {
    path in DESIGN_GOVERNANCE_FILES || HasPrefix(path, DESIGN_GOVERNANCE_PREFIXES)
  }

  predicate IsDocument(path: string) {
    StartsWith(path, "docs/") || path in DOC_NAMES || (EndsWith(path, ".md") && '/' !in path)
  }

  predicate IsDocsPath(t: FlagTables, path: string) { !Lists(t.enterprise180Files, path) && IsDocument(path) }

  predicate IsDerivedPath(path: string) { HasPrefix(path, DERIVED_PREFIXES) }

  function When<T>(condition: bool, value: T): set<T> { if condition then {value} else {} }

  function IntegrationDomains(path: string): set<Domain> {
    if !StartsWith(path, "integration/") then {}
    else
      var name := path[|"integration/"|..];
      When(HasPrefix(name, ACCESS_INTEGRATION_PREFIXES), Access) +
      When(HasPrefix(name, COMMERCIAL_INTEGRATION_PREFIXES), Commercial) +
      When(HasPrefix(name, DEVICEOPS_INTEGRATION_PREFIXES), DeviceOps) +
      When(HasPrefix(name, CORE_INTEGRATION_PREFIXES), Core)
  }

  /** classify_path. */
  function ClassifyPath(path: string): set<Domain> {
    When(path == "scripts/ci_access_tests.json" || path == "scripts/ci_access_qualification.py", Access) +
    When(HasPrefix(path, WEB_PREFIXES), Web) +
    When(HasPrefix(path, ACCESS_PREFIXES), Access) +
    When(HasPrefix(path, COMMERCIAL_PREFIXES), Commercial) +
    When(HasPrefix(path, DEVICEOPS_PREFIXES), DeviceOps) +
    IntegrationDomains(path) +
    When(path in CORE_FILES || HasPrefix(path, CORE_PREFIXES), Core)
  }

  predicate IsHarnessPath(t: FlagTables, path: string) {
    Lists(t.harnessFiles, path) || HasPrefix(path, Files(t.harnessPrefixes))
  }

  predicate IsEnterprise180(t: FlagTables, path: string) {
    Lists(t.enterprise180Files, path) || HasPrefix(path, Files(t.enterprise180Prefixes))
  }

  predicate Raises(t: FlagTables, path: string, f: Flag) {
    match f
    case NativeLogin => Lists(t.nativeLoginFiles, path) || HasPrefix(path, Files(t.nativeLoginPrefixes))
    case DeliveryIsolation => Lists(t.deliveryIsolationFiles, path)
    case CeReceipts => path == RECEIPTS_WORKFLOW || StartsWith(path, RECEIPTS_DIR)
    case WebE2eHarness => IsHarnessPath(t, path)
    case CoffeelinkGovernance => Lists(t.coffeelinkFiles, path)
    case Ce13Governance => Lists(t.ce13Files, path) || HasPrefix(path, Files(t.ce13Prefixes))
    case WebProduct =>
      Lists(t.coffeelinkFiles, path) || (StartsWith(path, "web/") && !IsDesignPath(path) && !IsHarnessPath(t, path))
    case Enterprise180 => IsEnterprise180(t, path)
    case RoleGrants =>
      IsEnterprise180(t, path) || Lists(t.roleGrantFiles, path) || HasPrefix(path, Files(t.roleGrantPrefixes))
    case DesignWeb => path in DESIGN_WEB_FILES
  }

  /** The routing flags that one path raises. */
  function PathFlags(t: FlagTables, path: string): set<Flag> {
    set f | f in ALL_FLAGS && Raises(t, path, f)
  }

  // --------------------------------------------------------------------- routing

  /** What the router asks of a single path. */
  datatype Kinds = Kinds(
    skill: string -> bool, companion: string -> bool, design: string -> bool, docs: string -> bool,
    derived: string -> bool, classify: string -> set<Domain>, flags: string -> set<Flag>)

  /** The router, with its tables. */
  function RouterKinds(t: FlagTables): Kinds {
    Kinds(IsSkillPath, IsSkillCompanion, IsDesignPath, (path: string) => IsDocsPath(t, path), IsDerivedPath, ClassifyPath,
          (path: string) => PathFlags(t, path))
  }

  predicate AllSkill(k: Kinds, files: seq<string>) {
    && (exists p :: p in files && k.skill(p))
    && forall p :: p in files ==> k.skill(p) || k.companion(p)
  }

  predicate AllDesign(k: Kinds, files: seq<string>) {
    && (exists p :: p in files && k.design(p))
    && forall p :: p in files ==> k.design(p) || k.docs(p)
  }

  predicate AllDocs(k: Kinds, files: seq<string>) {
    files != [] && forall p :: p in files ==> k.docs(p)
  }

  function ClassOf(k: Kinds, files: seq<string>): ChangeClass {
    if AllSkill(k, files) then SkillOnly
    else if AllDesign(k, files) then DesignGovernance
    else if AllDocs(k, files) then DocsOnly
    else ProductChange
  }

  predicate Exempt(k: Kinds, path: string) {
    k.docs(path) || k.skill(path) || k.companion(path) || k.design(path)
  }

  /** A file that is not exempt selects its domains, or core when it is source
      that no domain claims. */
  predicate Selects(k: Kinds, path: string, d: Domain) {
    !Exempt(k, path) && (d in k.classify(path) || (d == Core && !k.derived(path) && k.classify(path) == {}))
  }

  function SelectedDomains(k: Kinds, files: seq<string>): set<Domain> {
    set d | d in ALL_DOMAINS && exists p :: p in files && Selects(k, p, d)
  }

  function Routed(k: Kinds, files: seq<string>): Routing {
    var change := ClassOf(k, files);
    var selected := SelectedDomains(k, files);
    var raised := set f | f in ALL_FLAGS && exists p :: p in files && f in k.flags(p);
    Routing(change,
            if change.ProductChange? && files != [] && selected == {} then {Core} else selected,
            if change.DesignGovernance? then raised else raised - {DesignWeb})
  }

  /** route: the loop over files collects domains, then falls back to core. */
  method Route(k: Kinds, files: seq<string>) returns (r: Routing)
    ensures r == Routed(k, files)
  {
    var domains: set<Domain> := {};
    var i := 0;
    while i < |files|
      invariant 0 <= i <= |files|
      invariant domains == SelectedDomains(k, files[..i])
    {
      var path := files[i];
      assert files[..i + 1] == files[..i] + [path];
      SelectedStep(k, files[..i], path);
      if !Exempt(k, path) {
        var classified := k.classify(path);
        AllDomainsListed(classified);
        domains := domains + classified;
        if !k.derived(path) && classified == {} {
          domains := domains + {Core};
        }
      }
      i := i + 1;
    }
    assert files[..i] == files;
    var change := ClassOf(k, files);
    if change.ProductChange? && files != [] && domains == {} {
      domains := {Core};
    }
    var raised := set f | f in ALL_FLAGS && exists p :: p in files && f in k.flags(p);
    r := Routing(change, domains, if change.DesignGovernance? then raised else raised - {DesignWeb});
  }

  lemma SelectedStep(k: Kinds, files: seq<string>, path: string)
    ensures SelectedDomains(k, files + [path]) ==
      SelectedDomains(k, files) + (set d | d in ALL_DOMAINS && Selects(k, path, d))
  {
  }

  lemma AllDomainsListed(s: set<Domain>)
    ensures s <= ALL_DOMAINS
  {
    forall d | d in s ensures d in ALL_DOMAINS {
      match d { case Access => case Commercial => case DeviceOps => case Web => case Core => }
    }
  }

  // ------------------------------------------------------------------ properties

  /** The full merge gate is required exactly when a domain is selected, for
      every non-empty change. */
  lemma GateIffDomain(k: Kinds, files: seq<string>)
    requires files != []
    ensures Routed(k, files).GateRequired() <==> Routed(k, files).domains != {}
  {
    if !Routed(k, files).GateRequired() {
      forall p | p in files ensures Exempt(k, p) {}
      assert SelectedDomains(k, files) == {};
    }
  }

  /** Without any file the gate is required although no domain is selected. */
  lemma EmptyChange(k: Kinds)
    ensures Routed(k, []).GateRequired() && Routed(k, []).domains == {}
  {
  }

  ghost predicate CompanionsAreDesign(k: Kinds) { forall p :: k.companion(p) ==> k.design(p) }

  /** Adding files never removes the gate from a change that requires it. */
  lemma GateMonotone(k: Kinds, files: seq<string>, more: seq<string>)
    requires files != [] && CompanionsAreDesign(k)
    requires forall p :: p in files ==> p in more
    ensures Routed(k, files).GateRequired() ==> Routed(k, more).GateRequired()
  {
    assert files[0] in files && files[0] in more;
    if AllSkill(k, more) {
      if !exists p :: p in files && k.skill(p) { assert k.design(files[0]); }
    } else if AllDesign(k, more) {
      assert AllDesign(k, files) || AllDocs(k, files);
    }
  }

  /** Routing depends on the set of files only. */
  lemma RoutingIgnoresOrder(k: Kinds, a: seq<string>, b: seq<string>)
    requires forall p :: p in a <==> p in b
    ensures Routed(k, a) == Routed(k, b)
  {
    assert a != [] ==> a[0] in b;
    assert b != [] ==> b[0] in a;
    assert AllSkill(k, a) == AllSkill(k, b) && AllDesign(k, a) == AllDesign(k, b) && AllDocs(k, a) == AllDocs(k, b);
    assert SelectedDomains(k, a) == SelectedDomains(k, b);
    assert (set f | f in ALL_FLAGS && exists p :: p in a && f in k.flags(p)) ==
           (set f | f in ALL_FLAGS && exists p :: p in b && f in k.flags(p));
  }

  /** Fail closed: source that nothing exempts and no domain claims selects core
      in every change that contains it. */
  lemma UnknownSourceSelectsCore(k: Kinds, files: seq<string>, path: string)
    requires path in files && !Exempt(k, path) && !k.derived(path) && k.classify(path) == {}
    ensures Core in Routed(k, files).domains && Routed(k, files).GateRequired()
  {
  }

  /** The router's own tables satisfy what monotonicity needs. */
  lemma RouterCompanions(t: FlagTables)
    ensures CompanionsAreDesign(RouterKinds(t))
  {
    forall p | IsSkillCompanion(p) ensures IsDesignPath(p) {
      assert p == "docs/design/B2B-PRODUCT-UX.md";
      assert p[..|"docs/design/"|] == "docs/design/";
      assert StartsWith(p, DESIGN_GOVERNANCE_PREFIXES[0]);
    }
  }

  /** Both laws for the router with its own tables. */
  lemma RouterLaws(files: seq<string>, more: seq<string>)
    requires files != [] && forall p :: p in files ==> p in more
    ensures Routed(RouterKinds(FLAG_TABLES), files).GateRequired() <==> Routed(RouterKinds(FLAG_TABLES), files).domains != {}
    ensures Routed(RouterKinds(FLAG_TABLES), files).GateRequired() ==> Routed(RouterKinds(FLAG_TABLES), more).GateRequired()
  {
    RouterCompanions(FLAG_TABLES);
    GateIffDomain(RouterKinds(FLAG_TABLES), files);
    GateMonotone(RouterKinds(FLAG_TABLES), files, more);
  }

  // ------------------------------------------------------- flags and the gate

  /** Neither a document, nor a skill, nor a design file. */
  predicate Ordinary(path: string) {
    !IsDocument(path) && !IsSkillPath(path) && !IsSkillCompanion(path) && !IsDesignPath(path)
  }

  /** A slash right after a top-level directory of the tables: web and cmd (3),
      .yunka (6), .github, scripts and modules (7), internal (8), contracts (9),
      integration (11). It rules out the documents of the repository root, which
      have no slash at all. */
  predicate SlashEarly(s: string) {
    || (|s| > 3 && s[3] == '/') || (|s| > 6 && s[6] == '/') || (|s| > 7 && s[7] == '/')
    || (|s| > 8 && s[8] == '/') || (|s| > 9 && s[9] == '/') || (|s| > 11 && s[11] == '/')
  }

  /** Below scripts/, the text that sets a path apart from the four design checks
      check_ui_..., check_b2b_..., test_ui_... and test_b2b_...: another first
      letter (8), a c without h (8, 9), or the c of ci_ or coffeelink_ where the
      design checks have u or b, after check_ (14) or test_ (13). */
  predicate OwnScript(s: string) {
    |s| > 9 && (
    || (s[8] != 'c' && s[8] != 't') || (s[8] == 'c' && s[9] != 'h')
    || (|s| > 14 && ((s[8] == 'c' && s[14] == 'c') || (s[8] == 't' && s[13] == 'c'))))
  }

  /** A path, or the beginning of one, that no exemption can match: its first
      character is not that of docs/, its first two are not those of .agents/,
      below web/ it is neither ui-contracts.json nor AGENTS.md (4), and below
      scripts/ it is no design check. */
  predicate Telling(s: string) {
    && |s| > 5 && SlashEarly(s) && s[0] != 'd' && !(s[0] == '.' && s[1] == 'a')
    && (s[0] == 'w' ==> s[4] != 'u' && s[4] != 'A')
    && (s[0] == 's' ==> OwnScript(s))
  }

  lemma DesignFilesUntelling(path: string)
    requires path in DESIGN_GOVERNANCE_FILES
    ensures !Telling(path)
  {
  }

  lemma TellingStays(path: string, start: string)
    requires StartsWith(path, start) && Telling(start)
    ensures Telling(path)
  {
    assert forall i :: 0 <= i < |start| ==> path[..|start|][i] == path[i];
  }

  lemma TellingOrdinary(path: string)
    requires Telling(path)
    ensures Ordinary(path)
  {
    if path in DESIGN_GOVERNANCE_FILES { DesignFilesUntelling(path); }
    assert '/' in path;
    assert path !in DOC_NAMES;
  }

  const ROOT_FILES: seq<string> := ["go.mod", "go.sum", "go.work", "go.work.sum", "Makefile"]

  lemma RootFilesOrdinary(path: string)
    requires path in ROOT_FILES
    ensures Ordinary(path)
  {
    assert path[0] == 'g' || path[0] == 'M';
    assert path !in DOC_NAMES && path !in DESIGN_GOVERNANCE_FILES;
    assert path[|path| - 1] != 'd' || path[|path| - 2] != 'm';
  }

  lemma SourceHeadsTelling(h: Head)
    requires !h.AcceptScript? && !h.ConsumerScript? && !h.VerifyScript? && !h.CoffeelinkScript?
    requires !h.CoffeelinkTest? && !h.Ce13Script? && !h.CheckScript? && !h.CiTest?
    ensures Telling(HeadText(h))
  {
  }

  lemma ScriptHeadsTelling(h: Head)
    requires h.AcceptScript? || h.ConsumerScript? || h.VerifyScript? || h.CoffeelinkScript?
      || h.CoffeelinkTest? || h.Ce13Script? || h.CheckScript? || h.CiTest?
    ensures Telling(HeadText(h))
  {
  }

  lemma {:induction false} FileBelow(dirs: seq<Dir>, path: string) returns (h: Head)
    requires path in Files(dirs)
    ensures StartsWith(path, HeadText(h))
  {
    if path in Below(dirs[0]) {
      var d := dirs[0];
      h := d.head;
      var i :| 0 <= i < |d.names| && path == HeadText(d.head) + d.names[i];
    } else {
      h := FileBelow(dirs[1..], path);
    }
  }

  lemma HeadOrdinary(h: Head, path: string)
    requires StartsWith(path, HeadText(h))
    ensures Ordinary(path)
  {
    if h.AcceptScript? || h.ConsumerScript? || h.VerifyScript? || h.CoffeelinkScript?
       || h.CoffeelinkTest? || h.Ce13Script? || h.CheckScript? || h.CiTest? {
      ScriptHeadsTelling(h);
    } else {
      SourceHeadsTelling(h);
    }
    TellingStays(path, HeadText(h));
    TellingOrdinary(path);
  }

  /** No file of a flag table is exempt, and no file below one of its prefixes. */
  lemma FilesOrdinary(dirs: seq<Dir>, path: string)
    requires path in Files(dirs) || HasPrefix(path, Files(dirs))
    ensures Ordinary(path)
  {
    if path in Files(dirs) {
      var h := FileBelow(dirs, path);
      HeadOrdinary(h, path);
    } else {
      var i :| 0 <= i < |Files(dirs)| && StartsWith(path, Files(dirs)[i]);
      var h := FileBelow(dirs, Files(dirs)[i]);
      StartsLonger(path, Files(dirs)[i], HeadText(h));
      HeadOrdinary(h, path);
    }
  }

  lemma StartsLonger(path: string, prefix: string, head: string)
    requires StartsWith(path, prefix) && StartsWith(prefix, head)
    ensures StartsWith(path, head)
  {
    assert path[..|head|] == path[..|prefix|][..|head|];
  }

  /** A document of the enterprise centre is no skill and no design file. */
  lemma CentreDocument(name: string)
    ensures !IsSkillPath(CENTRE + name) && !IsSkillCompanion(CENTRE + name) && !IsDesignPath(CENTRE + name)
  {
    var path := CENTRE + name;
    assert path[0] == 'd' && path[5] == 'e';
    assert path !in DESIGN_GOVERNANCE_FILES && path !in SKILL_COMPANION_FILES;
  }

  lemma WebOrdinary(path: string)
    requires StartsWith(path, "web/") && !IsDesignPath(path)
    ensures Ordinary(path)
  {
    assert path[0] == 'w' && path[3] == '/' && path !in DOC_NAMES by { assert path[..4][0] == 'w' && path[..4][3] == '/'; }
    assert path !in SKILL_COMPANION_FILES;
  }

  /** Files that a table lists one by one are root files, or the two policy
      documents that the router counts as part of the product. */
  ghost predicate Tame(t: FlagTables) {
    && (forall path :: path in t.nativeLoginFiles.others + t.deliveryIsolationFiles.others ==> path in ROOT_FILES)
    && (forall path :: path in t.enterprise180Files.others ==> path in POLICY_DOCUMENTS)
    && t.harnessFiles.others + t.coffeelinkFiles.others + t.ce13Files.others + t.roleGrantFiles.others == []
  }

  lemma TablesTame()
    ensures Tame(FLAG_TABLES)
  {
  }

  lemma ListedOrdinary(t: FileTable, path: string)
    requires Lists(t, path)
    ensures Ordinary(path) || path in t.others
  {
    if path in Files(t.dirs) { FilesOrdinary(t.dirs, path); }
  }

  lemma BuildFlagsOrdinary(t: FlagTables, path: string)
    requires Tame(t)
    requires Lists(t.nativeLoginFiles, path) || HasPrefix(path, Files(t.nativeLoginPrefixes)) || Lists(t.deliveryIsolationFiles, path)
    ensures Ordinary(path)
  {
    if HasPrefix(path, Files(t.nativeLoginPrefixes)) {
      FilesOrdinary(t.nativeLoginPrefixes, path);
    } else if path in t.nativeLoginFiles.others + t.deliveryIsolationFiles.others {
      RootFilesOrdinary(path);
    } else if Lists(t.nativeLoginFiles, path) {
      ListedOrdinary(t.nativeLoginFiles, path);
    } else {
      ListedOrdinary(t.deliveryIsolationFiles, path);
    }
  }

  lemma WebFlagsOrdinary(t: FlagTables, path: string)
    requires Tame(t)
    requires IsHarnessPath(t, path) || Lists(t.coffeelinkFiles, path) || Lists(t.ce13Files, path) || HasPrefix(path, Files(t.ce13Prefixes))
    ensures Ordinary(path)
  {
    assert t.harnessFiles.others == [] && t.coffeelinkFiles.others == [] && t.ce13Files.others == [];
    if HasPrefix(path, Files(t.harnessPrefixes)) {
      FilesOrdinary(t.harnessPrefixes, path);
    } else if HasPrefix(path, Files(t.ce13Prefixes)) {
      FilesOrdinary(t.ce13Prefixes, path);
    } else if Lists(t.harnessFiles, path) {
      ListedOrdinary(t.harnessFiles, path);
    } else if Lists(t.coffeelinkFiles, path) {
      ListedOrdinary(t.coffeelinkFiles, path);
    } else {
      ListedOrdinary(t.ce13Files, path);
    }
  }

  lemma EnterpriseFlagsOrdinary(t: FlagTables, path: string)
    requires Tame(t)
    requires IsEnterprise180(t, path) || Lists(t.roleGrantFiles, path) || HasPrefix(path, Files(t.roleGrantPrefixes))
    ensures Ordinary(path) || path in t.enterprise180Files.others
  {
    assert t.roleGrantFiles.others == [];
    if HasPrefix(path, Files(t.enterprise180Prefixes)) {
      FilesOrdinary(t.enterprise180Prefixes, path);
    } else if HasPrefix(path, Files(t.roleGrantPrefixes)) {
      FilesOrdinary(t.roleGrantPrefixes, path);
    } else if Lists(t.enterprise180Files, path) {
      ListedOrdinary(t.enterprise180Files, path);
    } else {
      ListedOrdinary(t.roleGrantFiles, path);
    }
  }

  lemma FlaggedOrdinary(t: FlagTables, path: string, f: Flag)
    requires Tame(t) && f in PathFlags(t, path) && !f.CeReceipts? && !f.DesignWeb?
    ensures Ordinary(path) || path in t.enterprise180Files.others
  {
    if f.NativeLogin? || f.DeliveryIsolation? {
      BuildFlagsOrdinary(t, path);
    } else if f.Enterprise180? || f.RoleGrants? {
      EnterpriseFlagsOrdinary(t, path);
    } else if f.WebProduct? && !Lists(t.coffeelinkFiles, path) {
      WebOrdinary(path);
    } else {
      WebFlagsOrdinary(t, path);
    }
  }

  lemma OrdinaryNotExempt(t: FlagTables, path: string)
    requires Tame(t) && (Ordinary(path) || path in t.enterprise180Files.others)
    ensures !Exempt(RouterKinds(t), path)
  {
    if path in t.enterprise180Files.others {
      CentreDocument("enterprise180-policy-contract.v1.json");
      CentreDocument("enterprise180-policy-negative-examples.md");
    }
  }

  /** One file that nothing exempts makes a product change of every change. */
  lemma NotExemptForcesGate(k: Kinds, files: seq<string>, path: string)
    requires path in files && !Exempt(k, path)
    ensures Routed(k, files).GateRequired()
  {
  }

  lemma RaisedBy(t: FlagTables, files: seq<string>, f: Flag) returns (path: string)
    requires f in Routed(RouterKinds(t), files).flags
    ensures path in files && f in PathFlags(t, path)
  {
    path :| path in files && f in RouterKinds(t).flags(path);
  }

  lemma TameFlagsForceGate(t: FlagTables, files: seq<string>, f: Flag)
    requires Tame(t) && f in Routed(RouterKinds(t), files).flags
    ensures !f.CeReceipts? && !f.DesignWeb? ==> Routed(RouterKinds(t), files).GateRequired()
    ensures f.DesignWeb? ==> !Routed(RouterKinds(t), files).GateRequired()
  {
    if !f.CeReceipts? && !f.DesignWeb? {
      var path := RaisedBy(t, files, f);
      FlaggedOrdinary(t, path, f);
      OrdinaryNotExempt(t, path);
      NotExemptForcesGate(RouterKinds(t), files, path);
    }
  }

  /** What the router's own tables promise: whatever else changes, a raised flag
      forces the merge gate, unless it is the receipts flag or the design flag;
      and the design flag is raised only where the gate is not required. */
  lemma FlagsForceGate(files: seq<string>, f: Flag)
    requires f in Routed(RouterKinds(FLAG_TABLES), files).flags
    ensures !f.CeReceipts? && !f.DesignWeb? ==> Routed(RouterKinds(FLAG_TABLES), files).GateRequired()
    ensures f.DesignWeb? ==> !Routed(RouterKinds(FLAG_TABLES), files).GateRequired()
  {
    TablesTame();
    TameFlagsForceGate(FLAG_TABLES, files, f);
  }

  // ------------------------------------------------------- the two exceptions

  /** What lies below the receipts directory is a document and nothing else. */
  lemma ReceiptDocument(t: FlagTables, name: string)
    requires Tame(t)
    ensures var path := RECEIPTS_DIR + name;
      IsDocsPath(t, path) && !IsSkillPath(path) && !IsSkillCompanion(path) && !IsDesignPath(path)
  {
    var path := RECEIPTS_DIR + name;
    assert path[..5] == "docs/" && path[0] == 'd' && path[5] == 'c';
    assert path !in DESIGN_GOVERNANCE_FILES && path !in SKILL_COMPANION_FILES;
    assert path !in POLICY_DOCUMENTS;
    if Lists(t.enterprise180Files, path) { ListedOrdinary(t.enterprise180Files, path); }
  }

  lemma ReceiptRaiser(path: string)
    requires path == RECEIPTS_WORKFLOW || StartsWith(path, RECEIPTS_DIR)
    ensures !IsSkillPath(path) && !IsSkillCompanion(path)
  {
    if StartsWith(path, RECEIPTS_DIR) {
      assert path[0] == path[..|RECEIPTS_DIR|][0] == 'd' && path[5] == path[..|RECEIPTS_DIR|][5] == 'c';
    } else {
      assert path[1] == 'g';
    }
  }

  /** Documents raise the receipts flag, so it does not force the gate: no
      document below its directory needs it. */
  lemma ReceiptsFlagWithoutGate(name: string)
    requires name != ""
    ensures var r := Routed(RouterKinds(FLAG_TABLES), [RECEIPTS_DIR + name]);
      CeReceipts in r.flags && !r.GateRequired()
  {
    TablesTame();
    DocumentChange(FLAG_TABLES, RECEIPTS_DIR + name, name);
  }

  lemma DocumentChange(t: FlagTables, path: string, name: string)
    requires Tame(t) && path == RECEIPTS_DIR + name
    ensures CeReceipts in Routed(RouterKinds(t), [path]).flags && !Routed(RouterKinds(t), [path]).GateRequired()
  {
    ReceiptDocument(t, name);
    assert path in [path];
    assert CeReceipts in RouterKinds(t).flags(path);
  }

  /** When a change with the receipts flag does need the gate: exactly if it has
      a file that is neither a document nor a design file. */
  lemma ReceiptsGate(files: seq<string>)
    requires CeReceipts in Routed(RouterKinds(FLAG_TABLES), files).flags
    ensures Routed(RouterKinds(FLAG_TABLES), files).GateRequired() <==>
      exists path :: path in files && !IsDocsPath(FLAG_TABLES, path) && !IsDesignPath(path)
  {
    var raiser := RaisedBy(FLAG_TABLES, files, CeReceipts);
    ReceiptRaiser(raiser);
    GateWithout(RouterKinds(FLAG_TABLES), files, raiser);
  }

  /** Without skills, only documents and design files go without the gate. */
  lemma GateWithout(k: Kinds, files: seq<string>, path: string)
    requires path in files && !k.skill(path) && !k.companion(path)
    ensures Routed(k, files).GateRequired() <==> exists p :: p in files && !k.docs(p) && !k.design(p)
  {
  }

  /** The design flag is raised exactly by the two design files of the web, and
      only in changes without the gate. */
  lemma DesignFlagRaised(files: seq<string>)
    ensures DesignWeb in Routed(RouterKinds(FLAG_TABLES), files).flags <==>
      && Routed(RouterKinds(FLAG_TABLES), files).changeClass.DesignGovernance?
      && exists path :: path in files && path in DESIGN_WEB_FILES
  {
    DesignFlagOf(FLAG_TABLES, files);
  }

  lemma DesignFlagOf(t: FlagTables, files: seq<string>)
    ensures DesignWeb in Routed(RouterKinds(t), files).flags <==>
      && Routed(RouterKinds(t), files).changeClass.DesignGovernance?
      && exists path :: path in files && path in DESIGN_WEB_FILES
  {
    assert forall path :: DesignWeb in RouterKinds(t).flags(path) <==> path in DESIGN_WEB_FILES;
  }

  lemma DesignFlagWithoutGate()
    ensures var r := Routed(RouterKinds(FLAG_TABLES), ["web/AGENTS.md"]); DesignWeb in r.flags && !r.GateRequired()
  {
    DesignChange(FLAG_TABLES, "web/AGENTS.md");
  }

  lemma DesignChange(t: FlagTables, path: string)
    requires path in DESIGN_WEB_FILES
    ensures DesignWeb in Routed(RouterKinds(t), [path]).flags && !Routed(RouterKinds(t), [path]).GateRequired()
  {
    assert path[0] == 'w' && path in DESIGN_GOVERNANCE_FILES;
    assert !IsSkillPath(path);
    assert path in [path];
    assert DesignWeb in RouterKinds(t).flags(path);
  }

  // ----------------------------------------------------- domains and the gate

  lemma PrefixOrdinary(path: string, prefixes: seq<string>)
    requires HasPrefix(path, prefixes) && forall p :: p in prefixes ==> Telling(p)
    ensures Ordinary(path)
  {
    var i :| 0 <= i < |prefixes| && StartsWith(path, prefixes[i]);
    TellingStays(path, prefixes[i]);
    TellingOrdinary(path);
  }

  lemma ServicePrefixesTelling()
    ensures forall p :: p in ACCESS_PREFIXES ==> Telling(p)
    ensures forall p :: p in COMMERCIAL_PREFIXES ==> Telling(p)
    ensures forall p :: p in DEVICEOPS_PREFIXES ==> Telling(p)
  {
  }

  lemma CorePrefixesTelling()
    ensures forall p :: p in CORE_PREFIXES ==> Telling(p)
  {
  }

  lemma CoreFilesOrdinary(path: string)
    requires path in CORE_FILES
    ensures Ordinary(path)
  {
    if path == "docker-compose.yml" {
      assert path[3] == 'k' && path[|path| - 1] == 'l';
      assert path !in DOC_NAMES && path !in DESIGN_GOVERNANCE_FILES && path !in SKILL_COMPANION_FILES;
    } else {
      RootFilesOrdinary(path);
    }
  }

  lemma AccessScriptsOrdinary(path: string)
    requires path == "scripts/ci_access_tests.json" || path == "scripts/ci_access_qualification.py" || StartsWith(path, "integration/")
    ensures Ordinary(path)
  {
    if StartsWith(path, "integration/") {
      HeadOrdinary(IntegrationHead, path);
    } else {
      TellingOrdinary(path);
    }
  }

  /** A file that a domain claims is exempt only as a design file. */
  lemma ClaimedOrdinary(path: string, d: Domain)
    requires d in ClassifyPath(path) && !IsDesignPath(path)
    ensures Ordinary(path)
  {
    if HasPrefix(path, WEB_PREFIXES) {
      WebOrdinary(path);
    } else if HasPrefix(path, ACCESS_PREFIXES) || HasPrefix(path, COMMERCIAL_PREFIXES) || HasPrefix(path, DEVICEOPS_PREFIXES) {
      ServicePrefixOrdinary(path);
    } else if HasPrefix(path, CORE_PREFIXES) {
      CorePrefixesTelling();
      PrefixOrdinary(path, CORE_PREFIXES);
    } else if path in CORE_FILES {
      CoreFilesOrdinary(path);
    } else {
      AccessScriptsOrdinary(path);
    }
  }

  lemma ServicePrefixOrdinary(path: string)
    requires HasPrefix(path, ACCESS_PREFIXES) || HasPrefix(path, COMMERCIAL_PREFIXES) || HasPrefix(path, DEVICEOPS_PREFIXES)
    ensures Ordinary(path)
  {
    ServicePrefixesTelling();
    if HasPrefix(path, ACCESS_PREFIXES) {
      PrefixOrdinary(path, ACCESS_PREFIXES);
    } else if HasPrefix(path, COMMERCIAL_PREFIXES) {
      PrefixOrdinary(path, COMMERCIAL_PREFIXES);
    } else {
      PrefixOrdinary(path, DEVICEOPS_PREFIXES);
    }
  }

  /** What the domain tables promise: a file that a domain claims, unless it is a
      design file, selects that domain and the gate in every change. */
  lemma ClaimedFilesSelect(files: seq<string>, path: string, d: Domain)
    requires path in files && d in ClassifyPath(path) && !IsDesignPath(path)
    ensures d in Routed(RouterKinds(FLAG_TABLES), files).domains && Routed(RouterKinds(FLAG_TABLES), files).GateRequired()
  {
    TablesTame();
    ClaimedOrdinary(path, d);
    OrdinaryNotExempt(FLAG_TABLES, path);
    ClaimSelects(RouterKinds(FLAG_TABLES), files, path, d);
  }

  lemma ClaimSelects(k: Kinds, files: seq<string>, path: string, d: Domain)
    requires path in files && d in k.classify(path) && !Exempt(k, path)
    ensures d in Routed(k, files).domains && Routed(k, files).GateRequired()
  {
    assert Selects(k, path, d);
  }
}
