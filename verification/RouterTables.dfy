/** Path tables of the changed-files router. */
module RouterTables {

  /** Where the files that raise flags live. */
  datatype Head =
    | AccessHead
    | RuntimeHead
    | DeviceOpsHead
    | IntegrationHead
    | WorkflowHead
    | IdpHead
    | WebSourceHead
    | WebE2eHead
    | WebTestsHead
    | PlaywrightHead
    | ProtoHead
    | YunkaHead
    | AcceptScript
    | ConsumerScript
    | VerifyScript
    | CoffeelinkScript
    | CoffeelinkTest
    | Ce13Script
    | CheckScript
    | CiTest

  function HeadText(h: Head): string {
    match h
    case AccessHead => "internal/access/"
    case RuntimeHead => "internal/bizruntime/"
    case DeviceOpsHead => "internal/deviceops/"
    case IntegrationHead => "integration/"
    case WorkflowHead => ".github/workflows/"
    case IdpHead => "cmd/biz-idp/"
    case WebSourceHead => "web/src/"
    case WebE2eHead => "web/e2e/"
    case WebTestsHead => "web/tests/"
    case PlaywrightHead => "web/playwright."
    case ProtoHead => "contracts/proto/"
    case YunkaHead => ".yunka/"
    case AcceptScript => "scripts/accept-local-"
    case ConsumerScript => "scripts/consumer-"
    case VerifyScript => "scripts/verify-yunka-"
    case CoffeelinkScript => "scripts/coffeelink_"
    case CoffeelinkTest => "scripts/test_coffeelink_"
    case Ce13Script => "scripts/ci_ce13_mysql"
    case CheckScript => "scripts/check_ci_"
    case CiTest => "scripts/test_ci_"
  }

  /** Names below a common head. */
  datatype Dir = Dir(head: Head, names: seq<string>)

  function Below(d: Dir): seq<string> {
    seq(|d.names|, i requires 0 <= i < |d.names| => HeadText(d.head) + d.names[i])
  }

  function Files(dirs: seq<Dir>): seq<string> {
    if dirs == [] then [] else Below(dirs[0]) + Files(dirs[1..])
  }

  /** Files below heads, and others. */
  datatype FileTable = FileTable(dirs: seq<Dir>, others: seq<string>)

  predicate Lists(t: FileTable, path: string) { path in Files(t.dirs) || path in t.others }

  /** The tables that decide the flags of a path. */
  datatype FlagTables = FlagTables(
    nativeLoginPrefixes: seq<Dir>, nativeLoginFiles: FileTable, deliveryIsolationFiles: FileTable,
    harnessPrefixes: seq<Dir>, harnessFiles: FileTable, coffeelinkFiles: FileTable,
    ce13Prefixes: seq<Dir>, ce13Files: FileTable, enterprise180Prefixes: seq<Dir>, enterprise180Files: FileTable,
    roleGrantPrefixes: seq<Dir>, roleGrantFiles: FileTable)

  const DOC_NAMES: seq<string> := [
    "README.md",
    "AGENTS.md",
    "LICENSE",
    "CHANGELOG.md"
  ]
  const DERIVED_PREFIXES: seq<string> := [
    "contracts/generated/",
    "contracts/gen/",
    "contracts/commercial/generated/"
  ]
  const SKILL_PREFIXES: seq<string> := [".agents/skills/"]
  const SKILL_COMPANION_FILES: seq<string> := ["docs/design/B2B-PRODUCT-UX.md"]
  const DESIGN_GOVERNANCE_PREFIXES: seq<string> := ["docs/design/"]
  const DESIGN_GOVERNANCE_FILES: seq<string> := [
    "web/ui-contracts.json",
    "web/AGENTS.md",
    "scripts/check_ui_skill_source.py",
    "scripts/test_ui_skill_source.py",
    "scripts/check_b2b_ux_skill.py",
    "scripts/test_b2b_ux_skill.py"
  ]
  const DESIGN_WEB_FILES: seq<string> := ["web/ui-contracts.json", "web/AGENTS.md"]
  const ACCESS_PREFIXES: seq<string> := [
    "internal/access/",
    "internal/bizruntime/",
    "contracts/proto/access/",
    "cmd/access-action-catalog/"
  ]
  const COMMERCIAL_PREFIXES: seq<string> := [
    "internal/commercial/",
    "contracts/commercial/",
    "cmd/commercial-catalog/"
  ]
  const DEVICEOPS_PREFIXES: seq<string> := ["internal/deviceops/"]
  const WEB_PREFIXES: seq<string> := ["web/"]
  const CORE_PREFIXES: seq<string> := [
    ".github/",
    ".yunka/",
    "internal/architecture/",
    "internal/assembly/",
    "modules/",
    "cmd/biz/",
    "scripts/ci_"
  ]
  const CORE_FILES: seq<string> := [
    "Makefile",
    "go.mod",
    "go.sum",
    "go.work",
    "go.work.sum",
    "docker-compose.yml"
  ]
  const ACCESS_INTEGRATION_PREFIXES: seq<string> := [
    "b12_",
    "ec_ri_02_",
    "ec_ri_03_",
    "ec_ri_04_",
    "ec_ri_05_",
    "ec_ri_07_",
    "enterprise_168_",
    "enterprise_169_",
    "enterprise_170_",
    "enterprise_171_",
    "enterprise_172_",
    "enterprise_173_",
    "enterprise_174_",
    "enterprise_175_",
    "enterprise_176_",
    "enterprise_177_",
    "enterprise_178_",
    "enterprise_180_",
    "enterprise_181_",
    "enterprise_182_",
    "enterprise_183_",
    "ce12_",
    "tenant_branding_"
  ]
  const COMMERCIAL_INTEGRATION_PREFIXES: seq<string> := [
    "ce02_",
    "ce04_",
    "ce05_",
    "ce06_",
    "ce07_",
    "ce08_",
    "ce09_",
    "ce10_",
    "ce13_",
    "ce16_",
    "ec_ri_06_"
  ]
  const CORE_INTEGRATION_PREFIXES: seq<string> := [
    "c9_",
    "ag02_",
    "shared_database_"
  ]
  const DEVICEOPS_INTEGRATION_PREFIXES: seq<string> := ["deviceops_"]
  const RECEIPTS_WORKFLOW := ".github/workflows/ce-round-receipts.yml"
  const RECEIPTS_DIR := "docs/commercial-entitlements/"
  const NATIVE_LOGIN_PATH_PREFIXES: seq<Dir> := [
    Dir(IdpHead, [""]),
    Dir(AccessHead, [
      "infrastructure/persistence/first_party_idp",
      "infrastructure/persistence/login_identifier",
      "infrastructure/persistence/verification"]),
    Dir(RuntimeHead, ["first_party_idp", "first_party_native_login"]),
    Dir(IntegrationHead, ["enterprise_172_", "ce12_browser_seed_test.go"]),
    Dir(WebTestsHead, ["ce12/"]),
    Dir(AcceptScript, ["login.mjs"])
  ]
  const NATIVE_LOGIN_FILES := FileTable([
    Dir(WorkflowHead, ["enterprise-172-native-login.yml"]),
    Dir(RuntimeHead, ["config.go"])
  ], ["go.mod", "go.sum"])
  const DELIVERY_ISOLATION_FILES := FileTable([
    Dir(WorkflowHead, ["delivery-workspace-isolation.yml"]),
    Dir(YunkaHead, ["source.env"]),
    Dir(ConsumerScript, ["resolution-check.sh"]),
    Dir(VerifyScript, ["source.sh"])
  ], ["go.mod", "go.sum", "go.work", "go.work.sum", "Makefile"])
  const WEB_E2E_HARNESS_PREFIXES: seq<Dir> := [
    Dir(WebE2eHead, [""])
  ]
  const WEB_E2E_HARNESS_FILES := FileTable([
    Dir(PlaywrightHead, ["config.ts"]),
    Dir(WorkflowHead, ["web-e2e-harness.yml"])
  ], [])
  const COFFEELINK_GATE_FILES := FileTable([
    Dir(WorkflowHead, ["coffeelink-web.yml"]),
    Dir(CoffeelinkScript, ["performance.py"]),
    Dir(CoffeelinkTest, ["performance.py"]),
    Dir(WebE2eHead, ["theme-appearance.spec.ts", "i18n.spec.ts", "design-acceptance.spec.ts", "console.spec.ts"])
  ], [])
  const CE13_GATE_FILES := FileTable([
    Dir(WorkflowHead, ["ce13-plan-catalog-qualification.yml", "ce13-platform-web-session.yml"]),
    Dir(Ce13Script, [".sh"]),
    Dir(CheckScript, ["ce13.py"]),
    Dir(CiTest, ["ce13_runtime.py"]),
    Dir(PlaywrightHead, ["ce13-plan-catalog.config.ts", "ce13-platform.config.ts"])
  ], [])
  const CE13_GATE_PREFIXES: seq<Dir> := [
    Dir(WebTestsHead, ["ce13-plan-catalog/", "ce13-platform/"])
  ]
  const ENTERPRISE_180_PATH_PREFIXES: seq<Dir> := [
    Dir(IntegrationHead, ["enterprise_180_"]),
    Dir(AccessHead, [
      "domain/data_policy",
      "ports/data_policy",
      "infrastructure/persistence/data_policy",
      "application/tenant_data_policy",
      "application/member_business_scope"]),
    Dir(WebSourceHead, ["features/enterprise/components/policies/", "services/enterprise/dataPolicy"]),
    Dir(WebE2eHead, ["enterprise-data-policy"])
  ]
  const CENTRE := "docs/enterprise-center/"
  const POLICY_DOCUMENTS: seq<string> := [
    CENTRE + "enterprise180-policy-contract.v1.json",
    CENTRE + "enterprise180-policy-negative-examples.md"
  ]
  const ENTERPRISE_180_FILES := FileTable([
    Dir(ProtoHead, [
      "access/v1/tenant_role.proto",
      "access/v1/tenant_member.proto",
      "deviceops/v1/deviceops.proto"]),
    Dir(WorkflowHead, ["enterprise-role-qualification.yml"]),
    Dir(AccessHead, [
      "infrastructure/persistence/business_scope.go",
      "infrastructure/persistence/member_business_scope.go",
      "infrastructure/persistence/bootstrap_business_scope.go",
      "infrastructure/persistence/migrations/0016_enterprise_data_policy.sql"]),
    Dir(RuntimeHead, ["data_policy_errors.go"]),
    Dir(DeviceOpsHead, [
      "security/scope.go",
      "infrastructure/persistence/site_directory.go",
      "application/site_scope_directory.go",
      "ports/site_directory.go"])
  ], POLICY_DOCUMENTS)
  const ROLE_GRANT_PATH_PREFIXES: seq<Dir> := [
    Dir(AccessHead, ["authorization/"]),
    Dir(WebSourceHead, [
      "features/enterprise/components/roles/",
      "features/enterprise/components/security/",
      "features/enterprise/composables/usePersonalSecurity",
      "services/enterprise/personalSecurity"])
  ]
  const ROLE_GRANT_FILES := FileTable([
    Dir(WorkflowHead, ["enterprise-179-role-grant-tree.yml"]),
    Dir(AccessHead, [
      "application/tenant_role_permission.go",
      "domain/model.go",
      "ports/role.go",
      "infrastructure/persistence/role.go"]),
    Dir(RuntimeHead, [
      "access_skeleton.go",
      "role_entitlements.go",
      "role_entitlements_test.go",
      "web_authorization.go"]),
    Dir(IntegrationHead, ["b12_role_runtime_mysql_test.go", "enterprise_179_role_grant_tree_mysql_test.go"]),
    Dir(WebSourceHead, [
      "services/enterprise/rolePermissionCatalog.ts",
      "services/enterprise/roleRuntime.ts",
      "stores/enterprise.ts",
      "types/enterprise.ts",
      "ui/base/UiInput.vue",
      "ui/base/controls.spec.ts"]),
    Dir(WebE2eHead, ["enterprise-roles-real.spec.ts", "enterprise-personal-profile-real.spec.ts"])
  ], [])

  const FLAG_TABLES := FlagTables(
    NATIVE_LOGIN_PATH_PREFIXES, NATIVE_LOGIN_FILES, DELIVERY_ISOLATION_FILES,
    WEB_E2E_HARNESS_PREFIXES, WEB_E2E_HARNESS_FILES, COFFEELINK_GATE_FILES,
    CE13_GATE_PREFIXES, CE13_GATE_FILES, ENTERPRISE_180_PATH_PREFIXES, ENTERPRISE_180_FILES,
    ROLE_GRANT_PATH_PREFIXES, ROLE_GRANT_FILES)
}
