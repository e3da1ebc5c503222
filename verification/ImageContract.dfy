/** The fixed contract of scripts/check_container_image.py: its path sets, the
    application allowlist and the checks on a finished path table. */
module ImageContract {
  import opened Wrappers
  import opened ImagePaths
  import opened ImageOverlay
  import opened ImageLinks

  const APP_ROOT := "app"
  const VENV_PYTHON_PATH := "opt/venv/bin/python"
  const BROWSER_BINARY_PATH := "opt/cloakbrowser/chromium-146.0.7680.177.3/chrome"
  const MAX_APP_PAYLOAD_BYTES := 16 * 1024 * 1024

  const PROTECTED_ROOTS: set<string> := {"app", "opt/venv", "opt/cloakbrowser"}
  const WRITABLE_RUNTIME_DIRECTORIES: set<string> :=
    {"app/config", "app/db", "app/logs", "app/outputs", "app/outputs/images"}
  const APP_EXACT_CHILDREN: set<string> := {
    "app/main.py", "app/entrypoint.sh", "app/healthcheck.py",
    "app/llm_gateway_core", "app/static", "app/examples",
    "app/config", "app/db", "app/logs", "app/outputs"
  }
  const ALLOWED_APP_EXACT_PATHS: set<string> :=
    {"app", "app/examples/free-tier-providers.md", "app/outputs/images"} + APP_EXACT_CHILDREN
  const REQUIRED_DIRECTORIES: set<string> := {
    "app", "app/llm_gateway_core", "app/static", "app/examples",
    "app/config", "app/db", "app/logs", "app/outputs", "app/outputs/images",
    "opt/venv", "opt/cloakbrowser"
  }
  const REQUIRED_FILES: set<string> :=
    {"app/main.py", "app/entrypoint.sh", "app/healthcheck.py", "app/examples/free-tier-providers.md"}
  const REQUIRED_EXECUTABLES: set<string> :=
    {"app/entrypoint.sh", "app/healthcheck.py", "opt/cloakbrowser/chromium-146.0.7680.177.3/chrome"}

  const FORBIDDEN_APP_COMPONENTS: set<string> := {
    ".agents", ".attachments", ".claude", ".cli-proxy", ".git", ".github", ".playwright",
    ".playwright-cli", ".pytest_cache", ".qwen", ".ruff_cache", "__pycache__", "cache",
    "caches", "diagnostic", "diagnostics", "node_modules", "tests"
  }
  const FORBIDDEN_SOURCE_FILE_BASENAMES: set<string> :=
    {".coverage", ".netrc", ".npmrc", ".pypirc", "credentials.json", "secrets.json"}
  const FORBIDDEN_SOURCE_FILE_SUFFIXES: set<string> :=
    {".db", ".key", ".log", ".p12", ".pem", ".pfx", ".prof", ".sqlite", ".sqlite3", ".trace"}
  const FORBIDDEN_CONFIG_BASENAMES: set<string> := {
    ".env", "providers.json", "models_fallback_rules.json", "models_operation_rules.json",
    "models_fusion_rules.json", "models_router_rules.json", "models_model_rules.json"
  }

  /** Relative source paths with the kind they must have. */
  type Allowlist = map<string, Kind>

  /** str.rfind(".") */
  function LastDot(s: string): (i: int)
    ensures -1 <= i < |s|
  {
    if s == "" then -1
    else if s[|s| - 1] == '.' then |s| - 1
    else LastDot(s[..|s| - 1])
  }

  /** PurePosixPath(part).suffix */
  function Suffix(part: string): string {
    var i := LastDot(part);
    if 0 < i < |part| - 1 then part[i..] else ""
  }

  /** The checks on one component below an application source root. */
  predicate ForbiddenPart(part: string) {
    || part in FORBIDDEN_APP_COMPONENTS
    || "." <= part
    || part in FORBIDDEN_CONFIG_BASENAMES
    || ".env." <= part
    || part in FORBIDDEN_SOURCE_FILE_BASENAMES
    || Suffix(part) in FORBIDDEN_SOURCE_FILE_SUFFIXES
    || Suffix(part) in {".pyc", ".pyd", ".pyo"}
    || (Suffix(part) == ".py" && ("test_" <= part || EndsWith(part, "_test.py")))
  }

  /** PurePosixPath(path).parts of a relative path */
  function CleanParts(path: string): seq<string> {
    WithoutDots(Parts(path))
  }

  /** _is_allowed_app_path */
  predicate IsAllowedAppPath(path: string, allow: Allowlist) {
    if path in ALLOWED_APP_EXACT_PATHS then true
    else if path !in allow then false
    else
      var parts := CleanParts(path);
      forall k :: 2 <= k < |parts| ==> !ForbiddenPart(parts[k])
  }

  predicate IsTracked(path: string) {
    exists root | root in PROTECTED_ROOTS :: IsBeneath(path, root)
  }

  /** One entry against _validate_permissions. */
  predicate EntryPermitted(path: string, e: FileEntry) {
    if path in WRITABLE_RUNTIME_DIRECTORIES then
      e.kind == Directory && e.uid == 10001 && e.gid == 10001 && e.mode == 0x1F8
    else
      && e.kind != Special
      && e.uid == 0 && e.gid == 0
      && (e.kind == Symlink || e.mode & 0x12 == 0)
      && (!IsBeneath(path, APP_ROOT) || e.kind == Directory || e.kind == RegularFile)
  }

  predicate LeadsSomewhere(m: Entries, path: string) {
    Resolve(m, Parts(path), [], {}).Found?
  }

  predicate PermissionsHold(m: Entries) {
    forall p | p in m :: IsTracked(p) ==> EntryPermitted(p, m[p]) && (IsLink(m, p) ==> LeadsSomewhere(m, p))
  }

  predicate SourcesHold(m: Entries, allow: Allowlist) {
    forall p | p in allow :: p in m && m[p].kind == allow[p]
  }

  predicate RequiredHold(m: Entries) {
    && (forall p | p in REQUIRED_DIRECTORIES :: p in m && m[p].kind == Directory)
    && (forall p | p in REQUIRED_FILES :: p in m && m[p].kind == RegularFile)
    && BROWSER_BINARY_PATH in m && m[BROWSER_BINARY_PATH].kind == RegularFile
    && VENV_PYTHON_PATH in m && m[VENV_PYTHON_PATH].kind in {RegularFile, Symlink, Hardlink}
    && (forall p | p in REQUIRED_EXECUTABLES :: p in m && m[p].mode & 0x49 != 0)
    && PythonHolds(ResolvedEntry(m, Resolve(m, Parts(VENV_PYTHON_PATH), [], {})))
  }

  predicate PythonHolds(r: Result<Option<FileEntry>, LinkError>) {
    && r.Success? && r.value.Some?
    && var e := r.value.value;
       e.kind == RegularFile && e.mode & 0x49 != 0 && e.uid == 0 && e.gid == 0 && e.mode & 0x12 == 0
  }

  // ----- Payload -----

  function PayloadOf(path: string, e: FileEntry): nat {
    if IsBeneath(path, APP_ROOT) && e.kind == RegularFile then e.size else 0
  }

  ghost function Payload(m: Entries): nat
    decreases |m|
  {
    if m == map[] then 0
    else
      var p :| p in m;
      PayloadOf(p, m[p]) + Payload(Drop(m, p))
  }

  function Drop(m: Entries, p: string): (d: Entries)
    ensures p in m ==> |d| < |m|
  {
    var d := map q | q in m && q != p :: m[q];
    assert p in m ==> d.Keys == m.Keys - {p};
    assert |d| == |d.Keys| && |m| == |m.Keys|;
    d
  }

  lemma {:induction false} PayloadTakesAny(m: Entries, p: string)
    requires p in m
    ensures Payload(m) == PayloadOf(p, m[p]) + Payload(Drop(m, p))
    decreases |m|
  {
    var q :| q in m && Payload(m) == PayloadOf(q, m[q]) + Payload(Drop(m, q));
    if q != p {
      PayloadTakesAny(Drop(m, q), p);
      PayloadTakesAny(Drop(m, p), q);
      assert Drop(Drop(m, q), p) == Drop(Drop(m, p), q);
    }
  }

  method AppPayload(m: Entries) returns (total: nat)
    ensures total == Payload(m)
  {
    total := 0;
    var left := m;
    while left != map[]
      invariant total + Payload(left) == Payload(m)
      decreases |left|
    {
      var p :| p in left;
      PayloadTakesAny(left, p);
      total := total + PayloadOf(p, left[p]);
      left := Drop(left, p);
    }
  }

  // ----- The validators, as loops over the table -----

  /** _validate_permissions, with the link check that ends it */
  method ValidatePermissions(m: Entries) returns (ok: bool)
    ensures ok <==> PermissionsHold(m)
  {
    var left := m.Keys;
    while left != {}
      invariant left <= m.Keys
      invariant forall p | p in m && p !in left :: IsTracked(p) ==> EntryPermitted(p, m[p])
      decreases left
    {
      var p :| p in left;
      if IsTracked(p) && !EntryPermitted(p, m[p]) {
        return false;
      }
      left := left - {p};
    }
    left := m.Keys;
    while left != {}
      invariant left <= m.Keys
      invariant forall p | p in m && p !in left :: IsTracked(p) && IsLink(m, p) ==> LeadsSomewhere(m, p)
      decreases left
    {
      var p :| p in left;
      if IsTracked(p) && IsLink(m, p) {
        var r := ResolveRuntimePath(p, m);
        if r.Failure? {
          return false;
        }
      }
      left := left - {p};
    }
    return true;
  }

  /** _validate_required_entries */
  method ValidateRequiredEntries(m: Entries) returns (ok: bool)
    ensures ok <==> RequiredHold(m)
  {
    if !(&& (forall p | p in REQUIRED_DIRECTORIES :: p in m && m[p].kind == Directory)
         && (forall p | p in REQUIRED_FILES :: p in m && m[p].kind == RegularFile)
         && BROWSER_BINARY_PATH in m && m[BROWSER_BINARY_PATH].kind == RegularFile
         && VENV_PYTHON_PATH in m && m[VENV_PYTHON_PATH].kind in {RegularFile, Symlink, Hardlink}
         && (forall p | p in REQUIRED_EXECUTABLES :: p in m && m[p].mode & 0x49 != 0)) {
      return false;
    }
    var python := ResolveRuntimePath(VENV_PYTHON_PATH, m);
    return PythonHolds(python);
  }
}
