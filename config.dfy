/** Configuration: each setting comes from its environment variable when set, else from the
    TOML file's table, else from its default; a relative database path is taken relative to the
    directory of the configuration path given explicitly to `load_config`, and is left as it is
    when none is given. The TOML document is given already parsed, and file existence is a
    predicate. */
module Config {
  import opened Wrappers

  const DEFAULT_REDIRECT_URI: string := "http://localhost:8085/callback"
  const DEFAULT_DB_PATH: string := "easycat.db"

  /** A parsed TOML document: its tables of string settings. */
  type TomlTable = map<string, string>
  type TomlDoc = map<string, TomlTable>
  type Environ = map<string, string>

  /** A POSIX path as `pathlib` holds it: absolute or not, and its non-empty components other
      than `.`. */
  datatype Path = Path(absolute: bool, parts: seq<string>)

  datatype QuickBooksConfig = QuickBooksConfig(clientId: string, clientSecret: string,
                                               environment: string, redirectUri: string)
  {
    /** `is_sandbox`. */
    predicate IsSandbox()
      ensures IsSandbox() <==> environment == "sandbox"
      ensures environment == "production" ==> !IsSandbox()
    {
      environment == "sandbox"
    }
  }

  datatype DatabaseConfig = DatabaseConfig(path: Path)
  datatype SecurityConfig = SecurityConfig(encryptionKey: Option<string>)
  datatype AppConfig = AppConfig(quickbooks: QuickBooksConfig, database: DatabaseConfig, security: SecurityConfig)

  /** `d.get(key, default)`. */
  function GetOr(d: map<string, string>, key: string, default: string): (r: string)
    ensures key in d ==> r == d[key]
    ensures key !in d ==> r == default
  {
    if key in d then d[key] else default
  }

  /** The text between the separators `/`, in order. */
  function SplitSlash(s: string): (parts: seq<string>)
    ensures |parts| >= 1
    ensures forall i :: 0 <= i < |parts| ==> '/' !in parts[i]
  {
    if s == [] then [""]
    else if s[0] == '/' then [""] + SplitSlash(s[1..])
    else
      var rest := SplitSlash(s[1..]);
      [[s[0]] + rest[0]] + rest[1..]
  }

  /** The components `Path(s)` keeps. */
  function Components(parts: seq<string>): (r: seq<string>)
    ensures forall i :: 0 <= i < |r| ==> r[i] != "" && r[i] != "." && r[i] in parts
  {
    if parts == [] then []
    else
      var rest := Components(parts[1..]);
      if parts[0] == "" || parts[0] == "." then rest else [parts[0]] + rest
  }

  /** `Path(s)`. */
  function PathOf(s: string): (p: Path)
    ensures p.absolute <==> |s| > 0 && s[0] == '/'
  {
    Path(|s| > 0 && s[0] == '/', Components(SplitSlash(s)))
  }

  /** `p.parent`. */
  function Parent(p: Path): (r: Path)
    ensures r.absolute == p.absolute
    ensures p.parts != [] ==> r.parts + [p.parts[|p.parts| - 1]] == p.parts
    ensures p.parts == [] ==> r == p
  {
    if p.parts == [] then p else Path(p.absolute, p.parts[..|p.parts| - 1])
  }

  /** `a / b`: an absolute `b` replaces `a`. */
  function JoinPath(a: Path, b: Path): (r: Path)
    ensures b.absolute ==> r == b
    ensures !b.absolute ==> r.absolute == a.absolute && r.parts == a.parts + b.parts
  {
    if b.absolute then b else Path(a.absolute, a.parts + b.parts)
  }

  /** `DEFAULT_CONFIG_PATHS`, with the home directory given. */
  function DefaultConfigPaths(home: Path): (r: seq<Path>)
    ensures |r| == 2 && r[0] == PathOf("config.toml")
    ensures r[1] == JoinPath(home, Path(false, [".config", "easycat", "config.toml"]))
  {
    [PathOf("config.toml"), JoinPath(home, Path(false, [".config", "easycat", "config.toml"]))]
  }

  /** `find_config_file` over a list of candidates: the first that exists. */
  function FindConfigFile(candidates: seq<Path>, exists_: Path -> bool): (r: Option<Path>)
    ensures r.None? <==> forall i :: 0 <= i < |candidates| ==> !exists_(candidates[i])
    ensures r.Some? ==> exists i :: 0 <= i < |candidates| && candidates[i] == r.value && exists_(r.value)
                                    && forall j :: 0 <= j < i ==> !exists_(candidates[j])
  {
    if candidates == [] then None
    else if exists_(candidates[0]) then Some(candidates[0])
    else
      var r := FindConfigFile(candidates[1..], exists_);
      assert forall i :: 1 <= i < |candidates| ==> candidates[i] == candidates[1..][i - 1];
      r
  }

  /** One setting: the environment variable when set, else the TOML value, else the
      default. */
  function Setting(env: Environ, var_: string, table: TomlTable, key: string, default: string): (r: string)
    ensures var_ in env ==> r == env[var_]
    ensures var_ !in env && key in table ==> r == table[key]
    ensures var_ !in env && key !in table ==> r == default
  {
    GetOr(env, var_, GetOr(table, key, default))
  }

  /** `_build_quickbooks_config`. */
  function BuildQuickBooksConfig(env: Environ, qb: TomlTable): (c: QuickBooksConfig)
    ensures c.clientId == Setting(env, "EASYCAT_CLIENT_ID", qb, "client_id", "")
    ensures c.clientSecret == Setting(env, "EASYCAT_CLIENT_SECRET", qb, "client_secret", "")
    ensures c.environment == Setting(env, "EASYCAT_ENVIRONMENT", qb, "environment", "sandbox")
    ensures c.redirectUri == Setting(env, "EASYCAT_REDIRECT_URI", qb, "redirect_uri", DEFAULT_REDIRECT_URI)
  {
    QuickBooksConfig(
      GetOr(env, "EASYCAT_CLIENT_ID", GetOr(qb, "client_id", "")),
      GetOr(env, "EASYCAT_CLIENT_SECRET", GetOr(qb, "client_secret", "")),
      GetOr(env, "EASYCAT_ENVIRONMENT", GetOr(qb, "environment", "sandbox")),
      GetOr(env, "EASYCAT_REDIRECT_URI", GetOr(qb, "redirect_uri", DEFAULT_REDIRECT_URI)))
  }

  /** With neither environment nor file, QuickBooks settings are empty credentials for the
      sandbox with the local callback. */
  lemma QuickBooksDefaults()
    ensures BuildQuickBooksConfig(map[], map[]) == QuickBooksConfig("", "", "sandbox", DEFAULT_REDIRECT_URI)
    ensures BuildQuickBooksConfig(map[], map[]).IsSandbox()
  {
  }

  /** `_build_database_config`. */
  function BuildDatabaseConfig(env: Environ, db: TomlTable, configPath: Option<Path>): (c: DatabaseConfig)
    ensures var given := PathOf(Setting(env, "EASYCAT_DB_PATH", db, "path", DEFAULT_DB_PATH));
            && (given.absolute || configPath.None? ==> c.path == given)
            && (!given.absolute && configPath.Some? ==>
                  c.path.absolute == configPath.value.absolute
                  && c.path.parts == Parent(configPath.value).parts + given.parts)
  {
    var p := PathOf(GetOr(env, "EASYCAT_DB_PATH", GetOr(db, "path", DEFAULT_DB_PATH)));
    if !p.absolute && configPath.Some? then DatabaseConfig(JoinPath(Parent(configPath.value), p))
    else DatabaseConfig(p)
  }

  /** With a configuration path given explicitly, a relative database path lives beside that
      file: the file's directory followed by the path's components. */
  lemma DatabaseBesideConfigFile(env: Environ, db: TomlTable, dir: seq<string>)
    requires "EASYCAT_DB_PATH" !in env && "path" !in db
    ensures BuildDatabaseConfig(env, db, Some(Path(true, dir + ["config.toml"]))).path == Path(true, dir + ["easycat.db"])
  {
    SplitSlashWithoutSlash(DEFAULT_DB_PATH);
    assert Components(["easycat.db"]) == ["easycat.db"];
    assert (dir + ["config.toml"])[..|dir|] == dir;
  }

  /** A text without `/` is one component. */
  lemma {:induction false} SplitSlashWithoutSlash(s: string)
    requires '/' !in s
    ensures SplitSlash(s) == [s]
  {
    if s != [] {
      assert '/' !in s[1..];
      SplitSlashWithoutSlash(s[1..]);
      assert [s[0]] + s[1..] == s;
    }
  }

  /** `_build_security_config`: an empty or missing file key is no key. */
  function BuildSecurityConfig(env: Environ, security: TomlTable): (c: SecurityConfig)
    ensures "EASYCAT_ENCRYPTION_KEY" in env ==> c.encryptionKey == Some(env["EASYCAT_ENCRYPTION_KEY"])
    ensures "EASYCAT_ENCRYPTION_KEY" !in env ==>
              (c.encryptionKey.None? <==> "encryption_key" !in security || security["encryption_key"] == "")
    ensures "EASYCAT_ENCRYPTION_KEY" !in env && c.encryptionKey.Some? ==>
              c.encryptionKey.value == security["encryption_key"]
  {
    if "EASYCAT_ENCRYPTION_KEY" in env then SecurityConfig(Some(env["EASYCAT_ENCRYPTION_KEY"]))
    else if "encryption_key" in security && security["encryption_key"] != "" then
      SecurityConfig(Some(security["encryption_key"]))
    else SecurityConfig(None)
  }

  /** `_build_config`: each section from its TOML table, an absent table being empty. */
  function BuildConfig(env: Environ, toml: TomlDoc, configPath: Option<Path>): (c: AppConfig)
    ensures c.quickbooks == BuildQuickBooksConfig(env, if "quickbooks" in toml then toml["quickbooks"] else map[])
    ensures c.database == BuildDatabaseConfig(env, if "database" in toml then toml["database"] else map[], configPath)
    ensures c.security == BuildSecurityConfig(env, if "security" in toml then toml["security"] else map[])
  {
    var table := (name: string) => if name in toml then toml[name] else map[];
    AppConfig(BuildQuickBooksConfig(env, table("quickbooks")),
              BuildDatabaseConfig(env, table("database"), configPath),
              BuildSecurityConfig(env, table("security")))
  }
}
