/** Settings: the API base URL and the two paths under it, the credentials,
    the data directory holding the cache database, and the tuning defaults;
    read from the process environment, which is a parameter here (a map from
    variable names to values). Loading a `.env` file is not modelled. */
module Config {
  import opened Wrappers
  import opened Text

  const ApiBasePath := "/api/1.0"
  const TokenPath := ApiBasePath + "/oauth2/access_token"
  const AuditLogsPath := ApiBasePath + "/logs/audit-logs"

  const DefaultMaxConcurrentDownloads := 15
  const DefaultTokenRefreshBufferSeconds := 300

  const BaseUrlVariable := "UNQORK_BASE_URL"
  const ClientIdVariable := "UNQORK_CLIENT_ID"
  const ClientSecretVariable := "UNQORK_CLIENT_SECRET"
  const DataDirVariable := "UNQORK_DATA_DIR"
  const VerifySslVariable := "UNQORK_VERIFY_SSL"

  /** The variables that must be set, in the order they are reported. */
  const Required := [BaseUrlVariable, ClientIdVariable, ClientSecretVariable]

  datatype Settings = Settings(
    baseUrl: string,
    clientId: string,
    clientSecret: string,
    dataDir: string,
    maxConcurrentDownloads: int,
    tokenRefreshBufferSeconds: int,
    verifySsl: bool)
  {
    /** `token_url` */
    function TokenUrl(): (r: string)
      ensures StartsWith(r, baseUrl) && r[|baseUrl|..] == "/api/1.0/oauth2/access_token"
    {
      baseUrl + TokenPath
    }

    /** `audit_logs_url` */
    function AuditLogsUrl(): (r: string)
      ensures StartsWith(r, baseUrl) && r[|baseUrl|..] == "/api/1.0/logs/audit-logs"
    {
      baseUrl + AuditLogsPath
    }

    /** `cache_db_path` */
    function CacheDbPath(): string {
      JoinPath(dataDir, "cache.db")
    }
  }

  /** `Path(dir) / name` for a relative `name`: the empty directory and `.`
      contribute nothing, and exactly one separator comes between the two. */
  function JoinPath(dir: string, name: string): (r: string)
    ensures EndsWith(r, name)
    ensures dir != "" && dir != "." ==> StartsWith(r, dir) && |r| > |name| && r[|r| - |name| - 1] == '/'
  {
    if dir == "" || dir == "." then name
    else if dir[|dir| - 1] == '/' then dir + name
    else dir + "/" + name
  }

  /** The cache file always sits directly in the data directory. */
  lemma CacheInDataDir(s: Settings)
    requires s.dataDir != "" && s.dataDir != "."
    ensures var p := s.CacheDbPath();
      && StartsWith(p, s.dataDir) && EndsWith(p, "/cache.db")
  {
    var p, name := s.CacheDbPath(), "cache.db";
    var tail, q := p[|p| - 8..], p[|p| - 9..];
    assert tail == name && p[|p| - 9] == '/';
    assert q[0] == '/' && forall i :: 1 <= i < 9 ==> q[i] == tail[i - 1];
    assert q == "/cache.db";
  }

  /** `validate_base_url`: strip every trailing `/`, then insist on
      `https://`. */
  function ValidateBaseUrl(v: string): (r: Result<string>)
    ensures r.Ok? <==> StartsWith(RStripChar(v, '/'), "https://")
    ensures r.Ok? ==> StartsWith(r.value, "https://") && StartsWith(v, r.value)
    ensures r.Ok? ==> r.value[|r.value| - 1] != '/' && forall i :: |r.value| <= i < |v| ==> v[i] == '/'
  {
    var w := RStripChar(v, '/');
    if !StartsWith(w, "https://") then Err("UNQORK_BASE_URL must start with https://")
    else Ok(w)
  }

  /** A validated URL passes validation unchanged. */
  lemma {:induction false} ValidatedUrlIsStable(v: string)
    requires ValidateBaseUrl(v).Ok?
    ensures ValidateBaseUrl(ValidateBaseUrl(v).value) == ValidateBaseUrl(v)
  {
    var w := ValidateBaseUrl(v).value;
    assert w != [] && w[|w| - 1] != '/';
  }

  /** A variable counts as set when it is present and not empty. */
  predicate IsSet(env: map<string, string>, name: string) {
    name in env && env[name] != ""
  }

  /** The `missing` list of `load_settings`: three conditional appends. */
  function Missing(env: map<string, string>): (r: seq<string>)
    ensures forall n :: n in r <==> n in Required && !IsSet(env, n)
  {
    (if IsSet(env, BaseUrlVariable) then [] else [BaseUrlVariable])
    + (if IsSet(env, ClientIdVariable) then [] else [ClientIdVariable])
    + (if IsSet(env, ClientSecretVariable) then [] else [ClientSecretVariable])
  }

  /** The names of `names` that are not set, in their order there. */
  function Unset(env: map<string, string>, names: seq<string>): seq<string> {
    if names == [] then []
    else (if IsSet(env, names[0]) then [] else [names[0]]) + Unset(env, names[1..])
  }

  /** The missing list is the required list filtered to the unset names,
      in the same order. */
  lemma MissingIsUnset(env: map<string, string>)
    ensures Missing(env) == Unset(env, Required)
  {
    var r := Required;
    assert r[1..][1..][1..] == [];
    assert Unset(env, r[1..][1..]) == (if IsSet(env, r[2]) then [] else [r[2]]);
    assert Unset(env, r[1..]) == (if IsSet(env, r[1]) then [] else [r[1]]) + Unset(env, r[1..][1..]);
  }

  /** `verify_ssl`: off exactly for `false`, `0` or `no` in any case; on
      when the variable is not set. */
  function VerifySsl(env: map<string, string>): (r: bool)
    ensures VerifySslVariable !in env ==> r
  {
    var value := if VerifySslVariable in env then env[VerifySslVariable] else "true";
    Lower(value) !in ["false", "0", "no"]
  }

  /** Upper case switches verification off too. */
  lemma VerifySslSwitchedOff(env: map<string, string>)
    requires VerifySslVariable in env && env[VerifySslVariable] in ["false", "FALSE", "0", "no", "NO"]
    ensures !VerifySsl(env)
  {
    var v := env[VerifySslVariable];
    var l := Lower(v);
    if v == "FALSE" {
      assert l[0] == 'f' && l[1] == 'a' && l[2] == 'l' && l[3] == 's' && l[4] == 'e';
      assert l == "false";
    } else if v == "NO" {
      assert l[0] == 'n' && l[1] == 'o';
      assert l == "no";
    } else if v == "false" {
      assert l == "false";
    } else if v == "no" {
      assert l == "no";
    } else {
      assert l == "0";
    }
  }

  function MissingMessage(missing: seq<string>): string {
    "Missing required environment variables: " + Join(", ", missing) + ". "
    + "Set them in a .env file or export them in your shell. See .env.example for reference."
  }

  /** `load_settings`; `defaultDataDir` is `~/.unqork-logs`. */
  function LoadSettings(env: map<string, string>, defaultDataDir: string): (r: Result<Settings>)
    ensures Missing(env) != [] ==> r == Err(MissingMessage(Missing(env)))
    ensures r.Ok? <==> Missing(env) == [] && ValidateBaseUrl(env[BaseUrlVariable]).Ok?
    ensures r.Ok? ==>
      && r.value.baseUrl == ValidateBaseUrl(env[BaseUrlVariable]).value
      && r.value.clientId == env[ClientIdVariable] && r.value.clientSecret == env[ClientSecretVariable]
      && r.value.dataDir == (if DataDirVariable in env then env[DataDirVariable] else defaultDataDir)
      && r.value.maxConcurrentDownloads == 15 && r.value.tokenRefreshBufferSeconds == 300
      && r.value.verifySsl == VerifySsl(env)
  {
    var missing := Missing(env);
    if missing != [] then Err(MissingMessage(missing))
    else
      assert BaseUrlVariable in missing <==> !IsSet(env, BaseUrlVariable);
      assert ClientIdVariable in missing <==> !IsSet(env, ClientIdVariable);
      assert ClientSecretVariable in missing <==> !IsSet(env, ClientSecretVariable);
      var baseUrl :- ValidateBaseUrl(env[BaseUrlVariable]);
      var dataDir := if DataDirVariable in env then env[DataDirVariable] else defaultDataDir;
      Ok(Settings(baseUrl, env[ClientIdVariable], env[ClientSecretVariable], dataDir,
                  DefaultMaxConcurrentDownloads, DefaultTokenRefreshBufferSeconds, VerifySsl(env)))
  }

  /** Loading fails exactly when a required variable is unset or empty, or
      the base URL is not `https`. */
  lemma LoadFailsWhenUnset(env: map<string, string>, defaultDataDir: string)
    ensures LoadSettings(env, defaultDataDir).Err? <==>
      (|| !IsSet(env, BaseUrlVariable) || !IsSet(env, ClientIdVariable) || !IsSet(env, ClientSecretVariable)
       || !StartsWith(RStripChar(env[BaseUrlVariable], '/'), "https://"))
  {
    var m := Missing(env);
    if !IsSet(env, BaseUrlVariable) {
      assert BaseUrlVariable in m;
    } else if !IsSet(env, ClientIdVariable) {
      assert ClientIdVariable in m;
    } else if !IsSet(env, ClientSecretVariable) {
      assert ClientSecretVariable in m;
    }
  }
}
