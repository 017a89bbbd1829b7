/** The configuration object and its validation, which rewrites it in place. The maps are visited in any
    order; neither the verdict nor the result depends on it. */
module Config {
  import opened Wrappers
  import opened ConfigModel
  import Provider
  import Text

  datatype ConfigError =
    | BadPort(port: int)
    | NoPlatform
    | NoPool
    | PoolNameEmpty
    | PoolNameSlash(name: string)
    | PoolEmpty(name: string)
    | KeyEmpty(name: string, keyLabel: string)
    | PlatformNameEmpty
    | PlatformNameSlash(name: string)
    | TypeEmpty(name: string)
    | TypeUnknown(name: string, typ: string)
    | BaseURLEmpty(name: string)
    | PoolUnknown(name: string, pool: string)
    | AuthHeaderMissing(name: string)

  /** The error names something that is wrong with these pools. */
  predicate BlamesPool(pools: map<string, seq<KeyConfig>>, e: ConfigError) {
    match e
    case PoolNameEmpty => "" in pools
    case PoolNameSlash(name) => name in pools && '/' in name
    case PoolEmpty(name) => name in pools && pools[name] == []
    case KeyEmpty(name, keyLabel) =>
      && name in pools
      && exists i :: 0 <= i < |pools[name]| && pools[name][i].key == "" && Labelled(pools[name])[i].keyLabel == keyLabel
    case _ => false
  }

  /** The error names something that is wrong with these platforms. */
  predicate BlamesPlatform(platforms: map<string, PlatformConfig>, pools: set<string>, e: ConfigError) {
    match e
    case PlatformNameEmpty => "" in platforms
    case PlatformNameSlash(name) => name in platforms && '/' in name
    case TypeEmpty(name) => name in platforms && platforms[name].typ == ""
    case TypeUnknown(name, typ) =>
      name in platforms && platforms[name].typ == typ && typ != Provider.API_SPORTS && typ != Provider.GENERIC_HTTP
    case BaseURLEmpty(name) => name in platforms && platforms[name].baseURL == ""
    case PoolUnknown(name, pool) =>
      name in platforms && FilledPlatform(platforms[name]).credentialPool == pool && pool !in pools
    case AuthHeaderMissing(name) =>
      && name in platforms && platforms[name].typ == Provider.GENERIC_HTTP
      && Text.TrimSpace(platforms[name].auth.header) == ""
    case _ => false
  }

  /** The reported error is a real defect of the configuration. */
  predicate Blames(c: Settings, e: ConfigError) {
    var m := Modern(c);
    match e
    case BadPort(port) => port == c.server.port && !(0 < port <= 65535)
    case NoPlatform => m.platforms == map[]
    case NoPool => m.credentialPools == map[]
    case _ => BlamesPool(m.credentialPools, e) || BlamesPlatform(m.platforms, m.credentialPools.Keys, e)
  }

  /** Nothing acceptable can be blamed. */
  lemma BlameMeansUnacceptable(c: Settings, e: ConfigError)
    requires Blames(c, e)
    ensures !Acceptable(c)
  {
    var m := Modern(c);
    if BlamesPool(m.credentialPools, e) {
      PoolBlameMeansNotOk(m.credentialPools, e);
    } else if BlamesPlatform(m.platforms, m.credentialPools.Keys, e) {
      PlatformBlameMeansNotOk(m.platforms, m.credentialPools.Keys, e);
    }
  }

  lemma PoolBlameMeansNotOk(pools: map<string, seq<KeyConfig>>, e: ConfigError)
    requires BlamesPool(pools, e)
    ensures exists name :: name in pools && !PoolOk(name, pools[name])
  {
    if e.PoolNameEmpty? {
      assert !PoolOk("", pools[""]);
    } else {
      assert !PoolOk(e.name, pools[e.name]);
    }
  }

  lemma PlatformBlameMeansNotOk(platforms: map<string, PlatformConfig>, pools: set<string>, e: ConfigError)
    requires BlamesPlatform(platforms, pools, e)
    ensures exists name :: name in platforms && !PlatformOk(name, platforms[name], pools)
  {
    if e.PlatformNameEmpty? {
      assert !PlatformOk("", platforms[""], pools);
    } else {
      assert !PlatformOk(e.name, platforms[e.name], pools);
    }
  }

  /** What is wrong with one platform is wrong with all of them together. */
  lemma PlatformBlameLifts(platforms: map<string, PlatformConfig>, name: string, pools: set<string>, e: ConfigError)
    requires name in platforms && BlamesPlatform(map[name := platforms[name]], pools, e)
    ensures BlamesPlatform(platforms, pools, e)
    ensures !PlatformOk(name, platforms[name], pools)
  {
    PlatformBlameMeansNotOk(map[name := platforms[name]], pools, e);
  }

  /** Exactly the platforms that are not left to do are filled, and their workspaces with them. */
  predicate Visited(given: map<string, PlatformConfig>, spaces: map<string, WorkspaceConfig>, todo: set<string>,
                    platforms: map<string, PlatformConfig>, workspaces: map<string, WorkspaceConfig>) {
    && platforms.Keys == given.Keys && workspaces.Keys == spaces.Keys
    && (forall name :: name in given ==>
          platforms[name] == if name in todo then given[name] else FilledPlatform(given[name]))
    && (forall name :: name in spaces ==>
          workspaces[name] == if name in todo then spaces[name] else FilledWorkspace(name, spaces[name], given))
  }

  lemma VisitedMore(given: map<string, PlatformConfig>, spaces: map<string, WorkspaceConfig>,
                    todo: set<string>, name: string,
                    platforms: map<string, PlatformConfig>, workspaces: map<string, WorkspaceConfig>,
                    platforms': map<string, PlatformConfig>, workspaces': map<string, WorkspaceConfig>)
    requires name in given && name !in todo
    requires Visited(given, spaces, todo + {name}, platforms, workspaces)
    requires platforms' == platforms[name := FilledPlatform(platforms[name])]
    requires workspaces' ==
      if name in workspaces then workspaces[name := FilledWorkspace(name, workspaces[name], platforms)] else workspaces
    ensures Visited(given, spaces, todo, platforms', workspaces')
  {
  }

  lemma VisitedAll(given: map<string, PlatformConfig>, spaces: map<string, WorkspaceConfig>,
                   platforms: map<string, PlatformConfig>, workspaces: map<string, WorkspaceConfig>)
    requires Visited(given, spaces, {}, platforms, workspaces)
    ensures platforms == FilledPlatforms(given) && workspaces == FilledWorkspaces(spaces, given)
  {
  }

  class Config {
    var server: ServerConfig
    var platforms: map<string, PlatformConfig>
    var credentialPools: map<string, seq<KeyConfig>>
    var scheduler: SchedulerConfig
    var management: ManagementConfig
    var clientAuth: ClientAuthConfig
    var logLevel: string
    var workspaces: map<string, WorkspaceConfig>
    var keys: seq<KeyConfig>

    function Value(): Settings
      reads this
    {
      Settings(server, platforms, credentialPools, scheduler, management, clientAuth, logLevel, workspaces, keys)
    }

    constructor (c: Settings)
      ensures Value() == c
    {
      server, platforms, credentialPools := c.server, c.platforms, c.credentialPools;
      scheduler, management, clientAuth := c.scheduler, c.management, c.clientAuth;
      logLevel, workspaces, keys := c.logLevel, c.workspaces, c.keys;
    }

    /** A deep copy. */
    method Clone() returns (c: Config)
      ensures fresh(c) && c.Value() == Value()
    {
      c := new Config(Value());
    }

    /** Accepts exactly the acceptable configurations, and then leaves the normal form; an error names a
        real defect. */
    method Validate() returns (err: Option<ConfigError>)
      modifies this
      ensures err.None? <==> Acceptable(old(Value()))
      ensures err.None? ==> Value() == Normalised(old(Value()))
      ensures err.Some? ==> Blames(old(Value()), err.value)
    {
      hide Acceptable, Blames;
      ghost var given := Value();
      err := ValidateStructure();
      if err.Some? {
        BlameMeansUnacceptable(given, err.value);
        return;
      }
      FillDefaults();
    }

    /** Everything but the scalar defaults. */
    method ValidateStructure() returns (err: Option<ConfigError>)
      modifies this`server, this`keys, this`credentialPools, this`platforms, this`workspaces
      ensures err.None? ==> Acceptable(old(Value()))
      ensures err.None? ==>
        var n := Normalised(old(Value()));
        server == n.server && keys == n.keys && credentialPools == n.credentialPools
        && platforms == n.platforms && workspaces == n.workspaces
      ensures err.Some? ==> Blames(old(Value()), err.value)
    {
      if server.port <= 0 || server.port > 65535 {
        return Some(BadPort(server.port));
      }
      ghost var m := Modern(Value());
      if server.host == "" {
        server := server.(host := "0.0.0.0");
      }
      NormalizeLegacyConfig();
      assert platforms == m.platforms && credentialPools == m.credentialPools && keys == m.keys;
      if platforms == map[] {
        return Some(NoPlatform);
      }
      if credentialPools == map[] {
        return Some(NoPool);
      }
      err := ValidateCredentialPools();
      if err.Some? {
        return;
      }
      assert credentialPools.Keys == m.credentialPools.Keys;
      err := ValidatePlatforms();
    }

    method FillDefaults()
      modifies this`scheduler, this`management, this`logLevel
      ensures scheduler == FilledScheduler(old(scheduler))
      ensures management == FilledManagement(old(management))
      ensures logLevel == if old(logLevel) == "" then "info" else old(logLevel)
    {
      FillScheduler();
      if management.logFile == "" {
        management := management.(logFile := "logs/gateway.jsonl");
      }
      if management.logReadLimit <= 0 {
        management := management.(logReadLimit := 500);
      }
      if logLevel == "" {
        logLevel := "info";
      }
    }

    method FillScheduler()
      modifies this`scheduler
      ensures scheduler == FilledScheduler(old(scheduler))
    {
      if scheduler.switchThreshold < 0 {
        scheduler := scheduler.(switchThreshold := 1);
      }
      if scheduler.rateLimitCooldownSeconds <= 0 {
        scheduler := scheduler.(rateLimitCooldownSeconds := 60);
      }
      if scheduler.errorCooldownSeconds <= 0 {
        scheduler := scheduler.(errorCooldownSeconds := 30);
      }
      if scheduler.maxErrorCount <= 0 {
        scheduler := scheduler.(maxErrorCount := 3);
      }
      if scheduler.maxRetries <= 0 {
        scheduler := scheduler.(maxRetries := 3);
      }
    }

    method NormalizeLegacyConfig()
      modifies this`keys, this`credentialPools, this`platforms
      ensures Value() == Modern(old(Value()))
    {
      LabelKeys();
      if credentialPools == map[] && keys != [] {
        credentialPools := map[DEFAULT_POOL := keys];
      }
      if platforms == map[] && workspaces != map[] {
        ConvertWorkspaces();
      }
    }

    method LabelKeys()
      modifies this`keys
      ensures keys == Labelled(old(keys))
    {
      ghost var given := keys;
      for i := 0 to |keys|
        invariant |keys| == |given|
        invariant forall j :: 0 <= j < |given| ==> keys[j] == if j < i then Labelled(given)[j] else given[j]
      {
        if keys[i].keyLabel == "" {
          keys := keys[i := keys[i].(keyLabel := Text.KeyLabel(i + 1))];
        }
      }
    }

    method ConvertWorkspaces()
      requires platforms == map[]
      modifies this`platforms
      ensures platforms == map name | name in workspaces :: FromWorkspace(workspaces[name])
    {
      var todo := workspaces.Keys;
      while todo != {}
        invariant todo <= workspaces.Keys
        invariant platforms == map name | name in workspaces.Keys - todo :: FromWorkspace(workspaces[name])
        decreases todo
      {
        var name :| name in todo;
        todo := todo - {name};
        var ws := workspaces[name];
        platforms := platforms[name :=
          PlatformConfig(
            Provider.API_SPORTS, ws.baseURL, ws.timeoutSeconds, DEFAULT_POOL, AuthConfig("", ""), NO_RATE_LIMIT)];
      }
    }

    method ValidateCredentialPools() returns (err: Option<ConfigError>)
      modifies this`credentialPools, this`keys
      ensures err.None? <==> forall name :: name in old(credentialPools) ==> PoolOk(name, old(credentialPools[name]))
      ensures err.None? ==> credentialPools == LabelledPools(old(credentialPools))
      ensures err.None? ==>
        keys == if DEFAULT_POOL in old(credentialPools) then Labelled(old(credentialPools[DEFAULT_POOL])) else old(keys)
      ensures err.Some? ==> BlamesPool(old(credentialPools), err.value)
    {
      ghost var pools, oldKeys := credentialPools, keys;
      var todo := credentialPools.Keys;
      while todo != {}
        invariant todo <= pools.Keys
        invariant forall name :: name in pools.Keys - todo ==> PoolOk(name, pools[name])
        invariant credentialPools.Keys == pools.Keys
        invariant forall name :: name in pools ==>
                    credentialPools[name] == if name in todo then pools[name] else Labelled(pools[name])
        invariant keys ==
          if DEFAULT_POOL in pools && DEFAULT_POOL !in todo then Labelled(pools[DEFAULT_POOL]) else oldKeys
        decreases todo
      {
        var name :| name in todo;
        todo := todo - {name};
        err := ValidatePool(name);
        if err.Some? {
          return;
        }
        if name == DEFAULT_POOL {
          keys := credentialPools[name];
        }
      }
      return None;
    }

    /** Checks one pool and labels its keys, writing each label through to the configuration at once. */
    method ValidatePool(name: string) returns (err: Option<ConfigError>)
      requires name in credentialPools
      modifies this`credentialPools
      ensures err.None? <==> PoolOk(name, old(credentialPools[name]))
      ensures err.None? ==> credentialPools == old(credentialPools)[name := Labelled(old(credentialPools[name]))]
      ensures err.Some? ==> BlamesPool(map[name := old(credentialPools[name])], err.value)
    {
      ghost var pools, given := credentialPools, credentialPools[name];
      if name == "" {
        return Some(PoolNameEmpty);
      }
      if '/' in name {
        return Some(PoolNameSlash(name));
      }
      if credentialPools[name] == [] {
        return Some(PoolEmpty(name));
      }
      for i := 0 to |credentialPools[name]|
        invariant name in credentialPools && |credentialPools[name]| == |given|
        invariant credentialPools == pools[name := credentialPools[name]]
        invariant forall j :: 0 <= j < |given| ==>
                    credentialPools[name][j] == if j < i then Labelled(given)[j] else given[j]
        invariant forall j :: 0 <= j < i ==> given[j].key != ""
      {
        var k := credentialPools[name][i];
        if k.keyLabel == "" {
          k := k.(keyLabel := Text.KeyLabel(i + 1));
          credentialPools := credentialPools[name := credentialPools[name][i := k]];
        }
        assert k == Labelled(given)[i];
        if k.key == "" {
          return Some(KeyEmpty(name, k.keyLabel));
        }
      }
      assert credentialPools[name] == Labelled(given);
      return None;
    }

    method ValidatePlatforms() returns (err: Option<ConfigError>)
      modifies this`platforms, this`workspaces
      ensures err.None? <==>
        forall name :: name in old(platforms) ==> PlatformOk(name, old(platforms[name]), credentialPools.Keys)
      ensures err.None? ==> platforms == FilledPlatforms(old(platforms))
      ensures err.None? ==> workspaces == FilledWorkspaces(old(workspaces), old(platforms))
      ensures err.Some? ==> BlamesPlatform(old(platforms), credentialPools.Keys, err.value)
    {
      ghost var given, spaces := platforms, workspaces;
      var todo := platforms.Keys;
      while todo != {}
        invariant todo <= given.Keys
        invariant forall name :: name in given.Keys - todo ==> PlatformOk(name, given[name], credentialPools.Keys)
        invariant Visited(given, spaces, todo, platforms, workspaces)
        decreases todo
      {
        ghost var filled, filledSpaces := platforms, workspaces;
        var name :| name in todo;
        todo := todo - {name};
        err := ValidatePlatform(name);
        if err.Some? {
          PlatformBlameLifts(given, name, credentialPools.Keys, err.value);
          return;
        }
        VisitedMore(given, spaces, todo, name, filled, filledSpaces, platforms, workspaces);
      }
      VisitedAll(given, spaces, platforms, workspaces);
      return None;
    }

    /** Checks one platform and fills its defaults, and those of the workspace of the same name. */
    method ValidatePlatform(name: string) returns (err: Option<ConfigError>)
      requires name in platforms
      modifies this`platforms, this`workspaces
      ensures err.None? <==> PlatformOk(name, old(platforms[name]), credentialPools.Keys)
      ensures err.None? ==> platforms == old(platforms)[name := FilledPlatform(old(platforms[name]))]
      ensures err.None? ==>
        workspaces == if name in old(workspaces)
                      then old(workspaces)[name := FilledWorkspace(name, old(workspaces[name]), old(platforms))]
                      else old(workspaces)
      ensures err.Some? ==> BlamesPlatform(map[name := old(platforms[name])], credentialPools.Keys, err.value)
    {
      var platform := platforms[name];
      err := CheckPlatform(name, platform, credentialPools.Keys);
      if err.Some? {
        return;
      }
      if platform.timeoutSeconds <= 0 {
        platform := platform.(timeoutSeconds := 30);
      }
      if platform.credentialPool == "" {
        platform := platform.(credentialPool := DEFAULT_POOL);
      }
      platforms := platforms[name := platform];
      if name in workspaces && workspaces[name].timeoutSeconds <= 0 {
        workspaces := workspaces[name := workspaces[name].(timeoutSeconds := platform.timeoutSeconds)];
      }
    }

    /** The checks on one platform, in the order in which they are made. */
    static method CheckPlatform(name: string, platform: PlatformConfig, pools: set<string>)
      returns (err: Option<ConfigError>)
      ensures err.None? <==> PlatformOk(name, platform, pools)
      ensures err.Some? ==> BlamesPlatform(map[name := platform], pools, err.value)
    {
      if name == "" {
        return Some(PlatformNameEmpty);
      }
      if '/' in name {
        return Some(PlatformNameSlash(name));
      }
      if platform.typ == "" {
        return Some(TypeEmpty(name));
      }
      if platform.typ != Provider.API_SPORTS && platform.typ != Provider.GENERIC_HTTP {
        return Some(TypeUnknown(name, platform.typ));
      }
      if platform.baseURL == "" {
        return Some(BaseURLEmpty(name));
      }
      var pool := if platform.credentialPool == "" then DEFAULT_POOL else platform.credentialPool;
      if pool !in pools {
        return Some(PoolUnknown(name, pool));
      }
      if platform.typ == Provider.GENERIC_HTTP && Text.TrimSpace(platform.auth.header) == "" {
        return Some(AuthHeaderMissing(name));
      }
      return None;
    }
  }

  // ---------------------------------------------------------------- the configuration file

  /** What happens when the file is written: a failed write can leave anything behind. */
  datatype Write = Written | WriteFailed(left: Option<Settings>)

  datatype SaveError = Invalid(error: ConfigError) | NotWritten

  /** The file on disk; None when it holds no readable configuration. */
  class File {
    var saved: Option<Settings>

    constructor (saved: Option<Settings>)
      ensures this.saved == saved
    {
      this.saved := saved;
    }

    /** Writes the validated form of a configuration, leaving the configuration itself alone. */
    method Save(cfg: Config, write: Write) returns (err: Option<SaveError>)
      modifies this
      ensures err.None? <==> Acceptable(cfg.Value()) && write.Written?
      ensures saved ==
        if !Acceptable(cfg.Value()) then old(saved)
        else if write.Written? then Some(Normalised(cfg.Value())) else write.left
    {
      var next := cfg.Clone();
      var invalid := next.Validate();
      if invalid.Some? {
        return Some(Invalid(invalid.value));
      }
      match write {
        case Written =>
          saved := Some(next.Value());
          return None;
        case WriteFailed(left) =>
          saved := left;
          return Some(NotWritten);
      }
    }
  }
}
