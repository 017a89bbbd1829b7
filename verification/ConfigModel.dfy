/** Configurations as values: which ones validation accepts, and what it turns them into. */
module ConfigModel {
  import Text
  import Provider

  datatype KeyConfig = KeyConfig(keyLabel: string, key: string)

  datatype ServerConfig = ServerConfig(host: string, port: int)

  datatype WorkspaceConfig = WorkspaceConfig(baseURL: string, timeoutSeconds: int)

  datatype AuthConfig = AuthConfig(header: string, prefix: string)

  datatype PlatformConfig = PlatformConfig(
    typ: string, baseURL: string, timeoutSeconds: int, credentialPool: string,
    auth: AuthConfig, rateLimit: Provider.RateLimitConfig)

  datatype SchedulerConfig = SchedulerConfig(
    switchThreshold: int, rateLimitCooldownSeconds: int, errorCooldownSeconds: int, maxErrorCount: int, maxRetries: int)

  datatype ManagementConfig = ManagementConfig(adminKey: string, logFile: string, logReadLimit: int)

  datatype ClientAuthConfig = ClientAuthConfig(enabled: bool, tokens: seq<string>)

  /** The value of a whole configuration. */
  datatype Settings = Settings(
    server: ServerConfig, platforms: map<string, PlatformConfig>, credentialPools: map<string, seq<KeyConfig>>,
    scheduler: SchedulerConfig, management: ManagementConfig, clientAuth: ClientAuthConfig, logLevel: string,
    workspaces: map<string, WorkspaceConfig>, keys: seq<KeyConfig>)

  const DEFAULT_POOL := "default"
  const NO_RATE_LIMIT := Provider.RateLimitConfig("", "", "", "")

  // ---------------------------------------------------------------- the legacy form

  /** Keys without a label get one from their position, counted from 1. */
  function Labelled(keys: seq<KeyConfig>): (labelled: seq<KeyConfig>)
    ensures |labelled| == |keys|
  {
    seq(|keys|, i requires 0 <= i < |keys| =>
      if keys[i].keyLabel == "" then keys[i].(keyLabel := Text.KeyLabel(i + 1)) else keys[i])
  }

  function FromWorkspace(ws: WorkspaceConfig): PlatformConfig {
    PlatformConfig(Provider.API_SPORTS, ws.baseURL, ws.timeoutSeconds, DEFAULT_POOL, AuthConfig("", ""), NO_RATE_LIMIT)
  }

  /** The legacy keys and workspaces stand in for missing pools and platforms. */
  function Modern(c: Settings): Settings {
    c.(keys := Labelled(c.keys),
       credentialPools :=
         if c.credentialPools == map[] && c.keys != [] then map[DEFAULT_POOL := Labelled(c.keys)]
         else c.credentialPools,
       platforms :=
         if c.platforms == map[] && c.workspaces != map[]
         then map name | name in c.workspaces :: FromWorkspace(c.workspaces[name])
         else c.platforms)
  }

  // ---------------------------------------------------------------- what is accepted

  predicate PoolOk(name: string, keys: seq<KeyConfig>) {
    && name != "" && '/' !in name
    && keys != [] && forall i :: 0 <= i < |keys| ==> keys[i].key != ""
  }

  function FilledPlatform(p: PlatformConfig): PlatformConfig {
    p.(timeoutSeconds := if p.timeoutSeconds <= 0 then 30 else p.timeoutSeconds,
       credentialPool := if p.credentialPool == "" then DEFAULT_POOL else p.credentialPool)
  }

  predicate PlatformOk(name: string, p: PlatformConfig, pools: set<string>) {
    && name != "" && '/' !in name
    && (p.typ == Provider.API_SPORTS || p.typ == Provider.GENERIC_HTTP)
    && p.baseURL != ""
    && FilledPlatform(p).credentialPool in pools
    && (p.typ == Provider.GENERIC_HTTP ==> Text.TrimSpace(p.auth.header) != "")
  }

  predicate Acceptable(c: Settings) {
    var m := Modern(c);
    && 0 < c.server.port <= 65535
    && m.platforms != map[] && m.credentialPools != map[]
    && (forall name :: name in m.credentialPools ==> PoolOk(name, m.credentialPools[name]))
    && (forall name :: name in m.platforms ==> PlatformOk(name, m.platforms[name], m.credentialPools.Keys))
  }

  // ---------------------------------------------------------------- what it becomes

  function LabelledPools(pools: map<string, seq<KeyConfig>>): map<string, seq<KeyConfig>> {
    map name | name in pools :: Labelled(pools[name])
  }

  function FilledPlatforms(platforms: map<string, PlatformConfig>): map<string, PlatformConfig> {
    map name | name in platforms :: FilledPlatform(platforms[name])
  }

  /** A workspace without a timeout takes that of the platform of the same name. */
  function FilledWorkspace(name: string, ws: WorkspaceConfig, platforms: map<string, PlatformConfig>): WorkspaceConfig {
    if name in platforms && ws.timeoutSeconds <= 0
    then ws.(timeoutSeconds := FilledPlatform(platforms[name]).timeoutSeconds)
    else ws
  }

  function FilledWorkspaces(
      workspaces: map<string, WorkspaceConfig>, platforms: map<string, PlatformConfig>): map<string, WorkspaceConfig> {
    map name | name in workspaces :: FilledWorkspace(name, workspaces[name], platforms)
  }

  function OrDefault(n: int, default: int): int {
    if n <= 0 then default else n
  }

  function FilledScheduler(s: SchedulerConfig): SchedulerConfig {
    SchedulerConfig(
      if s.switchThreshold < 0 then 1 else s.switchThreshold,
      OrDefault(s.rateLimitCooldownSeconds, 60), OrDefault(s.errorCooldownSeconds, 30),
      OrDefault(s.maxErrorCount, 3), OrDefault(s.maxRetries, 3))
  }

  function FilledManagement(m: ManagementConfig): ManagementConfig {
    m.(logFile := if m.logFile == "" then "logs/gateway.jsonl" else m.logFile,
       logReadLimit := OrDefault(m.logReadLimit, 500))
  }

  /** The configuration validation makes of an acceptable one. */
  function Normalised(c: Settings): Settings {
    var m := Modern(c);
    Settings(
      ServerConfig(if c.server.host == "" then "0.0.0.0" else c.server.host, c.server.port),
      FilledPlatforms(m.platforms), LabelledPools(m.credentialPools),
      FilledScheduler(c.scheduler),
      FilledManagement(c.management), c.clientAuth, if c.logLevel == "" then "info" else c.logLevel,
      FilledWorkspaces(c.workspaces, m.platforms),
      if DEFAULT_POOL in m.credentialPools then Labelled(m.credentialPools[DEFAULT_POOL]) else m.keys)
  }

  // ---------------------------------------------------------------- validating twice

  /** Labels given by position are never empty, so a second pass gives none. */
  lemma LabelledIsIdempotent(keys: seq<KeyConfig>)
    ensures Labelled(Labelled(keys)) == Labelled(keys)
    ensures forall i :: 0 <= i < |keys| ==> Labelled(keys)[i].keyLabel != "" && Labelled(keys)[i].key == keys[i].key
  {
  }

  /** A normalised configuration holds nothing left to convert from the legacy form. */
  lemma NormalisedIsModern(c: Settings)
    requires Acceptable(c)
    ensures Modern(Normalised(c)) == Normalised(c)
  {
    var m, v := Modern(c), Normalised(c);
    LabelledIsIdempotent(c.keys);
    if DEFAULT_POOL in m.credentialPools {
      LabelledIsIdempotent(m.credentialPools[DEFAULT_POOL]);
    }
    var pool :| pool in m.credentialPools;
    assert pool in v.credentialPools;
    var platform :| platform in m.platforms;
    assert platform in v.platforms;
  }

  lemma PoolsTwice(pools: map<string, seq<KeyConfig>>)
    requires forall name :: name in pools ==> PoolOk(name, pools[name])
    ensures var once := LabelledPools(pools);
      && once.Keys == pools.Keys && LabelledPools(once) == once
      && forall name :: name in once ==> PoolOk(name, once[name])
  {
    var once := LabelledPools(pools);
    forall name | name in once
      ensures PoolOk(name, once[name]) && Labelled(once[name]) == once[name]
    {
      assert PoolOk(name, pools[name]);
      LabelledIsIdempotent(pools[name]);
    }
    assert LabelledPools(once) == once;
  }

  lemma PlatformsTwice(
      platforms: map<string, PlatformConfig>, workspaces: map<string, WorkspaceConfig>, pools: set<string>)
    requires forall name :: name in platforms ==> PlatformOk(name, platforms[name], pools)
    ensures var once := FilledPlatforms(platforms);
      && once.Keys == platforms.Keys && FilledPlatforms(once) == once
      && (forall name :: name in once ==> PlatformOk(name, once[name], pools))
    ensures var filled := FilledWorkspaces(workspaces, platforms);
      FilledWorkspaces(filled, FilledPlatforms(platforms)) == filled
  {
    var once := FilledPlatforms(platforms);
    forall name | name in once
      ensures PlatformOk(name, once[name], pools) && FilledPlatform(once[name]) == once[name]
    {
      assert PlatformOk(name, platforms[name], pools);
    }
    assert FilledPlatforms(once) == once;
    var filled := FilledWorkspaces(workspaces, platforms);
    assert FilledWorkspaces(filled, once) == filled;
  }

  /** Validating the result of a successful validation succeeds again, and changes nothing. */
  lemma ValidationIsIdempotent(c: Settings)
    requires Acceptable(c)
    ensures Acceptable(Normalised(c))
    ensures Normalised(Normalised(c)) == Normalised(c)
  {
    hide PoolOk, PlatformOk, FilledPlatform, FilledPlatforms, FilledWorkspaces;
    var m, v := Modern(c), Normalised(c);
    NormalisedIsModern(c);
    PoolsTwice(m.credentialPools);
    PlatformsTwice(m.platforms, c.workspaces, m.credentialPools.Keys);
    assert v.credentialPools.Keys != {} && v.platforms.Keys != {};
  }

  /** After validation the legacy key list mirrors the default pool, when there is one, and every pool's
      keys keep their order and their secrets. */
  lemma NormalisedKeys(c: Settings, name: string, i: nat)
    requires Acceptable(c)
    requires name in Modern(c).credentialPools && i < |Modern(c).credentialPools[name]|
    ensures var v := Normalised(c);
      && (DEFAULT_POOL in v.credentialPools ==> v.keys == v.credentialPools[DEFAULT_POOL])
      && |v.credentialPools[name]| == |Modern(c).credentialPools[name]|
      && v.credentialPools[name][i].key == Modern(c).credentialPools[name][i].key
      && v.credentialPools[name][i].keyLabel != ""
  {
    LabelledIsIdempotent(Modern(c).credentialPools[name]);
  }

  // ---------------------------------------------------------------- default labels and duplicates

  predicate UniqueLabels(keys: seq<KeyConfig>) {
    forall i, j :: 0 <= i < j < |keys| ==> keys[i].keyLabel != keys[j].keyLabel
  }

  /** No two given labels agree, and none is the label some unlabelled key will get. */
  predicate NoLabelClash(keys: seq<KeyConfig>) {
    && (forall i, j :: 0 <= i < j < |keys| && keys[i].keyLabel != "" ==> keys[i].keyLabel != keys[j].keyLabel)
    && (forall i, j :: 0 <= i < |keys| && 0 <= j < |keys| && keys[i].keyLabel == "" ==>
          keys[j].keyLabel != Text.KeyLabel(i + 1))
  }

  /** Validation never rejects duplicate labels, and its own defaults can create them: the labels of a
      validated pool are distinct exactly when the given ones do not clash. */
  lemma LabelsDistinctIff(keys: seq<KeyConfig>)
    ensures UniqueLabels(Labelled(keys)) <==> NoLabelClash(keys)
  {
    var labelled := Labelled(keys);
    if NoLabelClash(keys) {
      forall i, j | 0 <= i < j < |keys|
        ensures labelled[i].keyLabel != labelled[j].keyLabel
      {
        if labelled[i].keyLabel == labelled[j].keyLabel && keys[i].keyLabel == "" && keys[j].keyLabel == "" {
          Text.KeyLabelInjective(i + 1, j + 1);
        }
      }
    }
    if UniqueLabels(labelled) {
      forall i, j | 0 <= i < j < |keys| && keys[i].keyLabel != ""
        ensures keys[i].keyLabel != keys[j].keyLabel
      {
        assert labelled[i].keyLabel != labelled[j].keyLabel;
      }
      forall i, j | 0 <= i < |keys| && 0 <= j < |keys| && keys[i].keyLabel == ""
        ensures keys[j].keyLabel != Text.KeyLabel(i + 1)
      {
        if i < j {
          assert labelled[i].keyLabel != labelled[j].keyLabel;
        } else if j < i {
          assert labelled[j].keyLabel != labelled[i].keyLabel;
        }
      }
    }
  }

  /** Two keys, the first labelled key-2 and the second not labelled: a valid pool with a duplicate. */
  lemma DefaultLabelCanClash(a: string, b: string)
    requires a != "" && b != ""
    ensures var keys := [KeyConfig(Text.KeyLabel(2), a), KeyConfig("", b)];
      PoolOk("pool", keys) && !UniqueLabels(Labelled(keys))
  {
    var keys := [KeyConfig(Text.KeyLabel(2), a), KeyConfig("", b)];
    assert Labelled(keys)[0].keyLabel == Labelled(keys)[1].keyLabel;
  }
}
