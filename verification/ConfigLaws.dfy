/** Validation in terms of the fields of a configuration: which ones it accepts, what it keeps, and what it
    puts where nothing was given. */
module ConfigLaws {
  import opened ConfigModel
  import Provider
  import Text

  // ---------------------------------------------------------------- what is accepted

  /** The pools there will be: those given, or the one made of the legacy keys. */
  function PoolNames(c: Settings): set<string> {
    if c.credentialPools != map[] then c.credentialPools.Keys else {"default"}
  }

  predicate GoodName(name: string) {
    name != "" && forall i :: 0 <= i < |name| ==> name[i] != '/'
  }

  predicate HaveSecrets(keys: seq<KeyConfig>) {
    keys != [] && forall i :: 0 <= i < |keys| ==> keys[i].key != ""
  }

  predicate GoodPlatform(p: PlatformConfig, pools: set<string>) {
    && (p.typ == "api_sports" || p.typ == "generic_http")
    && p.baseURL != ""
    && (if p.credentialPool == "" then "default" in pools else p.credentialPool in pools)
    && (p.typ == "generic_http" ==> !Text.Blank(p.auth.header))
  }

  /** A configuration is accepted if and only if its port is one, it has a platform and a pool, given or in the
      legacy form, and each is good: a name without a slash, keys with secrets, a known type, a base URL, a pool
      that exists, and a credential header for a generic platform. */
  lemma {:induction false} AcceptableIff(c: Settings)
    ensures Acceptable(c) <==>
      && 1 <= c.server.port <= 65535
      && (if c.credentialPools != map[]
          then forall name :: name in c.credentialPools ==> GoodName(name) && HaveSecrets(c.credentialPools[name])
          else HaveSecrets(c.keys))
      && (if c.platforms != map[]
          then forall name :: name in c.platforms ==> GoodName(name) && GoodPlatform(c.platforms[name], PoolNames(c))
          else
            && c.workspaces != map[]
            && forall name :: name in c.workspaces ==>
                 GoodName(name) && c.workspaces[name].baseURL != "" && "default" in PoolNames(c))
  {
    var m := Modern(c);
    if c.credentialPools == map[] && c.keys != [] {
      LabelledIsIdempotent(c.keys);
      assert m.credentialPools.Keys == {"default"};
      assert HaveSecrets(Labelled(c.keys)) <==> HaveSecrets(c.keys);
    }
    forall name, keys
      ensures PoolOk(name, keys) <==> GoodName(name) && HaveSecrets(keys)
    {
    }
    forall name, p, pools
      ensures PlatformOk(name, p, pools) <==> GoodName(name) && GoodPlatform(p, pools)
    {
      Text.TrimSpaceLaw(p.auth.header);
    }
    if c.platforms == map[] && c.workspaces != map[] {
      var name :| name in c.workspaces;
      assert name in m.platforms;
      forall name | name in c.workspaces
        ensures GoodPlatform(m.platforms[name], PoolNames(c)) <==>
          c.workspaces[name].baseURL != "" && "default" in PoolNames(c)
      {
      }
    }
  }

  // ---------------------------------------------------------------- what is kept, and the defaults

  /** Numbers above 0, a threshold of at least 0, and texts that are not empty stay as given; where nothing was
      given, the documented default is put. */
  lemma GivenSettingsStay(c: Settings)
    requires Acceptable(c)
    ensures var v := Normalised(c);
      && v.server.port == c.server.port
      && v.server.host == (if c.server.host != "" then c.server.host else "0.0.0.0")
      && v.scheduler.switchThreshold == (if c.scheduler.switchThreshold >= 0 then c.scheduler.switchThreshold else 1)
      && v.scheduler.rateLimitCooldownSeconds ==
           (if c.scheduler.rateLimitCooldownSeconds > 0 then c.scheduler.rateLimitCooldownSeconds else 60)
      && v.scheduler.errorCooldownSeconds ==
           (if c.scheduler.errorCooldownSeconds > 0 then c.scheduler.errorCooldownSeconds else 30)
      && v.scheduler.maxErrorCount == (if c.scheduler.maxErrorCount > 0 then c.scheduler.maxErrorCount else 3)
      && v.scheduler.maxRetries == (if c.scheduler.maxRetries > 0 then c.scheduler.maxRetries else 3)
      && v.management.adminKey == c.management.adminKey
      && v.management.logFile == (if c.management.logFile != "" then c.management.logFile else "logs/gateway.jsonl")
      && v.management.logReadLimit == (if c.management.logReadLimit > 0 then c.management.logReadLimit else 500)
      && v.logLevel == (if c.logLevel != "" then c.logLevel else "info")
      && v.clientAuth == c.clientAuth
  {
  }

  /** Given platforms are never replaced by the legacy ones, and keep all they say. */
  lemma GivenPlatformsStay(c: Settings)
    requires Acceptable(c) && c.platforms != map[]
    ensures var v := Normalised(c);
      && v.platforms.Keys == c.platforms.Keys
      && forall name :: name in c.platforms ==>
           var p, q := c.platforms[name], v.platforms[name];
           && q.typ == p.typ && q.baseURL == p.baseURL && q.auth == p.auth && q.rateLimit == p.rateLimit
           && q.credentialPool == (if p.credentialPool != "" then p.credentialPool else "default")
           && q.timeoutSeconds == (if p.timeoutSeconds > 0 then p.timeoutSeconds else 30)
  {
  }

  /** The keys after validation are those given, in order, with their secrets; a key without a label is called
      by its position. */
  predicate KeysStay(given: seq<KeyConfig>, after: seq<KeyConfig>) {
    && |after| == |given|
    && forall i :: 0 <= i < |given| ==>
         && after[i].key == given[i].key
         && after[i].keyLabel == (if given[i].keyLabel != "" then given[i].keyLabel else "key-" + Text.Decimal(i + 1))
  }

  /** Given pools are never replaced by the legacy keys. */
  lemma GivenPoolsStay(c: Settings)
    requires Acceptable(c) && c.credentialPools != map[]
    ensures var v := Normalised(c);
      && v.credentialPools.Keys == c.credentialPools.Keys
      && forall name :: name in c.credentialPools ==> KeysStay(c.credentialPools[name], v.credentialPools[name])
  {
  }

  /** Without given platforms each legacy workspace makes one, on the default pool. */
  lemma WorkspacesStandIn(c: Settings)
    requires Acceptable(c) && c.platforms == map[]
    ensures var v := Normalised(c);
      && v.platforms.Keys == c.workspaces.Keys
      && forall name :: name in c.workspaces ==>
           var ws, p := c.workspaces[name], v.platforms[name];
           && p.typ == "api_sports" && p.baseURL == ws.baseURL && p.credentialPool == "default"
           && p.timeoutSeconds == (if ws.timeoutSeconds > 0 then ws.timeoutSeconds else 30)
           && p.auth == AuthConfig("", "") && p.rateLimit == Provider.RateLimitConfig("", "", "", "")
  {
  }

  /** Without given pools the legacy keys make the default one. */
  lemma KeysStandIn(c: Settings)
    requires Acceptable(c) && c.credentialPools == map[]
    ensures var v := Normalised(c);
      v.credentialPools.Keys == {"default"} && KeysStay(c.keys, v.credentialPools["default"])
  {
    LabelledIsIdempotent(c.keys);
  }

  /** The legacy list becomes that of the default pool if there is one, and else keeps its keys; workspaces keep
      their base URLs, and a missing timeout is that of the platform of the same name if there is one. */
  lemma LegacyPartsFollow(c: Settings)
    requires Acceptable(c)
    ensures var v := Normalised(c);
      && (if "default" in v.credentialPools then v.keys == v.credentialPools["default"] else KeysStay(c.keys, v.keys))
      && v.workspaces.Keys == c.workspaces.Keys
      && forall name :: name in c.workspaces ==>
           var ws, after := c.workspaces[name], v.workspaces[name];
           && after.baseURL == ws.baseURL
           && after.timeoutSeconds == (if ws.timeoutSeconds <= 0 && name in v.platforms
                                       then v.platforms[name].timeoutSeconds else ws.timeoutSeconds)
  {
  }
}
