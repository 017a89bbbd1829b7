/** Building the runtime from a configuration, and replacing both together while requests are served. */
module Gateway {
  import opened Wrappers
  import opened Calendar
  import opened ConfigModel
  import Config
  import KeyModel
  import Keypool
  import Provider
  import Proxy
  import ProxyModel
  import Text

  type Pools = map<string, Keypool.Pool>

  // ---------------------------------------------------------------- what a configuration asks for

  function PoolOptions(s: SchedulerConfig): KeyModel.Options {
    KeyModel.Options(
      s.switchThreshold, s.rateLimitCooldownSeconds * SECOND, s.errorCooldownSeconds * SECOND, s.maxErrorCount)
  }

  function Entries(keys: seq<KeyConfig>): (entries: seq<KeyModel.KeyEntry>)
    ensures |entries| == |keys|
  {
    seq(|keys|, i requires 0 <= i < |keys| => KeyModel.KeyEntry(keys[i].keyLabel, keys[i].key))
  }

  function ProviderOf(p: PlatformConfig): Result<Provider.Provider> {
    Provider.New(p.typ, p.auth.header, p.auth.prefix, p.rateLimit)
  }

  /** A platform whose pool is not configured gets none. */
  function PoolFor(name: string, pools: Pools): Keypool.Pool? {
    if name in pools then pools[name] else null
  }

  function UpstreamOf(p: PlatformConfig, pools: Pools): Proxy.PlatformUpstream
    requires ProviderOf(p).Ok?
  {
    var provider := ProviderOf(p).value;
    Proxy.PlatformUpstream(
      p.baseURL, Some(provider), PoolFor(p.credentialPool, pools), p.credentialPool, provider.header)
  }

  /** The pool has these keys, in this order. */
  ghost predicate Holds(pool: Keypool.Pool, keys: seq<KeyConfig>) {
    && |pool.keys| == |keys|
    && forall i :: 0 <= i < |keys| ==> pool.keys[i].keyLabel == keys[i].keyLabel && pool.keys[i].key == keys[i].key
  }

  /** One pool object for each configured pool, holding its keys; no two share a key object. */
  ghost predicate PoolsFor(c: Settings, pools: Pools) {
    && pools.Keys == c.credentialPools.Keys
    && (forall name :: name in pools ==>
          && pools[name].Valid() && pools[name].opts == PoolOptions(c.scheduler)
          && Holds(pools[name], c.credentialPools[name]))
    && (forall a, b :: a in pools && b in pools && a != b ==>
          pools[a] != pools[b] && pools[a].Repr() !! pools[b].Repr())
  }

  /** The handler and the pools are what this configuration asks for. */
  ghost predicate BuiltFor(c: Settings, handler: Proxy.Handler, pools: Pools) {
    && PoolsFor(c, pools)
    && handler.Valid()
    && handler.maxRetries == (if c.scheduler.maxRetries < 1 then 1 else c.scheduler.maxRetries)
    && handler.platforms.Keys == c.platforms.Keys
    && forall name :: name in c.platforms ==>
         && ProviderOf(c.platforms[name]).Ok?
         && handler.platforms[name] == Proxy.RuntimeOf(Proxy.Defaulted(UpstreamOf(c.platforms[name], pools), null))
  }

  // ---------------------------------------------------------------- validated configurations

  /** A configuration as validation leaves it. */
  predicate Validated(c: Settings) {
    Acceptable(c) && Normalised(c) == c
  }

  lemma NormalisedIsValidated(c: Settings)
    requires Acceptable(c)
    ensures Validated(Normalised(c))
  {
    ValidationIsIdempotent(c);
  }

  /** Validation leaves a platform and a pool that the builder accepts. */
  lemma ValidatedParts(c: Settings)
    requires Validated(c)
    ensures forall name :: name in c.platforms ==>
      && PlatformOk(name, c.platforms[name], c.credentialPools.Keys)
      && FilledPlatform(c.platforms[name]) == c.platforms[name]
    ensures forall name :: name in c.credentialPools ==> PoolOk(name, c.credentialPools[name])
    ensures c.scheduler == FilledScheduler(c.scheduler)
  {
    NormalisedIsModern(c);
    forall name | name in c.platforms
      ensures FilledPlatform(c.platforms[name]) == c.platforms[name]
    {
      assert c.platforms == FilledPlatforms(c.platforms);
    }
  }

  /** No provider of a validated configuration is refused, so building from it cannot fail. */
  lemma ValidatedAlwaysBuilds(c: Settings)
    requires Validated(c)
    ensures forall name :: name in c.platforms ==> ProviderOf(c.platforms[name]).Ok?
  {
    ValidatedParts(c);
    forall name | name in c.platforms
      ensures ProviderOf(c.platforms[name]).Ok?
    {
      assert PlatformOk(name, c.platforms[name], c.credentialPools.Keys);
    }
  }

  lemma ValidatedPlatformHasPool(c: Settings, handler: Proxy.Handler, pools: Pools, name: string)
    requires Validated(c) && BuiltFor(c, handler, pools) && name in c.platforms
    ensures c.platforms[name].credentialPool in pools
    ensures handler.platforms[name].pool == pools[c.platforms[name].credentialPool]
    ensures handler.platforms[name].pool.keys != [] && handler.platforms[name].pool.opts == PoolOptions(c.scheduler)
  {
    ValidatedParts(c);
    var pool := c.platforms[name].credentialPool;
    assert PlatformOk(name, c.platforms[name], c.credentialPools.Keys) && pool in c.credentialPools;
    assert PoolOk(pool, c.credentialPools[pool]) && Holds(pools[pool], c.credentialPools[pool]);
  }

  /** In the runtime of a validated configuration every platform has a pool with keys, cooldowns of at least
      a second and a positive error limit. */
  lemma ValidatedRuntimeIsComplete(c: Settings, handler: Proxy.Handler, pools: Pools)
    requires Validated(c) && BuiltFor(c, handler, pools)
    ensures forall name :: name in handler.platforms ==>
      var pool := handler.platforms[name].pool;
      && pool != null && pool.keys != []
      && pool.opts.rateLimitCooldown >= SECOND && pool.opts.errorCooldown >= SECOND
      && pool.opts.maxErrorCount > 0 && pool.opts.switchThreshold >= 0
    ensures handler.maxRetries == c.scheduler.maxRetries >= 1
  {
    hide Validated;
    forall name | name in handler.platforms
      ensures handler.platforms[name].pool != null && handler.platforms[name].pool.keys != []
      ensures handler.platforms[name].pool.opts == PoolOptions(c.scheduler)
    {
      ValidatedPlatformHasPool(c, handler, pools, name);
    }
    ValidatedParts(c);
  }

  /** Two platforms share one pool object exactly when they name the same credential pool. */
  lemma PoolsAreSharedByName(c: Settings, handler: Proxy.Handler, pools: Pools, a: string, b: string)
    requires Validated(c) && BuiltFor(c, handler, pools)
    requires a in c.platforms && b in c.platforms
    ensures handler.platforms[a].pool == handler.platforms[b].pool
      <==> c.platforms[a].credentialPool == c.platforms[b].credentialPool
    ensures c.platforms[a].credentialPool != c.platforms[b].credentialPool ==>
      handler.platforms[a].pool.Repr() !! handler.platforms[b].pool.Repr()
  {
    ValidatedPlatformHasPool(c, handler, pools, a);
    ValidatedPlatformHasPool(c, handler, pools, b);
  }

  /** Whatever configuration a runtime was built from, validated or not, a request ends in
      platform_misconfigured exactly when it is routed and authorised and its platform names a pool
      that is not configured. */
  lemma MisconfiguredIff(c: Settings, handler: Proxy.Handler, pools: Pools, r: Proxy.Request)
    requires BuiltFor(c, handler, pools)
    ensures var name := Proxy.SplitPlatform(r.path).0;
      handler.Refusal(r) == Some(ProxyModel.GatewayError(500, "platform_misconfigured", 0))
      <==> name in c.platforms && r.authorised && c.platforms[name].credentialPool !in c.credentialPools
  {
  }

  lemma ValidatedRouting(c: Settings, handler: Proxy.Handler, pools: Pools, name: string)
    requires Validated(c) && BuiltFor(c, handler, pools)
    ensures handler.Valid() && handler.maxRetries == c.scheduler.maxRetries
    ensures name in handler.platforms <==> name in c.platforms
    ensures name in c.platforms ==>
      && c.platforms[name].credentialPool in pools
      && handler.platforms[name].pool == pools[c.platforms[name].credentialPool]
  {
    if name in c.platforms {
      ValidatedPlatformHasPool(c, handler, pools, name);
    }
    ValidatedRuntimeIsComplete(c, handler, pools);
  }

  /** So no request to a validated runtime is refused as misconfigured. */
  lemma ValidatedIsNeverMisconfigured(c: Settings, handler: Proxy.Handler, pools: Pools, r: Proxy.Request)
    requires Validated(c) && BuiltFor(c, handler, pools)
    ensures handler.Refusal(r).Some? ==> handler.Refusal(r).value.status in {400, 401, 404}
  {
    var name := Proxy.SplitPlatform(r.path).0;
    if name in c.platforms {
      ValidatedPlatformHasPool(c, handler, pools, name);
    }
  }

  lemma ValidatedName(c: Settings, name: string)
    requires Validated(c) && name in c.platforms
    ensures name != "" && '/' !in name && ProviderOf(c.platforms[name]).Ok?
  {
    ValidatedParts(c);
    assert PlatformOk(name, c.platforms[name], c.credentialPools.Keys);
  }

  lemma BuiltTransport(c: Settings, handler: Proxy.Handler, pools: Pools, name: string)
    requires BuiltFor(c, handler, pools) && name in c.platforms
    ensures name in handler.platforms && ProviderOf(c.platforms[name]).Ok?
    ensures handler.platforms[name].transport
      == Provider.NewTransport(c.platforms[name].baseURL, ProviderOf(c.platforms[name]).value)
  {
  }

  /** Every namespace validation accepts is reached under its own name, and its requests go to its own base
      URL, without trailing slashes, followed by the rest of the path. */
  lemma NamespacesAreRouted(c: Settings, handler: Proxy.Handler, pools: Pools, name: string, rest: string,
                            query: string, body: Option<Provider.Bytes>, key: string)
    requires Validated(c) && BuiltFor(c, handler, pools)
    requires name in c.platforms && rest != "" && rest[0] == '/'
    ensures Proxy.SplitPlatform("/" + name + rest) == (name, rest)
    ensures var sent := Provider.RequestFor(handler.platforms[name].transport, rest, query, body, key);
      && sent.url == Text.TrimRightSlash(c.platforms[name].baseURL) + rest + (if query == "" then "" else "?" + query)
      && sent.header == ProviderOf(c.platforms[name]).value.header
  {
    hide Validated, BuiltFor;
    ValidatedName(c, name);
    Proxy.SplitPlatformRoundTrip(name, rest);
    BuiltTransport(c, handler, pools, name);
    Provider.RequestShape(handler.platforms[name].transport, rest, query, body, key);
  }

  /** What a validated platform asks for is what its requests and its pool are like: the credential goes out
      under the configured header behind the configured prefix, the quota is read from the configured headers,
      and the pool has the configured keys and times. The built-in type has its own header and no prefix. */
  lemma {:induction false} PlatformsAreBuiltAsConfigured(
      c: Settings, handler: Proxy.Handler, pools: Pools, name: string,
      rest: string, query: string, body: Option<Provider.Bytes>, key: string)
    requires Validated(c) && BuiltFor(c, handler, pools) && name in c.platforms
    ensures var p := c.platforms[name];
      var provider := handler.platforms[name].transport.provider;
      var sent := Provider.RequestFor(handler.platforms[name].transport, rest, query, body, key);
      && (p.typ == "generic_http" ==>
            && sent.header == Text.TrimSpace(p.auth.header)
            && sent.credential == (if Text.TrimSpace(p.auth.prefix) == "" then key
                                   else Text.TrimSpace(p.auth.prefix) + " " + key)
            && provider.rateLimit == p.rateLimit)
      && (p.typ == "api_sports" ==>
            && sent.header == "x-apisports-key" && sent.credential == key
            && provider.rateLimit == Provider.RateLimitConfig(
                 "x-ratelimit-requests-limit", "x-ratelimit-requests-remaining",
                 "X-RateLimit-Limit", "X-RateLimit-Remaining"))
      && (p.typ == "generic_http" || p.typ == "api_sports")
      && sent.body == body
      && handler.platforms[name].poolName == p.credentialPool
      && handler.platforms[name].clientAuthHeader == sent.header
  {
    ValidatedParts(c);
    assert PlatformOk(name, c.platforms[name], c.credentialPools.Keys);
    hide Acceptable, Normalised, PoolsFor;
    BuiltTransport(c, handler, pools, name);
    BuiltProvider(c.platforms[name]);
    BuiltNames(c, handler, pools, name);
    BlankPrefix(key);
  }

  lemma BuiltProvider(p: PlatformConfig)
    requires ProviderOf(p).Ok?
    ensures var provider := ProviderOf(p).value;
      && provider.header != ""
      && (p.typ == "generic_http" ==>
            provider.header == Text.TrimSpace(p.auth.header) && provider.prefix == p.auth.prefix
            && provider.rateLimit == p.rateLimit)
      && (p.typ == "api_sports" ==>
            && provider.header == "x-apisports-key" && provider.prefix == ""
            && provider.rateLimit == Provider.RateLimitConfig(
                 "x-ratelimit-requests-limit", "x-ratelimit-requests-remaining",
                 "X-RateLimit-Limit", "X-RateLimit-Remaining"))
  {
  }

  lemma BuiltNames(c: Settings, handler: Proxy.Handler, pools: Pools, name: string)
    requires BuiltFor(c, handler, pools) && name in c.platforms && c.platforms[name].credentialPool != ""
    ensures var rt := handler.platforms[name];
      rt.poolName == c.platforms[name].credentialPool && rt.clientAuthHeader == rt.transport.provider.header
  {
  }

  lemma BlankPrefix(key: string)
    ensures Provider.WithPrefix("", key) == key
  {
  }

  /** The pool of a validated platform: its keys, in order, and its times in nanoseconds. */
  lemma {:induction false} PoolsAreBuiltAsConfigured(c: Settings, handler: Proxy.Handler, pools: Pools, name: string)
    requires Validated(c) && BuiltFor(c, handler, pools) && name in c.platforms
    ensures var pool := handler.platforms[name].pool;
      && pool != null && c.platforms[name].credentialPool in c.credentialPools
      && (var keys := c.credentialPools[c.platforms[name].credentialPool];
          && |pool.keys| == |keys|
          && forall i :: 0 <= i < |keys| ==>
               pool.keys[i].keyLabel == keys[i].keyLabel && pool.keys[i].key == keys[i].key)
      && pool.opts.switchThreshold == c.scheduler.switchThreshold
      && pool.opts.rateLimitCooldown == c.scheduler.rateLimitCooldownSeconds * 1_000_000_000
      && pool.opts.errorCooldown == c.scheduler.errorCooldownSeconds * 1_000_000_000
      && pool.opts.maxErrorCount == c.scheduler.maxErrorCount
      && handler.maxRetries == c.scheduler.maxRetries
  {
    ValidatedRouting(c, handler, pools, name);
    hide Validated;
    assert Holds(pools[c.platforms[name].credentialPool], c.credentialPools[c.platforms[name].credentialPool]);
  }

  // ---------------------------------------------------------------- building

  /** All key objects of these pools. */
  ghost function Reach(pools: Pools): set<object> {
    set name, o | name in pools && o in pools[name].Repr() :: o
  }

  /** No key of these pools has been used yet. */
  ghost predicate Unused(pools: Pools, configured: map<string, seq<KeyConfig>>)
    reads Reach(pools)
  {
    && pools.Keys == configured.Keys
    && forall name :: name in pools ==> pools[name].Contents() == KeyModel.NewKeys(Entries(configured[name]))
  }

  datatype Built = Built(handler: Proxy.Handler, pools: Pools)

  method BuildPool(keys: seq<KeyConfig>, opts: KeyModel.Options) returns (pool: Keypool.Pool)
    ensures fresh(pool) && fresh(pool.Repr()) && pool.Contents() == KeyModel.NewKeys(Entries(keys))
    ensures pool.Valid() && pool.opts == opts && Holds(pool, keys)
  {
    var entries: seq<KeyModel.KeyEntry> := [];
    for i := 0 to |keys|
      invariant entries == Entries(keys[..i])
    {
      entries := entries + [KeyModel.KeyEntry(keys[i].keyLabel, keys[i].key)];
    }
    assert keys[..|keys|] == keys;
    pool := new Keypool.Pool(entries, opts);
    assert forall i :: 0 <= i < |keys| ==> pool.Contents()[i] == pool.keys[i].Value();
  }

  /** One new pool for each configured one, in any order. */
  method BuildPools(cfg: Config.Config) returns (pools: Pools)
    ensures PoolsFor(cfg.Value(), pools)
    ensures fresh(pools.Values) && fresh(Reach(pools)) && Unused(pools, cfg.credentialPools)
  {
    var opts := KeyModel.Options(
      cfg.scheduler.switchThreshold, cfg.scheduler.rateLimitCooldownSeconds * SECOND,
      cfg.scheduler.errorCooldownSeconds * SECOND, cfg.scheduler.maxErrorCount);
    ghost var configured := cfg.credentialPools;
    pools := map[];
    var todo := cfg.credentialPools.Keys;
    while todo != {}
      invariant todo <= configured.Keys && pools.Keys == configured.Keys - todo
      invariant forall name :: name in pools ==>
        && fresh(pools[name]) && fresh(pools[name].Repr())
        && pools[name].Contents() == KeyModel.NewKeys(Entries(configured[name]))
      invariant forall name :: name in pools ==>
        pools[name].Valid() && pools[name].opts == opts && Holds(pools[name], configured[name])
      invariant forall a, b :: a in pools && b in pools && a != b ==>
        pools[a] != pools[b] && pools[a].Repr() !! pools[b].Repr()
      decreases todo
    {
      var name :| name in todo;
      todo := todo - {name};
      var pool := BuildPool(cfg.credentialPools[name], opts);
      pools := pools[name := pool];
    }
  }

  /** The whole runtime; fails exactly when some platform's provider is refused, and then names one. */
  method BuildProxy(cfg: Config.Config) returns (r: Result<Built>)
    ensures r.Ok? <==> forall name :: name in cfg.platforms ==> ProviderOf(cfg.platforms[name]).Ok?
    ensures r.Err? ==> r.error in cfg.platforms && ProviderOf(cfg.platforms[r.error]).Err?
    ensures r.Ok? ==>
      && BuiltFor(cfg.Value(), r.value.handler, r.value.pools) && fresh(r.value.handler)
      && fresh(r.value.pools.Values) && fresh(Reach(r.value.pools)) && Unused(r.value.pools, cfg.credentialPools)
  {
    var pools := BuildPools(cfg);
    var platforms: map<string, Proxy.PlatformUpstream> := map[];
    var todo := cfg.platforms.Keys;
    while todo != {}
      invariant todo <= cfg.platforms.Keys
      invariant platforms.Keys == cfg.platforms.Keys - todo
      invariant forall name :: name in platforms ==>
        ProviderOf(cfg.platforms[name]).Ok? && platforms[name] == UpstreamOf(cfg.platforms[name], pools)
      decreases todo
    {
      var name :| name in todo;
      todo := todo - {name};
      var platform := cfg.platforms[name];
      var provider := Provider.New(platform.typ, platform.auth.header, platform.auth.prefix, platform.rateLimit);
      if provider.Err? {
        return Err(name);
      }
      var pool := if platform.credentialPool in pools then pools[platform.credentialPool] else null;
      platforms := platforms[name := Proxy.PlatformUpstream(
        platform.baseURL, Some(provider.value), pool, platform.credentialPool, provider.value.header)];
    }
    var handler := new Proxy.Handler(platforms, map[], cfg.scheduler.maxRetries, null);
    return Ok(Built(handler, pools));
  }

  /** These responses, and these keys of the pool, are what the handler makes of the request when it finds the
      pool's keys as they were. */
  ghost predicate Answers(
      handler: Proxy.Handler, r: Proxy.Request, env: nat -> Proxy.Exchange, closing: seq<KeyModel.Event>,
      readAt: Instant, was: seq<KeyModel.Key>, now: seq<KeyModel.Key>, responses: seq<ProxyModel.Downstream>)
    requires handler.Valid() && handler.Refusal(r).None?
  {
    var rt := handler.platforms[Proxy.SplitPlatform(r.path).0];
    var s := ProxyModel.Serve(was, rt.pool.opts, Proxy.Attempts(rt.transport.provider, env), handler.maxRetries);
    ProxyModel.Leads(s, rt.pool.opts, closing, readAt, responses) && now == Proxy.Closed(s, rt.pool.opts, closing)
  }

  // ---------------------------------------------------------------- replacing

  datatype ReplaceError = Invalid(error: Config.ConfigError) | NotWritten

  /** A validated copy with its runtime, ready to go live. */
  datatype Prepared = Refused(error: Config.ConfigError) | Ready(cfg: Config.Config, built: Built)

  class Manager {
    const file: Config.File
    var cfg: Config.Config
    var proxy: Proxy.Handler
    var pools: Pools

    /** Configuration, handler and pools are of one make, and that configuration passed validation. */
    ghost predicate Consistent()
      reads this, cfg
    {
      Validated(cfg.Value()) && BuiltFor(cfg.Value(), proxy, pools)
    }

    constructor (file: Config.File, cfg: Config.Config, built: Built)
      requires BuiltFor(cfg.Value(), built.handler, built.pools)
      ensures this.file == file && this.cfg == cfg && this.proxy == built.handler && this.pools == built.pools
    {
      this.file, this.cfg, this.proxy, this.pools := file, cfg, built.handler, built.pools;
    }

    /** A manager for a configuration as loaded. A validated one never fails and gives a consistent manager. */
    static method New(file: Config.File, cfg: Config.Config) returns (r: Result<Manager>)
      ensures r.Ok? <==> forall name :: name in cfg.platforms ==> ProviderOf(cfg.platforms[name]).Ok?
      ensures r.Ok? ==>
        && fresh(r.value) && fresh(r.value.cfg) && r.value.file == file
        && r.value.cfg.Value() == cfg.Value() && BuiltFor(cfg.Value(), r.value.proxy, r.value.pools)
      ensures Validated(cfg.Value()) ==> r.Ok? && r.value.Consistent()
    {
      if Validated(cfg.Value()) {
        ValidatedAlwaysBuilds(cfg.Value());
      }
      var built := BuildProxy(cfg);
      if built.Err? {
        return Err(built.error);
      }
      var own := cfg.Clone();
      var m := new Manager(file, own, built.value);
      return Ok(m);
    }

    /** Serves a request through the runtime of this moment: exactly the configured namespaces are routed, and
        a request that is not refused takes its keys from the pool its platform is configured with. */
    method ServeHTTP(w: Proxy.ResponseWriter, wire: Provider.Wire, r: Proxy.Request,
                     env: nat -> Proxy.Exchange, closing: seq<KeyModel.Event>, readAt: Instant)
      requires Consistent()
      modifies w, wire, proxy.Footprint(r.path)
      ensures Consistent()
      ensures var (name, rest) := Proxy.SplitPlatform(r.path);
        if name !in cfg.platforms then
          w.responses == old(w.responses) + [ProxyModel.GatewayError(404, "unknown_platform", 0)]
        else if !r.authorised then
          w.responses == old(w.responses) + [ProxyModel.GatewayError(401, "unauthorized", 0)]
        else if r.body.Unreadable? then
          w.responses == old(w.responses) + [ProxyModel.GatewayError(400, "bad_request", 0)]
        else
          var t := proxy.platforms[name].transport;
          var pool := pools[cfg.platforms[name].credentialPool];
          var s := ProxyModel.Serve(old(pool.Contents()), pool.opts, Proxy.Attempts(t.provider, env),
                                    cfg.scheduler.maxRetries);
          && old(w.responses) <= w.responses
          && ProxyModel.Leads(s, pool.opts, closing, readAt, w.responses[|old(w.responses)|..])
          && wire.sent == old(wire.sent) + Proxy.Sends(t, rest, r.query, Proxy.BodyOf(r), s.uses, env)
          && pool.Contents() == Proxy.Closed(s, pool.opts, closing)
    {
      hide Validated, BuiltFor;
      var h := proxy;
      ValidatedRouting(cfg.Value(), proxy, pools, Proxy.SplitPlatform(r.path).0);
      h.ServeHTTP(w, wire, r, env, closing, readAt);
    }

    /** The part of a replacement that touches no shared state: copy, validate, build. */
    static method Prepare(given: Config.Config) returns (p: Prepared)
      ensures p.Ready? <==> Acceptable(given.Value())
      ensures p.Refused? ==> Config.Blames(given.Value(), p.error)
      ensures p.Ready? ==>
        && fresh(p.cfg) && p.cfg.Value() == Normalised(given.Value())
        && BuiltFor(p.cfg.Value(), p.built.handler, p.built.pools) && Validated(p.cfg.Value())
        && fresh(p.built.handler) && fresh(p.built.pools.Values)
        && fresh(Reach(p.built.pools)) && Unused(p.built.pools, p.cfg.credentialPools)
    {
      var next := given.Clone();
      var invalid := next.Validate();
      if invalid.Some? {
        return Refused(invalid.value);
      }
      NormalisedIsValidated(given.Value());
      var built := BuildProxy(next);
      if built.Err? {
        ValidatedAlwaysBuilds(next.Value());
        assert false;
      }
      return Ready(next, built.value);
    }

    /** All three fields change together, under the lock. */
    method Swap(next: Config.Config, built: Built)
      requires Validated(next.Value()) && BuiltFor(next.Value(), built.handler, built.pools)
      modifies this`cfg, this`proxy, this`pools
      ensures Consistent() && fresh(cfg)
      ensures cfg.Value() == next.Value() && proxy == built.handler && pools == built.pools
    {
      hide Validated, BuiltFor;
      cfg := next.Clone();
      proxy := built.handler;
      pools := built.pools;
    }

    /** Validates, builds, saves and only then swaps. It succeeds exactly for an acceptable configuration
        that can be written; a failure leaves the running triple as it was; and after a success the file
        holds the very configuration that runs, with fresh pools whose keys are all new. */
    method ReplaceConfig(given: Config.Config, write: Config.Write) returns (err: Option<ReplaceError>)
      requires Consistent()
      modifies this, file
      ensures Consistent()
      ensures err.None? <==> Acceptable(given.Value()) && write.Written?
      ensures err.Some? ==> cfg == old(cfg) && proxy == old(proxy) && pools == old(pools)
      ensures err.Some? ==> err.value.NotWritten? || file.saved == old(file.saved)
      ensures err.Some? && err.value.Invalid? ==> Config.Blames(given.Value(), err.value.error)
      ensures err.None? ==>
        && cfg.Value() == Normalised(given.Value()) && file.saved == Some(cfg.Value())
        && fresh(proxy) && fresh(pools.Values) && fresh(Reach(pools)) && Unused(pools, cfg.credentialPools)
    {
      hide Validated, BuiltFor, Acceptable, Normalised, Unused, Config.Blames;
      var p := Prepare(given);
      if p.Refused? {
        return Some(Invalid(p.error));
      }
      var unsaved := file.Save(p.cfg, write);
      if unsaved.Some? {
        return Some(NotWritten);
      }
      Swap(p.cfg, p.built);
      return None;
    }

    /** A request in flight while the configuration is replaced stays with the handler it took. What the two
        touch is disjoint: the request is answered from the old pools, and the new pools are as unused as if
        there had been none. Here the replacement comes before the request's own steps, */
    method ServeAfterReplace(w: Proxy.ResponseWriter, wire: Provider.Wire, r: Proxy.Request,
                             env: nat -> Proxy.Exchange, closing: seq<KeyModel.Event>, readAt: Instant,
                             given: Config.Config, write: Config.Write)
      returns (err: Option<ReplaceError>)
      requires Consistent()
      modifies this, file, w, wire, proxy.Footprint(r.path)
      ensures Consistent()
      ensures err.None? <==> Acceptable(given.Value()) && write.Written?
      ensures err.None? ==> cfg.Value() == Normalised(given.Value()) && Unused(pools, cfg.credentialPools)
      ensures err.None? ==> Reach(pools) !! old(proxy).Footprint(r.path)
      ensures old(proxy).Refusal(r).None? ==>
        var pool := old(proxy).platforms[Proxy.SplitPlatform(r.path).0].pool;
        && old(w.responses) <= w.responses
        && Answers(old(proxy), r, env, closing, readAt, old(pool.Contents()), pool.Contents(),
                   w.responses[|old(w.responses)|..])
    {
      hide Validated, BuiltFor, Acceptable, Normalised, Unused, Config.Blames;
      hide ProxyModel.Leads, ProxyModel.Serve, Proxy.Closed, Proxy.Sends;
      var h := proxy;
      ValidatedRouting(cfg.Value(), proxy, pools, Proxy.SplitPlatform(r.path).0);
      err := ReplaceConfig(given, write);
      h.ServeHTTP(w, wire, r, env, closing, readAt);
    }

    /** and here after them, with the same result. */
    method ServeBeforeReplace(w: Proxy.ResponseWriter, wire: Provider.Wire, r: Proxy.Request,
                              env: nat -> Proxy.Exchange, closing: seq<KeyModel.Event>, readAt: Instant,
                              given: Config.Config, write: Config.Write)
      returns (err: Option<ReplaceError>)
      requires Consistent()
      modifies this, file, w, wire, proxy.Footprint(r.path)
      ensures Consistent()
      ensures err.None? <==> Acceptable(given.Value()) && write.Written?
      ensures err.None? ==> cfg.Value() == Normalised(given.Value()) && Unused(pools, cfg.credentialPools)
      ensures err.None? ==> Reach(pools) !! old(proxy).Footprint(r.path)
      ensures old(proxy).Refusal(r).None? ==>
        var pool := old(proxy).platforms[Proxy.SplitPlatform(r.path).0].pool;
        && old(w.responses) <= w.responses
        && Answers(old(proxy), r, env, closing, readAt, old(pool.Contents()), pool.Contents(),
                   w.responses[|old(w.responses)|..])
    {
      hide Validated, BuiltFor, Acceptable, Normalised, Unused, Config.Blames;
      hide ProxyModel.Leads, ProxyModel.Serve, Proxy.Closed, Proxy.Sends;
      var h := proxy;
      ValidatedRouting(cfg.Value(), proxy, pools, Proxy.SplitPlatform(r.path).0);
      h.ServeHTTP(w, wire, r, env, closing, readAt);
      err := ReplaceConfig(given, write);
    }
  }
}
