/** The request handler: routing by the first path segment, then the retry loop over the platform's
    credential pool. */
module Proxy {
  import opened Wrappers
  import opened Calendar
  import opened KeyModel
  import opened ProxyModel
  import Keypool
  import Provider
  import Text

  // ---------------------------------------------------------------- routing

  function IndexOfSlash(s: string): (i: nat)
    ensures i <= |s|
    ensures forall j :: 0 <= j < i ==> s[j] != '/'
    ensures i < |s| ==> s[i] == '/'
  {
    if s == "" || s[0] == '/' then 0 else 1 + IndexOfSlash(s[1..])
  }

  /** The namespace of a path and what remains of it for the upstream; the rest always starts with '/'. */
  function SplitPlatform(path: string): (string, string) {
    var trimmed := if path != "" && path[0] == '/' then path[1..] else path;
    if trimmed == "" then ("", "/")
    else
      var i := IndexOfSlash(trimmed);
      if i < |trimmed| then (trimmed[..i], trimmed[i..]) else (trimmed, "/")
  }

  /** Every namespace without a slash is reached under its own name, with the rest of the path intact. */
  lemma SplitPlatformRoundTrip(name: string, rest: string)
    requires '/' !in name
    requires rest != "" && rest[0] == '/'
    ensures SplitPlatform("/" + name + rest) == (name, rest)
    ensures name != "" ==> SplitPlatform("/" + name) == (name, "/")
  {
    assert ("/" + name)[1..] == name;
    var trimmed := name + rest;
    assert ("/" + name + rest)[1..] == trimmed;
    assert trimmed[|name|] == '/';
    assert IndexOfSlash(trimmed) >= |name| && IndexOfSlash(name) >= |name|;
    assert trimmed[..|name|] == name && trimmed[|name|..] == rest;
  }

  /** Whatever the path, the parts put together again are the path, up to a missing slash at either end. */
  lemma SplitPlatformLosesNothing(path: string)
    ensures var (name, rest) := SplitPlatform(path);
      && '/' !in name && rest != "" && rest[0] == '/'
      && (path == "/" + name + rest || path == name + rest || path == "/" + name || path == name)
  {
    var trimmed := if path != "" && path[0] == '/' then path[1..] else path;
    assert path == "/" + trimmed || path == trimmed;
    var i := IndexOfSlash(trimmed);
    assert trimmed == trimmed[..i] + trimmed[i..];
  }

  // ---------------------------------------------------------------- configuration of the handler

  datatype PlatformUpstream = PlatformUpstream(
    baseURL: string, provider: Option<Provider.Provider>,
    pool: Keypool.Pool?, poolName: string, clientAuthHeader: string)

  datatype PlatformRuntime = PlatformRuntime(
    transport: Provider.Transport, pool: Keypool.Pool?, poolName: string, clientAuthHeader: string)

  /** The provider of a platform that names none is the one built for api_sports. */
  function DefaultProvider(): (p: Provider.Provider)
    ensures Provider.New(Provider.API_SPORTS, "", "", Provider.API_SPORTS_RATE_LIMIT) == Ok(p)
  {
    Provider.Provider(Provider.API_SPORTS, "x-apisports-key", "", Provider.API_SPORTS_RATE_LIMIT)
  }

  /** Fills what a platform leaves open. */
  function Defaulted(up: PlatformUpstream, defaultPool: Keypool.Pool?): PlatformUpstream {
    var provider := if up.provider.None? then DefaultProvider() else up.provider.value;
    PlatformUpstream(
      up.baseURL, Some(provider), if up.pool == null then defaultPool else up.pool,
      if up.poolName == "" then "default" else up.poolName,
      if up.clientAuthHeader == "" then provider.header else up.clientAuthHeader)
  }

  /** The legacy form of a platform: nothing but its base URL. */
  datatype WorkspaceUpstream = WorkspaceUpstream(baseURL: string)

  function FromWorkspace(ws: WorkspaceUpstream, defaultPool: Keypool.Pool?): PlatformUpstream {
    PlatformUpstream(ws.baseURL, Some(DefaultProvider()), defaultPool, "default", DefaultProvider().header)
  }

  /** The legacy workspaces are looked at only when there are no platforms. */
  function FilledUpstreams(platforms: map<string, PlatformUpstream>, workspaces: map<string, WorkspaceUpstream>,
                           defaultPool: Keypool.Pool?): (filled: map<string, PlatformUpstream>)
    ensures forall name :: name in filled ==> filled[name].provider.Some?
  {
    if platforms != map[] then map name | name in platforms :: Defaulted(platforms[name], defaultPool)
    else map name | name in workspaces :: FromWorkspace(workspaces[name], defaultPool)
  }

  /** A legacy workspace means the platform that leaves everything but the URL open. */
  lemma WorkspacesArePlatforms(workspaces: map<string, WorkspaceUpstream>, defaultPool: Keypool.Pool?)
    ensures var open := map name | name in workspaces :: PlatformUpstream(workspaces[name].baseURL, None, null, "", "");
      FilledUpstreams(map[], workspaces, defaultPool) == FilledUpstreams(open, map[], defaultPool)
  {
    if name :| name in workspaces {
      var open := map name | name in workspaces :: PlatformUpstream(workspaces[name].baseURL, None, null, "", "");
      assert name in open;
    } else {
      assert workspaces == map[];
    }
  }

  function RuntimeOf(up: PlatformUpstream): PlatformRuntime
    requires up.provider.Some?
  {
    PlatformRuntime(Provider.NewTransport(up.baseURL, up.provider.value), up.pool, up.poolName, up.clientAuthHeader)
  }

  /** A platform keeps all it says. Where it leaves something open it gets the provider of api_sports, the
      default pool, the name "default", and the provider's own header for clients. */
  lemma RuntimesAreAsSaid(up: PlatformUpstream, defaultPool: Keypool.Pool?)
    ensures var rt := RuntimeOf(Defaulted(up, defaultPool));
      && rt.transport.baseURL == Text.TrimRightSlash(up.baseURL)
      && (up.provider.Some? ==> rt.transport.provider == up.provider.value)
      && (up.provider.None? ==>
            rt.transport.provider.typ == "api_sports" && rt.transport.provider.header == "x-apisports-key"
            && rt.transport.provider.prefix == "")
      && rt.pool == (if up.pool != null then up.pool else defaultPool)
      && rt.poolName == (if up.poolName != "" then up.poolName else "default")
      && rt.clientAuthHeader ==
           (if up.clientAuthHeader != "" then up.clientAuthHeader else rt.transport.provider.header)
  {
  }

  // ---------------------------------------------------------------- one request

  datatype Body = NoBody | Unreadable | Readable(bytes: Provider.Bytes)

  datatype Request = Request(path: string, query: string, body: Body, authorised: bool)

  /** The buffered body; none is different from an empty one. */
  function BodyOf(r: Request): Option<Provider.Bytes> {
    if r.body.Readable? then Some(r.body.bytes) else None
  }

  /** The surroundings of one attempt, with the raw upstream reply. */
  datatype Exchange = Exchange(
    before: seq<Event>, acquireAt: Instant, during: seq<Event>, reply: Provider.Reply, cancelled: bool, markAt: Instant)

  function AttemptOf(p: Provider.Provider, x: Exchange): Attempt {
    Attempt(x.before, x.acquireAt, x.during, Provider.ResultOf(p, x.reply), x.cancelled, x.markAt)
  }

  function Attempts(p: Provider.Provider, env: nat -> Exchange): nat -> Attempt {
    (n: nat) => AttemptOf(p, env(n))
  }

  lemma AttemptsAreGenuine(p: Provider.Provider, env: nat -> Exchange)
    ensures forall n: nat :: Provider.Genuine(Attempts(p, env)(n).result)
  {
    forall n: nat
      ensures Provider.Genuine(Attempts(p, env)(n).result)
    {
      Provider.ResultsAreGenuine(p, env(n).reply);
    }
  }

  /** What goes out for one use. */
  function SendOf(t: Provider.Transport, rest: string, query: string, body: Option<Provider.Bytes>,
                  use: Use, x: Exchange): seq<Provider.Sent> {
    if x.reply.NotSent? then [] else [Provider.RequestFor(t, rest, query, body, use.after.key)]
  }

  /** What goes out for these uses: for each, the same request with that key's credential. */
  function Sends(t: Provider.Transport, rest: string, query: string, body: Option<Provider.Bytes>,
                 uses: seq<Use>, env: nat -> Exchange): seq<Provider.Sent> {
    if uses == [] then []
    else
      var n := |uses| - 1;
      Sends(t, rest, query, body, uses[..n], env)
      + SendOf(t, rest, query, body, uses[n], env(n))
  }

  /** A request as sent repeats the client's request with the credential of the key of some use. */
  predicate Repeats(s: Provider.Sent, t: Provider.Transport, rest: string, query: string, body: Option<Provider.Bytes>,
                    uses: seq<Use>) {
    && s.body == body && s.header == t.provider.header
    && s.url == t.baseURL + rest + (if query == "" then "" else "?" + query)
    && exists u :: 0 <= u < |uses| && s.credential == Provider.WithPrefix(t.provider.prefix, uses[u].after.key)
  }

  lemma {:induction false} SendsRepeatTheRequest(
      t: Provider.Transport, rest: string, query: string, body: Option<Provider.Bytes>,
      uses: seq<Use>, env: nat -> Exchange)
    ensures var sent := Sends(t, rest, query, body, uses, env);
      |sent| <= |uses| && forall s :: s in sent ==> Repeats(s, t, rest, query, body, uses)
  {
    hide Provider.RequestFor, Provider.WithPrefix;
    if uses != [] {
      var n := |uses| - 1;
      SendsRepeatTheRequest(t, rest, query, body, uses[..n], env);
      Provider.RequestShape(t, rest, query, body, uses[n].after.key);
      var front := Sends(t, rest, query, body, uses[..n], env);
      forall s | s in front
        ensures Repeats(s, t, rest, query, body, uses)
      {
        assert Repeats(s, t, rest, query, body, uses[..n]);
      }
    }
  }

  /** The buffered body of the client goes out with every attempt, byte for byte; a request without a body is
      sent without one. */
  lemma {:induction false} ClientBodyIsSent(
      r: Request, t: Provider.Transport, rest: string, uses: seq<Use>, env: nat -> Exchange, s: Provider.Sent)
    requires s in Sends(t, rest, r.query, BodyOf(r), uses, env)
    ensures r.body.Readable? ==> s.body == Some(r.body.bytes)
    ensures r.body.NoBody? ==> s.body == None
  {
    SendsRepeatTheRequest(t, rest, r.query, BodyOf(r), uses, env);
  }

  /** When every attempt goes out, attempt u sends the credential configured at the index it acquired, in
      whatever state other requests have left the pool. */
  lemma {:induction false} CredentialsAreSentInOrder(
      t: Provider.Transport, rest: string, query: string, body: Option<Provider.Bytes>,
      keys: seq<Key>, opts: Options, env: nat -> Exchange, maxRetries: nat, u: nat)
    requires forall n: nat :: !env(n).reply.NotSent?
    requires u < |Serve(keys, opts, Attempts(t.provider, env), maxRetries).uses|
    ensures var uses := Serve(keys, opts, Attempts(t.provider, env), maxRetries).uses;
      var sent := Sends(t, rest, query, body, uses, env);
      && |sent| == |uses| && uses[u].index < |keys|
      && sent[u] == Provider.RequestFor(t, rest, query, body, keys[uses[u].index].key)
  {
    var attempts := Attempts(t.provider, env);
    UsesCarryTheirKeys(TurnsOf(opts, attempts), keys, opts, attempts, 0, maxRetries);
    AllAreSent(t, rest, query, body, Serve(keys, opts, attempts, maxRetries).uses, env, u);
  }

  lemma {:induction false} AllAreSent(
      t: Provider.Transport, rest: string, query: string, body: Option<Provider.Bytes>,
      uses: seq<Use>, env: nat -> Exchange, u: nat)
    requires forall n: nat :: !env(n).reply.NotSent?
    requires u < |uses|
    ensures var sent := Sends(t, rest, query, body, uses, env);
      |sent| == |uses| && sent[u] == Provider.RequestFor(t, rest, query, body, uses[u].after.key)
  {
    hide Provider.RequestFor;
    var n := |uses| - 1;
    if n > 0 {
      AllAreSent(t, rest, query, body, uses[..n], env, if u < n then u else 0);
    }
  }

  lemma SentMore(
      sent: seq<Provider.Sent>, t: Provider.Transport, rest: string, query: string, body: Option<Provider.Bytes>,
      uses: seq<Use>, use: Use, env: nat -> Exchange)
    ensures sent + Sends(t, rest, query, body, uses, env) + SendOf(t, rest, query, body, use, env(|uses|))
      == sent + Sends(t, rest, query, body, uses + [use], env)
  {
    assert (uses + [use])[..|uses|] == uses;
    ConcatAssociates(sent, Sends(t, rest, query, body, uses, env), SendOf(t, rest, query, body, use, env(|uses|)));
  }

  /** The keys when the request is over; after a failed loop the other requests' closing calls come in
      before the pool is asked for its recovery time. */
  function Closed(s: Summary, opts: Options, closing: seq<Event>): seq<Key> {
    if s.ending.OutOfRetries? || s.ending.NoKey? then Run(s.keys, opts, closing) else s.keys
  }

  lemma TurnStarved(keys: seq<Key>, opts: Options, a: Attempt, ready: seq<Key>)
    requires ready == Run(keys, opts, a.before) && Select(ready, a.acquireAt) == |keys|
    ensures TurnOf(keys, opts, a) == NothingToUse(AfterAcquire(ready, a.acquireAt))
  {
  }

  lemma TurnTaken(keys: seq<Key>, opts: Options, a: Attempt, ready: seq<Key>, held: seq<Key>, after: seq<Key>, i: nat)
    requires ready == Run(keys, opts, a.before) && i == Select(ready, a.acquireAt) < |keys|
    requires held == AfterAcquire(ready, a.acquireAt)
    requires after == Settle(Run(held, opts, a.during), opts, Report(held[i].keyLabel, a.result, a.cancelled), a.markAt)
    ensures TurnOf(keys, opts, a) == Used(Use(i, a.acquireAt, a.result, a.cancelled, a.markAt, after[i]), after)
  {
  }

  /** A loop summary with earlier uses put in front. */
  function After(uses: seq<Use>, s: Summary): Summary {
    Summary(uses + s.uses, s.keys, s.ending)
  }

  lemma ConcatAssociates<T>(a: seq<T>, b: seq<T>, c: seq<T>)
    ensures a + (b + c) == a + b + c
  {
  }

  /** What the turn about to be taken makes of the whole loop: it ends without a use, */
  lemma {:induction false} LoopStarved(turns: Turns, keys: seq<Key>, maxRetries: nat, uses: seq<Use>, now: seq<Key>)
    requires |uses| < maxRetries
    requires Loop(turns, keys, 0, maxRetries) == After(uses, Loop(turns, now, |uses|, maxRetries - |uses|))
    requires turns(now, |uses|).NothingToUse?
    ensures Loop(turns, keys, 0, maxRetries) == Summary(uses, turns(now, |uses|).keys, NoKey)
  {
    assert uses + [] == uses;
  }

  /** it has no attempts left, */
  lemma {:induction false} LoopSpent(turns: Turns, keys: seq<Key>, maxRetries: nat, uses: seq<Use>, now: seq<Key>)
    requires |uses| == maxRetries
    requires Loop(turns, keys, 0, maxRetries) == After(uses, Loop(turns, now, |uses|, 0))
    ensures Loop(turns, keys, 0, maxRetries) == Summary(uses, now, OutOfRetries)
  {
    assert uses + [] == uses;
  }

  /** it goes on after one more use, */
  lemma {:induction false} LoopRetries(turns: Turns, keys: seq<Key>, maxRetries: nat, uses: seq<Use>, now: seq<Key>)
    requires |uses| < maxRetries
    requires Loop(turns, keys, 0, maxRetries) == After(uses, Loop(turns, now, |uses|, maxRetries - |uses|))
    requires turns(now, |uses|).Used? && Retried(turns(now, |uses|).use)
    ensures var turn := turns(now, |uses|);
      var more := uses + [turn.use];
      Loop(turns, keys, 0, maxRetries) == After(more, Loop(turns, turn.keys, |more|, maxRetries - |more|))
  {
    var turn := turns(now, |uses|);
    var more := uses + [turn.use];
    var rest := Loop(turns, turn.keys, |more|, maxRetries - |more|);
    var loop := Loop(turns, now, |uses|, maxRetries - |uses|);
    assert loop == Summary([turn.use] + rest.uses, rest.keys, rest.ending);
    ConcatAssociates(uses, [turn.use], rest.uses);
  }

  /** or it ends with one. */
  lemma {:induction false} LoopStops(turns: Turns, keys: seq<Key>, maxRetries: nat, uses: seq<Use>, now: seq<Key>)
    requires |uses| < maxRetries
    requires Loop(turns, keys, 0, maxRetries) == After(uses, Loop(turns, now, |uses|, maxRetries - |uses|))
    requires turns(now, |uses|).Used? && !Retried(turns(now, |uses|).use)
    ensures var turn := turns(now, |uses|);
      Loop(turns, keys, 0, maxRetries)
      == Summary(uses + [turn.use], turn.keys,
                 if turn.use.result.kind.ServerError? then Abandoned else Answered(turn.use.result))
  {
  }

  class ResponseWriter {
    var responses: seq<Downstream>

    constructor ()
      ensures responses == []
    {
      responses := [];
    }
  }

  class Handler {
    const platforms: map<string, PlatformRuntime>
    const maxRetries: int

    ghost predicate Valid() {
      && maxRetries >= 1
      && forall name :: name in platforms && platforms[name].pool != null ==> platforms[name].pool.Valid()
    }

    /** The objects a request on this path may change in the pools. */
    ghost function Footprint(path: string): set<object> {
      var name := SplitPlatform(path).0;
      if name in platforms && platforms[name].pool != null then platforms[name].pool.Repr() else {}
    }

    constructor (upstreams: map<string, PlatformUpstream>, workspaces: map<string, WorkspaceUpstream>,
                 maxRetries: int, defaultPool: Keypool.Pool?)
      requires defaultPool != null ==> defaultPool.Valid()
      requires forall name :: name in upstreams && upstreams[name].pool != null ==> upstreams[name].pool.Valid()
      ensures Valid()
      ensures var filled := FilledUpstreams(upstreams, workspaces, defaultPool);
        platforms == map name | name in filled :: RuntimeOf(filled[name])
      ensures this.maxRetries == if maxRetries < 1 then 1 else maxRetries
    {
      var filled := NormalizePlatforms(upstreams, workspaces, defaultPool);
      var runtimes: map<string, PlatformRuntime> := map[];
      var todo := filled.Keys;
      while todo != {}
        invariant todo <= filled.Keys
        invariant runtimes == map name | name in filled.Keys - todo :: RuntimeOf(filled[name])
        decreases todo
      {
        var name :| name in todo;
        todo := todo - {name};
        var up := filled[name];
        runtimes := runtimes[name := PlatformRuntime(
          Provider.NewTransport(up.baseURL, up.provider.value), up.pool, up.poolName, up.clientAuthHeader)];
      }
      this.platforms := runtimes;
      this.maxRetries := if maxRetries < 1 then 1 else maxRetries;
    }

    static method NormalizePlatforms(upstreams: map<string, PlatformUpstream>,
                                     workspaces: map<string, WorkspaceUpstream>, defaultPool: Keypool.Pool?)
      returns (filled: map<string, PlatformUpstream>)
      ensures filled == FilledUpstreams(upstreams, workspaces, defaultPool)
    {
      filled := map[];
      if upstreams != map[] {
        var todo := upstreams.Keys;
        while todo != {}
          invariant todo <= upstreams.Keys
          invariant filled == map name | name in upstreams.Keys - todo :: Defaulted(upstreams[name], defaultPool)
          decreases todo
        {
          var name :| name in todo;
          todo := todo - {name};
          var up := upstreams[name];
          if up.pool == null {
            up := up.(pool := defaultPool);
          }
          if up.poolName == "" {
            up := up.(poolName := "default");
          }
          if up.provider.None? {
            up := up.(provider := Some(DefaultProvider()));
          }
          if up.clientAuthHeader == "" {
            up := up.(clientAuthHeader := up.provider.value.header);
          }
          filled := filled[name := up];
        }
      } else {
        filled := FromWorkspaces(workspaces, defaultPool);
      }
    }

    static method FromWorkspaces(workspaces: map<string, WorkspaceUpstream>, defaultPool: Keypool.Pool?)
      returns (filled: map<string, PlatformUpstream>)
      ensures filled == map name | name in workspaces :: FromWorkspace(workspaces[name], defaultPool)
    {
      filled := map[];
      var apiSports := DefaultProvider();
      var todo := workspaces.Keys;
      while todo != {}
        invariant todo <= workspaces.Keys
        invariant filled == map name | name in workspaces.Keys - todo :: FromWorkspace(workspaces[name], defaultPool)
        decreases todo
      {
        var name :| name in todo;
        todo := todo - {name};
        filled := filled[name := PlatformUpstream(
          workspaces[name].baseURL, Some(apiSports), defaultPool, "default", apiSports.header)];
      }
    }

    /** The refusal a request gets before any key is used, if it gets one. */
    function Refusal(r: Request): Option<Downstream> {
      var name := SplitPlatform(r.path).0;
      if name !in platforms then Some(GatewayError(404, "unknown_platform", 0))
      else if !r.authorised then Some(GatewayError(401, "unauthorized", 0))
      else if platforms[name].pool == null then Some(GatewayError(500, "platform_misconfigured", 0))
      else if r.body.Unreadable? then Some(GatewayError(400, "bad_request", 0))
      else None
    }

    /** Tells the pool the outcome of an attempt; a cancelled server error is not held against the key. */
    static method ReportTo(
        pool: Keypool.Pool, keyLabel: string, result: Provider.UpstreamResult, cancelled: bool, now: Instant)
      requires pool.Valid()
      modifies pool.Repr()
      ensures pool.Contents() == Settle(old(pool.Contents()), pool.opts, Report(keyLabel, result, cancelled), now)
    {
      match result.kind {
        case Success | ClientError =>
          var _ := pool.UpdateFromUpstream(keyLabel, result.snapshot, now);
        case RateLimited =>
          pool.MarkRateLimited(keyLabel, now);
        case KeyInvalid =>
          pool.MarkKeyInvalid(keyLabel, "upstream returned " + Text.Itoa(result.status), now);
        case ServerError =>
          if !cancelled {
            var reason := "upstream server error";
            if result.err.Some? {
              reason := result.err.value;
            }
            pool.MarkError(keyLabel, reason, now);
          }
      }
    }

    /** One turn of the loop: acquire a key, send the request with it, report the outcome to the pool.
        None when no key is available. */
    static method Try(pool: Keypool.Pool, wire: Provider.Wire, t: Provider.Transport,
                      rest: string, query: string, body: Option<Provider.Bytes>, x: Exchange)
      returns (res: Option<Provider.UpstreamResult>)
      requires pool.Valid()
      modifies wire, pool.Repr()
      ensures var turn := TurnOf(old(pool.Contents()), pool.opts, AttemptOf(t.provider, x));
        && pool.Contents() == turn.keys
        && (turn.NothingToUse? ==> res.None? && wire.sent == old(wire.sent))
        && (turn.Used? ==>
              && res == Some(turn.use.result)
              && wire.sent == old(wire.sent) + SendOf(t, rest, query, body, turn.use, x))
    {
      ghost var a := AttemptOf(t.provider, x);
      ghost var keys := pool.Contents();
      pool.OtherRequests(x.before);
      ghost var ready := pool.Contents();
      var handle := pool.Acquire(x.acquireAt);
      if handle == null {
        TurnStarved(keys, pool.opts, a, ready);
        assert wire.sent == old(wire.sent);
        return None;
      }
      ghost var held := pool.Contents();
      ghost var i := Select(ready, x.acquireAt);
      assert held[i].keyLabel == handle.keyLabel;
      var result := wire.Do(t, rest, query, body, handle.key, x.reply);
      assert pool.Contents() == held && result == a.result;
      pool.OtherRequests(x.during);
      ReportTo(pool, handle.keyLabel, result, x.cancelled, x.markAt);
      TurnTaken(keys, pool.opts, a, ready, held, pool.Contents(), i);
      assert pool.Contents()[i].key == handle.key;
      return Some(result);
    }

    /** Try, as the next of these turns. */
    static method TakeTurn(ghost turns: Turns, n: nat, pool: Keypool.Pool, wire: Provider.Wire, t: Provider.Transport,
                           rest: string, query: string, body: Option<Provider.Bytes>, env: nat -> Exchange)
      returns (res: Option<Provider.UpstreamResult>, ghost turn: Turn)
      requires pool.Valid() && Realises(turns, pool.opts, Attempts(t.provider, env))
      modifies wire, pool.Repr()
      ensures turn == turns(old(pool.Contents()), n) && pool.Contents() == turn.keys
      ensures turn.NothingToUse? ==> res.None? && wire.sent == old(wire.sent)
      ensures turn.Used? ==>
        && res == Some(turn.use.result) && turn.use.cancelled == env(n).cancelled
        && wire.sent == old(wire.sent) + SendOf(t, rest, query, body, turn.use, env(n))
    {
      turn := TurnOf(pool.Contents(), pool.opts, Attempts(t.provider, env)(n));
      res := Try(pool, wire, t, rest, query, body, env(n));
    }

    /** One iteration of the retry loop: None to go on, or how the loop ends. The ghost parameters say where
        the loop stands: all its uses so far, and what was sent before it. */
    static method Iterate(ghost turns: Turns, ghost keys: seq<Key>, ghost maxRetries: nat, ghost uses: seq<Use>,
                          ghost sent: seq<Provider.Sent>, attempts: nat,
                          pool: Keypool.Pool, wire: Provider.Wire, t: Provider.Transport,
                          rest: string, query: string, body: Option<Provider.Bytes>, env: nat -> Exchange)
      returns (stop: Option<Ending>, ghost more: seq<Use>)
      requires pool.Valid() && Realises(turns, pool.opts, Attempts(t.provider, env))
      requires attempts == |uses| < maxRetries
      requires Loop(turns, keys, 0, maxRetries)
        == After(uses, Loop(turns, pool.Contents(), |uses|, maxRetries - |uses|))
      requires wire.sent == sent + Sends(t, rest, query, body, uses, env)
      modifies wire, pool.Repr()
      ensures wire.sent == sent + Sends(t, rest, query, body, more, env)
      ensures stop.None? ==>
        && |more| == |uses| + 1
        && Loop(turns, keys, 0, maxRetries) == After(more, Loop(turns, pool.Contents(), |more|, maxRetries - |more|))
      ensures stop.Some? ==> Loop(turns, keys, 0, maxRetries) == Summary(more, pool.Contents(), stop.value)
    {
      hide Loop, After, Sends, SendOf;
      ghost var now := pool.Contents();
      var res, turn := TakeTurn(turns, attempts, pool, wire, t, rest, query, body, env);
      if res.None? {
        LoopStarved(turns, keys, maxRetries, uses, now);
        return Some(NoKey), uses;
      }
      more := uses + [turn.use];
      SentMore(sent, t, rest, query, body, uses, turn.use, env);
      if Retryable(res.value, env(attempts).cancelled) {
        LoopRetries(turns, keys, maxRetries, uses, now);
        return None, more;
      }
      LoopStops(turns, keys, maxRetries, uses, now);
      return Some(if res.value.kind.ServerError? then Abandoned else Answered(res.value)), more;
    }

    /** The retry loop against one platform's pool, and how it ends. */
    method RetryLoop(ghost turns: Turns, wire: Provider.Wire, pool: Keypool.Pool, t: Provider.Transport,
                     rest: string, query: string, body: Option<Provider.Bytes>, env: nat -> Exchange)
      returns (ending: Ending)
      requires maxRetries >= 1 && pool.Valid()
      requires Realises(turns, pool.opts, Attempts(t.provider, env))
      modifies wire, pool.Repr()
      ensures var s := Loop(turns, old(pool.Contents()), 0, maxRetries);
        && ending == s.ending
        && wire.sent == old(wire.sent) + Sends(t, rest, query, body, s.uses, env)
        && pool.Contents() == s.keys
    {
      hide Loop;
      ghost var keys, sent := pool.Contents(), wire.sent;
      ghost var uses: seq<Use> := [];
      var attempts := 0;
      while attempts < maxRetries
        invariant attempts == |uses| <= maxRetries
        invariant Loop(turns, keys, 0, maxRetries)
          == After(uses, Loop(turns, pool.Contents(), |uses|, maxRetries - |uses|))
        invariant wire.sent == sent + Sends(t, rest, query, body, uses, env)
      {
        var stop;
        stop, uses := Iterate(turns, keys, maxRetries, uses, sent, attempts, pool, wire, t, rest, query, body, env);
        if stop.Some? {
          return stop.value;
        }
        attempts := attempts + 1;
      }
      LoopSpent(turns, keys, maxRetries, uses, pool.Contents());
      return OutOfRetries;
    }

    /** The 503, with the time the pool expects to need. */
    static method Unavailable(
        ghost s: Summary, w: ResponseWriter, pool: Keypool.Pool, closing: seq<Event>, readAt: Instant)
      requires pool.Valid() && (s.ending.OutOfRetries? || s.ending.NoKey?) && pool.Contents() == s.keys
      modifies w, pool.Repr()
      ensures |w.responses| == |old(w.responses)| + 1 && old(w.responses) <= w.responses
      ensures Leads(s, pool.opts, closing, readAt, [w.responses[|old(w.responses)|]])
      ensures pool.Contents() == Run(s.keys, pool.opts, closing)
    {
      pool.OtherRequests(closing);
      var retryAfter := pool.EarliestRecoverySeconds(readAt);
      w.responses := w.responses + [GatewayError(SERVICE_UNAVAILABLE, "all_keys_unavailable", retryAfter)];
    }

    /** Writes the answer a finished loop leads to. */
    static method Answer(ghost s: Summary, w: ResponseWriter, pool: Keypool.Pool, ending: Ending,
                         closing: seq<Event>, readAt: Instant)
      requires pool.Valid() && ending == s.ending && pool.Contents() == s.keys
      modifies w, pool.Repr()
      ensures old(w.responses) <= w.responses
      ensures Leads(s, pool.opts, closing, readAt, w.responses[|old(w.responses)|..])
      ensures pool.Contents() == Closed(s, pool.opts, closing)
    {
      match ending {
        case Answered(res) =>
          w.responses := w.responses + [Forwarded(res.status, res.body)];
          assert w.responses[|old(w.responses)|..] == [Forwarded(res.status, res.body)];
        case Abandoned =>
          assert w.responses[|old(w.responses)|..] == [];
        case OutOfRetries | NoKey =>
          Unavailable(s, w, pool, closing, readAt);
          assert w.responses[|old(w.responses)|..] == [w.responses[|old(w.responses)|]];
      }
    }

    /** The retry loop, and its answer. */
    method Relay(ghost turns: Turns, w: ResponseWriter, wire: Provider.Wire, pool: Keypool.Pool, t: Provider.Transport,
                 rest: string, query: string, body: Option<Provider.Bytes>,
                 env: nat -> Exchange, closing: seq<Event>, readAt: Instant)
      requires maxRetries >= 1 && pool.Valid()
      requires Realises(turns, pool.opts, Attempts(t.provider, env))
      modifies w, wire, pool.Repr()
      ensures var s := Loop(turns, old(pool.Contents()), 0, maxRetries);
        && old(w.responses) <= w.responses
        && Leads(s, pool.opts, closing, readAt, w.responses[|old(w.responses)|..])
        && wire.sent == old(wire.sent) + Sends(t, rest, query, body, s.uses, env)
        && pool.Contents() == Closed(s, pool.opts, closing)
    {
      ghost var s := Loop(turns, pool.Contents(), 0, maxRetries);
      var ending := RetryLoop(turns, wire, pool, t, rest, query, body, env);
      Answer(s, w, pool, ending, closing, readAt);
    }

    /** Serves one request. env is the surroundings of its attempts; closing and readAt those of the final
        question to the pool. */
    method ServeHTTP(w: ResponseWriter, wire: Provider.Wire, r: Request,
                     env: nat -> Exchange, closing: seq<Event>, readAt: Instant)
      requires Valid()
      modifies w, wire, Footprint(r.path)
      ensures Refusal(r).Some? ==>
        && w.responses == old(w.responses) + [Refusal(r).value]
        && unchanged(wire) && unchanged(Footprint(r.path))
      ensures Refusal(r).None? ==>
        var (name, rest) := SplitPlatform(r.path);
        var rt := platforms[name];
        var s := Serve(old(rt.pool.Contents()), rt.pool.opts, Attempts(rt.transport.provider, env), maxRetries);
        && old(w.responses) <= w.responses
        && Leads(s, rt.pool.opts, closing, readAt, w.responses[|old(w.responses)|..])
        && wire.sent == old(wire.sent) + Sends(rt.transport, rest, r.query, BodyOf(r), s.uses, env)
        && rt.pool.Contents() == Closed(s, rt.pool.opts, closing)
    {
      var (name, rest) := SplitPlatform(r.path);
      if name !in platforms {
        w.responses := w.responses + [GatewayError(404, "unknown_platform", 0)];
        return;
      }
      var rt := platforms[name];
      if !r.authorised {
        w.responses := w.responses + [GatewayError(401, "unauthorized", 0)];
        return;
      }
      if rt.pool == null {
        w.responses := w.responses + [GatewayError(500, "platform_misconfigured", 0)];
        return;
      }
      if r.body.Unreadable? {
        w.responses := w.responses + [GatewayError(400, "bad_request", 0)];
        return;
      }
      ghost var turns := TurnsOf(rt.pool.opts, Attempts(rt.transport.provider, env));
      Relay(turns, w, wire, rt.pool, rt.transport, rest, r.query, BodyOf(r), env, closing, readAt);
    }
  }
}
