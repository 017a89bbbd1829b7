/** What the design promises of one request's retries: a different key each time, and no more attempts than
    there are available keys. When the code keeps that promise, and when it does not. */
module RetryPromise {
  import opened Wrappers
  import opened Calendar
  import opened KeyModel
  import opened ProxyModel
  import opened RetryOrder
  import opened SequentialUse
  import opened SharedLabels
  import Provider

  function Min(a: int, b: int): int {
    if a < b then a else b
  }

  /** No key is tried twice. */
  predicate NeverRepeats(uses: seq<Use>) {
    forall u, v :: 0 <= u < v < |uses| ==> uses[u].index != uses[v].index
  }

  /** The clock of the attempts is set and never goes back. */
  ghost predicate Timed(env: nat -> Attempt, maxRetries: nat) {
    forall n: nat | n < maxRetries ::
      && 0 < env(n).acquireAt <= env(n).markAt
      && (n + 1 < maxRetries ==> env(n).markAt <= env(n + 1).acquireAt)
  }

  /** Every later Acquire of the request comes at most bound after an earlier report. */
  ghost predicate Prompt(env: nat -> Attempt, maxRetries: nat, bound: int) {
    forall u: nat, v: nat | u < v < maxRetries :: env(v).acquireAt <= env(u).markAt + bound
  }

  /** A request that has a pool with distinct labels to itself, in whatever state the keys are. */
  ghost predicate Isolated(keys: seq<Key>, env: nat -> Attempt, maxRetries: nat) {
    DistinctLabels(keys) && JobAlone(Job(env, maxRetries))
  }

  // ---------------------------------------------------------------- when a key comes back

  lemma {:induction false} LatestUse(uses: seq<Use>, u: nat) returns (w: nat)
    requires u < |uses|
    ensures u <= w && IsLastUse(uses, w, uses[u].index)
    decreases |uses| - u
  {
    w := u;
    if later :| u < later < |uses| && uses[later].index == uses[u].index {
      w := LatestUse(uses, later);
    }
  }

  /** Every use but the last was retried, and carries the times of its attempt. */
  lemma {:induction false} UseBeforeLast(keys: seq<Key>, opts: Options, env: nat -> Attempt, maxRetries: nat, u: nat)
    requires u < |Serve(keys, opts, env, maxRetries).uses|
    ensures var uses := Serve(keys, opts, env, maxRetries).uses;
      && u < maxRetries
      && uses[u].sentAt == env(u).acquireAt && uses[u].markedAt == env(u).markAt
      && (u + 1 < |uses| ==> Retried(uses[u]))
  {
    UseFollowsAttempt(TurnsOf(opts, env), keys, opts, env, maxRetries, u);
    EndingFromUses(TurnsOf(opts, env), keys, 0, maxRetries);
  }

  /** With an error limit of 1 every retried failure puts its key into a cooldown. */
  lemma RetriedKeyCools(use: Use, opts: Options, t: Instant)
    requires opts.maxErrorCount == 1 && LeavesKey(use, opts) && Retried(use)
    requires Available(use.after, t)
    ensures t > use.markedAt + Min(opts.rateLimitCooldown, opts.errorCooldown)
  {
  }

  /** When a request comes back to a key, the shorter cooldown has passed since it reported on that key. */
  lemma {:induction false} RepeatIsLate(
      keys: seq<Key>, opts: Options, env: nat -> Attempt, maxRetries: nat, u: nat, v: nat) returns (w: nat)
    requires opts.maxErrorCount == 1 && Isolated(keys, env, maxRetries)
    requires u < v < |Serve(keys, opts, env, maxRetries).uses|
    requires var uses := Serve(keys, opts, env, maxRetries).uses; uses[u].index == uses[v].index
    ensures w < v < maxRetries
    ensures env(v).acquireAt > env(w).markAt + Min(opts.rateLimitCooldown, opts.errorCooldown)
  {
    var uses := Serve(keys, opts, env, maxRetries).uses;
    var i := uses[v].index;
    w := LatestUse(uses[..v], u);
    ServeExplains(keys, opts, Job(env, maxRetries));
    LastLeftIs(uses[..v], w, i, keys[i]);
    assert ServedInTurn(uses, v, keys) && KeysLeft(uses[..v], keys)[i] == uses[w].after;
    UseBeforeLast(keys, opts, env, maxRetries, w);
    UseBeforeLast(keys, opts, env, maxRetries, v);
    RetriedKeyCools(uses[w], opts, uses[v].sentAt);
  }

  /** So a prompt request never repeats a key. */
  lemma {:induction false} PromptNeverRepeats(
      keys: seq<Key>, opts: Options, env: nat -> Attempt, maxRetries: nat, bound: int)
    requires opts.maxErrorCount == 1 && bound <= opts.rateLimitCooldown && bound <= opts.errorCooldown
    requires Isolated(keys, env, maxRetries) && Prompt(env, maxRetries, bound)
    ensures NeverRepeats(Serve(keys, opts, env, maxRetries).uses)
  {
    var uses := Serve(keys, opts, env, maxRetries).uses;
    forall u, v | 0 <= u < v < |uses|
      ensures uses[u].index != uses[v].index
    {
      if uses[u].index == uses[v].index {
        var w := RepeatIsLate(keys, opts, env, maxRetries, u, v);
      }
    }
  }

  /** When no attempt takes longer than this and the next one begins at once, a later Acquire comes at most
      that many times after an earlier report as there are attempts between them. */
  lemma {:induction false} AttemptTimeBoundsWait(env: nat -> Attempt, maxRetries: nat, longest: nat, u: nat, v: nat)
    requires forall n: nat | n < maxRetries :: env(n).markAt <= env(n).acquireAt + longest
    requires forall n: nat | n + 1 < maxRetries :: env(n + 1).acquireAt <= env(n).markAt
    requires u < v < maxRetries
    ensures env(v).acquireAt <= env(u).markAt + (v - u - 1) * longest
  {
    assert env(v - 1 + 1).acquireAt <= env(v - 1).markAt;
    if u < v - 1 {
      AttemptTimeBoundsWait(env, maxRetries, longest, u, v - 1);
      assert (v - u - 1) * longest == (v - 1 - u - 1) * longest + longest;
    }
  }

  /** So such a request is prompt with the longest attempt taken maxRetries - 2 times as the bound. */
  lemma AttemptTimeMakesPrompt(env: nat -> Attempt, maxRetries: nat, longest: nat)
    requires maxRetries >= 2
    requires forall n: nat | n < maxRetries :: env(n).markAt <= env(n).acquireAt + longest
    requires forall n: nat | n + 1 < maxRetries :: env(n + 1).acquireAt <= env(n).markAt
    ensures Prompt(env, maxRetries, (maxRetries - 2) * longest)
  {
    forall u: nat, v: nat | u < v < maxRetries
      ensures env(v).acquireAt <= env(u).markAt + (maxRetries - 2) * longest
    {
      AttemptTimeBoundsWait(env, maxRetries, longest, u, v);
      MoreTimesIsMore(v - u - 1, maxRetries - 2, longest);
    }
  }

  lemma MoreTimesIsMore(a: nat, b: nat, n: nat)
    requires a <= b
    ensures a * n <= b * n
  {
  }

  // ---------------------------------------------------------------- how many attempts

  /** The keys that are available at some Acquire of the request, in the state in which it found them. */
  ghost function AvailableDuring(keys: seq<Key>, env: nat -> Attempt, maxRetries: nat): set<nat> {
    set i: nat | i < |keys| && exists n: nat :: n < maxRetries && Available(keys[i], env(n).acquireAt)
  }

  function AvailableAt(keys: seq<Key>, t: Instant): set<nat> {
    set i: nat | i < |keys| && Available(keys[i], t)
  }

  lemma {:induction false} DistinctIndices(uses: seq<Use>, indices: set<nat>)
    requires NeverRepeats(uses)
    requires forall u :: 0 <= u < |uses| ==> uses[u].index in indices
    ensures |uses| <= |indices|
  {
    if uses != [] {
      var n := |uses| - 1;
      DistinctIndices(uses[..n], indices - {uses[n].index});
    }
  }

  lemma {:induction false} LastLeftUnused(uses: seq<Use>, i: nat, k0: Key)
    requires forall u :: 0 <= u < |uses| ==> uses[u].index != i
    ensures LastLeft(uses, i, k0) == k0
  {
    if uses != [] {
      LastLeftUnused(uses[..|uses| - 1], i, k0);
    }
  }

  /** A use of a key that was not used before finds it as the request did. */
  lemma {:induction false} FirstUseFindsKeyAvailable(
      keys: seq<Key>, opts: Options, env: nat -> Attempt, maxRetries: nat, v: nat)
    requires Isolated(keys, env, maxRetries)
    requires v < |Serve(keys, opts, env, maxRetries).uses|
    requires NeverRepeats(Serve(keys, opts, env, maxRetries).uses)
    ensures Serve(keys, opts, env, maxRetries).uses[v].index in AvailableDuring(keys, env, maxRetries)
  {
    var uses := Serve(keys, opts, env, maxRetries).uses;
    ServeExplains(keys, opts, Job(env, maxRetries));
    var i := uses[v].index;
    assert ServedInTurn(uses, v, keys);
    LastLeftUnused(uses[..v], i, keys[i]);
    assert KeysLeft(uses[..v], keys)[i] == keys[i];
    UseBeforeLast(keys, opts, env, maxRetries, v);
    assert Available(keys[i], env(v).acquireAt);
  }

  /** A request that repeats no key makes at most as many attempts as keys are available to it. */
  lemma {:induction false} AttemptsAreCapped(keys: seq<Key>, opts: Options, env: nat -> Attempt, maxRetries: nat)
    requires Isolated(keys, env, maxRetries)
    requires NeverRepeats(Serve(keys, opts, env, maxRetries).uses)
    ensures |Serve(keys, opts, env, maxRetries).uses| <= |AvailableDuring(keys, env, maxRetries)|
  {
    var uses := Serve(keys, opts, env, maxRetries).uses;
    forall v | 0 <= v < |uses|
      ensures uses[v].index in AvailableDuring(keys, env, maxRetries)
    {
      FirstUseFindsKeyAvailable(keys, opts, env, maxRetries, v);
    }
    DistinctIndices(uses, AvailableDuring(keys, env, maxRetries));
  }

  /** The request acquires its keys within [t0, t1]. */
  ghost predicate Within(env: nat -> Attempt, maxRetries: nat, t0: Instant, t1: Instant) {
    forall n: nat | n < maxRetries :: t0 <= env(n).acquireAt <= t1
  }

  /** When no key comes due meanwhile, those are the keys available when the request starts. */
  lemma AvailableDuringSettled(keys: seq<Key>, env: nat -> Attempt, maxRetries: nat, t0: Instant, t1: Instant)
    requires Settled(keys, t0, t1) && Within(env, maxRetries, t0, t1)
    requires maxRetries > 0
    ensures AvailableDuring(keys, env, maxRetries) == AvailableAt(keys, t0)
  {
    forall i: nat | i < |keys|
      ensures i in AvailableDuring(keys, env, maxRetries) <==> Available(keys[i], t0)
    {
      assert Available(keys[i], env(0).acquireAt) == Available(keys[i], t0);
    }
  }

  // ---------------------------------------------------------------- requests that break the promise

  /** Two attempts with this outcome, the second begun gap after the first was reported. */
  function Failing(result: Provider.UpstreamResult, gap: int): nat -> Attempt {
    (n: nat) =>
      var at := if n == 0 then SECOND else SECOND + gap;
      Attempt([], at, [], result, false, at)
  }

  const DOWN := Provider.UpstreamResult(Provider.ServerError, 0, [], Provider.NO_SNAPSHOT, Some("down"))

  lemma {:induction false} SecondAttemptRepeats(
      keys: seq<Key>, opts: Options, result: Provider.UpstreamResult, gap: int)
    requires keys != [] && DistinctLabels(keys) && keys[0].status.Active?
    requires Retryable(result, false)
    requires Available(AfterUse(keys[0], opts, Failing(result, gap)(0)), SECOND + gap)
    ensures var uses := Serve(keys, opts, Failing(result, gap), 2).uses;
      |uses| == 2 && uses[0].index == 0 && uses[1].index == 0
  {
    var env := Failing(result, gap);
    var turns := TurnsOf(opts, env);
    TurnsRunAlone(keys, opts, env(0));
    SelectIs(keys, SECOND, 0);
    var first := turns(keys, 0);
    AloneTurnKeepsEntries(keys, opts, env(0), first);
    TurnsRunAlone(first.keys, opts, env(1));
    SelectIs(first.keys, SECOND + gap, 0);
    var second := turns(first.keys, 1);
    var rest := Loop(turns, first.keys, 1, 1);
    assert rest.uses == [second.use];
    assert Serve(keys, opts, env, 2).uses == [first.use] + rest.uses;
  }

  /** Whenever the error limit is not 1, or a cooldown is shorter than the bound, some outcome makes a prompt
      request come back to its first key at once, whatever other keys there are. */
  lemma SomeFailureRepeats(keys: seq<Key>, opts: Options, bound: int) returns (env: nat -> Attempt)
    requires opts.rateLimitCooldown >= 0 && opts.errorCooldown >= 0 && bound >= 0
    requires opts.maxErrorCount != 1 || bound > opts.rateLimitCooldown || bound > opts.errorCooldown
    requires keys != [] && DistinctLabels(keys) && keys[0].status.Active? && keys[0].errorCount == 0
    ensures Isolated(keys, env, 2) && Timed(env, 2) && Prompt(env, 2, bound)
    ensures SECOND == env(0).acquireAt <= env(1).acquireAt == SECOND + bound
    ensures var uses := Serve(keys, opts, env, 2).uses;
      |uses| == 2 && uses[0].index == 0 && uses[1].index == 0
  {
    var result := if bound > opts.rateLimitCooldown then LIMITED else DOWN;
    env := Failing(result, bound);
    SecondAttemptRepeats(keys, opts, result, bound);
  }

  // ---------------------------------------------------------------- the promise

  /** A prompt request that has a pool with these entries to itself. */
  ghost predicate Asked(entries: seq<KeyEntry>, keys: seq<Key>, env: nat -> Attempt, maxRetries: nat, bound: int) {
    && SameEntries(NewKeys(entries), keys) && JobAlone(Job(env, maxRetries))
    && Timed(env, maxRetries) && Prompt(env, maxRetries, bound)
  }

  /** In whatever state the keys are, every such request tries a different key each time. */
  ghost predicate DifferentKeyEachRetry(entries: seq<KeyEntry>, opts: Options, bound: int) {
    forall keys: seq<Key>, env: nat -> Attempt, maxRetries: nat ::
      Asked(entries, keys, env, maxRetries, bound) ==> NeverRepeats(Serve(keys, opts, env, maxRetries).uses)
  }

  /** At least the first request on the new pool does. */
  ghost predicate DifferentKeyInNewPool(entries: seq<KeyEntry>, opts: Options, bound: int) {
    forall env: nat -> Attempt, maxRetries: nat ::
      Asked(entries, NewKeys(entries), env, maxRetries, bound)
      ==> NeverRepeats(Serve(NewKeys(entries), opts, env, maxRetries).uses)
  }

  /** Every such request makes at most as many attempts as keys are available to it. */
  ghost predicate AttemptsCapped(entries: seq<KeyEntry>, opts: Options, bound: int) {
    forall keys: seq<Key>, env: nat -> Attempt, maxRetries: nat ::
      Asked(entries, keys, env, maxRetries, bound)
      ==> |Serve(keys, opts, env, maxRetries).uses| <= |AvailableDuring(keys, env, maxRetries)|
  }

  /** The same for requests during which no key comes due: the keys available at their start are the bound. */
  ghost predicate CappedAtStart(entries: seq<KeyEntry>, opts: Options, bound: int) {
    forall keys: seq<Key>, env: nat -> Attempt, maxRetries: nat, t0: Instant, t1: Instant ::
      Asked(entries, keys, env, maxRetries, bound) && Settled(keys, t0, t1) && Within(env, maxRetries, t0, t1)
      ==> |Serve(keys, opts, env, maxRetries).uses| <= |AvailableAt(keys, t0)|
  }

  /** No two keys share a label, a single server error takes a key out of service, and no cooldown can end
      while the request is still being retried. */
  predicate KeepsPromise(entries: seq<KeyEntry>, opts: Options, bound: int) {
    && DistinctLabels(NewKeys(entries))
    && opts.maxErrorCount == 1 && bound <= Min(opts.rateLimitCooldown, opts.errorCooldown)
  }

  lemma {:induction false} PromiseIsKept(entries: seq<KeyEntry>, opts: Options, bound: int)
    requires KeepsPromise(entries, opts, bound)
    ensures DifferentKeyEachRetry(entries, opts, bound) && AttemptsCapped(entries, opts, bound)
    ensures CappedAtStart(entries, opts, bound)
  {
    forall keys: seq<Key>, env: nat -> Attempt, maxRetries: nat | Asked(entries, keys, env, maxRetries, bound)
      ensures NeverRepeats(Serve(keys, opts, env, maxRetries).uses)
      ensures |Serve(keys, opts, env, maxRetries).uses| <= |AvailableDuring(keys, env, maxRetries)|
    {
      PromptNeverRepeats(keys, opts, env, maxRetries, bound);
      AttemptsAreCapped(keys, opts, env, maxRetries);
    }
    forall keys: seq<Key>, env: nat -> Attempt, maxRetries: nat, t0: Instant, t1: Instant |
      Asked(entries, keys, env, maxRetries, bound) && Settled(keys, t0, t1) && Within(env, maxRetries, t0, t1)
      ensures |Serve(keys, opts, env, maxRetries).uses| <= |AvailableAt(keys, t0)|
    {
      if maxRetries > 0 {
        AvailableDuringSettled(keys, env, maxRetries, t0, t1);
      }
    }
  }

  /** The keys of a pool of which only key i is in service for a while. */
  function OnlyKey(entries: seq<KeyEntry>, i: nat, bound: int): (keys: seq<Key>)
    ensures |keys| == |entries| && SameEntries(NewKeys(entries), keys)
  {
    seq(|entries|, k requires 0 <= k < |entries| =>
      if k == i then NewKey(entries[k])
      else NewKey(entries[k]).(status := KeyStatus.RateLimited, cooldownUntil := 2 * SECOND + bound))
  }

  /** When the condition fails, a prompt request tries some key twice, and this in a new pool as well as in one
      where no other key is in service. */
  lemma {:induction false} PromiseIsBroken(entries: seq<KeyEntry>, opts: Options, bound: int)
    returns (env: nat -> Attempt, maxRetries: nat, i: nat, env1: nat -> Attempt)
    requires opts.rateLimitCooldown >= 0 && opts.errorCooldown >= 0 && bound >= 0
    requires entries != [] && !KeepsPromise(entries, opts, bound)
    ensures Asked(entries, NewKeys(entries), env, maxRetries, bound)
    ensures !NeverRepeats(Serve(NewKeys(entries), opts, env, maxRetries).uses)
    ensures i < |entries| && Asked(entries, OnlyKey(entries, i, bound), env1, 2, bound)
    ensures |Serve(OnlyKey(entries, i, bound), opts, env1, 2).uses| == 2
    ensures SECOND == env1(0).acquireAt <= env1(1).acquireAt <= SECOND + bound
  {
    if DistinctLabels(NewKeys(entries)) {
      maxRetries, i := 2, 0;
      env := SomeFailureRepeats(NewKeys(entries), opts, bound);
      env1 := SomeFailureRepeats(OnlyKey(entries, 0, bound), opts, bound);
    } else {
      i := BurstRepeats(entries, opts);
      env, env1, maxRetries := Burst(), Burst(), i + 2;
      assert Serve(NewKeys(entries), opts, env, maxRetries).uses[i].index == i;
      FirstIndexStable(NewKeys(entries), OnlyKey(entries, i, bound), entries[i].keyLabel);
      ShadowedKeyRepeats(OnlyKey(entries, i, bound), opts, i);
    }
  }

  lemma {:induction false} OnlyOneIsAvailable(
      entries: seq<KeyEntry>, i: nat, bound: int, env: nat -> Attempt)
    requires i < |entries| && bound >= 0
    requires SECOND == env(0).acquireAt <= env(1).acquireAt <= SECOND + bound
    ensures var keys := OnlyKey(entries, i, bound);
      && AvailableDuring(keys, env, 2) == {i} && AvailableAt(keys, SECOND) == {i}
      && Settled(keys, SECOND, SECOND + bound) && Within(env, 2, SECOND, SECOND + bound)
  {
    assert Available(OnlyKey(entries, i, bound)[i], env(0).acquireAt);
  }

  /** Both halves of the documented promise hold for a configured pool exactly under that condition. */
  lemma {:induction false} DifferentKeyEachRetryIff(entries: seq<KeyEntry>, opts: Options, bound: int)
    requires opts.rateLimitCooldown >= 0 && opts.errorCooldown >= 0 && bound >= 0 && entries != []
    ensures DifferentKeyEachRetry(entries, opts, bound) <==> KeepsPromise(entries, opts, bound)
    ensures DifferentKeyInNewPool(entries, opts, bound) <==> KeepsPromise(entries, opts, bound)
    ensures AttemptsCapped(entries, opts, bound) <==> KeepsPromise(entries, opts, bound)
    ensures CappedAtStart(entries, opts, bound) <==> KeepsPromise(entries, opts, bound)
  {
    hide Asked, NeverRepeats, KeepsPromise, Serve, AvailableDuring, AvailableAt, OnlyKey, Settled, Within;
    if KeepsPromise(entries, opts, bound) {
      PromiseIsKept(entries, opts, bound);
    } else {
      var env, maxRetries, i, env1 := PromiseIsBroken(entries, opts, bound);
      OnlyOneIsAvailable(entries, i, bound, env1);
    }
  }

  // ---------------------------------------------------------------- two requests in numbers

  /** Attempts that all fail 31 seconds after they began, one right after the other. */
  function Slow(): nat -> Attempt {
    (n: nat) => Attempt([], (1 + 31 * n) * SECOND, [], DOWN, false, (32 + 31 * n) * SECOND)
  }

  /** The first available key is used, and what the failure leaves of it takes its place. */
  lemma SlowTurn(keys: seq<Key>, opts: Options, n: nat, i: nat) returns (after: seq<Key>)
    requires DistinctLabels(keys) && i < |keys|
    requires forall j :: 0 <= j < i ==> !Available(keys[j], Slow()(n).acquireAt)
    requires Available(keys[i], Slow()(n).acquireAt)
    ensures after == keys[i := AfterUse(keys[i], opts, Slow()(n))] && DistinctLabels(after)
    ensures var turn := TurnsOf(opts, Slow())(keys, n);
      turn.Used? && turn.use.index == i && Retried(turn.use) && turn.keys == after
  {
    after := keys[i := AfterUse(keys[i], opts, Slow()(n))];
    SelectIs(keys, Slow()(n).acquireAt, i);
    TurnsRunAlone(keys, opts, Slow()(n));
  }

  /** Three retried attempts in a row. */
  lemma {:induction false} ThreeTurns(turns: Turns, keys: seq<Key>, keys1: seq<Key>, keys2: seq<Key>)
    requires var t := turns(keys, 0); t.Used? && Retried(t.use) && t.keys == keys1
    requires var t := turns(keys1, 1); t.Used? && Retried(t.use) && t.keys == keys2
    requires var t := turns(keys2, 2); t.Used? && Retried(t.use)
    ensures Loop(turns, keys, 0, 3).uses == [turns(keys, 0).use, turns(keys1, 1).use, turns(keys2, 2).use]
  {
    assert Loop(turns, keys2, 2, 1).uses == [turns(keys2, 2).use];
    assert Loop(turns, keys1, 1, 2).uses == [turns(keys1, 1).use, turns(keys2, 2).use];
  }

  /** Two keys, the default cooldowns of 60 and 30 seconds, three retries and an error limit of 1: the first
      key is back in service when the second one fails, and the third attempt uses it again. */
  lemma {:induction false} SlowFailuresRepeat()
    ensures var keys := NewKeys([KeyEntry("a", "secret"), KeyEntry("b", "other")]);
      var opts := Options(1, 60 * SECOND, 30 * SECOND, 1);
      var uses := Serve(keys, opts, Slow(), 3).uses;
      && Isolated(keys, Slow(), 3) && Timed(Slow(), 3)
      && |uses| == 3 && uses[0].index == 0 && uses[1].index == 1 && uses[2].index == 0
  {
    hide AfterUse, TurnOf, TurnsOf, Retried, Loop;
    var keys := NewKeys([KeyEntry("a", "secret"), KeyEntry("b", "other")]);
    var opts := Options(1, 60 * SECOND, 30 * SECOND, 1);
    var keys1 := SlowTurn(keys, opts, 0, 0);
    SlowFailureCools(keys[0], opts, 0);
    var keys2 := SlowTurn(keys1, opts, 1, 1);
    var keys3 := SlowTurn(keys2, opts, 2, 0);
    ThreeTurns(TurnsOf(opts, Slow()), keys, keys1, keys2);
  }

  lemma SlowFailureCools(k: Key, opts: Options, n: nat)
    requires k.status.Active? && opts.maxErrorCount == 1
    ensures var after := AfterUse(k, opts, Slow()(n));
      && after.status.Error? && after.cooldownUntil == Slow()(n).markAt + opts.errorCooldown
      && after.keyLabel == k.keyLabel
  {
  }

  /** A first 429 that takes two seconds, and another one right after it. */
  function TwoSeconds(): nat -> Attempt {
    (n: nat) => Attempt([], if n == 0 then SECOND else 3 * SECOND, [], LIMITED, false, 3 * SECOND)
  }

  /** The bound counts keys that come due while the request runs. Here one key is available when it starts,
      the other cools for another second, and an answer that takes two seconds makes room for both. */
  lemma {:induction false} KeyComesDue(opts: Options)
    requires opts.rateLimitCooldown >= 0
    ensures var keys := NewKeys([KeyEntry("a", "secret"), KeyEntry("b", "other")]);
      var cooling := keys[1 := keys[1].(status := KeyStatus.RateLimited, cooldownUntil := 2 * SECOND)];
      && Isolated(cooling, TwoSeconds(), 2) && Timed(TwoSeconds(), 2) && Prompt(TwoSeconds(), 2, 0)
      && AvailableAt(cooling, SECOND) == {0}
      && |Serve(cooling, opts, TwoSeconds(), 2).uses| == 2
  {
    var keys := NewKeys([KeyEntry("a", "secret"), KeyEntry("b", "other")]);
    var cooling := keys[1 := keys[1].(status := KeyStatus.RateLimited, cooldownUntil := 2 * SECOND)];
    var env := TwoSeconds();
    var turns := TurnsOf(opts, env);
    TurnsRunAlone(cooling, opts, env(0));
    SelectIs(cooling, SECOND, 0);
    var first := turns(cooling, 0);
    TurnsRunAlone(first.keys, opts, env(1));
    SelectIs(first.keys, 3 * SECOND, 1);
    var second := turns(first.keys, 1);
    assert Loop(turns, first.keys, 1, 1).uses == [second.use];
    assert Loop(turns, cooling, 0, 2).uses == [first.use] + [second.use];
  }

  /** Two keys with one label, an error limit of 1, three 429s at one instant: the indices tried are 0, 1, 1. */
  lemma {:induction false} SharedLabelRepeats(opts: Options)
    requires opts.rateLimitCooldown >= 0
    ensures var entries := [KeyEntry("a", "secret"), KeyEntry("a", "other")];
      var uses := Serve(NewKeys(entries), opts, Burst(), 3).uses;
      && Asked(entries, NewKeys(entries), Burst(), 3, 0)
      && |uses| == 3 && uses[0].index == 0 && uses[1].index == 1 && uses[2].index == 1
      && StaysActive(uses[1]) && StaysActive(uses[2])
  {
    var entries := [KeyEntry("a", "secret"), KeyEntry("a", "other")];
    assert Drained(entries, opts, 0) == NewKeys(entries);
    assert FirstIndex(NewKeys(entries), "a") == 0;
    BurstLoop(entries, opts, 1, 0, 0, 3);
  }
}
