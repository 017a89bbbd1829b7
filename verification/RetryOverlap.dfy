/** One request among others, with an error limit of 1: what it takes to try a key twice. */
module RetryOverlap {
  import opened Calendar
  import opened KeyModel
  import opened ProxyModel
  import opened PoolRuns
  import opened RetryPromise

  /** The key cools at least until then. */
  predicate Cool(k: Key, until: Instant) {
    (k.status.RateLimited? || k.status.Error?) && k.cooldownUntil != NEVER && k.cooldownUntil >= until
  }

  /** The call does not bring the key with this label back: it is no upstream answer for it, and not the
      MarkExhausted that no request makes. */
  predicate Harmless(call: Call, keyLabel: string) {
    !call.Acquire? && call.keyLabel == keyLabel ==> !call.UpdateFromUpstream? && !call.MarkExhausted?
  }

  predicate AllHarmless(events: seq<Event>, keyLabel: string) {
    forall p :: 0 <= p < |events| ==> Harmless(events[p].call, keyLabel)
  }

  predicate AllWithin(events: seq<Event>, from: Instant, end: Instant) {
    forall p :: 0 <= p < |events| ==> from <= events[p].at <= end
  }

  lemma CoolStep(keys: seq<Key>, opts: Options, call: Call, at: Instant, i: nat, from: Instant, until: Instant)
    requires i < |keys| && Cool(keys[i], until) && opts.maxErrorCount == 1
    requires Harmless(call, keys[i].keyLabel)
    requires 0 < from <= at <= until <= from + Min(opts.rateLimitCooldown, opts.errorCooldown)
    ensures Cool(Apply(keys, call, opts, at)[i], until)
  {
  }

  lemma {:induction false} CoolRun(
      keys: seq<Key>, opts: Options, events: seq<Event>, i: nat, from: Instant, until: Instant)
    requires i < |keys| && Cool(keys[i], until) && opts.maxErrorCount == 1
    requires AllHarmless(events, keys[i].keyLabel) && AllWithin(events, from, until)
    requires 0 < from && until <= from + Min(opts.rateLimitCooldown, opts.errorCooldown)
    ensures Cool(Run(keys, opts, events)[i], until)
  {
    if events != [] {
      var n := |events| - 1;
      CoolRun(keys, opts, events[..n], i, from, until);
      RunKeepsEntries(keys, opts, events[..n]);
      CoolStep(Run(keys, opts, events[..n]), opts, events[n].call, events[n].at, i, from, until);
    }
  }

  /** An attempt that is retried, with harmless calls around it, leaves a cool key cool. */
  lemma {:induction false} CoolTurn(keys: seq<Key>, opts: Options, a: Attempt, i: nat, from: Instant, until: Instant)
    requires i < |keys| && Cool(keys[i], until) && opts.maxErrorCount == 1
    requires AllHarmless(a.before, keys[i].keyLabel) && AllHarmless(a.during, keys[i].keyLabel)
    requires AllWithin(a.before, from, until) && AllWithin(a.during, from, until)
    requires from <= a.acquireAt <= until && from <= a.markAt <= until
    requires 0 < from && until <= from + Min(opts.rateLimitCooldown, opts.errorCooldown)
    requires Retryable(a.result, a.cancelled)
    ensures Cool(TurnOf(keys, opts, a).keys[i], until)
  {
    var ready := Run(keys, opts, a.before);
    CoolRun(keys, opts, a.before, i, from, until);
    RunKeepsEntries(keys, opts, a.before);
    var held := Apply(ready, Acquire, opts, a.acquireAt);
    CoolStep(ready, opts, Acquire, a.acquireAt, i, from, until);
    ApplyKeepsEntries(ready, Acquire, opts, a.acquireAt);
    var j := Select(ready, a.acquireAt);
    if j < |keys| {
      CoolRun(held, opts, a.during, i, from, until);
      RunKeepsEntries(held, opts, a.during);
      CoolStep(Run(held, opts, a.during), opts, Report(held[j].keyLabel, a.result, a.cancelled).value, a.markAt,
               i, from, until);
    }
  }

  // ---------------------------------------------------------------- one request among others

  /** The clock never goes back, over the request's own calls and those of others around them. */
  ghost predicate Clocked(env: nat -> Attempt, maxRetries: nat) {
    forall n: nat | n < maxRetries ::
      && 0 < env(n).acquireAt <= env(n).markAt
      && AllWithin(env(n).during, env(n).acquireAt, env(n).markAt)
      && (n + 1 < maxRetries ==>
            && env(n).markAt <= env(n + 1).acquireAt
            && AllWithin(env(n + 1).before, env(n).markAt, env(n + 1).acquireAt))
  }

  /** The other calls are those of requests. */
  ghost predicate OnlyRequests(env: nat -> Attempt) {
    forall n: nat :: HandlerCalls(env(n).before) && HandlerCalls(env(n).during)
  }

  predicate HasAnswer(events: seq<Event>, keyLabel: string) {
    exists p :: 0 <= p < |events| && events[p].call.UpdateFromUpstream? && events[p].call.keyLabel == keyLabel
  }

  /** Between the report of attempt u and the Acquire of attempt v, another request reported an upstream answer
      for the key with this label. */
  ghost predicate AnsweredBetween(env: nat -> Attempt, u: nat, v: nat, keyLabel: string) {
    || (exists m: nat :: u < m <= v && HasAnswer(env(m).before, keyLabel))
    || (exists m: nat :: u < m < v && HasAnswer(env(m).during, keyLabel))
  }

  lemma NoAnswerIsHarmless(events: seq<Event>, keyLabel: string)
    requires HandlerCalls(events) && !HasAnswer(events, keyLabel)
    ensures AllHarmless(events, keyLabel)
  {
  }

  lemma {:induction false} LaterAttempt(env: nat -> Attempt, maxRetries: nat, u: nat, m: nat)
    requires Clocked(env, maxRetries) && u < m < maxRetries
    ensures env(u).markAt <= env(m).acquireAt
  {
    assert env(m - 1).markAt <= env(m - 1 + 1).acquireAt;
    if u < m - 1 {
      LaterAttempt(env, maxRetries, u, m - 1);
    }
  }

  /** Right after its report the key cools for the shorter cooldown at least. */
  lemma {:induction false} ReportCools(keys: seq<Key>, opts: Options, a: Attempt)
    requires DistinctLabels(keys) && opts.maxErrorCount == 1 && a.markAt > 0
    requires opts.rateLimitCooldown >= 0 && opts.errorCooldown >= 0
    requires TurnOf(keys, opts, a).Used? && Retried(TurnOf(keys, opts, a).use)
    ensures var turn := TurnOf(keys, opts, a);
      Cool(turn.keys[turn.use.index], a.markAt + Min(opts.rateLimitCooldown, opts.errorCooldown))
  {
    ReportLands(keys, opts, a);
    FirstIndexIs(keys, keys[TurnOf(keys, opts, a).use.index].keyLabel, TurnOf(keys, opts, a).use.index);
  }

  /** Attempt m of the request, on the keys it finds; those before the last use were used and retried. */
  lemma {:induction false} TurnAt(keys: seq<Key>, opts: Options, env: nat -> Attempt, maxRetries: nat, m: nat)
    requires m < |Serve(keys, opts, env, maxRetries).uses|
    ensures var found := KeysAt(TurnsOf(opts, env), keys, 0, m);
      && SameEntries(keys, found) && m < maxRetries
      && TurnOf(found, opts, env(m)).Used?
      && TurnOf(found, opts, env(m)).use == Serve(keys, opts, env, maxRetries).uses[m]
      && KeysAt(TurnsOf(opts, env), keys, 0, m + 1) == TurnOf(found, opts, env(m)).keys
      && (m + 1 < |Serve(keys, opts, env, maxRetries).uses| ==> Retried(TurnOf(found, opts, env(m)).use))
  {
    hide Loop, TurnOf, KeysAt;
    UsesAreTurns(TurnsOf(opts, env), keys, 0, maxRetries, m);
    UseBeforeLast(keys, opts, env, maxRetries, m);
    KeysAtKeepEntries(keys, opts, env, m);
    assert TurnsOf(opts, env)(KeysAt(TurnsOf(opts, env), keys, 0, m), m)
      == TurnOf(KeysAt(TurnsOf(opts, env), keys, 0, m), opts, env(m));
  }

  lemma {:induction false} KeysAtKeepEntries(keys: seq<Key>, opts: Options, env: nat -> Attempt, m: nat)
    ensures SameEntries(keys, KeysAt(TurnsOf(opts, env), keys, 0, m))
  {
    if m > 0 {
      KeysAtKeepEntries(keys, opts, env, m - 1);
      KeysAtNext(TurnsOf(opts, env), keys, 0, m - 1);
      TurnKeepsEntries(KeysAt(TurnsOf(opts, env), keys, 0, m - 1), opts, env(m - 1));
    }
  }

  /** Without such an answer the key of attempt u stays cool up to attempt m. */
  lemma {:induction false} StaysCool(
      keys: seq<Key>, opts: Options, env: nat -> Attempt, maxRetries: nat, bound: int, u: nat, m: nat, v: nat)
    requires opts.maxErrorCount == 1 && opts.rateLimitCooldown >= 0 && opts.errorCooldown >= 0
    requires bound <= Min(opts.rateLimitCooldown, opts.errorCooldown)
    requires DistinctLabels(keys) && Clocked(env, maxRetries) && OnlyRequests(env) && Prompt(env, maxRetries, bound)
    requires u < m <= v < |Serve(keys, opts, env, maxRetries).uses|
    requires var i := Serve(keys, opts, env, maxRetries).uses[u].index;
      i < |keys| && !AnsweredBetween(env, u, v, keys[i].keyLabel)
    ensures var i := Serve(keys, opts, env, maxRetries).uses[u].index;
      var found := KeysAt(TurnsOf(opts, env), keys, 0, m);
      && |found| == |keys|
      && Cool(found[i], env(u).markAt + Min(opts.rateLimitCooldown, opts.errorCooldown))
    decreases m
  {
    hide Loop, TurnsOf, KeysAt, TurnOf, Cool, Clocked, HandlerCalls;
    var i := Serve(keys, opts, env, maxRetries).uses[u].index;
    TurnAt(keys, opts, env, maxRetries, m - 1);
    var found := KeysAt(TurnsOf(opts, env), keys, 0, m - 1);
    if m == u + 1 {
      AttemptTimes(env, maxRetries, u);
      ReportCools(found, opts, env(u));
    } else {
      StaysCool(keys, opts, env, maxRetries, bound, u, m - 1, v);
      var from := env(u).markAt;
      AttemptTimes(env, maxRetries, u);
      BetweenTimes(env, maxRetries, bound, u, m - 1);
      NoAnswerIsHarmless(env(m - 1).before, keys[i].keyLabel);
      NoAnswerIsHarmless(env(m - 1).during, keys[i].keyLabel);
      CoolTurn(found, opts, env(m - 1), i, from, from + Min(opts.rateLimitCooldown, opts.errorCooldown));
    }
  }

  lemma AttemptTimes(env: nat -> Attempt, maxRetries: nat, m: nat)
    requires Clocked(env, maxRetries) && m < maxRetries
    ensures 0 < env(m).acquireAt <= env(m).markAt
  {
  }

  /** Everything around attempt m comes after the report of attempt u and within the bound. */
  lemma {:induction false} BetweenTimes(env: nat -> Attempt, maxRetries: nat, bound: int, u: nat, m: nat)
    requires Clocked(env, maxRetries) && Prompt(env, maxRetries, bound) && u < m && m + 1 < maxRetries
    ensures var from, end := env(u).markAt, env(u).markAt + bound;
      && from <= env(m).acquireAt <= env(m).markAt <= end
      && AllWithin(env(m).before, from, end) && AllWithin(env(m).during, from, end)
  {
    LaterAttempt(env, maxRetries, u, m);
    assert env(m).markAt <= env(m + 1).acquireAt <= env(u).markAt + bound;
    assert AllWithin(env(m - 1 + 1).before, env(m - 1).markAt, env(m - 1 + 1).acquireAt);
    if u < m - 1 {
      LaterAttempt(env, maxRetries, u, m - 1);
      AttemptTimes(env, maxRetries, m - 1);
    }
  }

  /** With distinct labels and an error limit of 1, whoever else uses the pool: when a prompt request tries a key
      twice, another request has reported an upstream answer for that key in between. */
  lemma {:induction false} RepeatNeedsAnAnswer(
      keys: seq<Key>, opts: Options, env: nat -> Attempt, maxRetries: nat, bound: int, u: nat, v: nat)
    requires opts.maxErrorCount == 1 && opts.rateLimitCooldown >= 0 && opts.errorCooldown >= 0
    requires bound <= Min(opts.rateLimitCooldown, opts.errorCooldown)
    requires DistinctLabels(keys) && Clocked(env, maxRetries) && OnlyRequests(env) && Prompt(env, maxRetries, bound)
    requires u < v < |Serve(keys, opts, env, maxRetries).uses|
    requires var uses := Serve(keys, opts, env, maxRetries).uses; uses[u].index == uses[v].index
    ensures var i := Serve(keys, opts, env, maxRetries).uses[u].index;
      i < |keys| && AnsweredBetween(env, u, v, keys[i].keyLabel)
  {
    TurnAt(keys, opts, env, maxRetries, u);
    TurnAt(keys, opts, env, maxRetries, v);
    var i := Serve(keys, opts, env, maxRetries).uses[u].index;
    if !AnsweredBetween(env, u, v, keys[i].keyLabel) {
      StaysCool(keys, opts, env, maxRetries, bound, u, v, v);
      CoolIsNotSelected(KeysAt(TurnsOf(opts, env), keys, 0, v), opts, env, maxRetries, bound, u, v, i);
    }
  }

  lemma {:induction false} CoolIsNotSelected(
      found: seq<Key>, opts: Options, env: nat -> Attempt, maxRetries: nat, bound: int, u: nat, v: nat, i: nat)
    requires opts.maxErrorCount == 1 && bound <= Min(opts.rateLimitCooldown, opts.errorCooldown)
    requires Clocked(env, maxRetries) && OnlyRequests(env) && Prompt(env, maxRetries, bound) && u < v < maxRetries
    requires i < |found| && Cool(found[i], env(u).markAt + Min(opts.rateLimitCooldown, opts.errorCooldown))
    requires !AnsweredBetween(env, u, v, found[i].keyLabel)
    requires TurnOf(found, opts, env(v)).Used?
    ensures TurnOf(found, opts, env(v)).use.index != i
  {
    var from, until := env(u).markAt, env(u).markAt + Min(opts.rateLimitCooldown, opts.errorCooldown);
    AttemptTimes(env, maxRetries, u);
    LaterAttempt(env, maxRetries, u, v);
    assert AllWithin(env(v - 1 + 1).before, env(v - 1).markAt, env(v - 1 + 1).acquireAt);
    if u < v - 1 {
      LaterAttempt(env, maxRetries, u, v - 1);
      AttemptTimes(env, maxRetries, v - 1);
    }
    NoAnswerIsHarmless(env(v).before, found[i].keyLabel);
    CoolRun(found, opts, env(v).before, i, from, until);
    assert !Available(Run(found, opts, env(v).before)[i], env(v).acquireAt);
  }
}
