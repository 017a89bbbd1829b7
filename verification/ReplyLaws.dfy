/** What each raw upstream reply does to the key it was got with, from the status line and the headers to the
    fields of the key; and that serving requests is a run of pool calls. */
module ReplyLaws {
  import opened Wrappers
  import opened Calendar
  import opened KeyModel
  import opened KeyLaws
  import opened PoolRuns
  import opened ProxyModel
  import opened Proxy
  import Provider
  import Text

  /** The reply was no complete answer, or one with a status of 500 or above. */
  predicate Failed(reply: Provider.Reply) {
    match reply
    case NotSent(_) => true
    case NetworkError(_) => true
    case Response(status, _, _) => status >= 500
  }

  /** What a failure is remembered by. */
  function Reason(reply: Provider.Reply): string {
    match reply
    case NotSent(reason) => reason
    case NetworkError(reason) => reason
    case Response(_, _, _) => "upstream server error"
  }

  /** A failure counts one error and no more, until a positive limit is reached. */
  predicate LeftByFailure(k: Key, after: Key, reason: string, opts: Options, now: Instant) {
    && after.errorCount == k.errorCount + 1 && after.lastError == reason
    && SameQuota(k, after) && after.lastUpdated == k.lastUpdated
    && if opts.maxErrorCount > 0 && after.errorCount >= opts.maxErrorCount
       then after.status == KeyStatus.Error && after.cooldownUntil == now + opts.errorCooldown
       else after.status == k.status && after.cooldownUntil == k.cooldownUntil
  }

  predicate LeftBy429(k: Key, after: Key, opts: Options, now: Instant) {
    && after.status == KeyStatus.RateLimited && after.cooldownUntil == now + opts.rateLimitCooldown
    && SameQuota(k, after) && after.lastUpdated == k.lastUpdated
    && after.errorCount == k.errorCount && after.lastError == k.lastError
  }

  predicate LeftByRefusal(k: Key, after: Key, reason: string, opts: Options, now: Instant) {
    && after.status == KeyStatus.Error && after.cooldownUntil == now + opts.errorCooldown
    && after.lastError == reason
    && SameQuota(k, after) && after.lastUpdated == k.lastUpdated && after.errorCount == k.errorCount
  }

  /** The pair these two headers tell, if both are numbers. */
  function Pair(h: Provider.Header, limit: string, remaining: string): Option<(int, int)> {
    match (Provider.HeaderNumber(h, limit), Provider.HeaderNumber(h, remaining))
    case (Some(l), Some(r)) => Some((l, r))
    case _ => None
  }

  /** Any other answer clears the errors and sets the pairs it tells; the key is out for the day when it tells
      that no more than the threshold is left. */
  predicate LeftByAnswer(
      k: Key, after: Key, h: Provider.Header, cfg: Provider.RateLimitConfig, opts: Options, now: Instant)
  {
    var daily := Pair(h, cfg.dailyLimitHeader, cfg.dailyRemainingHeader);
    var minute := Pair(h, cfg.minuteLimitHeader, cfg.minuteRemainingHeader);
    && after.errorCount == 0 && after.lastUpdated == now
    && (match daily
        case None => after.dailyLimit == k.dailyLimit && after.dailyRemaining == k.dailyRemaining
        case Some(pair) => after.dailyLimit == pair.0 && after.dailyRemaining == pair.1)
    && (match minute
        case None => after.minuteLimit == k.minuteLimit && after.minuteRemaining == k.minuteRemaining
        case Some(pair) => after.minuteLimit == pair.0 && after.minuteRemaining == pair.1)
    && after.status
       == (if daily.Some? && daily.value.1 <= opts.switchThreshold then KeyStatus.Exhausted else KeyStatus.Active)
    && after.keyLabel == k.keyLabel && after.key == k.key
    && after.cooldownUntil == k.cooldownUntil && after.lastError == k.lastError
  }

  /** How the key k is left when this exchange is reported on it. */
  predicate LeftByReply(k: Key, after: Key, p: Provider.Provider, x: Exchange, opts: Options) {
    if Failed(x.reply) then
      if x.cancelled then after == k else LeftByFailure(k, after, Reason(x.reply), opts, x.markAt)
    else if x.reply.status == 429 then LeftBy429(k, after, opts, x.markAt)
    else if x.reply.status == 401 then LeftByRefusal(k, after, "upstream returned 401", opts, x.markAt)
    else if x.reply.status == 403 then LeftByRefusal(k, after, "upstream returned 403", opts, x.markAt)
    else LeftByAnswer(k, after, x.reply.header, p.rateLimit, opts, x.markAt)
  }

  lemma {:induction false} ReportedReply(k: Key, keyLabel: string, p: Provider.Provider, x: Exchange, opts: Options)
    ensures var a := AttemptOf(p, x);
      LeftByReply(k, ReportOn(k, Report(keyLabel, a.result, a.cancelled), opts, a.markAt), p, x, opts)
  {
    StatusesAreSpelled();
  }

  lemma StatusesAreSpelled()
    ensures Text.Itoa(401) == "401" && Text.Itoa(403) == "403"
  {
    assert Text.Decimal(4) == "4" && Text.Decimal(40) == "40";
  }

  /** Whoever interferes: the first key with the label of the key used is left as the reply says, from what it
      was when the report came in, and no other key is touched by it. */
  lemma {:induction false} ReplyLaw(keys: seq<Key>, opts: Options, p: Provider.Provider, x: Exchange)
    requires TurnOf(keys, opts, AttemptOf(p, x)).Used?
    ensures var a := AttemptOf(p, x);
      var turn := TurnOf(keys, opts, a);
      var j := FirstIndex(keys, keys[turn.use.index].keyLabel);
      && LeftByReply(Met(keys, opts, a)[j], turn.keys[j], p, x, opts)
      && forall l :: 0 <= l < |keys| && l != j ==> turn.keys[l] == Met(keys, opts, a)[l]
  {
    ReportIsApplied(keys, opts, AttemptOf(p, x));
    var use := TurnOf(keys, opts, AttemptOf(p, x)).use;
    var j := FirstIndex(keys, keys[use.index].keyLabel);
    ReportedReply(Met(keys, opts, AttemptOf(p, x))[j], keys[use.index].keyLabel, p, x, opts);
  }

  /** Nobody interferes and labels are distinct: the first key that can be served is put in service and then
      left as the reply says, and no other key is touched. */
  lemma {:induction false} UndisturbedReplyLaw(keys: seq<Key>, opts: Options, p: Provider.Provider, x: Exchange)
    requires DistinctLabels(keys) && x.before == [] && x.during == []
    requires TurnOf(keys, opts, AttemptOf(p, x)).Used?
    ensures var turn := TurnOf(keys, opts, AttemptOf(p, x));
      var i := turn.use.index;
      && Servable(keys[i], x.acquireAt) && (forall j :: 0 <= j < i ==> !Servable(keys[j], x.acquireAt))
      && LeftByReply(Apply(keys, Acquire, opts, x.acquireAt)[i], turn.keys[i], p, x, opts)
      && forall j :: 0 <= j < |keys| && j != i ==> turn.keys[j] == keys[j]
  {
    var a := AttemptOf(p, x);
    ReplyLaw(keys, opts, p, x);
    var i := TurnOf(keys, opts, a).use.index;
    assert Run(keys, opts, []) == keys;
    FirstIndexIs(keys, keys[i].keyLabel, i);
    forall j | 0 <= j < |keys|
      ensures Servable(keys[j], x.acquireAt) <==> Available(keys[j], x.acquireAt)
    {
      SameDateIsSameDay(keys[j].lastUpdated, x.acquireAt);
    }
    assert Met(keys, opts, a) == Apply(keys, Acquire, opts, x.acquireAt);
  }

  // ---------------------------------------------------------------- requests are runs of calls

  /** The calls on the pool around and of one attempt, in the order in which they take the lock. */
  function CallsOf(keys: seq<Key>, opts: Options, a: Attempt): seq<Event> {
    var ready := Run(keys, opts, a.before);
    var i := Select(ready, a.acquireAt);
    if i == |keys| then a.before + [Event(Acquire, a.acquireAt)]
    else
      match Report(ready[i].keyLabel, a.result, a.cancelled)
      case None => a.before + [Event(Acquire, a.acquireAt)] + a.during
      case Some(call) => a.before + [Event(Acquire, a.acquireAt)] + a.during + [Event(call, a.markAt)]
  }

  lemma {:induction false} RunConcat(keys: seq<Key>, opts: Options, a: seq<Event>, b: seq<Event>)
    ensures Run(keys, opts, a + b) == Run(Run(keys, opts, a), opts, b)
  {
    if b == [] {
      assert a + b == a;
    } else {
      var n := |b| - 1;
      RunConcat(keys, opts, a, b[..n]);
      assert (a + b)[..|a| + n] == a + b[..n];
    }
  }

  lemma {:induction false} RunOne(keys: seq<Key>, opts: Options, e: Event)
    ensures Run(keys, opts, [e]) == Apply(keys, e.call, opts, e.at)
  {
    assert [e][..0] == [];
  }

  lemma {:induction false} CallsAreHandlerCalls(keys: seq<Key>, opts: Options, a: Attempt)
    requires HandlerCalls(a.before) && HandlerCalls(a.during)
    ensures HandlerCalls(CallsOf(keys, opts, a))
  {
  }

  /** An attempt does to the pool exactly what its calls and those of others do, one after the other. */
  lemma {:induction false} TurnIsRun(keys: seq<Key>, opts: Options, a: Attempt)
    ensures TurnOf(keys, opts, a).keys == Run(keys, opts, CallsOf(keys, opts, a))
  {
    hide Run, Reported, Select, FirstIndex, AfterAcquire;
    var ready := Run(keys, opts, a.before);
    var acquire := [Event(Acquire, a.acquireAt)];
    RunOne(ready, opts, acquire[0]);
    RunConcat(keys, opts, a.before, acquire);
    var i := Select(ready, a.acquireAt);
    if i < |keys| {
      var held := Run(keys, opts, a.before + acquire);
      RunConcat(keys, opts, a.before + acquire, a.during);
      ApplyKeepsEntries(ready, Acquire, opts, a.acquireAt);
      var report := Report(ready[i].keyLabel, a.result, a.cancelled);
      if report.Some? {
        RunOne(Run(held, opts, a.during), opts, Event(report.value, a.markAt));
        RunConcat(keys, opts, a.before + acquire + a.during, [Event(report.value, a.markAt)]);
      }
    }
  }

  /** So a whole request is a run of pool calls, and everything proved of runs holds of it. */
  lemma {:induction false} RequestIsRun(
      turns: Turns, keys: seq<Key>, opts: Options, env: nat -> Attempt, n: nat, left: nat) returns (events: seq<Event>)
    requires Realises(turns, opts, env)
    requires forall m: nat :: HandlerCalls(env(m).before) && HandlerCalls(env(m).during)
    ensures HandlerCalls(events) && Loop(turns, keys, n, left).keys == Run(keys, opts, events)
    decreases left
  {
    events := [];
    if left > 0 {
      var turn := TurnOf(keys, opts, env(n));
      assert turn == turns(keys, n);
      TurnIsRun(keys, opts, env(n));
      CallsAreHandlerCalls(keys, opts, env(n));
      events := CallsOf(keys, opts, env(n));
      if turn.Used? && Retried(turn.use) {
        var rest := RequestIsRun(turns, turn.keys, opts, env, n + 1, left - 1);
        RunConcat(keys, opts, events, rest);
        events := events + rest;
      }
    }
  }

  /** In particular, after any runs of calls and a request among them: a key in service has errors left, and an
      exhausted one was told so by its own upstream. */
  lemma {:induction false} RequestKeepsTheLaws(
      entries: seq<KeyEntry>, opts: Options, past: seq<Event>, env: nat -> Attempt, maxRetries: nat, i: nat)
    requires opts.maxErrorCount > 0 && i < |entries| && HandlerCalls(past)
    requires forall m: nat :: HandlerCalls(env(m).before) && HandlerCalls(env(m).during)
    ensures var keys := Serve(Run(NewKeys(entries), opts, past), opts, env, maxRetries).keys;
      && |keys| == |entries|
      && (keys[i].status == KeyStatus.Active ==> keys[i].errorCount < opts.maxErrorCount)
      && (keys[i].status == KeyStatus.Exhausted ==> keys[i].dailyRemaining <= opts.switchThreshold)
  {
    var keys := Run(NewKeys(entries), opts, past);
    var events := RequestIsRun(TurnsOf(opts, env), keys, opts, env, 0, maxRetries);
    RunConcat(NewKeys(entries), opts, past, events);
    ActiveKeysBelowLimit(entries, opts, past + events);
    var after := Run(NewKeys(entries), opts, past + events);
    if after[i].status == KeyStatus.Exhausted {
      ExhaustedMeansUsedUp(entries, opts, past + events, i);
    }
  }
}
