/** Which replies take a key out of service as exhausted, and which of them are retried. The design wants both
    at once for a reply that says the daily quota is used up; no reply gets both. */
module QuotaExhaustion {
  import opened Calendar
  import opened KeyModel
  import opened ProxyModel
  import opened Proxy
  import opened ClientView
  import opened SequentialUse
  import Provider
  import Text

  /** The reply says that the daily quota is used up, down to the switch threshold. */
  predicate SaysUsedUp(p: Provider.Provider, reply: Provider.Reply, opts: Options) {
    reply.Response? && Exhausting(Provider.ParseRateLimit(reply.header, p.rateLimit), opts)
  }

  /** It says so, and it is one that is passed on to the client. */
  predicate Exhausts(p: Provider.Provider, reply: Provider.Reply, opts: Options) {
    SaysUsedUp(p, reply, opts) && !Hidden(reply.status)
  }

  /** An attempt that nobody disturbs leaves its key exhausted exactly when its reply says that the quota is
      used up and is passed on to the client; and then it is not retried. */
  lemma {:induction false} AttemptExhaustsIff(keys: seq<Key>, opts: Options, p: Provider.Provider, x: Exchange)
    requires DistinctLabels(keys) && x.before == [] && x.during == []
    requires TurnOf(keys, opts, AttemptOf(p, x)).Used?
    ensures var use := TurnOf(keys, opts, AttemptOf(p, x)).use;
      && (use.after.status.Exhausted? <==> Exhausts(p, x.reply, opts))
      && (use.after.status.Exhausted? ==> !Retried(use))
  {
    TurnsRunAlone(keys, opts, AttemptOf(p, x));
    AttemptIsRetriedIff(p, x);
  }

  /** The same whoever interferes, for the key the report lands on: the report leaves it exhausted exactly when
      the reply is such a one, or the key was exhausted already and the report leaves its status alone. */
  lemma {:induction false} ReportExhaustsIff(keys: seq<Key>, opts: Options, p: Provider.Provider, x: Exchange)
    requires TurnOf(keys, opts, AttemptOf(p, x)).Used?
    ensures var turn := TurnOf(keys, opts, AttemptOf(p, x));
      var j := FirstIndex(keys, keys[turn.use.index].keyLabel);
      var met := Met(keys, opts, AttemptOf(p, x))[j];
      var tolerated := ServerTrouble(x.reply) && !(0 < opts.maxErrorCount <= met.errorCount + 1);
      var silent := ServerTrouble(x.reply) && x.cancelled;
      && (turn.keys[j].status.Exhausted? <==>
            Exhausts(p, x.reply, opts) || (met.status.Exhausted? && (tolerated || silent)))
      && (Exhausts(p, x.reply, opts) ==> !Retried(turn.use))
  {
    hide TurnOf, Met, Exhausts;
    var a := AttemptOf(p, x);
    ReportIsApplied(keys, opts, a);
    var use := TurnOf(keys, opts, a).use;
    var keyLabel := keys[use.index].keyLabel;
    ReportedExhaustsIff(Met(keys, opts, a)[FirstIndex(keys, keyLabel)], keyLabel, opts, p, x);
    AttemptIsRetriedIff(p, x);
  }

  lemma {:induction false} ReportedExhaustsIff(
      met: Key, keyLabel: string, opts: Options, p: Provider.Provider, x: Exchange)
    ensures var a := AttemptOf(p, x);
      var tolerated := ServerTrouble(x.reply) && !(0 < opts.maxErrorCount <= met.errorCount + 1);
      var silent := ServerTrouble(x.reply) && x.cancelled;
      && (ReportOn(met, Report(keyLabel, a.result, a.cancelled), opts, a.markAt).status.Exhausted? <==>
            Exhausts(p, x.reply, opts) || (met.status.Exhausted? && (tolerated || silent)))
      && (Exhausts(p, x.reply, opts) ==> !WrittenOff(x))
  {
  }

  /** A reply that says the quota is used up marks the key exhausted exactly when it is passed on, and is
      retried only when it is not: the two never come together. */
  lemma {:induction false} NeverExhaustedAndRetried(keys: seq<Key>, opts: Options, p: Provider.Provider, x: Exchange)
    requires DistinctLabels(keys) && x.before == [] && x.during == []
    requires TurnOf(keys, opts, AttemptOf(p, x)).Used? && SaysUsedUp(p, x.reply, opts)
    ensures var use := TurnOf(keys, opts, AttemptOf(p, x)).use;
      && (use.after.status.Exhausted? <==> !Hidden(x.reply.status))
      && (Retried(use) <==> Hidden(x.reply.status) && !(x.reply.status >= 500 && x.cancelled))
  {
    AttemptExhaustsIff(keys, opts, p, x);
    AttemptIsRetriedIff(p, x);
  }

  /** The input: a 429 whose headers say that nothing is left of the day's quota. Its key is only rate limited,
      and may be served again on the same day as soon as that cooldown is strictly over. */
  lemma {:induction false} UsedUp429IsServedAgain(
      keys: seq<Key>, opts: Options, p: Provider.Provider, x: Exchange, t: Instant)
    requires DistinctLabels(keys) && x.before == [] && x.during == []
    requires x.reply.Response? && x.reply.status == 429 && SaysUsedUp(p, x.reply, opts)
    requires opts.rateLimitCooldown >= 0 && x.markAt > 0
    requires TurnOf(keys, opts, AttemptOf(p, x)).Used?
    ensures var use := TurnOf(keys, opts, AttemptOf(p, x)).use;
      && use.after.status.RateLimited? && Retried(use)
      && (Available(use.after, t) <==> t > x.markAt + opts.rateLimitCooldown)
  {
    TurnsRunAlone(keys, opts, AttemptOf(p, x));
  }

  const LIMIT_HEADER := Provider.API_SPORTS_RATE_LIMIT.dailyLimitHeader
  const REMAINING_HEADER := Provider.API_SPORTS_RATE_LIMIT.dailyRemainingHeader

  /** A 429 with these quota headers. */
  function UsedUp429(limit: int, remaining: int): Provider.Reply {
    Provider.Response(429, map[LIMIT_HEADER := Text.Itoa(limit), REMAINING_HEADER := Text.Itoa(remaining)], [])
  }

  /** Such a 429 says that the quota is used up, to a provider of the built-in kind. */
  lemma {:induction false} UsedUp429SaysSo(opts: Options, limit: int, remaining: int)
    requires remaining <= opts.switchThreshold
    ensures SaysUsedUp(DefaultProvider(), UsedUp429(limit, remaining), opts)
  {
    assert Text.TrimSpace(LIMIT_HEADER) == LIMIT_HEADER && Text.TrimSpace(REMAINING_HEADER) == REMAINING_HEADER;
    Provider.PrintedQuotaIsRead(
      UsedUp429(limit, remaining).header, DefaultProvider().rateLimit, limit, remaining);
  }
}
