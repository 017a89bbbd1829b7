/** What holds of the pool after every run of calls. A run is any sequence of calls with any
    labels, so it covers every interleaving of any number of requests in flight. */
module PoolRuns {
  import opened Wrappers
  import opened Calendar
  import opened KeyModel

  /** The calls the request handler makes; nothing in it calls MarkExhausted. */
  predicate HandlerCalls(events: seq<Event>) {
    forall i :: 0 <= i < |events| ==> !events[i].call.MarkExhausted?
  }

  lemma {:induction false} PrefixOfRun(keys: seq<Key>, opts: Options, events: seq<Event>)
    requires events != []
    ensures var n := |events| - 1;
      && Run(keys, opts, events) == Apply(Run(keys, opts, events[..n]), events[n].call, opts, events[n].at)
      && events == events[..n] + [events[n]]
  {
  }

  // ---------------------------------------------------------------- self-healing

  function Max(a: int, b: int): int {
    if a < b then b else a
  }

  /** A key that is out of use knows when it may come back, and that lies in reach of time end. */
  predicate Healing(k: Key, opts: Options, end: Instant) {
    && (k.status.RateLimited? ==> NEVER < k.cooldownUntil <= end + opts.rateLimitCooldown)
    && (k.status.Error? ==> NEVER < k.cooldownUntil <= end + opts.errorCooldown)
    && (k.status.Exhausted? ==> NEVER < k.lastUpdated <= end)
    && NEVER <= k.lastUpdated <= end
  }

  lemma HealingStep(keys: seq<Key>, opts: Options, e: Event, end: Instant, i: nat)
    requires opts.rateLimitCooldown >= 0 && opts.errorCooldown >= 0
    requires i < |keys|
    requires Healing(keys[i], opts, end) && 0 < e.at && end <= e.at
    ensures Healing(Apply(keys, e.call, opts, e.at)[i], opts, e.at)
  {
  }

  lemma {:induction false} HealingRun(entries: seq<KeyEntry>, opts: Options, events: seq<Event>, end: Instant, i: nat)
    requires opts.rateLimitCooldown >= 0 && opts.errorCooldown >= 0
    requires WellTimed(events)
    requires 0 <= end && (events != [] ==> events[|events| - 1].at <= end)
    requires i < |entries|
    ensures Healing(Run(NewKeys(entries), opts, events)[i], opts, end)
  {
    if events != [] {
      var n := |events| - 1;
      var before := if n == 0 then 0 else events[n - 1].at;
      HealingRun(entries, opts, events[..n], before, i);
      HealingStep(Run(NewKeys(entries), opts, events[..n]), opts, events[n], before, i);
    }
  }

  /** Left alone after any run that has ended, every key is available once a later UTC day has begun
      and the longer cooldown has strictly passed since its end. */
  lemma {:induction false} SelfHealing(
      entries: seq<KeyEntry>, opts: Options, events: seq<Event>, end: Instant, t: Instant, i: nat)
    requires opts.rateLimitCooldown >= 0 && opts.errorCooldown >= 0
    requires WellTimed(events)
    requires 0 <= end && (events != [] ==> events[|events| - 1].at <= end)
    requires DayIndex(end) < DayIndex(t)
    requires t > end + Max(opts.rateLimitCooldown, opts.errorCooldown)
    requires i < |entries|
    ensures Available(Run(NewKeys(entries), opts, events)[i], t)
  {
    HealingRun(entries, opts, events, end, i);
    var k := Run(NewKeys(entries), opts, events)[i];
  }

  /** The bound in hours: a non-empty pool left alone for 24 hours, and for strictly more than both
      cooldowns, serves key 0 again. */
  lemma {:induction false} SelfHealingWithinADay(
      entries: seq<KeyEntry>, opts: Options, events: seq<Event>, end: Instant, t: Instant)
    requires opts.rateLimitCooldown >= 0 && opts.errorCooldown >= 0
    requires WellTimed(events)
    requires 0 <= end && (events != [] ==> events[|events| - 1].at <= end)
    requires t >= end + DAY && t > end + Max(opts.rateLimitCooldown, opts.errorCooldown)
    requires entries != []
    ensures Select(Run(NewKeys(entries), opts, events), t) == 0
  {
    SelfHealing(entries, opts, events, end, t, 0);
  }

  /** The bound cannot be improved: a key exhausted at midnight is out of use for that whole day, and a
      rate-limited or a refused one until strictly after its cooldown. */
  lemma SelfHealingBoundIsTight(e: KeyEntry, opts: Options, end: Instant, snap: Snapshot, t: Instant)
    requires end > 0 && end % DAY == 0 && Exhausting(snap, opts)
    ensures end <= t < end + DAY
      ==> Select(Run(NewKeys([e]), opts, [Event(UpdateFromUpstream(e.keyLabel, snap), end)]), t) == 1
    ensures t <= end + opts.rateLimitCooldown
      ==> Select(Run(NewKeys([e]), opts, [Event(MarkRateLimited(e.keyLabel), end)]), t) == 1
    ensures t <= end + opts.errorCooldown
      ==> Select(Run(NewKeys([e]), opts, [Event(MarkKeyInvalid(e.keyLabel, "401"), end)]), t) == 1
  {
    forall call: Call | !call.Acquire? && call.keyLabel == e.keyLabel
      ensures Run(NewKeys([e]), opts, [Event(call, end)]) == [Reported(NewKey(e), call, opts, end)]
    {
      OneReport(e, opts, call, end);
    }
  }

  lemma OneReport(e: KeyEntry, opts: Options, call: Call, at: Instant)
    requires !call.Acquire? && call.keyLabel == e.keyLabel
    ensures Run(NewKeys([e]), opts, [Event(call, at)]) == [Reported(NewKey(e), call, opts, at)]
  {
    assert [Event(call, at)][..0] == [];
    FirstIndexIs(NewKeys([e]), e.keyLabel, 0);
  }

  // ---------------------------------------------------------------- late reports

  /** A key exhausted today is out of use for the rest of the day, as long as no report names it. */
  lemma {:induction false} ExhaustedStaysOut(keys: seq<Key>, opts: Options, events: seq<Event>, i: nat, t: Instant)
    requires i < |keys| && keys[i].status.Exhausted?
    requires SameDay(keys[i].lastUpdated, t)
    requires forall p :: 0 <= p < |events| ==>
      SameDay(keys[i].lastUpdated, events[p].at) && !Hits(keys, events[p].call, i)
    ensures Run(keys, opts, events)[i] == keys[i] && !Available(keys[i], t)
  {
    if events != [] {
      var n := |events| - 1;
      ExhaustedStaysOut(keys, opts, events[..n], i, t);
      if !events[n].call.Acquire? {
        TargetStable(keys, opts, events[..n], events[n].call);
      }
    }
  }

  /** The call decides by itself whether key i may be served: every report does, except an error that leaves
      the key below the limit. */
  predicate Decides(keys: seq<Key>, opts: Options, call: Call, i: nat)
    requires i < |keys|
  {
    && Hits(keys, call, i)
    && (call.MarkError? ==> 0 < opts.maxErrorCount <= keys[i].errorCount + 1)
  }

  /** The last call of the run that decided about key i. */
  function LastDecision(keys: seq<Key>, opts: Options, events: seq<Event>, i: nat): Option<Event>
    requires i < |keys|
  {
    if events == [] then None
    else
      var n := |events| - 1;
      if Decides(Run(keys, opts, events[..n]), opts, events[n].call, i) then Some(events[n])
      else LastDecision(keys, opts, events[..n], i)
  }

  /** What such a decision means at time t of the same day; without one the key is still exhausted. */
  predicate AllowsUse(decision: Option<Event>, opts: Options, t: Instant) {
    match decision
    case None => false
    case Some(e) =>
      match e.call
      case UpdateFromUpstream(_, snap) => !Exhausting(snap, opts)
      case MarkRateLimited(_) => t > e.at + opts.rateLimitCooldown
      case MarkError(_, _) => t > e.at + opts.errorCooldown
      case MarkKeyInvalid(_, _) => t > e.at + opts.errorCooldown
      case MarkExhausted(_) => false
      case Acquire => false
  }

  /** The key is as this decision left it, up to a recovery by now. */
  ghost predicate Decided(k: Key, decision: Option<Event>, opts: Options, day: Instant, now: Instant) {
    && k.lastUpdated != NEVER && SameDay(k.lastUpdated, day)
    && match k.status
       case Active => AllowsUse(decision, opts, now)
       case Exhausted => forall t :: !AllowsUse(decision, opts, t)
       case RateLimited | Error =>
         k.cooldownUntil != NEVER && forall t :: AllowsUse(decision, opts, t) <==> t > k.cooldownUntil
  }

  lemma DecidedStep(
      keys: seq<Key>, opts: Options, e: Event, i: nat, decision: Option<Event>, day: Instant, now: Instant)
    requires i < |keys| && Decided(keys[i], decision, opts, day, now)
    requires opts.rateLimitCooldown >= 0 && opts.errorCooldown >= 0
    requires 0 < e.at && now <= e.at && SameDay(e.at, day)
    ensures var decision' := if Decides(keys, opts, e.call, i) then Some(e) else decision;
      Decided(Apply(keys, e.call, opts, e.at)[i], decision', opts, day, e.at)
  {
  }

  lemma {:induction false} DecidedRun(
      keys: seq<Key>, opts: Options, events: seq<Event>, i: nat, day: Instant, now: Instant)
    requires i < |keys| && keys[i].status.Exhausted?
    requires keys[i].lastUpdated != NEVER && SameDay(keys[i].lastUpdated, day)
    requires opts.rateLimitCooldown >= 0 && opts.errorCooldown >= 0
    requires WellTimed(events) && forall p :: 0 <= p < |events| ==> SameDay(events[p].at, day)
    requires events != [] ==> events[|events| - 1].at <= now
    ensures Decided(Run(keys, opts, events)[i], LastDecision(keys, opts, events, i), opts, day, now)
  {
    if events != [] {
      var n := |events| - 1;
      DecidedRun(keys, opts, events[..n], i, day, events[n].at);
      DecidedStep(Run(keys, opts, events[..n]), opts, events[n], i,
                  LastDecision(keys, opts, events[..n], i), day, events[n].at);
    }
  }

  /** "Not used again today", over every run. A key exhausted today can be served at time t of the same day,
      after whatever reports came in late, exactly when the last of them that decided about the key is an
      answer with quota to spare, or a mark whose cooldown is strictly over at t. */
  lemma {:induction false} SameDayReuseIff(keys: seq<Key>, opts: Options, events: seq<Event>, i: nat, t: Instant)
    requires i < |keys| && keys[i].status.Exhausted?
    requires keys[i].lastUpdated != NEVER && SameDay(keys[i].lastUpdated, t)
    requires opts.rateLimitCooldown >= 0 && opts.errorCooldown >= 0
    requires WellTimed(events) && forall p :: 0 <= p < |events| ==> SameDay(events[p].at, t) && events[p].at <= t
    ensures Available(Run(keys, opts, events)[i], t) <==> AllowsUse(LastDecision(keys, opts, events, i), opts, t)
  {
    DecidedRun(keys, opts, events, i, t, t);
  }

  /** Two requests in flight on one key: the first answer exhausts it, the late second one brings it back,
      and the next Acquire serves it on the same day. */
  lemma LateAnswerRevives(e: KeyEntry, opts: Options, full: Snapshot, empty: Snapshot)
    requires Exhausting(empty, opts) && !Exhausting(full, opts)
    ensures var run := [Event(Acquire, SECOND), Event(Acquire, 2 * SECOND),
                        Event(UpdateFromUpstream(e.keyLabel, empty), 3 * SECOND),
                        Event(UpdateFromUpstream(e.keyLabel, full), 4 * SECOND)];
      && Run(NewKeys([e]), opts, run[..3])[0].status.Exhausted?
      && Select(Run(NewKeys([e]), opts, run), 5 * SECOND) == 0
      && SameDay(3 * SECOND, 5 * SECOND)
  {
    var run := [Event(Acquire, SECOND), Event(Acquire, 2 * SECOND),
                Event(UpdateFromUpstream(e.keyLabel, empty), 3 * SECOND),
                Event(UpdateFromUpstream(e.keyLabel, full), 4 * SECOND)];
    PrefixOfRun(NewKeys([e]), opts, run);
    PrefixOfRun(NewKeys([e]), opts, run[..3]);
    RunKeepsEntries(NewKeys([e]), opts, run[..3]);
    RunKeepsEntries(NewKeys([e]), opts, run[..3][..2]);
  }

  // ---------------------------------------------------------------- error count as history

  predicate Cooling(k: Key) {
    k.status.RateLimited? || k.status.Error?
  }

  /** A report lands on the same key whatever the run before it did. */
  lemma TargetStable(keys: seq<Key>, opts: Options, events: seq<Event>, call: Call)
    requires !call.Acquire?
    ensures Target(Run(keys, opts, events), call) == Target(keys, call)
  {
    RunKeepsEntries(keys, opts, events);
    FirstIndexStable(keys, Run(keys, opts, events), call.keyLabel);
  }

  predicate Hits(keys: seq<Key>, call: Call, i: nat) {
    !call.Acquire? && Target(keys, call) == i
  }

  /** A call that starts a key's error history afresh: its own upstream answer,
      or the Acquire that finds its cooldown over. */
  predicate Resets(keys: seq<Key>, opts: Options, e: Event, i: nat)
    requires i < |keys|
  {
    || (e.call.UpdateFromUpstream? && Hits(keys, e.call, i))
    || (e.call.Acquire? && Cooling(keys[i]) && Apply(keys, e.call, opts, e.at)[i].status.Active?)
  }

  /** How many leading calls of the run belong to the past that the key's last reset wiped out. */
  function LastReset(keys: seq<Key>, opts: Options, events: seq<Event>, i: nat): (r: nat)
    requires i < |keys|
    ensures r <= |events|
  {
    if events == [] then 0
    else
      var n := |events| - 1;
      if Resets(Run(keys, opts, events[..n]), opts, events[n], i) then |events|
      else LastReset(keys, opts, events[..n], i)
  }

  /** LastReset is the position just after the last resetting call, and 0 when there is none. */
  lemma {:induction false} LastResetIsLast(keys: seq<Key>, opts: Options, events: seq<Event>, i: nat)
    requires i < |keys|
    ensures var r := LastReset(keys, opts, events, i);
      && (r > 0 ==> Resets(Run(keys, opts, events[..r - 1]), opts, events[r - 1], i))
      && (forall p :: r <= p < |events| ==> !Resets(Run(keys, opts, events[..p]), opts, events[p], i))
  {
    hide Run, Resets;
    if events != [] {
      var n := |events| - 1;
      var front := events[..n];
      LastResetIsLast(keys, opts, front, i);
      var r := LastReset(keys, opts, events, i);
      assert r > 0 && r < |events| ==> events[..r - 1] == front[..r - 1];
      forall p | r <= p < |events|
        ensures !Resets(Run(keys, opts, events[..p]), opts, events[p], i)
      {
        if p < n {
          assert events[..p] == front[..p];
        }
      }
    }
  }

  function CountErrors(keys: seq<Key>, events: seq<Event>, i: nat): nat {
    if events == [] then 0
    else
      var n := |events| - 1;
      CountErrors(keys, events[..n], i) + (if events[n].call.MarkError? && Hits(keys, events[n].call, i) then 1 else 0)
  }

  lemma CountErrorsSnoc(keys: seq<Key>, events: seq<Event>, e: Event, i: nat)
    ensures CountErrors(keys, events + [e], i)
      == CountErrors(keys, events, i) + (if e.call.MarkError? && Hits(keys, e.call, i) then 1 else 0)
  {
    assert (events + [e])[..|events|] == events;
  }

  lemma ErrorCountStep(keys: seq<Key>, opts: Options, e: Event, i: nat)
    requires i < |keys|
    ensures Apply(keys, e.call, opts, e.at)[i].errorCount
      == if Resets(keys, opts, e, i) then 0
         else keys[i].errorCount + (if e.call.MarkError? && Hits(keys, e.call, i) then 1 else 0)
  {
  }

  /** In every run, a key's error count is the number of errors marked on it since its last reset. */
  lemma {:induction false} ErrorCountIsHistory(entries: seq<KeyEntry>, opts: Options, events: seq<Event>, i: nat)
    requires i < |entries|
    ensures var keys := NewKeys(entries);
      Run(keys, opts, events)[i].errorCount
      == CountErrors(keys, events[LastReset(keys, opts, events, i)..], i)
  {
    var keys := NewKeys(entries);
    if events != [] {
      var n := |events| - 1;
      var front := events[..n];
      ErrorCountIsHistory(entries, opts, front, i);
      ErrorCountStep(Run(keys, opts, front), opts, events[n], i);
      if !events[n].call.Acquire? {
        TargetStable(keys, opts, front, events[n].call);
      }
      var r := LastReset(keys, opts, events, i);
      if r <= n {
        CountErrorsSnoc(keys, front[r..], events[n], i);
        assert events[r..] == front[r..] + [events[n]];
      }
    }
  }

  /** A key that may be served has not yet used up its errors. */
  predicate BelowLimit(keys: seq<Key>, opts: Options) {
    forall i :: 0 <= i < |keys| && !Cooling(keys[i]) ==> keys[i].errorCount < opts.maxErrorCount
  }

  lemma BelowLimitStep(keys: seq<Key>, opts: Options, e: Event)
    requires opts.maxErrorCount > 0 && BelowLimit(keys, opts)
    requires !e.call.MarkExhausted?
    ensures BelowLimit(Apply(keys, e.call, opts, e.at), opts)
  {
  }

  lemma {:induction false} ActiveKeysBelowLimit(entries: seq<KeyEntry>, opts: Options, events: seq<Event>)
    requires opts.maxErrorCount > 0 && HandlerCalls(events)
    ensures BelowLimit(Run(NewKeys(entries), opts, events), opts)
  {
    if events != [] {
      var n := |events| - 1;
      ActiveKeysBelowLimit(entries, opts, events[..n]);
      BelowLimitStep(Run(NewKeys(entries), opts, events[..n]), opts, events[n]);
    }
  }

  /** MarkExhausted, which the handler never calls, keeps that bound exactly when the key it names
      has errors left at the time of the call. */
  lemma MarkExhaustedKeepsLimitIff(keys: seq<Key>, opts: Options, keyLabel: string, now: Instant)
    requires opts.maxErrorCount > 0 && BelowLimit(keys, opts)
    ensures var i := FirstIndex(keys, keyLabel);
      BelowLimit(Apply(keys, MarkExhausted(keyLabel), opts, now), opts)
      <==> i == |keys| || keys[i].errorCount < opts.maxErrorCount
  {
    var i := FirstIndex(keys, keyLabel);
    var after := Apply(keys, MarkExhausted(keyLabel), opts, now);
    if i < |keys| {
      assert !Cooling(after[i]) && after[i].errorCount == keys[i].errorCount;
      assert forall j :: 0 <= j < |keys| && j != i ==> after[j] == keys[j];
    }
  }

  /** Such a run: one error on a key that allows one, then MarkExhausted, then the next day. The key is
      Active with its whole error budget spent. */
  lemma MarkExhaustedCanOverfill()
    ensures var opts := Options(1, 60 * SECOND, 30 * SECOND, 1);
      var events := [Event(MarkError("a", "boom"), SECOND), Event(MarkExhausted("a"), 2 * SECOND),
                     Event(Acquire, DAY + SECOND)];
      var k := Run(NewKeys([KeyEntry("a", "secret")]), opts, events)[0];
      k.status.Active? && k.errorCount == opts.maxErrorCount
  {
    var opts := Options(1, 60 * SECOND, 30 * SECOND, 1);
    var events := [Event(MarkError("a", "boom"), SECOND), Event(MarkExhausted("a"), 2 * SECOND),
                   Event(Acquire, DAY + SECOND)];
    var keys := NewKeys([KeyEntry("a", "secret")]);
    var k1 := keys[0].(errorCount := 1, lastError := "boom", status := Error, cooldownUntil := 31 * SECOND);
    assert events[..2][..1][..0] == [] && events[..2][..1] == [events[0]];
    assert events[..2] == events[..2][..1] + [events[1]];
    assert Run(keys, opts, events[..2][..1]) == [k1];
    var k2 := k1.(status := Exhausted, lastUpdated := 2 * SECOND);
    assert Run(keys, opts, events[..2]) == [k2];
    assert Available(k2, DAY + SECOND);
  }

  // ---------------------------------------------------------------- quota state

  /** An upstream answer reported under key i's own label. */
  predicate OwnAnswer(keys: seq<Key>, call: Call, i: nat)
    requires i < |keys|
  {
    call.UpdateFromUpstream? && call.keyLabel == keys[i].keyLabel
  }

  /** The daily pair of the latest own answer that carried one; zeros when none did. */
  function LastDaily(keys: seq<Key>, events: seq<Event>, i: nat): (int, int)
    requires i < |keys|
  {
    if events == [] then (0, 0)
    else
      var n := |events| - 1;
      var call := events[n].call;
      if OwnAnswer(keys, call, i) && call.snap.hasDaily then (call.snap.dailyLimit, call.snap.dailyRemaining)
      else LastDaily(keys, events[..n], i)
  }

  function LastMinute(keys: seq<Key>, events: seq<Event>, i: nat): (int, int)
    requires i < |keys|
  {
    if events == [] then (0, 0)
    else
      var n := |events| - 1;
      var call := events[n].call;
      if OwnAnswer(keys, call, i) && call.snap.hasMinute then (call.snap.minuteLimit, call.snap.minuteRemaining)
      else LastMinute(keys, events[..n], i)
  }

  /** Key i's quota fields say what its own upstream answers last said. */
  predicate QuotaIsOwn(keys: seq<Key>, opts: Options, events: seq<Event>, i: nat)
    requires i < |keys|
  {
    var k := Run(keys, opts, events)[i];
    && (k.dailyLimit, k.dailyRemaining) == LastDaily(keys, events, i)
    && (k.minuteLimit, k.minuteRemaining) == LastMinute(keys, events, i)
  }

  lemma QuotaStep(keys: seq<Key>, opts: Options, e: Event, i: nat)
    requires i < |keys| && FirstIndex(keys, keys[i].keyLabel) == i
    ensures var after := Apply(keys, e.call, opts, e.at)[i];
      var own := OwnAnswer(keys, e.call, i);
      && (after.dailyLimit, after.dailyRemaining)
         == (if own && e.call.snap.hasDaily then (e.call.snap.dailyLimit, e.call.snap.dailyRemaining)
             else (keys[i].dailyLimit, keys[i].dailyRemaining))
      && (after.minuteLimit, after.minuteRemaining)
         == (if own && e.call.snap.hasMinute then (e.call.snap.minuteLimit, e.call.snap.minuteRemaining)
             else (keys[i].minuteLimit, keys[i].minuteRemaining))
  {
  }

  lemma {:induction false} QuotaIsLastWord(entries: seq<KeyEntry>, opts: Options, events: seq<Event>, i: nat)
    requires i < |entries|
    requires var keys := NewKeys(entries); FirstIndex(keys, keys[i].keyLabel) == i
    ensures QuotaIsOwn(NewKeys(entries), opts, events, i)
  {
    if events != [] {
      var n := |events| - 1;
      QuotaIsLastWord(entries, opts, events[..n], i);
      RunKeepsEntries(NewKeys(entries), opts, events[..n]);
      FirstIndexStable(NewKeys(entries), Run(NewKeys(entries), opts, events[..n]), entries[i].keyLabel);
      QuotaStep(Run(NewKeys(entries), opts, events[..n]), opts, events[n], i);
    }
  }

  lemma ShadowedStep(keys: seq<Key>, opts: Options, e: Event, i: nat)
    requires i < |keys| && FirstIndex(keys, keys[i].keyLabel) != i
    requires keys[i].status.Active?
    ensures Apply(keys, e.call, opts, e.at)[i] == keys[i]
  {
  }

  /** A key whose label is already taken by an earlier key is never touched by any report: it stays as
      it was created, Active, through every run. */
  lemma {:induction false} ShadowedKeyNeverChanges(entries: seq<KeyEntry>, opts: Options, events: seq<Event>, i: nat)
    requires i < |entries|
    requires var keys := NewKeys(entries); FirstIndex(keys, keys[i].keyLabel) != i
    ensures Run(NewKeys(entries), opts, events)[i] == NewKey(entries[i])
  {
    if events != [] {
      var n := |events| - 1;
      ShadowedKeyNeverChanges(entries, opts, events[..n], i);
      RunKeepsEntries(NewKeys(entries), opts, events[..n]);
      FirstIndexStable(NewKeys(entries), Run(NewKeys(entries), opts, events[..n]), entries[i].keyLabel);
      ShadowedStep(Run(NewKeys(entries), opts, events[..n]), opts, events[n], i);
    }
  }

  /** So the quota law holds for a key in every run exactly when no earlier key carries its label. */
  lemma QuotaIsOwnIff(entries: seq<KeyEntry>, opts: Options, i: nat)
    requires i < |entries|
    ensures (forall events :: QuotaIsOwn(NewKeys(entries), opts, events, i))
      <==> (forall j :: 0 <= j < i ==> entries[j].keyLabel != entries[i].keyLabel)
  {
    var keys := NewKeys(entries);
    if FirstIndex(keys, keys[i].keyLabel) == i {
      forall events
        ensures QuotaIsOwn(keys, opts, events, i)
      {
        QuotaIsLastWord(entries, opts, events, i);
      }
      forall j | 0 <= j < i
        ensures entries[j].keyLabel != entries[i].keyLabel
      {
        assert keys[j].keyLabel != keys[i].keyLabel;
      }
    } else {
      var events := [Event(UpdateFromUpstream(keys[i].keyLabel, Snapshot(100, 50, 0, 0, true, false)), SECOND)];
      ShadowedKeyNeverChanges(entries, opts, events, i);
      assert LastDaily(keys, events, i) == (100, 50);
      assert !QuotaIsOwn(keys, opts, events, i);
      var j := FirstIndex(keys, keys[i].keyLabel);
      assert keys[j].keyLabel == keys[i].keyLabel && entries[j].keyLabel == entries[i].keyLabel;
    }
  }
}
