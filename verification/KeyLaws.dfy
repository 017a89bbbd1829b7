/** What each pool call does to each field of each key, and when a key is exhausted: the calls of module
    KeyModel in terms of the fields alone. */
module KeyLaws {
  import opened Calendar
  import opened KeyModel
  import opened PoolRuns

  /** Everything about the key that no call changes, and its quota, is the same in both. */
  predicate SameQuota(k: Key, k': Key) {
    && k.keyLabel == k'.keyLabel && k.key == k'.key
    && k.dailyLimit == k'.dailyLimit && k.dailyRemaining == k'.dailyRemaining
    && k.minuteLimit == k'.minuteLimit && k.minuteRemaining == k'.minuteRemaining
  }

  /** A new key is in service, with nothing told and nothing held against it. */
  lemma NewKeyIsBlank(entries: seq<KeyEntry>, i: nat)
    requires i < |entries|
    ensures var k := NewKeys(entries)[i];
      && k.keyLabel == entries[i].keyLabel && k.key == entries[i].key
      && k.status == KeyStatus.Active && k.errorCount == 0 && k.lastError == ""
      && k.lastUpdated == 0 && k.cooldownUntil == 0
      && k.dailyLimit == 0 && k.dailyRemaining == 0 && k.minuteLimit == 0 && k.minuteRemaining == 0
  {
  }

  /** A call that names an unknown label, or another key first, leaves the key alone. */
  lemma OtherKeysAreUntouched(keys: seq<Key>, call: Call, opts: Options, now: Instant, i: nat)
    requires i < |keys| && !call.Acquire?
    requires keys[i].keyLabel != call.keyLabel || exists j :: 0 <= j < i && keys[j].keyLabel == call.keyLabel
    ensures Apply(keys, call, opts, now)[i] == keys[i]
  {
  }

  /** The key is the one a call with this label lands on. */
  predicate IsNamed(keys: seq<Key>, i: nat, keyLabel: string) {
    i < |keys| && keys[i].keyLabel == keyLabel && forall j :: 0 <= j < i ==> keys[j].keyLabel != keyLabel
  }

  /** An answer leaves its key in service when it tells no daily pair or more than the threshold is left, and
      exhausted when it tells that no more is left. It clears the errors and sets just the pairs it tells. */
  lemma AnswerLaw(keys: seq<Key>, keyLabel: string, snap: Snapshot, opts: Options, now: Instant, i: nat)
    requires IsNamed(keys, i, keyLabel)
    ensures var k, after := keys[i], Apply(keys, UpdateFromUpstream(keyLabel, snap), opts, now)[i];
      && (!snap.hasDaily || snap.dailyRemaining > opts.switchThreshold ==> after.status == KeyStatus.Active)
      && (snap.hasDaily && snap.dailyRemaining <= opts.switchThreshold ==> after.status == KeyStatus.Exhausted)
      && after.errorCount == 0 && after.lastUpdated == now
      && (snap.hasDaily ==> after.dailyLimit == snap.dailyLimit && after.dailyRemaining == snap.dailyRemaining)
      && (!snap.hasDaily ==> after.dailyLimit == k.dailyLimit && after.dailyRemaining == k.dailyRemaining)
      && (snap.hasMinute ==> after.minuteLimit == snap.minuteLimit && after.minuteRemaining == snap.minuteRemaining)
      && (!snap.hasMinute ==> after.minuteLimit == k.minuteLimit && after.minuteRemaining == k.minuteRemaining)
      && after.keyLabel == k.keyLabel && after.key == k.key
      && after.cooldownUntil == k.cooldownUntil && after.lastError == k.lastError
  {
    FirstIndexIs(keys, keyLabel, i);
  }

  lemma RateLimitedLaw(keys: seq<Key>, keyLabel: string, opts: Options, now: Instant, i: nat)
    requires IsNamed(keys, i, keyLabel)
    ensures var k, after := keys[i], Apply(keys, MarkRateLimited(keyLabel), opts, now)[i];
      && after.status == KeyStatus.RateLimited && after.cooldownUntil == now + opts.rateLimitCooldown
      && SameQuota(k, after) && after.lastUpdated == k.lastUpdated
      && after.errorCount == k.errorCount && after.lastError == k.lastError
  {
    FirstIndexIs(keys, keyLabel, i);
  }

  lemma KeyInvalidLaw(keys: seq<Key>, keyLabel: string, reason: string, opts: Options, now: Instant, i: nat)
    requires IsNamed(keys, i, keyLabel)
    ensures var k, after := keys[i], Apply(keys, MarkKeyInvalid(keyLabel, reason), opts, now)[i];
      && after.status == KeyStatus.Error && after.cooldownUntil == now + opts.errorCooldown
      && after.lastError == reason
      && SameQuota(k, after) && after.lastUpdated == k.lastUpdated && after.errorCount == k.errorCount
  {
    FirstIndexIs(keys, keyLabel, i);
  }

  /** An error counts one, and takes the key out of service just when a positive limit is reached. */
  lemma ErrorLaw(keys: seq<Key>, keyLabel: string, reason: string, opts: Options, now: Instant, i: nat)
    requires IsNamed(keys, i, keyLabel)
    ensures var k, after := keys[i], Apply(keys, MarkError(keyLabel, reason), opts, now)[i];
      && after.errorCount == k.errorCount + 1 && after.lastError == reason
      && (opts.maxErrorCount > 0 && k.errorCount + 1 >= opts.maxErrorCount ==>
            after.status == KeyStatus.Error && after.cooldownUntil == now + opts.errorCooldown)
      && (opts.maxErrorCount <= 0 || k.errorCount + 1 < opts.maxErrorCount ==>
            after.status == k.status && after.cooldownUntil == k.cooldownUntil)
      && SameQuota(k, after) && after.lastUpdated == k.lastUpdated
  {
    FirstIndexIs(keys, keyLabel, i);
  }

  lemma ExhaustedLaw(keys: seq<Key>, keyLabel: string, opts: Options, now: Instant, i: nat)
    requires IsNamed(keys, i, keyLabel)
    ensures var k, after := keys[i], Apply(keys, MarkExhausted(keyLabel), opts, now)[i];
      && after.status == KeyStatus.Exhausted
      && after.lastUpdated == (if k.lastUpdated == 0 then now else k.lastUpdated)
      && SameQuota(k, after) && after.cooldownUntil == k.cooldownUntil
      && after.errorCount == k.errorCount && after.lastError == k.lastError
  {
    FirstIndexIs(keys, keyLabel, i);
  }

  /** The key can be served: it is in service, its cooldown is set and strictly over, or it was exhausted on
      another UTC date. */
  predicate Servable(k: Key, now: Instant) {
    || k.status == KeyStatus.Active
    || ((k.status == KeyStatus.RateLimited || k.status == KeyStatus.Error) && 0 != k.cooldownUntil < now)
    || (k.status == KeyStatus.Exhausted && k.lastUpdated != 0 && !SameUTCDate(k.lastUpdated, now))
  }

  /** Acquire touches the first key that can be served, and puts it in service; its errors are forgotten only
      when it comes out of a cooldown. */
  lemma {:induction false} AcquireLaw(keys: seq<Key>, opts: Options, now: Instant, i: nat)
    requires i < |keys|
    ensures var k, after := keys[i], Apply(keys, Acquire, opts, now)[i];
      if Servable(k, now) && forall j :: 0 <= j < i ==> !Servable(keys[j], now) then
        && after.status == KeyStatus.Active
        && after.errorCount == (if k.status == KeyStatus.RateLimited || k.status == KeyStatus.Error then 0
                                else k.errorCount)
        && SameQuota(k, after) && after.lastUpdated == k.lastUpdated
        && after.cooldownUntil == k.cooldownUntil && after.lastError == k.lastError
      else after == k
  {
    forall j | 0 <= j < |keys|
      ensures Servable(keys[j], now) <==> Available(keys[j], now)
    {
      SameDateIsSameDay(keys[j].lastUpdated, now);
    }
    if Servable(keys[i], now) && forall j :: 0 <= j < i ==> !Servable(keys[j], now) {
      SelectIs(keys, now, i);
    }
  }

  // ---------------------------------------------------------------- exhausted keys, over every run

  /** Some answer of the run for this key told a daily pair. */
  predicate ToldDaily(keys: seq<Key>, events: seq<Event>, i: nat)
    requires i < |keys|
  {
    exists p :: 0 <= p < |events| && events[p].call.UpdateFromUpstream?
      && IsNamed(keys, i, events[p].call.keyLabel) && events[p].call.snap.hasDaily
  }

  lemma {:induction false} ExhaustedStep(keys: seq<Key>, opts: Options, e: Event, i: nat)
    requires i < |keys| && !e.call.MarkExhausted?
    requires Apply(keys, e.call, opts, e.at)[i].status == KeyStatus.Exhausted
    ensures
      || (keys[i].status == KeyStatus.Exhausted
          && Apply(keys, e.call, opts, e.at)[i].dailyRemaining == keys[i].dailyRemaining)
      || (e.call.UpdateFromUpstream? && IsNamed(keys, i, e.call.keyLabel) && e.call.snap.hasDaily
          && Apply(keys, e.call, opts, e.at)[i].dailyRemaining <= opts.switchThreshold)
  {
    if e.call.Acquire? {
      AcquireLaw(keys, opts, e.at, i);
    } else if FirstIndex(keys, e.call.keyLabel) == i {
      match e.call {
        case UpdateFromUpstream(keyLabel, snap) => AnswerLaw(keys, keyLabel, snap, opts, e.at, i);
        case MarkRateLimited(keyLabel) => RateLimitedLaw(keys, keyLabel, opts, e.at, i);
        case MarkError(keyLabel, reason) => ErrorLaw(keys, keyLabel, reason, opts, e.at, i);
        case MarkKeyInvalid(keyLabel, reason) => KeyInvalidLaw(keys, keyLabel, reason, opts, e.at, i);
      }
    }
  }

  /** In every run of the handler's calls an exhausted key has had an answer of its own with both daily headers,
      and shows no more left than the threshold. */
  lemma {:induction false} ExhaustedMeansUsedUp(entries: seq<KeyEntry>, opts: Options, events: seq<Event>, i: nat)
    requires HandlerCalls(events) && i < |entries|
    requires Run(NewKeys(entries), opts, events)[i].status == KeyStatus.Exhausted
    ensures ToldDaily(NewKeys(entries), events, i)
    ensures Run(NewKeys(entries), opts, events)[i].dailyRemaining <= opts.switchThreshold
  {
    if events != [] {
      var n := |events| - 1;
      var was := Run(NewKeys(entries), opts, events[..n]);
      RunKeepsEntries(NewKeys(entries), opts, events[..n]);
      ExhaustedStep(was, opts, events[n], i);
      if was[i].status == KeyStatus.Exhausted {
        ExhaustedMeansUsedUp(entries, opts, events[..n], i);
      }
    } else {
      NewKeyIsBlank(entries, i);
    }
  }
}
