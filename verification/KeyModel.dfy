/** The credential pool on values: what one call does to the keys, and what a run of calls does.
    The classes of module Keypool are proved against these functions. */
module KeyModel {
  import opened Calendar

  datatype KeyStatus = Active | Exhausted | RateLimited | Error

  datatype KeyEntry = KeyEntry(keyLabel: string, key: string)

  datatype Options = Options(switchThreshold: int, rateLimitCooldown: int, errorCooldown: int, maxErrorCount: int)

  /** The quota headers of one upstream response. */
  datatype Snapshot = Snapshot(
    dailyLimit: int, dailyRemaining: int, minuteLimit: int, minuteRemaining: int, hasDaily: bool, hasMinute: bool)

  datatype Key = Key(
    keyLabel: string, key: string,
    dailyLimit: int, dailyRemaining: int, minuteLimit: int, minuteRemaining: int,
    lastUpdated: Instant, status: KeyStatus, cooldownUntil: Instant, errorCount: nat, lastError: string)

  function NewKey(e: KeyEntry): Key {
    Key(e.keyLabel, e.key, 0, 0, 0, 0, NEVER, Active, NEVER, 0, "")
  }

  function NewKeys(entries: seq<KeyEntry>): (keys: seq<Key>)
    ensures |keys| == |entries|
  {
    seq(|entries|, i requires 0 <= i < |entries| => NewKey(entries[i]))
  }

  /** The keys stand for the same configured entries, in the same order. */
  predicate SameEntries(keys: seq<Key>, keys': seq<Key>) {
    && |keys| == |keys'|
    && forall i :: 0 <= i < |keys| ==> keys[i].keyLabel == keys'[i].keyLabel && keys[i].key == keys'[i].key
  }

  predicate DistinctLabels(keys: seq<Key>) {
    forall i, j :: 0 <= i < j < |keys| ==> keys[i].keyLabel != keys[j].keyLabel
  }

  // ---------------------------------------------------------------- selection

  /** The key would be served by an Acquire at this instant that gets as far as it. */
  predicate Available(k: Key, now: Instant) {
    match k.status
    case Active => true
    case RateLimited | Error => k.cooldownUntil != NEVER && now > k.cooldownUntil
    case Exhausted => k.lastUpdated != NEVER && !SameDay(k.lastUpdated, now)
  }

  /** What the lazy recovery inside Acquire makes of a key. */
  function Refreshed(k: Key, now: Instant): Key {
    match k.status
    case Active => k
    case RateLimited | Error => if Available(k, now) then k.(status := Active, errorCount := 0) else k
    case Exhausted => if Available(k, now) then k.(status := Active) else k
  }

  /** The least index of an available key, or |keys| when there is none. */
  function Select(keys: seq<Key>, now: Instant): (i: nat)
    ensures i <= |keys|
    ensures forall j :: 0 <= j < i ==> !Available(keys[j], now)
    ensures i < |keys| ==> Available(keys[i], now)
  {
    SelectFrom(keys, now, 0)
  }

  function SelectFrom(keys: seq<Key>, now: Instant, from: nat): (i: nat)
    requires from <= |keys|
    ensures from <= i <= |keys|
    ensures forall j :: from <= j < i ==> !Available(keys[j], now)
    ensures i < |keys| ==> Available(keys[i], now)
    decreases |keys| - from
  {
    if from == |keys| || Available(keys[from], now) then from else SelectFrom(keys, now, from + 1)
  }

  /** An index with these properties is the one Select returns. */
  lemma SelectIs(keys: seq<Key>, now: Instant, i: nat)
    requires i <= |keys|
    requires forall j :: 0 <= j < i ==> !Available(keys[j], now)
    requires i < |keys| ==> Available(keys[i], now)
    ensures Select(keys, now) == i
  {
  }

  function AfterAcquire(keys: seq<Key>, now: Instant): (after: seq<Key>)
    ensures |after| == |keys|
  {
    var i := Select(keys, now);
    if i < |keys| then keys[i := Refreshed(keys[i], now)] else keys
  }

  // ---------------------------------------------------------------- reports

  /** One call on the pool. Every call but Acquire names its key by label. */
  datatype Call =
    | Acquire
    | UpdateFromUpstream(keyLabel: string, snap: Snapshot)
    | MarkRateLimited(keyLabel: string)
    | MarkError(keyLabel: string, reason: string)
    | MarkKeyInvalid(keyLabel: string, reason: string)
    | MarkExhausted(keyLabel: string)

  /** The first index carrying the label, or |keys| when none does. */
  function FirstIndex(keys: seq<Key>, keyLabel: string): (i: nat)
    ensures i <= |keys|
    ensures forall j :: 0 <= j < i ==> keys[j].keyLabel != keyLabel
    ensures i < |keys| ==> keys[i].keyLabel == keyLabel
  {
    FirstIndexFrom(keys, keyLabel, 0)
  }

  function FirstIndexFrom(keys: seq<Key>, keyLabel: string, from: nat): (i: nat)
    requires from <= |keys|
    ensures from <= i <= |keys|
    ensures forall j :: from <= j < i ==> keys[j].keyLabel != keyLabel
    ensures i < |keys| ==> keys[i].keyLabel == keyLabel
    decreases |keys| - from
  {
    if from == |keys| || keys[from].keyLabel == keyLabel then from else FirstIndexFrom(keys, keyLabel, from + 1)
  }

  /** An index with these properties is the one FirstIndex returns. */
  lemma FirstIndexIs(keys: seq<Key>, keyLabel: string, i: nat)
    requires i <= |keys|
    requires forall j :: 0 <= j < i ==> keys[j].keyLabel != keyLabel
    requires i < |keys| ==> keys[i].keyLabel == keyLabel
    ensures FirstIndex(keys, keyLabel) == i
  {
  }

  lemma FirstIndexStable(keys: seq<Key>, keys': seq<Key>, keyLabel: string)
    requires SameEntries(keys, keys')
    ensures FirstIndex(keys, keyLabel) == FirstIndex(keys', keyLabel)
  {
    FirstIndexIs(keys', keyLabel, FirstIndex(keys, keyLabel));
  }

  predicate Exhausting(snap: Snapshot, opts: Options) {
    snap.hasDaily && snap.dailyRemaining <= opts.switchThreshold
  }

  function Updated(k: Key, snap: Snapshot, opts: Options, now: Instant): Key {
    k.(dailyLimit := if snap.hasDaily then snap.dailyLimit else k.dailyLimit,
       dailyRemaining := if snap.hasDaily then snap.dailyRemaining else k.dailyRemaining,
       minuteLimit := if snap.hasMinute then snap.minuteLimit else k.minuteLimit,
       minuteRemaining := if snap.hasMinute then snap.minuteRemaining else k.minuteRemaining,
       lastUpdated := now,
       errorCount := 0,
       status := if Exhausting(snap, opts) then Exhausted else Active)
  }

  function Errored(k: Key, reason: string, opts: Options, now: Instant): Key {
    var counted := k.(errorCount := k.errorCount + 1, lastError := reason);
    if opts.maxErrorCount > 0 && counted.errorCount >= opts.maxErrorCount
    then counted.(status := Error, cooldownUntil := now + opts.errorCooldown)
    else counted
  }

  /** What a report does to the key it names. */
  function Reported(k: Key, call: Call, opts: Options, now: Instant): Key
    requires !call.Acquire?
  {
    match call
    case UpdateFromUpstream(_, snap) => Updated(k, snap, opts, now)
    case MarkRateLimited(_) => k.(status := RateLimited, cooldownUntil := now + opts.rateLimitCooldown)
    case MarkError(_, reason) => Errored(k, reason, opts, now)
    case MarkKeyInvalid(_, reason) =>
      k.(status := Error, lastError := reason, cooldownUntil := now + opts.errorCooldown)
    case MarkExhausted(_) =>
      k.(status := Exhausted, lastUpdated := if k.lastUpdated == NEVER then now else k.lastUpdated)
  }

  /** The key index a report lands on; |keys| when the label is unknown. */
  function Target(keys: seq<Key>, call: Call): nat
    requires !call.Acquire?
  {
    FirstIndex(keys, call.keyLabel)
  }

  function Apply(keys: seq<Key>, call: Call, opts: Options, now: Instant): (after: seq<Key>)
    ensures |after| == |keys|
  {
    if call.Acquire? then AfterAcquire(keys, now)
    else
      var i := Target(keys, call);
      if i == |keys| then keys else keys[i := Reported(keys[i], call, opts, now)]
  }

  lemma ApplyKeepsEntries(keys: seq<Key>, call: Call, opts: Options, now: Instant)
    ensures SameEntries(keys, Apply(keys, call, opts, now))
  {
  }

  // ---------------------------------------------------------------- runs

  /** A call and the clock reading it takes while it holds the pool's lock. */
  datatype Event = Event(call: Call, at: Instant)

  /** The keys after a run of calls, in the order in which they took the lock. */
  function Run(keys: seq<Key>, opts: Options, events: seq<Event>): (after: seq<Key>)
    ensures |after| == |keys|
  {
    if events == [] then keys
    else
      var n := |events| - 1;
      Apply(Run(keys, opts, events[..n]), events[n].call, opts, events[n].at)
  }

  lemma {:induction false} RunKeepsEntries(keys: seq<Key>, opts: Options, events: seq<Event>)
    ensures SameEntries(keys, Run(keys, opts, events))
  {
    if events != [] {
      var n := |events| - 1;
      RunKeepsEntries(keys, opts, events[..n]);
      ApplyKeepsEntries(Run(keys, opts, events[..n]), events[n].call, opts, events[n].at);
    }
  }

  /** The clock is set and never goes back. */
  predicate WellTimed(events: seq<Event>) {
    && (forall i :: 0 <= i < |events| ==> 0 < events[i].at)
    && (forall i, j :: 0 <= i < j < |events| ==> events[i].at <= events[j].at)
  }
}
