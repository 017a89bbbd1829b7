/** The credential pool itself: shared key objects, updated in place under one lock. Each method is one
    critical section; the clock it reads is its parameter. */
module Keypool {
  import opened Calendar
  import opened KeyModel
  import RetryAfter

  class KeyState {
    const keyLabel: string
    const key: string
    var dailyLimit: int
    var dailyRemaining: int
    var minuteLimit: int
    var minuteRemaining: int
    var lastUpdated: Instant
    var status: KeyStatus
    var cooldownUntil: Instant
    var errorCount: nat
    var lastError: string

    ghost function Value(): Key
      reads this
    {
      Key(keyLabel, key, dailyLimit, dailyRemaining, minuteLimit, minuteRemaining,
          lastUpdated, status, cooldownUntil, errorCount, lastError)
    }

    constructor (e: KeyEntry)
      ensures Value() == NewKey(e)
    {
      keyLabel, key := e.keyLabel, e.key;
      dailyLimit, dailyRemaining, minuteLimit, minuteRemaining := 0, 0, 0, 0;
      lastUpdated, status, cooldownUntil, errorCount, lastError := NEVER, Active, NEVER, 0, "";
    }
  }

  class Pool {
    const keys: seq<KeyState>
    const opts: Options

    ghost predicate Valid() {
      forall i, j :: 0 <= i < j < |keys| ==> keys[i] != keys[j]
    }

    ghost function Repr(): set<object> {
      set k | k in keys
    }

    /** The state of all keys, in configured order. */
    ghost function Contents(): (contents: seq<Key>)
      reads Repr()
      ensures |contents| == |keys|
      ensures forall i :: 0 <= i < |keys| ==> contents[i] == keys[i].Value()
    {
      seq(|keys|, i requires 0 <= i < |keys| reads Repr() => keys[i].Value())
    }

    constructor (entries: seq<KeyEntry>, opts: Options)
      ensures Valid() && fresh(Repr())
      ensures Contents() == NewKeys(entries) && this.opts == opts
    {
      var made: seq<KeyState> := [];
      for i := 0 to |entries|
        invariant |made| == i
        invariant forall j :: 0 <= j < i ==> fresh(made[j]) && made[j].Value() == NewKey(entries[j])
        invariant forall j, l :: 0 <= j < l < i ==> made[j] != made[l]
      {
        var k := new KeyState(entries[i]);
        made := made + [k];
      }
      this.keys := made;
      this.opts := opts;
    }

    /** Serves the first key in configured order that is, or has become, available;
        null when there is none. */
    method Acquire(now: Instant) returns (handle: KeyState?)
      requires Valid()
      modifies Repr()
      ensures Contents() == AfterAcquire(old(Contents()), now)
      ensures handle == null <==> Select(old(Contents()), now) == |keys|
      ensures handle != null ==> handle == keys[Select(old(Contents()), now)] && handle.status.Active?
    {
      ghost var was := Contents();
      for i := 0 to |keys|
        invariant Contents() == was
        invariant forall j :: 0 <= j < i ==> !Available(was[j], now)
      {
        Refresh(keys[i], now);
        if keys[i].status.Active? {
          SelectIs(was, now, i);
          assert Contents() == was[i := Refreshed(was[i], now)];
          return keys[i];
        }
        assert Contents() == was;
      }
      SelectIs(was, now, |keys|);
      return null;
    }

    method Refresh(k: KeyState, now: Instant)
      modifies k
      ensures k.Value() == Refreshed(old(k.Value()), now)
    {
      match k.status
      case RateLimited | Error =>
        if k.cooldownUntil != NEVER && now > k.cooldownUntil {
          k.status := Active;
          k.errorCount := 0;
        }
      case Exhausted =>
        SameDateIsSameDay(k.lastUpdated, now);
        if k.lastUpdated != NEVER && !SameUTCDate(k.lastUpdated, now) {
          k.status := Active;
        }
      case Active =>
    }

    method Find(keyLabel: string) returns (k: KeyState?)
      ensures var i := FirstIndex(Contents(), keyLabel);
        k == if i < |keys| then keys[i] else null
    {
      for i := 0 to |keys|
        invariant forall j :: 0 <= j < i ==> keys[j].keyLabel != keyLabel
      {
        if keys[i].keyLabel == keyLabel {
          FirstIndexIs(Contents(), keyLabel, i);
          return keys[i];
        }
      }
      FirstIndexIs(Contents(), keyLabel, |keys|);
      return null;
    }

    method MarkExhausted(keyLabel: string, now: Instant)
      requires Valid()
      modifies Repr()
      ensures Contents() == Apply(old(Contents()), Call.MarkExhausted(keyLabel), opts, now)
    {
      var k := Find(keyLabel);
      if k != null {
        k.status := Exhausted;
        if k.lastUpdated == NEVER {
          k.lastUpdated := now;
        }
      }
      assert Contents() == Apply(old(Contents()), Call.MarkExhausted(keyLabel), opts, now);
    }

    method MarkRateLimited(keyLabel: string, now: Instant)
      requires Valid()
      modifies Repr()
      ensures Contents() == Apply(old(Contents()), Call.MarkRateLimited(keyLabel), opts, now)
    {
      var k := Find(keyLabel);
      if k != null {
        k.status := RateLimited;
        k.cooldownUntil := now + opts.rateLimitCooldown;
      }
      assert Contents() == Apply(old(Contents()), Call.MarkRateLimited(keyLabel), opts, now);
    }

    method MarkError(keyLabel: string, reason: string, now: Instant)
      requires Valid()
      modifies Repr()
      ensures Contents() == Apply(old(Contents()), Call.MarkError(keyLabel, reason), opts, now)
    {
      var k := Find(keyLabel);
      if k != null {
        k.errorCount := k.errorCount + 1;
        k.lastError := reason;
        if opts.maxErrorCount > 0 && k.errorCount >= opts.maxErrorCount {
          k.status := Error;
          k.cooldownUntil := now + opts.errorCooldown;
        }
      }
      assert Contents() == Apply(old(Contents()), Call.MarkError(keyLabel, reason), opts, now);
    }

    method MarkKeyInvalid(keyLabel: string, reason: string, now: Instant)
      requires Valid()
      modifies Repr()
      ensures Contents() == Apply(old(Contents()), Call.MarkKeyInvalid(keyLabel, reason), opts, now)
    {
      var k := Find(keyLabel);
      if k != null {
        k.status := Error;
        k.lastError := reason;
        k.cooldownUntil := now + opts.errorCooldown;
      }
      assert Contents() == Apply(old(Contents()), Call.MarkKeyInvalid(keyLabel, reason), opts, now);
    }

    /** Reports whether this answer exhausted the key it names. */
    method UpdateFromUpstream(keyLabel: string, snap: Snapshot, now: Instant) returns (exhausted: bool)
      requires Valid()
      modifies Repr()
      ensures Contents() == Apply(old(Contents()), Call.UpdateFromUpstream(keyLabel, snap), opts, now)
      ensures exhausted <==> Exhausting(snap, opts) && exists i :: 0 <= i < |keys| && keys[i].keyLabel == keyLabel
    {
      var k := Find(keyLabel);
      if k == null {
        return false;
      }
      if snap.hasDaily {
        k.dailyLimit := snap.dailyLimit;
        k.dailyRemaining := snap.dailyRemaining;
      }
      if snap.hasMinute {
        k.minuteLimit := snap.minuteLimit;
        k.minuteRemaining := snap.minuteRemaining;
      }
      k.lastUpdated := now;
      k.errorCount := 0;
      k.status := Active;
      exhausted := false;
      if snap.hasDaily && snap.dailyRemaining <= opts.switchThreshold {
        k.status := Exhausted;
        exhausted := true;
      }
      assert Contents() == Apply(old(Contents()), Call.UpdateFromUpstream(keyLabel, snap), opts, now);
    }

    method EarliestRecoverySeconds(now: Instant) returns (best: int)
      ensures RetryAfter.IsRetryAfter(Contents(), now, best)
    {
      ghost var contents := Contents();
      ghost var least := 0;
      best := -1;
      for i := 0 to |keys|
        invariant forall j :: 0 <= j < i ==> !contents[j].status.Active?
        invariant if i == 0 then best == -1 else 0 <= least < i && best == RetryAfter.KeyWait(contents[least], now)
        invariant forall j :: 0 <= j < i ==> best <= RetryAfter.KeyWait(contents[j], now)
      {
        var secs: int;
        match keys[i].status {
          case Active =>
            return 0;
          case RateLimited | Error =>
            if keys[i].cooldownUntil == NEVER {
              secs := RetryAfter.DEFAULT_RETRY_AFTER_SECONDS;
            } else {
              var d := RetryAfter.WholeSeconds(keys[i].cooldownUntil - now);
              if d < 1 {
                d := 1;
              }
              secs := d;
            }
          case Exhausted =>
            secs := RetryAfter.DEFAULT_RETRY_AFTER_SECONDS;
        }
        assert secs == RetryAfter.KeyWait(contents[i], now);
        if best == -1 || secs < best {
          least := i;
          best := secs;
        }
      }
      if best < 1 {
        best := RetryAfter.DEFAULT_RETRY_AFTER_SECONDS;
      }
    }

    /** The calls of other requests that take the lock between two calls of our own. */
    method OtherRequests(events: seq<Event>)
      requires Valid()
      modifies Repr()
      ensures Contents() == Run(old(Contents()), opts, events)
    {
      for n := 0 to |events|
        invariant Contents() == Run(old(Contents()), opts, events[..n])
      {
        assert events[..n + 1][..n] == events[..n];
        var now := events[n].at;
        match events[n].call
        case Acquire =>
          var _ := Acquire(now);
        case UpdateFromUpstream(keyLabel, snap) =>
          var _ := UpdateFromUpstream(keyLabel, snap, now);
        case MarkRateLimited(keyLabel) =>
          MarkRateLimited(keyLabel, now);
        case MarkError(keyLabel, reason) =>
          MarkError(keyLabel, reason, now);
        case MarkKeyInvalid(keyLabel, reason) =>
          MarkKeyInvalid(keyLabel, reason, now);
        case MarkExhausted(keyLabel) =>
          MarkExhausted(keyLabel, now);
      }
      assert events[..|events|] == events;
    }
  }
}
