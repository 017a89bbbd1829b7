/** The Retry-After value of a 503 (section 10.2.3 of RFC 9110): how it is computed from the keys and
    what it promises a client that waits. */
module RetryAfter {
  import opened Calendar
  import opened KeyModel

  const DEFAULT_RETRY_AFTER_SECONDS: int := 300

  /** Conversion of a duration to whole seconds, truncating toward zero. */
  function WholeSeconds(d: int): int {
    if d >= 0 then d / 1_000_000_000 else -(-d / 1_000_000_000)
  }

  /** The seconds one key that is out of use contributes. */
  function KeyWait(k: Key, now: Instant): (secs: int)
    ensures secs >= 1
  {
    match k.status
    case Active | Exhausted => DEFAULT_RETRY_AFTER_SECONDS
    case RateLimited | Error =>
      if k.cooldownUntil == NEVER then DEFAULT_RETRY_AFTER_SECONDS
      else
        var d := WholeSeconds(k.cooldownUntil - now);
        if d < 1 then 1 else d
  }

  /** s is the Retry-After of these keys: 0 exactly when one is Active, else the least wait, whatever
      the order of the keys. */
  predicate IsRetryAfter(keys: seq<Key>, now: Instant, s: int) {
    && (s == 0 <==> exists i :: 0 <= i < |keys| && keys[i].status.Active?)
    && (keys == [] ==> s == DEFAULT_RETRY_AFTER_SECONDS)
    && (keys != [] && s != 0 ==>
          && (forall i :: 0 <= i < |keys| ==> s <= KeyWait(keys[i], now))
          && (exists i :: 0 <= i < |keys| && s == KeyWait(keys[i], now)))
  }

  /** The fallback, when nothing cools: 300 for a pool without keys, and for one of exhausted keys only. */
  lemma FallbackIs300(keys: seq<Key>, now: Instant, s: int)
    requires IsRetryAfter(keys, now, s)
    requires forall i :: 0 <= i < |keys| ==> keys[i].status.Exhausted?
    ensures s == 300
  {
  }

  /** There is only one such value. */
  lemma RetryAfterIsUnique(keys: seq<Key>, now: Instant, s: int, s': int)
    requires IsRetryAfter(keys, now, s) && IsRetryAfter(keys, now, s')
    ensures s == s' && 0 <= s
  {
    if keys != [] && s != 0 {
      var i :| 0 <= i < |keys| && s == KeyWait(keys[i], now);
      var j :| 0 <= j < |keys| && s' == KeyWait(keys[j], now);
      assert s <= KeyWait(keys[j], now) && s' <= KeyWait(keys[i], now);
    }
  }

  /** The order in which the keys are configured does not change the value. */
  lemma RetryAfterIgnoresOrder(keys: seq<Key>, keys': seq<Key>, now: Instant, s: int)
    requires multiset(keys) == multiset(keys')
    requires IsRetryAfter(keys, now, s)
    ensures IsRetryAfter(keys', now, s)
  {
    assert |keys| == |multiset(keys)| == |multiset(keys')| == |keys'|;
    forall k ensures k in keys <==> k in keys' {
      assert k in multiset(keys) <==> k in multiset(keys');
    }
    if s == 0 {
      var i :| 0 <= i < |keys| && keys[i].status.Active?;
      assert keys[i] in keys';
    } else if keys != [] {
      var i :| 0 <= i < |keys| && s == KeyWait(keys[i], now);
      assert keys[i] in keys';
    }
    forall j | 0 <= j < |keys'|
      ensures s != 0 ==> !keys'[j].status.Active? && s <= KeyWait(keys'[j], now)
    {
      assert keys'[j] in keys;
    }
  }

  /** Waiting one second longer than told is always enough, unless the value was the fallback. */
  lemma WaitOneMoreSecondSuffices(keys: seq<Key>, now: Instant, s: int, t: Instant)
    requires IsRetryAfter(keys, now, s) && s != 0 && s != DEFAULT_RETRY_AFTER_SECONDS
    requires t >= now + (s + 1) * SECOND
    ensures Select(keys, t) < |keys|
  {
    var i :| 0 <= i < |keys| && s == KeyWait(keys[i], now);
    assert Available(keys[i], t);
  }

  /** The key cools for 300 whole seconds, or is exhausted on another UTC date than that of t. */
  predicate DueWithFallback(k: Key, now: Instant, t: Instant) {
    match k.status
    case Active => false
    case RateLimited | Error => k.cooldownUntil != NEVER && KeyWait(k, now) == DEFAULT_RETRY_AFTER_SECONDS
    case Exhausted => k.lastUpdated != NEVER && !SameDay(k.lastUpdated, t)
  }

  lemma AvailableWithFallback(k: Key, now: Instant)
    requires !k.status.Active? && KeyWait(k, now) >= DEFAULT_RETRY_AFTER_SECONDS
    ensures var t := now + (DEFAULT_RETRY_AFTER_SECONDS + 1) * SECOND;
      Available(k, t) <==> DueWithFallback(k, now, t)
  {
  }

  /** For the fallback value one more second is enough if and only if some key cools for 300 whole seconds, or is
      exhausted with a new UTC date by then; for any other value it always is. */
  lemma OneMoreSecondWorksIff(keys: seq<Key>, now: Instant, s: int)
    requires IsRetryAfter(keys, now, s) && s != 0
    ensures var t := now + (s + 1) * SECOND;
      Select(keys, t) < |keys| <==>
        s != DEFAULT_RETRY_AFTER_SECONDS || exists i :: 0 <= i < |keys| && DueWithFallback(keys[i], now, t)
  {
    var t := now + (s + 1) * SECOND;
    if s != DEFAULT_RETRY_AFTER_SECONDS {
      WaitOneMoreSecondSuffices(keys, now, s, t);
    } else {
      forall i | 0 <= i < |keys|
        ensures Available(keys[i], t) <==> DueWithFallback(keys[i], now, t)
      {
        AvailableWithFallback(keys[i], now);
      }
      if i :| 0 <= i < |keys| && DueWithFallback(keys[i], now, t) {
        assert Available(keys[i], t);
      } else {
        SelectIs(keys, t, |keys|);
      }
    }
  }

  /** The key cools for at least another whole second, or is exhausted for the UTC day of t. */
  predicate OutOfUse(k: Key, now: Instant, t: Instant) {
    match k.status
    case Active => false
    case RateLimited | Error => k.cooldownUntil >= now + SECOND
    case Exhausted => k.lastUpdated == NEVER || SameDay(k.lastUpdated, t)
  }

  /** Before that, and at the very second told, the pool has nothing to serve. */
  lemma WaitingLessFails(keys: seq<Key>, now: Instant, s: int, t: Instant)
    requires IsRetryAfter(keys, now, s)
    requires t <= now + s * SECOND
    requires forall i :: 0 <= i < |keys| ==> OutOfUse(keys[i], now, t)
    ensures Select(keys, t) == |keys|
  {
    forall i | 0 <= i < |keys|
      ensures !Available(keys[i], t)
    {
      assert OutOfUse(keys[i], now, t) && s <= KeyWait(keys[i], now);
      var left := keys[i].cooldownUntil - now;
      assert left >= SECOND ==> WholeSeconds(left) * SECOND <= left;
    }
    SelectIs(keys, t, |keys|);
  }

  /** The key cools for less than another second, or is exhausted on another UTC date than that of t. */
  predicate DueAfter(k: Key, now: Instant, t: Instant) {
    match k.status
    case Active => false
    case RateLimited | Error => k.cooldownUntil != NEVER && k.cooldownUntil < now + SECOND
    case Exhausted => k.lastUpdated != NEVER && !SameDay(k.lastUpdated, t)
  }

  lemma AvailableWhenDue(k: Key, now: Instant, s: int)
    requires !k.status.Active? && 1 <= s <= KeyWait(k, now)
    ensures Available(k, now + s * SECOND) <==> DueAfter(k, now, now + s * SECOND)
  {
    var left := k.cooldownUntil - now;
    assert left >= SECOND ==> WholeSeconds(left) * SECOND <= left;
  }

  /** Waiting exactly the value given works if and only if a cooldown ends within the second, or a key that
      is exhausted has a new UTC date by then: the value truncates, recovery is strictly after the end of the
      cooldown, and an exhausted key counts 300 seconds whenever its day ends. */
  lemma WaitingExactlyWorksIff(keys: seq<Key>, now: Instant, s: int)
    requires IsRetryAfter(keys, now, s) && s != 0
    ensures Select(keys, now + s * SECOND) < |keys|
      <==> exists i :: 0 <= i < |keys| && DueAfter(keys[i], now, now + s * SECOND)
  {
    var t := now + s * SECOND;
    forall i | 0 <= i < |keys|
      ensures Available(keys[i], t) <==> DueAfter(keys[i], now, t)
    {
      AvailableWhenDue(keys[i], now, s);
    }
    if i :| 0 <= i < |keys| && DueAfter(keys[i], now, t) {
      assert Available(keys[i], t);
    } else {
      SelectIs(keys, t, |keys|);
    }
  }
}
