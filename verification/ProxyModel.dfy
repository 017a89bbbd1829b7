/** One request's passage through the retry loop, on values: which keys it tries, how it ends, and what
    the client is told, for every sequence of upstream outcomes and every interference by other requests. */
module ProxyModel {
  import opened Wrappers
  import opened Calendar
  import opened KeyModel
  import RetryAfter
  import Provider
  import Text

  /** Everything around one attempt that the handler does not decide: the pool calls other requests make
      before its Acquire and while its upstream call is out, the clock, the upstream, the client. */
  datatype Attempt = Attempt(
    before: seq<Event>, acquireAt: Instant, during: seq<Event>,
    result: Provider.UpstreamResult, cancelled: bool, markAt: Instant)

  /** One key sent upstream: its index, when it was acquired, what came back, when that was reported,
      and how the report left the key. */
  datatype Use = Use(
    index: nat, sentAt: Instant, result: Provider.UpstreamResult, cancelled: bool, markedAt: Instant, after: Key)

  datatype Ending =
    | Answered(result: Provider.UpstreamResult)
    | Abandoned     // the client went away
    | OutOfRetries
    | NoKey

  datatype Summary = Summary(uses: seq<Use>, keys: seq<Key>, ending: Ending)

  /** The report an outcome makes to the pool; a cancelled server error makes none. */
  function Report(keyLabel: string, res: Provider.UpstreamResult, cancelled: bool): Option<Call> {
    match res.kind
    case Success | ClientError => Some(UpdateFromUpstream(keyLabel, res.snapshot))
    case RateLimited => Some(MarkRateLimited(keyLabel))
    case KeyInvalid => Some(MarkKeyInvalid(keyLabel, "upstream returned " + Text.Itoa(res.status)))
    case ServerError =>
      if cancelled then None
      else Some(MarkError(keyLabel, match res.err case None => "upstream server error" case Some(e) => e))
  }

  /** The keys once a report, if there is one, is in. */
  function Settle(keys: seq<Key>, opts: Options, report: Option<Call>, now: Instant): (after: seq<Key>)
    ensures |after| == |keys|
  {
    match report
    case None => keys
    case Some(call) => Apply(keys, call, opts, now)
  }

  /** The attempt is retried after this outcome. */
  predicate Retryable(res: Provider.UpstreamResult, cancelled: bool) {
    || res.kind.RateLimited? || res.kind.KeyInvalid?
    || (res.kind.ServerError? && !cancelled)
  }

  /** The keys once an attempt that acquired key i has reported. */
  function AfterAttempt(held: seq<Key>, opts: Options, a: Attempt, i: nat): (after: seq<Key>)
    requires i < |held|
    ensures |after| == |held|
  {
    Settle(Run(held, opts, a.during), opts, Report(held[i].keyLabel, a.result, a.cancelled), a.markAt)
  }

  /** One turn of the loop: either no key could be acquired, or one was used. */
  datatype Turn = NothingToUse(keys: seq<Key>) | Used(use: Use, keys: seq<Key>)

  function TurnOf(keys: seq<Key>, opts: Options, a: Attempt): (turn: Turn)
    ensures |turn.keys| == |keys|
    ensures turn.NothingToUse? ==> Select(turn.keys, a.acquireAt) == |keys|
    ensures turn.Used? ==>
      && turn.use.index < |keys| && turn.use.after == turn.keys[turn.use.index]
      && turn.use.sentAt == a.acquireAt && turn.use.markedAt == a.markAt && turn.use.cancelled == a.cancelled
      && turn.use.result == a.result
      && turn.use.index == Select(Run(keys, opts, a.before), a.acquireAt)
  {
    var ready := Run(keys, opts, a.before);
    var i := Select(ready, a.acquireAt);
    var held := Apply(ready, Acquire, opts, a.acquireAt);
    if i == |keys| then NothingToUse(held)
    else
      var after := AfterAttempt(held, opts, a, i);
      Used(Use(i, a.acquireAt, a.result, a.cancelled, a.markAt, after[i]), after)
  }

  predicate Retried(use: Use) {
    Retryable(use.result, use.cancelled)
  }

  /** What attempt n makes of the keys it finds. */
  type Turns = (seq<Key>, nat) -> Turn

  function TurnsOf(opts: Options, env: nat -> Attempt): Turns {
    (keys: seq<Key>, n: nat) => TurnOf(keys, opts, env(n))
  }

  /** These turns are the ones this environment gives. */
  ghost predicate Realises(turns: Turns, opts: Options, env: nat -> Attempt) {
    forall keys: seq<Key>, n: nat {:trigger TurnOf(keys, opts, env(n))} :: turns(keys, n) == TurnOf(keys, opts, env(n))
  }

  /** The retry loop from attempt n on, with the given number of attempts left. */
  function Loop(turns: Turns, keys: seq<Key>, n: nat, left: nat): (s: Summary)
    ensures |s.uses| <= left
    decreases left, |keys|
  {
    if left == 0 then Summary([], keys, OutOfRetries)
    else
      match turns(keys, n)
      case NothingToUse(held) => Summary([], held, NoKey)
      case Used(use, after) =>
        if Retried(use) then
          var rest := Loop(turns, after, n + 1, left - 1);
          Summary([use] + rest.uses, rest.keys, rest.ending)
        else Summary([use], after, if use.result.kind.ServerError? then Abandoned else Answered(use.result))
  }

  lemma {:induction false} LoopStep(turns: Turns, keys: seq<Key>, n: nat, left: nat)
    requires left > 0 && turns(keys, n).Used? && Retried(turns(keys, n).use)
    ensures Loop(turns, keys, n, left).uses
      == [turns(keys, n).use] + Loop(turns, turns(keys, n).keys, n + 1, left - 1).uses
  {
  }

  /** One request: at most maxRetries attempts against these keys and this environment. */
  function Serve(keys: seq<Key>, opts: Options, env: nat -> Attempt, maxRetries: nat): Summary {
    Loop(TurnsOf(opts, env), keys, 0, maxRetries)
  }

  /** The keys as attempt n + u finds them. */
  function KeysAt(turns: Turns, keys: seq<Key>, n: nat, u: nat): seq<Key>
    decreases u, |keys|
  {
    if u == 0 then keys else KeysAt(turns, turns(keys, n).keys, n + 1, u - 1)
  }

  /** The u-th use is the u-th turn, taken on the keys the turns before it left. */
  lemma {:induction false} UsesAreTurns(turns: Turns, keys: seq<Key>, n: nat, left: nat, u: nat)
    requires u < |Loop(turns, keys, n, left).uses|
    ensures turns(KeysAt(turns, keys, n, u), n + u) ==
      Used(Loop(turns, keys, n, left).uses[u], KeysAt(turns, keys, n, u + 1))
    decreases left
  {
    if u > 0 {
      UsesAreTurns(turns, turns(keys, n).keys, n + 1, left - 1, u - 1);
    }
  }

  /** How an outcome, once reported, leaves a key. A cancelled server error is not reported. */
  predicate LeftBy(k: Key, result: Provider.UpstreamResult, cancelled: bool, markedAt: Instant, opts: Options) {
    match result.kind
    case RateLimited => k.status.RateLimited? && k.cooldownUntil == markedAt + opts.rateLimitCooldown
    case KeyInvalid =>
      && k.status.Error? && k.cooldownUntil == markedAt + opts.errorCooldown
      && k.lastError == "upstream returned " + Text.Itoa(result.status)
    case ServerError =>
      !cancelled ==>
        && k.errorCount >= 1
        && k.lastError == (match result.err case None => "upstream server error" case Some(e) => e)
        && (0 < opts.maxErrorCount <= k.errorCount ==>
              k.status.Error? && k.cooldownUntil == markedAt + opts.errorCooldown)
    case Success | ClientError =>
      && k.status == (if Exhausting(result.snapshot, opts) then Exhausted else Active)
      && k.lastUpdated == markedAt && k.errorCount == 0
  }

  /** The keys an attempt's report meets: those it acquired from, after whatever other requests did meanwhile. */
  function Met(keys: seq<Key>, opts: Options, a: Attempt): (met: seq<Key>)
    ensures |met| == |keys|
  {
    Run(Apply(Run(keys, opts, a.before), Acquire, opts, a.acquireAt), opts, a.during)
  }

  /** What a report, if there is one, makes of the key it lands on. */
  function ReportOn(k: Key, report: Option<Call>, opts: Options, now: Instant): Key
    requires report.Some? ==> !report.value.Acquire?
  {
    match report
    case None => k
    case Some(call) => Reported(k, call, opts, now)
  }

  /** Whoever interferes, an attempt changes nothing after its Acquire but the first key with the used label. */
  lemma {:induction false} ReportIsApplied(keys: seq<Key>, opts: Options, a: Attempt)
    requires TurnOf(keys, opts, a).Used?
    ensures var turn := TurnOf(keys, opts, a);
      var keyLabel := keys[turn.use.index].keyLabel;
      var j := FirstIndex(keys, keyLabel);
      && j <= turn.use.index
      && turn.keys == Met(keys, opts, a)[
           j := ReportOn(Met(keys, opts, a)[j], Report(keyLabel, a.result, a.cancelled), opts, a.markAt)]
  {
    hide Run, Reported, Select, FirstIndex, AfterAcquire;
    var ready := Run(keys, opts, a.before);
    RunKeepsEntries(keys, opts, a.before);
    var held := Apply(ready, Acquire, opts, a.acquireAt);
    ApplyKeepsEntries(ready, Acquire, opts, a.acquireAt);
    RunKeepsEntries(held, opts, a.during);
    var i := Select(ready, a.acquireAt);
    FirstIndexStable(keys, Run(held, opts, a.during), keys[i].keyLabel);
  }

  /** Whoever interferes, the report of an attempt lands on the first key with the label of the key used, leaves
      that key as the outcome says, and touches no other. */
  lemma {:induction false} ReportLands(keys: seq<Key>, opts: Options, a: Attempt)
    requires TurnOf(keys, opts, a).Used?
    ensures var turn := TurnOf(keys, opts, a);
      var j := FirstIndex(keys, keys[turn.use.index].keyLabel);
      var silent := a.result.kind.ServerError? && a.cancelled;
      && j <= turn.use.index
      && (silent ==> turn.keys == Met(keys, opts, a))
      && (!silent ==> LeftBy(turn.keys[j], a.result, a.cancelled, a.markAt, opts))
      && (forall l :: 0 <= l < |keys| && l != j ==> turn.keys[l] == Met(keys, opts, a)[l])
  {
    ReportIsApplied(keys, opts, a);
  }

  lemma TurnKeepsEntries(keys: seq<Key>, opts: Options, a: Attempt)
    ensures SameEntries(keys, TurnOf(keys, opts, a).keys)
  {
    var ready := Run(keys, opts, a.before);
    RunKeepsEntries(keys, opts, a.before);
    var i := Select(ready, a.acquireAt);
    var held := Apply(ready, Acquire, opts, a.acquireAt);
    ApplyKeepsEntries(ready, Acquire, opts, a.acquireAt);
    if i < |keys| {
      var out := Run(held, opts, a.during);
      RunKeepsEntries(held, opts, a.during);
      var report := Report(held[i].keyLabel, a.result, a.cancelled);
      if report.Some? {
        ApplyKeepsEntries(out, report.value, opts, a.markAt);
      }
    }
  }

  /** Whoever interferes, a request neither loses nor mixes up keys: every use carries the label and the
      credential configured at its index. */
  lemma {:induction false} UsesCarryTheirKeys(
      turns: Turns, keys: seq<Key>, opts: Options, env: nat -> Attempt, n: nat, left: nat)
    requires Realises(turns, opts, env)
    ensures var s := Loop(turns, keys, n, left);
      && SameEntries(keys, s.keys)
      && (forall u :: 0 <= u < |s.uses| ==>
            var use := s.uses[u];
            && use.index < |keys|
            && use.after.key == keys[use.index].key && use.after.keyLabel == keys[use.index].keyLabel)
    decreases left
  {
    if left > 0 {
      var turn := TurnOf(keys, opts, env(n));
      assert turn == turns(keys, n);
      TurnKeepsEntries(keys, opts, env(n));
      if turn.Used? && Retried(turn.use) {
        UsesCarryTheirKeys(turns, turn.keys, opts, env, n + 1, left - 1);
      }
    }
  }

  // ---------------------------------------------------------------- the answer to the client

  /** A response written to the client. The Retry-After header is set exactly when retryAfter > 0. */
  datatype Downstream =
    | Forwarded(status: int, body: Provider.Bytes)
    | GatewayError(status: int, code: string, retryAfter: int)

  const SERVICE_UNAVAILABLE: int := 503

  /** The responses a finished loop leads to; closing are the other requests' calls before the pool is
      asked, at readAt, when it will recover. */
  ghost predicate Leads(s: Summary, opts: Options, closing: seq<Event>, readAt: Instant, responses: seq<Downstream>) {
    match s.ending
    case Answered(res) => responses == [Forwarded(res.status, res.body)]
    case Abandoned => responses == []
    case OutOfRetries | NoKey =>
      && |responses| == 1 && responses[0].GatewayError?
      && responses[0].status == SERVICE_UNAVAILABLE && responses[0].code == "all_keys_unavailable"
      && RetryAfter.IsRetryAfter(Run(s.keys, opts, closing), readAt, responses[0].retryAfter)
  }

  /** How the trace of attempts decides the ending: every attempt but the last was retried, and the last
      one tells. */
  predicate EndingFits(s: Summary, left: nat) {
    var m := |s.uses|;
    var allRetried := forall u :: 0 <= u < m ==> Retried(s.uses[u]);
    && (forall u :: 0 <= u < m - 1 ==> Retried(s.uses[u]))
    && match s.ending
       case OutOfRetries => allRetried && m == left
       case NoKey => allRetried && m < left
       case Abandoned => m > 0 && s.uses[m - 1].result.kind.ServerError? && s.uses[m - 1].cancelled
       case Answered(res) => m > 0 && res == s.uses[m - 1].result && (res.kind.Success? || res.kind.ClientError?)
  }

  lemma {:induction false} EndingFromUses(turns: Turns, keys: seq<Key>, n: nat, left: nat)
    ensures var s := Loop(turns, keys, n, left);
      && EndingFits(s, left)
      && s.keys == (if s.ending.NoKey? then KeysAt(turns, keys, n, |s.uses| + 1) else KeysAt(turns, keys, n, |s.uses|))
      && (s.ending.NoKey? ==> turns(KeysAt(turns, keys, n, |s.uses|), n + |s.uses|).NothingToUse?)
    decreases left
  {
    if left > 0 && turns(keys, n).Used? && Retried(turns(keys, n).use) {
      hide EndingFits;
      var turn := turns(keys, n);
      EndingFromUses(turns, turn.keys, n + 1, left - 1);
      EndingOfMore(turn.use, Loop(turns, turn.keys, n + 1, left - 1), left - 1);
      assert EndingFits(Loop(turns, keys, n, left), left);
    }
  }

  lemma EndingOfMore(use: Use, rest: Summary, left: nat)
    requires Retried(use) && EndingFits(rest, left)
    ensures EndingFits(Summary([use] + rest.uses, rest.keys, rest.ending), left + 1)
  {
    var uses := [use] + rest.uses;
    assert forall u :: 0 < u < |uses| ==> uses[u] == rest.uses[u - 1];
  }

  /** The u-th use is what the u-th attempt got back. */
  lemma {:induction false} UseFollowsAttempt(
      turns: Turns, keys: seq<Key>, opts: Options, env: nat -> Attempt, maxRetries: nat, u: nat)
    requires Realises(turns, opts, env)
    requires u < |Loop(turns, keys, 0, maxRetries).uses|
    ensures var use := Loop(turns, keys, 0, maxRetries).uses[u];
      && use.result == env(u).result && use.cancelled == env(u).cancelled
      && use.sentAt == env(u).acquireAt && use.markedAt == env(u).markAt
  {
    UsesAreTurns(turns, keys, 0, maxRetries, u);
    var turn := TurnOf(KeysAt(turns, keys, 0, u), opts, env(u));
    assert turn == turns(KeysAt(turns, keys, 0, u), u);
  }

  lemma {:induction false} NoKeyMeansNoneAvailable(
      turns: Turns, keys: seq<Key>, opts: Options, env: nat -> Attempt, maxRetries: nat)
    requires Realises(turns, opts, env)
    requires Loop(turns, keys, 0, maxRetries).ending.NoKey?
    ensures var s := Loop(turns, keys, 0, maxRetries);
      Select(s.keys, env(|s.uses|).acquireAt) == |s.keys|
  {
    hide TurnOf, EndingFits;
    EndingFromUses(turns, keys, 0, maxRetries);
    var m := |Loop(turns, keys, 0, maxRetries).uses|;
    var found := KeysAt(turns, keys, 0, m);
    KeysAtNext(turns, keys, 0, m);
    var turn := TurnOf(found, opts, env(m));
    assert turn == turns(found, m);
  }

  lemma {:induction false} KeysAtNext(turns: Turns, keys: seq<Key>, n: nat, u: nat)
    ensures KeysAt(turns, keys, n, u + 1) == turns(KeysAt(turns, keys, n, u), n + u).keys
    decreases u
  {
    if u > 0 {
      KeysAtNext(turns, turns(keys, n).keys, n + 1, u - 1);
    }
  }

  /** A response the client may see after this last attempt: an error of the gateway's own, or what that
      attempt got, with a status that is none of 401, 403, 429 and no server error. */
  predicate SafeAfter(r: Downstream, result: Provider.UpstreamResult) {
    r.Forwarded? ==>
      && r.status != 401 && r.status != 403 && r.status != 429 && r.status < 500
      && result.err == None && r.status == result.status && r.body == result.body
  }

  /** The same laws for any loop summary whose ending fits its uses. */
  predicate SafeResponses(s: Summary, responses: seq<Downstream>) {
    var m := |s.uses|;
    && |responses| <= 1
    && (forall r :: r in responses ==> r.GatewayError? || (m > 0 && SafeAfter(r, s.uses[m - 1].result)))
    && (responses == [] <==> m > 0 && s.uses[m - 1].cancelled && s.uses[m - 1].result.kind.ServerError?)
  }

  lemma SummaryIsSafe(
      s: Summary, left: nat, opts: Options, closing: seq<Event>, readAt: Instant, responses: seq<Downstream>)
    requires EndingFits(s, left) && Leads(s, opts, closing, readAt, responses)
    requires s.uses != [] ==> Provider.Genuine(s.uses[|s.uses| - 1].result)
    ensures SafeResponses(s, responses)
    ensures (exists r :: r in responses && r.status == SERVICE_UNAVAILABLE)
      <==> forall u :: 0 <= u < |s.uses| ==> Retried(s.uses[u])
  {
    var m := |s.uses|;
    if s.ending.OutOfRetries? || s.ending.NoKey? {
      assert responses[0] in responses;
      assert m > 0 ==> Retried(s.uses[m - 1]);
    } else {
      assert !Retried(s.uses[m - 1]);
    }
  }

  lemma {:induction false} ServeIsSafe(
      keys: seq<Key>, opts: Options, env: nat -> Attempt, maxRetries: nat,
      closing: seq<Event>, readAt: Instant, responses: seq<Downstream>)
    requires forall n: nat :: Provider.Genuine(env(n).result)
    requires Leads(Serve(keys, opts, env, maxRetries), opts, closing, readAt, responses)
    ensures var s := Serve(keys, opts, env, maxRetries);
      && SafeResponses(s, responses)
      && ((exists r :: r in responses && r.status == SERVICE_UNAVAILABLE)
          <==> forall u :: 0 <= u < |s.uses| ==> Retried(s.uses[u]))
  {
    var s := Serve(keys, opts, env, maxRetries);
    EndingFromUses(TurnsOf(opts, env), keys, 0, maxRetries);
    if s.uses != [] {
      UseFollowsAttempt(TurnsOf(opts, env), keys, opts, env, maxRetries, |s.uses| - 1);
      assert Provider.Genuine(env(|s.uses| - 1).result);
    }
    SummaryIsSafe(s, maxRetries, opts, closing, readAt, responses);
  }

  /** Whatever the upstream does and whoever interferes: at most maxRetries attempts, at most one response;
      no upstream 401, 403, 429 or 5xx status is passed on; and nothing is written only when the client
      was gone at a server error. */
  lemma {:induction false} DownstreamTransparency(
      keys: seq<Key>, opts: Options, env: nat -> Attempt, maxRetries: nat,
      closing: seq<Event>, readAt: Instant, responses: seq<Downstream>)
    requires forall n: nat :: Provider.Genuine(env(n).result)
    requires Leads(Serve(keys, opts, env, maxRetries), opts, closing, readAt, responses)
    ensures var m := |Serve(keys, opts, env, maxRetries).uses|;
      && m <= maxRetries && |responses| <= 1
      && (forall r :: r in responses ==> r.GatewayError? || (m > 0 && SafeAfter(r, env(m - 1).result)))
      && (responses == [] <==> m > 0 && env(m - 1).cancelled && env(m - 1).result.kind.ServerError?)
  {
    ServeIsSafe(keys, opts, env, maxRetries, closing, readAt, responses);
    var m := |Serve(keys, opts, env, maxRetries).uses|;
    if m > 0 {
      UseFollowsAttempt(TurnsOf(opts, env), keys, opts, env, maxRetries, m - 1);
    }
  }

  /** The client is answered 503 exactly when every attempt made was retryable; and then either all
      maxRetries were made or no key was available for the next one. */
  lemma {:induction false} ServiceUnavailableIff(
      keys: seq<Key>, opts: Options, env: nat -> Attempt, maxRetries: nat,
      closing: seq<Event>, readAt: Instant, responses: seq<Downstream>)
    requires forall n: nat :: Provider.Genuine(env(n).result)
    requires Leads(Serve(keys, opts, env, maxRetries), opts, closing, readAt, responses)
    ensures var s := Serve(keys, opts, env, maxRetries);
      var allRetried := forall u :: 0 <= u < |s.uses| ==> Retried(s.uses[u]);
      && ((exists r :: r in responses && r.status == SERVICE_UNAVAILABLE) <==> allRetried)
      && (allRetried ==> |s.uses| == maxRetries || Select(s.keys, env(|s.uses|).acquireAt) == |s.keys|)
  {
    ServeIsSafe(keys, opts, env, maxRetries, closing, readAt, responses);
    EndingFromUses(TurnsOf(opts, env), keys, 0, maxRetries);
    if Serve(keys, opts, env, maxRetries).ending.NoKey? {
      NoKeyMeansNoneAvailable(TurnsOf(opts, env), keys, opts, env, maxRetries);
    }
  }

  lemma RetryAfterTells(s: Summary, opts: Options, closing: seq<Event>, readAt: Instant, responses: seq<Downstream>)
    requires Leads(s, opts, closing, readAt, responses) && (s.ending.OutOfRetries? || s.ending.NoKey?)
    ensures var asked := Run(s.keys, opts, closing);
      responses[0].retryAfter <= 0 <==> exists i :: 0 <= i < |asked| && asked[i].status.Active?
  {
    var asked := Run(s.keys, opts, closing);
    RetryAfter.RetryAfterIsUnique(asked, readAt, responses[0].retryAfter, responses[0].retryAfter);
  }

  /** Retry-After on that 503. When the pool had no key left and nobody interfered since, it is present and
      at least 1; and it is missing exactly when some key was Active when the pool was asked. */
  lemma {:induction false} RetryAfterPresent(
      keys: seq<Key>, opts: Options, env: nat -> Attempt, maxRetries: nat,
      closing: seq<Event>, readAt: Instant, responses: seq<Downstream>)
    requires Leads(Serve(keys, opts, env, maxRetries), opts, closing, readAt, responses)
    requires |responses| == 1 && responses[0].GatewayError?
    ensures var s := Serve(keys, opts, env, maxRetries);
      var asked := Run(s.keys, opts, closing);
      && (|s.uses| < maxRetries && closing == [] ==> responses[0].retryAfter >= 1)
      && (responses[0].retryAfter <= 0 <==> exists i :: 0 <= i < |asked| && asked[i].status.Active?)
  {
    var s := Serve(keys, opts, env, maxRetries);
    RetryAfterTells(s, opts, closing, readAt, responses);
    if |s.uses| < maxRetries && closing == [] {
      EndingFromUses(TurnsOf(opts, env), keys, 0, maxRetries);
      NoKeyMeansNoneAvailable(TurnsOf(opts, env), keys, opts, env, maxRetries);
      NoneActive(s.keys, env(|s.uses|).acquireAt);
    }
  }

  /** A client that comes back one second later than a 503 told it, with nobody at the pool in between, has its
      request sent upstream, unless the value was the fallback. */
  lemma {:induction false} ComingBackIsServed(
      s: Summary, opts: Options, closing: seq<Event>, readAt: Instant, responses: seq<Downstream>,
      next: nat -> Attempt, maxRetries: nat)
    requires Leads(s, opts, closing, readAt, responses) && (s.ending.OutOfRetries? || s.ending.NoKey?)
    requires responses[0].retryAfter > 0 && responses[0].retryAfter != RetryAfter.DEFAULT_RETRY_AFTER_SECONDS
    requires maxRetries > 0 && next(0).before == []
    requires next(0).acquireAt >= readAt + (responses[0].retryAfter + 1) * SECOND
    ensures |Serve(Run(s.keys, opts, closing), opts, next, maxRetries).uses| >= 1
  {
    var keys := Run(s.keys, opts, closing);
    RetryAfter.WaitOneMoreSecondSuffices(keys, readAt, responses[0].retryAfter, next(0).acquireAt);
    assert Run(keys, opts, next(0).before) == keys;
    assert TurnsOf(opts, next)(keys, 0) == TurnOf(keys, opts, next(0));
  }

  lemma NoneActive(keys: seq<Key>, now: Instant)
    requires Select(keys, now) == |keys|
    ensures !exists i :: 0 <= i < |keys| && keys[i].status.Active?
  {
    assert forall i :: 0 <= i < |keys| ==> !Available(keys[i], now);
  }
}
