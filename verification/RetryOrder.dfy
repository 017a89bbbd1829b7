/** The order in which one undisturbed request tries the keys, and how often it tries each. */
module RetryOrder {
  import opened Calendar
  import opened KeyModel
  import opened ProxyModel
  import opened SequentialUse

  /** The attempts from n on acquire their keys within [t0, t1], and no cooldown they set ends by t1. */
  ghost predicate Quiet(env: nat -> Attempt, n: nat, left: nat, opts: Options, t0: Instant, t1: Instant) {
    forall m: nat | n <= m < n + left ::
      && t0 <= env(m).acquireAt <= t1
      && t1 <= env(m).markAt + opts.rateLimitCooldown
      && t1 <= env(m).markAt + opts.errorCooldown
  }

  /** No key's cooldown ends and no key's exhausted day ends within [t0, t1]. */
  predicate Settled(keys: seq<Key>, t0: Instant, t1: Instant) {
    forall i, t | 0 <= i < |keys| && t0 <= t <= t1 :: Available(keys[i], t) == Available(keys[i], t0)
  }

  /** How often a request that starts now may still use the key. */
  function Budget(k: Key, opts: Options, t0: Instant): nat {
    if !Available(k, t0) then 0
    else if Refreshed(k, t0).errorCount + 1 >= opts.maxErrorCount then 1
    else opts.maxErrorCount - Refreshed(k, t0).errorCount
  }

  function UsesOf(uses: seq<Use>, i: nat): nat {
    if uses == [] then 0 else (if uses[0].index == i then 1 else 0) + UsesOf(uses[1..], i)
  }

  /** A server error that left its key below the error limit. */
  predicate Tolerated(use: Use, opts: Options) {
    use.result.kind.ServerError? && use.after.errorCount < opts.maxErrorCount
  }

  /** Where the next attempt starts looking after a retried one. */
  function Next(use: Use, opts: Options): nat {
    if Tolerated(use, opts) then use.index else use.index + 1
  }

  /** The keys are tried in configured order from lo on, moving on except after a tolerated server error. */
  predicate InOrder(uses: seq<Use>, opts: Options, lo: nat) {
    uses != [] ==>
      && lo <= uses[0].index
      && (Tolerated(uses[0], opts) && |uses| > 1 ==> uses[1].index == uses[0].index)
      && InOrder(uses[1..], opts, Next(uses[0], opts))
  }

  lemma InOrderCons(use: Use, rest: seq<Use>, opts: Options, lo: nat)
    requires lo <= use.index && InOrder(rest, opts, Next(use, opts))
    requires Tolerated(use, opts) && rest != [] ==> rest[0].index == use.index
    ensures InOrder([use] + rest, opts, lo)
  {
    assert ([use] + rest)[1..] == rest;
  }

  lemma UsesOfCons(use: Use, rest: seq<Use>, i: nat)
    ensures UsesOf([use] + rest, i) == (if use.index == i then 1 else 0) + UsesOf(rest, i)
    ensures UsesOf([use], i) == if use.index == i then 1 else 0
  {
    assert ([use] + rest)[1..] == rest;
  }

  lemma {:induction false} InOrderMeans(uses: seq<Use>, opts: Options, lo: nat, u: nat, v: nat)
    requires InOrder(uses, opts, lo) && u < v < |uses|
    ensures lo <= uses[u].index <= uses[v].index
    ensures uses[u].index == uses[v].index ==> Tolerated(uses[u], opts)
    ensures Tolerated(uses[u], opts) && v == u + 1 ==> uses[u].index == uses[v].index
    decreases u + v
  {
    var first, rest := uses[0], uses[1..];
    assert v == 1 ==> rest[0] == uses[1];
    if u > 0 {
      InOrderMeans(rest, opts, Next(first, opts), u - 1, v - 1);
    } else if v > 1 {
      InOrderMeans(rest, opts, Next(first, opts), 0, v - 1);
    }
  }

  /** A retried attempt in a settled pool leaves it settled; its key stays available exactly after a
      tolerated server error, and then with a smaller budget. */
  lemma RetriedTurnSettles(
      keys: seq<Key>, opts: Options, a: Attempt, turn: Turn, t0: Instant, t1: Instant)
    requires opts.maxErrorCount > 0
    requires AloneTurn(keys, opts, a, turn) && turn.Used? && Retried(turn.use)
    requires Settled(keys, t0, t1) && t0 <= a.acquireAt <= t1
    requires t1 <= a.markAt + opts.rateLimitCooldown && t1 <= a.markAt + opts.errorCooldown
    ensures Settled(turn.keys, t0, t1)
    ensures forall t | t0 <= t <= t1 :: Available(turn.use.after, t) <==> Tolerated(turn.use, opts)
    ensures Budget(turn.use.after, opts, t0) < Budget(keys[turn.use.index], opts, t0)
  {
    var i := turn.use.index;
    assert Available(keys[i], a.acquireAt) == Available(keys[i], t0);
    assert Refreshed(keys[i], a.acquireAt) == Refreshed(keys[i], t0);
    forall j, t | 0 <= j < |keys| && t0 <= t <= t1
      ensures Available(turn.keys[j], t) == Available(turn.keys[j], t0)
    {
      if j != i {
        assert turn.keys[j] == keys[j];
      }
    }
  }

  /** A retried attempt leaves keys that the next one finds in the same good order. */
  lemma StaysFit(keys: seq<Key>, opts: Options, a: Attempt, turn: Turn, t0: Instant, t1: Instant)
    requires opts.maxErrorCount > 0 && DistinctLabels(keys)
    requires AloneTurn(keys, opts, a, turn) && turn.Used? && Retried(turn.use)
    requires Settled(keys, t0, t1) && t0 <= a.acquireAt <= t1
    requires t1 <= a.markAt + opts.rateLimitCooldown && t1 <= a.markAt + opts.errorCooldown
    ensures |turn.keys| == |keys| && DistinctLabels(turn.keys) && Settled(turn.keys, t0, t1)
  {
    AloneTurnKeepsEntries(keys, opts, a, turn);
    RetriedTurnSettles(keys, opts, a, turn, t0, t1);
  }

  /** Every key before lo is out of use. */
  predicate OutBefore(keys: seq<Key>, lo: nat, t0: Instant) {
    lo <= |keys| && forall j :: 0 <= j < lo ==> !Available(keys[j], t0)
  }

  lemma RetriedTurnAdvances(
      keys: seq<Key>, opts: Options, a: Attempt, turn: Turn, t0: Instant, t1: Instant, lo: nat)
    requires opts.maxErrorCount > 0
    requires AloneTurn(keys, opts, a, turn) && turn.Used?
    requires Settled(keys, t0, t1) && t0 <= a.acquireAt <= t1 && OutBefore(keys, lo, t0)
    requires t1 <= a.markAt + opts.rateLimitCooldown && t1 <= a.markAt + opts.errorCooldown
    ensures lo <= turn.use.index
    ensures Retried(turn.use) ==> OutBefore(turn.keys, Next(turn.use, opts), t0)
  {
    var i := turn.use.index;
    assert Available(keys[i], a.acquireAt) == Available(keys[i], t0);
    if Retried(turn.use) {
      RetriedTurnSettles(keys, opts, a, turn, t0, t1);
      forall j | 0 <= j < i
        ensures !Available(turn.keys[j], t0)
      {
        assert turn.keys[j] == keys[j] && Available(keys[j], a.acquireAt) == Available(keys[j], t0);
      }
    }
  }

  /** A use is paid for out of its key's budget. */
  lemma TurnSpendsBudget(
      keys: seq<Key>, opts: Options, a: Attempt, turn: Turn, t0: Instant, t1: Instant, i: nat)
    requires opts.maxErrorCount > 0 && i < |keys|
    requires AloneTurn(keys, opts, a, turn) && turn.Used?
    requires Settled(keys, t0, t1) && t0 <= a.acquireAt <= t1
    requires t1 <= a.markAt + opts.rateLimitCooldown && t1 <= a.markAt + opts.errorCooldown
    ensures (if turn.use.index == i then 1 else 0) + (if Retried(turn.use) then Budget(turn.keys[i], opts, t0) else 0)
      <= Budget(keys[i], opts, t0)
  {
    assert Available(keys[turn.use.index], a.acquireAt) == Available(keys[turn.use.index], t0);
    if Retried(turn.use) {
      RetriedTurnSettles(keys, opts, a, turn, t0, t1);
    }
  }

  /** With everything before key i out of use and key i available throughout, it is the first one used. */
  lemma FirstUse(
      turns: Turns, opts: Options, env: nat -> Attempt, keys: seq<Key>, n: nat, left: nat,
      t0: Instant, t1: Instant, i: nat)
    requires RunAlone(turns, opts, env) && DistinctLabels(keys)
    requires Quiet(env, n, left, opts, t0, t1) && Settled(keys, t0, t1)
    requires i < |keys| && forall j :: 0 <= j < i ==> !Available(keys[j], t0)
    ensures var uses := Loop(turns, keys, n, left).uses;
      Available(keys[i], t0) && uses != [] ==> uses[0].index == i
  {
    if left > 0 && Available(keys[i], t0) {
      var now := env(n).acquireAt;
      forall j | 0 <= j <= i
        ensures Available(keys[j], now) == Available(keys[j], t0)
      {
      }
      SelectIs(keys, now, i);
      assert AloneTurn(keys, opts, env(n), turns(keys, n));
    }
  }

  /** Keys a quiet request can go on with. */
  predicate Fit(keys: seq<Key>, t0: Instant, t1: Instant) {
    DistinctLabels(keys) && Settled(keys, t0, t1)
  }

  /** All the induction needs to know of one turn. */
  lemma QuietTurn(
      turns: Turns, opts: Options, env: nat -> Attempt, keys: seq<Key>, n: nat, left: nat,
      lo: nat, t0: Instant, t1: Instant, i: nat)
    requires opts.maxErrorCount > 0 && RunAlone(turns, opts, env)
    requires left > 0 && Quiet(env, n, left, opts, t0, t1)
    requires Fit(keys, t0, t1) && OutBefore(keys, lo, t0) && i < |keys|
    requires turns(keys, n).Used?
    ensures var turn := turns(keys, n);
      && lo <= turn.use.index
      && (turn.use.index == i ==> Budget(keys[i], opts, t0) >= 1)
      && (Retried(turn.use) ==>
            && |turn.keys| == |keys| && Fit(turn.keys, t0, t1)
            && OutBefore(turn.keys, Next(turn.use, opts), t0)
            && (if turn.use.index == i then 1 else 0) + Budget(turn.keys[i], opts, t0) <= Budget(keys[i], opts, t0)
            && (var rest := Loop(turns, turn.keys, n + 1, left - 1).uses;
                Tolerated(turn.use, opts) && rest != [] ==> rest[0].index == turn.use.index))
  {
    var turn := turns(keys, n);
    assert AloneTurn(keys, opts, env(n), turn);
    RetriedTurnAdvances(keys, opts, env(n), turn, t0, t1, lo);
    TurnSpendsBudget(keys, opts, env(n), turn, t0, t1, i);
    if Retried(turn.use) {
      StaysFit(keys, opts, env(n), turn, t0, t1);
      if Tolerated(turn.use, opts) {
        RetriedTurnSettles(keys, opts, env(n), turn, t0, t1);
        FirstUse(turns, opts, env, turn.keys, n + 1, left - 1, t0, t1, turn.use.index);
      }
    }
  }

  lemma {:induction false} LoopInOrder(
      turns: Turns, opts: Options, env: nat -> Attempt, keys: seq<Key>, n: nat, left: nat,
      lo: nat, t0: Instant, t1: Instant, i: nat)
    requires opts.maxErrorCount > 0 && RunAlone(turns, opts, env)
    requires Quiet(env, n, left, opts, t0, t1)
    requires Fit(keys, t0, t1) && OutBefore(keys, lo, t0) && i < |keys|
    ensures var uses := Loop(turns, keys, n, left).uses;
      InOrder(uses, opts, lo) && UsesOf(uses, i) <= Budget(keys[i], opts, t0)
    decreases left
  {
    if left > 0 {
      var turn := turns(keys, n);
      if turn.Used? {
        QuietTurn(turns, opts, env, keys, n, left, lo, t0, t1, i);
        if Retried(turn.use) {
          LoopInOrder(turns, opts, env, turn.keys, n + 1, left - 1, Next(turn.use, opts), t0, t1, i);
          var rest := Loop(turns, turn.keys, n + 1, left - 1).uses;
          InOrderCons(turn.use, rest, opts, lo);
          UsesOfCons(turn.use, rest, i);
        } else {
          InOrderCons(turn.use, [], opts, lo);
          UsesOfCons(turn.use, [], i);
        }
      }
    }
  }

  /** One request alone with the pool, during which no cooldown ends and no exhausted day ends: the indices
      tried never decrease; they strictly increase after every 429, 401 and 403; the next attempt uses the
      same key exactly after a server error below the limit; and no key is tried more than maxErrorCount
      times. */
  lemma RetriesFollowConfiguredOrder(
      keys: seq<Key>, opts: Options, env: nat -> Attempt, maxRetries: nat, t0: Instant, t1: Instant)
    requires opts.maxErrorCount > 0 && DistinctLabels(keys)
    requires JobAlone(Job(env, maxRetries))
    requires Quiet(env, 0, maxRetries, opts, t0, t1) && Settled(keys, t0, t1)
    ensures var uses := Serve(keys, opts, env, maxRetries).uses;
      && (forall u, v :: 0 <= u < v < |uses| ==> uses[u].index <= uses[v].index)
      && (forall u, v ::
            0 <= u < v < |uses| && (uses[u].result.kind.RateLimited? || uses[u].result.kind.KeyInvalid?)
            ==> uses[u].index < uses[v].index)
      && (forall u :: 0 <= u < |uses| - 1 ==> (uses[u].index == uses[u + 1].index <==> Tolerated(uses[u], opts)))
      && (forall i :: 0 <= i < |keys| ==> UsesOf(uses, i) <= opts.maxErrorCount)
  {
    var turns := TurnsOf(opts, env);
    forall found, n | DistinctLabels(found)
      ensures AloneTurn(found, opts, env(n), turns(found, n))
    {
      TurnsRunAlone(found, opts, env(n));
    }
    var uses := Serve(keys, opts, env, maxRetries).uses;
    forall u, v | 0 <= u < v < |uses|
      ensures uses[u].index <= uses[v].index
      ensures uses[u].index == uses[v].index ==> Tolerated(uses[u], opts)
      ensures Tolerated(uses[u], opts) && v == u + 1 ==> uses[u].index == uses[v].index
    {
      UsesLeaveKeys(keys, opts, Job(env, maxRetries), u);
      LoopInOrder(turns, opts, env, keys, 0, maxRetries, 0, t0, t1, uses[u].index);
      InOrderMeans(uses, opts, 0, u, v);
    }
    forall i | 0 <= i < |keys|
      ensures UsesOf(Serve(keys, opts, env, maxRetries).uses, i) <= opts.maxErrorCount
    {
      LoopInOrder(turns, opts, env, keys, 0, maxRetries, 0, t0, t1, i);
    }
  }

  // ---------------------------------------------------------------- how many attempts

  /** The uses of the first n keys. */
  function UsesUpTo(uses: seq<Use>, n: nat): nat {
    if n == 0 then 0 else UsesUpTo(uses, n - 1) + UsesOf(uses, n - 1)
  }

  function TotalBudget(keys: seq<Key>, opts: Options, t0: Instant): nat {
    if keys == [] then 0
    else TotalBudget(keys[..|keys| - 1], opts, t0) + Budget(keys[|keys| - 1], opts, t0)
  }

  lemma {:induction false} UsesUpToCons(use: Use, rest: seq<Use>, n: nat)
    ensures UsesUpTo([use] + rest, n) == (if use.index < n then 1 else 0) + UsesUpTo(rest, n)
  {
    if n > 0 {
      UsesUpToCons(use, rest, n - 1);
      UsesOfCons(use, rest, n - 1);
    }
  }

  lemma {:induction false} NoUses(n: nat)
    ensures UsesUpTo([], n) == 0
  {
    if n > 0 {
      NoUses(n - 1);
    }
  }

  lemma {:induction false} UsesAddUp(uses: seq<Use>, n: nat)
    requires forall u :: 0 <= u < |uses| ==> uses[u].index < n
    ensures UsesUpTo(uses, n) == |uses|
  {
    if uses == [] {
      NoUses(n);
    } else {
      UsesAddUp(uses[1..], n);
      UsesUpToCons(uses[0], uses[1..], n);
      assert uses == [uses[0]] + uses[1..];
    }
  }

  lemma {:induction false} BudgetsAddUp(uses: seq<Use>, keys: seq<Key>, opts: Options, t0: Instant)
    requires forall i :: 0 <= i < |keys| ==> UsesOf(uses, i) <= Budget(keys[i], opts, t0)
    ensures UsesUpTo(uses, |keys|) <= TotalBudget(keys, opts, t0)
  {
    if keys != [] {
      BudgetsAddUp(uses, keys[..|keys| - 1], opts, t0);
    }
  }

  /** In general such a request makes no more attempts than the available keys have errors left together. */
  lemma {:induction false} AttemptsWithinBudget(
      keys: seq<Key>, opts: Options, env: nat -> Attempt, maxRetries: nat, t0: Instant, t1: Instant)
    requires opts.maxErrorCount > 0 && DistinctLabels(keys)
    requires JobAlone(Job(env, maxRetries))
    requires Quiet(env, 0, maxRetries, opts, t0, t1) && Settled(keys, t0, t1)
    ensures |Serve(keys, opts, env, maxRetries).uses| <= TotalBudget(keys, opts, t0)
  {
    var turns := TurnsOf(opts, env);
    forall found, n | DistinctLabels(found)
      ensures AloneTurn(found, opts, env(n), turns(found, n))
    {
      TurnsRunAlone(found, opts, env(n));
    }
    var uses := Serve(keys, opts, env, maxRetries).uses;
    forall i | 0 <= i < |keys|
      ensures UsesOf(uses, i) <= Budget(keys[i], opts, t0)
    {
      LoopInOrder(turns, opts, env, keys, 0, maxRetries, 0, t0, t1, i);
    }
    forall u | 0 <= u < |uses|
      ensures uses[u].index < |keys|
    {
      UsesLeaveKeys(keys, opts, Job(env, maxRetries), u);
    }
    BudgetsAddUp(uses, keys, opts, t0);
    UsesAddUp(uses, |keys|);
  }
}
