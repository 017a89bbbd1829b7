/** Pools in which two keys carry one label. Reports find the first of them, so the second is never taken out of
    service, whatever comes back for it; the laws for requests that do not overlap then fail. */
module SharedLabels {
  import opened Wrappers
  import opened Calendar
  import opened KeyModel
  import opened ProxyModel
  import opened SequentialUse
  import Provider

  /** An earlier key carries the label of key i. */
  predicate Shadowed(keys: seq<Key>, i: nat) {
    i < |keys| && FirstIndex(keys, keys[i].keyLabel) < i
  }

  lemma {:induction false} FirstShadowed(keys: seq<Key>, from: nat) returns (i: nat)
    requires from <= |keys| && forall k :: 0 <= k < from ==> !Shadowed(keys, k)
    requires !DistinctLabels(keys)
    ensures Shadowed(keys, i) && forall k :: 0 <= k < i ==> !Shadowed(keys, k)
    decreases |keys| - from
  {
    if from == |keys| {
      forall k, l | 0 <= k < l < |keys|
        ensures keys[k].keyLabel != keys[l].keyLabel
      {
        assert !Shadowed(keys, l);
      }
      assert false;
    } else if Shadowed(keys, from) {
      i := from;
    } else {
      i := FirstShadowed(keys, from + 1);
    }
  }

  // ---------------------------------------------------------------- a burst of 429s

  const LIMITED := Provider.UpstreamResult(Provider.Outcome.RateLimited, 429, [], Provider.NO_SNAPSHOT, None)

  /** Nothing but 429s, all at one instant. */
  function Burst(): nat -> Attempt {
    (n: nat) => Attempt([], SECOND, [], LIMITED, false, SECOND)
  }

  /** The keys of a new pool after the first n of them got their 429. */
  function Drained(entries: seq<KeyEntry>, opts: Options, n: nat): (keys: seq<Key>)
    ensures |keys| == |entries|
  {
    seq(|entries|, k requires 0 <= k < |entries| =>
      if k < n
      then NewKey(entries[k]).(status := KeyStatus.RateLimited, cooldownUntil := SECOND + opts.rateLimitCooldown)
      else NewKey(entries[k]))
  }

  /** The key got a 429 and is in service all the same. */
  predicate StaysActive(use: Use) {
    use.result.kind.RateLimited? && use.after.status.Active?
  }

  /** The next key is used, and is taken out unless it is shadowed: then the report changes nothing. */
  lemma {:induction false} BurstTurn(entries: seq<KeyEntry>, opts: Options, n: nat)
    requires opts.rateLimitCooldown >= 0 && n < |entries|
    ensures var turn := TurnOf(Drained(entries, opts, n), opts, Burst()(0));
      && turn.Used? && turn.use.index == n && Retried(turn.use)
      && (Shadowed(NewKeys(entries), n) <==> StaysActive(turn.use))
      && turn.keys == Drained(entries, opts, if Shadowed(NewKeys(entries), n) then n else n + 1)
  {
    var keys := Drained(entries, opts, n);
    SelectIs(keys, SECOND, n);
    assert Apply(keys, Acquire, opts, SECOND) == keys && Run(keys, opts, []) == keys;
    FirstIndexStable(NewKeys(entries), keys, entries[n].keyLabel);
    var j := FirstIndex(keys, entries[n].keyLabel);
    assert j <= n && (Shadowed(NewKeys(entries), n) <==> j < n);
    var after := keys[j := keys[j].(status := KeyStatus.RateLimited, cooldownUntil := SECOND + opts.rateLimitCooldown)];
    assert after == Drained(entries, opts, if j < n then n else n + 1);
  }

  /** From key n on these uses go through the keys in order, and stay with key i, in service, from there on. */
  predicate BurstUses(uses: seq<Use>, i: nat, n: nat) {
    forall u :: 0 <= u < |uses| ==>
      uses[u].index == (if n + u < i then n + u else i) && (n + u >= i ==> StaysActive(uses[u]))
  }

  lemma BurstCons(use: Use, rest: seq<Use>, i: nat, n: nat)
    requires n <= i && use.index == n && (n == i ==> StaysActive(use))
    requires BurstUses(rest, i, if n < i then n + 1 else n)
    ensures BurstUses([use] + rest, i, n)
  {
  }

  /** The burst drains the keys in order up to the first shadowed one, and uses that one from then on. */
  lemma {:induction false} BurstLoop(entries: seq<KeyEntry>, opts: Options, i: nat, n: nat, from: nat, left: nat)
    requires opts.rateLimitCooldown >= 0 && Shadowed(NewKeys(entries), i)
    requires forall k :: 0 <= k < i ==> !Shadowed(NewKeys(entries), k)
    requires n <= i
    ensures var uses := Loop(TurnsOf(opts, Burst()), Drained(entries, opts, n), from, left).uses;
      |uses| == left && BurstUses(uses, i, n)
    decreases left
  {
    if left > 0 {
      hide Loop, TurnsOf, Burst, Drained, StaysActive, Retried, BurstUses, Shadowed, NewKeys;
      var turns := TurnsOf(opts, Burst());
      var turn := BurstAttempt(entries, opts, n, from);
      var next := if n < i then n + 1 else n;
      LoopStep(turns, Drained(entries, opts, n), from, left);
      BurstLoop(entries, opts, i, next, from + 1, left - 1);
      BurstCons(turn.use, Loop(turns, Drained(entries, opts, next), from + 1, left - 1).uses, i, n);
    }
  }

  /** BurstTurn, as any attempt of the burst. */
  lemma {:induction false} BurstAttempt(entries: seq<KeyEntry>, opts: Options, n: nat, from: nat) returns (turn: Turn)
    requires opts.rateLimitCooldown >= 0 && n < |entries|
    ensures turn == TurnsOf(opts, Burst())(Drained(entries, opts, n), from)
    ensures turn.Used? && turn.use.index == n && Retried(turn.use)
    ensures Shadowed(NewKeys(entries), n) <==> StaysActive(turn.use)
    ensures turn.keys == Drained(entries, opts, if Shadowed(NewKeys(entries), n) then n else n + 1)
  {
    BurstTurn(entries, opts, n);
    turn := TurnOf(Drained(entries, opts, n), opts, Burst()(0));
    hide TurnOf;
    assert turn == TurnsOf(opts, Burst())(Drained(entries, opts, n), from);
  }

  /** A new pool with a shared label: one undisturbed request, answered 429 each time, tries the first shadowed
      key twice in a row at one instant, and it is still in service after that. */
  lemma {:induction false} BurstRepeats(entries: seq<KeyEntry>, opts: Options) returns (i: nat)
    requires opts.rateLimitCooldown >= 0 && !DistinctLabels(NewKeys(entries))
    ensures Shadowed(NewKeys(entries), i)
    ensures var uses := Serve(NewKeys(entries), opts, Burst(), i + 2).uses;
      && |uses| == i + 2 && uses[i].index == i && uses[i + 1].index == i
      && StaysActive(uses[i]) && StaysActive(uses[i + 1])
  {
    i := FirstShadowed(NewKeys(entries), 0);
    assert Drained(entries, opts, 0) == NewKeys(entries);
    BurstLoop(entries, opts, i, 0, 0, i + 2);
  }

  /** In any pool: with everything before it out of use, a shadowed key in service is tried twice at once. */
  lemma {:induction false} ShadowedKeyRepeats(keys: seq<Key>, opts: Options, i: nat)
    requires opts.rateLimitCooldown >= 0 && Shadowed(keys, i) && keys[i].status.Active?
    requires forall j :: 0 <= j < i ==> !Available(keys[j], SECOND)
    ensures var uses := Serve(keys, opts, Burst(), 2).uses;
      |uses| == 2 && uses[0].index == i && uses[1].index == i
  {
    var turns := TurnsOf(opts, Burst());
    ShadowedTurn(keys, opts, i);
    var first := TurnOf(keys, opts, Burst()(0));
    assert first == turns(keys, 0);
    ShadowedTurn(first.keys, opts, i);
    var second := TurnOf(first.keys, opts, Burst()(1));
    assert second == turns(first.keys, 1);
    assert Loop(turns, first.keys, 1, 1).uses == [second.use];
    assert Serve(keys, opts, Burst(), 2).uses == [first.use] + [second.use];
  }

  lemma {:induction false} ShadowedTurn(keys: seq<Key>, opts: Options, i: nat)
    requires opts.rateLimitCooldown >= 0 && Shadowed(keys, i) && keys[i].status.Active?
    requires forall j :: 0 <= j < i ==> !Available(keys[j], SECOND)
    ensures var turn := TurnOf(keys, opts, Burst()(0));
      && turn.Used? && turn.use.index == i && Retried(turn.use)
      && Shadowed(turn.keys, i) && turn.keys[i] == keys[i]
      && forall j :: 0 <= j < i ==> !Available(turn.keys[j], SECOND)
  {
    SelectIs(keys, SECOND, i);
    assert Apply(keys, Acquire, opts, SECOND) == keys && Run(keys, opts, []) == keys;
    var j := FirstIndex(keys, keys[i].keyLabel);
    var after := keys[j := keys[j].(status := KeyStatus.RateLimited, cooldownUntil := SECOND + opts.rateLimitCooldown)];
    FirstIndexStable(keys, after, keys[i].keyLabel);
  }

  // ---------------------------------------------------------------- the law for requests that do not overlap

  /** A run of requests on this new pool that do not overlap uses one key at u and next at v. */
  ghost predicate InSequence(entries: seq<KeyEntry>, opts: Options, jobs: seq<Job>, u: nat, v: nat) {
    && (forall j :: 0 <= j < |jobs| ==> JobAlone(jobs[j]))
    && Successive(ServeAll(NewKeys(entries), opts, jobs).0, u, v)
  }

  /** In every such run the key waits as it should. */
  ghost predicate SequentialLaw(entries: seq<KeyEntry>, opts: Options) {
    forall jobs: seq<Job>, u: nat, v: nat | InSequence(entries, opts, jobs, u, v) ::
      var uses := ServeAll(NewKeys(entries), opts, jobs).0;
      Waits(uses[u], uses[v], opts)
  }

  /** That holds if and only if no two keys share a label. */
  lemma {:induction false} SequentialLawIff(entries: seq<KeyEntry>, opts: Options)
    requires opts.rateLimitCooldown >= 0
    ensures SequentialLaw(entries, opts) <==> DistinctLabels(NewKeys(entries))
  {
    if DistinctLabels(NewKeys(entries)) {
      hide Waits, ServeAll;
      forall jobs: seq<Job>, u: nat, v: nat | InSequence(entries, opts, jobs, u, v)
        ensures Waits(ServeAll(NewKeys(entries), opts, jobs).0[u], ServeAll(NewKeys(entries), opts, jobs).0[v], opts)
      {
        SequentialExhaustion(entries, opts, jobs, u, v);
      }
    } else {
      SharedLabelDoesNotWait(entries, opts);
    }
  }

  lemma StayingActiveIsNotWaiting(uses: seq<Use>, u: nat, opts: Options)
    requires u + 1 < |uses| && uses[u].index == uses[u + 1].index && StaysActive(uses[u])
    ensures Successive(uses, u, u + 1) && !Waits(uses[u], uses[u + 1], opts)
  {
  }

  lemma {:induction false} SharedLabelDoesNotWait(entries: seq<KeyEntry>, opts: Options)
    requires opts.rateLimitCooldown >= 0 && !DistinctLabels(NewKeys(entries))
    ensures !SequentialLaw(entries, opts)
  {
    var i := BurstRepeats(entries, opts);
    var jobs := [Job(Burst(), i + 2)];
    OneJob(NewKeys(entries), opts, jobs[0]);
    assert JobAlone(jobs[0]);
    hide ServeAll, Shadowed, Serve, JobAlone, NewKeys, DistinctLabels, Successive, Waits, StaysActive;
    var uses := ServeAll(NewKeys(entries), opts, jobs).0;
    StayingActiveIsNotWaiting(uses, i, opts);
    assert InSequence(entries, opts, jobs, i, i + 1);
  }

  lemma {:induction false} OneJob(keys: seq<Key>, opts: Options, job: Job)
    ensures ServeAll(keys, opts, [job]).0 == Serve(keys, opts, job.env, job.maxRetries).uses
  {
    assert [job][..0] == [];
    assert ServeAll(keys, opts, [job][..0]) == ([], keys);
  }
}
