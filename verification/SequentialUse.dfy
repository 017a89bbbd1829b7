/** Requests that do not overlap: each one's pool calls are the only ones while it runs. Then a key that
    left the Active state is sent upstream again only once it is due. */
module SequentialUse {
  import opened Wrappers
  import opened Calendar
  import opened KeyModel
  import opened ProxyModel

  /** Nobody else calls the pool around this attempt. */
  predicate Alone(a: Attempt) {
    a.before == [] && a.during == []
  }

  /** What an attempt does to the key it uses when nobody interferes. */
  function AfterUse(k: Key, opts: Options, a: Attempt): Key {
    match Report(k.keyLabel, a.result, a.cancelled)
    case None => Refreshed(k, a.acquireAt)
    case Some(call) => Reported(Refreshed(k, a.acquireAt), call, opts, a.markAt)
  }

  /** An attempt run alone uses the first available key and touches no other. */
  predicate AloneTurn(keys: seq<Key>, opts: Options, a: Attempt, turn: Turn) {
    var i := Select(keys, a.acquireAt);
    if i == |keys| then turn == NothingToUse(keys)
    else
      && turn.Used?
      && turn.use == Use(i, a.acquireAt, a.result, a.cancelled, a.markAt, AfterUse(keys[i], opts, a))
      && turn.keys == keys[i := turn.use.after]
  }

  lemma TurnsRunAlone(keys: seq<Key>, opts: Options, a: Attempt)
    requires DistinctLabels(keys) && Alone(a)
    ensures AloneTurn(keys, opts, a, TurnOf(keys, opts, a))
  {
    var i := Select(keys, a.acquireAt);
    if i < |keys| {
      var held := keys[i := Refreshed(keys[i], a.acquireAt)];
      assert Run(held, opts, a.during) == held;
      FirstIndexIs(held, keys[i].keyLabel, i);
    }
  }

  lemma AloneTurnKeepsEntries(keys: seq<Key>, opts: Options, a: Attempt, turn: Turn)
    requires AloneTurn(keys, opts, a, turn)
    ensures SameEntries(keys, turn.keys)
  {
  }

  /** Turns that run alone, whatever keys with distinct labels they find. */
  ghost predicate RunAlone(turns: Turns, opts: Options, env: nat -> Attempt) {
    forall keys: seq<Key>, n: nat {:trigger AloneTurn(keys, opts, env(n), turns(keys, n))} ::
      DistinctLabels(keys) ==> AloneTurn(keys, opts, env(n), turns(keys, n))
  }

  // ---------------------------------------------------------------- the trace decides the keys

  /** Key i as its last use left it; k0 if it was never used. */
  function LastLeft(uses: seq<Use>, i: nat, k0: Key): Key {
    if uses == [] then k0
    else
      var last := uses[|uses| - 1];
      if last.index == i then last.after else LastLeft(uses[..|uses| - 1], i, k0)
  }

  lemma {:induction false} LastLeftConcat(a: seq<Use>, b: seq<Use>, i: nat, k0: Key)
    ensures LastLeft(a + b, i, k0) == LastLeft(b, i, LastLeft(a, i, k0))
  {
    if b == [] {
      assert a + b == a;
    } else {
      var front := b[..|b| - 1];
      LastLeftConcat(a, front, i, k0);
      assert (a + b)[..|a + b| - 1] == a + front;
    }
  }

  /** A use leaves its key as its outcome says, and in service unless the outcome took it out. */
  predicate LeavesKey(use: Use, opts: Options) {
    && LeftBy(use.after, use.result, use.cancelled, use.markedAt, opts)
    && (use.result.kind.ServerError? && (use.cancelled || !(0 < opts.maxErrorCount <= use.after.errorCount)) ==>
          use.after.status.Active?)
  }

  /** All keys as these uses left them. */
  function KeysLeft(uses: seq<Use>, keys0: seq<Key>): (left: seq<Key>)
    ensures |left| == |keys0|
  {
    seq(|keys0|, i requires 0 <= i < |keys0| => LastLeft(uses, i, keys0[i]))
  }

  lemma KeysLeftConcat(a: seq<Use>, b: seq<Use>, keys0: seq<Key>)
    ensures KeysLeft(a + b, keys0) == KeysLeft(b, KeysLeft(a, keys0))
  {
    forall i | 0 <= i < |keys0|
      ensures LastLeft(a + b, i, keys0[i]) == LastLeft(b, i, LastLeft(a, i, keys0[i]))
    {
      LastLeftConcat(a, b, i, keys0[i]);
    }
  }

  /** The u-th use is of the first key available among the keys as the earlier uses left them. */
  predicate ServedInTurn(uses: seq<Use>, u: nat, keys0: seq<Key>)
    requires u < |uses|
  {
    Select(KeysLeft(uses[..u], keys0), uses[u].sentAt) == uses[u].index < |keys0|
  }

  /** A trace of uses explains the keys: it starts from keys0 and ends in keys, each use is the one that
      was due, and each key is left as the outcome says. */
  predicate Explains(uses: seq<Use>, keys0: seq<Key>, keys: seq<Key>, opts: Options) {
    && SameEntries(keys0, keys)
    && keys == KeysLeft(uses, keys0)
    && (forall u :: 0 <= u < |uses| ==> ServedInTurn(uses, u, keys0) && LeavesKey(uses[u], opts))
  }

  lemma ExplainsConcat(a: seq<Use>, b: seq<Use>, keys0: seq<Key>, keys1: seq<Key>, keys2: seq<Key>, opts: Options)
    requires Explains(a, keys0, keys1, opts) && Explains(b, keys1, keys2, opts)
    ensures Explains(a + b, keys0, keys2, opts)
  {
    KeysLeftConcat(a, b, keys0);
    forall u | 0 <= u < |a + b|
      ensures ServedInTurn(a + b, u, keys0) && LeavesKey((a + b)[u], opts)
    {
      if u < |a| {
        assert (a + b)[..u] == a[..u] && ServedInTurn(a, u, keys0);
      } else {
        assert (a + b)[..u] == a + b[..u - |a|] && ServedInTurn(b, u - |a|, keys1);
        KeysLeftConcat(a, b[..u - |a|], keys0);
      }
    }
  }

  lemma NoUseExplains(keys: seq<Key>, opts: Options)
    ensures Explains([], keys, keys, opts)
  {
    assert KeysLeft([], keys) == keys;
  }

  lemma AloneTurnExplains(keys: seq<Key>, opts: Options, a: Attempt, turn: Turn)
    requires AloneTurn(keys, opts, a, turn) && turn.Used?
    ensures Explains([turn.use], keys, turn.keys, opts)
  {
    AloneTurnKeepsEntries(keys, opts, a, turn);
    assert KeysLeft([], keys) == keys && [turn.use][..0] == [];
    assert turn.keys == KeysLeft([turn.use], keys);
    LeftByOutcome(keys, opts, a, turn);
  }

  lemma LeftByOutcome(keys: seq<Key>, opts: Options, a: Attempt, turn: Turn)
    requires AloneTurn(keys, opts, a, turn) && turn.Used?
    ensures LeavesKey(turn.use, opts)
  {
  }

  lemma {:induction false} LoopExplains(
      turns: Turns, opts: Options, env: nat -> Attempt, keys: seq<Key>, n: nat, left: nat)
    requires RunAlone(turns, opts, env) && DistinctLabels(keys)
    ensures var s := Loop(turns, keys, n, left);
      Explains(s.uses, keys, s.keys, opts)
    decreases left
  {
    hide Explains;
    NoUseExplains(keys, opts);
    if left > 0 {
      var turn := turns(keys, n);
      assert AloneTurn(keys, opts, env(n), turn);
      AloneTurnKeepsEntries(keys, opts, env(n), turn);
      if turn.Used? {
        AloneTurnExplains(keys, opts, env(n), turn);
        if Retried(turn.use) {
          LoopExplains(turns, opts, env, turn.keys, n + 1, left - 1);
          var rest := Loop(turns, turn.keys, n + 1, left - 1);
          ExplainsConcat([turn.use], rest.uses, keys, turn.keys, rest.keys, opts);
        }
      }
    }
  }

  // ---------------------------------------------------------------- whole runs

  /** One request of a run: what happens around its attempts, and its retry budget. */
  datatype Job = Job(env: nat -> Attempt, maxRetries: nat)

  ghost predicate JobAlone(job: Job) {
    forall n: nat :: Alone(job.env(n))
  }

  /** A run of requests one after the other: all uses, in order, and the final keys. */
  function ServeAll(keys: seq<Key>, opts: Options, jobs: seq<Job>): (r: (seq<Use>, seq<Key>)) {
    if jobs == [] then ([], keys)
    else
      var n := |jobs| - 1;
      var (uses, now) := ServeAll(keys, opts, jobs[..n]);
      var s := Serve(now, opts, jobs[n].env, jobs[n].maxRetries);
      (uses + s.uses, s.keys)
  }

  lemma ServeExplains(keys: seq<Key>, opts: Options, job: Job)
    requires JobAlone(job) && DistinctLabels(keys)
    ensures var s := Serve(keys, opts, job.env, job.maxRetries);
      Explains(s.uses, keys, s.keys, opts)
  {
    var turns := TurnsOf(opts, job.env);
    forall found, n | DistinctLabels(found)
      ensures AloneTurn(found, opts, job.env(n), turns(found, n))
    {
      TurnsRunAlone(found, opts, job.env(n));
    }
    LoopExplains(turns, opts, job.env, keys, 0, job.maxRetries);
  }

  lemma {:induction false} UsesLeaveKeys(keys: seq<Key>, opts: Options, job: Job, u: nat)
    requires JobAlone(job) && DistinctLabels(keys)
    requires u < |Serve(keys, opts, job.env, job.maxRetries).uses|
    ensures var use := Serve(keys, opts, job.env, job.maxRetries).uses[u];
      use.index < |keys| && LeavesKey(use, opts)
  {
    ServeExplains(keys, opts, job);
  }

  lemma {:induction false} ServeAllExplains(keys: seq<Key>, opts: Options, jobs: seq<Job>)
    requires DistinctLabels(keys)
    requires forall j :: 0 <= j < |jobs| ==> JobAlone(jobs[j])
    ensures var (uses, final) := ServeAll(keys, opts, jobs);
      Explains(uses, keys, final, opts)
  {
    if jobs != [] {
      var n := |jobs| - 1;
      ServeAllExplains(keys, opts, jobs[..n]);
      var (uses, now) := ServeAll(keys, opts, jobs[..n]);
      ServeExplains(now, opts, jobs[n]);
      var s := Serve(now, opts, jobs[n].env, jobs[n].maxRetries);
      ExplainsConcat(uses, s.uses, keys, now, s.keys, opts);
    }
  }

  lemma {:induction false} LastLeftIs(uses: seq<Use>, u: nat, i: nat, k0: Key)
    requires u < |uses| && uses[u].index == i
    requires forall w :: u < w < |uses| ==> uses[w].index != i
    ensures LastLeft(uses, i, k0) == uses[u].after
  {
    if u < |uses| - 1 {
      LastLeftIs(uses[..|uses| - 1], u, i, k0);
    }
  }

  /** What a key's use demands of its next one: a 429 or an invalid or failing key waits out its whole cooldown,
      strictly, and an exhausted key waits for another UTC date. */
  predicate Waits(first: Use, next: Use, opts: Options) {
    match first.after.status
    case Active => !first.result.kind.RateLimited? && !first.result.kind.KeyInvalid?
    case RateLimited => next.sentAt > first.markedAt + opts.rateLimitCooldown
    case Error => next.sentAt > first.markedAt + opts.errorCooldown
    case Exhausted => Exhausting(first.result.snapshot, opts) && !SameUTCDate(first.markedAt, next.sentAt)
  }

  /** The uses at u and v are successive ones of the same key. */
  predicate Successive(uses: seq<Use>, u: nat, v: nat) {
    && u < v < |uses| && uses[u].index == uses[v].index
    && forall w :: u < w < v ==> uses[w].index != uses[u].index
  }

  /** When requests do not overlap and labels are distinct, every two successive uses of a key keep to that. */
  lemma {:induction false} SequentialExhaustion(entries: seq<KeyEntry>, opts: Options, jobs: seq<Job>, u: nat, v: nat)
    requires DistinctLabels(NewKeys(entries))
    requires forall j :: 0 <= j < |jobs| ==> JobAlone(jobs[j])
    requires Successive(ServeAll(NewKeys(entries), opts, jobs).0, u, v)
    ensures var uses := ServeAll(NewKeys(entries), opts, jobs).0;
      Waits(uses[u], uses[v], opts)
  {
    var keys := NewKeys(entries);
    ServeAllExplains(keys, opts, jobs);
    var uses := ServeAll(keys, opts, jobs).0;
    LastLeftIs(uses[..v], u, uses[v].index, keys[uses[v].index]);
    assert ServedInTurn(uses, v, keys) && LeavesKey(uses[u], opts);
    assert Available(uses[u].after, uses[v].sentAt);
    SameDateIsSameDay(uses[u].markedAt, uses[v].sentAt);
  }

  /** Position u is the last use of key i in the trace. */
  predicate IsLastUse(uses: seq<Use>, u: nat, i: nat) {
    u < |uses| && uses[u].index == i && forall w :: u < w < |uses| ==> uses[w].index != i
  }

  lemma {:induction false} LastUseOf(uses: seq<Use>, i: nat, k0: Key) returns (u: nat)
    requires LastLeft(uses, i, k0) != k0
    ensures IsLastUse(uses, u, i) && uses[u].after == LastLeft(uses, i, k0)
  {
    u := |uses| - 1;
    if uses[u].index != i {
      u := LastUseOf(uses[..u], i, k0);
    }
  }

  lemma NotDueBefore(uses: seq<Use>, v: nat, keys0: seq<Key>, j: nat)
    requires v < |uses| && ServedInTurn(uses, v, keys0) && j < uses[v].index
    ensures !Available(LastLeft(uses[..v], j, keys0[j]), uses[v].sentAt)
  {
    assert KeysLeft(uses[..v], keys0)[j] == LastLeft(uses[..v], j, keys0[j]);
  }

  /** The keys are drained in configured order: whenever a key is sent upstream, every key before it has
      been used by then, and its last use left it out of use until now. */
  lemma {:induction false} EarlierKeysAreSpent(entries: seq<KeyEntry>, opts: Options, jobs: seq<Job>, v: nat, j: nat)
    returns (u: nat)
    requires DistinctLabels(NewKeys(entries))
    requires forall j :: 0 <= j < |jobs| ==> JobAlone(jobs[j])
    requires v < |ServeAll(NewKeys(entries), opts, jobs).0| && j < ServeAll(NewKeys(entries), opts, jobs).0[v].index
    ensures var uses := ServeAll(NewKeys(entries), opts, jobs).0;
      IsLastUse(uses[..v], u, j) && !Available(uses[u].after, uses[v].sentAt)
  {
    var keys := NewKeys(entries);
    ServeAllExplains(keys, opts, jobs);
    var uses := ServeAll(keys, opts, jobs).0;
    NotDueBefore(uses, v, keys, j);
    assert Available(keys[j], uses[v].sentAt);
    u := LastUseOf(uses[..v], j, keys[j]);
  }
}
