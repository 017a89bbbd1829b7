/** The quota a key shows is what the upstream last told it, over whole runs of requests. */
module QuotaAnswers {
  import opened Wrappers
  import opened KeyModel
  import opened ProxyModel
  import opened SequentialUse
  import Provider

  /** The daily and the minute pair, each a limit and a remainder. */
  datatype Quota = Quota(daily: (int, int), minute: (int, int))

  function QuotaOf(k: Key): Quota {
    Quota((k.dailyLimit, k.dailyRemaining), (k.minuteLimit, k.minuteRemaining))
  }

  /** The use came back with an answer of the upstream that is passed on to the client. */
  predicate Answers(use: Use) {
    use.result.kind.Success? || use.result.kind.ClientError?
  }

  function QuotaAfter(use: Use, q: Quota): Quota {
    var snap := use.result.snapshot;
    Quota(if Answers(use) && snap.hasDaily then (snap.dailyLimit, snap.dailyRemaining) else q.daily,
          if Answers(use) && snap.hasMinute then (snap.minuteLimit, snap.minuteRemaining) else q.minute)
  }

  /** What the uses of key i in the trace tell about its quota. */
  function Told(uses: seq<Use>, i: nat, q: Quota): Quota {
    if uses == [] then q
    else
      var n := |uses| - 1;
      var before := Told(uses[..n], i, q);
      if uses[n].index == i then QuotaAfter(uses[n], before) else before
  }

  lemma {:induction false} ToldConcat(a: seq<Use>, b: seq<Use>, i: nat, q: Quota)
    ensures Told(a + b, i, q) == Told(b, i, Told(a, i, q))
  {
    if b == [] {
      assert a + b == a;
    } else {
      var n := |b| - 1;
      ToldConcat(a, b[..n], i, q);
      assert (a + b)[..|a| + n] == a + b[..n];
    }
  }

  lemma {:induction false} TurnTells(keys: seq<Key>, opts: Options, a: Attempt, turn: Turn, i: nat)
    requires AloneTurn(keys, opts, a, turn) && i < |keys|
    ensures |turn.keys| == |keys|
    ensures QuotaOf(turn.keys[i]) == Told(if turn.Used? then [turn.use] else [], i, QuotaOf(keys[i]))
  {
    if turn.Used? {
      assert [turn.use][..0] == [];
    }
  }

  lemma {:induction false} LoopTells(
      turns: Turns, opts: Options, env: nat -> Attempt, keys: seq<Key>, n: nat, left: nat, i: nat)
    requires RunAlone(turns, opts, env) && DistinctLabels(keys) && i < |keys|
    ensures var s := Loop(turns, keys, n, left);
      |s.keys| == |keys| && QuotaOf(s.keys[i]) == Told(s.uses, i, QuotaOf(keys[i]))
    decreases left
  {
    if left > 0 {
      var turn := turns(keys, n);
      assert AloneTurn(keys, opts, env(n), turn);
      AloneTurnKeepsEntries(keys, opts, env(n), turn);
      TurnTells(keys, opts, env(n), turn, i);
      hide QuotaOf, AloneTurn, QuotaAfter;
      if turn.Used? && Retried(turn.use) {
        LoopTells(turns, opts, env, turn.keys, n + 1, left - 1, i);
        ToldConcat([turn.use], Loop(turns, turn.keys, n + 1, left - 1).uses, i, QuotaOf(keys[i]));
      }
    }
  }

  lemma {:induction false} ServeTells(keys: seq<Key>, opts: Options, job: Job, i: nat)
    requires JobAlone(job) && DistinctLabels(keys) && i < |keys|
    ensures var s := Serve(keys, opts, job.env, job.maxRetries);
      |s.keys| == |keys| && QuotaOf(s.keys[i]) == Told(s.uses, i, QuotaOf(keys[i]))
  {
    var turns := TurnsOf(opts, job.env);
    forall found, n | DistinctLabels(found)
      ensures AloneTurn(found, opts, job.env(n), turns(found, n))
    {
      TurnsRunAlone(found, opts, job.env(n));
    }
    LoopTells(turns, opts, job.env, keys, 0, job.maxRetries, i);
  }

  lemma {:induction false} ServeAllTells(keys: seq<Key>, opts: Options, jobs: seq<Job>, i: nat)
    requires DistinctLabels(keys) && i < |keys|
    requires forall j :: 0 <= j < |jobs| ==> JobAlone(jobs[j])
    ensures var (uses, final) := ServeAll(keys, opts, jobs);
      |final| == |keys| && QuotaOf(final[i]) == Told(uses, i, QuotaOf(keys[i]))
  {
    if jobs != [] {
      var n := |jobs| - 1;
      var (uses, now) := ServeAll(keys, opts, jobs[..n]);
      ServeAllTells(keys, opts, jobs[..n], i);
      ServeAllExplains(keys, opts, jobs[..n]);
      ServeTells(now, opts, jobs[n], i);
      ToldConcat(uses, Serve(now, opts, jobs[n].env, jobs[n].maxRetries).uses, i, QuotaOf(keys[i]));
    }
  }

  predicate TellsDaily(use: Use, i: nat) {
    use.index == i && Answers(use) && use.result.snapshot.hasDaily
  }

  predicate TellsMinute(use: Use, i: nat) {
    use.index == i && Answers(use) && use.result.snapshot.hasMinute
  }

  /** Use u is the last one of key i that was answered with both daily headers. */
  predicate LastDailyAnswer(uses: seq<Use>, u: nat, i: nat) {
    u < |uses| && TellsDaily(uses[u], i) && forall w :: u < w < |uses| ==> !TellsDaily(uses[w], i)
  }

  predicate LastMinuteAnswer(uses: seq<Use>, u: nat, i: nat) {
    u < |uses| && TellsMinute(uses[u], i) && forall w :: u < w < |uses| ==> !TellsMinute(uses[w], i)
  }

  lemma {:induction false} LastAnswerTells(uses: seq<Use>, u: nat, i: nat, q: Quota)
    ensures LastDailyAnswer(uses, u, i) ==>
      var snap := uses[u].result.snapshot;
      Told(uses, i, q).daily == (snap.dailyLimit, snap.dailyRemaining)
    ensures LastMinuteAnswer(uses, u, i) ==>
      var snap := uses[u].result.snapshot;
      Told(uses, i, q).minute == (snap.minuteLimit, snap.minuteRemaining)
  {
    if u + 1 < |uses| {
      LastAnswerTells(uses[..|uses| - 1], u, i, q);
    }
  }

  /** In every run of requests that do not overlap, with distinct labels: the pairs a key shows are the numbers
      in the headers of its own last response that had both of them and was passed on. */
  lemma {:induction false} QuotaFollowsHeaders(
      entries: seq<KeyEntry>, opts: Options, jobs: seq<Job>, i: nat, u: nat,
      p: Provider.Provider, status: int, header: Provider.Header, body: Provider.Bytes)
    requires DistinctLabels(NewKeys(entries)) && i < |entries|
    requires forall j :: 0 <= j < |jobs| ==> JobAlone(jobs[j])
    requires var uses := ServeAll(NewKeys(entries), opts, jobs).0;
      u < |uses| && uses[u].result == Provider.ResultOf(p, Provider.Response(status, header, body))
    ensures var (uses, final) := ServeAll(NewKeys(entries), opts, jobs);
      && |final| == |entries|
      && (LastDailyAnswer(uses, u, i) ==>
            && Provider.HeaderNumber(header, p.rateLimit.dailyLimitHeader) == Some(final[i].dailyLimit)
            && Provider.HeaderNumber(header, p.rateLimit.dailyRemainingHeader) == Some(final[i].dailyRemaining))
      && (LastMinuteAnswer(uses, u, i) ==>
            && Provider.HeaderNumber(header, p.rateLimit.minuteLimitHeader) == Some(final[i].minuteLimit)
            && Provider.HeaderNumber(header, p.rateLimit.minuteRemainingHeader) == Some(final[i].minuteRemaining))
  {
    ServeAllTells(NewKeys(entries), opts, jobs, i);
    var uses := ServeAll(NewKeys(entries), opts, jobs).0;
    LastAnswerTells(uses, u, i, QuotaOf(NewKeys(entries)[i]));
    assert uses[u].result.snapshot == Provider.ParseRateLimit(header, p.rateLimit);
  }

  lemma {:induction false} NothingTold(uses: seq<Use>, i: nat, q: Quota)
    ensures (forall w :: 0 <= w < |uses| ==> !TellsDaily(uses[w], i))
      ==> Told(uses, i, q).daily == q.daily
    ensures (forall w :: 0 <= w < |uses| ==> !TellsMinute(uses[w], i))
      ==> Told(uses, i, q).minute == q.minute
  {
    if uses != [] {
      NothingTold(uses[..|uses| - 1], i, q);
    }
  }

  /** A pair no response of the key has told is zero. */
  lemma {:induction false} QuotaIsZeroUntilTold(entries: seq<KeyEntry>, opts: Options, jobs: seq<Job>, i: nat)
    requires DistinctLabels(NewKeys(entries)) && i < |entries|
    requires forall j :: 0 <= j < |jobs| ==> JobAlone(jobs[j])
    ensures var (uses, final) := ServeAll(NewKeys(entries), opts, jobs);
      && |final| == |entries|
      && ((forall w :: 0 <= w < |uses| ==> !TellsDaily(uses[w], i))
          ==> final[i].dailyLimit == 0 && final[i].dailyRemaining == 0)
      && ((forall w :: 0 <= w < |uses| ==> !TellsMinute(uses[w], i))
          ==> final[i].minuteLimit == 0 && final[i].minuteRemaining == 0)
  {
    ServeAllTells(NewKeys(entries), opts, jobs, i);
    NothingTold(ServeAll(NewKeys(entries), opts, jobs).0, i, QuotaOf(NewKeys(entries)[i]));
  }
}
