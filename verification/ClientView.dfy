/** What a client of the gateway can see of one request, in terms of the raw upstream replies. */
module ClientView {
  import opened Calendar
  import opened KeyModel
  import opened ProxyModel
  import opened Proxy
  import Provider

  /** An upstream status the gateway keeps to itself. */
  predicate Hidden(status: int) {
    status == 401 || status == 403 || status == 429 || status >= 500
  }

  /** There was no complete answer, or one that blames the upstream. */
  predicate ServerTrouble(reply: Provider.Reply) {
    !reply.Response? || reply.status >= 500
  }

  /** The attempt is written off, and another key may be tried. */
  predicate WrittenOff(x: Exchange) {
    if ServerTrouble(x.reply) then !x.cancelled else Hidden(x.reply.status)
  }

  /** The client had gone when the upstream failed. */
  predicate Gone(x: Exchange) {
    ServerTrouble(x.reply) && x.cancelled
  }

  lemma AttemptIsRetriedIff(p: Provider.Provider, x: Exchange)
    ensures var a := AttemptOf(p, x);
      && (Retryable(a.result, a.cancelled) <==> WrittenOff(x))
      && (a.cancelled && a.result.kind.ServerError? <==> Gone(x))
  {
  }

  lemma {:induction false} UseIsExchange(
      p: Provider.Provider, keys: seq<Key>, opts: Options, env: nat -> Exchange, maxRetries: nat, u: nat)
    requires u < |Serve(keys, opts, Attempts(p, env), maxRetries).uses|
    ensures var use := Serve(keys, opts, Attempts(p, env), maxRetries).uses[u];
      use.result == Provider.ResultOf(p, env(u).reply) && (Retried(use) <==> WrittenOff(env(u)))
  {
    UseFollowsAttempt(TurnsOf(opts, Attempts(p, env)), keys, opts, Attempts(p, env), maxRetries, u);
    AttemptIsRetriedIff(p, env(u));
  }

  lemma ErrorsAre503(s: Summary, opts: Options, closing: seq<Event>, readAt: Instant, responses: seq<Downstream>)
    requires Leads(s, opts, closing, readAt, responses)
    ensures forall r :: r in responses && r.GatewayError? ==> r.status == 503 && r.code == "all_keys_unavailable"
  {
  }

  /** For every pool, every sequence of upstream replies and every interference by other requests: the
      client gets at most one response, after at most maxRetries attempts. It gets 503 exactly when every
      attempt made was written off, and then all attempts were spent or no key was available. Otherwise
      it gets the status and body of the last reply, which is neither 401, 403, 429 nor a server error. It
      gets nothing exactly when it had gone. */
  lemma {:induction false} ClientSees(
      p: Provider.Provider, keys: seq<Key>, opts: Options, env: nat -> Exchange, maxRetries: nat,
      closing: seq<Event>, readAt: Instant, responses: seq<Downstream>)
    requires Leads(Serve(keys, opts, Attempts(p, env), maxRetries), opts, closing, readAt, responses)
    ensures var s := Serve(keys, opts, Attempts(p, env), maxRetries);
      var m := |s.uses|;
      var allWrittenOff := forall u :: 0 <= u < m ==> WrittenOff(env(u));
      && m <= maxRetries && |responses| <= 1
      && (responses == [] <==> m > 0 && Gone(env(m - 1)))
      && ((exists r :: r in responses && r.status == 503) <==> allWrittenOff)
      && (forall r :: r in responses && r.GatewayError? ==> r.status == 503 && r.code == "all_keys_unavailable")
      && (allWrittenOff ==> m == maxRetries || Select(s.keys, env(m).acquireAt) == |s.keys|)
      && (forall r :: r in responses && r.Forwarded? ==>
            && m > 0 && env(m - 1).reply.Response?
            && r == Forwarded(env(m - 1).reply.status, env(m - 1).reply.body) && !Hidden(r.status))
  {
    hide Leads;
    ErrorsAre503(Serve(keys, opts, Attempts(p, env), maxRetries), opts, closing, readAt, responses);
    AttemptsAreGenuine(p, env);
    DownstreamTransparency(keys, opts, Attempts(p, env), maxRetries, closing, readAt, responses);
    ServiceUnavailableIff(keys, opts, Attempts(p, env), maxRetries, closing, readAt, responses);
    var m := |Serve(keys, opts, Attempts(p, env), maxRetries).uses|;
    forall u | 0 <= u < m
      ensures Retried(Serve(keys, opts, Attempts(p, env), maxRetries).uses[u]) <==> WrittenOff(env(u))
    {
      UseIsExchange(p, keys, opts, env, maxRetries, u);
    }
    if m > 0 {
      AttemptIsRetriedIff(p, env(m - 1));
    }
  }
}
