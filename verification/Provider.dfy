/** What differs between upstream platforms: the credential header, the quota headers, and how a
    response is classified; and the single upstream exchange built on it. */
module Provider {
  import opened Wrappers
  import opened KeyModel
  import Text

  type Bytes = seq<bv8>
  type Header = map<string, string>

  datatype Outcome = Success | RateLimited | KeyInvalid | ServerError | ClientError

  datatype RateLimitConfig = RateLimitConfig(
    dailyLimitHeader: string, dailyRemainingHeader: string, minuteLimitHeader: string, minuteRemainingHeader: string)

  datatype Provider = Provider(typ: string, header: string, prefix: string, rateLimit: RateLimitConfig)

  const API_SPORTS := "api_sports"
  const GENERIC_HTTP := "generic_http"

  const API_SPORTS_RATE_LIMIT := RateLimitConfig(
    "x-ratelimit-requests-limit", "x-ratelimit-requests-remaining", "X-RateLimit-Limit", "X-RateLimit-Remaining")

  /** Fails exactly for an unknown type and for a generic platform without a credential header. */
  function New(typ: string, header: string, prefix: string, rateLimit: RateLimitConfig): (r: Result<Provider>)
    ensures r.Ok? <==> typ == API_SPORTS || (typ == GENERIC_HTTP && Text.TrimSpace(header) != "")
    ensures r.Ok? ==> r.value.typ == typ && r.value.header != ""
    ensures r.Ok? && typ == API_SPORTS ==>
      r.value.header == "x-apisports-key" && r.value.prefix == "" && r.value.rateLimit == API_SPORTS_RATE_LIMIT
    ensures r.Ok? && typ == GENERIC_HTTP ==>
      r.value.header == Text.TrimSpace(header) && r.value.prefix == prefix && r.value.rateLimit == rateLimit
  {
    if typ == API_SPORTS then NewHeaderProvider(API_SPORTS, "x-apisports-key", "", API_SPORTS_RATE_LIMIT)
    else if typ == GENERIC_HTTP then NewHeaderProvider(GENERIC_HTTP, header, prefix, rateLimit)
    else Err("unknown provider type")
  }

  function NewHeaderProvider(
      typ: string, header: string, prefix: string, rateLimit: RateLimitConfig): Result<Provider> {
    var name := Text.TrimSpace(header);
    if name == "" then Err("provider requires auth.header") else Ok(Provider(typ, name, prefix, rateLimit))
  }

  function ClassifyStatus(status: int): Outcome {
    if 200 <= status < 300 then Success
    else if status == 429 then Outcome.RateLimited
    else if status == 401 || status == 403 then KeyInvalid
    else if status >= 500 then ServerError
    else ClientError
  }

  /** Each status has one outcome: the two hundreds, 429, the two refusals, 500 and above, and the rest. */
  lemma StatusesAreClassified(status: int)
    ensures ClassifyStatus(status).Success? <==> status / 100 == 2
    ensures ClassifyStatus(status).RateLimited? <==> status == 429
    ensures ClassifyStatus(status).KeyInvalid? <==> status in {401, 403}
    ensures ClassifyStatus(status).ServerError? <==> status >= 500
    ensures ClassifyStatus(status).ClientError? <==> status / 100 != 2 && status !in {401, 403, 429} && status < 500
  {
  }

  function WithPrefix(prefix: string, credential: string): string {
    var p := Text.TrimSpace(prefix);
    if p == "" then credential else p + " " + credential
  }

  /** A blank prefix leaves the bare credential; any other one comes first, without outer white space and with
      one space after it. Either way the credential is intact, and no two credentials give the same value. */
  lemma CredentialIsIntact(prefix: string, credential: string, other: string)
    ensures var value := WithPrefix(prefix, credential);
      && |credential| <= |value| && value[|value| - |credential|..] == credential
      && (value == credential <==> Text.TrimSpace(prefix) == "")
      && (value != credential ==>
            |value| == |Text.TrimSpace(prefix)| + 1 + |credential| && Text.TrimSpace(prefix) + " " <= value)
    ensures WithPrefix(prefix, credential) == WithPrefix(prefix, other) ==> credential == other
  {
    var before := |WithPrefix(prefix, credential)| - |credential|;
    assert WithPrefix(prefix, credential)[before..] == credential;
    assert |WithPrefix(prefix, other)| == before + |other| && WithPrefix(prefix, other)[before..] == other;
  }

  function HeaderNumber(h: Header, name: string): Option<int> {
    var trimmed := Text.TrimSpace(name);
    if trimmed == "" || trimmed !in h then None else Text.Atoi(h[trimmed])
  }

  /** The quota pairs of a response: a pair counts only when both of its headers are numbers. */
  function ParseRateLimit(h: Header, cfg: RateLimitConfig): (snap: Snapshot)
    ensures snap.hasDaily <==>
      HeaderNumber(h, cfg.dailyLimitHeader).Some? && HeaderNumber(h, cfg.dailyRemainingHeader).Some?
    ensures snap.hasMinute <==>
      HeaderNumber(h, cfg.minuteLimitHeader).Some? && HeaderNumber(h, cfg.minuteRemainingHeader).Some?
    ensures snap.hasDaily ==>
      && HeaderNumber(h, cfg.dailyLimitHeader) == Some(snap.dailyLimit)
      && HeaderNumber(h, cfg.dailyRemainingHeader) == Some(snap.dailyRemaining)
    ensures snap.hasMinute ==>
      && HeaderNumber(h, cfg.minuteLimitHeader) == Some(snap.minuteLimit)
      && HeaderNumber(h, cfg.minuteRemainingHeader) == Some(snap.minuteRemaining)
  {
    var dl, dr := HeaderNumber(h, cfg.dailyLimitHeader), HeaderNumber(h, cfg.dailyRemainingHeader);
    var ml, mr := HeaderNumber(h, cfg.minuteLimitHeader), HeaderNumber(h, cfg.minuteRemainingHeader);
    Snapshot(OrZero(dl), OrZero(dr), OrZero(ml), OrZero(mr), dl.Some? && dr.Some?, ml.Some? && mr.Some?)
  }

  function OrZero(n: Option<int>): int {
    match n
    case None => 0
    case Some(v) => v
  }

  /** A header counts as a number exactly when it is named, present and a numeral, and then is that number. */
  lemma HeaderNumberIff(h: Header, name: string)
    ensures var trimmed := Text.TrimSpace(name);
      && (HeaderNumber(h, name).Some? <==> !Text.Blank(name) && trimmed in h && Text.IsNumeral(h[trimmed]))
      && (HeaderNumber(h, name).Some? ==> HeaderNumber(h, name) == Text.Atoi(h[trimmed]))
  {
    Text.TrimSpaceLaw(name);
    if Text.TrimSpace(name) in h {
      Text.AtoiAcceptsIff(h[Text.TrimSpace(name)]);
    }
  }

  /** The response has this header, holding this number in decimal. */
  predicate Prints(h: Header, name: string, n: int) {
    var trimmed := Text.TrimSpace(name);
    trimmed != "" && trimmed in h && h[trimmed] == Text.Itoa(n)
  }

  lemma PrintedNumberIsRead(h: Header, name: string, n: int)
    requires Prints(h, name, n)
    ensures HeaderNumber(h, name) == Some(n)
  {
    Text.AtoiInvertsItoa(n);
  }

  /** An upstream that prints a pair of its quota in decimal is read back exactly. */
  lemma PrintedQuotaIsRead(h: Header, cfg: RateLimitConfig, limit: int, remaining: int)
    ensures Prints(h, cfg.dailyLimitHeader, limit) && Prints(h, cfg.dailyRemainingHeader, remaining) ==>
      var snap := ParseRateLimit(h, cfg);
      snap.hasDaily && snap.dailyLimit == limit && snap.dailyRemaining == remaining
    ensures Prints(h, cfg.minuteLimitHeader, limit) && Prints(h, cfg.minuteRemainingHeader, remaining) ==>
      var snap := ParseRateLimit(h, cfg);
      snap.hasMinute && snap.minuteLimit == limit && snap.minuteRemaining == remaining
  {
    if Prints(h, cfg.dailyLimitHeader, limit) && Prints(h, cfg.dailyRemainingHeader, remaining) {
      PrintedNumberIsRead(h, cfg.dailyLimitHeader, limit);
      PrintedNumberIsRead(h, cfg.dailyRemainingHeader, remaining);
    }
    if Prints(h, cfg.minuteLimitHeader, limit) && Prints(h, cfg.minuteRemainingHeader, remaining) {
      PrintedNumberIsRead(h, cfg.minuteLimitHeader, limit);
      PrintedNumberIsRead(h, cfg.minuteRemainingHeader, remaining);
    }
  }

  // ---------------------------------------------------------------- one upstream exchange

  /** What the network makes of one attempt. */
  datatype Reply =
    | NotSent(reason: string)       // the URL could not be parsed
    | NetworkError(reason: string)  // sent, but no complete response came back
    | Response(status: int, header: Header, body: Bytes)

  datatype UpstreamResult = UpstreamResult(
    kind: Outcome, status: int, body: Bytes, snapshot: Snapshot, err: Option<string>)

  const NO_SNAPSHOT := Snapshot(0, 0, 0, 0, false, false)

  function ResultOf(p: Provider, reply: Reply): UpstreamResult {
    match reply
    case NotSent(reason) => UpstreamResult(ServerError, 0, [], NO_SNAPSHOT, Some(reason))
    case NetworkError(reason) => UpstreamResult(ServerError, 0, [], NO_SNAPSHOT, Some(reason))
    case Response(status, header, body) =>
      UpstreamResult(ClassifyStatus(status), status, body, ParseRateLimit(header, p.rateLimit), None)
  }

  /** What any exchange can yield: a failure counts as a server error, and a complete response is
      classified by its status. */
  predicate Genuine(res: UpstreamResult) {
    if res.err.Some? then res.kind == ServerError else res.kind == ClassifyStatus(res.status)
  }

  lemma ResultsAreGenuine(p: Provider, reply: Reply)
    ensures Genuine(ResultOf(p, reply))
  {
  }

  datatype Transport = Transport(baseURL: string, provider: Provider)

  function NewTransport(baseURL: string, provider: Provider): Transport {
    Transport(Text.TrimRightSlash(baseURL), provider)
  }

  /** One request as it leaves for the upstream. */
  datatype Sent = Sent(url: string, header: string, credential: string, body: Option<Bytes>)

  function RequestFor(t: Transport, path: string, query: string, body: Option<Bytes>, key: string): Sent {
    var url := t.baseURL + path;
    Sent(if query == "" then url else url + "?" + query, t.provider.header, WithPrefix(t.provider.prefix, key), body)
  }

  /** The URL is the base followed by the path, and by the query if there is one. */
  lemma RequestShape(t: Transport, path: string, query: string, body: Option<Bytes>, key: string)
    ensures var sent := RequestFor(t, path, query, body, key);
      && sent.url == t.baseURL + path + (if query == "" then "" else "?" + query)
      && sent.header == t.provider.header && sent.credential == WithPrefix(t.provider.prefix, key) && sent.body == body
  {
    hide WithPrefix;
    var url := t.baseURL + path;
    assert url + "?" + query == url + ("?" + query) && url + "" == url;
  }

  /** Everything sent upstream so far. */
  class Wire {
    var sent: seq<Sent>

    constructor ()
      ensures sent == []
    {
      sent := [];
    }

    method Do(t: Transport, path: string, query: string, body: Option<Bytes>, key: string, reply: Reply)
      returns (res: UpstreamResult)
      modifies this
      ensures res == ResultOf(t.provider, reply)
      ensures sent == if reply.NotSent? then old(sent) else old(sent) + [RequestFor(t, path, query, body, key)]
    {
      var url := t.baseURL + path;
      if query != "" {
        url := url + "?" + query;
      }
      match reply {
        case NotSent(reason) =>
          return UpstreamResult(ServerError, 0, [], NO_SNAPSHOT, Some(reason));
        case NetworkError(reason) =>
          sent := sent + [Sent(url, t.provider.header, WithPrefix(t.provider.prefix, key), body)];
          return UpstreamResult(ServerError, 0, [], NO_SNAPSHOT, Some(reason));
        case Response(status, header, content) =>
          sent := sent + [Sent(url, t.provider.header, WithPrefix(t.provider.prefix, key), body)];
          var snap := ParseRateLimit(header, t.provider.rateLimit);
          return UpstreamResult(ClassifyStatus(status), status, content, snap, None);
      }
    }
  }
}
