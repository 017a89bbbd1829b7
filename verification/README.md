# A verified model of the API gateway

The gateway forwards requests of its clients to upstream platforms and puts one of several upstream
credentials ("keys") into each. The keys of a platform form a pool that is drained in configured order. A
key leaves service when its daily quota runs out, when the upstream answers 429, when it is refused (401,
403), or after too many server errors; it comes back by itself after a cooldown or on another UTC date. A
request that fails on one key is retried on the next, and the client is meant to see only the final result.

This project models that behaviour in Dafny and proves what it guarantees.

* `Keypool.dfy` is the pool as the program has it: shared key objects updated in place, one critical section
  per method. Each method is proved against a function on values in `KeyModel.dfy`.
* `KeyLaws.dfy`, `ReplyLaws.dfy` and `ConfigLaws.dfy` say in terms of fields, statuses and headers what each
  pool call, each raw reply and validation do.
* `PoolRuns.dfy`, `RetryAfter.dfy` and `Calendar.dfy` prove laws of those functions over every run of calls,
  that is, over every interleaving of any number of requests in flight.
* `Proxy.dfy` is the handler: routing, the retry loop on the pool object and the upstream, and the answer.
  `ProxyModel.dfy` is one request on values, for every sequence of upstream outcomes and every interference.
  `ClientView.dfy` says what the client sees, `SequentialUse.dfy` and `QuotaAnswers.dfy` what holds when
  requests do not overlap, `SharedLabels.dfy` what fails when keys share a label, `RetryOrder.dfy` in which
  order one request tries the keys, and `RetryPromise.dfy` and `RetryOverlap.dfy` when it never tries one
  twice. `QuotaExhaustion.dfy` says which replies exhaust a key. `Provider.dfy` is one upstream exchange.
* `Config.dfy` is the validator that rewrites a configuration in place, in any order of its maps, proved
  against `ConfigModel.dfy`. `Gateway.dfy` builds the runtime from a configuration and replaces both;
  `Reload.dfy` is about replacements that overlap.
* `Logstore.dfy` is the event log and its bounded read window, `Console.dfy` the console's search for a free
  key label, `Text.dfy` the string operations used.

Conventions. An instant is an integer number of nanoseconds since the zero value of a Go `time.Time`
(1 January of year 1, UTC), so 0 is the zero time. Every clock reading, every upstream reply, whether the
client has gone, and every call other requests make on the pool meanwhile are parameters, so each theorem
quantifies over them. Integers are unbounded. Map iteration is a nondeterministic choice.

## Where the code and its documentation differ

* `docs/superpowers/specs/2026-06-07-api-football-gateway-design.md:229-230` promises a different key on each
  retry and at most as many attempts as there are available keys. Three things break it. A server error below
  the error limit leaves its key in service, and the next attempt uses it again (the default limit is 3). A
  cooldown can end while the request is still being retried (`RetryPromise.SlowFailuresRepeat`). And when two
  keys share a label, reports about the second land on the first (`RetryPromise.SharedLabelRepeats`).
  `RetryPromise.DifferentKeyEachRetryIff` gives the exact condition for requests that have the pool to
  themselves and whose every later Acquire comes at most B after an earlier report: both halves hold for a
  configured pool if and only if its labels are distinct, the error limit is 1 and B is at most the shorter
  cooldown. The available keys are those available at some Acquire of the request; when no key comes due
  meanwhile, those are the keys available at its start (`RetryPromise.AvailableDuringSettled`), otherwise there
  can be more (`RetryPromise.KeyComesDue`). Under interference, and the same condition, a repeat takes another
  request's answer for that key in between (`RetryOverlap.RepeatNeedsAnAnswer`).
* The same document (line 220) has a reply that says the daily quota is used up mark its key exhausted and be
  retried on another key. No reply gets both: the quota headers count only in replies that are passed on to
  the client, and these are not retried. `QuotaExhaustion.AttemptExhaustsIff` says exactly which replies
  mark the key, `QuotaExhaustion.NeverExhaustedAndRetried` that the two never come together. The input:
  a 429 whose headers say that nothing is left makes its key rate limited only, and it is served again after
  that cooldown, on the same day if there is time (`QuotaExhaustion.UsedUp429IsServedAgain`).
* `MarkExhausted`, which would mark such a key, is called by no request. `PoolRuns.MarkExhaustedKeepsLimitIff`
  says when a call of it would break the error bound that all other calls keep.
* The same document (line 251) calls Retry-After the remaining cooldown. The code truncates to whole seconds,
  recovery is strictly after the cooldown, and an exhausted key counts 300 seconds whenever its day ends, so a
  client that waits exactly that long can be early. `RetryAfter.WaitingExactlyWorksIff` says exactly when it is
  not. One more second is always enough, unless the value was the fallback of 300:
  `RetryAfter.WaitOneMoreSecondSuffices`, `RetryAfter.OneMoreSecondWorksIff`.
* "Not used again today" holds for requests that do not overlap on a pool with distinct labels
  (`SequentialUse.SequentialExhaustion`), and for all of them only there (`SharedLabels.SequentialLawIff`). With
  overlap, late reports can bring an exhausted key back the same day; `PoolRuns.SameDayReuseIff` says exactly
  when, over every run of calls on that day.
* Labels identify keys in every report, but validation does not reject duplicates and its own default labels
  can create them: `ConfigModel.LabelsDistinctIff`, `ConfigModel.DefaultLabelCanClash`. A key whose label an
  earlier key carries is never taken out of service by its own replies. That breaks the promise of a different
  key and the law for requests that do not overlap, as said above, and the quota law: `PoolRuns.QuotaIsOwnIff`.
  Keys added in the console do not cause this: `Console.AddedKeyNeverClashes`.
* When two replacements of the configuration overlap, the file can end up with another configuration than the
  one that runs. `Reload.SavedIsActiveIff` proves that it can exactly when the last write failed or its
  replacement lies inside another one; `Reload.OverlapCanDisagree` is an example.

## Model

| member | source | states |
|---|---|---|
| Calendar.DaysBeforeStep | internal/keypool/keypool.go:172-175 | the closed form for the start of a year adds up the year lengths of the Gregorian leap rule, so year and year-day mean what the calendar means |
| Calendar.DateOfDayIsDate | internal/keypool/keypool.go:173-174 | the year and day of the year read off a day number are a date of that day: the day lies in the year, counted from the sum of all earlier years |
| Calendar.DateIsUnique | internal/keypool/keypool.go:173-174 | no day has two ordinal dates (section 4.1.3 of ISO 8601:2004) |
| Calendar.SameDateIsSameDay | internal/keypool/keypool.go:172-175 | for all instants, equal year and equal day of the year is the same as lying in the same 24-hour class |
| Calendar.DatesPartitionTime | internal/keypool/keypool.go:165-168 | instants a day apart never share a date, a shared date covers everything between, and the date changes at every midnight |
| Calendar.KnownDates | internal/keypool/keypool.go:172-175 | the units, the leap rule in 1900, 2000, 2023 and 2024, and the dates around 1 January 1970 |
| KeyModel.Select | internal/keypool/keypool.go:144-155 | the least index of an available key, or the number of keys when none is available |
| KeyModel.SelectIs | internal/keypool/keypool.go:148-154 | the selection is the only index with that property |
| KeyModel.FirstIndex | internal/keypool/keypool.go:178-185 | a label names the first key that carries it |
| KeyModel.ApplyKeepsEntries | internal/keypool/keypool.go:144-265 | no call adds, removes or reorders keys, or changes the label or credential of one |
| KeyModel.RunKeepsEntries | internal/keypool/keypool.go:144-265 | nor does any run of calls |
| KeyLaws.NewKeyIsBlank | internal/keypool/keypool.go:86-96 | every field of a new key |
| KeyLaws.OtherKeysAreUntouched | internal/keypool/keypool.go:178-265 | a call leaves a key alone that it does not name, or that an earlier key of the same label shadows |
| KeyLaws.AnswerLaw | internal/keypool/keypool.go:241-265 | an answer leaves its key in service when it tells no daily pair or more than the threshold is left, exhausted when it tells that no more is left; each other field |
| KeyLaws.RateLimitedLaw | internal/keypool/keypool.go:200-207 | what a 429 mark does to each field |
| KeyLaws.KeyInvalidLaw | internal/keypool/keypool.go:224-232 | what a refusal mark does to each field |
| KeyLaws.ErrorLaw | internal/keypool/keypool.go:210-221 | an error counts one, and takes the key out of service just when a positive limit is reached; each other field |
| KeyLaws.ExhaustedLaw | internal/keypool/keypool.go:188-197 | what MarkExhausted does to each field |
| KeyLaws.AcquireLaw | internal/keypool/keypool.go:144-175 | only the first key that can be served changes: it is in service, its errors forgotten just when it comes out of a cooldown |
| KeyLaws.ExhaustedMeansUsedUp | internal/keypool/keypool.go:165-265 | in every run of the handler's calls an exhausted key has had an own answer with both daily headers, and shows no more left than the threshold |
| Keypool.KeyState.constructor | internal/keypool/keypool.go:89-93 | a new key is Active with no history |
| Keypool.Pool.constructor | internal/keypool/keypool.go:86-96 | a new pool holds fresh key objects for the entries, in their order |
| Keypool.Pool.Acquire | internal/keypool/keypool.go:144-155 | returns the object at the least available index and fails exactly when none is; that key alone is refreshed, and every key after it is untouched |
| Keypool.Pool.Refresh | internal/keypool/keypool.go:158-170 | lazy recovery: strictly after the cooldown with the error count cleared, or on another UTC date |
| Keypool.Pool.Find | internal/keypool/keypool.go:178-185 | the first key with the label, null exactly when there is none |
| Keypool.Pool.MarkExhausted | internal/keypool/keypool.go:188-197 | the whole new state of the pool; an unknown label changes nothing |
| Keypool.Pool.MarkRateLimited | internal/keypool/keypool.go:200-207 | the whole new state of the pool; an unknown label changes nothing |
| Keypool.Pool.MarkError | internal/keypool/keypool.go:210-221 | the whole new state of the pool, with and without reaching the error limit |
| Keypool.Pool.MarkKeyInvalid | internal/keypool/keypool.go:224-232 | the whole new state of the pool; an unknown label changes nothing |
| Keypool.Pool.UpdateFromUpstream | internal/keypool/keypool.go:241-265 | the whole new state of the pool; true exactly when a known key reports a daily remainder at or below the threshold |
| Keypool.Pool.EarliestRecoverySeconds | internal/keypool/keypool.go:271-304 | 0 exactly when a key is Active, 300 for an empty pool, otherwise the least wait over all keys, attained by one of them |
| Keypool.Pool.OtherRequests | internal/keypool/keypool.go:79-80 | critical sections taken one after the other act on the pool as the run of calls does on values |
| PoolRuns.HealingRun | internal/keypool/keypool.go:144-265 | after every run, a key out of service has a set and bounded time at which it may come back |
| PoolRuns.SelfHealing | internal/keypool/keypool.go:158-170 | left alone after any run ending by T, every key is available from the next UTC day on, strictly after the longer cooldown |
| PoolRuns.SelfHealingWithinADay | internal/keypool/keypool.go:144-170 | so Acquire serves the first key of any non-empty pool from T + 24 h on, strictly after the longer cooldown |
| PoolRuns.SelfHealingBoundIsTight | internal/keypool/keypool.go:158-170 | neither 24 h nor either cooldown's strictly-after can be improved: runs for which Acquire fails up to each bound |
| PoolRuns.ExhaustedStaysOut | internal/keypool/keypool.go:165-168 | an exhausted key is out of service for the rest of the UTC day in every run in which no report names it |
| PoolRuns.SameDayReuseIff | internal/keypool/keypool.go:158-265 | over every run of calls on the day a key was exhausted: it can be served at t exactly when the last call that decided about it is an answer with quota to spare, or a mark whose cooldown is strictly over at t |
| PoolRuns.DecidedRun | internal/keypool/keypool.go:158-265 | the invariant behind it: in every such run the key is as that last decision left it, up to a recovery |
| PoolRuns.LateAnswerRevives | internal/proxy/handler.go:257-261 | two requests in flight on one key: the late answer brings the exhausted key back the same day |
| PoolRuns.LastResetIsLast | internal/keypool/keypool.go:161-164 | the position called last reset really is the last upstream answer or cooldown recovery of the key |
| PoolRuns.ErrorCountIsHistory | internal/keypool/keypool.go:210-258 | in every run a key's error count is the number of errors marked on it since its last answer or recovery |
| PoolRuns.ActiveKeysBelowLimit | internal/keypool/keypool.go:210-221 | in every run of the handler's calls a key that is Active or Exhausted has fewer errors than the limit |
| PoolRuns.MarkExhaustedKeepsLimitIff | internal/keypool/keypool.go:188-197 | MarkExhausted keeps that bound exactly when the key it names has errors left |
| PoolRuns.MarkExhaustedCanOverfill | internal/keypool/keypool.go:188-197 | a run with MarkExhausted after an error: next day the key is Active with its error budget spent |
| PoolRuns.QuotaIsLastWord | internal/keypool/keypool.go:241-256 | with no earlier key of the same label, in every run a key's daily and minute pairs are those of its own last answer that had both headers, zero if none; no other key's answer counts |
| PoolRuns.ShadowedKeyNeverChanges | internal/keypool/keypool.go:178-185 | no run ever changes a key whose label an earlier key carries |
| PoolRuns.QuotaIsOwnIff | internal/keypool/keypool.go:178-185 | the quota law holds for a key in every run exactly when no earlier key carries its label |
| RetryAfter.RetryAfterIsUnique | internal/keypool/keypool.go:271-304 | the characterisation admits one value only, never negative |
| RetryAfter.FallbackIs300 | internal/keypool/keypool.go:268-303 | 300 for a pool without keys and for one of exhausted keys only |
| RetryAfter.RetryAfterIgnoresOrder | internal/keypool/keypool.go:276-299 | the value does not depend on the order of the keys |
| RetryAfter.WaitOneMoreSecondSuffices | internal/keypool/keypool.go:285-289 | unless the value is 0 or the fallback, Acquire succeeds at every time one second past it (section 10.2.3 of RFC 9110) |
| RetryAfter.OneMoreSecondWorksIff | internal/keypool/keypool.go:285-303 | for the fallback value one more second works exactly when some key cools for 300 whole seconds or an exhausted one has a new date by then; for any other value always |
| RetryAfter.WaitingLessFails | internal/keypool/keypool.go:285-298 | when every key cools for at least a second more or stays exhausted, Acquire fails at every time up to the value, inclusive |
| RetryAfter.WaitingExactlyWorksIff | internal/keypool/keypool.go:161-285 | for every pool without an Active key: waiting exactly the value works if and only if some cooldown ends within the second, or some exhausted key has another UTC date by then |
| Provider.New | internal/provider/provider.go:60-88 | fails exactly for an unknown type, or a generic platform whose credential header is blank; which header, prefix and quota headers each type ends up with |
| Provider.StatusesAreClassified | internal/provider/provider.go:104-117 | each status has one outcome: 2xx, 429, 401 and 403, 500 and above, the rest |
| Provider.HeaderNumberIff | internal/provider/provider.go:153-165 | a header is a number exactly when it is named, present and a numeral |
| Provider.ParseRateLimit | internal/provider/provider.go:127-151 | a pair counts exactly when both of its headers are numbers, and then holds those numbers |
| Provider.PrintedQuotaIsRead | internal/provider/provider.go:127-160 | daily and minute quota headers printed in decimal are read back exactly, each number in its own field |
| Provider.CredentialIsIntact | internal/provider/provider.go:119-125 | a blank prefix leaves the bare credential, any other stands before it with one space; the credential is intact and recoverable |
| Provider.Wire.Do | internal/proxy/transport.go:55-92 | one exchange: what is sent, and how each kind of failure and each status is classified |
| Text.AtoiInvertsItoa | internal/provider/provider.go:153-160 | reading back a printed integer gives the integer |
| Text.AtoiAcceptsIff | internal/provider/provider.go:161-165 | just an optional sign followed by digits, at least one, is read as a number |
| Text.TrimSpaceLaw | internal/provider/provider.go:83 | trimming cuts white space off both ends and nothing else; nothing is left exactly of a blank text |
| Text.SpacesAre | internal/provider/provider.go:83 | the white space characters, by number |
| Text.TrimRightSlash | internal/proxy/transport.go:47 | what is cut off a base URL is exactly its trailing slashes |
| Text.KeyLabelInjective | internal/config/config.go:269 | two positions never get the same default label |
| ProxyModel.TurnOf | internal/proxy/handler.go:244-257 | one iteration: the key used is the one Acquire selects after what other requests did before, and an iteration without a key means none was available |
| ProxyModel.ReportLands | internal/proxy/handler.go:259-326 | whoever interferes, an attempt's report lands on the first key with the used key's label, leaves it as the outcome says, and touches no other; a cancelled server error reports nothing |
| ProxyModel.ReportIsApplied | internal/proxy/handler.go:259-326 | whoever interferes, after its Acquire an attempt changes one key only, by its report to the first key with the used label |
| ReplyLaws.ReplyLaw | internal/proxy/handler.go:257-326 | any raw reply, whoever interferes: 429, 401 and 403, a failure with and without the client, and any other answer each leave the first key with the used label as they should, field by field, and touch no other |
| ReplyLaws.UndisturbedReplyLaw | internal/proxy/handler.go:244-326 | the same for an undisturbed attempt and the key it used |
| ReplyLaws.TurnIsRun | internal/proxy/handler.go:244-326 | an attempt does to the pool exactly what its calls and those of others do, one after the other |
| ReplyLaws.RequestIsRun | internal/proxy/handler.go:242-342 | a whole request is a run of the handler's pool calls, so what holds of every run holds after every request |
| ReplyLaws.RequestKeepsTheLaws | internal/proxy/handler.go:242-342 | after any request on a pool with any past: a key in service has errors left, an exhausted one shows no more left than the threshold |
| ProxyModel.UsesAreTurns | internal/proxy/handler.go:242-342 | the trace of a request is the sequence of its iterations, each on the keys the one before left |
| ProxyModel.EndingFromUses | internal/proxy/handler.go:242-348 | every attempt but the last was retryable, and the last attempt, or running out of attempts or keys, decides how the loop ends |
| ProxyModel.DownstreamTransparency | internal/proxy/handler.go:242-348 | for every pool, upstream and interference: at most maxRetries attempts and one response, never an upstream 401, 403, 429 or 5xx, and silence exactly when the client had gone at a server error |
| ProxyModel.ServiceUnavailableIff | internal/proxy/handler.go:243-348 | 503 exactly when every attempt made was retryable, and then all attempts are spent or no key is available (section 15.6.4 of RFC 9110) |
| ProxyModel.RetryAfterPresent | internal/proxy/handler.go:344-391 | a 503 for want of a key carries Retry-After of at least 1 unless others interfered; it is missing exactly when a key was Active when the pool was asked |
| ProxyModel.ComingBackIsServed | internal/proxy/handler.go:243-348 | a client that comes back one second later than its 503 said, with nobody at the pool in between, has its request sent upstream, unless the value was the fallback |
| ProxyModel.UsesCarryTheirKeys | internal/proxy/handler.go:244-257 | whoever interferes, every use carries the label and credential configured at its index, and the request leaves the same entries |
| ClientView.ClientSees | internal/proxy/handler.go:242-376 | the same guarantees in terms of raw upstream replies, including that a forwarded status and body are those of the last reply |
| ClientView.UseIsExchange | internal/proxy/handler.go:257-322 | the n-th use carries the n-th reply, and is retried exactly for 401, 403, 429, a server error or no reply with the client still there |
| SequentialUse.TurnsRunAlone | internal/proxy/handler.go:244-342 | with distinct labels and nobody else around, an attempt uses the first available key, reports to that very key, and touches no other |
| SequentialUse.ServeAllExplains | internal/proxy/handler.go:243-341 | with distinct labels, in every run of requests that do not overlap, each use is of the first key available as the earlier uses left the keys, and leaves its key exactly as its outcome says |
| SequentialUse.SequentialExhaustion | internal/keypool/keypool.go:144-170 | with distinct labels and requests that do not overlap: between two successive uses of a key, its whole cooldown has strictly passed or the UTC date differs from the one on which it was exhausted |
| SharedLabels.SequentialLawIff | internal/keypool/keypool.go:178-265 | that law holds for every such run on a new pool if and only if no two keys share a label |
| SharedLabels.BurstRepeats | internal/keypool/keypool.go:178-207 | a new pool with a shared label: a burst of 429s tries the first shadowed key twice in a row, and leaves it in service |
| SharedLabels.ShadowedKeyRepeats | internal/keypool/keypool.go:178-207 | in any pool, a shadowed key in service with everything before it out of use is tried twice at one instant |
| SequentialUse.EarlierKeysAreSpent | internal/keypool/keypool.go:142-155 | with distinct labels the keys are drained in order: when a key is used, each key before it was used earlier and its last use left it out of service until now |
| RetryOrder.RetriesFollowConfiguredOrder | internal/proxy/handler.go:242-322 | one undisturbed request on a pool with distinct labels, during which nothing comes due: indices never decrease, strictly increase after 429, 401 and 403, stay exactly after a tolerated server error, and no key is tried more than maxErrorCount times |
| RetryOrder.AttemptsWithinBudget | internal/keypool/keypool.go:214-219 | whatever the error limit, such a request makes no more attempts than the available keys have errors left together |
| RetryPromise.RepeatIsLate | internal/keypool/keypool.go:158-232 | with distinct labels and an error limit of 1, an isolated request comes back to a key only strictly after the shorter cooldown has passed since it reported on it |
| RetryPromise.PromptNeverRepeats | docs/superpowers/specs/2026-06-07-api-football-gateway-design.md:230 | with distinct labels, an error limit of 1 and no cooldown shorter than the time between a report and a later Acquire, no key is tried twice, whatever becomes due meanwhile |
| RetryPromise.AttemptsAreCapped | docs/superpowers/specs/2026-06-07-api-football-gateway-design.md:229 | a request that repeats no key makes at most as many attempts as keys are available to it at some Acquire, in the state in which it found them |
| RetryPromise.AvailableDuringSettled | docs/superpowers/specs/2026-06-07-api-football-gateway-design.md:229 | when no key comes due meanwhile, those are the keys available when the request starts |
| RetryPromise.SomeFailureRepeats | internal/keypool/keypool.go:161-219 | with another error limit, or a cooldown that can end in time, every pool with distinct labels whose first key is fresh has a prompt request that tries it twice, whatever other keys there are |
| RetryPromise.AttemptTimeMakesPrompt | internal/proxy/handler.go:242-257 | when every attempt takes at most d and the next begins at once, a request with r retries is prompt with bound (r - 2) d |
| RetryPromise.DifferentKeyEachRetryIff | docs/superpowers/specs/2026-06-07-api-football-gateway-design.md:229-230 | for undisturbed requests whose every later Acquire comes at most B after an earlier report: no key repeats, over all states of a configured pool or only when it is new, and the attempts stay within the available keys, if and only if no two keys share a label, the error limit is 1 and B is at most the shorter cooldown |
| RetryPromise.SharedLabelRepeats | internal/keypool/keypool.go:178-207 | two keys with one label, error limit 1, three 429s at one instant: the indices tried are 0, 1, 1 |
| RetryPromise.SlowFailuresRepeat | internal/proxy/handler.go:243-322 | two keys, default cooldowns, three attempts failing after 31 s each, error limit 1: the third attempt uses the first key again |
| RetryPromise.KeyComesDue | internal/keypool/keypool.go:161-164 | a key that comes due while the request runs adds an attempt to those the keys available at its start allow |
| RetryOverlap.RepeatNeedsAnAnswer | internal/proxy/handler.go:243-322 | with distinct labels, an error limit of 1 and any interference: a prompt request tries a key twice only if another request reported an upstream answer for it in between |
| QuotaExhaustion.AttemptExhaustsIff | internal/proxy/handler.go:259-326 | an undisturbed attempt leaves its key exhausted exactly when its reply says the quota is used up and is passed on to the client, and then it is not retried |
| QuotaExhaustion.ReportExhaustsIff | internal/proxy/handler.go:259-326 | the same whoever interferes, for the key the report lands on |
| QuotaExhaustion.NeverExhaustedAndRetried | docs/superpowers/specs/2026-06-07-api-football-gateway-design.md:220 | a reply that says the quota is used up marks the key exactly when it is passed on and is retried only when it is not: no reply gets both |
| QuotaExhaustion.UsedUp429IsServedAgain | internal/proxy/handler.go:284-288 | a 429 that says so leaves its key rate limited, to be served again from the end of that cooldown on, whatever the day |
| QuotaExhaustion.UsedUp429SaysSo | internal/provider/provider.go:127-151 | a 429 with the built-in quota headers, in full, that says so |
| QuotaAnswers.QuotaFollowsHeaders | internal/proxy/handler.go:257-326 | over whole runs of requests that do not overlap: a key's pairs are the numbers in the headers of its own last response that had both and was passed on |
| QuotaAnswers.QuotaIsZeroUntilTold | internal/keypool/keypool.go:249-256 | a pair no response of the key has told is zero |
| Proxy.SplitPlatformRoundTrip | internal/proxy/handler.go:26-35 | every slash-free namespace is recovered from a path with the rest intact |
| Proxy.SplitPlatformLosesNothing | internal/proxy/handler.go:26-35 | for every path the parts put together are the path up to a missing slash, and the rest starts with a slash |
| Proxy.DefaultProvider | internal/proxy/handler.go:145-151 | the fallback provider is what the provider builder yields, so building it cannot fail |
| Proxy.WorkspacesArePlatforms | internal/proxy/handler.go:130-142 | a legacy workspace is the platform that leaves everything but its URL open |
| Proxy.RuntimesAreAsSaid | internal/proxy/handler.go:92-126 | a platform keeps all it says; what each gap is filled with |
| Proxy.SendsRepeatTheRequest | internal/proxy/handler.go:250-257 | every attempt sends the same URL and the identical body, with the credential of the key it uses |
| Proxy.ClientBodyIsSent | internal/proxy/handler.go:220-255 | the client's body goes out with every attempt byte for byte, and none when there was none |
| Proxy.CredentialsAreSentInOrder | internal/proxy/handler.go:250-257 | when every attempt goes out, attempt u sends the credential of the key it acquired, u by u |
| Proxy.Handler.constructor | internal/proxy/handler.go:85-107 | one runtime for each platform after defaults, and at least one attempt |
| Proxy.Handler.NormalizePlatforms | internal/proxy/handler.go:109-143 | defaults filled per platform, in any order; workspaces count only without platforms |
| Proxy.Handler.ReportTo | internal/proxy/handler.go:259-325 | exactly one report per outcome reaches the pool, none for a cancelled server error |
| Proxy.Handler.Try | internal/proxy/handler.go:244-342 | one attempt on the pool object and the wire, with other requests' calls between its own |
| Proxy.Handler.RetryLoop | internal/proxy/handler.go:242-342 | the loop on the real objects ends as the loop on values does, with the same requests sent and the same pool |
| Proxy.Handler.Answer | internal/proxy/handler.go:344-399 | one response for a finished loop, none for a client that had gone |
| Proxy.Handler.ServeHTTP | internal/proxy/handler.go:166-361 | refusals in their order without touching pool or upstream; otherwise one request as modelled, and no other pool changes |
| ConfigModel.ValidationIsIdempotent | internal/config/config.go:219-355 | validating the result of a successful validation succeeds and changes nothing |
| ConfigModel.NormalisedKeys | internal/config/config.go:290-315 | validation keeps every key and its order, gives each a label, and mirrors the default pool in the legacy list |
| ConfigModel.LabelsDistinctIff | internal/config/config.go:301-304 | a validated pool has distinct labels exactly when the given labels neither repeat nor collide with a default one |
| ConfigModel.DefaultLabelCanClash | internal/config/config.go:301-304 | a valid pool in which the default label duplicates a given one |
| ConfigLaws.AcceptableIff | internal/config/config.go:219-355 | what is accepted, in terms of the given fields: port, platforms, pools, names, secrets, types, base URLs, pool references and credential headers, in the legacy form too |
| ConfigLaws.GivenSettingsStay | internal/config/config.go:223-262 | every number above 0, threshold of at least 0 and non-empty text stays as given; else the documented default |
| ConfigLaws.GivenPlatformsStay | internal/config/config.go:277-353 | given platforms are never replaced and keep all they say; the defaults of pool and timeout |
| ConfigLaws.GivenPoolsStay | internal/config/config.go:272-314 | given pools are never replaced; keys keep order, secrets and given labels |
| ConfigLaws.WorkspacesStandIn | internal/config/config.go:277-287 | without given platforms each legacy workspace makes one on the default pool |
| ConfigLaws.KeysStandIn | internal/config/config.go:272-276 | without given pools the legacy keys make the default one |
| ConfigLaws.LegacyPartsFollow | internal/config/config.go:310-352 | the legacy list mirrors the default pool; workspaces keep base URLs and get missing timeouts from their platforms |
| Config.BlameMeansUnacceptable | internal/config/config.go:219-355 | an error validation reports is a real defect |
| Config.Config.Clone | internal/config/config.go:140-150 | an equal, separate copy |
| Config.Config.Validate | internal/config/config.go:219-264 | whatever the map order: accepts exactly the acceptable configurations and leaves their normal form; an error names a real defect |
| Config.Config.NormalizeLegacyConfig | internal/config/config.go:266-288 | legacy keys and workspaces become the default pool and platforms only where those are missing |
| Config.Config.ValidateCredentialPools | internal/config/config.go:290-315 | accepts exactly the good pools, in any order, labels them, and mirrors the default pool |
| Config.Config.ValidatePlatforms | internal/config/config.go:317-355 | accepts exactly the good platforms, in any order, and fills them and the workspaces of the same names |
| Config.File.Save | internal/config/config.go:124-137 | writes the validated form exactly when the configuration is acceptable and the write succeeds |
| Gateway.ValidatedAlwaysBuilds | internal/gateway/manager.go:953-968 | no platform of a validated configuration is refused by the builder |
| Gateway.ValidatedRuntimeIsComplete | internal/gateway/manager.go:927-980 | in the runtime of a validated configuration every platform has a non-empty pool with positive cooldowns and error limit |
| Gateway.PoolsAreSharedByName | internal/gateway/manager.go:933-975 | two platforms share one pool object exactly when they name the same credential pool; otherwise not one key object |
| Gateway.MisconfiguredIff | internal/proxy/handler.go:203-217 | in any built runtime, platform_misconfigured exactly for a platform whose pool is not configured |
| Gateway.ValidatedIsNeverMisconfigured | internal/proxy/handler.go:172-236 | a validated runtime refuses requests only as unknown, unauthorised or unreadable |
| Gateway.NamespacesAreRouted | internal/proxy/handler.go:171-218 | every accepted namespace reaches its own runtime, and the URL is its base without trailing slashes followed by the rest of the path |
| Gateway.PlatformsAreBuiltAsConfigured | internal/gateway/manager.go:948-975 | the credential goes out under the configured header behind the configured prefix, the quota is read from the configured headers; the built-in type's own header and names |
| Gateway.PoolsAreBuiltAsConfigured | internal/gateway/manager.go:927-940 | a platform's pool has the configured keys in order, and the configured threshold, cooldowns and error limit in nanoseconds |
| Gateway.BuildPools | internal/gateway/manager.go:927-940 | one new pool per configured one, unused, with its keys in order; no key object shared |
| Gateway.BuildProxy | internal/gateway/manager.go:926-980 | fails exactly when some provider is refused; otherwise the runtime is what the configuration asks for |
| Gateway.Manager.New | internal/gateway/manager.go:34-49 | a validated configuration always gives a manager whose configuration, handler and pools belong together |
| Gateway.Manager.ServeHTTP | internal/gateway/manager.go:51-56 | exactly the configured namespaces are routed, each served from its configured pool, and the manager stays consistent |
| Gateway.Manager.ServeAfterReplace | internal/gateway/manager.go:51-96 | a request that took its handler before a replacement and works after it is answered from the old pools, and leaves every new pool unused |
| Gateway.Manager.ServeBeforeReplace | internal/gateway/manager.go:51-96 | the same when its own steps come before the replacement |
| Gateway.Manager.Prepare | internal/gateway/manager.go:81-88 | copy, validate, build: refused exactly for an unacceptable configuration; the build after validation cannot fail |
| Gateway.Manager.Swap | internal/gateway/manager.go:92-96 | configuration, handler and pools change together and belong together |
| Gateway.Manager.ReplaceConfig | internal/gateway/manager.go:80-98 | succeeds exactly for an acceptable configuration that can be written; a failure changes none of the three; a success runs exactly what the file holds, on unused keys |
| Reload.WrittenIsLive | internal/config/config.go:124-128 | the second validation, in Save, never makes the file differ from what runs |
| Reload.LastToSaveIsNestedIff | internal/gateway/manager.go:89-96 | in every interleaving the last to save is not the last to swap exactly when its whole replacement lies inside the other's |
| Reload.SavedIsActiveIff | internal/gateway/manager.go:80-98 | once all replacements are done, file and runtime agree for every choice of configurations if and only if the last write succeeded and its replacement does not lie inside another |
| Reload.OneAtATimeSavedIsActiveIff | internal/gateway/manager.go:80-98 | replacements that do not overlap, failed writes included, leave file and runtime with one configuration exactly when the last attempted write succeeded, or left the running configuration by chance |
| Reload.OverlapCanDisagree | internal/gateway/manager.go:89-96 | two overlapping replacements after which a restart would load another configuration than the one that runs |
| Logstore.NewestAfterAppend | internal/logstore/logstore.go:85-144 | after a matching event, that event followed by the old answer cut to the limit; any other line is invisible |
| Logstore.NewestAreLogged | internal/logstore/logstore.go:153-164 | every event considered is a matching line of the log |
| Logstore.AnswerByAge | internal/logstore/logstore.go:104-164 | the answer event by event: one that agrees with what the query sets is found at the place given by how many such are newer, unless that reaches the limit (200 if none is set), and there are no others |
| Logstore.WindowKeepsLast | internal/logstore/logstore.go:130-133 | trimming the window never loses an event of the answer |
| Logstore.Store.Append | internal/logstore/logstore.go:85-101 | one line more, which every matching query shows first |
| Logstore.Store.Record | internal/logstore/logstore.go:71-82 | fills in time and level, and swallows a failed write |
| Logstore.WindowIsEnough | internal/logstore/logstore.go:130-133 | after every line the window holds at most three times the limit, and its last limit events are those of the whole log |
| Logstore.Store.Read | internal/logstore/logstore.go:104-144 | equals filter, take the last limit, reverse, and is read off that bounded window |
| Logstore.Store.Clear | internal/logstore/logstore.go:147-151 | an empty log answers every query with nothing |
| Console.TooManyTaken | internal/admin/static/app.js:1191-1192 | n labels cannot occupy more than n of the candidate labels |
| Console.NextKeyLabel | internal/admin/static/app.js:1188-1194 | for n keys, a label none of them has: key-m for the least free m above n, and m is at most 2n + 1; it keeps labels from clashing |
| Console.AddedKeyNeverClashes | internal/config/config.go:301-304 | a label chosen that way meets no given and no default label: validation leaves all labels distinct if they did not clash before |

## Left out

- HTTP itself: sockets, redirects, timeouts, contexts and header copying. One upstream exchange is an arbitrary
  reply; header names are taken to be in the form in which they are configured.
- YAML, JSON, environment overrides and the bytes of files. A clone is an equal value, a saved file holds a
  configuration or nothing readable, a log line is an event, blank or unparsable; the scanner's line limit,
  partial log writes and errors of the scanner are not modelled.
- Go's floating-point seconds and 64-bit overflow: durations are unbounded integers of nanoseconds and are
  truncated toward zero; `limit*3` does not overflow.
- Mutexes: every method of the pool is one atomic step, and calls of other requests happen between steps.
- Client authorisation is one boolean of the request; the string helpers behind it would add only small members.
- The masked key list in the body of a 503, the error message texts, logging and event recording in the
  handler: they do not influence which keys are used or what status is sent.
- The order in which platforms are sorted before building: it only decides which refused platform is named.
- Config.Config.Validate: which of several defects is reported depends on Go's map order and is left open.
- Gateway.Manager.ReplaceConfig: a failed write may leave anything in the file, so after that failure nothing is
  said about the file; a nil configuration is not modelled.
- Gateway.Manager.ServeAfterReplace: the replacement comes before or after all of the request's own steps, not
  between two of them; that the steps of both touch nothing in common is part of the contract.
- Gateway.Manager.New: it does not validate, as the program does not; the manager is consistent when the loader
  has validated.
- The second quota parser in internal/keypool/ratelimit.go, which no request reaches; the admin pages and their
  API, the dashboard overview, the API documentation tables, and the main program.
