# Proofs about the request-serving engine

This project models the engine behind an LLM gateway in Dafny and proves properties of it.
The engine (`internal/proxy`, `internal/router` and the small tables they use) takes a chat
request, picks an account of a route's pool, calls the account's vendor, and fails over to
other accounts and routes. It keeps OAuth credentials fresh, holds back a stream until its
first token, and translates between the chat protocol and the vendors' protocols.

Each part is written twice. Functions say what a step does to a state, given what the
environment answers (writes that fail, vendors, clocks, orders of arrival); the main results
are lemmas about these functions, for all inputs and whole runs. Classes with the fields and
loops of the program do the same work in place, and each of their methods is proved equal to
its function, so the lemmas hold of them.

| part | files |
|---|---|
| credential rotation, under a lock, with failing writes | `OAuthRefresh`, `OAuthTokens`, `OAuthConcurrency`, `OAuthEngine` |
| seat selection and cooldowns | `Router`, `Cooldown`, `RandSource`, `Candidates`, `Selector`, `SeatLaws` |
| peek-then-commit on streams, and replay | `Ttft`, `TtftVerdicts` |
| failover, sticky sessions, races, fallback routes | `AccountModel`, `Affinity`, `Dispatch`, `DispatchLaws`, `Race`, `Routing`, `Repeats`, `DispatchEngine` |
| the Anthropic bridge | `BridgeTools`, `AnthropicBridge`, `AnthropicClient`, `AnthropicLaws`, `AnthropicParser` |
| the Codex bridge | `CodexBridge`, `CodexClient`, `CodexLaws`, `CodexParser` |
| chat histories and tool calls on their way to a vendor | `ChatBridge` |
| caches in front of the store, and the rate limiter | `TtlCache`, `Store`, `StoreEngine`, `RateLimit` |
| shared helpers | `Wrappers`, `Text`, `Json`, `Arith` |

`dafny verify dfyconfig.toml` checks everything.

## Conventions

- Accounts, routes and projects are named by numbers or strings; 0 is the nil UUID. Instants
  and durations are integers in nanoseconds; percentages and scores are real numbers.
- A JSON library is a parameter (`Codec`, `Parser`); what a proof assumes of it is a
  precondition (`ParsesObjects`, `Prints`, and `InputsPrintBack` of the inputs in question).
- Many loops are stated for any way of choosing, trying or inspecting (function-valued
  parameters); the program's own way is one instance.
- Go's maps of hosted tools are shared by reference between two tables. The only write
  through the shared map is followed by a merge that writes the same entry, so values give
  the same result.

## Findings

Some properties hold only under a condition. The model keeps the code as it is and proves
the exact condition.

- Whether a stream is committed to or retried can depend on how its bytes are cut into reads:
  the buffer limit is checked before the buffer is inspected. It does so exactly when a
  failure shows only in the last 8191 bytes before the limit and the stream goes on
  (`Ttft.ChunkingIrrelevantExactly`); an error behind a long comment is such a stream
  (`Ttft.LateErrorDependsOnChunking`).
- Settling a race cancels every racer, the winner too, so what the winner had not read can
  be cut off. The client gets a beginning of the winner's stream, and the whole of it only
  when the cut comes after its end (`Race.RaceWinnerIsOneSeat`, `Race.WinnerLosesItsStream`).
- Nobody notices when the store rejects the cooldown of a seat that soft-failed, so a fallback
  that shares the seat calls it again (`Repeats.RejectedCooldownCallsAgain`). A seat that was
  called is called again by a fallback that ends exhausted exactly when no call to it so far
  got a reply and a stored cooldown (`Repeats.CalledAgainExactly`).
- While streaming, the Anthropic parser does not close a tool call's block behind the chunk
  it writes, so a later block with the same index would start with the old input text
  (`AnthropicBridge.StreamedStopKeepsInput`). Two calls of one index mean the same as without
  a client exactly when the old text makes no difference to the second call's arguments
  (`AnthropicBridge.SecondCallMeansTheSameExactly`, `AnthropicBridge.SecondCallLosesInput`).
  Streams with distinct indexes are not affected.
- A streamed web search without an id loses its query; the whole-message parser keeps it
  (`AnthropicBridge.OneSearchMeansTheSameExactly`). A streamed query of another tool goes to
  an earlier search of the same id (`AnthropicBridge.ServerToolMeansTheSameExactly`).
- A Codex item's own id is not sent back (`ChatBridge.ItemsUnchangedExactly`).
- If the second of two callers fails to read the secret, it sends a refresh token that was
  already spent (`OAuthRefresh.FailedReadResendsSpentToken`, `OAuthRefresh.SendsNewestToken`).
- If reading a revoked hash fails midway, the keys after it are revoked in the database but
  stay in the cache and authenticate as long as their entries live
  (`Store.RevokeByNameKillsExactly`, `Store.RevokedStillAuthenticatesExactly`,
  `Store.RevokedKeyAuthenticates`).
- Steward can pick a seat that is beaten on quota and on reset time. Of two seats it does so
  exactly when no weight sees the lead: a lead in quota needs a weight and some quota left; a
  lead in reset time needs a weight, and the later reset more than 45 minutes away or unknown
  (`Router.StewardPicksBeatenExactly`). It happens with zero weights
  (`Router.ZeroWeightsPickBeatenSeat`) and with the default ones
  (`Router.DefaultWeightsPickBeatenSeat`).
- Exponential backoff leaves its range above level 33, except at eight levels where the
  wrapped product happens to be positive (`Cooldown.BackoffInRangeExactly`).
- A client that waits as a Retry-After header says can find no account yet: when the wait is
  an hour or more, because the seconds are capped; when it is a whole number of seconds,
  because an account is not listed at the very instant its cooldown ends; and when it exceeds
  a whole number of seconds by less than a millisecond, because that is rounded away. These
  are all the cases (`Routing.RetryAfterCoversExactly`, `Routing.WaitFreesAnAccountExactly`,
  `Routing.WaitsFallShort`).
- The attempts of a result can be fewer than the calls made. A conclusive fallback counts its
  own calls and those of the last route before it that has a result; an inconclusive request
  counts the last route that has a result. The number is right exactly when no other route
  made a call (`Routing.RequestAttemptsExactly`, `Repeats.TwoCallsOneAttempt`).

## Model

| member | source | states |
|---|---|---|
| OAuthRefresh.PersistKeepsToken | internal/proxy/oauth_refresh.go:64-90 | after a Put with retries the newest credential is durable with nothing pending, or pending, whatever the attempts do |
| OAuthTokens.PersistExactly | internal/proxy/oauth_refresh.go:64-116 | a credential stays in memory if and only if none of at most three attempts to write succeeds, and is in the store if and only if one of them takes effect |
| OAuthRefresh.RefreshKeepsToken | internal/proxy/oauth_refresh.go:120-186 | one call, from any state that keeps the newest token, ends in such a state |
| OAuthTokens.RefreshExactly | internal/proxy/oauth_refresh.go:142-186 | a call with nothing pending returns a credential that replaced the caller's, or fails for want of a token, or asks; what the vendor issues is returned, and kept durable or pending, with the vendor's tokens, the token sent for want of a new one, and the first account id there is |
| OAuthTokens.PendingIsReturned | internal/proxy/oauth_refresh.go:127-140 | a call that finds a usable credential pending writes it again and returns it without a request |
| OAuthTokens.RefreshReturnsNewest | internal/proxy/oauth_refresh.go:120-186 | a credential that a call returns is the newest one, whatever way the call took |
| OAuthRefresh.NoTokenLost | internal/proxy/oauth_refresh.go:64-186 | over all sequences of calls and all failures of writes and vendor, the newest issued credential is pending, or nothing is pending and the store holds it |
| OAuthTokens.IssuedAsGranted | internal/proxy/oauth_refresh.go:142-186 | over all runs the account's credentials are exactly the vendor's grants, in order, with the tokens of each grant, and each request sent the stored refresh token or, for want of it, the caller's |
| OAuthRefresh.NeverAsksWhilePending | internal/proxy/oauth_refresh.go:127-142 | over all runs no request to the vendor is made while a credential is pending |
| OAuthRefresh.AsksAreCurrent | internal/proxy/oauth_refresh.go:142-160 | when reads succeed, each request is made for a holder of the current credential and sends that credential's refresh token |
| OAuthRefresh.SingleFlight | internal/proxy/oauth_refresh.go:30-42 | when reads succeed and access tokens are never reissued, at most the last request made with one access token can have succeeded, also when the Put failed |
| OAuthRefresh.OlderCredentialCausesNoRequest | internal/proxy/oauth_refresh.go:92-100 | a request is only ever made with the access token of the generation current at that moment |
| OAuthTokens.SpentTokenNeverSentAgain | internal/proxy/oauth_refresh.go:142-186 | when reads succeed and the vendor's new refresh tokens are fresh, a refresh token whose grant brought a new one is never sent again |
| OAuthRefresh.SendsNewestToken | internal/proxy/oauth_refresh.go:142-150 | a request sends the newest refresh token if and only if the read succeeded or the caller held that token |
| OAuthRefresh.FailedReadResendsSpentToken | internal/proxy/oauth_refresh.go:142-150 | a concrete run in which a failed read makes a spent token be sent again |
| OAuthConcurrency.StepKeepsInvariant | internal/proxy/oauth_refresh.go:118-186 | every step of any interleaving of callers keeps the invariant tying the account to the finished calls and the lock holder's progress |
| OAuthConcurrency.RunsAreSequential | internal/proxy/oauth_refresh.go:118-126 | linearizability: the finished calls, in lock order, explain every result and the account whenever the lock is free |
| OAuthConcurrency.RunsLoseNoToken | internal/proxy/oauth_refresh.go:64-90 | in every interleaving, at every step, the newest credential is pending, durable, or in the lock holder's hands |
| OAuthConcurrency.RunsAskOnlyWithoutPending | internal/proxy/oauth_refresh.go:127-142 | in every interleaving the holder asks the vendor only when nothing is pending |
| OAuthConcurrency.RunsAskForCurrent | internal/proxy/oauth_refresh.go:142-160 | at every step of every interleaving in which reads succeed, each request so far was made for the current credential and sent its refresh token |
| OAuthConcurrency.RunsAreSingleFlight | internal/proxy/oauth_refresh.go:30-42 | single flight at every step of every interleaving of concurrent callers, also while the lock is held |
| OAuthConcurrency.RunsIgnoreOlderCredentials | internal/proxy/oauth_refresh.go:92-100 | at every step, a request made with a credential's access token was made while that credential was current |
| OAuthConcurrency.RunsNeverResendSpentToken | internal/proxy/oauth_refresh.go:142-186 | at every step of every interleaving, the same of the requests so far |
| OAuthConcurrency.RunsIssueAsGranted | internal/proxy/oauth_refresh.go:142-186 | at every step of every interleaving the account's credentials are exactly the vendor's grants with their tokens |
| OAuthConcurrency.RunsReturnNewest | internal/proxy/oauth_refresh.go:118-186 | every finished call that succeeded returned the newest credential |
| OAuthConcurrency.HolderAlwaysProgresses | internal/proxy/oauth_refresh.go:118-186 | every step of the holder brings it closer to leaving, so the lock is always given back |
| OAuthConcurrency.LockIsPassedOn | internal/proxy/oauth_refresh.go:118-126 | callers arrive, take a free lock and give it back at any time they may, and nothing else changes by it |
| OAuthConcurrency.StepsGoOn | internal/proxy/oauth_refresh.go:102-186 | while the lock is held there is a step for every answer of the environment, with the effect its name says |
| OAuthEngine.RefreshGates.Lock | internal/proxy/oauth_refresh.go:26-62 | one lock per account id, stable, and never shared by two ids |
| OAuthEngine.SecretStore.Put | internal/proxy/oauth_refresh.go:102-116 | an attempt writes its path or nothing; a failed one may have written |
| OAuthEngine.Engine.StorePendingCred | internal/proxy/oauth_refresh.go:64-72 | the pending map gains exactly this entry |
| OAuthEngine.Engine.ClearPendingCred | internal/proxy/oauth_refresh.go:84-90 | the pending map loses exactly this entry |
| OAuthEngine.Engine.PutCredentialWithRetry | internal/proxy/oauth_refresh.go:102-116 | the retry loop makes at most three attempts and stops as the pure model says; other paths are untouched |
| OAuthEngine.Engine.PutOrKeep | internal/proxy/oauth_refresh.go:127-141 | a credential is written, or kept in memory exactly when the write fails |
| OAuthEngine.Engine.RereadAndRotate | internal/proxy/oauth_refresh.go:142-186 | re-reading, asking and persisting do what `Rotate` says to this account and nothing to others |
| OAuthEngine.Engine.RefreshOAuthCredential | internal/proxy/oauth_refresh.go:118-186 | a whole call does what `Refresh` says to its account and nothing to any other |
| OAuthEngine.SweepKeepsToken | internal/proxy/oauth_refresh.go:192-229 | the proactive sweep loses no token and does not touch a credential that is not due |
| OAuthEngine.SweepsExactly | internal/proxy/oauth_refresh.go:192-229 | the sweep refreshes exactly the OAuth accounts with a readable credential that is due and has a refresh token, and counts them by how that ended |
| OAuthEngine.TalliesCount | internal/proxy/oauth_refresh.go:192-229 | the three counters count the accounts updated, failed and skipped |
| OAuthEngine.Engine.Sweep | internal/proxy/oauth_refresh.go:196-226 | one account of the sweep: skipped, failed or updated, others untouched |
| OAuthEngine.Engine.RefreshExpiringOAuth | internal/proxy/oauth_refresh.go:192-229 | the sweep treats every account as stated and its three counters add up to the number of accounts |
| Router.ExcludeExact | internal/router/router.go:215-228 | exactly the untried accounts remain, each once |
| Router.PreferAccountOrder | internal/router/router.go:194-213 | the sticky account comes first, all others keep their order, none is lost |
| Router.CandidatesInSeatOrder | internal/router/router.go:230-246 | after both reorderings the list is sorted by fresh before stale, sticky first, list position, with every account once |
| Router.WindowQuotaIs | internal/router/router.go:342-358 | a window's own quota counts when its percentage is known, else the general one |
| Router.QuotaPickIsFirstBest | internal/router/router.go:274-293 | the pick is beaten by nobody and beats everybody before it |
| Router.QuotaPickIsUniqueMinimum | internal/router/router.go:274-293 | quota_aware picks the unique minimum of remaining descending, reset ascending with unknown last, fresh, sticky, position |
| Router.SoonestResetIsFirstEarliest | internal/router/router.go:295-340 | reset_soon picks the first eligible seat with the earliest reset, and none when none is eligible |
| Router.ResetSoonPickIsUniqueMinimum | internal/router/router.go:295-340 | reset_soon picks the unique minimum of reset ascending, fresh, sticky, position among the eligible seats, and quota_aware's when none is eligible |
| Router.ScoreIs | internal/router/router.go:360-416 | the score is the share of quota left, the inverse hours to the reset plus a quarter, the recent failure and OAuth, each by its weight |
| Router.StewardPickIsFirstHighest | internal/router/router.go:360-416 | steward picks the first seat of highest score |
| Router.BeatenSeatScoresLess | internal/router/router.go:360-416 | a beaten seat scores strictly less if and only if a lead that carries a weight is visible: quota left, or a reset beyond 45 minutes or unknown |
| Router.StewardNeverPicksBeaten | internal/router/router.go:360-416 | with non-negative weights, steward never picks a seat that another candidate visibly beats on quota and reset time |
| Router.StewardPicksBeatenExactly | internal/router/router.go:360-416 | of two seats, the beaten one listed first is picked if and only if no weight sees the lead |
| Router.ZeroWeightsPickBeatenSeat | internal/router/router.go:360-416 | with zero weights the beaten seat is picked when it is listed first |
| Router.DefaultWeightsPickBeatenSeat | internal/router/router.go:360-416 | two seats of which the default weights pick the one beaten on quota and reset time |
| Router.WeightedShare | internal/router/router.go:468-489 | a draw selects seat i exactly when it falls into the i-th interval |
| Router.WeightedNeverFallsThrough | internal/router/router.go:468-489 | the loop always returns a seat; its final return is never reached |
| Router.WeightedDistributionExact | internal/router/router.go:468-489 | of all draws exactly max(1, weight) select a seat |
| Router.PicksOnOneRouteCycle | internal/router/router.go:455-466 | the picks of one route go round its seats, whatever other routes do |
| Router.RoundRobinFair | internal/router/router.go:455-466 | of N consecutive picks over k seats each seat gets floor(N/k) or ceil(N/k) |
| SeatLaws.ChoosesBy | internal/router/router.go:194-289 | the seat chosen of those not tried yet, strategy by strategy: quota_aware, reset_soon and steward the best by their orders, weighted the seat of the draw, round_robin the route's next, the others the first in seat order |
| SeatLaws.TurnsChooseBy | internal/proxy/proxy.go:354-378 | in every turn of every run the next call goes to the seat that the strategy picks of those not tried |
| RandSource.Draw | internal/router/router.go:148-161 | a draw lies in its range |
| RandSource.SomeMixes | internal/router/router.go:148-161 | what some counters are mixed to |
| Candidates.ExcludeTried | internal/router/router.go:215-228 | the loop computes `Exclude` |
| Candidates.Prefer | internal/router/router.go:194-213 | the loop computes `PreferAccount` |
| SelectorState.Pick | internal/router/router.go:252-272 | every strategy picks a member of its candidates and leaves soft-fail marks alone |
| SelectorState.Selector.NoteSoftFail | internal/router/router.go:174-181 | exactly this account is marked |
| SelectorState.Selector.ClearSoftFail | internal/router/router.go:174-192 | exactly this account's mark is gone |
| SelectorState.Selector.Intn | internal/router/router.go:148-161 | the counter advances by one and the result is its draw |
| SelectorState.Selector.PreferFreshAccounts | internal/router/router.go:230-246 | the loop computes `PreferFresh` |
| SelectorState.Selector.PickQuotaAware | internal/router/router.go:274-293 | the loop finds `QuotaPick` |
| SelectorState.Selector.PickResetSoon | internal/router/router.go:295-340 | the loop finds `ResetSoonPick` |
| SelectorState.Selector.PickSteward | internal/router/router.go:360-416 | the loop finds `StewardPick` |
| SelectorState.Selector.PickWeighted | internal/router/router.go:468-489 | the two loops find `WeightedPick` of the next draw |
| SelectorState.Selector.PickRoundRobin | internal/router/router.go:455-466 | the route's counter advances and selects the seat; other routes' counters stay |
| SelectorState.Selector.PickWithConfig | internal/router/router.go:252-272 | one pick by any strategy does what `Pick` says; no account, no pick |
| Cooldown.SoftFailCooldownInRange | internal/router/router.go:511-570 | for all statuses and all Retry-After values, wrapped products included, the cooldown lies in [1s, 2h] |
| Cooldown.RestsByStatus | internal/router/router.go:511-530 | the rest after each status for want of a header |
| Cooldown.BackoffMonotone | internal/router/router.go:532-541 | up to level 33 backoff is monotone and within [1s, 2min] |
| Cooldown.BackoffIs | internal/router/router.go:532-541 | the backoff is one, two, four up to 64 seconds, then two minutes up to level 33 |
| Cooldown.BackoffInRangeExactly | internal/router/router.go:532-541 | backoff is in range if and only if the level is at most 33 or one of eight listed levels; from level 63 on, on platforms whose conversion saturates |
| Ttft.InspectTTFT | internal/proxy/ttft.go:58-134 | the scan reports the verdict of the first decisive line |
| TtftVerdicts.InspectsByObjects | internal/proxy/ttft.go:58-134 | what was read commits or fails as the first line with a decisive object does: commit for content, tool calls, a finish reason, text, partial input, thinking or the end of a message; failure if and only if it is an error |
| Ttft.LineVerdictPersists | internal/proxy/ttft.go:62-133 | on a well-formed line, a decisive beginning decides as every longer beginning does |
| Ttft.VerdictPersists | internal/proxy/ttft.go:58-134 | on a well-formed stream, the verdict on a beginning is the verdict on every longer beginning |
| Ttft.TakeConserves | internal/proxy/ttft.go:22-24 | a read neither loses nor invents a byte |
| Ttft.CommitConserves | internal/proxy/ttft.go:26-36 | a committed stream is the bytes read followed by the rest, with the original end |
| Ttft.ChunkingMattersAtLimit | internal/proxy/ttft.go:26-28 | a stream that fails only at the buffer limit has two deliveries, one committed and one retried |
| Ttft.LateErrorDependsOnChunking | internal/proxy/ttft.go:26-36 | a well-formed stream, an error behind a long comment, that one delivery commits and another retries |
| Ttft.ChunkingIrrelevantExactly | internal/proxy/ttft.go:15-55 | commit or retry is independent of the cuts if and only if no failure shows only at the buffer limit; it is then a function of the bytes |
| TtftVerdicts.AwaitsByObjects | internal/proxy/ttft.go:15-55 | a well-formed stream that does not fail late is committed to or given up as its first decisive object says, however it is cut; without one it is committed to if it ends in order and has data |
| TtftVerdicts.BlamedOnRead | internal/proxy/ttft.go:49-52 | a stream given up is blamed on the read if and only if it broke off undecided |
| Ttft.ReplayReadConserves | internal/proxy/ttft.go:142-152 | one replayed read hands out the next bytes, and nothing is left at the end |
| Ttft.ReplayConserves | internal/proxy/ttft.go:142-152 | with any buffer sizes a client gets the bytes in order, each once |
| Ttft.ReplayFinishes | internal/proxy/ttft.go:142-152 | enough reads with non-empty buffers bring the whole stream |
| Ttft.Reader.Read | internal/proxy/ttft.go:22-24 | a read fills the front of the buffer from the next piece and leaves the back alone |
| Ttft.ReplayCloser.Read | internal/proxy/ttft.go:142-152 | the method, over its offset and its reader, does what `ReplayRead` says |
| Ttft.AwaitCommit | internal/proxy/ttft.go:15-55 | the loop answers as `Await` does and goes on with the same reader; no reader is a retry |
| Ttft.AtStreamEnd | internal/proxy/ttft.go:36-48 | at the end of the stream any data counts as an empty success, unless it failed |
| AccountModel.PoolIsServableOrWhole | internal/proxy/account_model.go:79-98 | the pool is the servable seats, or all when none is servable |
| AccountModel.RefusesOtherFamilies | internal/proxy/account_model.go:11-54 | a seat refuses exactly the models of another family than its vendor's |
| AccountModel.SeatIsSent | internal/proxy/account_model.go:56-127 | a seat is sent the requested model if it serves it, else its own, else the route's, and is servable exactly when it can run that |
| AccountModel.ApplyAccountModelIdempotent | internal/proxy/account_model.go:56-127 | rewriting the model for a seat a second time changes nothing |
| Affinity.SticksForTtl | internal/proxy/affinity.go:36-59 | a session sticks to its account for exactly the time to live, and no other key is affected |
| Affinity.SessionAffinity.Get | internal/proxy/affinity.go:36-50 | a lookup returns a live entry and drops an expired one |
| Affinity.SessionAffinity.Set | internal/proxy/affinity.go:52-59 | exactly this key is set; an empty key or a nil account changes nothing |
| DispatchLaws.TryIsOk | internal/proxy/proxy.go:378-452 | every trial of a seat ends as independently stated: marked with a cooldown of 1s to 2h, cleared, or untouched, and nobody else affected |
| DispatchLaws.TurnKeepsBooks | internal/proxy/proxy.go:354-452 | every turn of the loop keeps the books or ends the run well |
| DispatchLaws.PassEndsWell | internal/proxy/proxy.go:348-454 | every run, for every strategy and pattern of answers, ends exhausted, failed or won, with calls, failovers and marks exact |
| DispatchLaws.RunsByStatus | internal/proxy/proxy.go:378-452 | a seat that answers 401, 403, 429, 500 or more, or no status, is marked, rests, and is followed by another while one is left; any other answer ends the run there; a result of such a status comes only after the whole pool |
| DispatchLaws.FailoverIsComplete | internal/proxy/proxy.go:354-380 | each seat is called at most once; a result is absent or retryable only after the whole pool soft-failed or said nothing |
| DispatchLaws.FailoverListExact | internal/proxy/proxy.go:395-446 | given no nil results, the failover list names the soft-failed seats in call order; its length is attempts or attempts minus one |
| DispatchLaws.OnlyTheWinnerSticks | internal/proxy/proxy.go:411-452 | a success heals and sticks to the winner alone; without one nothing sticks, a hard error only clears its seat's mark, the soft-failed seats are marked as they failed, and all others are unchanged |
| DispatchLaws.NoMixedStreams | internal/proxy/proxy.go:411-447 | a stream handed out, read with any buffers, is the stream of the last seat called and no other's |
| Dispatch.TakeTurn | internal/proxy/proxy.go:354-380 | every turn that goes on leaves fewer candidates, so the loop ends |
| Dispatch.Choose | internal/proxy/proxy.go:365-368 | the seat chosen is one of the candidates |
| Race.DrainReturnsFirstDecisive | internal/proxy/proxy.go:264-313 | for every arrival order and every instant of cancellation the race returns the first arrival that is not retryable, or the last result, or the cancellation if it comes first |
| Race.RacersReport | internal/proxy/proxy.go:222-261 | each message in a race is its racer's: an error, a bad gateway for no reply or a stream that fails at once, else the reply |
| Race.RacersAre | internal/proxy/proxy.go:187-199 | the racers are the pool without OAuth seats, unless these are allowed |
| Race.RaceWinnerIsOneSeat | internal/proxy/proxy.go:222-303 | the winner is one seat; the stream is a beginning of that seat's, with all that was read before the commit, and whole if and only if the cancellation that settles the race cuts nothing off; the session sticks to it exactly on success |
| Race.WinnerLosesItsStream | internal/proxy/proxy.go:282-291 | a race of one seat that streams two chunks of content hands out the first alone |
| Race.UnsettledRaceSticksNothing | internal/proxy/proxy.go:305-313 | a race nobody settles, and no cancellation ends, changes nothing and does not succeed |
| Race.ChannelMoves | internal/proxy/proxy.go:216-274 | a racer sends while there is room, behind what is there; what was sent first is received first |
| Race.SendNeverBlocks | internal/proxy/proxy.go:216-262 | in every interleaving of sends and receives, a racer that has not sent can send at once |
| Race.ReceivedOnce | internal/proxy/proxy.go:216-274 | no racer's message is received twice, and none from a racer that did not send |
| Race.AllReceivedIsAnArrivalOrder | internal/proxy/proxy.go:264-274 | when all messages are in, each racer's arrived exactly once |
| Routing.EarliestCooldownIsSoonest | internal/store/store.go:656-687 | the cooldown found lies ahead and none lies ahead before it |
| Routing.RetryAfterCoversExactly | internal/proxy/proxy.go:476-486 | the seconds told are in [1, 3600] and less than a second too many; they cover the wait if and only if it is at most an hour and no rest below a millisecond was rounded away, and exceed it if and only if it is under an hour and either under a second or at least a millisecond over a whole number of seconds |
| Routing.EmptyAnswer | internal/proxy/proxy.go:456-502 | without a usable account the answer is 400 if and only if a filter excludes them or the route has none, else 503 with a Retry-After in [1, 3600] while every account of the route cools down |
| Routing.WaitFreesAnAccountExactly | internal/proxy/proxy.go:476-486 | while all accounts of the route cool down, a client that waits as told finds one listed if and only if the soonest wait is under an hour and under a second or at least a millisecond over a whole number of seconds |
| Routing.WaitsFallShort | internal/proxy/proxy.go:476-486 | one wait for each way in which the seconds told fall short |
| Routing.FallbacksStopAtFirstConclusive | internal/proxy/proxy.go:143-175 | fallbacks stop at the first conclusive dispatch and return its result, with the attempts of the last result before added, or else the last result; the calls are those of the dispatches up to there |
| Routing.AttemptsCountCallsExactly | internal/proxy/proxy.go:143-175 | for any dispatches that count their own calls, attempts equal the calls made if and only if every dispatch but the conclusive one, and the last one before it with a result, made none |
| Routing.DispatchCountsOwn | internal/proxy/proxy.go:264-454 | every dispatch, sequential, raced or downgraded, counts its own calls |
| Routing.RequestAttemptsExactly | internal/proxy/proxy.go:143-175 | the same equivalence for the whole request over the engine's own dispatches |
| Repeats.TwoCallsOneAttempt | internal/proxy/proxy.go:143-175 | a request over two routes of one rate-limited seat each: two calls are made and its result says one attempt |
| Routing.CandidatesAreUsable | internal/store/store.go:549-557 | an account cooling down is not listed |
| Routing.OpensWithSession | internal/proxy/proxy.go:320-342 | a dispatch drops an expired session and prefers the account of a live one |
| Routing.DispatchesByStrategy | internal/proxy/proxy.go:316-348 | a route that does not race is dispatched to seat by seat, one that does to its seats that may race, and for want of any seat by seat without the filter |
| Routing.DispatchSends | internal/proxy/proxy.go:378-386 | every call of a dispatch carries the request's body rewritten for its seat and route, and its answer |
| Routing.RaceSends | internal/proxy/proxy.go:201-245 | a race makes one such call to each seat, the sticky one first |
| Routing.VisitsExactly | internal/proxy/proxy.go:143-175 | a fallback is visited if and only if its slug is not empty, not the route's own, and found |
| Routing.SettlesByStatus | internal/proxy/proxy.go:143-175 | a request goes on exactly after a result that is absent, without a status, or of a status for which another seat is tried |
| Repeats.DispatchIsConsiderate | internal/proxy/proxy.go:396-440 | whatever its seats answer, a sequential dispatch calls nobody twice and nobody who is cooling down, and leaves cooling down all it called that replied and whose cooldown was stored, when it is not conclusive |
| Repeats.DispatchIsExact | internal/proxy/proxy.go:348-454 | a sequential dispatch calls only free accounts that its route offers, each once, and all of them when it is exhausted; unless it settles, exactly the accounts called with a reply and a stored cooldown are cooling down anew |
| Repeats.NoCallAfterFirmCall | internal/proxy/proxy.go:143-175 | within a second and without a race, an account is called again across the primary route and all fallbacks only after a call to it that gave no reply or whose cooldown was not stored |
| Repeats.CalledAgainExactly | internal/proxy/proxy.go:143-175 | without races and within a second, a fallback that ends exhausted calls an account it offers if and only if the account was free at the start and no call to it so far was replied to with its cooldown stored |
| Repeats.NoAccountCalledTwice | internal/proxy/proxy.go:143-175 | so no account is called twice when all calls made but the last were replied to and had their cooldowns stored |
| Repeats.NoAccountCalledTwiceExactly | internal/proxy/proxy.go:143-175 | a request none of whose dispatches settles or leaves a seat out calls no account twice if and only if no fallback offers an account called before without a reply or without its cooldown stored |
| Repeats.RejectedCooldownCallsAgain | internal/proxy/proxy.go:395-402 | a request over two routes that share a rate-limited seat whose cooldown is rejected: the seat is called twice |
| DispatchEngine.AccountStore.SetCooldown | internal/store/store.go:651-654 | a cooldown is set for exactly this account, or nothing changes |
| DispatchEngine.AccountStore.MarkAccountHealthy | internal/store/store.go:723-726 | exactly this account's cooldown is gone, or nothing changes |
| DispatchEngine.FilterServableAccounts | internal/proxy/account_model.go:83-98 | the loop keeps the servable seats, or all |
| DispatchEngine.FilterParallelAccounts | internal/proxy/proxy.go:187-199 | the loop drops OAuth seats unless they are allowed |
| DispatchEngine.EarliestRouteCooldown | internal/store/store.go:656-687 | the loop finds `EarliestCooldown` |
| DispatchEngine.Engine.TrySeat | internal/proxy/proxy.go:381-452 | one seat is judged as `Attempt` says, over store, selector and session table |
| DispatchEngine.Engine.Commit | internal/proxy/proxy.go:411-447 | a successful stream is peeked at before anything is recorded |
| DispatchEngine.Engine.RunLoop | internal/proxy/proxy.go:348-454 | the failover loop does what `RunPass` says |
| DispatchEngine.Engine.RunRacer | internal/proxy/proxy.go:222-261 | a racer's one message is as stated |
| DispatchEngine.Engine.DrainChannel | internal/proxy/proxy.go:264-313 | the receiving loop does what `Drain` says |
| DispatchEngine.Engine.DispatchParallel | internal/proxy/proxy.go:201-314 | a race does what `RunRace` says: settling it cancels all racers and may cut the winner's stream; only a success sticks |
| DispatchEngine.Engine.EmptyResult | internal/proxy/proxy.go:456-502 | the answer when no account can be used |
| DispatchEngine.Engine.Open | internal/proxy/proxy.go:320-342 | listing, filtering and the sticky lookup happen in this order and with these early answers |
| DispatchEngine.Engine.Dispatch | internal/proxy/proxy.go:316-348 | one dispatch, sequential, raced or downgraded, does what `DispatchRoute` says |
| DispatchEngine.Engine.DispatchRequest | internal/proxy/proxy.go:143-175 | a whole request over all fallbacks does what `DispatchWithFallbacks` says |
| BridgeTools.MergeCall | internal/proxy/codex_tools.go:239-249 | the loop computes `MergeToolCall` |
| BridgeTools.MergeHosted | internal/proxy/codex_tools.go:218-237 | the loop computes `MergeHostedTool` |
| BridgeTools.StreamIndex | internal/proxy/codex_tools.go:253-265 | the loop finds a call's place among the merged calls |
| BridgeTools.MergedIds | internal/proxy/codex_tools.go:239-249 | merged calls never repeat a non-empty id and miss none |
| BridgeTools.MergedExactly | internal/proxy/codex_tools.go:239-249 | merging keeps one call for each id, where the id came first and as it came last, and every call without an id |
| BridgeTools.HostedMergedExactly | internal/proxy/codex_tools.go:218-237 | an entry updates, key by key, the first tool of its id or name, or is added |
| BridgeTools.StreamIndexIs | internal/proxy/codex_tools.go:253-265 | a call stands where the first of its id does, else at the end |
| BridgeTools.ReassembledExactly | internal/proxy/codex_tools.go:251-265 | a client that places streamed calls by index has the merged calls if and only if no non-empty id is repeated |
| AnthropicBridge.BodyAddsUp | internal/proxy/anthropic_bridge_parse.go:164-190 | the deltas of one block add up to its text and its input, however they are cut |
| AnthropicBridge.CutMeans | internal/proxy/anthropic_bridge_parse.go:147-238 | start, deltas and stop of a block do to the meaning what its start, its text and its input say |
| AnthropicBridge.MergeTwice | internal/proxy/codex_tools.go:218-237 | merging a search before its query is known and again after is merging it once |
| AnthropicBridge.ServerToolMeansTheSameExactly | internal/proxy/anthropic_bridge_parse.go:223-235 | a streamed block of any server tool, in any state, agrees with the whole block if and only if it streams no query, or the query finds its own search, or it changes nothing |
| AnthropicBridge.StreamMeansMessage | internal/proxy/anthropic_bridge_parse.go:59-259 | however a message is cut into events, the streaming parser ends with the meaning of the whole-message parser; for every message whose searches have ids where their query is streamed and whose other server tools with a streamed query do not take a search's id |
| AnthropicBridge.OneSearchMeansTheSameExactly | internal/proxy/anthropic_bridge_parse.go:223-235 | a streamed search agrees with the whole one if and only if it has an id or no query |
| AnthropicBridge.StreamedStopKeepsInput | internal/proxy/anthropic_bridge_parse.go:205-238 | behind a streamed tool call the input text stays open; without a client it does not |
| AnthropicBridge.SecondCutMeans | internal/proxy/anthropic_bridge_parse.go:186-238 | behind a tool call, a second block of the same index means what the two input texts together make of it while streaming, and what its own makes of it otherwise |
| AnthropicBridge.SecondCallMeansTheSameExactly | internal/proxy/anthropic_bridge_parse.go:191-238 | two tool calls of one index mean the same with and without a client if and only if the open text makes no difference to the second call's arguments |
| AnthropicBridge.SecondCallLosesInput | internal/proxy/anthropic_bridge_parse.go:191-238 | two tool calls of one index of which the second loses its input while streaming |
| AnthropicClient.EventStaysInStep | internal/proxy/anthropic_bridge_parse.go:137-259 | every event keeps the client's content and calls in step with the parser's |
| AnthropicClient.ClientHasCompletionExactly | internal/proxy/anthropic_bridge_parse.go:261-298 | for every event stream a client reassembles the parser's completion if and only if no non-empty id was streamed twice |
| AnthropicClient.StreamedEqualsWholeExactly | internal/proxy/anthropic_bridge_parse.go:108-135 | for every such message a streaming client ends with what a non-streaming one receives, if and only if no tool id is repeated |
| AnthropicLaws.MessageCompletes | internal/proxy/anthropic_bridge_parse.go:59-135 | a whole message's completion has its text, its named calls merged by id, its counts, and the finish reason its stop reason and calls ask for |
| AnthropicLaws.StreamCounts | internal/proxy/anthropic_bridge_parse.go:137-259 | a stream is parsed to its end if and only if no event explains an error, with the last stop reason and counts |
| AnthropicLaws.StreamFinishes | internal/proxy/anthropic_bridge_parse.go:261-298 | the last chunks of every stream, and the aggregate completion, tell the finish reason by the last stop reason and the calls, and the last counts |
| AnthropicLaws.BlockHosts | internal/proxy/anthropic_bridge_parse.go:77-106 | each block makes the hosted entry it should, a result with the action of the search of its id |
| AnthropicLaws.EventTells | internal/proxy/anthropic_bridge_parse.go:137-259 | a streaming client is told of each search as it starts and as its result comes, and of nothing else |
| AnthropicLaws.QuietWithoutClient | internal/proxy/anthropic_bridge_parse.go:137-259 | without a streaming client nothing is written |
| AnthropicParser.Parser.IngestContentBlock | internal/proxy/anthropic_bridge_parse.go:77-106 | one block of a message, with the chunks for hosted tools |
| AnthropicParser.Parser.ReadMessage | internal/proxy/anthropic_bridge_parse.go:59-75 | the loop over a message does what `IngestMessage` says |
| AnthropicParser.Parser.ApplyDelta | internal/proxy/anthropic_bridge_parse.go:164-190 | a delta extends the text or the input of its block |
| AnthropicParser.Parser.StopBlock | internal/proxy/anthropic_bridge_parse.go:191-238 | the end of a block: a tool call merged and streamed, a search completed, or nothing |
| AnthropicParser.Parser.Handle | internal/proxy/anthropic_bridge_parse.go:139-258 | one event does what `Step` says; a vendor error stops the stream |
| AnthropicParser.Parser.ReadStream | internal/proxy/anthropic_bridge_parse.go:137-259 | the event loop does what `Parse` says |
| AnthropicParser.Parser.WriteFinale | internal/proxy/anthropic_bridge_parse.go:261-298 | the last chunks, with the text when none was streamed |
| CodexBridge.StreamingKeepsCore | internal/proxy/codex_bridge_parse.go:9-69 | text, tools, calls and token counts are the same with and without a streaming client |
| CodexBridge.ClientCallsExactly | internal/proxy/codex_tools.go:251-265 | when no id is streamed twice, the client has the merged calls if and only if each merged call was streamed |
| CodexClient.StreamFollows | internal/proxy/codex_bridge_parse.go:9-69 | after every event the client has the deltas and the streamed calls at their places among the merged calls |
| CodexClient.CompletedTextWins | internal/proxy/codex_tools.go:267-284 | the completed output's text, if any, replaces what the deltas gave |
| CodexClient.ClientHasCalls | internal/proxy/codex_bridge_parse.go:37-55 | the client has all calls when each has an id, is done once and is repeated by the completed output |
| CodexClient.StreamedEqualsAggregateExactly | internal/proxy/codex_bridge_parse.go:71-116 | such a stream gives a client the aggregate completion if and only if the deltas are empty, the completed text is empty, or they are equal |
| CodexLaws.CallsAreTaken | internal/proxy/codex_bridge_parse.go:9-69 | the calls are those of all items that came, merged by id in order |
| CodexLaws.StreamFinishes | internal/proxy/codex_bridge_parse.go:71-116 | the last chunks say tool_calls if and only if some event carried a call, else stop, with the last counts |
| CodexLaws.CompletionFinishes | internal/proxy/codex_bridge_parse.go:71-116 | the aggregate completion and the streaming client's view say the same |
| CodexLaws.HostedAreTold | internal/proxy/codex_tools.go:343-361 | the hosted tools are those of all items, merged; a streaming client is told of each with its phase as it comes |
| CodexLaws.QuietWithoutClient | internal/proxy/codex_bridge_parse.go:9-69 | without a streaming client nothing is written |
| CodexLaws.CompletedTextIs | internal/proxy/codex_bridge.go:182-198 | the completed text is the text of the message items, joined |
| CodexParser.ExtractCompletedText | internal/proxy/codex_bridge.go:182-198 | the loop joins the text of the message items |
| CodexParser.Parser.IngestOutputItem | internal/proxy/codex_tools.go:343-361 | an item's hosted tool and tool call are merged; message text is never taken |
| CodexParser.Parser.ParseCompletedOutput | internal/proxy/codex_tools.go:267-284 | the completed output is taken in as `Complete` says |
| CodexParser.Parser.Handle | internal/proxy/codex_bridge_parse.go:11-68 | one event does what `Step` says |
| CodexParser.Parser.ReadStream | internal/proxy/codex_bridge_parse.go:9-69 | the event loop does what `Parse` says |
| CodexParser.Parser.WriteFinale | internal/proxy/codex_bridge_parse.go:71-116 | the last chunks, with the completed text when there were no deltas |
| ChatBridge.CoalescingKeepsMeaning | internal/proxy/anthropic_bridge.go:42-126 | every history becomes non-empty messages of alternating roles whose blocks are the history's in order |
| ChatBridge.AlternatingIsUnique | internal/proxy/anthropic_bridge.go:111-126 | there is only one such list of messages |
| ChatBridge.MessageSays | internal/proxy/anthropic_bridge.go:42-126 | each message adds what its role lets it say: nothing for system and developer, a tool's result, an assistant's texts and calls, another's texts and images |
| ChatBridge.SystemTextIs | internal/proxy/anthropic_bridge.go:42-92 | the system text is the texts of system and developer messages, each on a line |
| ChatBridge.UsesSurviveExactly | internal/proxy/anthropic_bridge.go:139-176 | tool_use blocks to tool calls and back are unchanged if and only if names are trimmed and not empty and inputs not null; for inputs that the JSON library reads back |
| ChatBridge.ItemsSurviveExactly | internal/proxy/codex_bridge.go:118-152 | function_call items to tool calls and back keep all but their own ids if and only if call ids, names and arguments are trimmed and not empty |
| ChatBridge.ItemsUnchangedExactly | internal/proxy/codex_tools.go:194-216 | they are unchanged altogether if and only if, besides, no item has an id of its own |
| ChatBridge.ItemsAre | internal/proxy/codex_bridge.go:118-152 | a client's calls become items one by one, without those that lack a name or an id |
| ChatBridge.AppendAnthropicMessage | internal/proxy/anthropic_bridge.go:111-126 | blocks join the last message of the same role or start a new one |
| ChatBridge.AnthropicToolUseBlocks | internal/proxy/anthropic_bridge.go:139-176 | the loop computes `UseBlocks` |
| ChatBridge.ResponsesFunctionCalls | internal/proxy/codex_bridge.go:118-152 | the loop computes `FunctionCalls` |
| ChatBridge.ChatToAnthropicMessages | internal/proxy/anthropic_bridge.go:42-92 | the conversion fails if and only if no message has a block; otherwise it gives the coalesced messages and the system text |
| TtlCache.Cache.Lookup | internal/ttlcache/ttlcache.go:29-45 | a live entry is returned, an expired one dropped, a disabled cache empty |
| TtlCache.Cache.Store | internal/ttlcache/ttlcache.go:47-54 | an entry lives for the time to live |
| TtlCache.Cache.Delete | internal/ttlcache/ttlcache.go:56-63 | exactly this key is gone |
| TtlCache.LivesForTtl | internal/ttlcache/ttlcache.go:29-54 | an entry lives until its time to live is over, other keys are unaffected, and a disabled cache is empty |
| Store.RouteCacheKeyInjective | internal/store/store.go:87-89 | no two routes share a cache key |
| Store.RunsAgree | internal/store/store.go:286-341 | every event keeps every cached route equal to its row |
| Store.LookupIgnoresCache | internal/store/store.go:317-341 | over all runs of creates, lookups, updates, deletes and clock readings, a lookup answers as with no cache |
| Store.LookedUpRouteIsCached | internal/store/store.go:317-341 | a row looked up is answered from the cache for its time to live, and no expired entry stays |
| Store.CreatesRouteExactly | internal/store/store.go:286-315 | a route is created as given unless its id, or its slug in the project, is taken |
| Store.UpdatesRouteExactly | internal/store/store.go:458-484 | a route is updated in place and answered as it is now |
| Store.DeletesRouteExactly | internal/store/store.go:587-603 | deleting a route takes exactly its row and its cache entry away, or fails with the table as it was |
| Store.CreatesKeyExactly | internal/store/store.go:134-148 | a key is created, active, unless its id or hash is taken |
| Store.LookedUpKeyIsCached | internal/store/store.go:150-177 | a key looked up is answered from the cache for its time to live, and no expired entry stays |
| Store.MissesAreRead | internal/store/store.go:150-177 | what is not in a cache is read from the table: its row, unless there is none or the table cannot be read |
| Store.AuthenticatesAsItsRow | internal/store/store.go:150-177 | in every run a key authenticates as the row of its hash, cached or not |
| Store.RevokesExactly | internal/store/store.go:220-235 | RevokeKey makes exactly the project's active key of the id inactive |
| Store.RevokesNameExactly | internal/store/store.go:249-269 | RevokeKeysByName makes exactly the project's active keys of the name inactive, and counts the hashes read |
| Store.RevokeByNameKillsExactly | internal/store/store.go:249-269 | after RevokeKeysByName a key is dead if and only if its hash comes before the failure to read or was not cached; all are when it succeeds |
| Store.RevokedStillAuthenticatesExactly | internal/store/store.go:249-269 | a key revoked by name still authenticates if and only if its hash comes after the failure and its cached entry is live |
| Store.RevokedKeyAuthenticates | internal/store/store.go:249-269 | a run in which a revoked key authenticates |
| Store.DeadForEver | internal/store/store.go:150-177 | a dead key stays dead in every run |
| Store.RevokedNeverAuthenticates | internal/store/store.go:220-235 | once RevokeKey returned, no later lookup of the key succeeds |
| Store.RevokedNameNeverAuthenticates | internal/store/store.go:249-269 | once RevokeKeysByName returned without error, no active key of the name ever authenticates |
| StoreEngine.GatewayStore.CreateRoute | internal/store/store.go:286-315 | the row is inserted and cached |
| StoreEngine.GatewayStore.GetRouteBySlug | internal/store/store.go:317-341 | the cache, then the table, then the cache filled |
| StoreEngine.GatewayStore.UpdateRoute | internal/store/store.go:458-484 | the row is updated and cached |
| StoreEngine.GatewayStore.DeleteRoute | internal/store/store.go:587-603 | the row is found, deleted by id and evicted |
| StoreEngine.GatewayStore.LookupByPlaintext | internal/store/store.go:150-177 | the cache, then the active key of the hash, then the cache filled |
| StoreEngine.GatewayStore.RevokeKey | internal/store/store.go:220-235 | the key is revoked and its hash evicted |
| StoreEngine.GatewayStore.Evict | internal/store/store.go:258-268 | hash after hash is evicted up to the one that cannot be read |
| StoreEngine.GatewayStore.RevokeKeysByName | internal/store/store.go:249-269 | all keys of the name are revoked and the hashes read are evicted |
| RateLimit.MemoryLimiter.AllowWithLimit | internal/ratelimit/limiter.go:36-53 | one request does what `Allow` says; a limit that is not positive is the default |
| RateLimit.KeysAreIndependent | internal/ratelimit/limiter.go:36-53 | what a key is admitted depends on its own requests alone |
| RateLimit.AdmitsFirstOfWindow | internal/ratelimit/limiter.go:36-53 | a request is admitted if and only if it opens a window or is among the first `limit` of the open one |
| RateLimit.TraceKeeps | internal/ratelimit/limiter.go:36-53 | every request of every trace keeps the windows in order |
| RateLimit.WindowAdmitsLimit | internal/ratelimit/limiter.go:44-51 | windows open a window length apart and limit + 1 admissions straddle an opening |
| RateLimit.IntervalAdmitsTwiceLimit | internal/ratelimit/limiter.go:36-53 | any half-open interval of one window length admits at most twice the limit |

## Left out

- Ttft.VerdictPersists: a character stands for a byte, and white space is what `Text.IsSpace` says of a character, so multi-byte spaces at the edge of a line are not those of UTF-8.
- Cooldown.BackoffInRangeExactly: from level 63 on, the conversion of the power to an integer is the platform's; platforms that neither give the smallest nor the greatest integer are not covered.
- Router.StewardNeverPicksBeaten: scores are real numbers; rounding and NaN are not modelled.
- Router.WeightedDistributionExact: counts draws of the range, not values of the 64-bit counter, whose mixing does not cover the range evenly.
- Router.RoundRobinFair: counters and sums of weights do not overflow.
- Store.RunsAgree: a statement that fails is taken to have had no effect, and calls do not overlap.
- Store.RevokedNeverAuthenticates: a lookup that runs between the update and the eviction is not modelled.
- AnthropicBridge.StreamMeansMessage: the input of a server tool is an object; blocks follow one another, with distinct indexes; blocks open at the same time are not modelled.
- Repeats.CalledAgainExactly: a fallback that settles the request stops before it has called all it offers; of it only `Repeats.NoCallAfterFirmCall` speaks.
- Repeats.NoCallAfterFirmCall: a raced route marks no seat, so routes that race are excluded.
- OAuthEngine.Engine.RefreshExpiringOAuth: the parsing of expiry times is the parameter `due`; a cancelled context between accounts is not modelled.
- OAuthEngine.RefreshGates.Lock: the table of locks exists from the start; the program creates it on first use without a lock.
- Other writers of the same secrets and cooldowns (the model catalogue's refresh, the health prober, other gateways) are not part of the runs.
- Vendor calls, HTTP, authentication headers, JWT, PKCE and device flows: only their outcomes appear.
- SQL, migrations and timestamp parsing: tables are maps and lists with the stated effects.
- JSON and UUID text, hashing: abstract; a key stands for its hash, and its route scope is not modelled, because deleting a route does not update cached keys.
- The parsing of a route's settings: `PickConfig` holds them after defaults.
- Session keys are given; how they are derived from a request is not modelled.
- Letter case folds only in ASCII.
- Usage, latency and bodies of results, and errors when writing to the client.
- Tool definitions and tool choices sent to vendors, and the conversion of histories for Codex: lists of independent cases that would only add easy members.
- HTTP handlers, CLI, pages, billing, plan limits, version comparison: finite tables or single branches.
