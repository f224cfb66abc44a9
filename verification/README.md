# Polling, dedup and retry core of the reply bot

A Dafny model of the part of `twitter_bot.py` that decides which posts are new
and survives remote failures. The bot polls the watched account (`USER_HANDLE`).
It keeps the ids it has already fetched as new in a module-level set
(`processed_tweets`). An id enters the set before any reply is sent (line 193)
and stays there even when the reply fails. The largest id in the set goes to
the remote as `since_id`. The bot filters each response against the set
and sends one reply per post the filter keeps.
On a rate limit it sleeps until the advertised reset and retries with the same
`since_id`. On any other fetch failure it sends one alert e-mail and yields
nothing.

The remote service is not called. It is a given sequence of `FetchOutcome`
values, one per attempt. Each outcome is a response body, a rate limit (with
the reset header and the two clock readings), or another failure. A cycle's
replies are answered by a given function from reply text to outcome. Clocks
are integer parameters. The endless scheduler loop is a finite sequence of
cycles, each with its own remote.

Modules:

- `Items` (items.dfy): `Option`, `Item` and the set of ids of a list of posts.
- `Dedup` (dedup.dfy): the comprehension and marking loop of lines 189-198.
- `Watermarks` (watermark.dfy): `max(processed_tweets)` or `None`.
- `Post` (post.dfy): the reply template of `create_post`, including Python's
  decimal rendering of the id.
- `Fetch` (fetch.dfy): `fetch_tweets_v2`, with its rate-limit retry and its
  error path.
- `Bot` (bot.dfy): one run of `main`, and a bounded run of the scheduler loop.

The code computes the rate-limit wait as `reset - now` with no clamp at zero
(lines 200-201). A negative value makes `time.sleep` raise `ValueError` inside
the `except` handler. That exception leaves `fetch_tweets_v2` and `main` and is
caught by the outer loop at line 242, so no retry, no alert and no reply
happen in that cycle. The model records this as the `SleepRaised` status, and
`PastResetAbandonsCall` proves the consequence.

Line 191 tests each fetched post against the set as it was before the
response, so a response holding one new id twice yields both copies and both
are answered (`DuplicateInBatchBothPass`).

## Model

| member | source | states |
|---|---|---|
| Dedup.FreshItems | twitter_bot.py:191 | The kept posts are an order-preserving subsequence of the response. None has an id in the set as it was before the call, and every post whose id is not in that set is kept. |
| Dedup.FreshItemsCounts | twitter_bot.py:191 | Each post is kept exactly as many times as the response holds it when its id is unseen, and never otherwise. So two copies of one new id both pass. |
| Dedup.ProcessBatch | twitter_bot.py:189-198 | An absent or empty response yields no posts and leaves the set unchanged. Otherwise every post with an unseen id is returned in fetched order, and the new set is exactly the old set plus the returned ids. |
| Dedup.ProcessBatchCounts | twitter_bot.py:189-193 | For a present response, each post is returned exactly as many times as the response holds it when its id is unseen, so duplicated new ids are all returned, and never otherwise. |
| Dedup.FreshItemsEmptyWhenAllSeen | twitter_bot.py:191 | When every fetched id is already processed, nothing is kept. |
| Dedup.ProcessBatchIdempotent | twitter_bot.py:191-195 | Feeding the same response again right after a call returns nothing and leaves the set as the first call left it. |
| Dedup.SingleNewPost | twitter_bot.py:189-195 | A response holding one unseen post returns that post and adds exactly its id to the set. |
| Dedup.DuplicateInBatchBothPass | twitter_bot.py:191-193 | A response holding one unseen post twice returns it twice, because membership is tested against the set from before the call. |
| Watermarks.MaxId | twitter_bot.py:226 | The maximum of a non-empty id set is a member of it and no member exceeds it. |
| Watermarks.Watermark | twitter_bot.py:226 | The watermark is absent exactly when the set is empty; otherwise it is the greatest processed id. |
| Watermarks.WatermarkIsGreatest | twitter_bot.py:226 | Any member that bounds the whole set is the watermark, so the maximum is unique. |
| Watermarks.WatermarkMonotone | twitter_bot.py:226 | Growing the set never lowers the watermark. |
| Watermarks.ComputeWatermark | twitter_bot.py:226 | A single scan over the set, keeping the largest id so far, yields the watermark. |
| Post.NatToString | twitter_bot.py:118 | An id's magnitude renders as a non-empty string of decimal digits with no leading zero. |
| Post.NatToStringRoundTrip | twitter_bot.py:118 | Reading the digits back gives the number that was rendered. |
| Post.IdToString | twitter_bot.py:118 | `str(id)` starts with a digit exactly when the id is non-negative. |
| Post.IdToStringRoundTrip | twitter_bot.py:118 | The rendered id parses back to the same id, signs included. |
| Post.Permalink | twitter_bot.py:118 | The permalink starts with `https://x.com/{handle}/status/` and has something after it. |
| Post.PermalinkReadsBack | twitter_bot.py:118 | What follows the prefix is `str(id)`: it parses back to the post's id, negative ids included. |
| Post.PermalinkInjective | twitter_bot.py:118 | Two posts of one account with different ids never share a permalink. |
| Post.ComposePost | twitter_bot.py:114-119 | The reply ends with the permalink of the post it answers. |
| Post.ComposePostMentions | twitter_bot.py:114-119 | The reply mentions `@elonmusk` and `@{handle}` and quotes the post's text. |
| Fetch.WaitSeconds | twitter_bot.py:200-201 | With a reset header, the wait is exactly reset minus the clock, with no clamp. Without one, the wait is at most zero, given the clock does not go backwards between its two readings. |
| Fetch.FetchTweets | twitter_bot.py:176-209 | Every attempt uses the caller's `since_id`. Every wait but a final failing one is non-negative. Returned posts have unseen ids, and the new set is the old set plus their ids. At most one alert is sent, carrying the fixed subject, and only on a call that returns nothing. A call that does not return normally yields nothing and sends no alert. |
| Fetch.RetriesAreTransparent | twitter_bot.py:199-204 | Any number of waited-out rate limits leave status, posts, set and alerts exactly as the first other answer makes them. They add one attempt with the same `since_id` and one wait, the computed one, per rate limit. |
| Fetch.SuccessAfterRetries | twitter_bot.py:189-204 | After waited-out rate limits, a response is filtered exactly as `ProcessBatch` filters it and ends the call, whatever the remote would answer next. Exactly one attempt more than the rate limits is made, the waits are those of the rate limits, and no alert is sent. |
| Fetch.FailureAfterRetries | twitter_bot.py:199-209 | After waited-out rate limits, any other failure ends the call, whatever the remote would answer next. It returns nothing, leaves the set unchanged and sends exactly one alert, whose body is the error message. Exactly one attempt more than the rate limits is made, and the waits are those of the rate limits. |
| Fetch.PastResetAbandonsCall | twitter_bot.py:199-204 | A reset time before the clock gives the negative wait reset minus clock. `time.sleep` raises on it, so the call ends without posts, alert or change to the set, whatever the remote would answer next. |
| Fetch.NegativeWaitAbandonsCall | twitter_bot.py:199-204 | Any negative wait, with a reset header or without one, ends the call after the retries before it, with no posts, no alert and the set unchanged, whatever the remote would answer next. |
| Fetch.HeaderlessTickAbandonsCall | twitter_bot.py:200-203 | Without a reset header, two clock readings one second apart give a wait of -1, and the call is abandoned the same way. |
| Bot.PublishAll | twitter_bot.py:232-235 | Every returned post gets exactly one reply, in returned order, whatever the remote answers to earlier replies. |
| Bot.RunCycle | twitter_bot.py:221-235 | A cycle fetches with the watermark of the set as `since_id` on every attempt. It replies to exactly the returned posts, whose ids were unprocessed, and its set grows by exactly their ids. The watermark never falls. |
| Bot.PublishOutcomesAreIgnored | twitter_bot.py:124-138 | A reply that fails or reports errors changes neither the set nor which replies are sent. |
| Bot.RunCycles | twitter_bot.py:238-246 | A run has at most one cycle per remote, and at least one when there is a remote. The first cycle starts from the given set. The run is chained: each later cycle starts from the set the previous cycle left, and every cycle keeps the bookkeeping of `main`. |
| Bot.RunStopsOnlyWhenUnfinished | twitter_bot.py:238-246 | A run ends before its last remote only at a cycle whose remote ran out while still rate-limiting (the retry of lines 199-204); that call of `main` has not returned, so no later cycle runs. Every earlier cycle returned. |
| Bot.ExhaustedRemoteEndsRun | twitter_bot.py:199-204 | A first cycle whose remote runs out sends no reply and no later cycle runs, whatever the later remotes would answer. |
| Bot.RunCyclesRunsMain | twitter_bot.py:238-246 | Every cycle of a run is one call of `main` on the set the run has reached. |
| Bot.SeenGrowsAcrossRun | twitter_bot.py:191-193 | In any chained run, such as every run of `RunCycles`, the set a later cycle starts from contains the set any earlier cycle started from. |
| Bot.WatermarkNeverDecreases | twitter_bot.py:226 | In any chained run, the `since_id` of a later cycle is never below that of an earlier one. |
| Bot.NoRepublishAcrossCycles | twitter_bot.py:191-193 | In any chained run, an id fetched as new in one cycle is never fetched as new in a later cycle. In a run of `RunCycles` those are exactly the answered posts, so no post is answered in two cycles. |
| Bot.FirstCycleExample | twitter_bot.py:221-235 | From an empty set, a response holding post 101 "hello" is fetched with no `since_id`. It marks 101 processed and is answered once, with that post's reply. |

## Left out

- The tweepy client calls (`get_user`, `get_users_tweets`, `create_tweet`, `get_me`) are network I/O. Their results are the given outcomes.
- The remote is not required to honour `since_id` or the page size of 5 (line 184). A response is taken as given.
- `send_email` (lines 151-161) is SMTP I/O. It is recorded only as an `Alert` with its subject and body. Its own failures are swallowed and change nothing.
- Loading the environment, printing the credentials and building the client (lines 9-40) are startup I/O.
- `verify_authentication` and `check_rate_limits` (lines 54-90) are read-only I/O that catch their own errors. `check_rate_limits` is never called.
- Logging and `print` calls have no behaviour to verify.
- `time.time()` readings are integer parameters already truncated by `int()`. `time.sleep` is recorded only as its argument.
- Fetch.FetchTweets: each retry is a recursive call (line 204), so the interpreter's recursion limit bounds the retry depth. After roughly a thousand consecutive rate limits the call ends with `RecursionError`, caught at line 205 or at line 242 depending on where it is raised. The model ignores that bound and retries through any number of waited-out rate limits. When the given outcomes run out it stops with status `Unfinished`.
- Bot.RunCycles: the `while True` loop (lines 238-246) runs forever. The model runs at most one cycle per given remote, and ends the run at a cycle whose remote runs out, since that call has not returned. The 60-second pause between cycles has no effect on state and is not modelled.
- `is_business_hours` (lines 98-99) always returns true. It is `Bot.IsBusinessHours` and appears inside `PublishAll`; it has no contract of its own.
- testapi.py is a stand-alone credential check with no logic.
