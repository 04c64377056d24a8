# twitterapi: the request loops, the rate limiter and the stream readers

This project is a Dafny model of the core of the `sparta.twitterapi` client library
for the Twitter (X) API v2. That core is made of three parts.

- **The rate limiter.** It keeps the `x-rate-limit-remaining` and `x-rate-limit-reset` values of the last response. From them it computes how long to sleep after a 429.
- **The per-endpoint request loops.** They cover followers and following, recent and full-archive search and their counts, user timelines, quote tweets, retweeting users, user lookup, tweet lookup, trends, and the stream rule listing. Each loop sends a request, sorts the status into raise / wait / retry / accept, yields the page's items, and follows `meta.next_token`.
- **The newline-delimited JSON stream readers.** These are the filtered tweet stream and the tweet and user compliance streams. Each opens a connection, reads lines until the server closes it, and reconnects with the same parameters.

How the model is built:

- The server is a script of responses (`seq<Response>`), or of connections for the streams.
- A call's observable behaviour is a `Trace`. It holds the records yielded, the parameters of every request sent, the seconds slept, and how the call ended: it returned, it raised (and why), it gave up after its retry counter ran out, or it was still running when the script ran out.
- The loops share one engine, `Pagination`. Each endpoint module gives its own `Policy`: which statuses raise early, what a 429 does, what other errors do, how the body is validated, what empty data does, what is yielded per item, and how the cursor is followed.
- `Step` and `Run` are the specification. `Execute` is the loop itself, written imperatively, and is proved equal to `Run`. It drives a `RateLimiter` object whose fields it updates in place.
- The stream readers (`Streaming.ReadConnection`, `Streaming.RunStream`) are loops too. They are proved equal to the functions `ReadLines` and `StreamRun`.
- `tweets.py` makes one request and has no loop, so `TweetLookup.GetTweetsById` is a function.

## Model

| member | source | states |
|---|---|---|
| RateLimit.WaitSeconds | src/sparta/twitterapi/rate_limiter.py:47 | the sleep is at least one second, never shorter than the time left to the reset, and equals one of the two |
| RateLimit.RateLimiter.constructor | src/sparta/twitterapi/rate_limiter.py:32-34 | a fresh limiter has neither value set, does not ask to wait, and would not sleep at any time |
| RateLimit.RateLimiter.UpdateLimits | src/sparta/twitterapi/rate_limiter.py:51-61 | the new state is `Updated(old state, headers)`: a missing remaining header reads as 1 and a missing reset header as 0; it fails exactly when a present header is not an integer |
| RateLimit.RateLimiter.WaitForLimitReset | src/sparta/twitterapi/rate_limiter.py:36-49 | no sleep while no reset time is known; otherwise `max(reset - now, 1)` seconds |
| RateLimit.UpdateOverwrites | src/sparta/twitterapi/rate_limiter.py:60-61 | after an update with readable headers the state no longer depends on the previous state |
| RateLimit.UpdateIdempotent | src/sparta/twitterapi/rate_limiter.py:60-61 | applying the same headers twice gives the same state as applying them once |
| RateLimit.MissingRemainingNeverThrottles | src/sparta/twitterapi/rate_limiter.py:60-70 | without a remaining header, remaining becomes 1, so `should_wait` stays false |
| RateLimit.ThrottlesExactlyOnZero | src/sparta/twitterapi/rate_limiter.py:60-70 | after an update whose remaining header can be read, `should_wait` holds exactly when that header reads 0 |
| RateLimit.MissingResetWaitsOneSecond | src/sparta/twitterapi/rate_limiter.py:46-61 | without a reset header, the reset becomes 0 and the next 429 sleeps exactly one second |
| RateLimit.WaitIsTimeToReset | src/sparta/twitterapi/rate_limiter.py:47 | when the reset is at least one second away, the sleep is exactly the time left |
| Text.DecimalRoundTrip | src/sparta/twitterapi/users/follower.py:93 | `int(str(n)) == n` for every integer, negative ones included |
| Text.SplitJoin | src/sparta/twitterapi/users/user.py:71 | a comma-joined list splits back into the same list when no element contains a comma |
| Http.AddIfTruthy | src/sparta/twitterapi/tweets/recent_search.py:117-122 | the key is set to the value exactly when the value is truthy; every other key is unchanged |
| Http.AddTime | src/sparta/twitterapi/tweets/recent_search.py:113-116 | the key is set exactly when a time is given; every other key is unchanged |
| Http.AddWindow | src/sparta/twitterapi/tweets/recent_search.py:113-120 | the result's keys are the old ones plus each window key whose argument is given (truthy for ids), with those values; old keys keep their values |
| Pagination.Classify | src/sparta/twitterapi/users/follower.py:100-134 | an early fatal status is fatal whatever else holds; 429 is rate-limited exactly when it is not early fatal and the endpoint treats it specially; any other ok status is accepted; a status is retried exactly when it is not ok, not early fatal, not a special 429, the endpoint retries errors, and it is not a 503 the caller asked to raise on |
| Pagination.Records | src/sparta/twitterapi/tweets/recent_search.py:147-148 | one record per `data` item, in server order, each tweet with the page's `includes` or `{}` |
| Pagination.DecodablePrefix | src/sparta/twitterapi/tweets/retweets.py:88-89 | the users yielded before a decode failure: every one of them decodes, and the next one does not |
| Pagination.Run | src/sparta/twitterapi/tweets/recent_search.py:124-153 | at most one request per scripted response |
| Pagination.HandleSuccess | src/sparta/twitterapi/tweets/recent_search.py:145-153 | the handling of an ok page equals `SuccessStep`: validation, the empty-data check, the yields, the cursor |
| Pagination.HandleResponse | src/sparta/twitterapi/tweets/recent_search.py:129-143 | the loop body equals `Step`; the limiter is updated from the headers exactly when the endpoint uses one and the status is not an early fatal one |
| Pagination.Execute | src/sparta/twitterapi/tweets/recent_search.py:124-153 | the imperative loop yields, sends, sleeps and ends exactly as `Run` says |
| PaginationProperties.RequestsPerResponse | src/sparta/twitterapi/tweets/recent_search.py:124-129 | every consumed response answers one request; the first request carries the starting parameters |
| PaginationProperties.RetryResendsSameRequest | src/sparta/twitterapi/tweets/recent_search.py:136-143 | a 429 or retried error yields nothing, sleeps once and resends the identical request |
| PaginationProperties.CleanPageStep | src/sparta/twitterapi/tweets/recent_search.py:145-153 | a clean page yields all its items and follows its token, or ends the call when it has none |
| PaginationProperties.PagesConcatenate | src/sparta/twitterapi/tweets/recent_search.py:147-153 | over clean pages linked by tokens, the caller sees every page's records in order, one request per page, each later request carrying the previous page's token |
| PaginationProperties.OnlyCursorChanges | src/sparta/twitterapi/tweets/recent_search.py:150-151 | every request equals the first one except for the cursor parameter (single-page loops: identical) |
| PaginationProperties.IgnoresValidityAndErrors | src/sparta/twitterapi/tweets/quote_tweets.py:119-126 | without validation, two scripts that differ only in validity and `errors` give the same trace |
| PaginationProperties.GivesUpWhenBudgetSpent | src/sparta/twitterapi/users/follower.py:123-134 | a counter of c > 0 gives up exactly when c retryable errors have been met over the whole call |
| PaginationProperties.NegativeBudgetNeverGivesUp | src/sparta/twitterapi/users/follower.py:123-129 | a negative counter never gives up |
| PaginationProperties.ZeroBudgetGivesUpAtOnce | src/sparta/twitterapi/users/follower.py:131-134 | a counter of 0 gives up at the first retryable error, without sleeping |
| PaginationProperties.SinglePageStopsAtFirstOk | src/sparta/twitterapi/users/user.py:75-97 | without paging, every request but the last was answered by a retried status |
| PaginationProperties.SinglePageAllOrNothing | src/sparta/twitterapi/trends/trends.py:56-77 | without paging, nothing is yielded unless the call returns, and then exactly the records of the one ok response |
| Followers.FollowParams | src/sparta/twitterapi/users/follower.py:89-94 | exactly `user.fields` and `max_results`, the latter reading back as the argument |
| Followers.IntendedTries | src/sparta/twitterapi/users/follower.py:72-73 | -1 gives a counter that never reaches zero; every other value gives the code's `n + 1` |
| Followers.GetFollowersById | src/sparta/twitterapi/users/follower.py:51-157 | the loop equals `Run` of the follower policy with the counter as the code sets it (`num_tries_on_not_ok + 1`), so the default -1 gives up at the first retryable error |
| Followers.GetFollowingById | src/sparta/twitterapi/users/follower.py:160-266 | the same loop and policy, the code's counter included, for the followed accounts |
| Followers.ClientErrorRaisesFirst | src/sparta/twitterapi/users/follower.py:100-102 | 400 to 404 raise at once, whatever the headers hold |
| Followers.RateLimitedWaitsForReset | src/sparta/twitterapi/users/follower.py:104-108 | a 429 sleeps until the announced reset (at least 1 s) and resends the same request |
| Followers.Raise503BeforeCounter | src/sparta/twitterapi/users/follower.py:117-119 | with the flag set, a 503 raises whatever the counter says |
| Followers.RetriesUntilCounterSpent | src/sparta/twitterapi/users/follower.py:96-134 | for N >= 0 the call stops silently exactly at the (N+1)-th retryable error, counted over the whole call |
| Followers.MinusOneGivesUpAtFirstError | src/sparta/twitterapi/users/follower.py:123-134 | as written, -1 gives up at the first retryable error |
| Followers.CounterZeroMatchesOne | src/sparta/twitterapi/users/follower.py:123-134 | as written, a counter at 0 behaves like a counter at 1 on every script |
| Followers.MinusOneBehavesLikeZero | src/sparta/twitterapi/users/follower.py:96 | as written, -1 gives the same trace as 0 on every script |
| Followers.IntendedMinusOneRetriesForever | src/sparta/twitterapi/users/follower.py:72-73 | with the documented counter, -1 never gives up, and every other value behaves as written |
| Followers.StaleUsersReplayed | src/sparta/twitterapi/users/follower.py:136-152 | without the raise flag, a page that fails validation yields the previous page's users a second time |
| Followers.InvalidFirstPageRaises | src/sparta/twitterapi/users/follower.py:136-146 | a first page that fails validation raises: the validation error with the flag, an unbound name without it |
| Followers.EmptyPageRaises | src/sparta/twitterapi/users/follower.py:148-149 | an ok page without users raises |
| RecentSearch.SearchParams | src/sparta/twitterapi/tweets/recent_search.py:102-122 | query and `max_results` 100 always; `sort_order` exactly when truthy, with its value; the window keys `start_time`, `end_time` (when given), `since_id`, `until_id` (when truthy) exactly as given, with their values; never `next_token` |
| RecentSearch.SearchBase | src/sparta/twitterapi/tweets/recent_search.py:102-111 | the fixed dictionary holds the query and `max_results` 100, and none of the optional keys |
| RecentSearch.CountParams | src/sparta/twitterapi/tweets/recent_search.py:193-206 | query and granularity always; the window keys `start_time`, `end_time` (when given), `since_id`, `until_id` (when truthy) exactly as given, with their values; never `max_results` or `next_token` |
| RecentSearch.GetRecentSearch | src/sparta/twitterapi/tweets/recent_search.py:67-153 | the loop equals `Run` of the search policy |
| RecentSearch.GetRecentSearchCount | src/sparta/twitterapi/tweets/recent_search.py:156-237 | the call equals the granularity check followed by `Run` of the count policy |
| RecentSearch.GranularityCheckedFirst | src/sparta/twitterapi/tweets/recent_search.py:189-190 | an unknown or missing granularity raises before any request; a known one is sent |
| RecentSearch.StatusHandling | src/sparta/twitterapi/tweets/recent_search.py:130-143 | 400 raises; 429 sleeps until the reset; any other non-ok status sleeps 10 s; both resend |
| RecentSearch.SearchPage | src/sparta/twitterapi/tweets/recent_search.py:145-153 | an ok page yields its tweets in order; a token is sent back as `next_token`; no token returns; no `meta` raises |
| RecentSearch.CountPage | src/sparta/twitterapi/tweets/recent_search.py:229-237 | an invalid count page raises; a valid one without a non-empty token yields all its buckets and returns |
| FullSearch.GetFullSearch | src/sparta/twitterapi/tweets/full_search.py:65-150 | the loop equals `Run` of the full-archive search policy |
| FullSearch.GetFullSearchCount | src/sparta/twitterapi/tweets/full_search.py:153-224 | the call equals the granularity check followed by `Run` of the count policy |
| FullSearch.GranularityCheckedFirst | src/sparta/twitterapi/tweets/full_search.py:181-197 | the default "hour" passes and is sent; an unknown granularity raises before any request |
| FullSearch.StatusHandling | src/sparta/twitterapi/tweets/full_search.py:122-133 | 400 raises; 429 and any other non-ok status sleep 5 s and resend |
| FullSearch.HeadersIgnored | src/sparta/twitterapi/tweets/full_search.py:119-133 | headers and clock never change the call: no limiter is involved |
| FullSearch.SearchPage | src/sparta/twitterapi/tweets/full_search.py:138-150 | an ok page yields its tweets; `meta` is required; without a token the call returns |
| Timeline.TimelineParams | src/sparta/twitterapi/users/timeline.py:72-91 | `max_results` 100; `exclude` exactly when a non-empty list is given, joined with commas; the window keys `start_time`, `end_time` (when given), `since_id`, `until_id` (when truthy) exactly as given, with their values |
| Timeline.GetUserTimelineById | src/sparta/twitterapi/users/timeline.py:44-118 | the loop equals `Run` of the timeline policy |
| Timeline.ExcludeRoundTrip | src/sparta/twitterapi/users/timeline.py:90-91 | the `exclude` value splits back into the given names |
| Timeline.StatusHandling | src/sparta/twitterapi/users/timeline.py:96-109 | 400 raises; otherwise unreadable headers raise; 429 sleeps until the reset and other errors 10 s, both resending |
| QuoteTweets.QuoteParams | src/sparta/twitterapi/tweets/quote_tweets.py:78-95 | `max_results` 100; the window keys `start_time`, `end_time` (when given), `since_id`, `until_id` (when truthy) exactly as given, with their values; never `pagination_token` |
| QuoteTweets.GetQuoteTweets | src/sparta/twitterapi/tweets/quote_tweets.py:49-134 | the loop equals `Run` of the quote-tweet policy |
| QuoteTweets.StatusHandling | src/sparta/twitterapi/tweets/quote_tweets.py:100-111 | 400 raises; 429 sleeps 60 s and other errors 5 s, both resending |
| QuoteTweets.ErrorsOnlyLogged | src/sparta/twitterapi/tweets/quote_tweets.py:124-126 | an `errors` key, or any validation failure, never changes the trace |
| QuoteTweets.QuotePage | src/sparta/twitterapi/tweets/quote_tweets.py:116-130 | an ok page yields its tweets; a missing `meta` returns cleanly; a token becomes `pagination_token` |
| Retweets.RetweetParams | src/sparta/twitterapi/tweets/retweets.py:59-64 | exactly the tweet fields, the user expansions, the user fields and `max_results` 100 |
| Retweets.GetRetweets | src/sparta/twitterapi/tweets/retweets.py:41-100 | the loop equals `Run` of the retweet policy |
| Retweets.StatusHandling | src/sparta/twitterapi/tweets/retweets.py:72-83 | 400 raises; 429 and other errors sleep 5 s and resend |
| Retweets.UndecodableUserAborts | src/sparta/twitterapi/tweets/retweets.py:88-89 | users are yielded up to the first that fails to decode, and that failure raises |
| Retweets.RetweetPage | src/sparta/twitterapi/tweets/retweets.py:88-100 | a page whose users all decode is yielded whole; `meta` is required; no token returns |
| UserLookup.UsernameParams | src/sparta/twitterapi/users/user.py:70-73 | exactly `usernames` (comma-joined) and `user.fields` |
| UserLookup.IdParams | src/sparta/twitterapi/users/user.py:120-123 | exactly `ids` (comma-joined) and `user.fields` |
| UserLookup.GetUsersByUsername | src/sparta/twitterapi/users/user.py:50-97 | the loop equals `Run` of the lookup policy |
| UserLookup.GetUsersByIds | src/sparta/twitterapi/users/user.py:100-147 | the same loop and policy for ids |
| UserLookup.JoinedNamesRoundTrip | src/sparta/twitterapi/users/user.py:71 | the joined names and ids split back into the given lists |
| UserLookup.StatusHandling | src/sparta/twitterapi/users/user.py:77-84 | unreadable headers raise on any status; 429 sleeps until the reset; every other non-ok status raises |
| UserLookup.AtMostOnePage | src/sparta/twitterapi/users/user.py:75-97 | every request but the last met a 429; users are yielded only when the call returns, which happens on an ok response |
| UserLookup.OkPageYieldsUsers | src/sparta/twitterapi/users/user.py:86-97 | an ok response that validates yields all its users in order and the call returns; one without users raises |
| UserLookup.RecordsOnlyAtTheEnd | src/sparta/twitterapi/users/user.py:86-97 | users are yielded only when the call returns, which it does on an ok response |
| UserLookup.InvalidPageRaises | src/sparta/twitterapi/users/user.py:86-93 | however many 429s come first, an ok response that fails validation raises |
| TweetLookup.TweetsParams | src/sparta/twitterapi/tweets/tweets.py:59-67 | the six selectors unchanged plus the comma-joined `ids` |
| TweetLookup.GetTweetsById | src/sparta/twitterapi/tweets/tweets.py:43-83 | one request; non-ok raises with nothing yielded; ok yields one tweet per item, in order, with the page's `includes` |
| TweetLookup.AgreesWithSingleShotLoop | src/sparta/twitterapi/tweets/tweets.py:69-77 | the function equals the shared loop under a policy that never retries and never pages |
| TweetLookup.IdsRoundTrip | src/sparta/twitterapi/tweets/tweets.py:60 | the `ids` value splits back into the given ids |
| Trends.TrendsParams | src/sparta/twitterapi/trends/trends.py:53 | exactly `max_trends`, reading back as the argument |
| Trends.GetTrendsByWoeid | src/sparta/twitterapi/trends/trends.py:38-77 | the loop equals `Run` of the trends policy |
| Trends.StatusHandling | src/sparta/twitterapi/trends/trends.py:59-76 | 400 raises; 429 sleeps 900 s and other errors 10 s, both resending; a valid ok page without trends raises |
| Trends.ReturnsOnePage | src/sparta/twitterapi/trends/trends.py:72-77 | the returned list is exactly the `data` of the ok response that ended the call; nothing is returned otherwise |
| Streaming.OneRecordPerLine | src/sparta/twitterapi/tweets/filtered_stream.py:207-220 | keep-alive lines yield nothing; a parsed tweet line yields exactly one tweet (`{}` for missing parts); an event line yields one event exactly when it parses and decodes |
| Streaming.FirstEof | src/sparta/twitterapi/tweets/filtered_stream.py:204-206 | the position of the first `Eof`: no line before it is an `Eof`, and it is one unless it is the end of the lines |
| Streaming.ReadLinesStopsAtEof | src/sparta/twitterapi/tweets/filtered_stream.py:203-206 | a connection yields exactly what the lines before its first `Eof` yield, in arrival order |
| Streaming.ReadLinesAppend | src/sparta/twitterapi/tweets/filtered_stream.py:203-220 | reading splits at any point before the close: the records of the parts, concatenated |
| Streaming.SilentLineDropped | src/sparta/twitterapi/compliance/compliance_stream.py:92-102 | a keep-alive line, or one that fails to parse or decode, changes nothing, wherever it arrives |
| Streaming.ReadConnection | src/sparta/twitterapi/tweets/filtered_stream.py:203-220 | the inner loop yields exactly `ReadLines`, and reports the connection closed exactly when an `Eof` arrived |
| Streaming.StreamRun | src/sparta/twitterapi/tweets/filtered_stream.py:198-202 | at most one request per connection, and no sleeping |
| Streaming.RunStream | src/sparta/twitterapi/tweets/filtered_stream.py:198-220 | the outer loop opens, reads and reconnects exactly as `StreamRun` says |
| Streaming.NeverFinishes | src/sparta/twitterapi/compliance/compliance_stream.py:83-91 | a stream never returns: it raises on a failed open or is still running; every request carries the same parameters |
| Streaming.ReconnectsConcatenate | src/sparta/twitterapi/tweets/filtered_stream.py:198-206 | after cleanly closed connections, the caller has every connection's records in order and one identical request per connection |
| Streaming.OpenFailureAfter | src/sparta/twitterapi/tweets/filtered_stream.py:198-206 | clean connections followed by any script: their records and requests, then whatever the rest of the script gives |
| Streaming.OpenFailureRaises | src/sparta/twitterapi/tweets/filtered_stream.py:200-202 | a failed open after clean connections raises with its status, having yielded all earlier records |
| FilteredStream.RulesParams | src/sparta/twitterapi/tweets/filtered_stream.py:109-113 | `max_results` 500; `ids` exactly when a non-empty list is given, comma-joined |
| FilteredStream.GetRules | src/sparta/twitterapi/tweets/filtered_stream.py:93-131 | the loop equals `Run` of the rules policy |
| FilteredStream.RuleIdsRoundTrip | src/sparta/twitterapi/tweets/filtered_stream.py:112-113 | the `ids` value splits back into the given rule ids |
| FilteredStream.NotOkRaises | src/sparta/twitterapi/tweets/filtered_stream.py:117-118 | every non-ok status raises at once, 429 and 5xx included |
| FilteredStream.EmptyPageReturns | src/sparta/twitterapi/tweets/filtered_stream.py:120-123 | an invalid page raises; a page without rules returns, even when it carries a token |
| FilteredStream.RulesPage | src/sparta/twitterapi/tweets/filtered_stream.py:125-131 | the rules are yielded in order; a non-empty token becomes `pagination_token`; no token returns; no `meta` raises |
| FilteredStream.StreamParams | src/sparta/twitterapi/tweets/filtered_stream.py:183-196 | `backfill_minutes` always, reading back as the argument (0 included); the window only when given |
| FilteredStream.GetStream | src/sparta/twitterapi/tweets/filtered_stream.py:159-220 | the stream equals `StreamRun` of filtered tweets with these parameters |
| FilteredStream.EveryConnectionSendsBackfill | src/sparta/twitterapi/tweets/filtered_stream.py:190 | every connection, reconnects included, sends the same `backfill_minutes` |
| ComplianceStream.ComplianceParams | src/sparta/twitterapi/compliance/compliance_stream.py:74-81 | `partition` as a decimal string; `backfill_minutes` exactly when it is neither `None` nor 0; the window only when given |
| ComplianceStream.GetTweetComplianceStream | src/sparta/twitterapi/compliance/compliance_stream.py:51-102 | the stream equals `StreamRun` of compliance events with these parameters |
| ComplianceStream.GetUserComplianceStream | src/sparta/twitterapi/compliance/compliance_stream.py:105-156 | the same stream for user compliance events |
| ComplianceStream.ReconnectRepeatsParams | src/sparta/twitterapi/compliance/compliance_stream.py:83-91 | every connection repeats the first one's parameters, the backfill choice included; the stream never returns |
| ComplianceStream.EventsSurviveReconnect | src/sparta/twitterapi/compliance/compliance_stream.py:88-102 | two events, a close, then one more event: all three arrive in order over two identical requests |

## Left out

- HTTP itself: sessions, headers with the bearer token, URLs and URL paths. Ids that appear only in a URL path (user, tweet, location) are arguments that the model does not use.
- Sleeping and the clock. A sleep is recorded in the trace as its duration. The time `int(time.time())` is the `clock` field of the response being handled.
- Asynchronous execution, cancellation, and exceptions thrown into a generator by its consumer.
- JSON parsing and pydantic validation. They are abstract per-response flags (`valid`, `decodesAsUser`) and per-line flags (`parses`, `decodes`). Every body that is read is assumed to be JSON: a failing `response.json()` is not modelled. This matters most in the follower loop, which reads the body as JSON before it tests `response.ok` (follower.py:110-112 and 219-221). There a non-ok response whose body is not JSON (a 503 error page, say) raises, while the model retries it or counts it against the counter.
- Formatting: `strftime` (a time argument is its already formatted string) and log messages, including the `" | "` join of a validation error.
- `compliance.py` (one-shot job calls and file I/O), `usage.py`, `add_or_delete_rules` in `filtered_stream.py`, the pydantic models and the tests are not part of this model.
- The field-selector lists are copied as constants, but nothing depends on their contents.
- Text.ParseInt: accepts only an optional `-` followed by ASCII digits. Python's `int()` also accepts surrounding whitespace, a `+` sign and underscores between digits; such a header value is read as malformed here.
- Streams run forever. A finite script of connections bounds them, and the outcome `InputExhausted` means "still running".
- Transport failures. Neither the stream loops nor the paging loops catch exceptions from `session.get` or from reading the body. A connection or payload error from aiohttp therefore ends the call instead of reconnecting or retrying. So does a stream line longer than `read_bufsize` (2**21 bytes, filtered_stream.py:182). In the model a response always arrives, and a stream connection ends only with an `Eof` or a non-ok open. `Streaming.NeverFinishes` and `Streaming.ReconnectsConcatenate` therefore say nothing about such failures.
- A stream reconnect sends exactly the parameters of the first connection (`ComplianceStream.ReconnectRepeatsParams`, `FilteredStream.EveryConnectionSendsBackfill`); no backfill is computed for the gap, so events the server sent while disconnected are recovered only as far as the original `backfill_minutes` reaches.
- The docstrings of `user.py` promise pagination, but the code accepts exactly one page; the model follows the code (`UserLookup.AtMostOnePage`).

## Findings

| source | as written | input that shows it | evidently intended | confidence | as-written member | corrected member |
|---|---|---|---|---|---|---|
| src/sparta/twitterapi/users/follower.py:96 | the retry counter starts at `num_tries_on_not_ok + 1`, so the default -1 starts it at 0, and the loop gives up at the first retryable error | `num_tries_on_not_ok=-1` (the default) and a first response with status 503 | -1 retries without limit, as the docstring at lines 72-73 says | not executed | Followers.MinusOneGivesUpAtFirstError | Followers.IntendedMinusOneRetriesForever |
