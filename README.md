# Rate limiter and analytics service, modelled in Dafny

The service accepts social-media submissions over HTTP, rate-limits them per
user and tier, stores each one in Redis with the hashtags extracted from its
content, and serves a per-user dashboard that counts the user's submissions,
ranks their hashtags and averages their sentiment scores.

This project models the three parts of that service that hold its logic, on
an explicit single-threaded model of the Redis store:

- `Store` (`store.dfy`): the store as a value (`StoreState`: counters,
  counter expiries, a clock, hash records, sorted sets) and as a class
  `Redis` whose methods INCR, EXPIRE, TTL, HSET, HGETALL, ZADD and ZRANGE
  change or read its fields, each proved equal to a function on the value.
  `Tick` advances the clock and drops every counter whose expiry has passed.
  Sorted sets (`sorted_set.dfy`) are kept ordered by score, then by member.
- `RateLimiter` (`rate_limiter.dfy`): the tier table built from the
  environment settings, and `isRateLimited`, the fixed-window limiter with a
  minute counter and an hour counter per user and tier.
- `BackgroundTasks` (`background_tasks.dfy`): the `#word` hashtag scanner,
  and `processSubmission`, which writes the record `submission:{id}` and then
  adds the id to the timeline `user:{userId}:submissions`.
- `Ranking` (`ranking.dfy`) and `App` (`app.dfy`): the submit handler
  (validate, then rate-limit, then store) and the dashboard handler, whose
  loop is proved equal to a pure aggregate over the fetched records; the
  tag map keeps JavaScript's insertion order, and the ranking is a stable
  sort by descending count cut to ten tags.
- `Text` (`text.dfy`): splitting on a separator, joining with it, and
  dropping empty pieces, with the round trips between them.

## Model

| member | source | states |
|---|---|---|
| Text.Split | src/app.js:110 | splitting gives at least one piece and no piece holds the separator |
| Text.Join | src/services/backgroundTasks.js:32 | the joined string is empty exactly when there are no pieces or a single empty one |
| Text.JoinSeparators | src/services/backgroundTasks.js:32 | joining n separator-free pieces yields exactly n - 1 separators |
| Text.NonEmpty | src/app.js:111-112 | the kept pieces are non-empty and come from the input, and every non-empty piece is kept exactly as often as it occurs |
| Text.JoinOfSplit | src/app.js:110 | joining the pieces of a split with the same separator gives back the string |
| Text.SplitOfJoin | src/services/backgroundTasks.js:32 | splitting a join of separator-free pieces gives back the pieces |
| Text.NonEmptyKeepsNonEmpty | src/app.js:112 | dropping empty pieces from pieces that are all non-empty changes nothing |
| SortedSet.Members | src/app.js:87 | ZRANGE 0 -1 lists one member per entry, in the set's order |
| SortedSet.Remove | src/services/backgroundTasks.js:37-40 | removing a member keeps exactly the entries of other members |
| SortedSet.Insert | src/services/backgroundTasks.js:37-40 | inserting adds exactly the new entry |
| SortedSet.Add | src/services/backgroundTasks.js:37-40 | after ZADD the set holds the member with the new score and exactly the entries of the other members |
| SortedSet.AddSpec | src/services/backgroundTasks.js:37-40 | ZADD keeps the set sorted and duplicate-free, gives the member the new score, keeps every other entry, and the member is listed afterwards |
| SortedSet.SortedSetDeterminedByEntries | src/app.js:87 | two sorted sets with the same entries are equal, so ZRANGE's order does not depend on insertion history |
| Store.Incremented | src/middleware/rateLimiter.js:23-24 | INCR adds one to the key's count (an absent key counts 0) and changes no other key, expiry or record |
| Store.WithExpiry | src/middleware/rateLimiter.js:26-27 | EXPIRE on an existing counter sets its expiry to now plus the seconds; on an absent key it does nothing |
| Store.RemainingTtl | src/middleware/rateLimiter.js:30 | TTL is positive for a counter with an expiry in a well-formed store and never negative |
| Store.Advanced | src/middleware/rateLimiter.js:26-27 | the clock moves on by the elapsed seconds; records and sorted sets stay |
| Store.AdvancedSurvivors | src/middleware/rateLimiter.js:26-27 | after the elapsed seconds exactly the counters whose expiry has not come are left, each with its count and expiry |
| Store.IncrementedWellFormed | src/middleware/rateLimiter.js:23-24 | INCR keeps every count at least 1 and every expiry on an existing key |
| Store.WithExpiryWellFormed | src/middleware/rateLimiter.js:26-27 | EXPIRE keeps every expiry ahead of the clock and on an existing key |
| Store.AdvancedWellFormed | src/middleware/rateLimiter.js:26-27 | moving the clock keeps every remaining expiry ahead of it |
| Store.WithRecord | src/services/backgroundTasks.js:28-34 | HSET makes the record readable under its key and leaves every other record, counter and sorted set |
| Store.WithRecordWellFormed | src/services/backgroundTasks.js:28-34 | HSET keeps the store well formed |
| Store.WithMember | src/services/backgroundTasks.js:37-40 | ZADD changes only the named sorted set, and that one as SortedSet.Add says |
| Store.WithMemberWellFormed | src/services/backgroundTasks.js:37-40 | ZADD keeps every sorted set sorted |
| Store.Redis.Incr | src/middleware/rateLimiter.js:23-24 | returns the incremented count and leaves the store as Store.Incremented |
| Store.Redis.Expire | src/middleware/rateLimiter.js:26-27 | reports whether the key existed and leaves the store as Store.WithExpiry |
| Store.Redis.Ttl | src/middleware/rateLimiter.js:30 | returns the key's remaining time to live |
| Store.Redis.Tick | src/middleware/rateLimiter.js:26-27 | leaves the store as Store.Advanced |
| Store.Redis.HSet | src/services/backgroundTasks.js:28-34 | leaves the store as Store.WithRecord |
| Store.Redis.HGetAll | src/app.js:97 | returns the record under the key, or none |
| Store.Redis.ZAdd | src/services/backgroundTasks.js:37-40 | leaves the store as Store.WithMember, still well formed |
| Store.Redis.ZRange | src/app.js:87 | returns the members of the sorted set in order |
| RateLimiter.ConfiguredLimitFallback | src/middleware/rateLimiter.js:3-16 | an unset, unparseable or zero setting leaves the default (10/100, 50/500, 200/2000); any other parsed value replaces it |
| RateLimiter.RateLimits | src/middleware/rateLimiter.js:3-16 | no ceiling in the table is 0: a zero or unparseable setting falls back to its default |
| RateLimiter.LimitsFor | src/middleware/rateLimiter.js:19 | a tier other than free, standard or premium gets the free ceilings |
| RateLimiter.UnknownTierUsesFree | src/middleware/rateLimiter.js:19 | a call with an unknown tier behaves exactly as one limited by the free ceilings |
| RateLimiter.LookupAsWritten | src/middleware/rateLimiter.js:19 | the property read finds an own entry exactly for free, standard and premium (the same ceilings the corrected lookup gives), an inherited member exactly for the `Object.prototype` names, and nothing otherwise |
| RateLimiter.RejectsAsWritten | src/middleware/rateLimiter.js:19-29 | the limit test as written rejects only where the corrected lookup rejects too |
| RateLimiter.KeyWindows | src/middleware/rateLimiter.js:20-21 | the minute key and the hour key differ and are told apart by their suffix |
| RateLimiter.Counted | src/middleware/rateLimiter.js:23-27 | the two INCRs and the conditional EXPIREs raise both counters by one; a counter created by its INCR gets now plus 60 or 3600 seconds, any other keeps its expiry; clock, records and sorted sets stay |
| RateLimiter.CountedIsTheCommands | src/middleware/rateLimiter.js:23-27 | Counted is exactly INCR of the minute key, INCR of the hour key, then EXPIRE 60 on the minute key if its INCR made it 1 and EXPIRE 3600 on the hour key if its INCR made it 1 |
| RateLimiter.CountedFrame | src/middleware/rateLimiter.js:23-27 | no key but the caller's two counters gains, loses or changes an expiry |
| RateLimiter.CountedWellFormed | src/middleware/rateLimiter.js:23-27 | the call's store writes keep the store well formed |
| RateLimiter.AdmitAt | src/middleware/rateLimiter.js:23-33 | for a caller's two distinct counter keys, the call is rejected iff either new count is above its ceiling, with the minute key's remaining TTL as retry value |
| RateLimiter.Admit | src/middleware/rateLimiter.js:18-34 | both counters go up by one; the call is rejected iff either new count is above its ceiling; on rejection the retry value is the minute key's remaining TTL |
| RateLimiter.Check | src/middleware/rateLimiter.js:18-34 | against the tier's ceilings from the table: both counters of the user and tier go up by one; the call is rejected iff either new count is above its ceiling, with the minute key's remaining TTL as retry value |
| RateLimiter.IsRateLimited | src/middleware/rateLimiter.js:18-34 | the store steps leave the state Admit gives; returns true with the retry value exactly when Admit rejects, and false with none otherwise |
| RateLimiter.AdmitTouchesOnlyItsCounters | src/middleware/rateLimiter.js:20-24 | only the caller's two counters change, by one each, and only their expiries; records, timelines and the clock stay |
| RateLimiter.TtlSetOnlyByFirstIncrement | src/middleware/rateLimiter.js:26-27 | a counter gets a TTL of 60 or 3600 seconds only from the increment that makes it 1; other increments leave its expiry unchanged |
| RateLimiter.AdmitKeepsWindowsFixed | src/middleware/rateLimiter.js:23-27 | every counter keeps an expiry no further off than its window |
| RateLimiter.AdvanceKeepsWindowsFixed | src/middleware/rateLimiter.js:26-27 | the passing of time keeps that invariant |
| RateLimiter.RetryAfterWithinMinute | src/middleware/rateLimiter.js:26-31 | on rejection the retry value lies between 1 and 60 seconds |
| RateLimiter.Expected | src/middleware/rateLimiter.js:29-33 | the decision for a count and the seconds left of the minute window: rejected iff the count is above either ceiling, and then with those seconds as retry value |
| RateLimiter.AdmitOpensWindows | src/middleware/rateLimiter.js:23-33 | from no counters, a call after a pause creates both at 1, with windows of 60 and 3600 seconds from that moment, and decides as Expected for count 1 |
| RateLimiter.AdmitInsideWindow | src/middleware/rateLimiter.js:23-33 | inside an open minute window with both counters at c, a call after a pause takes both to c + 1, keeps both windows, and decides as Expected for c + 1 with the seconds left of the minute |
| RateLimiter.ExpectedRunAt | src/middleware/rateLimiter.js:29-33 | the i-th expected decision of a run is the one for count c + i + 1 with the seconds left of the window after the first i + 1 pauses |
| RateLimiter.AdmitManyInsideWindow | src/middleware/rateLimiter.js:23-33 | a run of calls with pauses that stays inside one minute window with both counters at c decides call by call as the expected run: the i-th call sees count c + i + 1 and the seconds then left of the window |
| RateLimiter.FirstWindowAdmitsExactlyPerMinute | src/middleware/rateLimiter.js:23-33 | with per-minute at most per-hour and no counters yet, of per-minute + 1 calls spread over less than a minute from the first, the first per-minute are admitted and the last is rejected with what is left of the first call's minute, between 1 and 60 seconds |
| RateLimiter.MinuteWindowResets | src/middleware/rateLimiter.js:26-29 | after 60 seconds the minute counter is gone and restarts at 1, so a caller under the hour ceiling is admitted again |
| RateLimiter.CallsAreIsolated | src/middleware/rateLimiter.js:20-24 | a call never moves the counters of a (user, tier) pair whose keys differ |
| RateLimiter.SharedKeysWhenIdsHoldColons | src/middleware/rateLimiter.js:20-21 | the key format is not injective: ids holding `:` can share counters |
| RateLimiter.PrototypeTierNeverLimitedAsWritten | src/middleware/rateLimiter.js:19 | as written, a tier named after an inherited object property is never rejected |
| RateLimiter.AsWrittenDiffersOnlyOnPrototypeNames | src/middleware/rateLimiter.js:19 | the written lookup and the corrected one decide alike on every other tier, and part on `constructor` |
| RateLimiter.PrototypeTierLimitedAsFree | src/middleware/rateLimiter.js:19 | with the corrected lookup a `constructor` tier is rejected once it reaches the free ceiling |
| BackgroundTasks.WordEnd | src/services/backgroundTasks.js:5 | the end of the maximal run of word characters from a position |
| BackgroundTasks.ScanHashtags | src/services/backgroundTasks.js:5-6 | every scanned tag is non-empty and made of word characters |
| BackgroundTasks.ExtractHashtags | src/services/backgroundTasks.js:4-7 | every tag is non-empty and holds no comma |
| BackgroundTasks.TagStarts | src/services/backgroundTasks.js:5 | lists exactly the positions holding `#` followed by a word character, in increasing order |
| BackgroundTasks.ScanFindsEveryStart | src/services/backgroundTasks.js:5-6 | the scan yields the tag at every tag start, in order |
| BackgroundTasks.ExtractHashtagsFindsEveryTag | src/services/backgroundTasks.js:5-6 | the tags are the maximal word runs after each `#` followed by a word character, in order, repeats kept |
| BackgroundTasks.NoTagsIffNoTagStart | src/services/backgroundTasks.js:5 | no tags exactly when no `#word` occurs, and then the stored field is the empty string |
| BackgroundTasks.RecordFor | src/services/backgroundTasks.js:28-34 | the stored hashtags field is empty exactly when the content has no tag, and otherwise splits back on commas into the extracted tags |
| BackgroundTasks.Processed | src/services/backgroundTasks.js:26-56 | the call reports success exactly when no write fails, and a failed call adds nothing to any timeline |
| BackgroundTasks.RepeatedTagsKept | src/services/backgroundTasks.js:5-6 | `#a #b #a` yields a, b, a |
| BackgroundTasks.ProcessSubmission | src/services/backgroundTasks.js:16-57 | the two writes leave the store and outcome that Processed gives |
| BackgroundTasks.ProcessedStoresRecordAndIndex | src/services/backgroundTasks.js:22-40 | on success the record holds platform, content, timestamp, joined tags and sentiment, and the id is in the timeline with its score |
| BackgroundTasks.ProcessedFailures | src/services/backgroundTasks.js:26-56 | a failed record write changes nothing; a failed timeline write keeps the record and the timelines; both report the error |
| BackgroundTasks.ProcessedTouchesOnlyItsKeys | src/services/backgroundTasks.js:22-40 | no record but `submission:{id}`, no sorted set but the user's timeline, no counter and not the clock changes |
| BackgroundTasks.ProcessedKeepsTimelinesBacked | src/services/backgroundTasks.js:28-40 | whatever write fails, every timeline id keeps its record |
| Ranking.Tags | src/app.js:125 | the map's keys, one per entry, in map order |
| Ranking.Bump | src/app.js:113 | counting a tag keeps the key order and appends a new key last |
| Ranking.BumpCounts | src/app.js:113 | counting a tag adds one to that tag's count and to no other |
| Ranking.BumpKeepsDistinct | src/app.js:113 | counting a tag keeps every key once |
| Ranking.Tally | src/app.js:109-115 | the map has at most one entry per counted tag and is empty exactly when no tag was counted |
| Ranking.TallyDistinct | src/app.js:109-115 | the tag map holds each tag once |
| Ranking.TallyKeys | src/app.js:109-115 | the map's keys are the tags in order of first occurrence |
| Ranking.TallyOrder | src/app.js:109-115 | the map's keys are the tags in order of first occurrence, and exactly the tags that occur |
| Ranking.TallyOccurrences | src/app.js:109-115 | each tag's count is its number of occurrences |
| Ranking.TallyCounts | src/app.js:109-115 | the map holds each tag once, in order of first occurrence, with its number of occurrences |
| Ranking.InsertPosition | src/app.js:125-126 | the insertion point lies after every entry with a higher count and before the first entry with a count no higher |
| Ranking.InsertByCount | src/app.js:125-126 | inserting keeps every entry and adds the new one |
| Ranking.SortByCount | src/app.js:125-126 | the sort is a permutation |
| Ranking.SortByCountOrder | src/app.js:125-126 | the sort orders counts non-increasingly and keeps equal counts in map order |
| Ranking.SortKeepsDistinct | src/app.js:125-126 | the sort keeps tags distinct |
| Ranking.TopHashtags | src/app.js:125-128 | ten tags, or every tag of the map when it has fewer |
| Ranking.TopHashtagsShape | src/app.js:125-128 | at most ten tags, none twice, all from the map |
| Ranking.TopHashtagsOrder | src/app.js:125-128 | counts never rise along the list and ties keep insertion order |
| Ranking.TopHashtagsKeepHighest | src/app.js:125-128 | no tag left out has a higher count than one kept |
| Ranking.TopOfTally | src/app.js:109-128 | over a list of tags, the ranking holds at most ten distinct occurring tags, by non-increasing number of occurrences, ties in first-seen order, none left out more frequent than one kept |
| App.TierOf | src/app.js:28 | a missing or empty tier header gives `free` |
| App.SubmitOutcome | src/app.js:24-66 | 400 exactly for a malformed request; 200 only with the given id and only when no write fails; 500 only when a write fails |
| App.Submit | src/app.js:24-66 | the handler's steps leave the store and response SubmitOutcome gives |
| App.MalformedSubmitChangesNothing | src/app.js:31-36 | 400 exactly when user id, platform or content is missing or empty, and then the store is untouched |
| App.LimitedSubmitStoresNothing | src/app.js:40-48 | a limited request gets 429 with the minute TTL, is still counted, and stores no record or timeline entry |
| App.MissingTierIsFree | src/app.js:28 | without a tier header a request is handled as tier `free` |
| App.AcceptedSubmitIsStored | src/app.js:40-57 | 200 exactly when well formed, admitted and both writes succeed; then the record is stored under the returned id and the id is in the user's timeline |
| App.SubmitKeepsTimelinesBacked | src/app.js:24-66 | no request leaves a timeline id without its record |
| App.Matches | src/app.js:102 | without a filter every record is counted; a missing record is counted only without a filter |
| App.Kept | src/app.js:101-104 | without a filter every fetched record is kept |
| App.KeptMembers | src/app.js:101-104 | the kept records are exactly the fetched records that pass the filter |
| App.TagsOf | src/app.js:109-114 | a record contributes only non-empty, comma-free tags |
| App.Mean | src/app.js:133 | a positive count times the score gives the total; no records give 0 |
| App.Fetched | src/app.js:95-97 | the record of each timeline id, in order |
| App.BumpPieces | src/app.js:110-115 | the inner loop leaves the map counting the non-empty pieces too |
| App.CountSubmission | src/app.js:106-121 | one counted record adds one mention, its tags and its sentiment |
| App.Aggregate | src/app.js:101-133 | mentions never exceed the fetched records and equal them without a filter; at most ten tags; no mention gives no tags and a 0 score |
| App.DashboardFor | src/app.js:69-147 | 400 exactly without a user id; otherwise the mentions never exceed the timeline's length |
| App.Dashboard | src/app.js:69-147 | the loop's result equals the pure aggregate over the user's timeline, or 400 without a user id |
| App.EmptyFilterIsNoFilter | src/app.js:102 | an empty platform parameter is the same as none |
| App.UnfilteredCountsEveryEntry | src/app.js:95-106 | without a filter every timeline entry is a mention |
| App.KeptCountsMatches | src/app.js:101-106 | the number of kept records is the number of timeline positions that pass the filter |
| App.MentionsCountMatches | src/app.js:95-106 | `mentions_count` is the number of timeline positions that pass the filter |
| App.TagFrequency | src/app.js:109-115 | a tag's count is its number of occurrences across counted records, repeats in one record included |
| App.RejectedRecordNotKept | src/app.js:102-104 | a record the filter rejects is dropped wherever it stands |
| App.RejectedRecordIgnored | src/app.js:102-104 | a record the filter rejects changes nothing in the response |
| App.NoMatchesGiveEmptyView | src/app.js:119-133 | with nothing matching, 0 mentions, no hashtags and a 0 score |
| App.StoredHashtagsRoundTrip | src/app.js:109-114 | the tags the dashboard reads back from a stored record are exactly the extracted tags |
| App.DashboardTopHashtags | src/app.js:125-128 | at most ten distinct tags from counted records, by non-increasing frequency, ties in first-seen order, none left out more frequent |
| App.AcceptedSubmissionIsCounted | src/app.js:50-57 | after a 200, the user's dashboard filtered on its platform counts at least one mention |

## Left out

- HTTP transport: routing, CORS, JSON parsing, status codes and headers are replaced by request and response datatypes.
- Logging (winston and console), the health check, the listen call and SIGTERM handling.
- The debug scan of all keys on the dashboard: its result is only logged.
- BackgroundTasks.Processed: the read-back after both writes (HGETALL and ZSCORE, src/services/backgroundTasks.js:43-44) is not modelled. Its values are only logged, but it runs inside the `try`, so if it fails the error is rethrown and submit answers 500 with both writes already applied; that outcome is not among the modelled ones.
- `calculateSentiment`, a call into an external sentiment library: the score is an input.
- Floating point: sentiment is a real already parsed, so `toString`, `parseFloat`, NaN and rounding in the division are not modelled.
- The ISO timestamp's conversion to epoch seconds: the epoch score is an input; the timestamp string is stored as given.
- UUID generation: the submission id is an input.
- Atomicity and concurrent interleavings of Redis calls: every store call is one step of a single-threaded store.
- Store.RemainingTtl: returns 0 for an absent key or a key without expiry instead of Redis's -2 and -1 sentinels.
- Store.RemainingTtl: the clock counts whole seconds and the TTL is expiry minus now. Redis keeps expiries in milliseconds and rounds the TTL it reports, so a live key with under half a second left answers 0; RateLimiter.RetryAfterWithinMinute therefore holds only on the whole-second clock.
- RateLimiter.RetryAfterWithinMinute: its lower bound of 1 second rests on the whole-second clock (see Store.RemainingTtl); Redis can report 0 for a minute key about to expire.
- Store errors in the rate limiter, in the dashboard and in the read-back of `processSubmission` (each of which the handlers turn into 500) are not modelled; only the two writes of `processSubmission` (HSET and ZADD) can fail, through the `fault` input, and a failed write is modelled as not applied.
- The environment settings are given already parsed (`Option<int>`), not as strings through `parseInt`.
- Query parameters and body fields that are not strings (arrays, numbers) are not modelled: each is a present or absent string.
- Records are typed: a record missing some of its fields, written by other code, is not modelled.
- RateLimiter.IsRateLimited: uses the corrected tier lookup, not the one that lets inherited property names through (see Findings).
- RateLimiter.Check: uses the corrected tier lookup (see Findings).
- App.Submit: rate-limits through the corrected tier lookup (see Findings).
- App.SubmitOutcome: rate-limits through the corrected tier lookup (see Findings).
- RateLimiter.SharedKeysWhenIdsHoldColons: the collision of counter keys for ids holding `:` is recorded, not corrected, because it follows from the key format the store keeps.

## Findings

| source | as written | input that shows it | evidently intended | confidence | as-written member | corrected member |
|---|---|---|---|---|---|---|
| src/middleware/rateLimiter.js:19 | the tier table is a plain object, so a tier such as `constructor`, `toString` or `__proto__` finds an inherited value; its `per_minute` and `per_hour` are undefined, both comparisons are false and the caller is never limited | header `X-User-Tier: constructor` on every request | a tier without its own entry is limited as `free` | high, not executed | RateLimiter.PrototypeTierNeverLimitedAsWritten | RateLimiter.PrototypeTierLimitedAsFree |
