# nost: request guards and record builders, in Dafny

This project models the core of `nost`, a Twitch-community API server. It
covers three parts.

**The ddos layer.**
- `GlobalRateLimiter` is a process-wide fixed-window request counter. Its
  "under attack" flag comes from a hard cap and a rate test taken at each
  rollover.
- `IpBlacklist` is a deny-list whose entries expire after a block duration.
- `ActivityDetector` tracks failure streaks, path diversity and request bursts
  per client.
- `ddos_protection_middleware` chains these in a fixed order: address parse,
  deny-list, path check, burst check, global limiter, downstream handler,
  failure accounting, security headers.
- The background task sweeps the deny-list and the detector.

**The API middlewares.**
- A per-client fixed-window `RateLimiter`, and the middleware that turns its
  answer into `X-RateLimit-*` headers or a 429.
- The bearer-token check.

**The record types.**
- The `tables` crate's `users`, `subgifts` and `bits` records: constructors,
  the user builder's normalisation, validation, and the column, placeholder
  and value lists their inserts and updates bind.
- The application's `SubTier` enum and `User` builder.
- The proxy's `Subgift` and `Bits` builders.

**How the model is built.**
- The three ddos leaves, the ddos state and the per-client rate limiter are
  classes whose fields are the Rust structs' mutex-guarded maps, counters and
  flags.
- Each mutating method is proved equal to a pure step function of the old
  field values. The properties are lemmas about those functions.
- `DdosProtectionState.Handle` runs the pipeline on the three shared objects.
  It is proved to agree with the function `DdosMiddleware.Protect`.
- Statement building (`create`, `update`) is written as methods that push onto
  local column and value lists, as the Rust code does. Everything else is
  datatypes and functions.

Inputs the model takes as parameters:
- The current time is `now`, in milliseconds (`Instant::now`, `Utc::now`,
  `now_utc`).
- The address parser (`IpAddr::from_str`) is a function argument.
- The downstream handler is the status it answers with.
- Whether a row exists (`User::get` in `update`) is a boolean argument.

## Model

| member | source | states |
|---|---|---|
| Text.DecimalRoundTrip | crates/tables/src/lib.rs:228 | the `to_string` rendering of a number reads back as that number |
| Text.DecimalInjective | crates/tables/src/lib.rs:228 | distinct numbers render to distinct strings |
| Text.Decimal | crates/tables/src/user.rs:159 | the rendering is non-empty, all digits, without a leading zero |
| Text.JoinAppend | crates/tables/src/lib.rs:104 | joining one more part appends the separator and that part |
| Text.CountJoin | crates/tables/src/lib.rs:104 | a character absent from the separator and once in each part occurs once per part in the join |
| Text.TrimStart | src/ddos/middleware.rs:27 | the result is a suffix, everything dropped is whitespace, and it does not start with whitespace |
| Text.TrimEnd | src/ddos/middleware.rs:27 | the result is a prefix, everything dropped is whitespace, and it does not end with whitespace |
| Text.TrimShape | src/ddos/middleware.rs:27 | `trim` returns a slice of its input preceded and followed only by whitespace |
| Text.TrimEdges | src/ddos/middleware.rs:27 | a non-empty trimmed string neither starts nor ends with whitespace |
| Text.TrimPlain | src/middleware.rs:158 | a string without surrounding whitespace is unchanged by `trim` |
| Text.TrimKeepsOnly | src/middleware.rs:158 | trimming only removes characters |
| Text.FirstField | src/ddos/middleware.rs:24-26 | the first `split(',')` item is the prefix before the first comma, or the whole string |
| Text.FirstFieldWithoutSep | src/ddos/middleware.rs:24-26 | without a comma the first item is the whole string |
| Net.ForwardedClient | src/ddos/middleware.rs:19-27 | the client key holds no comma and no surrounding whitespace; a missing or unreadable header gives "unknown" |
| Net.KeyOf | src/ddos/middleware.rs:23-27 | the first comma field, trimmed: no comma and no edge whitespace |
| Net.UnknownIsPlain | src/ddos/middleware.rs:23-27 | the fallback "unknown" survives the split and the trim |
| Net.ForwardedClientOfText | src/middleware.rs:150-159 | the key is made of the header's characters, and a bare address is its own key |
| Ddos.RateTestCrossMultiplied | src/ddos/mod.rs:54-61 | the f64 rate test "rate > 80% of allowed rate" is `5*count*window > 4*max*elapsed` |
| Ddos.RolloverResets | src/ddos/mod.rs:52-69 | at a rollover the count restarts at 1 from `now` and the flag is exactly the rate test on the closed window |
| Ddos.WithinWindowCounts | src/ddos/mod.rs:70-84 | inside one window each call adds one, keeps the start, and sets the flag once the cap is passed |
| Ddos.AttackAnsweredUntilRollover | src/ddos/mod.rs:70-87 | once flagged or at the cap, every further call in the window answers "under attack" |
| Ddos.Answers | src/ddos/mod.rs:41-88 | successive calls give one answer each |
| Ddos.GlobalRateLimiter.constructor | src/ddos/mod.rs:29-38 | zero count, window starting now, not under attack, window in milliseconds |
| Ddos.GlobalRateLimiter.TrackRequest | src/ddos/mod.rs:41-88 | the new fields are one `Track` step and the answer is the new flag |
| Ddos.GlobalRateLimiter.IsUnderAttack | src/ddos/mod.rs:91-93 | returns the flag |
| Ddos.HardCapScenario | src/ddos/mod.rs:70-83 | six calls within a window against a cap of five: only the sixth answers true, and the flag stays set |
| Ddos.SweepAgreesWithLookup | src/ddos/mod.rs:118-147 | the sweep keeps exactly the entries a lookup answers "blocked" for; a lookup drops only its own expired entry; sweeping is idempotent |
| Ddos.BlockLastsExactlyDuration | src/ddos/mod.rs:118-140 | a client blacklisted at t is blocked exactly until t + duration |
| Ddos.IpBlacklist.constructor | src/ddos/mod.rs:110-115 | empty deny-list, duration of the given minutes |
| Ddos.IpBlacklist.IsBlacklisted | src/ddos/mod.rs:118-133 | answers `IsBlocked` and drops an expired entry for the client |
| Ddos.IpBlacklist.BlacklistIp | src/ddos/mod.rs:136-140 | inserts or restarts the client's entry at `now` |
| Ddos.IpBlacklist.Cleanup | src/ddos/mod.rs:143-147 | keeps the unexpired entries |
| Ddos.FailureStepKeepsBound | src/ddos/mod.rs:182-193 | stored failure counters stay between 1 and the threshold |
| Ddos.StreakReachesThreshold | src/ddos/mod.rs:182-193 | from a clean record, failures count 1, 2, … and the threshold-th is the violation that removes the counter |
| Ddos.PathStepKeepsBound | src/ddos/mod.rs:202-219 | stored path sets stay non-empty and within the threshold |
| Ddos.SeenPathChangesNothing | src/ddos/mod.rs:202-219 | a path already seen is never a violation and changes nothing |
| Ddos.ThirdDistinctPathFlagged | src/ddos/mod.rs:202-219 | with threshold 2, the third distinct path is flagged and the set removed |
| Ddos.PathAnswers | src/ddos/mod.rs:202-219 | successive path checks give one answer each |
| Ddos.NewPathStep | src/ddos/mod.rs:202-219 | a new path grows the set by one, or is the violation that removes it exactly when that takes the set past the threshold |
| Ddos.FreshDistinctTail | src/ddos/mod.rs:202-219 | after a quiet new path the remaining distinct paths are still new |
| Ddos.DistinctPathsFlaggedPastThreshold | src/ddos/mod.rs:202-219 | for pairwise distinct new paths, the i-th request is flagged exactly when the seen set plus i reaches the threshold: a clean client's 21st distinct path with the default 20 |
| Ddos.DistinctPathsGrowThenReset | src/ddos/mod.rs:202-219 | along such a run the set grows by one per request and the flagged request removes it |
| Ddos.SamePathNeverFlagged | src/ddos/mod.rs:202-219 | one path requested any number of times is never flagged |
| Ddos.Prune | src/ddos/mod.rs:229 | keeps exactly the stamps younger than the window |
| Ddos.PruneAppend | src/ddos/mod.rs:229 | pruning keeps order: it distributes over concatenation |
| Ddos.PruneKeepsNewest | src/ddos/mod.rs:229-232 | a young stamp appended last stays the newest retained stamp, the one `timings.last()` reads |
| Ddos.PruneIdempotent | src/ddos/mod.rs:261 | pruning twice is pruning once |
| Ddos.TimingStep | src/ddos/mod.rs:222-248 | only the client's list changes, and it is never left empty |
| Ddos.ColdClientNotFlagged | src/ddos/mod.rs:232-234 | a client with at most six stamps in all is never flagged, however fast |
| Ddos.BurstStep | src/ddos/mod.rs:229-245 | a client with stamps at 0..k-1 ms asking at k ms is flagged exactly when k = 6, and otherwise records k |
| Ddos.BurstFlaggedAtSeventh | src/ddos/mod.rs:222-248 | requests every millisecond are flagged exactly on the seventh |
| Ddos.SeventhFastRequestFlagged | src/ddos/mod.rs:222-248 | seven requests 1 ms apart under the defaults answer false six times, then true |
| Ddos.Compacted | src/ddos/mod.rs:258-263 | the swept timing map holds no empty list |
| Ddos.CompactedIdempotent | src/ddos/mod.rs:258-263 | a second sweep at the same time removes nothing |
| Ddos.DropEmptyAfterPrune | src/ddos/mod.rs:260-263 | pruning each list, then dropping the empty ones, is the sweep |
| Ddos.ActivityDetector.constructor | src/ddos/mod.rs:169-179 | empty maps and the thresholds 10, 20, 60 s and 50 ms |
| Ddos.ActivityDetector.TrackFailure | src/ddos/mod.rs:182-193 | the counters after the call are one `FailureStep`, and nothing else changes |
| Ddos.ActivityDetector.ResetFailures | src/ddos/mod.rs:196-199 | drops the client's counter only |
| Ddos.ActivityDetector.TrackPath | src/ddos/mod.rs:202-219 | the path sets after the call are one `PathStep`, and nothing else changes |
| Ddos.ActivityDetector.TrackTiming | src/ddos/mod.rs:222-248 | the timing lists after the call are one `TimingStep`, and nothing else changes |
| Ddos.ActivityDetector.Cleanup | src/ddos/mod.rs:251-264 | clears the path sets, compacts the timing lists, keeps the failure counters |
| DdosMiddleware.SecurityHeaders | src/ddos/middleware.rs:106-120 | the three fixed headers are present; the attack header is present exactly in attack mode, with value "true" |
| DdosMiddleware.WhitelistIsPrivateNetworks | src/ddos/middleware.rs:126-144 | the octet test is exactly membership in 127.0.0.0/8, 10.0.0.0/8 or 172.16.0.0/12; IPv6 is never trusted |
| DdosMiddleware.ForwardedIffScreened | src/ddos/middleware.rs:13-123 | a request reaches the handler exactly when it parses, is not blocked, passes both detectors and the limiter is calm or the client trusted; the response keeps the handler's status and has the headers |
| DdosMiddleware.AdmitForwards | src/ddos/middleware.rs:70-86 | the limiter stage forwards exactly when calm or trusted |
| DdosMiddleware.RejectionsInOrder | src/ddos/middleware.rs:29-83 | each rejection has its place in the order and its side effects: none for a bad or blocked address, a blacklisting for a detection, a counted request for an overload; past the deny-list a scan rejection happens exactly on a path violation and leaves the timing lists alone, a burst rejection exactly when the path check passes and the timing check fires |
| DdosMiddleware.InspectRejections | src/ddos/middleware.rs:47-83 | past the deny-list, the path check decides first: scan rejection iff path violation, with the timing lists untouched; burst rejection iff no path violation and a timing violation; detections blacklist the client and leave the limiter alone |
| DdosMiddleware.WhitelistedNeverOverloaded | src/ddos/middleware.rs:73-83 | a trusted client is never shed |
| DdosMiddleware.AttackModeOnlyForWhitelisted | src/ddos/middleware.rs:73-120 | only trusted clients receive the attack-mode header |
| DdosMiddleware.DetectionBlocksFollowUps | src/ddos/middleware.rs:38-68 | after a detection the same client is refused at the deny-list for the whole block duration |
| DdosMiddleware.AdmitAccounts | src/ddos/middleware.rs:70-98 | a request the limiter forwards is accounted on its status: an error counts and blacklists at the threshold, a success forgets the streak |
| DdosMiddleware.InspectAccounts | src/ddos/middleware.rs:47-98 | the detectors leave failures and deny-list alone on a forwarded request, so the accounting works on what they found |
| DdosMiddleware.ForwardedFailureAccounting | src/ddos/middleware.rs:88-98 | an error status counts towards the streak and blacklists at the threshold; a success forgets the streak |
| DdosMiddleware.MaintenanceKeepsDecisions | src/ddos/middleware.rs:164-190 | maintenance changes no deny-list answer, keeps limiter and streaks, and is idempotent |
| DdosMiddleware.DdosProtectionState.constructor | src/ddos/middleware.rs:155-161 | 1000 requests per 10 s, 30-minute blocks, detector defaults, all empty |
| DdosMiddleware.DdosProtectionState.Handle | src/ddos/middleware.rs:13-123 | response and new state are those of `Protect` on the old state |
| DdosMiddleware.DdosProtectionState.ScreenRequest | src/ddos/middleware.rs:38-45 | agrees with `Screen` |
| DdosMiddleware.DdosProtectionState.InspectRequest | src/ddos/middleware.rs:47-68 | agrees with `Inspect` |
| DdosMiddleware.DdosProtectionState.AdmitRequest | src/ddos/middleware.rs:70-86 | agrees with `Admit` |
| DdosMiddleware.DdosProtectionState.RecordStatus | src/ddos/middleware.rs:88-98 | agrees with `Account` |
| DdosMiddleware.DdosProtectionState.MaintenanceTick | src/ddos/middleware.rs:171-187 | the new state is `Maintained`, and the flag read is the limiter's |
| Middleware.ResetIn | src/middleware.rs:63-69 | seconds left are at most the window, zero exactly at its end, and the remaining time rounded up to a second |
| Middleware.CheckStepAccounts | src/middleware.rs:44-101 | counts stay in 1..max and only the client's entry changes; remaining + count = max; refused exactly at the limit inside the window, and a refusal changes nothing; a new or stale client's entry becomes (1, now) with remaining max-1 and reset the whole window; inside the window the start is kept and reset is `reset_in` |
| Middleware.CheckAnswers | src/middleware.rs:44-101 | successive checks give one answer each |
| Middleware.WindowAdmitsUpToLimit | src/middleware.rs:63-89 | inside one window the i-th further request is refused exactly when k + i reaches the limit; otherwise it leaves max - (k + i + 1) |
| Middleware.FreshClientAdmittedUpToLimit | src/middleware.rs:44-101 | a new client, or one whose window has expired, gets exactly `max_requests` requests admitted in the window its request opens |
| Middleware.CleanupInvisible | src/middleware.rs:104-108 | cleanup changes the answer of no later check |
| Middleware.CleanupCommutesWithCheck | src/middleware.rs:44-108 | a later check after a cleanup leaves the cleaned form of the map the check leaves without it |
| Middleware.CleanupInvisibleLater | src/middleware.rs:104-108 | cleanup changes no answer of any later run of checks |
| Middleware.RateLimiter.constructor | src/middleware.rs:35-41 | an empty map with the limit and window given |
| Middleware.RateLimiter.CheckRateLimit | src/middleware.rs:44-101 | answer and new map are one `CheckStep` |
| Middleware.RateLimiter.Cleanup | src/middleware.rs:104-108 | keeps the entries not older than the window |
| Middleware.AuthorizedIffBearerToken | src/middleware.rs:112-140 | authorized exactly for "Bearer " + token; a missing header is told the token is required, any other failure that it is invalid |
| Middleware.RateLimitHeadersReadBack | src/middleware.rs:165-202 | the three headers read back as limit, remaining (0 when refused) and reset; a refusal is a 429 with its body, otherwise the handler's status |
| Middleware.RateLimitMiddleware | src/middleware.rs:143-203 | the response and the limiter's new map follow one `CheckStep` on the client key |
| Tables.PlaceholderReadsBack | crates/tables/src/lib.rs:103 | "?k" reads back as k and holds one '?' |
| Tables.PlaceholdersGrow | crates/tables/src/lib.rs:101-105 | "", "?1", and each further column appends ", ?n+1" |
| Tables.PlaceholdersCount | crates/tables/src/lib.rs:101-105 | n columns give n parameters |
| Tables.UpdatePlaceholdersGrow | crates/tables/src/lib.rs:107-114 | each further column appends ", column = ?position" |
| Tables.UpdatePlaceholdersCount | crates/tables/src/lib.rs:107-114 | with '?'-free column names, one parameter per column |
| Tables.AddIfPresent | crates/tables/src/lib.rs:224-231 | a present field pushes its column and its value's text; an absent one pushes nothing |
| Tables.NumberText | crates/tables/src/lib.rs:226-228 | an optional number's text is present exactly when the number is, and reads back as it |
| Tables.WellBoundArity | crates/tables/src/user.rs:158-176 | a well-bound insert has one parameter per bound value |
| TablesUser.FromIsNamedBlank | crates/tables/src/user.rs:69-98 | `from` is the blank user with a name and Twitch id, and is valid |
| TablesUser.ValidateTier | crates/tables/src/user.rs:105-110 | accepts exactly Tier1, Tier2, Tier3, Prime and Other, else "Invalid sub tier name" |
| TablesUser.ValidateExactly | crates/tables/src/user.rs:112-130 | valid exactly when date and tier are both absent or both present with a known name; each failure has its message, the tier name checked first |
| TablesUser.BuildNormalises | crates/tables/src/user.rs:50-58 | after `build` the date is present exactly when the tier is, only those two fields change, and validation can then fail only on the tier name |
| TablesUser.SettersTouchOwnField | crates/tables/src/user.rs:26-47 | each builder setter writes its own field only |
| TablesUser.Bind | crates/tables/src/user.rs:161-165 | one `add_if_present!` keeps columns bound to their own fields' values |
| TablesUser.AddOptional | crates/tables/src/user.rs:161-165 | the five optional columns are added in source order, `follower_since` twice, each bound to its value |
| TablesUser.Create | crates/tables/src/user.rs:155-185 | validation first; on success "display_name", "twitch_id" and the present fields, each bound to its value, with one placeholder per column |
| TablesUser.Update | crates/tables/src/user.rs:204-229 | a missing row first, then validation; the assignments follow the columns, and the id is bound by the parameter right after them |
| TablesSubgifts.ConstructorsAgree | crates/tables/src/subgifts.rs:22-52 | the constructors differ only in the user |
| TablesSubgifts.ValidateExactly | crates/tables/src/subgifts.rs:55-66 | valid exactly with a positive number and a known tier; the zero check comes first |
| TablesSubgifts.Create | crates/tables/src/subgifts.rs:69-98 | validation first; "number", "tier", and "user_id" when present, each bound to its value |
| TablesBits.ConstructorsAgree | crates/tables/src/bits.rs:22-52 | the constructors differ only in the user |
| TablesBits.Create | crates/tables/src/bits.rs:55-88 | zero bits fail with "Bits number cannot be 0"; otherwise "number", then "user_id" and "message" when present, each bound to its value |
| SubTiers.ParseDisplayRoundTrip | src/models/sub_tier.rs:6-29 | the serialised names are the display names, and they round-trip |
| SubTiers.DisplayInjective | src/models/sub_tier.rs:19-29 | distinct variants print differently |
| SubTiers.DisplayAcceptedByTable | src/models/sub_tier.rs:19-29 | every display name passes the `users` table's tier check, and the accepted names are exactly the display names |
| SubTiers.ToJson | src/models/sub_tier.rs:31-35 | the JSON value is the string that parses back to the tier |
| SubTiers.FromTwitchKeepsNames | src/models/sub_tier.rs:37-47 | named Twitch tiers keep their name and exactly the unknown ones become `Other` |
| ModelsUser.NewIsBlank | src/models/user.rs:19-50 | `new` sets name, Twitch id and creation time, id 0, every optional field absent; `default` is the nameless new user |
| ModelsUser.ExtendHeld | src/models/user.rs:100-116 | extending appends to the held list, or sets it when there is none |
| ModelsUser.ListsSetThenAppend | src/models/user.rs:100-116 | `subgifts`/`bits` set an absent list, append otherwise, keep call order, and touch nothing else |
| ModelsUser.SettersTouchOwnField | src/models/user.rs:69-120 | every other setter overwrites its own field only, and `build` returns the accumulated user |
| WhproxySubgift.BuilderDefaultIsTierOne | bin/whproxy/models/subgift.rs:15-60 | the builder starts at Tier1 with number 0 and no user or name, while `Subgift::default` uses Other |
| WhproxySubgift.SettersTouchOwnField | bin/whproxy/models/subgift.rs:62-89 | Some(x) sets [x], None leaves the field unchanged; number and tier overwrite |
| WhproxyBits.FreshIsBlank | bin/whproxy/models/bits.rs:14-50 | `new`, `default` and the builder give id 0, number 0 and no optional field |
| WhproxyBits.SettersTouchOwnField | bin/whproxy/models/bits.rs:52-81 | Some(x) sets [x] or the message, None leaves it (an earlier message survives); number overwrites |

## Left out

- Concurrency: the `Mutex`/`Arc` sharing, lock ordering and interleaving of concurrent requests are not modelled. Each method is one atomic step.
- The `tokio` interval loop of `start_background_tasks` is not modelled. `MaintenanceTick` is one iteration of it.
- Logging (`tracing`) is not modelled.
- `current_rate` and `get_current_rate` are not modelled. The rate exists only as the f64 test, which is modelled over exact reals, so f64 rounding near the 80 % threshold is not captured.
- Time is whole milliseconds passed in as `now`, so sub-millisecond `Duration` precision is not captured.
- One `now` is used for every step of one request. The source reads the clock separately in each leaf.
- Integer widths (`u16`, `u32`, `u64`, `usize`) are unbounded naturals. Overflow of `total += 1`, `*count += 1` and `*c += 1` is not modelled.
- Middleware.RateLimiter.constructor: requires `max_requests >= 1`. With 0, `max_requests - 1` underflows, which panics in debug builds and wraps in release builds.
- HTTP plumbing: the response body other than the messages, and headers the handler itself sets, are not modelled. The middlewares' fixed status codes and messages are `RejectionStatus`, `RejectionMessage` and `RateLimitResponse`.
- Database I/O is not modelled: `Orm::query`/`execute`, libsql row conversion, and the `NoChange` error when `returning id` gives no row.
- The `User::get` calls in `subgifts`/`bits` `create` only propagate database errors, so they are not modelled.
- The re-read of the user after `update` is not modelled.
- The SQL text around the column lists is left out. A statement is modelled as its columns, placeholders or assignments, and bound values.
- `delete`, `get_by_twitch_id` and the `latests` table are not part of this model.
- `follower_since` is added twice by `create` and `update`, so the user insert and update bind it twice. It is modelled as written; what the database does with the duplicate is not.
- RFC 3339 rendering of `DateTime` values (`to_rfc3339`) is left out. The builders take the already rendered text.
- `UserBuilder.subgifts`/`bits` extend the held `Vec` in place. The builder is consumed and returned by value, so this is modelled as sequence concatenation on the builder value. No aliasing is observable.
