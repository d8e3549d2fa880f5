# SovereignStack control logic, verified

This project models the decision logic of the SovereignStack gateway and management services and
proves what it keeps over whole runs. Check it with `dafny verify dfyconfig.toml` (Dafny 4.11).

| files | part of the system |
|---|---|
| `RateLimiting` | the per-user token bucket |
| `Admission`, `AdmissionRuns`, `AdmissionHistory` | the adaptive admission controller: EMA of kv-cache pressure, dynamic cap, calm timer, poll cycle |
| `Calendar`, `QuotaPeriods`, `MemoryQuota`, `KeyedQuota`, `QuotaStores`, `QuotaProtocol` | token quotas: calendar resets, the three counter backends, check-before and record-after |
| `SaveProtocol` | the key file's lock, temporary file, fsync, rename protocol under concurrency, kills and power loss |
| `KeyHash`, `Authentication`, `FieldEncryption`, `ProfileEncryption`, `KeyStore` | stored key hashes, fingerprint lookup, hash migration, transparent field encryption, the store object itself |
| `Routing`, `Gateway` | model extraction and stripping, registry refresh, director, the gates without state |
| `GatewayRuns`, `GatewayRates`, `QuotaOvershoot`, `GatewayServer` | the running gateway: requests interleaved gate by gate, what the rate limit and the quotas guarantee then, and the real objects, kept in the state of such a run |
| `MetricsParser` | the Prometheus text parser |
| `Downloader` | the resumable download |
| `Oidc` | admin sign-in, sessions, signed cookies |
| `GoStrings`, `Wrappers` | the string functions and the option and result types the models use |

Conventions. What the program updates in place (buckets, counters, controller states, profiles,
the registry, the local file, sessions) is a class whose methods are proved against a function of
the old state; laws over runs are then lemmas about these functions. Every clock reading is a
parameter, one per call of the clock, so two readings inside one operation may differ. Random
values, answers of other services and outcomes of system calls are parameters too. Map iteration
in Go has no fixed order: the loops here pick any next entry. A Go string is a sequence of bytes,
written as a sequence of characters. argon2id, HMAC, AES-GCM and base64 are functions of which
only the stated laws are used; that two keys do not collide under argon2id is assumed for the
pair at hand, never for all keys at once.

## Where the code and its documentation differ

The models follow the code.

- `core/gateway/quota_backend.go:47` promises the first of the next month. `AddDate` overflows at
  the end of a long month, so on January 31st the window ends on March 1st and January's usage
  counts against February. `Calendar` and `MemoryQuota` give the exact condition.
- `core/gateway/proxy.go:174-186` authenticates a request only if it carries a key. One without a key
  goes on as user "", for whom the source, access and quota gates are not asked; only the rate,
  admission and capability gates are. `GatewayRuns` gives the exact condition and the run.
- Without a forwarding header the client's address is what stands before the first colon of the peer's
  (`core/gateway/proxy.go:468-472`); of an IPv6 peer that is not its address. `Gateway` says when it is.
- The comment at `core/gateway/proxy.go:134` speaks of authorization headers; only the configured key
  header is removed before a request is sent on.
- The memory backend compares with "after", so at exactly the reset instant the old window is still
  current; the keyed backends have moved on.
- `core/admission/admission.go:317` says calm restores the cap to its configured value; it rises by
  half a margin per calm window. Lines 59-60 describe the stress band relative to the configured
  cap and a single drop below it; the band follows the current cap and the cap drops again at each
  stressed observation. Line 29 says zero values are not filled in; `withDefaults` fills them.
- An EMA of exactly 0 counts as "no sample yet", so the next sample replaces it
  (`core/admission/admission.go:303-305`).
- `core/keys/hash.go:89-91` speaks of a fingerprint of the first 16 characters; it covers the whole key.
- `core/keys/store.go:378-380` holds for the content, and the model proves it. The directory is not
  fsynced after the rename, so after a power loss an earlier complete file may be back although the
  save had reported success; `SaveProtocol` shows such a run and says exactly when a rename stands.
- `core/keys/store.go:369-371` promises that the writes of two processes do not interleave. That holds
  where the file lock excludes, on Unix; on Windows `core/keys/flock_windows.go` does nothing.
  `SaveProtocol` covers both: the exclusion with the lock, a run that breaks it without, and for
  either platform that readers find a whole file.
- A key given to `AddUser` that starts with `$argon2id$` is taken for a hash and stored as it is.
- Stripping a path without a leading slash can miss or misplace the routing segments; `Routing` gives
  the exact condition. Go's HTTP server only hands on paths that start with a slash, are empty or are
  an asterisk, and for all of these stripping is right.
- `downloadFile` appends the body of a 200 answer to a resumed request. If such an answer breaks
  off, a later resume can report success on a file of the right size with wrong bytes.
- The legacy admin key is compared before the named admins, so a token that is both speaks for
  "admin".

## Model

| member | source | states |
|---|---|---|
| RateLimiting.AdmittedIffEveryWindowFits | core/gateway/proxy.go:380-419 | A call is admitted if and only if, for every earlier call k, the calls admitted since k plus this one fit in rate + rate * elapsed: the bucket, which only remembers one number, decides exactly as the full history of windows would. |
| RateLimiting.NoSelectionAdmitsMore | core/gateway/proxy.go:380-419 | Optimality: after every prefix of the calls, no way of choosing which calls to admit within all window bounds has admitted more than the bucket. |
| RateLimiting.WindowBound | core/gateway/proxy.go:380-419 | With nondecreasing clock readings no window of calls, wherever it starts and ends, holds more than rate + rate * length admitted calls. |
| RateLimiting.DecisionsRespectWindows | core/gateway/proxy.go:380-419 | The decisions of the bucket themselves stay within every window bound, so they are one of the selections it is compared with. |
| RateLimiting.LevelIffFits | core/gateway/proxy.go:399-418 | For any choice of admitted calls, not only the limiter's, a whole token is left exactly when all windows ending at the call have room: the token count is the tightest window. |
| RateLimiting.IntervalBound | core/gateway/proxy.go:380-419 | The same for any interval of time instead of a window from call to call. |
| RateLimiting.FractionalRateAdmitsNothing | core/gateway/proxy.go:397-418 | A rate below one request per minute admits nothing at all, since the bucket never holds a whole token. |
| RateLimiting.ZeroRateAdmitsAll | core/gateway/proxy.go:380-385 | A rate of 0 means no limit: every call is allowed and no bucket is made. |
| RateLimiting.EachUserHasItsOwnBucket | core/gateway/proxy.go:387-395 | In a run with any number of users interleaved, the verdict on every call is the one that user's calls alone would get. |
| RateLimiting.TableIsPerUser | core/gateway/proxy.go:387-395 | After any run the shared table holds for each user the bucket that the user's own calls lead to, and no entry for a user who never called. |
| RateLimiting.UserRateLimit.Take | core/gateway/proxy.go:397-418 | The in-place refill and take under the user's lock leaves the state and verdict of the specification. |
| RateLimiting.RateLimiter.Allow | core/gateway/proxy.go:380-419 | One call changes the caller's bucket as specified, creates it full when new, leaves every other bucket alone, and is a no-op at rate 0. |
| Admission.DefaultsAreInRange | core/admission/admission.go:165-191 | Filling defaults puts smoothing, margin and calm time in their documented ranges exactly when no negative or too large value was given, and filling twice changes nothing. |
| Admission.ZeroMeansDefault | core/admission/admission.go:165-191 | A parameter left at zero gets its documented default, in numbers, and any other is kept. |
| Admission.Controller.AdjustThreshold | core/admission/admission.go:318-354 | The in-place threshold rule: tighten by the margin to the floor and never upward, relax by half a margin at the end of a calm window, hold otherwise. |
| Admission.Controller.Record | core/admission/admission.go:290-315 | Recording a sample updates queue share, EMA and threshold as specified; a sample without cache usage touches neither EMA nor threshold. |
| Admission.Controller.Observe | core/admission/admission.go:282-316 | Observing one model changes that model's state and no other, starting new models at the configured cap. |
| Admission.Controller.Tick | core/admission/poller.go:57-82 | A poll cycle is the sequence of observations of the models whose metrics arrived, all with the same running count. |
| Admission.Controller.Allow | core/admission/admission.go:231-277 | The verdict is the specified function of the stored state, and the state is not changed. |
| AdmissionRuns.CapStaysInBand | core/admission/admission.go:318-354 | In every state reachable by any observations the dynamic cap lies between min(floor, ceiling) and the ceiling. |
| AdmissionRuns.EmaBetweenSamples | core/admission/admission.go:303-309 | In every reachable state the EMA lies between the least and the greatest sample recorded. |
| AdmissionRuns.ShedOnlyOnFreshEvidence | core/admission/admission.go:223-277 | The controller fails open: after any run a model is shed only when enabled, with cache telemetry at most three polls old, and an EMA at least the lower cap bound or a queue at its share. |
| AdmissionRuns.LowPressureIsNeverShed | core/admission/admission.go:231-277 | A model whose samples all stayed below the floor is never shed for cache pressure, whatever the cap did: only a full queue sheds it. |
| AdmissionRuns.HighPressureIsAlwaysShed | core/admission/admission.go:231-277 | A model whose samples all stayed at or above the configured ceiling is shed at every instant while its telemetry is fresh. |
| AdmissionRuns.QueueSharesFitTheBudget | core/admission/admission.go:360-371 | The queue share is the largest number of slots that, given to every running model, stays within slots-per-GiB of the host memory; a share below one is rounded up to one. |
| AdmissionRuns.VerdictAfterRun | core/admission/admission.go:231-277 | What is answered after any run, in order: disabled, without telemetry or with telemetry older than three polls it admits; pressure at the cap is refused for 5 seconds, a queue over the share of the host budget, in integers, for 10 seconds; anything else is admitted. |
| AdmissionRuns.FullQueueIsShedIff | core/admission/admission.go:258-264 | A model whose samples all stayed below the floor is shed, on fresh telemetry, if and only if one more waiting request in every running model would exceed the slots per gigabyte of the host. |
| AdmissionRuns.PollObservesEachOnce | core/admission/poller.go:67-82 | A poll of distinct models observes each one whose metrics arrived exactly once, with the number of listed models as running count, and leaves every other model alone. |
| AdmissionRuns.StressRatchetsToFloor | core/admission/admission.go:318-339 | Under constant pressure in the stress band the cap after n observations is exactly n margins lower, down to the floor, and stays there: falling caps never leave the band. |
| AdmissionRuns.CalmClimbsToCeiling | core/admission/admission.go:340-351 | Under constant calm pressure the cap is exactly the start plus half a margin per completed calm window, up to the ceiling. |
| AdmissionRuns.MiddlePressureHolds | core/admission/admission.go:352-354 | Under constant pressure between the soft threshold and the stress band the cap never moves. |
| AdmissionRuns.WindowsKeepPace | core/admission/admission.go:341-349 | With observations at most `gap` apart, calm windows complete no faster than every CalmDuration and no slower than every CalmDuration + gap. |
| AdmissionRuns.RecoversInTime | core/admission/admission.go:340-351 | Recovery time: calm pressure brings the cap back to the ceiling within ceil(2 * distance / margin) windows of CalmDuration + gap. |
| AdmissionHistory.CalmTimerMeansCalm | core/admission/admission.go:318-354 | Whenever the calm timer stands at t, some observation was made at t, and every EMA recorded since was below soft and below 0.9 of the cap then in force. |
| AdmissionHistory.RaiseFollowsCalmWindow | core/admission/admission.go:340-351 | Every raise of the cap ends a full CalmDuration of such calm observations, restarts the timer and is at most half a margin. |
| AdmissionHistory.RaisesAreSpaced | core/admission/admission.go:340-351 | Over any stretch of any run, (number of raises - 1) * CalmDuration is at most the time elapsed, and the cap gains at most half a margin for each. |
| AdmissionHistory.EmaDependsOnSamplesOnly | core/admission/admission.go:299-309 | The EMA of the controller is a function of the recorded samples alone: times, running counts, cap and observations without cache usage do not matter. |
| AdmissionHistory.EmaClosedForm | core/admission/admission.go:303-309 | Closed form: the seed weighted (1-alpha)^age plus every later sample weighted alpha * (1-alpha)^age. |
| AdmissionHistory.SomeSampleSeeded | core/admission/admission.go:303-305 | Every non-empty sample list has a last seeding sample, the one that found the EMA at exactly 0, so the closed form always applies. |
| AdmissionHistory.EqualSamplesConverge | core/admission/admission.go:303-309 | After n equal samples the distance to them is exactly (1-alpha)^n of what it was, while no EMA on the way is 0. |
| AdmissionHistory.ZeroOnTheWayJumps | core/admission/admission.go:303-305 | Otherwise the EMA is exactly the sample from there on. |
| AdmissionHistory.RepeatedIsTheController | core/admission/admission.go:299-309 | Both convergence statements are about the controller: its EMA over a stretch of equal samples, at any point of any run, is that iteration. |
| Calendar.DailyResetIsNextMidnight | core/gateway/quota_backend.go:41-45 | The daily reset is the least UTC midnight strictly after now. |
| Calendar.MonthlyResetSkipsAMonthOnOverflow | core/gateway/quota_backend.go:48-52 | The monthly reset is a first-of-month midnight strictly after now: of the next month if and only if the day of the month exists there, else of the month after. |
| Calendar.MonthStartClosedForm | core/gateway/quota_backend.go:48-52 | The first day of every month in closed form, without a table of month lengths: 365 days a year, the leap years by the rule of 4, 100 and 400, and 367/12 days a month less what February lacks. |
| Calendar.CalendarRepeats | core/gateway/quota_backend.go:48-52 | The calendar repeats every 400 years of 146,097 days. |
| Calendar.UnixEpoch | core/gateway/quota_backend.go:48-52 | January 1970 begins on day 719,162. |
| Calendar.DayTextIsTheDate | core/gateway/quota_backend.go:55-65 | A day key is year, month and day in decimal, two digits for month and day and four for the year until 10000, of the month the day lies in; a month key is its beginning. |
| Calendar.JanuaryThirtyFirst | core/gateway/quota_backend.go:47-52 | The concrete failure of the comment "1st of the next month": on January 31st the reset is March 1st. |
| Calendar.MonthTextIsInjective | core/gateway/quota_backend.go:62-65 | Month keys are equal only for equal months and contain no colon. |
| Calendar.DayTextIsInjective | core/gateway/quota_backend.go:56-59 | Day keys are equal only for equal days and contain no colon. |
| QuotaPeriods.ResetIsNextPeriodIffRegular | core/gateway/quota_backend.go:41-52 | The computed reset is the start of the next day or month exactly for days and for dates whose day number exists next month; otherwise it is one month late. |
| MemoryQuota.MemoryCounter.Add | core/gateway/quota_backend.go:102-108 | The second half of an add, in place: reset the window if the check is after the reset instant, then add. |
| MemoryQuota.CounterMap.FindOrCreate | core/gateway/quota_backend.go:93-101 | The first half, under the table lock: returns the user's own counter, created with its window when missing, and changes no other. |
| MemoryQuota.CounterMap.AddTokens | core/gateway/quota_backend.go:92-109 | One uninterrupted add changes the table as specified. |
| MemoryQuota.CounterMap.Get | core/gateway/quota_backend.go:111-124 | A read after the reset instant, or for an unknown user, is 0; reads change nothing. |
| MemoryQuota.MemoryQuotaBackend.AddDaily | core/gateway/quota_backend.go:126-128 | A daily add leaves the monthly counters alone. |
| MemoryQuota.MemoryQuotaBackend.AddMonthly | core/gateway/quota_backend.go:130-132 | A monthly add leaves the daily counters alone. |
| MemoryQuota.CleanRunsTrack | core/gateway/quota_backend.go:92-109 | Over any interleaving of the halves of any number of adds at nondecreasing times in which every update with tokens is clean, each counter holds exactly the keyed counter of the period before its reset instant, or its window has not begun and is empty. |
| MemoryQuota.MemoryAgreesWithKeyed | core/gateway/quota_backend.go:92-124 | After any such run a read equals the keyed counter of the current period if and only if it is not made exactly at the reset instant of a non-zero counter. |
| MemoryQuota.StepAgreesIffClean | core/gateway/quota_backend.go:92-124 | After any such run, the next step leaves all later reads off the period boundaries in agreement if and only if it is clean: a look-up always is; an update with tokens is if it is not checked at the reset instant, and its window, renewed if over, is the period of the clock. |
| MemoryQuota.MemoryAgreesThroughoutIff | core/gateway/quota_backend.go:92-124 | The exact condition over whole runs: at every stage, for every user, every read off the boundaries equals the keyed counter if and only if every update with tokens is clean. |
| MemoryQuota.DailyIsAlwaysRegular | core/gateway/quota_backend.go:41-45 | A daily window set at any instant ends at the next midnight: for daily counters the date condition is always met. |
| MemoryQuota.DailyWindowsEndAtMidnight | core/gateway/quota_backend.go:92-109 | At every stage of every run a daily counter's window ends at a midnight, and at the latest at the first one after the clock. |
| MemoryQuota.DailyAgreesThroughoutIff | core/gateway/quota_backend.go:92-124 | The daily law: over any run, at every stage and for every user, every read off the midnights equals that day's keyed counter if and only if no update with tokens is checked exactly at the reset instant of its counter. |
| MemoryQuota.AddAtResetInstantIsForgotten | core/gateway/quota_backend.go:102-108 | An add checked exactly at the reset instant goes to the closing window: all the new period the read is 0 while the keyed counter holds the tokens. |
| MemoryQuota.FirstAddAgreesIffRegular | core/gateway/quota_backend.go:48-52 | In terms of dates, for a first add with separate readings for look-up, check and reset: when it agrees, that with one reading this means the day number exists in the next month, and that a counter looked up on January 31st and added to in February is right. |
| KeyedQuota.SQLiteQuotaBackend.AddTokens | core/gateway/quota_sqlite.go:78-100 | The in-place upsert keeps the rows equal to the sums of the adds made so far, of which it is one more. |
| KeyedQuota.SQLiteQuotaBackend.Get | core/gateway/quota_sqlite.go:102-128 | A read is the sum of the user's adds of the current day or month; a missing row is 0. |
| KeyedQuota.SQLiteIsTheTable | core/gateway/quota_sqlite.go:78-128 | Whatever was added when and for whom, the row read back is the sum of that user's adds in that day or month: the text keys never confuse two periods. |
| KeyedQuota.RedisKeyIsInjective | core/gateway/quota_redis.go:68-74 | Redis keys are equal only for the same period kind, user and day or month, even for users that contain colons. |
| KeyedQuota.RedisQuotaBackend.AddTokens | core/gateway/quota_redis.go:76-98 | An add is one increment and one expiry refresh in the history of all gateways' commands, with any commands of other gateways between the two, and the store stays what that history makes of it. |
| KeyedQuota.RedisQuotaBackend.Get | core/gateway/quota_redis.go:100-122 | A read is the sum of the user's increments of the current day or month, those of other gateways included, unless the period ended between computing the key and reading: no expiry has dropped it. |
| KeyedQuota.EntryHoldsCounter | core/gateway/quota_redis.go:76-98 | Over any interleaving of the increments and expiry refreshes of any gateways, an entry is live until its period is over and holds the period's exact sum. |
| KeyedQuota.EntryExpires | core/gateway/quota_redis.go:76-98 | An entry that nothing touches any more is gone 48 hours after its last refresh if it is a day's and 70 days after if it is a month's, and not before. |
| KeyedQuota.RedisReadsTheTable | core/gateway/quota_redis.go:76-122 | So expiry (48 hours, 70 days) never drops a counter that the current key can still read: Redis reads what SQLite reads. |
| QuotaProtocol.CheckIff | core/gateway/quota.go:59-99 | Exactly when the check lets a user through, and exactly when it refuses for which reason, with the counter and the limit it reports. |
| QuotaStores.ReadsByItsOwnClock | core/gateway/quota_backend.go:111-124 | A memory read goes by the instant of the read alone, a keyed one by the instant its key was computed. |
| QuotaProtocol.TokenQuotaManager.CheckQuota | core/gateway/quota.go:59-99 | Over the memory and the SQLite backend: the check refuses an unknown user and a user at a limit, daily first, from two separate reads, and changes nothing. |
| QuotaProtocol.TokenQuotaManager.Record | core/gateway/quota.go:101-109 | Over either backend: a record is the whole daily add and then the whole monthly add of input plus output tokens for that user; an empty user is ignored. |
| QuotaOvershoot.KeyedStep | core/gateway/quota_sqlite.go:78-128 | A step of the gateway keeps the counter of every day or month, past, present and future, at a value that leaves room for every request that may still add to it, also under a key computed in an earlier period. |
| QuotaStores.RoomAfterUpdate | core/gateway/quota_backend.go:102-108 | An add of at most one request's tokens to the memory backend uses up at most the room kept for one request, at every instant and date, reset instants and overflowing months included. |
| QuotaOvershoot.RoomIsAlwaysLeft | core/gateway/proxy.go:244-254 | Over every interleaving of whole requests, with the two reads of a check and the four halves of the two adds of a record as separate events, and with keys of keyed counters computed any time before they are used, the counters leave room for all requests that may still be added to them. |
| QuotaOvershoot.OvershootBound | core/gateway/quota.go:59-109 | While at most K requests of a user are in flight, none using more than T tokens, a read of either backend is never above limit - 1 + K * T; nor is what the memory backend holds, nor the sum of any day or month in a keyed one, though keys may be out of date when they are used. |
| QuotaOvershoot.OvershootIsReached | core/gateway/quota.go:59-109 | The bound is exact: for every limit, K and T, over either kind of backend, some run that keeps to K and T reaches it. |
| QuotaProtocol.MonthlyCounterIsMonthTotal | core/gateway/quota.go:101-109 | Each monthly counter is the sum of the tokens recorded for that user in that month. |
| QuotaProtocol.DaysOfMonthAddUp | core/gateway/quota.go:101-109 | The daily counters of a month add up to the tokens whose daily reading fell in that month. |
| QuotaProtocol.StraddlersLeaveAGap | core/gateway/quota.go:101-109 | In the first month with a record whose two clock readings straddle its end, the counter is strictly below the sum of its days. |
| QuotaProtocol.MonthsAreSumsOfDays | core/gateway/quota.go:101-109 | Conservation: every monthly counter equals the sum of that month's daily counters if and only if no record that carries tokens straddles a month boundary. |
| SaveProtocol.InvariantAlwaysHolds | core/keys/store.go:381-451 | Over every interleaving of any number of saving processes, with failing calls, kills and power losses at any step, the protocol invariant holds. |
| SaveProtocol.TargetIsAlwaysWhole | core/keys/store.go:378-380 | A reader always finds the initial content or the complete snapshot of one save that renamed, never a part of one, whether or not the platform's lock keeps writers apart. |
| SaveProtocol.WritersExcludeEachOther | core/keys/flock_unix.go:16-28 | Where the file lock excludes, as on Unix, at most one process is between acquiring and releasing it. |
| SaveProtocol.WritersOverlapWithoutALock | core/keys/flock_windows.go:13-21 | Where the lock does nothing, as on Windows, a concrete run has two processes in that section at once. |
| SaveProtocol.ReportIsTruthful | core/keys/store.go:420-451 | A finished save reported success if and only if its rename took place. |
| SaveProtocol.OnlyRenameChangesTheTarget | core/keys/store.go:373-377 | No step other than a successful rename or a power loss changes what a reader finds; so every error path leaves the file unchanged. |
| SaveProtocol.RenamePublishesTheSnapshot | core/keys/store.go:446-450 | A rename publishes exactly the snapshot of the process that renames. |
| SaveProtocol.FilesChangeByTheirOwner | core/keys/store.go:422-445 | A file appears only by a successful creation, empty; its bytes change only when its own process writes it or power is lost before it was synced, and only its own successful sync makes it durable. |
| SaveProtocol.LastRenameStandsIff | core/keys/store.go:446-450 | The target is the file of the last rename if and only if every power loss since then left the entry that was there; once undone, a rename stays undone. |
| SaveProtocol.LastRenameWins | core/keys/store.go:446-450 | While it stands, over any number of kills and harmless power losses, the file holds the snapshot of the last rename, or the initial content if there was none. |
| SaveProtocol.ReportedSaveCanBeLost | core/keys/store.go:368-451 | Every save can be lost after it reported success: a run in which it renames, unlocks and reports, and a power loss brings the content from before back. |
| SaveProtocol.Disk.WriteTemp | core/keys/store.go:422-445 | Create, write, chmod, fsync and close, in this order, each with its own cleanup: success leaves a durable complete temporary file, a failure leaves target and other files alone and the lock free. |
| SaveProtocol.Disk.Publish | core/keys/store.go:446-450 | The rename publishes the temporary file; a failing rename removes it and keeps the target. |
| SaveProtocol.Disk.SaveLocked | core/keys/store.go:381-451 | One save with the lock free: it succeeds if and only if no call fails, then the file holds the snapshot; else the file is untouched and a temporary file stays only if its removal failed too. |
| KeyHash.VerifyComparesHashes | core/keys/hash.go:40-80 | Verifying a candidate against the stored text of another key parses back exactly the parameters, salt and hash that were printed, so it answers whether the two hashes agree; a key is accepted by its own hash. |
| KeyHash.HashTextIsHashed | core/keys/hash.go:82-86 | Every stored hash text is recognised as one. |
| KeyHash.IsHashedIff | core/keys/hash.go:84-86 | A stored text counts as hashed if and only if it is "$argon2id$" followed by anything. |
| KeyHash.HashTextWrittenOut | core/keys/hash.go:40-50 | What is stored for a key, written out: version 19, 64 MiB, two passes, two threads, the salt, and a hash of 32 bytes. |
| KeyHash.VerifyReadsTheText | core/keys/hash.go:54-80 | Any text of this form is verified with the parameters, salt and hash length it states; another version is an error. |
| KeyHash.NumberIff | core/keys/hash.go:59-68 | Exactly which texts begin with a number up to a limit, and what is left over. |
| KeyHash.NotArgonIff | core/keys/hash.go:55-58 | Which texts are rejected as no hashes. |
| KeyHash.FingerprintIsEightBytes | core/keys/hash.go:97-102 | The fingerprint encodes the first eight bytes of the keyed digest. |
| Authentication.FingerprintIsHarmlessIff | core/keys/store.go:201-212 | For a stored hash, skipping by fingerprint never changes a verdict if and only if the fingerprint is absent or that of the hashed key. |
| Authentication.FilteredLookupAgrees | core/keys/store.go:187-214 | In a store whose hashes have such fingerprints the filtered lookup accepts the same users as verifying every hash, and never fails. |
| Authentication.HashingKeepsVerdicts | core/keys/store.go:143-152 | Hashing a plaintext key keeps the verdict on every candidate. |
| Authentication.AddedKeyAuthenticates | core/keys/store.go:135-160 | Adding a profile makes its key, and no other, authenticate that user, changes nobody else's set, and stores a well-formed hash. |
| Authentication.OrdinaryKeyWorks | core/keys/store.go:143-152 | A key that is not "$argon2id$" followed by anything is stored as that followed by a hash, and afterwards exactly that key authenticates its user. |
| Authentication.AddedKeyWorksIff | core/keys/store.go:143-152 | The key an operator adds works afterwards exactly when it does not start like a hash; a misshapen one instead fails every lookup that reaches it. |
| Authentication.MigrationKeepsVerdicts | core/keys/store.go:311-334 | A hash migration, finished or stopped midway, keeps the users every candidate key authenticates, the lookups that fail, and well-formedness. |
| KeyStorage.UserProfile.HashKey | core/keys/store.go:320-325 | Hashing in place; without a salt only the fingerprint is set. |
| KeyStorage.KeyStore.AddUser | core/keys/store.go:135-160 | Which error for which input; otherwise the profile is stored with a key of the form "$argon2id$" and more, and stamped, even if the save fails, nobody else changes, and the file is saved or kept. |
| KeyStorage.KeyStore.GetByKey | core/keys/store.go:187-214 | Whatever the iteration order: a returned user is accepted, no user means all were rejected, an error names a profile whose hash does not parse. In a well-formed store there is never an error, and a user is returned if and only if verifying every hash would accept one. |
| KeyStorage.KeyStore.HashPlaintextKeys | core/keys/store.go:315-327 | The migration loop, in any order: every profile ends as before, hashed, or (the one without a salt) fingerprinted; the count is the number hashed. |
| KeyStorage.KeyStore.MigrateHashes | core/keys/store.go:311-334 | After success every key has the form "$argon2id$" and more; the count is that of the keys hashed, the file changes only when something was migrated, and a second call returns 0. |
| FieldEncryption.DecryptInvertsEncrypt | core/crypto/crypto.go:95-151 | Decryption inverts encryption for every text, the empty one included. |
| FieldEncryption.SavingKeepsTheMeaning | core/keys/encryption.go:110-133 | Saving a field never changes what it decrypts to, errors included, whether it was plaintext, ciphertext or neither. |
| FieldEncryption.PlaintextComesBackIff | core/keys/encryption.go:110-133 | A field in memory comes back from the file if and only if it does not start with the marker "$enc1$". |
| FieldEncryption.SavedFieldsAreEncryptedOnce | core/keys/encryption.go:110-133 | A saved field is empty or encrypted, and saving it again keeps it: nothing is encrypted twice. |
| FieldEncryption.DecryptsIff | core/crypto/crypto.go:122-151 | A text without the marker is taken as it is; one with the marker decrypts if and only if the key has 32 bytes and the rest encodes a nonce of 12 bytes and a ciphertext that the cipher opens, and then to what the cipher gives. |
| FieldEncryption.DecryptionErrors | core/crypto/crypto.go:128-149 | Exactly when each error is reported. |
| FieldEncryption.EncryptedText | core/crypto/crypto.go:95-118 | What is stored for a text, written out, and that only the key length can fail. |
| FieldEncryption.WrongKeyFails | core/crypto/crypto.go:143-149 | A field saved under one key is an error under another exactly when the cipher refuses the ciphertext or the key has the wrong length. |
| ProfileEncryption.SavingKeepsTheProfile | core/keys/encryption.go:110-133 | The same for whole profiles, saved by a process that has the master key or by one that does not. |
| ProfileEncryption.ProfileComesBackIff | core/keys/encryption.go:89-103 | A profile comes back unchanged exactly when none of its three fields starts with the marker. |
| ProfileEncryption.SavedProfileIsSettled | core/keys/encryption.go:57-70 | A saved profile has no sensitive field in the clear, is saved again as it is, and differs in the three fields only. |
| ProfileEncryption.RestartKeepsTheStore | core/keys/encryption.go:78-105 | decrypt(load(save(store))) is decrypt(store), or fails where that fails, for every mix of encrypted and plain profiles; it is the store itself exactly when no field starts with the marker. |
| ProfileEncryption.WrongMasterKeyFails | core/keys/encryption.go:78-105 | A store saved under one key does not open under another, as soon as one ordinary field of one profile is refused by the cipher. |
| KeyStorage.UserProfile.EncryptFields | core/keys/encryption.go:110-133 | Encrypting in place, field by field, is the specified function or reports its error. |
| KeyStorage.UserProfile.DecryptFields | core/keys/encryption.go:90-102 | Decrypting in place changes all three fields or, on an error, none. |
| KeyStorage.LoadKeyStore | core/keys/store.go:88-109 | A missing file gives an empty store, an unreadable one and one that is not valid JSON an error, any other the profiles of the file as separate objects. |
| KeyStorage.KeyStore.EncryptedCopies | core/keys/store.go:388-398 | The clones hold every profile encrypted, or the call names a profile that cannot be; the profiles in memory are untouched. |
| KeyStorage.KeyStore.SaveLocked | core/keys/store.go:381-404 | Saving replaces the file by the whole encrypted store or leaves it, with the reason, and changes nothing in memory. |
| KeyStorage.KeyStore.DecryptProfilesInPlace | core/keys/encryption.go:85-105 | Succeeds if and only if every profile decrypts; on an error each profile is as it was or decrypted entirely. |
| KeyStorage.KeyStore.HasEncryptedFields | core/keys/encryption.go:139-150 | True exactly when some profile has an encrypted field. |
| KeyStorage.KeyStore.CountPending | core/keys/encryption.go:56-70 | The loop counts the profiles missing from the file or with a plain sensitive field there. |
| KeyStorage.KeyStore.MigrateEncryptFields | core/keys/encryption.go:40-76 | Refuses without a master key; else reports the pending profiles of the old file and saves. |
| KeyStorage.NothingPendingAfterSave | core/keys/encryption.go:37-39 | After a successful save nothing is pending, so a second migration reports 0. |
| KeyStorage.OpenStore | cmd/policy.go:93-115 | The service starts if and only if the file is missing or well-formed and, given a master key, decrypts; then it has the file's profiles, decrypted when it has the key. |
| Routing.StrippingRemovesTheRoutedSegments | core/gateway/proxy.go:622-657 | For every path with a leading slash: if a model is extracted, stripping it deletes exactly the chosen "models" segment and the name and keeps all other segments in order, although one walks segments and the other searches text. |
| Routing.RouteTextAt | core/gateway/proxy.go:637-657 | The searched text first occurs exactly at the first routing segment, never earlier inside another segment. |
| Routing.StrippingIsRightIff | core/gateway/proxy.go:622-657 | For every path that routes, stripping deletes exactly the chosen segments if and only if the path starts with a slash, or its first routing segment is not its first segment, or the same pair of segments comes again at once. |
| Routing.OtherTargetsRouteNothing | core/gateway/proxy.go:622-630 | The empty path and the asterisk, the two targets without a leading slash that the HTTP server accepts, route nothing. |
| Routing.ExtractsIff | core/gateway/proxy.go:622-630 | Over all paths with a leading slash, segment by segment: a path names a model if and only if that name is the first non-empty one that follows a segment "models" and is followed by one more segment. |
| Routing.PlainPathExtracts | core/gateway/proxy.go:622-630 | In plain text: "/models/name/rest" names name for every rest, "/models/name" names nothing, and the leading slash makes no difference. |
| Routing.PlainPathStripped | core/gateway/proxy.go:637-656 | In plain text: stripping "/models/name/rest" leaves "/rest". |
| Gateway.ModelRouter.Refresh | core/gateway/router.go:106-155 | A successful query makes its report the one the registry stands for, built aside and swapped in whole; a failed one keeps the registry. |
| Gateway.RegistryOf | core/gateway/router.go:124-153 | A name is registered if and only if some entry of it is running; each backend is registered under its own name without a base path. |
| Gateway.RegisteredAs | core/gateway/router.go:124-140 | What a running model is registered as: plain HTTP at its port on this host, without base path and query, with the endpoints discovered for it, if any. |
| Gateway.ModelRouter.GetBackend | core/gateway/router.go:218-224 | A lookup returns a backend if and only if the latest report lists the name as running; it is the one of the last such entry, under its own name and without a base path. |
| Gateway.ProxiedRequest.Direct | core/gateway/proxy.go:103-145 | The director's in-place rewriting of URL and headers is the specified function of path, query, headers, peer, registry and default target. |
| Gateway.HeadersAreKept | core/gateway/proxy.go:132-144 | The key header is not sent on; every header but it and the three forwarding ones is sent as it came, and nothing else is added. |
| Gateway.ForwardingHeaders | core/gateway/proxy.go:137-144 | The forwarding headers sent on: the client if one is known, always plain HTTP, and the host asked for unless one is named. |
| Gateway.ClientIs | core/gateway/proxy.go:454-475 | Whom the gateway takes for the client, from the forwarding header, the real address or the peer. |
| Gateway.PeerIsFoundIff | core/gateway/proxy.go:468-472 | The peer's host is found if and only if it has no colon: of an IPv6 address only the text before the first colon is left. |
| Gateway.JoinedByOneSlash | core/gateway/proxy.go:442-452 | A base path and a path are joined by exactly one slash. |
| Gateway.UnroutedGoesToTarget | core/gateway/proxy.go:103-131 | A path that names no model goes to the default target: scheme, host, joined path and joined queries. |
| Gateway.RoutedGoesToBackend | core/gateway/proxy.go:103-131 | "/models/name/rest" goes to the backend of that name, else to the default target, as "/rest" below its base path, with both queries. |
| Gateway.CapabilityOfPlainPath | core/gateway/proxy.go:290-326 | For "/models/name/rest": an unknown name and an endpoint that was not discovered are refused, and everything else passes. |
| Gateway.ModelAskedFor | core/gateway/proxy.go:477-506 | The model asked for is the one of the path, else of the body, else "unknown". |
| Gateway.EntersIff | core/gateway/proxy.go:174-242 | A request enters for a user if and only if it speaks for that user, is not answered by the gateway itself, comes from an allowed source and asks for a model the user may use. |
| Gateway.AnsweredAtEntry | core/gateway/proxy.go:174-242 | Exactly when each of the answers before the quota gates is given. |
| GatewayRuns.SentPassedEveryGate | core/gateway/proxy.go:155-349 | In every run of interleaved requests, one that was sent entered as its user and passed the rate, admission and capability gates, and before them both quota checks if a user and a quota manager are there, each of them only after it had entered and had passed the one before. With an authentication provider, it was authenticated if and only if it had a key; with a user, source and access gates let it in. |
| GatewayRuns.KeylessSkipsFourGates | core/gateway/proxy.go:174-254 | A request without a key goes on as nobody, whatever authentication, source and access would have answered, and is in no quota. |
| GatewayRuns.KeylessIsSent | core/gateway/proxy.go:174-349 | The concrete run: without a key a request is sent past a provider that accepts nobody, gates that admit nobody and a quota manager that knows nobody. |
| GatewayServer.GatewayServer.Serve | core/gateway/proxy.go:155-326 | One request through its gates on the real limiter, quota manager, controller and router: the answer is the specified one, the buckets change by at most one step, and the objects stay in the state of the gateway's run so far, now longer by this request's events. |
| GatewayServer.GatewayServer.Complete | core/gateway/proxy.go:351-369 | A reply on the real objects: tokens are recorded by the daily and then the monthly add, or not at all without tokens, user or manager, and the objects stay in the state of the run. |
| GatewayServer.GatewayServer.ObserveModel | core/admission/admission.go:282-316 | An observation on the real controller is one event of the run. |
| GatewayServer.GatewayServer.UsageIsBounded | core/gateway/quota.go:59-109 | So the laws over all runs hold of the objects: what the real quota manager would read at any later instant is within the overshoot bound. |
| GatewayServer.RecordingIsARun | core/gateway/proxy.go:366-369 | A reply and its record are five events of a run, and together change the counters by the two adds and answer the request. |
| GatewayServer.ServingIsARun | core/gateway/proxy.go:155-326 | At any point of any run, the arrival and the five gate events of a request, with nothing between them, give the answer and the buckets specified for the serving method, and leave counters, models and registry alone. |
| GatewayRates.OnlyTheRateGateCharges | core/gateway/proxy.go:216-264 | Over every run the bucket table changes only when a request that entered, and passed both quota checks if it needs them, asks the rate gate, and then by exactly one step of the limiter for its user: a request refused earlier costs nothing. |
| GatewayRates.AsksAtMostOnce | core/gateway/proxy.go:256-264 | A request asks the rate gate at most once in any run. |
| GatewayRates.BucketsAreTheRun | core/gateway/proxy.go:380-419 | The table of the running gateway is what the limiter makes of those calls alone. |
| GatewayRates.RateIsKept | core/gateway/proxy.go:256-264 | End to end, with a rate set: among any other traffic, and whatever the other gates answer, at most rate + rate * minutes requests of a user pass the rate gate in any interval of time. |
| Gateway.SentWithoutRoutingSegments | core/gateway/proxy.go:103-131 | Without a base path the director sends the original segments minus the two routing ones. |
| Gateway.ForwardedAsChecked | core/gateway/proxy.go:293-312 | With an unchanged registry a routed request that enters and passes the capability gate reaches the backend of the very model that access control was asked about, under the very path the gate checked. |
| Gateway.LostModelStillStripped | core/gateway/proxy.go:103-131 | If the model left the registry in between, the request goes to the default backend, still without the routing segments. |
| MetricsParser.ParsePrometheusMetrics | core/admission/parser.go:52-97 | The line loop over the result struct computes the last value read for each gauge. |
| MetricsParser.TakeLine | core/admission/parser.go:60-92 | One line updates at most the gauge it names; a line that does not parse changes nothing. |
| MetricsParser.ConcatenationMerges | core/admission/parser.go:52-97 | Parsing a concatenation is the right-biased merge of the two parses, unless the first text has a line of 1 MiB or more: then everything after it is ignored. |
| MetricsParser.MetricIsRead | core/admission/parser.go:103-148 | Every rendered sample, with either vLLM prefix or none, labels, blanks and timestamp, is read back as its gauge and value. |
| MetricsParser.ParserInvertsPrinter | core/admission/parser.go:52-148 | For any list of rendered samples mixed with comments and malformed lines, parsing yields the last parseable value of each gauge, fractions as percentages. |
| MetricsParser.DeliveredMetrics | core/admission/parser.go:52-100 | What the controller gets from a printed body among any noise, field by field: the last number printed for each gauge, usage as a percentage with values up to 1 as fractions, counts rounded toward zero; a gauge without a number is 0. |
| MetricsParser.OneLineBody | core/admission/parser.go:52-100 | The same for a body of one line, as plain text. |
| MetricsParser.RenderIsText | core/admission/parser.go:103-145 | What a printed line is, with prefixes and names as literal text. |
| MetricsParser.OtherNamesAreNoise | core/admission/parser.go:71-95 | A metric of any other name says nothing. |
| MetricsParser.CommentsAreNoise | core/admission/parser.go:60-66 | Comments and blank lines say nothing. |
| MetricsParser.NothingAfterALongLine | core/admission/parser.go:53-58 | A line of 1 MiB or more ends the reading for good. |
| Downloader.LocalFile.DownloadFile | internal/downloader/huggingface.go:210-308 | One attempt: skip, append or truncate, and which error, from the local size and the answer. |
| Downloader.LocalFile.Fetch | internal/downloader/huggingface.go:134-146 | A downloaded safetensors file that is not valid is removed and the attempt fails. |
| Downloader.ValidityIsDecidedByTheHeader | internal/downloader/huggingface.go:333-376 | A prefix of a valid file is valid exactly from the end of its header on, so a truncated tail is not noticed. |
| Downloader.ValidIff | internal/downloader/huggingface.go:333-370 | Validity on the bytes: eight bytes of header size, least significant first, from 1 byte to 100 MiB, and the whole header after it. |
| Downloader.RefusalKeepsTheFile | internal/downloader/huggingface.go:210-262 | No answer, a bad status and a file that cannot be opened keep the partial file, each with its own error. |
| Downloader.AnswerIsStored | internal/downloader/huggingface.go:262-285 | An accepted answer is appended to a partial file and replaces any other. |
| Downloader.SuccessIff | internal/downloader/huggingface.go:285-310 | Success is reported if and only if the answer was not cut and completes the file. |
| Downloader.TheRestCompletes | internal/downloader/huggingface.go:210-310 | From any prefix the rest of the remote file completes it, and so does the whole file from nothing. |
| Downloader.WhenOneAnswerIsSafe | internal/downloader/huggingface.go:210-308 | From a prefix of the remote file, one honest answer leaves a prefix or a longer file if and only if it is not a 200 answer to a resumed request that breaks off, or what arrived is too long or repeats the remote bytes. |
| Downloader.FileStaysSound | internal/downloader/huggingface.go:210-308 | Over any run of interrupted attempts in which only 206 answers break off, the file is a prefix of the remote file or longer. |
| Downloader.SuccessMeansEqual | internal/downloader/huggingface.go:287-305 | Under that condition success means the remote file, byte for byte (section 14.2 of RFC 9110). |
| Downloader.EverySuccessIsTheRemoteFile | internal/downloader/huggingface.go:210-308 | Over runs: in any such run every attempt that reports success leaves exactly the remote file, and it is there ever after. |
| Downloader.BrokenFullAnswerCanPassAsSuccess | internal/downloader/huggingface.go:254-260 | Without it the law fails: a 200 answer to a resumed request is appended, and after a break the next resume reports success on wrong bytes. |
| Downloader.TooLongIsReplaced | internal/downloader/huggingface.go:213-260 | A file that grew too long is replaced by the next accepted answer. |
| Downloader.PartialAnswersProgress | internal/downloader/huggingface.go:254-291 | Each non-empty 206 attempt lowers the bytes remaining by what it received. |
| Downloader.ResumingEnds | internal/downloader/huggingface.go:210-308 | So a run of such attempts is no longer than the bytes missing, and once none is missing the next attempt reports success at once. |
| Oidc.VerifiesIff | core/management/policy/oidc.go:241-257 | A cookie verifies as sid exactly when it is sid, a dot, and a dot-free text that decodes to the signature of sid. |
| Oidc.VerifyInvertsSign | core/management/policy/oidc.go:233-257 | Verification inverts signing for every session id, dotted ones included, because the encoding has no dot. |
| Oidc.OIDC.HandleLogin | core/management/policy/oidc.go:118-130 | A login issues its state for ten minutes. |
| Oidc.OIDC.TakeState | core/management/policy/oidc.go:139-147 | Checking a state consumes it, accepted or not. |
| Oidc.OIDC.StoreSession | core/management/policy/oidc.go:177-184 | The session is stored with subject, role and expiry. |
| Oidc.OIDC.HandleCallback | core/management/policy/oidc.go:132-202 | A callback signs in exactly when its state is accepted and the provider vouches; the cookie is the signed session id. |
| Oidc.OIDC.HandleLogout | core/management/policy/oidc.go:204-225 | A logout removes the session its cookie verifies as, and only that one. |
| Oidc.OIDC.ActorFromSession | core/management/policy/admins.go:66-88 | The session speaks for its subject only if it verifies, exists, is an admin's and has not expired. |
| Oidc.OIDC.AuthenticateAdmin | core/management/policy/admins.go:28-50 | A bearer token is matched against the legacy key first, then the named admins; otherwise the session decides. |
| Oidc.AcceptedOnceWithinTenMinutes | core/management/policy/oidc.go:118-147 | In every run an accepted callback comes at most ten minutes after a login that issued its state, and is the first to present it since. |
| Oidc.AcceptedIff | core/management/policy/oidc.go:118-147 | In any run a callback is accepted if and only if the last login or callback to name its state is a login at most ten minutes before. |
| Oidc.ClaimedIff | core/management/policy/oidc.go:132-184 | A callback may store a session if and only if it was accepted and has not stored one since. |
| Oidc.StateIsAcceptedAtMostOnce | core/management/policy/oidc.go:139-147 | A state issued once is accepted by at most one callback. |
| Oidc.SessionComesFromLastGrant | core/management/policy/oidc.go:177-216 | A session exists exactly if some callback stored it and nothing stored or removed it since, and it holds what that callback stored. |
| Oidc.CookieSpeaksForSubject | core/management/policy/admins.go:66-88 | A cookie speaks for a subject if and only if its session id was last stored for that subject with the admin role by a callback whose state was accepted, has not expired and was not logged out since. |
| Oidc.GrantFollowsAcceptedClaim | core/management/policy/oidc.go:132-184 | Every session goes back to an accepted state check of its own callback, used for one session only. |

## Left out

- Floating-point rounding: percentages, tokens and EMAs are reals, and `int(...)` is truncation toward zero; NaN and infinities are not among the parsed values.
- 64-bit overflow of counters, sizes and durations: integers are unbounded.
- Wall-clock jumps: run theorems about rates and quotas assume nondecreasing readings where they say so; the methods themselves accept any reading.
- Unicode whitespace in the Prometheus parser (ASCII blanks only), and signs, blanks and base prefixes that `Sscanf` would accept in a hash's version and parameters: texts that `hashAPIKey` prints contain none.
- Internals of argon2id, HMAC, AES-GCM, base64, JSON, YAML, SQLite and Redis; marshalling a profile to JSON and back is taken to be the identity, and a file without a users object is not modelled.
- I/O errors of the SQLite and Redis backends: every statement succeeds. The quota manager and the overshoot bound are over the memory backend and over keyed counters; that Redis reads what the keyed counters hold is proved in `KeyedQuota`.
- Interleaving inside the methods of `GatewayServer`, which run one after the other: requests interleaved gate by gate are the runs of `GatewayRuns`, which these methods extend.
- Failure of the random source for encryption nonces (for salts it is modelled).
- Two map entries sharing one profile object: `KeyStore.Valid` excludes it, and `AddUser` requires that the object passed is new or is the one stored under its ID.
- Reads of a profile concurrent with its change outside the store's lock, and read-modify-write of the key file by two processes: the file lock covers the write only.
- `KeyStore.Save`, which writes the file in place, outside the atomic protocol.
- Grant, revoke, quota, removal and last-used updates of profiles, model access lists and usage reports: one-line changes of one field.
- IP allowlists and CIDR matching, which appear as an arbitrary answer in `Gateway.Gates`.
- A request body that cannot be read (answered 400 just before forwarding), the bodies of error answers, audit logging, metrics and token parsing of responses.
- What the reverse proxy of the standard library adds to a request after the director, and headers with several values.
- Capability discovery: the endpoint lists of the backends are a parameter of the registry refresh.
- Choosing and discovering the files of a model, the HEAD request for the size and the shard manifest.
- Provider discovery, code exchange and token verification of OIDC: the provider's answer is a parameter. Sessions and states are never pruned by the program, and neither are they here.
- HTTP servers and clients, Docker and GPU probes, command line, installer, tunnel, TLS, tracing, health probes, the environment overlay of the configuration, quantization fit analysis, and the server script embedded in `internal/docker/cpu_inference.go`.
