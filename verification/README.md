# Varanus network-traffic monitor and shut-off switch, in Dafny

A model of the core of Yelp's Varanus library for Android. It has two halves.

**Admission control.**
- `CategoryOfTrafficShutoff` is a three-state machine for one category of traffic: SENDING, SHUTOFF and ATTEMPTING.
  - A shut-off response code blocks the category until a deadline. The deadline is `backoffSize × backoffIncrement` plus a random jitter.
  - The backoff grows by one with each renewed shut-off, up to `maxBackoff`.
  - From the deadline on, one request is let through. After that, requests are throttled until a success resets the category.
  - Every state change is written to a persister. A category that is created again restores itself from that record. The old label "INACTIVE" reads as SENDING; any other unknown label makes the restore throw.
- `NetworkShutoffManager` routes response codes and drop queries to one lazily created global category and to a registry of per-endpoint categories.

**Traffic accounting.**
- `EndpointSpecificNetworkTracker` counts requests and bytes for one category. It is seeded from the traffic persister.
- `LogUploadingManager.registerLogs` is rate-limited. It uploads one summary per category with a non-zero count, then one "total" summary. It clears each category it uploaded.
- `NetworkMonitor.addLog` finds or creates the log's tracker, adds the log, and offers the whole map for a flush.

Modelling conventions:
- The model is purely functional. Each operation maps the old fields to the new fields and to what it wrote:
  - a shut-off record saved;
  - a summary uploaded;
  - a call on the traffic persister.
- The clock reading (`now`) is an input. So is each draw of the randomizer: the jitter of a deadline, and the boolean answer of the ATTEMPTING throttle.
- The iteration order of the source's `HashMap` is an input too. It is any enumeration of the map's keys, and every flush property is proved for all orders.
- A `Result` stands for an operation that can throw. That is `State.valueOf` on an unknown persisted label.

Modules, one per file:
- `Wrappers`: `Option` and `Result`.
- `ShutoffConfig`: `Config` and the randomizer's contract.
- `ShutoffLog`: the shut-off record and the in-memory persister used by the tests.
- `CategoryShutoff`: one category's machine.
- `ShutoffManager`: the manager.
- `ShutoffScenarios`: the manager's unit-test scenarios.
- `TrafficLog`: traffic records and persister calls.
- `NetworkTracker`: one category's counters.
- `LogUploading`: the flush.
- `NetworkMonitor`: the tracker map.
- `TrafficScenarios`: the tracker and uploader unit-test scenarios.

Where the code and its documentation disagree, the model follows the code:
- `getErrorCodeForResponse` returns the *endpoint* shut-off code while the global category drops, and the *global* code otherwise. The code and its unit test both do this. A reader of the doc comment ("global blocks take precedence") might expect the reverse.
- The ATTEMPTING throttle drops a request when `Math.random() * attemptingThrottle < 1`. With the test configuration's 10, that drops 1 request in 10, not the "9 in 10" the configuration's comment says. The model takes the draw's boolean result as an input, so it holds for either reading.

## Model

| member | source | states |
|---|---|---|
| ShutoffConfig.RandomizeTime | varanus/src/main/java/com/yelp/android/varanus/shutoff/NetworkShutoffManager.kt:124-128 | a randomized deadline is never earlier than the computed one and, for a jitter the default randomizer can draw, at most `backoffSpread` later |
| ShutoffConfig.CoerceAtMost | varanus/src/main/java/com/yelp/android/varanus/shutoff/CategoryOfTrafficShutoff.kt:86 | the result is the value or the limit, whichever is smaller: never above either |
| ShutoffLog.GetLog | varanus/src/test/java/com/yelp/android/varanus/shutoff/TestNetworkShutoffLogPersister.kt:27-29 | a key never written gives the default record (SENDING, backoff 1, deadline 0, that key); in a persister whose records are filed under their own endpoint, the record returned names the key asked for |
| ShutoffLog.AddAndUpdateLog | varanus/src/test/java/com/yelp/android/varanus/shutoff/TestNetworkShutoffLogPersister.kt:36-38 | reading the written key back gives the written record; every other key reads as before; the key set gains exactly the written key; records stay filed under their own endpoint |
| ShutoffLog.Clear | varanus/src/test/java/com/yelp/android/varanus/shutoff/TestNetworkShutoffLogPersister.kt:20-21 | the test persister's clear changes nothing that can be read |
| ShutoffLog.WrittenKeys | varanus/src/test/java/com/yelp/android/varanus/shutoff/TestNetworkShutoffLogPersister.kt:10-13 | after a sequence of writes to an empty persister, `getAll` lists exactly the endpoints written, each record is filed under its own endpoint, and the last record written is what its key reads back |
| CategoryShutoff.Label | varanus/src/main/java/com/yelp/android/varanus/shutoff/CategoryOfTrafficShutoff.kt:27-31 | the name persisted for a state reads back as that same state |
| CategoryShutoff.ParseState | varanus/src/main/java/com/yelp/android/varanus/shutoff/CategoryOfTrafficShutoff.kt:46-51 | a persisted label is accepted exactly when it is "INACTIVE" or one of the three state names, and "INACTIVE" reads as SENDING; any other label is an error |
| CategoryShutoff.Snapshot | varanus/src/main/java/com/yelp/android/varanus/shutoff/CategoryOfTrafficShutoff.kt:95-100 | the saved record carries the category's name, and restoring from it gives back exactly the same category (save/restore round trip) |
| CategoryShutoff.Restore | varanus/src/main/java/com/yelp/android/varanus/shutoff/CategoryOfTrafficShutoff.kt:44-57 | a category with no record starts as SENDING with backoff 1 and no deadline; one with a record takes its backoff and deadline and fails exactly when its label is unknown; a stored state name restores as that state, and "INACTIVE" as SENDING |
| CategoryShutoff.Reset | varanus/src/main/java/com/yelp/android/varanus/shutoff/CategoryOfTrafficShutoff.kt:64-71 | the category ends SENDING; from SENDING nothing changes and nothing is written; otherwise the deadline goes to 0 and the backoff to 1, and that is saved |
| CategoryShutoff.ShutOff | varanus/src/main/java/com/yelp/android/varanus/shutoff/CategoryOfTrafficShutoff.kt:80-89 | the category ends SHUTOFF with deadline `now + backoff × increment + jitter`, using the backoff from before the increment; the backoff then grows by one, capped at `maxBackoff`; the new fields are saved |
| CategoryShutoff.ShouldDropRequest | varanus/src/main/java/com/yelp/android/varanus/shutoff/CategoryOfTrafficShutoff.kt:109-120 | SENDING admits; ATTEMPTING answers the throttle draw; SHUTOFF drops before the deadline and, from the deadline on, admits, moves to ATTEMPTING and saves; a drop never changes or writes anything |
| CategoryShutoff.TransitionsArePersisted | varanus/src/main/java/com/yelp/android/varanus/shutoff/CategoryOfTrafficShutoff.kt:91-100 | after reset, shutoff or a drop query, the persister restores exactly the new fields, so a re-created category resumes where the old one stopped |
| CategoryShutoff.SavedStepMirrors | varanus/src/main/java/com/yelp/android/varanus/shutoff/CategoryOfTrafficShutoff.kt:95-99 | a step that saves its own snapshot, or changes nothing, keeps the persister restoring the live category |
| CategoryShutoff.ResetIdempotent | varanus/src/main/java/com/yelp/android/varanus/shutoff/CategoryOfTrafficShutoff.kt:64-71 | a second reset changes nothing and writes nothing |
| CategoryShutoff.BackoffAfterRun | varanus/src/main/java/com/yelp/android/varanus/shutoff/CategoryOfTrafficShutoff.kt:73-89 | with no success in between, the backoff after n shut-off signals is the starting backoff plus n, capped at `maxBackoff`; drop queries never change it |
| CategoryShutoff.BackoffMonotone | varanus/src/main/java/com/yelp/android/varanus/shutoff/CategoryOfTrafficShutoff.kt:77-78 | along any run without success the backoff never decreases and stays within [1, maxBackoff] |
| CategoryShutoff.NthFailureWindow | varanus/src/test/java/com/yelp/android/varanus/shutoff/GlobalNetworkShutoffManagerTest.kt:43-72 | the n-th consecutive shut-off blocks for `min(n, maxBackoff) × backoffIncrement` plus its jitter, measured from the signal |
| CategoryShutoff.ShutoffBlocksUntilDeadline | varanus/src/main/java/com/yelp/android/varanus/shutoff/CategoryOfTrafficShutoff.kt:102-120 | after a shut-off every query before the deadline drops without effect; at or after it exactly one request is admitted and the category moves to ATTEMPTING, where every answer is the throttle's; with a valid jitter the deadline is at least one backoff window away |
| ShutoffManager.Init | varanus/src/main/java/com/yelp/android/varanus/shutoff/NetworkShutoffManager.kt:39-51 | the registry holds one category per persisted key other than "global", each restored from its record; construction fails exactly when one of those records has an unknown label; the result is in step with its persister |
| ShutoffManager.GlobalShutoff | varanus/src/main/java/com/yelp/android/varanus/shutoff/NetworkShutoffManager.kt:34-36 | the global category is the live one once created, and before that is restored from the persister under "global" |
| ShutoffManager.SetEndpointSpecificShutoff | varanus/src/main/java/com/yelp/android/varanus/shutoff/NetworkShutoffManager.kt:72-85 | an existing entry is reused, and a missing one is restored from the persister (failing only if that fails); that category is shut off; the key set gains exactly that endpoint; the global category and every other entry are unchanged |
| ShutoffManager.ResetEndpoint | varanus/src/main/java/com/yelp/android/varanus/shutoff/NetworkShutoffManager.kt:92-95 | the global category is reset; the endpoint's category is reset if it exists and is never created; every other entry and the key set are unchanged |
| ShutoffManager.DetermineShutoffStatusFromRequest | varanus/src/main/java/com/yelp/android/varanus/shutoff/NetworkShutoffManager.kt:60-66 | the global code shuts off only the global category; the endpoint code shuts off only that endpoint; any other code, or no response, is a success for that endpoint and for the global category |
| ShutoffManager.ShouldDropRequest | varanus/src/main/java/com/yelp/android/varanus/shutoff/NetworkShutoffManager.kt:101-107 | if the endpoint's own category drops, the answer is "drop" and nothing is touched; otherwise the answer is the global category's, the endpoint's category (if any) and the global category both take their query step (a SHUTOFF past its deadline becomes ATTEMPTING), every other entry is unchanged, and an unknown endpoint never creates an entry |
| ShutoffManager.GetErrorCodeForResponse | varanus/src/main/java/com/yelp/android/varanus/shutoff/NetworkShutoffManager.kt:113-119 | while the global category drops the endpoint code is reported, otherwise the global code; only the global category is touched |
| ShutoffManager.EndpointStepKeepsSync | varanus/src/main/java/com/yelp/android/varanus/shutoff/NetworkShutoffManager.kt:72-85 | installing a saved step of one endpoint keeps every live category restorable from the persister and the registry equal to the persisted non-global keys |
| ShutoffManager.GlobalStepKeepsSync | varanus/src/main/java/com/yelp/android/varanus/shutoff/NetworkShutoffManager.kt:34-36 | the same invariant holds when a step of the global category is installed |
| ShutoffManager.MirrorsAfterOtherWrite | varanus/src/test/java/com/yelp/android/varanus/shutoff/TestNetworkShutoffLogPersister.kt:36-38 | a write under another key does not change what a category restores to |
| ShutoffManager.DetermineKeepsSync | varanus/src/main/java/com/yelp/android/varanus/shutoff/NetworkShutoffManager.kt:60-66 | handling any response keeps the persister in step with every live category |
| ShutoffManager.SetEndpointKeepsSync | varanus/src/main/java/com/yelp/android/varanus/shutoff/NetworkShutoffManager.kt:72-85 | shutting off one endpoint keeps the persister in step |
| ShutoffManager.ResetEndpointKeepsSync | varanus/src/main/java/com/yelp/android/varanus/shutoff/NetworkShutoffManager.kt:92-95 | resetting an endpoint and the global category keeps the persister in step |
| ShutoffManager.DropQueryKeepsSync | varanus/src/main/java/com/yelp/android/varanus/shutoff/NetworkShutoffManager.kt:101-107 | a drop query keeps the persister in step |
| ShutoffManager.ErrorCodeKeepsSync | varanus/src/main/java/com/yelp/android/varanus/shutoff/NetworkShutoffManager.kt:113-119 | asking for the error code keeps the persister in step |
| ShutoffManager.RestartRestoresManager | varanus/src/main/java/com/yelp/android/varanus/shutoff/NetworkShutoffManager.kt:39-51 | a manager built afresh over the persister of a running one has the same registry, and its global category restores to the live one: a restart loses no shut-off |
| ShutoffManager.GlobalBlockDropsEveryCategory | varanus/src/main/java/com/yelp/android/varanus/shutoff/NetworkShutoffManager.kt:101-107 | while the global category is shut off, every endpoint's requests are dropped |
| ShutoffManager.SuccessOnOtherCategory | varanus/src/main/java/com/yelp/android/varanus/shutoff/NetworkShutoffManager.kt:87-95 | a success (any code other than the two reserved ones) on one endpoint puts the global category back to SENDING, leaves another endpoint's running block untouched so that endpoint keeps dropping, and the succeeding endpoint no longer drops |
| ShutoffScenarios.FreshManagerAdmits | varanus/src/test/java/com/yelp/android/varanus/shutoff/GlobalNetworkShutoffManagerTest.kt:16-19 | a manager over an empty persister admits traffic for any endpoint |
| ShutoffScenarios.EndpointFailureBlocksOnlyThatEndpoint | varanus/src/test/java/com/yelp/android/varanus/shutoff/PerEndpointNetworkShutoffManagerTest.kt:12-22 | after a 555 for "test", "test" drops and "test2" does not |
| ShutoffScenarios.GlobalFailureBlocksAllEndpoints | varanus/src/test/java/com/yelp/android/varanus/shutoff/GlobalNetworkShutoffManagerTest.kt:80-84 | after a 556, both "test" and "test2" drop |
| ShutoffScenarios.ClearingGlobalKeepsEndpointBlock | varanus/src/test/java/com/yelp/android/varanus/shutoff/PerEndpointNetworkShutoffManagerTest.kt:49-61 | a 555 and a 556 for "test", then a 200 for "test2": "test" still drops and "test2" does not |
| ShutoffScenarios.BothEndpointsShutOff | varanus/src/test/java/com/yelp/android/varanus/shutoff/PerEndpointNetworkShutoffManagerTest.kt:42-43 | a 555 for each of two endpoints leaves both shut off past the current time, in step with the persister |
| ShutoffScenarios.ClearingOneEndpointKeepsTheOther | varanus/src/test/java/com/yelp/android/varanus/shutoff/PerEndpointNetworkShutoffManagerTest.kt:40-47 | 555 for "test" and "test2", then a 200 for "test": "test" flows and "test2" still drops |
| ShutoffScenarios.ErrorCodes | varanus/src/test/java/com/yelp/android/varanus/shutoff/GlobalNetworkShutoffManagerTest.kt:74-91 | a fresh manager reports 556; after a 556 it reports 555 |
| NetworkTracker.NewTracker | varanus/src/main/java/com/yelp/android/varanus/EndpointSpecificNetworkTracker.kt:42-52 | a new tracker starts from the persister's summary of the trailing window, after asking for it exactly once |
| NetworkTracker.AddLogAndPersist | varanus/src/main/java/com/yelp/android/varanus/EndpointSpecificNetworkTracker.kt:59-66 | a request adds one to the count and a response adds none; every log adds its size; the log is handed to the persister once, unchanged |
| NetworkTracker.ClearLog | varanus/src/main/java/com/yelp/android/varanus/EndpointSpecificNetworkTracker.kt:71-76 | both counters go to zero and the persister is told to clear this tracker's window for its endpoint |
| NetworkTracker.ClearIdempotent | varanus/src/main/java/com/yelp/android/varanus/EndpointSpecificNetworkTracker.kt:71-76 | clearing twice leaves the counters as clearing once |
| NetworkTracker.AddAllCounts | varanus/src/main/java/com/yelp/android/varanus/EndpointSpecificNetworkTracker.kt:59-66 | after a run of logs the count has grown by the number of requests and the size by all their bytes, and every log was handed to the persister once, in order |
| LogUploading.NewUploader | varanus/src/main/java/com/yelp/android/varanus/LogUploadingManager.kt:23-28 | the last flush is placed one period in the past, so the first call at any non-negative time flushes |
| LogUploading.FlushEach | varanus/src/main/java/com/yelp/android/varanus/LogUploadingManager.kt:51-66 | the per-category loop keeps the map's key set and leaves every tracker it has not visited as it was |
| LogUploading.FlushEachTrackers | varanus/src/main/java/com/yelp/android/varanus/LogUploadingManager.kt:51-66 | after the loop, every visited tracker with a non-zero count is cleared and every other tracker is as before |
| LogUploading.FlushEachUploads | varanus/src/main/java/com/yelp/android/varanus/LogUploadingManager.kt:53-65 | the loop uploads, in visiting order, exactly the categories with a non-zero count, each with its size and count from before its clear, and clears exactly those |
| LogUploading.FlushEachTotals | varanus/src/main/java/com/yelp/android/varanus/LogUploadingManager.kt:53-58 | the loop's running size and count are the sums over exactly the categories it uploaded |
| LogUploading.KeptMembers | varanus/src/main/java/com/yelp/android/varanus/LogUploadingManager.kt:51-53 | the uploaded categories are distinct and are exactly the map's keys with a non-zero count |
| LogUploading.SeqSumIsSum | varanus/src/main/java/com/yelp/android/varanus/LogUploadingManager.kt:56-57 | adding up along any distinct visiting order equals the order-free sum over the same categories |
| LogUploading.CountOverNonZero | varanus/src/main/java/com/yelp/android/varanus/LogUploadingManager.kt:53-57 | skipping the categories with a zero count loses no requests: the sum over the non-zero ones is the sum over all |
| LogUploading.RegisterLogs | varanus/src/main/java/com/yelp/android/varanus/LogUploadingManager.kt:42-70 | when throttled nothing is uploaded or changed; otherwise the flush time is recorded, the key set is kept and the last upload is the "total" summary over the uploader's window |
| LogUploading.RegisterLogsTotal | varanus/src/main/java/com/yelp/android/varanus/LogUploadingManager.kt:68 | an unthrottled flush sends one upload per non-zero category plus one; the last is "total", with the sums of size and count over those categories, even when both are zero |
| LogUploading.RegisterLogsEach | varanus/src/main/java/com/yelp/android/varanus/LogUploadingManager.kt:51-66 | before the total, each category with a non-zero count is uploaded exactly once with its values from before the flush, and nothing else is uploaded |
| LogUploading.RegisterLogsClears | varanus/src/main/java/com/yelp/android/varanus/LogUploadingManager.kt:64-69 | after a flush, the uploaded categories and a tracker keyed "total" are cleared, all other trackers are unchanged, every count is zero, and the persister received one clear per uploaded category plus one for "total" |
| LogUploading.FlushIgnoresOrder | varanus/src/main/java/com/yelp/android/varanus/LogUploadingManager.kt:42-70 | the map's iteration order changes only the order of the per-category uploads: the same uploads, the same final "total", the same trackers and flush time |
| LogUploading.OrderKeepsTrackers | varanus/src/main/java/com/yelp/android/varanus/LogUploadingManager.kt:51-69 | two iteration orders leave the same trackers |
| LogUploading.OrderKeepsUploads | varanus/src/main/java/com/yelp/android/varanus/LogUploadingManager.kt:51-68 | two iteration orders send the same number of uploads, the same set, and the same "total" last |
| NetworkMonitor.NewMonitor | varanus/src/main/java/com/yelp/android/varanus/NetworkMonitor.kt:19-27 | a new monitor has no trackers and an uploader over the same window whose first call flushes |
| NetworkMonitor.Track | varanus/src/main/java/com/yelp/android/varanus/NetworkMonitor.kt:39-55 | the log's category gets a tracker seeded from the persister if it had none, and an existing one is kept; that tracker adds the log; every other tracker is unchanged; trackers stay keyed by their own category |
| NetworkMonitor.AddLogToMonitor | varanus/src/main/java/com/yelp/android/varanus/NetworkMonitor.kt:39-57 | after tracking, a throttled call changes nothing more; an unthrottled one records the flush time and ends with the "total" upload; the tracker's persister calls come before the flush's |
| NetworkMonitor.TrackCounts | varanus/src/main/java/com/yelp/android/varanus/NetworkMonitor.kt:30-55 | tracking a request grows the count over all categories by one (a response by none), plus the persisted count a new category starts from |
| NetworkMonitor.AddLogKeepsValid | varanus/src/main/java/com/yelp/android/varanus/NetworkMonitor.kt:39-57 | trackers stay keyed by their own category and keep the monitor's window |
| NetworkMonitor.AddLogReportsEveryRequest | varanus/src/main/java/com/yelp/android/varanus/NetworkMonitor.kt:39-57 | when a call flushes, the "total" upload reports every request counted since the last flush, the new one included, and every count starts again from zero |
| TrafficScenarios.TracksRequestsAndResponses | varanus/src/test/java/com/yelp/android/varanus/EndpointSpecificNetworkTrackerTest.kt:15-40 | a tracker seeded with (1, 1) and fed five 10-byte logs counts 6 requests, or 1 if they are responses, and 51 bytes |
| TrafficScenarios.OneLogSentGetsRecorded | varanus/src/test/java/com/yelp/android/varanus/LogUploadingManagerTest.kt:30-39 | one request at time 10 sends exactly two uploads, "test" and "total", each one request of two bytes |
| TrafficScenarios.FirstRequestFlushes | varanus/src/test/java/com/yelp/android/varanus/LogUploadingManagerTest.kt:42-45 | the first request flushes, sends two uploads and leaves both trackers at zero |
| TrafficScenarios.SecondRequestThrottled | varanus/src/test/java/com/yelp/android/varanus/LogUploadingManagerTest.kt:47-52 | a request half a period later is counted but nothing is uploaded |
| TrafficScenarios.ThirdRequestSameCategory | varanus/src/test/java/com/yelp/android/varanus/LogUploadingManagerTest.kt:54-57 | after the period, the two pending requests on "test" go out as "test" and "total" |
| TrafficScenarios.ThirdRequestOtherCategory | varanus/src/test/java/com/yelp/android/varanus/LogUploadingManagerTest.kt:71-77 | with one pending request on each category, the flush sends three uploads, the last a total of two requests |
| TrafficScenarios.AlertsOnlyAfterTimeExpires | varanus/src/test/java/com/yelp/android/varanus/LogUploadingManagerTest.kt:41-58 | requests at 10, 4510 and 13511 give 2, 0 and 2 uploads |
| TrafficScenarios.TwoEndpointsSendAtCorrectTimes | varanus/src/test/java/com/yelp/android/varanus/LogUploadingManagerTest.kt:60-78 | the same with the middle request on "test2": five uploads in all, the last a total of two requests and four bytes |

## Left out

- Concurrency is not modelled: coroutines, `@Synchronized`, `ConcurrentHashMap.putIfAbsent` and the asynchronous `launch` of the manager's restore. Each operation is one atomic step. `Init` runs the restore to completion, and fails as a whole if any record has an unknown label, whereas the source's background job would stop part-way.
- ShutoffManager.Init: the order in which `getAll()` lists keys is not modelled. Construction is stated over the set of keys, because a successful restore does not depend on that order.
- Integer widths are not modelled. The source's `Int` and `Long` fields (backoff, deadlines, counters, sizes) are unbounded integers here. Overflow needs values far outside any configuration or traffic the library is meant for.
- ShutoffConfig.RandomizeTime: the floating-point draw `Math.random() * backoffSpread` rounded to a `Long` is replaced by an integer jitter. The bounds are stated for a jitter in [0, backoffSpread], which is the range that rounding produces for a non-negative spread.
- The throttle `randomizeSendRequest` (a floating-point draw) is an input coin. The model states no probability.
- The clock is an input. `registerLogs` reads the clock twice, once for the test and once for the recorded time; the model uses one reading for both.
- The Realm-backed persisters of the sample app are left out. So are the OkHttp interceptor, the response-body wrapper and the endpoint-key extractor: they are glue around the core.
- The shut-off persister is the in-memory test persister. The traffic persister is external: its calls are recorded in order, and the answer to `getSizeAndClear` is an input. Its windowing and trimming are not modelled.
- The unused `initialTrafficLog` built in the tracker's constructor has no effect and is not modelled.
- The source's counters are read through `.get()` in the uploader, as if they were atomic. They are plain fields here.
- ShutoffManager.ShouldDropRequest: when the endpoint's own query does not drop and the lazily created global category then fails to restore (an unknown stored label), the source has already moved the endpoint to ATTEMPTING and saved it before the exception. The model returns a plain `Failure` and does not carry that partial step.
- ShutoffManager.DetermineKeepsSync: this lemma and the other lemmas that keep the persister in step assume no endpoint is named "global". Such an endpoint would share the persister key "global" with the global category. The source does not forbid it.
- NetworkMonitor.AddLogToMonitor: takes the map's iteration order as a parameter, and states the flush through the `LogUploading` lemmas rather than repeating them.
