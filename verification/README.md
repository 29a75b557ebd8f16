# Flood monitoring services: a verified model

This project models the stateful core of the flood monitoring and management services in Dafny and proves
what their design relies on. `dafny verify dfyconfig.toml` checks all of it.

| file | what it models |
|---|---|
| `Alerts.dfy` | optional values, the alert envelope |
| `RedundancyTracker.dfy` | the rule engine's redundancy tracker, one complete call at a time (FR-08) |
| `TrackerRuns.dfy` | whole runs of complete calls and fault-counter expiries, measured against sensor health |
| `TrackerAlerts.dfy` | what the tracker's alerts and fault counters say |
| `TrackerInterleaving.dfy` | the same tracker driven by two tasks whose single Redis commands interleave |
| `Watchdog.dfy` | the silence watchdog: one scan, and when a silence is sure to be noticed |
| `WatchdogReports.dfy` | when a snapshot is reported, and which parameters |
| `RuleEngineRuns.dfy` | consumer and watchdog together: which losses of coverage are announced |
| `BatchWriter.dfy` | the telemetry writer: buffer swap, column arrays, flush event, failure |
| `ThresholdEvaluator.dfy` | threshold evaluation and trend of one message |
| `ThresholdAlerts.dfy` | what threshold alerts say, and trends on every history |
| `RuleEngineConsumer.dfy` | sliding windows and the pipeline of the rule engine over a stream |
| `RuleEngineStream.dfy` | alerts sent and snapshots stored over whole streams |
| `ThresholdCache.dfy` | the rule engine's threshold cache |
| `AlertStore.dfy` | alert persistence, fan-out and acknowledgement under replay |
| `Sorting.dfy` | sorting by a total order, and the order of strings |
| `AlertQueries.dfy` | the SQL builders of the alert service and the dashboard BFF |
| `AlertRequests.dfy` | what the filters of a request mean for each row |
| `AlertPages.dfy` | pages of one result fetched by separate queries |
| `IngestionGateway.dfy` | the ingestion pipeline over the sensor cache, with overlapping lookups |
| `ScopeCache.dfy` | the BFF's cache of the areas a user may see |
| `SensorSimulator.dfy` | the simulated sensor: random walk, edge filter, fault injection |

Code that changes state is a class whose methods are proved equal to a step function; the theorems are about
runs of those steps. Randomness, clocks, database answers and Kafka, MQTT and Redis outcomes are parameters, so
every theorem holds for all of them. Redis is a set of maps whose commands are atomic. Measurements are
real numbers without rounding. Alert identifiers, random UUIDs in the program, are numbers drawn from a supply.

## Findings

Where the program and its documentation or comments disagree, the model follows the program.

* A sensor count falls short of the healthy sensors by exactly the smaller of two amounts: the initial shortfall plus
  the expired faults, and the lowest health of any moment plus the faults expired since (`ShortfallClosedForm`;
  services/rule-engine/src/rule_engine/redundancy_tracker.py:84-95). Hence the documented rebuild of the counts by
  replay (services/rule-engine/README.md:122-130) gives the right count only if the replay passes through a total loss
  after which no fault expires (`RebuildIsExactIffFullLossSeen`).
* The two tasks that drive the tracker race (services/rule-engine/src/rule_engine/__main__.py:58-62): an interleaving
  leaves a count of 1 with no healthy sensor (`UnguardedRaceOverstates`). Without expiry, excluding one kind of step is
  enough for exact counts (`GuardedInterleavingIsExact`), and the ledger says by how much any interleaving is off
  (`RunLedger`).
* A total loss that the watchdog discovers is not announced, not even by later faulty readings, until a covering sensor
  recovers or its fault counter expires, because its alerts are dropped
  (services/rule-engine/src/rule_engine/watchdog.py:71-79; `TotalLossAnnouncedIffConsumed`,
  `WatchdogLossIsNeverAnnounced`, `WatchdogLossHappens`); `PrioritySentIff` says when an alert is sent. When the commands
  of both tasks interleave, even a loss that a message completes can go unannounced (`ConsumerReportsZeroIff`,
  `SplitLossGoesUnannounced`). Whether a silence can be discovered at all depends on which of two services writes a
  Redis key last (services/telemetry-service/src/telemetry_service/hot_state.py:49-52; `LastWriterDecides`), and one key
  that raises cuts a scan short (services/rule-engine/src/rule_engine/watchdog.py:47-64; `Scan`).
* One failed insert, or one unreadable timestamp, ends the telemetry flush loop for good
  (services/telemetry-service/src/telemetry_service/writer.py:141-182; `RunIsOverIff`, `FailureStopsWritingForGood`); an
  unreadable timestamp also loses its whole batch (`NothingLostIffParsable`).
* A warning bound can hide a critical crossing (services/rule-engine/src/rule_engine/threshold_evaluator.py:76-88);
  `CriticalIsHighIff` says for which configurations.
* Asked for an empty area list, the alert service answers for every area
  (services/alert-service/src/alert_service/db.py:102) and the BFF for none
  (services/dashboard-bff/src/dashboard_bff/db.py:87; `BuildersAgreeIff`).
* Alerts emitted at the same time have no fixed order (services/alert-service/src/alert_service/db.py:128), so pages
  fetched one by one can repeat one alert and never show another (`PagesCanMisfit`); they are sure to fit together
  exactly if no page boundary splits alerts of one time (`PagesFitIff`).
* A failed Redis publish of an alert is never repaired by redelivery
  (services/alert-service/src/alert_service/consumer.py:66-70; `FailedPublishIsNeverRepaired`).
* A database error is cached as an unknown sensor, although a comment says it is not
  (services/ingestion-gateway/src/ingestion_gateway/sensor_cache.py:45-46 and 69-72; `DatabaseErrorIsCached`); a failed
  threshold request switches an area's checks off for the whole time to live
  (services/rule-engine/src/rule_engine/threshold_cache.py:86-87; `FailureSilencesArea`).
* Simulated faults last 4 to 11 cycles, not 3 to 10 (services/sensor-simulator/src/sensor_simulator/sensor.py:32-34;
  `FaultyStretchIsBlocks`, `FaultLengthsAre`).

## Model

| member | source | states |
|---|---|---|
| Redundancy.RedundancyTracker.Decrement | services/rule-engine/src/rule_engine/redundancy_tracker.py:78-89 | the count drops by one but never below 0, only that key changes, and the new value is returned |
| Redundancy.RedundancyTracker.Increment | services/rule-engine/src/rule_engine/redundancy_tracker.py:91-95 | the count rises by one, a missing key counting as 0, and only that key changes |
| Redundancy.RedundancyTracker.HandleFault | services/rule-engine/src/rule_engine/redundancy_tracker.py:99-173 | the fault counter rises; only the first fault of a run decrements every parameter in order and raises the alerts of each |
| Redundancy.RedundancyTracker.HandleRecovery | services/rule-engine/src/rule_engine/redundancy_tracker.py:175-198 | only a sensor with recorded faults is recovered: its counter is cleared and every parameter incremented |
| Redundancy.RedundancyTracker.OnSensorReading | services/rule-engine/src/rule_engine/redundancy_tracker.py:35-61 | status 0 is a fault, any other status a recovery that raises nothing |
| TrackerRuns.StepEffect | services/rule-engine/src/rule_engine/redundancy_tracker.py:106-117 | one event moves a key's count and its healthy sensors together, except that a clamp keeps the count at 0 and an expiry leaves it behind |
| TrackerRuns.CoverageNeverOverstated | services/rule-engine/src/rule_engine/redundancy_tracker.py:99-193 | over every run, expiries included, 0 <= count <= healthy sensors, and the shortfall grows by at most one per expiry |
| TrackerRuns.ShortfallClosedForm | services/rule-engine/src/rule_engine/redundancy_tracker.py:84-95 | over every run, expiries included, the shortfall is exactly the smaller of the initial shortfall plus the expiries, and the lowest health since any moment plus the expiries since |
| TrackerRuns.ExactThroughout | services/rule-engine/src/rule_engine/redundancy_tracker.py:78-95 | counts that start equal to the healthy sensors stay equal over every run without expiry |
| TrackerRuns.FullLossIsAlwaysRaised | services/rule-engine/src/rule_engine/redundancy_tracker.py:119-145 | after any run from counts that overstate nothing, losing the last healthy sensor returns a high malfunction directly followed by the priority alert that carries its id |
| TrackerRuns.AlertsTellHealth | services/rule-engine/src/rule_engine/redundancy_tracker.py:112-173 | from exact counts the alerts of a run are determined by sensor health: per fault episode and parameter one malfunction with the healthy sensors left, then its priority alert exactly when none is left |
| TrackerRuns.OneAlertPerLoss | services/rule-engine/src/rule_engine/redundancy_tracker.py:112-164 | as many malfunctions as fault episodes of covering sensors, as many priority alerts as steps from 1 to 0 |
| TrackerRuns.ReturnedAlertsAreGraded | services/rule-engine/src/rule_engine/redundancy_tracker.py:7-11 | whatever the counts, an alert is high exactly when it reports 0 remaining and low when more remain, and a priority alert names its origin |
| TrackerAlerts.AlertsReportHealth | services/rule-engine/src/rule_engine/redundancy_tracker.py:117-161 | from exact counts, over every run, each alert an event returns for a key names the event's sensor and time and a parameter the sensor covers, and reports as remaining the healthy sensors the event leaves |
| TrackerAlerts.CallTells | services/rule-engine/src/rule_engine/redundancy_tracker.py:117-173 | whatever the counts, each alert reports the count the call leaves for its key; alerts come in the order of the parameters, and each priority alert follows the malfunction it names |
| TrackerAlerts.CounterCountsFaults | services/rule-engine/src/rule_engine/redundancy_tracker.py:106-114 | over every run the fault counter is the number of faults since the sensor's last healthy reading or expiry |
| TrackerRuns.StateDependsOnLastStatus | services/rule-engine/README.md:107-108 | from exact counts, streams that agree on each sensor's last status leave the same faulted sensors and counts |
| TrackerRuns.RedeliveryIsHarmless | services/rule-engine/README.md:107-108 | consuming any tail of the stream again changes no count and no faulted sensor |
| TrackerRuns.ReorderingIsHarmless | services/rule-engine/README.md:116-117 | neighbouring events of different sensors may be swapped without changing counts or faulted sensors |
| TrackerRuns.RebuildIsExactIffFullLossSeen | services/rule-engine/README.md:122-130 | after deleting all counts and replaying, expiries included, a count is right exactly when some moment of the replay, after which no covering fault expired, had no healthy sensor covering the key |
| TrackerRuns.ClampedCounterClosedForm | services/rule-engine/src/rule_engine/redundancy_tracker.py:78-95 | after any increments and decrements the stored value is the unclamped sum lifted by the deepest it ever fell below 0 |
| TrackerInterleaving.StepLedger | services/rule-engine/src/rule_engine/redundancy_tracker.py:85-94 | every single Redis command moves count, health and pending work in balance, except for the named drift |
| TrackerInterleaving.RunLedger | services/rule-engine/src/rule_engine/__main__.py:58-62 | over every interleaving of both tasks and every expiry, count minus health minus pending work falls by exactly the total drift |
| TrackerInterleaving.ExactAtRestIffNoDrift | services/rule-engine/src/rule_engine/redundancy_tracker.py:85-88 | with both tasks at rest an exact start has stayed exact if and only if the overwritten and expired amounts cancel to 0 |
| TrackerInterleaving.GuardedInterleavingIsExact | services/rule-engine/src/rule_engine/redundancy_tracker.py:187-191 | if the watchdog opens no fault on a sensor between the consumer's DEL and last INCR for it and nothing expires, count = health + pending decrements - pending increments, never negative, and equal to health at rest |
| TrackerInterleaving.ReportedRemainder | services/rule-engine/src/rule_engine/redundancy_tracker.py:117-161 | under that guard DECR never goes negative and what an alert reports as remaining is health plus what the other task still owes |
| TrackerInterleaving.ConsumerReportsZeroIff | services/rule-engine/src/rule_engine/redundancy_tracker.py:117-145 | under that guard a decrement of the consumer reports 0 if and only if no covering sensor is healthy and the watchdog owes the key no decrement |
| TrackerInterleaving.SplitLossGoesUnannounced | services/rule-engine/src/rule_engine/watchdog.py:71-79 | a guarded run from exact counts: the consumer takes the last healthy sensor and reports 1, because the 0 falls to the watchdog |
| TrackerInterleaving.UnguardedRaceOverstates | services/rule-engine/src/rule_engine/redundancy_tracker.py:84-88 | without the guard a run from exact counts ends at rest with count 1 and no healthy sensor |
| TrackerInterleaving.UninterruptedCallIsAtomic | services/rule-engine/src/rule_engine/redundancy_tracker.py:35-61 | the commands of one call, not interrupted by the other task, make exactly the complete call |
| SilenceWatchdog.SensorWatchdog.CheckKey | services/rule-engine/src/rule_engine/watchdog.py:47-79 | one key leads to at most one fault call, for an over-age snapshot with sensor, area and at least one measured parameter; a timestamp without offset, or JSON that is no object, raises |
| WatchdogReports.ReportedCall | services/rule-engine/src/rule_engine/watchdog.py:56-78 | a snapshot leads to a fault call exactly if it is over-age, by its ingestion time or else its own, and names sensor, area and a measured parameter; the call is for that sensor and area and exactly the parameters that have a value, in order |
| WatchdogReports.ReportedIffMeasured | services/rule-engine/src/rule_engine/watchdog.py:69 | a name is reported exactly if the snapshot holds a value for it |
| SilenceWatchdog.SensorWatchdog.Scan | services/rule-engine/src/rule_engine/watchdog.py:38-82 | a scan makes the fault calls of the keys it meets in order, over all pages, up to a key that raises, and counts them |
| SilenceWatchdog.CallsAreARun | services/rule-engine/src/rule_engine/watchdog.py:71-78 | what scans do to the tracker is a run of faults, so the theorems about runs apply |
| SilenceWatchdog.PagingIsIrrelevant | services/rule-engine/src/rule_engine/watchdog.py:44-82 | how SCAN cuts the keys into pages changes neither the calls made nor whether the scan raises |
| SilenceWatchdog.SilenceIsCountedOnce | services/rule-engine/src/rule_engine/redundancy_tracker.py:112-114 | however often scans report a silent sensor and whatever others do, each parameter is decremented exactly once if the silence is noticed, also if the fault counter expires after the last report |
| SilenceWatchdog.CounterOutlivesReports | services/rule-engine/src/rule_engine/redundancy_tracker.py:105-108 | as every report renews the 3600 s counter and the snapshot that causes reports lives 360 s, the counter cannot expire before the last report |
| SilenceWatchdog.ReportedIffNoticed | services/rule-engine/src/rule_engine/watchdog.py:42-79 | the calls of any scans about one sensor are its own, and there are any exactly if some scan meets its key over-age before anything raises |
| SilenceWatchdog.SilenceIsNoticed | services/rule-engine/src/rule_engine/consumer.py:118-123 | if the rule engine's write is the last and no scan is cut short by an exception, scans whose gap plus duration is below 180 s read the key over-age before it expires |
| SilenceWatchdog.SilenceCostsOneIffNoticed | services/rule-engine/src/rule_engine/watchdog.py:38-79 | among whatever other sensors do, the calls that scans make about a silent sensor cost each parameter one decrement if some scan meets its key over-age before anything raises, and none otherwise, even if SCAN repeats the key |
| SilenceWatchdog.SilentSensorIsDecrementedOnce | services/rule-engine/src/rule_engine/watchdog.py:29-79 | with the rule engine's write last, no scan cut short and gap plus duration below 180 s, each parameter of a silent sensor is decremented exactly once, also if the silence outlives the fault counter |
| SilenceWatchdog.NoticedForSureIff | services/rule-engine/src/rule_engine/watchdog.py:29-34 | scans that are not cut short are guaranteed to notice every silence if and only if gap plus duration is below the timeout |
| SilenceWatchdog.NoticeableIff | services/rule-engine/src/rule_engine/watchdog.py:64-65 | a write can be seen over-age at some moment if and only if it lives past ingestion time plus the timeout |
| SilenceWatchdog.HotStateHidesSilence | services/telemetry-service/src/telemetry_service/hot_state.py:49-52 | if the 120 s hot-state write is last and made within 60 s of ingestion, no scan sees the sensor over-age |
| SilenceWatchdog.LastWriterDecides | services/telemetry-service/src/telemetry_service/hot_state.py:43-52 | with both services writing the key for the last message, the silence can be noticed if and only if the rule engine writes last |
| RuleEngineRuns.Service.ConsumeOne | services/rule-engine/src/rule_engine/__main__.py:58-62 | one message changes the state of the whole engine as the step function says |
| RuleEngineRuns.Service.ScanOnce | services/rule-engine/src/rule_engine/__main__.py:58-62 | one scan changes the shared tracker as the step function says, and sends nothing |
| RuleEngineRuns.CallPriority | services/rule-engine/src/rule_engine/redundancy_tracker.py:117-145 | whatever the counts, a call returns one priority alert for a key exactly when it loses a covering sensor and leaves the count at 0 |
| RuleEngineRuns.TotalLossAnnouncedIffConsumed | services/rule-engine/src/rule_engine/watchdog.py:71-79 | over every run of complete messages, scans and expiries, a step that takes the last healthy sensor sends a priority alert for the key if and only if it is a message |
| RuleEngineRuns.PriorityAlertsAreKafkaLosses | services/rule-engine/src/rule_engine/consumer.py:104-116 | from exact counts, without expiry and over complete calls, the priority alerts sent for a key are as many as the times a message took its last healthy sensor |
| RuleEngineRuns.PrioritySentIff | services/rule-engine/src/rule_engine/redundancy_tracker.py:110-145 | over every run from counts that overstate nothing, a step sends a priority alert for a key if and only if it is a message that loses a covering sensor and leaves no more healthy ones than the closed form of the shortfall |
| RuleEngineRuns.NextAlertAfterLoss | services/rule-engine/src/rule_engine/redundancy_tracker.py:110-145 | once a key has had no healthy sensor, and while no covering fault expires after, its next priority alerts are sent exactly when a message takes the last healthy sensor again |
| RuleEngineRuns.NothingSentWhileUncovered | services/rule-engine/src/rule_engine/redundancy_tracker.py:110-114 | whatever the counts, while no covering sensor is healthy nothing is announced: later faulty readings are swallowed |
| RuleEngineRuns.WatchdogLossIsNeverAnnounced | services/rule-engine/src/rule_engine/watchdog.py:71-79 | a total loss found by a scan is announced neither then nor later, until a covering sensor recovers or its fault counter expires |
| RuleEngineRuns.WatchdogLossHappens | services/rule-engine/src/rule_engine/watchdog.py:64-79 | a concrete scan takes the only sensor of an area, from exact counts, and nothing is sent |
| BatchWriting.BuildColumns | services/telemetry-service/src/telemetry_service/writer.py:127-154 | the twelve arrays have the batch's length and unnesting them gives the rows of the messages in order; one unreadable timestamp anywhere raises |
| BatchWriting.RowHoldsFields | services/telemetry-service/src/telemetry_service/writer.py:127-154 | the row of a message holds each field under its own name |
| BatchWriting.UnnestByName | services/telemetry-service/src/telemetry_service/writer.py:47-68 | each value of a row comes from the array of its name |
| BatchWriting.OffsetsAreAhead | services/telemetry-service/src/telemetry_service/writer.py:71-76 | timestamps are instants: no offset is UTC, and a clock ahead by its offset shows the same instant |
| BatchWriting.BatchWriter.EnqueueMessage | services/telemetry-service/src/telemetry_service/writer.py:94-102 | the message is appended, and the flush event is set once the buffer reaches its maximum |
| BatchWriting.BatchWriter.WakeAndSwap | services/telemetry-service/src/telemetry_service/writer.py:107-124 | when the wait ends the event is cleared and the whole buffer becomes the batch of the insert, in one step |
| BatchWriting.BatchWriter.FinishInsert | services/telemetry-service/src/telemetry_service/writer.py:156-182 | success appends exactly the batch's rows to the table; failure puts the batch back in front and ends the loop |
| BatchWriting.NothingIsReorderedOrDuplicated | services/telemetry-service/src/telemetry_service/writer.py:94-182 | in every interleaving, written + lost + in flight + buffered is the enqueued stream, in order |
| BatchWriting.Conservation | services/telemetry-service/src/telemetry_service/writer.py:178-180 | with readable timestamps, written + in flight + buffered is exactly the enqueued stream, in order |
| BatchWriting.NothingLostIffParsable | services/telemetry-service/src/telemetry_service/writer.py:141-156 | a stream is safe from loss in every interleaving if and only if all its timestamps are readable; otherwise a first flush can lose all of it |
| BatchWriting.NoLostWakeUp | services/telemetry-service/src/telemetry_service/writer.py:100-116 | in every run, a waiting loop with a full buffer has its event set, if and only if the batch size is positive |
| BatchWriting.FullBufferHasEvent | services/telemetry-service/src/telemetry_service/writer.py:100-124 | while the loop lives the event is set exactly while the buffer is full, so no flush comes early either |
| BatchWriting.FullBufferIsFlushed | services/telemetry-service/src/telemetry_service/writer.py:94-102 | a full buffer needs no timeout: one successful flush writes all of it and leaves only what arrived meanwhile |
| BatchWriting.RunIsOverIff | services/telemetry-service/src/telemetry_service/writer.py:141-182 | the flush loop has ended exactly if some insert failed, or some wait ended over a buffer with an unreadable timestamp |
| BatchWriting.FailureStopsWritingForGood | services/telemetry-service/src/telemetry_service/writer.py:176-182 | once a step has raised nothing is ever written again and whatever is enqueued piles up |
| ThresholdEvaluator.TrendMeaning | services/rule-engine/src/rule_engine/threshold_evaluator.py:21-38 | on non-negative readings rising means more than 1 % above the oldest value of the window, falling more than 1 % below |
| ThresholdEvaluator.MarginIsRelativeChange | services/rule-engine/src/rule_engine/threshold_evaluator.py:33-37 | comparing with 1 % of the oldest value is the program's test on the relative change |
| ThresholdAlerts.TrendIsRelativeChange | services/rule-engine/src/rule_engine/threshold_evaluator.py:21-38 | on every history, also empty or negative ones: a single value is stable, a change from 0 rising, otherwise the relative change to the oldest of the last five decides at 1 % |
| ThresholdEvaluator.EvaluateThresholds | services/rule-engine/src/rule_engine/threshold_evaluator.py:59-110 | the indexed lookup yields what a plain scan yields: at most one alert per measurement, in order, against the last threshold of its parameter |
| ThresholdAlerts.ThresholdAlertsTell | services/rule-engine/src/rule_engine/threshold_evaluator.py:69-110 | the alerts report exactly the measurements beyond a bound of the threshold in force, once each and in order, with value, bound crossed, its severity, trend, sensor, area and time |
| ThresholdAlerts.LastIsInForce | services/rule-engine/src/rule_engine/threshold_evaluator.py:62-63 | of several thresholds of a parameter the last is in force |
| ThresholdEvaluator.SeverityIsAValley | services/rule-engine/src/rule_engine/threshold_evaluator.py:76-88 | for every configuration, a value between two others is never graded worse than both |
| ThresholdEvaluator.SeverityGrowsAwayFromSafety | services/rule-engine/src/rule_engine/threshold_evaluator.py:76-91 | moving away from a value without alert never lowers severity |
| ThresholdEvaluator.OrderedBoundsHaveSafeBand | services/rule-engine/src/rule_engine/threshold_evaluator.py:90-91 | if the bounds that are set are ordered, some value raises no alert |
| ThresholdEvaluator.CriticalIsHighIff | services/rule-engine/src/rule_engine/threshold_evaluator.py:76-88 | every value beyond a critical bound, and no other, is graded high if and only if no upper warning bound lies below the lower critical bound and the upper critical one |
| RuleEngine.RuleEngineConsumer.UpdateHistory | services/rule-engine/src/rule_engine/consumer.py:28-33 | the pair's window takes the value and keeps five, no other window changes, and the window before the value is returned |
| RuleEngine.RuleEngineConsumer.Process | services/rule-engine/src/rule_engine/consumer.py:86-123 | one message slides its windows, emits threshold alerts then redundancy alerts, updates the tracker by one call and stores the snapshot; an invalid one changes nothing |
| RuleEngine.WindowIsLastFive | services/rule-engine/src/rule_engine/consumer.py:22-33 | after any stream each window is the last five values of its own sensor and parameter |
| RuleEngine.StreamingTrendIsBatchTrend | services/rule-engine/src/rule_engine/consumer.py:96-102 | alerts raised from the windows equal those raised from complete histories, so every trend is that of the last five values of the whole stream |
| RuleEngineStream.WindowIsTail | services/rule-engine/src/rule_engine/consumer.py:22-33 | after any stream each window is the tail, of at most five values, of its own pair's values |
| RuleEngineStream.MessageSends | services/rule-engine/src/rule_engine/consumer.py:98-116 | a message appends its alerts to those sent, first threshold alerts, then the tracker's, each naming its sensor, area and time |
| RuleEngineStream.SentInOrder | services/rule-engine/src/rule_engine/consumer.py:113-116 | over every stream alerts are sent in the order they were raised, none twice and none left out |
| RuleEngineStream.SnapshotIsLastMessage | services/rule-engine/src/rule_engine/consumer.py:118-123 | over every stream the snapshot of a sensor is its last valid message |
| ThresholdCaching.ThresholdCache.LookupThresholds | services/rule-engine/src/rule_engine/threshold_cache.py:42-47 | an entry answers exactly until it expires |
| ThresholdCaching.ThresholdCache.StoreFetched | services/rule-engine/src/rule_engine/threshold_cache.py:49-87 | the response, or the empty list after an error, is returned and cached for the time to live |
| ThresholdCaching.CachedThresholdsAreRecent | services/rule-engine/README.md:30-33 | a cached answer is the rules in force less than ttl plus request time earlier, or the empty list of a failed request no older than that |
| ThresholdCaching.ResponseAnswersUntilExpiry | services/rule-engine/src/rule_engine/threshold_cache.py:42-47 | a response, or its failure, answers exactly until the ttl is over, whatever other areas do |
| ThresholdCaching.InvalidationForcesFetch | services/rule-engine/src/rule_engine/threshold_cache.py:57-59 | after an invalidation nothing answers for the area until it is fetched again |
| ThresholdCaching.FailureSilencesArea | services/rule-engine/src/rule_engine/threshold_cache.py:86-87 | after a failed request, lookups of that area answer "no thresholds" exactly until the ttl is over, whatever other areas do |
| AlertStore.AlertService.InsertAlert | services/alert-service/src/alert_service/db.py:54-86 | a row is added exactly for a new id, an existing one is left alone, and the result says which |
| AlertStore.AlertService.Publish | services/alert-service/src/alert_service/publisher.py:27-65 | the alert goes to its area channel and, if high, to the global one, and a failure of one does not stop the other |
| AlertStore.AlertService.Handle | services/alert-service/src/alert_service/consumer.py:58-85 | only a new valid alert is stored and then published; invalid and duplicate ones change nothing |
| AlertStore.AlertService.AcknowledgeAlert | services/alert-service/src/alert_service/db.py:154-179 | an existing row without acknowledgement takes it and true is returned; otherwise nothing changes and false is returned |
| AlertStore.TableIsFirsts | services/alert-service/src/alert_service/db.py:60-86 | over every stream of deliveries and acknowledgements the table holds the first valid alert per id with its first later acknowledgement |
| AlertStore.ChannelsCarryDedup | services/alert-service/src/alert_service/consumer.py:66-82 | each channel carries the stable deduplication of the stream for it, less what Redis refused at the first delivery |
| AlertStore.ReplayChangesNothing | services/alert-service/src/alert_service/db.py:55-59 | redelivering alerts already delivered, even altered, changes neither table nor channels |
| AlertStore.OnChannelIffFirstPublished | services/alert-service/src/alert_service/consumer.py:66-82 | over every stream an alert is on a channel if and only if its first delivery was for that channel and found it up; later deliveries, even altered, change nothing |
| AlertStore.FailedPublishIsNeverRepaired | services/alert-service/src/alert_service/consumer.py:66-70 | whatever is delivered later, an alert is on its area channel if and only if that channel was up at its first delivery |
| AlertStore.OneAckSucceeds | services/alert-service/src/alert_service/db.py:165-179 | exactly one acknowledgement of an alert succeeds once one follows its arrival, otherwise none |
| AlertStore.AcknowledgedRowIsFinal | services/alert-service/src/alert_service/db.py:171-172 | an acknowledged row is never altered by later deliveries or acknowledgements |
| AlertQueries.BuildServiceQuery | services/alert-service/src/alert_service/db.py:98-130 | placeholders are $1, $2, ... one per argument, and on every table, however ties are broken, the query yields filter, newest emitted first, then page; no area list or an empty one means all areas |
| AlertQueries.BuildBffQuery | services/dashboard-bff/src/dashboard_bff/db.py:87-107 | the same for the BFF, where only the given areas match and an empty severity matches all |
| AlertQueries.BuildTelemetryQuery | services/dashboard-bff/src/dashboard_bff/db.py:54-74 | the same for telemetry by areas and inclusive optional time bounds, newest event first |
| AlertRequests.AcknowledgedOrNot | services/alert-service/src/alert_service/db.py:113-116 | the rows without acknowledgement filter are those of its two settings, each row under the one that tells its state |
| AlertRequests.OneSeverity | services/alert-service/src/alert_service/db.py:108-111 | a severity filter keeps just the rows of that severity; the empty text filters nothing in the BFF |
| AlertRequests.AreasAddUp | services/dashboard-bff/src/dashboard_bff/db.py:87-88 | the rows of several areas are those of each |
| AlertRequests.WindowsAddUp | services/dashboard-bff/src/dashboard_bff/db.py:57-64 | neighbouring time windows share no row and make up the whole; a window holds both its ends |
| AlertQueries.FilterCommutesWithSort | services/alert-service/src/alert_service/db.py:127-129 | filtering and then sorting gives what filtering the sorted table gives |
| Sorting.SortIsTheListing | services/alert-service/src/alert_service/db.py:128 | under a total order the sorted table is the one and only ordered arrangement of its rows |
| AlertQueries.SelectedIsNewestFirst | services/alert-service/src/alert_service/db.py:121-130 | on every table the result is newest first and holds only rows of the table that match |
| AlertQueries.PagesConcatenate | services/alert-service/src/alert_service/db.py:128-129 | consecutive pages of an unchanged table concatenate to the beginning of its sorted matching rows, skipping and repeating nothing |
| AlertQueries.StorageOrderIsIrrelevant | services/alert-service/src/alert_service/db.py:127-129 | the order in which the rows are stored changes no page |
| AlertPages.PagesFitIff | services/alert-service/src/alert_service/db.py:128-129 | pages of an unchanged table, each fetched under whatever tie order, are sure to concatenate to the beginning of a listing, without repetition or gap, if and only if no boundary between two of them splits wanted rows of one time |
| AlertPages.PagesCanMisfit | services/alert-service/src/alert_service/db.py:128-129 | two alerts of one time, fetched one by one: both pages hold the first |
| AlertPages.UnsplitPagesFit | services/alert-service/src/alert_service/db.py:128-129 | the sufficient half for any table, also one without a key |
| AlertQueries.BuildersAgreeIff | services/dashboard-bff/src/dashboard_bff/db.py:87-98 | both alert builders give the same page on every table if and only if the area list is not empty and the severity not the empty text, or the list is empty and the severity illegal |
| IngestionGateway.SensorCache.Fill | services/ingestion-gateway/src/ingestion_gateway/sensor_cache.py:45-46 | whatever the query gave, also nothing, is cached for the time to live from now, for that sensor only |
| IngestionGateway.Gateway.StartProcess | services/ingestion-gateway/src/ingestion_gateway/gateway.py:118-162 | a message is rejected for its schema, answered from a live cache entry, or starts a query |
| IngestionGateway.Gateway.FinishLookup | services/ingestion-gateway/src/ingestion_gateway/sensor_cache.py:45-72 | the query's answer is cached and the message rejected or turned into a record; an error reads as an unknown sensor |
| IngestionGateway.QueryDecides | services/ingestion-gateway/src/ingestion_gateway/gateway.py:144-178 | the message whose query returns becomes a record for Kafka exactly if the row found is the area it names, and is rejected otherwise; what was found is cached |
| IngestionGateway.StartDecides | services/ingestion-gateway/src/ingestion_gateway/gateway.py:118-162 | each kind of payload has its outcome and its own counter; a live entry decides at once, and only a miss waits for a query |
| IngestionGateway.Gateway.FinishSend | services/ingestion-gateway/src/ingestion_gateway/gateway.py:171-193 | a record Kafka takes is accepted, a failure is counted and not raised |
| IngestionGateway.SendDelivers | services/ingestion-gateway/src/ingestion_gateway/gateway.py:171-193 | Kafka taking a record appends just that record |
| IngestionGateway.CountersTell | services/ingestion-gateway/src/ingestion_gateway/gateway.py:104-193 | over every interleaving the counters equal the messages received, the records Kafka holds and the failed sends |
| IngestionGateway.RecordsCarryRecentBindings | services/ingestion-gateway/src/ingestion_gateway/gateway.py:144-177 | in every interleaving of overlapping lookups, each record's key is its payload's area and was the sensor's stored binding less than ttl + query time before the answer |
| IngestionGateway.AnswersAreRecent | services/ingestion-gateway/src/ingestion_gateway/sensor_cache.py:35-53 | in every interleaving each area the cache answered, also one that then mismatched, was the sensor's stored binding less than ttl + query time before |
| IngestionGateway.EveryMessageIsAccountedFor | services/ingestion-gateway/src/ingestion_gateway/gateway.py:104-193 | received = accepted + rejected + produce errors + in flight + payloads that are no text |
| IngestionGateway.DatabaseErrorIsCached | services/ingestion-gateway/src/ingestion_gateway/sensor_cache.py:69-72 | after a database error, whatever goes on as long as no other query for the sensor returns, its messages are rejected without a query if and only if they start within the ttl |
| IngestionGateway.LastAnswerDecides | services/ingestion-gateway/src/ingestion_gateway/sensor_cache.py:36-46 | in every interleaving a message gets what the last query for its sensor to return found, if it starts within the ttl of that query, and else starts a query |
| IngestionGateway.LaterAnswerEndsRejection | services/ingestion-gateway/src/ingestion_gateway/sensor_cache.py:42-46 | an overlapping query that returns later with a binding ends this: messages that name its area, and no others, then pass |
| ScopeCaching.KeysCollideIff | services/dashboard-bff/src/dashboard_bff/auth.py:59-60 | two keys are equal exactly when user and role are and the jurisdictions are permutations of each other |
| ScopeCaching.ScopeIsWhatNamesCover | services/dashboard-bff/src/dashboard_bff/auth.py:112-136 | an area is in the scope exactly if some name of the jurisdiction covers it, as area, city or region by role |
| ScopeCaching.ScopesAddUp | services/dashboard-bff/src/dashboard_bff/auth.py:112-136 | scopes of joined jurisdictions are unions, and no jurisdiction means no area |
| ScopeCaching.CitiesPartitionAreas | services/dashboard-bff/src/dashboard_bff/auth.py:115-121 | an area is in the scope of exactly its own city, so different cities share none |
| ScopeCaching.RegionIsItsCities | services/dashboard-bff/src/dashboard_bff/auth.py:123-134 | a regional scope is the union of the scopes of the region's cities |
| ScopeCaching.OtherRoles | services/dashboard-bff/src/dashboard_bff/auth.py:112-136 | an area manager sees just the areas listed, an unknown role nothing |
| ScopeCaching.ResolveIgnoresOrder | services/dashboard-bff/src/dashboard_bff/auth.py:100-136 | for every role the set of areas does not depend on the order of the jurisdiction |
| ScopeCaching.ScopeCache.GetCachedScope | services/dashboard-bff/src/dashboard_bff/auth.py:63-74 | an entry answers up to and including its expiry time, and is deleted when asked for later |
| ScopeCaching.ScopeCache.SetCachedScope | services/dashboard-bff/src/dashboard_bff/auth.py:77-81 | the resolved areas are stored under the sorted key for the time to live |
| ScopeCaching.CachedScopeIsRecent | services/dashboard-bff/src/dashboard_bff/auth.py:202-208 | every cached answer holds exactly the areas that some name of the jurisdiction covers, by role, in a state of the hierarchy at most ttl + query time old |
| ScopeCaching.ScopeAnswersUntilExpiry | services/dashboard-bff/src/dashboard_bff/auth.py:63-81 | a stored scope answers every request of the same user, role and jurisdiction up to and including its expiry, and none later, until resolved anew |
| SensorSimulator.Sensor.GenerateMeasurements | services/sensor-simulator/src/sensor_simulator/sensor.py:75-85 | every active parameter takes one clipped step, in order, and the new values are returned |
| SensorSimulator.WalkTakesEachStep | services/sensor-simulator/src/sensor_simulator/sensor.py:75-85 | each active parameter becomes the value in its range nearest to itself plus its own step, and nothing else changes |
| SensorSimulator.Sensor.ShouldSuppress | services/sensor-simulator/src/sensor_simulator/sensor.py:95-105 | suppression exactly when something was published and every value is within its delta of it |
| SensorSimulator.Sensor.RunCycle | services/sensor-simulator/src/sensor_simulator/sensor.py:136-187 | one cycle walks, injects faults, suppresses only healthy cycles and remembers only what was published, keeping every value in range |
| SensorSimulator.CycleDecides | services/sensor-simulator/src/sensor_simulator/sensor.py:136-187 | a cycle is suppressed exactly if it is healthy, something was published and no value moved by delta times its maximum; all others are published unless that fails |
| SensorSimulator.EdgeFilterBoundsError | services/sensor-simulator/src/sensor_simulator/sensor.py:152-172 | after any run whose last cycle did not fail to publish, every active value is in range and within delta times its maximum of what was measured in the last cycle that published |
| SensorSimulator.SuppressionNeedsPositiveDelta | services/sensor-simulator/src/sensor_simulator/sensor.py:99-105 | a delta that is not positive suppresses nothing |
| SensorSimulator.RunCountsFaults | services/sensor-simulator/src/sensor_simulator/sensor.py:140-150 | the fault counter of a whole run depends on the draws alone |
| SensorSimulator.FaultyStretchIsBlocks | services/sensor-simulator/src/sensor_simulator/sensor.py:140-150 | every completed stretch of faulty cycles splits into drawn faults, each one cycle longer than the length drawn for it |
| SensorSimulator.LongerThanAnnouncedIff | services/sensor-simulator/src/sensor_simulator/sensor.py:32-34 | a fault exceeds the announced maximum exactly if the maximum was drawn |
| SensorSimulator.FaultLengthsAre | services/sensor-simulator/src/sensor_simulator/sensor.py:32-34 | the lengths a fault can have are exactly 4 to 11 cycles, each with a run that shows it |
| SensorSimulator.NoShortFault | services/sensor-simulator/src/sensor_simulator/sensor.py:140-150 | no completed fault lasts fewer than 4 cycles |

## Left out

- AlertQueries.BuildServiceQuery: conditions are data with placeholder numbers, not SQL text.
- AlertPages.PagesFitIff: times are whole numbers, and the table does not change between two pages.
- TrackerInterleaving.GuardedInterleavingIsExact: the guard constrains the schedule; it is not something the program checks.
- TrackerInterleaving.UninterruptedCallIsAtomic: the interleaved model holds no alerts; what DECR returns to the alerts is ReportedRemainder.
- RuleEngineRuns.TotalLossAnnouncedIffConsumed: steps are complete calls; for interleaved commands the condition is that of ConsumerReportsZeroIff.
- RuleEngineRuns.PriorityAlertsAreKafkaLosses: steps are complete calls; SplitLossGoesUnannounced shows an interleaving that sends fewer.
- SilenceWatchdog.SensorWatchdog.Scan: fields of a snapshot that have an unexpected JSON type are not modelled, and the nested key loop is a method of its own.
- BatchWriting.BatchWriter.FinishInsert: an insert that fails after it was committed, and cancellation at shutdown, which drops the batch in flight, are not modelled.
- ThresholdEvaluator.TrendMeaning: rounding of floating-point numbers is not modelled.
- RuleEngine.RuleEngineConsumer.Process: a Kafka produce error, which only drops that alert, and an exception from the threshold request, which ends the consumer, are not modelled.
- ThresholdCaching.ThresholdCache.StoreFetched: a threshold response that does not decode or validate raises (services/rule-engine/src/rule_engine/threshold_cache.py:66-67); only request and status errors are modelled.
- AlertStore.AlertService.Handle: a database error, or bytes that are no text, end the consumer (services/alert-service/src/alert_service/consumer.py:60-66); both are not modelled.
- ScopeCaching.CachedScopeIsRecent: areas are a set; the order and repetition of the returned list are not modelled.
- SensorSimulator.Sensor.GenerateMeasurements: the returned dictionary is modelled as a copy of the current readings, which have the same keys.
- SensorSimulator.Sensor.RunCycle: the critical mode and the sleep intervals, which no modelled property depends on, are left out.
- The sets of parameters: a sensor's area and parameters are fixed over a run, as in the simulator; a message with other measured fields than its predecessor is outside the run theorems.
- The hot-state updater: its two SETs appear as writes with their time to live, not as a class.
- `init_area_sensor_count`: nothing calls it; runs start from arbitrary counts instead.
- Metrics other than the gateway's outcome counters, logging, configuration, authentication tokens, the geo service and the frontend.
- Kafka, MQTT, Redis, PostgreSQL and HTTP themselves: their outcomes are parameters.
