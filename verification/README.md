# An FX dashboard's stateful cores, in Dafny

A feed of currency ticks is aggregated into one-minute bars, watched for volatility
regimes, persisted, repaired from history and drawn live in a browser. This project
models the parts of that system that hold state and make promises over every run,
and proves those promises:

- **The persister** (`Bars`, `TickLog`, `BarsTable`, `ConsumerGroup`, `WorkerMemory`,
  `Delivery`, `Draining`, `Persister`): an exactly-once effect on top of at-least-once delivery,
  with a merge that is not idempotent. `Delivery` is the protocol as a state machine;
  the classes of `Persister` are shown to take exactly its steps.
- **Feed parity and returns** (`FeedParity`, `Telescoping`): the ingestor's sealed bar, the
  worker's stored row, and what the return sums of both mean.
- **Regime detection and failover** (`Trigger`, `Baseline`, `Detector`, `Evaluation`,
  `Failover`, `Deafness`).
- **Streaming variance** (`Variance`): Welford, the wall-clock window, additive sums.
- **Live candles** (`Candles`, `CandleMeaning`, `MinuteBook`, `CandleParity`, `Store`,
  `Drawing`): two folds, a book of reports per minute, and the forming/provisional/sealed
  protocol.
- **Fan-out** (`Conflator`): per-client conflation and its exception, alerts.
- **History recovery** (`Recovery`, `HotCache`, `Quota`): gaps to requests, a bounded
  cache kept by a script, a rolling request ledger.
- **Provider switches and alert numbers** (`Adoption`, `AlertTable`).

`Wrappers`, `Floors` and `OrderedKeys` hold an option type, arithmetic of rounding
down, and the ascending list of a set. Each class's methods are specified by functions
on values; the theorems are about those functions and about runs of them.

Prices and statistics are reals; `ln`, `exp` and `sqrt` are parameters, and a
theorem that uses a law of one of them names it. Instants are integers. A Redis MULTI, a
Lua script and a database transaction are one step each.

## Assumptions the theorems name

The delivery theorem (`Delivery.Enabled`, `WorkerMemory.ValidConfig`) rests on these, none
of which the code enforces by itself:

- one lease holder at a time, and the same page size across restarts;
- a new holder's own pending entries come before everyone else's
  (`Delivery.OwnFirstIsNeeded` shows what is lost otherwise, and
  `BarsTable.LateBeforeEarlyIsExactIff` exactly when);
- no pending entry is trimmed from the stream;
- a failure after a commit ends the run. The `suppress` at
  apps/worker/fx_worker/persister.py:316 covers a flush and can break this
  (`Delivery.SwallowedAckCountsTwice`); the periodic sweep is taken to find only
  entries that do not parse.

Nor does the code make sure that the drain ends: it does if and only if every page of a
consumer's own pending entries holds one that parses (`Draining.DrainEndsIff`). However
far it gets, it is a run of the protocol (`Draining.DrainIsARun`), so nothing above is lost.

## Where the code and what is said of it differ

- `RegimeDetector.restore` does not reset the re-learning flag, and a process re-enters
  standby with the same detector (apps/ingestor/fx_ingestor/main.py:350-384). Restored
  over a new stress event such a detector never thaws its reference and labels a late
  clear as an ordinary one. `Failover.ThawLabelIsExact` gives the exact condition;
  `Deafness.DeafClearIsMislabelled` is a run, from the first leader on, that comes to it.
- `cache_would_take` says it returns the minutes the script would add. For bars oldest
  first it does, however many they are (`HotCache.AscendingPredictionIsExact`), and that
  is how its one caller, the repair, reads and adds them (apps/ingestor/fx_ingestor/recovery.py:616-633,
  904-918). For bars in any order `HotCache.PredictionIsExactIff` gives the condition; it
  never returns too few.
- The rolling day of the request ledger is open at its start. A day counted with both
  ends can hold twice the limit, because everything granted as it opens is forgotten at
  once as it ends (`Quota.TwiceTheCapIsReached`), and no more
  (`Quota.ClosedDayBound`). `Quota.ClosedDayKeepsIff` says for which limits it never
  exceeds one.
- The alert persister says comparing timestamps separates redeliveries from collisions
  exactly. It looks at the last row of each number in a batch, so that is so, whatever
  is stored, if and only if no two rows of a batch share a number with different
  timestamps (`AlertTable.ReportsTheLostForEveryTableIff`);
  `AlertTable.MixedBatchIsMisjudged` has the three ways it goes wrong.
- The overwrite refusal is meant for unverified state only. Under a recorded provider it
  can fire too, if and only if the switching process is configured for a key that the
  adoption which recorded the provider was not (`Adoption.RefusalIsReachableIff`).
- The hour-of-day factors are said to have a geometric mean of exactly one. They have it if
  and only if the clamps touch none of them, as long as hours are clamped on one side
  only (`Evaluation.FactorsNormalise`).
- Requests for history are packed as tightly as whole pieces allow
  (`Recovery.FewestRequests`). Since a gap over midnight is not cut there, a plan that
  cut it could need fewer (`Recovery.CuttingElsewhereCanSaveOne`), though never less than
  half as many (`Recovery.AtMostTwiceTheFewest`).

## Model

| member | source | states |
|---|---|---|
| `Delivery.ExactlyOnce` | apps/worker/fx_worker/persister.py:173-320 | after any run of produce, read, commit, acknowledge, crash, replay and take-over there is one prefix of the log whose per-minute fold is every stored row (open, high, low, close, tick count); every acknowledged entry lies in it |
| `Delivery.NothingPendingNothingMissing` | apps/worker/fx_worker/persister.py:211-272 | once nothing is pending, the rows are the fold of everything ever delivered: nothing skipped, nothing twice |
| `Delivery.DrainAdvancesIff` | apps/worker/fx_worker/persister.py:173-236 | a drained page is committed and acknowledged if and only if one of its entries parses; otherwise the next read returns the same page |
| `Draining.DrainEndsIff` | apps/worker/fx_worker/persister.py:211-238 | the drain of own pending entries ends if and only if every page it meets holds an entry that parses; then nothing of its own is pending and everybody else's entries are as they were |
| `Draining.DrainNeverEnds` | apps/worker/fx_worker/persister.py:173-238 | with a page in which nothing parses, after any number of turns the loop is still draining and something of its own is still pending |
| `Draining.DrainIsARun` | apps/worker/fx_worker/persister.py:211-238 | any number of turns of the loop is a run of reads, commits and acknowledgements of the protocol, so exactly-once covers it |
| `Draining.AcquiredIsReady` | apps/worker/fx_worker/persister.py:211-220 | whoever takes over at any point of any run meets what the drain theorem asks for |
| `Draining.AckTakesOwn` | apps/worker/fx_worker/persister.py:195-196 | acknowledging the first of one's own entries leaves the rest of one's own and everybody else's, in order |
| `Delivery.OwnFirstIsNeeded` | apps/worker/fx_worker/persister.py:284-289 | two ticks of one minute, the older pending under another consumer: draining one's own first loses the older one |
| `Delivery.SwallowedAckCountsTwice` | apps/worker/fx_worker/persister.py:314-318 | if a failed acknowledgement is swallowed and the accumulators kept, the minute's next tick counts the committed one again |
| `BarsTable.StraddlingPageIsExactIff` | apps/worker/fx_worker/db.py:60-73 | a replayed batch that straddles the committed position leaves exact rows if and only if no minute has ticks on both sides |
| `BarsTable.LateBeforeEarlyIsExactIff` | apps/worker/fx_worker/db.py:60-73 | committing a later stretch before an earlier one leaves exact rows if and only if they share no minute |
| `BarsTable.RedeliveryIsAbsorbed` | apps/worker/fx_worker/db.py:60-73 | the numeric watermark makes a batch that was already counted a no-op, whatever was counted since |
| `BarsTable.CommitExtendsPrefix` | apps/worker/fx_worker/db.py:50-74 | committing the next stretch extends the counted prefix by exactly that stretch, in every row |
| `BarsTable.Database.UpsertBars` | apps/worker/fx_worker/db.py:140-170 | one transaction: every row of the batch merged or skipped by the watermark, no other row touched |
| `Persister.Persister.IngestEntry` | apps/worker/fx_worker/persister.py:124-164 | folding one entry in place is the memory step the protocol uses; an unparseable one changes nothing |
| `Persister.Persister.Flush` | apps/worker/fx_worker/persister.py:173-209 | commit then acknowledge then clear, or nothing when nothing is accumulated: exactly the protocol's two steps |
| `Persister.Persister.DrainPage` | apps/worker/fx_worker/persister.py:221-235 | a turn of the drain loop is a read of the head of one's own pending list and a flush |
| `Persister.Persister.DrainOwnPending` | apps/worker/fx_worker/persister.py:211-238 | the whole loop in place, where it ends: memory dropped, every own entry drained and counted, the state that of the drained protocol |
| `Persister.Persister.ClaimPage` | apps/worker/fx_worker/persister.py:250-269 | a turn of the claim loop takes over the next page whoever owns it, loads it and flushes |
| `Persister.Persister.ReadBatch` | apps/worker/fx_worker/persister.py:294-310 | a turn of the steady loop delivers new entries to this consumer and flushes when due |
| `WorkerMemory.HoldsNothingIff` | apps/worker/fx_worker/persister.py:124-164 | after a stretch of entries nothing is accumulated if and only if none of them parses |
| `FeedParity.SealedBarIsStoredRow` | apps/ingestor/fx_ingestor/pipeline.py:213-246 | for in-order ticks of one feed, each bar the ingestor seals is the worker's stored row of that minute in every field, both return sums included, however the worker flushes and wherever gaps reset the price; and the sealed minutes are exactly the stored ones before the bar in progress |
| `Telescoping.StoredReturnsTelescope` | apps/worker/fx_worker/persister.py:137-164 | for any function with the law of the logarithm: a stored row's return sum is the change of the logarithm from the close of the symbol's row before it to its own close, and from its open after a gap, however the worker flushes |
| `Telescoping.SealedReturnsTelescope` | apps/ingestor/fx_ingestor/pipeline.py:213-246 | the same of each sealed bar and the one sealed before it |
| `Telescoping.MinuteTelescopes` | packages/core/fx_core/volatility/buckets.py:80-90 | the same of every minute of a log, the first one included, which is measured from its own open |
| `Telescoping.SumsTelescope` | packages/core/fx_core/volatility/buckets.py:80-90 | the returns of a run of prices add up to the change of the logarithm from end to end, and their squares to those of its steps |
| `Telescoping.RepeatedPriceAddsNothing` | packages/core/fx_core/volatility/buckets.py:80-90 | a repeated price adds zero to both sums |
| `Telescoping.SumsHaveNoUnit` | packages/core/fx_core/volatility/buckets.py:80-90 | multiplying every price by the same positive number changes neither sum, whatever the logarithm |
| `Telescoping.ReturnsStayWithinAFeed` | apps/worker/fx_worker/persister.py:137-161 | whatever feeds the ticks come from, in whatever order and however flushed: a tick is measured from the symbol's last one if that came from the same feed and at most three minutes back, otherwise from nothing |
| `Telescoping.NothingMeasuredAcrossARestart` | apps/worker/fx_worker/persister.py:212-219 | after a restart the first tick of a symbol is measured from nothing; a flush changes nothing of what a tick is measured from |
| `FeedParity.BarsOnlyMoveForward` | apps/ingestor/fx_ingestor/pipeline.py:213-246 | for ticks in any order: every tick of the symbol is in exactly one bar, the sealed bars ascend and the one in progress is the latest, a late tick joining it |
| `TickLog.PricesAreMidpoints` | apps/worker/fx_worker/persister.py:124-151 | every price of a row is halfway between the bid and the ask of a tick of its symbol within its minute, and minutes start at whole multiples of the width |
| `FeedParity.IngestorFollows` | apps/ingestor/fx_ingestor/pipeline.py:213-246 | what the ingestor holds and has sealed after a log: every past minute of the symbol once, ascending, each with its observations' statistics |
| `FeedParity.WorkerFollows` | apps/worker/fx_worker/persister.py:137-164 | a stored row merged with what is still accumulated is always the statistics of all the minute's observations |
| `FeedParity.SymbolState.Handle` | apps/ingestor/fx_ingestor/pipeline.py:213-246 | one tick in place: seal on the next minute's first tick, reset the previous price over a gap, start and add |
| `Bars.MergeIsConcatenation` | apps/worker/fx_worker/db.py:60-66 | merging two bars is the bar of the concatenated prices |
| `Bars.StatsMergeIsConcatenation` | packages/core/fx_core/volatility/buckets.py:80-104 | adding the additive columns of two flushes is the statistics of all their observations |
| `Trigger.CommitsExactlyWhen` | packages/core/fx_core/alerts/hysteresis.py:255-413 | with the samples since the last change or restore: a confirmed transition if and only if the longest unbroken qualifying run ending now has enough samples and lasts long enough and no cooldown is on; an observation-lost one if and only if stressed and unevaluated for the timeout |
| `Trigger.ThresholdsApply` | packages/core/fx_core/alerts/hysteresis.py:255-342 | for samples in time order: an escalation if and only if, from normal and out of cooldown, some unbroken stretch up to now scores at or above enter_z throughout, long enough in samples and time; a clear, other than for want of observations, if and only if, from stressed, some such stretch scores at or below exit_z throughout |
| `Trigger.BandHoldsTheRegime` | packages/core/fx_core/alerts/hysteresis.py:294-303 | over any samples strictly between the thresholds, from either regime and whatever was half confirmed, nothing is committed but a loss of observations, and nothing at all if every sample is evaluated |
| `Trigger.RegimeOutlastsNoise` | packages/core/fx_core/alerts/hysteresis.py:294-303 | a stress is not called off while every score stays above exit_z, nor called while every score stays below enter_z |
| `Trigger.StreakIsTheLongestRun` | packages/core/fx_core/alerts/hysteresis.py:255-342 | the confirming run is all evaluated, all beyond the threshold, no neighbours too far apart, and could not be longer |
| `Trigger.SchmittTrigger.Observe` | packages/core/fx_core/alerts/hysteresis.py:255-292 | one observation on the mutable trigger is the specified step: hold, stale-chain reset, in-band reset, accumulate |
| `Trigger.SchmittTrigger.AccumulateFor` | packages/core/fx_core/alerts/hysteresis.py:305-342 | restart or extend the candidate, then count, duration and escalation-only cooldown before committing |
| `Trigger.SchmittTrigger.CommitTo` | packages/core/fx_core/alerts/hysteresis.py:378-413 | the regime flips, the number rises by one, the candidate and thaw marker clear, the cooldown restarts on escalation only |
| `Failover.LogHasNoHoles` | apps/ingestor/fx_ingestor/pipeline.py:465-497 | over any number of leader deaths and restores one symbol's log is numbered 1, 2, 3, ..., alternates from normal, escalates a cooldown apart and never goes back in time |
| `Failover.NoFailoverRaisesTheRate` | packages/core/fx_core/alerts/hysteresis.py:305-342 | any stretch of that log within a window of length T holds at most 2*floor(T/cooldown)+3 transitions |
| `Failover.TransitionsAreBacked` | packages/core/fx_core/alerts/hysteresis.py:271-321 | every threshold or thaw transition is backed by a confirming run among the samples shown since the last change or promotion |
| `Failover.ThresholdsApplyInEveryRun` | apps/ingestor/fx_ingestor/pipeline.py:465-497 | the two thresholds, in numbers and both ways, for the next bar after any run of leaders: over what was shown since the last promotion or change, with the cooldown counted from the log's last escalation |
| `Failover.EscalationFreezes` | packages/core/fx_core/alerts/detector.py:151-187 | the escalating bar leaves the baseline's moments and the hour profile as they were before it, frozen |
| `Failover.EveryEventHoldsItsReference` | apps/ingestor/fx_ingestor/pipeline.py:465-497 | in every run from the first leader, after a bar that escalates and while nothing more is logged, across any deaths and promotions: the profile is the one before that bar, and so are the moments unless a bar came thaw_after or more later |
| `Failover.ReferenceIsHeld` | packages/core/fx_core/alerts/detector.py:151-187 | the same from any state the runs keep: inside an event the profile never changes, and the moments stay the reference's until a bar comes thaw_after or more after it began |
| `Failover.ThawLabelIsExact` | packages/core/fx_core/alerts/detector.py:160-176 | a confirmed clear is labelled a thaw if and only if it comes thaw_after or more after the escalation and the detector is not deaf |
| `Failover.DeafnessComesFromPromotion` | packages/core/fx_core/alerts/detector.py:227-236 | a detector goes deaf exactly by restoring an unthawed stress event into a process that was re-learning when it last led, and stays so until the event ends |
| `Deafness.DeafClearIsMislabelled` | packages/core/fx_core/alerts/detector.py:160-176 | a run from the first leader, of processes each fresh or as it last led, reaches a deaf detector whose clear, thaw_after after the escalation, is labelled an ordinary one, whatever the logarithm and the root |
| `Failover.FreshProcessesLabelHonestly` | packages/core/fx_core/alerts/hysteresis.py:226-252 | when every promoted process is a fresh one, each clear is labelled a thaw exactly when it comes thaw_after or more after the log's last escalation |
| `Detector.RegimeDetector.Observe` | packages/core/fx_core/alerts/detector.py:125-187 | one sealed bar on the mutable detector is the specified step: gate, re-arm, score, thaw, trigger, freeze, learn |
| `Detector.RegimeDetector.Gate` | packages/core/fx_core/alerts/detector.py:190-211 | closed market, warm-up after an observed open, gap, backfill or stale feed hold the bar back |
| `Evaluation.HeldBackBarsAreInert` | packages/core/fx_core/alerts/detector.py:137-155 | a bar in a closed market, a gap, a backfill, from a stale feed or in the warm-up, and each of the first rearm_bars after one, teaches nothing and can bring only a loss of observations; any other bar is scored |
| `Evaluation.WarmsUpAfterTheOpen` | packages/core/fx_core/alerts/detector.py:190-211 | after a bar that found the market closed, while it then stays open: held back exactly until session_warmup after the first open bar, or for being a gap, a backfill or stale |
| `Evaluation.RearmsAfter` | packages/core/fx_core/alerts/detector.py:143-152 | after a bar held back the count of good bars starts from none, and the first rearm_bars of them leave the baseline as it was |
| `Evaluation.WhatABarTeaches` | packages/core/fx_core/alerts/detector.py:172-185 | an evaluated bar that ends normal teaches the baseline the adjusted volatility and its hour the measured one; one that ends stressed and not re-learning teaches nothing and freezes |
| `Evaluation.ScoreIsStandardised` | packages/core/fx_core/alerts/baseline.py:193-217 | a score exists if and only if there are enough samples, they differ and the volatility is measurable; its square is that of the distance from the weighted mean over the weighted variance corrected for the weight still on nothing, and its sign that of the distance |
| `Evaluation.FactorIsAgainstTheTypicalHour` | packages/core/fx_core/alerts/seasonality.py:145-155 | of a learned hour the factor is the exponential of its mean's distance from the average of all learned hours, within the clamps |
| `Evaluation.UnlearnedHoursScaleNothing` | packages/core/fx_core/alerts/seasonality.py:145-155 | the factor is exactly one until the hour has enough samples and enough hours have them |
| `Evaluation.FactorFollowsTheHour` | packages/core/fx_core/alerts/seasonality.py:145-155 | the busiest learned hour is scaled down and the quietest up |
| `Evaluation.FactorsNormalise` | packages/core/fx_core/alerts/seasonality.py:123-138 | the factors of the learned hours multiply to one if the clamps touch none; to less if some are cut and none raised, to more if some are raised and none cut |
| `Evaluation.HourIsWeightedMean` | packages/core/fx_core/alerts/seasonality.py:101-121 | what an hour has learned is the explicit weighted mean of the logarithms it was taught, and no other hour moves |
| `Evaluation.HourOfDay` | packages/core/fx_core/alerts/seasonality.py:101-121 | an instant belongs to the hour it is in, whatever the day |
| `Detector.RegimeDetector.RestoreFrom` | packages/core/fx_core/alerts/detector.py:227-236 | a snapshot replaces trigger, baseline and profile and nothing else |
| `Baseline.RecurrenceIsExact` | packages/core/fx_core/alerts/baseline.py:163-188 | after any admitted samples the mean and variance are the weighted mean and weighted variance with weights lam^(n-1), then (1-lam)*lam^(n-i), and debias is 1-lam^n |
| `Baseline.WeightsSumToOne` | packages/core/fx_core/alerts/baseline.py:163-188 | those weights sum to one |
| `Baseline.MomentsStayInRange` | packages/core/fx_core/alerts/baseline.py:163-198 | the mean stays within the samples' range, the variance is never negative, debias lies strictly between 0 and 1 |
| `Baseline.VolatilityBaseline.Observe` | packages/core/fx_core/alerts/baseline.py:163-188 | one sample in place; a frozen baseline or an unmeasurable sigma changes nothing |
| `Variance.WindowIsRecentBars` | packages/core/fx_core/volatility/buckets.py:120-127 | after pushes with increasing buckets the window is exactly the bars within window_seconds of the newest |
| `Variance.PushedVarianceIsTwoPass` | packages/core/fx_core/volatility/buckets.py:120-148 | after any increasing pushes the merged variance is the two-pass sample variance of every tick return of the bars within window_seconds of the newest |
| `Variance.WindowVarianceIsTwoPass` | packages/core/fx_core/volatility/buckets.py:139-148 | one merge per bar gives the two-pass sample variance over all the window's returns, a missing one counted as zero |
| `Variance.MergeIsExact` | packages/core/fx_core/volatility/welford.py:70-87 | combining two accumulators gives the moments of both samples together |
| `Variance.UpdateAllIsExact` | packages/core/fx_core/volatility/welford.py:41-52 | streaming updates keep exact moments of everything seen |
| `Variance.FromSumsIsExact` | packages/core/fx_core/volatility/welford.py:90-100 | rehydrating from additive sums is exact, and the clip at zero never acts (Cauchy-Schwarz) |
| `Variance.ExactIsTwoPass` | packages/core/fx_core/volatility/welford.py:54-58 | exact moments are the two-pass mean and squared deviation, which is never negative |
| `Variance.RollingWindow.Push` | packages/core/fx_core/volatility/buckets.py:120-127 | append in place, then evict from the front while older than the cutoff |
| `Variance.RollingWindow.Combine` | packages/core/fx_core/volatility/buckets.py:139-148 | the loop's accumulator is the merge of the window's bars |
| `Variance.Welford.UpdateMany` | packages/core/fx_core/volatility/welford.py:49-52 | the loop is one exact update per value |
| `CandleParity.ServerAndBrowserAgree` | packages/core/fx_core/intervals.py:78-137 | the server's sort and fold of raw cache members equals the browser's book, join and fold, for any order of members, every whole-minute timeframe and every field including n and src |
| `CandleParity.ShownIsMinuteByMinute` | apps/web/src/lib/stream/minutes.ts:53-83 | what the browser shows is, per minute, the join of that minute's members as the server sorts them |
| `CandleParity.FoldIsMinuteByMinute` | packages/core/fx_core/intervals.py:104-137 | the server's one-minute fold is, per minute, the join of that minute's bars |
| `Candles.RefoldIsFold` | packages/core/fx_core/intervals.py:104-137 | folding to a width and then to a multiple of it equals folding straight to the multiple, for any bars, in every field |
| `Candles.TimeframesCompose` | apps/web/src/lib/candles.ts:83-103 | the same for the browser's fold, its one-minute case included |
| `Candles.LiveCandleIsRefold` | apps/web/src/lib/candles.ts:106-150 | extending the bucket of the minutes before the forming one gives the last candle of folding them with it appended, in every field but the label, and in the label if and only if it agrees (always for a forming bar of our stream) |
| `Candles.JoinMeans` | apps/web/src/lib/candles.ts:59-75 | a joined minute has the highest high, lowest low and largest count reported, opens as a best-ranked report and closes as a worst-ranked one, and carries the shared source or mixed |
| `CandleMeaning.JoinOpensAndCloses` | apps/web/src/lib/candles.ts:46-76 | a joined minute opens as the provider's history if there is any, then as an already joined bar, and as our stream only if there is nothing else; it closes as our stream if there is any and as the provider only if there is nothing else |
| `CandleMeaning.FoldDescribes` | apps/web/src/lib/candles.ts:83-103 | for bars in time order: candles start at whole multiples of the timeframe, ascend, cover every bar, and each has the first open, the last close, the extremes, the sum of the counts and the shared source of exactly the bars of its span |
| `CandleMeaning.ServerFoldDescribes` | packages/core/fx_core/intervals.py:104-137 | the same of the server's candles, for the bars it was given put in time order |
| `Candles.JoinIgnoresOrder` | apps/web/src/lib/candles.ts:59-75 | reports of different ranks join alike in whatever order they came |
| `Candles.JoinReports` | apps/web/src/lib/candles.ts:59-75 | the loop over the sorted reports computes the join |
| `Candles.FoldMinutesLoop` | apps/web/src/lib/candles.ts:83-103 | the loop with the open candle held aside computes the fold |
| `Candles.LowerBound` | apps/web/src/lib/candles.ts:106-115 | binary search finds the first minute at or after a time |
| `Candles.BucketOfLoop` | apps/web/src/lib/candles.ts:118-130 | two searches and one fold give the candle of exactly the minutes in the span |
| `Candles.ServerFoldLoop` | packages/core/fx_core/intervals.py:104-132 | the loop that updates the newest candle in place computes the server's fold |
| `MinuteBook.LastReportsDecide` | apps/web/src/lib/stream/minutes.ts:53-83 | two histories of one minute that end in the same latest report of each kind show the same bar, whatever the interleaving |
| `MinuteBook.SlotHoldsLatest` | apps/web/src/lib/stream/minutes.ts:53-83 | a minute holds exactly the latest report per kind, a provisional one only while nothing sealed has come |
| `MinuteBook.TrimKeepsTheNewest` | apps/web/src/lib/stream/minutes.ts:143-148 | trimming leaves the newest minutes of the cap, unchanged |
| `MinuteBook.ShownIsAscending` | apps/web/src/lib/stream/minutes.ts:126-134 | the shown list is strictly ascending and holds one bar per held minute: its merged one |
| `MinuteBook.Book.Put` | apps/web/src/lib/stream/minutes.ts:53-83 | recording a report in place keeps every minute the join of its reports, no minute both provisional and sealed, the cached list right unless stale and the size bounded; true exactly when the shown minute changed |
| `MinuteBook.Book.HoldProvisionally` | apps/web/src/lib/stream/minutes.ts:86-88 | an ended forming bar is booked as our stream's, provisionally |
| `MinuteBook.Book.DropUnsealed` | apps/web/src/lib/stream/minutes.ts:99-114 | in the span, minutes the bars lack lose their provisional report, and the minute with it if that was all; every other minute is kept |
| `MinuteBook.Book.Sorted` | apps/web/src/lib/stream/minutes.ts:126-134 | the cached list is always the shown minutes |
| `MinuteBook.Book.Changed` | apps/web/src/lib/stream/minutes.ts:143-148 | past the slack the oldest go, in place, down to the cap |
| `Store.RangeNeverNarrows` | apps/web/src/lib/stream/store.ts:250-315 | over any run of cumulative tick frames (some lost), vol frames and merges: the forming minute is never one held sealed, and a minute's own range never narrows until it is sealed, passed over by a merge, or dropped by the cap |
| `Drawing.NeverNarrowsBetween` | apps/web/src/lib/stream/store.ts:250-315 | between any two frames of such a run: a minute's own range does not narrow unless something between the two excuses it, and over tick and vol frames neither does the minute as drawn |
| `Drawing.DrawnNeverNarrows` | apps/web/src/lib/stream/store.ts:250-286 | over tick and vol frames a minute as drawn (its forming bar, or all its reports joined) never narrows until it is sealed, dropped by the cap, or started over |
| `Drawing.FrameDraws` | apps/web/src/lib/stream/store.ts:250-286 | one tick or vol frame narrows a drawn minute, neither sealed nor dropped, if and only if it is the first tick frame of a minute whose provider bar it does not cover |
| `Drawing.LiveFrameIsDrawn` | apps/web/src/lib/stream/store.ts:250-257 | a tick frame of a minute not held sealed, with nothing forming of a later minute or of its own with more ticks, becomes the forming bar and is what is drawn; any other changes nothing |
| `Drawing.TheLastFrameForms` | apps/web/src/lib/stream/store.ts:250-257 | over tick frames in publish order the forming bar is always the last one delivered of a minute not held sealed when it came |
| `Drawing.SealLeavesLaterForming` | apps/web/src/lib/stream/store.ts:276-286 | after a vol frame nothing is forming at or before its minute, and what forms later is untouched |
| `Store.SealLands` | apps/web/src/lib/stream/store.ts:276-286 | once a sealed frame lands, its minute shows that bar joined with any provider or mixed report, and nothing forming or provisional is left in it |
| `Store.SealsAreKept` | apps/web/src/lib/stream/store.ts:250-286 | a sealed minute stays sealed while it is held |
| `Store.MergeTakesTheLast` | apps/web/src/lib/stream/store.ts:294-315 | after a merge a minute holds of each source the last report among the bars, or else the one from before, unless the cap drops it |
| `Store.MergeDropsOnlyProvisional` | apps/web/src/lib/stream/store.ts:294-315 | a minute in the span of the bars but not among them loses its provisional report and nothing else; every other minute keeps all that was put |
| `Store.MarketStore.ApplyFormingFrame` | apps/web/src/lib/stream/store.ts:250-257 | a stale frame or a sealed minute changes nothing; a later minute holds the ended one provisionally |
| `Store.MarketStore.SealFrame` | apps/web/src/lib/stream/store.ts:276-286 | book the sealed bar, hold an older forming minute, clear the forming one |
| `Store.MarketStore.MergeMinutes` | apps/web/src/lib/stream/store.ts:294-315 | every minute after a merge is determined, the forming one cleared if sealed, and a snapshot that starts after everything held asks for history |
| `Conflator.ReaderIsCurrent` | apps/api/fx_api/ws/conflator.py:81-137 | over any run, a key's deliveries and pending value are its accepted values with some left out, in order, and end in the newest accepted one unless an unsubscribe dropped it |
| `Conflator.AlertsAreNeverConflated` | apps/api/fx_api/ws/manager.py:133-174 | with a distinct number each, the alerts delivered and then those pending are exactly those accepted, in order |
| `Conflator.EveryEventReachesItsReaders` | apps/api/fx_api/ws/manager.py:133-174 | if the events sent carry distinct pairs and numbers, the alerts delivered and then those pending are, in order and with their text, all the events sent while the reader was connected and followed the pair |
| `Conflator.SlotsAreSharedIff` | apps/api/fx_api/ws/manager.py:133-167 | two messages share a slot if and only if both are feed health, both prices of one pair, both volatilities of one pair, or both events of one pair and number; the text travels unchanged |
| `Conflator.ReaderHasTheNewest` | apps/api/fx_api/ws/conflator.py:81-137 | overlaying what is pending on what was sent, a reader has the newest price and volatility it is owed of every pair it never unfollowed, and the newest feed health |
| `Conflator.SendingIsDispatching` | apps/api/fx_api/ws/manager.py:169-174 | what the runs above do with a message is what the fan-out does, and a closed session takes nothing |
| `Conflator.EveryFrameIsCounted` | apps/api/fx_api/ws/conflator.py:81-137 | accepted = sent + conflated + pending + dropped by unsubscribe |
| `Conflator.PendingIsBounded` | apps/api/fx_api/ws/conflator.py:81-137 | pending frames other than alerts never exceed twice the followed pairs plus one |
| `Conflator.ClientSession.Offer` | apps/api/fx_api/ws/conflator.py:81-94 | replace the key's value in its place in the queue, or append it; nothing when closed |
| `Conflator.ClientSession.Drain` | apps/api/fx_api/ws/conflator.py:96-106 | everything queued, in order, once |
| `Conflator.ClientSession.Unsubscribe` | apps/api/fx_api/ws/conflator.py:129-137 | the pairs and their queued price and volatility go, nothing else |
| `Conflator.FanoutManager.Dispatch` | apps/api/fx_api/ws/manager.py:133-174 | feed health to every session, the rest to those who follow the pair, each under its own key; every other session unchanged |
| `Recovery.MissingSpans` | apps/ingestor/fx_ingestor/recovery.py:169-196 | the spans hold exactly the expected minutes neither stored nor settled, in order, disjoint and apart |
| `Recovery.SpansAreMaximal` | apps/ingestor/fx_ingestor/recovery.py:169-196 | the minutes just outside a span are in none |
| `Recovery.MissingMeans` | apps/ingestor/fx_ingestor/recovery.py:183-186 | a minute is missing if and only if it is expected, not stored and not settled |
| `Recovery.SplitByDays` | apps/ingestor/fx_ingestor/recovery.py:218-226 | the loop ends, its parts hold exactly the span's minutes, each within the day limit, and a cut falls only where the allowed calendar days, counted from the part's first, end |
| `Recovery.PlanRequests` | apps/ingestor/fx_ingestor/recovery.py:229-247 | each request within its UTC days, symbol by symbol, and per symbol exactly the minutes of its spans taken by start, strictly rising when its spans share no minute; a request is followed by another of its symbol only because that one's first piece ends too many days on, and pieces are cut only as above |
| `Recovery.FewestRequests` | apps/ingestor/fx_ingestor/recovery.py:229-247 | no plan that carries the same pieces whole, each request of one symbol and within the days, has fewer requests |
| `Recovery.AtMostTwiceTheFewest` | apps/ingestor/fx_ingestor/recovery.py:229-247 | however the same minutes were cut and grouped within the days, it takes at least half as many requests |
| `Recovery.CuttingElsewhereCanSaveOne` | apps/ingestor/fx_ingestor/recovery.py:218-247 | three pieces, three days at a time, one over midnight: planned in three requests though two would carry the minutes |
| `Recovery.SortsByStart` | apps/ingestor/fx_ingestor/recovery.py:236-238 | whatever the spans, they are taken one after the other by their starts |
| `Recovery.OldestFirst` | apps/ingestor/fx_ingestor/recovery.py:229-247 | a symbol's spans that share no minute are asked for in strictly rising minutes |
| `Recovery.LessMeans` | apps/ingestor/fx_ingestor/recovery.py:236 | symbols are taken in order of their first differing character, a name before any it begins |
| `Recovery.RequestCoversItsSpans` | apps/ingestor/fx_ingestor/recovery.py:199-215 | what such a request asks of the provider, first start to last end, is within its days and takes in every minute it carries |
| `Recovery.PlanMissing` | apps/ingestor/fx_ingestor/recovery.py:169-247 | from expected minutes to requests: exactly the missing minutes, once each, in a plan with as few requests as whole pieces allow |
| `Recovery.MissingIsRising` | apps/ingestor/fx_ingestor/recovery.py:169-196 | no minute is asked for twice |
| `HotCache.CacheIsNewestOfUnion` | apps/ingestor/fx_ingestor/recovery.py:352-373 | adding any bars to a cache within its bound leaves the newest members of the union, held ones kept and the first new one given per minute |
| `HotCache.UnionIsByMinute` | apps/ingestor/fx_ingestor/recovery.py:347-373 | with one member per minute the union has one per minute, every held one among them |
| `HotCache.AscendingPredictionIsExact` | apps/ingestor/fx_ingestor/recovery.py:423-445 | of any number of bars oldest first, the script takes exactly those predicted |
| `HotCache.AddedIsPredicted` | apps/ingestor/fx_ingestor/recovery.py:352-373 | for bars oldest first the count the script returns is the number of minutes predicted |
| `HotCache.RepairAddsWhatItAnnounced` | apps/ingestor/fx_ingestor/recovery.py:904-918 | a repair with predicted bars, read oldest first, adds every one of them |
| `HotCache.PredictionIsExactIff` | apps/ingestor/fx_ingestor/recovery.py:423-445 | for bars in any order the prediction is exact if and only if each predicted bar is the first of its minute and what came before leaves it room |
| `HotCache.TakenIff` | apps/ingestor/fx_ingestor/recovery.py:352-373 | which bars of a list the script takes: of a minute neither held nor given earlier, with fewer members than the bound newer among what is held and was given |
| `HotCache.PredictionCovers` | apps/ingestor/fx_ingestor/recovery.py:423-445 | in any order, every bar the script adds was predicted |
| `HotCache.NewestFirstIsMispredicted` | apps/ingestor/fx_ingestor/recovery.py:423-445 | newest first, a full cache and two bars of which both are predicted and one is added: the condition fails there |
| `HotCache.CacheAdd` | apps/ingestor/fx_ingestor/recovery.py:352-373 | the script's loop, and the count it returns; an absent cache stays absent |
| `Quota.ReserveIsKept` | apps/ingestor/fx_ingestor/quota.py:40-56 | any hour with both ends and any day open at its start hold at most the limit less the reserve of granted background requests, for any mix of callers |
| `Quota.GrantIsExact` | apps/ingestor/fx_ingestor/quota.py:40-56 | a background request is granted if and only if everything ever entered leaves both rolling windows under the caps: pruning forgets nothing that counts |
| `Quota.GrantIsByCount` | apps/ingestor/fx_ingestor/quota.py:92-107 | the same by number: granted if and only if fewer requests of either kind were made in the last hour, and in less than a day, than the account allows beyond its reserve |
| `Quota.ReserveIsLeft` | apps/ingestor/fx_ingestor/quota.py:40-56 | the reserve of every hour and of every day is left, whatever background work was granted; with nothing beyond the reserve none is |
| `Quota.LiveIsNeverRefused` | apps/ingestor/fx_ingestor/quota.py:80-90 | a live request is entered after any run |
| `Quota.ClosedDayBound` | apps/ingestor/fx_ingestor/quota.py:40-56 | in every run a day counted with both ends holds at most the daily limit and what was granted at its opening instant, so at most twice the limit, and just the limit if nothing was granted then |
| `Quota.TwiceTheCapIsReached` | apps/ingestor/fx_ingestor/quota.py:40-56 | for every daily limit an hour has room for, a run in which such a day holds twice the limit |
| `Quota.ClosedDayKeepsIff` | apps/ingestor/fx_ingestor/quota.py:40-56 | such a day keeps the limit in every run if and only if nothing is ever granted or 24 hours at the hourly limit do not exceed the daily one |
| `Quota.RequestQuota.EnterRequest` | apps/ingestor/fx_ingestor/quota.py:44-55 | prune, count both windows, refuse or enter, and the counts replied |
| `Quota.RequestQuota.Take` | apps/ingestor/fx_ingestor/quota.py:92-107 | background work enters under the limits less the reserve |
| `Adoption.NoNumberIsReused` | apps/ingestor/fx_ingestor/pipeline.py:621-681 | over any provider switches, deaths, promotions and even a lost marker, no (symbol, number) is logged twice and a symbol's numbers only rise |
| `Adoption.NoKeyIsLost` | apps/ingestor/fx_ingestor/pipeline.py:106-130 | the script moves every state key to its own place with its value and leaves no key that was not moved there |
| `Adoption.OnlyOneAdopts` | apps/ingestor/fx_ingestor/pipeline.py:106-130 | of two processes that read the marker before either runs the script, the second changes nothing |
| `Adoption.AdoptionClearsCaches` | apps/ingestor/fx_ingestor/pipeline.py:106-130 | after an adoption the provider is recorded and none of the process's caches is left |
| `Adoption.RefusalIsOutsideTheCovered` | apps/ingestor/fx_ingestor/pipeline.py:106-130 | after any run under a recorded provider, whatever each process is configured for, the script refuses if and only if some configured key outside those covered by the adoption that recorded it is both live and parked |
| `Adoption.RefusalIsReachableIff` | apps/ingestor/fx_ingestor/pipeline.py:500-545 | some run from an empty store leads to such a refusal if and only if the switching process is configured for a key the recording adoption did not cover |
| `Adoption.SwitchingBackRestores` | apps/ingestor/fx_ingestor/pipeline.py:500-545 | whatever happened under other providers, adopting a provider again puts back each state key as it was left, unless it expired meanwhile |
| `Adoption.Redis.Adopt` | apps/ingestor/fx_ingestor/pipeline.py:106-130 | the script key by key: marker check, refusal before any change, park, restore, drop caches, set the marker |
| `Adoption.RestoreSeq` | apps/ingestor/fx_ingestor/pipeline.py:634-681 | the restored number is the larger of the snapshot's and every parked detector's, whatever order the scan meets them in |
| `AlertTable.EveryConflictIsARedelivery` | apps/worker/fx_worker/alerts.py:131-165 | of the transitions so numbered, delivered any number of times in any batches, each is stored once and every conflict is classified as a redelivery |
| `AlertTable.DeliveriesAreIdempotent` | apps/worker/fx_worker/alerts.py:131-198 | for any log that numbers once, the table is exactly the delivered entries and no collision is counted |
| `AlertTable.ReportsTheLostForEveryTableIff` | apps/worker/fx_worker/alerts.py:131-179 | whatever the table holds, a batch's collisions are exactly the rows lost, if and only if no two of its rows share a number with different timestamps |
| `AlertTable.ReportsTheLostIff` | apps/worker/fx_worker/alerts.py:131-179 | the same for one table: if and only if the rows of each number agree, on their timestamp if it is new and on being the stored one if it is not |
| `AlertTable.CollisionsAreTheLost` | apps/worker/fx_worker/db.py:96-108 | for any log, numbers reused or not, while each batch is so, the collision counter is the number of rows the table lost |
| `AlertTable.MixedBatchIsMisjudged` | apps/worker/fx_worker/db.py:201-227 | one number with two timestamps in one batch: lost unreported over an empty table and over one that holds the second, and a redelivery reported over one that holds the first |
| `AlertTable.AlertPersister.InsertAlerts` | apps/worker/fx_worker/db.py:96-108 | insert, do nothing on conflict; how many landed, and the keys already stored |
| `AlertTable.AlertPersister.Flush` | apps/worker/fx_worker/alerts.py:131-179 | store a batch and count each conflict once, as redelivery or collision |
| `Bars.FloorToBucket` | packages/core/fx_core/volatility/buckets.py:40-43 | the boundary at or below an instant, less than one bucket away, for instants on either side of the epoch |
| `Bars.BucketAccumulator.Start` | packages/core/fx_core/volatility/buckets.py:61-78 | a new bar of the instant's bucket: every price its first, no ticks, no returns |
| `Bars.BucketAccumulator.Add` | packages/core/fx_core/volatility/buckets.py:80-90 | one tick in place: extremes, close, count, and the return when both prices are positive |
| `Persister.Persister.Receive` | apps/worker/fx_worker/persister.py:231-233 | a page folded in entry by entry, and each entry remembered for acknowledgement |
| `Persister.Persister.Restart` | apps/worker/fx_worker/persister.py:212-219 | what a failed flush left in memory is dropped before the replay |
| `ConsumerGroup.Group.ReadOwn` | apps/worker/fx_worker/persister.py:222-227 | the first page of this consumer's own pending entries |
| `ConsumerGroup.Group.AutoClaim` | apps/worker/fx_worker/persister.py:251-258 | the first page at or after the cursor, whoever owns it, now owned by this consumer |
| `ConsumerGroup.Group.ReadNew` | apps/worker/fx_worker/persister.py:298-304 | the next entries delivered, pending under this consumer |
| `ConsumerGroup.Group.Ack` | apps/worker/fx_worker/persister.py:195-196 | the entries leave the pending list, the rest keep their order |
| `Trigger.SchmittTrigger.HoldRegime` | packages/core/fx_core/alerts/hysteresis.py:344-376 | an unevaluated sample drops the candidate, and a stress unobserved for the timeout is declared over |
| `Trigger.SchmittTrigger.FromSnapshot` | packages/core/fx_core/alerts/hysteresis.py:440-453 | a restored trigger keeps regime, number, dates and thaw marker and no half-confirmed candidate |
| `Failover.AlertRateIsBounded` | packages/core/fx_core/alerts/hysteresis.py:305-342 | the rate bound for any log that is numbered, alternating, cooled down and in order |
| `Detector.RegimeDetector.Learn` | packages/core/fx_core/alerts/detector.py:172-185 | freeze under stress unless re-learning, thaw in normal, admit a sample only in normal or while re-learning, teach the profile only in normal |
| `Detector.DiurnalProfile.Observe` | packages/core/fx_core/alerts/seasonality.py:101-121 | one hour's running mean and count move; a dead sigma changes nothing |
| `Detector.Factor` | packages/core/fx_core/alerts/seasonality.py:145-155 | the factor stays within its clamps, and is one until the hour is learned |
| `Variance.RollingWindow.Evict` | packages/core/fx_core/volatility/buckets.py:124-127 | bars leave the front while they are older than the cutoff |
| `Variance.Welford.Update` | packages/core/fx_core/volatility/welford.py:41-47 | one value in place is one update of the moments |
| `MinuteBook.PutSlotMeans` | apps/web/src/lib/stream/minutes.ts:53-83 | what one report does: it takes its kind's place, a sealed one drops the provisional, a provisional one is refused once something is sealed |
| `MinuteBook.Book.Clear` | apps/web/src/lib/stream/minutes.ts:136-141 | nothing held, nothing forming |
| `Store.FormingStaysOpen` | apps/web/src/lib/stream/store.ts:250-315 | no frame, seal or merge leaves the forming minute on one held sealed |
| `Store.MergeIsDetermined` | apps/web/src/lib/stream/store.ts:294-315 | the drops of a merge leave one outcome, whatever order they are made in |
| `Conflator.ClientSession.Subscribe` | apps/api/fx_api/ws/conflator.py:125-127 | the pairs join the followed ones |
| `HotCache.WouldTake` | apps/ingestor/fx_ingestor/recovery.py:423-445 | of the minutes asked, those not held and newer than the oldest a full cache keeps; none for an absent cache |
| `Quota.RequestQuota.Record` | apps/ingestor/fx_ingestor/quota.py:80-90 | a live request is entered under caps no ledger reaches, and the flag says if a window then holds more than the account's allowance |
| `Adoption.ParkedStays` | apps/ingestor/fx_ingestor/pipeline.py:106-130 | what one provider has parked is left alone by everything done under others |

## Left out

- ExactlyOnce: does not cover the return sums, because a drain forgets the previous prices, so they can differ after a restart; open, high, low, close and tick count are inside it.
- ServerAndBrowserAgree: for at most 2,940 members, past which the browser's book drops its oldest minutes; the cache holds 1,440 minutes.
- DrainOwnPending: asks that every page hold an entry that parses; without one the loop never ends and leaves no state to describe (`Draining.DrainNeverEnds`).
- TheLastFrameForms: for tick frames in publish order; a vol frame or a merge in between can clear the forming bar (`Drawing.SealLeavesLaterForming`, `Store.MarketStore.MergeMinutes`).
- FactorsNormalise: with hours cut and hours raised at once the product can come to anything.
- DrawnNeverNarrows: for tick and vol frames; a merge may bring a provider's bar narrower than the one it replaces.
- SwitchingBackRestores: for keys that did not expire meanwhile; the series carry a time to live, the detector state does not.
- CacheIsNewestOfUnion: counts members, as the script does; they are minutes when each minute holds one (`HotCache.UnionIsByMinute`).
- Rows that history recovery writes while the persister runs, and the `source` column of a row.
- Accumulators as objects inside the worker's dictionaries: they are values there, so aliasing between them is not captured (`Bars.BucketAccumulator` itself is a class).
- Stream ids as text: they are pairs of numbers, compared as the code compares them after parsing.
- The stream, the databases and Redis: foreign services, modelled as atomic steps on maps and sequences; so also the lease, the network, retries, timeouts and the circuit breaker.
- A process promoted before any snapshot exists is taken to start cold; corrupt snapshots are not modelled.
- The human-readable reasons of gates and transitions, the volatility snapshot, the EWMA and the z history.
- The New York calendar, daylight saving, and weekly and monthly candles: market-open is an arbitrary predicate and only fixed widths are covered.
- Floating-point rounding, infinities and not-a-number, and the values of `ln`, `exp` and `sqrt`.
- Bars with missing `n` or `src` fields, which the server's fold defaults; a bar whose source text is the browser's own provisional marker.
- The prices-only fallback of the browser for an older server, daily candles, render topics and animation frames.
- A snapshot's own forming bar that is newer than frames queued behind it: forming bars are taken in publish order.
- The conflator's wake-up event and saturation clock, and symbols in lower case.
- Requests the quota ledger could not record because Redis failed.
- Malformed alert entries, the columns of an alert row besides its timestamp, and trimming of the alert stream.
- Holding ticks back after a provider switch, and two leaders at once.
- React components, charts, metrics, logging, JSON formats, settings, health routes: they would add only easy members.
