# A verified model of llm-monitor

llm-monitor watches the models that LLM providers offer: it keeps an inventory in PostgreSQL, probes
models on a schedule, mails alerts and draws dashboards. This Dafny project models its hardest parts
and proves what they promise. `dafny verify dfyconfig.toml` checks everything.

**The inventory and what is derived from it.** `Lifecycle` gives the three write transactions as effects
on one model row, and `Detection` what the probes of a model establish; `EventLog`, `PlanCache`,
`AlertLedger` and `CapabilityMemory` are the four derived structures. `Monitor` is the worker as a state
machine (refresh, abort, provider failure, model deactivation, alert attempt, prune, diagnostic), and
`Inventory`, `AlertLedger`, `AlertRetention` and `CapabilityMemory` prove what every run of it keeps.
`Database.Store` and `Service.ModelService` are the mutable objects whose methods do the work loop by loop
(`Reports` says what they leave in the alert ledger). Each method is proved to take steps of the state
machine, so that an idle service has every property proved of runs, and says besides what it leaves behind,
field by field.

**Two concurrent protocols.** `SpacingTransactions` interleaves any number of `ReserveTaskStart`
transactions step by step and shows that every schedule is serial in lock order; `Spacing` gives the closed
form of the serial case. `FanOut` interleaves the goroutines of `detectModels` under a counting semaphore
and cancellation.

**Transformations and codecs.** `Wildcard` proves the glob-to-regexp compiler against a parser and a
semantics of the emitted text; `Schedule` proves override resolution and the read-back of scheduler
entries; `Keys`, `ModelKeys` and `Durations` prove the keys and texts.

**Arithmetic loops.** `Charts` is the bucketing of samples, `Stream` the metrics of a streamed answer.

Times are integer nanoseconds. Clock readings of the worker strictly increase; within one stream they do
not decrease. Tasks of the worker are atomic: no other task runs while a refresh still has event alerts to
attempt. The database, the notifier, the probes, JSON decoding and `time.ParseDuration` are parameters or
nondeterministic choices.

## What the code does that its intent does not say

- At-most-once alerting holds only under a condition on the settings, because alert keys carry whole seconds
  and retention drops rows: `AlertRetention.NeverTwiceIff`.
- A failed send whose error text is empty is recorded like a delivery and is not retried:
  `AlertLedger.FailureBlocksIffSilent`.
- `insertModelEvent` stores `unknown` for an empty capability, so the log shows the normalised capability.
- Bucketing divides toward zero, so samples up to one interval before the start are drawn in the first bucket:
  `Charts.AcceptedContainedIff`. The queries that feed it select from the start on.
- `formatAlertDuration` is off by one second within half a second of the longest duration, and prints the most
  negative one as `-16s`: `Durations.FormatAlertDuration`.
- A manual check of a model with a non-ASCII id asks for a different id: `ModelKeys.ManualCheckRecoversIdIff`.
- Several keys decode to one model id: `ModelKeys.AcceptedKeyIsStableIff`.

## Model

| member | source | states |
|---|---|---|
| Lifecycle.SoundnessKept | internal/store/models.go:65-199 | every committed transaction keeps: a row is inactive exactly while missing_since is set |
| Lifecycle.ObservationIsExact | internal/store/models.go:58-199 | after a committed observation the provider's active models are exactly the observed ids, other providers' rows are untouched, and first_seen_at never moves |
| Lifecycle.ObservationLeaves | internal/store/models.go:65-199 | written over the fields: a listed row repeats the observation with last_seen_at and last_probe_at now; it draws exactly one `added`, `returned` or `capability_changed` event, the last exactly if its capability, exclusion or skip reason changed, else none; an active row not listed goes inactive with one event; nothing else moves |
| Lifecycle.DeactivationLeaves | internal/store/models.go:220-246 | the same for the one targeted row |
| Lifecycle.ProviderDeactivationLeaves | internal/store/models.go:248-281 | written over the fields: every active, non-excluded row of the provider that is not `skip` goes inactive with exactly one event, keeping an earlier missing_since; every other row keeps every field and draws no event |
| EventLog.ReplayIsPerModel | internal/store/models.go:328-370 | folding the interleaved log gives, for each model, the fold of that model's own `changed` events |
| EventLog.LogMatchesKept | internal/store/models.go:65-199 | one committed transaction, whichever it is, keeps the log replaying to the table |
| EventLog.LogMatchesMeans | internal/store/models.go:56-199 | a matching log rebuilds the table: same models, status, capability as stored in events, first_seen_at and missing_since |
| EventLog.HistoryGrows | internal/store/models.go:65-199 | a history of the prescribed shape stays of that shape when a legal event follows |
| EventLog.ShapedHistoriesKept | internal/store/models.go:65-199 | one committed transaction keeps every model's history in the prescribed shape, ending in `inactive` exactly when the row is inactive |
| EventLog.LegalEventMovesStatus | internal/store/models.go:65-199 | in a legal history each event type really makes the status change it announces |
| EventLog.BalanceCountsActive | internal/store/models.go:65-199 | over a legal log, the replayed active models of a provider number #added + #returned - #inactive |
| EventLog.ActiveModelsBalance | internal/store/models.go:234-275 | the same count holds of the table when log and table match |
| PlanCache.RefreshAgreesIff | internal/schedule/tasks/models/model_snapshot.go:190-202 | after a refresh the provider's plan holds exactly its runnable models, each once, whatever the plan was, if and only if no non-excluded observed capability lies outside chat, embedding, skip and unknown |
| PlanCache.RefreshKeepsAgreement | internal/schedule/tasks/models/rules.go:11-20 | a refresh of classified models keeps plan and table in agreement for all providers at once |
| PlanCache.ProviderDownAgrees | internal/schedule/tasks/models/service.go:54-93 | failing a provider empties its plan and its runnable rows together, whatever the plan was, and moves no other provider |
| PlanCache.ModelGoneAgrees | internal/schedule/tasks/models/service.go:69-104 | dropping one model from the plan matches deactivating it, also when the deactivation finds nothing to do |
| PlanCache.AgreesMeans | internal/store/models.go:283-306 | agreement in plain words: no duplicate plan entries, and membership is runnability |
| Monitor.KeysDiffer | internal/schedule/tasks/models/rules.go:22-24 | equal alert keys come from the same alert type, provider, model and second |
| Reports.KeySpelled | internal/schedule/tasks/models/rules.go:22-24 | the key is type, provider, model and Unix second joined by colons, the types being first-seen, returned and inactive |
| Inventory.AlwaysConsistent | internal/store/models.go:16-371 | every world of every run is consistent: sound rows, matching log, shaped histories, agreeing plan |
| Inventory.LifecycleInvariant | internal/store/models.go:65-199 | in every reachable state a model is inactive if and only if missing_since is set |
| Inventory.LogReplaysToStates | internal/store/models.go:328-370 | after any run, replaying every event ever written rebuilds model_states |
| Inventory.PlanIsRunnableModels | internal/schedule/tasks/models/model_snapshot.go:49-71 | after any run the in-memory plan lists each runnable model once and nothing else |
| Inventory.HistoriesHaveGrammar | internal/store/models.go:65-199 | every model's `changed` events form added capability_changed* (inactive returned capability_changed*)* [inactive], also event by event: `added` comes first and only there, and `returned` exactly after `inactive`; they are empty exactly for unknown models |
| Inventory.ActiveCountIsBalance | internal/store/models.go:234-275 | after every step a provider's active rows number its `added` and `returned` events less its `inactive` events |
| Inventory.FirstSightIsForever | internal/store/models.go:65-120 | models are never forgotten and keep first_seen_at |
| Inventory.RetentionIsExact | internal/store/retention.go:14-57 | after any run the event and snapshot tables are exactly what was ever written at or after the latest cutoff |
| CapabilityMemory.LastRunnableIsNewest | internal/store/models.go:479-508 | the remembered sighting is the newest chat or embedding observation of the unpruned history, and the only one of its time |
| CapabilityMemory.AnswerIsRetained | internal/store/models.go:479-508 | after any run the query has exactly one possible answer: the true newest runnable capability if retention or the model's own row still shows it, else none |
| CapabilityMemory.UnprunedMemoryIsHistory | internal/store/models.go:479-508 | until something is pruned the query returns the most recent runnable capability of the whole history |
| CapabilityMemory.TransientFailureKeepsRunnable | internal/schedule/tasks/models/capabilities.go:13-64 | under any pruning, when neither probe succeeds and one failed with 429, 500 or more or a transient hint, a model whose row is runnable keeps its capability |
| CapabilityMemory.UnknownIff | internal/schedule/tasks/models/capabilities.go:31-64 | detection answers `unknown` exactly when neither probe succeeds and some failure may pass |
| Detection.TransientMeans | internal/schedule/tasks/models/capabilities.go:66-75 | a failure is transient exactly for status 429, a status of 500 or more, or one of the fifteen hints in letters of either case |
| Detection.UnavailableMeans | internal/schedule/tasks/models/capabilities.go:77-116 | an answer says the model is gone exactly for status 404 or 410, or for 400, 422 or 503 with one of the eight hints and without "temporarily unavailable" |
| Detection.DetectionMeans | internal/schedule/tasks/models/capabilities.go:13-64 | what is stored: chat if its probe is ok, else embedding with a positive dimension, else, if a failure may pass, the remembered runnable capability or `unknown`, else `skip` with its reason |
| CapabilityMemory.DetectedIsClassified | internal/schedule/tasks/models/model_snapshot.go:146-161 | detection only yields capabilities on which plan and table agree, never excluded ones |
| CapabilityMemory.RefreshNeverForgets | internal/schedule/tasks/models/model_snapshot.go:146-161 | no refresh of any run turns a runnable row into an unknown one |
| AlertLedger.RefreshAsks | internal/schedule/tasks/models/model_snapshot.go:71-92 | a refresh asks for a first-seen alert only of a model it stores for the first time, and for a returned alert only after an absence of at least the threshold |
| Reports.RefreshRequests | internal/schedule/tasks/models/model_snapshot.go:71-92 | a refresh asks for exactly the first-seen alerts of listed models without a row and the returned alerts of listed models absent for at least the threshold |
| AlertLedger.AlwaysLedgerSound | internal/schedule/tasks/models/alerts.go:68-142 | with sufficient retention every delivery of every run is still recorded or can never be asked for again, and no key was delivered twice |
| AlertLedger.FirstSeenAtMostOnce | internal/schedule/tasks/models/model_snapshot.go:71-82 | no two deliveries of any run are first-seen alerts of one model, under any settings, failures and pruning |
| AlertLedger.AbsenceKeepsStart | internal/store/checks.go:13-43 | while a model stays inactive its missing_since, and so its alert key, stays the same |
| AlertLedger.RecordedInactiveAlertStays | internal/store/retention.go:37-54 | a recorded inactive delivery is neither pruned, overwritten nor repeated while its model stays inactive, under any settings |
| AlertLedger.DueAlertCanBeSent | internal/schedule/tasks/models/alerts.go:13-30 | a due and unrecorded inactive alert can be attempted, and acceptance delivers and records it |
| AlertLedger.FailureBlocksIffSilent | internal/store/alerts.go:5-37 | a failed attempt blocks later ones exactly when its error text is empty |
| AlertLedger.UnrecordedStaysRetryable | internal/store/alerts.go:5-37 | an inactive alert none of whose attempts was recorded without error text stays unrecorded under the same key for the whole absence |
| AlertRetention.ShortRetentionRepeats | internal/store/retention.go:37-54 | under any other settings there is a run that delivers a key twice |
| AlertRetention.NeverTwiceIff | internal/store/retention.go:37-54 | no run delivers a key twice if and only if pruning is off, or the window is at least a second less 3 ns, or the absence threshold is at least a second less 2 ns |
| Database.Store.ProcessModelObservation | internal/store/models.go:16-205 | commits the observation with its snapshot, row by row and event by event as ObservationLeaves says, or, on a duplicate id or a database error, changes nothing |
| Database.Store.MarkModelInactive | internal/store/models.go:220-246 | an active, non-excluded, non-skip row goes inactive with one event and an earlier missing_since kept; any other row keeps every field and draws no event; or nothing at all |
| Database.Store.MarkAllModelsInactive | internal/store/models.go:248-281 | the same for every row of the provider, in one transaction, or nothing at all |
| Database.Store.RunnableModels | internal/store/models.go:283-306 | returns each active, non-excluded chat or embedding model once and nothing else |
| Database.Store.InactiveModelsForAlert | internal/store/checks.go:13-43 | returns exactly the models inactive for at least the threshold |
| Database.Store.LastRunnableCapabilities | internal/store/models.go:479-508 | answers, for each model of the provider, with a newest known runnable row |
| Database.Store.EmailAlertExists | internal/store/alerts.go:22-27 | true exactly when the key has a row without error text |
| Database.Store.RecordEmailAlert | internal/store/alerts.go:29-37 | inserts the row or overwrites a failed attempt, never a delivered one |
| Database.Store.PruneHistoryBefore | internal/store/retention.go:14-57 | keeps exactly the events and snapshots since the cutoff, in order, and the alert rows that are recent or of an absence that still lasts |
| Service.FanOutDetects | internal/schedule/tasks/models/model_snapshot.go:107-167 | every schedule of the fan-out that returns uncancelled stores for each listed id, in order, what its two probes and its remembered capability establish |
| Service.ModelService.SendModelAlert | internal/schedule/tasks/models/alerts.go:68-142 | a key delivered before changes nothing; else one mail is attempted, its row written under the key with the error text, the outcome noted, and the delivery counted exactly if it was accepted |
| Service.ModelService.SendInactiveModelAlerts | internal/schedule/tasks/models/alerts.go:13-30 | every model inactive for at least the threshold has its alert delivered on record or attempted by this call, and no other row of the ledger moves; states and plan stay |
| Service.ModelService.MarkAllModelsInactive | internal/schedule/tasks/models/service.go:54-67 | is exactly one provider-failure step of the worker, spelled out for rows, events and plan, or changes nothing |
| Service.ModelService.MarkModelInactive | internal/schedule/tasks/models/service.go:69-82 | is exactly one model-deactivation step of the worker, spelled out for rows, events and plan, or changes nothing |
| Service.ModelService.RefreshProviderModels | internal/schedule/tasks/models/model_snapshot.go:49-93 | succeeds exactly when the listing succeeded, its ids are distinct and the database is up; then the active models are the listed ones, each row holds what its probes and remembered capability establish, rows and events changed as an observation's do, and the ledger gained exactly the alerts of new models, long-absent returners and long absences; a failed listing deactivates the provider and reports long absences; anything else changes nothing |
| Service.ModelService.StoreInventory | internal/schedule/tasks/models/model_snapshot.go:62-71 | stores the observation and its snapshot and reloads the plan, or leaves states and plan as they were |
| Service.ModelService.AttemptEventAlerts | internal/schedule/tasks/models/model_snapshot.go:72-91 | attempts the first-seen and returned alerts of the written events, in order, leaving none pending and moving no other row of the ledger |
| Service.ModelService.HttpCheck | internal/schedule/tasks/checks/http_check.go:22-60 | a recorded failed check deactivates the provider, rows, events and plan; a healthy one after a failure, and only that, asks for recovery |
| Service.ModelService.RunChatTests | internal/schedule/tasks/models/model_runs.go:79-148 | the model leaves the plan exactly if the database is up and some running prompt is answered 404 or 410, or 400, 422 or 503 with a model-gone text; probes stop there, one diagnostic each, and the row goes inactive with the reason |
| Service.ModelService.RunEmbeddingTest | internal/schedule/tasks/models/model_runs.go:150-202 | the model is deactivated and leaves the plan exactly if the fixture is not blank, the run is recorded, the database is up and the answer is 404 or 410, or 400, 422 or 503 with a model-gone text |
| Service.ModelService.PruneHistory | internal/store/retention.go:14-28 | with a positive window exactly one prune step: what is left is what was observed at or after now less the window, with the protected alerts; else nothing |
| Service.DetectionsListIds | internal/schedule/tasks/models/model_snapshot.go:107-167 | what detection stores lists exactly the listed ids, all classified, duplicates kept |
| Service.IdleServiceGuarantees | internal/schedule/tasks/models/service.go:23-46 | between tasks the live object has every invariant proved of runs: consistent tables, a plan of exactly the runnable models, exact retention, at-most-once alerts |
| Spacing.SpacingStore.ReserveTaskStart | internal/store/task_spacing.go:11-64 | reserves the later of the request and the row and moves the row one spacing past it, or rejects the request and changes nothing |
| Spacing.SpacingStore.WaitForScheduledModelSlot | internal/schedule/tasks/models/model_runs.go:43-66 | a scheduled run reserves under `monitor.model_run:` and its provider, thirty seconds apart; other providers' rows do not move |
| Spacing.SpacingKeyInjective | internal/schedule/tasks/models/model_runs.go:43-66 | different providers never share a spacing row |
| Spacing.ClosedForm | internal/store/task_spacing.go:31-63 | the k-th reservation on a fresh row is the maximum over j <= k of earliest_j + (k - j) * spacing |
| Spacing.EachStartIsLeast | internal/store/task_spacing.go:31-63 | each reservation is the least time that precedes neither its request nor the previous start plus the spacing |
| Spacing.PairwiseSpaced | internal/store/task_spacing.go:31-63 | any two reservations of a key are as many spacings apart as they are positions apart |
| Spacing.WindowBound | internal/store/task_spacing.go:31-63 | a closed window of length w holds at most floor(w / spacing) + 1 reservations |
| SpacingTransactions.LocksSoundKept | internal/store/task_spacing.go:25-60 | every step of every transaction keeps the locking discipline: one holder a row, and what it read is still the committed row |
| SpacingTransactions.EveryScheduleIsSerial | internal/store/task_spacing.go:25-60 | in every interleaving, rows and reservations of a key are those of its committed transactions run one at a time in lock order; aborted ones and other keys leave no trace |
| SpacingTransactions.AloneReserves | internal/store/task_spacing.go:25-60 | left alone, the four statements of a transaction reserve the later of its request and its row and move the row one spacing on |
| SpacingTransactions.NoDeadlock | internal/store/task_spacing.go:25-60 | while a transaction is unfinished, some transaction on its key can act without aborting |
| SpacingTransactions.WaitsIff | internal/store/task_spacing.go:25-60 | a transaction waits exactly for an uncommitted insert of its row or for the lock of another one |
| SpacingTransactions.AbortReleases | internal/store/task_spacing.go:25-60 | an unfinished transaction can always abort, which commits nothing and frees what it held |
| SpacingTransactions.ConcurrentReservationsAreSpaced | internal/store/task_spacing.go:25-60 | concurrent reservations of a key are the sequential starts, hence spaced apart |
| FanOut.AtMostLimitProbe | internal/schedule/tasks/models/model_snapshot.go:112-144 | in every schedule at most modelConcurrency() goroutines probe at once |
| FanOut.WaitingResponds | internal/schedule/tasks/models/model_snapshot.go:118-144 | a waiting goroutine can start exactly while fewer than modelConcurrency() hold a token, and gives up exactly once the context is cancelled, with the skip record |
| FanOut.EveryMoveIsProgress | internal/schedule/tasks/models/model_snapshot.go:112-167 | every move strictly lowers a natural-number measure |
| FanOut.SchedulesAreShort | internal/schedule/tasks/models/model_snapshot.go:112-167 | no schedule is longer than five moves a model and two more |
| FanOut.NeverStuck | internal/schedule/tasks/models/model_snapshot.go:112-181 | until the call returns, some move other than cancellation is possible |
| FanOut.ReturnedResult | internal/schedule/tasks/models/model_snapshot.go:107-167 | on return each slot was written exactly once, with its own probe or, only under cancellation, its own skip record; uncancelled, the result is the sequential map in order |
| Wildcard.Regexp | internal/wildcard/wildcard.go:9-24 | the loop emits the anchored text of the pattern |
| Wildcard.EmittedParses | internal/wildcard/wildcard.go:9-24 | the emitted text parses, under regexp syntax with its escapes, to one atom per pattern character between the anchors |
| Wildcard.TailMatches | internal/wildcard/wildcard.go:9-24 | the parsed pieces match a rest of the text exactly when the glob's rest does |
| Wildcard.CompilerIsCorrect | internal/wildcard/wildcard.go:9-35 | for all patterns and values, the compiled expression matches exactly the glob language |
| Wildcard.GlobMeans | internal/wildcard/wildcard.go:9-35 | the glob language without recursion: the value falls into one part per pattern character, any run without newline for *, one character but newline for ?, the character itself otherwise |
| Wildcard.Match | internal/wildcard/wildcard.go:32-35 | Match is true exactly when the value can be divided so |
| Schedule.ModelInterval | internal/schedule/queue/scheduler.go:69-85 | the first override naming the model decides, else the first covering it, else the default; each only with a positive interval and for its provider or a blank one |
| Schedule.ResolvedDecides | internal/schedule/queue/scheduler.go:69-85 | the resolution function meets that rule for every list of overrides |
| Schedule.OnlyRelativeOrderMatters | internal/schedule/queue/scheduler.go:69-85 | lists with the same exact overrides in order and the same patterns in order resolve alike, however the two kinds are mixed |
| Schedule.ExactAlwaysWins | internal/schedule/queue/scheduler.go:69-85 | an applicable exact override anywhere in the list decides |
| Schedule.GetConfigs | internal/schedule/queue/scheduler.go:35-67 | returns the three or four static entries and one per runnable model in order, each with its task, its four options with index * 30 s of delay, and the interval its overrides or the default decide; fails exactly on an empty id |
| Schedule.ProcessInDelay | internal/schedule/queue/client.go:174-186 | returns the last ProcessIn option, or zero |
| Schedule.ModelRunNextChecks | internal/schedule/queue/client.go:154-172 | maps exactly the models some entry runs, by provider and id, to the least next time plus delay of their entries |
| Schedule.EarliestMapMeans | internal/schedule/queue/client.go:154-172 | that map holds the announced keys and no others, each with a time that was announced and is least |
| Schedule.ConfigsAnnounceInOrder | internal/schedule/queue/scheduler.go:55-104 | registered configs announce nothing for the static entries and each model's key, index * 30 s after its next time, for the others |
| Schedule.ReadBack | internal/schedule/queue/client.go:154-186 | reading back what GetConfigs built gives exactly one key per runnable model with its next time plus index * 30 s |
| Keys.IdentityKeyInjective | internal/store/model_key.go:23-25 | for slug providers the identity key determines provider and model |
| Keys.AlertKeyInjective | internal/schedule/tasks/models/rules.go:22-24 | for slug providers the alert key determines type, provider, model id (which may contain ':') and Unix second |
| ModelKeys.ModelKeyRoundTrip | internal/store/model_key.go:9-20 | ModelIDFromKey(ModelKey(x)) = x for every byte string |
| ModelKeys.KeyIsTheSameNumber | internal/store/model_key.go:9-11 | the key's symbols write, in base 64, the number the id's bytes write in base 256, times the filling zero bits (RFC 4648 sections 3.2 and 5) |
| ModelKeys.SymbolTable | internal/store/model_key.go:9-11 | the symbols are those of RFC 4648, sections 4 and 5 |
| ModelKeys.AcceptedIff | internal/store/model_key.go:14-20 | exactly the texts over the URL-safe alphabet and newlines are accepted whose length, newlines aside, is not 1 modulo 4 |
| ModelKeys.AcceptedKeyIsStableIff | internal/store/model_key.go:14-20 | an accepted key is the key of the id it decodes to exactly when it has no newline and no unused bit set |
| ModelKeys.IdentityRoundTrip | web/src/features/dashboard/utils/modelInventory.ts:47-59 | for a slug provider, parsing an identity returns both parts unless the id is empty, and null then |
| ModelKeys.ParsedIdentity | web/src/features/dashboard/utils/modelInventory.ts:51-59 | a text parses exactly when it is the identity of a non-empty slash-free provider and a non-empty key, and the parts write it back |
| ModelKeys.ManualCheckReadsBytes | web/src/features/dashboard/composables/useManualChecks.ts:170-177 | after re-padding, the dashboard decodes a key to the id's bytes, one character a byte |
| ModelKeys.Utf8ReadsBack | web/src/features/dashboard/composables/useManualChecks.ts:170-177 | the bytes of a character have the layout of RFC 3629, section 3, and read back |
| ModelKeys.ManualCheckRecoversIdIff | web/src/features/dashboard/composables/useManualChecks.ts:170-177 | the model id comes back if and only if it is ASCII |
| Durations.JoinedPiecesReadBack | internal/schedule/tasks/models/alerts.go:56-65 | printed pieces joined by spaces read back as the same pieces |
| Durations.FormatAlertDuration | internal/schedule/tasks/models/alerts.go:40-66 | the text reads back to the magnitude rounded to the second if and only if that rounding fits in 64 bits; units in order, minutes and seconds below 60, no zero piece unless alone, except for the most negative duration |
| Durations.CutWritesBack | internal/config/duration.go:47-71 | cutting a text into number-unit pairs loses nothing |
| Durations.WrittenCutsBack | internal/config/duration.go:47-71 | well-formed pairs, written out anywhere in a text, are cut back the same |
| Durations.HoursKeepTotal | internal/config/duration.go:60-70 | writing whole days as 24 times as many hours keeps the total and leaves no day |
| Durations.RewriteDays | internal/config/duration.go:45-72 | the loop terminates and yields the rewritten text, or fails exactly when a piece has no number or a day count cannot be read |
| Durations.RewritingKeepsTotal | internal/config/duration.go:39-73 | with whole day counts the rewritten text has the original's sign and total and no day left |
| Durations.DaysAreHours | internal/config/duration.go:60-70 | a whole count of days, signed or not, is rewritten as 24 times as many hours |
| Durations.ParseDuration | internal/config/duration.go:32-74 | a text the standard parser accepts keeps its meaning; otherwise one with days is parsed after rewriting, and fails if that fails |
| Charts.BucketContains | internal/api/charts.go:315-341 | a sample not before the start is in the bucket that contains it, and an admitted one not after now is inside the chart |
| Charts.AcceptedContainedIff | internal/api/charts.go:336-341 | an accepted sample is in the bucket that contains it if and only if it is not before the start; the others all land in the first bucket |
| Charts.EarlySampleIsDrawn | internal/api/charts.go:336-341 | a concrete sample before the start that is drawn though no bucket contains it |
| Charts.Tally | internal/api/charts.go:331-350 | the first loop's table holds, for each group and bucket, the accepted samples that fall there |
| Charts.BucketSamples | internal/api/charts.go:310-376 | one series a group in strict byte order and one cell a label, each the sum or average of exactly the admitted samples whose time lies in the half-open bucket, the first bucket drawing the interval before it too; the labels run from the start to the first one not before now |
| Charts.LessIff | internal/api/charts.go:351-354 | the order of the series: at the first difference the smaller character, or the end of the text, comes first |
| Charts.ChartUnique | internal/api/charts.go:351-375 | samples have at most one chart |
| Charts.ChartIgnoresOrder | internal/api/charts.go:310-376 | permuting the samples does not change the chart |
| Charts.TotalsConserved | internal/api/charts.go:331-350 | counts and sums over all groups and buckets are those of the accepted samples |
| Charts.ChartConserves | internal/api/charts.go:310-376 | a chart accounts for every accepted sample once, and a summed chart's cells add up to their values |
| Charts.OrderChartDatasets | internal/api/charts.go:187-206 | returns the preferred series that exist, in preferred order, each the last of its name, then the others in theirs |
| Charts.OrderKeepsSeriesIff | internal/api/charts.go:187-206 | reordering neither loses nor repeats a series exactly when no existing one is preferred twice |
| Stream.DataLineReads | internal/llm/stream.go:22-33 | a trimmed payload written as a `data:` line, with or without a space, reads as that payload, and [DONE] as the end |
| Stream.OnlyDataLinesRead | internal/llm/stream.go:22-33 | any line without the `data:` prefix is ignored |
| Stream.IgnoredLinesChangeNothing | internal/llm/stream.go:22-30 | blank lines, comments and other fields do not affect tokens, usage or ending |
| Stream.StreamMeans | internal/llm/stream.go:22-80 | the first line that is neither a chunk nor ignored ends the stream, the tokens are the choices with text in the chunks before it, and the usage is the last one they report |
| Stream.TimeChoices | internal/llm/stream.go:61-79 | after any chunks gapSum is last minus first token time and gapCount one less than the tokens |
| Stream.Scan | internal/llm/stream.go:22-80 | the scan counts the text choices before the ending, keeps the last reported usage, and fails exactly on a bad or an error chunk |
| Stream.ParseChatStream | internal/llm/stream.go:13-101 | counts the text choices before the ending, fails exactly on a bad chunk, an error chunk or a read error, and sets TTFT, ITL within one tick of the mean gap, TPOT with TPOT * OutputTokens <= elapsed - TTFT, and token counts as reported or counted |
| Stream.MetricsFit | internal/llm/chat.go:91-96 | TTFT + ITL * gaps and TTFT + TPOT * OutputTokens fit into the latency |
| Stream.FillThroughput | internal/llm/stream.go:105-111 | the rate times the latency is the number of output tokens |
| Stream.StreamChat | internal/llm/chat.go:91-108 | a successful answer's metrics fit its latency; a rate is given exactly when tokens and latency allow |

## Left out

- Service.ModelService.RefreshProviderModels: one provider at a time; the loop over all providers, which joins errors, is not modelled. A cancelled fan-out is modelled in FanOut and by the aborted step, since the observation then runs under the cancelled context.
- Service.ModelService.SendModelAlert: store reads and writes around a send succeed, and alert steps run one at a time; two workers that check the same key before either records it may both send.
- Database.Store.RunnableModels: the order of the rows (ORDER BY and the database's collation) is not modelled; the same holds of InactiveModelsForAlert.
- Database.Store.LastRunnableCapabilities: rows of equal time may be answered in any order.
- Service.ModelService.HttpCheck: the http_checks table is the parameter `previous`; the loop over providers and the recovery work it triggers are not modelled.
- Durations.ParseDuration: fractional day counts and counts beyond 2^53/24 go through floating point, which is the parameter `floats`; errors carry no text.
- Stream.ParseChatStream: 64-bit overflow of durations is not modelled, nor the text of error chunks beyond being passed on.
- Charts.BucketSamples: label formatting is presentation (labels are the times formatted); values are exact reals, and `time.Sub` does not saturate.
- Wildcard.CompilerIsCorrect: the regexp grammar is the fragment Regexp emits (anchors, escapes, literals, `.` and `.*`); strings are sequences of Unicode scalars, so invalid UTF-8 is not covered.
- FanOut.ReturnedResult: a probe that runs while the context is cancelled still has one outcome, given by the job.
- Sub-microsecond digits that a TIMESTAMPTZ column drops.
- Concurrent read-modify-write of the in-memory plan by two workers.
- strings.ToLower beyond ASCII in the probe classifiers, and the text of probe failure summaries.
- Event titles, messages, details, metadata redaction and logs.
- The http_checks, auth_checks, chat_runs and embedding_runs tables, and every query behind the dashboard's KPIs.
- Asynq, Redis, SMTP, HTTP routing, the MCP server, Prometheus export and the Vue components.
- Configuration defaults and validation, except the provider slug pattern, which is a hypothesis where keys need it.
