# Verification of the onboarding platform's stateful services

A Dafny model of the parts of the platform whose correctness depends on state, interleaving or
whole histories, with proofs about every run of them.

| module | models |
|---|---|
| `LockTable` | the capped, least-recently-touched table of per-identity locks |
| `Dispatcher`, `DispatcherPaths`, `DispatcherWitnesses`, `DispatcherCaps` | concurrent inbound dispatches over that table: mutual exclusion, what one dispatch may do, deadlock freedom, and runs showing that each of its three assumptions is needed |
| `Nudge`, `NudgeService`, `NudgeInvariant`, `NudgeRuns`, `NudgeOutcomes`, `NudgeTermination`, `NudgeTiming` | reminder sequences: scheduling, retry, escalation, suppression, cancellation |
| `CmsTypes`, `ConfigStore`, `CmsService`, `CmsHistory` | the versioned configuration store, its service and its in-process cache, against a reference without ids, numbers or cache |
| `TwoLevelCache`, `TwoLevelEviction`, `TwoLevelWitness` | the two-level cache over any number of instances with lossy invalidation |
| `Manifest`, `Promotion` | export and import of configuration between deployments |
| `Templates` | the `{{ name }}` scanner, template validation and rendering |
| `LogMonitor` | sliding-window alert counting |
| `Documents` | checklist verdicts, routing with retry, checklist validation |
| `Messaging`, `MessagingService`, `MessagingCalls`, `MessagingRuns` | message statuses, sending with retry, idempotent intake, conversation counters |
| `Stream` | ordered delivery through a consumer group, with crashes |
| `Projections` | incremental metrics and funnel against a full scan |
| `Broadcast` | rate-limited fan-out of one batch |
| `Shared`, `Sequences` | common datatypes and facts about sequences and sets |

Objects whose methods update fields are classes; each method's contract equates the new state with
a specification function of the old one, and the theorems are about those functions. Protocols with
several actors are step systems: a run is a sequence of states, each the result of an enabled step.

## Where the code and its comments disagree

- `dispatcher.py:221-225` says an evicted lock cannot have been held. `HeldLockEvicted` gives, for
  every cap, a run in which a held lock is evicted and a second dispatch for the same key enters.
  `SameLockIff` and `SameLockChain` are the exact condition: no two successive touches of the key
  with the cap's number of other keys in between.
- `cache.py:19` and `cache_redis.py:6-7` present the TTL as the worst-case staleness.
  `StaleBeyondTtl` reaches every staleness below twice the TTL plus the in-flight gaps with the
  eviction delivered at once to every instance involved, `BoundedStaleness` proves that bound, and `BoundIsExact` that no
  smaller one holds.
- `cache_redis.py:3-6` says a write evicts the first-level copy of every other instance at once, which
  reads as if no instance then answered with an older value. A read in flight can: `StaysNewIff` is the
  exact condition, `EvictionHolds` says what must not be in flight, and `ReadCrossesDelete` that less is
  not enough.
- `service.py:207-208` of the configuration service says refresh makes the next reads reload from
  the store. With the two-level cache it drops the first level only (`cache_redis.py:94-96`):
  `RefreshServesStale` is a run in which the read after it answers with a superseded value. That
  read goes on to the store iff the shared level holds nothing unexpired
  (`RefreshedReadGoesToStore`) and answers with the current value iff the shared level holds
  nothing or that value (`RefreshedReadIsCurrentIff`). With the in-process cache the statement holds
  (`RefreshReloads`).
- `document/service.py:298-299` says a checklist is never complete on fewer uploads than required.
  `CollapseIff` proves this holds for all uploads exactly when the required codes have different
  comparison forms. `ValidatedYetTooFew` is an accepted checklist, with the codes "AOA" and "aoa",
  that a single upload completes.
- `communication/service.py:115-116` says only a duplicate delivery is dropped. Inbound and outbound
  messages share one provider index, so an inbound message whose id an outbound one was accepted
  under is dropped too (`InboundDroppedAfterSend`). `StoredIff` is the exact condition.
- `behavioral.py:20` calls the engine lossless. `ExactIffCapSuffices` proves it alerts as a
  whole-history rule would exactly when the threshold fits in the per-bucket cap.

## Assumptions

- Dispatcher deadlock freedom assumes that a failed revive leaves its run terminal, that run
  liveness changes only under the key's lock, and that no two dispatches hold locks for one key at
  once, which can only fail after a lock in use was evicted (`OverlapNeedsEviction`). All three are
  needed: `LeakyReviveDeadlocks`, `LocklessResumeDeadlocks` and `EvictedLockDeadlocks` are runs that
  deadlock with the other two in force. `resume_external` (`dispatcher.py:304-309`) takes no lock, so
  it can break the second. Without the third, deadlock is possible for exactly the caps of two and
  more (`DeadlockPossibleIff`).
- A dispatch may be cancelled or raise at any stage, which drops its locks; progress is claimed for
  steps other than that. Starting a run makes its key live; what the run does then is any change of
  that liveness.
- No nudge round is early exactly as long as the worker's ticks are not ahead of the clock and a
  backoff is not negative (`RoundsOnTime`, `EarlyIffAhead`). `run_due` accepts any time, so this is
  a condition on its callers. Order, the bound on rounds and termination need no such condition.
- Nudge and messaging calls, and calls of the configuration service over the in-process cache, are
  atomic. Clocks, backoff delays and every answer of a gateway, dispatcher or store are inputs.
- In the two-level cache, reads of the shared level, of the store and both fills are separate steps;
  messages may be lost, late, repeated or invented.
- Configuration values are compared by the JSON text of their top-level fields.

## Model

| member | source | states |
|---|---|---|
| LockTable.IdentityLocks.IdentityLock | app/services/workflow/dispatcher.py:230-246 | touching a key hands out the stored lock or a new one, moves the key to the end and trims the oldest keys over the cap |
| LockTable.TableIsMostRecent | app/services/workflow/dispatcher.py:226-246 | after any history of touches the table holds exactly the cap most recently touched distinct keys, in recency order |
| LockTable.HeldInTable | app/services/workflow/dispatcher.py:230-246 | a key is in the table iff fewer than the cap other distinct keys were touched since its last touch |
| LockTable.SameLockIff | app/services/workflow/dispatcher.py:221-246 | two successive touches of a key get the same lock object iff fewer than the cap other keys were touched in between |
| LockTable.SameLockChain | app/services/workflow/dispatcher.py:221-246 | any two touches of a key get the same lock object iff no two successive touches of it in between saw the cap's number of other keys |
| LockTable.SameLockWithinWindow | app/services/workflow/dispatcher.py:230-246 | while fewer than the cap other keys are touched, every later touch of a key gets the lock of the first |
| LockTable.LockIsForKey | app/services/workflow/dispatcher.py:230-246 | no lock object is ever handed out for two different keys |
| Dispatcher.RunsAreExclusive | app/services/workflow/dispatcher.py:364-368 | in every run no lock object has two holders, across own locks and canonical locks |
| Dispatcher.OverlapNeedsEviction | app/services/workflow/dispatcher.py:349-368 | two dispatches hold locks for one key at once only if two successive touches of the key between their fetches saw at least the cap's number of other keys |
| Dispatcher.SharedKeyIffEvicted | app/services/workflow/dispatcher.py:221-246 | in every run two tasks hold locks for one key exactly where that key was evicted between their two fetches |
| Dispatcher.OneHolderPerKey | app/services/workflow/dispatcher.py:349-368 | while that bound is not reached, at most one task in flight holds a key's lock |
| Dispatcher.LivenessUnderLock | app/services/workflow/dispatcher.py:547-619 | a disciplined dispatch brings a run to life only while holding that key's lock |
| Dispatcher.RunsAreOrdered | app/services/workflow/dispatcher.py:370-428 | in every disciplined run in which no two tasks ever hold locks for one key, a key whose own run was found dead stays dead while its holder looks across, so wait edges go forward in time |
| Dispatcher.NoCircularWaitWhenOrdered | app/services/workflow/dispatcher.py:592-619 | no group of tasks waits in a circle when wait edges go forward |
| Dispatcher.Unblocked | app/services/workflow/dispatcher.py:547-681 | a task that no other task blocks has an enabled step in whatever stage it is |
| Dispatcher.NoRunDeadlocks | app/services/workflow/dispatcher.py:547-681 | for any number of dispatches, in every disciplined run in which no two tasks ever hold locks for one key, there is no circular wait and, while any dispatch is in flight, some step is enabled |
| Dispatcher.NoDeadlockWithinWindow | app/services/workflow/dispatcher.py:226-246 | the same for every disciplined run in which no fetch in flight ever saw the cap's number of other keys touched since |
| Dispatcher.DeadlockNeedsEviction | app/services/workflow/dispatcher.py:221-225 | a disciplined run that ends in a circular wait has a state in which two tasks hold locks for one key because one was evicted |
| DispatcherPaths.NextActions | app/services/workflow/dispatcher.py:547-681 | in every run, which actions a dispatch can take next is exactly what the order of the calls allows after those it has taken, given which runs are live and that nobody holds the lock it asks for |
| DispatcherPaths.Returns | app/services/workflow/dispatcher.py:547-681 | it can return exactly when it has resumed a run or started one |
| DispatcherPaths.WhatActionsDo | app/services/workflow/dispatcher.py:547-619 | each action changes the liveness of the key the message came with, or of the other key last seen, as stated, and of no other; only fetching a lock touches the table |
| DispatcherPaths.HoldsExactly | app/services/workflow/dispatcher.py:364-368 | it holds its own key's lock once it acquired it and the other key's from acquiring to releasing it, and no other |
| DispatcherPaths.ReturnsServedOnce | app/services/workflow/dispatcher.py:547-681 | every dispatch that returns has resumed or started its own run, or has resumed the other channel's, and never both |
| DispatcherPaths.ResumedElsewhereIsOver | app/services/workflow/dispatcher.py:604-637 | after it resumed the other channel's run and released its lock, a dispatch changes no run and takes no lock |
| DispatcherPaths.OwnLiveKeepsToItself | app/services/workflow/dispatcher.py:554-559 | a dispatch that read its own run live never changes another key's run and never goes for another lock |
| DispatcherPaths.FailedResumeStartsOwn | app/services/workflow/dispatcher.py:638-649 | after a failed resume of the other channel's run a dispatch can at once start its own, which brings its own key to life, and can do nothing else but be aborted |
| DispatcherWitnesses.HeldLockEvicted | app/services/workflow/dispatcher.py:221-225 | for every cap a run evicts a held lock and lets a second dispatch of the same key run beside the first |
| DispatcherWitnesses.LeakyReviveDeadlocks | app/services/workflow/dispatcher.py:569-578 | a failed revive that leaves its run non-terminal can deadlock two dispatches |
| DispatcherWitnesses.LocklessResumeDeadlocks | app/services/workflow/dispatcher.py:304-309 | a resume begun while the run was live, whose copy is saved without the key's lock after the run ended, can deadlock two dispatches |
| DispatcherCaps.EvictedLockDeadlocks | app/services/workflow/dispatcher.py:221-246 | for every cap of two or more a disciplined run deadlocks two dispatches after a lock in use was evicted |
| DispatcherCaps.SmallCapNeverDeadlocks | app/services/workflow/dispatcher.py:230-246 | with a cap below two no run at all has a circular wait |
| DispatcherCaps.DeadlockPossibleIff | app/services/workflow/dispatcher.py:226-246 | a disciplined run can deadlock iff the cap is two or more |
| NudgeService.Service.StartSequence | app/services/nudge/service.py:74-108 | returns the active sequence for the reason and target if there is one, fails on an unknown reason, otherwise stores a sequence and its first reminder |
| NudgeService.Service.FindActiveSequence | app/services/nudge/persistence.py:83-94 | finds an active sequence for a reason and target iff there is one |
| NudgeService.Service.ListDue | app/services/nudge/persistence.py:127-135 | the earliest due reminders, in time order, up to the limit, omitting none that is earlier than one it returns |
| NudgeService.Service.Earliest | app/services/nudge/persistence.py:127-135 | a reminder no other of a set is due before |
| NudgeService.Service.RunDueNow | app/services/nudge/service.py:112-131 | one worker tick: the due reminders are listed, processed in order and returned as their rounds left them, or the missing schedule is reported |
| NudgeService.Service.RunDueList | app/services/nudge/service.py:117-131 | its loop over a snapshot of due reminders equals the specified fold, in what it stores and in what it returns |
| NudgeService.Service.DispatchOne | app/services/nudge/service.py:222-261 | one reminder's round: it fails only if a send was tried and none succeeded; otherwise it is sent and the sequence escalates or advances; the reminder it leaves is returned |
| NudgeService.Service.RetryOrFail | app/services/nudge/service.py:263-306 | a failed round is rescheduled while attempts remain, otherwise the reminder fails and the sequence advances |
| NudgeService.Service.ScheduleStepAt | app/services/nudge/service.py:186-220 | creates the reminder of a step at base time plus offset, or completes the sequence past the last step |
| NudgeService.Service.CloseSequence | app/services/nudge/service.py:308-320 | gives the sequence its final status and every pending reminder of it the matching one, changing nothing else |
| NudgeService.Service.SuppressSequence | app/services/nudge/service.py:133-144 | suppresses an active sequence, leaves a finished one alone, returns it as stored, reports an unknown one |
| NudgeService.Service.CancelSequence | app/services/nudge/service.py:165-176 | cancels an active sequence, leaves a finished one alone, returns it as stored, reports an unknown one |
| NudgeInvariant.TouchKeepsInv | app/services/nudge/service.py:87-320 | a step that changes one sequence keeps the whole invariant if that sequence stays in order and gains no rival |
| NudgeInvariant.DispatchKeeps | app/services/nudge/service.py:222-320 | one round keeps its sequence in order, whatever the outcomes, and leaves every other sequence untouched |
| NudgeRuns.RunsKeepInv | app/services/nudge/service.py:74-320 | in every run an active sequence has exactly one pending reminder, at its current step, a finished one has none, and no two active sequences share reason and target |
| NudgeRuns.SnapshotHasDistinctSequences | app/services/nudge/service.py:112-120 | a snapshot of due reminders never holds two of one sequence and all their sequences are active |
| NudgeRuns.ProcessDispatches | app/services/nudge/service.py:117-131 | the branch for reminders of finished sequences is never taken |
| NudgeRuns.RunDueProcessesSnapshot | app/services/nudge/service.py:112-131 | when every reason is configured a tick attempts its whole snapshot, in order, once each |
| NudgeRuns.TickStopsAtMissingSchedule | app/services/nudge/service.py:112-131 | a tick attempts exactly the due reminders before the first whose reason has no schedule; it raises iff there is one, and that one and all after it stay due as they were |
| NudgeRuns.TickReturnsWhatItStores | app/services/nudge/service.py:112-131 | when every reason is configured a tick returns its whole snapshot, in order, each reminder as it is stored afterwards |
| NudgeRuns.RunDueLeavesAbsent | app/services/nudge/service.py:112-131 | a tick leaves sequences outside its snapshot untouched |
| NudgeRuns.FinishedStaysFinished | app/services/nudge/service.py:117-176 | once suppressed, cancelled, escalated or completed, a sequence, its reminders and its rounds never change |
| NudgeRuns.FinishedForTheRun | app/services/nudge/service.py:117-176 | the same, reminders included, over the rest of any run |
| NudgeTermination.RoundLowersRoundsLeft | app/services/nudge/service.py:222-306 | every processed reminder strictly lowers the rounds its sequence has left, whatever the clock and the backoff |
| NudgeTermination.RoundsLeftWhileActive | app/services/nudge/service.py:186-306 | a sequence has rounds left iff it is active |
| NudgeTermination.BoundedRounds | app/services/nudge/service.py:189-306 | with fixed schedules a sequence takes at most steps * max(1, max_attempts) rounds in any run, whatever the clock and the backoff, and is finished once it has taken them all |
| NudgeTiming.RoundsInOrder | app/services/nudge/service.py:186-220 | in every run, whatever the clock does and however schedules are edited, attempts walk the steps 0, 1, 2, ... without a gap |
| NudgeTiming.RoundsOnTime | app/services/nudge/service.py:112-131 | with fixed schedules, ticks that are not ahead of the clock and no negative backoff, no attempt is before base time plus offset |
| NudgeTiming.EarlyIffAhead | app/services/nudge/service.py:112-116 | ticks asked for at one time and taking place at another give some run an early attempt iff the asked time is ahead |
| NudgeTermination.CompletedAttemptedAll | app/services/nudge/service.py:186-206 | a completed sequence has attempted every step |
| NudgeOutcomes.SentRound | app/services/nudge/service.py:222-261 | if a contacted channel accepted, or none could be contacted, the reminder is sent; if it escalates the sequence ends escalated, otherwise exactly the next step's reminder is made, or the sequence completes |
| NudgeOutcomes.UnsentRound | app/services/nudge/service.py:263-306 | if someone was contacted and no channel accepted, the reminder is retried after the delay while attempts remain, and then failed and followed by the next step |
| NudgeOutcomes.PendingAfterRound | app/services/nudge/service.py:186-306 | after a round the sequence has pending exactly the reminder under retry or the one just made |
| NudgeOutcomes.EscalatedIff | app/services/nudge/service.py:257-259 | in every run, however schedules are edited, a sequence is escalated iff an escalating reminder of it was sent |
| NudgeOutcomes.RemindersCarrySteps | app/services/nudge/service.py:196-204 | in every run with fixed schedules each reminder carries the channels, template and escalation flag of its own step |
| NudgeOutcomes.EscalatedIffConfigured | app/services/nudge/service.py:196-259 | in every such run a sequence is escalated iff a reminder was sent for a step configured to escalate |
| CmsTypes.IdentityIsInjective | app/services/cms/models.py:38-39 | different keys have different cache ids, also when names hold ':' or '*' |
| CmsTypes.IdentityIsNotClear | app/services/cms/cache_redis.py:23-24 | no cache id is the message that clears every cache |
| ConfigStore.InMemoryConfigStore.SaveNewVersion | app/services/cms/persistence.py:59-100 | appends the next version of a key and makes it current |
| ConfigStore.InMemoryConfigStore.GetCurrent | app/services/cms/persistence.py:54-57 | the current record of a key, if there is one |
| ConfigStore.InMemoryConfigStore.GetVersion | app/services/cms/persistence.py:106-111 | finds the first history entry with a version number |
| ConfigStore.InMemoryConfigStore.DeleteCurrent | app/services/cms/persistence.py:113-117 | drops the current record, keeps the history, reports whether there was one |
| ConfigStore.InMemoryConfigStore.ListKeys | app/services/cms/persistence.py:119-122 | lists each key with a current record, and of the given kind, exactly once |
| ConfigStore.SaveTouchesOneKey | app/services/cms/persistence.py:59-100 | saving one key changes no other key's current record or history |
| ConfigStore.FindVersionFrom | app/services/cms/persistence.py:106-111 | in a numbered history a version is found iff it was written, at its own place |
| CmsService.Service.UpsertValue | app/services/cms/service.py:69-92 | rejects invalid values without a change, otherwise stores a new version and evicts the cached one |
| CmsService.Service.GetRecord | app/services/cms/service.py:94-114 | answers from the cache or the store and caches what the store answered |
| CmsService.Service.RollbackTo | app/services/cms/service.py:132-167 | appends a version with the target's value, or reports that the version does not exist |
| CmsService.Service.DeleteCurrent | app/services/cms/service.py:169-192 | drops the current record and the cached one |
| CmsService.Service.Refresh | app/services/cms/service.py:207-212 | empties the in-process cache and leaves the store alone |
| CmsService.Service.GetTemplate | app/services/cms/service.py:254-279 | through the cache, answers the first current record of the documented order of four fallbacks |
| CmsService.SkipsAreHarmless | app/services/cms/service.py:267-274 | the attempts the code leaves out would only repeat earlier ones |
| CmsService.FallbackOrder | app/services/cms/service.py:262-279 | the fallback finds the template of that name for (channel, locale), then (any channel, locale), then (channel, default locale), then (any channel, default locale) |
| CmsService.ReadCaches | app/services/cms/service.py:107-114 | a cached read that misses keeps the store's record for the TTL from then on; a hit does not prolong its entry, an uncached read leaves the cache alone, and no read touches another entry |
| CmsService.InMemoryConfigCache.Get | app/services/cms/cache.py:59-66 | answers an unexpired entry and evicts an expired one |
| CmsService.InMemoryConfigCache.Set | app/services/cms/cache.py:68-69 | stores an entry that expires after the TTL |
| CmsService.InMemoryConfigCache.Invalidate | app/services/cms/cache.py:71-72 | drops one entry |
| CmsService.InMemoryConfigCache.Clear | app/services/cms/cache.py:74-75 | drops every entry |
| CmsHistory.RunRefines | app/services/cms/service.py:69-212 | after any run of calls, per key: versions are 1..n in writing order, current is the last unless deleted, and the cache agrees |
| CmsHistory.ReadsAgree | app/services/cms/service.py:94-114 | a cached read, an uncached read and the reference agree on every key, whatever the clock says |
| CmsHistory.RefreshReloads | app/services/cms/service.py:207-212 | after a refresh, whatever the in-process cache held, every read answers what the store holds |
| CmsHistory.HistoryOnlyGrows | app/services/cms/persistence.py:59-117 | written versions never change in a run and numbering goes on across delete and re-create |
| CmsHistory.RollbackRestores | app/services/cms/service.py:132-153 | rollback to v appends version n+1 with v's value and makes it current iff 1 <= v <= n, else nothing changes |
| CmsHistory.StoredValuesAreValid | app/services/cms/service.py:82-156 | every stored value passed validation, rolled-back ones included |
| TwoLevelCache.RedisConfigCache.Lookup | app/services/cms/cache_redis.py:73-77 | answers an unexpired first-level entry |
| TwoLevelCache.RedisConfigCache.FinishGet | app/services/cms/cache_redis.py:78-83 | fills the first level with the shared level's answer, or drops the entry when there is none |
| TwoLevelCache.RedisConfigCache.SetLocal | app/services/cms/cache_redis.py:85-87 | fills the first level |
| TwoLevelCache.RedisConfigCache.InvalidateLocal | app/services/cms/cache_redis.py:89-90 | drops the first-level entry |
| TwoLevelCache.RedisConfigCache.ClearLocal | app/services/cms/cache_redis.py:94-95 | drops the first level only |
| TwoLevelCache.RedisConfigCache.HandleMessage | app/services/cms/cache_redis.py:98-102 | a message drops one entry or all of them |
| TwoLevelCache.StepKeepsShared | app/services/cms/cache_redis.py:85-92 | every shared-level entry was the store's current value no earlier than its expiry minus the TTL and the store gap |
| TwoLevelCache.StepKeepsLocal | app/services/cms/cache_redis.py:73-92 | every first-level entry was the store's current value no earlier than its expiry minus the bound |
| TwoLevelCache.BoundedStaleness | app/services/cms/cache_redis.py:73-102 | every record returned at time t was the store's current value later than t minus twice the TTL minus the gaps, for any instances, interleaving and loss |
| TwoLevelCache.PropagatesWithinFiveMinutes | app/services/cms/cache.py:1-20 | with the default TTL a value superseded for five minutes is returned no more, if the gaps stay within three minutes |
| TwoLevelWitness.StaleBeyondTtl | app/services/cms/cache_redis.py:73-92 | every staleness below twice the TTL plus the two gaps is reached by a run that delivers the eviction of the newer write to every instance involved at once |
| TwoLevelWitness.BoundIsExact | app/services/cms/cache_redis.py:73-102 | a staleness limit holds of every answer of every run iff it is at least twice the TTL plus the gaps |
| TwoLevelWitness.RefreshServesStale | app/services/cms/cache_redis.py:94-96 | a read right after a refresh of the instances answers with a superseded value |
| TwoLevelWitness.RefreshedReadGoesToStore | app/services/cms/cache_redis.py:73-84 | an uninterrupted read after a refresh goes on to the store iff the shared level holds nothing unexpired |
| TwoLevelWitness.RefreshedReadIsCurrentIff | app/services/cms/cache_redis.py:73-96 | its answer is the store's current value iff the shared level holds nothing or that value |
| TwoLevelWitness.ReadIsCached | app/services/cms/cache_redis.py:73-87 | the answer of an uninterrupted read stays with the instance for the TTL, and one from the store stays in the shared level for it |
| TwoLevelEviction.MessageEvicts | app/services/cms/cache_redis.py:98-102 | a message evicts its id, or everything for the clear message, from one instance and changes nothing else |
| TwoLevelEviction.StaysNewIff | app/services/cms/cache_redis.py:73-102 | an instance can give no answer older than a write any more, whatever happens, iff neither its own nor the shared level holds an older record, no read has one from the store, and none of its own has one from the shared level |
| TwoLevelEviction.EvictionHolds | app/services/cms/cache_redis.py:89-102 | in every run, once the eviction of a write reached the shared level and an instance, every later answer of it is that write's or a later one's, if no read begun before the write is in flight at the delete and none of its own begun before the delete at the message |
| TwoLevelEviction.ReadCrossesDelete | app/services/cms/cache_redis.py:73-92 | that no read begun before the write is in flight is not enough: one begun after the write and before the delete can carry the old value past the eviction |
| Manifest.CoerceRoundTrip | scripts/cms_export_import.py:68-83 | a serialized record's texts lead back to its key |
| Manifest.ItemOrderIsStrict | scripts/cms_export_import.py:123-124 | two exported records of equal rank have the same key |
| Manifest.KnownExactly | scripts/cms_export_import.py:127-132 | a manifest record has a key exactly when its kind, channel and locale texts are known, and which key that is |
| Manifest.TextOrderMeans | scripts/cms_export_import.py:123-124 | texts are ordered by the first character that differs |
| Manifest.RankMeans | scripts/cms_export_import.py:123-124 | kind decides first, then name, then channel, then locale |
| Manifest.SortItems | scripts/cms_export_import.py:123-124 | sorting keeps the records and orders them by kind, name, channel and locale |
| Promotion.CollectAll | scripts/cms_export_import.py:99-124 | exports exactly the current records that pass the filter, each once, sorted, changing nothing |
| Promotion.ExportedExactly | scripts/cms_export_import.py:86-97 | a manifest has a key's record exactly if the key is current, of the kind asked for and of a matching name |
| Promotion.KeptInOrder | scripts/cms_export_import.py:225-234 | an import keeps exactly the records that pass the filters, in the order of the manifest |
| Promotion.ClassedInOrder | scripts/cms_export_import.py:172-200 | each class keeps the order of the manifest |
| Promotion.AddedFirst | scripts/cms_export_import.py:242-243 | added records are written before changed ones |
| Promotion.ExportIsCanonical | scripts/cms_export_import.py:99-124 | the manifest depends on the store's content alone, not on dictionary order |
| Promotion.ClassifyChanges | scripts/cms_export_import.py:172-200 | splits the records into added, changed and unchanged against the target, or reports an unknown text |
| Promotion.Import | scripts/cms_export_import.py:225-258 | an unknown text or a dry run writes nothing; otherwise added then changed records are written up to the first rejected one |
| Promotion.RunsPromote | scripts/cms_export_import.py:225-258 | any two deployments that share their validators meet the conditions of the promotion theorems |
| Promotion.PromotionIsAccepted | scripts/cms_export_import.py:242-252 | validation rejects no promoted record |
| Promotion.PromotionCopies | scripts/cms_export_import.py:225-258 | every key passing both filters reads back with the source's value, cached or not, at the cost of one version if it differed and none if not |
| Promotion.PromotionLeavesRest | scripts/cms_export_import.py:175-182 | every other key keeps its current record and its history |
| Promotion.SecondImportWritesNothing | scripts/cms_export_import.py:225-258 | importing the same manifest again finds nothing to write |
| Templates.ScanIsMatch | app/services/cms/validation.py:20 | the placeholder match at a position is unique and is the one the scanner reports |
| Templates.SplitIsUnique | app/services/communication/templating.py:21 | every body has exactly one split into leftmost placeholders and text, and the scanner computes it |
| Templates.PiecesRejoin | app/services/communication/templating.py:57-77 | the pieces rejoin to the body |
| Templates.Render | app/services/communication/templating.py:57-81 | strict rendering fails iff a used variable is missing, reporting exactly those; otherwise each placeholder is replaced in one pass |
| Templates.Replace | app/services/communication/templating.py:66-73 | a known name becomes its value, an unknown one stays and is noted in strict mode |
| Templates.RenderedPiecewise | app/services/communication/templating.py:57-81 | piece by piece: text stays, a supplied name becomes its value as it is, never rescanned, and any other placeholder keeps its source |
| Templates.RendersEveryPiece | app/services/communication/templating.py:57-81 | so does the answer of a render, for every split of the body into text and leftmost placeholders |
| Templates.FailsExactly | app/services/communication/templating.py:57-81 | rendering fails exactly in strict mode with an unsupplied placeholder, and reports exactly the unsupplied names |
| Templates.ValidatesByPieces | app/services/cms/validation.py:28-47 | which templates are refused and why, in terms of the split of the body |
| Templates.ValidationIsExact | app/services/cms/validation.py:28-47 | validation accepts declared variables iff strict rendering succeeds for every caller that supplies them all |
| Templates.LenientRenderKeepsText | app/services/communication/templating.py:57-81 | lenient rendering without values returns the body |
| Templates.RenderWithSubject | app/services/communication/templating.py:113-145 | resolves the locale or the default one; a missing variable fails the body but never the subject |
| LogMonitor.CountRule.Observe | tools/log_monitor/behavioral.py:90-139 | one event's effect on its bucket, and its alert |
| LogMonitor.DequeIsWindow | tools/log_monitor/behavioral.py:111-119 | in time order a bucket holds the last min(cap, k) of the k events in the window |
| LogMonitor.AlertsExactly | tools/log_monitor/behavioral.py:111-139 | if the threshold fits in the cap, an alert fires iff the whole-history count reaches it and no alert of the key lies in the cooldown |
| LogMonitor.ExactIffCapSuffices | tools/log_monitor/behavioral.py:73-121 | the capped rule equals the whole-history rule on all ordered histories iff threshold <= cap |
| LogMonitor.NeverFires | tools/log_monitor/behavioral.py:117-122 | a threshold above the cap never alerts |
| LogMonitor.KeysAreIndependent | tools/log_monitor/behavioral.py:105-109 | a key's bucket after a mixed log is that of its own events alone |
| LogMonitor.MixedStreamAlerts | tools/log_monitor/behavioral.py:90-139 | over a mixed log a line alerts iff its key's own whole history says so, and the alert carries that key and min(cap, events in its window) |
| LogMonitor.AlertsAreSpaced | tools/log_monitor/behavioral.py:124-131 | for any clock, threshold and cap, two alerts of one key are at least the cooldown apart, if it is not negative |
| Documents.RouteToMadad | app/services/document/service.py:168-236 | at most max(1, max_attempts) calls, stopping at the first answer, which decides the status; if there is none the document has failed |
| Documents.CompleteMeans | app/services/document/service.py:266-310 | a checklist is complete iff there are enough counting uploads or every required code is validated |
| Documents.MissingExactly | app/services/document/service.py:283-310 | below the count missing lists exactly the required codes without a validated match, at or above it none |
| Documents.StatusSets | app/services/document/service.py:266-276 | received, validated and rejected are the non-empty types of all, of the completed and of the rejected uploads |
| Documents.RequiredInOrder | app/services/document/service.py:286-289 | exactly the required entries contribute their code, in order |
| Documents.UnmatchedInOrder | app/services/document/service.py:286-289 | missing codes keep the order of the checklist |
| Documents.EachUploadCounts | app/services/document/service.py:299-304 | an upload counts iff it is neither rejected nor failed |
| Documents.CompleteNeedsUploads | app/services/document/service.py:287-310 | complete implies at least as many counting uploads as distinct required forms |
| Documents.CompleteIsCount | app/services/document/service.py:291-310 | with distinct required forms, complete iff enough counting uploads |
| Documents.CollapseIff | app/services/document/service.py:291-310 | the guard against too few uploads holds for all uploads iff the required forms are distinct |
| Documents.ValidateChecklist | app/services/cms/validation.py:50-60 | accepts iff every item has a non-empty code and no two share one |
| Documents.CollisionYetTooFew | app/services/document/service.py:298-310 | any two different codes of one comparison form pass validation, and one upload completes a checklist requiring both |
| Documents.CaseIsIgnored | app/services/document/service.py:282-283 | codes that differ in case have one comparison form |
| Documents.NormByCharacter | app/services/document/service.py:282-283 | the comparison form goes character by character: letters in lower case, digits as they are, nothing for anything else |
| Documents.SeparatorsAreIgnored | app/services/document/service.py:282-283 | so do codes that differ in characters other than letters and digits |
| Documents.ValidatedYetTooFew | app/services/document/service.py:282-310 | with the code's own comparison form, one upload completes the accepted checklist of "AOA" and "aoa" |
| MessagingService.CommunicationService.IngestInbound | app/services/communication/service.py:112-182 | a known provider id returns the stored message and changes nothing, otherwise the message is stored and counted |
| MessagingService.CommunicationService.SendMessage | app/services/communication/service.py:186-257 | opens the conversation, and with a rendered text stores, counts and dispatches the message |
| MessagingService.CommunicationService.DispatchWithRetry | app/services/communication/service.py:259-343 | the retry loop saves the message after every call and stops at the first accepted one |
| MessagingService.CommunicationService.UpdateDeliveryStatus | app/services/communication/service.py:347-373 | applies a callback iff its message exists and the transition is allowed |
| MessagingService.CommunicationService.ResolveConversation | app/services/communication/service.py:385-410 | the open conversation of an address, opened if need be |
| MessagingService.CommunicationService.SaveMessage | app/services/communication/persistence.py:89-115 | stores the message and indexes its provider id, if any |
| MessagingService.CommunicationService.SaveConversation | app/services/communication/persistence.py:71-80 | stores an open conversation and makes it its address's open one |
| MessagingService.CommunicationService.CreateMessage | app/services/communication/service.py:158-159 | stores a new message and counts it in its conversation |
| MessagingCalls.AllowedCallback | app/services/communication/service.py:347-373 | a callback to a status the table allows stores that status and, for a failure, its error, in its message and lengthens its history by one; every other field, message and conversation stays |
| MessagingCalls.RefusedCallback | app/services/communication/enums.py:49-65 | any other callback changes nothing |
| MessagingCalls.IntakeStores | app/services/communication/service.py:112-159 | a new inbound message is stored as received in its address's conversation, indexed, and counted there once; nothing else changes |
| MessagingCalls.UnrenderedSend | app/services/communication/service.py:186-204 | a send that cannot be rendered opens the conversation and does nothing else |
| MessagingCalls.SendStores | app/services/communication/service.py:186-343 | a send stores one outbound message, counts it once, and saves its attempts, error, provider id, statuses and thread reference as the gateway's answers say; nothing else changes |
| MessagingRuns.RunsKeepInv | app/services/communication/service.py:112-447 | in every run stored statuses follow the transition table, message_count equals the stored messages, an address has one conversation, and no inbound provider id is stored twice |
| MessagingRuns.StartIsInv | app/services/communication/persistence.py:52-87 | the empty stores satisfy the invariant |
| MessagingRuns.ReplayChangesNothing | app/services/communication/service.py:119-127 | replaying a provider id changes nothing, whatever happened since its first intake |
| MessagingRuns.FinalStatusesStay | app/services/communication/enums.py:49-65 | a read message stays read and a received one received in any later run |
| MessagingRuns.RunRemembers | app/services/communication/persistence.py:83-115 | provider ids stay known and status histories only grow |
| MessagingRuns.SendEnds | app/services/communication/service.py:259-343 | for every gateway a send makes at most max(1, retry_max_attempts) calls and ends SENT under the first accepted call's id, or FAILED if all were refused |
| MessagingRuns.StoredIff | app/services/communication/service.py:119-158 | an inbound message is stored iff its provider id is empty or not in the index yet |
| MessagingRuns.InboundDroppedAfterSend | app/services/communication/persistence.py:83-115 | an inbound message whose id a send was accepted under is dropped, and the answer is the outbound message |
| Stream.StreamEventBus.ReadRecords | app/shared/events/stream.py:71-76 | reads up to count messages in order and marks them pending |
| Stream.StreamEventBus.PublishEvent | app/shared/events/stream.py:64-66 | appends the event under the next id |
| Stream.StreamEventBus.AckRecord | app/shared/events/stream.py:78-79 | drops a message from the pending ones |
| Stream.StreamEventBus.ConsumeOnce | app/shared/events/stream.py:169-184 | reads one batch and handles and acknowledges it message by message |
| Stream.HandledInOrder | app/shared/events/stream.py:169-206 | in every run, crashes included, messages are handled in publish order and at most once |
| Stream.ReadMessagesArePartitioned | app/shared/events/stream.py:64-79 | in every run, crashes included, each message read so far is in exactly one of acknowledged, current batch and lost, each in publish order, and pending are the lost ones and the batch |
| Stream.ReadDelivers | app/shared/events/stream.py:71-76 | in every run a read delivers the next messages of the log, as many as asked for or as there are |
| Stream.RoundsDeliver | app/shared/events/stream.py:169-194 | after n uninterrupted rounds of up to count messages exactly the next n * count, or all there are, have been handled and acknowledged |
| Stream.CrashLosesRemainder | app/shared/events/stream.py:71-79 | a crash loses exactly the unacknowledged rest of one batch and leaves it pending |
| Stream.NeverRedelivered | app/shared/events/stream.py:71-79 | a message lost in a crash stays pending and is never handled again |
| Stream.LogIsPartitioned | app/shared/events/stream.py:64-79 | without a crash the log is acknowledged, then read but unacknowledged, then undelivered messages, in order |
| Stream.DrainFinishes | app/shared/events/stream.py:169-184 | a finished batch leaves every message read so far handled once and acknowledged |
| Projections.VisibilityService.Record | app/services/visibility/service.py:61-67 | after every activity, totals, counts and reached sets equal a scan of the whole log |
| Projections.VisibilityService.UpdateFunnel | app/services/visibility/projections.py:73-81 | adds the subject to exactly the stages whose key has the activity's type |
| Projections.VisibilityService.UpdateMetrics | app/services/visibility/projections.py:24-27 | raises the total and the counts of the activity's source and type by one |
| Projections.VisibilityService.constructor | app/services/visibility/projections.py:65-71 | the type index names exactly the keys of the stages holding each type, for overlapping stages too |
| Projections.VisibilityService.Report | app/services/visibility/projections.py:83-95 | per stage, the count and conversion that a full scan gives |
| Projections.StageScanIff | app/services/visibility/projections.py:65-81 | a stage's reached set is that of its own types for every log iff stages sharing its key add no type |
| Broadcast.BroadcastCoordinator.Process | app/services/workflow/broadcast.py:439-487 | the final batch, every snapshot saved, and when each row starts |
| Broadcast.BroadcastCoordinator.DispatchRow | app/services/workflow/broadcast.py:468-478 | one row is counted as sent or failed, and the first twenty failures are kept |
| Broadcast.BroadcastCoordinator.RunRow | app/services/workflow/broadcast.py:467-480 | one row, and the snapshot due after it |
| Broadcast.ValidRowsInOrder | app/services/workflow/broadcast.py:451 | exactly the valid rows are dispatched, each once, in order |
| Broadcast.RowsAreConserved | app/services/workflow/broadcast.py:468-487 | the rows without an error plus the rows with one are all rows done, and min(20, failed) failures are kept |
| Broadcast.FailedAreFailing | app/services/workflow/broadcast.py:489-507 | the failures are exactly the rows whose start raised, with truncated errors |
| Broadcast.SnapshotLag | app/services/workflow/broadcast.py:465-480 | a reader of a copying store is fewer than 25 rows behind |
| Broadcast.SavesNeverDecrease | app/services/workflow/broadcast.py:457-487 | over the saved snapshots sent plus failed never decreases, and a completed one counts every valid row |
| Broadcast.AllCountedBeforeCompletionIff | app/services/workflow/broadcast.py:465-487 | a snapshot still in progress counts every valid row iff their number is a multiple of the cadence, so full counts do not mean completed |
| Broadcast.RateIsKept | app/services/workflow/broadcast.py:464-483 | any half-open minute has at most max(1, rate_per_minute) starts |

## Left out

- The workflow runtime, executor, recovery and sessions (`app/shared/workflow/runtime.py`, `executor.py`): a dispatch sees them as a run that is live or not, and as actions that change that.
- Fair queueing of lock waiters: the proofs allow any waiter to go next, and promise an enabled step rather than that each waiter is served.
- The webhook dedupe, destination acknowledgement and switch ping of the dispatcher: best-effort calls that take no lock and change no run.
- How the other channel's key is found (`dispatcher.py:370-428`): any other key with a live run may be returned; the real lookup returns fewer.
- `suppress_matching` (`nudge/service.py:146-163`): a loop of suppress over the matching sequences.
- Suspension points inside one nudge or messaging call, and stale copies saved across them.
- `DispatchOne`: a dispatcher that raises and one that reports a failure are the same outcome; the error text is not kept.
- Aliasing: records are values here. The stores do hand out deep copies; the in-process caches hand out the stored object itself (`cache.py:66`), so a caller that changes a returned record would change the cache, which is not modelled.
- PostgreSQL and Redis stores, migrations, and expiry of idempotency keys.
- Events, audit records, comments, authors and timestamps of records, beyond the clock the properties need.
- `GetRecord`: Python's equality of 1, 1.0 and True inside values is finer here, since values are compared by their JSON text.
- Changing validators while the service runs (`register_validator`): each run has one validator, which may be any predicate of kind and value.
- Command-line and file handling of the manifest, and its version check; a file-name pattern is any predicate.
- `ValidateTemplate` and `ValidateChecklist` take the shape of the untyped value as an input datatype; nudge schedules are validated by a one-line check that is not modelled.
- `evaluate_all`, `ValueRule`, the rule loader and the regular expressions of the log monitor: an event is its group key and its time; alerts carry the key and the count.
- `CountRule.Observe`: clocks that go backwards are modelled, but the window theorems are about non-decreasing times.
- ZIP and CSV parsing, phone normalisation, and the gateway of the document service; `_norm` is any function of strings, and `AsciiNorm` is the code's own on ASCII text only.
- Locale, subject, attachments and reply headers of messages; conversations are never closed by the modelled calls.
- `DispatchWithRetry`: gateways raise only their own error; another exception would leave a message in SENDING.
- Message consumption by several handlers: one handling stands for the fan-out to all of them, since failures are only logged.
- Searching, replay and run summaries of the visibility service.
- Submission, idempotency claims and row parsing of broadcasts; a store that keeps the batch object itself shows no lag at all.
