# RenCrow CORE: recovery, remapping, admission and speech, modelled and proved

Six parts of the repository keep state that several steps or several goroutines share. This
project models each of them in Dafny and proves what it is relied on for.

- **Restart recovery** (`Recovery*.dfy`). After a crash a loop cancels open Actions and closes
  Runs left running, over a bounded scope instead of the whole history. The store calls are
  modelled from the Task and Action managers, writer generation and latest-Run check included.
  Runs are resolved by one shared pass, the default, or by live reads; every theorem covers both.
- **Backlog remapper** (`Backlog*.dfy`). A key is renamed in an append-only log that is read as
  "the last line of an id wins"; `append-current` re-appends newest revisions.
- **Receipt remapper** (`Receipt*.dfy`). The same renaming over database rows, with one
  transaction, two readers of a payload and an integrity gate.
- **LLM busy tracker** (`BusyTracker.dfy`, `LLMBusyTracker.dfy`). Counted requests per source, one
  preemptible idle lease carried in the context, one idle reservation that drains idle chat.
- **Idle-chat speech** (`Tts*.dfy`, `IdleChatTTS*.dfy`). A queue with one worker, and prefetch
  streams with one goroutine each, under producers, cancels and resets. Each lock section, channel
  operation and context cancel is one event; a run is any interleaving; the theorems quantify over
  all reachable states or all runs.
- **Capacity backoff and check plans** (`CapacityBackoff.dfy`, `CheckPlan.dfy`).

`Ordering.dfy`, `Text.dfy`, `JsonValues.dfy`, `IdKeys.dfy` and `Options.dfy` hold what they share: sorting
and its uniqueness, the trimming of Go and Python, what the scripts see of a JSON value, and the two
keys that both scripts rename between.

Each part has a specification as functions, the code that changes state as methods of a class or
methods with loops proved equal to those functions, and the guarantees as lemmas about the
functions. A concurrent part is a state machine whose `Step` is the specification; its class is
tied to it by a ghost `world`. The `*Meaning.dfy` files say what single decisions come to in
terms of records, tokens, lines and values alone, without the functions that compute them.

## Where the code and its description differ

- The header of the recovery says an Action outside the scope has nothing to settle. It has not,
  but it can stop the whole-history walk: the two walks differ exactly at a dangling reference
  (`ScopeRefinesWholeHistory`, `DanglingExample`).
- A successful recovery can leave a finished Action with a running Run: one of the current writer
  generation (`NoFinishedActionRunsExactly`, `OwnRunExample`).
- The two ways of resolving Runs are not interchangeable (`ResolversDifferExactly`, `StrayExample`),
  though a shared pass that succeeds is the live one (`SuccessIsShared`).
- `append-current` refuses a log whose stale id holds a "(" (`ReconcileSucceedsExactly`).
- The receipt gate objects to blank legacy ids that the tool leaves alone on purpose
  (`GatePassesExactly`), and does not see an id that the run drops (`GateMissesExactly`,
  `GateMissesADroppedId`).
- An item turned away by a full speech channel stays registered for good (`RegistryExactly`,
  `TurnedAwayStays`, `SomeItemIsTurnedAway`).
- A cancel of the prefetch streams can return before a stream it should stop is stopped
  (`CutStopsAllExactly`, `CancelAllStopsExactly`, `OvertakenCut`).
- A backoff bound above 2^62 can overflow (`BackoffIsExact`, `OverflowExample`).

## Model

| member | source | states |
|---|---|---|
| RecoveryResolvers.ScopeRefinesWholeHistory | cmd/rencrow/runtime_action_recovery.go:21-28 | for every store and either way of resolving Runs, the recovery over the bounded scope and the one over the whole sorted history differ if and only if a finished Action outside the scope names a Run no Task owns and, read off the store they start from, no older Action of the scope stops the recovery |
| RecoveryResolvers.DanglingExample | cmd/rencrow/runtime_action_recovery.go:87-90 | a store of one finished Action whose Run no Task owns: the bounded pass succeeds and changes nothing, the walk over the history stops |
| RecoveryResolvers.FirstStop | cmd/rencrow/runtime_action_recovery.go:49-121 | the pass stops at the first Action that stops in the store its elders leave, and that store is read off the start without running the loop |
| RecoveryResolvers.GetsPastIsReaches | cmd/rencrow/runtime_action_recovery.go:49-121 | whether a pass gets past an Action, read off the starting store, is what its outcome says |
| RecoveryRefinement.ScopedRecoveryAgrees | cmd/rencrow/runtime_action_recovery.go:17-28 | if every Run reference resolves, or the whole-history recovery succeeds, both end with the same stores, count and result, failures included |
| RecoveryRefinement.OutsideIsIdle | cmd/rencrow/runtime_action_recovery.go:24-26 | at any later moment of the loop an Action that was outside the scope at the start settles nothing: it is passed over, or its unknown Run is the error |
| RecoveryRefinement.SettleEvolves | cmd/rencrow/runtime_action_recovery.go:50-121 | settling one Action, successful or not, changes a Run only by taking it out of `running`, and adds or removes no record |
| RecoveryRefinement.FilteredLoop | cmd/rencrow/runtime_action_recovery.go:50-121 | the loop over the scope is the loop over the list it was filtered from, until the longer loop stops outside the scope |
| Recovery.ScopeIsFilteredHistory | cmd/rencrow/runtime_action_recovery.go:125-166 | the union of the three queries, sorted, is the whole history in (CreatedAt, ActionID) order with every other Action left out |
| Recovery.ListingIsUnique | cmd/rencrow/runtime_action_recovery.go:155-165 | whatever order the queries and the map give the Actions in, the sorted list is one and the same |
| RecoveryEnd.SettleLeaves | cmd/rencrow/runtime_action_recovery.go:50-121 | what one successful turn of the loop leaves in the Action, its Attempt, its Run and its Task, and exactly when it counts a Run as recovered, however Runs are resolved |
| RecoveryEnd.LoopEnds | cmd/rencrow/runtime_action_recovery.go:49-123 | a successful loop, with live reads or a shared pass, ends in the store read off its start without running it: each Action, Attempt, Run and Task in closed form |
| RecoveryEnd.ClosedRunIsFinal | cmd/rencrow/runtime_action_recovery.go:94-120 | also when the loop fails later, with either resolver, a Run it has changed has the record its oldest settling Action gives it, read off the start |
| RecoveryTheorems.FirstIsOldest | cmd/rencrow/runtime_action_recovery.go:125-166 | the first Action of the scope that settles a Run is the oldest Action of the whole history that settles it |
| RecoveryTheorems.SettlementIsDeterministic | cmd/rencrow/runtime_action_recovery.go:94-120 | for every pass, failing or not and with either resolver, the record of a closed Run is the verdict of its oldest settling Action alone; a successful pass closes every recoverable Run that has one, and any other Run is unchanged |
| RecoveryMeaning.ClosedAsOldestEnded | cmd/rencrow/runtime_action_recovery.go:94-120 | for every pass, failing or not and with either resolver: a Run it closes was left running by an earlier writer generation under a running Task of the same holder, as that Task's latest; Run and Task end succeeded if and only if the oldest settling Action succeeded and is no native delegation or its current Attempt succeeded with acceptance of the Task's expected criteria revision, cancelled if and only if that Action was open, cancelled or superseded, and failed otherwise; nothing else changes but an unempty summary |
| RecoveryMeaning.SuccessfulPassCloses | cmd/rencrow/runtime_action_recovery.go:49-123 | a successful pass closes exactly the running Runs of other writer generations that some Action, other than an open native delegation, names |
| RecoveryMeaning.TurnStopsExactly | cmd/rencrow/runtime_action_recovery.go:50-120 | a turn stops for exactly four reasons, each read off the records: no current Attempt, an Attempt that may not be cancelled here, a Run no Task owner resolves, and a Run resolved as running that its Task owner refuses to close |
| RecoveryMeaning.ScopeExactly | cmd/rencrow/runtime_action_recovery.go:125-166 | the scope holds exactly the Actions that are open, native delegations or of a running Run, by creation time and, at one time, by the lexicographic order of their IDs |
| Ordering.StringLessExactly | cmd/rencrow/runtime_action_recovery.go:155-165 | IDs compare lexicographically: a proper prefix, or a smaller character where they first differ |
| Text.TrimExactly | cmd/rencrow/llm_busy_tracker.go:51-60 | trimming cuts white space, and only that, off both ends until there is none |
| Text.SpacesExactly | scripts/rencrow_identity_step20_backlog_jsonl_remap.py:45-46 | which characters count as white space to Go and to Python, by code |
| RecoveryTheorems.RecoveredCountsMovedRuns | cmd/rencrow/runtime_action_recovery.go:114-122 | the returned count is the number of Runs moved out of `running`, also when the loop fails half-way, with either resolver |
| RecoveryTheorems.EndState | cmd/rencrow/runtime_action_recovery.go:69-85 | after a successful pass with either resolver the open Actions are exactly the native delegations open before, and a finished Action names a running Run only where that Run belongs to the recovering process |
| RecoveryTheorems.NoFinishedActionRunsExactly | internal/application/taskmanager/run_restart_recovery.go:80-94 | after a successful pass with either resolver no finished Action has a running Run if and only if none of the Actions to settle names a running Run of the current writer generation |
| RecoveryTheorems.OwnRunExample | internal/application/taskmanager/run_restart_recovery.go:89-91 | a store where that condition fails: the pass succeeds and a finished Action keeps its running Run |
| RecoveryTheorems.SecondPassIsIdle | cmd/rencrow/runtime_action_recovery.go:29-123 | a second pass over what a successful pass left returns 0 and changes nothing, whichever way either of the two resolves Runs |
| RecoveryResolvers.ResolversDifferExactly | cmd/rencrow/runtime_action_recovery.go:41-48 | resolving Runs live and by one shared pass give different recoveries, failures included, if and only if a settling Action names a Task other than the owner of its running Run and, read off the starting store, no Action of the scope up to it stops the live recovery |
| RecoveryResolvers.SuccessIsShared | internal/application/taskmanager/manager.go:62-72 | a pass with the default, shared way of resolving Runs that succeeds ends with the same stores, count and result as live reads |
| RecoveryResolvers.StrayExample | cmd/rencrow/runtime_action_recovery.go:41-48 | a store on which the live recovery succeeds and the shared one fails |
| RecoveryOwners.Owners.Add | cmd/rencrow/runtime_action_recovery.go:130-138 | the map by ID gains exactly the found Actions |
| RecoveryOwners.Owners.CollectScope | cmd/rencrow/runtime_action_recovery.go:128-154 | the filled map holds exactly the Actions that are open, native delegations, or of a running Run |
| RecoveryOwners.Owners.ActionsInRecoveryScope | cmd/rencrow/runtime_action_recovery.go:127-166 | the returned slice is the scope, oldest first, for every order in which the map gives its values |
| RecoveryOwners.Owners.CompleteAttempt | internal/application/actionmanager/manager.go:208-270 | called to cancel, closes the named open Action and its running current Attempt as cancelled, or refuses and changes nothing; typed native state is refused |
| RecoveryOwners.Owners.RecoverRunAfterProcessRestart | internal/application/taskmanager/run_restart_recovery.go:22-114 | called with a terminal status, closes a running Run of an earlier generation with its Task, leaves a closed or current-generation Run alone without an error, and refuses everything else unchanged |
| RecoveryOwners.Owners.SettleAction | cmd/rencrow/runtime_action_recovery.go:50-120 | one turn of the loop in place: the new records, the count and the error are those of the settling function |
| RecoveryOwners.Owners.RecoverActionRunsAfterRestart | cmd/rencrow/runtime_action_recovery.go:29-123 | the recovery in place, with an ID-indexed Run store or one shared pass: final records, count and error are those of the recovery function |
| RecoveryOwners.Owners.CheckReferences | cmd/rencrow/runtime_action_run_references.go:31-49 | every Run named is looked up once; the counter is the number of distinct unknown Runs and the first offender is the first Action naming one |
| RecoveryOwners.Owners.VerifyActionRunReferences | cmd/rencrow/runtime_action_run_references.go:19-54 | accepts if and only if every Action names an owned Run; otherwise reports how many Runs are unknown and the oldest Action naming one |
| BusyTracker.StepKeepsInv | cmd/rencrow/llm_busy_tracker.go:51-199 | every lock section keeps lease isolation, the draining reservation, the exact counts and the identity of leases |
| BusyTracker.LeaseIsolation | cmd/rencrow/llm_busy_tracker.go:71-87 | in every reachable state with a lease held, every outstanding request was begun under that lease's own context |
| BusyTrackerMeaning.BeginsExactly | cmd/rencrow/llm_busy_tracker.go:62-87 | a request is refused, without effect, if and only if it is idle chat and a reservation is held, or a lease its context does not carry; every other request gets one new token, raises the count of its source by one, ends a reservation, and ends a lease it does not carry |
| BusyTrackerMeaning.HolderBegins | cmd/rencrow/llm_busy_tracker.go:64-87 | the holder of a lease can begin any request under it, idle chat included, and keeps the lease |
| BusyTrackerMeaning.FinishesExactly | cmd/rencrow/llm_busy_tracker.go:88-96 | a finished request takes out its own token and one of the count of its source, and nothing else |
| BusyTrackerMeaning.ReservesExactly | cmd/rencrow/llm_busy_tracker.go:99-130 | a reservation is made if and only if neither a lease nor a reservation is held and every outstanding request is idle chat |
| BusyTrackerMeaning.AcquiresExactly | cmd/rencrow/llm_busy_tracker.go:162-188 | a lease is granted if and only if none is held, no request is outstanding, and the reservation held is the caller's, or none is held and none required; it is a new one and ends the reservation |
| BusyTrackerMeaning.ReleasesExactly | cmd/rencrow/llm_busy_tracker.go:132-138 | releasing the lease held ends it with one call of its cancel, releasing the reservation held ends it, and releasing any other changes nothing |
| BusyTrackerMeaning.IdleChatSpeaks | cmd/rencrow/llm_busy_tracker.go:162-188 | a run in which idle chat reserves, acquires the lease and begins a request under it |
| BusyTracker.ForeignRequest | cmd/rencrow/llm_busy_tracker.go:64-87 | a foreign idle-chat request is refused and changes nothing; any other foreign request cancels and ends the lease before it is counted |
| BusyTracker.ReservationDrain | cmd/rencrow/llm_busy_tracker.go:99-188 | while a reservation is held only idle-chat requests are outstanding, none begins, no lease exists, and a lease is granted to the reserving source, and to no other, exactly when the last one is done |
| BusyTracker.LateReleaseIsIdle | cmd/rencrow/llm_busy_tracker.go:117-138 | a lease or reservation that is over never comes back over any run, and releasing it late changes nothing |
| BusyTracker.LeaseIdentity | cmd/rencrow/llm_busy_tracker.go:184-198 | over any run the cancel of a granted lease has been called once if the lease is not the current one, and not at all if it is |
| BusyTracker.CountsBegun | cmd/rencrow/llm_busy_tracker.go:83-86 | counting one more request keeps the stored counts equal to the outstanding requests of each source |
| BusyTracker.CountsFinished | cmd/rencrow/llm_busy_tracker.go:88-96 | finishing one request keeps them equal, with no zero entry left |
| BusyTracker.SumCountsTokens | cmd/rencrow/llm_busy_tracker.go:214-224 | the stored counts add up to the number of outstanding requests |
| BusyTracker.ExternalSum | cmd/rencrow/llm_busy_tracker.go:214-224 | without idle chat they add up to the requests that are not idle chat |
| LLMBusyTracker.Tracker.TryBegin | cmd/rencrow/llm_busy_tracker.go:51-97 | the request goes under the first non-blank source name; it is refused, without effect, if and only if it is idle chat while a reservation is held or a lease its context does not carry, and otherwise gets one new token |
| LLMBusyTracker.Tracker.BeginLocked | cmd/rencrow/llm_busy_tracker.go:62-87 | the lock section in place: new counts, lease, stored cancel, reservation, and one call of the ended lease's cancel |
| LLMBusyTracker.Tracker.Done | cmd/rencrow/llm_busy_tracker.go:88-96 | a done called once takes exactly its own request out of the counts |
| LLMBusyTracker.Tracker.TryReserveIdleReservation | cmd/rencrow/llm_busy_tracker.go:99-139 | no reservation while a lease is held; the one held is shared with its own source alone; and else a new one exactly when every outstanding request is idle chat |
| LLMBusyTracker.Tracker.ReleaseReservation | cmd/rencrow/llm_busy_tracker.go:132-138 | ends the reservation only if it is still this one |
| LLMBusyTracker.Tracker.TryAcquireIdleLease | cmd/rencrow/llm_busy_tracker.go:162-199 | grants a new lease exactly when none is held, no request is outstanding and the reservation is the caller's or neither held nor required |
| LLMBusyTracker.Tracker.AcquireLocked | cmd/rencrow/llm_busy_tracker.go:170-188 | the same decision in the lock section, with the new lease and its cancel stored |
| LLMBusyTracker.Tracker.ReleaseLease | cmd/rencrow/llm_busy_tracker.go:189-198 | ends and cancels the lease only if it is still the current one |
| LLMBusyTracker.Tracker.TakeSnapshot | cmd/rencrow/llm_busy_tracker.go:201-233 | ActiveCount is the number of outstanding requests plus one for a held lease, ExternalCount the same without idle chat, and both maps show the counts per source |
| LLMBusyTracker.CopyBusySources | cmd/rencrow/llm_busy_tracker.go:239-248 | the copy keeps exactly the non-blank sources with a positive count |
| LLMBusyTracker.CountBusy | cmd/rencrow/llm_busy_tracker.go:211-224 | both totals are the sums of the maps they count |
| LLMBusyTracker.CountsAreShown | cmd/rencrow/llm_busy_tracker.go:207-232 | a snapshot built from the filtered copies loses no request |
| BacklogLines.RemapLineKeeps | scripts/rencrow_identity_step20_backlog_jsonl_remap.py:74-92 | renaming keeps the id under either key, the revision and every other key, and a second renaming leaves the result alone |
| BacklogMeaning.LineExactly | scripts/rencrow_identity_step20_backlog_jsonl_remap.py:74-92 | a line is refused if and only if it has both keys with different texts; it is renamed if it has the old key beside the new one, or alone with a text that is not blank, and is otherwise kept |
| BacklogMeaning.TextsExactly | scripts/rencrow_identity_step20_backlog_jsonl_remap.py:45-46 | a missing value and a null read as the empty text, a string as itself and any other value as it is shown, trimmed; the revision and the id of a line are such texts, the old id counting only where the new one is blank |
| BacklogMeaning.FingerprintsAgreeExactly | scripts/rencrow_identity_step20_backlog_jsonl_remap.py:65-71 | two lines have one fingerprint if and only if they carry the same JSON values under every key but the two id keys |
| BacklogMeaning.LogRefusedExactly | scripts/rencrow_identity_step20_backlog_jsonl_remap.py:308-311 | a log is refused for disagreeing ids if and only if some line has both keys with different texts; otherwise each line is renamed or kept as its keys say |
| BacklogMeaning.DisagreementRefusedExactly | scripts/rencrow_identity_step20_backlog_jsonl_remap.py:76-80 | the tool, in either mode, fails closed on exactly the logs with such a line |
| BacklogLines.LastLineWins | scripts/rencrow_identity_step20_backlog_jsonl_remap.py:95-110 | a reader's state holds an id exactly when a line carries it, with the last such line |
| BacklogLines.NewestRevisionWins | scripts/rencrow_identity_step20_backlog_jsonl_remap.py:113-123 | the baseline holds an id exactly when a line carries it under either key, with the greatest `updated_at`, ties to the later line |
| BacklogLines.ParsedIdentCuts | scripts/rencrow_identity_step20_backlog_jsonl_remap.py:325-325 | the id read back from a difference is the id written, cut at its first "(", so it reads back if and only if it has none |
| BacklogTheorems.SameIds | scripts/rencrow_identity_step20_backlog_jsonl_remap.py:126-140 | for every accepted log the baseline and the renamed log show the same ids |
| BacklogTheorems.OnlyRevisionsDiffer | scripts/rencrow_identity_step20_backlog_jsonl_remap.py:126-140 | two states over the same ids differ by changed revisions alone, in id order |
| BacklogMeaning.StaleExactly | scripts/rencrow_identity_step20_backlog_jsonl_remap.py:126-140 | an id is stale if and only if its last line and its newest line, ties to the later one, carry different values under some key that is not an id key |
| BacklogMeaning.DifferencesExactly | scripts/rencrow_identity_step20_backlog_jsonl_remap.py:134-139 | over the same ids the differences name, in ascending order, ids whose two lines carry different values, each with its left and its right line number |
| BacklogMeaning.DecimalReadsBack | scripts/rencrow_identity_step20_backlog_jsonl_remap.py:136-139 | a line number written into a difference reads back as that number |
| BacklogTheorems.PlainIdsAreAppended | scripts/rencrow_identity_step20_backlog_jsonl_remap.py:322-338 | with ids that read back, the append loop appends exactly their newest revisions, in order |
| BacklogTheorems.ReconcileSucceedsExactly | scripts/rencrow_identity_step20_backlog_jsonl_remap.py:306-344 | `append-current` succeeds on an accepted log if and only if no stale id holds a "(", and then keeps every line and appends one winner per stale id; strict mode succeeds if and only if no id is stale |
| BacklogTheorems.ParenthesisExample | scripts/rencrow_identity_step20_backlog_jsonl_remap.py:322-344 | a log of two lines that renaming accepts and `append-current` refuses |
| BacklogFixedPoint.WrittenLogReadsNewest | scripts/rencrow_identity_step20_backlog_jsonl_remap.py:306-344 | after a successful run the last line of every id is its newest revision, no id is lost or added, and every history line is kept in place |
| BacklogMeaning.WritesExactly | scripts/rencrow_identity_step20_backlog_jsonl_remap.py:322-338 | a successful run writes every line of the log in its place, renamed if it has an old key, and after them, in ascending order of the ids, the newest line of each stale id again under the new key alone |
| BacklogMeaning.WrittenShowsNewest | scripts/rencrow_identity_step20_backlog_jsonl_remap.py:95-123 | read back, the last line of an id carries the values of the newest line that the id had before the run |
| BacklogFixedPoint.RepeatedWinner | scripts/rencrow_identity_step20_backlog_jsonl_remap.py:121-121 | a line that repeats the newest revision of its id under the new key ties with it and, written last, is what both readers then show |
| BacklogFixedPoint.WrittenStates | scripts/rencrow_identity_step20_backlog_jsonl_remap.py:95-123 | on the written log both readers show the ids of the baseline, each with the content of its newest revision |
| BacklogFixedPoint.SecondRunIsIdentity | scripts/rencrow_identity_step20_backlog_jsonl_remap.py:306-383 | a second run in either mode over the output of a successful run converts nothing, finds no changed id, appends nothing and writes the same lines |
| BacklogTool.ReadState | scripts/rencrow_identity_step20_backlog_jsonl_remap.py:95-110 | the dictionary filled by the loop is the effective state |
| BacklogTool.ReadIntent | scripts/rencrow_identity_step20_backlog_jsonl_remap.py:113-123 | the dictionary filled by the loop is the baseline |
| BacklogTool.Diff | scripts/rencrow_identity_step20_backlog_jsonl_remap.py:126-140 | the list built by the loops is the difference of the two states, ids sorted |
| BacklogTool.RemapAll | scripts/rencrow_identity_step20_backlog_jsonl_remap.py:308-311 | refuses exactly the logs with a line whose two keys disagree; otherwise renames or keeps each line as its keys say and counts exactly the lines with an old key to rename |
| BacklogTool.AppendCurrent | scripts/rencrow_identity_step20_backlog_jsonl_remap.py:320-338 | the append loop over rendered differences, refusals included |
| BacklogTool.ApplyTool | scripts/rencrow_identity_step20_backlog_jsonl_remap.py:306-344 | the run of the tool in place equals the run the theorems speak of |
| ReceiptRemap.RenamedInPlace | scripts/rencrow_identity_step20_receipt_payload_remap.py:103-113 | a legacy-only payload keeps its length and the place and value of every key, only the legacy key is renamed, and the head reader then sees what the deployed one did |
| ReceiptRemap.DroppedLegacy | scripts/rencrow_identity_step20_receipt_payload_remap.py:91-100 | a payload with both keys loses the one legacy pair and nothing else moves |
| ReceiptRemap.SecondRunConvertsNothing | scripts/rencrow_identity_step20_receipt_payload_remap.py:81-114 | a remapped payload is left alone by a second run |
| ReceiptRemap.IdKeptExactly | scripts/rencrow_identity_step20_receipt_payload_remap.py:117-136 | the head reader resolves after the conversion, up to white space, the id the deployed one resolved before, if and only if not both keys were there with only one of the values empty to its reader, or the id is blank |
| ReceiptMeaning.RefusesExactly | scripts/rencrow_identity_step20_receipt_payload_remap.py:81-92 | a payload is refused if and only if it is not JSON, is no object, or holds the two keys with different texts |
| ReceiptMeaning.StatesExactly | scripts/rencrow_identity_step20_receipt_payload_remap.py:81-114 | under which state an accepted payload is counted; converted if and only if it holds the old key beside the new one, or alone with a text that is not blank |
| ReceiptMeaning.ReadsExactly | scripts/rencrow_identity_step20_receipt_payload_remap.py:117-136 | what each reader sees of an empty payload, of one that is no JSON object, of a missing key, and of a null, a string or another value under its key |
| ReceiptStore.OnlyConvertedPayloadsChange | scripts/rencrow_identity_step20_receipt_payload_remap.py:167-190 | columns, rows, row order, every other column and every payload that is not converted stay |
| ReceiptStore.SecondRunIsIdle | scripts/rencrow_identity_step20_receipt_payload_remap.py:167-190 | a second run over a converted database is accepted, converts nothing and changes nothing |
| ReceiptStore.GatePassesExactly | scripts/rencrow_identity_step20_receipt_payload_remap.py:193-207 | after a run the gate reports no problem if and only if no receipt row has a legacy id of white space alone and no head id |
| ReceiptStore.DeployedOnlyAfter | scripts/rencrow_identity_step20_receipt_payload_remap.py:150-163 | after a run the deployed reader alone resolves exactly the blank legacy ids |
| ReceiptStore.LosesIdExactly | scripts/rencrow_identity_step20_receipt_payload_remap.py:117-136 | a converted payload loses the id that the deployed reader resolved, and that no reader resolves after, if and only if it holds a head id that counts as empty and a legacy id that does not |
| ReceiptStore.GateMissesExactly | scripts/rencrow_identity_step20_receipt_payload_remap.py:193-207 | over a whole database: the gate passes and an id is lost if and only if no receipt row has a blank legacy id and some row has an empty head id beside a legacy one |
| ReceiptStore.GateMissesADroppedId | scripts/rencrow_identity_step20_receipt_payload_remap.py:91-100 | a database of one row, with a null head id and the legacy text None, on which the gate passes and the run drops the only id a reader resolved |
| ReceiptTool.RemapOne | scripts/rencrow_identity_step20_receipt_payload_remap.py:81-114 | the two rebuilding loops compute the remapped payload |
| ReceiptTool.ApplyTable | scripts/rencrow_identity_step20_receipt_payload_remap.py:173-182 | one table within the transaction: every convertible row updated by row id and counted, or the run stops |
| ReceiptTool.ApplyRemap | scripts/rencrow_identity_step20_receipt_payload_remap.py:167-190 | either every convertible row of every receipt table is converted and committed with the right counts, or the database is as it was; also when an update fails |
| ReceiptTool.RunsExactly | scripts/rencrow_identity_step20_receipt_payload_remap.py:167-190 | a run goes through if and only if every payload of the receipt tables is accepted and the database takes the update of every converted row |
| ReceiptTool.ScanTable | scripts/rencrow_identity_step20_receipt_payload_remap.py:144-163 | the state census, the reader-resolution census, the row count and the two id sets of one table, or a refusal |
| ReceiptMeaning.CountsStates | scripts/rencrow_identity_step20_receipt_payload_remap.py:144-152 | the census counts each state once for every row in it |
| ReceiptMeaning.IdsExactly | scripts/rencrow_identity_step20_receipt_payload_remap.py:150-163 | the two id sets are what the deployed reader alone and what the head reader see in the rows |
| ReceiptTool.Scan | scripts/rencrow_identity_step20_receipt_payload_remap.py:139-164 | the report on every receipt table that exists |
| ReceiptTool.CheckIntegrity | scripts/rencrow_identity_step20_receipt_payload_remap.py:193-207 | the list of problems is empty if and only if every table passes |
| ReceiptTool.CheckTable | scripts/rencrow_identity_step20_receipt_payload_remap.py:195-206 | which problems are listed for one table |
| ReceiptTool.Run | scripts/rencrow_identity_step20_receipt_payload_remap.py:538-541 | scan, apply, scan and gate on the scanned database: nothing changes or everything convertible is converted, and the gate objects exactly to blank legacy ids |
| TtsQueueInvariant.StepKeepsInv | cmd/rencrow/idlechat_tts_queue.go:32-257 | every atomic step keeps: one holder per item, the registry, the order and progress of every shutdown script |
| TtsQueueInvariant.ScriptStep | cmd/rencrow/idlechat_tts_queue.go:222-231 | every shutdown script cancels the context and signals Ready before Done |
| TtsQueueSafety.StepKeepsSafe | cmd/rencrow/idlechat_tts_queue.go:173-257 | every atomic step keeps what resets and generation cancels in progress still owe |
| TtsQueueSafety.NewlyActive | cmd/rencrow/idlechat_tts_queue.go:71-89 | an item enters the registry only by its own registration, and only if its generation is not cancelled |
| TtsQueueTheorems.InFlightIsRegistered | cmd/rencrow/idlechat_tts_queue.go:55-68 | in every reachable state an item that is queued, held by the worker or being drained is registered |
| TtsQueueTheorems.RegistryExactly | cmd/rencrow/idlechat_tts_queue.go:57-68 | the registry holds exactly the items between registration and shutdown and those a full channel turned away |
| TtsQueueTheorems.TurnedAwayStays | cmd/rencrow/idlechat_tts_queue.go:62-67 | an item a full channel turned away stays registered over every run |
| TtsQueueTheorems.SomeItemIsTurnedAway | cmd/rencrow/idlechat_tts_queue.go:61-67 | a run in which 512 items fill the channel and one more is turned away and stays registered |
| TtsQueueTheorems.OneHolder | cmd/rencrow/idlechat_tts_queue.go:218-257 | the channel, the worker and the drains never share an item, and the channel never holds one twice |
| TtsQueueMeaning.FirstInFirstOut | cmd/rencrow/idlechat_tts_queue.go:216-218 | over every run items leave the channel, to the worker or to a drain, in the order in which they entered it; none is lost and none is taken twice |
| TtsQueueMeaning.CreatesExactly | cmd/rencrow/idlechat_tts_queue.go:49-56 | a new item is live, unsignalled and unregistered, and carries the queue's present generation |
| TtsQueueMeaning.EnqueuesExactly | cmd/rencrow/idlechat_tts_queue.go:61-67 | the send appends the item while fewer than 512 are queued and otherwise turns it away |
| TtsQueueMeaning.RegistersExactly | cmd/rencrow/idlechat_tts_queue.go:71-89 | in every reachable state a registration is refused if and only if some cancel that has captured cut the item's generation or a later one of its epoch |
| TtsQueueMeaning.WorkerDecidesExactly | cmd/rencrow/idlechat_tts_queue.go:218-231 | the worker drops the item it received if and only if it is of an older queue generation, its playback generation has been cut or its context is cancelled, and otherwise speaks and completes it |
| TtsQueueMeaning.OperatesExactly | cmd/rencrow/idlechat_tts_queue.go:222-231 | a shutdown operation cancels, closes or unregisters what it names on its own item, and nothing else does any of it to any item |
| TtsQueueMeaning.CallsExactly | cmd/rencrow/idlechat_tts_queue.go:173-257 | what each step of a reset and of a cancel does: the generation rises by one, exactly the registered items, or those of one generation, are captured, and the channel is drained oldest first until it is empty |
| TtsQueueMeaning.SomeAreCaptured | cmd/rencrow/idlechat_tts_queue.go:112-157 | a timeout or a session end can capture any set of registered items |
| TtsQueueMeaning.CancelTouchesItsGeneration | cmd/rencrow/idlechat_tts_queue.go:182-194 | over every run a generation cancel changes items of its own generation alone |
| TtsQueueMeaning.WholeLife | cmd/rencrow/idlechat_tts_queue.go:55-68 | a run in which an item is sent, spoken and completed, and ends signalled and out of the registry |
| TtsQueueTheorems.ItemTermination | cmd/rencrow/idlechat_tts_queue.go:57-68 | an item nobody holds whose producer has finished has a cancelled context and a closed Done channel; Done implies Ready and neither closes twice |
| TtsQueueTheorems.ResetSafety | cmd/rencrow/idlechat_tts_queue.go:236-257 | in every reachable state, once a reset has returned no item of an older generation is spoken with a live context |
| TtsQueueTheorems.ResetStopsOlderItems | cmd/rencrow/idlechat_tts_queue.go:236-257 | from any reachable state, whatever interleaves with a reset, after its return no item that existed when it began is spoken with a live context, even if registered or enqueued after the cancels |
| TtsQueueTheorems.GenerationCut | cmd/rencrow/idlechat_tts_queue.go:173-194 | once a generation cancel has returned, every item of its generation that is queued, held or spoken is cancelled and signalled |
| TtsQueueTheorems.NothingOlderRegisters | cmd/rencrow/idlechat_tts_queue.go:203-206 | from its capture on, no item of the epoch with a generation from 1 up to the cancelled one is registered |
| TtsQueueTheorems.WatermarkNeverFalls | cmd/rencrow/idlechat_tts_queue.go:178-181 | over any run the cancelled-generation mark of an epoch never falls |
| TtsQueueTheorems.LowerGenerationGoesOn | cmd/rencrow/idlechat_tts_queue.go:182-189 | a run in which an item of a lower generation is still spoken, live, after the cancel has returned |
| IdleChatTTSQueue.Collect | cmd/rencrow/idlechat_tts_queue.go:159-170 | walking the two-level registry in any order collects exactly the registered items wanted |
| IdleChatTTSQueue.SpeechQueue.Register | cmd/rencrow/idlechat_tts_queue.go:71-89 | the lock section in place: refused exactly for a cancelled generation, else filed under its key |
| IdleChatTTSQueue.SpeechQueue.Enqueue | cmd/rencrow/idlechat_tts_queue.go:61-67 | the non-blocking send in place: queued exactly while the channel holds fewer than 512 items |
| IdleChatTTSQueue.SpeechQueue.Unregister | cmd/rencrow/idlechat_tts_queue.go:91-103 | called by the worker or by a drain: the item leaves the registry and an empty key with it |
| IdleChatTTSQueue.SpeechQueue.CaptureGeneration | cmd/rencrow/idlechat_tts_queue.go:178-190 | raises the mark and returns exactly the registered items of the generation |
| IdleChatTTSQueue.SpeechQueue.CaptureAll | cmd/rencrow/idlechat_tts_queue.go:159-167 | returns exactly the registered items |
| IdleChatTTSQueue.SpeechQueue.Drain | cmd/rencrow/idlechat_tts_queue.go:246-256 | one round of the drain takes the oldest queued item or ends the drain |
| IdleChatTTSQueue.LifecycleController.SignalReady | cmd/rencrow/idlechat_tts.go:66-71 | after it the ready channel has been closed exactly once |
| IdleChatTTSQueue.LifecycleController.SignalDone | cmd/rencrow/idlechat_tts.go:73-79 | after it both channels have been closed exactly once |
| TtsPrefetchInvariant.StepKeepsInv | cmd/rencrow/idlechat_tts_prefetch.go:66-584 | every atomic step keeps the channel, map, script and ownership invariants of all streams and calls |
| TtsPrefetchInvariant.ActedOk | cmd/rencrow/idlechat_tts_prefetch.go:268-514 | every step of a goroutine keeps its own stream right: nothing is undone, and it leaves the map only closed, cancelled and signalled |
| TtsPrefetchTheorems.ChannelSafety | cmd/rencrow/idlechat_tts_prefetch.go:251-266 | in every interleaving the token channel closes at most once, nothing is sent after it closes, and accepted tokens are the received ones followed by the queued ones |
| TtsPrefetchMeaning.SendsExactly | cmd/rencrow/idlechat_tts_prefetch.go:251-266 | a push with a token that is not blank, to an open stream with fewer than 128 tokens queued, appends the trimmed token to what is queued and accepted; every other push changes no stream |
| TtsPrefetchMeaning.LooksUpExactly | cmd/rencrow/idlechat_tts_prefetch.go:206-240 | in every reachable state a push is refused if and only if some cancel cut its generation or a later one of its runtime; otherwise it goes to the stream bound to its key, or to a new one |
| TtsPrefetchMeaning.ActsExactly | cmd/rencrow/idlechat_tts_prefetch.go:268-285 | a goroutine takes the oldest token, finalizes when the closed channel is empty or its context is cancelled, and loses no token otherwise |
| TtsPrefetchMeaning.ClosesExactly | cmd/rencrow/idlechat_tts_prefetch.go:564-584 | a close closes the channel of the stream bound to its key if its trace is not blank and the stream's own, and drops no token |
| TtsPrefetchMeaning.CallsExactly | cmd/rencrow/idlechat_tts_prefetch.go:351-366 | how a cancel goes on: it takes its streams one by one, performs the four operations on each in order, and returns when none is left |
| TtsPrefetchMeaning.SomeAreCaptured | cmd/rencrow/idlechat_tts_prefetch.go:156-177 | a cancel by session, message and trace can capture any set of bound streams, and leaves the map alone |
| TtsPrefetchMeaning.CancelTouchesItsGeneration | cmd/rencrow/idlechat_tts_prefetch.go:143-154 | over every run a generation cancel changes streams of its own generation alone |
| TtsPrefetchMeaning.WholeLife | cmd/rencrow/idlechat_tts_prefetch.go:268-285 | a run in which a pushed token is accepted and received, and the closed stream then signals, cancels and leaves the map |
| TtsPrefetchTheorems.FinalizesClosed | cmd/rencrow/idlechat_tts_prefetch.go:488-500 | a goroutine finalizes only closed streams, so its early return for an open one is dead, and without a cancel it has received every accepted token |
| TtsPrefetchTheorems.FinishedStream | cmd/rencrow/idlechat_tts_prefetch.go:268-285 | a stream whose goroutine has ended is closed, cancelled, signalled and out of the map |
| TtsPrefetchTheorems.RemovesOnlyItself | cmd/rencrow/idlechat_tts_prefetch.go:195-204 | no step of a stream's goroutine takes another stream out of the map, not even a newer one under its key |
| TtsPrefetchTheorems.GenerationCut | cmd/rencrow/idlechat_tts_prefetch.go:130-154 | after a generation cancel has returned every stream of its generation is out of the map, and closed with a cancelled context unless another call that unmapped it is still stopping it |
| TtsPrefetchTheorems.NothingOlderIsFed | cmd/rencrow/idlechat_tts_prefetch.go:206-215 | from its capture on, no push of the generations up to it creates or feeds a stream |
| TtsPrefetchTheorems.MarkNeverFalls | cmd/rencrow/idlechat_tts_prefetch.go:138-141 | over any run the cancelled-generation mark of a runtime never falls |
| TtsPrefetchCut.CutStopsAllExactly | cmd/rencrow/idlechat_tts_prefetch.go:130-154 | a generation cancel has stopped every stream of its generation by its return, in every run, if and only if as it begins each such stream is in the map or already stopped |
| TtsPrefetchCut.CancelAllStopsExactly | cmd/rencrow/idlechat_tts_prefetch.go:114-128 | a cancel of everything has stopped every stream that existed when it began by its return, in every run, if and only if as it begins each of them is in the map or already stopped |
| TtsPrefetchCut.AloneMeansNoneUnderway | cmd/rencrow/idlechat_tts_prefetch.go:114-154 | both conditions hold whenever no other cancel is in progress |
| TtsPrefetchCut.OvertakenCut | cmd/rencrow/idlechat_tts_prefetch.go:114-154 | a run in which a generation cancel returns while a stream of its generation is open with a live context, because a cancel of everything took it out of the map first |
| IdleChatTTSPrefetch.PrefetchStream.Enqueue | cmd/rencrow/idlechat_tts_prefetch.go:251-266 | appends the trimmed token if it is not blank, the stream is open and fewer than 128 tokens are queued; in each other case nothing changes |
| IdleChatTTSPrefetch.PrefetchStream.Receive | cmd/rencrow/idlechat_tts_prefetch.go:276-281 | the oldest token, or the end of the loop; accepted stays received followed by queued |
| IdleChatTTSPrefetch.PrefetchStream.Close | cmd/rencrow/idlechat_tts_prefetch.go:564-584 | closes the channel once, and only for the stream's own non-blank trace |
| IdleChatTTSPrefetch.PrefetchStream.CancelForStale | cmd/rencrow/idlechat_tts_prefetch.go:351-366 | run to its end it leaves the stream closed, cancelled and signalled, whatever was done before |
| IdleChatTTSPrefetch.PrefetchManager.StreamFor | cmd/rencrow/idlechat_tts_prefetch.go:206-240 | refuses a cancelled generation, else finds or makes the stream of the key |
| IdleChatTTSPrefetch.PrefetchManager.RemoveStream | cmd/rencrow/idlechat_tts_prefetch.go:195-204 | takes out this very stream and no other binding |
| IdleChatTTSPrefetch.PrefetchManager.Capture | cmd/rencrow/idlechat_tts_prefetch.go:134-150 | raises the mark, takes exactly the mapped streams of the generation out of the map and returns them |
| IdleChatTTSPrefetch.PrefetchManager.TakeAll | cmd/rencrow/idlechat_tts_prefetch.go:118-124 | returns exactly the mapped streams and empties the map |
| IdleChatTTSPrefetch.TakeOut | cmd/rencrow/idlechat_tts_prefetch.go:143-149 | walking the map in any order removes exactly the streams of the generation |
| CapacityBackoff.BackoffIsExact | cmd/rencrow/capacity_backoff.go:26-42 | for every base and bound, every n-th refusal in a row waits exactly min(max, base * 2^(n-1)) if and only if no such power lies from 2^62 up to below max |
| CapacityBackoff.StoppingChangesNothing | cmd/rencrow/capacity_backoff.go:35-38 | the counter that stops at the bound returns the delays of one that never stops, overflow or not |
| CapacityBackoff.SmallBoundIsExact | cmd/rencrow/capacity_backoff.go:30-35 | a bound of at most 2^62 is enough for exactness, whatever the base |
| CapacityBackoff.DelaysRise | cmd/rencrow/capacity_backoff.go:28-42 | without overflow delays lie between base and max, never decrease, and reach max and stay there |
| CapacityBackoff.OverflowShows | cmd/rencrow/capacity_backoff.go:30-32 | a doubling of a delay from 2^62 up overflows 64 bits and that refusal returns a negative delay where max was due |
| CapacityBackoff.OverflowExample | cmd/rencrow/capacity_backoff.go:30-32 | with base 2^62 and the greatest bound the second refusal waits -2^63 |
| CapacityBackoff.Backoff.constructor | cmd/rencrow/capacity_backoff.go:16-24 | a non-positive base becomes one second and a bound below the base becomes the base |
| CapacityBackoff.Backoff.Refused | cmd/rencrow/capacity_backoff.go:28-42 | the doubling loop in place: the delay of the n-th refusal in a row, exact when nothing overflows, and the new not-before time |
| CapacityBackoff.Backoff.Succeeded | cmd/rencrow/capacity_backoff.go:45-48 | clears the wait and the count |
| CheckPlan.ValidatePlan | cmd/rencrow-check-plan-runner/runner.go:799-854 | accepts if and only if schema version, purpose, phase and time are the request's, the revision is not blank, the status is ready without errors, the manifest has no duplicate id, and the three groups together hold each manifest id exactly once and no other; else names the first header field that is wrong |
| CheckPlan.SizeDecides | cmd/rencrow-check-plan-runner/runner.go:821-853 | for a duplicate-free manifest, a duplicate check and one size comparison decide whether the ids are a permutation of it |
| CheckPlan.ReadManifest | cmd/rencrow-check-plan-runner/runner.go:821-827 | accepts exactly duplicate-free manifests; else names the first repeated id |
| CheckPlan.ReadGroup | cmd/rencrow-check-plan-runner/runner.go:837-849 | accepts exactly the groups whose ids are known, unseen and not repeated; else names the first that is not |
| CheckPlan.RunIncluded | cmd/rencrow-check-plan-runner/runner.go:241-252 | every included check runs once, in order, and its result is recorded under its own id, with failed for a missing status and at most 256 characters of its message |
| CheckPlan.AllowlistIs | cmd/rencrow-check-plan-runner/runner.go:269-276 | exactly four checks have executors |
| CheckPlan.RunPlan | cmd/rencrow-check-plan-runner/runner.go:218-264 | executors run if and only if the header is right, the plan partitions the manifest, the planner did not fail, the URL is accepted and every included id is allowlisted; then results match the included list in length and order, the status is passed exactly when every result is, and the receipt accounts for each manifest id exactly once |

## Left out

- Nil receivers, cancelled caller contexts and the `Validate` of IDs, traces and records: each is a check on entry that returns early.
- Clocks: `UpdatedAt`, `CompletedAt` and the start and end of a recorded check; a Run is closed in one step with its status and summary.
- Storage errors other than those modelled: a failing read or save in the recovery, a failing file write in the backlog tool. In the receipt tool any update may fail.
- JSON text, key order and number syntax in the backlog tool: a line is a map, and its fingerprint is the dump of its values without the two id keys. Text that is not JSON or not an object is refused before the modelled part starts.
- Values that are not text in the payload column of a receipt table. A BLOB that holds the text of a JSON object is converted like that text and is an `Encoded` payload here; a number that is not zero is refused as not JSON; a zero and an empty BLOB, refused but taken for an empty payload by the readers, are not among the payloads.
- The per-state statistics of the receipt run over all tables together, sorting inside a scan report and the text of problems and refusals.
- Command lines, reports, exit codes, checksums, the refusal of protected directories and the environment guards of both scripts.
- Who may hold a `done`: it is called at most once, as the tracked provider does; a context carries only a granted lease.
- `IdleReservationHeld`, `ExternalBusy` and the sorted copies of the snapshot's maps, which are nil when empty: they only read.
- Unsigned 64-bit wrap-around of the queue generation and of playback generations, and 64-bit wrap-around of request counts and of the backoff's refusal counter.
- Epochs of queue items that are not trimmed: a cancel compares an item's epoch as it is with its own trimmed one, so such items are refused at registration but not captured. The cut is stated for items whose epoch is the trimmed one.
- What speaking does: text filtering, plans, emotions, bridges, pending playback and public sessions. Emission is an interval in which Ready may be signalled and after which the shutdown follows.
- The Done signal at the end of a queue item's emission: the shutdown that follows it closes the same channels once, in the same order. For the prefetch streams that signal is an event of its own.
- Liveness: nothing is said about when a goroutine gets to run.
- The lookup of a stream key from session, message and trace: the key is given.
- `HasActive`, and the lookup part of `Close` without viewers, which only cancels matching streams.
- Time zones in the plan's evaluation time, the planner process, its output size and decoding, and what an executor does; an executor is a function of the check id.
- Recovery.ListingIsUnique: says nothing about stores with two Actions of one ID, which the Action store rules out.
- LLMBusyTracker.Tracker.BeginLocked: decides the refusal of a foreign idle-chat request before it clears the reservation, which is then not held, so no field differs.
- IdleChatTTSPrefetch.PrefetchStream.CancelForStale: runs its operations without interruption, the interleavings between them being in the step model, and leaves out the cleanup of the public session.
- RecoveryOwners.Owners.CompleteAttempt: takes no status, because the recovery only calls it to cancel.
- RecoveryOwners.Owners.RecoverRunAfterProcessRestart: refuses the `waiting` status with its reason, which the settling loop never passes.
- ReceiptTool.Run: applies to the database it has scanned, so neither the copy made for a rehearsal nor the branch that rewrites the live database is told apart.
