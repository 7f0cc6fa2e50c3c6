# Verified model of the bosun configuration agent

bosun-client brings a machine to the state a manifest describes. This project models its stateful core
in Dafny and proves what holds for every input, every stopping point and every run:

- **Deferred actions** (`Text`, `DeferFormat`, `Directory`, `Journal`, `EnqueueTheory`, `ReplayTheory`,
  `ReplayOutcomes`, `JournalRuns`, `AttemptRuns`, `Durability`, `Dispatch`). The journal is a directory with one file per pending action.
  The model changes it one file operation at a time; every method takes a budget after which it stops, so a
  single contract covers completion, an I/O error and a crash at each point. Dispatcher, health checks,
  cancellation and the clock are arbitrary answers. `JournalRuns` puts the calls into a state machine: the
  process that holds the lock begins a call, advances by one event, or dies; an operator, whose
  `bosun status --clear` takes no lock (bosun-client/crates/bosun-cli/src/status.rs:28-60), may unlink a
  record between any two events. Its theorems hold after every move of every run. `Durability` adds the disk:
  of the directory changes since the last sync a power loss may take any part.
- **Registry** (`Digraph`, `Kahn`, `Registry`). Kahn's algorithm with three kinds of edges, repeated
  edges and an initial queue in any order.
- **Apply** (`Orchestrator`, `ApplyTheory`, `ApplyOutcomes`). The loop over the sorted resources. The pacer and the
  primitives are an arbitrary world that answers position by position.
- **Facts** (`Facts`, `FactsTheory`). The lazy cache with dirty flags, driven by the log of an apply run.
- **Inventory** (`Json`, `Inventory`, `KeyedMerge`, `KeyedLookup`). Deep merge, keyed list merge and path lookup.
- **Two smaller pieces** (`Candidates`, `PercentEncoding`).

Where code and comments or documentation differ, the model follows the code:

- The comment on the replay loop says that a cancelled health check ends the loop
  (bosun-client/crates/bosun-core/src/defers/replay.rs:66-68). The code goes on to the next entry
  (replay.rs:113-122) and stops there if it finds the token set. `ReplayTheory.CancelledCheckEndsReplayIff`
  says exactly when the comment is right. The health checks of the program answer "cancelled" only when the
  token is set (bosun-client/crates/bosun-primitives/src/health_check/mod.rs:103-104, 149-150, 187-188,
  221-222); with them it always is (`ReplayTheory.CancelledCheckIsLast`).
- bosun-client/README.md:180-181 says that `--clear` looks at pending files before promoted ones. The code
  takes the first match in directory order, which is unspecified. `AttemptRuns.TakesPendingFirstIff` says
  exactly when that makes no difference.
- A record that an operator clears during a replay is still dispatched from the snapshot, and its clear
  does not last if the attempt fails below its limit; `AttemptRuns.ClearedRecordComesBackIff` is exact.
- The header of the journal promises that rename and directory sync together make its operations safe against
  a kernel crash (bosun-client/crates/bosun-core/src/defers/journal.rs:3-7). That holds for an enqueue that
  writes (`Durability.WrittenRequestSurvivesPowerLoss`). One that finds its request pending returns without a
  sync, and the record may be one that a process left unsynced when it died:
  `Durability.AlreadyExistsMayBeLost` is such a run, `Durability.SurvivesPowerLossIff` the exact condition.
- Two facts may have one name: `FactsCollector::new` does not object
  (bosun-client/crates/bosun-facts/src/collector.rs:69-75). The cache has one entry for both, so it can agree
  with collecting only if they answer alike; `FactsTheory.StartAgreesIff` says so exactly, and the agreement
  over whole runs assumes it (`FactsTheory.AlwaysOneAnswer`), as it holds for distinct names.
- The merge resembles RFC 7396 section 2 but keeps nulls inside objects that it inserts whole. Applying an
  override twice therefore differs from applying it once for some values; `Inventory.TwiceIsOnceIff` says
  exactly for which.
- `process.signal` does not use `make_id` for the records it queues
  (bosun-client/crates/bosun-primitives/src/process_signal/apply.rs:210-216); `DeferFormat.WellFormed`
  admits both forms.

Main definitions a reader needs: `Directory.Pending` is what a listing shows, `Directory.Good` says that
every visible record is well formed, sits under its own name and makes no other redundant,
`Directory.Covers` relates a record to the requests it stands for, `JournalRuns.Held` says that a request is
covered, in the hands of an enqueue that replaces it, or discharged, `Orchestrator.Follows` gives every
outcome from the history before it, and `Digraph.FromCycle` means on a cycle or behind one.

`hide` statements inside proofs only keep definitions out of a proof that does not need them.

## Model

| member | source | states |
|---|---|---|
| DeferFormat.IdDetermines | bosun-client/crates/bosun-core/src/defers/format.rs:177-189 | the id of a well-formed entry determines init system, target, kind of action and priority |
| DeferFormat.IdsCollideIff | bosun-client/crates/bosun-core/src/defers/format.rs:177-189 | exactly when two unit actions share an id: they are the same request, or the longer init system continues an id of the shorter one, and so has a dot |
| DeferFormat.DottedInitSystemCollides | bosun-client/crates/bosun-core/src/defers/format.rs:177-189 | two such requests |
| DeferFormat.FilenameIsId | bosun-client/crates/bosun-core/src/defers/format.rs:151-153 | file names and ids of well-formed entries determine each other |
| DeferFormat.FilenameExtensions | bosun-client/crates/bosun-core/src/defers/format.rs:151-158 | pending, promoted and scratch names have three different extensions, so scratch files are never listed |
| DeferFormat.FilenameOrderIsRankOrder | bosun-client/crates/bosun-core/src/defers/priority.rs:46-54 | byte-wise order of file names implies order of execution ranks |
| DeferFormat.FilenameTells | bosun-client/crates/bosun-core/src/defers/format.rs:151-189 | the name on disk of every kind of well-formed record |
| Directory.CoversTransitive | bosun-client/crates/bosun-core/src/defers/journal.rs:320-326 | standing for a request composes, so a chain of replacements still stands for the first one |
| Directory.AtomicWriteAtEveryPoint | bosun-client/crates/bosun-core/src/defers/journal.rs:149-193 | wherever an atomic write stops, the old or the new record is visible, whole, and nothing else changes |
| Directory.AscendingUnique | bosun-client/crates/bosun-core/src/defers/journal.rs:239-239 | a set of names has one sorted enumeration, so a listing is determined by the directory |
| Directory.ListingIsPending | bosun-client/crates/bosun-core/src/defers/journal.rs:225-251 | the listing is exactly the visible records, strictly ascending by name |
| Journal.Journal.ListSorted | bosun-client/crates/bosun-core/src/defers/journal.rs:225-251 | sorting names first and skipping what does not parse yields the listing, for any directory order |
| Journal.Journal.AtomicWrite | bosun-client/crates/bosun-core/src/defers/journal.rs:149-193 | performs the prefix of create, fill, rename, sync that the budget allows |
| Journal.Journal.UnlinkVictims | bosun-client/crates/bosun-core/src/defers/journal.rs:285-299 | deletes in listing order the records the new action makes redundant, and says whether any of them had a file |
| Journal.Journal.Enqueue | bosun-client/crates/bosun-core/src/defers/journal.rs:254-316 | duplicate, dominated, replacing and creating cases, and the directory at every stopping point |
| Journal.Journal.Remove | bosun-client/crates/bosun-core/src/defers/journal.rs:196-204 | unlink and sync at every stopping point |
| Journal.Journal.BumpAttempt | bosun-client/crates/bosun-core/src/defers/journal.rs:208-213 | saturating count, rewritten atomically |
| Journal.Journal.MoveToManualClear | bosun-client/crates/bosun-core/src/defers/journal.rs:216-221 | rename without rewriting, at every stopping point; a missing file is an error that ends the call |
| Journal.Journal.Fail | bosun-client/crates/bosun-core/src/defers/replay.rs:123-150 | count the attempt, promote exactly at the limit |
| Journal.Journal.Visit | bosun-client/crates/bosun-core/src/defers/replay.rs:105-191 | one iteration: what is asked, what is done about it, and the fate of the entry, by the answers |
| Journal.Journal.Replay | bosun-client/crates/bosun-core/src/defers/replay.rs:75-195 | one pass over the snapshot until the token is cancelled; the report counts the fates with saturation |
| Journal.Journal.ClearOne | bosun-client/crates/bosun-cli/src/status.rs:119-157 | removes one matching file, or nothing when none matches |
| Journal.Journal.ClearAllManual | bosun-client/crates/bosun-cli/src/status.rs:160-180 | removes every promoted file, counts them, leaves pending ones alone |
| EnqueueTheory.EnqueueAtEveryPoint | bosun-client/crates/bosun-core/src/defers/journal.rs:254-316 | the visible records after each file operation of an enqueue |
| EnqueueTheory.EnqueueRefinesAccept | bosun-client/crates/bosun-core/src/defers/journal.rs:254-316 | a completed enqueue refines one abstract update of the visible records |
| EnqueueTheory.EnqueueTests | bosun-client/crates/bosun-core/src/defers/journal.rs:254-326 | when an enqueue finds its request pending, dominated, or replacing something, by the actions of the pending records of its unit |
| EnqueueTheory.EnqueueChanges | bosun-client/crates/bosun-core/src/defers/journal.rs:285-326 | a completed enqueue removes a record if and only if it is of the same unit and the new and old action are restart over reload-or-restart or reload, or reload-or-restart over reload; it adds its own if and only if it and no stronger one is there |
| EnqueueTheory.JournalHoldsMaximalRequests | bosun-client/crates/bosun-core/src/defers/journal.rs:254-326 | after any requests the pending files are the maximal ones under subsumption, each as first made, and at most one of the restart family per unit |
| EnqueueTheory.PendingIsOrderFree | bosun-client/crates/bosun-core/src/defers/journal.rs:254-326 | order, repetition and clock do not change which files are pending |
| ReplayTheory.ReplayAtEveryPoint | bosun-client/crates/bosun-core/src/defers/replay.rs:85-195 | wherever a replay stops it has only dropped requests or counted attempts, and the journal is consistent |
| ReplayTheory.VisitsInTotal | bosun-client/crates/bosun-core/src/defers/replay.rs:88-191 | the exact directory after any number of visits: each entry as its fate says, all others untouched |
| ReplayTheory.ReplayDispatchesByPriority | bosun-client/crates/bosun-core/src/defers/replay.rs:85-104 | a prefix of the pending entries is dispatched, each once, by non-decreasing rank |
| ReplayTheory.FatesAddUp | bosun-client/crates/bosun-core/src/defers/replay.rs:27-42 | every entry of the snapshot meets exactly one of seven fates |
| ReplayTheory.ReportConserves | bosun-client/crates/bosun-core/src/defers/replay.rs:27-42 | report, cancelled and unreached entries add up to the snapshot if and only if no counter saturates |
| ReplayTheory.CancelledCheckEndsReplayIff | bosun-client/crates/bosun-core/src/defers/replay.rs:97-122 | after a cancelled check nothing more is dispatched if and only if the entry was the last or the next test finds the token set |
| ReplayTheory.CancelledCheckNeedNotEndReplay | bosun-client/crates/bosun-core/src/defers/replay.rs:113-122 | a replay that goes on after a cancelled check |
| ReplayTheory.CancelledCheckIsLast | bosun-client/crates/bosun-primitives/src/health_check/mod.rs:103-104 | with a token that stays set and checks that report cancellation only when they see it set, at most one entry is kept that way and nothing is dispatched after it |
| ReplayTheory.ReplayCountsOneAttempt | bosun-client/crates/bosun-core/src/defers/replay.rs:123-150 | wherever a replay stops it has counted at most one attempt of a record, exactly; a complete one keeps a counted record if and only if it is below its limit |
| ReplayOutcomes.ReplayOutcome | bosun-client/crates/bosun-core/src/defers/replay.rs:105-191 | from the trace of a complete replay: a failed record is counted and pending below its limit, promoted with that count at it; a succeeded one is gone; unchanged if and only if unavailable, cancelled or not reached |
| ReplayOutcomes.ReplayDispatchesByAction | bosun-client/crates/bosun-core/src/defers/priority.rs:46-54 | restarts, starts and stops first, then reload-or-restarts, reloads, commands and daemon reloads |
| ReplayOutcomes.ReportTells | bosun-client/crates/bosun-core/src/defers/replay.rs:27-42 | each counter of the report is the number of the answers it stands for, up to its largest value |
| JournalRuns.EnqueueStaysGood | bosun-client/crates/bosun-core/src/defers/journal.rs:254-316 | an enqueue stopped anywhere leaves named, well-formed, mutually irredundant records |
| JournalRuns.RunStaysGood | bosun-client/crates/bosun-core/src/defers/journal.rs:1-12 | the same after every move of every run of enqueues, replays, crashes and clears at any moment, promoted records included, with at most one record of the restart family per unit; no visible file is torn, and inside a call clears only take away |
| JournalRuns.EveryDepartureIsJustified | bosun-client/crates/bosun-core/src/defers/replay.rs:88-191 | in every run a record leaves only when this very record was just dispatched and passed its check, by promotion right after its last failed attempt with its counted form kept, by a stronger request, or by the operator |
| JournalRuns.EnqueuedIsCovered | bosun-client/crates/bosun-core/src/defers/journal.rs:254-316 | when an enqueue returns, some pending record stands for the request |
| JournalRuns.EnqueueForgetsExactlyInWindow | bosun-client/crates/bosun-core/src/defers/journal.rs:285-304 | an interrupted enqueue loses a request if and only if it stops between the first unlink and the rename |
| JournalRuns.NoRequestIsLost | bosun-client/crates/bosun-core/src/defers/replay.rs:88-191 | in every run in which the process does not die while it replaces a record of this request, a covered request stays covered or in flight until a record for it is executed, promoted or cleared |
| JournalRuns.AcceptedRequestIsNotLost | bosun-client/crates/bosun-primitives/src/runr_service/apply.rs:325-329 | at-least-once from the return of enqueue through all later replays, crashes and clears; only what happened since that enqueue began can discharge the request |
| AttemptRuns.AttemptsAreBounded | bosun-client/crates/bosun-core/src/defers/replay.rs:167-189 | in every run that does not enqueue it while it is absent, crashes and clears included, a record fails at most max(1, limit - count) times plus once for each call cut between counting its last attempt and promoting it; the stored count is exact, and between calls an exhausted record is gone |
| AttemptRuns.BackIffRenamed | bosun-client/crates/bosun-core/src/defers/journal.rs:149-193 | what is not pending at some point of a call is pending later in it if and only if the call renamed a file onto its name since and would keep it |
| AttemptRuns.ClearedRecordComesBackIff | bosun-client/crates/bosun-core/src/defers/replay.rs:88-191 | a record cleared during a replay is pending at its end if and only if its attempt was not counted yet and fails below its limit |
| AttemptRuns.TakesPendingFirstIff | bosun-client/crates/bosun-cli/src/status.rs:119-157 | a clear by id takes the pending record whatever the directory order if and only if the request is not both pending and promoted |
| AttemptRuns.MayTakePromotedFirst | bosun-client/crates/bosun-cli/src/status.rs:119-157 | a directory in which it may take the promoted one |
| Durability.PowerLossTearsNothing | bosun-client/crates/bosun-core/src/defers/journal.rs:3-12 | a power loss at any point of any run, whatever unsynced changes survive, leaves whole, well-formed records under their own names; a consistent journal if changes survive in order |
| Durability.PowerLossIsGoodIff | bosun-client/crates/bosun-core/src/defers/journal.rs:285-304 | whatever survives is consistent if and only if no record on disk or on its way there makes another redundant |
| Durability.MayBeRedundant | bosun-client/crates/bosun-core/src/defers/journal.rs:285-304 | a run after which a power loss can leave a redundant record |
| Durability.SurvivesPowerLossIff | bosun-client/crates/bosun-core/src/defers/journal.rs:149-193 | a request cannot be lost by a power loss now if and only if a record for it is on disk and no unsynced change removes it |
| Durability.WrittenRequestSurvivesPowerLoss | bosun-client/crates/bosun-core/src/defers/journal.rs:254-316 | at-least-once across power loss from the return of an enqueue that wrote, unless process or power fail between a later unlink of the record and the sync of its replacement |
| Durability.ReturnedCallIsSynced | bosun-client/crates/bosun-core/src/defers/journal.rs:196-221 | a call about to return has synced every unlink and rename it made |
| Durability.AlreadyExistsMayBeLost | bosun-client/crates/bosun-core/src/defers/journal.rs:268-270 | a run in which an enqueue returns and a power loss takes its request |
| Dispatch.OnlyUnreachableIsTransient | bosun-client/crates/bosun-primitives/src/dispatch.rs:248-283 | a record is kept without counting exactly when its init system cannot be reached |
| Dispatch.RouteTells | bosun-client/crates/bosun-primitives/src/dispatch.rs:86-153 | which records reach a backend and which of its calls they make |
| Dispatch.SucceedsIff | bosun-client/crates/bosun-primitives/src/dispatch.rs:248-283 | a dispatch succeeds if and only if there is a backend or a command to run and the call succeeds |
| Dispatch.NeedsAfterIs | bosun-client/crates/bosun-primitives/src/dispatch.rs:86-153 | what a unit still needs depends only on whether it was touched and whether it was restarted, whatever other units get; unknown init systems are refused |
| Dispatch.DedupPreservesMeaning | bosun-client/crates/bosun-primitives/src/dispatch.rs:86-153 | serving the deduplicated journal in priority order leaves a unit with reload and restart requests as serving every request would, whatever else is queued |
| Digraph.LeftOverIsFromCycle | bosun-client/crates/bosun-core/src/registry.rs:103-115 | what an order that cannot be extended leaves out is exactly what lies on or behind a cycle |
| Digraph.CycleBlocks | bosun-client/crates/bosun-core/src/registry.rs:89-101 | nothing on or behind a cycle can be emitted |
| Kahn.Release | bosun-client/crates/bosun-core/src/registry.rs:91-100 | the decrement never underflows, counters stay the number of unfinished edges, freed nodes are queued once |
| Registry.Registry.Add | bosun-client/crates/bosun-core/src/registry.rs:27-35 | rejects exactly the ids already registered, otherwise appends |
| Registry.Registry.CountEdges | bosun-client/crates/bosun-core/src/registry.rs:63-81 | counts every edge with multiplicity or reports the first unknown handle in scanning order |
| Registry.Registry.Drain | bosun-client/crates/bosun-core/src/registry.rs:82-101 | from any initial queue order: no repeats, sources first, and every node left out is blocked |
| Registry.Registry.TopologicalOrder | bosun-client/crates/bosun-core/src/registry.rs:56-118 | in terms of the three fields: the first handle not registered, if any; else, with a closed chain of references, the sorted ids on or behind one; else a permutation in which everything a resource refers to comes before it |
| Registry.ResultTellsFields | bosun-client/crates/bosun-core/src/registry.rs:59-81 | the same of the graph result for depends_on, reload_on and restart_on |
| Orchestrator.RunPrimitive | bosun-client/crates/bosun-core/src/orchestrator.rs:428-608 | outcome by the answers of plan and apply, changes recorded by the loop and by the primitive itself, and calls of planning and applying one resource |
| Orchestrator.ApplyOrder | bosun-client/crates/bosun-core/src/orchestrator.rs:290-612 | every outcome follows from the history, counters count outcomes, the change set is exact, the calls are logged |
| Orchestrator.Apply | bosun-client/crates/bosun-core/src/orchestrator.rs:277-612 | sorts first; a registry that cannot be sorted changes nothing |
| ApplyOutcomes.OutcomeTells | bosun-client/crates/bosun-core/src/orchestrator.rs:290-612 | every outcome of every run, from earlier outcomes, the registry and the answers of pacer and primitive |
| ApplyOutcomes.LogTells | bosun-client/crates/bosun-core/src/orchestrator.rs:408-496 | a resource is planned if and only if its turn comes, and applied if and only if its plan then shows a difference |
| ApplyOutcomes.SummaryTells | bosun-client/crates/bosun-core/src/orchestrator.rs:141-149 | each counter is the number of resources with its outcome |
| ApplyTheory.SortedByRegistry | bosun-client/crates/bosun-core/src/orchestrator.rs:286-286 | the order of an apply lists each resource once after everything it refers to |
| ApplyTheory.PlannedHasSoundAncestors | bosun-client/crates/bosun-core/src/orchestrator.rs:385-406 | a planned resource has no transitive dependency that failed, was interrupted or was skipped |
| ApplyTheory.SkippedIffFailedAncestor | bosun-client/crates/bosun-core/src/orchestrator.rs:385-406 | with continue-on-error and no interruption, skipped if and only if a depends_on chain leads from a failed resource |
| ApplyTheory.NotifyAnswersAreFinal | bosun-client/crates/bosun-core/src/orchestrator.rs:493-545 | for everything in reload_on, restart_on or depends_on: an apply sees it as changed if and only if it ends the run changed or an earlier primitive recorded it; how it ends, when primitives record only their own changes |
| ApplyTheory.LogIsDirtyBeforeApply | bosun-client/crates/bosun-core/src/orchestrator.rs:488-496 | every apply call directly follows the marking of its kind |
| ApplyTheory.AtMostOneInterruption | bosun-client/crates/bosun-core/src/orchestrator.rs:306-357 | one interruption at most, followed only by skips |
| ApplyTheory.RunShape | bosun-client/crates/bosun-core/src/orchestrator.rs:306-611 | without continue-on-error: good outcomes, at most one failure or interruption, then skips |
| ApplyTheory.CountsAddUp | bosun-client/crates/bosun-core/src/orchestrator.rs:141-149 | the six counters add up to the number of resources |
| ApplyTheory.ExitCodeTellsTheRun | bosun-client/crates/bosun-cli/src/run.rs:391-403 | exit 0 if and only if all outcomes are NoChange, Changed or Deferred; 130 if and only if one was interrupted; 1 if and only if one failed and none was interrupted |
| ApplyOutcomes.ExitZeroIff | bosun-client/crates/bosun-cli/src/run.rs:391-403 | exit 0 if and only if no sleep was cancelled, every resource has a primitive, and none answered a cancellation or an error other than something unavailable for now |
| Facts.FactsCollector.CollectAtStart | bosun-client/crates/bosun-facts/src/collector.rs:86-109 | fills the cache with the facts whose policy includes the start |
| Facts.FactsCollector.MarkDirtyAfterApply | bosun-client/crates/bosun-facts/src/collector.rs:115-151 | marks exactly the triggered facts, with a placeholder for those never collected |
| Facts.FactsCollector.Get | bosun-client/crates/bosun-facts/src/collector.rs:211-262 | answers from a clean entry, otherwise collects once and applies the stale rule |
| FactsTheory.StartAgreesIff | bosun-client/crates/bosun-facts/src/collector.rs:86-109 | after the start the cache agrees with collecting if and only if facts of one name collected then answer alike |
| FactsTheory.StartTells | bosun-client/crates/bosun-facts/src/collector.rs:86-109 | the start collects exactly the facts with a policy at start |
| FactsTheory.MarkTells | bosun-client/crates/bosun-facts/src/collector.rs:115-151 | marking makes dirty exactly the facts with an after-apply policy that lists the kind, and changes no value |
| FactsTheory.GetTells | bosun-client/crates/bosun-facts/src/collector.rs:211-262 | a read answers a clean value, collects a dirty one, and keeps the time of the last known value |
| FactsTheory.AlwaysAgrees | bosun-client/crates/bosun-facts/src/collector.rs:115-263 | before every event of a disciplined log, every clean entry says what collecting now would |
| FactsTheory.CachedReadIsFreshRead | bosun-client/crates/bosun-facts/src/collector.rs:115-263 | in every apply run a plan reads Known(v) from a cached fact if and only if collecting it now gives Known(v), also after failed applies |
| FactsTheory.OnceKnownNeverUnknown | bosun-client/crates/bosun-facts/src/collector.rs:299-333 | a fact that was known never becomes unknown, and its known or stale value is the last one collected |
| FactsTheory.StaleReadIsLastKnown | bosun-client/crates/bosun-facts/src/collector.rs:243-333 | a failed refresh answers the last known value with its age since that collection |
| Inventory.MergeFields | bosun-client/crates/bosun-core/src/inventory.rs:115-130 | the remove and insert loop equals the pointwise merge for any order of keys |
| Inventory.MergeInPlace | bosun-client/crates/bosun-core/src/inventory.rs:109-142 | the program's merge equals the pointwise merge |
| Inventory.ThreeTimesIsTwice | bosun-client/crates/bosun-core/src/inventory.rs:109-142 | applying an override three times is applying it twice, for all values and both list modes |
| Inventory.EveryStrategySettles | bosun-client/crates/bosun-core/src/inventory.rs:94-107 | the same for every merge strategy |
| Inventory.StrategyTells | bosun-client/crates/bosun-core/src/inventory.rs:94-107 | replacing lists, appending what is new in order of first appearance, or taking the override as it is |
| Inventory.TwiceIsOnceIff | bosun-client/crates/bosun-core/src/inventory.rs:109-142 | for which values applying an override twice is applying it once, exactly |
| Inventory.IdempotentIffNoNullKeys | bosun-client/crates/bosun-core/src/inventory.rs:109-142 | an override is idempotent on all values if and only if no key in it holds null outside arrays |
| Inventory.SplitThenJoin | bosun-client/crates/bosun-core/src/inventory.rs:49-49 | a dotted path is recovered from its segments, none of which contains a dot |
| Inventory.Get | bosun-client/crates/bosun-core/src/inventory.rs:47-67 | the walking loop is path lookup with its two errors |
| Inventory.LookupInMerge | bosun-client/crates/bosun-core/src/inventory.rs:47-142 | what lookup finds in a merge for every path, from how far the override can be followed and what the base has |
| Inventory.OverrideWins | bosun-client/crates/bosun-core/src/inventory.rs:109-142 | a plain value set by the override is what lookup in the merge finds |
| Inventory.BaseShowsThrough | bosun-client/crates/bosun-core/src/inventory.rs:109-142 | where the override lacks a key along a path, lookup finds what it finds in the base |
| Inventory.NullHidesIff | bosun-client/crates/bosun-core/src/inventory.rs:109-142 | a null hides a path if and only if the base has an object at its parent; otherwise the null itself is found |
| KeyedMerge.MergeFieldsKeyed | bosun-client/crates/bosun-core/src/inventory.rs:159-177 | succeeds if and only if every shared key merges, with the same result for any order of keys |
| KeyedMerge.MergeKeyedLists | bosun-client/crates/bosun-core/src/inventory.rs:185-212 | the list loop equals the fold over the records, errors included |
| KeyedMerge.MergeKeyedInPlace | bosun-client/crates/bosun-core/src/inventory.rs:151-183 | the program's keyed merge equals its recursive specification |
| KeyedMerge.MergeKeepsKeyIff | bosun-client/crates/bosun-core/src/inventory.rs:151-183 | merging two records of one key keeps the key if and only if its value is not null and merging it with itself leaves it |
| KeyedMerge.StableObjectIff | bosun-client/crates/bosun-core/src/inventory.rs:151-183 | an object has that property if and only if all its fields do |
| KeyedMerge.ResultKeys | bosun-client/crates/bosun-core/src/inventory.rs:185-212 | for such keys in the override, result keys are the base keys in order, then first occurrences of new ones |
| KeyedMerge.DistinctKeysStayDistinct | bosun-client/crates/bosun-core/src/inventory.rs:185-212 | distinct base keys give distinct result keys |
| KeyedMerge.RecordsAreFolds | bosun-client/crates/bosun-core/src/inventory.rs:185-212 | the first record of each key is the left fold of that key's records; later duplicates of the base stay |
| KeyedMerge.NullKeyIsLost | bosun-client/crates/bosun-core/src/inventory.rs:185-212 | merging any two records whose key is null yields a record without the key |
| KeyedLookup.LookupInKeyedMerge | bosun-client/crates/bosun-core/src/inventory.rs:151-183 | what lookup finds in a keyed merge for every path |
| KeyedLookup.KeyedOverrideWins | bosun-client/crates/bosun-core/src/inventory.rs:181-181 | a plain value set by the override is what lookup in the keyed merge finds |
| KeyedLookup.KeyedBaseShowsThrough | bosun-client/crates/bosun-core/src/inventory.rs:159-177 | where the override lacks a key along a path, lookup finds what it finds in the base |
| KeyedLookup.KeyedNullHidesIff | bosun-client/crates/bosun-core/src/inventory.rs:159-177 | a null hides a path if and only if the base has an object at its parent |
| KeyedLookup.RecordFieldIsDecided | bosun-client/crates/bosun-core/src/inventory.rs:185-212 | a plain value in the last override record of a key that has the field is what the merged record has; a field no override record has is as in the base |
| KeyedLookup.ListsNeedKeys | bosun-client/crates/bosun-core/src/inventory.rs:185-212 | a list merge succeeds only if every element on both sides is a record with the key |
| Candidates.CollectCandidates | bosun-client/crates/bosun-facts/src/installed_packages.rs:225-253 | the loop is the fold of pairwise choices |
| Candidates.ChoiceIsMaximum | bosun-client/crates/bosun-facts/src/installed_packages.rs:264-279 | with priorities and parseable versions the choice is a candidate and at least as good as all |
| Candidates.ChoiceIsOrderFree | bosun-client/crates/bosun-facts/src/installed_packages.rs:225-279 | then lists read in another order give equally good choices |
| Candidates.OrderFreeIffDominated | bosun-client/crates/bosun-facts/src/installed_packages.rs:264-279 | the order is irrelevant if and only if one candidate displaces all that differ from it and is displaced by none |
| Candidates.ChoiceIsBest | bosun-client/crates/bosun-facts/src/installed_packages.rs:225-279 | the choice for a package depends only on its own candidates, compared in turn |
| Candidates.TwoCandidates | bosun-client/crates/bosun-facts/src/installed_packages.rs:264-296 | which of two candidates is chosen, also without priorities and with versions that do not parse |
| Candidates.MissingPriorityMakesOrderMatter | bosun-client/crates/bosun-facts/src/installed_packages.rs:264-279 | three candidates, one without priority, that displace each other in a circle |
| PercentEncoding.PercentEncode | bosun-client/crates/bosun-runr-client/src/client.rs:27-40 | the loop is the byte-wise encoding |
| PercentEncoding.DecodeInvertsEncode | bosun-client/crates/bosun-runr-client/src/client.rs:27-40 | every byte string is recovered from its encoding |
| PercentEncoding.EncodingIsASegment | bosun-client/crates/bosun-runr-client/src/client.rs:27-40 | only RFC 3986 section 3.3 segment characters, every escape followed by two hexadecimal digits |
| PercentEncoding.EncodingTells | bosun-client/crates/bosun-runr-client/src/client.rs:27-40 | letters, digits and `-._~@` stay; every other byte becomes an escape with two upper-case digits |

## Left out

- Opening and hardening the journal directory and path separators inside ids: filesystem matters below the
  operations modelled.
- The disk below a directory entry: a rename survives whole or not at all, and the contents of a renamed file,
  which were synced before, come with it. The sync of an operator's clear is not modelled, so its unlink may be
  lost longer than in the program.
- A read error on an intact record: the code skips such a file like a corrupt one; the model reads every intact file.
- Removal of the scratch file after a failed rename: scratch files are never listed.
- JSON text of records, `validate_cmd`, `spec_version` and timestamps of records: a complete file is a record.
- Clears during a listing: a call lists the directory at one moment. Clears that fall between the reads of a
  listing can be put before or after it, as they only unlink.
- A trace shows a directory sync also where the code leaves it out because there was nothing to unlink; only
  `Durability` gives syncs a meaning, and it passes over those.
- Pre- and post-replay around an apply and the accumulation of their reports: instances of the runs of `JournalRuns`.
- `plan_only`, messages of outcomes, texts of errors, and the joining of stuck ids into one string.
- Pacer arithmetic and the cancel token: an interrupted sleep is an arbitrary answer at each position.
- Published facts overlaid on collected ones, snapshots and panics of collectors: a panic is an answer `Unknown`.
- Clock readings inside one call of the facts cache: each call has one time.
- Which of several errors a keyed merge reports, and the path in it: it depends on the order of keys.
- `MergeStrategy::parse`, the parsing of package lists and the order of Debian versions: a version is a place
  in an arbitrary order, or does not parse.
- Starlark, HTTP, dbus and process plumbing, metrics, logging and argument parsing.
