# ExecGo runtime: a verified model

This project models the task runtime of ExecGo (`src/runtime.rs`, `src/repo.rs`, `src/ledger.rs`,
`src/policy.rs`, `src/metrics.rs`, `src/types.rs`) in Dafny and proves properties of the model.
`dafny verify dfyconfig.toml` checks all of it.

The centre is the task lifecycle. A submitter inserts a row, a single dispatcher reserves resources
for accepted rows and spawns one shim per row, the shim launches and supervises the workload, kill
handlers set a flag and cancel, garbage collection deletes old rows, and recovery repairs the table at
start-up. They share nothing but the table and act on stale copies between transactions.

- `Table` gives each repository transaction its meaning on one row (`Apply`) and on the table
  (`Commit`). `Repository` is the class whose methods run those transactions in place and are proved
  against that meaning. `Service` holds the service's own loops over it: dispatch cycle, submission,
  kill and garbage collection.
- `Protocol` is the concurrent system: a state (rows, program counters and locals of every actor) and
  one step per transaction, read, spawn, launch or failure. A run is any sequence of steps. A storage
  error is a step that ends the actor's work where it stands. `CycleRun` shows that the dispatch cycle
  of `Service` is a run of it, `Watching` that the timed supervisor is a shim of it.
- `Ledger`, `Dispatch`, `DispatchLaws` and `Drain` treat resource accounting with 64-bit saturating
  arithmetic and the greedy admission built on it. The reference is first fit with exact sums.
- `SpawnOnce`, `LedgerSafety` and `KillSafety` hold in every interleaving. `Lifecycle` and `AuditLog`
  hold in every run without the overlaps they name; `Witnesses` has a concrete run for each overlap.
- `Recovery`, `Admission`, `Restart` and `SecondShim` say what start-up recovery establishes, what later
  holds because of it, and which restarts lose or repeat a task.
- `Supervisor`, `Resources`, `QuotaParser`, `Metrics` and `Policy` are the remaining algorithms, each a
  loop proved equal to a reference definition, with laws about the reference.
- `Requests`, `TransactionLaws`, `PlanLaws` and `QuotaText` say what all of this means in plain fields and
  text: which amounts tasks hold, what a transaction changes, what a plan enforces, what a quota text says.

## What does not hold of the code

Each of these is stated with its condition and a run that shows it.

- The dispatcher may reserve for a row that a kill has cancelled since it was listed; the cancelled row
  then holds a reservation (`ReserveRace`, `Witnesses.ReserveRaceLeaks`).
- A shim's first transaction may land on a row cancelled since the shim read it (`LaunchRace`): the row
  runs again without a reservation, turns from Cancelled to Failed, or gets another finish time.
- A failed spawn may overwrite Cancelled by Failed (`SpawnErrorRace`). These three kinds of step are
  exactly those that put the table out of order (`Lifecycle.StepIsOrderly`).
- A cancellation, by a kill's second transaction or by the dispatcher for a flagged row it listed,
  writes a Released event for a reservation that stays in force when the row has left the queue in
  between (`SurplusRelease`). This is the only step that breaks the agreement between a log and its row.
- A row started before it is marked dispatched never learns its shim's process id, so recovery declares
  the live task lost; this is the only way a task with a live shim is lost (`Restart.LiveTaskIsLost`).
- A crash while a shim's row is still accepted and not flagged lets the next lifetime spawn the task
  twice if it fits next to the recovered reservations; a crash that catches no such row never does
  (`SecondShim.CrashIsSafe`).
- With a memory or process capacity of 2^64 - 1 the exact sum of reservations can exceed it, unless
  there is at most one slot (`MaximalLimit.MaximalCapacityHolds`); limits below are safe whatever the
  others are.
- A failed spawn stays charged to its tenant for the rest of the cycle.

## Model

| member | source | states |
|---|---|---|
| LedgerSafety.LedgerIsSafe | src/runtime.rs:549-707 | in every interleaving, from any table within a limit below 2^64 - 1 and with any surviving shims, the exact sum of active reservations stays within that limit: capacity or tenant quota, dimension by dimension, whatever the other limits are |
| Requests.ActiveRowsHoldTheirRequest | src/types.rs:457-463 | in every reachable state a row that holds a reservation holds one slot, exactly its own memory limit and exactly its own process limit |
| Requests.RequestsStayWithin | src/runtime.rs:549-707 | in every interleaving the memory limits, the process limits and the number of the tasks that hold a reservation stay together within an enforced capacity or quota |
| Requests.NewServerRespectsLimits | src/ledger.rs:121-198 | for every run of a new server, field by field: slots, memory and processes within the capacity, and within the quota of every configured tenant |
| Requests.RequestsAcrossRestart | src/runtime.rs:482-526 | after a crash and recovery every continuation keeps the requests in force within an enforced limit if and only if those of the survivors are |
| Requests.SubmittedStayWithin | src/runtime.rs:185-193 | in every run of a new server what the requests submitted by a tenant hold is within its quota, and what all requests hold within the capacity |
| Requests.RowCarriesItsRequest | src/repo.rs:207-294 | in every run a row carries the name, tenant, limits and degradation of the request it was inserted for |
| Requests.OriginIsChecked | src/runtime.rs:185-246 | no row is inserted for a request that did not pass the admission and queue checks |
| Requests.AdmittedMeans | src/ledger.rs:51-118 | a request is admitted if and only if the capacity, and its tenant's quota if there is one, each allow one slot, its memory and its processes |
| TransactionLaws.RefusalNames | src/ledger.rs:51-118 | a refusal names the first dimension in which the request exceeds the limit |
| Restart.LedgerIsSafeAcrossRestart | src/runtime.rs:482-707 | after a crash of any table and recovery, every continuation stays within an enforced limit if and only if the survivors' held or reconstructed reservations do |
| Restart.RaceFreeCrashKeepsLimit | src/runtime.rs:482-707 | after a race-free lifetime within the limit they do, whatever the crash caught |
| LedgerSafety.StepKeepsBound | src/runtime.rs:549-707 | each step keeps table sum <= dispatcher's stale counter <= limit for each enforced limit by itself, through releases by others and refunds after failed spawns |
| LedgerSafety.GrantScope | src/ledger.rs:121-198 | a granted reservation raises the counter by exactly what it owes and leaves it within an enforced limit |
| LedgerSafety.SpawnErrorKeepsScope | src/runtime.rs:681-703 | after a failed spawn the refunded global counter still covers the table |
| SpawnOnce.AtMostOneShim | src/runtime.rs:585-684 | in every interleaving no row is given two shims between two recoveries, from any survivors with distinct rows none of which is accepted, unreserved and unflagged |
| SpawnOnce.StepKeepsSpawnInv | src/runtime.rs:585-684 | a row handed to a shim has left the queue, holds its reservation or is flagged; stale listed copies that could be granted still describe unspawned rows |
| Protocol.RunIsForward | src/repo.rs:405-703 | over any run no row returns to accepted, no kill flag is cleared, no stored request changes and no deleted row comes back |
| Protocol.StepHasEffect | src/runtime.rs:549-738 | every step changes the table by at most one transaction, and never by a bare release |
| Lifecycle.RaceFreeLifecycle | src/runtime.rs:585-704 | in every race-free run running rows hold a reservation, finished rows hold none, a reservation belongs to a running row, to the dispatcher's current row or to one a storage error stranded, and a finished row keeps its status, finish time and error |
| Lifecycle.OrderlyIffRaceFree | src/runtime.rs:585-704 | the runs in which every step keeps running rows reserved, finished rows unreserved and finished rows as they are, are exactly the race-free ones |
| Lifecycle.StepIsOrderly | src/repo.rs:543-683 | a step leaves the table in that order if and only if it is not one of the named races |
| Lifecycle.WriteSettles | src/repo.rs:405-703 | of all transactions exactly a start, and a completion with another outcome, rewrite a finished row |
| Lifecycle.StepKeepsLife | src/repo.rs:543-683 | each step outside the named races keeps the whole invariant, for every actor's local copies too |
| Lifecycle.RacesAreKills | src/runtime.rs:268-328 | the excluded races only ever hit a row that a kill has cancelled: flag set and status Cancelled |
| Witnesses.ReserveRaceLeaks | src/runtime.rs:585-637 | a cancellation between listing and reserving leaves a cancelled row with an active reservation |
| Witnesses.LaunchRaceRevives | src/runtime.rs:895-933 | a cancellation between the shim's read and its start commit makes a cancelled row run without a reservation |
| Witnesses.LaunchErrorOverwrites | src/runtime.rs:946-980 | a failed launch turns a row cancelled meanwhile into Failed |
| Witnesses.CancelledTwice | src/runtime.rs:899-919 | a shim that read the flag of a still accepted row moves the finish time of the cancelled row |
| Witnesses.SpawnErrorRaceOverwrites | src/runtime.rs:681-703 | a failed spawn turns a row cancelled meanwhile into Failed |
| KillSafety.KillIsNotLost | src/runtime.rs:295-322 | once a kill's flag commits, and unless a shim had already read the flag clear at exit, the row never becomes a success, whatever runs afterwards |
| KillSafety.KilledRowNeverSucceeds | src/runtime.rs:1136-1182 | the same for any flagged row that is not a success: an invariant of every run |
| KillSafety.KillBeforeReadPreventsLaunch | src/runtime.rs:892-919 | a flag set before the shim's first read means that this shim never launches a workload |
| KillSafety.KillBeforeExitIsStored | src/runtime.rs:1136-1155 | a shim that has not read the flag clear at exit stores Cancelled, Failed with Timeout, or the error of a failed launch |
| AuditLog.AuditLogAgrees | src/repo.rs:259-291 | in every run without a surplus release each log opens Submitted, Accepted, Planned, then Degraded exactly for degraded plans, and replays to the reservation its row holds |
| AuditLog.StepKeepsLogs | src/repo.rs:584-601 | one step keeps logs and rows in agreement if and only if it is not a surplus release |
| AuditLog.WriteKeepsLog | src/repo.rs:442-499 | one transaction keeps the agreement if and only if it is neither a second reservation nor a cancellation of a row that left the queue with its reservation |
| Table.CommitIsForward | src/repo.rs:405-703 | a transaction returns no row to accepted, clears no flag and changes no request; one that is neither a reservation nor a release adds no reservation and takes none from a row that stays accepted |
| TransactionLaws.DispatchedMeans | src/repo.rs:405-413 | marking dispatched turns an accepted row into a running one with the given shim, and leaves everything else, and any other row, alone |
| TransactionLaws.StartedMeans | src/repo.rs:416-439 | starting records the process, the time and the event whatever the status was, and leaves request, signals, hold and outcome alone |
| TransactionLaws.ReserveMeans | src/repo.rs:442-468 | reserving stores the amounts and the time, clears the release and logs it, and leaves everything else alone |
| TransactionLaws.ReleaseMeans | src/repo.rs:471-499 | releasing frees and logs what is held, and is nothing without it |
| TransactionLaws.RequestKillMeans | src/repo.rs:502-520 | a kill request sets the flag and its time and logs it, and leaves everything else alone |
| TransactionLaws.HitTimeoutMeans | src/repo.rs:523-540 | a timeout sets its flag and logs it, and leaves everything else alone |
| TransactionLaws.CancelAcceptedMeans | src/repo.rs:543-604 | an accepted row is cancelled and frees what it holds; any other row keeps status and hold but gets the events |
| TransactionLaws.CompleteMeans | src/repo.rs:607-683 | completing stores the whole outcome over any row, frees what it holds and logs the event of the status |
| TransactionLaws.MarkRecoveredMeans | src/repo.rs:686-703 | recovery touches a running row and logs the event |
| TransactionLaws.CommitTouchesOne | src/repo.rs:405-703 | a transaction touches its own row and no other |
| AuditLog.LogCountsReservation | src/repo.rs:543-683 | Reserved events exceed Released events by one exactly while the row holds a reservation |
| Witnesses.SurplusReleaseMisleads | src/runtime.rs:301-320 | a dispatch between a kill's two transactions makes the log say a held reservation was released |
| Recovery.Recover | src/runtime.rs:482-526 | the recovery loop over a listing produces the row-by-row recovered table |
| Recovery.RecoveryEstablishes | src/runtime.rs:482-526 | afterwards no accepted row holds a reservation, every running row has a live recorded shim and a reservation, finished rows are unchanged, and only running rows without a live shim were failed |
| TransactionLaws.RecoveredAlive | src/runtime.rs:495-508 | a running row with a live recorded shim keeps its life and hold, is given what its limits ask for if it holds nothing, and logs both |
| TransactionLaws.RecoveredLost | src/repo.rs:706-722 | any other running row is failed as lost and frees what it held |
| TransactionLaws.RecoveredIdle | src/runtime.rs:487-493 | a waiting row frees what it held and a finished one is left alone |
| Recovery.RecoveryIsIdempotent | src/runtime.rs:482-526 | a second recovery changes nothing but update times and Recovered events of running rows |
| Recovery.RecoveryKeepsLimits | src/runtime.rs:501-510 | limits are kept if every running row with a live shim already held a reservation |
| Recovery.RecoveryUsageIsExact | src/runtime.rs:482-526 | what is reserved afterwards is exactly the survivors' held or reconstructed reservations, in every scope and dimension |
| Recovery.RecoveryLimitsExactly | src/runtime.rs:482-526 | limits hold afterwards if and only if the survivors' reservations are within them |
| Recovery.RecoveryBoots | src/runtime.rs:482-526 | for any table and any surviving shims caught anywhere, recovery establishes the lifecycle invariant if and only if no finished row holds a reservation, the survivors have distinct rows, and each can go on from where it was caught |
| Restart.RestartKeepsLife | src/runtime.rs:482-526 | a crash in an orderly lifetime is followed by an orderly one if and only if every shim is caught where it can resume: no waiting row but a flagged one of a shim that is gone, and a running row only with a live shim that it knows, unless the shim is gone or has not read it yet |
| Restart.LifecycleAcrossRestart | src/runtime.rs:482-704 | race-free runs before and after such a crash keep the lifecycle invariant, and finished rows as they are, over both lifetimes |
| Restart.RecoveryKeepsPids | src/runtime.rs:482-526 | recovery keeps that a shim which has not launched has no recorded workload |
| Recovery.RecoveryKeepsLogs | src/repo.rs:471-499 | recovery keeps logs and rows in agreement |
| Restart.FreshServer | src/runtime.rs:124-152 | a server on an empty table satisfies every invariant the run theorems start from |
| Restart.LiveTaskIsLost | src/runtime.rs:495-518 | over all runs: a running task whose shim is alive at the restart is failed by recovery if and only if it was started before it was marked dispatched, and else stays running |
| Restart.UnknownIffStartedUnmarked | src/repo.rs:405-439 | over all runs a running row does not know its shim if and only if it was started before it was marked |
| Restart.UnmarkedForever | src/repo.rs:405-413 | a row that left the queue without a recorded shim never gets one, whatever happens |
| Restart.StepKeepsMarked | src/repo.rs:405-439 | a step keeps every running row's shim recorded if and only if it is not an unmarked start |
| Restart.RunKeepsRecords | src/runtime.rs:680-684 | in every interleaving a recorded process id is that of the row's own shim |
| Restart.RecoveryKeepsRecords | src/runtime.rs:482-526 | recovery keeps these records and leaves no running row without one |
| Witnesses.LiveTaskDeclaredLost | src/runtime.rs:512-514 | a run with such a start, whose supervised task recovery fails |
| SecondShim.CrashIsSafe | src/runtime.rs:487-493 | where the rows in question fit next to the recovered reservations, every continuation of a crash keeps at most one shim per row if and only if the crash catches no shim whose row is accepted and not flagged |
| SecondShim.SafeCrash | src/runtime.rs:585-602 | the safe half without that condition: accepted rows that a kill has flagged may be caught anywhere |
| SecondShim.RecoveryStarts | src/runtime.rs:482-526 | recovery yields a start of the one-shim theorem if and only if the survivors have distinct rows, none of them accepted and unflagged |
| SecondShim.UnsafeCrash | src/runtime.rs:585-684 | an accepted unflagged row of a survivor that fits next to the recovered reservations gets a second shim in some continuation |
| SecondShim.WantedIsSpawned | src/runtime.rs:268-328 | in any idle state an accepted unflagged row that fits can be given a shim: kills clear the rest of the queue and the next cycle takes it |
| Witnesses.CrashSpawnsTwice | src/runtime.rs:487-493 | a crash between spawn and mark gives the row a second shim after recovery |
| Drain.QueueDrains | src/runtime.rs:549-707 | n rounds of "active tasks complete, one dispatch cycle" empty a queue of n, whatever the completions and spawn results are |
| Drain.RoundMakesProgress | src/runtime.rs:604-635 | each round strictly shortens a non-empty queue and keeps every waiting row admissible |
| Admission.RunKeepsAdmission | src/runtime.rs:185-193 | in every interleaving each row was admitted at submit time, stored reservations ask for one slot and the row's own memory and processes, and only the dispatcher's current or an aborted row is accepted with a reservation |
| Admission.ShiftsDrainQueue | src/runtime.rs:549-707 | the drain theorem over runs of the protocol: n rounds, each any interleaved work without submissions that ends with no reservation held and then a dispatch cycle, empty a queue of n |
| Admission.ShiftShortensQueue | src/runtime.rs:604-635 | each such round strictly shortens a non-empty queue |
| Admission.ReachableQueueDrains | src/runtime.rs:185-193 | the table rounds above, from every reachable state with an idle dispatcher and no aborted iteration |
| Admission.RecoveryKeepsAdmission | src/runtime.rs:482-526 | recovery restores these hypotheses |
| Ledger.AdmissionIsFittingEmpty | src/ledger.rs:51-118 | passing the admission check is the same as fitting an empty counter, and the same as every dimension fitting on its own |
| Dispatch.DecisionsAreFirstFit | src/runtime.rs:549-707 | the decisions of a cycle with saturating incremental counters equal first fit with exact sums, for any limits, list and spawn outcomes, where a limit of 2^64 - 1 refuses nothing |
| DispatchLaws.CycleCarriesDecisions | src/runtime.rs:586-704 | every listed row of the table a cycle leaves is what the decision taken for it makes of it |
| DispatchLaws.CycleReservesFirstFit | src/runtime.rs:549-707 | a cycle logs a reservation for exactly the listed rows that first fit admits |
| TransactionLaws.CycleEnds | src/runtime.rs:586-704 | each listed row ends cancelled if it was flagged, running under its new shim with the reservation it wanted or failed with nothing held if the cycle reserved for it, and else as it was |
| TransactionLaws.CycleLeavesTheRest | src/runtime.rs:585-586 | every row not listed is as it was |
| TransactionLaws.WindowIsOldest | src/repo.rs:352-363 | the listing is the oldest accepted rows, as many as there are up to the limit |
| TransactionLaws.UnrunOutcomes | src/runtime.rs:686-703 | the outcomes written without a workload's exit: their status and error code, no duration, no exit |
| Dispatch.DecideIsExact | src/runtime.rs:586-635 | one decision against counters that track exact sums is the exact fit test |
| Dispatch.TenantCounterIsBatch | src/runtime.rs:558-583 | filling the tenant map one reservation at a time gives each tenant the aggregate of its own reservations, and exactly the tenants that hold one |
| Dispatch.RefundTracks | src/runtime.rs:701-702 | the refund after a failed spawn restores the exact global sum and leaves the tenant charged |
| DispatchLaws.OrderFairness | src/runtime.rs:586-704 | in the table a cycle leaves, of two waiting tasks of one tenant the later, asking for at least as much, was reserved only if the earlier was, for any limits and failed spawns |
| DispatchLaws.CycleIsMaximal | src/runtime.rs:549-707 | no listed task left accepted without a reservation could be added within capacity and quota, unless it has a quota and a spawn of its tenant failed, or a listed row was flagged while holding |
| Witnesses.FailedSpawnBlocksTenant | src/runtime.rs:681-703 | maximality needs the spawns of the task's own tenant to succeed |
| Witnesses.LateReleaseLeavesRoom | src/runtime.rs:587-602 | maximality needs that no listed row is both flagged and holding |
| MaximalLimit.MaximalCapacityHolds | src/ledger.rs:121-155 | a memory or process capacity of 2^64 - 1 is kept in exact sums in every run of a new server if and only if there is at most one slot |
| MaximalLimit.OneSlotIsSafe | src/ledger.rs:121-198 | in a scope with at most one slot the exact sum never exceeds 2^64 - 1 in any dimension, in every interleaving |
| CycleRun.DispatchIsRun | src/runtime.rs:549-707 | the sequential dispatch cycle is a run of the protocol |
| CycleRun.DispatchSpawns | src/runtime.rs:678-684 | in that run every row the cycle grants and spawns gets a new shim |
| CycleRun.DispatchKeepsLimits | src/runtime.rs:549-707 | so one call of the dispatch method keeps a table within every enforced limit it was within |
| QueueBound.QueueStaysBounded | src/runtime.rs:195-201 | with at most K >= 1 submitters between check and insert, accepted rows never exceed max_queued + K - 1 |
| QueueBound.WindowCoversQueue | src/repo.rs:352-363 | with one submitter at a time the dispatcher's LIMIT window is the whole accepted queue |
| QueueBound.QueueBoundIsTight | src/runtime.rs:195-246 | for every K >= 1 and every configuration that admits some request the bound is attained with at most K submitters in flight |
| Ledger.ResourceLedger.ReservedCapacity | src/ledger.rs:201-234 | the accumulating loop yields, per dimension, the exact sum cut off at 2^64 - 1, present when capped or requested |
| Ledger.IncrementalIsBatch | src/runtime.rs:1357-1366 | adding one reservation to a list's aggregate gives the aggregate of the longer list |
| Ledger.ReservedIgnoresOrder | src/ledger.rs:201-234 | the aggregate does not depend on the order of the list |
| Ledger.SubtractUndoesAdd | src/runtime.rs:1357-1378 | subtracting what was just added restores a dimension, absent counting as zero, if and only if the addition did not saturate |
| Ledger.ReservedPlusAvailable | src/ledger.rs:237-265 | reserved plus available is the limit if and only if reserved is within it |
| Ledger.AdmitsIsExact | src/ledger.rs:121-198 | the saturating admission test says that each dimension with a limit below 2^64 - 1 fits exactly |
| Ledger.SaturatedLimitOverGrants | src/ledger.rs:121-155 | two reservations whose exact sum exceeds the limit 2^64 - 1 are both admitted |
| Service.RuntimeService.RuntimeResources | src/runtime.rs:383-466 | the response shows the aggregate, what is left of it, every active reservation, the number of waiting tasks, and every tenant with a reservation or a quota exactly once with its own aggregate and what is left of its quota |
| Resources.TenantViews | src/runtime.rs:408-453 | the map filled in place holds exactly these tenants with these aggregates |
| Resources.ViewBalances | src/runtime.rs:436-453 | a tenant's entry shows its quota, and used plus available is the quota in exact sums while the use is within it, else nothing is available |
| Table.WaitingCount | src/repo.rs:394-402 | the waiting count is the number of accepted rows without a reservation in force |
| Resources.EveryActiveTaskIsShown | src/runtime.rs:393-406 | each listed active row is shown once, with its own status and reservation |
| Resources.ViewAgreesWithDispatcher | src/runtime.rs:408-453 | the view and the dispatcher's tenant map agree up to absent versus zero |
| Resources.TenantsPartition | src/runtime.rs:408-453 | exact tenant shares plus the untenanted rest are the whole |
| Resources.ReportedPartition | src/ledger.rs:201-234 | the reported tenant amounts plus the untenanted rest are the reported global amount when the whole does not saturate |
| Supervisor.SuperviseWait | src/runtime.rs:1119-1183 | over any polls the supervisor records the timeout at the first poll past the wall time, sends TERM at the first poll that sees timeout or flag and KILL at the first poll a grace period later, each at most once, TERM first, and returns the completion those polls determine |
| Supervisor.RecordedMeans | src/runtime.rs:1158-1178 | a recorded trace holds each effect once, at its recorded time, and no TERM after KILL |
| Supervisor.KillWaitsForGrace | src/runtime.rs:1167-1178 | in the emitted trace every KILL comes a grace period or more after the first poll that saw the wall time over or the flag set, and after the TERM sent at that poll |
| Supervisor.TimeoutDeadlines | src/runtime.rs:1119-1183 | in the emitted trace, with polls at most d apart, a process alive past its wall time has been sent TERM by wall + d and KILL by wall + grace + 2d |
| Supervisor.CancelDeadlines | src/runtime.rs:1119-1183 | the same of the emitted trace from the time the kill flag commits |
| Watching.WatchFollowsSupervisor | src/runtime.rs:1156-1164 | however other actors interleave, a shim's position after its polls is the supervisor's record of them |
| Watching.SupervisionIsStored | src/runtime.rs:1139-1155 | the row finally stores the completion SuperviseWait returns for the same polls |
| Watching.StoredOutcome | src/runtime.rs:1139-1155 | that row then reports, code by code, what the times of the polls, the flags read and the exit call for, with the exit's own code, signal and duration, and holds nothing |
| Completion.Classify | src/runtime.rs:1196-1293 | each error code exactly when it applies, in the order timeout, cancellation, memory, processor time, exit code, anything else; success exactly without error; the exit's code, signal and duration carried over |
| QuotaParser.ParseTenantQuota | src/runtime.rs:1747-1811 | succeeds exactly on what the text denotes and returns it; an error is a missing '=', an empty name, the first broken part, or missing slots |
| QuotaText.DenotesIsReads | src/runtime.rs:1747-1811 | a text denotes a quota if and only if, read as text, it has a non-blank name before the first '=', then only blank parts and parts whose trimmed key is slots, memory or pids and whose trimmed value is an optional plus sign and digits below 2^64, the last part of each key giving its amount, slots among them |
| QuotaText.BadPairIsRefused | src/runtime.rs:1772-1796 | a part with another key, or with a value that is no such number, wherever it stands in a printed specification, is an error |
| QuotaText.MissingColonIsRefused | src/runtime.rs:1765-1771 | so is a non-blank part without a colon |
| QuotaText.PairIsLegal | src/runtime.rs:1772-1796 | a printed key and value with any white space around them are legal if and only if the key is one of the three and the value is a number |
| QuotaText.BrokenMeans | src/runtime.rs:1765-1796 | which error a broken part is: no colon, an unknown key, or a bad value for a known one |
| QuotaText.TrimIsExact | src/runtime.rs:1754-1773 | trimming takes white space off both ends and nothing else |
| QuotaText.SpacesAre | src/runtime.rs:1754-1773 | which characters count as white space |
| QuotaText.SplitIsExact | src/runtime.rs:1764-1765 | splitting cuts at every comma and nowhere else |
| QuotaParser.LastMeans | src/runtime.rs:1765-1797 | of duplicate keys the last wins |
| QuotaParser.PrintRoundTrip | src/runtime.rs:1747-1811 | printing any settings in any order with any padding denotes exactly the last setting of each dimension |
| QuotaParser.OversizeIsRefused | src/runtime.rs:1776-1791 | a number of 2^64 or more anywhere spoils the specification |
| QuotaParser.NumberRoundTrip | src/runtime.rs:1776-1791 | a printed number parses back exactly up to 2^64 - 1 |
| Metrics.RenderHistogram | src/metrics.rs:44-62 | sort, partition point and saturating fold give, for the bounds of the code, the number of durations within each bound, the capped exact sum and the number of durations |
| Metrics.CountIsCardinality | src/metrics.rs:44-62 | a bucket is the number of durations within its bound |
| Metrics.BoundsIncrease | src/metrics.rs:6-7 | the nine bounds increase |
| Metrics.PartitionPoint | src/metrics.rs:47-48 | binary search on a sorted list finds the plain count |
| Metrics.HistogramIgnoresOrder | src/metrics.rs:44-62 | permuting the durations changes nothing |
| Metrics.BucketsAreCumulative | src/metrics.rs:44-62 | bucket values are non-decreasing and at most the +Inf count |
| Policy.ResolveExecutionPlan | src/policy.rs:13-166 | the step-by-step negotiation yields the plan that the list of shortfalls determines, or in strict mode the first of them |
| PlanLaws.LimitsAreAccountedFor | src/policy.rs:105-157 | every plan enforces each requested processor, memory and process limit with the requested amount or has its shortfall among the reasons, never both; a limit nobody asked for is neither |
| PlanLaws.UndegradedEnforcesAll | src/policy.rs:105-157 | a plan that is not degraded enforces every requested limit |
| PlanLaws.EnforcedIsSupported | src/policy.rs:105-117 | each enforcement, cgroup and memory-kill flag is set exactly when it is asked for and the host can do it under the profile the sandbox ended with |
| PlanLaws.EffectiveKeepsSupported | src/policy.rs:25-103 | the effective sandbox keeps, field by field, everything requested that the host supports and nothing else |
| PlanLaws.ReasonsExactly | src/policy.rs:13-166 | a plan's reasons are exactly the shortfalls that apply, in the order of the code, and it is degraded exactly when there is one |
| PlanLaws.RefusedExactly | src/policy.rs:13-178 | negotiation fails exactly when something is lacking and policy, default or control context asks for strictness; the error is the first shortfall in order |
| Policy.NamespaceOrFallback | src/policy.rs:181-205 | grants exactly requested and supported, records a reason exactly when requested, unsupported and adaptive, errors exactly when strict |
| Policy.StrictIffNotDegraded | src/policy.rs:13-178 | strict succeeds if and only if the adaptive plan is not degraded, and then sandbox and enforcement agree; else its error is the first fallback reason |
| Policy.EffectiveIsSupportedAndStable | src/policy.rs:30-103 | the effective sandbox never exceeds the capabilities, and resolving it again leaves it unchanged |
| Policy.MoreCapabilitiesNeverDegrade | src/policy.rs:13-166 | adding capabilities never degrades a plan that was not, and leaves its sandbox alone |
| Service.RuntimeService.DispatchOnceSync | src/runtime.rs:549-707 | the in-place loop with its local counters leaves the table of the cycle function the laws above are about |
| Service.RuntimeService.HandleListed | src/runtime.rs:586-704 | the loop body's table and counters after one listed row |
| Service.RuntimeService.SubmitTask | src/runtime.rs:178-254 | accepted exactly when validation, plan, capacity, quota, queue, files and name allow it, then appends one accepted row with the name, tenant and limits of the request, the plan's degradation, and no flag, process or reservation; each error names the first check that failed and changes nothing |
| Service.RuntimeService.KillTask | src/runtime.rs:268-328 | refused and finished tasks are unchanged; a permitted live one is flagged, cancelled at once with nothing held if it was waiting, and else kept running with its reservation for the signals |
| Service.KilledRowFacts | src/runtime.rs:297-326 | what KillTask leaves: the flag is set, a waiting row is cancelled and holds nothing, a running row keeps running with its reservation |
| Service.RuntimeService.CollectGarbage | src/runtime.rs:710-738 | exactly the finished rows with a finish time at or before the cutoff whose directory could be removed are deleted, every other row is unchanged |
| Repository.Repository.ListWhere | src/repo.rs:366-377 | exactly the matching rows, oldest first |
| Repository.Repository.ListAccepted | src/repo.rs:352-363 | the oldest accepted rows up to the limit |
| Repository.Repository.ListActiveReservations | src/repo.rs:380-391 | the tenant and reservation of every active row |
| Repository.Repository.CountAccepted | src/repo.rs:332-349 | the length of the accepted listing |

The transactions themselves are methods of the class `Repository.Repository`, each proved to leave the
table of the `Commit` the laws above speak of: `InsertTask` (`src/repo.rs:207-294`), `MarkDispatched`
(405-413), `MarkStarted` (416-439), `ReserveResources` (442-468), `ReleaseResources` (471-499),
`SetCancelRequested` (502-520), `MarkTimeoutTriggered` (523-540), `CancelAcceptedTask` (543-604),
`CompleteTask` (607-683) and `MarkRecoveredTask` (686-703).

## Left out

- Row identity: a row is identified by its place in insertion order, which is also its creation order. Reuse of a task id after garbage collection and creation times that tie or run backwards are not modelled.
- InsertTask: the task id is modelled by the field `name`, which only the uniqueness check reads.
- CollectGarbage: candidates are visited in insertion order, not by finish time; the result does not depend on it.
- RuntimeResources: active reservations are shown in insertion order; the runtime id and the configured capacity of the response are constants and left out.
- ListActiveReservations: the order by reservation time is not modelled; the aggregate does not depend on it (`Ledger.ReservedIgnoresOrder`).
- DispatchOnceSync: all transactions of one cycle share one clock reading; no other actor runs during it. Interleavings are the subject of `Protocol`.
- HandleListed: a listed row that has disappeared ends the cycle in the source, here its writes do nothing; in a cycle without interference no listed row disappears, and `Protocol` ends the cycle.
- SuperviseWait: one clock reading serves the whole poll; signals are recorded, not delivered.
- KillTask: the direct SIGTERM to a running workload and its timed escalation appear only as the outcome `Signalled`; the owner check is an arbitrary predicate on the row.
- SubmitTask: field validation and the writing of task files are arbitrary outcomes; generated ids and the stored copies of the request are not modelled.
- QuotaParser.ParseTenantQuota: error messages are reduced to their kind.
- Metrics.RenderHistogram: the numbers are modelled, not the text around them; the library's sort is a function with its contract.
- Policy.NamespaceOrFallback: after a strict error the draft plan is discarded, so nothing is said about it.
- Recovery.Recover: recovery runs with no shim acting during it and a fixed answer to which process ids exist.
- SecondShim.CrashIsSafe: a survivor's row that does not fit next to the recovered reservations can get a second shim only once some of them are released; when that can happen is not stated.
- MaximalLimit.MaximalCapacityHolds: speaks of the capacity; of a tenant quota of 2^64 - 1 only the safe half is stated (`MaximalLimit.OneSlotIsSafe`).
- Liveness beyond the drain theorem: a large task can be overtaken indefinitely by small ones.
- A row whose dispatch iteration a storage error cut short stays accepted with its reservation until the next recovery; the state lists such rows as stranded.
- Process id and process group are one field; resource usage, paths, script paths and result JSON of a row are not modelled.
- The cancelled error code is called `KillError`, to keep it apart from the status of that name.
- SQLite, JSON, schema migration, HTTP, the command line, remote calls and tracing.
- Host probing: capabilities are an arbitrary value. System calls (spawn, wait, signals, limits, namespaces, cgroups, files) appear as arbitrary outcomes of steps.
- Validators, default values and the text encoding of enumerations: finite and easy.
