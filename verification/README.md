# Scan credits and scan lifecycle, verified

A Dafny model of the part of Cafe Discovery that accepts a scan, spends a quota credit for it, drives it to one
terminal state and gives the credit back when the scan is lost. `dafny verify dfyconfig.toml` checks the project.

| file | what it covers |
|---|---|
| `Domain.dfy` | scan ids, kinds, the scan state machine |
| `Ledger.dfy`, `LockKey.dfy`, `PlanLimits.dfy` | the usage ledger, its counts and reservation, the advisory-lock key, the plan's limits |
| `QuotaProtocol.dfy` | concurrent reservations, count by count, against row creation, transitions, releases and soft deletes: the quota bound |
| `ParallelProtocol.dfy`, `Overshoot.dfy` | the parallel cap over the same steps: how far it can be exceeded, when it cannot, and the exact condition |
| `PlanUsage.dfy` | what the usage answer counts, with its reads at different moments |
| `AcceptProtocol.dfy` | concurrent `POST /discovery/v1/scan` requests with scanners, abandoner, persistence and user deletes as interleaved steps: saga atomicity, reservation exclusion |
| `AcceptOutcomes.dfy` | over every continuation of those runs: when a credit can come back, when a lost record blocks a wallet, what a stall or a delete breaks |
| `AcceptHandler.dfy` | the handler's code for one request; its history is a run of the machine in `AcceptProtocol.dfy` |
| `Address.dfy`, `WalletCommand.dfy` | address normalisation; lifecycle message to persistence command |
| `Settlement.dfy`, `LifecycleProtocol.dfy` | one delivery's attempts and disposition; all deliveries, redeliveries, lost replies and crashes together |
| `Abandoner.dfy` | which lost scans are reported, against the history of observations |
| `Presence.dfy` | the scanner roster, against the trace of events |
| `ScanDeletion.dfy`, `DeleteHandler.dfy` | concurrent deletes, call by call, with results arriving in between; the handler's code as a run of that machine |
| `ChainIds.dfy` | chain configuration, export and detail agree on chain ids |

## Findings

- **The parallel cap is not kept.** In-flight rows are counted before open reservations, so a reservation whose row
  appears between the two reads is counted in neither. `CapHoldsIff`: every run, and every run from an empty system,
  keeps the cap if and only if the plan's limit is 1, 2 or 3 (where the quota bound does the work). `GapGrants` gives
  the failing schedule for every such state, `OvershootIsBounded` the bound for every run (2n <= 3 cap + 2, so at most
  five scans for a cap of three), `FifthFromEmpty` that five is reached, and `GapFreeRunsKeepTheCap` that the cap holds
  in every run in which no row of the pair is created between the two reads, in particular when the reservation is one
  atomic step.
- **`deleted_by_user` counts more than deletes, and can be negative.** README.md:2009 of the repository documents it as
  successes hidden by the user. The code reports used minus visible, which also counts every reservation that has not
  succeeded (`DeletedByUserCounts`, with the condition under which the two agree). The two counts are separate reads:
  `DeletedByUserOverRuns` gives the value over any run between them and shows that it is not negative if no reservation
  of the pair is granted in between. `NeverNegativeIff` gives the exact condition at the first read: the answer cannot
  become negative if and only if the plan is limited and its limit is at most the credits plus the hidden successes;
  otherwise `AnswerCanBeNegative` has a run that makes it -1.
- **A request that stalls is accepted without its credit.** Between the charge and the publish the scan is reserved and
  not queued, which is what the abandoner looks for. `StalledAcceptance`: from every state with a charged request whose
  report the abandoner has not lost, there is a run that accepts it after its credit was returned.
  `AcceptedWithEverything`: this is the only way to be accepted without credit or pending entries.
- **Some credits can never come back.** `CreditComesBackIff` says which, in every reachable state: those of scans in a
  terminal state, and those of scans that are neither queued nor with a scanner, have no failure in the stream and no
  request under way, and that the abandoner does not report: wallet scans without a usable pending record, and, until
  Discovery restarts, scans it remembers to have reported. `RollbackSticks` (the release fails, the record is deleted)
  and `DeleteSticks` (the user deletes a queued scan, the scanner dies) reach the first kind. `LostReportSticks` reaches
  the second: the report on a TLS scan goes out without acknowledgement, is lost, and is not repeated.
- **A pending record that is left behind blocks the wallet for good if the abandoner cannot reach its scan.**
  `LostRecordIsReached` leaves such a record from any start; `LostRecordBlocks`: if the scan is neither in the ledger nor
  has a row, no later request for the wallet gets past the reservation in any continuation. `LostRecordFrees` is the
  other half, and `LostRecordBlocksIff` puts them together.
- **Deleting a running scan frees its wallet.** `ReservationExclusion` holds for all scans but those their user deleted,
  and `DeleteFreesTheWallet` accepts a second scan of the same wallet while the deleted one still runs.
- **A 204 need not last.** Deleting a requested scan removes its pending record and stops nothing: its result appears
  later (`RequestedScanReturns`), or even before the answer. `DeletedForGoodIff` states exactly when a 204 stays a 404.
- **A removed row can leave the scan shown as requested.** A delete that finds the row gone answers 404 without clearing
  the pending record: one delete is enough if the answer to its row delete is lost and the client tries again
  (`LostAnswerLeavesRequested`), or two that race (`RaceLeavesRequested`). `RemovedScanIsRequestedIff` says exactly when,
  in every run: a scan whose row is gone is shown as requested as long as no delete by its user was answered 204 or had
  its last answer lost, and its pending entries were not cleared at the end of the scan.

## What is taken from outside

- Persistence creates a row for a scan at most once and, with plans, only while its id is reserved (besides catalog
  rows); it keeps the ledger row of a scan that succeeds and releases it for one that fails. A lifecycle command is one
  compare-and-set on its source states, deduplicated by transition id, with the outcomes the settler switches over.
- Scan ids, of accepted and of catalog scans, are fresh; a plan's limit does not change during a run.
- An error from publishing means that no message was stored. Every other call that changes a store may take effect and
  report an error.
- `DeleteWalletReservation` deletes only if the reservation still names the scan. `Delete` of a scan id removes the
  pending record and the reservation that names it. Pending entries stay until the rollback, the user or the end of the
  scan removes them.
- The abandoner's grace only delays it, and any request or scanner can be slower. It forgets what it reported when
  Discovery restarts.
- A scan has one id in one of the two result tables; the client tries to delete a row twice and a pending record once.
- The ledger index is unique per scan id and the advisory lock is held to the end of the transaction (the Postgres
  path); the lock key of a pair is modelled bit by bit in `LockKey.dfy`.
- Clocks, decoded message bodies, policy answers, heartbeats and every service failure are inputs.

## Model

| member | source | states |
|---|---|---|
| Domain.PathsEndAtFirstTerminal | pkg/scan/state.go:14-38 | a state history along valid transitions has a terminal state only at its end and at most three states |
| Domain.TransitionsAreExact | pkg/scan/state.go:21-38 | terminal are exactly the states with no way out; every other state can reach all of them; a scan starts once |
| LockKey.FoldInjective | internal/repository/scan_usage_ledger_repository.go:401-403 | folding four bytes into an int32 loses nothing |
| LockKey.FoldIsOnto | internal/repository/scan_usage_ledger_repository.go:401-403 | every int32 is the fold of four bytes |
| LockKey.SameKeyIff | internal/repository/scan_usage_ledger_repository.go:385-403 | two (user, kind) pairs share a lock iff their first seven bytes agree and the eighth agrees after the kind's xor |
| LockKey.KindsNeverCollide | internal/repository/scan_usage_ledger_repository.go:385-403 | one user's kinds never block each other, and the same pair always serialises |
| Ledger.SnapshotIsExact | internal/repository/scan_usage_ledger_repository.go:278-361 | ledger plus extra counts every credited or in-flight scan once; in-flight plus open counts every parallel scan once |
| Ledger.InFlightIsUnfinished | internal/repository/scan_usage_ledger_repository.go:302-319 | in flight are exactly the states a scan can still leave |
| Ledger.FirstRecordStays | internal/repository/scan_usage_ledger_repository.go:82-96 | a scan is credited once, to the first who records it |
| Ledger.LedgerRepository.LoadScanQuotaSnapshot | internal/repository/scan_usage_ledger_repository.go:278-300 | without interference the four counts are the sizes of those sets |
| Ledger.LedgerRepository.ReserveScanUsage | internal/repository/scan_usage_ledger_repository.go:201-243 | denies by quota, then by parallel cap, exactly at the bounds; only a granted reservation changes the ledger |
| Ledger.OpenNotionsRelate | internal/repository/scan_usage_ledger_repository.go:249-266 | the abandoner's open list is the parallel cap's open set plus exactly the reserved scans with an unfinished or hidden row |
| QuotaProtocol.EnvironmentShrinks | internal/repository/scan_usage_ledger_repository.go:245-247 | releases, row creation for reserved ids, transitions and soft deletes never grow the used set |
| QuotaProtocol.ExclusiveStep | internal/repository/scan_usage_ledger_repository.go:374-383 | at every step at most one reservation per pair is between its lock and its end |
| QuotaProtocol.GrantHasRoom | internal/repository/scan_usage_ledger_repository.go:224-240 | counts read at four different moments still leave room for the granted scan |
| QuotaProtocol.QuotaStep | internal/repository/scan_usage_ledger_repository.go:201-300 | every step of every reservation and of the environment keeps the quota invariant |
| QuotaProtocol.QuotaStart | internal/repository/scan_usage_ledger_repository.go:201-300 | every state within the bound and without a reservation under way is a start for the quota bound |
| QuotaProtocol.QuotaIsNeverExceeded | internal/repository/scan_usage_ledger_repository.go:201-300 | every run of interleaved steps keeps the used scans of a limited plan within the limit |
| ParallelProtocol.OvershootIsBounded | internal/repository/scan_usage_ledger_repository.go:285-298 | in every run the parallel scans n satisfy 2n <= 3 cap + 2 |
| ParallelProtocol.QuietStart | internal/repository/scan_usage_ledger_repository.go:285-298 | every state within the cap and without a reservation under way is a start for these bounds |
| ParallelProtocol.GapFreeRunsKeepTheCap | internal/service/plan.go:220-228 | a run in which no row of the pair appears between the two reads keeps the cap |
| Overshoot.UndisturbedIsAtomic | internal/repository/scan_usage_ledger_repository.go:201-243 | the steps of a reservation nobody disturbs amount to the one-step reservation |
| Overshoot.GapGrants | internal/repository/scan_usage_ledger_repository.go:285-298 | from every state with enough open reservations and quota, rows created in the gap get one more scan granted |
| Overshoot.FifthScan | internal/repository/scan_usage_ledger_repository.go:285-298 | from three open reservations a run reaches five parallel scans, the bound for a cap of three |
| Overshoot.FifthFromEmpty | internal/repository/scan_usage_ledger_repository.go:285-298 | an empty system reaches five parallel scans under every plan of five or more and every unlimited one |
| Overshoot.SmallPlansKeepTheCap | internal/service/plan.go:220-228 | with a limit of one to three the quota bound keeps the cap in every run |
| Overshoot.CapHoldsIff | internal/repository/scan_usage_ledger_repository.go:224-298 | every run, and every run from an empty system, keeps the cap if and only if the limit is between one and three |
| PlanUsage.CreditedRun | internal/service/plan.go:88-144 | every disciplined run keeps rows and credits consistent: same user, same kind, successes reserved |
| PlanUsage.CreditsPartition | internal/service/plan.go:88-144 | credits are visible successes, hidden successes and unsuccessful reservations, disjointly |
| PlanUsage.DeletedByUserCounts | internal/service/plan.go:127-133 | read in one state, used minus visible is the hidden successes plus the unsuccessful reservations; it is the documented number iff every reservation succeeded |
| PlanUsage.DeletedByUserOverRuns | internal/service/plan.go:101-133 | over any run between the two reads: its exact value, and that it is not negative if nothing is granted to the pair in between |
| PlanUsage.NeverNegativeIff | internal/service/plan.go:101-133 | from a quiet state within quota, no run between the two reads makes it negative iff the plan is limited and its limit is at most the credits plus the hidden successes |
| PlanUsage.AnswerCanBeNegative | internal/service/plan.go:101-133 | otherwise scans that fail, are released, granted and finished between the two reads make it -1 |
| PlanUsage.UsedPlusLeft | internal/service/plan.go:310-319 | in every run of a limited plan, used plus left is the limit, whatever the later reads see |
| PlanUsage.GrantCostsOne | internal/service/plan.go:232-319 | a grant lowers left by one for its pair and leaves every other pair alone |
| PlanUsage.UsageAddsUp | internal/service/plan.go:127-141 | for any three reads every field of the answer: visible and deleted make up used, the plan's limit, and what is left in each case |
| PlanUsage.AppearingRowIsInFlight | internal/service/plan.go:101-138 | the row of an open reservation adds one in flight and changes nothing else |
| PlanUsage.SucceedingRowIsVisible | internal/service/plan.go:101-138 | its success moves one from in flight to visible |
| PlanUsage.HiddenSuccessIsDeleted | internal/service/plan.go:101-138 | its deletion moves one from visible to deleted |
| AcceptProtocol.StaleIsDead | internal/handler/discovery.go:413-439 | a reservation of a live scan is always judged blocking |
| AcceptProtocol.WhatBlocks | internal/handler/discovery.go:413-439 | each kind of reservation: no id, a visible row, an undated, foreign or own record, a missing record |
| AcceptProtocol.LatestRowDecides | internal/handler/discovery.go:397-409 | the latest row of the wallet blocks exactly if it is unfinished |
| AcceptProtocol.OtherRowsDoNotCount | internal/repository/scan_result_repository.go:101-108 | rows of others, other wallets, deleted rows and TLS rows make no difference; without a row nothing blocks |
| AcceptProtocol.LatestRowRefuses | internal/handler/discovery.go:394-410 | as a step: the request is refused exactly if results are configured and the latest row is unfinished |
| AcceptProtocol.ReportableScans | internal/service/scan_request_abandon.go:146-182 | what the abandoner can report, field by field |
| AcceptProtocol.InvStep | internal/handler/discovery.go:194-280 | every step of every request, scanner, abandoner, persistence and user keeps the accept invariant |
| AcceptProtocol.SagaAtomicity | internal/handler/discovery.go:194-280 | in every run an accepted scan has one message, its credit unless it failed and its pending entries until it is deleted or over; a rolled-back one has no message, a credit exactly if the release failed and the abandoner has not ended it, and pending entries only if their delete failed |
| AcceptProtocol.AcceptedWithEverything | internal/handler/discovery.go:240-248 | at acceptance there is one message, and credit and pending entries are in place unless the abandoner failed the scan meanwhile |
| AcceptProtocol.OnlyAcceptedScansLeaveTraces | internal/handler/discovery.go:148-157 | once all requests are answered and compensated, a new id is among the messages, in the ledger or in the pending store iff its request was accepted |
| AcceptProtocol.ReservationExclusion | internal/handler/discovery.go:215-247 | of two unfinished requests for one owner and wallet, being accepted or not yet in a terminal state, one was deleted by its user |
| AcceptProtocol.PurgeHitsOnlyTheStale | internal/handler/discovery.go:370-439 | a purge removes at most the reservation it was judged on, and never a live scan's |
| AcceptOutcomes.CreditComesBackIff | internal/service/scan_request_abandon.go:111-182 | in every reachable state, with and without later restarts, a credit can still come back iff its scan is not over and is queued, with a scanner, reported failed, under a request, or one the abandoner will report |
| AcceptOutcomes.RollbackSticks | internal/handler/discovery.go:148-157 | a rollback whose release fails and whose record delete succeeds leaves a wallet credit that never comes back |
| AcceptOutcomes.DeleteSticks | internal/handler/discovery_v1_scans.go:539-545 | so does a user's delete of a queued wallet scan whose scanner dies |
| AcceptOutcomes.LostReportSticks | internal/service/scan_request_abandon.go:154-158 | a TLS scan lost by its scanner and whose report is lost keeps its credit until a restart, and only until then |
| AcceptOutcomes.StalledAcceptance | internal/handler/discovery.go:240-248 | every charged request whose report was not lost has a run in which it is accepted after its credit was returned |
| AcceptOutcomes.DeleteFreesTheWallet | internal/handler/discovery_v1_scans.go:522-545 | deleting an unfinished wallet scan lets a second one of the same wallet be accepted while the first runs |
| AcceptOutcomes.LostRecordBlocks | internal/handler/discovery.go:154-156 | a record left by a rollback whose scan is neither in the ledger nor has a row keeps the wallet from every later request in every continuation |
| AcceptOutcomes.LostRecordIsReached | internal/handler/discovery.go:148-157 | a failed publish with a release that works and a record delete that does not leaves such a record, from any start |
| AcceptOutcomes.LostRecordFrees | internal/handler/discovery.go:370-439 | otherwise, while its reservation stands and no row of the wallet is in flight, the wallet can still be taken |
| AcceptOutcomes.LostRecordBlocksIff | internal/handler/discovery.go:154-156 | both halves as one condition |
| AcceptHandler.DiscoveryHandler.PendingWalletReservationState | internal/handler/discovery.go:413-439 | blocks exactly as the machine judges; an error only when the row cannot be read |
| AcceptHandler.DiscoveryHandler.Reserve | internal/handler/discovery.go:223-270 | a wallet's pending entries are put only if the address is free, a TLS record always |
| AcceptHandler.DiscoveryHandler.ReserveScanQuota | internal/handler/discovery.go:122-146 | one credit iff plans are configured and the reservation is granted; otherwise the refusal |
| AcceptHandler.DiscoveryHandler.RollbackScanAccept | internal/handler/discovery.go:148-157 | removes the credit if asked to and the pending entries, each unless its call fails |
| AcceptHandler.DiscoveryHandler.FirstListed | internal/repository/scan_result_repository.go:101-108 | walks the rows and returns the latest visible one of the wallet, none iff there is none |
| AcceptHandler.DiscoveryHandler.CheckWalletScanInFlight | internal/handler/discovery.go:370-411 | lets the request through iff the reservation is absent or stale and the newest row is not in flight; removes at most a stale reservation |
| AcceptHandler.DiscoveryHandler.PrepareWalletScanQueue | internal/handler/discovery.go:318-368 | passes iff the address is valid, the check passes and no policy covers the wallet |
| AcceptHandler.DiscoveryHandler.AcceptScan | internal/handler/discovery.go:223-248 | accepted iff every call goes through, with one message, one credit and the pending entries; otherwise everything is as before where the compensations succeed |
| AcceptHandler.DiscoveryHandler.PostWallet | internal/handler/discovery.go:214-249 | the exact condition of acceptance for a wallet and the whole new state |
| AcceptHandler.DiscoveryHandler.PostTLS | internal/handler/discovery.go:250-280 | the exact condition of acceptance for an endpoint and the whole new state |
| AcceptHandler.DiscoveryHandler.PostScan | internal/handler/discovery.go:194-280 | the answer in every case, status by status; accepted iff admitted, reserved, charged and published; a refusal changes nothing but a stale reservation if compensations succeed; the history stays a run of the machine |
| Address.WrittenIsAccepted | internal/address/address.go:9-38 | forty hex digits in any case, with or without 0x or 0X, in any white space, give 0x and the digits in lower case |
| Address.AcceptedIsWritten | internal/address/address.go:9-38 | nothing else is accepted |
| Address.AcceptedIsFixed | internal/address/address.go:9-38 | an accepted address is a fixed point of normalisation |
| Address.AcceptedDigits | internal/address/address.go:17-38 | an accepted address is 0x and forty digits in 0-9a-f, each of the same value as the digit written |
| Address.SameAddressIff | internal/address/address.go:9-38 | two spellings are accepted as one address iff their forty digits have the same values |
| Address.SpacesAreExact | internal/address/address.go:18-18 | the white space that is trimmed, character by character |
| WalletCommand.TransitionIdInjective | internal/service/wallet_command.go:125-135 | distinct stream positions never share a transition id |
| WalletCommand.DecimalReadsBack | internal/service/wallet_command.go:128-128 | the decimal form of a sequence reads back as that number, without leading zeros |
| WalletCommand.CommandsFollowTheStateMachine | internal/service/wallet_command.go:53-135 | a command's sources are exactly the states from which its target is a valid transition; it releases iff FAILED and keeps iff SUCCESS; its address is normal |
| WalletCommand.CommandSaysWhatTheMessageSays | internal/service/wallet_command.go:53-135 | which messages are wallet commands, foreign or invalid, and per subject the command's target, quota action, result, error, scan, user, address and id |
| Settlement.Settle | internal/service/wallet_lifecycle.go:89-164 | one disposition per delivery: nak without metadata, ack for foreign messages, term for invalid ones; for a command, ack, term, nak, their reasons and the second apply each with its exact condition on the replies |
| Settlement.Attempts | internal/service/wallet_lifecycle.go:121-171 | at most two applies of one command and one disposition, none iff the wait is interrupted; terminal acks need a ready projection; term iff rejected; retryable iff both attempts were |
| Settlement.LogSettles | internal/service/wallet_lifecycle.go:121-164 | the decisions of the attempt loop amount to those conditions |
| LifecycleProtocol.InvStep | internal/service/wallet_lifecycle.go:89-164 | every step, crashes and lost replies included, keeps the lifecycle invariant |
| LifecycleProtocol.ExactlyOnceEffects | internal/service/wallet_command.go:78-135 | in every run a scan's states form a valid path with at most one terminal state, and its credit is released once iff that state is FAILED, otherwise never |
| LifecycleProtocol.AcksAreEarned | internal/service/wallet_lifecycle.go:127-164 | an acknowledged wallet message has had its effect, or its scan had already moved past it |
| LifecycleProtocol.TerminalIsFinal | pkg/scan/state.go:21-38 | once terminal, a scan's state never changes in any continuation |
| LifecycleProtocol.StatesAreAnnounced | internal/service/wallet_command.go:53-104 | in every run a scan is RUNNING, SUCCESS or FAILED only if a scan.started, scan.completed or scan.failed about it was published |
| LifecycleProtocol.CanBeAcknowledged | internal/service/wallet_lifecycle.go:121-164 | from every reachable state an unsettled message about a known scan can be acknowledged |
| LifecycleProtocol.OthersAreSettledAtOnce | internal/service/wallet_lifecycle.go:101-119 | foreign messages are acknowledged and invalid ones terminated, without an effect |
| Abandoner.HistoryExplains | internal/service/scan_request_abandon.go:52-86 | the two maps hold exactly what the history of observations says |
| Abandoner.DueExactly | internal/service/scan_request_abandon.go:52-80 | a scan is due iff it is unreported and has been open and unqueued at every call since one at least the grace period ago |
| Abandoner.MissingMeans | internal/service/scan_request_abandon.go:56-64 | missing is open and not queued; what is queued, not open or already reported is never due |
| Abandoner.StateIsBounded | internal/service/scan_request_abandon.go:52-86 | after every call the reported ids are among the watched ids, and those among the open ones |
| Abandoner.UnsentStaysDue | internal/service/scan_request_abandon.go:111-130 | a due scan that was not reported is due again at the next call while it stays missing |
| Abandoner.PublishAbandonedScan | internal/service/scan_request_abandon.go:146-182 | published iff it is an endpoint or has a usable pending address, and the publish succeeds |
| Abandoner.PassReports | internal/service/scan_request_abandon.go:120-129 | a pass reports only scans it can address, all of them unless it stops, and it stops iff a publish fails |
| Abandoner.ScanRequestAbandoner.Due | internal/service/scan_request_abandon.go:52-80 | the loops return the due rows in order and keep the maps equal to the replayed history |
| Abandoner.ScanRequestAbandoner.PublishMissing | internal/service/scan_request_abandon.go:111-130 | marks exactly the rows published before the first failure, which are rows that were returned as due |
| Abandoner.ScanIDsFromPayloads | internal/service/scan_request_abandon.go:132-144 | the set of decodable ids other than nil |
| Presence.RosterRefinesTrace | internal/service/scanner_presence.go:113-174 | a scanner is in the roster iff its last event is a join and, for a wallet, no later sweep found it silent; wallet metadata has the same keys |
| Presence.SweepsCompose | internal/service/scanner_presence.go:158-174 | sweeping twice is sweeping at the later time, and TLS scanners are untouched |
| Presence.LastWordCounts | internal/service/scanner_presence.go:113-174 | joins of wallet and TLS scanners are seen and no others, leaving is, and a sweep drops exactly the wallets silent for longer than the window |
| Presence.ListedIsUp | internal/service/scanner_presence.go:199-270 | a listed type names exactly the scanners that are up, so `HasScanner` agrees |
| Presence.ScannerPresenceTracker.HandleMessage | internal/service/scanner_presence.go:113-143 | both maps follow the trace extended by the message |
| Presence.ScannerPresenceTracker.ExpireSilentWallets | internal/service/scanner_presence.go:158-174 | both maps follow the trace extended by the sweep |
| Presence.ScannerPresenceTracker.HasScanner | internal/service/scanner_presence.go:199-214 | true iff the heartbeat key is there or the trace has such a scanner up |
| Presence.ScannerPresenceTracker.OnchainIndexer | internal/service/scanner_presence.go:218-251 | the indexer all living wallets announce, else unknown, whatever the map order |
| Presence.ScannerPresenceTracker.ListScanners | internal/service/scanner_presence.go:255-270 | one entry per present type, with each id once and the right count |
| ScanDeletion.InvStep | internal/handler/discovery_v1_scans.go:466-631 | every call of every delete, answered or not, interleaved with accepted scans, results, returned credits, cleared entries and catalog rows, keeps the invariant |
| ScanDeletion.DeletedForGoodIff | internal/handler/discovery_v1_scans.go:442-463 | after a 204 GET answers 404 in every continuation iff the delete removed a row, or no row is shown and the scan can no longer get one |
| ScanDeletion.RequestedScanReturns | internal/handler/discovery_v1_scans.go:539-545 | every requested scan that can still get its row can be answered 204 and be shown later, or at the moment of the 204 |
| ScanDeletion.RowsGoOnlyWhenCleared | internal/handler/discovery_v1_scans.go:508-532 | in every run a row goes only after its owner's delete was cleared by the policy check, and never a catalog row |
| ScanDeletion.RecordGoneIff | internal/handler/discovery_v1_scans.go:442-463 | in every run a pending record goes only after a cleared delete of its user or the end of its scan; it is gone iff such a delete was answered 204 or had its last answer lost, or the entries were cleared at the end |
| ScanDeletion.RemovedScanIsRequestedIff | internal/handler/discovery_v1_scans.go:442-443 | a scan whose row is gone is shown as requested iff none of these happened, and is missing iff one did |
| ScanDeletion.CatalogIsNeverDeleted | internal/handler/discovery_v1_scans.go:574-591 | no run answers a delete of a catalog row with 204 |
| ScanDeletion.DeletesKeepTheLedger | internal/handler/discovery_v1_scans.go:466-631 | no call of a delete changes the ledger |
| ScanDeletion.DeletesTouchTheirScanOnly | internal/handler/discovery_v1_scans.go:444-463 | no call of a delete touches another scan's row, pending record or reservation |
| ScanDeletion.DeleteFreesTheReservation | internal/handler/discovery_v1_scans.go:444-456 | a delete that took the record away leaves no reservation of its user for the scan, then and ever after |
| ScanDeletion.ShownToItsUser | internal/handler/discovery_v1_scans.go:136-176 | GET shows a scan only to its user under its family, catalog rows to everybody, and the row whenever there is one |
| ScanDeletion.NewScansAreShown | internal/handler/discovery_v1_scans.go:355-395 | an accepted scan is shown as requested, its result once it is there, and to nobody else |
| ScanDeletion.DeleteFindsWhatGetShows | internal/handler/discovery_v1_scans.go:487-506 | the lookup of a delete ends in 404 iff GET would, or for a catalog row |
| ScanDeletion.LostAnswerLeavesRequested | internal/persistence/scanhttp/client.go:140-183 | a row delete whose answer is lost and that is tried again ends in 404 with the scan shown as requested |
| ScanDeletion.RaceLeavesRequested | internal/handler/discovery_v1_scans.go:522-535 | two deletes of one scan can both be answered with an error and leave it shown as requested |
| DeleteHandler.ScanHandler.GetScan | internal/handler/discovery_v1_scans.go:136-176 | shows the row, else the pending scan of the user, else 404; fails iff a needed call fails |
| DeleteHandler.ScanHandler.DeleteScan | internal/handler/discovery_v1_scans.go:466-631 | undisturbed, the status and the whole new state follow from what was found and what the calls answered; the history stays a run of the machine |
| DeleteHandler.StatusMeans | internal/handler/discovery_v1_scans.go:466-631 | each status of a delete with its exact condition |
| ChainIds.Validate | internal/config/chain.go:24-46 | accepts exactly the lists with non-blank names and positive ids, neither repeated |
| ChainIds.ChainIDByNetwork | internal/config/chain.go:49-57 | the name-to-id map, last positive entry winning |
| ChainIds.LastPositiveWins | internal/config/chain.go:49-57 | for any list, exactly the names with a positive id are mapped, each to its last one |
| ChainIds.AcceptedMapIsExact | internal/config/chain.go:49-57 | for an accepted list the map holds exactly the configured pairs |
| ChainIds.AcceptedMapIsInjective | internal/config/chain.go:24-57 | for an accepted list ids are positive and names with one id, or one trimmed form, are one name |
| ChainIds.ResolveChainIDs | internal/walletobservation/export.go:130-148 | strictly increasing and exactly the ids of the known networks |
| ChainIds.IsMultichain | internal/walletobservation/export.go:150-163 | more than one id, or two distinct non-blank trimmed names |
| ChainIds.MultichainMeansTwoNames | internal/walletobservation/export.go:150-163 | for an accepted configuration, multichain is just two distinct non-blank trimmed names |
| ChainIds.ChainIDsForNetworks | internal/handler/discovery_v1_scans.go:224-248 | each numeric or known network's id, in order of first appearance and without duplicates |
| ChainIds.NumbersStandForThemselves | internal/handler/discovery_v1_scans.go:232-245 | a positive number stands for itself whatever the configuration; any other string for its configured positive id |
| ChainIds.DetailAgreesWithExport | internal/handler/discovery_v1_scans.go:224-248 | when no network is a positive number, the detail's ids are a permutation of the export's |

## Left out

- HTTP routing, request bodies, error texts, log lines and metrics: no property beyond field copying. Statuses are modelled as names.
- NATS, Redis, Postgres and gorm: the stream, the queue, the heartbeat key and the tables are sequences, sets and maps; the non-Postgres path without an advisory lock is not modelled.
- `internal/persistence` wire mapping and tenants: the stores stand for one tenant.
- TTLs, if any, inside the pending store: it is outside the repository.
- Hybrid JWT, liboqs, bcrypt, Turnstile: foreign cryptography.
- CBOM builders, result bodies, list endpoints, pagination, wallet-kind mapping and authorisation: small case tables.
- `CheckScanLimit`, `CheckScanLimitFromCounts`, `GetPlanUsageFromCounts`, `TryAcquireSuccessSlot`, `RecordSuccessUsageIfUnderLimitInTx`: not on the accept path.
- TLS cache warming and default-endpoint seeding: driven by start-up and TTLs.
- Status strings outside the six states and the empty one.
- JSON decoding, UUID parsing and integer parsing are inputs; lower-casing is modelled for ASCII letters, which is all that an accepted address can contain.
- `consumed_at` timestamps and the context deadline of each call.
- Sorting by `sort.Slice` is modelled by insertion.
- Whether the quota is granted is an input of the accept machine; `QuotaProtocol.dfy` says when it is.
- The abandoner's timer is an input of the accept machine; `Abandoner.dfy` says when it fires.
