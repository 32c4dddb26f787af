# A verified model of the cross-chain relayer

The relayer moves money for cross-chain swaps. This project models the parts of it whose
correctness is an argument over whole runs, and proves those arguments in Dafny:

* the **submission tracker** (`relayer/src/relay-submission-tracker.ts`), a single-flight
  protocol that every component sending a transaction goes through, with its store, its
  chain adapters and its clients;
* the **HTLC simulators** (`e2e/sim.ts`) and the atomic swap played on two of them;
* the **poll loop**, the block-window **event poller** and the incoming-payment scan;
* the **load runner**'s token bucket and worker pool;
* **Merkle roots** over fragment secrets and **progressive fills**;
* the **decimal printer and parser** for token amounts.

`dafny verify dfyconfig.toml` checks everything.

## How the model is built

| file | content |
|---|---|
| `RelayRecords.dfy` | the tracker's data, and its atomic blocks: the code between two `await`s, as functions |
| `RelayTracker.dfy` | the tracker class, in place on its maps; every method proved equal to its block |
| `RelayRuns.dfy` | the step system that interleaves the blocks, and the invariant of every run |
| `RelaySafety.dfy` | the tracker's promises, as theorems about every run |
| `RelayAnswers.dfy` | what callers are told, against record and evidence |
| `RelayVerdicts.dfy` | how the answers to an operation's polls decide its outcome |
| `RelayRestarts.dfy` | failed records across a restart |
| `RelayFinality.dfy` | the assumption on the chains as a condition on runs, and why it is needed |
| `RelayProgress.dfy` | no operation stuck, every operation short, every caller answerable |
| `RelayStoreRuns.dfy` | runs over a store whose saves may fail and which drops terminal records |
| `RelayReplay.dfy` | the class carries out any legal run |
| `RelayStore.dfy` | snapshot format, memory and file store, pruning |
| `RelayKeys.dfy` | the string keys and when they are faithful |
| `RelayPort.dfy` | the chain lookups and the Ethereum broadcast loop |
| `RefundWatchdog.dfy` | the watchdog scan, and runs of scans, release requests and inline refunds |
| `HtlcSim.dfy`, `AtomicSwap.dfy`, `Sums.dfy` | the simulators, their books, and two-chain swaps |
| `AdaptivePoll.dfy`, `EventPoller.dfy` | the scheduler, the poller on top of it, and the payment scan |
| `LoadRunner.dfy` | rate limiter and worker pool |
| `MerkleFills.dfy` | tree, hash lock, fragments, fills |
| `Amounts.dfy`, `Division.dfy`, `Prelude.dfy` | amounts, and shared helpers |

### The tracker's runs

A step of `RelayRuns` is one atomic block of the code (`Submit`, the settling of a stager, a
broadcast or a poll, the end of a sleep, the settlement callback, the delivery of a result
to a suspended caller), a transaction landing on a chain, or a crash. Any number of callers
and operations interleave. The environment chooses every stager result, broadcast result,
timeout and chain answer. A crash drops operations and callers and restarts from what the
store holds.

Decisions, and the assumptions behind the theorems:

* Lines 727-763 of the tracker are the remains of an older loop that overwrote the head of
  `track`. `track` is modelled by its calls (706, 724), its surviving tail (764-767) and its
  stated purpose (564-565, 688-696): start the operation, register its promise in
  `inflight`, and on settlement remove that entry only if it is still its own.
* Starting a broadcast is a step of its own after the block that records and persists the
  hash, so a crash between the two is included. An operation's settlement, its `inflight`
  clean-up and the delivery to each waiting caller are separate steps too. Every
  interleaving of the code is one of the model's.
  A crash may also fall between the two saves of a re-staging (674-675 and 721-722), the only
  block whose first save alone describes a state of its own.
* Only a broadcast transaction lands. A hash that the tracker gave up, because the chain
  answered `failed`, or `not_found` at the last poll of the budget, has not landed and never
  does. `RelayFinality` states this as a condition on a run's outcome and proves that "at
  most one lands" needs it exactly when there is a confirmer. What breaks it
  need not be the chain: a timed-out broadcast is not cancelled (814-818), and its rate-limit
  retries (`relayer/src/relay-submission-port.ts:129-137`) may send the payload again after the
  hash was given up. Whatever the cause, such a landing is one of a given-up hash. It is an
  assumption on the last answer only, because the code decides from the last answer (876,
  905); the comment at 906,
  "nothing was ever observed on any node we polled", is false of some run for every budget:
  an earlier poll of the same call (`ObservedAndGivenUp`), or an earlier call with a budget of
  its own (`ObservedByAnEarlierCall`), may have seen the transaction. It is true of all runs
  exactly when there is no confirmer (`RelayVerdicts.NeverObservedIffNoConfirmer`).
* In `RelayRuns` saves succeed and nothing is pruned. `RelayStoreRuns` lifts both, for any
  number of restarts: a restart finds any snapshot written since the last one, less what was
  pruned, and a broadcast that a restart lost may still land. As long as the earlier restarts
  remembered, the next one stays safe, over all continuations whose later restarts remember,
  exactly when it finds the hash of every broadcast that is not dead. Runs contain no
  `forget`, `reset` or mid-run `restore`.
* Records are indexed by (orderId, side, action). `RelayKeys.KeysIdentifyActions` gives the
  conditions under which the string keys say the same.
* The code and the documentation disagree in three places, and the model follows the code.
  Line 906 is one. The comment at 1053-1054 calls every failure but a staging failure a
  tombstone, but `restore` brings a failure without a hash back as `staging_failed`
  (1055-1058): `RelayRestarts.TombstonesThatDoNotSurvive` says exactly which tombstones are
  staged again after a restart from a full store, `RelayStoreRuns.TombstonesOverAPruningStore`
  from a pruned one, and `FinalStagingErrorIsStagedAgain` is a run that does so.
  The store's comment (store lines 85-87) says that the records it never prunes are the ones
  that keep an order locked across a restart, but succeeded records lock orders too and are
  pruned: `RelayStore.LocksSurvivePruningIffNoSuccessIsDropped` says exactly when that loses
  a lock, and `RelayStoreRuns.PruningIsSafeIffNoSuccessIsDropped` when it leads to two landed
  transactions.

### The other models

* `createOrder` reads `amount`, `maker` and `recipient` (`e2e/sim.ts:123-125`), which its
  input type omits. They are optional fields, the amount a natural number. Time advances by
  natural numbers. The two simulators' code is the same and is modelled once.
* The swap theorem takes two funded orders that nobody has opened yet, and assumes that the
  source leg is claimed only with a secret already revealed on the destination, and that the
  resolver uses a revealed secret within `gap` seconds. Finishing additionally takes one
  secret to open both legs. The simulators bind a preimage to an order id, so that is stated
  as a hypothesis on the two hash locks.
* In the clients' runs, orders enter the map without hashes and under their own id. Each
  write of a row applies one answer that the tracker gave for that row's action, at any time
  after it was given, and a crash empties the map.
* `isActive` and `isAttentive` are total. The ones that the relayer passes only walk its
  order map or compare two times, and do not throw
  (`relayer/src/order-poll-utils.ts:34-55`, `relayer/src/site-presence.ts:19-21`).
* Token counts are real numbers.
* The divisor `10 ** decimals` is a double (`relayer/src/utils.ts:172`). The model takes the
  divisor that this expression yields as a parameter, and states how the round trip depends
  on it: it is exact up to 22 decimals. A negative amount with a fraction prints a second minus
  sign after the dot, which the parser refuses; `RoundTripIffNoNegativeFraction` says exactly
  which amounts come back. The parser does not cut off decimals beyond the given number but
  counts all digits as units; `ParsedValueIsRightIff` says exactly which texts it reads right.

## Model

| member | source | states |
|---|---|---|
| RelaySafety.AtMostOneLands | relayer/src/relay-submission-tracker.ts:10-31 | over every run, crashes and restarts included, at most one transaction per (orderId, side) ever lands |
| RelaySafety.BroadcastsOncePerKey | relayer/src/relay-submission-tracker.ts:769-820 | a key's broadcast closure is invoked at most once in a whole run, although failed stagings are deleted and staged again |
| RelaySafety.HashIsSavedBeforeBroadcast | relayer/src/relay-submission-tracker.ts:803-820 | every hash whose broadcast was invoked is in the store with that hash and a status that a restart acts on |
| RelaySafety.CrashRestoresMemory | relayer/src/relay-submission-tracker.ts:1030-1083 | at every point of every run a crash restores exactly the normalisation of what was in memory, and hash-bearing records unchanged |
| RelaySafety.OneActionPerOrder | relayer/src/relay-submission-tracker.ts:960-972 | of two actions on one order at most one is not failed, in every reachable state; and status, hash, reason and broadcast count of each agree |
| RelaySafety.SuccessesAgree | relayer/src/relay-submission-tracker.ts:649-706 | any two successes returned for one order in a run, by driver, joiner, cache or reconciliation, before or after restarts, name the same action and the same hash |
| RelaySafety.StagesOnlyAfterEarlierHashesDied | relayer/src/relay-submission-tracker.ts:665-725 | a submission stages a new transaction iff its own record is absent or a staging failure and every other action of the order failed; every hash broadcast for the order before is then dead |
| RelaySafety.SuccessNeedsEvidence | relayer/src/relay-submission-tracker.ts:814-949 | a key has succeeded after a step iff it had before, or its broadcast resolved, or a poll answered that its hash succeeded |
| RelaySafety.StagingDecides | relayer/src/relay-submission-tracker.ts:780-808 | a reservation ends iff its own stager settles or the process dies: pending with the staged hash, or failed without one and re-stageable unless the error was final |
| RelaySafety.OverlappingCallersJoin | relayer/src/relay-submission-tracker.ts:688-704 | a caller joins the live operation of its key whether it is staging, broadcasting, polling or asleep, a reserved key always has one, and no caller ever gets the "in flight" error: the throws at 703 and 857 are unreachable |
| RelaySafety.JoinersGetTheDriversOutcome | relayer/src/relay-submission-tracker.ts:690-696 | everyone who awaited an operation asked for its key and got exactly what it settled with |
| RelayAnswers.OperationsTellTheirRecord | relayer/src/relay-submission-tracker.ts:780-949 | in every run an operation settles exactly on a staging error, a resolved broadcast, a decisive answer or a spent budget, and tells exactly what its record then says: the hash of a success, the reason of a failure, or the unconfirmed hash |
| RelayAnswers.ResolvedBroadcastIsReported | relayer/src/relay-submission-tracker.ts:814-832 | callers are told success with the very hash that was broadcast iff the broadcast resolved; else that hash is polled, or reported unconfirmed without a confirmer |
| RelayAnswers.StagingErrorIsReported | relayer/src/relay-submission-tracker.ts:787-801 | callers are told a staging failure or a final one as the stager's error was, and nothing else when there is a hash |
| RelayAnswers.SettledKeysAreAnswered | relayer/src/relay-submission-tracker.ts:649-686 | in every reachable state a succeeded key is answered with its hash and a tombstone with its reason, and nothing else changes |
| RelayAnswers.SuccessIsForever | relayer/src/relay-submission-tracker.ts:649-664 | once a submission of a key was answered with success, every later one is, with the same hash, through crashes too |
| RelayAnswers.StageableKeysAreReserved | relayer/src/relay-submission-tracker.ts:670-678 | a re-stageable key is reserved for the caller iff its order is free, and else refused as busy |
| RelayAnswers.PendingKeysAreAttached | relayer/src/relay-submission-tracker.ts:705-706 | a pending key that nobody drives is polled at its recorded hash; nothing is staged and no record changes |
| RelayAnswers.SettledOperationsAreCleared | relayer/src/relay-submission-tracker.ts:764-767 | a settled operation gives up its own registration and no other |
| RelaySafety.LockIsReleasedOnlyByTheChain | relayer/src/relay-submission-tracker.ts:844-924 | a record with a hash stops holding its order iff a poll of its own operation gives the hash up; no step changes the hash |
| RelayVerdicts.ReconcileVerdict | relayer/src/relay-submission-tracker.ts:844-924 | in every run an operation polls at most maxAttempts times, goes on exactly while the answers are undecided, and settles as the last one decides |
| RelayVerdicts.NotFoundIffLastAnswer | relayer/src/relay-submission-tracker.ts:904-911 | a hash is given up as not found iff the whole budget was polled and the last answer said so |
| RelayVerdicts.ObservedAndGivenUp | relayer/src/relay-submission-tracker.ts:876-911 | for every budget of two or more polls, a legal run sees the transaction pending and still gives it up as not found |
| RelayVerdicts.ObservedByAnEarlierCall | relayer/src/relay-submission-tracker.ts:839-842 | with a budget of one poll, a legal run in which one call sees the transaction pending and the next gives it up as not found |
| RelayVerdicts.NeverObservedIffNoConfirmer | relayer/src/relay-submission-tracker.ts:905-911 | no hash given up as not found was ever sighted, by any poll of any call for its key, in all runs, iff there is no confirmer |
| RelayVerdicts.OwnPollsNeverContradictIffOnePoll | relayer/src/relay-submission-tracker.ts:861-911 | no operation that gave a hash up as not found had seen it in a poll of its own, in all runs, iff the budget is one poll or there is no confirmer |
| RelayRestarts.TombstonesThatDoNotSurvive | relayer/src/relay-submission-tracker.ts:1052-1058 | in every run, a failure that is not re-stageable becomes so by a restart iff it has no hash, which is iff its staging error was final; otherwise it is unchanged |
| RelayRestarts.FinalStagingErrorIsStagedAgain | relayer/src/relay-submission-tracker.ts:1053-1058 | a run in which the same submission is refused as non-retryable, and after a crash stages a transaction |
| RelayFinality.AtMostOneUnlessADeadHashLands | relayer/src/relay-submission-tracker.ts:884-911 | on any chains, a run in which no given-up hash has landed has at most one landed transaction per order |
| RelayFinality.LegalIffGivenUpStayDead | relayer/src/relay-submission-tracker.ts:884-911 | the chains keep given-up hashes dead at every step of a run iff none has landed by its end |
| RelayFinality.AtMostOneLandsIffGivenUpStayDead | relayer/src/relay-submission-tracker.ts:884-911 | no two different transactions of an order land in any run iff given-up hashes stay dead or there is no confirmer |
| RelayProgress.OperationsAreShort | relayer/src/relay-submission-tracker.ts:772-924 | whatever the environment answers, an operation takes at most 2 * maxAttempts + 2 steps of its own in a run |
| RelayProgress.NeverStuck | relayer/src/relay-submission-tracker.ts:772-924 | in every reachable state an operation can take exactly the step it waits for, with any result that final chains allow |
| RelayProgress.WaitersCanBeAnswered | relayer/src/relay-submission-tracker.ts:690-725 | from every reachable state each waiting caller has a continuation of bounded length that answers it |
| RelayStoreRuns.SafeWhileTheStoreRemembers | relayer/src/relay-submission-tracker.ts:1178-1189 | whatever saves fail, whatever is pruned and however often the process restarts, of all broadcasts of an order one at most lands as long as each restart finds the hash of every broadcast that is not dead |
| RelayStoreRuns.SafeIffTheStoreRemembers | relayer/src/relay-submission-tracker.ts:1178-1189 | after any history whose restarts remembered, what the next restart finds keeps all further runs (with remembering restarts) from landing two different transactions of an order iff it has the hash of every broadcast that is not dead |
| RelayStoreRuns.ForgottenBroadcastLandsTwice | relayer/src/relay-submission-tracker.ts:1184-1187 | after a restart that forgot a broadcast which is not dead, a run lands it and a second transaction, of another hash, of the very same action, even where a stale record holds the order |
| RelayStoreRuns.PruningIsSafeIffOnlyTheDeadAreDropped | relayer/src/relay-submission-store.ts:188-195 | after any history whose restarts remembered, a restart from the pruned last snapshot stays safe iff every broadcast whose record was dropped is dead |
| RelayStoreRuns.PruningIsSafeIffNoSuccessIsDropped | relayer/src/relay-submission-store.ts:81-89 | if recorded successes were broadcast and are not dead, that is iff no success was dropped |
| RelayStoreRuns.TombstonesOverAPruningStore | relayer/src/relay-submission-store.ts:188-195 | over a pruning store a tombstone is staged again after a restart iff it was dropped or has no hash |
| RelayStoreRuns.FileStorePrunes | relayer/src/relay-submission-store.ts:161-195 | what the file store's pruning leaves describes the saved records of some of the keys |
| RelayStoreRuns.FileStoreDropsOnlyTerminal | relayer/src/relay-submission-store.ts:188-195 | the keys it drops have succeeded or failed |
| RelayReplay.Replay | relayer/src/relay-submission-tracker.ts:560-972 | any legal run, crashes included, can be carried out on the class, which ends with the fields and the store that the run says |
| RelayReplay.Process.Take | relayer/src/relay-submission-tracker.ts:645-924 | each step of a run, taken on the class, leads to the state of the step |
| RelayRuns.RunKeepsInv | relayer/src/relay-submission-tracker.ts:560-972 | the invariant behind these: coupling of status, hash and broadcasts, order lock, durability, live drivers, dead hashes and honest answers hold after every legal run |
| RelayRuns.StepKeepsInv | relayer/src/relay-submission-tracker.ts:645-972 | every atomic step preserves that invariant |
| RelayTracker.RelaySubmissionTracker.Submit | relayer/src/relay-submission-tracker.ts:645-725 | the synchronous part of `submit` changes the fields and replies as its block says: cached success, tombstone, re-staging, joining, attaching or reserving |
| RelayTracker.RelaySubmissionTracker.GetBlockingRecord | relayer/src/relay-submission-tracker.ts:617-627 | returns a live or settled record of another action on the order, and none iff there is none |
| RelayTracker.RelaySubmissionTracker.StageSettled | relayer/src/relay-submission-tracker.ts:787-808 | a staging error fails the record by kind; a hash is recorded, counted and persisted before the operation may broadcast |
| RelayTracker.RelaySubmissionTracker.BroadcastSettled | relayer/src/relay-submission-tracker.ts:814-832 | a resolved broadcast settles the record, anything else starts reconciling the stored hash |
| RelayTracker.RelaySubmissionTracker.Reconcile | relayer/src/relay-submission-tracker.ts:844-867 | refuses without a confirmer or with another reconciler, else starts the first poll, changing no record |
| RelayTracker.RelaySubmissionTracker.PollSettled | relayer/src/relay-submission-tracker.ts:876-923 | each answer settles, fails, sleeps or times out as the block says, and frees the reconciler exactly when the loop ends |
| RelayTracker.RelaySubmissionTracker.SettleSuccess | relayer/src/relay-submission-tracker.ts:926-949 | the record succeeds, keeps its hash, and is persisted |
| RelayTracker.RelaySubmissionTracker.Fail | relayer/src/relay-submission-tracker.ts:951-958 | the record fails with the reason and is persisted |
| RelayTracker.RelaySubmissionTracker.Persist | relayer/src/relay-submission-tracker.ts:1179-1189 | after it the store describes exactly the records in memory |
| RelayTracker.RelaySubmissionTracker.Restore | relayer/src/relay-submission-tracker.ts:1030-1083 | stored entries, normalised, replace the records of their keys and leave the others |
| RelayTracker.RelaySubmissionTracker.constructor | relayer/src/relay-submission-tracker.ts:574-591 | a new tracker clamps its budget to at least one and starts in the restart state of its store |
| RelayTracker.RelaySubmissionTracker.ClearInflight | relayer/src/relay-submission-tracker.ts:764-767 | a settled operation drops its own promise and no other |
| RelayTracker.SubmissionRecord.Rehydrate | relayer/src/relay-submission-tracker.ts:1052-1081 | rebuilding a record from an entry gives the normalisation of what was saved |
| RelayStore.PruneKeepsLive | relayer/src/relay-submission-store.ts:188-195 | pruning keeps every reserved or pending record, in order |
| RelayStore.PruneDropsOnlyTerminal | relayer/src/relay-submission-store.ts:188-195 | kept and dropped records are together the input; the dropped are terminal, and there are some iff the terminal ones exceed the quota, which then is full |
| RelayStore.PruneDropsTheOldest | relayer/src/relay-submission-store.ts:191-194 | no dropped record is newer than a kept terminal one |
| RelayStore.NewestAreKept | relayer/src/relay-submission-store.ts:191-194 | nothing dropped was completed (else last attempted, else first seen) after a terminal record that was kept |
| RelayStore.PruneIsFixpoint | relayer/src/relay-submission-store.ts:161-195 | pruning what was pruned changes nothing |
| RelayStore.SaveThenLoadRestoresTheSameRecords | relayer/src/relay-submission-store.ts:119-195 | a save and a load describe the same records iff the terminal ones fit the quota; live ones always survive |
| RelayStore.LocksSurvivePruningIffNoSuccessIsDropped | relayer/src/relay-submission-store.ts:81-89 | a save and a load keep every order lock iff no succeeded record is dropped |
| RelayStore.DroppedSuccessUnlocks | relayer/src/relay-submission-store.ts:188-195 | each dropped succeeded record lets every other action of its order through after a restart, and has no record of its own any more |
| RelayStore.ReadBackWhatWasWritten | relayer/src/relay-submission-store.ts:133-168 | reading a written file gives back the entries written, in order |
| RelayStore.WellFormedEntriesAreRead | relayer/src/relay-submission-store.ts:144-158 | of a file's entries exactly the well-formed ones are read |
| RelayStore.EntriesAreWorth | relayer/src/relay-submission-tracker.ts:434-449 | what each persisted status is worth after a restart, and the broadcast count of an entry without one |
| RelayStore.FileRelaySubmissionStore.Save | relayer/src/relay-submission-store.ts:161-186 | afterwards the file reads as the pruned snapshot, or as before when the write fails |
| RelayStore.FileRelaySubmissionStore.Load | relayer/src/relay-submission-store.ts:119-159 | the well-formed entries of the file in order; none when it is missing, unreadable, blank, not JSON or of another shape |
| RelayStore.MemoryRelaySubmissionStore.Save | relayer/src/relay-submission-store.ts:76-78 | the snapshot replaces the entries |
| RelayKeys.KeysIdentifyActions | relayer/src/relay-submission-tracker.ts:491-516 | if digests tell the two ids apart and neither side continues the other after a ':', submission keys are equal iff the actions are, and order keys iff order and side are |
| RelayKeys.SubmissionKeysEqual | relayer/src/relay-submission-tracker.ts:512-516 | submission keys are equal iff `side:action`, readable id and digest all are |
| RelayKeys.OrderKeysEqual | relayer/src/relay-submission-tracker.ts:502-504 | order keys are equal iff side, readable id and digest all are |
| RelayKeys.KeysAreFaithfulIffSidesDoNotNest | relayer/src/relay-submission-tracker.ts:512-516 | on one order, two sides keep all their actions' keys apart iff neither continues the other after a ':' |
| RelayKeys.NamesCollideIffNested | relayer/src/relay-submission-tracker.ts:513 | some names of two sides give one `side:action` iff one side continues the other after a ':' |
| RelayKeys.ColonInSideConfusesKeys | relayer/src/relay-submission-tracker.ts:512-516 | for every side, continuation and name, the two different actions that share a key |
| RelayKeys.HumanizeOrderId | relayer/src/relay-submission-tracker.ts:492-495 | the readable id is the id's first 64 characters with '_' for each unsafe one, or "unknown" for an empty id |
| RelayPort.OrderIsReleasedOnEvidence | relayer/src/relay-submission-port.ts:170-236 | tracker and confirmers together: a poll releases a hash-bearing order iff the transaction reverted, or was absent at the last poll of a full budget; outages, errors and unknown chains never do |
| RelayPort.OrderSettlesOnEvidence | relayer/src/relay-submission-port.ts:170-236 | a poll settles its record, in memory and in the store, iff the network showed the transaction in effect |
| RelayPort.BroadcastEthereum | relayer/src/relay-submission-port.ts:127-140 | only the payload signed at staging is ever sent, again only after rate limits and at most maxRetries times; it succeeds iff the last send got a response whose receipt came |
| RefundWatchdog.NeverReleasedAndRefunded | relayer/src/index.ts:2261-2310 | however scans, release requests and inline refunds interleave, no order has both an ETH hash and a refund hash, and either hash is that of the tracker's succeeded record for that order and action |
| RefundWatchdog.RunKeepsRows | relayer/src/index.ts:2378-2409 | the tracker's invariant, and every hash on a row reported by the tracker for that order, hold after every run of the clients |
| RefundWatchdog.StepKeepsReports | relayer/src/refund-watchdog.ts:205-218 | a reported success stays on record through every tracker step, crashes included |
| RefundWatchdog.Scan | relayer/src/refund-watchdog.ts:145-246 | one scan changes exactly the orders that are due and not blocked, each as its own submission ended |
| RefundWatchdog.VisitsWriteTheirAnswer | relayer/src/refund-watchdog.ts:205-244 | a reported refund is written with status, hash and time and its failure mark removed, an attempt without a hash is noted with its time, and nothing else is ever changed |
| RefundWatchdog.HashesComeFromAnswers | relayer/src/refund-watchdog.ts:205-218 | an order gets a refund hash in a scan iff it was due, not blocked, and answered with that hash |
| RefundWatchdog.SettledOrdersAreNeverDue | relayer/src/refund-watchdog.ts:93-100 | refunded, released and completed orders are never due |
| RefundWatchdog.HandlersWriteTheirAnswer | relayer/src/index.ts:2307-2310 | a reported release writes its status and hash, as a reported inline refund writes its own, and no scan refunds the order after either; other answers write nothing |
| RefundWatchdog.FailuresBackOffTenMinutes | relayer/src/refund-watchdog.ts:150-153 | a noted failure keeps an order from being due for ten minutes and no longer |
| RefundWatchdog.WaitingOrdersComeDue | relayer/src/refund-watchdog.ts:149-163 | a waiting order is due exactly from its receipt plus the staleness bound on |
| RefundWatchdog.StampsAreJudgedAlike | relayer/src/refund-watchdog.ts:86-91 | seconds and milliseconds of one moment are judged alike, an unreadable receipt like the creation time, an undated order never |
| RefundWatchdog.VisitsAreEvents | relayer/src/refund-watchdog.ts:166-246 | each visit of a scan is one event of the clients' runs, or leaves its order alone |
| RefundWatchdog.BlockedVisitsWriteNothing | relayer/src/refund-watchdog.ts:168-177 | asking the tracker first spares work only: in every reachable state with the order blocked, `submit` answers at once and nothing is written on the row |
| RefundWatchdog.WatchdogSharesTheOrderLock | relayer/src/refund-watchdog.ts:107-121 | the watchdog's refund and the handler's claim compete for one order lock iff the row is filed under its own order id |
| HtlcSim.RunKeepsBooks | e2e/sim.ts:109-192 | after every run: balances plus escrow are the faucet times the known parties, an order's escrow is its amount iff funded and else zero, each balance is its closed form over orders made, claimed and refunded |
| HtlcSim.StepKeepsBooks | e2e/sim.ts:109-178 | each create, claim, refund or time advance keeps those books |
| HtlcSim.WindowsAreDisjoint | e2e/sim.ts:157-165 | a funded order with a matching preimage is claimable iff it is not refundable, and iff its timelock has not passed |
| HtlcSim.PayoutsFollowTheInput | e2e/sim.ts:109-215 | whatever happens after a creation, while its order is funded a claim with a preimage of the input's hash lock pays the input's recipient the input's amount until timelockSeconds after the creation, and a refund pays the input's maker from then on, never both |
| HtlcSim.CreationDebitsTheMaker | e2e/sim.ts:122-142 | a creation enters the asked order under the next id, with the defaults for absent fields, locks its amount, debits the input's maker and moves nobody else's money |
| HtlcSim.CreationIsRefusedExactly | e2e/sim.ts:109-121 | which refusal a creation gets, exactly, and that it changes nothing |
| HtlcSim.PayoutsAreRefusedExactly | e2e/sim.ts:157-215 | which refusal a claim or a refund gets, exactly, and that it changes nothing |
| HtlcSim.HashlocksHaveSixtyFourDigits | e2e/sim.ts:110-112 | hash locks are 0x and 64 hexadecimal digits of either case, not all zero |
| HtlcSim.PreimagesAreWholeBytes | e2e/sim.ts:205-207 | preimages are 0x and a positive even number of hexadecimal digits |
| HtlcSim.OnlyTimeMovesTheClock | e2e/sim.ts:101-103 | the clock moves by the seconds that pass and by nothing else |
| HtlcSim.Sim.Create | e2e/sim.ts:109-143 | checks in the source's order, then enters the order and moves its amount into escrow |
| HtlcSim.Sim.Claim | e2e/sim.ts:201-215 | the four refusals in order, or the whole new state of a claim |
| HtlcSim.Sim.Refund | e2e/sim.ts:157-165 | the three refusals in order, or the whole new state of a refund |
| HtlcSim.Sim.ReleaseEscrow | e2e/sim.ts:173-178 | what was locked, if anything, is credited and the escrow zeroed |
| HtlcSim.Sim.GetEscrowBalance | e2e/sim.ts:188-192 | in any state with the books in order, the sum of what funded orders hold, which is the faucet total less all balances |
| AtomicSwap.SwapIsAtomic | README.md:126-134 | no run of two spaced legs ends with one claimed and the other refunded, and once both ended the release check passes |
| AtomicSwap.ReleaseCheckIsExact | e2e/sim.ts:278-309 | the check passes iff both legs ended as asked, and names the side still locked iff the other was released alone |
| AtomicSwap.SpacingIsNecessary | README.md:126-134 | no run splits the legs iff the destination's timelock plus the gap is at most the source's, or the destination can no longer be claimed: its timelock passed or nothing opens it |
| AtomicSwap.LateClaimSplits | README.md:131-134 | without the spacing a run exists that claims one leg and refunds the other |
| AtomicSwap.SwapCanBeFinished | README.md:128-134 | from every reachable moment the swap can be finished: by the resolver's claim if the destination was claimed, else by waiting and two refunds, and the release check passes |
| AtomicSwap.ClaimRevealsTheSecret | README.md:128-129 | a claimed destination leg has revealed a secret that opens the source leg |
| AtomicSwap.OpKeepsTerms | e2e/sim.ts:157-165 | an operation keeps the terms of every order and changes the status of the one it names only, and only inside its window |
| AdaptivePoll.OneTimerOrOneTick | relayer/src/adaptive-poll.ts:42-83 | until stop, exactly one of a running tick and a single pending timer; after stop no timer is pending and none fires; a tick starts only when none is running |
| AdaptivePoll.NextCheckHasTheRightDelay | relayer/src/adaptive-poll.ts:51-66 | the one timer after a check has the active delay iff something was active or attentive |
| AdaptivePoll.WakeChecksAtOnce | relayer/src/adaptive-poll.ts:78-82 | a wake leaves exactly one timer, due at once, unless a tick runs or the loop stopped |
| AdaptivePoll.StopEndsTheLoop | relayer/src/adaptive-poll.ts:74-77 | after a stop no timer is ever pending and no tick ever starts |
| AdaptivePoll.AdaptivePoll.Fired | relayer/src/adaptive-poll.ts:51-66 | the new loop state when a timer fires, and whether a tick starts |
| AdaptivePoll.AdaptivePoll.TickSettled | relayer/src/adaptive-poll.ts:60-65 | a settled tick, good or bad, schedules the next check |
| AdaptivePoll.AdaptivePoll.WakeUp | relayer/src/adaptive-poll.ts:78-82 | replaces the pending timer by an immediate one unless stopped or running |
| AdaptivePoll.AdaptivePoll.StopPolling | relayer/src/adaptive-poll.ts:74-77 | stops for good and clears the timer |
| EventPoller.EveryBlockIsCoveredOnce | relayer/src/contract-event-poller.ts:82-129 | over any heads and failures, a block lies in (start, cursor] iff a completed tick looked at it; that is one tick only, and it asked every binding |
| EventPoller.PollsCoverEveryBlock | relayer/src/contract-event-poller.ts:89-125 | each tick starts right after the finished blocks and stays within one window, and the cursor is how far the completed ones reach |
| EventPoller.CursorIsMonotone | relayer/src/contract-event-poller.ts:88-125 | the cursor never moves back, and moves on iff there is a new block and every query answers |
| EventPoller.TicksReachTheHead | relayer/src/contract-event-poller.ts:89-93 | a tick takes every new block up to the head that its window holds, and there is one iff there is a new block |
| EventPoller.OnlyUnfinishedWindowsRepeat | relayer/src/contract-event-poller.ts:120-125 | a block is asked for twice only if the earlier tick failed; a finished block never is |
| EventPoller.WindowMustHoldABlock | relayer/src/contract-event-poller.ts:92-93 | ticks make progress over new blocks iff the window is at least one block |
| EventPoller.ReentrancyGuardNeverFires | relayer/src/contract-event-poller.ts:85-87 | over any run of the loop, with ticks suspended as long as they like, every tick that starts gets past the guard |
| EventPoller.ContractEventPoller.BeginTick | relayer/src/contract-event-poller.ts:85-87 | the guard lets a tick in iff none is polling |
| EventPoller.ContractEventPoller.FinishTick | relayer/src/contract-event-poller.ts:88-129 | the queries sent, up to the first failure, and the new cursor |
| EventPoller.FetchIncomingEthPayments | relayer/src/eth-incoming-monitor.ts:20-56 | the payments to the relayer in the scanned range, in order, and the next cursor; a failing provider call aborts the scan |
| EventPoller.ScansReachTheHead | relayer/src/eth-incoming-monitor.ts:26-33 | a scan reaches the last block that is both there and in the window, and fails iff one of those does not answer |
| EventPoller.MinedTransfersAreReported | relayer/src/eth-incoming-monitor.ts:32-55 | every transfer mined after the cursor, up to the head and within the window, is reported by the next scan that is answered |
| EventPoller.ScanWindowMustHoldABlock | relayer/src/eth-incoming-monitor.ts:32-33 | scans make progress over new blocks iff the window holds at least one |
| EventPoller.PaymentsAreTheTransfers | relayer/src/eth-incoming-monitor.ts:36-53 | a payment is reported for a range iff a block in it holds a positive transfer to the relayer, in any letter case, with that hash, sender and value |
| EventPoller.ChunkedScanIsOneScan | relayer/src/eth-incoming-monitor.ts:26-55 | repeated windowed scans, over any heads and provider errors, concatenate to one scan of the whole range |
| LoadRunner.RateIsBounded | e2e/load-test/runner.ts:118-143 | with a monotone clock, tokens granted in any interval are at most perSec plus perSec times its length, whatever the interleaving |
| LoadRunner.FullBucketGrantsABurst | e2e/load-test/runner.ts:122-137 | of turns at one moment a full bucket grants exactly the first perSec, rounded down |
| LoadRunner.ASecondFillsTheBucket | e2e/load-test/runner.ts:129-132 | a second earns the rate, and a bucket idle for a second is full |
| LoadRunner.WaitingPaysOff | e2e/load-test/runner.ts:127-142 | a lone caller that sleeps as told gets a token next iff the rate is at least one per second |
| LoadRunner.SomebodyIsServed | e2e/load-test/runner.ts:127-142 | however the workers contend, at a rate of at least one per second a refused turn is followed by a grant to somebody by the first turn after its wait |
| LoadRunner.RateLimiter.TakeTurn | e2e/load-test/runner.ts:127-141 | one turn of `acquire`, and the least whole wait that covers the shortfall |
| LoadRunner.EveryOrderIsProcessedOnce | e2e/load-test/runner.ts:149-180 | when all workers finished, the results are in index order and hold each order exactly as often as given, with its own result; with no worker, nothing |
| LoadRunner.EveryRunEnds | e2e/load-test/runner.ts:161-177 | every run of the pool ends, after exactly orders plus workers moves: until then some worker can move, and then all are done |
| LoadRunner.OrdersAreTakenInTurn | e2e/load-test/runner.ts:159-164 | orders leave the queue from the front, in the order given |
| LoadRunner.MovesTakeTheFront | e2e/load-test/runner.ts:162-172 | a worker files its last order with its own result and takes up the one at the front |
| LoadRunner.OrderQueue.Shift | e2e/load-test/runner.ts:163-164 | taking the head of the shared queue, or finishing |
| LoadRunner.OrderQueue.FinishAndShift | e2e/load-test/runner.ts:168-171 | recording a result, counting it and taking the next order |
| MerkleFills.RootCommitsToLeaves | relayer/src/merkle-tree.ts:416-439 | for a given number of leaves, and no collision among the pairs hashed, roots are equal iff the leaves are |
| MerkleFills.RootHidesLeafCount | relayer/src/merkle-tree.ts:424-426 | for every odd number of leaves above one, repeating the last leaf leaves the root as it is |
| MerkleFills.SmallRoots | relayer/src/merkle-tree.ts:416-439 | neighbours are hashed left before right, and a last odd node with itself |
| MerkleFills.PaddingKeepsTheRoot | relayer/src/merkle-tree.ts:420-436 | the root is that of the leaves padded level by level to a power of two |
| MerkleFills.RootsEqualIffPaddedLeavesAre | relayer/src/merkle-tree.ts:416-439 | for any two leaf lists, the second at least as deep, and no collision among the pairs hashed, roots are equal iff the padded leaves of the first are the nodes of the second at that height |
| MerkleFills.HashLockForMultipleFills | relayer/src/merkle-tree.ts:416-439 | the level-by-level loop computes the root of the leaves |
| MerkleFills.BuildTree | relayer/src/merkle-tree.ts:309-344 | the tree holds each leaf once, in order, with every digest right, under the hash lock's root |
| MerkleFills.MerkleTreeSecrets.CreateMerkleTree | relayer/src/merkle-tree.ts:94-125 | leaves and root are rebuilt together; a fractional percentage is refused, leaving the leaves so far and the old root |
| MerkleFills.MerkleTreeSecrets.ValidatePartialFill | relayer/src/merkle-tree.ts:195-238 | the four refusals in order; acceptance iff the index is known, the hash its own, the earlier fragments full and the sum within the fragment |
| MerkleFills.VerdictsAreExact | relayer/src/merkle-tree.ts:205-237 | which verdict a fill gets, exactly, and which secret hash an accepted one is told |
| MerkleFills.NextSecretOpensNext | relayer/src/merkle-tree.ts:230-237 | a fill that completes its fragment is told the very secret hash that opens the next one |
| MerkleFills.LeavesFollowTheirPercentages | relayer/src/merkle-tree.ts:100-113 | each leaf has its secret's hash, its percentage of the total, truncated, and the sum up to it |
| MerkleFills.TruncationIsExact | relayer/src/merkle-tree.ts:102 | division truncates towards zero, for amounts of either sign |
| MerkleFills.EqualFragments | relayer/src/merkle-tree.ts:65-113 | with a count n that divides 100 every fragment is total/n and the last cumulative amount is total less total mod n, truncating towards zero |
| MerkleFills.UnequalFragmentsAreRefused | relayer/src/merkle-tree.ts:100-102 | with any other count no fragment is made |
| MerkleFills.FragmentsOpenInOrder | relayer/src/merkle-tree.ts:218-228 | an accepted fill is in the last filled fragment or in the next one, whose predecessor is then exactly full |
| MerkleFills.FragmentsFillExactly | relayer/src/merkle-tree.ts:195-238 | in any accepted run, fragments before the last filled one hold exactly their amount, later ones nothing, and the sum stays within the last cumulative amount |
| MerkleFills.FillsNeverExceedTheOrder | relayer/src/merkle-tree.ts:195-238 | no accepted run fills more than the order less its remainder, and an order of a negative total takes nothing |
| Amounts.ParseUndoesFormat | relayer/src/utils.ts:170-192 | with an exact divisor, parsing a printed amount gives the amount back |
| Amounts.RoundTripsIffDivisorExact | relayer/src/utils.ts:170-192 | all amounts survive printing and parsing iff the divisor is the true power of ten |
| Amounts.TwentyTwoDecimalsAtMost | relayer/src/utils.ts:172 | with a correctly rounded double as the divisor, that is iff there are at most 22 decimals |
| Amounts.ParsedValueIsRightIff | relayer/src/utils.ts:187-192 | any text of digits and a dot, trailing zeros and all, is parsed to its value in units iff it has at most d decimals or is zero |
| Amounts.DecimalTextIsScaled | relayer/src/utils.ts:187-192 | a text with at most d decimals is worth its digits, scaled |
| Amounts.WholeTextIsScaled | relayer/src/utils.ts:187-192 | digits without a dot are whole units |
| Amounts.ExcessDecimalsAreUnits | relayer/src/utils.ts:189 | decimals beyond d are not cut off: all digits count as units |
| Amounts.RoundTripIffNoNegativeFraction | relayer/src/utils.ts:170-192 | with an exact divisor an amount of either sign survives iff it is not negative or has no fraction |
| Amounts.PrintedTextIffCanonical | relayer/src/utils.ts:170-192 | printing what was parsed returns the text iff the text is canonical (plain digits, at most d decimals, no trailing zero) or a negative whole amount |
| Amounts.FormatIsCanonical | relayer/src/utils.ts:176-181 | every printed amount that is not negative is canonical |

## Left out

- Diagnostics of the tracker: attempt counters over whole runs, networks, last errors, result payloads, events, statistics and log lines. The class keeps attempts and times, the theorems do not speak of them.
- `forget`, `reset` and a `restore` in the middle of a run: operator doors that drop the lock by design.
- RelayTracker.RelaySubmissionTracker.Persist: the tracker swallows an error of its store; the class's store does not throw. Runs with failed saves are those of `RelayStoreRuns`, where the store keeps an older snapshot.
- RefundWatchdog.Scan: handlers do not change a row while the scan awaits its submission, and each visit's answers are inputs; `VisitsAreEvents` places the visits in runs where everything interleaves.
- RelayTracker.RelaySubmissionTracker.Restore: a store that throws on load leaves the tracker empty in the source; here loads succeed. Entries with an empty or missing key are skipped in the source; records here are indexed by actions, so there are none.
- RelayStore.ReadBackWhatWasWritten: the file's text is its list of entries, so nothing is said about JSON.
- EventPoller.ContractEventPoller.FinishTick: the events of a query and their delivery to handlers; handler errors are caught and change nothing of the cursor.
- MerkleFills.MerkleTreeSecrets.CreateMerkleTree: the proofs stored on the leaves; they are built top-down and checked with the hash always on the right, and do not match the tree.
- `RelayTracker` runs on the memory store; the file store is modelled beside it and `RelayStore` relates the two through what a save and a load describe.
- Chains, Horizon, RPC, SDKs, signing and hashing: their answers and functions are parameters. The text matching that recognises a rate limit is one of the four replies of a node.
- `stageStellarTransaction`: one send without a loop.
- The refund payload's own hash, used by the watchdog when an outcome carries none: every success of the tracker carries one.
- `index.ts`'s manual refund with its fallback order id, the quoter and the recovery service: they do not fit the two-phase contract or the order key.
- The simulators' resolver-registry setters, which their interface declares and their classes lack, and the getters for one balance or one order.
- Equality of the two simulators: their code is the same.
- Secret generation, the secrets map and revelation helpers, and the keccak of hex strings, which is an arbitrary two-argument function here.
- Total amounts that BigInt cannot read, and amounts with a plus sign, hexadecimal digits or spaces in the printer and parser.
- HumanizeOrderId: characters outside the basic plane count once here and twice in the source.
- RateIsBounded: token counts are reals, so rounding of doubles is not modelled.
- The file system below the store: the file is one atomic cell, as the rename makes it.
- Coordinator, frontend, deployment, contracts, partial-fill bookkeeping, event history, presets, metrics and the web socket server.
