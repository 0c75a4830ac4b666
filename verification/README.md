# LakeVilla: commit protocols, log replay and codecs

A Dafny model of the parts of LakeVilla (a multi-table transaction manager for Delta Lake tables on
an object store) that its guarantees rest on, and proofs of these guarantees.

| files | what they model |
|---|---|
| `ObjectStore` | the store: put-if-absent, overwrite-if-the-ETag-matches (sections 13.1.2 and 13.1.1 of RFC 9110), requests that are refused or whose response is lost |
| `MarkerWorld`, `MarkerProtocol`, `MarkerInvariant`, `MarkerSafety`, `MarkerTheorems`, `MarkerValidation`, `MarkerProgress`, `MarkerTiming`, `MarkerScenes`, `MarkerCounterexamples`, `MarkerClient` | levels 0 and 1: a transaction reserves log versions with markers, waits, validates, swaps its markers for commits, takes expired markers over, shifts and redoes |
| `GlobalLog`, `GlobalLogTheorems`, `GlobalLogCounterexample` | level 2: one object with the visible version of every table, rewritten under a lock |
| `DeltaReplay`, `LogRegister`, `LogSchedule`, `Checkpoint`, `DeltaLogManager`, `CheckpointListing` | the log: sequential replay (section "Action Reconciliation" of the Delta Transaction Log Protocol), parallel parsing, checkpoints and finding them |
| `KeyIndex`, `ColumnStatistics`, `RowSelection`, `KeyDelete`, `KeyUpdate`, `WriteSet` | data skipping for a key (section "Per-file Statistics" of the same protocol), deleting and updating its rows, and the files a transaction commits |
| `StoreClock`, `Decimal`, `Calendar`, `SchemaCodec`, `CommitLoop`, `Options` | the store clock that leases rest on, dates, schemas, and the bound of the commit loop |

`dafny verify dfyconfig.toml` checks everything.

## How the protocols are modelled

A protocol is a transition system: every request to the store is one atomic step, steps of any
number of transactions interleave freely, each request may be refused or lose its response, and a
transaction that takes no more steps has crashed. Theorems speak of every reachable state, or of
every continuation of one. Fields marked as history only record what happened; nothing else depends
on them.

Assumptions about the marker protocol, all made by the code as well:

- every valid marker has a non-empty ETag (the code overwrites unconditionally otherwise);
- checks and the confirming reads do not fail spuriously;
- `reopen_tables` does not run after a read (`load_table` resets `concurrent_change`);
- two different commits never have the same text;
- reading a marker and replacing it under the ETag just read is one step, which `EtagPinsObject`
  justifies.

Clock readings in takeovers and lease checks are arbitrary: safety does not depend on clocks.
`MarkerTiming` adds the store's time and readings of trusted observers (`StoreClock`), and proves
that leases are then respected. Commits of engines that know no markers are included as
put-if-absent steps.

The commit loop goes in passes: each one waits for all `prev_markers` again, then it shifts markers
and starts over, or it redoes, validates and writes. `rounds` counts as the code does; a commit that
would exceed `max_redos` can only abort.

## Where a promise fails

Each of these is a lemma with a concrete run or input, and the theorems beside it say under which
condition the promise holds.

- A transaction that shifts after its first table commit can be ordered oppositely to another one on
  two tables (`OppositeOrdersHappen`). The serial-order theorems ask for `!late`, which holds of
  every transaction whose commits arrive in time (`PunctualIsSteady`).
- Validation does not look at the reservation of a table that was only read. If it was taken over,
  two serializable transactions can miss each other's writes (`WriteSkewHappens`). What a transaction
  read is always the replay of the versions below its own; that nobody who validated earlier commits
  above asks for the reservation of that table to be still held at validation.
- A conflict after a partial commit makes `rebuild_state` forget the commit, and the transaction
  commits that table again (`DoubleCommitHappens`: two shifts and the redo between them, as many
  rounds as the default allows). Exactly-once asks for `!doubled`, which holds whenever `max_redos`
  is below two.
- `release_global_lock` retries an unconditional delete. If the first one was applied behind an
  error, the retry deletes the next holder's lock, two transactions publish at once, and a reported
  commit disappears (`MutualExclusionFails`, `EntriesGoBack`). `OnlyRetriedDeletesSteal` says that
  nothing else breaks the lock.
- A level-2 commit whose global log could not be rewritten reports success but is invisible
  (`SuccessIsAllOrNothing`).
- JSON nulls in statistics are read as empty texts, so a file of one null row counts as an exact
  match of the empty key (`NullStatisticsFool`, `ExactIsOneRow`), and deleting the empty key loses
  that row. DELETE keeps all other rows exactly if there is no such file (`DeleteIsExact`).
- A path that is removed and created again without overwriting is in the commit but not in the
  transaction's view (`ClashHappens`, `ReplayIsView`).
- Part numbers are cut to 32 bits (`HugePartsFool`, `CountingIsComplete`).
- A version the transaction has redone upon is waited for again in every later pass and then counts
  as a concurrent change again. `ValidationIsExact` therefore speaks of all versions waited for
  since the last redo, also those in the snapshot by now.
- `to_delta_schema` prints decimals with a negative scale, which `from_delta_schema` rejects
  (`TypeRoundTrip`).
- A second search between the edit and the delete step of a redo loses the updated rows that still
  have the searched key, and no others (`RedoWithSearchBetween`).

## Model

| member | source | states |
|---|---|---|
| `ObjectStore.MemoryConnector.Write` | LV/src/Connectors/MemoryConnector.cpp:37-45 | overwrites the object under a new ETag unless the request is refused; a lost response is reported as a failure |
| `ObjectStore.MemoryConnector.WriteAtomic` | LV/src/Connectors/MemoryConnector.cpp:47-64 | put-if-absent: changes nothing if the object exists; on Ok the returned ETag is the one the object now carries |
| `ObjectStore.MemoryConnector.WriteIfMatch` | LV/src/Connectors/MemoryConnector.cpp:117-131 | replaces the object only if it exists and carries the given ETag |
| `ObjectStore.MemoryConnector.DeleteFile` | LV/src/Connectors/MemoryConnector.cpp:137-145 | removes the object, unconditionally, and nothing else |
| `ObjectStore.MemoryConnector.StoreObject` | LV/src/Connectors/MemoryConnector.cpp:26-31 | every write gets an ETag larger than all before |
| `ObjectStore.EtagPinsObject` | LV/src/Connectors/MemoryConnector.cpp:26-31 | through any sequence of requests of anybody, an object that carries an ETag handed out before is the very object that was seen then: no delete, recreation or double overwrite brings an ETag back |
| `MarkerWorld.SwapEvolves` | LV/src/Connectors/MemoryConnector.cpp:117-131 | a conditional write by the holder of a marker's ETag, or of an empty commit by anyone, finishes that marker for good and changes no other version |
| `MarkerWorld.PlaceMarkerEvolves` | LV/src/LakeVilla/TransactionManager/ManagerDeltaLake.cpp:2562-2612 | reserving a version keeps all versions, leaves no gap, and records the owner |
| `MarkerWorld.OverwriteEvolves` | LV/src/LakeVilla/TransactionManager/ManagerDeltaLake.cpp:2775-2785 | the unconditional write after a failed open, on the own marker or the empty commit in its place, finishes the marker and changes no other version |
| `MarkerSafety.StepInv` | LV/src/LakeVilla/TransactionManager/ManagerDeltaLake.cpp:1324-1690 | each of the 19 steps (begin, reserve, load, failed open, read, stage, start of commit, wait, takeover, give up, shift, next pass, redo, validate, write, finish, abort, release, foreign commit) keeps the protocol's invariant, whatever requests fail or lose their response |
| `MarkerSafety.RunInv` | LV/src/LakeVilla/TransactionManager/ManagerDeltaLake.cpp:1324-1690 | the invariant holds after every run of any number of interleaved transactions |
| `MarkerSafety.ReserveInv` | LV/src/LakeVilla/TransactionManager/ManagerDeltaLake.cpp:2562-2612 | reserving a version, with any fate of the request, keeps the invariant |
| `MarkerSafety.LoadInv` | LV/src/LakeVilla/TransactionManager/ManagerDeltaLake.cpp:2515-2560 | parsing a version puts it into the snapshot if it is final and among the versions to wait for otherwise |
| `MarkerSafety.FailOpenInv` | LV/src/LakeVilla/TransactionManager/ManagerDeltaLake.cpp:2775-2785 | releasing the version of a table that could not be opened keeps the invariant although the write is unconditional |
| `MarkerSafety.WaitInv` | LV/src/LakeVilla/TransactionManager/ManagerDeltaLake.cpp:1373-1397 | a final version that was waited for is recorded as a concurrent change and with the files it removed |
| `MarkerSafety.TakeOverInv` | LV/src/LakeVilla/TransactionManager/ManagerDeltaLake.cpp:1399-1425 | taking an expired marker over with an empty commit keeps the invariant, for any reading of the clock |
| `MarkerSafety.GiveUpInv` | LV/src/LakeVilla/TransactionManager/ManagerDeltaLake.cpp:2645-2650 | giving the own version up, valid or lost, keeps the invariant |
| `MarkerSafety.ReserveAgainInv` | LV/src/LakeVilla/TransactionManager/ManagerDeltaLake.cpp:2652-2663 | after a shift, all versions between the old and the new one are waited for |
| `MarkerSafety.NextPassInv` | LV/src/LakeVilla/TransactionManager/ManagerDeltaLake.cpp:1502-1512 | starting the loop over, with every prev_marker to be waited for again, keeps the invariant |
| `MarkerSafety.RedoInv` | LV/src/LakeVilla/TransactionManager/ManagerDeltaLake.cpp:1523-1547 | a redo keeps the invariant, the first one and a repeated one after rebuild_state |
| `MarkerSafety.ValidateInv` | LV/src/LakeVilla/TransactionManager/ManagerDeltaLake.cpp:1515-1564 | after a passed validation every lower version is final, and what it did is in the snapshot or cannot matter; which transactions pass is what MarkerValidation.ValidationIsExact says |
| `MarkerSafety.WriteInv` | LV/src/LakeVilla/TransactionManager/ManagerDeltaLake.cpp:2031-2088 | one attempt of write_commit with its conclusion (Ok, Lost, or unsure) keeps the invariant |
| `MarkerSafety.ReleaseMarkerInv` | LV/src/LakeVilla/TransactionManager/Marker.cpp:25-51 | a conditional release after commit or abort keeps the invariant |
| `MarkerTheorems.Finality` | LV/src/LakeVilla/TransactionManager/ManagerDeltaLake.cpp:1411-1425 | in every run, a version that is not a marker keeps its content for ever: through commits, releases, takeovers, shifts and the unconditional release after a failed open |
| `MarkerTheorems.LogIsContiguous` | LV/src/LakeVilla/TransactionManager/ManagerDeltaLake.cpp:2562-2612 | in every reachable state the versions of a table have no gap |
| `MarkerTheorems.CommitVerdict` | LV/src/LakeVilla/TransactionManager/ManagerDeltaLake.cpp:2031-2088 | whatever write_commit reports holds for ever: after Ok the version holds this transaction's commit, after Lost it is empty (or holds a commit that the transaction's own redo has discarded), although any request may have been applied behind an error |
| `MarkerTheorems.AtMostOnce` | LV/src/LakeVilla/TransactionManager/ManagerDeltaLake.cpp:2031-2088 | a transaction has at most one commit per table in the log, unless a redo discarded a commit, which takes two rounds; so with max_redos below two there is no exception |
| `MarkerTheorems.DoublingTakesRounds` | LV/src/LakeVilla/TransactionManager/ManagerDeltaLake.cpp:1523-1541 | a commit makes at most max_redos rounds, and only one that has made two can have discarded a commit |
| `MarkerTheorems.CommitsRestOnTheirPast` | LV/src/LakeVilla/TransactionManager/ManagerDeltaLake.cpp:1462-1594 | below every commit all versions are final (or own, given up and without effect), none the transaction did not build on removes a file it removes, and under Serializable what it read of the table is the replay of all lower versions |
| `MarkerTheorems.VersionOrderIsRankOrder` | LV/src/LakeVilla/TransactionManager/ManagerDeltaLake.cpp:1462-1594 | version order on every table agrees with the order of the validations before the first commit |
| `MarkerTheorems.VersionOrderIsAcyclic` | LV/src/LakeVilla/TransactionManager/ManagerDeltaLake.cpp:1462-1594 | no cycle of transactions, over any number of tables, is ordered by versions, if none of them shifted or discarded a commit after its first one (punctual ones never do) |
| `MarkerTheorems.SerializableAcrossTables` | LV/src/LakeVilla/TransactionManager/ManagerDeltaLake.cpp:1515-1554 | a validated transaction that shifted nothing after its first commit read, on every table, the replay of all versions below its own, which are commits of transactions that validated before it; on the tables it commits, and on those it only read if it still held the reservation, the versions below are exactly the commits of those that validated before it: validation order is a serial order |
| `MarkerValidation.RecordsAreExact` | LV/src/LakeVilla/TransactionManager/ManagerDeltaLake.cpp:1373-1389 | in every reachable state concurrent_change says exactly that a version waited for since the last redo has adds or removes, and concurrent_removes are exactly the paths those versions remove; without a redo those are all the versions waited for |
| `MarkerValidation.ValidationIsExact` | LV/src/LakeVilla/TransactionManager/ManagerDeltaLake.cpp:1515-1554 | a transaction that has waited, has redone what is to be redone and whose leases last passes exactly if no version it waited for since its last redo removed a file it removes and, only under Serializable, none changed a table it read |
| `MarkerValidation.FirstValidationIsExact` | LV/src/LakeVilla/TransactionManager/ManagerDeltaLake.cpp:1515-1521 | without a redo: it passes exactly if all versions below its reservations that are neither in its snapshot nor its own are harmless in this sense |
| `MarkerValidation.RedoStartsOver` | LV/src/LakeVilla/TransactionManager/ManagerDeltaLake.cpp:1523-1547 | after a redo the snapshot is the replay of everything below the reservation, a repeated redo has forgotten the old actions and the committed flags of the tables, and nothing conflicts |
| `MarkerProgress.LoopAdvances` | LV/src/LakeVilla/TransactionManager/ManagerDeltaLake.cpp:1462-1564 | while rounds are left, a transaction that has waited has a next step (reserve again, give a version up, start over, redo, validate), and if its operations cannot be redone, only a harmful version stops it |
| `MarkerProgress.GivingUpIsExact` | LV/src/LakeVilla/TransactionManager/ManagerDeltaLake.cpp:1491-1508 | an uncommitted version is given up exactly if it was lost, or is still valid and its lease ends too soon |
| `MarkerProgress.WaitingEnds` | LV/src/LakeVilla/TransactionManager/ManagerDeltaLake.cpp:1373-1411 | waiting for a version ends when it is final, and a marker may be taken over exactly if the earliest store time is after its deadline and the grace period |
| `MarkerProgress.WritingAdvances` | LV/src/LakeVilla/TransactionManager/ManagerDeltaLake.cpp:1566-1594 | a transaction that writes its commits always has a table to write next, or is done; at most one write is unanswered |
| `MarkerProgress.WriteConcludes` | LV/src/LakeVilla/TransactionManager/ManagerDeltaLake.cpp:2031-2088 | an attempt of write_commit succeeds exactly if the reservation stands or an unanswered attempt before it has written this very commit, otherwise the version is lost; without an answer it stays open |
| `MarkerProgress.ReleaseEndsReservation` | LV/src/LakeVilla/TransactionManager/Marker.cpp:25-51 | giving up, releasing or overwriting an own version ends the reservation as soon as the request is applied: a marker becomes an empty commit |
| `MarkerProgress.LoadingSorts` | LV/src/LakeVilla/TransactionManager/ManagerDeltaLake.cpp:2515-2560 | a parsed version is in the snapshot exactly if it is final and not beyond the visible one, and waited for otherwise; a level-0 transaction defers its operations exactly from the first reservation it meets |
| `MarkerCounterexamples.WriteSkewHappens` | LV/src/LakeVilla/TransactionManager/ManagerDeltaLake.cpp:1515-1521 | a reachable state of a serializable run, with the default lease and grace period, in which two transactions committed although each missed the other's write: one reservation of a table that was only read had been taken over |
| `MarkerCounterexamples.OppositeOrdersHappen` | LV/src/LakeVilla/TransactionManager/ManagerDeltaLake.cpp:1569-1583 | a reachable state in which two transactions are ordered oppositely on two tables: one of them shifted after its first commit |
| `MarkerCounterexamples.DoubleCommitHappens` | LV/src/LakeVilla/TransactionManager/ManagerDeltaLake.cpp:1766-1793 | a reachable state of a Snapshot run, within the default three rounds, in which a transaction committed the same table twice: its second redo reset the committed flags |
| `MarkerTiming.TimelyCommitIsNotLost` | LV/src/LakeVilla/TransactionManager/ManagerDeltaLake.cpp:1398-1415 | in a run whose clock readings come from trusted observers, a commit that arrives within margin plus grace of its lease check is never reported as lost: an answer means that the version holds it |
| `MarkerTiming.PunctualIsSteady` | LV/src/LakeVilla/TransactionManager/ManagerDeltaLake.cpp:1569-1583 | in a timed run, a transaction whose commits all arrive in time shifts nothing after its first commit and discards none, as the theorems on serial order and exactly-once ask |
| `MarkerTiming.PunctualCommitsOnce` | LV/src/LakeVilla/TransactionManager/ManagerDeltaLake.cpp:2031-2088 | so a punctual transaction commits a table at most once |
| `MarkerTiming.TakenInTime` | LV/src/LakeVilla/TransactionManager/ManagerDeltaLake.cpp:1399-1411 | a takeover on an observer's earliest estimate comes after the marker's deadline and the grace period in store time |
| `MarkerTiming.StepTime` | LV/src/LakeVilla/TransactionManager/ManagerDeltaLake.cpp:1398-1425 | every timed step keeps this: a reservation its holder believes in ends with the holder's own commit, or after deadline and grace period; and whoever writes has checked the lease a margin before the deadline |
| `MarkerTiming.Touchers` | LV/src/LakeVilla/TransactionManager/ManagerDeltaLake.cpp:1411-1425 | the version of a reservation is written to by its holder or by a takeover, by nobody else |
| `MarkerClient.OthersLeaveReservation` | LV/src/LakeVilla/TransactionManager/ManagerDeltaLake.cpp:1411-1425 | what the steps of others can do to a reserved version, derived from the protocol: an empty commit in place of the marker, nothing else |
| `MarkerClient.Marker.Release` | LV/src/LakeVilla/TransactionManager/Marker.cpp:25-51 | the retry loop: after true the version is not reserved by this marker; a marker became empty, anything else is unchanged; one request of the five that gets through is enough for true |
| `MarkerClient.Marker.WriteCommit` | LV/src/LakeVilla/TransactionManager/ManagerDeltaLake.cpp:2031-2088 | the retry loop with others acting between the requests: Done means the version holds the log, Taken that it holds another commit, a version that was final is unchanged, and it remains open only if no request got through |
| `MarkerClient.ReserveVersion` | LV/src/LakeVilla/TransactionManager/ManagerDeltaLake.cpp:2562-2612 | the probing loop: the version returned holds this marker under the returned ETag, and all versions passed over exist; if all requests get through, it fails only by meeting an existing version each time |
| `GlobalLog.StepInv` | LV/src/LakeVilla/TransactionManager/ManagerDeltaLake.cpp:4026-4132 | every step of the level-2 commit keeps the invariant, unless a retried delete hits another transaction's lock |
| `GlobalLog.RewriteIsUpdate` | LV/src/LakeVilla/TransactionManager/ManagerDeltaLake.cpp:4050-4106 | under the lock the validated snapshot is the current global log, so rewriting the whole log changes exactly the written tables, each by one version |
| `GlobalLog.ValidateGood` | LV/src/LakeVilla/TransactionManager/ManagerDeltaLake.cpp:4026-4092 | a passed validation means no read table is newer than read (Serializable) and no written one has reached its write version |
| `GlobalLog.TryLockGood` | LV/src/LakeVilla/TransactionManager/ManagerDeltaLake.cpp:3944-3980 | put-if-absent of the token, recognised later if its response was lost |
| `GlobalLog.ClaimGood` | LV/src/LakeVilla/TransactionManager/ManagerDeltaLake.cpp:2053-2081 | claiming a version by put-if-absent, with retries after errors, records exactly the commits that are this transaction's |
| `GlobalLog.DeleteLockGood` | LV/src/LakeVilla/TransactionManager/ManagerDeltaLake.cpp:4008-4023 | deleting the lock, with retries, keeps the invariant unless it hits another lock |
| `GlobalLogTheorems.MutualExclusion` | LV/src/LakeVilla/TransactionManager/ManagerDeltaLake.cpp:3944-4006 | at most one transaction is between locking and unlocking |
| `GlobalLogTheorems.OnlyRetriedDeletesSteal` | LV/src/LakeVilla/TransactionManager/ManagerDeltaLake.cpp:4015-4021 | mutual exclusion is lost exactly by a delete that is retried after an earlier one was applied behind an error, when someone else has locked since |
| `GlobalLogTheorems.EntriesNeverDecrease` | LV/src/LakeVilla/TransactionManager/ManagerDeltaLake.cpp:4094-4132 | along every run no entry goes back and no table leaves the global log |
| `GlobalLogTheorems.EntriesAreComplete` | LV/src/LakeVilla/TransactionManager/ManagerDeltaLake.cpp:1571-1594 | every version up to an entry exists in the table's log |
| `GlobalLogTheorems.AtomicVisibility` | LV/src/LakeVilla/TransactionManager/ManagerDeltaLake.cpp:3912-3942 | a transaction's begin sees all versions of a published multi-table commit, or none of them |
| `GlobalLogTheorems.LockOrderIsSerialOrder` | LV/src/LakeVilla/TransactionManager/ManagerDeltaLake.cpp:4026-4092 | each published transaction read what the publications before it left (all it opened under Serializable, all it wrote under Snapshot), so lock order is a serial order |
| `GlobalLogTheorems.ValidationIsExact` | LV/src/LakeVilla/TransactionManager/ManagerDeltaLake.cpp:4050-4089 | validation accepts exactly the transactions whose snapshot is still the global log, on all opened tables (Serializable) or on the written ones (Snapshot) |
| `GlobalLogTheorems.VisibleIsPublished` | LV/src/LakeVilla/TransactionManager/ManagerDeltaLake.cpp:4094-4132 | the visible versions of a table beyond the start are exactly the published commits |
| `GlobalLogTheorems.PublishedAtMostOnce` | LV/src/LakeVilla/TransactionManager/ManagerDeltaLake.cpp:4110-4121 | a transaction is published at most once, although its rewrite is retried |
| `GlobalLogTheorems.FailedStaysInvisible` | LV/src/LakeVilla/TransactionManager/ManagerDeltaLake.cpp:1633-1641 | what a failed transaction left behind in some tables never becomes visible, in any continuation |
| `GlobalLogTheorems.SuccessIsAllOrNothing` | LV/src/LakeVilla/TransactionManager/ManagerDeltaLake.cpp:4114-4131 | a transaction that reports success has all its commits in the logs; all are visible, or none if the global log could not be rewritten |
| `GlobalLogTheorems.ClaimVerdict` | LV/src/LakeVilla/TransactionManager/ManagerDeltaLake.cpp:2053-2088 | what write_commit reports without markers holds for ever, whoever holds the lock: after Ok the version holds this commit, after Taken it exists and never holds it |
| `GlobalLogTheorems.CommitsOnce` | LV/src/LakeVilla/TransactionManager/ManagerDeltaLake.cpp:2053-2081 | a transaction has at most one commit per table in the log, whoever holds the lock |
| `GlobalLogTheorems.NeverStuck` | LV/src/LakeVilla/TransactionManager/ManagerDeltaLake.cpp:4026-4132 | until it is done, a transaction of level 2 always has a next step: it can lock, or knows whether it has the lock; it validates, has a version to claim, can rewrite the global log, lets go of the lock |
| `GlobalLogTheorems.RequestsConclude` | LV/src/LakeVilla/TransactionManager/ManagerDeltaLake.cpp:4096-4132 | whoever fails to lock tries again; a transaction whose versions are all claimed reports success even if the global log cannot be rewritten; a delete of the lock that gets through ends it |
| `GlobalLogCounterexample.MutualExclusionFails` | LV/src/LakeVilla/TransactionManager/ManagerDeltaLake.cpp:4015-4021 | a reachable state with two holders of the lock, after a retried delete |
| `GlobalLogCounterexample.EntriesGoBack` | LV/src/LakeVilla/TransactionManager/ManagerDeltaLake.cpp:4008-4023 | two consecutive reachable states in which a commit that was reported and visible disappears from the global log |
| `LogRegister.HighestWins` | LV/src/LakeVilla/DeltaLog/DeltaLogManager.cpp:108-131 | for actions registered in any order, a path ends with the maximum of (version, is-remove) over its actions |
| `LogRegister.OrderDoesNotMatter` | LV/src/LakeVilla/DeltaLog/DeltaLogManager.cpp:108-131 | two orders of the same actions agree on the operation and version of every path |
| `LogRegister.InheritanceDependsOnOrder` | LV/src/LakeVilla/DeltaLog/DeltaLogManager.cpp:124-129 | what a remove inherits from an add does depend on the order: two orders of the same two actions |
| `LogSchedule.RemoveOnTop` | LV/src/LakeVilla/DeltaLog/DeltaLogManager.cpp:105-131 | registering a version that removes a path on top of older ones leaves the deletion time of its first remove, and its size and partition values, or those of the file it removes if it has none |
| `LogSchedule.TombstoneKeepsMetadata` | LV/src/LakeVilla/DeltaLog/DeltaLogManager.cpp:125-130 | after sequential replay the tombstone of a file holds the remove's time, and its size and partition values, or, if the remove has none, those the file had in the replay of the versions before |
| `LogSchedule.LastActionCounts` | LV/src/LakeVilla/DeltaLog/DeltaLogManager.cpp:133-192 | of the protocol, the metadata, an application transaction or a domain, the last action in the log counts, also within one version |
| `LogRegister.DecidedByOneVersion` | LV/src/LakeVilla/DeltaLog/DeltaLogManager.cpp:108-149 | each path, protocol, metadata, application and domain is decided by the highest version that mentions it and by that version's own order |
| `LogRegister.SchedulesAgree` | LV/src/LakeVilla/DeltaLog/DeltaLogManager.cpp:108-149 | any two schedules that keep the order within versions leave the same state, up to what removes inherit |
| `LogSchedule.SplitRange` | LV/src/LakeVilla/TransactionManager/ManagerDeltaLake.cpp:2336-2354 | the ranges partition the versions without gap or overlap, there are min(parts, count) of them, at least one, and their sizes differ by at most one |
| `LogSchedule.ParallelParse` | LV/src/LakeVilla/TransactionManager/ManagerDeltaLake.cpp:4339-4375 | every interleaving of threads that parse the ranges is a schedule of exactly these versions |
| `LogSchedule.SequentialIsReplay` | LV/src/LakeVilla/DeltaLog/DeltaLogManager.cpp:108-131 | registering versions one after the other gives the live files of sequential replay, with all their metadata |
| `LogSchedule.ParallelParseIsReplay` | LV/src/LakeVilla/TransactionManager/ManagerDeltaLake.cpp:2742-2764 | parsing in parallel gives exactly the live files of sequential replay |
| `Checkpoint.CheckpointEquivalence` | LV/src/LakeVilla/TransactionManager/ManagerDeltaLake.cpp:2440-2513 | a snapshot loaded through any chain of checkpoints, with expired tombstones dropped and later versions interleaved, means the same as replaying the whole log: files, protocol, metadata, applications, domains |
| `Checkpoint.LoadIsReplay` | LV/src/LakeVilla/TransactionManager/ManagerDeltaLake.cpp:4329-4376 | in particular its live files are those of replaying versions 0 to v |
| `Checkpoint.TombstonesSurvive` | LV/src/LakeVilla/TransactionManager/ManagerDeltaLake.cpp:4410-4418 | after any chain of checkpoints and any interleaving, the tombstone of a removal is there with the deletion time of the log's own remove exactly if that is within the retention period of every checkpoint that had to keep it; otherwise nothing is left of it |
| `Checkpoint.ChainKeepsTombstones` | LV/src/LakeVilla/TransactionManager/ManagerDeltaLake.cpp:4410-4418 | if retention periods do not go back, a checkpoint made through a chain of checkpoints has tombstones, with the same times, for exactly the files for which one made from the whole log has them |
| `DeltaLogState.DeltaLogManager.RegisterAction` | LV/src/LakeVilla/DeltaLog/DeltaLogManager.cpp:108-131 | changes only the path's entry, to the winner of the old and the new action |
| `DeltaLogState.DeltaLogManager.SetProtocol` | LV/src/LakeVilla/DeltaLog/DeltaLogManager.cpp:133-140 | replaces the protocol unless it is newer |
| `DeltaLogState.DeltaLogManager.SetMetadata` | LV/src/LakeVilla/DeltaLog/DeltaLogManager.cpp:142-149 | replaces the metadata unless it is newer |
| `DeltaLogState.DeltaLogManager.SetTransaction` | LV/src/LakeVilla/DeltaLog/DeltaLogManager.cpp:207-216 | replaces the application's transaction unless it is newer |
| `DeltaLogState.DeltaLogManager.SetDomainMetadata` | LV/src/LakeVilla/DeltaLog/DeltaLogManager.cpp:218-227 | replaces the domain's configuration unless it is newer |
| `DeltaLogState.DeltaLogManager.ParseVersions` | LV/src/LakeVilla/TransactionManager/ManagerDeltaLake.cpp:2515-2560 | one thread's loop registers exactly the actions of its versions, on top of whatever was registered before |
| `DeltaLogState.DeltaLogManager.RegisterAll` | LV/src/LakeVilla/TransactionManager/ManagerDeltaLake.cpp:2469-2510 | the rows of a checkpoint, or the lines of a version, are registered in their order under one version |
| `DeltaLogState.DeltaLogManager.MarkUnsupported` | LV/src/LakeVilla/DeltaLog/DeltaLogManager.cpp:194-200 | the first reason stays |
| `DeltaLogState.DeltaLogManager.ApplyVersion` | LV/src/LakeVilla/TransactionManager/ManagerDeltaLake.cpp:3053-3130 | all lines of a version: what can be registered is, in order, and the table stays free of reasons exactly if no line is flawed or uses deletion vectors |
| `DeltaLogState.FilesOfLines` | LV/src/LakeVilla/TransactionManager/ManagerDeltaLake.cpp:3053-3130 | a version adds exactly the files its add lines name, those with deletion vectors included, and removes exactly those its remove lines name |
| `DeltaLogState.DeltaLogManager.GetListRaw` | LV/src/LakeVilla/DeltaLog/DeltaLogManager.cpp:276-288 | every added path, each once, and nothing else |
| `DeltaLogState.DeltaLogManager.AddRows` | LV/src/LakeVilla/TransactionManager/ManagerDeltaLake.cpp:4403-4407 | one row for every added file, with its statistics, size, time, partition values and tags |
| `DeltaLogState.DeltaLogManager.RemoveRows` | LV/src/LakeVilla/TransactionManager/ManagerDeltaLake.cpp:4410-4418 | one row for every removed file deleted within the retention period, none for older ones; WriteCheckpoint says what the row holds |
| `DeltaLogState.DeltaLogManager.WriteCheckpoint` | LV/src/LakeVilla/TransactionManager/ManagerDeltaLake.cpp:4378-4432 | fails exactly if something is not tracked, protocol or metadata are unknown, the protocol asks for something unknown, or the rows cannot be encoded; otherwise the rows mean what the state means, and keep exactly the tombstones that are young enough, each as a remove with the entry's deletion time, size and partition values |
| `DeltaLogState.CheckpointBlocker` | LV/src/LakeVilla/TransactionManager/ManagerDeltaLake.cpp:2294-2333 | names a reason exactly if the protocol cannot be read, has too high a version, or lists a reader or writer feature that is not known |
| `CheckpointListing.SingleNameRoundTrip` | LV/src/LakeVilla/TransactionManager/ManagerDeltaLake.cpp:2447-2450 | the name parse_checkpoint builds for a single-file checkpoint is read back by newest_checkpoint |
| `CheckpointListing.NamesRoundTrip` | LV/src/LakeVilla/TransactionManager/ManagerDeltaLake.cpp:2452-2459 | and so is the name of every part of a multi-part checkpoint |
| `CheckpointListing.NamesAreUnique` | LV/src/LakeVilla/TransactionManager/ManagerDeltaLake.cpp:2157-2192 | two names that mean the same checkpoint file are equal |
| `CheckpointListing.OverflowsFrom64Bits` | LV/src/LakeVilla/TransactionManager/ManagerDeltaLake.cpp:2162-2175 | the name of a checkpoint makes the listing fail exactly if its version does not fit into 64 bits |
| `CheckpointListing.CountingIsComplete` | LV/src/LakeVilla/TransactionManager/ManagerDeltaLake.cpp:2195-2202 | the count of parts reaches n exactly when all parts 1 to n are there (distinct names, part numbers below 2^32) |
| `CheckpointListing.HugePartsFool` | LV/src/LakeVilla/TransactionManager/ManagerDeltaLake.cpp:2188-2192 | cut to 32 bits, two parts of a checkpoint of 2^32 + 2 parts count as a complete one |
| `CheckpointListing.Count` | LV/src/LakeVilla/TransactionManager/ManagerDeltaLake.cpp:2162-2193 | the map holds the counts of all versions up to the limit; the call fails exactly if a version does not fit in 64 bits |
| `CheckpointListing.NewestCheckpoint` | LV/src/LakeVilla/TransactionManager/ManagerDeltaLake.cpp:2152-2204 | the largest version up to the limit that has a complete checkpoint, with the fewest parts, and none exactly if there is none |
| `KeyIndex.CountCodePoints` | LV/src/LakeVilla/TransactionManager/ManagerDeltaLake.cpp:290-298 | the loop counts the bytes that start a character |
| `KeyIndex.FirstCodePoints` | LV/src/LakeVilla/TransactionManager/ManagerDeltaLake.cpp:301-312 | the loop returns the longest prefix with at most n characters |
| `KeyIndex.FirstIsUnique` | LV/src/LakeVilla/TransactionManager/ManagerDeltaLake.cpp:301-312 | that prefix is unique |
| `KeyIndex.FirstCutsCodePoints` | LV/src/LakeVilla/TransactionManager/ManagerDeltaLake.cpp:290-316 | of the UTF-8 encoding of any code points, the code points are counted, and cutting it to n characters gives the encoding of the first n |
| `KeyIndex.NumberTextRoundTrip` | LV/src/LakeVilla/TransactionManager/ManagerDeltaLake.cpp:314-322 | a number written by to_string is read back if it fits in 64 bits, and rejected otherwise |
| `KeyIndex.SkippedHasNoRow` | LV/src/LakeVilla/TransactionManager/ManagerDeltaLake.cpp:386-436 | data skipping is sound: a file classified as None has no row with the key, even if the minimum is cut to 32 characters and the maximum is cut and extended |
| `KeyIndex.SkippedExactly` | LV/src/LakeVilla/TransactionManager/ManagerDeltaLake.cpp:386-436 | a file is skipped exactly if it has no rows or its statistics leave no room for the key: there are no texts the minimum and the maximum may have been cut from with the key between them, or it lies outside the numbers |
| `KeyIndex.ExactIsOneRow` | LV/src/LakeVilla/TransactionManager/ManagerDeltaLake.cpp:386-436 | a file classified as Exact is exactly one row with the key if and only if its statistics are not JSON nulls; the other case is the empty key and one null row |
| `KeyIndex.NullStatisticsFool` | LV/src/LakeVilla/DeltaLog/DeltaLogEntry.cpp:28-30 | one null row with null statistics counts as an exact match of the empty key |
| `ColumnStatistics.IntegerMinMax` | LV/src/Helpers/Helper.cpp:1072-1095 | the loops over chunks find the least and the greatest value, or that there is none |
| `ColumnStatistics.StringMinMax` | LV/src/Helpers/Helper.cpp:1132-1154 | the same for texts in byte order |
| `ColumnStatistics.IntegerStatisticsAreHonest` | LV/src/Helpers/Helper.cpp:1088-1094 | the statistics written for an integer column satisfy what data skipping assumes |
| `ColumnStatistics.StringStatisticsAreHonest` | LV/src/Helpers/Helper.cpp:1149-1153 | and so do those of a string column |
| `ColumnStatistics.IntegerSearchIsSharp` | LV/src/LakeVilla/TransactionManager/ManagerDeltaLake.cpp:396-411 | with LakeVilla's own statistics an integer file is skipped exactly if the key is outside its values, and exact only if it is one row with the key |
| `ColumnStatistics.StringSearchIsSharp` | LV/src/LakeVilla/TransactionManager/ManagerDeltaLake.cpp:412-432 | the same for texts of fewer than 32 characters |
| `RowSelection.RowsDivide` | LV/src/LakeVilla/TransactionManager/ManagerDeltaLake.cpp:640-669 | rows with and without the key divide a file without loss or duplication |
| `RowSelection.PickedRows` | LV/src/LakeVilla/TransactionManager/ManagerDeltaLake.cpp:469-480 | the rows at the found indices are the rows with the key, those at the other indices the rest |
| `RowSelection.RowsOf` | LV/src/LakeVilla/TransactionManager/ManagerDeltaLake.cpp:469-480 | the loop over chunks finds exactly the indices of the rows with the key, ascending |
| `RowSelection.OtherRows` | LV/src/LakeVilla/TransactionManager/ManagerDeltaLake.cpp:508-519 | for any ascending list of indices, the loop returns exactly the remaining ones, ascending |
| `RowSelection.SelectRows` | LV/src/LakeVilla/TransactionManager/ManagerDeltaLake.cpp:485-505 | slicing runs of adjacent indices gives the rows at these indices, in order |
| `KeyDelete.FindKeyFiles` | LV/src/LakeVilla/TransactionManager/ManagerDeltaLake.cpp:523-594 | through statistics and reading, exactly the files with rows of the key are found, each once, with the right rows; when exact matches are not read, a misread file is returned as an exact match too |
| `KeyDelete.MisreadIsOneNullRow` | LV/src/LakeVilla/TransactionManager/ManagerDeltaLake.cpp:386-436 | the only files whose statistics promise a row of the key that they do not hold: one null row with JSON-null statistics, and the key is the empty text |
| `KeyDelete.Statistics` | LV/src/Helpers/Helper.cpp:1158-1211 | a new file gets honest statistics, so later searches may trust it |
| `KeyDelete.KeyTable.RemoveKeyRows` | LV/src/LakeVilla/TransactionManager/ManagerDeltaLake.cpp:640-669 | the file is swapped for one with exactly its other rows, or just removed if all rows have the key |
| `KeyDelete.KeyTable.RemoveFile` | LV/src/LakeVilla/TransactionManager/ManagerDeltaLake.cpp:1287-1322 | afterwards no row has the key, and every other row occurs as often as before, but for the rows of misread files, which are lost; it fails only if a write fails, or nothing has the key and nothing is misread |
| `KeyDelete.DeleteIsExact` | LV/src/LakeVilla/TransactionManager/ManagerDeltaLake.cpp:1287-1322 | that is relational DELETE if and only if no file is misread |
| `KeyUpdate.BuildIntCol` | LV/src/LakeVilla/TransactionManager/ManagerDeltaLake.cpp:4252-4294 | every cell of the column becomes what the operation computes: REP the operand, also over nulls, ADD, SUB and MUL the sum, difference and product modulo 2^32, DIV the quotient rounded towards zero; NONE and other nulls change nothing |
| `KeyUpdate.ApplyOpComputes` | LV/src/LakeVilla/TransactionManager/ManagerDeltaLake.cpp:4256-4284 | what an operation makes of a cell: REP the operand, also over nulls; otherwise nulls stay and NONE changes nothing; for ADD, SUB and MUL an int32 congruent to the sum, difference or product modulo 2^32; for DIV the quotient whose remainder is smaller than the divisor and has the sign of the cell |
| `KeyUpdate.LastUpdateChanges` | LV/src/LakeVilla/TransactionManager/ManagerDeltaLake.cpp:3735-3788 | the last update of a command changes the column it names as computed from what the updates before it left, and no other cell and not the key |
| `KeyUpdate.OneUpdateChanges` | LV/src/LakeVilla/TransactionManager/ManagerDeltaLake.cpp:3735-3788 | a command with one update changes that column of a row and leaves the key and all other cells alone |
| `KeyUpdate.BuildStringCol` | LV/src/LakeVilla/TransactionManager/ManagerDeltaLake.cpp:4202-4250 | the same for a string key column, whatever the arithmetic on texts computes |
| `KeyUpdate.UpdateColumns` | LV/src/LakeVilla/TransactionManager/ManagerDeltaLake.cpp:3737-3788 | column by column, the key column included, every row gets all updates in order; columns that are unknown or of another type are skipped |
| `KeyUpdate.SelectKeyRows` | LV/src/LakeVilla/TransactionManager/ManagerDeltaLake.cpp:616-638 | the rows of the key of all found files, in order |
| `KeyUpdate.FoundRowsAreKeyRows` | LV/src/LakeVilla/TransactionManager/ManagerDeltaLake.cpp:3636-3649 | after a search these are all rows of the key in the table |
| `KeyUpdate.RemoveFoundRows` | LV/src/LakeVilla/TransactionManager/ManagerDeltaLake.cpp:3605-3613 | every found file that is not retired is swapped for a file of exactly its other rows (or just removed), the others are left alone, and afterwards all are retired |
| `KeyUpdate.FirstRemoval` | LV/src/LakeVilla/TransactionManager/ManagerDeltaLake.cpp:3605-3613 | the first removal after a search takes away exactly the rows of the key |
| `KeyUpdate.NothingAgain` | LV/src/LakeVilla/TransactionManager/ManagerDeltaLake.cpp:3605-3613 | a second one changes nothing |
| `KeyUpdate.SearchAndDelete` | LV/src/LakeVilla/TransactionManager/ManagerDeltaLake.cpp:3636-3649 | a search step and the delete step are relational DELETE, whatever the statistics say, because the redo reads exact matches |
| `KeyUpdate.RedoUpdate` | LV/src/LakeVilla/TransactionManager/ManagerDeltaLake.cpp:3718-3833 | relational UPDATE, also of the key column: after a search, the edit and the delete step in either order replace every row of the key by its update exactly once and keep all other rows |
| `KeyUpdate.RedoWithSearchBetween` | LV/src/LakeVilla/TransactionManager/ManagerDeltaLake.cpp:3636-3649 | with another search between the edit and the delete step, exactly the updated rows that have the searched key are lost; so it still is the UPDATE if and only if no updated row has that key |
| `WriteSet.TableStats.RegisterCreatedFile` | LV/src/LakeVilla/TransactionManager/ManagerDeltaLake.cpp:1016-1042 | the path becomes valid as created, with the size and statistics given, and invalid as deleted, and the view is updated by the entry's transition |
| `WriteSet.TableStats.RegisterDeletedFile` | LV/src/LakeVilla/TransactionManager/ManagerDeltaLake.cpp:1044-1060 | the path becomes valid as deleted, with the size the view has of it, and invalid as created |
| `WriteSet.TableStats.BuildCommitLog` | LV/src/LakeVilla/TransactionManager/ManagerDeltaLake.cpp:2004-2029 | the commit adds exactly the valid created files, with their statistics and size (0 if unknown), and removes exactly the valid deleted ones, with theirs |
| `WriteSet.TouchedPaths` | LV/src/LakeVilla/DeltaLog/DeltaLogEntry.cpp:164-224 | after any changes a touched path is valid as created or as deleted, never both; the transaction sees it exactly if it is valid as created and its last change did not clash |
| `WriteSet.CommitIsLastChange` | LV/src/LakeVilla/TransactionManager/ManagerDeltaLake.cpp:1016-1060 | the commit says of each path what its last change said: after a create the new snapshot has the file with the size and statistics of that create; after a delete it does not, and the remove carries the size the file had in the starting snapshot |
| `WriteSet.OthersStay` | LV/src/LakeVilla/TransactionManager/ManagerDeltaLake.cpp:2004-2029 | files the transaction did not touch are after the commit what they were before |
| `WriteSet.RemovalWins` | LV/src/LakeVilla/DeltaLog/DeltaLogEntry.cpp:164-258 | without overwriting, an entry ends as a removal exactly if one of the operations is one and the first other than NONE is not METADATA |
| `WriteSet.ReplayIsView` | LV/src/LakeVilla/TransactionManager/ManagerDeltaLake.cpp:2004-2029 | replaying the commit on the starting snapshot agrees with the transaction's own view on a path if and only if the path's last change is not a create without overwrite over a removal |
| `WriteSet.ClashHappens` | LV/src/LakeVilla/DeltaLog/DeltaLogEntry.cpp:208-213 | removing a path and creating it again without overwrite: the commit adds it, the transaction does not see it |
| `StoreClock.OffsetClock.AddSample` | LV/src/Connectors/StoreClock.cpp:12-30 | intersects the interval, or starts over if the sample contradicts it |
| `StoreClock.EstimateIsIntersection` | LV/src/Connectors/StoreClock.hpp:22-28 | with honest samples the clock never starts over: it holds the intersection of all intervals, and the true offset lies in it |
| `StoreClock.EstimateSinceContradiction` | LV/src/Connectors/StoreClock.cpp:12-30 | for any samples, honest or not: the estimate is the intersection of those from the last one on that contradicted the estimate before it; its own interval is what the estimate starts over with |
| `StoreClock.TrueTimeIsInside` | LV/src/Connectors/StoreClock.cpp:32-40 | the true store time lies between earliest and latest, although the midpoint is rounded |
| `StoreClock.EstimateIsTight` | LV/src/Connectors/StoreClock.cpp:32-40 | rounding widens the interval by at most a millisecond on either side |
| `StoreClock.LeasesKeepStoreTime` | LV/src/LakeVilla/TransactionManager/ManagerDeltaLake.cpp:2614-2624 | a takeover happens only after deadline plus grace in store time, a passed lease check only before deadline minus margin |
| `StoreClock.CommitBeatsTakeover` | LV/src/LakeVilla/TransactionManager/ManagerDeltaLake.cpp:1402-1415 | a commit that arrives within margin plus grace of its lease check arrives before any takeover |
| `StoreClock.LeaseIsUsable` | LV/src/LakeVilla/TransactionManager/ManagerDeltaLake.cpp:2615-2633 | a holder may commit while elapsed time and uncertainty fill no more than three quarters of its lease, or leave more than half a second; what is left then is a quarter of the lease or half a second |
| `StoreClock.UnsetTrustsLocalClock` | LV/src/Connectors/StoreClock.cpp:32-39 | without samples the local clock is taken for the store's, which is right exactly if they agree |
| `StoreClock.MidpointAndWidth` | LV/src/Connectors/StoreClock.cpp:32-39 | for any interval, also one turned around by a local clock that went back: the estimate is the midpoint within a millisecond, and the uncertainty half the width, rounded up |
| `Calendar.CivilOfDays` | LV/src/compat.cpp:111-130 | every valid date is read back from its day number |
| `Calendar.DaysOfCivil` | LV/src/compat.cpp:120-130 | every integer is the day number of the valid date civil_from_days computes |
| `Calendar.NumbersCountDays` | LV/src/compat.cpp:111-118 | the next day of the Gregorian calendar has the next number |
| `Calendar.NumbersStartAtEpoch` | LV/src/compat.cpp:111-118 | 1 January 1970 has number 0 |
| `Calendar.SplitInstant` | LV/src/compat.cpp:179-194 | an instant is split into a valid date and time of day that recombine to it, before the epoch too |
| `Calendar.InstantsAreUnique` | LV/src/compat.cpp:164-165 | no two valid dates and times recombine to the same number of microseconds |
| `Calendar.FractionMicros` | LV/src/compat.cpp:151-163 | the loops read up to six digits of a fraction and fill up with zeros |
| `Calendar.FractionScale` | LV/src/compat.cpp:151-163 | a fraction of n digits is their value times 10^(6-n) microseconds, and digits after the sixth do not count |
| `Calendar.FractionRoundTrip` | LV/src/compat.cpp:188-192 | a printed fraction is read back |
| `SchemaCodec.TypeRoundTrip` | LV/src/Helpers/DeltaSchema.cpp:29-112 | a printed type, at any depth, is read back as its normal form if and only if every decimal in it has 0 <= scale <= precision |
| `SchemaCodec.NullableUnlessDenied` | LV/src/Helpers/DeltaSchema.cpp:296-300 | fields, elements and values may be null unless the first member of that name is false; absent or no boolean means they may |
| `SchemaCodec.OtherShapesRejected` | LV/src/Helpers/DeltaSchema.cpp:263-293 | a type is read only from a name or from an object whose type is struct, array or map, and a field only with a name, which is its own |
| `SchemaCodec.OtherNames` | LV/src/Helpers/DeltaSchema.cpp:229-255 | char and varchar of any length are read as strings, decimal as decimal(10, 0), void as null, though none of them is ever printed |
| `SchemaCodec.SchemaRoundTrip` | LV/src/Helpers/DeltaSchema.cpp:302-334 | the same for a whole schema with names, nullability and metadata |
| `SchemaCodec.NormalPrintsSame` | LV/src/Helpers/DeltaSchema.cpp:29-112 | the normal form prints as the same JSON and is its own normal form |
| `SchemaCodec.NormalSchemaPrintsSame` | LV/src/Helpers/DeltaSchema.cpp:116-169 | and so does a whole schema |
| `SchemaCodec.PrintedNames` | LV/src/Helpers/DeltaSchema.cpp:127-148 | a list of fields is printed exactly if all their types are, all names are valid and no two have the same lower-case form |
| `SchemaCodec.PrintedColumns` | LV/src/Helpers/DeltaSchema.cpp:127-148 | the same in plain terms: no name is empty or has a space, tab, line feed or one of , ; { } ( ) =, and no two names are equal when the case of A to Z is ignored |
| `SchemaCodec.PrimitiveDecimal` | LV/src/Helpers/DeltaSchema.cpp:249-257 | a printed decimal type is accepted by the sscanf pattern exactly if 0 <= scale <= precision |
| `CommitLoop.Commit` | LV/src/LakeVilla/TransactionManager/ManagerDeltaLake.cpp:1452-1690 | the loop in place: commits or aborts as the pass-by-pass specification says, which CommitsExactly and EndsByItsLastPass characterize, after at most max_redos + 1 passes |
| `CommitLoop.PassesAreBounded` | LV/src/LakeVilla/TransactionManager/ManagerDeltaLake.cpp:1491-1512 | every further pass is paid for by a shift, a repeated redo or a lost marker |
| `CommitLoop.BoundIsReached` | LV/src/LakeVilla/TransactionManager/ManagerDeltaLake.cpp:1491-1512 | the bound is reached when every lease expires |
| `CommitLoop.CommitIsValidated` | LV/src/LakeVilla/TransactionManager/ManagerDeltaLake.cpp:1515-1594 | the pass that commits had leases that last; if operations can be redone they were, in a pass with leases that last, and no validation failed after that; if they cannot, none failed at all |
| `CommitLoop.EndsByItsLastPass` | LV/src/LakeVilla/TransactionManager/ManagerDeltaLake.cpp:1462-1690 | a commit is aborted exactly because of its last pass: a lease that expires with no round left, a conflict that cannot be redone, a conflict after a redo with no round left or a failed rebuild, a failed write, or a lost version with no round left; in all other passes it goes on or commits |
| `CommitLoop.CommitsExactly` | LV/src/LakeVilla/TransactionManager/ManagerDeltaLake.cpp:1462-1690 | the first pass with such a reason, or that writes everything with Ok, ends the loop, and commit returns true exactly in the second case |
| `CommitLoop.CleanPassCommits` | LV/src/LakeVilla/TransactionManager/ManagerDeltaLake.cpp:1515-1645 | a pass the loop reaches, with leases that last, no conflict and all commits written, commits |

## Left out

- MarkerTheorems.SerializableAcrossTables: for a table that was only read and whose reservation was lost before the validation, only one direction is proved; the loss does not always lead to an anomaly.
- MarkerTheorems.CommitsRestOnTheirPast: says nothing about a client whose redo discarded a commit; `DoubleCommitHappens` shows what such a client can do.
- GlobalLogTheorems.MutualExclusion: proved while no retried delete has hit another transaction's lock, as all level-2 theorems.
- LogRegister.SchedulesAgree: leaves out the size and partition values a remove inherits from an add, which do depend on the order.
- MarkerClient.ReserveVersion: a bound on the number of requests stands for the unbounded loop.
- KeyUpdate.BuildIntCol: 32-bit overflow wraps around here and is undefined in the source, as is division by zero, which is excluded.
- KeyUpdate.UpdateColumns: string columns other than the key column are not modelled, and arithmetic on texts is a parameter (the source converts them to floating-point numbers, which may fail).
- CommitLoop.Commit: waiting that gives up (`reopen_tables`), which has no bound, is not modelled.
- Checkpoint.CheckpointEquivalence: log actions the code does not track (deletion vectors, unsupported features) are not modelled beyond the refusal to write a checkpoint.
- DeltaLogState.DeltaLogManager.WriteCheckpoint: reading the protocol's JSON and encoding the rows are parameters; the upload and `_last_checkpoint` are not modelled.
- MarkerSafety.RedoInv: a snapshot rebuilt by `rebuild_state` that meets an own marker whose release failed adds it to the versions to wait for; the model does not.
- SchemaCodec.TypeRoundTrip: error texts, the list of table features, JSON text, and metadata values that are not strings are not modelled.
- Markers without a deadline (older clients), which are leased from their modification time.
- Giving up a wait, reopening tables and the dependency check of level 1.
- Breaking a stale global-log lock, `repair_global_log`, skipping foreign versions at begin, and tables that are not yet in the global log.
- The S3 client, HTTP, retry delays, threads and mutexes: requests are atomic steps, parsing threads are interleavings.
- Parquet, Arrow buffers and JSON text: rows are sequences, actions are datatypes, JSON is a tree.
- The rest of the log directory's names: listings are given relative to it, and `rfind` of the directory is not modelled.
- Matching statistics to a column by name, column mapping, tables without metadata, and files the transaction created for the same update (`skip_update`).
- Paths relative to the table and with its base path are one and the same here.
- The clock readings of a single commit's entries: `BuildCommitLog` takes one for all of them.
- Level 0's sublogs: a redo is one step that computes any new actions; `KeyUpdate` shows what redoing an update does.
- Interactive rerolls, creating and dropping tables, log cleanup, partitioned writes, and the benchmark clients.
