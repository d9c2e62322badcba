# Mason state store: verified model

This project models the shared transcript store of Mason (`state.db`) and the objects around it, and proves
the properties its design relies on. Several processes append to, compact, rotate, rewind, search and prune
one store at the same time; every public writer is one write transaction, so a run is a sequence of atomic
steps, and the theorems below hold over every such sequence.

The modules follow the program:

- `Lineage`, `Rows`, `Transcript`: session rows, message rows in primary-key order, and what every writer
  commits. `Transcript.Step` lists the seventeen kinds of transaction; `Transcript.Run` runs them from any
  store, with arbitrary readings of the clock and arbitrary knowledge of dead holders at each step.
- `StateDb`: the store as an object. Its methods perform the transactions statement by statement, in place,
  and are proved to commit exactly what `Transcript` specifies and to restore every table when refused.
- `Admission`: what every writer checks before it commits, said on the lease rows, the clock and the session
  columns: which input is refused with which error, and what an accepted one leaves in the lease tables.
- `WellFormedness`, `Edits`, `Snapshot`, `Conservation`, `Counters`, `Fencing`, `Exclusion`, `Rotation`:
  theorems about those writers, over single transactions and over runs.
- `Display`: collapsing compaction generations for display.
- `FullText`, `CjkIndex`: the gated external-content indexes and the life cycle of the CJK index.
- `IndexedStore`: the transcript store and an index run together, every commit followed by the row triggers.
- `WriteLoop`, `ReadPool`, `ReadHandles`: the retry loop around every write; the permit-rationed read connections
  as a machine of atomic sections that threads interleave, and as an object whose operations are runs of it.
- `Watchdog`, `Paste`, `Batch`: the startup watchdog, the bracketed-paste feed, and crash and resume of the
  batch runner.

## What turned out to be conditional

Six properties the design states, or suggests, hold only under a condition. Each is proved as an
if-and-only-if, with a lemma that shows an input on the failing side or what follows from one.

- The conversation key of a session is its own key exactly when climbing from the session, parent by parent,
  ever stops (`Lineage.KeyIdempotentIff`, on any parent graph). On a cycle of closed segments it does not
  (`Lineage.KeyOnCycleNotIdempotent`). No run of the modelled writers builds a cycle, because parents are always
  older than children; `create_session` filling in a missing parent on an existing row is not one of them.
- A published parent can be published a second time, by some run without a prune, exactly when it is a session
  with a non-empty id, the published child is marked as a fork or tool child, and no other child continued the
  parent when it was published (`Rotation.ForksIff`; `Rotation.MarkedChildForks` is such a run). Over every run
  without a prune only a marked child leaves its parent open to another (`Rotation.OnlyMarkedChildrenFork`).
- Recovering a stale base index makes it exact exactly when no tool row above the stored tool high water is
  longer than the indexed prefix (`FullText.RecoverExactIff`): the recovery transaction rebuilds whole rows and
  does not move the high water, so the next delete of such a row names values the index does not hold
  (`FullText.DeleteAfterRecoveryCorrupts`; `FullText.RecoveryNotExact` reaches it from an empty database).
- Rebuilding an index in place keeps it exact exactly when no covered row lies in the window a deferred rebuild
  still hides (`FullText.RebuildInPlaceExactIff`): the marks stay, and the next backfill chunk indexes such a
  row a second time (`FullText.BackfillAfterRebuildCorrupts`; one message and a fresh rebuild reach it,
  `FullText.RepairDuringRebuildCorrupts`). Finishing a deferred rebuild is exact exactly when the swept span
  reaches every row the backfill left (`FullText.FinishExactIff`). It is asked for only once the backfill has
  reached the high water (mason_state_search.py:335-341), and then it is exact (`FullText.FinishWhenDoneExact`);
  1001 messages show what an earlier one would do (`FullText.FinishTooSoonNotExact`).
- Finishing the CJK backfill announces the index whether or not its triggers were dropped meanwhile; it is complete
  exactly when the sweep closes the gap (`CjkIndex.FinishCompleteIff`, `CjkIndex.StaleFinishKeepsGap`; a message,
  its backfill, a detach and a delete reach the failing side, `CjkIndex.StaleFinishReached`). An open, by
  contrast, only ever announces a complete index (`CjkIndex.CjkDatabase.EnsureFtsCjkSchema`).

- A progress lease claimed on an armed startup watchdog is kept, up to its clamp, by every run exactly when the
  thread has not already sampled the lease it is judging by (`Watchdog.LeaseKeptIff`); a lease that comes between
  that sample and the claim of the fire transition is too late, and the watchdog may fire at once.

Where a comment and the code differ, the model follows the code.

## Model

| member | source | states |
|---|---|---|
| `Lineage.WalkIsRoot` | mason_state_compression.py:436-460 | on every acyclic parent graph the walk with its visited set ends at the same root as plain recursion up the parents |
| `Lineage.WalkAvoidsSeen` | mason_state_compression.py:436-460 | on any graph, cyclic ones included, the walk never ends at a row it has already left |
| `Lineage.KeyOfParent` | mason_state_compression.py:436-460 | a compression continuation and its parent have one conversation key |
| `Lineage.UpOnColumns` | mason_state_compression.py:447-459 | the walk takes a step exactly to a non-empty parent that compression closed, from a row whose source is not "tool" and neither of whose markers names that parent |
| `Lineage.OwnConversation` | mason_state_messages.py:1058-1074 | a tool session, a branch or delegate of its own parent, and a row whose parent is none, missing or not closed by compression each have a conversation key of their own |
| `Lineage.ContinuationSharesKey` | mason_state_compression.py:436-460 | every other row has the key of its parent, copied markers that name another session or not |
| `Lineage.MarkersBindToParent` | mason_state_messages.py:1058-1074 | with a parent a marker makes a fork exactly when it names that parent; without one any marker does |
| `Lineage.ChainSharesKey` | mason_state_compression.py:436-460 | every segment of a compression chain, however long, has the key of its first segment |
| `Lineage.KeyIsTopIff` | mason_state_compression.py:436-460 | on any parent graph the walk ends at a row with nothing above it exactly when climbing from the session ever stops |
| `Lineage.KeyIdempotentIff` | mason_state_compression.py:436-460 | on any parent graph, cyclic ones included, the key of the key is the key exactly when climbing from the session ever stops |
| `Lineage.KeyIdempotentWhenAcyclic` | mason_state_compression.py:436-460 | on acyclic graphs the key is idempotent |
| `Lineage.KeyOnCycleNotIdempotent` | mason_state_compression.py:436-460 | two closed sessions that are each other's parent have each other as key |
| `Lineage.GetCompressionChain` | mason_state_compression.py:598-618 | the forward walk starts at the session and goes only to unmarked children of segments that compression closed, repeats none, takes at most a hundred steps, and below that bound stops where no such child is left or the preferred one was met before |
| `Lineage.ForwardWalkKeepsKey` | mason_state_compression.py:598-618 | all segments the forward walk returns share one conversation key |
| `WellFormedness.RunWellFormed` | mason_state_messages.py:421-437 | every run keeps ids ordered and fresh, every row's session present, and every parent older than its child |
| `WellFormedness.PublishShape` | mason_state_compression.py:201-262 | what a publication commits, column by column, and what an accepted one implies about its arguments |
| `WellFormedness.LeaseStepFrame` | mason_state_compression.py:384-434 | acquiring, refreshing and releasing touch nothing but the lease tables |
| `Admission.AppendVerdict` | mason_state_messages.py:293-315 | exactly when an append loses its lease, finds the session closed or missing, or commits, and to which time it renews |
| `Admission.MutationVerdict` | mason_state_messages.py:202-232 | exactly when a user mutation is refused as compressing, leased or closed, and that a passed one has reclaimed both rows |
| `Admission.ReplaceVerdict` | mason_state_messages.py:439-471 | the same of a replacement, guarded or not |
| `Admission.RewindAdmission` | mason_state_messages.py:994-1040 | the same of a rewind, before its target is looked at |
| `Admission.RewindIsCounted` | mason_state_messages.py:1030-1031 | a committed rewind counts one more rewind of its session and of no other |
| `Admission.CompactVerdict` | mason_state_messages.py:528-535 | a compaction under a lock is refused as in progress exactly when at commit the row is gone, somebody else's or expired |
| `Admission.PublishVerdict` | mason_state_compression.py:201-262 | which publications are refused as busy, without parent, ended (all but the eight automatic reasons), empty or duplicate, in that order, and what an accepted one leaves in the lock row |
| `Admission.ForeignLockStopsPublication` | mason_state_compression.py:208-214 | a publication that requires the lease never commits under another holder's lock |
| `Admission.ReopenVerdict` | mason_state_compression.py:101-156 | a closed parent is reopened exactly when no child continues it and no lock of it is unexpired; the expired lock goes with it |
| `Admission.FirstWins` | mason_state_sessions.py:429-445 | the first end reason stands, whatever comes after |
| `Admission.LockClaim` | mason_state_compression.py:402-425 | a compression lock is gained exactly over no row, an expired one or a dead holder's, and runs until now plus the time asked |
| `Admission.TurnClaim` | mason_state_compression.py:470-487 | a turn lease likewise, already at its expiry, and for a tenth of a second at least |
| `Admission.Refreshes` | mason_state_compression.py:384-400 | a refresh of either kind extends the caller's row, expired or not, to now plus the time asked, and nothing else |
| `Admission.ReleaseUndoesClaim` | mason_state_compression.py:427-434 | releasing what was claimed over no row restores the store |
| `Admission.PruneVerdict` | mason_state_maintenance.py:278-292 | a prune takes exactly the selected, ended sessions that have no live lock and whose conversation has no live lease |
| `Admission.SweepVerdict` | mason_state_maintenance.py:166-176 | a sweep ends exactly the selected open sessions no live guard protects, and changes nothing else of any session |
| `Admission.ReclaimsOnlyStale` | mason_state_maintenance.py:107-118 | checking guards drops no live row, exactly the stale locks of the candidates, and exactly the stale leases no live lock hides |
| `Edits.AppendAdds` | mason_state_messages.py:293-315 | an append puts its messages after the live rows, in order, and leaves every earlier row and every other session as it was |
| `Edits.AppendedRows` | mason_state_messages.py:421-437 | each appended message is a row of its own, under the next id, live and not archived |
| `Edits.ReplaceLeavesNew` | mason_state_messages.py:439-471 | in each of the three modes exactly the new transcript is live afterwards and no other session changes |
| `Edits.ReplaceShelves` | mason_state_messages.py:456-468 | what each mode does to rows that are not live: deletes them, keeps them, or shelves the dropped live rows beside them without deleting any |
| `Edits.RewindLeavesPrefix` | mason_state_messages.py:1018-1035 | live rows before the target stay live and unchanged, the replacement follows, and exactly the live rows from the target on are deactivated |
| `Edits.RewindNeedsTarget` | mason_state_messages.py:1007-1014 | a rewind is refused as changed exactly when the pinned ids are not the live ids, and as not found exactly when no row of the session has the id |
| `Edits.RewindVerdict` | mason_state_messages.py:975-1021 | for the row that is the target, which input gives which error, exactly, and what replaces an accepted target |
| `Edits.PruneTakesExactly` | mason_state_maintenance.py:278-292 | a prune takes exactly the selected, ended, unprotected sessions and exactly their messages; a survivor loses its parent exactly when the parent went, and nothing else of it changes |
| `Snapshot.LockNeverReturns` | mason_state_compression.py:402-425 | once a fresh holder has lost the compression lock no run of other writers gives it back |
| `Snapshot.RemovalLosesLock` | mason_state_messages.py:202-209 | a replacement, rewind, foreign compaction or guarded prune that takes live rows away leaves the compressor without its lock |
| `Snapshot.RunKeepsSeen` | mason_state_messages.py:508-568 | as long as the compressor keeps the lock, no run of the others changes the live rows at or below its watermark |
| `Snapshot.WatermarkCovers` | mason_state_messages.py:483-489 | the captured watermark bounds every live row and lies below every id still to be handed out |
| `Snapshot.LockAtCommitMeansUnchanged` | mason_state_messages.py:530-535 | over every run, if the lock check at commit passes, the live rows at or below the watermark are exactly those live at capture; no removal and no other compaction committed in between |
| `Snapshot.LiveAtCommit` | mason_state_messages.py:508-568 | as long as the compressor keeps the lock, a row live at commit was live at capture exactly when it is at or below the watermark, and otherwise was inserted since |
| `Snapshot.CommitArchivesWhatWasRead` | mason_state_messages.py:508-568 | a compaction that passes the lock check after any run of the others commits, and the live transcript is then its summary followed by the messages that became live since the capture, in order |
| `Snapshot.CommitSettlesEveryRow` | mason_state_messages.py:536-559 | that commit archives as compacted exactly the rows live at capture but the last `tail_count` of them, hides those and the originals of the concurrent tail as if rewound, and leaves every row that was not live as it was |
| `Snapshot.RemovedTurnStaysRemoved` | mason_state_messages.py:530-535 | after a turn was removed, the compressor that read it is refused however the run continues |
| `Conservation.AdmitsIff` | mason_state_messages.py:560-563 | a compaction whose lock check passes commits exactly when its session exists or it inserts nothing |
| `Conservation.LiveAfterCompaction` | mason_state_messages.py:540-567 | the live sequence is the compacted messages followed by field-equal copies, in order and under fresh ids, of the live rows above the watermark |
| `Conservation.SupersededRows` | mason_state_messages.py:540-552 | the superseded rows are the last `tail_count` live rows the compressor saw, then everything above the watermark |
| `Conservation.ArchiveHidesSuperseded` | mason_state_messages.py:553-559 | archiving hides the superseded rows from display and keeps every other displayed message, with multiplicity |
| `Conservation.DisplayAfterCompaction` | mason_state_messages.py:540-567 | for every watermark and tail count, display gains the compacted messages and loses exactly the carried originals |
| `Conservation.NothingLostNothingDoubledIff` | mason_state_messages.py:508-519 | display grows by the non-tail compacted messages alone exactly when the last `tail_count` of them equal the carried originals as a multiset |
| `Conservation.NoRowDeleted` | mason_state_messages.py:553-559 | a compaction deletes no row, edits no message, and leaves rows that were not live untouched |
| `Counters.RewindCounted` | mason_state_messages.py:969-973 | a rewind, with or without a handoff replacement, leaves both counters right |
| `Counters.CompactCounted` | mason_state_messages.py:560-567 | a compaction with clones leaves both counters right |
| `Counters.PublishCounted` | mason_state_compression.py:235-254 | a publication leaves the counters of parent and child right |
| `Counters.StepCounted` | mason_state_messages.py:252-263 | every kind of step keeps the counters of every session right |
| `Rows.ToolCallsCounts` | mason_state_messages.py:421-437 | the counted tool calls are those of all the messages, one after the other |
| `Counters.CountersAgree` | mason_state_messages.py:252-263 | after every run `message_count` is the number of live rows and `tool_call_count` the number of their tool calls |
| `Fencing.TraceIsRun` | mason_state_messages.py:210-230 | the epochs and the log are only observed: the traced store is the store |
| `Fencing.StepTurns` | mason_state_messages.py:210-230 | no step but an acquire gives a conversation to a holder that did not have it |
| `Fencing.AppendsInEpochOrder` | mason_state_messages.py:210-230 | over every run the fenced appends of a conversation have non-decreasing ownership epochs, one writer to an epoch |
| `Fencing.LeaseNeverReturns` | mason_state_compression.py:470-487 | a holder without the lease of a conversation stays without it until it acquires that conversation again |
| `Fencing.StaleWriterRefused` | mason_state_messages.py:214-217 | such a holder's append is refused on every session of the conversation |
| `Fencing.ClaimSucceedsIff` | mason_state_compression.py:470-487 | a try to acquire ends with the caller owning the conversation exactly when nobody had it, its row was stale or the caller had it; a gain shuts out every other holder for the full time, and a failed try changes nothing |
| `Fencing.MutationTakesLease` | mason_state_messages.py:224-230 | a guarded replacement or rewind that commits has reclaimed the lease |
| `Fencing.ExpiredOwnerWrites` | mason_state_messages.py:218-223 | expiry alone takes nothing: the owner of an unclaimed expired row writes, and the write renews the lease |
| `Exclusion.LiveLockKept` | mason_state_compression.py:402-434 | no step that finds a compression lock live takes it from its holder |
| `Exclusion.LiveLockRefuses` | mason_state_messages.py:202-209 | under a live lock user mutations and foreign compactions are refused and a foreign acquire changes nothing |
| `Exclusion.LiveTurnKept` | mason_state_compression.py:470-487 | no step that finds a turn lease live takes it from its holder, except the holder's own release of that conversation |
| `Exclusion.HolderKeepsConversation` | mason_state_compression.py:470-487 | over any run whose steps find the lease live the holder keeps it |
| `Exclusion.LiveTurnRefuses` | mason_state_messages.py:210-230 | under another holder's lease fenced writes are refused, and while it is live so are user mutations and claims |
| `Rotation.PublicationContents` | mason_state_compression.py:201-262 | the child holds the non-empty handoff and then copies of the foreign tail; the parent loses no row and is closed |
| `Rotation.ForeignTailMembers` | mason_state_compression.py:236-250 | the foreign tail is the parent's live rows above the watermark and not above the ceiling |
| `Rotation.HandedOverStays` | mason_state_compression.py:101-156 | a parent with a continuation cannot be reopened, nor published again |
| `Rotation.RunKeepsHandover` | mason_state_compression.py:101-156 | over every run without a prune it stays closed and continued |
| `Rotation.ClosedRefuses` | mason_state_messages.py:231-232 | appends, replacements and rewinds on a closed parent are refused, guarded or not |
| `Rotation.Unforked` | mason_state_compression.py:201-262 | over runs of publish, append, end stamps and orphan reopens with unmarked children, every published parent has exactly one publication and keeps it |
| `Rotation.ReopenableAfterPublishIff` | mason_state_compression.py:101-156 | a parent just published can be reopened exactly when the child is marked, nothing else continues the parent and its lock, if any, has expired |
| `Rotation.ForksIff` | mason_state_compression.py:181-262 | after a publication some run without a prune publishes the same parent again exactly when its id is non-empty, the child was marked as a fork or tool child and no other child continued the parent before it |
| `Rotation.OnlyMarkedChildrenFork` | mason_state_compression.py:101-156 | over every run without a prune, whatever the marks, no child is published twice and of two publications of one parent the earlier had a marked child |
| `Rotation.MarkedChildForks` | mason_state_compression.py:101-156 | with a tool child one parent is published twice |
| `Rotation.PublicationKeepsKey` | mason_state_compression.py:436-460 | publishing an unmarked child leaves parent and child on the key the parent had, even with copied markers that name an older ancestor |
| `Rotation.TurnCarriesAcrossRotation` | mason_state_messages.py:1058-1074 | after a rotation a fenced append to the child is accepted exactly from the holder of the parent's lease |
| `StateDb.StateDb.SessionTurnLeaseKeyOnConn` | mason_state_compression.py:436-460 | the walk over any parent graph ends and returns the conversation key |
| `StateDb.StateDb.CheckTranscriptWriteGuards` | mason_state_messages.py:177-232 | admits or refuses as specified, and leaves exactly the reclaims and renewals of the checks it passed |
| `StateDb.StateDb.InsertMessageRows` | mason_state_messages.py:421-437 | inserts all messages as consecutive live rows and counts rows and tool calls, or is refused by the foreign key |
| `StateDb.ClonesAreCopies` | mason_state_messages.py:496-506 | cloning leaves every earlier row alone and adds, live under the next ids in order, one copy for each named row with its message and nothing else |
| `StateDb.ClonesAreTail` | mason_state_messages.py:536-567 | cloning by id still copies the tail after its flags were changed and other rows inserted |
| `StateDb.StateDb.CloneMessageRows` | mason_state_messages.py:496-506 | every earlier row is untouched; the new rows are live, in the target session, under fresh consecutive ids, and hold the messages of the named rows and of no other |
| `StateDb.StateDb.AppendMessagesBatch` | mason_state_messages.py:293-315 | commits the specified append, or restores every table and reports why |
| `StateDb.StateDb.ReplaceMessages` | mason_state_messages.py:439-471 | commits the specified replacement, or restores every table and reports why |
| `StateDb.StateDb.ValidateRewind` | mason_state_messages.py:975-1017 | accepting means: the target is a user row of the session with the given id, the live ids are the expected ones, and where the turn must be split it is live, user-originated and has the pinned content |
| `StateDb.StateDb.RewindToMessage` | mason_state_messages.py:994-1040 | commits the specified rewind and returns the target as it was, how many rows it hid, the greatest live id afterwards and the id of the replacement if there is one; or restores every table and reports why |
| `StateDb.StateDb.GetActiveMessageWatermark` | mason_state_messages.py:483-489 | returns the greatest live id of the session, 0 when there is none |
| `StateDb.StateDb.ArchiveLiveRows` | mason_state_messages.py:536-559 | the two flag updates over the selected ids are one archiving pass, and the selected tail is the concurrent tail |
| `StateDb.StateDb.ArchiveAndCompact` | mason_state_messages.py:508-568 | commits the specified compaction and returns the new live count, or restores every table |
| `StateDb.StateDb.PublishCompressionChild` | mason_state_compression.py:181-262 | commits the specified publication, or restores every table and reports why |
| `StateDb.StateDb.ReopenOrphanedCompressionSession` | mason_state_compression.py:101-156 | reopens exactly when the parent is closed, has no continuation of any kind and no unexpired lock |
| `StateDb.StateDb.ClaimLeaseRow` | mason_state_compression.py:53-67 | claims over nobody's or a stale row, tells whose row was reclaimed, and acquires exactly when the row left is the caller's |
| `StateDb.StateDb.TryAcquireCompressionLock` | mason_state_compression.py:402-425 | acquired means the row is the caller's |
| `StateDb.StateDb.RefreshCompressionLock` | mason_state_compression.py:384-400 | extends the row exactly when the caller owns it, expired or not |
| `StateDb.StateDb.ReleaseCompressionLock` | mason_state_compression.py:427-434 | afterwards the caller does not own the lock, and every other row of the table, a foreign lock on the same session included, is unchanged |
| `StateDb.StateDb.TryAcquireSessionTurnLease` | mason_state_compression.py:470-487 | acquired means the conversation's row is the caller's |
| `StateDb.StateDb.RefreshSessionTurnLease` | mason_state_compression.py:534-545 | extends the conversation's row exactly when the caller owns it |
| `StateDb.StateDb.ReleaseSessionTurnLease` | mason_state_compression.py:547-556 | afterwards the caller does not own the conversation, and every other row of the table, a foreign lease on the same conversation included, is unchanged |
| `StateDb.StateDb.UnguardedOf` | mason_state_maintenance.py:107-118 | checking the candidates one by one, in any order, spares exactly those a live guard protects and reclaims the stale guards |
| `StateDb.StateDb.PruneSessions` | mason_state_maintenance.py:278-292 | deletes the ended, unprotected sessions with their messages, orphans their children, and returns how many went |
| `StateDb.StateDb.SweepOrphanedSessions` | mason_state_maintenance.py:166-176 | ends exactly the matched open sessions no live guard protects, deletes nothing, and reclaims the stale guards it met |
| `Display.DedupeDisplayGenerations` | mason_state_messages.py:586-607 | shows, in id order, exactly the rows that are greatest by (active, id) among the rows with their key |
| `Display.EveryKeyShown` | mason_state_messages.py:586-607 | every row is shown or a better row of its key is |
| `Display.HiddenIff` | mason_state_messages.py:586-607 | a row is hidden exactly when a better row has the same role, live content, timestamp and tool columns; rows that differ in one of them are never collapsed |
| `Display.NoKeyShownTwice` | mason_state_messages.py:586-607 | no key is shown twice and nothing is shown that is not a row |
| `Display.DependsOnlyOnMembers` | mason_state_messages.py:586-607 | the projection depends only on which rows there are |
| `Display.Idempotent` | mason_state_messages.py:586-607 | projecting a projection changes nothing |
| `Display.LiveRowHiddenByNewer` | mason_state_messages.py:586-607 | a live row disappears only in favour of a newer live row of the same key |
| `FullText.ExactIsExpected` | mason_state_common.py:534-552 | being right about every id is holding exactly the gated projection of the rows |
| `FullText.InsertExact` | mason_state_common.py:562-575 | the insert trigger keeps the index exact and uncorrupted |
| `FullText.DeleteExact` | mason_state_common.py:577-591 | the delete trigger names an indexed row with its stored values, and keeps the index exact |
| `FullText.UpdateExact` | mason_state_common.py:596-622 | so does the update trigger, under any change of text, tools and role |
| `FullText.ChunkExact` | mason_state_search.py:303-341 | a backfill chunk, which stores whole rows, indexes no row twice and stores what the triggers would |
| `FullText.SeedExact` | mason_state_search.py:471-485 | an empty index with fresh markers is exact |
| `FullText.FinishExactIff` | mason_state_search.py:270-281 | finishing is exact exactly when the sweep reaches every covered row the backfill left |
| `FullText.RecoverExactIff` | mason_state_schema.py:543-588 | recovery is exact exactly when no tool row above the tool high water is longer than the prefix |
| `FullText.RebuildInPlaceExactIff` | mason_state_search.py:1204-1242 | an in-place rebuild is exact exactly when the window hides no covered row |
| `FullText.StepKeeps` | mason_state_common.py:534-622 | every step whose condition holds keeps the index exact while its triggers are installed |
| `FullText.ReachableIsExact` | mason_state_common.py:534-731 | in every state reached by such steps with triggers installed, for each of the three indexes, the index is exactly the gated projection and was never corrupted |
| `FullText.EntriesOnColumns` | mason_state_common.py:534-731 | with the triggers installed an entry is there exactly for a stored row outside the pending window that is not tool output (trigram, CJK) and lies in an eligible session (trigram), and it holds these columns |
| `FullText.DetachedIsStill` | mason_state_fts.py:317-360 | over any run of writes no write reaches an index whose triggers were dropped |
| `FullText.ChunkOnColumns` | mason_state_search.py:303-341 | a chunk moves the progress mark by at most 500 ids, never past the high water, and adds exactly the rows in between the index is for |
| `FullText.DeleteAfterRecoveryCorrupts` | mason_state_schema.py:543-588 | after a recovery, deleting an over-long tool row corrupts the index |
| `FullText.BackfillAfterRebuildCorrupts` | mason_state_search.py:1204-1242 | after an in-place rebuild, a backfill chunk over a hidden row corrupts the index |
| `FullText.RepairDuringRebuildCorrupts` | mason_state_search.py:1204-1242 | for each of the three indexes, one message and a fresh deferred rebuild, reached from an empty database, make an in-place rebuild inexact and its next chunk corrupting |
| `FullText.FinishWhenDoneExact` | mason_state_search.py:335-341 | asked for where the code asks for it, with the backfill at the high water or nothing to backfill, finishing is exact |
| `FullText.FinishTooSoonNotExact` | mason_state_search.py:270-281 | with 1001 messages and a fresh rebuild, reached from an empty database, finishing at once is not |
| `FullText.RecoveryNotExact` | mason_state_schema.py:543-588 | one tool result of 8193 characters, reached by the triggers alone, makes a recovery inexact |
| `FullText.PruneKeeps` | mason_state_maintenance.py:285-290 | deleting a session's messages, in any order, and then its row keeps the index exact |
| `FullText.ReversedPruneLeavesEntry` | mason_state_common.py:697-708 | with the session row gone first, a deleted message keeps its trigram entry |
| `IndexedStore.CommitShaped` | mason_state_messages.py:293-568 | every writer keeps a stored message as it is, drops it, or adds one under the next id, and changes no session's trigram eligibility |
| `IndexedStore.CommitKeepsIndex` | mason_state_common.py:534-731 | after the triggers of any commit of any writer the index again reads exactly the rows and sessions of the store, and is exact if it was |
| `IndexedStore.IndexFollowsStore` | mason_state_common.py:534-731 | over every interleaving of commits and index maintenance, from an empty database, each index reads exactly the store and is exact while its triggers are installed; only maintenance steps have conditions |
| `IndexedStore.EveryRowIsFound` | mason_state_common.py:534-622 | with no rebuild pending the base index then has exactly one entry for each row on record, live, rewound or archived, with its text, long tool output by its prefix |
| `IndexedStore.IndexOnColumns` | mason_state_common.py:534-731 | over every such run: the base index has an entry for every message, the CJK index for every one but tool output, the trigram index for every one but tool output and those of scheduled and delegated sessions; which columns each holds, and 8192 characters of long tool output |
| `CjkIndex.ExactWithoutMarkersIsComplete` | mason_state_fts.py:52-93 | an exact index without markers holds every non-tool row and nothing else |
| `CjkIndex.CreatedExact` | mason_state_fts.py:241-260 | a just-created index is exact, whether the store is empty or populated |
| `CjkIndex.CjkDatabase.EnsureFtsCjkSchema` | mason_state_fts.py:197-272 | an open keeps triggers off stale indexes, is available exactly when loaded, unstale and unmarked, and then serves a complete index |
| `CjkIndex.CjkDatabase.ResetIfStale` | mason_state_search.py:408-425 | drops a stale index, its markers and its breadcrumb together, and does nothing else |
| `CjkIndex.CjkDatabase.EnterFtsFailOpen` | mason_state_fts.py:317-360 | leaves the breadcrumb exactly when there were triggers to drop |
| `CjkIndex.CjkDatabase.PruneSession` | mason_state_maintenance.py:287-290 | removes the session's messages and then its row, keeping the index exact throughout |
| `CjkIndex.CjkDatabase.RebuildStep` | mason_state_search.py:303-341 | one chunk, with work left exactly while the progress mark is below the high water |
| `CjkIndex.CjkDatabase.RebuildFinish` | mason_state_search.py:263-281 | finishing announces the index; it is complete whenever it is not stale, and in general exactly when the sweep closes the gap |
| `CjkIndex.FinishCompleteIff` | mason_state_search.py:270-281 | finishing any backfill ends complete exactly when every entry is right and every missing row lies within the sweep |
| `CjkIndex.StaleFinishKeepsGap` | mason_state_search.py:263-268 | a detached index that kept the entry of a deleted row is announced with it |
| `CjkIndex.StaleFinishReached` | mason_state_search.py:263-268 | from an empty database, a message, its backfill, a detach and a delete reach such an index |
| `WriteLoop.SessionWriter.SleepBeforeWriteRetry` | mason_state.py:1077-1089 | sleeps exactly when the deadline has not passed, ends at most a millisecond after it, for 20 to 150 ms, after two seconds of waiting for 250 to 1000 ms, less only when that reaches the deadline |
| `WriteLoop.SessionWriter.RetryAfter` | mason_state.py:821-880 | for each class of error: exactly when it is retried, against which deadline, and what it uses up; a disk error at BEGIN is retried unless it has been or the patience is used up |
| `WriteLoop.SessionWriter.ExecuteWrite` | mason_state.py:777-880 | ends for every sequence of outcomes; every attempt but the last was rolled back and retried; lock sleeps fit the patience; a lock refusal has used up the patience, a compression refusal its own wait, and a disk error at BEGIN its one retry or the patience |
| `WriteLoop.RetriesCommitNothing` | mason_state.py:805-812 | retried attempts commit nothing |
| `WriteLoop.CommitsOnceOrRaises` | mason_state.py:777-880 | a write returns after exactly one commit; a callback hit by a disk error is never run again; indexes are detached at most once and a disk error at BEGIN retried at most once |
| `ReadPool.StepGood` | mason_state.py:648-743 | every atomic section keeps permits conserved and pools exact |
| `ReadPool.RunGood` | mason_state.py:648-743 | over every interleaving, free permits plus holders equal the ceilings, for each file and for the process, and a pool holds exactly its handle's idle connections |
| `ReadPool.PoolNeverFull` | mason_state.py:728-741 | a returning reader always finds room in the pool |
| `ReadPool.LendsIdleOnly` | mason_state.py:706-715 | what a checkout newly lends was idle in that handle's pool and is in no pool afterwards |
| `ReadPool.CheckoutTakesIdle` | mason_state.py:706-715 | a hit lends the newest pooled connection, which nobody else holds |
| `ReadPool.PermitsInUse` | mason_state_readpool.py:180-199 | permits in use of a file are its open connections plus opens and releases in progress |
| `ReadPool.StaysDrained` | mason_state.py:1150-1154 | nothing enters the pool of a closed handle once it is drained |
| `ReadPool.NothingLeftBehind` | mason_state.py:1150-1154 | after the drain, once readers and closers have left, the handle has no connection |
| `ReadPool.AllPermitsBack` | mason_state_readpool.py:196-199 | when that holds of every handle all permits are back |
| `ReadHandles.ReadPools.GetReadConn` | mason_state.py:648-687 | a run of sections that lends a fresh connection exactly when the handle is open, a permit of the process and of the file is free and the open succeeds, and otherwise leaves nothing of its own behind |
| `ReadHandles.ReadPools.CheckoutReadConn` | mason_state.py:706-715 | lends the newest idle connection of the handle when there is one, and otherwise a fresh one exactly when one can be had |
| `ReadHandles.ReadPools.LeaveReadCtx` | mason_state.py:717-741 | the connection is back on top of the pool, or gone with its permits exactly when the handle is closed |
| `ReadHandles.ReadPools.EvictOneIdleReadConn` | mason_state.py:689-704 | closes one idle connection exactly when there is one |
| `ReadHandles.ReadPools.Close` | mason_state.py:1150-1154 | ends with the handle closed and its pool drained |
| `Watchdog.StartupWatchdogHandle.Disarm` | mason_startup_watchdog.py:204-213 | the handle is never armed afterwards, and one that was not armed keeps its phase |
| `Watchdog.DisarmDecides` | mason_startup_watchdog.py:204-213 | whatever follows a disarm, the watchdog fires exactly when its claim came first, and otherwise stays disarmed |
| `Watchdog.StartupWatchdogHandle.Kick` | mason_startup_watchdog.py:215-226 | the deadline is a timeout and a positive extra away |
| `Watchdog.StartupWatchdogHandle.Lease` | mason_startup_watchdog.py:228-247 | a positive lease runs at least until now plus what was asked, at most 900 s, and never shortens what there was |
| `Watchdog.StartupWatchdogHandle.ExtendIfArmed` | mason_startup_watchdog.py:353-359 | extends exactly while armed |
| `Watchdog.StartupWatchdogHandle.ClaimFire` | mason_startup_watchdog.py:410-415 | the fire transition succeeds exactly from the armed state |
| `Watchdog.LeavesArmedOnce` | mason_startup_watchdog.py:204-213 | over every run the handle leaves the armed state at most once |
| `Watchdog.FiresOnlyWithCause` | mason_startup_watchdog.py:361-417 | over every interleaving it fires only on a passed sampled deadline, an expired sampled lease, and absent CPU progress or a spent cap |
| `Watchdog.LeaseKeptIff` | mason_startup_watchdog.py:228-247 | a lease claimed on an armed watchdog is kept by every run, up to its clamp, exactly when the thread has not already sampled the lease before; else it may fire at once |
| `Watchdog.KickHolds` | mason_startup_watchdog.py:215-226 | a kick that finds the thread with no passed deadline in hand keeps every run without another kick from firing for a timeout and the extra |
| `Watchdog.ExtensionHolds` | mason_startup_watchdog.py:376-404 | CPU progress with an extension left buys a whole timeout, and an honoured lease its whole length |
| `Watchdog.RunPrompt` | mason_startup_watchdog.py:361-375 | the thread always looks at the clock within a bounded time of the current deadline, kicks that shorten it included |
| `Watchdog.QuietStep` | mason_startup_watchdog.py:376-409 | without further leases or kicks the lease is honoured at most once and each CPU extension adds at most a timeout and a wake-up |
| `Watchdog.SpentIs` | mason_startup_watchdog.py:58-75 | what k extensions add is k times the timeout and the wake-up delay |
| `Watchdog.FiresInTime` | mason_startup_watchdog.py:361-417 | after the last lease or kick it has fired or been disarmed by max(lease end, deadline + delay + poll) + delay + unused extensions times (timeout + delay) |
| `Watchdog.FiresLeftAlone` | mason_startup_watchdog.py:361-417 | from every reachable armed state, wherever the thread is, it comes to firing if nobody disarms, kicks or leases any more and there is no CPU progress |
| `Paste.FeedIsSteps` | cli.py:1932-1971 | without a timeout, feeding a chunk is running a one-character automaton over it |
| `Paste.ChunkIndependence` | cli.py:1932-1971 | two ways of cutting the same input report the same and leave the same state, end marks across cuts included |
| `Paste.PromptChunksNeverTimeOut` | cli.py:1948-1953 | chunks that arrive within two seconds of the start of the wait never time out |
| `Paste.TimesOutIff` | cli.py:1947-1964 | a feed without an end mark gives the paste up, reporting what there is of it, exactly when more than two seconds have passed since the first such feed, and otherwise buffers it |
| `Paste.EndsAtFirstMark` | cli.py:1934-1946 | the first `ESC[201~`, across chunks too, ends the paste: what is before it is reported and what follows is fed as input |
| `Paste.SendsUntilPaste` | cli.py:1965-1971 | outside a paste every character goes to the inner parser and its keys are reported, until it has seen the start mark |
| `Paste.FeedAccountsForInput` | cli.py:1932-1971 | with or without timeouts, one feed accounts for each character once and in order |
| `Paste.FeedAllAccountsForInput` | cli.py:1932-1971 | so do any number of feeds |
| `Paste.Vt100Parser.FeedData` | cli.py:1932-1971 | the mutually recursive in-place feed ends and does what the feed is specified to do |
| `Paste.Vt100Parser.FeedPaste` | cli.py:1933-1962 | buffers, reports at the end mark or the timeout, and feeds the remainder |
| `Batch.ChunkKeepsOrder` | batch_runner.py:403-405 | batches are non-empty, bounded, and together the entries in order |
| `Batch.ProcessBatchWorker` | batch_runner.py:296-374 | each prompt not known to be completed runs once; exactly those that end with a line are reported as completed, and the line carries their own text, whether it is a tombstone and what their tools were |
| `Batch.WorkerIsARun` | batch_runner.py:296-374 | as steps of the whole, such a worker adds exactly those lines, completes exactly those prompts, and touches no other task and no checkpoint |
| `Batch.RunKeeps` | batch_runner.py:626-672 | every run of starts, workers, results and crashes keeps the claims of the checkpoint backed by lines |
| `Batch.CheckpointIsBacked` | batch_runner.py:656-672 | over any number of crashes a checkpointed index has a durable line |
| `Batch.FilesStay` | batch_runner.py:626-672 | over every run written lines stay in order and the checkpoint changes only by saving, crashes included |
| `Batch.ResumeRerunsNothing` | batch_runner.py:525-579 | a resumed run, with the checkpoint found or discarded, runs no prompt whose text was on record when it began |
| `Batch.ResumeTakesExactly` | batch_runner.py:557-579 | it sets out to run exactly the entries whose text no line has, or that have none, and whose index the checkpoint of this run does not hold |
| `Batch.FinishedRunCovers` | batch_runner.py:581-600 | a run in which nothing failed and nothing waits has every non-empty prompt on record |
| `Batch.MergeIgnoresOrder` | batch_runner.py:656-672 | the final checkpoint does not depend on the order of the results |
| `Batch.CombineBatchFiles` | batch_runner.py:690-735 | the merge writes the combined lines and reports their number |
| `Batch.CombinedIsTheMergeable` | batch_runner.py:690-735 | of each line the merged file holds as many copies as the batch files do if it is readable, no tombstone and names no invalid tool, and none otherwise |
| `Batch.CombinedKeepsOrder` | batch_runner.py:690-735 | a merged line that precedes another in the batch files precedes it in the merged file |

## Left out

- Storage engine: pragmas, WAL and SHM files, checkpoints, quarantine, VACUUM and file identity. Transactions are taken to be atomic and serializable, and message ids to be strictly increasing and never reused.
- Clocks: one reading per transaction, with nothing assumed about successive readings, so a lagging acquire is covered; where the code reads the clock twice inside one admission check the model uses one reading.
- Dead holders: which holders' processes are gone is an input of each step.
- Content: text is opaque. JSON, surrogate scrubbing, the reasoning, token and platform columns, `api_content`, `display_kind` and `display_metadata` are not modelled; they are copied with the row and no modelled branch but the display key reads them, which takes the live view of a user turn as a function of the row.
- Tool calls: list-shaped only. The helpers count other JSON shapes differently.
- `ended_at` and `end_reason` are one optional reason: every writer stamps and clears them together.
- The `model_config` patch of a compaction, system prompts, titles, usage, cooldowns, pins and gateway columns, and files removed after a prune.
- `create_session` on an existing id (which may fill in a missing parent or a missing configuration with its markers), `reopen_session` and `delete_session` are not steps. A `chunk_rows` batch is a run of batch appends.
- `split_user_originated_turn`: uninterpreted. What it yields for the target is an argument of a rewind.
- `resolve_and_repair_transcript_batch`: taken to be the identity.
- Which sessions a prune or sweep selects by age, source and filters is an argument; that only ended (or only unended) sessions are candidates is modelled.
- `acquire_session_turn_lease`: polling around the single try, with callbacks.
- Lineage.GetCompressionChain: the order of preference among the children of a segment is a function that answers with a continuation when there is one, because the preference is a query over columns the lineage does not read.
- Snapshot.CommitArchivesWhatWasRead: assumes the mutators of the compressed session are the guarded ones and that holder tokens are fresh per attempt, because an unguarded replacement or a reused token really can remove rows behind a compressor. The same goes for the other theorems of `Snapshot`.
- FullText.ReachableIsExact: takes the trigram eligibility of a session as fixed while it has rows, because the delete trigger probes the session row as it is at the time; `IndexedStore` proves that of every modelled writer.
- IndexedStore: a commit is followed in one order, sessions created, messages deleted, messages inserted, sessions dropped, which is the order of every writer; updates of the lifecycle flags fire no trigger.
- FullText, seeding: seeding markers over existing ones (which only repairs a missing progress mark) and legacy inline indexes are not modelled; the three indexes are followed separately, so one rebuild that fails on one table only is not.
- CjkIndex: each open is one step. A write by a process without the tokenizer while the triggers are installed fails and changes nothing.
- WriteLoop: no other thread re-enables the indexes during a write, sleeps are exact, and the quarantine that follows structural corruption is one final error.
- ReadPool: the descriptor-headroom gate and the back-off after a failed open only refuse earlier and are left out; a permit miss that first evicts a peer's idle connection is an eviction step followed by the attempt. Reader threads are represented by the connections they hold.
- Watchdog: the thread is a state machine over its lock sections, whose code takes no time beside its waits; the forensic dump and the exit escort after the fire transition are left out.
- Paste.ChunkIndependence: the clock reading at which the wait for an end mark began is not part of the compared state, because it is when a chunk arrived.
- Paste: the inner key parser is an arbitrary transducer. Loading and patching of the terminal library is left out.
- Batch: appended lines are atomic. `WorkerIsARun` lets one worker run undisturbed; others only add their own lines between its lines. Agent execution, statistics and printing are left out, and the first human message of a trajectory is taken to be its prompt.
- Search queries, resume projections, gateway compare-and-swap updates, cross-process file locks, terminal UI and configuration are not modelled.
