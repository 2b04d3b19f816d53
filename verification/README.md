# Flowstate: the log, its cache, its indexes and its recoverer

flowstate is a workflow engine built on an append-only log of states with
strictly increasing revisions. This project models the parts of it that have to
be right for the engine to be durable, and proves what they promise:

- **Log and drivers.** `states.dfy` and `revlog.dfy` hold states, the merging
  copy, the label matchers and the reference answer to "states with a revision
  greater than SinceRev". `memlog.dfy`, `memscan.dfy` and `memdriver.dfy` are the
  in-memory driver: compare-and-swap commits with rollback, and the batched scan;
  `memcommit.dfy` is what a refused commit leaves behind and what an accepted one
  publishes.
- **Cache and iterator.** `cache.dfy` to `cachesystem.dfy` are the ring buffer of
  the cache driver, its reorder buffer, the head poller and the log iterator, as
  pure steps interleaved in any order, `cachedrain.dfy` what it means that Next
  returned false, and `cachestale.dfy` a run that goes wrong; `cachefill.dfy` is how
  far each way of filling the ring gets. `cachedriver.dfy` and `iter.dfy` are the
  objects that make those steps, `cachelookup.dfy` the lookup by ID and
  `conflictcheck.dfy` the cache's commit check.
- **Badger.** `watermark.dfy` and `badgercommit.dfy` are the revision watermark and
  the commit loop, `badgerhistory.dfy` runs of its commits; `labelsiterator.dfy`, `oriterator.dfy` and `keys.dfy` the
  label indexes: a leapfrog intersection, a k-way merge and zero-padded keys;
  `orquery.dfy` puts them together.
- **Codec.** `wire.dfy`, `base64.dfy`, `codec.dfy` and `ctxcodec.dfy` are the wire
  format and the codecs of states and contexts; `commands.dfy` and
  `commandcodec.dfy` the command trees with shared contexts; `stack.dfy` Stack and
  Unstack; `codecmethods.dfy` the loops. `wirelayout.dfy`, `codeclayout.dfy` and
  `commandlayout.dfy` say what the bytes and messages are without reference to the
  code that writes them.
- **Recovery.** `recovery.dfy` is one recoverer and what it reads through the cache,
  `recoveryreads.dfy` the ring's pages as such reads, `recoveryknows.dfy` what it holds
  after reading, `recoverysystem.dfy` any number
  of recoverers on one log, `recoverybound.dfy` the bound on retries and what is lost
  where a condition fails, `recoverer.dfy` the object.

A Go string is a sequence of bytes and is modelled as a string with one byte per
character; a nil and an empty map are the same value. Go's order of iteration
over maps and sets is an arbitrary order given as a parameter. Clocks, tickers,
other clients' commits and the outcomes of commits are parameters or free choices
of a step.

## What turned out not to hold

Where the code does not meet the property one would expect, the property is
stated with its exact condition, or with an input that breaks it:

- The two label matchers differ on an empty label set (`States.MatchersAgree`).
- A ring slot keeps map keys of its evicted occupant (`CacheSlots.SlotIsExact`,
  `CacheSlots.SlotAnswersExactly`, `CacheSlots.FaithfulExactly`), so a labelled
  query can be delivered a state that does not match (`CacheStale.StaleSlotDelivers`).
- The engine reads everything through such a ring, the recoverer too. A stale
  annotation can hide that a state is to be recovered (`Recovery.EnabledSurvives`,
  `RecoveryBound.StaleSlotHidesWork`) or misstate how often it was or may be
  retried (`Recovery.AttemptSurvives`, `Recovery.MaxAttemptsSurvives`,
  `RecoveryBound.FreshStateParkedAtOnce`). Checkpoint safety and bounded recovery
  are proved of the runs whose reads keep these, and in particular where pages are
  exact or states carry the annotations themselves.
- An ordinary transit inherits the attempt count of the retries before it
  (`RecoveryBound.TransitInheritsAttempt`).
- Two sub-commands on one ID are both accepted by the in-memory driver and break
  the linear history (`MemLog.AcceptedIsLinear`, `MemCommit.OneIDTwiceIsAccepted`):
  the result of its duplicate removal is discarded.
- A commit that fails half-way leaves contexts stamped with revisions that are
  never published (`MemCommit.RefusedIsRetryableExactly`, `MemCommit.CommitHalfway`); Badger's retry after a conflict
  therefore never succeeds (`BadgerCommit.ConflictIsFinal`).
- The cache's commit check can be spurious when a context's current revision is
  below its committed one (`ConflictCheck.PreCheckIsExact`).
- Drawing a revision and registering it are two critical sections, so the
  watermark can pass a revision not registered yet (`Watermark.SafeExactly`,
  `Watermark.RegisteringOutOfOrder`).
- After a restart nothing durable is visible until the watermark is set again
  (`Watermark.RestartHidesAll`).
- The in-memory driver's More can be false although more matches exist
  (`MemScan.MoreExactly`).
- The OR merge repeats or sticks when a state matches two label sets
  (`OrQueries.QueryIsSelectExactly`, `OrIterators.SharedRevisionSticks`).
- The codec cannot carry an empty map key (`Codec.StateRoundTrip`), nor a delayed
  state due at second 0 (`CtxCodec.DelayedRoundTrip`); Stack accepts what Unstack
  then refuses (`Stacks.UnstackUndoes`).
- Where a comment of `protobuf.go` and its code differ, the code is followed: field 3
  of the Transit and Park messages is a map of annotations.
- Padded keys order negative numbers backwards (`Keys.FormatOrder`).
- A standby recoverer's shutdown, or a retry that fails otherwise than by a
  revision mismatch, can move the checkpoint past unfinished work
  (`RecoveryBound.ShutdownIsSafeExactly`, `Recovery.FailIsOKExactly`, with inputs in
  `RecoveryBound.StandbyShutdownLosesWork`, `RecoveryBound.FailedRetryLosesWork`).

## Model

| member | source | states |
|---|---|---|
| `States.CopyIsExact` | state.go:33-47 | copying a state into another leaves exactly the source if and only if the target holds no map key the source lacks, since maps are merged and never cleared |
| `States.ReadIsHeld` | state.go:49-55 | a state read into a fresh context is its current state, and its committed one unless its revision is 0 |
| `States.MatchSet` | cachedriver.go:364-388 | the size test and the walk over the wanted pairs, in any order, decide "every wanted pair is in the labels" |
| `States.CacheMatchLabels` | cachedriver.go:364-388 | the cache's matcher: an empty set matches everything, otherwise one set must match |
| `States.DriverMatchLabels` | memdriver/driver.go:402-426 | the in-memory driver's matcher: empty sets are skipped, otherwise one set must match |
| `States.MatchersAgree` | cmd.go:235-242 | the two matchers agree on every state if and only if the query carries no empty label set, which is what WithORLabels keeps out |
| `States.LabelsDecideMatching` | cachedriver.go:364-388 | a copy answers every label query like its source if and only if it has exactly the source's labels |
| `RevLog.OrderedUnique` | cmd.go:213-218 | a reference answer in revision order is determined by its members, so "exactly the matching states, ascending" fixes the result |
| `RevLog.SelectUnique` | cmd.go:213-218 | any ordered list of exactly the matching states greater than SinceRev, up to a bound, is the reference answer |
| `RevLog.SelectStable` | cmd.go:213-218 | later commits never change the answer about revisions already passed |
| `Cache.AppendWindow` | cachedriver.go:53-75 | at every ring size >= 1 and every wrap position, an append pushes the merged slot on the window and drops the oldest entry only when the ring is full |
| `Cache.AppendMin` | cachedriver.go:62-70 | the minRev computed from the next slot is one below the oldest entry left in the window |
| `CacheProofs.AppendKeeps` | cachedriver.go:53-75 | appending the next logged revision keeps the ring gap-free over (minRev, maxRev] |
| `CacheProofs.DrainKeeps` | cachedriver.go:241-265 | draining the sorted reorder buffer keeps the ring gap-free and stops only at a real gap |
| `CacheProofs.CommitAppendKeeps` | cachedriver.go:227-266 | for every batch of logged states, in whatever order commits arrive and whatever the 100-entry buffer drops, the ring invariant holds |
| `CacheProofs.ApplyPageKeeps` | cachedriver.go:329-344 | a page of newer states keeps the ring gap-free even when it is stale by the time it is applied |
| `CacheProofs.ApplyLatestKeeps` | cachedriver.go:312-319 | starting the window at the log's latest state keeps the invariant, also when a commit got there first |
| `CacheFill.DrainExactly` | cachedriver.go:241-265 | the drain appends the whole run of consecutive revisions past the ring, and keeps exactly what lies beyond the gap, in order |
| `CacheFill.BufferedExactly` | cachedriver.go:227-240 | a batch is buffered in order, and only its end is dropped, when the buffer is full |
| `CacheFill.InOrderIsAppended` | cachedriver.go:227-266 | a batch of the next up to 100 revisions is in the ring when its update is done |
| `CacheFill.PageIsTakenIn` | cachedriver.go:329-344 | after a head page the ring ends at the page's last state, unless it was past it, and nothing waits in the buffer |
| `CacheFill.LatestIsTakenExactly` | cachedriver.go:312-319 | on a ring in use the log's latest state is appended if and only if it is the next revision |
| `CacheFill.LatestStartsRing` | cachedriver.go:312-319 | on an empty ring it starts the window |
| `CacheProofs.FilterRefines` | cachedriver.go:132-174 | for SinceRev in [minRev, maxRev) the ring's matches have the IDs and revisions of the log's matches in (SinceRev, maxRev], for labels the ring answers faithfully |
| `CacheProofs.AnswerRefines` | cachedriver.go:132-174 | the page has the IDs and revisions of the log's answer cut at Limit, with More if and only if something was cut |
| `CacheSlots.SlotIsExact` | cachedriver.go:59 | a reused slot holds exactly the state written if and only if its evicted occupant had no key the new state lacks |
| `CacheSlots.SlotAnswersExactly` | cachedriver.go:59 | it answers every label query like the state written if and only if the evicted occupant had no label key the new state lacks |
| `CacheSlots.UnwrappedFaithful` | cachedriver.go:132-174 | until the ring wraps, it answers every label query as the log does |
| `CacheSlots.UniformFaithful` | cachedriver.go:132-174 | at every wrap position it does so too when all states carry one label-key set |
| `CacheSlots.FaithfulExactly` | cachedriver.go:53-75 | a window answers every label query faithfully if and only if each of its slots has exactly its log state's labels |
| `CacheSlots.UnwrappedIsExact` | cachedriver.go:53-75 | until the ring wraps, every slot of the window is the log's state itself |
| `CacheSlots.ExactAnswers` | cachedriver.go:132-174 | the answer of such a window is the log's answer as whole states, for every query |
| `CacheDriverObject.SortByRev` | cachedriver.go:241-243 | sorting the buffer yields a sorted permutation of it |
| `CacheDriverObject.CacheDriver.constructor` | cachedriver.go:37-51 | a new cache is an empty window |
| `CacheDriverObject.CacheDriver.AppendStateLocked` | cachedriver.go:53-75 | the array update is the model's append; the precondition is the BUG panic |
| `CacheDriverObject.CacheDriver.GetStateByIDFromLog` | cachedriver.go:89-114 | the scan from the youngest slot computes the lookup that CacheLookup.ByRevExactly and CacheLookup.LatestExactly characterise |
| `CacheLookup.YoungestExactly` | cachedriver.go:103-111 | the scan finds the youngest slot with the ID and revision asked for, and misses only when there is none |
| `CacheLookup.ByRevExactly` | cachedriver.go:89-114 | by ID and revision the ring answers if and only if the revision is in its window and the log has it under that ID, and then with that state |
| `CacheLookup.LatestExactly` | cachedriver.go:89-114 | by ID alone it answers with the newest of the ID in its window, and misses if and only if there is none |
| `CacheLookup.GetStateByID` | cachedriver.go:79-85 | the whole lookup finds a revision if and only if the log has it, from the ring or the driver, and the newest always from the driver |
| `CacheDriverObject.CacheDriver.GetStatesFromLog` | cachedriver.go:132-174 | the scan over array slots answers what the window function says, with minRev and maxRev as they were |
| `CacheDriverObject.CacheDriver.CommitRevMismatch` | cachedriver.go:198-225 | reports exactly the IDs of contexts the cache has a newer revision of, reusing one scratch context or not |
| `CacheDriverObject.CacheDriver.CommitAppendLog` | cachedriver.go:227-266 | the fill, sort and drain loops together make one of the outcomes the model allows |
| `CacheDriverObject.CacheDriver.TakeLatest` | cachedriver.go:312-319 | the head poller's first state: appended exactly when the cache is empty or it is the next revision |
| `CacheDriverObject.CacheDriver.TakePage` | cachedriver.go:330-340 | the head poller's page: the reorder buffer emptied, newer states appended |
| `CacheSystem.WindowNeverHoles` | cachedriver.go:276-362 | in every run of commits, out-of-order cache updates and head polls, every committed revision in (minRev, maxRev] is in the ring, everything in the ring is in the log, and no append meets the BUG panic |
| `CacheSystem.ExactlyOnce` | iter.go:27-66 | in every interleaving whose ring answers are faithful, the states delivered are exactly the matching log states in (start, Cmd.SinceRev], ascending, each once |
| `CacheSystem.DeliveredAscends` | iter.go:27-66 | delivered revisions strictly ascend |
| `CacheSystem.ExactlyOnceUnlabelled` | iter.go:27-66 | without labels this holds in every run |
| `CacheSystem.ExactlyOnceUnwrapped` | iter.go:138-166 | with labels it holds in every run until the ring wraps |
| `CacheSystem.ExactlyOnceUniform` | iter.go:138-166 | with labels it holds in every run, wrapped or not, when states share one label-key set |
| `CacheStale.StaleSlotDelivers` | cachedriver.go:53-75 | a run over a ring of one slot in which a labelled query is delivered an unlabelled state through a reused slot |
| `CacheSystem.PollFindsMatch` | iter.go:118-166 | a poll answered by the driver delivers a match at or before any match that was there when it started |
| `CacheSystem.JumpIsSafe` | iter.go:150-163 | moving the cursor to maxRev or minRev skips no match |
| `CacheDrain.FalseMeansDrained` | iter.go:27-66 | in every such run, when Next returns false the page promises nothing more, and everything up to where its query looked has been delivered, unless the driver's page was cut at the limit |
| `CacheDrain.QuietLogIsDrained` | iter.go:27-66 | so when the query looked past all of a log, every match in it has been delivered, with the same exception |
| `CacheDrain.HitFindsMatch` | iter.go:138-148 | a poll answered by the ring delivers a match at or before any match the ring holds |
| `CacheDrain.EmptyHitMoves` | iter.go:146-148 | one that finds nothing moves the cursor to maxRev, which is further |
| `CacheDrain.EmptyScanMoves` | iter.go:150-163 | a poll the driver answers with nothing moves it up to the ring's minRev |
| `IterObject.LogIter.Next` | iter.go:27-66 | Next delivers from the page at hand or loads a page that is the ring's answer, or on a miss a page of the log scanned while others commit; when it returns true it stands on the state at the cursor, and when false the page promises nothing more, so Wait may be called |
| `IterObject.LogIter.GetStates` | iter.go:118-166 | one round of Wait: a page to deliver, or the cursor moved to maxRev after a hit and up to minRev after a miss |
| `MemLog.LatestRevIsGreatest` | memdriver/driver.go:318-328 | the latest entry of an ID carries its greatest revision |
| `MemDriver.VerdictExactly` | memdriver/driver.go:178-208 | a commit is accepted if and only if every sub-command but Noops has a flow to go to, an ID, a context that names the latest revision of its ID, and a context no earlier sub-command used; otherwise it is refused for the first that fails |
| `MemLog.StampedIsPublished` | memdriver/driver.go:260-281 | after Append the caller's context holds exactly the state that will be published |
| `MemCommit.NewStateIsPublished` | memdriver/driver.go:260-281 | the first state of an ID is published as its context holds it, at the flow and with exactly the annotations of its Transit, or parked |
| `MemCommit.LaterStateOverlays` | memdriver/driver.go:260-281 | a later one overlays the entry before it: what the sub-command and the context say wins, and nothing of the entry goes away |
| `MemLog.AcceptedIsLinear` | memdriver/driver.go:178-208 | an accepted commit extends a history in which every entry names its predecessor if and only if its sub-commands are about distinct IDs |
| `MemLog.HistoryIsLinear` | memdriver/driver.go:178-208 | over every run of accepted commits, each entry names the revision immediately before it on its ID if and only if every commit was about distinct IDs |
| `MemLog.ConsumedOnce` | memdriver/driver.go:198-200 | in such a history no (ID, expected revision) pair is consumed twice |
| `MemLog.OlderNameIsRefused` | delay.go:337-346 | once a newer revision of an ID is published, a commit naming an older one is refused then and ever after, so a replaying delayer commits at most once |
| `MemLog.BurntNameIsRefused` | memdriver/driver.go:198-204 | a context stamped by a commit that failed later can never be committed again |
| `MemCommit.RefusedCommitBurns` | memdriver/driver.go:178-208 | a refused commit leaves every context used before the failing sub-command with a revision no later log ever holds for it |
| `MemCommit.RefusedIsRetryableExactly` | memdriver/driver.go:178-208 | it leaves every context naming what it named if and only if the first sub-command that commits anything is the one that fails |
| `MemCommit.CommitHalfway` | memdriver/driver.go:178-208 | a commit on an empty driver that publishes nothing and leaves such a name behind |
| `MemCommit.OneIDTwiceIsAccepted` | memdriver/driver.go:284-286 | two contexts of one new ID in one commit are both accepted, and the history published is not linear |
| `MemScan.LatestOfIsNewest` | memdriver/driver.go:126-151 | the LatestOnly compaction keeps exactly one state per matching ID, its newest, ascending |
| `MemScan.ScanExtends` | memdriver/driver.go:126-143 | scanning one more batch extends the answer by exactly that stretch of the log |
| `MemScan.AnsweredIsPage` | memdriver/driver.go:93-154 | what the scan returns is a gap-free prefix of the matches covering everything up to untilRev unless cut by Limit, and More is set only if a further match exists |
| `MemScan.MoreExactly` | memdriver/driver.go:138-151 | More is false although more matches up to untilRev exist if and only if the limit was met just where the scan stopped and a match lies beyond |
| `MemScan.AnswerStable` | memdriver/driver.go:93-154 | commits between batches do not change what was scanned |
| `MemDriver.FilterStatesWithID` | memdriver/driver.go:210-220 | the in-place filter drops exactly the states of the ID and keeps the order |
| `MemDriver.ScanBatch` | memdriver/driver.go:126-143 | the loop over one batch is the model's scan |
| `MemDriver.StateLog.GetLatestByID` | memdriver/driver.go:318-328 | finds the latest entry of an ID |
| `MemDriver.StateLog.GetByIDAndRev` | memdriver/driver.go:330-338 | finds the entry of an ID at a revision |
| `MemDriver.StateLog.Append` | memdriver/driver.go:260-281 | stages one entry under the next revision and stamps the caller's context with it |
| `MemDriver.StateLog.CommitChanges` | memdriver/driver.go:283-312 | publishes the staged entries, uncompacted |
| `MemDriver.StateLog.Rollback` | memdriver/driver.go:314-316 | drops them and nothing else |
| `MemDriver.StateLog.Entries` | memdriver/driver.go:355-376 | returns the entries after a revision, up to a limit, and how far that read the log |
| `MemDriver.StateLog.GetLatestByLabels` | memdriver/driver.go:340-353 | finds the newest matching entry |
| `MemDriver.Driver.Commit` | memdriver/driver.go:178-208 | accepts and refuses as MemDriver.VerdictExactly says; accepted, it publishes one entry for each sub-command but Noops, each naming the revision its context was committed at, which is the latest of its ID; refused, the log is unchanged; either way exactly the contexts used before the point where it stopped carry a revision drawn by it |
| `MemDriver.Driver.GetStates` | memdriver/driver.go:93-154 | the batched scan terminates while the log grows and answers as MemScan.AnsweredIsPage says, LatestOnly or not; since -1 it starts at the newest match |
| `ConflictCheck.PreCheckIsSound` | cachedriver.go:198-225 | when the cache reports a mismatch, the driver refuses the same commit now and after any further commits |
| `ConflictCheck.PreCheckIsExact` | cachedriver.go:89-114 | the pre-check is never spurious on a context if and only if its current revision is not below its committed one |
| `ConflictCheck.IsStaleExactly` | cachedriver.go:198-225 | a context is stale if and only if the ring's window has a newer revision of its ID |
| `ConflictCheck.StaleExactly` | cachedriver.go:198-225 | the IDs reported are exactly those of stale contexts |
| `Watermark.SafeExactly` | badgerdriver/driver.go:434-475 | over every run of draws, registrations, commits, aborts and releases, nothing becomes durable below a watermark that was readable if and only if every durable revision was registered no lower than the watermark had been |
| `Watermark.InOrderIsSafe` | badgerdriver/driver.go:438-452 | when numbers are registered in the order drawn, the watermark is at or below every ongoing revision and no run stores below it |
| `Watermark.MarkNeverFalls` | badgerdriver/driver.go:465-471 | then the watermark never decreases |
| `Watermark.VisibleOnlyAppends` | badgerdriver/driver.go:153-154 | between two restarts, over any database, what readers see is then append-only: later visible revisions are greater than all visible before |
| `Watermark.RestartHidesAll` | badgerdriver/driver.go:41-53 | a driver opened on a database keeps its states durable but shows none of them, so across a restart what readers see shrinks unless it was empty |
| `Watermark.FirstReleaseShowsAll` | badgerdriver/driver.go:465-471 | as soon as the watermark is set again, everything that was durable is visible |
| `Watermark.ReleaseShows` | badgerdriver/driver.go:453-474 | after a release exactly the durable revisions at or below every one still ongoing, and the last registered, are visible, however many are ongoing |
| `Watermark.ReleaseShowsInOrder` | badgerdriver/driver.go:453-474 | with draws registered in order the last registered is no bound: a durable revision is visible if and only if nothing ongoing is below it |
| `Watermark.RegisteringOutOfOrder` | badgerdriver/driver.go:438-452 | drawing and registering are two critical sections: a run in which they interleave shows 2, then stores 1 |
| `Watermark.Least` | badgerdriver/driver.go:465-468 | the loop over the ongoing set, in any order, finds its least revision, capped by maxOngoing |
| `Watermark.SequenceWithCommit.Register` | badgerdriver/driver.go:449-452 | registering a drawn number is the model's step |
| `Watermark.SequenceWithCommit.Release` | badgerdriver/driver.go:453-474 | releasing a transaction's numbers is the model's step, and nothing when it drew none |
| `BadgerCommit.Commit` | badgerdriver/driver.go:307-384 | the retry loop is the recursive description of its attempts; without a conflict at the first, it is decided as BadgerCommit.AttemptExactly says |
| `BadgerCommit.AttemptExactly` | badgerdriver/driver.go:311-362 | a transaction is accepted if and only if every state it publishes has a flow and an ID and names the latest revision of its ID in the database, overlaid with the transaction's own writes; otherwise it is refused for the first that does not |
| `BadgerCommit.CommittedExactly` | badgerdriver/driver.go:307-384 | so a commit that publishes something succeeds if and only if its first attempt passes and meets no conflict |
| `BadgerHistory.NamesPredecessor` | badgerdriver/driver.go:337-343 | over every run of accepted transactions, each state names the revision immediately before it on its ID |
| `BadgerHistory.ConsumedOnce` | badgerdriver/driver.go:337-343 | and no pair of ID and expected revision is consumed twice, within a transaction or across them |
| `BadgerCommit.ConflictIsFinal` | badgerdriver/driver.go:311-384 | after a Badger conflict the retry never commits: the first attempt stamped the contexts, so the second is a revision mismatch on the first state published |
| `BadgerCommit.OnlyNoopsRetry` | badgerdriver/driver.go:311-384 | a commit that publishes nothing succeeds if and only if some attempt meets no conflict |
| `LabelsIterators.LabelsIterator.constructor` | badgerdriver/labelsiterator.go:34-78 | the new iterator stands on the first revision common to all posting lists at or past the bound, or is closed because there is none |
| `LabelsIterators.LabelsIterator.Next` | badgerdriver/labelsiterator.go:80-94 | Next stands on the next common revision, or closes because there is none |
| `LabelsIterators.LabelsIterator.SeekState` | badgerdriver/labelsiterator.go:126-165 | the leapfrog loop terminates, its target moving strictly each round, and aligns all cursors on the first common revision |
| `LabelsIterators.LabelsIterator.SeekAll` | badgerdriver/labelsiterator.go:142-189 | one round of seeks aligns every cursor, overshoots at one of them, or ends a list, without passing a common revision |
| `LabelsIterators.SeekSkipsNothing` | badgerdriver/labelsiterator.go:167-189 | a seek to a revision no common one lies before passes no common revision, and ends a list only when none is left |
| `LabelsIterators.Drain` | badgerdriver/driver.go:177-197 | walked to its end, forward or reverse, the iterator yields exactly the intersection of any number of lists, in order, each once |
| `OrIterators.NextStands` | badgerdriver/orlabelsiterator.go:47-60 | over sub-iterators that share no revision, Next goes to the next revision of their union, exhausted ones staying in the list |
| `OrIterators.OrderedExactlyWhenDisjoint` | badgerdriver/orlabelsiterator.go:47-118 | the merge ends having yielded in strict order if and only if no two sub-iterators yield the same revision, and then it has yielded their union |
| `OrIterators.EndedHolderSticks` | badgerdriver/orlabelsiterator.go:52-57 | otherwise, when an ended sub-iterator's last revision comes up again, Next changes nothing |
| `OrIterators.SharedRevisionSticks` | badgerdriver/orlabelsiterator.go:47-60 | two label sets sharing one revision: after one Next the merge is stuck on it for ever |
| `OrIterators.DisjointExactlyWhenMatchedOnce` | badgerdriver/orlabelsiterator.go:15-26 | sub-iterators share no revision if and only if no stored state matches two of the label sets |
| `OrIterators.IntersectionIsMatching` | badgerdriver/op.go:93-104 | intersecting the postings of a label set without empty keys or values finds exactly the states the matchers accept |
| `OrIterators.OrIterator.Next` | badgerdriver/orlabelsiterator.go:47-60 | the first sub-iterator at the current revision advances, and no other |
| `OrIterators.OrIterator.SeekState` | badgerdriver/orlabelsiterator.go:78-118 | the scan picks the first live head in order, the earliest sub-iterator winning ties, and closes when none is live |
| `OrIterators.DrainOr` | badgerdriver/driver.go:177-197 | walked to its end over disjoint sub-iterators, the merge yields exactly their union, in order, each once |
| `OrQueries.QueryIsSelectExactly` | badgerdriver/driver.go:173-197 | end to end, a labelled query past SinceRev ends having yielded in strict order if and only if no state past SinceRev matches two of its label sets, and then it has yielded exactly the revisions of the log's answer |
| `Keys.FormatParses` | badgerdriver/labelsiterator.go:112-124 | a padded key parses back to its number, so keys are injective |
| `Keys.FormatOrder` | badgerdriver/op.go:106-108 | the byte order of padded numbers is the numeric order, except between two negative numbers, where it is reversed |
| `Keys.FormatLayout` | badgerdriver/op.go:102-108 | a padded number is twenty digits whose sum, each times its power of ten, is the number; a negative one a sign and nineteen |
| `Keys.PairLayout` | badgerdriver/op.go:201-203 | a key of two numbers is twenty digits, a dot and twenty digits |
| `Keys.KeyParses` | badgerdriver/labelsiterator.go:112-124 | for every non-negative int64 the revision is read back from its key, so neither panic of toRev is reached |
| `Keys.KeyOrder` | badgerdriver/op.go:102-108 | keys with one prefix compare as their revisions |
| `Keys.PairOrder` | badgerdriver/op.go:201-203 | keys of two numbers compare as the pairs, and are injective |
| `Keys.KeysSortedExactly` | badgerdriver/op.go:102-108 | Badger walks a posting list's keys in byte order if and only if the revisions are in iteration order |
| `Keys.SeekLands` | badgerdriver/labelsiterator.go:191-199 | seeking by key lands where seeking by revision does, forward and in reverse with the 0xFF suffix |
| `Keys.ReverseSeekIsGreatest` | badgerdriver/labelsiterator.go:191-199 | a reverse seek lands on the greatest revision not above the bound |
| `Decimal.FormatIntParses` | recovery.go:487-500 | what FormatInt writes, ParseInt reads |
| `Decimal.FormatIntLayout` | recovery.go:487-500 | a number is written in decimal digits without leading zeros, after a minus sign when negative |
| `Decimal.ParseIntReads` | recovery.go:487-500 | and any row of digits is read as the number it denotes in decimal, with or without a sign |
| `Wire.VarintRoundTrip` | protobuf.go:32-50 | a base-128 varint is read back, whatever follows it |
| `WireLayout.VarintLayout` | protobuf.go:32-50 | a number is written as a base-128 varint: every byte but the last has its high bit set, and the low seven bits, least significant group first, sum to the number |
| `WireLayout.VarintIsShortest` | protobuf.go:32-50 | no varint of that value is shorter |
| `WireLayout.VarintIsRead` | protobuf.go:52-58 | every varint is read as its value, whatever follows |
| `WireLayout.OnlyVarintsAreRead` | protobuf.go:52-58 | and what is read is a varint; input is refused if and only if no byte ends one |
| `WireLayout.Int64Layout` | protobuf.go:32-50 | an int64 is its two's complement: ten bytes when negative, at most nine otherwise |
| `WireLayout.FieldIsLaidOut` | protobuf.go:32-50 | a field is the varint of 8 times its number plus its wire type, then a varint, or a length and that many bytes |
| `WireLayout.LaidOutIsRead` | protobuf.go:52-116 | every field laid out so is read |
| `Wire.FieldRoundTrip` | protobuf.go:52-58 | a field written in front of anything is read back, and what follows is left |
| `Wire.DecodeIsFold` | protobuf.go:52-116 | reading back a written message applies its fields in order |
| `Base64.RoundTrip` | cmd.go:334-336 | base 64 with padding decodes to the bytes encoded, at every length |
| `Base64.AlphabetIs` | cmd.go:334-336 | the symbols are table 1 of RFC 4648 |
| `Base64.ThreeBytes` | cmd.go:334-336 | three bytes are 24 bits in four symbols, the highest first |
| `Base64.TwoBytes` | cmd.go:334-336 | two at the end are three symbols and a pad |
| `Base64.OneByte` | cmd.go:334-336 | one at the end is two symbols and two pads |
| `Codec.MapReads` | protobuf.go:1736-1779 | a string map written in any order of iteration is merged into the target, and refused when a key is empty |
| `Codec.TransitionReads` | protobuf.go:326-366 | a written transition, read into any transition, overlays it |
| `CodecLayout.TransitionIsOnWire` | protobuf.go:322-334 | message Transition: to is field 2 and annotations field 3, zero values absent |
| `Codec.StateReads` | protobuf.go:32-116 | a written state, read into any state, overlays it, and cannot be read if and only if one of its maps has an empty key |
| `Codec.StateRoundTrip` | protobuf.go:16-116 | a state comes back unchanged if and only if no map of it has an empty key |
| `CodecLayout.StateIsOnWire` | protobuf.go:24-50 | message State: id, rev, annotations, labels, committed_at and transition are fields 1 to 6, one message per pair of a map, zero values absent |
| `CtxCodec.DataRoundTrip` | protobuf.go:368-454 | data comes back, a binary blob through base 64, when no annotation key is empty, and is refused otherwise |
| `CodecLayout.DataIsOnWire` | protobuf.go:377-398 | message Data: rev is field 2, the blob field 4, in base 64 when binary, and annotations field 5 |
| `CtxCodec.CtxReads` | protobuf.go:132-212 | a written context, read into any context, overlays it: zero fields leave the target alone, maps merge, transitions append |
| `CtxCodec.CtxRoundTrip` | protobuf.go:118-250 | a context read into a fresh one comes back unchanged when no map in it has an empty key, and cannot be read otherwise |
| `CodecLayout.CtxIsOnWire` | protobuf.go:126-156 | message StateCtx: committed, current, transitions and datas are fields 1 to 4 |
| `CtxCodec.DelayedRoundTrip` | protobuf.go:252-311 | a delayed state comes back if and only if its state can be read and it is not due at second 0 of the Unix epoch |
| `CodecLayout.DelayedIsOnWire` | protobuf.go:260-274 | message DelayedState: state, offset and execute_at are fields 1 to 3 |
| `CtxCodec.CtxBytes` | protobuf.go:132-156 | a marshalled context is a byte string when its strings are |
| `Stacks.UnstackUndoes` | cmd.go:326-375 | Unstack after Stack overlays any target with the stacked context and empties the annotation; a context with an empty map key is accepted by Stack and then cannot be unstacked |
| `Stacks.UnstackRestores` | cmd.go:326-375 | into a fresh context the stacked one comes back itself, and the carrier is as before if and only if it already had the annotation, empty |
| `Stacks.StackedHolds` | cmd.go:326-339 | Stack leaves the base 64 text of the context's message in the annotation, and changes nothing else of the carrier |
| `Stacks.ClearedIsReusable` | cmd.go:330-332 | after Unstack the annotation can be stacked into again |
| `Stacks.UsedIsRefused` | cmd.go:330-332 | an annotation in use is refused |
| `Stacks.NamesAreIndependent` | cmd.go:326-375 | stacking under one name does not disturb what is stacked under another |
| `Stacks.PileUnpiles` | cmd.go:326-375 | contexts stacked into one another to any depth and unstacked in reverse into fresh ones all come back, each carrier with its annotation empty |
| `Commands.Compact` | protobuf.go:1728-1734 | dropping consecutive repetitions loses no context and leaves no two equal side by side |
| `Commands.Idx` | protobuf.go:1797-1805 | finds the first index of a context, and panics if and only if it is not in the table |
| `Commands.TableCovers` | protobuf.go:1671-1734 | the table collected from a command tree of any depth holds every context it points to, so the lookup never panics |
| `CommandCodec.TableExactly` | protobuf.go:1671-1734 | the table holds exactly the contexts the tree points to |
| `CommandCodec.RefReads` | protobuf.go:1643-1669 | a context reference is read back as its index |
| `CommandCodec.BodyReads` | protobuf.go:495-748 | each kind of command, written part by part, is read back with its contexts renumbered |
| `CommandCodec.FoundMessageReads` | protobuf.go:664-711 | the result of GetStates comes back when its states can be read |
| `CommandCodec.DueMessageReads` | protobuf.go:712-748 | the result of GetDelayedStates comes back when its states can be read, those due at second 0 without their time |
| `CommandCodec.CommandReads` | protobuf.go:787-954 | a command tree of any depth, commits within commits, is read back with its contexts renumbered |
| `CommandCodec.CommandRoundTrip` | protobuf.go:456-785 | UnmarshalCommand after MarshalCommand gives the same tree of any of the commands over new contexts with the same contents, when no map has an empty key, and an error otherwise; a delayed state due at second 0 comes back without its time |
| `CommandLayout.LayoutIsDefined` | protobuf.go:474-748 | every command has exactly the fields its definition gives it, under their numbers |
| `CommandLayout.BodyIsOnWire` | protobuf.go:495-748 | the message of a command holds each part under its number, and nothing under others |
| `CommandLayout.CommandIsOnWire` | protobuf.go:495-748 | over command trees of any depth, a Commit is message 9 with its commands as field 1, and a Noop an empty message 10 |
| `CommandLayout.MarshalIsOnWire` | protobuf.go:456-472 | the whole message is the contexts of the table, field 1 each, and the command |
| `CommandCodec.SharingIsKept` | protobuf.go:1779-1805 | over a whole command tree, two pointers are equal after the trip if and only if they were before, nil stays nil, and each leads to a context with the contents it led to |
| `CodecMethods.MarshalStringMap` | protobuf.go:1769-1777 | the loop appends one message per pair |
| `CodecMethods.UnmarshalStringMapItem` | protobuf.go:1736-1767 | the loop is the specified reading of a map item |
| `CodecMethods.UnmarshalState` | protobuf.go:52-116 | the loop is the specified reading of a state |
| `CodecMethods.UnmarshalTransition` | protobuf.go:336-366 | the loop is the specified reading of a transition |
| `CodecMethods.UnmarshalData` | protobuf.go:400-454 | the loop and the blob decoding after it are the specified reading of data |
| `CodecMethods.UnmarshalDataMapItem` | protobuf.go:214-250 | the loop is the specified reading of a data item |
| `CodecMethods.UnmarshalStateCtx` | protobuf.go:158-212 | the loop is the specified reading of a context |
| `CodecMethods.FindIdx` | protobuf.go:1797-1805 | the loop is the specified lookup |
| `CodecMethods.DoStack` | cmd.go:326-339 | changes the carrier, possibly the stacked context itself, as specified, and nothing on failure |
| `CodecMethods.DoUnstack` | cmd.go:357-375 | changes carrier and target as specified, one context or two, and neither when there is nothing to read |
| `Recovery.MetaStateReads` | recovery.go:487-500 | a written checkpoint is read back |
| `Recovery.ResetIsOK` | recovery.go:466-477 | a recoverer starting from any checkpoint in the log has all unfinished work ahead of it |
| `Recovery.SeeAllIsOK` | recovery.go:260-335 | reading any page of next states through any cache slots, a recoverer keeps its invariant, and still knows of all unfinished work when no copy hides that recovery is enabled |
| `Recovery.EnabledSurvives` | recovery.go:19-21 | a copy in a slot keeps whether recovery is enabled if and only if the state says so itself or the slot does not say "false" |
| `Recovery.AttemptSurvives` | recovery.go:25-28 | it keeps the attempt count if and only if the transition carries one or the slot's reads as 0 |
| `Recovery.MaxAttemptsSurvives` | recovery.go:37-44 | it keeps the bound on attempts if and only if the state sets one or the slot's is the default |
| `Recovery.HiddenIsLost` | recovery.go:289-291 | an unfinished state whose copy says disabled is lost sight of |
| `Recovery.FailIsOKExactly` | recovery.go:427-461 | after a retry fails otherwise than by a mismatch the recoverer is in order if and only if nothing it had taken and not committed was unfinished work |
| `RecoveryReads.RingPageIsRead` | engine.go:25-27 | a page the engine's ring answers with is such a page: copies of the next states of the log merged into slots |
| `RecoveryReads.UnwrappedPageIsExact` | engine.go:25-27 | until the ring wraps, it is exactly what is in the log |
| `Recovery.TakeIsOK` | recovery.go:415-429 | it still does after deleting the entries it is about to retry |
| `Recovery.DoneIsOK` | recovery.go:431-461 | and after a retry was committed or refused |
| `Recovery.TailIsBelow` | recovery.go:384-393 | the tail an active recoverer computes is at or below all unfinished work |
| `RecoveryKnows.RestartReadsFromCheckpoint` | recovery.go:466-477 | a recoverer started from a checkpoint next reads the log from the first entry past it, and holds nothing |
| `RecoveryKnows.HoldsExactly` | recovery.go:273-312 | after reading, an active recoverer holds exactly the last state it read of each ID, unless that is parked, and what it held of the others |
| `RecoveryKnows.HeadExactly` | recovery.go:273-297 | its cursor is past everything read, its head at the last state recovery is enabled for |
| `RecoveryKnows.MetaExactly` | recovery.go:276-287 | and the checkpoint it knows is the last one read |
| `RecoverySystem.PageIsStretch` | recovery.go:266-273 | the page of a query without labels is the stretch of the log after the cursor, which is what a recoverer reads copies of |
| `RecoverySystem.StepKeeps` | recovery.go:354-413 | every step of any recoverer or client keeps the recoverers' invariant, and the log safe where it reads no state as disabled that is not, loses no work to a failing commit and shuts down no standby ahead of its checkpoint |
| `RecoverySystem.CheckpointSafety` | recovery.go:354-413 | at every moment of every run of such steps, by any number of recoverers with retries, failures, takeovers, shutdowns, crashes and restarts, every recovery-enabled state whose latest revision is unparked lies past every checkpoint ever persisted |
| `RecoverySystem.CheckpointSafetyUniform` | recovery.go:354-413 | so it does whatever slots are read through, when every state says itself whether recovery is enabled |
| `RecoverySystem.CheckpointSafetyExact` | recovery.go:354-413 | and when pages are exactly what is in the log |
| `RecoverySystem.HarmlessIsBelow` | recovery.go:181-201 | the checkpoint of a shutdown that passes the guard reaches no unfinished work |
| `RecoverySystem.RestartRereads` | recovery.go:121-179 | so a recoverer that starts again in such a run has all unfinished work still to read |
| `RecoverySystem.CheckpointRaises` | recovery.go:395-410 | in every run whatever is read, a checkpoint the driver accepts is strictly greater than the persisted one |
| `RecoverySystem.TakeoverKeepsCheckpoint` | recovery.go:358-376 | in every run a recoverer that takes over persists the checkpoint in force as it is |
| `RecoveryBound.RetryPublishes` | recovery.go:431-461 | what doRetry makes from what it read is published as the same transition with the attempt one higher, or parked when attempts are used up, with the annotations read |
| `RecoveryBound.RetryCarriesOn` | recovery.go:446-461 | a retry keeps the flow, the labels and all other annotations of the transition |
| `RecoveryBound.RetrySpends` | recovery.go:25-44 | each retry spends one of max + 1 - attempt |
| `RecoveryBound.BoundedRecovery` | recovery.go:415-464 | in every run whose reads keep the counts, of a state only recoverers commit, all recoverers together commit at most max + 1 - attempt revisions, each retrying the one before, and it is parked exactly when they are spent, and never retried after |
| `RecoveryBound.BoundedRecoveryUniform` | recovery.go:415-464 | so they do whatever slots are read through, when every unparked state carries its count and bound itself |
| `RecoveryBound.BoundedRecoveryExact` | recovery.go:415-464 | and when pages are exactly what is in the log |
| `RecoveryBound.FreshBudget` | recovery.go:37-44 | a state never retried has MaxRecoveryAttempts retries before it is parked, three unless it sets another number |
| `RecoveryBound.StandbyShutdownLosesWork` | recovery.go:181-189 | a standby that shuts down persists its own head and passes the active recoverer's work |
| `RecoveryBound.ShutdownIsSafeExactly` | recovery.go:181-201 | from what a recoverer holds, its shutdown checkpoint keeps every log it may be working on safe if and only if it is active, or the checkpoint does not go past the one it knows, save onto the META state itself |
| `RecoveryBound.FailedRetryLosesWork` | recovery.go:427-428 | a retry that fails otherwise than by a mismatch lets the next checkpoint pass its state |
| `RecoveryBound.StaleSlotHidesWork` | recovery.go:289-291 | three states read through a slot that disabled recovery: the checkpoint that may be written passes an unfinished one |
| `RecoveryBound.StaleAttemptParks` | recovery.go:431-448 | a state without a count, read through a slot with one, is parked by its next retry if and only if that count has reached the bound |
| `RecoveryBound.FreshStateParkedAtOnce` | recovery.go:431-448 | a fresh state read through a slot with three attempts is parked without a retry |
| `RecoveryBound.TransitInheritsAttempt` | state.go:215-227 | the driver merges transition annotations over the entry before, so an ordinary transit that says nothing inherits the attempt count |
| `RecoveryBound.MetaIsCopied` | recovery.go:276-283 | reading a checkpoint into any context leaves that context with its revision and since_rev |
| `RecovererObject.Recoverer.Reset` | recovery.go:466-477 | the object forgets what it held and starts from its checkpoint |
| `RecovererObject.Recoverer.UpdateHead` | recovery.go:273-312 | the loop over a page is the model's reading of it |
| `RecovererObject.Recoverer.TakeDue` | recovery.go:420-429 | the loop takes exactly the due entries, visiting the map in any order |
| `RecovererObject.Recoverer.FindTail` | recovery.go:384-393 | the loop finds the least revision held, capped by the head |
| `RecovererObject.Recoverer.WriteCheckpoint` | recovery.go:395-410 | a checkpoint is written exactly when it is due by revisions, or by time and ahead of the last; it is one below the tail, and a refused one resets the recoverer to standby |

## Left out

- MemScan.AnsweredIsPage: More is never a false promise; when it is falsely false, as in the code, is MemScan.MoreExactly.
- CacheProofs.FilterRefines: compares IDs and revisions, since reused slots may hold stale map keys; whole states are compared in CacheSlots.ExactAnswers.
- CacheProofs.AnswerRefines: compares IDs and revisions, for the same reason.
- CacheSystem.ExactlyOnce: for runs whose ring answers the query's labels faithfully, which CacheSlots.FaithfulExactly characterises, and recording IDs and revisions.
- CacheSystem.PollFindsMatch: about polls the driver answers; that a waiting iterator is eventually scheduled, and other liveness, is not stated.
- CacheDrain.FalseMeansDrained: of runs whose ring answers faithfully, as CacheSystem.ExactlyOnce; a page cut at the limit may leave matches to the next poll, which finds them.
- CacheLookup.GetStateByID: a reused slot may answer with a copy that has more map keys than the log's state.
- BadgerHistory.ConsumedOnce: successful transactions are taken to run one after another, which is what Badger's conflict detection promises.
- CodecMethods.DoUnstack: says nothing of the target after a read that fails part-way, which the code may leave half merged.
- CommandCodec.CommandRoundTrip: a lookup outside the table, where the code panics, is an error here.
- RecoveryBound.BoundedRecovery: bounds retries from above; that a recoverer does come round to each retry depends on timers and is not stated.
- RecoverySystem.CheckpointSafety: of runs whose steps keep work, as the model's KeptStep says; the code meets that only on the conditions proved beside it.
- RecoverySystem.StepKeeps: the META states recoverers write carry exactly the annotations named; others merged in by a context do not matter to any reader and are left out.
- Watermark.VisibleOnlyAppends: a reader takes its snapshot and the watermark in one step; the code opens the snapshot first. Across restarts see Watermark.RestartHidesAll.
- Time: SinceTime queries, tickers, retry delays and the head's clock; a due retry or an expired checkpoint may come at any moment.
- Concurrency below critical sections: goroutines, channels and mutexes are atomic steps.
- Integers are unbounded, except on the wire and in keys; overflow of revisions is not modelled.
- WireLayout.OnlyVarintsAreRead: varints longer than ten bytes are read here too; integers beyond 64 bits are refused only where they are used.
- The fixed-width wire types of the Protocol Buffers encoding are not read; a data item without data, for which the code stores a nil pointer, is an error here.
- Reading data into a Data that is not fresh, which no caller in the codec does.
- Line breaks inside base 64 text, which Go's decoder skips, are refused.
- Pointers to Data shared between contexts, and map aliasing between copies of a State.
- Data, Stack and Unstack sub-commands inside a commit, and the data and delayed-state stores of the drivers.
- Paging of Badger's GetStates, its revision and committed-at iterators, and the text of label prefixes, where ':' and '.' are not escaped: one posting list per label pair is taken as given.
- Badger itself, and the Postgres driver, whose logic is SQL.
- The Delayer's paging loop; its commits are covered by the driver's compare-and-swap.
- The JSON codec, the network driver, flows, the user interface and the examples.
- Logging, statistics counters, checksums and errors of drivers other than revision mismatches.
