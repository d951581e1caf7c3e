# A verified model of libovsdb's database engine

libovsdb is an OVSDB client and in-process server (RFC 7047, and the update2 notification of
ovsdb-server(7)).  This project models the part of it that computes, merges, applies and ships row
differences, keeps the reverse reference index and collects garbage, answers queries through
indexes, and puts values on the wire; and it proves what these algorithms are for.

`dafny verify dfyconfig.toml` checks the whole project.

## Main results

* **Difference algebra and merging** (`Difference.dfy`, `Merge.dfy`, `Mutations.dfy`,
  `Operations.dfy`, `ModelUpdates.dfy`).  One in-place algorithm serves as "diff", "apply" and
  "compose"; any chain of updates on a row collapses into one (`Merge.ChainCollapse`), and the
  differences of any list of mutations accumulate to the one update (`Operations.MutateOperation`).
* **Elementary meanings** (`Meanings.dfy`, `Soundness.dfy`).  What conditions, mutations, updates,
  notifications, sound databases and garbage are, in terms of numbers, sets, columns and tables
  alone; the specifications of the other modules are tied to these for all inputs.
* **References and garbage collection** (`References.dfy`, `Tracker.dfy`, `Collector.dfy`,
  `GarbageCollection.dfy`, `Levels.dfy`, `Rounds.dfy`, `Outcomes.dfy`, `Commits.dfy`,
  `Cascade.dfy`).  The fixpoint loop ends; the collected rows are exactly the least fixpoint; it
  fails exactly for two conditions on the requested rows; and the rows it commits are the swept
  survivors, with an exact reverse index, if and only if no row loses weak references in one round
  and is touched in a later one with a lasting effect (`Commits.ProcessReferences`,
  `Commits.TransactOnce`, `Commits.Run`).
* **Indexed row cache and queries** (`Cache.dfy`, `Query.dfy`).  The index invariants are kept by
  every call, and a query through the power set of conditions equals the plain filter
  (`Query.RowsByCondition`).
* **Transactions and replication** (`Overlay.dfy`, `Worlds.dfy`, `Tables.dfy`, `Replication.dfy`,
  `Notices.dfy`, `Serving.dfy`, `Foresight.dfy`).  Queries inside a transaction see the database
  patched by its earlier operations; the accumulated updates are those from the database to what the operations
  mean, on any number of tables (`Tables.Transact`).  End to end, from lists of operations through
  reference processing and commit to a monitoring replica, the server has after every run exactly
  the rows that the transactions mean, its reverse index is exact, and the replica equals it
  (`Serving.ServeAll`); without schema indexes every run can be foreseen
  (`Foresight.RunIsForeseeable`).
* **Named UUIDs and the wire** (`NamedUuid.dfy`, `Notation.dfy`).  The two-pass substitution
  (`NamedUuid.ExpandNamedUUIDs`) and the round trip of every column type (`Notation.RoundTrip`).

## Where the code falls short of the law

Each of these is proved, with the exact condition under which the law does hold.

* The all-zero UUID is left out of a row as a default, while merging takes an absent UUID to have
  been the empty string: a chain that restores it does not disappear, and a replica does not receive
  it (`Merge.CollapseNeedsNormal`, `Replication.InsertArrives`, `Replication.InitialReplica`).
* Two `includes` conditions on one map column overwrite each other in the row that is looked up, so
  an index over both keys can miss matching rows (`Query.LostKeyExample`, `Query.LookupFinds`).
* A later round of reference processing starts from the row as it was requested and not from the
  result of earlier rounds.  A row that loses weak references in one round and is collected or
  cleaned in a later one leaves rows and stored references that disagree; the transaction is
  committed all the same (`Cascade.OrdinaryCascade`).  `Outcomes.Breaks` is the exact condition
  (`Commits.ProcessReferences`, `Commits.TransactOnce`): such a row is collected, or the row without
  its weak references to missing rows is not what it was before the transaction.
* A query inside a transaction fails when a row of the database matches and the same row as the
  transaction has changed it does not; for proper conditions it fails exactly then
  (`Overlay.Transaction.RowsFromTransactionCacheAndDatabase`).
* The number of values a column needs is checked in each round against the row as requested, so a row
  that loses weak references in several rounds is accepted although fewer values are to stay than its
  minimum (`Cascade.OrdinaryCascade`); for a row that loses them in one round the check is exact
  (`Outcomes.LengthExact`).
* In an index over several columns unset optionals are skipped before hashing, so rows with a value in
  different columns are taken to be equal (`Cache.ShiftedOptional`, `Cache.SharedValue`).
* Unchecked writes to a schema index lose rows that share a value (`Cache.UncheckedUpdateExact`,
  `Cache.UncheckedCreateExact`).  Inside a transaction this happens when a deleted row is cached
  again next to a row with the same value (`Overlay.RewarmedRowHides`).
* Names are not replaced in maps whose keys alone are UUIDs, nor in key lists for maps from UUIDs to
  UUIDs (`NamedUuid.SkippedIsRight`).
* Integers travel as floating point numbers (`Notation.RoundTrip`).
* The comment in `server/monitor.go` says that all tables are watched when none is requested; the
  code then dereferences a missing request, exactly when there is an update at all
  (`Replication.Filter2`).

## Model

| member | source | states |
|---|---|---|
| Values.RowRoundTrip | mapper/mapper.go:122-163 | a row in OVSDB notation leaves default values out; reading it back gives the same model exactly when every default value is the zero value of its type, which fails for the all-zero UUID only |
| Values.KindsApart | ovsdb/bindings.go:210-288 | a value in OVSDB notation, where a UUID is not a string, that is not an empty set or map or unset has one column type only |
| Difference.SetDifference | updates/difference.go:77-127 | the in-place loop that swaps with the last element returns a duplicate-free slice that is, as a set, (a\b) united with (b\a), and a flag that is true exactly when it is non-empty |
| Difference.SymDiffLaws | updates/difference.go:77-127 | set difference is associative, its own inverse, and empty exactly for equal sets |
| Difference.MergeMapDifference | updates/difference.go:138-195 | the loop over the second delta computes the composed delta, with a flag that is false exactly when it is empty |
| Difference.ComposeInPlace | updates/difference.go:168-191 | the four-way case split, key by key, in any order of keys |
| Difference.MapComposition | updates/difference.go:138-195 | for all maps o, a, b: applying the composed delta to o equals applying a and then b, and the composed delta is empty exactly when the two leave o as it was |
| Difference.MapApplyLaws | updates/difference.go:138-195 | with an empty original the same algorithm is "diff" and "apply": it is its own inverse, and only the empty delta changes nothing |
| Difference.DifferenceRoundTrip | updates/difference.go:11-40 | for values of every kind, applying the difference between x and y to x gives y, and each of the two flags is true exactly when x and y differ |
| Difference.ApplyFlagExact | updates/difference.go:17-40 | the flag of an applied difference is true exactly when the value changed, although the underlying algorithm reports an empty result as no difference |
| Difference.ComposeCorrect | updates/difference.go:51-69 | merging two differences over an original value of any kind equals applying them in turn; the flag is false exactly when the net effect is nothing |
| Merge.MergeModifyRow | updates/merge.go:82-160 | the loop over the later modification leaves exactly the columns with a net change, and nothing when there is none |
| Merge.MergedDelta | updates/merge.go:82-160 | the merged modification is tight (exactly the columns that change) and leads from the first row to the last |
| Merge.MergeStep | updates/merge.go:10-80 | one more update on a row: the merge fails exactly when it brings back a row that was deleted, and otherwise is the one update from the first to the last state |
| Merge.ChainCollapse | updates/merge.go:10-160 | any chain of updates on a row, each starting where the previous ended, merges into the one update with the first old and the last new value, whose modification applied to the old row gives the new row |
| Merge.ChainDisappears | updates/updates.go:211-241 | insert-then-delete disappears, and a chain over an existing row disappears exactly when the row is back at its original value |
| Merge.CollapseNeedsNormal | updates/merge.go:126-146 | collapse is guaranteed for exactly the original rows that hold no all-zero UUID |
| Merge.UncollapsedChain | updates/merge.go:126-146 | for every row that holds an all-zero UUID, a chain of two updates that restores the row and does not disappear |
| Mutations.InsertToSlice | updates/mutate.go:19-26 | the element is appended exactly when it was not there |
| Mutations.RemoveFromSlice | updates/mutate.go:9-17 | the element is removed exactly when it was there, and the slice stays duplicate-free |
| Mutations.InsertSlice | updates/mutate.go:81-95 | the new set is the union, the reported difference exactly the elements that were added |
| Mutations.DeleteSlice | updates/mutate.go:132-146 | the new set lacks the deleted elements, the reported difference is exactly the elements that were removed |
| Mutations.InsertMap | updates/mutate.go:96-113 | only absent keys are written, and the new map is the old one with the reported difference applied |
| Mutations.DeleteMap | updates/mutate.go:160-176 | only pairs that are present are removed, and the new map is the old one with the reported difference applied |
| Mutations.DeleteMapKeys | updates/mutate.go:147-159 | the listed keys are removed with whatever value they have, and the new map is the old one with the reported difference applied |
| Mutations.Wrap64 | updates/mutate.go:180-184 | integer results wrap around at 64 bits |
| Mutations.TruncDiv | updates/mutate.go:258-262 | division truncates toward zero: the remainder has the sign of the dividend and is smaller than the divisor |
| Mutations.MutateDifference | updates/mutate.go:28-178 | for every valid mutation the reported difference applied to the old value gives the new value, nothing is reported exactly when nothing changes, and the value keeps the type of its column |
| Operations.MergeDifferenceCorrect | updates/difference.go:51-69 | with a missing difference standing for no change, the merged difference leads from the original to the newest value, and its flag is false exactly when the two are the same |
| Operations.MutateStep | updates/updates.go:355-401 | after one more mutation the accumulated difference of its column still accounts for the whole change since the old row |
| Operations.MutateOperation | updates/updates.go:334-435 | for any list of mutations the update applies the accumulated differences of all columns to the old row to give the mutated row; a column is absent from it exactly when its net change is nothing; it fails exactly when some mutation is invalid |
| Operations.UpdateOrModifyModel | updates/updates.go:476-528 | a change row is refused exactly when a column has the wrong type or changes although it is immutable; otherwise the new row is the changed one, the flag tells whether it differs, and the collected delta is the tight difference |
| Operations.UpdateOperation | updates/updates.go:286-332 | refused exactly when a value has not the type of its column or an immutable column would change; nothing when every given value is already there; otherwise the one update to the row that has the given values in the given columns and its old values elsewhere |
| Operations.InsertOperation | updates/updates.go:243-284 | the one update that inserts the given values, with zero values elsewhere; refused exactly for values of the wrong type |
| Operations.AddRowUpdate2 | updates/updates.go:172-209 | what a replica makes of a notification: the inserted row, the old row with the modification applied (nothing when it has no effect), or the deletion |
| Meanings.IntegerMutation | updates/mutate.go:180-297 | an integer column after a mutation: the sum, difference or product up to 2^64, and exactly when it fits; q times divisor plus remainder is the dividend, with the remainder smaller than the divisor and of the sign of the dividend; only division by zero fails |
| Meanings.AddAndSubtract | updates/mutate.go:180-230 | adding an amount and subtracting it again, in either order, gives the old row, overflow or not |
| Meanings.RealMutation | updates/mutate.go:180-282 | real arithmetic; modulo and division by zero fail |
| Meanings.SetMutation | updates/mutate.go:60-146 | inserting gives a superset with the given elements and no others, deleting removes exactly the given elements |
| Meanings.PairMutation | updates/mutate.go:96-176 | inserting keeps existing pairs and adds those with absent keys; deleting removes exactly the pairs that are given with their value |
| Meanings.KeyMutation | updates/mutate.go:147-159 | deleting by key removes exactly the given keys |
| Meanings.MutationFails | ovsdb/bindings.go:302-384 | a mutation fails exactly when its column is immutable, an enum, of a type without mutations, or does not take the mutator or the value, and when it divides by zero |
| Meanings.MutationsCompose | updates/updates.go:355-401 | mutations are made in order: a list after a list is the second on what the first leads to, and a failure ends them |
| Meanings.UpdateMeans | updates/updates.go:497-520 | after an update exactly the rows that matched have the given values in the given columns and their old ones elsewhere, and all other rows are as they were |
| Meanings.MutateMeans | updates/updates.go:334-435 | after a mutate exactly the rows that matched are mutated |
| Meanings.InsertMeans | updates/updates.go:243-284 | after an insert the new row has the given values and zero, false, empty or unset ones elsewhere |
| Meanings.DeleteMeans | updates/updates.go:437-462 | after a delete exactly the rows that matched are gone |
| Meanings.SelectMeans | database/transaction/transaction.go:319-345 | a select leaves every row as it is |
| Meanings.OperationFails | database/transaction/transaction.go:299-406 | an operation fails exactly when an inserted value has the wrong type, a row matches only in its old form, or a matching row has a value of the wrong type, an immutable column that would change or a mutation that fails |
| Meanings.ConditionMeans | ovsdb/condition.go:98-176 | a row satisfies a supported condition exactly when it is true of the value of its column: equality, order on numbers, all elements or pairs for includes, and their complements |
| Meanings.MatchingMeans | ovsdb/condition.go:98-176 | the rows that match are exactly those of which every condition is true |
| Meanings.ConditionLaws | ovsdb/condition.go:98-176 | different is the complement of equal, excludes of includes, less of greater or equal; less or equal is less or equal to |
| Meanings.SupportMeans | ovsdb/condition.go:98-176 | order is supported on numbers, inclusion on all but optional values, equality on all |
| Meanings.UuidCondition | cache/cache.go:713-727 | a condition on the UUID of a row needs a UUID, any other a value of the type of its column; the row with a given UUID is found by it and no other |
| Meanings.IncludesSlice | ovsdb/condition.go:178-201 | the nested search computes that every element of the second slice is in the first |
| Meanings.IncludesMap | ovsdb/condition.go:203-224 | the loop computes that every pair of the second map is in the first |
| Meanings.RowShows | ovsdb/bindings.go:408-433 | a row in OVSDB notation has every column but those with zero, the empty string, an empty or all-zero UUID, no value or an empty set or map |
| Meanings.NotificationMeans | updates/updates.go:172-209 | a replica takes a new row as given, with zero values elsewhere, unless it has the row; it makes a modification, toggling elements and pairs and replacing other values, exactly when it has the row, types fit and no immutable column changes; it follows a deletion when it has the row |
| Meanings.IndexMeans | cache/cache.go:292-302 | of a valid cache: a client index has under every value exactly the cached rows with that value, a schema index no others and, when checked, all of them |
| Meanings.CheckedMeans | cache/cache.go:273-290 | in a checked cache no two rows have the same value in a schema index |
| Meanings.ReplicaMeans | cache/cache.go:1011-1040 | a replica that mirrors a server has the same rows in every requested table with the same value in every requested column |
| ModelUpdates.PrunedSize | updates/updates.go:32-42 | a pruned set of updates has an updated table exactly when some row has an update |
| ModelUpdates.UpdateSet.AddUpdate | updates/updates.go:211-241 | the row has the merged update, all other rows keep theirs, and no empty row or table entry is left |
| ModelUpdates.UpdateSet.MergeTable | updates/updates.go:97-111 | every row of the table has the merge of its earlier and later update |
| ModelUpdates.UpdateSet.MergeSet | updates/updates.go:97-111 | every row of every table has the merge of its earlier and later update; it fails exactly when one of them does; no empty entry is left |
| References.GetReferences | database/references.go:28-39 | exactly the stored references to the row, at every location of its table |
| References.UpdatedReference | database/references.go:54-71 | replacing the references to a row at a location changes that entry and no other |
| References.UpdateKeepsNoDangling | database/references.go:54-71 | no location and no row is kept without references |
| References.UpdateReferences | database/references.go:44-52 | every entry named by the update is replaced, all others are kept, nothing empty is left |
| References.ApplyReferenceModifications | updates/references.go:719-736 | exactly the references of the modification are toggled |
| References.RowModifications | updates/references.go:595-626 | the modifications are those of the reference columns of the change row, entry by entry |
| References.ModifyToggles | updates/references.go:671-717 | for a modification of a row, the modified references of a location are exactly those the row had before or has after, but not both |
| References.WholeRowToggles | updates/references.go:158-187 | for an inserted or deleted row, the modified references are exactly those of the row |
| References.UpdateModifications | updates/references.go:158-187 | for every update of a row, exactly the references it has before or after but not both are toggled |
| Tracker.AgreeAfterChanges | updates/references.go:158-202 | toggling what changes of rows toggle keeps a set of references equal to the references of the rows |
| Tracker.Loaded | updates/references.go:448-460 | loading the stored references of a row once keeps the tracked part of the index exact and the rest that of the database |
| Tracker.TrackNew | updates/references.go:178-184 | a new row needs no loading |
| Tracker.RowToggled | updates/references.go:189-202 | once the targets are loaded, toggling keeps the tracked part of the index exact |
| Collector.ReferenceTracker.InitReferences | updates/references.go:448-460 | the references of the row are tracked afterwards, and what the index says is unchanged |
| Collector.ReferenceTracker.InitReferencesOfDeletedRows | updates/references.go:462-471 | the references of every deleted row are tracked afterwards |
| Collector.ReferenceTracker.ToggleReferences | updates/references.go:189-202 | exactly the references the change adds or removes are toggled |
| Collector.ReferenceTracker.ProcessRowUpdate | updates/references.go:158-202 | deletions and insertions outside the root set are noted, and the references the update changes are toggled |
| Collector.ReferenceTracker.ProcessModelUpdates | updates/references.go:144-155 | after all updates, in any order, the tracked references are those of the rows with all updates applied |
| Collector.ReferenceTracker.CheckStrongReferences | updates/references.go:215-246 | fails exactly when some tracked strong reference is to a missing row, and otherwise tells of each row with a strong entry whether it is still referenced |
| Collector.ReferenceTracker.FindUnreferenced | updates/references.go:215-255 | the rows noted as unreferenced are exactly the live rows outside the root set to which there is no strong reference |
| Collector.ReferenceTracker.ProcessStrongReferences | updates/references.go:208-289 | fails exactly when a strong reference is to a missing row; otherwise deletes exactly the live rows outside the root set to which no strong reference is left |
| Collector.ReferenceTracker.FindWeakReferences | updates/references.go:293-415 | collects exactly the weak references of live rows to missing rows; fails exactly when some column would be left with fewer values than it needs |
| Collector.ReferenceTracker.UpdateRows | updates/references.go:417-431 | one update for each row with references to remove; fails exactly when a column cannot be changed |
| Collector.ReferenceTracker.ProcessWeakReferences | updates/references.go:293-431 | removes from every live row exactly the UUIDs of missing rows and changes nothing else; fails exactly when the final length of some column falls below its minimum, or the column is immutable |
| Collector.UpdateRow | updates/references.go:493-541 | the update that takes exactly the given references out of set columns of a row |
| Collector.DeleteAll | updates/references.go:493-541 | delete mutations of distinct set columns remove exactly the listed references |
| GarbageCollection.ProcessBatch | updates/references.go:108-113 | processing a batch leaves the tracked references equal to those of the patched rows |
| GarbageCollection.Collect | updates/references.go:115-125 | the strong and the weak part of a round; when it fails, a strong reference is to a missing row or some column cannot lose its weak references |
| GarbageCollection.NextToggles | updates/references.go:208-431 | of the live rows, what a round changes toggles exactly the weak references to missing rows |
| GarbageCollection.NextConsistent | updates/references.go:102-141 | the strong references tracked stay those of the rows through the batch a round produces, and only rows that lost weak references differ from the requested ones |
| GarbageCollection.MergeChanges | updates/updates.go:97-111 | the changes of two sets of updates merged row by row; fails exactly when a row does |
| GarbageCollection.Round | updates/references.go:108-131 | one round: what it deletes is forced by earlier deletions, what is left to do is ready to be processed, and when it fails there is a reason in the rows |
| Levels.GoneStable | updates/references.go:208-289 | once a round collects nothing, no later one does |
| Levels.LastRound | updates/references.go:293-415 | what has been violated by the last round is all that ever is |
| Levels.CascadersLast | updates/references.go:102-141 | the rows touched again after they lost weak references, counted round by round, are exactly those that lose a weak reference in some round and are collected or lose another in a later one |
| Rounds.StrongIsGone | updates/references.go:208-289 | round k+1 collects exactly the rows outside the root set whose strong references all come from rows of earlier rounds |
| Rounds.PendingIsDue | updates/references.go:293-415 | the weak references a round removes are exactly those of surviving rows to rows missing since that round |
| Rounds.ViolationIsAtLevel | updates/references.go:293-431 | the weak part of a round fails exactly when a column of the requested rows cannot lose what is due in that round |
| Rounds.NextIsTouched | updates/references.go:115-131 | the updates of a round are for exactly the rows collected or losing weak references in it |
| Rounds.TakenAfter | updates/references.go:126-138 | the merged updates of the rounds take from each surviving row exactly the weak references that went, whichever rounds they went in |
| Rounds.TouchedTwiceBreaks | updates/references.go:158-202 | a row that lost a weak reference and is touched again starts from the requested row: deleting it puts the reference back among those tracked, cleaning it again puts it back into the row |
| Rounds.TouchedFirst | updates/references.go:158-202 | at a row touched for the first time rows, tracked references and merged update stay in agreement |
| Rounds.LevelStep | updates/references.go:108-138 | all that is known of the state after k rounds, from the requested rows alone, holds after k+1 |
| Rounds.FailureAtLevel | updates/references.go:115-125 | a failing round means that a requested row refers strongly to a missing row or a column cannot lose what is due |
| Outcomes.GarbageIsUnique | updates/references.go:208-289 | the least set of rows outside the root set all of whose referrers are in it is unique, so the order in which maps are walked does not matter |
| Outcomes.GoneIsForced | updates/references.go:208-289 | whatever is collected in any number of rounds is in every set closed under collection |
| Outcomes.GarbageExists | updates/references.go:102-141 | as many rounds as there are rows collect the least closed set |
| Outcomes.StrongOutcome | updates/references.go:81-100 | no surviving row refers strongly to a missing row, every surviving row outside the root set is strongly referenced, and no other row is garbage |
| Outcomes.LoopMeans | updates/references.go:102-141 | when the loop has succeeded nothing is refusable, the collected rows are exactly the garbage of the requested rows, and the rows noted as touched again are exactly those that cascade |
| Outcomes.SweptRow | updates/references.go:493-541 | the requested row with all that was taken applied is the row without its weak references to missing rows |
| Outcomes.FinalModify | updates/merge.go:82-160 | a modification merged into an earlier change disappears exactly when its own differences, and not the new row it carries, lead back to the original |
| Outcomes.FinalRow | updates/references.go:81-100 | the merged updates leave a surviving row alone exactly when it already is the swept row, and otherwise lead to the row of the last round that touched it |
| Outcomes.FinalKeys | updates/references.go:81-100 | whether or not rows and references agree, exactly the rows that are not garbage remain |
| Outcomes.Disagree | updates/references.go:81-100 | when a row that cascaded is collected or updated, some weak reference of it is in the row and not tracked or, when the row is gone, is tracked all the same |
| Outcomes.Agrees | updates/references.go:81-100 | otherwise the merged updates lead from the committed rows to exactly the swept survivors, which have full integrity, and the tracked references are theirs |
| Outcomes.LengthExact | updates/references.go:375-415 | a set column of a row that loses its weak references in one round: the round is violated exactly when the values that stay are fewer than the minimum of the column, or the column is immutable |
| Outcomes.ShortRefused | updates/references.go:375-415 | such a column left below its minimum has the transaction refused |
| Outcomes.NoneShort | updates/references.go:375-415 | in a transaction that is not refused, no row that does not cascade has a column that lost values and is below its minimum |
| Soundness.RefersMeans | updates/references.go:595-626 | references are the UUIDs in columns with a referenced table, at the location of table and column, strong as the schema says |
| Soundness.ModifiedMeans | updates/references.go:671-717 | which references a change of a column modifies: the new and the old UUID, those of a set difference, or all old ones when that is empty |
| Soundness.SoundMeans | database/references.go:7-26 | of a sound database: every UUID in a reference column names a row of the referenced table, every row of a table outside a non-empty root set is held by a strong column of some row, and the reverse index has a row under a location and a target exactly when that column of the row holds the target |
| Soundness.GarbageMeans | updates/references.go:208-289 | what is collected, from columns and tables alone: no row of a root table, each held by strong columns of collected rows only; every other row outside the root set is held by a strong column of a row that stays; and the set is the least one to which rows so held belong |
| Soundness.RefusableMeans | updates/references.go:215-246 | a strong column that holds the UUID of a missing row has the transaction refused; without one it is refused only when a column with weak references holds some |
| Soundness.SweptMeans | updates/references.go:493-541 | the committed form of a surviving row: of a set column with weak references exactly the UUIDs of surviving rows, every other column as requested |
| Commits.NextRound | updates/references.go:108-138 | the loop invariant is kept, and after the first complete round every further batch leaves less work |
| Commits.ProcessReferencesLoop | updates/references.go:102-141 | the loop ends for every input; on success nothing is left to do, and it fails only for a reason in the requested rows |
| Commits.ProcessReferences | updates/references.go:81-100 | fails exactly when a requested row refers strongly to a missing row, or a column is immutable or too short for the weak references it loses in some round; in particular when a row losing its weak references in one round would be left with fewer values than the minimum of a column; success: strong integrity, every row outside the root set referenced, the collected rows exactly the garbage, and no column that lost a reference below its minimum unless its row is as committed before; the updates lead to exactly the swept survivors, with full integrity and exact references, if and only if the transaction does not break; otherwise a weak reference is misplaced |
| Commits.Commit | database/inmemory/inmemory.go:81-100 | the stored rows are the patched rows and the stored reverse references exactly the tracked ones, so that the database is sound again when these are those of the rows |
| Commits.TransactOnce | database/transaction/transaction.go:135-145 | commits exactly when the requested rows are not refusable; the database is sound afterwards if and only if the transaction does not break, and then holds the swept survivors of the requested rows; when it breaks the survivors remain and a weak reference of a row that cascades is misplaced |
| Commits.Run | database/inmemory/inmemory.go:81-100 | after any run of transactions, up to the first that breaks, the stored references at each location are exactly the rows whose column holds the target, no reference is to a missing row, every row outside the root set is strongly referenced, each step is the effect of its transaction and none of them breaks; a run without weak references is never cut short |
| Commits.FailureWithoutWeak | updates/references.go:208-246 | without weak references a transaction is refused exactly when a requested row refers strongly to a missing row, and none breaks |
| Cascade.OrdinaryCascade | updates/references.go:102-141 | a root row lets go of a row it also refers to weakly, as it does to the next row in the chain: a valid change of a sound database that is not refused and breaks; it is not refused although a column that needs one value is to be left with none, since the number of values is checked round by round |
| Cascade.LetGoOnce | updates/references.go:81-141 | the transaction is committed, and then only the root row is left, with a weak reference to a row that is gone and that the stored references do not have |
| Cache.AddKeeps | cache/cache.go:292-302 | writing a row to an index keeps client indexes exact and schema indexes sound, and schema indexes exact when the value is free |
| Cache.TakeKeeps | cache/cache.go:451-462 | taking a row out of an index keeps it exact or sound, with no empty entry |
| Cache.ChangeKeeps | cache/cache.go:368-383 | moving a row between entries keeps client indexes exact and schema indexes sound, and schema indexes exact when the value is free |
| Cache.UncheckedUpdateExact | cache/cache.go:368-383 | an unchecked update keeps a schema index exact for exactly the rows that share neither the old nor the new value with another row |
| Cache.UncheckedCreateExact | cache/cache.go:292-302 | an unchecked create keeps a schema index exact for exactly the values no other row holds |
| Cache.ConflictIsShared | cache/cache.go:273-290 | with an exact index, an entry is in the way exactly when another row holds the value |
| Cache.NoConflictIsAlone | cache/cache.go:273-290 | in a checked cache the conflict check finds every row that would share a schema index value |
| Cache.ConflictFound | cache/cache.go:340-358 | in any cache the check fails exactly when a schema index has another row under a value that is new to the row; a row that keeps its values is never refused |
| Cache.ConflictMeans | cache/cache.go:273-290 | in a checked cache the check for conflicts fails exactly when another cached row has the same value in a schema index |
| Cache.SharedValue | cache/cache.go:1249-1302 | rows that agree on every column key of an index have the same value in it; and only these, unless the hash of several columns confuses two rows or an optional column is set in one of them only |
| Cache.ShiftedOptional | cache/cache.go:1253-1266 | the place of an unset optional is not kept: two rows that differ in both columns of an index have the same value in it, whatever the hash |
| Cache.RowCache.constructor | cache/cache.go:1074-1111 | a new cache is empty and its indexes are exact |
| Cache.RowCache.Create | cache/cache.go:260-305 | fails exactly when the row exists or a checked schema index has another row under its value, which in a checked cache is when another cached row has the same value in a schema index; a failing call changes nothing; the index invariants are kept |
| Cache.RowCache.HasConflict | cache/cache.go:273-290 | finds a conflict exactly when there is one |
| Cache.RowCache.Update | cache/cache.go:309-387 | fails exactly when the row is missing or a checked schema index has another row under a new value, which in a checked cache is when another cached row has the same value in a schema index; a failing call changes nothing; the index invariants are kept |
| Cache.RowCache.Delete | cache/cache.go:428-466 | fails exactly when the row is missing; a failing call changes nothing; the index invariants are kept |
| Query.SliceContains | ovsdb/condition.go:178-201 | true exactly when every element of the second slice is in the first |
| Query.MapContains | ovsdb/condition.go:203-224 | true exactly when every pair of the second map is in the first |
| Query.IntersectUUIDSets | cache/uuidset.go:81-101 | the intersection, or nothing at all when an operand is empty |
| Query.LookupExact | cache/cache.go:581-618 | the row built from conditions has the index values of a row that satisfies them exactly when no `includes` key was overwritten by a later condition |
| Query.LookupFinds | cache/cache.go:581-618 | with an exact index, a lookup finds a row that satisfies its conditions when no key was lost and, unless the hash confuses the two, only then |
| Query.LostKeyExample | cache/cache.go:591-596 | two `includes` conditions on one map column with an index over both keys lose a key that a matching row has |
| Query.SingleIncludesBenign | cache/cache.go:591-596 | with at most one `includes` condition per map column no lookup loses a key |
| Query.LookupComplete | cache/cache.go:581-618 | any subset of the conditions looked up in an index gives every row that satisfies all conditions |
| Query.EvaluateConditionSetAsIndex | cache/cache.go:581-618 | a result exactly when the conditions name an index, made of cached rows, with every row that satisfies all conditions |
| Query.UuidsByConditionsAsIndexes | cache/cache.go:524-681 | for every order of conditions and wherever the walk over their subsets stops, nothing or a set of cached rows with every row that satisfies all conditions |
| Query.MatchCondition | cache/cache.go:718-768 | exactly the candidates that satisfy one condition; succeeds whenever the condition is supported on its column |
| Query.RowsByCondition | cache/cache.go:684-786 | every returned row satisfies all conditions; with usable indexes and no lost key the result is exactly the plain filter; the type error is reported exactly for a value of the wrong type, and supported conditions never fail |
| Overlay.ApplyCacheUpdate | cache/cache.go:1210-1247 | the cached rows after all updates, in any order; fails exactly when some update inserts a cached row or changes a missing one |
| Overlay.AddOperation | updates/updates.go:113-126 | the one update from the row to what the operation makes of it; fails exactly when the row refuses it |
| Overlay.BuildUpdates | database/transaction/transaction.go:354-363 | each matching row is taken to what the operation makes of it; fails exactly when one of them refuses it |
| Overlay.OverlayExact | database/transaction/transaction.go:232-256 | preferring cached rows among the matches gives exactly the matching rows of the patched database, unless a row matches only in its old form |
| Overlay.WarmingUnseen | database/transaction/transaction.go:240-245 | copying rows of the database into the cache leaves the patched database as it is |
| Overlay.Warm | database/transaction/transaction.go:234-247 | copies exactly the rows found only in the database, so the versions ever indexed grow by no more than these; fails exactly when one of them is cached in a form that no longer matches |
| Overlay.Transaction.RowsFromTransactionCacheAndDatabase | database/transaction/transaction.go:216-256 | every row returned matches in the patched database, which is unchanged; with usable indexes, and no two versions seen so far sharing a schema index value, the result is exactly the matching rows, and a proper query fails exactly when a row matches only in its old form |
| Overlay.RewarmedRowHides | database/transaction/transaction.go:234-247 | of a transaction in which a deleted row is cached again in its stored form: the transaction still sees another row with the value of its schema index, that row satisfies the condition, and the query of the cache through the index does not find it |
| Overlay.Transaction.Prepare | database/transaction/transaction.go:319-363 | the rows an operation hits and the update of each; fails exactly when the query does or a row refuses the operation |
| Overlay.Transaction.ApplyUpdates | database/transaction/transaction.go:109-118 | merging and applying the updates of an operation cannot fail, and leads from what the transaction saw to what the operation makes of it |
| Overlay.Transaction.Insert | database/transaction/transaction.go:299-317 | the patched database gains exactly the inserted row |
| Overlay.Transaction.OnRows | database/transaction/transaction.go:319-406 | select, update, mutate and delete act on exactly the matching rows of the patched database; a proper operation fails exactly when a row matches only in its old form or a matching row refuses it, and then changes nothing |
| Overlay.Transaction.Perform | database/transaction/transaction.go:81-107 | each operation takes the patched database to what the operation means, or fails exactly when it should and changes nothing |
| Overlay.AccumulatedStep | database/transaction/transaction.go:109-113 | the accumulated update of each row stays the one from the database to what the transaction sees |
| Overlay.PerformNext | database/transaction/transaction.go:80-123 | one more operation of a list on a table: the accumulated updates, the versions held and, when queries can be answered through indexes, the rows seen are those of the list so far; it then fails exactly when the operation fails on what those before it make of the table |
| Worlds.EffectOk | updates/updates.go:113-126 | an operation whose values refer to rows of the right tables keeps every row it touches valid, with references to the right tables only |
| Worlds.OkIsValidWorld | database/inmemory/inmemory.go:16-24 | the tables of a server whose rows are in order are one valid set of rows in which a UUID names one row |
| Worlds.ChangesLead | updates/updates.go:97-111 | the updates of all tables are valid changes of all rows, and lead to the rows of all tables after them |
| Tables.OpsNext | database/transaction/transaction.go:80-107 | each operation of the list is the next one on its table and leaves the lists of the other tables as they are |
| Tables.PerformOn | database/transaction/transaction.go:80-123 | one operation on one of several tables: its table goes on as planned, the others are untouched |
| Tables.Transact | database/transaction/transaction.go:45-132 | for any list of operations on any tables, the accumulated update of each row is the one from the database row to the row the transaction sees, immutable columns are unchanged and references in order; when the database has exact indexes, queries lose no key and no two rows the operations are meant to lead to share a schema index value, it fails exactly when an operation fails on what those before it make of its table, and otherwise sees exactly what they make of every table |
| Replication.FilterColumns | server/monitor.go:125-136 | exactly the requested columns are kept, and a missing row stays missing |
| Replication.FilterTable | server/monitor.go:193-209 | exactly the selected updates, each projected to the requested columns |
| Replication.Filter2 | server/monitor.go:177-213 | exactly the requested tables that have updates, each filtered; panics exactly when no table is requested and there is an update |
| Replication.FilterMeans | server/monitor.go:193-209 | a row of a requested table that was inserted, modified or deleted is sent exactly when the monitor selects insertions, modifications or deletions; it is sent as nothing but that, an insertion with exactly the requested columns that are not left out as defaults, a modification with exactly the requested columns that changed, each with the difference that leads to its new value |
| Replication.ProjectionCommutes | updates/updates.go:476-528 | applying the projected delta to a row that agrees with the old row on the monitored columns is never refused, gives a row that agrees with the new row, and touches no other column |
| Replication.InsertArrives | updates/updates.go:172-187 | an inserted row arrives on the monitored columns exactly when these hold no all-zero UUID |
| Replication.RowReplicates | server/monitor.go:193-209 | every change of a row on the server is sent, can be applied by the replica, and brings its row in line |
| Replication.PopulateRow | cache/cache.go:1022-1037 | one notification is applied exactly when it fits the row the replica has; no other row changes |
| Replication.PopulateTable | cache/cache.go:1017-1038 | all notifications of a table are applied exactly when each fits |
| Replication.Populate2 | cache/cache.go:1011-1040 | succeeds exactly when every notification fits the row the replica has; then each table is brought up to date, and no table without notifications changes |
| Replication.Follow | server/monitor.go:94-108 | one transaction, filtered, sent and applied: the replica never fails and again equals the server on the monitored tables and columns |
| Replication.Replicate | cache/cache.go:1011-1040 | over any run of steps of a server, the replica never fails and ends equal to it on the monitored tables and columns |
| Replication.InitialReplica | server/server.go:345-360 | the reply to a monitor request makes an empty replica equal to the server exactly when the monitored columns hold no all-zero UUID |
| Replication.OperationsPermitted | updates/updates.go:497-515 | no list of operations changes an immutable column of an existing row, so the replica never refuses a modification |
| Replication.CommitUpdates | database/inmemory/inmemory.go:81-100 | writing the accumulated updates of a transaction to the database never fails, leads to exactly the rows the transaction saw, and adds no versions but these to those the cache has held |
| Notices.CollectedStep | updates/references.go:81-100 | changes between valid rows that keep immutable columns are, split by table, a step that replication can follow |
| Notices.SweptKeeps | updates/references.go:375-415 | sweeping changes no immutable column of a transaction that is not refused |
| Notices.ProcessAndCommit | database/transaction/transaction.go:135-145 | a transaction with garbage collection is committed exactly when it is not refusable, and its updates can be followed by a replica unless it breaks |
| Notices.NotifyOnce | server/monitor.go:94-108 | one transaction with garbage collection, committed and sent: the replica mirrors the committed rows, collected and cleaned ones included |
| Notices.RunAndNotify | cache/cache.go:1011-1040 | the same over any run of transactions given by their updates; none of those done breaks, and the run stops short only of one that does |
| Serving.Operate | database/transaction/transaction.go:45-132 | the operations of a transaction on a server in order lead to tables in order, and when foreseen to what they mean |
| Serving.Process | database/transaction/transaction.go:139-145 | references are processed for the updates of all tables: refused, breaking and swept outcome each by the exact condition on the rows the operations have led to |
| Serving.Decide | database/transaction/transaction.go:45-145 | operations and reference processing together: when the queries can be foreseen, failure, breaking and the new rows are exactly what the transaction means |
| Serving.Deliver | server/server.go:251-253 | the updates are written to every table of the server and sent: the server has the new rows, the replica mirrors them, and the caches have held no other versions |
| Serving.Serve | server/server.go:243-254 | one transaction from its operations on any tables, through reference processing and commit, to the replica: it changes nothing when it fails; the server keeps exact reverse references, full integrity and rooted rows; the replica mirrors it; and when foreseen the outcome is exactly what the transaction means |
| Serving.ForeseenNow | cache/cache.go:524-681 | in a run whose versions share no schema index value, the indexes of every table are usable before every transaction |
| Serving.ServeAll | server/server.go:210-254 | over any list of transactions: server and replica stay in step; and when the run is foreseeable, a condition on the starting rows and the operations alone, every transaction fails exactly when it is refused on the rows that those before it lead to, the run ends at the first that breaks, and the server has exactly the rows that the transactions lead to |
| Foresight.TableIsForeseeable | cache/cache.go:581-618 | in a table without schema indexes, operations with at most one includes condition per map column can be foreseen on any rows |
| Foresight.AfterJobsTyped | database/inmemory/inmemory.go:81-100 | operations, collection and clean-up over any run of transactions keep every value of the type of its column |
| Foresight.RunIsForeseeable | server/server.go:210-254 | on a server without schema indexes every run of such operations is foreseeable, from any rows, so that the outcome of the run is exactly what the transactions mean |
| NamedUuid.CollectNames | ovsdb/named_uuid.go:14-42 | succeeds exactly when every insert has a valid UUID and no name is given to two UUIDs; then each declared name maps to the UUID of its insert |
| NamedUuid.NamesClean | ovsdb/named_uuid.go:14-42 | names that do not look like UUIDs are never themselves targets of the substitution |
| NamedUuid.ExpandPairs | ovsdb/named_uuid.go:106-119 | the walk over a map edited on the way replaces every key and value, in whatever order and whether or not written keys are visited again, as long as no two keys collide with different values |
| NamedUuid.ReplaceableIff | ovsdb/named_uuid.go:106-119 | a map can have its names replaced exactly when no two keys collide with different values |
| NamedUuid.ExpandNamedUUID | ovsdb/named_uuid.go:93-150 | every name is replaced in UUID atoms, UUID sets and maps with UUID values; values that are passed over are unchanged |
| NamedUuid.SkippedIsRight | ovsdb/named_uuid.go:106-145 | maps whose keys alone are UUIDs, and key lists of UUID-to-UUID maps, are passed over, which is right exactly when they mention no name |
| NamedUuid.ExpandOperation | ovsdb/named_uuid.go:45-80 | where, mutations, rows and row are expanded and nothing else changes; succeeds exactly when the table and all columns are known |
| NamedUuid.ExpandNamedUUIDs | ovsdb/named_uuid.go:11-83 | success exactly when UUIDs are valid, names unambiguous and tables and columns known; then, when no name looks like a UUID, every name declared by an insert, earlier or later, is the UUID of that insert at every UUID position of every operation that is not passed over, and everything else is as it was |
| NamedUuid.SubstituteMeans | ovsdb/named_uuid.go:152-157 | a UUID atom or string that is the name of an insert becomes the UUID of that insert, anything else stays |
| NamedUuid.NoNameLeft | ovsdb/named_uuid.go:152-157 | what an atom becomes at a UUID position is no declared name |
| NamedUuid.ResolvedOnce | ovsdb/named_uuid.go:14-42 | when no name is given to two UUIDs, what an atom becomes is determined |
| NamedUuid.OperationMeans | ovsdb/named_uuid.go:45-80 | the same for where, mutations, rows and row of an operation |
| Notation.NativeToOvs | ovsdb/bindings.go:224-288 | the OVSDB notation of a native value; refused exactly for values that do not have the native type of the column |
| Notation.Marshal | ovsdb/set.go:57-68 | the JSON form, where a set of one element is written as that element and the pairs of a map come in any order |
| Notation.MarshalMap | ovsdb/map.go:21-35 | exactly the pairs of the map, in some order |
| Notation.UnmarshalPairs | ovsdb/map.go:38-77 | each key has the value of one of its pairs; fails exactly for a pair that cannot be read, with what is nested in it |
| Notation.UnmarshalElems | ovsdb/set.go:71-109 | the elements in order; fails exactly when one cannot be read, with what is nested in it |
| Notation.Unmarshal | ovsdb/notation.go:109-133 | what is read from a JSON value; fails exactly for values that cannot be read |
| Notation.NestedReadable | ovsdb/notation.go:109-133 | a set or map inside another is refused exactly when it would be refused by itself |
| Notation.OvsToNativeSlice | ovsdb/bindings.go:115-139 | the native slice of a set, or of the one element that stands for it |
| Notation.OvsToNativeMap | ovsdb/bindings.go:183-204 | the native map of the entries; fails exactly when a key or value has the wrong type |
| Notation.OvsToNative | ovsdb/bindings.go:142-207 | the native value for the type of the column; fails exactly for values the column cannot take |
| Notation.AtomTravels | ovsdb/bindings.go:89-112 | every atom arrives, up to rounding of numbers |
| Notation.SetTravels | ovsdb/set.go:57-109 | the elements of a set arrive in order, although a set of one element arrives as a bare atom |
| Notation.MapTravels | ovsdb/map.go:21-77 | the entries of a map arrive, in whatever order they were written |
| Notation.Arrives | ovsdb/notation.go:109-133 | nothing fails on the way |
| Notation.RoundTrip | ovsdb/bindings.go:142-288 | for every column type and well-typed native value, what is read back is the value sent exactly when every number in it is a floating point number |
| Notation.SmallIntsArrive | ovsdb/bindings.go:97-103 | values of every kind whose integers are of magnitude at most 2^53 and whose reals are floating point numbers always arrive |
| Notation.WireForm | ovsdb/uuid.go:17-27 | what is sent of a native value is its value in the notation of section 5.1 of RFC 7047: a string of five dashed groups of hexadecimal digits as a uuid and any other as a named-uuid, one element alone, other sets and all maps under their tags with every element and pair |
| Notation.UuidRead | ovsdb/uuid.go:30-36 | of an array with a UUID tag the string after it is read, nothing when there is anything but strings, and the tag alone is a panic |
| Notation.PartRead | ovsdb/map.go:44-71 | a key or value of a map is read like an element of a set, but a map and any array of another length than two are refused |
| Notation.AtomTaken | ovsdb/bindings.go:89-113 | a column takes atoms of its own type, and numbers for integers |
| Notation.TruncatedMeans | ovsdb/bindings.go:97-103 | a number where an integer is expected loses what is after the point |
| Notation.SendAndReceive | ovsdb/bindings.go:89-288 | encoding, marshalling, unmarshalling and decoding in turn: fails exactly for ill-typed values, and gives the value back exactly when its numbers are floating point numbers |

## Left out

- Network, RPC, TLS, reconnection, timers, events, logging, tracing and locking: operations are atomic steps.
- Reflection in `mapper/` and `model/`: a row is a map from column to typed value, `Clone` is a deep copy, and a row's `_uuid` is its key.
- JSON text: JSON is a datatype, without null and objects, which no column value holds.
- Floating point arithmetic: real columns hold real numbers, and division by zero is an error result.
- The `wait` operation, `select` column lists, and the original `update` notification (`monitor.filter`, `AddRowUpdate`).
- `checkIndexes` and `applyReferenceUpdates` at the end of a transaction; `RowsByModels`.
- Aliasing: slices and maps have value semantics. In the source an insert mutation of a nil map returns one map as value and as delta, and stored reference slices are edited in place, so the results hold for non-nil maps and, for the index, for committed transactions.
- Order of sets: a column set is a mathematical set; the source compares slices in order in `==` conditions.
- References from optional UUID columns and from map columns; reference columns are sets of UUIDs and required UUIDs with a value.
- A UUID belongs to one table only (the `home` function): the tracker notes tracked and deleted rows by UUID alone.
- Lists of referring rows are sets, and the updates of the tracker are keyed by UUID, each with its table.
- Index names are the sets of their column keys (no commas in map keys), the names of a table's indexes are distinct, and the hash is an arbitrary function.
- Indexes over whole set or map columns, which the source cannot use as Go map keys; query exactness excludes them.
- References.RowModifications: columns that hold an optional UUID or a map with references give no modification, because reference columns are sets of UUIDs and required UUIDs.
- References.ModifyToggles: the same restriction of reference columns.
- References.WholeRowToggles: the same restriction of reference columns.
- References.UpdateModifications: the same restriction of reference columns.
- Commits.Run: stops before a transaction that breaks, because the database is not sound after it; what later transactions make of such a database is not modelled.
- Notices.NotifyOnce: a transaction that breaks is left alone, where the source commits and sends it.
- Notices.RunAndNotify: stops there too; transactions are given as updates that change no immutable column.
- Overlay.Transaction.Insert: the UUID is new to the table; inserting under a known one is accepted by the source and fails later.
- Query.RowsByCondition: equality with the plain filter is for indexes that are exact and for conditions that lose no key; without these, only that every returned row matches and comes from the index a single condition names.
- Tables.Transact: the overlay of a transaction is one object for each table; insert UUIDs are distinct and new.
- Replication.Replicate: every sort of update is selected, rows hold no all-zero UUID, and the replica has the server's columns.
- Serving.Serve: the index check at the end of a transaction is left out; operations insert new UUIDs and write no all-zero UUID and no reference to a row of a wrong table; a transaction that breaks is left alone.
- Serving.ServeAll: the same, and the run ends at the first transaction that breaks.
- NamedUuid.ExpandPairs: in a map with UUID keys a key that was visited is not visited again after being written anew, which matters only when a name looks like a UUID.
