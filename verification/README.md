# PocketBase protocols, verified

A Dafny model of the parts of PocketBase (with its PostgreSQL and cluster extensions) in which
state changes step by step, and proofs of what those steps keep. One module per component:

- `RecordTableSync` with `RecordTable`, `RecordCells`, `CollectionSchema` and `ColumnMigration`:
  the migration of a record table when its collection changes. A table is a set of columns over
  the same rows, every DDL statement a partial step. `SqlSession` is the connection; the methods
  follow the source's loops. The specification is `Synced`: what a validated update makes of the
  database, field by field.
- `Transactions`: saves, deletes, flat transactions, deferred after-hooks and the new/not-new flag
  of models. A run is a tree, since hooks act again. `Exec` is the specification, the classes
  `BaseModel` and `App` the code proved against it.
- `CollectionsCache`, `RealtimeDryCache`, `RecordRefs`: three protocols on top of transactions,
  each with the part of their state it needs: the global cache of collections, the realtime
  messages of deletes (their keys in `DryCacheKeys`), the polymorphic references and their cascades.
- `Batch` and `BatchStop`: the continuation-passing batch processor against a plain loop, and the
  channels around it as a machine of interleaved steps.
- `RateLimiter`, `Mfa`, `CronLock`, `DistributedHook`, `Gzip`, `Cors`: smaller protocols, each a
  specification on values, the imperative code against it, and theorems over all runs.

`Names` holds case folding, `Sequences` and `Wrappers` the shared helpers. Check everything with
`dafny verify dfyconfig.toml`.

Random values, clocks, hook decisions, rule evaluation and database verdicts outside the model
are parameters, so every theorem holds for all of them. The temporary column names of a migration
are assumed not to clash with any column or with each other (`FreshNames`, `FreshAmong`), session
ids not to repeat (`FreshIds`).

## What the code does not promise

Where a natural property is false of the code, the module states exactly when it holds and shows a
run where it does not:

- A validated schema update can be refused when the new table name is the name of an index, or an
  index does not fit (`Fits`, `IndexNameBlocksRename`).
- A committed model can end up marked as new when the hooks of its create save it first
  (`CreatedModelsFollowTheTransaction`, `LosesMeansLies`), and a committed create can be reported as failed when another
  hook of its own transaction fails (`CommittedYetReportedAsFailed`).
- A rolled back transaction in which collection changes failed after their write, and none
  succeeded, leaves the cache stale until the next change (`CoherentAfter`).
- The cached lookup and the query fold letters differently: they disagree on texts with a long s
  or a dotted capital I (`ComparisonsDiffer`).
- A failing delete of a record discards the messages of other deletes of it that still wait, which
  are lost exactly then (`OpenContents`, `CommittedMessagesLostExactly`).
- The after-hooks of a delete compute its key anew. If its collection is renamed before the
  transaction ends, or is not found by the model's table name, its messages are not sent and the
  key stays. A caller keeps clear of this exactly if the collection keeps its name, and is found
  under the model's table name in the same spelling, until the transaction ends (`LateKeyAgrees`, `KeptNamesDecide`,
  `LeavesBy`).
- A lock that is released by force under its holder lets two handlers of a task run at once. It is
  safe exactly when the lock is free (`ForceUnlockBreaksExclusion`), which IsLocked tells only for
  the moment of that call.
- A collection id that is another collection's name sends the record check to the wrong table
  (`SavesHoldExactlyWithFaithfulLookups`, `NameAsIdBreaksIntegrity`). The validator checks names
  against existing ids, but not new ids against names.
- A batch processor that is used again keeps its old failed index (`StaleBlame`). The batch handler
  makes a processor per request and uses it once (apis/batch.go:155-161), so none is used again.
- A session whose delete fails serves another response (`RepeatSucceedsExactlyWhenDeleteFailed`).
- A response that is flushed but never written is a gzip stream without an end
  (`TransparentUnlessFlushedEmpty`).

## Model

| member | source | states |
|---|---|---|
| `RecordCells.SingleMultipleSingle` | core/collection_record_table_sync.go:237-341 | single to multiple and back is the identity on exactly the texts that are not themselves a JSON array |
| `RecordCells.MultipleSingleMultiple` | core/collection_record_table_sync.go:237-341 | multiple to single and back is the identity on exactly the empty array and one-element arrays of a non-empty plain text: all but the last element is lost |
| `RecordCells.ToMultipleWraps` | core/collection_record_table_sync.go:262-285 | for every cell: nothing becomes the empty array, an array text stays, any other text becomes its own one-element array |
| `RecordCells.ToSingleKeepsLast` | core/collection_record_table_sync.go:315-333 | for every cell: of an array only the last element stays, whatever is before it, as the text it holds or is written as, an empty array and null become the empty text, and any other text stays |
| `CollectionSchema.CheckFieldDuplicates` | core/collection_validate.go:245-288 | no error exactly for duplicate-free lists (ids, case-folded names); an error points at the first clash and blames the id when the id clashes |
| `CollectionSchema.EnsureNoSystemFieldsChange` | core/collection_validate.go:421-443 | accepts exactly when every system field is still there, by id, under its name |
| `CollectionSchema.EnsureNoFieldsTypeChange` | core/collection_validate.go:220-243 | reports exactly the positions of fields whose type changed |
| `CollectionSchema.PrimaryKeyKept` | core/collection_validate.go:421-443 | the primary key field survives every accepted update under its id |
| `CollectionSchema.OnlyIdIsPrimaryKey` | core/collection_validate.go:245-288 | no accepted update drops or adds a primary key column |
| `CollectionSchema.ColumnTypeKept` | core/collection_validate.go:220-243 | a kept column changes its type only together with its multiplicity |
| `CollectionSchema.DefaultByKind` | core/field_select.go:139-148 | what the rows hold in the column of a new field, by the kind of the field |
| `ColumnMigration.DropStage` | core/collection_record_table_sync.go:80-90 | dropping the column of a field leaves every other field's column, with its cells, where it was |
| `ColumnMigration.RenameStage` | core/collection_record_table_sync.go:111-128 | renaming a field's column moves that field's cells and nothing else |
| `ColumnMigration.AddStage` | core/collection_record_table_sync.go:102-110 | an added column holds its default in every row and disturbs no other field |
| `ColumnMigration.DropRemovedColumns` | core/collection_record_table_sync.go:80-90 | on a matching table every drop is accepted and exactly the removed fields' columns go |
| `ColumnMigration.StageColumns` | core/collection_record_table_sync.go:92-121 | every add and temporary rename is accepted, and each field's cells end up under its temporary or kept name |
| `ColumnMigration.SettleNames` | core/collection_record_table_sync.go:123-129 | in any order of the map of temporary names, every final rename is accepted and each field ends under its own name |
| `ColumnMigration.NormalizeSingleVsMultiple` | core/collection_record_table_sync.go:158-366 | converts exactly the columns whose multiplicity changed, leaves all other columns and the set of views as they were |
| `ColumnMigration.RewriteColumn` | core/collection_record_table_sync.go:217-346 | rename, add, copy and drop together rewrite one column in place, cell by cell |
| `RecordTableSync.CheckIndexes` | core/collection_validate.go:521-697 | accepts exactly: no indexes on a view; well-formed indexes with distinct names and expressions, none of them naming an index of a table other than the old or new one; every old unique index on a system field still there up to condition, collation and order; and on an auth collection a unique index on each of tokenKey and email alone |
| `RecordTableSync.DropCollectionIndexes` | core/collection_record_table_sync.go:368-389 | drops, by name, exactly the well-formed indexes of the collection and changes nothing else |
| `RecordTableSync.CreateCollectionIndexes` | core/collection_record_table_sync.go:391-453 | from any database: tries every index, leaves out the malformed and refused ones and succeeds exactly when there are none; on a migrated table that is exactly when each fits it |
| `RecordTableSync.UpdateRecordTable` | core/collection_record_table_sync.go:49-139 | a validated update is accepted exactly when the new table name and the new indexes fit; it then leaves exactly the specified database, for every order of the final renames, and table, columns, types and indexes are those of the new collection, also when the update is judged needless |
| `RecordTableSync.SyncRecordTableSchema` | core/collection_record_table_sync.go:21-156 | the same for the entry point, and without an old table what the creation promises, the match with the new collection included; a failed sync outside a transaction leaves no trace, a view changes nothing |
| `RecordTableSync.NeedlessIsInSync` | core/collection_record_table_sync.go:58-66 | an update that is judged needless is: the database already matches the new collection |
| `RecordTableSync.IndexNameBlocksRename` | core/collection_record_table_sync.go:72-78 | a validated update that is refused: the new name is the name of an index |
| `RecordTableSync.DataFollowsFieldId` | core/collection_record_table_sync.go:80-129 | whatever was dropped, added, renamed or swapped, each row's value under a kept field's new name is its value under the old name (wrapped into an array or reduced to its last element if the multiplicity changed), new columns hold defaults and no other column is left |
| `RecordTableSync.RenamesUndone` | core/collection_record_table_sync.go:111-129 | undoing an update that only renames, swaps and cycles included, gives back the table |
| `RecordTableSync.SyncedInSync` | core/collection_record_table_sync.go:49-139 | after an accepted update table, columns, types and indexes are exactly those of the new collection |
| `RecordTableSync.ElsewhereUntouched` | core/collection_record_table_sync.go:65-137 | no other table, no view and no other table's index changes |
| `RecordTableSync.CreatedInSync` | core/collection_record_table_sync.go:27-47 | a newly created table matches its collection |
| `RecordTableSync.CreateRecordTable` | core/collection_record_table_sync.go:27-47 | creation succeeds exactly when the name is free and every index fits |
| `Transactions.OneHookPerCallAll` | core/db.go:110-448 | over any run, with any nesting, every create, update and delete fires exactly one of its two after-hooks or still waits to fire it |
| `Transactions.StaysWithinAll` | core/db.go:330-366 | inside an open transaction only error hooks fire, the others queue up in order, nested transactions included, and a model's flag moves only together with a waiting create |
| `Transactions.NestedRunsFlat` | core/db_tx.go:25-30 | a nested transaction is part of the open one, step by step, also when it fails |
| `Transactions.RollbackRestores` | core/db_tx.go:25-49 | a failed transaction restores the rows and every model exactly, and all its hooks are error hooks |
| `Transactions.HooksOfTransaction` | core/db_tx.go:85-112 | waiting hooks fire once, in registration order, when the outermost transaction ends, as successes exactly when it committed; the call returns no error exactly when it committed and no hook failed |
| `Transactions.CreatedModelsFollowTheTransaction` | core/db.go:343-366 | for every body: a model created in a transaction was new before and ends up new exactly when the transaction rolled back or the flag was lost in it; every other model keeps its flag |
| `Transactions.LosesMeansLies` | core/db.go:325-341 | the flag of a created model is lost exactly when a create of it does not go through although its own hooks created the model before, and no later action creates it again |
| `Transactions.LostAreReentered` | core/db.go:325-341 | a flag is lost only where some save of the model makes its hooks save it again before its own write |
| `Transactions.FlagsHoldWithoutReentry` | core/db.go:343-366 | without such a save the created model ends up new exactly when the transaction rolled back |
| `Transactions.FlagLiesExactlyAfterReentry` | core/db.go:325-341 | for a single create the flag is wrong exactly when its own hooks had created the model before and then the chain fails, the id is empty or the id is taken |
| `Transactions.ReentryLosesTheFlag` | core/db.go:325-341 | a run in which a committed model ends up new |
| `Transactions.FailedWrappedOperation` | core/db_tx.go:30-45 | when an operation's own transaction rolls back, rows and flags are those from before it, and the model of a create is new |
| `Transactions.WrappedOperationSucceeds` | core/db.go:330-366 | an operation in its own transaction reports success exactly when that committed and no hook waiting for it failed; in exactly that case the model of a create ends up saved |
| `Transactions.CommittedYetReportedAsFailed` | core/db_tx.go:37-45 | a committed create that is reported as failed and whose model is new again, because another hook of its transaction failed |
| `Transactions.LoneOperation` | core/db.go:110-448 | a save or delete whose hooks do nothing, from any state and with any failure: exactly what becomes of rows, models, fired and waiting hooks, and the result |
| `Transactions.RowsFollowTheLedger` | core/db.go:110-448 | over any run, with any nesting, the rows are those before with the lasting inserts and drops applied in order, none of a rolled back transaction |
| `Transactions.LastEntryDecides` | core/db.go:110-448 | so a row is there exactly if it was inserted and not dropped since, or was there and never dropped |
| `Transactions.BaseModel.MarkAsNew` | core/db_model.go:43-45 | the model is new |
| `Transactions.BaseModel.MarkAsNotNew` | core/db_model.go:49-51 | the saved key is the id |
| `Transactions.App.OnComplete` | core/db_tx.go:85-90 | appends the callback to the waiting ones |
| `Transactions.App.RunAfterFuncs` | core/db_tx.go:93-112 | fires every waiting hook once in order, marks created models as new on failure, forgets the callbacks, reports whether one failed |
| `Transactions.App.RunInTransaction` | core/db_tx.go:25-49 | the loop and field updates compute the specified state, nested calls running flat |
| `Transactions.App.Run` | core/db.go:110-448 | save and delete with their hooks compute the specified state and result |
| `CollectionsCache.StaysOpenAll` | core/collection_model.go:309-330 | inside an open transaction the cache is what the transaction sees, and a hook waits exactly when some operation succeeded |
| `CollectionsCache.CoherentAfter` | core/collection_model.go:819-905 | with no transaction open the cache is right after any save, delete or transaction, exactly unless that was a rolled back transaction without any successful operation whose failed ones had written |
| `CollectionsCache.CoherentRuns` | core/collection_query.go:52-60 | for every sequence of top-level operations and of transactions whose operations succeed, the cache equals the committed collections whenever no transaction is open |
| `CollectionsCache.Heals` | core/collection_model.go:678-735 | any top-level operation, and any rolled back transaction with a success in it, repairs a wrong cache |
| `CollectionsCache.RollbackCanLeaveStaleCache` | core/collection_model.go:309-330 | the stale case, concretely |
| `CollectionsCache.LoneOperation` | core/collection_model.go:680-735 | a top-level save or delete with nothing inside or after it: rows and cache both hold exactly the old collections with the saved one put or the deleted one removed, or the old ones after a failure |
| `CollectionsCache.RowsFollowTheLedger` | core/db_tx.go:25-49 | over any run, with any nesting and any failures: a committed transaction leaves exactly what it wrote, a rolled back one what there was |
| `CollectionsCache.CacheFollowsTheLedger` | core/collection_query.go:52-60 | after a run without a stale rollback rows and cache are both exactly that |
| `CollectionsCache.LastEntryDecides` | core/collection_query.go:52-60 | of the writes about an id the last one decides what is stored under it |
| `CollectionsCache.LookupsAgree` | core/collection_query.go:101-115 | with a right cache the cached lookup finds something exactly when the query does, and the same collection when only one matches, for texts without a long s and a dotted capital I |
| `CollectionsCache.AsciiTextsFold` | core/collection_query.go:64-115 | on ASCII texts both comparisons disregard case and nothing else |
| `CollectionsCache.ComparisonsDiffer` | core/collection_query.go:64-79 | exactly when the two case-insensitive comparisons disagree |
| `CollectionsCache.LookupsDisagree` | core/collection_query.go:101-115 | one text each that only the cache and only the query finds |
| `CollectionsCache.App.ReloadCachedCollections` | core/collection_query.go:52-60 | the cached list holds every collection the handle sees once |
| `CollectionsCache.App.FindCachedCollectionByNameOrId` | core/collection_query.go:101-115 | returns a match or there is none |
| `CollectionsCache.App.Run` | core/collection_model.go:819-905 | the hooks around a save or delete compute the specified state |
| `CollectionsCache.App.EndTransaction` | core/db_tx.go:30-45 | on rollback each waiting hook reloads from the committed collections |
| `RealtimeDryCache.NothingLeft` | apis/realtime.go:401-419 | over any run of deletes whose after-hooks look up the key their messages are stored under, with any failures, no key stays in a client's store once its transaction has ended |
| `RealtimeDryCache.LeavesBy` | apis/realtime.go:424-455 | for any deletes and any keys their after-hooks look up: what a store holds under a key after a run, reckoned from the failures and those keys |
| `DryCacheKeys.LateKeyAgrees` | apis/realtime.go:424-474 | an after-hook computes the key the messages are stored under exactly when the collection has kept its name: for a record, its collection is not renamed; for any other model, its collection is still found by the model's table name and, after a success, the table is spelled like the name the messages were stored under, after an error the collection has that name and the record is back |
| `DryCacheKeys.RecordsHaveTheirOwnKeys` | apis/realtime.go:713-720 | no two records of any tables share a key |
| `RealtimeDryCache.LoneDeleteSends` | apis/realtime.go:630-687 | a successful delete outside a transaction sends every client exactly the messages made for that client |
| `RealtimeDryCache.LoneDelete` | apis/realtime.go:353-419 | a delete in a transaction over an empty store: for every client its own messages are sent if it commits, and the key goes, exactly when the after-hook looks up that key |
| `RealtimeDryCache.ClientsForThemselves` | apis/realtime.go:525-640 | over any run a client's store and what it is sent depend only on the messages that this client may see |
| `RealtimeDryCache.KeptNamesDecide` | apis/realtime.go:377-419 | for one delete in a transaction and every client: in exactly that case its key goes, and its messages are sent if it commits |
| `RealtimeDryCache.RenamedCollectionKeepsItsKey` | core/record_model.go:571-573 | a plain record whose collection is renamed before its transaction commits: nothing is sent and the key stays |
| `RealtimeDryCache.RemovedCollectionKeepsItsKey` | apis/realtime.go:460-474 | the same for a custom model whose collection is gone by then |
| `RealtimeDryCache.OtherCaseKeepsItsKey` | apis/realtime.go:460-474 | the same for a custom model whose table differs in case from its collection's name |
| `RealtimeDryCache.UnfoundRecordKeepsItsKey` | apis/realtime.go:401-419 | a key that stays: a custom model whose delete fails after its row is gone, in a transaction that goes on |
| `RealtimeDryCache.DeletesAreConserved` | apis/realtime.go:353-419 | with at most one delete per record under way or waiting, whose after-hooks find what it stored, a client is sent exactly the messages of the successful deletes outside rolled back transactions, each once and in order, and nothing is kept |
| `RealtimeDryCache.OpenHolds` | apis/realtime.go:630-637 | inside a transaction each waiting delete holds exactly its own messages |
| `RealtimeDryCache.ResolvedContents` | apis/realtime.go:655-711 | firing the waiting hooks empties exactly the keys one of them looks up |
| `RealtimeDryCache.ResolvedSent` | apis/realtime.go:655-687 | success hooks send for each key they look up, once, at its first hook, all that is stored under it |
| `RealtimeDryCache.OpenContents` | apis/realtime.go:401-419 | in an open transaction, whatever runs: a key holds what it held, unless the error hook of a failing delete looked it up, and after that all that was made for it since the last such failure; so what waits is lost exactly when a later delete fails so |
| `RealtimeDryCache.TransactionSends` | apis/realtime.go:377-396 | a transaction from any state sends exactly that, for each key a success hook looks up, exactly if it commits |
| `RealtimeDryCache.OwedSplits` | apis/realtime.go:401-419 | what the successful deletes of a key owe splits into what later failures lost and what is held; without a failure nothing is lost |
| `RealtimeDryCache.CommittedMessagesLostExactly` | apis/realtime.go:377-396 | a committed transaction holds for sending exactly what its deletes of a key owe if and only if none of it was made before such a delete failed |
| `RealtimeDryCache.FailedRepeatLosesMessages` | apis/realtime.go:401-419 | a committed delete that loses its messages so |
| `RealtimeDryCache.App.DryCacheRecord` | apis/realtime.go:630-637 | appends to each client's entry the messages made for that client, and no other's |
| `RealtimeDryCache.App.BroadcastDryCacheKey` | apis/realtime.go:655-687 | each client with an entry is sent it once and loses it |
| `RealtimeDryCache.App.UnsetDryCacheKey` | apis/realtime.go:690-711 | no client keeps the entry |
| `RealtimeDryCache.App.Run` | core/db.go:110-173 | a delete with its realtime hooks computes the specified state for every client |
| `RecordRefs.StepKeeps` | core/auth_origin_model.go:146-239 | every single step keeps all references good exactly unless it is a save checked against another collection's records, or a delete in an open transaction while a hook refuses the delete of a row that refers to it |
| `RecordRefs.RunsKeepIntegrity` | core/auth_origin_model.go:146-239 | over every run of validated saves, record and collection deletes, collection changes and nested transactions, with faithful lookups at each save and no commit after a blocked delete, every row points at an existing record of an auth collection |
| `RecordRefs.DeleteKeeps` | core/auth_origin_model.go:167-238 | a delete succeeds and keeps integrity exactly when no hook refuses the delete of a row that refers to it; skipping other collection types skips nothing |
| `RecordRefs.TopLevelDeletesHold` | core/auth_origin_model.go:167-238 | outside transactions every delete keeps integrity, and a failed one changes nothing |
| `RecordRefs.SavesHoldExactlyWithFaithfulLookups` | core/db.go:450-499 | all validated saves a state accepts are good exactly when looking up an auth collection's id by name or id finds that collection, or one whose records it has too |
| `RecordRefs.ValidatedSavesHold` | core/db.go:473-499 | that is so as long as no collection's name is another one's id |
| `RecordRefs.NameAsIdBreaksIntegrity` | core/collection_validate.go:166-188 | a run in which such a name makes a validated save dangle |
| `RecordRefs.IgnoredFailureBreaksIntegrity` | core/auth_origin_model.go:209-235 | a half-way cascade in a transaction that commits |
| `RecordRefs.TypeChangeWouldBreak` | core/collection_validate.go:210-218 | were the type of a referenced collection changed, integrity would break and its delete would leave the rows |
| `RecordRefs.UpdateKeeps` | core/collection_validate.go:210-218 | validated collection updates keep every reference good |
| `RecordRefs.CollectionIsCreated` | core/collection_validate.go:166-188 | a collection is created exactly when its id is new and its name is no other's, in any case, and no existing id; it then is listed with an empty table, and nothing else changes |
| `RecordRefs.CollectionIsUpdated` | core/collection_validate.go:166-218 | an update is accepted exactly when it keeps the type and its name is free; it then replaces that collection alone |
| `RecordRefs.CollectionIsDeleted` | core/auth_origin_model.go:167-199 | a delete takes the collection, its records and, of an auth collection, exactly the rows that refer to it; when it is refused or rolled back it takes nothing |
| `RecordRefs.RecordIsDeleted` | core/auth_origin_model.go:202-238 | a delete takes the record and exactly the rows that refer to it, or nothing |
| `RecordRefs.RecordIsCreated` | core/db.go:450-499 | a new record is added to its collection alone |
| `RecordRefs.RowIsSaved` | core/auth_origin_model.go:147-164 | a row is accepted exactly when its collection is an auth one by id and its record is one of the first collection found by that id as a name or id; it then replaces the row of its id |
| `RecordRefs.TransactionsAreWhole` | core/db_tx.go:25-49 | a transaction does what its steps do one after the other, or nothing |
| `RecordRefs.Store.DeleteRows` | core/auth_origin_model.go:216-230 | the loop deletes exactly the referring rows, up to the first that cannot be deleted |
| `RecordRefs.Store.SaveRow` | core/auth_origin_model.go:147-164 | accepts exactly what the two validators accept |
| `RecordRefs.Store.DeleteRecord` | core/auth_origin_model.go:202-238 | the delete and its cascade compute the specified state |
| `RecordRefs.Store.DeleteCollection` | core/auth_origin_model.go:167-199 | likewise for a collection |
| `Batch.RepliesBelongToRequests` | apis/batch.go:192-233 | the j-th reply of a plain loop is that of the j-th request on the state its predecessors left |
| `Batch.LoopedFromHead` | apis/batch.go:235-273 | a left-to-right loop unfolds from its first request as the nested recursion does |
| `Batch.BlamedFromHead` | apis/batch.go:247-262 | the request to blame, as seen by each nested handler |
| `Batch.RequestIsHandled` | apis/record_crud.go:212-645 | when a request goes through, what it does to the record it is about, to no other, and its reply |
| `Batch.LastRequestDecides` | apis/batch.go:235-278 | after a successful batch the last request about a record decides whether it exists and what it holds; all others are as before |
| `Batch.BatchProcessor.Run` | apis/batch.go:235-273 | the recursion ends in the state of the loop, with the replies in reverse order, and sets the failed index |
| `Batch.BatchProcessor.Process` | apis/batch.go:179-233 | a batch succeeds exactly when the loop does and no handler fails later; then results[j] belongs to batch[j]; else nothing is committed and the index is the request that failed before its continuation or else the deepest that failed after it |
| `Batch.BatchProcessor.Reverse` | apis/batch.go:213-216 | the in-place swaps reverse the results |
| `Batch.StaleBlame` | apis/batch.go:257-259 | a processor used again after a failure reports the right index exactly when the first failure was at its first request or the index is the same |
| `BatchStop.NothingStartsAfterTheToken` | apis/batch.go:194-196 | in every interleaving no request starts once the stop token is in the channel |
| `BatchStop.SendsNeverBlock` | apis/batch.go:218-231 | neither the worker's send nor the deferred one of the token ever blocks, and until it is gone the worker has a step of its own |
| `BatchStop.WorkerFinishes` | apis/batch.go:235-278 | in every interleaving the worker is gone after at most 3n + 2 steps of its own for n requests, also when stopped |
| `BatchStop.SuccessIsReached` | apis/batch.go:192-233 | a batch of any length, whichever requests a hook stops, can end with the writes of all others committed |
| `BatchStop.AllOrNothing` | apis/batch.go:192-233 | once the transaction has ended all requests are handled, replied to and their writes committed, or nothing is |
| `BatchStop.GivingUpIsFailure` | apis/batch.go:221-231 | success means the worker's own result was received |
| `RateLimiter.ConsumeFollowsTheRule` | apis/middlewares_rate_limit.go:344-363 | a request is accepted exactly when the history rule says so |
| `RateLimiter.DecisionsFollowTheRule` | apis/middlewares_rate_limit.go:261-279 | every decision of a limiter, cleanups included, equals that of the history rule, which knows nothing but the accepted requests |
| `RateLimiter.SlidingWindowBound` | apis/middlewares_rate_limit.go:261-279 | in no half-open window of one interval are more requests of a key accepted than allowed |
| `RateLimiter.WindowWithinRun` | apis/middlewares_rate_limit.go:344-363 | the accepted requests of a window are part of one run with gaps below the interval |
| `RateLimiter.CleaningIsUnobservable` | apis/middlewares_rate_limit.go:281-305 | with a delete interval of at least the rate interval minus one, cleanups at any points change no decision |
| `RateLimiter.RuleLimitersCleanUnobservably` | apis/middlewares_rate_limit.go:156-158 | the limiters of the rules qualify |
| `RateLimiter.ShorterCleanupIsObservable` | apis/middlewares_rate_limit.go:281-305 | with any shorter delete interval some run shows the cleanup |
| `RateLimiter.RateClient.Consume` | apis/middlewares_rate_limit.go:344-363 | computes the specified client state and decision |
| `RateLimiter.RateClient.HasExpired` | apis/middlewares_rate_limit.go:333-338 | more than the given seconds since the last accepted request |
| `RateLimiter.Limiter.IsAllowed` | apis/middlewares_rate_limit.go:261-279 | computes the specified map of clients and decision |
| `RateLimiter.Limiter.Clean` | apis/middlewares_rate_limit.go:281-305 | drops exactly the expired clients |
| `RateLimiter.Limiter.Shrink` | apis/middlewares_rate_limit.go:296-304 | rebuilding the map changes nothing |
| `Mfa.ResponsesNeedTwoFactors` | apis/record_helpers.go:182-249 | over any run each auth response for which MFA applies used a session opened before, for the same record, with another method, not expired |
| `Mfa.SessionsServeOnce` | apis/record_helpers.go:224-248 | a session whose delete succeeded serves no second response |
| `Mfa.RepeatSucceedsExactlyWhenDeleteFailed` | apis/record_helpers.go:224-248 | the same second factor again is let through exactly when that delete failed |
| `Mfa.FailedDeleteServesTwice` | apis/record_helpers.go:224-232 | such a run, concretely |
| `Mfa.SecondFactorSucceeds` | apis/record_helpers.go:233-248 | a second factor is let through exactly when record and collection match, the method differs and the session has not expired |
| `Mfa.AttemptsLeadTo` | apis/record_helpers.go:182-249 | for every attempt in every state: whether it opens a session, gets a response, and by which session, or nothing |
| `Mfa.SessionsAfter` | core/mfa_query.go:62-115 | after any event: a session is there exactly if it was just opened, or was there and was neither completed, found expired, cleaned up nor its owner's to go |
| `Mfa.Authenticator.CheckMfa` | apis/record_helpers.go:182-249 | computes the specified sessions and verdict |
| `Mfa.Authenticator.RecordAuthResponse` | apis/record_helpers.go:64-84 | computes the specified outcome |
| `CronLock.AtMostOneHandler` | core/db_advisory_lock.go:237-280 | in every interleaving that releases no held lock by force at most one handler runs per lock key, hence per task name, even if the task is registered again meanwhile |
| `CronLock.RunningTasksAreLocked` | core/db_advisory_lock.go:252-261 | a running task has its lock held |
| `CronLock.NobodySkips` | core/db_advisory_lock.go:255-259 | the branch for a task already running is never taken |
| `CronLock.NothingLeaks` | core/db_advisory_lock.go:252-269 | every lock and every running mark belongs to a caller still inside |
| `CronLock.ForceUnlockKeepsInvExactly` | core/db_advisory_lock.go:131-133 | releasing a lock by force keeps the invariant exactly when the lock is free |
| `CronLock.ForceUnlockBreaksExclusion` | core/db_advisory_lock.go:131-133 | in every state so reached: after a lock is released by force no later interleaving has two handlers of one key if and only if the lock was free, wherever its holder is |
| `CronLock.HeldLockIsReached` | core/db_advisory_lock.go:237-280 | a state with a held lock is reached |
| `CronLock.OneHandlerPerTask` | core/db_advisory_lock.go:255-269 | in every run at all, forced releases included, a task object has at most one handler, and is marked as running exactly while it has one |
| `CronLock.LastRegistrationDecides` | core/db_advisory_lock.go:203-222 | a name can be triggered exactly if what was last said about it was a registration |
| `CronLock.CallsTryForTheLock` | core/db_advisory_lock.go:224-250 | a call of a registered name takes the lock exactly when it is free |
| `CronLock.CallsEnd` | core/db_advisory_lock.go:252-269 | a call that has the lock runs the handler exactly if the task is idle, and gives the lock back in both cases |
| `CronLock.AdvisoryLockManager.TryLock` | core/db_advisory_lock.go:39-52 | takes the key exactly when it is free |
| `CronLock.AdvisoryLockManager.Unlock` | core/db_advisory_lock.go:106-115 | frees the key and no other |
| `CronLock.AdvisoryLockManager.IsLocked` | core/db_advisory_lock.go:136-144 | tells whether the key is held |
| `CronLock.ExecuteTask` | core/db_advisory_lock.go:237-280 | uninterrupted, the handler runs exactly when the lock is free and the task idle, and the lock table is left as found |
| `DistributedHook.RetryCalls` | core/db_distributed_hook.go:157-188 | the loop calls the handler up to the first outcome that is not retried, at most as often as retries are left |
| `DistributedHook.RetryBounds` | core/db_distributed_hook.go:157-215 | at most MaxRetries + 1 local calls and one message, published only after a local success |
| `DistributedHook.OthersRunExactlyOnce` | core/db_distributed_hook.go:239-261 | after a successful broadcast each other registered node runs the handler exactly once, the sender ignores its own message, nothing is published again; after a failed one no other node runs it |
| `DistributedHook.OthersStayOut` | core/db_distributed_hook.go:133-153 | local and competing hooks stay on their node |
| `DistributedHook.UnregisteredIsFine` | core/db_distributed_hook.go:129-131 | a hook that is not registered is not called, and that is no error |
| `DistributedHook.MessagesRunHandlers` | core/db_distributed_hook.go:239-261 | a message runs the handler exactly if it is a broadcast of another node for a registered event |
| `DistributedHook.HookManager.TriggerHook` | core/db_distributed_hook.go:124-154 | one attempt computes the specified calls and messages |
| `DistributedHook.HookManager.TriggerHookWithRetry` | core/db_distributed_hook.go:157-188 | the retry loop computes the specified calls, messages and result |
| `DistributedHook.HookManager.BroadcastHook` | core/db_distributed_hook.go:191-215 | publishes one message, or none without a database |
| `DistributedHook.HookManager.HandleRemoteHook` | core/db_distributed_hook.go:239-261 | runs the handler for a registered broadcast of another node only |
| `Gzip.TransparentUnlessFlushedEmpty` | apis/middlewares_gzip.go:103-133 | for every sequence of writes, headers and flushes the decoded body is the concatenation of all writes, exactly unless something was flushed and nothing written |
| `Gzip.CompressedExactlyWhenDecided` | apis/middlewares_gzip.go:161-204 | the response is declared gzip exactly when the threshold was reached or a flush occurred, with the last status set before that point |
| `Gzip.HeaderWrittenOnce` | apis/middlewares_gzip.go:152-204 | the header underneath is written at most once, exactly unless a code was set, then something flushed and nothing ever written |
| `Gzip.StateDescribed` | apis/middlewares_gzip.go:161-204 | every field of the writer after any operations, in terms of the operations alone |
| `Gzip.GzipResponseWriter.Write` | apis/middlewares_gzip.go:161-187 | computes the specified state |
| `Gzip.GzipResponseWriter.WriteHeader` | apis/middlewares_gzip.go:152-159 | computes the specified state |
| `Gzip.GzipResponseWriter.Flush` | apis/middlewares_gzip.go:189-204 | computes the specified state |
| `Gzip.GzipResponseWriter.Finish` | apis/middlewares_gzip.go:104-132 | computes the specified response |
| `Gzip.Serve` | apis/middlewares_gzip.go:98-139 | a whole request computes the specified response |
| `Cors.MatchSubdomain` | apis/middlewares_cors.go:285-327 | true exactly when schemes agree, both contain "://", the authority has at most 253 bytes and the labels match |
| `Cors.MatchScheme` | apis/middlewares_cors.go:278-282 | the text before the first colon is the same in both |
| `Cors.ScanDecides` | apis/middlewares_cors.go:313-326 | scanning from the right decides whether the labels right of the rightmost star are the domain's rightmost ones, with one left over |
| `Cors.ScanReversed` | apis/middlewares_cors.go:313-326 | the loop with its early exits finds the star or rejects |
| `Cors.ReverseInPlace` | apis/middlewares_cors.go:304-311 | the swaps reverse the array |
| `Cors.LabelsJoin` | apis/middlewares_cors.go:302-303 | splitting at the dots loses nothing |

## Left out

- SQL text, drivers and the PostgreSQL branches: statements are abstract steps in their SQLite form; GIN indexes and PRAGMA optimize do not exist here.
- RecordTableSync.CheckIndexes: the parts of an index expression are opaque texts to compare; the name of the missing index is not reported.
- RecordTableSync.UpdateRecordTable: whether the rows satisfy an index (its uniqueness and WHERE clause) is the parameter `admits`, and index columns are plain names; SQLite's own checks of views against dropped or renamed columns are not modelled outside the normalization, which drops and restores the views.
- Names.Fold: folds ASCII letters only; collection, field and index names are ASCII words.
- Transactions.App.Run: ids of models do not change while they are saved, and an operation's own transaction covers its write and what follows it, not the hooks before the write. After-hooks are recorded and may fail, but do not act again.
- Transactions of the auxiliary database nested in main ones, connection pools, lock retries and contexts.
- CollectionsCache.App.FindAllCollections: lists every row once, in any order; the order by id is not modelled, and no theorem depends on it.
- CollectionsCache: the state before the cache is first filled, and the checks of view queries and references inside the hooks, which only decide whether an operation fails.
- RealtimeDryCache: the ids of models stay the same until their hooks have fired; clients that connect or leave meanwhile, and the order between messages of different keys, which the source sends from separate goroutines.
- RecordRefs: one kind of proxy row stands for the four of the source, which do not touch each other's rows; other cascades of a record delete, views' records and TruncateCollection are not modelled.
- Batch.BatchProcessor.Process: a hook that swallows the error of the rest of the batch is not modelled; hook chains propagate errors.
- BatchStop: a processor used again while an old worker still runs, which shares its channels.
- RateLimiter.Limiter.IsAllowed: taken as one step, like the cleanup; two requests of a new key that race are not interleaved, and integers are unbounded.
- Mfa.Authenticator.CheckMfa: attempts are taken one at a time; two that overlap between the lookup and the delete of one session are not modelled.
- CronLock: session semantics of advisory locks in PostgreSQL, blocking Lock, and panics of handlers, whose deferred calls run as at a normal end.
- DistributedHook: retry delays and the PubSub transport; a message reaches every node once.
- Gzip: Content-Type and Content-Length, write errors, and the pools; the compressor is its sequence of start, data and end.
- Cors: the other origin checks of the middleware; strings are sequences of bytes.
- updateGeneratedIdIfExists, triggerRecordEnrichHooks, authAlert, execAfterSuccessTx and getDelay: they would only add easy members.
- HTTP, JSON, multipart, mail, rule evaluation, token and password handling, backups, the command line and the UI.
