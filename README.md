# Frappe ⇄ Optigem database sync, modelled in Dafny

The system keeps two stores of the same business records in step:
- a Frappe site, reached through its REST document API;
- a relational database, Firebird or Microsoft SQL Server, that holds the Optigem tables.

A **sync task** is one configured pairing of a Frappe doctype with a table or a custom query. It has:
- a field `mapping` from Frappe field names to column names;
- the `key_fields` that identify a record on both sides;
- optional value mappings and time-zone offsets.

Tasks run in one of two directions:
- **frappe_to_db**: fetch the Frappe documents modified since the last run. For each one, count the rows with the same key values in the table, then UPDATE the matching row or INSERT a new one. A new row may get its id from a manual id sequence below a configured ceiling.
- **db_to_frappe**: select the rows modified since the last run. For each row, look up the Frappe documents with the same key values, then update them (all of them, or only the first) or insert a new document.

Around the tasks sit four more pieces:
- **Checkpoints.** A YAML timestamp store is keyed by task name. Each entry records a hash of the task's configuration, so a checkpoint follows the configuration, not the name. Every save writes the keys sorted, so a lookup by hash finds the entry whose task name sorts first.
- **Run history.** A SQLite store keeps one sync state per hash, the runs and their log lines.
- **The Frappe client.** It pages through `limit`/`limit_start` requests.
- **The web service rules.** These cover task names for manual runs, the cron schedule, and the page sizes of the run listings.

The Dafny modules follow the program:

| module | file | models |
|---|---|---|
| `Base` | base.dfy | values of records, Python dicts as insertion-ordered association lists |
| `Text` | text.dfy | the `str` methods the code uses (split, join, strip, replace, upper, `str(int)`) |
| `DbApi`, `LegacyDb` | dbapi.dfy | identifier escaping, query formatting for the log, connection lookup (api/database.py, database.py) |
| `SqlText` | sqltext.dfy | the SQL text the tasks send, and how its `?` placeholders line up with the parameters |
| `SyncTask` | synctask.dfy | field and value mapping in both directions, time-zone harmonisation, casting, keys and key indexes (sync/task.py) |
| `DbWrites` | dbwrites.dfy | the writes of a task: UPDATE, INSERT with manual ids, the Frappe insert and update requests |
| `Reconcile` | reconcile.dfy | the two reconciliation loops (sync/frappe_to_db.py, sync/db_to_frappe.py) and the record fetches |
| `Settings` | taskconfig.dfy | task validation (config.py) and the older loader (sync_task.py) |
| `Checkpoints` | checkpoints.dfy | the YAML store, task hashes, checkpoint lookup and save, the run loop (sync/manager.py, synchronize.py) |
| `History` | history.dfy | the SQLite history: sync states, runs, logs, the log handler |
| `FrappeApi` | frappeapi.dfy | the page-size setting, auth headers, and the paging loop of the Frappe client |
| `Service` | service.dfy | task-name normalisation, the schedule, listing limits |

The model's parameters stand in for everything external:
- **External answers** are method parameters: what a SELECT returns, whether a statement raises, what a Frappe request answers, the clock readings.
- **Opaque library functions** are function parameters, with no properties assumed beyond the types: the SHA-256 of the JSON dump, `datetime.isoformat`/`fromisoformat`, `int()` parsing, `json.dumps`, `str()`, and `croniter.is_valid`.
- **Time-zone offsets** are integer parameters: `frappeTz` and `dbTz`, in the same unit as the timestamps.

A database connection is a `Connection` object. Its fields are:
- `pending`: the executed statements not yet committed;
- `committed`: the committed ones;
- `cursorsOpened`: the number of cursors opened.

A reconciliation loop is stated against the sequence of operations it issues, written `DbOp` for the database side and `ApiOp` for the Frappe side.

## Model

| member | source | states |
|---|---|---|
| DbApi.EscapeUnchangedIffSafe | api/database.py:207-224 | an escaper returns a name unchanged exactly when it matches the dialect's identifier pattern and its upper-cased form is not a reserved word of that dialect |
| DbApi.EscapeRoundTrip | api/database.py:213-224 | stripping the quote characters of an escaped name and collapsing the doubled closing quotes gives back the name |
| DbApi.EscapeInjective | api/database.py:207-224 | two different names never escape to the same SQL text |
| DbApi.TrailingNewlinePassesUnquoted | api/database.py:143-144 | because `$` also matches before a final newline, `"abc\n"` passes unquoted in both dialects |
| DbApi.ReservedWordQuoted | api/database.py:147-175 | the reserved-word check ignores case: `As` is bracketed for MSSQL |
| DbApi.ClosingBracketDoubled | api/database.py:213-214 | a `]` inside a name is doubled inside the brackets |
| DbApi.DollarOnlyMssql | api/database.py:143-144 | `$` is an identifier character for MSSQL only, so `t$` is quoted for Firebird but not for MSSQL |
| DbApi.FormatParam | api/database.py:116-127 | a string parameter is wrapped in single quotes with each inner quote doubled (its length grows by the count of quotes plus two), so that reading the quotes back gives the string; None is NULL |
| DbApi.FormatParamReadsBack | api/database.py:120-125 | an integer is its decimal digits (minus sign when negative) and they read back to it; a bool is True/False; a timestamp is its ISO text between single quotes |
| DbApi.FormatParams | api/database.py:129 | one formatted text per parameter, in order |
| DbApi.InterleaveSplit | api/database.py:131-137 | joining the `?`-split parts with the parameters in turn is the same as replacing each `?`, left to right, with the next parameter (or nothing once they run out) |
| DbApi.FormatQuery | api/database.py:111-137 | the logged query is the query with each `?` replaced by the next formatted parameter, plus the one parameter after the last part when there is one more parameter than placeholders; the older connector's copy (database.py:79-105) is identical |
| DbApi.FormatQueryWithoutParams | database.py:99-105 | without parameters every `?` disappears from the logged text |
| DbApi.SubstituteIgnoresSurplus | api/database.py:131-137 | parameters beyond those the placeholders use do not change the text |
| DbApi.FormatQueryExample | api/database.py:116-137 | `?,?` with `x'y` and None logs as `'x''y',NULL` |
| DbApi.GetEscapeIdentifierFn | api/database.py:65-75 | None exactly when the database name is not configured; otherwise the escaper of that database's dialect |
| DbApi.GetConnection | api/database.py:57-63 | None exactly when no connection has that name; otherwise one registered under it |
| LegacyDb.GetConnection | database.py:55-68 | the Firebird map for `firebird`, the MSSQL map for `mssql`; None for any other type or an unknown name |
| SqlText.AssignLineUp | sync/task.py:276-279 | `n = ?` assignments joined by a separator hold one placeholder per name, and the values land beside their own names |
| SqlText.MarksLineUp | sync/task.py:300-304 | `?, ?, …` holds one placeholder per value and fills in the values in order |
| SqlText.UpdateParamsLineUp | sync/task.py:276-280 | the UPDATE has one placeholder per SET column plus one per key column; the SET values fill the SET list and the key values the WHERE clause |
| SqlText.InsertParamsLineUp | sync/task.py:300-304 | the INSERT has one placeholder per column, and the values fill the VALUES list in column order |
| SqlText.SelectWhereLineUp | sync/task.py:282-291 | the read-back SELECT has one placeholder per column, bound in column order |
| SqlText.CountSqlLineUp | sync/frappe_to_db.py:17-20 | the existence check has one placeholder per key field, bound in key order |
| SqlText.DbRecordsQuery | sync/task.py:190-211 | no statement exactly when there is a checkpoint and a custom query but no timestamped query; without a checkpoint, the custom query or `SELECT * FROM` the table, with no parameters; with one, the timestamped query with one parameter per placeholder, or the table SELECT with `WHERE` the escaped modified column `>= ?`, plus `OR` the escaped fallback column `>= ?` when there is one, with one or two parameters; every parameter is the checkpoint shifted by the database offset |
| SqlText.DbRecordsPlaceholders | sync/task.py:190-211 | the statement binds exactly as many parameters as it has placeholders |
| SqlText.ByIdsPlaceholders | sync/task.py:213-225 | the by-ids SELECT is the table (or the trimmed custom query) with an `id IN (?, …)` condition holding one placeholder per id, after WHERE or AND as the base requires |
| SqlText.TrimStatement | sync/task.py:218-219 | the result is the stripped query, without its last character exactly when that is a semicolon; the text never grows |
| SyncTask.KeyOfValueFirst | sync/task.py:111-116 | the reverse value lookup answers the key of the first entry mapped to that value |
| SyncTask.LookupByDocValue | sync/task.py:83-94 | found exactly when the value mapping has the value as a key; then its mapped value, otherwise the value itself |
| SyncTask.LookupByDbValue | sync/task.py:110-121 | found exactly when some entry maps to the value; then that entry's key, otherwise the value itself |
| SyncTask.MapFrappeToDb | sync/task.py:65-98 | the loop builds the forward translation `ToDb` |
| SyncTask.MapForward | sync/task.py:70-96 | one mapping entry's step equals the forward value of that field |
| SyncTask.ToDbColumns | sync/task.py:65-98 | a column is in the translated row exactly when some mapping entry names it and its field has a non-None value that strict value mapping does not drop |
| SyncTask.ToDbValue | sync/task.py:65-98 | with distinct columns, each mapped column holds the forward value of its field |
| SyncTask.ToDbLastWins | sync/task.py:69-98 | when several fields map to one column, the column holds the forward value of the last of their entries that writes one |
| SyncTask.ForwardFirstMatchWins | sync/task.py:75-94 | a field's value is shifted from the Frappe to the database offset when it is a timestamp, then replaced by its value mapping |
| SyncTask.ForwardUnmatched | sync/task.py:83-94 | a value missing from the value mapping is dropped under strict mapping and kept otherwise |
| SyncTask.MapDbToFrappe | sync/task.py:100-126 | the loop builds the backward translation `FromDb` |
| SyncTask.MapBackward | sync/task.py:104-124 | one mapping entry's step equals the backward value of that column |
| SyncTask.FromDbValue | sync/task.py:100-126 | with distinct field names, each mapped field holds the backward value of its column |
| SyncTask.RoundTrip | sync/task.py:65-126 | a non-timestamp value without value mapping comes back unchanged through `ToDb` then `FromDb` |
| SyncTask.NoShiftFromDbExample | tests/test_sync_task.py:108-115 | the backward translation does not shift timestamps, so the row in this test comes back at 12:00, not the 13:00 the test expects |
| SyncTask.ShiftToDbExample | tests/test_sync_task.py:49-56 | with Frappe at +2h and the database at +1h, 12:00 goes to the database as 11:00 |
| SyncTask.StrictDropsUnknownExample | tests/test_sync_task.py:59-70 | strict value mapping drops an unknown value in both directions |
| SyncTask.ReverseValueMappingExample | tests/test_sync_task.py:73-83 | the database value 1 maps back to `open` |
| SyncTask.CastExample | tests/test_sync_task.py:132-141 | the datetime and int fields are parsed and other fields are kept |
| SyncTask.SplitFrappeInDataAndKeys | sync/task.py:128-136 | the loop builds the two halves: the key fields and the rest |
| SyncTask.SplitPartition | sync/task.py:128-136 | for distinct keys, a field is in the key half exactly when it is a key field, and in the data half exactly when it is not, with its value |
| SyncTask.CastValue | sync/task.py:138-159 | a non-string stays; an empty string becomes None; a string that fails to parse stays; one that parses becomes a non-string value |
| SyncTask.CastFieldsGet | sync/task.py:143-158 | exactly the listed fields are cast, every other field is untouched |
| SyncTask.CastFieldsKeys | sync/task.py:143-158 | casting keeps the record's keys and their order |
| SyncTask.CastLoop | sync/task.py:143-158 | the loop over the listed fields casts each one in turn |
| SyncTask.CastFrappeRecord | sync/task.py:138-159 | the datetime fields are parsed as ISO timestamps, then the int fields as integers |
| SyncTask.CastSpec | sync/task.py:138-159 | a field of the cast record is its parsed value when it is a datetime or int field, else unchanged |
| SyncTask.FrappeKey | sync/task.py:234-238 | the key has one component per key field: that field's value, None when absent |
| SyncTask.ExtractKeyFromDb | sync/task.py:240-247 | the key is read from the mapped column of each key field, None when absent |
| SyncTask.FromDbDistinct | sync/task.py:100-126 | the translated document never repeats a field |
| SyncTask.KeyAgreementToDb | sync/task.py:234-247 | for plain key fields, the database key of the translated row equals the Frappe key of the document |
| SyncTask.KeyAgreementFromDb | sync/task.py:234-247 | for plain key fields, the Frappe key of the translated document equals the database key of the row |
| SyncTask.GetFrappeKeyRecordDict | sync/task.py:183-188 | the loop builds the key index of the documents |
| SyncTask.GetDbKeyRecordDict | sync/task.py:227-232 | the loop builds the key index of the rows |
| SyncTask.IndexHas | sync/task.py:183-188 | a key is in the index exactly when some record has it |
| SyncTask.IndexLastWins | sync/task.py:183-188 | a key repeated among the records indexes the last record that has it |
| DbWrites.Connection.Commit | sync/task.py:31-45 | the pending statements join the committed ones in order |
| DbWrites.Connection.Rollback | sync/task.py:31-45 | the pending statements are discarded and nothing is committed |
| DbWrites.ExecuteQuery | sync/task.py:31-45 | in a dry run nothing is committed; otherwise a cursor is opened, and the statement is committed after the pending ones unless it raises, in which case everything pending is rolled back |
| DbWrites.ExecuteSelect | sync/task.py:47-63 | the rows the SELECT returns, or none when it raises; a failing SELECT rolls back |
| DbWrites.FirstRow | sync/task.py:287-291 | None exactly when there are no rows, else the first |
| DbWrites.UpdateStatementLinesUp | sync/task.py:269-281 | the UPDATE's placeholders match its parameters, and filled in they give `SET col = value, …` from the data half and `WHERE key = value AND …` from the key half |
| DbWrites.UpdateDbRecord | sync/task.py:269-291 | the UPDATE built from the translated data and keys is committed unless dry run or failure; the result is the first read-back row |
| DbWrites.MaxBelow | sync/task.py:311-315 | the largest id below the ceiling, or None when there is none |
| DbWrites.NextId | sync/task.py:311-318 | the next id is one more than the largest id below the ceiling (an id of the table, below the ceiling, that no id below the ceiling exceeds), and 1 when there is none |
| DbWrites.ManualRow | sync/task.py:307-340 | a row is written exactly when the allocation SELECT succeeds, a ceiling is configured and the next id stays below it; that row is the translated row with the id field set to the next id and every other field as translated |
| DbWrites.InsertFrappeRecordToDb | sync/task.py:293-355 | nothing happens without `create_new`; a failing allocation SELECT or a refused manual id rolls back and yields None; outside a dry run a successful INSERT of the translated row (with its manual id) is committed and a failed one commits nothing; a failed manual-id INSERT yields None; otherwise (the plain path even after a failed INSERT) the result is the first read-back row |
| DbWrites.InsertDbRecordToFrappe | sync/task.py:249-257 | an insert request exactly when `create_new` is set, carrying the translated row |
| DbWrites.UpdateFrappeRecord | sync/task.py:259-267 | an update of the named document carrying the translated row without its key fields |
| Reconcile.FrappeRecordFilters | sync/task.py:161-173 | no filter without a checkpoint; with one, `modified >= checkpoint` shifted by the Frappe offset |
| Reconcile.GetFrappeRecords | sync/task.py:161-173 | the request filters, and every fetched document cast, in order |
| Reconcile.ByIdsFilters | sync/task.py:175-181 | one filter: the document name among the JSON list of ids |
| Reconcile.GetFrappeRecordsByIds | sync/task.py:175-181 | the by-ids filter, and every fetched document cast, in order |
| Reconcile.CastAll | sync/task.py:168-173 | one cast document per fetched document |
| Reconcile.FrappeToDbOpsAt | sync/frappe_to_db.py:9-34 | the i-th document gets its existence check, then an UPDATE when a row matched and an INSERT otherwise |
| Reconcile.CountStatementLinesUp | sync/frappe_to_db.py:14-20 | the existence check binds the key half's values to the key fields' placeholders |
| Reconcile.PartKeysAreKeyFields | sync/frappe_to_db.py:14 | the key half holds only key fields |
| Reconcile.DocumentWrite | sync/frappe_to_db.py:20-34 | the statement a document commits: the UPDATE of its data and keys when the check counted a row; otherwise, with `create_new`, the INSERT of the translated row (with its manual id when one is allocated); nothing when the write raises or `create_new` is off |
| Reconcile.CommittedFrom | sync/frappe_to_db.py:13-34 | every statement the loop commits is the write of one of the documents |
| Reconcile.ReconcileDocument | sync/frappe_to_db.py:17-34 | one document's step logs its check and the path taken; a dry run commits nothing; otherwise the connection commits the UPDATE when the check counted a row and the INSERT when it did not or raised, and nothing when the write raises or `create_new` is off |
| Reconcile.ReconcileAll | sync/frappe_to_db.py:9-34 | the loop logs the steps of every document in order; a dry run commits nothing, otherwise, starting with nothing pending, the connection commits each document's write in document order |
| Reconcile.SyncFrappeToDb | sync/frappe_to_db.py:9-34 | the fetch filters, then the steps of every cast document; a dry run commits nothing, otherwise, starting with nothing pending, each cast document's write is committed in order |
| Reconcile.FiltersPresent | sync/db_to_frappe.py:30-37 | a filter for each key field with a value, none for the others; no filters exactly when no key field has a value |
| Reconcile.GetFiltersFromData | sync/db_to_frappe.py:30-37 | the loop builds those filters |
| Reconcile.InsertOps | sync/task.py:249-257 | at most one request, the insert of the translated row |
| Reconcile.UpdateCalls | sync/db_to_frappe.py:20-22 | one update per matched document, in order |
| Reconcile.RowOpsLookup | sync/db_to_frappe.py:14-18 | a lookup is issued exactly when the row has filters, and it is the first request |
| Reconcile.RowOpsInsertOnlyUnmatched | sync/db_to_frappe.py:17-28 | an insert is issued only when the row has no filters or its lookup found nothing (the update paths are stated by `Reconcile.RowOpsCases`) |
| Reconcile.RowOpsCases | sync/db_to_frappe.py:9-28 | without filters only the insert path; with filters the lookup, then the insert path when nothing matched, every match updated under `process_all`, only the first otherwise |
| Reconcile.DbToFrappeOpsFromRows | sync/db_to_frappe.py:9-28 | every request of the loop belongs to one of the rows |
| Reconcile.InsertThenUpdate | sync/db_to_frappe.py:10-28 | two rows with the same key: when the first lookup finds nothing and the second finds the inserted document, the run inserts once and then updates that document |
| Reconcile.GetDbRecords | sync/task.py:190-211 | no rows exactly when no statement is built, and then the connection is untouched; otherwise what the SELECT returns, with one cursor opened, nothing committed, and the pending writes rolled back when the driver fails (`_execute_select_query`, sync/task.py:47-63) |
| Reconcile.HandleRow | sync/db_to_frappe.py:12-28 | one row's step issues exactly the requests of that row |
| Reconcile.UpdateEach | sync/db_to_frappe.py:20-22 | the loop updates every matched document in order |
| Reconcile.HandleRows | sync/db_to_frappe.py:9-28 | the loop issues the requests of every row in order |
| Reconcile.SyncDbToFrappe | sync/db_to_frappe.py:9-28 | no run exactly when no statement is built; otherwise the requests of every selected row; nothing is committed on the database, the SELECT opens the one cursor and a failing one rolls back |
| Settings.MissingKeys | config.py:74-81 | exactly the key fields absent from the mapping; empty exactly when all are mapped |
| Settings.PostInit | config.py:41-43 | the modified field is among the datetime fields after init, appended only when absent |
| Settings.FrappeSectionObject.ModelPostInit | config.py:41-43 | the post-init step extends the section's datetime fields in place as `PostInit` says |
| Settings.PostInitNoDuplicate | config.py:41-43 | post-init adds no second copy of the modified field |
| Settings.Validate | config.py:60-123 | an accepted task carries the given values with the defaults (name by direction, create_new, use_last_sync_date, process_all, delete) |
| Settings.AcceptedTask | config.py:74-117 | an accepted task has every key field mapped; with checkpoints on, both sections and a timestamped query beside a custom one; a table or query for db_to_frappe, a table otherwise |
| Settings.UnmappedKeyRejected | config.py:74-81 | an unmapped key field rejects the task, naming the missing keys |
| Settings.NoCheckpointNoSectionChecks | config.py:83-96 | with checkpoints off, acceptance depends only on the types, the key fields and the table-or-query rule |
| Settings.NormalizeKeyFields | sync_task.py:28-35 | a falsy value becomes the empty list, a string a one-element list, a list stays; any other truthy value is an error |
| Settings.LegacyTask.LoadConfig | sync_task.py:16-35 | the loader copies the settings with their defaults (db_to_frappe, process_all and create_new off) and normalises the key fields, failing exactly when they are of another kind |
| Text.SortByNameKeeps | utils/yaml_database.py:16-19 | sorting the mapping `yaml.safe_dump` writes keeps every entry, and every key looks up what it did before |
| Text.SortByNameSorted | utils/yaml_database.py:16-19 | the keys come out in ascending code-point order, the order the dump writes them in |
| Text.StrLeTotal | utils/yaml_database.py:16-19 | any two names are ordered one way or the other |
| Text.StrLeTrans | utils/yaml_database.py:16-19 | the name order is transitive |
| Checkpoints.Without | utils/yaml_database.py:32-37 | removing a key drops that key and nothing else |
| Checkpoints.YamlDatabase.Insert | utils/yaml_database.py:16-25 | the stored file becomes the loaded data with the key set to the value, in ascending key order as `yaml.safe_dump` writes it; the key then looks up the value and every other key looks up what it did before |
| Checkpoints.YamlDatabase.Lookup | utils/yaml_database.py:8-14 | nothing when there is no file; a value exactly when the key is stored |
| Checkpoints.YamlDatabase.Delete | utils/yaml_database.py:16-37 | a present key is removed and the rest written back in ascending key order; an absent key leaves the file as it was; afterwards the key looks up nothing and every other key what it did before |
| Checkpoints.InsertGetDelete | utils/yaml_database.py:16-37 | after an insert, as the file reloads sorted, the key holds the value, other keys are unchanged and the keys are in ascending order; deleting it again leaves the others |
| Checkpoints.HashIgnoresCheckpointAndDelete | sync/manager.py:84-87 | two configurations that differ only in `use_last_sync_date` and `delete` hash equal; the older manager's hash (synchronize.py:86-89) is the same |
| Checkpoints.FirstWithHash | sync/manager.py:62-65 | the first entry whose hash matches, or None when none does |
| Checkpoints.SyncManager.GetLastSyncDate | sync/manager.py:57-66 | None when checkpoints are off; otherwise the date of the first entry carrying the task's hash, None when there is none; likewise in the older manager (synchronize.py:60-69) |
| Checkpoints.Saved | sync/manager.py:71-81 | after a save the task's entry holds the configuration's hash and the ISO date, and every other task's entry is as stored (the entries reload sorted by name) |
| Checkpoints.SyncManager.SaveSyncDate | sync/manager.py:68-81 | nothing changes in a dry run; otherwise the file holds the loaded data with "timestamps" set to the stored entries plus the task's new entry, both levels sorted by name as the dump writes them, and every other key unchanged; likewise in the older manager (synchronize.py:71-84) |
| Checkpoints.StaleEntrySurvivesSave | sync/manager.py:57-81 | the purge compares against the built-in `hash`, so an old entry under another name with the same configuration hash is kept; as the file reloads sorted by name, the lookup for `old_task` then `new_task` returns the new date (the test at tests/test_sync_task.py:86-105 expects the old entry gone) |
| Checkpoints.SaveThenLookup | sync/manager.py:57-81 | once a task's checkpoint is saved and no other entry carries its hash, reading it gives back the saved date |
| Checkpoints.StaleEntryShadowsSave | sync/manager.py:57-81 | when the older entry's name sorts first (`old_task` before `task_v2`), the new entry is saved but the lookup keeps returning the old date |
| Checkpoints.FirstWithHashLeastName | sync/manager.py:62-65 | in entries sorted by name, the first entry carrying a hash has the least name among those carrying it |
| Checkpoints.LookupFindsLeastName | sync/manager.py:57-81 | after any save, the lookup for a hash returns the date of the entry whose name sorts first among those carrying it, whichever task saved last |
| Checkpoints.RunUpToEntries | sync/manager.py:41-55 | the entries a run leaves are those its saves produce, one per task in order |
| Checkpoints.DryRunKeepsEntries | sync/manager.py:41-70 | a dry run leaves the stored entries as they were, since `save_sync_date` returns at once (sync/manager.py:69-70) |
| Checkpoints.RunSavesEveryTask | sync/manager.py:41-55 | after a run outside dry run, each task's entry holds its own hash and date unless a later task of the same name overwrote it |
| Checkpoints.FirstRaise | sync/manager.py:41-55 | the first task whose sync raises, every task before it completing; the number of tasks when none raises |
| Checkpoints.Deadlines | sync/manager.py:52-53 | each saved date is the clock reading plus the buffer |
| Checkpoints.SyncManager.RunTask | sync/manager.py:42-54 | one task syncs from its checkpoint and then saves its date |
| Checkpoints.SyncManager.Run | sync/manager.py:41-55 | every task in order: the file ends as the tasks' saves leave it (`RunUpTo`), and each task reads its checkpoint from the entries the ones before it left; the connections are closed at the end; when a sync raises, that task has read its checkpoint, it and the later tasks save nothing, the exception ends the run and the connections stay open; no other key of the checkpoint file changes; likewise in the older manager (synchronize.py:44-58) |
| Checkpoints.CreateSyncTask | sync/manager.py:33-39 | each of the three directions gives its task kind; anything else none |
| History.StateIndex | utils/history_db.py:68-70 | the sync state with that hash, or None exactly when there is none |
| History.UpsertLookup | utils/history_db.py:72-76 | after the upsert the hash gives the new date and every other hash its old one |
| History.UpsertShape | utils/history_db.py:27 | the upsert keeps hashes unique |
| History.UpsertAppends | utils/history_db.py:72-76 | a new hash adds one state at the end |
| History.UpsertReplaces | utils/history_db.py:72-76 | a known hash takes the new name and date in place; nothing else changes |
| History.TaskHistoryDB.SaveSyncDate | utils/history_db.py:72-76 | the states are upserted and the hash now gives the new date; no other hash's date, run or log changes |
| History.TaskHistoryDB.StartRun | utils/history_db.py:78-88 | one run appended with status running and no end, under an id no earlier run has |
| History.TaskHistoryDB.FinishRun | utils/history_db.py:90-91 | only the end time and status of the runs with that id change |
| History.TaskHistoryDB.InsertLog | utils/history_db.py:93-94 | one log line appended under a fresh id |
| History.OfRun | utils/history_db.py:97-103 | exactly the logs of that run, in ascending id order |
| History.TaskHistoryDB.GetLogs | utils/history_db.py:97-103 | the loop yields the time, level and message of each log of that run, in id order |
| History.InsertLogThenGetLogs | utils/history_db.py:93-103 | inserting a line for a run adds it at the end of that run's listing and changes no other run's |
| History.RunLogHandler.Emit | utils/history_db.py:116-126 | the formatted message (or the bare one when formatting fails) is logged under the run; a failing insert changes nothing and is not raised |
| FrappeApi.NormalizeLimit | api/frappe.py:13-18 | a page size that is not an int of at least one becomes 20, a valid one is kept |
| FrappeApi.AuthHeaders | api/frappe.py:12-30 | always `Accept: application/json`; `Authorization: token key:secret` exactly when both are configured; no other header |
| FrappeApi.OffsetIsMultiple | api/frappe.py:71-82 | the k-th request starts at k times the page size |
| FrappeApi.PageUrlsAt | api/frappe.py:70-76 | the k-th URL asks for the page size from offset k times the page size |
| FrappeApi.PageStep | api/frappe.py:73-82 | a list page is appended to the data, and the loop goes on exactly when the page was full |
| FrappeApi.FrappeClient.SendData | api/frappe.py:32-57 | in a dry run or for another verb nothing is sent and the answer is None; otherwise the request goes out and its answer is returned |
| FrappeApi.FrappeClient.GetData | api/frappe.py:59-67 | one GET with the client's headers; its answer, None on failure |
| FrappeApi.FrappeClient.GetAllData | api/frappe.py:69-83 | GETs of successive pages until one is not full; the result is the concatenation of the list pages in order |
| Service.SortNamesSorted | service.py:167 | the names come out sorted |
| Service.SortNames | service.py:167 | sorting keeps the same names |
| Service.CleanedKeeps | service.py:160 | every name that is not blank once stripped is kept, stripped |
| Service.Cleaned | service.py:160 | the cleaned names are non-empty |
| Service.Unknown | service.py:164-165 | exactly the cleaned names that are not configured |
| Service.FirstOccurrences | service.py:169-175 | the same set of names as the input |
| Service.FirstOccurrencesOrder | service.py:169-175 | no name repeats, and names come in the order of their first occurrence |
| Service.NormalizeTaskNames | service.py:156-175 | None asks for every task; no name left is an error; unknown names are an error listing them sorted; else each name once, in first-occurrence order, all configured |
| Service.Schedule.ApplySchedule | service.py:54-63 | a blank or invalid stored expression pauses the schedule; otherwise the stripped expression is adopted |
| Service.Schedule.SetCron | service.py:95-103 | an invalid expression is refused and nothing changes; a valid one is adopted and saved |
| Service.ClampLimit | service.py:250-253 | a limit below one is refused; otherwise the result is the limit cut to the cap |
| Service.ListRunsLimit | service.py:250-253 | a run listing takes at most 500 runs |
| Service.RunLogsLimit | service.py:267-270 | a log listing takes at most 1000 lines |

## Left out

- Driver and connection plumbing are left out: opening Firebird/MSSQL connections, `sys.exit` on failure, and `close_connections`. A connection is a `Connection` object whose statements are recorded; closing is a flag.
- `get_time_zone` is left out because it reads the server clock. The offsets of the two sides are given as integers.
- The HTTP transport is left out: `requests` and the whole of the older `frappe.py` client. Every answer of the Frappe API is a parameter.
- `CustomEncoder` is left out. It serialises Decimal and datetime for the JSON body, and the body is kept as a value.
- The service's threads, events and locks are left out, along with `trigger_sync`, `_next_wait_seconds` and the FastAPI routes. Only the request rules are modelled. Cron validity is a predicate parameter.
- The Flask test double of the Frappe site (test/frappe_api/app.py) is not part of this model.
- The command-line entry points and loaders are not part of this model: sync.py, `main()` in synchronize.py, gen_hashes.py and utils/config_loader.py.
- Bidirectional sync is left out because sync/bidirectional.py is a stub that only logs. `CreateSyncTask` still dispatches to it.
- `compare_datetimes` is not part of this model: only its test exists, not the function.
- Opaque library functions are parameters with no assumed properties: SHA-256 over `json.dumps`, `datetime.isoformat`/`fromisoformat`, `int()` parsing, `str()` of a key value, `json.dumps` of an id list, `croniter.is_valid`.
- Floats are left out, and so is Python's cross-type equality (`1 == True == 1.0`) in value-mapping lookups. Values compare structurally.
- Logging output is left out, apart from the log lines written to the history store.
- `timestamp_buffer_seconds` is a parameter of `Checkpoints.SyncManager.Run`. sync/manager.py:53 reads it from the top-level `Config`, which does not declare it (config.py:131-136).
- Iterating `tasks.items()` (sync/manager.py:27) is modelled as iterating the list of tasks. Likewise `self.config.tasks.keys()` at service.py:164 is taken as the configured task names, though `Config.tasks` is a list (config.py:136). service.py:16 imports `resolve_timestamp_path`, which sync/manager.py does not define; it is not part of this model.
- sync/db_to_frappe.py:17 passes `filters=` to `get_data`, whose parameter is named `params` (api/frappe.py:59), so as written that call raises TypeError. The model treats the filters as the request parameters and gives the lookup an answer; `Checkpoints.SyncManager.Run` covers the run that such an exception ends. The fetch functions pass their filters to `get_all_data` positionally (sync/task.py:169, 177), so they reach `params` as written.
- sync/task.py:23, 255 and 265 use `frappe_api.tz_delta`, `insert_data` and `update_data`, which neither api/frappe.py nor frappe.py defines. The model takes the Frappe offset as a given integer and records the insert and update requests (`DbWrites.FrappeCall`) as if those methods existed.
- Several fields that sync/task.py reads are task fields of the model, not validated settings, because config.py does not declare them: `doc_type`, `int_fields`, `manual_id_sequence`, `manual_id_sequence_max`, `db.id_field`, `use_strict_value_mapping`, `value_mapping`.
- `set_cron_expr` and `get_schedule` of the history store are called by service.py but absent from utils/history_db.py. The saved expression is the `savedCron` field of `Schedule`.
- `SyncTask.MapDbToFrappe` follows the code, which shifts no timestamps on the way back. tests/test_sync_task.py:108-115 expects a shift; `SyncTask.NoShiftFromDbExample` shows the difference.
- `Checkpoints.SyncManager.SaveSyncDate` follows the code, whose purge never removes an entry. tests/test_sync_task.py:86-105 expects the stale entry to go. `Checkpoints.StaleEntrySurvivesSave` shows what happens instead: the old entry stays, and which date a later lookup returns depends on which name sorts first (`Checkpoints.LookupFindsLeastName`, `Checkpoints.StaleEntryShadowsSave`).
- The order of the checkpoint file is `yaml.safe_dump`'s default key sorting (utils/yaml_database.py:19), modelled as sorting by code point (`Text.SortByName`). That matches PyYAML's sort of plain `str` keys; keys of other types, and the YAML text itself, are not modelled.
- Sub-configurations are taken as present where sync/task.py dereferences them (`frappe.modified_field`, `db.modified_field`). Their absence would raise AttributeError, which is not modelled.
- The SQLite foreign key from log lines to runs is not enforced: `InsertLog` accepts any run id.
- Settings.Validate does not model pydantic's type coercion and type errors beyond the required table name and sections. Inputs are already typed.
- Settings.LegacyTask.LoadConfig treats an explicit `None` for `direction`, `process_all` or `create_new` like a missing key. Python's `.get` would keep the `None`.
- SqlText.DbRecordsByIdsSql states the statement's shape by construction. Its meaning is in `SqlText.ByIdsPlaceholders`.
- Text.Upper upper-cases ASCII letters only, while Python's `str.upper` also maps other letters. The two agree wherever the model uses it: `DbApi.Safe` upper-cases a name only after it matches an identifier pattern of api/database.py:143-144, which admits ASCII letters, digits and `_@#$` plus one final newline.
- `DbWrites.InsertFrappeRecordToDb` takes the table's ids as a parameter instead of running `MAX(id)` with the lock hint; None stands for that SELECT raising, which rolls back and yields None. `SqlText.NextIdSql` gives the text of that query. `ISNULL` and `WITH (TABLOCKX, HOLDLOCK)` are MSSQL syntax, so on Firebird the SELECT plausibly always raises; the model leaves that to the caller's choice of None.
