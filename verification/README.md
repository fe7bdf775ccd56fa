# balanceD bookkeeper and column-name store, in Dafny

This project models two parts of balanceD, a personal-finance tool:

- **The Bookkeeper page** (`pages/bookkeeper.py`). It holds three pieces of session state: the active booking id, the staged table and the source file name.
  - `create_booking_callback` activates a booking.
  - `upload_csv` stages an uploaded table and adds an `"Excluded"` column set to False.
  - `save_transactions` marks the selected rows, writes the table to the ledger, creates the booking and deactivates it.
  - `insert_transactions_into_database` and `handle_date` pick the date column and the five role columns (amount, category, currency, type, flag). They then issue one `insert_transaction` per kept row.
  - `clear_current_accounting` drops the staged table.
- **The learned column-name store** (`column_names_db.py`). It has five SQLite tables, each holding a single UNIQUE text column.

Modules, one file each:

- `Wrappers` and `Seqs`: Option, Result, duplicate-freedom and sequence associativity.
- `Constants`: the header lists of `constants.py`.
- `Timestamps`: a pandas Timestamp and `strftime("%Y-%m-%d %H:%M:%S")`, written out together with its read-back.
- `Frame`: a DataFrame as a value, with columns and rows of cells.
- `Db`: the ledger operations the page imports.
- `Ingestion`: the pure specification of what the ingestion routine writes.
- `ColumnNamesDb`: the column-name store.
- `Bookkeeper`: the page as a class with the callbacks and their loops.

Each imperative routine is a method proved against a function of `Ingestion` or `ColumnNamesDb`. The properties are proved about those functions.

Python exceptions become values:

- `PreventUpdate` becomes `Prevented` in save_transactions, and `None` in create_booking_callback and upload_csv.
- `ValueError("No date column found")` becomes `NoDateColumn`.
- The `NameError` raised by reading a role variable that no header bound becomes `UnboundRole(role)`.
- `strftime` on a cell that is neither a timestamp nor NaT becomes `NotATimestamp`.

Three behaviours a reader might expect are absent from the code, and the model follows the code:

- In the code, `insert_transaction` neither reports success nor deduplicates. The ledger is therefore an append-only log of the keyword arguments of each call.
- The code checks only `value is not None` before inserting a column name. Empty strings are therefore stored.
- `save_transactions` writes the lower-case `"excluded"` column. The flag role reads the upper-case `"Excluded"` column that `upload_csv` added. This split is kept as written. `Ingestion.SelectionDoesNotReachLedger` proves what follows from it: the selection never changes what is inserted.

## Model

| member | source | states |
|---|---|---|
| Bookkeeper.Bookkeeper.constructor | pages/bookkeeper.py:13-17 | a new page has no staged table, no source and no active booking; its date parse turns a missing cell into NaT, as pd.to_datetime does |
| Bookkeeper.Bookkeeper.CreateBookingCallback | pages/bookkeeper.py:64-68 | with no click (None or 0) nothing changes and the update is prevented; otherwise the active booking becomes get_available_booking_id() and the upload is enabled (False, id); the staged table and source are untouched |
| Bookkeeper.Bookkeeper.UploadCsv | pages/bookkeeper.py:78-88 | without contents or without an active booking nothing changes; otherwise the staged table is the upload with "Excluded" False in every row, the preview is that table, and the source becomes the file name; the booking stays |
| Bookkeeper.Bookkeeper.SaveTransactions | pages/bookkeeper.py:113-129 | prevented exactly when not clicked, nothing is staged or no booking is active, and then nothing is written and no booking created; otherwise the ledger grows by exactly the records Ingest gives for pd.DataFrame(rows) with the selection marked; on an exception no booking is created and the booking stays active; saving no records always fails with NoDateColumn; on success exactly one booking is created, with the active id, the booking counter moves past it, the booking becomes inactive, and the count reported is the number of rows, not of inserts; the page invariant (every ledger row belongs to a created or the pending booking) is kept |
| Bookkeeper.Bookkeeper.MarkedFrame | pages/bookkeeper.py:117-121 | the frame saved is pd.DataFrame(rows) with MarkExcluded applied to the selection |
| Bookkeeper.EmptySaveFails | pages/bookkeeper.py:117-172 | a save of no records builds a frame without columns, so handle_date raises NoDateColumn and nothing is inserted |
| Bookkeeper.Bookkeeper.MarkSelectedRows | pages/bookkeeper.py:119-121 | the loop over the selected indices computes MarkExcluded of the selection |
| Bookkeeper.Bookkeeper.HandleDate | pages/bookkeeper.py:163-177 | fails with NoDateColumn exactly when no header is a date header; otherwise returns the first date header in column order and the table with that column parsed |
| Bookkeeper.Bookkeeper.ResolveRoleColumns | pages/bookkeeper.py:136-146 | the elif loop over the headers computes ResolveRoles |
| Bookkeeper.Bookkeeper.InsertTransactionsIntoDatabase | pages/bookkeeper.py:131-161 | the ledger grows by exactly Ingest(df).records and the exception raised is Ingest(df).failure; bookings are untouched |
| Bookkeeper.Bookkeeper.InsertRows | pages/bookkeeper.py:149-161 | the row loop appends exactly RunRows(rows).records to the ledger, in order, and stops with RunRows(rows).failure |
| Bookkeeper.Bookkeeper.ReadRow | pages/bookkeeper.py:150-161 | one pass of the row loop, reading cells in Python's evaluation order, equals RowStep |
| Bookkeeper.Bookkeeper.ClearCurrentAccounting | pages/bookkeeper.py:179-180 | the staged table is dropped and nothing else changes |
| Bookkeeper.AccountedAfterSave | pages/bookkeeper.py:123-128 | records saved under the pending booking id stay accounted for once that booking is created |
| Bookkeeper.SavedCountIsRowCount | pages/bookkeeper.py:129 | a one-row table whose date does not parse saves without error and inserts nothing, so the reported count len(df) is not the insert count |
| Db.Ledger.constructor | pages/bookkeeper.py:8 | an empty ledger with no bookings, whose first booking id is 1 |
| Db.Ledger.AvailableBookingId | pages/bookkeeper.py:8 | the available id is above every id already used by a booking |
| Db.Ledger.InsertTransaction | pages/bookkeeper.py:153-161 | one more ledger row with exactly the call's arguments; bookings untouched |
| Db.Ledger.CreateBooking | pages/bookkeeper.py:126 | records a booking with the available id and moves the counter past it; ids stay strictly increasing |
| Ingestion.RoleOf | pages/bookkeeper.py:136-146 | a header gets at most one role, and only a role whose header list contains it |
| Ingestion.RoleOfListed | constants.py:5-24 | a header listed for a role gets exactly that role, because the five lists are disjoint |
| Ingestion.ResolveBy | pages/bookkeeper.py:136-146 | the role variables after a header loop with no break: every bound role holds one of the headers |
| Ingestion.ResolveRoles | pages/bookkeeper.py:136-146 | every bound role holds one of the headers, and one whose header list names that role |
| Ingestion.ResolvedFromColumns | pages/bookkeeper.py:136-146 | every bound role holds a header that has that role |
| Ingestion.ResolvedIffSomeMatch | pages/bookkeeper.py:136-146 | a role is bound if and only if some header has it |
| Ingestion.ResolvedIsLastMatch | pages/bookkeeper.py:136-146 | a bound role holds the last header in column order that has it (no break) |
| Ingestion.FirstDateHeader | pages/bookkeeper.py:166-172 | none exactly when no header is a date header; otherwise a date header with no date header before it |
| Ingestion.FirstDateHeaderAppend | pages/bookkeeper.py:166-170 | appending a non-date header does not change the chosen date column |
| Ingestion.ParseDateColumn | pages/bookkeeper.py:175 | the date column holds the coerced parse of each cell (NaT on failure); every other cell and the row count are unchanged |
| Ingestion.RowStep | pages/bookkeeper.py:150-161 | a row is skipped exactly when its date is NaT or NaN or its type is excluded; an emitted row has all roles bound and a timestamp, and its record is MakeRecord; a stop is NotATimestamp exactly when the type is bound and the date is not a timestamp, and otherwise the NameError of the first unbound role read |
| Ingestion.MakeRecord | pages/bookkeeper.py:153-161 | the insert_transaction arguments: a 19-character date, the recipient from the category column, the staged source and the active booking |
| Ingestion.MakeRecordDate | pages/bookkeeper.py:154 | the record's date text reads back as the row's timestamp, to the second |
| Ingestion.MissingDateSkipped | pages/bookkeeper.py:151-152 | with a parse that turns a missing cell into NaT, a row whose date cell is missing is skipped and never kept |
| Ingestion.RunRows | pages/bookkeeper.py:149-161 | at most one record per row, each under the active booking id and the staged source |
| Ingestion.Ingest | pages/bookkeeper.py:131-161 | at most one record per row, each under the active booking id and the staged source |
| Ingestion.KeptRows | pages/bookkeeper.py:149-152 | a row is kept if and only if it is a row of the table whose date parsed and whose type is not excluded |
| Ingestion.KeptRowStep | pages/bookkeeper.py:150-161 | with all roles bound, a kept row yields its insert and any other row is skipped |
| Ingestion.RunRowsAllBound | pages/bookkeeper.py:149-161 | with all roles bound, the loop never fails and inserts one record per kept row, in row order |
| Ingestion.RunRowsUnbound | pages/bookkeeper.py:149-161 | with some role unbound, nothing is inserted; the loop fails if and only if some row reaches a read of an unbound role, and then with the NameError of the first such role read |
| Ingestion.IngestFailsWithoutInserting | pages/bookkeeper.py:132-161 | any failure comes before the first insert; NoDateColumn exactly when no date header exists; the strftime failure never happens after the coerced parse |
| Ingestion.IngestResolved | pages/bookkeeper.py:131-161 | with the date column and all roles resolved, the outcome is the records of the kept rows and no failure |
| Ingestion.RecordAt | pages/bookkeeper.py:153-161 | the k-th record is the insert of the k-th row |
| Ingestion.KeptRecordAt | pages/bookkeeper.py:153-161 | the k-th record belongs to the k-th kept row: its date is printed "%Y-%m-%d %H:%M:%S", its recipient is the category cell, its currency, amount and excluded are the currency, amount and flag cells, and it carries the staged source and active booking id |
| Ingestion.WithUploadFlag | pages/bookkeeper.py:86-87 | the staged table has an "Excluded" column, False in every row, and keeps every other cell |
| Ingestion.SelectionNeedsRows | pages/bookkeeper.py:119-121 | a selection of row indices is empty when the table has no rows |
| Ingestion.MarkExcluded | pages/bookkeeper.py:117-121 | "excluded" is True exactly at the selected rows; other rows keep their value or get a missing cell when the column is new; every other cell is unchanged; an empty selection changes nothing |
| Ingestion.RunRowsLooksAtRoles | pages/bookkeeper.py:149-161 | two tables that agree on the date and role columns insert the same records and fail alike |
| Ingestion.SelectionColumnIsInert | pages/bookkeeper.py:121 | "excluded" is neither a date header nor a role header |
| Ingestion.ColumnChoiceIgnoresSelection | pages/bookkeeper.py:121 | adding the "excluded" header changes neither the date column nor the roles |
| Ingestion.MarkExcludedKeepsColumnChoice | pages/bookkeeper.py:119-121 | marking rows keeps the date column and the roles |
| Ingestion.MarkedRowsAgree | pages/bookkeeper.py:119-121 | after the date parse, the marked and unmarked tables agree on every column the loop reads |
| Ingestion.SelectionDoesNotReachLedger | pages/bookkeeper.py:119-123 | the selected rows do not change what is inserted or whether it fails, because the flag role reads "Excluded" |
| Ingestion.FirstUnbound | pages/bookkeeper.py:151-160 | the first role the loop reads while it is unbound is indeed unbound |
| Timestamps.Strftime | pages/bookkeeper.py:154 | "%Y-%m-%d %H:%M:%S" gives 19 characters with the separators at their fixed places |
| Frame.FromRecords | pages/bookkeeper.py:117 | pd.DataFrame(records) keeps the rows; with no records it has no columns |
| Frame.AssignColumn | pages/bookkeeper.py:87 | df[name] = v: every row holds v under name, an existing column keeps its place and a new one goes last, every other cell is unchanged |
| Frame.SetCell | pages/bookkeeper.py:121 | df.at[i, name] = v: row i holds v; a new column is NaN in the other rows; every other cell is unchanged |
| Timestamps.ReadBackStrftime | pages/bookkeeper.py:154 | the printed date reads back as the timestamp's fields up to the second |
| Timestamps.StrftimeInjective | pages/bookkeeper.py:154 | two timestamps print alike exactly when they agree up to the second |
| ColumnNamesDb.TableNamed | column_names_db.py:14-50 | only amount, currency, recipient, date and type name a table, each its own |
| ColumnNamesDb.TableNamedNameText | column_names_db.py:14-50 | each table's SQL name refers back to it |
| ColumnNamesDb.InsertOrIgnore | column_names_db.py:60-71 | afterwards the column holds its old values and the new one and nothing else; an existing value changes nothing; duplicate-freedom is kept |
| ColumnNamesDb.CreatedIfMissing | column_names_db.py:13-19 | creating a table that exists changes nothing; a new table is empty; other tables are untouched |
| ColumnNamesDb.Initialized | column_names_db.py:8-57 | after the five CREATE TABLE IF NOT EXISTS every table exists, existing tables keep their rows and the UNIQUE constraint still holds |
| ColumnNamesDb.InitializedTable | column_names_db.py:13-57 | after initialisation each table exists, keeps its rows if it existed and is empty otherwise |
| ColumnNamesDb.InitializedKeepsContents | column_names_db.py:13-57 | after initialisation all five tables exist with their old contents, and the UNIQUE constraint still holds |
| ColumnNamesDb.InitializedIdempotent | column_names_db.py:8-57 | initialising twice is initialising once |
| ColumnNamesDb.Lookup | column_names_db.py:66-76 | a name resolves exactly when it is a valid table name and that table exists |
| ColumnNamesDb.Names | column_names_db.py:74-78 | the contents of the named table, without repeats, or an error for a missing table |
| ColumnNamesDb.Inserted | column_names_db.py:60-71 | None changes nothing; otherwise fails exactly for a missing table; only the named table changes, it only grows, the value is then among its names, a value already present changes nothing, and the UNIQUE constraint holds |
| ColumnNamesDb.InsertedTwice | column_names_db.py:65-68 | inserting the same value twice is inserting it once |
| ColumnNamesDb.InsertedAll | column_names_db.py:60-71 | a run of inserts fails exactly when there is a value and the table does not exist; otherwise the set of tables is unchanged |
| ColumnNamesDb.InsertedAllLearnsEach | column_names_db.py:60-71 | a run of inserts into an existing table succeeds, the table then holds exactly its old and the new values without repeats, old ones first in order, and the other tables are untouched |
| ColumnNamesDb.ColumnNames.constructor | column_names_db.py:6 | a fresh database file has no tables |
| ColumnNamesDb.ColumnNames.CreateTableIfNotExists | column_names_db.py:13-20 | the store becomes CreatedIfMissing of the old store |
| ColumnNamesDb.ColumnNames.InitColumnsDb | column_names_db.py:8-57 | the store becomes Initialized of the old store and stays duplicate-free |
| ColumnNamesDb.ColumnNames.InsertColumnName | column_names_db.py:60-71 | succeeds exactly when Inserted does, and the store becomes its result; on failure nothing changes |
| ColumnNamesDb.ColumnNames.FetchNames | column_names_db.py:74-78 | the names of the table, without repeats, or the missing-table error |

## Left out

- The Dash layout, callback wiring, DataTable rendering and the booking label text (pages/bookkeeper.py:19-55, 59-62, 90-101). The callbacks are methods, and PreventUpdate is a result value.
- The `print` of each header in handle_date (pages/bookkeeper.py:167). It is output only.
- base64 decoding, UTF-8 decoding and `pd.read_csv` (pages/bookkeeper.py:82-84). The upload is given as an already parsed table, or None.
- `pd.to_datetime(errors="coerce")`. It is a cell-by-cell parse function that the page holds, with None for a value that does not parse. A missing cell always gives None. pandas 2 infers one format for the whole column from its first non-null value, so one cell's result can depend on the other cells. A per-cell parse does not capture this. The year range of `Timestamps.InRange` approximates pandas' Timestamp bounds.
- `pd.DataFrame(rows)` on records whose keys differ. Tables are required to be well formed, with every row holding exactly the table's columns, as the DataTable's `data` does. The empty list of records is modelled: it gives a frame with no columns.
- Bookkeeper.Bookkeeper.MarkSelectedRows: `df.at[i, "excluded"] = True` with an index outside the table would enlarge it. Selections are required to lie within the table, as Dash supplies indices into `data`.
- Bookkeeper.Bookkeeper.SaveTransactions: returns `Saved(count, bookingId)` where the code returns the tuple `(True, f"Saved … into booking …")` to its single output. The message text is not modelled.
- db.py as SQLite. Its `insert_transaction` has a different signature from the keyword call the page makes. It also defines neither `create_booking` nor `get_available_booking_id`. The three are modelled as the page calls them: an append-only log and a booking counter. The first booking id is 1, an assumption about the missing allocator.
- Ingestion.Records: states only that there is one record per row. The per-record content is stated by Ingestion.RecordAt and Ingestion.KeptRecordAt.
- Transaction deduplication, balances, currency exchange, the stock module and the dashboard. No shown code implements them for this core.
- column_names_db.py's SQL text: the AUTOINCREMENT ids, and the f-string table name, which could inject SQL. SQLite resolves table names case-insensitively and accepts quoted or bracketed names, so `"AMOUNT"` or `'"amount"'` reach the amount table in SQLite. The model accepts only the five lower-case names and treats every other spelling as a missing table. For fetch_names SQLite runs the query with such a spelling, and the call then fails at the column lookup `df[tablename]`, so the outcome is an error either way. `fetch_names` returns rows in insertion order, taken as SQLite's rowid order.
- ColumnNamesDb.Inserted: rejects a differently spelt table name such as `"AMOUNT"` as a missing table, whereas SQLite would insert into the amount table. Case folding and quoting of SQL identifiers are not modelled.
- Connections, commits and `finally: conn.close()` in column_names_db.py. Each call is one atomic update of the store.
