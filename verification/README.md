# OpenAI API logger — a Dafny model

This project models the sequential core of a small Python library that wraps
OpenAI chat-completion and embedding calls and records every completed call in
an SQLite file. Two variants of the library exist.

- `openai_api_logger.py` (module `Logger`): two log tables,
  `chat_completion_logs` and `embedding_logs`.
  - `chat_completion` and `embed_one` each log one row per completed remote call.
  - `embed` validates an optional `batch`, clamps it, and runs the texts slice by
    slice.
  - `dump_logs_to_jsonl` writes one `<table>.jsonl` per non-empty table.
- `openai_cc.py` (module `Legacy`): one `logs` table.
  - `chat_completion` logs every call there.
  - `dump_logs_to_jsonl` always writes one file, even when it has zero lines.

The modules:

- `Store` models the SQLite file as a catalogue.
  - Table names are kept in creation order, together with a map from name to
    table.
  - Each table has its columns after `id`, its rows `Row(id, fields)` in
    storage order, and its `sqlite_sequence` entry (`lastId`).
  - `CREATE TABLE IF NOT EXISTS`, `INSERT`, `SELECT *` and the catalogue query
    behind `list_tables` are pure functions on this value.
  - `INSERT` fails with an SQL error in four cases: the table is missing, a
    named column is missing, the value count is wrong, or AUTOINCREMENT has run
    out of ids at 2^63 − 1.
- `Remote` holds the `World`: the remote service and the clock, as total
  functions of a call ordinal. An `embed` run over n texts uses ordinals
  `call, call+1, …, call+n−1`. "One call per text, in order" is therefore
  visible in every result.
- `Executor` is the chat-completion path both variants share. It calls the
  service, reads the usage counters and the text, logs one row, and returns the
  tuple.
- `Batching` covers `embed`'s argument validation, the clamp, and the slicing
  into chunks.
- `Export` maps each fetched row to the ordered pairs `dict(zip(columns, row))`
  and holds the per-table export loop.
- `Logger` and `Legacy` are the two modules' public operations.

`embed` is the method `Logger.Embed`. Its nested loops (`Drive`, `RunChunk`)
are proved equal to `EmbedSpec`, a chunk-free reference that makes one
`embed_one` per text and stops at the first exception. The lemmas about
`EmbedSpec` then give the caller-visible facts: order, length, the usage sum,
the rows logged, the error cases, and that the step only decides whether the
progress bar appears.

An empty `texts` is not a special case in the source. With `batch` omitted the
step becomes `len(texts) == 0`. With a positive `batch` it is clamped to 0.
`range(0, 0, 0)` then raises `ValueError`. The model keeps this as an error
outcome (`Logger.EmbedRejects`) rather than excluding it by a precondition.

## Model

| member | source | states |
|---|---|---|
| Store.CreateTableIfNotExists | openai_api_logger.py:69-95 | the named table exists afterwards; an existing table is returned unchanged whatever its columns; a new one is empty with the given columns; no other table changes; the listing only grows at its end; store consistency is preserved when the id and the given column names are all distinct |
| Store.CreateIdempotent | openai_cc.py:36-53 | running the same CREATE TABLE IF NOT EXISTS twice gives the same store as running it once |
| Store.Insert | openai_api_logger.py:117-120 | the insert succeeds iff the table exists, has every named column, the value count matches and an id is left; every failure is an SQL error; on success exactly one row is appended to that table with the next AUTOINCREMENT id, each column holding its named value (NULL for unnamed ones); nothing else changes; consistency is preserved |
| Store.InsertIdFresh | openai_api_logger.py:71 | the new id exceeds every id already in the table, earlier rows stay as they were in the same positions, and ids still strictly increase in storage order |
| Store.PlaceInOrder | openai_api_logger.py:106-109 | an INSERT that names the table's columns in table order stores the values in that order |
| Store.SelectAfterInsert | openai_api_logger.py:199-200 | reading a table back right after a successful INSERT returns its column names, id first, and its earlier rows followed by the inserted row with the next id, each column holding its named value |
| Store.SelectFrom | openai_api_logger.py:199 | the statement with the name pasted in unquoted succeeds iff the name reads as a bare identifier (an identifier-start character, then identifier characters, and not a keyword in any letter case) and names a table; every failure is an SQL error; a bare name reads exactly that table |
| Store.SelectFromNeedsBareName | openai_api_logger.py:199 | names that SQLite lets a table have when quoted, `my-logs` (a syntax error at `-`) and `Order` (a reserved keyword), make the unquoted SELECT fail |
| Store.ListTables | openai_api_logger.py:46-53 | a name is listed iff it is in the catalogue and does not match `LIKE 'sqlite_%'`; when the catalogue lists each table once, of two listed names the one listed first was created first |
| Store.ListingKeepsOrder | openai_api_logger.py:46-53 | the catalogue query keeps creation order: for a catalogue without repeats, listed names appear in the order their tables were created |
| Store.ListingHidesSqlitePrefix | openai_api_logger.py:46 | because `_` is a LIKE wildcard and LIKE ignores ASCII case, a user table named `SQLite3data` is hidden from the listing too |
| Executor.ChatColumnsDistinct | openai_api_logger.py:70-82 | the ten chat-log column names are distinct and none is `id` |
| Executor.LogChat | openai_api_logger.py:101-111 | the chat-log insert succeeds iff the table accepts the ten columns, fails only with an SQL error, and otherwise appends exactly one row built from the ten given values |
| Executor.ChatCompletion | openai_api_logger.py:125-142 | a raising remote call propagates with the store untouched; a reply whose row the table refuses raises the store's SQL error with the store untouched; success iff the reply arrives and the table accepts the row; the answer's text, input and output tokens come from `choices[0].message.content`, `usage.prompt_tokens` and `usage.completion_tokens`, and time_taken from the clock; exactly one row holding the request and the returned answer is appended |
| Executor.ChatRowMatchesAnswer | openai_api_logger.py:133-142 | with the table as created, the appended row is, column by column, the timestamp, the messages as JSON, the request parameters and exactly the four returned values |
| Batching.Resolve | openai_api_logger.py:161-171 | `None` and any positive int are accepted and nothing else is; a non-int `batch` gives TypeError and an int ≤ 0 gives ValueError (each iff); the step is `min(batch, len(texts))`, or `len(texts)` for None; a bool counts as an int; the warning is printed iff `batch > len(texts)` |
| Batching.ClampMatchesWholeList | openai_api_logger.py:166-171 | an oversized `batch` resolves to the same step as `batch=len(texts)` and `None`, with the warning only for the oversized one |
| Batching.ChunksCover | openai_api_logger.py:175-179 | the slices for `i` in `range(start, len(texts), step)` concatenate back to `texts[start:]` |
| Batching.ChunkSizes | openai_api_logger.py:175-179 | every slice is non-empty with at most `step` texts, and every slice but the last has exactly `step` |
| Batching.ProgressIffSeveralChunks | openai_api_logger.py:176-177 | the progress wrapper is used (step ≠ len(texts)) iff there is more than one slice |
| Export.RowObject | openai_api_logger.py:212 | the row object pairs the k-th column name with the k-th cell, the id first and then the stored fields, and stops at whichever runs out first |
| Export.RowObjectFaithful | openai_api_logger.py:207-212 | an exported row object has the table's column names as keys in table order, none repeated, and the stored cells as values verbatim, id first |
| Export.NonEmpty | openai_api_logger.py:203-204 | a table is kept for export iff it is among the names and holds at least one row |
| Export.DumpTables | openai_api_logger.py:195-213 | the export raises iff some listed name is no table or does not read as a bare name, and only with an SQL error; every file written is for a listed table, there are no more files than listed names, and no file has zero lines |
| Export.DumpTablesComplete | openai_api_logger.py:195-213 | when every listed name is a table and reads as a bare name, the export never raises and writes, in listing order, exactly one file per non-empty table, holding its rows as lines in storage order |
| Export.DumpTablesStops | openai_api_logger.py:199-200 | the first listed name that is no table or does not read as a bare name ends the export with that SELECT's SQL error, keeping the files written for the names before it |
| Logger.EnsureSchema | openai_api_logger.py:67-98 | after the import-time statements both log tables exist; a log table that did not exist is created empty with the logged columns; existing tables keep their columns and rows; only the two log tables can be added, appended to the listing with `chat_completion_logs` before `embedding_logs`; consistency is preserved |
| Logger.EnsureSchemaIdempotent | openai_api_logger.py:67-98 | importing the module again leaves the store exactly as the first import did |
| Logger.EnsureSchemaOnEmpty | openai_api_logger.py:67-95 | on a fresh file the two tables are created empty with the logged columns, chat first |
| Logger.EnsureSchemaFresh | openai_api_logger.py:46-53 | on a fresh file the catalogue query lists exactly the two log tables |
| Logger.ChatCompletion | openai_api_logger.py:125-142 | the request carries the given timeout (60 by default); a raising remote call propagates unchanged with the store untouched; a refused row raises the store's SQL error; success iff the reply arrives and the table takes the row; on failure the store is unchanged; the returned tuple is the reply's text, prompt_tokens, completion_tokens and the measured time; the one appended row holds the request and that tuple |
| Logger.LogEmbedding | openai_api_logger.py:114-122 | the embedding-log insert succeeds iff the table accepts the five columns, fails only with an SQL error, and otherwise appends exactly one row |
| Logger.EmbedOne | openai_api_logger.py:145-156 | a raising remote call propagates and nothing is logged; a row the store refuses raises an SQL error and nothing is logged; a logged reply with an empty `data` raises IndexError afterwards, the store having changed; success iff the reply holds a vector and the row is accepted; the caller gets `data[0]`, paired with total_tokens exactly when `return_usage` is set |
| Logger.EmbedOneAppends | openai_api_logger.py:148-152 | whenever the reply arrives and the table takes the row, whether `embed_one` then returns or raises, exactly one `embedding_logs` row built from that call's reply and clock is appended and nothing else changes; otherwise the store is left as it was |
| Logger.EmbedOneRow | openai_api_logger.py:151-155 | with the table as created, the appended row stores the one-element list `[text]`, the model, and as `tokens` exactly the usage handed to the caller |
| Logger.RunFirstSticky | openai_api_logger.py:178-187 | once an exception has escaped the loops, no later text changes the outcome |
| Logger.EmbedFirstExplained | openai_api_logger.py:178-187 | after any prefix of the texts, the run holds the first vector of each handled text's reply, in order; the usages when asked; the texts sent, in order; the reason it stopped, if it did; and the store with exactly one logged row per embedded text, plus the failing text's row when its reply held no vector |
| Logger.EmbedRejects | openai_api_logger.py:161-175 | an invalid `batch` raises its TypeError/ValueError, and an empty `texts` raises the ValueError of `range` with step 0; nothing is sent and nothing is logged |
| Logger.EmbedValidated | openai_api_logger.py:173-191 | once `batch` is valid and `texts` is non-empty, the outcome, store and texts sent are those of the chunk-free reference, the warning is as resolved, and the progress bar is shown iff the step differs from `len(texts)` |
| Logger.EmbedSucceeds | openai_api_logger.py:178-191 | a successful `embed` returns `len(texts)` vectors, element k being `data[0]` of the reply to `texts[k]`; with `return_usage` it also returns the sum of the per-text total_tokens, and only then; every text was sent once, in order; one row per text was appended to `embedding_logs` |
| Logger.EmbedStopsAtFirstFailure | openai_api_logger.py:178-187 | a validated run that raises stopped at the first text whose reply raised (that exception escapes, no row for it), whose row the store refused (an SQL error, no row for it), or whose reply held no vector (IndexError, after its row was written); the texts up to it were sent in order and the rows for the texts before it remain |
| Logger.EmbedSucceedsIff | openai_api_logger.py:159-191 | `embed` returns normally iff `batch` is valid, `texts` is non-empty, every reply arrives holding a vector, the table has the embedding columns, and AUTOINCREMENT has an id for every text |
| Logger.EmbedBatchIrrelevant | openai_api_logger.py:175-187 | any two valid `batch` values give the same outcome, texts sent and store |
| Logger.EmbedClampsBatch | openai_api_logger.py:166-171 | an oversized `batch` behaves exactly like `batch=len(texts)`, except that it warns; `None` behaves exactly like `batch=len(texts)`; neither shows the progress bar |
| Logger.RunChunk | openai_api_logger.py:179-187 | one pass of the outer loop over `texts[i:i+step]` leaves the run where the reference is after those texts, or, if a text raised, where the reference ends |
| Logger.Drive | openai_api_logger.py:161-191 | the validation, range and nested loops compute exactly the chunk-free reference for any inner loop body |
| Logger.Embed | openai_api_logger.py:159-191 | `embed` with `embed_one` as the inner loop body equals its chunk-free reference |
| Logger.LogTablesBare | openai_api_logger.py:199 | both log table names read as bare names, so the export's unquoted SELECT can read them |
| Logger.DumpLogs | openai_api_logger.py:194-213 | the export raises iff some listed name is no table or does not read as a bare name, and then only with an SQL error; otherwise it writes exactly the listed non-empty tables, in listing order, each as its rows in storage order |
| Logger.DumpLogsComplete | openai_api_logger.py:194-213 | on a consistent store every listed name is a table, so the export raises iff a listed name does not read as a bare name; a table is exported iff it holds rows and its name is not hidden by `LIKE 'sqlite_%'` |
| Logger.DumpEmptyTables | openai_api_logger.py:203-204 | a store whose listed tables are all readable and empty exports no file and does not raise |
| Logger.DumpFreshWritesNothing | openai_api_logger.py:203-204 | right after the schema statements on a fresh file, the export writes no file at all |
| Legacy.EnsureSchema | openai_cc.py:36-53 | after import `logs` exists; an existing `logs` leaves the store unchanged; a new one is empty with the ten columns and is the only table added, at the end of the listing; consistency is preserved |
| Legacy.EnsureSchemaIdempotent | openai_cc.py:36-53 | importing the module again leaves the tables and their rows unchanged |
| Legacy.SharedStore | openai_cc.py:14-22 | both modules open the file `SQLITE_FILE` names: importing both on one store keeps `logs` as it was beside the two log tables, and on a consistent store the multi-table listing includes `logs` |
| Legacy.ChatCompletion | openai_cc.py:69-83 | the request carries no timeout; a raising remote call propagates and adds no row; a refused row raises the store's SQL error; success iff the reply arrives and `logs` takes the row; the returned tuple is the reply's text, prompt_tokens, completion_tokens and the measured time; exactly one row holding the request and that tuple is appended |
| Legacy.ChatCompletionAppends | openai_cc.py:56-66 | on a consistent store, earlier rows of `logs` are unchanged, the appended row holds the ten values in column order, its id exceeds every earlier id, and the store stays consistent |
| Legacy.DumpLogs | openai_cc.py:86-100 | the export succeeds iff `logs` exists, and fails only with an SQL error; otherwise it writes one line per row, even when that is zero lines |
| Legacy.DumpLogsLines | openai_cc.py:94-100 | each line's keys are the table's column names in order and its values the stored cells verbatim, the id first |
| Legacy.DumpFreshWritesEmptyFile | openai_cc.py:97-100 | unlike the multi-table export, a fresh file still gets an export with zero lines |

## Left out

- The OpenAI client is not modelled. The `World` functions stand in for it. Any exception it raises becomes an error result, including a chat reply without `choices[0]`, which is read before anything is logged. An embedding reply is its list of vectors, so an empty `data` is modelled.
- The call ordinal is the only source of nondeterminism. Two calls with the same ordinal and arguments get the same reply.
- SQLite connections, commits and `db_lock` are not modelled. The lock only serialises the statements, which the model runs one at a time.
- Storage errors other than the four INSERT failures are not modelled: I/O errors, a locked database, a corrupted file.
- `list_tables` returns `None` after an `sqlite3.Error`, which makes the export's loop raise `TypeError`. Its successful path returns before closing the connection. Neither is modelled: `Store.ListTables` always succeeds.
- Table and column names compare exactly. SQLite's case-insensitive name matching is not modelled.
- A CREATE TABLE with a repeated column name is not modelled: SQLite rejects it, and the model only proves consistency for distinct names. Every schema in the source uses distinct names (`Executor.ChatColumnsDistinct`, `Logger.EmbeddingColumnsDistinct`).
- An INSERT naming `id` or naming one column twice is not modelled. Every INSERT in the source names each of its columns once and never `id`.
- `json.dumps` is not modelled. Message lists and `[text]` stay structured `Json` values in a `JsonText` cell, and an export line stays its ordered (column, value) pairs.
- Floats (generation parameters, vectors, `time_taken`) are `real` values stored verbatim. IEEE rounding is not modelled.
- `time()`, `gmtime` and `strftime` come from `World.clock` as an opaque timestamp string and a duration.
- Integers are unbounded, except that AUTOINCREMENT stops at 2^63 − 1. Token counts beyond SQLite's 64-bit INTEGER range are not modelled.
- `print` and `tqdm` are not modelled. The warning and the progress bar are the flags `warned` and `progress`.
- `.env` loading and client construction are not modelled. The model name is a plain `string` parameter, so `MODEL=None` is not represented.
- `os.path.join` and the file writes are not modelled. A file is its table name and its lines.
- Both modules take the file name from `SQLITE_FILE`. The model passes the store explicitly, so the same `Db` value can go through both (`Legacy.SharedStore`). Whether the variable names one file or two is configuration and is not modelled.
- The commented-out `rename_logs_table` is not modelled.
- Store.SelectFrom: a name is readable only as a bare identifier that is not one of SQLite's 147 keywords. SQLite's fallback rule lets roughly 60 of those keywords serve as table names (`key`, `replace`, `temp`, `view`, `first`, `last`, `range`, `if`, `action` among them); the model counts them as an SQL error. Text that parses as something longer is not modelled either: `logs LIMIT 0` runs as that statement, and `my logs` reads table `my` under the alias `logs` when `my` exists. The model counts every such name as an SQL error, and its error message is a placeholder rather than SQLite's text; `Store.SelectFromNeedsBareName` uses only names that fail in SQLite too.
- Logger.DumpLogs: exports every listed table, including ones other programs created in the same file, but the model can only hold tables whose first column is an integer `id` (`Store.Header` puts `id` first), so a table such as `notes(body TEXT)`, exported as `{"body": ...}`, is not represented.
- Logger.DumpLogs: cells are NULL, integers, reals, text and JSON text; there is no BLOB. A BLOB cell makes `json.dumps` raise `TypeError` after the file was opened, so the export can also raise that, not only an SQL error; the model does not represent it.
- Export.DumpTables: the same two restrictions apply to the per-table loop: no table without a leading `id`, and no BLOB cell with its `TypeError`.
