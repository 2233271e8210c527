/** The single-table logger: every chat completion goes to one `logs` table, and the
    export writes that table to one JSON-lines file. */
module Legacy {
  import opened Results
  import opened Values
  import opened Seqs
  import opened Store
  import opened Remote
  import opened Export
  import Executor
  import Logger

  const LOG_TABLE: string := "logs"

  // ---------------------------------------------------------------------------
  // Schema

  /** The statement run when the module is imported: CREATE TABLE IF NOT EXISTS logs. */
  function EnsureSchema(db: Db): (r: Db)
    ensures LOG_TABLE in r.tables
    // an existing `logs` table is kept as it is, rows and all
    ensures LOG_TABLE in db.tables ==> r == db
    ensures LOG_TABLE !in db.tables ==> r.tables[LOG_TABLE] == Table(Executor.CHAT_COLUMNS, [], 0)
    ensures forall n :: n in db.tables ==> n in r.tables && r.tables[n] == db.tables[n]
    // only `logs` can be added, at the end of the listing
    ensures r.tables.Keys == db.tables.Keys + {LOG_TABLE}
    ensures r.order == db.order + (if LOG_TABLE in db.tables then [] else [LOG_TABLE])
    ensures Valid(db) ==> Valid(r)
  {
    Executor.ChatColumnsDistinct();
    CreateTableIfNotExists(db, LOG_TABLE, Executor.CHAT_COLUMNS)
  }

  /** Importing the module again changes nothing. */
  lemma EnsureSchemaIdempotent(db: Db)
    ensures EnsureSchema(EnsureSchema(db)) == EnsureSchema(db)
  {
    assert LOG_TABLE in EnsureSchema(db).tables;
  }

  // ---------------------------------------------------------------------------
  // Chat completion

  /** `chat_completion`: the shared request path with no timeout, logging to `logs`. */
  function ChatCompletion(w: World, call: nat, db: Db, messages: seq<Json>, maxTokens: int,
                          temperature: real, topP: real, frequencyPenalty: real,
                          model: string): (r: (Result<Executor.Answer>, Db))
    ensures var req := ChatRequest(model, messages, maxTokens, temperature, topP, frequencyPenalty, None);
            && (w.chat(call, req).Err? ==> r == (Err(w.chat(call, req).error), db))
            && (r.0.Ok? <==> w.chat(call, req).Ok? && Accepts(db, LOG_TABLE, Executor.CHAT_COLUMNS))
            && (w.chat(call, req).Ok? && !Accepts(db, LOG_TABLE, Executor.CHAT_COLUMNS) ==> r.0.Err? && r.0.error.SqlError?)
            && (r.0.Err? ==> r.1 == db)
            && (r.0.Ok? ==> (
                  && r.0.value == Executor.Answer(w.chat(call, req).value.content, w.chat(call, req).value.promptTokens,
                                                  w.chat(call, req).value.completionTokens, w.clock(call).timeTaken)
                  && r.1 == WithRows(db, LOG_TABLE,
                       [Row(NextId(db, LOG_TABLE),
                            Place(db.tables[LOG_TABLE].columns, Executor.CHAT_COLUMNS,
                                  Executor.ChatFields(w.clock(call).timestamp, req, r.0.value)))])))
  {
    Executor.ChatCompletion(w, call, db, LOG_TABLE,
      ChatRequest(model, messages, maxTokens, temperature, topP, frequencyPenalty, None))
  }

  /** `logs` is append-only under AUTOINCREMENT: a successful call keeps every stored
      row where it was and appends one whose id exceeds every earlier id; the ten
      columns hold the request and exactly the tuple handed back to the caller. */
  lemma ChatCompletionAppends(w: World, call: nat, db: Db, messages: seq<Json>, maxTokens: int,
                              temperature: real, topP: real, frequencyPenalty: real, model: string)
    requires Valid(db)
    requires LOG_TABLE in db.tables && db.tables[LOG_TABLE].columns == Executor.CHAT_COLUMNS
    requires db.tables[LOG_TABLE].lastId < MAX_ROWID
    requires w.chat(call, ChatRequest(model, messages, maxTokens, temperature, topP, frequencyPenalty, None)).Ok?
    ensures var (r, db2) := ChatCompletion(w, call, db, messages, maxTokens, temperature, topP, frequencyPenalty, model);
            var req := ChatRequest(model, messages, maxTokens, temperature, topP, frequencyPenalty, None);
            && r.Ok?
            && Valid(db2)
            && db2.tables[LOG_TABLE].rows == db.tables[LOG_TABLE].rows
                 + [Row(NextId(db, LOG_TABLE), Executor.ChatFields(w.clock(call).timestamp, req, r.value))]
            && forall k :: 0 <= k < |db.tables[LOG_TABLE].rows| ==> db.tables[LOG_TABLE].rows[k].id < NextId(db, LOG_TABLE)
  {
    var req := ChatRequest(model, messages, maxTokens, temperature, topP, frequencyPenalty, None);
    Executor.ChatRowMatchesAnswer(w, call, db, LOG_TABLE, req);
    var fields := Executor.ChatFields(w.clock(call).timestamp, req,
                    ChatCompletion(w, call, db, messages, maxTokens, temperature, topP, frequencyPenalty, model).0.value);
    Executor.ChatColumnsDistinct();
    InsertIdFresh(db, LOG_TABLE, Executor.CHAT_COLUMNS, fields);
  }

  // ---------------------------------------------------------------------------
  // Sharing the file

  /** Both modules open the file that `SQLITE_FILE` names, so one store can serve
      both: importing this module and then the multi-table one keeps `logs` as it
      was, adds the two log tables beside it, and on a consistent store the
      multi-table listing (and so its export) includes `logs`. */
  lemma SharedStore(db: Db)
    ensures var both := Logger.EnsureSchema(EnsureSchema(db));
            && LOG_TABLE in both.tables && Logger.CHAT_TABLE in both.tables && Logger.EMBEDDING_TABLE in both.tables
            && both.tables[LOG_TABLE] == EnsureSchema(db).tables[LOG_TABLE]
            && (Valid(db) ==> LOG_TABLE in ListTables(both))
  {
    var r := EnsureSchema(db);
    if Valid(db) {
      assert LOG_TABLE in r.order;
      ListedAfterSchema(r);
    }
  }

  /** A consistent store that lists `logs` still lists it after the multi-table
      schema statements. */
  lemma ListedAfterSchema(r: Db)
    requires LOG_TABLE in r.order
    ensures LOG_TABLE in ListTables(Logger.EnsureSchema(r))
  {
    var both := Logger.EnsureSchema(r);
    assert both.order[..|r.order|] == r.order;
    assert LOG_TABLE in both.order;
  }

  // ---------------------------------------------------------------------------
  // Export

  /** `dump_logs_to_jsonl`: `SELECT * FROM logs`, then the file is written whatever the
      row count, one line per row in storage order. */
  function DumpLogs(db: Db): (r: Result<seq<Line>>)
    ensures r.Ok? <==> LOG_TABLE in db.tables
    ensures r.Err? ==> r.error.SqlError?
    ensures r.Ok? ==> |r.value| == |db.tables[LOG_TABLE].rows|
  {
    match SelectAll(db, LOG_TABLE)
    case Err(e) => Err(e)
    case Ok((columns, rows)) => Ok(Lines(columns, rows))
  }

  /** Each line of the export is the stored row keyed by the table's columns, the id
      first, and the values are the stored cells verbatim. */
  lemma DumpLogsLines(db: Db, k: nat)
    requires Valid(db) && LOG_TABLE in db.tables
    requires k < |db.tables[LOG_TABLE].rows|
    ensures var t := db.tables[LOG_TABLE];
            && Keys(DumpLogs(db).value[k]) == Header(t)
            && Vals(DumpLogs(db).value[k]) == Cells(t.rows[k])
            && DumpLogs(db).value[k][0] == (ID_COLUMN, Integer(t.rows[k].id))
  {
    RowObjectFaithful(db.tables[LOG_TABLE], k);
  }

  /** Unlike the multi-table export, a fresh file still gets written: it is empty. */
  lemma DumpFreshWritesEmptyFile()
    ensures DumpLogs(EnsureSchema(Db([], map[]))) == Ok([])
  {
  }
}
