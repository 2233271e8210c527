/** The multi-table logger: a chat-completion table and an embedding table in one
    SQLite file, single-text embedding calls, the batched `embed` driver, and an
    export of every table. */
module Logger {
  import opened Results
  import opened Values
  import opened Seqs
  import opened Store
  import opened Remote
  import opened Batching
  import opened Export
  import Executor

  const CHAT_TABLE: string := "chat_completion_logs"
  const EMBEDDING_TABLE: string := "embedding_logs"
  /** Columns of the embedding table after `id`, in table order; the INSERT names them
      in the same order. */
  const EMBEDDING_COLUMNS: seq<string> := ["timestamp", "input_texts", "model", "tokens", "time_taken"]
  /** Default of `chat_completion`'s `timeout` argument. */
  const DEFAULT_TIMEOUT: int := 60

  lemma EmbeddingColumnsDistinct()
    ensures Distinct(EMBEDDING_COLUMNS)
    ensures ID_COLUMN !in EMBEDDING_COLUMNS
    ensures Distinct([ID_COLUMN] + EMBEDDING_COLUMNS)
  {
    DistinctCons(ID_COLUMN, EMBEDDING_COLUMNS);
  }

  // ---------------------------------------------------------------------------
  // Schema

  /** The statements run when the module is imported: both CREATE TABLE IF NOT EXISTS. */
  function EnsureSchema(db: Db): (r: Db)
    ensures CHAT_TABLE in r.tables && EMBEDDING_TABLE in r.tables
    // a log table that did not exist is created empty, with the logged columns
    ensures CHAT_TABLE !in db.tables ==> r.tables[CHAT_TABLE] == Table(Executor.CHAT_COLUMNS, [], 0)
    ensures EMBEDDING_TABLE !in db.tables ==> r.tables[EMBEDDING_TABLE] == Table(EMBEDDING_COLUMNS, [], 0)
    // a table that already existed keeps its columns and rows, whatever they are
    ensures forall n :: n in db.tables ==> n in r.tables && r.tables[n] == db.tables[n]
    // only the two log tables can be added, at the end of the listing, chat first
    ensures r.tables.Keys == db.tables.Keys + {CHAT_TABLE, EMBEDDING_TABLE}
    ensures r.order == db.order + (if CHAT_TABLE in db.tables then [] else [CHAT_TABLE])
                                + (if EMBEDDING_TABLE in db.tables then [] else [EMBEDDING_TABLE])
    ensures Valid(db) ==> Valid(r)
  {
    SchemaKeepsValid(db);
    var db1 := CreateTableIfNotExists(db, CHAT_TABLE, Executor.CHAT_COLUMNS);
    assert CHAT_TABLE[0] != EMBEDDING_TABLE[0];
    CreateTableIfNotExists(db1, EMBEDDING_TABLE, EMBEDDING_COLUMNS)
  }

  /** Both log schemas have distinct column names, so creating them keeps the store
      consistent. */
  lemma SchemaKeepsValid(db: Db)
    ensures Valid(db) ==>
      Valid(CreateTableIfNotExists(CreateTableIfNotExists(db, CHAT_TABLE, Executor.CHAT_COLUMNS),
                                   EMBEDDING_TABLE, EMBEDDING_COLUMNS))
  {
    Executor.ChatColumnsDistinct();
    EmbeddingColumnsDistinct();
  }

  /** Importing the module a second time leaves the store exactly as the first did. */
  lemma EnsureSchemaIdempotent(db: Db)
    ensures EnsureSchema(EnsureSchema(db)) == EnsureSchema(db)
  {
    var r := EnsureSchema(db);
    assert CHAT_TABLE in r.tables && EMBEDDING_TABLE in r.tables;
  }

  /** Neither log table's name matches `LIKE 'sqlite_%'`. */
  lemma LogTablesListed()
    ensures !LikeSqlitePattern(CHAT_TABLE) && !LikeSqlitePattern(EMBEDDING_TABLE)
  {
    assert AsciiLower(CHAT_TABLE[0]) != "sqlite"[0];
    assert AsciiLower(EMBEDDING_TABLE[0]) != "sqlite"[0];
  }

  /** On a fresh file the schema statements create the two tables, chat first. */
  lemma EnsureSchemaOnEmpty()
    ensures EnsureSchema(Db([], map[]))
         == Db([CHAT_TABLE, EMBEDDING_TABLE],
               map[CHAT_TABLE := Table(Executor.CHAT_COLUMNS, [], 0),
                   EMBEDDING_TABLE := Table(EMBEDDING_COLUMNS, [], 0)])
  {
    ChatCreatedOnEmpty();
    EmbeddingCreatedAfterChat(CreateTableIfNotExists(Db([], map[]), CHAT_TABLE, Executor.CHAT_COLUMNS));
  }

  /** The second schema statement then adds the embedding table after it. */
  lemma EmbeddingCreatedAfterChat(db1: Db)
    requires db1 == Db([CHAT_TABLE], map[CHAT_TABLE := Table(Executor.CHAT_COLUMNS, [], 0)])
    ensures CreateTableIfNotExists(db1, EMBEDDING_TABLE, EMBEDDING_COLUMNS)
         == Db([CHAT_TABLE, EMBEDDING_TABLE],
               map[CHAT_TABLE := Table(Executor.CHAT_COLUMNS, [], 0),
                   EMBEDDING_TABLE := Table(EMBEDDING_COLUMNS, [], 0)])
  {
    assert EMBEDDING_TABLE !in db1.tables by {
      assert CHAT_TABLE[0] != EMBEDDING_TABLE[0];
    }
  }

  /** The first schema statement on a fresh file creates the chat table alone. */
  lemma ChatCreatedOnEmpty()
    ensures CreateTableIfNotExists(Db([], map[]), CHAT_TABLE, Executor.CHAT_COLUMNS)
         == Db([CHAT_TABLE], map[CHAT_TABLE := Table(Executor.CHAT_COLUMNS, [], 0)])
  {
  }

  /** On a fresh file the catalogue query then lists exactly the two log tables. */
  lemma EnsureSchemaFresh()
    ensures ListTables(EnsureSchema(Db([], map[]))) == [CHAT_TABLE, EMBEDDING_TABLE]
  {
    EnsureSchemaOnEmpty();
    LogTablesListed();
    assert Unhidden([CHAT_TABLE]) == [CHAT_TABLE];
  }

  // ---------------------------------------------------------------------------
  // Chat completion

  /** `chat_completion` of this module: the shared request path, sending `timeout`
      (60 unless the caller passes another) and logging to `chat_completion_logs`. */
  function ChatCompletion(w: World, call: nat, db: Db, messages: seq<Json>, maxTokens: int,
                          temperature: real, topP: real, frequencyPenalty: real,
                          model: string, timeout: int := DEFAULT_TIMEOUT): (r: (Result<Executor.Answer>, Db))
    ensures var req := ChatRequest(model, messages, maxTokens, temperature, topP, frequencyPenalty, Some(timeout));
            && (w.chat(call, req).Err? ==> r == (Err(w.chat(call, req).error), db))
            && (r.0.Ok? <==> w.chat(call, req).Ok? && Accepts(db, CHAT_TABLE, Executor.CHAT_COLUMNS))
            && (w.chat(call, req).Ok? && !Accepts(db, CHAT_TABLE, Executor.CHAT_COLUMNS) ==> r.0.Err? && r.0.error.SqlError?)
            && (r.0.Err? ==> r.1 == db)
            && (r.0.Ok? ==> (
                  && r.0.value == Executor.Answer(w.chat(call, req).value.content, w.chat(call, req).value.promptTokens,
                                                  w.chat(call, req).value.completionTokens, w.clock(call).timeTaken)
                  && r.1 == WithRows(db, CHAT_TABLE,
                       [Row(NextId(db, CHAT_TABLE),
                            Place(db.tables[CHAT_TABLE].columns, Executor.CHAT_COLUMNS,
                                  Executor.ChatFields(w.clock(call).timestamp, req, r.0.value)))])))
  {
    Executor.ChatCompletion(w, call, db, CHAT_TABLE,
      ChatRequest(model, messages, maxTokens, temperature, topP, frequencyPenalty, Some(timeout)))
  }

  // ---------------------------------------------------------------------------
  // One embedding

  /** `embed_one`'s result: the vector, or the pair (vector, usage) when
      `return_usage` is set. */
  datatype Embedding = Plain(vector: Vector) | WithUsage(vector: Vector, usage: int)

  /** The remote reply for embedding one text: the input list is `[text]`. */
  function Reply(w: World, call: nat, model: string, text: string): Result<EmbedReply> {
    w.embeddings(call, model, [text])
  }

  /** `usage.total_tokens` of that reply (0 stands in when the call raised). */
  function Tokens(w: World, call: nat, model: string, text: string): int {
    match Reply(w, call, model, text)
    case Ok(reply) => reply.totalTokens
    case Err(_) => 0
  }

  /** The five values one embedding row holds, in `EMBEDDING_COLUMNS` order;
      `input_texts` is the JSON list `[text]`. */
  function EmbeddingFields(timestamp: string, text: string, model: string, tokens: int, timeTaken: real): (fields: seq<Value>)
    ensures |fields| == |EMBEDDING_COLUMNS|
  {
    [Text(timestamp), JsonText(JArray([JString(text)])), Text(model), Integer(tokens), Real(timeTaken)]
  }

  /** The row `embed_one` logs for the `call`-th remote call on `text`, with id `id`,
      in a table whose columns are `columns`. */
  function LoggedRow(w: World, call: nat, id: int, columns: seq<string>, text: string, model: string): Row {
    var timing := w.clock(call);
    Row(id, Place(columns, EMBEDDING_COLUMNS,
                  EmbeddingFields(timing.timestamp, text, model, Tokens(w, call, model, text), timing.timeTaken)))
  }

  /** `log_embedding`: one INSERT naming every embedding column. */
  function LogEmbedding(db: Db, fields: seq<Value>): (r: Result<Db>)
    requires |fields| == |EMBEDDING_COLUMNS|
    ensures r.Ok? <==> Accepts(db, EMBEDDING_TABLE, EMBEDDING_COLUMNS)
    ensures r.Err? ==> r.error.SqlError?
    ensures r.Ok? ==> r.value == WithRows(db, EMBEDDING_TABLE,
      [Row(NextId(db, EMBEDDING_TABLE), Place(db.tables[EMBEDDING_TABLE].columns, EMBEDDING_COLUMNS, fields))])
    ensures r.Ok? && Valid(db) ==> Valid(r.value)
  {
    Insert(db, EMBEDDING_TABLE, EMBEDDING_COLUMNS, fields)
  }

  /** The message of the `IndexError` that `r.data[0]` raises on an empty list. */
  const LIST_INDEX_OUT_OF_RANGE: string := "list index out of range"

  /** The reply to that call came back holding at least one vector. */
  predicate Embeds(w: World, call: nat, model: string, text: string) {
    Reply(w, call, model, text).Ok? && |Reply(w, call, model, text).value.data| > 0
  }

  /** The reply to that call came back and the store takes its row: `embed_one` logs. */
  predicate Logs(w: World, call: nat, db: Db, model: string, text: string) {
    Reply(w, call, model, text).Ok? && Accepts(db, EMBEDDING_TABLE, EMBEDDING_COLUMNS)
  }

  /** `embed_one`: one remote call on `[text]`, then one logged row, then `data[0]`
      of the reply (with its usage when asked). The row is written before `data` is
      read, so a reply with an empty `data` is logged and then raises. */
  function EmbedOne(w: World, call: nat, db: Db, text: string, model: string, returnUsage: bool): (r: (Result<Embedding>, Db))
    // a remote failure propagates unchanged, and nothing is logged
    ensures Reply(w, call, model, text).Err? ==> r == (Err(Reply(w, call, model, text).error), db)
    // a reply whose row the store refuses raises the store's error, and nothing is logged
    ensures Reply(w, call, model, text).Ok? && !Accepts(db, EMBEDDING_TABLE, EMBEDDING_COLUMNS) ==>
              r.0.Err? && r.0.error.SqlError? && r.1 == db
    // a logged reply with an empty `data` raises afterwards, the row staying written
    ensures Logs(w, call, db, model, text) && !Embeds(w, call, model, text) ==>
              r.0 == Err(IndexError(LIST_INDEX_OUT_OF_RANGE)) && r.1 != db
    ensures r.0.Ok? <==> Embeds(w, call, model, text) && Accepts(db, EMBEDDING_TABLE, EMBEDDING_COLUMNS)
    // the caller gets the reply's first vector, and its total_tokens exactly when asked
    ensures r.0.Ok? ==>
      var reply := Reply(w, call, model, text).value;
      r.0.value == (if returnUsage then WithUsage(reply.data[0], reply.totalTokens) else Plain(reply.data[0]))
  {
    match Reply(w, call, model, text)
    case Err(e) => (Err(e), db)
    case Ok(reply) =>
      var timing := w.clock(call);
      match LogEmbedding(db, EmbeddingFields(timing.timestamp, text, model, reply.totalTokens, timing.timeTaken))
      case Err(e) => (Err(e), db)
      case Ok(db2) =>
        assert |db2.tables[EMBEDDING_TABLE].rows| == |db.tables[EMBEDDING_TABLE].rows| + 1;
        if |reply.data| == 0 then (Err(IndexError(LIST_INDEX_OUT_OF_RANGE)), db2)
        else (Ok(if returnUsage then WithUsage(reply.data[0], reply.totalTokens) else Plain(reply.data[0])), db2)
  }

  /** Whenever `embed_one` logs, whether it then returns or raises, it appends exactly
      one row to `embedding_logs`, the one `LoggedRow` describes, and changes nothing
      else; when it does not log, the store is left as it was. */
  lemma EmbedOneAppends(w: World, call: nat, db: Db, text: string, model: string, returnUsage: bool)
    ensures Logs(w, call, db, model, text) ==>
              && EMBEDDING_TABLE in db.tables
              && EmbedOne(w, call, db, text, model, returnUsage).1 == WithRows(db, EMBEDDING_TABLE,
                   [LoggedRow(w, call, NextId(db, EMBEDDING_TABLE), db.tables[EMBEDDING_TABLE].columns, text, model)])
    ensures !Logs(w, call, db, model, text) ==> EmbedOne(w, call, db, text, model, returnUsage).1 == db
  {
  }

  /** With the table as the module creates it, the row `embed_one` appends records the
      one-element list `[text]` as `input_texts`, the model, and as `tokens` the usage
      the caller is handed. */
  lemma EmbedOneRow(w: World, call: nat, db: Db, text: string, model: string)
    requires EMBEDDING_TABLE in db.tables
    requires db.tables[EMBEDDING_TABLE].columns == EMBEDDING_COLUMNS
    requires EmbedOne(w, call, db, text, model, true).0.Ok?
    ensures var (r, db2) := EmbedOne(w, call, db, text, model, true);
            db2.tables[EMBEDDING_TABLE].rows == db.tables[EMBEDDING_TABLE].rows
              + [Row(NextId(db, EMBEDDING_TABLE),
                     [Text(w.clock(call).timestamp), JsonText(JArray([JString(text)])), Text(model),
                      Integer(r.value.usage), Real(w.clock(call).timeTaken)])]
  {
    var out := EmbedOne(w, call, db, text, model, true);
    var row := LoggedRow(w, call, NextId(db, EMBEDDING_TABLE), EMBEDDING_COLUMNS, text, model);
    EmbedOneAppends(w, call, db, text, model, true);
    EmbeddingColumnsDistinct();
    var timing := w.clock(call);
    PlaceInOrder(EMBEDDING_COLUMNS, EmbeddingFields(timing.timestamp, text, model, Tokens(w, call, model, text), timing.timeTaken));
  }

  // ---------------------------------------------------------------------------
  // The batched driver

  /** State of an `embed` run after some texts: the vectors and usages collected, the
      store, the texts sent to the remote service so far, and the exception that ended
      the run, if one did. */
  datatype Progress = Progress(vectors: seq<Vector>, usages: seq<int>, db: Db, sent: seq<string>, failure: Option<Exc>)

  /** One `embed_one` call on the next text, and what the loop body does with its result. */
  function Advance(w: World, call: nat, p: Progress, text: string, model: string, returnUsage: bool): Progress {
    var (r, db2) := EmbedOne(w, call, p.db, text, model, returnUsage);
    match r
    case Err(e) => p.(db := db2, sent := p.sent + [text], failure := Some(e))
    case Ok(Plain(v)) => p.(vectors := p.vectors + [v], db := db2, sent := p.sent + [text])
    case Ok(WithUsage(v, u)) => p.(vectors := p.vectors + [v], usages := p.usages + [u], db := db2, sent := p.sent + [text])
  }

  /** A loop body: what handling `text` as the `call`-th remote call does to a run. */
  type Step = (nat, Progress, string) -> Progress

  /** The loop body of `embed`. */
  function Stepper(w: World, model: string, returnUsage: bool): Step {
    (call: nat, p: Progress, text: string) => Advance(w, call, p, text, model, returnUsage)
  }

  /** A run before any text. */
  function Start(db: Db): Progress {
    Progress([], [], db, [], None)
  }

  /** Running `next` over the first `n` texts one at a time, with no chunking at all,
      the k-th as call `call + k`, and stopping at the first exception. */
  function RunFirst(next: Step, call: nat, start: Progress, texts: seq<string>, n: nat): Progress
    requires n <= |texts|
    decreases n
  {
    if n == 0 then start
    else
      var p := RunFirst(next, call, start, texts, n - 1);
      if p.failure.Some? then p
      else next(call + n - 1, p, texts[n - 1])
  }

  /** The reference the driver is measured against: one `embed_one` per text for the
      first `n` texts, in order, the k-th using call ordinal `call + k`, stopping at
      the first exception. */
  function EmbedFirst(w: World, call: nat, db: Db, texts: seq<string>, n: nat, model: string, returnUsage: bool): Progress
    requires n <= |texts|
  {
    RunFirst(Stepper(w, model, returnUsage), call, Start(db), texts, n)
  }

  /** The usages of the first `m` calls, each computed on its own. */
  function UsageList(w: World, call: nat, model: string, texts: seq<string>, m: nat): (us: seq<int>)
    requires m <= |texts|
    ensures |us| == m
  {
    seq(m, k requires 0 <= k < m => Tokens(w, call + k, model, texts[k]))
  }

  /** The rows the first `m` calls log, ids counting up from `firstId`. */
  function LoggedRows(w: World, call: nat, firstId: int, columns: seq<string>, texts: seq<string>, m: nat, model: string): (rows: seq<Row>)
    requires m <= |texts|
    ensures |rows| == m
  {
    seq(m, k requires 0 <= k < m => LoggedRow(w, call + k, firstId + k, columns, texts[k], model))
  }

  /** `db` after the first `m` calls each logged their row. */
  function LoggedStore(w: World, call: nat, db: Db, texts: seq<string>, model: string, m: nat): Db
    requires EMBEDDING_TABLE in db.tables
    requires m <= |texts|
  {
    WithRows(db, EMBEDDING_TABLE,
      LoggedRows(w, call, NextId(db, EMBEDDING_TABLE), db.tables[EMBEDDING_TABLE].columns, texts, m, model))
  }

  /** What a run over the first `n` texts leaves behind: `m` texts embedded
      (m = |p.vectors|), and the texts sent being exactly the first m, plus the one
      that failed if any. */
  predicate Shape(texts: seq<string>, n: nat, p: Progress) {
    var m := |p.vectors|;
    && n <= |texts|
    && m <= n
    && |p.sent| == m + (if p.failure.Some? then 1 else 0)
    && |p.sent| <= n
    && p.sent == texts[..|p.sent|]
    && (p.failure.None? ==> m == n)
  }

  /** The vectors and usages collected are those of the first m replies, in order. */
  predicate Collected(w: World, call: nat, texts: seq<string>, model: string, returnUsage: bool, p: Progress)
    requires |p.vectors| <= |texts|
  {
    var m := |p.vectors|;
    && (forall k :: 0 <= k < m ==>
          Embeds(w, call + k, model, texts[k]) && Reply(w, call + k, model, texts[k]).value.data[0] == p.vectors[k])
    && p.usages == (if returnUsage then UsageList(w, call, model, texts, m) else [])
  }

  /** Why a failed run stopped at text m: its reply raised and the run carries that
      exception, or the reply came back and the store refused the row, or the row was
      logged and the reply's `data` was empty. */
  predicate Stopped(w: World, call: nat, texts: seq<string>, model: string, p: Progress) {
    var m := |p.vectors|;
    p.failure.Some? ==>
      && m < |texts|
      && (|| (Reply(w, call + m, model, texts[m]).Err? && p.failure.value == Reply(w, call + m, model, texts[m]).error)
          || (Reply(w, call + m, model, texts[m]).Ok? && !Accepts(p.db, EMBEDDING_TABLE, EMBEDDING_COLUMNS)
              && p.failure.value.SqlError?)
          || (Reply(w, call + m, model, texts[m]).Ok? && |Reply(w, call + m, model, texts[m]).value.data| == 0
              && p.failure.value == IndexError(LIST_INDEX_OUT_OF_RANGE)))
  }

  /** The run raised at text m after that text's row was written. */
  predicate RaisedAfterLog(w: World, call: nat, texts: seq<string>, model: string, p: Progress) {
    var m := |p.vectors|;
    && p.failure.Some? && m < |texts|
    && Reply(w, call + m, model, texts[m]).Ok?
    && p.failure.value == IndexError(LIST_INDEX_OUT_OF_RANGE)
  }

  /** How many rows the run has logged: one per vector, plus the failed text's row
      when it was written before the run raised. */
  function RowCount(w: World, call: nat, texts: seq<string>, model: string, p: Progress): nat {
    |p.vectors| + (if RaisedAfterLog(w, call, texts, model, p) then 1 else 0)
  }

  /** Every row logged so far was accepted: the table has the embedding columns and
      AUTOINCREMENT had ids left for all of them. */
  predicate Room(db: Db, m: nat)
    requires EMBEDDING_TABLE in db.tables
  {
    m > 0 ==>
      && (forall c :: c in EMBEDDING_COLUMNS ==> c in db.tables[EMBEDDING_TABLE].columns)
      && db.tables[EMBEDDING_TABLE].lastId + m <= MAX_ROWID
  }

  /** The store holds exactly the logged rows more, and nothing else changed. */
  predicate Logged(w: World, call: nat, db: Db, texts: seq<string>, model: string, p: Progress)
    requires EMBEDDING_TABLE in db.tables
    requires |p.vectors| <= |texts|
  {
    p.db == LoggedStore(w, call, db, texts, model, RowCount(w, call, texts, model, p))
  }

  predicate Explains(w: World, call: nat, db: Db, texts: seq<string>, n: nat, model: string, returnUsage: bool, p: Progress)
    requires EMBEDDING_TABLE in db.tables
  {
    && Shape(texts, n, p)
    && Collected(w, call, texts, model, returnUsage, p)
    && Stopped(w, call, texts, model, p)
    && Logged(w, call, db, texts, model, p)
    && Room(db, RowCount(w, call, texts, model, p))
  }

  /** A successful `embed_one` on text `n` keeps the run explained. */
  lemma ExplainsStepOk(w: World, call: nat, db: Db, texts: seq<string>, n: nat, model: string, returnUsage: bool, p0: Progress)
    requires EMBEDDING_TABLE in db.tables
    requires n < |texts|
    requires p0.failure.None?
    requires Explains(w, call, db, texts, n, model, returnUsage, p0)
    requires EmbedOne(w, call + n, p0.db, texts[n], model, returnUsage).0.Ok?
    ensures Explains(w, call, db, texts, n + 1, model, returnUsage, Advance(w, call + n, p0, texts[n], model, returnUsage))
  {
    var p := Advance(w, call + n, p0, texts[n], model, returnUsage);
    var reply := Reply(w, call + n, model, texts[n]).value;
    assert p.vectors == p0.vectors + [reply.data[0]];
    assert p.sent == p0.sent + [texts[n]];
    assert texts[..n + 1] == texts[..n] + [texts[n]];
    assert Shape(texts, n + 1, p);
    assert p.usages == (if returnUsage then p0.usages + [reply.totalTokens] else []);
    assert UsageList(w, call, model, texts, n + 1) == UsageList(w, call, model, texts, n) + [reply.totalTokens];
    assert Collected(w, call, texts, model, returnUsage, p);
    assert RowCount(w, call, texts, model, p0) == n && RowCount(w, call, texts, model, p) == n + 1;
    LoggedStep(w, call, db, texts, n, model, returnUsage, p0);
    RoomStep(db, LoggedRows(w, call, NextId(db, EMBEDDING_TABLE), db.tables[EMBEDDING_TABLE].columns, texts, n, model));
  }

  /** A row accepted after the rows already logged leaves room for one more. */
  lemma RoomStep(db: Db, rows: seq<Row>)
    requires EMBEDDING_TABLE in db.tables
    requires Room(db, |rows|)
    requires Accepts(WithRows(db, EMBEDDING_TABLE, rows), EMBEDDING_TABLE, EMBEDDING_COLUMNS)
    ensures Room(db, |rows| + 1)
  {
  }

  /** Logging text `n`'s row after the first n rows gives the first n + 1 rows. */
  lemma LoggedStep(w: World, call: nat, db: Db, texts: seq<string>, n: nat, model: string, returnUsage: bool, p0: Progress)
    requires EMBEDDING_TABLE in db.tables
    requires n < |texts|
    requires p0.db == LoggedStore(w, call, db, texts, model, n)
    requires Logs(w, call + n, p0.db, model, texts[n])
    ensures Advance(w, call + n, p0, texts[n], model, returnUsage).db == LoggedStore(w, call, db, texts, model, n + 1)
  {
    var p := Advance(w, call + n, p0, texts[n], model, returnUsage);
    var out := EmbedOne(w, call + n, p0.db, texts[n], model, returnUsage);
    assert p.db == out.1;
    var cols := db.tables[EMBEDDING_TABLE].columns;
    var first := NextId(db, EMBEDDING_TABLE);
    var prior := LoggedRows(w, call, first, cols, texts, n, model);
    var row := LoggedRow(w, call + n, NextId(p0.db, EMBEDDING_TABLE), p0.db.tables[EMBEDDING_TABLE].columns, texts[n], model);
    EmbedOneAppends(w, call + n, p0.db, texts[n], model, returnUsage);
    assert row == LoggedRow(w, call + n, first + n, cols, texts[n], model);
    WithRowsThenOne(db, EMBEDDING_TABLE, prior, row);
    assert LoggedRows(w, call, first, cols, texts, n + 1, model) == prior + [row];
  }

  /** An `embed_one` on text `n` that raises without logging ends the run explained,
      with no new row. */
  lemma ExplainsStepErr(w: World, call: nat, db: Db, texts: seq<string>, n: nat, model: string, returnUsage: bool, p0: Progress)
    requires EMBEDDING_TABLE in db.tables
    requires n < |texts|
    requires p0.failure.None?
    requires Explains(w, call, db, texts, n, model, returnUsage, p0)
    requires !Logs(w, call + n, p0.db, model, texts[n])
    ensures Explains(w, call, db, texts, n + 1, model, returnUsage, Advance(w, call + n, p0, texts[n], model, returnUsage))
  {
    var p := Advance(w, call + n, p0, texts[n], model, returnUsage);
    EmbedOneAppends(w, call + n, p0.db, texts[n], model, returnUsage);
    assert p == p0.(sent := p0.sent + [texts[n]], failure := p.failure);
    assert p.failure.value != IndexError(LIST_INDEX_OUT_OF_RANGE) || Reply(w, call + n, model, texts[n]).Err?;
    assert RowCount(w, call, texts, model, p) == n;
    assert texts[..n + 1] == texts[..n] + [texts[n]];
    assert Shape(texts, n + 1, p);
    assert Collected(w, call, texts, model, returnUsage, p);
    assert Stopped(w, call, texts, model, p);
    assert Logged(w, call, db, texts, model, p);
  }

  /** An `embed_one` on text `n` that logs its row and then finds `data` empty ends the
      run explained, with that row written. */
  lemma ExplainsStepEmpty(w: World, call: nat, db: Db, texts: seq<string>, n: nat, model: string, returnUsage: bool, p0: Progress)
    requires EMBEDDING_TABLE in db.tables
    requires n < |texts|
    requires p0.failure.None?
    requires Explains(w, call, db, texts, n, model, returnUsage, p0)
    requires Logs(w, call + n, p0.db, model, texts[n]) && !Embeds(w, call + n, model, texts[n])
    ensures Explains(w, call, db, texts, n + 1, model, returnUsage, Advance(w, call + n, p0, texts[n], model, returnUsage))
  {
    var p := Advance(w, call + n, p0, texts[n], model, returnUsage);
    assert p.failure == Some(IndexError(LIST_INDEX_OUT_OF_RANGE));
    assert p.vectors == p0.vectors && p.usages == p0.usages;
    assert p.sent == p0.sent + [texts[n]];
    assert RowCount(w, call, texts, model, p0) == n && RowCount(w, call, texts, model, p) == n + 1;
    assert texts[..n + 1] == texts[..n] + [texts[n]];
    assert Shape(texts, n + 1, p);
    assert Collected(w, call, texts, model, returnUsage, p);
    assert Stopped(w, call, texts, model, p);
    LoggedStep(w, call, db, texts, n, model, returnUsage, p0);
    RoomStep(db, LoggedRows(w, call, NextId(db, EMBEDDING_TABLE), db.tables[EMBEDDING_TABLE].columns, texts, n, model));
  }

  /** `inv` survives handling text `k` from state `p`: by the step `next` when the
      run has not failed, by doing nothing when it has. */
  predicate Keeps(next: Step, call: nat, texts: seq<string>, inv: (nat, Progress) -> bool, k: nat, p: Progress) {
    k < |texts| && inv(k, p) ==>
      inv(k + 1, if p.failure.Some? then p else next(call + k, p, texts[k]))
  }

  /** Induction over a run: a property of (texts handled, state) that holds at the
      start and that every step keeps holds after any number of texts. */
  lemma {:induction false} RunFirstInvariant(next: Step, call: nat, start: Progress, texts: seq<string>, n: nat,
                                             inv: (nat, Progress) -> bool)
    requires n <= |texts|
    requires inv(0, start)
    requires forall k: nat, p: Progress :: Keeps(next, call, texts, inv, k, p)
    ensures inv(n, RunFirst(next, call, start, texts, n))
    decreases n
  {
    if n > 0 {
      RunFirstInvariant(next, call, start, texts, n - 1, inv);
      assert Keeps(next, call, texts, inv, n - 1, RunFirst(next, call, start, texts, n - 1));
    }
  }

  /** The reference run is explained by its inputs, whatever the replies and the store. */
  lemma EmbedFirstExplained(w: World, call: nat, db: Db, texts: seq<string>, n: nat, model: string, returnUsage: bool)
    requires EMBEDDING_TABLE in db.tables
    requires n <= |texts|
    ensures Explains(w, call, db, texts, n, model, returnUsage, EmbedFirst(w, call, db, texts, n, model, returnUsage))
  {
    var inv := (k: nat, p: Progress) => Explains(w, call, db, texts, k, model, returnUsage, p);
    var next := Stepper(w, model, returnUsage);
    assert inv(0, Start(db)) by {
      WithNoRows(db, EMBEDDING_TABLE);
      assert LoggedRows(w, call, NextId(db, EMBEDDING_TABLE), db.tables[EMBEDDING_TABLE].columns, texts, 0, model) == [];
    }
    forall k: nat, p: Progress
      ensures Keeps(next, call, texts, inv, k, p)
    {
      if k >= |texts| || !inv(k, p) || p.failure.Some? {
      } else if EmbedOne(w, call + k, p.db, texts[k], model, returnUsage).0.Ok? {
        ExplainsStepOk(w, call, db, texts, k, model, returnUsage, p);
      } else if Logs(w, call + k, p.db, model, texts[k]) {
        ExplainsStepEmpty(w, call, db, texts, k, model, returnUsage, p);
      } else {
        ExplainsStepErr(w, call, db, texts, k, model, returnUsage, p);
      }
    }
    RunFirstInvariant(next, call, Start(db), texts, n, inv);
  }

  /** Once a run has failed within the first `m` texts, the texts after change nothing. */
  lemma {:induction false} RunFirstSticky(next: Step, call: nat, start: Progress, texts: seq<string>, m: nat, n: nat)
    requires m <= n <= |texts|
    requires RunFirst(next, call, start, texts, m).failure.Some?
    ensures RunFirst(next, call, start, texts, n) == RunFirst(next, call, start, texts, m)
    decreases n
  {
    if m < n {
      RunFirstSticky(next, call, start, texts, m, n - 1);
    }
  }

  /** What `embed` returns: the list of vectors, or the pair (list, summed usage). */
  datatype Embedded = Vectors(vectors: seq<Vector>) | VectorsAndUsage(vectors: seq<Vector>, usage: int)

  /** An `embed` call seen from outside: the value or exception, the store afterwards,
      the texts the remote service received (in order), whether the oversize warning
      was printed, and whether the progress bar was shown. */
  datatype EmbedRun = EmbedRun(outcome: Result<Embedded>, db: Db, sent: seq<string>, warned: bool, progress: bool)

  function Finish(p: Progress, returnUsage: bool): Result<Embedded> {
    if p.failure.Some? then Err(p.failure.value)
    else if returnUsage then Ok(VectorsAndUsage(p.vectors, Sum(p.usages)))
    else Ok(Vectors(p.vectors))
  }

  /** `embed` as a function of its inputs and its loop body: validate `batch`, build
      the range (which raises on a zero step), then run the texts. The chunking
      changes nothing but the progress bar, so the run itself is the chunk-free
      reference. */
  function DriveSpec(next: Step, call: nat, db: Db, texts: seq<string>, batch: PyArg, returnUsage: bool): EmbedRun {
    match Resolve(batch, |texts|)
    case Err(e) => EmbedRun(Err(e), db, [], false, false)
    case Ok(plan) =>
      if plan.step == 0 then EmbedRun(Err(ValueError(RANGE_STEP_ZERO)), db, [], plan.warned, false)
      else
        var p := RunFirst(next, call, Start(db), texts, |texts|);
        EmbedRun(Finish(p, returnUsage), p.db, p.sent, plan.warned, plan.step != |texts|)
  }

  /** `embed` as a function of its inputs. */
  function EmbedSpec(w: World, call: nat, db: Db, texts: seq<string>, model: string, batch: PyArg, returnUsage: bool): EmbedRun {
    DriveSpec(Stepper(w, model, returnUsage), call, db, texts, batch, returnUsage)
  }

  /** The errors `embed` raises before any remote call: a `batch` that is not an int,
      or not positive, and an empty `texts` (the step becomes 0 and `range` refuses it,
      whatever `batch` was, as long as it passed validation). Nothing is sent, nothing
      is logged, and no progress bar is shown. */
  lemma EmbedRejects(w: World, call: nat, db: Db, texts: seq<string>, model: string, batch: PyArg, returnUsage: bool)
    requires Resolve(batch, |texts|).Err? || |texts| == 0
    ensures var run := EmbedSpec(w, call, db, texts, model, batch, returnUsage);
            && run.db == db && run.sent == [] && !run.progress
            && run.outcome == (if Resolve(batch, |texts|).Err? then Err(Resolve(batch, |texts|).error)
                               else Err(ValueError(RANGE_STEP_ZERO)))
  {
  }

  /** The outcome of a run that passed validation, read off the chunk-free reference. */
  lemma EmbedValidated(w: World, call: nat, db: Db, texts: seq<string>, model: string, batch: PyArg, returnUsage: bool)
    requires EMBEDDING_TABLE in db.tables
    requires Resolve(batch, |texts|).Ok? && |texts| > 0
    ensures var p := EmbedFirst(w, call, db, texts, |texts|, model, returnUsage);
            && EmbedSpec(w, call, db, texts, model, batch, returnUsage)
               == EmbedRun(Finish(p, returnUsage), p.db, p.sent, Resolve(batch, |texts|).value.warned,
                           Resolve(batch, |texts|).value.step != |texts|)
            && Explains(w, call, db, texts, |texts|, model, returnUsage, p)
  {
    EmbedFirstExplained(w, call, db, texts, |texts|, model, returnUsage);
  }

  /** A successful `embed` returns one vector per text, in the order of `texts`, each
      the reply to that text's own call; with `return_usage` the usage is the sum of
      the replies' total_tokens. Every text was sent once, in order, and exactly one
      row per text was appended to `embedding_logs`, in order, with consecutive ids. */
  lemma EmbedSucceeds(w: World, call: nat, db: Db, texts: seq<string>, model: string, batch: PyArg, returnUsage: bool)
    requires EMBEDDING_TABLE in db.tables
    requires EmbedSpec(w, call, db, texts, model, batch, returnUsage).outcome.Ok?
    ensures var run := EmbedSpec(w, call, db, texts, model, batch, returnUsage);
            && |run.outcome.value.vectors| == |texts|
            && (forall k :: 0 <= k < |texts| ==>
                  && Embeds(w, call + k, model, texts[k])
                  && run.outcome.value.vectors[k] == Reply(w, call + k, model, texts[k]).value.data[0])
            && (run.outcome.value.VectorsAndUsage? <==> returnUsage)
            && (returnUsage ==> run.outcome.value.usage == Sum(UsageList(w, call, model, texts, |texts|)))
            && run.sent == texts
            && run.db == LoggedStore(w, call, db, texts, model, |texts|)
  {
    EmbedValidated(w, call, db, texts, model, batch, returnUsage);
  }

  /** A run that passed validation and then raised stopped at the first text whose
      reply raised, whose row the store refused, or whose reply held no vector: the
      texts up to it were sent, in order, the rows of the texts before it stay logged,
      and in the last case so does the failing text's own row. */
  lemma EmbedStopsAtFirstFailure(w: World, call: nat, db: Db, texts: seq<string>, model: string, batch: PyArg, returnUsage: bool)
    requires EMBEDDING_TABLE in db.tables
    requires Resolve(batch, |texts|).Ok? && |texts| > 0
    requires EmbedSpec(w, call, db, texts, model, batch, returnUsage).outcome.Err?
    ensures var run := EmbedSpec(w, call, db, texts, model, batch, returnUsage);
            && 0 < |run.sent| <= |texts|
            && run.sent == texts[..|run.sent|]
            && var m := |run.sent| - 1;
            && var reply := Reply(w, call + m, model, texts[m]);
            && (forall k :: 0 <= k < m ==> Embeds(w, call + k, model, texts[k]))
            && (|| (reply.Err? && run.outcome.error == reply.error
                    && run.db == LoggedStore(w, call, db, texts, model, m))
                || (reply.Ok? && !Accepts(run.db, EMBEDDING_TABLE, EMBEDDING_COLUMNS) && run.outcome.error.SqlError?
                    && run.db == LoggedStore(w, call, db, texts, model, m))
                || (reply.Ok? && |reply.value.data| == 0
                    && Accepts(LoggedStore(w, call, db, texts, model, m), EMBEDDING_TABLE, EMBEDDING_COLUMNS)
                    && run.outcome.error == IndexError(LIST_INDEX_OUT_OF_RANGE)
                    && run.db == LoggedStore(w, call, db, texts, model, m + 1)))
  {
    EmbedValidated(w, call, db, texts, model, batch, returnUsage);
    var p := EmbedFirst(w, call, db, texts, |texts|, model, returnUsage);
    var m := |p.vectors|;
    if RaisedAfterLog(w, call, texts, model, p) {
      assert RowCount(w, call, texts, model, p) == m + 1;
    } else {
      assert RowCount(w, call, texts, model, p) == m;
    }
  }

  /** `embed` returns normally exactly when `batch` is valid, `texts` is not empty,
      every reply comes back, and the store takes every row: the table has the
      embedding columns and AUTOINCREMENT has an id left for each text. */
  lemma EmbedSucceedsIff(w: World, call: nat, db: Db, texts: seq<string>, model: string, batch: PyArg, returnUsage: bool)
    requires EMBEDDING_TABLE in db.tables
    ensures EmbedSpec(w, call, db, texts, model, batch, returnUsage).outcome.Ok? <==>
            && Resolve(batch, |texts|).Ok? && |texts| > 0
            && (forall k :: 0 <= k < |texts| ==> Embeds(w, call + k, model, texts[k]))
            && (forall c :: c in EMBEDDING_COLUMNS ==> c in db.tables[EMBEDDING_TABLE].columns)
            && db.tables[EMBEDDING_TABLE].lastId + |texts| <= MAX_ROWID
  {
    if Resolve(batch, |texts|).Ok? && |texts| > 0 {
      EmbedValidated(w, call, db, texts, model, batch, returnUsage);
      var p := EmbedFirst(w, call, db, texts, |texts|, model, returnUsage);
      if p.failure.Some? {
        var m := |p.vectors|;
        var c := RowCount(w, call, texts, model, p);
        var rows := LoggedRows(w, call, NextId(db, EMBEDDING_TABLE), db.tables[EMBEDDING_TABLE].columns, texts, c, model);
        assert p.db.tables[EMBEDDING_TABLE] == db.tables[EMBEDDING_TABLE].(
          rows := db.tables[EMBEDDING_TABLE].rows + rows, lastId := db.tables[EMBEDDING_TABLE].lastId + c);
      }
    }
  }

  /** The step only decides whether the progress bar is shown: any two valid `batch`
      values give the same outcome, the same texts sent and the same store. */
  lemma EmbedBatchIrrelevant(w: World, call: nat, db: Db, texts: seq<string>, model: string,
                             batch1: PyArg, batch2: PyArg, returnUsage: bool)
    requires Resolve(batch1, |texts|).Ok? && Resolve(batch2, |texts|).Ok? && |texts| > 0
    ensures var r1 := EmbedSpec(w, call, db, texts, model, batch1, returnUsage);
            var r2 := EmbedSpec(w, call, db, texts, model, batch2, returnUsage);
            r1.outcome == r2.outcome && r1.sent == r2.sent && r1.db == r2.db
  {
  }

  /** A `batch` larger than `len(texts)` warns and then runs as one chunk, exactly like
      `batch=len(texts)` or no `batch` at all. */
  lemma EmbedClampsBatch(w: World, call: nat, db: Db, texts: seq<string>, model: string, k: int, returnUsage: bool)
    requires k > |texts| > 0
    ensures EmbedSpec(w, call, db, texts, model, PyInt(k), returnUsage)
         == EmbedSpec(w, call, db, texts, model, PyInt(|texts|), returnUsage).(warned := true)
    ensures EmbedSpec(w, call, db, texts, model, PyNone, returnUsage)
         == EmbedSpec(w, call, db, texts, model, PyInt(|texts|), returnUsage)
    ensures !EmbedSpec(w, call, db, texts, model, PyInt(k), returnUsage).progress
  {
    ClampMatchesWholeList(k, |texts|);
  }

  // ---------------------------------------------------------------------------
  // Export

  /** Neither log table's name is a keyword or needs quoting. */
  lemma LogTablesBare()
    ensures BareName(CHAT_TABLE) && BareName(EMBEDDING_TABLE)
  {
    assert KeywordsOfLength(|CHAT_TABLE|) == {} && KeywordsOfLength(|EMBEDDING_TABLE|) == {};
  }

  /** `dump_logs_to_jsonl`: `SELECT * FROM` each listed table, one `<table>.jsonl` per
      table that holds rows. It raises exactly when a listed name is no table or does
      not read as one; otherwise it writes the listed non-empty tables, in listing
      order, each as its rows in storage order. */
  function DumpLogs(db: Db): (r: Dump)
    ensures r.failure.Some? ==> r.failure.value.SqlError?
    ensures r.failure.None? <==> forall n :: n in ListTables(db) ==> n in db.tables && BareName(n)
    ensures r.failure.None? ==> r.files == FilesFor(db, NonEmpty(db, ListTables(db)))
  {
    var names := ListTables(db);
    if forall n :: n in names ==> n in db.tables && BareName(n) then
      DumpTablesComplete(db, names);
      DumpTables(db, names)
    else DumpTables(db, names)
  }

  /** On a consistent store every listed name is a table, so the export raises only
      for a name that does not read as one; a table gets a file iff it holds rows and
      its name is not hidden by `LIKE 'sqlite_%'`. */
  lemma DumpLogsComplete(db: Db)
    requires Valid(db)
    ensures DumpLogs(db).failure.None? <==> forall n :: n in ListTables(db) ==> BareName(n)
    ensures forall n :: n in NonEmpty(db, ListTables(db)) <==>
              n in db.tables && !LikeSqlitePattern(n) && |db.tables[n].rows| > 0
  {
  }

  /** A store whose listed tables are all empty and all read as tables exports
      nothing and does not raise. */
  lemma DumpEmptyTables(db: Db)
    requires forall n :: n in ListTables(db) ==> n in db.tables && BareName(n) && |db.tables[n].rows| == 0
    ensures DumpLogs(db) == Dump([], None)
  {
    NonEmptyNone(db, ListTables(db));
    assert FilesFor(db, []) == [];
  }

  /** Right after the schema statements on a fresh file both log tables are empty, so
      the export writes no file at all. */
  lemma DumpFreshWritesNothing()
    ensures DumpLogs(EnsureSchema(Db([], map[]))) == Dump([], None)
  {
    FreshLogsEmpty();
    DumpEmptyLogs(EnsureSchema(Db([], map[])));
  }

  /** A store listing just the two log tables, both empty, exports nothing. */
  lemma DumpEmptyLogs(db: Db)
    requires ListTables(db) == [CHAT_TABLE, EMBEDDING_TABLE]
    requires CHAT_TABLE in db.tables && EMBEDDING_TABLE in db.tables
    requires |db.tables[CHAT_TABLE].rows| == 0 && |db.tables[EMBEDDING_TABLE].rows| == 0
    ensures DumpLogs(db) == Dump([], None)
  {
    LogTablesBare();
    forall n | n in ListTables(db)
      ensures n in db.tables && BareName(n) && |db.tables[n].rows| == 0
    {
      assert n == CHAT_TABLE || n == EMBEDDING_TABLE;
    }
    DumpEmptyTables(db);
  }

  /** On a fresh file the listing holds the two log tables, both empty. */
  lemma FreshLogsEmpty()
    ensures var r := EnsureSchema(Db([], map[]));
            && ListTables(r) == [CHAT_TABLE, EMBEDDING_TABLE]
            && CHAT_TABLE in r.tables && EMBEDDING_TABLE in r.tables
            && |r.tables[CHAT_TABLE].rows| == 0 && |r.tables[EMBEDDING_TABLE].rows| == 0
  {
    EnsureSchemaOnEmpty();
    EnsureSchemaFresh();
  }

  /** One pass of `embed`'s outer loop: the slice `texts[i:i + step]`, and the inner
      loop body `next` on each of its texts in turn, stopping at the first exception.
      Whether it stops or not, it leaves the run exactly where the chunk-free reference
      is after the same texts. */
  method RunChunk(next: Step, call: nat, start: Progress, texts: seq<string>, i: nat, step: nat, p0: Progress)
    returns (p: Progress)
    requires i < |texts| && 0 < step
    requires p0.failure.None? && p0 == RunFirst(next, call, start, texts, i)
    ensures p.failure.None? ==> p == RunFirst(next, call, start, texts, Min(i + step, |texts|))
    ensures p.failure.Some? ==> p == RunFirst(next, call, start, texts, |texts|)
  {
    var batchTexts := Slice(texts, i, step);
    p := p0;
    var t := 0;
    while t < |batchTexts|
      invariant 0 <= t <= |batchTexts|
      invariant p.failure.None?
      invariant p == RunFirst(next, call, start, texts, i + t)
    {
      p := next(call + i + t, p, batchTexts[t]);
      if p.failure.Some? {
        RunFirstSticky(next, call, start, texts, i + t + 1, |texts|);
        return;
      }
      t := t + 1;
    }
  }

  /** The body of `embed` with its inner loop body `next`: validate `batch`, then for
      each `i` in `range(0, len(texts), step)` run one chunk, returning as soon as one
      raises. The postcondition says the nested loops compute exactly the chunk-free
      reference, so the step only decides whether the progress bar is shown. */
  method Drive(next: Step, call: nat, db: Db, texts: seq<string>, batch: PyArg, returnUsage: bool)
    returns (run: EmbedRun)
    ensures run == DriveSpec(next, call, db, texts, batch, returnUsage)
  {
    var resolved := Resolve(batch, |texts|);
    if resolved.Err? {
      return EmbedRun(Err(resolved.error), db, [], false, false);
    }
    var plan := resolved.value;
    var step := plan.step;
    if step == 0 {
      return EmbedRun(Err(ValueError(RANGE_STEP_ZERO)), db, [], plan.warned, false);
    }
    var progress := step != |texts|;
    var p := Start(db);
    var i := 0;
    // the slices handled so far: the loop visits exactly `Chunks(texts, step, 0)`
    ghost var visited: seq<seq<string>> := [];
    while i < |texts|
      invariant p.failure.None?
      invariant p == RunFirst(next, call, Start(db), texts, Min(i, |texts|))
      invariant Chunks(texts, step, 0) == visited + Chunks(texts, step, i)
      decreases |texts| - i
    {
      ChunksVisit(texts, step, i, visited);
      p := RunChunk(next, call, Start(db), texts, i, step, p);
      if p.failure.Some? {
        return EmbedRun(Err(p.failure.value), p.db, p.sent, plan.warned, progress);
      }
      visited := visited + [Slice(texts, i, step)];
      i := i + step;
    }
    assert Chunks(texts, step, i) == [];
    return EmbedRun(Finish(p, returnUsage), p.db, p.sent, plan.warned, progress);
  }

  /** `embed`: the driver with the loop body `Advance` (one `embed_one`, then the
      appends to the result lists). */
  method Embed(w: World, call: nat, db: Db, texts: seq<string>, model: string, batch: PyArg, returnUsage: bool)
    returns (run: EmbedRun)
    ensures run == EmbedSpec(w, call, db, texts, model, batch, returnUsage)
  {
    run := Drive(Stepper(w, model, returnUsage), call, db, texts, batch, returnUsage);
  }
}
