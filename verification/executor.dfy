/** The chat-completion request path both loggers share: call the remote service,
    time it, read the usage counters and the generated text, log one row, return. */
module Executor {
  import opened Results
  import opened Values
  import opened Seqs
  import opened Store
  import opened Remote

  /** Columns of a chat-completion log table after `id`, in table order; the INSERT
      statements name them in the same order. */
  const CHAT_COLUMNS: seq<string> := [
    "timestamp", "input_messages", "max_tokens", "temperature", "top_p",
    "frequency_penalty", "output_text", "input_tokens", "output_tokens", "time_taken"]

  /** The tuple `chat_completion` returns:
      (generated_text, input_tokens, output_tokens, time_taken). */
  datatype Answer = Answer(text: Option<string>, inputTokens: int, outputTokens: int, timeTaken: real)

  lemma ChatColumnsDistinct()
    ensures Distinct(CHAT_COLUMNS)
    ensures ID_COLUMN !in CHAT_COLUMNS
    ensures Distinct([ID_COLUMN] + CHAT_COLUMNS)
  {
    DistinctCons(ID_COLUMN, CHAT_COLUMNS);
  }

  /** The ten values one chat-completion row holds, in `CHAT_COLUMNS` order. */
  function ChatFields(timestamp: string, req: ChatRequest, answer: Answer): (fields: seq<Value>)
    ensures |fields| == |CHAT_COLUMNS|
  {
    [ Text(timestamp), JsonText(JArray(req.messages)), Integer(req.maxTokens),
      Real(req.temperature), Real(req.topP), Real(req.frequencyPenalty),
      match answer.text case Some(s) => Text(s) case None => Null,
      Integer(answer.inputTokens), Integer(answer.outputTokens), Real(answer.timeTaken) ]
  }

  /** `log_chat_completion` / `log_to_db`: one INSERT naming every chat column. */
  function LogChat(db: Db, table: string, fields: seq<Value>): (r: Result<Db>)
    requires |fields| == |CHAT_COLUMNS|
    ensures r.Ok? <==> Accepts(db, table, CHAT_COLUMNS)
    ensures r.Err? ==> r.error.SqlError?
    ensures r.Ok? ==> r.value == WithRows(db, table,
      [Row(NextId(db, table), Place(db.tables[table].columns, CHAT_COLUMNS, fields))])
    ensures r.Ok? && Valid(db) ==> Valid(r.value)
  {
    Insert(db, table, CHAT_COLUMNS, fields)
  }

  /** `chat_completion`, writing to `table`. Returns what the Python function returns
      (or the exception it raises) and the store afterwards. */
  function ChatCompletion(w: World, call: nat, db: Db, table: string, req: ChatRequest): (r: (Result<Answer>, Db))
    // a remote failure propagates unchanged and leaves the store as it was
    ensures w.chat(call, req).Err? ==> r == (Err(w.chat(call, req).error), db)
    // a refused insert propagates the store's error and leaves the store as it was
    ensures w.chat(call, req).Ok? && !Accepts(db, table, CHAT_COLUMNS) ==> r.0.Err? && r.0.error.SqlError?
    ensures r.0.Err? ==> r.1 == db
    // success needs a reply and a table that takes the row
    ensures r.0.Ok? <==> w.chat(call, req).Ok? && Accepts(db, table, CHAT_COLUMNS)
    // the counters come from usage.prompt_tokens / usage.completion_tokens
    ensures r.0.Ok? ==>
      var reply := w.chat(call, req).value;
      r.0.value == Answer(reply.content, reply.promptTokens, reply.completionTokens, w.clock(call).timeTaken)
    // exactly one row is appended, it holds the returned values, nothing else changes
    ensures r.0.Ok? ==> r.1 == WithRows(db, table,
      [Row(NextId(db, table), Place(db.tables[table].columns, CHAT_COLUMNS,
                                   ChatFields(w.clock(call).timestamp, req, r.0.value)))])
  {
    match w.chat(call, req)
    case Err(e) => (Err(e), db)
    case Ok(reply) =>
      var timing := w.clock(call);
      var answer := Answer(reply.content, reply.promptTokens, reply.completionTokens, timing.timeTaken);
      match LogChat(db, table, ChatFields(timing.timestamp, req, answer))
      case Err(e) => (Err(e), db)
      case Ok(db2) => (Ok(answer), db2)
  }

  /** With the table in the shape the loggers create it, exactly one row is appended
      and it holds, column by column, the request and the values the caller gets back:
      output_text, input_tokens, output_tokens and time_taken equal the returned tuple. */
  lemma ChatRowMatchesAnswer(w: World, call: nat, db: Db, table: string, req: ChatRequest)
    requires table in db.tables
    requires db.tables[table].columns == CHAT_COLUMNS
    requires db.tables[table].lastId < MAX_ROWID
    requires w.chat(call, req).Ok?
    ensures var (r, db2) := ChatCompletion(w, call, db, table, req);
            && r.Ok?
            && db2.tables[table].rows == db.tables[table].rows
              + [Row(NextId(db, table), ChatFields(w.clock(call).timestamp, req, r.value))]
  {
    var out := ChatCompletion(w, call, db, table, req);
    var fields := ChatFields(w.clock(call).timestamp, req, out.0.value);
    ChatColumnsDistinct();
    PlaceInOrder(CHAT_COLUMNS, fields);
  }
}
