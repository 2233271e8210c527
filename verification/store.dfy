/** The SQLite file both loggers write to, seen as a sequential catalogue of
    append-only tables. Every table the loggers create starts with
    `id INTEGER PRIMARY KEY AUTOINCREMENT`; a table keeps its other columns in
    `columns` and the largest id it ever handed out (its `sqlite_sequence` entry)
    in `lastId`. Connections, the SQL text and the process-wide lock are not
    modelled: the lock makes every statement below happen one at a time. */
module Store {
  import opened Results
  import opened Values
  import opened Seqs

  /** The largest rowid SQLite can hand out (a signed 64-bit integer). */
  const MAX_ROWID: int := 0x7FFF_FFFF_FFFF_FFFF
  const ID_COLUMN: string := "id"
  const DISK_FULL: string := "database or disk is full"

  datatype Row = Row(id: int, fields: seq<Value>)

  datatype Table = Table(columns: seq<string>, rows: seq<Row>, lastId: int)

  /** The catalogue: table names in creation order (the order `sqlite_master` lists
      them), and each table by name. */
  datatype Db = Db(order: seq<string>, tables: map<string, Table>)

  /** Column names as `cursor.description` reports them for `SELECT *`. */
  function Header(t: Table): seq<string> {
    [ID_COLUMN] + t.columns
  }

  /** A row as `fetchall` returns it: the id followed by the other columns. */
  function Cells(r: Row): seq<Value> {
    [Integer(r.id)] + r.fields
  }

  predicate ValidTable(t: Table) {
    && Distinct(Header(t))
    && 0 <= t.lastId <= MAX_ROWID
    && (forall k :: 0 <= k < |t.rows| ==> 0 < t.rows[k].id <= t.lastId && |t.rows[k].fields| == |t.columns|)
    && (forall a, b :: 0 <= a < b < |t.rows| ==> t.rows[a].id < t.rows[b].id)
  }

  /** What SQLite maintains for every file: each table listed once, and per table
      unique column names, one cell per column, and ids that increase in storage order
      and never exceed the table's sequence entry. */
  predicate Valid(db: Db) {
    && Distinct(db.order)
    && (forall n :: n in db.order ==> n in db.tables)
    && (forall n :: n in db.tables ==> n in db.order)
    && (forall n :: n in db.tables ==> ValidTable(db.tables[n]))
  }

  // ---------------------------------------------------------------------------
  // CREATE TABLE IF NOT EXISTS

  /** `CREATE TABLE IF NOT EXISTS name (id INTEGER PRIMARY KEY AUTOINCREMENT, columns...)`. */
  function CreateTableIfNotExists(db: Db, name: string, columns: seq<string>): (r: Db)
    ensures name in r.tables
    // an existing table is left exactly as it was, whatever its columns
    ensures name in db.tables ==> r.tables[name] == db.tables[name]
    ensures name !in db.tables ==> r.tables[name] == Table(columns, [], 0)
    // no other table is touched, and nothing is dropped from the listing
    ensures forall n :: n in db.tables && n != name ==> n in r.tables && r.tables[n] == db.tables[n]
    ensures r.tables.Keys == db.tables.Keys + {name}
    ensures r.order == db.order + (if name in db.tables then [] else [name])
    ensures Valid(db) && Distinct([ID_COLUMN] + columns) ==> Valid(r)
  {
    if name in db.tables then db
    else Db(db.order + [name], db.tables[name := Table(columns, [], 0)])
  }

  /** Running the same CREATE TABLE IF NOT EXISTS again changes nothing. */
  lemma CreateIdempotent(db: Db, name: string, columns: seq<string>)
    ensures CreateTableIfNotExists(CreateTableIfNotExists(db, name, columns), name, columns)
         == CreateTableIfNotExists(db, name, columns)
  {
  }

  // ---------------------------------------------------------------------------
  // INSERT INTO name (columns...) VALUES (values...)

  /** The cells of a new row: each table column takes the value given for it, and a
      column the statement does not name takes NULL. */
  function Place(tableColumns: seq<string>, columns: seq<string>, values: seq<Value>): (cells: seq<Value>)
    requires |columns| == |values|
    ensures |cells| == |tableColumns|
  {
    seq(|tableColumns|, k requires 0 <= k < |tableColumns| =>
      if tableColumns[k] in columns then values[IndexOf(columns, tableColumns[k])] else Null)
  }

  /** When a statement names exactly the table's columns, in the table's order, the
      new row holds the given values in that order. */
  lemma PlaceInOrder(columns: seq<string>, values: seq<Value>)
    requires Distinct(columns)
    requires |columns| == |values|
    ensures Place(columns, columns, values) == values
  {
    forall k | 0 <= k < |columns|
      ensures Place(columns, columns, values)[k] == values[k]
    {
      IndexOfDistinct(columns, k);
    }
  }

  /** Position of the first named column the table lacks, or `|columns|`. */
  function Unknown(columns: seq<string>, known: seq<string>): (i: nat)
    ensures i <= |columns|
    ensures i < |columns| ==> columns[i] !in known
    ensures i == |columns| <==> forall c :: c in columns ==> c in known
  {
    if |columns| == 0 then 0
    else if columns[0] !in known then 0
    else 1 + Unknown(columns[1..], known)
  }

  /** The id AUTOINCREMENT hands to the next row of `name`. */
  function NextId(db: Db, name: string): int
    requires name in db.tables
  {
    db.tables[name].lastId + 1
  }

  /** Whether an insert naming `columns` into table `name` succeeds. */
  predicate Accepts(db: Db, name: string, columns: seq<string>) {
    && name in db.tables
    && (forall c :: c in columns ==> c in db.tables[name].columns)
    && db.tables[name].lastId < MAX_ROWID
  }

  /** `db` with `rows` appended, in order, to table `name`, whose sequence entry
      advances by one per row; the listing and every other table stay as they were. */
  function WithRows(db: Db, name: string, rows: seq<Row>): Db
    requires name in db.tables
  {
    var t := db.tables[name];
    db.(tables := db.tables[name := t.(rows := t.rows + rows, lastId := t.lastId + |rows|)])
  }

  lemma WithNoRows(db: Db, name: string)
    requires name in db.tables
    ensures WithRows(db, name, []) == db
  {
    var t := db.tables[name];
    assert t.(rows := t.rows + [], lastId := t.lastId + 0) == t;
  }

  lemma WithRowsThenOne(db: Db, name: string, rows: seq<Row>, row: Row)
    requires name in db.tables
    ensures WithRows(WithRows(db, name, rows), name, [row]) == WithRows(db, name, rows + [row])
  {
    var t := db.tables[name];
    assert t.rows + rows + [row] == t.rows + (rows + [row]);
  }

  function Insert(db: Db, name: string, columns: seq<string>, values: seq<Value>): (r: Result<Db>)
    requires ID_COLUMN !in columns
    ensures r.Ok? <==> Accepts(db, name, columns) && |columns| == |values|
    ensures r.Err? ==> r.error.SqlError?
    // exactly one row is appended to the named table, and nothing else changes
    ensures r.Ok? ==> r.value == WithRows(db, name, [Row(NextId(db, name), Place(db.tables[name].columns, columns, values))])
    ensures r.Ok? && Valid(db) ==> Valid(r.value)
  {
    if name !in db.tables then Err(SqlError("no such table: " + name))
    else
      var t := db.tables[name];
      var u := Unknown(columns, t.columns);
      if u < |columns| then Err(SqlError("table " + name + " has no column named " + columns[u]))
      else if |columns| != |values| then Err(SqlError("values do not match the named columns"))
      else if t.lastId >= MAX_ROWID then Err(SqlError(DISK_FULL))
      else
        var row := Row(t.lastId + 1, Place(t.columns, columns, values));
        var t2 := t.(rows := t.rows + [row], lastId := row.id);
        assert ValidTable(t) ==> ValidTable(t2);
        Ok(db.(tables := db.tables[name := t2]))
  }

  /** AUTOINCREMENT: a successful insert gives its row an id larger than every id the
      table already holds, and the table's ids keep increasing in storage order; rows
      already stored are unchanged. */
  lemma InsertIdFresh(db: Db, name: string, columns: seq<string>, values: seq<Value>)
    requires Valid(db)
    requires ID_COLUMN !in columns
    requires Insert(db, name, columns, values).Ok?
    ensures forall k :: 0 <= k < |db.tables[name].rows| ==> db.tables[name].rows[k].id < NextId(db, name)
    ensures var t2 := Insert(db, name, columns, values).value.tables[name];
            && |t2.rows| == |db.tables[name].rows| + 1
            && t2.rows[..|db.tables[name].rows|] == db.tables[name].rows
            && t2.rows[|t2.rows| - 1].id == NextId(db, name)
            && forall a, b :: 0 <= a < b < |t2.rows| ==> t2.rows[a].id < t2.rows[b].id
  {
    var t2 := Insert(db, name, columns, values).value.tables[name];
    assert ValidTable(t2);
    assert t2.rows[..|db.tables[name].rows|] == db.tables[name].rows;
  }

  // ---------------------------------------------------------------------------
  // SELECT * FROM name

  /** Every row of a table, in storage order, with its column names. */
  function SelectAll(db: Db, name: string): Result<(seq<string>, seq<Row>)> {
    if name in db.tables then Ok((Header(db.tables[name]), db.tables[name].rows))
    else Err(SqlError("no such table: " + name))
  }

  /** Reading a table back after a successful insert: `SELECT *` returns the same
      header, the rows stored before, and then the new row with the next id. */
  lemma SelectAfterInsert(db: Db, name: string, columns: seq<string>, values: seq<Value>)
    requires ID_COLUMN !in columns
    requires Insert(db, name, columns, values).Ok?
    ensures SelectAll(Insert(db, name, columns, values).value, name)
         == Ok((Header(db.tables[name]),
                db.tables[name].rows + [Row(NextId(db, name), Place(db.tables[name].columns, columns, values))]))
  {
  }

  // ---------------------------------------------------------------------------
  // SELECT * FROM {name}, with the name pasted into the statement text

  /** SQLite's 147 keywords, in lower case, grouped by length. */
  function KeywordsOfLength(n: nat): set<string> {
    match n
    case 2 => {"as", "by", "do", "if", "in", "is", "no", "of", "on", "or", "to"}
    case 3 => {"add", "all", "and", "asc", "end", "for", "key", "not", "row", "set"}
    case 4 => {
      "case", "cast", "desc", "drop", "each", "else", "fail", "from", "full",
      "glob", "into", "join", "last", "left", "like", "null", "over", "plan",
      "rows", "temp", "then", "ties", "view", "when", "with"
    }
    case 5 => {
      "abort", "after", "alter", "begin", "check", "cross", "first", "group",
      "index", "inner", "limit", "match", "nulls", "order", "outer", "query",
      "raise", "range", "right", "table", "union", "using", "where"
    }
    case 6 => {
      "action", "always", "attach", "before", "column", "commit", "create",
      "delete", "detach", "escape", "except", "exists", "filter", "groups",
      "having", "ignore", "insert", "isnull", "offset", "others", "pragma",
      "regexp", "rename", "select", "unique", "update", "vacuum", "values",
      "window"
    }
    case 7 => {
      "analyze", "between", "cascade", "collate", "current", "default",
      "exclude", "explain", "foreign", "indexed", "instead", "natural",
      "nothing", "notnull", "primary", "reindex", "release", "replace",
      "trigger", "virtual", "without"
    }
    case 8 => {"conflict", "database", "deferred", "distinct", "restrict", "rollback"}
    case 9 => {
      "exclusive", "following", "generated", "immediate", "initially",
      "intersect", "partition", "preceding", "recursive", "returning",
      "savepoint", "temporary", "unbounded"
    }
    case 10 => {"constraint", "deferrable", "references"}
    case 11 => {"transaction"}
    case 12 => {"current_date", "current_time", "materialized"}
    case 13 => {"autoincrement"}
    case 17 => {"current_timestamp"}
    case _ => {}
  }

  /** Reported when a pasted name does not read as one table name. */
  const NOT_A_TABLE_NAME: string := "not a table name"

  function Lower(s: string): string {
    seq(|s|, k requires 0 <= k < |s| => AsciiLower(s[k]))
  }

  /** Characters that may begin an unquoted identifier, and those that may follow. */
  predicate IdStart(c: char) {
    'a' <= c <= 'z' || 'A' <= c <= 'Z' || c == '_' || c as int >= 0x80
  }

  predicate IdPart(c: char) {
    IdStart(c) || '0' <= c <= '9' || c == '$'
  }

  /** A name that reads as one table name when pasted unquoted after `FROM`: a bare
      identifier, in any case not a keyword. */
  predicate BareName(name: string) {
    && |name| > 0
    && IdStart(name[0])
    && (forall k :: 0 < k < |name| ==> IdPart(name[k]))
    && Lower(name) !in KeywordsOfLength(|name|)
  }

  /** `cursor.execute(f'SELECT * FROM {name}')`: the name is pasted into the statement,
      so only a bare name reaches the table lookup. */
  function SelectFrom(db: Db, name: string): (r: Result<(seq<string>, seq<Row>)>)
    ensures r.Ok? <==> BareName(name) && name in db.tables
    ensures r.Err? ==> r.error.SqlError?
    // a bare name reads exactly that table
    ensures BareName(name) ==> r == SelectAll(db, name)
  {
    if BareName(name) then SelectAll(db, name) else Err(SqlError(NOT_A_TABLE_NAME))
  }

  /** Whether or not the store has tables named `"my-logs"` or `"Order"` (both can
      be created with quotes), the unquoted statement cannot read them: the first
      is a syntax error at `-`, the second is a reserved keyword. */
  lemma SelectFromNeedsBareName(db: Db)
    ensures SelectFrom(db, "my-logs").Err? && SelectFrom(db, "Order").Err?
  {
    assert !IdPart("my-logs"[2]);
    assert Lower("Order") == "order";
  }

  // ---------------------------------------------------------------------------
  // SELECT name FROM sqlite_master WHERE type='table' AND name NOT LIKE 'sqlite_%'

  function AsciiLower(c: char): char {
    if 'A' <= c <= 'Z' then (c as int + 32) as char else c
  }

  /** `name LIKE 'sqlite_%'`: LIKE ignores ASCII case and `_` matches any one
      character, so this holds of every name of seven or more characters whose first
      six spell "sqlite" in any case. */
  predicate LikeSqlitePattern(name: string) {
    |name| >= 7 && forall k :: 0 <= k < 6 ==> AsciiLower(name[k]) == "sqlite"[k]
  }

  /** The names in `order` that the catalogue query returns, in the same order. */
  function Unhidden(order: seq<string>): (names: seq<string>)
    ensures forall n :: n in names <==> n in order && !LikeSqlitePattern(n)
    ensures |names| <= |order|
  {
    if |order| == 0 then []
    else
      var last := order[|order| - 1];
      assert order == order[..|order| - 1] + [last];
      Unhidden(order[..|order| - 1]) + (if LikeSqlitePattern(last) then [] else [last])
  }

  /** The catalogue query of `list_tables`: the visible tables, in catalogue order. */
  function ListTables(db: Db): (names: seq<string>)
    ensures forall n :: n in names <==> n in db.order && !LikeSqlitePattern(n)
    ensures Distinct(db.order) ==>
      forall a, b :: 0 <= a < b < |names| ==> IndexOf(db.order, names[a]) < IndexOf(db.order, names[b])
  {
    if Distinct(db.order) then
      ListingKeepsOrder(db.order);
      Unhidden(db.order)
    else Unhidden(db.order)
  }

  /** The listing keeps catalogue order: of two listed tables, the one listed first
      was created first. */
  lemma {:induction false} ListingKeepsOrder(order: seq<string>)
    requires Distinct(order)
    ensures forall a, b :: 0 <= a < b < |Unhidden(order)| ==>
              IndexOf(order, Unhidden(order)[a]) < IndexOf(order, Unhidden(order)[b])
  {
    if |order| > 0 {
      var init := order[..|order| - 1];
      var last := order[|order| - 1];
      assert order == init + [last];
      ListingKeepsOrder(init);
      var names := Unhidden(order);
      var front := Unhidden(init);
      assert names == front + (if LikeSqlitePattern(last) then [] else [last]);
      forall a, b | 0 <= a < b < |names|
        ensures IndexOf(order, names[a]) < IndexOf(order, names[b])
      {
        assert names[a] == front[a] && names[a] in init;
        IndexOfAppend(init, last, names[a]);
        if b < |front| {
          assert names[b] == front[b] && names[b] in init;
          IndexOfAppend(init, last, names[b]);
        } else {
          assert names[b] == last;
          IndexOfDistinct(order, |order| - 1);
        }
      }
    }
  }

  /** The query also hides a user table that merely starts with "sqlite", because `_`
      in a LIKE pattern is a wildcard rather than a literal underscore. */
  lemma ListingHidesSqlitePrefix(db: Db)
    requires "SQLite3data" in db.order
    ensures "SQLite3data" !in ListTables(db)
  {
  }
}
