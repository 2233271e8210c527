/** The row mapping both `dump_logs_to_jsonl` variants use: each fetched row becomes
    `dict(zip(column_names, row))`, written as one JSON line. A line is kept as its
    ordered (column, value) pairs; the JSON text `json.dumps` makes of them is not
    modelled. */
module Export {
  import opened Results
  import opened Values
  import opened Seqs
  import opened Store

  type Line = seq<(string, Value)>

  /** A table's export: its name (the file is `<table>.jsonl`) and its lines. */
  datatype File = File(table: string, lines: seq<Line>)

  /** One fetched row as the exported object: the k-th column name paired with the
      k-th cell (the id first), stopping at whichever runs out first. */
  function RowObject(columns: seq<string>, row: Row): (line: Line)
    ensures |line| == Min(|columns|, 1 + |row.fields|)
    ensures forall k :: 0 <= k < |line| ==> line[k].0 == columns[k]
    ensures |line| > 0 ==> line[0].1 == Integer(row.id)
    ensures forall k :: 1 <= k < |line| ==> line[k].1 == row.fields[k - 1]
  {
    Zip(columns, Cells(row))
  }

  function Lines(columns: seq<string>, rows: seq<Row>): (lines: seq<Line>)
    ensures |lines| == |rows|
  {
    seq(|rows|, k requires 0 <= k < |rows| => RowObject(columns, rows[k]))
  }

  function Keys(line: Line): seq<string> {
    seq(|line|, k requires 0 <= k < |line| => line[k].0)
  }

  function Vals(line: Line): seq<Value> {
    seq(|line|, k requires 0 <= k < |line| => line[k].1)
  }

  /** For a stored row, the exported object's keys are the table's column names in
      table order, none repeated (so the dict loses nothing), and its values are the
      stored cells verbatim, the id first. */
  lemma RowObjectFaithful(t: Table, k: nat)
    requires ValidTable(t)
    requires k < |t.rows|
    ensures Keys(RowObject(Header(t), t.rows[k])) == Header(t)
    ensures Distinct(Keys(RowObject(Header(t), t.rows[k])))
    ensures Vals(RowObject(Header(t), t.rows[k])) == Cells(t.rows[k])
    ensures RowObject(Header(t), t.rows[k])[0] == (ID_COLUMN, Integer(t.rows[k].id))
  {
    var line := RowObject(Header(t), t.rows[k]);
    assert |Cells(t.rows[k])| == |Header(t)|;
    assert Keys(line) == Header(t);
    assert Vals(line) == Cells(t.rows[k]);
  }

  /** The tables among `names` that hold at least one row, in the same order. */
  function NonEmpty(db: Db, names: seq<string>): (r: seq<string>)
    ensures forall n :: n in r <==> n in names && n in db.tables && |db.tables[n].rows| > 0
  {
    if |names| == 0 then []
    else
      var rest := NonEmpty(db, names[1..]);
      assert forall n :: n in names <==> n == names[0] || n in names[1..];
      if names[0] in db.tables && |db.tables[names[0]].rows| > 0 then [names[0]] + rest else rest
  }

  /** With no table among `names` holding a row, nothing is left to export. */
  lemma {:induction false} NonEmptyNone(db: Db, names: seq<string>)
    requires forall n :: n in names && n in db.tables ==> |db.tables[n].rows| == 0
    ensures NonEmpty(db, names) == []
  {
    if |names| > 0 {
      assert forall n :: n in names[1..] ==> n in names;
      NonEmptyNone(db, names[1..]);
      assert names[0] in names;
    }
  }

  /** An export run: the files written, in order, and the exception that ended it,
      if one did. */
  datatype Dump = Dump(files: seq<File>, failure: Option<Exc>)

  /** The per-table export loop: for each name, `SELECT * FROM` that name; an empty
      table is skipped, any other becomes one file, one line per row in storage order.
      A failing SELECT raises, and the files already written stay written. */
  function DumpTables(db: Db, names: seq<string>): (d: Dump)
    ensures |d.files| <= |names|
    // every file is for a listed table, and none is empty
    ensures forall f :: f in d.files ==> f.table in names && f.table in db.tables
    ensures forall f :: f in d.files ==> |f.lines| > 0
    // it raises exactly when some name is no table or does not read as one
    ensures d.failure.None? <==> forall n :: n in names ==> n in db.tables && BareName(n)
    ensures d.failure.Some? ==> d.failure.value.SqlError?
  {
    if |names| == 0 then Dump([], None)
    else
      assert forall n :: n in names <==> n == names[0] || n in names[1..];
      match SelectFrom(db, names[0])
      case Err(e) => Dump([], Some(e))
      case Ok((columns, rows)) =>
        var rest := DumpTables(db, names[1..]);
        if |rows| == 0 then rest
        else rest.(files := [File(names[0], Lines(columns, rows))] + rest.files)
  }

  /** The file for each of `tables`: its name and its rows as lines. */
  function FilesFor(db: Db, tables: seq<string>): (files: seq<File>)
    requires forall n :: n in tables ==> n in db.tables
    ensures |files| == |tables|
  {
    seq(|tables|, k requires 0 <= k < |tables| =>
      File(tables[k], Lines(Header(db.tables[tables[k]]), db.tables[tables[k]].rows)))
  }

  /** When every name is a table and reads as one, the export never raises and writes
      exactly one file per non-empty table, in the order of `names`, each holding that
      table's rows as lines, in storage order, keyed by the table's columns. */
  lemma {:induction false} DumpTablesComplete(db: Db, names: seq<string>)
    requires forall n :: n in names ==> n in db.tables && BareName(n)
    ensures DumpTables(db, names) == Dump(FilesFor(db, NonEmpty(db, names)), None)
  {
    if |names| > 0 {
      var tail := names[1..];
      assert forall n :: n in tail ==> n in db.tables && BareName(n) by {
        assert forall n :: n in tail ==> n in names;
      }
      DumpTablesComplete(db, tail);
      assert names[0] in names;
      DumpTablesHead(db, names);
      var t := db.tables[names[0]];
      var ne := NonEmpty(db, tail);
      if |t.rows| > 0 {
        assert NonEmpty(db, names) == [names[0]] + ne;
        FilesForCons(db, names[0], ne);
      } else {
        assert NonEmpty(db, names) == ne;
      }
    }
  }

  /** One step of the export loop on a name that reads a table. */
  lemma DumpTablesHead(db: Db, names: seq<string>)
    requires |names| > 0 && names[0] in db.tables && BareName(names[0])
    ensures var t := db.tables[names[0]];
            var rest := DumpTables(db, names[1..]);
            DumpTables(db, names)
              == if |t.rows| == 0 then rest
                 else rest.(files := [File(names[0], Lines(Header(t), t.rows))] + rest.files)
  {
  }

  lemma FilesForCons(db: Db, n: string, tables: seq<string>)
    requires n in db.tables
    requires forall m :: m in tables ==> m in db.tables
    ensures FilesFor(db, [n] + tables)
         == [File(n, Lines(Header(db.tables[n]), db.tables[n].rows))] + FilesFor(db, tables)
  {
    assert forall m :: m in [n] + tables ==> m in db.tables;
  }

  /** The first name that is no table, or does not read as one, ends the export with
      that SELECT's error, after the files of the names before it. */
  lemma {:induction false} DumpTablesStops(db: Db, names: seq<string>, i: nat)
    requires i < |names| && !(names[i] in db.tables && BareName(names[i]))
    requires forall k :: 0 <= k < i ==> names[k] in db.tables && BareName(names[k])
    ensures DumpTables(db, names).failure
         == Some(SqlError(if BareName(names[i]) then "no such table: " + names[i] else NOT_A_TABLE_NAME))
    ensures DumpTables(db, names).files == DumpTables(db, names[..i]).files
  {
    if i > 0 {
      DumpTablesStops(db, names[1..], i - 1);
      assert names[1..][..i - 1] == names[..i][1..];
    }
  }
}
