/** Exporting a database as a script and importing the script again. */
module SqlScript {
  // The database comes back (mdc/src/mdc/portability/writers.py:201-226,
  // mdc/src/mdc/portability/readers.py:344-512).

  import opened Outcomes
  import opened SqlLexer
  import opened SqlReader
  import opened SqlWriter
  import opened SqlRoundTrip
  import opened SqlImport

  // -------------------------------------------------------------- statements

  lemma CreatePlain(t: DbTable)
    ensures Plain(CreateTokens(t))
  {
    var parts := ColumnParts(t.fields);
    forall i | 0 <= i < |parts| ensures SEMICOLON !in parts[i] { if i > 0 { ColumnPlain(t.fields[i - 1]); } else { IdPlain(); } }
    hide ColumnParts;
    JoinPlain(parts);
  }

  lemma IdPlain()
    ensures SEMICOLON !in ID_TOKENS
  {
  }

  lemma ColumnPlain(f: Field)
    ensures SEMICOLON !in ColumnTokens(f)
  {
  }

  lemma {:induction false} JoinPlain(xs: seq<seq<Token>>)
    requires forall i :: 0 <= i < |xs| ==> SEMICOLON !in xs[i]
    ensures SEMICOLON !in JoinTokens(xs)
  {
    if |xs| > 1 { JoinPlain(xs[1..]); }
  }

  lemma RowPlain(fields: seq<Field>, r: Record)
    ensures SEMICOLON !in RowTokens(fields, r)
  {
    hide LiteralTokens;
    var cells := CellTokens(fields, r);
    forall i | 0 <= i < |cells| ensures SEMICOLON !in cells[i] { LiteralFlat(Cells(fields, r)[i]); }
    JoinPlain(cells);
  }

  lemma InsertPlain(t: DbTable, rows: seq<Record>)
    ensures Plain(InsertTokens(t, rows))
  {
    var names, groups := NameParts(t.fields), RowGroups(t.fields, rows);
    forall i | 0 <= i < |names| ensures SEMICOLON !in names[i] { }
    JoinPlain(names);
    forall i | 0 <= i < |groups| ensures SEMICOLON !in groups[i] { RowPlain(t.fields, rows[i]); }
    JoinPlain(groups);
  }

  lemma {:induction false} CreatesPlain(tables: seq<DbTable>)
    ensures forall i :: 0 <= i < |CreateStatements(tables)| ==> Plain(CreateStatements(tables)[i])
    ensures |CreateStatements(tables)| == |tables|
  {
    hide CreateTokens;
    if |tables| > 0 {
      CreatePlain(tables[0]);
      CreatesPlain(tables[1..]);
    }
  }

  lemma {:induction false} ChunksPlain(t: DbTable, chunks: seq<seq<Record>>)
    ensures forall i :: 0 <= i < |ChunkStatements(t, chunks)| ==> Plain(ChunkStatements(t, chunks)[i])
    decreases |chunks|
  {
    hide InsertTokens;
    if |chunks| > 0 {
      InsertPlain(t, chunks[0]);
      ChunksPlain(t, chunks[1..]);
    }
  }

  lemma {:induction false} InsertsPlain(tables: seq<DbTable>)
    ensures forall i :: 0 <= i < |InsertStatements(tables)| ==> Plain(InsertStatements(tables)[i])
  {
    hide ChunkStatements, Chunks, Plain;
    if |tables| > 0 {
      ChunksPlain(tables[0], Chunks(tables[0].rows));
      InsertsPlain(tables[1..]);
    }
  }

  /** The exported text tokenizes, and falls into exactly the statements written. */
  lemma ScriptStatements(u: Classes, db: Db, date: string)
    requires Printable(db) && OneLine(date)
    ensures Tokens(u, ExportText(db, date)).Ok?
    ensures Statements(Tokens(u, ExportText(db, date)).value, []) == AllStatements(db)
    ensures forall st :: st in AllStatements(db) ==> |st| > 0
  {
    hide Printable, Script, CreateStatements, InsertStatements, Tokens, Statements, Ended;
    ScriptReadable(db, date);
    RenderReadsBack(u, Script(db, date));
    ScriptTokens(db, date);
    CreatesPlain(db.tables);
    InsertsPlain(db.tables);
    var sts := AllStatements(db);
    assert forall i :: 0 <= i < |sts| ==> Plain(sts[i]);
    StatementsCut(sts);
  }

  // ------------------------------------------------------------------- creates

  lemma {:induction false} IndexOfUnique(tables: seq<Table>, i: nat)
    requires i < |tables| && forall j :: 0 <= j < |tables| && j != i ==> tables[j].name != tables[i].name
    ensures IndexOf(tables, tables[i].name) == i
  {
  }

  lemma NewName(tables: seq<Table>, name: string)
    requires forall j :: 0 <= j < |tables| ==> tables[j].name != name
    ensures IndexOf(tables, name) == |tables|
  {
  }

  lemma CreateStatementRead(t: DbTable, p: Progress)
    requires PrintableTable(t)
    ensures |CreateTokens(t)| >= 2
    ensures ReadStatement(CreateTokens(t), p)
            == if |t.fields| == 0 then Err(NoColumns) else Ok(p.(tables := SetTable(p.tables, BackTable(t, []))))
  {
    CreateRead(t, p.tables);
    Keywords();
    CreateNames(t);
    hide CreateTable, Keyword, CreateTokens, BackTable, SetTable;
    var st := CreateTokens(t);
    assert Keyword(st[0]) == "CREATE" && KeywordAt(st, 1) == "TABLE";
    DifferentKeywords();
  }

  lemma CreateNames(t: DbTable)
    ensures CreateTokens(t)[0] == Word("CREATE") && CreateTokens(t)[1] == Word("TABLE")
  {
    hide JoinTokens;
  }

  lemma DifferentKeywords()
    ensures "TABLE" != "DATABASE" && "TABLE" != "SCHEMA" && "TABLE" !in {"TEMP", "TEMPORARY", "UNLOGGED"}
    ensures "CREATE" != "USE" && "INSERT" != "CREATE" && "INSERT" != "USE"
  {
    assert "TABLE"[1] == 'A' && "CREATE"[0] == 'C' && "INSERT"[0] == 'I' && "USE"[0] == 'U';
    assert "DATABASE"[0] == 'D' && "SCHEMA"[0] == 'S' && "TABLE"[0] == 'T' && "TEMP"[1] == 'E' && "TEMPORARY"[1] == 'E'
           && "UNLOGGED"[0] == 'U';
  }

  lemma InsertStatementRead(t: DbTable, rows: seq<Record>, p: Progress, i: nat, done: seq<Record>)
    requires PrintableTable(t) && PrintableRows(rows) && |rows| > 0
    requires i < |p.tables| && IndexOf(p.tables, t.name) == i && p.tables[i] == BackTable(t, done)
    ensures |InsertTokens(t, rows)| >= 1
    ensures ReadStatement(InsertTokens(t, rows), p) == Ok(p.(tables := p.tables[i := BackTable(t, done + rows)]))
  {
    InsertRead(t, rows, p.tables, i, done);
    Keywords();
    InsertNames(t, rows);
    hide Insert, Keyword, InsertTokens, BackTable, IndexOf;
    assert Keyword(InsertTokens(t, rows)[0]) == "INSERT";
    DifferentKeywords();
  }

  lemma InsertNames(t: DbTable, rows: seq<Record>)
    ensures |InsertTokens(t, rows)| > 0 && InsertTokens(t, rows)[0] == Word("INSERT")
  {
    hide JoinTokens;
  }

  ghost predicate Distinct(tables: seq<DbTable>) {
    forall i, j :: 0 <= i < j < |tables| ==> tables[i].name != tables[j].name
  }

  ghost predicate AllPrintable(tables: seq<DbTable>) {
    forall i :: 0 <= i < |tables| ==> PrintableTable(tables[i])
  }

  /** The tables before `k` exist, empty. */
  function Created(tables: seq<DbTable>, k: nat): seq<Table>
    requires k <= |tables|
  {
    BackTables(tables[..k], 0)
  }

  lemma CreatedStep(tables: seq<DbTable>, k: nat)
    requires k < |tables| && Distinct(tables)
    ensures SetTable(Created(tables, k), BackTable(tables[k], [])) == Created(tables, k + 1)
  {
    NewName(Created(tables, k), tables[k].name);
    assert Created(tables, k + 1) == Created(tables, k) + [BackTable(tables[k], [])];
  }

  /** All the CREATEs, up to the first table without a field. */
  lemma {:induction false} CreatesRead(tables: seq<DbTable>, k: nat, more: seq<seq<Token>>, database: Option<string>)
    requires k <= |tables| && Distinct(tables) && AllPrintable(tables) && forall st :: st in more ==> |st| > 0
    ensures forall st :: st in CreateStatements(tables[k..]) + more ==> |st| > 0
    ensures ReadAll(CreateStatements(tables[k..]) + more, Progress(Created(tables, k), database))
            == if exists i :: k <= i < |tables| && |tables[i].fields| == 0 then Err(NoColumns)
               else ReadAll(more, Progress(Created(tables, |tables|), database))
    decreases |tables| - k
  {
    hide ReadStatement, CreateTokens, Created, PrintableTable, Plain;
    var sts := CreateStatements(tables[k..]) + more;
    CreatesPlainHere(tables[k..]);
    if k < |tables| {
      assert tables[k..][1..] == tables[k + 1..];
      assert sts[0] == CreateTokens(tables[k]) && sts[1..] == CreateStatements(tables[k + 1..]) + more;
      CreatesRead(tables, k + 1, more, database);
      CreateStatementRead(tables[k], Progress(Created(tables, k), database));
      CreatedStep(tables, k);
    } else {
      assert sts == more;
    }
  }

  lemma CreatesPlainHere(tables: seq<DbTable>)
    ensures forall st :: st in CreateStatements(tables) ==> |st| > 0
  {
    hide CreateStatements;
    CreatesPlain(tables);
  }

  // ------------------------------------------------------------------- inserts

  /** The tables while the rows of the `k`-th are coming in. */
  function Filled(tables: seq<DbTable>, k: nat, done: seq<Record>): (r: seq<Table>)
    requires k < |tables|
    ensures |r| == |tables|
  {
    BackTables(tables, k)[k := BackTable(tables[k], done)]
  }

  lemma FilledFacts(tables: seq<DbTable>, k: nat, done: seq<Record>, rows: seq<Record>)
    requires k < |tables| && Distinct(tables)
    ensures IndexOf(Filled(tables, k, done), tables[k].name) == k
            && Filled(tables, k, done)[k] == BackTable(tables[k], done)
    ensures Filled(tables, k, done)[k := BackTable(tables[k], done + rows)] == Filled(tables, k, done + rows)
  {
    var ts := Filled(tables, k, done);
    forall j | 0 <= j < |ts| && j != k ensures ts[j].name != ts[k].name { }
    IndexOfUnique(ts, k);
  }

  lemma FilledEnds(tables: seq<DbTable>, k: nat)
    requires k < |tables|
    ensures Filled(tables, k, []) == BackTables(tables, k)
            && Filled(tables, k, tables[k].rows) == BackTables(tables, k + 1)
  {
    hide BackTable;
  }

  lemma {:induction false} ChunksJoin(rows: seq<Record>)
    ensures JoinRecords(Chunks(rows)) == rows
    ensures forall i :: 0 <= i < |Chunks(rows)| - 1 ==> |Chunks(rows)[i]| == CHUNK
  {
    if |rows| > CHUNK {
      ChunksJoin(rows[CHUNK..]);
      assert rows == rows[..CHUNK] + rows[CHUNK..];
    } else if |rows| > 0 {
      assert [rows][1..] == [] && rows + [] == rows;
    }
  }

  function JoinRecords(chunks: seq<seq<Record>>): seq<Record>
  {
    if |chunks| == 0 then [] else chunks[0] + JoinRecords(chunks[1..])
  }

  /** The chunks of one table are appended one after the other. */
  lemma {:induction false} ChunksRead(tables: seq<DbTable>, k: nat, chunks: seq<seq<Record>>, done: seq<Record>,
                                      more: seq<seq<Token>>, database: Option<string>)
    requires k < |tables| && Distinct(tables) && AllPrintable(tables) && forall st :: st in more ==> |st| > 0
    requires forall c :: 0 <= c < |chunks| ==> |chunks[c]| > 0 && PrintableRows(chunks[c])
    ensures forall st :: st in ChunkStatements(tables[k], chunks) + more ==> |st| > 0
    ensures ReadAll(ChunkStatements(tables[k], chunks) + more, Progress(Filled(tables, k, done), database))
            == ReadAll(more, Progress(Filled(tables, k, done + JoinRecords(chunks)), database))
    decreases |chunks|
  {
    hide ReadStatement, InsertTokens, Filled, PrintableTable, PrintableRows, IndexOf;
    var t := tables[k];
    var sts := ChunkStatements(t, chunks) + more;
    if |chunks| > 0 {
      assert sts[0] == InsertTokens(t, chunks[0]) && sts[1..] == ChunkStatements(t, chunks[1..]) + more;
      FilledFacts(tables, k, done, chunks[0]);
      InsertStatementRead(t, chunks[0], Progress(Filled(tables, k, done), database), k, done);
      ChunksRead(tables, k, chunks[1..], done + chunks[0], more, database);
      assert done + chunks[0] + JoinRecords(chunks[1..]) == done + JoinRecords(chunks);
    } else {
      assert sts == more && done + [] == done;
    }
  }

  lemma ChunksFine(t: DbTable)
    requires PrintableTable(t)
    ensures forall c :: 0 <= c < |Chunks(t.rows)| ==> |Chunks(t.rows)[c]| > 0 && PrintableRows(Chunks(t.rows)[c])
  {
    hide PrintableValue, Chunks, SafeName;
    var chunks := Chunks(t.rows);
    ChunksPrintable(t.rows);
    forall c | 0 <= c < |chunks| ensures |chunks[c]| > 0 && PrintableRows(chunks[c]) {
      assert chunks[c] in chunks;
      forall i, n | 0 <= i < |chunks[c]| && n in chunks[c][i].values ensures PrintableValue(chunks[c][i].values[n]) {
        assert chunks[c][i] in t.rows;
      }
    }
  }

  /** All the INSERTs. */
  lemma {:induction false} InsertsRead(tables: seq<DbTable>, k: nat, database: Option<string>)
    requires k <= |tables| && Distinct(tables) && AllPrintable(tables)
    ensures forall st :: st in InsertStatements(tables[k..]) ==> |st| > 0
    ensures ReadAll(InsertStatements(tables[k..]), Progress(BackTables(tables, k), database))
            == Ok(Progress(BackTables(tables, |tables|), database))
    decreases |tables| - k
  {
    hide ReadStatement, ChunkStatements, Chunks, Filled, BackTables, PrintableTable, PrintableRows, JoinRecords;
    if k < |tables| {
      var t := tables[k];
      assert tables[k..][1..] == tables[k + 1..];
      InsertsRead(tables, k + 1, database);
      ChunksFine(t);
      FilledEnds(tables, k);
      ChunksRead(tables, k, Chunks(t.rows), [], InsertStatements(tables[k + 1..]), database);
      ChunksJoin(t.rows);
      assert [] + t.rows == t.rows;
    }
  }

  // -------------------------------------------------------- the database comment

  /** Within a line that does not start with the pattern nothing matches. */
  lemma {:induction false} LineSkipped(u: Classes, t: string, i: nat, end: nat)
    requires 0 < i <= end < |t| && forall j :: i <= j < end ==> t[j] != '\n'
    requires t[i - 1] != '\n'
    ensures HeaderFrom(u, t, i) == HeaderFrom(u, t, end)
    decreases end - i
  {
    if i < end { LineSkipped(u, t, i + 1, end); }
  }

  lemma {:induction false} NameRun(name: string, pre: string, rest: string, i: nat)
    requires i <= |name| && (forall k :: 0 <= k < |name| ==> DatabaseChar(name[k])) && |rest| > 0 && !DatabaseChar(rest[0])
    ensures DatabaseRun(pre + name + rest, |pre| + i) == |name| - i
    decreases |name| - i
  {
    var t := pre + name + rest;
    if i < |name| {
      assert t[|pre| + i] == name[i];
      NameRun(name, pre, rest, i + 1);
    } else {
      assert t[|pre| + i] == rest[0];
    }
  }

  const NAME_COMMENT := "-- mdc-database: "

  lemma MarkShape()
    ensures NAME_COMMENT == "-- " + MARK + " " && |MARK| == 13 && MARK[0] == 'm'
  {
  }

  /** The second line names the database. */
  lemma NameFound(u: Classes, pre: string, name: string, rest: string)
    requires DatabaseName(name) && |rest| > 0 && rest[0] == '\n' && (|pre| == 0 || pre[|pre| - 1] == '\n')
    ensures HeaderAt(u, pre + NAME_COMMENT + name + rest, |pre|) == Some(name)
  {
    MarkShape();
    var t := pre + NAME_COMMENT + name + rest;
    var i := |pre|;
    NameShape(pre, name, rest);
    hide NAME_COMMENT, MARK;
    NameRun(name, pre + NAME_COMMENT, rest, 0);
    assert ClassOf(u, t[i + 2]) == Space && ClassOf(u, t[i + 3]) != Space;
    assert SkipSpaces(u, t, i + 3) == i + 3;
    assert ClassOf(u, t[i + 16]) == Space && ClassOf(u, t[i + 17]) != Space;
    assert SkipSpaces(u, t, i + 17) == i + 17;
    assert t[i + 17..i + 17 + |name|] == name;
  }

  lemma NameShape(pre: string, name: string, rest: string)
    requires DatabaseName(name) && |rest| > 0
    ensures var t, i := pre + NAME_COMMENT + name + rest, |pre|;
            && |NAME_COMMENT| == 17 && |MARK| == 13
            && |t| == i + 17 + |name| + |rest|
            && t[i] == '-' && t[i + 1] == '-' && t[i + 2] == ' ' && t[i + 3] == 'm' && t[i + 3..i + 3 + 13] == MARK
               && t[i + 16] == ' '
            && t[i + 17] == name[0] && (i > 0 ==> t[i - 1] == pre[i - 1])
            && t[i + 17..i + 17 + |name|] == name
  {
    var t, i := pre + NAME_COMMENT + name + rest, |pre|;
    assert forall k :: 0 <= k < 17 ==> t[i + k] == NAME_COMMENT[k];
    assert NAME_COMMENT[3..16] == MARK;
    assert t[i + 3..i + 16] == NAME_COMMENT[3..16];
  }

  /** The name found in exported text is the database's, whatever its rows hold. */
  lemma DatabaseFound(u: Classes, db: Db, date: string)
    requires Printable(db) && OneLine(date)
    ensures HeaderFrom(u, ExportText(db, date), 0) == Some(db.name)
  {
    hide Lines, CreateLines, InsertLines, PrintableTable, HeaderAt, HeaderFrom, OneLine, SCOPE_NOTE;
    var rest := Lines(CreateLines(db.tables) + InsertLines(db.tables));
    var first := "-- MDC export of database \"" + db.name + "\" - " + date + "\n";
    var after := "\n" + ("--" + SCOPE_NOTE + "\n" + Render(rest));
    TextShape(db, date, rest);
    var t := first + NAME_COMMENT + db.name + after;
    FirstLine(u, db.name, date, t, |first|);
    NameFound(u, first, db.name, after);
    HeaderStep(u, t, |first|);
  }

  lemma HeaderStep(u: Classes, t: string, i: nat)
    requires i <= |t| && HeaderAt(u, t, i).Some?
    ensures HeaderFrom(u, t, i) == HeaderAt(u, t, i)
  {
  }

  lemma FirstLine(u: Classes, name: string, date: string, t: string, n: nat)
    requires DatabaseName(name) && OneLine(date)
    requires var first := "-- MDC export of database \"" + name + "\" - " + date + "\n"; n == |first| < |t| && t[..n] == first
    ensures HeaderFrom(u, t, 0) == HeaderFrom(u, t, n)
  {
    var first := "-- MDC export of database \"" + name + "\" - " + date + "\n";
    FirstChars(name, date);
    DatabaseNameOneLine(name);
    FirstOneLine(name, date);
    assert forall j :: 0 <= j < n ==> t[j] == t[..n][j] == first[j];
    hide DatabaseName, OneLine;
    StartMisses(u, t);
    assert HeaderFrom(u, t, 0) == HeaderFrom(u, t, 1);
    LineSkipped(u, t, 1, n - 1);
    assert HeaderAt(u, t, n - 1) == None;
    assert HeaderFrom(u, t, n - 1) == HeaderFrom(u, t, n);
  }

  lemma FirstChars(name: string, date: string)
    ensures var first := "-- MDC export of database \"" + name + "\" - " + date + "\n";
            |first| > 10 && first[0] == '-' && first[1] == '-' && first[2] == ' ' && first[3] == 'M'
  {
  }

  lemma FirstOneLine(name: string, date: string)
    requires OneLine(name) && OneLine(date)
    ensures var first := "-- MDC export of database \"" + name + "\" - " + date + "\n";
            forall j :: 0 <= j < |first| - 1 ==> first[j] != '\n'
  {
    var a, b := "-- MDC export of database \"", "\" - ";
    assert OneLine(a) && OneLine(b);
    OneLineAppend(a, name);
    OneLineAppend(a + name, b);
    OneLineAppend(a + name + b, date);
    var line := a + name + b + date;
    assert forall j :: 0 <= j < |line| ==> (line + "\n")[j] == line[j];
  }

  lemma StartMisses(u: Classes, t: string)
    requires |t| > 3 && t[2] == ' ' && t[3] == 'M'
    ensures HeaderAt(u, t, 0) == None
  {
    MarkShape();
    assert ClassOf(u, t[2]) == Space && ClassOf(u, t[3]) != Space;
    assert SkipSpaces(u, t, 3) == 3;
    assert SkipSpaces(u, t, 2) == 3;
    if 3 + |MARK| <= |t| { assert t[3..3 + |MARK|][0] == 'M'; }
  }

  lemma TextShape(db: Db, date: string, rest: seq<Lexeme>)
    requires rest == Lines(CreateLines(db.tables) + InsertLines(db.tables))
    ensures ExportText(db, date)
            == "-- MDC export of database \"" + db.name + "\" - " + date + "\n" + NAME_COMMENT + db.name
               + ("\n" + ("--" + SCOPE_NOTE + "\n" + Render(rest)))
  {
    hide Lines, CreateLines, InsertLines, SCOPE_NOTE;
    var a, b := " MDC export of database \"" + db.name + "\" - " + date, " mdc-database: " + db.name;
    ThreeRendered(LComment(a), LComment(b), LComment(SCOPE_NOTE), rest);
    assert Script(db, date) == [LComment(a), LComment(b), LComment(SCOPE_NOTE)] + rest;
    FirstComment(db.name, date);
    SecondComment(db.name);
    hide Render;
    var first, tail := "-- MDC export of database \"" + db.name + "\" - " + date + "\n", "--" + SCOPE_NOTE + "\n" + Render(rest);
    RegroupText(first, NAME_COMMENT, db.name, "\n", tail);
  }

  lemma RegroupText(a: string, b: string, c: string, d: string, e: string)
    ensures a + ((b + c + d) + e) == a + b + c + (d + e)
  {
  }

  lemma ThreeRendered(a: Lexeme, b: Lexeme, c: Lexeme, rest: seq<Lexeme>)
    ensures Render([a, b, c] + rest) == Text(a) + (Text(b) + (Text(c) + Render(rest)))
  {
    hide Text;
    assert ([c] + rest)[1..] == rest;
    assert Render([c] + rest) == Text(c) + Render(rest);
    assert ([b, c] + rest)[1..] == [c] + rest;
    assert Render([b, c] + rest) == Text(b) + Render([c] + rest);
    assert ([a, b, c] + rest)[1..] == [b, c] + rest;
  }

  lemma FirstComment(name: string, date: string)
    ensures "--" + (" MDC export of database \"" + name + "\" - " + date) + "\n"
            == "-- MDC export of database \"" + name + "\" - " + date + "\n"
  {
    assert "--" + " MDC export of database \"" == "-- MDC export of database \"";
    var a, b := " MDC export of database \"", "\" - ";
    assert "--" + (a + name + b + date) == ("--" + a) + name + b + date;
  }

  lemma SecondComment(name: string)
    ensures "--" + (" mdc-database: " + name) + "\n" == NAME_COMMENT + name + "\n"
  {
    assert "--" + " mdc-database: " == NAME_COMMENT;
    assert "--" + (" mdc-database: " + name) == ("--" + " mdc-database: ") + name;
  }

  // ------------------------------------------------------------------ the whole

  lemma NothingCreated(tables: seq<DbTable>)
    ensures Created(tables, 0) == [] && Created(tables, |tables|) == BackTables(tables, 0)
  {
    assert tables[..|tables|] == tables;
  }

  lemma PrintableParts(db: Db)
    requires Printable(db)
    ensures Distinct(db.tables) && AllPrintable(db.tables)
  {
  }

  /** Import of an export. For any database with plain names, whatever its strings
      hold, the script reads back as the database: every table in order with its
      column types and required flags, every record with its id and non-null
      values. Without a table, or with a table that has no field, it is refused;
      nothing else can go wrong. */
  lemma ExportReadsBack(u: Classes, db: Db, date: string)
    requires Printable(db) && OneLine(date)
    ensures ReadSql(u, ExportText(db, date))
            == if |db.tables| == 0 then Err(NoStatements)
               else if exists i :: 0 <= i < |db.tables| && |db.tables[i].fields| == 0 then Err(NoColumns)
               else Ok(Plan(BackTables(db.tables, |db.tables|), Some(db.name)))
  {
    hide ExportText, Statements, ReadAll, BackTables, CreateStatements, InsertStatements, Created, HeaderFrom, Tokens,
         Printable, OneLine;
    PrintableParts(db);
    ScriptStatements(u, db, date);
    DatabaseFound(u, db, date);
    NothingCreated(db.tables);
    var tables := db.tables;
    InsertsRead(tables, 0, Some(db.name));
    CreatesRead(tables, 0, InsertStatements(tables), Some(db.name));
    assert tables[0..] == tables;
    CountStatements(tables);
  }

  lemma CountStatements(tables: seq<DbTable>)
    ensures |tables| == 0 ==> CreateStatements(tables) + InsertStatements(tables) == []
    ensures |tables| > 0 ==> |CreateStatements(tables)| > 0
  {
  }
}
