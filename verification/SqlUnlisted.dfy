/** Exported scripts whose INSERTs have lost their column lists. */
module SqlUnlisted {
  // They import as the same database: each value still lands in its own column, and
  // the record id in its place (mdc/src/mdc/portability/readers.py:481-487).

  import opened Outcomes
  import opened SqlLexer
  import opened SqlReader
  import opened SqlWriter
  import opened SqlRoundTrip
  import opened SqlImport
  import opened SqlScript
  import Hand = SqlHand

  function NameTokens(fields: seq<Field>): (r: seq<Token>)
    ensures |r| == |fields| + 1
  {
    [QIdent(RECORD_ID)] + seq(|fields|, i requires 0 <= i < |fields| => QIdent(fields[i].name))
  }

  function RowCells(t: DbTable, rows: seq<Record>): (r: seq<seq<seq<Token>>>)
    ensures |r| == |rows|
  {
    seq(|rows|, i requires 0 <= i < |rows| => CellTokens(t.fields, rows[i]))
  }

  /** The INSERT of these rows, with its column list or without. */
  function AsInsert(t: DbTable, rows: seq<Record>, listed: bool): Hand.Stmt {
    Hand.HandInsert(Word("INSERT"), [Word("INTO")], [QIdent(t.name)],
                    if listed then Some(NameTokens(t.fields)) else None, Word("VALUES"), RowCells(t, rows))
  }

  function UnlistedTokens(t: DbTable, rows: seq<Record>): seq<Token> {
    [Word("INSERT"), Word("INTO"), QIdent(t.name), Word("VALUES")] + JoinTokens(RowGroups(t.fields, rows))
  }

  lemma SameGroups(t: DbTable, rows: seq<Record>)
    ensures Hand.Groups(RowCells(t, rows)) == RowGroups(t.fields, rows)
    ensures Hand.Singles(NameTokens(t.fields)) == NameParts(t.fields)
  {
    hide CellTokens, JoinTokens;
  }

  lemma AsInsertTokens(t: DbTable, rows: seq<Record>)
    ensures Hand.StmtTokens(AsInsert(t, rows, true)) == InsertTokens(t, rows)
    ensures Hand.StmtTokens(AsInsert(t, rows, false)) == UnlistedTokens(t, rows)
  {
    SameGroups(t, rows);
    hide JoinTokens, Hand.Groups, RowCells, RowGroups, Hand.Singles, NameTokens, NameParts;
    assert Hand.Dotted([QIdent(t.name)]) == [QIdent(t.name)];
    var names, groups := JoinTokens(NameParts(t.fields)), JoinTokens(RowGroups(t.fields, rows));
    HeadTokensShape(t.name, names, groups);
  }

  lemma HeadTokensShape(name: string, names: seq<Token>, groups: seq<Token>)
    ensures [Word("INSERT")] + [Word("INTO")] + [QIdent(name)] + ([OPEN] + names + [CLOSE]) + [Word("VALUES")] + groups
            == [Word("INSERT"), Word("INTO"), QIdent(name), OPEN] + names + [CLOSE, Word("VALUES")] + groups
    ensures [Word("INSERT")] + [Word("INTO")] + [QIdent(name)] + [] + [Word("VALUES")] + groups
            == [Word("INSERT"), Word("INTO"), QIdent(name), Word("VALUES")] + groups
  {
  }

  lemma AsInsertGood(t: DbTable, rows: seq<Record>, listed: bool)
    ensures Hand.GoodStmt(AsInsert(t, rows, listed))
  {
    hide CellTokens, Solid;
    Keywords();
    forall i, j | 0 <= i < |rows| && 0 <= j < |RowCells(t, rows)[i]| ensures Hand.GoodCell(RowCells(t, rows)[i][j]) {
      CellsSolid(t.fields, rows[i]);
    }
  }

  lemma ListIsOrder(t: DbTable)
    requires PrintableTable(t)
    ensures Hand.ListNames(NameTokens(t.fields)) == [RECORD_ID] + FieldNames(t.fields)
  {
    hide SafeName, Lower;
    assert Lower(RECORD_ID) == RECORD_ID by { RecordIdLower(); }
    forall i | 0 <= i < |t.fields|
      ensures Hand.ListNames(NameTokens(t.fields))[i + 1] == FieldNames(t.fields)[i]
    {
      SafeLower(t.fields[i].name);
    }
  }

  lemma RecordIdLower()
    ensures Lower(RECORD_ID) == RECORD_ID
  {
  }

  /** Into a table as its CREATE TABLE left it, whatever rows it has by now, the INSERT
      reads the same without its list. */
  lemma UnlistedInsertRead(t: DbTable, rows: seq<Record>, p: Progress, done: seq<Record>)
    requires PrintableTable(t) && Hand.TableNamed(p.tables, t.name) == Some(BackTable(t, done))
    ensures |InsertTokens(t, rows)| > 0 && |UnlistedTokens(t, rows)| > 0
    ensures ReadStatement(UnlistedTokens(t, rows), p) == ReadStatement(InsertTokens(t, rows), p)
  {
    hide ReadStatement, Hand.StmtTokens, InsertTokens, UnlistedTokens, Hand.GoodStmt, Hand.Meaning, NameTokens,
         FieldNames, Hand.ListNames, Hand.TableNamed, RowCells;
    var s := AsInsert(t, rows, true);
    AsInsertTokens(t, rows);
    AsInsertGood(t, rows, true);
    Hand.HandStatementRead(s, p);
    AsInsertGood(t, rows, false);
    Hand.HandStatementRead(AsInsert(t, rows, false), p);
    ListIsOrder(t);
    SafeHere(t);
    Hand.ListMakesNoDifference(s, p);
  }

  // -------------------------------------------------------------- whole scripts

  function UnlistedChunks(t: DbTable, chunks: seq<seq<Record>>): seq<seq<Token>>
  {
    if |chunks| == 0 then [] else [UnlistedTokens(t, chunks[0])] + UnlistedChunks(t, chunks[1..])
  }

  function UnlistedInserts(tables: seq<DbTable>): seq<seq<Token>>
  {
    if |tables| == 0 then [] else UnlistedChunks(tables[0], Chunks(tables[0].rows)) + UnlistedInserts(tables[1..])
  }

  lemma FilledNamed(tables: seq<DbTable>, k: nat, done: seq<Record>)
    requires k < |tables| && Distinct(tables)
    ensures Hand.TableNamed(Filled(tables, k, done), tables[k].name) == Some(BackTable(tables[k], done))
  {
    hide IndexOf, Hand.TableNamed;
    FilledFacts(tables, k, done, []);
    Hand.TableFound(Filled(tables, k, done), tables[k].name);
  }

  lemma {:induction false} UnlistedChunksRead(tables: seq<DbTable>, k: nat, chunks: seq<seq<Record>>,
                                              done: seq<Record>, more: seq<seq<Token>>, database: Option<string>)
    requires k < |tables| && Distinct(tables) && AllPrintable(tables) && forall st :: st in more ==> |st| > 0
    requires forall c :: 0 <= c < |chunks| ==> |chunks[c]| > 0 && PrintableRows(chunks[c])
    ensures forall st :: st in UnlistedChunks(tables[k], chunks) + more ==> |st| > 0
    ensures ReadAll(UnlistedChunks(tables[k], chunks) + more, Progress(Filled(tables, k, done), database))
            == ReadAll(more, Progress(Filled(tables, k, done + JoinRecords(chunks)), database))
    decreases |chunks|
  {
    hide ReadStatement, InsertTokens, UnlistedTokens, Filled, PrintableTable, PrintableRows, IndexOf, Hand.TableNamed;
    var t := tables[k];
    var sts := UnlistedChunks(t, chunks) + more;
    if |chunks| > 0 {
      assert sts[0] == UnlistedTokens(t, chunks[0]) && sts[1..] == UnlistedChunks(t, chunks[1..]) + more;
      FilledFacts(tables, k, done, chunks[0]);
      FilledNamed(tables, k, done);
      InsertStatementRead(t, chunks[0], Progress(Filled(tables, k, done), database), k, done);
      UnlistedInsertRead(t, chunks[0], Progress(Filled(tables, k, done), database), done);
      UnlistedChunksRead(tables, k, chunks[1..], done + chunks[0], more, database);
      assert done + chunks[0] + JoinRecords(chunks[1..]) == done + JoinRecords(chunks);
    } else {
      assert sts == more && done + [] == done;
    }
  }

  lemma {:induction false} UnlistedInsertsRead(tables: seq<DbTable>, k: nat, database: Option<string>)
    requires k <= |tables| && Distinct(tables) && AllPrintable(tables)
    ensures forall st :: st in UnlistedInserts(tables[k..]) ==> |st| > 0
    ensures ReadAll(UnlistedInserts(tables[k..]), Progress(BackTables(tables, k), database))
            == Ok(Progress(BackTables(tables, |tables|), database))
    decreases |tables| - k
  {
    hide ReadStatement, UnlistedChunks, Chunks, Filled, BackTables, PrintableTable, PrintableRows, JoinRecords;
    if k < |tables| {
      var t := tables[k];
      assert tables[k..][1..] == tables[k + 1..];
      UnlistedInsertsRead(tables, k + 1, database);
      ChunksFine(t);
      FilledEnds(tables, k);
      UnlistedChunksRead(tables, k, Chunks(t.rows), [], UnlistedInserts(tables[k + 1..]), database);
      ChunksJoin(t.rows);
      assert [] + t.rows == t.rows;
    }
  }

  lemma UnlistedPlain(t: DbTable, rows: seq<Record>)
    ensures Plain(UnlistedTokens(t, rows))
  {
    hide RowTokens, JoinTokens;
    var groups := RowGroups(t.fields, rows);
    forall i | 0 <= i < |groups| ensures SEMICOLON !in groups[i] { RowPlain(t.fields, rows[i]); }
    JoinPlain(groups);
  }

  lemma {:induction false} UnlistedChunksPlain(t: DbTable, chunks: seq<seq<Record>>)
    ensures forall i :: 0 <= i < |UnlistedChunks(t, chunks)| ==> Plain(UnlistedChunks(t, chunks)[i])
    decreases |chunks|
  {
    hide UnlistedTokens;
    if |chunks| > 0 {
      UnlistedPlain(t, chunks[0]);
      UnlistedChunksPlain(t, chunks[1..]);
    }
  }

  lemma {:induction false} UnlistedInsertsPlain(tables: seq<DbTable>)
    ensures forall i :: 0 <= i < |UnlistedInserts(tables)| ==> Plain(UnlistedInserts(tables)[i])
  {
    hide UnlistedChunks, Chunks, Plain;
    if |tables| > 0 {
      UnlistedChunksPlain(tables[0], Chunks(tables[0].rows));
      UnlistedInsertsPlain(tables[1..]);
    }
  }

  function UnlistedStatements(db: Db): seq<seq<Token>> {
    CreateStatements(db.tables) + UnlistedInserts(db.tables)
  }

  /** Any text with the tokens of an export, its column lists left out, reads as the
      export does: as the database, or refused for want of a table or a field. */
  lemma UnlistedReadsBack(u: Classes, db: Db, text: string)
    requires Printable(db) && Tokens(u, text) == Ok(Ended(UnlistedStatements(db)))
    ensures ReadSql(u, text)
            == if |db.tables| == 0 then Err(NoStatements)
               else if exists i :: 0 <= i < |db.tables| && |db.tables[i].fields| == 0 then Err(NoColumns)
               else Ok(Plan(BackTables(db.tables, |db.tables|), HeaderFrom(u, text, 0)))
  {
    hide Statements, ReadAll, BackTables, CreateStatements, UnlistedInserts, Created, HeaderFrom, Tokens, Printable,
         Ended, Plain;
    PrintableParts(db);
    NothingCreated(db.tables);
    var tables, database := db.tables, HeaderFrom(u, text, 0);
    CreatesPlain(tables);
    UnlistedInsertsPlain(tables);
    var sts := UnlistedStatements(db);
    assert forall i :: 0 <= i < |sts| ==> Plain(sts[i]);
    StatementsCut(sts);
    UnlistedInsertsRead(tables, 0, database);
    CreatesRead(tables, 0, UnlistedInserts(tables), database);
    assert tables[0..] == tables;
    NothingUnlisted(tables);
  }

  lemma NothingUnlisted(tables: seq<DbTable>)
    ensures |tables| == 0 ==> CreateStatements(tables) + UnlistedInserts(tables) == []
    ensures |tables| > 0 ==> |CreateStatements(tables)| > 0
  {
  }
}
