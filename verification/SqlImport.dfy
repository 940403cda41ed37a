/** The pieces of an exported script, read back one by one as what they were
    written from. */
module SqlImport {
  // Types, columns, literals, rows and INSERTs.

  import opened KeySpace
  import opened Outcomes
  import opened SqlLexer
  import opened SqlReader
  import opened SqlWriter
  import opened SqlRoundTrip

  // --------------------------------------------------------- what comes back

  function BackColumns(fields: seq<Field>): (r: seq<Column>)
    ensures |r| == |fields|
  {
    seq(|fields|, i requires 0 <= i < |fields| => Column(fields[i].name, fields[i].datatype_, fields[i].required))
  }

  function FieldNames(fields: seq<Field>): (r: seq<string>)
    ensures |r| == |fields|
  {
    seq(|fields|, i requires 0 <= i < |fields| => fields[i].name)
  }

  /** The values of a record's fields that are not null. */
  function BackValues(fields: seq<Field>, r: Record): map<string, Value> {
    map n | n in FieldNames(fields) && ValueOf(r, n) != VNull :: ValueOf(r, n)
  }

  function BackRow(fields: seq<Field>, r: Record): Row {
    Row(BackValues(fields, r), Some(r.recordId))
  }

  function BackRows(fields: seq<Field>, rows: seq<Record>): (r: seq<Row>)
    ensures |r| == |rows|
  {
    seq(|rows|, i requires 0 <= i < |rows| => BackRow(fields, rows[i]))
  }

  function BackTable(t: DbTable, rows: seq<Record>): Table {
    Table(t.name, Some(BackColumns(t.fields)), BackRows(t.fields, rows), false, [RECORD_ID] + FieldNames(t.fields))
  }

  /** The tables, the first `k` of them with their rows. */
  function BackTables(tables: seq<DbTable>, k: nat): (r: seq<Table>)
    ensures |r| == |tables|
  {
    seq(|tables|, i requires 0 <= i < |tables| => BackTable(tables[i], if i < k then tables[i].rows else []))
  }

  // ------------------------------------------------------------------ keywords

  lemma UpperSame(w: string)
    requires forall i :: 0 <= i < |w| ==> !('a' <= w[i] <= 'z')
    ensures Upper(w) == w
  {
  }

  lemma Keywords()
    ensures Keyword(Word("CREATE")) == "CREATE" && Keyword(Word("TABLE")) == "TABLE"
            && Keyword(Word("INSERT")) == "INSERT"
    ensures Keyword(Word("INTO")) == "INTO" && Keyword(Word("VALUES")) == "VALUES"
  {
    UpperSame("CREATE");
    UpperSame("TABLE");
    UpperSame("INSERT");
    UpperSame("INTO");
    UpperSame("VALUES");
  }

  lemma LiteralKeywords()
    ensures Upper("NULL") == "NULL" && Upper("TRUE") == "TRUE" && Upper("FALSE") == "FALSE"
    ensures "TRUE" != "NULL" && "FALSE" != "NULL" && "TRUE" != "DEFAULT" && "FALSE" != "DEFAULT" && "FALSE" != "TRUE"
  {
    UpperSame("NULL");
    UpperSame("TRUE");
    UpperSame("FALSE");
    assert "TRUE"[0] == 'T' && "NULL"[0] == 'N' && "FALSE"[0] == 'F' && "DEFAULT"[0] == 'D';
  }

  lemma StopWords()
    ensures Keyword(Word("NOT")) == "NOT" && Keyword(Word("NULL")) == "NULL" && Keyword(Word("PRIMARY")) == "PRIMARY"
            && Keyword(Word("KEY")) == "KEY"
    ensures "NOT" in COLUMN_STOP && "PRIMARY" in COLUMN_STOP && "NOT" != "PRIMARY" && "NULL" != "PRIMARY"
  {
    UpperSame("NOT");
    UpperSame("NULL");
    UpperSame("PRIMARY");
    UpperSame("KEY");
    assert "NOT"[0] == 'N' && "NULL"[0] == 'N' && "PRIMARY"[0] == 'P';
  }

  /** The first letters of the words that end a type. */
  lemma StopHeads(w: string)
    ensures w in COLUMN_STOP ==> |w| > 1 && w[0] in {'N', 'P', 'D', 'R', 'U', 'C', 'A', 'G', 'I', 'O'}
                                 && (w[0] == 'D' ==> w[1] == 'E') && (w[0] == 'P' ==> w == "PRIMARY")
  {
  }

  lemma TypeWord(w: string)
    requires w in {"VARCHAR", "DOUBLE", "PRECISION", "BIGINT", "BOOLEAN", "TIMESTAMP"}
    ensures Keyword(Word(w)) == w && w !in COLUMN_STOP
  {
    UpperSame("VARCHAR");
    UpperSame("DOUBLE");
    UpperSame("PRECISION");
    UpperSame("BIGINT");
    UpperSame("BOOLEAN");
    UpperSame("TIMESTAMP");
    StopHeads(w);
    assert "PRECISION"[2] == 'E' && "PRIMARY"[2] == 'I';
    assert "VARCHAR"[0] == 'V' && "DOUBLE"[1] == 'O' && "BIGINT"[0] == 'B' && "BOOLEAN"[0] == 'B'
           && "TIMESTAMP"[0] == 'T';
  }

  lemma TypeNamesBack(t: Datatype)
    ensures TypeOf(WordsOf(t)) == t
  {
    match t
    case TString => assert Lower("VARCHAR") == "varchar"; VarcharUnknown();
    case TDecimal => assert Lower("DOUBLE") == "double"; DoubleKnown();
    case TInteger => assert Lower("BIGINT") == "bigint";
    case TBoolean => assert Lower("BOOLEAN") == "boolean"; BooleanKnown();
    case TDatetime => assert Lower("TIMESTAMP") == "timestamp"; TimestampKnown();
  }

  function WordsOf(t: Datatype): seq<string> {
    match t
    case TString => ["VARCHAR"]
    case TDecimal => ["DOUBLE", "PRECISION"]
    case TInteger => ["BIGINT"]
    case TBoolean => ["BOOLEAN"]
    case TDatetime => ["TIMESTAMP"]
  }

  const INTEGERS := {"int", "integer", "bigint", "smallint", "tinyint", "mediumint", "serial", "bigserial",
    "smallserial", "int2", "int4", "int8"}
  const DECIMALS := {"decimal", "numeric", "float", "double", "real", "money", "number", "float4", "float8", "dec",
    "fixed"}
  const BOOLEANS := {"bool", "boolean", "bit"}
  const DATETIMES := {"date", "datetime", "timestamp", "timestamptz", "datetime2", "time", "smalldatetime"}

  lemma Heads(w: string)
    ensures w in INTEGERS ==> |w| > 2 && w[0] in {'i', 'b', 's', 't', 'm'} && (w[0] == 'b' ==> w[1] == 'i') && (w[0] == 't' ==> w[2] == 'n')
    ensures w in DECIMALS ==> |w| > 2 && w[0] in {'d', 'n', 'f', 'r', 'm'}
    ensures w in BOOLEANS ==> |w| > 2 && w[0] == 'b'
    ensures w in DATETIMES ==> |w| > 2 && w[0] in {'d', 't', 's'}
  {
  }

  lemma VarcharUnknown()
    ensures "varchar" !in INTEGERS && "varchar" !in DECIMALS && "varchar" !in BOOLEANS && "varchar" !in DATETIMES
  {
    Heads("varchar");
    assert "varchar"[0] == 'v';
  }

  lemma DoubleKnown()
    ensures "double" !in INTEGERS
  {
    Heads("double");
    assert "double"[0] == 'd';
  }

  lemma BooleanKnown()
    ensures "boolean" !in INTEGERS && "boolean" !in DECIMALS
  {
    Heads("boolean");
    assert "boolean"[0] == 'b' && "boolean"[1] == 'o';
  }

  lemma TimestampKnown()
    ensures "timestamp" !in INTEGERS && "timestamp" !in DECIMALS && "timestamp" !in BOOLEANS
  {
    Heads("timestamp");
    assert "timestamp"[0] == 't' && "timestamp"[2] == 'm';
  }

  // ------------------------------------------------------------------- columns

  lemma TypeStep(part: seq<Token>, i: nat, w: string)
    requires i < |part| && part[i] == Word(w) && w in {"VARCHAR", "DOUBLE", "PRECISION", "BIGINT", "BOOLEAN",
             "TIMESTAMP"}
    requires ReadType(part, i + 1).Ok?
    ensures ReadType(part, i) == Ok(TypeWords([w] + ReadType(part, i + 1).value.words,
            ReadType(part, i + 1).value.next))
  {
    TypeWord(w);
    hide COLUMN_STOP, Keyword;
  }

  lemma TypeStops(part: seq<Token>, i: nat)
    requires i <= |part| && (i < |part| ==> part[i] == Word("NOT"))
    ensures ReadType(part, i) == Ok(TypeWords([], i))
  {
    StopWords();
    hide COLUMN_STOP, Keyword;
  }

  lemma TypeRead(part: seq<Token>, f: Field)
    requires part == ColumnTokens(f)
    ensures ReadType(part, 1) == Ok(TypeWords(WordsOf(f.datatype_), 1 + |TypeTokens(f.datatype_)|))
  {
    hide ReadType;
    var ts := TypeTokens(f.datatype_);
    assert part[1] == ts[0];
    TypeStops(part, 1 + |ts|);
    if f.datatype_ == TDecimal {
      assert part[2] == ts[1];
      TypeStep(part, 2, "PRECISION");
      assert ["PRECISION"] + [] == ["PRECISION"];
    }
    var w := WordsOf(f.datatype_)[0];
    TypeStep(part, 1, w);
    assert [w] + WordsOf(f.datatype_)[1..] == WordsOf(f.datatype_);
  }

  lemma RequiredRead(f: Field)
    ensures var part, i := ColumnTokens(f), 1 + |TypeTokens(f.datatype_)|;
            && i <= |part|
            && (HasKeyword(part, i, "NOT") && HasKeyword(part, i, "NULL") <==> f.required)
            && !HasKeyword(part, i, "PRIMARY")
  {
    StopWords();
    var part, i := ColumnTokens(f), 1 + |TypeTokens(f.datatype_)|;
    hide COLUMN_STOP, Keyword;
    if f.required {
      assert part[i] == Word("NOT") && part[i + 1] == Word("NULL") && |part| == i + 2;
      assert Keyword(part[i]) == "NOT" && Keyword(part[i + 1]) == "NULL";
    } else {
      assert |part| == i;
    }
  }

  lemma ColumnRead(f: Field, cs: Columns)
    requires Safe(f.name) && f.name != RECORD_ID && f.name !in cs.used
    ensures ReadColumn(ColumnTokens(f), cs)
            == Ok(Columns(cs.specs + [Column(f.name, f.datatype_, f.required)], cs.order + [f.name], cs.keys, cs.used
               + {f.name}))
  {
    var part := ColumnTokens(f);
    assert part[0] == QIdent(f.name);
    TypeRead(part, f);
    RequiredRead(f);
    TypeNamesBack(f.datatype_);
    SafeLower(f.name);
    EmptyNotConstraint();
    hide ColumnTokens, ReadType, TypeOf, HasKeyword, TABLE_CONSTRAINT, SafeName;
    assert SafeUnique(f.name, cs.used) == f.name;
  }

  lemma EmptyNotConstraint()
    ensures "" !in TABLE_CONSTRAINT
  {
  }

  lemma IdRead(cs: Columns)
    ensures ReadColumn(ID_TOKENS, cs) == Ok(cs.(order := cs.order + [RECORD_ID]))
  {
    TypeWord("VARCHAR");
    StopWords();
    EmptyNotConstraint();
    assert Nested([Num("64")], 0) by { assert [Num("64")][1..] == []; }
    GroupRead(ID_TOKENS, 2, [Num("64")]);
    hide Keyword, COLUMN_STOP, TABLE_CONSTRAINT;
    assert ReadType(ID_TOKENS, 5) == Ok(TypeWords([], 5));
    assert ReadType(ID_TOKENS, 2) == Ok(TypeWords([], 5));
    assert Lower(RECORD_ID) == RECORD_ID;
    EmptyKeyword();
  }

  lemma EmptyKeyword()
    ensures Keyword(QIdent(RECORD_ID)) == ""
  {
  }

  function ColumnsUpTo(fields: seq<Field>, k: nat): Columns
    requires k <= |fields|
  {
    Columns(BackColumns(fields[..k]), [RECORD_ID] + FieldNames(fields[..k]), [], set i | 0 <= i < k :: fields[i].name)
  }

  lemma UpToStep(fields: seq<Field>, k: nat)
    requires k < |fields|
    ensures var c, n := ColumnsUpTo(fields, k), ColumnsUpTo(fields, k + 1);
            n == Columns(c.specs + [Column(fields[k].name, fields[k].datatype_, fields[k].required)], c.order
              + [fields[k].name], c.keys, c.used + {fields[k].name})
  {
    assert fields[..k + 1] == fields[..k] + [fields[k]];
    assert FieldNames(fields[..k + 1]) == FieldNames(fields[..k]) + [fields[k].name];
    assert BackColumns(fields[..k + 1]) == BackColumns(fields[..k])
           + [Column(fields[k].name, fields[k].datatype_, fields[k].required)];
  }

  lemma {:induction false} FieldsRead(t: DbTable, k: nat)
    requires PrintableTable(t) && k <= |t.fields|
    ensures ReadColumns(ColumnParts(t.fields)[k + 1..],
            ColumnsUpTo(t.fields, k)) == Ok(ColumnsUpTo(t.fields, |t.fields|))
    decreases |t.fields| - k
  {
    hide ReadColumn, ColumnTokens, ColumnsUpTo, SafeName, ID_TOKENS;
    var parts := ColumnParts(t.fields)[k + 1..];
    if k < |t.fields| {
      assert parts[0] == ColumnTokens(t.fields[k]) && parts[1..] == ColumnParts(t.fields)[k + 2..];
      UsedUpTo(t, k);
      ColumnRead(t.fields[k], ColumnsUpTo(t.fields, k));
      NotEmptyColumn(t.fields[k]);
      UpToStep(t.fields, k);
      FieldsRead(t, k + 1);
    }
  }

  lemma NotEmptyColumn(f: Field)
    ensures |ColumnTokens(f)| > 0
  {
  }

  lemma UsedUpTo(t: DbTable, k: nat)
    requires PrintableTable(t) && k < |t.fields|
    ensures t.fields[k].name !in ColumnsUpTo(t.fields, k).used
  {
  }

  lemma AllColumnsRead(t: DbTable)
    requires PrintableTable(t)
    ensures ReadColumns(ColumnParts(t.fields), Columns([], [], [], {})) == Ok(ColumnsUpTo(t.fields, |t.fields|))
  {
    hide ReadColumn, SafeName;
    var parts := ColumnParts(t.fields);
    IdRead(Columns([], [], [], {}));
    assert parts[0] == ID_TOKENS && |ID_TOKENS| > 0;
    assert ColumnsUpTo(t.fields, 0) == Columns([], [RECORD_ID], [], {});
    assert [] + [RECORD_ID] == [RECORD_ID];
    FieldsRead(t, 0);
  }

  lemma ColumnSolid(f: Field)
    ensures Solid(ColumnTokens(f), 0)
  {
    var part := ColumnTokens(f);
    assert forall i :: 0 <= i < |part| ==> part[i] != OPEN && part[i] != CLOSE && part[i] != COMMA;
    FlatSolid(part);
  }

  lemma {:induction false} FlatSolid(part: seq<Token>)
    requires forall i :: 0 <= i < |part| ==> part[i] != OPEN && part[i] != CLOSE && part[i] != COMMA
    ensures Solid(part, 0)
  {
    if |part| > 0 { FlatSolid(part[1..]); }
  }

  lemma IdSolid()
    ensures Solid(ID_TOKENS, 0)
  {
    assert ID_TOKENS[1..] == [Word("VARCHAR"), OPEN, Num("64"), CLOSE, Word("PRIMARY"), Word("KEY")];
    var a := ID_TOKENS[1..];
    assert a[1..] == [OPEN, Num("64"), CLOSE, Word("PRIMARY"), Word("KEY")];
    var b := a[1..];
    assert b[1..] == [Num("64"), CLOSE, Word("PRIMARY"), Word("KEY")];
    var c := b[1..];
    assert c[1..] == [CLOSE, Word("PRIMARY"), Word("KEY")];
    var d := c[1..];
    assert d[1..] == [Word("PRIMARY"), Word("KEY")];
    FlatSolid([Word("PRIMARY"), Word("KEY")]);
    assert Solid(d, 1) && Solid(c, 1) && Solid(b, 0) && Solid(a, 0);
  }

  lemma PartsSolid(fields: seq<Field>)
    ensures forall i :: 0 <= i < |ColumnParts(fields)| ==>
              |ColumnParts(fields)[i]| > 0 && Solid(ColumnParts(fields)[i], 0) && Nested(ColumnParts(fields)[i], 0)
  {
    hide Solid, Nested, ID_TOKENS;
    var parts := ColumnParts(fields);
    forall i | 0 <= i < |parts| ensures |parts[i]| > 0 && Solid(parts[i], 0) && Nested(parts[i], 0) {
      if i == 0 { IdSolid(); IdNotEmpty(); } else { ColumnSolid(fields[i - 1]); }
      SolidNested(parts[i], 0);
    }
  }

  lemma IdNotEmpty()
    ensures |ID_TOKENS| > 0
  {
  }

  lemma NoKeys(specs: seq<Column>)
    ensures MarkKeys(specs, []) == specs
  {
  }

  /** The head of a CREATE TABLE. */
  lemma CreateHead(t: DbTable, inner: seq<Token>)
    requires Nested(inner, 0)
    ensures var st := [Word("CREATE"), Word("TABLE"), QIdent(t.name), OPEN] + inner + [CLOSE];
            && |st| == |inner| + 5 && st[0] == Word("CREATE") && st[1] == Word("TABLE") && st[2] == QIdent(t.name)
               && st[3] == OPEN
            && QualifiedName(st, 2) == Ok((t.name, 3)) && GroupAt(st, 3) == Ok(Group(inner, |inner| + 5))
  {
    hide Nested;
    var st := [Word("CREATE"), Word("TABLE"), QIdent(t.name), OPEN] + inner + [CLOSE];
    var pre := [Word("CREATE"), Word("TABLE"), QIdent(t.name)];
    assert st == pre + [OPEN] + inner + [CLOSE] + [];
    GroupSlices(pre, inner, []);
    GroupRead(st, 3, inner);
  }

  /** A CREATE TABLE reads back as its table, or is refused for want of a column. */
  lemma CreateRead(t: DbTable, tables: seq<Table>)
    requires PrintableTable(t)
    ensures |CreateTokens(t)| >= 2
    ensures CreateTable(CreateTokens(t), tables) == if |t.fields| == 0 then Err(NoColumns) else Ok(SetTable(tables, BackTable(t, [])))
  {
    var inner := JoinTokens(ColumnParts(t.fields));
    PartsSolid(t.fields);
    JoinNested(ColumnParts(t.fields));
    PartsOfJoined(ColumnParts(t.fields));
    AllColumnsRead(t);
    Keywords();
    CreateHead(t, inner);
    NameKeyword(t.name);
    SafeHere(t);
    hide JoinTokens, Nested, Solid, ReadColumns, SafeName, ColumnParts, Keyword, PrintableTable, QualifiedName, GroupAt,
         Parts, SetTable;
    var cs := ColumnsUpTo(t.fields, |t.fields|);
    assert t.fields[..|t.fields|] == t.fields;
    NoKeys(cs.specs);
    assert BackRows(t.fields, []) == [];
  }

  lemma SafeHere(t: DbTable)
    requires PrintableTable(t)
    ensures SafeName(t.name) == t.name
  {
  }

  lemma NameKeyword(name: string)
    ensures Keyword(QIdent(name)) == "" && "" != "IF"
  {
  }

  // ---------------------------------------------------------------------- rows

  /** Every printed literal is read as the value it was. */
  lemma LiteralRead(v: Value)
    requires PrintableValue(v)
    ensures Literal(LiteralTokens(v)) == Ok(v)
  {
    LiteralKeywords();
    hide Decimal, NumberLength, Upper;
    match v
    case VInt(n) =>
      if n < 0 {
        DecimalIsNumber(-n);
        assert [Op('-'), Num(Decimal(-n, 1))][1..] == [Num(Decimal(-n, 1))];
      } else {
        DecimalIsNumber(n);
      }
    case VFloat(negative, text) => if negative { assert [Op('-'), Num(text)][1..] == [Num(text)]; }
    case _ =>
  }

  lemma CellsPrintable(fields: seq<Field>, r: Record, i: nat)
    requires i <= |fields| && forall n :: n in r.values ==> PrintableValue(r.values[n])
    ensures PrintableValue(Cells(fields, r)[i])
  {
  }

  lemma CellAt(fields: seq<Field>, r: Record, i: nat)
    requires i < |fields|
    ensures Cells(fields, r)[i + 1] == ValueOf(r, fields[i].name) && Cells(fields, r)[0] == VText(r.recordId)
  {
  }

  lemma BackValuesStep(fields: seq<Field>, r: Record, k: nat)
    requires k < |fields|
    ensures var v := ValueOf(r, fields[k].name);
            BackValues(fields[..k + 1], r) == if v == VNull then BackValues(fields[..k], r) else BackValues(fields[..k], r)[fields[k].name := v]
  {
    assert fields[..k + 1] == fields[..k] + [fields[k]];
    assert FieldNames(fields[..k + 1]) == FieldNames(fields[..k]) + [fields[k].name];
  }

  lemma {:induction false} CellsRead(t: DbTable, r: Record, k: nat)
    requires PrintableTable(t) && k <= |t.fields| && forall n :: n in r.values ==> PrintableValue(r.values[n])
    ensures ReadCells(([RECORD_ID] + FieldNames(t.fields))[k + 1..], CellTokens(t.fields, r)[k + 1..],
                      Row(BackValues(t.fields[..k], r), Some(r.recordId)))
            == Ok(BackRow(t.fields, r))
    decreases |t.fields| - k
  {
    hide Literal, LiteralTokens, Cells, BackValues, SafeName, PrintableValue;
    var columns, cells := ([RECORD_ID] + FieldNames(t.fields))[k + 1..], CellTokens(t.fields, r)[k + 1..];
    if k < |t.fields| {
      var v := ValueOf(r, t.fields[k].name);
      CellAt(t.fields, r, k);
      CellsPrintable(t.fields, r, k + 1);
      LiteralRead(v);
      BackValuesStep(t.fields, r, k);
      assert columns[0] == t.fields[k].name && columns[1..] == ([RECORD_ID] + FieldNames(t.fields))[k + 2..];
      assert cells[0] == LiteralTokens(v) && cells[1..] == CellTokens(t.fields, r)[k + 2..];
      CellsRead(t, r, k + 1);
    } else {
      assert t.fields[..k] == t.fields;
    }
  }

  lemma RowRead(t: DbTable, r: Record)
    requires PrintableTable(t) && forall n :: n in r.values ==> PrintableValue(r.values[n])
    ensures ReadCells([RECORD_ID] + FieldNames(t.fields), CellTokens(t.fields, r), Row(map[], None)) == Ok(BackRow(t.fields, r))
  {
    hide Literal, LiteralTokens, SafeName, PrintableValue;
    var columns, cells := [RECORD_ID] + FieldNames(t.fields), CellTokens(t.fields, r);
    FirstCell(t.fields, r);
    assert columns[0] == RECORD_ID && cells[0] == LiteralTokens(VText(r.recordId));
    assert Literal(cells[0]) == Ok(VText(r.recordId)) by { IdLiteral(r.recordId); }
    assert BackValues(t.fields[..0], r) == map[];
    CellsRead(t, r, 0);
  }

  lemma IdLiteral(s: string)
    ensures Literal(LiteralTokens(VText(s))) == Ok(VText(s))
  {
    LiteralRead(VText(s));
  }

  lemma FirstCell(fields: seq<Field>, r: Record)
    ensures Cells(fields, r)[0] == VText(r.recordId)
  {
  }

  lemma LiteralFlat(v: Value)
    ensures |LiteralTokens(v)| > 0 && SEMICOLON !in LiteralTokens(v)
    ensures forall i :: 0 <= i < |LiteralTokens(v)| ==> LiteralTokens(v)[i] != OPEN && LiteralTokens(v)[i] != CLOSE && LiteralTokens(v)[i] != COMMA
  {
    hide Decimal;
  }

  lemma CellsSolid(fields: seq<Field>, r: Record)
    ensures forall i :: 0 <= i < |CellTokens(fields, r)| ==>
              |CellTokens(fields, r)[i]| > 0 && Solid(CellTokens(fields, r)[i], 0)
                && Nested(CellTokens(fields, r)[i], 0)
  {
    hide LiteralTokens, Solid, Nested;
    forall i | 0 <= i < |CellTokens(fields, r)|
      ensures |CellTokens(fields, r)[i]| > 0 && Solid(CellTokens(fields, r)[i], 0)
              && Nested(CellTokens(fields, r)[i], 0)
    {
      LiteralFlat(Cells(fields, r)[i]);
      FlatSolid(CellTokens(fields, r)[i]);
      SolidNested(CellTokens(fields, r)[i], 0);
    }
  }

  predicate PrintableRows(rows: seq<Record>) {
    forall i, n :: 0 <= i < |rows| && n in rows[i].values ==> PrintableValue(rows[i].values[n])
  }

  /** One group of cells, and what comes after it. */
  lemma GroupStep(st: seq<Token>, pos: nat, columns: seq<string>, cells: seq<seq<Token>>, rest: seq<Token>, row: Row)
    requires pos <= |st| && st[pos..] == [] + [OPEN] + JoinTokens(cells) + [CLOSE] + rest
    requires forall i :: 0 <= i < |cells| ==> |cells[i]| > 0 && Solid(cells[i], 0) && Nested(cells[i], 0)
    requires |cells| == |columns| && ReadCells(columns, cells, Row(map[], None)) == Ok(row)
    ensures var next := pos + |JoinTokens(cells)| + 2;
            && next <= |st| && st[next..] == rest
            && ReadRows(st, pos, columns)
               == if ReadRows(st, next, columns).Ok? then Ok([row] + ReadRows(st, next, columns).value) else ReadRows(st, next, columns)
  {
    JoinNested(cells);
    PartsOfJoined(cells);
    hide JoinTokens, Nested, Solid, ReadCells, Parts, GroupAt;
    GroupAfter(st, pos, JoinTokens(cells), rest);
  }

  /** The groups after VALUES read back as the rows. */
  lemma {:induction false} RowsRead(t: DbTable, rows: seq<Record>, st: seq<Token>, pos: nat)
    requires PrintableTable(t) && PrintableRows(rows) && pos <= |st|
             && st[pos..] == JoinTokens(RowGroups(t.fields, rows))
    ensures ReadRows(st, pos, [RECORD_ID] + FieldNames(t.fields)) == Ok(BackRows(t.fields, rows))
    decreases |rows|
  {
    hide ReadCells, CellTokens, PrintableValue, SafeName, BackRow, Nested, Solid, PrintableTable, PrintableRows,
         ReadRows, RowGroups, BackRows,
      JoinTokens, FieldNames;
    var columns := [RECORD_ID] + FieldNames(t.fields);
    if |rows| == 0 {
      NothingJoined(t.fields, rows);
      NoRows(st, pos, columns);
    } else {
      var rest := if |rows| == 1 then [] else [COMMA] + JoinTokens(RowGroups(t.fields, rows[1..]));
      RowsHead(rows);
      RowGroupsSplit(t.fields, rows, rest);
      var next := FirstRow(t, rows[0], st, pos, rest);
      BackRowsHead(t.fields, rows);
      if |rows| > 1 {
        AfterComma(st, next, JoinTokens(RowGroups(t.fields, rows[1..])));
        RowsRead(t, rows[1..], st, next + 1);
        SkipComma(st, next, columns);
      } else {
        NoRows(st, next, columns);
        NothingJoined(t.fields, rows[1..]);
      }
    }
  }

  lemma FirstRow(t: DbTable, r: Record, st: seq<Token>, pos: nat, rest: seq<Token>) returns (next: nat)
    requires PrintableTable(t) && forall n :: n in r.values ==> PrintableValue(r.values[n])
    requires pos <= |st| && st[pos..] == [] + [OPEN] + JoinTokens(CellTokens(t.fields, r)) + [CLOSE] + rest
    ensures next <= |st| && st[next..] == rest
    ensures var columns := [RECORD_ID] + FieldNames(t.fields);
            ReadRows(st, pos, columns)
            == if ReadRows(st, next, columns).Ok? then Ok([BackRow(t.fields, r)] + ReadRows(st, next, columns).value) else ReadRows(st, next, columns)
  {
    CellsSolid(t.fields, r);
    RowRead(t, r);
    hide JoinTokens, CellTokens, ReadRows, ReadCells, BackRow, PrintableTable, PrintableValue, Nested, Solid,
         FieldNames;
    var cells := CellTokens(t.fields, r);
    next := pos + |JoinTokens(cells)| + 2;
    GroupStep(st, pos, [RECORD_ID] + FieldNames(t.fields), cells, rest, BackRow(t.fields, r));
  }

  lemma NothingJoined(fields: seq<Field>, rows: seq<Record>)
    requires |rows| == 0
    ensures JoinTokens(RowGroups(fields, rows)) == [] && BackRows(fields, rows) == []
  {
  }

  lemma RowsHead(rows: seq<Record>)
    requires |rows| > 0 && PrintableRows(rows)
    ensures PrintableRows(rows[1..]) && forall n :: n in rows[0].values ==> PrintableValue(rows[0].values[n])
  {
    hide PrintableValue;
  }

  lemma BackRowsHead(fields: seq<Field>, rows: seq<Record>)
    requires |rows| > 0
    ensures BackRows(fields, rows) == [BackRow(fields, rows[0])] + BackRows(fields, rows[1..])
  {
    hide BackRow;
  }

  lemma RowGroupsSplit(fields: seq<Field>, rows: seq<Record>, rest: seq<Token>)
    requires |rows| > 0 && rest == if |rows| == 1 then [] else [COMMA] + JoinTokens(RowGroups(fields, rows[1..]))
    ensures JoinTokens(RowGroups(fields, rows)) == [] + [OPEN] + JoinTokens(CellTokens(fields, rows[0])) + [CLOSE]
            + rest
  {
    hide CellTokens;
    var groups := RowGroups(fields, rows);
    assert groups[1..] == RowGroups(fields, rows[1..]) && groups[0] == RowTokens(fields, rows[0]);
    var first := JoinTokens(CellTokens(fields, rows[0]));
    assert [] + [OPEN] + first + [CLOSE] == RowTokens(fields, rows[0]);
  }

  lemma AfterComma(st: seq<Token>, next: nat, more: seq<Token>)
    requires next <= |st| && st[next..] == [COMMA] + more
    ensures next < |st| && st[next] == COMMA && st[next + 1..] == more
  {
    assert st[next..][0] == COMMA && st[next..][1..] == more;
  }

  lemma SkipComma(st: seq<Token>, pos: nat, columns: seq<string>)
    requires pos < |st| && st[pos] == COMMA
    ensures ReadRows(st, pos, columns) == ReadRows(st, pos + 1, columns)
  {
  }

  lemma NoRows(st: seq<Token>, pos: nat, columns: seq<string>)
    requires pos <= |st| && st[pos..] == []
    ensures ReadRows(st, pos, columns) == Ok([])
  {
    assert pos == |st|;
  }

  lemma GroupAfter(st: seq<Token>, pos: nat, inner: seq<Token>, rest: seq<Token>)
    requires Nested(inner, 0) && pos <= |st| && st[pos..] == [] + [OPEN] + inner + [CLOSE] + rest
    ensures pos + |inner| + 2 <= |st| && st[pos] == OPEN && st[pos] != COMMA
    ensures GroupAt(st, pos) == Ok(Group(inner, pos + |inner| + 2)) && st[pos + |inner| + 2..] == rest
  {
    hide Nested;
    GroupSlices([], inner, rest);
    var tail := st[pos..];
    assert st[pos] == tail[0] && st[pos + 1..pos + 1 + |inner|] == tail[1..1 + |inner|]
           && st[pos + 1 + |inner|] == tail[1 + |inner|];
    assert st[pos + |inner| + 2..] == tail[|inner| + 2..];
    GroupRead(st, pos, inner);
  }

  lemma {:induction false} NamesRead(fields: seq<Field>, k: nat)
    requires k <= |fields| && forall i :: 0 <= i < |fields| ==> Safe(fields[i].name) && fields[i].name != RECORD_ID
    ensures ColumnNames(JoinTokens(NameParts(fields)[k + 1..])) == FieldNames(fields)[k..]
    decreases |fields| - k
  {
    hide SafeName, JoinTokens, ColumnNames, NameParts, FieldNames, ColumnName;
    NamesSplit(fields, k);
    if k < |fields| {
      NamesRead(fields, k + 1);
      NameKept(fields[k].name);
      NameListStep(fields[k].name, NameParts(fields)[k + 2..]);
    } else {
      JoinNothing();
    }
  }

  lemma NamesSplit(fields: seq<Field>, k: nat)
    requires k <= |fields|
    ensures k == |fields| ==> NameParts(fields)[k + 1..] == [] && FieldNames(fields)[k..] == []
    ensures k < |fields| ==> NameParts(fields)[k + 1..] == [[QIdent(fields[k].name)]] + NameParts(fields)[k + 2..]
    ensures k < |fields| ==> FieldNames(fields)[k..] == [fields[k].name] + FieldNames(fields)[k + 1..]
  {
  }

  lemma NameKept(name: string)
    requires Safe(name) && name != RECORD_ID
    ensures ColumnName(QIdent(name)) == name
  {
    SafeLower(name);
    hide SafeName;
  }

  lemma NameListStep(name: string, more: seq<seq<Token>>)
    ensures ColumnNames(JoinTokens([[QIdent(name)]] + more)) == [ColumnName(QIdent(name))]
            + ColumnNames(JoinTokens(more))
  {
    hide ColumnName;
    var q := QIdent(name);
    var rest := if |more| == 0 then [] else [COMMA] + JoinTokens(more);
    JoinFirst(q, more, rest);
    hide JoinTokens;
    FirstName(q, rest);
    if |more| > 0 { SkipName(JoinTokens(more)); } else { JoinNothing(); }
  }

  lemma JoinNothing()
    ensures JoinTokens([]) == [] && ColumnNames([]) == []
  {
  }

  lemma JoinFirst(q: Token, more: seq<seq<Token>>, rest: seq<Token>)
    requires rest == if |more| == 0 then [] else [COMMA] + JoinTokens(more)
    ensures JoinTokens([[q]] + more) == [q] + rest
  {
    assert ([[q]] + more)[1..] == more;
    if |more| > 0 { Regrouped([q], [COMMA], JoinTokens(more)); }
  }

  lemma Regrouped(a: seq<Token>, b: seq<Token>, c: seq<Token>)
    ensures a + b + c == a + (b + c)
  {
  }

  lemma FirstName(q: Token, rest: seq<Token>)
    requires IsIdent(q)
    ensures ColumnNames([q] + rest) == [ColumnName(q)] + ColumnNames(rest)
  {
    assert ([q] + rest)[1..] == rest;
  }

  lemma SkipName(rest: seq<Token>)
    ensures ColumnNames([COMMA] + rest) == ColumnNames(rest)
  {
    assert ([COMMA] + rest)[1..] == rest;
    assert [] + ColumnNames(rest) == ColumnNames(rest);
  }

  lemma AllNamesRead(t: DbTable)
    requires PrintableTable(t)
    ensures ColumnNames(JoinTokens(NameParts(t.fields))) == [RECORD_ID] + FieldNames(t.fields)
    ensures Nested(JoinTokens(NameParts(t.fields)), 0)
  {
    hide SafeName;
    var parts := NameParts(t.fields);
    NamesRead(t.fields, 0);
    assert parts == [[QIdent(RECORD_ID)]] + parts[1..];
    NameListStep(RECORD_ID, parts[1..]);
    assert Lower(RECORD_ID) == RECORD_ID;
    assert FieldNames(t.fields)[0..] == FieldNames(t.fields);
    forall i | 0 <= i < |parts| ensures Nested(parts[i], 0) { assert |parts[i]| == 1; OneNested(parts[i][0]); assert parts[i] == [parts[i][0]]; }
    JoinNested(parts);
  }

  lemma OneNested(q: Token)
    requires q != OPEN && q != CLOSE
    ensures Nested([q], 0)
  {
    assert [q][1..] == [];
  }

  /** The head of an INSERT. */
  lemma HeadRead(t: DbTable, names: seq<Token>, groups: seq<Token>)
    requires Nested(names, 0)
    ensures var st := [Word("INSERT"), Word("INTO"), QIdent(t.name), OPEN] + names + [CLOSE, Word("VALUES")] + groups;
            && |st| == |names| + |groups| + 6 && st[1] == Word("INTO") && st[0] == Word("INSERT")
            && QualifiedName(st, 2) == Ok((t.name, 3))
            && InsertColumns(st, 3) == Ok((Some(ColumnNames(names)), |names| + 5))
            && st[|names| + 5] == Word("VALUES") && st[|names| + 6..] == groups
  {
    hide Nested, ColumnNames;
    var st := [Word("INSERT"), Word("INTO"), QIdent(t.name), OPEN] + names + [CLOSE, Word("VALUES")] + groups;
    var pre, post := [Word("INSERT"), Word("INTO"), QIdent(t.name)], [Word("VALUES")] + groups;
    HeadShape(pre, names, groups);
    GroupSlices(pre, names, post);
    GroupRead(st, 3, names);
    assert st[|names| + 5..] == post;
    assert st[|names| + 5] == post[0] && st[|names| + 6..] == post[1..];
    assert st[2] == QIdent(t.name) && st[3] == OPEN;
  }

  lemma HeadShape(pre: seq<Token>, names: seq<Token>, groups: seq<Token>)
    requires |pre| == 3
    ensures [pre[0], pre[1], pre[2], OPEN] + names + [CLOSE, Word("VALUES")] + groups
            == pre + [OPEN] + names + [CLOSE] + ([Word("VALUES")] + groups)
  {
  }

  /** An INSERT appends its rows to the table that was created. */
  lemma InsertRead(t: DbTable, rows: seq<Record>, tables: seq<Table>, i: nat, done: seq<Record>)
    requires PrintableTable(t) && PrintableRows(rows) && |rows| > 0
    requires i < |tables| && IndexOf(tables, t.name) == i && tables[i] == BackTable(t, done)
    ensures |InsertTokens(t, rows)| >= 1
    ensures Insert(InsertTokens(t, rows), tables) == Ok(tables[i := BackTable(t, done + rows)])
  {
    var names, groups := JoinTokens(NameParts(t.fields)), JoinTokens(RowGroups(t.fields, rows));
    AllNamesRead(t);
    SafeHere(t);
    HeadRead(t, names, groups);
    hide JoinTokens, Nested, SafeName, ReadRows, RowGroups, NameParts, PrintableTable, PrintableRows, ColumnNames,
         IndexOf,
      QualifiedName, InsertColumns, BackRows, Insert;
    var st := InsertTokens(t, rows);
    RowsRead(t, rows, st, |names| + 6);
    BackRowsAppend(t.fields, done, rows);
    InsertSteps(st, tables, t.name, [RECORD_ID] + FieldNames(t.fields), |names| + 5, BackRows(t.fields, rows), i);
    assert BackTable(t, done).(rows := BackRows(t.fields, done) + BackRows(t.fields, rows)) == BackTable(t, done
           + rows);
  }

  lemma InsertSteps(st: seq<Token>, tables: seq<Table>, name: string, columns: seq<string>, at: nat, rows: seq<Row>,
                    i: nat)
    requires |st| > at > 2 && st[1] == Word("INTO") && st[at] == Word("VALUES")
    requires QualifiedName(st, 2) == Ok((name, 3)) && InsertColumns(st, 3) == Ok((Some(columns), at))
             && SafeName(name) == name
    requires i < |tables| && IndexOf(tables, name) == i && tables[i].name == name
    requires ReadRows(st, at + 1, columns) == Ok(rows)
    ensures Insert(st, tables) == Ok(tables[i := tables[i].(rows := tables[i].rows + rows)])
  {
    Keywords();
    var t := tables[i].(rows := tables[i].rows + rows);
    SetFound(tables, t, i);
    hide QualifiedName, InsertColumns, SafeName, IndexOf, ReadRows, Keyword, SetTable;
    assert Keyword(st[1]) == "INTO" && Keyword(st[at]) == "VALUES";
  }

  lemma SetFound(tables: seq<Table>, t: Table, i: nat)
    requires i < |tables| && IndexOf(tables, t.name) == i
    ensures SetTable(tables, t) == tables[i := t]
  {
    hide IndexOf;
  }

  lemma BackRowsAppend(fields: seq<Field>, xs: seq<Record>, ys: seq<Record>)
    ensures BackRows(fields, xs + ys) == BackRows(fields, xs) + BackRows(fields, ys)
  {
  }
}
