/** The export and import of a database as they run, proved against the functions
    that specify the script and its reading. */
module SqlMethods {
  // Lines appended in loops (mdc/src/mdc/portability/writers.py:201-226), and
  // index-advancing scans over the tokens
  // (mdc/src/mdc/portability/readers.py:270-383, 469-512).

  import opened KeySpace
  import opened Outcomes
  import opened SqlLexer
  import opened SqlReader
  import opened SqlWriter
  import opened SqlImport
  import opened SqlScript

  // ------------------------------------------------------------------- writing

  /** `_q`. */
  function Quoted(name: string): string {
    "\"" + Doubled(name, '"') + "\""
  }

  function TypeText(t: Datatype): string {
    match t
    case TString => "VARCHAR"
    case TDecimal => "DOUBLE PRECISION"
    case TInteger => "BIGINT"
    case TBoolean => "BOOLEAN"
    case TDatetime => "TIMESTAMP"
  }

  function ColumnText(f: Field): string {
    "  " + Quoted(f.name) + " " + TypeText(f.datatype_) + (if f.required then " NOT NULL" else "")
  }

  function LiteralText(v: Value): string {
    match v
    case VNull => "NULL"
    case VBool(b) => if b then "TRUE" else "FALSE"
    case VInt(n) => if n < 0 then "-" + Decimal(-n, 1) else Decimal(n, 1)
    case VFloat(negative, text) => (if negative then "-" else "") + text
    case VText(s) => "'" + Doubled(s, '\'') + "'"
  }

  /** `sep.join(xs)`. */
  function JoinText(xs: seq<string>, sep: string): string
  {
    if |xs| == 0 then "" else if |xs| == 1 then xs[0] else xs[0] + sep + JoinText(xs[1..], sep)
  }

  function ColumnTexts(fields: seq<Field>): (r: seq<string>)
    ensures |r| == |fields| + 1
  {
    ["  " + Quoted("record_id") + " VARCHAR(64) PRIMARY KEY"] + seq(|fields|, i requires 0 <= i < |fields| => ColumnText(fields[i]))
  }

  function CreateText(t: DbTable): string {
    "CREATE TABLE " + Quoted(t.name) + " (\n" + JoinText(ColumnTexts(t.fields), ",\n") + "\n);"
  }

  function NameTexts(fields: seq<Field>): (r: seq<string>)
    ensures |r| == |fields| + 1
  {
    [Quoted("record_id")] + seq(|fields|, i requires 0 <= i < |fields| => Quoted(fields[i].name))
  }

  function CellTexts(fields: seq<Field>, r: Record): (cs: seq<string>)
    ensures |cs| == |fields| + 1
  {
    seq(|fields| + 1, i requires 0 <= i < |fields| + 1 => LiteralText(Cells(fields, r)[i]))
  }

  function RowText(fields: seq<Field>, r: Record): string {
    "  (" + JoinText(CellTexts(fields, r), ", ") + ")"
  }

  function RowTexts(fields: seq<Field>, rows: seq<Record>): (r: seq<string>)
    ensures |r| == |rows|
  {
    seq(|rows|, i requires 0 <= i < |rows| => RowText(fields, rows[i]))
  }

  function HeadText(t: DbTable): string {
    "INSERT INTO " + Quoted(t.name) + " (" + JoinText(NameTexts(t.fields), ", ") + ") VALUES"
  }

  lemma {:induction false} RenderAppend(xs: seq<Lexeme>, ys: seq<Lexeme>)
    ensures Render(xs + ys) == Render(xs) + Render(ys)
  {
    hide SqlLexer.Text;
    if |xs| == 0 {
      assert xs + ys == ys;
    } else {
      assert (xs + ys)[1..] == xs[1..] + ys;
      RenderAppend(xs[1..], ys);
    }
  }

  function AllTexts(xs: seq<seq<Lexeme>>): (r: seq<string>)
    ensures |r| == |xs|
  {
    seq(|xs|, i requires 0 <= i < |xs| => Render(xs[i]))
  }

  lemma {:induction false} RenderJoined(xs: seq<seq<Lexeme>>, sep: seq<Lexeme>)
    ensures Render(SqlWriter.Joined(xs, sep)) == JoinText(AllTexts(xs), Render(sep))
  {
    hide Render;
    if |xs| == 0 {
      NoText();
    } else if |xs| > 1 {
      RenderJoined(xs[1..], sep);
      RenderAppend(xs[0], sep);
      RenderAppend(xs[0] + sep, SqlWriter.Joined(xs[1..], sep));
      assert AllTexts(xs)[1..] == AllTexts(xs[1..]);
    }
  }

  lemma NoText()
    ensures Render([]) == ""
  {
  }

  lemma RenderOne(a: Lexeme)
    ensures Render([a]) == SqlLexer.Text(a)
  {
    assert [a][1..] == [];
  }

  lemma RenderTwo(a: Lexeme, b: Lexeme)
    ensures Render([a, b]) == SqlLexer.Text(a) + SqlLexer.Text(b)
  {
    RenderOne(b);
    assert [a, b][1..] == [b];
  }

  lemma RenderFour(a: Lexeme, b: Lexeme, c: Lexeme, d: Lexeme)
    ensures Render([a, b, c, d]) == SqlLexer.Text(a) + SqlLexer.Text(b) + (SqlLexer.Text(c) + SqlLexer.Text(d))
  {
    hide SqlLexer.Text;
    RenderTwo(a, b);
    RenderTwo(c, d);
    assert [a, b, c, d] == [a, b] + [c, d];
    RenderAppend([a, b], [c, d]);
  }

  lemma TypeRendered(t: Datatype)
    ensures Render(TypeLexemes(t)) == TypeText(t)
  {
    match t
    case TDecimal =>
      RenderTwo(LWord("DOUBLE"), LBlank);
      RenderOne(LWord("PRECISION"));
      RenderAppend([LWord("DOUBLE"), LBlank], [LWord("PRECISION")]);
      assert "DOUBLE" + " " + "PRECISION" == "DOUBLE PRECISION";
    case _ => RenderOne(TypeLexemes(t)[0]);
  }

  lemma ColumnRendered(f: Field)
    ensures Render(ColumnLexemes(f)) == ColumnText(f)
  {
    RenderFour(LBlank, LBlank, LQuoted(f.name), LBlank);
    RenderFour(LBlank, LWord("NOT"), LBlank, LWord("NULL"));
    TypeRendered(f.datatype_);
    NoText();
    hide Render, Doubled, TypeText, TypeLexemes;
    var start := [LBlank, LBlank, LQuoted(f.name), LBlank];
    var end := if f.required then [LBlank, LWord("NOT"), LBlank, LWord("NULL")] else [];
    RenderAppend(start, TypeLexemes(f.datatype_));
    RenderAppend(start + TypeLexemes(f.datatype_), end);
    assert " " + "NOT" + (" " + "NULL") == " NOT NULL";
    assert " " + " " + (Quoted(f.name) + " ") == "  " + Quoted(f.name) + " ";
  }

  lemma IdRendered()
    ensures Render(ID_COLUMN) == "  " + Quoted("record_id") + " VARCHAR(64) PRIMARY KEY"
  {
    var a := [LBlank, LBlank, LQuoted("record_id"), LBlank];
    var b := [LWord("VARCHAR"), LPunct('('), LNumber("64"), LPunct(')')];
    var c := [LBlank, LWord("PRIMARY"), LBlank, LWord("KEY")];
    RenderFour(LBlank, LBlank, LQuoted("record_id"), LBlank);
    RenderFour(LWord("VARCHAR"), LPunct('('), LNumber("64"), LPunct(')'));
    RenderFour(LBlank, LWord("PRIMARY"), LBlank, LWord("KEY"));
    hide Render, Doubled;
    RenderAppend(a, b);
    RenderAppend(a + b, c);
    assert ID_COLUMN == a + b + c;
    var q := Quoted("record_id");
    assert Render(a) == " " + " " + (q + " ");
    IdType(q);
  }

  lemma IdType(q: string)
    ensures (" " + " " + (q + " ")) + ("VARCHAR" + "(" + ("64" + ")")) + (" " + "PRIMARY" + (" " + "KEY")) == "  " + q
            + " VARCHAR(64) PRIMARY KEY"
  {
    var b, c := "VARCHAR" + "(" + ("64" + ")"), " " + "PRIMARY" + (" " + "KEY");
    IdWords();
    assert (" " + " " + (q + " ")) + b + c == ("  " + q) + (" " + b + c);
  }

  lemma IdWords()
    ensures " " + ("VARCHAR" + "(" + ("64" + ")")) + (" " + "PRIMARY" + (" " + "KEY")) == " VARCHAR(64) PRIMARY KEY"
  {
  }

  lemma LiteralRendered(v: Value)
    ensures Render(LiteralLexemes(v)) == LiteralText(v)
  {
    hide Decimal, Doubled;
    match v
    case VInt(n) => if n < 0 { RenderTwo(LMinus, LNumber(Decimal(-n, 1))); } else { RenderOne(LNumber(Decimal(n, 1))); }
    case VFloat(negative, text) => if negative { RenderTwo(LMinus, LNumber(text)); } else { RenderOne(LNumber(text)); }
    case _ => RenderOne(LiteralLexemes(v)[0]);
  }

  lemma Separators()
    ensures Render([LPunct(','), LNewline]) == ",\n" && Render([LPunct(','), LBlank]) == ", "
  {
    RenderTwo(LPunct(','), LNewline);
    RenderTwo(LPunct(','), LBlank);
  }

  lemma CreateRendered(t: DbTable)
    ensures Render(CreateLine(t)) == CreateText(t)
  {
    hide Render, ColumnLexemes, ColumnText, ID_COLUMN, Doubled, JoinText;
    var lines := ColumnLines(t.fields);
    Separators();
    RenderJoined(lines, [LPunct(','), LNewline]);
    forall i | 0 <= i < |lines| ensures AllTexts(lines)[i] == ColumnTexts(t.fields)[i] {
      if i == 0 { IdRendered(); } else { ColumnRendered(t.fields[i - 1]); }
    }
    assert AllTexts(lines) == ColumnTexts(t.fields);
    CreateAroundText(t.name, SqlWriter.Joined(lines, [LPunct(','), LNewline]));
  }

  lemma CreateAroundText(name: string, body: seq<Lexeme>)
    ensures Render(CREATE_HEAD + [LQuoted(name), LBlank, LPunct('('), LNewline] + body + [LNewline, LPunct(')'),
            LPunct(';')])
            == "CREATE TABLE " + Quoted(name) + " (\n" + Render(body) + "\n);"
  {
    RenderFour(LWord("CREATE"), LBlank, LWord("TABLE"), LBlank);
    RenderFour(LQuoted(name), LBlank, LPunct('('), LNewline);
    RenderTwo(LNewline, LPunct(')'));
    RenderOne(LPunct(';'));
    hide Render, Doubled;
    var b, c := [LQuoted(name), LBlank, LPunct('('), LNewline], [LNewline, LPunct(')')] + [LPunct(';')];
    RenderAppend(CREATE_HEAD, b);
    RenderAppend(CREATE_HEAD + b, body);
    RenderAppend([LNewline, LPunct(')')], [LPunct(';')]);
    assert [LNewline, LPunct(')'), LPunct(';')] == c;
    RenderAppend(CREATE_HEAD + b + body, c);
    assert Render(CREATE_HEAD) == "CREATE TABLE ";
    assert Render(b) == Quoted(name) + " (\n";
    assert Render(c) == "\n);";
    assert "CREATE TABLE " + (Quoted(name) + " (\n") == "CREATE TABLE " + Quoted(name) + " (\n";
  }

  lemma RowRendered(fields: seq<Field>, r: Record)
    ensures Render(RowLexemes(fields, r)) == RowText(fields, r)
  {
    hide Render, LiteralLexemes, LiteralText, JoinText, Cells;
    var vs := Cells(fields, r);
    var cells := seq(|vs|, i requires 0 <= i < |vs| => LiteralLexemes(vs[i]));
    Separators();
    RenderJoined(cells, [LPunct(','), LBlank]);
    forall i | 0 <= i < |vs| ensures AllTexts(cells)[i] == CellTexts(fields, r)[i] { LiteralRendered(vs[i]); }
    assert AllTexts(cells) == CellTexts(fields, r);
    RowAroundText(SqlWriter.Joined(cells, [LPunct(','), LBlank]));
  }

  lemma RowAroundText(body: seq<Lexeme>)
    ensures Render([LBlank, LBlank, LPunct('(')] + body + [LPunct(')')]) == "  (" + Render(body) + ")"
  {
    RenderTwo(LBlank, LBlank);
    RenderOne(LPunct('('));
    RenderOne(LPunct(')'));
    hide Render;
    assert [LBlank, LBlank, LPunct('(')] == [LBlank, LBlank] + [LPunct('(')];
    RenderAppend([LBlank, LBlank], [LPunct('(')]);
    RenderAppend([LBlank, LBlank, LPunct('(')], body);
    RenderAppend([LBlank, LBlank, LPunct('(')] + body, [LPunct(')')]);
  }

  lemma HeadRendered(t: DbTable)
    ensures Render(InsertHead(t)) == HeadText(t)
  {
    var names := NameLexemes(t.fields);
    Separators();
    RenderJoined(names, [LPunct(','), LBlank]);
    hide JoinText, Doubled;
    forall i | 0 <= i < |names| ensures AllTexts(names)[i] == NameTexts(t.fields)[i] {
      RenderOne(if i == 0 then LQuoted("record_id") else LQuoted(t.fields[i - 1].name));
    }
    assert AllTexts(names) == NameTexts(t.fields);
    HeadAroundText(t.name, SqlWriter.Joined(names, [LPunct(','), LBlank]));
  }

  lemma HeadAroundText(name: string, body: seq<Lexeme>)
    ensures Render([LWord("INSERT"), LBlank, LWord("INTO"), LBlank, LQuoted(name), LBlank, LPunct('(')] + body
            + [LPunct(')'), LBlank, LWord("VALUES")])
            == "INSERT INTO " + Quoted(name) + " (" + Render(body) + ") VALUES"
  {
    RenderFour(LWord("INSERT"), LBlank, LWord("INTO"), LBlank);
    RenderTwo(LQuoted(name), LBlank);
    RenderOne(LPunct('('));
    RenderTwo(LPunct(')'), LBlank);
    RenderOne(LWord("VALUES"));
    hide Render, Doubled;
    var a, b, c := [LWord("INSERT"), LBlank, LWord("INTO"), LBlank], [LQuoted(name), LBlank], [LPunct('(')];
    assert [LWord("INSERT"), LBlank, LWord("INTO"), LBlank, LQuoted(name), LBlank, LPunct('(')] == a + b + c;
    RenderAppend(a, b);
    RenderAppend(a + b, c);
    RenderAppend(a + b + c, body);
    var d := [LPunct(')'), LBlank] + [LWord("VALUES")];
    assert [LPunct(')'), LBlank, LWord("VALUES")] == d;
    RenderAppend([LPunct(')'), LBlank], [LWord("VALUES")]);
    RenderAppend(a + b + c + body, d);
    assert Render(a) == "INSERT INTO ";
    assert Render(d) == ") VALUES";
    assert "INSERT INTO " + (Quoted(name) + " ") + "(" == "INSERT INTO " + Quoted(name) + " (";
  }

  lemma InsertRendered(t: DbTable, rows: seq<Record>)
    ensures Render(InsertLine(t, rows)) == HeadText(t) + "\n" + JoinText(RowTexts(t.fields, rows), ",\n") + ";"
  {
    hide Render, RowLexemes, RowText, JoinText, InsertHead, HeadText;
    var groups := seq(|rows|, i requires 0 <= i < |rows| => RowLexemes(t.fields, rows[i]));
    Separators();
    RenderJoined(groups, [LPunct(','), LNewline]);
    forall i | 0 <= i < |rows| ensures AllTexts(groups)[i] == RowTexts(t.fields, rows)[i] { RowRendered(t.fields, rows[i]); }
    assert AllTexts(groups) == RowTexts(t.fields, rows);
    HeadRendered(t);
    RenderOne(LNewline);
    RenderOne(LPunct(';'));
    var body := SqlWriter.Joined(groups, [LPunct(','), LNewline]);
    RenderAppend(InsertHead(t), [LNewline]);
    RenderAppend(InsertHead(t) + [LNewline], body);
    RenderAppend(InsertHead(t) + [LNewline] + body, [LPunct(';')]);
  }

  lemma OneLineMore(done: seq<seq<Lexeme>>, l: seq<Lexeme>)
    ensures Render(Lines(done + [l])) == Render(Lines(done)) + "\n" + Render(l)
  {
    RenderOne(LNewline);
    hide Render, Lines;
    SqlRoundTrip.LinesAppend(done, [l]);
    LastLine(l);
    RenderAppend(Lines(done), [LNewline] + l);
    RenderAppend([LNewline], l);
    assert Render(Lines(done)) + ("\n" + Render(l)) == Render(Lines(done)) + "\n" + Render(l);
  }

  lemma LastLine(l: seq<Lexeme>)
    ensures Lines([l]) == [LNewline] + l
  {
    assert [l][1..] == [] && [LNewline] + l + [] == [LNewline] + l;
  }

  /** One table's INSERTs, a hundred rows at a time. */
  method WriteRows(t: DbTable, text: string, ghost done: seq<seq<Lexeme>>) returns (out: string)
    requires text == Render(Lines(done))
    ensures out == Render(Lines(done + InsertLinesOf(t, Chunks(t.rows)) + (if |t.rows| > 0 then [[]] else [])))
  {
    hide Render, Lines, HeadText, RowTexts, JoinText, InsertLine, Chunks;
    out := text;
    ghost var lines := done;
    var head := HeadText(t);
    var start := 0;
    assert t.rows[0..] == t.rows;
    while start < |t.rows|
      invariant 0 <= start <= |t.rows|
      invariant out == Render(Lines(lines))
      invariant lines + InsertLinesOf(t, Chunks(t.rows[start..])) == done + InsertLinesOf(t, Chunks(t.rows))
      decreases |t.rows| - start
    {
      var end := if start + CHUNK <= |t.rows| then start + CHUNK else |t.rows|;
      var chunk := t.rows[start..end];
      ChunkSplit(t.rows, start, end);
      InsertRendered(t, chunk);
      OneLineMore(lines, InsertLine(t, chunk));
      InsertLinesStep(t, chunk, Chunks(t.rows[end..]));
      assert lines + ([InsertLine(t, chunk)] + InsertLinesOf(t, Chunks(t.rows[end..])))
             == lines + [InsertLine(t, chunk)] + InsertLinesOf(t, Chunks(t.rows[end..]));
      out := out + "\n" + (head + "\n" + JoinText(RowTexts(t.fields, chunk), ",\n") + ";");
      lines := lines + [InsertLine(t, chunk)];
      start := end;
    }
    NoChunks(t);
    assert t.rows[start..] == [];
    assert lines + [] == lines;
    if |t.rows| > 0 {
      OneLineMore(lines, []);
      NoText();
      out := out + "\n" + "";
      lines := lines + [[]];
    }
  }

  lemma NoChunks(t: DbTable)
    ensures InsertLinesOf(t, Chunks([])) == []
  {
  }

  lemma InsertLinesStep(t: DbTable, chunk: seq<Record>, more: seq<seq<Record>>)
    ensures InsertLinesOf(t, [chunk] + more) == [InsertLine(t, chunk)] + InsertLinesOf(t, more)
  {
    hide InsertLine;
  }

  lemma ChunkSplit(rows: seq<Record>, start: nat, end: nat)
    requires start < |rows| && end == if start + CHUNK <= |rows| then start + CHUNK else |rows|
    ensures Chunks(rows[start..]) == [rows[start..end]] + Chunks(rows[end..])
  {
    var rest := rows[start..];
    if |rest| <= CHUNK {
      assert rows[start..end] == rest && rows[end..] == [];
    } else {
      assert rest[..CHUNK] == rows[start..end] && rest[CHUNK..] == rows[end..];
    }
  }

  /** The CREATE TABLEs. */
  method WriteCreates(tables: seq<DbTable>) returns (out: string)
    ensures out == Render(Lines(CreateLines(tables)))
  {
    hide Render, Lines, CreateText, CreateLine;
    out := "";
    ghost var lines: seq<seq<Lexeme>> := [];
    NothingWritten();
    assert tables[0..] == tables;
    for i := 0 to |tables|
      invariant out == Render(Lines(lines))
      invariant lines + CreateLines(tables[i..]) == CreateLines(tables)
    {
      assert tables[i..][1..] == tables[i + 1..];
      ghost var create := CreateLine(tables[i]);
      CreateRendered(tables[i]);
      OneLineMore(lines, create);
      OneLineMore(lines + [create], []);
      NoText();
      out := out + "\n" + CreateText(tables[i]) + "\n" + "";
      TwoLines(lines, create, CreateLines(tables[i + 1..]));
      lines := lines + [create] + [[]];
    }
    assert lines + [] == lines;
  }

  lemma TwoLines(lines: seq<seq<Lexeme>>, l: seq<Lexeme>, rest: seq<seq<Lexeme>>)
    ensures lines + ([l, []] + rest) == lines + [l] + [[]] + rest
  {
  }

  /** The INSERTs, after what was written before. */
  method WriteInserts(tables: seq<DbTable>, text: string, ghost done: seq<seq<Lexeme>>) returns (out: string)
    requires text == Render(Lines(done))
    ensures out == Render(Lines(done + InsertLines(tables)))
  {
    hide Render, Lines, InsertLinesOf, Chunks;
    out := text;
    ghost var lines := done;
    assert tables[0..] == tables;
    for i := 0 to |tables|
      invariant out == Render(Lines(lines))
      invariant lines + InsertLines(tables[i..]) == done + InsertLines(tables)
    {
      assert tables[i..][1..] == tables[i + 1..];
      ghost var t := tables[i];
      ghost var mine, gap := InsertLinesOf(t, Chunks(t.rows)), if |t.rows| > 0 then [[]] else [];
      assert lines + (mine + gap + InsertLines(tables[i + 1..])) == lines + mine + gap + InsertLines(tables[i + 1..]);
      out := WriteRows(tables[i], out, lines);
      lines := lines + mine + gap;
    }
    assert lines + [] == lines;
  }

  /** `_sql` with scope "all". */
  method WriteSql(db: Db, date: string) returns (text: string)
    ensures text == ExportText(db, date)
  {
    hide Render, Lines, CreateLines, InsertLines, Header, SCOPE_NOTE;
    var out := WriteCreates(db.tables);
    out := WriteInserts(db.tables, out, CreateLines(db.tables));
    HeaderRendered(db.name, date);
    RenderAppend(Header(db.name, date), Lines(CreateLines(db.tables) + InsertLines(db.tables)));
    text := "-- MDC export of database \"" + db.name + "\" - " + date + "\n" + (NAME_COMMENT + db.name + "\n") + ("--" + SCOPE_NOTE + "\n") + out;
  }

  lemma NothingWritten()
    ensures Render(Lines([])) == ""
  {
  }

  lemma HeaderRendered(name: string, date: string)
    ensures Render(Header(name, date))
            == "-- MDC export of database \"" + name + "\" - " + date + "\n" + (NAME_COMMENT + name + "\n") + ("--" + SCOPE_NOTE + "\n")
  {
    hide SCOPE_NOTE;
    var a, b := LComment(" MDC export of database \"" + name + "\" - " + date), LComment(" mdc-database: " + name);
    RenderTwo(a, b);
    RenderOne(LComment(SCOPE_NOTE));
    hide Render;
    RenderAppend([a, b], [LComment(SCOPE_NOTE)]);
    assert Header(name, date) == [a, b] + [LComment(SCOPE_NOTE)];
    FirstComment(name, date);
    SecondComment(name);
  }

  // ------------------------------------------------------------------- reading

  /** `_split_statements`. */
  method SplitStatements(tokens: seq<Token>) returns (statements: seq<seq<Token>>)
    ensures statements == Statements(tokens, [])
  {
    statements := [];
    var current: seq<Token> := [];
    assert tokens[0..] == tokens;
    for i := 0 to |tokens|
      invariant statements + Statements(tokens[i..], current) == Statements(tokens, [])
    {
      assert tokens[i..][1..] == tokens[i + 1..];
      if tokens[i] == SEMICOLON {
        ghost var ended := if |current| == 0 then [] else [current];
        assert statements + (ended + Statements(tokens[i + 1..], [])) == statements + ended
               + Statements(tokens[i + 1..], []);
        assert statements + [] == statements;
        if |current| > 0 { statements := statements + [current]; }
        current := [];
      } else {
        current := current + [tokens[i]];
      }
    }
    assert statements + [] == statements;
    if |current| > 0 { statements := statements + [current]; }
  }

  /** `_group`: the depth goes up and down until it is back at 0. */
  method MatchGroup(tokens: seq<Token>, pos: nat) returns (r: Result<Group, Refusal>)
    requires pos < |tokens| && tokens[pos] == OPEN
    ensures r == GroupAt(tokens, pos)
  {
    var depth: int := 0;
    var j := pos;
    while j < |tokens|
      invariant pos <= j <= |tokens| && (j == pos ==> depth == 0)
      invariant GroupEnd(tokens, j, depth) == GroupEnd(tokens, pos, 0)
      decreases |tokens| - j
    {
      if tokens[j] == OPEN {
        depth := depth + 1;
      } else if tokens[j] == CLOSE {
        depth := depth - 1;
        if depth == 0 { return Ok(Group(tokens[pos + 1..j], j + 1)); }
      }
      j := j + 1;
    }
    r := Err(Unbalanced);
  }

  /** `_split_top_level`. */
  method SplitTopLevel(tokens: seq<Token>) returns (parts: seq<seq<Token>>)
    ensures parts == Parts(tokens, [], 0)
  {
    parts := [];
    var current: seq<Token>, depth: int := [], 0;
    assert tokens[0..] == tokens;
    for i := 0 to |tokens|
      invariant parts + Parts(tokens[i..], current, depth) == Parts(tokens, [], 0)
    {
      assert tokens[i..][1..] == tokens[i + 1..];
      if tokens[i] == OPEN { depth := depth + 1; } else if tokens[i] == CLOSE { depth := depth - 1; }
      if tokens[i] == COMMA && depth == 0 {
        assert parts + ([current] + Parts(tokens[i + 1..], [], depth)) == parts + [current]
               + Parts(tokens[i + 1..], [], depth);
        parts := parts + [current];
        current := [];
      } else {
        current := current + [tokens[i]];
      }
    }
    assert parts + [] == parts;
    if |current| > 0 { parts := parts + [current]; }
  }

  /** One row of cells into a record. */
  method ReadRecord(columns: seq<string>, cells: seq<seq<Token>>) returns (r: Result<Row, Refusal>)
    requires |columns| == |cells|
    ensures r == ReadCells(columns, cells, Row(map[], None))
  {
    hide Literal;
    var values: map<string, Value>, recordId := map[], None;
    assert columns[0..] == columns && cells[0..] == cells;
    for i := 0 to |columns|
      invariant ReadCells(columns[i..], cells[i..], Row(values, recordId)) == ReadCells(columns, cells, Row(map[], None))
    {
      assert columns[i..][1..] == columns[i + 1..] && cells[i..][1..] == cells[i + 1..];
      var v := Literal(cells[i]);
      if v.Err? { return Err(v.error); }
      if columns[i] == RECORD_ID {
        recordId := if v.value == VNull then None else Some(TextOf(v.value));
      } else if v.value != VNull {
        values := values[columns[i] := v.value];
      }
    }
    r := Ok(Row(values, recordId));
  }

  /** The loop over the (value, ...) groups of an INSERT. */
  method ReadGroups(st: seq<Token>, start: nat, columns: seq<string>) returns (r: Result<seq<Row>, Refusal>)
    requires start <= |st|
    ensures r == ReadRows(st, start, columns)
  {
    hide ReadCells, Parts, GroupAt;
    var rows: seq<Row> := [];
    var pos := start;
    if ReadRows(st, start, columns).Ok? { assert [] + ReadRows(st, start, columns).value == ReadRows(st, start, columns).value; }
    while pos < |st|
      invariant start <= pos <= |st|
      invariant ReadRows(st, start, columns) == After(rows, ReadRows(st, pos, columns))
      decreases |st| - pos
    {
      if st[pos] == COMMA {
        pos := pos + 1;
        continue;
      }
      if st[pos] != OPEN { return Err(ExpectedGroup); }
      var g := MatchGroup(st, pos);
      if g.Err? { return Err(g.error); }
      var cells := SplitTopLevel(g.value.inner);
      if |cells| != |columns| { return Err(WrongCount); }
      var row := ReadRecord(columns, cells);
      if row.Err? { return Err(row.error); }
      AfterOne(rows, row.value, ReadRows(st, g.value.next, columns));
      rows := rows + [row.value];
      pos := g.value.next;
    }
    assert rows + [] == rows;
    r := Ok(rows);
  }

  ghost function After(rows: seq<Row>, r: Result<seq<Row>, Refusal>): Result<seq<Row>, Refusal> {
    if r.Err? then r else Ok(rows + r.value)
  }

  lemma AfterOne(rows: seq<Row>, row: Row, r: Result<seq<Row>, Refusal>)
    ensures After(rows, After([row], r)) == After(rows + [row], r)
  {
    if r.Ok? { assert rows + ([row] + r.value) == rows + [row] + r.value; }
  }

  /** `read_sql`: statement after statement, filling the tables. */
  method ReadScript(u: Classes, text: string) returns (r: Result<Plan, Refusal>)
    ensures r == ReadSql(u, text)
  {
    hide HeaderFrom, Tokens, Statements, ReadStatement;
    var lexed := Tokenize(u, text);
    if lexed.Err? { return Err(Lexical(lexed.error)); }
    StatementsNotEmpty(lexed.value, []);
    var statements := SplitStatements(lexed.value);
    if |statements| == 0 { return Err(NoStatements); }
    var p := Progress([], HeaderFrom(u, text, 0));
    ghost var begin := p;
    assert statements[0..] == statements;
    for i := 0 to |statements|
      invariant ReadAll(statements[i..], p) == ReadAll(statements, begin)
    {
      assert statements[i..][1..] == statements[i + 1..] && statements[i] in statements;
      var next := ReadStatement(statements[i], p);
      if next.Err? { return Err(next.error); }
      p := next.value;
    }
    if |p.tables| == 0 { return Err(NoTables); }
    r := Ok(Plan(p.tables, p.database));
  }

  /** Export, then import, as they run. */
  method ExportThenImport(u: Classes, db: Db, date: string) returns (text: string, plan: Result<Plan, Refusal>)
    requires Printable(db) && OneLine(date)
    ensures text == ExportText(db, date)
    ensures |db.tables| > 0 && (forall i :: 0 <= i < |db.tables| ==> |db.tables[i].fields| > 0)
            ==> plan == Ok(Plan(BackTables(db.tables, |db.tables|), Some(db.name)))
  {
    hide ReadSql, ExportText, BackTables;
    text := WriteSql(db, date);
    plan := ReadScript(u, text);
    ExportReadsBack(u, db, date);
  }
}
