/** From an exported script back to its statements. */
module SqlRoundTrip {
  // The tokens of a script, cut at semicolons, parentheses and commas, are the
  // ones its statements were written from.

  import opened KeySpace
  import opened Outcomes
  import opened SqlLexer
  import opened SqlReader
  import opened SqlWriter

  // ------------------------------------------------------- statements as tokens

  function JoinTokens(xs: seq<seq<Token>>): seq<Token>
  {
    if |xs| == 0 then [] else if |xs| == 1 then xs[0] else xs[0] + [COMMA] + JoinTokens(xs[1..])
  }

  lemma {:induction false} TokensAppend(xs: seq<Lexeme>, ys: seq<Lexeme>)
    ensures TokensOf(xs + ys) == TokensOf(xs) + TokensOf(ys)
  {
    if |xs| == 0 {
      assert xs + ys == ys;
    } else {
      assert (xs + ys)[1..] == xs[1..] + ys;
      TokensAppend(xs[1..], ys);
    }
  }

  function AllTokens(xs: seq<seq<Lexeme>>): (r: seq<seq<Token>>)
    ensures |r| == |xs|
  {
    seq(|xs|, i requires 0 <= i < |xs| => TokensOf(xs[i]))
  }

  lemma {:induction false} TokensOfJoined(xs: seq<seq<Lexeme>>, sep: seq<Lexeme>)
    requires TokensOf(sep) == [COMMA]
    ensures TokensOf(Joined(xs, sep)) == JoinTokens(AllTokens(xs))
  {
    if |xs| > 1 {
      TokensOfJoined(xs[1..], sep);
      TokensAppend(xs[0], sep);
      TokensAppend(xs[0] + sep, Joined(xs[1..], sep));
      assert AllTokens(xs)[1..] == AllTokens(xs[1..]);
    }
  }

  lemma CommaSeparators()
    ensures TokensOf([LPunct(','), LNewline]) == [COMMA] && TokensOf([LPunct(','), LBlank]) == [COMMA]
  {
    assert [LPunct(','), LNewline][1..] == [LNewline] && [LNewline][1..] == [];
    assert [LPunct(','), LBlank][1..] == [LBlank] && [LBlank][1..] == [];
  }

  function TypeTokens(t: Datatype): seq<Token> {
    match t
    case TString => [Word("VARCHAR")]
    case TDecimal => [Word("DOUBLE"), Word("PRECISION")]
    case TInteger => [Word("BIGINT")]
    case TBoolean => [Word("BOOLEAN")]
    case TDatetime => [Word("TIMESTAMP")]
  }

  function RequiredTokens(required: bool): seq<Token> {
    if required then [Word("NOT"), Word("NULL")] else []
  }

  function ColumnTokens(f: Field): seq<Token> {
    [QIdent(f.name)] + TypeTokens(f.datatype_) + RequiredTokens(f.required)
  }

  const ID_TOKENS: seq<Token> := [QIdent(RECORD_ID), Word("VARCHAR"), OPEN, Num("64"), CLOSE, Word("PRIMARY"), Word("KEY")]

  function ColumnParts(fields: seq<Field>): (r: seq<seq<Token>>)
    ensures |r| == |fields| + 1
  {
    [ID_TOKENS] + seq(|fields|, i requires 0 <= i < |fields| => ColumnTokens(fields[i]))
  }

  function CreateTokens(t: DbTable): seq<Token> {
    [Word("CREATE"), Word("TABLE"), QIdent(t.name), OPEN] + JoinTokens(ColumnParts(t.fields)) + [CLOSE]
  }

  function LiteralTokens(v: Value): seq<Token> {
    match v
    case VNull => [Word("NULL")]
    case VBool(b) => [Word(if b then "TRUE" else "FALSE")]
    case VInt(n) => if n < 0 then [Op('-'), Num(Decimal(-n, 1))] else [Num(Decimal(n, 1))]
    case VFloat(negative, text) => if negative then [Op('-'), Num(text)] else [Num(text)]
    case VText(s) => [Str(s)]
  }

  function CellTokens(fields: seq<Field>, r: Record): (cs: seq<seq<Token>>)
    ensures |cs| == |fields| + 1
  {
    seq(|fields| + 1, i requires 0 <= i < |fields| + 1 => LiteralTokens(Cells(fields, r)[i]))
  }

  function RowTokens(fields: seq<Field>, r: Record): seq<Token> {
    [OPEN] + JoinTokens(CellTokens(fields, r)) + [CLOSE]
  }

  function NameParts(fields: seq<Field>): (r: seq<seq<Token>>)
    ensures |r| == |fields| + 1
  {
    [[QIdent(RECORD_ID)]] + seq(|fields|, i requires 0 <= i < |fields| => [QIdent(fields[i].name)])
  }

  function HeadTokens(t: DbTable): seq<Token> {
    [Word("INSERT"), Word("INTO"), QIdent(t.name), OPEN] + JoinTokens(NameParts(t.fields)) + [CLOSE, Word("VALUES")]
  }

  function RowGroups(fields: seq<Field>, rows: seq<Record>): (r: seq<seq<Token>>)
    ensures |r| == |rows|
  {
    seq(|rows|, i requires 0 <= i < |rows| => RowTokens(fields, rows[i]))
  }

  function InsertTokens(t: DbTable, rows: seq<Record>): seq<Token> {
    HeadTokens(t) + JoinTokens(RowGroups(t.fields, rows))
  }

  lemma TypeLexTokens(t: Datatype)
    ensures TokensOf(TypeLexemes(t)) == TypeTokens(t)
  {
    match t
    case TDecimal =>
      var ls := [LWord("DOUBLE"), LBlank, LWord("PRECISION")];
      assert ls[1..] == [LBlank, LWord("PRECISION")] && ls[1..][1..] == [LWord("PRECISION")];
    case _ =>
  }

  lemma ColumnLexTokens(f: Field)
    ensures TokensOf(ColumnLexemes(f)) == ColumnTokens(f)
  {
    var start := [LBlank, LBlank, LQuoted(f.name), LBlank];
    TokensFour(LBlank, LBlank, LQuoted(f.name), LBlank);
    TokensFour(LBlank, LWord("NOT"), LBlank, LWord("NULL"));
    TypeLexTokens(f.datatype_);
    hide TokensOf;
    TokensAppend(start, TypeLexemes(f.datatype_));
    var end := if f.required then [LBlank, LWord("NOT"), LBlank, LWord("NULL")] else [];
    TokensAppend(start + TypeLexemes(f.datatype_), end);
    NoTokens();
  }

  lemma NoTokens()
    ensures TokensOf([]) == []
  {
  }

  lemma TokensOne(a: Lexeme)
    ensures TokensOf([a]) == Token1(a)
  {
    assert [a][1..] == [];
  }

  lemma TokensTwo(a: Lexeme, b: Lexeme)
    ensures TokensOf([a, b]) == Token1(a) + Token1(b)
  {
    TokensOne(b);
    assert [a, b][1..] == [b];
  }

  lemma TokensFour(a: Lexeme, b: Lexeme, c: Lexeme, d: Lexeme)
    ensures TokensOf([a, b, c, d]) == Token1(a) + Token1(b) + Token1(c) + Token1(d)
  {
    hide Token1;
    TokensTwo(a, b);
    TokensTwo(c, d);
    assert [a, b, c, d] == [a, b] + [c, d];
    TokensAppend([a, b], [c, d]);
    assert Token1(a) + Token1(b) + (Token1(c) + Token1(d)) == Token1(a) + Token1(b) + Token1(c) + Token1(d);
  }

  lemma IdLexTokens()
    ensures TokensOf(ID_COLUMN) == ID_TOKENS
  {
    var a := [LBlank, LBlank, LQuoted("record_id"), LBlank];
    var b := [LWord("VARCHAR"), LPunct('('), LNumber("64"), LPunct(')')];
    var c := [LBlank, LWord("PRIMARY"), LBlank, LWord("KEY")];
    TokensFour(LBlank, LBlank, LQuoted("record_id"), LBlank);
    TokensFour(LWord("VARCHAR"), LPunct('('), LNumber("64"), LPunct(')'));
    TokensFour(LBlank, LWord("PRIMARY"), LBlank, LWord("KEY"));
    hide TokensOf;
    TokensAppend(a, b);
    TokensAppend(a + b, c);
    assert ID_COLUMN == a + b + c;
  }

  lemma CreateLexTokens(t: DbTable)
    ensures TokensOf(CreateLine(t)) == CreateTokens(t) + [SEMICOLON]
  {
    hide ColumnTokens, ColumnLexemes, ID_COLUMN, ID_TOKENS;
    var lines := ColumnLines(t.fields);
    CommaSeparators();
    TokensOfJoined(lines, [LPunct(','), LNewline]);
    forall i | 0 <= i < |lines| ensures AllTokens(lines)[i] == ColumnParts(t.fields)[i] {
      if i == 0 { IdLexTokens(); } else { ColumnLexTokens(t.fields[i - 1]); }
    }
    hide TokensOf, JoinTokens, SqlWriter.Joined;
    assert AllTokens(lines) == ColumnParts(t.fields);
    CreateAround(t.name, Joined(lines, [LPunct(','), LNewline]));
  }

  lemma CreateAround(name: string, body: seq<Lexeme>)
    ensures TokensOf(CREATE_HEAD + [LQuoted(name), LBlank, LPunct('('), LNewline] + body + [LNewline, LPunct(')'),
            LPunct(';')])
            == [Word("CREATE"), Word("TABLE"), QIdent(name), OPEN] + TokensOf(body) + [CLOSE] + [SEMICOLON]
  {
    TokensFour(LWord("CREATE"), LBlank, LWord("TABLE"), LBlank);
    TokensFour(LQuoted(name), LBlank, LPunct('('), LNewline);
    TokensTwo(LNewline, LPunct(')'));
    TokensOne(LPunct(';'));
    hide TokensOf;
    var b := [LQuoted(name), LBlank, LPunct('('), LNewline];
    TokensAppend(CREATE_HEAD, b);
    TokensAppend(CREATE_HEAD + b, body);
    TokensAppend([LNewline, LPunct(')')], [LPunct(';')]);
    assert [LNewline, LPunct(')'), LPunct(';')] == [LNewline, LPunct(')')] + [LPunct(';')];
    TokensAppend(CREATE_HEAD + b + body, [LNewline, LPunct(')'), LPunct(';')]);
    var head := [Word("CREATE"), Word("TABLE"), QIdent(name), OPEN];
    assert TokensOf(CREATE_HEAD + b) == head;
    assert head + TokensOf(body) + ([CLOSE] + [SEMICOLON]) == head + TokensOf(body) + [CLOSE] + [SEMICOLON];
  }

  lemma LiteralLexTokens(v: Value)
    ensures TokensOf(LiteralLexemes(v)) == LiteralTokens(v)
  {
    hide Decimal;
    match v
    case VInt(n) =>
      if n < 0 { TokensTwo(LMinus, LNumber(Decimal(-n, 1))); } else { TokensOne(LNumber(Decimal(n, 1))); }
    case VFloat(negative, text) =>
      if negative { TokensTwo(LMinus, LNumber(text)); } else { TokensOne(LNumber(text)); }
    case _ => TokensOne(LiteralLexemes(v)[0]);
  }

  lemma RowLexTokens(fields: seq<Field>, r: Record)
    ensures TokensOf(RowLexemes(fields, r)) == RowTokens(fields, r)
  {
    var vs := Cells(fields, r);
    var cells := seq(|vs|, i requires 0 <= i < |vs| => LiteralLexemes(vs[i]));
    CommaSeparators();
    TokensOfJoined(cells, [LPunct(','), LBlank]);
    forall i | 0 <= i < |vs| ensures AllTokens(cells)[i] == CellTokens(fields, r)[i] { LiteralLexTokens(vs[i]); }
    assert AllTokens(cells) == CellTokens(fields, r);
    RowAround(Joined(cells, [LPunct(','), LBlank]));
  }

  lemma RowAround(body: seq<Lexeme>)
    ensures TokensOf([LBlank, LBlank, LPunct('(')] + body + [LPunct(')')]) == [OPEN] + TokensOf(body) + [CLOSE]
  {
    TokensTwo(LBlank, LBlank);
    TokensOne(LPunct('('));
    TokensOne(LPunct(')'));
    hide TokensOf;
    assert [LBlank, LBlank, LPunct('(')] == [LBlank, LBlank] + [LPunct('(')];
    TokensAppend([LBlank, LBlank], [LPunct('(')]);
    TokensAppend([LBlank, LBlank, LPunct('(')], body);
    TokensAppend([LBlank, LBlank, LPunct('(')] + body, [LPunct(')')]);
  }

  lemma HeadLexTokens(t: DbTable)
    ensures TokensOf(InsertHead(t)) == HeadTokens(t)
  {
    var names := NameLexemes(t.fields);
    CommaSeparators();
    TokensOfJoined(names, [LPunct(','), LBlank]);
    forall i | 0 <= i < |names| ensures AllTokens(names)[i] == NameParts(t.fields)[i] {
      TokensOne(if i == 0 then LQuoted(RECORD_ID) else LQuoted(t.fields[i - 1].name));
    }
    assert AllTokens(names) == NameParts(t.fields);
    HeadAround(t.name, Joined(names, [LPunct(','), LBlank]));
  }

  lemma HeadAround(name: string, body: seq<Lexeme>)
    ensures TokensOf([LWord("INSERT"), LBlank, LWord("INTO"), LBlank, LQuoted(name), LBlank, LPunct('(')] + body
            + [LPunct(')'), LBlank, LWord("VALUES")])
            == [Word("INSERT"), Word("INTO"), QIdent(name), OPEN] + TokensOf(body) + [CLOSE, Word("VALUES")]
  {
    TokensFour(LWord("INSERT"), LBlank, LWord("INTO"), LBlank);
    TokensTwo(LQuoted(name), LBlank);
    TokensOne(LPunct('('));
    TokensTwo(LPunct(')'), LBlank);
    TokensOne(LWord("VALUES"));
    hide TokensOf;
    var a, b, c := [LWord("INSERT"), LBlank, LWord("INTO"), LBlank], [LQuoted(name), LBlank], [LPunct('(')];
    assert [LWord("INSERT"), LBlank, LWord("INTO"), LBlank, LQuoted(name), LBlank, LPunct('(')] == a + b + c;
    TokensAppend(a, b);
    TokensAppend(a + b, c);
    TokensAppend(a + b + c, body);
    var d := [LPunct(')'), LBlank] + [LWord("VALUES")];
    assert [LPunct(')'), LBlank, LWord("VALUES")] == d;
    TokensAppend([LPunct(')'), LBlank], [LWord("VALUES")]);
    TokensAppend(a + b + c + body, d);
    assert TokensOf(d) == [CLOSE, Word("VALUES")];
    assert TokensOf(a + b + c) == [Word("INSERT"), Word("INTO"), QIdent(name), OPEN];
  }

  lemma InsertLexTokens(t: DbTable, rows: seq<Record>)
    ensures TokensOf(InsertLine(t, rows)) == InsertTokens(t, rows) + [SEMICOLON]
  {
    var groups := seq(|rows|, i requires 0 <= i < |rows| => RowLexemes(t.fields, rows[i]));
    CommaSeparators();
    TokensOfJoined(groups, [LPunct(','), LNewline]);
    forall i | 0 <= i < |rows| ensures AllTokens(groups)[i] == RowGroups(t.fields, rows)[i] { RowLexTokens(t.fields, rows[i]); }
    assert AllTokens(groups) == RowGroups(t.fields, rows);
    HeadLexTokens(t);
    TokensOne(LNewline);
    TokensOne(LPunct(';'));
    hide TokensOf;
    var body := Joined(groups, [LPunct(','), LNewline]);
    TokensAppend(InsertHead(t), [LNewline]);
    TokensAppend(InsertHead(t) + [LNewline], body);
    TokensAppend(InsertHead(t) + [LNewline] + body, [LPunct(';')]);
    assert HeadTokens(t) + [] == HeadTokens(t);
  }

  // ------------------------------------------------------------ the whole script

  function CreateStatements(tables: seq<DbTable>): seq<seq<Token>>
  {
    if |tables| == 0 then [] else [CreateTokens(tables[0])] + CreateStatements(tables[1..])
  }

  function ChunkStatements(t: DbTable, chunks: seq<seq<Record>>): seq<seq<Token>>
  {
    if |chunks| == 0 then [] else [InsertTokens(t, chunks[0])] + ChunkStatements(t, chunks[1..])
  }

  function InsertStatements(tables: seq<DbTable>): seq<seq<Token>>
  {
    if |tables| == 0 then [] else ChunkStatements(tables[0], Chunks(tables[0].rows)) + InsertStatements(tables[1..])
  }

  /** Statements, each followed by its semicolon. */
  function Ended(sts: seq<seq<Token>>): seq<Token>
  {
    if |sts| == 0 then [] else sts[0] + [SEMICOLON] + Ended(sts[1..])
  }

  lemma {:induction false} EndedAppend(xs: seq<seq<Token>>, ys: seq<seq<Token>>)
    ensures Ended(xs + ys) == Ended(xs) + Ended(ys)
  {
    if |xs| == 0 {
      assert xs + ys == ys;
    } else {
      assert (xs + ys)[1..] == xs[1..] + ys;
      EndedAppend(xs[1..], ys);
    }
  }

  lemma {:induction false} LinesAppend(xs: seq<seq<Lexeme>>, ys: seq<seq<Lexeme>>)
    ensures Lines(xs + ys) == Lines(xs) + Lines(ys)
  {
    if |xs| == 0 {
      assert xs + ys == ys;
    } else {
      assert (xs + ys)[1..] == xs[1..] + ys;
      LinesAppend(xs[1..], ys);
    }
  }

  lemma LineTokens(l: seq<Lexeme>, rest: seq<seq<Lexeme>>)
    ensures TokensOf(Lines([l] + rest)) == TokensOf(l) + TokensOf(Lines(rest))
  {
    assert ([l] + rest)[1..] == rest;
    TokensOne(LNewline);
    hide TokensOf;
    TokensAppend([LNewline] + l, Lines(rest));
    TokensAppend([LNewline], l);
    assert [] + TokensOf(l) == TokensOf(l);
  }

  lemma {:induction false} CreateScriptTokens(tables: seq<DbTable>)
    ensures TokensOf(Lines(CreateLines(tables))) == Ended(CreateStatements(tables))
  {
    hide CreateLine, CreateTokens;
    if |tables| > 0 {
      var rest := CreateLines(tables[1..]);
      CreateScriptTokens(tables[1..]);
      CreateLexTokens(tables[0]);
      assert CreateLines(tables) == [CreateLine(tables[0])] + ([[]] + rest);
      LineTokens(CreateLine(tables[0]), [[]] + rest);
      LineTokens([], rest);
      NoTokens();
    }
  }

  lemma {:induction false} ChunkScriptTokens(t: DbTable, chunks: seq<seq<Record>>)
    ensures TokensOf(Lines(InsertLinesOf(t, chunks))) == Ended(ChunkStatements(t, chunks))
    decreases |chunks|
  {
    hide InsertLine, InsertTokens;
    if |chunks| > 0 {
      ChunkScriptTokens(t, chunks[1..]);
      InsertLexTokens(t, chunks[0]);
      assert InsertLinesOf(t, chunks) == [InsertLine(t, chunks[0])] + InsertLinesOf(t, chunks[1..]);
      LineTokens(InsertLine(t, chunks[0]), InsertLinesOf(t, chunks[1..]));
    }
  }

  lemma {:induction false} InsertScriptTokens(tables: seq<DbTable>)
    ensures TokensOf(Lines(InsertLines(tables))) == Ended(InsertStatements(tables))
  {
    hide InsertLinesOf, ChunkStatements, Chunks, TokensOf, Lines, Ended;
    if |tables| == 0 {
      NothingLines();
    } else {
      var t := tables[0];
      var mine, gap, rest := InsertLinesOf(t, Chunks(t.rows)), if |t.rows| > 0 then [[]] else [], InsertLines(tables[1..]);
      InsertScriptTokens(tables[1..]);
      ChunkScriptTokens(t, Chunks(t.rows));
      LinesAppend(mine + gap, rest);
      LinesAppend(mine, gap);
      TokensAppend(Lines(mine + gap), Lines(rest));
      TokensAppend(Lines(mine), Lines(gap));
      GapTokens(gap);
      EndedAppend(ChunkStatements(t, Chunks(t.rows)), InsertStatements(tables[1..]));
    }
  }

  lemma NothingLines()
    ensures Lines([]) == [] && TokensOf([]) == [] && Ended([]) == []
  {
  }

  lemma GapTokens(gap: seq<seq<Lexeme>>)
    requires gap == [] || gap == [[]]
    ensures TokensOf(Lines(gap)) == []
  {
    if gap == [[]] { LineTokens([], []); assert gap == [[]] + []; }
  }

  function AllStatements(db: Db): seq<seq<Token>> {
    CreateStatements(db.tables) + InsertStatements(db.tables)
  }

  lemma ScriptTokens(db: Db, date: string)
    ensures TokensOf(Script(db, date)) == Ended(AllStatements(db))
  {
    var header := Header(db.name, date);
    HeaderTokens(header);
    hide TokensOf, Header;
    var ls := CreateLines(db.tables) + InsertLines(db.tables);
    TokensAppend(header, Lines(ls));
    LinesAppend(CreateLines(db.tables), InsertLines(db.tables));
    TokensAppend(Lines(CreateLines(db.tables)), Lines(InsertLines(db.tables)));
    CreateScriptTokens(db.tables);
    InsertScriptTokens(db.tables);
    EndedAppend(CreateStatements(db.tables), InsertStatements(db.tables));
  }

  lemma HeaderTokens(header: seq<Lexeme>)
    requires |header| == 3 && header[0].LComment? && header[1].LComment? && header[2].LComment?
    ensures TokensOf(header) == []
  {
    TokensTwo(header[0], header[1]);
    TokensOne(header[2]);
    assert header == [header[0], header[1]] + [header[2]];
    TokensAppend([header[0], header[1]], [header[2]]);
  }

  // ------------------------------------------------------ cutting it up again

  ghost predicate Plain(st: seq<Token>) {
    |st| > 0 && SEMICOLON !in st
  }

  lemma {:induction false} StatementEnds(st: seq<Token>, rest: seq<Token>, current: seq<Token>)
    requires SEMICOLON !in st && |st| + |current| > 0
    ensures Statements(st + [SEMICOLON] + rest, current) == [current + st] + Statements(rest, [])
    decreases |st|
  {
    var all := st + [SEMICOLON] + rest;
    if |st| == 0 {
      assert all[0] == SEMICOLON && all[1..] == rest;
      assert current + st == current;
    } else {
      assert all[0] == st[0] && all[1..] == st[1..] + [SEMICOLON] + rest;
      assert st[0] in st;
      StatementEnds(st[1..], rest, current + [st[0]]);
      assert current + [st[0]] + st[1..] == current + st by { assert st == [st[0]] + st[1..]; }
    }
  }

  /** No literal ends a statement early: the script falls into exactly the
      statements that were written. */
  lemma {:induction false} StatementsCut(sts: seq<seq<Token>>)
    requires forall i :: 0 <= i < |sts| ==> Plain(sts[i])
    ensures Statements(Ended(sts), []) == sts
  {
    if |sts| > 0 {
      StatementEnds(sts[0], Ended(sts[1..]), []);
      assert [] + sts[0] == sts[0];
      StatementsCut(sts[1..]);
      assert sts == [sts[0]] + sts[1..];
    }
  }

  /** Balanced from depth `d`, with no comma at depth 0. */
  predicate Solid(tokens: seq<Token>, d: nat)
  {
    if |tokens| == 0 then d == 0
    else if tokens[0] == OPEN then Solid(tokens[1..], d + 1)
    else if tokens[0] == CLOSE then d > 0 && Solid(tokens[1..], d - 1)
    else (tokens[0] == COMMA ==> d > 0) && Solid(tokens[1..], d)
  }

  /** Balanced from depth `d`. */
  predicate Nested(tokens: seq<Token>, d: nat)
  {
    if |tokens| == 0 then d == 0
    else if tokens[0] == OPEN then Nested(tokens[1..], d + 1)
    else if tokens[0] == CLOSE then d > 0 && Nested(tokens[1..], d - 1)
    else Nested(tokens[1..], d)
  }

  lemma {:induction false} SolidNested(tokens: seq<Token>, d: nat)
    requires Solid(tokens, d)
    ensures Nested(tokens, d)
    decreases |tokens|
  {
    if |tokens| > 0 {
      SolidNested(tokens[1..], if tokens[0] == OPEN then d + 1 else if tokens[0] == CLOSE then d - 1 else d);
    }
  }

  lemma {:induction false} NestedAppend(xs: seq<Token>, ys: seq<Token>, d: nat)
    requires Nested(xs, d) && Nested(ys, 0)
    ensures Nested(xs + ys, d)
    decreases |xs|
  {
    if |xs| == 0 {
      assert xs + ys == ys;
    } else {
      assert (xs + ys)[1..] == xs[1..] + ys;
      NestedAppend(xs[1..], ys, if xs[0] == OPEN then d + 1 else if xs[0] == CLOSE then d - 1 else d);
    }
  }

  lemma {:induction false} JoinNested(xs: seq<seq<Token>>)
    requires forall i :: 0 <= i < |xs| ==> Nested(xs[i], 0)
    ensures Nested(JoinTokens(xs), 0)
  {
    if |xs| > 1 {
      JoinNested(xs[1..]);
      CommaNested();
      NestedAppend(xs[0], [COMMA], 0);
      NestedAppend(xs[0] + [COMMA], JoinTokens(xs[1..]), 0);
    }
  }

  lemma CommaNested()
    ensures Nested([COMMA], 0)
  {
    assert [COMMA][1..] == [];
  }

  lemma {:induction false} PartRead(part: seq<Token>, rest: seq<Token>, current: seq<Token>, d: nat)
    requires Solid(part, d)
    ensures Parts(part + rest, current, d) == Parts(rest, current + part, 0)
    decreases |part|
  {
    var all := part + rest;
    if |part| == 0 {
      assert all == rest && current + part == current;
    } else {
      assert all[0] == part[0] && all[1..] == part[1..] + rest;
      var e := if part[0] == OPEN then d + 1 else if part[0] == CLOSE then d - 1 else d;
      PartRead(part[1..], rest, current + [part[0]], e);
      assert current + [part[0]] + part[1..] == current + part by { assert part == [part[0]] + part[1..]; }
    }
  }

  /** A list cut at its top-level commas gives the parts it was joined from. */
  lemma {:induction false} PartsOfJoined(xs: seq<seq<Token>>)
    requires forall i :: 0 <= i < |xs| ==> |xs[i]| > 0 && Solid(xs[i], 0)
    ensures Parts(JoinTokens(xs), [], 0) == xs
  {
    if |xs| > 0 {
      var rest := if |xs| == 1 then [] else [COMMA] + JoinTokens(xs[1..]);
      assert JoinTokens(xs) == xs[0] + rest;
      PartRead(xs[0], rest, [], 0);
      assert [] + xs[0] == xs[0];
      if |xs| > 1 {
        assert rest[1..] == JoinTokens(xs[1..]);
        PartsOfJoined(xs[1..]);
        assert xs == [xs[0]] + xs[1..];
      }
    }
  }

  lemma {:induction false} GroupFinds(all: seq<Token>, j: nat, inner: seq<Token>, d: nat)
    requires Nested(inner, d) && j + |inner| < |all| && all[j..j + |inner|] == inner && all[j + |inner|] == CLOSE
    ensures GroupEnd(all, j, d + 1) == j + |inner|
    decreases |inner|
  {
    if |inner| > 0 {
      assert all[j] == inner[0];
      assert all[j + 1..j + 1 + |inner[1..]|] == inner[1..];
      GroupFinds(all, j + 1, inner[1..], if inner[0] == OPEN then d + 1 else if inner[0] == CLOSE then d - 1 else d);
    }
  }

  /** A group in parentheses is found whole. */
  lemma GroupRead(all: seq<Token>, pos: nat, inner: seq<Token>)
    requires Nested(inner, 0) && pos + |inner| + 2 <= |all|
    requires all[pos] == OPEN && all[pos + 1..pos + 1 + |inner|] == inner && all[pos + 1 + |inner|] == CLOSE
    ensures GroupAt(all, pos) == Ok(Group(inner, pos + |inner| + 2))
  {
    hide Nested;
    GroupFinds(all, pos + 1, inner, 0);
    assert GroupEnd(all, pos, 0) == GroupEnd(all, pos + 1, 1);
  }

  lemma GroupSlices(pre: seq<Token>, inner: seq<Token>, post: seq<Token>)
    ensures var all := pre + [OPEN] + inner + [CLOSE] + post;
            && |all| == |pre| + |inner| + |post| + 2
            && all[|pre|] == OPEN && all[|pre| + 1..|pre| + 1 + |inner|] == inner && all[|pre| + 1 + |inner|] == CLOSE
            && all[|pre| + |inner| + 2..] == post
  {
  }
}
