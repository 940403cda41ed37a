/** Writing a database as a script (mdc/src/mdc/portability/writers.py:187-226): a
    header, one CREATE TABLE per table, and INSERTs of at most 100 rows. The text
    is given as its lexemes. */
module SqlWriter {
  import opened KeySpace
  import opened SqlLexer
  import opened SqlReader

  datatype Field = Field(name: string, datatype_: Datatype, required: bool)

  /** A record: its id and its values; a field without a value is null. A datetime
      is the text of its ISO form. */
  datatype Record = Record(recordId: string, values: map<string, Value>)

  datatype DbTable = DbTable(name: string, fields: seq<Field>, rows: seq<Record>)

  datatype Db = Db(name: string, tables: seq<DbTable>)

  // ------------------------------------------------------------------- printing

  function TypeLexemes(t: Datatype): seq<Lexeme> {
    match t
    case TString => [LWord("VARCHAR")]
    case TDecimal => [LWord("DOUBLE"), LBlank, LWord("PRECISION")]
    case TInteger => [LWord("BIGINT")]
    case TBoolean => [LWord("BOOLEAN")]
    case TDatetime => [LWord("TIMESTAMP")]
  }

  /** Pieces with a separator between them. */
  function Joined(xs: seq<seq<Lexeme>>, sep: seq<Lexeme>): seq<Lexeme>
  {
    if |xs| == 0 then [] else if |xs| == 1 then xs[0] else xs[0] + sep + Joined(xs[1..], sep)
  }

  const ID_COLUMN: seq<Lexeme> :=
    [LBlank, LBlank, LQuoted("record_id"), LBlank, LWord("VARCHAR"), LPunct('('), LNumber("64"), LPunct(')'),
     LBlank, LWord("PRIMARY"), LBlank, LWord("KEY")]

  function ColumnLexemes(f: Field): seq<Lexeme> {
    [LBlank, LBlank, LQuoted(f.name), LBlank] + TypeLexemes(f.datatype_)
    + if f.required then [LBlank, LWord("NOT"), LBlank, LWord("NULL")] else []
  }

  function ColumnLines(fields: seq<Field>): (r: seq<seq<Lexeme>>)
    ensures |r| == |fields| + 1
  {
    [ID_COLUMN] + seq(|fields|, i requires 0 <= i < |fields| => ColumnLexemes(fields[i]))
  }

  const CREATE_HEAD: seq<Lexeme> := [LWord("CREATE"), LBlank, LWord("TABLE"), LBlank]

  function CreateLine(t: DbTable): seq<Lexeme> {
    CREATE_HEAD + [LQuoted(t.name), LBlank, LPunct('('), LNewline]
    + Joined(ColumnLines(t.fields), [LPunct(','), LNewline])
    + [LNewline, LPunct(')'), LPunct(';')]
  }

  /** `_sql_literal`. */
  function LiteralLexemes(v: Value): seq<Lexeme> {
    match v
    case VNull => [LWord("NULL")]
    case VBool(b) => [LWord(if b then "TRUE" else "FALSE")]
    case VInt(n) => if n < 0 then [LMinus, LNumber(Decimal(-n, 1))] else [LNumber(Decimal(n, 1))]
    case VFloat(negative, text) => if negative then [LMinus, LNumber(text)] else [LNumber(text)]
    case VText(s) => [LString(s)]
  }

  function ValueOf(r: Record, name: string): Value {
    if name in r.values then r.values[name] else VNull
  }

  /** The cells of a row: the record id, then the fields in order. */
  function Cells(fields: seq<Field>, r: Record): (vs: seq<Value>)
    ensures |vs| == |fields| + 1
  {
    [VText(r.recordId)] + seq(|fields|, i requires 0 <= i < |fields| => ValueOf(r, fields[i].name))
  }

  function RowLexemes(fields: seq<Field>, r: Record): seq<Lexeme> {
    var vs := Cells(fields, r);
    [LBlank, LBlank, LPunct('(')]
    + Joined(seq(|vs|, i requires 0 <= i < |vs| => LiteralLexemes(vs[i])), [LPunct(','), LBlank])
    + [LPunct(')')]
  }

  function NameLexemes(fields: seq<Field>): (r: seq<seq<Lexeme>>)
    ensures |r| == |fields| + 1
  {
    [[LQuoted("record_id")]] + seq(|fields|, i requires 0 <= i < |fields| => [LQuoted(fields[i].name)])
  }

  function InsertHead(t: DbTable): seq<Lexeme> {
    [LWord("INSERT"), LBlank, LWord("INTO"), LBlank, LQuoted(t.name), LBlank, LPunct('(')]
    + Joined(NameLexemes(t.fields), [LPunct(','), LBlank])
    + [LPunct(')'), LBlank, LWord("VALUES")]
  }

  function InsertLine(t: DbTable, rows: seq<Record>): seq<Lexeme> {
    InsertHead(t) + [LNewline]
    + Joined(seq(|rows|, i requires 0 <= i < |rows| => RowLexemes(t.fields, rows[i])), [LPunct(','), LNewline])
    + [LPunct(';')]
  }

  const CHUNK := 100

  /** The rows in INSERTs of at most 100. */
  function Chunks(rows: seq<Record>): (cs: seq<seq<Record>>)
    ensures forall c :: c in cs ==> 0 < |c| <= CHUNK
  {
    if |rows| == 0 then [] else if |rows| <= CHUNK then [rows] else [rows[..CHUNK]] + Chunks(rows[CHUNK..])
  }

  function CreateLines(tables: seq<DbTable>): seq<seq<Lexeme>>
  {
    if |tables| == 0 then [] else [CreateLine(tables[0]), []] + CreateLines(tables[1..])
  }

  function InsertLinesOf(t: DbTable, chunks: seq<seq<Record>>): (r: seq<seq<Lexeme>>)
    ensures |r| == |chunks|
  {
    seq(|chunks|, i requires 0 <= i < |chunks| => InsertLine(t, chunks[i]))
  }

  function InsertLines(tables: seq<DbTable>): seq<seq<Lexeme>>
  {
    if |tables| == 0 then []
    else
      InsertLinesOf(tables[0], Chunks(tables[0].rows)) + (if |tables[0].rows| > 0 then [[]] else []) + InsertLines(tables[1..])
  }

  function Lines(ls: seq<seq<Lexeme>>): seq<Lexeme>
  {
    if |ls| == 0 then [] else [LNewline] + ls[0] + Lines(ls[1..])
  }

  /** The header, with the export time as given. */
  function Header(name: string, date: string): seq<Lexeme> {
    [LComment(" MDC export of database \"" + name + "\" - " + date),
     LComment(" mdc-database: " + name),
     LComment(SCOPE_NOTE)]
  }

  const SCOPE_NOTE := " Structure and data. " + "Standard SQL: " + "import it into MDC, " + "or run it in "
    + "another database."


  /** `_sql` with scope "all". */
  function Script(db: Db, date: string): seq<Lexeme> {
    Header(db.name, date) + Lines(CreateLines(db.tables) + InsertLines(db.tables))
  }

  function ExportText(db: Db, date: string): string {
    Render(Script(db, date))
  }

  // ---------------------------------------------------------- what can be printed

  /** Names are fixed points of `safe_identifier`, distinct, and not the record id;
      decimals are written in full. A table may have no field. */
  predicate PrintableTable(t: DbTable) {
    && Safe(t.name)
    && (forall i :: 0 <= i < |t.fields| ==> Safe(t.fields[i].name) && t.fields[i].name != RECORD_ID)
    && (forall i, j :: 0 <= i < j < |t.fields| ==> t.fields[i].name != t.fields[j].name)
    && (forall i, n :: 0 <= i < |t.rows| && n in t.rows[i].values ==> PrintableValue(t.rows[i].values[n]))
  }

  predicate PrintableValue(v: Value) {
    v.VFloat? ==> NumberText(v.text) && IsDecimalText(v.text)
  }

  predicate DatabaseName(name: string) {
    |name| > 0 && NameStart(name[0]) && forall i :: 0 <= i < |name| ==> DatabaseChar(name[i])
  }

  predicate OneLine(s: string) {
    forall i :: 0 <= i < |s| ==> s[i] != '\n'
  }

  predicate Printable(db: Db) {
    && DatabaseName(db.name)
    && (forall i :: 0 <= i < |db.tables| ==> PrintableTable(db.tables[i]))
    && (forall i, j :: 0 <= i < j < |db.tables| ==> db.tables[i].name != db.tables[j].name)
  }

  // -------------------------------------------------------------- safe names

  predicate SafeChar(c: char) {
    ('a' <= c <= 'z') || IsDigit(c) || c == '_'
  }

  lemma {:induction false} CleanedChars(s: string, inRun: bool)
    ensures forall i :: 0 <= i < |Cleaned(s, inRun)| ==> NameChar(Cleaned(s, inRun)[i])
  {
    if |s| > 0 {
      CleanedChars(s[1..], false);
      CleanedChars(s[1..], true);
    }
  }

  lemma {:induction false} StripLeftPart(s: string)
    ensures exists i :: 0 <= i <= |s| && StripLeft(s) == s[i..]
  {
    if |s| > 0 && s[0] == '_' {
      StripLeftPart(s[1..]);
      var i :| 0 <= i <= |s[1..]| && StripLeft(s[1..]) == s[1..][i..];
      assert s[1..][i..] == s[i + 1..];
    } else {
      assert s[0..] == s;
    }
  }

  lemma {:induction false} StripRightPart(s: string)
    ensures exists i :: 0 <= i <= |s| && StripRight(s) == s[..i]
  {
    if |s| > 0 && s[|s| - 1] == '_' {
      StripRightPart(s[..|s| - 1]);
      var i :| 0 <= i <= |s[..|s| - 1]| && StripRight(s[..|s| - 1]) == s[..|s| - 1][..i];
      assert s[..|s| - 1][..i] == s[..i];
    } else {
      assert s[..|s|] == s;
    }
  }

  /** Every name that comes out is in lower case, with no quotes in it. */
  lemma SafeNameChars(raw: string)
    ensures SafeName(raw) != "" && forall i :: 0 <= i < |SafeName(raw)| ==> SafeChar(SafeName(raw)[i])
  {
    hide Cleaned, StripLeft, StripRight;
    var c := Cleaned(raw, false);
    CleanedChars(raw, false);
    StripLeftPart(c);
    var l := StripLeft(c);
    StripRightPart(l);
    var text := Lower(StripRight(l));
    assert forall i :: 0 <= i < |text| ==> SafeChar(text[i]);
    ColumnChars();
  }

  lemma ColumnChars()
    ensures forall i :: 0 <= i < |"column"| ==> SafeChar("column"[i])
  {
  }

  lemma SafeLower(name: string)
    requires Safe(name)
    ensures Lower(name) == name && OneLine(name) && forall i :: 0 <= i < |name| ==> name[i] != '"'
  {
    hide SafeName;
    SafeNameChars(name);
  }

  // --------------------------------------------------------------- readability

  lemma DecimalIsNumber(n: nat)
    ensures NumberText(Decimal(n, 1)) && AllDigits(Decimal(n, 1)) && !IsDecimalText(Decimal(n, 1))
            && ReadDecimal(Decimal(n, 1)) == n
  {
    hide Decimal;
    DecimalReadsBack(n, 1);
    DigitsOnly(Decimal(n, 1));
  }

  lemma DigitsOnly(t: string)
    requires |t| > 0 && AllDigits(t)
    ensures NumberText(t) && !IsDecimalText(t)
  {
    AllDigitRun(t, 0);
  }

  lemma {:induction false} AllDigitRun(t: string, i: nat)
    requires i <= |t| && AllDigits(t)
    ensures DigitRun(t, i) == |t| - i
    decreases |t| - i
  {
    if i < |t| { AllDigitRun(t, i + 1); }
  }

  /** Readable text stays readable when put together, if the ends are apart. */
  lemma ReadableAppend(xs: seq<Lexeme>, ys: seq<Lexeme>)
    requires Readable(xs) && Readable(ys) && (|xs| > 0 && |ys| > 0 ==> Apart(xs[|xs| - 1], ys[0]))
    ensures Readable(xs + ys)
  {
    hide Sound, Apart;
    var all := xs + ys;
    forall i | 0 <= i < |all| - 1 ensures Apart(all[i], all[i + 1]) {
      if i < |xs| - 1 { assert Apart(xs[i], xs[i + 1]); } else if i >= |xs| { assert Apart(ys[i - |xs|], ys[i - |xs| + 1]); }
    }
  }

  /** A separator that anything may precede, and that may precede anything. */
  ghost predicate Separates(sep: seq<Lexeme>) {
    |sep| > 0 && Readable(sep) && (sep[0].LPunct? || sep[0].LNewline? || sep[0].LBlank?)
    && (sep[|sep| - 1].LPunct? || sep[|sep| - 1].LNewline? || sep[|sep| - 1].LBlank?)
  }

  /** A whole piece: readable, not ending in a sign. */
  ghost predicate Whole(xs: seq<Lexeme>) {
    Readable(xs) && |xs| > 0 && !xs[|xs| - 1].LMinus?
  }

  lemma {:induction false} JoinedWhole(xs: seq<seq<Lexeme>>, sep: seq<Lexeme>)
    requires Separates(sep) && |xs| > 0 && forall i :: 0 <= i < |xs| ==> Whole(xs[i])
    ensures Whole(Joined(xs, sep))
  {
    if |xs| > 1 {
      hide Readable;
      JoinedWhole(xs[1..], sep);
      var rest := Joined(xs[1..], sep);
      ReadableAppend(xs[0], sep);
      ReadableAppend(xs[0] + sep, rest);
    }
  }

  lemma WholeAround(pre: seq<Lexeme>, xs: seq<Lexeme>, post: seq<Lexeme>)
    requires Readable(pre) && Readable(post) && Whole(xs) && |pre| > 0 && |post| > 0
    requires pre[|pre| - 1].LPunct? || pre[|pre| - 1].LNewline? || pre[|pre| - 1].LBlank?
    requires post[0].LPunct? || post[0].LNewline? || post[0].LBlank?
    ensures Readable(pre + xs + post)
  {
    hide Readable;
    ReadableAppend(pre, xs);
    ReadableAppend(pre + xs, post);
  }

  lemma LiteralWhole(v: Value)
    requires PrintableValue(v)
    ensures Whole(LiteralLexemes(v))
  {
    hide Decimal, NumberLength;
    match v
    case VInt(n) => if n < 0 { DecimalIsNumber(-n); } else { DecimalIsNumber(n); }
    case _ =>
  }

  lemma ColumnWhole(f: Field)
    requires Safe(f.name)
    ensures Whole(ColumnLexemes(f))
  {
    SafeLower(f.name);
    hide SafeName;
    var start := [LBlank, LBlank, LQuoted(f.name), LBlank];
    assert Readable(start);
    TypeWhole(f.datatype_);
    hide Readable;
    ReadableAppend(start, TypeLexemes(f.datatype_));
    RequiredReadable();
    if f.required { ReadableAppend(start + TypeLexemes(f.datatype_), [LBlank, LWord("NOT"), LBlank, LWord("NULL")]); }
    ColumnEnd(f);
  }

  lemma ColumnEnd(f: Field)
    ensures |ColumnLexemes(f)| > 0 && ColumnLexemes(f)[|ColumnLexemes(f)| - 1].LWord?
  {
  }

  lemma TypeWhole(t: Datatype)
    ensures Whole(TypeLexemes(t)) && TypeLexemes(t)[0].LWord? && TypeLexemes(t)[|TypeLexemes(t)| - 1].LWord?
  {
  }

  lemma RequiredReadable()
    ensures Readable([LBlank, LWord("NOT"), LBlank, LWord("NULL")])
  {
  }

  lemma IdColumnWhole()
    ensures Whole(ID_COLUMN)
  {
    IdStart();
    IdType();
    IdEnd();
    hide Readable;
    var a := [LBlank, LBlank, LQuoted("record_id"), LBlank];
    var b := [LWord("VARCHAR"), LPunct('('), LNumber("64"), LPunct(')')];
    var c := [LBlank, LWord("PRIMARY"), LBlank, LWord("KEY")];
    ReadableAppend(a, b);
    ReadableAppend(a + b, c);
    assert ID_COLUMN == a + b + c;
  }

  lemma IdStart()
    ensures Readable([LBlank, LBlank, LQuoted("record_id"), LBlank])
  {
  }

  lemma IdType()
    ensures Readable([LWord("VARCHAR"), LPunct('('), LNumber("64"), LPunct(')')])
  {
    SixtyFour();
    hide NumberLength;
  }

  lemma IdEnd()
    ensures Readable([LBlank, LWord("PRIMARY"), LBlank, LWord("KEY")])
  {
  }

  lemma SixtyFour()
    ensures NumberText("64")
  {
    assert DigitRun("64", 2) == 0;
    assert DigitRun("64", 1) == 1;
    assert DigitRun("64", 0) == 2;
  }

  lemma SmallSeparators()
    ensures Separates([LPunct(','), LNewline]) && Separates([LPunct(','), LBlank])
  {
  }

  lemma CreateReadable(t: DbTable)
    requires PrintableTable(t)
    ensures Whole(CreateLine(t))
  {
    hide Whole, Separates, SafeName, ColumnLexemes;
    var lines := ColumnLines(t.fields);
    SmallSeparators();
    IdColumnWhole();
    SafeLower(t.name);
    forall i | 0 <= i < |lines| ensures Whole(lines[i]) { if i > 0 { ColumnWhole(t.fields[i - 1]); } }
    JoinedWhole(lines, [LPunct(','), LNewline]);
    CreateEnds(t, Joined(lines, [LPunct(','), LNewline]));
  }

  lemma CreateStart(name: string)
    requires forall i :: 0 <= i < |name| ==> name[i] != '"'
    ensures Readable(CREATE_HEAD + [LQuoted(name), LBlank, LPunct('('), LNewline])
  {
  }

  lemma CreateClose()
    ensures Readable([LNewline, LPunct(')'), LPunct(';')])
  {
  }

  lemma CreateEnds(t: DbTable, body: seq<Lexeme>)
    requires Whole(body) && forall i :: 0 <= i < |t.name| ==> t.name[i] != '"'
    ensures Whole(CREATE_HEAD + [LQuoted(t.name), LBlank, LPunct('('), LNewline] + body + [LNewline, LPunct(')'),
            LPunct(';')])
  {
    var pre := CREATE_HEAD + [LQuoted(t.name), LBlank, LPunct('('), LNewline];
    var post := [LNewline, LPunct(')'), LPunct(';')];
    CreateStart(t.name);
    CreateClose();
    hide Readable;
    WholeAround(pre, body, post);
    var all := pre + body + post;
    assert all[|all| - 1] == LPunct(';');
  }

  lemma RowWhole(fields: seq<Field>, r: Record)
    requires forall n :: n in r.values ==> PrintableValue(r.values[n])
    ensures Whole(RowLexemes(fields, r))
  {
    hide Whole, Separates, LiteralLexemes;
    var vs := Cells(fields, r);
    var cells := seq(|vs|, i requires 0 <= i < |vs| => LiteralLexemes(vs[i]));
    SmallSeparators();
    forall i | 0 <= i < |cells| ensures Whole(cells[i]) { LiteralWhole(vs[i]); }
    JoinedWhole(cells, [LPunct(','), LBlank]);
    RowEnds(Joined(cells, [LPunct(','), LBlank]));
  }

  lemma RowEnds(body: seq<Lexeme>)
    requires Whole(body)
    ensures Whole([LBlank, LBlank, LPunct('(')] + body + [LPunct(')')])
  {
    WholeAround([LBlank, LBlank, LPunct('(')], body, [LPunct(')')]);
    var all := [LBlank, LBlank, LPunct('(')] + body + [LPunct(')')];
    assert all[|all| - 1] == LPunct(')');
  }

  lemma InsertReadable(t: DbTable, rows: seq<Record>)
    requires PrintableTable(t) && |rows| > 0 && forall i, n :: 0 <= i < |rows| && n in rows[i].values ==> PrintableValue(rows[i].values[n])
    ensures Whole(InsertLine(t, rows))
  {
    hide Whole, Separates, SafeName, RowLexemes;
    SmallSeparators();
    SafeLower(t.name);
    var names := NameLexemes(t.fields);
    forall i | 0 <= i < |names| ensures Whole(names[i]) {
      if i > 0 { SafeLower(t.fields[i - 1].name); NameWhole(t.fields[i - 1].name); } else { NameWhole("record_id"); }
    }
    JoinedWhole(names, [LPunct(','), LBlank]);
    HeadEnds(t, Joined(names, [LPunct(','), LBlank]));
    var groups := seq(|rows|, i requires 0 <= i < |rows| => RowLexemes(t.fields, rows[i]));
    forall i | 0 <= i < |groups| ensures Whole(groups[i]) { RowWhole(t.fields, rows[i]); }
    JoinedWhole(groups, [LPunct(','), LNewline]);
    LineEnds(InsertHead(t), Joined(groups, [LPunct(','), LNewline]));
  }

  lemma NameWhole(name: string)
    requires forall i :: 0 <= i < |name| ==> name[i] != '"'
    ensures Whole([LQuoted(name)])
  {
  }

  lemma InsertStart(name: string)
    requires forall i :: 0 <= i < |name| ==> name[i] != '"'
    ensures Readable([LWord("INSERT"), LBlank, LWord("INTO"), LBlank, LQuoted(name), LBlank, LPunct('(')])
  {
    WordBlank("INSERT");
    WordBlank("INTO");
    var a, b, c := [LWord("INSERT"), LBlank], [LWord("INTO"), LBlank], [LQuoted(name), LBlank, LPunct('(')];
    assert Readable(c);
    ReadableAppend(a, b);
    ReadableAppend(a + b, c);
    hide Readable;
    assert [LWord("INSERT"), LBlank, LWord("INTO"), LBlank, LQuoted(name), LBlank, LPunct('(')] == a + b + c;
  }

  lemma WordBlank(w: string)
    requires Sound(LWord(w))
    ensures Readable([LWord(w), LBlank])
  {
  }

  lemma InsertValues()
    ensures Readable([LPunct(')'), LBlank, LWord("VALUES")])
  {
  }

  lemma HeadEnds(t: DbTable, names: seq<Lexeme>)
    requires Whole(names) && forall i :: 0 <= i < |t.name| ==> t.name[i] != '"'
    ensures Whole([LWord("INSERT"), LBlank, LWord("INTO"), LBlank, LQuoted(t.name), LBlank, LPunct('(')] + names
                  + [LPunct(')'), LBlank, LWord("VALUES")])
  {
    var pre := [LWord("INSERT"), LBlank, LWord("INTO"), LBlank, LQuoted(t.name), LBlank, LPunct('(')];
    var post := [LPunct(')'), LBlank, LWord("VALUES")];
    InsertStart(t.name);
    InsertValues();
    hide Readable;
    WholeAround(pre, names, post);
    var all := pre + names + post;
    assert all[|all| - 1] == LWord("VALUES");
  }

  lemma LineEnds(head: seq<Lexeme>, body: seq<Lexeme>)
    requires Whole(head) && Whole(body)
    ensures Whole(head + [LNewline] + body + [LPunct(';')])
  {
    hide Readable;
    OnePiece(LNewline);
    OnePiece(LPunct(';'));
    ReadableAppend(head, [LNewline]);
    ReadableAppend(head + [LNewline], body);
    ReadableAppend(head + [LNewline] + body, [LPunct(';')]);
    var all := head + [LNewline] + body + [LPunct(';')];
    assert all[|all| - 1] == LPunct(';');
  }

  lemma OnePiece(l: Lexeme)
    requires Sound(l)
    ensures Readable([l])
  {
  }

  /** A line of the script: empty, or a whole statement. */
  ghost predicate GoodLine(l: seq<Lexeme>) {
    l == [] || Whole(l)
  }

  lemma {:induction false} LinesReadable(ls: seq<seq<Lexeme>>)
    requires forall i :: 0 <= i < |ls| ==> GoodLine(ls[i])
    ensures Readable(Lines(ls))
    decreases |ls|
  {
    if |ls| > 0 {
      hide Readable;
      LinesReadable(ls[1..]);
      OnePiece(LNewline);
      var rest := Lines(ls[1..]);
      if ls[0] != [] {
        ReadableAppend([LNewline], ls[0]);
      } else {
        assert [LNewline] + ls[0] == [LNewline];
      }
      LinesStart(ls[1..]);
      ReadableAppend([LNewline] + ls[0], rest);
    }
  }

  lemma LinesStart(ls: seq<seq<Lexeme>>)
    ensures |ls| > 0 ==> |Lines(ls)| > 0 && Lines(ls)[0] == LNewline
  {
  }

  lemma {:induction false} CreateLinesGood(tables: seq<DbTable>)
    requires forall i :: 0 <= i < |tables| ==> PrintableTable(tables[i])
    ensures forall i :: 0 <= i < |CreateLines(tables)| ==> GoodLine(CreateLines(tables)[i])
  {
    hide CreateLine, PrintableTable, Whole;
    if |tables| > 0 {
      CreateReadable(tables[0]);
      CreateLinesGood(tables[1..]);
    }
  }

  lemma {:induction false} ChunksPrintable(rows: seq<Record>)
    ensures forall c :: 0 <= c < |Chunks(rows)| ==> forall i :: 0 <= i < |Chunks(rows)[c]| ==> Chunks(rows)[c][i] in rows
  {
    if |rows| > CHUNK { ChunksPrintable(rows[CHUNK..]); }
  }

  lemma {:induction false} InsertLinesGood(tables: seq<DbTable>)
    requires forall i :: 0 <= i < |tables| ==> PrintableTable(tables[i])
    ensures forall i :: 0 <= i < |InsertLines(tables)| ==> GoodLine(InsertLines(tables)[i])
  {
    hide InsertLine, Whole, Chunks, SafeName;
    if |tables| > 0 {
      InsertLinesGood(tables[1..]);
      var t, chunks := tables[0], Chunks(tables[0].rows);
      ChunksPrintable(t.rows);
      forall c | 0 <= c < |chunks| ensures GoodLine(InsertLinesOf(t, chunks)[c]) {
        assert chunks[c] in chunks;
        forall i, n | 0 <= i < |chunks[c]| && n in chunks[c][i].values ensures PrintableValue(chunks[c][i].values[n]) {
          assert chunks[c][i] in t.rows;
        }
        InsertReadable(t, chunks[c]);
      }
    }
  }

  lemma OneLineAppend(a: string, b: string)
    requires OneLine(a) && OneLine(b)
    ensures OneLine(a + b)
  {
  }

  lemma ScopeNoteOneLine()
    ensures OneLine(SCOPE_NOTE)
  {
    var a, b, c, d, e := " Structure and data. ", "Standard SQL: ", "import it into MDC, ", "or run it in ", "another database.";
    assert OneLine(a) && OneLine(b);
    OneLineAppend(a, b);
    assert OneLine(c);
    OneLineAppend(a + b, c);
    assert OneLine(d);
    OneLineAppend(a + b + c, d);
    assert OneLine(e);
    OneLineAppend(a + b + c + d, e);
  }

  lemma DatabaseNameOneLine(name: string)
    requires DatabaseName(name)
    ensures OneLine(name)
  {
  }

  lemma HeaderReadable(name: string, date: string)
    requires DatabaseName(name) && OneLine(date)
    ensures Readable(Header(name, date))
  {
    DatabaseNameOneLine(name);
    ScopeNoteOneLine();
    hide SCOPE_NOTE;
    HeaderLines(name, date);
    hide OneLine;
    ThreeComments(" MDC export of database \"" + name + "\" - " + date, " mdc-database: " + name, SCOPE_NOTE);
  }

  lemma HeaderLines(name: string, date: string)
    requires OneLine(name) && OneLine(date)
    ensures OneLine(" MDC export of database \"" + name + "\" - " + date) && OneLine(" mdc-database: " + name)
  {
    var a, b := " MDC export of database \"", "\" - ";
    assert OneLine(a) && OneLine(b);
    hide OneLine;
    OneLineAppend(a, name);
    OneLineAppend(a + name, b);
    OneLineAppend(a + name + b, date);
    MarkOneLine();
    OneLineAppend(" mdc-database: ", name);
  }

  lemma MarkOneLine()
    ensures OneLine(" mdc-database: ")
  {
  }

  lemma ThreeComments(a: string, b: string, c: string)
    requires OneLine(a) && OneLine(b) && OneLine(c)
    ensures Readable([LComment(a), LComment(b), LComment(c)])
  {
  }

  lemma ScriptReadable(db: Db, date: string)
    requires Printable(db) && OneLine(date)
    ensures Readable(Script(db, date))
  {
    hide Readable, PrintableTable, CreateLines, InsertLines, Lines, GoodLine;
    HeaderReadable(db.name, date);
    CreateLinesGood(db.tables);
    InsertLinesGood(db.tables);
    var ls := CreateLines(db.tables) + InsertLines(db.tables);
    LinesReadable(ls);
    ReadableAppend(Header(db.name, date), Lines(ls));
  }
}
