/** Reading a script into tables: what every statement of a script means to the
    importer, and which it refuses. */
module SqlReader {
  // Statements, groups, lists, CREATE TABLE and INSERT
  // (mdc/src/mdc/portability/readers.py:270-512,
  // mdc/src/mdc/portability/plan.py:89-126).

  import opened Outcomes
  import opened KeySpace
  import opened SqlLexer

  datatype Datatype = TString | TDecimal | TInteger | TBoolean | TDatetime

  datatype Column = Column(name: string, datatype_: Datatype, required: bool)

  /** Values as they are read: a decimal is its sign and its text. */
  datatype Value = VNull | VBool(b: bool) | VInt(n: int) | VFloat(negative: bool, text: string) | VText(s: string)

  datatype Row = Row(values: map<string, Value>, recordId: Option<string>)

  /** A table of the plan, and the declared order of its columns. */
  datatype Table = Table(name: string, columns: Option<seq<Column>>, rows: seq<Row>, ifNotExists: bool, order: seq<string>)

  datatype Plan = Plan(tables: seq<Table>, database: Option<string>)

  datatype Refusal =
    | Lexical(error: SqlLexer.Error) | NoStatements | NoTables | EndsEarly | NoTableName | NoColumnList | NoColumns
    | Unbalanced | NotValues | UnknownColumns | ExpectedGroup | WrongCount | Unsupported

  const RECORD_ID := "record_id"

  // --------------------------------------------------------------------- names

  function LowerChar(c: char): char {
    if 'A' <= c <= 'Z' then c + 32 as char else c
  }

  function Lower(s: string): (r: string)
    ensures |r| == |s|
  {
    seq(|s|, i requires 0 <= i < |s| => LowerChar(s[i]))
  }

  function UpperChar(c: char): char {
    if 'a' <= c <= 'z' then c - 32 as char else c
  }

  function Upper(s: string): (r: string)
    ensures |r| == |s|
  {
    seq(|s|, i requires 0 <= i < |s| => UpperChar(s[i]))
  }

  predicate NameChar(c: char) {
    WordStart(c) || IsDigit(c)
  }

  /** Every run of other characters becomes one underscore. */
  function Cleaned(s: string, inRun: bool): string
  {
    if |s| == 0 then ""
    else if NameChar(s[0]) then [s[0]] + Cleaned(s[1..], false)
    else (if inRun then "" else "_") + Cleaned(s[1..], true)
  }

  function StripLeft(s: string): string {
    if |s| > 0 && s[0] == '_' then StripLeft(s[1..]) else s
  }

  function StripRight(s: string): string {
    if |s| > 0 && s[|s| - 1] == '_' then StripRight(s[..|s| - 1]) else s
  }

  /** `safe_identifier` without `used`. Surrounding blanks end up as underscores at
      the ends, which are stripped. */
  function SafeName(raw: string): string {
    var text := Lower(StripRight(StripLeft(Cleaned(raw, false))));
    if |text| == 0 then "column" else if IsDigit(text[0]) then "_" + text else text
  }

  /** The first of name, name_2, name_3, ... that is not used. */
  function Unused(name: string, used: set<string>, n: nat, left: nat): string
    decreases left
  {
    var candidate := if n < 2 then name else name + "_" + Decimal(n, 1);
    if candidate !in used || left == 0 then candidate else Unused(name, used, if n < 2 then 2 else n + 1, left - 1)
  }

  /** `safe_identifier` with `used`; among |used| + 1 candidates one is free. */
  function SafeUnique(raw: string, used: set<string>): string {
    Unused(SafeName(raw), used, 0, |used|)
  }

  predicate Safe(name: string) {
    SafeName(name) == name
  }

  /** `sql_type_to_datatype`, for the words of a type joined by blanks. */
  function TypeOf(words: seq<string>): Datatype {
    var base := if |words| == 0 then "" else Lower(words[0]);
    if base in {"int", "integer", "bigint", "smallint", "tinyint", "mediumint", "serial", "bigserial", "smallserial",
                "int2", "int4", "int8"}
    then TInteger
    else if base in {"decimal", "numeric", "float", "double", "real", "money", "number", "float4", "float8", "dec", "fixed"} then TDecimal
    else if base in {"bool", "boolean", "bit"} then TBoolean
    else if base in {"date", "datetime", "timestamp", "timestamptz", "datetime2", "time", "smalldatetime"} then TDatetime
    else TString
  }

  // -------------------------------------------------------------------- tokens

  /** `_upper`: a keyword, or nothing for any other token. */
  function Keyword(t: Token): string {
    if t.Word? then Upper(t.w) else ""
  }

  function KeywordAt(st: seq<Token>, i: nat): string {
    if i < |st| then Keyword(st[i]) else ""
  }

  predicate IsIdent(t: Token) {
    t.Word? || t.QIdent?
  }

  /** `str(token[1])`. */
  function Spelling(t: Token): string {
    match t
    case Word(w) => w
    case QIdent(name) => name
    case Str(s) => s
    case Num(text) => text
    case Punct(p) => [p]
    case Op(op) => [op]
  }

  const SEMICOLON := Punct(';')
  const COMMA := Punct(',')
  const OPEN := Punct('(')
  const CLOSE := Punct(')')

  /** `_split_statements`. */
  function Statements(tokens: seq<Token>, current: seq<Token>): seq<seq<Token>>
    decreases |tokens|
  {
    if |tokens| == 0 then (if |current| == 0 then [] else [current])
    else if tokens[0] == SEMICOLON then (if |current| == 0 then [] else [current]) + Statements(tokens[1..], [])
    else Statements(tokens[1..], current + [tokens[0]])
  }

  /** `_split_top_level`: cut at the commas outside parentheses; an empty last part
      is dropped. */
  function Parts(tokens: seq<Token>, current: seq<Token>, depth: int): seq<seq<Token>>
    decreases |tokens|
  {
    if |tokens| == 0 then (if |current| == 0 then [] else [current])
    else
      var d := if tokens[0] == OPEN then depth + 1 else if tokens[0] == CLOSE then depth - 1 else depth;
      if tokens[0] == COMMA && d == 0 then [current] + Parts(tokens[1..], [], d)
      else Parts(tokens[1..], current + [tokens[0]], d)
  }

  /** Position of the parenthesis that brings the depth back to 0, or the end. */
  function GroupEnd(tokens: seq<Token>, j: nat, depth: int): (e: nat)
    requires j <= |tokens|
    ensures j <= e <= |tokens|
    decreases |tokens| - j
  {
    if j == |tokens| then j
    else if tokens[j] == OPEN then GroupEnd(tokens, j + 1, depth + 1)
    else if tokens[j] == CLOSE && depth == 1 then j
    else if tokens[j] == CLOSE then GroupEnd(tokens, j + 1, depth - 1)
    else GroupEnd(tokens, j + 1, depth)
  }

  datatype Group = Group(inner: seq<Token>, next: nat)

  /** `_group`. */
  function GroupAt(tokens: seq<Token>, pos: nat): (r: Result<Group, Refusal>)
    requires pos < |tokens| && tokens[pos] == OPEN
    ensures r.Ok? ==> pos < r.value.next <= |tokens|
  {
    var e := GroupEnd(tokens, pos, 0);
    if e == |tokens| || e == pos then Err(Unbalanced) else Ok(Group(tokens[pos + 1..e], e + 1))
  }

  /** `_read_qualified_name`: the last part of a dotted name. */
  function QualifiedName(st: seq<Token>, pos: nat): Result<(string, nat), Refusal> {
    if pos >= |st| || !IsIdent(st[pos]) then Err(NoTableName) else Ok(LastPart(st, pos))
  }

  function LastPart(st: seq<Token>, pos: nat): (r: (string, nat))
    requires pos < |st|
    ensures r.1 > pos
    decreases |st| - pos
  {
    if pos + 2 < |st| && st[pos + 1] == Punct('.') && IsIdent(st[pos + 2]) then LastPart(st, pos + 2)
    else (Spelling(st[pos]), pos + 1)
  }

  // -------------------------------------------------------------------- tables

  function IndexOf(tables: seq<Table>, name: string): (i: nat)
    ensures i <= |tables| && (i < |tables| ==> tables[i].name == name) && forall j :: 0 <= j < i ==> tables[j].name != name
  {
    if |tables| == 0 then 0
    else
      var i := IndexOf(tables[..|tables| - 1], name);
      if i < |tables| - 1 || tables[|tables| - 1].name == name then i else i + 1
  }

  /** `tables[name] = table`: in place, or at the end. */
  function SetTable(tables: seq<Table>, t: Table): seq<Table> {
    var i := IndexOf(tables, t.name);
    if i < |tables| then tables[i := t] else tables + [t]
  }

  // -------------------------------------------------------------- CREATE TABLE

  const COLUMN_STOP := {"NOT", "NULL", "PRIMARY", "DEFAULT", "REFERENCES", "UNIQUE", "CHECK", "AUTO_INCREMENT",
    "AUTOINCREMENT",
                        "GENERATED", "COLLATE", "COMMENT", "CONSTRAINT", "IDENTITY", "ON"}
  const TABLE_CONSTRAINT := {"CONSTRAINT", "PRIMARY", "FOREIGN", "UNIQUE", "CHECK", "KEY", "INDEX", "FULLTEXT",
    "SPATIAL", "LIKE", "EXCLUDE"}

  datatype TypeWords = TypeWords(words: seq<string>, next: nat)

  /** The words of a column's type, skipping parenthesised parts. */
  function ReadType(part: seq<Token>, i: nat): Result<TypeWords, Refusal>
    requires i <= |part|
    decreases |part| - i
  {
    if i == |part| then Ok(TypeWords([], i))
    else if part[i] == OPEN then
      var g :- GroupAt(part, i);
      ReadType(part, g.next)
    else if !part[i].Word? || Keyword(part[i]) in COLUMN_STOP then Ok(TypeWords([], i))
    else
      var more :- ReadType(part, i + 1);
      Ok(TypeWords([part[i].w] + more.words, more.next))
  }

  predicate HasKeyword(part: seq<Token>, i: nat, k: string)
    requires i <= |part|
  {
    exists j :: i <= j < |part| && Keyword(part[j]) == k
  }

  /** The columns read so far: specifications, declared order, primary keys named by
      constraints, and used names. */
  datatype Columns = Columns(specs: seq<Column>, order: seq<string>, keys: seq<string>, used: set<string>)

  function FirstOpen(part: seq<Token>, i: nat): (j: nat)
    requires i <= |part|
    ensures j <= |part| && (j < |part| ==> part[j] == OPEN)
    decreases |part| - i
  {
    if i == |part| || part[i] == OPEN then i else FirstOpen(part, i + 1)
  }

  function IdentNames(tokens: seq<Token>): seq<string>
  {
    if |tokens| == 0 then []
    else (if IsIdent(tokens[0]) then [Spelling(tokens[0])] else []) + IdentNames(tokens[1..])
  }

  /** One entry of a column list. */
  function ReadColumn(part: seq<Token>, cs: Columns): Result<Columns, Refusal>
    requires |part| > 0
  {
    var lead := Keyword(part[0]);
    if lead in TABLE_CONSTRAINT then
      if lead == "PRIMARY" || (lead == "CONSTRAINT" && HasKeyword(part, 0, "PRIMARY")) then
        var at := FirstOpen(part, 0);
        if at == |part| then Ok(cs)
        else
          var g :- GroupAt(part, at);
          Ok(cs.(keys := cs.keys + IdentNames(g.inner)))
      else Ok(cs)
    else
      var ty :- ReadType(part, 1);
      var required := ty.next <= |part|
                      && ((HasKeyword(part, ty.next, "NOT") && HasKeyword(part, ty.next, "NULL"))
                          || (HasKeyword(part, ty.next, "PRIMARY") && HasKeyword(part, ty.next, "KEY")));
      if Lower(Spelling(part[0])) == RECORD_ID then Ok(cs.(order := cs.order + [RECORD_ID]))
      else
        var name := SafeUnique(Spelling(part[0]), cs.used);
        Ok(Columns(cs.specs + [Column(name, TypeOf(ty.words), required)], cs.order + [name], cs.keys, cs.used + {name}))
  }

  function ReadColumns(parts: seq<seq<Token>>, cs: Columns): Result<Columns, Refusal>
    decreases |parts|
  {
    if |parts| == 0 then Ok(cs)
    else if |parts[0]| == 0 then ReadColumns(parts[1..], cs)
    else
      var next :- ReadColumn(parts[0], cs);
      ReadColumns(parts[1..], next)
  }

  function MarkKeys(specs: seq<Column>, keys: seq<string>): (r: seq<Column>)
    ensures |r| == |specs|
  {
    seq(|specs|, i requires 0 <= i < |specs| =>
      if exists k :: k in keys && Lower(k) == specs[i].name then specs[i].(required := true) else specs[i])
  }

  /** `_sql_create_table`. */
  function CreateTable(st: seq<Token>, tables: seq<Table>): Result<seq<Table>, Refusal>
    requires |st| >= 2
  {
    var start := if Keyword(st[1]) == "TABLE" then 2 else 3;
    if start >= |st| then Err(EndsEarly)
    else
      var ifNotExists := Keyword(st[start]) == "IF";
      var (raw, pos) :- QualifiedName(st, if ifNotExists then start + 3 else start);
      if pos >= |st| || st[pos] != OPEN then Err(NoColumnList)
      else
        var g :- GroupAt(st, pos);
        var cs :- ReadColumns(Parts(g.inner, [], 0), Columns([], [], [], {}));
        if |cs.specs| == 0 then Err(NoColumns)
        else Ok(SetTable(tables, Table(SafeName(raw), Some(MarkKeys(cs.specs, cs.keys)), [], ifNotExists, cs.order)))
  }

  // -------------------------------------------------------------------- INSERT

  predicate IsDecimalText(text: string) {
    exists i :: 0 <= i < |text| && (text[i] == '.' || text[i] == 'e' || text[i] == 'E')
  }

  predicate AllDigits(text: string) {
    forall i :: 0 <= i < |text| ==> IsDigit(text[i])
  }

  /** `_sql_literal`: one plain value, possibly signed. A sign before a string or a
      word is dropped. */
  function Literal(tokens: seq<Token>): Result<Value, Refusal> {
    var signed := |tokens| > 0 && (tokens[0] == Op('-') || tokens[0] == Op('+'));
    var negative := signed && tokens[0] == Op('-');
    var rest := if signed then tokens[1..] else tokens;
    if |rest| != 1 then Err(Unsupported)
    else
      match rest[0]
      case Str(s) => Ok(VText(s))
      case Num(text) =>
        if IsDecimalText(text) then Ok(VFloat(negative, text))
        else if AllDigits(text) then Ok(VInt(if negative then -(ReadDecimal(text) as int) else ReadDecimal(text)))
        else Err(Unsupported)
      case Word(w) =>
        var k := Upper(w);
        if k == "NULL" || k == "DEFAULT" then Ok(VNull)
        else if k == "TRUE" || k == "FALSE" then Ok(VBool(k == "TRUE"))
        else Err(Unsupported)
      case _ => Err(Unsupported)
  }

  /** `str(value)`, for a record id. */
  function TextOf(v: Value): string {
    match v
    case VNull => "None"
    case VBool(b) => if b then "True" else "False"
    case VInt(n) => if n < 0 then "-" + Decimal(-n, 1) else Decimal(n, 1)
    case VFloat(negative, text) => (if negative then "-" else "") + text
    case VText(s) => s
  }

  /** One row: the cells against the columns. */
  function ReadCells(columns: seq<string>, cells: seq<seq<Token>>, row: Row): Result<Row, Refusal>
    requires |columns| == |cells|
    decreases |columns|
  {
    if |columns| == 0 then Ok(row)
    else
      var v :- Literal(cells[0]);
      var next := if columns[0] == RECORD_ID then row.(recordId := if v == VNull then None else Some(TextOf(v)))
                  else if v == VNull then row else row.(values := row.values[columns[0] := v]);
      ReadCells(columns[1..], cells[1..], next)
  }

  /** The (value, ...) groups from `pos` on. */
  function ReadRows(st: seq<Token>, pos: nat, columns: seq<string>): Result<seq<Row>, Refusal>
    requires pos <= |st|
    decreases |st| - pos
  {
    if pos == |st| then Ok([])
    else if st[pos] == COMMA then ReadRows(st, pos + 1, columns)
    else if st[pos] != OPEN then Err(ExpectedGroup)
    else
      var g :- GroupAt(st, pos);
      var cells := Parts(g.inner, [], 0);
      if |cells| != |columns| then Err(WrongCount)
      else
        var row :- ReadCells(columns, cells, Row(map[], None));
        var rest :- ReadRows(st, g.next, columns);
        Ok([row] + rest)
  }

  function ColumnName(t: Token): string {
    if Lower(Spelling(t)) == RECORD_ID then RECORD_ID else SafeName(Spelling(t))
  }

  function ColumnNames(tokens: seq<Token>): seq<string>
  {
    if |tokens| == 0 then []
    else (if IsIdent(tokens[0]) then [ColumnName(tokens[0])] else []) + ColumnNames(tokens[1..])
  }

  /** The column list of an INSERT, if there is one, and where it ends. */
  function InsertColumns(st: seq<Token>, pos: nat): Result<(Option<seq<string>>, nat), Refusal> {
    if pos >= |st| then Err(EndsEarly)
    else if st[pos] != OPEN then Ok((None, pos))
    else
      var g :- GroupAt(st, pos);
      Ok((Some(ColumnNames(g.inner)), g.next))
  }

  /** `_sql_insert`. */
  function Insert(st: seq<Token>, tables: seq<Table>): Result<seq<Table>, Refusal>
    requires |st| >= 1
  {
    if |st| < 2 then Err(EndsEarly)
    else
      var (raw, pos) :- QualifiedName(st, if Keyword(st[1]) == "INTO" then 2 else 1);
      var (listed, at) :- InsertColumns(st, pos);
      if at >= |st| then Err(EndsEarly)
      else if Keyword(st[at]) != "VALUES" then Err(NotValues)
      else
        var name := SafeName(raw);
        var i := IndexOf(tables, name);
        if listed.None? && i == |tables| then Err(UnknownColumns)
        else
          var table := if i < |tables| then tables[i] else Table(name, None, [], false, []);
          var columns := if listed.Some? then listed.value else table.order;
          var rows :- ReadRows(st, at + 1, columns);
          Ok(SetTable(tables, table.(rows := table.rows + rows)))
  }

  // -------------------------------------------------------------------- script

  datatype Progress = Progress(tables: seq<Table>, database: Option<string>)

  /** One statement: what it declares; anything unknown is skipped. */
  function ReadStatement(st: seq<Token>, p: Progress): Result<Progress, Refusal>
    requires |st| > 0
  {
    var first, second := Keyword(st[0]), KeywordAt(st, 1);
    if first == "CREATE" && (second == "DATABASE" || second == "SCHEMA") then
      if |st| <= 2 then Err(EndsEarly)
      else
        var pos := if Keyword(st[2]) == "IF" then 5 else 2;
        if pos >= |st| then Err(EndsEarly)
        else Ok(p.(database := if p.database.None? then Some(Spelling(st[pos])) else p.database))
    else if first == "USE" && |st| > 1 && IsIdent(st[1]) then
      Ok(p.(database := if p.database.None? then Some(Spelling(st[1])) else p.database))
    else if first == "CREATE" && second in {"TEMP", "TEMPORARY", "UNLOGGED"} && |st| <= 2 then Err(EndsEarly)
    else if first == "CREATE" && (second == "TABLE" || (second in {"TEMP", "TEMPORARY", "UNLOGGED"} && Keyword(st[2]) == "TABLE")) then
      var ts :- CreateTable(st, p.tables);
      Ok(p.(tables := ts))
    else if first == "INSERT" then
      var ts :- Insert(st, p.tables);
      Ok(p.(tables := ts))
    else Ok(p)
  }

  function ReadAll(sts: seq<seq<Token>>, p: Progress): Result<Progress, Refusal>
    requires forall st :: st in sts ==> |st| > 0
    decreases |sts|
  {
    if |sts| == 0 then Ok(p)
    else
      var next :- ReadStatement(sts[0], p);
      ReadAll(sts[1..], next)
  }

  lemma {:induction false} StatementsNotEmpty(tokens: seq<Token>, current: seq<Token>)
    ensures forall st :: st in Statements(tokens, current) ==> |st| > 0
    decreases |tokens|
  {
    if |tokens| > 0 {
      StatementsNotEmpty(tokens[1..], []);
      StatementsNotEmpty(tokens[1..], current + [tokens[0]]);
    }
  }

  // ------------------------------------------------------- the database comment

  const MARK := "mdc-database:"

  predicate NameStart(c: char) {
    ('a' <= c <= 'z') || ('A' <= c <= 'Z')
  }

  predicate DatabaseChar(c: char) {
    NameStart(c) || IsDigit(c) || c == '_' || c == '-'
  }

  function SkipSpaces(u: Classes, t: string, i: nat): (j: nat)
    requires i <= |t|
    ensures i <= j <= |t|
    decreases |t| - i
  {
    if i < |t| && ClassOf(u, t[i]) == Space then SkipSpaces(u, t, i + 1) else i
  }

  function DatabaseRun(t: string, i: nat): (n: nat)
    requires i <= |t|
    ensures i + n <= |t|
    decreases |t| - i
  {
    if i == |t| || !DatabaseChar(t[i]) then 0 else 1 + DatabaseRun(t, i + 1)
  }

  /** The header pattern, tried at position `i`: two dashes at the start of a line,
      blanks, the mark, blanks, a name. */
  function HeaderAt(u: Classes, t: string, i: nat): Option<string>
    requires i <= |t|
  {
    if (i > 0 && t[i - 1] != '\n') || i + 2 > |t| || t[i] != '-' || t[i + 1] != '-' then None
    else
      var m := SkipSpaces(u, t, i + 2);
      if m + |MARK| > |t| || t[m..m + |MARK|] != MARK then None
      else
        var s := SkipSpaces(u, t, m + |MARK|);
        if s == |t| || !NameStart(t[s]) then None else Some(t[s..s + DatabaseRun(t, s)])
  }

  /** The first place where the pattern matches. */
  function HeaderFrom(u: Classes, t: string, i: nat): Option<string>
    requires i <= |t|
    decreases |t| - i
  {
    var h := HeaderAt(u, t, i);
    if h.Some? || i == |t| then h else HeaderFrom(u, t, i + 1)
  }

  /** `read_sql`. */
  function ReadSql(u: Classes, text: string): Result<Plan, Refusal> {
    var lexed := Tokens(u, text);
    if lexed.Err? then Err(Lexical(lexed.error))
    else
      var sts := Statements(lexed.value, []);
      StatementsNotEmpty(lexed.value, []);
      if |sts| == 0 then Err(NoStatements)
      else
        var p :- ReadAll(sts, Progress([], HeaderFrom(u, text, 0)));
        if |p.tables| == 0 then Err(NoTables) else Ok(Plan(p.tables, p.database))
  }
}
