/** Scripts that people write: the statements the importer knows, in every shape it
    accepts, and what each of them means. */
module SqlHand {
  // Tables with any types, sizes, defaults, constraints and keys, rows with or
  // without a column list, qualified and quoted names
  // (mdc/src/mdc/portability/readers.py:344-512).

  import opened Outcomes
  import opened SqlLexer
  import opened SqlReader
  import opened SqlRoundTrip

  // ---------------------------------------------------------------- statements

  /** A word of a column's type, or something in parentheses behind one. */
  datatype Piece = Named(w: string) | Sized(inner: seq<Token>)

  /** An entry of a column list: a column with its type and what follows it, a
      constraint that names primary keys, any other constraint. */
  datatype Item =
    | Col(name: Token, pieces: seq<Piece>, rest: seq<Token>)
    | Primary(lead: seq<Token>, keys: seq<Token>, rest: seq<Token>)
    | Constraint(tokens: seq<Token>)

  /** A statement. Names are given by their parts; `guard` is IF NOT EXISTS or nothing,
      `temp` and `into` a word or nothing. */
  datatype Stmt =
    | HandCreate(create: Token, temp: seq<Token>, table: Token, guard: seq<Token>, name: seq<Token>, items: seq<Item>,
                 options: seq<Token>)
    | HandInsert(insert: Token, into: seq<Token>, name: seq<Token>, listed: Option<seq<Token>>, values: Token,
                 rows: seq<seq<seq<Token>>>)
    | HandUse(use: Token, used: Token, options: seq<Token>)
    | HandDatabase(create: Token, kind: Token, guard: seq<Token>, declared: Token, options: seq<Token>)
    | HandOther(tokens: seq<Token>)

  function Dotted(parts: seq<Token>): seq<Token>
  {
    if |parts| <= 1 then parts else [parts[0], Punct('.')] + Dotted(parts[1..])
  }

  function PieceTokens(p: Piece): seq<Token> {
    match p
    case Named(w) => [Word(w)]
    case Sized(inner) => [OPEN] + inner + [CLOSE]
  }

  function PiecesTokens(ps: seq<Piece>): seq<Token>
  {
    if |ps| == 0 then [] else PieceTokens(ps[0]) + PiecesTokens(ps[1..])
  }

  function Singles(tokens: seq<Token>): (r: seq<seq<Token>>)
    ensures |r| == |tokens|
  {
    seq(|tokens|, i requires 0 <= i < |tokens| => [tokens[i]])
  }

  /** Tokens in parentheses, with commas between them. */
  function Listed(tokens: seq<Token>): seq<Token> {
    [OPEN] + JoinTokens(Singles(tokens)) + [CLOSE]
  }

  function ItemTokens(it: Item): seq<Token> {
    match it
    case Col(name, pieces, rest) => [name] + PiecesTokens(pieces) + rest
    case Primary(lead, keys, rest) => lead + Listed(keys) + rest
    case Constraint(tokens) => tokens
  }

  function ItemParts(items: seq<Item>): (r: seq<seq<Token>>)
    ensures |r| == |items|
  {
    seq(|items|, i requires 0 <= i < |items| => ItemTokens(items[i]))
  }

  function RowGroup(cells: seq<seq<Token>>): seq<Token> {
    [OPEN] + JoinTokens(cells) + [CLOSE]
  }

  function Groups(rows: seq<seq<seq<Token>>>): (r: seq<seq<Token>>)
    ensures |r| == |rows|
  {
    seq(|rows|, i requires 0 <= i < |rows| => RowGroup(rows[i]))
  }

  function StmtTokens(s: Stmt): seq<Token> {
    match s
    case HandCreate(create, temp, table, guard, name, items, options) =>
      [create] + temp + [table] + guard + Dotted(name) + [OPEN] + JoinTokens(ItemParts(items)) + [CLOSE] + options
    case HandInsert(insert, into, name, listed, values, rows) =>
      [insert] + into + Dotted(name) + (if listed.Some? then Listed(listed.value) else []) + [values]
      + JoinTokens(Groups(rows))
    case HandUse(use, used, options) => [use, used] + options
    case HandDatabase(create, kind, guard, declared, options) => [create, kind] + guard + [declared] + options
    case HandOther(tokens) => tokens
  }

  // -------------------------------------------------------------- what is accepted

  predicate Bare(t: Token) {
    t != OPEN && t != CLOSE && t != COMMA
  }

  ghost predicate GoodPiece(p: Piece) {
    match p
    case Named(w) => Keyword(Word(w)) !in COLUMN_STOP
    case Sized(inner) => Nested(inner, 0)
  }

  /** Where the words of a type end. */
  predicate EndsType(rest: seq<Token>) {
    |rest| > 0 ==> rest[0] != OPEN && (rest[0].Word? ==> Keyword(rest[0]) in COLUMN_STOP)
  }

  ghost predicate GoodItem(it: Item) {
    && |ItemTokens(it)| > 0 && Solid(ItemTokens(it), 0)
    && match it
       case Col(name, pieces, rest) =>
         Keyword(name) !in TABLE_CONSTRAINT && EndsType(rest) && forall i :: 0 <= i < |pieces| ==> GoodPiece(pieces[i])
       case Primary(lead, keys, rest) =>
         && |lead| > 0 && OPEN !in lead && (forall i :: 0 <= i < |keys| ==> IsIdent(keys[i]))
         && (Keyword(lead[0]) == "PRIMARY"
             || (Keyword(lead[0]) == "CONSTRAINT" && HasKeyword(ItemTokens(it), 0, "PRIMARY")))
       case Constraint(tokens) =>
         && Keyword(tokens[0]) in TABLE_CONSTRAINT && Keyword(tokens[0]) != "PRIMARY"
         && (Keyword(tokens[0]) == "CONSTRAINT" ==> !HasKeyword(tokens, 0, "PRIMARY"))
  }

  predicate GoodName(name: seq<Token>) {
    |name| > 0 && forall i :: 0 <= i < |name| ==> IsIdent(name[i])
  }

  ghost predicate GoodCell(cell: seq<Token>) {
    |cell| > 0 && Solid(cell, 0)
  }

  ghost predicate GoodRows(rows: seq<seq<seq<Token>>>) {
    forall i, j :: 0 <= i < |rows| && 0 <= j < |rows[i]| ==> GoodCell(rows[i][j])
  }

  ghost predicate GoodStmt(s: Stmt) {
    match s
    case HandCreate(create, temp, table, guard, name, items, options) =>
      && Keyword(create) == "CREATE" && Keyword(table) == "TABLE" && GoodName(name)
      && (temp == [] || (|temp| == 1 && Keyword(temp[0]) in {"TEMP", "TEMPORARY", "UNLOGGED"}))
      && (if guard == [] then Keyword(name[0]) != "IF" else |guard| == 3 && Keyword(guard[0]) == "IF")
      && forall i :: 0 <= i < |items| ==> GoodItem(items[i])
    case HandInsert(insert, into, name, listed, values, rows) =>
      && Keyword(insert) == "INSERT" && Keyword(values) == "VALUES" && GoodName(name) && GoodRows(rows)
      && (if into == [] then Keyword(name[0]) != "INTO" else |into| == 1 && Keyword(into[0]) == "INTO")
      && (listed.Some? ==> forall i :: 0 <= i < |listed.value| ==> IsIdent(listed.value[i]))
    case HandUse(use, used, _) => Keyword(use) == "USE" && IsIdent(used)
    case HandDatabase(create, kind, guard, declared, _) =>
      && Keyword(create) == "CREATE" && Keyword(kind) in {"DATABASE", "SCHEMA"}
      && (if guard == [] then Keyword(declared) != "IF" else |guard| == 3 && Keyword(guard[0]) == "IF")
    case HandOther(tokens) =>
      && |tokens| > 0 && Keyword(tokens[0]) !in {"INSERT", "USE"}
      && (Keyword(tokens[0]) == "CREATE"
          ==> KeywordAt(tokens, 1) !in {"DATABASE", "SCHEMA", "TABLE", "TEMP", "TEMPORARY", "UNLOGGED"})
  }

  // -------------------------------------------------------------------- meaning

  function PieceWords(ps: seq<Piece>): seq<string>
  {
    if |ps| == 0 then [] else (if ps[0].Named? then [ps[0].w] else []) + PieceWords(ps[1..])
  }

  ghost predicate Says(tokens: seq<Token>, k: string) {
    exists i :: 0 <= i < |tokens| && Keyword(tokens[i]) == k
  }

  function Spellings(tokens: seq<Token>): (r: seq<string>)
    ensures |r| == |tokens|
  {
    seq(|tokens|, i requires 0 <= i < |tokens| => Spelling(tokens[i]))
  }

  /** One entry: a column gets a name of its own, its type, and whether it must be
      given; the record id is only noted in the order. */
  ghost function ItemMeaning(it: Item, cs: Columns): Columns {
    match it
    case Col(name, pieces, rest) =>
      if Lower(Spelling(name)) == RECORD_ID then cs.(order := cs.order + [RECORD_ID])
      else
        var n := SafeUnique(Spelling(name), cs.used);
        var required := (Says(rest, "NOT") && Says(rest, "NULL")) || (Says(rest, "PRIMARY") && Says(rest, "KEY"));
        Columns(cs.specs + [Column(n, TypeOf(PieceWords(pieces)), required)], cs.order + [n], cs.keys, cs.used + {n})
    case Primary(lead, keys, rest) => cs.(keys := cs.keys + Spellings(keys))
    case Constraint(_) => cs
  }

  ghost function ItemsMeaning(items: seq<Item>, cs: Columns): Columns
    decreases |items|
  {
    if |items| == 0 then cs else ItemsMeaning(items[1..], ItemMeaning(items[0], cs))
  }

  /** A key column must be given. */
  ghost function WithKeys(specs: seq<Column>, keys: seq<string>): (r: seq<Column>)
    ensures |r| == |specs|
  {
    seq(|specs|, i requires 0 <= i < |specs| =>
      Column(specs[i].name, specs[i].datatype_,
             specs[i].required || exists k :: k in keys && Lower(k) == specs[i].name))
  }

  /** The tables once `t` is put in the place of the first with its name, or at the end. */
  ghost function Held(tables: seq<Table>, t: Table): seq<Table>
  {
    if |tables| == 0 then [t]
    else if tables[0].name == t.name then [t] + tables[1..]
    else [tables[0]] + Held(tables[1..], t)
  }

  /** The first table with this name. */
  ghost function TableNamed(tables: seq<Table>, name: string): Option<Table>
  {
    if |tables| == 0 then None
    else if tables[0].name == name then Some(tables[0])
    else TableNamed(tables[1..], name)
  }

  /** The last value given under a column, if it is not null: a null is no value. */
  ghost function GivenUnder(columns: seq<string>, vs: seq<Value>, c: string): Value
    requires |columns| == |vs|
    decreases |vs|
  {
    if |vs| == 0 then VNull
    else
      var n := |vs| - 1;
      if columns[n] == c && vs[n] != VNull then vs[n] else GivenUnder(columns[..n], vs[..n], c)
  }

  /** The last record id given; a null takes it back. */
  ghost function IdUnder(columns: seq<string>, vs: seq<Value>): Option<string>
    requires |columns| == |vs|
    decreases |vs|
  {
    if |vs| == 0 then None
    else
      var n := |vs| - 1;
      if columns[n] == RECORD_ID then if vs[n] == VNull then None else Some(TextOf(vs[n]))
      else IdUnder(columns[..n], vs[..n])
  }

  /** A row: each value under its own column. */
  ghost function RowOf(columns: seq<string>, vs: seq<Value>): Row
    requires |columns| == |vs|
  {
    Row(map c | c in columns && c != RECORD_ID && GivenUnder(columns, vs, c) != VNull :: GivenUnder(columns, vs, c),
        IdUnder(columns, vs))
  }

  ghost predicate AllLiterals(cells: seq<seq<Token>>) {
    forall i :: 0 <= i < |cells| ==> Literal(cells[i]).Ok?
  }

  ghost function CellValues(cells: seq<seq<Token>>): (vs: seq<Value>)
    requires AllLiterals(cells)
    ensures |vs| == |cells|
  {
    seq(|cells|, i requires 0 <= i < |cells| => Literal(cells[i]).value)
  }

  /** The rows under `columns`; the first row that does not fit refuses them. */
  ghost function RowsMeaning(columns: seq<string>, rows: seq<seq<seq<Token>>>): Result<seq<Row>, Refusal>
    decreases |rows|
  {
    if |rows| == 0 then Ok([])
    else if |rows[0]| != |columns| then Err(WrongCount)
    else if !AllLiterals(rows[0]) then Err(Unsupported)
    else
      var rest :- RowsMeaning(columns, rows[1..]);
      Ok([RowOf(columns, CellValues(rows[0]))] + rest)
  }

  ghost function ListNames(tokens: seq<Token>): (r: seq<string>)
    ensures |r| == |tokens|
  {
    seq(|tokens|, i requires 0 <= i < |tokens| =>
      if Lower(Spelling(tokens[i])) == RECORD_ID then RECORD_ID else SafeName(Spelling(tokens[i])))
  }

  /** The table that a name means: the last part of the name, made safe. */
  ghost function TableName(name: seq<Token>): string
    requires |name| > 0
  {
    SafeName(Spelling(name[|name| - 1]))
  }

  /** The first database named is the one imported into. */
  ghost function WithDatabase(p: Progress, name: string): Progress {
    if p.database == None then p.(database := Some(name)) else p
  }

  /** What a statement makes of what was read before it, or why it is refused. */
  ghost function Meaning(s: Stmt, p: Progress): Result<Progress, Refusal>
    requires GoodStmt(s)
  {
    match s
    case HandCreate(_, _, _, guard, name, items, _) =>
      var cs := ItemsMeaning(items, Columns([], [], [], {}));
      if cs.specs == [] then Err(NoColumns)
      else
        var table := Table(TableName(name), Some(WithKeys(cs.specs, cs.keys)), [], guard != [], cs.order);
        Ok(p.(tables := Held(p.tables, table)))
    case HandInsert(_, _, name, listed, _, rows) =>
      var known := TableNamed(p.tables, TableName(name));
      if listed == None && known == None then Err(UnknownColumns)
      else
        var table := if known.Some? then known.value else Table(TableName(name), None, [], false, []);
        var read :- RowsMeaning(if listed.Some? then ListNames(listed.value) else table.order, rows);
        Ok(p.(tables := Held(p.tables, table.(rows := table.rows + read))))
    case HandUse(_, used, _) => Ok(WithDatabase(p, Spelling(used)))
    case HandDatabase(_, _, _, declared, _) => Ok(WithDatabase(p, Spelling(declared)))
    case HandOther(_) => Ok(p)
  }

  // --------------------------------------------------------------- reading names

  lemma {:induction false} DottedRead(st: seq<Token>, pre: seq<Token>, name: seq<Token>, post: seq<Token>)
    requires GoodName(name) && st == pre + Dotted(name) + post && |post| > 0 && post[0] != Punct('.')
    ensures QualifiedName(st, |pre|) == Ok((Spelling(name[|name| - 1]), |pre| + |Dotted(name)|))
    ensures |Dotted(name)| > 0 && Dotted(name)[0] == name[0]
    decreases |name|
  {
    assert st[|pre|] == name[0];
    if |name| == 1 {
      assert st[|pre| + 1] == post[0];
    } else {
      var more := pre + [name[0], Punct('.')];
      assert st == more + Dotted(name[1..]) + post;
      DottedRead(st, more, name[1..], post);
      assert st[|pre| + 1] == Punct('.') && st[|pre| + 2] == name[1..][0];
    }
  }

  lemma BareNested(t: Token)
    requires t != OPEN && t != CLOSE
    ensures Nested([t], 0)
  {
    assert [t][1..] == [];
  }

  lemma SinglesNested(tokens: seq<Token>)
    requires forall i :: 0 <= i < |tokens| ==> IsIdent(tokens[i])
    ensures Nested(JoinTokens(Singles(tokens)), 0)
  {
    hide Nested, JoinTokens;
    forall i | 0 <= i < |tokens| ensures Nested(Singles(tokens)[i], 0) { BareNested(tokens[i]); }
    JoinNested(Singles(tokens));
  }

  lemma {:induction false} ListNamesRead(tokens: seq<Token>)
    requires forall i :: 0 <= i < |tokens| ==> IsIdent(tokens[i])
    ensures ColumnNames(JoinTokens(Singles(tokens))) == ListNames(tokens)
    ensures IdentNames(JoinTokens(Singles(tokens))) == Spellings(tokens)
  {
    hide ColumnName, ColumnNames, IdentNames, ListNames, Spellings, JoinTokens, Singles;
    if |tokens| == 0 {
      NoNames(tokens);
    } else {
      ListNamesRead(tokens[1..]);
      NamesJoined(tokens);
      OneMoreName(tokens[0], JoinTokens(Singles(tokens[1..])));
      NamesHead(tokens);
      if |tokens| == 1 { NoNames(tokens[1..]); }
    }
  }

  lemma NoNames(tokens: seq<Token>)
    requires |tokens| == 0
    ensures ColumnNames(JoinTokens(Singles(tokens))) == ListNames(tokens) == []
    ensures IdentNames(JoinTokens(Singles(tokens))) == Spellings(tokens) == []
  {
  }

  lemma NamesJoined(tokens: seq<Token>)
    requires |tokens| > 0
    ensures JoinTokens(Singles(tokens))
            == if |tokens| == 1 then [tokens[0]] else [tokens[0]] + [COMMA] + JoinTokens(Singles(tokens[1..]))
  {
    assert Singles(tokens)[1..] == Singles(tokens[1..]);
  }

  lemma NamesHead(tokens: seq<Token>)
    requires |tokens| > 0
    ensures ListNames(tokens) == [ColumnName(tokens[0])] + ListNames(tokens[1..])
    ensures Spellings(tokens) == [Spelling(tokens[0])] + Spellings(tokens[1..])
  {
    hide SafeName, Lower;
  }

  lemma OneMoreName(t: Token, rest: seq<Token>)
    requires IsIdent(t)
    ensures ColumnNames([t]) == [ColumnName(t)]
            && ColumnNames([t] + [COMMA] + rest) == [ColumnName(t)] + ColumnNames(rest)
    ensures IdentNames([t]) == [Spelling(t)] && IdentNames([t] + [COMMA] + rest) == [Spelling(t)] + IdentNames(rest)
  {
    hide ColumnName;
    assert [t][1..] == [];
    var all := [t] + [COMMA] + rest;
    assert all[1..] == [COMMA] + rest && all[1..][1..] == rest;
    assert [] + ColumnNames(rest) == ColumnNames(rest) && [] + IdentNames(rest) == IdentNames(rest);
  }

  // --------------------------------------------------------------- reading columns

  lemma {:induction false} TypeRead(part: seq<Token>, pre: seq<Token>, ps: seq<Piece>, rest: seq<Token>)
    requires part == pre + PiecesTokens(ps) + rest && EndsType(rest)
    requires forall i :: 0 <= i < |ps| ==> GoodPiece(ps[i])
    ensures ReadType(part, |pre|) == Ok(TypeWords(PieceWords(ps), |pre| + |PiecesTokens(ps)|))
    decreases |ps|
  {
    hide GoodPiece, PieceTokens, ReadType, EndsType;
    if |ps| == 0 {
      TypeEnds(part, pre, rest);
    } else {
      var head, more := PieceTokens(ps[0]), PiecesTokens(ps[1..]) + rest;
      assert part == (pre + head) + PiecesTokens(ps[1..]) + rest && part == pre + head + more;
      TypeRead(part, pre + head, ps[1..], rest);
      assert GoodPiece(ps[0]);
      PieceRead(part, pre, ps[0], more);
      assert [] + PieceWords(ps[1..]) == PieceWords(ps[1..]);
    }
  }

  lemma TypeEnds(part: seq<Token>, pre: seq<Token>, rest: seq<Token>)
    requires part == pre + [] + rest && EndsType(rest)
    ensures ReadType(part, |pre|) == Ok(TypeWords([], |pre|))
  {
    hide COLUMN_STOP, Keyword, GroupAt;
    if |rest| > 0 { assert part[|pre|] == rest[0]; }
  }

  lemma PieceRead(part: seq<Token>, pre: seq<Token>, p: Piece, more: seq<Token>)
    requires GoodPiece(p) && part == pre + PieceTokens(p) + more
    requires ReadType(part, |pre + PieceTokens(p)|).Ok?
    ensures var t := ReadType(part, |pre + PieceTokens(p)|).value;
            ReadType(part, |pre|) == Ok(TypeWords((if p.Named? then [p.w] else []) + t.words, t.next))
  {
    hide Nested, GroupAt, COLUMN_STOP, Keyword;
    var t := ReadType(part, |pre + PieceTokens(p)|).value;
    match p
    case Named(w) => assert part[|pre|] == Word(w);
    case Sized(inner) =>
      GroupSlices(pre, inner, more);
      assert part == pre + [OPEN] + inner + [CLOSE] + more;
      GroupRead(part, |pre|, inner);
      assert [] + t.words == t.words;
  }

  lemma SaysBehind(part: seq<Token>, pre: seq<Token>, rest: seq<Token>, k: string)
    requires part == pre + rest
    ensures HasKeyword(part, |pre|, k) <==> Says(rest, k)
  {
    hide Keyword;
    if HasKeyword(part, |pre|, k) {
      var j :| |pre| <= j < |part| && Keyword(part[j]) == k;
      assert rest[j - |pre|] == part[j];
    }
    if Says(rest, k) {
      var i :| 0 <= i < |rest| && Keyword(rest[i]) == k;
      assert part[|pre| + i] == rest[i];
    }
  }

  lemma ColumnRead(it: Item, cs: Columns)
    requires it.Col? && GoodItem(it)
    ensures ReadColumn(ItemTokens(it), cs) == Ok(ItemMeaning(it, cs))
  {
    hide Solid, GoodPiece, Keyword, TABLE_CONSTRAINT, COLUMN_STOP, SafeUnique, ReadType, TypeOf, HasKeyword, Says,
         Lower;
    var part, head := ItemTokens(it), [it.name] + PiecesTokens(it.pieces);
    assert part == head + it.rest && part[0] == it.name;
    TypeRead(part, [it.name], it.pieces, it.rest);
    SaysBehind(part, head, it.rest, "NOT");
    SaysBehind(part, head, it.rest, "NULL");
    SaysBehind(part, head, it.rest, "PRIMARY");
    SaysBehind(part, head, it.rest, "KEY");
  }

  lemma {:induction false} FirstOpenIs(part: seq<Token>, i: nat, j: nat)
    requires i <= j < |part| && part[j] == OPEN && forall k :: i <= k < j ==> part[k] != OPEN
    ensures FirstOpen(part, i) == j
    decreases j - i
  {
    if i < j { FirstOpenIs(part, i + 1, j); }
  }

  lemma KeysRead(it: Item, cs: Columns)
    requires it.Primary? && GoodItem(it)
    ensures ReadColumn(ItemTokens(it), cs) == Ok(ItemMeaning(it, cs))
  {
    hide Solid, Keyword, GroupAt, FirstOpen, JoinTokens, IdentNames, HasKeyword, Nested;
    var part, inner := ItemTokens(it), JoinTokens(Singles(it.keys));
    SinglesNested(it.keys);
    ListNamesRead(it.keys);
    Enclosed(part, it.lead, inner, it.rest);
    assert forall k :: 0 <= k < |it.lead| ==> part[k] == it.lead[k] && it.lead[k] in it.lead;
    FirstOpenIs(part, 0, |it.lead|);
    GroupRead(part, |it.lead|, inner);
    ConstraintWords();
  }

  lemma ConstraintWords()
    ensures "PRIMARY" in TABLE_CONSTRAINT && "CONSTRAINT" in TABLE_CONSTRAINT
  {
  }

  lemma ItemRead(it: Item, cs: Columns)
    requires GoodItem(it)
    ensures |ItemTokens(it)| > 0 && ReadColumn(ItemTokens(it), cs) == Ok(ItemMeaning(it, cs))
  {
    match it
    case Col(_, _, _) => ColumnRead(it, cs);
    case Primary(_, _, _) => KeysRead(it, cs);
    case Constraint(_) =>
  }

  lemma {:induction false} ItemsRead(items: seq<Item>, cs: Columns)
    requires forall i :: 0 <= i < |items| ==> GoodItem(items[i])
    ensures ReadColumns(ItemParts(items), cs) == Ok(ItemsMeaning(items, cs))
    decreases |items|
  {
    hide ReadColumn, GoodItem, ItemTokens, ItemMeaning;
    if |items| > 0 {
      ItemRead(items[0], cs);
      assert ItemParts(items)[1..] == ItemParts(items[1..]);
      ItemsRead(items[1..], ItemMeaning(items[0], cs));
    }
  }

  lemma KeysMarked(specs: seq<Column>, keys: seq<string>)
    ensures MarkKeys(specs, keys) == WithKeys(specs, keys)
  {
    hide Lower;
  }

  lemma {:induction false} TableSet(tables: seq<Table>, t: Table)
    ensures SetTable(tables, t) == Held(tables, t)
    decreases |tables|
  {
    hide IndexOf;
    if |tables| > 0 && tables[0].name != t.name {
      IndexFromTail(tables, t.name);
      TableSet(tables[1..], t);
    }
  }

  lemma IndexFromTail(tables: seq<Table>, name: string)
    requires |tables| > 0 && tables[0].name != name
    ensures IndexOf(tables, name) == IndexOf(tables[1..], name) + 1
  {
    hide IndexOf;
    var i, j := IndexOf(tables, name), IndexOf(tables[1..], name);
    assert forall k :: 1 <= k < |tables| ==> tables[k] == tables[1..][k - 1];
  }

  lemma {:induction false} TableFound(tables: seq<Table>, name: string)
    ensures var i := IndexOf(tables, name);
            TableNamed(tables, name) == if i < |tables| then Some(tables[i]) else None
    decreases |tables|
  {
    hide IndexOf;
    if |tables| > 0 && tables[0].name != name {
      IndexFromTail(tables, name);
      TableFound(tables[1..], name);
    }
  }

  lemma ItemsNested(items: seq<Item>)
    requires forall i :: 0 <= i < |items| ==> GoodItem(items[i])
    ensures Nested(JoinTokens(ItemParts(items)), 0)
    ensures Parts(JoinTokens(ItemParts(items)), [], 0) == ItemParts(items)
  {
    hide ItemTokens, Nested, Solid, JoinTokens, Parts;
    var parts := ItemParts(items);
    forall i | 0 <= i < |parts| ensures |parts[i]| > 0 && Solid(parts[i], 0) && Nested(parts[i], 0) {
      assert GoodItem(items[i]);
      SolidNested(parts[i], 0);
    }
    JoinNested(parts);
    PartsOfJoined(parts);
  }

  ghost function TablesOf(r: Result<Progress, Refusal>): Result<seq<Table>, Refusal> {
    if r.Err? then Err(r.error) else Ok(r.value.tables)
  }

  /** Any CREATE TABLE in one of the accepted shapes reads as what it says. */
  lemma HandCreateRead(s: Stmt, tables: seq<Table>)
    requires s.HandCreate? && GoodStmt(s)
    ensures |StmtTokens(s)| >= 2
    ensures CreateTable(StmtTokens(s), tables) == TablesOf(Meaning(s, Progress(tables, None)))
  {
    hide Nested, JoinTokens, Parts, GroupAt, QualifiedName, Keyword, ReadColumns, SafeName, SetTable, Dotted, GoodItem,
         ItemParts, ItemsMeaning, MarkKeys, WithKeys, Held, GoodName;
    var inner := JoinTokens(ItemParts(s.items));
    var st, start := StmtTokens(s), 2 + |s.temp|;
    CreateShape(s, inner);
    var pos := start + |s.guard| + |Dotted(s.name)|;
    ItemsNested(s.items);
    GroupRead(st, pos, inner);
    var empty := Columns([], [], [], {});
    ItemsRead(s.items, empty);
    var cs := ItemsMeaning(s.items, empty);
    KeysMarked(cs.specs, cs.keys);
    TableSet(tables, Table(SafeName(Spelling(s.name[|s.name| - 1])), Some(WithKeys(cs.specs, cs.keys)), [],
                           s.guard != [], cs.order));
  }

  /** Where the parts of a CREATE TABLE are. */
  lemma CreateShape(s: Stmt, inner: seq<Token>)
    requires s.HandCreate? && GoodStmt(s) && inner == JoinTokens(ItemParts(s.items))
    ensures var st, start := StmtTokens(s), 2 + |s.temp|;
            var pos := start + |s.guard| + |Dotted(s.name)|;
            && |s.name| > 0 && pos + |inner| + 2 <= |st| && start < |st| && st[0] == s.create
            && (Keyword(st[1]) == "TABLE" <==> s.temp == [])
            && (s.temp != [] ==> st[1] == s.temp[0] && st[2] == s.table)
            && (Keyword(st[start]) == "IF" <==> s.guard != []) && (s.guard != [] ==> |s.guard| == 3)
            && QualifiedName(st, start + |s.guard|) == Ok((Spelling(s.name[|s.name| - 1]), pos))
            && st[pos] == OPEN && st[pos + 1..pos + 1 + |inner|] == inner && st[pos + 1 + |inner|] == CLOSE
  {
    hide JoinTokens, ItemParts, GoodItem, Keyword, QualifiedName, Dotted;
    var st := StmtTokens(s);
    var front := [s.create] + s.temp + [s.table];
    var head := front + s.guard;
    var post := [OPEN] + inner + [CLOSE] + s.options;
    assert st == head + Dotted(s.name) + post;
    DottedRead(st, head, s.name, post);
    GroupSlices(head + Dotted(s.name), inner, s.options);
    assert st == head + Dotted(s.name) + [OPEN] + inner + [CLOSE] + s.options;
    var start := 2 + |s.temp|;
    assert |front| == start && front[start - 1] == s.table;
    if s.guard == [] { assert st[start] == s.name[0]; } else { assert st[start] == s.guard[0]; }
    if s.temp == [] { assert st[1] == s.table; } else { assert st[1] == s.temp[0] && st[2] == s.table; }
    assert "TEMP" != "TABLE" && "TEMPORARY" != "TABLE" && "UNLOGGED" != "TABLE" by {
      assert "TABLE"[1] == 'A' && "TEMP"[1] == 'E' && "TEMPORARY"[1] == 'E' && "UNLOGGED"[1] == 'N';
    }
  }

  // ----------------------------------------------------------------- reading rows

  lemma LiteralRefusal(cell: seq<Token>)
    ensures Literal(cell).Err? ==> Literal(cell).error == Unsupported
  {
    hide Upper, IsDecimalText, AllDigits;
  }

  lemma RowStep(columns: seq<string>, vs: seq<Value>, k: nat)
    requires k < |columns| == |vs|
    ensures var row, c, v := RowOf(columns[..k], vs[..k]), columns[k], vs[k];
            RowOf(columns[..k + 1], vs[..k + 1])
            == if c == RECORD_ID then row.(recordId := if v == VNull then None else Some(TextOf(v)))
               else if v == VNull then row else row.(values := row.values[c := v])
  {
    hide TextOf;
    assert columns[..k + 1][..k] == columns[..k] && vs[..k + 1][..k] == vs[..k];
    assert columns[..k + 1] == columns[..k] + [columns[k]];
    forall c ensures GivenUnder(columns[..k + 1], vs[..k + 1], c)
                     == if columns[k] == c && vs[k] != VNull then vs[k] else GivenUnder(columns[..k], vs[..k], c)
    {
    }
    forall c | c !in columns[..k] ensures GivenUnder(columns[..k], vs[..k], c) == VNull {
      NothingGiven(columns[..k], vs[..k], c);
    }
  }

  lemma {:induction false} NothingGiven(columns: seq<string>, vs: seq<Value>, c: string)
    requires |columns| == |vs| && c !in columns
    ensures GivenUnder(columns, vs, c) == VNull
    decreases |vs|
  {
    if |vs| > 0 { NothingGiven(columns[..|vs| - 1], vs[..|vs| - 1], c); }
  }

  /** A row is read cell by cell; it is the row with each value under its column. */
  lemma {:induction false} CellsRead(columns: seq<string>, cells: seq<seq<Token>>, k: nat)
    requires k <= |columns| == |cells| && AllLiterals(cells)
    ensures ReadCells(columns[k..], cells[k..], RowOf(columns[..k], CellValues(cells)[..k]))
            == Ok(RowOf(columns, CellValues(cells)))
    decreases |columns| - k
  {
    hide Literal, RowOf;
    var vs := CellValues(cells);
    if k == |columns| {
      assert columns[..k] == columns && vs[..k] == vs;
    } else {
      RowStep(columns, vs, k);
      assert columns[k..][1..] == columns[k + 1..] && cells[k..][1..] == cells[k + 1..];
      CellsRead(columns, cells, k + 1);
    }
  }

  lemma {:induction false} CellsRefused(columns: seq<string>, cells: seq<seq<Token>>, row: Row)
    requires |columns| == |cells| && !AllLiterals(cells)
    ensures ReadCells(columns, cells, row) == Err(Unsupported)
    decreases |cells|
  {
    hide Literal;
    var i :| 0 <= i < |cells| && Literal(cells[i]).Err?;
    LiteralRefusal(cells[0]);
    if Literal(cells[0]).Ok? {
      assert cells[1..][i - 1] == cells[i];
      var v := Literal(cells[0]).value;
      CellsRefused(columns[1..], cells[1..],
                   if columns[0] == RECORD_ID then row.(recordId := if v == VNull then None else Some(TextOf(v)))
                   else if v == VNull then row else row.(values := row.values[columns[0] := v]));
    }
  }

  lemma RowRead(columns: seq<string>, cells: seq<seq<Token>>)
    requires |columns| == |cells|
    ensures ReadCells(columns, cells, Row(map[], None))
            == if AllLiterals(cells) then Ok(RowOf(columns, CellValues(cells))) else Err(Unsupported)
  {
    hide ReadCells, Literal;
    if AllLiterals(cells) {
      CellsRead(columns, cells, 0);
      assert columns[0..] == columns && cells[0..] == cells;
      assert RowOf(columns[..0], CellValues(cells)[..0]) == Row(map[], None);
    } else {
      CellsRefused(columns, cells, Row(map[], None));
    }
  }

  /** One group and what comes after it. */
  lemma GroupStep(st: seq<Token>, pos: nat, columns: seq<string>, cells: seq<seq<Token>>, rest: seq<Token>)
    requires pos <= |st| && st[pos..] == RowGroup(cells) + rest && forall j :: 0 <= j < |cells| ==> GoodCell(cells[j])
    ensures var next := pos + |RowGroup(cells)|;
            && next <= |st| && st[next..] == rest
            && ReadRows(st, pos, columns)
               == if |cells| != |columns| then Err(WrongCount)
                  else if !AllLiterals(cells) then Err(Unsupported)
                  else
                    var more := ReadRows(st, next, columns);
                    if more.Err? then more else Ok([RowOf(columns, CellValues(cells))] + more.value)
  {
    hide Nested, Solid, ReadCells, Parts, GroupAt, Literal, RowOf, JoinTokens, AllLiterals;
    var inner := JoinTokens(cells);
    forall j | 0 <= j < |cells| ensures |cells[j]| > 0 && Solid(cells[j], 0) && Nested(cells[j], 0) {
      SolidNested(cells[j], 0);
    }
    JoinNested(cells);
    PartsOfJoined(cells);
    FoundGroup(st, pos, inner, rest);
    if |cells| == |columns| { RowRead(columns, cells); }
  }

  lemma FoundGroup(st: seq<Token>, pos: nat, inner: seq<Token>, rest: seq<Token>)
    requires Nested(inner, 0) && pos <= |st| && st[pos..] == [OPEN] + inner + [CLOSE] + rest
    ensures pos + |inner| + 2 <= |st| && st[pos] == OPEN && st[pos] != COMMA
    ensures GroupAt(st, pos) == Ok(Group(inner, pos + |inner| + 2)) && st[pos + |inner| + 2..] == rest
  {
    hide Nested, GroupAt;
    var pre := st[..pos];
    GroupSlices(pre, inner, rest);
    assert st == pre + [OPEN] + inner + [CLOSE] + rest;
    GroupRead(st, pos, inner);
  }

  lemma {:induction false} RowsRead(st: seq<Token>, pos: nat, columns: seq<string>, rows: seq<seq<seq<Token>>>)
    requires pos <= |st| && st[pos..] == JoinTokens(Groups(rows)) && GoodRows(rows)
    ensures ReadRows(st, pos, columns) == RowsMeaning(columns, rows)
    decreases |rows|
  {
    hide RowOf, AllLiterals, GoodCell, Literal, RowGroup, ReadRows, Groups, JoinTokens, CellValues;
    if |rows| == 0 {
      NoGroups(rows);
      NoRowsLeft(st, pos, columns);
    } else {
      var rest := if |rows| == 1 then [] else [COMMA] + JoinTokens(Groups(rows[1..]));
      GroupsSplit(rows, rest);
      GroupStep(st, pos, columns, rows[0], rest);
      var next := pos + |RowGroup(rows[0])|;
      if |rows| == 1 {
        NoRowsLeft(st, next, columns);
      } else {
        AfterComma(st, next, JoinTokens(Groups(rows[1..])));
        RowsRead(st, next + 1, columns, rows[1..]);
        SkipsComma(st, next, columns);
      }
    }
  }

  lemma AfterComma(st: seq<Token>, next: nat, more: seq<Token>)
    requires next <= |st| && st[next..] == [COMMA] + more
    ensures next < |st| && st[next] == COMMA && st[next + 1..] == more
  {
    assert st[next..][0] == COMMA && st[next..][1..] == more;
  }

  lemma NoGroups(rows: seq<seq<seq<Token>>>)
    requires |rows| == 0
    ensures JoinTokens(Groups(rows)) == []
  {
  }

  lemma NoRowsLeft(st: seq<Token>, pos: nat, columns: seq<string>)
    requires pos <= |st| && st[pos..] == []
    ensures ReadRows(st, pos, columns) == Ok([])
  {
    assert pos == |st|;
  }

  lemma SkipsComma(st: seq<Token>, pos: nat, columns: seq<string>)
    requires pos < |st| && st[pos] == COMMA
    ensures ReadRows(st, pos, columns) == ReadRows(st, pos + 1, columns)
  {
  }

  lemma GroupsSplit(rows: seq<seq<seq<Token>>>, rest: seq<Token>)
    requires |rows| > 0 && rest == if |rows| == 1 then [] else [COMMA] + JoinTokens(Groups(rows[1..]))
    ensures JoinTokens(Groups(rows)) == RowGroup(rows[0]) + rest
  {
    hide RowGroup;
    assert Groups(rows)[1..] == Groups(rows[1..]);
  }

  // --------------------------------------------------------------- reading inserts

  /** Where the parts of an INSERT are. */
  lemma InsertShape(s: Stmt)
    requires s.HandInsert? && GoodStmt(s)
    ensures var st, start := StmtTokens(s), 1 + |s.into|;
            var pos := start + |Dotted(s.name)|;
            var at := pos + if s.listed.Some? then |Listed(s.listed.value)| else 0;
            && |s.name| > 0 && |st| >= 2 && pos <= at < |st| && st[0] == s.insert
            && (Keyword(st[1]) == "INTO" <==> s.into != []) && (s.into != [] ==> |s.into| == 1)
            && QualifiedName(st, start) == Ok((Spelling(s.name[|s.name| - 1]), pos))
            && InsertColumns(st, pos) == Ok((if s.listed.Some? then Some(ListNames(s.listed.value)) else None, at))
            && st[at] == s.values && st[at + 1..] == JoinTokens(Groups(s.rows))
  {
    hide Keyword, QualifiedName, InsertColumns, Dotted, Groups, GoodRows, Listed, JoinTokens, ListNames;
    var st, head := StmtTokens(s), [s.insert] + s.into;
    var list := if s.listed.Some? then Listed(s.listed.value) else [];
    var tail := [s.values] + JoinTokens(Groups(s.rows));
    InsertSplit(head, Dotted(s.name), list, s.values, JoinTokens(Groups(s.rows)));
    DotAfter(s, list, tail);
    DottedRead(st, head, s.name, list + tail);
    assert if s.into == [] then st[1] == s.name[0] else st[1] == s.into[0];
    ListRead(st, head + Dotted(s.name), s.listed, tail);
  }

  lemma InsertSplit(head: seq<Token>, name: seq<Token>, list: seq<Token>, values: Token, rows: seq<Token>)
    ensures var st, at := head + name + list + [values] + rows, |head| + |name| + |list|;
            && st == head + name + (list + ([values] + rows)) && st == (head + name) + list + ([values] + rows)
            && |st| > at && st[at] == values && st[at + 1..] == rows
            && (forall i :: 0 <= i < |head| ==> st[i] == head[i])
            && (|name| > 0 ==> st[|head|] == name[0])
  {
  }

  lemma DotAfter(s: Stmt, list: seq<Token>, tail: seq<Token>)
    requires s.HandInsert? && GoodStmt(s)
    requires list == (if s.listed.Some? then Listed(s.listed.value) else [])
    requires tail == [s.values] + JoinTokens(Groups(s.rows))
    ensures |list + tail| > 0 && (list + tail)[0] != Punct('.')
    ensures s.listed.None? ==> tail[0] != OPEN
  {
    hide JoinTokens, Singles, Groups;
  }

  lemma ListRead(st: seq<Token>, front: seq<Token>, listed: Option<seq<Token>>, tail: seq<Token>)
    requires |tail| > 0 && (listed.None? ==> tail[0] != OPEN)
    requires listed.Some? ==> forall i :: 0 <= i < |listed.value| ==> IsIdent(listed.value[i])
    requires st == front + (if listed.Some? then Listed(listed.value) else []) + tail
    ensures InsertColumns(st, |front|)
            == Ok((if listed.Some? then Some(ListNames(listed.value)) else None,
               |front| + if listed.Some? then |Listed(listed.value)| else 0))
  {
    hide Listed, InsertColumns, ListNames;
    if listed.Some? { ListedRead(st, front, listed.value, tail); } else { NoListRead(st, front, tail); }
  }

  lemma NoListRead(st: seq<Token>, front: seq<Token>, tail: seq<Token>)
    requires |tail| > 0 && tail[0] != OPEN && st == front + [] + tail
    ensures InsertColumns(st, |front|) == Ok((None, |front| + 0))
  {
    assert st[|front|] == tail[0];
  }

  lemma ListedRead(st: seq<Token>, front: seq<Token>, list: seq<Token>, tail: seq<Token>)
    requires (forall i :: 0 <= i < |list| ==> IsIdent(list[i])) && st == front + Listed(list) + tail
    ensures InsertColumns(st, |front|) == Ok((Some(ListNames(list)), |front| + |Listed(list)|))
  {
    hide JoinTokens, Singles, ColumnNames, ListNames, GroupAt, Nested;
    var inner := JoinTokens(Singles(list));
    SinglesNested(list);
    ListNamesRead(list);
    Enclosed(st, front, inner, tail);
    GroupRead(st, |front|, inner);
  }

  lemma Enclosed(st: seq<Token>, front: seq<Token>, inner: seq<Token>, tail: seq<Token>)
    requires st == front + ([OPEN] + inner + [CLOSE]) + tail
    ensures |st| == |front| + |inner| + |tail| + 2
    ensures st[|front|] == OPEN && st[|front| + 1..|front| + 1 + |inner|] == inner && st[|front| + 1 + |inner|] == CLOSE
  {
    GroupSlices(front, inner, tail);
    assert st == front + [OPEN] + inner + [CLOSE] + tail;
  }

  /** Any INSERT in one of the accepted shapes reads as what it says: with a column
      list each value goes to the column named in its place, without one to the
      table's columns in the order they were declared. */
  lemma HandInsertRead(s: Stmt, tables: seq<Table>)
    requires s.HandInsert? && GoodStmt(s)
    ensures |StmtTokens(s)| >= 1
    ensures SqlReader.Insert(StmtTokens(s), tables) == TablesOf(Meaning(s, Progress(tables, None)))
  {
    hide Keyword, QualifiedName, InsertColumns, Dotted, Groups, GoodRows, JoinTokens, ReadRows, RowsMeaning, SafeName,
         IndexOf, SetTable, Held, TableNamed, ListNames, GoodName, Listed;
    InsertShape(s);
    var st := StmtTokens(s);
    var at := 1 + |s.into| + |Dotted(s.name)| + if s.listed.Some? then |Listed(s.listed.value)| else 0;
    assert Keyword(st[at]) == "VALUES";
    var i := IndexOf(tables, TableName(s.name));
    TableFound(tables, TableName(s.name));
    if !(s.listed.None? && i == |tables|) {
      var table := if i < |tables| then tables[i] else Table(TableName(s.name), None, [], false, []);
      var columns := if s.listed.Some? then ListNames(s.listed.value) else table.order;
      assert GoodRows(s.rows);
      RowsRead(st, at + 1, columns, s.rows);
      var read := RowsMeaning(columns, s.rows);
      if read.Ok? { TableSet(tables, table.(rows := table.rows + read.value)); }
    }
  }

  // -------------------------------------------------------------------- scripts

  /** Any statement in an accepted shape reads as what it says. */
  lemma HandStatementRead(s: Stmt, p: Progress)
    requires GoodStmt(s)
    ensures |StmtTokens(s)| > 0 && ReadStatement(StmtTokens(s), p) == Meaning(s, p)
  {
    hide Keyword, CreateTable, SqlReader.Insert, StmtTokens, Dotted;
    KeywordHeads();
    match s
    case HandCreate(_, _, _, _, _, items, _) =>
      HandCreateRead(s, p.tables);
      CreateShape(s, JoinTokens(ItemParts(items)));
    case HandInsert(_, _, _, _, _, _) =>
      HandInsertRead(s, p.tables);
      InsertShape(s);
    case _ => HandShortRead(s, p);
  }

  lemma HandShortRead(s: Stmt, p: Progress)
    requires GoodStmt(s) && !s.HandCreate? && !s.HandInsert?
    ensures |StmtTokens(s)| > 0 && ReadStatement(StmtTokens(s), p) == Meaning(s, p)
  {
    hide Keyword, CreateTable, SqlReader.Insert;
    KeywordHeads();
    var st := StmtTokens(s);
    match s
    case HandUse(use, used, options) => assert st[0] == use && st[1] == used;
    case HandDatabase(create, kind, guard, declared, options) =>
      assert st[0] == create && st[1] == kind;
      assert if guard == [] then st[2] == declared else st[2] == guard[0] && st[5] == declared;
    case HandOther(_) =>
  }

  lemma KeywordHeads()
    ensures "TABLE" !in {"DATABASE", "SCHEMA", "TEMP", "TEMPORARY", "UNLOGGED"}
    ensures {"TEMP", "TEMPORARY", "UNLOGGED"} !! {"DATABASE", "SCHEMA"}
    ensures "CREATE" != "USE" && "INSERT" != "CREATE" && "INSERT" != "USE"
  {
    assert "TABLE"[1] == 'A' && "CREATE"[0] == 'C' && "INSERT"[0] == 'I' && "USE"[0] == 'U';
    assert "DATABASE"[0] == 'D' && "SCHEMA"[0] == 'S' && "TABLE"[0] == 'T' && "TEMP"[1] == 'E'
           && "TEMP"[0] == 'T' && "TEMPORARY"[0] == 'T' && "TEMPORARY"[1] == 'E' && "UNLOGGED"[0] == 'U';
  }

  function ScriptStmts(ss: seq<Stmt>): (r: seq<seq<Token>>)
    ensures |r| == |ss|
  {
    seq(|ss|, i requires 0 <= i < |ss| => StmtTokens(ss[i]))
  }

  ghost predicate GoodScript(ss: seq<Stmt>) {
    forall i :: 0 <= i < |ss| ==> GoodStmt(ss[i]) && SEMICOLON !in StmtTokens(ss[i])
  }

  /** Statements one after the other, up to the first that is refused. */
  ghost function ScriptMeaning(ss: seq<Stmt>, p: Progress): Result<Progress, Refusal>
    requires GoodScript(ss)
    decreases |ss|
  {
    if |ss| == 0 then Ok(p)
    else
      var next :- Meaning(ss[0], p);
      ScriptMeaning(ss[1..], next)
  }

  lemma {:induction false} StmtsRead(ss: seq<Stmt>, p: Progress)
    requires GoodScript(ss)
    ensures (forall st :: st in ScriptStmts(ss) ==> |st| > 0) && ReadAll(ScriptStmts(ss), p) == ScriptMeaning(ss, p)
    decreases |ss|
  {
    hide StmtTokens, ReadStatement, Meaning, GoodStmt;
    forall i | 0 <= i < |ss| ensures |ScriptStmts(ss)[i]| > 0 { HandStatementRead(ss[i], p); }
    if |ss| > 0 {
      HandStatementRead(ss[0], p);
      assert ScriptStmts(ss)[1..] == ScriptStmts(ss[1..]);
      var next := Meaning(ss[0], p);
      if next.Ok? { StmtsRead(ss[1..], next.value); }
    }
  }

  /** Any text whose tokens are statements in accepted shapes, each with its semicolon,
      reads as what they say one after the other. */
  lemma HandScriptRead(u: Classes, text: string, ss: seq<Stmt>)
    requires GoodScript(ss) && Tokens(u, text) == Ok(Ended(ScriptStmts(ss)))
    ensures ReadSql(u, text)
            == if ss == [] then Err(NoStatements)
               else
                 var r := ScriptMeaning(ss, Progress([], HeaderFrom(u, text, 0)));
                 if r.Err? then Err(r.error)
                 else if r.value.tables == [] then Err(NoTables)
                 else Ok(Plan(r.value.tables, r.value.database))
  {
    hide StmtTokens, Statements, ReadAll, ScriptMeaning, Tokens, HeaderFrom, GoodStmt;
    var sts := ScriptStmts(ss);
    StmtsRead(ss, Progress([], HeaderFrom(u, text, 0)));
    forall i | 0 <= i < |sts| ensures Plain(sts[i]) { assert sts[i] in sts; }
    StatementsCut(sts);
  }

  // ------------------------------------------------------------------ such texts

  /** A token that some piece of text reads as. */
  ghost predicate Written(t: Token, l: Lexeme) {
    Sound(l) && Token1(l) == [t]
  }

  /** The pieces with a blank behind each. */
  function Spaced(ls: seq<Lexeme>): string
  {
    if |ls| == 0 then "" else Text(ls[0]) + (" " + Spaced(ls[1..]))
  }

  /** Every script whose tokens can be written at all has such a text. */
  lemma {:induction false} SpacedReads(u: Classes, ls: seq<Lexeme>, tokens: seq<Token>)
    requires |ls| == |tokens| && forall i :: 0 <= i < |ls| ==> Written(tokens[i], ls[i])
    ensures Tokens(u, Spaced(ls)) == Ok(tokens)
    decreases |ls|
  {
    hide SqlLexer.Next, Sound, Text, Token1;
    if |ls| > 0 {
      var rest := " " + Spaced(ls[1..]);
      assert Written(tokens[0], ls[0]);
      BlankEnds(ls[0], Spaced(ls[1..]));
      ReadsPiece(u, ls[0], rest);
      SpacedReads(u, ls[1..], tokens[1..]);
      BlankSkipped(u, Spaced(ls[1..]));
      Consumed(Text(ls[0]), rest);
      assert tokens == [tokens[0]] + tokens[1..];
    }
  }

  lemma BlankEnds(l: Lexeme, rest: string)
    ensures Ends(l, " " + rest)
  {
  }

  lemma BlankSkipped(u: Classes, rest: string)
    ensures Tokens(u, " " + rest) == Tokens(u, rest)
  {
    hide ScanString, NumberLength, SqlLexer.Find, FindClose, WordRun;
    assert (" " + rest)[1..] == rest;
  }

  // ------------------------------------------------------- leaving out a column list

  /** On a table whose declared columns are the listed ones, in that order, the list
      makes no difference. */
  lemma ListMakesNoDifference(s: Stmt, p: Progress)
    requires s.HandInsert? && GoodStmt(s) && s.listed.Some?
    requires var known := TableNamed(p.tables, TableName(s.name));
             known.Some? && known.value.order == ListNames(s.listed.value)
    ensures GoodStmt(s.(listed := None)) && Meaning(s.(listed := None), p) == Meaning(s, p)
  {
    hide Held, RowsMeaning, ListNames, TableNamed;
  }

  /** Without a list the table has to be there. */
  lemma ListNeeded(s: Stmt, p: Progress)
    requires s.HandInsert? && GoodStmt(s) && s.listed.None?
    ensures Meaning(s, p) == Err(UnknownColumns)
            <==> forall i :: 0 <= i < |p.tables| ==> p.tables[i].name != TableName(s.name)
  {
    hide Held, RowsMeaning, SafeName;
    NotNamed(p.tables, TableName(s.name));
    var known := TableNamed(p.tables, TableName(s.name));
    if known.Some? { RowsRefusal(known.value.order, s.rows); }
  }

  lemma {:induction false} NotNamed(tables: seq<Table>, name: string)
    ensures TableNamed(tables, name) == None <==> forall i :: 0 <= i < |tables| ==> tables[i].name != name
    decreases |tables|
  {
    if |tables| > 0 {
      NotNamed(tables[1..], name);
      assert tables == [tables[0]] + tables[1..];
    }
  }

  lemma {:induction false} RowsRefusal(columns: seq<string>, rows: seq<seq<seq<Token>>>)
    ensures var r := RowsMeaning(columns, rows); r.Err? ==> r.error in {WrongCount, Unsupported}
    decreases |rows|
  {
    hide AllLiterals, RowOf;
    if |rows| > 0 { RowsRefusal(columns, rows[1..]); }
  }
}
