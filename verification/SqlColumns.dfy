/** What becomes of the columns and values of a script that people write. */
module SqlColumns {
  // Every spelling of a type, column names that never clash, signs, and one script of
  // the importer's own tests read to the end
  // (mdc/src/mdc/portability/plan.py:89-126, mdc/tests/test_portability.py:147-149).

  import opened KeySpace
  import opened Outcomes
  import opened SqlLexer
  import opened SqlReader
  import opened SqlRoundTrip
  import opened SqlImport
  import opened SqlWriter
  import opened SqlHand

  // ---------------------------------------------------------------------- types

  /** Letters that tell the type names apart. */
  lemma TypeHeads(w: string)
    ensures w in INTEGERS ==> |w| > 2 && w[0] in {'i', 'b', 's', 't', 'm'} && (w[0] == 'b' ==> w[2] == 'g')
                              && (w[0] == 't' ==> w[2] == 'n') && (w[0] == 'm' ==> w[1] == 'e')
    ensures w in INTEGERS && w[0] == 's' ==> w[1] == 'e' || (|w| > 5 && w[5] != 'd')
    ensures w in DECIMALS ==> |w| > 2 && w[0] in {'d', 'n', 'f', 'r', 'm'} && (w[0] == 'd' ==> w[1] != 'a')
                              && (w[0] == 'm' ==> w[1] == 'o')
    ensures w in BOOLEANS ==> |w| > 2 && w[0] == 'b' && w[2] != 'g'
    ensures w in DATETIMES ==> |w| > 2 && w[0] in {'d', 't', 's'} && (w[0] == 'd' ==> w[1] == 'a')
                               && (w[0] == 't' ==> w[2] == 'm')
                               && (w[0] == 's' ==> |w| > 5 && w[1] == 'm' && w[5] == 'd')
  {
  }

  /** The type of a column is that of the first word of its type, in any case: no name
      belongs to two types, and an unknown one means text. */
  lemma TypeTable(words: seq<string>)
    requires |words| > 0
    ensures var w, t := Lower(words[0]), TypeOf(words);
            && (t == TInteger <==> w in INTEGERS) && (t == TDecimal <==> w in DECIMALS)
            && (t == TBoolean <==> w in BOOLEANS) && (t == TDatetime <==> w in DATETIMES)
            && (t == TString <==> w !in INTEGERS + DECIMALS + BOOLEANS + DATETIMES)
  {
    var w := Lower(words[0]);
    TypeHeads(w);
    TypeSteps(words);
    hide INTEGERS, DECIMALS, BOOLEANS, DATETIMES, TypeOf;
  }

  lemma TypeSteps(words: seq<string>)
    requires |words| > 0
    ensures var w := Lower(words[0]);
            TypeOf(words) == if w in INTEGERS then TInteger else if w in DECIMALS then TDecimal
                             else if w in BOOLEANS then TBoolean else if w in DATETIMES then TDatetime else TString
  {
    hide Lower;
  }

  // ---------------------------------------------------------------------- names

  /** The candidates that are tried after number `n`. */
  function Candidate(name: string, n: nat): string {
    if n < 2 then name else name + "_" + Decimal(n, 1)
  }

  lemma CandidatesDiffer(name: string, m: nat, n: nat)
    requires m < n && n >= 2 && (m < 2 ==> m == 0)
    ensures Candidate(name, m) != Candidate(name, n)
  {
    hide Decimal;
    DecimalReadsBack(n, 1);
    if m < 2 {
      assert |name + "_" + Decimal(n, 1)| > |name|;
    } else {
      DecimalReadsBack(m, 1);
      SuffixSame(name + "_", Decimal(m, 1), Decimal(n, 1));
    }
  }

  lemma SuffixSame(pre: string, a: string, b: string)
    ensures pre + a == pre + b <==> a == b
  {
    if pre + a == pre + b {
      assert (pre + a)[|pre|..] == a && (pre + b)[|pre|..] == b;
    }
  }

  /** The number tried after `n`. */
  function After(n: nat): nat {
    if n < 2 then 2 else n + 1
  }

  /** Among more candidates than there are names left in `free`, one is not used. */
  lemma {:induction false} UnusedFree(name: string, used: set<string>, n: nat, left: nat, free: set<string>)
    requires (n == 0 || n >= 2) && free <= used && |free| <= left
    requires forall k: nat :: (k == n || (k >= 2 && k > n)) && Candidate(name, k) in used ==> Candidate(name, k) in free
    ensures Unused(name, used, n, left) !in used
    ensures exists k: nat :: Unused(name, used, n, left) == Candidate(name, k)
    decreases left
  {
    hide Decimal;
    var c := Candidate(name, n);
    if c in used {
      assert c in free;
      var fewer := free - {c};
      assert |fewer| == |free| - 1;
      forall k: nat | k >= 2 && k > n && Candidate(name, k) in used ensures Candidate(name, k) in fewer {
        CandidatesDiffer(name, n, k);
      }
      UnusedFree(name, used, After(n), left - 1, fewer);
    }
  }

  /** A column never gets the name of another: it is the safe form of what was written,
      with a number behind it where that is taken. */
  lemma SafeUniqueFree(raw: string, used: set<string>)
    ensures SafeUnique(raw, used) !in used
    ensures SafeName(raw) !in used ==> SafeUnique(raw, used) == SafeName(raw)
    ensures exists k: nat :: SafeUnique(raw, used) == Candidate(SafeName(raw), k)
  {
    hide SafeName;
    UnusedFree(SafeName(raw), used, 0, |used|, used);
  }

  ghost predicate Numbered(cs: Columns) {
    && (forall i, j :: 0 <= i < j < |cs.specs| ==> cs.specs[i].name != cs.specs[j].name)
    && forall i :: 0 <= i < |cs.specs| ==> cs.specs[i].name in cs.used
  }

  /** The columns of a table that is created have different names. */
  lemma {:induction false} ColumnNamesDiffer(items: seq<Item>, cs: Columns)
    requires Numbered(cs)
    ensures Numbered(ItemsMeaning(items, cs))
    decreases |items|
  {
    hide SafeUnique, Says, TypeOf, Lower;
    if |items| > 0 {
      if items[0].Col? { SafeUniqueFree(Spelling(items[0].name), cs.used); }
      ColumnNamesDiffer(items[1..], ItemMeaning(items[0], cs));
    }
  }

  // --------------------------------------------------------------------- values

  /** A sign in front of a value: it turns a number around if it is a minus, and is
      dropped before anything else. */
  lemma SignedLiteral(t: Token, minus: bool)
    requires t != Op('-') && t != Op('+')
    ensures var plain := Literal([t]);
            Literal([Op(if minus then '-' else '+'), t])
            == if plain.Err? then plain
               else match plain.value
                    case VInt(n) => Ok(VInt(if minus then -n else n))
                    case VFloat(_, text) => Ok(VFloat(minus, text))
                    case v => Ok(v)
  {
    hide Upper, IsDecimalText, AllDigits, Decimal;
    assert [Op(if minus then '-' else '+'), t][1..] == [t];
  }

  // ------------------------------------------------------------- one whole script

  const TEST_CREATE := HandCreate(Word("CREATE"), [], Word("TABLE"), [], [Word("t")],
                                  [Col(Word("a"), [Named("INT")], []), Col(Word("b"), [Named("TEXT")], [])], [])

  const TEST_INSERT := HandInsert(Word("INSERT"), [Word("INTO")], [Word("t")], None, Word("VALUES"),
                                  [[[Num("1")], [Str("x")]]])

  const CREATE_TOKENS := [Word("CREATE"), Word("TABLE"), Word("t"), OPEN, Word("a"), Word("INT"), COMMA, Word("b"),
                          Word("TEXT"), CLOSE]

  const INSERT_TOKENS := [Word("INSERT"), Word("INTO"), Word("t"), Word("VALUES"), OPEN, Num("1"), COMMA, Str("x"),
                          CLOSE]

  lemma JoinTwo(x: seq<Token>, y: seq<Token>)
    ensures JoinTokens([x, y]) == x + [COMMA] + y && JoinTokens([x]) == x
  {
    assert [x, y][1..] == [y];
  }

  lemma TestTokens()
    ensures StmtTokens(TEST_CREATE) == CREATE_TOKENS && StmtTokens(TEST_INSERT) == INSERT_TOKENS
  {
    var a, b := Col(Word("a"), [Named("INT")], []), Col(Word("b"), [Named("TEXT")], []);
    assert ItemTokens(a) == [Word("a"), Word("INT")] && ItemTokens(b) == [Word("b"), Word("TEXT")] by {
      OnePiece("INT");
      OnePiece("TEXT");
    }
    assert ItemParts([a, b]) == [[Word("a"), Word("INT")], [Word("b"), Word("TEXT")]];
    JoinTwo([Word("a"), Word("INT")], [Word("b"), Word("TEXT")]);
    JoinTwo([Num("1")], [Str("x")]);
    assert RowGroup([[Num("1")], [Str("x")]]) == [OPEN, Num("1"), COMMA, Str("x"), CLOSE];
    assert Groups(TEST_INSERT.rows) == [[OPEN, Num("1"), COMMA, Str("x"), CLOSE]];
    JoinTwo([OPEN, Num("1"), COMMA, Str("x"), CLOSE], []);
    assert Dotted([Word("t")]) == [Word("t")];
  }

  lemma OnePiece(w: string)
    ensures PiecesTokens([Named(w)]) == [Word(w)] && PieceWords([Named(w)]) == [w]
  {
    assert [Named(w)][1..] == [];
  }

  lemma TestKeywords()
    ensures Keyword(Word("CREATE")) == "CREATE" && Keyword(Word("TABLE")) == "TABLE"
            && Keyword(Word("INSERT")) == "INSERT" && Keyword(Word("INTO")) == "INTO"
            && Keyword(Word("VALUES")) == "VALUES"
    ensures Keyword(Word("t")) == "T" && Keyword(Word("a")) == "A" && Keyword(Word("b")) == "B"
    ensures Keyword(Word("INT")) == "INT" && Keyword(Word("TEXT")) == "TEXT"
  {
    Keywords();
    UpperSame("INT");
    UpperSame("TEXT");
  }

  lemma TestGood()
    ensures GoodScript([TEST_CREATE, TEST_INSERT])
  {
    TestTokens();
    CreateGood();
    InsertGood();
    hide GoodStmt, StmtTokens;
  }

  lemma CreateGood()
    ensures GoodStmt(TEST_CREATE)
  {
    TestKeywords();
    FlatSolid([Word("a"), Word("INT")]);
    FlatSolid([Word("b"), Word("TEXT")]);
    OnePiece("INT");
    OnePiece("TEXT");
    NotReserved();
    hide Keyword, COLUMN_STOP, TABLE_CONSTRAINT, Solid, JoinTokens;
    assert GoodItem(Col(Word("a"), [Named("INT")], []));
    assert GoodItem(Col(Word("b"), [Named("TEXT")], []));
  }

  lemma NotReserved()
    ensures "INT" !in COLUMN_STOP && "TEXT" !in COLUMN_STOP && "A" !in TABLE_CONSTRAINT && "B" !in TABLE_CONSTRAINT
  {
  }

  lemma InsertGood()
    ensures GoodStmt(TEST_INSERT)
  {
    TestKeywords();
    hide Keyword;
    FlatSolid([Num("1")]);
    FlatSolid([Str("x")]);
  }

  const TEST_TABLE := Table("t", Some([Column("a", TInteger, false), Column("b", TString, false)]), [], false,
                            ["a", "b"])

  const TEST_ROW := Row(map["a" := VInt(1), "b" := VText("x")], None)

  lemma ShortNames()
    ensures SafeName("t") == "t" && SafeName("a") == "a" && SafeName("b") == "b"
    ensures Lower("t") == "t" && Lower("a") == "a" && Lower("b") == "b"
    ensures Lower("INT") == "int" && Lower("TEXT") == "text"
  {
  }

  lemma TestTypes()
    ensures TypeOf(["INT"]) == TInteger && TypeOf(["TEXT"]) == TString
  {
    ShortNames();
    TypeTable(["INT"]);
    TypeTable(["TEXT"]);
    TypeHeads("text");
    assert "text"[0] == 't' && "text"[2] == 'x';
  }

  lemma TestColumns()
    ensures ItemsMeaning(TEST_CREATE.items, Columns([], [], [], {}))
            == Columns(TEST_TABLE.columns.value, ["a", "b"], [], {"a", "b"})
  {
    TestTypes();
    ShortNames();
    OnePiece("INT");
    OnePiece("TEXT");
    hide TypeOf, SafeName, Lower;
    var none, items := Columns([], [], [], {}), TEST_CREATE.items;
    var one := Columns([Column("a", TInteger, false)], ["a"], [], {"a"});
    SafeUniqueFree("a", {});
    SafeUniqueFree("b", {"a"});
    hide SafeUnique;
    assert ItemMeaning(items[0], none) == one by { assert [] + ["a"] == ["a"]; }
    assert ItemMeaning(items[1], one) == Columns(TEST_TABLE.columns.value, ["a", "b"], [], {"a", "b"});
    assert items[1..] == [items[1]] && items[1..][1..] == [];
  }

  lemma TestCreated()
    requires GoodStmt(TEST_CREATE)
    ensures Meaning(TEST_CREATE, Progress([], None)) == Ok(Progress([TEST_TABLE], None))
  {
    TestColumns();
    ShortNames();
    hide ItemsMeaning, SafeName, GoodStmt;
    var specs := TEST_TABLE.columns.value;
    assert WithKeys(specs, []) == specs;
  }

  lemma OneRead()
    ensures Literal([Num("1")]) == Ok(VInt(1)) && Literal([Str("x")]) == Ok(VText("x"))
  {
    hide Upper;
    var one := "1";
    assert AllDigits(one) && !IsDecimalText(one);
    assert one[..0] == "" && ReadDecimal(one) == 1;
  }

  lemma TestRow(cells: seq<seq<Token>>)
    requires cells == [[Num("1")], [Str("x")]]
    ensures AllLiterals(cells) && RowOf(["a", "b"], CellValues(cells)) == TEST_ROW
  {
    OneRead();
    hide Literal;
    var columns, vs := ["a", "b"], CellValues(cells);
    assert vs == [VInt(1), VText("x")];
    assert columns[..1] == ["a"] && vs[..1] == [VInt(1)];
    assert GivenUnder(["a"], [VInt(1)], "a") == VInt(1);
    assert GivenUnder(columns, vs, "a") == GivenUnder(columns[..1], vs[..1], "a");
    assert IdUnder(["a"], [VInt(1)]) == None && IdUnder(columns, vs) == IdUnder(columns[..1], vs[..1]);
    assert "a" != RECORD_ID && "b" != RECORD_ID;
  }

  lemma OneRow(columns: seq<string>, cells: seq<seq<Token>>)
    requires |columns| == |cells| && AllLiterals(cells)
    ensures RowsMeaning(columns, [cells]) == Ok([RowOf(columns, CellValues(cells))])
  {
    hide RowOf, AllLiterals;
    assert [cells][1..] == [];
    assert RowsMeaning(columns, []) == Ok([]);
    var row := RowOf(columns, CellValues(cells));
    assert [row] + [] == [row];
  }

  lemma TestInserted()
    requires GoodStmt(TEST_INSERT)
    ensures Meaning(TEST_INSERT, Progress([TEST_TABLE], None)) == Ok(Progress([TEST_TABLE.(rows := [TEST_ROW])], None))
  {
    var cells := [[Num("1")], [Str("x")]];
    TestRow(cells);
    OneRow(["a", "b"], cells);
    ShortNames();
    hide RowsMeaning, RowOf, SafeName, GoodStmt, AllLiterals;
    assert TableName([Word("t")]) == "t";
    HeldAlone(TEST_TABLE, TEST_TABLE.(rows := [TEST_ROW]));
    hide Held;
    assert TableNamed([TEST_TABLE], "t") == Some(TEST_TABLE);
    assert TEST_TABLE.rows + [TEST_ROW] == [TEST_ROW];
  }

  lemma HeldAlone(t: Table, after: Table)
    requires t.name == after.name
    ensures Held([t], after) == [after]
  {
    assert [t][1..] == [];
  }

  const CREATE_PIECES :=
    [LWord("CREATE"), LWord("TABLE"), LWord("t"), LPunct('('), LWord("a"), LWord("INT"), LPunct(','), LWord("b"),
     LWord("TEXT"), LPunct(')'), LPunct(';')]

  const INSERT_PIECES :=
    [LWord("INSERT"), LWord("INTO"), LWord("t"), LWord("VALUES"), LPunct('('), LNumber("1"), LPunct(','),
     LString("x"), LPunct(')'), LPunct(';')]

  const TEST_PIECES := CREATE_PIECES + INSERT_PIECES

  lemma CreateWritten(i: nat)
    requires i < |CREATE_PIECES|
    ensures |CREATE_PIECES| == |CREATE_TOKENS| + 1 && Written((CREATE_TOKENS + [SEMICOLON])[i], CREATE_PIECES[i])
    ensures OneLine(Text(CREATE_PIECES[i]))
  {
  }

  lemma InsertWritten(i: nat)
    requires i < |INSERT_PIECES|
    ensures |INSERT_PIECES| == |INSERT_TOKENS| + 1 && Written((INSERT_TOKENS + [SEMICOLON])[i], INSERT_PIECES[i])
    ensures OneLine(Text(INSERT_PIECES[i]))
  {
    NumberOne();
    NothingDoubled("x", '\'');
    hide NumberText;
  }

  lemma PieceWritten(tokens: seq<Token>, i: nat)
    requires tokens == (CREATE_TOKENS + [SEMICOLON]) + (INSERT_TOKENS + [SEMICOLON]) && i < |TEST_PIECES|
    ensures |tokens| == |TEST_PIECES| && Written(tokens[i], TEST_PIECES[i]) && OneLine(Text(TEST_PIECES[i]))
  {
    var n := |CREATE_PIECES|;
    CreateWritten(0);
    InsertWritten(0);
    if i < n { CreateWritten(i); } else { InsertWritten(i - n); }
    hide CREATE_PIECES, INSERT_PIECES, CREATE_TOKENS, INSERT_TOKENS, Written, Text, OneLine;
  }

  lemma TestWritten(u: Classes)
    ensures Tokens(u, Spaced(TEST_PIECES)) == Ok(Ended(ScriptStmts([TEST_CREATE, TEST_INSERT])))
  {
    TestTokens();
    var all := (CREATE_TOKENS + [SEMICOLON]) + (INSERT_TOKENS + [SEMICOLON]);
    var sts := ScriptStmts([TEST_CREATE, TEST_INSERT]);
    hide StmtTokens, CREATE_TOKENS, INSERT_TOKENS;
    assert sts == [CREATE_TOKENS, INSERT_TOKENS];
    TwoEnded(CREATE_TOKENS, INSERT_TOKENS);
    hide Ended, ScriptStmts, Tokens, Spaced, TEST_PIECES, Written;
    PieceWritten(all, 0);
    forall i | 0 <= i < |all| ensures Written(all[i], TEST_PIECES[i]) { PieceWritten(all, i); }
    SpacedReads(u, TEST_PIECES, all);
  }

  lemma TwoEnded(x: seq<Token>, y: seq<Token>)
    ensures Ended([x, y]) == (x + [SEMICOLON]) + (y + [SEMICOLON])
  {
    assert [x, y][1..] == [y] && [y][1..] == [];
    assert Ended([y]) == y + [SEMICOLON] + [];
  }

  lemma NumberOne()
    ensures NumberText("1")
  {
    AllDigitRun("1", 0);
  }

  lemma {:induction false} OneLineHasNoName(u: Classes, t: string, i: nat)
    requires i <= |t| && (forall k :: 0 <= k < |t| ==> t[k] != '\n') && |t| > 0 && t[0] != '-'
    ensures HeaderFrom(u, t, i) == None
    decreases |t| - i
  {
    hide SkipSpaces;
    if i < |t| { OneLineHasNoName(u, t, i + 1); }
  }

  lemma {:induction false} SpacedOneLine(ls: seq<Lexeme>)
    requires forall i :: 0 <= i < |ls| ==> OneLine(Text(ls[i]))
    ensures forall k :: 0 <= k < |Spaced(ls)| ==> Spaced(ls)[k] != '\n'
  {
    hide Text;
    if |ls| > 0 { SpacedOneLine(ls[1..]); }
  }

  /** The script of that test, with blanks between its tokens: INSERT without a column
      list fills the columns in the order they were declared. */
  lemma TestScriptReads(u: Classes)
    ensures ReadSql(u, Spaced(TEST_PIECES)) == Ok(Plan([TEST_TABLE.(rows := [TEST_ROW])], None))
  {
    TestGood();
    TestWritten(u);
    TestOneLine();
    OneLineHasNoName(u, Spaced(TEST_PIECES), 0);
    TestMeaning();
    hide GoodScript, ScriptMeaning, Spaced, HeaderFrom, Tokens, ReadSql, ScriptStmts, Ended, TEST_PIECES, TEST_CREATE,
         TEST_INSERT;
    HandScriptRead(u, Spaced(TEST_PIECES), [TEST_CREATE, TEST_INSERT]);
  }

  lemma TestMeaning()
    requires GoodScript([TEST_CREATE, TEST_INSERT])
    ensures ScriptMeaning([TEST_CREATE, TEST_INSERT], Progress([], None))
            == Ok(Progress([TEST_TABLE.(rows := [TEST_ROW])], None))
  {
    hide Meaning, GoodStmt, StmtTokens;
    var ss := [TEST_CREATE, TEST_INSERT];
    assert GoodStmt(ss[0]) && GoodStmt(ss[1]);
    TestCreated();
    TestInserted();
    assert ss[1..] == [TEST_INSERT] && ss[1..][1..] == [];
    var one, two := Progress([TEST_TABLE], None), Progress([TEST_TABLE.(rows := [TEST_ROW])], None);
    assert ScriptMeaning(ss[1..][1..], two) == Ok(two);
    assert ScriptMeaning(ss[1..], one) == Ok(two);
  }

  lemma TestOneLine()
    ensures |Spaced(TEST_PIECES)| > 0 && Spaced(TEST_PIECES)[0] != '-'
    ensures forall k :: 0 <= k < |Spaced(TEST_PIECES)| ==> Spaced(TEST_PIECES)[k] != '\n'
  {
    assert TEST_PIECES[0] == LWord("CREATE");
    SpacedHead(TEST_PIECES);
    hide Spaced, Text, TEST_PIECES, CREATE_TOKENS, INSERT_TOKENS;
    var all := (CREATE_TOKENS + [SEMICOLON]) + (INSERT_TOKENS + [SEMICOLON]);
    forall i | 0 <= i < |TEST_PIECES| ensures OneLine(Text(TEST_PIECES[i])) { PieceWritten(all, i); }
    SpacedOneLine(TEST_PIECES);
  }

  lemma SpacedHead(ls: seq<Lexeme>)
    requires |ls| > 0 && |Text(ls[0])| > 0
    ensures |Spaced(ls)| > 0 && Spaced(ls)[0] == Text(ls[0])[0]
  {
    hide Text;
  }
}
