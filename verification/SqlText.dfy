/** The text of scripts that people write, as the tokenizer takes it apart. */
module SqlText {
  // Comments of both kinds, names in three kinds of quotes, numbers without a leading
  // digit, operators and any white space; and what is refused because it never ends
  // (mdc/src/mdc/portability/readers.py:204-257).

  import opened Outcomes
  import opened SqlLexer

  /** The pieces of hand-written text. */
  datatype Glyph =
    | Plain(w: string)
    | Named(name: string, open: char, close: char)
    | Quoted(s: string)
    | Number(text: string)
    | Mark(p: char)
    | Sign(c: char)
    | Blank(c: char)
    | Line(body: string)
    | Block(body: string)

  function Written(g: Glyph): string {
    match g
    case Plain(w) => w
    case Named(name, open, close) => [open] + name + [close]
    case Quoted(s) => "'" + Doubled(s, '\'') + "'"
    case Number(text) => text
    case Mark(p) => [p]
    case Sign(c) => [c]
    case Blank(c) => [c]
    case Line(body) => "--" + body + "\n"
    case Block(body) => "/*" + body + "*/"
  }

  function Meant(g: Glyph): seq<Token> {
    match g
    case Plain(w) => [Word(w)]
    case Named(name, _, _) => [QIdent(name)]
    case Quoted(s) => [Str(s)]
    case Number(text) => [Num(text)]
    case Mark(p) => [Punct(p)]
    case Sign(c) => [Op(c)]
    case Blank(_) => []
    case Line(_) => []
    case Block(_) => []
  }

  /** The first mark that closes a comment comes at `n`. */
  ghost predicate ClosesAt(t: string, n: nat) {
    && n + 1 < |t| && t[n] == '*' && t[n + 1] == '/'
    && forall k :: 0 <= k < n ==> !(t[k] == '*' && t[k + 1] == '/')
  }

  /** The quotes a name can stand in. */
  predicate Pair(open: char, close: char) {
    (open == '"' && close == '"') || (open == '`' && close == '`') || (open == '[' && close == ']')
  }

  ghost predicate Good(u: Classes, g: Glyph) {
    match g
    case Plain(w) => |w| > 0 && WordStart(w[0]) && forall i :: 0 <= i < |w| ==> WordChar(w[i])
    case Named(name, open, close) => Pair(open, close) && forall i :: 0 <= i < |name| ==> name[i] != close
    case Quoted(_) => true
    case Number(text) =>
      && NumberLength(text) == |text| > 0
      && (IsDigit(text[0]) || (text[0] == '.' && |text| > 1 && IsDigit(text[1])))
    case Mark(p) => p in "(),;."
    case Sign(c) => c as int < 128 && ClassOf(u, c) == Other && c !in "'\"`[(),;._"
    case Blank(c) => ClassOf(u, c) == Space
    case Line(body) => forall i :: 0 <= i < |body| ==> body[i] != '\n'
    case Block(body) => ClosesAt(body + "*/", |body|)
  }

  /** The text after a piece does not run on from it. */
  ghost predicate Stops(u: Classes, g: Glyph, rest: string) {
    match g
    case Plain(_) => |rest| == 0 || !WordChar(rest[0])
    case Quoted(_) => |rest| == 0 || rest[0] != '\''
    case Number(_) => |rest| == 0 || (!IsDigit(rest[0]) && rest[0] != '.' && rest[0] != 'e' && rest[0] != 'E')
    case Mark(p) => p == '.' ==> |rest| == 0 || ClassOf(u, rest[0]) != Digit
    case Sign(c) => (c == '-' ==> |rest| == 0 || rest[0] != '-') && (c == '/' ==> |rest| == 0 || rest[0] != '*')
    case _ => true
  }

  function TextOf(gs: seq<Glyph>): string
  {
    if |gs| == 0 then "" else Written(gs[0]) + TextOf(gs[1..])
  }

  function MeantBy(gs: seq<Glyph>): seq<Token>
  {
    if |gs| == 0 then [] else Meant(gs[0]) + MeantBy(gs[1..])
  }

  /** Pieces that keep apart, up to the text that follows them. */
  ghost predicate Flows(u: Classes, gs: seq<Glyph>, tail: string)
    decreases |gs|
  {
    |gs| == 0 || (Good(u, gs[0]) && Stops(u, gs[0], TextOf(gs[1..]) + tail) && Flows(u, gs[1..], tail))
  }

  // ------------------------------------------------------------- one at a time

  ghost predicate TakenAs(u: Classes, g: Glyph, rest: string) {
    |Written(g)| > 0
    && var s := Next(u, Written(g) + rest);
       !s.Bad? && s.n == |Written(g)| && (if Meant(g) == [] then s.Skip? else s.Emit? && Meant(g) == [s.token])
  }

  lemma NameTaken(u: Classes, g: Glyph, rest: string)
    requires g.Named? && Good(u, g)
    ensures TakenAs(u, g, rest)
  {
    hide FindClose, ScanString, WordRun, NumberLength;
    var t := Written(g) + rest;
    var n := |g.name|;
    assert t[0] == g.open && t[n + 1] == g.close == Closer(g.open) && t[1..n + 1] == g.name;
    assert forall k :: 1 <= k < n + 1 ==> t[k] == g.name[k - 1];
    var j := Find(t, Closer(g.open), 1);
    hide Find;
    assert j == n + 1;
  }

  lemma NumberTaken(u: Classes, g: Glyph, rest: string)
    requires g.Number? && Good(u, g) && Stops(u, g, rest)
    ensures TakenAs(u, g, rest)
  {
    NumberReadsBack(g.text, rest);
    hide FindClose, Find, ScanString, WordRun, NumberLength;
    var t := g.text + rest;
    assert t[0] == g.text[0] && t[..|g.text|] == g.text && (|g.text| > 1 ==> t[1] == g.text[1]);
  }

  lemma {:induction false} CloseFound(t: string, i: nat, n: nat)
    requires i <= n && n + 1 < |t| && t[n] == '*' && t[n + 1] == '/'
    requires forall k :: i <= k < n ==> !(t[k] == '*' && t[k + 1] == '/')
    ensures FindClose(t, i) == n
    decreases n - i
  {
    if i < n { CloseFound(t, i + 1, n); }
  }

  lemma BlockTaken(u: Classes, g: Glyph, rest: string)
    requires g.Block? && Good(u, g)
    ensures TakenAs(u, g, rest)
  {
    var t := Written(g) + rest;
    BlockShape(g.body, rest, t);
    hide FindClose, Find, ScanString, WordRun, NumberLength, ClosesAt, Written;
    assert |Written(g)| == |g.body| + 4 by { WrittenBlock(g); }
    assert ClassOf(u, t[0]) == Other;
  }

  lemma WrittenBlock(g: Glyph)
    requires g.Block?
    ensures |Written(g)| == |g.body| + 4
  {
  }

  lemma BlockShape(body: string, rest: string, t: string)
    requires t == "/*" + body + "*/" + rest && ClosesAt(body + "*/", |body|)
    ensures |t| >= |body| + 4 && t[0] == '/' && t[1] == '*' && FindClose(t, 2) == |body| + 2
  {
    hide FindClose;
    var inner := body + "*/";
    assert t == "/*" + inner + rest;
    assert forall k :: 0 <= k < |inner| ==> t[k + 2] == inner[k];
    forall k | 2 <= k < |body| + 2 ensures !(t[k] == '*' && t[k + 1] == '/') {
      assert t[k] == inner[k - 2] && t[k + 1] == inner[k - 1];
    }
    assert t[|body| + 2] == inner[|body|] && t[|body| + 3] == inner[|body| + 1];
    CloseFound(t, 2, |body| + 2);
  }

  lemma LineTaken(u: Classes, g: Glyph, rest: string)
    requires g.Line? && Good(u, g)
    ensures TakenAs(u, g, rest)
  {
    hide FindClose, Find, ScanString, WordRun, NumberLength;
    var t := Written(g) + rest;
    assert t == "--" + g.body + "\n" + rest && t[0] == '-' && t[1] == '-';
    CommentEnds(g.body, rest);
  }

  lemma SmallTaken(u: Classes, g: Glyph, rest: string)
    requires (g.Mark? || g.Sign? || g.Blank?) && Good(u, g) && Stops(u, g, rest)
    ensures TakenAs(u, g, rest)
  {
    hide FindClose, Find, ScanString, WordRun, NumberLength;
    var t := Written(g) + rest;
    assert t[0] == Written(g)[0] && (|rest| > 0 ==> t[1] == rest[0]);
  }

  lemma WordTaken(u: Classes, g: Glyph, rest: string)
    requires g.Plain? && Good(u, g) && Stops(u, g, rest)
    ensures TakenAs(u, g, rest)
  {
    hide Next;
    ReadsWord(u, LWord(g.w), rest);
  }

  lemma QuotedTaken(u: Classes, g: Glyph, rest: string)
    requires g.Quoted? && Stops(u, g, rest)
    ensures TakenAs(u, g, rest)
  {
    hide Next;
    ReadsString(u, LString(g.s), rest);
  }

  /** Every piece is taken as itself, whatever follows that does not run on. */
  lemma GlyphTaken(u: Classes, g: Glyph, rest: string)
    requires Good(u, g) && Stops(u, g, rest)
    ensures TakenAs(u, g, rest)
  {
    hide TakenAs, Good, Stops;
    match g
    case Plain(_) => WordTaken(u, g, rest);
    case Named(_, _, _) => NameTaken(u, g, rest);
    case Quoted(_) => QuotedTaken(u, g, rest);
    case Number(_) => NumberTaken(u, g, rest);
    case Line(_) => LineTaken(u, g, rest);
    case Block(_) => BlockTaken(u, g, rest);
    case _ => SmallTaken(u, g, rest);
  }

  // ---------------------------------------------------------------- whole texts

  /** Text of such pieces, and then any other: its tokens, and then the other's. */
  lemma {:induction false} TextThen(u: Classes, gs: seq<Glyph>, tail: string)
    requires Flows(u, gs, tail)
    ensures Tokens(u, TextOf(gs) + tail) == Prepend(MeantBy(gs), Tokens(u, tail))
    decreases |gs|
  {
    hide Next, Good, Stops, Written, Meant;
    if |gs| == 0 {
      assert "" + tail == tail;
      PrependNone(Tokens(u, tail));
    } else {
      var g, rest := gs[0], TextOf(gs[1..]) + tail;
      GlyphTaken(u, g, rest);
      assert TextOf(gs) + tail == Written(g) + rest;
      Consumed(Written(g), rest);
      TextThen(u, gs[1..], tail);
      JoinedTokens(Meant(g), MeantBy(gs[1..]), Tokens(u, tail));
    }
  }

  lemma JoinedTokens(xs: seq<Token>, ys: seq<Token>, r: Result<seq<Token>, Error>)
    requires |xs| <= 1
    ensures Prepend(xs + ys, r) == if xs == [] then Prepend(ys, r) else Prepend(xs, Prepend(ys, r))
  {
    if r.Ok? { assert xs + (ys + r.value) == xs + ys + r.value; }
    if xs == [] { assert xs + ys == ys; }
  }

  lemma HandTextReads(u: Classes, gs: seq<Glyph>)
    requires Flows(u, gs, "")
    ensures Tokens(u, TextOf(gs)) == Ok(MeantBy(gs))
  {
    TextThen(u, gs, "");
    assert TextOf(gs) + "" == TextOf(gs) && MeantBy(gs) + [] == MeantBy(gs);
  }

  // --------------------------------------------------------------- never ending

  lemma {:induction false} StringNeverEnds(s: string, pre: string)
    ensures ScanString(pre + Doubled(s, '\''), |pre|) == Open
    decreases |s|
  {
    hide ScanString;
    var t := pre + Doubled(s, '\'');
    if |s| == 0 {
      AtEnd(t);
    } else {
      var d := if s[0] == '\'' then "''" else [s[0]];
      assert Doubled(s, '\'') == d + Doubled(s[1..], '\'');
      StringNeverEnds(s[1..], pre + d);
      Together(pre, d, Doubled(s[1..], '\''));
      assert t[|pre|] == d[0] && (s[0] == '\'' ==> t[|pre| + 1] == d[1]);
      ScanOne(t, |pre|, s[0]);
    }
  }

  lemma AtEnd(t: string)
    ensures ScanString(t, |t|) == Open
  {
  }

  lemma Together(a: string, b: string, c: string)
    ensures a + (b + c) == (a + b) + c
  {
  }

  lemma {:induction false} CommentNeverEnds(t: string, i: nat)
    requires i <= |t| && forall k :: i <= k < |t| - 1 ==> !(t[k] == '*' && t[k + 1] == '/')
    ensures FindClose(t, i) == |t|
    decreases |t| - i
  {
    if i + 1 < |t| { CommentNeverEnds(t, i + 1); }
  }

  /** A literal, a quoted name or a comment that is opened and never closed refuses the
      text, whatever good text comes before it. */
  lemma NeverEndingRefused(u: Classes, gs: seq<Glyph>, tail: string, body: string, open: char, close: char)
    requires Flows(u, gs, tail)
    ensures tail == "'" + Doubled(body, '\'') ==> Tokens(u, TextOf(gs) + tail) == Err(OpenString)
    ensures Pair(open, close) && tail == [open] + body && (forall i :: 0 <= i < |body| ==> body[i] != close)
            ==> Tokens(u, TextOf(gs) + tail) == Err(OpenIdentifier)
    ensures tail == "/*" + body && (forall k :: 0 <= k < |body| - 1 ==> !(body[k] == '*' && body[k + 1] == '/'))
            ==> Tokens(u, TextOf(gs) + tail) == Err(OpenComment)
  {
    TextThen(u, gs, tail);
    hide Tokens;
    if tail == "'" + Doubled(body, '\'') { OpenStringRefused(u, body); }
    if Pair(open, close) && tail == [open] + body && forall i :: 0 <= i < |body| ==> body[i] != close {
      OpenNameRefused(u, body, open, close);
    }
    if tail == "/*" + body && forall k :: 0 <= k < |body| - 1 ==> !(body[k] == '*' && body[k + 1] == '/') {
      OpenCommentRefused(u, body);
    }
  }

  lemma OpenStringRefused(u: Classes, body: string)
    ensures Tokens(u, "'" + Doubled(body, '\'')) == Err(OpenString)
  {
    hide FindClose, Find, ScanString, WordRun, NumberLength, Doubled;
    StringNeverEnds(body, "'");
    assert ("'" + Doubled(body, '\''))[0] == '\'';
  }

  lemma OpenNameRefused(u: Classes, body: string, open: char, close: char)
    requires Pair(open, close) && forall i :: 0 <= i < |body| ==> body[i] != close
    ensures Tokens(u, [open] + body) == Err(OpenIdentifier)
  {
    hide FindClose, ScanString, WordRun, NumberLength;
    var t := [open] + body;
    assert t[0] == open && forall k :: 1 <= k < |t| ==> t[k] == body[k - 1];
    var j := Find(t, Closer(open), 1);
    hide Find;
    assert j == |t|;
  }

  lemma OpenCommentRefused(u: Classes, body: string)
    requires forall k :: 0 <= k < |body| - 1 ==> !(body[k] == '*' && body[k + 1] == '/')
    ensures Tokens(u, "/*" + body) == Err(OpenComment)
  {
    hide Find, FindClose, ScanString, WordRun, NumberLength;
    var t := "/*" + body;
    assert t[0] == '/' && t[1] == '*' && forall k :: 2 <= k < |t| ==> t[k] == body[k - 2];
    CommentNeverEnds(t, 2);
  }
}
