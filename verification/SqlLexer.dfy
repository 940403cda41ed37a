/** The SQL tokenizer. */
module SqlLexer {
  // The hand-written scanner (mdc/src/mdc/portability/readers.py:204-257) on any
  // text, and what it makes of text that is put together from whole lexemes.

  import opened Outcomes

  datatype Token = Word(w: string) | QIdent(name: string) | Str(s: string) | Num(text: string) | Punct(p: char) | Op(op: char)

  /** How Python classifies a character; below 128 it is fixed, above it is left
      open. */
  datatype Class = Space | Digit | Alpha | Other

  type Classes = char -> Class

  function ClassOf(u: Classes, c: char): Class {
    if c as int >= 128 then u(c)
    else if c == ' ' || 9 <= c as int <= 13 || 28 <= c as int <= 31 then Space
    else if '0' <= c <= '9' then Digit
    else if ('a' <= c <= 'z') || ('A' <= c <= 'Z') then Alpha
    else Other
  }

  predicate IsDigit(c: char) {
    '0' <= c <= '9'
  }

  predicate WordStart(c: char) {
    ('a' <= c <= 'z') || ('A' <= c <= 'Z') || c == '_'
  }

  predicate WordChar(c: char) {
    WordStart(c) || IsDigit(c) || c == '$'
  }

  datatype Error = OpenComment | OpenString | OpenIdentifier | NotAscii

  /** Position of `c` at or after `i`, or the end. */
  function Find(t: string, c: char, i: nat): (j: nat)
    requires i <= |t|
    ensures i <= j <= |t| && (j < |t| ==> t[j] == c) && forall k :: i <= k < j ==> t[k] != c
    decreases |t| - i
  {
    if i == |t| || t[i] == c then i else Find(t, c, i + 1)
  }

  /** Position of the two characters that close a comment, or the end. */
  function FindClose(t: string, i: nat): (j: nat)
    requires i <= |t|
    ensures i <= j <= |t| && (j < |t| ==> j + 1 < |t|)
    decreases |t| - i
  {
    if i + 1 >= |t| then |t| else if t[i] == '*' && t[i + 1] == '/' then i else FindClose(t, i + 1)
  }

  datatype Scan = Open | Closed(s: string, next: nat)

  /** The rest of a string literal: a doubled quote is a quote, a single one ends it. */
  function ScanString(t: string, j: nat): (r: Scan)
    requires j <= |t|
    ensures r.Closed? ==> j < r.next <= |t|
    decreases |t| - j
  {
    if j == |t| then Open
    else if t[j] == '\'' then
      if j + 1 < |t| && t[j + 1] == '\'' then Extend('\'', ScanString(t, j + 2)) else Closed("", j + 1)
    else Extend(t[j], ScanString(t, j + 1))
  }

  function Extend(c: char, r: Scan): Scan {
    if r.Open? then Open else Closed([c] + r.s, r.next)
  }

  /** How many characters from `i` on are digits. */
  function DigitRun(t: string, i: nat): (n: nat)
    requires i <= |t|
    ensures i + n <= |t| && (forall k :: i <= k < i + n ==> IsDigit(t[k])) && (i + n < |t| ==> !IsDigit(t[i + n]))
    decreases |t| - i
  {
    if i == |t| || !IsDigit(t[i]) then 0 else 1 + DigitRun(t, i + 1)
  }

  function WordRun(t: string, i: nat): (n: nat)
    requires i <= |t|
    ensures i + n <= |t| && (forall k :: i <= k < i + n ==> WordChar(t[k])) && (i + n < |t| ==> !WordChar(t[i + n]))
    decreases |t| - i
  {
    if i == |t| || !WordChar(t[i]) then 0 else 1 + WordRun(t, i + 1)
  }

  /** Digits and a fraction: what the number pattern matches before an exponent. */
  function Mantissa(t: string): (n: nat)
    ensures n <= |t|
  {
    var whole := DigitRun(t, 0);
    if whole + 1 < |t| && t[whole] == '.' && IsDigit(t[whole + 1]) then whole + 1 + DigitRun(t, whole + 1) else whole
  }

  /** An exponent at `i`, if a digit follows its letter and sign. */
  function Exponent(t: string, i: nat): (n: nat)
    requires i <= |t|
    ensures i + n <= |t|
  {
    if i < |t| && (t[i] == 'e' || t[i] == 'E') then
      var sign := if i + 1 < |t| && (t[i + 1] == '+' || t[i + 1] == '-') then 1 else 0;
      if i + 1 + sign < |t| && IsDigit(t[i + 1 + sign]) then 1 + sign + DigitRun(t, i + 1 + sign) else 0
    else 0
  }

  function NumberLength(t: string): (n: nat)
    ensures n <= |t|
  {
    Mantissa(t) + Exponent(t, Mantissa(t))
  }

  datatype Step = Skip(n: nat) | Emit(token: Token, n: nat) | Bad(error: Error)

  predicate StartsWith(t: string, a: char, b: char) {
    |t| >= 2 && t[0] == a && t[1] == b
  }

  function Closer(open: char): char {
    if open == '[' then ']' else open
  }

  /** One turn of the loop at the head of `t`. */
  function Next(u: Classes, t: string): (s: Step)
    requires |t| > 0
    ensures !s.Bad? ==> 0 < s.n <= |t|
  {
    var c := t[0];
    if ClassOf(u, c) == Space then Skip(1)
    else if StartsWith(t, '-', '-') then
      var j := Find(t, '\n', 0);
      Skip(if j == |t| then j else j + 1)
    else if StartsWith(t, '/', '*') then
      var j := FindClose(t, 2);
      if j == |t| then Bad(OpenComment) else Skip(j + 2)
    else if c == '\'' then
      var r := ScanString(t, 1);
      if r.Open? then Bad(OpenString) else Emit(Str(r.s), r.next)
    else if c == '"' || c == '`' || c == '[' then
      var j := Find(t, Closer(c), 1);
      if j == |t| then Bad(OpenIdentifier) else Emit(QIdent(t[1..j]), j + 1)
    else if ClassOf(u, c) == Digit || (c == '.' && |t| > 1 && ClassOf(u, t[1]) == Digit) then
      var n := NumberLength(t);
      if n == 0 then Bad(NotAscii) else Emit(Num(t[..n]), n)
    else if ClassOf(u, c) == Alpha || c == '_' then
      var n := WordRun(t, 0);
      if n == 0 then Bad(NotAscii) else Emit(Word(t[..n]), n)
    else if c in "(),;." then Emit(Punct(c), 1)
    else Emit(Op(c), 1)
  }

  /** `_tokenize`, of what is left of the text. */
  function Tokens(u: Classes, t: string): Result<seq<Token>, Error>
    decreases |t|
  {
    if |t| == 0 then Ok([])
    else
      match Next(u, t)
      case Bad(e) => Err(e)
      case Skip(n) => Tokens(u, t[n..])
      case Emit(token, n) =>
        var rest :- Tokens(u, t[n..]);
        Ok([token] + rest)
  }

  // ------------------------------------------------------------------- lexemes

  /** The pieces that exported text is made of. */
  datatype Lexeme =
    | LWord(w: string) | LQuoted(name: string) | LString(s: string) | LNumber(text: string)
    | LPunct(p: char) | LMinus | LBlank | LNewline | LComment(body: string)

  function Doubled(s: string, c: char): string
  {
    if |s| == 0 then "" else (if s[0] == c then [c, c] else [s[0]]) + Doubled(s[1..], c)
  }

  /** How each piece is written: `_q` for names, `_sql_literal` for strings. */
  function Text(l: Lexeme): string {
    match l
    case LWord(w) => w
    case LQuoted(name) => "\"" + Doubled(name, '"') + "\""
    case LString(s) => "'" + Doubled(s, '\'') + "'"
    case LNumber(text) => text
    case LPunct(p) => [p]
    case LMinus => "-"
    case LBlank => " "
    case LNewline => "\n"
    case LComment(body) => "--" + body + "\n"
  }

  function Render(ls: seq<Lexeme>): string
  {
    if |ls| == 0 then "" else Text(ls[0]) + Render(ls[1..])
  }

  function TokensOf(ls: seq<Lexeme>): seq<Token>
  {
    if |ls| == 0 then [] else Token1(ls[0]) + TokensOf(ls[1..])
  }

  function Token1(l: Lexeme): seq<Token> {
    match l
    case LWord(w) => [Word(w)]
    case LQuoted(name) => [QIdent(name)]
    case LString(s) => [Str(s)]
    case LNumber(text) => [Num(text)]
    case LPunct(p) => [Punct(p)]
    case LMinus => [Op('-')]
    case _ => []
  }

  /** A number written in full: the pattern matches all of it. */
  predicate NumberText(t: string) {
    |t| > 0 && IsDigit(t[0]) && NumberLength(t) == |t|
  }

  /** A piece that can be read back. */
  predicate Sound(l: Lexeme) {
    match l
    case LWord(w) => |w| > 0 && WordStart(w[0]) && forall i :: 0 <= i < |w| ==> WordChar(w[i])
    case LQuoted(name) => forall i :: 0 <= i < |name| ==> name[i] != '"'
    case LNumber(text) => NumberText(text)
    case LPunct(p) => p in "(),;"
    case LComment(body) => forall i :: 0 <= i < |body| ==> body[i] != '\n'
    case _ => true
  }

  /** What may come after a piece, so that it does not run on. */
  predicate Apart(l: Lexeme, next: Lexeme) {
    match l
    case LWord(_) => next.LBlank? || next.LNewline? || next.LPunct?
    case LNumber(_) => next.LBlank? || next.LNewline? || next.LPunct?
    case LString(_) => next.LBlank? || next.LNewline? || next.LPunct?
    case LMinus => next.LNumber?
    case _ => true
  }

  ghost predicate Readable(ls: seq<Lexeme>) {
    (forall i :: 0 <= i < |ls| ==> Sound(ls[i])) && forall i :: 0 <= i < |ls| - 1 ==> Apart(ls[i], ls[i + 1])
  }

  /** The text after a piece does not run on from it. */
  ghost predicate Ends(l: Lexeme, rest: string) {
    match l
    case LWord(_) => |rest| == 0 || !WordChar(rest[0])
    case LNumber(_) => |rest| == 0 || (!IsDigit(rest[0]) && rest[0] != '.' && rest[0] != 'e' && rest[0] != 'E')
    case LString(_) => |rest| == 0 || rest[0] != '\''
    case LMinus => |rest| == 0 || rest[0] != '-'
    case _ => true
  }

  lemma ApartEnds(l: Lexeme, next: Lexeme, rest: string)
    requires Sound(l) && Sound(next) && Apart(l, next)
    ensures Ends(l, Text(next) + rest)
  {
    hide Doubled, NumberLength;
  }

  /** A literal reads back as the string it was made from, whatever the string
      holds: quotes, semicolons, line breaks, comment marks. */
  lemma {:induction false} StringReadsBack(s: string, pre: string, rest: string)
    requires |rest| == 0 || rest[0] != '\''
    ensures ScanString(pre + Doubled(s, '\'') + "'" + rest, |pre|) == Closed(s, |pre| + |Doubled(s, '\'')| + 1)
    decreases |s|
  {
    hide ScanString;
    var t := pre + Doubled(s, '\'') + "'" + rest;
    if |s| == 0 {
      assert t[|pre|] == '\'' && (|rest| > 0 ==> t[|pre| + 1] == rest[0]);
      ScanEnds(t, |pre|);
    } else {
      var d := if s[0] == '\'' then "''" else [s[0]];
      assert Doubled(s, '\'') == d + Doubled(s[1..], '\'');
      StringReadsBack(s[1..], pre + d, rest);
      Regrouped(pre, d, Doubled(s[1..], '\''), "'", rest);
      assert t[|pre|] == d[0] && (s[0] == '\'' ==> t[|pre| + 1] == d[1]);
      ScanOne(t, |pre|, s[0]);
      assert s == [s[0]] + s[1..];
    }
  }

  lemma Regrouped(pre: string, d: string, more: string, quote: string, rest: string)
    ensures pre + (d + more) + quote + rest == (pre + d) + more + quote + rest
  {
  }

  lemma ScanEnds(t: string, j: nat)
    requires j < |t| && t[j] == '\'' && (j + 1 < |t| ==> t[j + 1] != '\'')
    ensures ScanString(t, j) == Closed("", j + 1)
  {
  }

  lemma ScanOne(t: string, j: nat, c: char)
    requires j < |t| && t[j] == c && (c == '\'' ==> j + 1 < |t| && t[j + 1] == '\'')
    ensures ScanString(t, j) == Extend(c, ScanString(t, if c == '\'' then j + 2 else j + 1))
  {
  }

  lemma {:induction false} NothingDoubled(s: string, c: char)
    requires forall i :: 0 <= i < |s| ==> s[i] != c
    ensures Doubled(s, c) == s
  {
    if |s| > 0 {
      NothingDoubled(s[1..], c);
      assert s == [s[0]] + s[1..];
    }
  }

  lemma {:induction false} DigitRunPrefix(t: string, rest: string, i: nat)
    requires i <= |t| && (|rest| == 0 || !IsDigit(rest[0]))
    ensures DigitRun(t + rest, i) == DigitRun(t, i)
    decreases |t| - i
  {
    if i < |t| {
      assert (t + rest)[i] == t[i];
      if IsDigit(t[i]) { DigitRunPrefix(t, rest, i + 1); }
    } else if |rest| > 0 {
      assert (t + rest)[i] == rest[0];
    }
  }

  /** A full number stays a number whatever harmless text follows. */
  lemma NumberReadsBack(t: string, rest: string)
    requires NumberLength(t) == |t| > 0
    requires |rest| == 0 || (!IsDigit(rest[0]) && rest[0] != '.' && rest[0] != 'e' && rest[0] != 'E')
    ensures NumberLength(t + rest) == |t|
  {
    hide DigitRun;
    var all := t + rest;
    forall i | 0 <= i <= |t| ensures DigitRun(all, i) == DigitRun(t, i) { DigitRunPrefix(t, rest, i); }
    assert forall i :: 0 <= i < |t| ==> all[i] == t[i];
    assert |rest| > 0 ==> all[|t|] == rest[0];
    MantissaSame(t, rest);
    ExponentSame(t, rest, Mantissa(t));
  }

  lemma MantissaSame(t: string, rest: string)
    requires |rest| == 0 || (!IsDigit(rest[0]) && rest[0] != '.')
    requires forall i :: 0 <= i <= |t| ==> DigitRun(t + rest, i) == DigitRun(t, i)
    requires NumberLength(t) == |t| > 0
    ensures Mantissa(t + rest) == Mantissa(t)
  {
    hide DigitRun;
    var all, whole := t + rest, DigitRun(t, 0);
    assert DigitRun(all, 0) == whole;
    assert forall i :: 0 <= i < |t| ==> all[i] == t[i];
    assert |rest| > 0 ==> all[|t|] == rest[0];
    if whole < |t| && t[whole] == '.' { DotNeedsDigit(t); }
  }

  lemma DotNeedsDigit(t: string)
    requires NumberLength(t) == |t| > 0 && DigitRun(t, 0) < |t| && t[DigitRun(t, 0)] == '.'
    ensures DigitRun(t, 0) + 1 < |t| && IsDigit(t[DigitRun(t, 0) + 1])
  {
  }

  lemma ExponentSame(t: string, rest: string, i: nat)
    requires i <= |t| && i + Exponent(t, i) == |t|
    requires |rest| == 0 || (!IsDigit(rest[0]) && rest[0] != 'e' && rest[0] != 'E')
    requires forall k :: 0 <= k <= |t| ==> DigitRun(t + rest, k) == DigitRun(t, k)
    ensures Exponent(t + rest, i) == Exponent(t, i)
  {
    hide DigitRun;
    var all := t + rest;
    assert forall k :: 0 <= k < |t| ==> all[k] == t[k];
    assert |rest| > 0 ==> all[|t|] == rest[0];
  }

  lemma {:induction false} WordRunPrefix(t: string, rest: string, i: nat)
    requires i <= |t| && (forall k :: 0 <= k < |t| ==> WordChar(t[k])) && (|rest| == 0 || !WordChar(rest[0]))
    ensures WordRun(t + rest, i) == |t| - i
    decreases |t| - i
  {
    if i < |t| {
      assert (t + rest)[i] == t[i];
      WordRunPrefix(t, rest, i + 1);
    } else if |rest| > 0 {
      assert (t + rest)[i] == rest[0];
    }
  }

  ghost predicate ReadAs(u: Classes, l: Lexeme, rest: string) {
    var t := Text(l) + rest;
    |Text(l)| > 0
    && var s := Next(u, t);
       !s.Bad? && s.n == |Text(l)| && (if Token1(l) == [] then s.Skip? else s.Emit? && Token1(l) == [s.token])
  }

  /** One piece followed by anything that does not run on is read as that piece. */
  lemma ReadsPiece(u: Classes, l: Lexeme, rest: string)
    requires Sound(l) && Ends(l, rest)
    ensures |Text(l)| > 0
    ensures var s := Next(u, Text(l) + rest);
            !s.Bad? && s.n == |Text(l)| && (if Token1(l) == [] then s.Skip? else s.Emit? && Token1(l) == [s.token])
  {
    hide Next, Text, Token1, Sound, Ends;
    match l
    case LWord(_) => ReadsWord(u, l, rest);
    case LQuoted(_) => ReadsQuoted(u, l, rest);
    case LString(_) => ReadsString(u, l, rest);
    case LNumber(_) => ReadsNumber(u, l, rest);
    case LComment(_) => ReadsComment(u, l, rest);
    case _ => ReadsSmall(u, l, rest);
  }

  lemma ReadsWord(u: Classes, l: Lexeme, rest: string)
    requires l.LWord? && Sound(l) && Ends(l, rest)
    ensures ReadAs(u, l, rest)
  {
    var t := l.w + rest;
    WordRunPrefix(l.w, rest, 0);
    assert t[0] == l.w[0] && t[..|l.w|] == l.w;
    PlainStart(u, t);
  }

  lemma ReadsQuoted(u: Classes, l: Lexeme, rest: string)
    requires l.LQuoted? && Sound(l)
    ensures ReadAs(u, l, rest)
  {
    NothingDoubled(l.name, '"');
    hide Doubled, Find, FindClose, ScanString, WordRun, NumberLength;
    var t := Text(l) + rest;
    assert t == "\"" + l.name + "\"" + rest;
    QuotedEnds(l.name, rest);
    assert t[1..|l.name| + 1] == l.name && t[0] == '"';
  }

  lemma ReadsString(u: Classes, l: Lexeme, rest: string)
    requires l.LString? && Ends(l, rest)
    ensures ReadAs(u, l, rest)
  {
    hide Doubled, Find, FindClose, ScanString, WordRun, NumberLength;
    StringReadsBack(l.s, "'", rest);
    var t := Text(l) + rest;
    assert t == "'" + Doubled(l.s, '\'') + "'" + rest && t[0] == '\'';
  }

  lemma ReadsNumber(u: Classes, l: Lexeme, rest: string)
    requires l.LNumber? && Sound(l) && Ends(l, rest)
    ensures ReadAs(u, l, rest)
  {
    NumberReadsBack(l.text, rest);
    var t := l.text + rest;
    assert t[0] == l.text[0] && t[..|l.text|] == l.text;
    DigitStart(u, t);
    hide NumberLength, Next;
  }

  lemma ReadsComment(u: Classes, l: Lexeme, rest: string)
    requires l.LComment? && Sound(l)
    ensures ReadAs(u, l, rest)
  {
    hide Doubled, Find, FindClose, ScanString, WordRun, NumberLength;
    var t := Text(l) + rest;
    assert t == "--" + l.body + "\n" + rest && t[0] == '-' && t[1] == '-';
    CommentEnds(l.body, rest);
  }

  lemma ReadsSmall(u: Classes, l: Lexeme, rest: string)
    requires (l.LPunct? || l.LMinus? || l.LBlank? || l.LNewline?) && Sound(l) && Ends(l, rest)
    ensures ReadAs(u, l, rest)
  {
    hide Find, FindClose, ScanString, WordRun, NumberLength;
    var t := Text(l) + rest;
    assert t[0] == Text(l)[0] && (|rest| > 0 ==> t[1] == rest[0]);
  }

  lemma PlainStart(u: Classes, t: string)
    requires |t| > 0 && WordStart(t[0])
    ensures Next(u, t) == if WordRun(t, 0) == 0 then Bad(NotAscii) else Emit(Word(t[..WordRun(t, 0)]), WordRun(t, 0))
  {
    hide WordRun, ScanString, NumberLength, Find, FindClose;
  }

  lemma DigitStart(u: Classes, t: string)
    requires |t| > 0 && IsDigit(t[0])
    ensures Next(u, t) == if NumberLength(t) == 0 then Bad(NotAscii) else Emit(Num(t[..NumberLength(t)]), NumberLength(t))
  {
    hide WordRun, ScanString, NumberLength, Find, FindClose;
  }

  lemma QuotedEnds(name: string, rest: string)
    requires forall i :: 0 <= i < |name| ==> name[i] != '"'
    ensures Find("\"" + name + "\"" + rest, '"', 1) == |name| + 1
  {
    var t := "\"" + name + "\"" + rest;
    var j := Find(t, '"', 1);
    assert t[|name| + 1] == '"';
  }

  lemma CommentEnds(body: string, rest: string)
    requires forall i :: 0 <= i < |body| ==> body[i] != '\n'
    ensures Find("--" + body + "\n" + rest, '\n', 0) == |body| + 2
  {
    var t := "--" + body + "\n" + rest;
    var j := Find(t, '\n', 0);
    assert t[|body| + 2] == '\n' && t[0] == '-' && t[1] == '-';
  }

  lemma Consumed(piece: string, rest: string)
    ensures (piece + rest)[|piece|..] == rest
  {
  }

  /** Text put together from readable pieces tokenizes to their tokens: in
      particular nothing inside a literal or a comment is taken for anything else. */
  lemma {:induction false} RenderReadsBack(u: Classes, ls: seq<Lexeme>)
    requires Readable(ls)
    ensures Tokens(u, Render(ls)) == Ok(TokensOf(ls))
    decreases |ls|
  {
    hide Next, Sound, Apart, Text, Token1, Ends;
    if |ls| > 0 {
      var l, rest := ls[0], Render(ls[1..]);
      if |ls| > 1 {
        assert Sound(ls[0]) && Sound(ls[1]) && Apart(ls[0], ls[1]);
        ApartEnds(l, ls[1], Render(ls[1..][1..]));
      } else {
        EndsAtEnd(l);
      }
      ReadsPiece(u, l, rest);
      Consumed(Text(l), rest);
      forall i | 0 <= i < |ls[1..]| - 1 ensures Apart(ls[1..][i], ls[1..][i + 1]) { assert Apart(ls[i + 1], ls[i + 2]); }
      RenderReadsBack(u, ls[1..]);
      assert [] + TokensOf(ls[1..]) == TokensOf(ls[1..]);
    }
  }

  lemma EndsAtEnd(l: Lexeme)
    ensures Ends(l, "")
  {
  }

  // -------------------------------------------------------------------- method

  /** `_tokenize`: an index moves over the text, tokens are appended. */
  method Tokenize(u: Classes, text: string) returns (r: Result<seq<Token>, Error>)
    ensures r == Tokens(u, text)
  {
    hide Next;
    var tokens: seq<Token> := [];
    var i := 0;
    assert text[0..] == text;
    PrependNone(Tokens(u, text));
    while i < |text|
      invariant 0 <= i <= |text|
      invariant Tokens(u, text) == Prepend(tokens, Tokens(u, text[i..]))
      decreases |text| - i
    {
      var step := Next(u, text[i..]);
      match step {
        case Bad(e) => return Err(e);
        case Skip(n) =>
          assert text[i..][n..] == text[i + n..];
          i := i + n;
        case Emit(token, n) =>
          assert text[i..][n..] == text[i + n..];
          PrependOne(tokens, token, Tokens(u, text[i + n..]));
          tokens := tokens + [token];
          i := i + n;
      }
    }
    assert tokens + [] == tokens;
    r := Ok(tokens);
  }

  function Prepend(tokens: seq<Token>, r: Result<seq<Token>, Error>): Result<seq<Token>, Error> {
    if r.Err? then r else Ok(tokens + r.value)
  }

  lemma PrependNone(r: Result<seq<Token>, Error>)
    ensures Prepend([], r) == r
  {
    if r.Ok? { assert [] + r.value == r.value; }
  }

  lemma PrependOne(tokens: seq<Token>, token: Token, r: Result<seq<Token>, Error>)
    ensures Prepend(tokens, Prepend([token], r)) == Prepend(tokens + [token], r)
  {
    if r.Ok? { assert tokens + ([token] + r.value) == tokens + [token] + r.value; }
  }
}
