/** Which names survive the importer, and what becomes of the others. */
module SqlNames {
  // `safe_identifier` (mdc/src/mdc/portability/plan.py:89-107).

  import opened SqlLexer
  import opened SqlReader
  import opened SqlWriter

  // ------------------------------------------------------------------ the form

  predicate LowerLetter(c: char) {
    'a' <= c <= 'z'
  }

  /** Lower-case letters, digits and underscores, not ending in an underscore; the first
      is a letter, or an underscore with a digit behind it. */
  predicate Identifier(name: string) {
    && |name| > 0 && (forall i :: 0 <= i < |name| ==> SafeChar(name[i])) && name[|name| - 1] != '_'
    && (LowerLetter(name[0]) || (name[0] == '_' && |name| > 1 && IsDigit(name[1])))
  }

  lemma {:induction false} LeftStripped(s: string)
    ensures StripLeft(s) == "" || StripLeft(s)[0] != '_'
  {
    if |s| > 0 && s[0] == '_' { LeftStripped(s[1..]); }
  }

  lemma {:induction false} RightStripped(s: string)
    ensures StripRight(s) == "" || StripRight(s)[|StripRight(s)| - 1] != '_'
    ensures StripRight(s) != "" ==> |s| > 0 && StripRight(s)[0] == s[0]
  {
    if |s| > 0 && s[|s| - 1] == '_' { RightStripped(s[..|s| - 1]); }
  }

  lemma LowerKeeps(c: char)
    ensures LowerChar(c) == '_' <==> c == '_'
  {
  }

  /** Whatever is written, an identifier comes out. */
  lemma SafeNameForm(raw: string)
    ensures Identifier(SafeName(raw))
  {
    SafeNameChars(raw);
    var left := StripLeft(Cleaned(raw, false));
    LeftStripped(Cleaned(raw, false));
    RightStripped(left);
    var plain := StripRight(left);
    hide Cleaned, StripLeft, StripRight;
    if plain != "" {
      LowerKeeps(plain[0]);
      LowerKeeps(plain[|plain| - 1]);
      var text := Lower(plain);
      assert text[0] == LowerChar(plain[0]) && text[|text| - 1] == LowerChar(plain[|plain| - 1]);
      assert SafeChar(text[0]) by { FirstSafe(raw, plain); }
      assert SafeName(raw) == if IsDigit(text[0]) then "_" + text else text;
    }
  }

  lemma FirstSafe(raw: string, plain: string)
    requires plain == StripRight(StripLeft(Cleaned(raw, false))) && plain != ""
    ensures SafeChar(Lower(plain)[0])
  {
    SafeNameChars(raw);
    hide Cleaned, StripLeft, StripRight;
    var text := Lower(plain);
    var name := SafeName(raw);
    if IsDigit(text[0]) { assert name[1] == text[0]; } else { assert name[0] == text[0]; }
  }

  // -------------------------------------------------------------- fixed points

  lemma {:induction false} NothingCleaned(s: string, inRun: bool)
    requires forall i :: 0 <= i < |s| ==> NameChar(s[i])
    ensures Cleaned(s, inRun) == s
    decreases |s|
  {
    if |s| > 0 {
      NothingCleaned(s[1..], false);
      assert s == [s[0]] + s[1..];
    }
  }

  lemma NothingLowered(s: string)
    requires forall i :: 0 <= i < |s| ==> SafeChar(s[i])
    ensures Lower(s) == s
  {
  }

  lemma IdentifierStays(name: string)
    requires Identifier(name)
    ensures SafeName(name) == name
  {
    NothingCleaned(name, false);
    if LowerLetter(name[0]) {
      assert StripLeft(name) == name && StripRight(name) == name;
      NothingLowered(name);
    } else {
      var rest := name[1..];
      assert StripLeft(name) == rest by { assert StripLeft(rest) == rest; }
      assert StripRight(rest) == rest;
      NothingLowered(rest);
      assert name == "_" + rest;
    }
  }

  /** The names that come back unchanged are exactly the identifiers. */
  lemma SafeIff(name: string)
    ensures Safe(name) <==> Identifier(name)
  {
    hide SafeName, Identifier;
    SafeNameForm(name);
    if Identifier(name) { IdentifierStays(name); }
  }

  /** Doing it twice changes nothing more. */
  lemma SafeNameTwice(raw: string)
    ensures SafeName(SafeName(raw)) == SafeName(raw)
  {
    hide SafeName, Identifier;
    SafeNameForm(raw);
    IdentifierStays(SafeName(raw));
  }

  // ------------------------------------------------------------- what is kept

  predicate LetterOrDigit(c: char) {
    ('a' <= c <= 'z') || ('A' <= c <= 'Z') || IsDigit(c)
  }

  /** The letters and digits of a text, in lower case. */
  function Letters(s: string): string
  {
    if |s| == 0 then "" else Kept(s[0]) + Letters(s[1..])
  }

  function Kept(c: char): string {
    if LetterOrDigit(c) then [LowerChar(c)] else ""
  }

  lemma {:induction false} LettersAppend(s: string, t: string)
    ensures Letters(s + t) == Letters(s) + Letters(t)
  {
    hide Kept;
    if |s| == 0 {
      assert s + t == t;
    } else {
      assert (s + t)[1..] == s[1..] + t;
      LettersAppend(s[1..], t);
      Grouped(Kept(s[0]), Letters(s[1..]), Letters(t));
    }
  }

  lemma Grouped(a: string, b: string, c: string)
    ensures a + (b + c) == (a + b) + c
  {
  }

  lemma OneLetter(c: char)
    ensures Letters([c]) == Kept(c)
  {
    assert [c][1..] == "";
  }

  lemma {:induction false} CleanedLetters(s: string, inRun: bool)
    ensures Letters(Cleaned(s, inRun)) == Letters(s)
    decreases |s|
  {
    if |s| > 0 {
      CleanedLetters(s[1..], false);
      CleanedLetters(s[1..], true);
      OneLetter(s[0]);
      OneLetter('_');
      LettersAppend([s[0]], Cleaned(s[1..], false));
      LettersAppend("_", Cleaned(s[1..], true));
      LettersAppend("", Cleaned(s[1..], true));
    }
  }

  lemma {:induction false} LeftLetters(s: string)
    ensures Letters(StripLeft(s)) == Letters(s)
  {
    if |s| > 0 && s[0] == '_' {
      LeftLetters(s[1..]);
      assert "" + Letters(s[1..]) == Letters(s[1..]);
    }
  }

  lemma {:induction false} RightLetters(s: string)
    ensures Letters(StripRight(s)) == Letters(s)
  {
    if |s| > 0 && s[|s| - 1] == '_' {
      RightLetters(s[..|s| - 1]);
      LettersAppend(s[..|s| - 1], "_");
      OneLetter('_');
      assert s == s[..|s| - 1] + "_";
    }
  }

  lemma {:induction false} LowerLetters(s: string)
    ensures Letters(Lower(s)) == Letters(s)
  {
    if |s| > 0 {
      LowerLetters(s[1..]);
      assert Lower(s)[1..] == Lower(s[1..]);
      assert LetterOrDigit(LowerChar(s[0])) <==> LetterOrDigit(s[0]);
    }
  }

  /** No letter or digit is lost, or changes its place; only a text without any gets a
      name of its own. */
  lemma LettersKept(raw: string)
    requires Letters(raw) != ""
    ensures Letters(SafeName(raw)) == Letters(raw)
  {
    CleanedLetters(raw, false);
    LeftLetters(Cleaned(raw, false));
    RightLetters(StripLeft(Cleaned(raw, false)));
    var plain := StripRight(StripLeft(Cleaned(raw, false)));
    LowerLetters(plain);
    hide Cleaned, StripLeft, StripRight, Letters;
    NoLetters();
    assert plain != "";
    LettersAppend("_", Lower(plain));
    OneLetter('_');
  }

  lemma NoLetters()
    ensures Letters("") == ""
  {
  }
}
