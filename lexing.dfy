/** Tokens and the character-level rules of `Token_stream::get()`, for both calculators:
    `Ch7` (Stroustrup_PPP/Ch7/calculator.cpp) and `Extended` (Stroustrup_PPP/calculator_ch7),
    which adds `,`, `_` in names, the keywords `sqrt` and `pow`, and assignment `name = ...`
    performed while reading a token. The input is a sequence of characters and a cursor. */
module Lexing {
  import opened Errors
  import opened Symbols

  datatype Variant = Ch7 | Extended

  /** How a token stream reads: which calculator it belongs to, and the value `cin >> val` gives
      a floating-point literal (the literal's text is computed by `NumberEnd`; its value is
      the library's business). */
  datatype Dialect = Dialect(variant: Variant, numeral: string -> real)

  // Token kinds that are not the character they stand for.
  const NUMBER: char := '8'
  const QUIT: char := 'q'
  const PRINT: char := ';'
  const NAME: char := 'a'
  const LET: char := 'L'
  const SQUARE_ROOT: char := 's'
  const POWER: char := 'p'

  /** `struct Token { char kind; double value; string name; }` */
  datatype Token = Token(kind: char, value: real, name: string)

  /** `Token(ch)`: value 0, empty name. */
  function Symbol(c: char): Token { Token(c, 0.0, "") }

  /** `Token(number, val)` */
  function NumberToken(v: real): Token { Token(NUMBER, v, "") }

  /** `Token(name, s)`; the source leaves `value` uninitialised, the model reads 0. */
  function NameToken(s: string): Token { Token(NAME, 0.0, s) }

  /** What `cin >> ch` skips. */
  predicate IsSpace(c: char) {
    c == ' ' || c == '\t' || c == '\n' || c == '\r' || c as int == 11 || c as int == 12
  }

  /** `isalpha` in the C locale. */
  predicate IsLetter(c: char) { 'a' <= c <= 'z' || 'A' <= c <= 'Z' }

  /** `isdigit` */
  predicate IsDigit(c: char) { '0' <= c <= '9' }

  /** The characters that may continue a name. */
  predicate IsNameChar(v: Variant, c: char) {
    IsLetter(c) || IsDigit(c) || (v == Extended && c == '_')
  }

  /** The characters that are tokens by themselves ("each character represents itself"). */
  predicate IsSymbolChar(v: Variant, c: char) {
    || c == '(' || c == ')' || c == '+' || c == '-' || c == '*' || c == '/' || c == '%' || c == ';' || c == '='
    || (v == Ch7 && c == QUIT) || (v == Extended && c == ',')
  }

  /** The characters left to read from `pos`. */
  function Rem(s: string, pos: nat): nat {
    if pos <= |s| then |s| - pos else 0
  }

  /** The position of the first character at or after `i` that `cin >> ch` would not skip. */
  function SkipSpace(s: string, i: nat): (j: nat)
    ensures i <= j
    ensures i <= |s| ==> j <= |s|
    ensures j < |s| ==> !IsSpace(s[j])
    ensures forall k :: i <= k < j ==> k < |s| && IsSpace(s[k])
    decreases Rem(s, i)
  {
    if i < |s| && IsSpace(s[i]) then SkipSpace(s, i + 1) else i
  }

  /** The end of the run of digits starting at `i`. */
  function DigitsEnd(s: string, i: nat): (j: nat)
    ensures i <= j && (i <= |s| ==> j <= |s|)
    ensures forall k :: i <= k < j ==> k < |s| && IsDigit(s[k])
    ensures j < |s| ==> !IsDigit(s[j])
    decreases Rem(s, i)
  {
    if i < |s| && IsDigit(s[i]) then DigitsEnd(s, i + 1) else i
  }

  /** The end of an optional exponent `e`/`E`, optional sign, digits, at `b`; an exponent
      marker without digits is not part of the literal. */
  function ExponentEnd(s: string, b: nat): (j: nat)
    ensures b <= j && (b <= |s| ==> j <= |s|)
    ensures b < j ==> b + 1 < j <= |s| && (s[b] == 'e' || s[b] == 'E') && IsDigit(s[j - 1])
    ensures forall k :: b < k < j ==> IsDigit(s[k]) || (k == b + 1 && (s[k] == '+' || s[k] == '-'))
    ensures b < j < |s| ==> !IsDigit(s[j])
    ensures b + 1 < |s| && (s[b] == 'e' || s[b] == 'E') && IsDigit(s[b + 1]) ==> b < j
    ensures b + 2 < |s| && (s[b] == 'e' || s[b] == 'E') && (s[b + 1] == '+' || s[b + 1] == '-') && IsDigit(s[b + 2])
      ==> b < j
  {
    if b < |s| && (s[b] == 'e' || s[b] == 'E') then
      var c := if b + 1 < |s| && (s[b + 1] == '+' || s[b + 1] == '-') then b + 2 else b + 1;
      var e := DigitsEnd(s, c);
      if e > c then e else b
    else b
  }

  /** The end of the floating-point literal `cin >> val` reads from `i`: digits, an optional
      `.` and digits, an optional exponent. */
  function NumberEnd(s: string, i: nat): (j: nat)
    ensures i <= j && (i <= |s| ==> j <= |s|)
    ensures i < |s| && (IsDigit(s[i]) || s[i] == '.') ==> i < j
    ensures DigitsEnd(s, i) <= j
    ensures j < |s| ==> !IsDigit(s[j])
    ensures forall k :: i <= k < j ==> k < |s| && (IsDigit(s[k]) || s[k] in ".eE+-")
    ensures forall k, l :: i <= k < l < j && s[k] == '.' ==> s[l] != '.'
  {
    var a := DigitsEnd(s, i);
    var b := if a < |s| && s[a] == '.' then DigitsEnd(s, a + 1) else a;
    ExponentEnd(s, b)
  }

  /** The end of the name characters starting at `i` (the `while (cin.get(ch) && ...)` loop). */
  function NameEnd(v: Variant, s: string, i: nat): (j: nat)
    ensures i <= j && (i <= |s| ==> j <= |s|)
    ensures forall k :: i <= k < j ==> k < |s| && IsNameChar(v, s[k])
    ensures j < |s| ==> !IsNameChar(v, s[j])
    decreases Rem(s, i)
  {
    if i < |s| && IsNameChar(v, s[i]) then NameEnd(v, s, i + 1) else i
  }

  /** The words with a token kind of their own. */
  predicate IsKeyword(v: Variant, w: string) {
    w == "let" || w == "quit" || (v == Extended && (w == "sqrt" || w == "pow"))
  }

  /** The token a word lexes to when no assignment follows it. */
  function Classify(v: Variant, w: string): (t: Token)
    ensures w == "let" ==> t == Symbol(LET)
    ensures w == "quit" ==> t == Symbol(QUIT)
    ensures v == Extended && w == "sqrt" ==> t == Symbol(SQUARE_ROOT)
    ensures v == Extended && w == "pow" ==> t == Symbol(POWER)
    ensures !IsKeyword(v, w) ==> t == NameToken(w)
  {
    if w == "let" then Symbol(LET)
    else if w == "quit" then Symbol(QUIT)
    else if v == Extended && w == "sqrt" then Symbol(SQUARE_ROOT)
    else if v == Extended && w == "pow" then Symbol(POWER)
    else NameToken(w)
  }

  /** What one read from the characters yields: the token or error, the new cursor, and the
      table (the extended calculator assigns while reading). */
  datatype Lexed = Lexed(out: Result<Token>, pos: nat, table: seq<Variable>)

  /** `Token_stream::get()` with an empty buffer. */
  function Lex(d: Dialect, s: string, pos: nat, table: seq<Variable>): (r: Lexed)
    ensures Rem(s, r.pos) <= Rem(s, pos)
    ensures r.out.Ok? || r.out.error != EndOfInput ==> Rem(s, r.pos) < Rem(s, pos)
    ensures r.out.Err? ==> r.out.error == EndOfInput || r.out.error == BadToken
    ensures Names(r.table) == Names(table)
    ensures d.variant == Ch7 ==> r.table == table
    decreases Rem(s, pos), 2
  {
    var i := SkipSpace(s, pos);
    if i >= |s| then Lexed(Err(EndOfInput), i, table)
    else
      var c := s[i];
      if IsSymbolChar(d.variant, c) then Lexed(Ok(Symbol(c)), i + 1, table)
      else if c == '.' || IsDigit(c) then
        var j := NumberEnd(s, i);
        Lexed(Ok(NumberToken(d.numeral(s[i..j]))), j, table)
      else if IsLetter(c) then LexName(d, s, i, table)
      else Lexed(Err(BadToken), i + 1, table)
  }

  /** The `isalpha(ch)` branch of `get()`: the word starting at `i`, then its classification. */
  function LexName(d: Dialect, s: string, i: nat, table: seq<Variable>): (r: Lexed)
    requires i < |s| && IsLetter(s[i])
    ensures Rem(s, r.pos) < Rem(s, i)
    ensures r.out.Err? ==> r.out.error == EndOfInput || r.out.error == BadToken
    ensures Names(r.table) == Names(table)
    ensures d.variant == Ch7 ==> r.table == table
    decreases Rem(s, i), 1
  {
    var j := NameEnd(d.variant, s, i + 1);
    var w := s[i..j];
    if d.variant == Ch7 || IsKeyword(d.variant, w) then Lexed(Ok(Classify(d.variant, w)), j, table)
    else NameOrAssignment(d, s, w, j, table)
  }

  /** After a word that is not a keyword (extended calculator): if the next character that is
      not white space is `=` and the word is declared, read the next token and assign its value
      to the word; otherwise the word is a name token. */
  function NameOrAssignment(d: Dialect, s: string, w: string, j: nat, table: seq<Variable>): (r: Lexed)
    requires d.variant == Extended && 0 < j <= |s|
    ensures Rem(s, r.pos) <= Rem(s, j)
    ensures r.out.Err? ==> r.out.error == EndOfInput || r.out.error == BadToken
    ensures Names(r.table) == Names(table)
    decreases Rem(s, j), 0
  {
    var k := SkipSpace(s, j);
    if k < |s| && s[k] == '=' && Declared(table, w) then
      var rest := Lex(d, s, k + 1, table);
      if rest.out.Err? then rest
      else
        SameNamesSameDeclared(rest.table, table, w);
        match Assign(rest.table, w, rest.out.value.value)
        case Ok(t2) =>
          AssignFrame(rest.table, w, rest.out.value.value);
          Lexed(rest.out, rest.pos, t2)
        case Err(e) => assert false; rest
    else Lexed(Ok(NameToken(w)), k, table)
  }

  lemma SameNamesSameDeclared(a: seq<Variable>, b: seq<Variable>, w: string)
    requires Names(a) == Names(b)
    ensures Declared(a, w) == Declared(b, w)
  {
    SameNamesSameIndex(a, b, w);
  }

  /** A word: a letter that is not a token by itself, then name characters. */
  predicate IsWord(v: Variant, w: string) {
    |w| > 0 && IsLetter(w[0]) && !IsSymbolChar(v, w[0]) &&
    forall k :: 1 <= k < |w| ==> IsNameChar(v, w[k])
  }

  lemma {:induction false} NameEndOfWord(v: Variant, w: string, rest: string, i: nat)
    requires IsWord(v, w) && 1 <= i <= |w|
    requires rest == [] || !IsNameChar(v, rest[0])
    ensures NameEnd(v, w + rest, i) == |w|
    decreases |w| - i
  {
    if i < |w| {
      NameEndOfWord(v, w, rest, i + 1);
    }
  }

  /** Identifier classification: a word followed by something that cannot continue it lexes to
      its keyword token or to a name token carrying it, consuming exactly the word, provided no
      assignment follows it (`Ch7` never assigns; keywords never assign). */
  lemma LexWord(d: Dialect, w: string, rest: string, table: seq<Variable>)
    requires IsWord(d.variant, w)
    requires rest == [] || !IsNameChar(d.variant, rest[0])
    requires d.variant == Ch7 || IsKeyword(d.variant, w)
    ensures Lex(d, w + rest, 0, table) == Lexed(Ok(Classify(d.variant, w)), |w|, table)
  {
    var s := w + rest;
    NameEndOfWord(d.variant, w, rest, 1);
    assert s[0..|w|] == w;
    assert s[0] == w[0] && !IsSpace(s[0]);
    assert Lex(d, s, 0, table) == LexName(d, s, 0, table);
  }

  /** In the extended calculator an undeclared word that is not a keyword is a name token. */
  lemma LexUndeclaredName(d: Dialect, w: string, rest: string, table: seq<Variable>)
    requires d.variant == Extended && IsWord(d.variant, w) && !IsKeyword(d.variant, w)
    requires rest == [] || !IsNameChar(d.variant, rest[0])
    requires !Declared(table, w)
    ensures Lex(d, w + rest, 0, table).out == Ok(NameToken(w))
    ensures Lex(d, w + rest, 0, table).table == table
  {
    NameEndOfWord(d.variant, w, rest, 1);
    assert (w + rest)[0..|w|] == w;
    assert Lex(d, w + rest, 0, table) == LexName(d, w + rest, 0, table);
    assert LexName(d, w + rest, 0, table) == NameOrAssignment(d, w + rest, w, |w|, table);
  }

  /** Assignment while reading (extended calculator): a declared word directly followed by `=`
      reads the next token, stores its value in the word's variable, and yields that token. */
  lemma LexAssignment(d: Dialect, w: string, rest: string, table: seq<Variable>)
    requires d.variant == Extended && IsWord(d.variant, w) && !IsKeyword(d.variant, w)
    requires Declared(table, w)
    requires |rest| > 0 && rest[0] == '='
    ensures var inner := Lex(d, w + rest, |w| + 1, table);
            Lex(d, w + rest, 0, table) ==
              if inner.out.Err? then inner
              else Lexed(inner.out, inner.pos, Assign(inner.table, w, inner.out.value.value).value)
  {
    NameEndOfWord(d.variant, w, rest, 1);
    assert (w + rest)[0..|w|] == w;
    assert (w + rest)[|w|] == '=';
    assert Lex(d, w + rest, 0, table) == LexName(d, w + rest, 0, table);
    assert LexName(d, w + rest, 0, table) == NameOrAssignment(d, w + rest, w, |w|, table);
  }

  /** In `Ch7` the character `q` is the quit token by itself, before any identifier rule, so
      `quit` is read as `q` followed by the name `uit`. */
  lemma Ch7QuitCharacter(d: Dialect, s: string, pos: nat, table: seq<Variable>)
    requires d.variant == Ch7
    requires SkipSpace(s, pos) < |s| && s[SkipSpace(s, pos)] == 'q'
    ensures Lex(d, s, pos, table) == Lexed(Ok(Symbol(QUIT)), SkipSpace(s, pos) + 1, table)
  {
  }

  /** In the extended calculator `q` starts an ordinary name. */
  lemma ExtendedQIsAName(d: Dialect, table: seq<Variable>)
    requires d.variant == Extended
    ensures Lex(d, "q;", 0, table) == Lexed(Ok(NameToken("q")), 1, table)
  {
    assert NameEnd(d.variant, "q;", 1) == 1;
    assert "q;"[0..1] == "q";
    assert SkipSpace("q;", 1) == 1;
  }

  /** `cin >> ch` skips exactly the white space between `i` and `j`. */
  lemma {:induction false} SkipSpaceRun(s: string, i: nat, j: nat)
    requires i <= j <= |s|
    requires forall k :: i <= k < j ==> IsSpace(s[k])
    requires j == |s| || !IsSpace(s[j])
    ensures SkipSpace(s, i) == j
    decreases j - i
  {
    if i < j {
      SkipSpaceRun(s, i + 1, j);
    }
  }

  /** The digit loop stops exactly at the end of a run of digits. */
  lemma {:induction false} DigitsRun(s: string, i: nat, j: nat)
    requires i <= j <= |s|
    requires forall k :: i <= k < j ==> IsDigit(s[k])
    requires j == |s| || !IsDigit(s[j])
    ensures DigitsEnd(s, i) == j
    decreases j - i
  {
    if i < j {
      DigitsRun(s, i + 1, j);
    }
  }

  /** The name loop stops exactly at the end of a run of name characters. */
  lemma {:induction false} NameRun(v: Variant, s: string, i: nat, j: nat)
    requires i <= j <= |s|
    requires forall k :: i <= k < j ==> IsNameChar(v, s[k])
    requires j == |s| || !IsNameChar(v, s[j])
    ensures NameEnd(v, s, i) == j
    decreases j - i
  {
    if i < j {
      NameRun(v, s, i + 1, j);
    }
  }

  /** Only white space is left from `i`: `get()` reports the end of the input. */
  lemma LexEndAt(d: Dialect, s: string, i: nat, table: seq<Variable>)
    requires i <= |s|
    requires forall k :: i <= k < |s| ==> IsSpace(s[k])
    ensures Lex(d, s, i, table) == Lexed(Err(EndOfInput), |s|, table)
  {
    SkipSpaceRun(s, i, |s|);
  }

  /** A character that is a token by itself, after white space, is read as that token. */
  lemma LexSymbolAt(d: Dialect, s: string, i: nat, j: nat, table: seq<Variable>)
    requires i <= j < |s|
    requires forall k :: i <= k < j ==> IsSpace(s[k])
    requires IsSymbolChar(d.variant, s[j])
    ensures Lex(d, s, i, table) == Lexed(Ok(Symbol(s[j])), j + 1, table)
  {
    SkipSpaceRun(s, i, j);
  }

  /** A run of digits not followed by `.`, `e` or `E`, after white space, is read as one number
      literal whose text is exactly the digits. */
  lemma LexIntegerAt(d: Dialect, s: string, i: nat, j: nat, e: nat, table: seq<Variable>)
    requires i <= j < e <= |s|
    requires forall k :: i <= k < j ==> IsSpace(s[k])
    requires forall k :: j <= k < e ==> IsDigit(s[k])
    requires e == |s| || (!IsDigit(s[e]) && s[e] != '.' && s[e] != 'e' && s[e] != 'E')
    ensures Lex(d, s, i, table) == Lexed(Ok(NumberToken(d.numeral(s[j..e]))), e, table)
  {
    SkipSpaceRun(s, i, j);
    DigitsRun(s, j, e);
  }

  /** A word after white space, not followed by a name character, is read as its keyword or
      name token, consuming exactly the word, when no assignment can follow it. */
  lemma LexWordAt(d: Dialect, s: string, i: nat, j: nat, e: nat, table: seq<Variable>)
    requires i <= j < e <= |s|
    requires forall k :: i <= k < j ==> IsSpace(s[k])
    requires IsWord(d.variant, s[j..e])
    requires e == |s| || !IsNameChar(d.variant, s[e])
    requires d.variant == Ch7 || IsKeyword(d.variant, s[j..e])
    ensures Lex(d, s, i, table) == Lexed(Ok(Classify(d.variant, s[j..e])), e, table)
  {
    SkipSpaceRun(s, i, j);
    assert forall k :: j + 1 <= k < e ==> s[k] == s[j..e][k - j];
    NameRun(d.variant, s, j + 1, e);
  }

  /** A word after white space is read by the identifier branch, whose name loop stops at the
      word's end. */
  lemma WordAt(d: Dialect, s: string, i: nat, j: nat, e: nat, table: seq<Variable>)
    requires i <= j < e <= |s|
    requires forall k :: i <= k < j ==> IsSpace(s[k])
    requires IsWord(d.variant, s[j..e])
    requires e == |s| || !IsNameChar(d.variant, s[e])
    ensures j < |s| && IsLetter(s[j])
    ensures Lex(d, s, i, table) == LexName(d, s, j, table)
    ensures NameEnd(d.variant, s, j + 1) == e
  {
    SkipSpaceRun(s, i, j);
    assert forall k :: j + 1 <= k < e ==> s[k] == s[j..e][k - j];
    NameRun(d.variant, s, j + 1, e);
    assert s[j] == s[j..e][0];
  }

  /** In the extended calculator the identifier branch hands a word that is not a keyword to
      the check for a following `=`. */
  lemma NonKeywordAt(d: Dialect, s: string, j: nat, e: nat, table: seq<Variable>)
    requires d.variant == Extended
    requires j < e <= |s| && IsLetter(s[j])
    requires NameEnd(d.variant, s, j + 1) == e && !IsKeyword(d.variant, s[j..e])
    ensures LexName(d, s, j, table) == NameOrAssignment(d, s, s[j..e], e, table)
  {
  }

  /** In the extended calculator a word that is not a keyword and is not followed (after white
      space ending at `f`) by `=` is a name token; the cursor is left at `f`. */
  lemma LexNameAt(d: Dialect, s: string, i: nat, j: nat, e: nat, f: nat, table: seq<Variable>)
    requires d.variant == Extended
    requires i <= j < e <= f <= |s|
    requires forall k :: i <= k < j ==> IsSpace(s[k])
    requires IsWord(d.variant, s[j..e]) && !IsKeyword(d.variant, s[j..e])
    requires e == |s| || !IsNameChar(d.variant, s[e])
    requires forall k :: e <= k < f ==> IsSpace(s[k])
    requires f == |s| || (!IsSpace(s[f]) && (s[f] != '=' || !Declared(table, s[j..e])))
    ensures Lex(d, s, i, table) == Lexed(Ok(NameToken(s[j..e])), f, table)
  {
    WordAt(d, s, i, j, e, table);
    NonKeywordAt(d, s, j, e, table);
    SkipSpaceRun(s, e, f);
  }

  /** The check for `=` after a declared word that is followed (after white space ending at `f`)
      by `=`: the next token is read and its value assigned to the word. */
  lemma AssignmentAfter(d: Dialect, s: string, w: string, e: nat, f: nat, table: seq<Variable>)
    requires d.variant == Extended && 0 < e <= f < |s|
    requires forall k :: e <= k < f ==> IsSpace(s[k])
    requires s[f] == '=' && Declared(table, w)
    ensures var inner := Lex(d, s, f + 1, table);
            NameOrAssignment(d, s, w, e, table) ==
              if inner.out.Err? then inner
              else Lexed(inner.out, inner.pos, Assign(inner.table, w, inner.out.value.value).value)
  {
    SkipSpaceRun(s, e, f);
  }

  /** In the extended calculator a declared word followed (after white space ending at `f`) by
      `=` reads the token after the `=`, assigns its value to the word, and yields that token. */
  lemma LexAssignmentAt(d: Dialect, s: string, i: nat, j: nat, e: nat, f: nat, table: seq<Variable>)
    requires d.variant == Extended
    requires i <= j < e <= f < |s|
    requires forall k :: i <= k < j ==> IsSpace(s[k])
    requires IsWord(d.variant, s[j..e]) && !IsKeyword(d.variant, s[j..e])
    requires e == |s| || !IsNameChar(d.variant, s[e])
    requires forall k :: e <= k < f ==> IsSpace(s[k])
    requires s[f] == '=' && Declared(table, s[j..e])
    ensures var inner := Lex(d, s, f + 1, table);
            Lex(d, s, i, table) ==
              if inner.out.Err? then inner
              else Lexed(inner.out, inner.pos, Assign(inner.table, s[j..e], inner.out.value.value).value)
  {
    WordAt(d, s, i, j, e, table);
    NonKeywordAt(d, s, j, e, table);
    AssignmentAfter(d, s, s[j..e], e, f, table);
  }
}
