/** Whole sessions on concrete inputs. The value `cin >> val` gives a literal is a parameter of
    the model, so each scenario states which values the literals it uses have; the library
    functions are parameters too. */
module Scenarios {
  import opened Errors
  import opened Symbols
  import opened Lexing
  import opened Streams
  import opened Grammar
  import opened GrammarFacts

  // One step of each parsing function, stated on the tokens `get()` returns; the scenarios are
  // chains of these.

  lemma NumberPrimary(d: Dialect, m: Maths, st: State, v: real, st1: State)
    requires Get(d, st) == Step(Ok(NumberToken(v)), st1)
    ensures Primary(d, m, st) == Step(Ok(v), st1)
  {
  }

  lemma NamePrimary(d: Dialect, m: Maths, st: State, w: string, st1: State)
    requires Get(d, st) == Step(Ok(NameToken(w)), st1)
    ensures Primary(d, m, st) == Step(Lookup(st1.table, w), st1)
  {
  }

  lemma TermStart(d: Dialect, m: Maths, st: State, v: real, st1: State)
    requires Primary(d, m, st) == Step(Ok(v), st1)
    ensures Term(d, m, st) == TermTail(d, m, v, st1)
  {
  }

  lemma TermTailStops(d: Dialect, m: Maths, left: real, st: State, t: Token, st1: State)
    requires Get(d, st) == Step(Ok(t), st1) && t.kind !in "*/%"
    ensures TermTail(d, m, left, st) == Step(Ok(left), st1.(full := true, buffer := t))
  {
  }

  lemma TermTailTimes(d: Dialect, m: Maths, left: real, st: State, st1: State, v: real, st2: State)
    requires Get(d, st) == Step(Ok(Symbol('*')), st1)
    requires Primary(d, m, st1) == Step(Ok(v), st2)
    ensures TermTail(d, m, left, st) == TermTail(d, m, Times(left, v), st2)
  {
  }

  lemma TermTailOver(d: Dialect, m: Maths, left: real, st: State, st1: State, v: real, st2: State)
    requires Get(d, st) == Step(Ok(Symbol('/')), st1)
    requires Primary(d, m, st1) == Step(Ok(v), st2) && v != 0.0
    ensures TermTail(d, m, left, st) == TermTail(d, m, Over(left, v), st2)
  {
  }

  lemma ExpressionStart(d: Dialect, m: Maths, st: State, v: real, st1: State)
    requires Term(d, m, st) == Step(Ok(v), st1)
    ensures Expression(d, m, st) == ExprTail(d, m, v, st1)
  {
  }

  lemma ExprTailStops(d: Dialect, m: Maths, left: real, st: State, t: Token, st1: State)
    requires Get(d, st) == Step(Ok(t), st1) && t.kind !in "+-"
    ensures ExprTail(d, m, left, st) == Step(Ok(left), st1.(full := true, buffer := t))
  {
  }

  lemma ExprTailPlus(d: Dialect, m: Maths, left: real, st: State, st1: State, v: real, st2: State)
    requires Get(d, st) == Step(Ok(Symbol('+')), st1)
    requires Term(d, m, st1) == Step(Ok(v), st2)
    ensures ExprTail(d, m, left, st) == ExprTail(d, m, Plus(left, v), st2)
  {
  }

  lemma ExprTailMinus(d: Dialect, m: Maths, left: real, st: State, st1: State, v: real, st2: State)
    requires Get(d, st) == Step(Ok(Symbol('-')), st1)
    requires Term(d, m, st1) == Step(Ok(v), st2)
    ensures ExprTail(d, m, left, st) == ExprTail(d, m, Minus(left, v), st2)
  {
  }

  lemma ExpressionStatement(d: Dialect, m: Maths, st: State, t: Token, st1: State)
    requires Get(d, st) == Step(Ok(t), st1) && t.kind != LET
    ensures Statement(d, m, st) == Expression(d, m, st1.(full := true, buffer := t))
  {
  }

  lemma SkipPrintsOnce(d: Dialect, st: State, st1: State)
    requires Get(d, st) == Step(Ok(Symbol(PRINT)), st1)
    ensures SkipPrints(d, st) == SkipPrints(d, st1)
  {
  }

  lemma SkipPrintsStops(d: Dialect, st: State, r: Step<Token>)
    requires Get(d, st) == r && (r.out.Err? || r.out.value.kind != PRINT)
    ensures SkipPrints(d, st) == r
  {
  }

  lemma RoundEvaluates(d: Dialect, m: Maths, st: State, t: Token, st1: State, r: Step<real>)
    requires SkipPrints(d, st) == Step(Ok(t), st1) && t.kind != QUIT
    requires Statement(d, m, st1.(full := true, buffer := t)) == r
    ensures Round(d, m, st) == if r.out.Ok? then Evaluated(r.out.value, r.st) else Failed(r.out.error, r.st)
  {
  }

  lemma RoundEnds(d: Dialect, m: Maths, st: State, st1: State)
    requires SkipPrints(d, st) == Step(Err(EndOfInput), st1)
    ensures Calculate(d, m, st) == Session([], EndOfStream, st1)
  {
  }

  lemma RoundQuits(d: Dialect, m: Maths, st: State, t: Token, st1: State)
    requires SkipPrints(d, st) == Step(Ok(t), st1) && t.kind == QUIT
    ensures Calculate(d, m, st) == Session([], Quit, st1)
  {
  }

  lemma TermFails(d: Dialect, m: Maths, st: State, e: Error, st1: State)
    requires Primary(d, m, st) == Step(Err(e), st1)
    ensures Term(d, m, st) == Step(Err(e), st1)
  {
  }

  lemma ExpressionFails(d: Dialect, m: Maths, st: State, e: Error, st1: State)
    requires Term(d, m, st) == Step(Err(e), st1)
    ensures Expression(d, m, st) == Step(Err(e), st1)
  {
  }

  lemma ParenUnclosed(d: Dialect, m: Maths, st: State, st1: State, v: real, st2: State, t: Token, st3: State)
    requires Get(d, st) == Step(Ok(Symbol('(')), st1)
    requires Expression(d, m, st1) == Step(Ok(v), st2)
    requires Get(d, st2) == Step(Ok(t), st3) && t.kind != ')'
    ensures Primary(d, m, st) == Step(Err(if d.variant == Ch7 then LParenExpected else RParenExpected), st3)
  {
  }

  lemma DeclarationStatement(d: Dialect, m: Maths, st: State, st1: State)
    requires Get(d, st) == Step(Ok(Symbol(LET)), st1)
    ensures Statement(d, m, st) == Declaration(d, m, st1)
  {
  }

  /** `*` binds tighter than `+`: `2+3*4;` prints 14 and the session ends with the input. */
  lemma PrecedenceSession(d: Dialect, m: Maths)
    requires d.variant == Ch7
    requires d.numeral("2") == 2.0 && d.numeral("3") == 3.0 && d.numeral("4") == 4.0
    ensures Run(d, m, "2+3*4;") ==
            Session([Printed(14.0)], EndOfStream, State("2+3*4;", 6, false, Symbol(PRINT), Predefined(Ch7)))
  {
    var s, T := "2+3*4;", Predefined(Ch7);
    var n2 := NumberToken(2.0);
    var st0 := State(s, 0, false, Symbol(0 as char), T);
    var a1 := State(s, 1, false, Symbol(0 as char), T);
    var b6 := State(s, 6, true, Symbol(PRINT), T);
    var c6 := State(s, 6, false, Symbol(PRINT), T);
    assert s[0..1] == "2";
    LexIntegerAt(d, s, 0, 0, 1, T);
    LexEndAt(d, s, 6, T);
    PrecedenceExpression(d, m, T);
    ExpressionStatement(d, m, State(s, 1, true, n2, T), n2, State(s, 1, false, n2, T));
    SkipPrintsStops(d, st0, Step(Ok(n2), a1));
    RoundEvaluates(d, m, st0, n2, a1, Step(Ok(14.0), b6));
    SkipPrintsStops(d, c6, Step(Err(EndOfInput), c6));
    SkipPrintsOnce(d, b6, c6);
    RoundEnds(d, m, b6, c6);
    CalculatePrints(d, m, st0, 14.0, b6);
  }

  /** The statement `2+3*4` adds 2 to the term `3*4`, and leaves the `;` that ends it in the
      buffer. */
  lemma PrecedenceExpression(d: Dialect, m: Maths, T: seq<Variable>)
    requires d.variant == Ch7
    requires d.numeral("2") == 2.0 && d.numeral("3") == 3.0 && d.numeral("4") == 4.0
    ensures Expression(d, m, State("2+3*4;", 1, true, NumberToken(2.0), T)) ==
            Step(Ok(14.0), State("2+3*4;", 6, true, Symbol(PRINT), T))
  {
    var s := "2+3*4;";
    var b1 := State(s, 1, true, NumberToken(2.0), T);
    var c1 := State(s, 1, false, NumberToken(2.0), T);
    var b2 := State(s, 2, true, Symbol('+'), T);
    var c2 := State(s, 2, false, Symbol('+'), T);
    var b6 := State(s, 6, true, Symbol(PRINT), T);
    LexSymbolAt(d, s, 1, 1, T);
    NumberPrimary(d, m, b1, 2.0, c1);
    TermTailStops(d, m, 2.0, c1, Symbol('+'), State(s, 2, false, NumberToken(2.0), T));
    TermStart(d, m, b1, 2.0, c1);
    PrecedenceTerm(d, m, T);
    ExprTailStops(d, m, 14.0, b6, Symbol(PRINT), State(s, 6, false, Symbol(PRINT), T));
    ExprTailPlus(d, m, 2.0, b2, c2, 12.0, b6);
    ExpressionStart(d, m, b1, 2.0, b2);
  }

  /** The term `3*4` after the `+`. */
  lemma PrecedenceTerm(d: Dialect, m: Maths, T: seq<Variable>)
    requires d.variant == Ch7
    requires d.numeral("3") == 3.0 && d.numeral("4") == 4.0
    ensures Term(d, m, State("2+3*4;", 2, false, Symbol('+'), T)) ==
            Step(Ok(12.0), State("2+3*4;", 6, true, Symbol(PRINT), T))
  {
    var s := "2+3*4;";
    var c2 := State(s, 2, false, Symbol('+'), T);
    var c3 := State(s, 3, false, Symbol('+'), T);
    assert s[2..3] == "3";
    LexIntegerAt(d, s, 2, 2, 3, T);
    NumberPrimary(d, m, c2, 3.0, c3);
    TermStart(d, m, c2, 3.0, c3);
    PrecedenceTimes(d, m, T);
  }

  /** `*4` after the operand 3. */
  lemma PrecedenceTimes(d: Dialect, m: Maths, T: seq<Variable>)
    requires d.variant == Ch7
    requires d.numeral("4") == 4.0
    ensures TermTail(d, m, 3.0, State("2+3*4;", 3, false, Symbol('+'), T)) ==
            Step(Ok(12.0), State("2+3*4;", 6, true, Symbol(PRINT), T))
  {
    var s := "2+3*4;";
    var c3 := State(s, 3, false, Symbol('+'), T);
    var c4 := State(s, 4, false, Symbol('+'), T);
    var c5 := State(s, 5, false, Symbol('+'), T);
    assert s[4..5] == "4";
    LexSymbolAt(d, s, 3, 3, T);
    LexIntegerAt(d, s, 4, 4, 5, T);
    LexSymbolAt(d, s, 5, 5, T);
    TermTailStops(d, m, 12.0, c5, Symbol(PRINT), State(s, 6, false, Symbol('+'), T));
    NumberPrimary(d, m, c4, 4.0, c5);
    TermTailTimes(d, m, 3.0, c3, c4, 4.0, c5);
  }

  /** A last statement that is a number literal ending at `j`, followed by the `;` that ends the
      input, prints the literal's value; then the session ends with the input. */
  lemma LastNumberSession(d: Dialect, m: Maths, s: string, i: nat, j: nat, buf: Token, T: seq<Variable>)
    requires i < j && j + 1 == |s| && s[j] == PRINT
    requires forall k :: i <= k < j ==> IsDigit(s[k])
    ensures Calculate(d, m, State(s, i, false, buf, T)) ==
            Session([Printed(d.numeral(s[i..j]))], EndOfStream, State(s, |s|, false, Symbol(PRINT), T))
  {
    var v := d.numeral(s[i..j]);
    var n := NumberToken(v);
    var st0 := State(s, i, false, buf, T);
    var a := State(s, j, false, buf, T);
    var b := State(s, j, true, n, T);
    var c := State(s, j, false, n, T);
    var bEnd := State(s, |s|, true, Symbol(PRINT), T);
    var cEnd := State(s, |s|, false, Symbol(PRINT), T);
    LexIntegerAt(d, s, i, i, j, T);
    LexSymbolAt(d, s, j, j, T);
    LexEndAt(d, s, |s|, T);
    NumberPrimary(d, m, b, v, c);
    TermTailStops(d, m, v, c, Symbol(PRINT), State(s, |s|, false, n, T));
    TermStart(d, m, b, v, c);
    ExprTailStops(d, m, v, bEnd, Symbol(PRINT), cEnd);
    ExpressionStart(d, m, b, v, bEnd);
    ExpressionStatement(d, m, b, n, c);
    SkipPrintsStops(d, st0, Step(Ok(n), a));
    RoundEvaluates(d, m, st0, n, a, Step(Ok(v), bEnd));
    SkipPrintsStops(d, cEnd, Step(Err(EndOfInput), cEnd));
    SkipPrintsOnce(d, bEnd, cEnd);
    RoundEnds(d, m, bEnd, cEnd);
    CalculatePrints(d, m, st0, v, bEnd);
  }

  /** In `Ch7` a `(` with no `)` before the `;` is reported as "'(' expected"; the error
      recovery then discards up to the NEXT `;`, because the first one was already read while
      looking for the `)`. So `(1;2;3;` reports the error, loses the statement `2`, and prints 3. */
  lemma UnclosedParenSession(d: Dialect, m: Maths)
    requires d.variant == Ch7
    requires d.numeral("1") == 1.0 && d.numeral("3") == 3.0
    ensures Run(d, m, "(1;2;3;") ==
            Session([Reported(LParenExpected), Printed(3.0)], EndOfStream,
                    State("(1;2;3;", 7, false, Symbol(PRINT), Predefined(Ch7)))
  {
    var s, T := "(1;2;3;", Predefined(Ch7);
    var st0 := State(s, 0, false, Symbol(0 as char), T);
    var f := State(s, 3, false, Symbol(PRINT), T);
    assert [Reported(LParenExpected)] + [Printed(3.0)] == [Reported(LParenExpected), Printed(3.0)];
    UnclosedParenRound(d, m, T);
    CalculateReports(d, m, st0, LParenExpected, f);
    UnclosedParenRecovered(d, m, T);
  }

  /** `clean_up_mess()` after the error, then the rest of the session. */
  lemma UnclosedParenRecovered(d: Dialect, m: Maths, T: seq<Variable>)
    requires d.numeral("3") == 3.0
    ensures Calculate(d, m, Ignore(State("(1;2;3;", 3, false, Symbol(PRINT), T), PRINT)) ==
            Session([Printed(3.0)], EndOfStream, State("(1;2;3;", 7, false, Symbol(PRINT), T))
  {
    UnclosedParenResync(T);
    UnclosedParenTail(d, m, T);
  }

  /** `clean_up_mess()` reads `2;`. */
  lemma UnclosedParenResync(T: seq<Variable>)
    ensures Ignore(State("(1;2;3;", 3, false, Symbol(PRINT), T), PRINT) == State("(1;2;3;", 5, false, Symbol(PRINT), T)
  {
    IgnoreEndAtFirst("(1;2;3;", 3, 4, PRINT);
  }

  /** After the recovery only `3;` is left. */
  lemma UnclosedParenTail(d: Dialect, m: Maths, T: seq<Variable>)
    requires d.numeral("3") == 3.0
    ensures Calculate(d, m, State("(1;2;3;", 5, false, Symbol(PRINT), T)) ==
            Session([Printed(3.0)], EndOfStream, State("(1;2;3;", 7, false, Symbol(PRINT), T))
  {
    var s := "(1;2;3;";
    assert s[5..6] == "3";
    LastNumberSession(d, m, s, 5, 6, Symbol(PRINT), T);
  }

  /** The first statement fails at the first `;`, which has been consumed. */
  lemma UnclosedParenRound(d: Dialect, m: Maths, T: seq<Variable>)
    requires d.variant == Ch7
    requires d.numeral("1") == 1.0
    ensures Round(d, m, State("(1;2;3;", 0, false, Symbol(0 as char), T)) ==
            Failed(LParenExpected, State("(1;2;3;", 3, false, Symbol(PRINT), T))
  {
    var s := "(1;2;3;";
    var lp := Symbol('(');
    var st0 := State(s, 0, false, Symbol(0 as char), T);
    var a1 := State(s, 1, false, Symbol(0 as char), T);
    var b1 := State(s, 1, true, lp, T);
    var c1 := State(s, 1, false, lp, T);
    var f := State(s, 3, false, Symbol(PRINT), T);
    LexSymbolAt(d, s, 0, 0, T);
    UnclosedParenPrimary(d, m, T);
    TermFails(d, m, b1, LParenExpected, f);
    ExpressionFails(d, m, b1, LParenExpected, f);
    ExpressionStatement(d, m, b1, lp, c1);
    SkipPrintsStops(d, st0, Step(Ok(lp), a1));
    RoundEvaluates(d, m, st0, lp, a1, Step(Err(LParenExpected), f));
  }

  /** `(1;`: the expression `1` is read, then the `;` where `)` should be. */
  lemma UnclosedParenPrimary(d: Dialect, m: Maths, T: seq<Variable>)
    requires d.variant == Ch7
    requires d.numeral("1") == 1.0
    ensures Primary(d, m, State("(1;2;3;", 1, true, Symbol('('), T)) ==
            Step(Err(LParenExpected), State("(1;2;3;", 3, false, Symbol(PRINT), T))
  {
    var s := "(1;2;3;";
    var c1 := State(s, 1, false, Symbol('('), T);
    var c2 := State(s, 2, false, Symbol('('), T);
    var b3 := State(s, 3, true, Symbol(PRINT), T);
    var c3 := State(s, 3, false, Symbol(PRINT), T);
    assert s[1..2] == "1";
    LexIntegerAt(d, s, 1, 1, 2, T);
    LexSymbolAt(d, s, 2, 2, T);
    NumberPrimary(d, m, c1, 1.0, c2);
    TermTailStops(d, m, 1.0, c2, Symbol(PRINT), State(s, 3, false, Symbol('('), T));
    TermStart(d, m, c1, 1.0, c2);
    ExprTailStops(d, m, 1.0, b3, Symbol(PRINT), c3);
    ExpressionStart(d, m, c1, 1.0, b3);
    ParenUnclosed(d, m, State(s, 1, true, Symbol('('), T), c1, 1.0, b3, Symbol(PRINT), c3);
  }

  /** A statement whose only operand is the buffered token `t`, ended by a symbol at `i` that
      continues neither a term nor an expression, has the operand's value; the symbol is put back. */
  lemma OperandExpression(d: Dialect, m: Maths, s: string, i: nat, t: Token, v: real, T: seq<Variable>)
    requires i < |s| && IsSymbolChar(d.variant, s[i]) && s[i] !in "*/%+-"
    requires Primary(d, m, State(s, i, true, t, T)) == Step(Ok(v), State(s, i, false, t, T))
    ensures Expression(d, m, State(s, i, true, t, T)) == Step(Ok(v), State(s, i + 1, true, Symbol(s[i]), T))
  {
    var b := State(s, i + 1, true, Symbol(s[i]), T);
    LexSymbolAt(d, s, i, i, T);
    TermTailStops(d, m, v, State(s, i, false, t, T), Symbol(s[i]), State(s, i + 1, false, t, T));
    TermStart(d, m, State(s, i, true, t, T), v, State(s, i, false, t, T));
    ExprTailStops(d, m, v, b, Symbol(s[i]), State(s, i + 1, false, Symbol(s[i]), T));
    ExpressionStart(d, m, State(s, i, true, t, T), v, b);
  }

  /** One round whose statement is a single operand followed by `;` (or another symbol that ends
      an expression). */
  lemma OperandRound(d: Dialect, m: Maths, st: State, s: string, i: nat, buf: Token, t: Token, v: real, T: seq<Variable>)
    requires SkipPrints(d, st) == Step(Ok(t), State(s, i, false, buf, T)) && t.kind != QUIT && t.kind != LET
    requires i < |s| && IsSymbolChar(d.variant, s[i]) && s[i] !in "*/%+-"
    requires Primary(d, m, State(s, i, true, t, T)) == Step(Ok(v), State(s, i, false, t, T))
    ensures Round(d, m, st) == Evaluated(v, State(s, i + 1, true, Symbol(s[i]), T))
  {
    OperandExpression(d, m, s, i, t, v, T);
    ExpressionStatement(d, m, State(s, i, true, t, T), t, State(s, i, false, t, T));
    RoundEvaluates(d, m, st, t, State(s, i, false, buf, T), Step(Ok(v), State(s, i + 1, true, Symbol(s[i]), T)));
  }

  /** A round whose statement is a single name, ended by a symbol that continues neither a term
      nor an expression, prints the name's value. */
  lemma NameRound(d: Dialect, m: Maths, s: string, i: nat, e: nat, buf: Token, w: string, v: real, T: seq<Variable>)
    requires Lex(d, s, i, T) == Lexed(Ok(NameToken(w)), e, T)
    requires e < |s| && IsSymbolChar(d.variant, s[e]) && s[e] !in "*/%+-"
    requires Lookup(T, w) == Ok(v)
    ensures Round(d, m, State(s, i, false, buf, T)) == Evaluated(v, State(s, e + 1, true, Symbol(s[e]), T))
  {
    var nw := NameToken(w);
    var st := State(s, i, false, buf, T);
    SkipPrintsStops(d, st, Step(Ok(nw), State(s, e, false, buf, T)));
    NamePrimary(d, m, State(s, e, true, nw, T), w, State(s, e, false, nw, T));
    OperandRound(d, m, st, s, e, buf, nw, v, T);
  }

  /** A round whose statement is a single name ended by the `;` at position `e` prints the name's
      value. */
  lemma NamePrintRound(d: Dialect, m: Maths, s: string, i: nat, e: nat, buf: Token, w: string, v: real, T: seq<Variable>)
    requires Lex(d, s, i, T) == Lexed(Ok(NameToken(w)), e, T)
    requires e < |s| && s[e] == PRINT && Lookup(T, w) == Ok(v)
    ensures Round(d, m, State(s, i, false, buf, T)) == Evaluated(v, State(s, e + 1, true, Symbol(PRINT), T))
  {
    NameRound(d, m, s, i, e, buf, w, v, T);
  }

  /** A round whose statement is a single number token, ended likewise, prints its value. */
  lemma NumberRound(d: Dialect, m: Maths, s: string, i: nat, e: nat, buf: Token, v: real, T: seq<Variable>, T1: seq<Variable>)
    requires Lex(d, s, i, T) == Lexed(Ok(NumberToken(v)), e, T1)
    requires e < |s| && IsSymbolChar(d.variant, s[e]) && s[e] !in "*/%+-"
    ensures Round(d, m, State(s, i, false, buf, T)) == Evaluated(v, State(s, e + 1, true, Symbol(s[e]), T1))
  {
    var n := NumberToken(v);
    var st := State(s, i, false, buf, T);
    SkipPrintsStops(d, st, Step(Ok(n), State(s, e, false, buf, T1)));
    NumberPrimary(d, m, State(s, e, true, n, T1), v, State(s, e, false, n, T1));
    OperandRound(d, m, st, s, e, buf, n, v, T1);
  }

  /** A number statement ended by `;`. */
  lemma NumberPrintRound(d: Dialect, m: Maths, s: string, i: nat, e: nat, buf: Token, v: real, T: seq<Variable>, T1: seq<Variable>)
    requires Lex(d, s, i, T) == Lexed(Ok(NumberToken(v)), e, T1)
    requires e < |s| && s[e] == PRINT
    ensures Round(d, m, State(s, i, false, buf, T)) == Evaluated(v, State(s, e + 1, true, Symbol(PRINT), T1))
  {
    NumberRound(d, m, s, i, e, buf, v, T, T1);
  }

  /** The `;` of the last statement is skipped and the input has ended. */
  lemma SessionEnds(d: Dialect, m: Maths, s: string, T: seq<Variable>)
    ensures Calculate(d, m, State(s, |s|, true, Symbol(PRINT), T)) ==
            Session([], EndOfStream, State(s, |s|, false, Symbol(PRINT), T))
  {
    var c := State(s, |s|, false, Symbol(PRINT), T);
    LexEndAt(d, s, |s|, T);
    SkipPrintsStops(d, c, Step(Err(EndOfInput), c));
    SkipPrintsOnce(d, State(s, |s|, true, Symbol(PRINT), T), c);
    RoundEnds(d, m, State(s, |s|, true, Symbol(PRINT), T), c);
  }

  /** Assignment in the extended calculator: `pi=3;pi;` prints 3 twice; `pi` holds 3 afterwards
      and no name was added. */
  lemma AssignmentSession(d: Dialect, m: Maths)
    requires d.variant == Extended
    requires d.numeral("3") == 3.0
    ensures var T2 := Assign(Predefined(Extended), "pi", 3.0).value;
            Run(d, m, "pi=3;pi;") ==
            Session([Printed(3.0), Printed(3.0)], EndOfStream, State("pi=3;pi;", 8, false, Symbol(PRINT), T2))
    ensures var T2 := Assign(Predefined(Extended), "pi", 3.0).value;
            Lookup(T2, "pi") == Ok(3.0) && Names(T2) == Names(Predefined(Extended))
  {
    var T := Predefined(Extended);
    assert Declared(T, "pi") by {
      assert T[0].name == "pi";
    }
    var T2 := Assign(T, "pi", 3.0).value;
    AssignThenLookup(T, "pi", 3.0);
    AssignFrame(T, "pi", 3.0);
    AssignmentLex(d, T);
    AssignmentSessionFrom(d, m, T, T2);
  }

  /** The session `pi=3;pi;` from any table in which reading `pi=3` leaves `T2`, where `pi`
      holds 3. */
  lemma AssignmentSessionFrom(d: Dialect, m: Maths, T: seq<Variable>, T2: seq<Variable>)
    requires d.variant == Extended
    requires Lex(d, "pi=3;pi;", 0, T) == Lexed(Ok(NumberToken(3.0)), 4, T2)
    requires Lookup(T2, "pi") == Ok(3.0)
    ensures Calculate(d, m, State("pi=3;pi;", 0, false, Symbol(0 as char), T)) ==
            Session([Printed(3.0), Printed(3.0)], EndOfStream, State("pi=3;pi;", 8, false, Symbol(PRINT), T2))
  {
    var s := "pi=3;pi;";
    var st0 := State(s, 0, false, Symbol(0 as char), T);
    var b5 := State(s, 5, true, Symbol(PRINT), T2);
    assert [Printed(3.0)] + [Printed(3.0)] == [Printed(3.0), Printed(3.0)];
    AssignmentRound(d, m, T, T2);
    LookupSession(d, m, T2);
    CalculatePrints(d, m, st0, 3.0, b5);
  }

  /** The rest of the session after `pi=3;`: `pi;` prints 3 and the input ends. */
  lemma LookupSession(d: Dialect, m: Maths, T2: seq<Variable>)
    requires d.variant == Extended
    requires Lookup(T2, "pi") == Ok(3.0)
    ensures Calculate(d, m, State("pi=3;pi;", 5, true, Symbol(PRINT), T2)) ==
            Session([Printed(3.0)], EndOfStream, State("pi=3;pi;", 8, false, Symbol(PRINT), T2))
  {
    var s := "pi=3;pi;";
    LookupRound(d, m, T2);
    SessionEnds(d, m, s, T2);
    CalculatePrints(d, m, State(s, 5, true, Symbol(PRINT), T2), 3.0, State(s, 8, true, Symbol(PRINT), T2));
  }

  /** `pi=3;`: reading the token after `pi=` assigns its value to `pi`, and the statement is
      that token, 3. */
  lemma AssignmentRound(d: Dialect, m: Maths, T: seq<Variable>, T2: seq<Variable>)
    requires d.variant == Extended
    requires Lex(d, "pi=3;pi;", 0, T) == Lexed(Ok(NumberToken(3.0)), 4, T2)
    ensures Round(d, m, State("pi=3;pi;", 0, false, Symbol(0 as char), T)) ==
            Evaluated(3.0, State("pi=3;pi;", 5, true, Symbol(PRINT), T2))
  {
    assert "pi=3;pi;"[4] == PRINT;
    NumberPrintRound(d, m, "pi=3;pi;", 0, 4, Symbol(0 as char), 3.0, T, T2);
  }

  /** `get()` at `pi=3`: the token is the number 3, and `pi` now holds it. */
  lemma AssignmentLex(d: Dialect, T: seq<Variable>)
    requires d.variant == Extended
    requires d.numeral("3") == 3.0
    requires Declared(T, "pi")
    ensures Lex(d, "pi=3;pi;", 0, T) == Lexed(Ok(NumberToken(3.0)), 4, Assign(T, "pi", 3.0).value)
  {
    AssignmentStep(d, T);
    ThreeLex(d, T);
  }

  /** `pi=` at the start: the token after `=` is read and its value assigned to `pi`. */
  lemma AssignmentStep(d: Dialect, T: seq<Variable>)
    requires d.variant == Extended && Declared(T, "pi")
    ensures var inner := Lex(d, "pi=3;pi;", 3, T);
            Lex(d, "pi=3;pi;", 0, T) ==
              if inner.out.Err? then inner
              else Lexed(inner.out, inner.pos, Assign(inner.table, "pi", inner.out.value.value).value)
  {
    var s := "pi=3;pi;";
    assert s[0..2] == "pi";
    assert IsWord(Extended, s[0..2]);
    assert !IsNameChar(Extended, s[2]) && s[2] == '=';
    LexAssignmentAt(d, s, 0, 0, 2, 2, T);
  }

  /** The literal after `pi=`. */
  lemma ThreeLex(d: Dialect, T: seq<Variable>)
    requires d.numeral("3") == 3.0
    ensures Lex(d, "pi=3;pi;", 3, T) == Lexed(Ok(NumberToken(3.0)), 4, T)
  {
    var s := "pi=3;pi;";
    assert s[3..4] == "3";
    LexIntegerAt(d, s, 3, 3, 4, T);
  }

  /** `get()` at the second `pi`: a name token, since no `=` follows. */
  lemma LookupLex(d: Dialect, T2: seq<Variable>)
    requires d.variant == Extended
    ensures Lex(d, "pi=3;pi;", 5, T2) == Lexed(Ok(NameToken("pi")), 7, T2)
  {
    var s := "pi=3;pi;";
    assert s[5..7] == "pi";
    assert IsWord(Extended, s[5..7]);
    LexNameAt(d, s, 5, 5, 7, 7, T2);
  }

  /** `pi;` once `pi` holds 3. */
  lemma LookupRound(d: Dialect, m: Maths, T2: seq<Variable>)
    requires d.variant == Extended
    requires Lookup(T2, "pi") == Ok(3.0)
    ensures Round(d, m, State("pi=3;pi;", 5, true, Symbol(PRINT), T2)) ==
            Evaluated(3.0, State("pi=3;pi;", 8, true, Symbol(PRINT), T2))
  {
    var s := "pi=3;pi;";
    var np := NameToken("pi");
    LookupSkip(d, T2);
    NamePrimary(d, m, State(s, 7, true, np, T2), "pi", State(s, 7, false, np, T2));
    OperandRound(d, m, State(s, 5, true, Symbol(PRINT), T2), s, 7, Symbol(PRINT), np, 3.0, T2);
  }

  /** The `;` put back after `pi=3` is skipped, and the next token is the name `pi`. */
  lemma LookupSkip(d: Dialect, T2: seq<Variable>)
    requires d.variant == Extended
    ensures SkipPrints(d, State("pi=3;pi;", 5, true, Symbol(PRINT), T2)) ==
            Step(Ok(NameToken("pi")), State("pi=3;pi;", 7, false, Symbol(PRINT), T2))
  {
    var s := "pi=3;pi;";
    var c5 := State(s, 5, false, Symbol(PRINT), T2);
    LookupLex(d, T2);
    SkipPrintsStops(d, c5, Step(Ok(NameToken("pi")), State(s, 7, false, Symbol(PRINT), T2)));
    SkipPrintsOnce(d, State(s, 5, true, Symbol(PRINT), T2), c5);
  }

  /** Redeclaring a predefined name: `let pi=1;pi;` reports "pi declared twice", discards up to
      the `;`, and then prints the predefined value of `pi`. */
  lemma RedeclarationSession(d: Dialect, m: Maths)
    requires d.variant == Ch7
    ensures Run(d, m, "let pi=1;pi;") ==
            Session([Reported(DeclaredTwice("pi")), Printed(3.1415926535)], EndOfStream,
                    State("let pi=1;pi;", 12, false, Symbol(PRINT), Predefined(Ch7)))
  {
    var s, T := "let pi=1;pi;", Predefined(Ch7);
    var st0 := State(s, 0, false, Symbol(0 as char), T);
    var f := State(s, 6, false, Symbol(LET), T);
    assert Declared(T, "pi") by {
      assert T[0].name == "pi";
    }
    assert [Reported(DeclaredTwice("pi"))] + [Printed(3.1415926535)] ==
           [Reported(DeclaredTwice("pi")), Printed(3.1415926535)];
    RedeclarationRound(d, m, T);
    CalculateReports(d, m, st0, DeclaredTwice("pi"), f);
    RedeclarationRecovered(d, m, T, 3.1415926535);
  }

  /** `clean_up_mess()` after the error, then the rest of the session. */
  lemma RedeclarationRecovered(d: Dialect, m: Maths, T: seq<Variable>, v: real)
    requires d.variant == Ch7 && Lookup(T, "pi") == Ok(v)
    ensures Calculate(d, m, Ignore(State("let pi=1;pi;", 6, false, Symbol(LET), T), PRINT)) ==
            Session([Printed(v)], EndOfStream, State("let pi=1;pi;", 12, false, Symbol(PRINT), T))
  {
    RedeclarationResync(T);
    RedeclarationTail(d, m, T, v);
  }

  /** `let pi` fails as soon as the name is read. */
  lemma RedeclarationRound(d: Dialect, m: Maths, T: seq<Variable>)
    requires d.variant == Ch7 && Declared(T, "pi")
    ensures Round(d, m, State("let pi=1;pi;", 0, false, Symbol(0 as char), T)) ==
            Failed(DeclaredTwice("pi"), State("let pi=1;pi;", 6, false, Symbol(LET), T))
  {
    var s := "let pi=1;pi;";
    var lt := Symbol(LET);
    var st0 := State(s, 0, false, Symbol(0 as char), T);
    var a3 := State(s, 3, false, Symbol(0 as char), T);
    var c3 := State(s, 3, false, lt, T);
    var f := State(s, 6, false, lt, T);
    RedeclarationLex(d, T);
    DeclarationOfDeclaredName(d, m, c3);
    DeclarationStatement(d, m, State(s, 3, true, lt, T), c3);
    SkipPrintsStops(d, st0, Step(Ok(lt), a3));
    RoundEvaluates(d, m, st0, lt, a3, Step(Err(DeclaredTwice("pi")), f));
  }

  /** The words `let` and `pi` of the declaration. */
  lemma RedeclarationLex(d: Dialect, T: seq<Variable>)
    requires d.variant == Ch7
    ensures Lex(d, "let pi=1;pi;", 0, T) == Lexed(Ok(Symbol(LET)), 3, T)
    ensures Lex(d, "let pi=1;pi;", 3, T) == Lexed(Ok(NameToken("pi")), 6, T)
  {
    LetLex(d, T);
    PiLex(d, T);
  }

  lemma LetLex(d: Dialect, T: seq<Variable>)
    requires d.variant == Ch7
    ensures Lex(d, "let pi=1;pi;", 0, T) == Lexed(Ok(Symbol(LET)), 3, T)
  {
    var s := "let pi=1;pi;";
    assert s[0..3] == "let";
    assert IsWord(Ch7, s[0..3]);
    LexWordAt(d, s, 0, 0, 3, T);
  }

  lemma PiLex(d: Dialect, T: seq<Variable>)
    requires d.variant == Ch7
    ensures Lex(d, "let pi=1;pi;", 3, T) == Lexed(Ok(NameToken("pi")), 6, T)
  {
    var s := "let pi=1;pi;";
    assert s[4..6] == "pi";
    assert IsWord(Ch7, s[4..6]);
    LexWordAt(d, s, 3, 4, 6, T);
  }

  /** The word `pi` of the last statement. */
  lemma RedeclarationTailLex(d: Dialect, T: seq<Variable>)
    requires d.variant == Ch7
    ensures Lex(d, "let pi=1;pi;", 9, T) == Lexed(Ok(NameToken("pi")), 11, T)
  {
    var s := "let pi=1;pi;";
    assert s[9..11] == "pi";
    assert IsWord(Ch7, s[9..11]);
    LexWordAt(d, s, 9, 9, 11, T);
  }

  /** `clean_up_mess()` reads `=1;`. */
  lemma RedeclarationResync(T: seq<Variable>)
    ensures Ignore(State("let pi=1;pi;", 6, false, Symbol(LET), T), PRINT) == State("let pi=1;pi;", 9, false, Symbol(LET), T)
  {
    IgnoreEndAtFirst("let pi=1;pi;", 6, 8, PRINT);
  }

  /** `pi;` with the variables unchanged by the failed declaration. */
  lemma RedeclarationTail(d: Dialect, m: Maths, T: seq<Variable>, v: real)
    requires d.variant == Ch7 && Lookup(T, "pi") == Ok(v)
    ensures Calculate(d, m, State("let pi=1;pi;", 9, false, Symbol(LET), T)) ==
            Session([Printed(v)], EndOfStream, State("let pi=1;pi;", 12, false, Symbol(PRINT), T))
  {
    var s := "let pi=1;pi;";
    RedeclarationTailRound(d, m, T, v);
    SessionEnds(d, m, s, T);
    CalculatePrints(d, m, State(s, 9, false, Symbol(LET), T), v, State(s, 12, true, Symbol(PRINT), T));
  }

  /** The statement `pi;` prints the value of `pi`. */
  lemma RedeclarationTailRound(d: Dialect, m: Maths, T: seq<Variable>, v: real)
    requires d.variant == Ch7 && Lookup(T, "pi") == Ok(v)
    ensures Round(d, m, State("let pi=1;pi;", 9, false, Symbol(LET), T)) ==
            Evaluated(v, State("let pi=1;pi;", 12, true, Symbol(PRINT), T))
  {
    RedeclarationTailLex(d, T);
    NameRound(d, m, "let pi=1;pi;", 9, 11, Symbol(LET), "pi", v, T);
  }

  /** In `Ch7` the character `q` ends the session: `1;q` prints 1 and quits. */
  lemma QuitSession(d: Dialect, m: Maths)
    requires d.variant == Ch7
    requires d.numeral("1") == 1.0
    ensures Run(d, m, "1;q") == Session([Printed(1.0)], Quit, State("1;q", 3, false, Symbol(PRINT), Predefined(Ch7)))
  {
    QuitSessionFrom(d, m, Predefined(Ch7));
  }

  lemma QuitSessionFrom(d: Dialect, m: Maths, T: seq<Variable>)
    requires d.variant == Ch7
    requires d.numeral("1") == 1.0
    ensures Calculate(d, m, State("1;q", 0, false, Symbol(0 as char), T)) ==
            Session([Printed(1.0)], Quit, State("1;q", 3, false, Symbol(PRINT), T))
  {
    var s := "1;q";
    QuitFirstRound(d, m, T);
    QuitSecondRound(d, m, T);
    CalculatePrints(d, m, State(s, 0, false, Symbol(0 as char), T), 1.0, State(s, 2, true, Symbol(PRINT), T));
  }

  /** `1;` prints 1. */
  lemma QuitFirstRound(d: Dialect, m: Maths, T: seq<Variable>)
    requires d.variant == Ch7
    requires d.numeral("1") == 1.0
    ensures Round(d, m, State("1;q", 0, false, Symbol(0 as char), T)) == Evaluated(1.0, State("1;q", 2, true, Symbol(PRINT), T))
  {
    var s := "1;q";
    assert s[0..1] == "1";
    LexIntegerAt(d, s, 0, 0, 1, T);
    NumberRound(d, m, s, 0, 1, Symbol(0 as char), 1.0, T, T);
  }

  /** After the `;`, `q` quits. */
  lemma QuitSecondRound(d: Dialect, m: Maths, T: seq<Variable>)
    requires d.variant == Ch7
    ensures Calculate(d, m, State("1;q", 2, true, Symbol(PRINT), T)) == Session([], Quit, State("1;q", 3, false, Symbol(PRINT), T))
  {
    var s := "1;q";
    var b2 := State(s, 2, true, Symbol(PRINT), T);
    var c2 := State(s, 2, false, Symbol(PRINT), T);
    var c3 := State(s, 3, false, Symbol(PRINT), T);
    Ch7QuitCharacter(d, s, 2, T);
    SkipPrintsStops(d, c2, Step(Ok(Symbol(QUIT)), c3));
    SkipPrintsOnce(d, b2, c2);
    RoundQuits(d, m, b2, Symbol(QUIT), c3);
  }

  /** A session of one statement whose first token `t` was read from the start of the input and
      whose expression ends with the `;` that ends the input prints the expression's value. */
  lemma SingleStatementSession(d: Dialect, m: Maths, s: string, t: Token, j: nat, v: real, T: seq<Variable>)
    requires Lex(d, s, 0, T) == Lexed(Ok(t), j, T) && t.kind != QUIT && t.kind != LET && t.kind != PRINT
    requires Expression(d, m, State(s, j, true, t, T)) == Step(Ok(v), State(s, |s|, true, Symbol(PRINT), T))
    ensures Calculate(d, m, State(s, 0, false, Symbol(0 as char), T)) ==
            Session([Printed(v)], EndOfStream, State(s, |s|, false, Symbol(PRINT), T))
  {
    var st0 := State(s, 0, false, Symbol(0 as char), T);
    var a := State(s, j, false, Symbol(0 as char), T);
    var b := State(s, |s|, true, Symbol(PRINT), T);
    ExpressionStatement(d, m, State(s, j, true, t, T), t, State(s, j, false, t, T));
    SkipPrintsStops(d, st0, Step(Ok(t), a));
    RoundEvaluates(d, m, st0, t, a, Step(Ok(v), b));
    SessionEnds(d, m, s, T);
    CalculatePrints(d, m, st0, v, b);
  }

  /** A number literal read at `i` and followed by a symbol that continues no term is a whole
      term; the symbol is put back. */
  lemma NumberTermAt(d: Dialect, m: Maths, s: string, i: nat, j: nat, buf: Token, v: real, T: seq<Variable>)
    requires Lex(d, s, i, T) == Lexed(Ok(NumberToken(v)), j, T)
    requires j < |s| && IsSymbolChar(d.variant, s[j]) && s[j] !in "*/%"
    ensures Term(d, m, State(s, i, false, buf, T)) == Step(Ok(v), State(s, j + 1, true, Symbol(s[j]), T))
  {
    var c := State(s, j, false, buf, T);
    LexSymbolAt(d, s, j, j, T);
    NumberPrimary(d, m, State(s, i, false, buf, T), v, c);
    TermTailStops(d, m, v, c, Symbol(s[j]), State(s, j + 1, false, buf, T));
    TermStart(d, m, State(s, i, false, buf, T), v, c);
  }

  /** A one-digit literal at `i` followed by a symbol that continues no term is a whole term. */
  lemma DigitTermAt(d: Dialect, m: Maths, s: string, i: nat, buf: Token, v: real, T: seq<Variable>)
    requires i + 1 < |s| && IsDigit(s[i]) && d.numeral(s[i..i + 1]) == v
    requires IsSymbolChar(d.variant, s[i + 1]) && s[i + 1] !in "*/%.eE0123456789"
    ensures Term(d, m, State(s, i, false, buf, T)) == Step(Ok(v), State(s, i + 2, true, Symbol(s[i + 1]), T))
  {
    LexIntegerAt(d, s, i, i, i + 1, T);
    NumberTermAt(d, m, s, i, i + 1, buf, v, T);
  }

  /** `-` associates to the left: `8-3-2;` prints 3, not 7. */
  lemma SubtractionSession(d: Dialect, m: Maths)
    requires d.numeral("8") == 8.0 && d.numeral("3") == 3.0 && d.numeral("2") == 2.0
    ensures Run(d, m, "8-3-2;") ==
            Session([Printed(3.0)], EndOfStream, State("8-3-2;", 6, false, Symbol(PRINT), Predefined(d.variant)))
  {
    var s, T := "8-3-2;", Predefined(d.variant);
    assert s[0..1] == "8";
    LexIntegerAt(d, s, 0, 0, 1, T);
    SubtractionExpression(d, m, T);
    SingleStatementSession(d, m, s, NumberToken(8.0), 1, 3.0, T);
  }

  /** The statement `8-3-2`: the term 8, then the loop over `-3` and `-2`. */
  lemma SubtractionExpression(d: Dialect, m: Maths, T: seq<Variable>)
    requires d.numeral("3") == 3.0 && d.numeral("2") == 2.0
    ensures Expression(d, m, State("8-3-2;", 1, true, NumberToken(8.0), T)) ==
            Step(Ok(3.0), State("8-3-2;", 6, true, Symbol(PRINT), T))
  {
    var s := "8-3-2;";
    var n8 := NumberToken(8.0);
    var b1 := State(s, 1, true, n8, T);
    var c1 := State(s, 1, false, n8, T);
    var b2 := State(s, 2, true, Symbol('-'), T);
    LexSymbolAt(d, s, 1, 1, T);
    NumberPrimary(d, m, b1, 8.0, c1);
    TermTailStops(d, m, 8.0, c1, Symbol('-'), State(s, 2, false, n8, T));
    TermStart(d, m, b1, 8.0, c1);
    ExpressionStart(d, m, b1, 8.0, b2);
    SubtractionLoop(d, m, T);
  }

  /** `-3-2;` after the first operand 8: the loop computes `(8-3)-2`. */
  lemma SubtractionLoop(d: Dialect, m: Maths, T: seq<Variable>)
    requires d.numeral("3") == 3.0 && d.numeral("2") == 2.0
    ensures ExprTail(d, m, 8.0, State("8-3-2;", 2, true, Symbol('-'), T)) ==
            Step(Ok(3.0), State("8-3-2;", 6, true, Symbol(PRINT), T))
  {
    var s := "8-3-2;";
    assert s[2..3] == "3" && s[4..5] == "2";
    SubtractionOperand(d, m, 2, 3.0, T);
    SubtractionOperand(d, m, 4, 2.0, T);
    SubtractTwice(d, m, 8.0, State(s, 2, true, Symbol('-'), T), State(s, 2, false, Symbol('-'), T), 3.0,
                  State(s, 4, true, Symbol('-'), T), State(s, 4, false, Symbol('-'), T), 2.0,
                  State(s, 6, true, Symbol(PRINT), T), Symbol(PRINT), State(s, 6, false, Symbol(PRINT), T));
  }

  /** The operand at `i` of `8-3-2;`, a whole term. */
  lemma SubtractionOperand(d: Dialect, m: Maths, i: nat, v: real, T: seq<Variable>)
    requires (i == 2 || i == 4) && d.numeral("8-3-2;"[i..i + 1]) == v
    ensures Term(d, m, State("8-3-2;", i, false, Symbol('-'), T)) ==
            Step(Ok(v), State("8-3-2;", i + 2, true, Symbol("8-3-2;"[i + 1]), T))
  {
    DigitTermAt(d, m, "8-3-2;", i, Symbol('-'), v, T);
  }

  /** Two `-` pairs, then a token that continues no expression: the loop computes
      `(left-v1)-v2`. */
  lemma SubtractTwice(d: Dialect, m: Maths, left: real, st: State, mid0: State, v1: real, after0: State,
                      mid1: State, v2: real, after1: State, t: Token, fin: State)
    requires Get(d, st) == Step(Ok(Symbol('-')), mid0) && Term(d, m, mid0) == Step(Ok(v1), after0)
    requires Get(d, after0) == Step(Ok(Symbol('-')), mid1) && Term(d, m, mid1) == Step(Ok(v2), after1)
    requires Get(d, after1) == Step(Ok(t), fin) && t.kind !in "+-"
    ensures ExprTail(d, m, left, st) == Step(Ok(Minus(Minus(left, v1), v2)), fin.(full := true, buffer := t))
  {
    var l0 := Link('-', mid0, v1, after0);
    var l1 := Link('-', mid1, v2, after1);
    assert ExprLinks(d, m, after1, [], after1);
    ExprLinksCons(d, m, after0, l1, [], after1);
    ExprLinksCons(d, m, st, l0, [l1], after1);
    ExprTailFold(d, m, left, st, [l0] + [l1], after1, t, fin);
    ExprFoldCons(left, l0, [l1]);
    ExprFoldCons(Minus(left, v1), l1, []);
  }

  /** `/` associates to the left: `20/4/5;` prints 1, not 25. */
  lemma DivisionSession(d: Dialect, m: Maths)
    requires d.numeral("20") == 20.0 && d.numeral("4") == 4.0 && d.numeral("5") == 5.0
    ensures Run(d, m, "20/4/5;") ==
            Session([Printed(1.0)], EndOfStream, State("20/4/5;", 7, false, Symbol(PRINT), Predefined(d.variant)))
  {
    var s, T := "20/4/5;", Predefined(d.variant);
    var n20 := NumberToken(20.0);
    var b2 := State(s, 2, true, n20, T);
    var c2 := State(s, 2, false, n20, T);
    var b7 := State(s, 7, true, Symbol(PRINT), T);
    assert s[0..2] == "20";
    LexIntegerAt(d, s, 0, 0, 2, T);
    NumberPrimary(d, m, b2, 20.0, c2);
    TermStart(d, m, b2, 20.0, c2);
    DivisionLoop(d, m, T);
    ExprTailStops(d, m, 1.0, b7, Symbol(PRINT), State(s, 7, false, Symbol(PRINT), T));
    ExpressionStart(d, m, b2, 1.0, b7);
    SingleStatementSession(d, m, s, n20, 2, 1.0, T);
  }

  /** `/4/5;` after the first operand 20: the loop computes `(20/4)/5`. */
  lemma DivisionLoop(d: Dialect, m: Maths, T: seq<Variable>)
    requires d.numeral("4") == 4.0 && d.numeral("5") == 5.0
    ensures TermTail(d, m, 20.0, State("20/4/5;", 2, false, NumberToken(20.0), T)) ==
            Step(Ok(1.0), State("20/4/5;", 7, true, Symbol(PRINT), T))
  {
    var s, n := "20/4/5;", NumberToken(20.0);
    DivisionOperators(d, T);
    DivisionOperands(d, m, T);
    DivideTwice(d, m, 20.0, State(s, 2, false, n, T), State(s, 3, false, n, T), 4.0, State(s, 4, false, n, T),
                State(s, 5, false, n, T), 5.0, State(s, 6, false, n, T), Symbol(PRINT), State(s, 7, false, n, T));
  }

  /** The tokens `/`, `/` and `;` of `20/4/5;`. */
  lemma DivisionOperators(d: Dialect, T: seq<Variable>)
    ensures Lex(d, "20/4/5;", 2, T) == Lexed(Ok(Symbol('/')), 3, T)
    ensures Lex(d, "20/4/5;", 4, T) == Lexed(Ok(Symbol('/')), 5, T)
    ensures Lex(d, "20/4/5;", 6, T) == Lexed(Ok(Symbol(PRINT)), 7, T)
  {
    var s := "20/4/5;";
    LexSymbolAt(d, s, 2, 2, T);
    LexSymbolAt(d, s, 4, 4, T);
    LexSymbolAt(d, s, 6, 6, T);
  }

  /** The operands 4 and 5 of `20/4/5;`, each a primary. */
  lemma DivisionOperands(d: Dialect, m: Maths, T: seq<Variable>)
    requires d.numeral("4") == 4.0 && d.numeral("5") == 5.0
    ensures var n := NumberToken(20.0);
            Primary(d, m, State("20/4/5;", 3, false, n, T)) == Step(Ok(4.0), State("20/4/5;", 4, false, n, T))
    ensures var n := NumberToken(20.0);
            Primary(d, m, State("20/4/5;", 5, false, n, T)) == Step(Ok(5.0), State("20/4/5;", 6, false, n, T))
  {
    var s, n := "20/4/5;", NumberToken(20.0);
    assert s[3..4] == "4" && s[5..6] == "5";
    LexIntegerAt(d, s, 3, 3, 4, T);
    LexIntegerAt(d, s, 5, 5, 6, T);
    NumberPrimary(d, m, State(s, 3, false, n, T), 4.0, State(s, 4, false, n, T));
    NumberPrimary(d, m, State(s, 5, false, n, T), 5.0, State(s, 6, false, n, T));
  }

  /** Two `/` pairs with nonzero operands, then a token that continues no term: the loop
      computes `(left/v1)/v2`. */
  lemma DivideTwice(d: Dialect, m: Maths, left: real, st: State, mid0: State, v1: real, after0: State,
                    mid1: State, v2: real, after1: State, t: Token, fin: State)
    requires Get(d, st) == Step(Ok(Symbol('/')), mid0) && Primary(d, m, mid0) == Step(Ok(v1), after0) && v1 != 0.0
    requires Get(d, after0) == Step(Ok(Symbol('/')), mid1) && Primary(d, m, mid1) == Step(Ok(v2), after1) && v2 != 0.0
    requires Get(d, after1) == Step(Ok(t), fin) && t.kind !in "*/%"
    ensures TermTail(d, m, left, st) == Step(Ok(Over(Over(left, v1), v2)), fin.(full := true, buffer := t))
  {
    var l0 := Link('/', mid0, v1, after0);
    var l1 := Link('/', mid1, v2, after1);
    assert TermLinks(d, m, after1, [], after1);
    TermLinksCons(d, m, after0, l1, [], after1);
    TermLinksCons(d, m, st, l0, [l1], after1);
    TwoDivisions(left, l0, l1);
    TermTailFold(d, m, left, st, [l0] + [l1], after1, t, fin);
  }

  /** Folding two `/` pairs with nonzero divisors divides twice. */
  lemma TwoDivisions(left: real, l0: Link, l1: Link)
    requires l0.op == '/' && l0.value != 0.0 && l1.op == '/' && l1.value != 0.0
    ensures NonzeroDivisors([l0] + [l1])
    ensures TermFold(left, [l0] + [l1]) == Over(Over(left, l0.value), l1.value)
  {
    assert NonzeroDivisors([]);
    TermFoldCons(Over(left, l0.value), l1, []);
    TermFoldCons(left, l0, [l1]);
  }

  /** Parentheses group first: `(2+3)*4;` prints 20. */
  lemma GroupingSession(d: Dialect, m: Maths)
    requires d.numeral("2") == 2.0 && d.numeral("3") == 3.0 && d.numeral("4") == 4.0
    ensures Run(d, m, "(2+3)*4;") ==
            Session([Printed(20.0)], EndOfStream, State("(2+3)*4;", 8, false, Symbol(PRINT), Predefined(d.variant)))
  {
    var s, T := "(2+3)*4;", Predefined(d.variant);
    LexSymbolAt(d, s, 0, 0, T);
    GroupingExpression(d, m, T);
    SingleStatementSession(d, m, s, Symbol('('), 1, 20.0, T);
  }

  /** With `(` read, the whole statement `(2+3)*4` is the expression 20. */
  lemma GroupingExpression(d: Dialect, m: Maths, T: seq<Variable>)
    requires d.numeral("2") == 2.0 && d.numeral("3") == 3.0 && d.numeral("4") == 4.0
    ensures Expression(d, m, State("(2+3)*4;", 1, true, Symbol('('), T)) ==
            Step(Ok(20.0), State("(2+3)*4;", 8, true, Symbol(PRINT), T))
  {
    var s, lp := "(2+3)*4;", Symbol('(');
    var b1 := State(s, 1, true, lp, T);
    var c5 := State(s, 5, false, Symbol(')'), T);
    var b8 := State(s, 8, true, Symbol(PRINT), T);
    GroupingInner(d, m, T);
    ParenthesizedPrimary(d, m, b1, State(s, 1, false, lp, T), 5.0, State(s, 5, true, Symbol(')'), T), Symbol(')'), c5);
    TermStart(d, m, b1, 5.0, c5);
    GroupingTimes(d, m, T);
    ExprTailStops(d, m, 20.0, b8, Symbol(PRINT), State(s, 8, false, Symbol(PRINT), T));
    ExpressionStart(d, m, b1, 20.0, b8);
  }

  /** `2+3)` inside the parentheses is the expression 5, and the `)` is put back. */
  lemma GroupingInner(d: Dialect, m: Maths, T: seq<Variable>)
    requires d.numeral("2") == 2.0 && d.numeral("3") == 3.0
    ensures Expression(d, m, State("(2+3)*4;", 1, false, Symbol('('), T)) ==
            Step(Ok(5.0), State("(2+3)*4;", 5, true, Symbol(')'), T))
  {
    var s := "(2+3)*4;";
    var b3 := State(s, 3, true, Symbol('+'), T);
    assert s[1..2] == "2" && s[3..4] == "3";
    GroupingOperand(d, m, 1, Symbol('('), 2.0, T);
    GroupingOperand(d, m, 3, Symbol('+'), 3.0, T);
    ExpressionStart(d, m, State(s, 1, false, Symbol('('), T), 2.0, b3);
    AddOnce(d, m, 2.0, b3, State(s, 3, false, Symbol('+'), T), 3.0, State(s, 5, true, Symbol(')'), T),
            Symbol(')'), State(s, 5, false, Symbol(')'), T));
  }

  /** The operand at `i` inside the parentheses, a whole term. */
  lemma GroupingOperand(d: Dialect, m: Maths, i: nat, buf: Token, v: real, T: seq<Variable>)
    requires (i == 1 || i == 3) && d.numeral("(2+3)*4;"[i..i + 1]) == v
    ensures Term(d, m, State("(2+3)*4;", i, false, buf, T)) ==
            Step(Ok(v), State("(2+3)*4;", i + 2, true, Symbol("(2+3)*4;"[i + 1]), T))
  {
    DigitTermAt(d, m, "(2+3)*4;", i, buf, v, T);
  }

  /** One `+` pair, then a token that continues no expression: the loop computes `left+v1`. */
  lemma AddOnce(d: Dialect, m: Maths, left: real, st: State, mid0: State, v1: real, after0: State, t: Token, fin: State)
    requires Get(d, st) == Step(Ok(Symbol('+')), mid0) && Term(d, m, mid0) == Step(Ok(v1), after0)
    requires Get(d, after0) == Step(Ok(t), fin) && t.kind !in "+-"
    ensures ExprTail(d, m, left, st) == Step(Ok(Plus(left, v1)), fin.(full := true, buffer := t))
  {
    var l0 := Link('+', mid0, v1, after0);
    assert ExprLinks(d, m, after0, [], after0);
    ExprLinksCons(d, m, st, l0, [], after0);
    ExprTailFold(d, m, left, st, [l0] + [], after0, t, fin);
    ExprFoldCons(left, l0, []);
  }

  /** `*4;` after the parenthesised 5. */
  lemma GroupingTimes(d: Dialect, m: Maths, T: seq<Variable>)
    requires d.numeral("4") == 4.0
    ensures TermTail(d, m, 5.0, State("(2+3)*4;", 5, false, Symbol(')'), T)) ==
            Step(Ok(20.0), State("(2+3)*4;", 8, true, Symbol(PRINT), T))
  {
    var s, rp := "(2+3)*4;", Symbol(')');
    assert s[6..7] == "4";
    LexSymbolAt(d, s, 5, 5, T);
    LexIntegerAt(d, s, 6, 6, 7, T);
    LexSymbolAt(d, s, 7, 7, T);
    NumberPrimary(d, m, State(s, 6, false, rp, T), 4.0, State(s, 7, false, rp, T));
    TimesOnce(d, m, 5.0, State(s, 5, false, rp, T), State(s, 6, false, rp, T), 4.0, State(s, 7, false, rp, T),
              Symbol(PRINT), State(s, 8, false, rp, T));
  }

  /** One `*` pair, then a token that continues no term: the loop computes `left*v1`. */
  lemma TimesOnce(d: Dialect, m: Maths, left: real, st: State, mid0: State, v1: real, after0: State, t: Token, fin: State)
    requires Get(d, st) == Step(Ok(Symbol('*')), mid0) && Primary(d, m, mid0) == Step(Ok(v1), after0)
    requires Get(d, after0) == Step(Ok(t), fin) && t.kind !in "*/%"
    ensures TermTail(d, m, left, st) == Step(Ok(Times(left, v1)), fin.(full := true, buffer := t))
  {
    var l0 := Link('*', mid0, v1, after0);
    assert TermLinks(d, m, after0, [], after0);
    TermLinksCons(d, m, st, l0, [], after0);
    assert NonzeroDivisors([]);
    TermFoldCons(left, l0, []);
    TermTailFold(d, m, left, st, [l0] + [], after0, t, fin);
  }

  /** In the extended calculator `let pi=1;pi;` does not reach "pi declared twice": reading the
      token after `let` sees the declared `pi` followed by `=`, assigns 1 to `pi` and yields the
      number 1, so `declaration()` fails with "name expected in declaration". After the `;` is
      discarded, `pi` prints 1. */
  lemma ExtendedRedeclarationSession(d: Dialect, m: Maths)
    requires d.variant == Extended
    requires d.numeral("1") == 1.0
    ensures var T1 := Assign(Predefined(Extended), "pi", 1.0).value;
            Run(d, m, "let pi=1;pi;") ==
            Session([Reported(NameExpected), Printed(1.0)], EndOfStream,
                    State("let pi=1;pi;", 12, false, Symbol(PRINT), T1))
    ensures var T1 := Assign(Predefined(Extended), "pi", 1.0).value;
            Lookup(T1, "pi") == Ok(1.0) && Names(T1) == Names(Predefined(Extended))
  {
    var T := Predefined(Extended);
    assert Declared(T, "pi") by {
      assert T[0].name == "pi";
    }
    var T1 := Assign(T, "pi", 1.0).value;
    AssignThenLookup(T, "pi", 1.0);
    AssignFrame(T, "pi", 1.0);
    ExtendedLetLex(d, T);
    ExtendedPiAssignLex(d, T);
    ExtendedRedeclarationFrom(d, m, T, T1);
  }

  /** The session `let pi=1;pi;` from any table in which reading `pi=1` leaves `T1`, where `pi`
      holds 1. */
  lemma ExtendedRedeclarationFrom(d: Dialect, m: Maths, T: seq<Variable>, T1: seq<Variable>)
    requires d.variant == Extended
    requires Lex(d, "let pi=1;pi;", 0, T) == Lexed(Ok(Symbol(LET)), 3, T)
    requires Lex(d, "let pi=1;pi;", 3, T) == Lexed(Ok(NumberToken(1.0)), 8, T1)
    requires Lookup(T1, "pi") == Ok(1.0)
    ensures Calculate(d, m, State("let pi=1;pi;", 0, false, Symbol(0 as char), T)) ==
            Session([Reported(NameExpected), Printed(1.0)], EndOfStream,
                    State("let pi=1;pi;", 12, false, Symbol(PRINT), T1))
  {
    var s := "let pi=1;pi;";
    assert [Reported(NameExpected)] + [Printed(1.0)] == [Reported(NameExpected), Printed(1.0)];
    ExtendedRedeclarationRound(d, m, T, T1);
    ExtendedRedeclarationRecovered(d, m, T1);
    SessionAfterReport(d, m, State(s, 0, false, Symbol(0 as char), T), NameExpected, State(s, 8, false, Symbol(LET), T1),
                       Session([Printed(1.0)], EndOfStream, State(s, 12, false, Symbol(PRINT), T1)));
  }

  /** A session whose first round fails and whose rest, after `clean_up_mess`, is `rest`. */
  lemma SessionAfterReport(d: Dialect, m: Maths, st: State, e: Error, st1: State, rest: Session)
    requires Round(d, m, st) == Failed(e, st1) && e != EndOfInput
    requires Calculate(d, m, Ignore(st1, PRINT)) == rest
    ensures Calculate(d, m, st) == Session([Reported(e)] + rest.outputs, rest.ending, rest.st)
  {
    CalculateReports(d, m, st, e, st1);
  }

  /** `clean_up_mess()` discards the `;`, then the rest of the session. */
  lemma ExtendedRedeclarationRecovered(d: Dialect, m: Maths, T1: seq<Variable>)
    requires d.variant == Extended && Lookup(T1, "pi") == Ok(1.0)
    ensures Calculate(d, m, Ignore(State("let pi=1;pi;", 8, false, Symbol(LET), T1), PRINT)) ==
            Session([Printed(1.0)], EndOfStream, State("let pi=1;pi;", 12, false, Symbol(PRINT), T1))
  {
    ExtendedRedeclarationResync(T1);
    ExtendedRedeclarationTail(d, m, T1);
  }

  /** `clean_up_mess()` reads the `;` right after the failed declaration. */
  lemma ExtendedRedeclarationResync(T1: seq<Variable>)
    ensures Ignore(State("let pi=1;pi;", 8, false, Symbol(LET), T1), PRINT) == State("let pi=1;pi;", 9, false, Symbol(LET), T1)
  {
    IgnoreEndAtFirst("let pi=1;pi;", 8, 8, PRINT);
  }

  /** `let pi=1`: the declaration reads the number token produced by the assignment. */
  lemma ExtendedRedeclarationRound(d: Dialect, m: Maths, T: seq<Variable>, T1: seq<Variable>)
    requires d.variant == Extended
    requires Lex(d, "let pi=1;pi;", 0, T) == Lexed(Ok(Symbol(LET)), 3, T)
    requires Lex(d, "let pi=1;pi;", 3, T) == Lexed(Ok(NumberToken(1.0)), 8, T1)
    ensures Round(d, m, State("let pi=1;pi;", 0, false, Symbol(0 as char), T)) ==
            Failed(NameExpected, State("let pi=1;pi;", 8, false, Symbol(LET), T1))
  {
    var s := "let pi=1;pi;";
    var lt := Symbol(LET);
    var st0 := State(s, 0, false, Symbol(0 as char), T);
    var a3 := State(s, 3, false, Symbol(0 as char), T);
    var c3 := State(s, 3, false, lt, T);
    var f := State(s, 8, false, lt, T1);
    DeclarationWithoutName(d, m, c3, NumberToken(1.0), f);
    DeclarationStatement(d, m, State(s, 3, true, lt, T), c3);
    SkipPrintsStops(d, st0, Step(Ok(lt), a3));
    RoundEvaluates(d, m, st0, lt, a3, Step(Err(NameExpected), f));
  }

  /** The keyword `let` in the extended calculator. */
  lemma ExtendedLetLex(d: Dialect, T: seq<Variable>)
    requires d.variant == Extended
    ensures Lex(d, "let pi=1;pi;", 0, T) == Lexed(Ok(Symbol(LET)), 3, T)
  {
    var s := "let pi=1;pi;";
    assert s[0..3] == "let";
    assert IsWord(Extended, s[0..3]);
    LexWordAt(d, s, 0, 0, 3, T);
  }

  /** `get()` after `let`: the declared `pi` is followed by `=`, so the token is the number 1
      and `pi` now holds it. */
  lemma ExtendedPiAssignLex(d: Dialect, T: seq<Variable>)
    requires d.variant == Extended && d.numeral("1") == 1.0 && Declared(T, "pi")
    ensures Lex(d, "let pi=1;pi;", 3, T) == Lexed(Ok(NumberToken(1.0)), 8, Assign(T, "pi", 1.0).value)
  {
    ExtendedPiAssignStep(d, T);
    ExtendedOneLex(d, T);
  }

  /** ` pi=` in the extended calculator: the token after `=` is read and its value assigned. */
  lemma ExtendedPiAssignStep(d: Dialect, T: seq<Variable>)
    requires d.variant == Extended && Declared(T, "pi")
    ensures var inner := Lex(d, "let pi=1;pi;", 7, T);
            Lex(d, "let pi=1;pi;", 3, T) ==
              if inner.out.Err? then inner
              else Lexed(inner.out, inner.pos, Assign(inner.table, "pi", inner.out.value.value).value)
  {
    var s := "let pi=1;pi;";
    assert s[4..6] == "pi";
    assert IsWord(Extended, s[4..6]);
    assert IsSpace(s[3]) && !IsNameChar(Extended, s[6]) && s[6] == '=';
    LexAssignmentAt(d, s, 3, 4, 6, 6, T);
  }

  /** The literal after `pi=`. */
  lemma ExtendedOneLex(d: Dialect, T: seq<Variable>)
    requires d.numeral("1") == 1.0
    ensures Lex(d, "let pi=1;pi;", 7, T) == Lexed(Ok(NumberToken(1.0)), 8, T)
  {
    var s := "let pi=1;pi;";
    assert s[7..8] == "1";
    LexIntegerAt(d, s, 7, 7, 8, T);
  }

  /** After the `;` was discarded, `pi;` prints the assigned 1. */
  lemma ExtendedRedeclarationTail(d: Dialect, m: Maths, T1: seq<Variable>)
    requires d.variant == Extended && Lookup(T1, "pi") == Ok(1.0)
    ensures Calculate(d, m, State("let pi=1;pi;", 9, false, Symbol(LET), T1)) ==
            Session([Printed(1.0)], EndOfStream, State("let pi=1;pi;", 12, false, Symbol(PRINT), T1))
  {
    var s := "let pi=1;pi;";
    ExtendedRedeclarationTailRound(d, m, T1);
    SessionEnds(d, m, s, T1);
    CalculatePrints(d, m, State(s, 9, false, Symbol(LET), T1), 1.0, State(s, 12, true, Symbol(PRINT), T1));
  }

  /** The statement `pi;` prints 1, the value the assignment stored. */
  lemma ExtendedRedeclarationTailRound(d: Dialect, m: Maths, T1: seq<Variable>)
    requires d.variant == Extended && Lookup(T1, "pi") == Ok(1.0)
    ensures Round(d, m, State("let pi=1;pi;", 9, false, Symbol(LET), T1)) ==
            Evaluated(1.0, State("let pi=1;pi;", 12, true, Symbol(PRINT), T1))
  {
    ExtendedTailLex(d, T1);
    NamePrintRound(d, m, "let pi=1;pi;", 9, 11, Symbol(LET), "pi", 1.0, T1);
  }

  /** The word `pi` of the last statement, which no `=` follows. */
  lemma ExtendedTailLex(d: Dialect, T1: seq<Variable>)
    requires d.variant == Extended
    ensures Lex(d, "let pi=1;pi;", 9, T1) == Lexed(Ok(NameToken("pi")), 11, T1)
  {
    var s := "let pi=1;pi;";
    assert s[9..11] == "pi";
    assert IsWord(Extended, s[9..11]);
    LexNameAt(d, s, 9, 9, 11, 11, T1);
  }
}
