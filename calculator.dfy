/** The calculator as the source runs it: a `Token_stream` object whose members update its
    cursor and one-token buffer, a `vector<Variable>` updated in place, and the parser as
    procedures with `while` loops over them. Each procedure is proved to leave exactly the
    outcome and state that the matching function of `Grammar` (or `Streams`) computes, so every
    property proved about those functions holds of the procedures. A thrown `runtime_error` is
    an `Err` result that each caller passes on (`:-`) up to the session loop. */
module Calculator {
  import opened Errors
  import opened Symbols
  import opened Lexing
  import opened Streams
  import opened Grammar

  /** `class Token_stream` reading a fixed character sequence. */
  class TokenStream {
    const dialect: Dialect
    const input: string
    var pos: nat
    var full: bool
    var buffer: Token

    /** The stream seen as a `Streams.State`, with the table `vars`. */
    ghost function Snapshot(vars: seq<Variable>): State
      reads this
    {
      State(input, pos, full, buffer, vars)
    }

    /** `Token_stream() : full(false), buffer(0)` */
    constructor (d: Dialect, text: string)
      ensures dialect == d && input == text
      ensures Snapshot([]) == Start(d.variant, text).(table := [])
    {
      dialect := d;
      input := text;
      pos := 0;
      full := false;
      buffer := Symbol(0 as char);
    }

    /** `Token_stream::get()` */
    method Get(table: SymbolTable) returns (r: Result<Token>)
      modifies this, table
      ensures var s := Streams.Get(dialect, old(Snapshot(table.vars)));
              r == s.out && Snapshot(table.vars) == s.st
      decreases Rem(input, pos), 3
    {
      if full {
        full := false;
        return Ok(buffer);
      }
      r := Read(table);
    }

    /** The part of `get()` after the buffer check: `cin >> ch` and the `switch (ch)`. */
    method Read(table: SymbolTable) returns (r: Result<Token>)
      requires !full
      modifies this, table
      ensures var l := Lex(dialect, input, old(pos), old(table.vars));
              r == l.out && pos == l.pos && table.vars == l.table
      ensures !full && buffer == old(buffer)
      decreases Rem(input, pos), 2
    {
      var i := SkipSpace(input, pos);
      if i >= |input| {
        pos := i;
        return Err(EndOfInput);
      }
      var c := input[i];
      if IsSymbolChar(dialect.variant, c) {
        pos := i + 1;
        return Ok(Symbol(c));
      }
      if c == '.' || IsDigit(c) {
        // cin.unget(); cin >> val;
        var j := NumberEnd(input, i);
        pos := j;
        return Ok(NumberToken(dialect.numeral(input[i..j])));
      }
      if !IsLetter(c) {
        pos := i + 1;
        return Err(BadToken);
      }
      r := ReadName(table, i);
    }

    /** The `isalpha(ch)` branch of `get()`, from the word's first letter at `i`. */
    method ReadName(table: SymbolTable, i: nat) returns (r: Result<Token>)
      requires !full && i < |input| && IsLetter(input[i])
      modifies this, table
      ensures var l := LexName(dialect, input, i, old(table.vars));
              r == l.out && pos == l.pos && table.vars == l.table
      ensures !full && buffer == old(buffer)
      decreases Rem(input, i), 1
    {
      var w := [input[i]];
      var j := i + 1;
      while j < |input| && IsNameChar(dialect.variant, input[j])
        invariant i + 1 <= j <= |input|
        invariant w == input[i..j]
        invariant NameEnd(dialect.variant, input, i + 1) == NameEnd(dialect.variant, input, j)
        decreases |input| - j
      {
        w := w + [input[j]];
        j := j + 1;
      }
      if dialect.variant == Ch7 || IsKeyword(dialect.variant, w) {
        pos := j;
        return Ok(Classify(dialect.variant, w));
      }
      assert LexName(dialect, input, i, table.vars) == NameOrAssignment(dialect, input, w, j, table.vars);
      r := ReadAfterWord(table, w, j);
    }

    /** After a word that is not a keyword (extended calculator): `cin >> next_char`, then the
        assignment when it is `=` and the word is declared, else `cin.unget()` and a name token. */
    method ReadAfterWord(table: SymbolTable, w: string, j: nat) returns (r: Result<Token>)
      requires dialect.variant == Extended && !full && 0 < j <= |input|
      modifies this, table
      ensures var l := NameOrAssignment(dialect, input, w, j, old(table.vars));
              r == l.out && pos == l.pos && table.vars == l.table
      ensures !full && buffer == old(buffer)
      decreases Rem(input, j), 0
    {
      ghost var t0 := table.vars;
      var k := SkipSpace(input, j);
      if k < |input| && input[k] == '=' {
        var declared := table.IsDeclared(w);
        if declared {
          pos := k + 1;
          r := Get(table);
          ghost var rest := Lex(dialect, input, k + 1, t0);
          assert r == rest.out && pos == rest.pos && table.vars == rest.table;
          if r.Err? {
            return;
          }
          SameNamesSameDeclared(table.vars, t0, w);
          AssignFrame(table.vars, w, r.value.value);
          var written := table.SetValue(w, r.value.value);
          return;
        }
      }
      pos := k;
      return Ok(NameToken(w));
    }

    /** `Token_stream::unget(t)`; the table is not touched. */
    method Unget(t: Token, ghost vars: seq<Variable>) returns (r: Result<()>)
      modifies this
      ensures var s := Streams.Unget(old(Snapshot(vars)), t);
              r == s.out && Snapshot(vars) == s.st
    {
      if full {
        return Err(PutbackFull);
      }
      buffer := t;
      full := true;
      return Ok(());
    }

    /** `Token_stream::ignore(c)` */
    method Ignore(c: char, ghost vars: seq<Variable>)
      modifies this
      ensures Snapshot(vars) == Streams.Ignore(old(Snapshot(vars)), c)
    {
      if full && c == buffer.kind {
        full := false;
        return;
      }
      full := false;
      ghost var target := IgnoreEnd(input, pos, c);
      // while (cin >> ch) if (ch == c) return;
      while true
        invariant !full && buffer == old(buffer)
        invariant IgnoreEnd(input, pos, c) == target
        decreases Rem(input, pos)
      {
        var j := SkipSpace(input, pos);
        if j >= |input| {
          pos := j;
          return;
        }
        pos := j + 1;
        if input[j] == c {
          return;
        }
      }
    }
  }

  /** `t = ts.get(); if (t.kind != kind) error(...);` */
  method Expect(ts: TokenStream, table: SymbolTable, kind: char, e: Error) returns (r: Result<()>)
    modifies ts, table
    ensures var s := Grammar.Expect(ts.dialect, old(ts.Snapshot(table.vars)), kind, e);
            r == s.out && ts.Snapshot(table.vars) == s.st
  {
    var t :- ts.Get(table);
    if t.kind != kind {
      return Err(e);
    }
    return Ok(());
  }

  /** `primary()` */
  method Primary(ts: TokenStream, table: SymbolTable, m: Maths) returns (r: Result<real>)
    modifies ts, table
    ensures var s := Grammar.Primary(ts.dialect, m, old(ts.Snapshot(table.vars)));
            r == s.out && ts.Snapshot(table.vars) == s.st
    decreases Measure(ts.Snapshot(table.vars)), 0
  {
    var d := ts.dialect;
    var t :- ts.Get(table);
    if t.kind == '(' {
      var e :- Expression(ts, table, m);
      var closed :- Expect(ts, table, ')', if d.variant == Ch7 then LParenExpected else RParenExpected);
      return Ok(e);
    } else if t.kind == '-' {
      var p :- Primary(ts, table, m);
      return Ok(-p);
    } else if t.kind == '+' {
      r := Primary(ts, table, m);
    } else if t.kind == NUMBER {
      return Ok(t.value);
    } else if t.kind == NAME {
      r := table.GetValue(t.name);
    } else if d.variant == Extended && t.kind == SQUARE_ROOT {
      var open :- Expect(ts, table, '(', LParenExpected);
      var e :- Expression(ts, table, m);
      var closed :- Expect(ts, table, ')', RParenExpected);
      if e < 0.0 {
        return Err(SqrtNegative);
      }
      return Ok(m.sqrt(e));
    } else if d.variant == Extended && t.kind == POWER {
      var open :- Expect(ts, table, '(', LParenExpected);
      var p :- Expression(ts, table, m);
      var comma :- Expect(ts, table, ',', CommaExpected);
      var i :- Expression(ts, table, m);
      var closed :- Expect(ts, table, ')', RParenExpected);
      return Ok(m.pow(p, i));
    } else {
      return Err(PrimaryExpected);
    }
  }

  /** `term()` */
  method Term(ts: TokenStream, table: SymbolTable, m: Maths) returns (r: Result<real>)
    modifies ts, table
    ensures var s := Grammar.Term(ts.dialect, m, old(ts.Snapshot(table.vars)));
            r == s.out && ts.Snapshot(table.vars) == s.st
    decreases Measure(ts.Snapshot(table.vars)), 1
  {
    var left :- Primary(ts, table, m);
    while true
      invariant Measure(ts.Snapshot(table.vars)) < Measure(old(ts.Snapshot(table.vars)))
      invariant TermTail(ts.dialect, m, left, ts.Snapshot(table.vars))
             == Grammar.Term(ts.dialect, m, old(ts.Snapshot(table.vars)))
      decreases Measure(ts.Snapshot(table.vars))
    {
      ghost var here := ts.Snapshot(table.vars);
      var t :- ts.Get(table);
      ghost var next := ts.Snapshot(table.vars);
      assert Streams.Get(ts.dialect, here) == Step(Ok(t), next);
      if t.kind == '*' {
        var p :- Primary(ts, table, m);
        assert TermTail(ts.dialect, m, left, here)
            == TermTail(ts.dialect, m, Times(left, p), ts.Snapshot(table.vars));
        left := Times(left, p);
      } else if t.kind == '/' {
        var p :- Primary(ts, table, m);
        if p == 0.0 {
          return Err(DivideByZero);
        }
        assert TermTail(ts.dialect, m, left, here)
            == TermTail(ts.dialect, m, Over(left, p), ts.Snapshot(table.vars));
        left := Over(left, p);
      } else if t.kind == '%' {
        var rem :- Remainder(ts, table, m, left);
        assert TermTail(ts.dialect, m, left, here)
            == TermTail(ts.dialect, m, rem, ts.Snapshot(table.vars));
        left := rem;
      } else {
        var u := ts.Unget(t, table.vars);
        match u
        case Err(e) => return Err(e);
        case Ok(_) => return Ok(left);
      }
    }
  }

  /** The `case '%':` block of `term()`: `narrow_cast<int>` of `left` and of a whole `term()`,
      then `i1 % i2`. */
  method Remainder(ts: TokenStream, table: SymbolTable, m: Maths, left: real) returns (r: Result<real>)
    modifies ts, table
    ensures var s := Grammar.Remainder(ts.dialect, m, left, old(ts.Snapshot(table.vars)));
            r == s.out && ts.Snapshot(table.vars) == s.st
    decreases Measure(ts.Snapshot(table.vars)), 2
  {
    var i1 := m.narrow(left);
    if i1.None? {
      return Err(NarrowingLoss);
    }
    var q :- Term(ts, table, m);
    var i2 := m.narrow(q);
    if i2.None? {
      return Err(NarrowingLoss);
    }
    if i2.value == 0 {
      return Err(ModDivideByZero);
    }
    return Ok(CRem(i1.value, i2.value) as real);
  }

  /** `expression()` */
  method Expression(ts: TokenStream, table: SymbolTable, m: Maths) returns (r: Result<real>)
    modifies ts, table
    ensures var s := Grammar.Expression(ts.dialect, m, old(ts.Snapshot(table.vars)));
            r == s.out && ts.Snapshot(table.vars) == s.st
    decreases Measure(ts.Snapshot(table.vars)), 2
  {
    var left :- Term(ts, table, m);
    while true
      invariant Measure(ts.Snapshot(table.vars)) < Measure(old(ts.Snapshot(table.vars)))
      invariant ExprTail(ts.dialect, m, left, ts.Snapshot(table.vars))
             == Grammar.Expression(ts.dialect, m, old(ts.Snapshot(table.vars)))
      decreases Measure(ts.Snapshot(table.vars))
    {
      ghost var here := ts.Snapshot(table.vars);
      var t :- ts.Get(table);
      ghost var next := ts.Snapshot(table.vars);
      assert Streams.Get(ts.dialect, here) == Step(Ok(t), next);
      if t.kind == '+' {
        var q :- Term(ts, table, m);
        assert ExprTail(ts.dialect, m, left, here)
            == ExprTail(ts.dialect, m, Plus(left, q), ts.Snapshot(table.vars));
        left := Plus(left, q);
      } else if t.kind == '-' {
        var q :- Term(ts, table, m);
        assert ExprTail(ts.dialect, m, left, here)
            == ExprTail(ts.dialect, m, Minus(left, q), ts.Snapshot(table.vars));
        left := Minus(left, q);
      } else {
        var u := ts.Unget(t, table.vars);
        match u
        case Err(e) => return Err(e);
        case Ok(_) => return Ok(left);
      }
    }
  }

  /** `declaration()` */
  method Declaration(ts: TokenStream, table: SymbolTable, m: Maths) returns (r: Result<real>)
    modifies ts, table
    ensures var s := Grammar.Declaration(ts.dialect, m, old(ts.Snapshot(table.vars)));
            r == s.out && ts.Snapshot(table.vars) == s.st
  {
    var t :- ts.Get(table);
    if t.kind != NAME {
      return Err(NameExpected);
    }
    var name := t.name;
    var declared := table.IsDeclared(name);
    if declared {
      return Err(DeclaredTwice(name));
    }
    var equals :- Expect(ts, table, '=', EqualsMissing(name));
    var d :- Expression(ts, table, m);
    table.Push(name, d);
    return Ok(d);
  }

  /** `statement()` */
  method Statement(ts: TokenStream, table: SymbolTable, m: Maths) returns (r: Result<real>)
    modifies ts, table
    ensures var s := Grammar.Statement(ts.dialect, m, old(ts.Snapshot(table.vars)));
            r == s.out && ts.Snapshot(table.vars) == s.st
  {
    var t :- ts.Get(table);
    if t.kind == LET {
      r := Declaration(ts, table, m);
    } else {
      var u := ts.Unget(t, table.vars);
      match u
      case Err(e) => return Err(e);
      case Ok(_) => r := Expression(ts, table, m);
    }
  }

  /** The `try` block of `calculate()`: skip `;`s, stop at quit, else one statement. */
  method Round(ts: TokenStream, table: SymbolTable, m: Maths) returns (quit: bool, r: Result<real>)
    modifies ts, table
    ensures var o := Grammar.Round(ts.dialect, m, old(ts.Snapshot(table.vars)));
            ts.Snapshot(table.vars) == o.st && quit == o.Quitted? &&
            (o.Evaluated? ==> r == Ok(o.value)) && (o.Failed? ==> r == Err(o.error))
  {
    ghost var start := ts.Snapshot(table.vars);
    var t := ts.Get(table);
    while t.Ok? && t.value.kind == PRINT
      invariant ts.input == start.input
      invariant t.Ok? && t.value.kind == PRINT ==> SkipPrints(ts.dialect, start) == SkipPrints(ts.dialect, ts.Snapshot(table.vars))
      invariant !(t.Ok? && t.value.kind == PRINT) ==> SkipPrints(ts.dialect, start) == Step(t, ts.Snapshot(table.vars))
      decreases Measure(ts.Snapshot(table.vars)) + (if t.Ok? && t.value.kind == PRINT then 1 else 0)
    {
      t := ts.Get(table);
    }
    if t.Err? {
      return false, Err(t.error);
    }
    if t.value.kind == QUIT {
      return true, Err(EndOfInput);
    }
    var u := ts.Unget(t.value, table.vars);
    match u
    case Err(e) => return false, Err(e);
    case Ok(_) =>
      r := Statement(ts, table, m);
      quit := false;
  }

  /** `calculate()`: the outputs the session prints, in order, and how it ended. After an
      error the rest of the statement is discarded with `ignore(print)` (`clean_up_mess`). */
  method Calculate(ts: TokenStream, table: SymbolTable, m: Maths) returns (outputs: seq<Output>, ending: Ending)
    modifies ts, table
    ensures var s := Grammar.Calculate(ts.dialect, m, old(ts.Snapshot(table.vars)));
            outputs == s.outputs && ending == s.ending && ts.Snapshot(table.vars) == s.st
  {
    outputs := [];
    ghost var s0 := Grammar.Calculate(ts.dialect, m, ts.Snapshot(table.vars));
    while true
      invariant var s := Grammar.Calculate(ts.dialect, m, ts.Snapshot(table.vars));
                s0 == Session(outputs + s.outputs, s.ending, s.st)
      decreases Measure(ts.Snapshot(table.vars))
    {
      ghost var here := ts.Snapshot(table.vars);
      var done, out, end := Attempt(ts, table, m);
      if done {
        SessionStops(ts.dialect, m, s0, outputs, here, end, ts.Snapshot(table.vars));
        return outputs, end;
      }
      SessionGoesOn(ts.dialect, m, s0, outputs, here, out, ts.Snapshot(table.vars));
      outputs := outputs + [out];
    }
  }

  /** The loop invariant of `Calculate` when a pass ends the session: what was printed so far is
      the whole session. */
  lemma SessionStops(d: Dialect, m: Maths, s0: Session, outputs: seq<Output>, here: State, ending: Ending, last: State)
    requires var s := Grammar.Calculate(d, m, here); s0 == Session(outputs + s.outputs, s.ending, s.st)
    requires var o := Grammar.Round(d, m, here);
             (o.Quitted? && ending == Quit && last == o.st) ||
             (o.Failed? && o.error == EndOfInput && ending == EndOfStream && last == o.st)
    ensures s0 == Session(outputs, ending, last)
  {
    var o := Grammar.Round(d, m, here);
    if o.Quitted? {
      CalculateQuits(d, m, here, o.st);
    } else {
      CalculateEnds(d, m, here, o.st);
    }
    assert outputs + [] == outputs;
  }

  /** The loop invariant of `Calculate` across a pass that prints `out` and leaves the stream
      at `next`. */
  lemma SessionGoesOn(d: Dialect, m: Maths, s0: Session, outputs: seq<Output>, here: State, out: Output, next: State)
    requires var s := Grammar.Calculate(d, m, here); s0 == Session(outputs + s.outputs, s.ending, s.st)
    requires var o := Grammar.Round(d, m, here);
             (o.Evaluated? && out == Printed(o.value) && next == o.st) ||
             (o.Failed? && o.error != EndOfInput && out == Reported(o.error) && next == Streams.Ignore(o.st, PRINT))
    ensures var s := Grammar.Calculate(d, m, next); s0 == Session(outputs + [out] + s.outputs, s.ending, s.st)
  {
    var o := Grammar.Round(d, m, here);
    if o.Evaluated? {
      CalculatePrints(d, m, here, o.value, o.st);
    } else {
      CalculateReports(d, m, here, o.error, o.st);
    }
    ConcatAssociative(outputs, [out], Grammar.Calculate(d, m, next).outputs);
  }

  /** One pass of the loop in `calculate()`: the `try` block, and after an error the `catch`
      that reports it and calls `clean_up_mess()`. The pass ends the session when the round
      quits or meets the end of input; otherwise it yields the round's value or error, and
      after an error the stream has been resynchronised at the next `;`. */
  method Attempt(ts: TokenStream, table: SymbolTable, m: Maths) returns (done: bool, out: Output, ending: Ending)
    modifies ts, table
    ensures var o := Grammar.Round(ts.dialect, m, old(ts.Snapshot(table.vars)));
            done == (o.Quitted? || (o.Failed? && o.error == EndOfInput)) &&
            (done ==> ts.Snapshot(table.vars) == o.st && ending == (if o.Quitted? then Quit else EndOfStream)) &&
            (o.Evaluated? ==> out == Printed(o.value) && ts.Snapshot(table.vars) == o.st) &&
            (o.Failed? && !done ==> out == Reported(o.error) && ts.Snapshot(table.vars) == Streams.Ignore(o.st, PRINT))
  {
    var quit, r := Round(ts, table, m);
    if quit {
      return true, Printed(0.0), Quit;
    }
    match r
    case Ok(v) =>
      return false, Printed(v), EndOfStream;
    case Err(e) =>
      if e == EndOfInput {
        return true, Printed(0.0), EndOfStream;
      }
      ts.Ignore(PRINT, table.vars);
      return false, Reported(e), EndOfStream;
  }

  lemma ConcatAssociative<T>(a: seq<T>, b: seq<T>, c: seq<T>)
    ensures a + b + c == a + (b + c)
  {
  }

  /** `main()` without the console: predefine the names, then run `calculate()` over `text`. */
  method Run(d: Dialect, m: Maths, text: string) returns (outputs: seq<Output>, ending: Ending)
    ensures outputs == Grammar.Run(d, m, text).outputs && ending == Grammar.Run(d, m, text).ending
  {
    var table := new SymbolTable(Predefined(d.variant));
    var ts := new TokenStream(d, text);
    outputs, ending := Calculate(ts, table, m);
  }
}
