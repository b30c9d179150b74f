/** The recursive-descent evaluator of both calculators as functions on the token-stream state:
    `primary`, `term`, `expression`, `declaration`, `statement`, one round of the `calculate`
    loop, and the whole session. A `while (true)` loop of the source is a tail function here
    (`TermTail`, `ExprTail`) that carries the accumulated `left`. Errors carry the state at the
    point they were raised, which is what the session loop recovers from. */
module Grammar {
  import opened Errors
  import opened Symbols
  import opened Lexing
  import opened Streams

  /** The library functions the evaluator calls: `sqrt`, `pow` and `narrow_cast<int>` (which
      refuses values it cannot convert exactly). */
  datatype Maths = Maths(sqrt: real -> real, pow: (real, real) -> real, narrow: real -> Option<int>)

  function Abs(a: int): nat {
    if a < 0 then -a else a
  }

  /** C++ `/` on `int`: division truncated toward zero. */
  function CQuot(a: int, b: int): int
    requires b != 0
  {
    var q := Abs(a) / Abs(b);
    if (a < 0) == (b < 0) then q else -q
  }

  /** C++ `%` on `int`: the remainder that goes with `CQuot`, taking the sign of the dividend. */
  function CRem(a: int, b: int): (r: int)
    requires b != 0
    ensures a == CQuot(a, b) * b + r
    ensures a >= 0 ==> 0 <= r < Abs(b)
    ensures a < 0 ==> 0 <= -r < Abs(b)
  {
    var q := Abs(a) / Abs(b);
    var m := Abs(a) % Abs(b);
    assert Abs(a) == q * Abs(b) + m;
    assert CQuot(a, b) * b == q * Abs(b) * (if a < 0 then -1 else 1);
    if a < 0 then -m else m
  }

  /** The accumulating updates `left *= d`, `left /= d`, `left += t` and `left -= t` of
      `term()` and `expression()`. They are named functions so that the solver treats each
      result as a value instead of reasoning about nonlinear arithmetic. */
  function Times(a: real, b: real): real { a * b }
  function Over(a: real, b: real): real requires b != 0.0 { a / b }
  function Plus(a: real, b: real): real { a + b }
  function Minus(a: real, b: real): real { a - b }

  /** The state only moves forward, and every error other than running out of input consumed
      something. */
  ghost predicate Progress<T>(st: State, r: Step<T>) {
    r.st.input == st.input &&
    Measure(r.st) <= Measure(st) &&
    (r.out.Err? && r.out.error != EndOfInput ==> Measure(r.st) < Measure(st))
  }

  /** A successful parse consumed something. */
  ghost predicate Advances<T>(st: State, r: Step<T>) {
    r.out.Ok? ==> Measure(r.st) < Measure(st)
  }

  /** Expressions never add or remove variables; in `Ch7` they do not touch the table at all. */
  ghost predicate KeepsTable<T>(d: Dialect, st: State, r: Step<T>) {
    Names(r.st.table) == Names(st.table) && (d.variant == Ch7 ==> r.st.table == st.table)
  }

  /** The fatal double pushback never happens. */
  ghost predicate NoDoublePutback<T>(r: Step<T>) {
    r.out.Err? ==> r.out.error != PutbackFull
  }

  /** Read a token and demand its kind. */
  function Expect(d: Dialect, st: State, kind: char, e: Error): (r: Step<()>)
    ensures Progress(st, r) && Advances(st, r) && KeepsTable(d, st, r)
    ensures !r.st.full
    ensures e != PutbackFull ==> NoDoublePutback(r)
  {
    var g := Get(d, st);
    if g.out.Err? then Step(Err(g.out.error), g.st)
    else if g.out.value.kind != kind then Step(Err(e), g.st)
    else Step(Ok(()), g.st)
  }

  /** `primary()`: `(` expression `)`, unary `-` and `+`, a number, a name, and in the extended
      calculator `sqrt(...)` and `pow(..., ...)`. */
  function Primary(d: Dialect, m: Maths, st: State): (r: Step<real>)
    ensures Progress(st, r) && Advances(st, r) && KeepsTable(d, st, r) && NoDoublePutback(r)
    ensures r.out.Ok? ==> !r.st.full
    decreases Measure(st), 0
  {
    var g := Get(d, st);
    if g.out.Err? then Step(Err(g.out.error), g.st)
    else
      var t := g.out.value;
      if t.kind == '(' then
        var e := Expression(d, m, g.st);
        if e.out.Err? then e
        else
          // Ch7 reports a missing ')' as "'(' expected".
          var c := Expect(d, e.st, ')', if d.variant == Ch7 then LParenExpected else RParenExpected);
          if c.out.Err? then Step(Err(c.out.error), c.st) else Step(Ok(e.out.value), c.st)
      else if t.kind == '-' then
        var p := Primary(d, m, g.st);
        if p.out.Err? then p else Step(Ok(-p.out.value), p.st)
      else if t.kind == '+' then Primary(d, m, g.st)
      else if t.kind == NUMBER then Step(Ok(t.value), g.st)
      else if t.kind == NAME then Step(Lookup(g.st.table, t.name), g.st)
      else if d.variant == Extended && t.kind == SQUARE_ROOT then SqrtCall(d, m, g.st)
      else if d.variant == Extended && t.kind == POWER then PowCall(d, m, g.st)
      else Step(Err(PrimaryExpected), g.st)
  }

  /** `sqrt ( expression )`, after the `sqrt` token. */
  function SqrtCall(d: Dialect, m: Maths, st: State): (r: Step<real>)
    ensures Progress(st, r) && Advances(st, r) && KeepsTable(d, st, r) && NoDoublePutback(r)
    ensures r.out.Ok? ==> !r.st.full
    decreases Measure(st), 0
  {
    var o := Expect(d, st, '(', LParenExpected);
    if o.out.Err? then Step(Err(o.out.error), o.st)
    else
      var e := Expression(d, m, o.st);
      if e.out.Err? then e
      else
        var c := Expect(d, e.st, ')', RParenExpected);
        if c.out.Err? then Step(Err(c.out.error), c.st)
        else if e.out.value < 0.0 then Step(Err(SqrtNegative), c.st)
        else Step(Ok(m.sqrt(e.out.value)), c.st)
  }

  /** `pow ( expression , expression )`, after the `pow` token. */
  function PowCall(d: Dialect, m: Maths, st: State): (r: Step<real>)
    ensures Progress(st, r) && Advances(st, r) && KeepsTable(d, st, r) && NoDoublePutback(r)
    ensures r.out.Ok? ==> !r.st.full
    decreases Measure(st), 0
  {
    var o := Expect(d, st, '(', LParenExpected);
    if o.out.Err? then Step(Err(o.out.error), o.st)
    else
      var base := Expression(d, m, o.st);
      if base.out.Err? then base
      else
        var c := Expect(d, base.st, ',', CommaExpected);
        if c.out.Err? then Step(Err(c.out.error), c.st)
        else
          var exponent := Expression(d, m, c.st);
          if exponent.out.Err? then exponent
          else
            var e := Expect(d, exponent.st, ')', RParenExpected);
            if e.out.Err? then Step(Err(e.out.error), e.st)
            else Step(Ok(m.pow(base.out.value, exponent.out.value)), e.st)
  }

  /** `term()`: a primary, then the `*`, `/`, `%` loop. */
  function Term(d: Dialect, m: Maths, st: State): (r: Step<real>)
    ensures Progress(st, r) && Advances(st, r) && KeepsTable(d, st, r) && NoDoublePutback(r)
    ensures r.out.Ok? ==> r.st.full && r.st.buffer.kind !in "*/%"
    decreases Measure(st), 1
  {
    var p := Primary(d, m, st);
    if p.out.Err? then p else TermTail(d, m, p.out.value, p.st)
  }

  /** The `while (true)` loop of `term()` with `left` computed so far. The right operand of `%`
      is a whole `term()`, not a primary. */
  function TermTail(d: Dialect, m: Maths, left: real, st: State): (r: Step<real>)
    ensures Progress(st, r) && KeepsTable(d, st, r) && NoDoublePutback(r)
    ensures r.out.Ok? && !st.full ==> Measure(r.st) < Measure(st)
    ensures r.out.Ok? ==> r.st.full && r.st.buffer.kind !in "*/%"
    decreases Measure(st), 1
  {
    var g := Get(d, st);
    if g.out.Err? then Step(Err(g.out.error), g.st)
    else
      var t := g.out.value;
      if t.kind == '*' then
        var p := Primary(d, m, g.st);
        if p.out.Err? then p else TermTail(d, m, Times(left, p.out.value), p.st)
      else if t.kind == '/' then
        var p := Primary(d, m, g.st);
        if p.out.Err? then p
        else if p.out.value == 0.0 then Step(Err(DivideByZero), p.st)
        else TermTail(d, m, Over(left, p.out.value), p.st)
      else if t.kind == '%' then
        var q := Remainder(d, m, left, g.st);
        if q.out.Err? then q else TermTail(d, m, q.out.value, q.st)
      else
        var u := Unget(g.st, t);
        Step(match u.out case Ok(_) => Ok(left) case Err(e) => Err(e), u.st)
  }

  /** The `%` case of `term()`'s loop, after the `%` token: `left` and the right operand, which
      is a whole `term()`, must both convert to `int`; the result is the C++ remainder. */
  function Remainder(d: Dialect, m: Maths, left: real, st: State): (r: Step<real>)
    ensures r.st.input == st.input && Measure(r.st) <= Measure(st)
    ensures Advances(st, r) && KeepsTable(d, st, r) && NoDoublePutback(r)
    decreases Measure(st), 2
  {
    match m.narrow(left)
    case None => Step(Err(NarrowingLoss), st)
    case Some(i1) =>
      var q := Term(d, m, st);
      if q.out.Err? then q
      else
        match m.narrow(q.out.value)
        case None => Step(Err(NarrowingLoss), q.st)
        case Some(i2) =>
          if i2 == 0 then Step(Err(ModDivideByZero), q.st)
          else Step(Ok(CRem(i1, i2) as real), q.st)
  }

  /** `expression()`: a term, then the `+`, `-` loop. */
  function Expression(d: Dialect, m: Maths, st: State): (r: Step<real>)
    ensures Progress(st, r) && Advances(st, r) && KeepsTable(d, st, r) && NoDoublePutback(r)
    ensures r.out.Ok? ==> r.st.full && r.st.buffer.kind !in "+-"
    decreases Measure(st), 2
  {
    var t := Term(d, m, st);
    if t.out.Err? then t else ExprTail(d, m, t.out.value, t.st)
  }

  /** The `while (true)` loop of `expression()` with `left` computed so far. */
  function ExprTail(d: Dialect, m: Maths, left: real, st: State): (r: Step<real>)
    ensures Progress(st, r) && KeepsTable(d, st, r) && NoDoublePutback(r)
    ensures r.out.Ok? && !st.full ==> Measure(r.st) < Measure(st)
    ensures r.out.Ok? ==> r.st.full && r.st.buffer.kind !in "+-"
    decreases Measure(st), 2
  {
    var g := Get(d, st);
    if g.out.Err? then Step(Err(g.out.error), g.st)
    else
      var t := g.out.value;
      if t.kind == '+' then
        var q := Term(d, m, g.st);
        if q.out.Err? then q else ExprTail(d, m, Plus(left, q.out.value), q.st)
      else if t.kind == '-' then
        var q := Term(d, m, g.st);
        if q.out.Err? then q else ExprTail(d, m, Minus(left, q.out.value), q.st)
      else
        var u := Unget(g.st, t);
        Step(match u.out case Ok(_) => Ok(left) case Err(e) => Err(e), u.st)
  }

  /** The last variable of a non-empty table. */
  function Last(vars: seq<Variable>): Variable
    requires vars != []
  {
    vars[|vars| - 1]
  }

  /** `declaration()`: name, `=`, expression; the new variable is appended last. */
  function Declaration(d: Dialect, m: Maths, st: State): (r: Step<real>)
    ensures Progress(st, r) && Advances(st, r) && NoDoublePutback(r)
    ensures r.out.Ok? ==> Declares(d, st.table, r.st.table, r.out.value)
    ensures r.out.Err? ==> KeepsTable(d, st, r)
  {
    var g := Get(d, st);
    if g.out.Err? then Step(Err(g.out.error), g.st)
    else if g.out.value.kind != NAME then Step(Err(NameExpected), g.st)
    else
      var name := g.out.value.name;
      if Declared(g.st.table, name) then Step(Err(DeclaredTwice(name)), g.st)
      else
        var q := Expect(d, g.st, '=', EqualsMissing(name));
        if q.out.Err? then Step(Err(q.out.error), q.st)
        else
          var e := Expression(d, m, q.st);
          if e.out.Err? then e
          else
            DefineDeclares(d, st.table, e.st.table, name, e.out.value);
            Step(Ok(e.out.value), e.st.(table := Define(e.st.table, name, e.out.value)))
  }

  lemma SameNamesUnique(a: seq<Variable>, b: seq<Variable>)
    requires Names(a) == Names(b)
    ensures UniqueNames(a) ==> UniqueNames(b)
  {
    assert forall j :: 0 <= j < |a| ==> a[j].name == Names(a)[j] == Names(b)[j] == b[j].name;
  }

  /** `after` is `before` with one fresh variable of value `v` appended; in the extended
      calculator the older values may differ, because reading can assign. */
  ghost predicate Declares(d: Dialect, before: seq<Variable>, after: seq<Variable>, v: real) {
    |after| == |before| + 1 &&
    Names(after) == Names(before) + [Last(after).name] &&
    !Declared(before, Last(after).name) &&
    Last(after).value == v &&
    (d.variant == Ch7 ==> after == before + [Last(after)])
  }

  /** The `push_back` at the end of `declaration()`, after the name was found fresh and the
      expression was read. */
  lemma DefineDeclares(d: Dialect, before: seq<Variable>, mid: seq<Variable>, name: string, v: real)
    requires Names(mid) == Names(before) && (d.variant == Ch7 ==> mid == before)
    requires !Declared(before, name)
    ensures Declares(d, before, Define(mid, name, v), v)
  {
    SameNamesSameDeclared(mid, before, name);
  }

  /** Growing the table as a statement may keeps the names unique. */
  lemma GrowsKeepsUnique(d: Dialect, before: seq<Variable>, after: seq<Variable>)
    requires GrowsTable(d, before, after)
    ensures UniqueNames(before) ==> UniqueNames(after)
  {
    if UniqueNames(before) {
      if Names(after) == Names(before) {
        SameNamesUnique(before, after);
      } else {
        var n := after[|before|].name;
        forall i, j | 0 <= i < j < |after|
          ensures after[i].name != after[j].name
        {
          assert after[i].name == Names(after)[i] && after[j].name == Names(after)[j];
          if j == |before| {
            assert Names(before)[i] == before[i].name;
            assert before[i].name != n;
          } else {
            assert Names(after)[i] == Names(before)[i] == before[i].name;
            assert Names(after)[j] == Names(before)[j] == before[j].name;
          }
        }
      }
    }
  }

  /** A successful declaration grows the table as `GrowsTable` allows. */
  lemma DeclarationGrows(d: Dialect, before: seq<Variable>, after: seq<Variable>, v: real)
    requires Declares(d, before, after, v)
    ensures GrowsTable(d, before, after)
  {
    assert after[|before|] == Last(after);
    if d.variant == Ch7 {
      assert after[..|before|] == before;
    }
  }

  /** How a statement may change the table: only a declaration appends, and only a fresh name. */
  ghost predicate GrowsTable(d: Dialect, before: seq<Variable>, after: seq<Variable>) {
    (Names(after) == Names(before) && (d.variant == Ch7 ==> after == before)) ||
    (|after| == |before| + 1 && Names(after) == Names(before) + [after[|before|].name] &&
     !Declared(before, after[|before|].name) &&
     (d.variant == Ch7 ==> after[..|before|] == before))
  }

  /** `statement()`: `let` starts a declaration; anything else is pushed back and read as an
      expression. */
  function Statement(d: Dialect, m: Maths, st: State): (r: Step<real>)
    ensures Progress(st, r) && Advances(st, r) && NoDoublePutback(r)
    ensures GrowsTable(d, st.table, r.st.table)
    ensures r.out.Err? ==> KeepsTable(d, st, r)
    ensures UniqueNames(st.table) ==> UniqueNames(r.st.table)
  {
    var g := Get(d, st);
    if g.out.Err? then Step(Err(g.out.error), g.st)
    else if g.out.value.kind == LET then
      var r := Declaration(d, m, g.st);
      if r.out.Err? then
        SameNamesUnique(st.table, r.st.table);
        r
      else
        DeclarationGrows(d, g.st.table, r.st.table, r.out.value);
        GrowsTableAfterRename(d, st.table, g.st.table, r.st.table);
        GrowsKeepsUnique(d, st.table, r.st.table);
        r
    else
      var u := Unget(g.st, g.out.value);
      match u.out
      case Err(e) => Step(Err(e), u.st)
      case Ok(_) =>
        var r := Expression(d, m, u.st);
        SameNamesUnique(st.table, r.st.table);
        r
  }

  /** What one pass of the `calculate` loop's `try` block ends with. */
  datatype Outcome = Quitted(st: State) | Evaluated(value: real, st: State) | Failed(error: Error, st: State)

  /** `Token t = ts.get(); while (t.kind == print) t = ts.get();` */
  function SkipPrints(d: Dialect, st: State): (r: Step<Token>)
    ensures !r.st.full && r.st.input == st.input
    ensures Measure(r.st) <= Measure(st)
    ensures r.out.Ok? || r.out.error != EndOfInput ==> Measure(r.st) < Measure(st)
    ensures r.out.Err? ==> r.out.error == EndOfInput || r.out.error == BadToken
    ensures r.out.Ok? ==> r.out.value.kind != PRINT
    ensures Names(r.st.table) == Names(st.table)
    ensures d.variant == Ch7 ==> r.st.table == st.table
    decreases Measure(st)
  {
    var g := Get(d, st);
    if g.out.Ok? && g.out.value.kind == PRINT then SkipPrints(d, g.st) else g
  }

  /** One pass of the `calculate` loop: skip `;`s, stop at quit, otherwise push the token back
      and evaluate one statement. */
  function Round(d: Dialect, m: Maths, st: State): (r: Outcome)
    ensures r.st.input == st.input && Measure(r.st) <= Measure(st)
    ensures r.Evaluated? || (r.Failed? && r.error != EndOfInput) ==> Measure(r.st) < Measure(st)
    ensures r.Failed? ==> r.error != PutbackFull
    ensures GrowsTable(d, st.table, r.st.table)
    ensures r.Failed? ==> Names(r.st.table) == Names(st.table)
    ensures r.Failed? && d.variant == Ch7 ==> r.st.table == st.table
    ensures UniqueNames(st.table) ==> UniqueNames(r.st.table)
  {
    var g := SkipPrints(d, st);
    SameNamesUnique(st.table, g.st.table);
    if g.out.Err? then Failed(g.out.error, g.st)
    else if g.out.value.kind == QUIT then Quitted(g.st)
    else
      var u := Unget(g.st, g.out.value);
      match u.out
      case Err(e) => Failed(e, u.st)
      case Ok(_) =>
        var r := Statement(d, m, u.st);
        GrowsTableAfterRename(d, st.table, g.st.table, r.st.table);
        if r.out.Err? then Failed(r.out.error, r.st) else Evaluated(r.out.value, r.st)
  }

  lemma GrowsTableAfterRename(d: Dialect, a: seq<Variable>, b: seq<Variable>, c: seq<Variable>)
    requires Names(b) == Names(a) && (d.variant == Ch7 ==> b == a)
    requires GrowsTable(d, b, c)
    ensures GrowsTable(d, a, c)
  {
    if |c| == |b| + 1 && Names(c) == Names(b) + [c[|b|].name] {
      SameNamesSameDeclared(a, b, c[|b|].name);
    }
  }

  /** What the session prints: `= value` for a statement, a diagnostic for an error. */
  datatype Output = Printed(value: real) | Reported(error: Error)

  datatype Ending = Quit | EndOfStream

  datatype Session = Session(outputs: seq<Output>, ending: Ending, st: State)

  /** `calculate()`: rounds until quit or the end of the input; after an error the tokens up to
      the next `;` are discarded (`clean_up_mess`) and the loop goes on. */
  function Calculate(d: Dialect, m: Maths, st: State): (s: Session)
    ensures s.st.input == st.input
    ensures Measure(s.st) + |s.outputs| <= Measure(st)
    decreases Measure(st)
  {
    var r := Round(d, m, st);
    match r
    case Quitted(st1) => Session([], Quit, st1)
    case Evaluated(v, st1) =>
      var rest := Calculate(d, m, st1);
      Session([Printed(v)] + rest.outputs, rest.ending, rest.st)
    case Failed(e, st1) =>
      if e == EndOfInput then Session([], EndOfStream, st1)
      else
        var rest := Calculate(d, m, Ignore(st1, PRINT));
        Session([Reported(e)] + rest.outputs, rest.ending, rest.st)
  }

  /** No output of a session is the double pushback or the end of input. */
  lemma {:induction false} CalculateReportable(d: Dialect, m: Maths, st: State)
    ensures forall o :: o in Calculate(d, m, st).outputs ==> Reportable(o)
    decreases Measure(st)
  {
    match Round(d, m, st)
    case Quitted(st1) =>
    case Evaluated(v, st1) =>
      CalculateReportable(d, m, st1);
      CalculatePrints(d, m, st, v, st1);
      ReportableAfter(Printed(v), Calculate(d, m, st1).outputs);
    case Failed(e, st1) =>
      if e != EndOfInput {
        CalculateReportable(d, m, Ignore(st1, PRINT));
        CalculateReports(d, m, st, e, st1);
        ReportableAfter(Reported(e), Calculate(d, m, Ignore(st1, PRINT)).outputs);
      }
  }

  lemma ReportableAfter(o: Output, rest: seq<Output>)
    requires Reportable(o) && forall p :: p in rest ==> Reportable(p)
    ensures forall p :: p in [o] + rest ==> Reportable(p)
  {
  }

  /** Over a whole session the names stay unique, and names are only ever added. */
  lemma {:induction false} CalculateKeepsNames(d: Dialect, m: Maths, st: State)
    ensures UniqueNames(st.table) ==> UniqueNames(Calculate(d, m, st).st.table)
    ensures Names(st.table) <= Names(Calculate(d, m, st).st.table)
    decreases Measure(st)
  {
    var r := Round(d, m, st);
    PrefixOfGrown(d, st.table, r.st.table);
    match r
    case Quitted(st1) =>
    case Evaluated(v, st1) =>
      CalculateKeepsNames(d, m, st1);
      CalculatePrints(d, m, st, v, st1);
      PrefixTransitive(Names(st.table), Names(st1.table), Names(Calculate(d, m, st1).st.table));
    case Failed(e, st1) =>
      if e != EndOfInput {
        var st2 := Ignore(st1, PRINT);
        CalculateKeepsNames(d, m, st2);
        CalculateReports(d, m, st, e, st1);
        PrefixTransitive(Names(st.table), Names(st2.table), Names(Calculate(d, m, st2).st.table));
      }
  }

  lemma PrefixTransitive<T>(a: seq<T>, b: seq<T>, c: seq<T>)
    requires a <= b && b <= c
    ensures a <= c
  {
    assert c[..|a|] == c[..|b|][..|a|];
  }

  /** A round that quits ends the session. */
  lemma CalculateQuits(d: Dialect, m: Maths, st: State, st1: State)
    requires Round(d, m, st) == Quitted(st1)
    ensures Calculate(d, m, st) == Session([], Quit, st1)
  {
  }

  /** A round that runs out of input ends the session without a report. */
  lemma CalculateEnds(d: Dialect, m: Maths, st: State, st1: State)
    requires Round(d, m, st) == Failed(EndOfInput, st1)
    ensures Calculate(d, m, st) == Session([], EndOfStream, st1)
  {
  }

  /** A round that evaluates prints its value, and the session goes on from where it stopped. */
  lemma CalculatePrints(d: Dialect, m: Maths, st: State, v: real, st1: State)
    requires Round(d, m, st) == Evaluated(v, st1)
    ensures Calculate(d, m, st) ==
            Session([Printed(v)] + Calculate(d, m, st1).outputs, Calculate(d, m, st1).ending, Calculate(d, m, st1).st)
  {
  }

  /** A round that fails otherwise reports its error, and the session goes on from where
      `ignore(print)` stops. */
  lemma CalculateReports(d: Dialect, m: Maths, st: State, e: Error, st1: State)
    requires Round(d, m, st) == Failed(e, st1) && e != EndOfInput
    ensures var rest := Calculate(d, m, Ignore(st1, PRINT));
            Calculate(d, m, st) == Session([Reported(e)] + rest.outputs, rest.ending, rest.st)
  {
  }

  lemma PrefixOfGrown(d: Dialect, a: seq<Variable>, b: seq<Variable>)
    requires GrowsTable(d, a, b)
    ensures Names(a) <= Names(b)
  {
  }

  /** No session ever reports the double pushback, and the end of input is not an error. */
  ghost predicate Reportable(o: Output) {
    o.Reported? ==> o.error != PutbackFull && o.error != EndOfInput
  }

  /** The table a session starts with: `pi` and `e`, and in the extended calculator `k`. */
  function Predefined(v: Variant): (vars: seq<Variable>)
    ensures UniqueNames(vars)
    ensures Lookup(vars, "pi") == Ok(3.1415926535) && Lookup(vars, "e") == Ok(2.7182818284)
    ensures v == Extended <==> Declared(vars, "k")
    ensures v == Extended ==> Lookup(vars, "k") == Ok(1000.0)
  {
    var vars := [Variable("pi", 3.1415926535), Variable("e", 2.7182818284)] +
                (if v == Extended then [Variable("k", 1000.0)] else []);
    assert vars[0].name == "pi" && vars[1].name == "e";
    assert vars[1..][0] == vars[1];
    assert FirstIndex(vars, "e") == Some(1);
    assert v == Extended ==> vars[2].name == "k";
    assert v == Ch7 ==> vars == [Variable("pi", 3.1415926535), Variable("e", 2.7182818284)];
    vars
  }

  /** `Token_stream ts;` over the whole input, with an empty buffer (`buffer(0)`). */
  function Start(v: Variant, input: string): (st: State)
    ensures st.input == input && st.pos == 0 && !st.full
    ensures UniqueNames(st.table)
    ensures Lookup(st.table, "pi") == Ok(3.1415926535) && Lookup(st.table, "e") == Ok(2.7182818284)
    ensures v == Extended <==> Declared(st.table, "k")
  {
    State(input, 0, false, Symbol(0 as char), Predefined(v))
  }

  /** The program: the predefined names, then `calculate()` until quit or end of input. Over the
      whole run the names stay unique, the predefined names stay first, and no output is the
      double pushback or the end of input. */
  function Run(d: Dialect, m: Maths, input: string): (r: Session)
    ensures r.st.input == input
    ensures UniqueNames(r.st.table) && Names(Predefined(d.variant)) <= Names(r.st.table)
    ensures forall o :: o in r.outputs ==> Reportable(o)
    ensures |r.outputs| <= 2 * |input|
  {
    var st := Start(d.variant, input);
    CalculateReportable(d, m, st);
    CalculateKeepsNames(d, m, st);
    Calculate(d, m, st)
  }
}
