/** Properties of the evaluator that relate several of its functions: the name-uniqueness
    invariant across a declaration, the error conditions of `term()` and `primary()`, unary
    minus and plus, and how `calculate()` recovers from errors. */
module GrammarFacts {
  import opened Errors
  import opened Symbols
  import opened Lexing
  import opened Streams
  import opened Grammar

  /** `declaration()` keeps the table's names unique: a success appends a fresh name, a failure
      changes no name. */
  lemma DeclarationKeepsUnique(d: Dialect, m: Maths, st: State)
    requires UniqueNames(st.table)
    ensures UniqueNames(Declaration(d, m, st).st.table)
  {
    var r := Declaration(d, m, st);
    if r.out.Ok? {
      DeclarationGrows(d, st.table, r.st.table, r.out.value);
      GrowsKeepsUnique(d, st.table, r.st.table);
    } else {
      SameNamesUnique(st.table, r.st.table);
    }
  }

  /** A successful `declaration()` of `let name = e` appends exactly `Variable(name, v)` and
      returns `v`, the value of `e`; in `Ch7` nothing else in the table changes. */
  lemma DeclarationAppends(d: Dialect, m: Maths, st: State)
    requires Declaration(d, m, st).out.Ok?
    ensures var r := Declaration(d, m, st);
            var g := Get(d, st);
            g.out.Ok? && g.out.value.kind == NAME && !Declared(st.table, g.out.value.name) &&
            |r.st.table| == |st.table| + 1 &&
            r.st.table[|st.table|] == Variable(g.out.value.name, r.out.value) &&
            Names(r.st.table) == Names(st.table) + [g.out.value.name] &&
            (d.variant == Ch7 ==> r.st.table == st.table + [Variable(g.out.value.name, r.out.value)])
  {
    var g := Get(d, st);
    var name := g.out.value.name;
    var q := Expect(d, g.st, '=', EqualsMissing(name));
    var e := Expression(d, m, q.st);
    assert Declaration(d, m, st) == Step(Ok(e.out.value), e.st.(table := Define(e.st.table, name, e.out.value)));
    SameNamesSameDeclared(g.st.table, st.table, name);
  }

  /** A declaration of a name already in the table fails with "declared twice" before reading
      further, and leaves the table as it was. */
  lemma DeclarationOfDeclaredName(d: Dialect, m: Maths, st: State)
    requires var g := Get(d, st); g.out.Ok? && g.out.value.kind == NAME
    requires Declared(st.table, Get(d, st).out.value.name)
    ensures var g := Get(d, st);
            Declaration(d, m, st) == Step(Err(DeclaredTwice(g.out.value.name)), g.st)
    ensures Names(Declaration(d, m, st).st.table) == Names(st.table)
  {
    SameNamesSameDeclared(Get(d, st).st.table, st.table, Get(d, st).out.value.name);
  }

  /** `/` by a right operand that is exactly zero fails with "divide by zero". */
  lemma DivisionByZeroFails(d: Dialect, m: Maths, left: real, st: State)
    requires var g := Get(d, st); g.out.Ok? && g.out.value.kind == '/'
    requires Primary(d, m, Get(d, st).st).out == Ok(0.0)
    ensures TermTail(d, m, left, st).out == Err(DivideByZero)
  {
  }

  /** `%` whose right operand, a whole `term()`, converts to the integer zero fails with
      "%: divide by zero", provided the left operand converts. */
  lemma RemainderByZeroFails(d: Dialect, m: Maths, left: real, st: State)
    requires var g := Get(d, st); g.out.Ok? && g.out.value.kind == '%'
    requires m.narrow(left).Some?
    requires var q := Term(d, m, Get(d, st).st); q.out.Ok? && m.narrow(q.out.value) == Some(0)
    ensures TermTail(d, m, left, st).out == Err(ModDivideByZero)
  {
  }

  /** The remainder is C++'s `%` on the two converted operands: it takes the sign of the left
      one and is smaller than the right one in magnitude. */
  lemma RemainderValue(d: Dialect, m: Maths, left: real, st: State, i1: int, i2: int)
    requires m.narrow(left) == Some(i1)
    requires var q := Term(d, m, st); q.out.Ok? && m.narrow(q.out.value) == Some(i2) && i2 != 0
    ensures var r := Remainder(d, m, left, st);
            r.out.Ok? && r.out.value == CRem(i1, i2) as real &&
            i1 == CQuot(i1, i2) * i2 + CRem(i1, i2) &&
            (i1 >= 0 ==> 0 <= CRem(i1, i2) < Abs(i2)) && (i1 < 0 ==> 0 <= -CRem(i1, i2) < Abs(i2))
  {
  }

  /** `sqrt` of a negative argument fails with "Can't take sqrt of negative number". */
  lemma SqrtOfNegativeFails(d: Dialect, m: Maths, st: State)
    requires d.variant == Extended
    requires var o := Expect(d, st, '(', LParenExpected);
             o.out.Ok? && Expression(d, m, o.st).out.Ok? && Expression(d, m, o.st).out.value < 0.0
    requires Expect(d, Expression(d, m, Expect(d, st, '(', LParenExpected).st).st, ')', RParenExpected).out.Ok?
    ensures SqrtCall(d, m, st).out == Err(SqrtNegative)
  {
  }

  /** Unary minus yields the negation of the primary after it. */
  lemma UnaryMinus(d: Dialect, m: Maths, st: State, t: Token, st1: State, v: real, st2: State)
    requires Get(d, st) == Step(Ok(t), st1) && t.kind == '-'
    requires Primary(d, m, st1) == Step(Ok(v), st2)
    ensures Primary(d, m, st) == Step(Ok(-v), st2)
  {
    assert t.kind != '(';
  }

  /** Unary plus yields the primary after it unchanged. */
  lemma UnaryPlus(d: Dialect, m: Maths, st: State, t: Token, st1: State)
    requires Get(d, st) == Step(Ok(t), st1) && t.kind == '+'
    ensures Primary(d, m, st) == Primary(d, m, st1)
  {
  }

  /** `primary()` accepts only `(`, `-`, `+`, a number, a name (and in the extended calculator
      `sqrt` and `pow`); any other token fails with "primary expected". */
  lemma PrimaryExpectedOtherwise(d: Dialect, m: Maths, st: State)
    requires var g := Get(d, st);
             g.out.Ok? && g.out.value.kind !in "(-+" && g.out.value.kind != NUMBER &&
             g.out.value.kind != NAME &&
             (d.variant == Extended ==> g.out.value.kind != SQUARE_ROOT && g.out.value.kind != POWER)
    ensures Primary(d, m, st).out == Err(PrimaryExpected)
  {
  }

  /** In `Ch7` a `(` expression not followed by `)` fails with the message "'(' expected";
      the extended calculator says "')' expected". */
  lemma MissingRightParen(d: Dialect, m: Maths, st: State)
    requires var g := Get(d, st); g.out.Ok? && g.out.value.kind == '('
    requires var e := Expression(d, m, Get(d, st).st);
             e.out.Ok? && Get(d, e.st).out.Ok? && Get(d, e.st).out.value.kind != ')'
    ensures Primary(d, m, st).out == Err(if d.variant == Ch7 then LParenExpected else RParenExpected)
  {
  }

  /** A parenthesised expression is a primary with the expression's value; the `)` is consumed. */
  lemma ParenthesizedPrimary(d: Dialect, m: Maths, st: State, st1: State, v: real, st2: State, t: Token, st3: State)
    requires Get(d, st) == Step(Ok(Symbol('(')), st1)
    requires Expression(d, m, st1) == Step(Ok(v), st2)
    requires Get(d, st2) == Step(Ok(t), st3) && t.kind == ')'
    ensures Primary(d, m, st) == Step(Ok(v), st3)
  {
  }

  /** `sqrt` not followed by `(` fails with "'(' expected" as soon as that token is read. */
  lemma SqrtWithoutLParen(d: Dialect, m: Maths, st: State, t: Token, st1: State)
    requires Get(d, st) == Step(Ok(t), st1) && t.kind != '('
    ensures SqrtCall(d, m, st) == Step(Err(LParenExpected), st1)
  {
  }

  /** `sqrt(e` not followed by `)` fails with "')' expected"; otherwise the call yields `sqrt`
      of the argument, unless the argument is negative. */
  lemma SqrtCloses(d: Dialect, m: Maths, st: State, st1: State, v: real, st2: State, t: Token, st3: State)
    requires Expect(d, st, '(', LParenExpected) == Step(Ok(()), st1)
    requires Expression(d, m, st1) == Step(Ok(v), st2)
    requires Get(d, st2) == Step(Ok(t), st3)
    ensures SqrtCall(d, m, st) ==
            if t.kind != ')' then Step(Err(RParenExpected), st3)
            else if v < 0.0 then Step(Err(SqrtNegative), st3)
            else Step(Ok(m.sqrt(v)), st3)
  {
  }

  /** `pow` not followed by `(` fails with "'(' expected". */
  lemma PowWithoutLParen(d: Dialect, m: Maths, st: State, t: Token, st1: State)
    requires Get(d, st) == Step(Ok(t), st1) && t.kind != '('
    ensures PowCall(d, m, st) == Step(Err(LParenExpected), st1)
  {
  }

  /** `pow(e` not followed by `,` fails with "',' expected". */
  lemma PowWithoutComma(d: Dialect, m: Maths, st: State, st1: State, v: real, st2: State, t: Token, st3: State)
    requires Expect(d, st, '(', LParenExpected) == Step(Ok(()), st1)
    requires Expression(d, m, st1) == Step(Ok(v), st2)
    requires Get(d, st2) == Step(Ok(t), st3) && t.kind != ','
    ensures PowCall(d, m, st) == Step(Err(CommaExpected), st3)
  {
  }

  /** `pow(p, i` not followed by `)` fails with "')' expected"; followed by `)` the call yields
      `pow(p, i)`. */
  lemma PowCloses(d: Dialect, m: Maths, st: State, st1: State, p: real, st2: State, st3: State, i: real, st4: State, t: Token, st5: State)
    requires Expect(d, st, '(', LParenExpected) == Step(Ok(()), st1)
    requires Expression(d, m, st1) == Step(Ok(p), st2)
    requires Expect(d, st2, ',', CommaExpected) == Step(Ok(()), st3)
    requires Expression(d, m, st3) == Step(Ok(i), st4)
    requires Get(d, st4) == Step(Ok(t), st5)
    ensures PowCall(d, m, st) ==
            if t.kind == ')' then Step(Ok(m.pow(p, i)), st5) else Step(Err(RParenExpected), st5)
  {
  }

  /** A declaration whose first token is not a name fails with "name expected in declaration",
      leaving the names of the table as they were. */
  lemma DeclarationWithoutName(d: Dialect, m: Maths, st: State, t: Token, st1: State)
    requires Get(d, st) == Step(Ok(t), st1) && t.kind != NAME
    ensures Declaration(d, m, st) == Step(Err(NameExpected), st1)
    ensures Names(Declaration(d, m, st).st.table) == Names(st.table)
  {
  }

  /** A declaration of a fresh name not followed by `=` fails with "= missing in declaration
      of" that name. */
  lemma DeclarationWithoutEquals(d: Dialect, m: Maths, st: State, w: string, st1: State, t: Token, st2: State)
    requires Get(d, st) == Step(Ok(NameToken(w)), st1) && !Declared(st1.table, w)
    requires Get(d, st1) == Step(Ok(t), st2) && t.kind != '='
    ensures Declaration(d, m, st) == Step(Err(EqualsMissing(w)), st2)
  {
  }

  /** One `op operand` pair of `term()`'s or `expression()`'s loop: the operator token is read
      from the state before it, leaving `mid`; the operand is read from `mid`, giving `value`
      and leaving `after`. */
  datatype Link = Link(op: char, mid: State, value: real, after: State)

  /** `links` is a run of `*` and `/` pairs with primaries as operands, read from `st` and
      ending at `last`. */
  ghost predicate TermLinks(d: Dialect, m: Maths, st: State, links: seq<Link>, last: State)
    decreases |links|
  {
    if links == [] then last == st
    else
      var l := links[0];
      Get(d, st) == Step(Ok(Symbol(l.op)), l.mid) && (l.op == '*' || l.op == '/') &&
      Primary(d, m, l.mid) == Step(Ok(l.value), l.after) &&
      TermLinks(d, m, l.after, links[1..], last)
  }

  /** No `/` pair divides by zero. */
  predicate NonzeroDivisors(links: seq<Link>) {
    forall k :: 0 <= k < |links| ==> links[k].op != '/' || links[k].value != 0.0
  }

  /** `left` combined with the pairs from left to right: `((left op1 v1) op2 v2) ...`. */
  function TermFold(left: real, links: seq<Link>): real
    requires NonzeroDivisors(links)
    decreases |links|
  {
    if links == [] then left
    else
      var l := links[0];
      assert NonzeroDivisors(links[1..]) by {
        forall k | 0 <= k < |links| - 1
          ensures links[1..][k].op != '/' || links[1..][k].value != 0.0
        {
          assert links[1..][k] == links[k + 1];
        }
      }
      TermFold(if l.op == '/' then Over(left, l.value) else Times(left, l.value), links[1..])
  }

  /** `term()`'s loop over a run of `*` and `/` pairs computes the left fold of the pairs and
      puts back the token after them. */
  lemma {:induction false} TermTailFold(d: Dialect, m: Maths, left: real, st: State, links: seq<Link>, last: State, t: Token, fin: State)
    requires TermLinks(d, m, st, links, last) && NonzeroDivisors(links)
    requires Get(d, last) == Step(Ok(t), fin) && t.kind !in "*/%"
    ensures TermTail(d, m, left, st) == Step(Ok(TermFold(left, links)), fin.(full := true, buffer := t))
    decreases |links|
  {
    if links != [] {
      var l := links[0];
      var next := if l.op == '/' then Over(left, l.value) else Times(left, l.value);
      assert NonzeroDivisors(links[1..]) by {
        forall k | 0 <= k < |links| - 1
          ensures links[1..][k].op != '/' || links[1..][k].value != 0.0
        {
          assert links[1..][k] == links[k + 1];
        }
      }
      TermTailFold(d, m, next, l.after, links[1..], last, t, fin);
      assert TermTail(d, m, left, st) == TermTail(d, m, next, l.after);
    }
  }

  /** A run of term pairs grows at the front by a pair read from `st`. */
  lemma TermLinksCons(d: Dialect, m: Maths, st: State, l: Link, rest: seq<Link>, last: State)
    requires Get(d, st) == Step(Ok(Symbol(l.op)), l.mid) && (l.op == '*' || l.op == '/')
    requires Primary(d, m, l.mid) == Step(Ok(l.value), l.after)
    requires TermLinks(d, m, l.after, rest, last)
    ensures TermLinks(d, m, st, [l] + rest, last)
  {
    assert ([l] + rest)[0] == l && ([l] + rest)[1..] == rest;
  }

  /** The fold of `[l] + rest` starts with `l`. */
  lemma TermFoldCons(left: real, l: Link, rest: seq<Link>)
    requires l.op == '*' || l.value != 0.0
    requires NonzeroDivisors(rest)
    ensures NonzeroDivisors([l] + rest)
    ensures TermFold(left, [l] + rest) == TermFold(if l.op == '/' then Over(left, l.value) else Times(left, l.value), rest)
  {
    assert ([l] + rest)[0] == l && ([l] + rest)[1..] == rest;
    assert forall k :: 1 <= k < |[l] + rest| ==> ([l] + rest)[k] == rest[k - 1];
  }

  /** `links` is a run of `+` and `-` pairs with terms as operands, read from `st` and ending at
      `last`. */
  ghost predicate ExprLinks(d: Dialect, m: Maths, st: State, links: seq<Link>, last: State)
    decreases |links|
  {
    if links == [] then last == st
    else
      var l := links[0];
      Get(d, st) == Step(Ok(Symbol(l.op)), l.mid) && (l.op == '+' || l.op == '-') &&
      Term(d, m, l.mid) == Step(Ok(l.value), l.after) &&
      ExprLinks(d, m, l.after, links[1..], last)
  }

  /** `left` combined with the `+` and `-` pairs from left to right. */
  function ExprFold(left: real, links: seq<Link>): real
    decreases |links|
  {
    if links == [] then left
    else
      var l := links[0];
      ExprFold(if l.op == '-' then Minus(left, l.value) else Plus(left, l.value), links[1..])
  }

  /** A run of expression pairs grows at the front by a pair read from `st`. */
  lemma ExprLinksCons(d: Dialect, m: Maths, st: State, l: Link, rest: seq<Link>, last: State)
    requires Get(d, st) == Step(Ok(Symbol(l.op)), l.mid) && (l.op == '+' || l.op == '-')
    requires Term(d, m, l.mid) == Step(Ok(l.value), l.after)
    requires ExprLinks(d, m, l.after, rest, last)
    ensures ExprLinks(d, m, st, [l] + rest, last)
  {
    assert ([l] + rest)[0] == l && ([l] + rest)[1..] == rest;
  }

  /** The fold of `[l] + rest` starts with `l`. */
  lemma ExprFoldCons(left: real, l: Link, rest: seq<Link>)
    ensures ExprFold(left, [l] + rest) == ExprFold(if l.op == '-' then Minus(left, l.value) else Plus(left, l.value), rest)
  {
    assert ([l] + rest)[0] == l && ([l] + rest)[1..] == rest;
  }

  /** `expression()`'s loop over a run of `+` and `-` pairs computes the left fold of the pairs,
      so `a-b-c` is `(a-b)-c`, and puts back the token after them. */
  lemma {:induction false} ExprTailFold(d: Dialect, m: Maths, left: real, st: State, links: seq<Link>, last: State, t: Token, fin: State)
    requires ExprLinks(d, m, st, links, last)
    requires Get(d, last) == Step(Ok(t), fin) && t.kind !in "+-"
    ensures ExprTail(d, m, left, st) == Step(Ok(ExprFold(left, links)), fin.(full := true, buffer := t))
    decreases |links|
  {
    if links != [] {
      var l := links[0];
      var next := if l.op == '-' then Minus(left, l.value) else Plus(left, l.value);
      ExprTailFold(d, m, next, l.after, links[1..], last, t, fin);
      assert ExprTail(d, m, left, st) == ExprTail(d, m, next, l.after);
    }
  }

  /** After an error, `calculate()` reports it, discards the input up to the next `;` and goes
      on with the variables the failed statement left: the same names, and in `Ch7` the same
      table. */
  lemma CalculateRecovers(d: Dialect, m: Maths, st: State)
    requires Round(d, m, st).Failed? && Round(d, m, st).error != EndOfInput
    ensures var r := Round(d, m, st);
            Calculate(d, m, st) ==
              var rest := Calculate(d, m, Ignore(r.st, PRINT));
              Session([Reported(r.error)] + rest.outputs, rest.ending, rest.st)
    ensures Names(Ignore(Round(d, m, st).st, PRINT).table) == Names(st.table)
    ensures d.variant == Ch7 ==> Ignore(Round(d, m, st).st, PRINT).table == st.table
  {
    var r := Round(d, m, st);
    CalculateReports(d, m, st, r.error, r.st);
  }
}
