# Stroustrup PPP calculators and `Chrono::Date`, modelled in Dafny

This project models two programs from the Stroustrup PPP exercises in the Misc_Cpp repository.

**The desk calculator.** It exists in two variants:

- `Ch7` is `Stroustrup_PPP/Ch7/calculator.cpp`.
- `Extended` is `Stroustrup_PPP/calculator_ch7/calculator.cpp`. This variant adds:
  - `,` as a token and `_` in names;
  - the keywords `sqrt` and `pow`;
  - a predefined `k = 1000`;
  - assignment `name = ...`, which the token stream performs while it reads a token.

The model covers these parts of the calculator:

- the `Token_stream` with its one-token buffer (`get`, `unget`, `ignore`);
- the symbol table `var_names` (`is_declared`, `get_value`, `set_value`, and `push_back` in `declaration`);
- the recursive-descent evaluator `primary`, `term`, `expression`, `declaration` and `statement`;
- the session loop `calculate`, with its error recovery `clean_up_mess`.

**The `Date` class** of `Stroustrup_PPP/Date_class_ch9`. The model covers:

- `leapyear` and `is_date`;
- the validating constructor and the default constructor;
- the accessors and the setters;
- `==` and `!=`;
- the text format `(y,m,d)` that `<<` writes and `>>` reads.

Layout, one module per file:

- `errors.dfy`, module `Errors`: every `error(...)` the calculator raises is a value of `Error`. An operation returns `Result`, and callers pass an `Err` on with `:-` up to the session loop.
- `symbols.dfy`, module `Symbols`:
  - the table as a sequence of `Variable`s, with the specification functions `Lookup`, `Assign` and `Define`;
  - the class `SymbolTable`, the vector that the methods update in place.
- `lexing.dfy`, module `Lexing`: tokens, the character classes, and `Lex`, which is `get()` with an empty buffer. Both variants are covered through `Dialect`.
- `streams.dfy`, module `Streams`: the token stream's state, and `Get`, `Unget` and `Ignore` as state transformers.
- `grammar.dfy`, module `Grammar`: the evaluator and the session as functions on that state. Each error carries the state where it was raised.
- `calculator.dfy`, module `Calculator`: the program as the source runs it.
  - The class `TokenStream` has the fields `pos`, `full` and `buffer`.
  - The procedures have `while` loops.
  - Each procedure is proved to leave exactly the outcome and state that the matching `Grammar` or `Streams` function computes.
- `grammar_facts.dfy`, module `GrammarFacts`: properties that relate several evaluator functions.
- `scenarios.dfy`, module `Scenarios`: whole sessions on concrete inputs, proved from the definitions.
- `chrono.dfy`, module `Chrono`: the Date program. The class `Date` has the fields `y`, `m`, `d`.

Three things are parameters of the model, not definitions:

- the value that `cin >> val` gives a floating-point literal, `Dialect.numeral`;
- the library functions `sqrt` and `pow`;
- `narrow_cast<int>`, which is `Maths.narrow` and may refuse a value.

Behaviours of the source that the model keeps:

- In `Ch7`, a `(` without its `)` consumes the `;` while it looks for the `)`. `clean_up_mess` then discards the tokens up to the *next* `;`, so the following statement is lost. `Scenarios.UnclosedParenSession` proves this for `(1;2;3;`.
- In `Ch7`, this error is reported with the message "'(' expected", as the source writes it.
- In `Ch7`, `q` is a token by itself, so `quit` is read as `q` followed by the name `uit`.
- In `Extended`, `let pi=1;pi;` never reaches "pi declared twice". After `let`, the token stream reads the declared `pi` followed by `=`, so it performs the assignment `pi=1` and returns the number 1. `declaration()` then fails with "name expected in declaration", and after the `;` the statement `pi` prints 1. `Scenarios.ExtendedRedeclarationSession` proves this; `Scenarios.RedeclarationSession` proves the "declared twice" path of `Ch7`.
- `7.9%2` fails: `%` passes both operands through `narrow_cast<int>`, which refuses `7.9`. The model leaves that cast as a parameter, `Maths.narrow`.

## Model

| member | source | states |
|---|---|---|
| Symbols.FirstIndex | Stroustrup_PPP/Ch7/calculator.cpp:197-223 | the index the linear scan stops at is the first entry with the name, and there is none exactly when the name is not declared |
| Symbols.Lookup | Stroustrup_PPP/Ch7/calculator.cpp:197-202 | `get_value` succeeds exactly when the name is declared, yields the first such entry's value, and otherwise fails with "get: undefined name" |
| Symbols.Assign | Stroustrup_PPP/calculator_ch7/calculator.cpp:146-154 | `set_value` (bound corrected) succeeds exactly when the name is declared, replaces only the first such entry, and otherwise fails with "set: undefined name" |
| Symbols.DeclaredInNames | Stroustrup_PPP/Ch7/calculator.cpp:218-223 | `is_declared(s)` holds exactly when `s` is among the names of the table |
| Symbols.Define | Stroustrup_PPP/Ch7/calculator.cpp:324-325 | `push_back` keeps every old entry in place and adds `Variable(name, d)` as the last one, so the names grow by exactly the new name |
| Symbols.FirstIndexDefine | Stroustrup_PPP/Ch7/calculator.cpp:197-223 | after the append, a name declared before is found where it was; the new name, if fresh, is found at the old length |
| Symbols.DefineThenLookup | Stroustrup_PPP/Ch7/calculator.cpp:197-202 | after declaring a fresh name with `d`, `get_value` of that name yields `d` |
| Symbols.DefineThenLookupOther | Stroustrup_PPP/Ch7/calculator.cpp:197-202 | declaring a name leaves every other name reading as before |
| Symbols.LookupUnique | Stroustrup_PPP/Ch7/calculator.cpp:197-202 | under unique names, `get_value` returns the value of any entry carrying the name |
| Symbols.AssignFrame | Stroustrup_PPP/Ch7/calculator.cpp:206-214 | `set_value` keeps the length and the names and leaves every entry with another name untouched |
| Symbols.AssignThenLookup | Stroustrup_PPP/Ch7/calculator.cpp:197-214 | after `set_value(s, d)`, `get_value(s)` yields `d` |
| Symbols.AssignThenLookupOther | Stroustrup_PPP/Ch7/calculator.cpp:197-214 | `set_value(s, d)` leaves every other name reading as before |
| Symbols.DefineKeepsUnique | Stroustrup_PPP/Ch7/calculator.cpp:316-327 | the append keeps names unique if and only if the name is fresh |
| Symbols.AssignKeepsUnique | Stroustrup_PPP/Ch7/calculator.cpp:206-214 | `set_value` keeps the names unique |
| Symbols.AsWrittenSetValueOverruns | Stroustrup_PPP/Ch7/calculator.cpp:206-214 | as written, with `i<=var_names.size()`, the loop for an absent name reads index `size()`, one past the end |
| Symbols.AsWrittenSetValueInBounds | Stroustrup_PPP/calculator_ch7/calculator.cpp:146-154 | for a declared name, the as-written loop only reads indices in bounds |
| Symbols.SymbolTable.constructor | Stroustrup_PPP/Ch7/calculator.cpp:193 | the vector starts with the given entries |
| Symbols.SymbolTable.IsDeclared | Stroustrup_PPP/Ch7/calculator.cpp:218-223 | the loop returns true exactly when some entry has the name |
| Symbols.SymbolTable.GetValue | Stroustrup_PPP/calculator_ch7/calculator.cpp:244-249 | the loop's result equals `Lookup` on the vector |
| Symbols.SymbolTable.SetValue | Stroustrup_PPP/calculator_ch7/calculator.cpp:146-154 | with the bound corrected, it succeeds exactly when the name is declared, leaves `Assign`'s table, and on failure reports "set: undefined name" and changes nothing |
| Symbols.SymbolTable.Push | Stroustrup_PPP/Ch7/calculator.cpp:324-325 | the vector becomes `Define` of the old one |
| Lexing.SkipSpace | Stroustrup_PPP/Ch7/calculator.cpp:123 | `cin >> ch` stops at the first non-white character, having skipped only white space |
| Lexing.DigitsEnd | Stroustrup_PPP/Ch7/calculator.cpp:136-151 | the digit run ends at the first non-digit: every character it covers is a digit |
| Lexing.ExponentEnd | Stroustrup_PPP/Ch7/calculator.cpp:136-151 | an exponent is `e` or `E`, an optional sign and at least one digit, ends at a non-digit, and is taken whenever the digits are there |
| Lexing.NumberEnd | Stroustrup_PPP/Ch7/calculator.cpp:136-151 | a literal starting with a digit or `.` consumes at least one character, covers at least the leading digits, holds only digits, `.`, `e`, `E` and signs with at most one `.`, and is not followed by a digit |
| Lexing.NameEnd | Stroustrup_PPP/calculator_ch7/calculator.cpp:203-205 | the name loop consumes exactly the maximal run of name characters |
| Lexing.Classify | Stroustrup_PPP/calculator_ch7/calculator.cpp:201-209 | `let`, `quit`, and in the extended calculator `sqrt` and `pow`, give their keyword tokens; every other word gives a name token carrying it |
| Lexing.Lex | Stroustrup_PPP/Ch7/calculator.cpp:119-164 | a read consumes input unless the input is exhausted, fails only with "Bad token" or end of input, never adds or removes a name, and in `Ch7` leaves the table alone |
| Lexing.LexName | Stroustrup_PPP/calculator_ch7/calculator.cpp:201-220 | the identifier branch always consumes, fails only as `get()` may, and keeps the names |
| Lexing.NameOrAssignment | Stroustrup_PPP/calculator_ch7/calculator.cpp:211-219 | assignment while reading keeps the set of names; it never consumes backwards |
| Lexing.LexWord | Stroustrup_PPP/Ch7/calculator.cpp:153-161 | a word followed by a non-name character lexes to its classification, consuming exactly the word |
| Lexing.LexUndeclaredName | Stroustrup_PPP/calculator_ch7/calculator.cpp:201-221 | an undeclared non-keyword word is a name token and does not change the table |
| Lexing.LexAssignment | Stroustrup_PPP/calculator_ch7/calculator.cpp:211-219 | a declared word followed by `=` reads the next token and stores that token's value in the variable |
| Lexing.Ch7QuitCharacter | Stroustrup_PPP/Ch7/calculator.cpp:125-135 | in `Ch7`, `q` is the quit token by itself, before any identifier rule |
| Lexing.ExtendedQIsAName | Stroustrup_PPP/calculator_ch7/calculator.cpp:173-209 | in the extended calculator, `q` starts an ordinary name |
| Lexing.SkipSpaceRun | Stroustrup_PPP/Ch7/calculator.cpp:123 | white space up to a non-blank character is exactly what `cin >> ch` skips |
| Lexing.DigitsRun | Stroustrup_PPP/Ch7/calculator.cpp:136-151 | a run of digits up to a non-digit is exactly the digit run |
| Lexing.NameRun | Stroustrup_PPP/Ch7/calculator.cpp:156-157 | a run of name characters up to a non-name character is exactly what the name loop reads |
| Lexing.LexEndAt | Stroustrup_PPP/Ch7/calculator.cpp:119-124 | when only white space is left, a read reports end of input at the end |
| Lexing.LexSymbolAt | Stroustrup_PPP/Ch7/calculator.cpp:125-135 | after white space, a symbol character is its own token |
| Lexing.LexIntegerAt | Stroustrup_PPP/Ch7/calculator.cpp:136-151 | after white space, a digit run not continued by `.`, an exponent or a digit is one number token of that text |
| Lexing.LexWordAt | Stroustrup_PPP/Ch7/calculator.cpp:153-161 | after white space, a word lexes to its classification, consuming exactly the word |
| Lexing.LexNameAt | Stroustrup_PPP/calculator_ch7/calculator.cpp:201-221 | in the extended calculator, a non-keyword word not followed by `=` (or undeclared) is a name token, and the white space after it is consumed |
| Lexing.LexAssignmentAt | Stroustrup_PPP/calculator_ch7/calculator.cpp:211-219 | in the extended calculator, a declared word then `=` is the assignment: the next token's value is stored and that token is returned |
| Streams.Get | Stroustrup_PPP/Ch7/calculator.cpp:119-121 | `get()` empties the buffer, consumes on success, fails only with "Bad token" or end of input, and keeps the names (in `Ch7`, the whole table) |
| Streams.Unget | Stroustrup_PPP/Ch7/calculator.cpp:110-115 | `unget(t)` succeeds exactly when the buffer is empty, then holds `t`; otherwise it is "putback() into a full buffer" and nothing changes |
| Streams.IgnoreEnd | Stroustrup_PPP/Ch7/calculator.cpp:178-180 | the discarding loop never moves backwards and stays within the input |
| Streams.Ignore | Stroustrup_PPP/Ch7/calculator.cpp:168-181 | `ignore(c)` empties the buffer, reads no further than the input, and keeps the table |
| Streams.GetFromFullBuffer | Stroustrup_PPP/Ch7/calculator.cpp:121 | with a full buffer, `get()` returns the buffered token and reads no character |
| Streams.UngetThenGet | Stroustrup_PPP/Ch7/calculator.cpp:110-121 | a token put back is the next token read, and nothing else changes |
| Streams.IgnoreEndStops | Stroustrup_PPP/Ch7/calculator.cpp:178-180 | `ignore(c)` stops just after the first `c`, or at the end of input when there is none |
| Streams.IgnoreResynchronises | Stroustrup_PPP/Ch7/calculator.cpp:168-181 | after `ignore(c)`, either the buffered token was the `c`, or the input up to and including the first `c` (or all of it) is gone |
| Streams.IgnoreEndAtFirst | Stroustrup_PPP/Ch7/calculator.cpp:178-180 | the first `c` at or after the cursor is exactly where `ignore(c)` stops |
| Grammar.CRem | Stroustrup_PPP/calculator_ch7/calculator.cpp:317-324 | C++ `%` on `int` satisfies `a == (a/b)*b + a%b`, has the sign of `a`, and is smaller than `b` in magnitude |
| Grammar.Expect | Stroustrup_PPP/calculator_ch7/calculator.cpp:257-262 | demanding a token kind consumes on success and keeps the names |
| Grammar.Primary | Stroustrup_PPP/calculator_ch7/calculator.cpp:253-297 | `primary()` only moves forward, consumes on success, never raises the double pushback, keeps the names (in `Ch7`, the table), and leaves the buffer empty on success |
| Grammar.SqrtCall | Stroustrup_PPP/calculator_ch7/calculator.cpp:271-280 | the `sqrt(...)` branch only moves forward, consumes on success and keeps the names |
| Grammar.PowCall | Stroustrup_PPP/calculator_ch7/calculator.cpp:281-293 | the `pow(...,...)` branch only moves forward, consumes on success and keeps the names |
| Grammar.Term | Stroustrup_PPP/Ch7/calculator.cpp:260-288 | `term()` only moves forward, consumes on success, and leaves in the buffer a token that is not `*`, `/` or `%`; its values are stated by `GrammarFacts.TermTailFold` |
| Grammar.TermTail | Stroustrup_PPP/calculator_ch7/calculator.cpp:302-330 | the loop of `term()` ends only by pushing back a token that is not `*`, `/` or `%` |
| Grammar.Remainder | Stroustrup_PPP/calculator_ch7/calculator.cpp:317-324 | the `%` case only moves forward, consumes on success and keeps the names |
| Grammar.Expression | Stroustrup_PPP/Ch7/calculator.cpp:292-310 | `expression()` only moves forward, consumes on success, and leaves in the buffer a token that is not `+` or `-`; its values are stated by `GrammarFacts.ExprTailFold` |
| Grammar.ExprTail | Stroustrup_PPP/calculator_ch7/calculator.cpp:334-352 | the loop of `expression()` ends only by pushing back a token that is not `+` or `-` |
| Grammar.Declaration | Stroustrup_PPP/Ch7/calculator.cpp:316-327 | a successful `declaration()` appends one fresh name whose value is the result (in `Ch7`, nothing else changes); a failed one keeps the names |
| Grammar.DefineDeclares | Stroustrup_PPP/Ch7/calculator.cpp:324-325 | the `push_back` of a fresh name is a declaration of that value |
| Grammar.GrowsKeepsUnique | Stroustrup_PPP/Ch7/calculator.cpp:316-341 | the way a statement may grow the table keeps the names unique |
| Grammar.Statement | Stroustrup_PPP/Ch7/calculator.cpp:331-341 | `statement()` only adds a fresh name, keeps the names on failure, keeps them unique, and never raises the double pushback |
| Grammar.SkipPrints | Stroustrup_PPP/Ch7/calculator.cpp:357-358 | skipping `;`s ends at a token that is not `;`, or at a lexing error |
| Grammar.Round | Stroustrup_PPP/Ch7/calculator.cpp:357-361 | one round consumes input unless it quits or hits the end of input, never reports the double pushback, and a failed round keeps the names (in `Ch7`, the table) |
| Grammar.Calculate | Stroustrup_PPP/Ch7/calculator.cpp:353-367 | the session never moves the stream backwards, and each output it produces is paid for by consumed input |
| Grammar.CalculateReportable | Stroustrup_PPP/Ch7/calculator.cpp:353-367 | no output of a whole session is the double pushback or the end of input |
| Grammar.CalculateKeepsNames | Stroustrup_PPP/Ch7/calculator.cpp:353-367 | over a whole session the names stay unique, and names are only ever added |
| Grammar.Predefined | Stroustrup_PPP/calculator_ch7/calculator.cpp:423-425 | the names start unique with `pi` = 3.1415926535 and `e` = 2.7182818284, and `k` = 1000 exactly in the extended calculator |
| Grammar.Start | Stroustrup_PPP/Ch7/calculator.cpp:375-380 | `main` starts `calculate()` at the start of the input with an empty buffer and the predefined names, unique, `pi` and `e` holding their values and `k` declared exactly in the extended calculator |
| Grammar.Run | Stroustrup_PPP/calculator_ch7/calculator.cpp:422-427 | a whole run keeps the names unique, never loses a predefined name, reports no end of input or double pushback, and produces at most two outputs per input character |
| Calculator.TokenStream.constructor | Stroustrup_PPP/Ch7/calculator.cpp:99 | a new stream is unbuffered at the start of its input |
| Calculator.TokenStream.Get | Stroustrup_PPP/calculator_ch7/calculator.cpp:167-223 | the object and the vector end as `Streams.Get` says, with the same token or error |
| Calculator.TokenStream.Read | Stroustrup_PPP/calculator_ch7/calculator.cpp:171-222 | reading characters ends as `Lex` says |
| Calculator.TokenStream.ReadName | Stroustrup_PPP/calculator_ch7/calculator.cpp:201-221 | the identifier branch, including assignment through `set_value`, ends as `LexName` says |
| Calculator.TokenStream.ReadAfterWord | Stroustrup_PPP/calculator_ch7/calculator.cpp:210-220 | after a word, a declared name followed by `=` reads the next token and stores its value with `set_value`; otherwise the word is a name token; the outcome, the position and the table are those `NameOrAssignment` gives, and the buffer stays empty |
| Calculator.TokenStream.Unget | Stroustrup_PPP/calculator_ch7/calculator.cpp:137-142 | the object ends as `Streams.Unget` says |
| Calculator.TokenStream.Ignore | Stroustrup_PPP/calculator_ch7/calculator.cpp:227-240 | the object ends as `Streams.Ignore` says |
| Calculator.Expect | Stroustrup_PPP/calculator_ch7/calculator.cpp:257-262 | ends as `Grammar.Expect` says |
| Calculator.Primary | Stroustrup_PPP/calculator_ch7/calculator.cpp:253-297 | ends with the result and state of `Grammar.Primary` |
| Calculator.Term | Stroustrup_PPP/calculator_ch7/calculator.cpp:302-330 | the `while` loop ends with the result and state of `Grammar.Term` |
| Calculator.Remainder | Stroustrup_PPP/calculator_ch7/calculator.cpp:317-324 | ends with the result and state of `Grammar.Remainder` |
| Calculator.Expression | Stroustrup_PPP/calculator_ch7/calculator.cpp:334-352 | the `while` loop ends with the result and state of `Grammar.Expression` |
| Calculator.Declaration | Stroustrup_PPP/calculator_ch7/calculator.cpp:358-369 | ends with the result and state of `Grammar.Declaration` |
| Calculator.Statement | Stroustrup_PPP/calculator_ch7/calculator.cpp:373-383 | ends with the result and state of `Grammar.Statement` |
| Calculator.Round | Stroustrup_PPP/calculator_ch7/calculator.cpp:398-404 | ends as `Grammar.Round` says: quit, a value, or an error |
| Calculator.Calculate | Stroustrup_PPP/calculator_ch7/calculator.cpp:395-410 | the loop prints exactly the outputs of `Grammar.Calculate` and ends as it does |
| Calculator.Attempt | Stroustrup_PPP/calculator_ch7/calculator.cpp:397-409 | one pass of the loop ends the session exactly when the round quits or meets the end of input; otherwise it yields the round's value, or its error after `clean_up_mess` has resynchronised the stream |
| Calculator.Run | Stroustrup_PPP/calculator_ch7/calculator.cpp:414-437 | predefining the names and running `calculate()` gives exactly `Grammar.Run` |
| GrammarFacts.DeclarationKeepsUnique | Stroustrup_PPP/Ch7/calculator.cpp:316-327 | `declaration()` keeps the names unique, whether it succeeds or fails |
| GrammarFacts.DeclarationAppends | Stroustrup_PPP/Ch7/calculator.cpp:316-327 | a successful declaration read an undeclared name, appends exactly `Variable(name, value)`, and in `Ch7` changes nothing else |
| GrammarFacts.DeclarationOfDeclaredName | Stroustrup_PPP/Ch7/calculator.cpp:320-321 | declaring a declared name fails with "declared twice" right after the name, keeping the names |
| GrammarFacts.DivisionByZeroFails | Stroustrup_PPP/Ch7/calculator.cpp:269-274 | `/` by a zero primary fails with "divide by zero" |
| GrammarFacts.RemainderByZeroFails | Stroustrup_PPP/calculator_ch7/calculator.cpp:317-324 | `%` by a term that converts to 0 fails with "%: divide by zero" |
| GrammarFacts.RemainderValue | Stroustrup_PPP/calculator_ch7/calculator.cpp:317-324 | `%` of convertible operands yields the C++ remainder of the converted values |
| GrammarFacts.SqrtOfNegativeFails | Stroustrup_PPP/calculator_ch7/calculator.cpp:271-280 | `sqrt` of a negative argument fails with "Can't take sqrt of negative number" |
| GrammarFacts.UnaryMinus | Stroustrup_PPP/Ch7/calculator.cpp:244-245 | unary minus yields the negation of the following primary |
| GrammarFacts.UnaryPlus | Stroustrup_PPP/calculator_ch7/calculator.cpp:265-266 | unary plus yields the following primary unchanged |
| GrammarFacts.PrimaryExpectedOtherwise | Stroustrup_PPP/calculator_ch7/calculator.cpp:253-297 | any token that cannot start a primary fails with "primary expected" |
| GrammarFacts.MissingRightParen | Stroustrup_PPP/Ch7/calculator.cpp:238-243 | a `(` expression without `)` fails with "'(' expected" in `Ch7` and with "')' expected" in the extended calculator |
| GrammarFacts.ParenthesizedPrimary | Stroustrup_PPP/Ch7/calculator.cpp:238-243 | `(` expression `)` is a primary with the value of the expression, the `)` consumed |
| GrammarFacts.SqrtWithoutLParen | Stroustrup_PPP/calculator_ch7/calculator.cpp:271-273 | `sqrt` not followed by `(` fails with "'(' expected" |
| GrammarFacts.SqrtCloses | Stroustrup_PPP/calculator_ch7/calculator.cpp:274-279 | after `sqrt(` and an expression, a token other than `)` fails with "')' expected", a negative argument fails, and otherwise the value is `sqrt` of the argument |
| GrammarFacts.PowWithoutLParen | Stroustrup_PPP/calculator_ch7/calculator.cpp:281-283 | `pow` not followed by `(` fails with "'(' expected" |
| GrammarFacts.PowWithoutComma | Stroustrup_PPP/calculator_ch7/calculator.cpp:284-287 | after `pow(` and an expression, a token other than `,` fails with "',' expected" |
| GrammarFacts.PowCloses | Stroustrup_PPP/calculator_ch7/calculator.cpp:288-292 | after `pow(p,` and an expression `i`, a `)` gives `pow(p, i)` and any other token fails with "')' expected" |
| GrammarFacts.DeclarationWithoutName | Stroustrup_PPP/Ch7/calculator.cpp:318-319 | a declaration whose first token is not a name fails with "name expected in declaration" and keeps the names |
| GrammarFacts.DeclarationWithoutEquals | Stroustrup_PPP/Ch7/calculator.cpp:322-323 | a fresh name not followed by `=` fails with "= missing in declaration of" that name |
| GrammarFacts.TermTailFold | Stroustrup_PPP/Ch7/calculator.cpp:263-287 | the loop of `term()` over any run of `*` and `/` operands, none dividing by zero, yields the left-to-right fold `((left op1 v1) op2 v2) ...` and puts back the token after them |
| GrammarFacts.TermFoldCons | Stroustrup_PPP/Ch7/calculator.cpp:263-274 | the fold applies the first operator first |
| GrammarFacts.TermLinksCons | Stroustrup_PPP/Ch7/calculator.cpp:263-274 | a run of `*`/`/` operands read one after another grows at the front by the pair read first |
| GrammarFacts.ExprTailFold | Stroustrup_PPP/Ch7/calculator.cpp:295-309 | the loop of `expression()` over any run of `+` and `-` operands yields the left-to-right fold, so `a-b-c` is `(a-b)-c`, and puts back the token after them |
| GrammarFacts.ExprFoldCons | Stroustrup_PPP/Ch7/calculator.cpp:295-303 | the fold applies the first operator first |
| GrammarFacts.ExprLinksCons | Stroustrup_PPP/Ch7/calculator.cpp:295-303 | a run of `+`/`-` operands read one after another grows at the front by the pair read first |
| GrammarFacts.CalculateRecovers | Stroustrup_PPP/Ch7/calculator.cpp:345-367 | after an error the session reports it, discards up to the next `;`, and goes on with the same names (in `Ch7`, the same table) |
| Scenarios.TermTailOver | Stroustrup_PPP/Ch7/calculator.cpp:269-273 | a `/` by a non-zero primary divides the value so far and the loop of `term()` goes on |
| Scenarios.ExprTailMinus | Stroustrup_PPP/Ch7/calculator.cpp:301-303 | a `-` subtracts the following term from the value so far and the loop of `expression()` goes on |
| Scenarios.PrecedenceSession | Stroustrup_PPP/Ch7/calculator.cpp:260-310 | in `Ch7`, `2+3*4;` prints 14, because `*` binds tighter than `+`, and then the input ends |
| Scenarios.LastNumberSession | Stroustrup_PPP/Ch7/calculator.cpp:353-367 | a last statement that is a number literal prints its value, and then the input ends |
| Scenarios.UnclosedParenSession | Stroustrup_PPP/Ch7/calculator.cpp:238-243 | in `Ch7`, `(1;2;3;` reports "'(' expected", loses the statement `2`, and prints 3 |
| Scenarios.AssignmentSession | Stroustrup_PPP/calculator_ch7/calculator.cpp:211-219 | `pi=3;pi;` prints 3 twice, `pi` holds 3 afterwards, and no name is added |
| Scenarios.RedeclarationSession | Stroustrup_PPP/Ch7/calculator.cpp:316-327 | in `Ch7`, `let pi=1;pi;` reports "pi declared twice" and then prints the predefined value of `pi` |
| Scenarios.SubtractionSession | Stroustrup_PPP/Ch7/calculator.cpp:292-310 | in both calculators, `8-3-2;` prints 3: `-` groups to the left |
| Scenarios.DivisionSession | Stroustrup_PPP/Ch7/calculator.cpp:260-288 | in both calculators, `20/4/5;` prints 1: `/` groups to the left |
| Scenarios.GroupingSession | Stroustrup_PPP/Ch7/calculator.cpp:238-243 | in both calculators, `(2+3)*4;` prints 20: the parenthesised sum is one primary |
| Scenarios.ExtendedRedeclarationSession | Stroustrup_PPP/calculator_ch7/calculator.cpp:211-216 | in the extended calculator, `let pi=1;pi;` assigns 1 to `pi` while reading the token after `let`, reports "name expected in declaration", then prints 1 |
| Scenarios.QuitSession | Stroustrup_PPP/Ch7/calculator.cpp:353-367 | in `Ch7`, `1;q` prints 1 and quits |
| Chrono.MonthNamed | Stroustrup_PPP/Date_class_ch9/Chrono.h:20-22 | an `int` names an enumerator exactly when it is in 1..12, and that enumerator has that number |
| Chrono.MonthNumbering | Stroustrup_PPP/Date_class_ch9/Chrono.h:20-22 | the enumerators are numbered 1 (`jan`) to 12 (`dec`), one to one |
| Chrono.LeapYear | Stroustrup_PPP/Date_class_ch9/Chrono.cpp:92-96 | a leap year is divisible by 4; every multiple of 400 is one, a multiple of 4 that is not one of 100 is one, and a multiple of 100 that is not one of 400 is not |
| Chrono.LeapYearsThroughFormula | Stroustrup_PPP/Date_class_ch9/Chrono.cpp:92-96 | counting the years that `leapyear` accepts among 1..n gives `n/4 - n/100 + n/400` |
| Chrono.LeapYearsPerCycle | Stroustrup_PPP/Date_class_ch9/Chrono.cpp:92-96 | every 400 consecutive years hold exactly 97 leap years |
| Chrono.DaysInMonth | Stroustrup_PPP/Date_class_ch9/Chrono.cpp:68-88 | the month length `is_date` computes is between 28 and 31 |
| Chrono.DaysInMonthTable | Stroustrup_PPP/Date_class_ch9/Chrono.cpp:68-88 | the `switch` agrees with the calendar's month lengths, with February gaining a day in a leap year, and gives 31 to a number that names no month |
| Chrono.YearLength | Stroustrup_PPP/Date_class_ch9/Chrono.cpp:68-96 | the twelve month lengths add up to 366 days in a leap year and 365 otherwise |
| Chrono.IsDate | Stroustrup_PPP/Date_class_ch9/Chrono.cpp:68-88 | a valid day is in 1..31, days 1..28 are always valid, February accepts exactly 1..29 in a leap year and 1..28 otherwise, and April, June, September and November accept exactly 1..30 |
| Chrono.UnnamedMonthIsDate | Stroustrup_PPP/Date_class_ch9/Chrono.cpp:68-88 | `is_date` does not check the month: for a number naming no month, it accepts exactly the days 1..31 |
| Chrono.DefaultDate | Stroustrup_PPP/Date_class_ch9/Chrono.cpp:24-28 | `default_date()` is 1 January 2001, and it is valid |
| Chrono.YearsAdded | Stroustrup_PPP/Date_class_ch9/Chrono.cpp:55-62 | `set_year(n)` moves the year by exactly `n` |
| Chrono.YearsAddedKeepsValid | Stroustrup_PPP/Date_class_ch9/Chrono.cpp:55-62 | `set_year` keeps a valid date valid, keeps month and day, and makes 29 February in a common year 1 March |
| Chrono.YearsAddedUndone | Stroustrup_PPP/Date_class_ch9/Chrono.cpp:55-62 | `set_year(n)` then `set_year(-n)` restores every date, except a 29 February that was moved to a common year |
| Chrono.Date.Year | Stroustrup_PPP/Date_class_ch9/Chrono.h:33 | `year()` returns the stored year |
| Chrono.Date.Month | Stroustrup_PPP/Date_class_ch9/Chrono.h:32 | `month()` returns the stored month |
| Chrono.Date.Day | Stroustrup_PPP/Date_class_ch9/Chrono.h:31 | `day()` returns the stored day |
| Chrono.Date.constructor | Stroustrup_PPP/Date_class_ch9/Chrono.cpp:32-37 | `Date()` holds `default_date()` |
| Chrono.Date.Checked | Stroustrup_PPP/Date_class_ch9/Chrono.cpp:16-20 | the initialisers store the three arguments |
| Chrono.Date.SetDay | Stroustrup_PPP/Date_class_ch9/Chrono.cpp:41-44 | `set_day(n)` changes only the day, without a validity check |
| Chrono.Date.SetMonth | Stroustrup_PPP/Date_class_ch9/Chrono.cpp:48-51 | `set_month(n)` changes only the month, without a validity check |
| Chrono.Date.SetYear | Stroustrup_PPP/Date_class_ch9/Chrono.cpp:55-62 | `set_year(n)` leaves the date `YearsAdded` gives |
| Chrono.NewDate | Stroustrup_PPP/Date_class_ch9/Chrono.cpp:16-20 | `Date(y, m, d)` throws `Invalid` exactly when `is_date` fails, and otherwise holds the three arguments |
| Chrono.Equal | Stroustrup_PPP/Date_class_ch9/Chrono.cpp:100-105 | `==` holds exactly when the two dates have the same state |
| Chrono.NotEqual | Stroustrup_PPP/Date_class_ch9/Chrono.cpp:109-112 | `!=` holds exactly when some field differs |
| Chrono.Digits | Stroustrup_PPP/Date_class_ch9/Chrono.cpp:117-123 | the decimal text of a number is a non-empty run of digits |
| Chrono.IntToStringDigits | Stroustrup_PPP/Date_class_ch9/Chrono.cpp:119-121 | the text of an `int` is non-empty, starts with `-` exactly for a negative number, and after the optional `-` is a non-empty run of digits |
| Chrono.FormatDelimiters | Stroustrup_PPP/Date_class_ch9/Chrono.cpp:117-123 | the text `<<` writes is at least 7 characters, `(` first and `)` last, with exactly two `,` |
| Chrono.NoCommaInNumber | Stroustrup_PPP/Date_class_ch9/Chrono.cpp:119-121 | the text of a number holds no `,` |
| Chrono.ReadChar | Stroustrup_PPP/Date_class_ch9/Chrono.cpp:131 | `is >> ch` consumes at least one character and stays within the input |
| Chrono.ReadCharSkipsSpace | Stroustrup_PPP/Date_class_ch9/Chrono.cpp:131 | `is >> ch` yields the first non-blank character after the cursor, skipping only white space, and fails exactly when only white space is left |
| Chrono.ReadInt | Stroustrup_PPP/Date_class_ch9/Chrono.cpp:127-139 | `is >> n` yields a 32-bit value and consumes at least one character |
| Chrono.ReadFields | Stroustrup_PPP/Date_class_ch9/Chrono.cpp:127-132 | the seven extractions consume input and stay within it |
| Chrono.ReadDate | Stroustrup_PPP/Date_class_ch9/Chrono.cpp:127-139 | `>>` fails the stream and keeps the date on a failed extraction or a wrong delimiter, throws and keeps it on an invalid date, and otherwise stores the fields read |
| Chrono.DigitsRoundTrip | Stroustrup_PPP/Date_class_ch9/Chrono.cpp:117-139 | reading back the decimal text of a number gives that number |
| Chrono.ReadIntOfText | Stroustrup_PPP/Date_class_ch9/Chrono.cpp:117-139 | `is >> n` reads back what `os << n` wrote, when the next character is not a digit |
| Chrono.FormatThenReadFields | Stroustrup_PPP/Date_class_ch9/Chrono.cpp:117-139 | the text `<<` writes for a date whose fields fit in an `int` reads back, whatever follows, as those fields with the right delimiters |
| Chrono.FormatThenReadDate | Stroustrup_PPP/Date_class_ch9/Chrono.cpp:117-139 | writing a valid date and reading it back into any `Date` yields the same date |
| Chrono.FormatOfInvalidDateThrows | Stroustrup_PPP/Date_class_ch9/Chrono.cpp:117-139 | the text of an invalid date (made with `set_day` or `set_month`) reads back well delimited, but the constructor throws |
| Chrono.WrongOpeningFails | Stroustrup_PPP/Date_class_ch9/Chrono.cpp:127-136 | text whose first non-blank character is not `(` never extracts a date |

## Left out

- Console I/O is not modelled:
  - the prompt `> ` and the result marker `= `;
  - the text of the diagnostics the session prints;
  - `main`'s exception handlers and exit codes;
  - `keep_window_open`.
  
  The input is a fixed character sequence. A session is its list of `Printed`/`Reported` outputs and how it ended.
- The end of input is modelled as its own outcome, `EndOfInput`, and it ends the session. At end of file the source's `cin >> ch` leaves `ch` unusable; the model does not follow that behaviour.
- The value of a floating-point literal is a parameter (`Dialect.numeral`). `Lexing.NumberEnd` fixes which characters the model takes as the literal: digits, an optional `.` and digits, and an exponent only when digits follow the `e`/`E` and its optional sign.
- Lexing.NumberEnd: a malformed literal is not modelled as the failure it is in the source. For `2e;` or `2e+;`, the library's `num_get` consumes the `e` and the sign as well, then fails: `val` becomes 0 and the stream's failbit is set, so every later read fails too. A lone `.` fails in the same way. The model instead ends the literal before an exponent marker without digits, so `2e;` is the number 2 followed by the name `e` (the predefined `e` in `Extended`), and it gives `.` the value `numeral(".")`. A failed `cin` is not modelled anywhere in the calculator.
- Lexing.ExponentEnd: for the same reason, an `e`/`E` without digits after it is left in the input rather than consumed.
- `sqrt`, `pow` and `narrow_cast<int>` call library code. They are parameters (`Maths`).
- Doubles are exact reals. Rounding, infinities and NaN are not modelled.
- `Lexing.NameToken`: the source leaves a name token's `value` uninitialised, and the model reads it as 0. This value matters only to the extended calculator's assignment. For example, `x = y` stores whatever the name token `y` carries.
- `int` widths:
  - `Chrono.Date.SetYear`: `y + n` is computed without 32-bit overflow;
  - the `Date` fields are unbounded;
  - `Grammar.Remainder`: the `int` `%` assumes that the parameter `narrow` returns `int`-range values.
  
  `>>` does check that each number it reads fits in 32 bits.
- `Chrono.ReadDate`: when an extraction fails, the cursor's position is not stated; the stream is reported failed. The model does not model that a failed stream refuses further extractions.
- Chrono.cpp has a `Day` enum, and the `default_date` result is a function-local `static`. Neither is observable through the class, so neither is modelled. `date_test_main.cpp` is not part of this model.
- Sessions on concrete inputs (`Scenarios`) are proved for a handful of inputs only. The general properties are in `GrammarFacts` and in the contracts of `Grammar`.

## Findings

| source | as written | input that shows it | evidently intended | confidence | as-written member | corrected member |
|---|---|---|---|---|---|---|
| Stroustrup_PPP/Ch7/calculator.cpp:208 (also Stroustrup_PPP/calculator_ch7/calculator.cpp:148) | `set_value`'s loop runs while `i<=var_names.size()`, so for a name that is not in the table it reads `var_names[var_names.size()]`, past the end, before it reaches "set: undefined name" | `set_value("x", 1)` on the predefined table `pi`, `e`, which has no `x`; neither program makes this call: `Ch7` never calls `set_value`, and the extended calculator calls it only at Stroustrup_PPP/calculator_ch7/calculator.cpp:215, after `is_declared` succeeded at :213 | loop while `i<var_names.size()`, then report "set: undefined name" | not executed | Symbols.AsWrittenSetValueOverruns | Symbols.SymbolTable.SetValue |
