/** `Token_stream` as a value: the characters, the cursor, the one-token buffer (`full`,
    `buffer`) and, because the extended calculator assigns while reading, the symbol table.
    `Get`, `Unget` and `Ignore` are the three member functions as state transformers. */
module Streams {
  import opened Errors
  import opened Symbols
  import opened Lexing

  datatype State = State(input: string, pos: nat, full: bool, buffer: Token, table: seq<Variable>)

  /** An operation's outcome (a value, or the error that was raised) and the state it left. */
  datatype Step<T> = Step(out: Result<T>, st: State)

  /** Every successful read makes this smaller; a pushback, which follows a read, adds one. */
  function Measure(st: State): nat {
    2 * Rem(st.input, st.pos) + (if st.full then 1 else 0)
  }

  /** `Token_stream::get()`: the buffered token if there is one, else the next token read. */
  function Get(d: Dialect, st: State): (r: Step<Token>)
    ensures !r.st.full && r.st.input == st.input
    ensures Measure(r.st) <= Measure(st)
    ensures r.out.Ok? || r.out.error != EndOfInput ==> Measure(r.st) < Measure(st)
    ensures r.out.Err? ==> r.out.error == EndOfInput || r.out.error == BadToken
    ensures Names(r.st.table) == Names(st.table)
    ensures d.variant == Ch7 ==> r.st.table == st.table
  {
    if st.full then Step(Ok(st.buffer), st.(full := false))
    else
      var l := Lex(d, st.input, st.pos, st.table);
      Step(l.out, st.(pos := l.pos, table := l.table))
  }

  /** `Token_stream::unget(t)`: a second pushback before the next read is an error. */
  function Unget(st: State, t: Token): (r: Step<()>)
    ensures r.out.Ok? <==> !st.full
    ensures r.out.Ok? ==> r.st == st.(full := true, buffer := t)
    ensures r.out.Err? ==> r.out.error == PutbackFull && r.st == st
  {
    if st.full then Step(Err(PutbackFull), st) else Step(Ok(()), st.(full := true, buffer := t))
  }

  /** Where `while (cin >> ch) if (ch == c) return;` leaves the cursor. */
  function IgnoreEnd(s: string, i: nat, c: char): (e: nat)
    ensures i <= e && (i <= |s| ==> e <= |s|)
    decreases Rem(s, i)
  {
    var j := SkipSpace(s, i);
    if j >= |s| then j
    else if s[j] == c then j + 1
    else IgnoreEnd(s, j + 1, c)
  }

  /** `Token_stream::ignore(c)`: a buffered token of kind `c` is all that is discarded;
      otherwise the buffer is emptied and characters are read up to and including `c`. */
  function Ignore(st: State, c: char): (r: State)
    ensures !r.full && r.input == st.input && r.table == st.table
    ensures Measure(r) <= Measure(st)
  {
    if st.full && c == st.buffer.kind then st.(full := false)
    else st.(full := false, pos := IgnoreEnd(st.input, st.pos, c))
  }

  /** `get()` with a full buffer returns exactly the buffered token, empties the buffer and
      reads no characters. */
  lemma GetFromFullBuffer(d: Dialect, st: State)
    requires st.full
    ensures Get(d, st) == Step(Ok(st.buffer), st.(full := false))
  {
  }

  /** A token put back is the next token read, and nothing else about the stream changes. */
  lemma UngetThenGet(d: Dialect, st: State, t: Token)
    requires !st.full
    ensures Get(d, Unget(st, t).st) == Step(Ok(t), st.(buffer := t))
  {
  }

  /** `ignore(c)` consumes input up to and including the first `c` it reads, or all of it. */
  lemma {:induction false} IgnoreEndStops(s: string, i: nat, c: char)
    requires i <= |s| && !IsSpace(c)
    ensures var e := IgnoreEnd(s, i, c);
            (i < e && s[e - 1] == c && forall k :: i <= k < e - 1 ==> s[k] != c) ||
            (e == |s| && forall k :: i <= k < |s| ==> s[k] != c)
    decreases |s| - i
  {
    var j := SkipSpace(s, i);
    if j < |s| && s[j] != c {
      IgnoreEndStops(s, j + 1, c);
    }
  }

  /** After `ignore(c)` the buffer is empty, and either the buffered token was the `c` or the
      characters up to and including the first `c` (or all of them) have been consumed. */
  lemma IgnoreResynchronises(st: State, c: char)
    requires st.pos <= |st.input| && !IsSpace(c)
    ensures var r := Ignore(st, c);
            !r.full &&
            ((st.full && st.buffer.kind == c && r.pos == st.pos) ||
             (st.pos < r.pos && st.input[r.pos - 1] == c &&
              forall k :: st.pos <= k < r.pos - 1 ==> st.input[k] != c) ||
             (r.pos == |st.input| && forall k :: st.pos <= k < |st.input| ==> st.input[k] != c))
  {
    IgnoreEndStops(st.input, st.pos, c);
  }

  /** Conversely, the first `c` at or after `i` is where `ignore(c)`'s reading stops. */
  lemma {:induction false} IgnoreEndAtFirst(s: string, i: nat, j: nat, c: char)
    requires i <= j < |s| && s[j] == c && !IsSpace(c)
    requires forall k :: i <= k < j ==> s[k] != c
    ensures IgnoreEnd(s, i, c) == j + 1
    decreases j - i
  {
    var k := SkipSpace(s, i);
    if k < j {
      IgnoreEndAtFirst(s, k + 1, j, c);
    }
  }
}
