/** The calculator's error outcomes. In the source every one of them is raised with `error(...)`
    (a `runtime_error`) and unwinds to the session loop; here each is a value of `Error`, and an
    operation that can raise one returns a `Result`. */
module Errors {

  datatype Error =
    | BadToken                  // "Bad token": a character no token starts with
    | EndOfInput                // the character source is exhausted
    | PutbackFull               // "putback() into a full buffer"
    | PrimaryExpected           // "primary expected"
    | LParenExpected            // "'(' expected"
    | RParenExpected            // "')' expected"
    | CommaExpected             // "',' expected. ..."
    | NameExpected              // "name expected in declaration"
    | DeclaredTwice(name: string)   // "<name> declared twice"
    | EqualsMissing(name: string)   // "= missing in declaration of <name>"
    | GetUndefined(name: string)    // "get: undefined name <name>"
    | SetUndefined(name: string)    // "set: undefined name <name>"
    | DivideByZero              // "divide by zero"
    | ModDivideByZero           // "%: divide by zero"
    | SqrtNegative              // "Can't take sqrt of negative number"
    | NarrowingLoss             // narrow_cast<int> refused the value

  /** Either a value or the error that was raised instead; usable with `:-`. */
  datatype Result<+T> = Ok(value: T) | Err(error: Error) {
    predicate IsFailure() { Err? }
    function PropagateFailure<U>(): Result<U>
      requires Err?
    {
      Err(error)
    }
    function Extract(): T
      requires Ok?
    {
      value
    }
  }

  datatype Option<+T> = None | Some(value: T)
}
