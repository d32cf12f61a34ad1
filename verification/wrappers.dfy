/** Failure-compatible result type used by every generator.

    The translator aborts the run (`eprintln!` followed by `panic!`) on every
    malformed input; here that abort is the `Fatal` value, carrying the
    diagnostic whose message the program prints. */
module Wrappers {

  datatype Option<+T> = None | Some(value: T)

  /** The diagnostics the translator prints before it aborts, one
      constructor per message text. */
  datatype Diagnostic =
    | BadSyntax
    | PopConstant
    | UnknownError
    | UnknownBranchKeyword(keyword: string)
    | UnwrapNone
    | ExtraWord
    | MissingArgument
    | UnknownCommand
    | PopConstantLine
    | UnknownSegment(segment: string)
    | BadIndex(index: string)

  /** The text printed for a diagnostic, spelling included. */
  function Message(d: Diagnostic): string {
    match d
    case BadSyntax => "[ERROR] bad syntax."
    case PopConstant => "[ERROR] bad syntax. Cannot pop a constant."
    case UnknownError => "[ERROR] unkown error."
    case UnknownBranchKeyword(keyword) =>
      "[ERROR] keyword " + keyword + " cannot be recognized as a branching command."
    case UnwrapNone => "called `Option::unwrap()` on a `None` value"
    case ExtraWord =>
      "[ERROR] bad syntax. Line starts with an arithmetic operation but includes more than one word."
    case MissingArgument =>
      "[ERROR] bad syntax. Line includes memory access operator but doesn't include one of the following arguments: a memory segment or an index."
    case UnknownCommand =>
      "[ERROR] bad syntax. First word in the line is neither a memory access command nor an arithmetic/logical operator."
    case PopConstantLine => "[ERROR] bad syntax. Cannot use pop with `constant`."
    case UnknownSegment(segment) =>
      "[ERROR] bad syntax. Memory segment " + segment + " does not exist or is not supported."
    case BadIndex(index) =>
      "[ERROR] bad syntax. Index " + index + " cannot be parsed as an unsigned integer."
  }

  datatype Result<+T> = Ok(value: T) | Fatal(error: Diagnostic) {

    predicate IsFailure() {
      Fatal?
    }

    function PropagateFailure<U>(): Result<U>
      requires Fatal?
    {
      Fatal(error)
    }

    function Extract(): T
      requires Ok?
    {
      value
    }
  }
}
