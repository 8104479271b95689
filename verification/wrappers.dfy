/** Failure-compatible result types shared by every stage of the interpreter.

    The host reports every failure by throwing or by exiting the process;
    none of them is recoverable, so a single `Err` outcome carrying the kind
    of failure stands for all of them.
 */
module Wrappers {

  datatype Option<+T> = None | Some(value: T)

  /** Why a run stopped. */
  datatype Error =
      /** An unrecognised character (lexer). */
    | LexError(ch: char, file: string, line: int)
      /** An empty program text: the host's character split yields a single
          empty string, which no branch of the scanner recognises. */
    | EmptySource
      /** The host would throw a TypeError (a field read on `undefined`). */
    | TypeError(context: string)
      /** An expected token was missing, or a construct is malformed (parser). */
    | ParseError(message: string)
      /** A `throw` of the evaluator: unresolved name, constant reassignment,
          operand of the wrong kind, wrong argument count. */
    | RuntimeError(message: string)
      /** A node kind the dispatcher has no case for (the host exits). */
    | NotImplemented(kind: string)
      /** A behaviour of the host the model does not cover (floating point,
          host string coercions, member-chain rewriting). */
    | Unsupported(what: string)
      /** A built-in that performs I/O or reads the clock. */
    | HostCall(name: string)
      /** The evaluator's step budget ran out (the program may not terminate). */
    | OutOfFuel

  datatype Result<+T> = Ok(value: T) | Err(error: Error) {

    predicate IsFailure() {
      Err?
    }

    function PropagateFailure<U>(): Result<U>
      requires Err?
    {
      Err(error)
    }

    function Extract(): T
      requires Ok?
    {
      value
    }
  }
}
