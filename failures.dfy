/**
 * Fail-fast outcomes. Each phase of the original throws an exception at its
 * first error; here the error is a value tagged with the phase that raised it.
 */
module Failures {
  import opened Tokens

  datatype Phase = Lexical | Syntactic | Semantic | Dispatch

  datatype Error =
    /** The lexer met a character it cannot start a token with (or a `.` right after digits). */
    | UnexpectedCharacter(ch: char, line: int)
    /** `eat` found a token of another kind than the one it expected. */
    | UnexpectedToken(expected: Kind, found: Token, line: int)
    /** A statement list was followed directly by an identifier. */
    | UnexpectedIdentifier(found: Token, line: int)
    | DuplicateProcedure(name: string)
    | DuplicateVariable(name: string)
    | UndeclaredVariable(name: string)
    | UndeclaredProcedure(name: string)
    /** The analyzer was asked to visit a node class it has no handler for. */
    | NoVisitor(className: string)
  {
    function PhaseOf(): Phase
    {
      match this
      case UnexpectedCharacter(_, _) => Lexical
      case UnexpectedToken(_, _, _) => Syntactic
      case UnexpectedIdentifier(_, _) => Syntactic
      case NoVisitor(_) => Dispatch
      case _ => Semantic
    }
  }

  /** A result or the first error; usable with `:-`. */
  datatype Result<T> = Ok(value: T) | Err(error: Error)
  {
    predicate IsFailure()
    {
      Err?
    }

    function PropagateFailure<U>(): Result<U>
      requires Err?
    {
      Err(error)
    }

    function Extract(): T
      requires Ok?
    {
      value
    }
  }

  /** Success without a value, or the first error; usable with `:-`. */
  datatype Outcome = Pass | Fail(error: Error)
  {
    predicate IsFailure()
    {
      Fail?
    }

    function PropagateFailure<U>(): Result<U>
      requires Fail?
    {
      Err(error)
    }
  }
}
