/** The compiler's error kinds and the outcome of a compilation step. */
module Errors {
  import opened Runtime
  import CoreAst

  /** Every user-facing error the compiler reports. */
  datatype CompileErrorKind =
    | UnknownFunction(name: string)
    | WrongArgCount(gotCount: ArgCount, expectedCount: ArgCount)
    | TypeMismatch(got: ValType, expected: ValType)
    | UndefinedVariable(name: string)
    | UndefinedMacro(name: string)
    | BadMapMacro
    | ExpectedFunction
    | NoNestedList

  /** An error together with the source span it points at. */
  datatype CompileError = CompileError(kind: CompileErrorKind, span: CoreAst.Span)

  /** The result of one compilation step: a value, a user-facing error, or an
      implementation fault (the compiler aborts on an `unimplemented!()` arm). */
  datatype Outcome<+T> = Ok(value: T) | Err(error: CompileError) | Fault {

    predicate IsFailure() {
      !Ok?
    }

    function PropagateFailure<U>(): (r: Outcome<U>)
      requires !Ok?
      ensures SameFailure(this, r)
    {
      if Err? then Err(error) else Fault
    }

    function Extract(): T
      requires Ok?
    {
      value
    }
  }

  /** `a` and `b` are the same failure, possibly of different value types. */
  predicate SameFailure<T, U>(a: Outcome<T>, b: Outcome<U>) {
    && !a.Ok? && !b.Ok?
    && a.Err? == b.Err?
    && (a.Err? ==> a.error == b.error)
  }
}
