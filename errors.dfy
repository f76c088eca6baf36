/**
 * The error values of the engine: the expression builder's `AstError`
 * (ast.rs), the interpreter's `InterpreterError` (execution/interpret.rs), the
 * JIT's `JitError` (execution/jit.rs) and their sum `Error` (errors.rs). They
 * live in one module because the builder and the interpreter both return the
 * sum.
 */
module Errors {
  import Parser

  datatype AstError =
    | ExpectedToken
    | ExpectedOperator(token: Parser.Token)
    | UnsupportedUnaryOperator(operator: Parser.Operator)
    | UnmatchedClosingParenthesis
    | UnmatchedOpeningParenthesis(counter: nat)

  datatype InterpreterError = InvalidUnaryOperator(operator: Parser.Operator)

  /** Declared by the JIT, which is not part of this model; no path of the
      model constructs it. */
  datatype JitError = JitUnsupportedUnaryOperator(operator: Parser.Operator)

  datatype Error =
    | ParseError(parse: Parser.ParseError)
    | AstError(ast: AstError)
    | InterpreterError(interpreter: InterpreterError)
    | JitError(jit: JitError)
}
