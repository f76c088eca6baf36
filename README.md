# Calculator engine: tokenizer, expression builder and evaluator

This project models the core of the calculator engine of In-line/calculator:

- the tokenizer, which turns a line of text into operator, number and
  parenthesis tokens;
- the Pratt expression builder `AstBuilder`, which turns the tokens into an
  expression tree;
- the tree-walking interpreter, which evaluates the tree.

It also proves what these stages promise, separately and together.

Modules:

- `Wrappers`: the `Option` and `Result` shapes.
- `Numbers`: the value domain. A value is an exact real, `+inf`, `-inf` or NaN.
  `+ - * /` and negation follow the IEEE rules on the special values.
- `Parser`: operators, tokens and their precedences, and `parse_operator`.
  It also has `skip_whitespace` (a method with a loop) and the number reader.
  `parse` appears twice: as the function `Tokenize` and as the method `Parse`.
  `Parse` is a loop that appends one token per round to a sequence. The
  method is proved to return what the function gives.
- `Errors`: `AstError`, `InterpreterError`, `JitError` and their sum `Error`.
- `Syntax`: the `Ast` tree, its flattening into tokens, and `Display`.
  - The builder is first a family of functions over the token sequence and a
    cursor position: `ParseExpr`, `ParsePrefix`, `ScanGroup`, `ParseInfix`,
    `InfixLoop`.
  - Then it is the class `AstBuilder`, whose methods `Expr`, `Nud` and `Led`
    advance a cursor field with the loops of the source. Each method is proved
    to end with the cursor and the result the matching function gives.
- `RoundTrip`:
  - The builder reads back exactly the trees it can produce, which are the
    "canonical" ones.
  - Tokenizing the printed text of a tree gives back the tree's tokens.
  - Together: `build(display(t)) == t` for every canonical tree.
- `BuilderFacts`: the builder's error catalogue, its grouping rules, and the
  test expressions that print back to themselves.
- `Interpret`: `_exec_ast` and `exec`. Their link to the builder: a tree the
  builder made never fails to evaluate.

Five behaviours of the code a reader may not expect:

- `build_ast` throws away whatever text the tokenizer left unread.
  `"1 b"` builds `1` (`BuilderFacts.OneThenB`). Tokenizing does not have to
  consume the whole input.
- `"b"` fails with the nom error `Nom("b", Many1)` on the whole input, not
  with an invalid-operator error naming `b` (`BuilderFacts.UnreadableB`).
  The `InvalidOperator` error of `parse_operator` never leaves `parse`.
- `1 + 2 )` fails with `ExpectedOperator(CloseParenthesis)`, not with an
  unmatched-closing-parenthesis error (`BuilderFacts.TrailingClose`). The
  `)` where an operator is expected has the largest precedence, so the loop
  of `expr` takes it for an operator.
- A unary sign applies to everything after it, because its operand is read
  by `expr(0)`. So `-4 + 5` is `-(4 + 5)` and evaluates to -9, not 1
  (`Interpret.NegatedSum`).
- `parse_operator` takes one character and then checks that it is one byte
  long (parser/mod.rs:96). Any character longer than one byte at a token
  position fails that check and the whole call panics: `"\u{e9}"` and
  `"1 \u{e9}"` abort instead of returning (`Parser.ParseOperator`,
  `BuilderFacts.AccentPanics`, `BuilderFacts.OneThenAccent`). The model
  gives this abort as the outcome `Panic`, which no stage handles.

## Model

| member | source | states |
|---|---|---|
| Parser.OperatorPrecedences | calculator-engine/src/parser/mod.rs:51-56 | Plus and Minus have precedence 1; Multiply and Divide have precedence 2 |
| Parser.Operator.Precedence | calculator-engine/src/parser/mod.rs:51-56 | an operator binds with precedence 1 or 2 |
| Parser.Operator.Symbol | calculator-engine/src/parser/mod.rs:59-72 | the character an operator displays as is one of the four that `parse_operator` accepts |
| Parser.TokenPrecedences | calculator-engine/src/parser/mod.rs:82-87 | an operator token has its operator's precedence; every other token has `usize::MAX`, which is above every operator's; a token is an operator exactly when its precedence is at most 2 |
| Parser.Token.Precedence | calculator-engine/src/parser/mod.rs:82-87 | every token has a precedence of at least 1, so every token binds more tightly than `expr(0)` |
| Parser.ParseOperator | calculator-engine/src/parser/mod.rs:94-109 | succeeds exactly when the first character is `+ - * /`; then it consumes exactly that one character and returns the operator that displays as it; on empty input it fails with `Eof`; on any other one-byte character it fails with `InvalidOperator` naming that character; on a character longer than one byte it panics |
| Parser.OperatorRoundTrip | calculator-engine/src/parser/mod.rs:94-109 | reading the character an operator displays as gives back that operator and leaves the rest of the text |
| Parser.ParseOperatorExamples | calculator-engine/src/parser/mod.rs:150-155 | `+12` reads as Plus and leaves `12`; `-`, `*`, `/` read as their operators; `b` fails with `InvalidOperator('b')`; `\u{e9}` panics |
| Parser.WhitespaceLen | calculator-engine/src/parser/mod.rs:113-115 | the length of the maximal prefix made of space, tab, form feed and newline |
| Parser.SkipWhitespace | calculator-engine/src/parser/mod.rs:113-115 | the loop drops exactly that maximal whitespace prefix and leaves the rest untouched |
| Parser.SkipWhitespaceExamples | calculator-engine/src/parser/mod.rs:145-148 | `"   bla b "` becomes `"bla b "`; `"bla"` is unchanged |
| Parser.ParseNumber | calculator-engine/src/parser/mod.rs:110-112 | a number is read exactly when the text starts with a digit, and at least one character is consumed |
| Parser.ParseNumberMunch | calculator-engine/src/parser/mod.rs:110-112 | the number read is the whole run of digits at the front; the text after the run is left |
| Parser.ParseChar | calculator-engine/src/parser/mod.rs:124-125 | `char(c)` succeeds exactly on text starting with `c` and consumes that character |
| Parser.Alternatives | calculator-engine/src/parser/mod.rs:121-126 | a token is read exactly when the first character can start one; the text left is a proper suffix; it panics exactly when the first character is longer than one byte, since the operator reader is tried first |
| Parser.SignIsOperator | calculator-engine/src/parser/mod.rs:121-123 | the operator alternative comes first, so a leading `+` or `-` is always an operator token, never the sign of a number |
| Parser.ParseToken | calculator-engine/src/parser/mod.rs:119-128 | one round of the fold: on success the text left is a proper suffix of the input; it panics exactly when the first character after the whitespace is longer than one byte |
| Parser.Lex | calculator-engine/src/parser/mod.rs:117-135 | the fold reads no tokens exactly when its first round fails, and then leaves the input as it is; otherwise it consumes text; the text left is a suffix of the input |
| Parser.LexStops | calculator-engine/src/parser/mod.rs:117-135 | the fold stops only where no further token can be read |
| Parser.Tokenize | calculator-engine/src/parser/mod.rs:116-140 | `parse` panics exactly when the round the fold stops at panics; otherwise it fails exactly when not even one token can be read, and then with `Nom(input, Many1)`; otherwise it returns a non-empty token sequence and a proper suffix of the input as the unread text, at which no token can be read and no round panics |
| Parser.SuffixIsSlice | calculator-engine/src/parser/mod.rs:117-135 | the unread text is the tail of the input, so the consumed text followed by the unread text is the input |
| Parser.Parse | calculator-engine/src/parser/mod.rs:116-140 | the loop that skips whitespace, reads one token and appends it returns exactly what `Tokenize` gives, the panic included |
| Parser.TokenizeFailures | calculator-engine/src/parser/mod.rs:117-135 | `parse` fails with `Many1` on empty input, on whitespace-only input, and on input whose first non-blank character is a one-byte character that starts no token; it panics when that character is longer than one byte |
| Parser.LexConcat | calculator-engine/src/parser/mod.rs:117-135 | text that tokenizes completely, followed by text that does not extend its last number, tokenizes as the two token sequences concatenated |
| Parser.LexRender | calculator-engine/src/parser/mod.rs:117-135 | tokenizing the printed text of any token sequence gives back the sequence and leaves nothing |
| Parser.TokenizeRender | calculator-engine/src/parser/mod.rs:117-135 | `parse` on the printed text of a non-empty token sequence returns the sequence with nothing unread |
| Parser.NatToDecimal | calculator-engine/src/ast.rs:53 | the printed form of an integral number is a non-empty run of digits whose value is the number |
| Syntax.Flatten | calculator-engine/src/ast.rs:33-47 | every tree has at least one token |
| Syntax.FlattenEnds | calculator-engine/src/ast.rs:33-47 | the tokens of a tree never start with `)` and always end with a number or `)` |
| Syntax.Display | calculator-engine/src/ast.rs:49-66 | the printed text of a tree is never empty |
| Syntax.DisplayEnds | calculator-engine/src/ast.rs:49-66 | the printed text starts with a character that starts a token and ends with a digit or `)`, so it has no blanks at either end |
| Syntax.ParseExpr | calculator-engine/src/ast.rs:180-194 | `expr` never moves the cursor back or past the end; on success it has consumed at least one token; every failure is a builder error |
| Syntax.ParsePrefix | calculator-engine/src/ast.rs:118-163 | `nud` never moves the cursor back or past the end; every failure is a builder error |
| Syntax.ScanGroup | calculator-engine/src/ast.rs:132-160 | the parenthesis scan never moves the cursor back or past the end; every failure is a builder error |
| Syntax.ParseInfix | calculator-engine/src/ast.rs:165-178 | `led` never moves the cursor back or past the end; every failure is a builder error; on a token that is not an operator it fails with `ExpectedOperator` carrying that token |
| Syntax.InfixLoop | calculator-engine/src/ast.rs:184-191 | the loop of `expr` never moves the cursor back or past the end; every failure is a builder error |
| Syntax.BuildFromTokens | calculator-engine/src/ast.rs:111-116 | `build_ast_from_tokens` fails only with builder errors, and with `ExpectedToken` on no tokens |
| Syntax.BuildFromText | calculator-engine/src/ast.rs:94-109 | `build_ast` fails with a tokenizer error exactly when `parse` fails, and then with that error; every other failure is a builder error |
| Syntax.ExprShape | calculator-engine/src/ast.rs:180-194 | a successful `expr(rbp)` consumed exactly the tokens of the tree it returns; it stops where the next token does not bind more tightly than `rbp`; the tree is canonical and binds more tightly than `rbp`; every failure is a builder error |
| Syntax.PrefixShape | calculator-engine/src/ast.rs:118-163 | a successful `nud(t)` returns a canonical, non-binary tree made of `t` and the tokens it consumed; every failure is a builder error |
| Syntax.GroupShape | calculator-engine/src/ast.rs:132-160 | a successful parenthesis scan returns a canonical group whose tokens are `(` followed by the tokens the scan passed over |
| Syntax.InfixShape | calculator-engine/src/ast.rs:165-178 | `led` on a non-operator token fails with `ExpectedOperator` carrying that token and leaves the cursor; on success it returns the binary node of `left`, that operator and the right operand it read |
| Syntax.LoopShape | calculator-engine/src/ast.rs:184-191 | the loop of `expr` extends `left` exactly by the tokens it consumes; it stops where the next token does not bind more tightly than `rbp`; it keeps the tree canonical |
| Syntax.BuildShape | calculator-engine/src/ast.rs:111-116 | `build_ast_from_tokens` either fails with a builder error or returns a canonical tree that flattens back to exactly its input |
| Syntax.LoopStops | calculator-engine/src/ast.rs:184-187 | the loop returns `left` unchanged where the next token does not bind more tightly than `rbp` |
| Syntax.AstBuilder.constructor | calculator-engine/src/ast.rs:112-114 | a new builder holds the given tokens with the cursor at the first |
| Syntax.AstBuilder.Peek | calculator-engine/src/ast.rs:184 | `peek` shows the token at the cursor, and nothing at the end |
| Syntax.AstBuilder.Next | calculator-engine/src/ast.rs:181-189 | `next` returns the token at the cursor and advances one, or returns nothing at the end |
| Syntax.AstBuilder.Expr | calculator-engine/src/ast.rs:180-194 | `expr(rbp)` ends with the result and the cursor that `ParseExpr` gives from the cursor it started at |
| Syntax.AstBuilder.Nud | calculator-engine/src/ast.rs:118-163 | `nud`, with its parenthesis scan, ends with the result and cursor of `ParsePrefix`; the depth counter stays at least 1 throughout the scan |
| Syntax.AstBuilder.Led | calculator-engine/src/ast.rs:165-178 | `led` ends with the result and cursor of `ParseInfix` |
| Syntax.AstBuilder.BuildAstFromTokens | calculator-engine/src/ast.rs:111-116 | a fresh builder's `expr(0)` returns `BuildFromTokens` of the tokens |
| Syntax.AstBuilder.BuildAst | calculator-engine/src/ast.rs:94-109 | `build_ast` returns `BuildFromText` of the text |
| RoundTrip.ExprReads | calculator-engine/src/ast.rs:180-194 | `expr(rbp)` reads a canonical tree back from its tokens wherever those tokens stand, as long as the following token does not bind more tightly than `rbp` |
| RoundTrip.PrefixReads | calculator-engine/src/ast.rs:118-163 | `nud` reads back the prefix expression at the front of a tree |
| RoundTrip.ScanSkips | calculator-engine/src/ast.rs:136-153 | the parenthesis scan passes over the tokens of a whole tree and comes out at the same depth |
| RoundTrip.LoopChain | calculator-engine/src/ast.rs:184-191 | the loop of `expr` grows the front part of a tree into the whole tree, one operator at a time |
| RoundTrip.BuildFlatten | calculator-engine/src/ast.rs:111-116 | building the tokens of a canonical tree gives back the tree |
| RoundTrip.BuildCharacterization | calculator-engine/src/ast.rs:111-116 | the builder returns `t` exactly when the tokens are the tokens of `t` and `t` is canonical |
| RoundTrip.FlattenInjective | calculator-engine/src/ast.rs:111-116 | two canonical trees with the same tokens are the same tree |
| RoundTrip.LexDisplay | calculator-engine/src/ast.rs:49-66 | tokenizing the text `Display` writes for a tree reads exactly the tree's tokens and leaves nothing |
| RoundTrip.TokenizeDisplay | calculator-engine/src/ast.rs:49-66 | `parse` on the printed tree returns the tree's tokens with nothing unread |
| RoundTrip.BuildDisplay | calculator-engine/src/ast.rs:205-207 | building the printed text of a canonical tree gives back the tree |
| RoundTrip.DisplayRebuilds | calculator-engine/src/ast.rs:205-207 | printing what `build_ast` made of some text and building the printed text gives the same tree |
| BuilderFacts.ExprZeroConsumes | calculator-engine/src/ast.rs:180-194 | at binding power 0 a successful `expr` consumes every remaining token |
| BuilderFacts.NoTokenText | calculator-engine/src/parser/mod.rs:116-140 | text whose first character is a one-byte character that is neither whitespace nor the start of a token fails in the tokenizer with `Many1` on the whole input |
| BuilderFacts.NonAsciiText | calculator-engine/src/parser/mod.rs:94-96 | text whose first character is longer than one byte makes `build_ast` panic |
| BuilderFacts.AccentPanics | calculator-engine/src/parser/mod.rs:94-96 | `build_ast("\u{e9}")` panics |
| BuilderFacts.UnreadableB | calculator-engine/src/ast.rs:232 | `build_ast("b")` fails with `ParseError(Nom("b", Many1))` |
| BuilderFacts.LeftoverDropped | calculator-engine/src/ast.rs:97-108 | a number followed by text whose first character is one byte long and starts no token tokenizes as the number with that text unread, and builds the number alone |
| BuilderFacts.LeftoverPanics | calculator-engine/src/parser/mod.rs:94-96 | a number followed by text whose first character is longer than one byte makes `parse` and `build_ast` panic rather than leave that text unread |
| BuilderFacts.OneThenB | calculator-engine/src/ast.rs:97-108 | `1 b` builds `1` |
| BuilderFacts.OneThenAccent | calculator-engine/src/parser/mod.rs:94-96 | `1 \u{e9}` panics |
| BuilderFacts.EmptyTokens | calculator-engine/src/ast.rs:181 | an empty token list fails with `ExpectedToken` |
| BuilderFacts.EmptyGroup | calculator-engine/src/ast.rs:141-143 | the empty group `( )` fails with `ExpectedToken` |
| BuilderFacts.LeadingClose | calculator-engine/src/ast.rs:161 | a `)` where an operand is expected fails with `UnmatchedClosingParenthesis` |
| BuilderFacts.UnsupportedPrefix | calculator-engine/src/ast.rs:121-130 | `*` or `/` in prefix position fails with `UnsupportedUnaryOperator` naming it |
| BuilderFacts.OperandAfterNumber | calculator-engine/src/ast.rs:165-177 | a number followed by a non-operator token, as in `1 2`, fails with `ExpectedOperator` carrying that token |
| BuilderFacts.TrailingClose | calculator-engine/src/ast.rs:184-190 | the tokens of `1 + 2 )` fail with `ExpectedOperator(CloseParenthesis)` |
| BuilderFacts.UnclosedGroups | calculator-engine/src/ast.rs:133-159 | when the current group is never closed, the scan runs out of tokens and fails with `UnmatchedOpeningParenthesis`, whose counter is the number of groups still open |
| BuilderFacts.TwoUnclosed | calculator-engine/src/ast.rs:155-156 | `( ( 1` fails with `UnmatchedOpeningParenthesis(2)` |
| BuilderFacts.UnaryAbsorbs | calculator-engine/src/ast.rs:122-128 | `+` or `-` in front of tokens that build a tree builds that whole tree under the unary operator |
| BuilderFacts.NegationOfSum | calculator-engine/src/ast.rs:122-128 | the tokens `- 4 + 5` build `-(4 + 5)` |
| BuilderFacts.ThreeOperands | calculator-engine/src/ast.rs:184-191 | `a o1 b o2 c` groups to the left exactly when `o1` binds at least as tightly as `o2`: equal precedences associate to the left, and `*` and `/` bind more tightly than `+` and `-` |
| BuilderFacts.SumOfQuotient | calculator-engine/src/ast.rs:218 | `1 + 2 / 2 + 4` builds and prints back to itself |
| BuilderFacts.QuotientChain | calculator-engine/src/ast.rs:219 | `1 / 2 / 2 - 4` builds and prints back to itself |
| BuilderFacts.ProductOfQuotient | calculator-engine/src/ast.rs:220 | `1 + 2 / 2 * 4` builds and prints back to itself |
| BuilderFacts.GroupOnLeft | calculator-engine/src/ast.rs:225 | `( 2 + 2 ) * 2` builds and prints back to itself |
| BuilderFacts.GroupOnRight | calculator-engine/src/ast.rs:226 | `2 * ( 2 + 2 )` builds and prints back to itself |
| BuilderFacts.NestedGroups | calculator-engine/src/ast.rs:227 | `1 * ( 2 * ( 3 * ( 4 * 5 ) ) )` builds and prints back to itself |
| BuilderFacts.PrintedTree | calculator-engine/src/ast.rs:205-207 | a canonical tree's printed text builds that tree and prints back to itself |
| Interpret.FirstInvalidUnaryExists | calculator-engine/src/execution/interpret.rs:51-58 | a tree has a unary node with an operator other than `+` and `-` exactly when it breaks `ValidUnary`; such an operator is `*` or `/` |
| Interpret.ExecAst | calculator-engine/src/execution/interpret.rs:48-77 | `_exec_ast` fails exactly when the tree has a unary `*` or `/`, and then with `InvalidUnaryOperator` naming the first such operator the evaluation reaches |
| Interpret.Exec | calculator-engine/src/execution/interpret.rs:79-83 | `exec` succeeds exactly when `build_ast` does; its errors are tokenizer and builder errors only |
| Interpret.Apply | calculator-engine/src/execution/interpret.rs:68-73 | a binary node computes the exact sum, difference, product or quotient of finite operands; a division by zero gives an infinity or NaN instead of an error; a NaN operand gives NaN |
| Interpret.BuiltTreesEvaluate | calculator-engine/src/execution/interpret.rs:54-57 | every tree the builder makes, from text or from tokens, evaluates without error |
| Interpret.ExecDisplay | calculator-engine/src/execution/interpret.rs:79-83 | evaluating the printed text of a canonical tree gives the value of the tree |
| Interpret.ErrorsPropagate | calculator-engine/src/execution/interpret.rs:65-66 | an error in an operand is the error of the node, and the left operand's error comes first |
| Interpret.DivisionFreeIsFinite | calculator-engine/src/execution/interpret.rs:60-73 | with exact values, a tree with valid unary nodes and no division evaluates to a finite value |
| Interpret.DoubleNegation | calculator-engine/src/execution/interpret.rs:56 | two unary minus signs cancel |
| Interpret.UnaryAsBinary | calculator-engine/src/execution/interpret.rs:51-73 | `-t` evaluates like `0 - t`, and `+t` like `0 + t` |
| Interpret.OnePlusTwo | calculator-engine/src/execution/interpret.rs:92 | `1 + 2` evaluates to 3 |
| Interpret.TwoPlusTwoTimesTwo | calculator-engine/src/execution/interpret.rs:93 | `2 + 2  * 2` evaluates to 6 |
| Interpret.SumOfProduct | calculator-engine/src/execution/interpret.rs:93 | `a + b  * c` evaluates to `a + b * c` for all numbers: the product is taken first, whatever the spacing |
| Interpret.NegatedSum | calculator-engine/src/execution/interpret.rs:51-56 | `-4 + 5` evaluates to -9 |
| Interpret.SignedDifference | calculator-engine/src/execution/interpret.rs:51-56 | `+4 - 5` evaluates to -1 |
| Interpret.SignedText | calculator-engine/src/execution/interpret.rs:51-56 | the text `sign a op b` evaluates to the sign applied to `a op b` |
| Numbers.Neg | calculator-engine/src/execution/interpret.rs:56 | negation keeps NaN and finiteness and flips the sign |
| Numbers.Add | calculator-engine/src/execution/interpret.rs:69 | the sum is NaN exactly for a NaN operand or infinities of opposite signs; otherwise an infinite operand gives that infinity, and finite operands give their exact sum |
| Numbers.Sub | calculator-engine/src/execution/interpret.rs:70 | the difference is NaN exactly for a NaN operand or equal infinities; otherwise an infinite left operand is the result, an infinite right operand gives its negation, and finite operands give their exact difference |
| Numbers.Mul | calculator-engine/src/execution/interpret.rs:71 | the product is NaN exactly for a NaN operand or an infinity times zero; otherwise its sign is the product of the signs and it is infinite exactly when an operand is; finite operands give their exact product |
| Numbers.Div | calculator-engine/src/execution/interpret.rs:72 | the quotient is NaN exactly for a NaN operand, zero by zero or an infinity by an infinity; a finite value by a non-zero finite one is the exact quotient; a finite value by an infinity is zero; a non-zero value by zero, or an infinity by a finite value, is infinite |
| Numbers.DivisionByZero | calculator-engine/src/execution/interpret.rs:72 | dividing a non-zero number by zero gives the infinity of its sign, and zero by zero gives NaN; neither is an error |
| Numbers.NegInvolutive | calculator-engine/src/execution/interpret.rs:56 | negation is an involution, on the infinities and NaN too |
| Numbers.NaNAbsorbs | calculator-engine/src/execution/interpret.rs:68-73 | NaN propagates through each of the four operations and through negation |
| Numbers.ZeroIdentities | calculator-engine/src/execution/interpret.rs:69-70 | zero is the identity of addition, and subtracting from zero negates |

## Left out

- Number literals: nom's `double` grammar (signs, fractions, exponents,
  `inf`, `nan`) is not modelled. A number literal is the longest run of ASCII
  decimal digits, read as a natural number.
- `Ast::Number` and `Token::Number` therefore hold natural numbers.
  `Display` prints such a number as its decimal digits, which is how Rust
  prints an integral `f64`. Rust's formatting of other `f64` values is not
  modelled.
- Values: `f64` becomes an exact real, the two infinities or NaN. Rounding,
  overflow to infinity, the sign of zero, and NaN's payload are not modelled.
- Interpret.DivisionFreeIsFinite: holds for the exact values only. With
  `f64` a sum or product of large finite values overflows to an infinity,
  `inf - inf` then gives NaN, and a long enough digit run is read as an
  infinity. So the engine does not promise a finite result for division-free
  input.
- Parser.ParseOperator: the panic of the one-byte check (parser/mod.rs:96)
  ends the process or thread. The model returns it as the error value
  `Panic`, which no stage handles and every stage passes on unchanged. The
  model does not capture the unwinding itself.
- Parser.Alternatives, Parser.Tokenize: the panic reaches them as that same
  `Panic` value. They pass it on at once; they do not try the other
  alternatives or stop the fold normally.
- Parser.TokenizeFailures, BuilderFacts.NoTokenText,
  BuilderFacts.LeftoverDropped: these state the `Many1` error and the
  dropped remainder only for a one-byte first character. A character longer
  than one byte panics instead (`Parser.TokenizeFailures` third clause,
  `BuilderFacts.NonAsciiText`, `BuilderFacts.LeftoverPanics`).
- nom itself: `fold_many1`, `alt`, `many0`, `take` and `char` are written
  out with the same observable results. nom's `Incomplete` and `Failure`
  outcomes never arise from these complete-input parsers, so they are not
  modelled.
- `parse_error_to_owned` (parser/errors.rs) only converts borrowed input to
  an owned `String`. The model's errors hold the text as a value from the
  start.
- `Parse` advances by taking the rest of the text after each token rather
  than by an integer index into the text. The tokens it collects and the
  text it leaves are the same.
- Logging (`debug!`) and the `Display` texts of the error types are not
  modelled.
- `exec_ast` (interpret.rs:39-46) only logs and calls `_exec_ast`, which is
  `Interpret.ExecAst`.
- The JIT (execution/jit.rs) generates machine code through LLVM or
  Cranelift. It is not part of this model. `JitError` is declared so that
  the error sum is complete. Nothing constructs it.
- The hybrid evaluator (execution/hybrid.rs) races the interpreter against
  the JIT on two threads. It is not part of this model.
- The command-line, REPL and GTK front ends are input and output around
  `exec`. They are not part of this model.
- Syntax.ScanGroup: requires `counter >= 1`. Every call meets it: the scan
  starts at 1 and decrements only above 1. So the source's branch for a `)`
  at counter 0 and its `unreachable!()` after the loop are not modelled as
  reachable.
