/**
 * The tree-walking evaluator of calculator-engine/src/execution/interpret.rs.
 * Values are `Numbers.Num`: exact reals with the IEEE infinities and NaN in
 * place of `f64`.
 */
module Interpret {
  import opened Wrappers
  import opened Numbers
  import opened Parser
  import opened Errors
  import opened Syntax
  import opened RoundTrip
  import opened BuilderFacts

  /** The operator of the first unary node with an operator other than `+`
      or `-`, in the order the evaluator visits the tree: an operand before
      the node that applies to it, a left operand before a right one. */
  function FirstInvalidUnary(t: Ast): Option<Operator> {
    match t
    case Number(_) => None
    case UnaryOperator(op, c) =>
      if FirstInvalidUnary(c).Some? then FirstInvalidUnary(c)
      else if op == Plus || op == Minus then None
      else Some(op)
    case BinaryOperator(_, l, r) =>
      if FirstInvalidUnary(l).Some? then FirstInvalidUnary(l) else FirstInvalidUnary(r)
    case Parenthesis(c) => FirstInvalidUnary(c)
  }

  /** There is an invalid unary node exactly when the tree breaks `ValidUnary`. */
  lemma {:induction false} FirstInvalidUnaryExists(t: Ast)
    ensures FirstInvalidUnary(t).None? <==> ValidUnary(t)
    ensures FirstInvalidUnary(t).Some? ==> FirstInvalidUnary(t).value in {Multiply, Divide}
  {
    match t
    case Number(_) =>
    case UnaryOperator(_, c) => FirstInvalidUnaryExists(c);
    case BinaryOperator(_, l, r) =>
      FirstInvalidUnaryExists(l);
      FirstInvalidUnaryExists(r);
    case Parenthesis(c) => FirstInvalidUnaryExists(c);
  }

  /** `_exec_ast`: evaluates the operand or operands first, passing an error
      on, then applies the node. */
  function ExecAst(t: Ast): (r: Result<Num, Error>)
    ensures r.Err? <==> FirstInvalidUnary(t).Some?
    ensures r.Err? ==> r.error == InterpreterError(InvalidUnaryOperator(FirstInvalidUnary(t).value))
  {
    match t
    case Number(n) => Ok(Finite(n as real))
    case UnaryOperator(op, c) =>
      var v :- ExecAst(c);
      (match op
       case Plus => Ok(v)
       case Minus => Ok(Neg(v))
       case _ => Err(InterpreterError(InvalidUnaryOperator(op))))
    case BinaryOperator(op, l, r) =>
      var a :- ExecAst(l);
      var b :- ExecAst(r);
      Ok(Apply(op, a, b))
    case Parenthesis(c) => ExecAst(c)
  }

  /** The arithmetic operation a binary operator stands for: on finite
      operands the exact result, except that dividing by zero gives an
      infinity or NaN rather than an error; a NaN operand gives NaN. */
  function Apply(op: Operator, a: Num, b: Num): (v: Num)
    ensures a.NaN? || b.NaN? ==> v.NaN?
    ensures a.Finite? && b.Finite? ==>
      match op
      case Plus => v == Finite(a.r + b.r)
      case Minus => v == Finite(a.r - b.r)
      case Multiply => v == Finite(a.r * b.r)
      case Divide => if b.r != 0.0 then v == Finite(a.r / b.r) else !v.Finite?
  {
    match op
    case Plus => Add(a, b)
    case Minus => Sub(a, b)
    case Multiply => Mul(a, b)
    case Divide => Div(a, b)
  }

  /** `exec`: builds the tree of the text and evaluates it. The evaluator
      never fails on a tree the builder made, so the only errors are the
      tokenizer's and the builder's. */
  function Exec(s: string): (r: Result<Num, Error>)
    ensures r.Err? ==> r.error.ParseError? || r.error.AstError?
    ensures r.Ok? <==> BuildFromText(s).Ok?
  {
    match BuildFromText(s)
    case Err(e) => Err(e)
    case Ok(t) =>
      BuiltTreesEvaluate(s, []);
      ExecAst(t)
  }

  /** The builder's trees carry only `+` and `-` as unary operators, so the
      evaluator never fails on them, whether they are built from text or from
      tokens. */
  lemma BuiltTreesEvaluate(s: string, ts: seq<Token>)
    ensures BuildFromText(s).Ok? ==> ExecAst(BuildFromText(s).value).Ok?
    ensures BuildFromTokens(ts).Ok? ==> ExecAst(BuildFromTokens(ts).value).Ok?
  {
    if BuildFromText(s).Ok? {
      BuildShape(Tokenize(s).value.1);
      FirstInvalidUnaryExists(BuildFromText(s).value);
    }
    if BuildFromTokens(ts).Ok? {
      BuildShape(ts);
      FirstInvalidUnaryExists(BuildFromTokens(ts).value);
    }
  }

  /** Evaluating a tree and evaluating its printed text agree. */
  lemma ExecDisplay(t: Ast)
    requires Canonical(t)
    ensures Exec(Display(t)) == ExecAst(t)
  {
    BuildDisplay(t);
  }

  /** An error in an operand is the error of the whole tree, and the left
      operand's error comes first. */
  lemma ErrorsPropagate(op: Operator, l: Ast, r: Ast)
    ensures ExecAst(l).Err? ==> ExecAst(BinaryOperator(op, l, r)) == ExecAst(l)
    ensures ExecAst(l).Ok? && ExecAst(r).Err? ==> ExecAst(BinaryOperator(op, l, r)) == ExecAst(r)
  {
  }

  /** No binary node of the tree divides. */
  predicate DivisionFree(t: Ast) {
    match t
    case Number(_) => true
    case UnaryOperator(_, c) => DivisionFree(c)
    case BinaryOperator(op, l, r) => op != Divide && DivisionFree(l) && DivisionFree(r)
    case Parenthesis(c) => DivisionFree(c)
  }

  /** A tree without division whose unary nodes are valid evaluates to a
      finite value. This is a fact of the exact values of `Numbers`, where
      sums and products of finite values stay finite and only a division can
      produce an infinity or NaN; with doubles it fails once a sum or product
      overflows. */
  lemma {:induction false} DivisionFreeIsFinite(t: Ast)
    requires ValidUnary(t) && DivisionFree(t)
    ensures ExecAst(t).Ok? && ExecAst(t).value.Finite?
  {
    FirstInvalidUnaryExists(t);
    match t
    case Number(_) =>
    case UnaryOperator(_, c) => DivisionFreeIsFinite(c);
    case BinaryOperator(_, l, r) =>
      DivisionFreeIsFinite(l);
      DivisionFreeIsFinite(r);
    case Parenthesis(c) => DivisionFreeIsFinite(c);
  }

  /** Two unary minus signs cancel. */
  lemma DoubleNegation(t: Ast)
    ensures ExecAst(UnaryOperator(Minus, UnaryOperator(Minus, t))) == ExecAst(t)
  {
    if ExecAst(t).Ok? {
      NegInvolutive(ExecAst(t).value);
    }
  }

  /** A unary operator evaluates like the binary one with a left operand of
      zero: `-t` as `0 - t` and `+t` as `0 + t`. */
  lemma UnaryAsBinary(t: Ast)
    ensures ExecAst(UnaryOperator(Minus, t)) == ExecAst(BinaryOperator(Minus, Ast.Number(0), t))
    ensures ExecAst(UnaryOperator(Plus, t)) == ExecAst(BinaryOperator(Plus, Ast.Number(0), t))
  {
    if ExecAst(t).Ok? {
      var v, zero := ExecAst(t).value, Ast.Number(0);
      assert ExecAst(zero) == Ok(Finite(0.0));
      ZeroIdentities(v);
      assert Apply(Minus, Finite(0.0), v) == Neg(v);
      assert Apply(Plus, Finite(0.0), v) == v;
    }
  }

  /** `1 + 2` evaluates to 3. */
  lemma OnePlusTwo()
    ensures Exec("1 + 2") == Ok(Finite(3.0))
  {
    var t := BinaryOperator(Plus, Ast.Number(1), Ast.Number(2));
    assert Display(t) == "1 + 2";
    ExecDisplay(t);
  }

  /** A leading sign applies to the whole expression after it: `-4 + 5` is
      `-(4 + 5)`, and `+4 - 5` is `+(4 - 5)`. */
  lemma NegatedSum()
    ensures Exec("-4 + 5") == Ok(Finite(-9.0))
  {
    var four, five := 4, 5;
    SignedText(Minus, four, Plus, five);
    SignedDigits(Minus, four, Plus, five, "-4 + 5");
  }

  lemma SignedDifference()
    ensures Exec("+4 - 5") == Ok(Finite(-1.0))
  {
    var four, five := 4, 5;
    SignedText(Plus, four, Minus, five);
    SignedDigits(Plus, four, Minus, five, "+4 - 5");
  }

  /** `sign a op b` evaluates to the sign applied to `a op b`. */
  lemma SignedText(sign: Operator, a: nat, op: Operator, b: nat)
    requires sign == Plus || sign == Minus
    ensures var v := Apply(op, Finite(a as real), Finite(b as real));
      Exec(Display(UnaryOperator(sign, BinaryOperator(op, Ast.Number(a), Ast.Number(b)))))
      == Ok(if sign == Minus then Neg(v) else v)
  {
    var sum := BinaryOperator(op, Ast.Number(a), Ast.Number(b));
    assert Canonical(UnaryOperator(sign, sum));
    ExecDisplay(UnaryOperator(sign, sum));
    assert ExecAst(sum) == Ok(Apply(op, Finite(a as real), Finite(b as real)));
  }

  lemma SignedDigits(sign: Operator, a: nat, op: Operator, b: nat, s: string)
    requires a < 10 && b < 10
    requires s == [sign.Symbol(), Digit(a), ' ', op.Symbol(), ' ', Digit(b)]
    ensures Display(UnaryOperator(sign, BinaryOperator(op, Ast.Number(a), Ast.Number(b)))) == s
  {
    var sum := BinaryOperator(op, Ast.Number(a), Ast.Number(b));
    assert Display(Ast.Number(a)) == [Digit(a)] && Display(Ast.Number(b)) == [Digit(b)];
    assert Display(sum) == [Digit(a), ' ', op.Symbol(), ' ', Digit(b)];
  }

  /** `2 + 2  * 2`, with two spaces before `*`, evaluates to 6. */
  lemma TwoPlusTwoTimesTwo()
    ensures Exec("2 + 2  * 2") == Ok(Finite(6.0))
  {
    var two := 2;
    SumOfProduct(two, two, two);
    WideTwos(two);
  }

  lemma WideTwos(n: nat)
    requires n == 2
    ensures WideText(n, n, n) == "2 + 2  * 2"
  {
    assert NatToDecimal(2) == "2";
  }

  /** `a + b  * c`, with two spaces before `*`. */
  function WideText(a: nat, b: nat, c: nat): string {
    NatToDecimal(a) + " + " + NatToDecimal(b) + "  * " + NatToDecimal(c)
  }

  /** The multiplication is done first, whatever the spacing. */
  lemma SumOfProduct(a: nat, b: nat, c: nat)
    ensures Exec(WideText(a, b, c)) == Ok(Finite(a as real + b as real * c as real))
  {
    var sum := BinaryOperator(Plus, Ast.Number(a), Ast.Number(b));
    var dc := NatToDecimal(c);
    var ts := [Token.Number(a), Token.Operator(Plus), Token.Number(b), Token.Operator(Multiply), Token.Number(c)];
    LexDisplay(sum);
    LexTokenText(Token.Number(c));
    LexWideOperation(Display(sum), Multiply, dc, Flatten(sum), [Token.Number(c)]);
    WidePieces(a, b, c);
    WideTokens(a, b, c);
    assert Tokenize(WideText(a, b, c)) == Ok(("", ts));
    ThreeOperands(a, Plus, b, Multiply, c);
    var tree := BinaryOperator(Plus, Ast.Number(a), BinaryOperator(Multiply, Ast.Number(b), Ast.Number(c)));
    assert BuildFromText(WideText(a, b, c)) == Ok(tree);
    ExecSumOfProduct(a, b, c);
  }

  lemma WideTokens(a: nat, b: nat, c: nat)
    ensures Flatten(BinaryOperator(Plus, Ast.Number(a), Ast.Number(b))) + ([Token.Operator(Multiply)] + [Token.Number(c)])
         == [Token.Number(a), Token.Operator(Plus), Token.Number(b), Token.Operator(Multiply), Token.Number(c)]
  {
  }

  lemma ExecSumOfProduct(a: nat, b: nat, c: nat)
    ensures ExecAst(BinaryOperator(Plus, Ast.Number(a), BinaryOperator(Multiply, Ast.Number(b), Ast.Number(c))))
         == Ok(Finite(a as real + b as real * c as real))
  {
    var nb, nc := Ast.Number(b), Ast.Number(c);
    assert ExecAst(nb) == Ok(Finite(b as real)) && ExecAst(nc) == Ok(Finite(c as real));
    var m := BinaryOperator(Multiply, nb, nc);
    assert ExecAst(m) == Ok(Apply(Multiply, Finite(b as real), Finite(c as real)));
    assert Apply(Multiply, Finite(b as real), Finite(c as real)) == Finite(b as real * c as real);
    assert ExecAst(BinaryOperator(Plus, Ast.Number(a), m)) == Ok(Apply(Plus, Finite(a as real), Finite(b as real * c as real)));
  }

  lemma WidePieces(a: nat, b: nat, c: nat)
    ensures WideText(a, b, c)
         == Display(BinaryOperator(Plus, Ast.Number(a), Ast.Number(b))) + ("  " + ([Multiply.Symbol()] + (" " + NatToDecimal(c))))
  {
    assert " + " == " " + "+" + " ";
    assert "  * " == "  " + "*" + " ";
  }

  /** Two texts that tokenize completely, around an operator with two spaces
      before it and one after. */
  lemma LexWideOperation(x: string, op: Operator, z: string, a: seq<Token>, b: seq<Token>)
    requires Lex(x) == (a, "") && Lex(z) == (b, "") && b != []
    ensures Lex(x + ("  " + ([op.Symbol()] + (" " + z)))) == (a + ([Token.Operator(op)] + b), "")
  {
    LexTokenText(Token.Operator(op));
    LexSpaced([op.Symbol()], z, [Token.Operator(op)], b);
    LexWideSpaced(x, [op.Symbol()] + (" " + z), a, [Token.Operator(op)] + b);
  }

  /** Two texts that tokenize completely, joined by two spaces. */
  lemma LexWideSpaced(x: string, z: string, a: seq<Token>, b: seq<Token>)
    requires Lex(x) == (a, "") && Lex(z) == (b, "") && b != []
    ensures Lex(x + ("  " + z)) == (a + b, "")
  {
    var w := "  ";
    assert IsWhitespace(w[0]) && IsWhitespace(w[1]);
    LexLeadingSpace(w, z);
    assert (w + z)[0] == ' ';
    LexConcat(x, w + z);
  }
}
