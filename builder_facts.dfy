/**
 * What the expression builder of calculator-engine/src/ast.rs does on
 * particular shapes of input: its error catalogue, the grouping that the
 * binding powers impose, and the printed test expressions that build back to
 * themselves.
 */
module BuilderFacts {
  import opened Wrappers
  import opened Parser
  import opened Errors
  import opened Syntax
  import opened RoundTrip

  // ---------------------------------------------------------------------------
  // Consumption
  // ---------------------------------------------------------------------------

  /** At binding power 0 the loop of `expr` never stops early, since every
      token binds at least as tightly as 1: a successful `expr(0)` reads every
      remaining token. */
  lemma ExprZeroConsumes(ts: seq<Token>, p: nat)
    requires p <= |ts|
    ensures ParseExpr(ts, p, 0).result.Ok? ==> ParseExpr(ts, p, 0).pos == |ts|
  {
    ExprShape(ts, p, 0);
  }

  // ---------------------------------------------------------------------------
  // Errors
  // ---------------------------------------------------------------------------

  /** Text whose first character is a one-byte character that starts no token
      is a tokenizer error on the whole input, as for `b`. */
  lemma NoTokenText(s: string)
    requires s != [] && !StartsToken(s[0]) && !IsWhitespace(s[0]) && IsAscii(s[0])
    ensures BuildFromText(s) == Err(ParseError(Nom(s, Many1)))
  {
    assert WhitespaceLen(s) == 0;
    assert s[0..] == s;
    TokenizeFailures(s);
  }

  /** Text whose first character is longer than one byte makes the operator
      reader panic. */
  lemma NonAsciiText(s: string)
    requires s != [] && !IsAscii(s[0])
    ensures BuildFromText(s) == Err(ParseError(Panic(s)))
  {
    assert WhitespaceLen(s) == 0;
    assert s[0..] == s;
    TokenizeFailures(s);
  }

  lemma UnreadableB()
    ensures BuildFromText("b") == Err(ParseError(Nom("b", Many1)))
  {
    NoTokenText("b");
  }

  lemma AccentPanics()
    ensures BuildFromText("\U{e9}") == Err(ParseError(Panic("\U{e9}")))
  {
    NonAsciiText("\U{e9}");
  }

  /** `build_ast` discards the text the tokenizer leaves unread: a number
      followed by text that starts no token builds the number alone. */
  lemma LeftoverDropped(n: nat, z: string)
    requires z != [] && !StartsToken(z[0]) && !IsWhitespace(z[0]) && IsAscii(z[0])
    ensures Tokenize(NatToDecimal(n) + " " + z) == Ok((" " + z, [Token.Number(n)]))
    ensures BuildFromText(NatToDecimal(n) + " " + z) == Ok(Ast.Number(n))
  {
    LeftoverLexed(n, z);
    BuildFlatten(Ast.Number(n));
  }

  /** A character longer than one byte after the number is not left unread:
      the step that reaches it panics. */
  lemma LeftoverPanics(n: nat, z: string)
    requires z != [] && !IsAscii(z[0])
    ensures Tokenize(NatToDecimal(n) + " " + z) == Err(Panic(z))
    ensures BuildFromText(NatToDecimal(n) + " " + z) == Err(ParseError(Panic(z)))
  {
    LeftoverLexed(n, z);
    assert WhitespaceLen(z) == 0;
    assert WhitespaceLen(" " + z) == 1 && (" " + z)[1..] == z;
  }

  lemma LeftoverLexed(n: nat, z: string)
    requires z != [] && !StartsToken(z[0]) && !IsWhitespace(z[0])
    ensures Lex(NatToDecimal(n) + " " + z) == ([Token.Number(n)], " " + z)
  {
    var d := NatToDecimal(n);
    LexTokenText(Token.Number(n));
    BlankUnread(z);
    SpaceSeparates(d, z);
    LexConcat(d, " " + z);
    assert d + " " + z == d + (" " + z);
    assert [Token.Number(n)] + [] == [Token.Number(n)];
  }

  /** A space followed by text that starts no token reads no token. */
  lemma BlankUnread(z: string)
    requires z != [] && !StartsToken(z[0]) && !IsWhitespace(z[0])
    ensures Lex(" " + z) == ([], " " + z)
  {
    assert WhitespaceLen(z) == 0 && z[0..] == z;
    assert IsWhitespace(" "[0]);
    ParseTokenLeadingSpace(" ", z);
  }

  lemma OneThenB()
    ensures BuildFromText("1 b") == Ok(Ast.Number(1))
  {
    var one := 1;
    LeftoverDropped(one, "b");
    assert NatToDecimal(one) + " " + "b" == "1 b";
  }

  lemma OneThenAccent()
    ensures BuildFromText("1 \U{e9}") == Err(ParseError(Panic("\U{e9}")))
  {
    var one := 1;
    LeftoverPanics(one, "\U{e9}");
    assert NatToDecimal(one) + " " + "\U{e9}" == "1 \U{e9}";
  }

  /** No tokens: `expr` finds nothing to read. */
  lemma EmptyTokens()
    ensures BuildFromTokens([]) == Err(AstError(ExpectedToken))
  {
  }

  /** An empty group `( )` is built as an empty token list. */
  lemma EmptyGroup(ts: seq<Token>)
    requires |ts| >= 2 && ts[0] == OpenParenthesis && ts[1] == CloseParenthesis
    ensures BuildFromTokens(ts) == Err(AstError(ExpectedToken))
  {
    assert ts[1..1] == [];
    assert BuildFromTokens(ts[1..1]) == Err(AstError(ExpectedToken));
    assert ScanGroup(ts, 1, 1, 1) == Step(Err(AstError(ExpectedToken)), 2);
    assert ParsePrefix(ts, ts[0], 1) == Step(Err(AstError(ExpectedToken)), 2);
  }

  /** A `)` where an operand is expected. */
  lemma LeadingClose(ts: seq<Token>)
    requires ts != [] && ts[0] == CloseParenthesis
    ensures BuildFromTokens(ts) == Err(AstError(UnmatchedClosingParenthesis))
  {
    assert ParsePrefix(ts, ts[0], 1) == Step(Err(AstError(UnmatchedClosingParenthesis)), 1);
  }

  /** `*` and `/` cannot stand in prefix position. */
  lemma UnsupportedPrefix(ts: seq<Token>, op: Operator)
    requires ts != [] && ts[0] == Token.Operator(op)
    ensures op == Multiply || op == Divide ==>
      BuildFromTokens(ts) == Err(AstError(UnsupportedUnaryOperator(op)))
  {
    if op == Multiply || op == Divide {
      assert ParsePrefix(ts, ts[0], 1) == Step(Err(AstError(UnsupportedUnaryOperator(op))), 1);
    }
  }

  /** A number followed by a token that is not an operator: the loop takes
      that token for an operator, since its precedence is maximal, and `led`
      rejects it. */
  lemma OperandAfterNumber(ts: seq<Token>)
    requires |ts| >= 2 && ts[0].Number? && !ts[1].Operator?
    ensures BuildFromTokens(ts) == Err(AstError(ExpectedOperator(ts[1])))
  {
    assert ts[1].Precedence() == USIZE_MAX;
    assert ParsePrefix(ts, ts[0], 1) == Step(Ok(Ast.Number(ts[0].value)), 1);
    ExprUnfold(ts, 0, 0);
    assert InfixLoop(ts, 1, 0, Ast.Number(ts[0].value)) == Step(Err(AstError(ExpectedOperator(ts[1]))), 2);
  }

  /** `1 + 2 )`: the stray `)` is rejected by the `expr` that reads the right
      operand `2`. */
  lemma TrailingClose()
    ensures BuildFromTokens([Token.Number(1), Token.Operator(Plus), Token.Number(2), CloseParenthesis])
         == Err(AstError(ExpectedOperator(CloseParenthesis)))
  {
    var ts := [Token.Number(1), Token.Operator(Plus), Token.Number(2), CloseParenthesis];
    var err := Step(Err(AstError(ExpectedOperator(CloseParenthesis))), 4);
    assert InfixLoop(ts, 3, 1, Ast.Number(2)) == err;
    assert ParseExpr(ts, 2, 1) == err;
    assert InfixLoop(ts, 1, 0, Ast.Number(1)) == err;
  }

  /** How many groups a token sequence opens and leaves open. */
  function Depth(s: seq<Token>): int {
    if s == [] then 0
    else (if s[0] == OpenParenthesis then 1 else if s[0] == CloseParenthesis then -1 else 0) + Depth(s[1..])
  }

  /** If the group that the scan is in is never closed, the scan runs out of
      tokens and reports how many groups are still open. */
  lemma {:induction false} UnclosedGroups(ts: seq<Token>, start: nat, q: nat, counter: nat)
    requires start <= q <= |ts| && counter >= 1
    requires forall k :: q < k <= |ts| ==> counter + Depth(ts[q..k]) >= 1
    ensures counter + Depth(ts[q..]) >= 1
    ensures ScanGroup(ts, start, q, counter)
         == Step(Err(AstError(UnmatchedOpeningParenthesis(counter + Depth(ts[q..])))), |ts|)
    decreases |ts| - q
  {
    if q < |ts| {
      var c := if ts[q] == OpenParenthesis then counter + 1
               else if ts[q] == CloseParenthesis then counter - 1 else counter;
      assert ts[q..q + 1][1..] == [];
      assert counter + Depth(ts[q..q + 1]) >= 1;
      var next := q + 1;
      forall k | next < k <= |ts|
        ensures c + Depth(ts[next..k]) >= 1
      {
        assert ts[q..k][1..] == ts[next..k];
        assert counter + Depth(ts[q..k]) >= 1;
      }
      UnclosedGroups(ts, start, q + 1, c);
      assert ts[q..][1..] == ts[q + 1..];
    }
  }

  /** Building `( ( 1`: two groups are left open. */
  lemma TwoUnclosed()
    ensures BuildFromTokens([OpenParenthesis, OpenParenthesis, Token.Number(1)])
         == Err(AstError(UnmatchedOpeningParenthesis(2)))
  {
    var ts := [OpenParenthesis, OpenParenthesis, Token.Number(1)];
    assert ts[1..2] == [OpenParenthesis] && ts[1..3] == [OpenParenthesis, Token.Number(1)];
    assert Depth([Token.Number(1)]) == 0;
    UnclosedGroups(ts, 1, 1, 1);
    assert ts[1..] == [OpenParenthesis, Token.Number(1)];
  }

  // ---------------------------------------------------------------------------
  // Grouping
  // ---------------------------------------------------------------------------

  /** A unary operand is read by `expr(0)`, so it extends over everything
      that follows: `+` or `-` in front of tokens that build a tree builds
      that tree under the unary operator. */
  lemma UnaryAbsorbs(op: Operator, ts: seq<Token>)
    requires op == Plus || op == Minus
    requires BuildFromTokens(ts).Ok?
    ensures BuildFromTokens([Token.Operator(op)] + ts) == Ok(UnaryOperator(op, BuildFromTokens(ts).value))
  {
    BuildShape(ts);
    BuildFlatten(UnaryOperator(op, BuildFromTokens(ts).value));
  }

  /** `- 4 + 5` is the negation of `4 + 5`. */
  lemma NegationOfSum()
    ensures BuildFromTokens([Token.Operator(Minus), Token.Number(4), Token.Operator(Plus), Token.Number(5)])
         == Ok(UnaryOperator(Minus, BinaryOperator(Plus, Ast.Number(4), Ast.Number(5))))
  {
    BuildFlatten(UnaryOperator(Minus, BinaryOperator(Plus, Ast.Number(4), Ast.Number(5))));
  }

  /** `a o1 b o2 c` groups to the left exactly when `o1` binds at least as
      tightly as `o2`: equal precedences associate to the left, and `*`, `/`
      bind more tightly than `+`, `-`. */
  lemma ThreeOperands(a: nat, o1: Operator, b: nat, o2: Operator, c: nat)
    ensures BuildFromTokens([Token.Number(a), Token.Operator(o1), Token.Number(b), Token.Operator(o2), Token.Number(c)])
         == Ok(if o1.Precedence() >= o2.Precedence()
               then BinaryOperator(o2, BinaryOperator(o1, Ast.Number(a), Ast.Number(b)), Ast.Number(c))
               else BinaryOperator(o1, Ast.Number(a), BinaryOperator(o2, Ast.Number(b), Ast.Number(c))))
  {
    var na, nb, nc := Ast.Number(a), Ast.Number(b), Ast.Number(c);
    var ts := [Token.Number(a), Token.Operator(o1), Token.Number(b), Token.Operator(o2), Token.Number(c)];
    assert Flatten(BinaryOperator(o1, na, nb)) == [Token.Number(a), Token.Operator(o1), Token.Number(b)];
    assert Flatten(BinaryOperator(o2, nb, nc)) == [Token.Number(b), Token.Operator(o2), Token.Number(c)];
    assert Flatten(BinaryOperator(o2, BinaryOperator(o1, na, nb), nc)) == ts;
    assert Flatten(BinaryOperator(o1, na, BinaryOperator(o2, nb, nc))) == ts;
    if o1.Precedence() >= o2.Precedence() {
      BuildFlatten(BinaryOperator(o2, BinaryOperator(o1, na, nb), nc));
    } else {
      BuildFlatten(BinaryOperator(o1, na, BinaryOperator(o2, nb, nc)));
    }
  }

  // ---------------------------------------------------------------------------
  // Printed expressions
  // ---------------------------------------------------------------------------

  function N(n: nat): Ast {
    Ast.Number(n)
  }

  /** The text `s` builds a tree that prints as `s` again. */
  predicate PrintsBack(s: string) {
    BuildFromText(s).Ok? && Display(BuildFromText(s).value) == s
  }

  /** The six expressions that the builder's tests print back. */
  lemma SumOfQuotient()
    ensures PrintsBack("1 + 2 / 2 + 4")
  {
    SumOfQuotientTree();
    PrintedTree(BinaryOperator(Plus, BinaryOperator(Plus, N(1), BinaryOperator(Divide, N(2), N(2))), N(4)), "1 + 2 / 2 + 4");
  }

  lemma SumOfQuotientTree()
    ensures var t := BinaryOperator(Plus, BinaryOperator(Plus, N(1), BinaryOperator(Divide, N(2), N(2))), N(4));
      Canonical(t) && Display(t) == "1 + 2 / 2 + 4"
  {
  }

  lemma QuotientChain()
    ensures PrintsBack("1 / 2 / 2 - 4")
  {
    QuotientChainTree();
    PrintedTree(BinaryOperator(Minus, BinaryOperator(Divide, BinaryOperator(Divide, N(1), N(2)), N(2)), N(4)), "1 / 2 / 2 - 4");
  }

  lemma QuotientChainTree()
    ensures var t := BinaryOperator(Minus, BinaryOperator(Divide, BinaryOperator(Divide, N(1), N(2)), N(2)), N(4));
      Canonical(t) && Display(t) == "1 / 2 / 2 - 4"
  {
  }

  lemma ProductOfQuotient()
    ensures PrintsBack("1 + 2 / 2 * 4")
  {
    ProductOfQuotientTree();
    PrintedTree(BinaryOperator(Plus, N(1), BinaryOperator(Multiply, BinaryOperator(Divide, N(2), N(2)), N(4))), "1 + 2 / 2 * 4");
  }

  lemma ProductOfQuotientTree()
    ensures var t := BinaryOperator(Plus, N(1), BinaryOperator(Multiply, BinaryOperator(Divide, N(2), N(2)), N(4)));
      Canonical(t) && Display(t) == "1 + 2 / 2 * 4"
  {
  }

  lemma GroupOnLeft()
    ensures PrintsBack("( 2 + 2 ) * 2")
  {
    GroupOnLeftTree();
    PrintedTree(BinaryOperator(Multiply, Parenthesis(BinaryOperator(Plus, N(2), N(2))), N(2)), "( 2 + 2 ) * 2");
  }

  lemma GroupOnLeftTree()
    ensures var t := BinaryOperator(Multiply, Parenthesis(BinaryOperator(Plus, N(2), N(2))), N(2));
      Canonical(t) && Display(t) == "( 2 + 2 ) * 2"
  {
  }

  lemma GroupOnRight()
    ensures PrintsBack("2 * ( 2 + 2 )")
  {
    GroupOnRightTree();
    PrintedTree(BinaryOperator(Multiply, N(2), Parenthesis(BinaryOperator(Plus, N(2), N(2)))), "2 * ( 2 + 2 )");
  }

  lemma GroupOnRightTree()
    ensures var t := BinaryOperator(Multiply, N(2), Parenthesis(BinaryOperator(Plus, N(2), N(2))));
      Canonical(t) && Display(t) == "2 * ( 2 + 2 )"
  {
  }

  lemma NestedGroups()
    ensures PrintsBack("1 * ( 2 * ( 3 * ( 4 * 5 ) ) )")
  {
    NestedText();
    PrintedTree(BinaryOperator(Multiply, N(1), Nest(2)), "1 * ( 2 * ( 3 * ( 4 * 5 ) ) )");
  }

  /** `( k * ( k + 1 * ... ( 4 * 5 ) ) )` for `k` from 2 to 4. */
  function Nest(k: nat): Ast
    requires 2 <= k <= 4
    decreases 4 - k
  {
    if k == 4 then Parenthesis(BinaryOperator(Multiply, N(4), N(5)))
    else Parenthesis(BinaryOperator(Multiply, N(k), Nest(k + 1)))
  }

  lemma NestedText()
    ensures Display(BinaryOperator(Multiply, N(1), Nest(2))) == "1 * ( 2 * ( 3 * ( 4 * 5 ) ) )"
  {
    NestText4();
    NestText3();
    NestText2();
  }

  lemma NestText4()
    ensures Display(Nest(4)) == "( 4 * 5 )"
  {
  }

  lemma NestText3()
    requires Display(Nest(4)) == "( 4 * 5 )"
    ensures Display(Nest(3)) == "( 3 * ( 4 * 5 ) )"
  {
  }

  lemma NestText2()
    requires Display(Nest(3)) == "( 3 * ( 4 * 5 ) )"
    ensures Display(Nest(2)) == "( 2 * ( 3 * ( 4 * 5 ) ) )"
  {
  }

  lemma PrintedTree(t: Ast, s: string)
    requires Canonical(t) && Display(t) == s
    ensures PrintsBack(s) && BuildFromText(s) == Ok(t)
  {
    BuildDisplay(t);
  }
}
