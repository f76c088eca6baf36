/**
 * The expression builder of calculator-engine/src/ast.rs: the `Ast` tree, its
 * `Display`, and the Pratt parser `AstBuilder` that turns the tokenizer's
 * output into a tree.
 *
 * The builder is given twice. The functions `ParseExpr`, `ParsePrefix`,
 * `ParseInfix`, `InfixLoop` and `ScanGroup` take the token sequence and a
 * cursor position and return the result with the position the cursor ends
 * at; they are the specification. The class `AstBuilder` holds the cursor as
 * a field and advances it in methods with the loops of the source; each
 * method is proved to end in the state and with the result its function
 * gives.
 */
module Syntax {
  import opened Wrappers
  import opened Parser
  import opened Errors

  datatype Ast =
    | Number(n: nat)
    | BinaryOperator(operator: Operator, left: Ast, right: Ast)
    | UnaryOperator(operator: Operator, child: Ast)
    | Parenthesis(child: Ast)

  /** The tokens of a tree read from left to right. */
  function Flatten(t: Ast): (f: seq<Token>)
    ensures f != []
  {
    match t
    case Number(n) => [Token.Number(n)]
    case BinaryOperator(op, l, r) => Flatten(l) + [Token.Operator(op)] + Flatten(r)
    case UnaryOperator(op, c) => [Token.Operator(op)] + Flatten(c)
    case Parenthesis(c) => [OpenParenthesis] + Flatten(c) + [CloseParenthesis]
  }

  /** The text `Display for Ast` writes: numbers in decimal, binary operators
      between single spaces, a unary operator right before its operand, and a
      group as `( child )`. */
  function Display(t: Ast): (d: string)
    ensures d != []
  {
    match t
    case Number(n) => NatToDecimal(n)
    case BinaryOperator(op, l, r) => Display(l) + " " + [op.Symbol()] + " " + Display(r)
    case UnaryOperator(op, c) => [op.Symbol()] + Display(c)
    case Parenthesis(c) => "( " + Display(c) + " )"
  }

  /** The tokens of a tree never start with a `)` and always end with a number
      or a `)`. */
  lemma {:induction false} FlattenEnds(t: Ast)
    ensures var f := Flatten(t);
      !f[0].CloseParenthesis? && (f[|f| - 1].Number? || f[|f| - 1].CloseParenthesis?)
  {
    match t
    case Number(_) =>
    case BinaryOperator(op, l, r) =>
      FlattenEnds(l);
      FlattenEnds(r);
      assert Flatten(t)[0] == Flatten(l)[0];
      assert Flatten(t)[|Flatten(t)| - 1] == Flatten(r)[|Flatten(r)| - 1];
    case UnaryOperator(_, c) =>
      FlattenEnds(c);
      assert Flatten(t)[|Flatten(t)| - 1] == Flatten(c)[|Flatten(c)| - 1];
    case Parenthesis(_) =>
  }

  /** The printed text starts with a character that starts a token and ends
      with a digit or a `)`: it has no blanks at either end. */
  lemma {:induction false} DisplayEnds(t: Ast)
    ensures var d := Display(t);
      StartsToken(d[0]) && (IsDigit(d[|d| - 1]) || d[|d| - 1] == ')')
  {
    match t
    case Number(_) =>
    case BinaryOperator(op, l, r) =>
      DisplayEnds(l);
      DisplayEnds(r);
      assert Display(t)[0] == Display(l)[0];
      assert Display(t)[|Display(t)| - 1] == Display(r)[|Display(r)| - 1];
    case UnaryOperator(op, c) =>
      DisplayEnds(c);
      assert Display(t)[0] == op.Symbol();
      assert Display(t)[|Display(t)| - 1] == Display(c)[|Display(c)| - 1];
    case Parenthesis(_) =>
  }

  /** Every unary node carries `+` or `-`. */
  predicate ValidUnary(t: Ast) {
    match t
    case Number(_) => true
    case BinaryOperator(_, l, r) => ValidUnary(l) && ValidUnary(r)
    case UnaryOperator(op, c) => (op == Plus || op == Minus) && ValidUnary(c)
    case Parenthesis(c) => ValidUnary(c)
  }

  /** The text of the tree ends inside a unary operand, which extends to the
      end of the input. */
  predicate EndsOpen(t: Ast) {
    match t
    case UnaryOperator(_, _) => true
    case BinaryOperator(_, _, r) => EndsOpen(r)
    case _ => false
  }

  /** The grouping that the precedences impose: a left operand binds at least
      as tightly as its operator and does not end in a unary operand, a right
      operand that is itself an operation binds strictly more tightly. */
  predicate WellGrouped(t: Ast) {
    match t
    case Number(_) => true
    case BinaryOperator(op, l, r) =>
      && !EndsOpen(l)
      && (l.BinaryOperator? ==> l.operator.Precedence() >= op.Precedence())
      && (r.BinaryOperator? ==> r.operator.Precedence() > op.Precedence())
      && WellGrouped(l)
      && WellGrouped(r)
    case UnaryOperator(_, c) => WellGrouped(c)
    case Parenthesis(c) => WellGrouped(c)
  }

  /** The trees the builder can produce. */
  predicate Canonical(t: Ast) {
    ValidUnary(t) && WellGrouped(t)
  }

  // ---------------------------------------------------------------------------
  // The builder as functions of the token sequence and the cursor
  // ---------------------------------------------------------------------------

  /** A builder result and the cursor position after it. */
  datatype Step = Step(result: Result<Ast, Error>, pos: nat)

  /** The loop of `expr(rbp)` does not go on at `pos`. */
  predicate StopsAt(ts: seq<Token>, pos: nat, rbp: nat)
    requires pos <= |ts|
  {
    pos == |ts| || rbp >= ts[pos].Precedence()
  }

  /** What the loop of `expr(rbp)` keeps true of the tree built so far,
      `left`, with the cursor at `p`. */
  predicate LoopReady(ts: seq<Token>, p: nat, rbp: nat, left: Ast)
    requires p <= |ts|
  {
    && Canonical(left)
    && (left.BinaryOperator? ==>
          left.operator.Precedence() > rbp
          && (p == |ts| || left.operator.Precedence() >= ts[p].Precedence()))
    && (EndsOpen(left) ==> p == |ts|)
  }

  /** What `led` needs of its left operand to build a canonical tree. */
  predicate LedReady(bp: nat, left: Ast, op: Token) {
    && op.Precedence() == bp
    && Canonical(left)
    && !EndsOpen(left)
    && (left.BinaryOperator? ==> left.operator.Precedence() >= bp)
  }

  /** Re-associates the pieces of `ts[p..e]` that the builder reads one after
      the other. */
  lemma Regroup(f: seq<Token>, ts: seq<Token>, p: nat, m: nat, e: nat)
    requires p < m <= e <= |ts|
    ensures f + [ts[p]] + ts[p + 1..m] + ts[m..e] == f + ts[p..e]
    ensures [ts[p]] + ts[p + 1..m] + ts[m..e] == ts[p..e]
  {
    assert ts[p..e] == [ts[p]] + ts[p + 1..m] + ts[m..e];
  }

  /** `expr(rbp)`: reads a prefix expression, then extends it with infix
      operators as long as they bind more tightly than `rbp`. */
  function ParseExpr(ts: seq<Token>, p: nat, rbp: nat): (s: Step)
    requires p <= |ts|
    decreases |ts|, |ts| - p, 1
    ensures p <= s.pos <= |ts|
    ensures s.result.Ok? ==> p < s.pos
    ensures s.result.Err? ==> s.result.error.AstError?
  {
    if p == |ts| then Step(Err(AstError(ExpectedToken)), p)
    else
      var first := ParsePrefix(ts, ts[p], p + 1);
      if first.result.Err? then first
      else InfixLoop(ts, first.pos, rbp, first.result.value)
  }

  /** `nud(t)`, with the cursor at `p` just after `t`. */
  function ParsePrefix(ts: seq<Token>, t: Token, p: nat): (s: Step)
    requires p <= |ts|
    decreases |ts|, |ts| - p, 2
    ensures p <= s.pos <= |ts|
    ensures s.result.Err? ==> s.result.error.AstError?
  {
    match t
    case Number(n) => Step(Ok(Ast.Number(n)), p)
    case Operator(op) =>
      if op == Plus || op == Minus then
        var s := ParseExpr(ts, p, 0);
        if s.result.Err? then s else Step(Ok(UnaryOperator(op, s.result.value)), s.pos)
      else Step(Err(AstError(UnsupportedUnaryOperator(op))), p)
    case OpenParenthesis => ScanGroup(ts, p, p, 1)
    case CloseParenthesis => Step(Err(AstError(UnmatchedClosingParenthesis)), p)
  }

  /** The parenthesis scan of `nud`: the tokens `ts[start..q]` have been
      collected and `counter` groups are open. At the `)` that closes the
      first group the collected tokens are built on their own. The counter
      starts at 1 and is decremented only above 1, so it never reaches 0: the
      source's branch for a `)` at counter 0 and its `unreachable!()` after the
      loop are excluded by the precondition `counter >= 1`, which every call
      meets. */
  function ScanGroup(ts: seq<Token>, start: nat, q: nat, counter: nat): (s: Step)
    requires start <= q <= |ts|
    requires counter >= 1
    decreases |ts|, |ts| - q, 0
    ensures q <= s.pos <= |ts|
    ensures s.result.Err? ==> s.result.error.AstError?
  {
    if q == |ts| then Step(Err(AstError(UnmatchedOpeningParenthesis(counter))), q)
    else
      match ts[q]
      case OpenParenthesis => ScanGroup(ts, start, q + 1, counter + 1)
      case CloseParenthesis =>
        if counter == 1 then
          var inner := BuildFromTokens(ts[start..q]);
          if inner.Err? then Step(Err(inner.error), q + 1)
          else Step(Ok(Parenthesis(inner.value)), q + 1)
        else ScanGroup(ts, start, q + 1, counter - 1)
      case _ => ScanGroup(ts, start, q + 1, counter)
  }

  /** `led(bp, left, op)`, with the cursor just after `op`. */
  function ParseInfix(ts: seq<Token>, p: nat, bp: nat, left: Ast, op: Token): (s: Step)
    requires p <= |ts|
    decreases |ts|, |ts| - p, 2
    ensures p <= s.pos <= |ts|
    ensures s.result.Err? ==> s.result.error.AstError?
    ensures !op.Operator? ==> s.result == Err(AstError(ExpectedOperator(op)))
  {
    match op
    case Operator(o) =>
      var s := ParseExpr(ts, p, bp);
      if s.result.Err? then s else Step(Ok(BinaryOperator(o, left, s.result.value)), s.pos)
    case _ => Step(Err(AstError(ExpectedOperator(op))), p)
  }

  /** The `while let` loop of `expr(rbp)`, with `left` built so far and the
      cursor at `p`. */
  function InfixLoop(ts: seq<Token>, p: nat, rbp: nat, left: Ast): (s: Step)
    requires p <= |ts|
    decreases |ts|, |ts| - p, 0
    ensures p <= s.pos <= |ts|
    ensures s.result.Err? ==> s.result.error.AstError?
  {
    if p == |ts| || rbp >= ts[p].Precedence() then Step(Ok(left), p)
    else
      var op := ts[p];
      var s := ParseInfix(ts, p + 1, op.Precedence(), left, op);
      if s.result.Err? then s
      else InfixLoop(ts, s.pos, rbp, s.result.value)
  }

  /** `build_ast_from_tokens`: `expr(0)` on a fresh cursor. */
  function BuildFromTokens(ts: seq<Token>): (r: Result<Ast, Error>)
    decreases |ts|, |ts| + 1, 0
    ensures r.Err? ==> r.error.AstError?
    ensures ts == [] ==> r == Err(AstError(ExpectedToken))
  {
    ParseExpr(ts, 0, 0).result
  }

  /** `build_ast`: tokenizes, drops whatever text the tokenizer left unread,
      and builds the tree of the tokens. Its errors are the tokenizer's,
      exactly when tokenizing fails, and otherwise the builder's. */
  function BuildFromText(s: string): (r: Result<Ast, Error>)
    ensures r.Err? ==> r.error.ParseError? || r.error.AstError?
    ensures r.Err? && r.error.ParseError? <==> Tokenize(s).Err?
    ensures Tokenize(s).Err? ==> r == Err(ParseError(Tokenize(s).error))
  {
    match Tokenize(s)
    case Err(e) => Err(ParseError(e))
    case Ok((_, ts)) => BuildFromTokens(ts)
  }

  // ---------------------------------------------------------------------------
  // What the builder produces
  // ---------------------------------------------------------------------------

  /** A successful `expr(rbp)` has read exactly the tokens of the tree it
      returns, stops where the next token does not bind more tightly than
      `rbp`, and returns a canonical tree whose top operator binds more
      tightly than `rbp`. Its failures are builder errors. */
  lemma {:induction false} ExprShape(ts: seq<Token>, p: nat, rbp: nat)
    requires p <= |ts|
    decreases |ts|, |ts| - p, 1
    ensures var s := ParseExpr(ts, p, rbp);
      && (s.result.Err? ==> s.result.error.AstError?)
      && (s.result.Ok? ==>
            var v := s.result.value;
            && Flatten(v) == ts[p..s.pos]
            && StopsAt(ts, s.pos, rbp)
            && Canonical(v)
            && (v.BinaryOperator? ==> v.operator.Precedence() > rbp)
            && (EndsOpen(v) ==> s.pos == |ts|))
  {
    if p < |ts| {
      var first := ParsePrefix(ts, ts[p], p + 1);
      PrefixShape(ts, ts[p], p + 1);
      if first.result.Ok? {
        LoopShape(ts, first.pos, rbp, first.result.value);
        var s := InfixLoop(ts, first.pos, rbp, first.result.value);
        if s.result.Ok? {
          Regroup([], ts, p, first.pos, s.pos);
        }
      }
    }
  }

  lemma {:induction false} PrefixShape(ts: seq<Token>, t: Token, p: nat)
    requires p <= |ts|
    decreases |ts|, |ts| - p, 2
    ensures var s := ParsePrefix(ts, t, p);
      && (s.result.Err? ==> s.result.error.AstError?)
      && (s.result.Ok? ==>
            var v := s.result.value;
            && Flatten(v) == [t] + ts[p..s.pos]
            && Canonical(v)
            && !v.BinaryOperator?
            && (EndsOpen(v) ==> s.pos == |ts|))
  {
    match t
    case Number(n) =>
      assert ts[p..p] == [];
    case Operator(op) =>
      if op == Plus || op == Minus {
        ExprShape(ts, p, 0);
      }
    case OpenParenthesis =>
      GroupShape(ts, p, p, 1);
    case CloseParenthesis =>
  }

  lemma {:induction false} GroupShape(ts: seq<Token>, start: nat, q: nat, counter: nat)
    requires start <= q <= |ts|
    requires counter >= 1
    decreases |ts|, |ts| - q, 0
    ensures var s := ScanGroup(ts, start, q, counter);
      && (s.result.Err? ==> s.result.error.AstError?)
      && (s.result.Ok? ==>
            var v := s.result.value;
            && Flatten(v) == [OpenParenthesis] + ts[start..s.pos]
            && v.Parenthesis?
            && Canonical(v))
  {
    if q < |ts| {
      match ts[q]
      case OpenParenthesis =>
        GroupShape(ts, start, q + 1, counter + 1);
      case CloseParenthesis =>
        if counter == 1 {
          BuildShape(ts[start..q]);
          assert ts[start..q + 1] == ts[start..q] + [CloseParenthesis];
        } else {
          GroupShape(ts, start, q + 1, counter - 1);
        }
      case _ =>
        GroupShape(ts, start, q + 1, counter);
    }
  }

  lemma {:induction false} InfixShape(ts: seq<Token>, p: nat, bp: nat, left: Ast, op: Token)
    requires p <= |ts|
    decreases |ts|, |ts| - p, 2
    ensures var s := ParseInfix(ts, p, bp, left, op);
      && (s.result.Err? ==> s.result.error.AstError?)
      && (!op.Operator? ==> s == Step(Err(AstError(ExpectedOperator(op))), p))
      && (s.result.Ok? ==>
            var v := s.result.value;
            && op.Operator?
            && v.BinaryOperator? && v.operator == op.op && v.left == left
            && Flatten(v) == Flatten(left) + [op] + ts[p..s.pos]
            && StopsAt(ts, s.pos, bp)
            && (LedReady(bp, left, op) ==> Canonical(v) && (EndsOpen(v) ==> s.pos == |ts|)))
  {
    if op.Operator? {
      ExprShape(ts, p, bp);
    }
  }

  lemma {:induction false} LoopShape(ts: seq<Token>, p: nat, rbp: nat, left: Ast)
    requires p <= |ts|
    decreases |ts|, |ts| - p, 0
    ensures var s := InfixLoop(ts, p, rbp, left);
      && (s.result.Err? ==> s.result.error.AstError?)
      && (s.result.Ok? ==>
            var v := s.result.value;
            && Flatten(v) == Flatten(left) + ts[p..s.pos]
            && StopsAt(ts, s.pos, rbp)
            && (LoopReady(ts, p, rbp, left) ==>
                  && Canonical(v)
                  && (v.BinaryOperator? ==> v.operator.Precedence() > rbp)
                  && (EndsOpen(v) ==> s.pos == |ts|)))
  {
    if p == |ts| || rbp >= ts[p].Precedence() {
      assert ts[p..p] == [];
    } else {
      var op := ts[p];
      InfixShape(ts, p + 1, op.Precedence(), left, op);
      var s := ParseInfix(ts, p + 1, op.Precedence(), left, op);
      if s.result.Ok? {
        if LoopReady(ts, p, rbp, left) {
          assert LedReady(op.Precedence(), left, op);
        }
        LoopShape(ts, s.pos, rbp, s.result.value);
        var r := InfixLoop(ts, s.pos, rbp, s.result.value);
        if r.result.Ok? {
          Regroup(Flatten(left), ts, p, s.pos, r.pos);
        }
      }
    }
  }

  /** `build_ast_from_tokens` either fails with a builder error or consumes
      every token: the tree it returns flattens back to exactly its input,
      and it is canonical. */
  lemma {:induction false} BuildShape(ts: seq<Token>)
    decreases |ts|, |ts| + 1, 0
    ensures var r := BuildFromTokens(ts);
      && (r.Err? ==> r.error.AstError?)
      && (r.Ok? ==> Flatten(r.value) == ts && Canonical(r.value))
  {
    ExprShape(ts, 0, 0);
    assert ts[0..|ts|] == ts;
  }

  /** `expr` after a prefix expression was read. */
  lemma ExprUnfold(ts: seq<Token>, p: nat, rbp: nat)
    requires p < |ts|
    requires ParsePrefix(ts, ts[p], p + 1).result.Ok?
    ensures var first := ParsePrefix(ts, ts[p], p + 1);
      ParseExpr(ts, p, rbp) == InfixLoop(ts, first.pos, rbp, first.result.value)
  {
  }

  /** One round of the loop of `expr`: `led` on the next token gives `step`
      and moves the cursor to `pos`. */
  lemma LoopAdvance(ts: seq<Token>, p: nat, rbp: nat, left: Ast, step: Result<Ast, Error>, pos: nat)
    requires p < |ts| && rbp < ts[p].Precedence()
    requires Step(step, pos) == ParseInfix(ts, p + 1, ts[p].Precedence(), left, ts[p])
    ensures step.Err? ==> InfixLoop(ts, p, rbp, left) == Step(step, pos)
    ensures step.Ok? ==> pos <= |ts| && InfixLoop(ts, p, rbp, left) == InfixLoop(ts, pos, rbp, step.value)
  {
  }

  /** The loop of `expr` ends where the next token does not bind. */
  lemma LoopStops(ts: seq<Token>, p: nat, rbp: nat, left: Ast)
    requires p <= |ts| && StopsAt(ts, p, rbp)
    ensures InfixLoop(ts, p, rbp, left) == Step(Ok(left), p)
  {
  }

  // ---------------------------------------------------------------------------
  // The builder with its cursor
  // ---------------------------------------------------------------------------

  /** `AstBuilder`: the token sequence and a peekable cursor into it. */
  class AstBuilder {
    const tokens: seq<Token>
    var pos: nat

    predicate Valid()
      reads this
    {
      pos <= |tokens|
    }

    constructor (ts: seq<Token>)
      ensures tokens == ts && pos == 0 && Valid()
    {
      tokens := ts;
      pos := 0;
    }

    /** `token_iter.peek()`. */
    function Peek(): (t: Option<Token>)
      reads this
      requires Valid()
      ensures t.Some? <==> pos < |tokens|
      ensures t.Some? ==> t.value == tokens[pos]
    {
      if pos < |tokens| then Some(tokens[pos]) else None
    }

    /** `token_iter.next()`. */
    method Next() returns (t: Option<Token>)
      requires Valid()
      modifies this
      ensures Valid()
      ensures old(pos) < |tokens| ==> t == Some(tokens[old(pos)]) && pos == old(pos) + 1
      ensures old(pos) == |tokens| ==> t == None && pos == old(pos)
    {
      if pos < |tokens| {
        t := Some(tokens[pos]);
        pos := pos + 1;
      } else {
        t := None;
      }
    }

    /** `expr(rbp)`. */
    method Expr(rbp: nat) returns (r: Result<Ast, Error>)
      requires Valid()
      modifies this
      decreases |tokens|, |tokens| - pos, 1
      ensures Valid()
      ensures Step(r, pos) == ParseExpr(tokens, old(pos), rbp)
    {
      ghost var start := pos;
      var first := Next();
      if first.None? {
        return Err(AstError(ExpectedToken));
      }
      var prefix := Nud(first.value);
      if prefix.Err? {
        return prefix;
      }
      var left := prefix.value;
      ExprUnfold(tokens, start, rbp);
      while Peek().Some?
        invariant Valid()
        invariant ParseExpr(tokens, start, rbp) == InfixLoop(tokens, pos, rbp, left)
        decreases |tokens| - pos
      {
        var peeked := Peek().value;
        if rbp >= peeked.Precedence() {
          break;
        }
        ghost var at := pos;
        var op := Next();
        assert pos == at + 1;
        assert op.value == tokens[at];
        var step := Led(op.value.Precedence(), left, op.value);
        assert Step(step, pos) == ParseInfix(tokens, at + 1, op.value.Precedence(), left, op.value);
        LoopAdvance(tokens, at, rbp, left, step, pos);
        if step.Err? {
          return step;
        }
        left := step.value;
      }
      LoopStops(tokens, pos, rbp, left);
      return Ok(left);
    }

    /** `nud(t)`, including the parenthesis scan. */
    method Nud(t: Token) returns (r: Result<Ast, Error>)
      requires Valid()
      modifies this
      decreases |tokens|, |tokens| - pos, 2
      ensures Valid()
      ensures Step(r, pos) == ParsePrefix(tokens, t, old(pos))
    {
      match t
      case Number(n) =>
        return Ok(Ast.Number(n));
      case Operator(op) =>
        if op == Plus || op == Minus {
          var right := Expr(0);
          if right.Err? {
            return right;
          }
          return Ok(UnaryOperator(op, right.value));
        }
        return Err(AstError(UnsupportedUnaryOperator(op)));
      case OpenParenthesis =>
        var parenthesis: seq<Token> := [];
        var counter: nat := 1;
        ghost var start := pos;
        while true
          invariant Valid() && start <= pos
          invariant parenthesis == tokens[start..pos]
          invariant counter >= 1
          invariant ParsePrefix(tokens, t, start) == ScanGroup(tokens, start, pos, counter)
          decreases |tokens| - pos
        {
          var next := Next();
          if next.None? {
            break;
          }
          var token := next.value;
          if token == OpenParenthesis {
            counter := counter + 1;
          } else if token == CloseParenthesis {
            if counter == 1 {
              var inner := BuildAstFromTokens(parenthesis);
              if inner.Err? {
                return inner;
              }
              return Ok(Parenthesis(inner.value));
            }
            counter := counter - 1;
          }
          parenthesis := parenthesis + [token];
        }
        return Err(AstError(UnmatchedOpeningParenthesis(counter)));
      case CloseParenthesis =>
        return Err(AstError(UnmatchedClosingParenthesis));
    }

    /** `led(bp, left, op)`. */
    method Led(bp: nat, left: Ast, op: Token) returns (r: Result<Ast, Error>)
      requires Valid()
      modifies this
      decreases |tokens|, |tokens| - pos, 2
      ensures Valid()
      ensures Step(r, pos) == ParseInfix(tokens, old(pos), bp, left, op)
    {
      match op
      case Operator(o) =>
        var right := Expr(bp);
        if right.Err? {
          return right;
        }
        return Ok(BinaryOperator(o, left, right.value));
      case _ =>
        return Err(AstError(ExpectedOperator(op)));
    }

    /** `AstBuilder::build_ast_from_tokens`. */
    static method BuildAstFromTokens(ts: seq<Token>) returns (r: Result<Ast, Error>)
      decreases |ts|, |ts| + 1, 0
      ensures r == BuildFromTokens(ts)
    {
      var builder := new AstBuilder(ts);
      r := builder.Expr(0);
    }

    /** `AstBuilder::build_ast`. */
    static method BuildAst(s: string) returns (r: Result<Ast, Error>)
      ensures r == BuildFromText(s)
    {
      var tokens := Parse(s);
      if tokens.Err? {
        return Err(ParseError(tokens.error));
      }
      r := BuildAstFromTokens(tokens.value.1);
    }
  }
}
