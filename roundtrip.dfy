/**
 * The builder of calculator-engine/src/ast.rs read backwards: every canonical
 * tree is what the builder makes of its own token sequence, so that building
 * and flattening are inverse to each other on canonical trees.
 */
module RoundTrip {
  import opened Wrappers
  import opened Parser
  import opened Errors
  import opened Syntax

  function Size(t: Ast): nat {
    match t
    case Number(_) => 1
    case BinaryOperator(_, l, r) => 1 + Size(l) + Size(r)
    case UnaryOperator(_, c) => 1 + Size(c)
    case Parenthesis(c) => 1 + Size(c)
  }

  /** `sub` begins `t`: it is `t` or begins the left operand of `t`. */
  predicate LeftPart(sub: Ast, t: Ast) {
    sub == t || (t.BinaryOperator? && LeftPart(sub, t.left))
  }

  /** The prefix expression at the front of `t`, the one `nud` reads first. */
  function Leftmost(t: Ast): (leaf: Ast)
    ensures LeftPart(leaf, t) && !leaf.BinaryOperator?
    ensures Size(leaf) <= Size(t)
  {
    if t.BinaryOperator? then Leftmost(t.left) else t
  }

  /** The tokens `f` stand in `ts` from position `p` on. */
  predicate Occurs(ts: seq<Token>, p: nat, f: seq<Token>) {
    p + |f| <= |ts| && ts[p..p + |f|] == f
  }

  lemma OccursSplit(ts: seq<Token>, p: nat, a: seq<Token>, b: seq<Token>)
    requires Occurs(ts, p, a + b)
    ensures Occurs(ts, p, a) && Occurs(ts, p + |a|, b)
  {
    assert ts[p..p + |a|] == (a + b)[..|a|];
    assert ts[p + |a|..p + |a| + |b|] == (a + b)[|a|..];
  }

  lemma OccursBinary(ts: seq<Token>, p: nat, op: Operator, l: Ast, r: Ast)
    requires Occurs(ts, p, Flatten(BinaryOperator(op, l, r)))
    ensures Occurs(ts, p, Flatten(l))
    ensures p + |Flatten(l)| < |ts| && ts[p + |Flatten(l)|] == Token.Operator(op)
    ensures Occurs(ts, p + |Flatten(l)| + 1, Flatten(r))
    ensures |Flatten(BinaryOperator(op, l, r))| == |Flatten(l)| + 1 + |Flatten(r)|
  {
    OccursSplit(ts, p, Flatten(l) + [Token.Operator(op)], Flatten(r));
    OccursSplit(ts, p, Flatten(l), [Token.Operator(op)]);
  }

  lemma OccursUnary(ts: seq<Token>, p: nat, op: Operator, c: Ast)
    requires Occurs(ts, p, Flatten(UnaryOperator(op, c)))
    ensures p < |ts| && ts[p] == Token.Operator(op)
    ensures Occurs(ts, p + 1, Flatten(c))
    ensures |Flatten(UnaryOperator(op, c))| == 1 + |Flatten(c)|
  {
    OccursSplit(ts, p, [Token.Operator(op)], Flatten(c));
  }

  lemma OccursParenthesis(ts: seq<Token>, p: nat, c: Ast)
    requires Occurs(ts, p, Flatten(Parenthesis(c)))
    ensures p < |ts| && ts[p] == OpenParenthesis
    ensures Occurs(ts, p + 1, Flatten(c))
    ensures p + 1 + |Flatten(c)| < |ts| && ts[p + 1 + |Flatten(c)|] == CloseParenthesis
    ensures |Flatten(Parenthesis(c))| == |Flatten(c)| + 2
  {
    OccursSplit(ts, p, [OpenParenthesis] + Flatten(c), [CloseParenthesis]);
    OccursSplit(ts, p, [OpenParenthesis], Flatten(c));
  }

  lemma {:induction false} OccursLeftPart(ts: seq<Token>, p: nat, sub: Ast, t: Ast)
    requires LeftPart(sub, t) && Occurs(ts, p, Flatten(t))
    ensures Occurs(ts, p, Flatten(sub))
    decreases t
  {
    if sub != t {
      OccursBinary(ts, p, t.operator, t.left, t.right);
      OccursLeftPart(ts, p, sub, t.left);
    }
  }

  /** Only the tree as a whole can end in a unary operand: a proper left part
      of a canonical tree does not. */
  lemma {:induction false} LeftPartClosed(sub: Ast, t: Ast)
    requires LeftPart(sub, t) && sub != t && WellGrouped(t)
    ensures !EndsOpen(sub)
    decreases t
  {
    if sub != t.left {
      LeftPartClosed(sub, t.left);
    }
  }

  /** One step of the parenthesis scan over a token that does not close the
      group. */
  lemma ScanToken(ts: seq<Token>, start: nat, q: nat, counter: nat)
    requires start <= q < |ts| && counter >= 1
    ensures ts[q].OpenParenthesis? ==>
      ScanGroup(ts, start, q, counter) == ScanGroup(ts, start, q + 1, counter + 1)
    ensures ts[q].CloseParenthesis? && counter > 1 ==>
      ScanGroup(ts, start, q, counter) == ScanGroup(ts, start, q + 1, counter - 1)
    ensures ts[q].Number? || ts[q].Operator? ==>
      ScanGroup(ts, start, q, counter) == ScanGroup(ts, start, q + 1, counter)
  {
  }

  /** The parenthesis scan passes over the tokens of a whole tree and comes
      out with the counter it went in with. */
  lemma {:induction false} ScanSkips(ts: seq<Token>, start: nat, q: nat, counter: nat, c: Ast)
    requires start <= q && counter >= 1
    requires Occurs(ts, q, Flatten(c))
    ensures q + |Flatten(c)| <= |ts|
    ensures ScanGroup(ts, start, q, counter) == ScanGroup(ts, start, q + |Flatten(c)|, counter)
    decreases c, 1
  {
    match c
    case Number(n) =>
      assert ts[q..q + 1] == [Token.Number(n)];
      ScanToken(ts, start, q, counter);
    case BinaryOperator(op, l, r) =>
      ScanSkipsBinary(ts, start, q, counter, op, l, r);
    case UnaryOperator(op, child) =>
      OccursUnary(ts, q, op, child);
      ScanToken(ts, start, q, counter);
      ScanSkips(ts, start, q + 1, counter, child);
    case Parenthesis(child) =>
      ScanSkipsParenthesis(ts, start, q, counter, child);
  }

  lemma {:induction false} ScanSkipsBinary(ts: seq<Token>, start: nat, q: nat, counter: nat, op: Operator, l: Ast, r: Ast)
    requires start <= q && counter >= 1
    requires Occurs(ts, q, Flatten(BinaryOperator(op, l, r)))
    ensures q + |Flatten(BinaryOperator(op, l, r))| <= |ts|
    ensures ScanGroup(ts, start, q, counter)
         == ScanGroup(ts, start, q + |Flatten(BinaryOperator(op, l, r))|, counter)
    decreases BinaryOperator(op, l, r), 0
  {
    OccursBinary(ts, q, op, l, r);
    var m := q + |Flatten(l)|;
    var e := m + 1 + |Flatten(r)|;
    ScanSkips(ts, start, q, counter, l);
    assert ScanGroup(ts, start, q, counter) == ScanGroup(ts, start, m, counter);
    ScanToken(ts, start, m, counter);
    assert ScanGroup(ts, start, m, counter) == ScanGroup(ts, start, m + 1, counter);
    ScanSkips(ts, start, m + 1, counter, r);
    assert ScanGroup(ts, start, m + 1, counter) == ScanGroup(ts, start, e, counter);
  }

  lemma {:induction false} ScanSkipsParenthesis(ts: seq<Token>, start: nat, q: nat, counter: nat, c: Ast)
    requires start <= q && counter >= 1
    requires Occurs(ts, q, Flatten(Parenthesis(c)))
    ensures q + |Flatten(Parenthesis(c))| <= |ts|
    ensures ScanGroup(ts, start, q, counter)
         == ScanGroup(ts, start, q + |Flatten(Parenthesis(c))|, counter)
    decreases Parenthesis(c), 0
  {
    OccursParenthesis(ts, q, c);
    var m := q + 1 + |Flatten(c)|;
    ScanToken(ts, start, q, counter);
    ScanSkips(ts, start, q + 1, counter + 1, c);
    ScanToken(ts, start, m, counter + 1);
    assert ScanGroup(ts, start, q, counter) == ScanGroup(ts, start, m + 1, counter);
  }

  /** What `expr(rbp)` needs around the tokens of `t` at `p` to read exactly
      `t`: the next token does not bind more tightly than `rbp`, nothing
      follows a trailing unary operand, and the top operator of `t` binds more
      tightly than `rbp`. */
  predicate FitsAt(ts: seq<Token>, p: nat, rbp: nat, t: Ast) {
    && Canonical(t)
    && Occurs(ts, p, Flatten(t))
    && StopsAt(ts, p + |Flatten(t)|, rbp)
    && (EndsOpen(t) ==> p + |Flatten(t)| == |ts|)
    && (t.BinaryOperator? ==> t.operator.Precedence() > rbp)
  }

  /** `expr(rbp)` reads back a canonical tree from its tokens. */
  lemma {:induction false} ExprReads(ts: seq<Token>, p: nat, rbp: nat, t: Ast)
    requires FitsAt(ts, p, rbp, t)
    ensures ParseExpr(ts, p, rbp) == Step(Ok(t), p + |Flatten(t)|)
    decreases Size(t), 2
  {
    var leaf := Leftmost(t);
    OccursLeftPart(ts, p, leaf, t);
    if leaf != t {
      LeftPartClosed(leaf, t);
    }
    PrefixReads(ts, p, leaf, t);
    LoopChain(ts, p, rbp, leaf, t);
    LoopStops(ts, p + |Flatten(t)|, rbp, t);
  }

  /** `nud` reads back the prefix expression at the front of the tokens. */
  lemma {:induction false} PrefixReads(ts: seq<Token>, p: nat, leaf: Ast, t: Ast)
    requires Canonical(t) && LeftPart(leaf, t) && !leaf.BinaryOperator?
    requires Occurs(ts, p, Flatten(leaf))
    requires EndsOpen(leaf) ==> p + |Flatten(leaf)| == |ts|
    ensures p < |ts|
    ensures ParsePrefix(ts, ts[p], p + 1) == Step(Ok(leaf), p + |Flatten(leaf)|)
    decreases Size(leaf), 1
  {
    CanonicalLeftPart(leaf, t);
    match leaf
    case Number(n) =>
      assert ts[p..p + 1] == [Token.Number(n)];
    case UnaryOperator(op, c) =>
      OccursUnary(ts, p, op, c);
      ExprReads(ts, p + 1, 0, c);
    case Parenthesis(c) =>
      OccursParenthesis(ts, p, c);
      var e := p + 1 + |Flatten(c)|;
      ScanSkips(ts, p + 1, p + 1, 1, c);
      assert ts[p + 1..e] == Flatten(c);
      ExprReads(Flatten(c), 0, 0, c);
      assert Flatten(c)[0..|Flatten(c)|] == Flatten(c);
  }

  lemma {:induction false} CanonicalLeftPart(sub: Ast, t: Ast)
    requires LeftPart(sub, t) && Canonical(t)
    ensures Canonical(sub)
    decreases t
  {
    if sub != t {
      CanonicalLeftPart(sub, t.left);
    }
  }

  /** The loop of `expr(rbp)` extends a left part of `t` to `t` itself: each
      round reads one operator of the left spine and its right operand. */
  lemma {:induction false} LoopChain(ts: seq<Token>, p: nat, rbp: nat, sub: Ast, t: Ast)
    requires Canonical(t) && LeftPart(sub, t)
    requires Occurs(ts, p, Flatten(t))
    requires EndsOpen(t) ==> p + |Flatten(t)| == |ts|
    requires t.BinaryOperator? ==>
      && t.operator.Precedence() > rbp
      && StopsAt(ts, p + |Flatten(t)|, t.operator.Precedence())
    ensures p + |Flatten(sub)| <= |ts|
    ensures InfixLoop(ts, p + |Flatten(sub)|, rbp, sub) == InfixLoop(ts, p + |Flatten(t)|, rbp, t)
    decreases Size(t), 1
  {
    OccursLeftPart(ts, p, sub, t);
    if sub != t {
      var BinaryOperator(op, l, r) := t;
      assert InfixLoop(ts, p + |Flatten(l)|, rbp, l) == InfixLoop(ts, p + |Flatten(t)|, rbp, t) by {
        RoundReads(ts, p, rbp, op, l, r);
      }
      LeftFits(ts, p, rbp, op, l, r);
      LoopChain(ts, p, rbp, sub, l);
      assert InfixLoop(ts, p + |Flatten(sub)|, rbp, sub) == InfixLoop(ts, p + |Flatten(l)|, rbp, l);
    }
  }

  /** The left operand of a tree that the loop reads meets the conditions of
      `LoopChain` in its turn. */
  lemma LeftFits(ts: seq<Token>, p: nat, rbp: nat, op: Operator, l: Ast, r: Ast)
    requires Canonical(BinaryOperator(op, l, r))
    requires Occurs(ts, p, Flatten(BinaryOperator(op, l, r)))
    requires op.Precedence() > rbp
    ensures Canonical(l) && Occurs(ts, p, Flatten(l)) && !EndsOpen(l)
    ensures l.BinaryOperator? ==>
      && l.operator.Precedence() > rbp
      && StopsAt(ts, p + |Flatten(l)|, l.operator.Precedence())
  {
    OccursBinary(ts, p, op, l, r);
    CanonicalBinary(op, l, r);
  }

  /** The round of the loop that reads the top operator of `t` and its right
      operand. */
  lemma {:induction false} RoundReads(ts: seq<Token>, p: nat, rbp: nat, op: Operator, l: Ast, r: Ast)
    requires Canonical(BinaryOperator(op, l, r))
    requires Occurs(ts, p, Flatten(BinaryOperator(op, l, r)))
    requires EndsOpen(r) ==> p + |Flatten(BinaryOperator(op, l, r))| == |ts|
    requires op.Precedence() > rbp
    requires StopsAt(ts, p + |Flatten(BinaryOperator(op, l, r))|, op.Precedence())
    ensures p + |Flatten(l)| <= |ts|
    ensures InfixLoop(ts, p + |Flatten(l)|, rbp, l)
         == InfixLoop(ts, p + |Flatten(BinaryOperator(op, l, r))|, rbp, BinaryOperator(op, l, r))
    decreases Size(BinaryOperator(op, l, r)), 0
  {
    RightFits(ts, p, op, l, r);
    LoopRound(ts, p + |Flatten(l)|, rbp, op, l, r);
  }

  /** The right operand of a tree that the loop reads is read by
      `expr(bp)` at the binding power of its operator. */
  lemma RightFits(ts: seq<Token>, p: nat, op: Operator, l: Ast, r: Ast)
    requires Canonical(BinaryOperator(op, l, r))
    requires Occurs(ts, p, Flatten(BinaryOperator(op, l, r)))
    requires EndsOpen(r) ==> p + |Flatten(BinaryOperator(op, l, r))| == |ts|
    requires StopsAt(ts, p + |Flatten(BinaryOperator(op, l, r))|, op.Precedence())
    ensures p + |Flatten(l)| < |ts| && ts[p + |Flatten(l)|] == Token.Operator(op)
    ensures |Flatten(BinaryOperator(op, l, r))| == |Flatten(l)| + 1 + |Flatten(r)|
    ensures FitsAt(ts, p + |Flatten(l)| + 1, op.Precedence(), r)
  {
    OccursBinary(ts, p, op, l, r);
    CanonicalBinary(op, l, r);
  }

  lemma CanonicalBinary(op: Operator, l: Ast, r: Ast)
    requires Canonical(BinaryOperator(op, l, r))
    ensures Canonical(l) && Canonical(r) && !EndsOpen(l)
    ensures l.BinaryOperator? ==> l.operator.Precedence() >= op.Precedence()
    ensures r.BinaryOperator? ==> r.operator.Precedence() > op.Precedence()
    ensures EndsOpen(BinaryOperator(op, l, r)) == EndsOpen(r)
  {
  }

  /** One round of the loop of `expr(rbp)`: the operator at `q` and the right
      operand after it join the left operand. */
  lemma {:induction false} LoopRound(ts: seq<Token>, q: nat, rbp: nat, op: Operator, l: Ast, r: Ast)
    requires q < |ts| && ts[q] == Token.Operator(op) && op.Precedence() > rbp
    requires FitsAt(ts, q + 1, op.Precedence(), r)
    ensures InfixLoop(ts, q, rbp, l)
         == InfixLoop(ts, q + 1 + |Flatten(r)|, rbp, BinaryOperator(op, l, r))
    decreases Size(r), 3
  {
    ExprReads(ts, q + 1, op.Precedence(), r);
    LoopAdvance(ts, q, rbp, l, Ok(BinaryOperator(op, l, r)), q + 1 + |Flatten(r)|);
  }

  /** Building the tokens of a canonical tree gives the tree back. */
  lemma BuildFlatten(t: Ast)
    requires Canonical(t)
    ensures BuildFromTokens(Flatten(t)) == Ok(t)
  {
    var ts := Flatten(t);
    assert ts[0..|ts|] == ts;
    ExprReads(ts, 0, 0, t);
  }

  /** The builder succeeds on exactly the token sequences of canonical trees,
      and returns that tree. */
  lemma BuildCharacterization(ts: seq<Token>, t: Ast)
    ensures BuildFromTokens(ts) == Ok(t) <==> ts == Flatten(t) && Canonical(t)
  {
    BuildShape(ts);
    if ts == Flatten(t) && Canonical(t) {
      BuildFlatten(t);
    }
  }

  /** Two canonical trees with the same tokens are the same tree. */
  lemma FlattenInjective(t: Ast, u: Ast)
    requires Canonical(t) && Canonical(u) && Flatten(t) == Flatten(u)
    ensures t == u
  {
    BuildFlatten(t);
    BuildFlatten(u);
  }

  // ---------------------------------------------------------------------------
  // The text of a tree
  // ---------------------------------------------------------------------------

  lemma LexAfterSpace(z: string)
    requires Lex(z).0 != []
    ensures Lex(" " + z) == Lex(z)
  {
    assert IsWhitespace(" "[0]);
    LexLeadingSpace(" ", z);
  }

  lemma SpaceSeparates(x: string, z: string)
    ensures Separated(x, " " + z)
  {
    assert (" " + z)[0] == ' ';
  }

  /** Tokenizing the text of a tree reads exactly the tokens of the tree. */
  lemma {:induction false} LexDisplay(t: Ast)
    ensures Lex(Display(t)) == (Flatten(t), "")
    decreases t, 1
  {
    match t
    case Number(n) =>
      LexTokenText(Token.Number(n));
    case BinaryOperator(op, l, r) =>
      LexDisplayBinary(op, l, r);
    case UnaryOperator(op, c) =>
      LexDisplay(c);
      LexTokenText(Token.Operator(op));
      LexConcat([op.Symbol()], Display(c));
    case Parenthesis(c) =>
      LexDisplayParenthesis(c);
  }

  /** Two texts that tokenize completely, joined by a space. */
  lemma LexSpaced(x: string, z: string, a: seq<Token>, b: seq<Token>)
    requires Lex(x) == (a, "") && Lex(z) == (b, "") && b != []
    ensures Lex(x + (" " + z)) == (a + b, "")
  {
    LexAfterSpace(z);
    SpaceSeparates(x, z);
    LexConcat(x, " " + z);
  }

  lemma SpacedText(x: string, y: string, z: string)
    ensures x + " " + y + " " + z == x + (" " + (y + (" " + z)))
  {
  }

  lemma ParenthesisText(d: string)
    ensures "( " + d + " )" == "(" + (" " + (d + (" " + ")")))
  {
    assert "( " == "(" + " ";
    assert " )" == " " + ")";
  }

  lemma {:induction false} LexDisplayBinary(op: Operator, l: Ast, r: Ast)
    ensures Lex(Display(BinaryOperator(op, l, r))) == (Flatten(BinaryOperator(op, l, r)), "")
    decreases BinaryOperator(op, l, r), 0
  {
    LexDisplay(l);
    LexDisplay(r);
    LexOperation(Display(l), op, Display(r), Flatten(l), Flatten(r));
    UnfoldBinary(op, l, r);
  }

  lemma UnfoldBinary(op: Operator, l: Ast, r: Ast)
    ensures Display(BinaryOperator(op, l, r)) == Display(l) + " " + [op.Symbol()] + " " + Display(r)
    ensures Flatten(BinaryOperator(op, l, r)) == Flatten(l) + [Token.Operator(op)] + Flatten(r)
  {
  }

  /** Two texts that tokenize completely, around an operator between spaces. */
  lemma LexOperation(x: string, op: Operator, z: string, a: seq<Token>, b: seq<Token>)
    requires Lex(x) == (a, "") && Lex(z) == (b, "") && b != []
    ensures Lex(x + " " + [op.Symbol()] + " " + z) == (a + [Token.Operator(op)] + b, "")
  {
    var sym, o := [op.Symbol()], [Token.Operator(op)];
    LexTokenText(Token.Operator(op));
    LexSpaced(sym, z, o, b);
    LexSpaced(x, sym + (" " + z), a, o + b);
    SpacedText(x, sym, z);
    ConcatAssoc(a, o, b);
  }

  lemma {:induction false} LexDisplayParenthesis(c: Ast)
    ensures Lex(Display(Parenthesis(c))) == (Flatten(Parenthesis(c)), "")
    decreases Parenthesis(c), 0
  {
    LexDisplay(c);
    LexGroup(Display(c), Flatten(c));
    UnfoldParenthesis(c);
  }

  lemma UnfoldParenthesis(c: Ast)
    ensures Display(Parenthesis(c)) == "( " + Display(c) + " )"
    ensures Flatten(Parenthesis(c)) == [OpenParenthesis] + Flatten(c) + [CloseParenthesis]
  {
  }

  /** A text that tokenizes completely, between `( ` and ` )`. */
  lemma LexGroup(d: string, f: seq<Token>)
    requires Lex(d) == (f, "") && f != []
    ensures Lex("( " + d + " )") == ([OpenParenthesis] + f + [CloseParenthesis], "")
  {
    var open, close := [OpenParenthesis], [CloseParenthesis];
    LexTokenText(CloseParenthesis);
    LexTokenText(OpenParenthesis);
    LexSpaced(d, ")", f, close);
    LexSpaced("(", d + (" " + ")"), open, f + close);
    ParenthesisText(d);
    ConcatAssoc(open, f, close);
  }

  /** The tokenizer reads the whole text of a tree. */
  lemma TokenizeDisplay(t: Ast)
    ensures Tokenize(Display(t)) == Ok(("", Flatten(t)))
  {
    LexDisplay(t);
  }

  /** The text of a canonical tree builds that tree again. */
  lemma BuildDisplay(t: Ast)
    requires Canonical(t)
    ensures BuildFromText(Display(t)) == Ok(t)
  {
    TokenizeDisplay(t);
    BuildFlatten(t);
  }

  /** Printing what the builder made of some text and building the printed
      text gives the same tree. */
  lemma DisplayRebuilds(s: string)
    ensures BuildFromText(s).Ok? ==> BuildFromText(Display(BuildFromText(s).value)) == BuildFromText(s)
  {
    if BuildFromText(s).Ok? {
      var ts := Tokenize(s).value.1;
      BuildShape(ts);
      BuildDisplay(BuildFromText(s).value);
    }
  }
}
