/**
 * The tokenizer (calculator-engine/src/parser/mod.rs): operators, tokens and
 * their precedences, the single-token readers, the whitespace skipper and the
 * fold that turns a string into a token sequence. The nom combinators
 * (`alt`, `fold_many1`, `many0`) are written out as functions with the same
 * observable behaviour; the error shapes of parser/errors.rs are datatypes.
 */
module Parser {
  import opened Wrappers

  /** `usize::max_value()` on a 64-bit target. */
  const USIZE_MAX: nat := 0xFFFF_FFFF_FFFF_FFFF

  datatype Operator = Minus | Plus | Divide | Multiply {

    /** Binding power used by the expression builder. */
    function Precedence(): (p: nat)
      ensures 1 <= p <= 2
    {
      match this
      case Minus | Plus => 1
      case Divide | Multiply => 2
    }

    /** The character `Display for Operator` writes. */
    function Symbol(): (c: char)
      ensures IsOperatorChar(c)
    {
      match this
      case Minus => '-'
      case Plus => '+'
      case Divide => '/'
      case Multiply => '*'
    }
  }

  /** The four characters `parse_operator` accepts. */
  predicate IsOperatorChar(c: char) {
    c == '+' || c == '-' || c == '*' || c == '/'
  }

  datatype Token =
    | Number(value: nat)
    | Operator(op: Operator)
    | OpenParenthesis
    | CloseParenthesis
  {
    /** An operator token has its operator's precedence; every other token has
        the largest `usize`, so the builder never stops in front of it. */
    function Precedence(): (p: nat)
      ensures 1 <= p
    {
      match this
      case Operator(op) => op.Precedence()
      case _ => USIZE_MAX
    }
  }

  datatype ParseUserError = InvalidOperator(operator: char)

  /** The nom error kinds the tokenizer's readers can report. */
  datatype ErrorKind = Eof | Char | Float | Many1

  /** `ParseError<String>`: a nom error with the input where it occurred, or a
      user error. `Panic` is not an error value of the engine: it stands for the
      failed `assert_eq!` of `parse_operator`, which aborts the whole call; no
      stage handles it, so every stage passes it on unchanged. */
  datatype ParseError =
    | Nom(input: string, kind: ErrorKind)
    | User(user: ParseUserError)
    | Panic(at: string)

  /** nom's `IResult`: on success the unread input and the value read. */
  type IResult<O> = Result<(string, O), ParseError>

  // ---------------------------------------------------------------------------
  // Single-token readers
  // ---------------------------------------------------------------------------

  /** `a` is what is left of `s` after a prefix was read. */
  predicate IsSuffix(a: string, s: string)
    decreases |s|
  {
    a == s || (s != [] && IsSuffix(a, s[1..]))
  }

  lemma {:induction false} SuffixIsSlice(a: string, s: string)
    requires IsSuffix(a, s)
    ensures |a| <= |s| && a == s[|s| - |a|..]
    decreases |s|
  {
    if a != s {
      SuffixIsSlice(a, s[1..]);
    }
  }

  lemma {:induction false} SliceIsSuffix(s: string, k: nat)
    requires k <= |s|
    ensures IsSuffix(s[k..], s)
    decreases k
  {
    if k > 0 {
      SliceIsSuffix(s[1..], k - 1);
      assert s[1..][k - 1..] == s[k..];
    }
  }

  /** A character whose UTF-8 encoding is one byte long. */
  predicate IsAscii(c: char) {
    c as int < 0x80
  }

  /** `parse_operator`: takes exactly one character and maps it to an operator.
      The check that the character taken is one byte long fails on any other
      character, and the call panics. */
  function ParseOperator(s: string): (r: IResult<Operator>)
    ensures r.Ok? <==> s != [] && IsOperatorChar(s[0])
    ensures r.Ok? ==> r.value.0 == s[1..] && r.value.1.Symbol() == s[0]
    ensures s == [] ==> r == Err(Nom(s, Eof))
    ensures s != [] && r.Err? ==>
      r.error == if IsAscii(s[0]) then User(InvalidOperator(s[0])) else Panic(s)
  {
    if |s| < 1 then Err(Nom(s, Eof))
    else if !IsAscii(s[0]) then Err(Panic(s))
    else
      var c, rest := s[0], s[1..];
      match c
      case '+' => Ok((rest, Plus))
      case '-' => Ok((rest, Minus))
      case '*' => Ok((rest, Multiply))
      case '/' => Ok((rest, Divide))
      case _ => Err(User(InvalidOperator(c)))
  }

  /** The characters `skip_whitespace` drops: space, tab, form feed, newline. */
  predicate IsWhitespace(c: char) {
    c == ' ' || c == '\t' || c == 12 as char || c == '\n'
  }

  /** Length of the maximal whitespace prefix of `s`. */
  function WhitespaceLen(s: string): (n: nat)
    ensures n <= |s|
    ensures forall k :: 0 <= k < n ==> IsWhitespace(s[k])
    ensures n == |s| || !IsWhitespace(s[n])
  {
    if s != [] && IsWhitespace(s[0]) then 1 + WhitespaceLen(s[1..]) else 0
  }

  /** `skip_whitespace`: advances over whitespace one character at a time. */
  method SkipWhitespace(s: string) returns (rest: string)
    ensures rest == s[WhitespaceLen(s)..]
  {
    var i := 0;
    while i < |s| && IsWhitespace(s[i])
      invariant i <= WhitespaceLen(s)
    {
      i := i + 1;
    }
    rest := s[i..];
  }

  predicate IsDigit(c: char) {
    '0' <= c <= '9'
  }

  /** Length of the maximal decimal-digit prefix of `s`. */
  function DigitsLen(s: string): (n: nat)
    ensures n <= |s|
    ensures forall k :: 0 <= k < n ==> IsDigit(s[k])
    ensures n == |s| || !IsDigit(s[n])
  {
    if s != [] && IsDigit(s[0]) then 1 + DigitsLen(s[1..]) else 0
  }

  /** The number a string of decimal digits denotes. */
  function DigitsValue(d: string): nat
    requires forall k :: 0 <= k < |d| ==> IsDigit(d[k])
  {
    if d == [] then 0
    else
      var last := d[|d| - 1];
      assert IsDigit(last);
      DigitsValue(d[..|d| - 1]) * 10 + (last as int - '0' as int)
  }

  /** `parse_number`, simplified to an unsigned decimal integer literal read
      with maximal munch. */
  function ParseNumber(s: string): (r: IResult<nat>)
    ensures r.Ok? <==> s != [] && IsDigit(s[0])
    ensures r.Ok? ==> |r.value.0| < |s| && IsSuffix(r.value.0, s)
  {
    var k := DigitsLen(s);
    if k == 0 then Err(Nom(s, Float))
    else
      SliceIsSuffix(s, k);
      Ok((s[k..], DigitsValue(s[..k])))
  }

  /** A number is the longest run of digits at the front of the input; it is
      read completely and the rest of the input is left. */
  lemma ParseNumberMunch(s: string)
    requires s != [] && IsDigit(s[0])
    ensures var k := DigitsLen(s);
      && 0 < k <= |s|
      && (forall j :: 0 <= j < k ==> IsDigit(s[j]))
      && (k == |s| || !IsDigit(s[k]))
      && ParseNumber(s) == Ok((s[k..], DigitsValue(s[..k])))
  {
  }

  /** nom's `char(c)`. */
  function ParseChar(c: char, s: string): (r: IResult<char>)
    ensures r.Ok? <==> s != [] && s[0] == c
    ensures r.Ok? ==> r.value == (s[1..], c)
  {
    if s != [] && s[0] == c then Ok((s[1..], c)) else Err(Nom(s, Char))
  }

  /** The characters a token can start with. */
  predicate StartsToken(c: char) {
    IsOperatorChar(c) || IsDigit(c) || c == '(' || c == ')'
  }

  /** The `alt` of `parse`: operator, then number, then `(`, then `)`; the
      first that succeeds gives the token. A panic of the operator reader ends
      the `alt` at once. */
  function Alternatives(s: string): (r: IResult<Token>)
    ensures r.Ok? <==> s != [] && StartsToken(s[0])
    ensures r.Ok? ==> |r.value.0| < |s| && IsSuffix(r.value.0, s)
    ensures r.Err? ==> (r.error.Panic? <==> s != [] && !IsAscii(s[0]))
    ensures r.Err? && r.error.Panic? ==> r.error == Panic(s)
  {
    match ParseOperator(s)
    case Ok((rest, op)) => Ok((rest, Operator(op)))
    case Err(Panic(at)) => Err(Panic(at))
    case Err(_) =>
      match ParseNumber(s)
      case Ok((rest, n)) => Ok((rest, Number(n)))
      case Err(_) =>
        match ParseChar('(', s)
        case Ok((rest, _)) => Ok((rest, OpenParenthesis))
        case Err(_) =>
          match ParseChar(')', s)
          case Ok((rest, _)) => Ok((rest, CloseParenthesis))
          case Err(e) => Err(e)
  }

  /** The fold panics at `s`: the first character after the whitespace is not
      one byte long. */
  predicate PanicsAt(s: string) {
    var u := s[WhitespaceLen(s)..];
    u != [] && !IsAscii(u[0])
  }

  /** One step of the fold: skip whitespace, then read one token. */
  function ParseToken(s: string): (r: IResult<Token>)
    ensures r.Ok? ==> |r.value.0| < |s| && IsSuffix(r.value.0, s)
    ensures r.Err? && r.error.Panic? <==> PanicsAt(s)
    ensures PanicsAt(s) ==> r == Err(Panic(s[WhitespaceLen(s)..]))
  {
    var u := s[WhitespaceLen(s)..];
    SliceIsSuffix(s, WhitespaceLen(s));
    var r := Alternatives(u);
    if r.Ok? then SuffixOfSuffix(s, u, r.value.0); r else r
  }

  lemma ConcatAssoc<T>(a: seq<T>, b: seq<T>, c: seq<T>)
    ensures a + (b + c) == (a + b) + c
  {
  }

  lemma {:induction false} SuffixOfSuffix(s: string, a: string, b: string)
    requires IsSuffix(a, s) && IsSuffix(b, a)
    ensures IsSuffix(b, s)
    decreases |s|
  {
    if a != s {
      SuffixOfSuffix(s[1..], a, b);
    }
  }

  // ---------------------------------------------------------------------------
  // The fold over the whole input
  // ---------------------------------------------------------------------------

  /** `fold_many1` without the "at least one" check: the tokens read one after
      the other, and the input left where the first step failed. */
  function Lex(s: string): (r: (seq<Token>, string))
    decreases |s|
    ensures IsSuffix(r.1, s) && |r.1| <= |s|
    ensures r.0 != [] ==> |r.1| < |s|
    ensures r.0 == [] <==> ParseToken(s).Err?
    ensures r.0 == [] ==> r.1 == s
  {
    match ParseToken(s)
    case Err(_) => ([], s)
    case Ok((rest, t)) =>
      var (ts, left) := Lex(rest);
      SuffixOfSuffix(s, rest, left);
      ([t] + ts, left)
  }

  /** One step of the fold. */
  lemma LexStep(s: string)
    requires ParseToken(s).Ok?
    ensures var (rest, t) := ParseToken(s).value;
      Lex(s) == ([t] + Lex(rest).0, Lex(rest).1)
  {
  }

  /** The fold stops only where no further token can be read. */
  lemma {:induction false} LexStops(s: string)
    ensures ParseToken(Lex(s).1).Err?
    decreases |s|
  {
    match ParseToken(s)
    case Err(_) =>
    case Ok((rest, _)) => LexStops(rest);
  }

  /** What `parse` returns: the unread input and the tokens, or, when not even
      one token can be read, nom's `Many1` error on the whole input. The fold
      panics instead when the step it stops at panics. */
  function Tokenize(s: string): (r: IResult<seq<Token>>)
    ensures r.Err? && r.error.Panic? <==> PanicsAt(Lex(s).1)
    ensures !PanicsAt(Lex(s).1) ==> (r.Err? <==> ParseToken(s).Err?)
    ensures r.Err? && !r.error.Panic? ==> r.error == Nom(s, Many1)
    ensures r.Ok? ==>
      var (rest, ts) := r.value;
      && ts != []
      && |rest| < |s| && IsSuffix(rest, s)
      && ParseToken(rest).Err? && !PanicsAt(rest)
  {
    LexStops(s);
    var (ts, rest) := Lex(s);
    if PanicsAt(rest) then Err(ParseToken(rest).error)
    else if ts == [] then Err(Nom(s, Many1))
    else Ok((rest, ts))
  }

  /** `tokens` have been read from `s`, and the fold goes on from `input`. */
  ghost predicate LexedUpTo(s: string, input: string, tokens: seq<Token>) {
    Lex(s).0 == tokens + Lex(input).0 && Lex(s).1 == Lex(input).1
  }

  lemma LexAdvance(s: string, input: string, tokens: seq<Token>)
    requires LexedUpTo(s, input, tokens)
    requires ParseToken(input).Ok?
    ensures var (rest, t) := ParseToken(input).value;
      LexedUpTo(s, rest, tokens + [t])
  {
    var (rest, t) := ParseToken(input).value;
    LexStep(input);
    ConcatAssoc(tokens, [t], Lex(rest).0);
  }

  lemma LexDone(s: string, input: string, tokens: seq<Token>)
    requires LexedUpTo(s, input, tokens)
    requires ParseToken(input).Err?
    ensures Tokenize(s) ==
      if ParseToken(input).error.Panic? then Err(ParseToken(input).error)
      else if tokens == [] then Err(Nom(s, Many1))
      else Ok((input, tokens))
  {
    assert tokens + [] == tokens;
  }

  /** `parse`: reads one token after the other, each after the whitespace in
      front of it, and appends it to the accumulated sequence. */
  method Parse(s: string) returns (r: IResult<seq<Token>>)
    ensures r == Tokenize(s)
  {
    var tokens: seq<Token> := [];
    var input := s;
    while true
      invariant LexedUpTo(s, input, tokens)
      decreases |input|
    {
      var skipped := SkipWhitespace(input);
      var next := Alternatives(skipped);
      if next.Err? {
        LexDone(s, input, tokens);
        if next.error.Panic? {
          return Err(next.error);
        }
        break;
      }
      LexAdvance(s, input, tokens);
      var (rest, token) := next.value;
      tokens := tokens + [token];
      input := rest;
    }
    r := if tokens == [] then Err(Nom(s, Many1)) else Ok((input, tokens));
  }

  // ---------------------------------------------------------------------------
  // Properties of the readers
  // ---------------------------------------------------------------------------

  /** Plus and Minus bind with 1, Multiply and Divide with 2. */
  lemma OperatorPrecedences()
    ensures Plus.Precedence() == Minus.Precedence() == 1
    ensures Multiply.Precedence() == Divide.Precedence() == 2
  {
  }

  /** A token's precedence is its operator's; every non-operator token has a
      precedence strictly above every operator's. */
  lemma TokenPrecedences(t: Token, op: Operator)
    ensures t.Operator? ==> t.Precedence() == t.op.Precedence()
    ensures !t.Operator? ==> t.Precedence() == USIZE_MAX > op.Precedence()
    ensures t.Operator? <==> t.Precedence() <= 2
  {
  }

  /** Reading back the character an operator displays as gives the operator. */
  lemma OperatorRoundTrip(op: Operator, rest: string)
    ensures ParseOperator([op.Symbol()] + rest) == Ok((rest, op))
  {
    assert ([op.Symbol()] + rest)[1..] == rest;
  }

  /** The examples of the operator tests. */
  lemma ParseOperatorExamples()
    ensures ParseOperator("+12") == Ok(("12", Plus))
    ensures ParseOperator("-") == Ok(("", Minus))
    ensures ParseOperator("*") == Ok(("", Multiply))
    ensures ParseOperator("/") == Ok(("", Divide))
    ensures ParseOperator("b") == Err(User(InvalidOperator('b')))
    ensures ParseOperator("\U{e9}") == Err(Panic("\U{e9}"))
  {
    assert "+12"[1..] == "12";
    assert "-"[1..] == "" && "*"[1..] == "" && "/"[1..] == "";
  }

  /** The examples of the whitespace tests. */
  lemma SkipWhitespaceExamples()
    ensures "   bla b "[WhitespaceLen("   bla b ")..] == "bla b "
    ensures "bla"[WhitespaceLen("bla")..] == "bla"
  {
    assert WhitespaceLen("bla") == 0;
    assert WhitespaceLen("bla b ") == 0;
    assert "   bla b "[1..] == "  bla b ";
    assert "  bla b "[1..] == " bla b ";
    assert " bla b "[1..] == "bla b ";
  }

  /** The operator alternative is tried first: a `+` or `-` is always an
      operator token, never the sign of a number. */
  lemma SignIsOperator(s: string)
    requires s != [] && (s[0] == '+' || s[0] == '-')
    ensures Alternatives(s).Ok? && Alternatives(s).value.1.Operator?
    ensures Alternatives(s).value.1.op == (if s[0] == '+' then Plus else Minus)
  {
  }

  /** `parse` fails when not even one token can be read: on empty input, on
      whitespace only, and on input whose first non-blank character starts no
      token. */
  lemma TokenizeFailures(s: string)
    ensures (forall k :: 0 <= k < |s| ==> IsWhitespace(s[k])) ==> Tokenize(s) == Err(Nom(s, Many1))
    ensures (var u := s[WhitespaceLen(s)..]; u != [] && !StartsToken(u[0]) && IsAscii(u[0]))
            ==> Tokenize(s) == Err(Nom(s, Many1))
    ensures (var u := s[WhitespaceLen(s)..]; u != [] && !IsAscii(u[0]))
            ==> Tokenize(s) == Err(Panic(s[WhitespaceLen(s)..]))
  {
    if forall k :: 0 <= k < |s| ==> IsWhitespace(s[k]) {
      assert WhitespaceLen(s) == |s|;
    }
  }

  // ---------------------------------------------------------------------------
  // Reading concatenated text
  // ---------------------------------------------------------------------------

  /** `y` cannot extend a number that ends `x`. */
  predicate Separated(x: string, y: string) {
    x == [] || y == [] || !IsDigit(x[|x| - 1]) || !IsDigit(y[0])
  }

  lemma {:induction false} WhitespaceLenConcat(x: string, y: string)
    requires WhitespaceLen(x) < |x|
    ensures WhitespaceLen(x + y) == WhitespaceLen(x)
  {
    if IsWhitespace(x[0]) {
      assert (x + y)[1..] == x[1..] + y;
      WhitespaceLenConcat(x[1..], y);
    }
  }

  lemma {:induction false} WhitespaceLenPrefix(w: string, z: string)
    requires forall k :: 0 <= k < |w| ==> IsWhitespace(w[k])
    ensures WhitespaceLen(w + z) == |w| + WhitespaceLen(z)
  {
    if w != [] {
      assert (w + z)[0] == w[0];
      assert IsWhitespace(w[0]);
      assert (w + z)[1..] == w[1..] + z;
      WhitespaceLenPrefix(w[1..], z);
    } else {
      assert w + z == z;
    }
  }

  lemma {:induction false} DigitsLenConcat(x: string, y: string)
    requires DigitsLen(x) < |x| || y == [] || !IsDigit(y[0])
    ensures DigitsLen(x + y) == DigitsLen(x)
  {
    if x == [] {
      assert x + y == y;
    } else if IsDigit(x[0]) {
      assert (x + y)[1..] == x[1..] + y;
      DigitsLenConcat(x[1..], y);
    }
  }

  lemma AlternativesConcat(u: string, y: string)
    requires Alternatives(u).Ok?
    requires Separated(u, y)
    ensures Alternatives(u + y) == Ok((Alternatives(u).value.0 + y, Alternatives(u).value.1))
  {
    assert (u + y)[0] == u[0];
    assert (u + y)[1..] == u[1..] + y;
    if !IsOperatorChar(u[0]) && IsDigit(u[0]) {
      var k := DigitsLen(u);
      DigitsLenConcat(u, y);
      assert (u + y)[..k] == u[..k];
      assert (u + y)[k..] == u[k..] + y;
    }
  }

  /** Reading a token from `x + y` reads the same token as from `x` when the
      token does not run into `y`. */
  lemma ParseTokenConcat(x: string, y: string)
    requires ParseToken(x).Ok?
    requires Separated(x, y)
    ensures ParseToken(x + y) == Ok((ParseToken(x).value.0 + y, ParseToken(x).value.1))
  {
    var w := WhitespaceLen(x);
    WhitespaceLenConcat(x, y);
    assert (x + y)[w..] == x[w..] + y;
    AlternativesConcat(x[w..], y);
  }

  /** Leading whitespace does not change what is read. */
  lemma ParseTokenLeadingSpace(w: string, z: string)
    requires forall k :: 0 <= k < |w| ==> IsWhitespace(w[k])
    ensures ParseToken(w + z) == ParseToken(z)
  {
    WhitespaceLenPrefix(w, z);
    assert (w + z)[|w| + WhitespaceLen(z)..] == z[WhitespaceLen(z)..];
  }

  lemma LexLeadingSpace(w: string, z: string)
    requires forall k :: 0 <= k < |w| ==> IsWhitespace(w[k])
    requires ParseToken(z).Ok?
    ensures Lex(w + z) == Lex(z)
  {
    ParseTokenLeadingSpace(w, z);
  }

  lemma SeparatedSuffix(x: string, rest: string, y: string)
    requires IsSuffix(rest, x) && Separated(x, y)
    ensures Separated(rest, y)
  {
    if rest != [] {
      SuffixIsSlice(rest, x);
      assert rest[|rest| - 1] == x[|x| - 1];
    }
  }

  lemma EmptyConcat<T>(x: seq<T>, y: seq<T>)
    requires x == []
    ensures x + y == y
  {
  }

  /** Text that reads completely, followed by text it does not run into, reads
      as the concatenation of the two token sequences. */
  lemma {:induction false} LexConcat(x: string, y: string)
    requires Lex(x).1 == []
    requires Separated(x, y)
    ensures Lex(x + y) == (Lex(x).0 + Lex(y).0, Lex(y).1)
    decreases |x|
  {
    if x == [] {
      EmptyConcat(x, y);
      EmptyConcat(Lex(x).0, Lex(y).0);
    } else {
      var (rest, t) := ParseToken(x).value;
      ParseTokenConcat(x, y);
      SeparatedSuffix(x, rest, y);
      LexStep(x);
      LexStep(x + y);
      LexConcat(rest, y);
      ConcatAssoc([t], Lex(rest).0, Lex(y).0);
    }
  }

  // ---------------------------------------------------------------------------
  // Printing tokens and reading them back
  // ---------------------------------------------------------------------------

  function Digit(k: nat): (c: char)
    requires k < 10
    ensures IsDigit(c) && c as int - '0' as int == k
  {
    ('0' as int + k) as char
  }

  /** Decimal digits of `n` without leading zeros, as Rust prints an integral
      double. */
  function NatToDecimal(n: nat): (d: string)
    ensures d != [] && forall k :: 0 <= k < |d| ==> IsDigit(d[k])
    ensures DigitsValue(d) == n
  {
    if n < 10 then [Digit(n)]
    else
      var d := NatToDecimal(n / 10) + [Digit(n % 10)];
      assert d[..|d| - 1] == NatToDecimal(n / 10);
      d
  }

  /** The text of one token. */
  function TokenText(t: Token): string {
    match t
    case Number(n) => NatToDecimal(n)
    case Operator(op) => [op.Symbol()]
    case OpenParenthesis => "("
    case CloseParenthesis => ")"
  }

  /** Tokens printed one after the other, separated by single spaces. */
  function Render(ts: seq<Token>): string {
    if ts == [] then ""
    else if |ts| == 1 then TokenText(ts[0])
    else TokenText(ts[0]) + " " + Render(ts[1..])
  }

  lemma LexEmpty()
    ensures Lex("") == ([], "")
  {
    assert ParseToken("").Err?;
  }

  /** Text that is exactly one token reads as that token. */
  lemma LexSingle(d: string, t: Token)
    requires ParseToken(d) == Ok(("", t))
    ensures Lex(d) == ([t], "")
  {
    LexStep(d);
    LexEmpty();
    assert [t] + [] == [t];
  }

  lemma NumberTextReads(n: nat)
    ensures ParseToken(NatToDecimal(n)) == Ok(("", Number(n)))
  {
    var d := NatToDecimal(n);
    assert WhitespaceLen(d) == 0 by {
      assert IsDigit(d[0]);
    }
    assert d[0..] == d;
    assert DigitsLen(d) == |d|;
    assert d[..|d|] == d && d[|d|..] == "";
    assert ParseNumber(d) == Ok(("", n));
    assert !IsOperatorChar(d[0]) by {
      assert IsDigit(d[0]);
    }
  }

  lemma CharTextReads(t: Token)
    requires !t.Number?
    ensures ParseToken(TokenText(t)) == Ok(("", t))
  {
    var d := TokenText(t);
    assert |d| == 1 && d[1..] == "" && d[0..] == d;
    assert WhitespaceLen(d) == 0;
  }

  lemma LexTokenText(t: Token)
    ensures Lex(TokenText(t)) == ([t], "")
    ensures TokenText(t) != [] && !IsWhitespace(TokenText(t)[0])
  {
    if t.Number? {
      NumberTextReads(t.value);
      assert IsDigit(TokenText(t)[0]);
    } else {
      CharTextReads(t);
    }
    LexSingle(TokenText(t), t);
  }

  lemma HeadTail<T>(s: seq<T>)
    requires s != []
    ensures [s[0]] + s[1..] == s
  {
  }

  /** Lexing the printed text of a token sequence gives back the sequence. */
  lemma {:induction false} LexRender(ts: seq<Token>)
    ensures Lex(Render(ts)) == (ts, "")
  {
    if ts == [] {
      LexEmpty();
    } else if |ts| == 1 {
      LexTokenText(ts[0]);
      HeadTail(ts);
    } else {
      var head, tail := TokenText(ts[0]), Render(ts[1..]);
      LexTokenText(ts[0]);
      LexRender(ts[1..]);
      assert IsWhitespace(" "[0]);
      LexLeadingSpace(" ", tail);
      LexConcat(head, " " + tail);
      ConcatAssoc(head, " ", tail);
      HeadTail(ts);
    }
  }

  /** Printing any non-empty token sequence and tokenizing the text gives back
      the sequence, with nothing left unread. */
  lemma TokenizeRender(ts: seq<Token>)
    requires ts != []
    ensures Tokenize(Render(ts)) == Ok(("", ts))
  {
    LexRender(ts);
  }
}
