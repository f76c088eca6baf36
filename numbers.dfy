/**
 * The value domain of the evaluator. The engine computes with IEEE-754
 * doubles; here a value is an exact real, one of the two infinities, or NaN.
 * The special values follow the IEEE rules for `+ - * /` and negation;
 * rounding, overflow and the sign of zero are not modelled.
 */
module Numbers {

  datatype Num = Finite(r: real) | PosInf | NegInf | NaN

  /** -1, 0 or 1: the sign of a value other than NaN. */
  function Sign(x: Num): int
    requires !x.NaN?
  {
    match x
    case Finite(a) => if a > 0.0 then 1 else if a < 0.0 then -1 else 0
    case PosInf => 1
    case NegInf => -1
  }

  /** The infinity whose sign is `s` (`s` is 1 or -1). */
  function Infinity(s: int): Num {
    if s > 0 then PosInf else NegInf
  }

  predicate IsZero(x: Num) {
    x.Finite? && x.r == 0.0
  }

  predicate IsInfinite(x: Num) {
    x.PosInf? || x.NegInf?
  }

  /** Negation flips the sign and keeps NaN and finiteness. */
  function Neg(x: Num): (r: Num)
    ensures r.NaN? <==> x.NaN?
    ensures r.Finite? <==> x.Finite?
    ensures x.Finite? ==> r.r == -x.r
    ensures !x.NaN? ==> Sign(r) == -Sign(x)
  {
    match x
    case Finite(a) => Finite(-a)
    case PosInf => NegInf
    case NegInf => PosInf
    case NaN => NaN
  }

  /** The sum is NaN exactly in the invalid cases of IEEE 754 (a NaN operand,
      or infinities of opposite signs); otherwise an infinite operand gives
      that infinity, and two finite operands their exact sum. */
  function Add(x: Num, y: Num): (r: Num)
    ensures r.NaN? <==> x.NaN? || y.NaN? || (IsInfinite(x) && IsInfinite(y) && x != y)
    ensures !r.NaN? && IsInfinite(x) ==> r == x
    ensures !r.NaN? && IsInfinite(y) ==> r == y
    ensures x.Finite? && y.Finite? ==> r == Finite(x.r + y.r)
  {
    match (x, y)
    case (NaN, _) => NaN
    case (_, NaN) => NaN
    case (PosInf, NegInf) => NaN
    case (NegInf, PosInf) => NaN
    case (PosInf, _) => PosInf
    case (NegInf, _) => NegInf
    case (_, PosInf) => PosInf
    case (_, NegInf) => NegInf
    case (Finite(a), Finite(b)) => Finite(a + b)
  }

  /** IEEE subtraction is addition of the negated operand: NaN for a NaN
      operand or for equal infinities, the exact difference of finite
      operands. */
  function Sub(x: Num, y: Num): (r: Num)
    ensures r.NaN? <==> x.NaN? || y.NaN? || (IsInfinite(x) && x == y)
    ensures !r.NaN? && IsInfinite(x) ==> r == x
    ensures !r.NaN? && IsInfinite(y) ==> r == Neg(y)
    ensures x.Finite? && y.Finite? ==> r == Finite(x.r - y.r)
  {
    Add(x, Neg(y))
  }

  /** The product is NaN for a NaN operand or for an infinity times zero;
      otherwise its sign is the product of the signs, and it is infinite
      exactly when an operand is. */
  function Mul(x: Num, y: Num): (r: Num)
    ensures r.NaN? <==> x.NaN? || y.NaN? || (IsInfinite(x) && IsZero(y)) || (IsZero(x) && IsInfinite(y))
    ensures !r.NaN? ==> Sign(r) == Sign(x) * Sign(y)
    ensures !r.NaN? ==> (IsInfinite(r) <==> IsInfinite(x) || IsInfinite(y))
    ensures x.Finite? && y.Finite? ==> r == Finite(x.r * y.r)
  {
    if x.NaN? || y.NaN? then NaN
    else if x.Finite? && y.Finite? then Finite(x.r * y.r)
    else if Sign(x) * Sign(y) == 0 then NaN
    else Infinity(Sign(x) * Sign(y))
  }

  /** The quotient is NaN for a NaN operand, zero by zero and an infinity by
      an infinity. A finite value by a non-zero finite one is the exact
      quotient, a finite value by an infinity is zero, and a non-zero value by
      zero or an infinity by a finite value is infinite. */
  function Div(x: Num, y: Num): (r: Num)
    ensures r.NaN? <==> x.NaN? || y.NaN? || (IsZero(x) && IsZero(y)) || (IsInfinite(x) && IsInfinite(y))
    ensures x.Finite? && y.Finite? && y.r != 0.0 ==> r == Finite(x.r / y.r)
    ensures x.Finite? && IsInfinite(y) ==> IsZero(r)
    ensures !r.NaN? && (IsZero(y) || IsInfinite(x)) ==> IsInfinite(r)
  {
    if x.NaN? || y.NaN? then NaN
    else if x.Finite? && y.Finite? then
      if y.r != 0.0 then Finite(x.r / y.r)
      else if x.r == 0.0 then NaN
      else Infinity(Sign(x))
    else if x.Finite? then Finite(0.0)
    else if y.Finite? then Infinity(if Sign(y) < 0 then -Sign(x) else Sign(x))
    else NaN
  }

  /** Dividing a non-zero finite value by zero gives the infinity of its sign,
      zero by zero gives NaN; neither is an error. */
  lemma DivisionByZero(a: real)
    ensures Div(Finite(a), Finite(0.0)) == (if a > 0.0 then PosInf else if a < 0.0 then NegInf else NaN)
  {
  }

  /** Negation is an involution, on the special values too. */
  lemma NegInvolutive(x: Num)
    ensures Neg(Neg(x)) == x
  {
  }

  /** NaN propagates through every operation. */
  lemma NaNAbsorbs(x: Num)
    ensures Add(NaN, x) == Add(x, NaN) == NaN
    ensures Sub(NaN, x) == Sub(x, NaN) == NaN
    ensures Mul(NaN, x) == Mul(x, NaN) == NaN
    ensures Div(NaN, x) == Div(x, NaN) == NaN
    ensures Neg(NaN) == NaN
  {
  }

  /** Zero is the identity of addition, and subtracting from zero negates. */
  lemma ZeroIdentities(x: Num)
    ensures Add(Finite(0.0), x) == x
    ensures Sub(Finite(0.0), x) == Neg(x)
  {
  }
}
