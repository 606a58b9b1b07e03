/** What a parsed tree computes, over exact decimals. The evaluator reads
    each numeral with the double conversion and folds the operators over
    doubles; here a numeral denotes the decimal it spells and the operators
    are exact, so values agree with the evaluator wherever the double
    arithmetic is exact (small integers, halves, quarters and the like). */
module Arithmetic {
  import opened Syntax

  function DigitValue(c: char): nat
    requires IsDigit(c)
  {
    c as int - '0' as int
  }

  /** The digits of the token read as one whole number, the dot skipped. */
  function Mantissa(tok: string): nat
    requires NumberChars(tok)
  {
    if tok == [] then 0
    else if tok[|tok| - 1] == '.' then Mantissa(tok[..|tok| - 1])
    else 10 * Mantissa(tok[..|tok| - 1]) + DigitValue(tok[|tok| - 1])
  }

  /** How many digits stand after the dot. */
  function Decimals(tok: string): nat
    requires NumberChars(tok)
  {
    if tok == [] || tok[|tok| - 1] == '.' || '.' !in tok then 0
    else 1 + Decimals(tok[..|tok| - 1])
  }

  function Pow10(n: nat): (r: nat)
    ensures r >= 1
  {
    if n == 0 then 1 else 10 * Pow10(n - 1)
  }

  /** The decimal a numeral spells: its digits scaled down by one power of
      ten for each digit after the dot. */
  function TokenValue(tok: string): (v: real)
    requires NumberChars(tok)
    ensures v >= 0.0
  {
    Mantissa(tok) as real / Pow10(Decimals(tok)) as real
  }

  /** A dot at the end of a token changes nothing: `5.` is `5`. */
  lemma TrailingDotValue(tok: string)
    requires NumberChars(tok) && '.' !in tok
    ensures NumberChars(tok + ".") && TokenValue(tok + ".") == TokenValue(tok)
  {
    assert (tok + ".")[..|tok|] == tok;
  }

  /** A dot in front of one digit makes tenths: `.5` is one half. */
  lemma LeadingDotValue(c: char)
    requires IsDigit(c)
    ensures NumberChars(['.', c]) && TokenValue(['.', c]) == DigitValue(c) as real / 10.0
  {
    var tok := ['.', c];
    assert tok[..1] == ['.'] && ['.'][..0] == [];
    assert Mantissa(['.']) == 0 && Decimals(['.']) == 0;
    assert tok[1] == c && '.' in tok;
    assert Mantissa(tok) == DigitValue(c) && Decimals(tok) == 1;
  }

  /** The value of a tree, or None where it divides by zero: a tree
      without quotients always has one. */
  function Value(e: Expr): (v: Option<real>)
    requires WellFormed(e)
    ensures !HasQuotient(e) ==> v.Some?
  {
    match e
    case Num(t) => Some(TokenValue(t))
    case Neg(x) => var a := Value(x); if a.Some? then Some(-a.value) else None
    case Add(l, r) => Apply(Plus, Value(l), Value(r))
    case Sub(l, r) => Apply(Minus, Value(l), Value(r))
    case Mul(l, r) => Apply(Times, Value(l), Value(r))
    case Div(l, r) => Apply(Over, Value(l), Value(r))
  }

  datatype Operator = Plus | Minus | Times | Over

  /** One binary operator on two operand values; a zero divisor gives none. */
  function Apply(op: Operator, a: Option<real>, b: Option<real>): Option<real> {
    if a.None? || b.None? || (op == Over && b.value == 0.0) then None
    else
      match op
      case Plus => Some(a.value + b.value)
      case Minus => Some(a.value - b.value)
      case Times => Some(a.value * b.value)
      case Over => Some(a.value / b.value)
  }

  /** Two unary minuses cancel. */
  lemma DoubleNegation(x: Expr)
    requires WellFormed(x)
    ensures Value(Neg(Neg(x))) == Value(x)
  {
  }

  /** The tree divides somewhere. */
  predicate HasQuotient(e: Expr) {
    match e
    case Num(_) => false
    case Neg(x) => HasQuotient(x)
    case Div(_, _) => true
    case _ => HasQuotient(e.left) || HasQuotient(e.right)
  }

  /** Some quotient in the tree has a divisor worth zero. */
  predicate DividesByZero(e: Expr)
    requires WellFormed(e)
  {
    match e
    case Num(_) => false
    case Neg(x) => DividesByZero(x)
    case Add(l, r) => DividesByZero(l) || DividesByZero(r)
    case Sub(l, r) => DividesByZero(l) || DividesByZero(r)
    case Mul(l, r) => DividesByZero(l) || DividesByZero(r)
    case Div(l, r) => DividesByZero(l) || DividesByZero(r) || Value(r) == Some(0.0)
  }

  /** Division by zero is the only way a tree has no value. */
  lemma {:induction false} ValueDefined(e: Expr)
    requires WellFormed(e)
    ensures Value(e).None? <==> DividesByZero(e)
  {
    match e
    case Num(_) =>
    case Neg(x) => ValueDefined(x);
    case Add(l, r) => ValueDefined(l); ValueDefined(r);
    case Sub(l, r) => ValueDefined(l); ValueDefined(r);
    case Mul(l, r) => ValueDefined(l); ValueDefined(r);
    case Div(l, r) => ValueDefined(l); ValueDefined(r);
  }
}
