/** A printer for expression trees that writes no whitespace and only the
    parentheses the grammar cannot do without. Parsing what it prints gives
    the tree back (`ParsePrint`): this is how precedence and associativity are
    stated for every tree at once. A sum or difference printed as the right
    operand of `+` or `-`, or anywhere inside `*` or `/`, needs parentheses; a
    product or quotient needs them only as the right operand of `*` or `/`;
    a chain of one level folds to the left without any. */
module Printer {
  import opened Syntax
  import opened Grammar
  import opened Layout

  /** Orders the three printing levels on one tree so that the calls a level
      makes on the same tree (expression to term to factor, and a factor back
      to a parenthesised expression) go down. */
  function Rank(e: Expr, level: Level): nat {
    if e.Add? || e.Sub? then
      (match level case AtFactor => 1 case AtTerm => 2 case AtExpression => 0)
    else if e.Mul? || e.Div? then
      (match level case AtFactor => 2 case AtTerm => 0 case AtExpression => 1)
    else
      (match level case AtFactor => 0 case AtTerm => 1 case AtExpression => 2)
  }

  /** The three precedence levels of the grammar. */
  datatype Level = AtFactor | AtTerm | AtExpression

  function PrintExpression(e: Expr): string
    decreases e, Rank(e, AtExpression)
  {
    match e
    case Add(l, r) => PrintExpression(l) + "+" + PrintTerm(r)
    case Sub(l, r) => PrintExpression(l) + "-" + PrintTerm(r)
    case _ => PrintTerm(e)
  }

  function PrintTerm(e: Expr): string
    decreases e, Rank(e, AtTerm)
  {
    match e
    case Mul(l, r) => PrintTerm(l) + "*" + PrintFactor(r)
    case Div(l, r) => PrintTerm(l) + "/" + PrintFactor(r)
    case _ => PrintFactor(e)
  }

  function PrintFactor(e: Expr): string
    decreases e, Rank(e, AtFactor)
  {
    match e
    case Num(t) => t
    case Neg(x) => "-" + PrintFactor(x)
    case _ => "(" + PrintExpression(e) + ")"
  }

  /** A printed factor is read back whole, provided no digit or dot follows it. */
  lemma {:induction false} FactorRoundTrip(e: Expr, s: string, p: nat)
    requires WellFormed(e) && At(s, p, PrintFactor(e))
    requires NumberStop(s, p + |PrintFactor(e)|)
    ensures Factor(s, p) == Ok(Parsed(e, p + |PrintFactor(e)|))
    decreases e, Rank(e, AtFactor), 1
  {
    hide Factor, Term, TermTail, Expression, ExpressionTail;
    if e.Num? {
      FactorNumeral(s, p, e.token);
    } else if e.Neg? {
      FactorNegated(e, s, p);
    } else {
      FactorParenthesisedRoundTrip(e, s, p);
    }
  }

  lemma {:induction false} FactorNegated(e: Expr, s: string, p: nat)
    requires e.Neg? && WellFormed(e) && At(s, p, PrintFactor(e))
    requires NumberStop(s, p + |PrintFactor(e)|)
    ensures Factor(s, p) == Ok(Parsed(e, p + |PrintFactor(e)|))
    decreases e, Rank(e, AtFactor), 0
  {
    hide Factor, Term, TermTail, Expression, ExpressionTail;
    var operand := PrintFactor(e.operand);
    assert PrintFactor(e) == "-" + operand && WellFormed(e.operand);
    hide PrintExpression, PrintTerm, PrintFactor, WellFormed;
    AtSplit(s, p, "-", operand);
    AtChar(s, p, "-", 0);
    hide At;
    FactorRoundTrip(e.operand, s, p + 1);
    FactorMinus(s, p, e.operand, p + 1 + |operand|);
  }

  lemma {:induction false} FactorParenthesisedRoundTrip(e: Expr, s: string, p: nat)
    requires !e.Num? && !e.Neg? && WellFormed(e) && At(s, p, PrintFactor(e))
    ensures Factor(s, p) == Ok(Parsed(e, p + |PrintFactor(e)|))
    decreases e, Rank(e, AtFactor), 0
  {
    hide Factor, Term, TermTail, Expression, ExpressionTail;
    hide PrintExpression, PrintTerm, PrintFactor, WellFormed, At, IsWhitespace;
    ParenLayout(e, s, p);
    var q := p + 1 + |PrintExpression(e)|;
    ExpressionPrefix(e, s, p + 1);
    FactorParenthesised(s, p, e, q);
  }

  /** Where the parts of a parenthesised sum or product lie. */
  lemma ParenLayout(e: Expr, s: string, p: nat)
    requires !e.Num? && !e.Neg? && At(s, p, PrintFactor(e))
    ensures var q := p + 1 + |PrintExpression(e)|;
              q < |s| && s[p] == '(' && s[q] == ')' && At(s, p + 1, PrintExpression(e))
              && NumberStop(s, q) && TermStop(s, q)
              && p + |PrintFactor(e)| == q + 1
  {
    var inner := PrintExpression(e);
    assert PrintFactor(e) == "(" + inner + ")";
    hide PrintExpression, PrintTerm, PrintFactor, WellFormed, IsWhitespace;
    AtBinary(s, p, "", "(", inner + ")");
    AtSplit(s, p + 1, inner, ")");
    AtChar(s, p + 1 + |inner|, ")", 0);
  }

  /** A printed term is read as that tree, and the product loop then goes on
      from the end of it: the left operand of each `*` or `/` is everything
      before it. */
  lemma {:induction false} TermPrefix(e: Expr, s: string, p: nat)
    requires WellFormed(e) && At(s, p, PrintTerm(e))
    requires NumberStop(s, p + |PrintTerm(e)|)
    ensures Term(s, p) == TermTail(s, e, p + |PrintTerm(e)|)
    decreases e, Rank(e, AtTerm), 1
  {
    hide Factor, Term, TermTail, Expression, ExpressionTail;
    if e.Mul? || e.Div? {
      hide PrintExpression, PrintTerm, PrintFactor, WellFormed, At, IsWhitespace;
      TermProduct(e, s, p);
    } else {
      TermIsFactor(e);
      hide PrintExpression, PrintTerm, PrintFactor, WellFormed, At, IsWhitespace;
      FactorRoundTrip(e, s, p);
      TermFirst(s, p, e, p + |PrintFactor(e)|);
    }
  }

  /** A tree that is no product or quotient prints as a factor. */
  lemma TermIsFactor(e: Expr)
    requires !e.Mul? && !e.Div?
    ensures PrintTerm(e) == PrintFactor(e)
  {
  }

  /** Where the parts of a printed product or quotient lie. */
  lemma ProductLayout(e: Expr, s: string, p: nat)
    requires (e.Mul? || e.Div?) && WellFormed(e) && At(s, p, PrintTerm(e))
    requires NumberStop(s, p + |PrintTerm(e)|)
    ensures WellFormed(e.left) && WellFormed(e.right)
    ensures At(s, p, PrintTerm(e.left)) && NumberStop(s, p + |PrintTerm(e.left)|)
    ensures var q := p + |PrintTerm(e.left)|;
              q < |s| && s[q] == (if e.Mul? then '*' else '/')
              && At(s, q + 1, PrintFactor(e.right))
              && p + |PrintTerm(e)| == q + 1 + |PrintFactor(e.right)|
  {
    var op := if e.Mul? then "*" else "/";
    assert PrintTerm(e) == PrintTerm(e.left) + op + PrintFactor(e.right);
    assert WellFormed(e.left) && WellFormed(e.right);
    hide PrintExpression, PrintTerm, PrintFactor, WellFormed, IsWhitespace;
    AtBinary(s, p, PrintTerm(e.left), op, PrintFactor(e.right));
  }

  lemma {:induction false} TermProduct(e: Expr, s: string, p: nat)
    requires (e.Mul? || e.Div?) && WellFormed(e) && At(s, p, PrintTerm(e))
    requires NumberStop(s, p + |PrintTerm(e)|)
    ensures Term(s, p) == TermTail(s, e, p + |PrintTerm(e)|)
    decreases e, Rank(e, AtTerm), 0
  {
    hide Factor, Term, TermTail, Expression, ExpressionTail;
    hide PrintExpression, PrintTerm, PrintFactor, WellFormed, At, IsWhitespace;
    ProductLayout(e, s, p);
    var q := p + |PrintTerm(e.left)|;
    TermPrefix(e.left, s, p);
    FactorRoundTrip(e.right, s, q + 1);
    TermNext(s, p, e, q, q + 1 + |PrintFactor(e.right)|);
  }

  /** A printed expression is read as that tree, and the sum loop then goes
      on from the end of it. */
  lemma {:induction false} ExpressionPrefix(e: Expr, s: string, p: nat)
    requires WellFormed(e) && At(s, p, PrintExpression(e))
    requires NumberStop(s, p + |PrintExpression(e)|) && TermStop(s, p + |PrintExpression(e)|)
    ensures Expression(s, p) == ExpressionTail(s, e, p + |PrintExpression(e)|)
    decreases e, Rank(e, AtExpression), 1
  {
    hide Factor, Term, TermTail, Expression, ExpressionTail;
    if e.Add? || e.Sub? {
      hide PrintExpression, PrintTerm, PrintFactor, WellFormed, At, IsWhitespace;
      ExpressionSum(e, s, p);
    } else {
      assert PrintExpression(e) == PrintTerm(e);
      hide PrintExpression, PrintTerm, PrintFactor, WellFormed, At, IsWhitespace;
      TermPrefix(e, s, p);
      ExpressionFirst(s, p, e, p + |PrintTerm(e)|);
    }
  }

  /** Where the parts of a printed sum or difference lie. */
  lemma SumLayout(e: Expr, s: string, p: nat)
    requires (e.Add? || e.Sub?) && WellFormed(e) && At(s, p, PrintExpression(e))
    requires NumberStop(s, p + |PrintExpression(e)|) && TermStop(s, p + |PrintExpression(e)|)
    ensures WellFormed(e.left) && WellFormed(e.right)
    ensures At(s, p, PrintExpression(e.left))
    ensures var q := p + |PrintExpression(e.left)|;
              NumberStop(s, q) && TermStop(s, q)
              && q < |s| && s[q] == (if e.Add? then '+' else '-')
              && At(s, q + 1, PrintTerm(e.right))
              && p + |PrintExpression(e)| == q + 1 + |PrintTerm(e.right)| <= |s|
  {
    var op := if e.Add? then "+" else "-";
    assert PrintExpression(e) == PrintExpression(e.left) + op + PrintTerm(e.right);
    assert WellFormed(e.left) && WellFormed(e.right);
    hide PrintExpression, PrintTerm, PrintFactor, WellFormed, IsWhitespace;
    AtBinary(s, p, PrintExpression(e.left), op, PrintTerm(e.right));
  }

  lemma {:induction false} ExpressionSum(e: Expr, s: string, p: nat)
    requires (e.Add? || e.Sub?) && WellFormed(e) && At(s, p, PrintExpression(e))
    requires NumberStop(s, p + |PrintExpression(e)|) && TermStop(s, p + |PrintExpression(e)|)
    ensures Expression(s, p) == ExpressionTail(s, e, p + |PrintExpression(e)|)
    decreases e, Rank(e, AtExpression), 0
  {
    hide Factor, Term, TermTail, Expression, ExpressionTail;
    hide PrintExpression, PrintTerm, PrintFactor, WellFormed, At, IsWhitespace;
    SumLayout(e, s, p);
    var q := p + |PrintExpression(e.left)|;
    ExpressionPrefix(e.left, s, p);
    TermPrefix(e.right, s, q + 1);
    ExpressionNext(s, p, e, q, q + 1 + |PrintTerm(e.right)|);
  }

  /** Parsing the printed form of a tree gives the tree back: `*` and `/`
      bind tighter than `+` and `-`, operators of one level group to the
      left, and unary minus binds tightest. */
  lemma ParsePrint(e: Expr)
    requires WellFormed(e)
    ensures Parse(PrintExpression(e)) == Ok(e)
  {
    hide Factor, Term, TermTail, Expression, ExpressionTail;
    var s := PrintExpression(e);
    ExpressionPrefix(e, s, 0);
    assert SkipWs(s, |s|) == |s|;
    ExpressionDone(s, e, |s|, |s|);
  }
}
