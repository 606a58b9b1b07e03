/** Facts for reading a known text at a known place: where a piece of text
    lies in the input, and how each grammar function behaves when the next
    token is known. The round trip of module Printer and the worked cases of
    module Examples are built from these steps. */
module Layout {
  import opened Syntax
  import opened Grammar

  /** `t` occurs in `s` at `p`. */
  predicate At(s: string, p: nat, t: string) {
    p + |t| <= |s| && s[p..p + |t|] == t
  }

  lemma AtSplit(s: string, p: nat, a: string, b: string)
    requires At(s, p, a + b)
    ensures At(s, p, a) && At(s, p + |a|, b)
  {
    assert s[p..p + |a|] == s[p..p + |a + b|][..|a|];
    assert s[p + |a|..p + |a| + |b|] == s[p..p + |a + b|][|a|..];
  }

  lemma AtChar(s: string, p: nat, t: string, i: nat)
    requires At(s, p, t) && i < |t|
    ensures s[p + i] == t[i]
  {
    assert s[p..p + |t|][i] == s[p + i];
  }

  /** A printed binary node splits at its operator. */
  lemma AtBinary(s: string, p: nat, left: string, op: string, right: string)
    requires |op| == 1 && At(s, p, left + op + right)
    ensures At(s, p, left) && At(s, p + |left| + 1, right) && s[p + |left|] == op[0]
    ensures p + |left| + 1 + |right| <= |s| && |left + op + right| == |left| + 1 + |right|
  {
    AtSplit(s, p, left + op, right);
    AtSplit(s, p, left, op);
    AtChar(s, p + |left|, op, 0);
  }

  /** A run of number characters ending where a number cannot continue is
      read whole. */
  lemma {:induction false} NumberEndOfRun(s: string, p: nat, q: nat)
    requires p <= q <= |s| && NumberStop(s, q)
    requires forall i :: p <= i < q ==> IsNumberChar(s[i])
    ensures NumberEnd(s, p) == q
    decreases q - p
  {
    if p < q {
      NumberEndOfRun(s, p + 1, q);
    }
  }

  /** A numeral followed by no digit or dot is read as a factor. */
  lemma FactorNumeral(s: string, p: nat, tok: string)
    requires Numeral(tok) && At(s, p, tok) && NumberStop(s, p + |tok|)
    ensures Factor(s, p) == Ok(Parsed(Num(tok), p + |tok|))
  {
    hide Factor, Term, TermTail, Expression, ExpressionTail;
    AtChar(s, p, tok, 0);
    assert SkipWs(s, p) == p;
    FactorIsNumber(s, p, p);
    NumberToken(s, p, tok);
  }

  /** A `-` in front of a factor negates it. */
  lemma FactorMinus(s: string, p: nat, x: Expr, q: nat)
    requires p < |s| && s[p] == '-' && Factor(s, p + 1) == Ok(Parsed(x, q))
    ensures Factor(s, p) == Ok(Parsed(Neg(x), q))
  {
    hide Factor, Term, TermTail, Expression, ExpressionTail;
    assert SkipWs(s, p) == p;
    FactorStep(s, p, p);
  }

  /** An expression in parentheses, closed right after it, is a factor. */
  lemma FactorParenthesised(s: string, p: nat, e: Expr, q: nat)
    requires p < |s| && s[p] == '(' && p < q < |s| && s[q] == ')'
    requires Expression(s, p + 1) == ExpressionTail(s, e, q)
    ensures Factor(s, p) == Ok(Parsed(e, q + 1))
  {
    hide Factor, Term, TermTail, Expression, ExpressionTail;
    assert SkipWs(s, p) == p;
    FactorStep(s, p, p);
    assert SkipWs(s, q) == q;
    ExpressionDone(s, e, q, q);
  }

  /** A term made of one factor so far. */
  lemma TermFirst(s: string, p: nat, e: Expr, q: nat)
    requires p <= |s| && Factor(s, p) == Ok(Parsed(e, q))
    ensures Term(s, p) == TermTail(s, e, q)
  {
    hide Factor, Term, TermTail, Expression, ExpressionTail;
    TermStart(s, p);
  }

  /** A `*` or `/` right after the product so far, and a factor after it. */
  lemma TermNext(s: string, p: nat, e: Expr, q: nat, q': nat)
    requires e.Mul? || e.Div?
    requires p <= |s| && q < |s| && Term(s, p) == TermTail(s, e.left, q)
    requires s[q] == (if e.Mul? then '*' else '/') && Factor(s, q + 1) == Ok(Parsed(e.right, q'))
    ensures Term(s, p) == TermTail(s, e, q')
  {
    hide Factor, Term, TermTail, Expression, ExpressionTail;
    assert SkipWs(s, q) == q;
    TermRound(s, e.left, q, q);
  }

  /** An expression made of one complete term so far. */
  lemma ExpressionFirst(s: string, p: nat, e: Expr, q: nat)
    requires p <= |s| && q <= |s| && Term(s, p) == TermTail(s, e, q) && TermStop(s, q)
    ensures Expression(s, p) == ExpressionTail(s, e, q)
  {
    hide Factor, Term, TermTail, Expression, ExpressionTail;
    assert SkipWs(s, q) == q;
    TermDone(s, e, q, q);
    ExpressionStart(s, p);
  }

  /** A `+` or `-` right after the sum so far, and a complete term after it. */
  lemma ExpressionNext(s: string, p: nat, e: Expr, q: nat, q': nat)
    requires e.Add? || e.Sub?
    requires p <= q < |s| && Expression(s, p) == ExpressionTail(s, e.left, q)
    requires s[q] == (if e.Add? then '+' else '-')
    requires q' <= |s| && Term(s, q + 1) == TermTail(s, e.right, q') && TermStop(s, q')
    ensures Expression(s, p) == ExpressionTail(s, e, q')
  {
    hide Factor, Term, TermTail, Expression, ExpressionTail;
    assert SkipWs(s, q) == q;
    assert SkipWs(s, q') == q';
    TermDone(s, e.right, q', q');
    ExpressionRound(s, e.left, q, q);
  }

  /** A run of number characters is read whole as one token, which the
      conversion then accepts or refuses. */
  lemma NumberToken(s: string, p: nat, tok: string)
    requires At(s, p, tok) && NumberStop(s, p + |tok|)
    requires NumberChars(tok)
    ensures Number(s, p)
         == if ValidNumber(tok) then Ok(Parsed(Num(tok), p + |tok|)) else Err(BadNumber(tok))
  {
    forall i | p <= i < p + |tok|
      ensures IsNumberChar(s[i])
    {
      AtChar(s, p, tok, i - p);
    }
    NumberEndOfRun(s, p, p + |tok|);
  }

  /** Where the next character, after the whitespace, opens no parenthesis
      and is no sign, the factor is a number literal. */
  lemma FactorIsNumber(s: string, p: nat, q: nat)
    requires p <= |s| && q == SkipWs(s, p)
    requires q < |s| ==> s[q] != '(' && s[q] != '-' && s[q] != '+'
    ensures Factor(s, p) == Number(s, q)
  {
    hide Factor, Term, TermTail, Expression, ExpressionTail;
    FactorStep(s, p, q);
  }

  /** An operand that is missing altogether (the end of the input, or a
      character that starts no factor) is an empty number token, which the
      conversion refuses. */
  lemma MissingOperand(s: string, p: nat, q: nat)
    requires p <= |s| && q == SkipWs(s, p) && NumberStop(s, q)
    requires q < |s| ==> s[q] != '(' && s[q] != '-' && s[q] != '+'
    ensures Factor(s, p) == Err(BadNumber(""))
  {
    hide Factor, Term, TermTail, Expression, ExpressionTail;
    FactorIsNumber(s, p, q);
    NumberToken(s, q, "");
  }

  /** A failing first factor is the failure of the term and of the
      expression that start with it. */
  lemma FactorFailure(s: string, p: nat)
    requires p <= |s| && Factor(s, p).Err?
    ensures Term(s, p) == Factor(s, p) && Expression(s, p) == Factor(s, p)
  {
    hide Factor, Term, TermTail, Expression, ExpressionTail;
    TermStart(s, p);
    ExpressionStart(s, p);
  }
}
