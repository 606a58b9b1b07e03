/** The evaluator's grammar as pure functions over the input `s` and a cursor
    `p` into it. Each function reads from `p` on and returns the tree it
    built and the cursor after it, exactly as the recursive-descent parser
    moves its own cursor:

      expression := term (('+' | '-') term)*
      term       := factor (('*' | '/') factor)*
      factor     := '(' expression ')' | '-' factor | '+' factor | number

    Whitespace is skipped before every factor and before every operator or
    `)` test, never inside a number. */
module Grammar {
  import opened Syntax

  /** The cursor after the whitespace at `p`. */
  function SkipWs(s: string, p: nat): (q: nat)
    requires p <= |s|
    decreases |s| - p
    ensures p <= q <= |s|
    ensures q == |s| || !IsSpace(s[q])
    ensures forall i :: p <= i < q ==> IsSpace(s[i])
  {
    if p < |s| && IsSpace(s[p]) then SkipWs(s, p + 1) else p
  }

  /** The end of the run of digits and dots that starts at `p`. */
  function NumberEnd(s: string, p: nat): (q: nat)
    requires p <= |s|
    decreases |s| - p
    ensures p <= q <= |s|
    ensures forall i :: p <= i < q ==> IsNumberChar(s[i])
    ensures NumberStop(s, q)
  {
    if p < |s| && IsNumberChar(s[p]) then NumberEnd(s, p + 1) else p
  }

  /** A number literal: the whole run of digits and dots at `p`, converted
      when the conversion accepts it, a `BadNumber` carrying the run
      (possibly empty) otherwise. */
  function Number(s: string, p: nat): (r: Result<Parsed>)
    requires p <= |s|
    ensures r.Ok? ==> p < r.value.pos <= |s| && NumberStop(s, r.value.pos)
                      && r.value.tree == Num(s[p..r.value.pos]) && Numeral(r.value.tree.token)
    ensures r.Err? ==> r.error.BadNumber? && !ValidNumber(r.error.token)
                       && p + |r.error.token| <= |s| && s[p..p + |r.error.token|] == r.error.token
                       && NumberChars(r.error.token)
                       && NumberStop(s, p + |r.error.token|)
  {
    var q := NumberEnd(s, p);
    if ValidNumber(s[p..q]) then Ok(Parsed(Num(s[p..q]), q)) else Err(BadNumber(s[p..q]))
  }

  function Factor(s: string, p: nat): (r: Result<Parsed>)
    requires p <= |s|
    decreases |s| - p, 0
    ensures r.Ok? ==> p < r.value.pos <= |s| && WellFormed(r.value.tree)
    ensures r.Err? ==> !r.error.Unexpected?
  {
    var q := SkipWs(s, p);
    if q < |s| && s[q] == '(' then Closed(s, Expression(s, q + 1))
    else if q < |s| && s[q] == '-' then Negated(Factor(s, q + 1))
    else if q < |s| && s[q] == '+' then Factor(s, q + 1)
    else Number(s, q)
  }

  /** The `)` test after a parenthesised expression, which consumes it. */
  function Closed(s: string, inner: Result<Parsed>): Result<Parsed>
    requires inner.Ok? ==> inner.value.pos <= |s|
  {
    var e :- inner;
    if e.pos < |s| && s[e.pos] == ')' then Ok(Parsed(e.tree, e.pos + 1)) else Err(MissingParen)
  }

  /** A unary minus applied to the factor after it. */
  function Negated(operand: Result<Parsed>): Result<Parsed>
  {
    var e :- operand;
    Ok(Parsed(Neg(e.tree), e.pos))
  }

  function Term(s: string, p: nat): (r: Result<Parsed>)
    requires p <= |s|
    decreases |s| - p, 1
    ensures r.Ok? ==> p < r.value.pos <= |s| && WellFormed(r.value.tree)
                      && TermStop(s, r.value.pos)
    ensures r.Err? ==> !r.error.Unexpected?
  {
    var f :- Factor(s, p);
    TermTail(s, f.tree, f.pos)
  }

  /** The `*`/`/` loop of a term, with the product so far in `acc`: each
      further factor becomes the right operand of a new node whose left
      operand is everything before it. */
  function TermTail(s: string, acc: Expr, p: nat): (r: Result<Parsed>)
    requires p <= |s|
    decreases |s| - p, 0
    ensures r.Ok? ==> p <= r.value.pos <= |s| && TermStop(s, r.value.pos)
                      && (WellFormed(acc) ==> WellFormed(r.value.tree))
    ensures r.Err? ==> !r.error.Unexpected?
  {
    var q := SkipWs(s, p);
    if q < |s| && s[q] == '*' then
      var f :- Factor(s, q + 1);
      TermTail(s, Mul(acc, f.tree), f.pos)
    else if q < |s| && s[q] == '/' then
      var f :- Factor(s, q + 1);
      TermTail(s, Div(acc, f.tree), f.pos)
    else
      Ok(Parsed(acc, q))
  }

  function Expression(s: string, p: nat): (r: Result<Parsed>)
    requires p <= |s|
    decreases |s| - p, 2
    ensures r.Ok? ==> p < r.value.pos <= |s| && WellFormed(r.value.tree)
                      && ExpressionStop(s, r.value.pos)
    ensures r.Err? ==> !r.error.Unexpected?
  {
    var t :- Term(s, p);
    ExpressionTail(s, t.tree, t.pos)
  }

  /** The `+`/`-` loop of an expression, with the sum so far in `acc`. */
  function ExpressionTail(s: string, acc: Expr, p: nat): (r: Result<Parsed>)
    requires p <= |s|
    decreases |s| - p, 0
    ensures r.Ok? ==> p <= r.value.pos <= |s|
                      && (WellFormed(acc) ==> WellFormed(r.value.tree))
                      && (TermStop(s, p) ==> ExpressionStop(s, r.value.pos))
    ensures r.Err? ==> !r.error.Unexpected?
  {
    var q := SkipWs(s, p);
    if q < |s| && s[q] == '+' then
      var t :- Term(s, q + 1);
      ExpressionTail(s, Add(acc, t.tree), t.pos)
    else if q < |s| && s[q] == '-' then
      var t :- Term(s, q + 1);
      ExpressionTail(s, Sub(acc, t.tree), t.pos)
    else
      Ok(Parsed(acc, q))
  }

  /** The first step of a factor: the character after the whitespace
      chooses between a parenthesised expression, a unary sign and a number. */
  lemma FactorStep(s: string, p: nat, q: nat)
    requires p <= |s| && q == SkipWs(s, p)
    ensures Factor(s, p)
         == if q < |s| && s[q] == '(' then Closed(s, Expression(s, q + 1))
            else if q < |s| && s[q] == '-' then Negated(Factor(s, q + 1))
            else if q < |s| && s[q] == '+' then Factor(s, q + 1)
            else Number(s, q)
  {
    hide Term, TermTail, Expression, ExpressionTail;
  }

  /** A term starts with a factor whose failure is the term's failure. */
  lemma TermStart(s: string, p: nat)
    requires p <= |s|
    ensures Factor(s, p).Err? ==> Term(s, p) == Factor(s, p)
    ensures Factor(s, p).Ok? ==>
              Term(s, p) == TermTail(s, Factor(s, p).value.tree, Factor(s, p).value.pos)
  {
    hide Factor, TermTail, Expression, ExpressionTail;
  }

  /** One `*` or `/` round of a term: the operator under the lookahead after
      the whitespace, then a factor whose failure is the term's failure. */
  lemma TermRound(s: string, acc: Expr, p: nat, q: nat)
    requires p <= |s| && q == SkipWs(s, p)
    requires q < |s| && (s[q] == '*' || s[q] == '/')
    ensures Factor(s, q + 1).Err? ==> TermTail(s, acc, p) == Factor(s, q + 1)
    ensures Factor(s, q + 1).Ok? ==>
              var f := Factor(s, q + 1).value;
              TermTail(s, acc, p)
              == TermTail(s, if s[q] == '*' then Mul(acc, f.tree) else Div(acc, f.tree), f.pos)
  {
    hide Factor, Term, Expression, ExpressionTail;
  }

  /** The end of a term: no `*` or `/` after the whitespace. */
  lemma TermDone(s: string, acc: Expr, p: nat, q: nat)
    requires p <= |s| && q == SkipWs(s, p)
    requires q < |s| ==> s[q] != '*' && s[q] != '/'
    ensures TermTail(s, acc, p) == Ok(Parsed(acc, q))
  {
    hide Factor, Term, Expression, ExpressionTail;
  }

  /** An expression starts with a term whose failure is the expression's failure. */
  lemma ExpressionStart(s: string, p: nat)
    requires p <= |s|
    ensures Term(s, p).Err? ==> Expression(s, p) == Term(s, p)
    ensures Term(s, p).Ok? ==>
              Expression(s, p) == ExpressionTail(s, Term(s, p).value.tree, Term(s, p).value.pos)
  {
    hide Factor, Term, TermTail, ExpressionTail;
  }

  /** One `+` or `-` round of an expression. */
  lemma ExpressionRound(s: string, acc: Expr, p: nat, q: nat)
    requires p <= |s| && q == SkipWs(s, p)
    requires q < |s| && (s[q] == '+' || s[q] == '-')
    ensures Term(s, q + 1).Err? ==> ExpressionTail(s, acc, p) == Term(s, q + 1)
    ensures Term(s, q + 1).Ok? ==>
              var t := Term(s, q + 1).value;
              ExpressionTail(s, acc, p)
              == ExpressionTail(s, if s[q] == '+' then Add(acc, t.tree) else Sub(acc, t.tree), t.pos)
  {
    hide Factor, Term, TermTail, Expression;
  }

  /** The end of an expression: no `+` or `-` after the whitespace. */
  lemma ExpressionDone(s: string, acc: Expr, p: nat, q: nat)
    requires p <= |s| && q == SkipWs(s, p)
    requires q < |s| ==> s[q] != '+' && s[q] != '-'
    ensures ExpressionTail(s, acc, p) == Ok(Parsed(acc, q))
  {
    hide Factor, Term, TermTail, Expression;
  }

  /** Whitespace before a factor, and before the operator test of a loop,
      is skipped: starting on it or just after it reads the same. */
  lemma SpaceSkipped(s: string, p: nat, acc: Expr)
    requires p < |s| && IsSpace(s[p])
    ensures Factor(s, p) == Factor(s, p + 1)
    ensures Term(s, p) == Term(s, p + 1) && Expression(s, p) == Expression(s, p + 1)
    ensures TermTail(s, acc, p) == TermTail(s, acc, p + 1)
    ensures ExpressionTail(s, acc, p) == ExpressionTail(s, acc, p + 1)
  {
    hide Factor, Term, TermTail, Expression, ExpressionTail;
    var q := SkipWs(s, p);
    assert q == SkipWs(s, p + 1);
    FactorStep(s, p, q);
    FactorStep(s, p + 1, q);
    TermStart(s, p);
    TermStart(s, p + 1);
    ExpressionStart(s, p);
    ExpressionStart(s, p + 1);
    if q < |s| && (s[q] == '*' || s[q] == '/') {
      TermRound(s, acc, p, q);
      TermRound(s, acc, p + 1, q);
    } else {
      TermDone(s, acc, p, q);
      TermDone(s, acc, p + 1, q);
    }
    if q < |s| && (s[q] == '+' || s[q] == '-') {
      ExpressionRound(s, acc, p, q);
      ExpressionRound(s, acc, p + 1, q);
    } else {
      ExpressionDone(s, acc, p, q);
      ExpressionDone(s, acc, p + 1, q);
    }
  }

  /** A whole evaluation: one expression from the start that must use up
      the input; what is left over is reported by its first character. */
  function Parse(s: string): (r: Result<Expr>)
    ensures r.Ok? ==> WellFormed(r.value)
    ensures r.Ok? <==> Expression(s, 0).Ok? && Expression(s, 0).value.pos == |s|
    ensures r.Ok? ==> r.value == Expression(s, 0).value.tree
    ensures Expression(s, 0).Err? ==> r == Err(Expression(s, 0).error)
    ensures r.Err? && r.error.Unexpected? ==>
              Expression(s, 0).Ok? && Expression(s, 0).value.pos < |s|
              && r.error.found == s[Expression(s, 0).value.pos]
              && !IsSpace(r.error.found) && r.error.found !in "+-*/"
  {
    var e :- Expression(s, 0);
    if e.pos < |s| then Err(Unexpected(s[e.pos])) else Ok(e.tree)
  }
}
