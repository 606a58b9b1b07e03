/** Parentheses in what the evaluator accepts. Every `(` that an accepted
    input opens is closed later, and no `)` closes what was not opened; a
    missing `)` is only ever reported for an input that has a `(`. */
module Balance {
  import opened Syntax
  import opened Grammar

  /** What a character adds to the count of open parentheses. */
  function Weight(c: char): int {
    if c == '(' then 1 else if c == ')' then -1 else 0
  }

  /** Open minus closing parentheses in `s[a..b]`. */
  function Surplus(s: string, a: nat, b: nat): int
    requires a <= b <= |s|
    decreases b - a
  {
    if a == b then 0 else Surplus(s, a, b - 1) + Weight(s[b - 1])
  }

  /** `s[a..b]` closes every parenthesis it opens, and no prefix of it
      closes more than it has opened. */
  predicate Balanced(s: string, a: nat, b: nat)
    requires a <= b <= |s|
  {
    Surplus(s, a, b) == 0 && forall k :: a <= k <= b ==> Surplus(s, a, k) >= 0
  }

  /** Some `(` stands at `p` or after it. */
  predicate OpensFrom(s: string, p: nat) {
    exists i :: p <= i < |s| && s[i] == '('
  }

  lemma {:induction false} SurplusSplit(s: string, a: nat, b: nat, c: nat)
    requires a <= b <= c <= |s|
    ensures Surplus(s, a, c) == Surplus(s, a, b) + Surplus(s, b, c)
    decreases c - b
  {
    if b < c {
      SurplusSplit(s, a, b, c - 1);
    }
  }

  /** A stretch without parentheses (whitespace, operators, a number token)
      is balanced. */
  lemma {:induction false} Plain(s: string, a: nat, b: nat)
    requires a <= b <= |s|
    requires forall i :: a <= i < b ==> s[i] != '(' && s[i] != ')'
    ensures Balanced(s, a, b)
    ensures forall k :: a <= k <= b ==> Surplus(s, a, k) == 0
    decreases b - a
  {
    if a < b {
      Plain(s, a, b - 1);
    }
  }

  lemma Concat(s: string, a: nat, b: nat, c: nat)
    requires a <= b <= c <= |s|
    requires Balanced(s, a, b) && Balanced(s, b, c)
    ensures Balanced(s, a, c)
  {
    forall k | b <= k <= c
      ensures Surplus(s, a, k) >= 0
    {
      SurplusSplit(s, a, b, k);
    }
    SurplusSplit(s, a, b, c);
  }

  /** A balanced stretch between `(` and `)` is balanced with them. */
  lemma Wrap(s: string, a: nat, b: nat)
    requires a < b < |s| && s[a] == '(' && s[b] == ')' && Balanced(s, a + 1, b)
    ensures Balanced(s, a, b + 1)
  {
    assert Surplus(s, a, a + 1) == 1;
    forall k | a + 1 <= k <= b
      ensures Surplus(s, a, k) >= 1
    {
      SurplusSplit(s, a, a + 1, k);
    }
    SurplusSplit(s, a, a + 1, b);
    assert Surplus(s, a, b + 1) == Surplus(s, a, b) - 1;
  }

  /** Whitespace, then a stretch with no parentheses in it, then a balanced
      stretch: balanced as a whole. */
  lemma Lead(s: string, p: nat, q: nat, r: nat)
    requires p <= q <= r <= |s|
    requires forall i :: p <= i < q ==> s[i] != '(' && s[i] != ')'
    requires Balanced(s, q, r)
    ensures Balanced(s, p, r)
  {
    Plain(s, p, q);
    Concat(s, p, q, r);
  }

  /** A factor the evaluator reads is balanced; a missing `)` inside it
      comes from a `(` in it. */
  lemma {:induction false} FactorBalanced(s: string, p: nat)
    requires p <= |s|
    ensures Factor(s, p).Ok? ==> Balanced(s, p, Factor(s, p).value.pos)
    ensures Factor(s, p) == Err(MissingParen) ==> OpensFrom(s, p)
    decreases |s| - p, 0
  {
    hide Factor, Term, TermTail, Expression, ExpressionTail;
    var q := SkipWs(s, p);
    FactorStep(s, p, q);
    if q < |s| && s[q] == '(' {
      ExpressionBalanced(s, q + 1);
      var inner := Expression(s, q + 1);
      if inner.Ok? && inner.value.pos < |s| && s[inner.value.pos] == ')' {
        Wrap(s, q, inner.value.pos);
        Lead(s, p, q, inner.value.pos + 1);
      }
    } else if q < |s| && (s[q] == '-' || s[q] == '+') {
      FactorBalanced(s, q + 1);
      if Factor(s, q + 1).Ok? {
        Lead(s, p, q + 1, Factor(s, q + 1).value.pos);
      }
    } else if Number(s, q).Ok? {
      var r := NumberEnd(s, q);
      assert Number(s, q).value.pos == r;
      Plain(s, r, r);
      Lead(s, p, r, r);
    }
  }

  lemma {:induction false} TermBalanced(s: string, p: nat)
    requires p <= |s|
    ensures Term(s, p).Ok? ==> Balanced(s, p, Term(s, p).value.pos)
    ensures Term(s, p) == Err(MissingParen) ==> OpensFrom(s, p)
    decreases |s| - p, 1
  {
    hide Factor, Term, TermTail, Expression, ExpressionTail;
    TermStart(s, p);
    FactorBalanced(s, p);
    var f := Factor(s, p);
    if f.Ok? {
      TermTailBalanced(s, f.value.tree, f.value.pos);
      if Term(s, p).Ok? {
        Concat(s, p, f.value.pos, Term(s, p).value.pos);
      }
    }
  }

  lemma {:induction false} TermTailBalanced(s: string, acc: Expr, p: nat)
    requires p <= |s|
    ensures TermTail(s, acc, p).Ok? ==> Balanced(s, p, TermTail(s, acc, p).value.pos)
    ensures TermTail(s, acc, p) == Err(MissingParen) ==> OpensFrom(s, p)
    decreases |s| - p, 0
  {
    hide Factor, Term, TermTail, Expression, ExpressionTail;
    var q := SkipWs(s, p);
    if q < |s| && (s[q] == '*' || s[q] == '/') {
      TermRound(s, acc, p, q);
      FactorBalanced(s, q + 1);
      var f := Factor(s, q + 1);
      if f.Ok? {
        var next := if s[q] == '*' then Mul(acc, f.value.tree) else Div(acc, f.value.tree);
        TermTailBalanced(s, next, f.value.pos);
        if TermTail(s, acc, p).Ok? {
          Lead(s, p, q + 1, f.value.pos);
          Concat(s, p, f.value.pos, TermTail(s, acc, p).value.pos);
        }
      }
    } else {
      TermDone(s, acc, p, q);
      Plain(s, p, q);
    }
  }

  lemma {:induction false} ExpressionBalanced(s: string, p: nat)
    requires p <= |s|
    ensures Expression(s, p).Ok? ==> Balanced(s, p, Expression(s, p).value.pos)
    ensures Expression(s, p) == Err(MissingParen) ==> OpensFrom(s, p)
    decreases |s| - p, 2
  {
    hide Factor, Term, TermTail, Expression, ExpressionTail;
    ExpressionStart(s, p);
    TermBalanced(s, p);
    var t := Term(s, p);
    if t.Ok? {
      ExpressionTailBalanced(s, t.value.tree, t.value.pos);
      if Expression(s, p).Ok? {
        Concat(s, p, t.value.pos, Expression(s, p).value.pos);
      }
    }
  }

  lemma {:induction false} ExpressionTailBalanced(s: string, acc: Expr, p: nat)
    requires p <= |s|
    ensures ExpressionTail(s, acc, p).Ok? ==> Balanced(s, p, ExpressionTail(s, acc, p).value.pos)
    ensures ExpressionTail(s, acc, p) == Err(MissingParen) ==> OpensFrom(s, p)
    decreases |s| - p, 0
  {
    hide Factor, Term, TermTail, Expression, ExpressionTail;
    var q := SkipWs(s, p);
    if q < |s| && (s[q] == '+' || s[q] == '-') {
      ExpressionRound(s, acc, p, q);
      TermBalanced(s, q + 1);
      var t := Term(s, q + 1);
      if t.Ok? {
        var next := if s[q] == '+' then Add(acc, t.value.tree) else Sub(acc, t.value.tree);
        ExpressionTailBalanced(s, next, t.value.pos);
        if ExpressionTail(s, acc, p).Ok? {
          Lead(s, p, q + 1, t.value.pos);
          Concat(s, p, t.value.pos, ExpressionTail(s, acc, p).value.pos);
        }
      }
    } else {
      ExpressionDone(s, acc, p, q);
      Plain(s, p, q);
    }
  }

  /** An accepted input has as many `)` as `(`, and no prefix of it has
      more `)` than `(`. */
  lemma ParseBalanced(s: string)
    ensures Parse(s).Ok? ==>
              Surplus(s, 0, |s|) == 0 && forall k :: 0 <= k <= |s| ==> Surplus(s, 0, k) >= 0
  {
    hide Factor, Term, TermTail, Expression, ExpressionTail;
    ExpressionBalanced(s, 0);
  }

  /** A missing `)` is reported only for an input with a `(` in it. */
  lemma MissingParenNeedsOpen(s: string)
    ensures Parse(s) == Err(MissingParen) ==> '(' in s
  {
    hide Factor, Term, TermTail, Expression, ExpressionTail;
    ExpressionBalanced(s, 0);
    if Parse(s) == Err(MissingParen) {
      var i :| 0 <= i < |s| && s[i] == '(';
    }
  }
}
