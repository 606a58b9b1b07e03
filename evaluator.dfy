/** The evaluator as the source runs it: one parser object per call, holding
    a cursor `pos` into the input and the lookahead code `ch` (-1 past the
    end), advanced in place by `NextChar`. Every parsing method is proved to
    do exactly what the corresponding function of module Grammar describes,
    on the input from the cursor onwards. */
module Evaluator {
  import opened Syntax
  import opened Grammar

  /** The lookahead code for cursor `p`: the character there, or -1 past the end. */
  function Lookahead(s: string, p: nat): (c: int)
    ensures c == -1 <==> p >= |s|
    ensures p < |s| ==> c == s[p] as int
  {
    if p < |s| then s[p] as int else -1
  }

  /** Java's `isDigit((char) ch)`: the sentinel -1 casts to U+FFFF, no digit. */
  function IsDigitCode(code: int): (b: bool)
    ensures b <==> 0 <= code < 0xD800 && IsDigit(code as char)
  {
    '0' as int <= code <= '9' as int
  }

  /** A parsing method's outcome as the grammar functions state it: the
      tree with the cursor `pos` it left, or the error. */
  function Located(r: Result<Expr>, pos: nat): Result<Parsed> {
    match r
    case Ok(e) => Ok(Parsed(e, pos))
    case Err(k) => Err(k)
  }

  class Parser {
    const input: string
    var pos: int
    var ch: int

    /** The cursor is inside the input or just past it, and `ch` is the
        character under it. */
    ghost predicate Valid()
      reads this
    {
      0 <= pos <= |input| && ch == Lookahead(input, pos)
    }

    constructor (expression: string)
      ensures input == expression && pos == -1 && ch == 0
    {
      input := expression;
      pos := -1;
      ch := 0;
    }

    /** Moves the cursor one place on and loads the lookahead. There is no
        end check: the callers only call it while `ch` is a real character,
        which keeps the cursor within `[-1, |input|]`. */
    method NextChar()
      requires -1 <= pos
      modifies this
      ensures pos == old(pos) + 1 && ch == Lookahead(input, pos)
      ensures old(pos) < |input| ==> Valid()
    {
      pos := pos + 1;
      ch := if pos < |input| then input[pos] as int else -1;
    }

    method SkipWhitespace()
      requires Valid()
      modifies this
      ensures Valid() && pos == SkipWs(input, old(pos))
    {
      while IsWhitespace(ch)
        invariant Valid() && old(pos) <= pos
        invariant SkipWs(input, pos) == SkipWs(input, old(pos))
        decreases |input| - pos
      {
        NextChar();
      }
    }

    /** Collects the run of digits and dots under the cursor, then converts it. */
    method ParseNumber() returns (r: Result<Expr>)
      requires Valid()
      modifies this
      ensures Valid() && old(pos) <= pos
      ensures Number(input, old(pos)) == Located(r, pos)
    {
      var sb := "";
      while IsDigitCode(ch) || ch == '.' as int
        invariant Valid() && old(pos) <= pos
        invariant sb == input[old(pos)..pos]
        invariant NumberEnd(input, pos) == NumberEnd(input, old(pos))
        decreases |input| - pos
      {
        sb := sb + [input[pos]];
        NextChar();
      }
      if ValidNumber(sb) {
        r := Ok(Num(sb));
      } else {
        r := Err(BadNumber(sb));
      }
    }

    method ParseFactor() returns (r: Result<Expr>)
      requires Valid()
      modifies this
      decreases |input| - pos, 0
      ensures Valid() && old(pos) <= pos
      ensures Factor(input, old(pos)) == Located(r, pos)
    {
      hide Factor, Term, TermTail, Expression, ExpressionTail;
      ghost var p0 := pos;
      SkipWhitespace();
      FactorStep(input, p0, pos);
      if ch == '(' as int {
        NextChar();
        var value :- ParseExpression();
        if ch != ')' as int {
          return Err(MissingParen);
        }
        NextChar();
        return Ok(value);
      } else if ch == '-' as int {
        NextChar();
        var value :- ParseFactor();
        return Ok(Neg(value));
      } else if ch == '+' as int {
        NextChar();
        r := ParseFactor();
      } else {
        r := ParseNumber();
      }
    }

    method ParseTerm() returns (r: Result<Expr>)
      requires Valid()
      modifies this
      decreases |input| - pos, 1
      ensures Valid() && old(pos) <= pos
      ensures Term(input, old(pos)) == Located(r, pos)
    {
      hide Factor, Term, TermTail, Expression, ExpressionTail;
      TermStart(input, pos);
      var value :- ParseFactor();
      while true
        invariant Valid() && old(pos) < pos
        invariant Term(input, old(pos)) == TermTail(input, value, pos)
        decreases |input| - pos
      {
        ghost var p0 := pos;
        SkipWhitespace();
        if ch == '*' as int {
          TermRound(input, value, p0, pos);
          NextChar();
          var f :- ParseFactor();
          value := Mul(value, f);
        } else if ch == '/' as int {
          TermRound(input, value, p0, pos);
          NextChar();
          var f :- ParseFactor();
          value := Div(value, f);
        } else {
          TermDone(input, value, p0, pos);
          return Ok(value);
        }
      }
    }

    method ParseExpression() returns (r: Result<Expr>)
      requires Valid()
      modifies this
      decreases |input| - pos, 2
      ensures Valid() && old(pos) <= pos
      ensures Expression(input, old(pos)) == Located(r, pos)
    {
      hide Factor, Term, TermTail, Expression, ExpressionTail;
      ExpressionStart(input, pos);
      var value :- ParseTerm();
      while true
        invariant Valid() && old(pos) < pos
        invariant Expression(input, old(pos)) == ExpressionTail(input, value, pos)
        decreases |input| - pos
      {
        ghost var p0 := pos;
        SkipWhitespace();
        if ch == '+' as int {
          ExpressionRound(input, value, p0, pos);
          NextChar();
          var term :- ParseTerm();
          value := Add(value, term);
        } else if ch == '-' as int {
          ExpressionRound(input, value, p0, pos);
          NextChar();
          var term :- ParseTerm();
          value := Sub(value, term);
        } else {
          ExpressionDone(input, value, p0, pos);
          return Ok(value);
        }
      }
    }

    /** Reads the first character, parses one expression and insists that
        nothing is left over. */
    method Eval() returns (r: Result<Expr>)
      requires pos == -1
      modifies this
      ensures r == Parse(input)
    {
      hide Factor, Term, TermTail, Expression, ExpressionTail;
      NextChar();
      var value :- ParseExpression();
      if pos < |input| {
        return Err(Unexpected(input[pos]));
      }
      return Ok(value);
    }
  }

  /** `Calculator.evaluate`: a fresh parser for every call, so the outcome
      depends on the expression alone. */
  method Evaluate(expression: string) returns (r: Result<Expr>)
    ensures r == Parse(expression)
  {
    var parser := new Parser(expression);
    r := parser.Eval();
  }
}
