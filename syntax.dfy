/** Shared vocabulary of the calculator's expression evaluator: the parse tree,
    the error kinds, the result wrapper and the character classes the scanner
    tests. */
module Syntax {

  /** The shape of an arithmetic expression as the evaluator reads it. A number
      keeps the literal text of its token; conversion to a value is separate
      (module Arithmetic). A unary `+` produces no node of its own. */
  datatype Expr =
    | Num(token: string)
    | Neg(operand: Expr)
    | Add(left: Expr, right: Expr)
    | Sub(left: Expr, right: Expr)
    | Mul(left: Expr, right: Expr)
    | Div(left: Expr, right: Expr)

  /** The three ways an evaluation aborts. */
  datatype ErrorKind =
    | Unexpected(found: char)   // input left over after a complete expression
    | MissingParen              // a `(` whose sub-expression is not followed by `)`
    | BadNumber(token: string)  // a number token the double conversion refuses

  /** Success with a value, or the error that aborted the parse. */
  datatype Result<+T> = Ok(value: T) | Err(error: ErrorKind) {
    predicate IsFailure() { Err? }

    function PropagateFailure<U>(): Result<U>
      requires Err?
    {
      Err(error)
    }

    function Extract(): T
      requires Ok?
    {
      value
    }
  }

  datatype Option<+T> = None | Some(value: T)

  /** A parsed tree together with the cursor just after it. */
  datatype Parsed = Parsed(tree: Expr, pos: nat)

  predicate IsDigit(c: char) {
    '0' <= c <= '9'
  }

  /** Characters a number token is made of. */
  predicate IsNumberChar(c: char) {
    IsDigit(c) || c == '.'
  }

  /** Java's `Character.isWhitespace` on a code point: the ASCII controls
      U+0009..U+000D and U+001C..U+001F, the space, and the Unicode space,
      line and paragraph separators other than the non-breaking ones. Every
      negative code, the end-of-input sentinel -1 among them, is not
      whitespace. */
  function IsWhitespace(code: int): (b: bool)
    ensures b ==> 9 <= code <= 0x3000
    ensures b ==> code != 0xA0 && code != 0x2007 && code != 0x202F
    ensures code == ' ' as int || code == '\t' as int || code == '\n' as int || code == '\r' as int ==> b
  {
    (9 <= code <= 13) || (28 <= code <= 32) || code == 0x1680
    || (0x2000 <= code <= 0x2006) || (0x2008 <= code <= 0x200A)
    || code == 0x2028 || code == 0x2029 || code == 0x205F || code == 0x3000
  }

  predicate IsSpace(c: char) {
    IsWhitespace(c as int)
  }

  /** What `Double.parseDouble` accepts among strings made only of digits
      and dots: at least one digit and at most one dot. */
  function ValidNumber(token: string): (b: bool)
    ensures b <==> (exists i :: 0 <= i < |token| && IsDigit(token[i])) && DotsApart(token)
  {
    OneDot(token);
    (exists i :: 0 <= i < |token| && IsDigit(token[i])) && multiset(token)['.'] <= 1
  }

  /** No two places of the token hold a dot. */
  predicate DotsApart(token: string) {
    forall i, j :: 0 <= i < j < |token| && token[i] == '.' ==> token[j] != '.'
  }

  /** Counting the dots agrees with comparing their places. */
  lemma {:induction false} OneDot(token: string)
    ensures multiset(token)['.'] <= 1 <==> DotsApart(token)
  {
    if token != [] {
      var n := |token| - 1;
      var init := token[..n];
      assert token == init + [token[n]];
      OneDot(init);
      assert multiset(token)['.'] == multiset(init)['.'] + (if token[n] == '.' then 1 else 0);
      if multiset(init)['.'] == 1 && token[n] == '.' {
        var i :| 0 <= i < |init| && init[i] == '.';
        assert token[i] == '.' && token[n] == '.';
      }
    }
  }

  /** Every character of the token is a digit or a dot. */
  predicate NumberChars(token: string) {
    forall i :: 0 <= i < |token| ==> IsNumberChar(token[i])
  }

  /** A number token as the scanner can produce it and the conversion accepts. */
  predicate Numeral(token: string) {
    NumberChars(token) && ValidNumber(token)
  }

  /** Every number in the tree is a numeral. */
  predicate WellFormed(e: Expr) {
    match e
    case Num(t) => Numeral(t)
    case Neg(x) => WellFormed(x)
    case Add(l, r) => WellFormed(l) && WellFormed(r)
    case Sub(l, r) => WellFormed(l) && WellFormed(r)
    case Mul(l, r) => WellFormed(l) && WellFormed(r)
    case Div(l, r) => WellFormed(l) && WellFormed(r)
  }

  /** The character at `q`, if any, cannot continue a number token. */
  predicate NumberStop(s: string, q: nat) {
    q >= |s| || !IsNumberChar(s[q])
  }

  /** What a term leaves at `q`: whitespace skipped, no `*` or `/` next. */
  predicate TermStop(s: string, q: nat) {
    q >= |s| || !(IsSpace(s[q]) || s[q] == '*' || s[q] == '/')
  }

  /** What an expression leaves at `q`: whitespace skipped, no binary operator next. */
  predicate ExpressionStop(s: string, q: nat) {
    TermStop(s, q) && (q >= |s| || !(s[q] == '+' || s[q] == '-'))
  }
}
