/** The calculator window's expression entry: a text buffer that the keypad
    edits in place, evaluated and emptied by `=` and by the Enter key. The
    result line above the keypad is kept as an abstract display value. */
module Entry {
  import opened Syntax
  import opened Grammar
  import opened Layout
  import Evaluator

  /** The keypad's sixteen labels. */
  const Keypad: set<string> :=
    {"7", "8", "9", "/", "4", "5", "6", "*", "1", "2", "3", "-", "0", ".", "=", "+"}

  /** The labels that replace one another at the end of the buffer: the
      four operators and the dot. */
  function IsOperator(key: string): (b: bool)
    ensures b <==> |key| == 1 && key in Keypad && key != "=" && !IsDigit(key[0])
  {
    key == "+" || key == "-" || key == "*" || key == "/" || key == "."
  }

  predicate IsOperatorChar(c: char) {
    IsOperator([c])
  }

  /** The buffer after a key other than `=`: an operator key first drops
      an operator the buffer ends with, then every key is appended. Only the
      last character can go, and the buffer then ends with the key; a
      character goes only when an operator key meets an operator at the end. */
  function Edited(buffer: string, key: string): (r: string)
    ensures |buffer| > 0 ==> buffer[..|buffer| - 1] <= r
    ensures |r| >= |key| && r[|r| - |key|..] == key
    ensures |r| == |buffer| + |key|
                   - (if IsOperator(key) && |buffer| > 0 && IsOperatorChar(buffer[|buffer| - 1]) then 1 else 0)
    ensures r != buffer + key ==>
              IsOperator(key) && |buffer| > 0 && IsOperatorChar(buffer[|buffer| - 1])
  {
    if IsOperator(key) && |buffer| > 0 && IsOperatorChar(buffer[|buffer| - 1])
    then buffer[..|buffer| - 1] + key
    else buffer + key
  }

  /** No two operator characters stand next to each other. */
  predicate NoAdjacentOperators(buffer: string) {
    forall i :: 0 < i < |buffer| ==> !(IsOperatorChar(buffer[i - 1]) && IsOperatorChar(buffer[i]))
  }

  /** What evaluating the buffer yields: `0` for an empty buffer, the value
      of the parsed tree otherwise (its formatting is not modelled). */
  datatype Reading = Zero | Computed(tree: Expr)

  /** The result line. */
  datatype Display =
    | Blank                     // nothing shown yet
    | Echo(text: string)        // the buffer, after an edit
    | Shown(reading: Reading)   // a successful evaluation
    | Message(kind: ErrorKind)  // the failed evaluation's message, after `=`
    | Error                     // the fixed text "Error", after Enter

  /** Evaluating a buffer. */
  function Outcome(buffer: string): Result<Reading> {
    if buffer == [] then Ok(Zero)
    else
      match Parse(buffer)
      case Ok(e) => Ok(Computed(e))
      case Err(k) => Err(k)
  }

  /** The buffer after a run of key presses from `buffer`, `=` emptying it. */
  function Typed(buffer: string, labels: seq<string>): string
    decreases |labels|
  {
    if labels == [] then buffer
    else Typed(if labels[0] == "=" then [] else Edited(buffer, labels[0]), labels[1..])
  }

  /** Keypad edits never put two operators side by side. */
  lemma EditedKeepsOperatorsApart(buffer: string, key: string)
    requires NoAdjacentOperators(buffer) && key in Keypad && key != "="
    ensures NoAdjacentOperators(Edited(buffer, key))
  {
    var b := Edited(buffer, key);
    forall i | 0 < i < |b|
      ensures !(IsOperatorChar(b[i - 1]) && IsOperatorChar(b[i]))
    {
      if i < |b| - 1 {
        assert b[i - 1] == buffer[i - 1] && b[i] == buffer[i];
      } else if IsOperator(key) {
        assert b[i] == key[0] && b[i - 1] == buffer[i - 1];
      }
    }
  }

  /** Whatever is typed on the keypad, starting from a buffer with no two
      operators side by side (the empty one, say), keeps it so. */
  lemma {:induction false} TypedKeepsOperatorsApart(buffer: string, labels: seq<string>)
    requires NoAdjacentOperators(buffer)
    requires forall i :: 0 <= i < |labels| ==> labels[i] in Keypad
    ensures NoAdjacentOperators(Typed(buffer, labels))
    decreases |labels|
  {
    if labels != [] {
      var next := if labels[0] == "=" then [] else Edited(buffer, labels[0]);
      if labels[0] != "=" {
        EditedKeepsOperatorsApart(buffer, labels[0]);
      }
      TypedKeepsOperatorsApart(next, labels[1..]);
    }
  }

  /** The dot counts as an operator: it replaces a trailing `+`. */
  lemma DotReplacesOperator()
    ensures Edited("2+", ".") == "2."
  {
  }

  /** Nothing stops a second dot in one number on the keypad... */
  lemma SecondDotTyped()
    ensures Typed([], ["1", ".", "5", "."]) == "1.5."
  {
    assert Edited([], "1") == "1" by {}
    assert Edited("1", ".") == "1." by {}
    assert Edited("1.", "5") == "1.5" by {}
    assert Edited("1.5", ".") == "1.5." by {}
    hide Edited;
    assert Typed("1.5", ["."]) == "1.5." by {
      assert ["."][1..] == [];
    }
    assert Typed("1.", ["5", "."]) == "1.5." by {
      assert ["5", "."][1..] == ["."];
    }
    assert Typed("1", [".", "5", "."]) == "1.5." by {
      assert [".", "5", "."][1..] == ["5", "."];
    }
    assert ["1", ".", "5", "."][1..] == [".", "5", "."];
  }

  /** ...and evaluating such a buffer fails in the number conversion. */
  lemma SecondDotRefused()
    ensures Outcome("1.5.") == Err(BadNumber("1.5."))
  {
    hide Factor, Term, TermTail, Expression, ExpressionTail;
    var s := "1.5.";
    assert !DotsApart(s) by { assert s[1] == '.' && s[3] == '.'; }
    assert SkipWs(s, 0) == 0;
    FactorIsNumber(s, 0, 0);
    NumberToken(s, 0, s);
    FactorFailure(s, 0);
  }

  class CalculatorApp {
    var currentExpression: string
    var resultField: Display

    /** The keypad's invariant on the buffer. */
    ghost predicate Valid()
      reads this
    {
      NoAdjacentOperators(currentExpression)
    }

    constructor ()
      ensures currentExpression == [] && resultField == Blank && Valid()
    {
      currentExpression := [];
      resultField := Blank;
    }

    /** Evaluates the buffer; an empty one yields `0` without parsing. */
    method EvaluateExpression() returns (r: Result<Reading>)
      ensures currentExpression == [] ==> r == Ok(Zero)
      ensures currentExpression != [] ==>
                (r.Ok? <==> Parse(currentExpression).Ok?)
                && (r.Ok? ==> r.value == Computed(Parse(currentExpression).value))
                && (r.Err? ==> r.error == Parse(currentExpression).error)
    {
      if currentExpression == [] {
        return Ok(Zero);
      }
      var e := Evaluator.Evaluate(currentExpression);
      match e {
        case Ok(tree) => r := Ok(Computed(tree));
        case Err(k) => r := Err(k);
      }
    }

    /** A keypad press. `=` shows the evaluation or its failure and then
        empties the buffer either way; an operator key replaces an
        operator at the end; any other key is appended. The display then
        echoes the buffer. */
    method HandleButtonAction(key: string)
      modifies this
      ensures key == "=" ==>
                currentExpression == []
                && resultField == match Outcome(old(currentExpression))
                                  case Ok(v) => Shown(v)
                                  case Err(k) => Message(k)
      ensures key != "=" ==>
                currentExpression == Edited(old(currentExpression), key)
                && resultField == Echo(currentExpression)
      ensures old(Valid()) && key in Keypad ==> Valid()
    {
      if key == "=" {
        var result := EvaluateExpression();
        match result {
          case Ok(v) => resultField := Shown(v);
          case Err(k) => resultField := Message(k);
        }
        currentExpression := [];
      } else if IsOperator(key) {
        var length := |currentExpression|;
        if length > 0 {
          var lastChar := currentExpression[length - 1];
          if IsOperator([lastChar]) {
            currentExpression := currentExpression[..length - 1];
          }
        }
        currentExpression := currentExpression + key;
        resultField := Echo(currentExpression);
      } else {
        currentExpression := currentExpression + key;
        resultField := Echo(currentExpression);
      }
      if key != "=" && old(Valid()) && key in Keypad {
        EditedKeepsOperatorsApart(old(currentExpression), key);
      }
    }

    /** The Enter key: shows the evaluation, or "Error" when it fails, and
        empties the buffer either way. */
    method PressEnter()
      modifies this
      ensures currentExpression == [] && Valid()
      ensures resultField == match Outcome(old(currentExpression))
                             case Ok(v) => Shown(v)
                             case Err(_) => Error
    {
      var result := EvaluateExpression();
      match result {
        case Ok(v) => resultField := Shown(v);
        case Err(_) => resultField := Error;
      }
      currentExpression := [];
    }
  }
}
