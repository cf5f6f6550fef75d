/** What substitution makes of a template, in terms of its literals and of the strings that its
    expressions evaluate to. */
module SubstitutionTheorems {
  import opened JsonValues
  import opened Sequences
  import opened Substitution

  /** Literals with inserts between them: literal 0, insert 0, literal 1, insert 1, .., last literal. */
  function Woven(literals: seq<string>, inserts: seq<string>): string
    requires |literals| == |inserts| + 1
  {
    if inserts == [] then literals[0]
    else literals[0] + (inserts[0] + Woven(literals[1..], inserts[1..]))
  }

  function Holes(expressions: seq<string>): (holes: seq<string>)
    ensures |holes| == |expressions|
    ensures forall k :: 0 <= k < |holes| ==> holes[k] == "{{" + expressions[k] + "}}"
  {
    seq(|expressions|, k requires 0 <= k < |expressions| => "{{" + expressions[k] + "}}")
  }

  function Expressions(t: Template): seq<string> {
    if t.End? then [] else [t.expression] + Expressions(t.rest)
  }

  function Literals(t: Template): (r: seq<string>)
    ensures |r| == |Expressions(t)| + 1
  {
    if t.End? then [t.text] else [t.text] + Literals(t.rest)
  }

  /** The template with these literals and expressions. */
  function TemplateOf(literals: seq<string>, expressions: seq<string>): (t: Template)
    requires |literals| == |expressions| + 1
    decreases |expressions|
  {
    if expressions == [] then End(literals[0])
    else Part(literals[0], expressions[0], TemplateOf(literals[1..], expressions[1..]))
  }

  lemma {:induction false} TemplateHasParts(literals: seq<string>, expressions: seq<string>)
    requires |literals| == |expressions| + 1
    ensures Literals(TemplateOf(literals, expressions)) == literals
    ensures Expressions(TemplateOf(literals, expressions)) == expressions
    decreases |expressions|
  {
    if expressions != [] {
      TemplateHasParts(literals[1..], expressions[1..]);
    }
  }

  lemma {:induction false} PrintIsWoven(t: Template)
    ensures Print(t) == Woven(Literals(t), Holes(Expressions(t)))
  {
    if t.Part? {
      PrintIsWoven(t.rest);
      var expressions := Expressions(t);
      assert expressions[1..] == Expressions(t.rest) && Literals(t)[1..] == Literals(t.rest);
      assert Holes(expressions)[1..] == Holes(expressions[1..]);
    }
  }

  /** The expressions evaluate to these strings. */
  predicate AreValues(expressions: seq<string>, eval: Evaluator, values: seq<string>) {
    && |values| == |expressions|
    && forall k :: 0 <= k < |values| ==> eval(expressions[k]) == Ok(StringValue(values[k]))
  }

  /** Evaluating the expression throws, or gives something that is not a string. */
  predicate GivesNoString(expression: string, eval: Evaluator) {
    match eval(expression)
    case Thrown => true
    case Ok(v) => !v.StringValue?
  }

  lemma {:induction false} RenderIsWoven(t: Template, eval: Evaluator, values: seq<string>)
    requires AreValues(Expressions(t), eval, values)
    ensures Render(t, eval) == Ok(Woven(Literals(t), values))
    decreases t
  {
    if t.Part? {
      var expressions := Expressions(t);
      assert eval(expressions[0]) == Ok(StringValue(values[0]));
      assert expressions[1..] == Expressions(t.rest) && Literals(t)[1..] == Literals(t.rest);
      RenderIsWoven(t.rest, eval, values[1..]);
      Assoc(t.text, values[0], Woven(Literals(t.rest), values[1..]));
    }
  }

  lemma {:induction false} RenderThrowsIff(t: Template, eval: Evaluator)
    ensures Render(t, eval).Thrown? <==>
              exists k :: 0 <= k < |Expressions(t)| && GivesNoString(Expressions(t)[k], eval)
  {
    if t.Part? {
      RenderThrowsIff(t.rest, eval);
      var expressions, rest := Expressions(t), Expressions(t.rest);
      assert expressions[0] == t.expression;
      assert forall k :: 0 <= k < |rest| ==> expressions[k + 1] == rest[k];
      assert forall k :: 0 < k < |expressions| ==> expressions[k] == rest[k - 1];
      if k :| 0 <= k < |rest| && GivesNoString(rest[k], eval) {
        assert GivesNoString(expressions[k + 1], eval);
      }
    }
  }

  /** The text is "{{", an expression without a line end in which no "}}" begins, and "}}". */
  predicate IsLone(s: string) {
    && |s| >= 4 && s[..2] == "{{" && s[|s| - 2..] == "}}"
    && forall k :: 2 <= k < |s| - 2 ==> s[k] != '\n' && s[k] != '\r' && !(s[k] == '}' && s[k + 1] == '}')
  }

  lemma LoneIsPlaceholder(s: string)
    requires IsLone(s)
    ensures IsSingle(s)
  {
    assert OpenAt(s, 0) && CloseAt(s, |s| - 2);
    assert IsPlaceholder(s, 0, |s|);
    SearchIsLeftmostShortest(s, 0);
    var m := Search(s, 0);
    assert m.Match? && m.start == 0;
    assert CloseAt(s, m.end - 2);
  }

  lemma SingleIsLone(s: string)
    requires IsSingle(s)
    ensures IsLone(s)
  {
    SearchIsLeftmostShortest(s, 0);
    assert IsPlaceholder(s, 0, |s|);
    forall k | 2 <= k < |s| - 2 && s[k] == '}' && s[k + 1] == '}' ensures false {
      assert IsPlaceholder(s, 0, k + 2);
    }
  }

  /** A text that is one placeholder gives the value of its expression, with its type. */
  lemma LoneGivesItsValue(s: string, eval: Evaluator)
    requires IsLone(s)
    ensures Substituted(s, eval) == eval(s[2..|s| - 2])
  {
    LoneIsPlaceholder(s);
  }

  /** Every other text is, in exactly one leftmost way, literals with placeholders between them, and
      gives the same literals with the strings of the expressions between them; it throws exactly when
      some expression throws or does not give a string. */
  lemma TextIsFilled(s: string, eval: Evaluator) returns (literals: seq<string>, expressions: seq<string>)
    requires !IsLone(s)
    ensures |literals| == |expressions| + 1 && s == Woven(literals, Holes(expressions))
    ensures forall k :: 0 <= k < |literals| ==> Inert(literals[k])
    ensures forall values :: AreValues(expressions, eval, values) ==>
              Substituted(s, eval) == Ok(StringValue(Woven(literals, values)))
    ensures Substituted(s, eval).Thrown? <==>
              exists k :: 0 <= k < |expressions| && GivesNoString(expressions[k], eval)
  {
    var t := Parse(s);
    literals, expressions := Literals(t), Expressions(t);
    if IsSingle(s) {
      SingleIsLone(s);
    }
    ParseIsExact(s);
    PrintIsWoven(t);
    InertLiterals(t);
    RenderThrowsIff(t, eval);
    forall values | AreValues(expressions, eval, values)
      ensures Substituted(s, eval) == Ok(StringValue(Woven(literals, values)))
    {
      RenderIsWoven(t, eval, values);
    }
  }

  lemma {:induction false} InertLiterals(t: Template)
    requires LiteralsAreInert(t)
    ensures forall k :: 0 <= k < |Literals(t)| ==> Inert(Literals(t)[k])
  {
    if t.Part? {
      InertLiterals(t.rest);
    }
  }

  /** Texts put together from literals and expressions that cannot be mistaken for something else. */
  predicate CanWeave(literals: seq<string>, expressions: seq<string>) {
    && |literals| == |expressions| + 1
    && (forall k :: 0 <= k < |literals| ==> OpensNowhere(literals[k]))
    && (forall k :: 0 <= k < |expressions| ==> IsOneExpression(literals[k], expressions[k]))
  }

  predicate IsOneExpression(literal: string, expression: string) {
    && !EndsInBrace(literal)
    && forall i :: 0 <= i < |expression| ==> expression[i] != '}' && !IsLineEnd(expression[i])
  }

  lemma {:induction false} WovenIsPrintable(literals: seq<string>, expressions: seq<string>)
    requires CanWeave(literals, expressions)
    ensures Printable(TemplateOf(literals, expressions))
    decreases |expressions|
  {
    assert OpensNowhere(literals[0]);
    if expressions != [] {
      assert IsOneExpression(literals[0], expressions[0]);
      WovenIsPrintable(literals[1..], expressions[1..]);
    }
  }

  /** From the literals and expressions of a template to the substituted text: every placeholder is
      replaced by the string its expression gives, and by nothing else. */
  lemma WovenIsFilled(literals: seq<string>, expressions: seq<string>, eval: Evaluator, values: seq<string>)
    requires CanWeave(literals, expressions) && AreValues(expressions, eval, values)
    requires !IsLone(Woven(literals, Holes(expressions)))
    ensures Substituted(Woven(literals, Holes(expressions)), eval) == Ok(StringValue(Woven(literals, values)))
  {
    var t := TemplateOf(literals, expressions);
    TemplateHasParts(literals, expressions);
    PrintIsWoven(t);
    WovenIsPrintable(literals, expressions);
    ParsePrint(t);
    if IsSingle(Print(t)) {
      SingleIsLone(Print(t));
    }
    RenderIsWoven(t, eval, values);
  }

  /** One placeholder between two texts. */
  lemma OneHole(before: string, expression: string, after: string, eval: Evaluator, value: string)
    requires OpensNowhere(before) && OpensNowhere(after) && IsOneExpression(before, expression)
    requires before != "" && eval(expression) == Ok(StringValue(value))
    ensures Substituted(before + ("{{" + expression + "}}" + after), eval)
         == Ok(StringValue(before + (value + after)))
  {
    var literals, expressions, values := [before, after], [expression], [value];
    var s := before + ("{{" + expression + "}}" + after);
    var holes := Holes(expressions);
    assert literals[1..] == [after] && expressions[1..] == [] && values[1..] == [] && holes[1..] == [];
    assert Woven([after], []) == after;
    assert s == Woven(literals, holes) && before + (value + after) == Woven(literals, values);
    if IsLone(s) {
      assert s[0] == '{' && s[1] == '{';
      assert |before| > 1 ==> OpenAt(before, 0);
    }
    WovenIsFilled(literals, expressions, eval, values);
  }

  /** "Hi {{e.x}}!" */
  lemma GreetingIsFilled(eval: Evaluator, value: string)
    requires eval("e.x") == Ok(StringValue(value))
    ensures Substituted("Hi {{e.x}}!", eval) == Ok(StringValue("Hi " + value + "!"))
  {
    OneHole("Hi ", "e.x", "!", eval, value);
    assert "Hi " + ("{{" + "e.x" + "}}" + "!") == "Hi {{e.x}}!";
    assert "Hi " + (value + "!") == "Hi " + value + "!";
  }
}
