/** Template substitution: `{{expression}}` placeholders are replaced by their values, in place. */
module Substitution {
  import opened JsonValues
  import opened Sequences

  /** evaluate() */
  type Evaluator = string -> Outcome<Value>

  // --------------------------------------------------------------------------------------------
  // The pattern  \{\{(.*?)\}\}
  // --------------------------------------------------------------------------------------------

  predicate OpenAt(s: string, i: nat) {
    i + 2 <= |s| && s[i] == '{' && s[i + 1] == '{'
  }

  predicate CloseAt(s: string, i: nat) {
    i + 2 <= |s| && s[i] == '}' && s[i + 1] == '}'
  }

  /** `.` matches everything but line ends. */
  predicate IsLineEnd(c: char) {
    c == '\n' || c == '\r'
  }

  /** The pattern can match exactly s[i..e]. */
  predicate IsPlaceholder(s: string, i: nat, e: nat) {
    && i + 4 <= e <= |s| && OpenAt(s, i) && CloseAt(s, e - 2)
    && forall k :: i + 2 <= k < e - 2 ==> !IsLineEnd(s[k])
  }

  datatype Match = NoMatch | Match(start: nat, end: nat)

  /** The first "}}" from `j` on that is reached without a line end. */
  function Close(s: string, open: nat, j: nat): (m: Match)
    requires open <= j <= |s|
    ensures m.Match? ==> m.start == open && j + 2 <= m.end <= |s|
    decreases |s| - j
  {
    if CloseAt(s, j) then Match(open, j + 2)
    else if j == |s| || IsLineEnd(s[j]) then NoMatch
    else Close(s, open, j + 1)
  }

  /** regex_search from `pos`. */
  function Search(s: string, pos: nat): (m: Match)
    requires pos <= |s|
    ensures m.Match? ==> pos <= m.start && m.start + 4 <= m.end <= |s|
    decreases |s| - pos
  {
    if pos == |s| then NoMatch
    else if OpenAt(s, pos) then
      var m := Close(s, pos, pos + 2);
      if m.Match? then m else Search(s, pos + 1)
    else Search(s, pos + 1)
  }

  lemma {:induction false} CloseFits(s: string, open: nat, j: nat)
    requires open <= j <= |s|
    ensures var m := Close(s, open, j);
            m.Match? ==>
              && CloseAt(s, m.end - 2)
              && forall k :: j <= k < m.end - 2 ==> !IsLineEnd(s[k]) && !CloseAt(s, k)
    decreases |s| - j
  {
    if !CloseAt(s, j) && j < |s| && !IsLineEnd(s[j]) {
      CloseFits(s, open, j + 1);
    }
  }

  lemma {:induction false} CloseFinds(s: string, open: nat, j: nat, e: nat)
    requires open <= j <= e - 2 && e <= |s| && CloseAt(s, e - 2)
    requires forall k :: j <= k < e - 2 ==> !IsLineEnd(s[k])
    ensures Close(s, open, j).Match? && Close(s, open, j).end <= e
    decreases |s| - j
  {
    if !CloseAt(s, j) {
      CloseFinds(s, open, j + 1, e);
    }
  }

  /** regex_search finds the leftmost placeholder, and of those that begin there the shortest. */
  lemma {:induction false} SearchIsLeftmostShortest(s: string, pos: nat)
    requires pos <= |s|
    ensures var m := Search(s, pos);
            && (m.NoMatch? <==> forall i: nat, e: nat :: pos <= i ==> !IsPlaceholder(s, i, e))
            && (m.Match? ==>
                  && IsPlaceholder(s, m.start, m.end)
                  && (forall i: nat, e: nat :: pos <= i < m.start ==> !IsPlaceholder(s, i, e))
                  && (forall e: nat :: e < m.end ==> !IsPlaceholder(s, m.start, e)))
    decreases |s| - pos
  {
    if pos < |s| {
      SearchIsLeftmostShortest(s, pos + 1);
      if OpenAt(s, pos) {
        CloseFits(s, pos, pos + 2);
        var m := Close(s, pos, pos + 2);
        forall e: nat | IsPlaceholder(s, pos, e) ensures m.Match? && m.end <= e {
          CloseFinds(s, pos, pos + 2, e);
        }
        if m.Match? {
          assert IsPlaceholder(s, pos, m.end);
        }
      } else {
        assert forall e: nat :: !IsPlaceholder(s, pos, e);
      }
    }
  }

  function Shift(m: Match, n: nat): Match {
    if m.Match? then Match(m.start + n, m.end + n) else NoMatch
  }

  lemma {:induction false} CloseShifts(done: string, rest: string, open: nat, j: nat)
    requires open <= j <= |rest|
    ensures Close(done + rest, |done| + open, |done| + j) == Shift(Close(rest, open, j), |done|)
    decreases |rest| - j
  {
    if !CloseAt(rest, j) && j < |rest| && !IsLineEnd(rest[j]) {
      CloseShifts(done, rest, open, j + 1);
    }
  }

  /** What lies before the search position has no influence on the match. */
  lemma {:induction false} SearchShifts(done: string, rest: string, pos: nat)
    requires pos <= |rest|
    ensures Search(done + rest, |done| + pos) == Shift(Search(rest, pos), |done|)
    decreases |rest| - pos
  {
    if pos < |rest| {
      SearchShifts(done, rest, pos + 1);
      if OpenAt(rest, pos) {
        CloseShifts(done, rest, pos, pos + 2);
      }
    }
  }

  // --------------------------------------------------------------------------------------------
  // One-pass specification
  // --------------------------------------------------------------------------------------------

  /** Literal texts with expressions between them. */
  datatype Template = End(text: string) | Part(text: string, expression: string, rest: Template)

  function Parse(t: string): Template
    decreases |t|
  {
    match Search(t, 0)
    case NoMatch => End(t)
    case Match(start, end) => Part(t[..start], t[start + 2..end - 2], Parse(t[end..]))
  }

  /** Literals and string values concatenated left to right; the first evaluation that fails, or
      that is not a string, fails the whole. */
  function Render(t: Template, eval: Evaluator): Outcome<string> {
    match t
    case End(text) => Ok(text)
    case Part(text, expression, rest) =>
      var value := AsString(eval(expression));
      if value.Thrown? then Thrown else Prepend(text + value.value, Render(rest, eval))
  }

  function AsString(v: Outcome<Value>): Outcome<string> {
    if v.Ok? && v.value.StringValue? then Ok(v.value.s) else Thrown
  }

  function Prepend(done: string, r: Outcome<string>): Outcome<string> {
    if r.Thrown? then Thrown else Ok(done + r.value)
  }

  /** The template is one placeholder and nothing else. */
  predicate IsSingle(t: string) {
    Search(t, 0) == Match(0, |t|)
  }

  function Substituted(t: string, eval: Evaluator): Outcome<Value> {
    if IsSingle(t) then eval(t[2..|t| - 2])
    else
      var r := Render(Parse(t), eval);
      if r.Thrown? then Thrown else Ok(StringValue(r.value))
  }

  lemma PrependTwice(a: string, b: string, r: Outcome<string>)
    ensures Prepend(a, Prepend(b, r)) == Prepend(a + b, r)
  {
    if r.Ok? {
      assert a + (b + r.value) == a + b + r.value;
    }
  }

  lemma PrependNothing(r: Outcome<string>)
    ensures Prepend("", r) == r
  {
    if r.Ok? {
      assert "" + r.value == r.value;
    }
  }

  /** A match in `result`, which is `done` and the unscanned `rest`, is the match in `rest`. */
  lemma Locates(done: string, rest: string)
    requires Search(rest, 0).Match?
    ensures var m := Search(rest, 0);
            Search(done + rest, |done|) == Match(|done| + m.start, |done| + m.end)
  {
    SearchShifts(done, rest, 0);
    assert |done| + 0 == |done|;
  }

  lemma ExpressionShifts(done: string, rest: string, m: Match)
    requires m.Match? && m.start + 4 <= m.end <= |rest|
    ensures Expression(done + rest, Match(|done| + m.start, |done| + m.end)) == rest[m.start + 2..m.end - 2]
  {
  }

  lemma Replaces(done: string, rest: string, m: Match, value: string)
    requires m.Match? && m.start + 4 <= m.end <= |rest|
    ensures Replace(done + rest, Match(|done| + m.start, |done| + m.end), value)
         == Grown(done, rest, m, value) + rest[m.end..]
  {
    var result := done + rest;
    assert result[..|done| + m.start] == done + rest[..m.start];
    assert result[|done| + m.end..] == rest[m.end..];
    Assoc(done, rest[..m.start], value);
  }

  /** What one turn of the loop does to the text still to be rendered. */
  lemma TurnRenders(done: string, rest: string, eval: Evaluator)
    requires Search(rest, 0).Match?
    ensures var m := Search(rest, 0);
            var value := AsString(eval(rest[m.start + 2..m.end - 2]));
            Prepend(done, Render(Parse(rest), eval))
            == if value.Thrown? then Thrown
               else Prepend(Grown(done, rest, m, value.value), Render(Parse(rest[m.end..]), eval))
  {
    var m := Search(rest, 0);
    var value := AsString(eval(rest[m.start + 2..m.end - 2]));
    if value.Ok? {
      PrependTwice(done, rest[..m.start] + value.value, Render(Parse(rest[m.end..]), eval));
    }
  }

  /** The loop on `result`, of which everything before `pos` is finished. */
  function Loop(result: string, pos: nat, eval: Evaluator): Outcome<string>
    requires pos <= |result|
    decreases |result| - pos
  {
    var m := Search(result, pos);
    if m.NoMatch? then Ok(result)
    else
      var value := AsString(eval(Expression(result, m)));
      if value.Thrown? then Thrown
      else Loop(Replace(result, m, value.value), m.start + |value.value|, eval)
  }

  function Expression(result: string, m: Match): string
    requires m.Match? && m.start + 4 <= m.end <= |result|
  {
    result[m.start + 2..m.end - 2]
  }

  function Replace(result: string, m: Match, value: string): (r: string)
    requires m.Match? && m.start <= m.end <= |result|
    ensures |r| == |result| - (m.end - m.start) + |value|
  {
    result[..m.start] + value + result[m.end..]
  }

  /** One turn, with the match and the value already found. */
  lemma LoopStep(result: string, pos: nat, found: Match, value: Outcome<string>, next: string, pos': nat,
                 eval: Evaluator)
    requires pos <= |result| && found.Match? && Search(result, pos) == found
    requires value == AsString(eval(Expression(result, found)))
    requires value.Ok? ==> next == Replace(result, found, value.value) && pos' == found.start + |value.value|
    ensures value.Ok? ==> pos' <= |next|
    ensures Loop(result, pos, eval) == if value.Thrown? then Thrown else Loop(next, pos', eval)
  {
  }

  /** `done` grows by the literal in front of the match and the value. */
  function Grown(done: string, rest: string, m: Match, value: string): string
    requires m.Match? && m.start <= |rest|
  {
    done + (rest[..m.start] + value)
  }

  /** One turn, in terms of the finished text `done` and the unscanned `rest`. */
  lemma LoopTurn(done: string, rest: string, eval: Evaluator)
    requires Search(rest, 0).Match?
    ensures var m := Search(rest, 0);
            var value := AsString(eval(rest[m.start + 2..m.end - 2]));
            Loop(done + rest, |done|, eval)
            == if value.Thrown? then Thrown
               else
                 var done' := Grown(done, rest, m, value.value);
                 Loop(done' + rest[m.end..], |done'|, eval)
  {
    var m := Search(rest, 0);
    var found := Match(|done| + m.start, |done| + m.end);
    Locates(done, rest);
    ExpressionShifts(done, rest, m);
    var value := AsString(eval(rest[m.start + 2..m.end - 2]));
    if value.Ok? {
      var done' := Grown(done, rest, m, value.value);
      Replaces(done, rest, m, value.value);
      LoopStep(done + rest, |done|, found, value, done' + rest[m.end..], |done'|, eval);
    } else {
      LoopStep(done + rest, |done|, found, value, "", 0, eval);
    }
  }

  /** One turn, given that the loop renders what it leaves. */
  lemma TurnKeepsResult(done: string, rest: string, eval: Evaluator)
    requires Search(rest, 0).Match?
    requires var m := Search(rest, 0);
             var value := AsString(eval(rest[m.start + 2..m.end - 2]));
             value.Ok? ==>
               var done' := Grown(done, rest, m, value.value);
               Loop(done' + rest[m.end..], |done'|, eval) == Prepend(done', Render(Parse(rest[m.end..]), eval))
    ensures Loop(done + rest, |done|, eval) == Prepend(done, Render(Parse(rest), eval))
  {
    LoopTurn(done, rest, eval);
    TurnRenders(done, rest, eval);
  }

  /** Replacing in place and scanning on is the same as rendering the parsed template: what has
      been substituted is never scanned again. */
  lemma {:induction false} LoopRenders(done: string, rest: string, eval: Evaluator)
    ensures Loop(done + rest, |done|, eval) == Prepend(done, Render(Parse(rest), eval))
    decreases |rest|
  {
    var m := Search(rest, 0);
    if m.NoMatch? {
      LoopEnds(done, rest, eval);
    } else {
      var value := AsString(eval(rest[m.start + 2..m.end - 2]));
      if value.Ok? {
        LoopRenders(Grown(done, rest, m, value.value), rest[m.end..], eval);
      }
      TurnKeepsResult(done, rest, eval);
    }
  }

  lemma LoopEnds(done: string, rest: string, eval: Evaluator)
    requires Search(rest, 0).NoMatch?
    ensures Loop(done + rest, |done|, eval) == Ok(done + rest) == Prepend(done, Render(Parse(rest), eval))
  {
    SearchShifts(done, rest, 0);
  }

  lemma LoopIsSpec(atemplate: string, eval: Evaluator)
    ensures Loop(atemplate, 0, eval) == Render(Parse(atemplate), eval)
  {
    LoopRenders("", atemplate, eval);
    assert "" + atemplate == atemplate;
    PrependNothing(Render(Parse(atemplate), eval));
  }

  method Substitute(atemplate: string, eval: Evaluator) returns (r: Outcome<Value>)
    ensures r == Substituted(atemplate, eval)
  {
    var result := atemplate;
    var pos: nat := 0;
    var found := Search(result, pos);
    while found.Match?
      invariant pos <= |result| && found == Search(result, pos)
      invariant (pos == 0 && result == atemplate)
                || (|result| - pos < |atemplate| && !IsSingle(atemplate))
      invariant Loop(result, pos, eval) == Loop(atemplate, 0, eval)
      decreases |result| - pos
    {
      var expression := Expression(result, found);
      if result[found.start..found.end] == atemplate {
        return eval(expression);
      }
      assert !IsSingle(atemplate);
      var value := eval(expression);
      if value.Thrown? || !value.value.StringValue? {
        LoopIsSpec(atemplate, eval);
        return Thrown;
      }
      ghost var before, at, m := result, pos, found;
      result := Replace(result, found, value.value.s);
      pos := found.start + |value.value.s|;
      LoopStep(before, at, m, AsString(value), result, pos, eval);
      found := Search(result, pos);
    }
    LoopIsSpec(atemplate, eval);
    r := Ok(StringValue(result));
  }

  // --------------------------------------------------------------------------------------------
  // What the specification says about a template
  // --------------------------------------------------------------------------------------------

  function Print(t: Template): string {
    match t
    case End(text) => text
    case Part(text, expression, rest) => text + ("{{" + expression + "}}" + Print(rest))
  }

  ghost predicate Inert(s: string) {
    forall i: nat, e: nat :: !IsPlaceholder(s, i, e)
  }

  ghost predicate LiteralsAreInert(t: Template) {
    Inert(t.text) && (t.Part? ==> LiteralsAreInert(t.rest))
  }

  lemma PlaceholderOfPrefix(s: string, n: nat, i: nat, e: nat)
    requires n <= |s|
    ensures IsPlaceholder(s[..n], i, e) ==> i < n && IsPlaceholder(s, i, e)
  {
  }

  lemma PrefixInert(s: string, n: nat)
    requires n <= |s| && forall i: nat, e: nat :: i < n ==> !IsPlaceholder(s, i, e)
    ensures Inert(s[..n])
  {
    forall i: nat, e: nat ensures !IsPlaceholder(s[..n], i, e) {
      PlaceholderOfPrefix(s, n, i, e);
    }
  }

  /** The text in front of a match, the match, and the text behind. */
  ghost predicate IsAround(s: string, m: Match)
    requires m.Match? && m.start + 4 <= m.end <= |s|
  {
    s == s[..m.start] + ("{{" + s[m.start + 2..m.end - 2] + "}}" + s[m.end..])
  }

  lemma Pieces(s: string, m: Match)
    requires m.Match? && IsPlaceholder(s, m.start, m.end)
    ensures IsAround(s, m)
  {
  }

  /** The first match, and that nothing before it is one. */
  lemma FoundIsExact(s: string)
    ensures var m := Search(s, 0);
            if m.NoMatch? then Inert(s) else Inert(s[..m.start]) && IsAround(s, m)
  {
    var m := Search(s, 0);
    SearchIsLeftmostShortest(s, 0);
    if m.Match? {
      PrefixInert(s, m.start);
      Pieces(s, m);
    }
  }

  /** Parsing loses nothing, and leaves no placeholder in a literal: no match straddles or skips. */
  lemma {:induction false} ParseIsExact(s: string)
    ensures Print(Parse(s)) == s
    ensures LiteralsAreInert(Parse(s))
    decreases |s|
  {
    var m := Search(s, 0);
    FoundIsExact(s);
    if m.Match? {
      ParseIsExact(s[m.end..]);
    }
  }

  predicate OpensNowhere(s: string) {
    forall i :: 0 <= i < |s| ==> !OpenAt(s, i)
  }

  /** A brace in front of a placeholder would be read as part of it. */
  predicate EndsInBrace(s: string) {
    s != "" && s[|s| - 1] == '{'
  }

  /** Literals without "{{" and, in front of a placeholder, without a brace at the end; expressions
      without a closing brace or line end. */
  predicate Printable(t: Template) {
    OpensNowhere(t.text) &&
    (t.Part? ==>
       && !EndsInBrace(t.text) && Printable(t.rest)
       && forall k :: 0 <= k < |t.expression| ==> t.expression[k] != '}' && !IsLineEnd(t.expression[k]))
  }

  /** Parsing what was printed gives the template back. */
  lemma {:induction false} ParsePrint(t: Template)
    requires Printable(t)
    ensures Parse(Print(t)) == t
  {
    if t.Part? {
      PrintedHole(t.text, t.expression, Print(t.rest));
      ParsePrint(t.rest);
    } else {
      SearchIsLeftmostShortest(t.text, 0);
    }
  }

  /** The first placeholder of a printed template. */
  lemma PrintedHole(text: string, expression: string, tail: string)
    requires OpensNowhere(text) && !EndsInBrace(text)
    requires forall k :: 0 <= k < |expression| ==> expression[k] != '}' && !IsLineEnd(expression[k])
    ensures var s := text + ("{{" + expression + "}}" + tail);
            var end := |text| + |expression| + 4;
            && Search(s, 0) == Match(|text|, end)
            && s[..|text|] == text && s[|text| + 2..end - 2] == expression && s[end..] == tail
  {
    var hole := "{{" + expression + "}}";
    var s := text + (hole + tail);
    var start, end := |text|, |text| + |hole|;
    assert s[..start] == text && s[start..] == hole + tail && s[end..] == tail;
    assert forall k :: start <= k < end ==> s[k] == hole[k - start];
    assert s[start + 2..end - 2] == expression;
    assert forall k :: 0 <= k < start ==> !OpenAt(text, k) && s[k] == text[k];
    PrintedMatch(s, start, end);
  }

  lemma PrintedMatch(t: string, start: nat, end: nat)
    requires start + 4 <= end <= |t| && OpenAt(t, start) && CloseAt(t, end - 2)
    requires forall k :: 0 <= k < start ==> !OpenAt(t, k)
    requires forall k :: start + 2 <= k < end - 2 ==> t[k] != '}' && !IsLineEnd(t[k])
    ensures Search(t, 0) == Match(start, end)
  {
    SearchIsLeftmostShortest(t, 0);
    assert IsPlaceholder(t, start, end);
    var m := Search(t, 0);
    assert m.Match? && m.start == start;
    assert m.end <= end;
    assert CloseAt(t, m.end - 2);
  }

  /** Anything but a string is only ever returned for a template that is one placeholder. */
  lemma TypedOnlyForSingle(t: string, eval: Evaluator)
    ensures var r := Substituted(t, eval);
            r.Ok? && !r.value.StringValue? ==>
              IsPlaceholder(t, 0, |t|) && r == eval(t[2..|t| - 2])
  {
    SearchIsLeftmostShortest(t, 0);
  }
}
