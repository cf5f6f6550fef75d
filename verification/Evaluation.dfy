/** Evaluating a path expression: the events of the grammar move a proxy through the objects of the
    environment, and the proxy it ends at gives the value. */
module Evaluation {
  import opened JsonValues
  import G = PathGrammar
  import S = Substitution

  /** What the proxy points at.  A message gives its payload as JSON only when it has that format
      (`payload` is what get_json() answers), its topic, and the levels of the topic. */
  datatype Proxy =
    | Nothing
    | OfMessage(payload: Outcome<Json>, topic: string, levels: seq<string>)
    | OfJson(json: Json)
    | OfList(list: seq<string>)
    | OfText(text: string)
    | OfMap(entries: map<string, string>)

  type Environment = map<string, Proxy>

  const WIDTH: nat := 0x1_0000_0000

  // --------------------------------------------------------------------------------------------
  // ObjectProxy
  // --------------------------------------------------------------------------------------------

  function MemberAt(members: seq<Member>, key: string): Outcome<Json> {
    if members == [] then Thrown
    else if members[0].key == key then Ok(members[0].value)
    else MemberAt(members[1..], key)
  }

  function NextKey(p: Proxy, key: string): Outcome<Proxy> {
    match p
    case OfMessage(payload, topic, levels) =>
      if key == "PAYLOAD" then
        if payload.Ok? then Ok(OfJson(payload.value)) else Thrown
      else if key == "TOPIC_LEVELS" then Ok(OfList(levels))
      else if key == "TOPIC" then Ok(OfText(topic))
      else Thrown
    case OfJson(Obj(members)) =>
      var r := MemberAt(members, key);
      if r.Ok? then Ok(OfJson(r.value)) else Thrown
    case OfMap(entries) => if key in entries then Ok(OfText(entries[key])) else Thrown
    case _ => Thrown
  }

  function NextIndex(p: Proxy, ix: nat): Outcome<Proxy> {
    match p
    case OfList(list) => if ix < |list| then Ok(OfText(list[ix])) else Thrown
    case OfJson(Arr(items)) => if ix < |items| then Ok(OfJson(items[ix])) else Thrown
    case _ => Thrown
  }

  /** An integer is read as a 32-bit unsigned number and printed. */
  function ValueOf(p: Proxy): Outcome<Value> {
    match p
    case OfText(text) => Ok(StringValue(text))
    case OfJson(Str(s)) => Ok(StringValue(s))
    case OfJson(Int(n)) => Ok(StringValue(G.Decimal(n % WIDTH)))
    case OfJson(json) => Ok(JsonValue(json))
    case _ => Thrown
  }

  // --------------------------------------------------------------------------------------------
  // EvalState
  // --------------------------------------------------------------------------------------------

  /** A modifier needs bytes, which none of these proxies gives. */
  function Fire(env: Environment, p: Proxy, e: G.Event): Outcome<Proxy> {
    match e
    case Start(name) => if name in env then Ok(env[name]) else Thrown
    case NextKey(key) => NextKey(p, key)
    case NextIndex(ix) => NextIndex(p, ix)
    case Modify(_) => Thrown
  }

  function FireAll(env: Environment, p: Proxy, events: seq<G.Event>): Outcome<Proxy>
    decreases |events|
  {
    if events == [] then Ok(p)
    else
      var r := Fire(env, p, events[0]);
      if r.Thrown? then Thrown else FireAll(env, r.value, events[1..])
  }

  function Read(r: Outcome<Proxy>): Outcome<Value> {
    if r.Thrown? then Thrown else ValueOf(r.value)
  }

  /** What the parser answers is not looked at; only an exception counts. */
  function Evaluated(env: Environment, expression: string): Outcome<Value> {
    var parsed := G.Parse(expression);
    if parsed.Threw? then Thrown else Read(FireAll(env, Nothing, parsed.events))
  }

  class EvalState {
    const env: Environment
    var obj: Proxy

    constructor (env: Environment)
      ensures this.env == env && obj == Nothing
    {
      this.env := env;
      obj := Nothing;
    }

    method Apply(e: G.Event) returns (ok: bool)
      modifies this
      ensures ok == Fire(env, old(obj), e).Ok?
      ensures obj == if ok then Fire(env, old(obj), e).value else old(obj)
    {
      var r := Fire(env, obj, e);
      ok := r.Ok?;
      if ok {
        obj := r.value;
      }
    }
  }

  method Evaluate(env: Environment, expression: string) returns (r: Outcome<Value>)
    ensures r == Evaluated(env, expression)
  {
    var state := new EvalState(env);
    var parsed := G.Parse(expression);
    for i := 0 to |parsed.events|
      invariant fresh(state) && state.env == env
      invariant FireAll(env, Nothing, parsed.events) == FireAll(env, state.obj, parsed.events[i..])
    {
      assert parsed.events[i..][1..] == parsed.events[i + 1..];
      var ok := state.Apply(parsed.events[i]);
      if !ok {
        return Thrown;
      }
    }
    r := if parsed.Threw? then Thrown else ValueOf(state.obj);
  }

  // --------------------------------------------------------------------------------------------
  // What a path denotes
  // --------------------------------------------------------------------------------------------

  /** Walking down from an object along a path. */
  function Descend(p: Proxy, t: G.Tail): Outcome<Proxy>
    requires G.ValidTail(t)
    decreases t
  {
    match t
    case End(m) => if m.NoModifier? then Ok(p) else Thrown
    case More(Property(name), rest) =>
      var r := NextKey(p, name);
      if r.Thrown? then Thrown else Descend(r.value, rest)
    case More(Index(digits), rest) =>
      var r := NextIndex(p, G.Number(digits));
      if r.Thrown? then Thrown else Descend(r.value, rest)
  }

  function Denoted(env: Environment, path: G.Path): Outcome<Value>
    requires G.ValidPath(path)
  {
    if path.head !in env then Thrown else Read(Descend(env[path.head], path.tail))
  }

  lemma {:induction false} EventsDescend(env: Environment, p: Proxy, t: G.Tail)
    requires G.ValidTail(t)
    ensures FireAll(env, p, G.TailEvents(t)) == Descend(p, t)
    decreases t
  {
    match t
    case End(m) =>
    case More(step, rest) =>
      var r := Fire(env, p, G.StepEvent(step));
      assert G.TailEvents(t)[1..] == G.TailEvents(rest);
      if r.Ok? {
        EventsDescend(env, r.value, rest);
      }
  }

  /** Evaluating a printed path gives what the path denotes. */
  lemma EvaluatesPath(env: Environment, path: G.Path)
    requires G.ValidPath(path)
    ensures Evaluated(env, G.Print(path)) == Denoted(env, path)
  {
    G.PrintedPathParses(path);
    assert G.Events(path)[1..] == G.TailEvents(path.tail);
    if path.head in env {
      EventsDescend(env, env[path.head], path.tail);
    }
  }

  // --------------------------------------------------------------------------------------------
  // Integers
  // --------------------------------------------------------------------------------------------

  function Minus(n: int): string {
    if n < 0 then "-" + G.Decimal(-n) else G.Decimal(n)
  }

  /** An integer of a document is shown in decimal exactly when it fits 32 bits without a sign. */
  lemma IntegerIsExactIff(n: int)
    ensures ValueOf(OfJson(Int(n))) == Ok(StringValue(Minus(n))) <==> 0 <= n < WIDTH
  {
    var shown := G.Decimal(n % WIDTH);
    if 0 <= n {
      if n < WIDTH {
        assert n % WIDTH == n;
      }
      G.NumberDecimal(n);
      G.NumberDecimal(n % WIDTH);
    } else {
      assert Minus(n)[0] == '-' && G.IsDigit(shown[0]);
    }
  }

  // --------------------------------------------------------------------------------------------
  // Templates of paths
  // --------------------------------------------------------------------------------------------

  datatype PathTemplate = Rest(text: string) | Hole(text: string, path: G.Path, rest: PathTemplate)

  predicate ValidTemplate(t: PathTemplate) {
    && S.OpensNowhere(t.text)
    && (t.Hole? ==> !S.EndsInBrace(t.text) && G.ValidPath(t.path) && ValidTemplate(t.rest))
  }

  function Printed(t: PathTemplate): S.Template {
    match t
    case Rest(text) => S.End(text)
    case Hole(text, path, rest) => S.Part(text, G.Print(path), Printed(rest))
  }

  /** Literals, and the strings that the paths denote. */
  function Filled(t: PathTemplate, env: Environment): Outcome<string>
    requires ValidTemplate(t)
  {
    match t
    case Rest(text) => Ok(text)
    case Hole(text, path, rest) =>
      var v := S.AsString(Denoted(env, path));
      if v.Thrown? then Thrown else S.Prepend(text + v.value, Filled(rest, env))
  }

  predicate Plain(s: string) {
    forall k :: 0 <= k < |s| ==> s[k] != '}' && !S.IsLineEnd(s[k])
  }

  lemma DefinitionIsPlain(m: G.Modifier)
    requires G.ValidModifier(m)
    ensures Plain(G.PrintTail(G.End(m)))
  {
    if m.Modifier? {
      assert Plain(m.name) && Plain("," + m.argument);
      assert Plain(G.Definition(m));
    }
  }

  lemma {:induction false} TailIsPlain(t: G.Tail)
    requires G.ValidTail(t)
    ensures Plain(G.PrintTail(t))
  {
    match t
    case End(m) => DefinitionIsPlain(m);
    case More(step, rest) =>
      TailIsPlain(rest);
      assert Plain(G.PrintStep(step));
  }

  lemma {:induction false} PrintedIsPrintable(t: PathTemplate)
    requires ValidTemplate(t)
    ensures S.Printable(Printed(t))
  {
    if t.Hole? {
      PrintedIsPrintable(t.rest);
      TailIsPlain(t.path.tail);
      assert Plain(t.path.head);
      assert Plain(G.Print(t.path));
    }
  }

  function EvaluatorOf(env: Environment): S.Evaluator {
    e => Evaluated(env, e)
  }

  lemma {:induction false} RendersPaths(t: PathTemplate, env: Environment)
    requires ValidTemplate(t)
    ensures S.Render(Printed(t), EvaluatorOf(env)) == Filled(t, env)
  {
    if t.Hole? {
      EvaluatesPath(env, t.path);
      RendersPaths(t.rest, env);
    }
  }

  predicate IsLone(t: PathTemplate) {
    t.Hole? && t.text == "" && t.rest == Rest("")
  }

  lemma LoneIsSingle(path: G.Path)
    requires G.ValidPath(path)
    ensures var s := "{{" + G.Print(path) + "}}"; S.IsSingle(s) && s[2..|s| - 2] == G.Print(path)
  {
    var s := "{{" + G.Print(path) + "}}";
    TailIsPlain(path.tail);
    assert Plain(path.head);
    assert forall k :: 2 <= k < |s| - 2 ==> s[k] == G.Print(path)[k - 2];
    S.PrintedMatch(s, 0, |s|);
  }

  lemma SingleIsLone(t: PathTemplate)
    requires ValidTemplate(t) && S.IsSingle(S.Print(Printed(t)))
    ensures IsLone(t)
  {
    var s := S.Print(Printed(t));
    PrintedIsPrintable(t);
    S.ParsePrint(Printed(t));
    assert s[|s|..] == "" && s[..0] == "";
    assert S.Parse("") == S.End("");
    assert S.Parse(s) == S.Part("", s[2..|s| - 2], S.End(""));
  }

  /** From the text of a template to the text it produces: a lone placeholder gives the value its
      path denotes, and any other template the literals with the denoted strings in between. */
  lemma TemplateOfPaths(t: PathTemplate, env: Environment)
    requires ValidTemplate(t)
    ensures S.Substituted(S.Print(Printed(t)), EvaluatorOf(env))
         == if IsLone(t) then Denoted(env, t.path)
            else
              var r := Filled(t, env);
              if r.Thrown? then Thrown else Ok(StringValue(r.value))
  {
    var s := S.Print(Printed(t));
    if IsLone(t) {
      assert S.Print(Printed(t.rest)) == "";
      assert s == "{{" + G.Print(t.path) + "}}";
      LoneIsSingle(t.path);
      EvaluatesPath(env, t.path);
    } else {
      if S.IsSingle(s) {
        SingleIsLone(t);
      }
      PrintedIsPrintable(t);
      S.ParsePrint(Printed(t));
      RendersPaths(t, env);
    }
  }
}
