/** What a path selects, in terms of the messages, documents, lists and maps of the environment. */
module EvaluationTheorems {
  import opened JsonValues
  import opened Evaluation
  import A = Arithmetic
  import G = PathGrammar

  // --------------------------------------------------------------------------------------------
  // Values
  // --------------------------------------------------------------------------------------------

  /** How a document is substituted: a string as itself, an integer as the decimal number between 0
      and 2^32 - 1 that differs from it by a multiple of 2^32, anything else as the document. */
  ghost predicate IsSubstituteFor(v: Value, j: Json) {
    match j
    case Str(s) => v == StringValue(s)
    case Int(n) =>
      exists m: nat :: m < 0x1_0000_0000 && (n - m) % 0x1_0000_0000 == 0 && v == StringValue(G.Decimal(m))
    case _ => v == JsonValue(j)
  }

  lemma DocumentHasValue(j: Json)
    ensures ValueOf(OfJson(j)).Ok? && IsSubstituteFor(ValueOf(OfJson(j)).value, j)
  {
    if j.Int? {
      var m: nat, q := j.n % WIDTH, j.n / WIDTH;
      assert j.n - m == q * WIDTH + 0;
      A.DivMod(j.n - m, WIDTH, q, 0);
    }
  }

  /** Decimal digits, most significant first: the digit in front of the last `k` is n / 10^k mod 10. */
  lemma {:induction false} DecimalDigits(n: nat, k: nat)
    requires k < |G.Decimal(n)|
    ensures G.Decimal(n)[|G.Decimal(n)| - 1 - k] == "0123456789"[n / Power(k) % 10]
    ensures |G.Decimal(n)| > 1 ==> n >= 10 && G.Decimal(n)[0] != '0'
  {
    if n >= 10 {
      var front := G.Decimal(n / 10);
      DecimalDigits(n / 10, if k == 0 then 0 else k - 1);
      assert |front| == 1 ==> front[0] != '0';
      if k > 0 {
        DivideTwice(n, k);
        assert G.Decimal(n)[|G.Decimal(n)| - 1 - k] == front[|front| - 1 - (k - 1)];
      }
    } else {
      assert n / 1 == n;
    }
  }

  /** 10^k */
  function Power(k: nat): (p: nat)
    ensures p > 0
  {
    if k == 0 then 1 else 10 * Power(k - 1)
  }

  lemma DivideTwice(n: nat, k: nat)
    requires k > 0
    ensures n / Power(k) == n / 10 / Power(k - 1)
  {
    var p := Power(k - 1);
    var q, r := n / 10, n % 10;
    var a, b := q / p, q % p;
    assert n == q * 10 + r && q == a * p + b;
    assert 10 * (a * p + b) == a * (10 * p) + 10 * b;
    assert 10 * b + r < 10 * p;
    A.DivMod(n, 10 * p, a, 10 * b + r);
  }

  // --------------------------------------------------------------------------------------------
  // Messages, lists and maps
  // --------------------------------------------------------------------------------------------

  const END := G.End(G.NoModifier)

  lemma TailText(step: G.Step, rest: G.Tail)
    ensures G.PrintTail(G.More(step, rest)) == G.PrintStep(step) + G.PrintTail(rest)
  {
  }

  lemma EndText()
    ensures G.PrintTail(END) == ""
  {
  }

  lemma OneStepText(head: string, step: G.Step)
    ensures G.Print(G.Path(head, G.More(step, END))) == head + G.PrintStep(step)
  {
    TailText(step, END);
    EndText();
    assert G.PrintStep(step) + "" == G.PrintStep(step);
  }

  lemma TwoStepsText(head: string, first: G.Step, second: G.Step)
    ensures G.Print(G.Path(head, G.More(first, G.More(second, END))))
         == head + (G.PrintStep(first) + G.PrintStep(second))
  {
    TailText(first, G.More(second, END));
    TailText(second, END);
    EndText();
    assert G.PrintStep(second) + "" == G.PrintStep(second);
  }

  lemma KeyIsRead(env: Environment, head: string, key: string)
    requires G.IsIdent(head) && head in env && G.IsIdent(key)
    ensures Evaluated(env, head + ("." + key)) == Read(NextKey(env[head], key))
  {
    KeyPathIsRead(env, head, key);
    OneStepText(head, G.Property(key));
  }

  lemma KeyPathIsRead(env: Environment, head: string, key: string)
    requires G.IsIdent(head) && head in env && G.IsIdent(key)
    ensures Evaluated(env, G.Print(G.Path(head, G.More(G.Property(key), END)))) == Read(NextKey(env[head], key))
  {
    var tail := G.More(G.Property(key), END);
    assert G.ValidTail(END) && G.ValidTail(tail);
    EvaluatesPath(env, G.Path(head, tail));
    KeyDescends(env[head], key);
  }

  lemma KeyDescends(p: Proxy, key: string)
    requires G.IsIdent(key) && G.ValidTail(G.More(G.Property(key), END))
    ensures Descend(p, G.More(G.Property(key), END)) == NextKey(p, key)
  {
  }

  lemma KeyAndIndexAreRead(env: Environment, head: string, key: string, k: nat, p: Proxy)
    requires G.IsIdent(head) && head in env && G.IsIdent(key) && k <= 0x7FFF_FFFF
    requires NextKey(env[head], key) == Ok(p)
    ensures Evaluated(env, head + ("." + key + ("[" + G.Decimal(k) + "]"))) == Read(NextIndex(p, k))
  {
    var first, second := G.Property(key), G.Index(G.Decimal(k));
    G.NumberDecimal(k);
    TwoStepsText(head, first, second);
    assert G.ValidTail(G.More(second, END));
    assert G.ValidTail(G.More(first, G.More(second, END)));
    EvaluatesPath(env, G.Path(head, G.More(first, G.More(second, END))));
    assert Descend(env[head], G.More(first, G.More(second, END))) == Descend(p, G.More(second, END));
  }

  lemma MessageKeysAreIdents()
    ensures G.IsIdent("TOPIC_LEVELS") && G.IsIdent("TOPIC") && G.IsIdent("PAYLOAD")
  {
  }

  /** `m.TOPIC_LEVELS[k]` is level k of the message's topic, and throws from the number of levels on. */
  lemma TopicLevelIsRead(env: Environment, m: string, levels: seq<string>, k: nat)
    requires G.IsIdent(m) && m in env && env[m].OfMessage? && env[m].levels == levels && k <= 0x7FFF_FFFF
    ensures Evaluated(env, m + ("." + "TOPIC_LEVELS" + ("[" + G.Decimal(k) + "]")))
         == if k < |levels| then Ok(StringValue(levels[k])) else Thrown
  {
    MessageKeysAreIdents();
    KeyAndIndexAreRead(env, m, "TOPIC_LEVELS", k, OfList(levels));
  }

  /** `m.TOPIC` is the topic. */
  lemma TopicIsRead(env: Environment, m: string)
    requires G.IsIdent(m) && m in env && env[m].OfMessage?
    ensures Evaluated(env, m + ("." + "TOPIC")) == Ok(StringValue(env[m].topic))
  {
    MessageKeysAreIdents();
    KeyIsRead(env, m, "TOPIC");
  }

  lemma OtherKeysThrow(env: Environment, m: string, key: string)
    requires G.IsIdent(m) && m in env && env[m].OfMessage? && G.IsIdent(key)
    requires key != "TOPIC" && key != "TOPIC_LEVELS" && key != "PAYLOAD"
    ensures Evaluated(env, m + ("." + key)) == Thrown
  {
    KeyIsRead(env, m, key);
  }

  /** `m.PAYLOAD` is the document, and throws for a message that has none. */
  lemma PayloadIsRead(env: Environment, m: string)
    requires G.IsIdent(m) && m in env && env[m].OfMessage?
    ensures var r := Evaluated(env, m + ("." + "PAYLOAD"));
            if env[m].payload.Ok? then r.Ok? && IsSubstituteFor(r.value, env[m].payload.value) else r == Thrown
  {
    MessageKeysAreIdents();
    KeyIsRead(env, m, "PAYLOAD");
    if env[m].payload.Ok? {
      DocumentHasValue(env[m].payload.value);
    }
  }

  /** `map.key` is the entry under the key, and throws without one. */
  lemma EntryIsRead(env: Environment, name: string, key: string)
    requires G.IsIdent(name) && name in env && env[name].OfMap? && G.IsIdent(key)
    ensures Evaluated(env, name + ("." + key))
         == if key in env[name].entries then Ok(StringValue(env[name].entries[key])) else Thrown
  {
    KeyIsRead(env, name, key);
  }

  // --------------------------------------------------------------------------------------------
  // Documents
  // --------------------------------------------------------------------------------------------

  /** The step leads from document `j` to `next`: to the value of the first member with that key, or to
      the item at that position. */
  predicate Selects(j: Json, step: G.Step, next: Json)
    requires G.ValidStep(step)
  {
    match step
    case Property(name) =>
      j.Obj? && exists i :: 0 <= i < |j.members| && j.members[i] == Member(name, next)
                            && forall h :: 0 <= h < i ==> j.members[h].key != name
    case Index(digits) =>
      j.Arr? && G.Number(digits) < |j.items| && j.items[G.Number(digits)] == next
  }

  /** There is no such member or item. */
  predicate SelectsNothing(j: Json, step: G.Step)
    requires G.ValidStep(step)
  {
    match step
    case Property(name) => j.Obj? ==> forall i :: 0 <= i < |j.members| ==> j.members[i].key != name
    case Index(digits) => j.Arr? ==> |j.items| <= G.Number(digits)
  }

  lemma {:induction false} FirstMember(members: seq<Member>, key: string, i: nat)
    requires i < |members| && members[i].key == key && forall h :: 0 <= h < i ==> members[h].key != key
    ensures MemberAt(members, key) == Ok(members[i].value)
  {
    if i > 0 {
      FirstMember(members[1..], key, i - 1);
    }
  }

  lemma {:induction false} NoMember(members: seq<Member>, key: string)
    requires forall i :: 0 <= i < |members| ==> members[i].key != key
    ensures MemberAt(members, key) == Thrown
  {
    if members != [] {
      NoMember(members[1..], key);
    }
  }

  lemma StepSelects(j: Json, step: G.Step, next: Json, rest: G.Tail)
    requires G.ValidStep(step) && G.ValidTail(rest) && Selects(j, step, next)
    ensures Descend(OfJson(j), G.More(step, rest)) == Descend(OfJson(next), rest)
  {
    if step.Property? {
      var i :| 0 <= i < |j.members| && j.members[i] == Member(step.name, next)
               && forall h :: 0 <= h < i ==> j.members[h].key != step.name;
      FirstMember(j.members, step.name, i);
    }
  }

  lemma StepSelectsNothing(j: Json, step: G.Step, rest: G.Tail)
    requires G.ValidStep(step) && G.ValidTail(rest) && SelectsNothing(j, step)
    ensures Descend(OfJson(j), G.More(step, rest)) == Thrown
  {
    if step.Property? && j.Obj? {
      NoMember(j.members, step.name);
    }
  }

  predicate AreSteps(steps: seq<G.Step>) {
    forall i :: 0 <= i < |steps| ==> G.ValidStep(steps[i])
  }

  function TailOf(steps: seq<G.Step>): G.Tail {
    if steps == [] then END else G.More(steps[0], TailOf(steps[1..]))
  }

  lemma {:induction false} TailIsValid(steps: seq<G.Step>)
    requires AreSteps(steps)
    ensures G.ValidTail(TailOf(steps))
  {
    if steps != [] {
      TailIsValid(steps[1..]);
    }
  }

  /** `documents` are the documents that the steps lead to, one after the other. */
  predicate Follows(documents: seq<Json>, steps: seq<G.Step>)
    requires AreSteps(steps)
  {
    && |documents| == |steps| + 1
    && forall i :: 0 <= i < |steps| ==> Selects(documents[i], steps[i], documents[i + 1])
  }

  lemma {:induction false} DescendsAlong(documents: seq<Json>, steps: seq<G.Step>, rest: seq<G.Step>)
    requires AreSteps(steps) && AreSteps(rest) && Follows(documents, steps)
    ensures G.ValidTail(TailOf(steps + rest)) && G.ValidTail(TailOf(rest))
    ensures Descend(OfJson(documents[0]), TailOf(steps + rest))
         == Descend(OfJson(documents[|steps|]), TailOf(rest))
    decreases |steps|
  {
    TailIsValid(steps + rest);
    TailIsValid(rest);
    if steps == [] {
      assert steps + rest == rest;
    } else {
      assert (steps + rest)[1..] == steps[1..] + rest;
      assert Selects(documents[0], steps[0], documents[1]);
      TailIsValid(steps[1..] + rest);
      StepSelects(documents[0], steps[0], documents[1], TailOf(steps[1..] + rest));
      DescendsAlong(documents[1..], steps[1..], rest);
    }
  }

  /** The path begins at document `j`: a document of the environment, or the payload of a message. */
  predicate BeginsAt(env: Environment, head: string, first: seq<G.Step>, j: Json) {
    && G.IsIdent(head) && head in env
    && (|| (env[head] == OfJson(j) && first == [])
        || (env[head].OfMessage? && env[head].payload == Ok(j) && first == [G.Property("PAYLOAD")]))
  }

  function TextOf(head: string, steps: seq<G.Step>): string {
    G.Print(G.Path(head, TailOf(steps)))
  }

  lemma PathBegins(env: Environment, head: string, first: seq<G.Step>, j: Json, steps: seq<G.Step>)
    requires BeginsAt(env, head, first, j) && AreSteps(steps) && |first| + |steps| > 0
    ensures AreSteps(first + steps) && G.ValidTail(TailOf(steps))
    ensures Evaluated(env, TextOf(head, first + steps)) == Read(Descend(OfJson(j), TailOf(steps)))
  {
    MessageKeysAreIdents();
    TailIsValid(steps);
    TailIsValid(first + steps);
    EvaluatesPath(env, G.Path(head, TailOf(first + steps)));
    if first == [] {
      assert first + steps == steps;
    } else {
      assert (first + steps)[1..] == steps;
    }
  }

  /** A path whose steps lead from document to document evaluates to the last of them. */
  lemma ChainIsRead(env: Environment, head: string, first: seq<G.Step>, documents: seq<Json>, steps: seq<G.Step>)
    requires AreSteps(steps) && |first| + |steps| > 0 && Follows(documents, steps)
    requires BeginsAt(env, head, first, documents[0])
    ensures var r := Evaluated(env, TextOf(head, first + steps));
            r.Ok? && IsSubstituteFor(r.value, documents[|steps|])
  {
    PathBegins(env, head, first, documents[0], steps);
    DescendsAlong(documents, steps, []);
    assert steps + [] == steps;
    DocumentHasValue(documents[|steps|]);
  }

  /** And a path one of whose steps selects nothing throws, whatever follows. */
  lemma BrokenChainThrows(env: Environment, head: string, first: seq<G.Step>, documents: seq<Json>,
                          steps: seq<G.Step>, wrong: G.Step, rest: seq<G.Step>)
    requires AreSteps(steps) && G.ValidStep(wrong) && AreSteps(rest) && Follows(documents, steps)
    requires BeginsAt(env, head, first, documents[0]) && SelectsNothing(documents[|steps|], wrong)
    ensures Evaluated(env, TextOf(head, first + (steps + ([wrong] + rest)))) == Thrown
  {
    var all := steps + ([wrong] + rest);
    PathBegins(env, head, first, documents[0], all);
    DescendsAlong(documents, steps, [wrong] + rest);
    assert ([wrong] + rest)[1..] == rest;
    TailIsValid(rest);
    StepSelectsNothing(documents[|steps|], wrong, TailOf(rest));
  }

  /** `j[k]` is the k-th item of an array, and throws from its length on. */
  lemma ItemIsRead(env: Environment, head: string, items: seq<Json>, k: nat)
    requires G.IsIdent(head) && head in env && env[head] == OfJson(Arr(items)) && k <= 0x7FFF_FFFF
    ensures var r := Evaluated(env, head + ("[" + G.Decimal(k) + "]"));
            if k < |items| then r.Ok? && IsSubstituteFor(r.value, items[k]) else r == Thrown
  {
    var step := G.Index(G.Decimal(k));
    G.NumberDecimal(k);
    LastStepText(head, step);
    if k < |items| {
      ChainIsRead(env, head, [], [Arr(items), items[k]], [step]);
      assert [] + [step] == [step];
    } else {
      BrokenChainThrows(env, head, [], [Arr(items)], [], step, []);
      assert [] + ([] + ([step] + [])) == [step];
    }
  }

  lemma LastStepText(head: string, step: G.Step)
    ensures TextOf(head, [step]) == head + G.PrintStep(step)
  {
    assert TailOf([step][1..]) == END;
    assert TailOf([step]) == G.More(step, END);
    OneStepText(head, step);
  }

  /** Where the first member with the key is. */
  lemma FindsMember(members: seq<Member>, key: string) returns (n: nat)
    ensures n <= |members| && forall h :: 0 <= h < n ==> members[h].key != key
    ensures n < |members| ==> members[n].key == key
  {
    n := 0;
    while n < |members| && members[n].key != key
      invariant n <= |members| && forall h :: 0 <= h < n ==> members[h].key != key
    {
      n := n + 1;
    }
  }

  lemma FirstMemberIsRead(env: Environment, head: string, members: seq<Member>, key: string, i: nat)
    requires G.IsIdent(head) && head in env && env[head] == OfJson(Obj(members)) && G.IsIdent(key)
    requires i < |members| && members[i].key == key && forall h :: 0 <= h < i ==> members[h].key != key
    ensures var r := Evaluated(env, head + ("." + key)); r.Ok? && IsSubstituteFor(r.value, members[i].value)
  {
    var step := G.Property(key);
    LastStepText(head, step);
    assert members[i] == Member(key, members[i].value);
    ChainIsRead(env, head, [], [Obj(members), members[i].value], [step]);
    assert [] + [step] == [step];
  }

  lemma NoMemberThrows(env: Environment, head: string, members: seq<Member>, key: string)
    requires G.IsIdent(head) && head in env && env[head] == OfJson(Obj(members)) && G.IsIdent(key)
    requires forall i :: 0 <= i < |members| ==> members[i].key != key
    ensures Evaluated(env, head + ("." + key)) == Thrown
  {
    var step := G.Property(key);
    LastStepText(head, step);
    BrokenChainThrows(env, head, [], [Obj(members)], [], step, []);
    assert [] + ([] + ([step] + [])) == [step];
  }

  /** `j.key` is the value of the first member with that key, and throws exactly when there is none. */
  lemma MemberIsRead(env: Environment, head: string, members: seq<Member>, key: string) returns (n: nat)
    requires G.IsIdent(head) && head in env && env[head] == OfJson(Obj(members)) && G.IsIdent(key)
    ensures n <= |members| && (forall h :: 0 <= h < n ==> members[h].key != key)
    ensures var r := Evaluated(env, head + ("." + key));
            if n < |members| then
              members[n].key == key && r.Ok? && IsSubstituteFor(r.value, members[n].value)
            else r == Thrown
  {
    n := FindsMember(members, key);
    if n < |members| {
      FirstMemberIsRead(env, head, members, key, n);
    } else {
      NoMemberThrows(env, head, members, key);
    }
  }

  // --------------------------------------------------------------------------------------------
  // Expressions that are not whole paths
  // --------------------------------------------------------------------------------------------

  /** What follows a path is ignored. */
  lemma RestIsIgnored(env: Environment, text: string) returns (path: G.Path)
    requires G.Parse(text).Matched?
    ensures G.ValidPath(path) && text == G.Print(path) + G.Parse(text).rest
    ensures Evaluated(env, text) == Evaluated(env, G.Print(path))
  {
    path := G.ConsumedIsPath(text);
    G.PrintedPathParses(path);
  }

  /** A name alone is no path, but what it names is read all the same. */
  lemma BareNameIsRead(env: Environment, name: string)
    requires G.IsIdent(name)
    ensures var r := Evaluated(env, name);
            if name !in env then r == Thrown
            else
              match env[name]
              case OfJson(j) => r.Ok? && IsSubstituteFor(r.value, j)
              case OfText(text) => r == Ok(StringValue(text))
              case _ => r == Thrown
  {
    assert name + "" == name;
    G.IdentLenIsMaximal(name, "");
    assert name[..|name|] == name && name[|name|..] == "";
    var events := [G.Start(name)];
    assert G.Parse(name) == G.Failed(events);
    OneEvent(env, events[0]);
    if name in env && env[name].OfJson? {
      DocumentHasValue(env[name].json);
    }
  }

  lemma OneEvent(env: Environment, e: G.Event)
    ensures FireAll(env, Nothing, [e]) == Fire(env, Nothing, e)
  {
    var r := Fire(env, Nothing, e);
    assert [e][1..] == [];
    assert r.Ok? ==> FireAll(env, r.value, []) == Ok(r.value);
  }

  /** A text that does not begin with a name throws. */
  lemma NoNameThrows(env: Environment, text: string)
    requires text == "" || !G.IsFirst(text[0])
    ensures Evaluated(env, text) == Thrown
  {
  }

  function LastOf(t: G.Tail): G.Modifier {
    if t.End? then t.modifier else LastOf(t.rest)
  }

  /** A path with a modifier throws: only bytes can be modified. */
  lemma ModifierThrows(env: Environment, path: G.Path)
    requires G.ValidPath(path) && LastOf(path.tail).Modifier?
    ensures Evaluated(env, G.Print(path)) == Thrown
  {
    EvaluatesPath(env, path);
    if path.head in env {
      ModifierFails(env[path.head], path.tail);
    }
  }

  lemma {:induction false} ModifierFails(p: Proxy, t: G.Tail)
    requires G.ValidTail(t) && LastOf(t).Modifier?
    ensures Descend(p, t) == Thrown
    decreases t
  {
    if t.More? {
      match t.step {
        case Property(name) =>
          if NextKey(p, name).Ok? { ModifierFails(NextKey(p, name).value, t.rest); }
        case Index(digits) =>
          if NextIndex(p, G.Number(digits)).Ok? { ModifierFails(NextIndex(p, G.Number(digits)).value, t.rest); }
      }
    }
  }
}
