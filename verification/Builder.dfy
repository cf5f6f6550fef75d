/** The builder filtra: every string inside a JSON template is substituted, everything else stays.

    JSON documents are values here: a method that rewrites a document returns the new one. */
module Builder {
  import opened JsonValues
  import opened Substitution

  /** How a substituted value is stored in the document. */
  function Stored(v: Value): Json {
    match v
    case StringValue(s) => Str(s)
    case DoubleValue(x) => Float(x)
    case LongValue(n) => Int(n)
    case BoolValue(b) => Bool(b)
    case JsonValue(j) => j
    case BytesValue(bytes) => Arr(seq(|bytes|, i requires 0 <= i < |bytes| => Int(bytes[i])))
  }

  predicate IsContainer(j: Json) {
    j.Arr? || j.Obj?
  }

  // --------------------------------------------------------------------------------------------
  // Specification
  // --------------------------------------------------------------------------------------------

  function Built(j: Json, eval: Evaluator): Outcome<Json>
    decreases j
  {
    match j
    case Str(s) =>
      var v := Substituted(s, eval);
      if v.Thrown? then Thrown else Ok(Stored(v.value))
    case Arr(items) =>
      var r := BuiltItems(items, eval);
      if r.Thrown? then Thrown else Ok(Arr(r.value))
    case Obj(members) =>
      var r := BuiltMembers(members, eval);
      if r.Thrown? then Thrown else Ok(Obj(r.value))
    case _ => Ok(j)
  }

  function BuiltItems(items: seq<Json>, eval: Evaluator): Outcome<seq<Json>>
    decreases items
  {
    if items == [] then Ok([])
    else
      var first := Built(items[0], eval);
      var rest := BuiltItems(items[1..], eval);
      if first.Thrown? || rest.Thrown? then Thrown else Ok([first.value] + rest.value)
  }

  function BuiltMembers(members: seq<Member>, eval: Evaluator): Outcome<seq<Member>>
    decreases members
  {
    if members == [] then Ok([])
    else
      var first := Built(members[0].value, eval);
      var rest := BuiltMembers(members[1..], eval);
      if first.Thrown? || rest.Thrown? then Thrown
      else Ok([Member(members[0].key, first.value)] + rest.value)
  }

  lemma {:induction false} ItemsPointwise(items: seq<Json>, eval: Evaluator)
    ensures var r := BuiltItems(items, eval);
            && (r.Thrown? <==> exists i :: 0 <= i < |items| && Built(items[i], eval).Thrown?)
            && (r.Ok? ==> |r.value| == |items|
                          && forall i :: 0 <= i < |items| ==> Built(items[i], eval) == Ok(r.value[i]))
  {
    if items != [] {
      ItemsPointwise(items[1..], eval);
      assert forall i :: 0 < i < |items| ==> items[i] == items[1..][i - 1];
      assert Built(items[0], eval).Thrown? || BuiltItems(items[1..], eval).Thrown?
             || BuiltItems(items, eval).Ok?;
    }
  }

  lemma {:induction false} MembersPointwise(members: seq<Member>, eval: Evaluator)
    ensures var r := BuiltMembers(members, eval);
            && (r.Thrown? <==> exists i :: 0 <= i < |members| && Built(members[i].value, eval).Thrown?)
            && (r.Ok? ==> |r.value| == |members|
                          && forall i :: 0 <= i < |members| ==>
                               r.value[i].key == members[i].key
                               && Built(members[i].value, eval) == Ok(r.value[i].value))
  {
    if members != [] {
      MembersPointwise(members[1..], eval);
      assert forall i :: 0 < i < |members| ==> members[i] == members[1..][i - 1];
      assert Built(members[0].value, eval).Thrown? || BuiltMembers(members[1..], eval).Thrown?
             || BuiltMembers(members, eval).Ok?;
    }
  }

  // --------------------------------------------------------------------------------------------
  // The filtra
  // --------------------------------------------------------------------------------------------

  /** One element of a container. */
  method SubstituteElement(j: Json, eval: Evaluator) returns (r: Outcome<Json>)
    ensures r == Built(j, eval)
    decreases j, 1
  {
    if j.Str? {
      var result := Substitute(j.s, eval);
      r := if result.Thrown? then Thrown else Ok(Stored(result.value));
    } else if IsContainer(j) {
      r := SubstituteContainer(j, eval);
    } else {
      r := Ok(j);
    }
  }

  /** The recursive `substitute`: rewrites the elements of an object or array one by one. */
  method SubstituteContainer(j: Json, eval: Evaluator) returns (r: Outcome<Json>)
    requires IsContainer(j)
    ensures r == Built(j, eval)
    decreases j, 0
  {
    if j.Arr? {
      var items := j.items;
      ItemsPointwise(j.items, eval);
      for i := 0 to |items|
        invariant |items| == |j.items|
        invariant forall k :: 0 <= k < i ==> Built(j.items[k], eval) == Ok(items[k])
        invariant forall k :: i <= k < |items| ==> items[k] == j.items[k]
      {
        var element := SubstituteElement(j.items[i], eval);
        if element.Thrown? {
          return Thrown;
        }
        items := items[i := element.value];
      }
      assert BuiltItems(j.items, eval).Ok? ==> BuiltItems(j.items, eval).value == items;
      r := Ok(Arr(items));
    } else {
      var members := j.members;
      MembersPointwise(j.members, eval);
      for i := 0 to |members|
        invariant |members| == |j.members|
        invariant forall k :: 0 <= k < i ==>
          members[k].key == j.members[k].key && Built(j.members[k].value, eval) == Ok(members[k].value)
        invariant forall k :: i <= k < |members| ==> members[k] == j.members[k]
      {
        var element := SubstituteElement(j.members[i].value, eval);
        if element.Thrown? {
          return Thrown;
        }
        members := members[i := Member(members[i].key, element.value)];
      }
      assert BuiltMembers(j.members, eval).Ok? ==> BuiltMembers(j.members, eval).value == members;
      r := Ok(Obj(members));
    }
  }

  /** The top level takes objects, and strings whose value is a string or a JSON document. */
  method Build(output: Json, eval: Evaluator) returns (r: Outcome<Json>)
    ensures output.Obj? ==> r == Built(output, eval)
    ensures output.Str? ==>
      var v := Substituted(output.s, eval);
      r == if v.Ok? && (v.value.StringValue? || v.value.JsonValue?) then Built(output, eval) else Thrown
    ensures !output.Obj? && !output.Str? ==> r.Thrown?
  {
    if output.Obj? {
      r := SubstituteContainer(output, eval);
    } else if output.Str? {
      var result := Substitute(output.s, eval);
      if result.Ok? && result.value.StringValue? {
        r := Ok(Str(result.value.s));
      } else if result.Ok? && result.value.JsonValue? {
        r := Ok(result.value.j);
      } else {
        r := Thrown;
      }
    } else {
      r := Thrown;
    }
  }

  // --------------------------------------------------------------------------------------------
  // What building does to every place in the document
  // --------------------------------------------------------------------------------------------

  datatype Place = Nowhere | At(node: Json)

  /** The node reached by following element positions. */
  function Follow(j: Json, path: seq<nat>): Place
    decreases |path|
  {
    if path == [] then At(j)
    else if j.Arr? && path[0] < |j.items| then Follow(j.items[path[0]], path[1..])
    else if j.Obj? && path[0] < |j.members| then Follow(j.members[path[0]].value, path[1..])
    else Nowhere
  }

  /** What becomes of one node of the template. */
  predicate Corresponds(before: Json, after: Json, eval: Evaluator) {
    match before
    case Str(s) => Substituted(s, eval).Ok? && after == Stored(Substituted(s, eval).value)
    case Arr(items) => after.Arr? && |after.items| == |items|
    case Obj(members) =>
      after.Obj? && |after.members| == |members|
      && forall i :: 0 <= i < |members| ==> after.members[i].key == members[i].key
    case _ => after == before
  }

  /** At every place of the template: keys, lengths and non-string leaves are kept, and a string is
      replaced by the value of its original text, whatever that value contains. */
  lemma {:induction false} BuiltEverywhere(j: Json, eval: Evaluator, path: seq<nat>)
    requires Built(j, eval).Ok? && Follow(j, path).At?
    ensures Follow(Built(j, eval).value, path).At?
    ensures Corresponds(Follow(j, path).node, Follow(Built(j, eval).value, path).node, eval)
    decreases |path|
  {
    match j {
      case Arr(items) =>
        ItemsPointwise(items, eval);
        if path != [] {
          BuiltEverywhere(items[path[0]], eval, path[1..]);
        }
      case Obj(members) =>
        MembersPointwise(members, eval);
        if path != [] {
          BuiltEverywhere(members[path[0]].value, eval, path[1..]);
        }
      case _ =>
    }
  }

  /** What the string at a place of the template becomes, by the kind of value its text gives: a string
      stays a string, a boolean or a number becomes one, a document takes the string's place as a
      whole, and bytes become an array of their numbers. */
  lemma StringBecomes(j: Json, eval: Evaluator, path: seq<nat>, text: string)
    requires Built(j, eval).Ok? && Follow(j, path) == At(Str(text))
    ensures Substituted(text, eval).Ok? && Follow(Built(j, eval).value, path).At?
    ensures var node := Follow(Built(j, eval).value, path).node;
            match Substituted(text, eval).value
            case StringValue(s) => node == Str(s)
            case BoolValue(b) => node == Bool(b)
            case DoubleValue(x) => node == Float(x)
            case LongValue(n) => node == Int(n)
            case JsonValue(document) => node == document
            case BytesValue(bytes) =>
              node.Arr? && |node.items| == |bytes| && forall i :: 0 <= i < |bytes| ==> node.items[i] == Int(bytes[i])
  {
    BuiltEverywhere(j, eval, path);
  }

  /** Building fails exactly when the substitution of some string in the template fails. */
  lemma {:induction false} FailsIffSomeStringFails(j: Json, eval: Evaluator)
    ensures Built(j, eval).Thrown? <==>
              exists path: seq<nat> :: FailsAt(j, eval, path)
    decreases j
  {
    match j {
      case Str(s) =>
        if Substituted(s, eval).Thrown? {
          assert FailsAt(j, eval, []);
        }
      case Arr(items) =>
        ItemsPointwise(items, eval);
        forall i | 0 <= i < |items|
          ensures Built(items[i], eval).Thrown? <==> exists path: seq<nat> :: FailsAt(j, eval, [i] + path)
        {
          FailsIffSomeStringFails(items[i], eval);
          forall path: seq<nat> ensures FailsAt(items[i], eval, path) <==> FailsAt(j, eval, [i] + path) {
            assert ([i] + path)[1..] == path;
          }
        }
        PathsSplit(j, eval);
      case Obj(members) =>
        MembersPointwise(members, eval);
        forall i | 0 <= i < |members|
          ensures Built(members[i].value, eval).Thrown? <==>
                    exists path: seq<nat> :: FailsAt(j, eval, [i] + path)
        {
          FailsIffSomeStringFails(members[i].value, eval);
          forall path: seq<nat> ensures FailsAt(members[i].value, eval, path) <==> FailsAt(j, eval, [i] + path) {
            assert ([i] + path)[1..] == path;
          }
        }
        PathsSplit(j, eval);
      case _ =>
    }
  }

  predicate FailsAt(j: Json, eval: Evaluator, path: seq<nat>) {
    var p := Follow(j, path);
    p.At? && p.node.Str? && Substituted(p.node.s, eval).Thrown?
  }

  lemma PathsSplit(j: Json, eval: Evaluator)
    requires IsContainer(j)
    ensures forall path: seq<nat> :: FailsAt(j, eval, path) ==>
              path != [] && path[0] < (if j.Arr? then |j.items| else |j.members|)
              && path == [path[0]] + path[1..]
  {
  }
}
