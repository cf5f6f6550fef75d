/** A message, which is kept as text or as a JSON document and converted on demand, and the wrapper
    that protects the received message while filtras edit a copy. */
module Messages {
  import opened JsonValues
  import opened Sequences

  datatype Format = Unkn | Raw | JsonText | Cbor

  datatype Content = Content(
    valid: bool, raw: string, decoded: Json, serialized: bool, format: Format,
    topic: string, attributes: map<string, string>)

  /** The JSON and CBOR libraries. */
  datatype Codec = Codec(dump: Json -> string, parse: string -> Outcome<Json>, toCbor: Json -> string)

  ghost predicate Inverse(codec: Codec) {
    forall j :: codec.parse(codec.dump(j)) == Ok(j)
  }

  const EMPTY := Content(false, "", Null, false, Unkn, "", map[])

  // --------------------------------------------------------------------------------------------
  // What clients do with a message
  // --------------------------------------------------------------------------------------------

  /** `Write` overwrites the document through a reference that get_json() gave at some time before;
      `Redirect` copies the message to a queue. */
  datatype Action = GetRaw | GetJson | Write(document: Json) | SetMessage(content: Content) | Redirect

  datatype Reply = Text(text: Outcome<string>) | Document(json: Outcome<Json>) | Copied(copy: Content) | Quiet

  function Act(codec: Codec, c: Content, a: Action): (Content, Reply) {
    match a
    case GetRaw =>
      if c.serialized then (c, Text(Ok(c.raw)))
      else if c.format.JsonText? then
        (c.(raw := codec.dump(c.decoded), serialized := true), Text(Ok(codec.dump(c.decoded))))
      else if c.format.Cbor? then
        (c.(raw := codec.toCbor(c.decoded), serialized := true), Text(Ok(codec.toCbor(c.decoded))))
      else (c, Text(Thrown))
    case GetJson =>
      if !c.serialized then (c, Document(Ok(c.decoded)))
      else
        var j := codec.parse(c.raw);
        if j.Thrown? then (c, Document(Thrown))
        else (c.(decoded := j.value, serialized := false, format := JsonText), Document(j))
    case Write(document) => (c.(decoded := document), Quiet)
    case SetMessage(content) => (content, Quiet)
    case Redirect => (c, Copied(c))
  }

  /** An invalid message counts as none: the next access starts from the received one again. */
  function Settled(received: Content, c: Content): Content {
    if c.valid then c else received
  }

  function Final(codec: Codec, received: Content, c: Content, actions: seq<Action>): Content
    decreases |actions|
  {
    if actions == [] then c
    else Final(codec, received, Settled(received, Act(codec, c, actions[0]).0), actions[1..])
  }

  function Replies(codec: Codec, received: Content, c: Content, actions: seq<Action>): (r: seq<Reply>)
    ensures |r| == |actions|
    decreases |actions|
  {
    if actions == [] then []
    else
      var (next, reply) := Act(codec, c, actions[0]);
      [reply] + Replies(codec, received, Settled(received, next), actions[1..])
  }

  function CopyIn(r: Reply): seq<Content> {
    if r.Copied? then [r.copy] else []
  }

  function Copies(replies: seq<Reply>): seq<Content> {
    if replies == [] then [] else CopyIn(replies[0]) + Copies(replies[1..])
  }

  lemma {:induction false} FinalExtends(codec: Codec, received: Content, c: Content, actions: seq<Action>, a: Action)
    ensures var last := Final(codec, received, c, actions);
            && Final(codec, received, c, actions + [a]) == Settled(received, Act(codec, last, a).0)
            && Replies(codec, received, c, actions + [a])
               == Replies(codec, received, c, actions) + [Act(codec, last, a).1]
    decreases |actions|
  {
    if actions == [] {
      assert actions + [a] == [a];
    } else {
      assert (actions + [a])[1..] == actions[1..] + [a];
      FinalExtends(codec, received, Settled(received, Act(codec, c, actions[0]).0), actions[1..], a);
    }
  }

  lemma {:induction false} CopiesExtend(replies: seq<Reply>, r: Reply)
    ensures Copies(replies + [r]) == Copies(replies) + CopyIn(r)
  {
    if replies == [] {
      assert replies + [r] == [r];
    } else {
      var first, rest := CopyIn(replies[0]), Copies(replies[1..]);
      assert (replies + [r])[1..] == replies[1..] + [r];
      CopiesExtend(replies[1..], r);
      Assoc(first, rest, CopyIn(r));
    }
  }

  // --------------------------------------------------------------------------------------------
  // Messages of any format
  // --------------------------------------------------------------------------------------------

  /** What a filtra puts on a queue is what the message is at that moment, whatever its format. */
  lemma {:induction false} RedirectedIsVisible(codec: Codec, received: Content, c: Content, actions: seq<Action>, i: nat)
    requires i < |actions| && actions[i] == Redirect
    ensures Replies(codec, received, c, actions)[i] == Copied(Final(codec, received, c, actions[..i]))
    decreases |actions|
  {
    if i > 0 {
      assert actions[..i][1..] == actions[1..][..i - 1];
      RedirectedIsVisible(codec, received, Settled(received, Act(codec, c, actions[0]).0), actions[1..], i - 1);
    }
  }

  predicate KeepsMessage(actions: seq<Action>) {
    forall i :: 0 <= i < |actions| ==> !actions[i].SetMessage?
  }

  /** Reading, editing in place and redirecting leave topic and attributes alone. */
  lemma {:induction false} TopicIsKept(codec: Codec, received: Content, c: Content, actions: seq<Action>)
    requires c.valid && KeepsMessage(actions)
    ensures var last := Final(codec, received, c, actions);
            last.valid && last.topic == c.topic && last.attributes == c.attributes
    decreases |actions|
  {
    if actions != [] {
      assert !actions[0].SetMessage?;
      TopicIsKept(codec, received, Act(codec, c, actions[0]).0, actions[1..]);
    }
  }

  predicate ReadsText(actions: seq<Action>) {
    forall i :: 0 <= i < |actions| ==> actions[i].GetRaw? || actions[i].Redirect?
  }

  /** A message that is kept as text gives that text, unchanged, as often as it is asked for. */
  lemma {:induction false} TextIsKept(codec: Codec, received: Content, c: Content, actions: seq<Action>)
    requires c.valid && c.serialized && ReadsText(actions)
    ensures Final(codec, received, c, actions) == c
    ensures forall i :: 0 <= i < |actions| && actions[i].GetRaw? ==>
              Replies(codec, received, c, actions)[i] == Text(Ok(c.raw))
    decreases |actions|
  {
    if actions != [] {
      assert actions[0].GetRaw? || actions[0].Redirect?;
      TextIsKept(codec, received, c, actions[1..]);
    }
  }

  /** What the first get_raw() of a document gives, and all later ones: its text, in its own format. */
  lemma DocumentBecomesText(codec: Codec, received: Content, c: Content, actions: seq<Action>)
    requires c.valid && !c.serialized && (c.format.JsonText? || c.format.Cbor?)
    requires actions != [] && actions[0].GetRaw? && ReadsText(actions)
    ensures var text := if c.format.JsonText? then codec.dump(c.decoded) else codec.toCbor(c.decoded);
            forall i :: 0 <= i < |actions| && actions[i].GetRaw? ==>
              Replies(codec, received, c, actions)[i] == Text(Ok(text))
  {
    TextIsKept(codec, received, Act(codec, c, actions[0]).0, actions[1..]);
  }

  // --------------------------------------------------------------------------------------------
  // The two forms of a JSON message agree
  // --------------------------------------------------------------------------------------------

  /** The message holds the JSON value `v`, in whichever form is current. */
  ghost predicate Shows(codec: Codec, c: Content, v: Json) {
    && c.valid
    && if c.serialized then codec.parse(c.raw) == Ok(v) else c.format.JsonText? && c.decoded == v
  }

  /** The JSON value that the holder of a reply sees. */
  ghost predicate Tells(codec: Codec, r: Reply, v: Json) {
    match r
    case Text(text) => text.Ok? && codec.parse(text.value) == Ok(v)
    case Document(json) => json == Ok(v)
    case Copied(copy) => Shows(codec, copy, v)
    case Quiet => true
  }

  ghost predicate JsonAction(codec: Codec, a: Action) {
    a.SetMessage? ==> exists v :: Shows(codec, a.content, v)
  }

  ghost predicate JsonActions(codec: Codec, actions: seq<Action>) {
    forall i :: 0 <= i < |actions| ==> JsonAction(codec, actions[i])
  }

  /** The value after each action, when a document written while the text is current is lost. */
  ghost function Shown(codec: Codec, serialized: bool, v: Json, actions: seq<Action>): (r: seq<Json>)
    requires JsonActions(codec, actions)
    ensures |r| == |actions|
    decreases |actions|
  {
    if actions == [] then []
    else
      var (flag, value) := Next(codec, serialized, v, actions[0]);
      [value] + Shown(codec, flag, value, actions[1..])
  }

  ghost function Next(codec: Codec, serialized: bool, v: Json, a: Action): (bool, Json)
    requires JsonAction(codec, a)
  {
    match a
    case GetRaw => (true, v)
    case GetJson => (false, v)
    case Write(document) => (serialized, if serialized then v else document)
    case SetMessage(content) => (content.serialized, ValueOf(codec, content))
    case Redirect => (serialized, v)
  }

  ghost function ValueOf(codec: Codec, c: Content): (v: Json)
    requires exists v :: Shows(codec, c, v)
    ensures Shows(codec, c, v)
  {
    var v :| Shows(codec, c, v); v
  }

  lemma ActShowsTheValue(codec: Codec, c: Content, v: Json, a: Action)
    requires Inverse(codec) && JsonAction(codec, a) && Shows(codec, c, v)
    ensures var (next, reply) := Act(codec, c, a);
            var (flag, value) := Next(codec, c.serialized, v, a);
            Shows(codec, next, value) && next.serialized == flag && Tells(codec, reply, value)
  {
    assert codec.parse(codec.dump(v)) == Ok(v);
  }

  /** Any mix of reads, writes, replacements and copies of a JSON message: every text parses to,
      every document is, and every copy on a queue holds, the value that is current. */
  lemma {:induction false} RepliesShowTheValue(codec: Codec, received: Content, c: Content, v: Json, actions: seq<Action>)
    requires Inverse(codec) && JsonActions(codec, actions) && Shows(codec, c, v)
    ensures forall i :: 0 <= i < |actions| ==>
      Tells(codec, Replies(codec, received, c, actions)[i], Shown(codec, c.serialized, v, actions)[i])
    decreases |actions|
  {
    if actions != [] {
      var next := Act(codec, c, actions[0]).0;
      var value := Next(codec, c.serialized, v, actions[0]).1;
      ActShowsTheValue(codec, c, v, actions[0]);
      RepliesShowTheValue(codec, received, next, value, actions[1..]);
    }
  }

  /** The value that was written last. */
  ghost function LastWritten(codec: Codec, v: Json, actions: seq<Action>): (r: seq<Json>)
    requires JsonActions(codec, actions)
    ensures |r| == |actions|
    decreases |actions|
  {
    if actions == [] then []
    else
      var value := match actions[0]
        case Write(document) => document
        case SetMessage(content) => ValueOf(codec, content)
        case _ => v;
      [value] + LastWritten(codec, value, actions[1..])
  }

  /** Every document that differs from the value at hand is written between a get_json() and the
      next get_raw(). */
  ghost predicate WritesInTime(codec: Codec, serialized: bool, v: Json, actions: seq<Action>)
    requires JsonActions(codec, actions)
    decreases |actions|
  {
    actions == [] ||
    (var (flag, value) := Next(codec, serialized, v, actions[0]);
     && (actions[0].Write? && serialized ==> actions[0].document == v)
     && WritesInTime(codec, flag, value, actions[1..]))
  }

  /** So the last written value is what everyone sees exactly when no write comes too late. */
  lemma {:induction false} LastWrittenIsShownIff(codec: Codec, serialized: bool, v: Json, actions: seq<Action>)
    requires JsonActions(codec, actions)
    ensures Shown(codec, serialized, v, actions) == LastWritten(codec, v, actions)
            <==> WritesInTime(codec, serialized, v, actions)
    decreases |actions|
  {
    if actions != [] {
      var (flag, value) := Next(codec, serialized, v, actions[0]);
      var shown, last := Shown(codec, serialized, v, actions), LastWritten(codec, v, actions);
      if last[0] == value {
        LastWrittenIsShownIff(codec, flag, value, actions[1..]);
        assert shown[1..] == Shown(codec, flag, value, actions[1..]);
        assert last[1..] == LastWritten(codec, value, actions[1..]);
        assert shown == [shown[0]] + shown[1..];
        assert last == [last[0]] + last[1..];
      } else {
        assert shown[0] != last[0];
      }
    }
  }

  // --------------------------------------------------------------------------------------------
  // The objects
  // --------------------------------------------------------------------------------------------

  class Message {
    var valid: bool
    var raw: string
    var decoded: Json
    var serialized: bool
    var format: Format
    var topic: string
    var attributes: map<string, string>

    function Value(): Content
      reads this
    {
      Content(valid, raw, decoded, serialized, format, topic, attributes)
    }

    constructor FromContent(c: Content)
      ensures Value() == c
    {
      valid, raw, decoded, serialized := c.valid, c.raw, c.decoded, c.serialized;
      format, topic, attributes := c.format, c.topic, c.attributes;
    }

    constructor Copy(other: Message)
      ensures Value() == other.Value()
    {
      valid, raw, decoded, serialized := other.valid, other.raw, other.decoded, other.serialized;
      format, topic, attributes := other.format, other.topic, other.attributes;
    }

    method GetRaw(codec: Codec) returns (r: Outcome<string>)
      modifies this
      ensures (Value(), Text(r)) == Act(codec, old(Value()), Action.GetRaw)
      ensures old(serialized) ==> r == Ok(old(raw)) && unchanged(this)
      ensures !old(serialized) && format.JsonText? ==> r == Ok(codec.dump(decoded)) && raw == r.value && serialized
      ensures !old(serialized) && !format.JsonText? && !format.Cbor? ==> r == Thrown && unchanged(this)
      ensures topic == old(topic) && attributes == old(attributes) && decoded == old(decoded)
    {
      if !serialized {
        if format.JsonText? {
          raw := codec.dump(decoded);
        } else if format.Cbor? {
          raw := codec.toCbor(decoded);
        } else {
          return Thrown;
        }
        serialized := true;
      }
      return Ok(raw);
    }

    method GetJson(codec: Codec) returns (r: Outcome<Json>)
      modifies this
      ensures (Value(), Document(r)) == Act(codec, old(Value()), Action.GetJson)
      ensures !old(serialized) ==> r == Ok(old(decoded)) && unchanged(this)
      ensures old(serialized) ==> r == codec.parse(old(raw)) && (r.Thrown? ==> unchanged(this))
      ensures old(serialized) && r.Ok? ==> decoded == r.value && !serialized && format == JsonText
      ensures topic == old(topic) && attributes == old(attributes)
    {
      if serialized {
        var j := codec.parse(raw);
        if j.Thrown? {
          return Thrown;
        }
        decoded, serialized, format := j.value, false, JsonText;
      }
      return Ok(decoded);
    }
  }

  class MessageWrapper {
    const orig: Message
    var alt: Message

    /** What the next msg() gives access to. */
    function Visible(): Content
      reads this, orig, alt
    {
      Settled(orig.Value(), alt.Value())
    }

    constructor (received: Message)
      ensures orig == received && fresh(alt)
      ensures alt.Value() == EMPTY
    {
      orig := received;
      alt := new Message.FromContent(EMPTY);
    }

    method Msg() returns (m: Message)
      modifies this
      ensures m == alt && (alt == old(alt) || fresh(alt))
      ensures m.Value() == old(Visible())
    {
      if !alt.valid {
        alt := new Message.Copy(orig);
      }
      return alt;
    }

    method SetMessage(c: Content)
      modifies this
      ensures fresh(alt) && alt.Value() == c
    {
      alt := new Message.FromContent(c);
    }
  }

  ghost function Values(messages: seq<Message>): (r: seq<Content>)
    reads messages
    ensures |r| == |messages|
  {
    seq(|messages|, i requires 0 <= i < |messages| reads messages => messages[i].Value())
  }

  /** One action on the wrapped message; a redirect yields the object that goes to the queue. */
  method Perform(codec: Codec, w: MessageWrapper, a: Action) returns (r: Reply, out: Message?)
    requires w.alt != w.orig
    modifies w, w.alt
    ensures w.alt == old(w.alt) || fresh(w.alt)
    ensures w.alt != w.orig
    ensures w.Visible() == Settled(w.orig.Value(), Act(codec, old(w.Visible()), a).0)
    ensures r == Act(codec, old(w.Visible()), a).1
    ensures r.Copied? <==> out != null
    ensures out != null ==> fresh(out) && out != w.alt && out.Value() == r.copy
    ensures w.alt.Value() == Act(codec, old(w.Visible()), a).0
  {
    r, out := Quiet, null;
    if a.SetMessage? {
      w.SetMessage(a.content);
      return;
    }
    var m := w.Msg();
    if a.GetRaw? {
      var text := m.GetRaw(codec);
      r := Text(text);
    } else if a.GetJson? {
      var json := m.GetJson(codec);
      r := Document(json);
    } else if a.Write? {
      m.decoded := a.document;
    } else {
      out := new Message.Copy(m);
      r := Copied(out.Value());
    }
  }

  /** Filtras work on a received message.  Whatever they read, edit in place, replace and redirect,
      the received message is untouched, and each message put on a queue still holds at the end what
      the message was when it was redirected.  `sent` is what msg_ptr() gives afterwards: nothing at
      all, unless some filtra has accessed the message. */
  method Handle(codec: Codec, received: Message, actions: seq<Action>)
    returns (replies: seq<Reply>, queue: seq<Message>, sent: Message)
    ensures replies == Replies(codec, received.Value(), received.Value(), actions)
    ensures Values(queue) == Copies(replies)
    ensures forall i :: 0 <= i < |queue| ==> fresh(queue[i]) && queue[i] != sent
    ensures fresh(sent)
    ensures sent.Value() == EMPTY <== actions == []
    ensures received.valid && actions != [] ==>
      Settled(received.Value(), sent.Value()) == Final(codec, received.Value(), received.Value(), actions)
  {
    var w := new MessageWrapper(received);
    replies, queue := [], [];
    ghost var c := received.Value();
    for i := 0 to |actions|
      invariant fresh(w) && w.orig == received && fresh(w.alt) && received.Value() == c
      invariant unchanged(received)
      invariant w.Visible() == Final(codec, c, c, actions[..i])
      invariant replies == Replies(codec, c, c, actions[..i])
      invariant forall k :: 0 <= k < |queue| ==> fresh(queue[k]) && queue[k] != w.alt
      invariant Values(queue) == Copies(replies)
      invariant i == 0 ==> w.alt.Value() == EMPTY
    {
      assert actions[..i + 1] == actions[..i] + [actions[i]];
      FinalExtends(codec, c, c, actions[..i], actions[i]);
      ghost var before := Values(queue);
      var r, out := Perform(codec, w, actions[i]);
      assert Values(queue) == before;
      CopiesExtend(replies, r);
      replies := replies + [r];
      if out != null {
        queue := queue + [out];
      }
    }
    assert actions[..|actions|] == actions;
    sent := w.alt;
  }
}
