/** What a pipeline does with a message at one filtra, in terms of its configuration, and what that
    makes of a pipeline without gotos. */
module RoutingTheorems {
  import opened Sequences
  import opened Splitters
  import opened Routing

  // --------------------------------------------------------------------------------------------
  // What happens at a filtra
  // --------------------------------------------------------------------------------------------

  /** The pipeline is active and the message is at filtra `ix`. */
  ghost predicate IsAt(net: Net, ix: nat, w: World) {
    Terminating(net) && |w.ids| == |net.filtras| && ix < |net.filtras| && net.env.active(w.tick)
  }

  /** The filtra passes the message on as `after`, or leaves it passed; a splitter does so with what
      fits into one chunk, unchanged. */
  predicate PassesAt(net: Net, ix: nat, payload: Payload, tick: nat, after: Payload)
    requires ix < |net.filtras|
  {
    match net.filtras[ix].kind
    case Plain =>
      net.env.judge(tick, ix, payload) == (Pass, after) || net.env.judge(tick, ix, payload) == (Keep, after)
    case Splitting(size) => |payload| <= size && after == payload
  }

  predicate RejectsAt(net: Net, ix: nat, payload: Payload, tick: nat, after: Payload)
    requires ix < |net.filtras|
  {
    net.filtras[ix].kind.Plain? && net.env.judge(tick, ix, payload) == (Reject, after)
  }

  /** The first `k` of the filtra's queues have room. */
  predicate RoomFor(net: Net, ix: nat, tick: nat, k: nat)
    requires ix < |net.filtras|
  {
    k <= |net.filtras[ix].queues| && forall j :: 0 <= j < k ==> net.env.room(tick, j)
  }

  /** One copy of the message for each of the filtra's first `k` queues. */
  function Delivered(net: Net, ix: nat, k: nat, after: Payload): seq<Copy>
    requires ix < |net.filtras| && k <= |net.filtras[ix].queues|
  {
    seq(k, j requires 0 <= j < k => Copy(net.filtras[ix].queues[j], after))
  }

  /** The world behind a filtra that has passed the message. */
  function Behind(net: Net, ix: nat, after: Payload, w: World): World
    requires ix < |net.filtras|
  {
    World(w.tick + 1, w.sent, w.copies + Delivered(net, ix, |net.filtras[ix].queues|, after), w.ids, w.failed)
  }

  /** `n` is the first filtra with this name. */
  predicate IsFirstNamed(net: Net, name: string, n: nat) {
    && n < |net.filtras| && net.filtras[n].name == name
    && forall j :: 0 <= j < n ==> net.filtras[j].name != name
  }

  /** The name leads out of the pipeline. */
  predicate LeadsOut(net: Net, name: string) {
    name == "out" || forall j :: 0 <= j < |net.filtras| ==> net.filtras[j].name != name
  }

  lemma NameLeads(net: Net, name: string, ix: nat)
    requires ix < |net.filtras| && name != ""
    ensures forall n: nat :: name != "out" && IsFirstNamed(net, name, n) ==> Target(net, name, ix) == n
    ensures LeadsOut(net, name) ==> Target(net, name, ix) == |net.filtras|
  {
    ResolveIsFirst(net.filtras, name);
  }

  lemma TakenAll(net: Net, ix: nat, tick: nat, j: nat, k: nat)
    requires ix < |net.filtras| && j <= k && RoomFor(net, ix, tick, k)
    requires k == |net.filtras[ix].queues| || !net.env.room(tick, k)
    ensures Taken(net, net.filtras[ix].queues, tick, j) == k
    decreases k - j
  {
    if j < k {
      TakenAll(net, ix, tick, j + 1, k);
    }
  }

  lemma DeliveredIsCopies(net: Net, ix: nat, k: nat, after: Payload)
    requires ix < |net.filtras| && k <= |net.filtras[ix].queues|
    ensures CopiesTo(net.filtras[ix].queues[..k], after) == Delivered(net, ix, k, after)
  {
  }

  lemma PassedTurns(net: Net, ix: nat, payload: Payload, after: Payload, w: World)
    requires IsAt(net, ix, w) && PassesAt(net, ix, payload, w.tick, after)
    requires RoomFor(net, ix, w.tick, |net.filtras[ix].queues|)
    ensures Turn(net, ix, payload, w)
         == Onward(Target(net, net.filtras[ix].hops.passed, ix), after, Behind(net, ix, after, w))
  {
    var k := |net.filtras[ix].queues|;
    TakenAll(net, ix, w.tick, 0, k);
    DeliveredIsCopies(net, ix, k, after);
  }

  /** A passed message, one copy of which every queue of the filtra has taken: without a hop it goes
      on at the next filtra, with a name at the first filtra of that name, and with "out" or an
      unknown name it is sent. */
  lemma PassedGoesOn(net: Net, ix: nat, payload: Payload, after: Payload, w: World)
    requires IsAt(net, ix, w) && PassesAt(net, ix, payload, w.tick, after)
    requires RoomFor(net, ix, w.tick, |net.filtras[ix].queues|)
    ensures var hop, w1 := net.filtras[ix].hops.passed, Behind(net, ix, after, w);
            && (hop == "" ==> Walk(net, ix, payload, w) == Walk(net, ix + 1, after, w1))
            && (forall n: nat :: hop != "" && hop != "out" && IsFirstNamed(net, hop, n) ==>
                  Walk(net, ix, payload, w) == Walk(net, n, after, w1))
            && (hop != "" && LeadsOut(net, hop) ==>
                  Walk(net, ix, payload, w) == Done(w1.(sent := w.sent + [after])))
  {
    PassedTurns(net, ix, payload, after, w);
    if net.filtras[ix].hops.passed != "" {
      NameLeads(net, net.filtras[ix].hops.passed, ix);
    }
  }

  /** A rejected message leaves no copy: without a hop it is dropped, with a name it goes on, rewritten,
      at the first filtra of that name, and with "out" or an unknown name it is sent. */
  lemma RejectedGoesOn(net: Net, ix: nat, payload: Payload, after: Payload, w: World)
    requires IsAt(net, ix, w) && RejectsAt(net, ix, payload, w.tick, after)
    ensures var hop, w1 := net.filtras[ix].hops.rejected, w.(tick := w.tick + 1);
            && (hop == "" ==> Walk(net, ix, payload, w) == Done(w1))
            && (forall n: nat :: hop != "" && hop != "out" && IsFirstNamed(net, hop, n) ==>
                  Walk(net, ix, payload, w) == Walk(net, n, after, w1))
            && (hop != "" && LeadsOut(net, hop) ==>
                  Walk(net, ix, payload, w) == Done(w1.(sent := w.sent + [after])))
  {
    if net.filtras[ix].hops.rejected != "" {
      NameLeads(net, net.filtras[ix].hops.rejected, ix);
    }
  }

  /** A filtra that throws ends the processing of the message without an output; only an exception
      other than invalid_argument is recorded. */
  lemma ThrowingEnds(net: Net, ix: nat, payload: Payload, w: World)
    requires IsAt(net, ix, w) && net.filtras[ix].kind.Plain?
    requires var v := net.env.judge(w.tick, ix, payload).0; v == Invalid || v == Error
    ensures Walk(net, ix, payload, w)
         == Done(World(w.tick + 1, w.sent, w.copies, w.ids,
                       w.failed || net.env.judge(w.tick, ix, payload).0 == Error))
  {
  }

  /** The first full queue throws out of `process`: those in front of it have their copy, and the
      message is not sent. */
  lemma FullQueueEscapes(net: Net, ix: nat, payload: Payload, after: Payload, w: World, k: nat)
    requires IsAt(net, ix, w) && PassesAt(net, ix, payload, w.tick, after)
    requires RoomFor(net, ix, w.tick, k) && k < |net.filtras[ix].queues| && !net.env.room(w.tick, k)
    ensures Walk(net, ix, payload, w)
         == Escaped(World(w.tick + 1, w.sent, w.copies + Delivered(net, ix, k, after), w.ids, w.failed))
  {
    TakenAll(net, ix, w.tick, 0, k);
    DeliveredIsCopies(net, ix, k, after);
  }

  lemma OversizedTurns(net: Net, ix: nat, payload: Payload, w: World, size: nat, id: nat)
    requires IsAt(net, ix, w) && net.filtras[ix].kind == Splitting(size) && |payload| > size
    requires id == NextId(w.ids[ix])
    ensures var w1 := w.(tick := w.tick + 1, ids := w.ids[ix := id]);
            Walk(net, ix, payload, w)
            == Fan(net, Target(net, net.filtras[ix].hops.passed, ix), ChunksOf(id, payload, size), w1)
  {
  }

  /** A message that does not fit into one chunk: its chunks, under the next 64-bit id, start behind
      the splitter, or where its passed hop leads, and the message itself goes no further. */
  lemma OversizedFansOut(net: Net, ix: nat, payload: Payload, w: World, size: nat, id: nat)
    requires IsAt(net, ix, w) && net.filtras[ix].kind == Splitting(size) && |payload| > size
    requires w.ids[ix] < 0xFFFF_FFFF_FFFF_FFFF ==> id == w.ids[ix] + 1
    requires w.ids[ix] == 0xFFFF_FFFF_FFFF_FFFF ==> id == 0
    requires w.ids[ix] <= 0xFFFF_FFFF_FFFF_FFFF
    ensures var hop, w1 := net.filtras[ix].hops.passed, w.(tick := w.tick + 1, ids := w.ids[ix := id]);
            var chunks := ChunksOf(id, payload, size);
            && (hop == "" ==> Walk(net, ix, payload, w) == Fan(net, ix + 1, chunks, w1))
            && (forall n: nat :: hop != "" && hop != "out" && IsFirstNamed(net, hop, n) ==>
                  Walk(net, ix, payload, w) == Fan(net, n, chunks, w1))
            && (hop != "" && LeadsOut(net, hop) ==>
                  Walk(net, ix, payload, w) == Fan(net, |net.filtras|, chunks, w1))
  {
    OversizedTurns(net, ix, payload, w, size, id);
    if net.filtras[ix].hops.passed != "" {
      NameLeads(net, net.filtras[ix].hops.passed, ix);
    }
  }

  /** `goto_passed` and `goto_rejected` are the hops; where one is not set `goto` is, and where that is
      not set either the hop is empty. */
  lemma HopsAreTheSettings(goto: Setting, gotoPassed: Setting, gotoRejected: Setting)
    ensures var hops := HopsOf(goto, gotoPassed, gotoRejected);
            && (forall name :: gotoPassed == Given(name) ==> hops.passed == name)
            && (forall name :: gotoPassed == Absent && goto == Given(name) ==> hops.passed == name)
            && (gotoPassed == Absent && goto == Absent ==> hops.passed == "")
            && (forall name :: gotoRejected == Given(name) ==> hops.rejected == name)
            && (forall name :: gotoRejected == Absent && goto == Given(name) ==> hops.rejected == name)
            && (gotoRejected == Absent && goto == Absent ==> hops.rejected == "")
  {
  }

  // --------------------------------------------------------------------------------------------
  // Pipelines without gotos
  // --------------------------------------------------------------------------------------------

  /** Filtra `i` has no passed hop, and makes `payloads[i + 1]` of `payloads[i]`, when it gets it as the
      `i`-th from `tick` on; the pipeline is active then and its queues have room. */
  predicate PassesStraight(net: Net, payloads: seq<Payload>, tick: nat, i: nat)
    requires |payloads| == |net.filtras| + 1 && i < |net.filtras|
  {
    && net.filtras[i].hops.passed == "" && net.env.active(tick + i)
    && PassesAt(net, i, payloads[i], tick + i, payloads[i + 1])
    && RoomFor(net, i, tick + i, |net.filtras[i].queues|)
  }

  predicate AllPass(net: Net, payloads: seq<Payload>, tick: nat) {
    && |payloads| == |net.filtras| + 1
    && forall i :: 0 <= i < |net.filtras| ==> PassesStraight(net, payloads, tick, i)
  }

  /** One copy for each queue of each filtra from `ix` on. */
  function CopiesBehind(net: Net, ix: nat, payloads: seq<Payload>): seq<Copy>
    requires |payloads| == |net.filtras| + 1 && ix <= |net.filtras|
    decreases |net.filtras| - ix
  {
    if ix == |net.filtras| then []
    else Delivered(net, ix, |net.filtras[ix].queues|, payloads[ix + 1]) + CopiesBehind(net, ix + 1, payloads)
  }

  lemma StraightStep(net: Net, ix: nat, payloads: seq<Payload>, tick: nat, w: World)
    requires Terminating(net) && |w.ids| == |net.filtras| == |payloads| - 1 && ix < |net.filtras|
    requires PassesStraight(net, payloads, tick, ix) && w.tick == tick + ix
    ensures Walk(net, ix, payloads[ix], w) == Walk(net, ix + 1, payloads[ix + 1], Behind(net, ix, payloads[ix + 1], w))
  {
    PassedGoesOn(net, ix, payloads[ix], payloads[ix + 1], w);
  }

  lemma StraightEnd(net: Net, payload: Payload, w: World)
    requires Terminating(net) && |w.ids| == |net.filtras|
    ensures Walk(net, |net.filtras|, payload, w) == Done(w.(sent := w.sent + [payload]))
  {
  }

  lemma {:induction false} StraightFrom(net: Net, ix: nat, payloads: seq<Payload>, tick: nat, w: World)
    requires Terminating(net) && |w.ids| == |net.filtras| && AllPass(net, payloads, tick)
    requires ix <= |net.filtras| && w.tick == tick + ix
    ensures Walk(net, ix, payloads[ix], w)
         == Done(World(tick + |net.filtras|, w.sent + [payloads[|net.filtras|]],
                       w.copies + CopiesBehind(net, ix, payloads), w.ids, w.failed))
    decreases |net.filtras| - ix
  {
    if ix < |net.filtras| {
      var w1 := Behind(net, ix, payloads[ix + 1], w);
      StraightStep(net, ix, payloads, tick, w);
      StraightFrom(net, ix + 1, payloads, tick, w1);
      Assoc(w.copies, Delivered(net, ix, |net.filtras[ix].queues|, payloads[ix + 1]),
            CopiesBehind(net, ix + 1, payloads));
    } else {
      StraightEnd(net, payloads[ix], w);
      assert w.copies + [] == w.copies;
    }
  }

  lemma StraightHop(net: Net, ix: nat, payloads: seq<Payload>, tick: nat)
    requires |payloads| == |net.filtras| + 1 && ix < |net.filtras| && PassesStraight(net, payloads, tick, ix)
    ensures Leads(net, Walker(ix, tick + ix, payloads[ix]), Walker(ix + 1, tick + ix + 1, payloads[ix + 1]))
  {
    TakenAll(net, ix, tick + ix, 0, |net.filtras[ix].queues|);
  }

  /** The path from filtra `ix` to behind the last. */
  lemma {:induction false} StraightPath(net: Net, ix: nat, payloads: seq<Payload>, tick: nat) returns (path: seq<Walker>)
    requires AllPass(net, payloads, tick) && ix <= |net.filtras|
    ensures IsPath(net, path) && |path| == |net.filtras| - ix + 1
    ensures forall i :: 0 <= i < |path| ==> path[i] == Walker(ix + i, tick + ix + i, payloads[ix + i])
    decreases |net.filtras| - ix
  {
    var here := Walker(ix, tick + ix, payloads[ix]);
    if ix == |net.filtras| {
      path := [here];
    } else {
      var rest := StraightPath(net, ix + 1, payloads, tick);
      StraightHop(net, ix, payloads, tick);
      path := [here] + rest;
      assert path[1..] == rest;
    }
  }

  /** In a pipeline without gotos a message that every filtra passes visits the filtras 0, 1, .., n - 1,
      each once and each with what the one in front of it made of the message, and is sent once. */
  lemma StraightThrough(net: Net, payloads: seq<Payload>, w: World) returns (path: seq<Walker>)
    requires Terminating(net) && |w.ids| == |net.filtras| && AllPass(net, payloads, w.tick)
    ensures Walk(net, 0, payloads[0], w)
         == Done(World(w.tick + |net.filtras|, w.sent + [payloads[|net.filtras|]],
                       w.copies + CopiesBehind(net, 0, payloads), w.ids, w.failed))
    ensures IsCompletePath(net, Walker(0, w.tick, payloads[0]), path) && |path| == |net.filtras| + 1
    ensures forall i :: 0 <= i < |path| ==> path[i] == Walker(i, w.tick + i, payloads[i])
  {
    StraightFrom(net, 0, payloads, w.tick, w);
    path := StraightPath(net, 0, payloads, w.tick);
  }
}
