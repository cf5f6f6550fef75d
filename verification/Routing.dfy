/** `Pipeline::process`: one message walks over the filtras, hop by hop; a splitter fans it out and
    every chunk is processed recursively while the splitter is still generating.

    Filtras other than splitters are abstract: `Env.judge` gives, for each visit, any verdict and
    any rewritten payload, so a filtra may keep state between visits.  Visits are numbered by
    `tick`; the pipeline may become inactive, and a destination queue may be full, at any tick. */
module Routing {
  import opened Sequences
  import opened Splitters

  datatype Verdict =
    | Pass
    | Reject
    | Keep     // neither pass() nor reject() is called
    | Invalid  // std::invalid_argument
    | Error    // any other std::exception

  datatype Kind = Plain | Splitting(chunkSize: nat)

  /** The next filtra by name; the empty name means "the one behind". */
  datatype Hops = Hops(passed: string, rejected: string)

  datatype Filtra = Filtra(name: string, hops: Hops, queues: seq<string>, kind: Kind)

  datatype Setting = Absent | Given(value: string) {
    function Or(default: string): string {
      if Given? then value else default
    }
  }

  /** `goto` is the default of both hops. */
  function HopsOf(goto: Setting, gotoPassed: Setting, gotoRejected: Setting): Hops {
    var hop := goto.Or("");
    Hops(gotoPassed.Or(hop), gotoRejected.Or(hop))
  }

  datatype Env = Env(
    judge: (nat, nat, Payload) -> (Verdict, Payload),
    active: nat -> bool,
    room: (nat, nat) -> bool,
    encode: Chunk -> Payload)

  datatype Copy = Copy(queue: string, payload: Payload)

  // --------------------------------------------------------------------------------------------
  // Names
  // --------------------------------------------------------------------------------------------

  function ResolveFrom(filtras: seq<Filtra>, name: string, i: nat): (ix: nat)
    requires i <= |filtras|
    ensures ix <= |filtras|
    decreases |filtras| - i
  {
    if i == |filtras| || filtras[i].name == name then i else ResolveFrom(filtras, name, i + 1)
  }

  /** The index a hop name leads to: "out" and unknown names lead behind the last filtra. */
  function Resolve(filtras: seq<Filtra>, name: string): (ix: nat)
    ensures ix <= |filtras|
  {
    if name == "out" then |filtras| else ResolveFrom(filtras, name, 0)
  }

  lemma {:induction false} ResolveFromIsFirst(filtras: seq<Filtra>, name: string, i: nat)
    requires i <= |filtras|
    ensures var ix := ResolveFrom(filtras, name, i);
            && i <= ix
            && (ix < |filtras| ==> filtras[ix].name == name)
            && forall j :: i <= j < ix ==> filtras[j].name != name
    decreases |filtras| - i
  {
    if i < |filtras| && filtras[i].name != name {
      ResolveFromIsFirst(filtras, name, i + 1);
    }
  }

  /** A name resolves to an index inside the pipeline exactly when it is not "out" and some filtra
      has it; then it is the first such filtra. */
  lemma ResolveIsFirst(filtras: seq<Filtra>, name: string)
    ensures var ix := Resolve(filtras, name);
            && (ix < |filtras| <==> name != "out" && exists j :: 0 <= j < |filtras| && filtras[j].name == name)
            && (ix < |filtras| ==> filtras[ix].name == name)
            && (ix < |filtras| ==> forall j :: 0 <= j < ix ==> filtras[j].name != name)
  {
    ResolveFromIsFirst(filtras, name, 0);
  }

  // --------------------------------------------------------------------------------------------
  // What processing one message does
  // --------------------------------------------------------------------------------------------

  /** `horizon` only matters for pipelines with backward hops, see `Terminating`. */
  datatype Net = Net(filtras: seq<Filtra>, env: Env, horizon: nat)

  function Target(net: Net, hop: string, ix: nat): nat
    requires ix < |net.filtras|
  {
    if hop != "" then Resolve(net.filtras, hop) else ix + 1
  }

  predicate Forward(net: Net) {
    forall ix :: 0 <= ix < |net.filtras| ==>
      && Target(net, net.filtras[ix].hops.passed, ix) > ix
      && Target(net, net.filtras[ix].hops.rejected, ix) > ix
  }

  predicate HasSplitters(net: Net) {
    exists ix :: 0 <= ix < |net.filtras| && net.filtras[ix].kind.Splitting?
  }

  /** No hop from a filtra at or behind a splitter leads back to the splitter or in front of it.
      Generation would otherwise come to use a splitter that is still generating. */
  predicate SplittersAreOneWay(net: Net) {
    forall s, f :: 0 <= s <= f < |net.filtras| && net.filtras[s].kind.Splitting? ==>
      && Target(net, net.filtras[f].hops.passed, f) > s
      && Target(net, net.filtras[f].hops.rejected, f) > s
  }

  predicate ChunksArePositive(net: Net) {
    forall ix :: 0 <= ix < |net.filtras| && net.filtras[ix].kind.Splitting? ==>
      net.filtras[ix].kind.chunkSize > 0
  }

  ghost predicate StopsBy(net: Net) {
    forall t: nat :: t >= net.horizon ==> !net.env.active(t)
  }

  /** Either every hop leads forward, or the pipeline is stopped at some time: a backward hop is a
      loop that only a stop is sure to leave. */
  ghost predicate Terminating(net: Net) {
    ChunksArePositive(net) && SplittersAreOneWay(net) && (Forward(net) || StopsBy(net))
  }

  ghost function Measure(net: Net, ix: nat, tick: nat): nat {
    if Forward(net) then (if ix < |net.filtras| then |net.filtras| - ix else 0)
    else if tick < net.horizon then net.horizon - tick else 0
  }

  datatype World = World(
    tick: nat,
    sent: seq<Payload>,
    copies: seq<Copy>,
    ids: seq<nat>,
    failed: bool)

  datatype Outcome = Done(world: World) | Escaped(world: World)

  /** How many of the queues, from the first on, take the copy before one is full. */
  function Taken(net: Net, queues: seq<string>, tick: nat, j: nat): (k: nat)
    requires j <= |queues|
    ensures j <= k <= |queues|
    decreases |queues| - j
  {
    if j < |queues| && net.env.room(tick, j) then Taken(net, queues, tick, j + 1) else j
  }

  function CopiesTo(queues: seq<string>, payload: Payload): (r: seq<Copy>)
    ensures |r| == |queues|
    ensures forall i :: 0 <= i < |queues| ==> r[i] == Copy(queues[i], payload)
  {
    seq(|queues|, i requires 0 <= i < |queues| => Copy(queues[i], payload))
  }

  /** A splitter lets a small message through unchanged; any other filtra judges it. */
  function Judged(net: Net, ix: nat, payload: Payload, tick: nat): (Verdict, Payload)
    requires ix < |net.filtras|
  {
    if net.filtras[ix].kind.Splitting? then (Pass, payload) else net.env.judge(tick, ix, payload)
  }

  predicate Oversized(net: Net, ix: nat, payload: Payload)
    requires ix < |net.filtras|
  {
    net.filtras[ix].kind.Splitting? && |payload| > net.filtras[ix].kind.chunkSize
  }

  predicate NotBefore(w: World, later: World) {
    |later.ids| == |w.ids| && later.tick >= w.tick && |later.sent| >= |w.sent|
  }

  /** The filtra lets the message flow on, because the message is passed at every loop head. */
  predicate Lets(verdict: Verdict) {
    verdict == Pass || verdict == Keep
  }

  predicate IsHop(net: Net, ix: nat, next: nat)
    requires ix < |net.filtras|
  {
    || next == Target(net, net.filtras[ix].hops.passed, ix)
    || next == Target(net, net.filtras[ix].hops.rejected, ix)
  }

  /** What one turn of the loop leads to. */
  datatype Turned =
    | Onward(next: nat, after: Payload, world: World)
    | FansOut(next: nat, chunks: seq<Chunk>, world: World)
    | Ended(world: World)
    | Blocked(world: World)

  /** The filtra at `ix` takes the message. */
  function Turn(net: Net, ix: nat, payload: Payload, w: World): (t: Turned)
    requires ix < |net.filtras| == |w.ids| && ChunksArePositive(net)
    ensures t.world.tick == w.tick + 1 && t.world.sent == w.sent && |t.world.ids| == |w.ids|
    ensures t.Onward? || t.FansOut? ==> IsHop(net, ix, t.next)
  {
    var f := net.filtras[ix];
    var w1 := w.(tick := w.tick + 1);
    if Oversized(net, ix, payload) then
      var id := NextId(w.ids[ix]);
      FansOut(Target(net, f.hops.passed, ix), ChunksOf(id, payload, f.kind.chunkSize),
              w1.(ids := w.ids[ix := id]))
    else
      var (verdict, after) := Judged(net, ix, payload, w.tick);
      if Lets(verdict) then
        var k := Taken(net, f.queues, w.tick, 0);
        var w2 := w1.(copies := w.copies + CopiesTo(f.queues[..k], after));
        if k < |f.queues| then Blocked(w2) else Onward(Target(net, f.hops.passed, ix), after, w2)
      else if verdict == Reject && f.hops.rejected != "" then
        Onward(Target(net, f.hops.rejected, ix), after, w1)
      else
        Ended(w1.(failed := w.failed || verdict == Error))
  }

  ghost function Walk(net: Net, ix: nat, payload: Payload, w: World): (o: Outcome)
    requires Terminating(net) && |w.ids| == |net.filtras|
    ensures NotBefore(w, o.world)
    ensures o.world.tick > w.tick || |o.world.sent| > |w.sent|
    decreases Measure(net, ix, w.tick), 0
  {
    if ix >= |net.filtras| || !net.env.active(w.tick) then
      Done(w.(sent := w.sent + [payload]))
    else
      match Turn(net, ix, payload, w)
      case Onward(next, after, w1) => Walk(net, next, after, w1)
      case FansOut(next, chunks, w1) => Fan(net, next, chunks, w1)
      case Ended(w1) => Done(w1)
      case Blocked(w1) => Escaped(w1)
  }

  /** The generation loop of a splitter: every chunk is processed before the next is generated. */
  ghost function Fan(net: Net, ix: nat, chunks: seq<Chunk>, w: World): (o: Outcome)
    requires Terminating(net) && |w.ids| == |net.filtras|
    ensures NotBefore(w, o.world)
    decreases Measure(net, ix, w.tick), |chunks| + 1
  {
    if chunks == [] then Done(w)
    else
      var first := Walk(net, ix, net.env.encode(chunks[0]), w);
      if first.Escaped? then first else Fan(net, ix, chunks[1..], first.world)
  }

  /** A rejected message is dropped, with nothing else happening, exactly when neither the rejected
      hop nor `goto` gives a name.  Otherwise it goes on where that name leads, "out" and unknown
      names to behind the last filtra, so `goto` alone sends it where a passed message goes. */
  lemma RejectedIsDroppedIff(net: Net, ix: nat, goto: Setting, gotoPassed: Setting, gotoRejected: Setting,
                             payload: Payload, w: World)
    requires Terminating(net) && |w.ids| == |net.filtras| && ix < |net.filtras|
    requires net.filtras[ix].hops == HopsOf(goto, gotoPassed, gotoRejected)
    requires net.env.active(w.tick) && !Oversized(net, ix, payload)
    requires Judged(net, ix, payload, w.tick).0 == Reject
    ensures var w1 := w.(tick := w.tick + 1);
            var hop := gotoRejected.Or(goto.Or(""));
            && (Walk(net, ix, payload, w) == Done(w1) <==> hop == "")
            && (hop != "" ==>
                  Walk(net, ix, payload, w)
                  == Walk(net, Resolve(net.filtras, hop), Judged(net, ix, payload, w.tick).1, w1))
  {
    var w1 := w.(tick := w.tick + 1);
    var hop := gotoRejected.Or(goto.Or(""));
    if hop != "" {
      var o := Walk(net, Resolve(net.filtras, hop), Judged(net, ix, payload, w.tick).1, w1);
      assert o.world.tick > w1.tick || |o.world.sent| > |w1.sent|;
    }
  }

  // --------------------------------------------------------------------------------------------
  // The pipeline object
  // --------------------------------------------------------------------------------------------

  /** `Break` leaves the loop, `Return` leaves `process`. */
  datatype Step = GoOn(next: nat, after: Payload) | Break | Return | Throw | Generates

  datatype Answer = Self | Judgement(verdict: Verdict, after: Payload)

  class Pipeline {
    const filtras: seq<Filtra>
    const env: Env
    ghost const horizon: nat
    const splitters: seq<Splitter?>
    var tick: nat
    var sQueue: seq<Payload>
    var copies: seq<Copy>
    var failed: bool

    ghost function Network(): Net {
      Net(filtras, env, horizon)
    }

    ghost function Splitters(): set<Splitter> {
      set i | 0 <= i < |splitters| && splitters[i] != null :: splitters[i]
    }

    ghost predicate Valid()
      reads Splitters()
    {
      && |splitters| == |filtras|
      && (forall i :: 0 <= i < |filtras| ==> (splitters[i] != null <==> filtras[i].kind.Splitting?))
      && (forall i :: 0 <= i < |filtras| && splitters[i] != null ==>
            splitters[i].Valid() && splitters[i].chunkSize == filtras[i].kind.chunkSize)
      && (forall i, j :: 0 <= i < j < |filtras| && splitters[i] != null ==> splitters[i] != splitters[j])
    }

    ghost function Ids(): (ids: seq<nat>)
      reads Splitters()
      ensures |ids| == |splitters|
    {
      seq(|splitters|, i requires 0 <= i < |splitters| reads Splitters() =>
        if splitters[i] == null then 0 else splitters[i].messageId)
    }

    ghost function State(): World
      reads this, Splitters()
    {
      World(tick, sQueue, copies, Ids(), failed)
    }

    method FindFiltraIndex(name: string) returns (r: nat)
      ensures r == Resolve(filtras, name)
    {
      if name == "out" {
        return |filtras|;
      }
      var ix := 0;
      while ix < |filtras|
        invariant ix <= |filtras|
        invariant ResolveFrom(filtras, name, ix) == ResolveFrom(filtras, name, 0)
      {
        if filtras[ix].name == name {
          return ix;
        }
        ix := ix + 1;
      }
      return |filtras|;
    }

    method NextIndex(hop: string, ix: nat) returns (r: nat)
      requires ix < |filtras|
      ensures r == Target(Network(), hop, ix)
    {
      if hop != "" {
        r := FindFiltraIndex(hop);
      } else {
        r := ix + 1;
      }
    }

    /** One call of a filtra's `process`. */
    method RunFiltra(ix: nat, payload: Payload) returns (a: Answer)
      requires Valid() && ChunksArePositive(Network()) && ix < |filtras|
      modifies this`tick, Splitters()
      ensures Valid() && tick == old(tick) + 1
      ensures forall j :: 0 <= j < |splitters| && j != ix && splitters[j] != null ==> unchanged(splitters[j])
      ensures a.Self? <==> Oversized(Network(), ix, payload)
      ensures !a.Self? ==> Ids() == old(Ids()) && (a.verdict, a.after) == Judged(Network(), ix, payload, old(tick))
      ensures a.Self? ==>
        && Ids() == old(Ids())[ix := NextId(old(Ids())[ix])]
        && splitters[ix].Pending() == ChunksOf(Ids()[ix], payload, filtras[ix].kind.chunkSize)
    {
      var t := tick;
      tick := tick + 1;
      var splitter := splitters[ix];
      if splitter != null {
        var self := splitter.ProcessMessage(payload);
        a := if self then Self else Judgement(Pass, payload);
      } else {
        var (verdict, after) := env.judge(t, ix, payload);
        a := Judgement(verdict, after);
      }
    }

    /** Copies the message to the queues one by one; a full queue throws. */
    method Redirect(queues: seq<string>, payload: Payload, t: nat) returns (ok: bool)
      modifies this`copies
      ensures var k := Taken(Network(), queues, t, 0);
              copies == old(copies) + CopiesTo(queues[..k], payload) && ok == (k == |queues|)
    {
      var j := 0;
      while j < |queues|
        invariant j <= |queues|
        invariant Taken(Network(), queues, t, j) == Taken(Network(), queues, t, 0)
        invariant copies == old(copies) + CopiesTo(queues[..j], payload)
      {
        if !env.room(t, j) {
          return false;
        }
        copies := copies + [Copy(queues[j], payload)];
        j := j + 1;
      }
      ok := true;
    }

    method PassOn(ix: nat, after: Payload, t: nat) returns (step: Step)
      requires ix < |filtras|
      modifies this`copies
      ensures var queues := filtras[ix].queues;
              var k := Taken(Network(), queues, t, 0);
              && copies == old(copies) + CopiesTo(queues[..k], after)
              && step == if k < |queues| then Throw else GoOn(Target(Network(), filtras[ix].hops.passed, ix), after)
    {
      var next := NextIndex(filtras[ix].hops.passed, ix);
      var ok := Redirect(filtras[ix].queues, after, t);
      step := if ok then GoOn(next, after) else Throw;
    }

    /** What follows the call of a filtra other than one that answers "self".  `passed` is the flag
        of the wrapper, which a filtra may leave as it is. */
    method Decide(ix: nat, verdict: Verdict, after: Payload, t: nat, passed: bool) returns (step: Step, flag: bool)
      requires ix < |filtras| && passed
      modifies this`copies, this`failed
      ensures var f := filtras[ix];
              if Lets(verdict) then
                var k := Taken(Network(), f.queues, t, 0);
                && flag && failed == old(failed)
                && copies == old(copies) + CopiesTo(f.queues[..k], after)
                && step == if k < |f.queues| then Throw else GoOn(Target(Network(), f.hops.passed, ix), after)
              else if verdict == Reject && f.hops.rejected != "" then
                && flag && failed == old(failed) && copies == old(copies)
                && step == GoOn(Target(Network(), f.hops.rejected, ix), after)
              else
                && copies == old(copies) && failed == (old(failed) || verdict == Error)
                && (if verdict == Error then step == Return else step == Break && !flag)
    {
      flag := passed;
      match verdict {
        case Error =>
          failed := true;
          step := Return;
          return;
        case Invalid =>
          step, flag := Break, false;
          return;
        case Pass => flag := true;
        case Reject => flag := false;
        case Keep =>
      }
      if flag {
        step := PassOn(ix, after, t);
      } else if filtras[ix].hops.rejected != "" {
        var next := NextIndex(filtras[ix].hops.rejected, ix);
        step, flag := GoOn(next, after), true;
      } else {
        step := Break;
      }
    }

    /** The body of the loop of `process`: one filtra runs, and its answer and hops decide. */
    method Visit(ix: nat, payload: Payload, passed: bool) returns (step: Step, flag: bool)
      requires Valid() && ChunksArePositive(Network()) && ix < |filtras|
      requires passed
      modifies this`tick, this`copies, this`failed, Splitters()
      ensures Valid()
      ensures forall j :: 0 <= j < |splitters| && j != ix && splitters[j] != null ==> unchanged(splitters[j])
      ensures step.GoOn? ==> flag
      ensures step.Break? ==> !flag
      ensures var turned := Turn(Network(), ix, payload, old(State()));
              match step
              case GoOn(next, after) => turned == Onward(next, after, State())
              case Break => turned == Ended(State())
              case Return => turned == Ended(State())
              case Throw => turned == Blocked(State())
              case Generates =>
                && splitters[ix] != null
                && turned == FansOut(Target(Network(), filtras[ix].hops.passed, ix),
                                     splitters[ix].Pending(), State())
    {
      var t := tick;
      var answer := RunFiltra(ix, payload);
      if answer.Self? {
        return Generates, passed;
      }
      step, flag := Decide(ix, answer.verdict, answer.after, t, passed);
    }

    /** A hop stays behind every splitter that the message has come to, and brings the end nearer. */
    lemma HopsLeadOn(ix: nat, t: nat, next: nat)
      requires Valid() && Terminating(Network()) && ix < |filtras| && IsHop(Network(), ix, next)
      requires env.active(t)
      ensures forall j :: 0 <= j <= ix && splitters[j] != null ==> j < next
      ensures Measure(Network(), next, t + 1) < Measure(Network(), ix, t)
    {
    }

    /** `escaped` is an exception that leaves `process`. */
    method Process(msg: Payload, start: nat) returns (escaped: bool)
      requires Valid() && Terminating(Network())
      modifies this`tick, this`sQueue, this`copies, this`failed, Splitters()
      ensures Valid()
      ensures (if escaped then Escaped(State()) else Done(State()))
           == Walk(Network(), start, msg, old(State()))
      ensures forall j :: 0 <= j < |splitters| && j < start && splitters[j] != null ==> unchanged(splitters[j])
      decreases Measure(Network(), start, tick), 1
    {
      var ix: nat, payload, passed := start, msg, true;
      ghost var goal := Walk(Network(), start, msg, State());
      while ix < |filtras| && env.active(tick)
        invariant Valid()
        invariant passed
        invariant Walk(Network(), ix, payload, State()) == goal
        invariant Measure(Network(), ix, tick) <= Measure(Network(), start, old(tick))
        invariant forall j :: 0 <= j < |splitters| && j < start && splitters[j] != null ==> j < ix
        invariant forall j :: 0 <= j < |splitters| && j < start && splitters[j] != null ==> unchanged(splitters[j])
        decreases Measure(Network(), ix, tick)
      {
        ghost var t := tick;
        var step;
        step, passed := Visit(ix, payload, passed);
        if step.GoOn? {
          HopsLeadOn(ix, t, step.next);
          ix, payload := step.next, step.after;
        } else if step.Break? {
          break;
        } else {
          HopsLeadOn(ix, t, Target(Network(), filtras[ix].hops.passed, ix));
          escaped := Leave(ix, step);
          return;
        }
      }
      if passed {
        sQueue := sQueue + [payload];
      }
      escaped := false;
    }

    /** What the turn at `ix` leaves to be done when the loop does not go on. */
    ghost function Rest(ix: nat, step: Step): Outcome
      requires Valid() && Terminating(Network()) && ix < |filtras|
      requires step.Generates? ==> splitters[ix] != null
      reads this, Splitters()
    {
      match step
      case Throw => Escaped(State())
      case Generates =>
        Fan(Network(), Target(Network(), filtras[ix].hops.passed, ix), splitters[ix].Pending(), State())
      case _ => Done(State())
    }

    /** The ways to leave `process` from inside the loop. */
    method Leave(ix: nat, step: Step) returns (escaped: bool)
      requires Valid() && Terminating(Network()) && ix < |filtras|
      requires step.Return? || step.Throw? || (step.Generates? && splitters[ix] != null)
      modifies this`tick, this`sQueue, this`copies, this`failed, Splitters()
      ensures Valid()
      ensures (if escaped then Escaped(State()) else Done(State())) == old(Rest(ix, step))
      ensures forall j :: 0 <= j < |splitters| && j < ix && splitters[j] != null ==> unchanged(splitters[j])
      decreases Measure(Network(), Target(Network(), filtras[ix].hops.passed, ix), tick), 3
    {
      if step.Return? {
        return false;
      }
      if step.Throw? {
        return true;
      }
      var next := NextIndex(filtras[ix].hops.passed, ix);
      escaped := Generate(ix, next);
    }

    method NextChunk(ix: nat) returns (r: Generated)
      requires Valid() && ix < |filtras| && splitters[ix] != null && splitters[ix].chunkSize > 0
      modifies splitters[ix]
      ensures Valid() && State() == old(State())
      ensures r.Nothing? <==> old(splitters[ix].Pending()) == []
      ensures r.Generated? ==> old(splitters[ix].Pending()) == [r.chunk] + splitters[ix].Pending()
    {
      r := splitters[ix].GenerateMessage();
      assert Ids() == old(Ids());
    }

    /** The loop over the messages a splitter generates.  The recursive calls start behind the
        splitter, so they leave its counter and its stored message alone. */
    method Generate(ix: nat, next: nat) returns (escaped: bool)
      requires Valid() && Terminating(Network())
      requires ix < |filtras| && splitters[ix] != null && ix < next
      modifies this`tick, this`sQueue, this`copies, this`failed, Splitters()
      ensures Valid()
      ensures (if escaped then Escaped(State()) else Done(State()))
           == Fan(Network(), next, old(splitters[ix].Pending()), old(State()))
      ensures forall j :: 0 <= j < |splitters| && j < ix && splitters[j] != null ==> unchanged(splitters[j])
      decreases Measure(Network(), next, tick), 2
    {
      ghost var goal := Fan(Network(), next, splitters[ix].Pending(), State());
      var message := NextChunk(ix);
      while message.Generated?
        invariant Valid() && tick >= old(tick)
        invariant message.Generated? ==>
          Fan(Network(), next, [message.chunk] + splitters[ix].Pending(), State()) == goal
        invariant message.Nothing? ==> goal == Done(State())
        invariant forall j :: 0 <= j < |splitters| && j < ix && splitters[j] != null ==> unchanged(splitters[j])
        decreases if message.Nothing? then 0 else |splitters[ix].Pending()| + 1
      {
        ghost var rest := splitters[ix].Pending();
        assert ([message.chunk] + rest)[1..] == rest;
        escaped := Process(env.encode(message.chunk), next);
        assert splitters[ix].Pending() == rest;
        if escaped {
          return;
        }
        message := NextChunk(ix);
      }
      escaped := false;
    }
  }

  // --------------------------------------------------------------------------------------------
  // Walks
  // --------------------------------------------------------------------------------------------

  /** A message at the head of the loop. */
  datatype Walker = Walker(ix: nat, tick: nat, payload: Payload)

  /** One hop: the filtra at `a` passes the message and no destination queue is full, or it rejects
      the message and has a rejected hop. */
  predicate Leads(net: Net, a: Walker, b: Walker) {
    && a.ix < |net.filtras| && net.env.active(a.tick) && b.tick == a.tick + 1
    && !Oversized(net, a.ix, a.payload)
    && var f := net.filtras[a.ix];
       var (verdict, after) := Judged(net, a.ix, a.payload, a.tick);
       && b.payload == after
       && (|| (Lets(verdict) && Taken(net, f.queues, a.tick, 0) == |f.queues|
               && b.ix == Target(net, f.hops.passed, a.ix))
           || (verdict == Reject && f.hops.rejected != ""
               && b.ix == Target(net, f.hops.rejected, a.ix)))
  }

  predicate IsPath(net: Net, path: seq<Walker>) {
    path != [] && (|path| > 1 ==> Leads(net, path[0], path[1]) && IsPath(net, path[1..]))
  }

  /** The loop condition fails: behind the last filtra, or no longer active. */
  predicate AtEnd(net: Net, a: Walker) {
    a.ix >= |net.filtras| || !net.env.active(a.tick)
  }

  predicate IsCompletePath(net: Net, start: Walker, path: seq<Walker>) {
    IsPath(net, path) && path[0] == start && AtEnd(net, path[|path| - 1])
  }

  /** One copy for each queue of a filtra that passes the message at `a`. */
  function HopCopies(net: Net, a: Walker): seq<Copy>
    requires a.ix < |net.filtras|
  {
    var (verdict, after) := Judged(net, a.ix, a.payload, a.tick);
    if Lets(verdict) then CopiesTo(net.filtras[a.ix].queues, after) else []
  }

  function CopiesOn(net: Net, path: seq<Walker>): seq<Copy>
    requires IsPath(net, path)
    decreases |path|
  {
    if |path| == 1 then [] else HopCopies(net, path[0]) + CopiesOn(net, path[1..])
  }

  lemma HopWalks(net: Net, w: World, a: Walker, b: Walker)
    requires Terminating(net) && |w.ids| == |net.filtras|
    requires Leads(net, a, b) && a.tick == w.tick
    ensures Walk(net, a.ix, a.payload, w)
         == Walk(net, b.ix, b.payload,
                 w.(tick := b.tick, copies := w.copies + HopCopies(net, a)))
  {
    var f := net.filtras[a.ix];
    assert f.queues[..|f.queues|] == f.queues;
    assert w.copies + [] == w.copies;
  }

  /** Along any path, wherever it goes on to, each filtra on the way that lets the message through
      gives one copy per visit to each of its queues, and nothing else happens. */
  lemma {:induction false} PathWalks(net: Net, w: World, path: seq<Walker>)
    requires Terminating(net) && |w.ids| == |net.filtras|
    requires IsPath(net, path) && path[0].tick == w.tick
    ensures var last := path[|path| - 1];
            Walk(net, path[0].ix, path[0].payload, w)
            == Walk(net, last.ix, last.payload,
                    w.(tick := last.tick, copies := w.copies + CopiesOn(net, path)))
    decreases |path|
  {
    if |path| == 1 {
      assert w.copies + [] == w.copies;
    } else {
      var rest := path[1..];
      var here, beyond := HopCopies(net, path[0]), CopiesOn(net, rest);
      HopWalks(net, w, path[0], path[1]);
      PathWalks(net, w.(tick := rest[0].tick, copies := w.copies + here), rest);
      assert rest[|rest| - 1] == path[|path| - 1];
      Assoc(w.copies, here, beyond);
    }
  }

  /** The message goes no further: rejected without a hop, or an exception that process handles. */
  predicate Dropped(net: Net, a: Walker) {
    && a.ix < |net.filtras| && net.env.active(a.tick) && !Oversized(net, a.ix, a.payload)
    && var verdict := Judged(net, a.ix, a.payload, a.tick).0;
       !Lets(verdict) && (verdict == Reject ==> net.filtras[a.ix].hops.rejected == "")
  }

  /** A path to where the message leaves `process`. */
  predicate IsTrail(net: Net, path: seq<Walker>) {
    IsPath(net, path) && (AtEnd(net, path[|path| - 1]) || Dropped(net, path[|path| - 1]))
  }

  function EndTick(net: Net, path: seq<Walker>): nat
    requires IsTrail(net, path)
  {
    var last := path[|path| - 1];
    if AtEnd(net, last) then last.tick else last.tick + 1
  }

  function EndPayload(net: Net, path: seq<Walker>): seq<Payload>
    requires IsTrail(net, path)
  {
    if AtEnd(net, path[|path| - 1]) then [path[|path| - 1].payload] else []
  }

  predicate EndsInError(net: Net, path: seq<Walker>)
    requires IsTrail(net, path)
  {
    var last := path[|path| - 1];
    !AtEnd(net, last) && Judged(net, last.ix, last.payload, last.tick).0 == Error
  }

  /** Along a whole trail: the copies of every visit, and one output exactly when the trail comes to
      the end of the loop, also for messages that are dropped after some copies were made. */
  lemma TrailWalks(net: Net, w: World, path: seq<Walker>)
    requires Terminating(net) && |w.ids| == |net.filtras|
    requires IsTrail(net, path) && path[0].tick == w.tick
    ensures Walk(net, path[0].ix, path[0].payload, w)
         == Done(w.(tick := EndTick(net, path),
                    sent := w.sent + EndPayload(net, path),
                    copies := w.copies + CopiesOn(net, path),
                    failed := w.failed || EndsInError(net, path)))
  {
    var last := path[|path| - 1];
    PathWalks(net, w, path);
    assert w.sent + [] == w.sent;
  }

  /** Along any complete path the message enters the send queue, once, with the payload it ends
      with, and every destination on the way gets its copy. */
  lemma CompletePathSends(net: Net, w: World, path: seq<Walker>)
    requires Terminating(net) && |w.ids| == |net.filtras|
    requires IsPath(net, path) && AtEnd(net, path[|path| - 1]) && path[0].tick == w.tick
    ensures Walk(net, path[0].ix, path[0].payload, w)
         == Done(w.(tick := path[|path| - 1].tick,
                    sent := w.sent + [path[|path| - 1].payload],
                    copies := w.copies + CopiesOn(net, path)))
  {
    TrailWalks(net, w, path);
  }

  /** Whatever `process` sends comes from a complete path. */
  lemma {:induction false} SentHasPath(net: Net, start: Walker, w: World) returns (path: seq<Walker>)
    requires Terminating(net) && !HasSplitters(net) && |w.ids| == |net.filtras|
    requires start.tick == w.tick
    ensures var sent := Walk(net, start.ix, start.payload, w).world.sent;
            sent == w.sent || IsCompletePath(net, start, path)
    decreases Measure(net, start.ix, start.tick)
  {
    path := [start];
    if !AtEnd(net, start) {
      var f := net.filtras[start.ix];
      var (verdict, after) := Judged(net, start.ix, start.payload, start.tick);
      var next := Walker(Target(net, if Lets(verdict) then f.hops.passed else f.hops.rejected, start.ix),
                         start.tick + 1, after);
      if Leads(net, start, next) {
        HopWalks(net, w, start, next);
        var w1 := w.(tick := w.tick + 1, copies := w.copies + HopCopies(net, start));
        var rest := SentHasPath(net, next, w1);
        path := [start] + rest;
        assert path[1..] == rest;
      }
    }
  }

  /** Splitter-free routing refines the walk: the message enters the send queue iff its walk ends
      behind the last filtra (or the pipeline stops on the way), and then exactly once. */
  lemma SentIffWalkEnds(net: Net, start: Walker, w: World)
    requires Terminating(net) && !HasSplitters(net) && |w.ids| == |net.filtras|
    requires start.tick == w.tick
    ensures var sent := Walk(net, start.ix, start.payload, w).world.sent;
            && (sent != w.sent <==> exists path: seq<Walker> :: IsCompletePath(net, start, path))
            && (forall path: seq<Walker> :: IsCompletePath(net, start, path) ==>
                  sent == w.sent + [path[|path| - 1].payload])
  {
    forall path: seq<Walker> | IsCompletePath(net, start, path)
      ensures Walk(net, start.ix, start.payload, w).world.sent == w.sent + [path[|path| - 1].payload]
    {
      CompletePathSends(net, w, path);
    }
    var path := SentHasPath(net, start, w);
  }

  // --------------------------------------------------------------------------------------------
  // Splitters in the pipeline
  // --------------------------------------------------------------------------------------------

  /** The walks of the chunks, one after the other, each a trail from `ix` on. */
  predicate AreTrails(net: Net, ix: nat, chunks: seq<Chunk>, tick: nat, trails: seq<seq<Walker>>) {
    if chunks == [] then trails == []
    else
      && trails != [] && IsTrail(net, trails[0])
      && trails[0][0] == Walker(ix, tick, net.env.encode(chunks[0]))
      && AreTrails(net, ix, chunks[1..], EndTick(net, trails[0]), trails[1..])
  }

  /** What the chunks leave behind: clock, outputs and copies, in the order of the chunks. */
  function AfterTrails(net: Net, ix: nat, chunks: seq<Chunk>, w: World, trails: seq<seq<Walker>>): World
    requires AreTrails(net, ix, chunks, w.tick, trails)
    decreases |chunks|
  {
    if chunks == [] then w
    else
      AfterTrails(net, ix, chunks[1..],
                  w.(tick := EndTick(net, trails[0]),
                     sent := w.sent + EndPayload(net, trails[0]),
                     copies := w.copies + CopiesOn(net, trails[0]),
                     failed := w.failed || EndsInError(net, trails[0])),
                  trails[1..])
  }

  lemma {:induction false} TrailsFan(net: Net, ix: nat, chunks: seq<Chunk>, w: World, trails: seq<seq<Walker>>)
    requires Terminating(net) && |w.ids| == |net.filtras|
    requires AreTrails(net, ix, chunks, w.tick, trails)
    ensures Fan(net, ix, chunks, w) == Done(AfterTrails(net, ix, chunks, w, trails))
    decreases |chunks|
  {
    if chunks != [] {
      TrailWalks(net, w, trails[0]);
      TrailsFan(net, ix, chunks[1..], Walk(net, ix, net.env.encode(chunks[0]), w).world, trails[1..]);
    }
  }

  /** Whatever the filtras behind a splitter do, as long as each chunk keeps to a trail: an oversized
      message becomes exactly its chunks, numbered from 0, and the outputs and copies are those of
      the chunks' trails, chunk by chunk. */
  lemma SplitterSendsItsChunks(net: Net, ix: nat, payload: Payload, w: World, trails: seq<seq<Walker>>)
    requires Terminating(net) && |w.ids| == |net.filtras|
    requires ix < |net.filtras| && Oversized(net, ix, payload) && net.env.active(w.tick)
    requires var id := NextId(w.ids[ix]);
             AreTrails(net, Target(net, net.filtras[ix].hops.passed, ix),
                       ChunksOf(id, payload, net.filtras[ix].kind.chunkSize), w.tick + 1, trails)
    ensures var id := NextId(w.ids[ix]);
            var chunks := ChunksOf(id, payload, net.filtras[ix].kind.chunkSize);
            && Walk(net, ix, payload, w)
               == Done(AfterTrails(net, Target(net, net.filtras[ix].hops.passed, ix), chunks,
                                   w.(tick := w.tick + 1, ids := w.ids[ix := id]), trails))
            && Join(chunks) == payload
  {
    var f := net.filtras[ix];
    var id := NextId(w.ids[ix]);
    var chunks := ChunksOf(id, payload, f.kind.chunkSize);
    var w1 := w.(tick := w.tick + 1, ids := w.ids[ix := id]);
    assert Walk(net, ix, payload, w) == Fan(net, Target(net, f.hops.passed, ix), chunks, w1);
    TrailsFan(net, Target(net, f.hops.passed, ix), chunks, w1, trails);
    ChunksAreExact(id, payload, f.kind.chunkSize);
  }
}
