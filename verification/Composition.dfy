/** The processor of `Runtime` against `Routing`: what a message's block of outputs holds when the
    processor's steps are those of a walk. */
module Composition {
  import opened Runtime
  import opened RuntimeTheorems
  import opened Sequences
  import N = Routing
  import Splitters

  // --------------------------------------------------------------------------------------------
  // The steps of a walk
  // --------------------------------------------------------------------------------------------

  /** The processor's steps while `process` takes a message from the loop head at `ix`. */
  ghost function WalkEvents(net: N.Net, ix: nat, payload: Payload, w: N.World): seq<ProcEvent>
    requires N.Terminating(net) && |w.ids| == |net.filtras|
    decreases N.Measure(net, ix, w.tick), 0
  {
    if ix >= |net.filtras| || !net.env.active(w.tick) then [PEmit(payload)]
    else
      match N.Turn(net, ix, payload, w)
      case Onward(next, after, w1) => [PEnter, PAdvance] + WalkEvents(net, next, after, w1)
      case FansOut(next, chunks, w1) => [PEnter, PSplit(|chunks|)] + FanEvents(net, next, chunks, w1)
      case Ended(_) => [PEnter, PDrop]
      case Blocked(_) => [PEnter, PThrow]
  }

  /** The steps of a generation loop. */
  ghost function FanEvents(net: N.Net, ix: nat, chunks: seq<Splitters.Chunk>, w: N.World): seq<ProcEvent>
    requires N.Terminating(net) && |w.ids| == |net.filtras|
    decreases N.Measure(net, ix, w.tick), |chunks| + 1
  {
    if chunks == [] then [PDrop]
    else
      var payload := net.env.encode(chunks[0]);
      var first := N.Walk(net, ix, payload, w);
      [PNextChunk] + WalkEvents(net, ix, payload, w)
      + if first.Escaped? then [] else FanEvents(net, ix, chunks[1..], first.world)
  }

  function Output(e: ProcEvent): seq<Payload> {
    if e.PEmit? then [e.payload] else []
  }

  /** The payloads that steps push to the send queue. */
  function Outputs(events: seq<ProcEvent>): seq<Payload> {
    if events == [] then [] else Output(events[0]) + Outputs(events[1..])
  }

  lemma {:induction false} OutputsAppend(a: seq<ProcEvent>, b: seq<ProcEvent>)
    ensures Outputs(a + b) == Outputs(a) + Outputs(b)
  {
    if a == [] {
      assert a + b == b;
    } else {
      assert (a + b)[1..] == a[1..] + b;
      OutputsAppend(a[1..], b);
      Assoc(Output(a[0]), Outputs(a[1..]), Outputs(b));
    }
  }

  lemma OneOutput(e: ProcEvent)
    ensures Outputs([e]) == Output(e)
  {
    assert [e][1..] == [];
  }

  lemma TwoSilent(a: ProcEvent, b: ProcEvent, rest: seq<ProcEvent>)
    requires Output(a) == [] && Output(b) == []
    ensures Outputs([a, b] + rest) == Outputs(rest) && Outputs([a, b]) == []
  {
    assert [a, b] == [a] + [b];
    OneOutput(a);
    OneOutput(b);
    OutputsAppend([a], [b]);
    OutputsAppend([a, b], rest);
  }

  lemma ChunkOutputs(head: seq<ProcEvent>, rest: seq<ProcEvent>)
    ensures Outputs([PNextChunk] + head + rest) == Outputs(head) + Outputs(rest)
  {
    OneOutput(PNextChunk);
    OutputsAppend([PNextChunk], head);
    OutputsAppend([PNextChunk] + head, rest);
  }

  /** The steps of a walk push exactly what the walk sends. */
  lemma {:induction false} WalkOutputs(net: N.Net, ix: nat, payload: Payload, w: N.World)
    requires N.Terminating(net) && |w.ids| == |net.filtras|
    ensures N.Walk(net, ix, payload, w).world.sent == w.sent + Outputs(WalkEvents(net, ix, payload, w))
    decreases N.Measure(net, ix, w.tick), 0
  {
    if ix >= |net.filtras| || !net.env.active(w.tick) {
      OneOutput(PEmit(payload));
    } else {
      match N.Turn(net, ix, payload, w)
      case Onward(next, after, w1) =>
        WalkOutputs(net, next, after, w1);
        TwoSilent(PEnter, PAdvance, WalkEvents(net, next, after, w1));
      case FansOut(next, chunks, w1) =>
        FanOutputs(net, next, chunks, w1);
        TwoSilent(PEnter, PSplit(|chunks|), FanEvents(net, next, chunks, w1));
      case Ended(_) => TwoSilent(PEnter, PDrop, []);
      case Blocked(_) => TwoSilent(PEnter, PThrow, []);
    }
  }

  lemma {:induction false} FanOutputs(net: N.Net, ix: nat, chunks: seq<Splitters.Chunk>, w: N.World)
    requires N.Terminating(net) && |w.ids| == |net.filtras|
    ensures N.Fan(net, ix, chunks, w).world.sent == w.sent + Outputs(FanEvents(net, ix, chunks, w))
    decreases N.Measure(net, ix, w.tick), |chunks| + 1
  {
    if chunks == [] {
      OneOutput(PDrop);
    } else {
      var payload := net.env.encode(chunks[0]);
      var first := N.Walk(net, ix, payload, w);
      var head := WalkEvents(net, ix, payload, w);
      WalkOutputs(net, ix, payload, w);
      if first.Done? {
        var rest := FanEvents(net, ix, chunks[1..], first.world);
        FanOutputs(net, ix, chunks[1..], first.world);
        ChunkOutputs(head, rest);
        Assoc(w.sent, Outputs(head), Outputs(rest));
      } else {
        ChunkOutputs(head, []);
      }
    }
  }

  // --------------------------------------------------------------------------------------------
  // The processor can take these steps
  // --------------------------------------------------------------------------------------------

  /** Where a step inside `process` leads, for any contents of the queues. */
  function Moved(frames: seq<Frame>, e: ProcEvent): ProcPc
    requires frames != [] && (e == PNextChunk ==> Top(frames).Generating? && Top(frames).left > 0)
  {
    var below := Below(frames);
    match e
    case PEnter => PWalking(below + [InFiltra])
    case PAdvance => PWalking(below + [AtHead])
    case PSplit(count) => PWalking(below + [Generating(count)])
    case PNextChunk => PWalking(below + [Generating(Top(frames).left - 1), AtHead])
    case PThrow => PThrown
    case PUnderflow => PParking
    case _ => Resume(below)
  }

  /** The frame allows the step. */
  predicate Allows(frame: Frame, e: ProcEvent) {
    match frame
    case AtHead => e.PEmit? || e == PEnter
    case InFiltra => e.PAdvance? || e.PDrop? || e.PSplit? || e.PThrow? || e.PUnderflow?
    case Generating(left) => if left == 0 then e.PDrop? || e.PThrow? else e.PNextChunk? || e.PThrow?
  }

  lemma MovedIsStep(s: State, frames: seq<Frame>, e: ProcEvent)
    requires frames != [] && s.proc.pc == PWalking(frames) && s.log.blocks != []
    requires Allows(Top(frames), e) && (e == PEnter ==> IsActive(s))
    ensures WalkEnabled(s, frames, e) && WalkStep(s, frames, e).proc.pc == Moved(frames, e)
  {
  }

  /** From `frames`, the steps are allowed one after the other and end at `pc`. */
  predicate LeadsTo(frames: seq<Frame>, events: seq<ProcEvent>, pc: ProcPc)
    decreases |events|
  {
    && frames != [] && events != [] && Allows(Top(frames), events[0])
    && var next := Moved(frames, events[0]);
       if |events| == 1 then next == pc
       else next.PWalking? && LeadsTo(next.frames, events[1..], pc)
  }

  lemma {:induction false} LeadsOn(frames: seq<Frame>, a: seq<ProcEvent>, mid: seq<Frame>, b: seq<ProcEvent>, pc: ProcPc)
    requires LeadsTo(frames, a, PWalking(mid)) && LeadsTo(mid, b, pc)
    ensures LeadsTo(frames, a + b, pc)
    decreases |a|
  {
    assert (a + b)[0] == a[0] && (a + b)[1..] == a[1..] + b;
    if |a| > 1 {
      LeadsOn(Moved(frames, a[0]).frames, a[1..], mid, b, pc);
    } else {
      assert a[1..] + b == b;
    }
  }

  lemma OneStep(frames: seq<Frame>, e: ProcEvent)
    requires frames != [] && Allows(Top(frames), e)
    ensures LeadsTo(frames, [e], Moved(frames, e))
  {
  }

  lemma EnterThen(below: seq<Frame>, e: ProcEvent)
    requires Allows(InFiltra, e)
    ensures LeadsTo(below + [AtHead], [PEnter, e], Moved(below + [InFiltra], e))
    ensures Below(below + [InFiltra]) == below
  {
    var frames := below + [AtHead];
    assert Below(frames) == below && Below(below + [InFiltra]) == below;
    OneStep(frames, PEnter);
    OneStep(below + [InFiltra], e);
    LeadsOn(frames, [PEnter], below + [InFiltra], [e], Moved(below + [InFiltra], e));
    assert [PEnter] + [e] == [PEnter, e];
  }

  lemma EnterLeads(below: seq<Frame>, e: ProcEvent, frame: Frame, rest: seq<ProcEvent>, pc: ProcPc)
    requires (e == PAdvance && frame == AtHead) || (e.PSplit? && frame == Generating(e.count))
    requires LeadsTo(below + [frame], rest, pc)
    ensures LeadsTo(below + [AtHead], [PEnter, e] + rest, pc)
  {
    EnterThen(below, e);
    LeadsOn(below + [AtHead], [PEnter, e], below + [frame], rest, pc);
  }

  function AfterWalk(below: seq<Frame>, o: N.Outcome): ProcPc {
    if o.Escaped? then PThrown else Resume(below)
  }

  /** The processor can follow every walk, from the loop head to where the activation returns or the
      exception leaves it, generation loops included. */
  lemma {:induction false} WalkLeads(net: N.Net, ix: nat, payload: Payload, w: N.World, below: seq<Frame>)
    requires N.Terminating(net) && |w.ids| == |net.filtras|
    ensures LeadsTo(below + [AtHead], WalkEvents(net, ix, payload, w),
                    AfterWalk(below, N.Walk(net, ix, payload, w)))
    decreases N.Measure(net, ix, w.tick), 0
  {
    if ix >= |net.filtras| || !net.env.active(w.tick) {
      assert Below(below + [AtHead]) == below;
      OneStep(below + [AtHead], PEmit(payload));
    } else {
      match N.Turn(net, ix, payload, w)
      case Onward(next, after, w1) =>
        WalkLeads(net, next, after, w1, below);
        EnterLeads(below, PAdvance, AtHead, WalkEvents(net, next, after, w1),
                   AfterWalk(below, N.Walk(net, next, after, w1)));
      case FansOut(next, chunks, w1) =>
        FanLeads(net, next, chunks, w1, below);
        EnterLeads(below, PSplit(|chunks|), Generating(|chunks|), FanEvents(net, next, chunks, w1),
                   AfterWalk(below, N.Fan(net, next, chunks, w1)));
      case Ended(_) => EnterThen(below, PDrop);
      case Blocked(_) => EnterThen(below, PThrow);
    }
  }

  lemma ChunkLeads(below: seq<Frame>, left: nat, head: seq<ProcEvent>, pc: ProcPc)
    requires LeadsTo(below + [Generating(left)] + [AtHead], head, pc)
    ensures LeadsTo(below + [Generating(left + 1)], [PNextChunk] + head, pc)
  {
    var frames, looping := below + [Generating(left + 1)], below + [Generating(left)];
    assert Below(frames) == below;
    assert below + [Generating(left), AtHead] == looping + [AtHead];
    OneStep(frames, PNextChunk);
    LeadsOn(frames, [PNextChunk], looping + [AtHead], head, pc);
  }

  lemma LoopEnds(below: seq<Frame>)
    ensures LeadsTo(below + [Generating(0)], [PDrop], Resume(below))
  {
    assert Below(below + [Generating(0)]) == below;
    OneStep(below + [Generating(0)], PDrop);
  }

  lemma {:induction false} ChunkWalkLeads(net: N.Net, ix: nat, payload: Payload, w: N.World, below: seq<Frame>, left: nat)
    requires N.Terminating(net) && |w.ids| == |net.filtras|
    ensures LeadsTo(below + [Generating(left + 1)], [PNextChunk] + WalkEvents(net, ix, payload, w),
                    AfterWalk(below + [Generating(left)], N.Walk(net, ix, payload, w)))
    decreases N.Measure(net, ix, w.tick), 1
  {
    WalkLeads(net, ix, payload, w, below + [Generating(left)]);
    ChunkLeads(below, left, WalkEvents(net, ix, payload, w),
               AfterWalk(below + [Generating(left)], N.Walk(net, ix, payload, w)));
  }

  /** A generation loop, split behind its first chunk. */
  lemma {:induction false} FirstChunkLeads(net: N.Net, ix: nat, chunks: seq<Splitters.Chunk>, w: N.World, below: seq<Frame>)
    returns (head: seq<ProcEvent>, done: bool, after: N.World)
    requires N.Terminating(net) && |w.ids| == |net.filtras| && chunks != []
    ensures N.NotBefore(w, after)
    ensures LeadsTo(below + [Generating(|chunks|)], head,
                    if done then PWalking(below + [Generating(|chunks| - 1)]) else PThrown)
    ensures FanEvents(net, ix, chunks, w) == if done then head + FanEvents(net, ix, chunks[1..], after) else head
    ensures done ==> N.Fan(net, ix, chunks, w) == N.Fan(net, ix, chunks[1..], after)
    ensures !done ==> N.Fan(net, ix, chunks, w).Escaped?
    decreases N.Measure(net, ix, w.tick), |chunks| + 1
  {
    var payload := net.env.encode(chunks[0]);
    var first := N.Walk(net, ix, payload, w);
    head, done, after := [PNextChunk] + WalkEvents(net, ix, payload, w), first.Done?, first.world;
    assert head + [] == head;
    ChunkWalkLeads(net, ix, payload, w, below, |chunks| - 1);
  }

  lemma {:induction false} FanLeads(net: N.Net, ix: nat, chunks: seq<Splitters.Chunk>, w: N.World, below: seq<Frame>)
    requires N.Terminating(net) && |w.ids| == |net.filtras|
    ensures LeadsTo(below + [Generating(|chunks|)], FanEvents(net, ix, chunks, w),
                    AfterWalk(below, N.Fan(net, ix, chunks, w)))
    decreases N.Measure(net, ix, w.tick), |chunks| + 2
  {
    if chunks == [] {
      LoopEnds(below);
    } else {
      var head, done, after := FirstChunkLeads(net, ix, chunks, w, below);
      if done {
        FanLeads(net, ix, chunks[1..], after, below);
        LeadsOn(below + [Generating(|chunks|)], head, below + [Generating(|chunks| - 1)],
                FanEvents(net, ix, chunks[1..], after), AfterWalk(below, N.Fan(net, ix, chunks[1..], after)));
      }
    }
  }

  // --------------------------------------------------------------------------------------------
  // Blocks
  // --------------------------------------------------------------------------------------------

  /** The processor's own steps among those of all threads. */
  function ProcEvents(labels: seq<Label>): seq<ProcEvent> {
    if labels == [] then []
    else
      ProcEvents(labels[..|labels| - 1])
      + (if labels[|labels| - 1].Process? then [labels[|labels| - 1].p] else [])
  }

  function LastBlock(s: State): seq<Payload>
    requires s.log.blocks != []
  {
    Payloads(s.log.blocks[|s.log.blocks| - 1])
  }

  function PushedBy(l: Label): seq<Payload> {
    if l.Process? then Output(l.p) else []
  }

  predicate GrowsBlock(s: State, t: State, pushed: seq<Payload>)
    requires s.log.blocks != []
  {
    |t.log.blocks| == |s.log.blocks| ==> LastBlock(t) == LastBlock(s) + pushed
  }

  lemma ProcessorGrowsBlock(s: State, e: ProcEvent)
    requires ProcEnabled(s, e) && s.log.blocks != []
    ensures GrowsBlock(s, ProcStep(s, e), Output(e))
  {
  }

  lemma OthersKeepBlocks(s: State, l: Label)
    requires Enabled(s, l) && !l.Process?
    ensures Step(s, l).log.blocks == s.log.blocks
  {
  }

  lemma RunGrowsBlock(states: seq<State>, labels: seq<Label>, m: nat)
    requires IsRun(states, labels) && m < |labels| && states[m].log.blocks != []
    ensures GrowsBlock(states[m], states[m + 1], PushedBy(labels[m]))
  {
    if labels[m].Process? {
      ProcessorGrowsBlock(states[m], labels[m].p);
    } else {
      OthersKeepBlocks(states[m], labels[m]);
    }
  }

  /** At step `p` the processor pops message number `n`, and has popped no other until `k`. */
  ghost predicate HandlesMessage(states: seq<State>, labels: seq<Label>, p: nat, k: nat, n: nat) {
    && IsRun(states, labels) && p < k < |states|
    && |states[p].log.blocks| == n && |states[p + 1].log.blocks| == n + 1
    && forall j :: p < j <= k ==> |states[j].log.blocks| == n + 1
  }

  lemma PopOpensBlock(s: State, l: Label)
    requires Enabled(s, l) && |Step(s, l).log.blocks| == |s.log.blocks| + 1
    ensures Step(s, l).log.blocks == s.log.blocks + [[]]
    ensures s.rq.items != [] && Step(s, l).log.processed == s.log.processed + [s.rq.items[0]]
    ensures Step(s, l).proc.pc == PWalking([AtHead])
  {
  }

  lemma {:induction false} EmittedIsOutputs(labels: seq<Label>)
    ensures Emitted(labels) == Outputs(ProcEvents(labels))
  {
    if labels != [] {
      var init, last := labels[..|labels| - 1], labels[|labels| - 1];
      EmittedIsOutputs(init);
      if last.Process? {
        OneOutput(last.p);
        OutputsAppend(ProcEvents(init), [last.p]);
      } else {
        assert ProcEvents(labels) == ProcEvents(init) && Emitted(labels) == Emitted(init);
      }
    }
  }

  lemma RunOpensBlock(states: seq<State>, labels: seq<Label>, p: nat, k: nat, n: nat)
    requires HandlesMessage(states, labels, p, k, n)
    ensures LastBlock(states[p + 1]) == []
  {
    PopOpensBlock(states[p], labels[p]);
  }

  lemma {:induction false} BlockGrows(blocks: seq<seq<Payload>>, labels: seq<Label>, p: nat, k: nat)
    requires p < k <= |labels| < |blocks|
    requires forall m :: p < m < k ==> blocks[m + 1] == blocks[m] + PushedBy(labels[m])
    requires blocks[p + 1] == []
    ensures blocks[k] == Emitted(labels[p + 1..k])
    decreases k
  {
    if k > p + 1 {
      BlockGrows(blocks, labels, p, k - 1);
      assert blocks[k - 1 + 1] == blocks[k - 1] + PushedBy(labels[k - 1]);
      assert labels[p + 1..k] == labels[p + 1..k - 1] + [labels[k - 1]];
      EmittedLast(labels[p + 1..k - 1], labels[k - 1]);
    }
  }

  function BlockOf(s: State): seq<Payload> {
    if s.log.blocks == [] then [] else LastBlock(s)
  }

  function BlocksOf(states: seq<State>): (r: seq<seq<Payload>>)
    ensures |r| == |states|
    ensures forall m :: 0 <= m < |states| ==> r[m] == BlockOf(states[m])
  {
    seq(|states|, m requires 0 <= m < |states| => BlockOf(states[m]))
  }

  lemma BlockIsEmitted(states: seq<State>, labels: seq<Label>, p: nat, k: nat, n: nat)
    requires HandlesMessage(states, labels, p, k, n)
    ensures LastBlock(states[k]) == Emitted(labels[p + 1..k])
  {
    var blocks := BlocksOf(states);
    RunOpensBlock(states, labels, p, k, n);
    forall m | p < m < k ensures blocks[m + 1] == blocks[m] + PushedBy(labels[m]) {
      RunGrowsBlock(states, labels, m);
    }
    BlockGrows(blocks, labels, p, k);
  }

  lemma EmittedLast(labels: seq<Label>, l: Label)
    ensures Emitted(labels + [l]) == Emitted(labels) + PushedBy(l)
  {
    assert (labels + [l])[..|labels|] == labels;
  }

  /** End to end: if the processor's own steps since it popped message `n`, among any steps of the
      other threads, are those of the message's walk, then the block of outputs attributed to that
      message is exactly what the walk sends. */
  lemma BlockIsWhatTheWalkSends(states: seq<State>, labels: seq<Label>, p: nat, k: nat, n: nat,
                                net: N.Net, w: N.World)
    requires HandlesMessage(states, labels, p, k, n)
    requires N.Terminating(net) && |w.ids| == |net.filtras|
    requires states[p].rq.items != []
    requires ProcEvents(labels[p + 1..k]) == WalkEvents(net, 0, states[p].rq.items[0], w)
    ensures |states[k].log.processed| == n + 1 && states[k].log.processed[n] == states[p].rq.items[0]
    ensures w.sent + Payloads(states[k].log.blocks[n])
         == N.Walk(net, 0, states[k].log.processed[n], w).world.sent
  {
    PopOpensBlock(states[p], labels[p]);
    RunKeepsInv(states, labels, p);
    ProcessedStays(states, labels, p + 1, k);
    RunKeepsInv(states, labels, k);
    BlockIsEmitted(states, labels, p, k, n);
    EmittedIsOutputs(labels[p + 1..k]);
    WalkOutputs(net, 0, states[p].rq.items[0], w);
  }

  lemma {:induction false} PrefixesChain(states: seq<State>, i: nat, k: nat)
    requires i <= k < |states|
    requires forall m :: i <= m < k ==> states[m].log.processed <= states[m + 1].log.processed
    ensures states[i].log.processed <= states[k].log.processed
    decreases k - i
  {
    if i < k {
      PrefixesChain(states, i, k - 1);
      assert states[k - 1].log.processed <= states[k - 1 + 1].log.processed;
    }
  }

  lemma ProcessedStays(states: seq<State>, labels: seq<Label>, i: nat, k: nat)
    requires IsRun(states, labels) && i <= k < |states|
    ensures states[i].log.processed <= states[k].log.processed
  {
    forall m | i <= m < k ensures states[m].log.processed <= states[m + 1].log.processed {
      ProcessedGrows(states[m], labels[m]);
    }
    PrefixesChain(states, i, k);
  }

  lemma ProcessedGrows(s: State, l: Label)
    requires Enabled(s, l)
    ensures s.log.processed <= Step(s, l).log.processed
  {
  }

  // --------------------------------------------------------------------------------------------
  // Every walk happens in some run
  // --------------------------------------------------------------------------------------------

  function ProcLabels(events: seq<ProcEvent>): (r: seq<Label>)
    ensures |r| == |events| && forall i :: 0 <= i < |events| ==> r[i] == Process(events[i])
  {
    seq(|events|, i requires 0 <= i < |events| => Process(events[i]))
  }

  lemma {:induction false} ProcEventsOf(events: seq<ProcEvent>)
    ensures ProcEvents(ProcLabels(events)) == events
  {
    if events != [] {
      var init := events[..|events| - 1];
      ProcEventsOf(init);
      assert ProcLabels(events)[..|events| - 1] == ProcLabels(init);
    }
  }

  /** The processor is inside `process`, in a pipeline that is running. */
  predicate IsWalking(s: State, frames: seq<Frame>) {
    s.proc.handle && s.proc.pc == PWalking(frames) && s.log.blocks != [] && IsActive(s)
  }

  /** One event is an enabled step of the step system. */
  lemma EventIsTaken(s: State, frames: seq<Frame>, e: ProcEvent)
    requires IsWalking(s, frames) && frames != [] && Allows(Top(frames), e)
    ensures Enabled(s, Process(e))
    ensures var t := Step(s, Process(e));
            && t.proc.pc == Moved(frames, e) && t.proc.handle && IsActive(t)
            && |t.log.blocks| == |s.log.blocks|
  {
    MovedIsStep(s, frames, e);
  }

  ghost predicate KeepsBlocks(states: seq<State>, from: nat, n: nat) {
    forall j :: from <= j < |states| ==> |states[j].log.blocks| == n
  }

  /** Events that lead from the processor's frames to `pc` are steps that extend the run. */
  lemma {:induction false} EventsAreTaken(states: seq<State>, labels: seq<Label>, from: nat,
                                          frames: seq<Frame>, events: seq<ProcEvent>, pc: ProcPc)
    returns (states': seq<State>, labels': seq<Label>)
    requires IsRun(states, labels) && IsWalking(states[|labels|], frames) && LeadsTo(frames, events, pc)
    requires from <= |labels| && KeepsBlocks(states, from, |states[|labels|].log.blocks|)
    ensures IsRun(states', labels') && states <= states' && labels' == labels + ProcLabels(events)
    ensures states'[|labels'|].proc.pc == pc
    ensures KeepsBlocks(states', from, |states[|labels|].log.blocks|)
    decreases |events|
  {
    EventIsTaken(states[|labels|], frames, events[0]);
    states', labels' := Extend(states, labels, Process(events[0]));
    if |events| == 1 {
      assert ProcLabels(events) == [Process(events[0])];
    } else {
      assert ProcLabels(events) == [Process(events[0])] + ProcLabels(events[1..]);
      Assoc(labels, [Process(events[0])], ProcLabels(events[1..]));
      states', labels' := EventsAreTaken(states', labels', from, Moved(frames, events[0]).frames, events[1..], pc);
    }
  }

  /** In front of a pop, in a running pipeline. */
  predicate IsPopping(s: State) {
    s.proc.handle && s.proc.pc == PPopping && s.rq.items != [] && IsActive(s)
  }

  lemma PopStartsWalk(s: State)
    requires IsPopping(s)
    ensures Enabled(s, Process(PGo))
    ensures var t := Step(s, Process(PGo));
            IsWalking(t, [AtHead]) && |t.log.blocks| == |s.log.blocks| + 1
  {
  }

  /** The pop, and the events behind it, when they lead somewhere from the loop head. */
  lemma PopAndEvents(states: seq<State>, labels: seq<Label>, events: seq<ProcEvent>, pc: ProcPc)
    returns (states': seq<State>, labels': seq<Label>)
    requires IsRun(states, labels) && IsPopping(states[|labels|]) && LeadsTo([AtHead], events, pc)
    ensures IsRun(states', labels') && states <= states' && labels' == labels + [Process(PGo)] + ProcLabels(events)
    ensures states'[|labels'|].proc.pc == pc
    ensures HandlesMessage(states', labels', |labels|, |labels'|, |states[|labels|].log.blocks|)
  {
    PopStartsWalk(states[|labels|]);
    states', labels' := Extend(states, labels, Process(PGo));
    states', labels' := EventsAreTaken(states', labels', |labels'|, [AtHead], events, pc);
  }

  lemma EventsBehindPop(labels: seq<Label>, labels': seq<Label>, events: seq<ProcEvent>)
    requires labels' == labels + [Process(PGo)] + ProcLabels(events)
    ensures labels < labels' && ProcEvents(labels'[|labels| + 1..|labels'|]) == events
  {
    assert labels'[|labels| + 1..|labels'|] == ProcLabels(events);
    ProcEventsOf(events);
  }

  lemma WalkIsTaken(states: seq<State>, labels: seq<Label>, net: N.Net, msg: Payload, w: N.World)
    returns (states': seq<State>, labels': seq<Label>)
    requires IsRun(states, labels) && IsPopping(states[|labels|])
    requires N.Terminating(net) && |w.ids| == |net.filtras|
    ensures IsRun(states', labels') && states <= states'
    ensures labels' == labels + [Process(PGo)] + ProcLabels(WalkEvents(net, 0, msg, w))
    ensures HandlesMessage(states', labels', |labels|, |labels'|, |states[|labels|].log.blocks|)
    ensures states'[|labels'|].proc.pc == AfterWalk([], N.Walk(net, 0, msg, w))
  {
    WalkLeads(net, 0, msg, w, []);
    assert [] + [AtHead] == [AtHead];
    states', labels' := PopAndEvents(states, labels, WalkEvents(net, 0, msg, w),
                                     AfterWalk([], N.Walk(net, 0, msg, w)));
  }

  /** Every run that comes to pop a message can go on with every walk of that message, from the pop to
      where `process` returns or throws; the message's block then holds what the walk sends. */
  lemma WalkHappens(states: seq<State>, labels: seq<Label>, net: N.Net, w: N.World)
    returns (states': seq<State>, labels': seq<Label>)
    requires IsRun(states, labels) && IsPopping(states[|labels|])
    requires N.Terminating(net) && |w.ids| == |net.filtras|
    ensures IsRun(states', labels') && states <= states' && labels < labels'
    ensures HandlesMessage(states', labels', |labels|, |labels'|, |states[|labels|].log.blocks|)
    ensures var msg := states[|labels|].rq.items[0];
            && ProcEvents(labels'[|labels| + 1..|labels'|]) == WalkEvents(net, 0, msg, w)
            && states'[|labels'|].proc.pc == AfterWalk([], N.Walk(net, 0, msg, w))
            && w.sent + Payloads(states'[|labels'|].log.blocks[|states[|labels|].log.blocks|])
               == N.Walk(net, 0, msg, w).world.sent
  {
    var msg := states[|labels|].rq.items[0];
    states', labels' := WalkIsTaken(states, labels, net, msg, w);
    EventsBehindPop(labels, labels', WalkEvents(net, 0, msg, w));
    assert states'[|labels|] == states[|labels|];
    BlockIsWhatTheWalkSends(states', labels', |labels|, |labels'|, |states[|labels|].log.blocks|, net, w);
  }
}
