/** What every run of the step system in `Runtime` satisfies. */
module RuntimeTheorems {
  import opened Runtime

  // --------------------------------------------------------------------------------------------
  // Safety over every finite run
  // --------------------------------------------------------------------------------------------

  ghost predicate IsRun(states: seq<State>, labels: seq<Label>) {
    && |states| == |labels| + 1
    && states[0] == INITIAL
    && forall i :: 0 <= i < |labels| ==>
         Enabled(states[i], labels[i]) && states[i + 1] == Step(states[i], labels[i])
  }

  lemma {:induction false} RunKeepsInv(states: seq<State>, labels: seq<Label>, k: nat)
    requires IsRun(states, labels) && k < |states|
    ensures Inv(states[k])
  {
    if k == 0 {
      assert Inv(INITIAL);
    } else {
      RunKeepsInv(states, labels, k - 1);
      StepKeepsInv(states[k - 1], labels[k - 1]);
    }
  }

  /** The messages the connector delivered, read off the labels. */
  function Received(labels: seq<Label>): seq<Payload> {
    if labels == [] then [] else
    var last := labels[|labels| - 1];
    Received(labels[..|labels| - 1])
    + (if last.Receive? && last.r.RGot? then [last.r.msg] else [])
  }

  /** The payloads `process` pushed to the send queue, read off the labels. */
  function Emitted(labels: seq<Label>): seq<Payload> {
    if labels == [] then [] else
    var last := labels[|labels| - 1];
    Emitted(labels[..|labels| - 1])
    + (if last.Process? && last.p.PEmit? then [last.p.payload] else [])
  }

  function Payloads(outs: seq<Out>): (r: seq<Payload>)
    ensures |r| == |outs|
    ensures forall i :: 0 <= i < |outs| ==> r[i] == outs[i].payload
  {
    seq(|outs|, i requires 0 <= i < |outs| => outs[i].payload)
  }

  lemma RecvExtendsLog(s: State, e: RecvEvent)
    requires RecvEnabled(s, e)
    ensures var t := RecvStep(s, e);
            && t.log.received == s.log.received + (if e.RGot? then [e.msg] else [])
            && t.log.pushed == s.log.pushed
  {
  }

  lemma ProcExtendsLog(s: State, e: ProcEvent)
    requires InputInv(s) && ProcEnabled(s, e)
    ensures var t := ProcStep(s, e);
            && t.log.received == s.log.received
            && Payloads(t.log.pushed) == Payloads(s.log.pushed) + (if e.PEmit? then [e.payload] else [])
  {
  }

  lemma OthersExtendNothing(s: State, l: Label)
    requires Enabled(s, l) && !l.Receive? && !l.Process?
    ensures Step(s, l).log.received == s.log.received && Step(s, l).log.pushed == s.log.pushed
  {
  }

  lemma StepExtendsLog(s: State, l: Label)
    requires InputInv(s) && Enabled(s, l)
    ensures var t := Step(s, l);
            && t.log.received ==
                 s.log.received + (if l.Receive? && l.r.RGot? then [l.r.msg] else [])
            && Payloads(t.log.pushed) ==
                 Payloads(s.log.pushed) + (if l.Process? && l.p.PEmit? then [l.p.payload] else [])
  {
    match l
    case Receive(e) => RecvExtendsLog(s, e);
    case Process(e) => ProcExtendsLog(s, e);
    case _ => OthersExtendNothing(s, l);
  }

  lemma {:induction false} LogIsHistory(states: seq<State>, labels: seq<Label>, k: nat)
    requires IsRun(states, labels) && k < |states|
    ensures states[k].log.received == Received(labels[..k])
    ensures Payloads(states[k].log.pushed) == Emitted(labels[..k])
  {
    if k > 0 {
      LogIsHistory(states, labels, k - 1);
      RunKeepsInv(states, labels, k - 1);
      StepExtendsLog(states[k - 1], labels[k - 1]);
      assert labels[..k][..k - 1] == labels[..k - 1];
    }
  }

  /** Outputs of earlier messages come first, and all belong to the first `n` messages. */
  predicate InReceiveOrder(outs: seq<Out>, n: nat) {
    && (forall i :: 0 <= i < |outs| ==> outs[i].origin < n)
    && (forall i, j :: 0 <= i < j < |outs| ==> outs[i].origin <= outs[j].origin)
  }

  lemma {:induction false} FlattenIsOrdered(blocks: seq<seq<Out>>)
    requires Attributed(blocks)
    ensures InReceiveOrder(Flatten(blocks), |blocks|)
  {
    if blocks != [] {
      var n := |blocks| - 1;
      var first, last := blocks[..n], blocks[n];
      assert Attributed(first) by {
        assert forall i :: 0 <= i < n ==> first[i] == blocks[i];
      }
      FlattenIsOrdered(first);
      OrderedAppend(Flatten(first), last, n);
    }
  }

  lemma OrderedAppend(outs: seq<Out>, last: seq<Out>, n: nat)
    requires InReceiveOrder(outs, n) && forall j :: 0 <= j < |last| ==> last[j].origin == n
    ensures InReceiveOrder(outs + last, n + 1)
  {
  }

  /** Conservation, in every state of every run, over any number of stops, starts and failures.
      Upstream: what the connector delivered is, in order, what was processed, what is queued and
      what the receiver is about to push.  Downstream: what was pushed is, in order, what the
      sender took and what is queued; and it is the concatenation, in receive order, of one block
      of outputs for each processed message. */
  lemma NothingLostOrReordered(states: seq<State>, labels: seq<Label>, k: nat)
    requires IsRun(states, labels) && k < |states|
    ensures var s := states[k];
            && Received(labels[..k]) == s.log.processed + s.rq.items + Held(s)
            && Emitted(labels[..k]) == Payloads(s.log.handed + s.sq.items)
            && s.log.handed + s.sq.items == Flatten(s.log.blocks)
            && s.log.handed == s.log.attempted + InFlight(s)
            && |s.log.blocks| == |s.log.processed|
            && Attributed(s.log.blocks)
            && InReceiveOrder(s.log.handed + s.sq.items, |s.log.processed|)
  {
    RunKeepsInv(states, labels, k);
    LogIsHistory(states, labels, k);
    FlattenIsOrdered(states[k].log.blocks);
  }

  /** A stopped or terminated pipeline holds no message outside its queues: every message the
      connector delivered is processed or still in the receive queue, and every message the sender
      took has had its one send attempt. */
  lemma StoppedIsQuiescent(states: seq<State>, labels: seq<Label>, k: nat)
    requires IsRun(states, labels) && k < |states|
    requires states[k].status == Stopped || states[k].status == Terminated
    ensures var s := states[k];
            && NoWorkers(s)
            && Received(labels[..k]) == s.log.processed + s.rq.items
            && Emitted(labels[..k]) == Payloads(s.log.attempted + s.sq.items)
  {
    RunKeepsInv(states, labels, k);
    LogIsHistory(states, labels, k);
    var s := states[k];
    assert Held(s) == [] && InFlight(s) == [];
    assert s.log.processed + s.rq.items + [] == s.log.processed + s.rq.items;
    assert s.log.attempted + [] == s.log.attempted;
  }

  lemma CtlWrites(s: State, e: CtlEvent)
    requires LifeInv(s) && CtlEnabled(s, e)
    ensures var t := CtlStep(s, e);
            && (s.status != Running && t.status == Running ==> NoWorkers(s) && s.status == Stopped)
            && (s.status != Failed ==> t.status != Failed)
  {
  }

  lemma StatusWrites(s: State, l: Label)
    requires LifeInv(s) && Enabled(s, l)
    ensures var t := Step(s, l);
            && (s.status != Running && t.status == Running ==> NoWorkers(s) && s.status == Stopped)
            && (s.status != Failed && t.status == Failed ==>
                  || (l.Receive? && s.recv.handle && t.recv.handle)
                  || (l.Process? && s.proc.handle && t.proc.handle)
                  || (l.Send? && s.send.handle && t.send.handle))
  {
    if l.Control? {
      CtlWrites(s, l.c);
    }
  }

  /** Lifecycle safety.  No worker is ever started over a live handle, the control thread never
      leaves its loop, Malformed and Starting are never written; RUNNING is only written when no
      worker exists, and FAILED only by a worker that the current handles own. */
  lemma LifecycleIsSafe(states: seq<State>, labels: seq<Label>, k: nat)
    requires IsRun(states, labels) && k < |labels|
    ensures var s, t := states[k], states[k + 1];
            && (t.status == Stopped || t.status == Terminated ==> NoWorkers(t))
            && !t.log.startedTwice
            && t.ctl != CDead
            && (AtRest(t.status) || t.status == Stopping)
            && (s.status != Running && t.status == Running ==> NoWorkers(s) && s.status == Stopped)
            && (s.status != Failed && t.status == Failed ==>
                  || (labels[k].Receive? && s.recv.handle && t.recv.handle)
                  || (labels[k].Process? && s.proc.handle && t.proc.handle)
                  || (labels[k].Send? && s.send.handle && t.send.handle))
  {
    RunKeepsInv(states, labels, k);
    RunKeepsInv(states, labels, k + 1);
    StatusWrites(states[k], labels[k]);
    AliveControl(states[k + 1]);
  }

  lemma AliveControl(s: State)
    requires LifeInv(s)
    ensures (s.status == Stopped || s.status == Terminated ==> NoWorkers(s))
            && !s.log.startedTwice && s.ctl != CDead
            && (AtRest(s.status) || s.status == Stopping)
  {
  }

  lemma Extend(states: seq<State>, labels: seq<Label>, l: Label)
    returns (states': seq<State>, labels': seq<Label>)
    requires IsRun(states, labels) && Enabled(states[|labels|], l)
    ensures IsRun(states', labels')
    ensures labels' == labels + [l] && states' == states + [Step(states[|labels|], l)]
  {
    labels' := labels + [l];
    states' := states + [Step(states[|labels|], l)];
  }

  // --------------------------------------------------------------------------------------------
  // execute_stop always finishes
  // --------------------------------------------------------------------------------------------

  datatype Actor = Receiver | Processor | Sender | Controller | Client | Environment

  function ActorOf(l: Label): Actor {
    match l
    case Receive(_) => Receiver
    case Process(_) => Processor
    case Send(_) => Sender
    case Control(_) => Controller
    case Push(_) => Client
    case _ => Environment
  }

  /** The scheduler owes this thread a step.  A receive call owes nothing until the connector has
      been stopped, and a waiting processor owes nothing until it has been notified. */
  predicate Ready(s: State, a: Actor) {
    match a
    case Receiver =>
      s.recv.handle && s.recv.pc != RExited && (s.recv.pc == RReceiving ==> s.inputStopped)
    case Processor => s.proc.handle && s.proc.pc != PExited && s.proc.pc != PWaiting
    case Sender => s.send.handle && s.send.pc != SExited && (s.send.pc == SPopping ==> s.sq.CanPop())
    case Controller => CtlEnabled(s, CGo)
    case Client => s.calls != multiset{}
    case Environment => false
  }

  lemma ReadyCanStep(s: State, a: Actor) returns (l: Label)
    requires Inv(s) && Ready(s, a)
    ensures ActorOf(l) == a && Enabled(s, l)
  {
    match a {
      case Receiver => l := Receive(if s.recv.pc == RReceiving then RUnderflow else RGo);
      case Sender => l := Send(SGo);
      case Controller => l := Control(CGo);
      case Client =>
        var cmd :| cmd in s.calls;
        l := Push(cmd);
      case Processor => l := ProcessorCanStep(s);
    }
  }

  lemma ProcessorCanStep(s: State) returns (l: Label)
    requires ProcessorInv(s) && Ready(s, Processor)
    ensures ActorOf(l) == Processor && Enabled(s, l)
  {
    match s.proc.pc {
      case PWalking(frames) =>
        l := Process(match Top(frames)
                     case AtHead => PEmit("")
                     case InFiltra => PDrop
                     case Generating(left) => if left == 0 then PDrop else PNextChunk);
      case _ => l := Process(PGo);
    }
  }

  function Phase(s: State): nat {
    match s.ctl
    case CStopCheck(_) => 2
    case CStopWrite(_) => 1
    case _ => 0
  }

  /** 1 while a filtra that was entered before the stop can still answer "self" with any number of
      chunks. */
  function Pending(s: State): nat {
    match s.proc.pc
    case PWalking(frames) => if frames != [] && Top(frames) == InFiltra then 1 else 0
    case _ => 0
  }

  function FrameWeight(f: Frame): nat {
    match f
    case AtHead => 1
    case InFiltra => 2
    case Generating(left) => 1 + 2 * left
  }

  function FramesWeight(frames: seq<Frame>): nat {
    if frames == [] then 0 else FramesWeight(Below(frames)) + FrameWeight(Top(frames))
  }

  function RecvWeight(pc: RecvPc): nat {
    match pc
    case RStarting => 12
    case RConnecting => 11
    case RConnectFailed => 10
    case RConnected => 9
    case RReady => 8
    case RReceiving => 7
    case RPushing(_) => 6
    case RNotifying => 5
    case RLoop => 4
    case RDisconnecting => 3
    case RDisconnectFailed => 2
    case RFinishing => 1
    case RExited => 0
  }

  function SendWeight(pc: SendPc): nat {
    match pc
    case SStarting => 11
    case SConnecting => 10
    case SConnectFailed => 9
    case SConnected => 8
    case SReady => 7
    case SPopping => 6
    case SSending(_) => 5
    case SLoop => 4
    case SDisconnecting => 3
    case SDisconnectFailed => 2
    case SFinishing => 1
    case SExited => 0
  }

  function ProcWeight(pc: ProcPc): nat {
    match pc
    case PExited => 0
    case PFinishing => 1
    case PThrown => 2
    case POuter => 2
    case PNotified => 3
    case PWaiting => 4
    case PParking => 5
    case PHead => 6
    case PWalking(frames) => 6 + FramesWeight(frames)
    case PPopping => 8
    case PReady => 9
    case PStartFailed => 10
    case PFiltras => 11
    case PStarting => 12
  }

  function CtlWeight(c: CtlPc): nat {
    match c
    case CStopConnector(_) => 6
    case CSetNonBlocking(_) => 5
    case CJoinReceiver(_) => 4
    case CAwaitProcessor(_) => 3
    case CJoinProcessor(_) => 2
    case CJoinSender(_) => 1
    case _ => 0
  }

  function Weight(s: State): nat {
    CtlWeight(s.ctl) + RecvWeight(s.recv.pc) + SendWeight(s.send.pc) + ProcWeight(s.proc.pc)
  }

  /** What is left to do before execute_stop returns, compared lexicographically. */
  datatype Rank = Rank(phase: nat, pending: nat, weight: nat) {
    predicate Below(other: Rank) {
      || phase < other.phase
      || (phase == other.phase && pending < other.pending)
      || (phase == other.phase && pending == other.pending && weight < other.weight)
    }
  }

  function RankOf(s: State): Rank {
    if Phase(s) > 0 then Rank(Phase(s), 0, 0) else Rank(0, Pending(s), Weight(s))
  }

  /** The thread execute_stop is waiting for. */
  function Helper(s: State): Actor {
    match s.ctl
    case CJoinReceiver(_) => if s.recv.pc != RExited then Receiver else Controller
    case CAwaitProcessor(_) =>
      if IsBusy(s.proc.tstate) && s.proc.pc != PWaiting then Processor else Controller
    case CJoinProcessor(_) => if s.proc.pc != PExited then Processor else Controller
    case CJoinSender(_) => if s.send.pc != SExited then Sender else Controller
    case _ => Controller
  }

  lemma HelperIsOwed(s: State)
    requires Inv(s) && InStop(s.ctl)
    ensures Ready(s, Helper(s))
  {
  }

  /** No reachable configuration of execute_stop is stuck: the thread it waits for is owed a step,
      and has one to take. */
  lemma HelperIsReady(s: State)
    requires Inv(s) && InStop(s.ctl)
    ensures Ready(s, Helper(s))
    ensures exists l :: ActorOf(l) == Helper(s) && Enabled(s, l)
  {
    HelperIsOwed(s);
    var l := ReadyCanStep(s, Helper(s));
  }

  lemma RecvLowersWeight(s: State, e: RecvEvent)
    requires RecvEnabled(s, e) && !IsActive(s)
    ensures RecvWeight(RecvStep(s, e).recv.pc) < RecvWeight(s.recv.pc)
  {
  }

  lemma RecvMovesAlone(s: State, e: RecvEvent)
    requires RecvEnabled(s, e)
    ensures var t := RecvStep(s, e);
            && t.ctl == s.ctl && t.send == s.send && Pending(t) == Pending(s)
            && ProcWeight(t.proc.pc) <= ProcWeight(s.proc.pc)
  {
  }

  lemma RecvLowersRank(s: State, e: RecvEvent)
    requires ControlInv(s) && InStop(s.ctl) && Phase(s) == 0 && RecvEnabled(s, e)
    ensures RankOf(RecvStep(s, e)).Below(RankOf(s))
  {
    RecvLowersWeight(s, e);
    RecvMovesAlone(s, e);
  }

  lemma SendLowersRank(s: State, e: SendEvent)
    requires ControlInv(s) && InStop(s.ctl) && Phase(s) == 0 && SendEnabled(s, e)
    ensures RankOf(SendStep(s, e)).Below(RankOf(s))
  {
    var t := SendStep(s, e);
    assert t.ctl == s.ctl && t.proc == s.proc && t.recv == s.recv;
    assert SendWeight(t.send.pc) < SendWeight(s.send.pc);
  }

  lemma WeightOfTop(below: seq<Frame>, f: Frame)
    ensures FramesWeight(below + [f]) == FramesWeight(below) + FrameWeight(f)
  {
    assert Below(below + [f]) == below;
  }

  /** Starting a chunk is paid for by the chunk count. */
  lemma ChunkLowersWeight(below: seq<Frame>, left: nat)
    requires left > 0
    ensures FramesWeight(below + [Generating(left - 1), AtHead]) < FramesWeight(below + [Generating(left)])
  {
    var mid := below + [Generating(left - 1)];
    assert below + [Generating(left - 1), AtHead] == mid + [AtHead];
    WeightOfTop(mid, AtHead);
    WeightOfTop(below, Generating(left - 1));
    WeightOfTop(below, Generating(left));
  }

  /** The three things a step other than a split can leave on the stack. */
  lemma FramesGetLighter(frames: seq<Frame>)
    requires frames != []
    ensures FramesWeight(Below(frames)) < FramesWeight(frames)
    ensures Top(frames) == InFiltra ==> FramesWeight(Below(frames) + [AtHead]) < FramesWeight(frames)
    ensures Top(frames).Generating? && Top(frames).left > 0 ==>
      FramesWeight(Below(frames) + [Generating(Top(frames).left - 1), AtHead]) < FramesWeight(frames)
  {
    var below, top := Below(frames), Top(frames);
    assert frames == below + [top];
    WeightOfTop(below, top);
    WeightOfTop(below, AtHead);
    if top.Generating? && top.left > 0 {
      ChunkLowersWeight(below, top.left);
    }
  }

  lemma SplitUsesPending(s: State, frames: seq<Frame>, e: ProcEvent)
    requires frames != [] && s.proc.pc == PWalking(frames) && WalkEnabled(s, frames, e) && e.PSplit?
    ensures Pending(WalkStep(s, frames, e)) < Pending(s)
  {
    assert Top(Below(frames) + [Generating(e.count)]) == Generating(e.count);
  }

  lemma WalkLowersWeight(s: State, frames: seq<Frame>, e: ProcEvent)
    requires frames != [] && s.proc.pc == PWalking(frames) && WalkEnabled(s, frames, e)
    requires !IsActive(s) && |s.log.blocks| > 0 && !e.PSplit?
    ensures ProcWeight(WalkStep(s, frames, e).proc.pc) < ProcWeight(s.proc.pc)
  {
    FramesGetLighter(frames);
  }

  lemma WalkLowersRank(s: State, frames: seq<Frame>, e: ProcEvent)
    requires WellFormed(frames) && s.proc.pc == PWalking(frames) && WalkEnabled(s, frames, e)
    requires !IsActive(s) && |s.log.blocks| > 0
    ensures var t := WalkStep(s, frames, e);
            || Pending(t) < Pending(s)
            || (Pending(t) == Pending(s) && ProcWeight(t.proc.pc) < ProcWeight(s.proc.pc))
  {
    if e.PSplit? {
      SplitUsesPending(s, frames, e);
    } else {
      WalkLowersWeight(s, frames, e);
      PendingOnlyFalls(s, frames, e);
    }
  }

  lemma PendingOnlyFalls(s: State, frames: seq<Frame>, e: ProcEvent)
    requires WellFormed(frames) && s.proc.pc == PWalking(frames) && WalkEnabled(s, frames, e)
    requires !IsActive(s) && !e.PSplit?
    ensures Pending(WalkStep(s, frames, e)) <= Pending(s)
  {
    var below := Below(frames);
    assert below != [] ==> Top(below) == frames[|frames| - 2];
  }

  lemma IdleProcLowersWeight(s: State, e: ProcEvent)
    requires ProcEnabled(s, e) && !IsActive(s) && !s.proc.pc.PWalking?
    ensures ProcWeight(ProcStep(s, e).proc.pc) < ProcWeight(s.proc.pc)
  {
    assert FramesWeight([AtHead]) == 1 by { assert Below([AtHead]) == []; }
  }

  lemma IdleProcKeepsPending(s: State, e: ProcEvent)
    requires ProcEnabled(s, e) && !IsActive(s) && !s.proc.pc.PWalking?
    ensures Pending(ProcStep(s, e)) == Pending(s)
  {
  }

  lemma ProcMovesAlone(s: State, e: ProcEvent)
    requires ProcEnabled(s, e)
    ensures var t := ProcStep(s, e); t.ctl == s.ctl && t.send == s.send && t.recv == s.recv
  {
  }

  lemma ProcLowersRank(s: State, e: ProcEvent)
    requires ControlInv(s) && ProcessorInv(s) && InputInv(s) && InStop(s.ctl) && Phase(s) == 0 && ProcEnabled(s, e)
    ensures RankOf(ProcStep(s, e)).Below(RankOf(s))
  {
    ProcMovesAlone(s, e);
    if s.proc.pc.PWalking? {
      WalkLowersRank(s, s.proc.pc.frames, e);
    } else {
      IdleProcLowersWeight(s, e);
      IdleProcKeepsPending(s, e);
    }
  }

  lemma CtlLowersPhase(s: State, e: CtlEvent)
    requires ControlInv(s) && InStop(s.ctl) && CtlEnabled(s, e) && Phase(s) > 0
    ensures var t := CtlStep(s, e);
            if InStop(t.ctl) then Phase(t) < Phase(s) else t.status == Stopped
  {
  }

  lemma CtlLowersWeight(s: State, e: CtlEvent)
    requires ControlInv(s) && InStop(s.ctl) && CtlEnabled(s, e) && Phase(s) == 0
    ensures var t := CtlStep(s, e);
            && (!InStop(t.ctl) ==> t.status == Stopped)
            && (InStop(t.ctl) && t == s ==> Helper(s) != Controller)
            && (InStop(t.ctl) && t != s ==>
                  Phase(t) == 0 && Pending(t) <= Pending(s) && Weight(t) < Weight(s))
  {
  }

  lemma CtlLowersRank(s: State, e: CtlEvent)
    requires ControlInv(s) && InStop(s.ctl) && CtlEnabled(s, e)
    ensures var t := CtlStep(s, e);
            if !InStop(t.ctl) then t.status == Stopped
            else if t == s then Helper(s) != Controller
            else RankOf(t).Below(RankOf(s))
  {
    if Phase(s) > 0 {
      CtlLowersPhase(s, e);
    } else {
      CtlLowersWeight(s, e);
    }
  }

  /** A step taken while execute_stop runs finishes it, lowers the rank, or leaves both the rank
      and the awaited thread alone; the awaited thread's own steps are never of the last kind. */
  lemma StopMakesProgress(s: State, l: Label)
    requires Inv(s) && InStop(s.ctl) && Enabled(s, l)
    ensures var t := Step(s, l);
            || (!InStop(t.ctl) && t.status == Stopped)
            || (InStop(t.ctl) && RankOf(t).Below(RankOf(s)))
            || (InStop(t.ctl) && RankOf(t) == RankOf(s) && Helper(t) == Helper(s)
                && ActorOf(l) != Helper(s))
  {
    match l {
      case Control(e) => CtlLowersRank(s, e);
      case Receive(e) =>
        if Phase(s) == 0 { RecvLowersRank(s, e); } else { OthersWait(s, l); }
      case Process(e) =>
        if Phase(s) == 0 { ProcLowersRank(s, e); } else { OthersWait(s, l); }
      case Send(e) =>
        if Phase(s) == 0 { SendLowersRank(s, e); } else { OthersWait(s, l); }
      case _ => EnvironmentWaits(s, l);
    }
  }

  lemma OthersWait(s: State, l: Label)
    requires InStop(s.ctl) && Phase(s) > 0 && Enabled(s, l) && !l.Control?
    ensures Step(s, l).ctl == s.ctl
  {
  }

  lemma EnvironmentWaits(s: State, l: Label)
    requires InStop(s.ctl) && Enabled(s, l) && (ActorOf(l) == Environment || ActorOf(l) == Client)
    ensures var t := Step(s, l);
            && t.ctl == s.ctl
            && (RankOf(t).Below(RankOf(s)) || (RankOf(t) == RankOf(s) && Helper(t) == Helper(s)))
  {
  }

  ghost predicate IsStepAt(run: nat -> State, steps: nat -> Label, i: nat) {
    Enabled(run(i), steps(i)) && run(i + 1) == Step(run(i), steps(i))
  }

  ghost predicate IsInfiniteRun(run: nat -> State, steps: nat -> Label) {
    run(0) == INITIAL && forall i: nat :: IsStepAt(run, steps, i)
  }

  /** At `j` the thread is owed nothing, or it moves. */
  ghost predicate Served(run: nat -> State, steps: nat -> Label, a: Actor, j: nat) {
    !Ready(run(j), a) || ActorOf(steps(j)) == a
  }

  ghost predicate IsServed(run: nat -> State, steps: nat -> Label, a: Actor) {
    forall i: nat :: ServedAfter(run, steps, a, i)
  }

  predicate IsThread(a: Actor) {
    a != Client && a != Environment
  }

  /** Weak fairness for the four threads of the pipeline. */
  ghost predicate Fair(run: nat -> State, steps: nat -> Label) {
    forall a: Actor :: IsThread(a) ==> IsServed(run, steps, a)
  }

  /** The first time from `i` on at which the thread is owed nothing or moves. */
  lemma NextServed(run: nat -> State, steps: nat -> Label, a: Actor, i: nat) returns (m: nat)
    requires IsServed(run, steps, a)
    ensures m >= i && Served(run, steps, a, m)
    ensures forall k :: i <= k < m ==> ActorOf(steps(k)) != a
  {
    assert ServedAfter(run, steps, a, i);
    var j: nat :| j >= i && Served(run, steps, a, j);
    m := i;
    while !Served(run, steps, a, m)
      invariant i <= m <= j
      invariant forall k :: i <= k < m ==> ActorOf(steps(k)) != a
      decreases j - m
    {
      m := m + 1;
    }
  }

  ghost predicate ServedAfter(run: nat -> State, steps: nat -> Label, a: Actor, i: nat) {
    exists j: nat :: j >= i && Served(run, steps, a, j)
  }

  lemma {:induction false} InfiniteRunKeepsInv(run: nat -> State, steps: nat -> Label, i: nat)
    requires IsInfiniteRun(run, steps)
    ensures Inv(run(i))
  {
    if i > 0 {
      assert IsStepAt(run, steps, i - 1);
      InfiniteRunKeepsInv(run, steps, i - 1);
      StepKeepsInv(run(i - 1), steps(i - 1));
      assert run(i - 1 + 1) == run(i);
    }
  }

  ghost predicate ProgressAt(run: nat -> State, steps: nat -> Label, m: nat) {
    InStop(run(m).ctl) ==>
      && Ready(run(m), Helper(run(m)))
      && (|| StopDone(run(m + 1))
          || (InStop(run(m + 1).ctl) && RankOf(run(m + 1)).Below(RankOf(run(m))))
          || (InStop(run(m + 1).ctl) && RankOf(run(m + 1)) == RankOf(run(m))
              && Helper(run(m + 1)) == Helper(run(m)) && ActorOf(steps(m)) != Helper(run(m))))
  }

  predicate StopDone(s: State) {
    s.status == Stopped && !InStop(s.ctl) && NoWorkers(s)
  }

  lemma RunProgresses(run: nat -> State, steps: nat -> Label, m: nat)
    requires IsInfiniteRun(run, steps)
    ensures ProgressAt(run, steps, m)
  {
    assert IsStepAt(run, steps, m);
    InfiniteRunKeepsInv(run, steps, m);
    InfiniteRunKeepsInv(run, steps, m + 1);
    if InStop(run(m).ctl) {
      HelperIsReady(run(m));
      StopMakesProgress(run(m), steps(m));
    }
  }

  lemma {:induction false} FairProgressFinishes(run: nat -> State, steps: nat -> Label, i: nat)
    returns (done: nat)
    requires Fair(run, steps) && forall m: nat :: ProgressAt(run, steps, m)
    requires InStop(run(i).ctl)
    ensures done > i && StopDone(run(done))
    decreases RankOf(run(i)).phase, RankOf(run(i)).pending, RankOf(run(i)).weight
  {
    var helper := Helper(run(i));
    assert IsServed(run, steps, helper) && ServedAfter(run, steps, helper, i);
    var j: nat :| j >= i && Served(run, steps, helper, j);
    var m := i;
    while true
      invariant i <= m <= j
      invariant InStop(run(m).ctl) && RankOf(run(m)) == RankOf(run(i)) && Helper(run(m)) == helper
      decreases j - m
    {
      assert ProgressAt(run, steps, m);
      if StopDone(run(m + 1)) {
        return m + 1;
      }
      if RankOf(run(m + 1)).Below(RankOf(run(i))) {
        done := FairProgressFinishes(run, steps, m + 1);
        return;
      }
      m := m + 1;
    }
  }

  /** In every fair run, whatever commands are queued and whatever connectors and filtras do,
      execute_stop reaches STOPPED. */
  lemma StopAlwaysFinishes(run: nat -> State, steps: nat -> Label, i: nat) returns (done: nat)
    requires IsInfiniteRun(run, steps) && Fair(run, steps)
    requires InStop(run(i).ctl)
    ensures done > i && StopDone(run(done))
  {
    forall m: nat ensures ProgressAt(run, steps, m) {
      RunProgresses(run, steps, m);
    }
    done := FairProgressFinishes(run, steps, i);
  }
}
