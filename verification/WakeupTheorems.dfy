/** Messages that lie in the receive queue while the processor waits to be notified. */
module WakeupTheorems {
  import opened Queues
  import opened Runtime
  import opened RuntimeTheorems

  // --------------------------------------------------------------------------------------------
  // When a queued message is sure to be processed
  // --------------------------------------------------------------------------------------------

  /** Between finding the queue empty and being notified. */
  predicate Parked(pc: ProcPc) {
    pc == PParking || pc == PWaiting
  }

  /** On the way from a notification to the next pop. */
  predicate Awake(pc: ProcPc) {
    pc == PNotified || pc == POuter || pc == PHead || pc == PPopping
  }

  function StepsToPop(pc: ProcPc): nat {
    match pc
    case PNotified => 4
    case POuter => 3
    case PHead => 2
    case PPopping => 1
    case _ => 0
  }

  /** What ends the wait of a running pipeline: a spurious wakeup, or a notification of the receiver. */
  predicate Wakes(s: State, l: Label) {
    s.proc.pc == PWaiting && (l == SpuriousWakeup || (l.Receive? && s.recv.pc == RNotifying))
  }

  function Processed(s: State): nat {
    |s.log.processed|
  }

  /** A step of another thread, as far as the processor and its queue are concerned. */
  predicate LeavesProcessor(s: State, t: State, woken: bool) {
    && t.log.processed == s.log.processed
    && (s.rq.items != [] ==> t.rq.items != [])
    && t.proc.handle
    && t.proc.pc == if woken then PNotified else s.proc.pc
  }

  lemma ControlLeavesProcessor(s: State, e: CtlEvent)
    requires HandlesInv(s) && ControlInv(s) && s.status == Running && CtlEnabled(s, e)
    requires s.proc.handle
    ensures LeavesProcessor(s, CtlStep(s, e), false)
  {
  }

  lemma ReceiverLeavesProcessor(s: State, e: RecvEvent)
    requires RecvEnabled(s, e) && s.proc.handle
    ensures LeavesProcessor(s, RecvStep(s, e), s.proc.pc == PWaiting && s.recv.pc == RNotifying)
  {
  }

  lemma RestLeavesProcessor(s: State, l: Label)
    requires Enabled(s, l) && s.proc.handle && (l == Idle || l.Call? || l.Push? || l == SpuriousWakeup || l.Send?)
    ensures LeavesProcessor(s, Step(s, l), l == SpuriousWakeup)
  {
  }

  lemma OthersLeaveProcessor(s: State, l: Label)
    requires Inv(s) && s.status == Running && Enabled(s, l) && s.proc.handle && ActorOf(l) != Processor
    ensures LeavesProcessor(s, Step(s, l), Wakes(s, l))
  {
    match l
    case Control(e) => ControlLeavesProcessor(s, e);
    case Receive(e) => ReceiverLeavesProcessor(s, e);
    case _ => RestLeavesProcessor(s, l);
  }

  lemma AwakeComesCloser(s: State, l: Label)
    requires Inv(s) && s.status == Running && s.rq.items != [] && Awake(s.proc.pc) && s.proc.handle
    requires ActorOf(l) == Processor && Enabled(s, l)
    ensures var t := Step(s, l);
            if s.proc.pc == PPopping then Processed(t) == Processed(s) + 1
            else t.rq.items != [] && Awake(t.proc.pc) && t.proc.handle
                 && StepsToPop(t.proc.pc) < StepsToPop(s.proc.pc) && Processed(t) == Processed(s)
  {
  }

  lemma ParkedGoesToWait(s: State, l: Label)
    requires Inv(s) && s.status == Running && Parked(s.proc.pc) && s.proc.handle
    requires ActorOf(l) == Processor && Enabled(s, l)
    ensures var t := Step(s, l);
            t.proc.pc == PWaiting && t.proc.handle && Processed(t) == Processed(s) && t.rq == s.rq
  {
  }

  lemma LeavesStep(run: nat -> State, steps: nat -> Label, m: nat)
    requires IsInfiniteRun(run, steps) && run(m).status == Running && run(m).proc.handle
    requires ActorOf(steps(m)) != Processor
    ensures LeavesProcessor(run(m), run(m + 1), Wakes(run(m), steps(m)))
  {
    assert IsStepAt(run, steps, m);
    InfiniteRunKeepsInv(run, steps, m);
    OthersLeaveProcessor(run(m), steps(m));
  }

  lemma AwakeStep(run: nat -> State, steps: nat -> Label, m: nat)
    requires IsInfiniteRun(run, steps) && run(m).status == Running && run(m).proc.handle
    requires run(m).rq.items != [] && Awake(run(m).proc.pc) && ActorOf(steps(m)) == Processor
    ensures var s, t := run(m), run(m + 1);
            if s.proc.pc == PPopping then Processed(t) == Processed(s) + 1
            else t.rq.items != [] && Awake(t.proc.pc) && t.proc.handle
                 && StepsToPop(t.proc.pc) < StepsToPop(s.proc.pc) && Processed(t) == Processed(s)
  {
    assert IsStepAt(run, steps, m);
    InfiniteRunKeepsInv(run, steps, m);
    AwakeComesCloser(run(m), steps(m));
  }

  lemma ParkedStep(run: nat -> State, steps: nat -> Label, m: nat)
    requires IsInfiniteRun(run, steps) && run(m).status == Running && run(m).proc.handle
    requires Parked(run(m).proc.pc) && ActorOf(steps(m)) == Processor
    ensures var s, t := run(m), run(m + 1);
            t.proc.pc == PWaiting && t.proc.handle && Processed(t) == Processed(s) && t.rq == s.rq
  {
    assert IsStepAt(run, steps, m);
    InfiniteRunKeepsInv(run, steps, m);
    ParkedGoesToWait(run(m), steps(m));
  }

  ghost predicate StaysRunning(run: nat -> State, i: nat) {
    forall j: nat :: j >= i ==> run(j).status == Running
  }

  lemma {:induction false} UnmovedProcessor(run: nat -> State, steps: nat -> Label, i: nat, m: nat)
    requires IsInfiniteRun(run, steps) && StaysRunning(run, i) && i <= m
    requires run(i).proc.handle && run(i).rq.items != [] && run(i).proc.pc != PWaiting
    requires forall k :: i <= k < m ==> ActorOf(steps(k)) != Processor
    ensures run(m).proc.handle && run(m).rq.items != [] && run(m).proc.pc == run(i).proc.pc
    ensures Processed(run(m)) == Processed(run(i))
    decreases m - i
  {
    if i < m {
      UnmovedProcessor(run, steps, i, m - 1);
      LeavesStep(run, steps, m - 1);
      assert run(m - 1 + 1) == run(m);
    }
  }

  /** A processor that is awake comes to pop the message, in every run in which it is not starved and
      the pipeline keeps running. */
  lemma {:induction false} AwakePops(run: nat -> State, steps: nat -> Label, i: nat) returns (j: nat)
    requires IsInfiniteRun(run, steps) && IsServed(run, steps, Processor) && StaysRunning(run, i)
    requires run(i).proc.handle && run(i).rq.items != [] && Awake(run(i).proc.pc)
    ensures j > i && Processed(run(j)) > Processed(run(i))
    decreases StepsToPop(run(i).proc.pc)
  {
    var m := NextServed(run, steps, Processor, i);
    UnmovedProcessor(run, steps, i, m);
    AwakeStep(run, steps, m);
    if run(m).proc.pc == PPopping {
      j := m + 1;
    } else {
      j := AwakePops(run, steps, m + 1);
    }
  }

  /** Until something wakes it, the processor stays parked and pops nothing. */
  lemma {:induction false} ParkedStays(run: nat -> State, steps: nat -> Label, i: nat, m: nat)
    requires IsInfiniteRun(run, steps) && StaysRunning(run, i) && i <= m
    requires run(i).proc.handle && run(i).rq.items != [] && Parked(run(i).proc.pc)
    requires forall k :: i <= k < m ==> !Wakes(run(k), steps(k))
    ensures run(m).proc.handle && run(m).rq.items != [] && Parked(run(m).proc.pc)
    ensures Processed(run(m)) == Processed(run(i))
    decreases m - i
  {
    if i < m {
      ParkedStays(run, steps, i, m - 1);
      if ActorOf(steps(m - 1)) == Processor {
        ParkedStep(run, steps, m - 1);
      } else {
        LeavesStep(run, steps, m - 1);
      }
      assert run(m - 1 + 1) == run(m);
    }
  }

  lemma {:induction false} FirstWake(run: nat -> State, steps: nat -> Label, i: nat, j: nat) returns (w: nat)
    requires i <= j && Wakes(run(j), steps(j))
    ensures i <= w && Wakes(run(w), steps(w)) && forall k :: i <= k < w ==> !Wakes(run(k), steps(k))
    decreases j - i
  {
    if Wakes(run(i), steps(i)) {
      w := i;
    } else {
      w := FirstWake(run, steps, i + 1, j);
    }
  }

  /** A message that is queued in a running pipeline while the processor parks is processed exactly
      when the processor is woken: spuriously, or by a notification that comes while it waits. */
  lemma ParkedMessageIsProcessedIff(run: nat -> State, steps: nat -> Label, i: nat)
    requires IsInfiniteRun(run, steps) && IsServed(run, steps, Processor) && StaysRunning(run, i)
    requires run(i).proc.handle && run(i).rq.items != [] && Parked(run(i).proc.pc)
    ensures (exists j: nat :: j >= i && Processed(run(j)) > Processed(run(i)))
            <==> (exists j: nat :: j >= i && Wakes(run(j), steps(j)))
  {
    if woken: nat :| woken >= i && Wakes(run(woken), steps(woken)) {
      var w := FirstWake(run, steps, i, woken);
      ParkedStays(run, steps, i, w);
      LeavesStep(run, steps, w);
      var j := AwakePops(run, steps, w + 1);
      assert Processed(run(j)) > Processed(run(i));
    } else {
      forall j: nat | j >= i ensures Processed(run(j)) == Processed(run(i)) {
        ParkedStays(run, steps, i, j);
      }
    }
  }

  // --------------------------------------------------------------------------------------------
  // Such a state is reachable
  // --------------------------------------------------------------------------------------------

  /** A notification that is sent between the empty pop and the wait is lost. */
  lemma LostWakeupIsReachable() returns (states: seq<State>, labels: seq<Label>)
    ensures IsRun(states, labels)
    ensures states[|labels|] == LostState(30)
  {
    states, labels := [INITIAL], [];
    var n := 0;
    while n < 30
      invariant n <= 30 && |labels| == n && IsRun(states, labels)
      invariant states[n] == LostState(n)
    {
      LostGoesOn(n);
      states, labels := Extend(states, labels, LostLabel(n));
      n := n + 1;
    }
  }

  lemma LostGoesOn(n: nat)
    requires n < 30
    ensures Enabled(LostState(n), LostLabel(n))
    ensures Step(LostState(n), LostLabel(n)) == LostState(n + 1)
  {
    if n < 3 {
      LostCall(n);
    } else if n < 7 {
      LostBegins(n);
    } else if n < 16 {
      LostLaunches(n);
    } else if n < 23 {
      LostReceives(n);
    } else {
      LostParks(n);
    }
  }

  lemma LostCall(n: nat)
    requires n < 3
    ensures Enabled(LostState(n), LostLabel(n))
    ensures Step(LostState(n), LostLabel(n)) == LostState(n + 1)
  {
    assert multiset{CmdStart} - multiset{CmdStart} == multiset{};
  }

  lemma LostBegins(n: nat)
    requires 3 <= n < 7
    ensures Enabled(LostState(n), LostLabel(n))
    ensures Step(LostState(n), LostLabel(n)) == LostState(n + 1)
  {
  }

  lemma LostLaunches(n: nat)
    requires 7 <= n < 16
    ensures Enabled(LostState(n), LostLabel(n))
    ensures Step(LostState(n), LostLabel(n)) == LostState(n + 1)
  {
  }

  lemma LostReceives(n: nat)
    requires 16 <= n < 23
    ensures Enabled(LostState(n), LostLabel(n))
    ensures Step(LostState(n), LostLabel(n)) == LostState(n + 1)
  {
  }

  lemma LostParks(n: nat)
    requires 23 <= n < 30
    ensures Enabled(LostState(n), LostLabel(n))
    ensures Step(LostState(n), LostLabel(n)) == LostState(n + 1)
  {
  }

  function LostLabel(n: nat): Label {
    if n == 0 then Call(CmdStart)
    else if n == 1 then Push(CmdStart)
    else if n < 7 then Control(CGo)
    else if n < 11 then Send(SGo)
    else if n < 13 then Control(CGo)
    else if n < 16 then Process(PGo)
    else if n < 18 then Control(CGo)
    else if n < 23 then Receive(RGo)
    else if n < 26 then Process(PGo)
    else if n == 26 then Receive(RGot("m"))
    else if n < 29 then Receive(RGo)
    else Process(PGo)
  }

  /** START; the three workers come up one after the other; the processor finds the queue empty; a
      message arrives and its notification finds nobody waiting; the processor waits. */
  function LostState(n: nat): State {
    var running := INITIAL.(status := Running);
    var sending := running.(send := Worker(true, TRunning, SLoop));
    var processing := sending.(proc := Worker(true, TRunning, POuter));
    var receiving := processing.(recv := Worker(true, TRunning, RReceiving), ctl := CAwait(Receiving));
    var parking := receiving.(proc := Worker(true, TRunning, PParking),
                              log := INITIAL.log.(received := ["m"]));
    var queued := parking.(rq := Queue(["m"], false, 0));
    match n
    case 0 => INITIAL
    case 1 => INITIAL.(calls := multiset{CmdStart})
    case 2 => INITIAL.(cq := Queue([CmdStart], true, 0))
    case 3 => INITIAL.(ctl := CStartCheck)
    case 4 => INITIAL.(ctl := CStartWrite)
    case 5 => running.(ctl := CSetBlocking)
    case 6 => running.(ctl := CLaunch(Sending))
    case 7 => running.(ctl := CAwait(Sending), send := Worker(true, TUnkn, SStarting))
    case 8 => running.(ctl := CAwait(Sending), send := Worker(true, TStarting, SConnecting))
    case 9 => running.(ctl := CAwait(Sending), send := Worker(true, TStarting, SConnected))
    case 10 => running.(ctl := CAwait(Sending), send := Worker(true, TStarting, SReady))
    case 11 => sending.(ctl := CAwait(Sending))
    case 12 => sending.(ctl := CLaunch(Processing))
    case 13 => sending.(ctl := CAwait(Processing), proc := Worker(true, TUnkn, PStarting))
    case 14 => sending.(ctl := CAwait(Processing), proc := Worker(true, TStarting, PFiltras))
    case 15 => sending.(ctl := CAwait(Processing), proc := Worker(true, TStarting, PReady))
    case 16 => processing.(ctl := CAwait(Processing))
    case 17 => processing.(ctl := CLaunch(Receiving))
    case 18 => receiving.(recv := Worker(true, TUnkn, RStarting))
    case 19 => receiving.(recv := Worker(true, TStarting, RConnecting))
    case 20 => receiving.(recv := Worker(true, TStarting, RConnected))
    case 21 => receiving.(recv := Worker(true, TStarting, RReady))
    case 22 => receiving.(recv := Worker(true, TRunning, RLoop))
    case 23 => receiving
    case 24 => receiving.(proc := Worker(true, TRunning, PHead))
    case 25 => receiving.(proc := Worker(true, TRunning, PPopping))
    case 26 => receiving.(proc := Worker(true, TRunning, PParking))
    case 27 => parking.(recv := Worker(true, TRunning, RPushing("m")))
    case 28 => queued.(recv := Worker(true, TRunning, RNotifying))
    case 29 => queued.(recv := Worker(true, TRunning, RLoop))
    case _ => queued.(recv := Worker(true, TRunning, RLoop), proc := Worker(true, TRunning, PWaiting))
  }
}
