/** The control thread comes back to its queue: every command that is pushed is taken. */
module ControlTheorems {
  import opened Runtime
  import opened RuntimeTheorems

  // --------------------------------------------------------------------------------------------
  // Workers come up
  // --------------------------------------------------------------------------------------------

  /** Thread::start goes on waiting. */
  predicate StillStarting(t: ThreadState) {
    t == TStarting || t == TUnkn
  }

  /** Steps of the receiver until it reports something else; 0 once it has.  A thread state of an
      earlier run is reported until the first step. */
  function RecvComingUp(w: Worker<RecvPc>): nat {
    if !StillStarting(w.tstate) && w.pc != RStarting then 0
    else
      match w.pc
      case RStarting => 8
      case RConnecting => 7
      case RConnectFailed => 6
      case RConnected => 5
      case RReady => 4
      case RDisconnecting => 3
      case RDisconnectFailed => 2
      case RFinishing => 1
      case _ => 0
  }

  function SendComingUp(w: Worker<SendPc>): nat {
    if !StillStarting(w.tstate) && w.pc != SStarting then 0
    else
      match w.pc
      case SStarting => 8
      case SConnecting => 7
      case SConnectFailed => 6
      case SConnected => 5
      case SReady => 4
      case SDisconnecting => 3
      case SDisconnectFailed => 2
      case SFinishing => 1
      case _ => 0
  }

  function ProcComingUp(w: Worker<ProcPc>): nat {
    if !StillStarting(w.tstate) && w.pc != PStarting then 0
    else
      match w.pc
      case PStarting => 4
      case PFiltras => 3
      case PStartFailed => 2
      case PReady => 1
      case _ => 0
  }

  function ComingUp(s: State, role: Role): nat {
    match role
    case Sending => SendComingUp(s.send)
    case Processing => ProcComingUp(s.proc)
    case Receiving => RecvComingUp(s.recv)
  }

  /** A worker that still reports to be starting is on its way, and the one that is waited for
      exists. */
  predicate StartupInv(s: State) {
    && (s.recv.handle && StillStarting(s.recv.tstate) ==> RecvComingUp(s.recv) > 0)
    && (s.proc.handle && StillStarting(s.proc.tstate) ==> ProcComingUp(s.proc) > 0)
    && (s.send.handle && StillStarting(s.send.tstate) ==> SendComingUp(s.send) > 0)
    && (s.ctl.CAwait? ==> HasHandle(s, s.ctl.role))
  }

  lemma RecvKeepsStartup(s: State, e: RecvEvent)
    requires StartupInv(s) && RecvEnabled(s, e)
    ensures StartupInv(RecvStep(s, e))
  {
  }

  lemma SendKeepsStartup(s: State, e: SendEvent)
    requires StartupInv(s) && SendEnabled(s, e)
    ensures StartupInv(SendStep(s, e))
  {
  }

  lemma ProcKeepsStartup(s: State, e: ProcEvent)
    requires StartupInv(s) && ProcessorInv(s) && ProcEnabled(s, e)
    ensures StartupInv(ProcStep(s, e))
  {
  }

  lemma CtlKeepsStartup(s: State, e: CtlEvent)
    requires StartupInv(s) && CtlEnabled(s, e)
    ensures StartupInv(CtlStep(s, e))
  {
  }

  lemma StepKeepsStartup(s: State, l: Label)
    requires StartupInv(s) && ProcessorInv(s) && Enabled(s, l)
    ensures StartupInv(Step(s, l))
  {
    match l
    case Receive(e) => RecvKeepsStartup(s, e);
    case Process(e) => ProcKeepsStartup(s, e);
    case Send(e) => SendKeepsStartup(s, e);
    case Control(e) => CtlKeepsStartup(s, e);
    case _ =>
  }

  lemma {:induction false} RunKeepsStartup(run: nat -> State, steps: nat -> Label, i: nat)
    requires IsInfiniteRun(run, steps)
    ensures StartupInv(run(i))
  {
    if i > 0 {
      assert IsStepAt(run, steps, i - 1);
      RunKeepsStartup(run, steps, i - 1);
      InfiniteRunKeepsInv(run, steps, i - 1);
      StepKeepsStartup(run(i - 1), steps(i - 1));
      assert run(i - 1 + 1) == run(i);
    }
  }

  // --------------------------------------------------------------------------------------------
  // Thread::start returns
  // --------------------------------------------------------------------------------------------

  function ActorFor(role: Role): Actor {
    match role
    case Sending => Sender
    case Processing => Processor
    case Receiving => Receiver
  }

  /** The thread that has to move for the wait to end. */
  function Mover(s: State, role: Role): Actor {
    if StillStarting(ThreadStateOf(s, role)) then ActorFor(role) else Controller
  }

  lemma MoverIsReady(s: State, role: Role)
    requires StartupInv(s) && s.ctl == CAwait(role)
    ensures Ready(s, Mover(s, role))
  {
  }

  predicate ComesUp(s: State, t: State, role: Role) {
    && t.ctl == s.ctl
    && (if ComingUp(s, role) > 0 then ComingUp(t, role) < ComingUp(s, role)
        else !StillStarting(ThreadStateOf(s, role)) ==>
          ComingUp(t, role) == 0 && !StillStarting(ThreadStateOf(t, role)))
  }

  lemma ReceiverComesUp(s: State, e: RecvEvent)
    requires RecvEnabled(s, e)
    ensures ComesUp(s, RecvStep(s, e), Receiving)
  {
  }

  lemma SenderComesUp(s: State, e: SendEvent)
    requires SendEnabled(s, e)
    ensures ComesUp(s, SendStep(s, e), Sending)
  {
  }

  lemma ProcessorComesUp(s: State, e: ProcEvent)
    requires ProcEnabled(s, e)
    ensures ComesUp(s, ProcStep(s, e), Processing)
  {
  }

  lemma WorkerComesUp(s: State, l: Label, role: Role)
    requires Enabled(s, l) && ActorOf(l) == ActorFor(role)
    ensures ComesUp(s, Step(s, l), role)
  {
    match l
    case Receive(e) => ReceiverComesUp(s, e);
    case Process(e) => ProcessorComesUp(s, e);
    case Send(e) => SenderComesUp(s, e);
    case _ => assert false;
  }

  /** As far as starting is concerned, the two states agree on this worker. */
  predicate SameStartup(s: State, t: State, role: Role) {
    && t.ctl == s.ctl && ThreadStateOf(t, role) == ThreadStateOf(s, role)
    && ComingUp(t, role) == ComingUp(s, role)
  }

  lemma ReceiverLeavesWorker(s: State, e: RecvEvent, role: Role)
    requires RecvEnabled(s, e) && role != Receiving
    ensures SameStartup(s, RecvStep(s, e), role)
  {
  }

  lemma ProcessorLeavesWorker(s: State, e: ProcEvent, role: Role)
    requires ProcEnabled(s, e) && role != Processing
    ensures SameStartup(s, ProcStep(s, e), role)
  {
  }

  lemma SenderLeavesWorker(s: State, e: SendEvent, role: Role)
    requires SendEnabled(s, e) && role != Sending
    ensures SameStartup(s, SendStep(s, e), role)
  {
  }

  lemma OthersLeaveWorker(s: State, l: Label, role: Role)
    requires Enabled(s, l) && ActorOf(l) != ActorFor(role) && ActorOf(l) != Controller
    ensures SameStartup(s, Step(s, l), role)
  {
    match l
    case Receive(e) => ReceiverLeavesWorker(s, e, role);
    case Process(e) => ProcessorLeavesWorker(s, e, role);
    case Send(e) => SenderLeavesWorker(s, e, role);
    case _ =>
  }

  lemma ControlWaits(s: State, e: CtlEvent, role: Role)
    requires s.ctl == CAwait(role) && CtlEnabled(s, e)
    ensures var t := CtlStep(s, e);
            || t.ctl == CThrown
            || (t.ctl == AfterAwait(role) && !StillStarting(ThreadStateOf(s, role)))
            || (t == s && StillStarting(ThreadStateOf(s, role)))
  {
  }

  /** One step of a wait: it ends, the worker comes closer, or nothing changes and the thread that
      has to move has not moved. */
  ghost predicate AwaitGoesOn(s: State, t: State, role: Role, a: Actor) {
    || t.ctl == CThrown
    || t.ctl == AfterAwait(role)
    || (t.ctl == s.ctl && ComingUp(t, role) < ComingUp(s, role))
    || (t.ctl == s.ctl && ComingUp(t, role) == ComingUp(s, role)
        && Mover(t, role) == Mover(s, role) && a != Mover(s, role))
  }

  lemma AwaitStep(s: State, l: Label, role: Role)
    requires StartupInv(s) && Enabled(s, l) && s.ctl == CAwait(role)
    ensures AwaitGoesOn(s, Step(s, l), role, ActorOf(l))
  {
    if ActorOf(l) == ActorFor(role) {
      WorkerComesUp(s, l, role);
    } else if l.Control? {
      ControlWaits(s, l.c, role);
    } else {
      OthersLeaveWorker(s, l, role);
    }
  }

  ghost predicate AwaitAt(run: nat -> State, steps: nat -> Label, m: nat) {
    run(m).ctl.CAwait? ==>
      && Ready(run(m), Mover(run(m), run(m).ctl.role))
      && AwaitGoesOn(run(m), run(m + 1), run(m).ctl.role, ActorOf(steps(m)))
  }

  lemma RunAwaits(run: nat -> State, steps: nat -> Label, m: nat)
    requires IsInfiniteRun(run, steps)
    ensures AwaitAt(run, steps, m)
  {
    assert IsStepAt(run, steps, m);
    RunKeepsStartup(run, steps, m);
    if run(m).ctl.CAwait? {
      MoverIsReady(run(m), run(m).ctl.role);
      AwaitStep(run(m), steps(m), run(m).ctl.role);
    }
  }

  lemma {:induction false} AwaitEnds(run: nat -> State, steps: nat -> Label, i: nat, role: Role) returns (j: nat)
    requires Fair(run, steps) && run(i).ctl == CAwait(role)
    requires forall m: nat :: AwaitAt(run, steps, m)
    ensures j > i && (run(j).ctl == CThrown || run(j).ctl == AfterAwait(role))
    ensures forall k :: i <= k < j ==> run(k).ctl == CAwait(role)
    decreases ComingUp(run(i), role)
  {
    var mover := Mover(run(i), role);
    assert IsServed(run, steps, mover);
    var served := NextServed(run, steps, mover, i);
    var m := i;
    while true
      invariant i <= m <= served
      invariant forall k :: i <= k <= m ==> run(k).ctl == CAwait(role)
      invariant ComingUp(run(m), role) == ComingUp(run(i), role) && Mover(run(m), role) == mover
      decreases served - m
    {
      assert AwaitAt(run, steps, m);
      if run(m + 1).ctl != CAwait(role) {
        return m + 1;
      }
      if ComingUp(run(m + 1), role) < ComingUp(run(i), role) {
        j := AwaitEnds(run, steps, m + 1, role);
        return;
      }
      m := m + 1;
    }
  }

  // --------------------------------------------------------------------------------------------
  // The control thread comes back to its queue
  // --------------------------------------------------------------------------------------------

  function NextOf(c: CtlPc): Then
    requires InStop(c)
  {
    c.next
  }

  /** How far a control point is from the queue: the control points lie on paths without loops. */
  function Stage(c: CtlPc): nat {
    match c
    case CIdle => 0
    case CWriteTerminated => 1
    case CThrown => 1
    case CAwait(Receiving) => 2
    case CLaunch(Receiving) => 3
    case CAwait(Processing) => 4
    case CLaunch(Processing) => 5
    case CAwait(Sending) => 6
    case CLaunch(Sending) => 7
    case CSetBlocking => 8
    case CStartWrite => 9
    case CStartCheck => 11
    case CDead => 0
    case _ => if NextOf(c) == ThenStart then 12 else 10
  }

  /** Control points that every step of the control thread leaves. */
  predicate IsSimple(c: CtlPc) {
    c != CIdle && c != CDead && !c.CAwait? && !InStop(c)
  }

  lemma SimpleGoesOn(s: State, e: CtlEvent)
    requires LifeInv(s) && CtlEnabled(s, e) && IsSimple(s.ctl)
    ensures Stage(CtlStep(s, e).ctl) < Stage(s.ctl)
  {
  }

  lemma OthersLeaveControl(s: State, l: Label)
    requires Enabled(s, l) && ActorOf(l) != Controller
    ensures Step(s, l).ctl == s.ctl && s.cq.items <= Step(s, l).cq.items
  {
  }

  lemma ControlKeepsQueue(s: State, e: CtlEvent)
    requires CtlEnabled(s, e) && s.ctl != CIdle
    ensures CtlStep(s, e).cq.items == s.cq.items
  {
  }

  lemma StopKeepsNext(s: State, e: CtlEvent)
    requires InStop(s.ctl) && CtlEnabled(s, e)
    ensures var c := CtlStep(s, e).ctl;
            if InStop(c) && c != Return(NextOf(s.ctl)) then NextOf(c) == NextOf(s.ctl) else Stage(c) < Stage(s.ctl)
  {
  }

  lemma {:induction false} ControlRests(run: nat -> State, steps: nat -> Label, i: nat, m: nat)
    requires IsInfiniteRun(run, steps) && i <= m
    requires forall k :: i <= k < m ==> ActorOf(steps(k)) != Controller
    ensures run(m).ctl == run(i).ctl && run(i).cq.items <= run(m).cq.items
    decreases m - i
  {
    if i < m {
      assert IsStepAt(run, steps, m - 1);
      ControlRests(run, steps, i, m - 1);
      OthersLeaveControl(run(m - 1), steps(m - 1));
      assert run(m - 1 + 1) == run(m);
    }
  }

  lemma QueueStep(run: nat -> State, steps: nat -> Label, m: nat)
    requires IsInfiniteRun(run, steps) && run(m).ctl != CIdle
    ensures run(m).cq.items <= run(m + 1).cq.items
  {
    assert IsStepAt(run, steps, m);
    if ActorOf(steps(m)) == Controller {
      ControlKeepsQueue(run(m), steps(m).c);
    } else {
      OthersLeaveControl(run(m), steps(m));
    }
  }

  lemma {:induction false} PrefixesChain(run: nat -> State, i: nat, m: nat)
    requires i <= m && forall k :: i <= k < m ==> run(k).cq.items <= run(k + 1).cq.items
    ensures run(i).cq.items <= run(m).cq.items
    decreases m - i
  {
    if i < m {
      PrefixesChain(run, i, m - 1);
      assert run(m - 1).cq.items <= run(m - 1 + 1).cq.items;
    }
  }

  /** While the control thread is away from its queue, commands are only added. */
  lemma QueueGrows(run: nat -> State, steps: nat -> Label, i: nat, m: nat)
    requires IsInfiniteRun(run, steps) && i <= m
    requires forall k :: i <= k < m ==> run(k).ctl != CIdle
    ensures run(i).cq.items <= run(m).cq.items
  {
    forall k | i <= k < m ensures run(k).cq.items <= run(k + 1).cq.items {
      QueueStep(run, steps, k);
    }
    PrefixesChain(run, i, m);
  }

  /** The control thread makes its next step from where it is. */
  lemma ControlMoves(run: nat -> State, steps: nat -> Label, i: nat) returns (m: nat)
    requires IsInfiniteRun(run, steps) && Fair(run, steps)
    requires || IsSimple(run(i).ctl) || run(i).ctl.CStopCheck? || run(i).ctl.CStopWrite?
             || (run(i).ctl == CIdle && run(i).cq.items != [])
    ensures m >= i && ActorOf(steps(m)) == Controller
    ensures forall k :: i <= k <= m ==> run(k).ctl == run(i).ctl
    ensures run(i).cq.items <= run(m).cq.items
  {
    assert IsServed(run, steps, Controller);
    m := NextServed(run, steps, Controller, i);
    forall k | i <= k <= m ensures run(k).ctl == run(i).ctl && run(i).cq.items <= run(k).cq.items {
      ControlRests(run, steps, i, k);
    }
    assert Ready(run(m), Controller);
  }

  /** A step of execute_stop leads on to what comes after it or stays in front of the same. */
  predicate StopGoesOn(c: CtlPc, next: CtlPc) {
    Stage(next) < Stage(c) || (InStop(next) && Stage(next) == Stage(c))
  }

  lemma StopStageStep(run: nat -> State, steps: nat -> Label, m: nat)
    requires IsInfiniteRun(run, steps) && InStop(run(m).ctl)
    ensures StopGoesOn(run(m).ctl, run(m + 1).ctl)
  {
    assert IsStepAt(run, steps, m);
    if ActorOf(steps(m)) == Controller {
      StopKeepsNext(run(m), steps(m).c);
    } else {
      OthersLeaveControl(run(m), steps(m));
    }
  }

  lemma {:induction false} StopStaysInStop(run: nat -> State, i: nat, done: nat) returns (j: nat)
    requires i <= done && InStop(run(i).ctl) && !InStop(run(done).ctl)
    requires forall m: nat :: InStop(run(m).ctl) ==> StopGoesOn(run(m).ctl, run(m + 1).ctl)
    ensures i < j && Stage(run(j).ctl) < Stage(run(i).ctl)
    ensures forall k :: i <= k < j ==> run(k).ctl != CIdle
    decreases done - i
  {
    if Stage(run(i + 1).ctl) < Stage(run(i).ctl) {
      j := i + 1;
    } else {
      j := StopStaysInStop(run, i + 1, done);
    }
  }

  /** execute_stop keeps where it returns to, until it returns. */
  lemma StopReturns(run: nat -> State, steps: nat -> Label, i: nat) returns (j: nat)
    requires IsInfiniteRun(run, steps) && Fair(run, steps) && InStop(run(i).ctl)
    ensures i < j && Stage(run(j).ctl) < Stage(run(i).ctl)
    ensures forall k :: i <= k < j ==> run(k).ctl != CIdle
  {
    var done := StopAlwaysFinishes(run, steps, i);
    forall m: nat | InStop(run(m).ctl) ensures StopGoesOn(run(m).ctl, run(m + 1).ctl) {
      StopStageStep(run, steps, m);
    }
    j := StopStaysInStop(run, i, done);
  }

  lemma SimpleStep(run: nat -> State, steps: nat -> Label, m: nat)
    requires IsInfiniteRun(run, steps) && steps(m).Control? && IsSimple(run(m).ctl)
    ensures Stage(run(m + 1).ctl) < Stage(run(m).ctl)
  {
    assert IsStepAt(run, steps, m);
    InfiniteRunKeepsInv(run, steps, m);
    SimpleGoesOn(run(m), steps(m).c);
  }

  lemma NextStage(run: nat -> State, steps: nat -> Label, i: nat) returns (j: nat)
    requires IsInfiniteRun(run, steps) && Fair(run, steps) && run(i).ctl != CIdle
    ensures j > i && Stage(run(j).ctl) < Stage(run(i).ctl)
    ensures forall k :: i <= k < j ==> run(k).ctl != CIdle
  {
    InfiniteRunKeepsInv(run, steps, i);
    AliveControl(run(i));
    if InStop(run(i).ctl) {
      j := StopReturns(run, steps, i);
    } else if run(i).ctl.CAwait? {
      forall m: nat ensures AwaitAt(run, steps, m) {
        RunAwaits(run, steps, m);
      }
      j := AwaitEnds(run, steps, i, run(i).ctl.role);
    } else {
      var m := ControlMoves(run, steps, i);
      SimpleStep(run, steps, m);
      j := m + 1;
    }
  }

  lemma {:induction false} IdleAgain(run: nat -> State, steps: nat -> Label, i: nat) returns (j: nat)
    requires IsInfiniteRun(run, steps) && Fair(run, steps)
    ensures j >= i && run(j).ctl == CIdle
    ensures forall k :: i <= k < j ==> run(k).ctl != CIdle
    decreases Stage(run(i).ctl)
  {
    if run(i).ctl == CIdle {
      j := i;
    } else {
      var next := NextStage(run, steps, i);
      j := IdleAgain(run, steps, next);
    }
  }

  // --------------------------------------------------------------------------------------------
  // Commands
  // --------------------------------------------------------------------------------------------

  /** The control thread takes this command at step `j`. */
  ghost predicate Takes(run: nat -> State, steps: nat -> Label, j: nat, cmd: Command) {
    && run(j).ctl == CIdle && ActorOf(steps(j)) == Controller
    && run(j).cq.items != [] && run(j).cq.items[0] == cmd
    && run(j + 1).cq.items == run(j).cq.items[1..] && run(j + 1).ctl == Dispatch(cmd)
  }

  lemma FirstCommandIsTaken(run: nat -> State, steps: nat -> Label, i: nat) returns (j: nat)
    requires IsInfiniteRun(run, steps) && Fair(run, steps) && run(i).cq.items != []
    ensures j >= i && Takes(run, steps, j, run(i).cq.items[0])
    ensures run(i).cq.items <= run(j).cq.items
  {
    var idle := IdleAgain(run, steps, i);
    QueueGrows(run, steps, i, idle);
    j := ControlMoves(run, steps, idle);
    assert IsStepAt(run, steps, j);
  }

  /** In every fair run every command is taken: those in front of it keep the control thread busy,
      with execute_start and execute_stop, only for a while. */
  lemma {:induction false} EveryCommandIsTaken(run: nat -> State, steps: nat -> Label, i: nat, n: nat) returns (j: nat)
    requires IsInfiniteRun(run, steps) && Fair(run, steps) && n < |run(i).cq.items|
    ensures j >= i && Takes(run, steps, j, run(i).cq.items[n])
    decreases n
  {
    var first := FirstCommandIsTaken(run, steps, i);
    if n == 0 {
      j := first;
    } else {
      j := EveryCommandIsTaken(run, steps, first + 1, n - 1);
    }
  }

  /** The control thread never ends, in no run of a prepared pipeline, so the destructor that joins
      it never returns. */
  lemma ControlThreadNeverEnds(run: nat -> State, steps: nat -> Label, i: nat)
    requires IsInfiniteRun(run, steps)
    ensures run(i).ctl != CDead
  {
    InfiniteRunKeepsInv(run, steps, i);
    AliveControl(run(i));
  }
}
