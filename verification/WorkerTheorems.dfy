/** What the worker threads keep doing: outputs are sent while the pipeline keeps running, received
    messages get into the receive queue, and every failure is recorded. */
module WorkerTheorems {
  import opened Queues
  import opened Runtime
  import opened RuntimeTheorems
  import opened WakeupTheorems

  // --------------------------------------------------------------------------------------------
  // A live worker is left alone by the others
  // --------------------------------------------------------------------------------------------

  lemma ControlLeavesLive(s: State, e: CtlEvent)
    requires HandlesInv(s) && CtlEnabled(s, e)
    ensures var t := CtlStep(s, e);
            && (s.recv.pc != RExited ==> t.recv == s.recv)
            && (s.send.pc != SExited ==> t.send == s.send)
            && (s.proc.pc != PExited && s.proc.pc != PWaiting ==> t.proc == s.proc)
  {
  }

  lemma ReceiverIsLeft(s: State, l: Label)
    requires HandlesInv(s) && Enabled(s, l) && s.recv.pc != RExited && ActorOf(l) != Receiver
    ensures Step(s, l).recv == s.recv
  {
    if l.Control? {
      ControlLeavesLive(s, l.c);
    }
  }

  lemma SenderIsLeft(s: State, l: Label)
    requires HandlesInv(s) && Enabled(s, l) && s.send.pc != SExited && ActorOf(l) != Sender
    ensures Step(s, l).send == s.send
  {
    if l.Control? {
      ControlLeavesLive(s, l.c);
    }
  }

  lemma ProcessorIsLeft(s: State, l: Label)
    requires HandlesInv(s) && Enabled(s, l) && ActorOf(l) != Processor
    requires s.proc.pc != PExited && s.proc.pc != PWaiting
    ensures Step(s, l).proc == s.proc
  {
    if l.Control? {
      ControlLeavesLive(s, l.c);
    }
  }

  /** The worker is at a point that it leaves with its next step, whatever the others do. */
  predicate AtPoint(s: State, a: Actor, at: State) {
    match a
    case Receiver => s.recv == at.recv && s.recv.handle && s.recv.pc != RExited && s.recv.pc != RReceiving
    case Sender => s.send == at.send && s.send.handle && s.send.pc != SExited && s.send.pc != SPopping
    case Processor => s.proc == at.proc && s.proc.handle && s.proc.pc != PExited && s.proc.pc != PWaiting
    case _ => false
  }

  lemma PointIsLeft(s: State, l: Label, a: Actor, at: State)
    requires HandlesInv(s) && Enabled(s, l) && AtPoint(s, a, at) && ActorOf(l) != a
    ensures AtPoint(Step(s, l), a, at)
  {
    match a
    case Receiver => ReceiverIsLeft(s, l);
    case Sender => SenderIsLeft(s, l);
    case Processor => ProcessorIsLeft(s, l);
  }

  ghost predicate LeftAt(run: nat -> State, steps: nat -> Label, a: Actor, at: State, m: nat) {
    AtPoint(run(m), a, at) ==> Ready(run(m), a) && (ActorOf(steps(m)) != a ==> AtPoint(run(m + 1), a, at))
  }

  lemma RunLeaves(run: nat -> State, steps: nat -> Label, a: Actor, at: State, m: nat)
    requires IsInfiniteRun(run, steps)
    ensures LeftAt(run, steps, a, at, m)
  {
    assert IsStepAt(run, steps, m);
    InfiniteRunKeepsInv(run, steps, m);
    if AtPoint(run(m), a, at) && ActorOf(steps(m)) != a {
      PointIsLeft(run(m), steps(m), a, at);
    }
  }

  /** The worker makes its next step from where it is. */
  lemma WorkerMovesOn(run: nat -> State, steps: nat -> Label, a: Actor, i: nat) returns (m: nat)
    requires IsInfiniteRun(run, steps) && IsServed(run, steps, a) && AtPoint(run(i), a, run(i))
    ensures m >= i && ActorOf(steps(m)) == a && AtPoint(run(m), a, run(i))
    ensures forall k :: i <= k < m ==> ActorOf(steps(k)) != a
    ensures forall k :: i <= k <= m ==> AtPoint(run(k), a, run(i))
  {
    m := NextServed(run, steps, a, i);
    var k := i;
    while k < m
      invariant i <= k <= m && forall n :: i <= n <= k ==> AtPoint(run(n), a, run(i))
    {
      RunLeaves(run, steps, a, run(i), k);
      k := k + 1;
    }
    RunLeaves(run, steps, a, run(i), m);
  }

  // --------------------------------------------------------------------------------------------
  // Failures
  // --------------------------------------------------------------------------------------------

  /** Connecting or disconnecting throws, a filtra fails to start, or an exception leaves `process`. */
  predicate Fails(s: State, l: Label) {
    || (l == Receive(RFail) && (s.recv.pc == RConnecting || s.recv.pc == RDisconnecting))
    || (l == Send(SFail) && (s.send.pc == SConnecting || s.send.pc == SDisconnecting))
    || (l == Process(PFail) && s.proc.pc == PFiltras)
    || (l == Process(PThrow) && s.proc.pc.PWalking?)
  }

  /** The exception is caught and not yet recorded. */
  predicate Caught(s: State, a: Actor) {
    match a
    case Receiver => s.recv.pc == RConnectFailed || s.recv.pc == RDisconnectFailed
    case Sender => s.send.pc == SConnectFailed || s.send.pc == SDisconnectFailed
    case Processor => s.proc.pc == PStartFailed || s.proc.pc == PThrown
    case _ => false
  }

  lemma FailureIsCaught(s: State, l: Label)
    requires Enabled(s, l) && Fails(s, l)
    ensures Caught(Step(s, l), ActorOf(l)) && AtPoint(Step(s, l), ActorOf(l), Step(s, l))
  {
  }

  lemma CaughtIsRecorded(s: State, l: Label, at: State)
    requires Enabled(s, l) && AtPoint(s, ActorOf(l), at) && Caught(at, ActorOf(l))
    ensures Step(s, l).status == Failed
  {
  }

  lemma FailureStep(run: nat -> State, steps: nat -> Label, i: nat)
    requires IsInfiniteRun(run, steps) && Fails(run(i), steps(i))
    ensures Caught(run(i + 1), ActorOf(steps(i))) && AtPoint(run(i + 1), ActorOf(steps(i)), run(i + 1))
  {
    assert IsStepAt(run, steps, i);
    FailureIsCaught(run(i), steps(i));
  }

  lemma RecordStep(run: nat -> State, steps: nat -> Label, m: nat, at: State)
    requires IsInfiniteRun(run, steps) && AtPoint(run(m), ActorOf(steps(m)), at) && Caught(at, ActorOf(steps(m)))
    ensures run(m + 1).status == Failed
  {
    assert IsStepAt(run, steps, m);
    CaughtIsRecorded(run(m), steps(m), at);
  }

  /** In every fair run every failure makes the pipeline FAILED, whatever the controller does. */
  lemma FailureIsRecorded(run: nat -> State, steps: nat -> Label, i: nat) returns (j: nat)
    requires IsInfiniteRun(run, steps) && Fair(run, steps) && Fails(run(i), steps(i))
    ensures j > i && run(j).status == Failed
  {
    var a := ActorOf(steps(i));
    FailureStep(run, steps, i);
    assert IsThread(a) && IsServed(run, steps, a);
    var m := WorkerMovesOn(run, steps, a, i + 1);
    RecordStep(run, steps, m, run(i + 1));
    j := m + 1;
  }

  // --------------------------------------------------------------------------------------------
  // The receiver
  // --------------------------------------------------------------------------------------------

  predicate IsReceiving(pc: RecvPc) {
    pc == RLoop || pc == RReceiving || pc.RPushing? || pc == RNotifying
  }

  /** While the pipeline is RUNNING, only an underflow ends the loop of the receiver; a receive that
      throws anything else does not. */
  lemma ReceiverKeepsOn(s: State, l: Label)
    requires Inv(s) && Enabled(s, l) && s.status == Running && IsReceiving(s.recv.pc)
    requires l != Receive(RUnderflow)
    ensures IsReceiving(Step(s, l).recv.pc)
  {
    if !l.Receive? {
      ReceiverIsLeft(s, l);
    }
  }

  lemma ReceiveStep(run: nat -> State, steps: nat -> Label, i: nat)
    requires IsInfiniteRun(run, steps) && steps(i).Receive? && steps(i).r.RGot?
    ensures run(i + 1).recv.pc == RPushing(steps(i).r.msg) && run(i + 1).recv.handle
    ensures run(i + 1).log.received == run(i).log.received + [steps(i).r.msg]
  {
    assert IsStepAt(run, steps, i);
  }

  lemma PushStep(run: nat -> State, steps: nat -> Label, m: nat)
    requires IsInfiniteRun(run, steps) && steps(m).Receive? && run(m).recv.pc.RPushing?
    ensures run(m + 1).recv.pc == RNotifying && run(m + 1).log.received == run(m).log.received
    ensures var t := run(m + 1); t.log.received == t.log.processed + t.rq.items
  {
    assert IsStepAt(run, steps, m);
    InfiniteRunKeepsInv(run, steps, m + 1);
    var t := run(m + 1);
    assert t.log.processed + t.rq.items + [] == t.log.processed + t.rq.items;
  }

  lemma {:induction false} NothingReceived(run: nat -> State, steps: nat -> Label, i: nat, m: nat)
    requires IsInfiniteRun(run, steps) && i <= m
    requires forall k :: i <= k < m ==> ActorOf(steps(k)) != Receiver
    ensures run(m).log.received == run(i).log.received
    decreases m - i
  {
    if i < m {
      assert IsStepAt(run, steps, m - 1);
      NothingReceived(run, steps, i, m - 1);
      InfiniteRunKeepsInv(run, steps, m - 1);
      StepExtendsLog(run(m - 1), steps(m - 1));
      assert run(m - 1 + 1) == run(m);
    }
  }

  /** In every fair run, whatever the connector delivers comes into the receive queue, at its place
      in receive order, even when the pipeline is stopped meanwhile. */
  lemma ReceivedIsQueued(run: nat -> State, steps: nat -> Label, i: nat) returns (j: nat)
    requires IsInfiniteRun(run, steps) && IsServed(run, steps, Receiver)
    requires steps(i).Receive? && steps(i).r.RGot?
    ensures j > i
    ensures run(j).log.processed + run(j).rq.items == run(i).log.received + [steps(i).r.msg]
  {
    ReceiveStep(run, steps, i);
    var m := WorkerMovesOn(run, steps, Receiver, i + 1);
    NothingReceived(run, steps, i + 1, m);
    PushStep(run, steps, m);
    j := m + 1;
  }

  // --------------------------------------------------------------------------------------------
  // The processor
  // --------------------------------------------------------------------------------------------

  predicate IsProcessing(pc: ProcPc) {
    Awake(pc) || Parked(pc) || pc.PWalking?
  }

  /** The processor leaves its loops only by an exception that `process` does not handle, or after a
      wakeup in a pipeline that is not RUNNING; an underflow inside `process` sends it to wait. */
  lemma ProcessorKeepsOn(s: State, l: Label)
    requires Inv(s) && Enabled(s, l) && s.proc.handle && IsProcessing(s.proc.pc)
    requires l != Process(PThrow) && (s.proc.pc == POuter ==> s.status == Running)
    ensures IsProcessing(Step(s, l).proc.pc)
    ensures l == Process(PUnderflow) ==> Step(s, l).proc.pc == PParking
  {
    if l.Process? {
      ProcessorStays(s, l.p);
    } else {
      OthersKeepProcessing(s, l);
    }
  }

  lemma ProcessorStays(s: State, e: ProcEvent)
    requires ProcEnabled(s, e) && ProcessorInv(s) && IsProcessing(s.proc.pc)
    requires e != PThrow && (s.proc.pc == POuter ==> s.status == Running)
    ensures IsProcessing(ProcStep(s, e).proc.pc)
    ensures e == PUnderflow ==> ProcStep(s, e).proc.pc == PParking
  {
  }

  lemma OthersKeepProcessing(s: State, l: Label)
    requires HandlesInv(s) && Enabled(s, l) && !l.Process? && IsProcessing(s.proc.pc) && s.proc.handle
    ensures var t := Step(s, l); t.proc.pc == s.proc.pc || (s.proc.pc == PWaiting && t.proc.pc == PNotified)
  {
    if l.Control? {
      ControlKeepsProcessing(s, l.c);
    }
  }

  lemma ControlKeepsProcessing(s: State, e: CtlEvent)
    requires HandlesInv(s) && CtlEnabled(s, e) && IsProcessing(s.proc.pc) && s.proc.handle
    ensures var t := CtlStep(s, e); t.proc.pc == s.proc.pc || (s.proc.pc == PWaiting && t.proc.pc == PNotified)
  {
  }

  // --------------------------------------------------------------------------------------------
  // The sender
  // --------------------------------------------------------------------------------------------

  /** A RUNNING pipeline has a send queue on which the sender waits. */
  predicate BlockingInv(s: State) {
    s.status == Running && s.ctl != CSetBlocking ==> s.sq.blocking
  }

  lemma ControlKeepsBlocking(s: State, e: CtlEvent)
    requires LifeInv(s) && CtlEnabled(s, e) && BlockingInv(s)
    ensures BlockingInv(CtlStep(s, e))
  {
  }

  lemma OthersKeepBlocking(s: State, l: Label)
    requires Enabled(s, l) && !l.Control? && BlockingInv(s)
    ensures BlockingInv(Step(s, l))
  {
  }

  lemma {:induction false} RunKeepsBlocking(run: nat -> State, steps: nat -> Label, i: nat)
    requires IsInfiniteRun(run, steps)
    ensures BlockingInv(run(i))
  {
    if i > 0 {
      assert IsStepAt(run, steps, i - 1);
      RunKeepsBlocking(run, steps, i - 1);
      InfiniteRunKeepsInv(run, steps, i - 1);
      if steps(i - 1).Control? {
        ControlKeepsBlocking(run(i - 1), steps(i - 1).c);
      } else {
        OthersKeepBlocking(run(i - 1), steps(i - 1));
      }
      assert run(i - 1 + 1) == run(i);
    }
  }

  predicate IsSending(s: State) {
    s.send.handle && (s.send.pc == SLoop || s.send.pc == SPopping || s.send.pc.SSending?)
  }

  /** Steps of the sender until its next attempt has been made. */
  function StepsToAttempt(pc: SendPc): nat {
    match pc
    case SLoop => 3
    case SPopping => 2
    case SSending(_) => 1
    case _ => 0
  }

  /** What `process` has pushed and the sender has not tried to send. */
  function Outstanding(s: State): seq<Out> {
    InFlight(s) + s.sq.items
  }

  /** One step while the pipeline is RUNNING: the sender comes closer, an attempt is made, or nothing
      but new outputs happens to it. */
  ghost predicate SendsOn(s: State, t: State, a: Actor) {
    && IsSending(t) && s.log.pushed <= t.log.pushed
    && (|| (t.log.attempted == s.log.attempted
            && (if a == Sender then StepsToAttempt(t.send.pc) < StepsToAttempt(s.send.pc) else t.send == s.send))
        || |t.log.attempted| == |s.log.attempted| + 1)
  }

  lemma SenderSendsOn(s: State, e: SendEvent)
    requires BlockingInv(s) && s.status == Running && s.ctl != CSetBlocking && IsSending(s) && SendEnabled(s, e)
    requires e != SUnderflow
    ensures SendsOn(s, SendStep(s, e), Sender)
  {
  }

  lemma OthersSendNothing(s: State, l: Label)
    requires Inv(s) && IsSending(s) && Enabled(s, l) && ActorOf(l) != Sender
    ensures SendsOn(s, Step(s, l), ActorOf(l))
  {
    SenderIsLeft(s, l);
    OthersKeepHistory(s, l);
  }

  lemma OthersKeepHistory(s: State, l: Label)
    requires Enabled(s, l) && ActorOf(l) != Sender
    ensures Step(s, l).log.attempted == s.log.attempted && s.log.pushed <= Step(s, l).log.pushed
  {
  }

  ghost predicate Delivering(run: nat -> State, steps: nat -> Label, m: nat) {
    run(m).status == Running && steps(m) != Send(SUnderflow)
  }

  lemma RunSendsOn(run: nat -> State, steps: nat -> Label, m: nat)
    requires IsInfiniteRun(run, steps) && Delivering(run, steps, m) && IsSending(run(m))
    ensures SendsOn(run(m), run(m + 1), ActorOf(steps(m)))
    ensures |run(m).log.attempted| < |run(m).log.pushed| ==> Ready(run(m), Sender)
  {
    assert IsStepAt(run, steps, m);
    InfiniteRunKeepsInv(run, steps, m);
    RunKeepsBlocking(run, steps, m);
    OutstandingIsThere(run(m));
    if ActorOf(steps(m)) == Sender {
      SenderSendsOn(run(m), steps(m).s);
    } else {
      OthersSendNothing(run(m), steps(m));
    }
  }

  lemma OutstandingIsThere(s: State)
    requires Inv(s) && IsSending(s)
    ensures s.log.pushed == s.log.attempted + Outstanding(s)
    ensures |s.log.attempted| < |s.log.pushed| ==> Ready(s, Sender)
  {
    assert (s.log.attempted + InFlight(s)) + s.sq.items == s.log.attempted + Outstanding(s);
  }

  ghost predicate SendsOnAt(run: nat -> State, steps: nat -> Label, m: nat) {
    IsSending(run(m)) ==>
      && SendsOn(run(m), run(m + 1), ActorOf(steps(m)))
      && (|run(m).log.attempted| < |run(m).log.pushed| ==> Ready(run(m), Sender))
  }

  /** The next attempt is made. */
  lemma {:induction false} NextAttempt(run: nat -> State, steps: nat -> Label, i: nat) returns (j: nat)
    requires IsServed(run, steps, Sender) && IsSending(run(i))
    requires forall m: nat :: m >= i ==> SendsOnAt(run, steps, m)
    requires |run(i).log.attempted| < |run(i).log.pushed|
    ensures j > i && IsSending(run(j)) && |run(j).log.attempted| == |run(i).log.attempted| + 1
    ensures run(i).log.pushed <= run(j).log.pushed
    decreases StepsToAttempt(run(i).send.pc)
  {
    var served := NextServed(run, steps, Sender, i);
    var m := i;
    while true
      invariant i <= m <= served
      invariant IsSending(run(m)) && run(m).send == run(i).send
      invariant run(m).log.attempted == run(i).log.attempted && run(i).log.pushed <= run(m).log.pushed
      decreases served - m
    {
      assert SendsOnAt(run, steps, m);
      if |run(m + 1).log.attempted| == |run(i).log.attempted| + 1 {
        return m + 1;
      }
      if ActorOf(steps(m)) == Sender {
        j := NextAttempt(run, steps, m + 1);
        return;
      }
      m := m + 1;
    }
  }

  lemma {:induction false} AttemptsFrom(run: nat -> State, steps: nat -> Label, i: nat, n: nat, left: int) returns (j: nat)
    requires IsServed(run, steps, Sender) && IsSending(run(i))
    requires forall m: nat :: m >= i ==> SendsOnAt(run, steps, m)
    requires n < |run(i).log.pushed| && left == n + 1 - |run(i).log.attempted|
    ensures j >= i && |run(j).log.attempted| > n && run(i).log.pushed <= run(j).log.pushed
    decreases left
  {
    if left <= 0 {
      j := i;
    } else {
      var next := NextAttempt(run, steps, i);
      j := AttemptsFrom(run, steps, next, n, left - 1);
    }
  }

  ghost predicate NoUnderflow(run: nat -> State, steps: nat -> Label, i: nat) {
    forall m: nat :: m >= i ==> steps(m) != Send(SUnderflow)
  }

  /** While the pipeline keeps running and the connector reports no underflow, every output that
      `process` has pushed gets its one attempt to be sent, at its place in the order of pushing,
      also when attempts in front of it fail. */
  lemma EveryOutputIsAttempted(run: nat -> State, steps: nat -> Label, i: nat, n: nat) returns (j: nat)
    requires IsInfiniteRun(run, steps) && IsServed(run, steps, Sender)
    requires StaysRunning(run, i) && NoUnderflow(run, steps, i) && IsSending(run(i))
    requires n < |run(i).log.pushed|
    ensures j >= i && n < |run(j).log.attempted| && run(j).log.attempted[n] == run(i).log.pushed[n]
  {
    forall m: nat | m >= i ensures SendsOnAt(run, steps, m) {
      if IsSending(run(m)) {
        assert Delivering(run, steps, m);
        RunSendsOn(run, steps, m);
      }
    }
    j := AttemptsFrom(run, steps, i, n, n + 1 - |run(i).log.attempted|);
    InfiniteRunKeepsInv(run, steps, j);
    AttemptsArePushed(run(j), n);
  }

  lemma AttemptsArePushed(s: State, n: nat)
    requires OutputInv(s) && n < |s.log.attempted|
    ensures n < |s.log.pushed| && s.log.attempted[n] == s.log.pushed[n]
  {
  }

  // --------------------------------------------------------------------------------------------
  // Workers come into their loops
  // --------------------------------------------------------------------------------------------

  function SendStartLeft(pc: SendPc): nat {
    match pc
    case SStarting => 4
    case SConnecting => 3
    case SConnected => 2
    case SReady => 1
    case _ => 0
  }

  function RecvStartLeft(pc: RecvPc): nat {
    match pc
    case RStarting => 4
    case RConnecting => 3
    case RConnected => 2
    case RReady => 1
    case _ => 0
  }

  predicate SenderStarts(s: State) {
    s.send.handle && SendStartLeft(s.send.pc) > 0
  }

  predicate ReceiverStarts(s: State) {
    s.recv.handle && RecvStartLeft(s.recv.pc) > 0
  }

  lemma SenderStartsOn(s: State, e: SendEvent)
    requires SendEnabled(s, e) && SenderStarts(s) && s.status == Running
    ensures var t := SendStep(s, e);
            || IsSending(t)
            || (SenderStarts(t) && SendStartLeft(t.send.pc) < SendStartLeft(s.send.pc))
            || Fails(s, Send(e))
  {
  }

  lemma ReceiverStartsOn(s: State, e: RecvEvent)
    requires RecvEnabled(s, e) && ReceiverStarts(s) && s.status == Running
    ensures var t := RecvStep(s, e);
            || (t.recv.handle && IsReceiving(t.recv.pc))
            || (ReceiverStarts(t) && RecvStartLeft(t.recv.pc) < RecvStartLeft(s.recv.pc))
            || Fails(s, Receive(e))
  {
  }

  lemma SenderStartStep(run: nat -> State, steps: nat -> Label, m: nat)
    requires IsInfiniteRun(run, steps) && steps(m).Send? && SenderStarts(run(m)) && run(m).status == Running
    ensures || IsSending(run(m + 1))
            || (SenderStarts(run(m + 1)) && SendStartLeft(run(m + 1).send.pc) < SendStartLeft(run(m).send.pc))
            || Fails(run(m), steps(m))
  {
    assert IsStepAt(run, steps, m);
    SenderStartsOn(run(m), steps(m).s);
  }

  lemma ReceiverStartStep(run: nat -> State, steps: nat -> Label, m: nat)
    requires IsInfiniteRun(run, steps) && steps(m).Receive? && ReceiverStarts(run(m)) && run(m).status == Running
    ensures || (run(m + 1).recv.handle && IsReceiving(run(m + 1).recv.pc))
            || (ReceiverStarts(run(m + 1)) && RecvStartLeft(run(m + 1).recv.pc) < RecvStartLeft(run(m).recv.pc))
            || Fails(run(m), steps(m))
  {
    assert IsStepAt(run, steps, m);
    ReceiverStartsOn(run(m), steps(m).r);
  }

  /** In a pipeline that keeps running, a sender that has been launched connects and comes to send. */
  lemma {:induction false} SenderComesToSend(run: nat -> State, steps: nat -> Label, i: nat) returns (j: nat)
    requires IsInfiniteRun(run, steps) && Fair(run, steps) && StaysRunning(run, i) && SenderStarts(run(i))
    ensures j > i && IsSending(run(j))
    decreases SendStartLeft(run(i).send.pc)
  {
    assert IsThread(Sender);
    var m := WorkerMovesOn(run, steps, Sender, i);
    SenderStartStep(run, steps, m);
    if Fails(run(m), steps(m)) {
      var failed := FailureIsRecorded(run, steps, m);
      assert false;
    } else if IsSending(run(m + 1)) {
      j := m + 1;
    } else {
      j := SenderComesToSend(run, steps, m + 1);
    }
  }

  /** And a receiver comes to receive. */
  lemma {:induction false} ReceiverComesToReceive(run: nat -> State, steps: nat -> Label, i: nat) returns (j: nat)
    requires IsInfiniteRun(run, steps) && Fair(run, steps) && StaysRunning(run, i) && ReceiverStarts(run(i))
    ensures j > i && run(j).recv.handle && IsReceiving(run(j).recv.pc)
    decreases RecvStartLeft(run(i).recv.pc)
  {
    assert IsThread(Receiver);
    var m := WorkerMovesOn(run, steps, Receiver, i);
    ReceiverStartStep(run, steps, m);
    if Fails(run(m), steps(m)) {
      var failed := FailureIsRecorded(run, steps, m);
      assert false;
    } else if IsReceiving(run(m + 1).recv.pc) && run(m + 1).recv.handle {
      j := m + 1;
    } else {
      j := ReceiverComesToReceive(run, steps, m + 1);
    }
  }

  function ProcStartLeft(pc: ProcPc): nat {
    match pc
    case PStarting => 3
    case PFiltras => 2
    case PReady => 1
    case _ => 0
  }

  predicate ProcessorStarts(s: State) {
    s.proc.handle && ProcStartLeft(s.proc.pc) > 0
  }

  lemma ProcessorStartsOn(s: State, e: ProcEvent)
    requires ProcEnabled(s, e) && ProcessorStarts(s) && s.status == Running
    ensures var t := ProcStep(s, e);
            || (t.proc.handle && Awake(t.proc.pc))
            || (ProcessorStarts(t) && ProcStartLeft(t.proc.pc) < ProcStartLeft(s.proc.pc))
            || Fails(s, Process(e))
  {
  }

  lemma ProcessorStartStep(run: nat -> State, steps: nat -> Label, m: nat)
    requires IsInfiniteRun(run, steps) && steps(m).Process? && ProcessorStarts(run(m)) && run(m).status == Running
    ensures || (run(m + 1).proc.handle && Awake(run(m + 1).proc.pc))
            || (ProcessorStarts(run(m + 1)) && ProcStartLeft(run(m + 1).proc.pc) < ProcStartLeft(run(m).proc.pc))
            || Fails(run(m), steps(m))
  {
    assert IsStepAt(run, steps, m);
    ProcessorStartsOn(run(m), steps(m).p);
  }

  /** And a processor comes to look for messages. */
  lemma {:induction false} ProcessorComesToPop(run: nat -> State, steps: nat -> Label, i: nat) returns (j: nat)
    requires IsInfiniteRun(run, steps) && Fair(run, steps) && StaysRunning(run, i) && ProcessorStarts(run(i))
    ensures j > i && run(j).proc.handle && Awake(run(j).proc.pc)
    decreases ProcStartLeft(run(i).proc.pc)
  {
    assert IsThread(Processor);
    var m := WorkerMovesOn(run, steps, Processor, i);
    ProcessorStartStep(run, steps, m);
    if Fails(run(m), steps(m)) {
      var failed := FailureIsRecorded(run, steps, m);
      assert false;
    } else if Awake(run(m + 1).proc.pc) && run(m + 1).proc.handle {
      j := m + 1;
    } else {
      j := ProcessorComesToPop(run, steps, m + 1);
    }
  }

  // --------------------------------------------------------------------------------------------
  // Workers end
  // --------------------------------------------------------------------------------------------

  /** Steps of the receiver until its thread has ended, once it has left its loop. */
  function RecvEndLeft(pc: RecvPc): nat {
    match pc
    case RDisconnecting => 3
    case RDisconnectFailed => 2
    case RFinishing => 1
    case _ => 0
  }

  predicate ReceiverEnds(s: State) {
    s.recv.handle && RecvEndLeft(s.recv.pc) > 0
  }

  lemma ReceiverEndsOn(s: State, e: RecvEvent)
    requires RecvEnabled(s, e) && ReceiverEnds(s)
    ensures var t := RecvStep(s, e);
            || t.recv == Worker(true, TFinished, RExited)
            || (ReceiverEnds(t) && RecvEndLeft(t.recv.pc) < RecvEndLeft(s.recv.pc) && t.recv.tstate == s.recv.tstate)
  {
  }

  lemma ReceiverEndStep(run: nat -> State, steps: nat -> Label, m: nat)
    requires IsInfiniteRun(run, steps) && steps(m).Receive? && ReceiverEnds(run(m))
    ensures || run(m + 1).recv == Worker(true, TFinished, RExited)
            || (ReceiverEnds(run(m + 1)) && RecvEndLeft(run(m + 1).recv.pc) < RecvEndLeft(run(m).recv.pc)
                && run(m + 1).recv.tstate == run(m).recv.tstate)
  {
    assert IsStepAt(run, steps, m);
    ReceiverEndsOn(run(m), steps(m).r);
  }

  /** The thread is still there, out of its loop, and reports `reported`. */
  predicate ReceiverIsLeaving(s: State, reported: ThreadState) {
    s.recv.handle && s.recv.tstate == reported && !IsReceiving(s.recv.pc)
  }

  /** The thread ends, and until then reports what it has reported last. */
  lemma {:induction false} ReceiverComesToEnd(run: nat -> State, steps: nat -> Label, i: nat) returns (j: nat)
    requires IsInfiniteRun(run, steps) && IsServed(run, steps, Receiver) && ReceiverEnds(run(i))
    ensures j > i && run(j).recv == Worker(true, TFinished, RExited)
    ensures forall k :: i <= k < j ==> ReceiverIsLeaving(run(k), run(i).recv.tstate)
    decreases RecvEndLeft(run(i).recv.pc)
  {
    var m := WorkerMovesOn(run, steps, Receiver, i);
    ReceiverEndStep(run, steps, m);
    if run(m + 1).recv == Worker(true, TFinished, RExited) {
      j := m + 1;
    } else {
      j := ReceiverComesToEnd(run, steps, m + 1);
    }
  }

  /** Steps of the sender until its thread has ended, once it has left its loop. */
  function SendEndLeft(pc: SendPc): nat {
    match pc
    case SDisconnecting => 3
    case SDisconnectFailed => 2
    case SFinishing => 1
    case _ => 0
  }

  predicate SenderEnds(s: State) {
    s.send.handle && SendEndLeft(s.send.pc) > 0
  }

  lemma SenderEndsOn(s: State, e: SendEvent)
    requires SendEnabled(s, e) && SenderEnds(s)
    ensures var t := SendStep(s, e);
            || t.send == Worker(true, TFinished, SExited)
            || (SenderEnds(t) && SendEndLeft(t.send.pc) < SendEndLeft(s.send.pc) && t.send.tstate == s.send.tstate)
  {
  }

  lemma SenderEndStep(run: nat -> State, steps: nat -> Label, m: nat)
    requires IsInfiniteRun(run, steps) && steps(m).Send? && SenderEnds(run(m))
    ensures || run(m + 1).send == Worker(true, TFinished, SExited)
            || (SenderEnds(run(m + 1)) && SendEndLeft(run(m + 1).send.pc) < SendEndLeft(run(m).send.pc)
                && run(m + 1).send.tstate == run(m).send.tstate)
  {
    assert IsStepAt(run, steps, m);
    SenderEndsOn(run(m), steps(m).s);
  }

  /** The thread is still there, out of its loop, and reports `reported`. */
  predicate SenderIsLeaving(s: State, reported: ThreadState) {
    s.send.handle && s.send.tstate == reported && !IsSending(s)
  }

  /** The thread ends, and until then reports what it has reported last. */
  lemma {:induction false} SenderComesToEnd(run: nat -> State, steps: nat -> Label, i: nat) returns (j: nat)
    requires IsInfiniteRun(run, steps) && IsServed(run, steps, Sender) && SenderEnds(run(i))
    ensures j > i && run(j).send == Worker(true, TFinished, SExited)
    ensures forall k :: i <= k < j ==> SenderIsLeaving(run(k), run(i).send.tstate)
    decreases SendEndLeft(run(i).send.pc)
  {
    var m := WorkerMovesOn(run, steps, Sender, i);
    SenderEndStep(run, steps, m);
    if run(m + 1).send == Worker(true, TFinished, SExited) {
      j := m + 1;
    } else {
      j := SenderComesToEnd(run, steps, m + 1);
    }
  }

  // --------------------------------------------------------------------------------------------
  // Underflows and failed connections
  // --------------------------------------------------------------------------------------------

  lemma UnderflowLeaves(s: State, e: RecvEvent)
    requires RecvEnabled(s, e) && s.recv.pc == RReceiving && e == RUnderflow
    ensures ReceiverEnds(RecvStep(s, e)) && RecvStep(s, e).recv.tstate == s.recv.tstate
  {
  }

  /** In every fair run the thread of a receiver whose connector reports an underflow ends, without
      receiving again. */
  lemma UnderflowEndsReceiver(run: nat -> State, steps: nat -> Label, i: nat) returns (j: nat)
    requires IsInfiniteRun(run, steps) && IsServed(run, steps, Receiver)
    requires run(i).recv.pc == RReceiving && steps(i) == Receive(RUnderflow)
    ensures j > i && run(j).recv == Worker(true, TFinished, RExited)
    ensures forall k :: i < k < j ==> ReceiverIsLeaving(run(k), run(i).recv.tstate)
  {
    assert IsStepAt(run, steps, i);
    UnderflowLeaves(run(i), RUnderflow);
    j := ReceiverComesToEnd(run, steps, i + 1);
  }

  /** The connector reports an underflow, or the send queue is empty and does not block. */
  predicate SenderRunsDry(s: State, e: SendEvent) {
    (s.send.pc.SSending? && e == SUnderflow) || (s.send.pc == SPopping && s.sq.items == [])
  }

  lemma RunningDryLeaves(s: State, e: SendEvent)
    requires SendEnabled(s, e) && SenderRunsDry(s, e)
    ensures SenderEnds(SendStep(s, e)) && SendStep(s, e).send.tstate == s.send.tstate
  {
  }

  /** The same for a sender that runs dry. */
  lemma RunningDryEndsSender(run: nat -> State, steps: nat -> Label, i: nat) returns (j: nat)
    requires IsInfiniteRun(run, steps) && IsServed(run, steps, Sender)
    requires steps(i).Send? && SenderRunsDry(run(i), steps(i).s)
    ensures j > i && run(j).send == Worker(true, TFinished, SExited)
    ensures forall k :: i < k < j ==> SenderIsLeaving(run(k), run(i).send.tstate)
  {
    assert IsStepAt(run, steps, i);
    RunningDryLeaves(run(i), steps(i).s);
    j := SenderComesToEnd(run, steps, i + 1);
  }

  lemma ReceiverConnects(s: State, e: RecvEvent)
    requires RecvEnabled(s, e)
    ensures var t := RecvStep(s, e);
            && (s.recv.pc == RConnecting && e == RFail ==> t.recv == s.recv.(pc := RConnectFailed))
            && (s.recv.pc == RConnectFailed ==> t.status == Failed && t.recv == s.recv.(pc := RConnected))
            && (s.recv.pc == RConnected && s.status == Failed ==> t.recv == s.recv.(pc := RDisconnecting))
  {
  }

  lemma ReceiverConnectStep(run: nat -> State, steps: nat -> Label, m: nat)
    requires IsInfiniteRun(run, steps) && steps(m).Receive?
    ensures var s, t := run(m), run(m + 1);
            && (s.recv.pc == RConnecting && steps(m).r == RFail ==> t.recv == s.recv.(pc := RConnectFailed))
            && (s.recv.pc == RConnectFailed ==> t.status == Failed && t.recv == s.recv.(pc := RConnected))
            && (s.recv.pc == RConnected && s.status == Failed ==> t.recv == s.recv.(pc := RDisconnecting))
  {
    assert IsStepAt(run, steps, m);
    ReceiverConnects(run(m), steps(m).r);
  }

  lemma ReceiverLooks(run: nat -> State, steps: nat -> Label, i: nat) returns (look: nat)
    requires IsInfiniteRun(run, steps) && IsServed(run, steps, Receiver)
    requires run(i).recv.pc == RConnecting && run(i).recv.handle && steps(i) == Receive(RFail)
    ensures i < look && steps(look).Receive? && run(look).recv == run(i).recv.(pc := RConnected)
    ensures forall k :: i < k <= look ==> ReceiverIsLeaving(run(k), run(i).recv.tstate)
  {
    ReceiverConnectStep(run, steps, i);
    var record := WorkerMovesOn(run, steps, Receiver, i + 1);
    ReceiverConnectStep(run, steps, record);
    look := WorkerMovesOn(run, steps, Receiver, record + 1);
  }

  /** A receiver that cannot connect makes the pipeline FAILED and then looks at its state.  If that still
      is FAILED, and not overwritten by a stop, the thread ends without ever reporting that it runs. */
  lemma NoConnectionNoReceiver(run: nat -> State, steps: nat -> Label, i: nat) returns (look: nat, j: nat)
    requires IsInfiniteRun(run, steps) && IsServed(run, steps, Receiver)
    requires run(i).recv.pc == RConnecting && run(i).recv.handle && steps(i) == Receive(RFail)
    ensures i < look && run(look).recv == run(i).recv.(pc := RConnected)
    ensures run(look).status == Failed ==>
      && j > look && run(j).recv == Worker(true, TFinished, RExited)
      && forall k :: i < k < j ==> ReceiverIsLeaving(run(k), run(i).recv.tstate)
  {
    look := ReceiverLooks(run, steps, i);
    ReceiverConnectStep(run, steps, look);
    j := look + 1;
    if run(look).status == Failed {
      j := ReceiverComesToEnd(run, steps, look + 1);
    }
  }

  lemma SenderConnects(s: State, e: SendEvent)
    requires SendEnabled(s, e)
    ensures var t := SendStep(s, e);
            && (s.send.pc == SConnecting && e == SFail ==> t.send == s.send.(pc := SConnectFailed))
            && (s.send.pc == SConnectFailed ==> t.status == Failed && t.send == s.send.(pc := SConnected))
            && (s.send.pc == SConnected && s.status == Failed ==> t.send == s.send.(pc := SDisconnecting))
  {
  }

  lemma SenderConnectStep(run: nat -> State, steps: nat -> Label, m: nat)
    requires IsInfiniteRun(run, steps) && steps(m).Send?
    ensures var s, t := run(m), run(m + 1);
            && (s.send.pc == SConnecting && steps(m).s == SFail ==> t.send == s.send.(pc := SConnectFailed))
            && (s.send.pc == SConnectFailed ==> t.status == Failed && t.send == s.send.(pc := SConnected))
            && (s.send.pc == SConnected && s.status == Failed ==> t.send == s.send.(pc := SDisconnecting))
  {
    assert IsStepAt(run, steps, m);
    SenderConnects(run(m), steps(m).s);
  }

  lemma SenderLooks(run: nat -> State, steps: nat -> Label, i: nat) returns (look: nat)
    requires IsInfiniteRun(run, steps) && IsServed(run, steps, Sender)
    requires run(i).send.pc == SConnecting && run(i).send.handle && steps(i) == Send(SFail)
    ensures i < look && steps(look).Send? && run(look).send == run(i).send.(pc := SConnected)
    ensures forall k :: i < k <= look ==> SenderIsLeaving(run(k), run(i).send.tstate)
  {
    SenderConnectStep(run, steps, i);
    var record := WorkerMovesOn(run, steps, Sender, i + 1);
    SenderConnectStep(run, steps, record);
    look := WorkerMovesOn(run, steps, Sender, record + 1);
  }

  /** The same for the sender. */
  lemma NoConnectionNoSender(run: nat -> State, steps: nat -> Label, i: nat) returns (look: nat, j: nat)
    requires IsInfiniteRun(run, steps) && IsServed(run, steps, Sender)
    requires run(i).send.pc == SConnecting && run(i).send.handle && steps(i) == Send(SFail)
    ensures i < look && run(look).send == run(i).send.(pc := SConnected)
    ensures run(look).status == Failed ==>
      && j > look && run(j).send == Worker(true, TFinished, SExited)
      && forall k :: i < k < j ==> SenderIsLeaving(run(k), run(i).send.tstate)
  {
    look := SenderLooks(run, steps, i);
    SenderConnectStep(run, steps, look);
    j := look + 1;
    if run(look).status == Failed {
      j := SenderComesToEnd(run, steps, look + 1);
    }
  }
}
