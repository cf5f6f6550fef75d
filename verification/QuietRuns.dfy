/** Which states of a running pipeline make sure that a message is processed that was queued while
    the processor parked; every other state has a continuation in which it never is. */
module QuietRuns {
  import opened Runtime
  import opened RuntimeTheorems
  import opened ControlTheorems
  import opened WakeupTheorems

  /** The receiver has yet to notify the waiting processor. */
  predicate AboutToNotify(s: State) {
    s.proc.pc == PWaiting && (s.recv.pc.RPushing? || s.recv.pc == RNotifying)
  }

  /** A running pipeline ignores the command. */
  predicate IsIgnored(cmd: Command) {
    cmd == CmdUnkn || cmd == CmdStart
  }

  /** No failure is about to be recorded. */
  predicate NoFailure(s: State) {
    && s.recv.pc != RConnectFailed && s.recv.pc != RDisconnectFailed
    && s.send.pc != SConnectFailed && s.send.pc != SDisconnectFailed
  }

  /** Nothing has been decided that ends the run of the pipeline: no failure, no stop under way and
      no command for one in the queue. */
  predicate Staying(s: State) {
    && s.status == Running && NoFailure(s)
    && !s.ctl.CStopCheck? && !s.ctl.CStopWrite?
    && forall i :: 0 <= i < |s.cq.items| ==> IsIgnored(s.cq.items[i])
  }

  // --------------------------------------------------------------------------------------------
  // The notification is still to come
  // --------------------------------------------------------------------------------------------

  function StepsToNotify(pc: RecvPc): nat {
    match pc
    case RPushing(_) => 2
    case RNotifying => 1
    case _ => 0
  }

  predicate HasQueued(s: State) {
    s.proc.handle && s.rq.items != []
  }

  ghost predicate NotifyGoesOn(s: State, t: State, a: Actor) {
    && HasQueued(t) && Processed(t) == Processed(s)
    && (|| t.proc.pc == PNotified
        || (AboutToNotify(t)
            && if a == Receiver then StepsToNotify(t.recv.pc) < StepsToNotify(s.recv.pc)
               else t.recv.pc == s.recv.pc))
  }

  lemma ControlLeavesReceiver(s: State, e: CtlEvent)
    requires HandlesInv(s) && ControlInv(s) && s.status == Running && CtlEnabled(s, e) && s.recv.pc != RExited
    ensures CtlStep(s, e).recv == s.recv
  {
  }

  lemma OthersLeaveReceiver(s: State, l: Label)
    requires Enabled(s, l) && ActorOf(l) != Receiver && ActorOf(l) != Controller
    ensures Step(s, l).recv == s.recv
  {
  }

  lemma NotifyStep(s: State, l: Label)
    requires Inv(s) && s.status == Running && Enabled(s, l) && AboutToNotify(s) && HasQueued(s)
    ensures NotifyGoesOn(s, Step(s, l), ActorOf(l))
  {
    OthersLeaveProcessor(s, l);
    if l.Control? {
      ControlLeavesReceiver(s, l.c);
    } else if !l.Receive? {
      OthersLeaveReceiver(s, l);
    }
  }

  lemma RunNotifies(run: nat -> State, steps: nat -> Label, m: nat)
    requires IsInfiniteRun(run, steps) && run(m).status == Running && AboutToNotify(run(m)) && HasQueued(run(m))
    ensures NotifyGoesOn(run(m), run(m + 1), ActorOf(steps(m))) && Ready(run(m), Receiver)
  {
    assert IsStepAt(run, steps, m);
    InfiniteRunKeepsInv(run, steps, m);
    NotifyStep(run(m), steps(m));
  }

  lemma {:induction false} NotifiedIsProcessed(run: nat -> State, steps: nat -> Label, i: nat) returns (j: nat)
    requires IsInfiniteRun(run, steps) && IsServed(run, steps, Receiver) && IsServed(run, steps, Processor)
    requires StaysRunning(run, i) && AboutToNotify(run(i)) && HasQueued(run(i))
    ensures j > i && Processed(run(j)) > Processed(run(i))
    decreases StepsToNotify(run(i).recv.pc)
  {
    var served := NextServed(run, steps, Receiver, i);
    var m := i;
    while true
      invariant i <= m <= served
      invariant AboutToNotify(run(m)) && HasQueued(run(m)) && Processed(run(m)) == Processed(run(i))
      invariant run(m).recv.pc == run(i).recv.pc
      decreases served - m
    {
      RunNotifies(run, steps, m);
      if run(m + 1).proc.pc == PNotified {
        j := AwakePops(run, steps, m + 1);
        return;
      }
      if m == served {
        j := NotifiedIsProcessed(run, steps, m + 1);
        return;
      }
      m := m + 1;
    }
  }

  // --------------------------------------------------------------------------------------------
  // The run of the pipeline is about to end
  // --------------------------------------------------------------------------------------------

  predicate RecvFails(s: State) {
    s.recv.pc == RConnectFailed || s.recv.pc == RDisconnectFailed
  }

  predicate SendFails(s: State) {
    s.send.pc == SConnectFailed || s.send.pc == SDisconnectFailed
  }

  lemma RecvFailureStep(run: nat -> State, steps: nat -> Label, m: nat)
    requires IsInfiniteRun(run, steps) && run(m).status == Running && RecvFails(run(m))
    ensures Ready(run(m), Receiver)
    ensures if ActorOf(steps(m)) == Receiver then run(m + 1).status == Failed else RecvFails(run(m + 1))
  {
    assert IsStepAt(run, steps, m);
    InfiniteRunKeepsInv(run, steps, m);
    if ActorOf(steps(m)) == Controller {
      ControlLeavesReceiver(run(m), steps(m).c);
    } else if ActorOf(steps(m)) != Receiver {
      OthersLeaveReceiver(run(m), steps(m));
    }
  }

  lemma ControlLeavesSender(s: State, e: CtlEvent)
    requires HandlesInv(s) && ControlInv(s) && s.status == Running && CtlEnabled(s, e) && s.send.pc != SExited
    ensures CtlStep(s, e).send == s.send
  {
  }

  lemma OthersLeaveSender(s: State, l: Label)
    requires Enabled(s, l) && ActorOf(l) != Sender && ActorOf(l) != Controller
    ensures Step(s, l).send == s.send
  {
  }

  lemma SendFailureStep(run: nat -> State, steps: nat -> Label, m: nat)
    requires IsInfiniteRun(run, steps) && run(m).status == Running && SendFails(run(m))
    ensures Ready(run(m), Sender)
    ensures if ActorOf(steps(m)) == Sender then run(m + 1).status == Failed else SendFails(run(m + 1))
  {
    assert IsStepAt(run, steps, m);
    InfiniteRunKeepsInv(run, steps, m);
    if ActorOf(steps(m)) == Controller {
      ControlLeavesSender(run(m), steps(m).c);
    } else if ActorOf(steps(m)) != Sender {
      OthersLeaveSender(run(m), steps(m));
    }
  }

  /** The worker is about to record a failure. */
  predicate Fails(s: State, a: Actor) {
    (a == Receiver && RecvFails(s)) || (a == Sender && SendFails(s))
  }

  ghost predicate FailureAt(run: nat -> State, steps: nat -> Label, a: Actor, m: nat) {
    run(m).status == Running && Fails(run(m), a) ==>
      Ready(run(m), a) && if ActorOf(steps(m)) == a then run(m + 1).status == Failed else Fails(run(m + 1), a)
  }

  lemma {:induction false} FailureIsRecorded(run: nat -> State, steps: nat -> Label, a: Actor, i: nat, served: nat)
    returns (j: nat)
    requires forall m: nat :: FailureAt(run, steps, a, m)
    requires i <= served && Served(run, steps, a, served) && Fails(run(i), a)
    ensures j >= i && run(j).status != Running
    decreases served - i
  {
    assert FailureAt(run, steps, a, i);
    if run(i).status != Running {
      j := i;
    } else if ActorOf(steps(i)) == a {
      j := i + 1;
    } else {
      j := FailureIsRecorded(run, steps, a, i + 1, served);
    }
  }

  lemma FailureEnds(run: nat -> State, steps: nat -> Label, i: nat, a: Actor) returns (j: nat)
    requires IsInfiniteRun(run, steps) && Fair(run, steps) && Fails(run(i), a)
    ensures j >= i && run(j).status != Running
  {
    forall m: nat ensures FailureAt(run, steps, a, m) {
      if run(m).status == Running && Fails(run(m), a) {
        if a == Receiver {
          RecvFailureStep(run, steps, m);
        } else {
          SendFailureStep(run, steps, m);
        }
      }
    }
    assert IsThread(a) && IsServed(run, steps, a);
    var served := NextServed(run, steps, a, i);
    j := FailureIsRecorded(run, steps, a, i, served);
  }

  lemma StopWriteEnds(s: State, e: CtlEvent)
    requires CtlEnabled(s, e) && (s.ctl.CStopCheck? || s.ctl.CStopWrite?)
    ensures var t := CtlStep(s, e);
            if s.ctl.CStopWrite? then t.status == Stopping
            else s.status == Running ==> t.ctl == CStopWrite(s.ctl.next)
  {
  }

  lemma StopEnds(run: nat -> State, steps: nat -> Label, i: nat) returns (j: nat)
    requires IsInfiniteRun(run, steps) && Fair(run, steps)
    requires run(i).ctl.CStopCheck? || run(i).ctl.CStopWrite?
    ensures j >= i && run(j).status != Running
  {
    var m := ControlMoves(run, steps, i);
    assert IsStepAt(run, steps, m);
    StopWriteEnds(run(m), steps(m).c);
    if run(m).status != Running {
      j := m;
    } else if run(m).ctl.CStopWrite? {
      j := m + 1;
    } else {
      var n := ControlMoves(run, steps, m + 1);
      assert IsStepAt(run, steps, n);
      StopWriteEnds(run(n), steps(n).c);
      j := n + 1;
    }
  }

  /** In every fair run, what has been decided comes to pass. */
  lemma DecidedEnds(run: nat -> State, steps: nat -> Label, i: nat) returns (j: nat)
    requires IsInfiniteRun(run, steps) && Fair(run, steps) && !Staying(run(i))
    ensures j >= i && run(j).status != Running
  {
    if run(i).status != Running {
      j := i;
    } else if !NoFailure(run(i)) {
      j := FailureEnds(run, steps, i, if RecvFails(run(i)) then Receiver else Sender);
    } else if run(i).ctl.CStopCheck? || run(i).ctl.CStopWrite? {
      j := StopEnds(run, steps, i);
    } else {
      var n :| 0 <= n < |run(i).cq.items| && !IsIgnored(run(i).cq.items[n]);
      var taken := EveryCommandIsTaken(run, steps, i, n);
      j := StopEnds(run, steps, taken + 1);
    }
  }

  // --------------------------------------------------------------------------------------------
  // A continuation in which nothing happens to the message
  // --------------------------------------------------------------------------------------------

  /** A pipeline with a queued message and a processor that parks, in which nothing has been decided
      and no notification is on its way to a processor that waits. */
  predicate IsStuck(s: State) {
    && HandlesInv(s) && ControlInv(s)
    && HasQueued(s) && Parked(s.proc.pc) && Staying(s) && !AboutToNotify(s)
  }

  /** Workers that can move do so without failing and without receiving; the processor parks last. */
  function QuietLabel(s: State): Label {
    if Ready(s, Receiver) then Receive(if s.recv.pc == RReceiving then RUnderflow else RGo)
    else if Ready(s, Sender) then Send(SGo)
    else if Ready(s, Controller) then Control(if s.ctl.CAwait? then CTimeout else CGo)
    else if s.proc.pc == PParking then Process(PGo)
    else Idle
  }

  function RecvLeft(pc: RecvPc): nat {
    match pc
    case RStarting => 12
    case RConnecting => 11
    case RConnected => 9
    case RReady => 8
    case RPushing(_) => 8
    case RNotifying => 7
    case RLoop => 6
    case RReceiving => 5
    case RDisconnecting => 3
    case RFinishing => 1
    case _ => 0
  }

  function SendLeft(pc: SendPc): nat {
    match pc
    case SStarting => 20
    case SConnecting => 19
    case SConnected => 18
    case SReady => 17
    case SSending(_) => 16
    case SLoop => 15
    case SPopping => 14
    case SDisconnecting => 5
    case SFinishing => 3
    case _ => 0
  }

  function CtlLeft(c: CtlPc): nat {
    match c
    case CAwait(Processing) => 21
    case CLaunch(Receiving) => 20
    case CAwait(Receiving) => 2
    case CThrown => 1
    case CStartCheck => 1
    case _ => 0
  }

  function QuietLeft(s: State): nat {
    RecvLeft(s.recv.pc) + SendLeft(s.send.pc) + 10 * |s.sq.items| + CtlLeft(s.ctl) + 10 * |s.cq.items|
    + if s.proc.pc == PParking then 1 else 0
  }

  /** The message stays where it is, and so does the pipeline. */
  predicate StaysStuck(s: State, t: State) {
    && HasQueued(t) && Parked(t.proc.pc) && Staying(t) && !AboutToNotify(t)
    && t.log.processed == s.log.processed
  }

  ghost predicate GoesOnQuietly(s: State, t: State) {
    StaysStuck(s, t) && QuietLeft(t) < QuietLeft(s)
  }

  lemma QuietReceiverStays(s: State)
    requires IsStuck(s) && Ready(s, Receiver)
    ensures var e := QuietLabel(s).r; RecvEnabled(s, e) && StaysStuck(s, RecvStep(s, e))
  {
  }

  lemma QuietReceiverLowers(s: State)
    requires IsStuck(s) && Ready(s, Receiver)
    ensures var e := QuietLabel(s).r; RecvEnabled(s, e) && QuietLeft(RecvStep(s, e)) < QuietLeft(s)
  {
  }

  lemma QuietSenderStays(s: State)
    requires IsStuck(s) && Ready(s, Sender)
    ensures SendEnabled(s, SGo) && StaysStuck(s, SendStep(s, SGo))
  {
  }

  lemma QuietSenderLowers(s: State)
    requires IsStuck(s) && Ready(s, Sender)
    ensures SendEnabled(s, SGo) && QuietLeft(SendStep(s, SGo)) < QuietLeft(s)
  {
  }

  lemma QuietControllerStays(s: State)
    requires IsStuck(s) && Ready(s, Controller)
    ensures var e := if s.ctl.CAwait? then CTimeout else CGo;
            CtlEnabled(s, e) && StaysStuck(s, CtlStep(s, e))
  {
  }

  lemma QuietControllerLowers(s: State)
    requires IsStuck(s) && Ready(s, Controller)
    ensures var e := if s.ctl.CAwait? then CTimeout else CGo;
            CtlEnabled(s, e) && QuietLeft(CtlStep(s, e)) < QuietLeft(s)
  {
  }

  lemma QuietProcessor(s: State)
    requires IsStuck(s) && s.proc.pc == PParking && !Ready(s, Receiver)
    ensures ProcEnabled(s, PGo) && GoesOnQuietly(s, ProcStep(s, PGo))
  {
  }

  lemma QuietMoves(s: State)
    requires IsStuck(s)
    ensures Enabled(s, QuietLabel(s))
    ensures QuietLabel(s) != Idle ==> GoesOnQuietly(s, Step(s, QuietLabel(s)))
  {
    if Ready(s, Receiver) {
      QuietReceiverStays(s);
      QuietReceiverLowers(s);
    } else if Ready(s, Sender) {
      QuietSenderStays(s);
      QuietSenderLowers(s);
    } else if Ready(s, Controller) {
      QuietControllerStays(s);
      QuietControllerLowers(s);
    } else if s.proc.pc == PParking {
      QuietProcessor(s);
    }
  }

  lemma IdleIsRest(s: State)
    requires IsStuck(s) && QuietLabel(s) == Idle
    ensures forall a :: IsThread(a) ==> !Ready(s, a)
  {
  }

  lemma QuietKeepsHandles(s: State)
    requires IsStuck(s) && Enabled(s, QuietLabel(s))
    ensures HandlesInv(Step(s, QuietLabel(s))) && ControlInv(Step(s, QuietLabel(s)))
  {
    var l := QuietLabel(s);
    if l.Control? {
      StartKeepsHandles(s, l.c);
    } else if l != Idle {
      WorkerKeepsControl(s, Step(s, l));
    }
  }

  lemma QuietStep(s: State)
    requires IsStuck(s)
    ensures Enabled(s, QuietLabel(s))
    ensures QuietLabel(s) != Idle ==> GoesOnQuietly(s, Step(s, QuietLabel(s)))
    ensures IsStuck(Step(s, QuietLabel(s)))
  {
    QuietMoves(s);
    QuietKeepsHandles(s);
  }

  ghost function Next(s: State): State {
    if IsStuck(s) then
      QuietStep(s);
      Step(s, QuietLabel(s))
    else s
  }

  ghost function Quietly(s: State, n: nat): State {
    if n == 0 then s else Next(Quietly(s, n - 1))
  }

  lemma NextKeepsMessage(s: State)
    requires IsStuck(s)
    ensures IsStuck(Next(s)) && Next(s).log.processed == s.log.processed
    ensures QuietLabel(s) != Idle ==> QuietLeft(Next(s)) < QuietLeft(s)
    ensures QuietLabel(s) == Idle ==> Next(s) == s
  {
    QuietStep(s);
  }

  /** What every quiet step keeps is kept by all of them. */
  lemma {:induction false} QuietlyKeeps(keeps: State -> bool, s: State, n: nat)
    requires keeps(s) && forall t :: keeps(t) ==> keeps(Next(t))
    ensures keeps(Quietly(s, n))
  {
    if n > 0 {
      QuietlyKeeps(keeps, s, n - 1);
    }
  }

  lemma QuietlyIsStuck(s: State, n: nat)
    requires IsStuck(s)
    ensures IsStuck(Quietly(s, n)) && Quietly(s, n).log.processed == s.log.processed
  {
    var keeps := (t: State) => IsStuck(t) && t.log.processed == s.log.processed;
    forall t | keeps(t) ensures keeps(Next(t)) {
      NextKeepsMessage(t);
    }
    QuietlyKeeps(keeps, s, n);
  }

  predicate HoldsMessage(t: State, processed: nat) {
    t.status == Running && t.rq.items != [] && Processed(t) == processed
  }

  lemma QuietlyKeepsMessage(s: State, n: nat)
    requires IsStuck(s)
    ensures HoldsMessage(Quietly(s, n), Processed(s))
  {
    QuietlyIsStuck(s, n);
  }

  /** The quiet continuation comes to rest. */
  lemma {:induction false} QuietRests(s: State, n: nat) returns (m: nat)
    requires IsStuck(s)
    ensures m >= n && QuietLabel(Quietly(s, m)) == Idle
    decreases QuietLeft(Quietly(s, n))
  {
    QuietlyIsStuck(s, n);
    NextKeepsMessage(Quietly(s, n));
    if QuietLabel(Quietly(s, n)) == Idle {
      m := n;
    } else {
      m := QuietRests(s, n + 1);
    }
  }

  lemma {:induction false} RestStays(s: State, m: nat, n: nat)
    requires m <= n && Next(Quietly(s, m)) == Quietly(s, m)
    ensures Quietly(s, n) == Quietly(s, m)
    decreases n - m
  {
    if m < n {
      RestStays(s, m, n - 1);
    }
  }

  lemma RestedIsIdle(s: State, m: nat, n: nat, a: Actor)
    requires IsStuck(s) && m <= n && QuietLabel(Quietly(s, m)) == Idle && IsThread(a)
    ensures !Ready(Quietly(s, n), a)
  {
    QuietlyIsStuck(s, m);
    NextKeepsMessage(Quietly(s, m));
    RestStays(s, m, n);
    IdleIsRest(Quietly(s, m));
  }

  // --------------------------------------------------------------------------------------------
  // A run that begins with any steps and goes on quietly
  // --------------------------------------------------------------------------------------------

  ghost function ContinuedState(states: seq<State>, i: nat): State
    requires states != []
  {
    if i < |states| then states[i] else Quietly(states[|states| - 1], i - (|states| - 1))
  }

  ghost function ContinuedLabel(states: seq<State>, labels: seq<Label>, i: nat): Label
    requires states != []
  {
    if i < |labels| then labels[i] else QuietLabel(ContinuedState(states, i))
  }

  ghost predicate Extends(run: nat -> State, steps: nat -> Label, states: seq<State>, labels: seq<Label>) {
    && (forall k: nat :: k < |states| ==> run(k) == states[k])
    && (forall k: nat :: k < |labels| ==> steps(k) == labels[k])
  }

  lemma BehindLabels(states: seq<State>, labels: seq<Label>, i: nat)
    requires |states| == |labels| + 1 && i >= |labels|
    ensures ContinuedState(states, i) == Quietly(states[|labels|], i - |labels|)
  {
  }

  lemma ContinuedStep(states: seq<State>, labels: seq<Label>, i: nat)
    requires IsRun(states, labels) && IsStuck(states[|labels|])
    ensures Enabled(ContinuedState(states, i), ContinuedLabel(states, labels, i))
    ensures ContinuedState(states, i + 1) == Step(ContinuedState(states, i), ContinuedLabel(states, labels, i))
  {
    if i >= |labels| {
      var last := states[|labels|];
      BehindLabels(states, labels, i);
      BehindLabels(states, labels, i + 1);
      QuietlyIsStuck(last, i - |labels|);
      QuietStep(Quietly(last, i - |labels|));
    }
  }

  /** From some time on no thread is owed a step, so the continuation is fair. */
  lemma ContinuedRests(states: seq<State>, labels: seq<Label>) returns (m: nat)
    requires |states| == |labels| + 1 && IsStuck(states[|labels|])
    ensures forall i: nat, a :: i >= m && IsThread(a) ==> !Ready(ContinuedState(states, i), a)
  {
    var last, n := states[|labels|], |labels|;
    var rest := QuietRests(last, 0);
    m := n + rest;
    forall i: nat, a | i >= m && IsThread(a) ensures !Ready(ContinuedState(states, i), a) {
      BehindLabels(states, labels, i);
      RestedIsIdle(last, rest, i - n, a);
    }
  }

  lemma ContinuedIsFair(states: seq<State>, labels: seq<Label>, run: nat -> State, steps: nat -> Label)
    requires |states| == |labels| + 1 && IsStuck(states[|labels|])
    requires forall i: nat :: run(i) == ContinuedState(states, i)
    ensures Fair(run, steps)
  {
    var m := ContinuedRests(states, labels);
    forall a: Actor | IsThread(a) ensures IsServed(run, steps, a) {
      forall i: nat ensures ServedAfter(run, steps, a, i) {
        var j := if i >= m then i else m;
        assert Served(run, steps, a, j);
      }
    }
  }

  lemma ContinuedIsRun(states: seq<State>, labels: seq<Label>, run: nat -> State, steps: nat -> Label)
    requires IsRun(states, labels) && IsStuck(states[|labels|])
    requires forall i: nat :: run(i) == ContinuedState(states, i)
    requires forall i: nat :: steps(i) == ContinuedLabel(states, labels, i)
    ensures IsInfiniteRun(run, steps)
  {
    forall i: nat ensures Enabled(run(i), steps(i)) && run(i + 1) == Step(run(i), steps(i)) {
      ContinuedStep(states, labels, i);
    }
  }

  lemma ContinuedKeepsMessage(states: seq<State>, labels: seq<Label>, j: nat)
    requires |states| == |labels| + 1 && IsStuck(states[|labels|]) && j >= |labels|
    ensures HoldsMessage(ContinuedState(states, j), Processed(states[|labels|]))
  {
    BehindLabels(states, labels, j);
    QuietlyKeepsMessage(states[|labels|], j - |labels|);
  }

  /** Every stuck state has a fair continuation in which the pipeline keeps running and the message
      stays where it is. */
  lemma StuckForever(states: seq<State>, labels: seq<Label>) returns (run: nat -> State, steps: nat -> Label)
    requires IsRun(states, labels) && IsStuck(states[|labels|])
    ensures IsInfiniteRun(run, steps) && Fair(run, steps) && Extends(run, steps, states, labels)
    ensures StaysRunning(run, |labels|)
    ensures forall j: nat :: j >= |labels| ==> HoldsMessage(run(j), Processed(states[|labels|]))
  {
    run := (i: nat) => ContinuedState(states, i);
    steps := (i: nat) => ContinuedLabel(states, labels, i);
    ContinuedIsRun(states, labels, run, steps);
    ContinuedIsFair(states, labels, run, steps);
    forall j: nat | j >= |labels| ensures HoldsMessage(run(j), Processed(states[|labels|])) {
      ContinuedKeepsMessage(states, labels, j);
    }
  }

  // --------------------------------------------------------------------------------------------
  // The exact condition
  // --------------------------------------------------------------------------------------------

  /** However the run goes on, if its threads are served and the pipeline keeps running, another
      message is processed. */
  ghost predicate IsSure(states: seq<State>, labels: seq<Label>)
    requires |states| == |labels| + 1
  {
    forall run: nat -> State, steps: nat -> Label ::
      IsInfiniteRun(run, steps) && Fair(run, steps) && Extends(run, steps, states, labels)
      && StaysRunning(run, |labels|)
      ==> exists j: nat :: j >= |labels| && Processed(run(j)) > Processed(states[|labels|])
  }

  /** A message that is queued in a running pipeline while the processor parks is sure to be processed
      exactly when the receiver has yet to notify the processor, which waits already.  (Or when the
      pipeline is bound to leave RUNNING anyway.)  Otherwise its notification has been lost, or will
      be: a processor that is still about to wait can miss it. */
  lemma ParkedIsSureIff(states: seq<State>, labels: seq<Label>)
    requires IsRun(states, labels)
    requires var s := states[|labels|]; s.status == Running && Parked(s.proc.pc) && s.rq.items != []
    ensures var s := states[|labels|];
            IsSure(states, labels) <==> AboutToNotify(s) || !Staying(s)
  {
    var s := states[|labels|];
    RunKeepsInv(states, labels, |labels|);
    assert HasQueued(s);
    if AboutToNotify(s) || !Staying(s) {
      forall run: nat -> State, steps: nat -> Label |
        IsInfiniteRun(run, steps) && Fair(run, steps) && Extends(run, steps, states, labels)
        && StaysRunning(run, |labels|)
        ensures exists j: nat :: j >= |labels| && Processed(run(j)) > Processed(s)
      {
        SureIsProcessed(run, steps, |labels|);
      }
    } else {
      var run, steps := StuckForever(states, labels);
    }
  }

  lemma SureIsProcessed(run: nat -> State, steps: nat -> Label, i: nat)
    requires IsInfiniteRun(run, steps) && Fair(run, steps) && StaysRunning(run, i) && HasQueued(run(i))
    requires AboutToNotify(run(i)) || !Staying(run(i))
    ensures exists j: nat :: j >= i && Processed(run(j)) > Processed(run(i))
  {
    if !Staying(run(i)) {
      var j := DecidedEnds(run, steps, i);
      assert false;
    } else {
      assert IsServed(run, steps, Receiver) && IsServed(run, steps, Processor);
      var j := NotifiedIsProcessed(run, steps, i);
    }
  }

  lemma LostIsStuck()
    ensures IsStuck(LostState(30)) && LostState(30).log.received == ["m"] && Processed(LostState(30)) == 0
  {
  }

  /** So there is a run of a pipeline that is served and keeps running, with one message that is
      received and never processed. */
  lemma MessageIsNeverProcessed()
    ensures exists run: nat -> State, steps: nat -> Label, i: nat ::
              && IsInfiniteRun(run, steps) && Fair(run, steps) && StaysRunning(run, i)
              && run(i).log.received == ["m"]
              && forall j: nat :: j >= i ==> HoldsMessage(run(j), 0)
  {
    var states, labels := LostWakeupIsReachable();
    LostIsStuck();
    var run, steps := StuckForever(states, labels);
    assert run(|labels|) == states[|labels|];
  }
}
