/** What the commands do: where START, STOP, RESTART and TERMINATE lead, in every fair run. */
module CommandTheorems {
  import opened Runtime
  import opened RuntimeTheorems
  import opened ControlTheorems

  // --------------------------------------------------------------------------------------------
  // Vocabulary of the statements
  // --------------------------------------------------------------------------------------------

  /** The control thread is away from its queue after `i` and up to `j`. */
  ghost predicate Busy(run: nat -> State, i: nat, j: nat) {
    forall k :: i < k <= j ==> run(k).ctl != CIdle
  }

  /** Nobody writes RUNNING between `i` and `j`. */
  ghost predicate NeverSetRunning(run: nat -> State, i: nat, j: nat) {
    forall k :: i <= k < j && run(k + 1).status == Running ==> run(k).status == Running
  }

  /** Some Thread::start runs out of time between `i` and `j`. */
  ghost predicate StartFails(run: nat -> State, i: nat, j: nat) {
    exists k :: i < k < j && run(k).ctl == CThrown
  }

  predicate AllWorkers(s: State) {
    s.recv.handle && s.proc.handle && s.send.handle
  }

  /** STOPPED between `i` and `j`, with no worker left. */
  ghost predicate ComesToStop(run: nat -> State, i: nat, j: nat) {
    exists m :: i < m <= j && run(m).status == Stopped && NoWorkers(run(m))
  }

  /** A whole execute_start: RUNNING is written, and afterwards, back at the queue, all workers exist
      unless a start failed. */
  ghost predicate Starts(run: nat -> State, i: nat, on: nat, j: nat) {
    && i < on < j && run(on).status == Running && run(on - 1).status == Stopped && NoWorkers(run(on))
    && (StartFails(run, i, j) || AllWorkers(run(j)))
  }

  // --------------------------------------------------------------------------------------------
  // execute_stop
  // --------------------------------------------------------------------------------------------

  lemma OnlyStartWrites(s: State, l: Label)
    requires Enabled(s, l) && Step(s, l).status == Running && s.status != Running
    ensures s.ctl == CStartWrite && l.Control?
  {
  }

  lemma RunSetsRunning(run: nat -> State, steps: nat -> Label, k: nat)
    requires IsInfiniteRun(run, steps) && run(k).ctl != CStartWrite && run(k + 1).status == Running
    ensures run(k).status == Running
  {
    assert IsStepAt(run, steps, k);
    if run(k).status != Running {
      OnlyStartWrites(run(k), steps(k));
    }
  }

  predicate IsStopStep(s: State, t: State)
    requires InStop(s.ctl)
  {
    || (InStop(t.ctl) && NextOf(t.ctl) == NextOf(s.ctl))
    || (t.ctl == Return(NextOf(s.ctl)) && t.status == Stopped && NoWorkers(t))
  }

  lemma ControlInStop(s: State, e: CtlEvent)
    requires LifeInv(s) && InStop(s.ctl) && CtlEnabled(s, e)
    ensures IsStopStep(s, CtlStep(s, e))
  {
  }

  ghost predicate StopStepAt(run: nat -> State, m: nat) {
    InStop(run(m).ctl) ==>
      IsStopStep(run(m), run(m + 1)) && (run(m + 1).status == Running ==> run(m).status == Running)
  }

  lemma RunInStop(run: nat -> State, steps: nat -> Label, m: nat)
    requires IsInfiniteRun(run, steps)
    ensures StopStepAt(run, m)
  {
    assert IsStepAt(run, steps, m);
    InfiniteRunKeepsInv(run, steps, m);
    if InStop(run(m).ctl) {
      if ActorOf(steps(m)) == Controller {
        ControlInStop(run(m), steps(m).c);
      } else {
        OthersLeaveControl(run(m), steps(m));
      }
      if run(m + 1).status == Running {
        RunSetsRunning(run, steps, m);
      }
    }
  }

  lemma {:induction false} StopLeads(run: nat -> State, i: nat, done: nat) returns (j: nat)
    requires forall m: nat :: StopStepAt(run, m)
    requires i <= done && InStop(run(i).ctl) && !InStop(run(done).ctl)
    ensures i < j && run(j).ctl == Return(NextOf(run(i).ctl))
    ensures run(j).status == Stopped && NoWorkers(run(j))
    ensures forall k :: i <= k < j ==> InStop(run(k).ctl)
    ensures NeverSetRunning(run, i, j)
    decreases done - i
  {
    assert StopStepAt(run, i);
    if InStop(run(i + 1).ctl) {
      j := StopLeads(run, i + 1, done);
    } else {
      j := i + 1;
    }
  }

  /** execute_stop comes to STOPPED without a worker and goes on with what follows it. */
  lemma StopReturnsStopped(run: nat -> State, steps: nat -> Label, i: nat) returns (j: nat)
    requires IsInfiniteRun(run, steps) && Fair(run, steps) && InStop(run(i).ctl)
    ensures i < j && run(j).ctl == Return(NextOf(run(i).ctl))
    ensures run(j).status == Stopped && NoWorkers(run(j))
    ensures forall k :: i <= k < j ==> InStop(run(k).ctl)
    ensures NeverSetRunning(run, i, j)
  {
    var done := StopAlwaysFinishes(run, steps, i);
    forall m: nat ensures StopStepAt(run, m) {
      RunInStop(run, steps, m);
    }
    j := StopLeads(run, i, done);
  }

  // --------------------------------------------------------------------------------------------
  // execute_start
  // --------------------------------------------------------------------------------------------

  /** Between the write of RUNNING and the return, or the exception, of execute_start. */
  predicate InStart(c: CtlPc) {
    c == CSetBlocking || c.CLaunch? || c.CAwait? || c == CThrown
  }

  /** The workers that execute_start has launched so far. */
  predicate Launched(s: State) {
    match s.ctl
    case CLaunch(Processing) => s.send.handle
    case CLaunch(Receiving) => s.send.handle && s.proc.handle
    case CAwait(Sending) => s.send.handle
    case CAwait(Processing) => s.send.handle && s.proc.handle
    case CAwait(Receiving) => AllWorkers(s)
    case _ => true
  }

  lemma StartLaunches(s: State, e: CtlEvent)
    requires CtlEnabled(s, e) && InStart(s.ctl) && Launched(s)
    ensures var t := CtlStep(s, e);
            && Launched(t)
            && (InStart(t.ctl) || t.ctl == CDead || (t.ctl == CIdle && (s.ctl == CThrown || AllWorkers(t))))
  {
  }

  predicate SameHandles(s: State, t: State) {
    && t.ctl == s.ctl
    && t.recv.handle == s.recv.handle && t.proc.handle == s.proc.handle && t.send.handle == s.send.handle
  }

  lemma OthersKeepHandles(s: State, l: Label)
    requires Enabled(s, l) && ActorOf(l) != Controller
    ensures SameHandles(s, Step(s, l))
  {
    match l
    case Receive(e) => ReceiverKeepsHandles(s, e);
    case Process(e) => ProcessorKeepsHandles(s, e);
    case Send(e) => SenderKeepsHandles(s, e);
    case _ =>
  }

  lemma ReceiverKeepsHandles(s: State, e: RecvEvent)
    requires RecvEnabled(s, e)
    ensures SameHandles(s, RecvStep(s, e))
  {
  }

  lemma ProcessorKeepsHandles(s: State, e: ProcEvent)
    requires ProcEnabled(s, e)
    ensures SameHandles(s, ProcStep(s, e))
  {
  }

  lemma SenderKeepsHandles(s: State, e: SendEvent)
    requires SendEnabled(s, e)
    ensures SameHandles(s, SendStep(s, e))
  {
  }

  lemma OthersKeepLaunched(s: State, l: Label)
    requires Enabled(s, l) && ActorOf(l) != Controller && Launched(s)
    ensures Launched(Step(s, l))
  {
    OthersKeepHandles(s, l);
  }

  ghost predicate StartStepAt(run: nat -> State, m: nat) {
    InStart(run(m).ctl) && Launched(run(m)) ==>
      && Launched(run(m + 1))
      && (InStart(run(m + 1).ctl)
          || (run(m + 1).ctl == CIdle && (run(m).ctl == CThrown || AllWorkers(run(m + 1)))))
  }

  lemma RunInStart(run: nat -> State, steps: nat -> Label, m: nat)
    requires IsInfiniteRun(run, steps)
    ensures StartStepAt(run, m)
  {
    assert IsStepAt(run, steps, m);
    if InStart(run(m).ctl) && Launched(run(m)) {
      if ActorOf(steps(m)) == Controller {
        StartLaunches(run(m), steps(m).c);
        ControlThreadNeverEnds(run, steps, m + 1);
      } else {
        OthersLeaveControl(run(m), steps(m));
        OthersKeepLaunched(run(m), steps(m));
      }
    }
  }

  lemma {:induction false} StartLeads(run: nat -> State, i: nat, j: nat)
    requires forall m: nat :: StartStepAt(run, m)
    requires i < j && InStart(run(i).ctl) && Launched(run(i))
    requires run(j).ctl == CIdle && forall k :: i <= k < j ==> run(k).ctl != CIdle
    ensures AllWorkers(run(j)) || exists k :: i <= k < j && run(k).ctl == CThrown
    decreases j - i
  {
    assert StartStepAt(run, i);
    if run(i).ctl != CThrown && i + 1 < j {
      StartLeads(run, i + 1, j);
    }
  }

  lemma WriteRunning(s: State, e: CtlEvent)
    requires LifeInv(s) && CtlEnabled(s, e) && s.ctl == CStartWrite
    ensures var t := CtlStep(s, e);
            s.status == Stopped && t.status == Running && t.ctl == CSetBlocking && NoWorkers(t)
  {
  }

  lemma RunningStep(run: nat -> State, steps: nat -> Label, m: nat)
    requires IsInfiniteRun(run, steps) && run(m).ctl == CStartWrite && steps(m).Control?
    ensures var t := run(m + 1);
            run(m).status == Stopped && t.status == Running && t.ctl == CSetBlocking && NoWorkers(t)
  {
    assert IsStepAt(run, steps, m);
    InfiniteRunKeepsInv(run, steps, m);
    WriteRunning(run(m), steps(m).c);
  }

  lemma StartsLater(run: nat -> State, i: nat, m: nat, on: nat, j: nat)
    requires i <= m && Starts(run, m, on, j)
    ensures Starts(run, i, on, j)
  {
  }

  /** From the write of RUNNING on. */
  lemma StartRuns(run: nat -> State, steps: nat -> Label, i: nat) returns (on: nat, j: nat)
    requires IsInfiniteRun(run, steps) && Fair(run, steps) && run(i).ctl == CStartWrite
    ensures Starts(run, i, on, j) && run(j).ctl == CIdle
    ensures forall k :: i <= k < j ==> run(k).ctl != CIdle
  {
    var m := ControlMoves(run, steps, i);
    RunningStep(run, steps, m);
    on := m + 1;
    j := IdleAgain(run, steps, on);
    forall n: nat ensures StartStepAt(run, n) {
      RunInStart(run, steps, n);
    }
    StartLeads(run, on, j);
  }

  // --------------------------------------------------------------------------------------------
  // The commands
  // --------------------------------------------------------------------------------------------

  /** The control thread takes `cmd` from its queue. */
  ghost predicate IsTaken(run: nat -> State, steps: nat -> Label, i: nat, cmd: Command) {
    && run(i).ctl == CIdle && steps(i).Control?
    && run(i).cq.items != [] && run(i).cq.items[0] == cmd
  }

  /** Where the control thread goes with the command. */
  lemma TakenLeads(run: nat -> State, steps: nat -> Label, i: nat, cmd: Command)
    requires IsInfiniteRun(run, steps) && IsTaken(run, steps, i, cmd)
    ensures run(i + 1).ctl == Dispatch(cmd) && run(i + 1).status == run(i).status
  {
    assert IsStepAt(run, steps, i);
  }

  /** The stop that a command begins with. */
  lemma CommandStops(run: nat -> State, steps: nat -> Label, i: nat, cmd: Command) returns (off: nat)
    requires IsInfiniteRun(run, steps) && Fair(run, steps) && IsTaken(run, steps, i, cmd)
    requires InStop(Dispatch(cmd))
    ensures i < off && run(off).ctl == Return(NextOf(Dispatch(cmd))) && Busy(run, i, off - 1)
    ensures run(off).status == Stopped && NoWorkers(run(off)) && NeverSetRunning(run, i, off)
  {
    TakenLeads(run, steps, i, cmd);
    off := StopReturnsStopped(run, steps, i + 1);
  }

  /** STOP ends in STOPPED, back at the queue, with no worker, and nothing sets RUNNING on the way. */
  lemma StopStops(run: nat -> State, steps: nat -> Label, i: nat) returns (j: nat)
    requires IsInfiniteRun(run, steps) && Fair(run, steps) && IsTaken(run, steps, i, CmdStop)
    ensures i < j && run(j).ctl == CIdle && Busy(run, i, j - 1)
    ensures run(j).status == Stopped && NoWorkers(run(j))
    ensures NeverSetRunning(run, i, j)
  {
    j := CommandStops(run, steps, i, CmdStop);
  }

  /** TERMINATE ends in TERMINATED, back at the queue, with no worker; nothing sets RUNNING on the way. */
  lemma TerminateTerminates(run: nat -> State, steps: nat -> Label, i: nat) returns (j: nat)
    requires IsInfiniteRun(run, steps) && Fair(run, steps) && IsTaken(run, steps, i, CmdTerminate)
    ensures i < j && run(j).ctl == CIdle && Busy(run, i, j - 1)
    ensures run(j).status == Terminated && NoWorkers(run(j))
    ensures ComesToStop(run, i, j) && NeverSetRunning(run, i, j)
  {
    var stopped := CommandStops(run, steps, i, CmdTerminate);
    j := TerminatedIsWritten(run, steps, stopped);
  }

  lemma WriteTerminated(s: State, e: CtlEvent)
    requires LifeInv(s) && CtlEnabled(s, e) && s.ctl == CWriteTerminated
    ensures var t := CtlStep(s, e); t.status == Terminated && t.ctl == CIdle && NoWorkers(t)
  {
  }

  lemma TerminatedIsWritten(run: nat -> State, steps: nat -> Label, i: nat) returns (j: nat)
    requires IsInfiniteRun(run, steps) && Fair(run, steps) && run(i).ctl == CWriteTerminated
    ensures i < j && run(j).ctl == CIdle && forall k :: i <= k < j ==> run(k).ctl != CIdle
    ensures run(j).status == Terminated && NoWorkers(run(j)) && NeverSetRunning(run, i, j)
  {
    var m := ControlMoves(run, steps, i);
    TerminatedStep(run, steps, m);
    j := m + 1;
    forall k | i <= k < j && run(k + 1).status == Running ensures run(k).status == Running {
      RunSetsRunning(run, steps, k);
    }
  }

  lemma TerminatedStep(run: nat -> State, steps: nat -> Label, m: nat)
    requires IsInfiniteRun(run, steps) && run(m).ctl == CWriteTerminated && steps(m).Control?
    ensures var t := run(m + 1); t.status == Terminated && t.ctl == CIdle && NoWorkers(t)
  {
    assert IsStepAt(run, steps, m);
    InfiniteRunKeepsInv(run, steps, m);
    WriteTerminated(run(m), steps(m).c);
  }

  lemma CheckLeads(s: State, e: CtlEvent)
    requires LifeInv(s) && CtlEnabled(s, e) && s.ctl == CStartCheck && s.status != Running
    ensures var c := CtlStep(s, e).ctl;
            c == CStartWrite || (InStop(c) && Return(NextOf(c)) == CStartWrite)
  {
  }

  lemma CheckStep(run: nat -> State, steps: nat -> Label, i: nat)
    requires IsInfiniteRun(run, steps) && run(i).ctl == CStartCheck && steps(i).Control?
    requires run(i).status != Running
    ensures var c := run(i + 1).ctl;
            c == CStartWrite || (InStop(c) && Return(NextOf(c)) == CStartWrite)
  {
    assert IsStepAt(run, steps, i);
    InfiniteRunKeepsInv(run, steps, i);
    CheckLeads(run(i), steps(i).c);
  }

  /** From execute_start's check, when it does not find the pipeline RUNNING. */
  lemma StartGoesOn(run: nat -> State, steps: nat -> Label, i: nat) returns (on: nat, j: nat)
    requires IsInfiniteRun(run, steps) && Fair(run, steps) && run(i).ctl == CStartCheck && steps(i).Control?
    requires run(i).status != Running
    ensures Starts(run, i, on, j) && run(j).ctl == CIdle
    ensures forall k :: i <= k < j ==> run(k).ctl != CIdle
  {
    CheckStep(run, steps, i);
    var m := i + 1;
    if InStop(run(m).ctl) {
      m := StopReturnsStopped(run, steps, m);
    }
    on, j := StartRuns(run, steps, m);
    StartsLater(run, i, m, on, j);
  }

  lemma OthersKeepNotRunning(s: State, l: Label)
    requires Enabled(s, l) && ActorOf(l) != Controller && s.status != Running
    ensures Step(s, l).status != Running
  {
  }

  lemma {:induction false} StaysNotRunning(run: nat -> State, steps: nat -> Label, i: nat, m: nat)
    requires IsInfiniteRun(run, steps) && i <= m && run(i).status != Running
    requires forall k :: i <= k < m ==> ActorOf(steps(k)) != Controller
    ensures run(m).status != Running
    decreases m - i
  {
    if i < m {
      assert IsStepAt(run, steps, m - 1);
      StaysNotRunning(run, steps, i, m - 1);
      OthersKeepNotRunning(run(m - 1), steps(m - 1));
      assert run(m - 1 + 1) == run(m);
    }
  }

  lemma FirstMove(run: nat -> State, steps: nat -> Label, i: nat) returns (m: nat)
    requires IsInfiniteRun(run, steps) && Fair(run, steps) && run(i).ctl == CStartCheck
    ensures m >= i && steps(m).Control? && forall k :: i <= k <= m ==> run(k).ctl == CStartCheck
    ensures run(i).status != Running ==> run(m).status != Running
  {
    var served := ControlMoves(run, steps, i);
    m := i;
    while ActorOf(steps(m)) != Controller
      invariant i <= m <= served
      invariant forall k :: i <= k < m ==> ActorOf(steps(k)) != Controller
      decreases served - m
    {
      m := m + 1;
    }
    if run(i).status != Running {
      StaysNotRunning(run, steps, i, m);
    }
  }

  /** execute_start, begun while the pipeline is not RUNNING. */
  lemma StartFrom(run: nat -> State, steps: nat -> Label, i: nat) returns (on: nat, j: nat)
    requires IsInfiniteRun(run, steps) && Fair(run, steps)
    requires run(i).ctl == CStartCheck && run(i).status != Running
    ensures Starts(run, i, on, j) && run(j).ctl == CIdle
    ensures forall k :: i <= k < j ==> run(k).ctl != CIdle
  {
    var m := FirstMove(run, steps, i);
    on, j := StartGoesOn(run, steps, m);
    StartsLater(run, i, m, on, j);
  }

  /** START in a pipeline that is not RUNNING sets it RUNNING, from STOPPED without workers, and then
      has all three workers when it is back at the queue, unless a start failed. */
  lemma StartStarts(run: nat -> State, steps: nat -> Label, i: nat) returns (on: nat, j: nat)
    requires IsInfiniteRun(run, steps) && Fair(run, steps) && IsTaken(run, steps, i, CmdStart)
    requires run(i).status != Running
    ensures Starts(run, i, on, j) && run(j).ctl == CIdle && Busy(run, i, j - 1)
  {
    TakenLeads(run, steps, i, CmdStart);
    on, j := StartFrom(run, steps, i + 1);
    StartsLater(run, i, i + 1, on, j);
  }

  /** RESTART brings the pipeline to STOPPED without a worker and only then to RUNNING, before it
      takes the next command; then all three workers exist, unless a start failed. */
  lemma RestartStopsThenStarts(run: nat -> State, steps: nat -> Label, i: nat) returns (off: nat, on: nat, j: nat)
    requires IsInfiniteRun(run, steps) && Fair(run, steps) && IsTaken(run, steps, i, CmdRestart)
    ensures i < off < on < j && run(off).status == Stopped && NoWorkers(run(off))
    ensures NeverSetRunning(run, i, off)
    ensures Starts(run, i, on, j) && run(j).ctl == CIdle && Busy(run, i, j - 1)
  {
    off := CommandStops(run, steps, i, CmdRestart);
    on, j := StartFrom(run, steps, off);
    StartsLater(run, i, off, on, j);
  }

  /** START in a pipeline that is still RUNNING when execute_start looks at it, and an unknown command,
      change nothing. */
  lemma IgnoredChangesNothing(s: State, cmd: Command)
    requires s.ctl == CIdle && s.cq.items != [] && s.cq.items[0] == cmd
    requires cmd == CmdUnkn || (cmd == CmdStart && s.status == Running)
    ensures var t := Step(s, Control(CGo));
            if cmd == CmdUnkn then t == s.(cq := t.cq)
            else t.ctl != CIdle && Enabled(t, Control(CGo)) && Step(t, Control(CGo)) == s.(cq := t.cq)
  {
  }

  /** What a command that is taken at `i` has done when the control thread is back at its queue. */
  ghost predicate Obeyed(run: nat -> State, i: nat, cmd: Command, j: nat) {
    && i < j && run(j).ctl == CIdle && Busy(run, i, j - 1)
    && match cmd
       case CmdUnkn => j == i + 1 && run(j).status == run(i).status
       case CmdStop => run(j).status == Stopped && NoWorkers(run(j)) && NeverSetRunning(run, i, j)
       case CmdTerminate =>
         && run(j).status == Terminated && NoWorkers(run(j))
         && ComesToStop(run, i, j) && NeverSetRunning(run, i, j)
       case CmdStart => run(i).status == Running || exists on :: Starts(run, i, on, j)
       case CmdRestart =>
         exists off, on ::
           && i < off < on && run(off).status == Stopped && NoWorkers(run(off))
           && NeverSetRunning(run, i, off) && Starts(run, i, on, j)
  }

  lemma TakenIsObeyed(run: nat -> State, steps: nat -> Label, i: nat, cmd: Command) returns (j: nat)
    requires IsInfiniteRun(run, steps) && Fair(run, steps) && IsTaken(run, steps, i, cmd)
    ensures Obeyed(run, i, cmd, j)
  {
    match cmd {
      case CmdUnkn => TakenLeads(run, steps, i, cmd); j := i + 1;
      case CmdStop => j := StopStops(run, steps, i);
      case CmdTerminate => j := TerminateTerminates(run, steps, i);
      case CmdRestart =>
        var off, on;
        off, on, j := RestartStopsThenStarts(run, steps, i);
      case CmdStart =>
        if run(i).status == Running {
          TakenLeads(run, steps, i, cmd);
          j := IdleAgain(run, steps, i + 1);
        } else {
          var on;
          on, j := StartStarts(run, steps, i);
        }
    }
  }

  /** Every queued command is taken, and then done to the end before the next one is looked at. */
  lemma EveryCommandIsObeyed(run: nat -> State, steps: nat -> Label, i: nat, n: nat) returns (taken: nat, done: nat)
    requires IsInfiniteRun(run, steps) && Fair(run, steps) && n < |run(i).cq.items|
    ensures i <= taken && IsTaken(run, steps, taken, run(i).cq.items[n])
    ensures Obeyed(run, taken, run(i).cq.items[n], done)
  {
    taken := EveryCommandIsTaken(run, steps, i, n);
    done := TakenIsObeyed(run, steps, taken, run(i).cq.items[n]);
  }
}
