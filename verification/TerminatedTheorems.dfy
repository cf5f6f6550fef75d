/** What becomes of a pipeline that has reached TERMINATED. */
module TerminatedTheorems {
  import opened Queues
  import opened Runtime
  import opened RuntimeTheorems

  // --------------------------------------------------------------------------------------------
  // When TERMINATED stays
  // --------------------------------------------------------------------------------------------

  predicate OnlyUnknown(cmds: seq<Command>) {
    forall i :: 0 <= i < |cmds| ==> cmds[i] == CmdUnkn
  }

  /** The control thread is idle, and no command that it knows is queued or about to be pushed. */
  predicate Quiet(s: State) {
    s.ctl == CIdle && OnlyUnknown(s.cq.items) && forall c :: c in s.calls ==> c == CmdUnkn
  }

  /** The control thread executes a command, or finds one in its queue. */
  predicate HasCommand(s: State) {
    s.ctl != CIdle || !OnlyUnknown(s.cq.items)
  }

  function Skipped(cmds: seq<Command>): (n: nat)
    ensures n <= |cmds|
  {
    if cmds == [] || cmds[0] != CmdUnkn then 0 else 1 + Skipped(cmds[1..])
  }

  lemma {:induction false} SkippedGrows(cmds: seq<Command>, cmd: Command)
    requires !OnlyUnknown(cmds)
    ensures Skipped(cmds + [cmd]) == Skipped(cmds) < |cmds|
  {
    if cmds[0] == CmdUnkn {
      assert (cmds + [cmd])[1..] == cmds[1..] + [cmd];
      SkippedGrows(cmds[1..], cmd);
    }
  }

  /** How many steps of the control thread are left before it writes STOPPING. */
  function Distance(s: State): nat {
    match s.ctl
    case CStopWrite(_) => 1
    case CStopCheck(_) => 2
    case CStartCheck => 3
    case _ => 4 + Skipped(s.cq.items)
  }

  /** Where the control thread is in TERMINATED. */
  predicate BeforeStopping(c: CtlPc) {
    c == CIdle || c.CStartCheck? || c.CStopCheck? || c.CStopWrite?
  }

  /** In TERMINATED no worker exists, so only the control thread and calls of execute() move. */
  lemma OnlyCommandsMove(s: State, l: Label)
    requires Inv(s) && s.status == Terminated && Enabled(s, l)
    ensures l == Idle || l.Push? || l.Control?
    ensures BeforeStopping(s.ctl)
  {
  }

  lemma QuietStays(s: State, l: Label)
    requires Inv(s) && s.status == Terminated && Enabled(s, l) && Quiet(s)
    ensures Step(s, l).status == Terminated && Quiet(Step(s, l))
  {
    OnlyCommandsMove(s, l);
    var t := Step(s, l);
    if l.Push? {
      assert forall c :: c in t.calls ==> c in s.calls;
    }
  }

  lemma PushKeepsDistance(s: State, cmd: Command)
    requires BeforeStopping(s.ctl) && cmd in s.calls && HasCommand(s)
    ensures var t := Step(s, Push(cmd)); HasCommand(t) && Distance(t) == Distance(s)
  {
    var t := Step(s, Push(cmd));
    if s.ctl == CIdle {
      SkippedGrows(s.cq.items, cmd);
      var i :| 0 <= i < |s.cq.items| && s.cq.items[i] != CmdUnkn;
      assert t.cq.items[i] == s.cq.items[i];
    }
  }

  lemma ControlComesCloser(s: State, e: CtlEvent)
    requires BeforeStopping(s.ctl) && s.status == Terminated && CtlEnabled(s, e) && HasCommand(s)
    ensures var t := CtlStep(s, e);
            t.status == Terminated ==> HasCommand(t) && Distance(t) < Distance(s)
  {
    var t := CtlStep(s, e);
    if s.ctl == CIdle && s.cq.items[0] == CmdUnkn {
      var i :| 0 <= i < |s.cq.items| && s.cq.items[i] != CmdUnkn;
      assert t.cq.items[i - 1] == s.cq.items[i];
    }
  }

  lemma CommandComesCloser(s: State, l: Label)
    requires Inv(s) && s.status == Terminated && Enabled(s, l) && HasCommand(s)
    ensures var t := Step(s, l);
            t.status == Terminated ==>
              && HasCommand(t)
              && (if ActorOf(l) == Controller then Distance(t) < Distance(s) else Distance(t) == Distance(s))
  {
    OnlyCommandsMove(s, l);
    if l.Push? {
      PushKeepsDistance(s, l.cmd);
    } else if l.Control? {
      ControlComesCloser(s, l.c);
    }
  }

  /** While nothing but a call that is about to push disturbs the quiet. */
  lemma CallsAreUsedUp(s: State, l: Label)
    requires Inv(s) && s.status == Terminated && Enabled(s, l) && !Quiet(s) && !HasCommand(s)
    ensures var t := Step(s, l);
            && t.status == Terminated && !Quiet(t)
            && (if ActorOf(l) == Client then |t.calls| < |s.calls| else t.calls == s.calls)
  {
    OnlyCommandsMove(s, l);
    var t := Step(s, l);
    var c :| c in s.calls && c != CmdUnkn;
    if l.Push? {
      if l.cmd == c {
        assert t.cq.items[|s.cq.items|] == c;
      } else {
        assert c in t.calls;
      }
    }
  }

  /** What one step does to a terminated pipeline. */
  ghost predicate Advances(s: State, t: State, a: Actor) {
    && (Quiet(s) ==> t.status == Terminated && Quiet(t))
    && (HasCommand(s) ==>
          && Ready(s, Controller)
          && (t.status == Terminated ==>
                && HasCommand(t)
                && (if a == Controller then Distance(t) < Distance(s) else Distance(t) == Distance(s))))
    && (!Quiet(s) && !HasCommand(s) ==>
          && Ready(s, Client)
          && t.status == Terminated && !Quiet(t)
          && (if a == Client then |t.calls| < |s.calls| else t.calls == s.calls))
  }

  lemma CommandIsReady(s: State)
    requires Inv(s) && s.status == Terminated && HasCommand(s)
    ensures Ready(s, Controller)
  {
    OnlyCommandsMove(s, Idle);
  }

  lemma StepAdvances(run: nat -> State, steps: nat -> Label, m: nat)
    requires IsInfiniteRun(run, steps) && run(m).status == Terminated
    ensures Advances(run(m), run(m + 1), ActorOf(steps(m)))
  {
    assert IsStepAt(run, steps, m);
    InfiniteRunKeepsInv(run, steps, m);
    if Quiet(run(m)) {
      QuietStays(run(m), steps(m));
    } else if HasCommand(run(m)) {
      CommandIsReady(run(m));
      CommandComesCloser(run(m), steps(m));
    } else {
      CallsAreUsedUp(run(m), steps(m));
    }
  }

  lemma {:induction false} CommandLeaves(run: nat -> State, steps: nat -> Label, i: nat) returns (j: nat)
    requires forall m: nat :: run(m).status == Terminated ==> Advances(run(m), run(m + 1), ActorOf(steps(m)))
    requires IsServed(run, steps, Controller)
    requires run(i).status == Terminated && HasCommand(run(i))
    ensures j >= i && run(j).status != Terminated
    decreases Distance(run(i))
  {
    var served := NextServed(run, steps, Controller, i);
    var m := i;
    while m < served
      invariant i <= m <= served
      invariant run(m).status == Terminated && HasCommand(run(m)) && Distance(run(m)) == Distance(run(i))
    {
      assert Advances(run(m), run(m + 1), ActorOf(steps(m)));
      m := m + 1;
      if run(m).status != Terminated {
        return m;
      }
    }
    assert Advances(run(m), run(m + 1), ActorOf(steps(m)));
    if run(m + 1).status != Terminated {
      return m + 1;
    }
    j := CommandLeaves(run, steps, m + 1);
  }

  lemma {:induction false} UnquietLeaves(run: nat -> State, steps: nat -> Label, i: nat) returns (j: nat)
    requires forall m: nat :: run(m).status == Terminated ==> Advances(run(m), run(m + 1), ActorOf(steps(m)))
    requires IsServed(run, steps, Controller) && IsServed(run, steps, Client)
    requires run(i).status == Terminated && !Quiet(run(i))
    ensures j >= i && run(j).status != Terminated
    decreases |run(i).calls|
  {
    var served := NextServed(run, steps, Client, i);
    var m := i;
    while m < served && !HasCommand(run(m))
      invariant i <= m <= served
      invariant run(m).status == Terminated && !Quiet(run(m)) && run(m).calls == run(i).calls
    {
      assert Advances(run(m), run(m + 1), ActorOf(steps(m)));
      m := m + 1;
    }
    if HasCommand(run(m)) {
      j := CommandLeaves(run, steps, m);
    } else {
      assert Advances(run(m), run(m + 1), ActorOf(steps(m)));
      j := UnquietLeaves(run, steps, m + 1);
    }
  }

  lemma {:induction false} QuietForever(run: nat -> State, steps: nat -> Label, i: nat, j: nat)
    requires forall m: nat :: run(m).status == Terminated ==> Advances(run(m), run(m + 1), ActorOf(steps(m)))
    requires i <= j && run(i).status == Terminated && Quiet(run(i))
    ensures run(j).status == Terminated && Quiet(run(j))
    decreases j - i
  {
    if i < j {
      QuietForever(run, steps, i, j - 1);
      assert Advances(run(j - 1), run(j - 1 + 1), ActorOf(steps(j - 1)));
    }
  }

  /** A terminated pipeline stays TERMINATED exactly when, at that time, the control thread is idle
      and every command in its queue, or of a call that has yet to push, is unknown to it.  START,
      STOP, RESTART and a second TERMINATE all leave the state. */
  lemma TerminatedStaysIff(run: nat -> State, steps: nat -> Label, i: nat)
    requires IsInfiniteRun(run, steps) && IsServed(run, steps, Controller) && IsServed(run, steps, Client)
    requires run(i).status == Terminated
    ensures (forall j: nat :: j >= i ==> run(j).status == Terminated) <==> Quiet(run(i))
  {
    forall m: nat | run(m).status == Terminated ensures Advances(run(m), run(m + 1), ActorOf(steps(m))) {
      StepAdvances(run, steps, m);
    }
    if Quiet(run(i)) {
      forall j: nat | j >= i ensures run(j).status == Terminated {
        QuietForever(run, steps, i, j);
      }
    } else {
      var j := UnquietLeaves(run, steps, i);
    }
  }

  // --------------------------------------------------------------------------------------------
  // A run that leaves it
  // --------------------------------------------------------------------------------------------

  /** START queued behind TERMINATE restarts the pipeline, so TERMINATED is not absorbing. */
  lemma TerminatedIsNotFinal()
    ensures exists states: seq<State>, labels: seq<Label>, i: nat, k: nat ::
              IsRun(states, labels) && i < k < |states|
              && states[i].status == Terminated && states[k].status == Running
  {
    var states, labels := [INITIAL], [];
    var n := 0;
    while n < 19
      invariant n <= 19 && |labels| == n && IsRun(states, labels)
      invariant n >= 7 ==> states[7] == RestartState(7)
      invariant states[n] == RestartState(n)
    {
      RestartGoesOn(n);
      states, labels := Extend(states, labels, RestartLabel(n));
      n := n + 1;
    }
    assert states[19].status == Running;
  }

  lemma RestartGoesOn(n: nat)
    requires n < 19
    ensures Enabled(RestartState(n), RestartLabel(n))
    ensures Step(RestartState(n), RestartLabel(n)) == RestartState(n + 1)
  {
    if n < 4 {
      CallsArrive(n);
    } else if n < 10 {
      CommandsAreTaken(n);
    } else {
      ControllerRestarts(n);
    }
  }

  lemma CallsArrive(n: nat)
    requires n < 4
    ensures Enabled(RestartState(n), RestartLabel(n))
    ensures Step(RestartState(n), RestartLabel(n)) == RestartState(n + 1)
  {
    var both := multiset{CmdTerminate, CmdStart};
    if n == 1 {
      assert multiset{CmdTerminate} + multiset{CmdStart} == both;
    } else if n == 2 {
      assert both - multiset{CmdTerminate} == multiset{CmdStart};
    } else if n == 3 {
      assert multiset{CmdStart} - multiset{CmdStart} == multiset{};
      assert [CmdTerminate] + [CmdStart] == [CmdTerminate, CmdStart];
    }
  }

  lemma CommandsAreTaken(n: nat)
    requires 4 <= n < 10
    ensures Enabled(RestartState(n), RestartLabel(n))
    ensures Step(RestartState(n), RestartLabel(n)) == RestartState(n + 1)
  {
  }

  lemma ControllerRestarts(n: nat)
    requires 10 <= n < 19
    ensures Enabled(RestartState(n), RestartLabel(n))
    ensures Step(RestartState(n), RestartLabel(n)) == RestartState(n + 1)
  {
  }

  function RestartLabel(n: nat): Label {
    match n
    case 0 => Call(CmdTerminate)
    case 1 => Call(CmdStart)
    case 2 => Push(CmdTerminate)
    case 3 => Push(CmdStart)
    case _ => Control(CGo)
  }

  /** Two calls, and then the controller alone. */
  function RestartState(n: nat): State {
    var dead := INITIAL.(status := Terminated);
    var halted := dead.(status := Stopping, inputStopped := true);
    var freed := halted.(sq := Queue([], false, 0));
    match n
    case 0 => INITIAL
    case 1 => INITIAL.(calls := multiset{CmdTerminate})
    case 2 => INITIAL.(calls := multiset{CmdTerminate, CmdStart})
    case 3 => INITIAL.(calls := multiset{CmdStart}, cq := Queue([CmdTerminate], true, 0))
    case 4 => INITIAL.(cq := Queue([CmdTerminate, CmdStart], true, 0))
    case 5 => INITIAL.(cq := Queue([CmdStart], true, 0), ctl := CStopCheck(ThenTerminate))
    case 6 => INITIAL.(cq := Queue([CmdStart], true, 0), ctl := CWriteTerminated)
    case 7 => dead.(cq := Queue([CmdStart], true, 0))
    case 8 => dead.(ctl := CStartCheck)
    case 9 => dead.(ctl := CStopCheck(ThenRun))
    case 10 => dead.(ctl := CStopWrite(ThenRun))
    case 11 => dead.(status := Stopping, ctl := CStopConnector(ThenRun))
    case 12 => halted.(ctl := CSetNonBlocking(ThenRun))
    case 13 => freed.(ctl := CJoinReceiver(ThenRun))
    case 14 => freed.(ctl := CAwaitProcessor(ThenRun))
    case 15 => freed.(ctl := CJoinProcessor(ThenRun))
    case 16 => freed.(ctl := CJoinSender(ThenRun))
    case 17 => freed.(ctl := CWriteStopped(ThenRun))
    case 18 => freed.(status := Stopped, ctl := CStartWrite)
    case _ => freed.(status := Running, ctl := CSetBlocking)
  }
}
