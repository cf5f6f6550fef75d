/** The four threads of one pipeline as a labelled step system.

    Receiver, processor, sender and controller interleave over the receive queue, the send queue
    and the command queue.  One step is one access to a shared variable, one queue operation or
    one call into a connector or filtra; every such call may fail.  The processor's recursive
    call of `process` is a stack of frames (see `Frame`).  `Log` records what has happened so
    far; no step reads it.
 */
module Runtime {
  import opened Queues

  type Payload = string

  datatype PipelineState =
    | Unkn | Stopped | Running | Malformed | Failed | Starting | Stopping | Terminated

  datatype Command = CmdUnkn | CmdStop | CmdStart | CmdRestart | CmdTerminate

  datatype ThreadState = TUnkn | TStarting | TRunning | TFinished

  datatype Role = Sending | Processing | Receiving

  /** What the processor hands to the send queue: `origin` is the position, in receive order, of
      the message whose processing produced it. */
  datatype Out = Out(origin: nat, payload: Payload)

  datatype RecvPc =
    | RStarting | RConnecting | RConnectFailed | RConnected | RReady
    | RLoop | RReceiving | RPushing(msg: Payload) | RNotifying
    | RDisconnecting | RDisconnectFailed | RFinishing | RExited

  datatype SendPc =
    | SStarting | SConnecting | SConnectFailed | SConnected | SReady
    | SLoop | SPopping | SSending(out: Out)
    | SDisconnecting | SDisconnectFailed | SFinishing | SExited

  /** One activation of `process`: at the loop head, inside a filtra (after the activity check),
      or generating, with `left` messages still to come from the filtra that answered "self". */
  datatype Frame = AtHead | InFiltra | Generating(left: nat)

  datatype ProcPc =
    | PStarting | PFiltras | PStartFailed | PReady
    | POuter | PHead | PPopping | PWalking(frames: seq<Frame>) | PThrown
    | PParking | PWaiting | PNotified
    | PFinishing | PExited

  /** Where execute_stop returns to. */
  datatype Then = ThenIdle | ThenStart | ThenRun | ThenTerminate

  datatype CtlPc =
    | CIdle | CThrown | CDead
    | CStartCheck | CStartWrite | CSetBlocking | CLaunch(role: Role) | CAwait(role: Role)
    | CStopCheck(next: Then) | CStopWrite(next: Then) | CStopConnector(next: Then)
    | CSetNonBlocking(next: Then) | CJoinReceiver(next: Then) | CAwaitProcessor(next: Then)
    | CJoinProcessor(next: Then) | CJoinSender(next: Then) | CWriteStopped(next: Then)
    | CWriteTerminated

  /** `handle` is the non-null thread pointer; `tstate` outlives the thread and is not reset. */
  datatype Worker<Pc> = Worker(handle: bool, tstate: ThreadState, pc: Pc)

  datatype Log = Log(
    received: seq<Payload>,
    processed: seq<Payload>,
    blocks: seq<seq<Out>>,
    pushed: seq<Out>,
    handed: seq<Out>,
    attempted: seq<Out>,
    startedTwice: bool)

  /** `calls` are the calls of execute() that have found the pipeline alive and not pushed yet. */
  datatype State = State(
    status: PipelineState,
    rq: Queue<Payload>,
    sq: Queue<Out>,
    cq: Queue<Command>,
    calls: multiset<Command>,
    recv: Worker<RecvPc>,
    proc: Worker<ProcPc>,
    send: Worker<SendPc>,
    ctl: CtlPc,
    inputStopped: bool,
    log: Log)

  /** A pipeline whose preparation has just succeeded. */
  const INITIAL := State(
    Stopped, Queue([], false, 0), Queue([], true, 0), Queue([], true, 0), multiset{},
    Worker(false, TUnkn, RExited), Worker(false, TUnkn, PExited), Worker(false, TUnkn, SExited),
    CIdle, false, Log([], [], [], [], [], [], false))

  // --------------------------------------------------------------------------------------------
  // Steps
  // --------------------------------------------------------------------------------------------

  datatype RecvEvent = RGo | RGot(msg: Payload) | RUnderflow | RFail

  datatype ProcEvent =
    | PGo | PFail | PEnter | PEmit(payload: Payload) | PAdvance | PDrop | PSplit(count: nat)
    | PNextChunk | PThrow | PUnderflow

  datatype SendEvent = SGo | SUnderflow | SFail

  datatype CtlEvent = CGo | CTimeout

  datatype Label =
    | Idle
    | Call(cmd: Command)
    | Push(cmd: Command)
    | SpuriousWakeup
    | Receive(r: RecvEvent)
    | Process(p: ProcEvent)
    | Send(s: SendEvent)
    | Control(c: CtlEvent)

  predicate IsActive(s: State) {
    s.status == Running
  }

  predicate IsAlive(s: State) {
    s.status != Malformed && s.status != Terminated
  }

  function NotifyProcessor(p: Worker<ProcPc>): Worker<ProcPc> {
    if p.pc == PWaiting then p.(pc := PNotified) else p
  }

  // The receiving thread.

  predicate RecvEnabled(s: State, e: RecvEvent) {
    s.recv.handle && s.recv.pc != RExited &&
    match s.recv.pc
    case RReceiving => e != RGo
    case RConnecting => e == RGo || e == RFail
    case RDisconnecting => e == RGo || e == RFail
    case _ => e == RGo
  }

  function RecvStep(s: State, e: RecvEvent): State
    requires RecvEnabled(s, e)
  {
    var w := s.recv;
    match w.pc
    case RStarting => s.(recv := w.(tstate := TStarting, pc := RConnecting))
    case RConnecting =>
      s.(recv := w.(pc := if e == RFail then RConnectFailed else RConnected), inputStopped := false)
    case RConnectFailed => s.(status := Failed, recv := w.(pc := RConnected))
    case RConnected => s.(recv := w.(pc := if s.status != Failed then RReady else RDisconnecting))
    case RReady => s.(recv := w.(tstate := TRunning, pc := RLoop))
    case RLoop => s.(recv := w.(pc := if IsActive(s) then RReceiving else RDisconnecting))
    case RReceiving =>
      (match e
       case RGot(m) => s.(recv := w.(pc := RPushing(m)),
                          log := s.log.(received := s.log.received + [m]))
       case RUnderflow => s.(recv := w.(pc := RDisconnecting))
       case _ => s.(recv := w.(pc := RLoop)))
    case RPushing(m) => s.(rq := s.rq.Add(m), recv := w.(pc := RNotifying))
    case RNotifying => s.(proc := NotifyProcessor(s.proc), recv := w.(pc := RLoop))
    case RDisconnecting => s.(recv := w.(pc := if e == RFail then RDisconnectFailed else RFinishing))
    case RDisconnectFailed => s.(status := Failed, recv := w.(pc := RFinishing))
    case RFinishing => s.(recv := w.(tstate := TFinished, pc := RExited))
    case RExited => s
  }

  // The processing thread.

  function Top(frames: seq<Frame>): Frame
    requires frames != []
  {
    frames[|frames| - 1]
  }

  function Below(frames: seq<Frame>): seq<Frame>
    requires frames != []
  {
    frames[..|frames| - 1]
  }

  function Resume(frames: seq<Frame>): ProcPc {
    if frames == [] then PHead else PWalking(frames)
  }

  predicate WalkEnabled(s: State, frames: seq<Frame>, e: ProcEvent) {
    frames != [] &&
    match Top(frames)
    case AtHead => e.PEmit? || (e == PEnter && IsActive(s))
    case InFiltra => e.PAdvance? || e.PDrop? || e.PSplit? || e.PThrow? || e.PUnderflow?
    case Generating(left) => if left == 0 then e.PDrop? || e.PThrow? else e.PNextChunk? || e.PThrow?
  }

  predicate ProcEnabled(s: State, e: ProcEvent) {
    s.proc.handle &&
    match s.proc.pc
    case PExited => false
    case PWaiting => false
    case PWalking(frames) => WalkEnabled(s, frames, e)
    case PFiltras => e == PGo || e == PFail
    case _ => e == PGo
  }

  function Emit(s: State, payload: Payload, below: seq<Frame>): State {
    var n := |s.log.blocks|;
    if n == 0 then s else
    var out := Out(n - 1, payload);
    s.(sq := s.sq.Add(out),
       proc := s.proc.(pc := Resume(below)),
       log := s.log.(pushed := s.log.pushed + [out],
                     blocks := s.log.blocks[n - 1 := s.log.blocks[n - 1] + [out]]))
  }

  function WalkStep(s: State, frames: seq<Frame>, e: ProcEvent): State
    requires WalkEnabled(s, frames, e)
  {
    var w := s.proc;
    var below := Below(frames);
    match e
    case PEnter => s.(proc := w.(pc := PWalking(below + [InFiltra])))
    case PEmit(payload) => Emit(s, payload, below)
    case PAdvance => s.(proc := w.(pc := PWalking(below + [AtHead])))
    case PSplit(count) => s.(proc := w.(pc := PWalking(below + [Generating(count)])))
    case PNextChunk =>
      s.(proc := w.(pc := PWalking(below + [Generating(Top(frames).left - 1), AtHead])))
    case PThrow => s.(proc := w.(pc := PThrown))
    case PUnderflow => s.(proc := w.(pc := PParking))
    case _ => s.(proc := w.(pc := Resume(below)))
  }

  function ProcStep(s: State, e: ProcEvent): State
    requires ProcEnabled(s, e)
  {
    var w := s.proc;
    match w.pc
    case PStarting => s.(proc := w.(tstate := TStarting, pc := PFiltras))
    case PFiltras => s.(proc := w.(pc := if e == PFail then PStartFailed else PReady))
    case PStartFailed => s.(status := Failed, proc := w.(pc := PReady))
    case PReady => s.(proc := w.(tstate := TRunning, pc := POuter))
    case POuter => s.(proc := w.(pc := if IsActive(s) then PHead else PFinishing))
    case PHead => s.(proc := w.(pc := if IsActive(s) then PPopping else PParking))
    case PPopping =>
      if s.rq.items == [] then s.(proc := w.(pc := PParking)) else
      s.(rq := s.rq.Remove(),
         proc := w.(pc := PWalking([AtHead])),
         log := s.log.(processed := s.log.processed + [s.rq.items[0]],
                       blocks := s.log.blocks + [[]]))
    case PWalking(frames) => WalkStep(s, frames, e)
    case PThrown => s.(status := Failed, proc := w.(pc := PFinishing))
    case PParking => s.(proc := w.(pc := PWaiting))
    case PNotified => s.(proc := w.(pc := POuter))
    case PFinishing => s.(proc := w.(tstate := TFinished, pc := PExited))
    case _ => s
  }

  // The sending thread.

  predicate SendEnabled(s: State, e: SendEvent) {
    s.send.handle && s.send.pc != SExited &&
    match s.send.pc
    case SPopping => e == SGo && s.sq.CanPop()
    case SSending(_) => true
    case SConnecting => e != SUnderflow
    case SDisconnecting => e != SUnderflow
    case _ => e == SGo
  }

  function SendStep(s: State, e: SendEvent): State
    requires SendEnabled(s, e)
  {
    var w := s.send;
    match w.pc
    case SStarting => s.(send := w.(tstate := TStarting, pc := SConnecting))
    case SConnecting => s.(send := w.(pc := if e == SFail then SConnectFailed else SConnected))
    case SConnectFailed => s.(status := Failed, send := w.(pc := SConnected))
    case SConnected => s.(send := w.(pc := if s.status != Failed then SReady else SDisconnecting))
    case SReady => s.(send := w.(tstate := TRunning, pc := SLoop))
    case SLoop => s.(send := w.(pc := if IsActive(s) then SPopping else SDisconnecting))
    case SPopping =>
      if s.sq.items == [] then s.(send := w.(pc := SDisconnecting)) else
      s.(sq := s.sq.Remove(),
         send := w.(pc := SSending(s.sq.items[0])),
         log := s.log.(handed := s.log.handed + [s.sq.items[0]]))
    case SSending(out) =>
      s.(send := w.(pc := if e == SUnderflow then SDisconnecting else SLoop),
         log := s.log.(attempted := s.log.attempted + [out]))
    case SDisconnecting => s.(send := w.(pc := if e == SFail then SDisconnectFailed else SFinishing))
    case SDisconnectFailed => s.(status := Failed, send := w.(pc := SFinishing))
    case SFinishing => s.(send := w.(tstate := TFinished, pc := SExited))
    case SExited => s
  }

  // The control thread.

  predicate HasHandle(s: State, role: Role) {
    match role
    case Sending => s.send.handle
    case Processing => s.proc.handle
    case Receiving => s.recv.handle
  }

  function ThreadStateOf(s: State, role: Role): ThreadState {
    match role
    case Sending => s.send.tstate
    case Processing => s.proc.tstate
    case Receiving => s.recv.tstate
  }

  function Launch(s: State, role: Role): State {
    match role
    case Sending => s.(send := s.send.(handle := true, pc := SStarting))
    case Processing => s.(proc := s.proc.(handle := true, pc := PStarting))
    case Receiving => s.(recv := s.recv.(handle := true, pc := RStarting))
  }

  function AfterAwait(role: Role): CtlPc {
    match role
    case Sending => CLaunch(Processing)
    case Processing => CLaunch(Receiving)
    case Receiving => CIdle
  }

  function Return(next: Then): CtlPc {
    match next
    case ThenIdle => CIdle
    case ThenStart => CStartCheck
    case ThenRun => CStartWrite
    case ThenTerminate => CWriteTerminated
  }

  function Dispatch(cmd: Command): CtlPc {
    match cmd
    case CmdStart => CStartCheck
    case CmdStop => CStopCheck(ThenIdle)
    case CmdRestart => CStopCheck(ThenStart)
    case CmdTerminate => CStopCheck(ThenTerminate)
    case CmdUnkn => CIdle
  }

  /** A worker still reports starting or running. */
  predicate IsBusy(t: ThreadState) {
    t == TRunning || t == TStarting
  }

  predicate CtlEnabled(s: State, e: CtlEvent) {
    match s.ctl
    case CDead => false
    case CIdle => e == CGo && s.cq.items != []
    case CAwait(role) => true
    case CJoinReceiver(_) => e == CGo && (s.recv.handle ==> s.recv.pc == RExited)
    case CJoinProcessor(_) => e == CGo && (s.proc.handle ==> s.proc.pc == PExited)
    case CJoinSender(_) => e == CGo && (s.send.handle ==> s.send.pc == SExited)
    case _ => e == CGo
  }

  function CtlStep(s: State, e: CtlEvent): State
    requires CtlEnabled(s, e)
  {
    match s.ctl
    case CIdle => s.(cq := s.cq.Remove(), ctl := Dispatch(s.cq.items[0]))
    case CThrown => s.(ctl := if IsAlive(s) then CIdle else CDead)
    case CDead => s
    case CStartCheck =>
      s.(ctl := if s.status == Running || s.status == Starting then CIdle
                else if s.status != Stopped then CStopCheck(ThenRun)
                else CStartWrite)
    case CStartWrite => s.(status := Running, ctl := CSetBlocking)
    case CSetBlocking => s.(sq := s.sq.(blocking := true), ctl := CLaunch(Sending))
    case CLaunch(role) =>
      if HasHandle(s, role) then s.(ctl := CThrown, log := s.log.(startedTwice := true))
      else Launch(s, role).(ctl := CAwait(role))
    case CAwait(role) =>
      if ThreadStateOf(s, role) == TStarting || ThreadStateOf(s, role) == TUnkn then
        (if e == CTimeout then s.(ctl := CThrown) else s)
      else s.(ctl := AfterAwait(role))
    case CStopCheck(next) =>
      s.(ctl := if s.status == Malformed || s.status == Stopped || s.status == Stopping
                then Return(next) else CStopWrite(next))
    case CStopWrite(next) => s.(status := Stopping, ctl := CStopConnector(next))
    case CStopConnector(next) => s.(inputStopped := true, ctl := CSetNonBlocking(next))
    case CSetNonBlocking(next) => s.(sq := s.sq.(blocking := false), ctl := CJoinReceiver(next))
    case CJoinReceiver(next) => s.(recv := s.recv.(handle := false), ctl := CAwaitProcessor(next))
    case CAwaitProcessor(next) =>
      if IsBusy(s.proc.tstate) then s.(proc := NotifyProcessor(s.proc))
      else s.(ctl := CJoinProcessor(next))
    case CJoinProcessor(next) => s.(proc := s.proc.(handle := false), ctl := CJoinSender(next))
    case CJoinSender(next) => s.(send := s.send.(handle := false), ctl := CWriteStopped(next))
    case CWriteStopped(next) => s.(status := Stopped, ctl := Return(next))
    case CWriteTerminated => s.(status := Terminated, ctl := CIdle)
  }

  predicate Enabled(s: State, l: Label) {
    match l
    case Idle => true
    case Call(_) => IsAlive(s)
    case Push(cmd) => cmd in s.calls
    case SpuriousWakeup => s.proc.pc == PWaiting
    case Receive(e) => RecvEnabled(s, e)
    case Process(e) => ProcEnabled(s, e)
    case Send(e) => SendEnabled(s, e)
    case Control(e) => CtlEnabled(s, e)
  }

  function Step(s: State, l: Label): State
    requires Enabled(s, l)
  {
    match l
    case Idle => s
    case Call(cmd) => s.(calls := s.calls + multiset{cmd})
    case Push(cmd) => s.(cq := s.cq.Add(cmd), calls := s.calls - multiset{cmd})
    case SpuriousWakeup => s.(proc := NotifyProcessor(s.proc))
    case Receive(e) => RecvStep(s, e)
    case Process(e) => ProcStep(s, e)
    case Send(e) => SendStep(s, e)
    case Control(e) => CtlStep(s, e)
  }

  // --------------------------------------------------------------------------------------------
  // Invariant
  // --------------------------------------------------------------------------------------------

  predicate NoWorkers(s: State) {
    !s.recv.handle && !s.proc.handle && !s.send.handle
  }

  predicate HandlesInv(s: State) {
    && (!s.recv.handle ==> s.recv.pc == RExited)
    && (!s.proc.handle ==> s.proc.pc == PExited)
    && (!s.send.handle ==> s.send.pc == SExited)
    && (s.status == Stopped || s.status == Terminated ==> NoWorkers(s))
  }

  predicate AtRest(st: PipelineState) {
    st == Stopped || st == Running || st == Failed || st == Terminated
  }

  predicate Launching(st: PipelineState) {
    st == Running || st == Failed
  }

  predicate Halting(st: PipelineState) {
    st == Stopping || st == Failed
  }

  /** What each control point knows about the pipeline state and the worker handles. */
  predicate ControlInv(s: State) {
    match s.ctl
    case CIdle => AtRest(s.status)
    case CThrown => Launching(s.status)
    case CDead => false
    case CStartCheck => AtRest(s.status)
    case CStartWrite => s.status == Stopped
    case CSetBlocking => s.status == Running && NoWorkers(s)
    case CLaunch(Sending) => s.status == Running && NoWorkers(s)
    case CAwait(Sending) => Launching(s.status) && !s.proc.handle && !s.recv.handle
    case CLaunch(Processing) => Launching(s.status) && !s.proc.handle && !s.recv.handle
    case CAwait(Processing) => Launching(s.status) && !s.recv.handle
    case CLaunch(Receiving) => Launching(s.status) && !s.recv.handle
    case CAwait(Receiving) => Launching(s.status)
    case CStopCheck(_) => AtRest(s.status)
    case CStopWrite(_) => Launching(s.status) || s.status == Terminated
    case CStopConnector(_) => Halting(s.status)
    case CSetNonBlocking(_) => Halting(s.status)
    case CJoinReceiver(_) => Halting(s.status)
    case CAwaitProcessor(_) => Halting(s.status) && !s.recv.handle
    case CJoinProcessor(_) => Halting(s.status) && !s.recv.handle
    case CJoinSender(_) => Halting(s.status) && !s.recv.handle && !s.proc.handle
    case CWriteStopped(_) => Halting(s.status) && NoWorkers(s)
    case CWriteTerminated => s.status == Stopped
  }

  /** The thread state word of the processor, stale or not, against its control point. */
  predicate ProcessorInv(s: State) {
    match s.proc.pc
    case PStarting => true
    case PExited => !IsBusy(s.proc.tstate)
    case PFiltras => s.proc.tstate == TStarting
    case PStartFailed => s.proc.tstate == TStarting
    case PReady => s.proc.tstate == TStarting
    case PWalking(frames) => s.proc.tstate == TRunning && WellFormed(frames)
    case _ => s.proc.tstate == TRunning
  }

  /** Only the innermost activation can be anywhere but in its generation loop. */
  predicate WellFormed(frames: seq<Frame>) {
    frames != [] && forall i :: 0 <= i < |frames| - 1 ==> frames[i].Generating?
  }

  /** Control points from which the processor exits without ever waiting, once inactive. */
  predicate Leaving(pc: ProcPc) {
    pc in {PStarting, PFiltras, PStartFailed, PReady, POuter, PFinishing, PExited}
  }

  /** What makes the joins of execute_stop return. */
  predicate ProgressInv(s: State) {
    && (Unblocked(s.ctl) ==> !s.sq.blocking)
    && (s.ctl.CJoinProcessor? ==> Leaving(s.proc.pc))
    && (s.recv.pc == RReceiving && (s.ctl.CSetNonBlocking? || s.ctl.CJoinReceiver?)
        ==> s.inputStopped)
  }

  predicate Unblocked(c: CtlPc) {
    c.CJoinReceiver? || c.CAwaitProcessor? || c.CJoinProcessor? || c.CJoinSender? || c.CWriteStopped?
  }

  predicate QueuesInv(s: State) {
    s.rq.maxSize == 0 && !s.rq.blocking && s.sq.maxSize == 0 && s.cq.maxSize == 0 && s.cq.blocking
  }

  function Held(s: State): seq<Payload> {
    if s.recv.pc.RPushing? then [s.recv.pc.msg] else []
  }

  function InFlight(s: State): seq<Out> {
    if s.send.pc.SSending? then [s.send.pc.out] else []
  }

  function Flatten(blocks: seq<seq<Out>>): seq<Out> {
    if blocks == [] then [] else Flatten(blocks[..|blocks| - 1]) + blocks[|blocks| - 1]
  }

  predicate InputInv(s: State) {
    && s.log.received == s.log.processed + s.rq.items + Held(s)
    && |s.log.blocks| == |s.log.processed|
    && (s.proc.pc.PWalking? ==> s.log.processed != [])
  }

  predicate Attributed(blocks: seq<seq<Out>>) {
    forall i, j :: 0 <= i < |blocks| && 0 <= j < |blocks[i]| ==> blocks[i][j].origin == i
  }

  predicate OutputInv(s: State) {
    && s.log.pushed == s.log.handed + s.sq.items
    && s.log.handed == s.log.attempted + InFlight(s)
    && s.log.pushed == Flatten(s.log.blocks)
    && Attributed(s.log.blocks)
  }

  /** Threads, handles and control points. */
  predicate LifeInv(s: State) {
    HandlesInv(s) && ControlInv(s) && ProcessorInv(s) && ProgressInv(s) && !s.log.startedTwice
  }

  /** Messages. */
  predicate DataInv(s: State) {
    QueuesInv(s) && InputInv(s) && OutputInv(s)
  }

  predicate Inv(s: State) {
    LifeInv(s) && DataInv(s)
  }

  lemma FlattenGrowLast(blocks: seq<seq<Out>>, out: Out)
    requires blocks != []
    ensures var n := |blocks| - 1;
            Flatten(blocks[n := blocks[n] + [out]]) == Flatten(blocks) + [out]
  {
    var n := |blocks| - 1;
    var grown := blocks[n := blocks[n] + [out]];
    assert grown[..n] == blocks[..n];
    assert Flatten(grown) == Flatten(blocks[..n]) + (blocks[n] + [out]);
  }

  lemma FlattenNewBlock(blocks: seq<seq<Out>>)
    ensures Flatten(blocks + [[]]) == Flatten(blocks)
  {
    assert (blocks + [[]])[..|blocks|] == blocks;
    assert Flatten(blocks + [[]]) == Flatten(blocks) + [];
  }

  /** A worker that exists changes the state by failing only. */
  predicate WorkerMoves(s: State, t: State) {
    && !NoWorkers(s) && t.ctl == s.ctl
    && t.recv.handle == s.recv.handle && t.proc.handle == s.proc.handle && t.send.handle == s.send.handle
    && (t.status == s.status || t.status == Failed)
  }

  lemma WorkerKeepsControl(s: State, t: State)
    requires HandlesInv(s) && ControlInv(s) && WorkerMoves(s, t)
    ensures ControlInv(t)
  {
  }

  lemma RecvKeepsProgress(s: State, e: RecvEvent)
    requires HandlesInv(s) && ControlInv(s) && ProcessorInv(s) && ProgressInv(s) && RecvEnabled(s, e)
    ensures ProcessorInv(RecvStep(s, e)) && ProgressInv(RecvStep(s, e))
  {
  }

  lemma RecvKeepsLifeInv(s: State, e: RecvEvent)
    requires LifeInv(s) && RecvEnabled(s, e)
    ensures LifeInv(RecvStep(s, e))
  {
    WorkerKeepsControl(s, RecvStep(s, e));
    RecvKeepsProgress(s, e);
  }

  lemma RecvKeepsDataInv(s: State, e: RecvEvent)
    requires DataInv(s) && RecvEnabled(s, e)
    ensures DataInv(RecvStep(s, e))
  {
    var t := RecvStep(s, e);
    if s.recv.pc.RPushing? {
      assert t.rq.items + Held(t) == s.rq.items + Held(s);
      assert s.log.received == s.log.processed + (s.rq.items + Held(s));
    }
  }

  lemma SendKeepsLifeInv(s: State, e: SendEvent)
    requires LifeInv(s) && SendEnabled(s, e)
    ensures LifeInv(SendStep(s, e))
  {
    WorkerKeepsControl(s, SendStep(s, e));
  }

  lemma SendKeepsDataInv(s: State, e: SendEvent)
    requires DataInv(s) && SendEnabled(s, e)
    ensures DataInv(SendStep(s, e))
  {
    var t := SendStep(s, e);
    assert OutputInv(t) by {
      if s.send.pc == SPopping && s.sq.items != [] {
        assert s.sq.items == [s.sq.items[0]] + t.sq.items;
        assert t.log.handed + t.sq.items == s.log.handed + s.sq.items;
      }
    }
  }

  predicate InStop(c: CtlPc) {
    c.CStopCheck? || c.CStopWrite? || c.CStopConnector? || c.CSetNonBlocking? || c.CJoinReceiver?
    || c.CAwaitProcessor? || c.CJoinProcessor? || c.CJoinSender? || c.CWriteStopped?
  }

  lemma StartKeepsHandles(s: State, e: CtlEvent)
    requires HandlesInv(s) && ControlInv(s) && CtlEnabled(s, e) && !InStop(s.ctl)
    ensures HandlesInv(CtlStep(s, e)) && ControlInv(CtlStep(s, e))
    ensures CtlStep(s, e).log.startedTwice == s.log.startedTwice
  {
  }

  lemma StopKeepsHandles(s: State, e: CtlEvent)
    requires HandlesInv(s) && ControlInv(s) && CtlEnabled(s, e) && InStop(s.ctl)
    ensures HandlesInv(CtlStep(s, e)) && ControlInv(CtlStep(s, e))
    ensures CtlStep(s, e).log.startedTwice == s.log.startedTwice
  {
  }

  lemma StartKeepsProgress(s: State, e: CtlEvent)
    requires HandlesInv(s) && ControlInv(s) && ProcessorInv(s) && ProgressInv(s) && CtlEnabled(s, e)
    requires !InStop(s.ctl)
    ensures ProcessorInv(CtlStep(s, e)) && ProgressInv(CtlStep(s, e))
  {
  }

  lemma StopKeepsProgress(s: State, e: CtlEvent)
    requires HandlesInv(s) && ControlInv(s) && ProcessorInv(s) && ProgressInv(s) && CtlEnabled(s, e)
    requires InStop(s.ctl)
    ensures ProcessorInv(CtlStep(s, e)) && ProgressInv(CtlStep(s, e))
  {
  }

  lemma CtlKeepsProgress(s: State, e: CtlEvent)
    requires HandlesInv(s) && ControlInv(s) && ProcessorInv(s) && ProgressInv(s) && CtlEnabled(s, e)
    ensures ProcessorInv(CtlStep(s, e)) && ProgressInv(CtlStep(s, e))
  {
    if InStop(s.ctl) {
      StopKeepsProgress(s, e);
    } else {
      StartKeepsProgress(s, e);
    }
  }

  /** The controller moves no message. */
  predicate SameData(s: State, t: State) {
    && t.rq == s.rq && t.sq.items == s.sq.items && t.sq.maxSize == s.sq.maxSize
    && t.cq.maxSize == s.cq.maxSize && t.cq.blocking == s.cq.blocking
    && Held(t) == Held(s) && InFlight(t) == InFlight(s)
    && (t.proc.pc.PWalking? ==> s.proc.pc.PWalking?)
    && t.log.received == s.log.received && t.log.processed == s.log.processed
    && t.log.blocks == s.log.blocks && t.log.pushed == s.log.pushed
    && t.log.handed == s.log.handed && t.log.attempted == s.log.attempted
  }

  lemma StartMovesNoMessage(s: State, e: CtlEvent)
    requires HandlesInv(s) && CtlEnabled(s, e) && !InStop(s.ctl)
    ensures SameData(s, CtlStep(s, e))
  {
    var t := CtlStep(s, e);
    assert t.recv == s.recv || (t.recv.pc == RStarting && s.recv.pc == RExited);
    assert t.send == s.send || (t.send.pc == SStarting && s.send.pc == SExited);
  }

  lemma StopMovesNoMessage(s: State, e: CtlEvent)
    requires CtlEnabled(s, e) && InStop(s.ctl)
    ensures SameData(s, CtlStep(s, e))
  {
    var t := CtlStep(s, e);
    assert t.recv.pc == s.recv.pc && t.send.pc == s.send.pc;
  }

  lemma CtlMovesNoMessage(s: State, e: CtlEvent)
    requires HandlesInv(s) && CtlEnabled(s, e)
    ensures SameData(s, CtlStep(s, e))
  {
    if InStop(s.ctl) {
      StopMovesNoMessage(s, e);
    } else {
      StartMovesNoMessage(s, e);
    }
  }

  lemma SameDataKeepsInv(s: State, t: State)
    requires DataInv(s) && SameData(s, t)
    ensures DataInv(t)
  {
  }

  lemma WalkKeepsLifeInv(s: State, frames: seq<Frame>, e: ProcEvent)
    requires LifeInv(s) && ProcEnabled(s, e) && s.proc.pc == PWalking(frames)
    ensures LifeInv(ProcStep(s, e))
  {
    WalkKeepsShape(s, frames, e);
    WorkerKeepsControl(s, ProcStep(s, e));
  }

  lemma IdleProcKeepsLifeInv(s: State, e: ProcEvent)
    requires LifeInv(s) && ProcEnabled(s, e) && !s.proc.pc.PWalking?
    ensures LifeInv(ProcStep(s, e))
  {
    WorkerKeepsControl(s, ProcStep(s, e));
  }

  lemma ProcKeepsLifeInv(s: State, e: ProcEvent)
    requires LifeInv(s) && ProcEnabled(s, e)
    ensures LifeInv(ProcStep(s, e))
  {
    if s.proc.pc.PWalking? {
      WalkKeepsLifeInv(s, s.proc.pc.frames, e);
    } else {
      IdleProcKeepsLifeInv(s, e);
    }
  }

  lemma WalkKeepsShape(s: State, frames: seq<Frame>, e: ProcEvent)
    requires s.proc.handle && s.proc.pc == PWalking(frames) && WellFormed(frames)
    requires s.proc.tstate == TRunning && WalkEnabled(s, frames, e)
    ensures ProcessorInv(WalkStep(s, frames, e))
  {
    assert Below(frames) == [] || WellFormed(Below(frames));
  }

  lemma EmitKeepsDataInv(s: State, payload: Payload, below: seq<Frame>)
    requires DataInv(s) && s.proc.pc.PWalking?
    ensures DataInv(Emit(s, payload, below))
  {
    var n := |s.log.blocks|;
    var out := Out(n - 1, payload);
    var t := Emit(s, payload, below);
    FlattenGrowLast(s.log.blocks, out);
    assert t.log.pushed == t.log.handed + t.sq.items;
    assert InputInv(t);
  }

  lemma PopKeepsInput(s: State)
    requires InputInv(s) && ProcEnabled(s, PGo) && s.proc.pc == PPopping && s.rq.items != []
    ensures InputInv(ProcStep(s, PGo))
  {
    var t := ProcStep(s, PGo);
    assert s.rq.items == [s.rq.items[0]] + t.rq.items;
    assert t.log.processed + t.rq.items == s.log.processed + s.rq.items;
  }

  lemma PopKeepsOutput(s: State)
    requires OutputInv(s) && ProcEnabled(s, PGo) && s.proc.pc == PPopping && s.rq.items != []
    ensures OutputInv(ProcStep(s, PGo))
  {
    FlattenNewBlock(s.log.blocks);
  }

  lemma PopKeepsDataInv(s: State)
    requires DataInv(s) && ProcEnabled(s, PGo) && s.proc.pc == PPopping && s.rq.items != []
    ensures DataInv(ProcStep(s, PGo))
  {
    PopKeepsInput(s);
    PopKeepsOutput(s);
  }

  /** Every other step of the processor leaves queues and histories alone. */
  lemma OtherProcMovesNoMessage(s: State, e: ProcEvent)
    requires ProcEnabled(s, e) && !(s.proc.pc.PWalking? && e.PEmit?)
    requires !(s.proc.pc == PPopping && s.rq.items != [])
    ensures var t := ProcStep(s, e);
            && t.log == s.log && t.rq == s.rq && t.sq == s.sq && t.cq == s.cq
            && t.recv == s.recv && t.send == s.send
            && (t.proc.pc.PWalking? ==> s.proc.pc.PWalking?)
  {
  }

  lemma ProcKeepsDataInv(s: State, e: ProcEvent)
    requires DataInv(s) && ProcEnabled(s, e)
    ensures DataInv(ProcStep(s, e))
  {
    if s.proc.pc.PWalking? && e.PEmit? {
      EmitKeepsDataInv(s, e.payload, Below(s.proc.pc.frames));
    } else if s.proc.pc == PPopping && s.rq.items != [] {
      PopKeepsDataInv(s);
    } else {
      OtherProcMovesNoMessage(s, e);
      SameDataKeepsInv(s, ProcStep(s, e));
    }
  }

  lemma StepKeepsInv(s: State, l: Label)
    requires Inv(s) && Enabled(s, l)
    ensures Inv(Step(s, l))
  {
    match l {
      case Receive(e) => RecvKeepsLifeInv(s, e); RecvKeepsDataInv(s, e);
      case Process(e) => ProcKeepsLifeInv(s, e); ProcKeepsDataInv(s, e);
      case Send(e) => SendKeepsLifeInv(s, e); SendKeepsDataInv(s, e);
      case Control(e) =>
        CtlMovesNoMessage(s, e);
        SameDataKeepsInv(s, CtlStep(s, e));
        if InStop(s.ctl) { StopKeepsHandles(s, e); } else { StartKeepsHandles(s, e); }
        CtlKeepsProgress(s, e);
      case _ =>
    }
  }
}
