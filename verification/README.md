# M2E-Bridge core logic, in Dafny

M2E-Bridge moves messages from an input connector through a list of filtras to an output connector.
Each pipeline has a receiver, a processor, a sender and a control thread. This project models the
logic of that bridge and proves what it is relied on for:

- **`Queues`, `Runtime`, `RuntimeTheorems`** - the four threads of one pipeline as a labelled step
  system over the receive, send and command queues. Over every run, with any number of stops, starts
  and failures, no message is lost, duplicated or reordered between its queues: what the receiver
  pushed is processed or queued, and what `process` pushed is handed to the sender or queued. (A
  filtra may still reject a message, and a `send` may fail.) No worker is started twice, and in every
  fair run `execute_stop` reaches STOPPED.
- **`TerminatedTheorems`, `ControlTheorems`, `CommandTheorems`** - when TERMINATED stays; every command
  that is queued is taken, because starting and stopping always end, and done to its end: where START,
  STOP, RESTART and TERMINATE lead, and by which states.
- **`WorkerTheorems`** - launched workers come into their loops, what is received is queued, what is
  pushed is sent in order, and every failure makes the pipeline FAILED.
- **`WakeupTheorems`, `QuietRuns`** - when a message that is queued while the processor parks is sure
  to be processed.
- **`Routing`** - `Pipeline::process`: the goto-driven walk over filtras, which calls itself inside
  the generation loop of a splitter. It terminates, it leaves the generating splitter alone, and it
  sends a message exactly when the message's walk ends.
- **`RoutingTheorems`** - what happens at one filtra in terms of the configuration, for every verdict,
  hop and queue, and what that makes of a pipeline without gotos.
- **`WalkTrees`** - the same walk as a tree that forks where a splitter splits a message, nested
  splitters and full queues included.
- **`Composition`** - the processor of `Runtime` against the walks of `Routing`: when the processor's
  own steps on a message are those of a walk, the outputs attributed to the message are what that walk
  sends; and every run that comes to pop a message can go on with every walk of it.
- **`Broadcast`, `BroadcastTheorems`** - the internal queues: bounded buffers, one per subscriber, fed
  by concurrent producers that interleave delivery by delivery; what a subscriber gets, and when it
  misses something, is read off the steps of the run.
- **`Splitters`, `Base64`, `Throttle`** - three algorithms against exact specifications: chunks that
  can be put together again in any order of arrival, section 4 of RFC 4648 on a wrapping 32-bit
  accumulator, and a throttle that no other choice of messages can beat.
- **`Substitution`, `PathGrammar`, `Evaluation`, `Builder`** - templates: the in-place replacement
  loop equals a one-pass rendering, the path grammar reads back what is printed, a placeholder
  evaluates to what its path denotes, and building changes exactly the strings of a JSON template.
- **`SubstitutionTheorems`, `EvaluationTheorems`** - the same in terms of the data: literals with the
  strings of the expressions between them, and the levels, members, items and entries a path selects.
- **`ConfigStore`, `ConfigIterator`, `Supervisor`** - pipeline configurations in several files, the
  nested iterator over them, and the supervisor that must run what the files say.
- **`Messages`** - the two forms of a message, its wrapper, and the isolation of redirected copies.
- **`Segments`** - two overloads that split a URI, and exactly when they agree.

`Arithmetic`, `Sequences` and `JsonValues` hold what the others share. `dafny verify dfyconfig.toml`
checks everything.

Objects the source updates in place are classes whose methods are tied to functions of the old state;
the lemmas are about those functions. The interleaved parts (`Runtime`, `Broadcast`) are step systems
over values, because their threads share them: one step is one access to a shared variable, one queue
operation or one call into a connector or filtra. What a connector, a filtra, a clock, a codec or a
file system answers is a parameter.

## Where the code departs from its documentation, or from what one expects

The model follows the code.

- The documentation and the filtra schema name the hop of a passed message `goto_accepted`
  (docs/source/pipelines.rst:164-166, src/filtras/filtra.h:110); the code reads `goto_passed`
  (src/filtras/filtra.h:60), and `goto` is the default of the rejected hop as well, so a rejected
  message is dropped only when neither is given (`Routing.RejectedIsDroppedIff`).
- `get_last_segments` for a `string_view` takes a count and ignores it (src/api_helpers.cpp:33-49).
- A pipeline that is TERMINATED is not finished: START queued behind TERMINATE starts it again
  (`TerminatedTheorems.TerminatedIsNotFinal`), and STOP, RESTART and a second TERMINATE leave the
  state as well. It stays exactly when no such command is queued or about to be pushed
  (`TerminatedTheorems.TerminatedStaysIff`).
- The receiver notifies the processor of every message, but a notification between the processor's
  empty pop and its wait is lost. There is a run of a pipeline that is served and keeps running in
  which a received message is never processed (`QuietRuns.MessageIsNeverProcessed`). A message queued
  while the processor parks is sure to be processed exactly when the processor waits already and the
  receiver has yet to notify it (`QuietRuns.ParkedIsSureIff`).
- The control thread of a prepared pipeline never ends, so the join in `~Pipeline`
  (src/pipeline.cpp:43-50) never returns (`ControlTheorems.ControlThreadNeverEnds`).
- An integer in a JSON document is substituted as an unsigned 32-bit number, so a negative or large
  one is not what the template shows (`Evaluation.IntegerIsExactIff`).
- Loading files does not look for ids that occur in two of them; deleting such a pipeline leaves it
  in the store (`ConfigStore.DuplicateSurvivesErase`, `ConfigStore.EraseRefinesMapIff`).
- A failed save is reported after the store in memory has changed, and the supervisor does not undo
  it: after an addition or deletion that was not saved, the pipeline id can neither be added, edited
  nor deleted (`Supervisor.AgreeIffNoneDiverged`, `Supervisor.DivergenceIsPermanent`).

## Model

| member | source | states |
|---|---|---|
| `Queues.TSQueue.Push` | src/tsqueue.h:68-73 | overflows iff the bound is not 0 and the queue holds at least as many items, and then changes nothing; otherwise appends |
| `Queues.TSQueue.Pop` | src/tsqueue.h:82-89 | takes the oldest item; underflows only when empty and non-blocking; waits only when empty and blocking |
| `Runtime.StepKeepsInv` | src/pipeline.cpp:247-435 | every step of receiver, processor, sender, controller, client or a spurious wakeup keeps the whole invariant: handles against states, what each control point knows, no message lost between queues |
| `Runtime.RecvKeepsLifeInv` | src/pipeline.cpp:259-295 | no step of the receiver, failing or not, breaks the lifecycle invariant, even while the controller is anywhere in a start or stop |
| `Runtime.ProcKeepsLifeInv` | src/pipeline.cpp:298-320 | the same for the processor, whose stale thread state survives restarts |
| `Runtime.StopKeepsHandles` | src/pipeline.cpp:414-435 | execute_stop clears one handle after the other and writes STOPPED only when all three are null |
| `Runtime.StartKeepsHandles` | src/pipeline.cpp:398-411 | execute_start launches each worker over a null handle, also after a timeout, so "already started" is never thrown |
| `Runtime.CtlKeepsProgress` | src/pipeline.cpp:414-435 | whenever the controller waits for a worker, the send queue is unblocked, the input is stopped and the processor cannot go back to waiting |
| `Runtime.EmitKeepsDataInv` | src/pipeline.cpp:231-231 | pushing an output keeps: pushed = handed ++ queued = concatenation of the blocks of the processed messages |
| `Runtime.ProcKeepsDataInv` | src/pipeline.cpp:247-256 | popping, processing, throwing and dropping keep received = processed ++ queued ++ held |
| `RuntimeTheorems.RunKeepsInv` | src/pipeline.cpp:97-107 | the invariant holds in every state of every run from a prepared pipeline |
| `RuntimeTheorems.LogIsHistory` | src/pipeline.cpp:247-295 | the received messages and the pushed payloads in the histories are exactly those of the labels of the run |
| `RuntimeTheorems.NothingLostOrReordered` | src/pipeline.cpp:247-359 | at every point of every run, over stops, starts and failures: everything received is processed ++ queued ++ held, everything pushed to the send queue is handed ++ queued, and the latter is the concatenation, in receive order, of one block of outputs for each processed message |
| `RuntimeTheorems.StoppedIsQuiescent` | src/pipeline.cpp:414-435 | in STOPPED and TERMINATED every message is processed or in a queue, none is inside a worker |
| `RuntimeTheorems.LifecycleIsSafe` | src/pipeline.cpp:398-435 | STOPPED and TERMINATED imply three null handles; RUNNING is written only when no worker exists; FAILED only by a worker of the current run; no double start |
| `TerminatedTheorems.QuietStays` | src/pipeline.cpp:362-395 | with an idle control thread and only unknown commands queued or about to be pushed, every step keeps TERMINATED and this condition |
| `TerminatedTheorems.CommandLeaves` | src/pipeline.cpp:362-395 | a known command in the queue, behind any number of unknown ones, makes a served control thread leave TERMINATED |
| `TerminatedTheorems.UnquietLeaves` | src/pipeline.cpp:438-441 | so does a call of execute() that found the pipeline alive and has yet to push |
| `TerminatedTheorems.TerminatedStaysIff` | src/pipeline.cpp:362-441 | over every infinite run in which the control thread and the calls are served: the state is TERMINATED from some time on iff at that time the control thread is idle and every command queued or about to be pushed is unknown |
| `TerminatedTheorems.TerminatedIsNotFinal` | src/pipeline.cpp:362-395 | there is a run in which TERMINATED is followed by RUNNING |
| `WakeupTheorems.AwakePops` | src/pipeline.cpp:247-256 | a processor that is awake, in a pipeline that keeps running, pops a queued message |
| `WakeupTheorems.ParkedMessageIsProcessedIff` | src/pipeline.cpp:307-313 | in a run that keeps running, a message queued while the processor parks is processed iff the processor is woken while it waits, spuriously or by a notification |
| `WakeupTheorems.LostWakeupIsReachable` | src/pipeline.cpp:275-311 | there is a run to RUNNING with a queued message, a waiting processor and a receiver that has notified already |
| `QuietRuns.NotifiedIsProcessed` | src/pipeline.cpp:275-276 | with a waiting processor and a receiver between its push and its notification, a message is processed in every run that serves both and keeps running |
| `QuietRuns.DecidedEnds` | src/pipeline.cpp:362-435 | in every fair run a failure about to be recorded, a stop under way or a queued command that a running pipeline does not ignore ends RUNNING |
| `QuietRuns.StuckForever` | src/pipeline.cpp:298-320 | every other state with a parked processor and a queued message has a fair infinite continuation in which the pipeline keeps running and the message stays queued |
| `QuietRuns.ParkedIsSureIff` | src/pipeline.cpp:275-313 | for every run to RUNNING with a parked processor and a queued message: all fair continuations that keep running process it iff the processor waits and the receiver has yet to notify it, or the end of RUNNING is decided |
| `QuietRuns.MessageIsNeverProcessed` | src/pipeline.cpp:275-313 | there is a fair infinite run that stays RUNNING and never processes the one message it has received |
| `ControlTheorems.AwaitEnds` | src/pipeline.h:86-94 | in every fair run Thread::start returns or times out, also when a worker still reports the state of an earlier run |
| `ControlTheorems.IdleAgain` | src/pipeline.cpp:362-435 | in every fair run the control thread comes back to its queue from every point of execute_start and execute_stop |
| `ControlTheorems.EveryCommandIsTaken` | src/pipeline.cpp:362-385 | in every fair run every queued command is taken, however many are in front of it |
| `CommandTheorems.StopStops` | src/pipeline.cpp:414-435 | in every fair run a STOP that is taken ends in STOPPED with no worker, back at the queue, and nothing sets RUNNING on the way |
| `CommandTheorems.TerminateTerminates` | src/pipeline.cpp:378-381 | a TERMINATE ends in TERMINATED with no worker, by way of STOPPED, and nothing sets RUNNING on the way |
| `CommandTheorems.StartStarts` | src/pipeline.cpp:398-411 | a START of a pipeline that is not RUNNING sets it RUNNING, from STOPPED and without workers, and has all three workers when it is back at the queue unless a start timed out |
| `CommandTheorems.RestartStopsThenStarts` | src/pipeline.cpp:374-377 | a RESTART comes to STOPPED with no worker and only then to RUNNING, before the next command is looked at, with all three workers at the end unless a start timed out |
| `CommandTheorems.IgnoredChangesNothing` | src/pipeline.cpp:382-399 | an unknown command, and a START that finds the pipeline RUNNING, only leave the queue |
| `CommandTheorems.EveryCommandIsObeyed` | src/pipeline.cpp:362-435 | in every fair run every queued command is taken and done to its end, as above, before the next one is looked at |
| `WorkerTheorems.FailureIsRecorded` | src/pipeline.cpp:262-356 | in every fair run a connect or disconnect that throws, a filtra that fails to start and an exception out of `process` make the pipeline FAILED at some later time, whatever the controller does |
| `WorkerTheorems.SenderComesToSend` | src/pipeline.cpp:323-336 | in a pipeline that keeps running, a launched sender connects and comes into its loop |
| `WorkerTheorems.ReceiverComesToReceive` | src/pipeline.cpp:259-273 | the same for the receiver |
| `WorkerTheorems.ProcessorComesToPop` | src/pipeline.cpp:298-309 | the same for the processor |
| `WorkerTheorems.UnderflowEndsReceiver` | src/pipeline.cpp:277-295 | in every fair run the thread of a receiver whose connector reports an underflow ends, without receiving again |
| `WorkerTheorems.RunningDryEndsSender` | src/pipeline.cpp:337-358 | the same for a sender whose connector reports an underflow, or whose queue is empty and does not block |
| `WorkerTheorems.NoConnectionNoReceiver` | src/pipeline.cpp:259-295 | a receiver that cannot connect and still finds the pipeline FAILED ends without receiving and without ever reporting that it runs |
| `WorkerTheorems.NoConnectionNoSender` | src/pipeline.cpp:323-358 | the same for the sender |
| `WorkerTheorems.ReceiverKeepsOn` | src/pipeline.cpp:272-283 | while the pipeline runs, only an underflow ends the loop of the receiver; a receive that throws anything else does not |
| `WorkerTheorems.ReceivedIsQueued` | src/pipeline.cpp:273-276 | in every fair run what the connector delivers comes into the receive queue at its place in receive order, also when the pipeline is stopped meanwhile |
| `WorkerTheorems.ProcessorKeepsOn` | src/pipeline.cpp:247-320 | the processor leaves its loops only by an exception that `process` does not handle or when it finds the pipeline not RUNNING after a wakeup; an underflow inside `process` sends it to wait |
| `WorkerTheorems.EveryOutputIsAttempted` | src/pipeline.cpp:334-350 | while the pipeline keeps running and the connector reports no underflow, every pushed output gets its attempt to be sent, at its place in push order, also behind attempts that fail |
| `ControlTheorems.ControlThreadNeverEnds` | src/pipeline.cpp:43-50 | in no run of a prepared pipeline does the control thread end, so the join of the destructor never returns |
| `RuntimeTheorems.HelperIsReady` | src/pipeline.cpp:414-435 | no reachable configuration inside execute_stop is stuck: the thread it waits for is owed a step and has an enabled one |
| `RuntimeTheorems.StopMakesProgress` | src/pipeline.cpp:414-435 | every step of any thread during execute_stop finishes it, lowers a lexicographic rank, or leaves rank and awaited thread unchanged |
| `RuntimeTheorems.WalkLowersRank` | src/pipeline.cpp:175-232 | once inactive, the recursive processing of a message, nested generation loops included, only winds down |
| `RuntimeTheorems.FairProgressFinishes` | src/pipeline.cpp:414-435 | by well-founded induction on the rank, progress and weak fairness lead to STOPPED |
| `RuntimeTheorems.StopAlwaysFinishes` | src/pipeline.cpp:414-435 | in every fair infinite run, execute_stop reaches STOPPED with all handles null, whatever is queued and whatever connectors and filtras do |
| `Composition.WalkOutputs` | src/pipeline.cpp:175-232 | the processor's steps along a walk push exactly what the walk sends, generation loops included |
| `Composition.WalkLeads` | src/pipeline.cpp:175-232 | on the stack of activations, the steps of a walk are allowed one after the other, from the loop head to where the activation returns or an exception leaves it |
| `Composition.MovedIsStep` | src/pipeline.cpp:175-232 | a step allowed by the innermost activation is enabled in the step system, the entry of a filtra while the pipeline is active, and leads to the stack used there |
| `Composition.EventsAreTaken` | src/pipeline.cpp:175-232 | steps that are allowed on the stack are enabled steps of the processor: every run that has come to that stack, in a running pipeline, extends by them |
| `Composition.BlockIsWhatTheWalkSends` | src/pipeline.cpp:247-256 | in every run, if the processor's own steps since it popped a message are those of the message's walk, the block attributed to the message is exactly what that walk sends, whatever the other threads do meanwhile |
| `Composition.WalkHappens` | src/pipeline.cpp:247-256 | every run that comes to pop a message in a running pipeline extends by every walk of that message, up to where `process` returns or throws, and the message's block then is what the walk sends |
| `Routing.RejectedIsDroppedIff` | src/filtras/filtra.h:59-61 | for all settings, a rejected message is dropped iff neither `goto_rejected` nor `goto` gives a name; otherwise it goes on where the name leads, "out" and unknown names to behind the last filtra |
| `RoutingTheorems.HopsAreTheSettings` | src/filtras/filtra.h:59-61 | `goto_passed` and `goto_rejected` are the hops, `goto` where they are not set, and no hop where that is not set either |
| `RoutingTheorems.PassedGoesOn` | src/pipeline.cpp:212-221 | a passed message gives every queue of the filtra one copy and goes on at the next filtra without a hop, at the first filtra of the hop's name, and out of the pipeline for "out" and unknown names |
| `RoutingTheorems.RejectedGoesOn` | src/pipeline.cpp:222-228 | a rejected message leaves no copy and is dropped without a hop, or goes on where the name leads |
| `RoutingTheorems.ThrowingEnds` | src/pipeline.cpp:186-195 | a filtra that throws ends the processing without an output; only an exception other than invalid_argument is recorded |
| `RoutingTheorems.FullQueueEscapes` | src/pipeline.cpp:219-221 | the first full queue throws: those in front of it have their copy, and the message is not sent |
| `RoutingTheorems.OversizedFansOut` | src/pipeline.cpp:197-210 | the chunks of an oversized message, under the next 64-bit id, start behind the splitter or where its passed hop leads |
| `RoutingTheorems.StraightThrough` | src/pipeline.cpp:175-232 | in a pipeline without gotos a message that every filtra passes visits the filtras 0, 1, .., n - 1, each with what the one in front made of it, and is sent once with one copy for each queue |
| `Routing.ResolveIsFirst` | src/pipeline.cpp:126-136 | a name leads inside the pipeline iff it is not "out" and some filtra has it, and then to the first such filtra |
| `Routing.Pipeline.FindFiltraIndex` | src/pipeline.cpp:126-136 | the loop computes that resolution |
| `Routing.Pipeline.RunFiltra` | src/filtras/filtra.h:64-67 | "self" exactly for an oversized message at a splitter, whose pending chunks are then that message's; no other splitter changes |
| `Routing.Pipeline.Redirect` | src/pipeline.cpp:219-221 | one copy per listed queue, in order, up to the first full one, where it throws |
| `Routing.Pipeline.Visit` | src/pipeline.cpp:186-229 | one turn of the loop does what the walk's turn says for every verdict and hop, also when the filtra leaves the passed flag alone as the eraser does; whenever the loop goes on the message is passed |
| `Routing.Pipeline.Process` | src/pipeline.cpp:175-232 | terminates; the message is passed at every loop head; sends, copies, fails and throws exactly as the walk semantics says; leaves splitters before its start index untouched |
| `Routing.Pipeline.Generate` | src/pipeline.cpp:197-210 | the generation loop processes exactly the pending chunks, in order, although each is processed by a recursive call |
| `Routing.HopWalks` | src/pipeline.cpp:212-229 | a hop to the next walker is one step of the walk, with its copies |
| `Routing.PathWalks` | src/pipeline.cpp:212-229 | along any path, wherever it goes on to, each filtra that lets the message through gives one copy per visit to each of its queues, and nothing else happens |
| `Routing.TrailWalks` | src/pipeline.cpp:175-232 | along a path to where the message is sent or dropped: all copies on the way, one output iff it comes to the end, a recorded error iff a filtra failed |
| `Routing.CompletePathSends` | src/pipeline.cpp:175-232 | along a complete path the message is sent once, with its final payload, and every destination on the way gets one copy per visit |
| `Routing.SentHasPath` | src/pipeline.cpp:175-232 | whatever is sent comes from a complete path |
| `Routing.SentIffWalkEnds` | src/pipeline.cpp:175-232 | a message enters the send queue iff its hop walk ends behind the last filtra or by a stop, exactly once |
| `Routing.SplitterSendsItsChunks` | src/pipeline.cpp:197-210 | an oversized message is processed as exactly its chunks, which join to the payload; when each chunk keeps to a trail, outputs and copies are those of the trails, chunk by chunk |
| `WalkTrees.TreeWalks` | src/pipeline.cpp:175-232 | whatever tree follows the filtras, chunk by chunk at every split and up to a full queue, the walk has the outcome of the tree |
| `WalkTrees.WalkHasTree` | src/pipeline.cpp:175-232 | every walk follows such a tree, nested splitters and full queues included |
| `WalkTrees.ProcessingIsATree` | src/pipeline.cpp:175-232 | processing sends exactly the payloads at the leaves that come to the end, from left to right, and makes exactly the copies of the tree's paths |
| `Broadcast.InternalQueue.Subscribe` | src/internal_queue.h:99-107 | a fresh id above all earlier ones with an empty buffer, or failure exactly at the last key |
| `Broadcast.InternalQueue.Push` | src/internal_queue.h:114-119 | all buffers get the message iff each is unbounded or holds fewer items than its size; otherwise each such buffer gets it once or not at all |
| `Broadcast.StepKeepsInv` | src/internal_queue.h:99-127 | every subscribe, unsubscribe, begin, delivery, overflow, finish and pop, in any interleaving, keeps the relation between pushes and buffers for every subscriber and producer |
| `Broadcast.OverflowKeepsPair` | src/internal_queue.h:114-119 | a full buffer ends a push half-way and only ever leaves messages out |
| `Broadcast.BroadcastIsFaithful` | src/internal_queue.h:99-127 | in every reachable state, popped ++ buffered of one producer is an in-order subsequence of its pushes since the subscription, all of them unless an overflow made this subscriber miss one; a non-zero bound is never exceeded |
| `Broadcast.IdsAreNeverReused` | src/internal_queue.h:99-112 | a subscriber id was never given out before, also after unsubscribing |
| `BroadcastTheorems.SubscriberSeesPushes` | src/internal_queue.h:99-127 | every subscriber has subscribed at some step, and is given, of every producer, an in-order subsequence of the pushes begun since then, all of them without a loss |
| `BroadcastTheorems.LossyIff` | src/internal_queue.h:114-119 | a subscriber has missed something iff, since it subscribed, a push met a buffer that held exactly its size before it reached this one |
| `BroadcastTheorems.FirstOnesAreKept` | src/tsqueue.h:44-73 | a subscriber that takes nothing out holds exactly the first `buffer_size` messages that reached its buffer, and all of them for size 0 |
| `BroadcastTheorems.SizeIsSubscribed` | src/internal_queue.h:99-107 | the size of a buffer stays the one it was subscribed with |
| `BroadcastTheorems.TakenIsOldest` | src/internal_queue.h:60-62 | a pop takes the oldest message of the subscriber's own buffer, and no other step takes any |
| `Splitters.Splitter.ProcessMessage` | src/filtras/splitter.h:71-82 | exactly the oversized messages are split, under the next 64-bit id |
| `Splitters.Splitter.GenerateMessage` | src/filtras/splitter.h:84-99 | yields the first pending chunk and keeps the rest, and nothing once all are out |
| `Splitters.Drive` | src/filtras/splitter.h:71-99 | a run of one splitter over any messages emits exactly the specified chunks |
| `Splitters.ChunksAreExact` | src/filtras/splitter.h:84-99 | ceil(n/c) chunks, numbered from 0, all full but possibly the last, joining to the payload |
| `Splitters.EmittedAppend` | src/filtras/splitter.h:71-99 | what a run emits is what its parts emit, one after the other, under ids that go on counting |
| `Splitters.EmittedOne` | src/filtras/splitter.h:71-82 | one message emits nothing when it fits, otherwise its chunks under the id that follows, 0 behind 2^64 - 1 |
| `Splitters.SelectEmitted` | src/filtras/splitter.h:71-99 | in a run of fewer than 2^64 splits the chunks with a message's id are that message's chunks, in order |
| `Splitters.AnyOrderRebuilds` | src/filtras/splitter.h:71-99 | grouping any permutation of all emitted chunks by id and ordering by number rebuilds every split payload |
| `Base64.CodesAreDigits` | src/connectors/http_connector.h:40-55 | the specified symbols are the base-64 digits of the 24-bit group |
| `Base64.WrapIsCongruent` | src/connectors/http_connector.h:46-46 | the shifted accumulator is a 32-bit value and differs by a multiple of 2^32 |
| `Base64.AdditionFits` | src/connectors/http_connector.h:46-46 | adding the byte behind the shift never overflows 32 bits |
| `Base64.ShiftKeeps` | src/connectors/http_connector.h:45-46 | the wrapping shift keeps the last two bytes in the low bits of the accumulator |
| `Base64.StepCode` | src/connectors/http_connector.h:47-50 | what one turn of the inner loop extracts is the next symbol |
| `Base64.EndingCode` | src/connectors/http_connector.h:52-52 | the leftover bits, zero-extended, are the last symbol |
| `Base64.Base64Encode` | src/connectors/http_connector.h:40-55 | equals the encoding of section 4 of RFC 4648 for every byte string, although the accumulator wraps |
| `Base64.EncodeShape` | src/connectors/http_connector.h:53-54 | length 4 * ceil(n/3), and '=' in exactly the last 0, 2 or 1 places |
| `Base64.DecodeEncode` | src/connectors/http_connector.h:40-55 | decoding gives back every input |
| `Base64.TestVectors` | src/connectors/http_connector.h:40-55 | the encodings that section 10 of RFC 4648 gives for "f", "fo" and "foobar" |
| `Throttle.ThrottleFilter.ProcessMessage` | src/filtras/throttle.h:52-65 | passes iff the truncated elapsed time meets the delay, and remembers the time exactly then |
| `Throttle.Drive` | src/filtras/throttle.h:52-65 | a run over any arrival times decides as specified |
| `Throttle.PassesAreSpaced` | src/filtras/throttle.h:52-65 | passed messages keep the delay to each other and to the initial last-passed time |
| `Throttle.OneApart` | src/filtras/throttle.h:52-65 | an earlier last pass gains at most one message |
| `Throttle.GreedyIsOptimal` | src/filtras/throttle.h:47-65 | no choice of messages that keeps the delay is larger than the one passed |
| `Throttle.WindowBound` | src/filtras/throttle.h:47-65 | a window of W ms passes at most floor(W / ceil(delay)) + 1 messages |
| `Throttle.PassesAtRate` | src/filtras/throttle.h:47-65 | a message passes iff the whole milliseconds since the last one that passed, times the rate, are at least 1000; none does at rate 0 |
| `Throttle.PassesAfterGap` | src/filtras/throttle.h:47-65 | that is, iff the least number of whole milliseconds that, times the rate, is at least 1000 has gone by in nanoseconds |
| `Throttle.RateIsKept` | src/filtras/throttle.h:47-65 | in every window of W ms the messages that pass, without the first, are at most W * rate / 1000 |
| `Substitution.SearchIsLeftmostShortest` | src/substitutions/subs.hpp:87-92 | the search finds the leftmost placeholder, the shortest that begins there, and none exactly when there is none |
| `Substitution.SearchShifts` | src/substitutions/subs.hpp:91-102 | text before the search position has no influence on the match |
| `Substitution.LoopRenders` | src/substitutions/subs.hpp:91-107 | replacing in place and scanning on equals rendering the parsed template once: substituted text is never scanned again |
| `Substitution.Substitute` | src/substitutions/subs.hpp:85-112 | terminates with the one-pass specification's result, typed value or error |
| `Substitution.ParseIsExact` | src/substitutions/subs.hpp:85-112 | literals and placeholders put together are the template, and no literal holds a placeholder |
| `Substitution.ParsePrint` | src/substitutions/subs.hpp:85-112 | reading a printed template gives it back |
| `Substitution.TypedOnlyForSingle` | src/substitutions/subs.hpp:94-96 | anything but a string is returned only for a template that is one placeholder |
| `SubstitutionTheorems.LoneGivesItsValue` | src/substitutions/subs.hpp:94-96 | a text that is one placeholder gives the value of its expression with its type |
| `SubstitutionTheorems.TextIsFilled` | src/substitutions/subs.hpp:85-112 | every other text is inert literals with placeholders between them and gives the same literals with the strings of the expressions between them; it throws iff some expression throws or gives no string |
| `SubstitutionTheorems.WovenIsFilled` | src/substitutions/subs.hpp:97-107 | a template put together from literals and expressions gives the literals put together with the values |
| `SubstitutionTheorems.GreetingIsFilled` | src/substitutions/subs.hpp:97-107 | "Hi {{e.x}}!" gives "Hi ", the value, and "!" |
| `PathGrammar.PrintedPathParses` | src/substitutions/subs.cpp:197-209 | printing a path and parsing it consumes the whole text and fires exactly start, next and modify for that path, in order |
| `PathGrammar.ParsesIffPath` | src/substitutions/subs.cpp:197-209 | a text is consumed as a whole, with given events, iff it is a printed path with those events |
| `PathGrammar.ConsumedIsPath` | src/substitutions/subs.cpp:197-209 | what is consumed of a text, with a rest or not, is a printed path with the events fired |
| `PathGrammar.ExampleParses` | src/substitutions/subs.cpp:197-209 | the path m.a[12] with the modifier "f,2" fires start "m", next "a", next 12 and modify "f,2" |
| `PathGrammar.IdentifierCharacters` | src/substitutions/subs.cpp:197-206 | identifiers begin with a Latin letter or underscore and go on with these and digits |
| `PathGrammar.DecimalIndex` | src/substitutions/subs.cpp:305-312 | a decimal index comes back as itself up to INT_MAX and throws above |
| `PathGrammar.NumberDecimal` | src/substitutions/subs.cpp:306-312 | reading a printed number gives the number |
| `Evaluation.EvalState.Apply` | src/substitutions/subs.cpp:212-274 | an event moves the proxy, or throws and leaves it |
| `Evaluation.Evaluate` | src/substitutions/subs.cpp:315-330 | runs the events of the parse through the state and reads the value, or throws |
| `Evaluation.EvaluatesPath` | src/substitutions/subs.cpp:276-330 | evaluating a printed path gives what the path denotes in the environment, for messages, JSON, lists and string maps |
| `EvaluationTheorems.TopicLevelIsRead` | src/substitutions/subs.cpp:87-123 | `m.TOPIC_LEVELS[k]` is level k of the topic and throws from the number of levels on |
| `EvaluationTheorems.TopicIsRead` | src/substitutions/subs.cpp:90-92 | `m.TOPIC` is the topic |
| `EvaluationTheorems.PayloadIsRead` | src/substitutions/subs.cpp:78-86 | `m.PAYLOAD` is the document and throws for a message without one |
| `EvaluationTheorems.EntryIsRead` | src/substitutions/subs.cpp:97-99 | `map.key` is the entry under the key and throws without one |
| `EvaluationTheorems.ChainIsRead` | src/substitutions/subs.cpp:94-143 | a path whose steps lead from document to document, by the first member with a key and the item at a position, evaluates to the last: strings as themselves, integers in decimal modulo 2^32, anything else as the document |
| `EvaluationTheorems.BrokenChainThrows` | src/substitutions/subs.cpp:94-128 | a path one of whose steps finds no such member or item throws, whatever follows |
| `EvaluationTheorems.ItemIsRead` | src/substitutions/subs.cpp:121-128 | `j[k]` is the k-th item of an array and throws from its length on |
| `EvaluationTheorems.MemberIsRead` | src/substitutions/subs.cpp:94-96 | `j.key` is the value of the first member with the key and throws iff there is none |
| `EvaluationTheorems.DecimalDigits` | src/substitutions/subs.cpp:139-141 | the decimal text has the digits n / 10^k mod 10 and no leading zero |
| `EvaluationTheorems.BareNameIsRead` | src/substitutions/subs.cpp:315-330 | a name alone is no path, but a document or text it names is read all the same |
| `EvaluationTheorems.RestIsIgnored` | src/substitutions/subs.cpp:315-330 | what follows a path is ignored |
| `EvaluationTheorems.ModifierThrows` | src/substitutions/subs.cpp:258-262 | a path with a modifier throws, since only bytes can be modified |
| `Evaluation.IntegerIsExactIff` | src/substitutions/subs.cpp:139-141 | an integer is shown in decimal iff 0 <= n < 2^32 |
| `Evaluation.TemplateOfPaths` | src/substitutions/subs.hpp:85-112 | from template text to result text: literals with the strings their paths denote, or the typed value of a lone placeholder |
| `Builder.SubstituteContainer` | src/filtras/builder.h:147-200 | the loop over the elements, recursive on containers, computes the built document or throws |
| `Builder.Build` | src/filtras/builder.h:130-145 | objects are built; a string gives a string or a document; everything else throws |
| `Builder.BuiltEverywhere` | src/filtras/builder.h:147-200 | at every place of the template keys, lengths and non-string leaves are kept and a string becomes the value of its original text, never descended into |
| `Builder.StringBecomes` | src/filtras/builder.h:147-200 | the value of a string's text is stored by its kind: strings, booleans and numbers as such, a document as a whole, bytes as an array of numbers |
| `Builder.FailsIffSomeStringFails` | src/filtras/builder.h:147-200 | building throws iff the substitution of some string of the template throws |
| `ConfigStore.ViewIsFirstHolder` | src/global_config.h:166-194 | an id is in the store iff some file holds it, and the first such file decides its value |
| `ConfigStore.LookupFindsEntry` | src/global_config.h:166-194 | an entry of a file is what a lookup finds under its id when no earlier file has the id |
| `ConfigStore.PipelineConfigs.Contains` | src/global_config.h:166-173 | membership in the plain map |
| `ConfigStore.PipelineConfigs.At` | src/global_config.h:186-194 | lookup in the plain map, or out of range |
| `ConfigStore.PipelineConfigs.Assign` | src/global_config.h:175-184 | assignment in the plain map |
| `ConfigStore.PipelineConfigs.Erase` | src/global_config.h:136-144 | afterwards the id is still there iff two files held it |
| `ConfigStore.AssignRefinesMap` | src/global_config.h:175-184 | assignment through operator[] is assignment in the plain map for every arrangement of files |
| `ConfigStore.NewIdGoesHome` | src/global_config.h:175-184 | a new id goes behind the entries of the file of the default path, or of the first file, which then is the default, and no other file changes |
| `ConfigStore.AssignCountsHolders` | src/global_config.h:175-184 | assignment never adds a second holder of an id |
| `ConfigStore.EraseTakesOneHolder` | src/global_config.h:136-144 | erasing takes an id out of one file and touches no other id |
| `ConfigStore.EraseRefinesMapIff` | src/global_config.h:136-144 | erasing is removal in the plain map iff at most one file holds the id |
| `ConfigStore.DuplicateSurvivesErase` | src/global_config.h:107-144 | two loaded files that share an id: the store contains it after erasing it |
| `ConfigStore.DisjointIsKept` | src/global_config.h:228-255 | adding, updating and deleting keep the key sets of the files disjoint |
| `ConfigIterator.PipelineConfigsIterator.Begin` | src/global_config.h:66-67 | stands at the first file, with nothing passed |
| `ConfigIterator.PipelineConfigsIterator.End` | src/global_config.h:60-64 | stands behind the last file, at the end of its entries if there is one |
| `ConfigIterator.PipelineConfigsIterator.Advance` | src/global_config.h:76-86 | passes exactly the entry it stood at, and stands at an entry, at the end, or at an empty file |
| `ConfigIterator.Visit` | src/global_config.h:57-93 | the loop reaches cend() iff no file is empty, having visited every entry once and in order; otherwise it stops being readable at the first empty file |
| `ConfigIterator.FlattenIsView` | src/pipeline_supervisor.cpp:35-41 | what the iteration meets first under an id is what a lookup finds |
| `Supervisor.GlobalConfig.AddPipeline` | src/global_config.h:228-234 | throws iff the id is stored; otherwise the store changes whatever save() answers |
| `Supervisor.GlobalConfig.UpdatePipeline` | src/global_config.h:236-247 | throws iff the id is not stored; otherwise replaces or merges the configuration of that id |
| `Supervisor.GlobalConfig.DeletePipeline` | src/global_config.h:249-255 | throws iff the id is not stored; otherwise erases it |
| `Supervisor.PipelineSupervisor.Init` | src/pipeline_supervisor.cpp:35-41 | when no file is empty, builds a pipeline for every stored id, from the configuration a lookup finds |
| `Supervisor.PipelineSupervisor.AddPipeline` | src/pipeline_supervisor.cpp:58-66 | changes store and supervisor as the state machine says |
| `Supervisor.PipelineSupervisor.DeletePipeline` | src/pipeline_supervisor.cpp:69-79 | changes store and supervisor as the state machine says |
| `Supervisor.PipelineSupervisor.EditPipeline` | src/pipeline_supervisor.cpp:82-96 | changes store and supervisor as the state machine says |
| `Supervisor.StepAgrees` | src/pipeline_supervisor.cpp:58-96 | one operation keeps the two key sets equal iff it does not diverge |
| `Supervisor.OperationChanges` | src/pipeline_supervisor.cpp:58-96 | an operation past its checks changes the stored map by its id and data whatever save() answers, and the running pipelines in the same way iff it is saved |
| `Supervisor.ThrowsIff` | src/pipeline_supervisor.cpp:58-96 | an addition throws iff its id is stored or runs, an edit or deletion iff it is not both, and then nothing changes |
| `Supervisor.SavedEditIsSeen` | src/pipeline_supervisor.cpp:82-96 | after a saved edit the store and the running pipeline both have the new data |
| `Supervisor.AgreeIffNoneDiverged` | src/pipeline_supervisor.cpp:58-96 | over any run the key sets are equal at the end iff no addition went unsaved and no deletion was saved with a second holder or unsaved without one |
| `Supervisor.DivergenceIsPermanent` | src/pipeline_supervisor.cpp:58-96 | an id on one side only stays so, and every later operation on it throws |
| `Supervisor.DisjointStep` | src/pipeline_supervisor.cpp:58-96 | with disjoint files, an operation diverges iff it is an addition or deletion that is not saved |
| `Supervisor.SavedRunsAgree` | src/pipeline_supervisor.cpp:35-96 | while every save succeeds, the supervisor runs exactly the stored pipelines, each built from its stored configuration |
| `Messages.Message.GetRaw` | src/m2e_message/message.h:209-223 | the cached text, or the serialised document, or an exception for formats that have none |
| `Messages.Message.GetJson` | src/m2e_message/message.h:225-232 | the current document, parsed once; a parse error changes nothing |
| `Messages.MessageWrapper.Msg` | src/m2e_message/message_wrapper.h:58-64 | the edited copy, made from the received message on first use |
| `Messages.MessageWrapper.SetMessage` | src/m2e_message/message_wrapper.h:66-69 | replaces the copy by a new object |
| `Messages.Perform` | src/m2e_message/message_wrapper.h:56-71 | one read, edit, replacement or redirect changes the visible content as the pure log says and never the received message |
| `Messages.Handle` | src/internal_queue.h:95-97 | over any sequence of accesses the received message is untouched and every redirected object still holds at the end what it was copied from; msg_ptr() is empty when nothing accessed the message |
| `Messages.RepliesShowTheValue` | src/m2e_message/message.h:209-232 | any mix of reads, edits, replacements and redirects of a JSON message shows the value that is current in every text, document and copy |
| `Messages.RedirectedIsVisible` | src/internal_queue.h:95-97 | what goes to a queue is what the message is at that moment, in any format |
| `Messages.TopicIsKept` | src/m2e_message/message.h:195-232 | reading, editing in place and redirecting leave topic and attributes alone |
| `Messages.TextIsKept` | src/m2e_message/message.h:209-223 | a message kept as text gives that text, unchanged, as often as it is asked for |
| `Messages.DocumentBecomesText` | src/m2e_message/message.h:209-223 | a JSON or CBOR document gives its text in its own format, the first time and later |
| `Messages.LastWrittenIsShownIff` | src/m2e_message/message.h:209-232 | that value is the one written last iff every differing edit happens between get_json() and the next get_raw() |
| `Segments.LastSegmentsOfView` | src/api_helpers.cpp:33-49 | the loop splits at slashes, for every count |
| `Segments.LastSegmentsOfCString` | src/api_helpers.cpp:52-64 | the last `count` segments of the text before the first NUL, all of them for 0, an exception when there are fewer |
| `Segments.CStringEndsAtNul` | src/api_helpers.cpp:52-64 | the text of the buffer is what comes before its first NUL |
| `Segments.EmptySegmentsAreKept` | src/api_helpers.cpp:33-64 | "a//b/" has the segments "a", "" and "b" |
| `Segments.SplitThenJoin` | src/api_helpers.cpp:33-64 | joining the segments gives the input back up to one slash at its end |
| `Segments.JoinThenSplit` | src/api_helpers.cpp:33-64 | every list of slash-free segments is the result of splitting its join |
| `Segments.SameSegmentsIff` | src/api_helpers.cpp:33-64 | two texts have the same segments iff they differ by no more than a slash at the end |
| `Segments.OverloadsAgreeIff` | src/api_helpers.cpp:33-64 | the overloads agree iff the text has no NUL and the count is 0 or the number of segments |

## Left out

- Connectors, HTTP, MQTT, cloud, SMTP, database and Modbus transports: `receive`, `send`, `connect` and `disconnect` are steps that may fail; `stop` of a connector is taken not to throw.
- REST, ZeroMQ and Civet handlers, JWT verification, logging, file reading and writing: `save` is a boolean given to the operation, and loading is the initial content of the store.
- The hardware memory model: shared fields such as `state_` and `blocking_` are sequentially consistent, and one queue operation is one step, so the unlocked write in `set_non_blocking` is never lost.
- A call of `execute` that finds the pipeline TERMINATED or MALFORMED: it runs `prepare`, which appends to the filtras again and starts a second control thread beside the first, which never ends (src/pipeline.cpp:97-107, 438-441). Calls that found it alive before are modelled, also when they push after TERMINATED.
- The event queue, `schedule_event` and the `process` without arguments, which never emits anything because its message is shadowed (src/pipeline.cpp:144).
- JSON, CBOR, regular-expression and PEGTL internals: an inverse pair of functions, a hand-written lazy matcher and a hand-written recogniser stand for them; characters are bytes without encoding.
- `get_cbor`, the byte caches of a message, topics and attributes beyond being copied: `get_cbor` clears the serialised flag without filling the document.
- Text edited through the reference that `get_raw` returns, as the Lua converter does.
- Evaluation.EvalState.Apply: EXTRA and CBOR proxies, and the bytes that only they give a modifier, are left out; on the modelled proxies a modifier throws.
- Evaluation.Evaluate: for the same reason values of EXTRA and CBOR proxies and modified bytes are left out.
- Evaluation.EvaluatesPath: covers paths through messages in JSON format, JSON documents, lists and string maps.
- Finder, limiter, nop, eraser, comparator and converter decisions: filtras other than splitters give any verdict and any payload at each visit.
- HTTP channels (src/listeners/http_listener.cpp:127-249): configuration checks and a save loop of single-branch claims.
- Routing.Pipeline.Process: backward hops are covered when a stop comes at some time, since nothing else is sure to end their loop, and when none leads from a splitter, or from behind it, back to it or in front of it: a splitter re-entered while it generates would read a wrapper that is gone.
- Routing.SplitterSendsItsChunks: chunks that a second splitter splits again, or that a full queue stops, have no trail; they are covered by `WalkTrees.ProcessingIsATree`.
- Splitters.Splitter.GenerateMessage: a chunk size of 0 never finishes and is excluded; the iterator arithmetic past the end of the text is taken on integers.
- Substitution.Substitute: template positions are unbounded, so texts above 4 GB, where the source truncates a position to 32 bits, are not covered.
- Substitution.ParsePrint: literals that contain "{{" without a placeholder, or end in a brace in front of one, are not covered; the same holds for `Evaluation.TemplateOfPaths`.
- Builder.SubstituteContainer: documents are values that are rebuilt, so writing JSON nodes in place is not captured.
- ConfigIterator.Visit: requires at least one file, because the source dereferences the end of an empty map; iterators are compared by the content of their map instead of its address.
- Supervisor.PipelineSupervisor.DeletePipeline: the pipeline object that is terminated before the deletion is not part of this module.
- Supervisor.PipelineSupervisor.EditPipeline: stopping and restarting the pipeline object is not part of this module; its lifecycle is `Runtime`.
- Supervisor.GlobalConfig.UpdatePipeline: merging is any function of the stored and the new configuration.
- Throttle.WindowBound: rates are real numbers, so rounding and the sign of a zero rate are not covered.
- RuntimeTheorems.NothingLostOrReordered: says whose an output is by position only; what the outputs are is `Composition.BlockIsWhatTheWalkSends`.
- Splitters.Drive: excludes a chunk size of 0 as `Splitters.Splitter.GenerateMessage` does.
- Routing.Pipeline.Generate: under the same conditions on hops as `Routing.Pipeline.Process`.
- CommandTheorems.EveryCommandIsObeyed: of a START that is taken while the pipeline is RUNNING it says only that the control thread comes back to its queue; a worker may make the pipeline FAILED before execute_start looks at it.
- BroadcastTheorems.FirstOnesAreKept: is about a subscriber that takes nothing out; with pops, order and completeness are `BroadcastTheorems.SubscriberSeesPushes` and the bound is `Broadcast.BroadcastIsFaithful`.
- QuietRuns.ParkedIsSureIff: fair runs serve the four threads of the pipeline; a call of `execute` may take any time between its check and its push.
- Wall-clock time: a start timeout may strike at any time while a worker is starting.
