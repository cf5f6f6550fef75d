/** What a subscriber of a broadcast queue gets, read off the steps of a run. */
module BroadcastTheorems {
  import opened Queues
  import opened Broadcast

  // --------------------------------------------------------------------------------------------
  // Histories in the labels
  // --------------------------------------------------------------------------------------------

  /** The messages whose pushes begin in these steps, in order. */
  function Begun(labels: seq<Label>): seq<Msg> {
    if labels == [] then []
    else
      var last := labels[|labels| - 1];
      Begun(labels[..|labels| - 1]) + (if last.Begin? then [Msg(last.producer, last.body)] else [])
  }

  /** The body of the producer's last push. */
  function LastBody(labels: seq<Label>, p: nat): string {
    if labels == [] then ""
    else
      var last := labels[|labels| - 1];
      if last.Begin? && last.producer == p then last.body else LastBody(labels[..|labels| - 1], p)
  }

  /** The messages that the steps from `i` on try to put into the buffer of `id`, in order. */
  function Tried(labels: seq<Label>, i: nat, id: nat): seq<Msg>
    decreases |labels|
  {
    if |labels| <= i then []
    else
      var n := |labels| - 1;
      var last := labels[n];
      Tried(labels[..n], i, id)
      + (if last.Deliver? && last.id == id then [Msg(last.producer, LastBody(labels[..n], last.producer))] else [])
  }

  /** `id` was given out by the step at `i` and has been subscribed from then on. */
  ghost predicate IsSubscription(states: seq<State>, labels: seq<Label>, k: nat, id: nat, i: nat)
    requires IsRun(states, labels) && k < |states|
  {
    && i < k && labels[i].Subscribe?
    && id !in states[i].buffers
    && forall m :: i < m <= k ==> id in states[m].buffers
  }

  /** Every subscriber has subscribed at some step. */
  lemma {:induction false} HasSubscribed(states: seq<State>, labels: seq<Label>, k: nat, id: nat) returns (i: nat)
    requires IsRun(states, labels) && k < |states| && id in states[k].buffers
    ensures IsSubscription(states, labels, k, id, i)
  {
    assert k > 0;
    if id in states[k - 1].buffers {
      i := HasSubscribed(states, labels, k - 1, id);
    } else {
      SubscribesNow(states[k - 1], labels[k - 1], id);
      i := k - 1;
    }
  }

  lemma SubscribesNow(s: State, l: Label, id: nat)
    requires Enabled(s, l) && id !in s.buffers && id in Step(s, l).buffers
    ensures l.Subscribe?
    ensures Step(s, l).buffers[id] == Queue([], true, l.bufferSize)
    ensures Get(Step(s, l).started, id) == [] && Get(Step(s, l).popped, id) == [] && id !in Step(s, l).lossy
  {
  }

  lemma RunStep(states: seq<State>, labels: seq<Label>, m: nat)
    requires IsRun(states, labels) && m < |labels|
    ensures Enabled(states[m], labels[m]) && states[m + 1] == Step(states[m], labels[m])
    ensures ShapeInv(states[m])
  {
    RunKeepsInv(states, labels, m);
  }

  /** Nothing has happened to the new subscriber when its subscription begins. */
  lemma FirstState(states: seq<State>, labels: seq<Label>, id: nat, i: nat)
    requires IsRun(states, labels) && i < |labels| && labels[i].Subscribe?
    requires id !in states[i].buffers && id in states[i + 1].buffers
    ensures var s := states[i + 1];
            && s.buffers[id] == Queue([], true, labels[i].bufferSize)
            && Get(s.started, id) == [] && Get(s.popped, id) == [] && id !in s.lossy
  {
    RunStep(states, labels, i);
    SubscribesNow(states[i], labels[i], id);
  }

  /** The message of a push in progress is the one its producer pushed last. */
  ghost predicate PushesLast(s: State, labels: seq<Label>) {
    forall p :: p in s.pushing ==> s.pushing[p].msg == Msg(p, LastBody(labels, p))
  }

  lemma PushingStep(s: State, l: Label, labels: seq<Label>)
    requires Enabled(s, l) && PushesLast(s, labels)
    ensures PushesLast(Step(s, l), labels + [l])
  {
    assert (labels + [l])[..|labels|] == labels;
    forall p | p in Step(s, l).pushing
      ensures Step(s, l).pushing[p].msg == Msg(p, LastBody(labels + [l], p))
    {
    }
  }

  lemma {:induction false} RunPushesLast(states: seq<State>, labels: seq<Label>, k: nat)
    requires IsRun(states, labels) && k < |states|
    ensures PushesLast(states[k], labels[..k])
  {
    if k > 0 {
      RunPushesLast(states, labels, k - 1);
      PushingStep(states[k - 1], labels[k - 1], labels[..k - 1]);
      assert labels[..k] == labels[..k - 1] + [labels[k - 1]];
    }
  }

  // --------------------------------------------------------------------------------------------
  // The pushes since the subscription
  // --------------------------------------------------------------------------------------------

  lemma StartedStep(s: State, l: Label, id: nat)
    requires Enabled(s, l) && ShapeInv(s) && id in s.buffers && id in Step(s, l).buffers
    ensures Get(Step(s, l).started, id)
         == Get(s.started, id) + (if l.Begin? then [Msg(l.producer, l.body)] else [])
  {
    if l.Subscribe? {
      NewIdIsFree(s);
    }
  }

  lemma NewIdIsFree(s: State)
    requires ShapeInv(s)
    ensures s.maxTakenKey + 1 !in s.buffers
  {
    forall id | id in s.buffers ensures id <= s.maxTakenKey {
      var i :| 0 <= i < |s.issued| && s.issued[i] == id;
    }
  }

  lemma BegunGrows(labels: seq<Label>, i: nat, k: nat)
    requires i <= k < |labels|
    ensures Begun(labels[i..k + 1])
         == Begun(labels[i..k]) + (if labels[k].Begin? then [Msg(labels[k].producer, labels[k].body)] else [])
  {
    assert labels[i..k + 1][..k - i] == labels[i..k];
  }

  lemma StartedAt(states: seq<State>, labels: seq<Label>, m: nat, id: nat)
    requires IsRun(states, labels) && m < |labels| && id in states[m].buffers && id in states[m + 1].buffers
    ensures Get(states[m + 1].started, id)
         == Get(states[m].started, id) + (if labels[m].Begin? then [Msg(labels[m].producer, labels[m].body)] else [])
  {
    RunStep(states, labels, m);
    StartedStep(states[m], labels[m], id);
  }

  lemma {:induction false} StartedIsBegun(states: seq<State>, labels: seq<Label>, k: nat, id: nat, i: nat)
    requires IsRun(states, labels) && k < |states| && IsSubscription(states, labels, k, id, i)
    ensures Get(states[k].started, id) == Begun(labels[i..k])
  {
    BegunGrows(labels, i, k - 1);
    if k == i + 1 {
      FirstState(states, labels, id, i);
      assert labels[i..i] == [];
    } else {
      StartedIsBegun(states, labels, k - 1, id, i);
      StartedAt(states, labels, k - 1, id);
    }
  }

  /** Of every producer, a subscriber is given an in-order subsequence of what was pushed since it
      subscribed, and without a loss all of it, up to a push that has not reached its buffer yet. */
  lemma SubscriberSeesPushes(states: seq<State>, labels: seq<Label>, k: nat, id: nat, p: nat) returns (i: nat)
    requires IsRun(states, labels) && k < |states| && id in states[k].buffers
    ensures IsSubscription(states, labels, k, id, i)
    ensures Subsequence(Of(Given(states[k], id), p), Of(Begun(labels[i..k]), p))
    ensures id !in states[k].lossy ==>
      Of(Begun(labels[i..k]), p) == Of(Given(states[k], id), p) + Upcoming(states[k], id, p)
  {
    i := HasSubscribed(states, labels, k, id);
    StartedIsBegun(states, labels, k, id, i);
    BroadcastIsFaithful(states, labels, k, id, p);
  }

  // --------------------------------------------------------------------------------------------
  // Losses
  // --------------------------------------------------------------------------------------------

  /** The step meets a buffer that holds exactly as many messages as its size, in a push that has not
      reached the buffer of `id`. */
  predicate Loses(s: State, l: Label, id: nat) {
    && l.Deliver? && l.producer in s.pushing && id in s.pushing[l.producer].remaining
    && l.id in s.buffers && s.buffers[l.id].maxSize > 0 && |s.buffers[l.id].items| == s.buffers[l.id].maxSize
  }

  lemma LossyStep(s: State, l: Label, id: nat)
    requires Enabled(s, l) && ShapeInv(s) && id in s.buffers && id in Step(s, l).buffers
    ensures id in Step(s, l).lossy <==> id in s.lossy || Loses(s, l, id)
  {
    if l.Subscribe? {
      NewIdIsFree(s);
    } else if l.Deliver? {
      assert WithinBound(s.buffers[l.id]);
    }
  }

  lemma LossyAt(states: seq<State>, labels: seq<Label>, m: nat, id: nat)
    requires IsRun(states, labels) && m < |labels| && id in states[m].buffers && id in states[m + 1].buffers
    ensures id in states[m + 1].lossy <==> id in states[m].lossy || Loses(states[m], labels[m], id)
  {
    RunStep(states, labels, m);
    LossyStep(states[m], labels[m], id);
  }

  /** A subscriber has missed something exactly when, since it subscribed, some push met a full buffer
      before it reached this one. */
  lemma {:induction false} LossyIff(states: seq<State>, labels: seq<Label>, k: nat, id: nat, i: nat)
    requires IsRun(states, labels) && k < |states| && IsSubscription(states, labels, k, id, i)
    ensures id in states[k].lossy <==> exists m :: i < m < k && Loses(states[m], labels[m], id)
  {
    if k == i + 1 {
      FirstState(states, labels, id, i);
    } else {
      LossyIff(states, labels, k - 1, id, i);
      LossyAt(states, labels, k - 1, id);
    }
  }

  // --------------------------------------------------------------------------------------------
  // The size of a buffer
  // --------------------------------------------------------------------------------------------

  /** What a buffer of this size keeps of the messages put to it, if none is taken out: all of them
      for size 0, otherwise the first `size`. */
  function Kept(tried: seq<Msg>, size: nat): seq<Msg> {
    if size == 0 || |tried| <= size then tried else tried[..size]
  }

  lemma KeptGrows(tried: seq<Msg>, size: nat, msg: Msg)
    ensures Kept(tried + [msg], size)
         == if size > 0 && |tried| >= size then Kept(tried, size) else Kept(tried, size) + [msg]
  {
    if size > 0 && |tried| >= size {
      assert (tried + [msg])[..size] == tried[..size];
    }
  }

  lemma BufferStep(s: State, l: Label, id: nat)
    requires Enabled(s, l) && ShapeInv(s) && id in s.buffers && id in Step(s, l).buffers && l != Pop(id)
    ensures var before, after := s.buffers[id], Step(s, l).buffers[id];
            && after.maxSize == before.maxSize
            && after.items == if l.Deliver? && l.id == id && (before.maxSize == 0 || |before.items| < before.maxSize)
                              then before.items + [s.pushing[l.producer].msg] else before.items
  {
    if l.Subscribe? {
      NewIdIsFree(s);
    }
  }

  lemma TriedGrows(labels: seq<Label>, l: Label, i: nat, id: nat)
    requires i <= |labels|
    ensures Tried(labels + [l], i, id)
         == if l.Deliver? && l.id == id then Tried(labels, i, id) + [Msg(l.producer, LastBody(labels, l.producer))]
            else Tried(labels, i, id)
  {
    assert (labels + [l])[..|labels|] == labels;
    assert Tried(labels, i, id) + [] == Tried(labels, i, id);
  }

  lemma BufferGrows(s: State, l: Label, id: nat, labels: seq<Label>, i: nat)
    requires Enabled(s, l) && ShapeInv(s) && id in s.buffers && id in Step(s, l).buffers && l != Pop(id)
    requires i <= |labels| && PushesLast(s, labels)
    requires s.buffers[id].items == Kept(Tried(labels, i, id), s.buffers[id].maxSize)
    ensures var after := Step(s, l).buffers[id];
            && after.maxSize == s.buffers[id].maxSize
            && after.items == Kept(Tried(labels + [l], i, id), after.maxSize)
  {
    BufferStep(s, l, id);
    TriedGrows(labels, l, i, id);
    if l.Deliver? && l.id == id {
      var msg := Msg(l.producer, LastBody(labels, l.producer));
      assert s.pushing[l.producer].msg == msg;
      KeptRoom(Tried(labels, i, id), s.buffers[id].maxSize);
      KeptGrows(Tried(labels, i, id), s.buffers[id].maxSize, msg);
    }
  }

  lemma KeptRoom(tried: seq<Msg>, size: nat)
    ensures size > 0 ==> (|Kept(tried, size)| < size <==> |tried| < size)
  {
  }

  lemma BufferAt(states: seq<State>, labels: seq<Label>, m: nat, id: nat, i: nat)
    requires IsRun(states, labels) && i <= m < |labels| && labels[m] != Pop(id)
    requires id in states[m].buffers && id in states[m + 1].buffers
    requires states[m].buffers[id].items == Kept(Tried(labels[..m], i, id), states[m].buffers[id].maxSize)
    ensures var after := states[m + 1].buffers[id];
            && after.maxSize == states[m].buffers[id].maxSize
            && after.items == Kept(Tried(labels[..m + 1], i, id), after.maxSize)
  {
    RunStep(states, labels, m);
    RunPushesLast(states, labels, m);
    assert labels[..m + 1] == labels[..m] + [labels[m]];
    BufferGrows(states[m], labels[m], id, labels[..m], i);
  }

  /** What the buffer of `id`, of this size, holds after the steps `labels`, subscribed before `i`. */
  predicate HoldsFirst(s: State, labels: seq<Label>, id: nat, i: nat, size: nat) {
    && id in s.buffers && s.buffers[id].maxSize == size
    && s.buffers[id].items == Kept(Tried(labels, i, id), size)
  }

  lemma HoldsAtFirst(states: seq<State>, labels: seq<Label>, id: nat, i: nat)
    requires IsRun(states, labels) && i < |labels| && labels[i].Subscribe?
    requires id !in states[i].buffers && id in states[i + 1].buffers
    ensures HoldsFirst(states[i + 1], labels[..i + 1], id, i + 1, labels[i].bufferSize)
  {
    FirstState(states, labels, id, i);
  }

  lemma HoldsOn(states: seq<State>, labels: seq<Label>, m: nat, id: nat, i: nat, size: nat)
    requires IsRun(states, labels) && i <= m < |labels| && labels[m] != Pop(id) && id in states[m + 1].buffers
    ensures HoldsOnAt(states, labels, m, id, i, size)
  {
    if HoldsFirst(states[m], labels[..m], id, i, size) {
      BufferAt(states, labels, m, id, i);
    }
  }

  predicate HoldsOnAt(states: seq<State>, labels: seq<Label>, m: nat, id: nat, i: nat, size: nat)
    requires m < |labels| == |states| - 1
  {
    HoldsFirst(states[m], labels[..m], id, i, size) ==> HoldsFirst(states[m + 1], labels[..m + 1], id, i, size)
  }

  lemma {:induction false} HoldsUpTo(states: seq<State>, labels: seq<Label>, k: nat, id: nat, i: nat, size: nat)
    requires i <= k < |states| == |labels| + 1 && HoldsFirst(states[i], labels[..i], id, i, size)
    requires forall m :: i <= m < k ==> HoldsOnAt(states, labels, m, id, i, size)
    ensures HoldsFirst(states[k], labels[..k], id, i, size)
  {
    if i < k {
      HoldsUpTo(states, labels, k - 1, id, i, size);
      assert HoldsOnAt(states, labels, k - 1, id, i, size);
    }
  }

  /** A subscriber that takes nothing out holds exactly the first `bufferSize` messages that reached
      its buffer, and all of them if the size is 0. */
  lemma FirstOnesAreKept(states: seq<State>, labels: seq<Label>, k: nat, id: nat, i: nat)
    requires IsRun(states, labels) && k < |states| && IsSubscription(states, labels, k, id, i)
    requires forall m :: i < m < k ==> labels[m] != Pop(id)
    ensures states[k].buffers[id].maxSize == labels[i].bufferSize
    ensures states[k].buffers[id].items == Kept(Tried(labels[..k], i + 1, id), labels[i].bufferSize)
  {
    var size, first := labels[i].bufferSize, i + 1;
    HoldsAtFirst(states, labels, id, i);
    forall m | first <= m < k ensures HoldsOnAt(states, labels, m, id, first, size) {
      HoldsOn(states, labels, m, id, first, size);
    }
    HoldsUpTo(states, labels, k, id, first, size);
  }

  lemma SizeStep(s: State, l: Label, id: nat)
    requires Enabled(s, l) && ShapeInv(s) && id in s.buffers && id in Step(s, l).buffers
    ensures Step(s, l).buffers[id].maxSize == s.buffers[id].maxSize
  {
    if l.Subscribe? {
      NewIdIsFree(s);
    }
  }

  lemma SizeAt(states: seq<State>, labels: seq<Label>, m: nat, id: nat)
    requires IsRun(states, labels) && m < |labels| && id in states[m].buffers && id in states[m + 1].buffers
    ensures states[m + 1].buffers[id].maxSize == states[m].buffers[id].maxSize
  {
    RunStep(states, labels, m);
    SizeStep(states[m], labels[m], id);
  }

  /** The size of a buffer is the one it was subscribed with, also when messages are taken out. */
  lemma {:induction false} SizeIsSubscribed(states: seq<State>, labels: seq<Label>, k: nat, id: nat, i: nat)
    requires IsRun(states, labels) && k < |states| && IsSubscription(states, labels, k, id, i)
    ensures states[k].buffers[id].maxSize == labels[i].bufferSize
  {
    if k == i + 1 {
      FirstState(states, labels, id, i);
    } else {
      SizeIsSubscribed(states, labels, k - 1, id, i);
      SizeAt(states, labels, k - 1, id);
    }
  }

  lemma PopTakesOldest(s: State, id: nat)
    requires Enabled(s, Pop(id)) && ShapeInv(s)
    ensures var t := Step(s, Pop(id));
            && s.buffers[id].items == [s.buffers[id].items[0]] + t.buffers[id].items
            && Get(t.popped, id) == Get(s.popped, id) + [s.buffers[id].items[0]]
  {
  }

  lemma OthersTakeNothing(s: State, l: Label, id: nat)
    requires Enabled(s, l) && ShapeInv(s) && id in s.buffers && id in Step(s, l).buffers && l != Pop(id)
    ensures var t := Step(s, l);
            s.buffers[id].items <= t.buffers[id].items && Get(t.popped, id) == Get(s.popped, id)
  {
    if l.Subscribe? {
      NewIdIsFree(s);
    }
  }

  /** A pop takes the oldest message of the subscriber's own buffer, and no other step takes any. */
  lemma TakenIsOldest(s: State, l: Label, id: nat)
    requires Enabled(s, l) && ShapeInv(s) && id in s.buffers && id in Step(s, l).buffers
    ensures var t := Step(s, l);
            if l == Pop(id) then
              && s.buffers[id].items == [s.buffers[id].items[0]] + t.buffers[id].items
              && Get(t.popped, id) == Get(s.popped, id) + [s.buffers[id].items[0]]
            else s.buffers[id].items <= t.buffers[id].items && Get(t.popped, id) == Get(s.popped, id)
  {
    if l == Pop(id) {
      PopTakesOldest(s, id);
    } else {
      OthersTakeNothing(s, l, id);
    }
  }
}
