/** Internal broadcast queues: every message pushed to a queue goes to a bounded buffer of each of
    its subscribers.

    `InternalQueue` is the mutable object.  Producers hold the buffers lock only in shared mode, so
    the loops of several pushes interleave buffer by buffer; the step system below has one step per
    buffer.  Subscribing and unsubscribing take the lock exclusively. */
module Broadcast {
  import opened Queues
  import opened Sequences

  datatype Msg = Msg(producer: nat, body: string)

  type Buffer = Queue<Msg>

  /** numeric_limits<size_t>::max() */
  const MAX_KEY: nat := 0xFFFF_FFFF_FFFF_FFFF

  class InternalQueue {
    var buffers: map<nat, Buffer>
    var maxTakenKey: nat

    ghost predicate Valid()
      reads this
    {
      && maxTakenKey <= MAX_KEY
      && (forall id :: id in buffers ==> 0 < id <= maxTakenKey)
      && (forall id :: id in buffers ==> WithinBound(buffers[id]))
    }

    constructor ()
      ensures Valid() && buffers == map[] && maxTakenKey == 0
    {
      buffers := map[];
      maxTakenKey := 0;
    }

    /** The new subscriber's id, or 0 when the keys have run out. */
    method Subscribe(bufferSize: nat) returns (id: nat)
      requires Valid()
      modifies this
      ensures Valid()
      ensures id == 0 <==> old(maxTakenKey) == 0xFFFF_FFFF_FFFF_FFFF
      ensures id == 0 ==> unchanged(this)
      ensures id != 0 ==>
        && maxTakenKey == id && id > old(maxTakenKey) && id !in old(buffers)
        && buffers == old(buffers)[id := Queue([], true, bufferSize)]
    {
      if maxTakenKey == MAX_KEY {
        return 0;
      }
      maxTakenKey := maxTakenKey + 1;
      id := maxTakenKey;
      buffers := buffers[id := Queue([], true, bufferSize)];
    }

    method Unsubscribe(id: nat)
      requires Valid()
      modifies this`buffers
      ensures Valid()
      ensures buffers == old(buffers) - {id}
    {
      buffers := buffers - {id};
    }

    /** A push that no other push interrupts.  The first full buffer throws: the ones the loop has
        not reached then miss the message, whether they have room or not. */
    method Push(msg: Msg) returns (ok: bool)
      requires Valid()
      modifies this`buffers
      ensures Valid() && buffers.Keys == old(buffers).Keys
      ensures ok <==> forall id :: id in old(buffers) ==> HasRoom(old(buffers)[id])
      ensures ok ==> forall id :: id in buffers ==> IsGiven(old(buffers)[id], buffers[id], msg)
      ensures forall id :: id in buffers ==>
        buffers[id] == old(buffers)[id] || (HasRoom(old(buffers)[id]) && IsGiven(old(buffers)[id], buffers[id], msg))
    {
      var remaining := buffers.Keys;
      ghost var before := buffers;
      while remaining != {}
        invariant remaining <= buffers.Keys == before.Keys
        invariant forall id :: id in remaining ==> buffers[id] == before[id]
        invariant forall id :: id in buffers && id !in remaining ==>
          HasRoom(before[id]) && IsGiven(before[id], buffers[id], msg)
        invariant forall id :: id in buffers ==> WithinBound(buffers[id])
        decreases remaining
      {
        var id :| id in remaining;
        if buffers[id].Full() {
          return false;
        }
        buffers := buffers[id := buffers[id].Add(msg)];
        remaining := remaining - {id};
      }
      ok := true;
    }
  }

  /** Unbounded, or with fewer items than the bound. */
  predicate HasRoom(b: Buffer) {
    b.maxSize == 0 || |b.items| < b.maxSize
  }

  /** The buffer has got one more message, at its end. */
  predicate IsGiven(before: Buffer, after: Buffer, msg: Msg) {
    after == Queue(before.items + [msg], before.blocking, before.maxSize)
  }

  predicate WithinBound(b: Buffer) {
    b.maxSize > 0 ==> |b.items| <= b.maxSize
  }

  // --------------------------------------------------------------------------------------------
  // Concurrent producers
  // --------------------------------------------------------------------------------------------

  /** A push in progress: the buffers its loop has not reached yet. */
  datatype Push = Push(msg: Msg, remaining: set<nat>)

  /** `started` and `popped` are kept for every current subscriber: the pushes begun since it
      subscribed, in order, and what it has taken.  `lossy` are the subscribers an overflow has
      made miss something; `issued` are all ids ever given out. */
  datatype State = State(
    buffers: map<nat, Buffer>,
    maxTakenKey: nat,
    pushing: map<nat, Push>,
    started: map<nat, seq<Msg>>,
    popped: map<nat, seq<Msg>>,
    lossy: set<nat>,
    issued: seq<nat>)

  const EMPTY := State(map[], 0, map[], map[], map[], {}, [])

  datatype Label =
    | Subscribe(bufferSize: nat)
    | Unsubscribe(id: nat)
    | Begin(producer: nat, body: string)
    | Deliver(producer: nat, id: nat)
    | Finish(producer: nat)
    | Pop(id: nat)
    | Unblock(id: nat)

  predicate Enabled(s: State, l: Label) {
    match l
    case Subscribe(_) => s.pushing == map[] && s.maxTakenKey < MAX_KEY
    case Unsubscribe(_) => s.pushing == map[]
    case Begin(p, _) => p !in s.pushing
    case Deliver(p, id) => p in s.pushing && id in s.pushing[p].remaining && id in s.buffers
    case Finish(p) => p in s.pushing && s.pushing[p].remaining == {}
    case Pop(id) => id in s.buffers && s.buffers[id].items != []
    case Unblock(id) => id in s.buffers
  }

  function Get(m: map<nat, seq<Msg>>, id: nat): seq<Msg> {
    if id in m then m[id] else []
  }

  function Step(s: State, l: Label): State
    requires Enabled(s, l)
  {
    match l
    case Subscribe(size) =>
      var id := s.maxTakenKey + 1;
      s.(buffers := s.buffers[id := Queue([], true, size)], maxTakenKey := id,
         started := s.started[id := []], popped := s.popped[id := []],
         lossy := s.lossy - {id}, issued := s.issued + [id])
    case Unsubscribe(id) =>
      s.(buffers := s.buffers - {id}, started := s.started - {id}, popped := s.popped - {id})
    case Begin(p, body) =>
      var msg := Msg(p, body);
      s.(pushing := s.pushing[p := Push(msg, s.buffers.Keys)],
         started := map id | id in s.buffers :: Get(s.started, id) + [msg])
    case Deliver(p, id) =>
      var push := s.pushing[p];
      if s.buffers[id].Full() then
        s.(pushing := s.pushing - {p}, lossy := s.lossy + push.remaining)
      else
        s.(pushing := s.pushing[p := push.(remaining := push.remaining - {id})],
           buffers := s.buffers[id := s.buffers[id].Add(push.msg)])
    case Finish(p) => s.(pushing := s.pushing - {p})
    case Pop(id) =>
      s.(buffers := s.buffers[id := s.buffers[id].Remove()],
         popped := s.popped[id := Get(s.popped, id) + [s.buffers[id].items[0]]])
    case Unblock(id) => s.(buffers := s.buffers[id := s.buffers[id].(blocking := false)])
  }

  /** The messages of one producer, in order. */
  function Of(msgs: seq<Msg>, p: nat): seq<Msg> {
    if msgs == [] then []
    else
      Of(msgs[..|msgs| - 1], p)
      + (if msgs[|msgs| - 1].producer == p then [msgs[|msgs| - 1]] else [])
  }

  /** `a` is `b` with some elements left out. */
  predicate Subsequence(a: seq<Msg>, b: seq<Msg>)
    decreases |b|
  {
    a == [] ||
    (b != [] &&
      (Subsequence(a, b[..|b| - 1]) ||
       (a[|a| - 1] == b[|b| - 1] && Subsequence(a[..|a| - 1], b[..|b| - 1]))))
  }

  /** What the subscriber has been given: taken and still buffered. */
  function Given(s: State, id: nat): seq<Msg>
    requires id in s.buffers
  {
    Get(s.popped, id) + s.buffers[id].items
  }

  /** The push of `p`, if it has not reached the buffer of `id` yet. */
  function Upcoming(s: State, id: nat, p: nat): seq<Msg> {
    if p in s.pushing && id in s.pushing[p].remaining then [s.pushing[p].msg] else []
  }

  /** `settled` are all pushes of `p` since the subscription that are over as far as this subscriber
      is concerned; they are followed by the one still on its way. */
  ghost predicate Settles(s: State, id: nat, p: nat, settled: seq<Msg>)
    requires id in s.buffers
  {
    && Of(Get(s.started, id), p) == settled + Upcoming(s, id, p)
    && Subsequence(Of(Given(s, id), p), settled)
    && (id !in s.lossy ==> Of(Given(s, id), p) == settled)
  }

  ghost predicate PairInv(s: State, id: nat, p: nat)
    requires id in s.buffers
  {
    exists settled: seq<Msg> :: Settles(s, id, p, settled)
  }

  predicate Increasing(ids: seq<nat>, max: nat) {
    && (forall i :: 0 <= i < |ids| ==> 0 < ids[i] <= max)
    && (forall i, j :: 0 <= i < j < |ids| ==> ids[i] < ids[j])
  }

  predicate IdsInv(issued: seq<nat>, max: nat, ids: set<nat>) {
    max <= MAX_KEY && Increasing(issued, max) && forall id :: id in ids ==> id in issued
  }

  predicate BoundsInv(buffers: map<nat, Buffer>) {
    forall id :: id in buffers ==> WithinBound(buffers[id])
  }

  predicate PushesInv(pushing: map<nat, Push>) {
    forall p :: p in pushing ==> pushing[p].msg.producer == p
  }

  predicate ShapeInv(s: State) {
    && s.started.Keys == s.buffers.Keys && s.popped.Keys == s.buffers.Keys
    && IdsInv(s.issued, s.maxTakenKey, s.buffers.Keys)
    && BoundsInv(s.buffers)
    && PushesInv(s.pushing)
  }

  ghost predicate Inv(s: State) {
    ShapeInv(s) && forall id, p: nat :: id in s.buffers ==> PairInv(s, id, p)
  }

  lemma OfAppend(msgs: seq<Msg>, m: Msg, p: nat)
    ensures Of(msgs + [m], p) == Of(msgs, p) + (if m.producer == p then [m] else [])
  {
    assert (msgs + [m])[..|msgs|] == msgs;
  }

  lemma {:induction false} SubsequenceRefl(a: seq<Msg>)
    ensures Subsequence(a, a)
  {
    if a != [] {
      SubsequenceRefl(a[..|a| - 1]);
    }
  }

  lemma SubsequenceAppend(a: seq<Msg>, b: seq<Msg>, m: Msg)
    requires Subsequence(a, b)
    ensures Subsequence(a, b + [m]) && Subsequence(a + [m], b + [m])
  {
    assert (b + [m])[..|b|] == b && (a + [m])[..|a|] == a;
  }

  lemma SubscribeKeepsShape(s: State, l: Label)
    requires ShapeInv(s) && Enabled(s, l) && l.Subscribe?
    ensures ShapeInv(Step(s, l))
  {
    var t := Step(s, l);
    assert t.issued[|s.issued|] == s.maxTakenKey + 1;
    forall id | id in s.buffers ensures id in t.issued {
      var i :| 0 <= i < |s.issued| && s.issued[i] == id;
      assert t.issued[i] == id;
    }
  }

  lemma PushKeepsShape(s: State, l: Label)
    requires ShapeInv(s) && Enabled(s, l) && (l.Begin? || l.Deliver? || l.Finish?)
    ensures ShapeInv(Step(s, l))
  {
    var t := Step(s, l);
    assert t.buffers.Keys == s.buffers.Keys;
    assert PushesInv(t.pushing);
    assert BoundsInv(t.buffers);
  }

  lemma UnsubscribeKeepsShape(s: State, l: Label)
    requires ShapeInv(s) && Enabled(s, l) && l.Unsubscribe?
    ensures ShapeInv(Step(s, l))
  {
    var t := Step(s, l);
    assert IdsInv(t.issued, t.maxTakenKey, t.buffers.Keys);
  }

  lemma ReaderKeepsShape(s: State, l: Label)
    requires ShapeInv(s) && Enabled(s, l) && (l.Pop? || l.Unblock?)
    ensures ShapeInv(Step(s, l))
  {
    var t := Step(s, l);
    assert t.buffers.Keys == s.buffers.Keys;
    assert t.popped.Keys == s.popped.Keys;
    assert WithinBound(t.buffers[l.id]);
  }

  lemma SubscribeKeepsPair(s: State, l: Label, id: nat, p: nat)
    requires Inv(s) && Enabled(s, l) && (l.Subscribe? || l.Unsubscribe?) && id in Step(s, l).buffers
    ensures PairInv(Step(s, l), id, p)
  {
    var t := Step(s, l);
    if id in s.buffers && !(l.Subscribe? && id == s.maxTakenKey + 1) {
      assert PairInv(s, id, p);
      var settled :| Settles(s, id, p, settled);
      assert Given(t, id) == Given(s, id) && Get(t.started, id) == Get(s.started, id);
      assert Settles(t, id, p, settled);
    } else {
      assert Given(t, id) == [];
      assert Settles(t, id, p, []);
    }
  }

  lemma BeginKeepsPair(s: State, l: Label, id: nat, p: nat)
    requires id in s.buffers && PairInv(s, id, p) && Enabled(s, l) && l.Begin?
    ensures PairInv(Step(s, l), id, p)
  {
    var t := Step(s, l);
    var msg := Msg(l.producer, l.body);
    var settled :| Settles(s, id, p, settled);
    OfAppend(Get(s.started, id), msg, p);
    assert Get(t.started, id) == Get(s.started, id) + [msg];
    assert Given(t, id) == Given(s, id);
    assert Settles(t, id, p, settled);
  }

  lemma DeliveryAddsOne(s: State, l: Label, id: nat, p: nat)
    requires id in s.buffers && Enabled(s, l) && l.Deliver? && id == l.id && !s.buffers[id].Full()
    requires s.pushing[l.producer].msg.producer == l.producer
    ensures Of(Given(Step(s, l), id), p)
         == Of(Given(s, id), p) + (if p == l.producer then [s.pushing[l.producer].msg] else [])
  {
    var msg := s.pushing[l.producer].msg;
    assert Given(Step(s, l), id) == Given(s, id) + [msg];
    OfAppend(Given(s, id), msg, p);
  }

  lemma DeliveryTakesUpcoming(s: State, l: Label, id: nat, p: nat)
    requires id in s.buffers && Enabled(s, l) && l.Deliver? && id == l.id && !s.buffers[id].Full()
    ensures var t := Step(s, l);
            && Upcoming(t, id, p) == (if p == l.producer then [] else Upcoming(s, id, p))
            && t.started == s.started && t.lossy == s.lossy
  {
  }

  lemma OwnDelivery(s: State, l: Label, id: nat, settled: seq<Msg>)
    requires id in s.buffers && Enabled(s, l) && l.Deliver? && id == l.id && !s.buffers[id].Full()
    requires s.pushing[l.producer].msg.producer == l.producer && Settles(s, id, l.producer, settled)
    ensures Settles(Step(s, l), id, l.producer, settled + [s.pushing[l.producer].msg])
  {
    var msg := s.pushing[l.producer].msg;
    DeliveryAddsOne(s, l, id, l.producer);
    DeliveryTakesUpcoming(s, l, id, l.producer);
    assert Upcoming(s, id, l.producer) == [msg];
    SubsequenceAppend(Of(Given(s, id), l.producer), settled, msg);
    assert (settled + [msg]) + [] == settled + [msg];
  }

  lemma ForeignDelivery(s: State, l: Label, id: nat, p: nat, settled: seq<Msg>)
    requires id in s.buffers && Enabled(s, l) && l.Deliver? && id == l.id && !s.buffers[id].Full()
    requires s.pushing[l.producer].msg.producer == l.producer && p != l.producer && Settles(s, id, p, settled)
    ensures Settles(Step(s, l), id, p, settled)
  {
    DeliveryAddsOne(s, l, id, p);
    DeliveryTakesUpcoming(s, l, id, p);
    assert Of(Given(s, id), p) + [] == Of(Given(s, id), p);
  }

  /** The buffer of `id` takes the message. */
  lemma DeliveryKeepsPair(s: State, l: Label, id: nat, p: nat)
    requires id in s.buffers && PairInv(s, id, p) && Enabled(s, l)
    requires l.Deliver? && id == l.id && !s.buffers[id].Full()
    requires s.pushing[l.producer].msg.producer == l.producer
    ensures PairInv(Step(s, l), id, p)
  {
    var settled :| Settles(s, id, p, settled);
    if p == l.producer {
      OwnDelivery(s, l, id, settled);
    } else {
      ForeignDelivery(s, l, id, p, settled);
    }
  }

  lemma OverflowTakesUpcoming(s: State, l: Label, id: nat, p: nat)
    requires id in s.buffers && Enabled(s, l) && l.Deliver? && s.buffers[l.id].Full()
    ensures var t := Step(s, l);
            && t.buffers == s.buffers && t.popped == s.popped && t.started == s.started
            && s.lossy <= t.lossy
            && (Upcoming(t, id, p) == [] || Upcoming(t, id, p) == Upcoming(s, id, p))
            && (Upcoming(t, id, p) != Upcoming(s, id, p) ==> id in t.lossy)
  {
  }

  /** A full buffer ends the push; `id` may be among the buffers it will not reach. */
  lemma OverflowKeepsPair(s: State, l: Label, id: nat, p: nat)
    requires id in s.buffers && PairInv(s, id, p) && Enabled(s, l)
    requires l.Deliver? && s.buffers[l.id].Full()
    ensures PairInv(Step(s, l), id, p)
  {
    var t := Step(s, l);
    var settled :| Settles(s, id, p, settled);
    OverflowTakesUpcoming(s, l, id, p);
    var given, upcoming := Of(Given(s, id), p), Upcoming(s, id, p);
    assert Given(t, id) == Given(s, id) && Get(t.started, id) == Get(s.started, id);
    if Upcoming(t, id, p) == upcoming {
      assert Settles(t, id, p, settled);
    } else {
      SubsequenceAppend(given, settled, upcoming[0]);
      assert settled + upcoming == settled + [upcoming[0]];
      assert (settled + upcoming) + [] == settled + upcoming;
      assert Settles(t, id, p, settled + upcoming);
    }
  }

  lemma PopKeepsGiven(s: State, l: Label, id: nat)
    requires id in s.buffers && Enabled(s, l) && l.Pop?
    ensures Given(Step(s, l), id) == Given(s, id)
  {
    if id == l.id {
      var items := s.buffers[id].items;
      assert items == [items[0]] + items[1..];
      Assoc(Get(s.popped, id), [items[0]], items[1..]);
    }
  }

  lemma PopKeepsPair(s: State, l: Label, id: nat, p: nat)
    requires id in s.buffers && PairInv(s, id, p) && Enabled(s, l) && l.Pop?
    ensures PairInv(Step(s, l), id, p)
  {
    var settled :| Settles(s, id, p, settled);
    PopKeepsGiven(s, l, id);
    assert Settles(Step(s, l), id, p, settled);
  }

  lemma OtherTouchesNothing(s: State, l: Label, id: nat, p: nat)
    requires id in s.buffers && Enabled(s, l)
    requires l.Finish? || l.Unblock? || (l.Deliver? && id != l.id && !s.buffers[l.id].Full())
    ensures var t := Step(s, l);
            && id in t.buffers && t.buffers[id].items == s.buffers[id].items
            && t.popped == s.popped && t.started == s.started && t.lossy == s.lossy
            && Upcoming(t, id, p) == Upcoming(s, id, p)
  {
  }

  lemma OtherKeepsPair(s: State, l: Label, id: nat, p: nat)
    requires id in s.buffers && PairInv(s, id, p) && Enabled(s, l)
    requires l.Finish? || l.Unblock? || (l.Deliver? && id != l.id && !s.buffers[l.id].Full())
    ensures PairInv(Step(s, l), id, p)
  {
    var settled :| Settles(s, id, p, settled);
    OtherTouchesNothing(s, l, id, p);
    assert Settles(Step(s, l), id, p, settled);
  }

  lemma StepKeepsInv(s: State, l: Label)
    requires Inv(s) && Enabled(s, l)
    ensures Inv(Step(s, l))
  {
    var t := Step(s, l);
    if l.Subscribe? {
      SubscribeKeepsShape(s, l);
    } else if l.Begin? || l.Deliver? || l.Finish? {
      PushKeepsShape(s, l);
    } else if l.Unsubscribe? {
      UnsubscribeKeepsShape(s, l);
    } else {
      ReaderKeepsShape(s, l);
    }
    forall id, p: nat | id in t.buffers ensures PairInv(t, id, p) {
      if l.Subscribe? || l.Unsubscribe? {
        SubscribeKeepsPair(s, l, id, p);
      } else {
        assert id in s.buffers && PairInv(s, id, p);
        if l.Begin? {
          BeginKeepsPair(s, l, id, p);
        } else if l.Deliver? && s.buffers[l.id].Full() {
          OverflowKeepsPair(s, l, id, p);
        } else if l.Deliver? && id == l.id {
          DeliveryKeepsPair(s, l, id, p);
        } else if l.Pop? {
          PopKeepsPair(s, l, id, p);
        } else {
          OtherKeepsPair(s, l, id, p);
        }
      }
    }
  }

  ghost predicate IsRun(states: seq<State>, labels: seq<Label>) {
    && |states| == |labels| + 1
    && states[0] == EMPTY
    && forall i :: 0 <= i < |labels| ==>
         Enabled(states[i], labels[i]) && states[i + 1] == Step(states[i], labels[i])
  }

  lemma {:induction false} RunKeepsInv(states: seq<State>, labels: seq<Label>, k: nat)
    requires IsRun(states, labels) && k < |states|
    ensures Inv(states[k])
  {
    if k > 0 {
      RunKeepsInv(states, labels, k - 1);
      StepKeepsInv(states[k - 1], labels[k - 1]);
    }
  }

  /** In every reachable state, for every subscriber and every producer: what the subscriber was
      given of this producer is an in-order subsequence of the producer's pushes since the
      subscription; without an overflow it is all of them, up to a push that is still on its way;
      and a bounded buffer never exceeds its bound. */
  lemma BroadcastIsFaithful(states: seq<State>, labels: seq<Label>, k: nat, id: nat, p: nat)
    requires IsRun(states, labels) && k < |states| && id in states[k].buffers
    ensures var s := states[k];
            && Subsequence(Of(Given(s, id), p), Of(Get(s.started, id), p))
            && (id !in s.lossy ==>
                  Of(Get(s.started, id), p) == Of(Given(s, id), p) + Upcoming(s, id, p))
            && (s.buffers[id].maxSize > 0 ==> |s.buffers[id].items| <= s.buffers[id].maxSize)
  {
    var s := states[k];
    RunKeepsInv(states, labels, k);
    assert PairInv(s, id, p);
    var settled :| Settles(s, id, p, settled);
    assert WithinBound(s.buffers[id]);
    if Upcoming(s, id, p) != [] {
      SubsequenceAppend(Of(Given(s, id), p), settled, Upcoming(s, id, p)[0]);
      assert settled + Upcoming(s, id, p) == settled + [Upcoming(s, id, p)[0]];
    } else {
      assert settled + [] == settled;
    }
  }

  /** A new subscriber's id differs from every id given out before in the run. */
  lemma IdsAreNeverReused(states: seq<State>, labels: seq<Label>, k: nat)
    requires IsRun(states, labels) && k < |labels| && labels[k].Subscribe?
    ensures var id := states[k + 1].maxTakenKey;
            && id !in states[k].issued && states[k + 1].issued == states[k].issued + [id]
            && id in states[k + 1].buffers && Given(states[k + 1], id) == []
            && (forall used :: used in states[k].buffers ==> used in states[k].issued)
  {
    RunKeepsInv(states, labels, k);
  }
}
