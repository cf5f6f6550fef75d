/** Processing one message as a tree: a path over filtras that ends, or that comes to a splitter and
    forks into one tree for each chunk, which may fork again. */
module WalkTrees {
  import opened Sequences
  import opened Splitters
  import opened Routing

  datatype Tree = Leaf(path: seq<Walker>) | Fork(path: seq<Walker>, chunks: Forest)

  datatype Forest = Nil | Cons(first: Tree, rest: Forest)

  function Last(path: seq<Walker>): Walker
    requires path != []
  {
    path[|path| - 1]
  }

  /** A destination queue of the filtra that lets the message through is full. */
  predicate Full(net: Net, a: Walker) {
    && a.ix < |net.filtras| && net.env.active(a.tick) && !Oversized(net, a.ix, a.payload)
    && Lets(Judged(net, a.ix, a.payload, a.tick).0)
    && Taken(net, net.filtras[a.ix].queues, a.tick, 0) < |net.filtras[a.ix].queues|
  }

  predicate Splits(net: Net, a: Walker) {
    a.ix < |net.filtras| && net.env.active(a.tick) && Oversized(net, a.ix, a.payload)
  }

  /** The queues in front of the full one have got their copies. */
  function CopiesAt(net: Net, a: Walker): seq<Copy> {
    if Full(net, a) then
      var queues := net.filtras[a.ix].queues;
      CopiesTo(queues[..Taken(net, queues, a.tick, 0)], Judged(net, a.ix, a.payload, a.tick).1)
    else []
  }

  // --------------------------------------------------------------------------------------------
  // What a tree does
  // --------------------------------------------------------------------------------------------

  function AfterPath(net: Net, path: seq<Walker>, w: World): World
    requires IsPath(net, path)
  {
    w.(tick := Last(path).tick, copies := w.copies + CopiesOn(net, path))
  }

  function AfterLeaf(net: Net, a: Walker, w: World): Outcome {
    if AtEnd(net, a) then Done(w.(sent := w.sent + [a.payload]))
    else if Full(net, a) then Escaped(w.(tick := w.tick + 1, copies := w.copies + CopiesAt(net, a)))
    else
      Done(w.(tick := w.tick + 1,
              failed := w.failed || Judged(net, a.ix, a.payload, a.tick).0 == Error))
  }

  function AfterSplit(net: Net, a: Walker, w: World): World
    requires a.ix < |net.filtras| == |w.ids|
  {
    w.(tick := w.tick + 1, ids := w.ids[a.ix := NextId(w.ids[a.ix])])
  }

  function AfterTree(net: Net, t: Tree, w: World): Outcome
    decreases t
  {
    if !IsPath(net, t.path) then Done(w)
    else
      var w1 := AfterPath(net, t.path, w);
      match t
      case Leaf(path) => AfterLeaf(net, Last(path), w1)
      case Fork(path, chunks) =>
        if Last(path).ix < |net.filtras| == |w.ids| then
          AfterForest(net, chunks, AfterSplit(net, Last(path), w1))
        else Done(w)
  }

  function AfterForest(net: Net, f: Forest, w: World): Outcome
    decreases f
  {
    match f
    case Nil => Done(w)
    case Cons(first, rest) =>
      var o := AfterTree(net, first, w);
      if o.Escaped? then o else AfterForest(net, rest, o.world)
  }

  /** The tree follows the filtras from `a` on, and forks into exactly the chunks of each message that
      is split, up to a full queue, which ends everything. */
  predicate IsTree(net: Net, t: Tree, a: Walker, w: World)
    requires ChunksArePositive(net) && |w.ids| == |net.filtras|
    decreases t
  {
    && IsPath(net, t.path) && t.path[0] == a && a.tick == w.tick
    && var last := Last(t.path);
       match t
       case Leaf(_) => AtEnd(net, last) || Dropped(net, last) || Full(net, last)
       case Fork(_, chunks) =>
         && Splits(net, last)
         && var f := net.filtras[last.ix];
            var w1 := AfterSplit(net, last, AfterPath(net, t.path, w));
            IsForest(net, chunks, Target(net, f.hops.passed, last.ix),
                     ChunksOf(w1.ids[last.ix], last.payload, f.kind.chunkSize), w1)
  }

  predicate IsForest(net: Net, f: Forest, ix: nat, chunks: seq<Chunk>, w: World)
    requires ChunksArePositive(net) && |w.ids| == |net.filtras|
    decreases f
  {
    match f
    case Nil => chunks == []
    case Cons(first, rest) =>
      && chunks != []
      && IsTree(net, first, Walker(ix, w.tick, net.env.encode(chunks[0])), w)
      && var o := AfterTree(net, first, w);
         |o.world.ids| == |net.filtras|
         && if o.Escaped? then rest.Nil? else IsForest(net, rest, ix, chunks[1..], o.world)
  }

  // --------------------------------------------------------------------------------------------
  // Every tree is a walk
  // --------------------------------------------------------------------------------------------

  lemma LeafWalks(net: Net, a: Walker, w: World)
    requires Terminating(net) && |w.ids| == |net.filtras| && a.tick == w.tick
    requires AtEnd(net, a) || Dropped(net, a) || Full(net, a)
    ensures Walk(net, a.ix, a.payload, w) == AfterLeaf(net, a, w)
  {
  }

  lemma SplitFans(net: Net, a: Walker, w: World)
    requires Terminating(net) && |w.ids| == |net.filtras| && a.tick == w.tick && Splits(net, a)
    ensures var f := net.filtras[a.ix];
            var w1 := AfterSplit(net, a, w);
            Walk(net, a.ix, a.payload, w)
            == Fan(net, Target(net, f.hops.passed, a.ix), ChunksOf(w1.ids[a.ix], a.payload, f.kind.chunkSize), w1)
  {
  }

  lemma {:induction false} TreeWalks(net: Net, t: Tree, a: Walker, w: World)
    requires Terminating(net) && |w.ids| == |net.filtras| && IsTree(net, t, a, w)
    ensures Walk(net, a.ix, a.payload, w) == AfterTree(net, t, w)
    decreases t
  {
    var last, w1 := Last(t.path), AfterPath(net, t.path, w);
    PathWalks(net, w, t.path);
    match t
    case Leaf(_) => LeafWalks(net, last, w1);
    case Fork(_, chunks) =>
      var f := net.filtras[last.ix];
      var w2 := AfterSplit(net, last, w1);
      SplitFans(net, last, w1);
      ForestFans(net, chunks, Target(net, f.hops.passed, last.ix),
                 ChunksOf(w2.ids[last.ix], last.payload, f.kind.chunkSize), w2);
  }

  lemma {:induction false} ForestFans(net: Net, f: Forest, ix: nat, chunks: seq<Chunk>, w: World)
    requires Terminating(net) && |w.ids| == |net.filtras| && IsForest(net, f, ix, chunks, w)
    ensures Fan(net, ix, chunks, w) == AfterForest(net, f, w)
    decreases f
  {
    match f
    case Nil =>
    case Cons(first, rest) =>
      TreeWalks(net, first, Walker(ix, w.tick, net.env.encode(chunks[0])), w);
      var o := AfterTree(net, first, w);
      if o.Done? {
        ForestFans(net, rest, ix, chunks[1..], o.world);
      }
  }

  // --------------------------------------------------------------------------------------------
  // Every walk is a tree
  // --------------------------------------------------------------------------------------------

  function Grown(a: Walker, t: Tree): Tree {
    t.(path := [a] + t.path)
  }

  lemma PathGrows(net: Net, a: Walker, path: seq<Walker>, w: World)
    requires IsPath(net, path) && Leads(net, a, path[0])
    ensures IsPath(net, [a] + path) && Last([a] + path) == Last(path)
    ensures AfterPath(net, [a] + path, w)
         == AfterPath(net, path, w.(tick := path[0].tick, copies := w.copies + HopCopies(net, a)))
  {
    assert ([a] + path)[1..] == path;
    Assoc(w.copies, HopCopies(net, a), CopiesOn(net, path));
  }

  lemma TreeGrows(net: Net, a: Walker, t: Tree, w: World)
    requires Terminating(net) && |w.ids| == |net.filtras| && t.path != [] && Leads(net, a, t.path[0])
    requires a.tick == w.tick
    requires IsTree(net, t, t.path[0], w.(tick := t.path[0].tick, copies := w.copies + HopCopies(net, a)))
    ensures IsTree(net, Grown(a, t), a, w)
  {
    PathGrows(net, a, t.path, w);
  }

  /** The turn at a walker is a leaf, a fork or a hop. */
  lemma TurnCases(net: Net, a: Walker, w: World)
    requires Terminating(net) && |w.ids| == |net.filtras| && a.tick == w.tick && !AtEnd(net, a)
    ensures match Turn(net, a.ix, a.payload, w)
            case Onward(next, after, w1) =>
              && Leads(net, a, Walker(next, w.tick + 1, after))
              && w1 == w.(tick := w.tick + 1, copies := w.copies + HopCopies(net, a))
            case FansOut(next, chunks, w1) =>
              && Splits(net, a) && w1 == AfterSplit(net, a, w)
              && next == Target(net, net.filtras[a.ix].hops.passed, a.ix)
              && chunks == ChunksOf(w1.ids[a.ix], a.payload, net.filtras[a.ix].kind.chunkSize)
            case Ended(_) => Dropped(net, a)
            case Blocked(_) => Full(net, a)
  {
    var f := net.filtras[a.ix];
    assert f.queues[..|f.queues|] == f.queues;
    assert w.copies + [] == w.copies;
  }

  lemma {:induction false} WalkHasTree(net: Net, a: Walker, w: World) returns (t: Tree)
    requires Terminating(net) && |w.ids| == |net.filtras| && a.tick == w.tick
    ensures IsTree(net, t, a, w)
    decreases Measure(net, a.ix, w.tick), 0
  {
    var here := [a];
    assert w.copies + [] == w.copies && AfterPath(net, here, w) == w;
    if AtEnd(net, a) {
      t := Leaf(here);
    } else {
      TurnCases(net, a, w);
      match Turn(net, a.ix, a.payload, w)
      case Onward(next, after, w1) =>
        var sub := WalkHasTree(net, Walker(next, w.tick + 1, after), w1);
        TreeGrows(net, a, sub, w);
        t := Grown(a, sub);
      case FansOut(next, chunks, w1) =>
        var forest := FanHasForest(net, next, chunks, w1);
        t := Fork(here, forest);
      case Ended(_) => t := Leaf(here);
      case Blocked(_) => t := Leaf(here);
    }
  }

  lemma {:induction false} FanHasForest(net: Net, ix: nat, chunks: seq<Chunk>, w: World) returns (f: Forest)
    requires Terminating(net) && |w.ids| == |net.filtras|
    ensures IsForest(net, f, ix, chunks, w)
    decreases Measure(net, ix, w.tick), |chunks| + 1
  {
    if chunks == [] {
      f := Nil;
    } else {
      var a := Walker(ix, w.tick, net.env.encode(chunks[0]));
      var first := WalkHasTree(net, a, w);
      TreeWalks(net, first, a, w);
      var o := Walk(net, ix, a.payload, w);
      if o.Escaped? {
        f := Cons(first, Nil);
      } else {
        var rest := FanHasForest(net, ix, chunks[1..], o.world);
        f := Cons(first, rest);
      }
    }
  }

  // --------------------------------------------------------------------------------------------
  // Outputs and copies of a tree
  // --------------------------------------------------------------------------------------------

  /** The payloads at the leaves that come to the end of the loop, from left to right. */
  function LeafOutputs(net: Net, t: Tree): seq<Payload>
    decreases t
  {
    match t
    case Leaf(path) => if path != [] && AtEnd(net, Last(path)) then [Last(path).payload] else []
    case Fork(_, chunks) => ForestOutputs(net, chunks)
  }

  function ForestOutputs(net: Net, f: Forest): seq<Payload>
    decreases f
  {
    match f
    case Nil => []
    case Cons(first, rest) => LeafOutputs(net, first) + ForestOutputs(net, rest)
  }

  /** The copies of every path of the tree, a path before the chunks it forks into. */
  function TreeCopies(net: Net, t: Tree): seq<Copy>
    decreases t
  {
    if !IsPath(net, t.path) then []
    else
      CopiesOn(net, t.path)
      + match t
        case Leaf(path) => CopiesAt(net, Last(path))
        case Fork(_, chunks) => ForestCopies(net, chunks)
  }

  function ForestCopies(net: Net, f: Forest): seq<Copy>
    decreases f
  {
    match f
    case Nil => []
    case Cons(first, rest) => TreeCopies(net, first) + ForestCopies(net, rest)
  }

  lemma {:induction false} TreeAdds(net: Net, t: Tree, a: Walker, w: World)
    requires ChunksArePositive(net) && |w.ids| == |net.filtras| && IsTree(net, t, a, w)
    ensures var o := AfterTree(net, t, w);
            && o.world.sent == w.sent + LeafOutputs(net, t)
            && o.world.copies == w.copies + TreeCopies(net, t)
    decreases t
  {
    var last, w1 := Last(t.path), AfterPath(net, t.path, w);
    match t
    case Leaf(_) =>
      assert w.sent + [] == w.sent;
      Assoc(w.copies, CopiesOn(net, t.path), CopiesAt(net, last));
      assert w1.copies + [] == w1.copies;
    case Fork(_, chunks) =>
      var f := net.filtras[last.ix];
      var w2 := AfterSplit(net, last, w1);
      ForestAdds(net, chunks, Target(net, f.hops.passed, last.ix),
                 ChunksOf(w2.ids[last.ix], last.payload, f.kind.chunkSize), w2);
      Assoc(w.copies, CopiesOn(net, t.path), ForestCopies(net, chunks));
  }

  lemma {:induction false} ForestAdds(net: Net, f: Forest, ix: nat, chunks: seq<Chunk>, w: World)
    requires ChunksArePositive(net) && |w.ids| == |net.filtras| && IsForest(net, f, ix, chunks, w)
    ensures var o := AfterForest(net, f, w);
            && o.world.sent == w.sent + ForestOutputs(net, f)
            && o.world.copies == w.copies + ForestCopies(net, f)
    decreases f
  {
    match f
    case Nil =>
      assert w.sent + [] == w.sent && w.copies + [] == w.copies;
    case Cons(first, rest) =>
      var o := AfterTree(net, first, w);
      TreeAdds(net, first, Walker(ix, w.tick, net.env.encode(chunks[0])), w);
      if o.Done? {
        ForestAdds(net, rest, ix, chunks[1..], o.world);
        Assoc(w.sent, LeafOutputs(net, first), ForestOutputs(net, rest));
        Assoc(w.copies, TreeCopies(net, first), ForestCopies(net, rest));
      } else {
        assert LeafOutputs(net, first) + [] == LeafOutputs(net, first);
        assert TreeCopies(net, first) + [] == TreeCopies(net, first);
      }
  }

  /** For every pipeline and every message, splitters and full queues included: processing follows a
      tree, sends exactly the payloads at its leaves, from left to right, and makes exactly the copies
      of its paths; and whatever tree follows the filtras gives the same. */
  lemma ProcessingIsATree(net: Net, a: Walker, w: World) returns (t: Tree)
    requires Terminating(net) && |w.ids| == |net.filtras| && a.tick == w.tick
    ensures IsTree(net, t, a, w)
    ensures forall u: Tree :: IsTree(net, u, a, w) ==>
      var o := Walk(net, a.ix, a.payload, w);
      && o == AfterTree(net, u, w)
      && o.world.sent == w.sent + LeafOutputs(net, u)
      && o.world.copies == w.copies + TreeCopies(net, u)
  {
    t := WalkHasTree(net, a, w);
    forall u: Tree | IsTree(net, u, a, w)
      ensures var o := Walk(net, a.ix, a.payload, w);
              && o == AfterTree(net, u, w)
              && o.world.sent == w.sent + LeafOutputs(net, u)
              && o.world.copies == w.copies + TreeCopies(net, u)
    {
      TreeWalks(net, u, a, w);
      TreeAdds(net, u, a, w);
    }
  }
}
