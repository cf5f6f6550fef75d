/** The splitter filtra: oversized messages leave it as numbered chunks.

    `Splitter` is the mutable filtra.  `ChunksOf` says what one oversized message becomes,
    `Emitted` what a whole run of one splitter produces, and `Rebuild` is a receiver that sees the
    chunks in any order.
 */
module Splitters {
  import opened Arithmetic
  import opened Sequences

  type Payload = string

  /** Message ids are 64-bit and wrap. */
  const WORD: nat := 0x1_0000_0000_0000_0000

  datatype Chunk = Chunk(id: nat, total: nat, number: nat, data: Payload)

  datatype Generated = Nothing | Generated(chunk: Chunk)

  function NextId(id: nat): nat {
    (id + 1) % WORD
  }

  function Cut(rest: Payload, size: nat): (n: nat)
    ensures n <= |rest| && n <= size
  {
    if |rest| > size then size else |rest|
  }

  /** The chunks of the part `rest` of a message, numbered from `number`. */
  function Chunks(id: nat, total: nat, number: nat, rest: Payload, size: nat): seq<Chunk>
    requires size > 0
    decreases |rest|
  {
    if rest == [] then []
    else
      var n := Cut(rest, size);
      [Chunk(id, total, number, rest[..n])] + Chunks(id, total, number + 1, rest[n..], size)
  }

  function ChunksOf(id: nat, payload: Payload, size: nat): seq<Chunk>
    requires size > 0
  {
    Chunks(id, |payload|, 0, payload, size)
  }

  /** The chunks of a message from position `start` on, the first of them being the `k`-th. */
  function ChunksFrom(id: nat, payload: Payload, size: nat, k: nat, start: nat): seq<Chunk>
    requires size > 0
  {
    if start >= |payload| then [] else Chunks(id, |payload|, k, payload[start..], size)
  }

  lemma ChunksFromStep(id: nat, payload: Payload, size: nat, k: nat, start: nat)
    requires size > 0 && start < |payload|
    ensures var n := Cut(payload[start..], size);
            ChunksFrom(id, payload, size, k, start)
            == [Chunk(id, |payload|, k, payload[start..start + n])]
               + ChunksFrom(id, payload, size, k + 1, start + size)
  {
    var rest := payload[start..];
    var n := Cut(rest, size);
    assert rest[..n] == payload[start..start + n];
    var tail := Chunks(id, |payload|, k + 1, rest[n..], size);
    assert Chunks(id, |payload|, k, rest, size)
        == [Chunk(id, |payload|, k, payload[start..start + n])] + tail;
    if start + size >= |payload| {
      assert rest[n..] == [];
    } else {
      assert rest[n..] == payload[start + size..];
    }
  }

  class Splitter {
    const chunkSize: nat
    var messageId: nat
    var chunkCounter: int
    /** The payload behind the stored wrapper pointer. */
    var payload: Payload

    ghost predicate Valid()
      reads this
    {
      messageId < WORD
    }

    /** What GenerateMessage is still going to return. */
    function Pending(): seq<Chunk>
      requires chunkSize > 0
      reads this
    {
      if chunkCounter < 0 then []
      else ChunksFrom(messageId, payload, chunkSize, chunkCounter, chunkSize * chunkCounter)
    }

    constructor (chunkSize: nat, firstId: nat)
      requires firstId < 65536
      ensures Valid() && this.chunkSize == chunkSize && messageId == firstId
      ensures chunkSize > 0 ==> Pending() == []
    {
      this.chunkSize := chunkSize;
      messageId := firstId;
      chunkCounter := -1;
      payload := [];
    }

    method ProcessMessage(data: Payload) returns (self: bool)
      requires Valid()
      modifies this
      ensures Valid()
      ensures self <==> |data| > chunkSize
      ensures !self ==> unchanged(this)
      ensures self ==> messageId == NextId(old(messageId))
      ensures self ==> messageId == if old(messageId) == 0xFFFF_FFFF_FFFF_FFFF then 0 else old(messageId) + 1
      ensures self && chunkSize > 0 ==> Pending() == ChunksOf(messageId, data, chunkSize)
    {
      if |data| > chunkSize {
        payload := data;
        chunkCounter := 0;
        messageId := (messageId + 1) % WORD;
        return true;
      }
      self := false;
    }

    method GenerateMessage() returns (r: Generated)
      requires Valid() && chunkSize > 0
      modifies this
      ensures Valid() && messageId == old(messageId)
      ensures r.Nothing? <==> old(Pending()) == []
      ensures r.Nothing? ==> unchanged(this)
      ensures r.Generated? ==> old(Pending()) == [r.chunk] + Pending()
    {
      if chunkCounter == -1 {
        return Nothing;
      }
      var start := chunkSize * chunkCounter;
      var rest := |payload| - start;
      if chunkCounter < 0 || rest <= 0 {
        return Nothing;
      }
      ChunksFromStep(messageId, payload, chunkSize, chunkCounter, start);
      rest := if rest > chunkSize then chunkSize else rest;
      r := Generated(Chunk(messageId, |payload|, chunkCounter, payload[start..start + rest]));
      TimesNext(chunkSize, chunkCounter);
      chunkCounter := chunkCounter + 1;
    }
  }

  // --------------------------------------------------------------------------------------------
  // One message
  // --------------------------------------------------------------------------------------------

  function Join(chunks: seq<Chunk>): Payload {
    if chunks == [] then [] else chunks[0].data + Join(chunks[1..])
  }

  /** Strictly increasing chunk numbers. */
  predicate Numbered(chunks: seq<Chunk>) {
    forall i, j :: 0 <= i < j < |chunks| ==> chunks[i].number < chunks[j].number
  }

  lemma {:induction false} ChunkAt(id: nat, total: nat, number: nat, rest: Payload, size: nat, k: nat)
    requires size > 0 && k < |Chunks(id, total, number, rest, size)|
    ensures var chunks := Chunks(id, total, number, rest, size);
            && chunks[k].id == id && chunks[k].total == total && chunks[k].number == number + k
            && (if k < |chunks| - 1 then |chunks[k].data| == size else 0 < |chunks[k].data| <= size)
    decreases k
  {
    var n := Cut(rest, size);
    if k > 0 {
      ChunkAt(id, total, number + 1, rest[n..], size, k - 1);
    }
  }

  lemma {:induction false} ChunkCount(id: nat, total: nat, number: nat, rest: Payload, size: nat)
    requires size > 0
    ensures var m := |Chunks(id, total, number, rest, size)|;
            size * m >= |rest| && (m > 0 ==> size * (m - 1) < |rest|)
    decreases |rest|
  {
    if rest != [] {
      var n := Cut(rest, size);
      var tail := Chunks(id, total, number + 1, rest[n..], size);
      ChunkCount(id, total, number + 1, rest[n..], size);
      TimesNext(size, |tail|);
      TimesNext(size, |tail| - 1);
    }
  }

  lemma TimesNext(size: int, m: int)
    ensures size * (m + 1) == size * m + size
  {
  }

  lemma {:induction false} JoinChunks(id: nat, total: nat, number: nat, rest: Payload, size: nat)
    requires size > 0
    ensures Join(Chunks(id, total, number, rest, size)) == rest
    decreases |rest|
  {
    if rest != [] {
      var n := Cut(rest, size);
      JoinChunks(id, total, number + 1, rest[n..], size);
      assert rest == rest[..n] + rest[n..];
    }
  }

  /** ceil(n/c) chunks, numbered from 0, all full but possibly the last, and together the payload. */
  lemma ChunksAreExact(id: nat, payload: Payload, size: nat)
    requires size > 0 && |payload| > size
    ensures var chunks := ChunksOf(id, payload, size);
            && |chunks| == (|payload| + size - 1) / size
            && (forall k :: 0 <= k < |chunks| ==>
                  && chunks[k].id == id && chunks[k].total == |payload| && chunks[k].number == k
                  && (if k < |chunks| - 1 then |chunks[k].data| == size
                      else 0 < |chunks[k].data| <= size))
            && Join(chunks) == payload
  {
    var chunks := ChunksOf(id, payload, size);
    forall k | 0 <= k < |chunks|
      ensures && chunks[k].id == id && chunks[k].total == |payload| && chunks[k].number == k
              && (if k < |chunks| - 1 then |chunks[k].data| == size
                  else 0 < |chunks[k].data| <= size)
    {
      ChunkAt(id, |payload|, 0, payload, size, k);
    }
    JoinChunks(id, |payload|, 0, payload, size);
    ChunkCount(id, |payload|, 0, payload, size);
    CeilUnique(|payload|, size, |chunks|);
  }

  lemma CeilUnique(n: nat, c: nat, m: nat)
    requires c > 0 && m > 0 && c * (m - 1) < n <= c * m
    ensures m == (n + c - 1) / c
  {
    assert c * (m - 1) == c * m - c;
    DivMod(n + c - 1, c, m, n + c - 1 - m * c);
  }

  // --------------------------------------------------------------------------------------------
  // A run of one splitter, and a receiver
  // --------------------------------------------------------------------------------------------

  /** Everything one splitter emits while it processes `messages`; small ones pass unsplit. */
  function Emitted(id: nat, messages: seq<Payload>, size: nat): seq<Chunk>
    requires size > 0
    decreases |messages|
  {
    if messages == [] then []
    else if |messages[0]| > size then
      ChunksOf(NextId(id), messages[0], size) + Emitted(NextId(id), messages[1..], size)
    else Emitted(id, messages[1..], size)
  }

  /** A run over two batches is the runs over each, the second with the ids that follow. */
  lemma {:induction false} EmittedAppend(id: nat, a: seq<Payload>, b: seq<Payload>, size: nat)
    requires size > 0 && id < WORD
    ensures Emitted(id, a + b, size) == Emitted(id, a, size) + Emitted(IdAfter(id, Splits(a, size)), b, size)
    decreases |a|
  {
    if a == [] {
      assert a + b == b;
    } else {
      assert (a + b)[1..] == a[1..] + b;
      if |a[0]| > size {
        EmittedAppend(NextId(id), a[1..], b, size);
        IdAfterNext(id, Splits(a[1..], size));
        Assoc(ChunksOf(NextId(id), a[0], size), Emitted(NextId(id), a[1..], size),
              Emitted(IdAfter(id, Splits(a, size)), b, size));
      } else {
        EmittedAppend(id, a[1..], b, size);
      }
    }
  }

  /** One message: nothing when it fits, otherwise its chunks under the id that follows. */
  lemma EmittedOne(id: nat, payload: Payload, size: nat)
    requires size > 0 && id < WORD
    ensures |payload| <= size ==> Emitted(id, [payload], size) == []
    ensures |payload| > size ==>
      Emitted(id, [payload], size)
      == ChunksOf(if id == 0xFFFF_FFFF_FFFF_FFFF then 0 else id + 1, payload, size)
  {
    assert [payload][1..] == [];
    assert |payload| > size ==>
      Emitted(id, [payload], size) == ChunksOf(NextId(id), payload, size) + Emitted(NextId(id), [], size);
  }

  /** How many of the messages are split. */
  function Splits(messages: seq<Payload>, size: nat): (n: nat)
    ensures n <= |messages|
  {
    if messages == [] then 0
    else (if |messages[0]| > size then 1 else 0) + Splits(messages[1..], size)
  }

  function Select(chunks: seq<Chunk>, id: nat): seq<Chunk> {
    if chunks == [] then []
    else (if chunks[0].id == id then [chunks[0]] else []) + Select(chunks[1..], id)
  }

  function Insert(chunk: Chunk, sorted: seq<Chunk>): seq<Chunk> {
    if sorted == [] || chunk.number <= sorted[0].number then [chunk] + sorted
    else [sorted[0]] + Insert(chunk, sorted[1..])
  }

  function SortByNumber(chunks: seq<Chunk>): seq<Chunk> {
    if chunks == [] then [] else Insert(chunks[0], SortByNumber(chunks[1..]))
  }

  /** The receiver: group by message id, order by chunk number, concatenate. */
  function Rebuild(chunks: seq<Chunk>, id: nat): Payload {
    Join(SortByNumber(Select(chunks, id)))
  }

  predicate Sorted(chunks: seq<Chunk>) {
    forall i, j :: 0 <= i < j < |chunks| ==> chunks[i].number <= chunks[j].number
  }

  lemma {:induction false} InsertPermutes(chunk: Chunk, sorted: seq<Chunk>)
    ensures multiset(Insert(chunk, sorted)) == multiset{chunk} + multiset(sorted)
  {
    if sorted != [] && chunk.number > sorted[0].number {
      InsertPermutes(chunk, sorted[1..]);
      assert sorted == [sorted[0]] + sorted[1..];
    }
  }

  lemma {:induction false} InsertSorted(chunk: Chunk, sorted: seq<Chunk>)
    requires Sorted(sorted)
    ensures Sorted(Insert(chunk, sorted))
  {
    if sorted != [] && chunk.number > sorted[0].number {
      var tail := Insert(chunk, sorted[1..]);
      InsertSorted(chunk, sorted[1..]);
      InsertPermutes(chunk, sorted[1..]);
      forall j | 0 <= j < |tail| ensures sorted[0].number <= tail[j].number {
        assert tail[j] in multiset(tail);
        assert tail[j] == chunk || tail[j] in sorted[1..];
      }
    }
  }

  lemma {:induction false} SortSorts(chunks: seq<Chunk>)
    ensures Sorted(SortByNumber(chunks))
    ensures multiset(SortByNumber(chunks)) == multiset(chunks)
  {
    if chunks != [] {
      SortSorts(chunks[1..]);
      InsertSorted(chunks[0], SortByNumber(chunks[1..]));
      InsertPermutes(chunks[0], SortByNumber(chunks[1..]));
      assert chunks == [chunks[0]] + chunks[1..];
    }
  }

  /** A sorted arrangement of strictly numbered chunks is that sequence itself. */
  lemma {:induction false} SortedUnique(a: seq<Chunk>, b: seq<Chunk>)
    requires Sorted(a) && Numbered(b) && multiset(a) == multiset(b)
    ensures a == b
  {
    assert |multiset(a)| == |a| && |multiset(b)| == |b|;
    if a != [] {
      SameFirst(a, b);
      SameRest(a, b);
      SortedUnique(a[1..], b[1..]);
      assert a == [a[0]] + a[1..] && b == [b[0]] + b[1..];
    }
  }

  lemma SameRest(a: seq<Chunk>, b: seq<Chunk>)
    requires Sorted(a) && Numbered(b) && multiset(a) == multiset(b) && a != [] && b != [] && a[0] == b[0]
    ensures Sorted(a[1..]) && Numbered(b[1..]) && multiset(a[1..]) == multiset(b[1..])
  {
    assert a == [a[0]] + a[1..] && b == [b[0]] + b[1..];
    assert multiset(a[1..]) == multiset(a) - multiset{a[0]};
    assert multiset(b[1..]) == multiset(b) - multiset{b[0]};
  }

  lemma SameFirst(a: seq<Chunk>, b: seq<Chunk>)
    requires Sorted(a) && Numbered(b) && multiset(a) == multiset(b) && a != [] && b != []
    ensures a[0] == b[0]
  {
    assert a[0] in multiset(b) && b[0] in multiset(a);
    var i :| 0 <= i < |b| && b[i] == a[0];
    var j :| 0 <= j < |a| && a[j] == b[0];
    assert j > 0 ==> a[0].number <= a[j].number;
    assert i > 0 ==> b[0].number < b[i].number;
  }

  lemma {:induction false} SelectCount(chunks: seq<Chunk>, id: nat, chunk: Chunk)
    ensures multiset(Select(chunks, id))[chunk] == if chunk.id == id then multiset(chunks)[chunk] else 0
  {
    if chunks != [] {
      SelectCount(chunks[1..], id, chunk);
      assert chunks == [chunks[0]] + chunks[1..];
    }
  }

  lemma SelectPermutes(a: seq<Chunk>, b: seq<Chunk>, id: nat)
    requires multiset(a) == multiset(b)
    ensures multiset(Select(a, id)) == multiset(Select(b, id))
  {
    forall chunk ensures multiset(Select(a, id))[chunk] == multiset(Select(b, id))[chunk] {
      SelectCount(a, id, chunk);
      SelectCount(b, id, chunk);
    }
  }

  lemma {:induction false} SelectAppend(a: seq<Chunk>, b: seq<Chunk>, id: nat)
    ensures Select(a + b, id) == Select(a, id) + Select(b, id)
  {
    if a == [] {
      assert a + b == b;
    } else {
      var first := if a[0].id == id then [a[0]] else [];
      SelectAppend(a[1..], b, id);
      assert (a + b)[1..] == a[1..] + b;
      Assoc(first, Select(a[1..], id), Select(b, id));
    }
  }

  lemma {:induction false} SelectAll(chunks: seq<Chunk>, id: nat)
    requires forall k :: 0 <= k < |chunks| ==> chunks[k].id == id
    ensures Select(chunks, id) == chunks
  {
    if chunks != [] {
      SelectAll(chunks[1..], id);
    }
  }

  lemma {:induction false} SelectNone(chunks: seq<Chunk>, id: nat)
    requires forall k :: 0 <= k < |chunks| ==> chunks[k].id != id
    ensures Select(chunks, id) == []
  {
    if chunks != [] {
      SelectNone(chunks[1..], id);
    }
  }

  lemma ChunkIds(id: nat, payload: Payload, size: nat)
    requires size > 0
    ensures forall k :: 0 <= k < |ChunksOf(id, payload, size)| ==> ChunksOf(id, payload, size)[k].id == id
  {
    forall k | 0 <= k < |ChunksOf(id, payload, size)|
      ensures ChunksOf(id, payload, size)[k].id == id
    {
      ChunkAt(id, |payload|, 0, payload, size, k);
    }
  }

  /** The id given to the `n`-th split after one that got `id`. */
  function IdAfter(id: nat, n: nat): nat {
    (id + n) % WORD
  }

  lemma IdsApart(id: nat, m: nat, n: nat)
    requires m < n < m + WORD
    ensures IdAfter(id, m) != IdAfter(id, n)
  {
    var a, b := id + m, id + n;
    assert a == WORD * (a / WORD) + a % WORD;
    assert b == WORD * (b / WORD) + b % WORD;
  }

  lemma IdAfterNext(id: nat, n: nat)
    ensures IdAfter(NextId(id), n) == IdAfter(id, n + 1)
  {
    var q := (id + 1) / WORD;
    assert id + 1 == WORD * q + NextId(id);
    assert id + 1 + n == WORD * q + (NextId(id) + n);
  }

  /** The id of a split does not occur among the chunks of the fewer than 2^64 - n splits after
      the `n`-th one that followed it. */
  lemma {:induction false} UnusedIds(base: nat, messages: seq<Payload>, size: nat, id: nat, n: nat)
    requires size > 0 && id == IdAfter(base, n)
    requires n + Splits(messages, size) < WORD
    ensures Select(Emitted(id, messages, size), IdAfter(base, 0)) == []
    decreases |messages|
  {
    if messages != [] {
      if |messages[0]| > size {
        var next := NextId(id);
        assert next == IdAfter(base, n + 1) by {
          var q := (base + n) / WORD;
          assert base + n == WORD * q + id;
          assert base + n + 1 == WORD * q + (id + 1);
        }
        IdsApart(base, 0, n + 1);
        var first := ChunksOf(next, messages[0], size);
        ChunkIds(next, messages[0], size);
        SelectNone(first, IdAfter(base, 0));
        SelectAppend(first, Emitted(next, messages[1..], size), IdAfter(base, 0));
        UnusedIds(base, messages[1..], size, next, n + 1);
      } else {
        UnusedIds(base, messages[1..], size, id, n);
      }
    }
  }

  /** Within one run of fewer than 2^64 splits, the chunks that carry the id of message `i` are
      exactly that message's chunks, in order. */
  lemma {:induction false} SelectEmitted(id: nat, messages: seq<Payload>, size: nat, i: nat)
    requires size > 0 && i < |messages| && |messages[i]| > size && Splits(messages, size) < WORD
    ensures var mine := IdAfter(id, Splits(messages[..i], size) + 1);
            Select(Emitted(id, messages, size), mine) == ChunksOf(mine, messages[i], size)
    decreases |messages|
  {
    var rest := messages[1..];
    if |messages[0]| <= size {
      SplitsBehindSmall(messages, size, i);
      SelectEmitted(id, rest, size, i - 1);
    } else if i == 0 {
      SelectFirst(id, messages, size);
    } else {
      SplitsBehindSplit(messages, size, i);
      SelectLater(id, messages, size, Splits(rest[..i - 1], size) + 1);
      SelectEmitted(NextId(id), rest, size, i - 1);
    }
  }

  lemma SplitsBehindSmall(messages: seq<Payload>, size: nat, i: nat)
    requires i < |messages| && |messages[0]| <= size < |messages[i]|
    ensures i > 0 && Splits(messages[..i], size) == Splits(messages[1..][..i - 1], size)
    ensures Splits(messages, size) == Splits(messages[1..], size)
  {
    assert messages[..i][1..] == messages[1..][..i - 1];
  }

  lemma SplitsBehindSplit(messages: seq<Payload>, size: nat, i: nat)
    requires 0 < i < |messages| && |messages[0]| > size
    ensures Splits(messages[..i], size) == Splits(messages[1..][..i - 1], size) + 1
    ensures Splits(messages, size) == Splits(messages[1..], size) + 1
    ensures Splits(messages[1..][..i - 1], size) <= Splits(messages[1..], size)
  {
    assert messages[..i][1..] == messages[1..][..i - 1];
    SplitsPrefix(messages[1..], size, i - 1);
  }

  lemma SelectFirst(id: nat, messages: seq<Payload>, size: nat)
    requires size > 0 && messages != [] && |messages[0]| > size && Splits(messages, size) < WORD
    ensures var mine := IdAfter(id, 1);
            Select(Emitted(id, messages, size), mine) == ChunksOf(mine, messages[0], size)
  {
    var next := NextId(id);
    var first, later := ChunksOf(next, messages[0], size), Emitted(next, messages[1..], size);
    ChunkIds(next, messages[0], size);
    SelectAppend(first, later, next);
    SelectAll(first, next);
    assert IdAfter(next, 0) == next;
    UnusedIds(next, messages[1..], size, next, 0);
  }

  lemma SelectLater(id: nat, messages: seq<Payload>, size: nat, n: nat)
    requires size > 0 && messages != [] && |messages[0]| > size && 0 < n < WORD
    ensures IdAfter(id, n + 1) == IdAfter(NextId(id), n)
    ensures Select(Emitted(id, messages, size), IdAfter(id, n + 1))
         == Select(Emitted(NextId(id), messages[1..], size), IdAfter(id, n + 1))
  {
    var next := NextId(id);
    var first, later := ChunksOf(next, messages[0], size), Emitted(next, messages[1..], size);
    IdAfterNext(id, n);
    IdsApart(next, 0, n);
    assert IdAfter(next, 0) == next;
    ChunkIds(next, messages[0], size);
    SelectNone(first, IdAfter(id, n + 1));
    SelectAppend(first, later, IdAfter(id, n + 1));
  }

  lemma {:induction false} SplitsPrefix(messages: seq<Payload>, size: nat, i: nat)
    requires i <= |messages|
    ensures Splits(messages[..i], size) <= Splits(messages, size)
  {
    if i > 0 {
      assert messages[..i][1..] == messages[1..][..i - 1];
      SplitsPrefix(messages[1..], size, i - 1);
    }
  }

  /** Any permutation of everything the splitter emitted rebuilds every message it split. */
  lemma AnyOrderRebuilds(id: nat, messages: seq<Payload>, size: nat, i: nat, arrived: seq<Chunk>)
    requires size > 0 && i < |messages| && |messages[i]| > size && Splits(messages, size) < WORD
    requires multiset(arrived) == multiset(Emitted(id, messages, size))
    ensures Rebuild(arrived, IdAfter(id, Splits(messages[..i], size) + 1)) == messages[i]
  {
    var mine := IdAfter(id, Splits(messages[..i], size) + 1);
    SelectEmitted(id, messages, size, i);
    Regroup(arrived, Emitted(id, messages, size), mine, messages[i], size);
  }

  lemma Regroup(arrived: seq<Chunk>, sent: seq<Chunk>, id: nat, payload: Payload, size: nat)
    requires size > 0 && |payload| > size && multiset(arrived) == multiset(sent)
    requires Select(sent, id) == ChunksOf(id, payload, size)
    ensures Rebuild(arrived, id) == payload
  {
    SelectPermutes(arrived, sent, id);
    var expected := ChunksOf(id, payload, size);
    ChunksAreExact(id, payload, size);
    assert Numbered(expected);
    SortSorts(Select(arrived, id));
    SortedUnique(SortByNumber(Select(arrived, id)), expected);
  }

  /** A pipeline gives messages to the filtra one by one and generates until nothing comes. */
  method Drive(f: Splitter, messages: seq<Payload>) returns (chunks: seq<Chunk>)
    requires f.Valid() && f.chunkSize > 0
    modifies f
    ensures f.Valid() && chunks == Emitted(old(f.messageId), messages, f.chunkSize)
  {
    chunks := [];
    ghost var goal := Emitted(f.messageId, messages, f.chunkSize);
    assert messages[0..] == messages;
    for i := 0 to |messages|
      invariant f.Valid()
      invariant chunks + Emitted(f.messageId, messages[i..], f.chunkSize) == goal
    {
      assert messages[i..][1..] == messages[i + 1..];
      ghost var later := Emitted(NextId(f.messageId), messages[i + 1..], f.chunkSize);
      var self := f.ProcessMessage(messages[i]);
      if self {
        Assoc(chunks, f.Pending(), later);
        chunks := Generate(f, chunks);
      }
    }
  }

  method Generate(f: Splitter, before: seq<Chunk>) returns (chunks: seq<Chunk>)
    requires f.Valid() && f.chunkSize > 0
    modifies f
    ensures f.Valid() && f.messageId == old(f.messageId)
    ensures chunks == before + old(f.Pending())
  {
    chunks := before;
    ghost var goal := before + f.Pending();
    var r := f.GenerateMessage();
    while r.Generated?
      invariant f.Valid() && f.messageId == old(f.messageId)
      invariant goal == chunks + (if r.Generated? then [r.chunk] + f.Pending() else [])
      decreases r.Generated?, |f.Pending()|
    {
      Assoc(chunks, [r.chunk], f.Pending());
      chunks := chunks + [r.chunk];
      r := f.GenerateMessage();
    }
  }
}
