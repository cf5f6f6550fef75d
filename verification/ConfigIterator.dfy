/** The iterator over every pipeline of every configuration file. */
module ConfigIterator {
  import opened ConfigStore

  /** All entries in iteration order. */
  function Flatten<V>(files: seq<File<V>>): seq<Entry<V>> {
    if files == [] then [] else files[0].entries + Flatten(files[1..])
  }

  /** The number of leading files that have entries. */
  function FirstEmpty<V>(files: seq<File<V>>): (n: nat)
    ensures n <= |files|
    ensures forall i :: 0 <= i < n ==> files[i].entries != []
    ensures n < |files| ==> files[n].entries == []
  {
    if files == [] || files[0].entries == [] then 0 else 1 + FirstEmpty(files[1..])
  }

  lemma {:induction false} FlattenSplits<V>(a: seq<File<V>>, b: seq<File<V>>)
    ensures Flatten(a + b) == Flatten(a) + Flatten(b)
  {
    if a == [] {
      assert a + b == b;
    } else {
      assert (a + b)[1..] == a[1..] + b;
      FlattenSplits(a[1..], b);
    }
  }

  /** Two cursors: one over the files, one over the entries of a file.  `owner` is the file whose
      entries the inner cursor `pos` walks; at the end it is the last file. */
  class PipelineConfigsIterator<V(==)> {
    const files: seq<File<V>>
    var fileIx: nat
    var owner: nat
    var pos: nat

    ghost predicate Valid()
      reads this
    {
      if fileIx < |files| then owner == fileIx && pos <= |files[owner].entries|
      else if files == [] then fileIx == owner == pos == 0
      else fileIx == |files| && owner == |files| - 1 && pos == |files[owner].entries|
    }

    /** The inner cursor points at an entry, so it may be dereferenced and advanced. */
    predicate Readable()
      requires Valid()
      reads this
    {
      fileIx < |files| && pos < |files[owner].entries|
    }

    /** The entries the iterator has passed. */
    ghost function Passed(): seq<Entry<V>>
      requires Valid()
      reads this
    {
      if fileIx == |files| then Flatten(files)
      else Flatten(files[..fileIx]) + files[fileIx].entries[..pos]
    }

    constructor Begin(files: seq<File<V>>)
      requires files != []
      ensures Valid() && this.files == files && Passed() == [] && fileIx == 0
    {
      this.files := files;
      fileIx, owner, pos := 0, 0, 0;
    }

    /** An empty map gives the inner cursor nothing to stand at. */
    constructor End(files: seq<File<V>>)
      ensures Valid() && this.files == files && fileIx == |files|
    {
      this.files := files;
      fileIx, owner, pos := |files|, 0, 0;
      if files != [] {
        owner, pos := |files| - 1, |files[|files| - 1].entries|;
      }
    }

    function Current(): Entry<V>
      requires Valid() && Readable()
      reads this
    {
      files[owner].entries[pos]
    }

    predicate NotEqual(other: PipelineConfigsIterator<V>)
      reads this, other
    {
      files != other.files || fileIx != other.fileIx || owner != other.owner || pos != other.pos
    }

    method Advance()
      requires Valid() && Readable()
      modifies this
      ensures Valid()
      ensures Passed() == old(Passed()) + [old(Current())]
      ensures Readable() || fileIx == |files| || files[fileIx].entries == []
      ensures fileIx == old(fileIx) || (fileIx == old(fileIx) + 1 && files[old(fileIx)].entries != [])
    {
      ghost var start, ix := files[..fileIx], pos;
      ghost var entries := files[fileIx].entries;
      assert entries[..ix + 1] == entries[..ix] + [entries[ix]];
      pos := pos + 1;
      if pos == |files[owner].entries| {
        assert entries[..pos] == entries;
        assert files[..fileIx + 1] == start + [files[fileIx]];
        FlattenSplits(start, [files[fileIx]]);
        assert files[..|files|] == files;
        fileIx := fileIx + 1;
        if fileIx != |files| {
          owner, pos := fileIx, 0;
        }
      }
    }
  }

  /** The loop `for(it = cbegin(); it != cend(); ++it)`.  It reaches cend() exactly when no file is
      empty, having visited every entry once and in order; otherwise it comes to dereference the
      iterator at the first empty file, which has no entry to give. */
  method Visit<V(==)>(files: seq<File<V>>) returns (visited: seq<Entry<V>>, complete: bool)
    requires files != []
    ensures visited == Flatten(files[..FirstEmpty(files)])
    ensures complete <==> forall i :: 0 <= i < |files| ==> files[i].entries != []
    ensures complete ==> visited == Flatten(files)
  {
    var it := new PipelineConfigsIterator.Begin(files);
    var end := new PipelineConfigsIterator.End(files);
    visited := [];
    assert files[..|files|] == files;
    while it.NotEqual(end)
      invariant it.Valid() && end.Valid() && it != end && fresh(it)
      invariant it.files == files == end.files && end.fileIx == |files|
      invariant visited == it.Passed()
      invariant it.fileIx <= FirstEmpty(files)
      invariant it.Readable() || it.fileIx == |files| || files[it.fileIx].entries == []
      decreases |files| - it.fileIx, |files[it.owner].entries| - it.pos
    {
      if !it.Readable() {
        assert it.fileIx == FirstEmpty(files);
        return visited, false;
      }
      visited := visited + [it.Current()];
      it.Advance();
    }
    return visited, true;
  }

  lemma {:induction false} MapSplits<V>(a: seq<Entry<V>>, b: seq<Entry<V>>)
    ensures AsMap(a + b) == AsMap(b) + AsMap(a)
  {
    if a == [] {
      assert a + b == b;
    } else {
      assert (a + b)[1..] == a[1..] + b;
      MapSplits(a[1..], b);
    }
  }

  /** What the iteration meets first under an id is what a lookup finds. */
  lemma {:induction false} FlattenIsView<V>(files: seq<File<V>>)
    ensures AsMap(Flatten(files)) == View(files)
  {
    if files != [] {
      FlattenIsView(files[1..]);
      MapSplits(files[0].entries, Flatten(files[1..]));
    }
  }
}
