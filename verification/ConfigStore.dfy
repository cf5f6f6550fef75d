/** The pipeline configurations: a map of files, each a JSON object that maps pipeline ids to
    configurations.  Lookups take the first file, in path order, that holds the id. */
module ConfigStore {

  datatype Entry<V> = Entry(key: string, value: V)

  /** A loaded file.  A JSON object keeps its members in order and has each key once. */
  datatype File<V> = File(path: string, entries: seq<Entry<V>>)

  /** `files` is the map in iteration order; an empty `defaultPath` means none was given. */
  datatype Config<V> = Config(files: seq<File<V>>, defaultPath: string)

  datatype Lookup<+V> = Found(value: V) | OutOfRange

  // --------------------------------------------------------------------------------------------
  // One file
  // --------------------------------------------------------------------------------------------

  ghost function AsMap<V>(entries: seq<Entry<V>>): map<string, V> {
    if entries == [] then map[]
    else AsMap(entries[1..])[entries[0].key := entries[0].value]
  }

  ghost predicate Unique<V>(entries: seq<Entry<V>>) {
    entries == [] || (entries[0].key !in AsMap(entries[1..]) && Unique(entries[1..]))
  }

  predicate HasKey<V>(entries: seq<Entry<V>>, id: string)
    ensures HasKey(entries, id) <==> id in AsMap(entries)
  {
    entries != [] && (entries[0].key == id || HasKey(entries[1..], id))
  }

  function Get<V>(entries: seq<Entry<V>>, id: string): (value: V)
    requires HasKey(entries, id)
    ensures value == AsMap(entries)[id]
  {
    if entries[0].key == id then entries[0].value else Get(entries[1..], id)
  }

  function Put<V>(entries: seq<Entry<V>>, id: string, value: V): (r: seq<Entry<V>>)
    ensures AsMap(r) == AsMap(entries)[id := value]
    ensures Unique(entries) ==> Unique(r)
  {
    if entries == [] then [Entry(id, value)]
    else if entries[0].key == id then [Entry(id, value)] + entries[1..]
    else [entries[0]] + Put(entries[1..], id, value)
  }

  function Remove<V>(entries: seq<Entry<V>>, id: string): (r: seq<Entry<V>>)
    ensures Unique(entries) ==> Unique(r) && AsMap(r) == AsMap(entries) - {id}
  {
    if entries == [] then []
    else if entries[0].key == id then entries[1..]
    else [entries[0]] + Remove(entries[1..], id)
  }

  // --------------------------------------------------------------------------------------------
  // The map the files stand for
  // --------------------------------------------------------------------------------------------

  /** Everything a lookup can see: the first file that holds an id decides its value. */
  ghost function View<V>(files: seq<File<V>>): map<string, V> {
    if files == [] then map[] else View(files[1..]) + AsMap(files[0].entries)
  }

  /** In how many files the id occurs. */
  ghost function Holders<V>(files: seq<File<V>>, id: string): nat {
    if files == [] then 0
    else (if id in AsMap(files[0].entries) then 1 else 0) + Holders(files[1..], id)
  }

  /** The position of the first file that holds the id, or the number of files. */
  function FirstHolder<V>(files: seq<File<V>>, id: string): (n: nat)
    ensures n <= |files|
    ensures n < |files| ==> HasKey(files[n].entries, id)
    ensures forall i :: 0 <= i < n ==> !HasKey(files[i].entries, id)
  {
    if files == [] || HasKey(files[0].entries, id) then 0 else 1 + FirstHolder(files[1..], id)
  }

  ghost predicate Disjoint<V>(files: seq<File<V>>) {
    forall id :: Holders(files, id) <= 1
  }

  ghost predicate Sound<V>(c: Config<V>) {
    && c.files != []
    && (forall i :: 0 <= i < |c.files| ==> Unique(c.files[i].entries))
    && (c.defaultPath == "" || PathIndex(c.files, c.defaultPath) < |c.files|)
  }

  function PathIndex<V>(files: seq<File<V>>, path: string): (n: nat)
    ensures n <= |files|
    ensures n < |files| ==> files[n].path == path
  {
    if files == [] || files[0].path == path then 0 else 1 + PathIndex(files[1..], path)
  }

  lemma {:induction false} ViewIsFirstHolder<V>(files: seq<File<V>>, id: string)
    ensures id in View(files) <==> FirstHolder(files, id) < |files|
    ensures id in View(files) <==> Holders(files, id) > 0
    ensures id in View(files) ==> View(files)[id] == Get(files[FirstHolder(files, id)].entries, id)
  {
    if files != [] {
      ViewIsFirstHolder(files[1..], id);
    }
  }

  // --------------------------------------------------------------------------------------------
  // Changing the store
  // --------------------------------------------------------------------------------------------

  function Replace<V>(files: seq<File<V>>, n: nat, entries: seq<Entry<V>>): seq<File<V>>
    requires n < |files|
  {
    files[n := files[n].(entries := entries)]
  }

  /** Where an id that no file holds is added. */
  function Home<V>(c: Config<V>): (n: nat)
    requires Sound(c)
    ensures n < |c.files|
  {
    if c.defaultPath == "" then 0 else PathIndex(c.files, c.defaultPath)
  }

  function Assigned<V>(c: Config<V>, id: string, value: V): Config<V>
    requires Sound(c)
  {
    var n := FirstHolder(c.files, id);
    if n < |c.files| then
      c.(files := Replace(c.files, n, Put(c.files[n].entries, id, value)))
    else
      Config(Replace(c.files, Home(c), Put(c.files[Home(c)].entries, id, value)),
             if c.defaultPath == "" then c.files[0].path else c.defaultPath)
  }

  function Erased<V>(c: Config<V>, id: string): Config<V> {
    var n := FirstHolder(c.files, id);
    if n == |c.files| then c else c.(files := Replace(c.files, n, Remove(c.files[n].entries, id)))
  }

  lemma {:induction false} PathsStay<V>(files: seq<File<V>>, n: nat, entries: seq<Entry<V>>, path: string)
    requires n < |files|
    ensures PathIndex(Replace(files, n, entries), path) == PathIndex(files, path)
  {
    if n > 0 {
      assert Replace(files, n, entries)[1..] == Replace(files[1..], n - 1, entries);
      PathsStay(files[1..], n - 1, entries, path);
    } else {
      assert Replace(files, n, entries)[1..] == files[1..];
    }
  }

  /** Replacing one file changes the count and the view of an id only through that file. */
  lemma {:induction false} ReplacedLocally<V>(files: seq<File<V>>, n: nat, entries: seq<Entry<V>>, id: string)
    requires n < |files|
    ensures Holders(Replace(files, n, entries), id)
         == Holders(files, id) + (if id in AsMap(entries) then 1 else 0)
                               - (if id in AsMap(files[n].entries) then 1 else 0)
    ensures FirstHolder(files, id) >= n && id in AsMap(entries)
            ==> id in View(Replace(files, n, entries))
                && View(Replace(files, n, entries))[id] == AsMap(entries)[id]
  {
    var changed := Replace(files, n, entries);
    if n > 0 {
      assert changed[1..] == Replace(files[1..], n - 1, entries);
      ReplacedLocally(files[1..], n - 1, entries, id);
    } else {
      assert changed[1..] == files[1..];
    }
  }

  lemma {:induction false} UntouchedId<V>(files: seq<File<V>>, n: nat, entries: seq<Entry<V>>, id: string)
    requires n < |files|
    requires id in AsMap(entries) <==> id in AsMap(files[n].entries)
    requires id in AsMap(entries) ==> AsMap(entries)[id] == AsMap(files[n].entries)[id]
    ensures id in View(Replace(files, n, entries)) <==> id in View(files)
    ensures id in View(files) ==> View(Replace(files, n, entries))[id] == View(files)[id]
  {
    var changed := Replace(files, n, entries);
    if n > 0 {
      assert changed[1..] == Replace(files[1..], n - 1, entries);
      UntouchedId(files[1..], n - 1, entries, id);
    } else {
      assert changed[1..] == files[1..];
    }
  }

  lemma AssignKeepsSound<V>(c: Config<V>, id: string, value: V)
    requires Sound(c)
    ensures Sound(Assigned(c, id, value))
    ensures |Assigned(c, id, value).files| == |c.files|
  {
    var n := FirstHolder(c.files, id);
    var at := if n < |c.files| then n else Home(c);
    PathsStay(c.files, at, Put(c.files[at].entries, id, value), c.defaultPath);
    PathsStay(c.files, at, Put(c.files[at].entries, id, value), c.files[0].path);
  }

  lemma EraseKeepsSound<V>(c: Config<V>, id: string)
    requires Sound(c)
    ensures Sound(Erased(c, id))
  {
    var n := FirstHolder(c.files, id);
    if n < |c.files| {
      PathsStay(c.files, n, Remove(c.files[n].entries, id), c.defaultPath);
    }
  }

  ghost predicate SameAt<V>(a: map<string, V>, b: map<string, V>, id: string) {
    (id in a <==> id in b) && (id in a ==> a[id] == b[id])
  }

  lemma SameEverywhere<V>(a: map<string, V>, b: map<string, V>)
    requires forall id :: SameAt(a, b, id)
    ensures a == b
  {
    forall id
      ensures id in a <==> id in b
      ensures id in a ==> a[id] == b[id]
    {
      assert SameAt(a, b, id);
    }
  }

  /** The file that an assignment to the id goes to. */
  ghost function Target<V>(c: Config<V>, id: string): (n: nat)
    requires Sound(c)
    ensures n < |c.files|
    ensures n == FirstHolder(c.files, id) || Holders(c.files, id) == 0
  {
    ViewIsFirstHolder(c.files, id);
    if FirstHolder(c.files, id) < |c.files| then FirstHolder(c.files, id) else Home(c)
  }

  lemma AssignGoesToTarget<V>(c: Config<V>, id: string, value: V)
    requires Sound(c)
    ensures var n := Target(c, id);
            && Assigned(c, id, value).files == Replace(c.files, n, Put(c.files[n].entries, id, value))
            && (Holders(c.files, id) > 0 <==> id in AsMap(c.files[n].entries))
            && FirstHolder(c.files, id) >= n
  {
    ViewIsFirstHolder(c.files, id);
  }

  /** An id that no file holds goes into the file of the default path, behind what the file has; without
      a default path it goes into the first file, which then is the default.  No other file changes. */
  lemma NewIdGoesHome<V>(c: Config<V>, id: string, value: V) returns (home: nat)
    requires Sound(c) && id !in View(c.files)
    ensures home < |c.files|
    ensures if c.defaultPath == "" then home == 0
            else c.files[home].path == c.defaultPath
                 && forall i :: 0 <= i < home ==> c.files[i].path != c.defaultPath
    ensures var t := Assigned(c, id, value);
            && t.defaultPath == c.files[home].path
            && |t.files| == |c.files|
            && t.files[home] == File(c.files[home].path, c.files[home].entries + [Entry(id, value)])
            && forall i :: 0 <= i < |c.files| && i != home ==> t.files[i] == c.files[i]
  {
    ViewIsFirstHolder(c.files, id);
    home := if c.defaultPath == "" then 0 else PathIndex(c.files, c.defaultPath);
    PathIsFirst(c.files, c.defaultPath);
    PutAppends(c.files[home].entries, id, value);
  }

  lemma {:induction false} PathIsFirst<V>(files: seq<File<V>>, path: string)
    ensures forall i :: 0 <= i < PathIndex(files, path) ==> files[i].path != path
  {
    if files != [] && files[0].path != path {
      PathIsFirst(files[1..], path);
    }
  }

  lemma {:induction false} PutAppends<V>(entries: seq<Entry<V>>, id: string, value: V)
    requires !HasKey(entries, id)
    ensures Put(entries, id, value) == entries + [Entry(id, value)]
  {
    if entries != [] {
      PutAppends(entries[1..], id, value);
    }
  }

  /** An id that some file holds keeps its place, in the first file that holds it. */
  lemma {:induction false} PutReplaces<V>(entries: seq<Entry<V>>, id: string, value: V, i: nat)
    requires i < |entries| && entries[i].key == id && forall h :: 0 <= h < i ==> entries[h].key != id
    ensures Put(entries, id, value) == entries[i := Entry(id, value)]
  {
    if i > 0 {
      PutReplaces(entries[1..], id, value, i - 1);
    }
  }

  lemma {:induction false} RemoveTakesOut<V>(entries: seq<Entry<V>>, id: string, i: nat)
    requires i < |entries| && entries[i].key == id && forall h :: 0 <= h < i ==> entries[h].key != id
    ensures Remove(entries, id) == entries[..i] + entries[i + 1..]
  {
    if i > 0 {
      RemoveTakesOut(entries[1..], id, i - 1);
    }
  }

  /** What a lookup finds is an entry of the first file that has one under the id. */
  lemma LookupFindsEntry<V>(files: seq<File<V>>, n: nat, i: nat)
    requires n < |files| && i < |files[n].entries| && Unique(files[n].entries)
    requires forall m, h :: 0 <= m < n && 0 <= h < |files[m].entries| ==>
               files[m].entries[h].key != files[n].entries[i].key
    ensures var e := files[n].entries[i]; e.key in View(files) && View(files)[e.key] == e.value
  {
    var e := files[n].entries[i];
    EntryIsMapped(files[n].entries, i);
    forall m | 0 <= m < n ensures !HasKey(files[m].entries, e.key) {
      NoEntry(files[m].entries, e.key);
    }
    ViewIsFirstHolder(files, e.key);
    assert FirstHolder(files, e.key) == n;
  }

  lemma {:induction false} EntryIsMapped<V>(entries: seq<Entry<V>>, i: nat)
    requires i < |entries| && Unique(entries)
    ensures entries[i].key in AsMap(entries) && AsMap(entries)[entries[i].key] == entries[i].value
  {
    if i > 0 {
      EntryIsMapped(entries[1..], i - 1);
    }
  }

  lemma {:induction false} NoEntry<V>(entries: seq<Entry<V>>, id: string)
    requires forall h :: 0 <= h < |entries| ==> entries[h].key != id
    ensures !HasKey(entries, id)
  {
    if entries != [] {
      NoEntry(entries[1..], id);
    }
  }

  /** Assignment through operator[] never adds a second holder... */
  lemma AssignCountsHolders<V>(c: Config<V>, id: string, value: V, k: string)
    requires Sound(c)
    ensures Holders(Assigned(c, id, value).files, k)
            == if k == id && Holders(c.files, k) == 0 then 1 else Holders(c.files, k)
  {
    var n := Target(c, id);
    AssignGoesToTarget(c, id, value);
    ReplacedLocally(c.files, n, Put(c.files[n].entries, id, value), k);
  }

  /** ...and is assignment in the plain map, whether or not the files share ids. */
  lemma AssignRefinesMap<V>(c: Config<V>, id: string, value: V)
    requires Sound(c)
    ensures View(Assigned(c, id, value).files) == View(c.files)[id := value]
  {
    var n := Target(c, id);
    var entries := Put(c.files[n].entries, id, value);
    AssignGoesToTarget(c, id, value);
    ReplacedLocally(c.files, n, entries, id);
    var after, expected := View(Replace(c.files, n, entries)), View(c.files)[id := value];
    forall k ensures SameAt(after, expected, k) {
      if k != id {
        UntouchedId(c.files, n, entries, k);
      }
    }
    SameEverywhere(after, expected);
  }

  /** erase() takes the id out of one file only. */
  lemma EraseTakesOneHolder<V>(c: Config<V>, id: string)
    requires Sound(c)
    ensures forall k :: Holders(Erased(c, id).files, k)
                        == if k == id && Holders(c.files, k) > 0 then Holders(c.files, k) - 1
                           else Holders(c.files, k)
    ensures forall k :: k != id ==>
              && (k in View(Erased(c, id).files) <==> k in View(c.files))
              && (k in View(c.files) ==> View(Erased(c, id).files)[k] == View(c.files)[k])
  {
    var n := FirstHolder(c.files, id);
    ViewIsFirstHolder(c.files, id);
    if n < |c.files| {
      var entries := Remove(c.files[n].entries, id);
      forall k
        ensures Holders(Erased(c, id).files, k)
                == if k == id && Holders(c.files, k) > 0 then Holders(c.files, k) - 1
                   else Holders(c.files, k)
      {
        ReplacedLocally(c.files, n, entries, k);
      }
      forall k | k != id
        ensures k in View(Erased(c, id).files) <==> k in View(c.files)
        ensures k in View(c.files) ==> View(Erased(c, id).files)[k] == View(c.files)[k]
      {
        UntouchedId(c.files, n, entries, k);
      }
    }
  }

  /** So erase() is removal in the plain map exactly when no second file holds the id. */
  lemma EraseRefinesMapIff<V>(c: Config<V>, id: string)
    requires Sound(c)
    ensures View(Erased(c, id).files) == View(c.files) - {id} <==> Holders(c.files, id) <= 1
    ensures id in View(Erased(c, id).files) <==> Holders(c.files, id) >= 2
  {
    EraseTakesOneHolder(c, id);
    ViewIsFirstHolder(Erased(c, id).files, id);
    var after := View(Erased(c, id).files);
    if Holders(c.files, id) <= 1 {
      var expected := View(c.files) - {id};
      forall k ensures SameAt(after, expected, k) {
      }
      SameEverywhere(after, expected);
    }
  }

  /** Two files that both hold an id: after erase() the store still contains it. */
  lemma DuplicateSurvivesErase<V>(value: V)
    ensures var c := Config([File("a", [Entry("p", value)]), File("b", [Entry("p", value)])], "a");
            Sound(c) && !Disjoint(c.files) && "p" in View(Erased(c, "p").files)
  {
    var a, b := File("a", [Entry("p", value)]), File("b", [Entry("p", value)]);
    var c := Config([a, b], "a");
    assert AsMap(a.entries) == map["p" := value] == AsMap(b.entries);
    assert [b][1..] == [] && Holders([b], "p") == 1;
    assert [a, b][1..] == [b];
    assert Holders([a, b], "p") == 2;
    EraseRefinesMapIff(c, "p");
  }

  lemma DisjointIsKept<V>(c: Config<V>, id: string, value: V)
    requires Sound(c) && Disjoint(c.files)
    ensures Disjoint(Assigned(c, id, value).files)
    ensures Disjoint(Erased(c, id).files)
  {
    forall k ensures Holders(Assigned(c, id, value).files, k) <= 1 {
      AssignCountsHolders(c, id, value, k);
    }
    EraseTakesOneHolder(c, id);
  }

  // --------------------------------------------------------------------------------------------
  // The object
  // --------------------------------------------------------------------------------------------

  class PipelineConfigs<V> {
    var configs: seq<File<V>>
    var defaultPath: string

    ghost function Model(): Config<V>
      reads this
    {
      Config(configs, defaultPath)
    }

    constructor (files: seq<File<V>>, path: string)
      ensures Model() == Config(files, path)
    {
      configs := files;
      defaultPath := path;
    }

    method Contains(id: string) returns (r: bool)
      ensures r <==> id in View(configs)
    {
      ViewIsFirstHolder(configs, id);
      for i := 0 to |configs|
        invariant i <= FirstHolder(configs, id)
      {
        if HasKey(configs[i].entries, id) {
          return true;
        }
      }
      return false;
    }

    method At(id: string) returns (r: Lookup<V>)
      ensures r == if id in View(configs) then Found(View(configs)[id]) else OutOfRange
    {
      ViewIsFirstHolder(configs, id);
      for i := 0 to |configs|
        invariant i <= FirstHolder(configs, id)
      {
        if HasKey(configs[i].entries, id) {
          return Found(Get(configs[i].entries, id));
        }
      }
      return OutOfRange;
    }

    /** operator[] followed by an assignment to what it returned. */
    method Assign(id: string, value: V)
      requires Sound(Model())
      modifies this
      ensures Model() == Assigned(old(Model()), id, value)
      ensures Sound(Model())
      ensures View(configs) == old(View(configs))[id := value]
    {
      AssignKeepsSound(Model(), id, value);
      AssignRefinesMap(Model(), id, value);
      for i := 0 to |configs|
        invariant Model() == old(Model())
        invariant i <= FirstHolder(configs, id)
      {
        if HasKey(configs[i].entries, id) {
          configs := Replace(configs, i, Put(configs[i].entries, id, value));
          return;
        }
      }
      if defaultPath == "" {
        defaultPath := configs[0].path;
      }
      var home := PathIndex(configs, defaultPath);
      configs := Replace(configs, home, Put(configs[home].entries, id, value));
    }

    method Erase(id: string)
      requires Sound(Model())
      modifies this
      ensures Model() == Erased(old(Model()), id)
      ensures Sound(Model())
      ensures id in View(configs) <==> Holders(old(configs), id) >= 2
    {
      EraseKeepsSound(Model(), id);
      EraseRefinesMapIff(Model(), id);
      for i := 0 to |configs|
        invariant Model() == old(Model())
        invariant i <= FirstHolder(configs, id)
      {
        if HasKey(configs[i].entries, id) {
          configs := Replace(configs, i, Remove(configs[i].entries, id));
          return;
        }
      }
    }
  }
}
