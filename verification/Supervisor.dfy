/** The configuration object and the supervisor that keeps one pipeline per stored configuration.

    A pipeline object is represented by the configuration it was built from.  Whether save() could
    write every file is an input of each operation, because the store in memory has already changed
    by the time it is known. */
module Supervisor {
  import opened ConfigStore
  import opened ConfigIterator

  datatype Answer = Returned(saved: bool) | Threw

  /** `saves` is what save() would answer if the operation gets that far. */
  datatype Op<V> =
    | Add(id: string, data: V, saves: bool)
    | Delete(id: string, saves: bool)
    | Edit(id: string, data: V, saves: bool)

  datatype State<V> = State(config: Config<V>, pipelines: map<string, V>)

  // --------------------------------------------------------------------------------------------
  // The operations as a state machine
  // --------------------------------------------------------------------------------------------

  ghost predicate Stored<V>(s: State<V>, id: string) {
    id in View(s.config.files)
  }

  /** The operation gets past its checks and reaches save(). */
  ghost predicate Reaches<V>(s: State<V>, op: Op<V>) {
    if op.Add? then op.id !in s.pipelines && !Stored(s, op.id)
    else op.id in s.pipelines && Stored(s, op.id)
  }

  ghost function Applied<V>(s: State<V>, op: Op<V>): State<V>
    requires Sound(s.config)
  {
    if !Reaches(s, op) then s
    else
      State(if op.Delete? then Erased(s.config, op.id) else Assigned(s.config, op.id, op.data),
            if !op.saves then s.pipelines
            else if op.Delete? then s.pipelines - {op.id}
            else s.pipelines[op.id := op.data])
  }

  ghost function AnswerOf<V>(s: State<V>, op: Op<V>): Answer {
    if Reaches(s, op) then Returned(op.saves) else Threw
  }

  lemma AppliedIsSound<V>(s: State<V>, op: Op<V>)
    requires Sound(s.config)
    ensures Sound(Applied(s, op).config)
  {
    if op.Delete? {
      EraseKeepsSound(s.config, op.id);
    } else {
      AssignKeepsSound(s.config, op.id, op.data);
    }
  }

  ghost function Run<V>(s: State<V>, ops: seq<Op<V>>): State<V>
    requires Sound(s.config)
    decreases |ops|
  {
    if ops == [] then s
    else
      AppliedIsSound(s, ops[0]);
      Run(Applied(s, ops[0]), ops[1..])
  }

  // --------------------------------------------------------------------------------------------
  // Agreement of the store and the supervisor
  // --------------------------------------------------------------------------------------------

  ghost predicate AgreeOn<V>(s: State<V>, id: string) {
    id in s.pipelines <==> Stored(s, id)
  }

  ghost predicate Agree<V>(s: State<V>) {
    forall id :: AgreeOn(s, id)
  }

  /** An operation that leaves its id on one side only: an addition that is not saved, or a deletion
      that is saved while a second file holds the id, or not saved while none does. */
  ghost predicate Diverges<V>(s: State<V>, op: Op<V>) {
    && Reaches(s, op)
    && match op
       case Add(_, _, saves) => !saves
       case Delete(id, saves) => saves == (Holders(s.config.files, id) >= 2)
       case Edit(_, _, _) => false
  }

  ghost predicate SomeDiverges<V>(s: State<V>, ops: seq<Op<V>>)
    requires Sound(s.config)
    decreases |ops|
  {
    if ops == [] then false
    else
      AppliedIsSound(s, ops[0]);
      Diverges(s, ops[0]) || SomeDiverges(Applied(s, ops[0]), ops[1..])
  }

  /** What an operation that gets past its checks does to the stored configurations and to the running
      pipelines.  A deletion takes the id out of the store unless a second file holds it. */
  lemma OperationChanges<V>(s: State<V>, op: Op<V>)
    requires Sound(s.config) && Reaches(s, op)
    ensures AnswerOf(s, op) == Returned(op.saves)
    ensures var before, after := View(s.config.files), View(Applied(s, op).config.files);
            match op
            case Add(id, data, _) => after == before[id := data]
            case Edit(id, data, _) => after == before[id := data]
            case Delete(id, _) => Holders(s.config.files, id) <= 1 ==> after == before - {id}
    ensures match op
            case Add(id, data, saves) =>
              Applied(s, op).pipelines == if saves then s.pipelines[id := data] else s.pipelines
            case Edit(id, data, saves) =>
              Applied(s, op).pipelines == if saves then s.pipelines[id := data] else s.pipelines
            case Delete(id, saves) =>
              Applied(s, op).pipelines == if saves then s.pipelines - {id} else s.pipelines
  {
    if op.Delete? {
      EraseRefinesMapIff(s.config, op.id);
    } else {
      AssignRefinesMap(s.config, op.id, op.data);
    }
  }

  /** An addition throws exactly when its id is stored or runs, an edit or deletion exactly when its id
      is not both; an operation that throws changes nothing. */
  lemma ThrowsIff<V>(s: State<V>, op: Op<V>)
    requires Sound(s.config)
    ensures AnswerOf(s, op) == Threw <==>
              match op
              case Add(id, _, _) => id in View(s.config.files) || id in s.pipelines
              case Edit(id, _, _) => id !in View(s.config.files) || id !in s.pipelines
              case Delete(id, _) => id !in View(s.config.files) || id !in s.pipelines
    ensures AnswerOf(s, op) == Threw ==> Applied(s, op) == s
  {
  }

  /** After a saved edit the store and the running pipeline both have the new data. */
  lemma SavedEditIsSeen<V>(s: State<V>, id: string, data: V)
    requires Sound(s.config) && id in s.pipelines && id in View(s.config.files)
    ensures var t := Applied(s, Edit(id, data, true));
            && id in View(t.config.files) && View(t.config.files)[id] == data
            && id in t.pipelines && t.pipelines[id] == data
  {
    OperationChanges(s, Edit(id, data, true));
  }

  /** What one operation does to the two sides, id by id. */
  lemma StepOn<V>(s: State<V>, op: Op<V>, k: string)
    requires Sound(s.config)
    ensures k != op.id || !Reaches(s, op)
            ==> (Stored(Applied(s, op), k) <==> Stored(s, k))
                && (k in Applied(s, op).pipelines <==> k in s.pipelines)
    ensures k == op.id && Reaches(s, op)
            ==> (AgreeOn(Applied(s, op), k) <==> !Diverges(s, op))
  {
    if op.Delete? {
      EraseTakesOneHolder(s.config, op.id);
      EraseRefinesMapIff(s.config, op.id);
    } else {
      AssignRefinesMap(s.config, op.id, op.data);
    }
  }

  /** An id on one side only is refused by every operation from then on, and stays there. */
  lemma {:induction false} DivergenceIsPermanent<V>(s: State<V>, ops: seq<Op<V>>, id: string)
    requires Sound(s.config) && !AgreeOn(s, id)
    ensures Stored(Run(s, ops), id) <==> Stored(s, id)
    ensures id in Run(s, ops).pipelines <==> id in s.pipelines
    ensures forall op: Op<V> :: op.id == id ==> AnswerOf(Run(s, ops), op) == Threw
    decreases |ops|
  {
    if ops != [] {
      AppliedIsSound(s, ops[0]);
      StepOn(s, ops[0], id);
      DivergenceIsPermanent(Applied(s, ops[0]), ops[1..], id);
    }
  }

  lemma StepAgrees<V>(s: State<V>, op: Op<V>)
    requires Sound(s.config) && Agree(s)
    ensures Agree(Applied(s, op)) <==> !Diverges(s, op)
    ensures Diverges(s, op) ==> !AgreeOn(Applied(s, op), op.id)
  {
    forall k ensures k != op.id ==> AgreeOn(Applied(s, op), k) {
      assert AgreeOn(s, k);
      StepOn(s, op, k);
    }
    StepOn(s, op, op.id);
    assert AgreeOn(s, op.id);
  }

  /** Over any run, the key sets are equal at the end exactly when no operation diverged. */
  lemma {:induction false} AgreeIffNoneDiverged<V>(s: State<V>, ops: seq<Op<V>>)
    requires Sound(s.config) && Agree(s)
    ensures Agree(Run(s, ops)) <==> !SomeDiverges(s, ops)
    decreases |ops|
  {
    if ops != [] {
      var next := Applied(s, ops[0]);
      AppliedIsSound(s, ops[0]);
      StepAgrees(s, ops[0]);
      if Diverges(s, ops[0]) {
        DivergenceIsPermanent(next, ops[1..], ops[0].id);
        assert !AgreeOn(Run(next, ops[1..]), ops[0].id);
      } else {
        AgreeIffNoneDiverged(next, ops[1..]);
      }
    }
  }

  /** With disjoint files, what diverges is precisely an addition or deletion that is not saved, and
      disjointness is kept. */
  lemma DisjointStep<V>(s: State<V>, op: Op<V>)
    requires Sound(s.config) && Disjoint(s.config.files)
    ensures Disjoint(Applied(s, op).config.files)
    ensures Diverges(s, op) <==> Reaches(s, op) && !op.Edit? && !op.saves
  {
    assert Holders(s.config.files, op.id) <= 1;
    if op.Delete? {
      EraseTakesOneHolder(s.config, op.id);
    } else {
      DisjointIsKept(s.config, op.id, op.data);
    }
  }

  ghost predicate AllSave<V>(ops: seq<Op<V>>) {
    forall i :: 0 <= i < |ops| ==> ops[i].saves
  }

  /** While every save succeeds and the files are disjoint, the supervisor runs exactly the stored
      pipelines, each built from exactly its stored configuration. */
  lemma {:induction false} SavedRunsAgree<V>(s: State<V>, ops: seq<Op<V>>)
    requires Sound(s.config) && Disjoint(s.config.files)
    requires s.pipelines == View(s.config.files)
    requires AllSave(ops)
    ensures Run(s, ops).pipelines == View(Run(s, ops).config.files)
    ensures Disjoint(Run(s, ops).config.files)
    decreases |ops|
  {
    if ops != [] {
      var op := ops[0];
      AppliedIsSound(s, op);
      DisjointStep(s, op);
      if Reaches(s, op) {
        if op.Delete? {
          assert Holders(s.config.files, op.id) <= 1;
          EraseRefinesMapIff(s.config, op.id);
        } else {
          AssignRefinesMap(s.config, op.id, op.data);
        }
      }
      SavedRunsAgree(Applied(s, op), ops[1..]);
    }
  }

  // --------------------------------------------------------------------------------------------
  // The objects
  // --------------------------------------------------------------------------------------------

  class GlobalConfig<V(==)> {
    const pipelines: PipelineConfigs<V>

    constructor (pipelines: PipelineConfigs<V>)
      ensures this.pipelines == pipelines
    {
      this.pipelines := pipelines;
    }

    method AddPipeline(id: string, data: V, saves: bool) returns (r: Answer)
      requires Sound(pipelines.Model())
      modifies pipelines
      ensures Sound(pipelines.Model())
      ensures r == if id in old(View(pipelines.configs)) then Threw else Returned(saves)
      ensures pipelines.Model() == if r.Threw? then old(pipelines.Model())
                                   else Assigned(old(pipelines.Model()), id, data)
    {
      var present := pipelines.Contains(id);
      if present {
        return Threw;
      }
      pipelines.Assign(id, data);
      return Returned(saves);
    }

    /** With `replace` the data becomes the configuration, otherwise `merge` combines it with the
        stored one. */
    method UpdatePipeline(id: string, data: V, replace: bool, merge: (V, V) -> V, saves: bool)
      returns (r: Answer)
      requires Sound(pipelines.Model())
      modifies pipelines
      ensures Sound(pipelines.Model())
      ensures r == if id in old(View(pipelines.configs)) then Returned(saves) else Threw
      ensures r.Threw? ==> pipelines.Model() == old(pipelines.Model())
      ensures r.Returned? ==>
        pipelines.Model() == Assigned(old(pipelines.Model()), id,
          if replace then data else merge(old(View(pipelines.configs))[id], data))
    {
      var present := pipelines.Contains(id);
      if !present {
        return Threw;
      }
      if replace {
        pipelines.Assign(id, data);
      } else {
        var current := pipelines.At(id);
        pipelines.Assign(id, merge(current.value, data));
      }
      return Returned(saves);
    }

    method DeletePipeline(id: string, saves: bool) returns (r: Answer)
      requires Sound(pipelines.Model())
      modifies pipelines
      ensures Sound(pipelines.Model())
      ensures r == if id in old(View(pipelines.configs)) then Returned(saves) else Threw
      ensures pipelines.Model() == if r.Threw? then old(pipelines.Model())
                                   else Erased(old(pipelines.Model()), id)
    {
      var present := pipelines.Contains(id);
      if !present {
        return Threw;
      }
      pipelines.Erase(id);
      return Returned(saves);
    }
  }

  class PipelineSupervisor<V(==)> {
    const gc: GlobalConfig<V>
    var pipelines: map<string, V>

    ghost function Model(): State<V>
      reads this, gc.pipelines
    {
      State(gc.pipelines.Model(), pipelines)
    }

    constructor (gc: GlobalConfig<V>)
      ensures this.gc == gc && pipelines == map[]
    {
      this.gc := gc;
      pipelines := map[];
    }

    /** Builds a pipeline for every entry the iterator gives; the first under an id stays. */
    method Init() returns (complete: bool)
      requires pipelines == map[] && gc.pipelines.configs != []
      modifies this
      ensures complete <==> forall i :: 0 <= i < |gc.pipelines.configs|
                                        ==> gc.pipelines.configs[i].entries != []
      ensures complete ==> pipelines == View(gc.pipelines.configs)
    {
      var visited: seq<Entry<V>>;
      visited, complete := Visit(gc.pipelines.configs);
      for i := 0 to |visited|
        invariant pipelines == AsMap(visited[..i])
      {
        assert visited[..i + 1] == visited[..i] + [visited[i]];
        MapSplits(visited[..i], [visited[i]]);
        if visited[i].key !in pipelines {
          pipelines := pipelines[visited[i].key := visited[i].value];
        }
      }
      assert visited[..|visited|] == visited;
      FlattenIsView(gc.pipelines.configs);
    }

    method AddPipeline(id: string, data: V, saves: bool) returns (r: Answer)
      requires Sound(gc.pipelines.Model())
      modifies this, gc.pipelines
      ensures Sound(gc.pipelines.Model())
      ensures Model() == Applied(old(Model()), Add(id, data, saves))
      ensures r == AnswerOf(old(Model()), Add(id, data, saves))
    {
      if id in pipelines {
        return Threw;
      }
      r := gc.AddPipeline(id, data, saves);
      if r == Returned(true) {
        pipelines := pipelines[id := data];
      }
    }

    method DeletePipeline(id: string, saves: bool) returns (r: Answer)
      requires Sound(gc.pipelines.Model())
      modifies this, gc.pipelines
      ensures Sound(gc.pipelines.Model())
      ensures Model() == Applied(old(Model()), Delete(id, saves))
      ensures r == AnswerOf(old(Model()), Delete(id, saves))
    {
      if id !in pipelines {
        return Threw;
      }
      r := gc.DeletePipeline(id, saves);
      if r == Returned(true) {
        pipelines := pipelines - {id};
      }
    }

    method EditPipeline(id: string, data: V, saves: bool) returns (r: Answer)
      requires Sound(gc.pipelines.Model())
      modifies this, gc.pipelines
      ensures Sound(gc.pipelines.Model())
      ensures Model() == Applied(old(Model()), Edit(id, data, saves))
      ensures r == AnswerOf(old(Model()), Edit(id, data, saves))
    {
      if id !in pipelines {
        return Threw;
      }
      r := gc.UpdatePipeline(id, data, true, (_, patch) => patch, saves);
      if r == Returned(true) {
        pipelines := pipelines[id := data];
      }
    }
  }
}
