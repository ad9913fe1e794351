/** Dependency evidence as a graph, and the depth-first walk over it
    (src/aep/evaluate_acceptance.py:212-272). */
module Predecessors {
  import opened Wrappers

  /** A stored runtime object as the walk looks at it; a field that is not what the walk demands
      is `None`. */
  datatype Record = Record(isTaskExecution: bool, workflowId: string, traceId: string, status: string,
                           taskName: Option<string>, taskIsLoaded: bool, dependencies: Option<seq<string>>)

  datatype Workflow = Workflow(id: string, traceId: string)

  type Store = map<string, Record>

  datatype Reason = NotFound | NotCorrelatedSuccess | MalformedTaskRef | TaskMissing | MalformedDependencies

  /** The checks of `visit`, in their order. */
  function Rejected(store: Store, workflow: Workflow, id: string): Option<Reason> {
    if id !in store || !store[id].isTaskExecution then Some(NotFound)
    else if store[id].workflowId != workflow.id || store[id].traceId != workflow.traceId
            || store[id].status != "SUCCEEDED" then Some(NotCorrelatedSuccess)
    else if store[id].taskName.None? then Some(MalformedTaskRef)
    else if !store[id].taskIsLoaded then Some(TaskMissing)
    else if store[id].dependencies.None? then Some(MalformedDependencies)
    else None
  }

  /** A task passes exactly if it is a stored TaskExecution of this workflow and trace that succeeded,
      its Task is named and loaded, and its dependencies are listed. */
  lemma PassesExactly(store: Store, workflow: Workflow, id: string)
    ensures Rejected(store, workflow, id).None? <==>
              && id in store
              && var r := store[id];
                 && r.isTaskExecution && r.workflowId == workflow.id && r.traceId == workflow.traceId
                 && r.status == "SUCCEEDED" && r.taskName.Some? && r.taskIsLoaded && r.dependencies.Some?
    ensures Rejected(store, workflow, id) == Some(NotFound) <==> id !in store || !store[id].isTaskExecution
    ensures Rejected(store, workflow, id) == Some(NotCorrelatedSuccess) ==>
              id in store && !(&& store[id].workflowId == workflow.id && store[id].traceId == workflow.traceId
                               && store[id].status == "SUCCEEDED")
    ensures Rejected(store, workflow, id) == Some(MalformedTaskRef) ==> id in store && store[id].taskName.None?
    ensures Rejected(store, workflow, id) == Some(TaskMissing) ==> id in store && !store[id].taskIsLoaded
    ensures Rejected(store, workflow, id) == Some(MalformedDependencies) ==> id in store && store[id].dependencies.None?
  {
  }

  function Dependencies(store: Store, id: string): seq<string> {
    if id in store && store[id].dependencies.Some? then store[id].dependencies.value else []
  }

  // ---------------------------------------------------------------- paths

  ghost predicate Path(store: Store, path: seq<string>) {
    forall i | 0 <= i < |path| - 1 :: path[i + 1] in Dependencies(store, path[i])
  }

  /** `from` depends on `to`, directly or through others. */
  ghost predicate DependsOn(store: Store, from: string, to: string) {
    exists path :: |path| >= 2 && path[0] == from && path[|path| - 1] == to && Path(store, path)
  }

  ghost predicate Reaches(store: Store, from: string, to: string) {
    from == to || DependsOn(store, from, to)
  }

  /** A cycle can be reached from `root`. */
  ghost predicate HasCycle(store: Store, root: string) {
    exists id :: Reaches(store, root, id) && DependsOn(store, id, id)
  }

  /** A record that fails its checks can be reached from `root`. */
  ghost predicate HasRejected(store: Store, workflow: Workflow, root: string) {
    exists id :: Reaches(store, root, id) && Rejected(store, workflow, id).Some?
  }

  lemma DependsDirectly(store: Store, from: string, to: string)
    requires to in Dependencies(store, from)
    ensures DependsOn(store, from, to)
  {
    assert Path(store, [from, to]);
  }

  lemma DependsFurther(store: Store, from: string, via: string, to: string)
    requires DependsOn(store, from, via) && to in Dependencies(store, via)
    ensures DependsOn(store, from, to)
  {
    var path :| |path| >= 2 && path[0] == from && path[|path| - 1] == via && Path(store, path);
    assert Path(store, path + [to]);
  }

  lemma DependsThrough(store: Store, from: string, via: string, to: string)
    requires via in Dependencies(store, from) && Reaches(store, via, to)
    ensures DependsOn(store, from, to)
  {
    if via == to {
      DependsDirectly(store, from, to);
    } else {
      var path :| |path| >= 2 && path[0] == via && path[|path| - 1] == to && Path(store, path);
      var longer := [from] + path;
      forall i | 0 <= i < |longer| - 1 ensures longer[i + 1] in Dependencies(store, longer[i]) {
        if i > 0 { assert path[i] in Dependencies(store, path[i - 1]); }
      }
      assert Path(store, longer);
    }
  }

  /** What a dependency can reach, its dependent can reach. */
  lemma FindingsCarryOver(store: Store, workflow: Workflow, from: string, via: string)
    requires via in Dependencies(store, from)
    ensures HasCycle(store, via) ==> HasCycle(store, from)
    ensures HasRejected(store, workflow, via) ==> HasRejected(store, workflow, from)
  {
    forall id | Reaches(store, via, id) ensures Reaches(store, from, id) { DependsThrough(store, from, via, id); }
  }

  // ---------------------------------------------------------------- orders

  /** Every task comes after all its dependencies. */
  ghost predicate DependenciesFirst(store: Store, ordered: seq<string>) {
    forall i | 0 <= i < |ordered| :: forall d | d in Dependencies(store, ordered[i]) :: d in ordered[..i]
  }

  lemma AppendKeepsOrder(store: Store, ordered: seq<string>, id: string)
    requires DependenciesFirst(store, ordered)
    requires forall d | d in Dependencies(store, id) :: d in ordered
    ensures DependenciesFirst(store, ordered + [id])
  {
    var after := ordered + [id];
    forall i, d | 0 <= i < |after| && d in Dependencies(store, after[i]) ensures d in after[..i] {
      if i < |ordered| {
        assert d in ordered[..i] && after[..i] == ordered[..i];
      } else {
        assert after[..i] == ordered;
      }
    }
  }

  /** Along a path the positions in the order only go down. */
  lemma {:induction false} PathsGoDown(store: Store, ordered: seq<string>, path: seq<string>, i: nat)
    requires NoDuplicates(ordered) && DependenciesFirst(store, ordered)
    requires |path| >= 1 && Path(store, path) && i < |ordered| && ordered[i] == path[0]
    ensures exists j :: 0 <= j <= i && ordered[j] == path[|path| - 1] && (|path| >= 2 ==> j < i)
    decreases |path|
  {
    if |path| >= 2 {
      assert path[1] in Dependencies(store, path[0]);
      assert path[1] in ordered[..i];
      var k :| 0 <= k < i && ordered[k] == path[1];
      assert Path(store, path[1..]) by {
        forall n | 0 <= n < |path[1..]| - 1 ensures path[1..][n + 1] in Dependencies(store, path[1..][n]) {
          assert path[n + 2] in Dependencies(store, path[n + 1]);
        }
      }
      PathsGoDown(store, ordered, path[1..], k);
    }
  }

  /** An order without duplicates, dependencies first, holds everything its tasks reach, and no
      cycle. */
  lemma OrderedIsClosedAndAcyclic(store: Store, ordered: seq<string>, root: string)
    requires NoDuplicates(ordered) && DependenciesFirst(store, ordered) && root in ordered
    ensures forall id | Reaches(store, root, id) :: id in ordered
    ensures !HasCycle(store, root)
  {
    var r :| 0 <= r < |ordered| && ordered[r] == root;
    forall id | Reaches(store, root, id) ensures id in ordered {
      if id != root {
        var path :| |path| >= 2 && path[0] == root && path[|path| - 1] == id && Path(store, path);
        PathsGoDown(store, ordered, path, r);
      }
    }
    forall id | Reaches(store, root, id) ensures !DependsOn(store, id, id) {
      var i :| 0 <= i < |ordered| && ordered[i] == id;
      forall path: seq<string> | |path| >= 2 && path[0] == id && Path(store, path) ensures path[|path| - 1] != id {
        PathsGoDown(store, ordered, path, i);
      }
    }
  }

  // ---------------------------------------------------------------- the walk

  datatype Error = NotOneDependency | Cycle(id: string) | Bad(id: string, reason: Reason) | IncompleteChain

  const MVP_CHAIN := ["analyze-issue", "build-implementation-plan", "generate-patch", "run-validation"]

  /** The order a depth-first walk gives its tasks: each after its dependencies, which are taken in
      the order the record lists them; `room` are the tasks that are not under way. */
  function Visited(store: Store, ids: seq<string>, seen: seq<string>, room: set<string>): seq<string>
    decreases room, |ids|
  {
    if ids == [] then seen
    else
      var id := ids[0];
      var after :=
        if id in seen || id !in room then seen
        else Visited(store, Dependencies(store, id), seen, room - {id}) + [id];
      Visited(store, ids[1..], after, room)
  }

  function WalkOrder(store: Store, root: string): seq<string> {
    Visited(store, [root], [], store.Keys)
  }

  class Walk {
    const store: Store
    const workflow: Workflow
    var visiting: set<string>
    var visited: set<string>
    var ordered: seq<string>

    constructor (store: Store, workflow: Workflow)
      ensures this.store == store && this.workflow == workflow
      ensures visiting == {} && visited == {} && ordered == [] && Valid()
    {
      this.store, this.workflow := store, workflow;
      visiting, visited, ordered := {}, {}, [];
    }

    ghost predicate Valid()
      reads this
    {
      && visited == (set id | id in ordered) && visiting !! visited && visiting <= store.Keys
      && NoDuplicates(ordered) && DependenciesFirst(store, ordered)
      && (forall id | id in ordered :: Rejected(store, workflow, id).None?)
    }

    /** Every task under way depends on `id`. */
    ghost predicate LeadsTo(id: string)
      reads this
    {
      forall v | v in visiting :: DependsOn(store, v, id)
    }

    /** `visit`.  On success `id` and everything it reaches is in the order, and only that was
        added; a raised error names a cycle or a bad record that `id` reaches. */
    method Visit(id: string) returns (error: Option<Error>)
      requires Valid() && LeadsTo(id)
      modifies this
      ensures error.None? ==>
                && Valid() && visiting == old(visiting) && old(ordered) <= ordered && id in visited
                && ordered == Visited(store, [id], old(ordered), store.Keys - visiting)
                && (forall other | other in visited :: other in old(visited) || Reaches(store, id, other))
      ensures error.Some? ==>
                || (error.value.Cycle? && HasCycle(store, id))
                || (error.value.Bad? && HasRejected(store, workflow, id)
                    && Rejected(store, workflow, error.value.id) == Some(error.value.reason))
      decreases store.Keys - visiting, 0
    {
      if id in visiting {
        assert Reaches(store, id, id) && DependsOn(store, id, id);
        return Some(Cycle(id));
      }
      if id in visited { return None; }
      var rejected := Rejected(store, workflow, id);
      if rejected.Some? {
        assert Reaches(store, id, id);
        return Some(Bad(id, rejected.value));
      }
      visiting := visiting + {id};
      error := VisitAll(id);
      if error.Some? { return; }
      visiting := visiting - {id};
      visited := visited + {id};
      AppendKeepsOrder(store, ordered, id);
      ordered := ordered + [id];
      assert store.Keys - visiting - {id} == store.Keys - (visiting + {id});
    }

    /** The loop of `visit` over the dependencies of one task. */
    method VisitAll(id: string) returns (error: Option<Error>)
      requires Valid() && id in visiting && OthersLeadTo(id) && Rejected(store, workflow, id).None?
      modifies this
      ensures error.None? ==>
                && Valid() && visiting == old(visiting) && old(ordered) <= ordered
                && ordered == Visited(store, Dependencies(store, id), old(ordered), store.Keys - visiting)
                && (forall d | d in Dependencies(store, id) :: d in visited)
                && (forall other | other in visited :: other in old(visited) || Reaches(store, id, other))
      ensures error.Some? ==>
                || (error.value.Cycle? && HasCycle(store, id))
                || (error.value.Bad? && HasRejected(store, workflow, id)
                    && Rejected(store, workflow, error.value.id) == Some(error.value.reason))
      decreases store.Keys - visiting, 1
    {
      var dependencies := Dependencies(store, id);
      for i := 0 to |dependencies|
        invariant Valid() && visiting == old(visiting) && old(ordered) <= ordered
        invariant Visited(store, dependencies, old(ordered), store.Keys - visiting)
               == Visited(store, dependencies[i..], ordered, store.Keys - visiting)
        invariant forall d | d in dependencies[..i] :: d in visited
        invariant forall other | other in visited :: other in old(visited) || Reaches(store, id, other)
      {
        var d := dependencies[i];
        assert dependencies[..i + 1] == dependencies[..i] + [d];
        LeadsFurther(store, visiting, id, d);
        ghost var before, sofar := visited, ordered;
        error := Visit(d);
        FindingsCarryOver(store, workflow, id, d);
        if error.Some? { return; }
        OneVisited(store, dependencies[i..], sofar, store.Keys - visiting);
        forall other | other in visited && other !in before ensures Reaches(store, id, other) {
          DependsThrough(store, id, d, other);
        }
      }
      assert dependencies[..|dependencies|] == dependencies;
      error := None;
    }

    ghost predicate OthersLeadTo(id: string)
      reads this
    {
      forall v | v in visiting && v != id :: DependsOn(store, v, id)
    }
  }

  /** Visiting some tasks is visiting the first and then the others. */
  lemma OneVisited(store: Store, ids: seq<string>, seen: seq<string>, room: set<string>)
    requires ids != []
    ensures Visited(store, ids, seen, room)
         == Visited(store, ids[1..], Visited(store, [ids[0]], seen, room), room)
  {
    assert [ids[0]][1..] == [];
  }

  lemma LeadsFurther(store: Store, visiting: set<string>, id: string, d: string)
    requires forall v | v in visiting && v != id :: DependsOn(store, v, id)
    requires d in Dependencies(store, id)
    ensures forall v | v in visiting :: DependsOn(store, v, d)
  {
    forall v | v in visiting ensures DependsOn(store, v, d) {
      if v == id { DependsDirectly(store, id, d); } else { DependsFurther(store, v, id, d); }
    }
  }

  function Names(store: Store, ordered: seq<string>): seq<Option<string>> {
    if ordered == [] then []
    else
      Names(store, ordered[..|ordered| - 1])
      + [if ordered[|ordered| - 1] in store then store[ordered[|ordered| - 1]].taskName else None]
  }

  lemma {:induction false} NamesAre(store: Store, ordered: seq<string>)
    ensures |Names(store, ordered)| == |ordered|
    ensures forall i | 0 <= i < |ordered| ::
              Names(store, ordered)[i] == if ordered[i] in store then store[ordered[i]].taskName else None
  {
    if ordered != [] { NamesAre(store, ordered[..|ordered| - 1]); }
  }

  /** What a successful walk from `root` returns. */
  ghost predicate IsPredecessorOrder(store: Store, workflow: Workflow, root: string, ordered: seq<string>) {
    && (forall id :: id in ordered <==> Reaches(store, root, id))
    && NoDuplicates(ordered) && DependenciesFirst(store, ordered)
    && (forall id | id in ordered :: Rejected(store, workflow, id).None?)
  }

  /** `visit(direct[0])` on its own: it succeeds exactly if everything reachable is valid and no
      cycle is reachable, and then returns exactly the reachable tasks, dependencies first. */
  method WalkFrom(store: Store, workflow: Workflow, root: string) returns (result: Result<seq<string>, Error>)
    ensures result.Ok? <==> !HasCycle(store, root) && !HasRejected(store, workflow, root)
    ensures result.Ok? ==> IsPredecessorOrder(store, workflow, root, result.value)
                           && result.value == WalkOrder(store, root)
    ensures result.Err? && result.error.Cycle? ==> HasCycle(store, root)
    ensures result.Err? && !result.error.Cycle? ==>
              result.error.Bad? && HasRejected(store, workflow, root)
              && Rejected(store, workflow, result.error.id) == Some(result.error.reason)
  {
    var walk := new Walk(store, workflow);
    var error := walk.Visit(root);
    if error.Some? { return Err(error.value); }
    OrderedIsClosedAndAcyclic(store, walk.ordered, root);
    assert store.Keys - {} == store.Keys;
    result := Ok(walk.ordered);
  }

  /** The walk's order spells the fixed chain of Task names. */
  predicate SpellsChain(store: Store, root: string) {
    Names(store, WalkOrder(store, root)) == SomeOf(MVP_CHAIN)
  }

  /** What a refusal means. */
  ghost predicate Explains(store: Store, workflow: Workflow, direct: seq<string>, error: Error) {
    if |direct| != 1 then error == NotOneDependency
    else
      match error
      case NotOneDependency => false
      case Cycle(_) => HasCycle(store, direct[0])
      case Bad(id, reason) => HasRejected(store, workflow, direct[0]) && Rejected(store, workflow, id) == Some(reason)
      case IncompleteChain =>
        IsPredecessorOrder(store, workflow, direct[0], WalkOrder(store, direct[0])) && !SpellsChain(store, direct[0])
  }

  /** `_predecessors`: there is a result exactly if the evidence is one task whose dependencies are
      all valid, without a cycle, and taken by the walk in the order of the fixed chain. */
  method FindPredecessors(store: Store, workflow: Workflow, direct: seq<string>)
    returns (result: Result<seq<string>, Error>)
    ensures result.Ok? <==>
              && |direct| == 1 && !HasCycle(store, direct[0]) && !HasRejected(store, workflow, direct[0])
              && SpellsChain(store, direct[0])
    ensures result.Ok? ==>
              && result.value == WalkOrder(store, direct[0])
              && IsPredecessorOrder(store, workflow, direct[0], result.value)
              && Names(store, result.value) == SomeOf(MVP_CHAIN)
    ensures result.Err? ==> Explains(store, workflow, direct, result.error)
  {
    if |direct| != 1 { return Err(NotOneDependency); }
    result := WalkFrom(store, workflow, direct[0]);
    if result.Ok? && Names(store, result.value) != SomeOf(MVP_CHAIN) { return Err(IncompleteChain); }
  }

  // ---------------------------------------------------------------- two orders

  function Succeeded(workflow: Workflow, name: string, dependencies: seq<string>): Record {
    Record(true, workflow.id, workflow.traceId, "SUCCEEDED", Some(name), true, Some(dependencies))
  }

  /** A plan that does not depend on the analysis, and a patch that depends on the plan first. */
  function Independent(w: Workflow): Store {
    map["a" := Succeeded(w, "analyze-issue", []), "b" := Succeeded(w, "build-implementation-plan", []),
        "c" := Succeeded(w, "generate-patch", ["b", "a"]), "d" := Succeeded(w, "run-validation", ["c"])]
  }

  lemma VisitsOne(store: Store, id: string, seen: seq<string>, room: set<string>)
    requires id !in seen && id in room
    ensures Visited(store, [id], seen, room) == Visited(store, Dependencies(store, id), seen, room - {id}) + [id]
  {
    assert [id][1..] == [];
  }

  lemma NamesOfFour(store: Store, w: string, x: string, y: string, z: string)
    requires w in store && x in store && y in store && z in store
    ensures Names(store, [w, x, y, z])
         == [store[w].taskName, store[x].taskName, store[y].taskName, store[z].taskName]
  {
    assert [w, x, y, z][..3] == [w, x, y] && [w, x, y][..2] == [w, x] && [w, x][..1] == [w] && [w][..0] == [];
    assert Names(store, [w]) == [store[w].taskName];
    assert Names(store, [w, x]) == [store[w].taskName, store[x].taskName];
    assert Names(store, [w, x, y]) == [store[w].taskName, store[x].taskName, store[y].taskName];
  }

  lemma WalkTakesThePlanFirst(w: Workflow)
    ensures WalkOrder(Independent(w), "d") == ["b", "a", "c", "d"]
  {
    hide Visited, Independent;
    var store := Independent(w);
    IndependentHas(w);
    var withoutD := store.Keys - {"d"};
    var withoutC := withoutD - {"c"};
    VisitsOne(store, "d", [], store.Keys);
    VisitsOne(store, "c", [], withoutD);
    OneVisited(store, ["b", "a"], [], withoutC);
    assert ["b", "a"][1..] == ["a"] && ["b", "a"][0] == "b";
    VisitsOne(store, "b", [], withoutC);
    VisitsNone(store, [], withoutC - {"b"});
    assert Visited(store, ["b"], [], withoutC) == [] + ["b"] == ["b"];
    VisitsOne(store, "a", ["b"], withoutC);
    VisitsNone(store, ["b"], withoutC - {"a"});
    assert Visited(store, ["b", "a"], [], withoutC) == ["b"] + ["a"] == ["b", "a"];
    assert Visited(store, ["c"], [], withoutD) == ["b", "a"] + ["c"] == ["b", "a", "c"];
  }

  lemma VisitsNone(store: Store, seen: seq<string>, room: set<string>)
    ensures Visited(store, [], seen, room) == seen
  {
  }

  lemma IndependentHas(w: Workflow)
    ensures
      var store := Independent(w);
      && store.Keys == {"a", "b", "c", "d"}
      && Dependencies(store, "a") == [] && Dependencies(store, "b") == []
      && Dependencies(store, "c") == ["b", "a"] && Dependencies(store, "d") == ["c"]
      && store["a"].taskName == Some("analyze-issue") && store["b"].taskName == Some("build-implementation-plan")
      && store["c"].taskName == Some("generate-patch") && store["d"].taskName == Some("run-validation")
      && forall id | id in store :: Rejected(store, w, id).None?
  {
  }

  lemma AnalysisFirstIsOrdered(w: Workflow)
    ensures NoDuplicates(["a", "b", "c", "d"]) && DependenciesFirst(Independent(w), ["a", "b", "c", "d"])
  {
    hide Independent;
    var ordered := ["a", "b", "c", "d"];
    IndependentHas(w);
    assert ordered[..2] == ["a", "b"] && ordered[..3] == ["a", "b", "c"];
  }

  lemma AnalysisFirstIsAnOrder(w: Workflow)
    ensures IsPredecessorOrder(Independent(w), w, "d", ["a", "b", "c", "d"])
  {
    hide Independent, DependsOn, Path, NoDuplicates, DependenciesFirst, HasCycle, Rejected;
    var store, ordered := Independent(w), ["a", "b", "c", "d"];
    IndependentHas(w);
    AnalysisFirstIsOrdered(w);
    OrderedIsClosedAndAcyclic(store, ordered, "d");
    DependsDirectly(store, "d", "c");
    DependsFurther(store, "d", "c", "b");
    DependsFurther(store, "d", "c", "a");
  }

  /** Evidence with an order that is dependencies first and spells the chain can still be refused:
      the walk takes the dependencies in the order of the record. */
  lemma ListedOrderDecides(w: Workflow)
    ensures
      var store := Independent(w);
      && IsPredecessorOrder(store, w, "d", ["a", "b", "c", "d"])
      && Names(store, ["a", "b", "c", "d"]) == SomeOf(MVP_CHAIN)
      && WalkOrder(store, "d") == ["b", "a", "c", "d"] && !SpellsChain(store, "d")
  {
    hide Visited, Independent, IsPredecessorOrder, WalkOrder, Names;
    var store := Independent(w);
    IndependentHas(w);
    AnalysisFirstIsAnOrder(w);
    WalkTakesThePlanFirst(w);
    NamesOfFour(store, "a", "b", "c", "d");
    NamesOfFour(store, "b", "a", "c", "d");
    assert SomeOf(MVP_CHAIN)[0] == Some("analyze-issue") && |"analyze-issue"| != |"build-implementation-plan"|;
  }
}
