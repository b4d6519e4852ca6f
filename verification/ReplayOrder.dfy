// The two dependency orderings of a replay: the depth-first visit of superseding commits
// and the layered release of blob lifecycle events.

module ReplayOrder {
  import opened Basics
  import opened DependencyGraph

  /** Commits by memory id, each with the memory it supersedes (which may not be in the range replayed). */
  type Commits = map<Id, Option<Id>>

  function SupersessionGraph(commits: Commits): (g: Graph)
    ensures g.Keys == commits.Keys && Closed(g)
  {
    map m | m in commits ::
      if commits[m].Some? && commits[m].value in commits then {commits[m].value} else {}
  }

  /** Consecutive entries of the visiting stack are a commit and the commit it supersedes. */
  ghost predicate Stack(g: Graph, path: seq<Id>) {
    && NoDuplicates(path)
    && (forall x :: x in path ==> x in g)
    && (forall i :: 0 <= i < |path| - 1 ==> path[i + 1] in g[path[i]])
  }

  class SupersessionVisit {
    const commits: Commits
    var visiting: set<Id>
    var visited: set<Id>
    var ordered: seq<Id>

    constructor (commits: Commits)
      ensures this.commits == commits
      ensures Valid() && visiting == {} && visited == {}
    {
      this.commits := commits;
      visiting, visited, ordered := {}, {}, [];
    }

    ghost predicate Valid()
      reads this
    {
      && visited <= commits.Keys
      && Topological(SupersessionGraph(commits), visited, ordered)
    }

    method Visit(memory: Id, ghost path: seq<Id>) returns (ok: bool)
      requires Valid() && memory in commits
      requires Stack(SupersessionGraph(commits), path) && visiting == Listed(path)
      requires path != [] ==> memory in SupersessionGraph(commits)[path[|path| - 1]]
      requires visited !! visiting
      modifies this`visiting, this`visited, this`ordered
      ensures ok ==> Valid() && visiting == old(visiting) && visited !! visiting
      ensures ok ==> old(visited) + {memory} <= visited
      ensures !ok ==> HasCycle(SupersessionGraph(commits))
      decreases commits.Keys - visiting
    {
      ghost var g := SupersessionGraph(commits);
      if memory in visited {
        return true;
      }
      if memory in visiting {
        StackCloses(g, path, memory);
        return false;
      }
      visiting := visiting + {memory};
      ghost var longer := path + [memory];
      PushStack(g, path, memory);
      var dependency := commits[memory];
      if dependency.Some? && dependency.value in commits {
        ok := Visit(dependency.value, longer);
        if !ok { return; }
      }
      visiting := visiting - {memory};
      visited := visited + {memory};
      ExtendTopological(g, visited - {memory}, ordered, memory);
      ordered := ordered + [memory];
      return true;
    }

    method VisitFirst(memory: Id) returns (ok: bool)
      requires Valid() && visiting == {} && memory in commits
      modifies this`visiting, this`visited, this`ordered
      ensures ok ==> Valid() && visiting == {} && old(visited) + {memory} <= visited
      ensures !ok ==> HasCycle(SupersessionGraph(commits))
    {
      ok := Visit(memory, []);
    }

    method VisitAll(ids: seq<Id>) returns (ok: bool)
      requires Valid() && visiting == {} && forall x :: x in ids ==> x in commits
      modifies this`visiting, this`visited, this`ordered
      ensures ok ==> Valid() && forall x :: x in ids ==> x in visited
      ensures !ok ==> HasCycle(SupersessionGraph(commits))
    {
      var i := 0;
      while i < |ids|
        invariant 0 <= i <= |ids|
        invariant Valid() && visiting == {}
        invariant forall k :: 0 <= k < i ==> ids[k] in visited
      {
        ok := VisitFirst(ids[i]);
        if !ok { return; }
        i := i + 1;
      }
      return true;
    }

    /** Visits every commit in the order of its id; a cycle stops the replay. */
    method Order(less: (Id, Id) -> bool) returns (r: Option<seq<Id>>)
      requires StrictTotalOn(commits.Keys, less)
      requires Valid() && visiting == {} && visited == {}
      modifies this`visiting, this`visited, this`ordered
      ensures r.Some? ==> Topological(SupersessionGraph(commits), commits.Keys, r.value)
      ensures r.None? <==> HasCycle(SupersessionGraph(commits))
    {
      var ids := Sorted(commits.Keys, less);
      var ok := VisitAll(ids);
      if !ok { return None; }
      assert visited == commits.Keys by { assert forall m :: m in commits ==> m in ids; }
      TopologicalIsAcyclic(SupersessionGraph(commits), ordered);
      return Some(ordered);
    }
  }

  /** A memory met again while it is being visited closes a cycle. */
  lemma StackCloses(g: Graph, path: seq<Id>, again: Id)
    requires Stack(g, path) && again in path
    requires again in g[path[|path| - 1]]
    ensures HasCycle(g)
  {
    var j :| 0 <= j < |path| && path[j] == again;
    assert Cycle(g, path[j..]);
  }

  lemma PushStack(g: Graph, path: seq<Id>, next: Id)
    requires Stack(g, path) && next in g && next !in path
    requires path != [] ==> next in g[path[|path| - 1]]
    ensures Stack(g, path + [next]) && Listed(path + [next]) == Listed(path) + {next}
  {
  }

  lemma ExtendTopological(g: Graph, nodes: set<Id>, order: seq<Id>, x: Id)
    requires nodes <= g.Keys && x in g && x !in nodes
    requires Topological(g, nodes, order) && g[x] <= nodes
    ensures Topological(g, nodes + {x}, order + [x])
  {
    var longer := order + [x];
    forall i | 0 <= i < |longer| ensures g[longer[i]] <= Listed(longer[..i]) {
      assert longer[..i] == order[..i];
      if i == |order| { assert Listed(order[..i]) == nodes by { assert order[..i] == order; } }
    }
  }

  /** What is left of the needs of the lifecycle events still waiting. */
  function Waiting(g: Graph, done: set<Id>): (r: Graph) {
    map x | x in g && x !in done :: g[x] - done
  }

  /** `ordered` is a correct beginning and `remaining` what still waits behind it. */
  ghost predicate Progress(g: Graph, ordered: seq<Id>, remaining: Graph) {
    && Listed(ordered) <= g.Keys
    && Topological(g, Listed(ordered), ordered)
    && remaining == Waiting(g, Listed(ordered))
  }

  function Release(remaining: Graph, id: Id): (r: Graph) {
    map x | x in remaining && x != id :: remaining[x] - {id}
  }

  lemma ReleaseProgress(g: Graph, ordered: seq<Id>, remaining: Graph, id: Id)
    requires Progress(g, ordered, remaining)
    requires id in remaining && remaining[id] == {}
    ensures Progress(g, ordered + [id], Release(remaining, id))
  {
    var done := Listed(ordered);
    assert Listed(ordered + [id]) == done + {id};
    forall x | x in g[id] ensures x in done { assert x in remaining[id] || x in done; }
    ExtendTopological(g, done, ordered, id);
    var after := Waiting(g, done + {id});
    forall x | x in after ensures after[x] == remaining[x] - {id} { }
    assert Release(remaining, id) == after;
  }

  function Free(remaining: Graph): set<Id> {
    set x | x in remaining && remaining[x] == {}
  }

  /** Layer after layer of what waits for nothing, each in the given order. */
  function Layers(remaining: Graph, less: (Id, Id) -> bool): (r: seq<Id>)
    requires StrictTotalOn(remaining.Keys, less)
    decreases remaining.Keys
  {
    var free := Free(remaining);
    if free == {} then []
    else
      var x :| x in free;
      assert x in remaining.Keys && x !in Waiting(remaining, free).Keys;
      Sorted(free, less) + Layers(Waiting(remaining, free), less)
  }

  lemma ReleaseOne(before: Graph, done: set<Id>, id: Id)
    requires id in before
    ensures Release(Waiting(before, done), id) == Waiting(before, done + {id})
  {
    var a, b := Release(Waiting(before, done), id), Waiting(before, done + {id});
    forall x | x in a ensures a[x] == b[x] { assert (before[x] - done) - {id} == before[x] - (done + {id}); }
    assert a.Keys == b.Keys;
  }

  /** Releases one layer in its order. */
  method ReleaseLayer(ghost g: Graph, remaining: Graph, ready: seq<Id>, ghost ordered: seq<Id>) returns (after: Graph)
    requires Progress(g, ordered, remaining)
    requires NoDuplicates(ready) && forall x :: x in ready ==> x in remaining && remaining[x] == {}
    ensures Progress(g, ordered + ready, after) && after == Waiting(remaining, Listed(ready))
  {
    after := remaining;
    assert Waiting(remaining, Listed([])) == remaining by {
      forall x | x in remaining ensures remaining[x] - Listed([]) == remaining[x] { }
    }
    assert ordered + ready[..0] == ordered;
    var i := 0;
    while i < |ready|
      invariant 0 <= i <= |ready|
      invariant after == Waiting(remaining, Listed(ready[..i]))
      invariant Progress(g, ordered + ready[..i], after)
    {
      assert ready[i] in ready && ready[i] !in Listed(ready[..i]);
      assert Listed(ready[..i + 1]) == Listed(ready[..i]) + {ready[i]};
      ReleaseProgress(g, ordered + ready[..i], after, ready[i]);
      ReleaseOne(remaining, Listed(ready[..i]), ready[i]);
      assert ordered + ready[..i] + [ready[i]] == ordered + ready[..i + 1];
      after := Release(after, ready[i]);
      i := i + 1;
    }
    assert ready[..i] == ready;
  }

  lemma NothingDone(g: Graph)
    ensures Waiting(g, {}) == g
  {
    forall x | x in g ensures g[x] - {} == g[x] { }
  }

  /** `rest` unfolds as `Layers` does. */
  ghost predicate RestAt(rest: Graph -> seq<Id>, less: (Id, Id) -> bool, g: Graph) {
    StrictTotalOn(g.Keys, less) ==>
      rest(g) == if Free(g) == {} then [] else Sorted(Free(g), less) + rest(Waiting(g, Free(g)))
  }

  ghost predicate Unfolds(rest: Graph -> seq<Id>, less: (Id, Id) -> bool) {
    forall g :: RestAt(rest, less, g)
  }

  lemma NothingRests(rest: Graph -> seq<Id>, less: (Id, Id) -> bool)
    requires Unfolds(rest, less)
    ensures rest(map[]) == []
  {
    assert RestAt(rest, less, map[]);
    assert Free(map[]) == {};
  }

  ghost function LayersBy(less: (Id, Id) -> bool): Graph -> seq<Id> {
    (g: Graph) => if StrictTotalOn(g.Keys, less) then Layers(g, less) else []
  }

  lemma LayersUnfold(less: (Id, Id) -> bool)
    ensures Unfolds(LayersBy(less), less)
  {
  }

  /** `inv` says that the release is on its way. */
  ghost predicate MeansAt(inv: (seq<Id>, Graph) -> bool, g: Graph, less: (Id, Id) -> bool, ordered: seq<Id>, remaining: Graph) {
    inv(ordered, remaining) <==> Progress(g, ordered, remaining) && StrictTotalOn(remaining.Keys, less)
  }

  ghost predicate Means(inv: (seq<Id>, Graph) -> bool, g: Graph, less: (Id, Id) -> bool) {
    forall ordered, remaining :: MeansAt(inv, g, less, ordered, remaining)
  }

  ghost function OnItsWay(g: Graph, less: (Id, Id) -> bool): (seq<Id>, Graph) -> bool {
    (ordered: seq<Id>, remaining: Graph) => Progress(g, ordered, remaining) && StrictTotalOn(remaining.Keys, less)
  }

  lemma StartsOut(g: Graph, less: (Id, Id) -> bool)
    requires StrictTotalOn(g.Keys, less)
    ensures OnItsWay(g, less)([], g) && Means(OnItsWay(g, less), g, less)
  {
    assert Listed([]) == {};
    NothingDone(g);
  }

  /** The events whose needs are met, in order, and what waits behind them. */
  method NextLayer(ghost g: Graph, remaining: Graph, less: (Id, Id) -> bool, ghost ordered: seq<Id>,
                   ghost inv: (seq<Id>, Graph) -> bool, ghost rest: Graph -> seq<Id>)
    returns (ready: seq<Id>, after: Graph)
    requires Means(inv, g, less) && Unfolds(rest, less)
    requires inv(ordered, remaining) && Free(remaining) != {}
    ensures inv(ordered + ready, after) && after.Keys < remaining.Keys
    ensures rest(remaining) == ready + rest(after)
  {
    assert MeansAt(inv, g, less, ordered, remaining) && RestAt(rest, less, remaining);
    ready := Sorted(Free(remaining), less);
    assert Listed(ready) == Free(remaining);
    after := ReleaseLayer(g, remaining, ready, ordered);
    assert after == Waiting(remaining, Free(remaining));
    var x :| x in Free(remaining);
    assert x in remaining.Keys && x !in after.Keys;
    assert MeansAt(inv, g, less, ordered + ready, after);
  }

  method ReleaseAll(dependencies: Graph, less: (Id, Id) -> bool, ghost inv: (seq<Id>, Graph) -> bool, ghost rest: Graph -> seq<Id>)
    returns (r: Option<seq<Id>>)
    requires Means(inv, dependencies, less) && Unfolds(rest, less)
    requires Closed(dependencies) && inv([], dependencies)
    ensures r.Some? ==> Topological(dependencies, dependencies.Keys, r.value) && r.value == rest(dependencies)
    ensures r.None? <==> HasCycle(dependencies)
  {
    var ordered: seq<Id> := [];
    var remaining := dependencies;
    while remaining != map[]
      invariant inv(ordered, remaining) && ordered + rest(remaining) == rest(dependencies)
      decreases remaining.Keys
    {
      if Free(remaining) == {} {
        NothingIsFree(dependencies, less, inv, ordered, remaining);
        return None;
      }
      var ready, after := NextLayer(dependencies, remaining, less, ordered, inv, rest);
      ordered, remaining := ordered + ready, after;
    }
    Finished(dependencies, less, inv, ordered);
    NothingRests(rest, less);
    return Some(ordered);
  }

  /**
   * Releases lifecycle events layer by layer: every event whose needs are met, in the
   * given order, until none is left or none can be released.
   */
  method LayeredOrder(dependencies: Graph, less: (Id, Id) -> bool) returns (r: Option<seq<Id>>)
    requires Closed(dependencies) && StrictTotalOn(dependencies.Keys, less)
    ensures r.Some? ==> Topological(dependencies, dependencies.Keys, r.value)
    ensures r.Some? ==> r.value == Layers(dependencies, less)
    ensures r.None? <==> HasCycle(dependencies)
  {
    LayersUnfold(less);
    StartsOut(dependencies, less);
    r := ReleaseAll(dependencies, less, OnItsWay(dependencies, less), LayersBy(less));
  }

  lemma NothingIsFree(g: Graph, less: (Id, Id) -> bool, inv: (seq<Id>, Graph) -> bool, ordered: seq<Id>, remaining: Graph)
    requires Closed(g) && Means(inv, g, less) && inv(ordered, remaining) && remaining != map[] && Free(remaining) == {}
    ensures HasCycle(g)
  {
    assert MeansAt(inv, g, less, ordered, remaining);
    forall x | x in remaining ensures remaining[x] != {} { assert x !in Free(remaining); }
    NothingFree(g, Listed(ordered));
  }

  lemma Finished(g: Graph, less: (Id, Id) -> bool, inv: (seq<Id>, Graph) -> bool, ordered: seq<Id>)
    requires Means(inv, g, less) && inv(ordered, map[])
    ensures Topological(g, g.Keys, ordered) && !HasCycle(g)
  {
    assert MeansAt(inv, g, less, ordered, map[]);
    AllListed(g, ordered);
    TopologicalIsAcyclic(g, ordered);
  }

  lemma AllListed(g: Graph, ordered: seq<Id>)
    requires Progress(g, ordered, map[])
    ensures Listed(ordered) == g.Keys
  {
    forall x | x in g ensures x in Listed(ordered) { assert x !in Waiting(g, Listed(ordered)); }
  }

  lemma NothingFree(g: Graph, done: set<Id>)
    requires Closed(g) && Waiting(g, done) != map[]
    requires forall x :: x in Waiting(g, done) ==> Waiting(g, done)[x] != {}
    ensures HasCycle(g)
  {
    var stuck := Waiting(g, done).Keys;
    forall x | x in stuck ensures g[x] * stuck != {} {
      var y :| y in Waiting(g, done)[x];
      assert y in g[x] * stuck;
    }
    assert stuck == {} ==> Waiting(g, done) == map[];
    StuckHasCycle(g, stuck);
  }
}
