// The store's replay: events are grouped, each group is put in order, and the result is
// applied to cleared tables. Append applies one event to the tables it finds.

module Replay {
  import opened Basics
  import opened DependencyGraph
  import opened Projection
  import opened Rebuild
  import RebuildAgrees
  import ReplayOrder

  datatype ReplayError =
    | DuplicateMemory | SupersessionCycle | DuplicateRehydration | MissingPredecessor | LifecycleCycle | Refused
    | PayloadEvicted     // reading the segments stops at an evicted payload that is needed or of another class

  ghost predicate DistinctIds(events: seq<Event>) {
    forall i, j :: 0 <= i < j < |events| ==> events[i].id != events[j].id
  }

  function InGroup(events: seq<Event>, g: nat): (r: seq<Event>)
    ensures forall e :: e in r <==> e in events && Group(e.kind) == g
  {
    if events == [] then []
    else
      var front := InGroup(events[..|events| - 1], g);
      var e := events[|events| - 1];
      assert forall x :: x in events <==> x in events[..|events| - 1] || x == e;
      if Group(e.kind) == g then front + [e] else front
  }

  function ById(events: seq<Event>): (r: map<Id, Event>)
    requires DistinctIds(events)
    ensures r.Keys == set e | e in events :: e.id
    ensures forall e :: e in events ==> r[e.id] == e
    ensures forall id :: id in r ==> r[id] in events && r[id].id == id
  {
    map e | e in events :: e.id := e
  }

  // -- superseding commits --

  predicate MemoriesDistinct(commits: seq<Event>)
    requires forall e :: e in commits ==> e.kind.Commit?
  {
    forall i, j :: 0 <= i < j < |commits| ==> commits[i].kind.memory != commits[j].kind.memory
  }

  function ByMemory(commits: seq<Event>): (r: map<Id, Event>)
    requires forall e :: e in commits ==> e.kind.Commit?
    requires MemoriesDistinct(commits)
    ensures forall m :: m in r ==> r[m] in commits && r[m].kind.memory == m
    ensures forall e :: e in commits ==> e.kind.memory in r && r[e.kind.memory] == e
  {
    map e | e in commits :: e.kind.memory := e
  }

  function Supersessions(commits: seq<Event>): (r: ReplayOrder.Commits)
    requires forall e :: e in commits ==> e.kind.Commit?
    requires MemoriesDistinct(commits)
    ensures r.Keys == ByMemory(commits).Keys
  {
    map m | m in ByMemory(commits) :: ByMemory(commits)[m].kind.supersedes
  }

  // -- blob lifecycle events --

  /** Each tombstone with the event that rehydrated it. */
  function Consumers(lifecycle: seq<Event>): (r: map<Id, Id>)
    requires RehydrationsDistinct(lifecycle)
    ensures forall t :: t in r ==> exists e :: e in lifecycle && Rehydrates(e, t) && e.id == r[t]
    ensures forall e, t :: e in lifecycle && Rehydrates(e, t) ==> t in r && r[t] == e.id
  {
    map e | e in lifecycle && e.kind.Lifecycle? && e.kind.step.Rehydrated? :: e.kind.step.expected := e.id
  }

  predicate RehydrationsDistinct(lifecycle: seq<Event>) {
    forall i, j :: 0 <= i < j < |lifecycle| && lifecycle[i].kind.Lifecycle? && lifecycle[i].kind.step.Rehydrated?
      ==> !Rehydrates(lifecycle[j], lifecycle[i].kind.step.expected)
  }

  function Predecessor(consumers: map<Id, Id>, e: Event): Option<Id>
    requires e.kind.Lifecycle?
  {
    match e.kind.step
    case Rehydrated(expected, _) => Some(expected)
    case Retired(_, previous) =>
      if previous.Some? && previous.value in consumers then Some(consumers[previous.value]) else previous
  }

  predicate PredecessorsPresent(lifecycle: seq<Event>)
    requires forall e :: e in lifecycle ==> e.kind.Lifecycle?
    requires RehydrationsDistinct(lifecycle) && DistinctIds(lifecycle)
  {
    forall e :: e in lifecycle ==>
      var p := Predecessor(Consumers(lifecycle), e); p.Some? ==> p.value in ById(lifecycle)
  }

  function LifecycleGraph(lifecycle: seq<Event>): (g: Graph)
    requires forall e :: e in lifecycle ==> e.kind.Lifecycle?
    requires RehydrationsDistinct(lifecycle) && DistinctIds(lifecycle) && PredecessorsPresent(lifecycle)
    ensures g.Keys == ById(lifecycle).Keys && Closed(g)
  {
    var events := ById(lifecycle);
    map id | id in events ::
      var p := Predecessor(Consumers(lifecycle), events[id]); if p.Some? then {p.value} else {}
  }

  /** The events a replay can put in order at all. */
  ghost predicate Orderable(events: seq<Event>)
    requires DistinctIds(events)
  {
    var commits, lifecycle := InGroup(events, 1), InGroup(events, 6);
    GroupKinds(events, 1);
    GroupKinds(events, 6);
    && MemoriesDistinct(commits)
    && !HasCycle(ReplayOrder.SupersessionGraph(Supersessions(commits)))
    && RehydrationsDistinct(lifecycle)
    && PredecessorsPresent(lifecycle)
    && !HasCycle(LifecycleGraph(lifecycle))
  }

  lemma {:induction false} GroupDistinct(events: seq<Event>, g: nat)
    requires DistinctIds(events)
    ensures DistinctIds(InGroup(events, g))
  {
    if events != [] {
      var front, e := events[..|events| - 1], events[|events| - 1];
      GroupDistinct(front, g);
      forall x | x in InGroup(front, g) ensures x.id != e.id {
        var i :| 0 <= i < |front| && front[i] == x;
        assert events[i] == x;
      }
    }
  }

  lemma GroupKinds(events: seq<Event>, g: nat)
    requires DistinctIds(events)
    ensures DistinctIds(InGroup(events, g))
    ensures NoDuplicates(InGroup(events, g))
    ensures g == 1 ==> forall e :: e in InGroup(events, g) ==> e.kind.Commit?
    ensures g == 3 ==> forall e :: e in InGroup(events, g) ==> e.kind.State?
    ensures g == 6 ==> forall e :: e in InGroup(events, g) ==> e.kind.Lifecycle?
  {
    GroupDistinct(events, g);
  }

  /** `order` is a correct replay order of the events of the first `g` groups. */
  ghost predicate Covers(events: seq<Event>, order: seq<Event>, g: nat) {
    && NoDuplicates(order)
    && (forall e :: e in order <==> e in events && Group(e.kind) < g)
    && Respects(events, order)
  }

  ghost predicate CoversGroup(events: seq<Event>, order: seq<Event>, g: nat) {
    && NoDuplicates(order)
    && (forall e :: e in order <==> e in events && Group(e.kind) == g)
    && Respects(events, order)
  }

  lemma NextGroup(events: seq<Event>, order: seq<Event>, next: seq<Event>, g: nat)
    requires Covers(events, order, g) && CoversGroup(events, next, g)
    ensures Covers(events, order + next, g + 1)
  {
    var both := order + next;
    forall i, j | 0 <= i < j < |both| ensures both[i] != both[j] && !Precedes(events, both[j], both[i]) {
      if i < |order| <= j {
        assert both[i] in order && both[j] in next;
      }
    }
  }

  /** Sorting a group by its own key respects the order inside the group. */
  lemma SortedCovers(events: seq<Event>, sorted: seq<Event>, g: nat)
    requires NoDuplicates(sorted) && (forall e :: e in sorted <==> e in events && Group(e.kind) == g)
    requires g == 0 || g == 2 || g == 3 || g == 4 || g == 5
    requires g == 3 ==> SortedBy(sorted, Below)
    requires g == 2 || g == 4 || g == 5 ==> SortedBy(sorted, Earlier)
    ensures CoversGroup(events, sorted, g)
  {
    forall i, j | 0 <= i < j < |sorted| ensures !Precedes(events, sorted[j], sorted[i]) {
      assert sorted[i] in sorted && sorted[j] in sorted;
    }
  }

  /** The sort key of states, as a relation on all events. */
  predicate Below(a: Event, b: Event) {
    a.kind.State? && b.kind.State? && LowerRevision(a, b)
  }

  lemma EarlierIsTotal(events: seq<Event>, s: set<Event>)
    requires DistinctIds(events) && forall e :: e in s ==> e in events
    ensures StrictTotalOn(s, Earlier)
    ensures (forall e :: e in s ==> e.kind.State?) ==> StrictTotalOn(s, Below)
  {
  }

  /** `order` is the sequence of the events that `ids` names. */
  ghost predicate Picks(ids: seq<Id>, named: map<Id, Event>, order: seq<Event>) {
    && |order| == |ids|
    && forall i :: 0 <= i < |ids| ==> ids[i] in named && order[i] == named[ids[i]]
  }

  lemma PicksAll(ids: seq<Id>, named: map<Id, Event>, order: seq<Event>)
    requires Picks(ids, named, order) && NoDuplicates(ids) && forall x :: x in ids <==> x in named
    requires forall x, y :: x in named && y in named && named[x] == named[y] ==> x == y
    ensures NoDuplicates(order)
    ensures forall e :: e in order <==> e in named.Values
  {
    forall e | e in named.Values ensures e in order {
      var x :| x in named && named[x] == e;
      assert x in ids;
      var i :| 0 <= i < |ids| && ids[i] == x;
      assert order[i] == e;
    }
  }

  lemma NoBackwardEdge(g: Graph, nodes: set<Id>, ids: seq<Id>, i: nat, j: nat)
    requires nodes <= g.Keys && Topological(g, nodes, ids) && i < j < |ids|
    ensures ids[j] !in g[ids[i]]
  {
    assert ids[j] !in Listed(ids[..i]);
  }

  lemma CommitsRespect(events: seq<Event>, memories: seq<Id>, order: seq<Event>)
    requires forall e :: e in InGroup(events, 1) ==> e.kind.Commit?
    requires MemoriesDistinct(InGroup(events, 1))
    requires var g := ReplayOrder.SupersessionGraph(Supersessions(InGroup(events, 1))); Topological(g, g.Keys, memories)
    requires Picks(memories, ByMemory(InGroup(events, 1)), order)
    ensures Respects(events, order)
  {
    var g := ReplayOrder.SupersessionGraph(Supersessions(InGroup(events, 1)));
    forall i, j | 0 <= i < j < |order| ensures !Precedes(events, order[j], order[i]) {
      NoBackwardEdge(g, g.Keys, memories, i, j);
    }
  }

  lemma CommitsCover(events: seq<Event>, memories: seq<Id>, order: seq<Event>)
    requires forall e :: e in InGroup(events, 1) ==> e.kind.Commit?
    requires MemoriesDistinct(InGroup(events, 1))
    requires var g := ReplayOrder.SupersessionGraph(Supersessions(InGroup(events, 1))); Topological(g, g.Keys, memories)
    requires Picks(memories, ByMemory(InGroup(events, 1)), order)
    ensures CoversGroup(events, order, 1)
  {
    CommitsRespect(events, memories, order);
    var named := ByMemory(InGroup(events, 1));
    PicksAll(memories, named, order);
    forall e | e in InGroup(events, 1) ensures e in named.Values { assert named[e.kind.memory] == e; }
  }

  lemma NeedIsEdge(events: seq<Event>, b: Event, a: Event)
    requires DistinctIds(events)
    requires forall e :: e in InGroup(events, 6) ==> e.kind.Lifecycle?
    requires DistinctIds(InGroup(events, 6)) && RehydrationsDistinct(InGroup(events, 6))
    requires PredecessorsPresent(InGroup(events, 6))
    requires a in InGroup(events, 6) && b in InGroup(events, 6) && Needs(events, b, a)
    ensures a.id in LifecycleGraph(InGroup(events, 6))[b.id]
  {
    var lifecycle := InGroup(events, 6);
    assert ById(lifecycle)[b.id] == b;
    if b.kind.step.Retired? {
      var t := b.kind.step.previous.value;
      if exists r :: r in events && Rehydrates(r, t) {
        assert Consumers(lifecycle)[t] == a.id;
      } else {
        assert t !in Consumers(lifecycle);
      }
    }
  }

  ghost predicate LifecycleOrderable(events: seq<Event>) {
    && DistinctIds(events)
    && (forall e :: e in InGroup(events, 6) ==> e.kind.Lifecycle?)
    && DistinctIds(InGroup(events, 6))
    && RehydrationsDistinct(InGroup(events, 6))
    && PredecessorsPresent(InGroup(events, 6))
  }

  lemma NoEdgeNoNeed(events: seq<Event>, a: Event, b: Event)
    requires LifecycleOrderable(events)
    requires a in InGroup(events, 6) && b in InGroup(events, 6)
    requires a.id !in LifecycleGraph(InGroup(events, 6))[b.id]
    ensures !Needs(events, b, a)
  {
    if Needs(events, b, a) { NeedIsEdge(events, b, a); }
  }

  lemma NoNeedNoPrecedence(events: seq<Event>, a: Event, b: Event)
    requires a.kind.Lifecycle? && b.kind.Lifecycle? && !Needs(events, b, a)
    ensures !Precedes(events, a, b)
  {
  }

  lemma LifecycleCovers(events: seq<Event>, ids: seq<Id>, order: seq<Event>)
    requires LifecycleOrderable(events)
    requires var g := LifecycleGraph(InGroup(events, 6)); Topological(g, g.Keys, ids)
    requires Picks(ids, ById(InGroup(events, 6)), order)
    ensures CoversGroup(events, order, 6)
  {
    var named := ById(InGroup(events, 6));
    forall i, j | 0 <= i < j < |order| ensures !Precedes(events, order[j], order[i]) {
      NoBackwardEdge(LifecycleGraph(InGroup(events, 6)), named.Keys, ids, i, j);
      NoEdgeNoNeed(events, order[j], order[i]);
      NoNeedNoPrecedence(events, order[j], order[i]);
    }
    PicksAll(ids, named, order);
    forall e | e in InGroup(events, 6) ensures e in named.Values { assert named[e.id] == e; }
  }
}
