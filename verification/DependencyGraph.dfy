// Dependency graphs over event identifiers, as both replay orderings use them.

module DependencyGraph {
  import opened Basics

  datatype Id = Id(text: nat)     // a canonical UUID or memory id; only identity and text order matter
  type Graph = map<Id, set<Id>>   // each node with the nodes it has to follow

  /** Going round `c`, every node has to follow the next one. */
  ghost predicate Cycle(g: Graph, c: seq<Id>) {
    && |c| > 0
    && forall i :: 0 <= i < |c| ==> c[i] in g && c[if i + 1 == |c| then 0 else i + 1] in g[c[i]]
  }

  ghost predicate HasCycle(g: Graph) {
    exists c :: Cycle(g, c)
  }

  /** Every dependency is itself a node. */
  ghost predicate Closed(g: Graph) {
    forall x, y :: x in g && y in g[x] ==> y in g
  }

  /** `order` lists `nodes` once each, and each of them after everything it has to follow. */
  ghost predicate Topological(g: Graph, nodes: set<Id>, order: seq<Id>)
    requires nodes <= g.Keys
  {
    && NoDuplicates(order)
    && (forall x :: x in order <==> x in nodes)
    && (forall i :: 0 <= i < |order| ==> g[order[i]] <= Listed(order[..i]))
  }

  function Listed(s: seq<Id>): (r: set<Id>) {
    set x | x in s
  }

  /** Going round a cycle, a rank that falls along every dependency would fall below itself. */
  lemma {:induction false} RankFalls(g: Graph, rank: map<Id, nat>, c: seq<Id>, k: nat)
    requires g.Keys <= rank.Keys && Cycle(g, c) && k <= |c|
    requires forall x, y :: x in g && y in g[x] ==> y in rank && rank[y] < rank[x]
    ensures var here := c[if k == |c| then 0 else k]; here in rank && rank[here] + k <= rank[c[0]]
  {
    if k > 0 {
      RankFalls(g, rank, c, k - 1);
      assert c[if k == |c| then 0 else k] in g[c[k - 1]];
    }
  }

  lemma RankedIsAcyclic(g: Graph, rank: map<Id, nat>)
    requires g.Keys <= rank.Keys
    requires forall x, y :: x in g && y in g[x] ==> y in rank && rank[y] < rank[x]
    ensures !HasCycle(g)
  {
    forall c | Cycle(g, c) ensures false { RankFalls(g, rank, c, |c|); }
  }

  function Positions(order: seq<Id>): (r: map<Id, nat>)
    requires NoDuplicates(order)
    ensures forall i :: 0 <= i < |order| ==> order[i] in r && r[order[i]] == i
    ensures forall x :: x in r <==> x in order
  {
    if order == [] then map[] else Positions(order[..|order| - 1])[order[|order| - 1] := |order| - 1]
  }

  /** A graph that can be listed in dependency order has no cycle. */
  lemma TopologicalIsAcyclic(g: Graph, order: seq<Id>)
    requires Topological(g, g.Keys, order)
    ensures !HasCycle(g)
  {
    var rank := Positions(order);
    forall x, y | x in g && y in g[x] ensures y in rank && rank[y] < rank[x] {
      var i :| 0 <= i < |order| && order[i] == x;
      assert y in Listed(order[..i]);
    }
    RankedIsAcyclic(g, rank);
  }

  /** When every node of a set still waits for another one of the set, there is a cycle. */
  lemma StuckHasCycle(g: Graph, stuck: set<Id>)
    requires stuck != {} && stuck <= g.Keys
    requires forall x :: x in stuck ==> g[x] * stuck != {}
    ensures HasCycle(g)
  {
    var start :| start in stuck;
    WalkCloses(g, stuck, [start]);
  }

  lemma {:induction false} WalkCloses(g: Graph, stuck: set<Id>, walk: seq<Id>)
    requires stuck <= g.Keys && |walk| > 0 && NoDuplicates(walk)
    requires forall x :: x in stuck ==> g[x] * stuck != {}
    requires forall x :: x in walk ==> x in stuck
    requires forall i :: 0 <= i < |walk| - 1 ==> walk[i + 1] in g[walk[i]]
    ensures HasCycle(g)
    decreases |stuck| - |walk|
  {
    DistinctFits(walk, stuck);
    var last := walk[|walk| - 1];
    assert last in walk && g[last] * stuck != {};
    var next :| next in g[last] * stuck;
    if next in walk {
      var j :| 0 <= j < |walk| && walk[j] == next;
      assert Cycle(g, walk[j..]);
    } else {
      DistinctFits(walk + [next], stuck);
      WalkCloses(g, stuck, walk + [next]);
    }
  }
}
