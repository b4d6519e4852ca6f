// A log built by accepted appends can always be put in replay order: its commits and its
// blob lifecycle events have no duplicates, no gaps and no cycles.

module ReplaySucceeds {
  import opened Basics
  import opened DependencyGraph
  import opened Projection
  import opened Rebuild
  import opened Replay
  import opened RebuildAgrees
  import ReplayOrder

  function IndexOf(s: seq<Event>, e: Event): (i: nat)
    requires e in s
    ensures i < |s| && s[i] == e
  {
    if s[0] == e then 0 else 1 + IndexOf(s[1..], e)
  }

  /** After an event that touches it, a row is there. */
  lemma RowIsThere(s: seq<Event>, k: Key, i: nat)
    requires Follow(s, k).Some? && 0 < i <= |s| && k in Touched(s[i - 1])
    ensures Follow(s[..i], k).Some? && Follow(s[..i], k).value.Some?
  {
    FollowStep(s, k, i - 1);
  }

  lemma CommitNeedsNoRow(s: seq<Event>, m: Id, i: nat)
    requires Follow(s, MemoryItem(m)).Some? && i < |s| && s[i].kind.Commit? && s[i].kind.memory == m
    requires MemoryItem(m) in Touched(s[i])
    ensures Follow(s[..i], MemoryItem(m)) == Some(None)
  {
    FollowStep(s, MemoryItem(m), i);
  }

  lemma FirstOwnCommit(log: seq<Event>, m: Id, e: Event)
    requires Accepted(log) && e in log && e.kind.Commit? && e.kind.memory == m
    ensures e in On(log, MemoryItem(m)) && On(log, MemoryItem(m))[0] == e
  {
    var k := MemoryItem(m);
    var s := On(log, k);
    AcceptedIsDistinct(log, k);
    assert k in Touched(e) && e in s;
    var i :| 0 <= i < |s| && s[i] == e;
    CommitNeedsNoRow(s, m, i);
    if i > 0 {
      assert s[i - 1] in s;
      RowIsThere(s, k, i);
    }
  }

  lemma SupersededIsEarlier(log: seq<Event>, e: Event, target: Event)
    requires Accepted(log) && e in log && target in log && e.kind.Commit? && target.kind.Commit?
    requires e.kind.supersedes == Some(target.kind.memory)
    ensures IndexOf(log, target) < IndexOf(log, e)
  {
    var k := MemoryItem(target.kind.memory);
    var s := On(log, k);
    AcceptedIsDistinct(log, k);
    FirstOwnCommit(log, target.kind.memory, target);
    assert e in s;
    var j :| 0 <= j < |s| && s[j] == e;
    FollowStep(s, k, j);
    if j > 0 {
      var a, b := OnInOrder(log, k, 0, j);
    }
  }

  lemma MemoriesAreDistinct(log: seq<Event>, commits: seq<Event>)
    requires Accepted(log) && NoDuplicates(commits)
    requires forall e :: e in commits ==> e in log && e.kind.Commit?
    ensures MemoriesDistinct(commits)
  {
    forall i, j | 0 <= i < j < |commits| ensures commits[i].kind.memory != commits[j].kind.memory {
      assert commits[i] in commits && commits[j] in commits;
      FirstOwnCommit(log, commits[i].kind.memory, commits[i]);
      FirstOwnCommit(log, commits[j].kind.memory, commits[j]);
    }
  }

  function Places(log: seq<Event>, named: map<Id, Event>): (r: map<Id, nat>)
    requires forall x :: x in named ==> named[x] in log
  {
    map x | x in named :: IndexOf(log, named[x])
  }

  lemma SupersessionEdge(log: seq<Event>, commits: seq<Event>, x: Id, y: Id)
    requires Accepted(log)
    requires forall e :: e in commits ==> e in log && e.kind.Commit?
    requires MemoriesDistinct(commits)
    requires x in ByMemory(commits) && y in ReplayOrder.SupersessionGraph(Supersessions(commits))[x]
    ensures y in ByMemory(commits) && IndexOf(log, ByMemory(commits)[y]) < IndexOf(log, ByMemory(commits)[x])
  {
    var named := ByMemory(commits);
    SupersededIsEarlier(log, named[x], named[y]);
  }

  lemma CommitsAreAcyclic(log: seq<Event>, commits: seq<Event>)
    requires Accepted(log)
    requires forall e :: e in commits ==> e in log && e.kind.Commit?
    requires MemoriesDistinct(commits)
    ensures !HasCycle(ReplayOrder.SupersessionGraph(Supersessions(commits)))
  {
    var named := ByMemory(commits);
    var rank := Places(log, named);
    var g := ReplayOrder.SupersessionGraph(Supersessions(commits));
    forall x, y | x in g && y in g[x] ensures y in rank && rank[y] < rank[x] {
      SupersessionEdge(log, commits, x, y);
    }
    RankedIsAcyclic(g, rank);
  }

  lemma {:induction false} LifecycleInOrder(log: seq<Event>, d: Id, i: nat, j: nat) returns (a: nat, b: nat)
    requires i < j < |LifecycleOf(log, d)|
    ensures a < b < |log| && log[a] == LifecycleOf(log, d)[i] && log[b] == LifecycleOf(log, d)[j]
  {
    var front, e := log[..|log| - 1], log[|log| - 1];
    if j < |LifecycleOf(front, d)| {
      a, b := LifecycleInOrder(front, d, i, j);
    } else {
      assert LifecycleOf(log, d)[i] in front;
      a :| 0 <= a < |front| && front[a] == LifecycleOf(log, d)[i];
      b := |log| - 1;
    }
  }

  ghost predicate LinkedLog(log: seq<Event>) {
    && FreshIds(log)
    && (forall d :: NoDuplicates(LifecycleOf(log, d)))
    && (forall d :: Linked(LifecycleOf(log, d)))
  }

  /** Both rehydrations of a tombstone would be the lifecycle event right after it. */
  lemma OneRehydration(log: seq<Event>, a: Event, b: Event, t: Id)
    requires LinkedLog(log) && a in log && b in log && Rehydrates(a, t) && Rehydrates(b, t)
    ensures a == b
  {
    var s, u := LifecycleOf(log, a.kind.digest), LifecycleOf(log, b.kind.digest);
    assert a in s && b in u;
    var i :| 0 <= i < |s| && s[i] == a;
    var j :| 0 <= j < |u| && u[j] == b;
    assert LinkedAt(s, i) && LinkedAt(u, j);
    assert s[i - 1] in s && u[j - 1] in u;
    assert s[i - 1] == u[j - 1] && s == u;
  }

  /** A retirement behind a retirement: nobody has rehydrated the one before. */
  lemma NotConsumed(log: seq<Event>, lifecycle: seq<Event>, d: Id, i: nat)
    requires LinkedLog(log) && i + 1 < |LifecycleOf(log, d)| && Retires(LifecycleOf(log, d)[i + 1])
    requires forall e :: e in lifecycle <==> e in log && e.kind.Lifecycle?
    requires RehydrationsDistinct(lifecycle)
    ensures LifecycleOf(log, d)[i].id !in Consumers(lifecycle)
  {
    var t := LifecycleOf(log, d)[i].id;
    forall r | r in lifecycle ensures !Rehydrates(r, t) {
      if Rehydrates(r, t) { RehydrationIsNext(log, d, i, r); }
    }
  }

  /** The event a lifecycle event waits for is the one before it in its blob's history. */
  lemma PredecessorIsPrevious(log: seq<Event>, lifecycle: seq<Event>, d: Id, i: nat)
    requires LinkedLog(log) && i < |LifecycleOf(log, d)|
    requires forall e :: e in lifecycle <==> e in log && e.kind.Lifecycle?
    requires RehydrationsDistinct(lifecycle)
    ensures Predecessor(Consumers(lifecycle), LifecycleOf(log, d)[i])
         == if i == 0 then None else Some(LifecycleOf(log, d)[i - 1].id)
  {
    var s := LifecycleOf(log, d);
    var e := s[i];
    assert LinkedAt(s, i);
    if e.kind.step.Retired? && i > 0 {
      assert s[i - 1] in s;
      if Retires(s[i - 1]) {
        NotConsumed(log, lifecycle, d, i - 1);
      } else {
        assert Rehydrates(s[i - 1], s[i - 1].kind.step.expected);
      }
    }
  }

  lemma RehydrationsAreDistinct(log: seq<Event>, lifecycle: seq<Event>)
    requires LinkedLog(log) && NoDuplicates(lifecycle)
    requires forall e :: e in lifecycle <==> e in log && e.kind.Lifecycle?
    ensures RehydrationsDistinct(lifecycle)
  {
    forall i, j | 0 <= i < j < |lifecycle| && lifecycle[i].kind.Lifecycle? && lifecycle[i].kind.step.Rehydrated?
      ensures !Rehydrates(lifecycle[j], lifecycle[i].kind.step.expected)
    {
      assert lifecycle[i] in lifecycle && lifecycle[j] in lifecycle;
      if Rehydrates(lifecycle[j], lifecycle[i].kind.step.expected) {
        OneRehydration(log, lifecycle[i], lifecycle[j], lifecycle[i].kind.step.expected);
      }
    }
  }

  lemma {:induction false} IndexIsPosition(s: seq<Event>, i: nat)
    requires NoDuplicates(s) && i < |s|
    ensures IndexOf(s, s[i]) == i
  {
  }

  lemma PreviousIsEarlier(log: seq<Event>, d: Id, i: nat)
    requires NoDuplicates(log) && 0 < i < |LifecycleOf(log, d)|
    ensures LifecycleOf(log, d)[i - 1] in log && LifecycleOf(log, d)[i] in log
    ensures IndexOf(log, LifecycleOf(log, d)[i - 1]) < IndexOf(log, LifecycleOf(log, d)[i])
  {
    var a, b := LifecycleInOrder(log, d, i - 1, i);
    IndexIsPosition(log, a);
    IndexIsPosition(log, b);
  }

  lemma PredecessorIsEarlier(log: seq<Event>, lifecycle: seq<Event>, e: Event) returns (before: Event)
    requires LinkedLog(log) && NoDuplicates(log) && RehydrationsDistinct(lifecycle)
    requires forall x :: x in lifecycle <==> x in log && x.kind.Lifecycle?
    requires e in lifecycle && Predecessor(Consumers(lifecycle), e).Some?
    ensures before in lifecycle && Predecessor(Consumers(lifecycle), e) == Some(before.id)
    ensures IndexOf(log, before) < IndexOf(log, e)
  {
    var d := e.kind.digest;
    var s := LifecycleOf(log, d);
    assert e in s;
    var i :| 0 <= i < |s| && s[i] == e;
    assert i > 0 && Predecessor(Consumers(lifecycle), e) == Some(s[i - 1].id) by {
      PredecessorIsPrevious(log, lifecycle, d, i);
    }
    before := s[i - 1];
    assert before in s;
    PreviousIsEarlier(log, d, i);
  }

  ghost predicate IsLifecycle(log: seq<Event>, lifecycle: seq<Event>) {
    && LinkedLog(log) && NoDuplicates(log) && DistinctIds(lifecycle)
    && (forall x :: x in lifecycle <==> x in log && x.kind.Lifecycle?)
  }

  lemma PredecessorsArePresent(log: seq<Event>, lifecycle: seq<Event>)
    requires IsLifecycle(log, lifecycle) && RehydrationsDistinct(lifecycle)
    ensures PredecessorsPresent(lifecycle)
  {
    forall e | e in lifecycle && Predecessor(Consumers(lifecycle), e).Some?
      ensures Predecessor(Consumers(lifecycle), e).value in ById(lifecycle)
    {
      var before := PredecessorIsEarlier(log, lifecycle, e);
    }
  }

  lemma LifecycleEdge(log: seq<Event>, lifecycle: seq<Event>, x: Id, y: Id)
    requires IsLifecycle(log, lifecycle) && RehydrationsDistinct(lifecycle) && PredecessorsPresent(lifecycle)
    requires x in ById(lifecycle) && y in LifecycleGraph(lifecycle)[x]
    ensures y in ById(lifecycle) && IndexOf(log, ById(lifecycle)[y]) < IndexOf(log, ById(lifecycle)[x])
  {
    var before := PredecessorIsEarlier(log, lifecycle, ById(lifecycle)[x]);
  }

  lemma LifecycleIsAcyclic(log: seq<Event>, lifecycle: seq<Event>)
    requires IsLifecycle(log, lifecycle) && RehydrationsDistinct(lifecycle) && PredecessorsPresent(lifecycle)
    ensures !HasCycle(LifecycleGraph(lifecycle))
  {
    var rank := Places(log, ById(lifecycle));
    var g := LifecycleGraph(lifecycle);
    forall x, y | x in g && y in g[x] ensures y in rank && rank[y] < rank[x] {
      LifecycleEdge(log, lifecycle, x, y);
    }
    RankedIsAcyclic(g, rank);
  }

  lemma CommitsOrderable(log: seq<Event>, commits: seq<Event>)
    requires Accepted(log) && NoDuplicates(commits)
    requires forall e :: e in commits ==> e in log && e.kind.Commit?
    ensures MemoriesDistinct(commits) && !HasCycle(ReplayOrder.SupersessionGraph(Supersessions(commits)))
  {
    MemoriesAreDistinct(log, commits);
    CommitsAreAcyclic(log, commits);
  }

  lemma LifecycleOrderableToo(log: seq<Event>, lifecycle: seq<Event>)
    requires Accepted(log) && (forall d :: Linked(LifecycleOf(log, d))) && NoDuplicates(lifecycle) && DistinctIds(lifecycle)
    requires forall e :: e in lifecycle <==> e in log && e.kind.Lifecycle?
    ensures RehydrationsDistinct(lifecycle) && PredecessorsPresent(lifecycle) && !HasCycle(LifecycleGraph(lifecycle))
  {
    AcceptedIsDistinct(log, MemoryItem(Id(0)));
    forall d ensures NoDuplicates(LifecycleOf(log, d)) { FiltersKeep(log, log, d); }
    RehydrationsAreDistinct(log, lifecycle);
    PredecessorsArePresent(log, lifecycle);
    LifecycleIsAcyclic(log, lifecycle);
  }

  lemma SameEventsDistinctIds(log: seq<Event>, events: seq<Event>)
    requires FreshIds(log) && Rearranges(events, log)
    ensures DistinctIds(events)
  {
    forall i, j | 0 <= i < j < |events| ensures events[i].id != events[j].id {
      assert events[i] in log && events[j] in log;
    }
  }

  lemma CommitGroup(log: seq<Event>, events: seq<Event>)
    requires Accepted(log) && Rearranges(events, log) && DistinctIds(events)
    ensures forall e :: e in InGroup(events, 1) ==> e.kind.Commit?
    ensures MemoriesDistinct(InGroup(events, 1))
    ensures !HasCycle(ReplayOrder.SupersessionGraph(Supersessions(InGroup(events, 1))))
  {
    GroupKinds(events, 1);
    CommitsOrderable(log, InGroup(events, 1));
  }

  lemma LifecycleGroup(log: seq<Event>, events: seq<Event>)
    requires Accepted(log) && (forall d :: Linked(LifecycleOf(log, d))) && Rearranges(events, log) && DistinctIds(events)
    ensures LifecycleOrderable(events) && !HasCycle(LifecycleGraph(InGroup(events, 6)))
  {
    GroupKinds(events, 6);
    LifecycleOrderableToo(log, InGroup(events, 6));
  }

  /** A replay never fails to find an order for a log that append built. */
  lemma AcceptedIsOrderable(log: seq<Event>, events: seq<Event>)
    requires Accepted(log) && (forall d :: Linked(LifecycleOf(log, d))) && Rearranges(events, log)
    ensures DistinctIds(events) && Orderable(events)
  {
    AcceptedIsDistinct(log, MemoryItem(Id(0)));
    SameEventsDistinctIds(log, events);
    CommitGroup(log, events);
    LifecycleGroup(log, events);
  }
}
