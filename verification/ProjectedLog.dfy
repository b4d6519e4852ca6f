// The projected event log: appending projects one event, rebuilding replays all of them.

module ProjectedLog {
  import opened Basics
  import opened DependencyGraph
  import opened Projection
  import opened Rebuild
  import opened Replay
  import RebuildAgrees
  import RebuildEdges
  import ReplaySucceeds
  import ReplayOrder
  import opened BlobCatalog
  import opened LifecycleLinks
  import opened LogMeaning

  predicate LowerId(a: Id, b: Id) { a.text < b.text }

  /** Puts the commits after the commits they supersede, or reports a repeated memory or a cycle. */
  method OrderCommits(events: seq<Event>, commits: seq<Event>) returns (r: Result<seq<Event>, ReplayError>)
    requires DistinctIds(events) && commits == InGroup(events, 1) && forall e :: e in commits ==> e.kind.Commit?
    ensures r.Ok? ==> CoversGroup(events, r.value, 1)
    ensures r == Err(DuplicateMemory) <==> !MemoriesDistinct(commits)
    ensures r == Err(SupersessionCycle) <==>
              MemoriesDistinct(commits) && HasCycle(ReplayOrder.SupersessionGraph(Supersessions(commits)))
    ensures r.Err? ==> r.error == DuplicateMemory || r.error == SupersessionCycle
  {
    if !MemoriesDistinct(commits) { return Err(DuplicateMemory); }
    var named := ByMemory(commits);
    var visit := new ReplayOrder.SupersessionVisit(Supersessions(commits));
    var memories := visit.Order(LowerId);
    if memories.None? { return Err(SupersessionCycle); }
    var ids := memories.value;
    forall i | 0 <= i < |ids| ensures ids[i] in named { assert ids[i] in ids; }
    var order := seq(|ids|, i requires 0 <= i < |ids| => named[ids[i]]);
    CommitsCover(events, ids, order);
    return Ok(order);
  }

  predicate EarlierIn(named: map<Id, Event>, a: Id, b: Id) {
    a in named && b in named && Earlier(named[a], named[b])
  }

  lemma EarlierInIsTotal(events: seq<Event>)
    requires DistinctIds(events)
    ensures StrictTotalOn(ById(events).Keys, (a: Id, b: Id) => EarlierIn(ById(events), a, b))
  {
  }

  /** Layer by layer, smallest time and id first. */
  method ReleaseLifecycle(g: Graph, earlier: (Id, Id) -> bool) returns (r: Option<seq<Id>>)
    requires Closed(g) && StrictTotalOn(g.Keys, earlier)
    ensures r.Some? ==> Topological(g, g.Keys, r.value)
    ensures r.None? <==> HasCycle(g)
  {
    r := ReplayOrder.LayeredOrder(g, earlier);
  }

  /** Puts the lifecycle events after their predecessors, or reports why that is not possible. */
  method OrderLifecycle(events: seq<Event>, lifecycle: seq<Event>) returns (r: Result<seq<Event>, ReplayError>)
    requires DistinctIds(events) && DistinctIds(lifecycle)
    requires lifecycle == InGroup(events, 6) && forall e :: e in lifecycle ==> e.kind.Lifecycle?
    ensures r.Ok? ==> CoversGroup(events, r.value, 6)
    ensures r == Err(DuplicateRehydration) <==> !RehydrationsDistinct(lifecycle)
    ensures r == Err(MissingPredecessor) <==> RehydrationsDistinct(lifecycle) && !PredecessorsPresent(lifecycle)
    ensures r == Err(LifecycleCycle) <==>
              RehydrationsDistinct(lifecycle) && PredecessorsPresent(lifecycle) && HasCycle(LifecycleGraph(lifecycle))
    ensures r.Err? ==> r.error == DuplicateRehydration || r.error == MissingPredecessor || r.error == LifecycleCycle
  {
    if !RehydrationsDistinct(lifecycle) { return Err(DuplicateRehydration); }
    if !PredecessorsPresent(lifecycle) { return Err(MissingPredecessor); }
    var named := ById(lifecycle);
    var earlier := (a: Id, b: Id) => EarlierIn(named, a, b);
    EarlierInIsTotal(lifecycle);
    var released := ReleaseLifecycle(LifecycleGraph(lifecycle), earlier);
    if released.None? { return Err(LifecycleCycle); }
    var ids := released.value;
    forall i | 0 <= i < |ids| ensures ids[i] in named { assert ids[i] in ids; }
    var order := seq(|ids|, i requires 0 <= i < |ids| => named[ids[i]]);
    LifecycleCovers(events, ids, order);
    return Ok(order);
  }

  function Elements(s: seq<Event>): (r: set<Event>) {
    set e | e in s
  }

  method SortGroup(events: seq<Event>, group: seq<Event>, g: nat) returns (sorted: seq<Event>)
    requires DistinctIds(events) && group == InGroup(events, g)
    requires g == 2 || g == 3 || g == 4 || g == 5
    requires g == 3 ==> forall e :: e in group ==> e.kind.State?
    ensures CoversGroup(events, sorted, g)
  {
    EarlierIsTotal(events, Elements(group));
    if g == 3 {
      sorted := Sorted(Elements(group), Below);
    } else {
      sorted := Sorted(Elements(group), Earlier);
    }
    SortedCovers(events, sorted, g);
  }

  method Partition(events: seq<Event>)
    returns (neutral: seq<Event>, commits: seq<Event>, statuses: seq<Event>, states: seq<Event>,
             terminals: seq<Event>, citations: seq<Event>, lifecycle: seq<Event>)
    ensures neutral == InGroup(events, 0) && commits == InGroup(events, 1) && statuses == InGroup(events, 2)
    ensures states == InGroup(events, 3) && terminals == InGroup(events, 4) && citations == InGroup(events, 5)
    ensures lifecycle == InGroup(events, 6)
  {
    neutral, commits, statuses, states, terminals, citations, lifecycle := [], [], [], [], [], [], [];
    var i := 0;
    while i < |events|
      invariant 0 <= i <= |events|
      invariant neutral == InGroup(events[..i], 0) && commits == InGroup(events[..i], 1)
      invariant statuses == InGroup(events[..i], 2) && states == InGroup(events[..i], 3)
      invariant terminals == InGroup(events[..i], 4) && citations == InGroup(events[..i], 5)
      invariant lifecycle == InGroup(events[..i], 6)
    {
      assert events[..i + 1][..i] == events[..i];
      match events[i].kind {
        case Commit(_, _, _, _) => commits := commits + [events[i]];
        case StatusChange(_, _, _) => statuses := statuses + [events[i]];
        case State(_, _, _, _) => states := states + [events[i]];
        case Terminal(_, _) => terminals := terminals + [events[i]];
        case Citation(_, _) => citations := citations + [events[i]];
        case Lifecycle(_, _, _) => lifecycle := lifecycle + [events[i]];
        case Other(_) => neutral := neutral + [events[i]];
      }
      i := i + 1;
    }
    assert events[..i] == events;
  }

  lemma ConcatenationCovers(events: seq<Event>, neutral: seq<Event>, commits: seq<Event>, statuses: seq<Event>,
                            states: seq<Event>, terminals: seq<Event>, citations: seq<Event>, lifecycle: seq<Event>)
    requires DistinctIds(events)
    requires CoversGroup(events, neutral, 0) && CoversGroup(events, commits, 1) && CoversGroup(events, statuses, 2)
    requires CoversGroup(events, states, 3) && CoversGroup(events, terminals, 4)
    requires CoversGroup(events, citations, 5) && CoversGroup(events, lifecycle, 6)
    ensures IsReplayOrder(events, neutral + commits + statuses + states + terminals + citations + lifecycle)
  {
    assert Covers(events, neutral, 1);
    NextGroup(events, neutral, commits, 1);
    NextGroup(events, neutral + commits, statuses, 2);
    NextGroup(events, neutral + commits + statuses, states, 3);
    NextGroup(events, neutral + commits + statuses + states, terminals, 4);
    NextGroup(events, neutral + commits + statuses + states + terminals, citations, 5);
    NextGroup(events, neutral + commits + statuses + states + terminals + citations, lifecycle, 6);
  }

  /** The order in which a rebuild applies the events it read, whatever order it read them in. */
  method ProjectionOrder(events: seq<Event>) returns (r: Result<seq<Event>, ReplayError>)
    requires DistinctIds(events)
    ensures r.Ok? ==> IsReplayOrder(events, r.value)
    ensures r.Ok? <==> Orderable(events)
  {
    var neutral, commits, statuses, states, terminals, citations, lifecycle := Partition(events);
    GroupKinds(events, 0);
    GroupKinds(events, 1);
    GroupKinds(events, 3);
    GroupKinds(events, 6);
    var orderedCommits := OrderCommits(events, commits);
    if orderedCommits.Err? { return orderedCommits; }
    statuses := SortGroup(events, statuses, 2);
    states := SortGroup(events, states, 3);
    terminals := SortGroup(events, terminals, 4);
    citations := SortGroup(events, citations, 5);
    var orderedLifecycle := OrderLifecycle(events, lifecycle);
    if orderedLifecycle.Err? { return orderedLifecycle; }
    SortedCovers(events, neutral, 0);
    ConcatenationCovers(events, neutral, orderedCommits.value, statuses, states, terminals, citations,
                        orderedLifecycle.value);
    return Ok(neutral + orderedCommits.value + statuses + states + terminals + citations + orderedLifecycle.value);
  }

  /** Applies one event to every row it touches, or to none when a reducer refuses it. */
  method ApplyEvent(tables: Tables, e: Event) returns (r: Option<Tables>)
    ensures r == Apply(tables, e)
  {
    var todo := Touched(e);
    var next := tables;
    while todo != {}
      invariant todo <= Touched(e)
      invariant forall k :: k in Touched(e) - todo ==> Write(Lookup(tables, k), e, k).Some?
      invariant next == tables + map k | k in Touched(e) - todo :: Write(Lookup(tables, k), e, k).value
    {
      var k :| k in todo;
      var written := Write(Lookup(tables, k), e, k);
      if written.None? { return None; }
      next := next[k := written.value];
      todo := todo - {k};
      assert next == tables + map x | x in Touched(e) - todo :: Write(Lookup(tables, x), e, x).value;
    }
    assert Touched(e) - todo == Touched(e);
    return Some(next);
  }

  lemma EvictedNow(log: seq<Event>, e: Event, d: Id)
    ensures EvictedAs(log + [e], d) == if e.kind.Lifecycle? && e.kind.digest == d then EvictedBy([e]) else EvictedAs(log, d)
  {
    assert (log + [e])[..|log|] == log;
  }

  /** The event of a retirement: the row's class, and the latest receipt as the predecessor. */
  function RetireEvent(digest: Id, row: Cell, to: Availability, previous: Option<Event>, id: Id, at: nat, scope: Id): (e: Event)
    requires row.Row?
    ensures e.kind.Lifecycle? && e.blob.None? && e.id == id && e.at == at
  {
    Event(id, at, scope, Core, None,
          Lifecycle(digest, row.retention, Step.Retired(to, if previous.Some? then Some(previous.value.id) else None)))
  }

  function RehydrateEvent(digest: Id, row: Cell, expected: Id, id: Id, at: nat, scope: Id): (e: Event)
    requires row.Row?
    ensures e.kind.Lifecycle? && e.blob.None? && e.id == id && e.at == at
  {
    Event(id, at, scope, Core, None, Lifecycle(digest, row.retention, Rehydrated(expected, row.references)))
  }

  /** What the planner decides about: hot blobs are archived, hot and archived ones evicted. */
  predicate Retirable(row: Option<Cell>, to: Availability) {
    row.Some? && row.value.Row? && row.value.availability != Evicted && (to == Archived ==> row.value.availability == Hot)
  }

  lemma LifecycleApplies(t: Tables, e: Event, d: Id)
    requires e.kind.Lifecycle? && e.kind.digest == d && e.blob.None?
    ensures Apply(t, e).Some? <==> WriteLifecycle(Lookup(t, Blob(d)), e.kind).Some?
  {
    assert Touched(e) == {Blob(d)};
    assert Write(Lookup(t, Blob(d)), e, Blob(d)) == WriteLifecycle(Lookup(t, Blob(d)), e.kind);
  }

  /** One more event: it is the latest receipt, or the latest one stays. */
  lemma LatestNext(log: seq<Event>, digest: Id, i: nat, r: Option<Event>)
    requires Accepted(log) && i < |log| && NamesReceipt(log[..i], digest, r)
    ensures var e := log[i];
            if e.kind.Lifecycle? && e.kind.digest == digest && Retires(e) && (r.None? || Earlier(r.value, e))
            then IsLatest(LifecycleOf(log[..i + 1], digest), e)
            else NamesReceipt(log[..i + 1], digest, r)
  {
    var e, life := log[i], LifecycleOf(log[..i], digest);
    assert log[..i + 1][..i] == log[..i];
    assert LifecycleOf(log[..i + 1], digest) == if e.kind.Lifecycle? && e.kind.digest == digest then life + [e] else life;
    forall x | x in life ensures x.id != e.id {
      var k :| 0 <= k < i && log[..i][k] == x;
    }
    LaterOf(life, e, r);
  }

  lemma LaterOf(life: seq<Event>, e: Event, r: Option<Event>)
    requires if r.None? then NoReceipt(life) else IsLatest(life, r.value)
    requires forall x :: x in life ==> x.id != e.id
    ensures if Retires(e) && (r.None? || Earlier(r.value, e)) then IsLatest(life + [e], e)
            else if r.None? then NoReceipt(life + [e]) else IsLatest(life + [e], r.value)
  {
    forall x | x in life + [e] ensures x in life || x == e { }
    if r.Some? { assert r.value in life + [e]; }
  }

  class Store {
    var log: seq<Event>            // the canonical events, in the order they were appended
    var tables: Tables
    var evicted: map<Id, Class>    // blobs whose bytes are gone, with the class on their latest receipt

    ghost predicate Valid()
      reads this
    {
      && Stored(log) && Run(log) == Some(tables)
      && forall d :: EvictedAs(log, d) == if d in evicted then Some(evicted[d]) else None
    }

    constructor ()
      ensures Valid() && log == [] && Tells(log, tables)
    {
      log, tables, evicted := [], map[], map[];
      new;
      TablesTellTheLog(log);
    }

    /** The tables of a valid store say what its log says. */
    lemma ValidTells()
      requires Valid()
      ensures Tells(log, tables)
    {
      TablesTellTheLog(log);
    }

    /** Logs and projects an event with a new id that every reducer accepts. */
    method Record(e: Event) returns (ok: bool)
      requires Valid() && Admits(tables, e)
      requires e.kind.Lifecycle? ==> e.blob.None? && NamesLatest(LifecycleOf(log, e.kind.digest), e)
      modifies this
      ensures Valid()
      ensures ok <==> Accepted(old(log) + [e])
      ensures log == if ok then old(log) + [e] else old(log)
      ensures !ok ==> tables == old(tables)
    {
      AcceptedNext(log, e, tables);
      if exists i :: 0 <= i < |log| && log[i].id == e.id { return false; }
      var next := ApplyEvent(tables, e);
      if next.None? { return false; }
      StoredNext(log, e);
      forall d ensures EvictedAs(log + [e], d) ==
                       if e.kind.Lifecycle? && e.kind.digest == d then EvictedBy([e]) else EvictedAs(log, d) {
        EvictedNow(log, e, d);
      }
      log, tables := log + [e], next.value;
      if e.kind.Lifecycle? {
        if e.kind.step.Retired? && e.kind.step.to == Evicted {
          evicted := evicted[e.kind.digest := e.kind.retention];
        } else {
          evicted := evicted - {e.kind.digest};
        }
      }
      return true;
    }

    /** Takes an event exactly when its id is new, its payload is not that of an evicted blob, and the log has
        what its kind needs; then logs and projects it. */
    method Append(e: Event) returns (ok: bool)
      requires Valid()
      modifies this
      ensures Valid() && Tells(log, tables)
      ensures ok <==> Takes(old(log), e)
      ensures log == if ok then old(log) + [e] else old(log)
      ensures !ok ==> tables == old(tables)
    {
      ValidTells();
      if e.kind.Lifecycle? { return false; }
      TakenIff(log, e);
      AcceptedNext(log, e, tables);
      if !Admits(tables, e) { return false; }
      ok := Record(e);
      ValidTells();
    }

    /** The receipt with the greatest time and id. */
    method LatestReceipt(digest: Id) returns (r: Option<Event>)
      requires Accepted(log)
      ensures r.None? ==> NoReceipt(LifecycleOf(log, digest))
      ensures r.Some? ==> IsLatest(LifecycleOf(log, digest), r.value)
    {
      r := None;
      for i := 0 to |log|
        invariant r.None? ==> NoReceipt(LifecycleOf(log[..i], digest))
        invariant r.Some? ==> IsLatest(LifecycleOf(log[..i], digest), r.value)
      {
        var e := log[i];
        LatestNext(log, digest, i, r);
        if e.kind.Lifecycle? && e.kind.digest == digest && Retires(e) && (r.None? || Earlier(r.value, e)) {
          r := Some(e);
        }
      }
      assert log[..|log|] == log;
    }

    /** Archives or evicts a blob: the event names the row's class and the latest receipt. */
    method Retire(digest: Id, to: Availability, id: Id, at: nat, scope: Id) returns (ok: bool)
      requires Valid() && to != Hot
      modifies this
      ensures Valid() && Tells(log, tables)
      ensures ok <==>
                && Lookup(old(tables), Blob(digest)).Some? && Lookup(old(tables), Blob(digest)).value.Row?
                && (var was := Lookup(old(tables), Blob(digest)).value.availability; was == Hot || (was == Archived && to == Evicted))
                && forall i :: 0 <= i < |old(log)| ==> old(log)[i].id != id
      ensures !ok ==> log == old(log) && tables == old(tables)
      ensures ok ==> exists previous :: NamesReceipt(old(log), digest, previous) &&
                       log == old(log) + [Event(id, at, scope, Core, None,
                         Lifecycle(digest, Lookup(old(tables), Blob(digest)).value.retention,
                                   Step.Retired(to, if previous.Some? then Some(previous.value.id) else None)))]
    {
      ValidTells();
      var row := Lookup(tables, Blob(digest));
      if !Retirable(row, to) { return false; }
      var previous := LatestReceipt(digest);
      var e := RetireEvent(digest, row.value, to, previous, id, at, scope);
      AcceptedNext(log, e, tables);
      LifecycleApplies(tables, e, digest);
      assert NamesReceipt(log, digest, previous);
      ok := Record(e);
      ValidTells();
    }

    /** Brings back an evicted blob: the caller names the receipt and all citations; every segment is read
        on the way. */
    method Rehydrate(digest: Id, expected: Id, sources: set<Id>, id: Id, at: nat, scope: Id) returns (ok: bool)
      requires Valid()
      modifies this
      ensures Valid() && Tells(log, tables)
      ensures ok <==> Rehydratable(old(log), old(tables), digest, expected, sources) && forall i :: 0 <= i < |old(log)| ==> old(log)[i].id != id
      ensures !ok ==> log == old(log) && tables == old(tables)
      ensures ok ==> log == old(log) + [Event(id, at, scope, Core, None,
                       Lifecycle(digest, Lookup(old(tables), Blob(digest)).value.retention, Rehydrated(expected, sources)))]
    {
      ValidTells();
      var row := Lookup(tables, Blob(digest));
      if row.None? || !row.value.Row? || row.value.availability != Evicted || sources != row.value.references { return false; }
      var latest := LatestReceipt(digest);
      LatestIsOne(LifecycleOf(log, digest), latest);
      if latest.None? || latest.value.id != expected { return false; }
      var readable := ReadSegments(log);
      if !readable { return false; }
      var e := RehydrateEvent(digest, row.value, expected, id, at, scope);
      AcceptedNext(log, e, tables);
      LifecycleApplies(tables, e, digest);
      ok := Record(e);
      ValidTells();
    }

    /** Reads every payload, in whatever order the segments are found. */
    method ReadSegments(events: seq<Event>) returns (ok: bool)
      requires Valid() && forall e :: e in events <==> e in log
      ensures ok <==> ReadsThrough(log)
    {
      for i := 0 to |events|
        invariant forall k :: 0 <= k < i && events[k].blob.Some? ==> Readable(events[k], EvictedAs(log, events[k].blob.value))
      {
        var e := events[i];
        assert e in log;
        if e.blob.Some? && e.blob.value in evicted && (Needed(e.kind) || e.retention != evicted[e.blob.value]) {
          assert !Readable(e, EvictedAs(log, e.blob.value));
          return false;
        }
      }
      return true;
    }

    /**
     * Reads all segments, clears the tables and replays every event. A rebuild that cannot read leaves
     * everything as it was; a replay that fails leaves the cleared tables behind, because clearing is a
     * transaction of its own.
     */
    method Rebuild(events: seq<Event>) returns (r: Result<nat, ReplayError>)
      requires Valid() && Ticking(log) && Rearranges(events, log)
      modifies this`tables
      ensures r.Ok? <==> ReadsThrough(log) && RebuildEdges.ReplayAccepts(log)
      ensures r.Ok? ==> r.value == |log| && Replayed(log, tables)
      ensures Rebuildable(log) ==> r.Ok? && tables == old(tables)
      ensures r == Err(PayloadEvicted) <==> !ReadsThrough(log)
      ensures r == Err(PayloadEvicted) ==> tables == old(tables)
      ensures r.Err? && r.error != PayloadEvicted ==> r.error == Refused && tables == map[]
    {
      StoredIsWellKept(log);
      var readable := ReadSegments(events);
      if !readable { return Err(PayloadEvicted); }
      tables := map[];
      SameLength(events, log);
      ReplaySucceeds.AcceptedIsOrderable(log, events);
      var order := ProjectionOrder(events);
      ReadingOrderIsFree(log, events, order.value);
      RebuildEdges.RebuildAcceptedIff(log, order.value);
      if Rebuildable(log) { RebuildAgrees.RebuildAgrees(log, order.value); }
      var replayed := ApplyAll(order.value);
      if replayed.None? { return Err(Refused); }
      tables := replayed.value;
      return Ok(|events|);
    }
  }

  ghost predicate NamesReceipt(log: seq<Event>, digest: Id, previous: Option<Event>) {
    if previous.None? then NoReceipt(LifecycleOf(log, digest)) else IsLatest(LifecycleOf(log, digest), previous.value)
  }

  /** An evicted row with these citations, the latest receipt named, and every payload readable. */
  ghost predicate Rehydratable(log: seq<Event>, t: Tables, digest: Id, expected: Id, sources: set<Id>) {
    var row := Lookup(t, Blob(digest));
    && row.Some? && row.value.Row? && row.value.availability == Evicted && sources == row.value.references
    && (exists r :: IsLatest(LifecycleOf(log, digest), r) && r.id == expected)
    && ReadsThrough(log)
  }

  lemma LatestIsOne(life: seq<Event>, latest: Option<Event>)
    requires if latest.None? then NoReceipt(life) else IsLatest(life, latest.value)
    ensures forall r :: IsLatest(life, r) ==> latest == Some(r)
  {
  }

  ghost predicate Replayed(log: seq<Event>, tables: Tables) {
    exists order :: IsReplayOrder(log, order) && Run(order) == Some(tables)
  }

  method ApplyAll(order: seq<Event>) returns (r: Option<Tables>)
    ensures r == Run(order)
  {
    var current: Tables := map[];
    var i := 0;
    while i < |order|
      invariant 0 <= i <= |order|
      invariant Run(order[..i]) == Some(current)
    {
      assert order[..i + 1][..i] == order[..i];
      var next := ApplyEvent(current, order[i]);
      if next.None? {
        if Run(order).Some? { RunPrefix(order, i + 1); }
        return None;
      }
      current := next.value;
      i := i + 1;
    }
    assert order[..i] == order;
    return Some(current);
  }

  lemma {:induction false} RunPrefix(log: seq<Event>, n: nat)
    requires n <= |log| && Run(log).Some?
    ensures Run(log[..n]).Some?
  {
    if n == |log| {
      assert log[..n] == log;
    } else {
      RunPrefix(log[..|log| - 1], n);
      assert log[..|log| - 1][..n] == log[..n];
    }
  }

  /** A replay order depends on which events were read, not on the order they were read in. */
  lemma ReadingOrderIsFree(log: seq<Event>, events: seq<Event>, order: seq<Event>)
    requires Rearranges(events, log) && IsReplayOrder(events, order)
    ensures IsReplayOrder(log, order)
  {
    forall i, j | 0 <= i < j < |order| ensures !Precedes(log, order[j], order[i]) {
      assert !Precedes(events, order[j], order[i]);
    }
  }
}
