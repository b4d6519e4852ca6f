// Logs that append accepts but a rebuild projects differently or refuses, and what the
// status of a memory is after each of the two.

module RebuildEdges {
  import opened Basics
  import opened BlobCatalog
  import opened DependencyGraph
  import opened Projection
  import opened Rebuild
  import opened RebuildAgrees
  import ReplaySucceeds

  function First(memory: Id, id: Id): Event {
    Event(id, 1, Id(0), Core, None, Commit(memory, None, Active, 1))
  }

  function Replacing(memory: Id, earlier: Id, id: Id, at: nat): Event {
    Event(id, at, Id(0), Core, None, Commit(memory, Some(earlier), Active, at))
  }

  function Disputing(memory: Id, id: Id, at: nat): Event {
    Event(id, at, Id(0), Core, None, StatusChange(memory, Disputed, None))
  }

  lemma RunNext(log: seq<Event>, e: Event, t: Tables, next: Tables)
    requires Run(log) == Some(t) && Apply(t, e) == Some(next)
    ensures Run(log + [e]) == Some(next)
  {
    assert (log + [e])[..|log + [e]| - 1] == log;
  }

  predicate Open(status: Status) { status.Active? || status.Disputed? }

  predicate Supersedes(e: Event, m: Id) { e.kind.Commit? && e.kind.supersedes == Some(m) && e.kind.memory != m }

  predicate Changes(e: Event, m: Id) { e.kind.StatusChange? && e.kind.memory == m }

  predicate Commits(e: Event, m: Id) { e.kind.Commit? && e.kind.memory == m }

  /** The rows a rebuild can follow: superseded at most once, and only out of an open initial status. */
  ghost predicate SupersededOnce(log: seq<Event>, m: Id, own: Event)
    requires own.kind.Commit?
  {
    && (forall a, b :: a in log && b in log && Supersedes(a, m) && Supersedes(b, m) ==> a == b)
    && ((exists a :: a in log && Supersedes(a, m)) ==> Open(own.kind.status))
  }

  ghost predicate LatestChange(log: seq<Event>, m: Id, e: Event) {
    e in log && Changes(e, m) && forall x :: x in log && Changes(x, m) && x != e ==> Earlier(x, e)
  }

  /** The status a rebuild leaves: that of the latest change, else superseded, else the initial one. */
  ghost predicate ReplayLeaves(log: seq<Event>, m: Id, own: Event, status: Status)
    requires own.kind.Commit?
  {
    if exists e :: e in log && Changes(e, m) then exists e :: LatestChange(log, m, e) && status == e.kind.to
    else if exists e :: e in log && Supersedes(e, m) then status == Superseded
    else status == own.kind.status
  }

  /** A memory's entries: its own commit, then commits that supersede it and status changes, in one scope. */
  ghost predicate MemoryShape(s: seq<Event>, m: Id) {
    && |s| > 0 && Commits(s[0], m) && s[0].kind.supersedes != Some(m)
    && forall i :: 0 < i < |s| ==> (Supersedes(s[i], m) || Changes(s[i], m)) && s[i].scope == s[0].scope
  }

  /** The status an entry leaves in the memory's row. */
  function Leaves(e: Event, m: Id): Status {
    match e.kind
    case StatusChange(_, to, _) => to
    case Commit(own, _, status, _) => if own == m then status else Superseded
    case _ => Active
  }

  lemma {:induction false} AcceptedShape(s: seq<Event>, m: Id)
    requires s != [] && Follow(s, MemoryItem(m)).Some?
    requires forall e :: e in s ==> MemoryItem(m) in Touched(e)
    ensures MemoryShape(s, m)
    ensures var cell := Follow(s, MemoryItem(m)).value; cell.Some? && cell.value.Item? && cell.value.scope == s[0].scope
    ensures Follow(s, MemoryItem(m)).value.value.status == Leaves(s[|s| - 1], m)
  {
    var front, e := s[..|s| - 1], s[|s| - 1];
    assert e in s;
    if front != [] { AcceptedShape(front, m); }
  }

  lemma {:induction false} CommitsFold(s: seq<Event>, m: Id)
    requires MemoryShape(s, m) && forall i :: 0 < i < |s| ==> Supersedes(s[i], m)
    ensures var row := Follow(s, MemoryItem(m));
            if |s| == 1 then row == Some(Some(Item(s[0].scope, s[0].kind.status, None)))
            else if |s| == 2 && Open(s[0].kind.status) then row.Some? && row.value.Some? && row.value.value.Item?
              && row.value.value.scope == s[0].scope && row.value.value.status == Superseded
            else row == None
  {
    var front, e := s[..|s| - 1], s[|s| - 1];
    assert MemoryItem(m) in Touched(e);
    if front != [] {
      assert MemoryShape(front, m);
      CommitsFold(front, m);
    }
  }

  lemma {:induction false} ChangesFold(s: seq<Event>, m: Id, n: nat)
    requires MemoryShape(s, m) && 0 < n <= |s|
    requires forall i :: 0 < i < n ==> Supersedes(s[i], m)
    requires forall i :: n <= i < |s| ==> Changes(s[i], m)
    ensures Follow(s, MemoryItem(m)).Some? <==> n == 1 || (n == 2 && Open(s[0].kind.status))
    ensures Follow(s, MemoryItem(m)).Some? ==>
              var cell := Follow(s, MemoryItem(m)).value;
              cell.Some? && cell.value.Item? && cell.value.scope == s[0].scope && cell.value.status ==
                if n < |s| then Leaves(s[|s| - 1], m) else if n == 2 then Superseded else s[0].kind.status
  {
    if n == |s| {
      CommitsFold(s, m);
    } else {
      var front, e := s[..|s| - 1], s[|s| - 1];
      assert MemoryShape(front, m) && MemoryItem(m) in Touched(e);
      ChangesFold(front, m, n);
    }
  }

  lemma {:induction false} CommitsBeforeChanges(log: seq<Event>, s: seq<Event>, m: Id) returns (n: nat)
    requires MemoryShape(s, m) && Respects(log, s)
    ensures 0 < n <= |s|
    ensures forall i :: 0 < i < n ==> Supersedes(s[i], m)
    ensures forall i :: n <= i < |s| ==> Changes(s[i], m)
  {
    if |s| == 1 {
      n := 1;
    } else {
      n := CommitsBeforeChanges(log, s[..|s| - 1], m);
      if Supersedes(s[|s| - 1], m) {
        assert n < |s| - 1 ==> Precedes(log, s[|s| - 1], s[n]);
        n := n + 1;
      }
    }
  }

  lemma OwnCommitReplaysFirst(log: seq<Event>, order: seq<Event>, m: Id)
    requires Accepted(log) && IsReplayOrder(log, order) && On(log, MemoryItem(m)) != []
    ensures var p, q := On(log, MemoryItem(m)), On(order, MemoryItem(m));
            MemoryShape(p, m) && MemoryShape(q, m) && q[0] == p[0]
  {
    var k := MemoryItem(m);
    AcceptedIsDistinct(log, k);
    SameRestriction(log, order, k);
    var p, q := On(log, k), On(order, k);
    SameLength(p, q);
    AcceptedShape(p, m);
    assert p[0] in q && q[0] in p;
    var at :| 0 <= at < |q| && q[at] == p[0];
    var i :| 0 <= i < |p| && p[i] == q[0];
    if i > 0 { assert Precedes(log, p[0], p[i]); }
    forall j | 0 < j < |q| ensures (Supersedes(q[j], m) || Changes(q[j], m)) && q[j].scope == q[0].scope {
      assert q[j] in p && q[j] != q[0];
    }
  }

  /** How many superseding commits the replayed entries hold. */
  lemma SupersessionCount(log: seq<Event>, q: seq<Event>, m: Id, n: nat)
    requires MemoryShape(q, m) && NoDuplicates(q) && 0 < n <= |q|
    requires forall i :: 0 < i < n ==> Supersedes(q[i], m)
    requires forall i :: n <= i < |q| ==> Changes(q[i], m)
    requires forall e :: e in q <==> e in log && MemoryItem(m) in Touched(e)
    ensures SupersededOnce(log, m, q[0]) <==> n == 1 || (n == 2 && Open(q[0].kind.status))
    ensures n > 1 <==> exists e :: e in log && Supersedes(e, m)
    ensures n < |q| <==> exists e :: e in log && Changes(e, m)
  {
    forall e | e in log && Supersedes(e, m) ensures exists i :: 0 < i < n && q[i] == e {
      assert e in q;
    }
    forall e | e in log && Changes(e, m) ensures exists i :: n <= i < |q| && q[i] == e {
      assert e in q;
    }
    if n > 1 { assert q[1] in q; }
    if n > 2 { assert q[2] in q; }
    if n < |q| { assert q[n] in q; }
  }

  lemma LastChangeIsLatest(log: seq<Event>, q: seq<Event>, m: Id, n: nat)
    requires MemoryShape(q, m) && Respects(log, q) && FreshIds(log) && 0 < n < |q|
    requires forall i :: n <= i < |q| ==> Changes(q[i], m)
    requires forall i :: 0 < i < n ==> Supersedes(q[i], m)
    requires forall e :: e in q <==> e in log && MemoryItem(m) in Touched(e)
    ensures LatestChange(log, m, q[|q| - 1])
  {
    var e := q[|q| - 1];
    assert e in q;
    forall x | x in log && Changes(x, m) && x != e ensures Earlier(x, e) {
      assert x in q;
      var i :| 0 <= i < |q| && q[i] == x;
      assert !Precedes(log, q[|q| - 1], q[i]);
    }
  }

  /** What a rebuild leaves in a memory's row, and when it refuses the log because of that row. */
  lemma MemoryAfterRebuild(log: seq<Event>, order: seq<Event>, m: Id, own: Event)
    requires Accepted(log) && IsReplayOrder(log, order)
    requires own in log && Commits(own, m)
    ensures Follow(order, MemoryItem(m)).Some? <==> SupersededOnce(log, m, own)
    ensures SupersededOnce(log, m, own) ==>
              var row := Follow(order, MemoryItem(m)).value;
              row.Some? && row.value.Item? && ReplayLeaves(log, m, own, row.value.status)
  {
    var k := MemoryItem(m);
    ReplaySucceeds.FirstOwnCommit(log, m, own);
    AcceptedIsDistinct(log, k);
    OwnCommitReplaysFirst(log, order, m);
    SameRestriction(log, order, k);
    FollowOn(order, k);
    var q := On(order, k);
    assert forall e :: e in q <==> e in log && k in Touched(e);
    var n := CommitsBeforeChanges(log, q, m);
    SupersessionCount(log, q, m, n);
    ChangesFold(q, m, n);
    if n < |q| { LastChangeIsLatest(log, q, m, n); }
  }

  ghost predicate SameStatus(a: Option<Option<Cell>>, b: Option<Option<Cell>>) {
    && a.Some? && b.Some? && a.value.Some? && b.value.Some?
    && a.value.value.Item? && b.value.value.Item? && a.value.value.status == b.value.value.status
  }

  /**
   * A rebuild leaves a memory in the status the appends had left it in exactly when it was
   * superseded at most once, out of an open initial status, and the entry appended last
   * leaves the status that a replay's last entry leaves.
   */
  lemma StatusSurvivesRebuild(log: seq<Event>, order: seq<Event>, m: Id, own: Event)
    requires Accepted(log) && IsReplayOrder(log, order)
    requires own in log && Commits(own, m)
    ensures On(log, MemoryItem(m)) != []
    ensures SameStatus(Follow(log, MemoryItem(m)), Follow(order, MemoryItem(m))) <==>
              && SupersededOnce(log, m, own)
              && ReplayLeaves(log, m, own, Leaves(On(log, MemoryItem(m))[|On(log, MemoryItem(m))| - 1], m))
  {
    var k := MemoryItem(m);
    ReplaySucceeds.FirstOwnCommit(log, m, own);
    AcceptedIsDistinct(log, k);
    AcceptedShape(On(log, k), m);
    MemoryAfterRebuild(log, order, m, own);
    if SupersededOnce(log, m, own) {
      var replayed := Follow(order, k).value.value.status;
      OneReplayStatus(log, m, own, replayed, Leaves(On(log, k)[|On(log, k)| - 1], m));
    }
  }

  lemma OneReplayStatus(log: seq<Event>, m: Id, own: Event, a: Status, b: Status)
    requires own.kind.Commit? && ReplayLeaves(log, m, own, a)
    ensures ReplayLeaves(log, m, own, b) <==> a == b
  {
    if exists e :: e in log && Changes(e, m) {
      var e :| LatestChange(log, m, e) && a == e.kind.to;
      forall x | LatestChange(log, m, x) ensures x == e { }
    }
  }

  /** The logs whose replay the reducers accept. */
  ghost predicate ReplayAccepts(log: seq<Event>)
    requires Run(log).Some?
  {
    && (forall own :: own in log && own.kind.Commit? ==> SupersededOnce(log, own.kind.memory, own))
    && (forall s :: CitedInTime(log, s))
    && (forall d :: Settled(log, d))
  }

  lemma RowAcceptedIff(log: seq<Event>, order: seq<Event>, k: Key)
    requires WellKept(log) && IsReplayOrder(log, order)
    ensures Follow(order, k).Some? <==>
              match k
              case MemoryItem(m) => forall own :: own in log && Commits(own, m) ==> SupersededOnce(log, m, own)
              case Source(s) => CitedInTime(log, s)
              case Blob(d) => Settled(log, d)
              case _ => true
  {
    match k
    case MemoryItem(m) =>
      if own :| own in log && Commits(own, m) {
        MemoryAfterRebuild(log, order, m, own);
        forall other | other in log && Commits(other, m) ensures other == own {
          ReplaySucceeds.FirstOwnCommit(log, m, own);
          ReplaySucceeds.FirstOwnCommit(log, m, other);
        }
      } else {
        UnknownMemory(log, order, m);
      }
    case Source(s) => SourcesAgree(log, order, s);
    case Blob(d) => BlobsAgree(log, order, d);
    case _ => ForcedRowAgrees(log, order, k);
  }

  /** Without its own commit a memory has no accepted entry at all. */
  lemma UnknownMemory(log: seq<Event>, order: seq<Event>, m: Id)
    requires Accepted(log) && IsReplayOrder(log, order)
    requires forall e :: e in log ==> !Commits(e, m)
    ensures Follow(order, MemoryItem(m)).Some?
  {
    var k := MemoryItem(m);
    AcceptedIsDistinct(log, k);
    SameRestriction(log, order, k);
    SameLength(On(log, k), On(order, k));
    FollowOn(order, k);
    assert |On(log, k)| > 0 ==> On(log, k)[0] in On(log, k);
    if On(log, k) != [] { AcceptedShape(On(log, k), m); }
  }

  /** A rebuild gets through exactly when every payload reads or may be missing and the three conditions on
      the rows hold, and the log tells which of them fails. */
  lemma RebuildAcceptedIff(log: seq<Event>, order: seq<Event>)
    requires WellKept(log) && IsReplayOrder(log, order)
    ensures Run(order).Some? <==> ReplayAccepts(log)
    ensures Rebuilt(log, order).Some? <==> ReadsThrough(log) && ReplayAccepts(log)
  {
    RowsAreIndependent(order);
    forall k { RowAcceptedIff(log, order, k); }
    if Run(order).Some? {
      forall own | own in log && own.kind.Commit? ensures SupersededOnce(log, own.kind.memory, own) {
        assert Follow(order, MemoryItem(own.kind.memory)).Some?;
        assert Commits(own, own.kind.memory);
      }
      forall s ensures CitedInTime(log, s) { assert Follow(order, Source(s)).Some?; }
      forall d ensures Settled(log, d) { assert Follow(order, Blob(d)).Some?; }
    } else {
      var k :| Follow(order, k).None?;
      if k.MemoryItem? {
        var own :| own in log && Commits(own, k.memory) && !SupersededOnce(log, k.memory, own);
      }
    }
  }

  function ItemRow(status: Status, validTo: Option<nat>): Cell { Item(Id(0), status, validTo) }

  lemma ApplyFirst(t: Tables, memory: Id, id: Id)
    requires MemoryItem(memory) !in t
    ensures Apply(t, First(memory, id)) == Some(t[MemoryItem(memory) := ItemRow(Active, None)])
  {
    var e, k := First(memory, id), MemoryItem(memory);
    assert Touched(e) == {k};
    assert Write(Lookup(t, k), e, k) == Some(ItemRow(Active, None));
    assert t + (map x | x in Touched(e) :: Write(Lookup(t, x), e, x).value) == t[k := ItemRow(Active, None)];
  }

  lemma ApplyReplacing(t: Tables, memory: Id, earlier: Id, id: Id, at: nat)
    requires memory != earlier && MemoryItem(memory) !in t && MemoryItem(earlier) in t
    requires t[MemoryItem(earlier)].Item? && t[MemoryItem(earlier)].scope == Id(0) && Open(t[MemoryItem(earlier)].status)
    ensures Apply(t, Replacing(memory, earlier, id, at))
         == Some(t[MemoryItem(earlier) := ItemRow(Superseded, Some(at))][MemoryItem(memory) := ItemRow(Active, None)])
  {
    var e, k, l := Replacing(memory, earlier, id, at), MemoryItem(memory), MemoryItem(earlier);
    assert Touched(e) == {k, l};
    assert Write(Lookup(t, k), e, k) == Some(ItemRow(Active, None));
    assert Write(Lookup(t, l), e, l) == Some(ItemRow(Superseded, Some(at)));
    assert t + (map x | x in Touched(e) :: Write(Lookup(t, x), e, x).value)
        == t[l := ItemRow(Superseded, Some(at))][k := ItemRow(Active, None)];
  }

  lemma ApplyDisputing(t: Tables, memory: Id, id: Id, at: nat)
    requires MemoryItem(memory) in t && t[MemoryItem(memory)].Item? && t[MemoryItem(memory)].scope == Id(0)
    ensures Apply(t, Disputing(memory, id, at))
         == Some(t[MemoryItem(memory) := ItemRow(Disputed, t[MemoryItem(memory)].validTo)])
  {
    var e, k := Disputing(memory, id, at), MemoryItem(memory);
    assert Touched(e) == {k};
    assert Write(Lookup(t, k), e, k) == Some(ItemRow(Disputed, t[k].validTo));
    assert t + (map x | x in Touched(e) :: Write(Lookup(t, x), e, x).value) == t[k := ItemRow(Disputed, t[k].validTo)];
  }

  const DisputedLog := [First(Id(1), Id(11)), Disputing(Id(1), Id(12), 2), Replacing(Id(2), Id(1), Id(13), 3)]

  lemma DisputedLogRuns()
    ensures Accepted(DisputedLog)
    ensures var row := Lookup(Run(DisputedLog).value, MemoryItem(Id(1))); row.Some? && row.value.Item? && row.value.status == Superseded
  {
    var a, b, c := First(Id(1), Id(11)), Disputing(Id(1), Id(12), 2), Replacing(Id(2), Id(1), Id(13), 3);
    assert [] + [a] == [a] && [a] + [b] == [a, b] && [a, b] + [c] == DisputedLog;
    ApplyFirst(map[], Id(1), Id(11));
    var t1 := Apply(map[], a).value;
    RunNext([], a, map[], t1);
    ApplyDisputing(t1, Id(1), Id(12), 2);
    var t2 := Apply(t1, b).value;
    RunNext([a], b, t1, t2);
    ApplyReplacing(t2, Id(2), Id(1), Id(13), 3);
    RunNext([a, b], c, t2, Apply(t2, c).value);
  }

  lemma SupersededDisputeChanges(log: seq<Event>, order: seq<Event>, m: Id, own: Event, dispute: Event)
    requires Accepted(log) && IsReplayOrder(log, order) && own in log && dispute in log
    requires own.kind.Commit? && own.kind.memory == m && Changes(dispute, m)
    requires var row := Lookup(Run(log).value, MemoryItem(m)); row.Some? && row.value.Item? && row.value.status == Superseded
    requires forall e :: e in log && Changes(e, m) ==> e == dispute
    requires dispute.kind.to == Disputed
    ensures !SameStatus(Follow(log, MemoryItem(m)), Follow(order, MemoryItem(m)))
    ensures Follow(order, MemoryItem(m)).Some? ==>
              var row := Follow(order, MemoryItem(m)).value; row.Some? && row.value.Item? && row.value.status == Disputed
  {
    RowsAreIndependent(log);
    assert Follow(log, MemoryItem(m)) == Some(Lookup(Run(log).value, MemoryItem(m)));
    StatusSurvivesRebuild(log, order, m, own);
    MemoryAfterRebuild(log, order, m, own);
  }

  /** A log of memory events only: no blob and no citation stands in the way of a rebuild. */
  lemma MemoryLogReplays(log: seq<Event>)
    requires Accepted(log) && forall e :: e in log ==> e.blob.None? && (e.kind.Commit? || e.kind.StatusChange?)
    ensures WellKept(log) && ReadsThrough(log)
    ensures ReplayAccepts(log) <==> forall own :: own in log && own.kind.Commit? ==> SupersededOnce(log, own.kind.memory, own)
  {
    forall d ensures Linked(LifecycleOf(log, d)) { NoLifecycle(log, d); }
  }

  lemma DisputedLogReplays(order: seq<Event>)
    requires IsReplayOrder(DisputedLog, order) && Accepted(DisputedLog)
    ensures Rebuilt(DisputedLog, order).Some?
  {
    var a, b, c := DisputedLog[0], DisputedLog[1], DisputedLog[2];
    assert forall e :: e in DisputedLog ==> e == a || e == b || e == c;
    MemoryLogReplays(DisputedLog);
    forall own | own in DisputedLog && own.kind.Commit? ensures SupersededOnce(DisputedLog, own.kind.memory, own) {
      forall x | x in DisputedLog && Supersedes(x, own.kind.memory) ensures x == c { }
    }
    RebuildAcceptedIff(DisputedLog, order);
  }

  /** Commit, dispute, supersede: superseded as appended, disputed again after any rebuild. */
  lemma DisputeOutlivesSupersession(order: seq<Event>)
    requires IsReplayOrder(DisputedLog, order)
    ensures Accepted(DisputedLog) && Rebuilt(DisputedLog, order).Some?
    ensures HasStatus(Follow(DisputedLog, MemoryItem(Id(1))), Superseded)
    ensures HasStatus(Follow(order, MemoryItem(Id(1))), Disputed)
  {
    var m := MemoryItem(Id(1));
    DisputedLogRuns();
    DisputedLogReplays(order);
    RowsAreIndependent(DisputedLog);
    RowsAreIndependent(order);
    assert Follow(DisputedLog, m) == Some(Lookup(Run(DisputedLog).value, m));
    assert Follow(order, m).Some?;
    OnlyDispute(order);
  }

  ghost predicate HasStatus(row: Option<Option<Cell>>, status: Status) {
    row.Some? && row.value.Some? && row.value.value.Item? && row.value.value.status == status
  }

  lemma OnlyDispute(order: seq<Event>)
    requires IsReplayOrder(DisputedLog, order) && Accepted(DisputedLog) && Follow(order, MemoryItem(Id(1))).Some?
    requires HasStatus(Some(Lookup(Run(DisputedLog).value, MemoryItem(Id(1)))), Superseded)
    ensures HasStatus(Follow(order, MemoryItem(Id(1))), Disputed)
  {
    var a, b, c := DisputedLog[0], DisputedLog[1], DisputedLog[2];
    assert forall e :: e in DisputedLog ==> e == a || e == b || e == c;
    assert a in DisputedLog && b in DisputedLog;
    SupersededDisputeChanges(DisputedLog, order, Id(1), a, b);
  }

  const TwiceLog := [First(Id(1), Id(11)), Replacing(Id(2), Id(1), Id(12), 2), Disputing(Id(1), Id(13), 3),
                     Replacing(Id(3), Id(1), Id(14), 4)]

  lemma TwiceLogRuns()
    ensures Accepted(TwiceLog)
  {
    var a, b, c, d := First(Id(1), Id(11)), Replacing(Id(2), Id(1), Id(12), 2), Disputing(Id(1), Id(13), 3),
                      Replacing(Id(3), Id(1), Id(14), 4);
    assert [] + [a] == [a] && [a] + [b] == [a, b] && [a, b] + [c] == [a, b, c] && [a, b, c] + [d] == TwiceLog;
    ApplyFirst(map[], Id(1), Id(11));
    var t1 := Apply(map[], a).value;
    RunNext([], a, map[], t1);
    ApplyReplacing(t1, Id(2), Id(1), Id(12), 2);
    var t2 := Apply(t1, b).value;
    RunNext([a], b, t1, t2);
    ApplyDisputing(t2, Id(1), Id(13), 3);
    var t3 := Apply(t2, c).value;
    RunNext([a, b], c, t2, t3);
    ApplyReplacing(t3, Id(3), Id(1), Id(14), 4);
    RunNext([a, b, c], d, t3, Apply(t3, d).value);
  }

  /** Supersede, dispute, supersede again: appended without complaint, and no rebuild accepts it. */
  lemma TwiceSupersededIsRefused(order: seq<Event>)
    requires IsReplayOrder(TwiceLog, order)
    ensures Accepted(TwiceLog) && Run(order) == None
  {
    var a, b, d := TwiceLog[0], TwiceLog[1], TwiceLog[3];
    TwiceLogRuns();
    assert a in TwiceLog && b in TwiceLog && d in TwiceLog && Supersedes(b, Id(1)) && Supersedes(d, Id(1)) && b != d;
    MemoryAfterRebuild(TwiceLog, order, Id(1), a);
    RowsAreIndependent(order);
  }
}
