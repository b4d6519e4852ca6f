// A rebuild reaches the tables that appending event by event had reached, row by row.

module RebuildAgrees {
  import opened Basics
  import opened BlobCatalog
  import opened DependencyGraph
  import opened Projection
  import opened Rebuild

  /** Entries of a restricted log stand in the order of the log. */
  lemma {:induction false} OnInOrder(log: seq<Event>, k: Key, i: nat, j: nat) returns (a: nat, b: nat)
    requires i < j < |On(log, k)|
    ensures a < b < |log| && log[a] == On(log, k)[i] && log[b] == On(log, k)[j]
  {
    var front, e := log[..|log| - 1], log[|log| - 1];
    if j < |On(front, k)| {
      a, b := OnInOrder(front, k, i, j);
    } else {
      assert On(log, k)[i] in front;
      a :| 0 <= a < |front| && front[a] == On(log, k)[i];
      b := |log| - 1;
    }
  }

  lemma {:induction false} FollowPrefix(s: seq<Event>, k: Key, n: nat)
    requires n <= |s| && Follow(s, k).Some?
    ensures Follow(s[..n], k).Some?
  {
    if n == |s| {
      assert s[..n] == s;
    } else {
      FollowPrefix(s[..|s| - 1], k, n);
      assert s[..|s| - 1][..n] == s[..n];
    }
  }

  /** The row just before an entry that touches it, and the entry's own effect. */
  lemma FollowStep(s: seq<Event>, k: Key, i: nat)
    requires i < |s| && Follow(s, k).Some? && k in Touched(s[i])
    ensures Follow(s[..i], k).Some?
    ensures Write(Follow(s[..i], k).value, s[i], k).Some?
    ensures Follow(s[..i + 1], k) == Some(Write(Follow(s[..i], k).value, s[i], k))
  {
    FollowPrefix(s, k, i + 1);
    assert s[..i + 1][..i] == s[..i];
  }

  ghost predicate FreshIds(s: seq<Event>) {
    forall x, y :: x in s && y in s && x.id == y.id ==> x == y
  }

  lemma AcceptedIsDistinct(log: seq<Event>, k: Key)
    requires Accepted(log)
    ensures NoDuplicates(log) && FreshIds(log) && Follow(log, k).Some?
    ensures NoDuplicates(On(log, k)) && FreshIds(On(log, k)) && Follow(On(log, k), k) == Follow(log, k)
  {
    RowsAreIndependent(log);
    FollowOn(log, k);
    OnKeeps(log, log, k);
  }

  // -- memories, task states and terminal events: only one order is possible --

  /** A memory row accepts its own commit first, then at most one superseding commit before a status change. */
  lemma ItemPair(c: Option<Cell>, a: Event, b: Event, m: Id)
    requires MemoryItem(m) in Touched(a) && MemoryItem(m) in Touched(b)
    requires var next := Write(c, a, MemoryItem(m)); next.Some? && Write(next, b, MemoryItem(m)).Some?
    ensures a.kind.Commit? || (a.kind.StatusChange? && a.kind.memory == m)
    ensures (b.kind.Commit? && b.kind.supersedes == Some(m)) || (b.kind.StatusChange? && b.kind.memory == m)
    ensures a.kind.Commit? && b.kind.Commit? ==> a.kind.memory == m
  {
  }

  lemma MemoryIsForced(log: seq<Event>, m: Id, i: nat)
    requires Accepted(log) && StatusesLast(log)
    requires i + 1 < |On(log, MemoryItem(m))|
    ensures Precedes(log, On(log, MemoryItem(m))[i], On(log, MemoryItem(m))[i + 1])
  {
    var k := MemoryItem(m);
    var s := On(log, k);
    var a, b := OnInOrder(log, k, i, i + 1);
    ItemPair(TouchedPair(log, k, i), s[i], s[i + 1], m);
  }

  /** The row before two consecutive entries of its restricted log, both of which it accepts. */
  lemma TouchedPairExists(log: seq<Event>, k: Key, i: nat)
    requires Accepted(log) && i + 1 < |On(log, k)|
    ensures var s := On(log, k);
            Follow(s[..i], k).Some? && k in Touched(s[i]) && k in Touched(s[i + 1]) &&
            var next := Write(Follow(s[..i], k).value, s[i], k);
            next.Some? && Write(next, s[i + 1], k).Some?
  {
    var s := On(log, k);
    AcceptedIsDistinct(log, k);
    assert s[i] in s && s[i + 1] in s;
    FollowStep(s, k, i);
    FollowStep(s, k, i + 1);
  }

  ghost function TouchedPair(log: seq<Event>, k: Key, i: nat): (c: Option<Cell>)
    requires Accepted(log) && i + 1 < |On(log, k)|
    ensures var s := On(log, k);
            k in Touched(s[i]) && k in Touched(s[i + 1]) &&
            var next := Write(c, s[i], k);
            next.Some? && Write(next, s[i + 1], k).Some?
  {
    TouchedPairExists(log, k, i);
    Follow(On(log, k)[..i], k).value
  }

  lemma {:induction false} RevisionsCount(s: seq<Event>, t: Id)
    requires Follow(s, TaskState(t)).Some?
    requires forall e :: e in s ==> TaskState(t) in Touched(e)
    ensures s == [] ==> Follow(s, TaskState(t)) == Some(None)
    ensures s != [] ==> var cell := Follow(s, TaskState(t)).value;
              cell.Some? && cell.value.Revision? && cell.value.revision == |s| == s[|s| - 1].kind.revision
  {
    if s == [] {
    } else {
      assert s[|s| - 1] in s;
      RevisionsCount(s[..|s| - 1], t);
    }
  }

  lemma RevisionAt(s: seq<Event>, t: Id, i: nat)
    requires Follow(s, TaskState(t)).Some? && i < |s|
    requires forall e :: e in s ==> TaskState(t) in Touched(e)
    ensures s[i].kind.State? && s[i].kind.task == t && s[i].kind.revision == i + 1
  {
    var part := s[..i + 1];
    FollowPrefix(s, TaskState(t), i + 1);
    assert s[i] in s && part[|part| - 1] == s[i];
    RevisionsCount(part, t);
    FollowStep(s, TaskState(t), i);
  }

  lemma StatesAreForced(log: seq<Event>, t: Id, i: nat)
    requires Accepted(log) && i + 1 < |On(log, TaskState(t))|
    ensures Precedes(log, On(log, TaskState(t))[i], On(log, TaskState(t))[i + 1])
  {
    AcceptedIsDistinct(log, TaskState(t));
    RevisionAt(On(log, TaskState(t)), t, i);
    RevisionAt(On(log, TaskState(t)), t, i + 1);
  }

  lemma TerminalPair(c: Option<Cell>, a: Event, b: Event, t: Id)
    requires TaskTerminal(t) in Touched(a) && TaskTerminal(t) in Touched(b)
    requires var next := Write(c, a, TaskTerminal(t)); next.Some? && Write(next, b, TaskTerminal(t)).Some?
    ensures a.id == b.id
  {
  }

  lemma OneTerminal(log: seq<Event>, t: Id)
    requires Accepted(log)
    ensures |On(log, TaskTerminal(t))| <= 1
  {
    var k := TaskTerminal(t);
    var s := On(log, k);
    AcceptedIsDistinct(log, k);
    if |s| > 1 {
      assert s[0] != s[1] && s[0] in s && s[1] in s;
      TerminalPair(TouchedPair(log, k, 0), s[0], s[1], t);
    }
  }

  lemma SameRestriction(log: seq<Event>, order: seq<Event>, k: Key)
    requires Accepted(log) && IsReplayOrder(log, order)
    ensures Rearranges(On(log, k), On(order, k)) && Respects(log, On(order, k))
  {
    AcceptedIsDistinct(log, k);
    OnKeeps(log, order, k);
  }

  // -- blobs: references in any order, then the lifecycle in its only order --

  function ReferencesTo(log: seq<Event>, digest: Id): (r: seq<Event>)
    ensures forall e :: e in r <==> e in log && e.blob == Some(digest)
  {
    if log == [] then []
    else
      var front := ReferencesTo(log[..|log| - 1], digest);
      var e := log[|log| - 1];
      assert forall x :: x in log <==> x in log[..|log| - 1] || x == e;
      if e.blob == Some(digest) then front + [e] else front
  }

  lemma {:induction false} NoLifecycle(s: seq<Event>, d: Id)
    requires forall e :: e in s ==> !(e.kind.Lifecycle? && e.kind.digest == d)
    ensures LifecycleOf(s, d) == []
  {
    if s != [] {
      assert s[|s| - 1] in s;
      NoLifecycle(s[..|s| - 1], d);
    }
  }

  /** An event touches a blob's row as a reference or as a lifecycle event, not as both. */
  lemma TouchesBlob(e: Event, d: Id)
    requires e.kind.Lifecycle? ==> e.blob.None?
    ensures Blob(d) in Touched(e) <==> e.blob == Some(d) || (e.kind.Lifecycle? && e.kind.digest == d)
    ensures !(e.blob == Some(d) && e.kind.Lifecycle?)
  {
  }

  ghost predicate NoReferenceAfter(s: seq<Event>, d: Id, i: nat) {
    i < |s| && s[i].kind.Lifecycle? && s[i].kind.digest == d ==> forall j :: i < j < |s| ==> s[j].blob != Some(d)
  }

  lemma {:induction false} ReferencesThenLifecycle(s: seq<Event>, d: Id)
    requires forall i: nat :: NoReferenceAfter(s, d, i)
    requires InlineLifecycle(s)
    ensures On(s, Blob(d)) == ReferencesTo(s, d) + LifecycleOf(s, d)
  {
    if s != [] {
      var front, e := s[..|s| - 1], s[|s| - 1];
      forall i: nat ensures NoReferenceAfter(front, d, i) { assert NoReferenceAfter(s, d, i); }
      ReferencesThenLifecycle(front, d);
      assert e in s;
      TouchesBlob(e, d);
      if e.blob == Some(d) {
        forall x | x in front ensures !(x.kind.Lifecycle? && x.kind.digest == d) {
          var i: nat :| i < |front| && front[i] == x;
          assert NoReferenceAfter(s, d, i);
        }
        NoLifecycle(front, d);
      }
    }
  }

  lemma {:induction false} FiltersKeep(events: seq<Event>, s: seq<Event>, d: Id)
    requires NoDuplicates(s)
    ensures NoDuplicates(ReferencesTo(s, d)) && NoDuplicates(LifecycleOf(s, d))
    ensures Respects(events, s) ==> Respects(events, LifecycleOf(s, d))
  {
    if s == [] {
    } else {
      var front, e := s[..|s| - 1], s[|s| - 1];
      FiltersKeep(events, front, d);
      var kept := LifecycleOf(front, d);
      forall i | 0 <= i < |kept| && Respects(events, s) ensures !Precedes(events, e, kept[i]) {
        assert kept[i] in front;
      }
    }
  }

  function Ids(s: seq<Event>): (r: set<Id>) {
    set e | e in s :: e.id
  }

  ghost predicate Weakest(c: Class, s: seq<Event>) {
    && (exists e :: e in s && e.retention == c)
    && (forall e :: e in s ==> Rank(c) <= Rank(e.retention))
  }

  /** A hot row with exactly the ids of the references and the strongest class among them. */
  ghost predicate ReferencedBy(cell: Cell, s: seq<Event>) {
    cell.Row? && cell.references == Ids(s) && cell.availability == Hot && Weakest(cell.retention, s)
  }

  lemma OneReference(e: Event, d: Id)
    requires e.blob == Some(d)
    ensures Follow([e], Blob(d)) == Some(Some(Row(e.retention, {e.id}, Hot)))
    ensures ReferencedBy(Row(e.retention, {e.id}, Hot), [e])
  {
    assert [e][..0] == [] && Follow([], Blob(d)) == Some(None);
    assert e in [e] && Ids([e]) == {e.id};
  }

  lemma {:induction false} ReferencesFold(s: seq<Event>, d: Id)
    requires NoDuplicates(s) && FreshIds(s)
    requires forall e :: e in s ==> e.blob == Some(d)
    ensures s == [] ==> Follow(s, Blob(d)) == Some(None)
    ensures s != [] ==> var cell := Follow(s, Blob(d));
              cell.Some? && cell.value.Some? && ReferencedBy(cell.value.value, s)
  {
    if s != [] {
      var front, e := s[..|s| - 1], s[|s| - 1];
      assert s == front + [e];
      assert e in s && e !in front;
      forall x | x in front ensures x in s && x.id != e.id { }
      ReferencesFold(front, d);
      if front == [] {
        assert s == [e];
        OneReference(e, d);
      } else {
      }
    }
  }

  /** The rehydration of a tombstone is the very next lifecycle event of its blob. */
  lemma RehydrationIsNext(log: seq<Event>, d: Id, i: nat, r: Event)
    requires FreshIds(log) && NoDuplicates(LifecycleOf(log, d)) && forall x :: Linked(LifecycleOf(log, x))
    requires i + 1 < |LifecycleOf(log, d)| && r in log
    requires Rehydrates(r, LifecycleOf(log, d)[i].id)
    ensures LifecycleOf(log, d)[i + 1] == r
  {
    var s := LifecycleOf(log, d);
    var other := LifecycleOf(log, r.kind.digest);
    assert Linked(other) && r in other && s[i] in s;
    var p :| 0 <= p < |other| && other[p] == r;
    assert LinkedAt(other, p);
    var before := other[p - 1];
    assert before.id == s[i].id && before in other;
    assert before == s[i] && other == s;
    assert p - 1 == i;
  }

  lemma LifecycleIsForced(log: seq<Event>, d: Id, i: nat)
    requires FreshIds(log) && NoDuplicates(LifecycleOf(log, d)) && forall x :: Linked(LifecycleOf(log, x))
    requires i + 1 < |LifecycleOf(log, d)|
    ensures Precedes(log, LifecycleOf(log, d)[i], LifecycleOf(log, d)[i + 1])
  {
    var s := LifecycleOf(log, d);
    assert LinkedAt(s, i) && LinkedAt(s, i + 1);
    assert s[i] in s && s[i + 1] in s;
    if Retires(s[i]) && Retires(s[i + 1]) {
      forall r | r in log ensures !Rehydrates(r, s[i].id) {
        if Rehydrates(r, s[i].id) { RehydrationIsNext(log, d, i, r); }
      }
    } else if Retires(s[i + 1]) {
      assert Rehydrates(s[i], s[i].kind.step.expected) && s[i] in log;
    }
  }

  lemma SameLifecycle(log: seq<Event>, order: seq<Event>, d: Id)
    requires NoDuplicates(log) && FreshIds(log) && forall x :: Linked(LifecycleOf(log, x))
    requires IsReplayOrder(log, order)
    ensures LifecycleOf(order, d) == LifecycleOf(log, d)
  {
    FiltersKeep(log, log, d);
    FiltersKeep(log, order, d);
    forall i | 0 <= i < |LifecycleOf(log, d)| - 1
      ensures Precedes(log, LifecycleOf(log, d)[i], LifecycleOf(log, d)[i + 1])
    { LifecycleIsForced(log, d, i); }
    OrderForced(log, LifecycleOf(log, d), LifecycleOf(order, d));
  }

  lemma ReplaySplits(log: seq<Event>, order: seq<Event>, d: Id)
    requires InlineLifecycle(log) && IsReplayOrder(log, order)
    ensures On(order, Blob(d)) == ReferencesTo(order, d) + LifecycleOf(order, d)
  {
    forall i: nat ensures NoReferenceAfter(order, d, i) {
      if i < |order| && order[i].kind.Lifecycle? {
        forall j | i < j < |order| ensures order[j].blob != Some(d) {
          assert order[j] in order;
          assert !Precedes(log, order[j], order[i]);
        }
      }
    }
    ReferencesThenLifecycle(order, d);
  }

  /** Where the lifecycle events leave the blob. */
  function AvailableAfter(life: seq<Event>): Availability
    requires forall e :: e in life ==> e.kind.Lifecycle?
  {
    if life == [] then Hot
    else match life[|life| - 1].kind.step
         case Retired(to, _) => to
         case Rehydrated(_, _) => Hot
  }

  /** Every rehydration finds its blob evicted. */
  ghost predicate RehydratesEvicted(life: seq<Event>)
    requires forall e :: e in life ==> e.kind.Lifecycle?
  {
    forall i :: 0 <= i < |life| && life[i].kind.step.Rehydrated? ==> AvailableAfter(life[..i]) == Evicted
  }

  ghost predicate LifecycleOn(life: seq<Event>, d: Id) {
    forall e :: e in life ==> e.kind.Lifecycle? && e.kind.digest == d && e.blob.None?
  }

  /** One lifecycle event behind a row. */
  lemma LifecycleStep(s: seq<Event>, e: Event, d: Id, row: Cell)
    requires Follow(s, Blob(d)) == Some(Some(row)) && row.Row?
    requires e.kind.Lifecycle? && e.kind.digest == d && e.blob.None?
    requires e.kind.step.Rehydrated? ==> row.availability == Evicted
    ensures Follow(s + [e], Blob(d)).Some? <==> Fits(e, row.retention, row.references)
    ensures Follow(s + [e], Blob(d)).Some? ==>
              Follow(s + [e], Blob(d)) == Some(Some(row.(availability := AvailableAfter([e]))))
  {
    assert Blob(d) in Touched(e);
    FollowNext(s, e, Blob(d));
  }

  lemma RehydratesEvictedBefore(life: seq<Event>, n: nat)
    requires (forall e :: e in life ==> e.kind.Lifecycle?) && RehydratesEvicted(life) && n < |life|
    ensures RehydratesEvicted(life[..n])
    ensures life[n].kind.step.Rehydrated? ==> AvailableAfter(life[..n]) == Evicted
  {
    var front := life[..n];
    forall i | 0 <= i < |front| && front[i].kind.step.Rehydrated? ensures AvailableAfter(front[..i]) == Evicted {
      assert front[..i] == life[..i];
    }
  }

  lemma Refused(s: seq<Event>, e: Event, k: Key)
    requires Follow(s, k).None?
    ensures Follow(s + [e], k).None?
  {
    assert (s + [e])[..|s|] == s;
  }

  /** After the references, the lifecycle events are accepted exactly when each of them fits the row. */
  lemma {:induction false} LifecycleFold(refs: seq<Event>, life: seq<Event>, d: Id, retention: Class, references: set<Id>)
    requires Follow(refs, Blob(d)) == Some(Some(Row(retention, references, Hot)))
    requires LifecycleOn(life, d) && RehydratesEvicted(life)
    ensures Follow(refs + life, Blob(d)).Some? <==> forall e :: e in life ==> Fits(e, retention, references)
    ensures Follow(refs + life, Blob(d)).Some? ==>
              Follow(refs + life, Blob(d)) == Some(Some(Row(retention, references, AvailableAfter(life))))
  {
    if life == [] {
      assert refs + life == refs;
    } else {
      var front, e := life[..|life| - 1], life[|life| - 1];
      assert refs + life == refs + front + [e];
      assert e in life;
      RehydratesEvictedBefore(life, |life| - 1);
      LifecycleFold(refs, front, d, retention, references);
      assert forall x :: x in life <==> x in front || x == e;
      if Follow(refs + front, Blob(d)).Some? {
        LifecycleStep(refs + front, e, d, Row(retention, references, AvailableAfter(front)));
      } else {
        Refused(refs + front, e, Blob(d));
      }
    }
  }

  ghost predicate RowShows(row: Option<Cell>, refs: seq<Event>, life: seq<Event>)
    requires forall e :: e in life ==> e.kind.Lifecycle?
  {
    if refs == [] then
      row.None? && life == []
    else
      && row.Some? && row.value.Row?
      && Weakest(row.value.retention, refs)
      && row.value.references == Ids(refs)
      && row.value.availability == AvailableAfter(life)
  }

  lemma RowAfterReference(row: Option<Cell>, refs: seq<Event>, life: seq<Event>, e: Event)
    requires forall x :: x in life ==> x.kind.Lifecycle?
    requires RowShows(row, refs, life) && WriteReference(row, e).Some?
    ensures RowShows(WriteReference(row, e), refs + [e], life)
  {
    var longer := refs + [e];
    assert e in longer;
    assert Ids(longer) == Ids(refs) + {e.id};
    if refs != [] {
      var strong :| strong in refs && strong.retention == row.value.retention;
      assert strong in longer;
    }
  }

  lemma RehydratesEvictedNext(life: seq<Event>, e: Event)
    requires e.kind.Lifecycle? && forall x :: x in life ==> x.kind.Lifecycle?
    requires RehydratesEvicted(life) && (e.kind.step.Rehydrated? ==> AvailableAfter(life) == Evicted)
    ensures RehydratesEvicted(life + [e])
  {
    var longer := life + [e];
    forall i | 0 <= i < |longer| && longer[i].kind.step.Rehydrated? ensures AvailableAfter(longer[..i]) == Evicted {
      assert longer[..i] == life[..i];
      assert i == |life| ==> longer[..i] == life;
    }
  }

  /** The row a log leaves, with references and lifecycle events in any accepted interleaving. */
  lemma {:induction false} InterleavedRow(s: seq<Event>, d: Id)
    requires InlineLifecycle(s) && Follow(s, Blob(d)).Some?
    ensures LifecycleOn(LifecycleOf(s, d), d) && RehydratesEvicted(LifecycleOf(s, d))
    ensures RowShows(Follow(s, Blob(d)).value, ReferencesTo(s, d), LifecycleOf(s, d))
  {
    if s == [] {
    } else {
      var front, e := s[..|s| - 1], s[|s| - 1];
      assert e in s;
      InterleavedRow(front, d);
      var row := Follow(front, Blob(d)).value;
      if e.blob == Some(d) {
        RowAfterReference(row, ReferencesTo(front, d), LifecycleOf(front, d), e);
      } else if e.kind.Lifecycle? && e.kind.digest == d {
        RehydratesEvictedNext(LifecycleOf(front, d), e);
      }
    }
  }

  lemma ReplayedBlob(log: seq<Event>, order: seq<Event>, d: Id)
    requires WellKept(log) && IsReplayOrder(log, order)
    ensures Follow(order, Blob(d)) == Follow(ReferencesTo(order, d) + LifecycleOf(log, d), Blob(d))
    ensures NoDuplicates(ReferencesTo(order, d)) && FreshIds(ReferencesTo(order, d))
  {
    AcceptedIsDistinct(log, Blob(d));
    FiltersKeep(log, order, d);
    FollowOn(order, Blob(d));
    ReplaySplits(log, order, d);
    SameLifecycle(log, order, d);
  }

  lemma StartOfReplay(log: seq<Event>, order: seq<Event>, d: Id, row: Cell)
    requires WellKept(log) && IsReplayOrder(log, order)
    requires ReferencesTo(log, d) != [] && RowShows(Some(row), ReferencesTo(log, d), LifecycleOf(log, d))
    ensures Follow(ReferencesTo(order, d), Blob(d)) == Some(Some(Row(row.retention, row.references, Hot)))
  {
    var refs := ReferencesTo(order, d);
    ReplayedBlob(log, order, d);
    assert ReferencesTo(log, d)[0] in refs;
    ReferencesFold(refs, d);
    var start := Follow(refs, Blob(d)).value.value;
    assert Ids(refs) == Ids(ReferencesTo(log, d));
  }

  /** A rebuild accepts a blob exactly when its lifecycle events fit its final row, and then keeps that row. */
  lemma BlobsAgree(log: seq<Event>, order: seq<Event>, d: Id)
    requires WellKept(log) && IsReplayOrder(log, order)
    ensures Follow(order, Blob(d)).Some? <==> Settled(log, d)
    ensures Follow(order, Blob(d)).Some? ==> Follow(order, Blob(d)) == Follow(log, Blob(d))
  {
    RowsAreIndependent(log);
    assert Follow(log, Blob(d)) == Some(Lookup(Run(log).value, Blob(d)));
    var refs, life := ReferencesTo(order, d), LifecycleOf(log, d);
    InterleavedRow(log, d);
    ReplayedBlob(log, order, d);
    if ReferencesTo(log, d) == [] {
      EmptyReferences(order, d);
      assert refs + life == [];
    } else {
      var row := Follow(log, Blob(d)).value.value;
      StartOfReplay(log, order, d, row);
      LifecycleFold(refs, life, d, row.retention, row.references);
    }
  }

  lemma {:induction false} EmptyReferences(s: seq<Event>, d: Id)
    requires forall e :: e in s ==> e.blob != Some(d)
    ensures ReferencesTo(s, d) == []
  {
    if s != [] {
      assert s[|s| - 1] in s;
      EmptyReferences(s[..|s| - 1], d);
    }
  }

  // -- citations of one source: the source first, its citations in any order --

  ghost predicate CitedShape(s: seq<Event>, source: Id) {
    && |s| > 0 && s[0].id == source && s[0].blob.Some? && !Cites(s[0], s[0])
    && forall i :: 0 < i < |s| ==> s[i].id != source && Cites(s[i], s[0]) && s[i].scope == s[0].scope
  }

  function Citers(s: seq<Event>, source: Event, production: bool): (r: set<Id>) {
    set e | e in s && Cites(e, source) && e.kind.production == production :: e.id
  }

  lemma {:induction false} CitedFold(s: seq<Event>, source: Id)
    requires CitedShape(s, source)
    ensures Follow(s, Source(source))
         == Some(Some(Cited(s[0].scope, Citers(s, s[0], false), Citers(s, s[0], true))))
  {
    var front, e := s[..|s| - 1], s[|s| - 1];
    assert s == front + [e];
    if front == [] {
      assert Source(source) in Touched(e);
      assert Citers(s, e, false) == {} && Citers(s, e, true) == {};
    } else {
      assert CitedShape(front, source);
      CitedFold(front, source);
      assert Source(source) in Touched(e);
      assert Citers(s, s[0], e.kind.production) == Citers(front, s[0], e.kind.production) + {e.id};
      assert Citers(s, s[0], !e.kind.production) == Citers(front, s[0], !e.kind.production);
    }
  }

  lemma FirstCited(e: Event, source: Id)
    requires Source(source) in Touched(e) && Write(None, e, Source(source)).Some?
    ensures CitedShape([e], source)
  {
  }

  lemma NextCited(front: seq<Event>, e: Event, source: Id, row: Cell)
    requires CitedShape(front, source) && row.Cited? && row.scope == front[0].scope && e.id != source
    requires Source(source) in Touched(e) && Write(Some(row), e, Source(source)).Some?
    ensures CitedShape(front + [e], source)
  {
  }

  lemma {:induction false} AcceptedCitations(s: seq<Event>, source: Id)
    requires s != [] && NoDuplicates(s) && FreshIds(s) && Follow(s, Source(source)).Some?
    requires forall e :: e in s ==> Source(source) in Touched(e)
    ensures CitedShape(s, source)
  {
    var front, e := s[..|s| - 1], s[|s| - 1];
    assert s == front + [e] && e in s;
    assert Follow(front, Source(source)).Some?;
    if front == [] {
      FirstCited(e, source);
    } else {
      AcceptedCitations(front, source);
      CitedFold(front, source);
      assert s[0] in s && s[0] == front[0];
      assert e != s[0];
      NextCited(front, e, source, Follow(front, Source(source)).value.value);
    }
  }

  lemma SameCitations(p: seq<Event>, q: seq<Event>, source: Id)
    requires Rearranges(q, p) && FreshIds(p) && |p| > 0 && |q| > 0
    requires CitedShape(p, source) && q[0] == p[0]
    ensures Follow(p, Source(source)) == Follow(q, Source(source))
  {
    forall i | 0 < i < |q| ensures q[i].id != source && Cites(q[i], q[0]) && q[i].scope == q[0].scope {
      assert q[i] in p && q[i] != q[0];
    }
    CitedFold(p, source);
    CitedFold(q, source);
    assert Citers(p, p[0], true) == Citers(q, p[0], true);
    assert Citers(p, p[0], false) == Citers(q, p[0], false);
  }

  lemma CiterComesLater(log: seq<Event>, p: seq<Event>, q: seq<Event>, source: Id)
    requires InlineLifecycle(log) && CitedInTime(log, source) && CitedShape(p, source)
    requires Rearranges(p, q) && Respects(log, q) && q != [] && forall e :: e in p ==> e in log
    ensures q[0] == p[0]
  {
    assert q[0] in p && p[0] in q && p[0] in p;
    var i :| 0 <= i < |p| && p[i] == q[0];
    if i > 0 { ForcedIsNotFirst(log, p, q, 0, i, 0); }
  }

  lemma LateCitation(log: seq<Event>, p: seq<Event>, q: seq<Event>, source: Id)
    requires FreshIds(log) && CitedShape(p, source)
    requires Rearranges(p, q) && Respects(log, q) && q != [] && q[0] == p[0]
    requires forall e :: e in p <==> e in log && Source(source) in Touched(e)
    ensures CitedInTime(log, source)
  {
    assert p[0] in p;
    forall a, b | a in log && b in log && a.id == source && a.blob.Some? && a.kind.Citation? && Cites(b, a)
      ensures Earlier(a, b)
    {
      assert a in p && b in p && a == p[0];
      var j :| 0 <= j < |q| && q[j] == b;
      assert j > 0 ==> !Precedes(log, q[j], q[0]);
    }
  }

  lemma SourceComesFirst(log: seq<Event>, order: seq<Event>, source: Id)
    requires WellKept(log) && IsReplayOrder(log, order)
    requires |On(log, Source(source))| == |On(order, Source(source))| > 0
    requires CitedShape(On(log, Source(source)), source)
    ensures On(order, Source(source))[0] == On(log, Source(source))[0] <==> CitedInTime(log, source)
  {
    var k := Source(source);
    SameRestriction(log, order, k);
    AcceptedIsDistinct(log, k);
    if CitedInTime(log, source) {
      CiterComesLater(log, On(log, k), On(order, k), source);
    } else if On(order, k)[0] == On(log, k)[0] {
      LateCitation(log, On(log, k), On(order, k), source);
    }
  }

  /** A rebuild accepts the citations of a source exactly when it replays them behind the source. */
  lemma SourcesAgree(log: seq<Event>, order: seq<Event>, source: Id)
    requires WellKept(log) && IsReplayOrder(log, order)
    ensures Follow(order, Source(source)).Some? <==> CitedInTime(log, source)
    ensures Follow(order, Source(source)).Some? ==> Follow(order, Source(source)) == Follow(log, Source(source))
  {
    var k := Source(source);
    AcceptedIsDistinct(log, k);
    SameRestriction(log, order, k);
    FollowOn(order, k);
    var p, q := On(log, k), On(order, k);
    SameLength(p, q);
    if p == [] {
    } else {
      AcceptedCitations(p, source);
      SourceComesFirst(log, order, source);
      if CitedInTime(log, source) {
        SameCitations(p, q, source);
      } else if Follow(order, k).Some? {
        assert q[0] in p;
        AcceptedCitations(q, source);
      }
    }
  }

  // -- the whole projection --

  lemma RowIsForced(log: seq<Event>, k: Key, i: nat)
    requires Accepted(log)
    requires k.TaskState? || k.TaskTerminal? || (k.MemoryItem? && StatusesLast(log))
    requires i + 1 < |On(log, k)|
    ensures Precedes(log, On(log, k)[i], On(log, k)[i + 1])
  {
    if k.MemoryItem? {
      MemoryIsForced(log, k.memory, i);
    } else if k.TaskState? {
      StatesAreForced(log, k.task, i);
    } else {
      OneTerminal(log, k.task);
    }
  }

  /** Task states and terminal events survive every rebuild; memories do when their status changes come last. */
  lemma ForcedRowAgrees(log: seq<Event>, order: seq<Event>, k: Key)
    requires Accepted(log) && IsReplayOrder(log, order)
    requires k.TaskState? || k.TaskTerminal? || (k.MemoryItem? && StatusesLast(log))
    ensures Follow(order, k) == Follow(log, k) && Follow(order, k).Some?
  {
    AcceptedIsDistinct(log, k);
    FollowOn(order, k);
    SameRestriction(log, order, k);
    forall i | 0 <= i < |On(log, k)| - 1 ensures Precedes(log, On(log, k)[i], On(log, k)[i + 1]) {
      RowIsForced(log, k, i);
    }
    OrderForced(log, On(log, k), On(order, k));
  }

  lemma RowAgrees(log: seq<Event>, order: seq<Event>, k: Key)
    requires WellKept(log) && Rebuildable(log) && IsReplayOrder(log, order)
    ensures Follow(order, k) == Follow(log, k)
  {
    match k
    case Blob(d) => BlobsAgree(log, order, d);
    case Source(s) => SourcesAgree(log, order, s);
    case _ => ForcedRowAgrees(log, order, k);
  }

  /** Rebuilding refines incremental projection: no payload is missed, no event is refused and the tables are
      equal. */
  lemma RebuildAgrees(log: seq<Event>, order: seq<Event>)
    requires WellKept(log) && Rebuildable(log) && IsReplayOrder(log, order)
    ensures Rebuilt(log, order) == Run(log) && Run(log).Some?
  {
    RowsAreIndependent(log);
    RowsAreIndependent(order);
    forall k ensures Follow(order, k) == Follow(log, k) { RowAgrees(log, order, k); }
    var a, b := Run(log).value, Run(order).value;
    forall k ensures Lookup(a, k) == Lookup(b, k) {
      assert Follow(log, k) == Some(Lookup(a, k));
      assert Follow(order, k) == Some(Lookup(b, k));
    }
    assert a == b by {
      forall k ensures k in a <==> k in b { assert Lookup(a, k) == Lookup(b, k); }
      forall k | k in a ensures a[k] == b[k] { assert Lookup(a, k) == Lookup(b, k); }
    }
  }
}
