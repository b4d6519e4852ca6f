// How a lifecycle event gets its predecessor: the store names the latest receipt by time and id. With a
// clock that moves on, that is the receipt of the last retirement, and the catalog knows what was evicted.

module LifecycleLinks {
  import opened Basics
  import opened BlobCatalog
  import opened DependencyGraph
  import opened Projection
  import opened Rebuild
  import opened RebuildAgrees

  /** The retirement with the greatest time, then the greatest id. */
  predicate IsLatest(life: seq<Event>, r: Event) {
    r in life && Retires(r) && forall x :: x in life && Retires(x) && x != r ==> Earlier(x, r)
  }

  predicate NoReceipt(life: seq<Event>) {
    forall x :: x in life ==> !Retires(x)
  }

  /** The event names the latest receipt of its blob's history so far. */
  ghost predicate NamesLatest(life: seq<Event>, e: Event)
    requires e.kind.Lifecycle?
  {
    match e.kind.step
    case Retired(_, previous) =>
      if previous.None? then NoReceipt(life) else exists r :: IsLatest(life, r) && previous == Some(r.id)
    case Rehydrated(expected, _) => exists r :: IsLatest(life, r) && r.id == expected
  }

  ghost predicate NamedAt(log: seq<Event>, i: nat) {
    i < |log| && (log[i].kind.Lifecycle? ==> NamesLatest(LifecycleOf(log[..i], log[i].kind.digest), log[i]))
  }

  /** What holds of every log the store writes, whatever its clock says. */
  ghost predicate Stored(log: seq<Event>) {
    && Accepted(log)
    && InlineLifecycle(log)
    && forall i :: 0 <= i < |log| ==> NamedAt(log, i)
  }

  predicate SameBlob(a: Event, b: Event) {
    a.kind.Lifecycle? && b.kind.Lifecycle? && a.kind.digest == b.kind.digest
  }

  /** The clock moves on between two lifecycle events of one blob. */
  ghost predicate Ticking(log: seq<Event>) {
    forall i, j :: 0 <= i < j < |log| && SameBlob(log[i], log[j]) ==> log[i].at < log[j].at
  }

  ghost predicate Rising(life: seq<Event>) {
    forall i, j :: 0 <= i < j < |life| ==> life[i].at < life[j].at
  }

  lemma LastIsLatest(life: seq<Event>, r: Event, i: nat)
    requires Rising(life) && IsLatest(life, r) && i < |life| && Retires(life[i])
    requires forall j :: i < j < |life| ==> !Retires(life[j])
    ensures r == life[i]
  {
    var k :| 0 <= k < |life| && life[k] == r;
    assert life[i] in life;
  }

  lemma LinkNext(life: seq<Event>, e: Event)
    requires Linked(life) && Rising(life) && e.kind.Lifecycle? && NamesLatest(life, e)
    requires e.kind.step.Rehydrated? ==> life != [] && Retires(life[|life| - 1])
    ensures Linked(life + [e])
  {
    var longer, n := life + [e], |life|;
    forall i | 0 <= i < |longer| ensures LinkedAt(longer, i) {
      if i < n { assert LinkedAt(life, i); } else { LinkLast(life, e); }
    }
  }

  lemma LinkLast(life: seq<Event>, e: Event)
    requires Linked(life) && Rising(life) && e.kind.Lifecycle? && NamesLatest(life, e)
    requires e.kind.step.Rehydrated? ==> life != [] && Retires(life[|life| - 1])
    ensures LinkedAt(life + [e], |life|)
  {
    var n := |life|;
    if n > 0 {
      var last := life[n - 1];
      assert last in life && LinkedAt(life, n - 1);
      if Retires(last) {
        forall r | IsLatest(life, r) ensures r == last { LastIsLatest(life, r, n - 1); }
      } else {
        assert life[n - 2] in life && Retires(life[n - 2]);
        forall r | IsLatest(life, r) ensures r == life[n - 2] { LastIsLatest(life, r, n - 2); }
      }
    }
  }

  lemma ShorterIsAccepted(log: seq<Event>, n: nat)
    requires Accepted(log) && n <= |log|
    ensures Accepted(log[..n])
  {
    RunShorter(log, n);
    forall i | 0 <= i < n ensures AdmittedAt(log[..n], i) {
      assert AdmittedAt(log, i);
      assert log[..n][..i] == log[..i];
    }
  }

  lemma {:induction false} RunShorter(log: seq<Event>, n: nat)
    requires n <= |log| && Run(log).Some?
    ensures Run(log[..n]).Some?
  {
    if n == |log| {
      assert log[..n] == log;
    } else {
      RunShorter(log[..|log| - 1], n);
      assert log[..|log| - 1][..n] == log[..n];
    }
  }

  lemma ShorterIsStored(log: seq<Event>, n: nat)
    requires Stored(log) && n <= |log|
    ensures Stored(log[..n])
  {
    ShorterIsAccepted(log, n);
    forall i | 0 <= i < n ensures NamedAt(log[..n], i) {
      assert NamedAt(log, i);
      assert log[..n][..i] == log[..i];
    }
    assert forall e :: e in log[..n] ==> e in log;
  }

  lemma {:induction false} LifecycleRises(log: seq<Event>, d: Id)
    requires Ticking(log)
    ensures Rising(LifecycleOf(log, d))
  {
    if log != [] {
      var front, e := log[..|log| - 1], log[|log| - 1];
      LifecycleRises(front, d);
      var life := LifecycleOf(front, d);
      forall i | 0 <= i < |life| && e.kind.Lifecycle? && e.kind.digest == d ensures life[i].at < e.at {
        assert life[i] in front;
        var k :| 0 <= k < |front| && front[k] == life[i];
        assert log[k] == life[i];
      }
    }
  }

  /** A rehydration comes right behind the retirement it undoes. */
  lemma RehydratesTheLast(log: seq<Event>, d: Id)
    requires Accepted(log) && InlineLifecycle(log) && log != []
    requires var e := log[|log| - 1]; e.kind.Lifecycle? && e.kind.digest == d && e.kind.step.Rehydrated?
    ensures var life := LifecycleOf(log[..|log| - 1], d); life != [] && Retires(life[|life| - 1])
  {
    RowsAreIndependent(log);
    InterleavedRow(log, d);
    var life, all := LifecycleOf(log[..|log| - 1], d), LifecycleOf(log, d);
    assert all == life + [log[|log| - 1]];
    RehydratesEvictedBefore(all, |life|);
    assert all[..|life|] == life;
    if life != [] { assert life[|life| - 1] in life; }
  }

  /** Naming the latest receipt by time and id links every lifecycle event to the one before it, as long as
      the clock moves on. */
  lemma {:induction false} LinkedByClock(log: seq<Event>, d: Id)
    requires Stored(log) && Ticking(log)
    ensures Linked(LifecycleOf(log, d))
  {
    if log != [] {
      var n := |log| - 1;
      var front, e := log[..n], log[n];
      ShorterIsStored(log, n);
      LinkedByClock(front, d);
      if e.kind.Lifecycle? && e.kind.digest == d {
        LifecycleRises(front, d);
        assert NamedAt(log, n);
        if e.kind.step.Rehydrated? { RehydratesTheLast(log, d); }
        LinkNext(LifecycleOf(front, d), e);
      }
    }
  }

  lemma StoredIsWellKept(log: seq<Event>)
    requires Stored(log) && Ticking(log)
    ensures WellKept(log)
  {
    forall d ensures Linked(LifecycleOf(log, d)) { LinkedByClock(log, d); }
  }

  lemma StoredNext(log: seq<Event>, e: Event)
    requires Stored(log) && Accepted(log + [e])
    requires e.kind.Lifecycle? ==> e.blob.None? && NamesLatest(LifecycleOf(log, e.kind.digest), e)
    ensures Stored(log + [e])
  {
    var more := log + [e];
    forall i | 0 <= i < |more| ensures NamedAt(more, i) {
      assert more[..i] == log[..i];
      if i < |log| { assert NamedAt(log, i); } else { assert more[..i] == log; }
    }
  }

  lemma AcceptedNext(log: seq<Event>, e: Event, t: Tables)
    requires Accepted(log) && Run(log) == Some(t)
    ensures Accepted(log + [e]) <==>
              (forall i :: 0 <= i < |log| ==> log[i].id != e.id) && Admits(t, e) && Apply(t, e).Some?
    ensures Accepted(log + [e]) ==> Run(log + [e]) == Apply(t, e)
  {
    var more, n := log + [e], |log|;
    assert more[..n] == log;
    forall i | 0 <= i < n ensures AdmittedAt(more, i) {
      assert AdmittedAt(log, i);
      assert more[..i] == log[..i];
    }
    assert AdmittedAt(more, n) <==> Admits(t, e);
    assert forall i :: 0 <= i < n ==> more[i] == log[i];
    assert more[n] == e;
  }

  // -- what the catalog says of evicted blobs --

  /** The class in the catalog row of an evicted blob. */
  function CataloguedAsEvicted(row: Option<Cell>): Option<Class> {
    if row.Some? && row.value.Row? && row.value.availability == Evicted then Some(row.value.retention) else None
  }

  lemma CitedRow(row: Option<Cell>, e: Event)
    requires CataloguedAsEvicted(row).None? && WriteReference(row, e).Some?
    ensures CataloguedAsEvicted(WriteReference(row, e)).None?
  {
  }

  lemma RetiredRow(row: Option<Cell>, e: Event)
    requires e.kind.Lifecycle? && WriteLifecycle(row, e.kind).Some?
    ensures CataloguedAsEvicted(WriteLifecycle(row, e.kind)) == EvictedBy([e])
  {
  }

  lemma CatalogNext(front: seq<Event>, e: Event, d: Id, row: Option<Cell>)
    requires Follow(front, Blob(d)) == Some(row) && Follow(front + [e], Blob(d)).Some?
    requires CataloguedAsEvicted(row) == EvictedBy(LifecycleOf(front, d))
    requires e.kind.Lifecycle? ==> e.blob.None?
    requires e.blob == Some(d) ==> CataloguedAsEvicted(row).None?
    ensures CataloguedAsEvicted(Follow(front + [e], Blob(d)).value) == EvictedBy(LifecycleOf(front + [e], d))
  {
    var more := front + [e];
    assert more[..|front|] == front;
    TouchesBlob(e, d);
    if e.blob == Some(d) {
      FollowNext(front, e, Blob(d));
      CitedRow(row, e);
    } else if e.kind.Lifecycle? && e.kind.digest == d {
      FollowNext(front, e, Blob(d));
      RetiredRow(row, e);
    }
  }

  /** An evicted blob takes no more citations, so its row keeps the class of its receipt. */
  lemma {:induction false} EvictedAsCatalogued(log: seq<Event>, d: Id)
    requires Accepted(log) && InlineLifecycle(log)
    ensures CataloguedAsEvicted(Lookup(Run(log).value, Blob(d))) == EvictedAs(log, d)
  {
    RowsAreIndependent(log);
    assert Follow(log, Blob(d)) == Some(Lookup(Run(log).value, Blob(d)));
    if log != [] {
      var n := |log| - 1;
      var front, e := log[..n], log[n];
      assert log == front + [e] && e in log;
      ShorterIsAccepted(log, n);
      EvictedAsCatalogued(front, d);
      RowsAreIndependent(front);
      assert Follow(front, Blob(d)) == Some(Lookup(Run(front).value, Blob(d)));
      assert AdmittedAt(log, n);
      CatalogNext(front, e, d, Lookup(Run(front).value, Blob(d)));
    }
  }
}
