// Logs that the store writes and a rebuild refuses, one for each of its conditions.

module RebuildFailures {
  import opened Basics
  import opened BlobCatalog
  import opened DependencyGraph
  import opened Projection
  import opened Rebuild
  import opened RebuildAgrees
  import opened RebuildEdges
  import opened LifecycleLinks

  const BLOB := Id(1)

  /** An event of a type that no reducer and no reader needs, with its payload in the blob. */
  function Note(id: nat, retention: Class): Event {
    Event(Id(id), id, Id(0), retention, Some(BLOB), Other(false))
  }

  /** The end of a task, with its payload in the blob. */
  function Ending(id: nat, retention: Class): Event {
    Event(Id(id), id, Id(0), retention, Some(BLOB), Terminal(Id(0), false))
  }

  function Retiring(id: nat, retention: Class, to: Availability): Event {
    Event(Id(id), id, Id(0), Core, None, Lifecycle(BLOB, retention, Step.Retired(to, None)))
  }

  lemma Takes(t: Tables, e: Event)
    requires forall k :: k in Touched(e) ==> Write(Lookup(t, k), e, k).Some?
    ensures Apply(t, e).Some?
    ensures forall k :: Lookup(Apply(t, e).value, k) == if k in Touched(e) then Write(Lookup(t, k), e, k) else Lookup(t, k)
  {
  }

  /** One more event of a stored log, and the tables after it. */
  lemma Stores(log: seq<Event>, t: Tables, e: Event)
    requires Stored(log) && Run(log) == Some(t) && Admits(t, e)
    requires forall x :: x in log ==> x.id != e.id
    requires forall k :: k in Touched(e) ==> Write(Lookup(t, k), e, k).Some?
    requires e.kind.Lifecycle? ==> e.blob.None? && NamesLatest(LifecycleOf(log, e.kind.digest), e)
    ensures Stored(log + [e]) && Run(log + [e]) == Apply(t, e)
    ensures forall k :: Lookup(Apply(t, e).value, k) == if k in Touched(e) then Write(Lookup(t, k), e, k) else Lookup(t, k)
  {
    Takes(t, e);
    AcceptedNext(log, e, t);
    StoredNext(log, e);
  }

  /** A log that ends in these tables, whose events so far have at most these ids. */
  ghost predicate Reaches(log: seq<Event>, t: Tables, last: nat) {
    && Stored(log) && Run(log) == Some(t)
    && (forall e :: e in log ==> e.id.text <= last)
    && (forall id :: Source(id) in t ==> id.text <= last)
  }

  predicate HotOrNew(row: Option<Cell>, last: nat) {
    row.Some? ==> row.value.Row? && row.value.availability != Evicted && forall id :: id in row.value.references ==> id.text <= last
  }

  lemma Citing(log: seq<Event>, t: Tables, e: Event, last: nat) returns (next: Tables)
    requires Reaches(log, t, last) && last < e.id.text && HotOrNew(Lookup(t, Blob(BLOB)), last)
    requires e.blob == Some(BLOB) && (e.kind.Other? || (e.kind.Terminal? && TaskTerminal(e.kind.task) !in t))
    ensures Reaches(log + [e], next, e.id.text)
    ensures Lookup(next, Blob(BLOB)) == WriteReference(Lookup(t, Blob(BLOB)), e) && HotOrNew(Lookup(next, Blob(BLOB)), e.id.text)
  {
    Stores(log, t, e);
    next := Apply(t, e).value;
    forall id | Source(id) in next ensures id.text <= e.id.text {
      assert Lookup(next, Source(id)).Some?;
    }
  }

  lemma Retirement(log: seq<Event>, t: Tables, e: Event, last: nat) returns (next: Tables)
    requires Reaches(log, t, last) && last < e.id.text && e.kind.Lifecycle? && e.kind.digest == BLOB && e.blob.None?
    requires e.kind.step.Retired? && e.kind.step.previous.None? && NoReceipt(LifecycleOf(log, BLOB))
    requires var row := Lookup(t, Blob(BLOB)); row.Some? && row.value.Row? && row.value.retention == e.kind.retention
    ensures Reaches(log + [e], next, e.id.text)
    ensures Lookup(next, Blob(BLOB)) == Some(Lookup(t, Blob(BLOB)).value.(availability := e.kind.step.to))
  {
    assert Touched(e) == {Blob(BLOB)};
    Stores(log, t, e);
    next := Apply(t, e).value;
    forall id | Source(id) in next ensures id.text <= e.id.text {
      assert Lookup(next, Source(id)).Some?;
    }
  }

  lemma NothingYet()
    ensures Reaches([], map[], 0) && Lookup(map[], Blob(BLOB)).None?
  {
  }

  // -- evicted payloads that reading the segments trips over --

  /** A blob with two citations, evicted as the catalog has it. */
  function EvictedLog(a: Event, b: Event): seq<Event> {
    [a, b, Retiring(13, Merge(a.retention, b.retention), Evicted)]
  }

  predicate CitesBlob(e: Event, id: nat) {
    e.id == Id(id) && e.blob == Some(BLOB) && (e.kind.Other? || e.kind.Terminal?)
  }

  lemma LifeOf(log: seq<Event>, e: Event)
    requires forall x :: x in log ==> !x.kind.Lifecycle?
    ensures forall d :: LifecycleOf(log, d) == []
    ensures e.kind.Lifecycle? ==> forall d :: LifecycleOf(log + [e], d) == if d == e.kind.digest then [e] else []
  {
    forall d ensures LifecycleOf(log, d) == [] { NoLifecycle(log, d); }
    assert (log + [e])[..|log|] == log;
  }

  lemma TwoCitations(a: Event, b: Event) returns (t: Tables)
    requires CitesBlob(a, 11) && CitesBlob(b, 12) && b.kind.Other?
    ensures Reaches([a, b], t, 12)
    ensures Lookup(t, Blob(BLOB)) == Some(Row(Merge(a.retention, b.retention), {a.id, b.id}, Hot))
  {
    NothingYet();
    var t1 := Citing([], map[], a, 0);
    assert [] + [a] == [a];
    t := Citing([a], t1, b, 11);
    assert [a] + [b] == [a, b] && {a.id} + {b.id} == {a.id, b.id};
  }

  lemma EvictedLogRuns(a: Event, b: Event)
    requires CitesBlob(a, 11) && CitesBlob(b, 12) && b.kind.Other?
    ensures Stored(EvictedLog(a, b)) && Ticking(EvictedLog(a, b))
    ensures Lookup(Run(EvictedLog(a, b)).value, Blob(BLOB)) == Some(Row(Merge(a.retention, b.retention), {a.id, b.id}, Evicted))
  {
    var e := Retiring(13, Merge(a.retention, b.retention), Evicted);
    var t2 := TwoCitations(a, b);
    LifeOf([a, b], e);
    var t3 := Retirement([a, b], t2, e, 12);
    assert [a, b] + [e] == EvictedLog(a, b);
  }

  lemma EvictedLogLife(a: Event, b: Event)
    requires CitesBlob(a, 11) && CitesBlob(b, 12) && b.kind.Other?
    ensures var e := Retiring(13, Merge(a.retention, b.retention), Evicted);
            && EvictedAs(EvictedLog(a, b), BLOB) == Some(e.kind.retention)
            && forall x :: x in EvictedLog(a, b) <==> x == a || x == b || x == e
  {
    var e := Retiring(13, Merge(a.retention, b.retention), Evicted);
    LifeOf([a, b], e);
    assert [a, b] + [e] == EvictedLog(a, b);
  }

  /** Its replay would be accepted: nothing but the reading stops a rebuild. */
  lemma EvictedLogReplays(a: Event, b: Event)
    requires CitesBlob(a, 11) && CitesBlob(b, 12) && b.kind.Other?
    ensures Stored(EvictedLog(a, b)) && ReplayAccepts(EvictedLog(a, b))
    ensures ReadsThrough(EvictedLog(a, b)) <==>
              Readable(a, Some(Merge(a.retention, b.retention))) && Readable(b, Some(Merge(a.retention, b.retention)))
  {
    EvictedLogRuns(a, b);
    EvictedLogLife(a, b);
  }

  /** The payload of a task's end was evicted: the log stands, its replay would be accepted, and no rebuild
      gets through the reading. */
  lemma NeededPayloadStopsRebuild(retention: Class, order: seq<Event>)
    requires IsReplayOrder(EvictedLog(Ending(11, retention), Note(12, retention)), order)
    ensures var log := EvictedLog(Ending(11, retention), Note(12, retention));
            Stored(log) && Run(order).Some? && Rebuilt(log, order).None?
  {
    var log := EvictedLog(Ending(11, retention), Note(12, retention));
    EvictedLogReplays(Ending(11, retention), Note(12, retention));
    EvictedLogRuns(Ending(11, retention), Note(12, retention));
    StoredIsWellKept(log);
    RebuildAcceptedIff(log, order);
  }

  /** A blob cited as scratch and as bulk was evicted as bulk: no reader needs it, and still the class on the
      receipt differs from the one stored with the first event. */
  lemma MixedClassesStopRebuild(order: seq<Event>)
    requires IsReplayOrder(EvictedLog(Note(11, Scratch), Note(12, Bulk)), order)
    ensures var log := EvictedLog(Note(11, Scratch), Note(12, Bulk));
            Stored(log) && Run(order).Some? && Rebuilt(log, order).None?
  {
    var log := EvictedLog(Note(11, Scratch), Note(12, Bulk));
    EvictedLogReplays(Note(11, Scratch), Note(12, Bulk));
    EvictedLogRuns(Note(11, Scratch), Note(12, Bulk));
    StoredIsWellKept(log);
    RebuildAcceptedIff(log, order);
  }

  // -- a blob whose class rose after it was archived --

  const RaisedLog := [Note(11, Bulk), Retiring(12, Bulk, Archived), Note(13, Core)]

  lemma RaisedLogRuns()
    ensures Stored(RaisedLog) && Ticking(RaisedLog)
    ensures Lookup(Run(RaisedLog).value, Blob(BLOB)) == Some(Row(Core, {Id(11), Id(13)}, Archived))
  {
    var a, e, b := Note(11, Bulk), Retiring(12, Bulk, Archived), Note(13, Core);
    NothingYet();
    var t1 := Citing([], map[], a, 0);
    assert [] + [a] == [a];
    LifeOf([a], e);
    var t2 := Retirement([a], t1, e, 11);
    assert [a] + [e] == [a, e];
    var t3 := Citing([a, e], t2, b, 12);
    assert [a, e] + [b] == RaisedLog && {a.id} + {b.id} == {Id(11), Id(13)};
  }

  /** Cite as bulk, archive, cite as core: the rebuild finds a core row where the archiving event says bulk. */
  lemma RaisedClassIsRefused(order: seq<Event>)
    requires IsReplayOrder(RaisedLog, order)
    ensures Stored(RaisedLog) && ReadsThrough(RaisedLog) && !Settled(RaisedLog, BLOB) && Rebuilt(RaisedLog, order).None?
  {
    var a, e, b := Note(11, Bulk), Retiring(12, Bulk, Archived), Note(13, Core);
    RaisedLogRuns();
    StoredIsWellKept(RaisedLog);
    assert RaisedLog[1] in RaisedLog;
    LifeOf([a], e);
    assert RaisedLog[..2] == [a] + [e];
    assert EvictedAs(RaisedLog, BLOB).None?;
    assert forall x :: x in RaisedLog ==> x.blob in {None, Some(BLOB)};
    RebuildAcceptedIff(RaisedLog, order);
  }

  // -- a citation that sorts before its source --

  /** `Id(12)` is a citation with its payload in a blob; `Id(13)` cites it and is dated earlier. */
  const BackdatedLog := [
    Note(11, Bulk),
    Event(Id(12), 5, Id(0), Bulk, Some(Id(2)), Citation({Id(11)}, false)),
    Event(Id(13), 3, Id(0), Bulk, None, Citation({Id(12)}, false))]

  lemma NewSource(log: seq<Event>, t: Tables, e: Event)
    requires Stored(log) && Run(log) == Some(t) && forall x :: x in log ==> x.id != e.id
    requires e.kind.Other? && e.blob.Some? && Lookup(t, Blob(e.blob.value)).None? && Lookup(t, Source(e.id)).None?
    ensures Stored(log + [e]) && Run(log + [e]) == Apply(t, e)
    ensures Lookup(Apply(t, e).value, Source(e.id)) == Some(Cited(e.scope, {}, {}))
    ensures forall k :: k != Source(e.id) && k != Blob(e.blob.value) ==> Lookup(Apply(t, e).value, k) == Lookup(t, k)
  {
    Stores(log, t, e);
  }

  lemma CitesSource(log: seq<Event>, t: Tables, e: Event, source: Id)
    requires Stored(log) && Run(log) == Some(t) && forall x :: x in log ==> x.id != e.id
    requires e.kind.Citation? && e.kind.sources == {source} && source != e.id
    requires Lookup(t, Source(source)).Some? && Lookup(t, Source(source)).value.Cited? && Lookup(t, Source(source)).value.scope == e.scope
    requires e.blob.Some? ==> Lookup(t, Blob(e.blob.value)).None? && Lookup(t, Source(e.id)).None?
    ensures Stored(log + [e]) && Run(log + [e]) == Apply(t, e)
    ensures e.blob.Some? ==> Lookup(Apply(t, e).value, Source(e.id)) == Some(Cited(e.scope, {}, {}))
  {
    Stores(log, t, e);
  }

  lemma BackdatedLogRuns()
    ensures Stored(BackdatedLog) && Ticking(BackdatedLog)
  {
    var a, b, c := BackdatedLog[0], BackdatedLog[1], BackdatedLog[2];
    NothingYet();
    NewSource([], map[], a);
    var t1 := Apply(map[], a).value;
    assert [] + [a] == [a];
    CitesSource([a], t1, b, Id(11));
    assert [a] + [b] == [a, b];
    CitesSource([a, b], Apply(t1, b).value, c, Id(12));
    assert [a, b] + [c] == BackdatedLog;
  }

  /** The citation replays before its source is there, and the rebuild is refused. */
  lemma BackdatedCitationIsRefused(order: seq<Event>)
    requires IsReplayOrder(BackdatedLog, order)
    ensures Stored(BackdatedLog) && ReadsThrough(BackdatedLog) && !CitedInTime(BackdatedLog, Id(12)) && Rebuilt(BackdatedLog, order).None?
  {
    BackdatedLogRuns();
    StoredIsWellKept(BackdatedLog);
    assert BackdatedLog[1] in BackdatedLog && BackdatedLog[2] in BackdatedLog;
    assert Cites(BackdatedLog[2], BackdatedLog[1]);
    forall d ensures LifecycleOf(BackdatedLog, d) == [] { NoLifecycle(BackdatedLog, d); }
    RebuildAcceptedIff(BackdatedLog, order);
  }
}
