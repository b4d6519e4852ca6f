// Where the planner promises less than the readers of its outcome expect, and exactly when.

module RetentionEdges {
  import opened Basics
  import opened BlobCatalog
  import opened DependencyGraph
  import opened Retention
  import opened RetentionRuns
  import opened RetentionCatalog
  import opened HashChain
  import Payloads
  import EventChain

  // -- the log behind the catalog --

  /** One session's segment. */
  datatype Stream = Stream(host: string, session: Payloads.Uuid, rows: seq<Record<EventChain.Body>>)

  function TypeOf(kind: Payloads.Kind): EventType {
    match kind
    case MemoryCommitted => MemoryEvent
    case MemorySuperseded => MemoryEvent
    case MemoryRetired => MemoryEvent
    case MemoryDisputed => MemoryEvent
    case StateCommitted => StateCommitted
    case TaskEnded => TaskEnded
    case VerificationResult => VerificationResult
    case ArtifactObserved => ArtifactObserved
    case RetentionCited => RetentionCited
    case ProductionClaim => ProductionClaim
    case BlobArchived => LifecycleEvent
    case BlobEvicted => LifecycleEvent
    case BlobRehydrated => LifecycleEvent
    case Unreduced => Unreduced
  }

  /** The catalog's reference for a record whose payload is in a blob. */
  function ReferenceOf(key: EventChain.Scope -> Id, b: EventChain.Body): Reference
    requires b.payload.BlobShaped?
  {
    Reference(Id(b.payload.digest), Id(b.event.value), TypeOf(b.kind),
              if b.task.Some? then Some(Id(b.task.value.value)) else None, key(b.scope), b.payload.retention, b.payload.size)
  }

  ghost predicate RefersAt(key: EventChain.Scope -> Id, s: Stream, i: nat, x: Reference) {
    i < |s.rows| && s.rows[i].body.payload.BlobShaped? && x == ReferenceOf(key, s.rows[i].body)
  }

  ghost predicate Recorded(key: EventChain.Scope -> Id, streams: seq<Stream>, x: Reference) {
    exists s, i :: s in streams && RefersAt(key, s, i, x)
  }

  /** The catalog has exactly the references of these segments. */
  ghost predicate Catalogues(db: Db, key: EventChain.Scope -> Id, streams: seq<Stream>) {
    && (forall x :: x in db.references ==> Recorded(key, streams, x))
    && (forall s, i, x :: s in streams && RefersAt(key, s, i, x) ==> x in db.references)
  }

  ghost predicate AllRead(h: EventChain.Canon, files: EventChain.Files, streams: seq<Stream>) {
    forall s :: s in streams ==> EventChain.Accepted(h, files, s.host, s.session, s.rows)
  }

  /** The files after a decision was carried out. */
  function CarriedOut(files: EventChain.Files, d: Decision): EventChain.Files {
    match d.action
    case Keep => files
    case Archive => EventChain.Archiving(files, d.digest.text)
    case Evict => EventChain.Evicting(files, d.digest.text, d.size, d.retention)
  }

  /** No reader needs the payload, and every event has the class and the size that the receipt will have. */
  ghost predicate Dispensable(db: Db, d: Decision) {
    forall x :: x in ReferencesOf(db, d.digest) ==> x.kind.Unreduced? && x.stored == d.retention && x.size == d.size
  }

  lemma SparedAreDispensable(h: EventChain.Canon, files: EventChain.Files, streams: seq<Stream>, db: Db,
                             key: EventChain.Scope -> Id, d: Decision)
    requires AllRead(h, files, streams) && Catalogues(db, key, streams)
    requires AllRead(h, EventChain.Evicting(files, d.digest.text, d.size, d.retention), streams)
    ensures Dispensable(db, d)
  {
    forall x | x in ReferencesOf(db, d.digest) ensures x.kind.Unreduced? && x.stored == d.retention && x.size == d.size {
      assert Recorded(key, streams, x);
      var s, i: nat :| s in streams && RefersAt(key, s, i, x);
      EventChain.EvictionKeepsReadingIff(h, files, s.host, s.session, s.rows, d.digest.text, d.size, d.retention);
      assert EventChain.Spares(s.rows[i].body, d.digest.text, d.size, d.retention);
    }
  }

  lemma DispensableAreSpared(h: EventChain.Canon, files: EventChain.Files, streams: seq<Stream>, db: Db,
                             key: EventChain.Scope -> Id, d: Decision)
    requires AllRead(h, files, streams) && Catalogues(db, key, streams) && Dispensable(db, d)
    ensures AllRead(h, EventChain.Evicting(files, d.digest.text, d.size, d.retention), streams)
  {
    forall s | s in streams
      ensures EventChain.Accepted(h, EventChain.Evicting(files, d.digest.text, d.size, d.retention), s.host, s.session, s.rows)
    {
      forall i | 0 <= i < |s.rows| ensures EventChain.Spares(s.rows[i].body, d.digest.text, d.size, d.retention) {
        var b := s.rows[i].body;
        if b.payload.BlobShaped? && b.payload.digest == d.digest.text {
          assert RefersAt(key, s, i, ReferenceOf(key, b));
          assert ReferenceOf(key, b) in ReferencesOf(db, d.digest);
        }
      }
      EventChain.EvictionKeepsReadingIff(h, files, s.host, s.session, s.rows, d.digest.text, d.size, d.retention);
    }
  }

  /**
   * Carrying out a decision leaves every segment of the log readable exactly when it keeps or archives
   * the blob, or no reader needs the payload and all references agree with the row's class and size.
   */
  lemma CollectionKeepsReadingIff(h: EventChain.Canon, files: EventChain.Files, streams: seq<Stream>, db: Db,
                                  key: EventChain.Scope -> Id, d: Decision)
    requires AllRead(h, files, streams) && Catalogues(db, key, streams)
    ensures AllRead(h, CarriedOut(files, d), streams) <==> d.action != Evict || Dispensable(db, d)
  {
    match d.action
    case Keep =>
    case Archive =>
      forall s | s in streams ensures EventChain.Accepted(h, CarriedOut(files, d), s.host, s.session, s.rows) {
        EventChain.ArchivingKeepsReading(h, files, s.host, s.session, s.rows, d.digest.text);
      }
    case Evict =>
      if AllRead(h, CarriedOut(files, d), streams) { SparedAreDispensable(h, files, streams, db, key, d); }
      if Dispensable(db, d) { DispensableAreSpared(h, files, streams, db, key, d); }
  }

  /** What the planner does see to: a payload it evicts is not one of the three types it protects, so what
      breaks reading is a memory, state, task, citation or lifecycle event, or a class or size that differs. */
  lemma EvictionBreaksReadingIff(h: EventChain.Canon, files: EventChain.Files, streams: seq<Stream>, db: Db,
                                 key: EventChain.Scope -> Id, d: Decision, observed: nat, scopes: set<Id>)
    requires AllRead(h, files, streams) && Catalogues(db, key, streams)
    requires Deadlines(db) && d in Decisions(db, observed, scopes) && d.action == Evict
    ensures !AllRead(h, CarriedOut(files, d), streams) <==>
            exists x :: x in ReferencesOf(db, d.digest) && Breaks(x, d)
  {
    CollectionKeepsReadingIff(h, files, streams, db, key, d);
    PlannerProtects(db, d, observed, scopes);
    forall x | x in ReferencesOf(db, d.digest)
      ensures Breaks(x, d) <==> !(x.kind.Unreduced? && x.stored == d.retention && x.size == d.size)
    {
      KindsSplit(x.kind);
    }
  }

  predicate Reduced(kind: EventType) {
    kind.MemoryEvent? || kind.StateCommitted? || kind.TaskEnded? || kind.RetentionCited? || kind.LifecycleEvent?
  }

  predicate Breaks(x: Reference, d: Decision) {
    Reduced(x.kind) || x.stored != d.retention || x.size != d.size
  }

  lemma KindsSplit(kind: EventType)
    requires !Authoritative(kind)
    ensures Reduced(kind) <==> !kind.Unreduced?
  {
  }

  lemma PlannerProtects(db: Db, d: Decision, observed: nat, scopes: set<Id>)
    requires Deadlines(db) && d in Decisions(db, observed, scopes) && d.action != Keep
    ensures forall x :: x in ReferencesOf(db, d.digest) ==> !Authoritative(x.kind)
  {
    ActionableMayGo(db, d, observed, scopes);
    var row :| row in db.rows && MayGoAs(db, row, d, observed, scopes);
    assert row.digest == d.digest;
  }

  ghost predicate TasklessReference(db: Db, digest: Id) {
    exists x :: x in db.references && x.digest == digest && x.task.None?
  }

  /** A collected blob is referenced by ended tasks only, unless it was archived and a reference
      without a task came later: an archived row keeps the deadline it has. */
  lemma OnlyEndedTasksIff(db: Db, d: Decision, observed: nat, scopes: set<Id>)
    requires Deadlines(db) && d in Decisions(db, observed, scopes) && d.action != Keep
    ensures AllEnded(db, d.digest) <==> !TasklessReference(db, d.digest)
    ensures d.before == Hot ==> AllEnded(db, d.digest)
  {
    ActionableMayGo(db, d, observed, scopes);
    var row :| row in db.rows && MayGoAs(db, row, d, observed, scopes);
    forall x | x in db.references && x.digest == d.digest
      ensures x.task.Some? ==> x.task.value in db.terminals
      ensures d.before == Hot ==> x.task.Some?
    {
      assert x in ReferencesOf(db, row.digest);
    }
  }

  lemma OnlyRowActs(db: Db, row: Row, observed: nat)
    requires db.rows == [row] && Decide(db, row, observed, {}).action != Keep
    ensures Acts(db, observed, {}) == [Decide(db, row, observed, {})]
  {
    var d := Decide(db, row, observed, {});
    var plan := PlanOf(db, observed, {}).decisions;
    assert Decisions(db, observed, {}) == {d};
    ActionableSorted(plan);
    SoonerIsTotal(db, observed, {});
    var acts := Acts(db, observed, {});
    assert forall x :: x in acts <==> x in [d];
    SortedIsUnique(acts, [d], {d}, Sooner);
  }

  const digest := Id(1)
  const task := Id(2)
  const closing := Reference(digest, Id(3), TaskEnded, Some(task), Id(4), Bulk, 40000)

  const Closed: seq<Change> := [Cite(closing, Bulk, 40000), EndTask(task, 0)]

  lemma CitedHistory()
    ensures History([Cite(closing, Bulk, 40000)]) ==
            Db([Row(digest, Bulk, 40000, Hot, None, None)], {closing}, map[], {}, {}, {}, {})
  {
    var changes := [Cite(closing, Bulk, 40000)];
    assert changes[..0] == [];
    assert History([]) == Empty;
    var cited := Referenced(Empty, closing, Bulk, 40000);
    assert !IsEvicted(Empty.rows, digest);
    assert closing in cited.references && !AllEnded(cited, digest);
    assert cited.rows == [Row(digest, Bulk, 40000, Hot, None, None)];
    assert RefreshAll(cited, {digest}).rows == cited.rows;
  }

  lemma ClosedHistory()
    ensures History(Closed) ==
            Db([Row(digest, Bulk, 40000, Hot, Some(0), Some(BULK_HOT_SECONDS))], {closing}, map[task := 0], {}, {}, {}, {})
  {
    CitedHistory();
    assert Closed[..1] == [Cite(closing, Bulk, 40000)];
    var first := History(Closed[..1]);
    var ended := first.(terminals := map[task := 0]);
    assert closing in ended.references && closing in first.references;
    assert EndTimes(ended, digest) == {0};
    assert (set x | x in first.references && x.task == Some(task) :: x.digest) == {digest};
    assert Refresh(ended, first.rows[0]) == Row(digest, Bulk, 40000, Hot, Some(0), Some(BULK_HOT_SECONDS));
    assert RefreshAll(ended, {digest}).rows == [Refresh(ended, first.rows[0])];
    assert Changed(first, Closed[1]) == RefreshAll(ended, {digest});
  }

  lemma NothingPins(db: Db, row: Row)
    requires db.memories == {} && db.evidence == {} && db.states == {} && db.citations == {}
    requires db.references == {closing} && row.digest == digest && row.retention == Bulk && task in db.terminals
    ensures PinReasons(db, row, {}) == {}
  {
    assert ReferencesOf(db, digest) == {closing};
  }

  /** The large payload of a task's closing event, stored as bulk, is evicted after fourteen days, and the
      log of any store with this catalog can no longer be read. */
  lemma ClosingPayloadEvicted(h: EventChain.Canon, files: EventChain.Files, streams: seq<Stream>, key: EventChain.Scope -> Id)
    requires AllRead(h, files, streams) && Catalogues(History(Closed), key, streams)
    ensures var acts := Acts(History(Closed), BULK_HOT_SECONDS, {});
            && |acts| == 1 && acts[0].action == Evict && acts[0].digest == digest
            && !AllRead(h, CarriedOut(files, acts[0]), streams)
  {
    ClosedEvicts();
    var d := Acts(History(Closed), BULK_HOT_SECONDS, {})[0];
    assert closing in ReferencesOf(History(Closed), digest);
    CollectionKeepsReadingIff(h, files, streams, History(Closed), key, d);
  }

  lemma ClosedEvicts()
    ensures var acts := Acts(History(Closed), BULK_HOT_SECONDS, {});
            |acts| == 1 && acts[0].action == Evict && acts[0].digest == digest && closing in History(Closed).references
  {
    ClosedHistory();
    var db := History(Closed);
    NothingPins(db, db.rows[0]);
    OnlyRowActs(db, db.rows[0], BULK_HOT_SECONDS);
  }
}
