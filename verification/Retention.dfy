// Retention planning: what pins a blob, what its class and age allow, and the ordered plan.

module Retention {
  import opened Basics
  import opened BlobCatalog
  import opened DependencyGraph

  const SCRATCH_HOT_SECONDS: nat := 24 * 60 * 60
  const BULK_HOT_SECONDS: nat := 14 * 24 * 60 * 60
  const BULK_ARCHIVE_SECONDS: nat := 90 * 24 * 60 * 60
  const EVIDENCE_HOT_SECONDS: nat := 180 * 24 * 60 * 60

  datatype EventType =
    | VerificationResult | ArtifactObserved | ProductionClaim
    | MemoryEvent | StateCommitted | TaskEnded | RetentionCited | LifecycleEvent
    | Unreduced

  /** An event with its payload in the blob; `stored` and `size` are what the event itself says of it. */
  datatype Reference = Reference(
    digest: Id, event: Id, kind: EventType, task: Option<Id>, scope: Id, stored: Class, size: nat)

  datatype Row = Row(
    digest: Id, retention: Class, size: nat, availability: Availability,
    terminalAt: Option<nat>, expiresAt: Option<nat>)

  datatype Memory = Memory(id: Id, live: bool, source: Id, mentions: set<Id>)

  datatype EvidenceRow = EvidenceRow(id: Id, source: Option<Id>, digest: Option<Id>)

  /** A committed task state; `mentions` are the digests and event ids its text contains. */
  datatype StateRow = StateRow(task: Id, through: Id, mentions: set<Id>)

  datatype CitationRow = CitationRow(source: Id, production: bool)

  /** The projection tables that retention reads. */
  datatype Db = Db(
    rows: seq<Row>,
    references: set<Reference>,
    terminals: map<Id, nat>,
    memories: set<Memory>,
    evidence: set<EvidenceRow>,
    states: set<StateRow>,
    citations: set<CitationRow>)

  /** The catalog has one row per digest. */
  ghost predicate OneRowEach(rows: seq<Row>) {
    forall i, j :: 0 <= i < j < |rows| ==> rows[i].digest != rows[j].digest
  }

  datatype Reason =
    | CorePin
    | OutsideScope
    | ActiveTask(task: Id)
    | AuthoritativeEvent(kind: EventType)
    | LiveMemory(memory: Id)
    | CitedEvidence(evidence: Id)
    | ActiveState(task: Id)
    | ProductionCitation(source: Id)
    | MemoryMention(memory: Id)
    | StateMention(task: Id)

  function ReferencesOf(db: Db, digest: Id): (r: set<Reference>) {
    set x | x in db.references && x.digest == digest
  }

  function EventsOf(db: Db, digest: Id): (r: set<Id>) {
    set x | x in db.references && x.digest == digest :: x.event
  }

  function ScopesOf(db: Db, digest: Id): (r: set<Id>) {
    set x | x in db.references && x.digest == digest :: x.scope
  }

  /** Everything that protects a blob from collection. */
  function PinReasons(db: Db, row: Row, scopes: set<Id>): (reasons: set<Reason>) {
    var events := EventsOf(db, row.digest);
    (if row.retention.Core? then {CorePin} else {})
    + (if scopes != {} && !(ScopesOf(db, row.digest) <= scopes) then {OutsideScope} else {})
    + (set x | x in ReferencesOf(db, row.digest) && x.task.Some? && x.task.value !in db.terminals :: ActiveTask(x.task.value))
    + (set x | x in ReferencesOf(db, row.digest) && Authoritative(x.kind) :: AuthoritativeEvent(x.kind))
    + (set m | m in db.memories && m.live && m.source in events :: LiveMemory(m.id))
    + (set e | e in db.evidence && ((e.source.Some? && e.source.value in events) || e.digest == Some(row.digest))
         :: CitedEvidence(e.id))
    + (set s | s in db.states && s.through in events && s.task !in db.terminals :: ActiveState(s.task))
    + (set c | c in db.citations && c.production && c.source in events :: ProductionCitation(c.source))
    + (set m | m in db.memories && m.live && row.digest in m.mentions :: MemoryMention(m.id))
    + (set s | s in db.states && s.task !in db.terminals && (row.digest in s.mentions || s.mentions * events != {})
         :: StateMention(s.task))
  }

  /** The event types whose payloads the planner itself protects. */
  predicate Authoritative(kind: EventType) {
    kind.VerificationResult? || kind.ArtifactObserved? || kind.ProductionClaim?
  }

  datatype Action = Keep | Archive | Evict

  datatype Why =
    | AlreadyEvicted | ProtectedReference | NotTerminal | ArchiveTtl | HotTtl
    | ArchiveExpired | EvidenceArchiveRetained | ScratchExpired | CitedBulk | UncitedBulk | OldEvidence | CoreNeverCollected

  function RetentionAction(row: Row, observed: nat, pinned: bool, cited: bool): (r: (Action, Why)) {
    if row.availability == Evicted then (Keep, AlreadyEvicted)
    else if pinned then (Keep, ProtectedReference)
    else if row.terminalAt.None? || row.expiresAt.None? then (Keep, NotTerminal)
    else if observed < row.expiresAt.value then
      (Keep, if row.availability == Archived then ArchiveTtl else HotTtl)
    else if row.availability == Archived then
      if row.retention.Bulk? then (Evict, ArchiveExpired) else (Keep, EvidenceArchiveRetained)
    else match row.retention
      case Scratch => (Evict, ScratchExpired)
      case Bulk => if cited then (Archive, CitedBulk) else (Evict, UncitedBulk)
      case Evidence => (Archive, OldEvidence)
      case Core => (Keep, CoreNeverCollected)
  }

  datatype Decision = Decision(
    digest: Id, retention: Class, before: Availability, action: Action, why: Why, size: nat,
    terminalAt: Option<nat>, expiresAt: Option<nat>, sources: set<Id>, scopes: set<Id>, pins: set<Reason>, cited: bool)

  function Decide(db: Db, row: Row, observed: nat, scopes: set<Id>): (d: Decision) {
    var pins := PinReasons(db, row, scopes);
    var cited := exists c :: c in db.citations && !c.production && c.source in EventsOf(db, row.digest);
    var (action, why) := RetentionAction(row, observed, pins != {}, cited);
    Decision(row.digest, row.retention, row.availability, action, why, row.size,
             row.terminalAt, row.expiresAt, EventsOf(db, row.digest), ScopesOf(db, row.digest), pins, cited)
  }

  /** Rows a plan for the given scopes looks at; no scopes means all rows. */
  predicate InScope(db: Db, row: Row, scopes: set<Id>) {
    scopes == {} || ScopesOf(db, row.digest) * scopes != {}
  }

  function Decisions(db: Db, observed: nat, scopes: set<Id>): (r: set<Decision>) {
    set row | row in db.rows && InScope(db, row, scopes) :: Decide(db, row, observed, scopes)
  }

  /** Plan order: scratch, bulk, evidence, core; sooner expiry first; then the digest. */
  predicate Sooner(a: Decision, b: Decision) {
    if a.retention != b.retention then Rank(a.retention) > Rank(b.retention)
    else if a.expiresAt != b.expiresAt then
      a.expiresAt.Some? && (b.expiresAt.None? || a.expiresAt.value < b.expiresAt.value)
    else a.digest.text < b.digest.text
  }

  datatype Plan = Plan(observed: nat, scopes: set<Id>, hotBytes: nat, cited: set<Id>, decisions: seq<Decision>)

  /** Bytes the catalog counts as hot. */
  function HotBytes(rows: seq<Row>): (r: nat) {
    if rows == [] then 0
    else HotBytes(rows[..|rows| - 1]) + if rows[|rows| - 1].availability == Hot then rows[|rows| - 1].size else 0
  }

  function Actionable(decisions: seq<Decision>): (r: seq<Decision>)
    ensures forall d :: d in r <==> d in decisions && d.action != Keep
  {
    if decisions == [] then []
    else
      var front := Actionable(decisions[..|decisions| - 1]);
      var d := decisions[|decisions| - 1];
      assert forall x :: x in decisions <==> x in decisions[..|decisions| - 1] || x == d;
      if d.action != Keep then front + [d] else front
  }

  lemma SoonerIsOrder(a: Decision, b: Decision, c: Decision)
    ensures !Sooner(a, a)
    ensures Sooner(a, b) && Sooner(b, c) ==> Sooner(a, c)
    ensures a.digest != b.digest ==> Sooner(a, b) || Sooner(b, a)
  {
  }

  lemma SoonerIsTotal(db: Db, observed: nat, scopes: set<Id>)
    requires OneRowEach(db.rows)
    ensures StrictTotalOn(Decisions(db, observed, scopes), Sooner)
  {
    var s := Decisions(db, observed, scopes);
    forall x, y | x in s && y in s ensures Sooner(x, y) || x == y || Sooner(y, x) {
      SoonerIsOrder(x, y, x);
    }
    forall x, y, z ensures Sooner(x, y) && Sooner(y, z) ==> Sooner(x, z) { SoonerIsOrder(x, y, z); }
  }

  function PlanOf(db: Db, observed: nat, scopes: set<Id>): (p: Plan)
    requires OneRowEach(db.rows)
    ensures forall d :: d in p.decisions <==> d in Decisions(db, observed, scopes)
    ensures SortedBy(p.decisions, Sooner) && NoDuplicates(p.decisions)
  {
    SoonerIsTotal(db, observed, scopes);
    Plan(observed, scopes, HotBytes(db.rows), set c | c in db.citations && !c.production :: c.source,
         Sorted(Decisions(db, observed, scopes), Sooner))
  }

  lemma {:induction false} ActionableSorted(decisions: seq<Decision>)
    requires SortedBy(decisions, Sooner) && NoDuplicates(decisions)
    ensures SortedBy(Actionable(decisions), Sooner) && NoDuplicates(Actionable(decisions))
  {
    if decisions != [] {
      var front, d := decisions[..|decisions| - 1], decisions[|decisions| - 1];
      ActionableSorted(front);
      forall i | 0 <= i < |Actionable(front)| ensures Sooner(Actionable(front)[i], d) && Actionable(front)[i] != d {
        assert Actionable(front)[i] in front;
      }
    }
  }
}
