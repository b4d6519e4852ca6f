// The catalog over whole histories: every change that touches a row keeps its deadline in
// step with the references and the ends of their tasks.

module RetentionCatalog {
  import opened Basics
  import opened BlobCatalog
  import opened DependencyGraph
  import opened Retention
  import opened RetentionRuns
  import DecisionMeaning

  function HotSeconds(retention: Class): Option<nat> {
    match retention
    case Scratch => Some(SCRATCH_HOT_SECONDS)
    case Bulk => Some(BULK_HOT_SECONDS)
    case Evidence => Some(EVIDENCE_HOT_SECONDS)
    case Core => None
  }

  function Due(retention: Class, ended: nat): Option<nat> {
    if HotSeconds(retention).Some? then Some(ended + HotSeconds(retention).value) else None
  }

  ghost function Greatest(s: set<nat>): (m: nat)
    requires s != {}
    ensures m in s && forall x :: x in s ==> x <= m
  {
    var x :| x in s;
    if s == {x} then x
    else
      var rest := Greatest(s - {x});
      assert forall y :: y in s ==> y == x || y in s - {x};
      if rest < x then x else rest
  }

  predicate AllEnded(db: Db, digest: Id) {
    forall x :: x in db.references && x.digest == digest ==> x.task.Some? && x.task.value in db.terminals
  }

  function EndTimes(db: Db, digest: Id): set<nat> {
    set x | x in db.references && x.digest == digest && x.task.Some? && x.task.value in db.terminals
      :: db.terminals[x.task.value]
  }

  /** Recomputes the deadline of a hot row: none while some task runs, else the last end plus the class's time. */
  ghost function Refresh(db: Db, row: Row): (r: Row) {
    if row.availability != Hot then row
    else if !AllEnded(db, row.digest) then row.(terminalAt := None, expiresAt := None)
    else if EndTimes(db, row.digest) == {} then row
    else
      var at := Greatest(EndTimes(db, row.digest));
      row.(terminalAt := Some(at),
           expiresAt := Due(row.retention, at))
  }

  datatype Change =
    | Cite(reference: Reference, retention: Class, size: nat)
    | EndTask(task: Id, at: nat)
    | Collect(observed: nat, scopes: set<Id>, n: nat)
    | Rehydrate(digest: Id)
    | Learn(memories: set<Memory>, evidence: set<EvidenceRow>, states: set<StateRow>, citations: set<CitationRow>)

  predicate HasRow(rows: seq<Row>, digest: Id) {
    exists i :: 0 <= i < |rows| && rows[i].digest == digest
  }

  /** A blob that was evicted takes no more references. */
  predicate IsEvicted(rows: seq<Row>, digest: Id) {
    exists i :: 0 <= i < |rows| && rows[i].digest == digest && rows[i].availability == Evicted
  }

  ghost function RefreshAll(db: Db, digests: set<Id>): Db {
    db.(rows := seq(|db.rows|, i requires 0 <= i < |db.rows| =>
      if db.rows[i].digest in digests then Refresh(db, db.rows[i]) else db.rows[i]))
  }

  ghost function Changed(db: Db, c: Change): (r: Db)
    requires OneRowEach(db.rows)
  {
    match c
    case Cite(x, retention, size) =>
      if IsEvicted(db.rows, x.digest) then db
      else RefreshAll(Referenced(db, x, retention, size), {x.digest})
    case EndTask(task, at) =>
      if task in db.terminals then db
      else RefreshAll(db.(terminals := db.terminals[task := at]),
                      set x | x in db.references && x.task == Some(task) :: x.digest)
    case Collect(observed, scopes, n) =>
      ApplyAll(db, CarriedOut(db, observed, scopes, n), observed)
    case Rehydrate(digest) =>
      RefreshAll(db.(rows := UpdateRow(db.rows, digest, (row: Row) =>
        if row.availability == Evicted then row.(availability := Hot) else row)), {digest})
    case Learn(memories, evidence, states, citations) =>
      db.(memories := memories, evidence := evidence, states := states, citations := citations)
  }

  /** A hot row has a deadline exactly when all its tasks are over: the last end and the time of its class. */
  ghost predicate DeadlineFits(db: Db, row: Row) {
    row.availability == Hot ==>
      && (row.terminalAt.Some? <==> AllEnded(db, row.digest))
      && (row.terminalAt.None? ==> row.expiresAt.None?)
      && (row.terminalAt.Some? ==>
            && row.terminalAt.value in EndTimes(db, row.digest)
            && (forall t :: t in EndTimes(db, row.digest) ==> t <= row.terminalAt.value)
            && row.expiresAt == Due(row.retention, row.terminalAt.value))
  }

  ghost predicate Deadlines(db: Db) {
    && OneRowEach(db.rows)
    && (forall x :: x in db.references ==> HasRow(db.rows, x.digest))
    && (forall i :: 0 <= i < |db.rows| ==> ReferencesOf(db, db.rows[i].digest) != {})
    && (forall i :: 0 <= i < |db.rows| ==> DeadlineFits(db, db.rows[i]))
  }

  lemma RefreshFits(db: Db, row: Row)
    requires ReferencesOf(db, row.digest) != {}
    ensures DeadlineFits(db, Refresh(db, row)) && Refresh(db, row).digest == row.digest
  {
    var x :| x in ReferencesOf(db, row.digest);
    if AllEnded(db, row.digest) { assert db.terminals[x.task.value] in EndTimes(db, row.digest); }
  }

  /** A row whose references and the ends of their tasks did not change keeps a fitting deadline. */
  lemma UntouchedFits(db: Db, next: Db, row: Row)
    requires DeadlineFits(db, row)
    requires ReferencesOf(next, row.digest) == ReferencesOf(db, row.digest)
    requires forall x :: x in ReferencesOf(db, row.digest) && x.task.Some? ==>
               && (x.task.value in next.terminals <==> x.task.value in db.terminals)
               && (x.task.value in db.terminals ==> next.terminals[x.task.value] == db.terminals[x.task.value])
    ensures DeadlineFits(next, row)
  {
    forall x ensures x in next.references && x.digest == row.digest <==> x in db.references && x.digest == row.digest {
      assert x in ReferencesOf(next, row.digest) <==> x in ReferencesOf(db, row.digest);
    }
    SameEndTimes(db, next, row.digest);
  }

  lemma SameEndTimes(db: Db, next: Db, digest: Id)
    requires forall x :: x in next.references && x.digest == digest <==> x in db.references && x.digest == digest
    requires forall x :: x in ReferencesOf(db, digest) && x.task.Some? ==>
               && (x.task.value in next.terminals <==> x.task.value in db.terminals)
               && (x.task.value in db.terminals ==> next.terminals[x.task.value] == db.terminals[x.task.value])
    ensures EndTimes(next, digest) == EndTimes(db, digest) && (AllEnded(next, digest) <==> AllEnded(db, digest))
  {
    forall x | x in db.references && x.digest == digest ensures x in ReferencesOf(db, digest) { }
    forall t ensures t in EndTimes(next, digest) <==> t in EndTimes(db, digest) {
      if t in EndTimes(next, digest) {
        var x :| x in next.references && x.digest == digest && x.task.Some? && x.task.value in next.terminals
          && t == next.terminals[x.task.value];
        assert x in db.references && x in ReferencesOf(db, digest);
      }
      if t in EndTimes(db, digest) {
        var x :| x in db.references && x.digest == digest && x.task.Some? && x.task.value in db.terminals
          && t == db.terminals[x.task.value];
        assert x in next.references && x in ReferencesOf(db, digest);
      }
    }
  }

  lemma RefreshAllFits(db: Db, next: Db, digests: set<Id>)
    requires next == db.(rows := next.rows) && OneRowEach(db.rows)
    requires next == RefreshAll(db, digests)
    requires forall i :: 0 <= i < |db.rows| ==> ReferencesOf(db, db.rows[i].digest) != {}
    requires forall i :: 0 <= i < |db.rows| && db.rows[i].digest !in digests ==> DeadlineFits(db, db.rows[i])
    requires forall x :: x in db.references ==> HasRow(db.rows, x.digest)
    ensures Deadlines(next)
  {
    forall i | 0 <= i < |next.rows|
      ensures next.rows[i].digest == db.rows[i].digest && DeadlineFits(next, next.rows[i])
      ensures ReferencesOf(next, next.rows[i].digest) != {}
    {
      RefreshFits(db, db.rows[i]);
      assert DeadlineFits(db, next.rows[i]);
      UntouchedFits(db, next, next.rows[i]);
    }
    forall x | x in next.references ensures HasRow(next.rows, x.digest) {
      var i :| 0 <= i < |db.rows| && db.rows[i].digest == x.digest;
      assert next.rows[i].digest == x.digest;
    }
  }

  /** The catalog with one more reference, before any deadline is recomputed. */
  ghost function Referenced(db: Db, x: Reference, retention: Class, size: nat): (r: Db) {
    db.(
      references := db.references + {x},
      rows := if HasRow(db.rows, x.digest)
              then UpdateRow(db.rows, x.digest, (row: Row) => row.(retention := Merge(row.retention, retention)))
              else db.rows + [Row(x.digest, retention, size, Hot, None, None)])
  }

  lemma ReferencedRow(db: Db, x: Reference, retention: Class, size: nat, i: nat)
    requires Deadlines(db) && i < |Referenced(db, x, retention, size).rows|
    ensures var next := Referenced(db, x, retention, size);
            && ReferencesOf(next, next.rows[i].digest) != {}
            && (next.rows[i].digest != x.digest ==> DeadlineFits(next, next.rows[i]))
  {
    var next := Referenced(db, x, retention, size);
    if i < |db.rows| {
      assert next.rows[i].digest == db.rows[i].digest;
      var y :| y in ReferencesOf(db, db.rows[i].digest);
      assert y in ReferencesOf(next, db.rows[i].digest);
      if db.rows[i].digest != x.digest {
        assert ReferencesOf(next, db.rows[i].digest) == ReferencesOf(db, db.rows[i].digest);
        UntouchedFits(db, next, db.rows[i]);
      }
    } else {
      assert x in ReferencesOf(next, x.digest);
    }
  }

  lemma ReferencedHasRow(db: Db, x: Reference, retention: Class, size: nat, y: Reference)
    requires y in db.references ==> HasRow(db.rows, y.digest)
    requires y in db.references || y == x
    ensures HasRow(Referenced(db, x, retention, size).rows, y.digest)
  {
    var next := Referenced(db, x, retention, size);
    if HasRow(db.rows, y.digest) {
      var i :| 0 <= i < |db.rows| && db.rows[i].digest == y.digest;
      assert next.rows[i].digest == y.digest;
    } else {
      assert next.rows[|db.rows|].digest == y.digest;
    }
  }

  lemma CiteKeeps(db: Db, x: Reference, retention: Class, size: nat)
    requires Deadlines(db)
    ensures Deadlines(RefreshAll(Referenced(db, x, retention, size), {x.digest}))
  {
    var next := Referenced(db, x, retention, size);
    forall i | 0 <= i < |next.rows|
      ensures ReferencesOf(next, next.rows[i].digest) != {}
      ensures next.rows[i].digest != x.digest ==> DeadlineFits(next, next.rows[i])
    {
      ReferencedRow(db, x, retention, size, i);
    }
    forall y | y in next.references ensures HasRow(next.rows, y.digest) {
      ReferencedHasRow(db, x, retention, size, y);
    }
    RefreshAllFits(next, RefreshAll(next, {x.digest}), {x.digest});
  }

  lemma EndTaskKeeps(db: Db, task: Id, at: nat)
    requires Deadlines(db)
    ensures Deadlines(Changed(db, EndTask(task, at)))
  {
    if task !in db.terminals {
      var ended := db.(terminals := db.terminals[task := at]);
      var digests := set x | x in db.references && x.task == Some(task) :: x.digest;
      forall i | 0 <= i < |ended.rows|
        ensures ReferencesOf(ended, ended.rows[i].digest) != {}
        ensures ended.rows[i].digest !in digests ==> DeadlineFits(ended, ended.rows[i])
      {
        var d := ended.rows[i].digest;
        assert ReferencesOf(ended, d) == ReferencesOf(db, d);
        if d !in digests {
          forall x | x in ReferencesOf(db, d) ensures x.task != Some(task) {
            assert x.task == Some(task) ==> x.digest in digests;
          }
          UntouchedFits(db, ended, db.rows[i]);
        }
      }
      RefreshAllFits(ended, RefreshAll(ended, digests), digests);
    }
  }

  lemma RetiredKeeps(db: Db, d: Decision, at: nat)
    requires Deadlines(db)
    ensures Deadlines(Retired(db, d, at))
  {
    var next := Retired(db, d, at);
    forall i | 0 <= i < |next.rows|
      ensures next.rows[i].digest == db.rows[i].digest && DeadlineFits(next, next.rows[i])
      ensures ReferencesOf(next, next.rows[i].digest) != {}
    {
      assert ReferencesOf(next, db.rows[i].digest) == ReferencesOf(db, db.rows[i].digest);
      if db.rows[i].digest != d.digest { UntouchedFits(db, next, db.rows[i]); }
    }
    forall x | x in next.references ensures HasRow(next.rows, x.digest) {
      var i :| 0 <= i < |db.rows| && db.rows[i].digest == x.digest;
      assert next.rows[i].digest == x.digest;
    }
  }

  lemma {:induction false} CollectKeeps(db: Db, decisions: seq<Decision>, at: nat)
    requires Deadlines(db)
    ensures Deadlines(ApplyAll(db, decisions, at))
  {
    if decisions != [] {
      CollectKeeps(db, decisions[..|decisions| - 1], at);
      RetiredKeeps(ApplyAll(db, decisions[..|decisions| - 1], at), decisions[|decisions| - 1], at);
    }
  }

  lemma RehydrateKeeps(db: Db, digest: Id)
    requires Deadlines(db)
    ensures Deadlines(Changed(db, Rehydrate(digest)))
  {
    var hot := db.(rows := UpdateRow(db.rows, digest, (row: Row) =>
      if row.availability == Evicted then row.(availability := Hot) else row));
    forall i | 0 <= i < |hot.rows|
      ensures hot.rows[i].digest == db.rows[i].digest && ReferencesOf(hot, hot.rows[i].digest) != {}
      ensures hot.rows[i].digest != digest ==> DeadlineFits(hot, hot.rows[i])
    {
      assert ReferencesOf(hot, db.rows[i].digest) == ReferencesOf(db, db.rows[i].digest);
      if db.rows[i].digest != digest { UntouchedFits(db, hot, db.rows[i]); }
    }
    forall x | x in hot.references ensures HasRow(hot.rows, x.digest) {
      var i :| 0 <= i < |db.rows| && db.rows[i].digest == x.digest;
      assert hot.rows[i].digest == x.digest;
    }
    RefreshAllFits(hot, RefreshAll(hot, {digest}), {digest});
  }

  lemma ChangeKeeps(db: Db, c: Change)
    requires Deadlines(db)
    ensures Deadlines(Changed(db, c))
  {
    match c
    case Cite(x, retention, size) => CiteKeeps(db, x, retention, size);
    case EndTask(task, at) => EndTaskKeeps(db, task, at);
    case Collect(observed, scopes, n) =>
      CollectKeeps(db, CarriedOut(db, observed, scopes, n), observed);
    case Rehydrate(digest) => RehydrateKeeps(db, digest);
    case Learn(memories, evidence, states, citations) =>
      var next := Changed(db, c);
      forall i | 0 <= i < |next.rows|
        ensures ReferencesOf(next, next.rows[i].digest) != {} && DeadlineFits(next, next.rows[i])
      {
        assert ReferencesOf(next, db.rows[i].digest) == ReferencesOf(db, db.rows[i].digest);
        UntouchedFits(db, next, db.rows[i]);
      }
  }

  const Empty := Db([], {}, map[], {}, {}, {}, {})

  /** The catalog after a whole history; every collection in it applied some part of its own plan. */
  ghost function History(changes: seq<Change>): (db: Db)
    ensures Deadlines(db)
  {
    if changes == [] then Empty
    else
      var before := History(changes[..|changes| - 1]);
      ChangeKeeps(before, changes[|changes| - 1]);
      Changed(before, changes[|changes| - 1])
  }

  // -- when an archive may go --

  /** One of the decisions archives the blob. */
  predicate ArchivedBy(decisions: seq<Decision>, digest: Id) {
    exists d :: d in decisions && d.digest == digest && d.action == Archive
  }

  /** The decisions that a collection in a history carries out. */
  function CarriedOut(db: Db, observed: nat, scopes: set<Id>, n: nat): seq<Decision>
    requires OneRowEach(db.rows)
  {
    var acts := Acts(db, observed, scopes);
    acts[..if n <= |acts| then n else |acts|]
  }

  /** When the last collection that archived the blob was made. */
  ghost function ArchivedAt(changes: seq<Change>, digest: Id): (at: Option<nat>) {
    if changes == [] then None
    else
      var front, c := changes[..|changes| - 1], changes[|changes| - 1];
      if c.Collect? && ArchivedBy(CarriedOut(History(front), c.observed, c.scopes, c.n), digest) then Some(c.observed)
      else ArchivedAt(front, digest)
  }

  /** An archived row was archived as bulk or evidence, and as bulk it expires ninety days later. */
  predicate ArchiveFits(row: Row, at: Option<nat>) {
    row.availability == Archived ==>
      && at.Some? && row.retention != Scratch
      && (row.retention == Bulk ==> row.expiresAt == Some(at.value + 90 * DAY))
  }

  /** Archiving decisions are about bulk and evidence. */
  predicate ArchivesKept(decisions: seq<Decision>, rows: seq<Row>) {
    forall d, i :: d in decisions && 0 <= i < |rows| && rows[i].digest == d.digest && d.action == Archive ==> rows[i].retention != Scratch
  }

  lemma {:induction false} AppliedRow(db: Db, decisions: seq<Decision>, at: nat, i: nat, before: Option<nat>)
    requires i < |db.rows| && ArchiveFits(db.rows[i], before) && ArchivesKept(decisions, db.rows)
    ensures var next := ApplyAll(db, decisions, at);
            && |next.rows| == |db.rows|
            && next.rows[i].digest == db.rows[i].digest && next.rows[i].retention == db.rows[i].retention
            && ArchiveFits(next.rows[i], if ArchivedBy(decisions, db.rows[i].digest) then Some(at) else before)
  {
    if decisions != [] {
      var front, d := decisions[..|decisions| - 1], decisions[|decisions| - 1];
      assert forall x :: x in decisions <==> x in front || x == d;
      AppliedRow(db, front, at, i, before);
    }
  }

  /** What a decision to act says of its row. */
  predicate Acted(row: Row, d: Decision, observed: nat) {
    && d.before == row.availability
    && (d.action == Archive ==> row.retention != Scratch)
    && (row.availability == Archived ==>
          row.retention == Bulk && row.expiresAt.Some? && row.expiresAt.value <= observed)
  }

  lemma DecideActs(db: Db, row: Row, observed: nat, scopes: set<Id>)
    requires Decide(db, row, observed, scopes).action != Keep
    ensures Acted(row, Decide(db, row, observed, scopes), observed)
  {
  }

  lemma DueRow(db: Db, observed: nat, scopes: set<Id>, d: Decision) returns (i: nat)
    requires IsDue(db, observed, scopes, d)
    ensures i < |db.rows| && db.rows[i].digest == d.digest && Acted(db.rows[i], d, observed)
  {
    DecisionRow(db, observed, scopes, d);
    i :| RowAt(db, i, d, observed, scopes);
    DecideActs(db, db.rows[i], observed, scopes);
  }

  lemma PlanArchivesKept(db: Db, observed: nat, scopes: set<Id>, acts: seq<Decision>, n: nat)
    requires IsPlan(db, observed, scopes, acts) && n <= |acts|
    ensures ArchivesKept(acts[..n], db.rows)
  {
    forall d, i | d in acts[..n] && 0 <= i < |db.rows| && db.rows[i].digest == d.digest && d.action == Archive
      ensures db.rows[i].retention != Scratch
    {
      assert d in acts && IsDue(db, observed, scopes, d);
      var j := DueRow(db, observed, scopes, d);
      assert i == j;
    }
  }

  /** A row that no collection touched: archived it keeps its deadline, and its class only grows stronger. */
  predicate Grows(row: Row, next: Row) {
    && next.digest == row.digest
    && (next.availability == Archived ==>
          row.availability == Archived && next.expiresAt == row.expiresAt && Rank(next.retention) <= Rank(row.retention))
  }

  lemma GrownFits(row: Row, next: Row, at: Option<nat>)
    requires ArchiveFits(row, at) && Grows(row, next)
    ensures ArchiveFits(next, at)
  {
  }

  /** Outside collections a row is new and hot, or grows. */
  lemma OtherChangesGrow(db: Db, c: Change, i: nat)
    requires OneRowEach(db.rows) && !c.Collect? && i < |Changed(db, c).rows|
    ensures if i < |db.rows| then Grows(db.rows[i], Changed(db, c).rows[i]) else Changed(db, c).rows[i].availability == Hot
  {
  }

  lemma CollectedRowFits(before: Db, observed: nat, scopes: set<Id>, n: nat, i: nat, at: Option<nat>)
    requires OneRowEach(before.rows) && i < |before.rows| && ArchiveFits(before.rows[i], at)
    ensures var done := CarriedOut(before, observed, scopes, n);
            var rows := ApplyAll(before, done, observed).rows;
            && |rows| == |before.rows| && rows[i].digest == before.rows[i].digest
            && ArchiveFits(rows[i], if ArchivedBy(done, before.rows[i].digest) then Some(observed) else at)
  {
    var acts := Acts(before, observed, scopes);
    ActsArePlan(before, observed, scopes);
    PlanArchivesKept(before, observed, scopes, acts, if n <= |acts| then n else |acts|);
    AppliedRow(before, CarriedOut(before, observed, scopes, n), observed, i, at);
  }

  lemma ArchivedStep(front: seq<Change>, c: Change, i: nat)
    requires i < |Changed(History(front), c).rows|
    requires i < |History(front).rows| ==> ArchiveFits(History(front).rows[i], ArchivedAt(front, History(front).rows[i].digest))
    ensures var next := Changed(History(front), c);
            var at := if c.Collect? && ArchivedBy(CarriedOut(History(front), c.observed, c.scopes, c.n), next.rows[i].digest)
                      then Some(c.observed) else ArchivedAt(front, next.rows[i].digest);
            ArchiveFits(next.rows[i], at)
  {
    var before := History(front);
    if c.Collect? {
      AppliedLength(before, CarriedOut(before, c.observed, c.scopes, c.n), c.observed);
      CollectedRowFits(before, c.observed, c.scopes, c.n, i, ArchivedAt(front, before.rows[i].digest));
    } else {
      OtherChangesGrow(before, c, i);
      if i < |before.rows| {
        GrownFits(before.rows[i], Changed(before, c).rows[i], ArchivedAt(front, before.rows[i].digest));
      }
    }
  }

  lemma {:induction false} ArchivedRowsFit(changes: seq<Change>, i: nat)
    requires i < |History(changes).rows|
    ensures ArchiveFits(History(changes).rows[i], ArchivedAt(changes, History(changes).rows[i].digest))
  {
    if changes != [] {
      var front, c := changes[..|changes| - 1], changes[|changes| - 1];
      if i < |History(front).rows| { ArchivedRowsFit(front, i); }
      ArchivedStep(front, c, i);
    }
  }

  lemma {:induction false} AppliedLength(db: Db, decisions: seq<Decision>, at: nat)
    ensures |ApplyAll(db, decisions, at).rows| == |db.rows|
  {
    if decisions != [] { AppliedLength(db, decisions[..|decisions| - 1], at); }
  }

  // -- what it means that a decision is carried out --

  /** How many days a blob stays hot after its last task has ended. */
  function HotDays(retention: Class): Option<nat> {
    match retention case Scratch => Some(1) case Bulk => Some(14) case Evidence => Some(180) case Core => None
  }

  const DAY: nat := 24 * 60 * 60

  /** A hot blob's tasks ended long enough ago; only bulk archives expire. */
  ghost predicate TimeIsUp(db: Db, row: Row, d: Decision, observed: nat) {
    match row.availability
    case Hot =>
      && HotDays(row.retention).Some?
      && (forall x :: x in ReferencesOf(db, row.digest) ==>
            && x.task.Some? && x.task.value in db.terminals
            && db.terminals[x.task.value] + HotDays(row.retention).value * DAY <= observed)
    case Archived =>
      row.retention == Bulk && d.action == Evict && row.expiresAt.Some? && row.expiresAt.value <= observed
    case Evicted => false
  }

  /** The blob may go: its decision is earned, nothing protects it, its tasks are over, its time is up. */
  ghost predicate MayGoAs(db: Db, row: Row, d: Decision, observed: nat, scopes: set<Id>) {
    && DecisionMeaning.Earned(db, row, d, observed, scopes)
    && DecisionMeaning.Unprotected(db, row, scopes)
    && (forall x :: x in ReferencesOf(db, row.digest) ==>
          !Authoritative(x.kind) && (x.task.Some? ==> x.task.value in db.terminals))
    && TimeIsUp(db, row, d, observed)
  }

  ghost predicate MayGo(db: Db, d: Decision, observed: nat, scopes: set<Id>) {
    exists row :: row in db.rows && MayGoAs(db, row, d, observed, scopes)
  }

  lemma ReferencePins(db: Db, row: Row, scopes: set<Id>, x: Reference)
    requires x in ReferencesOf(db, row.digest)
    ensures Authoritative(x.kind) ==> AuthoritativeEvent(x.kind) in PinReasons(db, row, scopes)
    ensures x.task.Some? && x.task.value !in db.terminals ==> ActiveTask(x.task.value) in PinReasons(db, row, scopes)
  {
  }

  lemma HotTimeIsUp(db: Db, row: Row, observed: nat, x: Reference)
    requires DeadlineFits(db, row) && row.availability == Hot && x in ReferencesOf(db, row.digest)
    requires row.terminalAt.Some? && row.expiresAt.Some? && row.expiresAt.value <= observed
    ensures HotDays(row.retention).Some? && x.task.Some? && x.task.value in db.terminals
    ensures db.terminals[x.task.value] + HotDays(row.retention).value * DAY <= observed
  {
    assert db.terminals[x.task.value] in EndTimes(db, row.digest);
  }

  lemma RowMayGo(db: Db, row: Row, observed: nat, scopes: set<Id>)
    requires DeadlineFits(db, row) && Decide(db, row, observed, scopes).action != Keep
    ensures MayGoAs(db, row, Decide(db, row, observed, scopes), observed, scopes)
  {
    var d := Decide(db, row, observed, scopes);
    DecisionMeaning.DecideEarned(db, row, observed, scopes);
    assert d.pins == PinReasons(db, row, scopes) == {};
    forall x | x in ReferencesOf(db, row.digest)
      ensures !Authoritative(x.kind) && (x.task.Some? ==> x.task.value in db.terminals)
    {
      ReferencePins(db, row, scopes, x);
    }
    forall x | x in ReferencesOf(db, row.digest) && row.availability == Hot
      ensures HotDays(row.retention).Some? && x.task.Some? && x.task.value in db.terminals
      ensures db.terminals[x.task.value] + HotDays(row.retention).value * DAY <= observed
    {
      HotTimeIsUp(db, row, observed, x);
    }
    assert TimeIsUp(db, row, d, observed);
  }

  lemma ActionableMayGo(db: Db, d: Decision, observed: nat, scopes: set<Id>)
    requires Deadlines(db) && d in Decisions(db, observed, scopes) && d.action != Keep
    ensures MayGo(db, d, observed, scopes)
  {
    DecisionRow(db, observed, scopes, d);
    var i: nat :| RowAt(db, i, d, observed, scopes);
    RowMayGo(db, db.rows[i], observed, scopes);
    assert db.rows[i] in db.rows;
  }

  /** Over every history, each decision of a plan may go at the very moment it is applied; an archive goes
      ninety days after the collection that made it. */
  lemma CollectionIsSafe(changes: seq<Change>, observed: nat, scopes: set<Id>, n: nat)
    requires n < |Acts(History(changes), observed, scopes)|
    ensures var acts := Acts(History(changes), observed, scopes);
            && MayGo(ApplyAll(History(changes), acts[..n], observed), acts[n], observed, scopes)
            && (acts[n].before == Archived ==>
                  && ArchivedAt(changes, acts[n].digest).Some?
                  && ArchivedAt(changes, acts[n].digest).value + 90 * DAY <= observed)
  {
    var db := History(changes);
    ActsArePlan(db, observed, scopes);
    PlanMayGo(db, Acts(db, observed, scopes), observed, scopes, n);
    ArchivesMayGo(changes, observed, scopes, Acts(db, observed, scopes), n);
  }

  lemma ArchivesMayGo(changes: seq<Change>, observed: nat, scopes: set<Id>, acts: seq<Decision>, n: nat)
    requires IsPlan(History(changes), observed, scopes, acts) && n < |acts|
    ensures acts[n].before == Archived ==>
              && ArchivedAt(changes, acts[n].digest).Some?
              && ArchivedAt(changes, acts[n].digest).value + 90 * DAY <= observed
  {
    assert acts[n] in acts && IsDue(History(changes), observed, scopes, acts[n]);
    var i := DueRow(History(changes), observed, scopes, acts[n]);
    ArchivedRowsFit(changes, i);
  }

  lemma PlanMayGo(db: Db, acts: seq<Decision>, observed: nat, scopes: set<Id>, n: nat)
    requires Deadlines(db) && IsPlan(db, observed, scopes, acts) && n < |acts|
    ensures MayGo(ApplyAll(db, acts[..n], observed), acts[n], observed, scopes)
  {
    PlanRuns(db, observed, scopes, acts, n);
    CollectKeeps(db, acts[..n], observed);
    assert acts[n..][0] == acts[n] && acts[n] in acts[n..];
    assert IsDue(ApplyAll(db, acts[..n], observed), observed, scopes, acts[n]);
    ActionableMayGo(ApplyAll(db, acts[..n], observed), acts[n], observed, scopes);
  }

  // -- evidence is never lost to a collection --

  predicate OnlyCheapGone(rows: seq<Row>) {
    forall i :: 0 <= i < |rows| && rows[i].availability == Evicted ==> rows[i].retention == Scratch || rows[i].retention == Bulk
  }

  lemma CollectionSparesEvidence(db: Db, observed: nat, scopes: set<Id>, acts: seq<Decision>, n: nat)
    requires IsPlan(db, observed, scopes, acts) && n <= |acts| && OnlyCheapGone(db.rows)
    ensures OnlyCheapGone(ApplyAll(db, acts[..n], observed).rows)
  {
    var now := ApplyAll(db, acts[..n], observed);
    DecisionMeaning.PartMoves(db, observed, scopes, acts, n);
    forall i | 0 <= i < |now.rows| && now.rows[i].availability == Evicted
      ensures now.rows[i].retention == Scratch || now.rows[i].retention == Bulk
    {
      assert DecisionMeaning.RowMoved(db.rows[i], now.rows[i], acts[..n], observed);
      if d :| d in acts[..n] && d.digest == db.rows[i].digest { EarnedClass(db, d, observed, scopes, i); }
    }
  }

  lemma EarnedClass(db: Db, d: Decision, observed: nat, scopes: set<Id>, i: nat)
    requires OneRowEach(db.rows) && DecisionMeaning.DecidedFor(db, d, observed, scopes)
    requires i < |db.rows| && db.rows[i].digest == d.digest
    ensures d.action == Evict ==> db.rows[i].retention == Scratch || db.rows[i].retention == Bulk
  {
    var row :| row in db.rows && DecisionMeaning.Chosen(db, row, scopes) && DecisionMeaning.Earned(db, row, d, observed, scopes);
    var j :| 0 <= j < |db.rows| && db.rows[j] == row;
    assert i == j;
  }

  lemma OtherChangesSpare(db: Db, c: Change)
    requires OneRowEach(db.rows) && !c.Collect? && OnlyCheapGone(db.rows)
    ensures OnlyCheapGone(Changed(db, c).rows)
  {
  }

  /** In every history of citing, ending, collecting and rehydrating, only scratch and bulk are ever evicted:
      evidence and core never lose their bytes. */
  lemma {:induction false} EvidenceNeverEvicted(changes: seq<Change>)
    ensures OnlyCheapGone(History(changes).rows)
  {
    if changes != [] {
      var front, c := changes[..|changes| - 1], changes[|changes| - 1];
      var before := History(front);
      EvidenceNeverEvicted(front);
      if c.Collect? {
        var acts := Acts(before, c.observed, c.scopes);
        ActsArePlan(before, c.observed, c.scopes);
        CollectionSparesEvidence(before, c.observed, c.scopes, acts, if c.n <= |acts| then c.n else |acts|);
      } else {
        OtherChangesSpare(before, c);
      }
    }
  }
}
