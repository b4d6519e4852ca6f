// How the catalog changes over time, and why a plan that was checked once stays valid while
// its decisions are applied one after the other.

module RetentionRuns {
  import opened Basics
  import opened BlobCatalog
  import opened DependencyGraph
  import opened Retention

  // -- applying decisions --

  function RetireRow(row: Row, action: Action, at: nat): Row {
    row.(availability := if action == Archive then Archived else Evicted,
         expiresAt := if action == Archive && row.retention.Bulk? then Some(at + BULK_ARCHIVE_SECONDS) else None)
  }

  function UpdateRow(rows: seq<Row>, digest: Id, update: Row -> Row): (r: seq<Row>)
    ensures |r| == |rows|
    ensures forall i :: 0 <= i < |rows| ==> r[i] == if rows[i].digest == digest then update(rows[i]) else rows[i]
  {
    seq(|rows|, i requires 0 <= i < |rows| => if rows[i].digest == digest then update(rows[i]) else rows[i])
  }

  /** The projection of one archiving or evicting event. */
  function Retired(db: Db, d: Decision, at: nat): (r: Db)
    ensures r == db.(rows := r.rows)
  {
    db.(rows := UpdateRow(db.rows, d.digest, (row: Row) => RetireRow(row, d.action, at)))
  }

  function ApplyAll(db: Db, decisions: seq<Decision>, at: nat): (r: Db) {
    if decisions == [] then db
    else Retired(ApplyAll(db, decisions[..|decisions| - 1], at), decisions[|decisions| - 1], at)
  }

  lemma SamePins(db: Db, other: Db, row: Row, scopes: set<Id>)
    requires other == db.(rows := other.rows)
    ensures PinReasons(other, row, scopes) == PinReasons(db, row, scopes)
    ensures EventsOf(other, row.digest) == EventsOf(db, row.digest) && ScopesOf(other, row.digest) == ScopesOf(db, row.digest)
  {
  }

  lemma SameTables(db: Db, other: Db, row: Row, observed: nat, scopes: set<Id>)
    requires other == db.(rows := other.rows)
    ensures Decide(other, row, observed, scopes) == Decide(db, row, observed, scopes)
    ensures InScope(other, row, scopes) == InScope(db, row, scopes)
  {
    SamePins(db, other, row, scopes);
  }

  ghost predicate RowAt(db: Db, i: nat, x: Decision, observed: nat, scopes: set<Id>) {
    i < |db.rows| && InScope(db, db.rows[i], scopes) && x == Decide(db, db.rows[i], observed, scopes)
  }

  lemma DecisionHasRow(db: Db, observed: nat, scopes: set<Id>, x: Decision)
    requires x in Decisions(db, observed, scopes)
    ensures exists i :: RowAt(db, i, x, observed, scopes)
  {
    var row :| row in db.rows && InScope(db, row, scopes) && x == Decide(db, row, observed, scopes);
    var i :| 0 <= i < |db.rows| && db.rows[i] == row;
    assert RowAt(db, i, x, observed, scopes);
  }

  lemma RowHasDecision(db: Db, observed: nat, scopes: set<Id>, x: Decision, i: nat)
    requires RowAt(db, i, x, observed, scopes)
    ensures x in Decisions(db, observed, scopes)
  {
    assert db.rows[i] in db.rows;
  }

  lemma DecisionRow(db: Db, observed: nat, scopes: set<Id>, x: Decision)
    ensures x in Decisions(db, observed, scopes) <==> exists i :: RowAt(db, i, x, observed, scopes)
  {
    if x in Decisions(db, observed, scopes) { DecisionHasRow(db, observed, scopes, x); }
    if i: nat :| RowAt(db, i, x, observed, scopes) { RowHasDecision(db, observed, scopes, x, i); }
  }

  lemma OtherRow(db: Db, next: Db, i: nat, x: Decision, observed: nat, scopes: set<Id>)
    requires next == db.(rows := next.rows) && i < |db.rows| == |next.rows| && next.rows[i] == db.rows[i]
    ensures RowAt(next, i, x, observed, scopes) <==> RowAt(db, i, x, observed, scopes)
  {
    SameTables(db, next, db.rows[i], observed, scopes);
  }

  lemma OwnRowIsKept(db: Db, next: Db, i: nat, d: Decision, x: Decision, observed: nat, scopes: set<Id>)
    requires RowAt(db, i, d, observed, scopes) && d.action != Keep && next == db.(rows := next.rows) && i < |next.rows|
    requires next.rows[i] == RetireRow(db.rows[i], d.action, observed)
    ensures RowAt(next, i, x, observed, scopes) ==> x.action == Keep
  {
    SameTables(db, next, next.rows[i], observed, scopes);
  }

  ghost predicate NextRows(db: Db, next: Db, own: nat, d: Decision, observed: nat) {
    && next == db.(rows := next.rows) && |next.rows| == |db.rows| && own < |db.rows|
    && next.rows[own] == RetireRow(db.rows[own], d.action, observed)
    && forall i :: 0 <= i < |db.rows| && i != own ==> next.rows[i] == db.rows[i]
  }

  lemma RetiredRows(db: Db, own: nat, d: Decision, observed: nat, scopes: set<Id>)
    requires OneRowEach(db.rows) && RowAt(db, own, d, observed, scopes)
    ensures NextRows(db, Retired(db, d, observed), own, d, observed)
  {
    assert db.rows[own].digest == d.digest;
  }

  lemma OthersStay(db: Db, next: Db, own: nat, d: Decision, observed: nat, scopes: set<Id>, x: Decision, i: nat)
    requires NextRows(db, next, own, d, observed) && RowAt(db, own, d, observed, scopes)
    requires RowAt(db, i, x, observed, scopes) && x != d
    ensures RowAt(next, i, x, observed, scopes)
  {
    assert i != own;
    OtherRow(db, next, i, x, observed, scopes);
  }

  lemma OthersWere(db: Db, next: Db, own: nat, d: Decision, observed: nat, scopes: set<Id>, x: Decision, i: nat)
    requires OneRowEach(db.rows) && NextRows(db, next, own, d, observed) && RowAt(db, own, d, observed, scopes) && d.action != Keep
    requires RowAt(next, i, x, observed, scopes) && x.action != Keep
    ensures RowAt(db, i, x, observed, scopes) && x != d
  {
    OwnRowIsKept(db, next, own, d, x, observed, scopes);
    assert i != own;
    OtherRow(db, next, i, x, observed, scopes);
    assert db.rows[i].digest != db.rows[own].digest;
  }

  /** Applying one planned decision leaves every other decision of the plan as it was. */
  lemma OthersUnchanged(db: Db, d: Decision, observed: nat, scopes: set<Id>, x: Decision)
    requires OneRowEach(db.rows) && d in Decisions(db, observed, scopes) && d.action != Keep && x.action != Keep
    ensures x in Decisions(Retired(db, d, observed), observed, scopes) <==> x in Decisions(db, observed, scopes) && x != d
  {
    var next := Retired(db, d, observed);
    DecisionHasRow(db, observed, scopes, d);
    var own: nat :| RowAt(db, own, d, observed, scopes);
    RetiredRows(db, own, d, observed, scopes);
    if x in Decisions(db, observed, scopes) && x != d {
      DecisionHasRow(db, observed, scopes, x);
      var i: nat :| RowAt(db, i, x, observed, scopes);
      OthersStay(db, next, own, d, observed, scopes, x, i);
      RowHasDecision(next, observed, scopes, x, i);
    }
    if x in Decisions(next, observed, scopes) {
      DecisionHasRow(next, observed, scopes, x);
      var i: nat :| RowAt(next, i, x, observed, scopes);
      OthersWere(db, next, own, d, observed, scopes, x, i);
      RowHasDecision(db, observed, scopes, x, i);
    }
  }

  /** What a plan would do, in its order. */
  function Acts(db: Db, observed: nat, scopes: set<Id>): (r: seq<Decision>)
    requires OneRowEach(db.rows)
  {
    Actionable(PlanOf(db, observed, scopes).decisions)
  }

  ghost predicate IsDue(db: Db, observed: nat, scopes: set<Id>, x: Decision) {
    x in Decisions(db, observed, scopes) && x.action != Keep
  }

  /** `acts` are the actionable decisions of the plan, in order. */
  ghost predicate IsPlan(db: Db, observed: nat, scopes: set<Id>, acts: seq<Decision>) {
    && OneRowEach(db.rows)
    && SortedBy(acts, Sooner) && NoDuplicates(acts)
    && forall x :: x in acts <==> IsDue(db, observed, scopes, x)
  }

  lemma ActsArePlan(db: Db, observed: nat, scopes: set<Id>)
    requires OneRowEach(db.rows)
    ensures IsPlan(db, observed, scopes, Acts(db, observed, scopes))
  {
    var plan := PlanOf(db, observed, scopes).decisions;
    ActionableSorted(plan);
    forall x ensures x in Actionable(plan) <==> IsDue(db, observed, scopes, x) { }
  }

  lemma PlanIsUnique(db: Db, observed: nat, scopes: set<Id>, acts: seq<Decision>, other: seq<Decision>)
    requires IsPlan(db, observed, scopes, acts) && IsPlan(db, observed, scopes, other)
    ensures acts == other
  {
    SoonerIsTotal(db, observed, scopes);
    forall x ensures x in acts <==> x in other { assert x in acts <==> IsDue(db, observed, scopes, x); }
    forall x | x in acts ensures x in Decisions(db, observed, scopes) { assert IsDue(db, observed, scopes, x); }
    SortedIsUnique(acts, other, Decisions(db, observed, scopes), Sooner);
  }

  /** After the first decision of a plan, planning again gives the rest of it. */
  lemma PlanAfterOne(db: Db, observed: nat, scopes: set<Id>, acts: seq<Decision>)
    requires IsPlan(db, observed, scopes, acts) && acts != []
    ensures IsPlan(Retired(db, acts[0], observed), observed, scopes, acts[1..])
  {
    assert acts[0] in acts && IsDue(db, observed, scopes, acts[0]);
    forall x ensures x in acts[1..] <==> IsDue(Retired(db, acts[0], observed), observed, scopes, x) {
      if x.action != Keep { OthersUnchanged(db, acts[0], observed, scopes, x); }
      InRest(acts, x);
    }
  }

  lemma InRest(acts: seq<Decision>, x: Decision)
    requires NoDuplicates(acts) && acts != []
    ensures x in acts[1..] <==> x in acts && x != acts[0]
  {
    if x in acts[1..] {
      var i :| 0 <= i < |acts[1..]| && acts[1..][i] == x;
      assert acts[i + 1] == x;
    }
    assert x in acts ==> x == acts[0] || x in acts[1..];
  }

  lemma {:induction false} PlanRuns(db: Db, observed: nat, scopes: set<Id>, acts: seq<Decision>, n: nat)
    requires IsPlan(db, observed, scopes, acts) && n <= |acts|
    ensures IsPlan(ApplyAll(db, acts[..n], observed), observed, scopes, acts[n..])
  {
    if n == 0 {
      assert acts[..0] == [] && acts[0..] == acts;
    } else {
      PlanRuns(db, observed, scopes, acts, n - 1);
      PlanAfterOne(ApplyAll(db, acts[..n - 1], observed), observed, scopes, acts[n - 1..]);
      assert acts[..n][..n - 1] == acts[..n - 1] && acts[n - 1..][0] == acts[n - 1] && acts[n - 1..][1..] == acts[n..];
    }
  }

  /** However many decisions have been applied, planning again gives exactly the others, in order. */
  lemma PlanStaysValid(db: Db, observed: nat, scopes: set<Id>, n: nat)
    requires OneRowEach(db.rows) && n <= |Acts(db, observed, scopes)|
    ensures var now := ApplyAll(db, Acts(db, observed, scopes)[..n], observed);
            OneRowEach(now.rows) && Acts(now, observed, scopes) == Acts(db, observed, scopes)[n..]
  {
    var acts := Acts(db, observed, scopes);
    ActsArePlan(db, observed, scopes);
    PlanRuns(db, observed, scopes, acts, n);
    var now := ApplyAll(db, acts[..n], observed);
    ActsArePlan(now, observed, scopes);
    PlanIsUnique(now, observed, scopes, Acts(now, observed, scopes), acts[n..]);
  }
}
