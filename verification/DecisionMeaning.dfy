// What a retention plan decides, read off the catalog tables: which blobs are archived, which are evicted,
// and what carrying out a part of the plan does to each row.

module DecisionMeaning {
  import opened Basics
  import opened BlobCatalog
  import opened DependencyGraph
  import opened Retention
  import opened RetentionRuns

  // -- what protects a blob --

  /** One reference does not protect its blob: it lies in the planned scopes, its task is over, its type is
      not kept for itself, and no live memory, evidence, running state or production claim builds on it. */
  ghost predicate ReferenceFree(db: Db, x: Reference, scopes: set<Id>) {
    && (scopes == {} || x.scope in scopes)
    && (x.task.Some? ==> x.task.value in db.terminals)
    && !x.kind.VerificationResult? && !x.kind.ArtifactObserved? && !x.kind.ProductionClaim?
    && (forall m :: m in db.memories && m.live ==> m.source != x.event)
    && (forall e :: e in db.evidence ==> e.source != Some(x.event))
    && (forall s :: s in db.states && s.task !in db.terminals ==> s.through != x.event && x.event !in s.mentions)
    && (forall c :: c in db.citations && c.production ==> c.source != x.event)
  }

  ghost predicate Unprotected(db: Db, row: Row, scopes: set<Id>) {
    && row.retention != Core
    && (forall x :: x in db.references && x.digest == row.digest ==> ReferenceFree(db, x, scopes))
    && (forall e :: e in db.evidence ==> e.digest != Some(row.digest))
    && (forall m :: m in db.memories && m.live ==> row.digest !in m.mentions)
    && (forall s :: s in db.states && s.task !in db.terminals ==> row.digest !in s.mentions)
  }

  ghost predicate OrdinarilyCited(db: Db, digest: Id) {
    exists c, x :: c in db.citations && !c.production && x in db.references && x.digest == digest && c.source == x.event
  }

  predicate Overdue(row: Row, observed: nat) {
    row.terminalAt.Some? && row.expiresAt.Some? && row.expiresAt.value <= observed
  }

  /** Hot evidence, and hot bulk that an ordinary citation names, are archived. */
  ghost predicate ArchiveDue(db: Db, row: Row, observed: nat, scopes: set<Id>) {
    && Unprotected(db, row, scopes) && Overdue(row, observed)
    && row.availability == Hot && (row.retention == Evidence || (row.retention == Bulk && OrdinarilyCited(db, row.digest)))
  }

  /** Hot scratch, hot bulk that no ordinary citation names, and archived bulk are evicted. */
  ghost predicate EvictDue(db: Db, row: Row, observed: nat, scopes: set<Id>) {
    && Unprotected(db, row, scopes) && Overdue(row, observed)
    && ((row.availability == Hot && (row.retention == Scratch || (row.retention == Bulk && !OrdinarilyCited(db, row.digest))))
        || (row.availability == Archived && row.retention == Bulk))
  }

  /** The decision describes the row and acts on it exactly when it is due. */
  ghost predicate Earned(db: Db, row: Row, d: Decision, observed: nat, scopes: set<Id>) {
    && d.digest == row.digest && d.retention == row.retention && d.before == row.availability && d.size == row.size
    && d.terminalAt == row.terminalAt && d.expiresAt == row.expiresAt
    && (forall id :: id in d.sources <==> exists x :: x in db.references && x.digest == row.digest && x.event == id)
    && (forall id :: id in d.scopes <==> exists x :: x in db.references && x.digest == row.digest && x.scope == id)
    && (d.pins == {} <==> Unprotected(db, row, scopes))
    && (d.cited <==> OrdinarilyCited(db, row.digest))
    && (d.action == Archive <==> ArchiveDue(db, row, observed, scopes))
    && (d.action == Evict <==> EvictDue(db, row, observed, scopes))
  }

  lemma UnprotectedHasNoPin(db: Db, row: Row, scopes: set<Id>, r: Reason)
    requires Unprotected(db, row, scopes)
    ensures r !in PinReasons(db, row, scopes)
  {
  }

  /** Each way in which a reference protects its blob is a reason. */
  lemma ReferenceReasons(db: Db, row: Row, scopes: set<Id>, x: Reference)
    requires x in db.references && x.digest == row.digest
    ensures var pins := PinReasons(db, row, scopes);
            && (scopes != {} && x.scope !in scopes ==> OutsideScope in pins)
            && (x.task.Some? && x.task.value !in db.terminals ==> ActiveTask(x.task.value) in pins)
            && (x.kind.VerificationResult? || x.kind.ArtifactObserved? || x.kind.ProductionClaim? ==> AuthoritativeEvent(x.kind) in pins)
            && (forall m :: m in db.memories && m.live && m.source == x.event ==> LiveMemory(m.id) in pins)
            && (forall e :: e in db.evidence && e.source == Some(x.event) ==> CitedEvidence(e.id) in pins)
            && (forall c :: c in db.citations && c.production && c.source == x.event ==> ProductionCitation(c.source) in pins)
  {
    assert x in ReferencesOf(db, row.digest) && x.event in EventsOf(db, row.digest) && x.scope in ScopesOf(db, row.digest);
  }

  lemma StateReasons(db: Db, row: Row, scopes: set<Id>, x: Reference, s: StateRow)
    requires x in db.references && x.digest == row.digest && s in db.states && s.task !in db.terminals
    ensures s.through == x.event ==> ActiveState(s.task) in PinReasons(db, row, scopes)
    ensures x.event in s.mentions ==> StateMention(s.task) in PinReasons(db, row, scopes)
  {
    assert x.event in EventsOf(db, row.digest);
    if x.event in s.mentions { assert x.event in s.mentions * EventsOf(db, row.digest); }
  }

  lemma MentionReasons(db: Db, row: Row, scopes: set<Id>)
    ensures var pins := PinReasons(db, row, scopes);
            && (row.retention == Core ==> CorePin in pins)
            && (forall e :: e in db.evidence && e.digest == Some(row.digest) ==> CitedEvidence(e.id) in pins)
            && (forall m :: m in db.memories && m.live && row.digest in m.mentions ==> MemoryMention(m.id) in pins)
            && (forall s :: s in db.states && s.task !in db.terminals && row.digest in s.mentions ==> StateMention(s.task) in pins)
  {
  }

  /** The planner's reasons are none exactly when nothing protects the blob. */
  lemma NoPinsIff(db: Db, row: Row, scopes: set<Id>)
    ensures PinReasons(db, row, scopes) == {} <==> Unprotected(db, row, scopes)
  {
    if Unprotected(db, row, scopes) {
      forall r ensures r !in PinReasons(db, row, scopes) { UnprotectedHasNoPin(db, row, scopes, r); }
    }
    if PinReasons(db, row, scopes) == {} {
      MentionReasons(db, row, scopes);
      forall x | x in db.references && x.digest == row.digest ensures ReferenceFree(db, x, scopes) {
        ReferenceReasons(db, row, scopes, x);
        forall s | s in db.states && s.task !in db.terminals ensures s.through != x.event && x.event !in s.mentions {
          StateReasons(db, row, scopes, x, s);
        }
      }
    }
  }

  lemma CitedIff(db: Db, row: Row, observed: nat, scopes: set<Id>)
    ensures Decide(db, row, observed, scopes).cited <==> OrdinarilyCited(db, row.digest)
  {
    forall c | c in db.citations && !c.production
      ensures c.source in EventsOf(db, row.digest) <==> exists x :: x in db.references && x.digest == row.digest && c.source == x.event
    {
    }
  }

  lemma ActionIff(row: Row, observed: nat, pinned: bool, cited: bool)
    requires row.retention == Core ==> pinned
    ensures var (action, _) := RetentionAction(row, observed, pinned, cited);
            && (action == Archive <==>
                  !pinned && Overdue(row, observed) && row.availability == Hot
                  && (row.retention == Evidence || (row.retention == Bulk && cited)))
            && (action == Evict <==>
                  && !pinned && Overdue(row, observed)
                  && ((row.availability == Hot && (row.retention == Scratch || (row.retention == Bulk && !cited)))
                      || (row.availability == Archived && row.retention == Bulk)))
  {
  }

  lemma DecideEarned(db: Db, row: Row, observed: nat, scopes: set<Id>)
    ensures Earned(db, row, Decide(db, row, observed, scopes), observed, scopes)
  {
    NoPinsIff(db, row, scopes);
    CitedIff(db, row, observed, scopes);
    MentionReasons(db, row, scopes);
    ActionIff(row, observed, PinReasons(db, row, scopes) != {}, Decide(db, row, observed, scopes).cited);
  }

  // -- the whole plan --

  ghost predicate Chosen(db: Db, row: Row, scopes: set<Id>) {
    scopes == {} || exists x :: x in db.references && x.digest == row.digest && x.scope in scopes
  }

  lemma ChosenIff(db: Db, row: Row, scopes: set<Id>)
    ensures InScope(db, row, scopes) <==> Chosen(db, row, scopes)
  {
    if scopes != {} && InScope(db, row, scopes) {
      var s :| s in ScopesOf(db, row.digest) * scopes;
    }
    if scopes != {} && Chosen(db, row, scopes) {
      var x :| x in db.references && x.digest == row.digest && x.scope in scopes;
      assert x.scope in ScopesOf(db, row.digest) * scopes;
    }
  }

  /** The place of a class in a plan: scratch goes first. */
  function Turn(c: Class): nat {
    match c case Scratch => 0 case Bulk => 1 case Evidence => 2 case Core => 3
  }

  /** Scratch before bulk before evidence before core, then the sooner deadline, a missing one last, then the
      smaller digest. */
  predicate ComesFirst(a: Decision, b: Decision) {
    || Turn(a.retention) < Turn(b.retention)
    || (a.retention == b.retention && a.expiresAt.Some? && (b.expiresAt.None? || a.expiresAt.value < b.expiresAt.value))
    || (a.retention == b.retention && a.expiresAt == b.expiresAt && a.digest.text < b.digest.text)
  }

  ghost predicate DecidedFor(db: Db, d: Decision, observed: nat, scopes: set<Id>) {
    exists row :: row in db.rows && Chosen(db, row, scopes) && Earned(db, row, d, observed, scopes)
  }

  lemma DecisionDecided(db: Db, d: Decision, observed: nat, scopes: set<Id>)
    requires d in Decisions(db, observed, scopes)
    ensures DecidedFor(db, d, observed, scopes)
  {
    DecisionHasRow(db, observed, scopes, d);
    var i: nat :| RowAt(db, i, d, observed, scopes);
    ChosenIff(db, db.rows[i], scopes);
    DecideEarned(db, db.rows[i], observed, scopes);
    assert db.rows[i] in db.rows;
  }

  lemma RowDecided(db: Db, row: Row, observed: nat, scopes: set<Id>)
    requires row in db.rows && Chosen(db, row, scopes)
    ensures Decide(db, row, observed, scopes) in Decisions(db, observed, scopes)
  {
    ChosenIff(db, row, scopes);
    var i :| 0 <= i < |db.rows| && db.rows[i] == row;
    RowHasDecision(db, observed, scopes, Decide(db, row, observed, scopes), i);
  }

  lemma SoonerComesFirst(a: Decision, b: Decision)
    ensures Sooner(a, b) <==> ComesFirst(a, b)
  {
  }

  /**
   * A plan decides about every row in scope, once each and in the order of class, deadline and digest;
   * hot evidence and cited bulk are archived, scratch, uncited bulk and expired archives of bulk are
   * evicted, when nothing protects them and they are overdue; everything else is kept.
   */
  lemma PlanMeans(db: Db, observed: nat, scopes: set<Id>)
    requires OneRowEach(db.rows)
    ensures var plan := PlanOf(db, observed, scopes);
            && plan.observed == observed && plan.scopes == scopes
            && (forall d :: d in plan.decisions ==> DecidedFor(db, d, observed, scopes))
            && (forall row :: row in db.rows && Chosen(db, row, scopes) ==>
                  exists d :: d in plan.decisions && Earned(db, row, d, observed, scopes))
            && (forall i, j :: 0 <= i < j < |plan.decisions| ==> ComesFirst(plan.decisions[i], plan.decisions[j]))
            && (forall id :: id in plan.cited <==> exists c :: c in db.citations && !c.production && c.source == id)
  {
    var plan := PlanOf(db, observed, scopes);
    forall d | d in plan.decisions ensures DecidedFor(db, d, observed, scopes) { DecisionDecided(db, d, observed, scopes); }
    forall row | row in db.rows && Chosen(db, row, scopes)
      ensures exists d :: d in plan.decisions && Earned(db, row, d, observed, scopes)
    {
      RowDecided(db, row, observed, scopes);
      DecideEarned(db, row, observed, scopes);
      assert Decide(db, row, observed, scopes) in plan.decisions;
    }
    forall i, j | 0 <= i < j < |plan.decisions| ensures ComesFirst(plan.decisions[i], plan.decisions[j]) {
      SoonerComesFirst(plan.decisions[i], plan.decisions[j]);
    }
  }

  /** The catalog's hot bytes are the sizes of its hot rows. */
  lemma {:induction false} HotBytesAdd(a: seq<Row>, b: seq<Row>)
    ensures HotBytes([]) == 0 && forall row: Row :: HotBytes([row]) == if row.availability == Hot then row.size else 0
    ensures HotBytes(a + b) == HotBytes(a) + HotBytes(b)
  {
    forall row: Row ensures HotBytes([row]) == if row.availability == Hot then row.size else 0 { assert [row][..0] == []; }
    if b == [] {
      assert a + b == a;
    } else {
      HotBytesAdd(a, b[..|b| - 1]);
      assert (a + b)[..|a + b| - 1] == a + b[..|b| - 1];
    }
  }

  // -- what carrying out decisions does to the rows --

  /** The row after one retirement at `at`: an archive of bulk gets its deadline, nothing else has one. */
  predicate RetiredTo(row: Row, next: Row, action: Action, at: nat) {
    && next.digest == row.digest && next.retention == row.retention && next.size == row.size && next.terminalAt == row.terminalAt
    && (action == Archive ==> next.availability == Archived)
    && (action == Evict ==> next.availability == Evicted)
    && next.expiresAt == if action == Archive && row.retention == Bulk then Some(at + 90 * 24 * 60 * 60) else None
  }

  /** Exactly the rows that the decisions name have been retired, each as its decision says. */
  ghost predicate RowsMoved(was: Db, now: Db, decisions: seq<Decision>, at: nat) {
    && now == was.(rows := now.rows) && |now.rows| == |was.rows|
    && forall i :: 0 <= i < |was.rows| ==> RowMoved(was.rows[i], now.rows[i], decisions, at)
  }

  ghost predicate RowMoved(row: Row, next: Row, decisions: seq<Decision>, at: nat) {
    && (forall d :: d in decisions && d.digest == row.digest ==> RetiredTo(row, next, d.action, at))
    && ((forall d :: d in decisions ==> d.digest != row.digest) ==> next == row)
  }

  ghost predicate DistinctDigests(decisions: seq<Decision>) {
    forall i, j :: 0 <= i < j < |decisions| ==> decisions[i].digest != decisions[j].digest
  }

  lemma {:induction false} ApplyMoves(db: Db, decisions: seq<Decision>, at: nat)
    requires DistinctDigests(decisions) && forall d :: d in decisions ==> d.action != Keep
    ensures RowsMoved(db, ApplyAll(db, decisions, at), decisions, at)
  {
    if decisions != [] {
      var front, d := decisions[..|decisions| - 1], decisions[|decisions| - 1];
      assert forall x :: x in decisions <==> x in front || x == d;
      ApplyMoves(db, front, at);
      var mid, next := ApplyAll(db, front, at), ApplyAll(db, decisions, at);
      forall i | 0 <= i < |db.rows| ensures RowMoved(db.rows[i], next.rows[i], decisions, at) {
        assert RowMoved(db.rows[i], mid.rows[i], front, at);
        LastMoves(db.rows[i], mid.rows[i], next.rows[i], decisions, at);
      }
    }
  }

  lemma LastMoves(row: Row, mid: Row, next: Row, decisions: seq<Decision>, at: nat)
    requires decisions != [] && DistinctDigests(decisions) && forall d :: d in decisions ==> d.action != Keep
    requires RowMoved(row, mid, decisions[..|decisions| - 1], at) && mid.digest == row.digest
    requires var d := decisions[|decisions| - 1]; next == if mid.digest == d.digest then RetireRow(mid, d.action, at) else mid
    ensures RowMoved(row, next, decisions, at)
  {
    var front, d := decisions[..|decisions| - 1], decisions[|decisions| - 1];
    assert forall x :: x in decisions <==> x in front || x == d;
    if d.digest == row.digest {
      forall x | x in front ensures x.digest != row.digest {
        var k :| 0 <= k < |front| && front[k] == x;
        assert decisions[k] == x;
      }
    }
  }

  lemma SameDigestSameRow(db: Db, observed: nat, scopes: set<Id>, x: Decision, y: Decision)
    requires OneRowEach(db.rows) && x in Decisions(db, observed, scopes) && y in Decisions(db, observed, scopes)
    requires x.digest == y.digest
    ensures x == y
  {
    DecisionHasRow(db, observed, scopes, x);
    DecisionHasRow(db, observed, scopes, y);
    var i: nat :| RowAt(db, i, x, observed, scopes);
    var j: nat :| RowAt(db, j, y, observed, scopes);
    assert db.rows[i].digest == db.rows[j].digest;
    assert i == j;
  }

  /** A plan acts on a digest once, and each of its acts is earned. */
  lemma ActsAreEarned(db: Db, observed: nat, scopes: set<Id>, acts: seq<Decision>)
    requires IsPlan(db, observed, scopes, acts)
    ensures DistinctDigests(acts)
    ensures forall d :: d in acts ==> DecidedFor(db, d, observed, scopes) && (d.action == Archive || d.action == Evict)
  {
    forall i, j | 0 <= i < j < |acts| ensures acts[i].digest != acts[j].digest {
      assert IsDue(db, observed, scopes, acts[i]) && IsDue(db, observed, scopes, acts[j]) by {
        assert acts[i] in acts && acts[j] in acts;
      }
      if acts[i].digest == acts[j].digest { SameDigestSameRow(db, observed, scopes, acts[i], acts[j]); }
    }
    forall d | d in acts ensures DecidedFor(db, d, observed, scopes) && (d.action == Archive || d.action == Evict) {
      assert IsDue(db, observed, scopes, d);
      DecisionDecided(db, d, observed, scopes);
    }
  }

  /** Carrying out the first acts of a plan: each was earned, and exactly the rows they name have moved. */
  lemma PartMoves(db: Db, observed: nat, scopes: set<Id>, acts: seq<Decision>, n: nat)
    requires IsPlan(db, observed, scopes, acts) && n <= |acts|
    ensures RowsMoved(db, ApplyAll(db, acts[..n], observed), acts[..n], observed)
    ensures forall d :: d in acts[..n] ==> DecidedFor(db, d, observed, scopes) && (d.action == Archive || d.action == Evict)
  {
    ActsAreEarned(db, observed, scopes, acts);
    forall d | d in acts[..n] ensures d in acts { }
    ApplyMoves(db, acts[..n], observed);
  }
}
