// Applying a checked plan under limits on actions, bytes and time.

module GarbageCollection {
  import opened Basics
  import opened BlobCatalog
  import opened DependencyGraph
  import opened Retention
  import opened RetentionRuns
  import opened DecisionMeaning

  datatype Stop = AllSelected | MaxActions | MaxBytes | WallDeadline

  datatype Report =
    | DryRun(planned: nat)
    | Applied(decisions: seq<Decision>, eligible: nat, bytes: nat, stop: Stop)

  datatype GcError = InvalidPlan | InvalidLimit | StalePlan

  /** What a supplied plan must look like before it is compared with a fresh one. */
  predicate Ordered(plan: Plan) {
    forall i, j :: 0 <= i < j < |plan.decisions| ==> !Sooner(plan.decisions[j], plan.decisions[i])
  }

  lemma OrderedMeans(plan: Plan)
    ensures Ordered(plan) <==> forall i, j :: 0 <= i < j < |plan.decisions| ==> !ComesFirst(plan.decisions[j], plan.decisions[i])
  {
    forall a, b ensures Sooner(a, b) <==> ComesFirst(a, b) { SoonerComesFirst(a, b); }
  }

  predicate PositiveLimit(limit: Option<int>) {
    limit.Some? ==> limit.value >= 1
  }

  function Size(decisions: seq<Decision>): (r: nat) {
    if decisions == [] then 0 else Size(decisions[..|decisions| - 1]) + decisions[|decisions| - 1].size
  }

  /** The size of some decisions is the sum of their blobs' sizes. */
  lemma {:induction false} SizeAdds(a: seq<Decision>, b: seq<Decision>)
    ensures Size([]) == 0 && forall d: Decision :: Size([d]) == d.size
    ensures Size(a + b) == Size(a) + Size(b)
  {
    forall d: Decision ensures Size([d]) == d.size { assert [d][..0] == []; }
    if b == [] {
      assert a + b == a;
    } else {
      SizeAdds(a, b[..|b| - 1]);
      assert (a + b)[..|a + b| - 1] == a + b[..|b| - 1];
    }
  }

  function HotSizeOf(d: Decision): nat {
    if d.before == Hot then d.size else 0
  }

  /** The bytes of those decisions whose blob was hot. */
  function HotSize(decisions: seq<Decision>): (r: nat) {
    if decisions == [] then 0 else HotSize(decisions[..|decisions| - 1]) + HotSizeOf(decisions[|decisions| - 1])
  }

  /** Retiring one row takes exactly that row's bytes off the hot total. */
  lemma {:induction false} RetiringReleases(rows: seq<Row>, i: nat, d: Decision, at: nat)
    requires OneRowEach(rows) && i < |rows| && rows[i].digest == d.digest && d.action != Keep
    ensures var next := UpdateRow(rows, d.digest, (row: Row) => RetireRow(row, d.action, at));
            HotBytes(next) + (if rows[i].availability == Hot then rows[i].size else 0) == HotBytes(rows)
  {
    var update := (row: Row) => RetireRow(row, d.action, at);
    var next := UpdateRow(rows, d.digest, update);
    var front := rows[..|rows| - 1];
    if i == |rows| - 1 {
      assert next[..|rows| - 1] == front;
    } else {
      RetiringReleases(front, i, d, at);
      assert next[..|rows| - 1] == UpdateRow(front, d.digest, update);
    }
  }

  lemma DecisionReleases(db: Db, d: Decision, observed: nat, scopes: set<Id>)
    requires OneRowEach(db.rows) && d in Decisions(db, observed, scopes) && d.action != Keep
    ensures HotBytes(Retired(db, d, observed).rows) + HotSizeOf(d) == HotBytes(db.rows)
  {
    DecisionRow(db, observed, scopes, d);
    var i: nat :| RowAt(db, i, d, observed, scopes);
    RetiringReleases(db.rows, i, d, observed);
  }

  lemma FirstReleases(db: Db, observed: nat, scopes: set<Id>, acts: seq<Decision>)
    requires IsPlan(db, observed, scopes, acts) && acts != []
    ensures HotBytes(Retired(db, acts[0], observed).rows) + HotSizeOf(acts[0]) == HotBytes(db.rows)
  {
    assert acts[0] in acts && IsDue(db, observed, scopes, acts[0]);
    DecisionReleases(db, acts[0], observed, scopes);
  }

  lemma NextReleases(db: Db, observed: nat, scopes: set<Id>, acts: seq<Decision>, n: nat)
    requires IsPlan(db, observed, scopes, acts) && n < |acts|
    ensures HotBytes(ApplyAll(db, acts[..n + 1], observed).rows) + HotSizeOf(acts[n]) == HotBytes(ApplyAll(db, acts[..n], observed).rows)
  {
    PlanRuns(db, observed, scopes, acts, n);
    FirstReleases(ApplyAll(db, acts[..n], observed), observed, scopes, acts[n..]);
    assert acts[n..][0] == acts[n] && acts[..n + 1][..n] == acts[..n];
  }

  lemma {:induction false} PlanReleases(db: Db, observed: nat, scopes: set<Id>, acts: seq<Decision>, n: nat)
    requires IsPlan(db, observed, scopes, acts) && n <= |acts|
    ensures HotBytes(ApplyAll(db, acts[..n], observed).rows) + HotSize(acts[..n]) == HotBytes(db.rows)
  {
    if n == 0 {
      assert acts[..0] == [];
    } else {
      PlanReleases(db, observed, scopes, acts, n - 1);
      NextReleases(db, observed, scopes, acts, n - 1);
      assert acts[..n][..n - 1] == acts[..n - 1];
    }
  }

  /** Conservation: applying part of a plan lowers the hot bytes by the applied decisions that were hot. */
  lemma HotBytesFall(db: Db, observed: nat, scopes: set<Id>, n: nat)
    requires OneRowEach(db.rows) && n <= |Acts(db, observed, scopes)|
    ensures var acts := Acts(db, observed, scopes);
            HotBytes(ApplyAll(db, acts[..n], observed).rows) + HotSize(acts[..n]) == HotBytes(db.rows)
  {
    ActsArePlan(db, observed, scopes);
    PlanReleases(db, observed, scopes, Acts(db, observed, scopes), n);
  }

  /** The reported reason really is why the loop stopped after `n` decisions. */
  ghost predicate StoppedBy(acts: seq<Decision>, n: nat, maxActions: Option<int>, maxBytes: Option<int>,
                            late: nat -> bool, stop: Stop) {
    n <= |acts| &&
    match stop
    case AllSelected => n == |acts|
    case MaxActions => n < |acts| && maxActions == Some(n)
    case MaxBytes => n < |acts| && maxActions != Some(n) && maxBytes.Some? && Size(acts[..n]) + acts[n].size > maxBytes.value
    case WallDeadline =>
      && n < |acts| && maxActions != Some(n)
      && (maxBytes.Some? ==> Size(acts[..n]) + acts[n].size <= maxBytes.value)
      && late(n)
  }

  ghost predicate WithinLimits(acts: seq<Decision>, n: nat, maxActions: Option<int>, maxBytes: Option<int>, late: nat -> bool) {
    && n <= |acts|
    && (maxActions.Some? ==> n <= maxActions.value)
    && (maxBytes.Some? ==> Size(acts[..n]) <= maxBytes.value)
    && (forall k :: 0 <= k < n ==> !late(k))
  }

  /** What the loop did: it applied a prefix of the decisions within the limits, and says so. */
  ghost predicate LoopDid(acts: seq<Decision>, was: Db, now: Db, at: nat, maxActions: Option<int>, maxBytes: Option<int>,
                          late: nat -> bool, report: Report)
    requires report.Applied?
  {
    var n := |report.decisions|;
    && report.eligible == |acts|
    && WithinLimits(acts, n, maxActions, maxBytes, late)
    && StoppedBy(acts, n, maxActions, maxBytes, late, report.stop)
    && report.decisions == acts[..n]
    && report.bytes == Size(acts[..n])
    && now == ApplyAll(was, acts[..n], at)
  }

  /** What an applied plan did: each applied decision was earned, exactly the rows they name have moved, the
      rest of the plan is still planned, and the bytes of its applied hot decisions are gone from the total. */
  ghost predicate AppliedWell(was: Db, now: Db, plan: Plan, maxActions: Option<int>, maxBytes: Option<int>,
                              late: nat -> bool, report: Report)
    requires report.Applied? && OneRowEach(was.rows)
  {
    var acts := Acts(was, plan.observed, plan.scopes);
    && LoopDid(acts, was, now, plan.observed, maxActions, maxBytes, late, report)
    && (forall d :: d in report.decisions ==> DecidedFor(was, d, plan.observed, plan.scopes) && (d.action == Archive || d.action == Evict))
    && RowsMoved(was, now, report.decisions, plan.observed)
    && OneRowEach(now.rows)
    && Acts(now, plan.observed, plan.scopes) == acts[|report.decisions|..]
    && HotBytes(now.rows) + HotSize(report.decisions) == HotBytes(was.rows)
  }

  /** What the caller of a bounded run may rely on. */
  ghost predicate Bounded(report: Report, actions: int, bytes: int, eligible: nat) {
    && report.Applied?
    && report.eligible == eligible
    && |report.decisions| <= actions && report.bytes <= bytes
    && forall d :: d in report.decisions ==> d.action != Keep
  }

  lemma WellIsBounded(was: Db, now: Db, plan: Plan, actions: int, bytes: int, late: nat -> bool, report: Report)
    requires OneRowEach(was.rows) && report.Applied? && plan == PlanOf(was, plan.observed, plan.scopes)
    requires AppliedWell(was, now, plan, Some(actions), Some(bytes), late, report)
    ensures Bounded(report, actions, bytes, |Actionable(plan.decisions)|)
    ensures report.decisions == [] ==> now == was
  {
  }

  class Collector {
    var db: Db

    ghost predicate Valid() reads this { OneRowEach(db.rows) }

    /** The loop under the lock, over the decisions of a plan that was just found current.
        `late(k)` says whether the deadline has passed when the k-th decision is about to be applied. */
    method ApplyDecisions(acts: seq<Decision>, at: nat, maxActions: Option<int>, maxBytes: Option<int>, late: nat -> bool)
      returns (n: nat, bytes: nat, stop: Stop)
      requires PositiveLimit(maxActions) && PositiveLimit(maxBytes)
      modifies this
      ensures WithinLimits(acts, n, maxActions, maxBytes, late)
      ensures StoppedBy(acts, n, maxActions, maxBytes, late, stop)
      ensures bytes == Size(acts[..n])
      ensures db == ApplyAll(old(db), acts[..n], at)
    {
      n, bytes, stop := 0, 0, AllSelected;
      while n < |acts| && stop == AllSelected
        invariant WithinLimits(acts, n, maxActions, maxBytes, late)
        invariant stop == AllSelected || StoppedBy(acts, n, maxActions, maxBytes, late, stop)
        invariant bytes == Size(acts[..n])
        invariant db == ApplyAll(old(db), acts[..n], at)
        decreases |acts| - n, stop == AllSelected
      {
        if maxActions.Some? && n >= maxActions.value {
          stop := MaxActions;
        } else if maxBytes.Some? && bytes + acts[n].size > maxBytes.value {
          stop := MaxBytes;
        } else if late(n) {
          stop := WallDeadline;
        } else {
          assert acts[..n + 1][..n] == acts[..n];
          db := Retired(db, acts[n], at);
          bytes := bytes + acts[n].size;
          n := n + 1;
        }
      }
    }

    method RunGc(plan: Plan, apply: bool, maxActions: Option<int>, maxBytes: Option<int>, late: nat -> bool)
      returns (r: Result<Report, GcError>)
      requires Valid()
      modifies this
      ensures Valid()
      ensures r.Err? || r.value.DryRun? ==> db == old(db)
      ensures r == Err(InvalidPlan) <==>
                exists i, j :: 0 <= i < j < |plan.decisions| && ComesFirst(plan.decisions[j], plan.decisions[i])
      ensures r == Err(InvalidLimit) <==>
                Ordered(plan) && ((maxActions.Some? && maxActions.value < 1) || (maxBytes.Some? && maxBytes.value < 1))
      ensures r.Ok? ==> (r.value.DryRun? <==> !apply)
      ensures r.Ok? && !apply ==> r.value.planned == |Actionable(plan.decisions)|
      ensures Ordered(plan) && PositiveLimit(maxActions) && PositiveLimit(maxBytes) ==>
                (r.Ok? <==> (apply ==> plan == PlanOf(old(db), plan.observed, plan.scopes)))
      ensures r.Ok? && apply ==>
                AppliedWell(old(db), db, plan, maxActions, maxBytes, late, r.value)
    {
      OrderedMeans(plan);
      if !Ordered(plan) { return Err(InvalidPlan); }
      if !PositiveLimit(maxActions) || !PositiveLimit(maxBytes) { return Err(InvalidLimit); }
      var acts := Actionable(plan.decisions);
      if !apply { return Ok(DryRun(|acts|)); }
      if PlanOf(db, plan.observed, plan.scopes) != plan { return Err(StalePlan); }
      var n, bytes, stop := ApplyDecisions(acts, plan.observed, maxActions, maxBytes, late);
      PlanStaysValid(old(db), plan.observed, plan.scopes, n);
      HotBytesFall(old(db), plan.observed, plan.scopes, n);
      ActsArePlan(old(db), plan.observed, plan.scopes);
      PartMoves(old(db), plan.observed, plan.scopes, acts, n);
      assert |acts[..n]| == n;
      return Ok(Applied(acts[..n], |acts|, bytes, stop));
    }

    /** A dry run of a plan changes nothing and counts its acts. */
    method Preview(plan: Plan) returns (planned: nat)
      requires Valid() && Ordered(plan)
      modifies this
      ensures Valid() && db == old(db) && planned == |Actionable(plan.decisions)|
    {
      OrderedMeans(plan);
      var r := RunGc(plan, false, None, None, (k: nat) => false);
      planned := r.value.planned;
    }

    /** Applying a plan that was just made, under limits that are positive. */
    method RunBounded(plan: Plan, actions: int, bytes: int, late: nat -> bool) returns (report: Report)
      requires Valid() && plan == PlanOf(db, plan.observed, plan.scopes) && Ordered(plan) && actions >= 1 && bytes >= 1
      modifies this
      ensures Valid()
      ensures Bounded(report, actions, bytes, |Actionable(plan.decisions)|)
      ensures AppliedWell(old(db), db, plan, Some(actions), Some(bytes), late, report)
      ensures report.decisions == [] ==> db == old(db)
    {
      var r := RunGc(plan, true, Some(actions), Some(bytes), late);
      report := r.value;
      WellIsBounded(old(db), db, plan, actions, bytes, late, report);
    }
  }
}
