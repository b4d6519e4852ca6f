// A maintenance run writes a report; the loader that reads it later checks it from scratch.

module Maintenance {
  import opened Basics
  import opened DependencyGraph
  import opened Retention
  import opened RetentionRuns
  import opened GarbageCollection
  import DecisionMeaning

  type Digest = nat

  const PRESSURE_THRESHOLD := 8_000
  const MAX_ITEMS := 100
  const MAX_BYTES := 1024 * 1024 * 1024 * 1024
  const MAX_EVIDENCE_BYTES := 1024 * 1024

  datatype Limits = Limits(items: int, bytes: int)

  predicate LimitsOk(limits: Limits) {
    1 <= limits.items <= MAX_ITEMS && 1 <= limits.bytes <= MAX_BYTES
  }

  /** What the disk probe saw. */
  datatype Disk = Disk(total: int, used: int, free: int, basisPoints: int)

  predicate DiskOk(d: Disk) {
    && d.total >= 1 && d.used >= 0 && d.free >= 0 && d.used + d.free <= d.total
    && d.basisPoints == d.used * 10_000 / d.total
  }

  datatype DryEvidence = DryEvidence(plan: Digest, planned: int, applied: int, released: int, events: seq<Decision>)

  datatype Execution = Execution(
    plan: Digest, planned: int, eligible: int, applied: int, released: int, stop: Stop, events: seq<Decision>)

  datatype Status =
    | BelowPressureDryRun | PressureDryRun | PressureNoEligibleItems | PressureApplied | PressureBoundedNoop | Failed

  datatype Fault = Fault(kind: string, text: string)

  datatype Report = Report(
    run: Id, applyRequested: bool, limits: Limits, disk: Option<Disk>, hotPressure: Option<int>, effective: Option<int>,
    threshold: int, plan: Option<Digest>, dryRun: Option<DryEvidence>, scopes: set<Id>, execution: Option<Execution>,
    fault: Option<Fault>, status: Status)

  /** A report as it lies in its file, with the digest of the rest. */
  datatype Sealed = Sealed(report: Report, digest: Digest, size: nat)

  datatype Canon = Canon(report: Report -> Digest, plan: Plan -> Digest, size: Report -> nat)

  // -- the loader --

  predicate DryRunOk(d: DryEvidence, plan: Digest) {
    d.plan == plan && d.applied == 0 && d.released == 0 && d.events == [] && d.planned >= 0
  }

  predicate Retires(d: Decision) {
    d.action == Archive || d.action == Evict
  }

  predicate ExecutionOk(x: Execution, plan: Digest, dryActions: int, limits: Limits) {
    && x.plan == plan
    && x.planned >= 0 && x.eligible >= 0 && x.applied >= 0 && x.released >= 0
    && |x.events| == x.applied
    && x.planned == x.applied && x.eligible == dryActions
    && x.applied <= limits.items && x.released <= limits.bytes
    && forall d :: d in x.events ==> Retires(d)
  }

  /** The status agrees with what the report says happened. */
  predicate Consistent(r: Report, effective: int, dryActions: int) {
    match r.status
    case BelowPressureDryRun => effective < PRESSURE_THRESHOLD && r.execution.None?
    case PressureDryRun => effective >= PRESSURE_THRESHOLD && !r.applyRequested && r.execution.None?
    case PressureNoEligibleItems =>
      effective >= PRESSURE_THRESHOLD && r.applyRequested && dryActions == 0 && r.execution.None?
    case PressureApplied =>
      effective >= PRESSURE_THRESHOLD && r.applyRequested && r.execution.Some? && r.execution.value.applied > 0
    case PressureBoundedNoop =>
      effective >= PRESSURE_THRESHOLD && r.applyRequested && r.execution.Some? && r.execution.value.applied == 0
    case Failed => false
  }

  predicate SuccessOk(r: Report) {
    && r.fault.None?
    && r.disk.Some? && DiskOk(r.disk.value)
    && r.hotPressure.Some? && r.hotPressure.value >= 0
    && r.effective == Some(Higher(r.disk.value.basisPoints, r.hotPressure.value))
    && r.plan.Some?
    && r.dryRun.Some? && DryRunOk(r.dryRun.value, r.plan.value)
    && (r.execution.Some? ==> ExecutionOk(r.execution.value, r.plan.value, r.dryRun.value.planned, r.limits))
    && Consistent(r, r.effective.value, r.dryRun.value.planned)
  }

  predicate FailureOk(r: Report) {
    r.fault.Some? && !Blank(r.fault.value.kind) && !Blank(r.fault.value.text)
  }

  predicate Loads(h: Canon, s: Sealed) {
    && 0 < s.size <= MAX_EVIDENCE_BYTES
    && s.digest == h.report(s.report)
    && LimitsOk(s.report.limits) && s.report.threshold == PRESSURE_THRESHOLD
    && if s.report.status.Failed? then FailureOk(s.report) else SuccessOk(s.report)
  }

  // -- the run --

  /** Where a run fails, if it does, and with what error. */
  datatype Mishap = Never | AtPlan(fault: Fault) | AtProbe(fault: Fault) | AtApply(fault: Fault) | AtEnd(fault: Fault)

  function Blown(r: Report, fault: Fault): Report {
    r.(status := Failed, fault := Some(fault))
  }

  function Pressure(hotBytes: nat, budget: nat): nat
    requires budget > 0
  {
    hotBytes * 10_000 / budget
  }

  lemma {:induction false} FloorsOnce(a: nat, b: nat, t: nat)
    requires b > 0
    ensures a / b * b <= a < (a / b + 1) * b
    ensures a / b >= t <==> a >= t * b
  {
    var q := a / b;
    assert a == q * b + a % b;
    if q >= t { Scaled(t, q, b); } else { Scaled(q + 1, t, b); }
  }

  lemma Scaled(x: nat, y: nat, b: nat)
    requires x <= y
    ensures x * b <= y * b
  {
  }

  /** The disk or the hot blobs are at eight tenths of what they may take. */
  predicate Pressed(hotBytes: nat, budget: nat, disk: Disk) {
    disk.basisPoints >= 8_000 || 10 * hotBytes >= 8 * budget
  }

  lemma PressedIff(hotBytes: nat, budget: nat, disk: Disk)
    requires budget > 0
    ensures Higher(disk.basisPoints, Pressure(hotBytes, budget)) >= PRESSURE_THRESHOLD <==> Pressed(hotBytes, budget, disk)
    ensures Pressure(hotBytes, budget) * budget <= 10_000 * hotBytes < (Pressure(hotBytes, budget) + 1) * budget
  {
    FloorsOnce(hotBytes * 10_000, budget, 8_000);
  }

  /** The status that a run without a mishap reports. */
  predicate StatusFits(pressed: bool, apply: bool, planned: seq<Decision>, r: Report) {
    r.status ==
      if !pressed then BelowPressureDryRun
      else if !apply then PressureDryRun
      else if planned == [] then PressureNoEligibleItems
      else if r.execution.Some? && r.execution.value.applied > 0 then PressureApplied
      else PressureBoundedNoop
  }

  /** It is the pressure of the catalog and the disk that decides. */
  ghost predicate ReportFits(db: Db, apply: bool, observed: nat, scopes: set<Id>, budget: nat, disk: Disk, r: Report)
    requires OneRowEach(db.rows) && budget > 0
  {
    && StatusFits(Pressed(HotBytes(db.rows), budget, disk), apply, Actionable(PlanOf(db, observed, scopes).decisions), r)
    && r.hotPressure == Some(Pressure(HotBytes(db.rows), budget)) && r.disk == Some(disk)
    && r.applyRequested == apply && r.scopes == scopes
    && r.dryRun.Some? && r.dryRun.value.planned == |Actionable(PlanOf(db, observed, scopes).decisions)|
  }

  function Higher(a: int, b: int): int {
    if a >= b then a else b
  }

  lemma PlanIsOrdered(db: Db, observed: nat, scopes: set<Id>)
    requires OneRowEach(db.rows)
    ensures Ordered(PlanOf(db, observed, scopes))
  {
    var s := PlanOf(db, observed, scopes).decisions;
    forall i, j | 0 <= i < j < |s| ensures !Sooner(s[j], s[i]) { SoonerIsOrder(s[i], s[j], s[i]); }
  }

  /** The report once the plan, its dry run and the pressure are known. */
  function Planned(h: Canon, r: Report, plan: Plan, budget: nat, disk: Disk): Report
    requires budget > 0
  {
    var hot := Pressure(plan.hotBytes, budget);
    r.(disk := Some(disk), hotPressure := Some(hot), effective := Some(Higher(disk.basisPoints, hot)), plan := Some(h.plan(plan)),
       dryRun := Some(DryEvidence(h.plan(plan), |Actionable(plan.decisions)|, 0, 0, [])), scopes := plan.scopes)
  }

  function ExecutionOf(h: Canon, plan: Plan, report: GarbageCollection.Report): Execution
    requires report.Applied?
  {
    Execution(h.plan(plan), |report.decisions|, report.eligible, |report.decisions|, report.bytes, report.stop, report.decisions)
  }

  lemma BoundedIsOk(h: Canon, plan: Plan, report: GarbageCollection.Report, limits: Limits, eligible: nat)
    requires Bounded(report, limits.items, limits.bytes, eligible)
    ensures ExecutionOk(ExecutionOf(h, plan, report), h.plan(plan), eligible, limits)
  {
  }

  function Executed(h: Canon, r: Report, plan: Plan, report: GarbageCollection.Report): Report
    requires report.Applied?
  {
    r.(status := if |report.decisions| > 0 then PressureApplied else PressureBoundedNoop, execution := Some(ExecutionOf(h, plan, report)))
  }

  /** The execution tells what was done: the first actions of the plan, as many as the limits and the deadline
      let through, their bytes, why it stopped, and exactly their rows have moved. */
  ghost predicate TrulyDone(was: Db, now: Db, observed: nat, scopes: set<Id>, limits: Limits, late: nat -> bool, told: Option<Execution>)
    requires OneRowEach(was.rows)
  {
    told.Some? ==>
      var x, acts := told.value, Acts(was, observed, scopes);
      && 0 <= x.applied == x.planned <= |acts| == x.eligible
      && x.events == acts[..x.applied] && x.released == Size(x.events)
      && WithinLimits(acts, x.applied, Some(limits.items), Some(limits.bytes), late)
      && StoppedBy(acts, x.applied, Some(limits.items), Some(limits.bytes), late, x.stop)
      && DecisionMeaning.RowsMoved(was, now, x.events, observed)
  }

  /** Applies a plan under pressure and records what was done. */
  method ApplyPlan(h: Canon, store: Collector, r: Report, plan: Plan, late: nat -> bool) returns (report: GarbageCollection.Report, done: Report)
    requires store.Valid() && plan == PlanOf(store.db, plan.observed, plan.scopes) && Ordered(plan) && LimitsOk(r.limits)
    modifies store
    ensures store.Valid()
    ensures Bounded(report, r.limits.items, r.limits.bytes, |Actionable(plan.decisions)|)
    ensures done == Executed(h, r, plan, report)
    ensures TrulyDone(old(store.db), store.db, plan.observed, plan.scopes, r.limits, late, done.execution)
    ensures report.decisions == [] ==> store.db == old(store.db)
  {
    var applied := store.RunBounded(plan, r.limits.items, r.limits.bytes, late);
    return applied, Executed(h, r, plan, applied);
  }

  /** Decides by the pressure, and applies the plan if it may; nothing comes back when applying fails. */
  method ActOn(h: Canon, store: Collector, planned: Report, plan: Plan, late: nat -> bool, failing: bool) returns (r: Option<Report>)
    requires store.Valid() && plan == PlanOf(store.db, plan.observed, plan.scopes) && Ordered(plan) && LimitsOk(planned.limits)
    requires planned.effective.Some? && planned.execution.None?
    modifies store
    ensures store.Valid()
    ensures r.None? <==> failing && planned.effective.value >= PRESSURE_THRESHOLD && planned.applyRequested && Actionable(plan.decisions) != []
    ensures r.None? ==> store.db == old(store.db)
    ensures r.Some? ==> TrulyDone(old(store.db), store.db, plan.observed, plan.scopes, planned.limits, late, r.value.execution)
    ensures r.Some? ==>
              && ActedOn(h, planned, plan, r.value)
              && StatusFits(planned.effective.value >= PRESSURE_THRESHOLD, planned.applyRequested, Actionable(plan.decisions), r.value)
              && (r.value.status != PressureApplied ==> store.db == old(store.db))
  {
    if planned.effective.value < PRESSURE_THRESHOLD { return Some(planned.(status := BelowPressureDryRun)); }
    if !planned.applyRequested { return Some(planned.(status := PressureDryRun)); }
    if Actionable(plan.decisions) == [] { return Some(planned.(status := PressureNoEligibleItems)); }
    if failing { return None; }
    var report, done := ApplyPlan(h, store, planned, plan, late);
    BoundedIsOk(h, plan, report, planned.limits, |Actionable(plan.decisions)|);
    return Some(done);
  }

  /** What came of a planned report is a report that the loader takes. */
  ghost predicate ActedOn(h: Canon, planned: Report, plan: Plan, acted: Report) {
    && planned.effective.Some?
    && acted == planned.(status := acted.status, execution := acted.execution)
    && Consistent(acted, planned.effective.value, |Actionable(plan.decisions)|)
    && (acted.execution.Some? ==> ExecutionOk(acted.execution.value, h.plan(plan), |Actionable(plan.decisions)|, planned.limits))
  }

  lemma ActedSucceeds(h: Canon, r: Report, plan: Plan, budget: nat, disk: Disk, acted: Report)
    requires budget > 0 && DiskOk(disk) && r.fault.None? && ActedOn(h, Planned(h, r, plan, budget, disk), plan, acted)
    ensures SuccessOk(acted) && !acted.status.Failed?
  {
    FloorsOnce(plan.hotBytes * 10_000, budget, 0);
  }

  function Seal(h: Canon, r: Report): (s: Sealed) {
    Sealed(r, h.report(r), 1 + h.size(r))
  }

  /** Writes the report of a run that failed. */
  method Fail(h: Canon, r: Report, fault: Fault) returns (s: Sealed)
    requires LimitsOk(r.limits) && r.threshold == PRESSURE_THRESHOLD
    ensures s.report.status.Failed? && s.report.execution == r.execution
    ensures s.size <= MAX_EVIDENCE_BYTES ==> (Loads(h, s) <==> !Blank(fault.kind) && !Blank(fault.text))
  {
    return Seal(h, Blown(r, fault));
  }

  /** Writes the report of a run that got through. */
  method Finish(h: Canon, r: Report) returns (s: Sealed)
    requires LimitsOk(r.limits) && r.threshold == PRESSURE_THRESHOLD && !r.status.Failed? && SuccessOk(r)
    ensures s.report == r && (s.size <= MAX_EVIDENCE_BYTES ==> Loads(h, s))
  {
    return Seal(h, r);
  }

  lemma ActedFits(h: Canon, r: Report, db: Db, observed: nat, scopes: set<Id>, budget: nat, disk: Disk, acted: Report)
    requires OneRowEach(db.rows) && budget > 0
    requires var plan := PlanOf(db, observed, scopes);
             var planned := Planned(h, r, plan, budget, disk);
             && ActedOn(h, planned, plan, acted)
             && StatusFits(planned.effective.value >= PRESSURE_THRESHOLD, r.applyRequested, Actionable(plan.decisions), acted)
    ensures ReportFits(db, r.applyRequested, observed, scopes, budget, disk, acted)
  {
    PressedIff(HotBytes(db.rows), budget, disk);
  }

  method RunMaintenance(h: Canon, store: Collector, run: Id, apply: bool, observed: nat, scopes: set<Id>, limits: Limits,
                        budget: nat, disk: Disk, late: nat -> bool, mishap: Mishap)
    returns (s: Sealed)
    requires store.Valid() && LimitsOk(limits) && DiskOk(disk) && budget > 0
    modifies store
    ensures store.Valid()
    ensures s.report.status.Failed? <==>
              mishap != Never && (mishap.AtApply? ==> ApplyStarts(old(store.db), apply, observed, scopes, budget, disk))
    ensures s.size <= MAX_EVIDENCE_BYTES && !s.report.status.Failed? ==> Loads(h, s)
    ensures s.size <= MAX_EVIDENCE_BYTES && s.report.status.Failed? ==>
              (Loads(h, s) <==> !Blank(mishap.fault.kind) && !Blank(mishap.fault.text))
    ensures s.report.status != PressureApplied && !s.report.status.Failed? ==> store.db == old(store.db)
    ensures TrulyDone(old(store.db), store.db, observed, scopes, limits, late, s.report.execution)
    ensures mishap == Never ==> ReportFits(old(store.db), apply, observed, scopes, budget, disk, s.report)
  {
    var r := Report(run, apply, limits, None, None, None, PRESSURE_THRESHOLD, None, None, {}, None, None, Failed);
    if mishap.AtPlan? { s := Fail(h, r, mishap.fault); return; }
    var plan := PlanOf(store.db, observed, scopes);
    PlanIsOrdered(store.db, observed, scopes);
    var dry := store.Preview(plan);
    if mishap.AtProbe? { s := Fail(h, r, mishap.fault); return; }
    ghost var blank := r;
    r := Planned(h, r, plan, budget, disk);
    var acted := ActOn(h, store, r, plan, late, mishap.AtApply?);
    if acted.None? { s := Fail(h, r, mishap.fault); return; }
    ActedSucceeds(h, blank, plan, budget, disk, acted.value);
    ActedFits(h, blank, old(store.db), observed, scopes, budget, disk, acted.value);
    if mishap.AtEnd? { s := Fail(h, acted.value, mishap.fault); return; }
    s := Finish(h, acted.value);
  }

  /** The run gets as far as applying its plan. */
  predicate ApplyStarts(db: Db, apply: bool, observed: nat, scopes: set<Id>, budget: nat, disk: Disk)
    requires OneRowEach(db.rows) && budget > 0
  {
    var plan := PlanOf(db, observed, scopes);
    && apply && Actionable(plan.decisions) != []
    && Higher(disk.basisPoints, Pressure(plan.hotBytes, budget)) >= PRESSURE_THRESHOLD
  }

  /** The loader leaves no choice of status: it follows from the pressure, the request and the execution. */
  lemma StatusIsDetermined(h: Canon, a: Sealed, b: Sealed)
    requires Loads(h, a) && Loads(h, b) && !a.report.status.Failed? && !b.report.status.Failed?
    requires a.report.effective == b.report.effective && a.report.applyRequested == b.report.applyRequested
    requires a.report.execution == b.report.execution
    ensures a.report.status == b.report.status
  {
  }
}
