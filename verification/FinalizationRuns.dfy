// Whole histories of one session: every operation may be cut off, repeated and resumed.

module FinalizationRuns {
  import opened Basics
  import opened Finalization

  /** An operation and how many events it may append before it is cut off. */
  datatype Attempt = Attempt(op: Op, power: nat)

  const NewSession := Session([], None)

  function After(s: Session, attempts: seq<Attempt>): (r: Session) {
    if attempts == [] then s
    else
      var last := attempts[|attempts| - 1];
      Next(After(s, attempts[..|attempts| - 1]), last.op, last.power)
  }

  // -- one attempt --

  /** Each kind of the script is followed by what it needs. */
  ghost predicate Chained(wanted: seq<Kind>) {
    && NoDuplicates(wanted)
    && !(Completed in wanted && Failed in wanted)
    && forall i :: 0 <= i < |wanted| ==> FollowsAt(wanted, i)
  }

  /** The script does not end the run against the log. */
  ghost predicate Agrees(log: seq<Kind>, wanted: seq<Kind>) {
    forall k :: k in wanted ==> k in log || !Opposed(log, k)
  }

  lemma {:induction false} MissingKeepsSound(log: seq<Kind>, wanted: seq<Kind>, n: nat)
    requires Sound(log) && Chained(wanted) && Agrees(log, wanted) && n <= |Missing(log, wanted)|
    ensures Sound(log + Missing(log, wanted)[..n])
    decreases |wanted|
  {
    if wanted == [] {
      assert log + [] == log;
    } else {
      var front, k := wanted[..|wanted| - 1], wanted[|wanted| - 1];
      var plan := Missing(log, front);
      forall i | 0 <= i < |front| ensures FollowsAt(front, i) {
        assert front[..i] == wanted[..i];
        assert FollowsAt(wanted, i);
      }
      assert FollowsAt(wanted, |front|);
      if n <= |plan| {
        MissingKeepsSound(log, front, n);
        assert Missing(log, wanted)[..n] == plan[..n];
      } else {
        MissingKeepsSound(log, front, |plan|);
        assert plan[..|plan|] == plan;
        assert Missing(log, wanted)[..n] == plan + [k];
        assert Follows(front, k);
        if k !in log {
          assert k in wanted && !Opposed(log, k);
          assert k == Completed ==> Failed !in front;
          assert k == Failed ==> Completed !in front;
          SoundGrows(log + plan, k);
          assert log + (plan + [k]) == log + plan + [k];
        }
      }
    }
  }

  lemma ScriptIsChained(wanted: seq<Kind>, s: Summary, stopped: bool)
    requires Script(wanted, s, stopped)
    ensures forall i :: 0 <= i < |wanted| ==> FollowsAt(wanted, i)
  {
    forall i | 0 <= i < |wanted| ensures FollowsAt(wanted, i) {
      if i > 0 { assert wanted[i - 1] in wanted[..i]; }
      if i > 1 { assert wanted[1] in wanted[..i]; }
    }
  }

  lemma StepsAreChained(log: seq<Kind>, s: Summary)
    ensures Chained(Steps(log, s)) && Agrees(log, Steps(log, s))
  {
    StepsAreScript(log, s);
    ScriptIsChained(Steps(log, s), s, Stopped(log, s));
    forall k | k in Steps(log, s) ensures k == Completed || k == Failed ==> k == Terminal(s) && !Stopped(log, s) {
      StepsEnd(log, s, k);
    }
  }

  lemma PairIsChained(a: Kind, b: Kind)
    requires a != b && Follows([], a) && Follows([a], b)
    ensures Chained([a, b])
  {
    assert [a, b][..0] == [] && [a, b][..1] == [a];
  }

  lemma SomeOrNone(log: seq<Kind>, k: Kind, n: nat)
    requires Sound(log) && Follows(log, k) && !Opposed(log, k) && n <= |Missing(log, [k])|
    ensures Sound(log + Missing(log, [k])[..n])
  {
    assert [] + [k] == [k] && Missing(log, []) == [];
    assert log + [] == log;
    if n > 0 {
      assert Missing(log, [k])[..n] == [k];
      SoundGrows(log, k);
    }
  }

  lemma ResponseIsSound(s: Session, power: nat)
    requires Sound(s.log)
    ensures Sound(Next(s, RecordResponse, power).log)
  {
    var plan := Appends(s, RecordResponse);
    var n := if power < |plan| then power else |plan|;
    if Request in s.log { SomeOrNone(s.log, Response, n); } else { assert s.log + plan[..n] == s.log; }
  }

  /** The kinds an operation looks for, in its order. */
  function Looks(s: Session, op: Op): seq<Kind> {
    match op
    case EnsureStarted(o) => if OtherRun(s, o) then [Started] else [Started, FirstState]
    case RecordIntent => [Request]
    case RecordResponse => [Response]
    case RecordImplementation => [Edited, Tested]
    case Finalize(o, summary) => if OtherRun(s, o) then [Started] else Steps(s.log, summary)
  }

  lemma LooksChained(s: Session, op: Op)
    requires !op.RecordResponse?
    ensures Chained(Looks(s, op)) && Agrees(s.log, Looks(s, op)) && Appends(s, op) == Missing(s.log, Looks(s, op))
  {
    match op
    case EnsureStarted(o) => PairIsChained(Started, FirstState);
    case RecordIntent =>
    case RecordImplementation => PairIsChained(Edited, Tested);
    case Finalize(o, summary) => StepsAreChained(s.log, summary);
  }

  lemma NextIsSound(s: Session, op: Op, power: nat)
    requires Sound(s.log)
    ensures Sound(Next(s, op, power).log)
  {
    if op.RecordResponse? {
      ResponseIsSound(s, power);
    } else {
      LooksChained(s, op);
      var plan := Appends(s, op);
      MissingKeepsSound(s.log, Looks(s, op), if power < |plan| then power else |plan|);
    }
  }

  // -- all histories --

  /** In every history, each kind of event is recorded at most once (so at most one model request), each
      after the events it builds on, and the run ends one way only. */
  lemma {:induction false} HistoryIsSound(attempts: seq<Attempt>)
    ensures Sound(After(NewSession, attempts).log)
  {
    if attempts != [] {
      var front, last := attempts[..|attempts| - 1], attempts[|attempts| - 1];
      HistoryIsSound(front);
      NextIsSound(After(NewSession, front), last.op, last.power);
    }
  }

  // -- finalizing again and again --

  lemma ResumesWithin(log: seq<Kind>, front: seq<Kind>, k: Kind, n: nat)
    requires n <= |Missing(log, front)| && Missing(log + Missing(log, front)[..n], front) == Missing(log, front)[n..]
    requires k !in front
    ensures var wanted := front + [k];
            Missing(log + Missing(log, wanted)[..n], wanted) == Missing(log, wanted)[n..]
  {
    var plan, wanted := Missing(log, front), front + [k];
    MissingOne(log, front, k);
    assert Missing(log, wanted)[..n] == plan[..n];
    forall x | x in plan[..n] ensures x in plan && x != k { }
    MissingOne(log + plan[..n], front, k);
  }

  lemma NothingMissing(log: seq<Kind>, wanted: seq<Kind>)
    ensures Missing(log + Missing(log, wanted), wanted) == []
  {
    var left := Missing(log + Missing(log, wanted), wanted);
    forall k ensures k !in left { }
    EmptyIff(left);
  }

  lemma EmptyIff(s: seq<Kind>)
    ensures s == [] <==> forall k :: k !in s
  {
    assert s != [] ==> s[0] in s;
  }

  /** What a cut-off finalization has done is exactly what the next one leaves out. */
  lemma {:induction false} PlanResumes(log: seq<Kind>, wanted: seq<Kind>, n: nat)
    requires NoDuplicates(wanted) && n <= |Missing(log, wanted)|
    ensures Missing(log + Missing(log, wanted)[..n], wanted) == Missing(log, wanted)[n..]
    decreases |wanted|
  {
    if wanted != [] {
      var front, k := wanted[..|wanted| - 1], wanted[|wanted| - 1];
      assert wanted == front + [k] && k !in front;
      var plan := Missing(log, front);
      MissingOne(log, front, k);
      if n <= |plan| {
        PlanResumes(log, front, n);
        ResumesWithin(log, front, k, n);
      } else {
        NothingMissing(log, wanted);
        var all := Missing(log, wanted);
        assert n == |all| && all[..n] == all && all[n..] == [];
      }
    }
  }

  predicate Repeats(attempts: seq<Attempt>, op: Op) {
    forall i :: 0 <= i < |attempts| ==> attempts[i].op == op
  }

  /** The session belongs to this run, or has no state yet. */
  predicate Fits(s: Session, objective: string) {
    FirstState in s.log ==> s.objective == Some(objective)
  }

  /** How many events of a plan an attempt appends. */
  function Within(power: nat, plan: seq<Kind>): (n: nat)
    ensures n <= |plan| && (power >= |plan| ==> n == |plan|)
  {
    if power < |plan| then power else |plan|
  }

  /** What a finalization appends leaves its way to the end as open or shut as it was. */
  lemma StepsStay(log: seq<Kind>, summary: Summary, more: seq<Kind>)
    requires forall k :: k in more ==> k in Steps(log, summary) && k !in log
    ensures Stopped(log + more, summary) == Stopped(log, summary)
    ensures Outcome(log + more, summary) == Outcome(log, summary)
    ensures Steps(log + more, summary) == Steps(log, summary)
  {
    forall k | k in more
      ensures k == Completed || k == Failed ==> k == Terminal(summary) && !Stopped(log, summary)
      ensures k == FinalState ==> !Blocked(summary)
    {
      StepsEnd(log, summary, k);
    }
  }

  /** A plan that was carried out in part: the rest of it is the next plan. */
  ghost predicate ResumesAt(plan: seq<Kind> -> seq<Kind>, log: seq<Kind>, n: nat) {
    n <= |plan(log)| ==> plan(log + plan(log)[..n]) == plan(log)[n..]
  }

  lemma PlanNext(log: seq<Kind>, summary: Summary, n: nat)
    requires n <= |Plan(log, summary)|
    ensures Plan(log + Plan(log, summary)[..n], summary) == Plan(log, summary)[n..]
    ensures Outcome(log + Plan(log, summary)[..n], summary) == Outcome(log, summary)
  {
    var plan := Plan(log, summary);
    StepsAreScript(log, summary);
    assert forall k :: k in plan[..n] ==> k in plan;
    StepsStay(log, summary, plan[..n]);
    PlanResumes(log, Steps(log, summary), n);
  }

  /** `now` is `start` with the first `n` events of the plan; the rest of it is left. */
  predicate PartDone(start: seq<Kind>, plan: seq<Kind>, now: seq<Kind>, left: seq<Kind>, n: nat) {
    n <= |plan| && now == start + plan[..n] && left == plan[n..]
  }

  lemma PartMore(start: seq<Kind>, plan: seq<Kind>, now: seq<Kind>, left: seq<Kind>, n: nat, m: nat)
    requires PartDone(start, plan, now, left, n) && m <= |left|
    ensures PartDone(start, plan, now + left[..m], left[m..], n + m)
  {
    assert plan[..n] + plan[n..][..m] == plan[..n + m];
    assert plan[n..][m..] == plan[n + m..];
    assert start + plan[..n] + left[..m] == start + (plan[..n] + left[..m]);
  }

  /** The log after attempts that each append what fits of the plan. */
  function Extended(plan: seq<Kind> -> seq<Kind>, log: seq<Kind>, attempts: seq<Attempt>): (r: seq<Kind>) {
    if attempts == [] then log
    else
      var was := Extended(plan, log, attempts[..|attempts| - 1]);
      was + plan(was)[..Within(attempts[|attempts| - 1].power, plan(was))]
  }

  /** However often it was cut off, the log is the old one and the start of the same plan. */
  lemma {:induction false} CutsAccumulate(plan: seq<Kind> -> seq<Kind>, log: seq<Kind>, attempts: seq<Attempt>)
    requires forall l, n: nat :: ResumesAt(plan, l, n)
    ensures exists n :: PartDone(log, plan(log), Extended(plan, log, attempts), plan(Extended(plan, log, attempts)), n)
  {
    if attempts == [] {
      var now := Extended(plan, log, attempts);
      assert now == log;
      assert PartDone(log, plan(log), now, plan(now), 0);
    } else {
      CutsAccumulate(plan, log, attempts[..|attempts| - 1]);
      var was := Extended(plan, log, attempts[..|attempts| - 1]);
      var n :| PartDone(log, plan(log), was, plan(was), n);
      var m := Within(attempts[|attempts| - 1].power, plan(was));
      var now := was + plan(was)[..m];
      assert Extended(plan, log, attempts) == now;
      assert ResumesAt(plan, was, m);
      PartMore(log, plan(log), was, plan(was), n, m);
      assert PartDone(log, plan(log), now, plan(now), n + m);
    }
  }

  function PlanFor(summary: Summary): seq<Kind> -> seq<Kind> {
    log => Plan(log, summary)
  }

  lemma OneAttempt(s: Session, objective: string, summary: Summary, power: nat)
    requires Fits(s, objective)
    ensures var plan := Plan(s.log, summary);
            var next := Next(s, Finalize(objective, summary), power);
            && Fits(next, objective) && next.log == s.log + plan[..Within(power, plan)]
            && Outcome(next.log, summary) == Outcome(s.log, summary)
  {
    PlanNext(s.log, summary, Within(power, Plan(s.log, summary)));
  }

  lemma {:induction false} AttemptsExtend(s: Session, objective: string, summary: Summary, attempts: seq<Attempt>)
    requires Fits(s, objective) && Repeats(attempts, Finalize(objective, summary))
    ensures Fits(After(s, attempts), objective)
    ensures After(s, attempts).log == Extended(PlanFor(summary), s.log, attempts)
    ensures Outcome(After(s, attempts).log, summary) == Outcome(s.log, summary)
  {
    if attempts != [] {
      var front, last := attempts[..|attempts| - 1], attempts[|attempts| - 1];
      AttemptsExtend(s, objective, summary, front);
      assert last.op == Finalize(objective, summary);
      OneAttempt(After(s, front), objective, summary, last.power);
    }
  }

  lemma PlanForResumes(summary: Summary)
    ensures forall log, n: nat :: ResumesAt(PlanFor(summary), log, n)
  {
    forall log, n: nat ensures ResumesAt(PlanFor(summary), log, n) {
      if n <= |Plan(log, summary)| { PlanNext(log, summary, n); }
    }
  }

  lemma NothingLeft(s: Session, objective: string, summary: Summary, power: nat)
    requires Fits(s, objective) && Plan(s.log, summary) == []
    ensures Next(s, Finalize(objective, summary), power) == s
  {
    assert s.log + [] == s.log;
  }

  lemma Undisturbed(s: Session, objective: string, summary: Summary, power: nat)
    requires Fits(s, objective) && power >= |Plan(s.log, summary)|
    ensures var done := Next(s, Finalize(objective, summary), power);
            done.log == s.log + Plan(s.log, summary) && Next(done, Finalize(objective, summary), power) == done
  {
    var plan := Plan(s.log, summary);
    assert plan[..|plan|] == plan;
    OneAttempt(s, objective, summary, power);
    PlanNext(s.log, summary, |plan|);
    NothingLeft(Next(s, Finalize(objective, summary), power), objective, summary, power);
  }

  /** The last, undisturbed run carries out the rest of the plan. */
  lemma RestOfPlan(log: seq<Kind>, plan: seq<Kind>, now: seq<Kind>, left: seq<Kind>, n: nat)
    requires PartDone(log, plan, now, left, n)
    ensures now + left == log + plan
  {
    PartMore(log, plan, now, left, n, |left|);
    assert plan[..|plan|] == plan && left[..|left|] == left;
  }

  lemma RestIsLeft(log: seq<Kind>, summary: Summary, attempts: seq<Attempt>)
    ensures var now := Extended(PlanFor(summary), log, attempts);
            now + Plan(now, summary) == log + Plan(log, summary)
  {
    var plan := PlanFor(summary);
    var now := Extended(plan, log, attempts);
    PlanForResumes(summary);
    CutsAccumulate(plan, log, attempts);
    var n :| PartDone(log, plan(log), now, plan(now), n);
    RestOfPlan(log, plan(log), now, plan(now), n);
  }

  lemma SameEnd(s: Session, was: Session, objective: string, summary: Summary)
    requires Fits(s, objective) && Fits(was, objective) && Outcome(was.log, summary) == Outcome(s.log, summary)
    ensures Refuses(was, Finalize(objective, summary)) == Refuses(s, Finalize(objective, summary))
  {
  }

  /** Resumable: after any number of cut-off finalizations, one that is not cut off leaves the log that a
      single undisturbed one would have left, and ends as that one would have. Idempotent: another one
      appends nothing. */
  lemma FinalizeIsResumable(s: Session, objective: string, summary: Summary, attempts: seq<Attempt>, power: nat)
    requires Fits(s, objective) && Repeats(attempts, Finalize(objective, summary))
    requires power >= |Plan(After(s, attempts).log, summary)|
    ensures var done := Next(After(s, attempts), Finalize(objective, summary), power);
            && done.log == s.log + Plan(s.log, summary)
            && Next(done, Finalize(objective, summary), power) == done
            && Refuses(After(s, attempts), Finalize(objective, summary)) == Refuses(s, Finalize(objective, summary))
  {
    var was := After(s, attempts);
    AttemptsExtend(s, objective, summary, attempts);
    RestIsLeft(s.log, summary, attempts);
    Undisturbed(was, objective, summary, power);
    SameEnd(s, was, objective, summary);
  }

  lemma OnlyOnce(log: seq<Kind>, k: Kind)
    requires NoDuplicates(log) && k in log
    ensures exists i :: 0 <= i < |log| && log[i] == k && forall j :: 0 <= j < |log| && log[j] == k ==> j == i
  {
    var i :| 0 <= i < |log| && log[i] == k;
  }

  /** A finished finalization left every event of its script, each of them once: all of them, or those
      before the end of the run when that has come the other way. */
  lemma FinishedHasAll(attempts: seq<Attempt>, objective: string, summary: Summary, power: nat, k: Kind)
    requires var s := After(NewSession, attempts);
             Fits(s, objective) && k in Steps(s.log, summary) && power >= |Plan(s.log, summary)|
    ensures var log := Next(After(NewSession, attempts), Finalize(objective, summary), power).log;
            exists i :: 0 <= i < |log| && log[i] == k && forall j :: 0 <= j < |log| && log[j] == k ==> j == i
  {
    var s := After(NewSession, attempts);
    HistoryIsSound(attempts);
    NextIsSound(s, Finalize(objective, summary), power);
    Undisturbed(s, objective, summary, power);
    OnlyOnce(Next(s, Finalize(objective, summary), power).log, k);
  }

  /** The run can still end as the summary says. */
  predicate StillOpen(log: seq<Kind>, summary: Summary) {
    (if summary.verified then Failed else Completed) !in log
  }

  /** For a log that ends one way at most. */
  lemma OutcomeIff(log: seq<Kind>, summary: Summary)
    requires !(Completed in log && Failed in log)
    ensures Outcome(log, summary).None? <==>
            StillOpen(log, summary) && (summary.stageLocator != summary.trajectoryLocator || FinalState in log)
    ensures Stopped(log, summary) <==> !StillOpen(log, summary)
  {
  }

  lemma PlanEnds(log: seq<Kind>, summary: Summary)
    ensures Terminal(summary) in log + Plan(log, summary) <==> !Stopped(log, summary)
    ensures FinalState in log + Plan(log, summary) <==> FinalState in log || (!Blocked(summary) && !Stopped(log, summary))
  {
    if FinalState in Steps(log, summary) { StepsEnd(log, summary, FinalState); }
    if Terminal(summary) in Steps(log, summary) { StepsEnd(log, summary, Terminal(summary)); }
  }

  lemma CompletesAt(s: Session, objective: string, summary: Summary)
    requires Fits(s, objective) && !(Completed in s.log && Failed in s.log)
    ensures var log := s.log + Plan(s.log, summary);
            && (Refuses(s, Finalize(objective, summary)).None? <==> Terminal(summary) in log && FinalState in log)
            && (Terminal(summary) in log && FinalState in log <==>
                StillOpen(s.log, summary) && (summary.stageLocator != summary.trajectoryLocator || FinalState in s.log))
  {
    PlanEnds(s.log, summary);
    OutcomeIff(s.log, summary);
  }

  /** An undisturbed finalization reports success exactly when it leaves the end that its summary names and
      the final state; that is, exactly when the run has not ended the other way, and the two locators
      differ or an earlier finalization has already committed the final state. */
  lemma CompletesIff(attempts: seq<Attempt>, objective: string, summary: Summary, power: nat)
    requires var s := After(NewSession, attempts); Fits(s, objective) && power >= |Plan(s.log, summary)|
    ensures var s := After(NewSession, attempts);
            var log := Next(s, Finalize(objective, summary), power).log;
            && (Refuses(s, Finalize(objective, summary)).None? <==> Terminal(summary) in log && FinalState in log)
            && (Terminal(summary) in log && FinalState in log <==>
                StillOpen(s.log, summary) && (summary.stageLocator != summary.trajectoryLocator || FinalState in s.log))
  {
    var s := After(NewSession, attempts);
    HistoryIsSound(attempts);
    Undisturbed(s, objective, summary, power);
    CompletesAt(s, objective, summary);
  }

  /** A report without a model request names both locators "unavailable". */
  function FailureReport(requested: bool, stage: string, trajectory: string): (r: Summary)
    ensures !requested ==> Blocked(r)
  {
    if requested then Summary(false, 1, false, stage, trajectory) else Summary(false, 0, false, "unavailable", "unavailable")
  }

  lemma NotCommitted(s: Session, objective: string, summary: Summary, power: nat)
    requires Blocked(summary) && FinalState !in s.log
    ensures FinalState !in Next(s, Finalize(objective, summary), power).log
  {
    var plan := Appends(s, Finalize(objective, summary));
    if FinalState in Steps(s.log, summary) { StepsEnd(s.log, summary, FinalState); }
    assert FinalState !in plan;
  }

  /** Retrying such a report never helps: however often it is finalized, the final state is not committed. */
  lemma {:induction false} UnavailableNeverCompletes(s: Session, objective: string, stage: string, trajectory: string, attempts: seq<Attempt>)
    requires Repeats(attempts, Finalize(objective, FailureReport(false, stage, trajectory))) && FinalState !in s.log
    ensures FinalState !in After(s, attempts).log
    ensures Refuses(After(s, attempts), Finalize(objective, FailureReport(false, stage, trajectory))).Some?
  {
    if attempts != [] {
      var front, last := attempts[..|attempts| - 1], attempts[|attempts| - 1];
      UnavailableNeverCompletes(s, objective, stage, trajectory, front);
      assert last.op == Finalize(objective, FailureReport(false, stage, trajectory));
      NotCommitted(After(s, front), objective, FailureReport(false, stage, trajectory), last.power);
    }
  }

  /** A session whose failure report was finalized is Failed for good: a later finalization that is
      verified stops before the end of the run, however often it is tried. */
  lemma {:induction false} VerifiedRetryIsRefused(objective: string, stage: string, trajectory: string, verified: Summary, power: nat, attempts: seq<Attempt>)
    requires verified.verified && Repeats(attempts, Finalize(objective, verified))
    requires power >= |Plan([], FailureReport(false, stage, trajectory))|
    ensures var s := Next(NewSession, Finalize(objective, FailureReport(false, stage, trajectory)), power);
            && Failed in s.log && Fits(s, objective)
            && Completed !in After(s, attempts).log && FinalState !in After(s, attempts).log
            && Refuses(After(s, attempts), Finalize(objective, verified)) == Some(OtherTerminal)
  {
    var report := FailureReport(false, stage, trajectory);
    ReportFails(objective, report, power);
    RetryIsRefused(Next(NewSession, Finalize(objective, report), power), objective, verified, attempts);
  }

  lemma RetryIsRefused(s: Session, objective: string, verified: Summary, attempts: seq<Attempt>)
    requires Fits(s, objective) && Failed in s.log && Completed !in s.log && FinalState !in s.log
    requires verified.verified && Repeats(attempts, Finalize(objective, verified))
    ensures Completed !in After(s, attempts).log && FinalState !in After(s, attempts).log
    ensures Refuses(After(s, attempts), Finalize(objective, verified)) == Some(OtherTerminal)
  {
    StaysShut(s, objective, verified, attempts);
  }

  lemma ReportFails(objective: string, report: Summary, power: nat)
    requires !report.verified && Blocked(report) && power >= |Plan([], report)|
    ensures var s := Next(NewSession, Finalize(objective, report), power);
            Failed in s.log && Completed !in s.log && FinalState !in s.log && Fits(s, objective)
  {
    Undisturbed(NewSession, objective, report, power);
    PlanEnds([], report);
    OneAttempt(NewSession, objective, report, power);
    if Completed in Steps([], report) { StepsEnd([], report, Completed); }
  }

  /** Once the run has ended the other way, no finalization gets further. */
  lemma {:induction false} StaysShut(s: Session, objective: string, summary: Summary, attempts: seq<Attempt>)
    requires Fits(s, objective) && Stopped(s.log, summary) && Repeats(attempts, Finalize(objective, summary))
    ensures Fits(After(s, attempts), objective) && Stopped(After(s, attempts).log, summary)
    ensures FinalState in After(s, attempts).log <==> FinalState in s.log
  {
    if attempts != [] {
      var front, last := attempts[..|attempts| - 1], attempts[|attempts| - 1];
      StaysShut(s, objective, summary, front);
      assert last.op == Finalize(objective, summary);
      OneShut(After(s, front), objective, summary, last.power);
    }
  }

  lemma OneShut(s: Session, objective: string, summary: Summary, power: nat)
    requires Fits(s, objective) && Stopped(s.log, summary)
    ensures var next := Next(s, Finalize(objective, summary), power);
            && Fits(next, objective) && Stopped(next.log, summary)
            && (FinalState in next.log <==> FinalState in s.log)
  {
    OneAttempt(s, objective, summary, power);
    if FinalState in Steps(s.log, summary) { StepsEnd(s.log, summary, FinalState); }
    assert FinalState !in Plan(s.log, summary);
  }
}
