// Recording a coding run: find-or-append steps that may be cut off after any append and resumed.

module Finalization {
  import opened Basics

  datatype Kind =
    | Started | FirstState | Request | Response | Edited
    | Tested | Verified | Restore | Completed | Failed | Episode | FinalState

  /** One session's events in order, and the objective its first state was committed with. */
  datatype Session = Session(log: seq<Kind>, objective: Option<string>)

  datatype Summary = Summary(
    verified: bool, modelCalls: nat, responseObserved: bool, stageLocator: string, trajectoryLocator: string)

  datatype Refusal = Interrupted | OtherObjective | UnsafeRepeat | NoRequest | OtherTerminal | InvalidState

  // -- what each operation still has to append --

  /** The kinds of `wanted` that the log lacks, in order. */
  function Missing(log: seq<Kind>, wanted: seq<Kind>): (r: seq<Kind>)
    ensures forall k :: k in r <==> k in wanted && k !in log
  {
    if wanted == [] then []
    else
      var front, k := Missing(log, wanted[..|wanted| - 1]), wanted[|wanted| - 1];
      assert wanted == wanted[..|wanted| - 1] + [k];
      if k in log then front else front + [k]
  }

  function Terminal(s: Summary): Kind {
    if s.verified then Completed else Failed
  }

  /** The final state lists both locators as artifacts, and artifact paths must be unique. */
  predicate Blocked(s: Summary) {
    s.stageLocator == s.trajectoryLocator
  }

  function Recovered(s: Summary): seq<Kind> {
    (if s.modelCalls > 0 then [Request] else [])
    + (if s.modelCalls > 0 && s.responseObserved then [Response] else [])
  }

  /** How many events of the model call are known. */
  function Recoverable(s: Summary): (n: nat)
    ensures n == |Recovered(s)|
  {
    if s.modelCalls == 0 then 0 else if s.responseObserved then 2 else 1
  }

  /** What a finalization records before it comes to the end of the run. */
  function Before(s: Summary): seq<Kind> {
    [Started, FirstState] + Recovered(s) + [Edited, Tested, Verified, Restore]
  }

  /** Everything a finalization with this summary should leave in the log. */
  function Wanted(s: Summary): seq<Kind> {
    Before(s) + [Terminal(s), Episode] + if Blocked(s) then [] else [FinalState]
  }

  /** The run has ended the other way: the store refuses a second terminal event. */
  predicate Opposed(log: seq<Kind>, k: Kind) {
    (k == Completed && Failed in log) || (k == Failed && Completed in log)
  }

  predicate Stopped(log: seq<Kind>, s: Summary) {
    Terminal(s) !in log && Opposed(log, Terminal(s))
  }

  /** How far a finalization gets in this log. */
  function Steps(log: seq<Kind>, s: Summary): seq<Kind> {
    if Stopped(log, s) then Before(s) else Wanted(s)
  }

  function Plan(log: seq<Kind>, s: Summary): seq<Kind> {
    Missing(log, Steps(log, s))
  }

  /** How it ends when it is not cut off. */
  function Outcome(log: seq<Kind>, s: Summary): Option<Refusal> {
    if Stopped(log, s) then Some(OtherTerminal)
    else if Blocked(s) && FinalState !in log then Some(InvalidState)
    else None
  }

  // -- invariants of every session --

  /** What must come before an event of this kind: the event it names as its parent, and its states' order. */
  predicate Follows(before: seq<Kind>, k: Kind) {
    match k
    case FirstState => Started in before
    case Response => Request in before
    case Tested => Edited in before
    case Verified => Tested in before
    case Restore => Verified in before
    case Completed => Restore in before
    case Failed => Restore in before
    case Episode => Completed in before || Failed in before
    case FinalState => FirstState in before && Episode in before
    case _ => true
  }

  ghost predicate FollowsAt(log: seq<Kind>, i: nat) {
    i < |log| && Follows(log[..i], log[i])
  }

  ghost predicate Sound(log: seq<Kind>) {
    && NoDuplicates(log)
    && !(Completed in log && Failed in log)
    && forall i :: 0 <= i < |log| ==> FollowsAt(log, i)
  }

  lemma FollowsMore(before: seq<Kind>, more: seq<Kind>, k: Kind)
    requires Follows(before, k) && forall x :: x in before ==> x in more
    ensures Follows(more, k)
  {
  }

  lemma SoundGrows(log: seq<Kind>, k: Kind)
    requires Sound(log) && k !in log && Follows(log, k) && !Opposed(log, k)
    ensures Sound(log + [k])
  {
    var more := log + [k];
    forall i | 0 <= i < |more| ensures FollowsAt(more, i) {
      if i < |log| {
        assert FollowsAt(log, i);
        assert more[..i] == log[..i];
      } else {
        assert more[..i] == log;
      }
    }
  }

  lemma SoundHas(log: seq<Kind>, k: Kind)
    requires Sound(log) && k in log
    ensures Follows(log, k)
  {
    var i :| 0 <= i < |log| && log[i] == k;
    assert FollowsAt(log, i);
    FollowsMore(log[..i], log, k);
  }

  // -- finding what is missing, step by step --

  lemma {:induction false} MissingJoins(log: seq<Kind>, a: seq<Kind>, b: seq<Kind>)
    ensures Missing(log, a + b) == Missing(log, a) + Missing(log, b)
  {
    if b == [] {
      assert a + b == a;
    } else {
      MissingJoins(log, a, b[..|b| - 1]);
      assert (a + b)[..|a + b| - 1] == a + b[..|b| - 1];
    }
  }

  /** Appending events of other kinds does not change what is missing. */
  lemma {:induction false} MissingElsewhere(log: seq<Kind>, more: seq<Kind>, wanted: seq<Kind>)
    requires forall k :: k in wanted ==> k !in more
    ensures Missing(log + more, wanted) == Missing(log, wanted)
  {
    if wanted != [] {
      assert wanted == wanted[..|wanted| - 1] + [wanted[|wanted| - 1]];
      MissingElsewhere(log, more, wanted[..|wanted| - 1]);
    }
  }

  /** `wanted` is the order in which a finalization with this summary records its events, up to the end
      of the run or not. */
  ghost predicate Script(wanted: seq<Kind>, s: Summary, stopped: bool) {
    var n := Recoverable(s) + 2;
    && |wanted| == n + (if stopped then 4 else if Blocked(s) then 6 else 7)
    && wanted[0] == Started && wanted[1] == FirstState
    && (s.modelCalls > 0 ==> wanted[2] == Request)
    && (s.modelCalls > 0 && s.responseObserved ==> wanted[3] == Response)
    && wanted[n] == Edited && wanted[n + 1] == Tested && wanted[n + 2] == Verified && wanted[n + 3] == Restore
    && (stopped ==> Completed !in wanted && Failed !in wanted)
    && (!stopped ==> wanted[n + 4] == Terminal(s) && wanted[n + 5] == Episode)
    && (if stopped || Blocked(s) then FinalState !in wanted else wanted[n + 6] == FinalState)
    && NoDuplicates(wanted)
  }

  lemma ShortScript(s: Summary)
    ensures Script(Before(s), s, true)
  {
  }

  lemma FullScript(s: Summary)
    ensures Script(Wanted(s), s, false)
  {
  }

  lemma StepsAreScript(log: seq<Kind>, s: Summary)
    ensures Script(Steps(log, s), s, Stopped(log, s))
  {
    if Stopped(log, s) { ShortScript(s); } else { FullScript(s); }
  }

  /** Which ends a finalization may add. */
  lemma StepsEnd(log: seq<Kind>, s: Summary, k: Kind)
    requires k in Steps(log, s)
    ensures k == Completed || k == Failed ==> k == Terminal(s) && !Stopped(log, s)
    ensures k == FinalState ==> !Blocked(s) && !Stopped(log, s)
  {
    var b := Before(s);
    assert k in b ==> k in [Started, FirstState] || k in Recovered(s) || k in [Edited, Tested, Verified, Restore];
  }

  lemma MissingOne(log: seq<Kind>, done: seq<Kind>, k: Kind)
    requires k !in done
    ensures Missing(log, done + [k]) == Missing(log, done) + (if k in log then [] else [k])
    ensures k in log + Missing(log, done) <==> k in log
  {
    assert (done + [k])[..|done|] == done;
  }

  lemma MissingPrefix(log: seq<Kind>, wanted: seq<Kind>, n: nat)
    requires n < |wanted| && wanted[n] !in log
    ensures |Missing(log, wanted[..n])| < |Missing(log, wanted)|
    ensures Missing(log, wanted)[..|Missing(log, wanted[..n])|] == Missing(log, wanted[..n])
  {
    var front, rest := Missing(log, wanted[..n]), Missing(log, wanted[n..]);
    MissingJoins(log, wanted[..n], wanted[n..]);
    assert wanted == wanted[..n] + wanted[n..];
    assert wanted[n] in wanted[n..] && wanted[n] in rest;
    assert Missing(log, wanted) == front + rest && (front + rest)[..|front|] == front;
  }

  // -- the operations --

  datatype Op =
    | EnsureStarted(objective: string)
    | RecordIntent
    | RecordResponse
    | RecordImplementation
    | Finalize(objective: string, summary: Summary)

  /** What an operation appends if it is not cut off. */
  function Appends(s: Session, op: Op): (r: seq<Kind>) {
    match op
    case EnsureStarted(o) => if OtherRun(s, o) then Missing(s.log, [Started]) else Missing(s.log, [Started, FirstState])
    case RecordIntent => Missing(s.log, [Request])
    case RecordResponse => if Request in s.log then Missing(s.log, [Response]) else []
    case RecordImplementation => Missing(s.log, [Edited, Tested])
    case Finalize(o, summary) => if OtherRun(s, o) then Missing(s.log, [Started]) else Plan(s.log, summary)
  }

  predicate OtherRun(s: Session, objective: string) {
    FirstState in s.log && s.objective != Some(objective)
  }

  /** How an operation ends that is not cut off. */
  function Refuses(s: Session, op: Op): (r: Option<Refusal>) {
    match op
    case EnsureStarted(o) => if OtherRun(s, o) then Some(OtherObjective) else None
    case RecordIntent => if Request in s.log then Some(UnsafeRepeat) else None
    case RecordResponse => if Request in s.log then None else Some(NoRequest)
    case RecordImplementation => None
    case Finalize(o, summary) =>
      if OtherRun(s, o) then Some(OtherObjective)
      else Outcome(s.log, summary)
  }

  function ObjectiveOf(op: Op): string {
    match op
    case EnsureStarted(o) => o
    case Finalize(o, _) => o
    case _ => ""
  }

  /** The session after an operation that could append at most `power` events. */
  function Next(s: Session, op: Op, power: nat): (r: Session) {
    var plan := Appends(s, op);
    var log := s.log + plan[..if power < |plan| then power else |plan|];
    Session(log, if FirstState in log && FirstState !in s.log then Some(ObjectiveOf(op)) else s.objective)
  }

  class Recorder {
    const objective: string
    var session: Session
    var power: nat               // appends left before the process is cut off

    constructor (objective: string, session: Session, power: nat)
      ensures this.objective == objective && this.session == session && this.power == power
    {
      this.objective, this.session, this.power := objective, session, power;
    }

    /** The kinds before `n` are dealt with: the log has grown by what `start` lacked of them. */
    ghost predicate Reached(start: Session, total: nat, wanted: seq<Kind>, n: nat) reads this {
      && n <= |wanted|
      && session.log == start.log + Missing(start.log, wanted[..n])
      && power + |session.log| == total
      && Sound(session.log)
      && session.objective == (if FirstState in session.log && FirstState !in start.log then Some(objective) else start.objective)
    }

    /** The process was cut off at the first kind it could not append. */
    ghost predicate Cut(start: Session, total: nat, wanted: seq<Kind>) reads this {
      power == 0 && exists n: nat :: n < |wanted| && wanted[n] !in start.log && Reached(start, total, wanted, n)
    }

    /** Either the event is in the log, found or appended, or the process was cut off first. */
    method FindOrAppend(k: Kind, ghost start: Session, ghost total: nat, ghost wanted: seq<Kind>, ghost n: nat)
      returns (ok: bool)
      requires Reached(start, total, wanted, n) && n < |wanted| && wanted[n] == k && NoDuplicates(wanted)
      requires Follows(session.log, k) && (k in session.log || !Opposed(session.log, k))
      modifies this
      ensures if ok then Reached(start, total, wanted, n + 1) && k in session.log else Cut(start, total, wanted)
      ensures !ok ==> Reached(start, total, wanted, n) && k !in start.log
    {
      MissingOne(start.log, wanted[..n], k);
      assert wanted[..n + 1] == wanted[..n] + [k];
      if k in session.log { return true; }
      if power == 0 { return false; }
      SoundGrows(session.log, k);
      power := power - 1;
      session := Session(session.log + [k], if k == FirstState then Some(objective) else session.objective);
      return true;
    }

    lemma AlreadyStarted(start: Session, total: nat, wanted: seq<Kind>)
      requires |wanted| >= 2 && wanted[0] == Started && wanted[1] == FirstState && NoDuplicates(wanted)
      requires Reached(start, total, wanted, 1) && FirstState in session.log
      ensures Reached(start, total, wanted, 2) && FirstState in start.log
    {
      MissingOne(start.log, wanted[..1], FirstState);
      assert wanted[..2] == wanted[..1] + [FirstState];
    }

    method StartRun(ghost start: Session, ghost total: nat, ghost wanted: seq<Kind>) returns (r: Option<Refusal>)
      requires |wanted| >= 2 && wanted[0] == Started && wanted[1] == FirstState && NoDuplicates(wanted)
      requires Reached(start, total, wanted, 0)
      modifies this
      ensures r.None? ==> !OtherRun(start, objective) && Reached(start, total, wanted, 2)
      ensures r == Some(Interrupted) ==>
                Cut(start, total, wanted) && (OtherRun(start, objective) ==> Reached(start, total, wanted, 0) && Started !in start.log)
      ensures r.Some? && r != Some(Interrupted) ==>
                r == Some(OtherObjective) && OtherRun(start, objective) && Reached(start, total, wanted, 1)
    {
      assert session.log == start.log;
      var ok := FindOrAppend(Started, start, total, wanted, 0);
      if !ok { return Some(Interrupted); }
      if FirstState !in session.log && FinalState !in session.log {
        ok := FindOrAppend(FirstState, start, total, wanted, 1);
        return if ok then None else Some(Interrupted);
      }
      if FinalState in session.log { SoundHas(session.log, FinalState); }
      AlreadyStarted(start, total, wanted);
      if session.objective != Some(objective) { return Some(OtherObjective); }
      return None;
    }

    /** The edit and its test. */
    method RecordImplementation(ghost start: Session, ghost total: nat, ghost wanted: seq<Kind>, ghost n: nat)
      returns (ok: bool)
      requires n + 1 < |wanted| && wanted[n] == Edited && wanted[n + 1] == Tested && NoDuplicates(wanted)
      requires Reached(start, total, wanted, n)
      modifies this
      ensures if ok then Reached(start, total, wanted, n + 2) && Tested in session.log else Cut(start, total, wanted)
    {
      ok := FindOrAppend(Edited, start, total, wanted, n);
      if !ok { return; }
      ok := FindOrAppend(Tested, start, total, wanted, n + 1);
    }

    lemma AlreadyTested(start: Session, total: nat, wanted: seq<Kind>, n: nat)
      requires n + 1 < |wanted| && wanted[n] == Edited && wanted[n + 1] == Tested && NoDuplicates(wanted)
      requires Reached(start, total, wanted, n) && Tested in session.log
      ensures Reached(start, total, wanted, n + 2)
    {
      SoundHas(session.log, Tested);
      MissingOne(start.log, wanted[..n], Edited);
      MissingOne(start.log, wanted[..n], Tested);
      MissingOne(start.log, wanted[..n + 1], Tested);
      assert wanted[..n + 1] == wanted[..n] + [Edited];
      assert wanted[..n + 2] == wanted[..n + 1] + [Tested];
    }

    /** The model call, as far as the summary knows of it. */
    method RecoverCall(s: Summary, ghost start: Session, ghost total: nat, ghost wanted: seq<Kind>)
      returns (ok: bool)
      requires |wanted| > 3 && NoDuplicates(wanted) && Reached(start, total, wanted, 2)
      requires s.modelCalls > 0 ==> wanted[2] == Request
      requires s.modelCalls > 0 && s.responseObserved ==> wanted[3] == Response
      modifies this
      ensures if ok then Reached(start, total, wanted, 2 + Recoverable(s)) else Cut(start, total, wanted)
    {
      if s.modelCalls == 0 { return true; }
      ok := FindOrAppend(Request, start, total, wanted, 2);
      if !ok || !s.responseObserved { return; }
      ok := FindOrAppend(Response, start, total, wanted, 3);
    }

    /** Records the model call and the implementation as far as the summary knows of them. */
    method EnsureRecovery(s: Summary, ghost start: Session, ghost total: nat, ghost wanted: seq<Kind>)
      returns (ok: bool)
      requires Script(wanted, s, Stopped(start.log, s)) && Reached(start, total, wanted, 2)
      modifies this
      ensures if ok then Reached(start, total, wanted, Recoverable(s) + 4) && Tested in session.log else Cut(start, total, wanted)
    {
      ok := RecoverCall(s, start, total, wanted);
      if !ok { return; }
      if Tested !in session.log {
        ok := RecordImplementation(start, total, wanted, Recoverable(s) + 2);
      } else {
        AlreadyTested(start, total, wanted, Recoverable(s) + 2);
      }
    }

    /** The verifier's result and the restore: each event names the one before as its parent. */
    method RecordChecks(ghost start: Session, ghost total: nat, ghost wanted: seq<Kind>, ghost n: nat)
      returns (ok: bool)
      requires n + 1 < |wanted| && wanted[n] == Verified && wanted[n + 1] == Restore && NoDuplicates(wanted)
      requires Reached(start, total, wanted, n) && Tested in session.log
      modifies this
      ensures if ok then Reached(start, total, wanted, n + 2) && Restore in session.log else Cut(start, total, wanted)
    {
      ok := FindOrAppend(Verified, start, total, wanted, n);
      if !ok { return; }
      ok := FindOrAppend(Restore, start, total, wanted, n + 1);
    }

    /** The end of the run and its episode. */
    method RecordEnd(s: Summary, ghost start: Session, ghost total: nat, ghost wanted: seq<Kind>, ghost n: nat)
      returns (ok: bool)
      requires n + 1 < |wanted| && wanted[n] == Terminal(s) && wanted[n + 1] == Episode && NoDuplicates(wanted)
      requires Reached(start, total, wanted, n) && Restore in session.log && !Stopped(session.log, s)
      modifies this
      ensures if ok then Reached(start, total, wanted, n + 2) && Episode in session.log else Cut(start, total, wanted)
    {
      ok := FindOrAppend(Terminal(s), start, total, wanted, n);
      if !ok { return; }
      ok := FindOrAppend(Episode, start, total, wanted, n + 1);
    }

    /** Nothing recorded so far ends the run. */
    lemma StillStopped(s: Summary, start: Session, total: nat, wanted: seq<Kind>, n: nat)
      requires Reached(start, total, wanted, n) && Completed !in wanted[..n] && Failed !in wanted[..n]
      ensures Stopped(session.log, s) == Stopped(start.log, s)
    {
    }

    lemma NoEndYet(s: Summary, stopped: bool, wanted: seq<Kind>)
      requires Script(wanted, s, stopped)
      ensures Completed !in wanted[..Recoverable(s) + 6] && Failed !in wanted[..Recoverable(s) + 6]
    {
    }

    lemma IsThere(start: Session, total: nat, wanted: seq<Kind>, n: nat, j: nat)
      requires Reached(start, total, wanted, n) && j < n
      ensures wanted[j] in session.log
    {
      assert wanted[j] in wanted[..n];
    }

    /** The final state, which cannot list the same path twice. */
    method CommitFinalState(s: Summary, ghost start: Session, ghost total: nat, ghost wanted: seq<Kind>, ghost n: nat)
      returns (r: Option<Refusal>)
      requires Reached(start, total, wanted, n) && NoDuplicates(wanted)
      requires if Blocked(s) then |wanted| == n && FinalState !in wanted else |wanted| == n + 1 && wanted[n] == FinalState
      requires FirstState in session.log && Episode in session.log
      modifies this
      ensures r == Some(Interrupted) ==> Cut(start, total, wanted)
      ensures r != Some(Interrupted) ==> Reached(start, total, wanted, |wanted|)
      ensures r != Some(Interrupted) ==> r == if Blocked(s) && FinalState !in start.log then Some(InvalidState) else None
    {
      MissingOne(start.log, wanted[..n], FinalState);
      if FinalState !in session.log {
        if Blocked(s) { return Some(InvalidState); }
        var ok := FindOrAppend(FinalState, start, total, wanted, n);
        return if ok then None else Some(Interrupted);
      }
      if !Blocked(s) { assert wanted[..n + 1] == wanted[..n] + [FinalState]; }
      return None;
    }

    /** Cut off means: as many of the missing events as there were appends left. */
    lemma CutIsNext(start: Session, total: nat, wanted: seq<Kind>, power0: nat)
      requires Cut(start, total, wanted) && total == power0 + |start.log|
      ensures var plan := Missing(start.log, wanted);
              power0 < |plan| && session.log == start.log + plan[..power0]
    {
      var n: nat :| n < |wanted| && wanted[n] !in start.log && Reached(start, total, wanted, n);
      MissingPrefix(start.log, wanted, n);
    }

    lemma DoneIsNext(start: Session, total: nat, wanted: seq<Kind>, power0: nat)
      requires Reached(start, total, wanted, |wanted|) && total == power0 + |start.log|
      ensures var plan := Missing(start.log, wanted);
              |plan| <= power0 && session.log == start.log + plan[..|plan|]
    {
      assert wanted[..|wanted|] == wanted;
    }

    /** The end of the run, unless it has ended the other way, and the final state. */
    method Conclude(s: Summary, ghost start: Session, ghost total: nat, ghost wanted: seq<Kind>) returns (r: Option<Refusal>)
      requires Script(wanted, s, Stopped(start.log, s)) && Reached(start, total, wanted, Recoverable(s) + 6)
      requires Restore in session.log && FirstState in session.log
      modifies this
      ensures r == Some(Interrupted) ==> Cut(start, total, wanted)
      ensures r != Some(Interrupted) ==> Reached(start, total, wanted, |wanted|) && r == Outcome(start.log, s)
    {
      NoEndYet(s, Stopped(start.log, s), wanted);
      StillStopped(s, start, total, wanted, Recoverable(s) + 6);
      if Stopped(session.log, s) { return Some(OtherTerminal); }
      var ok := RecordEnd(s, start, total, wanted, Recoverable(s) + 6);
      if !ok { return Some(Interrupted); }
      IsThere(start, total, wanted, Recoverable(s) + 8, 1);
      r := CommitFinalState(s, start, total, wanted, Recoverable(s) + 8);
    }

    /** The steps of a finalization once the run is known to be this one. */
    method Record(s: Summary, ghost start: Session, ghost total: nat, ghost wanted: seq<Kind>) returns (r: Option<Refusal>)
      requires Script(wanted, s, Stopped(start.log, s)) && Reached(start, total, wanted, 2)
      modifies this
      ensures r == Some(Interrupted) ==> Cut(start, total, wanted)
      ensures r != Some(Interrupted) ==> Reached(start, total, wanted, |wanted|) && r == Outcome(start.log, s)
    {
      var ok := EnsureRecovery(s, start, total, wanted);
      if !ok { return Some(Interrupted); }
      ok := RecordChecks(start, total, wanted, Recoverable(s) + 4);
      if !ok { return Some(Interrupted); }
      IsThere(start, total, wanted, Recoverable(s) + 6, 1);
      r := Conclude(s, start, total, wanted);
    }

    /** What is left after `power0` appends of a plan, or all of it. */
    ghost predicate Ended(start: Session, power0: nat, plan: seq<Kind>, refusal: Option<Refusal>, r: Option<Refusal>)
      reads this
    {
      && Sound(session.log)
      && session.log == start.log + plan[..if power0 < |plan| then power0 else |plan|]
      && session.objective == (if FirstState in session.log && FirstState !in start.log then Some(objective) else start.objective)
      && r == if power0 < |plan| then Some(Interrupted) else refusal
    }

    method RecordAll(s: Summary, ghost start: Session, ghost total: nat, ghost wanted: seq<Kind>, ghost power0: nat)
      returns (r: Option<Refusal>)
      requires Script(wanted, s, Stopped(start.log, s)) && Reached(start, total, wanted, 2) && total == power0 + |start.log|
      modifies this
      ensures Ended(start, power0, Missing(start.log, wanted), Outcome(start.log, s), r)
    {
      r := Record(s, start, total, wanted);
      if r == Some(Interrupted) {
        CutIsNext(start, total, wanted, power0);
      } else {
        DoneIsNext(start, total, wanted, power0);
      }
    }

    method FinalizeAs(s: Summary, ghost wanted: seq<Kind>) returns (r: Option<Refusal>)
      requires Sound(session.log) && Script(wanted, s, Stopped(session.log, s))
      modifies this
      ensures if OtherRun(old(session), objective)
              then Ended(old(session), old(power), Missing(old(session.log), [Started]), Some(OtherObjective), r)
              else Ended(old(session), old(power), Missing(old(session.log), wanted), Outcome(old(session.log), s), r)
    {
      ghost var start, total := session, power + |session.log|;
      assert wanted[..0] == [] && wanted[..1] == [Started];
      MissingOne(start.log, [], Started);
      r := StartRun(start, total, wanted);
      if r.Some? {
        if !OtherRun(start, objective) { CutIsNext(start, total, wanted, old(power)); }
        return;
      }
      r := RecordAll(s, start, total, wanted, old(power));
    }

    method Finalize(s: Summary) returns (r: Option<Refusal>)
      requires Sound(session.log)
      modifies this
      ensures Sound(session.log)
      ensures session == Next(old(session), Op.Finalize(objective, s), old(power))
      ensures r == if old(power) < |Appends(old(session), Op.Finalize(objective, s))| then Some(Interrupted)
                   else Refuses(old(session), Op.Finalize(objective, s))
    {
      StepsAreScript(session.log, s);
      r := FinalizeAs(s, Steps(session.log, s));
    }

    method EnsureStarted() returns (r: Option<Refusal>)
      requires Sound(session.log)
      modifies this
      ensures session == Next(old(session), Op.EnsureStarted(objective), old(power)) && Sound(session.log)
      ensures r == if old(power) < |Appends(old(session), Op.EnsureStarted(objective))| then Some(Interrupted)
                   else Refuses(old(session), Op.EnsureStarted(objective))
    {
      ghost var start, total, wanted := session, power + |session.log|, [Started, FirstState];
      assert wanted[..0] == [] && wanted[..1] == [Started];
      MissingOne(start.log, [], Started);
      r := StartRun(start, total, wanted);
      if r == Some(Interrupted) {
        if !OtherRun(start, objective) { CutIsNext(start, total, wanted, old(power)); }
      } else if r.None? {
        DoneIsNext(start, total, wanted, old(power));
      }
    }

    /** A model request is recorded before it is sent, and never twice. */
    method RecordIntent() returns (r: Option<Refusal>)
      requires Sound(session.log)
      modifies this
      ensures session == Next(old(session), Op.RecordIntent, old(power)) && Sound(session.log)
      ensures r == Some(UnsafeRepeat) <==> Request in old(session.log)
      ensures r == Some(Interrupted) <==> Request !in old(session.log) && old(power) == 0
      ensures r.None? <==> Request !in old(session.log) && old(power) > 0
      ensures session.log == old(session.log) + if r.None? then [Request] else []
      ensures r == if old(power) < |Appends(old(session), Op.RecordIntent)| then Some(Interrupted)
                   else Refuses(old(session), Op.RecordIntent)
    {
      MissingOne(session.log, [], Request);
      if Request in session.log { return Some(UnsafeRepeat); }
      if power == 0 { return Some(Interrupted); }
      SoundGrows(session.log, Request);
      power := power - 1;
      session := session.(log := session.log + [Request]);
      return None;
    }

    method RecordResponse() returns (r: Option<Refusal>)
      requires Sound(session.log)
      modifies this
      ensures session == Next(old(session), Op.RecordResponse, old(power)) && Sound(session.log)
      ensures r == Some(NoRequest) <==> Request !in old(session.log)
      ensures r == Some(Interrupted) <==> Request in old(session.log) && Response !in old(session.log) && old(power) == 0
      ensures r.Some? ==> session == old(session) && (r == Some(NoRequest) || r == Some(Interrupted))
      ensures r.None? ==> session.log == old(session.log) + if Response in old(session.log) then [] else [Response]
      ensures r == if old(power) < |Appends(old(session), Op.RecordResponse)| then Some(Interrupted)
                   else Refuses(old(session), Op.RecordResponse)
    {
      MissingOne(session.log, [], Response);
      if Request !in session.log { return Some(NoRequest); }
      if Response in session.log { return None; }
      if power == 0 { return Some(Interrupted); }
      SoundGrows(session.log, Response);
      power := power - 1;
      session := session.(log := session.log + [Response]);
      return None;
    }
  }
}
