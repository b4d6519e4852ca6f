// What the operations of a recording answer and leave in the log, said without their plans.

module FinalizationMeaning {
  import opened Basics
  import opened Finalization
  import opened FinalizationRuns

  /** How an attempt ends: cut off, refused or done. */
  function Answer(s: Session, a: Attempt): Option<Refusal> {
    if a.power < |Appends(s, a.op)| then Some(Interrupted) else Refuses(s, a.op)
  }

  lemma MissingOnly(log: seq<Kind>, k: Kind)
    ensures Missing(log, [k]) == if k in log then [] else [k]
  {
    assert [k][..0] == [] && Missing(log, []) == [];
  }

  /** A model request is granted exactly when none was ever logged and it can be logged now. */
  lemma IntentAnswers(s: Session, power: nat)
    ensures Answer(s, Attempt(RecordIntent, power)) ==
              if Request in s.log then Some(UnsafeRepeat) else if power == 0 then Some(Interrupted) else None
    ensures Next(s, RecordIntent, power).log == if Request !in s.log && power > 0 then s.log + [Request] else s.log
  {
    MissingOnly(s.log, Request);
    assert s.log + [] == s.log;
  }

  /** A response is taken exactly behind its request. */
  lemma ResponseAnswers(s: Session, power: nat)
    ensures Answer(s, Attempt(RecordResponse, power)) ==
              if Request !in s.log then Some(NoRequest)
              else if Response !in s.log && power == 0 then Some(Interrupted) else None
  {
    MissingOnly(s.log, Response);
  }

  /** And it is logged once. */
  lemma ResponseLeaves(s: Session, power: nat)
    ensures Next(s, RecordResponse, power).log ==
              if Request in s.log && Response !in s.log && power > 0 then s.log + [Response] else s.log
  {
    MissingOnly(s.log, Response);
    assert s.log + [] == s.log;
    var plan := Appends(s, RecordResponse);
    assert plan == if Request in s.log && Response !in s.log then [Response] else [];
  }

  lemma {:induction false} LogsGrow(s: Session, attempts: seq<Attempt>, n: nat)
    requires n <= |attempts|
    ensures After(s, attempts[..n]).log <= After(s, attempts).log
    decreases |attempts|
  {
    if n < |attempts| {
      var front := attempts[..|attempts| - 1];
      assert front[..n] == attempts[..n];
      LogsGrow(s, front, n);
    } else {
      assert attempts[..n] == attempts;
    }
  }

  ghost predicate IntentAt(attempts: seq<Attempt>, i: nat) {
    i < |attempts| && attempts[i].op == RecordIntent
  }

  /** How the attempt with this number ends in a history. */
  ghost function AnswerAt(attempts: seq<Attempt>, i: nat): Option<Refusal>
    requires i < |attempts|
  {
    Answer(After(NewSession, attempts[..i]), attempts[i])
  }

  /** Over every history, once an intent was granted or a finalization has recovered one, every later intent
      is refused as an unsafe repeat. */
  lemma RepeatsAreUnsafe(attempts: seq<Attempt>, i: nat, j: nat)
    requires i <= j < |attempts| && IntentAt(attempts, j) && Request in After(NewSession, attempts[..i]).log
    ensures AnswerAt(attempts, j) == Some(UnsafeRepeat)
  {
    assert attempts[..j][..i] == attempts[..i];
    LogsGrow(NewSession, attempts[..j], i);
    IntentAnswers(After(NewSession, attempts[..j]), attempts[j].power);
  }

  /** So at most one intent is ever granted: no model call is sent twice. */
  lemma OneIntentGranted(attempts: seq<Attempt>, i: nat, j: nat)
    requires i < j < |attempts| && IntentAt(attempts, i) && IntentAt(attempts, j) && AnswerAt(attempts, i).None?
    ensures AnswerAt(attempts, j) == Some(UnsafeRepeat)
  {
    GrantIsLogged(attempts, i);
    RepeatsAreUnsafe(attempts, i + 1, j);
  }

  lemma GrantIsLogged(attempts: seq<Attempt>, i: nat)
    requires IntentAt(attempts, i) && AnswerAt(attempts, i).None?
    ensures Request in After(NewSession, attempts[..i + 1]).log
  {
    var s := After(NewSession, attempts[..i]);
    assert attempts[..i + 1][..i] == attempts[..i];
    AfterOne(NewSession, attempts[..i + 1]);
    assert attempts[i] == Attempt(RecordIntent, attempts[i].power);
    IntentAnswers(s, attempts[i].power);
  }

  lemma AfterOne(s: Session, attempts: seq<Attempt>)
    requires attempts != []
    ensures var last := attempts[|attempts| - 1]; After(s, attempts) == Next(After(s, attempts[..|attempts| - 1]), last.op, last.power)
  {
  }

  /** The kinds a finalization with this summary brings into the log, unless the run has ended the other way. */
  predicate Brings(s: Summary, shut: bool, k: Kind) {
    match k
    case Request => s.modelCalls > 0
    case Response => s.modelCalls > 0 && s.responseObserved
    case Completed => s.verified && !shut
    case Failed => !s.verified && !shut
    case Episode => !shut
    case FinalState => !shut && s.stageLocator != s.trajectoryLocator
    case _ => true
  }

  lemma StepsBring(log: seq<Kind>, s: Summary, k: Kind)
    ensures k in Steps(log, s) <==> Brings(s, Stopped(log, s), k)
  {
  }

  lemma FinalizeAnswers(s: Session, objective: string, summary: Summary, power: nat, k: Kind)
    requires Sound(s.log) && Fits(s, objective) && Answer(s, Attempt(Finalize(objective, summary), power)) != Some(Interrupted)
    ensures var log := Next(s, Finalize(objective, summary), power).log;
            s.log <= log && (k in log <==> k in s.log || Brings(summary, !StillOpen(s.log, summary), k))
  {
    Undisturbed(s, objective, summary, power);
    OutcomeIff(s.log, summary);
    StepsBring(s.log, summary, k);
  }

  /** After any history, a finalization that is not cut off leaves exactly what was logged before and the kinds
      its summary brings, each once and behind what it builds on. */
  lemma FinalizeLeaves(attempts: seq<Attempt>, objective: string, summary: Summary, power: nat)
    requires Fits(After(NewSession, attempts), objective)
    requires Answer(After(NewSession, attempts), Attempt(Finalize(objective, summary), power)) != Some(Interrupted)
    ensures var s := After(NewSession, attempts);
            var log := Next(s, Finalize(objective, summary), power).log;
            && Sound(log) && s.log <= log
            && forall k :: k in log <==> k in s.log || Brings(summary, !StillOpen(s.log, summary), k)
  {
    var s := After(NewSession, attempts);
    HistoryIsSound(attempts);
    NextIsSound(s, Finalize(objective, summary), power);
    FinalizeAnswers(s, objective, summary, power, Started);
    forall k ensures k in Next(s, Finalize(objective, summary), power).log <==> k in s.log || Brings(summary, !StillOpen(s.log, summary), k) {
      FinalizeAnswers(s, objective, summary, power, k);
    }
  }

  /** Starting leaves the start and the first state with this run's objective, or is refused without a trace
      when the session is another run's. */
  lemma StartAnswers(s: Session, objective: string, power: nat)
    requires Sound(s.log) && Answer(s, Attempt(EnsureStarted(objective), power)) != Some(Interrupted)
    ensures var next := Next(s, EnsureStarted(objective), power);
            if Fits(s, objective)
            then Answer(s, Attempt(EnsureStarted(objective), power)).None?
                 && s.log <= next.log && (forall k :: k in next.log <==> k in s.log || k == Started || k == FirstState)
                 && next.objective == Some(objective)
            else Answer(s, Attempt(EnsureStarted(objective), power)) == Some(OtherObjective) && next == s
  {
    if FirstState in s.log { SoundHas(s.log, FirstState); }
    MissingOnly(s.log, Started);
    if !Fits(s, objective) { assert s.log + [] == s.log; }
  }

  /** Recording the implementation leaves the edit and its test. */
  lemma ImplementationAnswers(s: Session, power: nat)
    requires Answer(s, Attempt(RecordImplementation, power)) != Some(Interrupted)
    ensures Answer(s, Attempt(RecordImplementation, power)).None?
    ensures var log := Next(s, RecordImplementation, power).log;
            s.log <= log && forall k :: k in log <==> k in s.log || k == Edited || k == Tested
  {
  }
}
