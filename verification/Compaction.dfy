// The admission check for a compacted state, and why it loses nothing over any chain of compactions.

module Compaction {
  import opened Basics
  import opened TaskState

  datatype Code =
    | TaskChanged | ObjectiveChanged | CurrentActionChanged
    | Omitted | Changed | EvidenceOmitted | Reversed | Unproven
    | MissingEvent | MissingEvidence | MissingArtifact | StaleArtifact | ResolverError
    | SourceHashMismatch | StaleThroughEvent | PreviousHashMismatch | InvalidPrevious | InvalidCandidate

  datatype Field =
    | Whole | Criteria | Constraints | Decisions | Completed | Next | Blockers | Calls | Artifacts | Disputes | Range

  datatype Issue = Issue(code: Code, field: Field, id: string)

  // -- items that must survive exactly --

  /** What the check reports about an item that must not change. */
  predicate ExactFault<T(==)>(before: seq<T>, after: seq<T>, key: T -> string, field: Field, x: Issue) {
    && x.field == field
    && Find(before, key, x.id).Some?
    && match x.code
       case Omitted => Find(after, key, x.id).None?
       case Changed => Find(after, key, x.id).Some? && Find(after, key, x.id) != Find(before, key, x.id)
       case _ => false
  }

  method CheckExact<T(==)>(before: seq<T>, after: seq<T>, key: T -> string, field: Field, issues: seq<Issue>)
    returns (r: seq<Issue>)
    requires Distinct(before, key)
    ensures forall x :: x in r <==> x in issues || ExactFault(before, after, key, field, x)
  {
    r := issues;
    var i := 0;
    while i < |before|
      invariant i <= |before|
      invariant forall x :: x in r ==> x in issues || ExactFault(before, after, key, field, x)
      invariant forall x :: x in issues ==> x in r
      invariant forall x, j :: 0 <= j < i && ExactFault(before, after, key, field, x) && x.id == key(before[j]) ==> x in r
    {
      var id := key(before[i]);
      var found := Find(after, key, id);
      if found.None? {
        r := r + [Issue(Omitted, field, id)];
      } else if found.value != before[i] {
        r := r + [Issue(Changed, field, id)];
      }
      i := i + 1;
    }
    forall x | ExactFault(before, after, key, field, x) ensures x in r {
      var y := Find(before, key, x.id).value;
      var j :| 0 <= j < |before| && before[j] == y;
      assert x.id == key(before[j]);
    }
  }

  // -- criteria and blockers --

  function Ids(s: seq<string>): set<string> { set x | x in s }

  predicate GoalFault(before: seq<Goal>, after: seq<Goal>, field: Field, x: Issue) {
    && x.field == field
    && var b, a := Find(before, GoalKey, x.id), Find(after, GoalKey, x.id);
    && b.Some?
    && match x.code
       case Omitted => a.None?
       case Changed => a.Some? && a.value.text != b.value.text
       case EvidenceOmitted => a.Some? && !(Ids(b.value.evidence) <= Ids(a.value.evidence))
       case Reversed => a.Some? && b.value.done && !a.value.done
       case Unproven => a.Some? && !b.value.done && a.value.done && Ids(a.value.evidence) - Ids(b.value.evidence) == {}
       case _ => false
  }

  /** What the loop reports about one criterion or blocker. */
  function GoalIssues(b: Goal, found: Option<Goal>, field: Field): seq<Issue> {
    if found.None? then [Issue(Omitted, field, b.id)]
    else
      var a := found.value;
      (if a.text != b.text then [Issue(Changed, field, b.id)] else [])
      + (if !(Ids(b.evidence) <= Ids(a.evidence)) then [Issue(EvidenceOmitted, field, b.id)] else [])
      + (if b.done && !a.done then [Issue(Reversed, field, b.id)] else [])
      + (if !b.done && a.done && Ids(a.evidence) - Ids(b.evidence) == {} then [Issue(Unproven, field, b.id)] else [])
  }

  method CheckGoals(before: seq<Goal>, after: seq<Goal>, field: Field, issues: seq<Issue>) returns (r: seq<Issue>)
    requires Distinct(before, GoalKey)
    ensures forall x :: x in r <==> x in issues || GoalFault(before, after, field, x)
  {
    r := issues;
    var i := 0;
    while i < |before|
      invariant i <= |before|
      invariant forall x :: x in r ==> x in issues || GoalFault(before, after, field, x)
      invariant forall x :: x in issues ==> x in r
      invariant forall x, j :: 0 <= j < i && GoalFault(before, after, field, x) && x.id == before[j].id ==> x in r
    {
      var more := GoalIssues(before[i], Find(after, GoalKey, before[i].id), field);
      GoalIssuesAreFaults(before, after, i, field);
      r := r + more;
      i := i + 1;
    }
    forall x | GoalFault(before, after, field, x) ensures x in r {
      var y := Find(before, GoalKey, x.id).value;
      var j :| 0 <= j < |before| && before[j] == y;
    }
  }

  lemma GoalIssuesAreFaults(before: seq<Goal>, after: seq<Goal>, i: nat, field: Field)
    requires i < |before| && Find(before, GoalKey, before[i].id) == Some(before[i])
    ensures forall x :: x in GoalIssues(before[i], Find(after, GoalKey, before[i].id), field) <==>
                        x.id == before[i].id && GoalFault(before, after, field, x)
  {
    var b, found := before[i], Find(after, GoalKey, before[i].id);
    forall x ensures x in GoalIssues(b, found, field) <==> x.id == b.id && GoalFault(before, after, field, x) {
      GoalIssueIs(b, found, field, x);
    }
  }

  lemma GoalIssueIs(b: Goal, found: Option<Goal>, field: Field, x: Issue)
    ensures x in GoalIssues(b, found, field) <==>
            && x.id == b.id && x.field == field
            && match x.code
               case Omitted => found.None?
               case Changed => found.Some? && found.value.text != b.text
               case EvidenceOmitted => found.Some? && !(Ids(b.evidence) <= Ids(found.value.evidence))
               case Reversed => found.Some? && b.done && !found.value.done
               case Unproven => found.Some? && !b.done && found.value.done && Ids(found.value.evidence) - Ids(b.evidence) == {}
               case _ => false
  {
  }

  // -- the whole invariant check --

  predicate HeadFault(p: State, c: State, x: Issue) {
    && x.field == Whole && x.id == ""
    && match x.code
       case TaskChanged => p.task != c.task
       case ObjectiveChanged => p.objective != c.objective
       case CurrentActionChanged => p.current != c.current
       case _ => false
  }

  predicate ExactFaults(p: State, c: State, x: Issue) {
    || ExactFault(p.constraints, c.constraints, ConstraintKey, Constraints, x)
    || ExactFault(p.decisions, c.decisions, ChoiceKey, Decisions, x)
    || ExactFault(p.completed, c.completed, WorkKey, Completed, x)
    || ExactFault(p.next, c.next, ActionKey, Next, x)
    || ExactFault(p.calls, c.calls, CallKey, Calls, x)
    || ExactFault(p.artifacts, c.artifacts, ArtifactKey, Artifacts, x)
    || ExactFault(p.disputes, c.disputes, DisputeKey, Disputes, x)
  }

  predicate NewWorkFault(p: State, c: State, x: Issue) {
    && x.code == Unproven && x.field == Completed
    && Find(p.completed, WorkKey, x.id).None?
    && exists w :: w in c.completed && w.id == x.id && w.evidence == []
  }

  predicate InvariantFault(p: State, c: State, x: Issue) {
    || HeadFault(p, c, x)
    || ExactFaults(p, c, x)
    || ProofFaults(p, c, x)
  }

  /** What is wrong with criteria, blockers and completed work. */
  predicate ProofFaults(p: State, c: State, x: Issue) {
    || GoalFault(p.criteria, c.criteria, Criteria, x)
    || GoalFault(p.blockers, c.blockers, Blockers, x)
    || NewWorkFault(p, c, x)
  }

  method CheckNewWork(p: State, c: State, issues: seq<Issue>) returns (r: seq<Issue>)
    ensures forall x :: x in r <==> x in issues || NewWorkFault(p, c, x)
  {
    r := issues;
    var i := 0;
    while i < |c.completed|
      invariant i <= |c.completed|
      invariant forall x :: x in r ==> x in issues || NewWorkFault(p, c, x)
      invariant forall x :: x in issues ==> x in r
      invariant forall j :: 0 <= j < i && Find(p.completed, WorkKey, c.completed[j].id).None? && c.completed[j].evidence == [] ==>
                  Issue(Unproven, Completed, c.completed[j].id) in r
    {
      var w := c.completed[i];
      if Find(p.completed, WorkKey, w.id).None? && w.evidence == [] {
        r := r + [Issue(Unproven, Completed, w.id)];
      }
      i := i + 1;
    }
    forall x | NewWorkFault(p, c, x) ensures x in r {
      var w :| w in c.completed && w.id == x.id && w.evidence == [];
      var j :| 0 <= j < |c.completed| && c.completed[j] == w;
      assert x == Issue(Unproven, Completed, c.completed[j].id);
    }
  }

  method CheckExactFields(p: State, c: State, issues: seq<Issue>) returns (r: seq<Issue>)
    requires Valid(p)
    ensures forall x :: x in r <==> x in issues || ExactFaults(p, c, x)
  {
    r := CheckExact(p.constraints, c.constraints, ConstraintKey, Constraints, issues);
    r := CheckExact(p.decisions, c.decisions, ChoiceKey, Decisions, r);
    r := CheckExact(p.completed, c.completed, WorkKey, Completed, r);
    r := CheckExact(p.next, c.next, ActionKey, Next, r);
    r := CheckExact(p.calls, c.calls, CallKey, Calls, r);
    r := CheckExact(p.artifacts, c.artifacts, ArtifactKey, Artifacts, r);
    r := CheckExact(p.disputes, c.disputes, DisputeKey, Disputes, r);
  }

  /** The issues are exactly what is lost, changed or unproven between the two states. */
  method CheckProofs(p: State, c: State, issues: seq<Issue>) returns (r: seq<Issue>)
    requires Valid(p)
    ensures forall x :: x in r <==> x in issues || ProofFaults(p, c, x)
  {
    r := CheckGoals(p.criteria, c.criteria, Criteria, issues);
    r := CheckGoals(p.blockers, c.blockers, Blockers, r);
    r := CheckNewWork(p, c, r);
  }

  method CheckInvariants(p: State, c: State, issues: seq<Issue>) returns (r: seq<Issue>)
    requires Valid(p)
    ensures forall x :: x in r <==> x in issues || InvariantFault(p, c, x)
  {
    r := issues;
    if p.task != c.task { r := r + [Issue(Code.TaskChanged, Whole, "")]; }
    if p.objective != c.objective { r := r + [Issue(ObjectiveChanged, Whole, "")]; }
    r := CheckExactFields(p, c, r);
    r := CheckProofs(p, c, r);
    if p.current != c.current { r := r + [Issue(CurrentActionChanged, Whole, "")]; }
  }

  // -- what a clean check means --

  /** Every item is still there, unchanged. */
  predicate Survive<T(==)>(before: seq<T>, after: seq<T>) {
    forall x :: x in before ==> x in after
  }

  /** `a` says no less than `b`: same text, at least the same evidence, done stays done, newly done has new evidence. */
  predicate NoLess(b: Goal, a: Goal) {
    && a.id == b.id && a.text == b.text
    && Ids(b.evidence) <= Ids(a.evidence)
    && (b.done ==> a.done)
    && (a.done && !b.done ==> exists e :: e in a.evidence && e !in b.evidence)
  }

  predicate GoalsKept(before: seq<Goal>, after: seq<Goal>) {
    forall b :: b in before ==> exists a :: a in after && NoLess(b, a)
  }

  predicate Keeps(p: State, c: State) {
    && p.task == c.task && p.objective == c.objective && p.current == c.current
    && Survive(p.constraints, c.constraints) && Survive(p.decisions, c.decisions)
    && Survive(p.completed, c.completed) && Survive(p.next, c.next) && Survive(p.calls, c.calls)
    && Survive(p.artifacts, c.artifacts) && Survive(p.disputes, c.disputes)
    && GoalsKept(p.criteria, c.criteria) && GoalsKept(p.blockers, c.blockers)
  }

  ghost predicate ExactClean<T>(before: seq<T>, after: seq<T>, key: T -> string, field: Field) {
    forall x :: !ExactFault(before, after, key, field, x)
  }

  lemma ExactCleanIff<T>(before: seq<T>, after: seq<T>, key: T -> string, field: Field)
    requires Distinct(before, key) && Distinct(after, key)
    ensures ExactClean(before, after, key, field) <==> Survive(before, after)
  {
    if ExactClean(before, after, key, field) {
      forall b | b in before ensures b in after {
        assert !ExactFault(before, after, key, field, Issue(Omitted, field, key(b)));
        assert !ExactFault(before, after, key, field, Issue(Changed, field, key(b)));
      }
    }
    if Survive(before, after) {
      forall x ensures !ExactFault(before, after, key, field, x) {
        var b := Find(before, key, x.id);
      }
    }
  }

  lemma GoalsCleanIff(before: seq<Goal>, after: seq<Goal>, field: Field)
    requires Distinct(before, GoalKey) && Distinct(after, GoalKey)
    ensures (forall x :: !GoalFault(before, after, field, x)) <==> GoalsKept(before, after)
  {
    if forall x :: !GoalFault(before, after, field, x) {
      forall b | b in before ensures exists a :: a in after && NoLess(b, a) {
        assert !GoalFault(before, after, field, Issue(Omitted, field, b.id));
        assert !GoalFault(before, after, field, Issue(Changed, field, b.id));
        assert !GoalFault(before, after, field, Issue(EvidenceOmitted, field, b.id));
        assert !GoalFault(before, after, field, Issue(Reversed, field, b.id));
        assert !GoalFault(before, after, field, Issue(Unproven, field, b.id));
        var a := Find(after, GoalKey, b.id).value;
        ProvenIff(b, a);
        assert NoLess(b, a);
      }
    }
    if GoalsKept(before, after) {
      forall x ensures !GoalFault(before, after, field, x) {
        var b := Find(before, GoalKey, x.id);
        if b.Some? {
          var a :| a in after && NoLess(b.value, a);
          ProvenIff(b.value, a);
        }
      }
    }
  }

  lemma ProvenIff(b: Goal, a: Goal)
    ensures Ids(a.evidence) - Ids(b.evidence) == {} <==> !(exists e :: e in a.evidence && e !in b.evidence)
  {
    if e :| e in a.evidence && e !in b.evidence {
      assert e in Ids(a.evidence) - Ids(b.evidence);
    }
  }

  ghost predicate ExactFieldsClean(p: State, c: State) {
    && ExactClean(p.constraints, c.constraints, ConstraintKey, Constraints)
    && ExactClean(p.decisions, c.decisions, ChoiceKey, Decisions)
    && ExactClean(p.completed, c.completed, WorkKey, Completed)
    && ExactClean(p.next, c.next, ActionKey, Next)
    && ExactClean(p.calls, c.calls, CallKey, Calls)
    && ExactClean(p.artifacts, c.artifacts, ArtifactKey, Artifacts)
    && ExactClean(p.disputes, c.disputes, DisputeKey, Disputes)
  }

  lemma ExactFieldsCleanIff(p: State, c: State)
    requires Valid(p) && Valid(c)
    ensures ExactFieldsClean(p, c) <==>
            && Survive(p.constraints, c.constraints) && Survive(p.decisions, c.decisions)
            && Survive(p.completed, c.completed) && Survive(p.next, c.next) && Survive(p.calls, c.calls)
            && Survive(p.artifacts, c.artifacts) && Survive(p.disputes, c.disputes)
  {
    ExactCleanIff(p.constraints, c.constraints, ConstraintKey, Constraints);
    ExactCleanIff(p.decisions, c.decisions, ChoiceKey, Decisions);
    ExactCleanIff(p.completed, c.completed, WorkKey, Completed);
    ExactCleanIff(p.next, c.next, ActionKey, Next);
    ExactCleanIff(p.calls, c.calls, CallKey, Calls);
    ExactCleanIff(p.artifacts, c.artifacts, ArtifactKey, Artifacts);
    ExactCleanIff(p.disputes, c.disputes, DisputeKey, Disputes);
  }

  lemma ExactFaultsSplit(p: State, c: State)
    ensures (forall x :: !ExactFaults(p, c, x)) <==> ExactFieldsClean(p, c)
  {
    if forall x :: !ExactFaults(p, c, x) {
      forall x ensures !ExactFault(p.constraints, c.constraints, ConstraintKey, Constraints, x)
                    && !ExactFault(p.decisions, c.decisions, ChoiceKey, Decisions, x)
                    && !ExactFault(p.completed, c.completed, WorkKey, Completed, x)
                    && !ExactFault(p.next, c.next, ActionKey, Next, x)
                    && !ExactFault(p.calls, c.calls, CallKey, Calls, x)
                    && !ExactFault(p.artifacts, c.artifacts, ArtifactKey, Artifacts, x)
                    && !ExactFault(p.disputes, c.disputes, DisputeKey, Disputes, x)
      {
        assert !ExactFaults(p, c, x);
      }
    }
  }

  lemma FaultsSplit(p: State, c: State)
    requires Valid(c)
    ensures (forall x :: !InvariantFault(p, c, x)) <==>
            && (forall x :: !HeadFault(p, c, x)) && (forall x :: !ExactFaults(p, c, x))
            && (forall x :: !GoalFault(p.criteria, c.criteria, Criteria, x))
            && (forall x :: !GoalFault(p.blockers, c.blockers, Blockers, x))
  {
    if forall x :: !InvariantFault(p, c, x) {
      forall x ensures !HeadFault(p, c, x) && !ExactFaults(p, c, x)
                    && !GoalFault(p.criteria, c.criteria, Criteria, x) && !GoalFault(p.blockers, c.blockers, Blockers, x)
      {
        assert !InvariantFault(p, c, x);
      }
    }
  }

  /** Between valid states the check is clean exactly when nothing is lost. */
  lemma CleanIffKeeps(p: State, c: State)
    requires Valid(p) && Valid(c)
    ensures (forall x :: !InvariantFault(p, c, x)) <==> Keeps(p, c)
  {
    FaultsSplit(p, c);
    ExactFaultsSplit(p, c);
    ExactFieldsCleanIff(p, c);
    GoalsCleanIff(p.criteria, c.criteria, Criteria);
    GoalsCleanIff(p.blockers, c.blockers, Blockers);
    HeadCleanIff(p, c);
  }

  lemma HeadCleanIff(p: State, c: State)
    ensures (forall x :: !HeadFault(p, c, x)) <==> p.task == c.task && p.objective == c.objective && p.current == c.current
  {
    if forall x :: !HeadFault(p, c, x) {
      assert !HeadFault(p, c, Issue(Code.TaskChanged, Whole, ""));
      assert !HeadFault(p, c, Issue(ObjectiveChanged, Whole, ""));
      assert !HeadFault(p, c, Issue(CurrentActionChanged, Whole, ""));
    }
  }

  // -- a preorder --

  lemma KeepsIsReflexive(s: State)
    ensures Keeps(s, s)
  {
    forall g | g in s.criteria || g in s.blockers ensures NoLess(g, g) { }
  }

  lemma {:induction false} NoLessTrans(a: Goal, b: Goal, c: Goal)
    requires NoLess(a, b) && NoLess(b, c)
    ensures NoLess(a, c)
  {
    if c.done && !a.done {
      var e :| if b.done then e in b.evidence && e !in a.evidence else e in c.evidence && e !in b.evidence;
      assert e in Ids(b.evidence) ==> e in Ids(c.evidence);
      assert e in Ids(a.evidence) ==> e in Ids(b.evidence);
      assert e in c.evidence && e !in a.evidence;
    }
  }

  lemma GoalsKeptTrans(a: seq<Goal>, b: seq<Goal>, c: seq<Goal>)
    requires GoalsKept(a, b) && GoalsKept(b, c)
    ensures GoalsKept(a, c)
  {
    forall x | x in a ensures exists z :: z in c && NoLess(x, z) {
      var y :| y in b && NoLess(x, y);
      var z :| z in c && NoLess(y, z);
      NoLessTrans(x, y, z);
    }
  }

  lemma KeepsIsTransitive(a: State, b: State, c: State)
    requires Keeps(a, b) && Keeps(b, c)
    ensures Keeps(a, c)
  {
    GoalsKeptTrans(a.criteria, b.criteria, c.criteria);
    GoalsKeptTrans(a.blockers, b.blockers, c.blockers);
  }

  // -- citations and the frozen source range --

  datatype Answer<T> = Known(value: T) | Unknown | Broke

  /** The read-only authority behind the check; any lookup may fail. */
  datatype Resolver = Resolver(
    event: string -> Answer<Digest>, evidence: string -> Answer<()>, artifact: string -> Answer<Digest>)

  datatype SourceRange = SourceRange(first: string, firstHash: Digest, last: string, lastHash: Digest, tail: string)

  function Flat<T>(items: seq<T>, part: T -> seq<string>): (r: seq<string>)
    ensures forall e :: e in r <==> exists x :: x in items && e in part(x)
  {
    if items == [] then [] else part(items[0]) + Flat(items[1..], part)
  }

  function EventsCited(s: State): seq<string> {
    [s.objective.source, s.through] + Flat(s.constraints, (x: Constraint) => [x.source]) + Flat(s.decisions, (x: Choice) => x.sources)
  }

  function EvidenceCited(s: State): seq<string> {
    Flat(s.criteria, (x: Goal) => x.evidence) + Flat(s.completed, (x: Work) => x.evidence)
    + Flat(s.blockers, (x: Goal) => x.evidence) + Flat(s.disputes, (x: Dispute) => x.evidence)
    + Flat(s.artifacts, (x: Artifact) => [x.evidence])
  }

  predicate AllKnown(evidence: seq<string>, resolver: Resolver) {
    forall e :: e in evidence ==> resolver.evidence(e).Known?
  }

  /** Everything the state cites can be observed, field by field, and its artifacts are what it says. */
  predicate CitationsHold(s: State, resolver: Resolver) {
    && resolver.event(s.objective.source).Known? && resolver.event(s.through).Known?
    && (forall x :: x in s.constraints ==> resolver.event(x.source).Known?)
    && (forall x, e :: x in s.decisions && e in x.sources ==> resolver.event(e).Known?)
    && (forall x :: x in s.criteria ==> AllKnown(x.evidence, resolver))
    && (forall x :: x in s.completed ==> AllKnown(x.evidence, resolver))
    && (forall x :: x in s.blockers ==> AllKnown(x.evidence, resolver))
    && (forall x :: x in s.disputes ==> AllKnown(x.evidence, resolver))
    && (forall x :: x in s.artifacts ==> resolver.evidence(x.evidence).Known? && resolver.artifact(x.path) == Known(x.sha))
  }

  lemma EventsListed(s: State, resolver: Resolver)
    ensures (forall e :: e in EventsCited(s) ==> resolver.event(e).Known?) <==>
              && resolver.event(s.objective.source).Known? && resolver.event(s.through).Known?
              && (forall x :: x in s.constraints ==> resolver.event(x.source).Known?)
              && (forall x, e :: x in s.decisions && e in x.sources ==> resolver.event(e).Known?)
  {
    var constraints, decisions := Flat(s.constraints, (x: Constraint) => [x.source]), Flat(s.decisions, (x: Choice) => x.sources);
    assert forall e :: e in EventsCited(s) <==> e == s.objective.source || e == s.through || e in constraints || e in decisions;
    forall x | x in s.constraints ensures x.source in constraints { assert x.source in [x.source]; }
  }

  lemma EvidenceListed(s: State, resolver: Resolver)
    ensures (forall e :: e in EvidenceCited(s) ==> resolver.evidence(e).Known?) <==>
              && (forall x :: x in s.criteria ==> AllKnown(x.evidence, resolver))
              && (forall x :: x in s.completed ==> AllKnown(x.evidence, resolver))
              && (forall x :: x in s.blockers ==> AllKnown(x.evidence, resolver))
              && (forall x :: x in s.disputes ==> AllKnown(x.evidence, resolver))
              && (forall x :: x in s.artifacts ==> resolver.evidence(x.evidence).Known?)
  {
    var a, b := Flat(s.criteria, (x: Goal) => x.evidence), Flat(s.completed, (x: Work) => x.evidence);
    var c, d := Flat(s.blockers, (x: Goal) => x.evidence), Flat(s.disputes, (x: Dispute) => x.evidence);
    var f := Flat(s.artifacts, (x: Artifact) => [x.evidence]);
    assert forall e :: e in EvidenceCited(s) <==> e in a || e in b || e in c || e in d || e in f;
    forall x | x in s.artifacts ensures x.evidence in f { assert x.evidence in [x.evidence]; }
  }

  predicate RangeHolds(s: State, range: SourceRange, resolver: Resolver) {
    && resolver.event(range.first) == Known(range.firstHash)
    && resolver.event(range.last) == Known(range.lastHash)
    && resolver.event(range.tail).Known?
    && s.through == range.last
  }

  method CheckKnown<T>(cited: seq<string>, lookup: string -> Answer<T>, missing: Code, issues: seq<Issue>)
    returns (r: seq<Issue>)
    ensures issues <= r
    ensures r == issues <==> forall e :: e in cited ==> lookup(e).Known?
  {
    r := issues;
    var i := 0;
    while i < |cited|
      invariant i <= |cited| && issues <= r
      invariant r == issues <==> forall k :: 0 <= k < i ==> lookup(cited[k]).Known?
    {
      match lookup(cited[i]) {
        case Known(_) =>
        case Unknown => r := r + [Issue(missing, Whole, cited[i])];
        case Broke => r := r + [Issue(ResolverError, Whole, cited[i])];
      }
      i := i + 1;
    }
  }

  method CheckArtifacts(artifacts: seq<Artifact>, resolver: Resolver, issues: seq<Issue>) returns (r: seq<Issue>)
    ensures issues <= r
    ensures r == issues <==> forall x :: x in artifacts ==> resolver.artifact(x.path) == Known(x.sha)
  {
    r := issues;
    var i := 0;
    while i < |artifacts|
      invariant i <= |artifacts| && issues <= r
      invariant r == issues <==> forall k :: 0 <= k < i ==> resolver.artifact(artifacts[k].path) == Known(artifacts[k].sha)
    {
      var x := artifacts[i];
      match resolver.artifact(x.path) {
        case Known(sha) => if sha != x.sha { r := r + [Issue(StaleArtifact, Artifacts, x.path)]; }
        case Unknown => r := r + [Issue(MissingArtifact, Artifacts, x.path)];
        case Broke => r := r + [Issue(ResolverError, Artifacts, x.path)];
      }
      i := i + 1;
    }
  }

  method CheckReferences(s: State, resolver: Resolver, issues: seq<Issue>) returns (r: seq<Issue>)
    ensures issues <= r
    ensures r == issues <==> CitationsHold(s, resolver)
  {
    EventsListed(s, resolver);
    EvidenceListed(s, resolver);
    r := CheckKnown(EventsCited(s), resolver.event, MissingEvent, issues);
    r := CheckKnown(EvidenceCited(s), resolver.evidence, MissingEvidence, r);
    r := CheckArtifacts(s.artifacts, resolver, r);
  }

  method CheckPinned(id: string, hash: Digest, resolver: Resolver, issues: seq<Issue>) returns (r: seq<Issue>)
    ensures issues <= r
    ensures r == issues <==> resolver.event(id) == Known(hash)
  {
    match resolver.event(id) {
      case Known(observed) => r := if observed == hash then issues else issues + [Issue(SourceHashMismatch, Range, id)];
      case Unknown => r := issues + [Issue(MissingEvent, Range, id)];
      case Broke => r := issues + [Issue(ResolverError, Range, id)];
    }
  }

  method CheckSourceRange(s: State, range: SourceRange, resolver: Resolver, issues: seq<Issue>) returns (r: seq<Issue>)
    ensures issues <= r
    ensures r == issues <==> RangeHolds(s, range, resolver)
  {
    r := CheckPinned(range.first, range.firstHash, resolver, issues);
    r := CheckPinned(range.last, range.lastHash, resolver, r);
    r := CheckKnown([range.tail], resolver.event, MissingEvent, r);
    assert range.tail in [range.tail];
    if s.through != range.last { r := r + [Issue(StaleThroughEvent, Whole, s.through)]; }
  }

  /** What a proposal must satisfy, without reference to how it is checked. */
  predicate Admissible(digest: State -> Digest, p: State, c: State, range: SourceRange, resolver: Resolver) {
    && Valid(p) && Valid(c)
    && RangeHolds(c, range, resolver) && CitationsHold(c, resolver)
    && c.previous == Some(digest(p)) && c.through != p.through
    && Keeps(p, c)
  }

  method ValidateProposal(digest: State -> Digest, p: State, c: State, range: SourceRange, resolver: Resolver)
    returns (issues: seq<Issue>)
    ensures issues == [] <==> Admissible(digest, p, c, range, resolver)
  {
    issues := [];
    if !Valid(p) { issues := [Issue(InvalidPrevious, Whole, "")]; }
    if !Valid(c) {
      issues := issues + [Issue(InvalidCandidate, Whole, "")];
    } else {
      issues := CheckSourceRange(c, range, resolver, issues);
      issues := CheckReferences(c, resolver, issues);
    }
    if Valid(p) && Valid(c) {
      if c.previous != Some(digest(p)) { issues := issues + [Issue(PreviousHashMismatch, Whole, "")]; }
      if c.through == p.through { issues := issues + [Issue(StaleThroughEvent, Whole, c.through)]; }
      ghost var before := issues;
      issues := CheckInvariants(p, c, issues);
      CleanIffKeeps(p, c);
      assert before == [] ==> (issues == [] <==> forall x :: !InvariantFault(p, c, x)) by {
        if before == [] && !(forall x :: !InvariantFault(p, c, x)) {
          var x :| InvariantFault(p, c, x);
          assert x in issues;
        }
        assert issues != [] ==> issues[0] in issues;
      }
      assert before != [] ==> before[0] in issues;
    }
  }

  // -- chains of accepted compactions --

  ghost predicate AcceptedStep(digest: State -> Digest, p: State, c: State) {
    exists range, resolver :: Admissible(digest, p, c, range, resolver)
  }

  ghost predicate AcceptedChain(digest: State -> Digest, states: seq<State>) {
    forall i :: 0 < i < |states| ==> AcceptedAt(digest, states, i)
  }

  ghost predicate AcceptedAt(digest: State -> Digest, states: seq<State>, i: nat) {
    0 < i < |states| && AcceptedStep(digest, states[i - 1], states[i])
  }

  /** However many compactions were accepted in between, the later state keeps everything of the earlier one. */
  lemma {:induction false} NothingLost(digest: State -> Digest, states: seq<State>, i: nat, j: nat)
    requires AcceptedChain(digest, states) && i <= j < |states|
    ensures Keeps(states[i], states[j])
    decreases j - i
  {
    if i == j {
      KeepsIsReflexive(states[i]);
    } else {
      NothingLost(digest, states, i, j - 1);
      assert AcceptedAt(digest, states, j);
      KeepsIsTransitive(states[i], states[j - 1], states[j]);
    }
  }

  /** What that means item by item. */
  lemma ItemsNeverLost(digest: State -> Digest, states: seq<State>, i: nat, j: nat)
    requires AcceptedChain(digest, states) && i <= j < |states|
    ensures states[j].task == states[i].task && states[j].objective == states[i].objective
    ensures forall x :: x in states[i].constraints ==> x in states[j].constraints
    ensures forall x :: x in states[i].decisions ==> x in states[j].decisions
    ensures forall x :: x in states[i].completed ==> x in states[j].completed
    ensures forall x :: x in states[i].next ==> x in states[j].next
    ensures forall x :: x in states[i].calls ==> x in states[j].calls
    ensures forall x :: x in states[i].artifacts ==> x in states[j].artifacts
    ensures forall x :: x in states[i].disputes ==> x in states[j].disputes
    ensures forall g :: g in states[i].criteria ==> exists h :: h in states[j].criteria && StillSays(g, h)
    ensures forall g :: g in states[i].blockers ==> exists h :: h in states[j].blockers && StillSays(g, h)
  {
    NothingLost(digest, states, i, j);
    forall g | g in states[i].criteria ensures exists h :: h in states[j].criteria && StillSays(g, h) {
      var h :| h in states[j].criteria && NoLess(g, h);
      assert StillSays(g, h);
    }
    forall g | g in states[i].blockers ensures exists h :: h in states[j].blockers && StillSays(g, h) {
      var h :| h in states[j].blockers && NoLess(g, h);
      assert StillSays(g, h);
    }
  }

  /** The same text under the same id, all the evidence, and not reversed. */
  predicate StillSays(g: Goal, h: Goal) {
    h.id == g.id && h.text == g.text && Ids(g.evidence) <= Ids(h.evidence) && (g.done ==> h.done)
  }

  /** Accepted compactions from a first state form a state chain that the chain check accepts. */
  lemma AcceptedIsLinked(digest: State -> Digest, states: seq<State>)
    requires AcceptedChain(digest, states) && states != [] && Valid(states[0]) && states[0].previous == None
    ensures Linked(digest, states)
  {
    forall i | 0 <= i < |states|
      ensures Valid(states[i]) && states[i].task == states[0].task
      ensures i > 0 ==> NamesPrevious(digest, states, i)
    {
      SameTask(digest, states, i);
      if i > 0 {
        assert AcceptedAt(digest, states, i);
      }
    }
  }

  lemma {:induction false} SameTask(digest: State -> Digest, states: seq<State>, i: nat)
    requires AcceptedChain(digest, states) && i < |states|
    ensures states[i].task == states[0].task
  {
    if i > 0 {
      SameTask(digest, states, i - 1);
      assert AcceptedAt(digest, states, i);
    }
  }
}
