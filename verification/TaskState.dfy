// Task states as compaction sees them: valid v1 states and the digest that links them.

module TaskState {
  import opened Basics

  type Digest = nat

  datatype Objective = Objective(text: string, source: string)

  /** A success criterion, or a blocker: done means met, or cleared. */
  datatype Goal = Goal(id: string, text: string, done: bool, evidence: seq<string>)

  datatype Constraint = Constraint(id: string, text: string, active: bool, source: string)
  datatype Choice = Choice(id: string, text: string, rationale: string, sources: seq<string>)
  datatype Work = Work(id: string, text: string, evidence: seq<string>, at: nat)
  datatype Action = Action(id: string, order: int, text: string, dependsOn: seq<string>)
  datatype ToolCall = ToolCall(id: string, tool: string, unknown: bool)
  datatype Artifact = Artifact(path: string, sha: Digest, evidence: string)
  datatype Dispute = Dispute(id: string, text: string, resolved: bool, evidence: seq<string>)
  datatype Current = Current(text: string, owner: string, at: nat)

  datatype State = State(
    task: string, objective: Objective, criteria: seq<Goal>, constraints: seq<Constraint>, decisions: seq<Choice>,
    completed: seq<Work>, current: Current, next: seq<Action>, blockers: seq<Goal>, calls: seq<ToolCall>,
    artifacts: seq<Artifact>, disputes: seq<Dispute>, through: string, previous: Option<Digest>)

  predicate Unique<T(==)>(s: seq<T>) {
    forall i, j :: 0 <= i < j < |s| ==> s[i] != s[j]
  }

  /** No two items share an identity. */
  predicate Distinct<T>(items: seq<T>, key: T -> string) {
    forall i, j :: 0 <= i < j < |items| ==> key(items[i]) != key(items[j])
  }

  /** The item with this identity. */
  function Find<T>(items: seq<T>, key: T -> string, id: string): (r: Option<T>)
    ensures r.Some? ==> r.value in items && key(r.value) == id
    ensures r.None? ==> forall x :: x in items ==> key(x) != id
    decreases |items|
  {
    if items == [] then None
    else if key(items[0]) == id then Some(items[0])
    else Find(items[1..], key, id)
  }

  const GoalKey := (x: Goal) => x.id
  const ConstraintKey := (x: Constraint) => x.id
  const ChoiceKey := (x: Choice) => x.id
  const WorkKey := (x: Work) => x.id
  const ActionKey := (x: Action) => x.id
  const CallKey := (x: ToolCall) => x.id
  const ArtifactKey := (x: Artifact) => x.path
  const DisputeKey := (x: Dispute) => x.id

  predicate GoalsValid(goals: seq<Goal>) {
    && Distinct(goals, GoalKey)
    && forall x :: x in goals ==> Unique(x.evidence) && (x.done ==> x.evidence != [])
  }

  predicate ActionsValid(next: seq<Action>) {
    && Distinct(next, ActionKey)
    && (forall i, j :: 0 <= i < j < |next| ==> next[i].order != next[j].order)
    && forall x :: x in next ==>
         && x.order >= 1 && Unique(x.dependsOn) && x.id !in x.dependsOn
         && forall d :: d in x.dependsOn ==> exists y :: y in next && y.id == d
  }

  predicate Valid(s: State) {
    && GoalsValid(s.criteria) && GoalsValid(s.blockers) && ActionsValid(s.next)
    && Distinct(s.constraints, ConstraintKey)
    && Distinct(s.decisions, ChoiceKey)
    && (forall x :: x in s.decisions ==> Unique(x.sources) && x.sources != [])
    && Distinct(s.completed, WorkKey)
    && (forall x :: x in s.completed ==> Unique(x.evidence) && x.evidence != [])
    && Distinct(s.calls, CallKey)
    && Distinct(s.artifacts, ArtifactKey)
    && Distinct(s.disputes, DisputeKey)
    && (forall x :: x in s.disputes ==> Unique(x.evidence) && x.evidence != [])
  }

  /** Different states have different digests. */
  ghost predicate Injective(digest: State -> Digest) {
    forall a, b :: digest(a) == digest(b) ==> a == b
  }

  // -- chains of states --

  datatype ChainError = Empty | InvalidState(index: nat) | FirstHasPrevious | TaskChanged(index: nat) | Broken(index: nat)

  /** A later state names the digest of the one before. */
  predicate NamesPrevious(digest: State -> Digest, states: seq<State>, i: nat) {
    0 < i < |states| && states[i].previous == Some(digest(states[i - 1]))
  }

  predicate Linked(digest: State -> Digest, states: seq<State>) {
    && states != []
    && (forall i :: 0 <= i < |states| ==> Valid(states[i]) && states[i].task == states[0].task)
    && states[0].previous == None
    && (forall i :: 0 < i < |states| ==> NamesPrevious(digest, states, i))
  }

  method ValidateChain(digest: State -> Digest, states: seq<State>) returns (r: Result<seq<Digest>, ChainError>)
    ensures r.Ok? <==> Linked(digest, states)
    ensures r.Ok? ==> |r.value| == |states| && forall i :: 0 <= i < |states| ==> r.value[i] == digest(states[i])
  {
    if states == [] { return Err(Empty); }
    var k := 0;
    while k < |states|
      invariant k <= |states| && forall i :: 0 <= i < k ==> Valid(states[i])
    {
      if !Valid(states[k]) { return Err(InvalidState(k)); }
      k := k + 1;
    }
    if states[0].previous.Some? { return Err(FirstHasPrevious); }
    var digests := [digest(states[0])];
    var n := 1;
    while n < |states|
      invariant 1 <= n <= |states| && |digests| == n
      invariant forall i :: 0 <= i < n ==> digests[i] == digest(states[i]) && states[i].task == states[0].task
      invariant forall i :: 0 < i < n ==> NamesPrevious(digest, states, i)
    {
      if states[n].task != states[0].task { return Err(TaskChanged(n)); }
      assert NamesPrevious(digest, states, n) <==> states[n].previous == Some(digests[n - 1]);
      if states[n].previous != Some(digests[n - 1]) { return Err(Broken(n)); }
      digests := digests + [digest(states[n])];
      n := n + 1;
    }
    return Ok(digests);
  }

  lemma ShorterChain(digest: State -> Digest, states: seq<State>)
    requires Linked(digest, states) && |states| > 1
    ensures Linked(digest, states[..|states| - 1])
  {
    var shorter := states[..|states| - 1];
    forall i | 0 < i < |shorter| ensures NamesPrevious(digest, shorter, i) { assert NamesPrevious(digest, states, i); }
  }

  /** The last digest pins the whole history: two accepted chains that end in the same digest are the same. */
  lemma {:induction false} LastDigestPinsChain(digest: State -> Digest, a: seq<State>, b: seq<State>)
    requires Injective(digest) && Linked(digest, a) && Linked(digest, b)
    requires digest(a[|a| - 1]) == digest(b[|b| - 1])
    ensures a == b
    decreases |a|
  {
    assert a[|a| - 1] == b[|b| - 1];
    assert |a| > 1 ==> NamesPrevious(digest, a, |a| - 1);
    assert |b| > 1 ==> NamesPrevious(digest, b, |b| - 1);
    if |a| > 1 {
      ShorterChain(digest, a);
      ShorterChain(digest, b);
      LastDigestPinsChain(digest, a[..|a| - 1], b[..|b| - 1]);
      assert a == a[..|a| - 1] + [a[|a| - 1]];
      assert b == b[..|b| - 1] + [b[|b| - 1]];
    }
  }
}
