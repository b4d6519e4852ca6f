// The bridge's audit and the runner, written separately, agree: a stream the audit accepts stops
// the runner only for leaving the allowed paths or for too many edits or tests.

module AuditSimulation {
  import opened Basics
  import opened EventStream
  import EventAudit
  import Runner
  import opened AuditTraces

  /** The runner's book holds what the audit knows. */
  ghost predicate Mirrors(a: EventAudit.Audit, b: Runner.Book) {
    && b.turns == |a.turns|
    && b.calls == |a.calls|
    && b.ended == a.ended
    && (forall id :: id in b.pending <==> id in a.calls && !a.calls[id].settled)
    && (forall id :: id in b.pending ==> b.pending[id] == a.calls[id].name)
    && (forall id :: id in b.completed <==> id in a.calls && a.calls[id].settled)
    && "" !in a.calls
  }

  /** Neither forbidden word occurs in a type without the letters y and p. */
  lemma PlainWord(name: string)
    requires forall i :: 0 <= i < |name| ==> name[i] !in {'y', 'Y', 'p', 'P'}
    ensures !Contains(Folded(name), "retry") && !Contains(Folded(name), "compaction")
  {
    var folded := Folded(name);
    forall i | 0 <= i <= |folded|
      ensures !OccursAt(folded, "retry", i) && !OccursAt(folded, "compaction", i)
    {
      if i + 5 <= |folded| { assert folded[i + 4] != 'y'; assert folded[i..i + 5][4] != "retry"[4]; }
      if i + 10 <= |folded| { assert folded[i + 3] != 'p'; assert folded[i..i + 10][3] != "compaction"[3]; }
    }
  }

  predicate Is(event: Json, kind: Kind) {
    ReadingOf(event).kind == kind
  }

  /** The types the audit lets through. */
  predicate Relayable(kind: Kind) {
    kind in {TurnStart, ToolStart, ToolEnd, ModelError, AgentEnd, AgentError}
  }

  lemma RelayableIsPlain(name: string)
    requires Relayable(KindOf(name))
    ensures !Contains(Folded(name), "retry") && !Contains(Folded(name), "compaction")
  {
    match KindOf(name)
    case TurnStart => PlainWord("turn_start");
    case ToolStart => PlainWord("tool_execution_start");
    case ToolEnd => PlainWord("tool_execution_end");
    case ModelError => PlainWord("model_request_error");
    case AgentEnd => PlainWord("agent_end");
    case AgentError => PlainWord("agent_error");
  }

  /** What the runner reads of an accepted event is what the audit read. */
  ghost predicate SameReading(event: Json) {
    && event.Object? && Relayable(TypeOf(event.fields))
    && (Is(event, ToolStart) || Is(event, ToolEnd) ==>
          && ReadingOf(event).id == Some(Runner.ToolCallId(event.fields)) && Runner.ToolCallId(event.fields) != ""
          && ReadingOf(event).tool == Some(Runner.ToolName(event.fields)))
  }

  lemma AcceptedReadsSame(budgets: EventAudit.Budgets, was: EventAudit.Audit, event: Json, a: EventAudit.Audit)
    requires EventAudit.Step(budgets, was, event) == Ok(a)
    ensures SameReading(event)
  {
  }

  /** One accepted event: the runner stops for scope or repetition, or its book still mirrors the audit. */
  lemma StepAgrees(budgets: EventAudit.Budgets, capsule: Runner.Capsule, limits: Runner.Limits,
                   was: EventAudit.Audit, event: Json, a: EventAudit.Audit, b: Runner.Book)
    requires limits.turns == budgets.turns && limits.calls == budgets.calls
    requires Moves(budgets, was, ReadingOf(event), a) && SameReading(event) && Mirrors(was, b)
    ensures var out := Runner.Step(capsule, limits, b, event);
            if Is(event, ToolStart) && Runner.OutOfScope(capsule, event.fields) then out == Err(Runner.ScopeViolation)
            else if Is(event, ToolStart)
                 && Runner.OverCallLimit(limits, Runner.Opened(b, event.fields).counts, Runner.ToolName(event.fields))
            then out == Err(Runner.RepeatedMutationOrTest)
            else out.Ok? && Mirrors(a, out.value)
  {
    RelayableIsPlain(TypeName(event.fields));
    match TypeOf(event.fields)
    case ToolStart => StartAgrees(was, event, a, b);
    case ToolEnd => EndAgrees(was, event, a, b);
    case _ =>
  }

  lemma StartAgrees(was: EventAudit.Audit, event: Json, a: EventAudit.Audit, b: Runner.Book)
    requires CallsMove(was, ReadingOf(event), a) && SameReading(event) && Mirrors(was, b) && Is(event, ToolStart)
    requires |a.turns| == |was.turns| && |a.calls| == |was.calls| + 1 && a.ended == was.ended
    ensures Mirrors(a, Runner.Opened(b, event.fields))
    ensures Runner.ToolCallId(event.fields) !in b.pending && Runner.ToolCallId(event.fields) !in b.completed
  {
  }

  lemma EndAgrees(was: EventAudit.Audit, event: Json, a: EventAudit.Audit, b: Runner.Book)
    requires CallsMove(was, ReadingOf(event), a) && SameReading(event) && Mirrors(was, b) && Is(event, ToolEnd)
    requires |a.turns| == |was.turns| && |a.calls| == |was.calls| && a.ended == was.ended
    ensures Runner.OnEnd(b, event.fields).Ok? && Mirrors(a, Runner.OnEnd(b, event.fields).value)
  {
  }

  function Starts(events: seq<Json>, tool: string): (n: nat) {
    if events == [] then 0
    else
      var last := events[|events| - 1];
      Starts(events[..|events| - 1], tool) + if Is(last, ToolStart) && Runner.ToolName(last.fields) == tool then 1 else 0
  }

  predicate InScopeAt(capsule: Runner.Capsule, event: Json) {
    Is(event, ToolStart) && event.Object? ==> !Runner.OutOfScope(capsule, event.fields)
  }

  predicate InScope(capsule: Runner.Capsule, events: seq<Json>) {
    forall i :: 0 <= i < |events| ==> InScopeAt(capsule, events[i])
  }

  /** All that the runner demands beyond the audit. */
  predicate Permitted(capsule: Runner.Capsule, limits: Runner.Limits, events: seq<Json>) {
    InScope(capsule, events) && Starts(events, "edit") <= limits.edits && Starts(events, "test") <= limits.tests
  }

  ghost predicate CountsKept(events: seq<Json>, b: Runner.Book) {
    && Runner.CountOf(b.counts, "edit") == Starts(events, "edit")
    && Runner.CountOf(b.counts, "test") == Starts(events, "test")
  }

  lemma BookCounts(capsule: Runner.Capsule, limits: Runner.Limits, b: Runner.Book, event: Json)
    requires event.Object? && Runner.Step(capsule, limits, b, event).Ok?
    ensures Runner.Step(capsule, limits, b, event).value.counts
         == if Is(event, ToolStart) then Runner.Opened(b, event.fields).counts else b.counts
  {
  }

  lemma CountsNext(events: seq<Json>, b: Runner.Book, tool: string)
    requires events != [] && events[|events| - 1].Object?
    requires Runner.CountOf(b.counts, tool) == Starts(events[..|events| - 1], tool)
    ensures var event := events[|events| - 1];
            Runner.CountOf(if Is(event, ToolStart) then Runner.Opened(b, event.fields).counts else b.counts, tool) == Starts(events, tool)
  {
  }

  lemma PermitsNext(capsule: Runner.Capsule, limits: Runner.Limits, events: seq<Json>, b: Runner.Book)
    requires events != [] && CountsKept(events[..|events| - 1], b) && events[|events| - 1].Object?
    requires Permitted(capsule, limits, events[..|events| - 1])
    ensures var event := events[|events| - 1];
            Permitted(capsule, limits, events) <==>
              !(Is(event, ToolStart)
                && (Runner.OutOfScope(capsule, event.fields)
                    || Runner.OverCallLimit(limits, Runner.Opened(b, event.fields).counts, Runner.ToolName(event.fields))))
  {
    CountsNext(events, b, "edit");
    CountsNext(events, b, "test");
    ScopeGrows(capsule, events);
  }

  lemma StepCounts(capsule: Runner.Capsule, limits: Runner.Limits, events: seq<Json>, b: Runner.Book)
    requires events != [] && CountsKept(events[..|events| - 1], b) && events[|events| - 1].Object?
    requires Runner.Step(capsule, limits, b, events[|events| - 1]).Ok?
    ensures CountsKept(events, Runner.Step(capsule, limits, b, events[|events| - 1]).value)
  {
    BookCounts(capsule, limits, b, events[|events| - 1]);
    CountsNext(events, b, "edit");
    CountsNext(events, b, "test");
  }

  lemma ScopeGrows(capsule: Runner.Capsule, events: seq<Json>)
    requires events != []
    ensures InScope(capsule, events) <==>
            InScope(capsule, events[..|events| - 1]) && InScopeAt(capsule, events[|events| - 1])
  {
    var front := events[..|events| - 1];
    assert forall i :: 0 <= i < |front| ==> front[i] == events[i];
  }

  /** The audit simulates the runner: over an accepted stream the runner goes on exactly as long as the
      stream is permitted, with the same calls pending and settled. */
  lemma {:induction false} AuditSimulatesRunner(
    budgets: EventAudit.Budgets, capsule: Runner.Capsule, limits: Runner.Limits, events: seq<Json>)
    requires limits.turns == budgets.turns && limits.calls == budgets.calls && Accepted(budgets, events)
    ensures var out := Runner.After(capsule, limits, events);
            if Permitted(capsule, limits, events)
            then out.Ok? && Mirrors(EventAudit.After(budgets, events).value, out.value) && CountsKept(events, out.value)
            else out == Err(Runner.ScopeViolation) || out == Err(Runner.RepeatedMutationOrTest)
  {
    if events != [] {
      var front, event := events[..|events| - 1], events[|events| - 1];
      AuditSimulatesRunner(budgets, capsule, limits, front);
      AcceptedReadsSame(budgets, EventAudit.After(budgets, front).value, event, EventAudit.After(budgets, events).value);
      if Permitted(capsule, limits, front) {
        var was, a := EventAudit.After(budgets, front).value, EventAudit.After(budgets, events).value;
        AcceptedFits(budgets, front);
        StepMoves(budgets, was, event, a);
        var b := Runner.After(capsule, limits, front).value;
        StepAgrees(budgets, capsule, limits, was, event, a, b);
        PermitsNext(capsule, limits, events, b);
        if Runner.Step(capsule, limits, b, event).Ok? { StepCounts(capsule, limits, events, b); }
      } else {
        ScopeGrows(capsule, events);
      }
    }
  }

  /** The verdict on a stream that the audit accepts to its end. */
  lemma AcceptedStreamVerdict(
    budgets: EventAudit.Budgets, capsule: Runner.Capsule, limits: Runner.Limits, events: seq<Json>, returnCode: int)
    requires limits.turns == budgets.turns && limits.calls == budgets.calls && Accepted(budgets, events)
    requires events != [] && Is(events[|events| - 1], AgentEnd)
    ensures var verdict := Runner.Judge(Runner.After(capsule, limits, events), returnCode);
            if !Permitted(capsule, limits, events)
            then verdict in {Runner.StoppedFor(Runner.ScopeViolation), Runner.StoppedFor(Runner.RepeatedMutationOrTest)}
            else verdict == if returnCode == 0 then Runner.StreamAccepted else Runner.ChildExitNonzero
  {
    AuditSimulatesRunner(budgets, capsule, limits, events);
    if Permitted(capsule, limits, events) {
      var front, event := events[..|events| - 1], events[|events| - 1];
      StepMovesCalls(budgets, EventAudit.After(budgets, front).value, event, EventAudit.After(budgets, events).value);
      var b := Runner.After(capsule, limits, events).value;
      assert forall id :: id !in b.pending;
      assert b.pending == map[];
    }
  }
}
