// What every accepted event stream looks like, said about the events alone.

module AuditTraces {
  import opened Basics
  import opened EventStream
  import opened EventAudit

  /** What an event says about turns, calls, effects and the end. */
  datatype Reading = Reading(
    kind: Kind, id: Option<string>, tool: Option<string>, effect: Option<string>, denied: Option<string>,
    clean: bool,        // the tool came back without an error
    completed: bool)    // the agent reports completion

  function ReadingOf(event: Json): (r: Reading) {
    if !event.Object? then Reading(OtherKind, None, None, None, None, false, false)
    else
      var e := event.fields;
      Reading(TypeOf(e), TextOf(Get(e, "toolCallId")), TextOf(Get(e, "toolName")), TextOf(Get(e, "effectId")),
              TextOf(Get(e, "denied")), Get(e, "isError") == Bool(false), Get(e, "status") == Text("completed"))
  }

  function Readings(events: seq<Json>): (r: seq<Reading>)
    ensures |r| == |events| && forall i :: 0 <= i < |events| ==> r[i] == ReadingOf(events[i])
  {
    seq(|events|, i requires 0 <= i < |events| => ReadingOf(events[i]))
  }

  function CallOf(r: Reading): Call {
    Call(if r.tool.Some? then r.tool.value else "", r.effect, r.denied, false)
  }

  function Count(said: seq<Reading>, kind: Kind): (n: nat) {
    if said == [] then 0
    else Count(said[..|said| - 1], kind) + if said[|said| - 1].kind == kind then 1 else 0
  }

  ghost predicate Accepted(budgets: Budgets, events: seq<Json>) {
    After(budgets, events).Ok?
  }

  // -- what one accepted event does --

  ghost predicate CallsMove(was: Audit, r: Reading, a: Audit) {
    if r.kind == ToolStart then
      && r.id.Some? && r.id.value !in was.calls
      && a.calls == was.calls[r.id.value := CallOf(r)]
      && r.tool == Some(CallOf(r).name)
    else if r.kind == ToolEnd then
      && r.id.Some? && r.id.value in was.calls && !was.calls[r.id.value].settled
      && r.tool == Some(was.calls[r.id.value].name)
      && a.calls == was.calls[r.id.value := was.calls[r.id.value].(settled := true)]
    else
      && a.calls == was.calls
      && (r.kind == AgentEnd ==> AllSettled(was.calls))
  }

  ghost predicate EffectsMove(was: Audit, r: Reading, a: Audit) {
    if r.kind == ToolStart && r.effect.Some? then
      && a.effects == was.effects + {r.effect.value}
      && (r.effect.value in was.effects ==> r.denied == Some(DUPLICATE_EFFECT))
    else
      a.effects == was.effects
  }

  ghost predicate BudgetsKept(budgets: Budgets, was: Audit, r: Reading, a: Audit) {
    && |a.turns| == |was.turns| + (if r.kind == TurnStart then 1 else 0)
    && |a.calls| == |was.calls| + (if r.kind == ToolStart then 1 else 0)
    && |a.turns| <= budgets.turns && |a.calls| <= budgets.calls
  }

  /** A success flag goes up only with a clean result of an undenied call. */
  ghost predicate FlagsMove(was: Audit, r: Reading, a: Audit) {
    && (a.editSucceeded && !was.editSucceeded ==> EarnedBy(was, r, "edit"))
    && (a.testSucceeded && !was.testSucceeded ==> EarnedBy(was, r, "test"))
    && (r.kind == AgentEnd && r.completed ==> was.editSucceeded && was.testSucceeded)
  }

  ghost predicate EarnedBy(was: Audit, r: Reading, tool: string) {
    && r.kind == ToolEnd && r.clean && r.tool == Some(tool)
    && r.id.Some? && r.id.value in was.calls && was.calls[r.id.value].denied.None?
  }

  lemma StartMovesCalls(budgets: Budgets, was: Audit, event: Json, a: Audit)
    requires event.Object? && TypeOf(event.fields) == ToolStart && StartStep(budgets, was, event.fields) == Ok(a)
    ensures CallsMove(was, ReadingOf(event), a) && a.ended == was.ended
  {
  }

  lemma StepMovesCalls(budgets: Budgets, was: Audit, event: Json, a: Audit)
    requires Step(budgets, was, event) == Ok(a)
    ensures CallsMove(was, ReadingOf(event), a)
    ensures !was.ended && (a.ended <==> ReadingOf(event).kind == AgentEnd)
  {
    match TypeOf(event.fields)
    case TurnStart => assert TurnStep(budgets, was, event.fields) == Ok(a);
    case ToolStart => StartMovesCalls(budgets, was, event, a);
    case ToolEnd => 
    case AgentEnd => assert AgentEndStep(was, event.fields) == Ok(a);
    case _ =>
  }

  lemma StartMovesEffects(budgets: Budgets, was: Audit, e: Fields, a: Audit)
    requires StartStep(budgets, was, e) == Ok(a)
    ensures var effect := TextOf(Get(e, "effectId"));
            && (effect.Some? <==> SideEffect(Started(e).name))
            && a.effects == was.effects + (if effect.Some? then {effect.value} else {})
            && (effect.Some? && effect.value in was.effects ==> TextOf(Get(e, "denied")) == Some(DUPLICATE_EFFECT))
  {
    assert EffectFault(was, e, Get(e, "toolName").text).None?;
  }

  lemma StepMovesEffects(budgets: Budgets, was: Audit, event: Json, a: Audit)
    requires Step(budgets, was, event) == Ok(a)
    ensures EffectsMove(was, ReadingOf(event), a)
  {
    match TypeOf(event.fields)
    case TurnStart => assert TurnStep(budgets, was, event.fields) == Ok(a);
    case ToolStart => StartMovesEffects(budgets, was, event.fields, a);
    case ToolEnd => assert EndStep(was, event.fields) == Ok(a);
    case AgentEnd => assert AgentEndStep(was, event.fields) == Ok(a);
    case _ =>
  }

  lemma StepMovesTurns(budgets: Budgets, was: Audit, event: Json, a: Audit)
    requires Step(budgets, was, event) == Ok(a) && |was.turns| <= budgets.turns
    ensures |a.turns| == |was.turns| + (if ReadingOf(event).kind == TurnStart then 1 else 0) <= budgets.turns
    ensures ReadingOf(event).kind == ToolStart ==> |was.calls| < budgets.calls
  {
    match TypeOf(event.fields)
    case TurnStart => assert TurnStep(budgets, was, event.fields) == Ok(a);
    case ToolStart => assert StartStep(budgets, was, event.fields) == Ok(a);
    case ToolEnd => assert EndStep(was, event.fields) == Ok(a);
    case AgentEnd => assert AgentEndStep(was, event.fields) == Ok(a);
    case _ =>
  }

  lemma StepKeepsBudgets(budgets: Budgets, was: Audit, event: Json, a: Audit)
    requires Step(budgets, was, event) == Ok(a)
    requires |was.turns| <= budgets.turns && |was.calls| <= budgets.calls
    ensures BudgetsKept(budgets, was, ReadingOf(event), a)
  {
    StepMovesCalls(budgets, was, event, a);
    StepMovesTurns(budgets, was, event, a);
  }

  ghost predicate Moves(budgets: Budgets, was: Audit, r: Reading, a: Audit) {
    && !was.ended && (a.ended <==> r.kind == AgentEnd)
    && CallsMove(was, r, a) && EffectsMove(was, r, a)
    && BudgetsKept(budgets, was, r, a) && FlagsMove(was, r, a)
  }

  ghost predicate MovesAt(budgets: Budgets, states: seq<Audit>, said: seq<Reading>, i: nat) {
    i < |said| && i + 1 < |states| && Moves(budgets, states[i], said[i], states[i + 1])
  }

  /** The audit's states along an accepted stream. */
  ghost predicate Trace(budgets: Budgets, states: seq<Audit>, said: seq<Reading>) {
    && |states| == |said| + 1
    && states[0] == Fresh
    && forall i :: 0 <= i < |said| ==> MovesAt(budgets, states, said, i)
  }

  lemma StepMoves(budgets: Budgets, was: Audit, event: Json, a: Audit)
    requires Step(budgets, was, event) == Ok(a)
    requires |was.turns| <= budgets.turns && |was.calls| <= budgets.calls
    ensures Moves(budgets, was, ReadingOf(event), a)
  {
    StepMovesCalls(budgets, was, event, a);
    StepMovesEffects(budgets, was, event, a);
    StepKeepsBudgets(budgets, was, event, a);
  }

  lemma {:induction false} AcceptedHasTrace(budgets: Budgets, events: seq<Json>)
    requires Accepted(budgets, events)
    ensures exists states :: Trace(budgets, states, Readings(events)) && states[|events|] == After(budgets, events).value
  {
    if events == [] {
      assert Trace(budgets, [Fresh], Readings(events));
    } else {
      var n := |events| - 1;
      AcceptedHasTrace(budgets, events[..n]);
      var states :| Trace(budgets, states, Readings(events[..n])) && states[n] == After(budgets, events[..n]).value;
      TraceLonger(budgets, states, events, n, After(budgets, events).value);
    }
  }

  lemma TraceLonger(budgets: Budgets, states: seq<Audit>, events: seq<Json>, n: nat, a: Audit)
    requires |events| == n + 1 && Trace(budgets, states, Readings(events[..n])) && Step(budgets, states[n], events[n]) == Ok(a)
    ensures Trace(budgets, states + [a], Readings(events)) && (states + [a])[n + 1] == a
  {
    TraceFits(budgets, states, Readings(events[..n]));
    StepMoves(budgets, states[n], events[n], a);
    TraceGrows(budgets, states, Readings(events[..n]), ReadingOf(events[n]), a);
    assert Readings(events[..n]) + [ReadingOf(events[n])] == Readings(events);
  }

  lemma TraceFits(budgets: Budgets, states: seq<Audit>, said: seq<Reading>)
    requires Trace(budgets, states, said)
    ensures |states[|said|].turns| <= budgets.turns && |states[|said|].calls| <= budgets.calls
  {
    var n := |said|;
    if n > 0 { assert MovesAt(budgets, states, said, n - 1); }
  }

  lemma TraceGrows(budgets: Budgets, states: seq<Audit>, said: seq<Reading>, r: Reading, a: Audit)
    requires Trace(budgets, states, said) && Moves(budgets, states[|said|], r, a)
    ensures Trace(budgets, states + [a], said + [r])
    ensures (states + [a])[|said + [r]|] == a
  {
    var longer, all := states + [a], said + [r];
    forall i | 0 <= i < |all| ensures MovesAt(budgets, longer, all, i) {
      if i < |said| { assert MovesAt(budgets, states, said, i); }
    }
  }

  lemma AcceptedFits(budgets: Budgets, events: seq<Json>)
    requires Accepted(budgets, events)
    ensures |After(budgets, events).value.turns| <= budgets.turns && |After(budgets, events).value.calls| <= budgets.calls
  {
    AcceptedHasTrace(budgets, events);
    var states :| Trace(budgets, states, Readings(events)) && states[|events|] == After(budgets, events).value;
    TraceFits(budgets, states, Readings(events));
  }

  /** Some run of the audit went through a stream that says this. */
  ghost predicate Heard(budgets: Budgets, said: seq<Reading>) {
    exists states :: Trace(budgets, states, said)
  }

  /** So everything below holds of every accepted stream. */
  lemma AcceptedIsHeard(budgets: Budgets, events: seq<Json>)
    requires Accepted(budgets, events)
    ensures Heard(budgets, Readings(events))
  {
    AcceptedHasTrace(budgets, events);
  }

  ghost function States(budgets: Budgets, said: seq<Reading>): (states: seq<Audit>)
    requires Heard(budgets, said)
    ensures Trace(budgets, states, said)
  {
    var states :| Trace(budgets, states, said);
    states
  }

  // -- the state mirrors the stream --

  ghost predicate StartedAt(said: seq<Reading>, n: nat, id: string, call: Call, i: nat) {
    && i < n <= |said| && said[i].kind == ToolStart && said[i].id == Some(id)
    && CallOf(said[i]) == call.(settled := false)
    && said[i].tool == Some(call.name)
  }

  ghost predicate EndedAt(said: seq<Reading>, n: nat, id: string, j: nat) {
    j < n <= |said| && said[j].kind == ToolEnd && said[j].id == Some(id)
  }

  /** The calls on record are those of the starts, each with its tool and denial. */
  ghost predicate StartsRecorded(said: seq<Reading>, n: nat, a: Audit) {
    && (forall i :: 0 <= i < n <= |said| && said[i].kind == ToolStart ==>
          said[i].id.Some? && said[i].id.value in a.calls)
    && (forall id :: id in a.calls ==> exists i :: StartedAt(said, n, id, a.calls[id], i))
  }

  /** A call is settled exactly when the stream holds its end. */
  ghost predicate EndsRecorded(said: seq<Reading>, n: nat, a: Audit) {
    && (forall j :: 0 <= j < n <= |said| && said[j].kind == ToolEnd ==>
          said[j].id.Some? && said[j].id.value in a.calls && a.calls[said[j].id.value].settled)
    && (forall id :: id in a.calls && a.calls[id].settled ==> exists j :: EndedAt(said, n, id, j))
  }

  lemma CallsMoveAt(budgets: Budgets, states: seq<Audit>, said: seq<Reading>, i: nat)
    requires Trace(budgets, states, said) && i < |said|
    ensures CallsMove(states[i], said[i], states[i + 1])
  {
    assert MovesAt(budgets, states, said, i);
  }

  lemma StartsStep(said: seq<Reading>, n: nat, m: nat, was: Audit, a: Audit)
    requires m == n + 1 <= |said| && StartsRecorded(said, n, was) && CallsMove(was, said[n], a)
    ensures StartsRecorded(said, m, a)
  {
    forall id | id in a.calls ensures exists i :: StartedAt(said, m, id, a.calls[id], i) {
      if id in was.calls {
        var i :| StartedAt(said, n, id, was.calls[id], i);
        assert StartedAt(said, m, id, a.calls[id], i);
      } else {
        assert StartedAt(said, m, id, a.calls[id], n);
      }
    }
  }

  lemma EndsStep(said: seq<Reading>, n: nat, m: nat, was: Audit, a: Audit)
    requires m == n + 1 <= |said| && EndsRecorded(said, n, was) && CallsMove(was, said[n], a)
    ensures EndsRecorded(said, m, a)
  {
    forall id | id in a.calls && a.calls[id].settled ensures exists j :: EndedAt(said, m, id, j) {
      if id in was.calls && was.calls[id].settled {
        var j :| EndedAt(said, n, id, j);
        assert EndedAt(said, m, id, j);
      } else {
        assert EndedAt(said, m, id, n);
      }
    }
  }

  lemma {:induction false} StartsAreRecorded(budgets: Budgets, states: seq<Audit>, said: seq<Reading>, n: nat)
    requires Trace(budgets, states, said) && n <= |said|
    ensures StartsRecorded(said, n, states[n])
  {
    if n > 0 {
      StartsAreRecorded(budgets, states, said, n - 1);
      CallsMoveAt(budgets, states, said, n - 1);
      StartsStep(said, n - 1, n, states[n - 1], states[n]);
    }
  }

  lemma {:induction false} EndsAreRecorded(budgets: Budgets, states: seq<Audit>, said: seq<Reading>, n: nat)
    requires Trace(budgets, states, said) && n <= |said|
    ensures EndsRecorded(said, n, states[n])
  {
    if n > 0 {
      EndsAreRecorded(budgets, states, said, n - 1);
      CallsMoveAt(budgets, states, said, n - 1);
      EndsStep(said, n - 1, n, states[n - 1], states[n]);
    }
  }

  lemma {:induction false} EffectsAreRecorded(budgets: Budgets, states: seq<Audit>, said: seq<Reading>, n: nat, i: nat)
    requires Trace(budgets, states, said) && i < n <= |said|
    requires said[i].kind == ToolStart && said[i].effect.Some?
    ensures said[i].effect.value in states[n].effects
  {
    assert MovesAt(budgets, states, said, n - 1);
    if i < n - 1 { EffectsAreRecorded(budgets, states, said, n - 1, i); }
  }

  // -- what that means for the stream --

  /** Two starts never share a call id. */
  lemma StartsDiffer(budgets: Budgets, said: seq<Reading>, i: nat, j: nat)
    requires Heard(budgets, said) && i < j < |said|
    requires said[i].kind == ToolStart && said[j].kind == ToolStart
    ensures said[i].id != said[j].id
  {
    var states := States(budgets, said);
    StartsAreRecorded(budgets, states, said, j);
    assert MovesAt(budgets, states, said, j);
  }

  /** A call is settled once. */
  lemma EndsDiffer(budgets: Budgets, said: seq<Reading>, i: nat, j: nat)
    requires Heard(budgets, said) && i < j < |said|
    requires said[i].kind == ToolEnd && said[j].kind == ToolEnd
    ensures said[i].id != said[j].id
  {
    var states := States(budgets, said);
    EndsAreRecorded(budgets, states, said, j);
    assert MovesAt(budgets, states, said, j);
  }

  /** `said[j]` is the result of the call that `said[i]` started. */
  ghost predicate Settles(said: seq<Reading>, i: nat, j: nat) {
    && i < j < |said| && said[i].kind == ToolStart && said[j].kind == ToolEnd
    && said[i].id == said[j].id && said[i].tool == said[j].tool
  }

  /** No result without an earlier start of the same call and tool. */
  lemma EndFollowsStart(budgets: Budgets, said: seq<Reading>, j: nat)
    requires Heard(budgets, said) && j < |said| && said[j].kind == ToolEnd
    ensures exists i :: Settles(said, i, j)
  {
    var states := States(budgets, said);
    StartsAreRecorded(budgets, states, said, j);
    assert MovesAt(budgets, states, said, j);
    var id := said[j].id.value;
    var i :| StartedAt(said, j, id, states[j].calls[id], i);
    assert Settles(said, i, j);
  }

  /** Of the calls that name one effect, all but the first are denied as duplicates. */
  lemma EffectsHappenOnce(budgets: Budgets, said: seq<Reading>, i: nat, j: nat)
    requires Heard(budgets, said) && i < j < |said|
    requires said[i].kind == ToolStart && said[j].kind == ToolStart
    requires said[i].effect.Some? && said[i].effect == said[j].effect
    ensures said[j].denied == Some(DUPLICATE_EFFECT)
  {
    var states := States(budgets, said);
    EffectsAreRecorded(budgets, states, said, j, i);
    assert MovesAt(budgets, states, said, j);
  }

  /** Nothing follows the agent's end. */
  lemma EndIsLast(budgets: Budgets, said: seq<Reading>, i: nat)
    requires Heard(budgets, said) && i < |said|
    ensures said[i].kind == AgentEnd ==> i == |said| - 1
  {
    var states := States(budgets, said);
    assert MovesAt(budgets, states, said, i);
    if i < |said| - 1 { assert MovesAt(budgets, states, said, i + 1); }
  }

  lemma {:induction false} CountsMatch(budgets: Budgets, states: seq<Audit>, said: seq<Reading>, n: nat)
    requires Trace(budgets, states, said) && n <= |said|
    ensures Count(said[..n], TurnStart) == |states[n].turns| <= budgets.turns
    ensures Count(said[..n], ToolStart) == |states[n].calls| <= budgets.calls
  {
    if n > 0 {
      CountsMatch(budgets, states, said, n - 1);
      assert MovesAt(budgets, states, said, n - 1);
      assert said[..n][..n - 1] == said[..n - 1];
    }
  }

  /** Turns and tool calls stay within budget at every moment. */
  lemma WithinBudgets(budgets: Budgets, said: seq<Reading>, n: nat)
    requires Heard(budgets, said) && n <= |said|
    ensures Count(said[..n], TurnStart) <= budgets.turns && Count(said[..n], ToolStart) <= budgets.calls
  {
    CountsMatch(budgets, States(budgets, said), said, n);
  }

  lemma AllSettledAtEnd(budgets: Budgets, states: seq<Audit>, said: seq<Reading>, n: nat)
    requires Trace(budgets, states, said) && n < |said| && said[n].kind == AgentEnd
    ensures AllSettled(states[n].calls)
  {
    assert MovesAt(budgets, states, said, n);
  }

  lemma OnlyStart(budgets: Budgets, said: seq<Reading>, i: nat, s: nat, j: nat)
    requires Heard(budgets, said) && i < |said| && said[i].kind == ToolStart
    requires Settles(said, s, j) && said[i].id == said[j].id
    ensures s == i
  {
    if s < i { StartsDiffer(budgets, said, s, i); }
    if i < s { StartsDiffer(budgets, said, i, s); }
  }

  lemma HasEnd(budgets: Budgets, said: seq<Reading>, n: nat, i: nat)
    requires Heard(budgets, said) && i < n < |said| && said[i].kind == ToolStart && said[n].kind == AgentEnd
    ensures said[i].id.Some? && exists j :: EndedAt(said, n, said[i].id.value, j)
  {
    var states := States(budgets, said);
    StartsAreRecorded(budgets, states, said, n);
    EndsAreRecorded(budgets, states, said, n);
    AllSettledAtEnd(budgets, states, said, n);
  }

  /** When the agent ends, every call has its result, after its start and from the same tool. */
  lemma EveryCallSettled(budgets: Budgets, said: seq<Reading>, i: nat)
    requires Heard(budgets, said) && i < |said| && said[i].kind == ToolStart
    requires said[|said| - 1].kind == AgentEnd
    ensures exists j :: Settles(said, i, j)
  {
    HasEnd(budgets, said, |said| - 1, i);
    var j :| EndedAt(said, |said| - 1, said[i].id.value, j);
    EndFollowsStart(budgets, said, j);
    var s :| Settles(said, s, j);
    OnlyStart(budgets, said, i, s, j);
  }

  /** An undenied call of the tool that came back clean. */
  ghost predicate SucceededAt(said: seq<Reading>, tool: string, i: nat, j: nat) {
    Settles(said, i, j) && said[i].tool == Some(tool) && said[i].denied.None? && said[j].clean
  }

  lemma EarnedIsSucceeded(budgets: Budgets, states: seq<Audit>, said: seq<Reading>, j: nat, tool: string)
    requires Trace(budgets, states, said) && j < |said| && EarnedBy(states[j], said[j], tool)
    ensures exists i :: SucceededAt(said, tool, i, j)
  {
    StartsAreRecorded(budgets, states, said, j);
    CallsMoveAt(budgets, states, said, j);
    EarnedHere(said, j, states[j], states[j + 1], tool);
  }

  lemma EarnedHere(said: seq<Reading>, j: nat, was: Audit, a: Audit, tool: string)
    requires j < |said| && StartsRecorded(said, j, was) && CallsMove(was, said[j], a) && EarnedBy(was, said[j], tool)
    ensures exists i :: SucceededAt(said, tool, i, j)
  {
    var id := said[j].id.value;
    var i :| StartedAt(said, j, id, was.calls[id], i);
    assert SucceededAt(said, tool, i, j);
  }

  lemma {:induction false} EditFlagIsEarned(budgets: Budgets, states: seq<Audit>, said: seq<Reading>, n: nat)
    requires Trace(budgets, states, said) && n <= |said| && states[n].editSucceeded
    ensures exists i, j :: SucceededAt(said, "edit", i, j)
  {
    if n > 0 {
      assert MovesAt(budgets, states, said, n - 1);
      if states[n - 1].editSucceeded {
        EditFlagIsEarned(budgets, states, said, n - 1);
      } else {
        EarnedIsSucceeded(budgets, states, said, n - 1, "edit");
      }
    }
  }

  lemma {:induction false} TestFlagIsEarned(budgets: Budgets, states: seq<Audit>, said: seq<Reading>, n: nat)
    requires Trace(budgets, states, said) && n <= |said| && states[n].testSucceeded
    ensures exists i, j :: SucceededAt(said, "test", i, j)
  {
    if n > 0 {
      assert MovesAt(budgets, states, said, n - 1);
      if states[n - 1].testSucceeded {
        TestFlagIsEarned(budgets, states, said, n - 1);
      } else {
        EarnedIsSucceeded(budgets, states, said, n - 1, "test");
      }
    }
  }

  /** A completed agent has an edit and a test that were carried out and succeeded. */
  lemma CompletedHasEvidence(budgets: Budgets, said: seq<Reading>)
    requires Heard(budgets, said) && said != []
    requires said[|said| - 1].kind == AgentEnd && said[|said| - 1].completed
    ensures exists i, j :: SucceededAt(said, "edit", i, j)
    ensures exists i, j :: SucceededAt(said, "test", i, j)
  {
    var states, last := States(budgets, said), |said| - 1;
    assert MovesAt(budgets, states, said, last);
    EditFlagIsEarned(budgets, states, said, last);
    TestFlagIsEarned(budgets, states, said, last);
  }
}
