// The bridge's audit, read off the events alone: what it holds against an event, given those before it.

module AuditMeaning {
  import opened Basics
  import opened EventStream
  import opened EventAudit

  // -- fields and types, spelled out --

  /** A non-empty text without NUL. */
  predicate TextAt(e: Fields, key: string) {
    key in e && e[key].Text? && |e[key].text| > 0 && forall i :: 0 <= i < |e[key].text| ==> e[key].text[i] as int != 0
  }

  predicate NumberAt(e: Fields, key: string, least: int) {
    key in e && e[key].Int? && least <= e[key].number
  }

  predicate Says(e: Fields, key: string, text: string) {
    key in e && e[key] == Text(text)
  }

  predicate ObjectAt(e: Fields, key: string) {
    key in e && e[key].Object?
  }

  predicate NullAt(e: Fields, key: string) {
    key !in e || e[key].Null?
  }

  predicate Typed(event: Json, name: string) {
    event.Object? && Says(event.fields, "type", name)
  }

  /** Edits, commands and tests have an effect; listings, reads and searches have none. */
  predicate Effectful(tool: string) {
    tool == "edit" || tool == "pwsh" || tool == "test"
  }

  predicate KnownTool(tool: string) {
    Effectful(tool) || tool == "list" || tool == "read" || tool == "search"
  }

  // -- what came before --

  function HowMany(events: seq<Json>, name: string): (n: nat) {
    if events == [] then 0
    else HowMany(events[..|events| - 1], name) + if Typed(events[|events| - 1], name) then 1 else 0
  }

  predicate AsksFor(event: Json, turn: int, step: int) {
    && Typed(event, "turn_start")
    && "turn" in event.fields && event.fields["turn"] == Int(turn) && "step" in event.fields && event.fields["step"] == Int(step)
  }

  predicate Asked(events: seq<Json>, turn: int, step: int) {
    exists i :: 0 <= i < |events| && AsksFor(events[i], turn, step)
  }

  predicate Starts(event: Json, id: string) {
    Typed(event, "tool_execution_start") && Says(event.fields, "toolCallId", id)
  }

  predicate Answers(event: Json, id: string) {
    Typed(event, "tool_execution_end") && Says(event.fields, "toolCallId", id)
  }

  predicate Names(event: Json, effect: string) {
    Typed(event, "tool_execution_start") && Says(event.fields, "effectId", effect)
  }

  predicate EffectNamed(events: seq<Json>, effect: string) {
    exists i :: 0 <= i < |events| && Names(events[i], effect)
  }

  predicate Ended(events: seq<Json>) {
    exists i :: 0 <= i < |events| && Typed(events[i], "agent_end")
  }

  /** The start of the call with this id. */
  function StartFor(events: seq<Json>, id: string): Option<Fields> {
    if events == [] then None
    else
      var e := events[|events| - 1];
      if Starts(e, id) then Some(e.fields) else StartFor(events[..|events| - 1], id)
  }

  predicate Answered(events: seq<Json>, id: string) {
    exists i :: 0 <= i < |events| && Answers(events[i], id)
  }

  /** A result without error of a call that was not denied. */
  predicate Succeeds(before: seq<Json>, event: Json, tool: string) {
    && Typed(event, "tool_execution_end") && Says(event.fields, "toolName", tool)
    && "isError" in event.fields && event.fields["isError"] == Bool(false)
    && "toolCallId" in event.fields && event.fields["toolCallId"].Text?
    && StartFor(before, event.fields["toolCallId"].text).Some?
    && NullAt(StartFor(before, event.fields["toolCallId"].text).value, "denied")
  }

  predicate Succeeded(events: seq<Json>, tool: string) {
    exists i :: 0 <= i < |events| && Succeeds(events[..i], events[i], tool)
  }

  /** Every call that was started has a result. */
  ghost predicate AllAnswered(events: seq<Json>) {
    forall i, id :: 0 <= i < |events| && Starts(events[i], id) ==> Answered(events, id)
  }

  // -- what the audit holds against an event --

  function AgainstTurn(budgets: Budgets, before: seq<Json>, e: Fields): Option<AuditError> {
    if !NumberAt(e, "turn", 1) then Some(BadField("turn"))
    else if !NumberAt(e, "step", 1) then Some(BadField("step"))
    else if !NumberAt(e, "attempt", 1) then Some(BadField("attempt"))
    else if e["attempt"].number > 1 then Some(SecondAttempt)
    else if Asked(before, e["turn"].number, e["step"].number) then Some(DuplicateTurn)
    else if HowMany(before, "turn_start") >= budgets.turns then Some(TurnBudget)
    else None
  }

  predicate IntentRecorded(e: Fields) {
    ObjectAt(e, "intent") && "recorded" in e["intent"].fields && e["intent"].fields["recorded"] == Bool(true)
  }

  predicate ClassifiedAs(e: Fields, effectful: bool) {
    ObjectAt(e, "intent") && "side_effect" in e["intent"].fields && e["intent"].fields["side_effect"] == Bool(effectful)
  }

  function AgainstEffect(before: seq<Json>, e: Fields, tool: string): Option<AuditError> {
    if Effectful(tool) then
      if !TextAt(e, "effectId") then Some(BadField("effectId"))
      else if EffectNamed(before, e["effectId"].text) && !Says(e, "denied", "duplicate side-effect identity") then Some(EffectNotDenied)
      else None
    else if NullAt(e, "effectId") then None
    else Some(UnexpectedEffect)
  }

  ghost function AgainstStart(budgets: Budgets, before: seq<Json>, e: Fields): Option<AuditError> {
    if !TextAt(e, "toolCallId") then Some(BadField("toolCallId"))
    else if !TextAt(e, "toolName") then Some(BadField("toolName"))
    else if !KnownTool(e["toolName"].text) then Some(OutsideAllowlist)
    else if exists i :: 0 <= i < |before| && Starts(before[i], e["toolCallId"].text) then Some(DuplicateCall)
    else if HowMany(before, "tool_execution_start") >= budgets.calls then Some(ToolBudget)
    else if !ObjectAt(e, "args") then Some(BadField("args"))
    else if !IntentRecorded(e) then Some(NoIntent)
    else if !ClassifiedAs(e, Effectful(e["toolName"].text)) then Some(WrongSideEffect)
    else if AgainstEffect(before, e, e["toolName"].text).Some? then AgainstEffect(before, e, e["toolName"].text)
    else if !NullAt(e, "denied") && !e["denied"].Text? then Some(BadField("denied"))
    else None
  }

  function AgainstResult(before: seq<Json>, e: Fields): Option<AuditError> {
    if !TextAt(e, "toolCallId") then Some(BadField("toolCallId"))
    else if !TextAt(e, "toolName") then Some(BadField("toolName"))
    else if StartFor(before, e["toolCallId"].text).None? then Some(NoStart)
    else if Answered(before, e["toolCallId"].text) then Some(RepeatedResult)
    else if !Says(StartFor(before, e["toolCallId"].text).value, "toolName", e["toolName"].text) then Some(OtherName)
    else if !("isError" in e && e["isError"].Bool?) then Some(BadField("isError"))
    else if !ObjectAt(e, "result") then Some(BadField("result"))
    else None
  }

  predicate UsageGiven(e: Fields) {
    && ObjectAt(e, "usage")
    && NumberAt(e["usage"].fields, "input", 0) && NumberAt(e["usage"].fields, "output", 0) && NumberAt(e["usage"].fields, "total", 0)
  }

  predicate UsageAdds(e: Fields)
    requires UsageGiven(e)
  {
    var u := e["usage"].fields;
    u["input"].number + u["output"].number == u["total"].number
  }

  ghost function AgainstEnd(before: seq<Json>, e: Fields): Option<AuditError> {
    if !Says(e, "status", "completed") && !Says(e, "status", "failed") then Some(BadField("status"))
    else if !NumberAt(e, "modelCalls", 0) then Some(BadField("modelCalls"))
    else if !NumberAt(e, "toolCalls", 0) then Some(BadField("toolCalls"))
    else if e["modelCalls"].number != HowMany(before, "turn_start") || e["toolCalls"].number != HowMany(before, "tool_execution_start")
    then Some(CountMismatch)
    else if !AllAnswered(before) then Some(Unsettled)
    else if !UsageGiven(e) then Some(BadField("usage"))
    else if !UsageAdds(e) then Some(UsageMismatch)
    else if Says(e, "status", "completed") && !(Succeeded(before, "edit") && Succeeded(before, "test")) then Some(NoEvidence)
    else None
  }

  /** A failed model request names its turn, step, provider, and an error with code and message. */
  predicate ModelErrorGiven(e: Fields) {
    && NumberAt(e, "turn", 1) && NumberAt(e, "step", 1) && TextAt(e, "provider")
    && ObjectAt(e, "error") && TextAt(e["error"].fields, "code") && TextAt(e["error"].fields, "message")
  }

  predicate AgentErrorGiven(e: Fields) {
    ObjectAt(e, "error") && TextAt(e["error"].fields, "name") && TextAt(e["error"].fields, "message")
  }

  ghost function Against(budgets: Budgets, before: seq<Json>, event: Json): Option<AuditError> {
    if !event.Object? then Some(NotAnObject)
    else
      var e := event.fields;
      if !TextAt(e, "type") then Some(BadField("type"))
      else if Ended(before) then Some(FollowedEnd)
      else if Typed(event, "turn_start") then AgainstTurn(budgets, before, e)
      else if Typed(event, "tool_execution_start") then AgainstStart(budgets, before, e)
      else if Typed(event, "tool_execution_end") then AgainstResult(before, e)
      else if Typed(event, "model_request_error") then if ModelErrorGiven(e) then None else Some(BadField("error"))
      else if Typed(event, "agent_end") then AgainstEnd(before, e)
      else if Typed(event, "agent_error") then if AgentErrorGiven(e) then None else Some(BadField("error"))
      else if Typed(event, "automatic_retry_start") then Some(RetryForbidden)
      else if Typed(event, "model_budget_exceeded") then Some(BudgetExceededEvent)
      else Some(UnknownType)
  }

  /** The first objection to a stream. */
  ghost function FirstFault(budgets: Budgets, events: seq<Json>): Option<AuditError> {
    if events == [] then None
    else
      var n := |events| - 1;
      var earlier := FirstFault(budgets, events[..n]);
      if earlier.Some? then earlier else Against(budgets, events[..n], events[n])
  }

  // -- the audit's state says what the events say --

  ghost predicate CallSays(events: seq<Json>, calls: map<string, Call>, id: string) {
    && (id in calls <==> StartFor(events, id).Some?)
    && (Answered(events, id) ==> id in calls)
    && (id in calls ==>
          && Says(StartFor(events, id).value, "toolName", calls[id].name)
          && (calls[id].denied.None? <==> NullAt(StartFor(events, id).value, "denied"))
          && (calls[id].settled <==> Answered(events, id)))
  }

  /** The end of the agent with these numbers of tokens. */
  predicate GivesUsage(event: Json, usage: (int, int, int)) {
    && Typed(event, "agent_end") && UsageGiven(event.fields)
    && var u := event.fields["usage"].fields;
       u["input"] == Int(usage.0) && u["output"] == Int(usage.1) && u["total"] == Int(usage.2)
  }

  ghost predicate AuditSays(events: seq<Json>, a: Audit) {
    && (forall t, s :: (t, s) in a.turns <==> Asked(events, t, s))
    && |a.turns| == HowMany(events, "turn_start") && |a.calls| == HowMany(events, "tool_execution_start")
    && (forall id :: CallSays(events, a.calls, id))
    && (forall x :: x in a.effects <==> EffectNamed(events, x))
    && (a.editSucceeded <==> Succeeded(events, "edit")) && (a.testSucceeded <==> Succeeded(events, "test"))
    && (a.ended <==> Ended(events))
    && (a.ended ==> events != [] && GivesUsage(events[|events| - 1], a.usage))
  }

  lemma FieldsRead(e: Fields, key: string)
    ensures IsText(Get(e, key)) <==> TextAt(e, key)
    ensures forall least :: least >= 0 ==> (IsInteger(Get(e, key), least) <==> NumberAt(e, key, least))
    ensures Get(e, key).Object? <==> ObjectAt(e, key)
    ensures Get(e, key).Null? <==> NullAt(e, key)
    ensures forall text :: Get(e, key) == Text(text) <==> Says(e, key, text)
  {
  }

  lemma TypesRead(event: Json)
    requires event.Object?
    ensures TypeOf(event.fields) == TurnStart <==> Typed(event, "turn_start")
    ensures TypeOf(event.fields) == ToolStart <==> Typed(event, "tool_execution_start")
    ensures TypeOf(event.fields) == ToolEnd <==> Typed(event, "tool_execution_end")
    ensures TypeOf(event.fields) == ModelError <==> Typed(event, "model_request_error")
    ensures TypeOf(event.fields) == AgentEnd <==> Typed(event, "agent_end")
    ensures TypeOf(event.fields) == AgentError <==> Typed(event, "agent_error")
    ensures TypeOf(event.fields) == RetryStart <==> Typed(event, "automatic_retry_start")
    ensures TypeOf(event.fields) == BudgetExceeded <==> Typed(event, "model_budget_exceeded")
  {
  }

  lemma StartForIff(events: seq<Json>, id: string)
    ensures StartFor(events, id).Some? <==> exists i :: 0 <= i < |events| && Starts(events[i], id)
  {
    if events != [] {
      var n := |events| - 1;
      StartForIff(events[..n], id);
      assert forall i :: 0 <= i < n ==> events[..n][i] == events[i];
    }
  }

  lemma ToolsRead(name: string)
    ensures name in ALLOWED_TOOLS <==> KnownTool(name)
    ensures SideEffect(name) <==> Effectful(name)
  {
  }

  lemma TurnFaults(budgets: Budgets, before: seq<Json>, a: Audit, e: Fields)
    requires AuditSays(before, a)
    ensures match TurnStep(budgets, a, e)
            case Ok(_) => AgainstTurn(budgets, before, e).None?
            case Err(x) => AgainstTurn(budgets, before, e) == Some(x)
  {
    FieldsRead(e, "turn");
    FieldsRead(e, "step");
    FieldsRead(e, "attempt");
  }

  lemma EffectFaults(before: seq<Json>, a: Audit, e: Fields, tool: string)
    requires AuditSays(before, a)
    ensures EffectFault(a, e, tool) == AgainstEffect(before, e, tool)
  {
    FieldsRead(e, "effectId");
    FieldsRead(e, "denied");
    ToolsRead(tool);
  }

  lemma IntentRead(e: Fields)
    ensures var intent := Get(e, "intent");
            && (intent.Object? && Get(intent.fields, "recorded") == Bool(true) <==> IntentRecorded(e))
            && (IntentRecorded(e) ==> forall b :: Get(intent.fields, "side_effect") == Bool(b) <==> ClassifiedAs(e, b))
  {
  }

  lemma StartFaults(budgets: Budgets, before: seq<Json>, a: Audit, e: Fields)
    requires AuditSays(before, a)
    ensures StartFault(budgets, a, e) == AgainstStart(budgets, before, e)
  {
    FieldsRead(e, "toolCallId");
    FieldsRead(e, "toolName");
    FieldsRead(e, "args");
    FieldsRead(e, "denied");
    IntentRead(e);
    if TextAt(e, "toolName") {
      ToolsRead(e["toolName"].text);
      EffectFaults(before, a, e, e["toolName"].text);
    }
    if TextAt(e, "toolCallId") {
      assert CallSays(before, a.calls, e["toolCallId"].text);
      StartForIff(before, e["toolCallId"].text);
    }
  }

  lemma ResultFaults(before: seq<Json>, a: Audit, e: Fields)
    requires AuditSays(before, a)
    ensures EndFault(a, e) == AgainstResult(before, e)
  {
    FieldsRead(e, "toolCallId");
    FieldsRead(e, "toolName");
    FieldsRead(e, "result");
    if TextAt(e, "toolCallId") { assert CallSays(before, a.calls, e["toolCallId"].text); }
  }

  lemma SettledIff(before: seq<Json>, a: Audit)
    requires AuditSays(before, a)
    ensures AllSettled(a.calls) <==> AllAnswered(before)
  {
    forall id | id in a.calls && AllAnswered(before) ensures a.calls[id].settled {
      assert CallSays(before, a.calls, id);
      StartForIff(before, id);
    }
    if AllSettled(a.calls) {
      forall i, id | 0 <= i < |before| && Starts(before[i], id) ensures Answered(before, id) {
        assert CallSays(before, a.calls, id);
        StartForIff(before, id);
      }
    }
  }

  lemma UsageRead(e: Fields)
    ensures UsageWellFormed(Get(e, "usage")) <==> UsageGiven(e)
    ensures UsageGiven(e) ==>
              var u := Get(e, "usage").fields;
              (Get(u, "total").number == Get(u, "input").number + Get(u, "output").number <==> UsageAdds(e))
  {
  }

  lemma EndFaults(before: seq<Json>, a: Audit, e: Fields)
    requires AuditSays(before, a)
    ensures AgentEndFault(a, e) == AgainstEnd(before, e)
  {
    FieldsRead(e, "status");
    FieldsRead(e, "modelCalls");
    FieldsRead(e, "toolCalls");
    UsageRead(e);
    SettledIff(before, a);
  }

  lemma ErrorsRead(e: Fields)
    ensures ModelErrorOk(e) <==> ModelErrorGiven(e)
    ensures AgentErrorOk(e) <==> AgentErrorGiven(e)
  {
  }

  lemma StepFaults(budgets: Budgets, before: seq<Json>, a: Audit, event: Json)
    requires AuditSays(before, a)
    ensures match Step(budgets, a, event)
            case Ok(_) => Against(budgets, before, event).None?
            case Err(x) => Against(budgets, before, event) == Some(x)
  {
    if event.Object? {
      var e := event.fields;
      FieldsRead(e, "type");
      TypesRead(event);
      ErrorsRead(e);
      if Typed(event, "turn_start") { TurnFaults(budgets, before, a, e); }
      if Typed(event, "tool_execution_start") { StartFaults(budgets, before, a, e); }
      if Typed(event, "tool_execution_end") { ResultFaults(before, a, e); }
      if Typed(event, "agent_end") { EndFaults(before, a, e); }
    }
  }

  // -- one more event --

  lemma SeenNext(before: seq<Json>, event: Json)
    ensures var more := before + [event];
            && more[..|more| - 1] == before && more[|more| - 1] == event
            && (forall t, s :: Asked(more, t, s) <==> Asked(before, t, s) || AsksFor(event, t, s))
            && (forall x :: EffectNamed(more, x) <==> EffectNamed(before, x) || Names(event, x))
            && (Ended(more) <==> Ended(before) || Typed(event, "agent_end"))
  {
    var more := before + [event];
    assert forall i :: 0 <= i < |before| ==> more[i] == before[i];
    assert more[|before|] == event;
  }

  lemma AnsweredNext(before: seq<Json>, event: Json, id: string)
    ensures Answered(before + [event], id) <==> Answered(before, id) || Answers(event, id)
    ensures StartFor(before + [event], id) == if Starts(event, id) then Some(event.fields) else StartFor(before, id)
  {
    var more := before + [event];
    assert more[..|more| - 1] == before;
    assert forall i :: 0 <= i < |before| ==> more[i] == before[i];
    assert more[|before|] == event;
  }

  lemma SucceededNext(before: seq<Json>, event: Json, tool: string)
    ensures Succeeded(before + [event], tool) <==> Succeeded(before, tool) || Succeeds(before, event, tool)
  {
    var more := before + [event];
    forall i | 0 <= i < |before| ensures more[..i] == before[..i] && more[i] == before[i] { }
    assert more[..|before|] == before && more[|before|] == event;
    if i: nat :| i < |more| && Succeeds(more[..i], more[i], tool) && i < |before| { assert Succeeds(before[..i], before[i], tool); }
    if i: nat :| i < |before| && Succeeds(before[..i], before[i], tool) { assert Succeeds(more[..i], more[i], tool); }
  }

  lemma TypesDiffer(event: Json)
    ensures Typed(event, "tool_execution_start") ==> !Typed(event, "turn_start") && !Typed(event, "tool_execution_end") && !Typed(event, "agent_end")
    ensures Typed(event, "tool_execution_end") ==> !Typed(event, "turn_start") && !Typed(event, "agent_end")
    ensures Typed(event, "turn_start") ==> !Typed(event, "agent_end")
  {
    assert |"tool_execution_start"| != |"tool_execution_end"|;
    assert "turn_start"[0] != "agent_end"[0];
  }

  lemma TurnNext(budgets: Budgets, before: seq<Json>, a: Audit, event: Json)
    requires AuditSays(before, a) && !a.ended && Typed(event, "turn_start") && TurnStep(budgets, a, event.fields).Ok?
    ensures AuditSays(before + [event], TurnStep(budgets, a, event.fields).value)
  {
    var next := TurnStep(budgets, a, event.fields).value;
    SeenNext(before, event);
    TypesDiffer(event);
    forall id ensures CallSays(before + [event], next.calls, id) {
      assert CallSays(before, a.calls, id);
      AnsweredNext(before, event, id);
    }
    SucceededNext(before, event, "edit");
    SucceededNext(before, event, "test");
  }

  lemma StartMoves(budgets: Budgets, before: seq<Json>, a: Audit, e: Fields)
    requires AuditSays(before, a) && StartStep(budgets, a, e).Ok?
    ensures var next := StartStep(budgets, a, e).value;
            && TextAt(e, "toolCallId") && TextAt(e, "toolName")
            && var id := e["toolCallId"].text;
            && id !in a.calls && id in next.calls && next.calls == a.calls[id := next.calls[id]]
            && next.calls[id].name == e["toolName"].text && !next.calls[id].settled
            && (next.calls[id].denied.None? <==> NullAt(e, "denied"))
            && (forall x :: x in next.effects <==> x in a.effects || Says(e, "effectId", x))
            && next == a.(calls := next.calls, effects := next.effects, edits := next.edits, tests := next.tests)
  {
    FieldsRead(e, "toolCallId");
    FieldsRead(e, "toolName");
    FieldsRead(e, "denied");
    FieldsRead(e, "effectId");
    assert EffectFault(a, e, e["toolName"].text).None?;
  }

  lemma StartedCall(before: seq<Json>, a: Audit, next: Audit, event: Json, id: string)
    requires CallSays(before, a.calls, id) && Typed(event, "tool_execution_start") && TextAt(event.fields, "toolCallId")
    requires TextAt(event.fields, "toolName")
    requires var own := event.fields["toolCallId"].text;
             && own !in a.calls && own in next.calls && next.calls == a.calls[own := next.calls[own]]
             && next.calls[own].name == event.fields["toolName"].text && !next.calls[own].settled
             && (next.calls[own].denied.None? <==> NullAt(event.fields, "denied"))
    ensures CallSays(before + [event], next.calls, id)
  {
    TypesDiffer(event);
    AnsweredNext(before, event, id);
  }

  lemma StartNext(budgets: Budgets, before: seq<Json>, a: Audit, event: Json)
    requires AuditSays(before, a) && !a.ended && Typed(event, "tool_execution_start") && StartStep(budgets, a, event.fields).Ok?
    ensures AuditSays(before + [event], StartStep(budgets, a, event.fields).value)
  {
    StartMoves(budgets, before, a, event.fields);
    BegunSays(before, a, StartStep(budgets, a, event.fields).value, event);
  }

  lemma BegunSays(before: seq<Json>, a: Audit, next: Audit, event: Json)
    requires AuditSays(before, a) && !a.ended && Typed(event, "tool_execution_start") && TextAt(event.fields, "toolCallId")
    requires TextAt(event.fields, "toolName")
    requires var own := event.fields["toolCallId"].text;
             && own !in a.calls && own in next.calls && next.calls == a.calls[own := next.calls[own]]
             && next.calls[own].name == event.fields["toolName"].text && !next.calls[own].settled
             && (next.calls[own].denied.None? <==> NullAt(event.fields, "denied"))
    requires forall x :: x in next.effects <==> x in a.effects || Says(event.fields, "effectId", x)
    requires next == a.(calls := next.calls, effects := next.effects, edits := next.edits, tests := next.tests)
    ensures AuditSays(before + [event], next)
  {
    SeenNext(before, event);
    TypesDiffer(event);
    forall id ensures CallSays(before + [event], next.calls, id) {
      assert CallSays(before, a.calls, id);
      StartedCall(before, a, next, event, id);
    }
    SucceededNext(before, event, "edit");
    SucceededNext(before, event, "test");
  }

  lemma ResultMoves(before: seq<Json>, a: Audit, e: Fields)
    requires AuditSays(before, a) && EndStep(a, e).Ok?
    ensures var next := EndStep(a, e).value;
            && TextAt(e, "toolCallId")
            && var id := e["toolCallId"].text;
            && id in a.calls && next.calls == a.calls[id := a.calls[id].(settled := true)]
            && next == a.(calls := next.calls, editSucceeded := next.editSucceeded, testSucceeded := next.testSucceeded)
            && Says(e, "toolName", a.calls[id].name) && "isError" in e && e["isError"].Bool?
            && (next.editSucceeded <==> a.editSucceeded || (a.calls[id].name == "edit" && a.calls[id].denied.None? && !e["isError"].flag))
            && (next.testSucceeded <==> a.testSucceeded || (a.calls[id].name == "test" && a.calls[id].denied.None? && !e["isError"].flag))
  {
    FieldsRead(e, "toolCallId");
    FieldsRead(e, "toolName");
  }

  lemma ResultSucceeds(before: seq<Json>, a: Audit, event: Json, tool: string)
    requires Typed(event, "tool_execution_end") && TextAt(event.fields, "toolCallId")
    requires var id := event.fields["toolCallId"].text;
             && CallSays(before, a.calls, id) && id in a.calls
             && Says(event.fields, "toolName", a.calls[id].name) && "isError" in event.fields && event.fields["isError"].Bool?
    ensures var id := event.fields["toolCallId"].text;
            Succeeds(before, event, tool) <==> a.calls[id].name == tool && a.calls[id].denied.None? && !event.fields["isError"].flag
  {
  }

  lemma ResultNext(before: seq<Json>, a: Audit, event: Json)
    requires AuditSays(before, a) && !a.ended && Typed(event, "tool_execution_end") && EndStep(a, event.fields).Ok?
    ensures AuditSays(before + [event], EndStep(a, event.fields).value)
  {
    var next := EndStep(a, event.fields).value;
    ResultMoves(before, a, event.fields);
    SeenNext(before, event);
    TypesDiffer(event);
    var own := event.fields["toolCallId"].text;
    assert CallSays(before, a.calls, own);
    forall id ensures CallSays(before + [event], next.calls, id) {
      assert CallSays(before, a.calls, id);
      AnsweredNext(before, event, id);
    }
    SucceededNext(before, event, "edit");
    SucceededNext(before, event, "test");
    ResultSucceeds(before, a, event, "edit");
    ResultSucceeds(before, a, event, "test");
    assert next.calls.Keys == a.calls.Keys;
    assert |next.calls| == |next.calls.Keys|;
  }

  /** An event of any other type changes nothing but the end. */
  lemma OtherNext(before: seq<Json>, a: Audit, event: Json, next: Audit)
    requires AuditSays(before, a) && next == a.(ended := next.ended, usage := next.usage)
    requires !Typed(event, "turn_start") && !Typed(event, "tool_execution_start") && !Typed(event, "tool_execution_end")
    requires !a.ended && (next.ended <==> Typed(event, "agent_end"))
    requires next.ended ==> GivesUsage(event, next.usage)
    ensures AuditSays(before + [event], next)
  {
    SeenNext(before, event);
    forall id ensures CallSays(before + [event], next.calls, id) {
      assert CallSays(before, a.calls, id);
      AnsweredNext(before, event, id);
    }
    SucceededNext(before, event, "edit");
    SucceededNext(before, event, "test");
  }

  lemma EndGivesUsage(a: Audit, event: Json)
    requires Typed(event, "agent_end") && AgentEndStep(a, event.fields).Ok?
    ensures GivesUsage(event, AgentEndStep(a, event.fields).value.usage)
  {
    UsageRead(event.fields);
  }

  lemma StepSays(budgets: Budgets, before: seq<Json>, a: Audit, event: Json)
    requires AuditSays(before, a) && Step(budgets, a, event).Ok?
    ensures AuditSays(before + [event], Step(budgets, a, event).value)
  {
    var next := Step(budgets, a, event).value;
    TypesRead(event);
    TypesDiffer(event);
    if Typed(event, "turn_start") {
      TurnNext(budgets, before, a, event);
    } else if Typed(event, "tool_execution_start") {
      StartNext(budgets, before, a, event);
    } else if Typed(event, "tool_execution_end") {
      ResultNext(before, a, event);
    } else {
      if Typed(event, "agent_end") { EndGivesUsage(a, event); }
      OtherNext(before, a, event, next);
    }
  }

  /** A result of the audit and what the events say of it. */
  ghost predicate FaultSays(budgets: Budgets, events: seq<Json>, r: Result<Audit, AuditError>) {
    match r
    case Ok(a) => FirstFault(budgets, events).None? && AuditSays(events, a)
    case Err(x) => FirstFault(budgets, events) == Some(x)
  }

  lemma FirstFaultNext(budgets: Budgets, front: seq<Json>, event: Json)
    ensures FirstFault(budgets, front + [event]) ==
              if FirstFault(budgets, front).Some? then FirstFault(budgets, front) else Against(budgets, front, event)
  {
    var more := front + [event];
    assert more[..|more| - 1] == front && more[|more| - 1] == event;
  }

  lemma StepFaultSays(budgets: Budgets, front: seq<Json>, a: Audit, event: Json)
    requires FaultSays(budgets, front, Ok(a))
    ensures FaultSays(budgets, front + [event], Step(budgets, a, event))
  {
    FirstFaultNext(budgets, front, event);
    StepFaults(budgets, front, a, event);
    if Step(budgets, a, event).Ok? { StepSays(budgets, front, a, event); }
  }

  lemma {:induction false} AfterFaults(budgets: Budgets, events: seq<Json>)
    ensures FaultSays(budgets, events, After(budgets, events))
  {
    if events != [] {
      var n := |events| - 1;
      var front := events[..n];
      AfterFaults(budgets, front);
      assert events == front + [events[n]];
      match After(budgets, front)
      case Ok(a) => StepFaultSays(budgets, front, a, events[n]);
      case Err(_) => FirstFaultNext(budgets, front, events[n]);
    }
  }

  /** The audit accepts exactly the streams without an objectionable event, and of the others it reports the
      first objection; what it keeps is what the events say. */
  lemma AuditIs(budgets: Budgets, events: seq<Json>)
    ensures After(budgets, events).Ok? <==> forall i :: 0 <= i < |events| ==> Unopposed(budgets, events, i)
    ensures After(budgets, events).Err? ==> FirstFault(budgets, events) == Some(After(budgets, events).error)
    ensures After(budgets, events).Ok? ==> AuditSays(events, After(budgets, events).value)
  {
    AfterFaults(budgets, events);
    NoFaultIff(budgets, events);
  }

  ghost predicate Unopposed(budgets: Budgets, events: seq<Json>, i: nat) {
    i < |events| && Against(budgets, events[..i], events[i]).None?
  }

  lemma {:induction false} NoFaultIff(budgets: Budgets, events: seq<Json>)
    ensures FirstFault(budgets, events).None? <==> forall i :: 0 <= i < |events| ==> Unopposed(budgets, events, i)
  {
    if events != [] {
      var n := |events| - 1;
      NoFaultIff(budgets, events[..n]);
      forall i | 0 <= i < n ensures Unopposed(budgets, events[..n], i) <==> Unopposed(budgets, events, i) {
        assert events[..n][..i] == events[..i];
      }
      assert Unopposed(budgets, events, n) <==> Against(budgets, events[..n], events[n]).None?;
    }
  }
}
