// The bridge's audit: which event streams of the child it relays.

module EventAudit {
  import opened Basics
  import opened EventStream

  datatype Call = Call(name: string, effect: Option<string>, denied: Option<string>, settled: bool)

  datatype Budgets = Budgets(turns: nat, calls: nat)

  datatype Audit = Audit(
    turns: set<(int, int)>, calls: map<string, Call>, effects: set<string>,
    edits: nat, tests: nat, editSucceeded: bool, testSucceeded: bool, ended: bool,
    usage: (int, int, int))

  const Fresh := Audit({}, map[], {}, 0, 0, false, false, false, (0, 0, 0))

  datatype AuditError =
    | NotAnObject | BadField(name: string) | FollowedEnd | RetryForbidden | BudgetExceededEvent | UnknownType
    | SecondAttempt | DuplicateTurn | TurnBudget
    | OutsideAllowlist | DuplicateCall | ToolBudget | NoIntent | WrongSideEffect | EffectNotDenied | UnexpectedEffect
    | NoStart | RepeatedResult | OtherName
    | CountMismatch | Unsettled | UsageMismatch | NoEvidence
    | EndedEarly

  predicate SideEffect(name: string) {
    name == "edit" || name == "pwsh" || name == "test"
  }

  const DUPLICATE_EFFECT := "duplicate side-effect identity"

  function TurnStep(budgets: Budgets, a: Audit, e: Fields): (r: Result<Audit, AuditError>) {
    var key := (Get(e, "turn"), Get(e, "step"));
    if !IsInteger(key.0, 1) then Err(BadField("turn"))
    else if !IsInteger(key.1, 1) then Err(BadField("step"))
    else if !IsInteger(Get(e, "attempt"), 1) then Err(BadField("attempt"))
    else if Get(e, "attempt").number != 1 then Err(SecondAttempt)
    else if (key.0.number, key.1.number) in a.turns then Err(DuplicateTurn)
    else if |a.turns| + 1 > budgets.turns then Err(TurnBudget)
    else Ok(a.(turns := a.turns + {(key.0.number, key.1.number)}))
  }

  /** Whether a start names its effect as its tool requires. */
  function EffectFault(a: Audit, e: Fields, name: string): (r: Option<AuditError>) {
    var effect := Get(e, "effectId");
    if SideEffect(name) then
      if !IsText(effect) then Some(BadField("effectId"))
      else if effect.text in a.effects && Get(e, "denied") != Text(DUPLICATE_EFFECT) then Some(EffectNotDenied)
      else None
    else if !effect.Null? then Some(UnexpectedEffect)
    else None
  }

  /** What is wrong with the call itself. */
  function CallFault(budgets: Budgets, a: Audit, e: Fields): (r: Option<AuditError>) {
    var id, name, intent := Get(e, "toolCallId"), Get(e, "toolName"), Get(e, "intent");
    if !IsText(id) then Some(BadField("toolCallId"))
    else if !IsText(name) then Some(BadField("toolName"))
    else if name.text !in ALLOWED_TOOLS then Some(OutsideAllowlist)
    else if id.text in a.calls then Some(DuplicateCall)
    else if |a.calls| >= budgets.calls then Some(ToolBudget)
    else if !Get(e, "args").Object? then Some(BadField("args"))
    else if !(intent.Object? && Get(intent.fields, "recorded") == Bool(true)) then Some(NoIntent)
    else if Get(intent.fields, "side_effect") != Bool(SideEffect(name.text)) then Some(WrongSideEffect)
    else None
  }

  function StartFault(budgets: Budgets, a: Audit, e: Fields): (r: Option<AuditError>) {
    if CallFault(budgets, a, e).Some? then CallFault(budgets, a, e)
    else if EffectFault(a, e, Get(e, "toolName").text).Some? then EffectFault(a, e, Get(e, "toolName").text)
    else if !(Get(e, "denied").Null? || Get(e, "denied").Text?) then Some(BadField("denied"))
    else None
  }

  function TextOf(v: Json): Option<string> {
    if v.Text? then Some(v.text) else None
  }

  /** The call that an accepted start records. */
  function Started(e: Fields): (r: Call) {
    var name := Get(e, "toolName");
    Call(if name.Text? then name.text else "", TextOf(Get(e, "effectId")), TextOf(Get(e, "denied")), false)
  }

  function StartStep(budgets: Budgets, a: Audit, e: Fields): (r: Result<Audit, AuditError>) {
    if StartFault(budgets, a, e).Some? then Err(StartFault(budgets, a, e).value)
    else
      var call := Started(e);
      Ok(a.(calls := a.calls[Get(e, "toolCallId").text := call],
            effects := a.effects + if SideEffect(call.name) then {call.effect.value} else {},
            edits := a.edits + if call.name == "edit" then 1 else 0,
            tests := a.tests + if call.name == "test" then 1 else 0))
  }

  function EndFault(a: Audit, e: Fields): (r: Option<AuditError>) {
    var id, name := Get(e, "toolCallId"), Get(e, "toolName");
    if !IsText(id) then Some(BadField("toolCallId"))
    else if !IsText(name) then Some(BadField("toolName"))
    else if id.text !in a.calls then Some(NoStart)
    else if a.calls[id.text].settled then Some(RepeatedResult)
    else if a.calls[id.text].name != name.text then Some(OtherName)
    else if !Get(e, "isError").Bool? then Some(BadField("isError"))
    else if !Get(e, "result").Object? then Some(BadField("result"))
    else None
  }

  function EndStep(a: Audit, e: Fields): (r: Result<Audit, AuditError>) {
    if EndFault(a, e).Some? then Err(EndFault(a, e).value)
    else
      var id := Get(e, "toolCallId").text;
      var call := a.calls[id];
      var succeeded := call.denied.None? && !Get(e, "isError").flag;
      Ok(a.(calls := a.calls[id := call.(settled := true)],
            editSucceeded := a.editSucceeded || (call.name == "edit" && succeeded),
            testSucceeded := a.testSucceeded || (call.name == "test" && succeeded)))
  }

  predicate ModelErrorOk(e: Fields) {
    var error := Get(e, "error");
    && IsInteger(Get(e, "turn"), 1) && IsInteger(Get(e, "step"), 1) && IsText(Get(e, "provider"))
    && error.Object? && IsText(Get(error.fields, "code")) && IsText(Get(error.fields, "message"))
  }

  predicate AgentErrorOk(e: Fields) {
    var error := Get(e, "error");
    error.Object? && IsText(Get(error.fields, "name")) && IsText(Get(error.fields, "message"))
  }

  predicate UsageWellFormed(usage: Json) {
    && usage.Object? && IsInteger(Get(usage.fields, "input"), 0)
    && IsInteger(Get(usage.fields, "output"), 0) && IsInteger(Get(usage.fields, "total"), 0)
  }

  predicate AllSettled(calls: map<string, Call>) {
    forall id :: id in calls ==> calls[id].settled
  }

  function AgentEndFault(a: Audit, e: Fields): (r: Option<AuditError>) {
    var status, usage := Get(e, "status"), Get(e, "usage");
    if status != Text("completed") && status != Text("failed") then Some(BadField("status"))
    else if !IsInteger(Get(e, "modelCalls"), 0) then Some(BadField("modelCalls"))
    else if !IsInteger(Get(e, "toolCalls"), 0) then Some(BadField("toolCalls"))
    else if Get(e, "modelCalls").number != |a.turns| || Get(e, "toolCalls").number != |a.calls| then Some(CountMismatch)
    else if !AllSettled(a.calls) then Some(Unsettled)
    else if !UsageWellFormed(usage) then Some(BadField("usage"))
    else if Get(usage.fields, "total").number != Get(usage.fields, "input").number + Get(usage.fields, "output").number
    then Some(UsageMismatch)
    else if status == Text("completed") && !(a.editSucceeded && a.testSucceeded) then Some(NoEvidence)
    else None
  }

  function UsageOf(usage: Json): (int, int, int)
    requires UsageWellFormed(usage)
  {
    (Get(usage.fields, "input").number, Get(usage.fields, "output").number, Get(usage.fields, "total").number)
  }

  function AgentEndStep(a: Audit, e: Fields): (r: Result<Audit, AuditError>) {
    if AgentEndFault(a, e).Some? then Err(AgentEndFault(a, e).value)
    else Ok(a.(ended := true, usage := UsageOf(Get(e, "usage"))))
  }

  function Step(budgets: Budgets, a: Audit, event: Json): (r: Result<Audit, AuditError>) {
    if !event.Object? then Err(NotAnObject)
    else
      var e := event.fields;
      if !IsText(Get(e, "type")) then Err(BadField("type"))
      else if a.ended then Err(FollowedEnd)
      else match TypeOf(e)
        case TurnStart => TurnStep(budgets, a, e)
        case ToolStart => StartStep(budgets, a, e)
        case ToolEnd => EndStep(a, e)
        case ModelError => if ModelErrorOk(e) then Ok(a) else Err(BadField("error"))
        case AgentEnd => AgentEndStep(a, e)
        case AgentError => if AgentErrorOk(e) then Ok(a) else Err(BadField("error"))
        case RetryStart => Err(RetryForbidden)
        case BudgetExceeded => Err(BudgetExceededEvent)
        case _ => Err(UnknownType)
  }

  /** The audit after a whole stream, or the first fault. */
  function After(budgets: Budgets, events: seq<Json>): (r: Result<Audit, AuditError>) {
    if events == [] then Ok(Fresh)
    else
      match After(budgets, events[..|events| - 1])
      case Err(x) => Err(x)
      case Ok(a) => Step(budgets, a, events[|events| - 1])
  }

  /** A fault stays: no longer stream is accepted. */
  lemma {:induction false} AcceptedPrefix(budgets: Budgets, events: seq<Json>, n: nat)
    requires n <= |events| && After(budgets, events).Ok?
    ensures After(budgets, events[..n]).Ok?
    decreases |events|
  {
    if n < |events| {
      AcceptedPrefix(budgets, events[..|events| - 1], n);
      assert events[..|events| - 1][..n] == events[..n];
    } else {
      assert events[..n] == events;
    }
  }

  class Auditor {
    const budgets: Budgets
    var turns: set<(int, int)>
    var calls: map<string, Call>
    var effects: set<string>
    var edits: nat
    var tests: nat
    var editSucceeded: bool
    var testSucceeded: bool
    var ended: bool
    var usage: (int, int, int)

    constructor (budgets: Budgets)
      ensures this.budgets == budgets && State() == Fresh
    {
      this.budgets := budgets;
      turns, calls, effects, edits, tests := {}, map[], {}, 0, 0;
      editSucceeded, testSucceeded, ended, usage := false, false, false, (0, 0, 0);
    }

    function State(): Audit reads this {
      Audit(turns, calls, effects, edits, tests, editSucceeded, testSucceeded, ended, usage)
    }

    /** The new state is the specified one when the step is accepted; a rejected step ends the relay. */
    predicate Does(r: Result<Audit, AuditError>, fault: Option<AuditError>) reads this {
      match r
      case Ok(a) => fault.None? && State() == a
      case Err(x) => fault == Some(x)
    }

    method OnTurnStart(e: Fields) returns (fault: Option<AuditError>)
      modifies this
      ensures Does(TurnStep(budgets, old(State()), e), fault)
    {
      var turn, step, attempt := Get(e, "turn"), Get(e, "step"), Get(e, "attempt");
      if !IsInteger(turn, 1) { return Some(BadField("turn")); }
      if !IsInteger(step, 1) { return Some(BadField("step")); }
      if !IsInteger(attempt, 1) { return Some(BadField("attempt")); }
      if attempt.number != 1 { return Some(SecondAttempt); }
      var key := (turn.number, step.number);
      if key in turns { return Some(DuplicateTurn); }
      turns := turns + {key};
      if |turns| > budgets.turns { return Some(TurnBudget); }
      return None;
    }

    /** The allowlist, the budget and the recorded intent. */
    method CheckCall(e: Fields) returns (fault: Option<AuditError>)
      ensures fault == CallFault(budgets, State(), e)
    {
      var id, name, intent := Get(e, "toolCallId"), Get(e, "toolName"), Get(e, "intent");
      if !IsText(id) { return Some(BadField("toolCallId")); }
      if !IsText(name) { return Some(BadField("toolName")); }
      if name.text !in ALLOWED_TOOLS { return Some(OutsideAllowlist); }
      if id.text in calls { return Some(DuplicateCall); }
      if |calls| >= budgets.calls { return Some(ToolBudget); }
      if !Get(e, "args").Object? { return Some(BadField("args")); }
      if !intent.Object? || Get(intent.fields, "recorded") != Bool(true) { return Some(NoIntent); }
      if Get(intent.fields, "side_effect") != Bool(SideEffect(name.text)) { return Some(WrongSideEffect); }
      return None;
    }

    /** The effect of a call with side effects; one that is known already must be denied. */
    method NoteEffect(e: Fields, name: string) returns (fault: Option<AuditError>)
      modifies this`effects
      ensures fault == EffectFault(old(State()), e, name)
      ensures effects == if fault.None? && SideEffect(name) then old(effects) + {Get(e, "effectId").text} else old(effects)
    {
      var effect := Get(e, "effectId");
      if !SideEffect(name) {
        return if effect.Null? then None else Some(UnexpectedEffect);
      }
      if !IsText(effect) { return Some(BadField("effectId")); }
      if effect.text in effects {
        if Get(e, "denied") != Text(DUPLICATE_EFFECT) { return Some(EffectNotDenied); }
      } else {
        effects := effects + {effect.text};
      }
      return None;
    }

    method OnToolStart(e: Fields) returns (fault: Option<AuditError>)
      modifies this
      ensures Does(StartStep(budgets, old(State()), e), fault)
    {
      var id, name, denied := Get(e, "toolCallId"), Get(e, "toolName"), Get(e, "denied");
      fault := CheckCall(e);
      if fault.Some? {
        assert Does(StartStep(budgets, old(State()), e), fault);
        return;
      }
      fault := NoteEffect(e, name.text);
      if fault.Some? { return; }
      if !(denied.Null? || denied.Text?) { return Some(BadField("denied")); }
      if name.text == "edit" { edits := edits + 1; }
      if name.text == "test" { tests := tests + 1; }
      calls := calls[id.text := Call(name.text, TextOf(Get(e, "effectId")), TextOf(denied), false)];
      return None;
    }

    method OnToolEnd(e: Fields) returns (fault: Option<AuditError>)
      modifies this
      ensures Does(EndStep(old(State()), e), fault)
    {
      var id, name := Get(e, "toolCallId"), Get(e, "toolName");
      if !IsText(id) { return Some(BadField("toolCallId")); }
      if !IsText(name) { return Some(BadField("toolName")); }
      if id.text !in calls { return Some(NoStart); }
      var call := calls[id.text];
      if call.settled { return Some(RepeatedResult); }
      if call.name != name.text { return Some(OtherName); }
      if !Get(e, "isError").Bool? { return Some(BadField("isError")); }
      if !Get(e, "result").Object? { return Some(BadField("result")); }
      calls := calls[id.text := call.(settled := true)];
      var succeeded := call.denied.None? && !Get(e, "isError").flag;
      if name.text == "edit" && succeeded { editSucceeded := true; }
      if name.text == "test" && succeeded { testSucceeded := true; }
      return None;
    }

    method OnAgentEnd(e: Fields) returns (fault: Option<AuditError>)
      modifies this
      ensures Does(AgentEndStep(old(State()), e), fault)
    {
      var status, counted := Get(e, "status"), Get(e, "usage");
      if status != Text("completed") && status != Text("failed") { return Some(BadField("status")); }
      var modelCalls, toolCalls := Get(e, "modelCalls"), Get(e, "toolCalls");
      if !IsInteger(modelCalls, 0) { return Some(BadField("modelCalls")); }
      if !IsInteger(toolCalls, 0) { return Some(BadField("toolCalls")); }
      if modelCalls.number != |turns| || toolCalls.number != |calls| { return Some(CountMismatch); }
      if !AllSettled(calls) { return Some(Unsettled); }
      if !UsageWellFormed(counted) { return Some(BadField("usage")); }
      var (input, output, total) := UsageOf(counted);
      if total != input + output { return Some(UsageMismatch); }
      usage := (input, output, total);
      if status == Text("completed") && !(editSucceeded && testSucceeded) { return Some(NoEvidence); }
      ended := true;
      return None;
    }

    method Accept(event: Json) returns (fault: Option<AuditError>)
      modifies this
      ensures Does(Step(budgets, old(State()), event), fault)
    {
      if !event.Object? { return Some(NotAnObject); }
      var e := event.fields;
      if !IsText(Get(e, "type")) { return Some(BadField("type")); }
      if ended { return Some(FollowedEnd); }
      match TypeOf(e) {
        case TurnStart => fault := OnTurnStart(e);
        case ToolStart => fault := OnToolStart(e);
        case ToolEnd => fault := OnToolEnd(e);
        case ModelError => fault := if ModelErrorOk(e) then None else Some(BadField("error"));
        case AgentEnd => fault := OnAgentEnd(e);
        case AgentError => fault := if AgentErrorOk(e) then None else Some(BadField("error"));
        case RetryStart => fault := Some(RetryForbidden);
        case BudgetExceeded => fault := Some(BudgetExceededEvent);
        case _ => fault := Some(UnknownType);
      }
    }

    method Finish() returns (fault: Option<AuditError>)
      ensures fault == if State().ended then None else Some(EndedEarly)
    {
      if !ended { return Some(EndedEarly); }
      return None;
    }
  }
}
