// JSON events as the child process writes them, and how their fields are read.

module EventStream {
  import opened Basics

  datatype Json =
    | Null
    | Bool(flag: bool)
    | Int(number: int)
    | Text(text: string)
    | Object(fields: map<string, Json>)
    | Other(truthy: bool)                  // arrays and other numbers; true unless empty or zero

  type Fields = map<string, Json>

  /** A missing field reads as null. */
  function Get(e: Fields, key: string): (v: Json) {
    if key in e then e[key] else Null
  }

  /** Non-empty text without NUL. */
  predicate IsText(v: Json) {
    v.Text? && v.text != "" && '\0' !in v.text
  }

  predicate IsInteger(v: Json, minimum: int) {
    v.Int? && v.number >= minimum
  }

  /** The event types the audit knows; any other text is some other type. */
  datatype Kind =
    | TurnStart | ToolStart | ToolEnd | ModelError | AgentEnd | AgentError | RetryStart | BudgetExceeded
    | MessageUpdate | MessageEnd | OtherKind

  function KindOf(name: string): (k: Kind) {
    if name == "turn_start" then TurnStart
    else if name == "tool_execution_start" then ToolStart
    else if name == "tool_execution_end" then ToolEnd
    else if name == "model_request_error" then ModelError
    else if name == "agent_end" then AgentEnd
    else if name == "agent_error" then AgentError
    else if name == "automatic_retry_start" then RetryStart
    else if name == "model_budget_exceeded" then BudgetExceeded
    else if name == "message_update" then MessageUpdate
    else if name == "message_end" then MessageEnd
    else OtherKind
  }

  function TypeName(e: Fields): (r: string) {
    if Get(e, "type").Text? then Get(e, "type").text else ""
  }

  function TypeOf(e: Fields): (k: Kind) {
    KindOf(TypeName(e))
  }

  const ALLOWED_TOOLS: set<string> := {"list", "read", "search", "edit", "pwsh", "test"}

  function Folded(s: string): (r: string)
    ensures |r| == |s|
  {
    seq(|s|, i requires 0 <= i < |s| => if 'A' <= s[i] <= 'Z' then s[i] - 'A' + 'a' else s[i])
  }

  predicate OccursAt(s: string, part: string, i: nat) {
    i + |part| <= |s| && s[i..i + |part|] == part
  }

  predicate Contains(s: string, part: string) {
    exists i :: 0 <= i <= |s| && OccursAt(s, part, i)
  }
}
