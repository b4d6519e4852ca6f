// The runner's verdict, read off the events alone: over every stream, well formed or not, which event it
// stops at and why, and exactly which streams it accepts.

module RunnerMeaning {
  import opened Basics
  import opened EventStream
  import opened Runner

  // -- single events --

  predicate Typed(event: Json, name: string) {
    event.Object? && "type" in event.fields && event.fields["type"] == Text(name)
  }

  predicate StartOf(event: Json, id: string) {
    Typed(event, "tool_execution_start") && ToolCallId(event.fields) == id
  }

  predicate ResultOf(event: Json, id: string) {
    Typed(event, "tool_execution_end") && ToolCallId(event.fields) == id
  }

  /** The type as it is compared with the forbidden words. */
  predicate Mentions(event: Json, word: string) {
    event.Object? && "type" in event.fields && event.fields["type"].Text? && Contains(Folded(event.fields["type"].text), word)
  }

  /** A path argument that lies in a set of paths. */
  predicate PathIn(args: Fields, paths: string -> bool) {
    "path" in args && args["path"].Text? && paths(args["path"].text)
  }

  predicate NoPath(args: Fields) {
    "path" !in args || args["path"].Null?
  }

  /** The tools with the paths they may name: edits in the mutable paths, reads in the readable ones, listings
      also of the root, searches also without a path; commands and tests name none. */
  predicate InBounds(capsule: Capsule, name: string, args: Fields) {
    || (name == "edit" && PathIn(args, capsule.mutable))
    || (name == "read" && PathIn(args, capsule.readable))
    || (name == "list" && (PathIn(args, p => p == ".") || PathIn(args, capsule.readable)))
    || (name == "search" && (NoPath(args) || PathIn(args, capsule.readable)))
    || name == "pwsh"
    || name == "test"
  }

  /** The child says itself that it denied the call. */
  predicate SaysDenied(e: Fields) {
    "denied" in e && e["denied"].Text? && e["denied"].text != ""
  }

  /** The value of a field, or of its alias when the field is not there. */
  predicate Holds(e: Fields, key: string, alias: string, ok: Json -> bool) {
    if key in e then ok(e[key]) else alias in e && ok(e[alias])
  }

  predicate Counts(v: Json) {
    match v
    case Null => false
    case Bool(b) => b
    case Int(n) => n != 0
    case Text(s) => |s| > 0
    case Object(fields) => |fields| > 0
    case Other(truthy) => truthy
  }

  /** A message or the stream inside it reports an error of the provider. */
  predicate ReportsError(e: Fields) {
    || ("message" in e && e["message"].Object?
        && (Holds(e["message"].fields, "stopReason", "stop_reason", v => v == Text("error"))
            || Holds(e["message"].fields, "errorMessage", "error_message", Counts)))
    || ("assistantMessageEvent" in e && e["assistantMessageEvent"].Object?
        && var a := e["assistantMessageEvent"].fields;
           && "type" in a && a["type"] == Text("error")
           && (("error" in a && Counts(a["error"])) || ("errorMessage" in a && Counts(a["errorMessage"]))))
  }

  lemma TypesRead(event: Json)
    requires event.Object?
    ensures TypeOf(event.fields) == TurnStart <==> Typed(event, "turn_start")
    ensures TypeOf(event.fields) == ToolStart <==> Typed(event, "tool_execution_start")
    ensures TypeOf(event.fields) == ToolEnd <==> Typed(event, "tool_execution_end")
    ensures TypeOf(event.fields) == MessageUpdate <==> Typed(event, "message_update")
    ensures TypeOf(event.fields) == MessageEnd <==> Typed(event, "message_end")
    ensures TypeOf(event.fields) == AgentEnd <==> Typed(event, "agent_end")
  {
  }

  lemma NothingInEmpty(word: string)
    requires word != ""
    ensures !Contains(Folded(""), word)
  {
  }

  lemma WordsRead(event: Json, word: string)
    requires event.Object? && word != ""
    ensures Contains(Folded(TypeName(event.fields)), word) <==> Mentions(event, word)
  {
    NothingInEmpty(word);
  }

  lemma BoundsRead(capsule: Capsule, name: string, args: Fields)
    ensures Violates(capsule, name, args) <==> !InBounds(capsule, name, args)
  {
  }

  lemma ErrorRead(e: Fields)
    ensures AssistantFailed(e) <==> ReportsError(e)
  {
  }

  /** The names under which the id and the tool of a call are found. */
  lemma CallFieldsRead(e: Fields, text: string)
    requires text != ""
    ensures ToolCallId(e) == text <==>
              if "toolCallId" in e then e["toolCallId"] == Text(text) else Holds(e, "tool_call_id", "id", v => v == Text(text))
    ensures ToolName(e) == text <==> Holds(e, "toolName", "tool_name", v => v == Text(text))
  {
  }

  // -- counting and settling --

  /** How many events of a type, and how many calls of a tool, there are. */
  function HowMany(events: seq<Json>, name: string): (n: nat) {
    if events == [] then 0
    else HowMany(events[..|events| - 1], name) + if Typed(events[|events| - 1], name) then 1 else 0
  }

  function CallsOf(events: seq<Json>, tool: string): (n: nat) {
    if events == [] then 0
    else
      var e := events[|events| - 1];
      CallsOf(events[..|events| - 1], tool) + if Typed(e, "tool_execution_start") && ToolName(e.fields) == tool then 1 else 0
  }

  predicate Began(events: seq<Json>, id: string) {
    exists i :: 0 <= i < |events| && StartOf(events[i], id)
  }

  /** The tool of the call that still waits for its result. */
  function Awaiting(events: seq<Json>, id: string): Option<string> {
    if events == [] then None
    else
      var e := events[|events| - 1];
      if StartOf(e, id) then Some(ToolName(e.fields))
      else if ResultOf(e, id) then None
      else Awaiting(events[..|events| - 1], id)
  }

  ghost predicate WaitsFrom(events: seq<Json>, id: string, tool: string, i: nat) {
    && i < |events| && StartOf(events[i], id) && ToolName(events[i].fields) == tool
    && forall j :: i < j < |events| ==> !StartOf(events[j], id) && !ResultOf(events[j], id)
  }

  lemma {:induction false} AwaitedWaits(events: seq<Json>, id: string, tool: string)
    requires Awaiting(events, id) == Some(tool)
    ensures exists i :: WaitsFrom(events, id, tool, i)
  {
    var n := |events| - 1;
    if StartOf(events[n], id) {
      assert WaitsFrom(events, id, tool, n);
    } else {
      AwaitedWaits(events[..n], id, tool);
      var i: nat :| WaitsFrom(events[..n], id, tool, i);
      assert WaitsFrom(events, id, tool, i);
    }
  }

  lemma {:induction false} WaitsIsAwaited(events: seq<Json>, id: string, tool: string, i: nat)
    requires WaitsFrom(events, id, tool, i)
    ensures Awaiting(events, id) == Some(tool)
  {
    var n := |events| - 1;
    if i < n {
      assert WaitsFrom(events[..n], id, tool, i);
      WaitsIsAwaited(events[..n], id, tool, i);
    }
  }

  /** A call waits exactly when it was started and nothing of its id came after. */
  lemma AwaitingIff(events: seq<Json>, id: string, tool: string)
    ensures Awaiting(events, id) == Some(tool) <==> exists i :: WaitsFrom(events, id, tool, i)
  {
    if Awaiting(events, id) == Some(tool) { AwaitedWaits(events, id, tool); }
    if i: nat :| WaitsFrom(events, id, tool, i) { WaitsIsAwaited(events, id, tool, i); }
  }

  // -- what the runner holds against an event --

  function AgainstStart(capsule: Capsule, limits: Limits, before: seq<Json>, e: Fields): Option<Stop> {
    var id, name := ToolCallId(e), ToolName(e);
    if id == "" || Began(before, id) then Some(DuplicateCall)
    else if !InBounds(capsule, name, ToolArgs(e)) && !SaysDenied(e) then Some(ScopeViolation)
    else if HowMany(before, "tool_execution_start") >= limits.calls then Some(ToolBudget)
    else if name == "edit" && CallsOf(before, "edit") >= limits.edits then Some(RepeatedMutationOrTest)
    else if name == "test" && CallsOf(before, "test") >= limits.tests then Some(RepeatedMutationOrTest)
    else None
  }

  /** Why the runner stops at an event, given what came before. */
  function Against(capsule: Capsule, limits: Limits, before: seq<Json>, event: Json): Option<Stop> {
    if !event.Object? then Some(Malformed)
    else if Mentions(event, "retry") then Some(RetryForbidden)
    else if Mentions(event, "compaction") then Some(CompactionForbidden)
    else if Typed(event, "turn_start") then
      if HowMany(before, "turn_start") >= limits.turns then Some(TurnBudget) else None
    else if Typed(event, "tool_execution_start") then AgainstStart(capsule, limits, before, event.fields)
    else if Typed(event, "tool_execution_end") then
      var id := ToolCallId(event.fields);
      if id == "" || Awaiting(before, id) != Some(ToolName(event.fields)) then Some(UnmatchedResult) else None
    else if (Typed(event, "message_update") || Typed(event, "message_end")) && ReportsError(event.fields) then Some(ProviderError)
    else None
  }

  /** The first event the runner stops at. */
  function FirstStop(capsule: Capsule, limits: Limits, events: seq<Json>): Option<Stop> {
    if events == [] then None
    else
      var n := |events| - 1;
      var earlier := FirstStop(capsule, limits, events[..n]);
      if earlier.Some? then earlier else Against(capsule, limits, events[..n], events[n])
  }

  /** The book holds what the events say. */
  ghost predicate BookSays(events: seq<Json>, b: Book) {
    && b.turns == HowMany(events, "turn_start")
    && b.calls == HowMany(events, "tool_execution_start")
    && CountOf(b.counts, "edit") == CallsOf(events, "edit")
    && CountOf(b.counts, "test") == CallsOf(events, "test")
    && (forall id :: (if id in b.pending then Some(b.pending[id]) else None) == Awaiting(events, id))
    && (forall id :: id in b.pending || id in b.completed <==> Began(events, id))
    && (b.ended <==> exists i :: 0 <= i < |events| && Typed(events[i], "agent_end"))
  }

  lemma BeganNext(front: seq<Json>, event: Json, id: string)
    ensures Began(front + [event], id) <==> Began(front, id) || StartOf(event, id)
    ensures (exists i :: 0 <= i < |front + [event]| && Typed((front + [event])[i], "agent_end"))
         <==> (exists i :: 0 <= i < |front| && Typed(front[i], "agent_end")) || Typed(event, "agent_end")
  {
    var more := front + [event];
    assert forall i :: 0 <= i < |front| ==> more[i] == front[i];
    assert more[|front|] == event;
  }

  lemma {:induction false} AwaitedBegan(events: seq<Json>, id: string)
    ensures Awaiting(events, id).Some? ==> Began(events, id)
  {
    if events != [] {
      AwaitedBegan(events[..|events| - 1], id);
      assert events == events[..|events| - 1] + [events[|events| - 1]];
      BeganNext(events[..|events| - 1], events[|events| - 1], id);
    }
  }

  lemma StartStops(capsule: Capsule, limits: Limits, front: seq<Json>, b: Book, event: Json)
    requires BookSays(front, b) && Typed(event, "tool_execution_start")
    ensures match OnStart(capsule, limits, b, event.fields)
            case Ok(_) => AgainstStart(capsule, limits, front, event.fields).None?
            case Err(stop) => AgainstStart(capsule, limits, front, event.fields) == Some(stop)
  {
    BoundsRead(capsule, ToolName(event.fields), ToolArgs(event.fields));
  }

  lemma EndStops(front: seq<Json>, b: Book, e: Fields)
    requires BookSays(front, b)
    ensures OnEnd(b, e).Ok? <==> ToolCallId(e) != "" && Awaiting(front, ToolCallId(e)) == Some(ToolName(e))
    ensures OnEnd(b, e).Err? ==> OnEnd(b, e).error == UnmatchedResult
  {
  }

  lemma StepStops(capsule: Capsule, limits: Limits, front: seq<Json>, b: Book, event: Json)
    requires BookSays(front, b)
    ensures match Step(capsule, limits, b, event)
            case Ok(_) => Against(capsule, limits, front, event).None?
            case Err(stop) => Against(capsule, limits, front, event) == Some(stop)
  {
    if event.Object? {
      TypesRead(event);
      WordsRead(event, "retry");
      WordsRead(event, "compaction");
      ErrorRead(event.fields);
      if Typed(event, "tool_execution_start") { StartStops(capsule, limits, front, b, event); }
      if Typed(event, "tool_execution_end") { EndStops(front, b, event.fields); }
    }
  }

  /** The effect of an accepted event on the book. */
  lemma StepMoves(capsule: Capsule, limits: Limits, b: Book, event: Json)
    requires event.Object? && Step(capsule, limits, b, event).Ok?
    ensures var next := Step(capsule, limits, b, event).value;
            && next.turns == b.turns + (if Typed(event, "turn_start") then 1 else 0)
            && next.ended == (b.ended || Typed(event, "agent_end"))
            && (Typed(event, "tool_execution_start") ==> next == Opened(b, event.fields))
            && (Typed(event, "tool_execution_end") ==>
                  var id := ToolCallId(event.fields);
                  next == b.(pending := b.pending - {id}, completed := b.completed + {id}) && id in b.pending)
            && (!Typed(event, "tool_execution_start") && !Typed(event, "tool_execution_end") ==>
                  next.calls == b.calls && next.pending == b.pending && next.completed == b.completed && next.counts == b.counts)
  {
    TypesRead(event);
  }

  lemma TypesDiffer(event: Json)
    ensures Typed(event, "tool_execution_start") ==> !Typed(event, "turn_start") && !Typed(event, "tool_execution_end") && !Typed(event, "agent_end")
    ensures Typed(event, "tool_execution_end") ==> !Typed(event, "turn_start") && !Typed(event, "agent_end")
  {
    assert "tool_execution_start" != "tool_execution_end" by { assert |"tool_execution_start"| != |"tool_execution_end"|; }
  }

  lemma CallNext(capsule: Capsule, limits: Limits, front: seq<Json>, b: Book, event: Json, id: string)
    requires BookSays(front, b) && Step(capsule, limits, b, event).Ok?
    ensures var more, next := front + [event], Step(capsule, limits, b, event).value;
            && (if id in next.pending then Some(next.pending[id]) else None) == Awaiting(more, id)
            && (id in next.pending || id in next.completed <==> Began(more, id))
  {
    var more := front + [event];
    assert more[..|more| - 1] == front && more[|more| - 1] == event;
    StepMoves(capsule, limits, b, event);
    TypesDiffer(event);
    BeganNext(front, event, id);
  }

  lemma CountsNext(capsule: Capsule, limits: Limits, front: seq<Json>, b: Book, event: Json)
    requires BookSays(front, b) && Step(capsule, limits, b, event).Ok?
    ensures var more, next := front + [event], Step(capsule, limits, b, event).value;
            && next.turns == HowMany(more, "turn_start") && next.calls == HowMany(more, "tool_execution_start")
            && CountOf(next.counts, "edit") == CallsOf(more, "edit") && CountOf(next.counts, "test") == CallsOf(more, "test")
  {
    var more := front + [event];
    assert more[..|more| - 1] == front && more[|more| - 1] == event;
    StepMoves(capsule, limits, b, event);
    TypesDiffer(event);
  }

  lemma BookNext(capsule: Capsule, limits: Limits, front: seq<Json>, b: Book, event: Json)
    requires BookSays(front, b) && Step(capsule, limits, b, event).Ok?
    ensures BookSays(front + [event], Step(capsule, limits, b, event).value)
  {
    var more, next := front + [event], Step(capsule, limits, b, event).value;
    forall id
      ensures (if id in next.pending then Some(next.pending[id]) else None) == Awaiting(more, id)
      ensures id in next.pending || id in next.completed <==> Began(more, id)
    {
      CallNext(capsule, limits, front, b, event, id);
    }
    CountsNext(capsule, limits, front, b, event);
    StepMoves(capsule, limits, b, event);
    BeganNext(front, event, "");
  }

  lemma {:induction false} AfterStops(capsule: Capsule, limits: Limits, events: seq<Json>)
    ensures match After(capsule, limits, events)
            case Ok(b) => FirstStop(capsule, limits, events).None? && BookSays(events, b)
            case Err(stop) => FirstStop(capsule, limits, events) == Some(stop)
  {
    if events != [] {
      var n := |events| - 1;
      var front := events[..n];
      AfterStops(capsule, limits, front);
      assert events == front + [events[n]];
      if After(capsule, limits, front).Ok? {
        var b := After(capsule, limits, front).value;
        StepStops(capsule, limits, front, b, events[n]);
        if Step(capsule, limits, b, events[n]).Ok? { BookNext(capsule, limits, front, b, events[n]); }
      }
    }
  }

  ghost predicate Settled(events: seq<Json>) {
    forall id :: Awaiting(events, id).None?
  }

  ghost predicate SawEnd(events: seq<Json>) {
    exists i :: 0 <= i < |events| && Typed(events[i], "agent_end")
  }

  /** The verdict on every stream: the first event that is objectionable decides; without one, the exit code,
      then the missing end of the agent, then a call without its result. */
  lemma VerdictIs(capsule: Capsule, limits: Limits, events: seq<Json>, code: int)
    ensures Judge(After(capsule, limits, events), code) ==
              match FirstStop(capsule, limits, events)
              case Some(stop) => StoppedFor(stop)
              case None =>
                if code != 0 then ChildExitNonzero
                else if !SawEnd(events) then NoAgentEnd
                else if !Settled(events) then UnresolvedCalls
                else StreamAccepted
  {
    AfterStops(capsule, limits, events);
    match After(capsule, limits, events)
    case Err(_) =>
    case Ok(b) =>
      if b.pending == map[] {
        forall id ensures Awaiting(events, id).None? { assert id !in b.pending; }
      } else {
        var id :| id in b.pending;
        assert Awaiting(events, id) == Some(b.pending[id]);
      }
  }

  // -- the accepted streams, condition by condition --

  ghost predicate FineAt(capsule: Capsule, limits: Limits, events: seq<Json>, i: nat) {
    i < |events| &&
    var before, event := events[..i], events[i];
    && event.Object? && !Mentions(event, "retry") && !Mentions(event, "compaction")
    && (Typed(event, "turn_start") ==> HowMany(before, "turn_start") < limits.turns)
    && (Typed(event, "tool_execution_start") ==> GoodStart(capsule, limits, before, event.fields))
    && (Typed(event, "tool_execution_end") ==>
          ToolCallId(event.fields) != "" && Awaiting(before, ToolCallId(event.fields)) == Some(ToolName(event.fields)))
    && (Typed(event, "message_update") || Typed(event, "message_end") ==> !ReportsError(event.fields))
  }

  /** A new id, in bounds or denied by the child, and within the limits on calls, edits and tests. */
  predicate GoodStart(capsule: Capsule, limits: Limits, before: seq<Json>, e: Fields) {
    && ToolCallId(e) != "" && !Began(before, ToolCallId(e))
    && (InBounds(capsule, ToolName(e), ToolArgs(e)) || SaysDenied(e))
    && HowMany(before, "tool_execution_start") < limits.calls
    && (ToolName(e) == "edit" ==> CallsOf(before, "edit") < limits.edits)
    && (ToolName(e) == "test" ==> CallsOf(before, "test") < limits.tests)
  }

  lemma FineIsUnopposed(capsule: Capsule, limits: Limits, events: seq<Json>, i: nat)
    requires i < |events|
    ensures FineAt(capsule, limits, events, i) <==> Against(capsule, limits, events[..i], events[i]).None?
  {
    TypesDiffer(events[i]);
    assert "message_update" != "turn_start" && "message_end" != "turn_start" && "message_end" != "tool_execution_end";
    assert Typed(events[i], "message_update") ==> !Typed(events[i], "tool_execution_start") && !Typed(events[i], "tool_execution_end")
                                                  && !Typed(events[i], "turn_start");
    assert Typed(events[i], "message_end") ==> !Typed(events[i], "tool_execution_start") && !Typed(events[i], "tool_execution_end")
                                               && !Typed(events[i], "turn_start");
  }

  lemma {:induction false} NoStopIff(capsule: Capsule, limits: Limits, events: seq<Json>)
    ensures FirstStop(capsule, limits, events).None? <==> forall i :: 0 <= i < |events| ==> FineAt(capsule, limits, events, i)
  {
    if events != [] {
      var n := |events| - 1;
      NoStopIff(capsule, limits, events[..n]);
      forall i | 0 <= i < n ensures FineAt(capsule, limits, events[..n], i) <==> FineAt(capsule, limits, events, i) {
        assert events[..n][..i] == events[..i];
      }
      FineIsUnopposed(capsule, limits, events, n);
    }
  }

  /** A stream is accepted exactly when the child exits cleanly, every event is fine, the agent has ended and
      no call is left without its result. */
  lemma AcceptedIff(capsule: Capsule, limits: Limits, events: seq<Json>, code: int)
    ensures Judge(After(capsule, limits, events), code) == StreamAccepted <==>
              && code == 0
              && (forall i :: 0 <= i < |events| ==> FineAt(capsule, limits, events, i))
              && SawEnd(events)
              && Settled(events)
  {
    VerdictIs(capsule, limits, events, code);
    NoStopIff(capsule, limits, events);
  }
}
