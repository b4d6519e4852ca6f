// The runner's event loop: its own bookkeeping of a child's stream, and why it stops a child.

module Runner {
  import opened Basics
  import opened EventStream

  /** Which paths a run may write and read. */
  datatype Capsule = Capsule(mutable: string -> bool, readable: string -> bool)

  datatype Limits = Limits(turns: nat, calls: nat, edits: nat, tests: nat)

  datatype Stop =
    | Malformed | RetryForbidden | CompactionForbidden
    | TurnBudget | DuplicateCall | ScopeViolation | ToolBudget | RepeatedMutationOrTest
    | UnmatchedResult | ProviderError

  datatype Book = Book(
    turns: nat, calls: nat, pending: map<string, string>, completed: set<string>, counts: map<string, nat>, ended: bool)

  const Blank := Book(0, 0, map[], {}, map[], false)

  predicate Truthy(v: Json) {
    match v
    case Null => false
    case Bool(b) => b
    case Int(n) => n != 0
    case Text(s) => s != ""
    case Object(fields) => fields != map[]
    case Other(truthy) => truthy
  }

  function TextOr(v: Json): string {
    if v.Text? then v.text else ""
  }

  /** The value of the first key that is present at all, else null. */
  function FirstOf(e: Fields, key: string, alias: string): Json {
    if key in e then e[key] else Get(e, alias)
  }

  function ToolName(e: Fields): string {
    TextOr(FirstOf(e, "toolName", "tool_name"))
  }

  function ToolCallId(e: Fields): string {
    TextOr(if "toolCallId" in e then e["toolCallId"] else FirstOf(e, "tool_call_id", "id"))
  }

  function ToolArgs(e: Fields): Fields {
    var args := FirstOf(e, "args", "input");
    if args.Object? then args.fields else map[]
  }

  predicate Violates(capsule: Capsule, name: string, args: Fields) {
    var path := Get(args, "path");
    if name !in ALLOWED_TOOLS then true
    else if name == "edit" then !(path.Text? && capsule.mutable(path.text))
    else if name == "list" && path == Text(".") then false
    else if name == "list" || name == "read" then !(path.Text? && capsule.readable(path.text))
    else if name == "search" && path != Null then !(path.Text? && capsule.readable(path.text))
    else false
  }

  /** A refusal the child reports itself excuses a call outside the scope. */
  predicate TypedDenial(e: Fields) {
    TextOr(Get(e, "denied")) != ""
  }

  predicate OutOfScope(capsule: Capsule, e: Fields) {
    Violates(capsule, ToolName(e), ToolArgs(e)) && !TypedDenial(e)
  }

  function CountOf(counts: map<string, nat>, name: string): nat {
    if name in counts then counts[name] else 0
  }

  predicate OverCallLimit(limits: Limits, counts: map<string, nat>, name: string) {
    || (name == "edit" && CountOf(counts, name) > limits.edits)
    || (name == "test" && CountOf(counts, name) > limits.tests)
  }

  predicate AssistantFailed(e: Fields) {
    var message, assistant := Get(e, "message"), Get(e, "assistantMessageEvent");
    || (message.Object? && FirstOf(message.fields, "stopReason", "stop_reason") == Text("error"))
    || (message.Object? && Truthy(FirstOf(message.fields, "errorMessage", "error_message")))
    || (assistant.Object? && Get(assistant.fields, "type") == Text("error")
        && (Truthy(Get(assistant.fields, "error")) || Truthy(Get(assistant.fields, "errorMessage"))))
  }

  function Opened(b: Book, e: Fields): Book {
    var name := ToolName(e);
    b.(calls := b.calls + 1, pending := b.pending[ToolCallId(e) := name], counts := b.counts[name := CountOf(b.counts, name) + 1])
  }

  function OnStart(capsule: Capsule, limits: Limits, b: Book, e: Fields): Result<Book, Stop> {
    var id := ToolCallId(e);
    if id == "" || id in b.pending || id in b.completed then Err(DuplicateCall)
    else if OutOfScope(capsule, e) then Err(ScopeViolation)
    else if b.calls + 1 > limits.calls then Err(ToolBudget)
    else if OverCallLimit(limits, Opened(b, e).counts, ToolName(e)) then Err(RepeatedMutationOrTest)
    else Ok(Opened(b, e))
  }

  function OnEnd(b: Book, e: Fields): Result<Book, Stop> {
    var id := ToolCallId(e);
    if id == "" || id !in b.pending || b.pending[id] != ToolName(e) then Err(UnmatchedResult)
    else Ok(b.(pending := b.pending - {id}, completed := b.completed + {id}))
  }

  function Step(capsule: Capsule, limits: Limits, b: Book, event: Json): Result<Book, Stop> {
    if !event.Object? then Err(Malformed)
    else if Contains(Folded(TypeName(event.fields)), "retry") then Err(RetryForbidden)
    else if Contains(Folded(TypeName(event.fields)), "compaction") then Err(CompactionForbidden)
    else
      match TypeOf(event.fields)
      case TurnStart => if b.turns + 1 > limits.turns then Err(TurnBudget) else Ok(b.(turns := b.turns + 1))
      case ToolStart => OnStart(capsule, limits, b, event.fields)
      case ToolEnd => OnEnd(b, event.fields)
      case MessageUpdate => if AssistantFailed(event.fields) then Err(ProviderError) else Ok(b)
      case MessageEnd => if AssistantFailed(event.fields) then Err(ProviderError) else Ok(b)
      case AgentEnd => Ok(b.(ended := true))
      case _ => Ok(b)
  }

  function After(capsule: Capsule, limits: Limits, events: seq<Json>): Result<Book, Stop> {
    if events == [] then Ok(Blank)
    else
      match After(capsule, limits, events[..|events| - 1])
      case Err(x) => Err(x)
      case Ok(b) => Step(capsule, limits, b, events[|events| - 1])
  }

  lemma {:induction false} StopStays(capsule: Capsule, limits: Limits, events: seq<Json>, n: nat)
    requires n <= |events| && After(capsule, limits, events[..n]).Err?
    ensures After(capsule, limits, events) == After(capsule, limits, events[..n])
    decreases |events|
  {
    if n < |events| {
      assert events[..|events| - 1][..n] == events[..n];
      StopStays(capsule, limits, events[..|events| - 1], n);
    } else {
      assert events[..n] == events;
    }
  }

  datatype Verdict = StoppedFor(stop: Stop) | ChildExitNonzero | NoAgentEnd | UnresolvedCalls | StreamAccepted

  function Judge(read: Result<Book, Stop>, returnCode: int): Verdict {
    match read
    case Err(stop) => StoppedFor(stop)
    case Ok(b) =>
      if returnCode != 0 then ChildExitNonzero
      else if !b.ended then NoAgentEnd
      else if b.pending != map[] then UnresolvedCalls
      else StreamAccepted
  }

  /** One turn of the loop. */
  method ReadEvent(capsule: Capsule, limits: Limits, book: Book, event: Json) returns (r: Result<Book, Stop>)
    ensures r == Step(capsule, limits, book, event)
  {
    if !event.Object? { return Err(Malformed); }
    var e := event.fields;
    var lower := Folded(TypeName(e));
    if Contains(lower, "retry") { return Err(RetryForbidden); }
    if Contains(lower, "compaction") { return Err(CompactionForbidden); }
    match TypeOf(e) {
      case TurnStart =>
        var turns := book.turns + 1;
        return if turns > limits.turns then Err(TurnBudget) else Ok(book.(turns := turns));
      case ToolStart => r := StartTool(capsule, limits, book, e);
      case ToolEnd =>
        var name, id := ToolName(e), ToolCallId(e);
        if id == "" || id !in book.pending || book.pending[id] != name { return Err(UnmatchedResult); }
        return Ok(book.(pending := book.pending - {id}, completed := book.completed + {id}));
      case MessageUpdate => return if AssistantFailed(e) then Err(ProviderError) else Ok(book);
      case MessageEnd => return if AssistantFailed(e) then Err(ProviderError) else Ok(book);
      case AgentEnd => return Ok(book.(ended := true));
      case _ => return Ok(book);
    }
  }

  method StartTool(capsule: Capsule, limits: Limits, book: Book, e: Fields) returns (r: Result<Book, Stop>)
    ensures r == OnStart(capsule, limits, book, e)
  {
    var calls := book.calls + 1;
    var name, id := ToolName(e), ToolCallId(e);
    if id == "" || id in book.pending || id in book.completed { return Err(DuplicateCall); }
    var pending := book.pending[id := name];
    var counts := book.counts[name := CountOf(book.counts, name) + 1];
    if Violates(capsule, name, ToolArgs(e)) && !TypedDenial(e) { return Err(ScopeViolation); }
    if calls > limits.calls { return Err(ToolBudget); }
    if OverCallLimit(limits, counts, name) { return Err(RepeatedMutationOrTest); }
    return Ok(book.(calls := calls, pending := pending, counts := counts));
  }

  /** The loop over a child's stream and the checks at its end. */
  method Run(capsule: Capsule, limits: Limits, events: seq<Json>, returnCode: int) returns (verdict: Verdict)
    ensures verdict == Judge(After(capsule, limits, events), returnCode)
  {
    var book, i := Blank, 0;
    while i < |events|
      invariant i <= |events| && After(capsule, limits, events[..i]) == Ok(book)
    {
      assert events[..i + 1][..i] == events[..i];
      var r := ReadEvent(capsule, limits, book, events[i]);
      i := i + 1;
      if r.Err? {
        StopStays(capsule, limits, events, i);
        return StoppedFor(r.error);
      }
      book := r.value;
    }
    assert events[..i] == events;
    if returnCode != 0 { return ChildExitNonzero; }
    if !book.ended { return NoAgentEnd; }
    if book.pending != map[] { return UnresolvedCalls; }
    return StreamAccepted;
  }
}
