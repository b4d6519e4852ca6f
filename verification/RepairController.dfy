// The repair controller: how often a worker may try to mend a failing command.

module RepairController {
  import opened Basics

  datatype Event =
    | Call(id: Option<string>, tool: string)
    | Outcome(callId: string, tool: string, isError: bool, passed: Option<bool>, exitCode: Option<int>, signature: string)
    | Note

  datatype Refusal = ThirdRepair | EditRequired | NoSignature | SameFailure

  datatype State = State(
    calls: map<string, string>, signatures: set<string>, pending: Option<string>, baseline: Option<string>,
    edits: nat, repairs: nat, lastCall: Option<string>, lastFailed: bool)

  const Start := State(map[], {}, None, None, 0, 0, None, false)

  predicate Edits(tool: string) { tool == "edit" || tool == "write_file" }

  predicate Gated(tool: string) { tool == "pwsh" || tool == "test" }

  predicate Verifies(tool: string) { Gated(tool) || tool == "run_shell_command" }

  predicate Failed(e: Event)
    requires e.Outcome?
  {
    e.isError || e.passed == Some(false) || (e.exitCode.Some? && e.exitCode.value != 0)
  }

  function OnCall(s: State, e: Event): Result<State, Refusal>
    requires e.Call?
  {
    var known := s.(calls := if e.id.Some? then s.calls[e.id.value := e.tool] else s.calls);
    if Edits(e.tool) then
      if s.pending.None? then Ok(known.(edits := s.edits + 1))
      else if s.repairs + 1 > 2 then Err(ThirdRepair)
      else Ok(known.(edits := s.edits + 1, repairs := s.repairs + 1, pending := None))
    else if Gated(e.tool) && s.pending.Some? then Err(EditRequired)
    else Ok(known)
  }

  function OnOutcome(s: State, e: Event): Result<State, Refusal>
    requires e.Outcome? && Verifies(e.tool)
  {
    var seen := s.(lastCall := if e.callId in s.calls then Some(e.callId) else None, lastFailed := Failed(e));
    if !Failed(e) then Ok(seen.(pending := None))
    else if e.signature == "" then Err(NoSignature)
    else if e.signature in s.signatures then Err(SameFailure)
    else if s.edits > 0 then Ok(seen.(signatures := s.signatures + {e.signature}, pending := Some(e.signature)))
    else Ok(seen.(signatures := s.signatures + {e.signature}, baseline := Some(e.signature)))
  }

  function Step(s: State, e: Event): Result<State, Refusal> {
    match e
    case Call(_, _) => OnCall(s, e)
    case Outcome(_, tool, _, _, _, _) => if Verifies(tool) then OnOutcome(s, e) else Ok(s)
    case Note => Ok(s)
  }

  function After(events: seq<Event>): Result<State, Refusal> {
    if events == [] then Ok(Start)
    else
      match After(events[..|events| - 1])
      case Err(x) => Err(x)
      case Ok(s) => Step(s, events[|events| - 1])
  }

  class Controller {
    var calls: map<string, string>
    var signatures: set<string>
    var pending: Option<string>
    var baseline: Option<string>
    var edits: nat
    var repairs: nat
    var lastCall: Option<string>
    var lastFailed: bool
    var trajectory: seq<Event>

    constructor ()
      ensures Abstract() == Start && trajectory == []
    {
      calls, signatures, pending, baseline, edits, repairs := map[], {}, None, None, 0, 0;
      lastCall, lastFailed, trajectory := None, false, [];
    }

    function Abstract(): State reads this {
      State(calls, signatures, pending, baseline, edits, repairs, lastCall, lastFailed)
    }

    /** An event that is not refused moves the state as specified and is written down. */
    method Observe(e: Event) returns (refusal: Option<Refusal>)
      modifies this
      ensures match Step(old(Abstract()), e)
              case Ok(s) => refusal == None && Abstract() == s && trajectory == old(trajectory) + [e]
              case Err(x) => refusal == Some(x) && trajectory == old(trajectory)
    {
      if e.Call? {
        if e.id.Some? { calls := calls[e.id.value := e.tool]; }
        if Edits(e.tool) {
          edits := edits + 1;
          if pending.Some? {
            repairs := repairs + 1;
            if repairs > 2 { return Some(ThirdRepair); }
            pending := None;
          }
        } else if Gated(e.tool) && pending.Some? {
          return Some(EditRequired);
        }
      } else if e.Outcome? && Verifies(e.tool) {
        lastCall := if e.callId in calls then Some(e.callId) else None;
        lastFailed := Failed(e);
        if Failed(e) {
          if e.signature == "" { return Some(NoSignature); }
          if e.signature in signatures { return Some(SameFailure); }
          signatures := signatures + {e.signature};
          if edits > 0 { pending := Some(e.signature); } else { baseline := Some(e.signature); }
        } else {
          pending := None;
        }
      }
      trajectory := trajectory + [e];
      return None;
    }
  }

  // -- what an accepted run looks like --

  ghost predicate Accepted(events: seq<Event>) { After(events).Ok? }

  predicate IsEdit(e: Event) { e.Call? && Edits(e.tool) }

  predicate IsFailure(e: Event) { e.Outcome? && Verifies(e.tool) && Failed(e) }

  /** The call whose result is still to come, when results come before the next call. */
  function OpenCall(events: seq<Event>): Option<(string, string)> {
    if events == [] then None
    else
      var e := events[|events| - 1];
      if e.Call? && e.id.Some? then Some((e.id.value, e.tool))
      else if e.Outcome? then None
      else OpenCall(events[..|events| - 1])
  }

  /** `e` follows `events` in order: results come before the next call and answer the open one. */
  predicate InOrder(events: seq<Event>, e: Event) {
    match e
    case Call(id, tool) => id.Some? && OpenCall(events).None? && tool != "run_shell_command"
    case Outcome(id, tool, _, _, _, _) => OpenCall(events) == Some((id, tool))
    case Note => true
  }

  ghost predicate OneAtATime(events: seq<Event>) {
    forall i :: 0 <= i < |events| ==> InOrder(events[..i], events[i])
  }

  predicate Edited(events: seq<Event>) {
    exists i :: 0 <= i < |events| && IsEdit(events[i])
  }

  /** Commands that failed after the first edit. */
  function Failures(events: seq<Event>): (n: nat) {
    if events == [] then 0
    else
      var front := events[..|events| - 1];
      Failures(front) + if IsFailure(events[|events| - 1]) && Edited(front) then 1 else 0
  }

  lemma {:induction false} SignaturesRecorded(events: seq<Event>, i: nat)
    requires Accepted(events) && i < |events| && IsFailure(events[i])
    ensures events[i].signature in After(events).value.signatures
  {
    if i < |events| - 1 { SignaturesRecorded(events[..|events| - 1], i); }
  }

  /** In every accepted run, no failure repeats the evidence of an earlier one. */
  lemma {:induction false} FailuresDiffer(events: seq<Event>, i: nat, j: nat)
    requires Accepted(events) && i < j < |events| && IsFailure(events[i]) && IsFailure(events[j])
    ensures events[i].signature != events[j].signature
  {
    if j == |events| - 1 {
      SignaturesRecorded(events[..j], i);
    } else {
      FailuresDiffer(events[..|events| - 1], i, j);
    }
  }

  lemma {:induction false} EditsCounted(events: seq<Event>)
    requires Accepted(events)
    ensures After(events).value.edits > 0 <==> Edited(events)
  {
    if events != [] {
      var front := events[..|events| - 1];
      EditsCounted(front);
      assert forall i :: 0 <= i < |front| ==> front[i] == events[i];
      assert Edited(events) <==> Edited(front) || IsEdit(events[|events| - 1]);
    }
  }

  /** The bookkeeping of repairs: each one answers a failure, and at most one failure is unanswered. */
  ghost predicate Balanced(events: seq<Event>, s: State) {
    && Failures(events) == s.repairs + (if s.pending.Some? then 1 else 0)
    && s.repairs <= 2
    && (OpenCall(events).Some? ==> !Edits(OpenCall(events).value.1) && Gated(OpenCall(events).value.1) ==> s.pending.None?)
    && (OpenCall(events).Some? ==> OpenCall(events).value.1 != "run_shell_command")
  }

  lemma {:induction false} RepairsBalance(events: seq<Event>)
    requires Accepted(events) && OneAtATime(events)
    ensures Balanced(events, After(events).value)
  {
    if events != [] {
      var front, e := events[..|events| - 1], events[|events| - 1];
      OrderedPrefix(events, |events| - 1);
      RepairsBalance(front);
      EditsCounted(front);
      assert InOrder(front, e);
    }
  }

  /** Run one command at a time, at most three fail after the first edit. */
  lemma AtMostThreeFailures(events: seq<Event>)
    requires Accepted(events) && OneAtATime(events)
    ensures Failures(events) <= 3
  {
    RepairsBalance(events);
  }

  lemma OrderedPrefix(events: seq<Event>, n: nat)
    requires OneAtATime(events) && n <= |events|
    ensures OneAtATime(events[..n])
  {
    var part := events[..n];
    forall k | 0 <= k < |part| ensures InOrder(part[..k], part[k]) {
      assert InOrder(events[..k], events[k]);
      assert part[..k] == events[..k];
    }
  }

  /** A failure is waiting for an edit, and no command is running. */
  ghost predicate Stuck(events: seq<Event>, s: State) {
    && s.pending.Some?
    && (OpenCall(events).Some? ==> !Gated(OpenCall(events).value.1) && OpenCall(events).value.1 != "run_shell_command")
  }

  lemma OpenNext(events: seq<Event>, n: nat)
    requires n < |events|
    ensures OpenCall(events[..n + 1]) ==
            match events[n]
            case Call(id, tool) => if id.Some? then Some((id.value, tool)) else OpenCall(events[..n])
            case Outcome(_, _, _, _, _, _) => None
            case Note => OpenCall(events[..n])
  {
    assert events[..n + 1][..n] == events[..n];
  }

  lemma StillStuck(events: seq<Event>, n: nat, s: State, next: State)
    requires n < |events| && Stuck(events[..n], s) && InOrder(events[..n], events[n])
    requires !IsEdit(events[n]) && Step(s, events[n]) == Ok(next)
    ensures Stuck(events[..n + 1], next) && !IsFailure(events[n])
  {
    OpenNext(events, n);
  }

  lemma FailureSticks(events: seq<Event>, n: nat, s: State, next: State)
    requires n < |events| && IsFailure(events[n]) && s.edits > 0 && Step(s, events[n]) == Ok(next)
    ensures Stuck(events[..n + 1], next)
  {
    OpenNext(events, n);
  }

  ghost predicate StepAt(states: seq<State>, events: seq<Event>, i: nat) {
    i < |events| && i + 1 < |states| && Step(states[i], events[i]) == Ok(states[i + 1])
  }

  /** The controller's states along an accepted run. */
  ghost predicate RunOf(states: seq<State>, events: seq<Event>) {
    |states| == |events| + 1 && states[0] == Start && forall i :: 0 <= i < |events| ==> StepAt(states, events, i)
  }

  lemma {:induction false} AcceptedHasRun(events: seq<Event>)
    requires Accepted(events)
    ensures exists states :: RunOf(states, events) && states[|events|] == After(events).value
  {
    if events == [] {
      assert RunOf([Start], events);
    } else {
      var n := |events| - 1;
      AcceptedHasRun(events[..n]);
      var states :| RunOf(states, events[..n]) && states[n] == After(events[..n]).value;
      var longer := states + [After(events).value];
      forall i | 0 <= i < |events| ensures StepAt(longer, events, i) {
        if i < n { assert StepAt(states, events[..n], i); }
      }
      assert RunOf(longer, events);
    }
  }

  lemma {:induction false} EditedCounts(states: seq<State>, events: seq<Event>, i: nat, n: nat)
    requires RunOf(states, events) && i < n <= |events| && IsEdit(events[i])
    ensures states[n].edits > 0
  {
    assert StepAt(states, events, n - 1);
    if i < n - 1 { EditedCounts(states, events, i, n - 1); }
  }

  lemma StuckNext(states: seq<State>, events: seq<Event>, n: nat)
    requires RunOf(states, events) && OneAtATime(events) && n < |events|
    requires Stuck(events[..n], states[n]) && !IsEdit(events[n])
    ensures Stuck(events[..n + 1], states[n + 1]) && !IsFailure(events[n])
  {
    assert StepAt(states, events, n);
    assert InOrder(events[..n], events[n]);
    StillStuck(events, n, states[n], states[n + 1]);
  }

  lemma StuckAt(states: seq<State>, events: seq<Event>, e: nat, i: nat)
    requires RunOf(states, events) && e < i < |events| && IsEdit(events[e]) && IsFailure(events[i])
    ensures Stuck(events[..i + 1], states[i + 1])
  {
    assert StepAt(states, events, i);
    EditedCounts(states, events, e, i);
    FailureSticks(events, i, states[i], states[i + 1]);
  }

  /** Once a command has failed, nothing fails again before an edit. */
  lemma {:induction false} PendingUntilEdit(states: seq<State>, events: seq<Event>, e: nat, i: nat, n: nat)
    requires RunOf(states, events) && OneAtATime(events)
    requires e < i < n <= |events| && IsEdit(events[e]) && IsFailure(events[i])
    requires forall k :: i < k < n ==> !IsEdit(events[k])
    ensures Stuck(events[..n], states[n])
    ensures forall k :: i < k < n ==> !IsFailure(events[k])
  {
    if i == n - 1 {
      StuckAt(states, events, e, i);
    } else {
      PendingUntilEdit(states, events, e, i, n - 1);
      StuckNext(states, events, n - 1);
    }
  }

  lemma EditBetween(states: seq<State>, events: seq<Event>, e: nat, i: nat, j: nat)
    requires RunOf(states, events) && OneAtATime(events)
    requires e < i < j < |events| && IsEdit(events[e]) && IsFailure(events[i]) && IsFailure(events[j])
    ensures exists k :: i < k < j && IsEdit(events[k])
  {
    if forall k :: i < k < j ==> !IsEdit(events[k]) { PendingUntilEdit(states, events, e, i, j + 1); }
  }

  ghost function StatesOf(events: seq<Event>): (states: seq<State>)
    requires Accepted(events)
    ensures RunOf(states, events)
  {
    AcceptedHasRun(events);
    var states :| RunOf(states, events);
    states
  }

  /** Between two failures after the first edit there is another edit. */
  lemma EditBetweenFailures(events: seq<Event>, i: nat, j: nat)
    requires Accepted(events) && OneAtATime(events)
    requires i < j < |events| && IsFailure(events[i]) && IsFailure(events[j]) && Edited(events[..i])
    ensures exists k :: i < k < j && IsEdit(events[k])
  {
    var e :| 0 <= e < |events[..i]| && IsEdit(events[..i][e]);
    EditBetween(StatesOf(events), events, e, i, j);
  }

  function Evidence(n: nat): (r: string)
    ensures |r| == n + 1
  {
    seq(n + 1, i => 'e')
  }

  /** One edit, then shell commands that keep failing. */
  function ShellRun(n: nat): seq<Event> {
    if n == 0 then [Call(Some("0"), "edit"), Outcome("0", "edit", false, None, None, "")]
    else ShellRun(n - 1) + [Call(Some("c"), "run_shell_command"), Outcome("c", "run_shell_command", true, None, None, Evidence(n))]
  }

  lemma ShellStep(events: seq<Event>, n: nat, s: State)
    requires After(events) == Ok(s) && s.edits > 0 && Edited(events)
    requires forall x :: x in s.signatures ==> |x| <= n
    ensures var more := events + [Call(Some("c"), "run_shell_command"), Outcome("c", "run_shell_command", true, None, None, Evidence(n))];
            && Accepted(more) && After(more).value.edits > 0 && Edited(more) && Failures(more) == Failures(events) + 1
            && forall x :: x in After(more).value.signatures ==> |x| <= n + 1
  {
    var call, outcome := Call(Some("c"), "run_shell_command"), Outcome("c", "run_shell_command", true, None, None, Evidence(n));
    var mid := events + [call];
    assert mid[..|mid| - 1] == events;
    assert After(mid) == Step(s, call) == Ok(s.(calls := s.calls["c" := "run_shell_command"]));
    var i :| 0 <= i < |events| && IsEdit(events[i]);
    assert IsEdit(mid[i]);
    var more := mid + [outcome];
    assert more[..|more| - 1] == mid;
    assert more == events + [call, outcome];
    assert IsEdit(more[i]);
    assert !IsFailure(call);
  }

  /** The bound is for gated commands only: any number of `run_shell_command` calls may fail after one edit. */
  lemma {:induction false} ShellIsUnbounded(n: nat)
    ensures Accepted(ShellRun(n)) && Failures(ShellRun(n)) == n
    ensures After(ShellRun(n)).value.edits > 0 && Edited(ShellRun(n))
    ensures forall x :: x in After(ShellRun(n)).value.signatures ==> |x| <= n + 1
  {
    if n == 0 {
      var run := ShellRun(0);
      assert run[..1] == [run[0]] && run[..1][..0] == [];
      assert IsEdit(run[0]) && !IsFailure(run[0]) && !IsFailure(run[1]);
      assert After(run[..1]) == Ok(Start.(calls := map["0" := "edit"], edits := 1));
      assert After(run) == Step(After(run[..1]).value, run[1]);
      assert Failures(run[..1]) == 0;
    } else {
      ShellIsUnbounded(n - 1);
      ShellStep(ShellRun(n - 1), n, After(ShellRun(n - 1)).value);
    }
  }

  // -- what the controller allows at all, without any order of calls and results --

  /** Which events the controller is about: edits and file writes; results of `pwsh`, `test` and
      `run_shell_command` that report an error, a missed check or an exit code; and calls of the first two. */
  lemma EventsMean(e: Event)
    ensures IsEdit(e) <==> e.Call? && (e.tool == "edit" || e.tool == "write_file")
    ensures e.Call? ==> (Gated(e.tool) <==> e.tool == "pwsh" || e.tool == "test")
    ensures IsFailure(e) <==>
              && e.Outcome? && (e.tool == "pwsh" || e.tool == "test" || e.tool == "run_shell_command")
              && (e.isError || e.passed == Some(false) || (e.exitCode.Some? && e.exitCode != Some(0)))
  {
  }

  /** The tool last called under this id. */
  function CalledAs(events: seq<Event>, id: string): Option<string> {
    if events == [] then None
    else
      var e := events[|events| - 1];
      if e.Call? && e.id == Some(id) then Some(e.tool) else CalledAs(events[..|events| - 1], id)
  }

  /** Whether the last result that counts was a failure. */
  predicate LastFailed(events: seq<Event>) {
    events != [] &&
    var e := events[|events| - 1];
    if e.Outcome? && Verifies(e.tool) then IsFailure(e) else LastFailed(events[..|events| - 1])
  }

  /** The evidence of the last failure before any edit. */
  function BaselineOf(events: seq<Event>): Option<string> {
    if events == [] then None
    else
      var front, e := events[..|events| - 1], events[|events| - 1];
      if IsFailure(e) && !Edited(front) then Some(e.signature) else BaselineOf(front)
  }

  /** The last edit or result that counts is a failure after the first edit. */
  predicate Waiting(events: seq<Event>) {
    events != [] &&
    var front, e := events[..|events| - 1], events[|events| - 1];
    if IsEdit(e) then false
    else if e.Outcome? && Verifies(e.tool) then Failed(e) && Edited(front)
    else Waiting(front)
  }

  /** Edits that answer a failure. */
  function Answers(events: seq<Event>): (n: nat) {
    if events == [] then 0
    else
      var front := events[..|events| - 1];
      Answers(front) + if IsEdit(events[|events| - 1]) && Waiting(front) then 1 else 0
  }

  /** Results that arrive while a failure waits for its edit: they take its place or clear it. */
  function Displaced(events: seq<Event>): (n: nat) {
    if events == [] then 0
    else
      var front, e := events[..|events| - 1], events[|events| - 1];
      Displaced(front) + if e.Outcome? && Verifies(e.tool) && Waiting(front) then 1 else 0
  }

  /** What the controller lets through behind `front`. */
  ghost predicate Permits(front: seq<Event>, e: Event) {
    if IsEdit(e) then Waiting(front) ==> Answers(front) < 2
    else if e.Call? then Gated(e.tool) ==> !Waiting(front)
    else IsFailure(e) ==>
           e.signature != "" && forall i :: 0 <= i < |front| && IsFailure(front[i]) ==> front[i].signature != e.signature
  }

  ghost predicate PermitsAt(events: seq<Event>, i: nat) {
    i < |events| && Permits(events[..i], events[i])
  }

  /** The state as a reading of the events so far. */
  ghost predicate Reads(events: seq<Event>, s: State) {
    && (s.pending.Some? <==> Waiting(events))
    && s.repairs == Answers(events) <= 2
    && (s.edits > 0 <==> Edited(events))
    && (Waiting(events) ==> Edited(events))
    && s.lastFailed == LastFailed(events) && s.baseline == BaselineOf(events)
    && (forall id :: (if id in s.calls then Some(s.calls[id]) else None) == CalledAs(events, id))
    && forall x :: x in s.signatures <==> exists i :: 0 <= i < |events| && IsFailure(events[i]) && events[i].signature == x
  }

  lemma EditedNext(front: seq<Event>, e: Event)
    ensures Edited(front + [e]) <==> Edited(front) || IsEdit(e)
    ensures (front + [e])[..|front + [e]| - 1] == front && (front + [e])[|front|] == e
  {
    var more := front + [e];
    if Edited(front) {
      var i :| 0 <= i < |front| && IsEdit(front[i]);
      assert IsEdit(more[i]);
    }
    assert more[..|more| - 1] == front && more[|front|] == e;
  }

  lemma PermitsIff(front: seq<Event>, s: State, e: Event)
    requires Reads(front, s)
    ensures Step(s, e).Ok? <==> Permits(front, e)
  {
  }

  lemma CallsNext(front: seq<Event>, s: State, e: Event)
    requires Step(s, e).Ok? && forall id :: (if id in s.calls then Some(s.calls[id]) else None) == CalledAs(front, id)
    ensures var next := Step(s, e).value;
            forall id :: (if id in next.calls then Some(next.calls[id]) else None) == CalledAs(front + [e], id)
  {
    EditedNext(front, e);
  }

  lemma ReadsNext(front: seq<Event>, s: State, e: Event)
    requires Reads(front, s)
    ensures Step(s, e).Ok? <==> Permits(front, e)
    ensures Step(s, e).Ok? ==> Reads(front + [e], Step(s, e).value)
  {
    EditedNext(front, e);
    PermitsIff(front, s, e);
    if Step(s, e).Ok? {
      SignaturesNext(front, s, e);
      CallsNext(front, s, e);
    }
  }

  lemma SignaturesNext(front: seq<Event>, s: State, e: Event)
    requires Step(s, e).Ok?
    requires forall x :: x in s.signatures <==> exists i :: 0 <= i < |front| && IsFailure(front[i]) && front[i].signature == x
    ensures var more := front + [e];
            forall x :: x in Step(s, e).value.signatures <==> exists i :: 0 <= i < |more| && IsFailure(more[i]) && more[i].signature == x
  {
    var more := front + [e];
    forall x ensures x in Step(s, e).value.signatures <==> exists i :: 0 <= i < |more| && IsFailure(more[i]) && more[i].signature == x {
      if x in s.signatures {
        var i :| 0 <= i < |front| && IsFailure(front[i]) && front[i].signature == x;
        assert more[i] == front[i];
      }
      assert more[|front|] == e;
      assert forall i :: 0 <= i < |front| ==> more[i] == front[i];
    }
  }

  /** The controller accepts exactly the runs in which at most two edits answer a failure, no `pwsh` or
      `test` call starts while a failure waits, and every failure brings new evidence. */
  lemma {:induction false} AcceptedIff(events: seq<Event>)
    ensures Accepted(events) <==> forall i :: 0 <= i < |events| ==> PermitsAt(events, i)
    ensures Accepted(events) ==> Reads(events, After(events).value)
  {
    if events != [] {
      var n := |events| - 1;
      var front := events[..n];
      AcceptedIff(front);
      assert front + [events[n]] == events;
      if Accepted(front) { ReadsNext(front, After(front).value, events[n]); }
      if forall i :: 0 <= i < n ==> PermitsAt(front, i) {
        forall i | 0 <= i < n ensures PermitsAt(events, i) { PermitsBefore(events, n, i); }
        assert PermitsAt(events, n) <==> Permits(front, events[n]);
      }
      if forall i :: 0 <= i < |events| ==> PermitsAt(events, i) {
        forall i | 0 <= i < n ensures PermitsAt(front, i) { PermitsBefore(events, n, i); }
        assert PermitsAt(events, n);
      }
    }
  }

  lemma PermitsBefore(events: seq<Event>, n: nat, i: nat)
    requires i < n <= |events|
    ensures PermitsAt(events[..n], i) <==> PermitsAt(events, i)
  {
    assert events[..n][..i] == events[..i];
  }

  lemma {:induction false} EachFailureAccounted(events: seq<Event>)
    ensures Failures(events) == Answers(events) + Displaced(events) + (if Waiting(events) then 1 else 0)
  {
    if events != [] { EachFailureAccounted(events[..|events| - 1]); }
  }

  /** Whatever the order of calls and results: every failure after the first edit is answered by one of at
      most two edits, is displaced by a later result, or still waits. So at most three fail exactly when
      displaced results leave room for the answers. */
  lemma FailuresAreAccounted(events: seq<Event>)
    requires Accepted(events)
    ensures Answers(events) <= 2
    ensures Failures(events) == Answers(events) + Displaced(events) + (if Waiting(events) then 1 else 0)
    ensures Failures(events) <= 3 + Displaced(events)
  {
    AcceptedIff(events);
    EachFailureAccounted(events);
  }

  /** One edit and `n` calls of `pwsh`, none of which has a result yet. */
  function CallsInFlight(n: nat): seq<Event> {
    if n == 0 then [Call(Some("0"), "edit")]
    else CallsInFlight(n - 1) + [Call(Some(Evidence(n)), "pwsh")]
  }

  /** The first `k` of them have failed, each in its own way. */
  function FailuresInFlight(n: nat, k: nat): seq<Event> {
    if k == 0 then CallsInFlight(n)
    else FailuresInFlight(n, k - 1) + [Outcome(Evidence(k), "pwsh", true, None, None, Evidence(k))]
  }

  /** Edited once, nothing failed, nothing waits. */
  ghost predicate Quiet(run: seq<Event>) {
    && Accepted(run) && Failures(run) == 0 && Edited(run) && After(run).value.edits > 0
    && After(run).value.pending.None? && After(run).value.signatures == {}
  }

  lemma QuietCall(front: seq<Event>, id: string)
    requires Quiet(front)
    ensures Quiet(front + [Call(Some(id), "pwsh")])
  {
    var run := front + [Call(Some(id), "pwsh")];
    assert run[..|run| - 1] == front;
    var i :| 0 <= i < |front| && IsEdit(front[i]);
    assert IsEdit(run[i]);
  }

  lemma {:induction false} CallsAccepted(n: nat)
    ensures Quiet(CallsInFlight(n))
  {
    if n == 0 {
      var run := CallsInFlight(0);
      assert run[..0] == [] && IsEdit(run[0]) && !IsFailure(run[0]);
      assert After(run) == Step(Start, run[0]);
    } else {
      CallsAccepted(n - 1);
      QuietCall(CallsInFlight(n - 1), Evidence(n));
    }
  }

  lemma FailureLands(front: seq<Event>, k: nat)
    requires Accepted(front) && Edited(front) && After(front).value.edits > 0 && k > 0
    requires forall x :: x in After(front).value.signatures ==> |x| <= k
    ensures var run := front + [Outcome(Evidence(k), "pwsh", true, None, None, Evidence(k))];
            && Accepted(run) && Failures(run) == Failures(front) + 1 && Edited(run) && After(run).value.edits > 0
            && forall x :: x in After(run).value.signatures ==> |x| <= k + 1
  {
    var run := front + [Outcome(Evidence(k), "pwsh", true, None, None, Evidence(k))];
    assert run[..|run| - 1] == front && IsFailure(run[|front|]);
    var i :| 0 <= i < |front| && IsEdit(front[i]);
    assert IsEdit(run[i]);
  }

  /** Nor does the bound hold for `pwsh` when calls overlap: any number of calls may start before the first
      result and then fail, all after one edit. */
  lemma {:induction false} OverlapIsUnbounded(n: nat, k: nat)
    requires k <= n
    ensures var run := FailuresInFlight(n, k);
            && Accepted(run) && Failures(run) == k && Edited(run) && After(run).value.edits > 0
            && forall x :: x in After(run).value.signatures ==> |x| <= k + 1
  {
    if k == 0 {
      CallsAccepted(n);
    } else {
      OverlapIsUnbounded(n, k - 1);
      FailureLands(FailuresInFlight(n, k - 1), k);
    }
  }
}
