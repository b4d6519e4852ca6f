// The bridge relays a child's events to the runner until the audit objects; the two together.

module Bridge {
  import opened Basics
  import opened EventStream
  import EventAudit
  import Runner
  import RunnerMeaning
  import AuditMeaning
  import opened AuditTraces
  import opened AuditSimulation

  const FAULT_MESSAGE: Json :=
    Object(map["type" := Text("message_end"),
               "message" := Object(map["stopReason" := Text("error"), "errorMessage" := Text("DeepSeek live-event protocol violation")])])

  const FAULT_CODE := 2

  /** The length of the longest prefix that passes, of those all of whose prefixes pass. */
  function Longest(ok: seq<Json> -> bool, s: seq<Json>): (n: nat)
    requires ok([])
    ensures n <= |s| && ok(s[..n])
    ensures n < |s| ==> !ok(s[..n + 1])
  {
    if s == [] then 0
    else
      var front := s[..|s| - 1];
      var n := Longest(ok, front);
      assert front[..n] == s[..n];
      if n < |front| then
        assert front[..n + 1] == s[..n + 1];
        n
      else
        assert s[..n + 1] == s;
        if ok(s) then |s| else n
  }

  /** How many events the audit accepts before it objects. */
  function Accepts(budgets: EventAudit.Budgets, child: seq<Json>): (n: nat)
    ensures n <= |child| && Accepted(budgets, child[..n])
    ensures n < |child| ==> !Accepted(budgets, child[..n + 1])
  {
    Longest((s: seq<Json>) => EventAudit.After(budgets, s).Ok?, child)
  }

  predicate Finished(budgets: EventAudit.Budgets, child: seq<Json>) {
    EventAudit.After(budgets, child).Ok? && EventAudit.After(budgets, child).value.ended
  }

  /** Feeds the child's events to the audit, up to the first fault. */
  method Feed(budgets: EventAudit.Budgets, child: seq<Json>) returns (n: nat, finished: bool)
    ensures n == Accepts(budgets, child)
    ensures finished <==> Finished(budgets, child)
  {
    var audit := new EventAudit.Auditor(budgets);
    n := 0;
    while n < |child|
      invariant n <= |child| && audit.budgets == budgets
      invariant EventAudit.After(budgets, child[..n]) == Ok(audit.State())
    {
      assert child[..n + 1][..n] == child[..n];
      var fault := audit.Accept(child[n]);
      if fault.Some? {
        StopsHere(budgets, child, n);
        return n, false;
      }
      n := n + 1;
    }
    assert child[..n] == child;
    StopsHere(budgets, child, n);
    var fault := audit.Finish();
    return n, fault.None?;
  }

  /** What the bridge emits for a child's stream, and its own exit code. */
  method Relay(budgets: EventAudit.Budgets, child: seq<Json>, childCode: int) returns (out: seq<Json>, code: int)
    ensures out == Relayed(budgets, child)
    ensures code == if Finished(budgets, child) then childCode else FAULT_CODE
    ensures if Unobjectionable(budgets, child) then out == child && code == childCode
            else code == 2 && |out| > 0 && RunnerMeaning.Typed(out[|out| - 1], "message_end")
                 && RunnerMeaning.ReportsError(out[|out| - 1].fields) && out[..|out| - 1] <= child
  {
    FaultReported();
    FinishedIff(budgets, child);
    var n, finished := Feed(budgets, child);
    if finished { return child, childCode; }
    return child[..n] + [FAULT_MESSAGE], FAULT_CODE;
  }

  /** No event of the child is objectionable, and the agent has ended. */
  ghost predicate Unobjectionable(budgets: EventAudit.Budgets, child: seq<Json>) {
    (forall i :: 0 <= i < |child| ==> AuditMeaning.Unopposed(budgets, child, i)) && AuditMeaning.Ended(child)
  }

  lemma FinishedIff(budgets: EventAudit.Budgets, child: seq<Json>)
    ensures Finished(budgets, child) <==> Unobjectionable(budgets, child)
  {
    AuditMeaning.AuditIs(budgets, child);
  }

  /** The fault message is one that the runner reads as an error of the provider. */
  lemma FaultReported()
    ensures RunnerMeaning.Typed(FAULT_MESSAGE, "message_end") && RunnerMeaning.ReportsError(FAULT_MESSAGE.fields)
  {
  }

  lemma AcceptedUpTo(budgets: EventAudit.Budgets, child: seq<Json>, n: nat, m: nat)
    requires n <= m <= |child| && Accepted(budgets, child[..m])
    ensures Accepted(budgets, child[..n])
  {
    EventAudit.AcceptedPrefix(budgets, child[..m], n);
    assert child[..m][..n] == child[..n];
  }

  lemma StopsHere(budgets: EventAudit.Budgets, child: seq<Json>, n: nat)
    requires n <= |child| && Accepted(budgets, child[..n])
    requires n < |child| ==> !Accepted(budgets, child[..n + 1])
    ensures Accepts(budgets, child) == n
    ensures n < |child| ==> !Accepted(budgets, child)
  {
    var m := Accepts(budgets, child);
    if n < |child| && Accepted(budgets, child) { EventAudit.AcceptedPrefix(budgets, child, n + 1); }
    if m < n { AcceptedUpTo(budgets, child, m + 1, n); }
    if n < m { AcceptedUpTo(budgets, child, n + 1, m); }
  }

  /** What the runner sees of a child behind the bridge. */
  function Relayed(budgets: EventAudit.Budgets, child: seq<Json>): seq<Json> {
    if Finished(budgets, child) then child else child[..Accepts(budgets, child)] + [FAULT_MESSAGE]
  }

  /** Behind the bridge the runner accepts a child exactly when the audit accepts its whole stream up to
      the agent's end, the calls are permitted, and the child exits cleanly. */
  lemma RunnerAcceptsIff(budgets: EventAudit.Budgets, capsule: Runner.Capsule, limits: Runner.Limits, child: seq<Json>, childCode: int)
    requires limits.turns == budgets.turns && limits.calls == budgets.calls
    ensures var code := if Finished(budgets, child) then childCode else FAULT_CODE;
            Runner.Judge(Runner.After(capsule, limits, Relayed(budgets, child)), code) == Runner.StreamAccepted
            <==> Finished(budgets, child) && Permitted(capsule, limits, child) && childCode == 0
  {
    if Finished(budgets, child) {
      assert child == [] ==> EventAudit.After(budgets, child) == Ok(EventAudit.Fresh);
      var n := |child| - 1;
      StepMovesCalls(budgets, EventAudit.After(budgets, child[..n]).value, child[n], EventAudit.After(budgets, child).value);
      AcceptedStreamVerdict(budgets, capsule, limits, child, childCode);
    } else {
    }
  }
}
