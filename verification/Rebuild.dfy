// Rebuilding the projection replays every event grouped and sorted, not in append order.
// This module says what order a rebuild may use and proves that it reaches the same tables.

module Rebuild {
  import opened Basics
  import opened BlobCatalog
  import opened DependencyGraph
  import opened Projection

  /** The seven stretches of a replay, in the order they run. */
  function Group(kind: Kind): nat {
    match kind
    case Other(_) => 0
    case Commit(_, _, _, _) => 1
    case StatusChange(_, _, _) => 2
    case State(_, _, _, _) => 3
    case Terminal(_, _) => 4
    case Citation(_, _) => 5
    case Lifecycle(_, _, _) => 6
  }

  /** Order by time, then by identifier. */
  predicate Earlier(a: Event, b: Event) {
    a.at < b.at || (a.at == b.at && a.id.text < b.id.text)
  }

  /** Order of committed states: by task, revision, then identifier. */
  predicate LowerRevision(a: Event, b: Event)
    requires a.kind.State? && b.kind.State?
  {
    || a.kind.task.text < b.kind.task.text
    || (a.kind.task == b.kind.task && a.kind.revision < b.kind.revision)
    || (a.kind.task == b.kind.task && a.kind.revision == b.kind.revision && a.id.text < b.id.text)
  }

  predicate Rehydrates(e: Event, tombstone: Id) {
    e.kind.Lifecycle? && e.kind.step.Rehydrated? && e.kind.step.expected == tombstone
  }

  predicate Retires(e: Event) {
    e.kind.Lifecycle? && e.kind.step.Retired?
  }

  /** Lifecycle event `b` has to follow `a`: the rehydration that consumed its predecessor, or the predecessor. */
  ghost predicate Needs(events: seq<Event>, b: Event, a: Event)
    requires b.kind.Lifecycle?
  {
    match b.kind.step
    case Rehydrated(expected, _) => Retires(a) && a.id == expected
    case Retired(_, previous) =>
      && previous.Some?
      && if exists r :: r in events && Rehydrates(r, previous.value) then Rehydrates(a, previous.value)
         else Retires(a) && a.id == previous.value
  }

  /** A replay of `events` may not put `b` before `a`. */
  ghost predicate Precedes(events: seq<Event>, a: Event, b: Event) {
    || Group(a.kind) < Group(b.kind)
    || (Group(a.kind) == Group(b.kind) &&
        match b.kind
        case Other(_) => false
        case Commit(_, supersedes, _, _) => supersedes == Some(a.kind.memory)
        case StatusChange(_, _, _) => Earlier(a, b)
        case State(_, _, _, _) => LowerRevision(a, b)
        case Terminal(_, _) => Earlier(a, b)
        case Citation(_, _) => Earlier(a, b)
        case Lifecycle(_, _, _) => Needs(events, b, a))
  }

  ghost predicate Respects(events: seq<Event>, order: seq<Event>) {
    forall i, j :: 0 <= i < j < |order| ==> !Precedes(events, order[j], order[i])
  }

  /** What the ordering of a replay promises. */
  ghost predicate IsReplayOrder(events: seq<Event>, order: seq<Event>) {
    Rearranges(order, events) && Respects(events, order)
  }

  /** The payload of an evicted blob is refused before anything is written. */
  predicate Admits(t: Tables, e: Event) {
    e.blob.Some? ==>
      var row := Lookup(t, Blob(e.blob.value)); row.Some? && row.value.Row? ==> row.value.availability != Evicted
  }

  ghost predicate AdmittedAt(log: seq<Event>, i: nat) {
    i < |log| && (log[i].blob.Some? ==> Run(log[..i]).Some? && Admits(Run(log[..i]).value, log[i]))
  }

  /** A log that append built: fresh event ids, every event admitted and accepted when it came. */
  ghost predicate Accepted(log: seq<Event>) {
    && (forall i, j :: 0 <= i < j < |log| ==> log[i].id != log[j].id)
    && (forall i :: 0 <= i < |log| ==> AdmittedAt(log, i))
    && Run(log).Some?
  }

  // -- reading the segments: what comes first in every rebuild --

  /** Types whose payload a reader cannot do without. */
  predicate Needed(kind: Kind) {
    !kind.Other? || kind.observed
  }

  /** The class on the receipt, when the last that happened to a blob is its eviction. */
  function EvictedBy(life: seq<Event>): Option<Class>
    requires forall e :: e in life ==> e.kind.Lifecycle?
  {
    if life == [] then None
    else
      var e := life[|life| - 1];
      assert e in life;
      if e.kind.step.Retired? && e.kind.step.to == Evicted then Some(e.kind.retention) else None
  }

  function EvictedAs(log: seq<Event>, digest: Id): Option<Class> {
    EvictedBy(LifecycleOf(log, digest))
  }

  /** An evicted payload is let pass when nobody needs it and the receipt has the class stored with the event. */
  predicate Readable(e: Event, evicted: Option<Class>) {
    evicted.Some? ==> !Needed(e.kind) && e.retention == evicted.value
  }

  /** Every payload can be read, or may be missing. */
  ghost predicate ReadsThrough(log: seq<Event>) {
    forall e :: e in log && e.blob.Some? ==> Readable(e, EvictedAs(log, e.blob.value))
  }

  /** The tables after a rebuild that replays in this order, or nothing when reading or replaying fails. */
  ghost function Rebuilt(log: seq<Event>, order: seq<Event>): Option<Tables> {
    if ReadsThrough(log) then Run(order) else None
  }

  /** Lifecycle event `i` of a blob names the tombstone that was the latest when it was appended. */
  ghost predicate LinkedAt(lifecycle: seq<Event>, i: nat)
    requires i < |lifecycle|
  {
    && lifecycle[i].kind.Lifecycle?
    && match lifecycle[i].kind.step
       case Rehydrated(expected, _) =>
         i > 0 && Retires(lifecycle[i - 1]) && lifecycle[i - 1].id == expected
       case Retired(_, previous) =>
         if i == 0 then previous.None?
         else if Retires(lifecycle[i - 1]) then previous == Some(lifecycle[i - 1].id)
         else lifecycle[i - 1].kind.Lifecycle? && previous == Some(lifecycle[i - 1].kind.step.expected)
  }

  ghost predicate Linked(lifecycle: seq<Event>) {
    forall i :: 0 <= i < |lifecycle| ==> LinkedAt(lifecycle, i)
  }

  function LifecycleOf(log: seq<Event>, digest: Id): (r: seq<Event>)
    ensures forall e :: e in r <==> e in log && e.kind.Lifecycle? && e.kind.digest == digest
  {
    if log == [] then []
    else
      var front := LifecycleOf(log[..|log| - 1], digest);
      var e := log[|log| - 1];
      assert forall x :: x in log <==> x in log[..|log| - 1] || x == e;
      if e.kind.Lifecycle? && e.kind.digest == digest then front + [e] else front
  }

  /** A status change of a memory comes after every commit that supersedes it, and in the order of its time. */
  ghost predicate StatusesLast(log: seq<Event>) {
    forall i, j :: 0 <= i < j < |log| && log[i].kind.StatusChange? ==>
      && (log[j].kind.Commit? ==> log[j].kind.supersedes != Some(log[i].kind.memory))
      && (log[j].kind.StatusChange? && log[j].kind.memory == log[i].kind.memory ==> Earlier(log[i], log[j]))
  }

  /** Lifecycle payloads are small enough to stay inline. */
  ghost predicate InlineLifecycle(log: seq<Event>) {
    forall e :: e in log && e.kind.Lifecycle? ==> e.blob.None?
  }

  /** What a replay has to find in the catalog row of a blob when it reaches a lifecycle event of it. */
  ghost predicate Fits(e: Event, retention: Class, references: set<Id>) {
    && e.kind.Lifecycle?
    && e.kind.retention == retention
    && (e.kind.step.Rehydrated? ==> e.kind.step.sources == references)
  }

  /** Every lifecycle event of a blob still fits the class and the references its row has at the end. */
  ghost predicate Settled(log: seq<Event>, digest: Id)
    requires Run(log).Some?
  {
    var row := Lookup(Run(log).value, Blob(digest));
    forall e :: e in log && e.kind.Lifecycle? && e.kind.digest == digest ==>
      row.Some? && row.value.Row? && Fits(e, row.value.retention, row.value.references)
  }

  predicate Cites(e: Event, source: Event) {
    e.kind.Citation? && source.id in e.kind.sources
  }

  /** A source that is itself a citation event is replayed before everything that cites it. */
  ghost predicate CitedInTime(log: seq<Event>, source: Id) {
    forall a, b :: a in log && b in log && a.id == source && a.blob.Some? && a.kind.Citation? && Cites(b, a)
      ==> Earlier(a, b)
  }

  /** What holds of every log the store writes: accepted events, linked tombstones, inline lifecycle events. */
  ghost predicate WellKept(log: seq<Event>) {
    && Accepted(log)
    && InlineLifecycle(log)
    && (forall d :: Linked(LifecycleOf(log, d)))
  }

  /** The conditions on a log under which a rebuild promises the incremental tables. */
  ghost predicate Rebuildable(log: seq<Event>)
    requires Run(log).Some?
  {
    ReadsThrough(log) && StatusesLast(log) && (forall s :: CitedInTime(log, s)) && forall d :: Settled(log, d)
  }

  /** An element that has to follow another one is not the first of a respectful order. */
  lemma ForcedIsNotFirst(events: seq<Event>, p: seq<Event>, q: seq<Event>, i: nat, j: nat, at: nat)
    requires Rearranges(p, q) && Respects(events, q)
    requires i < |p| && j < |p| && i != j && Precedes(events, p[i], p[j])
    requires at < |q| && q[at] == p[j]
    ensures at > 0
  {
    assert p[i] in q;
    var before :| 0 <= before < |q| && q[before] == p[i];
    assert before < at;
  }

  /** When each element is forced behind the one before it, only one order is left. */
  lemma {:induction false} OrderForced(events: seq<Event>, p: seq<Event>, q: seq<Event>)
    requires Rearranges(p, q) && Respects(events, q)
    requires forall i :: 0 <= i < |p| - 1 ==> Precedes(events, p[i], p[i + 1])
    ensures p == q
  {
    SameLength(p, q);
    if p == [] {
    } else {
      assert q[0] in p && p[0] in q;
      var at :| 0 <= at < |p| && p[at] == q[0];
      if at > 0 { ForcedIsNotFirst(events, p, q, at - 1, at, 0); }
      assert p[0] == q[0];
      forall x ensures x in p[1..] <==> x in q[1..] {
        assert x in p <==> x == p[0] || x in p[1..];
        assert x in q <==> x == q[0] || x in q[1..];
      }
      OrderForced(events, p[1..], q[1..]);
    }
  }

  /** Restricting a sequence to one row keeps it free of repetitions and respectful. */
  lemma {:induction false} OnKeeps(events: seq<Event>, s: seq<Event>, k: Key)
    requires NoDuplicates(s)
    ensures NoDuplicates(On(s, k))
    ensures Respects(events, s) ==> Respects(events, On(s, k))
  {
    if s == [] {
    } else {
      var front, e := s[..|s| - 1], s[|s| - 1];
      OnKeeps(events, front, k);
      var kept := On(front, k);
      forall i | 0 <= i < |kept| && Respects(events, s) ensures !Precedes(events, e, kept[i]) {
        assert kept[i] in front;
      }
    }
  }
}
