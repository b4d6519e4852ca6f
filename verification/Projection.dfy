// The projection tables and their reducers: what one canonical event does to the rows it
// touches, and what a whole log does when its events are applied in a given order.

module Projection {
  import opened Basics
  import opened BlobCatalog
  import opened DependencyGraph

  datatype Status = Active | Superseded | Retired | Disputed

  /** A tombstone is named by the event of the action it records, which owns its file. */
  datatype Step =
    | Retired(to: Availability, previous: Option<Id>)
    | Rehydrated(expected: Id, sources: set<Id>)

  datatype Kind =
    | Commit(memory: Id, supersedes: Option<Id>, status: Status, validFrom: nat)
    | StatusChange(memory: Id, to: Status, until: Option<nat>)
    | State(task: Id, revision: nat, state: Id, previousState: Option<Id>)
    | Terminal(task: Id, failed: bool)
    | Citation(sources: set<Id>, production: bool)
    | Lifecycle(digest: Id, retention: Class, step: Step)
    | Other(observed: bool)     // `observed`: a verification result or an observed artifact

  /** `blob` names the content-addressed payload of an event too large to be inline, and `retention` is the
      class stored with it. */
  datatype Event = Event(id: Id, at: nat, scope: Id, retention: Class, blob: Option<Id>, kind: Kind)

  datatype Key =
    | MemoryItem(memory: Id)
    | TaskState(task: Id)
    | TaskTerminal(task: Id)
    | Blob(digest: Id)
    | Source(event: Id)

  datatype Cell =
    | Item(scope: Id, status: Status, validTo: Option<nat>)
    | Revision(revision: nat, state: Id)
    | Ended(event: Id, at: nat, failed: bool)
    | Row(retention: Class, references: set<Id>, availability: Availability)
    | Cited(scope: Id, ordinary: set<Id>, production: set<Id>)

  type Tables = map<Key, Cell>

  /** The rows an event reads or writes. */
  function Touched(e: Event): set<Key> {
    (match e.kind
     case Commit(m, supersedes, _, _) =>
       {MemoryItem(m)} + (if supersedes.Some? then {MemoryItem(supersedes.value)} else {})
     case StatusChange(m, _, _) => {MemoryItem(m)}
     case State(t, _, _, _) => {TaskState(t)}
     case Terminal(t, _) => {TaskTerminal(t)}
     case Citation(sources, _) => set s | s in sources :: Source(s)
     case Lifecycle(d, _, _) => {Blob(d)}
     case Other(_) => {})
    + (if e.blob.Some? then {Blob(e.blob.value), Source(e.id)} else {})
  }

  /** The new content of one touched row, or nothing when the reducer refuses the event. */
  function Write(prior: Option<Cell>, e: Event, k: Key): (r: Option<Cell>) {
    match k
    case MemoryItem(m) => WriteItem(prior, e, m)
    case TaskState(_) => if e.kind.State? then WriteRevision(prior, e.kind) else None
    case TaskTerminal(_) => if e.kind.Terminal? then WriteTerminal(prior, e) else None
    case Blob(d) =>
      if e.blob == Some(d) then WriteReference(prior, e)
      else if e.kind.Lifecycle? then WriteLifecycle(prior, e.kind) else None
    case Source(s) =>
      if s == e.id && e.blob.Some? then
        if prior.None? && !(e.kind.Citation? && s in e.kind.sources) then Some(Cited(e.scope, {}, {})) else None
      else if e.kind.Citation? then WriteCitation(prior, e) else None
  }

  function WriteItem(prior: Option<Cell>, e: Event, m: Id): Option<Cell> {
    match e.kind
    case Commit(own, supersedes, status, validFrom) =>
      if own == m then
        if prior.None? && supersedes != Some(m) then Some(Item(e.scope, status, None)) else None
      else if prior.Some? && prior.value.Item? && prior.value.scope == e.scope
           && (prior.value.status.Active? || prior.value.status.Disputed?) then
        Some(Item(e.scope, Superseded, Some(validFrom)))
      else None
    case StatusChange(_, to, until) =>
      if prior.Some? && prior.value.Item? && prior.value.scope == e.scope then
        Some(Item(e.scope, to, if until.Some? then until else prior.value.validTo))
      else None
    case _ => None
  }

  function WriteRevision(prior: Option<Cell>, kind: Kind): Option<Cell>
    requires kind.State?
  {
    match prior
    case None =>
      if kind.revision == 1 && kind.previousState.None? then Some(Revision(1, kind.state)) else None
    case Some(cell) =>
      if cell.Revision? && kind.revision == cell.revision + 1 && kind.previousState == Some(cell.state) then
        Some(Revision(kind.revision, kind.state))
      else None
  }

  function WriteTerminal(prior: Option<Cell>, e: Event): Option<Cell>
    requires e.kind.Terminal?
  {
    var ended := Ended(e.id, e.at, e.kind.failed);
    if prior.None? || prior.value == ended then Some(ended) else None
  }

  function WriteReference(prior: Option<Cell>, e: Event): Option<Cell> {
    match prior
    case None => Some(Row(e.retention, {e.id}, Hot))
    case Some(cell) =>
      if cell.Row? && e.id !in cell.references then
        Some(Row(Merge(cell.retention, e.retention), cell.references + {e.id}, cell.availability))
      else None
  }

  function WriteLifecycle(prior: Option<Cell>, kind: Kind): Option<Cell>
    requires kind.Lifecycle?
  {
    if prior.None? || !prior.value.Row? || prior.value.retention != kind.retention then None
    else
      var row := prior.value;
      match kind.step
      case Retired(to, _) => Some(row.(availability := to))
      case Rehydrated(_, sources) =>
        if row.availability == Evicted && sources == row.references then Some(row.(availability := Hot)) else None
  }

  function WriteCitation(prior: Option<Cell>, e: Event): Option<Cell>
    requires e.kind.Citation?
  {
    if prior.None? || !prior.value.Cited? || prior.value.scope != e.scope then None
    else if e.kind.production then Some(prior.value.(production := prior.value.production + {e.id}))
    else Some(prior.value.(ordinary := prior.value.ordinary + {e.id}))
  }

  function Lookup(t: Tables, k: Key): Option<Cell> {
    if k in t then Some(t[k]) else None
  }

  /** One transaction: every touched row, or none of them. */
  function Apply(t: Tables, e: Event): (r: Option<Tables>) {
    if exists k :: k in Touched(e) && Write(Lookup(t, k), e, k).None? then None
    else Some(t + map k | k in Touched(e) :: Write(Lookup(t, k), e, k).value)
  }

  /** The tables after a log, or nothing when some event of it is refused. */
  function Run(log: seq<Event>): (r: Option<Tables>) {
    if log == [] then Some(map[])
    else
      var before := Run(log[..|log| - 1]);
      if before.None? then None else Apply(before.value, log[|log| - 1])
  }

  /** One row followed through a log on its own: refused, absent or present. */
  function Follow(log: seq<Event>, k: Key): (r: Option<Option<Cell>>) {
    if log == [] then Some(None)
    else
      var before := Follow(log[..|log| - 1], k);
      var e := log[|log| - 1];
      if before.None? then None
      else if k !in Touched(e) then before
      else
        var after := Write(before.value, e, k);
        if after.None? then None else Some(after)
  }

  ghost predicate Shows(t: Tables, log: seq<Event>) {
    forall k :: Follow(log, k) == Some(Lookup(t, k))
  }

  lemma ApplyShows(log: seq<Event>, t: Tables, e: Event)
    requires Shows(t, log)
    ensures Apply(t, e).Some? ==> Shows(Apply(t, e).value, log + [e])
    ensures Apply(t, e).None? ==> exists k :: Follow(log + [e], k).None?
  {
    var longer := log + [e];
    assert longer[..|longer| - 1] == log;
    if Apply(t, e).None? {
      var k :| k in Touched(e) && Write(Lookup(t, k), e, k).None?;
      assert Follow(log, k) == Some(Lookup(t, k));
      assert Follow(longer, k).None?;
    } else {
      forall k ensures Follow(longer, k) == Some(Lookup(Apply(t, e).value, k)) {
        assert Follow(log, k) == Some(Lookup(t, k));
      }
    }
  }

  /** A log is accepted exactly when each row accepts it, and rows do not influence each other. */
  lemma {:induction false} RowsAreIndependent(log: seq<Event>)
    ensures Run(log).Some? <==> forall k :: Follow(log, k).Some?
    ensures Run(log).Some? ==> Shows(Run(log).value, log)
  {
    if log == [] {
    } else {
      var front, e := log[..|log| - 1], log[|log| - 1];
      assert log == front + [e];
      RowsAreIndependent(front);
      if Run(front).None? {
        var k :| Follow(front, k).None?;
        assert Follow(log, k).None?;
      } else {
        ApplyShows(front, Run(front).value, e);
      }
    }
  }

  /** The events of a log that touch one row, in order. */
  function On(log: seq<Event>, k: Key): (r: seq<Event>)
    ensures forall e :: e in r <==> e in log && k in Touched(e)
  {
    if log == [] then []
    else
      var front := On(log[..|log| - 1], k);
      var e := log[|log| - 1];
      assert forall x :: x in log <==> x in log[..|log| - 1] || x == e;
      if k in Touched(e) then front + [e] else front
  }

  lemma FollowNext(s: seq<Event>, e: Event, k: Key)
    requires Follow(s, k).Some? ==> k in Touched(e)
    ensures Follow(s + [e], k) ==
            if Follow(s, k).None? then None
            else if Write(Follow(s, k).value, e, k).None? then None else Some(Write(Follow(s, k).value, e, k))
  {
    assert (s + [e])[..|s|] == s;
  }

  lemma {:induction false} FollowOn(log: seq<Event>, k: Key)
    ensures Follow(log, k) == Follow(On(log, k), k)
  {
    if log != [] {
      var front, e := log[..|log| - 1], log[|log| - 1];
      FollowOn(front, k);
      if k in Touched(e) {
        FollowNext(On(front, k), e, k);
        FollowNext(front, e, k);
        assert log == front + [e];
      }
    }
  }
}
