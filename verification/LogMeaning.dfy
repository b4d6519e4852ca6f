// What the tables say about a log, read off the log alone; and exactly which event a log takes next.

module LogMeaning {
  import opened Basics
  import opened BlobCatalog
  import opened DependencyGraph
  import opened Projection
  import opened Rebuild
  import opened RebuildAgrees
  import opened LifecycleLinks

  // -- reading the log --

  /** The status an event gives to a memory, if it says anything about it: its own commit the committed one,
      a superseding commit the superseded one, a status change its own. */
  function Says(e: Event, m: Id): Option<Status> {
    match e.kind
    case Commit(own, supersedes, status, _) =>
      if own == m then Some(status) else if supersedes == Some(m) then Some(Superseded) else None
    case StatusChange(of, to, _) => if of == m then Some(to) else None
    case _ => None
  }

  /** The end of a memory's validity that an event sets. */
  function Ends(e: Event, m: Id): Option<nat> {
    match e.kind
    case Commit(own, supersedes, _, from) => if own != m && supersedes == Some(m) then Some(from) else None
    case StatusChange(of, _, until) => if of == m then until else None
    case _ => None
  }

  /** The last status that the log gives to a memory. */
  function StatusOf(log: seq<Event>, m: Id): Option<Status> {
    if log == [] then None
    else
      var e := log[|log| - 1];
      if Says(e, m).Some? then Says(e, m) else StatusOf(log[..|log| - 1], m)
  }

  /** The last end of validity that the log sets. */
  function EndOf(log: seq<Event>, m: Id): Option<nat> {
    if log == [] then None
    else
      var e := log[|log| - 1];
      if Ends(e, m).Some? then Ends(e, m) else EndOf(log[..|log| - 1], m)
  }

  /** Revision and state of the last state committed for a task. */
  function StateOf(log: seq<Event>, task: Id): Option<(nat, Id)> {
    if log == [] then None
    else
      var e := log[|log| - 1];
      if e.kind.State? && e.kind.task == task then Some((e.kind.revision, e.kind.state)) else StateOf(log[..|log| - 1], task)
  }

  /** What the last lifecycle event of a blob made of it. */
  function AvailabilityOf(log: seq<Event>, digest: Id): Availability {
    if log == [] then Hot
    else
      var e := log[|log| - 1];
      if e.kind.Lifecycle? && e.kind.digest == digest then
        match e.kind.step
        case Retired(to, _) => to
        case Rehydrated(_, _) => Hot
      else AvailabilityOf(log[..|log| - 1], digest)
  }

  predicate CommittedIn(log: seq<Event>, m: Id, scope: Id) {
    exists e :: e in log && Commits(e, m) && e.scope == scope
  }

  predicate Commits(e: Event, m: Id) {
    e.kind.Commit? && e.kind.memory == m
  }

  predicate OnlyScope(log: seq<Event>, m: Id, scope: Id) {
    forall e :: e in log && Commits(e, m) ==> e.scope == scope
  }

  predicate StoresIn(log: seq<Event>, source: Id, scope: Id) {
    exists e :: e in log && e.id == source && e.blob.Some? && e.scope == scope
  }

  predicate CitesId(e: Event, source: Id) {
    e.kind.Citation? && source in e.kind.sources
  }

  function CiterIds(log: seq<Event>, source: Id, production: bool): set<Id> {
    set e | e in log && CitesId(e, source) && e.kind.production == production :: e.id
  }

  function StorerIds(log: seq<Event>, digest: Id): set<Id> {
    set e | e in log && e.blob == Some(digest) :: e.id
  }

  /** The strongest class stored for a blob. */
  ghost predicate StrongestStored(log: seq<Event>, digest: Id, c: Class) {
    && (exists e :: e in log && e.blob == Some(digest) && e.retention == c)
    && (forall e :: e in log && e.blob == Some(digest) ==> Rank(c) <= Rank(e.retention))
  }

  // -- what a row says --

  ghost predicate ItemSays(log: seq<Event>, m: Id, row: Option<Cell>) {
    match row
    case None => StatusOf(log, m).None? && EndOf(log, m).None? && forall e :: e in log ==> Says(e, m).None?
    case Some(cell) =>
      && cell.Item? && CommittedIn(log, m, cell.scope) && OnlyScope(log, m, cell.scope)
      && StatusOf(log, m) == Some(cell.status) && EndOf(log, m) == cell.validTo
  }

  ghost predicate StateSays(log: seq<Event>, task: Id, row: Option<Cell>) {
    match row
    case None => StateOf(log, task).None?
    case Some(cell) => cell.Revision? && StateOf(log, task) == Some((cell.revision, cell.state))
  }

  predicate EndsTask(e: Event, task: Id) {
    e.kind.Terminal? && e.kind.task == task
  }

  ghost predicate EndSays(log: seq<Event>, task: Id, row: Option<Cell>) {
    match row
    case None => forall e :: e in log ==> !EndsTask(e, task)
    case Some(cell) =>
      && (exists e :: e in log && EndsTask(e, task))
      && forall e :: e in log && EndsTask(e, task) ==> cell == Ended(e.id, e.at, e.kind.failed)
  }

  ghost predicate BlobSays(log: seq<Event>, digest: Id, row: Option<Cell>) {
    match row
    case None => forall e :: e in log ==> e.blob != Some(digest) && !(e.kind.Lifecycle? && e.kind.digest == digest)
    case Some(cell) =>
      && cell.Row? && cell.references == StorerIds(log, digest) && StrongestStored(log, digest, cell.retention)
      && cell.availability == AvailabilityOf(log, digest)
  }

  ghost predicate SourceSays(log: seq<Event>, source: Id, row: Option<Cell>) {
    match row
    case None => forall e :: e in log ==> !(e.id == source && e.blob.Some?) && !CitesId(e, source)
    case Some(cell) =>
      && cell.Cited? && StoresIn(log, source, cell.scope)
      && (forall e :: e in log && e.id == source && e.blob.Some? ==> e.scope == cell.scope)
      && cell.ordinary == CiterIds(log, source, false) && cell.production == CiterIds(log, source, true)
  }

  ghost predicate RowSays(log: seq<Event>, k: Key, row: Option<Cell>) {
    match k
    case MemoryItem(m) => ItemSays(log, m, row)
    case TaskState(t) => StateSays(log, t, row)
    case TaskTerminal(t) => EndSays(log, t, row)
    case Blob(d) => BlobSays(log, d, row)
    case Source(s) => SourceSays(log, s, row)
  }

  /** Every row says what the log says, and nothing else is in the tables. */
  ghost predicate Tells(log: seq<Event>, t: Tables) {
    forall k :: RowSays(log, k, Lookup(t, k))
  }

  // -- one more event --

  lemma InNext(log: seq<Event>, e: Event)
    ensures (log + [e])[..|log + [e]| - 1] == log && (log + [e])[|log + [e]| - 1] == e
    ensures forall x :: x in log + [e] <==> x in log || x == e
  {
  }

  lemma ItemNext(log: seq<Event>, e: Event, m: Id, row: Option<Cell>)
    requires ItemSays(log, m, row)
    ensures MemoryItem(m) !in Touched(e) ==> ItemSays(log + [e], m, row)
    ensures MemoryItem(m) in Touched(e) && WriteItem(row, e, m).Some? ==> ItemSays(log + [e], m, WriteItem(row, e, m))
  {
    InNext(log, e);
    if row.Some? { assert CommittedIn(log + [e], m, row.value.scope); }
  }

  lemma StateNext(log: seq<Event>, e: Event, task: Id, row: Option<Cell>)
    requires StateSays(log, task, row)
    ensures TaskState(task) !in Touched(e) ==> StateSays(log + [e], task, row)
    ensures TaskState(task) in Touched(e) && WriteRevision(row, e.kind).Some? ==> StateSays(log + [e], task, WriteRevision(row, e.kind))
  {
    InNext(log, e);
  }

  lemma EndNext(log: seq<Event>, e: Event, task: Id, row: Option<Cell>)
    requires EndSays(log, task, row)
    ensures TaskTerminal(task) !in Touched(e) ==> EndSays(log + [e], task, row)
    ensures TaskTerminal(task) in Touched(e) && WriteTerminal(row, e).Some? ==> EndSays(log + [e], task, WriteTerminal(row, e))
  {
    InNext(log, e);
    assert TaskTerminal(task) in Touched(e) <==> EndsTask(e, task);
    assert e in log + [e];
  }

  lemma StorersNext(log: seq<Event>, e: Event, digest: Id)
    ensures StorerIds(log + [e], digest) == StorerIds(log, digest) + if e.blob == Some(digest) then {e.id} else {}
  {
    InNext(log, e);
  }

  lemma CitersNext(log: seq<Event>, e: Event, source: Id, production: bool)
    ensures CiterIds(log + [e], source, production)
         == CiterIds(log, source, production) + if CitesId(e, source) && e.kind.production == production then {e.id} else {}
  {
    InNext(log, e);
  }

  lemma BlobKept(log: seq<Event>, e: Event, digest: Id, row: Option<Cell>)
    requires BlobSays(log, digest, row) && e.blob != Some(digest) && !(e.kind.Lifecycle? && e.kind.digest == digest)
    ensures BlobSays(log + [e], digest, row)
  {
    InNext(log, e);
    StorersNext(log, e, digest);
  }

  lemma BlobStored(log: seq<Event>, e: Event, digest: Id, row: Option<Cell>)
    requires BlobSays(log, digest, row) && e.blob == Some(digest) && !e.kind.Lifecycle?
    requires WriteReference(row, e).Some?
    ensures BlobSays(log + [e], digest, WriteReference(row, e))
  {
    InNext(log, e);
    StorersNext(log, e, digest);
    if row.None? {
      assert StorerIds(log, digest) == {};
      NeverRetired(log, digest);
    }
    assert e in log + [e];
  }

  lemma {:induction false} NeverRetired(log: seq<Event>, digest: Id)
    requires forall e :: e in log ==> !(e.kind.Lifecycle? && e.kind.digest == digest)
    ensures AvailabilityOf(log, digest) == Hot
  {
    if log != [] {
      assert log[|log| - 1] in log;
      NeverRetired(log[..|log| - 1], digest);
    }
  }

  lemma BlobMoved(log: seq<Event>, e: Event, digest: Id, row: Option<Cell>)
    requires BlobSays(log, digest, row) && e.blob.None? && e.kind.Lifecycle? && e.kind.digest == digest
    requires WriteLifecycle(row, e.kind).Some?
    ensures BlobSays(log + [e], digest, WriteLifecycle(row, e.kind))
  {
    InNext(log, e);
    StorersNext(log, e, digest);
  }

  lemma BlobNext(log: seq<Event>, e: Event, digest: Id, row: Option<Cell>)
    requires BlobSays(log, digest, row) && (e.kind.Lifecycle? ==> e.blob.None?)
    ensures Blob(digest) !in Touched(e) ==> BlobSays(log + [e], digest, row)
    ensures Blob(digest) in Touched(e) && Write(row, e, Blob(digest)).Some? ==> BlobSays(log + [e], digest, Write(row, e, Blob(digest)))
  {
    TouchesBlob(e, digest);
    if e.blob == Some(digest) {
      if WriteReference(row, e).Some? { BlobStored(log, e, digest, row); }
    } else if e.kind.Lifecycle? && e.kind.digest == digest {
      if WriteLifecycle(row, e.kind).Some? { BlobMoved(log, e, digest, row); }
    } else {
      BlobKept(log, e, digest, row);
    }
  }

  lemma TouchesSource(e: Event, source: Id)
    ensures Source(source) in Touched(e) <==> CitesId(e, source) || (e.id == source && e.blob.Some?)
  {
  }

  lemma SourceStored(log: seq<Event>, e: Event, source: Id)
    requires SourceSays(log, source, None) && e.id == source && e.blob.Some? && !CitesId(e, source)
    ensures SourceSays(log + [e], source, Some(Cited(e.scope, {}, {})))
  {
    InNext(log, e);
    CitersNext(log, e, source, false);
    CitersNext(log, e, source, true);
    assert e in log + [e];
  }

  lemma SourceNext(log: seq<Event>, e: Event, source: Id, row: Option<Cell>)
    requires SourceSays(log, source, row)
    ensures Source(source) !in Touched(e) ==> SourceSays(log + [e], source, row)
    ensures Source(source) in Touched(e) && Write(row, e, Source(source)).Some? ==> SourceSays(log + [e], source, Write(row, e, Source(source)))
  {
    InNext(log, e);
    TouchesSource(e, source);
    CitersNext(log, e, source, false);
    CitersNext(log, e, source, true);
    if row.None? {
      if Source(source) in Touched(e) && Write(row, e, Source(source)).Some? { SourceStored(log, e, source); }
    } else {
      assert StoresIn(log + [e], source, row.value.scope);
    }
  }

  lemma RowNext(log: seq<Event>, e: Event, k: Key, row: Option<Cell>)
    requires RowSays(log, k, row) && (e.kind.Lifecycle? ==> e.blob.None?)
    ensures k !in Touched(e) ==> RowSays(log + [e], k, row)
    ensures k in Touched(e) && Write(row, e, k).Some? ==> RowSays(log + [e], k, Write(row, e, k))
  {
    match k
    case MemoryItem(m) => ItemNext(log, e, m, row);
    case TaskState(t) => StateNext(log, e, t, row);
    case TaskTerminal(t) => EndNext(log, e, t, row);
    case Blob(d) => BlobNext(log, e, d, row);
    case Source(s) => SourceNext(log, e, s, row);
  }

  lemma {:induction false} RowTells(log: seq<Event>, k: Key)
    requires InlineLifecycle(log) && Follow(log, k).Some?
    ensures RowSays(log, k, Follow(log, k).value)
  {
    if log != [] {
      var front, e := log[..|log| - 1], log[|log| - 1];
      assert log == front + [e] && e in log;
      RowTells(front, k);
      RowNext(front, e, k, Follow(front, k).value);
    }
  }

  /** After every log that was accepted, each table row says what the log says: a memory has the last status
      and the last end of validity given to it, a task its last state and its terminal event, a blob all its
      citations, their strongest class and its last availability, and a source exactly its citers. */
  lemma TablesTellTheLog(log: seq<Event>)
    requires Accepted(log) && InlineLifecycle(log)
    ensures Tells(log, Run(log).value)
  {
    RowsAreIndependent(log);
    forall k ensures RowSays(log, k, Lookup(Run(log).value, k)) {
      assert Follow(log, k) == Some(Lookup(Run(log).value, k));
      RowTells(log, k);
    }
  }

  // -- exactly which event comes next --

  predicate NewId(log: seq<Event>, e: Event) {
    forall x :: x in log ==> x.id != e.id
  }

  /** A memory of this scope that can still be superseded. */
  predicate OpenIn(log: seq<Event>, m: Id, scope: Id) {
    CommittedIn(log, m, scope) && StatusOf(log, m) in {Some(Active), Some(Disputed)}
  }

  predicate StateFollows(last: Option<(nat, Id)>, revision: nat, previous: Option<Id>) {
    match last
    case None => revision == 1 && previous.None?
    case Some((number, state)) => revision == number + 1 && previous == Some(state)
  }

  /** What an event that is no lifecycle event needs of the log before it. */
  predicate KindFits(log: seq<Event>, e: Event) {
    match e.kind
    case Commit(m, supersedes, _, _) =>
      && (forall x :: x in log ==> !Commits(x, m))
      && supersedes != Some(m)
      && (supersedes.Some? ==> OpenIn(log, supersedes.value, e.scope))
    case StatusChange(m, _, _) => CommittedIn(log, m, e.scope)
    case State(task, revision, _, previous) => StateFollows(StateOf(log, task), revision, previous)
    case Terminal(task, _) => forall x :: x in log ==> !EndsTask(x, task)
    case Citation(sources, _) => forall s :: s in sources ==> StoresIn(log, s, e.scope)
    case Lifecycle(_, _, _) => false
    case Other(_) => true
  }

  /** A new id, no payload of an evicted blob, and what its kind needs. */
  predicate Takes(log: seq<Event>, e: Event) {
    NewId(log, e) && (e.blob.Some? ==> AvailabilityOf(log, e.blob.value) != Evicted) && KindFits(log, e)
  }

  lemma CommitTaken(log: seq<Event>, t: Tables, e: Event)
    requires Tells(log, t) && e.kind.Commit?
    ensures KindFits(log, e) <==> forall m :: MemoryItem(m) in Touched(e) ==> WriteItem(Lookup(t, MemoryItem(m)), e, m).Some?
  {
    var own := e.kind.memory;
    assert ItemSays(log, own, Lookup(t, MemoryItem(own))) by { assert RowSays(log, MemoryItem(own), Lookup(t, MemoryItem(own))); }
    assert MemoryItem(own) in Touched(e);
    CommitOfOwn(log, e, Lookup(t, MemoryItem(own)));
    if e.kind.supersedes.Some? {
      var m := e.kind.supersedes.value;
      assert MemoryItem(m) in Touched(e);
      assert ItemSays(log, m, Lookup(t, MemoryItem(m))) by { assert RowSays(log, MemoryItem(m), Lookup(t, MemoryItem(m))); }
      if m != own { CommitOfOther(log, e, m, Lookup(t, MemoryItem(m))); }
    }
  }

  lemma CommitOfOwn(log: seq<Event>, e: Event, row: Option<Cell>)
    requires e.kind.Commit? && ItemSays(log, e.kind.memory, row)
    ensures WriteItem(row, e, e.kind.memory).Some? <==>
              e.kind.supersedes != Some(e.kind.memory) && forall x :: x in log ==> !Commits(x, e.kind.memory)
  {
    if row.None? {
      forall x | x in log ensures !Commits(x, e.kind.memory) { assert Says(x, e.kind.memory).None?; }
    }
  }

  lemma CommitOfOther(log: seq<Event>, e: Event, m: Id, row: Option<Cell>)
    requires e.kind.Commit? && e.kind.memory != m && e.kind.supersedes == Some(m) && ItemSays(log, m, row)
    ensures WriteItem(row, e, m).Some? <==> OpenIn(log, m, e.scope)
  {
  }

  lemma ChangeTaken(log: seq<Event>, e: Event, m: Id, row: Option<Cell>)
    requires e.kind.StatusChange? && e.kind.memory == m && ItemSays(log, m, row)
    ensures WriteItem(row, e, m).Some? <==> CommittedIn(log, m, e.scope)
  {
    if row.None? {
      forall x | x in log ensures !Commits(x, m) { assert Says(x, m).None?; }
    }
  }

  lemma StateTaken(log: seq<Event>, e: Event, row: Option<Cell>)
    requires e.kind.State? && StateSays(log, e.kind.task, row)
    ensures WriteRevision(row, e.kind).Some? <==> StateFollows(StateOf(log, e.kind.task), e.kind.revision, e.kind.previousState)
  {
  }

  lemma EndTaken(log: seq<Event>, e: Event, row: Option<Cell>)
    requires e.kind.Terminal? && NewId(log, e) && EndSays(log, e.kind.task, row)
    ensures WriteTerminal(row, e).Some? <==> forall x :: x in log ==> !EndsTask(x, e.kind.task)
  {
  }

  lemma CitationTaken(log: seq<Event>, e: Event, source: Id, row: Option<Cell>)
    requires NewId(log, e) && CitesId(e, source) && SourceSays(log, source, row)
    ensures Write(row, e, Source(source)).Some? <==> StoresIn(log, source, e.scope)
  {
  }

  lemma PayloadTaken(log: seq<Event>, t: Tables, e: Event)
    requires Tells(log, t) && NewId(log, e) && e.blob.Some?
    ensures Write(Lookup(t, Blob(e.blob.value)), e, Blob(e.blob.value)).Some?
    ensures !CitesId(e, e.id) ==> Write(Lookup(t, Source(e.id)), e, Source(e.id)).Some?
    ensures Admits(t, e) <==> AvailabilityOf(log, e.blob.value) != Evicted
  {
    var d := e.blob.value;
    assert RowSays(log, Blob(d), Lookup(t, Blob(d))) && RowSays(log, Source(e.id), Lookup(t, Source(e.id)));
    if Lookup(t, Blob(d)).None? { NeverRetired(log, d); }
  }

  /** The rows of an event's kind, apart from its payload's. */
  ghost predicate KindWrites(t: Tables, e: Event) {
    match e.kind
    case Commit(_, _, _, _) => forall m :: MemoryItem(m) in Touched(e) ==> WriteItem(Lookup(t, MemoryItem(m)), e, m).Some?
    case StatusChange(m, _, _) => WriteItem(Lookup(t, MemoryItem(m)), e, m).Some?
    case State(task, _, _, _) => WriteRevision(Lookup(t, TaskState(task)), e.kind).Some?
    case Terminal(task, _) => WriteTerminal(Lookup(t, TaskTerminal(task)), e).Some?
    case Citation(sources, _) => forall s :: s in sources ==> Write(Lookup(t, Source(s)), e, Source(s)).Some?
    case Lifecycle(_, _, _) => false
    case Other(_) => true
  }

  lemma KindTaken(log: seq<Event>, t: Tables, e: Event)
    requires Tells(log, t) && NewId(log, e)
    ensures KindWrites(t, e) <==> KindFits(log, e)
  {
    match e.kind
    case Commit(_, _, _, _) => CommitTaken(log, t, e);
    case StatusChange(m, _, _) =>
      assert RowSays(log, MemoryItem(m), Lookup(t, MemoryItem(m)));
      ChangeTaken(log, e, m, Lookup(t, MemoryItem(m)));
    case State(task, _, _, _) =>
      assert RowSays(log, TaskState(task), Lookup(t, TaskState(task)));
      StateTaken(log, e, Lookup(t, TaskState(task)));
    case Terminal(task, _) =>
      assert RowSays(log, TaskTerminal(task), Lookup(t, TaskTerminal(task)));
      EndTaken(log, e, Lookup(t, TaskTerminal(task)));
    case Citation(sources, _) =>
      forall s | s in sources
        ensures Write(Lookup(t, Source(s)), e, Source(s)).Some? <==> StoresIn(log, s, e.scope)
      {
        assert RowSays(log, Source(s), Lookup(t, Source(s)));
        CitationTaken(log, e, s, Lookup(t, Source(s)));
      }
    case _ =>
  }

  lemma WritesSplit(t: Tables, e: Event)
    requires !e.kind.Lifecycle?
    ensures Apply(t, e).Some? <==>
              && KindWrites(t, e)
              && (e.blob.Some? ==> Write(Lookup(t, Blob(e.blob.value)), e, Blob(e.blob.value)).Some?
                                   && Write(Lookup(t, Source(e.id)), e, Source(e.id)).Some?)
  {
    if Apply(t, e).Some? {
      forall k | k in Touched(e) ensures Write(Lookup(t, k), e, k).Some? { }
      KindWritesAll(t, e);
    } else {
      var k :| k in Touched(e) && Write(Lookup(t, k), e, k).None?;
      OneFails(t, e, k);
    }
  }

  lemma KindWritesAll(t: Tables, e: Event)
    requires !e.kind.Lifecycle? && forall k :: k in Touched(e) ==> Write(Lookup(t, k), e, k).Some?
    ensures KindWrites(t, e)
    ensures e.blob.Some? ==> Blob(e.blob.value) in Touched(e) && Source(e.id) in Touched(e)
  {
    match e.kind
    case Commit(_, _, _, _) =>
    case StatusChange(m, _, _) => assert MemoryItem(m) in Touched(e);
    case State(task, _, _, _) => assert TaskState(task) in Touched(e);
    case Terminal(task, _) => assert TaskTerminal(task) in Touched(e);
    case Citation(sources, _) => forall s | s in sources ensures Source(s) in Touched(e) { }
    case Other(_) =>
  }

  lemma OneFails(t: Tables, e: Event, k: Key)
    requires !e.kind.Lifecycle? && k in Touched(e) && Write(Lookup(t, k), e, k).None?
    ensures !KindWrites(t, e) || (e.blob.Some? && (k == Blob(e.blob.value) || k == Source(e.id)))
  {
  }

  /** The log takes an event exactly when it is new and the log, not some table, has what it needs. */
  lemma TakenIff(log: seq<Event>, e: Event)
    requires Accepted(log) && InlineLifecycle(log) && !e.kind.Lifecycle?
    ensures Accepted(log + [e]) <==> Takes(log, e)
  {
    var t := Run(log).value;
    TablesTellTheLog(log);
    AcceptedNext(log, e, t);
    assert (forall i :: 0 <= i < |log| ==> log[i].id != e.id) <==> NewId(log, e);
    if NewId(log, e) {
      KindTaken(log, t, e);
      WritesSplit(t, e);
      if e.blob.Some? { PayloadTaken(log, t, e); }
    }
  }
}
