// Whole histories of one blob: any sequence of operations, each cut short by a crash after
// any of its durable steps, with reopens that may themselves be cut short.

module BlobRuns {
  import opened Basics
  import opened BlobCatalog
  import opened BlobLifecycle
  import opened BlobSafety
  import opened BlobRecovery

  datatype Op =
    | Cite(citation: Citation, k: nat)
    | Act(decision: Decision, k: nat)
    | Rehydrate(id: nat, at: nat, k: nat)
    | Tidy(k: nat)
    | Open(k: nat, part: set<nat>)

  /** `open` is false from a crash until a reopen has run to its end. */
  datatype State = State(slice: Slice, open: bool)

  function Fresh(digest: Digest): State {
    State(Slice(digest, None, map[], map[], map[], [], [], None, 0), true)
  }

  function RowIs(s: Slice, availability: Availability): bool {
    s.row.Some? && s.row.value.availability == availability
  }

  /** Which decisions the planner can make about the row. */
  predicate Actionable(s: Slice, d: Decision) {
    if d.archive then RowIs(s, Hot) else RowIs(s, Hot) || RowIs(s, Archived)
  }

  function Tidying(s: Slice, k: nat): Slice {
    var s1 := if k >= 1 then DropRetiredHot(s) else s;
    if k >= 2 then DropEvictedArchives(s1) else s1
  }

  /** How far an open gets: it stops at once when a segment cannot be read, and before the orphan archives
      when a named archive is gone. */
  ghost function Reached(s: Slice, k: nat, part: set<nat>): (nat, set<nat>) {
    if !ReadsThrough(s) then (0, {})
    else if ArchivesPresent(DropPendingReceipts(DropPendingArchives(s))) then (k, part)
    else (if k < 2 then k else 2, {})
  }

  ghost function Next(st: State, op: Op): State {
    var s := st.slice;
    match op
    case Cite(c, k) =>
      if !st.open || RowIs(s, Evicted) then st else State(Citing(s, c, k), k >= 3)
    case Act(d, k) =>
      if !st.open || !Actionable(s, d) then st else State(Retiring(s, d, k), k >= 5)
    case Rehydrate(id, at, k) =>
      if !st.open || !RowIs(s, Evicted) || LastTombstone(s.log).None? then st
      else if !ReadsThrough(s) then State(Unstaging(s, id, k), k >= 2)
      else State(Restoring(s, id, at, k), k >= 4)
    case Tidy(k) =>
      if !st.open then st else State(Tidying(s, k), k >= 2)
    case Open(k, part) =>
      var (reached, removed) := Reached(s, k, part);
      State(Reopening(s, reached, removed), reached >= 8)
  }

  /** New ids, a clock that moves past every lifecycle event of the blob, a new month for a new archive. */
  ghost predicate Clocked(s: Slice, op: Op) {
    match op
    case Act(d, _) =>
      !Logged(s.log, d.id) && d.id !in s.tombstones && LaterThanAll(s.log, d.at) && (d.archive ==> FreshMonth(s.log, d.month))
    case Rehydrate(id, at, _) => !Logged(s.log, id) && id !in s.tombstones && LaterThanAll(s.log, at)
    case _ => true
  }

  ghost function After(digest: Digest, ops: seq<Op>): State {
    if ops == [] then Fresh(digest) else Next(After(digest, ops[..|ops| - 1]), ops[|ops| - 1])
  }

  ghost predicate ClockedRun(digest: Digest, ops: seq<Op>) {
    forall i :: 0 <= i < |ops| ==> Clocked(After(digest, ops[..i]).slice, ops[i])
  }

  ghost predicate Good(st: State) {
    Inv(st.slice) && (st.open ==> Running(st.slice))
  }

  lemma TidyIsSafe(s: Slice, k: nat)
    requires Running(s)
    ensures Running(Tidying(s, k))
  {
    RetiredHotGoes(s);
    var s1 := DropRetiredHot(s);
    if k >= 2 && RowIs(s1, Evicted) { EvictedArchivesGo(s1, ReceiptMonths(s1)); }
  }

  lemma UnstagingIsSafe(s: Slice, id: nat, k: nat)
    requires Running(s) && !Logged(s.log, id)
    ensures Inv(Unstaging(s, id, k))
    ensures k >= 2 ==> Running(Unstaging(s, id, k))
  {
  }

  lemma StepIsSafe(st: State, op: Op)
    requires Good(st) && Clocked(st.slice, op)
    ensures Good(Next(st, op))
  {
    var s := st.slice;
    match op
    case Cite(c, k) => if st.open && !RowIs(s, Evicted) { CitingIsSafe(s, c, k); }
    case Act(d, k) => if st.open && Actionable(s, d) { RetiringIsSafe(s, d, k); }
    case Rehydrate(id, at, k) =>
      if st.open && RowIs(s, Evicted) {
        if ReadsThrough(s) { RestoringIsSafe(s, id, at, k); } else { UnstagingIsSafe(s, id, k); }
      }
    case Tidy(k) => if st.open { TidyIsSafe(s, k); }
    case Open(k, part) =>
      var (reached, removed) := Reached(s, k, part);
      ReopeningIsSafe(s, reached, removed);
  }

  /** Every moment of every history is safe. */
  lemma {:induction false} RunIsSafe(digest: Digest, ops: seq<Op>)
    requires ClockedRun(digest, ops)
    ensures Good(After(digest, ops))
  {
    if ops == [] {
    } else {
      var front := ops[..|ops| - 1];
      forall i | 0 <= i < |front| ensures Clocked(After(digest, front[..i]).slice, front[i]) {
        assert front[..i] == ops[..i];
      }
      RunIsSafe(digest, front);
      assert ops[..|ops| - 1] == front;
      StepIsSafe(After(digest, front), ops[|ops| - 1]);
    }
  }

  ghost predicate CopyOnDisk(s: Slice) {
    || s.hot == Some(s.digest.content)
    || (exists m :: m in s.archives && s.archives[m] == s.digest.content)
    || (exists id :: id in s.stages && s.stages[id] == s.digest.content)
  }

  /** The eviction is in the log, and its receipt is on disk. */
  ghost predicate EvictionOnRecord(s: Slice) {
    && LogState(s.log) == Evicted
    && LastTombstone(s.log).Some? && LastTombstone(s.log).value in s.tombstones.Values
    && Logged(s.log, LastTombstone(s.log).value.action)
  }

  /** Whenever a crash happens, a cited blob has a copy on disk or its eviction is on record. */
  lemma NeverLost(digest: Digest, ops: seq<Op>)
    requires ClockedRun(digest, ops)
    ensures var s := After(digest, ops).slice; s.citations != [] ==> CopyOnDisk(s) || EvictionOnRecord(s)
  {
    RunIsSafe(digest, ops);
    var s := After(digest, ops).slice;
    if s.citations != [] { LiveOrRecorded(s); }
  }

  lemma LiveOrRecorded(s: Slice)
    requires Inv(s) && s.citations != []
    ensures CopyOnDisk(s) || EvictionOnRecord(s)
  {
    if LogState(s.log) == Evicted {
      var last := s.log[|s.log| - 1];
      assert ContinuesAt(s.log, |s.log| - 1);
      assert s.tombstones[last.id] == last.tombstone;
    } else if LogState(s.log) == Archived {
      assert s.archives[LastTombstone(s.log).value.month.value] == s.digest.content;
    } else if s.hot.None? {
      assert s.stages[s.log[|s.log| - 1].id] == s.digest.content;
    }
  }

  lemma RecoveredEvictionOnRecord(r: Slice)
    requires Inv(r) && r.citations != [] && LogState(r.log) == Evicted
    ensures EvictionOnRecord(r)
  {
    var last := r.log[|r.log| - 1];
    assert ContinuesAt(r.log, |r.log| - 1);
    assert r.tombstones[last.id] == last.tombstone;
  }

  /**
   * After any history, a reopen gets through exactly when the bytes are there or no citation misses
   * them, and every archive that a receipt of the log names is on disk; it then ends hot with the
   * cited bytes, readable from the archive, or evicted with nothing left over and on record.
   */
  lemma ReopenAfterAnyHistory(digest: Digest, ops: seq<Op>)
    requires ClockedRun(digest, ops)
    ensures var s := After(digest, ops).slice;
            && (OpenSucceeds(s) <==>
                  && (s.citations == [] || BytesThere(s) || Spared(s.citations, Strongest(s.citations)))
                  && ArchivesPresent(s))
            && Recovered(Reopening(s, 8, {}))
            && (s.citations != [] && LogState(s.log) == Evicted ==> EvictionOnRecord(Reopening(s, 8, {})))
  {
    RunIsSafe(digest, ops);
    var s := After(digest, ops).slice;
    OpenSucceedsIff(s);
    ReadsThroughIff(s);
    ReopenedIsRecovered(s);
    ReopenKeeps(s, 8, {});
    if s.citations != [] && LogState(s.log) == Evicted { RecoveredEvictionOnRecord(Reopening(s, 8, {})); }
  }

  // -- no copy goes before the event that retires it is durable --

  /** A copy the log still relies on is not unlinked. */
  ghost predicate KeepsNeededCopy(before: Slice, after: Slice) {
    && (before.hot.Some? && after.hot.None? ==> LogState(after.log) != Hot)
    && (forall m :: m in before.archives && m !in after.archives ==>
          !(LogState(after.log) == Archived && LastTombstone(after.log).value.month == Some(m)))
  }

  lemma UnlinksComeLast(st: State, op: Op)
    requires Good(st) && Clocked(st.slice, op)
    ensures KeepsNeededCopy(st.slice, Next(st, op).slice)
  {
    StepIsSafe(st, op);
    var s, t := st.slice, Next(st, op).slice;
    if s.hot.Some? && t.hot.None? { HotGoesAfterEvent(st, op); }
  }

  lemma OpenDropsRetiredHot(s: Slice, k: nat, part: set<nat>)
    requires s.hot.Some? && Reopening(s, k, part).hot.None?
    ensures k >= 7 && Reopening(s, k, part).row.Some? && Reopening(s, k, part).row.value.availability != Hot
  {
  }

  lemma OpenHotGoes(s: Slice, k: nat, part: set<nat>)
    requires Inv(s) && s.hot.Some? && Reopening(s, k, part).hot.None?
    ensures LogState(Reopening(s, k, part).log) != Hot
  {
    OpenDropsRetiredHot(s, k, part);
    ReopeningIsSafe(s, k, part);
    RowIsLogState(Reopening(s, k, part));
  }

  lemma RetiredHotIsLogged(s: Slice, d: Decision, k: nat)
    requires s.row.Some? && s.hot.Some? && Retiring(s, d, k).hot.None?
    ensures LogState(Retiring(s, d, k).log) != Hot
  {
    assert Retiring(s, d, k).log == s.log + [Event(s, d)];
  }

  lemma TidiedHotIsLogged(s: Slice, k: nat)
    requires Running(s) && s.hot.Some? && Tidying(s, k).hot.None?
    ensures LogState(Tidying(s, k).log) != Hot
  {
    RowIsLogState(s);
  }

  lemma OthersKeepHot(s: Slice, c: Citation, id: nat, at: nat, k: nat)
    requires s.hot.Some?
    ensures Citing(s, c, k).hot.Some? && Unstaging(s, id, k).hot.Some?
    ensures s.row.Some? && LastTombstone(s.log).Some? ==> Restoring(s, id, at, k).hot.Some?
  {
  }

  lemma HotGoesAfterEvent(st: State, op: Op)
    requires Good(st) && st.slice.hot.Some? && Next(st, op).slice.hot.None?
    ensures LogState(Next(st, op).slice.log) != Hot
  {
    var s := st.slice;
    match op
    case Cite(c, k) => OthersKeepHot(s, c, 0, 0, k);
    case Act(d, k) => RetiredHotIsLogged(s, d, k);
    case Rehydrate(id, at, k) => OthersKeepHot(s, Citation(false, Core), id, at, k);
    case Tidy(k) => TidiedHotIsLogged(s, k);
    case Open(k, part) =>
      var (reached, removed) := Reached(s, k, part);
      OpenHotGoes(s, reached, removed);
  }

  // -- a reopen that cannot get through --

  lemma ArchiveOfLastIsNamed(s: Slice, d: Decision)
    requires Running(s) && Decided(s, d) && RowIs(s, Archived)
    ensures !ArchivesPresent(Retiring(s, d, 5))
  {
    RowIsLogState(s);
    var r, last := Retiring(s, d, 5), s.log[|s.log| - 1];
    assert s.tombstones[last.id] == last.tombstone;
    assert r.tombstones[last.id] == last.tombstone && last.id != d.id;
    LoggedNext(s.log, Event(s, d), last.id);
    assert Logged(s.log, last.id);
  }

  /** Once an archived blob is evicted and its archive is gone, no later open gets through. */
  lemma EvictedArchiveBlocksOpen(s: Slice, d: Decision)
    requires Running(s) && Decided(s, d) && RowIs(s, Archived)
    ensures !OpenSucceeds(Retiring(s, d, 5))
  {
    RetiringIsSafe(s, d, 5);
    ArchiveOfLastIsNamed(s, d);
    OpenSucceedsIff(Retiring(s, d, 5));
  }

  lemma SameArchives(s: Slice, d: Decision, k: nat)
    requires Running(s) && Decided(s, d) && !d.archive && (k == 2 || (k == 5 && RowIs(s, Hot)))
    ensures ArchivesPresent(Retiring(s, d, k)) <==> ArchivesPresent(s)
  {
    var r := Retiring(s, d, k);
    assert r.archives == s.archives && r.tombstones == s.tombstones[d.id := Receipt(s, d)];
    forall a | a in s.tombstones ensures Logged(r.log, a) <==> Logged(s.log, a) {
      if k == 5 { LoggedNext(s.log, Event(s, d), a); }
    }
    assert Receipt(s, d).month.None?;
    assert forall a :: a in s.tombstones ==> r.tombstones[a] == s.tombstones[a];
  }

  lemma EvictedReads(s: Slice, d: Decision)
    requires Running(s) && Decided(s, d) && !d.archive && RowIs(s, Hot)
    ensures ReadsThrough(Retiring(s, d, 5)) <==> Spared(s.citations, s.row.value.retention)
  {
    var r := Retiring(s, d, 5);
    RetiringIsSafe(s, d, 5);
    RowIsCurrent(s);
    assert r.log == s.log + [Event(s, d)] && r.citations == s.citations;
    ReadsThroughIff(r);
  }

  /** After an eviction the store opens again exactly when the blob was hot, no citation is of a type that
      readers need, all carry the class of the row, and no earlier archive is missing. */
  lemma OpensAfterEvictionIff(s: Slice, d: Decision)
    requires Running(s) && Decided(s, d) && !d.archive
    ensures OpenSucceeds(Retiring(s, d, 5)) <==>
              RowIs(s, Hot) && Spared(s.citations, s.row.value.retention) && ArchivesPresent(s)
  {
    RetiringIsSafe(s, d, 5);
    OpenSucceedsIff(Retiring(s, d, 5));
    if RowIs(s, Hot) {
      SameArchives(s, d, 5);
      EvictedReads(s, d);
    } else {
      EvictedArchiveBlocksOpen(s, d);
    }
  }

  /** A crash that leaves the receipt of an eviction without its event: an archived blob already reads as
      evicted, before recovery gets to drop the receipt. */
  lemma OpensAfterReceiptIff(s: Slice, d: Decision)
    requires Running(s) && Decided(s, d) && !d.archive && RowIs(s, Archived) && s.hot.None?
    ensures OpenSucceeds(Retiring(s, d, 2)) <==> Spared(s.citations, s.row.value.retention) && ArchivesPresent(s)
  {
    var r := Retiring(s, d, 2);
    RetiringIsSafe(s, d, 2);
    RowIsCurrent(s);
    OpenSucceedsIff(r);
    SameArchives(s, d, 2);
    assert Pending(r.tombstones, r.log, d.id);
    ReadsThroughIff(r);
  }

  /** Evicted, and missed by a citation. */
  ghost predicate Lost(s: Slice) {
    && s.citations != [] && s.hot.None? && NothingPending(s.tombstones, s.log) && LogState(s.log) == Evicted
    && !Spared(s.citations, Strongest(s.citations))
  }

  lemma LostStays(st: State, op: Op)
    requires Good(st) && Lost(st.slice)
    ensures Lost(Next(st, op).slice) && Next(st, op).slice.log == st.slice.log
  {
    var s := st.slice;
    ReadsThroughIff(s);
    assert !ReadsThrough(s);
    if st.open { RowIsLogState(s); assert RowIs(s, Evicted) by { LostHasRow(s); } }
  }

  lemma LostHasRow(s: Slice)
    requires Running(s) && Lost(s)
    ensures RowIs(s, Evicted)
  {
    RowIsLogState(s);
  }

  /** Once a payload that some citation misses has been evicted, nothing brings it back: every rehydration
      and every open is refused, whatever is tried. */
  lemma {:induction false} NothingBringsItBack(digest: Digest, ops: seq<Op>, more: seq<Op>)
    requires ClockedRun(digest, ops + more) && Lost(After(digest, ops).slice)
    ensures var s := After(digest, ops + more).slice; Lost(s) && !OpenSucceeds(s) && s.log == After(digest, ops).slice.log
  {
    var all := ops + more;
    RunIsSafe(digest, all);
    if more == [] {
      assert all == ops;
    } else {
      var front := ops + more[..|more| - 1];
      assert all[..|all| - 1] == front;
      RunPrefix(digest, all, |front|);
      assert all[..|front|] == front;
      NothingBringsItBack(digest, ops, more[..|more| - 1]);
      RunIsSafe(digest, front);
      LostStays(After(digest, front), all[|all| - 1]);
    }
    ReadsThroughIff(After(digest, all).slice);
  }

  lemma RunPrefix(digest: Digest, ops: seq<Op>, n: nat)
    requires ClockedRun(digest, ops) && n <= |ops|
    ensures ClockedRun(digest, ops[..n])
  {
    forall i | 0 <= i < n ensures Clocked(After(digest, ops[..n][..i]).slice, ops[..n][i]) {
      assert ops[..n][..i] == ops[..i];
      assert Clocked(After(digest, ops[..i]).slice, ops[i]);
    }
  }

  lemma {:induction false} RunNext(digest: Digest, ops: seq<Op>, op: Op)
    requires ClockedRun(digest, ops) && Clocked(After(digest, ops).slice, op)
    ensures ClockedRun(digest, ops + [op])
    ensures After(digest, ops + [op]) == Next(After(digest, ops), op)
  {
    var longer := ops + [op];
    assert longer[..|longer| - 1] == ops;
    forall i | 0 <= i < |longer| ensures Clocked(After(digest, longer[..i]).slice, longer[i]) {
      assert longer[..i] == ops[..i];
      assert i == |ops| ==> longer[..i] == ops;
    }
  }

  /** One more step of a run whose state is known. */
  lemma RunTo(digest: Digest, ops: seq<Op>, op: Op, st: State)
    requires ClockedRun(digest, ops) && After(digest, ops) == st && Clocked(st.slice, op)
    ensures ClockedRun(digest, ops + [op]) && After(digest, ops + [op]) == Next(st, op)
  {
    RunNext(digest, ops, op);
  }

  /** Cited for the first time, and once more. */
  function Once(digest: Digest, c: Citation): Slice {
    Slice(digest, Some(digest.content), map[], map[], map[], [], [c], Some(Row(1, c.retention, Hot)), 0)
  }

  lemma CitedOnce(digest: Digest, c: Citation)
    ensures ClockedRun(digest, [Cite(c, 3)]) && After(digest, [Cite(c, 3)]) == State(Once(digest, c), true)
  {
    FirstCitation(digest, c);
    RunTo(digest, [], Cite(c, 3), Fresh(digest));
    assert [] + [Cite(c, 3)] == [Cite(c, 3)];
  }

  lemma FirstCitation(digest: Digest, c: Citation)
    ensures Citing(Fresh(digest).slice, c, 3) == Once(digest, c)
  {
    assert [] + [c] == [c];
  }

  lemma OnceIsRunning(digest: Digest, c: Citation)
    ensures Running(Once(digest, c))
  {
    CitedOnce(digest, c);
    RunIsSafe(digest, [Cite(c, 3)]);
  }

  lemma CitedAndArchived(digest: Digest, c: Citation, archive: Decision)
    requires archive.archive
    ensures var ops, s := [Cite(c, 3), Act(archive, 5)], Retiring(Once(digest, c), archive, 5);
            ClockedRun(digest, ops) && After(digest, ops) == State(s, true) && Running(s) && RowIs(s, Archived) && s.hot.None?
    ensures var s := Retiring(Once(digest, c), archive, 5);
            s.tombstones.Keys == {archive.id} && |s.log| == 1 && s.log[0].id == archive.id && s.log[0].at == archive.at
  {
    CitedOnce(digest, c);
    RunTo(digest, [Cite(c, 3)], Act(archive, 5), State(Once(digest, c), true));
    assert [Cite(c, 3)] + [Act(archive, 5)] == [Cite(c, 3), Act(archive, 5)];
    RunIsSafe(digest, [Cite(c, 3), Act(archive, 5)]);
  }

  lemma ArchiveOnly(s: Slice, archive: Decision, evict: Decision)
    requires RowIs(s, Archived) && s.tombstones.Keys == {archive.id}
    requires |s.log| == 1 && s.log[0].id == archive.id && s.log[0].at == archive.at
    requires !evict.archive && archive.id != evict.id && archive.at < evict.at
    ensures Decided(s, evict)
  {
  }

  lemma ArchivedThenActs(digest: Digest, c: Citation, archive: Decision, evict: Decision, k: nat)
    requires archive.archive && !evict.archive && archive.id != evict.id && archive.at < evict.at
    ensures var ops, s := [Cite(c, 3), Act(archive, 5), Act(evict, k)], Retiring(Once(digest, c), archive, 5);
            Running(s) && Decided(s, evict) && ClockedRun(digest, ops) && After(digest, ops).slice == Retiring(s, evict, k)
  {
    var two, s := [Cite(c, 3), Act(archive, 5)], Retiring(Once(digest, c), archive, 5);
    CitedAndArchived(digest, c, archive);
    ArchiveOnly(s, archive, evict);
    RunTo(digest, two, Act(evict, k), State(s, true));
    assert two + [Act(evict, k)] == [Cite(c, 3), Act(archive, 5), Act(evict, k)];
  }

  /** Cite, archive, evict: whatever the citation, ids, times and month, the store cannot be opened again. */
  lemma ArchivedThenEvictedCannotReopen(digest: Digest, c: Citation, archive: Decision, evict: Decision)
    requires archive.archive && !evict.archive && archive.id != evict.id && archive.at < evict.at
    ensures var ops := [Cite(c, 3), Act(archive, 5), Act(evict, 5)];
            ClockedRun(digest, ops) && !OpenSucceeds(After(digest, ops).slice)
  {
    CitedAndArchived(digest, c, archive);
    ArchivedThenActs(digest, c, archive, evict, 5);
    EvictedArchiveBlocksOpen(Retiring(Once(digest, c), archive, 5), evict);
  }

  /** Cite by an event of a needed type, then evict: the store cannot be opened again. */
  lemma NeededEvictionCannotReopen(digest: Digest, c: Citation, evict: Decision)
    requires c.needed && !evict.archive
    ensures var ops := [Cite(c, 3), Act(evict, 5)]; ClockedRun(digest, ops) && !OpenSucceeds(After(digest, ops).slice)
  {
    CitedOnce(digest, c);
    OnceIsRunning(digest, c);
    RunTo(digest, [Cite(c, 3)], Act(evict, 5), State(Once(digest, c), true));
    assert [Cite(c, 3)] + [Act(evict, 5)] == [Cite(c, 3), Act(evict, 5)];
    assert c in Once(digest, c).citations;
    OpensAfterEvictionIff(Once(digest, c), evict);
  }

  lemma CitedTwice(digest: Digest, a: Citation, b: Citation)
    ensures var ops, s := [Cite(a, 3), Cite(b, 3)], Citing(Once(digest, a), b, 3);
            ClockedRun(digest, ops) && After(digest, ops) == State(s, true) && Running(s)
  {
    CitedOnce(digest, a);
    RunTo(digest, [Cite(a, 3)], Cite(b, 3), State(Once(digest, a), true));
    assert [Cite(a, 3)] + [Cite(b, 3)] == [Cite(a, 3), Cite(b, 3)];
    RunIsSafe(digest, [Cite(a, 3), Cite(b, 3)]);
  }

  /** Cite as scratch and as bulk, then evict: the receipt has the stronger class, and the store cannot be
      opened again although no reader needs the payload. */
  lemma MixedClassesCannotReopen(digest: Digest, evict: Decision)
    requires !evict.archive
    ensures var ops := [Cite(Citation(false, Scratch), 3), Cite(Citation(false, Bulk), 3), Act(evict, 5)];
            ClockedRun(digest, ops) && !OpenSucceeds(After(digest, ops).slice)
  {
    var a, b := Citation(false, Scratch), Citation(false, Bulk);
    var s := Citing(Once(digest, a), b, 3);
    CitedTwice(digest, a, b);
    RunTo(digest, [Cite(a, 3), Cite(b, 3)], Act(evict, 5), State(s, true));
    assert [Cite(a, 3), Cite(b, 3)] + [Act(evict, 5)] == [Cite(a, 3), Cite(b, 3), Act(evict, 5)];
    assert s.citations == [a, b] && a in s.citations;
    OpensAfterEvictionIff(s, evict);
  }

  /** Cite by an event of a needed type, archive, and crash with the receipt of the eviction on disk: the
      eviction never happened, and still the store cannot be opened again. */
  lemma CrashedEvictionCannotReopen(digest: Digest, c: Citation, archive: Decision, evict: Decision)
    requires c.needed && archive.archive && !evict.archive && archive.id != evict.id && archive.at < evict.at
    ensures var ops := [Cite(c, 3), Act(archive, 5), Act(evict, 2)];
            ClockedRun(digest, ops) && !OpenSucceeds(After(digest, ops).slice)
  {
    CitedAndArchived(digest, c, archive);
    ArchivedThenActs(digest, c, archive, evict, 2);
    assert c in Retiring(Once(digest, c), archive, 5).citations;
    OpensAfterReceiptIff(Retiring(Once(digest, c), archive, 5), evict);
  }

  // -- rehydration with an arbitrary clock --

  /**
   * A completed rehydration catalogues the blob as hot; it has its bytes exactly when a hot
   * file was still there or no lifecycle event of the blob has a later time and id.
   */
  lemma RehydratedHotIff(s: Slice, id: nat, at: nat)
    requires Running(s) && RowIs(s, Evicted)
    ensures LastTombstone(s.log).Some?
    ensures var r := Restoring(s, id, at, 4);
            && RowIs(r, Hot)
            && (r.hot.Some? ==> r.hot.value == s.digest.content)
            && (r.hot.Some? <==> s.hot.Some? || forall i :: 0 <= i < |s.log| ==>
                  s.log[i].at < at || (s.log[i].at == at && s.log[i].id <= id))
  {
    RowIsLogState(s);
    EvictedHasTombstone(s);
    NoReceiptSupersedes(s);
  }

  lemma NoReceiptSupersedes(s: Slice)
    requires History(s.log) && ReceiptsKept(s.tombstones, s.log) && NothingPending(s.tombstones, s.log)
    requires LastTombstone(s.log).Some?
    ensures forall a :: a in s.tombstones ==> s.tombstones[a].previous != LastTombstone(s.log)
  {
    forall a | a in s.tombstones ensures s.tombstones[a].previous != LastTombstone(s.log) {
      var i := ReceiptEntry(s.tombstones, s.log, a);
      EarlierReceiptIsOlder(s.log, i);
    }
  }

  /** A rehydration dated before the eviction it undoes leaves the blob catalogued hot without bytes. */
  lemma BackdatedRehydration(s: Slice, id: nat, at: nat)
    requires Recovered(s) && RowIs(s, Evicted) && at < s.log[|s.log| - 1].at
    ensures LastTombstone(s.log).Some?
    ensures var r := Restoring(s, id, at, 4); RowIs(r, Hot) && r.hot.None? && r.archives == map[]
  {
    RowIsLogState(s);
    RehydratedHotIff(s, id, at);
  }

  /** An open is recovery, then replay, then reconciliation. */
  lemma OpenComposes(s: Slice, k: nat)
    requires k >= 4
    ensures var mid := Reopening(s, 4, {});
            Reopening(s, k, {}) == if k == 4 then mid
                                   else if k == 5 then ReplayPromotion(mid)
                                   else Tidying(ReplayRow(ReplayPromotion(mid)), k - 6)
  {
  }
}
