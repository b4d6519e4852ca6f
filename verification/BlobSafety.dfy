// Crash safety of the blob lifecycle: whatever step a crash interrupts, the bytes of a cited
// blob are where the log says, and reopening brings the files back in line with the log.

module BlobSafety {
  import opened Basics
  import opened BlobCatalog
  import opened BlobLifecycle

  // -- histories --

  lemma HistoryNext(log: seq<Entry>, e: Entry)
    requires History(log) && Continues(log, e)
    ensures History(log + [e])
  {
    var longer := log + [e];
    forall i | 0 <= i < |longer| ensures ContinuesAt(longer, i) {
      assert longer[..i] == log[..i];
      if i < |log| { assert ContinuesAt(log, i); } else { assert longer[..i] == log; }
    }
  }

  lemma HistoryIds(log: seq<Entry>, i: nat, j: nat)
    requires History(log) && i < j < |log|
    ensures log[i].id != log[j].id && log[i].at < log[j].at
  {
    assert ContinuesAt(log, j);
    assert log[..j][i] == log[i];
  }

  lemma LoggedNext(log: seq<Entry>, e: Entry, id: nat)
    ensures Logged(log + [e], id) <==> Logged(log, id) || e.id == id
  {
    var longer := log + [e];
    if Logged(log, id) {
      var i :| 0 <= i < |log| && log[i].id == id;
      assert longer[i].id == id;
    }
    if e.id == id { assert longer[|log|].id == id; }
  }

  // -- citing --

  /** The class of a prefix does not change when citations are added behind it. */
  lemma StrongestNext(citations: seq<Citation>, c: Citation)
    ensures var more := citations + [c];
            Strongest(more) == if citations == [] then c.retention else Merge(Strongest(citations), c.retention)
    ensures forall n :: 0 < n <= |citations| ==> (citations + [c])[..n] == citations[..n]
  {
    assert (citations + [c])[..|citations|] == citations;
  }

  lemma RowCounts(row: Option<Row>, citations: seq<Citation>, c: Citation)
    requires if row.None? then citations == [] else RowOf(row.value, citations) && row.value.references == |citations|
    ensures RowOf(Counted(row, c), citations + [c])
    ensures row.Some? ==> RowOf(row.value, citations + [c])
  {
    StrongestNext(citations, c);
    assert citations[..|citations|] == citations;
    assert (citations + [c])[..|citations| + 1] == citations + [c];
  }

  lemma CitingProjects(s: Slice, c: Citation, k: nat)
    requires Running(s)
    ensures Projected(Citing(s, c, k))
    ensures k >= 3 ==> RowReferences(Citing(s, c, k)) == |Citing(s, c, k).citations|
  {
    RowCounts(s.row, s.citations, c);
    assert s.log[..s.projected] == s.log;
  }

  lemma CitingIsSafe(s: Slice, c: Citation, k: nat)
    requires Running(s) && (s.row.Some? ==> s.row.value.availability != Evicted)
    ensures Inv(Citing(s, c, k))
    ensures k >= 3 ==> Running(Citing(s, c, k))
  {
    if s.row.Some? { RowIsLogState(s); }
    CitingProjects(s, c, k);
  }

  // -- retiring --

  /** What the planner and the clock promise about a decision. */
  ghost predicate Decided(s: Slice, d: Decision) {
    && s.row.Some?
    && (if d.archive then s.row.value.availability == Hot else s.row.value.availability != Evicted)
    && !Logged(s.log, d.id) && d.id !in s.tombstones
    && LaterThanAll(s.log, d.at)
    && (d.archive ==> FreshMonth(s.log, d.month))
  }

  lemma RowIsLogState(s: Slice)
    requires Running(s) && s.row.Some?
    ensures s.row.value.availability == LogState(s.log)
  {
    assert s.log[..s.projected] == s.log;
  }

  function Event(s: Slice, d: Decision): Entry
    requires s.row.Some?
  {
    Retire(d.id, d.at, Receipt(s, d))
  }

  lemma ReceiptContinues(s: Slice, d: Decision)
    requires Running(s) && Decided(s, d)
    ensures Continues(s.log, Event(s, d))
  {
    RowIsLogState(s);
  }

  lemma ReceiptFirst(tombstones: map<nat, Tombstone>, log: seq<Entry>, e: Entry)
    requires ReceiptsKept(tombstones, log) && NothingPending(tombstones, log)
    requires e.Retire? && Continues(log, e)
    ensures var filed := tombstones[e.id := e.tombstone]; ReceiptsKept(filed, log) && PendingContinues(filed, log)
  {
    var filed := tombstones[e.id := e.tombstone];
    forall i | 0 <= i < |log| ensures log[i].id != e.id { assert Logged(log, log[i].id); }
    forall a | Pending(filed, log, a) ensures a == e.id { }
  }

  lemma EventSettlesReceipt(tombstones: map<nat, Tombstone>, log: seq<Entry>, e: Entry)
    requires ReceiptsKept(tombstones, log) && NothingPending(tombstones, log)
    requires e.Retire? && Continues(log, e)
    ensures ReceiptsKept(tombstones[e.id := e.tombstone], log + [e])
    ensures NothingPending(tombstones[e.id := e.tombstone], log + [e])
  {
    ReceiptFirst(tombstones, log, e);
    forall a ensures Logged(log + [e], a) <==> Logged(log, a) || a == e.id { LoggedNext(log, e, a); }
  }

  lemma BeforeEventIsSafe(s: Slice, d: Decision, k: nat)
    requires Running(s) && Decided(s, d) && k <= 2
    ensures Inv(Retiring(s, d, k))
  {
    ReceiptContinues(s, d);
    ReceiptFirst(s.tombstones, s.log, Event(s, d));
    RowIsCurrent(s);
  }

  lemma EventIsSafe(s: Slice, d: Decision, k: nat)
    requires Running(s) && Decided(s, d) && k >= 3
    ensures History(Retiring(s, d, k).log)
    ensures ReceiptsKept(Retiring(s, d, k).tombstones, Retiring(s, d, k).log)
    ensures NothingPending(Retiring(s, d, k).tombstones, Retiring(s, d, k).log)
    ensures RightBytes(Retiring(s, d, k))
  {
    ReceiptContinues(s, d);
    HistoryNext(s.log, Event(s, d));
    EventSettlesReceipt(s.tombstones, s.log, Event(s, d));
  }

  /** Between operations the row has the class of all citations. */
  lemma RowIsCurrent(s: Slice)
    requires Running(s) && s.row.Some?
    ensures s.citations != [] && s.row.value.references == |s.citations| && s.row.value.retention == Strongest(s.citations)
  {
    assert s.citations[..|s.citations|] == s.citations;
  }

  lemma EventProjects(s: Slice, d: Decision, k: nat)
    requires Running(s) && Decided(s, d) && k >= 3
    ensures Projected(Retiring(s, d, k))
    ensures k >= 4 ==> Retiring(s, d, k).projected == |Retiring(s, d, k).log|
  {
    var r := Retiring(s, d, k);
    assert s.log[..s.projected] == s.log && (s.log + [Event(s, d)])[..s.projected] == s.log;
    assert k >= 4 ==> r.log[..r.projected] == r.log;
  }

  lemma EventKeeps(s: Slice, d: Decision, k: nat)
    requires Running(s) && Decided(s, d) && k >= 3
    requires NothingPending(Retiring(s, d, k).tombstones, Retiring(s, d, k).log)
    ensures Kept(Retiring(s, d, k))
  {
    RowIsLogState(s);
    RowIsCurrent(s);
    assert Retiring(s, d, k).log == s.log + [Event(s, d)];
  }

  lemma RetiringIsSafe(s: Slice, d: Decision, k: nat)
    requires Running(s) && Decided(s, d)
    ensures Inv(Retiring(s, d, k))
    ensures k >= 5 ==> Running(Retiring(s, d, k))
  {
    if k <= 2 {
      BeforeEventIsSafe(s, d, k);
    } else {
      EventIsSafe(s, d, k);
      EventProjects(s, d, k);
      EventKeeps(s, d, k);
    }
  }

  // -- restoring --

  ghost predicate Restorable(s: Slice, id: nat, at: nat) {
    && s.row.Some? && s.row.value.availability == Evicted
    && !Logged(s.log, id) && id !in s.tombstones && LaterThanAll(s.log, at)
  }

  lemma EvictedHasTombstone(s: Slice)
    requires Running(s) && s.row.Some? && s.row.value.availability == Evicted
    ensures LogState(s.log) == Evicted && LastTombstone(s.log).Some? && s.log != []
  {
    assert s.log[..s.projected] == s.log;
  }

  lemma ReceiptEntry(tombstones: map<nat, Tombstone>, log: seq<Entry>, a: nat) returns (i: nat)
    requires ReceiptsKept(tombstones, log) && a in tombstones && Logged(log, a)
    ensures i < |log| && log[i].Retire? && log[i].id == a && log[i].tombstone == tombstones[a]
  {
    i :| 0 <= i < |log| && log[i].id == a;
  }

  /** With increasing times nothing on record counts as later than a new rehydration. */
  lemma NothingSupersedes(s: Slice, id: nat, at: nat)
    requires Running(s) && Restorable(s, id, at)
    ensures LastTombstone(s.log).Some? && !Superseding(s, LastTombstone(s.log).value, at, id)
  {
    EvictedHasTombstone(s);
    var last := LastTombstone(s.log).value;
    forall a | a in s.tombstones ensures s.tombstones[a].previous != Some(last) {
      var i := ReceiptEntry(s.tombstones, s.log, a);
      EarlierReceiptIsOlder(s.log, i);
    }
  }

  /** No receipt of a history names the history's last receipt as its predecessor. */
  lemma {:induction false} LastIsDeepest(log: seq<Entry>, i: nat)
    requires History(log) && i < |log| && log[i].Retire?
    ensures LastTombstone(log).Some? && log[i].tombstone.decidedAt <= LastTombstone(log).value.decidedAt
  {
    var last := log[|log| - 1];
    assert ContinuesAt(log, |log| - 1);
    if i < |log| - 1 {
      HistoryPrefix(log, |log| - 1);
      LastIsDeepest(log[..|log| - 1], i);
      HistoryIds(log, i, |log| - 1);
      assert ContinuesAt(log, i);
    }
  }

  lemma HistoryPrefix(log: seq<Entry>, n: nat)
    requires History(log) && n <= |log|
    ensures History(log[..n])
  {
    forall i | 0 <= i < n ensures ContinuesAt(log[..n], i) {
      assert ContinuesAt(log, i);
      assert log[..n][..i] == log[..i];
    }
  }

  lemma {:induction false} LastTombstoneTime(log: seq<Entry>)
    requires History(log) && LastTombstone(log).Some?
    ensures exists i :: 0 <= i < |log| && log[i].Retire? && log[i].tombstone == LastTombstone(log).value
  {
    var last := log[|log| - 1];
    if last.Restore? {
      assert ContinuesAt(log, |log| - 1);
      HistoryPrefix(log, |log| - 1);
      LastTombstoneTime(log[..|log| - 1]);
      var i :| 0 <= i < |log| - 1 && log[..|log| - 1][i].Retire? && log[..|log| - 1][i].tombstone == last.expected;
      assert log[i].tombstone == last.expected;
    }
  }

  lemma EarlierReceiptIsOlder(log: seq<Entry>, i: nat)
    requires History(log) && i < |log| && log[i].Retire? && LastTombstone(log).Some?
    ensures log[i].tombstone.previous != LastTombstone(log)
  {
    assert ContinuesAt(log, i);
    if log[i].tombstone.previous.Some? {
      HistoryPrefix(log, i);
      LastTombstoneTime(log[..i]);
      var j :| 0 <= j < i && log[..i][j].Retire? && log[..i][j].tombstone == log[i].tombstone.previous.value;
      HistoryIds(log, j, i);
      assert ContinuesAt(log, j);
      LastIsDeepest(log, i);
    }
  }

  lemma RestoreContinues(s: Slice, id: nat, at: nat)
    requires Running(s) && Restorable(s, id, at)
    ensures LastTombstone(s.log).Some? && Continues(s.log, Restore(id, at, LastTombstone(s.log).value))
    ensures !Superseding(s, LastTombstone(s.log).value, at, id)
  {
    RowIsLogState(s);
    NothingSupersedes(s, id, at);
  }

  lemma RestoreReceipts(tombstones: map<nat, Tombstone>, log: seq<Entry>, e: Entry)
    requires ReceiptsKept(tombstones, log) && NothingPending(tombstones, log)
    requires e.Restore? && e.id !in tombstones
    ensures ReceiptsKept(tombstones, log + [e]) && NothingPending(tombstones, log + [e])
  {
    forall a ensures Logged(log + [e], a) <==> Logged(log, a) || a == e.id { LoggedNext(log, e, a); }
  }

  lemma RestoreBytes(s: Slice, id: nat, at: nat, k: nat)
    requires RightBytes(s) && s.row.Some? && LastTombstone(s.log).Some?
    ensures RightBytes(Restoring(s, id, at, k))
  {
  }

  lemma RestoreIsFiled(s: Slice, id: nat, at: nat, k: nat)
    requires History(s.log) && ReceiptsKept(s.tombstones, s.log) && NothingPending(s.tombstones, s.log)
    requires s.row.Some? && LastTombstone(s.log).Some? && id !in s.tombstones
    requires Continues(s.log, Restore(id, at, LastTombstone(s.log).value))
    ensures var r := Restoring(s, id, at, k);
            History(r.log) && ReceiptsKept(r.tombstones, r.log) && NothingPending(r.tombstones, r.log)
  {
    var e := Restore(id, at, LastTombstone(s.log).value);
    HistoryNext(s.log, e);
    RestoreReceipts(s.tombstones, s.log, e);
  }

  lemma RestoreProjects(s: Slice, id: nat, at: nat, k: nat)
    requires Running(s) && s.row.Some? && LastTombstone(s.log).Some?
    ensures var r := Restoring(s, id, at, k); Projected(r) && (k >= 4 ==> r.projected == |r.log|)
  {
    var e := Restore(id, at, LastTombstone(s.log).value);
    assert s.log[..s.projected] == s.log && (s.log + [e])[..s.projected] == s.log;
    assert (s.log + [e])[..s.projected + 1] == s.log + [e];
  }

  lemma RestoreStages(s: Slice, id: nat, at: nat, k: nat)
    requires Running(s) && Restorable(s, id, at) && LastTombstone(s.log).Some?
    requires !Superseding(s, LastTombstone(s.log).value, at, id)
    ensures var r := Restoring(s, id, at, k); StagesKept(r) && (k >= 4 ==> r.stages == map[])
  {
    var e := Restore(id, at, LastTombstone(s.log).value);
    if k >= 3 { assert s.stages[id := s.digest.content] - {id} == map[]; }
  }

  lemma StagingKeeps(s: Slice, id: nat, at: nat, k: nat)
    requires Running(s) && s.row.Some? && LastTombstone(s.log).Some? && k <= 1
    ensures Kept(Restoring(s, id, at, k))
  {
  }

  lemma RestoreKeeps(s: Slice, id: nat, at: nat, k: nat)
    requires Running(s) && Restorable(s, id, at) && LastTombstone(s.log).Some? && k >= 2
    requires !Superseding(s, LastTombstone(s.log).value, at, id)
    requires NothingPending(Restoring(s, id, at, k).tombstones, Restoring(s, id, at, k).log)
    ensures Kept(Restoring(s, id, at, k))
  {
    EvictedHasTombstone(s);
    assert Names(LastTombstone(s.log), s.citations);
    var e := Restore(id, at, LastTombstone(s.log).value);
    assert Restoring(s, id, at, k).log == s.log + [e];
  }

  lemma RestoringIsSafe(s: Slice, id: nat, at: nat, k: nat)
    requires Running(s) && Restorable(s, id, at)
    ensures LastTombstone(s.log).Some? && Inv(Restoring(s, id, at, k))
    ensures k >= 4 ==> Running(Restoring(s, id, at, k)) && Restoring(s, id, at, k).hot == Some(s.digest.content)
  {
    RestoreContinues(s, id, at);
    RestoreIsFiled(s, id, at, k);
    RestoreBytes(s, id, at, k);
    RestoreProjects(s, id, at, k);
    RestoreStages(s, id, at, k);
    if k <= 1 { StagingKeeps(s, id, at, k); } else { RestoreKeeps(s, id, at, k); }
  }

  // -- reading --

  lemma {:induction false} LastReceipt(log: seq<Entry>) returns (i: nat)
    requires History(log) && LastTombstone(log).Some?
    ensures i < |log| && log[i].Retire? && log[i].tombstone == LastTombstone(log).value
    ensures forall j :: 0 <= j < |log| && log[j].Retire? ==> j <= i
  {
    i := |log| - 1;
    if log[i].Restore? {
      assert ContinuesAt(log, i);
      HistoryPrefix(log, i);
      var j := LastReceipt(log[..i]);
      i := j;
    }
  }

  /** The receipt read as the latest is the one of the last retirement. */
  lemma LatestIsLast(s: Slice)
    requires History(s.log) && ReceiptsKept(s.tombstones, s.log) && NothingPending(s.tombstones, s.log)
    requires LastTombstone(s.log).Some?
    ensures forall t :: IsLatest(s.tombstones, t) <==> t == LastTombstone(s.log).value
  {
    var i := LastReceipt(s.log);
    var last := LastTombstone(s.log).value;
    assert ContinuesAt(s.log, i);
    assert last in s.tombstones.Values by { assert s.tombstones[s.log[i].id] == last; }
    forall a | a in s.tombstones && s.tombstones[a] != last ensures LaterDecision(last, s.tombstones[a]) {
      var j := ReceiptEntry(s.tombstones, s.log, a);
      HistoryIds(s.log, j, i);
      assert ContinuesAt(s.log, j);
    }
  }

  lemma ReadThroughReceipt(s: Slice, last: Tombstone)
    requires forall t :: IsLatest(s.tombstones, t) <==> t == last
    requires s.hot.None?
    ensures Read(s) == if last.month.None? then WasEvicted(last.retention)
                       else if last.month.value in s.archives && Sha256(s.archives[last.month.value]) == s.digest
                       then Content(s.archives[last.month.value]) else Unreadable
  {
    assert IsLatest(s.tombstones, last);
  }

  /** A cited blob can be read, from the hot file or its archive, unless its eviction is in the log. */
  lemma ReadsAsLogged(s: Slice)
    requires Inv(s) && NothingPending(s.tombstones, s.log) && s.citations != []
    ensures s.hot.Some? ==> Read(s) == Content(s.digest.content)
    ensures s.hot.None? && LogState(s.log) == Archived ==> Read(s) == Content(s.digest.content)
    ensures s.hot.None? && LogState(s.log) == Evicted ==> Read(s) == WasEvicted(Strongest(s.citations))
    ensures s.hot.None? && LogState(s.log) == Hot ==>
              s.log != [] && s.log[|s.log| - 1].id in s.stages && s.stages[s.log[|s.log| - 1].id] == s.digest.content
  {
    assert RightBytes(s) && Kept(s);
    if s.hot.Some? {
      assert Sha256(s.hot.value) == s.digest;
    } else if LogState(s.log) != Hot {
      LatestIsLast(s);
      ReadThroughReceipt(s, LastTombstone(s.log).value);
    }
  }
}