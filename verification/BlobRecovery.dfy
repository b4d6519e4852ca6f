// Reopening after a crash: every stage of recovery, replay and reconciliation keeps the blob
// safe, and a completed open leaves files, receipts and row in line with the log.

module BlobRecovery {
  import opened Basics
  import opened BlobCatalog
  import opened BlobLifecycle
  import opened BlobSafety

  lemma PendingArchivesGo(s: Slice)
    requires Inv(s)
    ensures Inv(DropPendingArchives(s))
  {
    var r := DropPendingArchives(s);
    if LogState(s.log) == Archived {
      var m := LastTombstone(s.log).value.month.value;
      assert m in r.archives;
    }
  }

  lemma LoggedReceiptsStay(tombstones: map<nat, Tombstone>, log: seq<Entry>, pending: set<nat>)
    requires ReceiptsKept(tombstones, log)
    requires forall a :: a in pending <==> Pending(tombstones, log, a)
    ensures ReceiptsKept(tombstones - pending, log) && NothingPending(tombstones - pending, log)
  {
    forall i | 0 <= i < |log| ensures Logged(log, log[i].id) { }
  }

  lemma PendingReceiptsGo(s: Slice)
    requires Inv(s)
    ensures Inv(DropPendingReceipts(s))
    ensures NothingPending(DropPendingReceipts(s).tombstones, s.log)
  {
    LoggedReceiptsStay(s.tombstones, s.log, PendingActions(s));
  }

  /** While a blob is archived, its archive is named by a receipt on disk. */
  lemma LiveArchiveIsNamed(s: Slice)
    requires ReceiptsKept(s.tombstones, s.log) && LogState(s.log) == Archived
    ensures LastTombstone(s.log).value.month.value in ReceiptMonths(s)
  {
    var last := s.log[|s.log| - 1];
    assert s.tombstones[last.id] == last.tombstone;
  }

  /** Only the archive that a blob is read from has to stay. */
  lemma FewerArchives(s: Slice, gone: set<nat>)
    requires Inv(s)
    requires LogState(s.log) == Archived ==> LastTombstone(s.log).value.month.value !in gone
    ensures Inv(s.(archives := s.archives - gone))
  {
  }

  lemma UnnamedArchivesGo(s: Slice, gone: set<nat>)
    requires Inv(s) && gone !! ReceiptMonths(s)
    ensures Inv(s.(archives := s.archives - gone))
  {
    if LogState(s.log) == Archived { LiveArchiveIsNamed(s); }
    FewerArchives(s, gone);
  }

  lemma OrphansAreUnnamed(s: Slice)
    ensures DropOrphanArchives(s) == s.(archives := s.archives - (s.archives.Keys - ReceiptMonths(s)))
  {
  }

  lemma SpentStagesGo(s: Slice, gone: set<nat>)
    requires Inv(s) && gone <= SpentStages(s)
    ensures Inv(s.(stages := s.stages - gone))
  {
    if s.citations != [] && LogState(s.log) == Hot && s.hot.None? {
      var last := s.log[|s.log| - 1];
      assert HasRestore(s.log, last.id);
    }
  }

  /** After the spent stages are gone only the stage of the unprojected rehydration can be left. */
  lemma OneStageLeft(s: Slice)
    requires Inv(s) && SpentStages(s) == {}
    ensures forall id :: id in s.stages ==>
              s.hot.None? && s.projected < |s.log| && s.log[|s.log| - 1].Restore? && s.log[|s.log| - 1].id == id
  {
    forall id | id in s.stages
      ensures s.hot.None? && s.projected < |s.log| && s.log[|s.log| - 1].Restore? && s.log[|s.log| - 1].id == id
    {
      assert id !in SpentStages(s);
      var i :| 0 <= i < |s.log| && s.log[i].Restore? && s.log[i].id == id;
      assert Logged(s.log, id);
    }
  }

  /** Nothing counts as later than a rehydration that is the last event of the log. */
  lemma LastIsNotSuperseded(s: Slice)
    requires History(s.log) && ReceiptsKept(s.tombstones, s.log) && NothingPending(s.tombstones, s.log)
    requires s.log != [] && s.log[|s.log| - 1].Restore?
    ensures var e := s.log[|s.log| - 1]; !Superseding(s, e.expected, e.at, e.id)
  {
    var e := s.log[|s.log| - 1];
    forall a | a in s.tombstones ensures s.tombstones[a].previous != Some(e.expected) {
      var i := ReceiptEntry(s.tombstones, s.log, a);
      EarlierReceiptIsOlder(s.log, i);
    }
    forall i | 0 <= i < |s.log| - 1 ensures s.log[i].at < e.at { HistoryIds(s.log, i, |s.log| - 1); }
  }

  lemma PromoteIsSafe(s: Slice, id: nat)
    requires Inv(s) && (id in s.stages ==> LogState(s.log) == Hot)
    ensures Inv(Promote(s, id))
  {
  }

  lemma PromotionReplays(s: Slice)
    requires Inv(s) && NothingPending(s.tombstones, s.log) && SpentStages(s) == {}
    ensures Inv(ReplayPromotion(s)) && ReplayPromotion(s).stages == map[]
    ensures s.citations != [] && LogState(s.log) == Hot ==> ReplayPromotion(s).hot.Some?
  {
    OneStageLeft(s);
    if s.projected < |s.log| && s.log[s.projected].Restore? {
      assert s.projected == |s.log| - 1;
      var e := s.log[s.projected];
      LastIsNotSuperseded(s);
      assert ReplayPromotion(s) == Promote(s, e.id);
      PromoteIsSafe(s, e.id);
    } else {
      assert ReplayPromotion(s) == s;
      assert s.stages == map[] by { assert forall id :: id !in s.stages; }
    }
  }

  lemma RowReplays(s: Slice)
    requires Inv(s) && NothingPending(s.tombstones, s.log) && s.stages == map[]
    requires s.citations != [] && LogState(s.log) == Hot ==> s.hot.Some?
    ensures Running(ReplayRow(s))
  {
    assert s.log[..|s.log|] == s.log && s.citations[..|s.citations|] == s.citations;
  }

  lemma RetiredHotGoes(s: Slice)
    requires Running(s)
    ensures Running(DropRetiredHot(s))
  {
    if s.row.Some? { RowIsLogState(s); }
  }

  lemma EvictedArchivesGo(s: Slice, gone: set<nat>)
    requires Running(s) && s.row.Some? && s.row.value.availability == Evicted
    ensures Running(s.(archives := s.archives - gone))
  {
    RowIsLogState(s);
  }

  lemma EarlyStagesAreSafe(s: Slice, k: nat, part: set<nat>)
    requires Inv(s) && k <= 2
    ensures Inv(Reopening(s, k, part))
    ensures k >= 2 ==> NothingPending(Reopening(s, k, part).tombstones, Reopening(s, k, part).log)
  {
    var s1 := DropPendingArchives(s);
    PendingArchivesGo(s);
    if k == 2 {
      var s2 := DropPendingReceipts(s1);
      PendingReceiptsGo(s1);
      UnnamedArchivesGo(s2, part - ReceiptMonths(s2));
    }
  }

  lemma LateStages(s: Slice, k: nat, part: set<nat>)
    requires k >= 3
    ensures Reopening(s, k, part) == Continue(DropPendingReceipts(DropPendingArchives(s)), k, part)
  {
  }

  /** Reopening, cut short anywhere or repeated from any crash, keeps the blob safe. */
  lemma ReopeningIsSafe(s: Slice, k: nat, part: set<nat>)
    requires Inv(s)
    ensures Inv(Reopening(s, k, part))
    ensures k >= 2 ==> NothingPending(Reopening(s, k, part).tombstones, Reopening(s, k, part).log)
    ensures k >= 6 ==> Running(Reopening(s, k, part))
  {
    if k <= 2 {
      EarlyStagesAreSafe(s, k, part);
    } else {
      var s1 := DropPendingArchives(s);
      PendingArchivesGo(s);
      PendingReceiptsGo(s1);
      LateStages(s, k, part);
      FromOrphans(DropPendingReceipts(s1), k, part);
    }
  }

  /** The stages of an open from the orphan archives on. */
  function Continue(s2: Slice, k: nat, part: set<nat>): Slice
    requires k >= 3
  {
    var s3 := DropOrphanArchives(s2);
    if k == 3 then s3.(stages := s3.stages - (part * SpentStages(s3)))
    else if k == 4 then DropSpentStages(s3)
    else FromPromotion(DropSpentStages(s3), k, part)
  }

  function FromPromotion(s4: Slice, k: nat, part: set<nat>): Slice
    requires k >= 5
  {
    FromReplay(ReplayPromotion(s4), k, part)
  }

  function FromReplay(s5: Slice, k: nat, part: set<nat>): Slice
    requires k >= 5
  {
    if k == 5 then s5
    else if k == 6 then ReplayRow(s5)
    else
      var s7 := DropRetiredHot(ReplayRow(s5));
      if k >= 8 then DropEvictedArchives(s7)
      else if s7.row.Some? && s7.row.value.availability == Evicted then
        s7.(archives := s7.archives - (part * ReceiptMonths(s7)))
      else s7
  }

  lemma SpentStagesAllGo(s: Slice)
    requires Inv(s)
    ensures Inv(DropSpentStages(s)) && SpentStages(DropSpentStages(s)) == {}
  {
    SpentStagesGo(s, SpentStages(s));
  }

  lemma OrphanArchivesGo(s: Slice)
    requires Inv(s)
    ensures Inv(DropOrphanArchives(s))
  {
    OrphansAreUnnamed(s);
    UnnamedArchivesGo(s, s.archives.Keys - ReceiptMonths(s));
  }

  lemma FinishOpen(s5: Slice, k: nat, part: set<nat>)
    requires Inv(s5) && NothingPending(s5.tombstones, s5.log) && s5.stages == map[] && k >= 6
    requires s5.citations != [] && LogState(s5.log) == Hot ==> s5.hot.Some?
    ensures Running(FromReplay(s5, k, part))
  {
    RowReplays(s5);
    if k > 6 {
      var s7 := DropRetiredHot(ReplayRow(s5));
      RetiredHotGoes(ReplayRow(s5));
      if s7.row.Some? && s7.row.value.availability == Evicted {
        EvictedArchivesGo(s7, if k >= 8 then ReceiptMonths(s7) else part * ReceiptMonths(s7));
      }
    }
  }

  lemma FromStages(s4: Slice, k: nat, part: set<nat>)
    requires Inv(s4) && NothingPending(s4.tombstones, s4.log) && SpentStages(s4) == {} && k >= 5
    ensures var r := FromPromotion(s4, k, part); Inv(r) && NothingPending(r.tombstones, r.log) && (k >= 6 ==> Running(r))
  {
    PromotionReplays(s4);
    if k > 5 { FinishOpen(ReplayPromotion(s4), k, part); }
  }


  lemma FromOrphans(s2: Slice, k: nat, part: set<nat>)
    requires Inv(s2) && NothingPending(s2.tombstones, s2.log) && k >= 3
    ensures Inv(Continue(s2, k, part)) && NothingPending(Continue(s2, k, part).tombstones, Continue(s2, k, part).log)
    ensures k >= 6 ==> Running(Continue(s2, k, part))
  {
    var s3 := DropOrphanArchives(s2);
    OrphanArchivesGo(s2);
    if k == 3 {
      SpentStagesGo(s3, part * SpentStages(s3));
    } else {
      SpentStagesAllGo(s3);
      if k > 4 { FromStages(DropSpentStages(s3), k, part); }
    }
  }

  /** The files agree with the log: one copy of a live blob where the row says, no leftovers. */
  ghost predicate Recovered(s: Slice) {
    && Running(s)
    && s.archives.Keys <= ReceiptMonths(s)
    && (s.citations != [] ==>
          match LogState(s.log)
          case Hot => s.hot == Some(s.digest.content)
          case Archived => s.hot == None && Read(s) == Content(s.digest.content)
          case Evicted => s.hot == None && s.archives == map[] && Read(s) == WasEvicted(Strongest(s.citations)))
  }

  lemma OnlyNamedArchivesLeft(s: Slice)
    ensures Reopening(s, 8, {}).archives.Keys <= ReceiptMonths(Reopening(s, 8, {}))
    ensures var r := Reopening(s, 8, {}); r.row.Some? && r.row.value.availability == Evicted ==> r.archives == map[]
    ensures var r := Reopening(s, 8, {}); r.row.Some? && r.row.value.availability != Hot ==> r.hot.None?
  {
    var s3 := DropOrphanArchives(DropPendingReceipts(DropPendingArchives(s)));
    assert s3.archives.Keys <= ReceiptMonths(s3);
  }

  lemma ReopenedIsRecovered(s: Slice)
    requires Inv(s)
    ensures Recovered(Reopening(s, 8, {}))
  {
    ReopeningIsSafe(s, 8, {});
    OnlyNamedArchivesLeft(s);
    var r := Reopening(s, 8, {});
    if r.citations != [] {
      RowIsLogState(r);
      ReadsAsLogged(r);
    }
  }

  // -- when reopening is possible --

  lemma PendingMonthIsFresh(s: Slice)
    requires Inv(s)
    ensures ArchivesPresent(DropPendingReceipts(DropPendingArchives(s))) <==> ArchivesPresent(s)
  {
    var s1 := DropPendingArchives(s);
    var s2 := DropPendingReceipts(s1);
    forall a | a in s.tombstones && Logged(s.log, a) && s.tombstones[a].month.Some?
      ensures s.tombstones[a].month.value in s1.archives <==> s.tombstones[a].month.value in s.archives
    {
      var i := ReceiptEntry(s.tombstones, s.log, a);
      forall b | b in PendingActions(s) && s.tombstones[b].month.Some?
        ensures s.tombstones[b].month.value != s.tombstones[a].month.value
      {
        assert Continues(s.log, Retire(b, s.tombstones[b].decidedAt, s.tombstones[b]));
      }
    }
    forall a ensures a in s2.tombstones <==> a in s.tombstones && Logged(s.log, a) { }
  }

  lemma RowBeforeMissingEvent(s: Slice)
    requires Projected(s) && s.projected < |s.log| && s.citations != []
    ensures s.projected == |s.log| - 1 && s.row.Some? && s.row.value.references == |s.citations|
    ensures s.row.value.availability == LogState(s.log[..s.projected])
    ensures s.row.value.retention == Strongest(s.citations)
  {
    assert s.citations[..|s.citations|] == s.citations;
  }

  lemma RehydratedReceipt(tombstones: map<nat, Tombstone>, log: seq<Entry>)
    requires History(log) && ReceiptsKept(tombstones, log) && log != [] && log[|log| - 1].Restore?
    ensures log[|log| - 1].expected in tombstones.Values && log[|log| - 1].expected.month.None?
    ensures LogState(log[..|log| - 1]) == Evicted
  {
    var front := log[..|log| - 1];
    assert ContinuesAt(log, |log| - 1);
    HistoryPrefix(log, |log| - 1);
    var i := LastReceipt(front);
    assert log[i] == front[i] && tombstones[log[i].id] == log[|log| - 1].expected;
  }

  /** The event a crash left unprojected satisfies its reducer. */
  lemma MissingEventIsAccepted(s: Slice)
    requires Inv(s)
    ensures ReplayAccepts(s)
  {
    if s.projected < |s.log| {
      RowBeforeMissingEvent(s);
      if s.log[s.projected].Restore? { RehydratedReceipt(s.tombstones, s.log); }
    }
  }

  /** A rehydration that is not promoted yet still reads as evicted. */
  lemma StagedReadsEvicted(r: Slice)
    requires Inv(r) && NothingPending(r.tombstones, r.log) && r.hot.None?
    requires r.log != [] && r.log[|r.log| - 1].Restore?
    ensures Read(r) == WasEvicted(LastTombstone(r.log).value.retention)
  {
    RehydratedReceipt(r.tombstones, r.log);
    LatestIsLast(r);
    ReadThroughReceipt(r, LastTombstone(r.log).value);
  }

  /** The blob can be read from its hot file or its archive. */
  ghost predicate BytesThere(s: Slice) {
    s.hot.Some? || (NothingPending(s.tombstones, s.log) && LogState(s.log) == Archived)
  }

  lemma SettledReads(s: Slice)
    requires Inv(s) && s.citations != [] && NothingPending(s.tombstones, s.log)
    ensures Read(s) == if BytesThere(s) then Content(s.digest.content) else WasEvicted(Strongest(s.citations))
  {
    ReadsAsLogged(s);
    if s.hot.None? && LogState(s.log) == Hot { StagedReadsEvicted(s); }
  }

  /** A receipt without its event is read as the latest one. */
  lemma PendingReads(s: Slice, a: nat)
    requires Inv(s) && s.citations != [] && Pending(s.tombstones, s.log, a)
    ensures Read(s) == if s.hot.Some? then Content(s.digest.content) else WasEvicted(Strongest(s.citations))
    ensures s.hot.None? ==> LogState(s.log) == Archived
  {
    var t := s.tombstones[a];
    var e := Retire(a, t.decidedAt, t);
    assert Continues(s.log, e);
    assert Names(Some(t), s.citations);
    if s.hot.None? {
      assert s.projected == |s.log| && LogState(s.log) == Archived && t.month.None?;
      PendingIsLatest(s, a);
      ReadThroughReceipt(s, t);
    }
  }

  lemma OnlyPending(tombstones: map<nat, Tombstone>, log: seq<Entry>, a: nat, b: nat)
    requires PendingContinues(tombstones, log) && Pending(tombstones, log, a) && b in tombstones
    ensures b == a || Logged(log, b)
  {
    assert Pending(tombstones, log, b) <==> !Logged(log, b);
  }

  lemma PendingIsLatest(s: Slice, a: nat)
    requires ReceiptsKept(s.tombstones, s.log) && PendingContinues(s.tombstones, s.log) && History(s.log)
    requires Pending(s.tombstones, s.log, a)
    ensures forall t :: IsLatest(s.tombstones, t) <==> t == s.tombstones[a]
  {
    var last := s.tombstones[a];
    assert Continues(s.log, Retire(a, last.decidedAt, last));
    assert last in s.tombstones.Values;
    forall b | b in s.tombstones && s.tombstones[b] != last ensures LaterDecision(last, s.tombstones[b]) {
      OnlyPending(s.tombstones, s.log, a, b);
      var j := ReceiptEntry(s.tombstones, s.log, b);
      assert ContinuesAt(s.log, j);
      assert s.log[j].at < last.decidedAt;
    }
  }

  /** Reading all segments gets past the blob exactly when its bytes are there, or no event that cites it is
      of a type readers need and all of them carry one class. */
  lemma ReadsThroughIff(s: Slice)
    requires Inv(s)
    ensures ReadsThrough(s) <==> s.citations == [] || BytesThere(s) || Spared(s.citations, Strongest(s.citations))
  {
    if s.citations != [] {
      if NothingPending(s.tombstones, s.log) {
        SettledReads(s);
      } else {
        var a :| Pending(s.tombstones, s.log, a);
        PendingReads(s, a);
      }
    }
  }

  lemma ReopenKeeps(s: Slice, k: nat, part: set<nat>)
    ensures Reopening(s, k, part).log == s.log && Reopening(s, k, part).citations == s.citations
    ensures k <= 4 ==> Reopening(s, k, part).hot == s.hot
  {
  }

  /** Recovery only makes reading easier: it may drop a receipt that made an archived blob read as evicted. */
  lemma RecoveredReadsThrough(s: Slice)
    requires Inv(s) && ReadsThrough(s)
    ensures ReadsThrough(Reopening(s, 4, {}))
  {
    ReopeningIsSafe(s, 4, {});
    ReopenKeeps(s, 4, {});
    ReadsThroughIff(s);
    ReadsThroughIff(Reopening(s, 4, {}));
  }

  /**
   * From any reachable state an open gets through its reading, recovery, verification and replay
   * exactly when every segment can be read as the files are and every archive named by a receipt of
   * the log is still on disk.
   */
  lemma OpenSucceedsIff(s: Slice)
    requires Inv(s)
    ensures OpenSucceeds(s) <==> ReadsThrough(s) && ArchivesPresent(s)
  {
    PendingMonthIsFresh(s);
    ReopeningIsSafe(s, 4, {});
    if ReadsThrough(s) { RecoveredReadsThrough(s); }
    MissingEventIsAccepted(Reopening(s, 4, {}));
  }
}
