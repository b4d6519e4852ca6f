// The store's own steps on the files of one blob. Each method does its durable writes one by
// one; `crash` says how many of them happen before the process dies.

module BlobStore {
  import opened Basics
  import opened BlobCatalog
  import opened BlobLifecycle
  import opened BlobSafety
  import BlobRecovery
  import opened BlobRuns

  datatype RehydrateError = BytesDiffer | NotEvicted | StaleTombstone | SegmentUnreadable

  class Files {
    const digest: Digest
    var hot: Option<Bytes>
    var archives: map<nat, Bytes>
    var tombstones: map<nat, Tombstone>
    var stages: map<nat, Bytes>
    var log: seq<Entry>
    var citations: seq<Citation>
    var row: Option<Row>
    var projected: nat

    function View(): (s: Slice)
      reads this
    {
      Slice(digest, hot, archives, tombstones, stages, log, citations, row, projected)
    }

    constructor (digest: Digest)
      ensures this.digest == digest && View() == Fresh(digest).slice
    {
      this.digest := digest;
      hot, archives, tombstones, stages := None, map[], map[], map[];
      log, citations, row, projected := [], [], None, 0;
    }

    /** The receipt with the greatest decision time and action id, among the files on disk. */
    method LatestTombstone() returns (r: Option<Tombstone>)
      requires forall a :: a in tombstones ==> tombstones[a].action == a
      ensures r.None? ==> tombstones == map[]
      ensures r.Some? ==> IsLatest(tombstones, r.value)
    {
      r := None;
      var todo := tombstones.Keys;
      while todo != {}
        invariant todo <= tombstones.Keys
        invariant r.None? ==> todo == tombstones.Keys
        invariant r.Some? ==> r.value in tombstones.Values && r.value.action in tombstones.Keys - todo
        invariant r.Some? ==> forall a :: a in tombstones.Keys - todo && tombstones[a] != r.value ==>
                    LaterDecision(r.value, tombstones[a])
      {
        var a :| a in todo;
        if r.None? || LaterDecision(tombstones[a], r.value) {
          r := Some(tombstones[a]);
        }
        todo := todo - {a};
      }
      if r.None? { assert tombstones.Keys == {}; }
    }

    /** Reads the hot file, or what the latest receipt points to. */
    method ReadBlob() returns (r: ReadResult)
      requires forall a :: a in tombstones ==> tombstones[a].action == a
      ensures r == Read(View())
    {
      if hot.Some? {
        return if Sha256(hot.value) == digest then Content(hot.value) else Unreadable;
      }
      var latest := LatestTombstone();
      if latest.None? {
        assert forall t :: !IsLatest(tombstones, t);
        return Unreadable;
      }
      assert forall t :: IsLatest(tombstones, t) ==> t == latest.value;
      ReadThroughReceipt(View(), latest.value);
      if latest.value.month.None? { return WasEvicted(latest.value.retention); }
      var month := latest.value.month.value;
      if month in archives && Sha256(archives[month]) == digest {
        return Content(archives[month]);
      }
      return Unreadable;
    }

    /** Reads the payload of every event that cites the blob, as the reading of all segments does. */
    method ReadAll() returns (ok: bool)
      requires forall a :: a in tombstones ==> tombstones[a].action == a
      ensures ok <==> ReadsThrough(View())
    {
      for n := 0 to |citations|
        invariant n == 0 || match Read(View())
                            case Content(_) => true
                            case WasEvicted(retention) => Spared(citations[..n], retention)
                            case Unreadable => false
      {
        var read := ReadBlob();
        assert citations[..n + 1] == citations[..n] + [citations[n]];
        assert citations[n] in citations;
        if read.Unreadable? || (read.WasEvicted? && (citations[n].needed || citations[n].retention != read.retention)) {
          return false;
        }
      }
      assert citations[..|citations|] == citations;
      return true;
    }

    /** Appends an event whose payload is the blob, unless the blob is evicted. */
    method Cite(content: Bytes, c: Citation, crash: nat) returns (appended: bool)
      requires Sha256(content) == digest
      modifies this
      ensures View() == if old(RowIs(View(), Evicted)) then old(View()) else Citing(old(View()), c, crash)
      ensures appended <==> !old(RowIs(View(), Evicted)) && crash >= 3
    {
      if row.Some? && row.value.availability == Evicted { return false; }
      if crash == 0 { return false; }
      if hot.None? { hot := Some(content); }
      if crash == 1 { return false; }
      citations := citations + [c];
      if crash == 2 { return false; }
      if row.None? {
        row := Some(Row(1, c.retention, Hot));
      } else {
        row := Some(Row(row.value.references + 1, Merge(row.value.retention, c.retention), row.value.availability));
      }
      return true;
    }

    /** The steps of a decision once the bytes and the previous receipt have been read. */
    method CarryOut(d: Decision, content: Bytes, previous: Option<Tombstone>, crash: nat) returns (applied: bool)
      requires row.Some? && content == digest.content && previous == LastTombstone(log)
      modifies this
      ensures old(row).Some? && View() == Retiring(old(View()), d, crash)
      ensures applied <==> crash >= 5
    {
      if crash == 0 { return false; }
      if d.archive { archives := archives[d.month := content]; }
      if crash == 1 { return false; }
      var receipt := Tombstone(if d.archive then Some(d.month) else None, d.id, d.at, row.value.references, row.value.retention, previous);
      tombstones := tombstones[d.id := receipt];
      if crash == 2 { return false; }
      log := log + [Retire(d.id, d.at, receipt)];
      if crash == 3 { return false; }
      var availability := row.value.availability;
      row := Some(row.value.(availability := receipt.Leaves()));
      projected := projected + 1;
      if crash == 4 { return false; }
      if availability == Archived && previous.Some? && previous.value.month.Some? {
        archives := archives - {previous.value.month.value};
      } else {
        hot := None;
      }
      return true;
    }

    /** Archives or evicts: the copy it replaces goes last. */
    method ApplyDecision(d: Decision, crash: nat) returns (applied: bool)
      requires Running(View()) && Decided(View(), d) && citations != []
      modifies this
      ensures View() == Retiring(old(View()), d, crash)
      ensures applied <==> crash >= 5
    {
      ghost var before := View();
      RowIsLogState(before);
      var content := ReadBlob();
      ReadsAsLogged(before);
      var previous := LatestTombstone();
      PreviousIsLast(before, previous);
      applied := CarryOut(d, content.bytes, previous, crash);
    }

    /** Stage, event, promotion, row: the steps of a rehydration whose checks have passed. */
    method ApplyRehydration(content: Bytes, expected: Tombstone, id: nat, at: nat, crash: nat) returns (done: bool)
      requires Sha256(content) == digest && row.Some? && LastTombstone(log) == Some(expected)
      modifies this
      ensures old(LastTombstone(log)).Some? && View() == Restoring(old(View()), id, at, crash)
      ensures done <==> crash >= 4
    {
      var later := Superseding(View(), expected, at, id);
      if crash == 0 { return false; }
      stages := stages[id := content];
      if crash == 1 { return false; }
      log := log + [Restore(id, at, expected)];
      if crash == 2 { return false; }
      if !later {
        if hot.None? { hot := Some(stages[id]); }
        stages := stages - {id};
      }
      if crash == 3 { return false; }
      row := Some(row.value.(availability := Hot));
      projected := projected + 1;
      return true;
    }

    /** The reducer reads every segment before the append; a refused rehydration takes its stage back. */
    method Unstage(content: Bytes, id: nat, crash: nat)
      requires Sha256(content) == digest && id !in stages
      modifies this`stages
      ensures View() == Unstaging(old(View()), id, crash)
    {
      if crash == 0 { return; }
      ghost var was := stages;
      stages := stages[id := content];
      if crash == 1 { return; }
      stages := stages - {id};
      assert stages == was;
    }

    /** Brings an evicted blob back from bytes the caller supplies. */
    method Rehydrate(content: Bytes, expected: Tombstone, id: nat, at: nat, crash: nat)
      returns (r: Result<bool, RehydrateError>)
      requires Running(View())
      modifies this
      ensures r == Err(BytesDiffer) <==> Sha256(content) != digest
      ensures r == Err(NotEvicted) <==> Sha256(content) == digest && !old(RowIs(View(), Evicted))
      ensures r == Err(StaleTombstone) <==>
                && Sha256(content) == digest && old(RowIs(View(), Evicted))
                && old(LastTombstone(log)) != Some(expected)
      ensures r == Err(SegmentUnreadable) <==>
                && Sha256(content) == digest && old(RowIs(View(), Evicted))
                && old(LastTombstone(log)) == Some(expected) && !old(ReadsThrough(View()))
      ensures r.Err? && r != Err(SegmentUnreadable) ==> View() == old(View())
      ensures r == Err(SegmentUnreadable) ==> View() == Unstaging(old(View()), id, crash)
      ensures r.Ok? ==> old(LastTombstone(log)).Some? && View() == Restoring(old(View()), id, at, crash)
      ensures r.Ok? ==> r.value == (crash >= 4)
    {
      if Sha256(content) != digest { return Err(BytesDiffer); }
      if row.None? || row.value.availability != Evicted { return Err(NotEvicted); }
      var latest := LatestTombstone();
      PreviousIsLast(View(), latest);
      if latest != Some(expected) { return Err(StaleTombstone); }
      var readable := ReadAll();
      if !readable {
        Unstage(content, id, crash);
        return Err(SegmentUnreadable);
      }
      var done := ApplyRehydration(content, expected, id, at, crash);
      return Ok(done);
    }

    /** Removes hot files of retired blobs and archive files of evicted ones. */
    method Reconcile(crash: nat)
      modifies this`hot, this`archives
      ensures View() == Tidying(old(View()), crash)
    {
      if crash == 0 { return; }
      if row.Some? && row.value.availability != Hot { hot := None; }
      if crash == 1 { return; }
      if row.Some? && row.value.availability == Evicted { archives := archives - ReceiptMonths(View()); }
    }

    /** Reads every segment, then removes what operations left behind before their event, and spent stages. */
    method RecoverArtifacts(crash: nat) returns (ok: bool)
      requires forall a :: a in tombstones ==> tombstones[a].action == a
      modifies this`archives, this`tombstones, this`stages
      ensures var (reached, _) := Reached(old(View()), if crash < 4 then crash else 4, {});
              View() == Reopening(old(View()), reached, {})
      ensures ok <==> ReadsThrough(old(View())) && ArchivesPresent(DropPendingReceipts(DropPendingArchives(old(View())))) && crash >= 4
    {
      var readable := ReadAll();
      if !readable { return false; }
      if crash == 0 { return false; }
      var pending := PendingActions(View());
      archives := archives - (set a | a in pending && tombstones[a].month.Some? :: tombstones[a].month.value);
      if crash == 1 { return false; }
      tombstones := tombstones - pending;
      if !ArchivesPresent(View()) || crash == 2 { return false; }
      archives := map m | m in archives && m in ReceiptMonths(View()) :: archives[m];
      if crash == 3 { return false; }
      stages := stages - SpentStages(View());
      return true;
    }

    /** Promotes the stage of an unprojected rehydration, then brings the row up to the log. */
    method ReplayMissing(crash: nat)
      modifies this`hot, this`stages, this`row, this`projected
      ensures View() == if crash == 0 then old(View())
                        else if crash == 1 then ReplayPromotion(old(View())) else ReplayRow(ReplayPromotion(old(View())))
    {
      if crash == 0 { return; }
      if projected < |log| && log[projected].Restore? {
        var e := log[projected];
        if !Superseding(View(), e.expected, e.at, e.id) {
          if hot.None? && e.id in stages { hot := Some(stages[e.id]); }
          stages := stages - {e.id};
        }
      }
      if crash == 1 { return; }
      if citations != [] {
        row, projected := Some(Row(|citations|, Strongest(citations), LogState(log))), |log|;
      }
    }

    /** Recovery, replay and reconciliation; fails when a segment cannot be read or a receipt of the log
        names a missing archive. */
    method Open(crash: nat) returns (usable: bool)
      requires Inv(View())
      modifies this
      ensures var (reached, _) := Reached(old(View()), crash, {}); View() == Reopening(old(View()), reached, {})
      ensures usable <==> OpenSucceeds(old(View())) && crash >= 8
      ensures usable ==> BlobRecovery.Recovered(View())
    {
      ghost var before := View();
      BlobRecovery.PendingMonthIsFresh(before);
      BlobRecovery.OpenSucceedsIff(before);
      BlobRecovery.ReopenedIsRecovered(before);
      if crash >= 4 { OpenComposes(before, crash); OpenComposes(before, 8); }
      var ok := RecoverArtifacts(crash);
      if !ok { return false; }
      BlobRecovery.ReopeningIsSafe(before, 4, {});
      BlobRecovery.RecoveredReadsThrough(before);
      var verified := ReadAll();
      assert verified;
      ReplayMissing(crash - 4);
      if crash < 6 { return false; }
      Reconcile(crash - 6);
      return crash >= 8;
    }
  }

  lemma PreviousIsLast(s: Slice, latest: Option<Tombstone>)
    requires Running(s)
    requires latest.None? ==> s.tombstones == map[]
    requires latest.Some? ==> IsLatest(s.tombstones, latest.value)
    ensures latest == LastTombstone(s.log)
  {
    if LastTombstone(s.log).Some? {
      LatestIsLast(s);
      assert IsLatest(s.tombstones, LastTombstone(s.log).value);
    } else {
      assert s.log == [];
    }
  }
}
