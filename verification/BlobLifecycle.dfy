// The files, the log and the catalog row of one content-addressed blob, and what each
// durable step of citing, retiring, restoring and reopening does to them.
//
// A digest stands for the bytes it was computed from and a tombstone digest for the whole
// receipt: both hashes are modelled as injective.

module BlobLifecycle {
  import opened Basics
  import opened BlobCatalog

  type Bytes = string
  datatype Digest = Sha256(content: Bytes)

  /** An event that stores its payload in the blob: whether its type is one that readers cannot do without,
      and the class written into the event. */
  datatype Citation = Citation(needed: bool, retention: Class)

  /** A receipt; `month` locates the archive file of an archiving action. */
  datatype Tombstone = Tombstone(
    month: Option<nat>, action: nat, decidedAt: nat, sources: nat, retention: Class, previous: Option<Tombstone>)
  {
    function Leaves(): Availability { if month.Some? then Archived else Evicted }
  }

  /** A durable lifecycle event of the blob. */
  datatype Entry =
    | Retire(id: nat, at: nat, tombstone: Tombstone)
    | Restore(id: nat, at: nat, expected: Tombstone)

  datatype Row = Row(references: nat, retention: Class, availability: Availability)

  /** Everything the store keeps about one blob, on disk and in the projection. */
  datatype Slice = Slice(
    digest: Digest,
    hot: Option<Bytes>,
    archives: map<nat, Bytes>,
    tombstones: map<nat, Tombstone>,
    stages: map<nat, Bytes>,
    log: seq<Entry>,
    citations: seq<Citation>,
    row: Option<Row>,
    projected: nat)

  datatype ReadResult = Content(bytes: Bytes) | WasEvicted(retention: Class) | Unreadable

  /** The class the catalog keeps for these citations. */
  function Strongest(citations: seq<Citation>): (c: Class)
    requires citations != []
  {
    var n := |citations| - 1;
    if n == 0 then citations[0].retention else Merge(Strongest(citations[..n]), citations[n].retention)
  }

  // -- what the log says --

  function LogState(log: seq<Entry>): Availability {
    if log == [] then Hot
    else match log[|log| - 1]
         case Retire(_, _, t) => t.Leaves()
         case Restore(_, _, _) => Hot
  }

  /** The tombstone of the last retirement. */
  function LastTombstone(log: seq<Entry>): Option<Tombstone> {
    if log == [] then None
    else match log[|log| - 1]
         case Retire(_, _, t) => Some(t)
         case Restore(_, _, expected) => Some(expected)
  }

  predicate Logged(log: seq<Entry>, id: nat) {
    exists i :: 0 <= i < |log| && log[i].id == id
  }

  ghost predicate LaterThanAll(log: seq<Entry>, at: nat) {
    forall i :: 0 <= i < |log| ==> log[i].at < at
  }

  ghost predicate FreshMonth(log: seq<Entry>, month: nat) {
    forall i :: 0 <= i < |log| && log[i].Retire? ==> log[i].tombstone.month != Some(month)
  }

  /** The entry continues the blob's history. */
  ghost predicate Continues(log: seq<Entry>, e: Entry) {
    && !Logged(log, e.id)
    && LaterThanAll(log, e.at)
    && match e
       case Retire(id, at, t) =>
         && t.action == id && t.decidedAt == at
         && t.previous == LastTombstone(log)
         && LogState(log) != Evicted
         && (t.month.Some? ==> LogState(log) == Hot && FreshMonth(log, t.month.value))
       case Restore(_, _, expected) => LogState(log) == Evicted && LastTombstone(log) == Some(expected)
  }

  ghost predicate ContinuesAt(log: seq<Entry>, i: nat) {
    i < |log| && Continues(log[..i], log[i])
  }

  ghost predicate History(log: seq<Entry>) {
    forall i :: 0 <= i < |log| ==> ContinuesAt(log, i)
  }

  // -- reading --

  predicate LaterDecision(a: Tombstone, b: Tombstone) {
    a.decidedAt > b.decidedAt || (a.decidedAt == b.decidedAt && a.action > b.action)
  }

  /** The receipt with the greatest decision time, then the greatest action id. */
  ghost predicate IsLatest(tombstones: map<nat, Tombstone>, t: Tombstone) {
    && t in tombstones.Values
    && forall u :: u in tombstones.Values && u != t ==> LaterDecision(t, u)
  }

  ghost function Read(s: Slice): ReadResult {
    if s.hot.Some? then (if Sha256(s.hot.value) == s.digest then Content(s.hot.value) else Unreadable)
    else if t :| IsLatest(s.tombstones, t) then
      if t.month.None? then WasEvicted(t.retention)
      else if t.month.value in s.archives && Sha256(s.archives[t.month.value]) == s.digest
      then Content(s.archives[t.month.value]) else Unreadable
    else Unreadable
  }

  /** An evicted payload is missed by no citation: none of them is needed, and all carry the receipt's class. */
  predicate Spared(citations: seq<Citation>, retention: Class) {
    forall c :: c in citations ==> !c.needed && c.retention == retention
  }

  /** Reading every event of every segment does not stop at this blob. */
  ghost predicate ReadsThrough(s: Slice) {
    s.citations == [] || match Read(s)
                         case Content(_) => true
                         case WasEvicted(retention) => Spared(s.citations, retention)
                         case Unreadable => false
  }

  // -- what holds at every moment, crashed or not --

  ghost predicate RightBytes(s: Slice) {
    && (s.hot.Some? ==> s.hot.value == s.digest.content)
    && (forall m :: m in s.archives ==> s.archives[m] == s.digest.content)
    && (forall id :: id in s.stages ==> s.stages[id] == s.digest.content)
  }

  /** A receipt on disk whose action event is not in the log. */
  predicate Pending(tombstones: map<nat, Tombstone>, log: seq<Entry>, action: nat) {
    action in tombstones && !Logged(log, action)
  }

  ghost predicate NothingPending(tombstones: map<nat, Tombstone>, log: seq<Entry>) {
    forall a :: a in tombstones ==> Logged(log, a)
  }

  /** Every retirement of the log has its receipt, and receipts are filed under their action. */
  ghost predicate ReceiptsKept(tombstones: map<nat, Tombstone>, log: seq<Entry>) {
    && (forall i :: 0 <= i < |log| && log[i].Retire? ==>
          log[i].id in tombstones && tombstones[log[i].id] == log[i].tombstone)
    && (forall i :: 0 <= i < |log| && log[i].Restore? ==> log[i].id !in tombstones)
    && (forall a :: a in tombstones ==> tombstones[a].action == a)
  }

  /** At most one receipt is pending, and its action would continue the history. */
  ghost predicate PendingContinues(tombstones: map<nat, Tombstone>, log: seq<Entry>) {
    && (forall a :: Pending(tombstones, log, a) ==>
          Continues(log, Retire(a, tombstones[a].decidedAt, tombstones[a])))
    && (forall a, b :: Pending(tombstones, log, a) && Pending(tombstones, log, b) ==> a == b)
  }

  /** The receipt was written for these citations. */
  predicate Names(t: Option<Tombstone>, citations: seq<Citation>) {
    t.Some? && citations != [] && t.value.sources == |citations| && t.value.retention == Strongest(citations)
  }

  /** A cited blob that is not evicted by the log has its bytes where the log says. */
  ghost predicate Kept(s: Slice) {
    && (s.log != [] ==> s.citations != [])
    && (s.citations != [] && LogState(s.log) == Hot ==>
          s.hot.Some? || (s.projected < |s.log| && s.log[|s.log| - 1].id in s.stages))
    && (LogState(s.log) == Archived ==> LastTombstone(s.log).value.month.value in s.archives)
    && (LogState(s.log) == Evicted || s.projected < |s.log| ==> Names(LastTombstone(s.log), s.citations))
    && (forall a :: Pending(s.tombstones, s.log, a) ==> Names(Some(s.tombstones[a]), s.citations))
  }

  /** A stage either has no event yet or belongs to the event that is not projected yet. */
  ghost predicate StagesKept(s: Slice) {
    forall id :: id in s.stages && Logged(s.log, id) ==>
      s.projected < |s.log| && s.log[|s.log| - 1].Restore? && s.log[|s.log| - 1].id == id
  }

  function RowReferences(s: Slice): nat { if s.row.None? then 0 else s.row.value.references }

  /** The row of the first citations. */
  predicate RowOf(row: Row, citations: seq<Citation>) {
    0 < row.references <= |citations| && row.retention == Strongest(citations[..row.references])
  }

  /** The row lags the log by at most one event. */
  ghost predicate Projected(s: Slice) {
    && s.projected <= |s.log|
    && RowReferences(s) <= |s.citations|
    && (|s.log| - s.projected) + (|s.citations| - RowReferences(s)) <= 1
    && (s.row.Some? ==> RowOf(s.row.value, s.citations) && s.row.value.availability == LogState(s.log[..s.projected]))
    && (s.projected > 0 ==> s.row.Some?)
  }

  ghost predicate Inv(s: Slice) {
    && History(s.log)
    && RightBytes(s)
    && ReceiptsKept(s.tombstones, s.log) && PendingContinues(s.tombstones, s.log)
    && (s.projected < |s.log| ==> NothingPending(s.tombstones, s.log))
    && Kept(s) && StagesKept(s)
    && Projected(s)
  }

  /** An open store between operations: nothing pending, nothing staged, everything projected. */
  ghost predicate Running(s: Slice) {
    && Inv(s)
    && NothingPending(s.tombstones, s.log)
    && s.projected == |s.log| && RowReferences(s) == |s.citations|
    && s.stages == map[]
  }

  // -- the durable steps of each operation; `k` of them happen before a crash --

  /** The row after one more citation. */
  function Counted(row: Option<Row>, c: Citation): Row {
    if row.None? then Row(1, c.retention, Hot)
    else Row(row.value.references + 1, Merge(row.value.retention, c.retention), row.value.availability)
  }

  /** An event whose payload is the blob: write the bytes, append the event, project it. */
  function Citing(s: Slice, c: Citation, k: nat): (r: Slice) {
    var s1 := if k >= 1 && s.hot.None? then s.(hot := Some(s.digest.content)) else s;
    var s2 := if k >= 2 then s1.(citations := s1.citations + [c]) else s1;
    if k >= 3 then s2.(row := Some(Counted(s2.row, c))) else s2
  }

  datatype Decision = Decision(archive: bool, id: nat, at: nat, month: nat)

  function Receipt(s: Slice, d: Decision): Tombstone
    requires s.row.Some?
  {
    Tombstone(if d.archive then Some(d.month) else None, d.id, d.at, s.row.value.references, s.row.value.retention,
              LastTombstone(s.log))
  }

  /** Archive file, receipt, event, row, and only then the unlink of the copy it replaces. */
  function Retiring(s: Slice, d: Decision, k: nat): (r: Slice)
    requires s.row.Some?
  {
    var receipt := Receipt(s, d);
    var s1 := if k >= 1 && d.archive then s.(archives := s.archives[d.month := s.digest.content]) else s;
    var s2 := if k >= 2 then s1.(tombstones := s1.tombstones[d.id := receipt]) else s1;
    var s3 := if k >= 3 then s2.(log := s2.log + [Retire(d.id, d.at, receipt)]) else s2;
    var s4 := if k >= 4 then
                s3.(row := Some(s3.row.value.(availability := receipt.Leaves())), projected := s3.projected + 1)
              else s3;
    if k >= 5 then
      if s.row.value.availability == Archived && receipt.previous.Some? && receipt.previous.value.month.Some? then
        s4.(archives := s4.archives - {receipt.previous.value.month.value})
      else s4.(hot := None)
    else s4
  }

  /** Some lifecycle event or receipt counts as later than a rehydration with this time and id. */
  predicate Superseding(s: Slice, expected: Tombstone, at: nat, id: nat) {
    || (exists a :: a in s.tombstones && s.tombstones[a].previous == Some(expected))
    || (exists i :: 0 <= i < |s.log| && (s.log[i].at > at || (s.log[i].at == at && s.log[i].id > id)))
  }

  function Promote(s: Slice, id: nat): (r: Slice)
    ensures r == s.(hot := r.hot, stages := r.stages)
    ensures s.hot.Some? ==> r.hot == s.hot
  {
    if s.hot.Some? || id !in s.stages then s.(stages := s.stages - {id})
    else s.(hot := Some(s.stages[id]), stages := s.stages - {id})
  }

  /** Stage, event, promotion of the stage unless something later exists, row. */
  function Restoring(s: Slice, id: nat, at: nat, k: nat): (r: Slice)
    requires s.row.Some? && LastTombstone(s.log).Some?
  {
    var expected := LastTombstone(s.log).value;
    var s1 := if k >= 1 then s.(stages := s.stages[id := s.digest.content]) else s;
    var s2 := if k >= 2 then s1.(log := s1.log + [Restore(id, at, expected)]) else s1;
    var s3 := if k >= 3 && !Superseding(s, expected, at, id) then Promote(s2, id) else s2;
    if k >= 4 then s3.(row := Some(s3.row.value.(availability := Hot)), projected := s3.projected + 1) else s3
  }

  // -- reopening after a crash --

  function PendingActions(s: Slice): set<nat> {
    set a | a in s.tombstones && Pending(s.tombstones, s.log, a)
  }

  function ReceiptMonths(s: Slice): set<nat> {
    set a | a in s.tombstones && s.tombstones[a].month.Some? :: s.tombstones[a].month.value
  }

  /** Recovery insists that every archive file a receipt of the log names is still there. */
  predicate ArchivesPresent(s: Slice) {
    forall a :: a in s.tombstones && Logged(s.log, a) && s.tombstones[a].month.Some? ==>
      s.tombstones[a].month.value in s.archives
  }

  predicate HasRestore(log: seq<Entry>, id: nat) {
    exists i :: 0 <= i < |log| && log[i].Restore? && log[i].id == id
  }

  /** Stages that recovery removes: without their event, or with the hot bytes already back. */
  function SpentStages(s: Slice): set<nat> {
    set id | id in s.stages && (!HasRestore(s.log, id) || s.hot.Some?)
  }

  function DropPendingArchives(s: Slice): (r: Slice)
    ensures r == s.(archives := r.archives) && r.archives.Keys <= s.archives.Keys
  {
    s.(archives := s.archives - (set a | a in PendingActions(s) && s.tombstones[a].month.Some? :: s.tombstones[a].month.value))
  }

  function DropPendingReceipts(s: Slice): Slice {
    s.(tombstones := s.tombstones - PendingActions(s))
  }

  function DropOrphanArchives(s: Slice): (r: Slice)
    ensures r == s.(archives := r.archives) && r.archives.Keys <= s.archives.Keys
  {
    s.(archives := map m | m in s.archives && m in ReceiptMonths(s) :: s.archives[m])
  }

  function DropSpentStages(s: Slice): Slice {
    s.(stages := s.stages - SpentStages(s))
  }

  /** Replay of the event the row does not know yet: the file move of a rehydration comes first. */
  function ReplayPromotion(s: Slice): (r: Slice)
    ensures r == s.(hot := r.hot, stages := r.stages)
    ensures s.hot.Some? ==> r.hot == s.hot
  {
    if s.projected < |s.log| && s.log[s.projected].Restore? then
      var e := s.log[s.projected];
      if Superseding(s, e.expected, e.at, e.id) then s else Promote(s, e.id)
    else s
  }

  function ReplayRow(s: Slice): (r: Slice)
    ensures r == s.(row := r.row, projected := r.projected)
  {
    if s.citations == [] then s
    else s.(row := Some(Row(|s.citations|, Strongest(s.citations), LogState(s.log))), projected := |s.log|)
  }

  function DropRetiredHot(s: Slice): (r: Slice)
    ensures r == s.(hot := r.hot)
    ensures s.hot.Some? && r.hot.None? ==> s.row.Some? && s.row.value.availability != Hot
  {
    if s.row.Some? && s.row.value.availability != Hot then s.(hot := None) else s
  }

  function DropEvictedArchives(s: Slice): (r: Slice)
    ensures r == s.(archives := r.archives) && r.archives.Keys <= s.archives.Keys
  {
    if s.row.Some? && s.row.value.availability == Evicted then s.(archives := s.archives - ReceiptMonths(s)) else s
  }

  /**
   * The slice after the first `k` stages of an open. A stage that unlinks several files may be
   * cut short: a crash inside stage `k + 1` has removed the files in `part` so far.
   */
  function Reopening(s: Slice, k: nat, part: set<nat>): (r: Slice) {
    var s1 := if k >= 1 then DropPendingArchives(s) else s;
    var s2 := if k >= 2 then DropPendingReceipts(s1) else s1;
    var s3 := if k >= 3 then DropOrphanArchives(s2)
              else if k == 2 then s2.(archives := s2.archives - (part - ReceiptMonths(s2))) else s2;
    var s4 := if k >= 4 then DropSpentStages(s3)
              else if k == 3 then s3.(stages := s3.stages - (part * SpentStages(s3))) else s3;
    var s5 := if k >= 5 then ReplayPromotion(s4) else s4;
    var s6 := if k >= 6 then ReplayRow(s5) else s5;
    var s7 := if k >= 7 then DropRetiredHot(s6) else s6;
    if k >= 8 then DropEvictedArchives(s7)
    else if k == 7 && s7.row.Some? && s7.row.value.availability == Evicted then
      s7.(archives := s7.archives - (part * ReceiptMonths(s7)))
    else s7
  }

  /** A rehydration that the reducer refuses before the append: its stage is written and taken back. */
  function Unstaging(s: Slice, id: nat, k: nat): (r: Slice) {
    if k == 1 then s.(stages := s.stages[id := s.digest.content]) else s
  }

  /** What the reducer of the missing event asks of the row, the receipts and, for a rehydration, the log. */
  ghost predicate ReplayAccepts(s: Slice) {
    s.projected < |s.log| ==>
      && s.row.Some?
      && match s.log[s.projected]
         case Retire(id, _, t) => id in s.tombstones && s.tombstones[id] == t && s.row.value.retention == t.retention
         case Restore(_, _, expected) =>
           && s.row.value.availability == Evicted && s.row.value.references == expected.sources
           && s.row.value.retention == expected.retention
           && expected in s.tombstones.Values && expected.month.None?
  }

  /** The checks of an open, in the order they are made: reading the segments, recovery, verification, replay. */
  ghost predicate OpenSucceeds(s: Slice) {
    && ReadsThrough(s)
    && ArchivesPresent(DropPendingReceipts(DropPendingArchives(s)))
    && ReadsThrough(Reopening(s, 4, {}))
    && ReplayAccepts(Reopening(s, 4, {}))
  }
}
