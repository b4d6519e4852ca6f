// A session's hash-chained segment: appending to it, reading it back, and what its last hash pins.

module EventChain {
  import opened Basics
  import opened HashChain
  import opened Payloads
  import opened BlobCatalog
  import PayloadMeaning

  /** The digests and canonical forms; large payloads are those whose canonical form is over the threshold. */
  datatype Canon = Canon(
    payload: Payload -> Digest, record: Body -> Digest, content: Content -> Digest,
    derived: (nat, nat) -> nat, size: Payload -> nat, threshold: nat)

  datatype Scope = Scope(task: Option<Uuid>, session: Option<Uuid>)

  datatype Body = Body(
    event: Uuid, host: string, session: Uuid, task: Option<Uuid>, parent: Option<Uuid>, number: nat,
    occurred: Stamp, kind: Kind, scope: Scope, payload: Payload, payloadHash: Digest, previous: Option<Digest>)

  /** Hot blob files, the archives that the latest receipts name, and the size and class on the receipts of
      evicted blobs. */
  datatype Files = Files(hot: map<Digest, Payload>, archived: map<Digest, Payload>, evicted: map<Digest, (nat, Class)>)

  /** What a blob reads as: the hot file first, then the archive. */
  function ContentOf(files: Files, digest: Digest): Option<Payload> {
    if digest in files.hot then Some(files.hot[digest])
    else if digest in files.archived then Some(files.archived[digest])
    else None
  }

  /** Distinct values have distinct digests, and no value contains its own digest. */
  ghost predicate Sound(h: Canon) {
    && (forall p, q :: h.payload(p) == h.payload(q) ==> p == q)
    && Injective(h.record)
    && (forall d, n, c :: h.payload(BlobShaped(d, n, c)) != d)
  }

  datatype Reading = Resolved(payload: Payload) | WasEvicted(retention: Class) | Broken

  /** A stored payload that has the shape of a blob reference is read as one. */
  function ReadPayload(h: Canon, files: Files, stored: Payload): Reading {
    match stored
    case BlobShaped(digest, size, retention) =>
      if ContentOf(files, digest).Some? then
        var content := ContentOf(files, digest).value;
        if h.size(content) == size && h.payload(content) == digest then Resolved(content) else Broken
      else if digest in files.evicted && files.evicted[digest].0 == size then WasEvicted(files.evicted[digest].1)
      else Broken
    case _ => Resolved(stored)
  }

  /** Types whose payload a reader needs; of the others an evicted payload is accepted. */
  predicate Authoritative(kind: Kind) {
    !kind.Unreduced?
  }

  function ContextOf(b: Body): Context {
    Context(b.event, b.task, b.occurred, b.occurred)
  }

  predicate Readable(h: Canon, files: Files, b: Body) {
    match ReadPayload(h, files, b.payload)
    case Resolved(p) => h.payload(p) == b.payloadHash && Normalize(b.kind, p, ContextOf(b), h.derived, h.content) == Ok(p)
    case WasEvicted(retention) => !Authoritative(b.kind) && b.payload.BlobShaped? && b.payload.retention == retention
    case Broken => false
  }

  predicate ProperIds(b: Body) {
    && b.event.proper && b.session.proper && (b.task.Some? ==> b.task.value.proper)
    && (b.parent.Some? ==> b.parent.value.proper) && b.occurred.instant.Some?
    && b.scope.session in {None, Some(b.session)} && b.scope.task in {None, b.task}
  }

  function LinksOf(h: Canon): Links<Body> {
    Links((b: Body) => b.number, (b: Body) => b.previous, h.record)
  }

  /** The record belongs to this segment and its payload can be read, or need not be. */
  predicate Belongs(h: Canon, files: Files, host: string, session: Uuid, b: Body) {
    ProperIds(b) && b.host == host && b.session == session && Readable(h, files, b)
  }

  function BelongsTo(h: Canon, files: Files, host: string, session: Uuid): Body -> bool {
    b => Belongs(h, files, host, session, b)
  }

  predicate Accepted(h: Canon, files: Files, host: string, session: Uuid, rows: seq<Record<Body>>) {
    Chained(LinksOf(h), rows) && AllHold(BelongsTo(h, files, host, session), rows)
  }

  method Read(h: Canon, files: Files, host: string, session: Uuid, lines: seq<Record<Body>>) returns (ok: bool)
    ensures ok <==> Accepted(h, files, host, session, lines)
  {
    ok := ReadSegment(LinksOf(h), BelongsTo(h, files, host, session), lines);
  }

  /** Two segments that end in the same record hash are the same, whatever blobs each reader has. */
  lemma LastHashPinsSegment(h: Canon, mine: Files, theirs: Files, host: string, session: Uuid, a: seq<Record<Body>>,
                            host': string, session': Uuid, b: seq<Record<Body>>)
    requires Sound(h) && Accepted(h, mine, host, session, a) && Accepted(h, theirs, host', session', b)
    requires a != [] && b != [] && a[|a| - 1].hash == b[|b| - 1].hash
    ensures a == b
  {
    LastHashPinsChain(LinksOf(h), a, b);
  }

  // -- appending --

  datatype Refusal =
    | BadId | BadScope | BadPayload(fault: Fault) | ChainBroken | Unprojected | DuplicateEvent | EvictedReuse
    | ProjectionFailed     // the event is durable, but it cannot be projected

  datatype Request = Request(
    kind: Kind, payload: Payload, event: Uuid, task: Option<Uuid>, parent: Option<Uuid>, occurred: Stamp,
    scope: Scope, retention: Class, now: Stamp)

  function Lower(u: Uuid): Uuid { Canonical(u.value) }

  function LowerIf(u: Option<Uuid>): Option<Uuid> {
    if u.Some? then Some(Lower(u.value)) else None
  }

  predicate RequestOk(q: Request) {
    && q.event.proper && (q.task.Some? ==> q.task.value.proper) && (q.parent.Some? ==> q.parent.value.proper)
    && q.occurred.instant.Some?
  }

  function RequestContext(q: Request): Context {
    Context(Lower(q.event), LowerIf(q.task), q.occurred.(canonical := true), q.now)
  }

  /** The normalized payload as the record stores it. */
  function StoredAs(h: Canon, p: Payload, retention: Class): Payload {
    if h.size(p) > h.threshold then BlobShaped(h.payload(p), h.size(p), retention) else p
  }

  /** A small payload that itself looks like a blob reference is not read back, unless as an evicted blob. */
  predicate ReadsBack(h: Canon, files: Files, kind: Kind, p: Payload) {
    h.size(p) <= h.threshold && p.BlobShaped? ==>
      && !Authoritative(kind) && ContentOf(files, p.digest).None? && p.digest in files.evicted
      && files.evicted[p.digest] == (p.size, p.retention)
  }

  function NewBody(h: Canon, host: string, session: Uuid, rows: seq<Record<Body>>, q: Request, p: Payload): Body {
    Body(Lower(q.event), host, session, LowerIf(q.task), LowerIf(q.parent), |rows| + 1, q.occurred.(canonical := true),
         q.kind, q.scope, StoredAs(h, p, q.retention), h.payload(p), if rows == [] then None else Some(rows[|rows| - 1].hash))
  }

  function WithBlob(h: Canon, files: Files, p: Payload): Files {
    if h.size(p) > h.threshold then files.(hot := files.hot[h.payload(p) := p]) else files
  }

  /** The payload was stored as a blob before and has been evicted since. */
  predicate ReusesEvicted(h: Canon, files: Files, p: Payload) {
    h.size(p) > h.threshold && h.payload(p) in files.evicted && ContentOf(files, h.payload(p)).None?
  }

  /** Earlier records do not notice a new blob. */
  lemma NewBlobIsHarmless(h: Canon, files: Files, p: Payload, b: Body)
    requires Sound(h) && Readable(h, files, b)
    requires !ReusesEvicted(h, files, p)
    ensures Readable(h, WithBlob(h, files, p), b)
  {
    match b.payload
    case BlobShaped(digest, size, retention) =>
      if h.size(p) > h.threshold && digest == h.payload(p) && ContentOf(files, digest).Some? { assert ContentOf(files, digest) == Some(p); }
    case _ =>
  }

  lemma NewRecordReadable(h: Canon, files: Files, host: string, session: Uuid, rows: seq<Record<Body>>, q: Request, p: Payload)
    requires Sound(h) && RequestOk(q)
    requires Normalize(q.kind, q.payload, RequestContext(q), h.derived, h.content) == Ok(p)
    ensures Readable(h, WithBlob(h, files, p), NewBody(h, host, session, rows, q, p)) <==> ReadsBack(h, files, q.kind, p)
  {
    var b := NewBody(h, host, session, rows, q, p);
    NormalizeSettles(q.kind, q.payload, RequestContext(q), ContextOf(b), h.derived, h.content);
    assert Normalize(q.kind, p, ContextOf(b), h.derived, h.content) == Ok(p);
  }

  /** The appended segment is accepted exactly when the payload reads back. */
  lemma AppendedIsAcceptedIff(h: Canon, files: Files, host: string, session: Uuid, rows: seq<Record<Body>>, q: Request, p: Payload)
    requires Sound(h) && Accepted(h, files, host, session, rows) && session.proper && RequestOk(q)
    requires q.scope.session in {None, Some(session)} && q.scope.task in {None, LowerIf(q.task)}
    requires Normalize(q.kind, q.payload, RequestContext(q), h.derived, h.content) == Ok(p)
    requires !ReusesEvicted(h, files, p)
    ensures var b := NewBody(h, host, session, rows, q, p);
            Accepted(h, WithBlob(h, files, p), host, session, rows + [Record(b, h.record(b))]) <==> ReadsBack(h, files, q.kind, p)
  {
    var b := NewBody(h, host, session, rows, q, p);
    var more := rows + [Record(b, h.record(b))];
    LongerIsChained(LinksOf(h), rows, b);
    NewRecordReadable(h, files, host, session, rows, q, p);
    var was, now := BelongsTo(h, files, host, session), BelongsTo(h, WithBlob(h, files, p), host, session);
    forall i | 0 <= i < |rows| ensures Holds(now, more[i]) {
      assert Holds(was, rows[i]);
      NewBlobIsHarmless(h, files, p, rows[i].body);
    }
    assert Holds(now, more[|rows|]) <==> ReadsBack(h, files, q.kind, p);
  }

  // -- the append itself --

  predicate Reduced(kind: Kind) {
    !kind.VerificationResult? && !kind.ArtifactObserved? && !kind.Unreduced?
  }

  /** Whether the durable record can be projected: its payload resolves, or may be missing. */
  predicate Projects(h: Canon, files: Files, b: Body) {
    match ReadPayload(h, files, b.payload)
    case Resolved(p) => h.payload(p) == b.payloadHash
    case WasEvicted(_) => !Reduced(b.kind)
    case Broken => false
  }

  predicate ScopeOk(session: Uuid, q: Request) {
    q.scope.session in {None, Some(session)} && q.scope.task in {None, LowerIf(q.task)}
  }

  function Normal(h: Canon, q: Request): Result<Payload, Fault> {
    Normalize(q.kind, q.payload, RequestContext(q), h.derived, h.content)
  }

  /** The same id in its canonical spelling. */
  predicate SameId(given: Uuid, kept: Uuid) {
    kept.value == given.value && kept.lower && kept.proper
  }

  predicate SameIdIf(given: Option<Uuid>, kept: Option<Uuid>) {
    if given.Some? then kept.Some? && SameId(given.value, kept.value) else kept.None?
  }

  /** The record says what was requested: ids, time, type and scope as given, and the normalized payload, which
      keeps what the request gave, or its digest, size and class. */
  ghost predicate Records(h: Canon, q: Request, p: Payload, b: Body) {
    && SameId(q.event, b.event) && SameIdIf(q.task, b.task) && SameIdIf(q.parent, b.parent)
    && b.occurred == Stamp(q.occurred.instant, true) && b.kind == q.kind && b.scope == q.scope
    && PayloadMeaning.Kept(q.kind, q.payload, RequestContext(q), h.derived, h.content, p)
    && b.payloadHash == h.payload(p)
    && b.payload == if h.size(p) > h.threshold then BlobShaped(h.payload(p), h.size(p), q.retention) else p
  }

  lemma PayloadRecorded(h: Canon, host: string, session: Uuid, rows: seq<Record<Body>>, q: Request)
    requires RequestOk(q)
    ensures Normal(h, q).Ok? <==> PayloadMeaning.Fits(q.kind, q.payload, RequestContext(q), h.content)
    ensures Normal(h, q).Ok? ==> Records(h, q, Normal(h, q).value, NewBody(h, host, session, rows, q, Normal(h, q).value))
  {
    PayloadMeaning.NormalizeMeans(q.kind, q.payload, RequestContext(q), h.derived, h.content);
  }

  /** A small payload of the shape of a blob reference that cannot be projected: it must not be projected as an
      evicted one, because its type is reduced or no evicted blob has its digest and size. */
  predicate Unprojectable(h: Canon, files: Files, kind: Kind, p: Payload) {
    && h.size(p) <= h.threshold && p.BlobShaped?
    && !(ContentOf(files, p.digest).None? && p.digest in files.evicted && files.evicted[p.digest].0 == p.size
         && kind in {VerificationResult, ArtifactObserved, Unreduced})
  }

  lemma UnprojectableIff(h: Canon, files: Files, host: string, session: Uuid, rows: seq<Record<Body>>, q: Request, p: Payload)
    requires Sound(h) && !ReusesEvicted(h, files, p)
    ensures Projects(h, WithBlob(h, files, p), NewBody(h, host, session, rows, q, p)) <==> !Unprojectable(h, files, q.kind, p)
  {
  }

  class Segment {
    const h: Canon
    const host: string
    const session: Uuid
    var rows: seq<Record<Body>>
    var files: Files
    var indexed: set<Digest>       // hashes of projected records
    var ids: set<nat>              // event ids in the index

    constructor (h: Canon, host: string, session: Uuid)
      ensures this.h == h && this.host == host && this.session == session
      ensures rows == [] && files == Files(map[], map[], map[]) && indexed == {} && ids == {}
    {
      this.h, this.host, this.session := h, host, session;
      rows, files, indexed, ids := [], Files(map[], map[], map[]), {}, {};
    }

    /** Why an append is refused before anything is written. */
    function Refuses(q: Request): Option<Refusal> reads this {
      if !RequestOk(q) then Some(BadId)
      else if !ScopeOk(session, q) then Some(BadScope)
      else if Normal(h, q).Err? then Some(BadPayload(Normal(h, q).error))
      else if !Accepted(h, files, host, session, rows) then Some(ChainBroken)
      else if rows != [] && rows[|rows| - 1].hash !in indexed then Some(Unprojected)
      else if q.event.value in ids then Some(DuplicateEvent)
      else if ReusesEvicted(h, files, Normal(h, q).value) then Some(EvictedReuse)
      else None
    }

    method Append(q: Request) returns (r: Result<Record<Body>, Refusal>)
      requires Sound(h) && session.proper
      modifies this
      ensures old(Refuses(q)).Some? ==>
                r == Err(old(Refuses(q)).value) && rows == old(rows) && files == old(files) && indexed == old(indexed) && ids == old(ids)
      ensures (old(Refuses(q)).Some? && old(Refuses(q)).value.BadPayload?) <==>
                RequestOk(q) && ScopeOk(session, q) && !PayloadMeaning.Fits(q.kind, q.payload, RequestContext(q), h.content)
      ensures old(Refuses(q)).None? ==>
                && var p := Normal(h, q).value;
                && var b := NewBody(h, host, session, old(rows), q, p);
                && rows == old(rows) + [Record(b, h.record(b))] && Records(h, q, p, b)
                && files == WithBlob(h, old(files), p)
                && (Accepted(h, files, host, session, rows) <==> ReadsBack(h, old(files), q.kind, p))
                && (r == if Unprojectable(h, old(files), q.kind, p) then Err(ProjectionFailed) else Ok(Record(b, h.record(b))))
                && (ReadsBack(h, old(files), q.kind, p) ==> r.Ok? && ids == old(ids) + {q.event.value} && indexed == old(indexed) + {h.record(b)})
    {
      if RequestOk(q) { PayloadRecorded(h, host, session, rows, q); }
      if !RequestOk(q) { return Err(BadId); }
      if !ScopeOk(session, q) { return Err(BadScope); }
      var normal := Normal(h, q);
      if normal.Err? { return Err(BadPayload(normal.error)); }
      var p := normal.value;
      var existing := Read(h, files, host, session, rows);
      if !existing { return Err(ChainBroken); }
      if rows != [] && rows[|rows| - 1].hash !in indexed { return Err(Unprojected); }
      if q.event.value in ids { return Err(DuplicateEvent); }
      if ReusesEvicted(h, files, p) { return Err(EvictedReuse); }
      UnprojectableIff(h, files, host, session, rows, q, p);
      r := Write(q, p);
    }

    /** Nothing is refused exactly for proper ids and times, a scope that names no other session or task, a
        fitting payload, a segment that reads and whose last record is projected, a new event id, and no
        payload of an evicted blob. */
    lemma UnrefusedIff(q: Request)
      ensures Refuses(q).None? <==>
                && q.event.proper && (q.task.Some? ==> q.task.value.proper) && (q.parent.Some? ==> q.parent.value.proper)
                && q.occurred.instant.Some?
                && (q.scope.session.None? || q.scope.session == Some(session))
                && (q.scope.task.None? || (q.task.Some? && q.scope.task == Some(Uuid(q.task.value.value, true, true))))
                && PayloadMeaning.Fits(q.kind, q.payload, RequestContext(q), h.content)
                && Accepted(h, files, host, session, rows)
                && (|rows| > 0 ==> rows[|rows| - 1].hash in indexed)
                && q.event.value !in ids
                && Normal(h, q).Ok? && !ReusesEvicted(h, files, Normal(h, q).value)
    {
      if RequestOk(q) { PayloadRecorded(h, host, session, rows, q); }
    }

    /** The blob, the record, and the projection of it. */
    method Write(q: Request, p: Payload) returns (r: Result<Record<Body>, Refusal>)
      requires Sound(h) && session.proper && Refuses(q).None? && p == Normal(h, q).value
      modifies this
      ensures var b := NewBody(h, host, session, old(rows), q, p);
              && rows == old(rows) + [Record(b, h.record(b))]
              && files == WithBlob(h, old(files), p)
              && (Accepted(h, files, host, session, rows) <==> ReadsBack(h, old(files), q.kind, p))
              && (r == if Projects(h, files, b) then Ok(Record(b, h.record(b))) else Err(ProjectionFailed))
              && (ReadsBack(h, old(files), q.kind, p) ==> r.Ok? && ids == old(ids) + {q.event.value} && indexed == old(indexed) + {h.record(b)})
    {
      AppendedIsAcceptedIff(h, files, host, session, rows, q, p);
      var b := NewBody(h, host, session, rows, q, p);
      files := WithBlob(h, files, p);
      rows := rows + [Record(b, h.record(b))];
      if !Projects(h, files, b) { return Err(ProjectionFailed); }
      indexed := indexed + {h.record(b)};
      ids := ids + {q.event.value};
      return Ok(Record(b, h.record(b)));
    }
  }

  /** A note whose payload is a small object of the shape of a blob reference. */
  function BlobShapedNote(session: Uuid, digest: Digest, size: nat, retention: Class): Request {
    var now := Stamp(Some(0), true);
    Request(Unreduced, BlobShaped(digest, size, retention), Canonical(1), None, None, now, Scope(None, Some(session)), Bulk, now)
  }

  /** Such a note, appended to a new segment, is written and then cannot be projected; from then on every
      append to the segment is refused. */
  method Bricked(h: Canon, host: string, session: Uuid, digest: Digest, size: nat, retention: Class)
    returns (segment: Segment, r: Result<Record<Body>, Refusal>)
    requires Sound(h) && session.proper && h.size(BlobShaped(digest, size, retention)) <= h.threshold
    ensures fresh(segment) && segment.host == host && segment.session == session
    ensures r == Err(ProjectionFailed) && |segment.rows| == 1
    ensures forall q :: segment.Refuses(q).Some?
  {
    segment := new Segment(h, host, session);
    var q := BlobShapedNote(session, digest, size, retention);
    r := segment.Append(q);
  }

  // -- evicting a blob --

  function Evicting(files: Files, digest: Digest, size: nat, retention: Class): Files {
    Files(files.hot - {digest}, files.archived - {digest}, files.evicted[digest := (size, retention)])
  }

  /** The hot file is replaced by an archive of the same content. */
  function Archiving(files: Files, digest: Digest): Files {
    if digest in files.hot then
      Files(files.hot - {digest}, files.archived[digest := files.hot[digest]], files.evicted)
    else files
  }

  /** Archiving is not noticed by any reader. */
  lemma ArchivingKeepsReading(h: Canon, files: Files, host: string, session: Uuid, rows: seq<Record<Body>>, digest: Digest)
    ensures Accepted(h, Archiving(files, digest), host, session, rows) <==> Accepted(h, files, host, session, rows)
  {
    var was, now := BelongsTo(h, files, host, session), BelongsTo(h, Archiving(files, digest), host, session);
    forall i | 0 <= i < |rows| ensures Holds(now, rows[i]) <==> Holds(was, rows[i]) {
      assert rows[i].body.payload.BlobShaped? ==>
        ContentOf(Archiving(files, digest), rows[i].body.payload.digest) == ContentOf(files, rows[i].body.payload.digest);
    }
  }

  /** A reader can do without the blob. */
  predicate Spares(b: Body, digest: Digest, size: nat, retention: Class) {
    b.payload.BlobShaped? && b.payload.digest == digest ==>
      !Authoritative(b.kind) && b.payload.size == size && b.payload.retention == retention
  }

  /** After a blob is evicted the segment still reads exactly when each record that stored its payload there
      is of a type that may lose it, with the size and class of the tombstone. */
  lemma EvictionKeepsReadingIff(h: Canon, files: Files, host: string, session: Uuid, rows: seq<Record<Body>>,
                                digest: Digest, size: nat, retention: Class)
    requires Accepted(h, files, host, session, rows)
    ensures Accepted(h, Evicting(files, digest, size, retention), host, session, rows) <==>
            forall i :: 0 <= i < |rows| ==> Spares(rows[i].body, digest, size, retention)
  {
    var was := BelongsTo(h, files, host, session);
    var now := BelongsTo(h, Evicting(files, digest, size, retention), host, session);
    forall i | 0 <= i < |rows| ensures Holds(now, rows[i]) <==> Spares(rows[i].body, digest, size, retention) {
      assert Holds(was, rows[i]);
    }
    if Accepted(h, Evicting(files, digest, size, retention), host, session, rows) {
      forall i | 0 <= i < |rows| ensures Spares(rows[i].body, digest, size, retention) { assert Holds(now, rows[i]); }
    }
  }
}
