// Payload normalization: what an append fills in before it hashes, and a read insists on.

module Payloads {
  import opened Basics
  import opened HashChain
  import opened BlobCatalog

  /** A timestamp text: the instant it denotes in UTC, if it does, and whether it is spelled canonically. */
  datatype Stamp = Stamp(instant: Option<nat>, canonical: bool)

  /** A UUID text in some letter case; improper texts are no UUIDs. */
  datatype Uuid = Uuid(value: nat, lower: bool, proper: bool)

  /** An entry of a JSON object that may be missing or null. */
  datatype Entry<T> = Absent | Null | Given(value: T)

  datatype Kind =
    | MemoryCommitted | MemorySuperseded | MemoryRetired | MemoryDisputed | StateCommitted | TaskEnded
    | VerificationResult | ArtifactObserved | RetentionCited | ProductionClaim
    | BlobArchived | BlobEvicted | BlobRehydrated | Unreduced

  datatype Proof = Proof(
    id: Entry<nat>, kindOk: bool, locator: string, authority: string, source: Entry<nat>,
    observed: Entry<Stamp>, shaOk: bool)

  datatype Content = Content(kindOk: bool, subject: string, predicate_: string, object: string, searchable: string)

  datatype Times = Times(validFrom: Entry<Stamp>, validTo: Entry<Stamp>, observed: Entry<Stamp>, review: Entry<Stamp>)

  /** A state as the append sees it: its task, the event it runs through, and whether it is a valid v1 state. */
  datatype TaskState = TaskState(task: Uuid, through: Entry<Uuid>, valid: bool, rest: string)

  datatype Payload =
    | Memory(id: string, content: Content, status: Entry<string>, verified: bool, times: Times, recorded: Entry<Stamp>,
             supersedes: Entry<string>, hash: Entry<Digest>, proofs: seq<Proof>)
    | Status(id: string, until: Entry<Stamp>)
    | State(revision: int, state: TaskState)
    | Sources(sources: seq<Uuid>)
    | Retirement(archived: bool, hasArchive: bool, digestsOk: bool, retention: Class, sources: seq<Uuid>)
    | Rehydration(wellFormed: bool, sources: seq<Uuid>)
    | Free(body: string)
    | BlobShaped(digest: Digest, size: nat, retention: Class)   // an object whose only key is "$blob"

  datatype Fault = Malformed | BadText | BadStatus | BadTime | SelfSupersession | HashMismatch | NoEvidence | BadEvidence
                 | NoTask | BadRevision | BadState | NoSources | BadUuid

  const MEMORY_STATUSES: set<string> := {"active", "disputed", "superseded", "retired"}

  // -- texts --

  function Utc(x: Stamp): Result<Stamp, Fault> {
    if x.instant.Some? then Ok(x.(canonical := true)) else Err(BadTime)
  }

  /** A time that may be missing or null stays so; a given one is respelled. */
  function UtcIfGiven(x: Entry<Stamp>): Result<Entry<Stamp>, Fault> {
    match x
    case Given(t) => if Utc(t).Ok? then Ok(Given(Utc(t).value)) else Err(BadTime)
    case _ => Ok(x)
  }

  /** A missing time becomes `fallback`, a null one the present. */
  function UtcOr(x: Entry<Stamp>, fallback: Stamp, now: Stamp): Result<Entry<Stamp>, Fault> {
    var t := match x case Absent => fallback case Null => now case Given(t) => t;
    if Utc(t).Ok? then Ok(Given(Utc(t).value)) else Err(BadTime)
  }

  function Canonical(value: nat): Uuid {
    Uuid(value, true, true)
  }

  predicate Below(a: nat, b: nat) { a < b }

  function Values(ids: seq<Uuid>): set<nat> {
    set u | u in ids :: u.value
  }

  /** Sorted, without repetitions, canonically spelled. */
  function SortedIds(ids: set<nat>): (r: seq<Uuid>)
    ensures |r| == |ids|
    ensures Values(r) == ids
    ensures forall u :: u in r ==> u.proper
  {
    var order := Sorted(ids, Below);
    var r := seq(|order|, i requires 0 <= i < |order| => Canonical(order[i]));
    forall x ensures x in Values(r) <==> x in ids {
      if x in ids {
        var i :| 0 <= i < |order| && order[i] == x;
        assert r[i].value == x;
      }
    }
    r
  }

  function NormalSources(sources: seq<Uuid>): (r: Result<seq<Uuid>, Fault>) {
    if sources == [] then Err(NoSources)
    else if exists u :: u in sources && !u.proper then Err(BadUuid)
    else Ok(SortedIds(Values(sources)))
  }

  lemma SourcesSettle(sources: seq<Uuid>)
    requires NormalSources(sources).Ok?
    ensures NormalSources(NormalSources(sources).value) == NormalSources(sources)
  {
    assert sources[0].value in Values(sources);
  }

  // -- one payload --

  /** Everything the append knows when it normalizes; `now` is only read for null times. */
  datatype Context = Context(event: Uuid, task: Option<Uuid>, occurred: Stamp, now: Stamp)

  /** The proof with its defaults: an id derived from the event, the event itself, the memory's time. */
  function NormalProof(x: Proof, index: nat, ctx: Context, derived: (nat, nat) -> nat, seen: Entry<Stamp>): Result<Proof, Fault> {
    if !x.kindOk || x.locator == "" || x.authority == "" || !x.shaOk then Err(BadEvidence)
    else
      var at := UtcOr(x.observed, if seen.Given? then seen.value else ctx.occurred, ctx.now);
      if at.Err? then Err(at.error)
      else Ok(x.(id := if x.id.Absent? then Given(derived(ctx.event.value, index)) else x.id,
                 source := if x.source.Absent? then Given(ctx.event.value) else x.source,
                 observed := at.value))
  }

  function NormalProofs(s: seq<Proof>, ctx: Context, derived: (nat, nat) -> nat, seen: Entry<Stamp>): (r: Result<seq<Proof>, Fault>)
    ensures r.Ok? ==> |r.value| == |s|
  {
    if s == [] then Ok([])
    else
      var front := NormalProofs(s[..|s| - 1], ctx, derived, seen);
      if front.Err? then front
      else
        var last := NormalProof(s[|s| - 1], |s| - 1, ctx, derived, seen);
        if last.Err? then Err(last.error) else Ok(front.value + [last.value])
  }

  function NormalTimes(t: Times): Result<Times, Fault> {
    if UtcIfGiven(t.validFrom).Err? || UtcIfGiven(t.validTo).Err? || UtcIfGiven(t.observed).Err? || UtcIfGiven(t.review).Err?
    then Err(BadTime)
    else Ok(Times(UtcIfGiven(t.validFrom).value, UtcIfGiven(t.validTo).value, UtcIfGiven(t.observed).value, UtcIfGiven(t.review).value))
  }

  function NormalMemory(p: Payload, ctx: Context, derived: (nat, nat) -> nat, contentHash: Content -> Digest): Result<Payload, Fault>
    requires p.Memory?
  {
    var c := p.content;
    var status := if p.status.Absent? then Given("active") else p.status;
    if !c.kindOk || p.id == "" || c.subject == "" || c.predicate_ == "" || c.searchable == "" then Err(BadText)
    else if status.Null? || status.value !in MEMORY_STATUSES || !p.verified then Err(BadStatus)
    else if NormalTimes(p.times).Err? then Err(BadTime)
    else if UtcOr(p.recorded, ctx.occurred, ctx.now).Err? then Err(BadTime)
    else if p.supersedes == Given(p.id) then Err(SelfSupersession)
    else if p.hash.Given? && p.hash.value != contentHash(c) then Err(HashMismatch)
    else if p.proofs == [] then Err(NoEvidence)
    else
      var times := NormalTimes(p.times).value;
      var proofs := NormalProofs(p.proofs, ctx, derived, times.observed);
      if proofs.Err? then Err(proofs.error)
      else Ok(p.(status := status, times := times, recorded := UtcOr(p.recorded, ctx.occurred, ctx.now).value,
                 hash := Given(contentHash(c)), proofs := proofs.value))
  }

  function NormalStatus(kind: Kind, p: Payload, ctx: Context): Result<Payload, Fault>
    requires p.Status?
  {
    if p.id == "" then Err(BadText)
    else if kind == MemoryDisputed then if p.until.Given? then Err(BadTime) else Ok(p)
    else
      var until := UtcOr(p.until, ctx.occurred, ctx.now);
      if until.Err? then Err(until.error) else Ok(p.(until := until.value))
  }

  function NormalState(p: Payload, ctx: Context): Result<Payload, Fault>
    requires p.State?
  {
    var through := if p.state.through.Absent? then Given(ctx.event) else p.state.through;
    if ctx.task.None? then Err(NoTask)
    else if p.revision < 1 then Err(BadRevision)
    else if !p.state.valid || p.state.task != ctx.task.value || through != Given(ctx.event) then Err(BadState)
    else Ok(p.(state := p.state.(through := through)))
  }

  function WithSources(p: Payload, sources: Result<seq<Uuid>, Fault>): Result<Payload, Fault>
    requires p.Sources? || p.Retirement? || p.Rehydration?
  {
    if sources.Err? then Err(sources.error) else Ok(p.(sources := sources.value))
  }

  function Normalize(kind: Kind, p: Payload, ctx: Context, derived: (nat, nat) -> nat, contentHash: Content -> Digest)
    : Result<Payload, Fault>
  {
    match kind
    case MemoryCommitted => if p.Memory? then NormalMemory(p, ctx, derived, contentHash) else Err(Malformed)
    case MemorySuperseded => if p.Status? then NormalStatus(kind, p, ctx) else Err(Malformed)
    case MemoryRetired => if p.Status? then NormalStatus(kind, p, ctx) else Err(Malformed)
    case MemoryDisputed => if p.Status? then NormalStatus(kind, p, ctx) else Err(Malformed)
    case StateCommitted => if p.State? then NormalState(p, ctx) else Err(Malformed)
    case TaskEnded => if ctx.task.None? then Err(NoTask) else Ok(p)
    case RetentionCited => if p.Sources? then WithSources(p, NormalSources(p.sources)) else Err(Malformed)
    case ProductionClaim => if p.Sources? then WithSources(p, NormalSources(p.sources)) else Err(Malformed)
    case BlobArchived => Retires(p, true)
    case BlobEvicted => Retires(p, false)
    case BlobRehydrated =>
      if p.Rehydration? && p.wellFormed && NormalSources(p.sources).Ok? && |Values(p.sources)| == |p.sources|
      then WithSources(p, NormalSources(p.sources))
      else Err(Malformed)
    case VerificationResult => Ok(p)
    case ArtifactObserved => Ok(p)
    case Unreduced => Ok(p)
  }

  /** An archiving event names an archive, an evicting one must not. */
  function Retires(p: Payload, archived: bool): Result<Payload, Fault> {
    if !p.Retirement? || !p.digestsOk || p.archived != archived || p.hasArchive != archived then Err(Malformed)
    else WithSources(p, NormalSources(p.sources))
  }

  // -- normalizing twice --

  lemma {:induction false} ProofsSettle(s: seq<Proof>, ctx: Context, later: Context, derived: (nat, nat) -> nat, seen: Entry<Stamp>, again: Entry<Stamp>)
    requires NormalProofs(s, ctx, derived, seen).Ok?
    ensures NormalProofs(NormalProofs(s, ctx, derived, seen).value, later, derived, again) == NormalProofs(s, ctx, derived, seen)
  {
    if s != [] {
      var n := |s| - 1;
      ProofsSettle(s[..n], ctx, later, derived, seen, again);
      var r := NormalProofs(s, ctx, derived, seen).value;
      assert r[..n] == NormalProofs(s[..n], ctx, derived, seen).value;
      var last := NormalProof(s[n], n, ctx, derived, seen).value;
      assert r[n] == last;
      assert NormalProof(last, n, later, derived, again) == Ok(last);
    }
  }

  lemma MemorySettles(p: Payload, ctx: Context, later: Context, derived: (nat, nat) -> nat, contentHash: Content -> Digest)
    requires p.Memory? && NormalMemory(p, ctx, derived, contentHash).Ok?
    ensures var q := NormalMemory(p, ctx, derived, contentHash).value;
            q.Memory? && NormalMemory(q, later, derived, contentHash) == Ok(q)
  {
    var times := NormalTimes(p.times).value;
    ProofsSettle(p.proofs, ctx, later, derived, times.observed, times.observed);
    assert NormalTimes(times) == Ok(times);
  }

  lemma SourcesSettleIn(p: Payload)
    requires p.Sources? || p.Retirement? || p.Rehydration?
    requires NormalSources(p.sources).Ok?
    ensures var q := WithSources(p, NormalSources(p.sources)).value;
            WithSources(q, NormalSources(q.sources)) == Ok(q)
  {
    SourcesSettle(p.sources);
  }

  /** A payload that the append accepted is already in the form that a later read insists on, whatever the
      clock says by then. */
  lemma NormalizeSettles(kind: Kind, p: Payload, ctx: Context, later: Context, derived: (nat, nat) -> nat, contentHash: Content -> Digest)
    requires Normalize(kind, p, ctx, derived, contentHash).Ok?
    requires later.event == ctx.event && later.task == ctx.task
    ensures var q := Normalize(kind, p, ctx, derived, contentHash).value;
            Normalize(kind, q, later, derived, contentHash) == Ok(q)
  {
    match kind
    case MemoryCommitted => MemorySettles(p, ctx, later, derived, contentHash);
    case RetentionCited => SourcesSettleIn(p);
    case ProductionClaim => SourcesSettleIn(p);
    case BlobArchived => SourcesSettleIn(p);
    case BlobEvicted => SourcesSettleIn(p);
    case BlobRehydrated =>
      SourcesSettleIn(p);
    case _ =>
  }
}
