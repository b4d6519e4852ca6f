// Which payloads an append takes, and what the normalized payload keeps of the given one, field by field.

module PayloadMeaning {
  import opened Basics
  import opened HashChain
  import opened Payloads

  // -- source lists --

  predicate HasId(sources: seq<Uuid>, x: nat) {
    exists u :: u in sources && u.value == x
  }

  /** Exactly the given ids, once each, ascending and canonically spelled. */
  ghost predicate SourcesKept(given: seq<Uuid>, kept: seq<Uuid>) {
    && (forall i, j :: 0 <= i < j < |kept| ==> kept[i].value < kept[j].value)
    && (forall u :: u in kept ==> u.proper && u.lower)
    && (forall x :: HasId(kept, x) <==> HasId(given, x))
  }

  predicate SourcesFit(sources: seq<Uuid>) {
    |sources| > 0 && forall u :: u in sources ==> u.proper
  }

  predicate Unrepeated(sources: seq<Uuid>) {
    forall i, j :: 0 <= i < j < |sources| ==> sources[i].value != sources[j].value
  }

  lemma SortedAscends(ids: set<nat>)
    ensures forall i, j :: 0 <= i < j < |SortedIds(ids)| ==> SortedIds(ids)[i].value < SortedIds(ids)[j].value
    ensures forall u :: u in SortedIds(ids) ==> u.proper && u.lower
  {
    var order := Sorted(ids, Below);
    var kept := SortedIds(ids);
    assert kept == seq(|order|, i requires 0 <= i < |order| => Canonical(order[i]));
    forall i, j | 0 <= i < j < |kept| ensures kept[i].value < kept[j].value { assert Below(order[i], order[j]); }
  }

  lemma HasIdIff(sources: seq<Uuid>, x: nat)
    ensures HasId(sources, x) <==> x in Values(sources)
  {
  }

  lemma SortedKept(given: seq<Uuid>)
    ensures SourcesKept(given, SortedIds(Values(given)))
  {
    SortedAscends(Values(given));
    forall x ensures HasId(SortedIds(Values(given)), x) <==> HasId(given, x) {
      HasIdIff(SortedIds(Values(given)), x);
      HasIdIff(given, x);
    }
  }

  lemma SourcesMean(sources: seq<Uuid>)
    ensures NormalSources(sources).Ok? <==> SourcesFit(sources)
    ensures NormalSources(sources).Ok? ==> SourcesKept(sources, NormalSources(sources).value)
  {
    if SourcesFit(sources) { SortedKept(sources); }
  }

  lemma ValuesNext(front: seq<Uuid>, u: Uuid)
    ensures Values(front + [u]) == Values(front) + {u.value}
    ensures Unrepeated(front + [u]) <==> Unrepeated(front) && !HasId(front, u.value)
  {
    var more := front + [u];
    assert forall i :: 0 <= i < |front| ==> more[i] == front[i];
    assert more[|front|] == u;
    if HasId(front, u.value) {
      var v :| v in front && v.value == u.value;
      var i :| 0 <= i < |front| && front[i] == v;
      assert more[i].value == more[|front|].value;
    }
    forall i | 0 <= i < |front| ensures front[i] in front { }
  }

  lemma {:induction false} CountedOnce(sources: seq<Uuid>)
    ensures |Values(sources)| <= |sources|
    ensures |Values(sources)| == |sources| <==> Unrepeated(sources)
  {
    if sources != [] {
      var front, u := sources[..|sources| - 1], sources[|sources| - 1];
      assert sources == front + [u];
      CountedOnce(front);
      ValuesNext(front, u);
      HasIdIff(front, u.value);
    }
  }

  // -- times --

  /** A time that is given, spelled canonically. */
  function InUtc(t: Stamp): Stamp {
    Stamp(t.instant, true)
  }

  predicate TimeFits(x: Entry<Stamp>) {
    x.Given? ==> x.value.instant.Some?
  }

  /** A given time keeps its instant; a missing one stays missing and a null one null. */
  predicate TimeKept(given: Entry<Stamp>, kept: Entry<Stamp>) {
    if given.Given? then kept == Given(InUtc(given.value)) else kept == given
  }

  /** A missing time becomes `fallback`, a null one the present. */
  function Filled(given: Entry<Stamp>, fallback: Stamp, now: Stamp): Stamp {
    if given.Given? then given.value else if given.Null? then now else fallback
  }

  // -- memories --

  predicate StatusFits(status: Entry<string>) {
    status.Absent? || status in {Given("active"), Given("disputed"), Given("superseded"), Given("retired")}
  }

  function SeenAt(p: Payload, ctx: Context): Stamp
    requires p.Memory?
  {
    if p.times.observed.Given? then p.times.observed.value else ctx.occurred
  }

  predicate ProofFits(p: Payload, ctx: Context, x: Proof)
    requires p.Memory?
  {
    && x.kindOk && x.locator != "" && x.authority != "" && x.shaOk
    && Filled(x.observed, SeenAt(p, ctx), ctx.now).instant.Some?
  }

  predicate MemoryFits(p: Payload, ctx: Context, contentHash: Content -> Digest)
    requires p.Memory?
  {
    && p.content.kindOk && p.id != "" && p.content.subject != "" && p.content.predicate_ != "" && p.content.searchable != ""
    && StatusFits(p.status) && p.verified
    && TimeFits(p.times.validFrom) && TimeFits(p.times.validTo) && TimeFits(p.times.observed) && TimeFits(p.times.review)
    && Filled(p.recorded, ctx.occurred, ctx.now).instant.Some?
    && p.supersedes != Given(p.id)
    && (p.hash.Given? ==> p.hash.value == contentHash(p.content))
    && p.proofs != [] && (forall i :: 0 <= i < |p.proofs| ==> ProofFits(p, ctx, p.proofs[i]))
  }

  /** A proof keeps everything that was given; a missing id is derived, a missing event is the memory's own. */
  predicate ProofKept(p: Payload, ctx: Context, derived: (nat, nat) -> nat, i: nat, kept: Proof)
    requires p.Memory? && i < |p.proofs|
  {
    var x := p.proofs[i];
    && kept.kindOk == x.kindOk && kept.locator == x.locator && kept.authority == x.authority && kept.shaOk == x.shaOk
    && kept.id == (if x.id.Absent? then Given(derived(ctx.event.value, i)) else x.id)
    && kept.source == (if x.source.Absent? then Given(ctx.event.value) else x.source)
    && kept.observed == Given(InUtc(Filled(x.observed, if p.times.observed.Given? then InUtc(p.times.observed.value) else ctx.occurred, ctx.now)))
  }

  ghost predicate MemoryKept(p: Payload, ctx: Context, derived: (nat, nat) -> nat, contentHash: Content -> Digest, kept: Payload)
    requires p.Memory?
  {
    && kept.Memory? && kept.id == p.id && kept.content == p.content && kept.verified == p.verified && kept.supersedes == p.supersedes
    && kept.status == (if p.status.Absent? then Given("active") else p.status)
    && TimeKept(p.times.validFrom, kept.times.validFrom) && TimeKept(p.times.validTo, kept.times.validTo)
    && TimeKept(p.times.observed, kept.times.observed) && TimeKept(p.times.review, kept.times.review)
    && kept.recorded == Given(InUtc(Filled(p.recorded, ctx.occurred, ctx.now)))
    && kept.hash == Given(contentHash(p.content))
    && |kept.proofs| == |p.proofs| && forall i :: 0 <= i < |p.proofs| ==> ProofKept(p, ctx, derived, i, kept.proofs[i])
  }

  lemma TimesMean(t: Times)
    ensures NormalTimes(t).Ok? <==> TimeFits(t.validFrom) && TimeFits(t.validTo) && TimeFits(t.observed) && TimeFits(t.review)
    ensures NormalTimes(t).Ok? ==>
              var n := NormalTimes(t).value;
              TimeKept(t.validFrom, n.validFrom) && TimeKept(t.validTo, n.validTo) && TimeKept(t.observed, n.observed) && TimeKept(t.review, n.review)
  {
  }

  lemma OneProofMeans(p: Payload, ctx: Context, derived: (nat, nat) -> nat, seen: Entry<Stamp>, i: nat)
    requires p.Memory? && i < |p.proofs| && TimeFits(p.times.observed) && TimeKept(p.times.observed, seen)
    ensures var n := NormalProof(p.proofs[i], i, ctx, derived, seen);
            (n.Ok? <==> ProofFits(p, ctx, p.proofs[i])) && (n.Ok? ==> ProofKept(p, ctx, derived, i, n.value))
  {
  }

  lemma {:induction false} ProofsMean(p: Payload, ctx: Context, derived: (nat, nat) -> nat, seen: Entry<Stamp>, n: nat)
    requires p.Memory? && n <= |p.proofs| && TimeFits(p.times.observed) && TimeKept(p.times.observed, seen)
    ensures var r := NormalProofs(p.proofs[..n], ctx, derived, seen);
            && (r.Ok? <==> forall i :: 0 <= i < n ==> ProofFits(p, ctx, p.proofs[i]))
            && (r.Ok? ==> |r.value| == n && forall i :: 0 <= i < n ==> ProofKept(p, ctx, derived, i, r.value[i]))
  {
    if n > 0 {
      ProofsMean(p, ctx, derived, seen, n - 1);
      OneProofMeans(p, ctx, derived, seen, n - 1);
      assert p.proofs[..n][..n - 1] == p.proofs[..n - 1];
    }
  }

  lemma MemoryMeans(p: Payload, ctx: Context, derived: (nat, nat) -> nat, contentHash: Content -> Digest)
    requires p.Memory?
    ensures NormalMemory(p, ctx, derived, contentHash).Ok? <==> MemoryFits(p, ctx, contentHash)
    ensures NormalMemory(p, ctx, derived, contentHash).Ok? ==>
              MemoryKept(p, ctx, derived, contentHash, NormalMemory(p, ctx, derived, contentHash).value)
  {
    TimesMean(p.times);
    if NormalTimes(p.times).Ok? {
      ProofsMean(p, ctx, derived, NormalTimes(p.times).value.observed, |p.proofs|);
      assert p.proofs[..|p.proofs|] == p.proofs;
    }
  }

  // -- every kind --

  predicate StatusChangeFits(kind: Kind, p: Payload, ctx: Context) {
    && p.Status? && p.id != ""
    && if kind == MemoryDisputed then !p.until.Given? else Filled(p.until, ctx.occurred, ctx.now).instant.Some?
  }

  predicate StateFits(p: Payload, ctx: Context) {
    && p.State? && ctx.task.Some? && p.revision >= 1 && p.state.valid && p.state.task == ctx.task.value
    && (p.state.through.Absent? || p.state.through == Given(ctx.event))
  }

  predicate RetirementFits(p: Payload, archived: bool) {
    p.Retirement? && p.digestsOk && p.archived == archived && p.hasArchive == archived && SourcesFit(p.sources)
  }

  /** The payloads that an append of this kind takes. */
  predicate Fits(kind: Kind, p: Payload, ctx: Context, contentHash: Content -> Digest) {
    match kind
    case MemoryCommitted => p.Memory? && MemoryFits(p, ctx, contentHash)
    case MemorySuperseded => StatusChangeFits(kind, p, ctx)
    case MemoryRetired => StatusChangeFits(kind, p, ctx)
    case MemoryDisputed => StatusChangeFits(kind, p, ctx)
    case StateCommitted => StateFits(p, ctx)
    case TaskEnded => ctx.task.Some?
    case RetentionCited => p.Sources? && SourcesFit(p.sources)
    case ProductionClaim => p.Sources? && SourcesFit(p.sources)
    case BlobArchived => RetirementFits(p, true)
    case BlobEvicted => RetirementFits(p, false)
    case BlobRehydrated => p.Rehydration? && p.wellFormed && SourcesFit(p.sources) && Unrepeated(p.sources)
    case _ => true
  }

  /** What the stored payload has of the given one. */
  ghost predicate Kept(kind: Kind, p: Payload, ctx: Context, derived: (nat, nat) -> nat, contentHash: Content -> Digest, kept: Payload) {
    match p
    case Memory(_, _, _, _, _, _, _, _, _) =>
      if kind == MemoryCommitted then MemoryKept(p, ctx, derived, contentHash, kept) else kept == p
    case Status(id, until) =>
      if kind == MemorySuperseded || kind == MemoryRetired
      then kept == Status(id, Given(InUtc(Filled(until, ctx.occurred, ctx.now)))) else kept == p
    case State(revision, state) =>
      if kind == StateCommitted
      then kept == State(revision, TaskState(state.task, Given(ctx.event), state.valid, state.rest)) else kept == p
    case Sources(sources) =>
      if kind == RetentionCited || kind == ProductionClaim then kept.Sources? && SourcesKept(sources, kept.sources) else kept == p
    case Retirement(archived, hasArchive, digestsOk, retention, sources) =>
      if kind == BlobArchived || kind == BlobEvicted
      then kept.Retirement? && kept == Retirement(archived, hasArchive, digestsOk, retention, kept.sources) && SourcesKept(sources, kept.sources)
      else kept == p
    case Rehydration(wellFormed, sources) =>
      if kind == BlobRehydrated
      then kept.Rehydration? && kept == Rehydration(wellFormed, kept.sources) && SourcesKept(sources, kept.sources)
      else kept == p
    case Free(_) => kept == p
    case BlobShaped(_, _, _) => kept == p
  }

  lemma RetirementMeans(p: Payload, archived: bool)
    ensures Retires(p, archived).Ok? <==> RetirementFits(p, archived)
    ensures Retires(p, archived).Ok? ==>
              && p.Retirement?
              && var kept := Retires(p, archived).value;
              && kept.Retirement? && kept == Retirement(p.archived, p.hasArchive, p.digestsOk, p.retention, kept.sources)
              && SourcesKept(p.sources, kept.sources)
  {
    if p.Retirement? { SourcesMean(p.sources); }
  }

  /** Normalization takes exactly the payloads that fit, and keeps of them everything that was given, with times
      in UTC, source ids sorted once each, and missing entries filled with their defaults. */
  lemma NormalizeMeans(kind: Kind, p: Payload, ctx: Context, derived: (nat, nat) -> nat, contentHash: Content -> Digest)
    ensures Normalize(kind, p, ctx, derived, contentHash).Ok? <==> Fits(kind, p, ctx, contentHash)
    ensures Normalize(kind, p, ctx, derived, contentHash).Ok? ==>
              Kept(kind, p, ctx, derived, contentHash, Normalize(kind, p, ctx, derived, contentHash).value)
  {
    match kind
    case MemoryCommitted => if p.Memory? { MemoryMeans(p, ctx, derived, contentHash); }
    case RetentionCited => if p.Sources? { SourcesMean(p.sources); }
    case ProductionClaim => if p.Sources? { SourcesMean(p.sources); }
    case BlobArchived => RetirementMeans(p, true);
    case BlobEvicted => RetirementMeans(p, false);
    case BlobRehydrated =>
      if p.Rehydration? {
        SourcesMean(p.sources);
        CountedOnce(p.sources);
      }
    case _ =>
  }
}
