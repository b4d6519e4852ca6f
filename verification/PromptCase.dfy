// Building a long-context prompt: padded to three checkpoints, with every record's place noted.

module PromptCase {
  import opened Basics
  import opened Padding

  datatype Position = Early | Middle | Late | Elsewhere

  datatype Record = Record(id: string, position: Position, text: string)

  datatype CaseError = PaddingFailed(error: PadError)

  /** The noted range selects this record's text. */
  predicate Selects(prompt: string, range: (nat, nat), record: Record) {
    range.0 <= range.1 <= |prompt| && prompt[range.0..range.1] == record.text
  }

  /** Every noted range selects the text of a record with that id. */
  ghost predicate RangesFit(prompt: string, ranges: map<string, (nat, nat)>, records: seq<Record>) {
    forall id :: id in ranges ==> exists r :: r in records && r.id == id && Selects(prompt, ranges[id], r)
  }

  /** Every record at this position, or earlier in the list, has its range noted. */
  ghost predicate Noted(ranges: map<string, (nat, nat)>, records: seq<Record>, position: Position, n: nat) {
    forall i :: 0 <= i < n <= |records| && records[i].position == position ==> records[i].id in ranges
  }

  ghost predicate DistinctIds(records: seq<Record>) {
    forall i, j :: 0 <= i < j < |records| ==> records[i].id != records[j].id
  }

  /** The first `n` records of this position lie between the two places, in the order of the list. */
  ghost predicate Within(ranges: map<string, (nat, nat)>, records: seq<Record>, position: Position, n: nat, from: nat, to: nat) {
    && n <= |records|
    && (forall i :: 0 <= i < n && records[i].position == position ==>
          records[i].id in ranges && from <= ranges[records[i].id].0 <= ranges[records[i].id].1 <= to)
    && (forall i, j :: 0 <= i < j < n && records[i].position == position && records[j].position == position ==>
          records[i].id in ranges && records[j].id in ranges && ranges[records[i].id].1 <= ranges[records[j].id].0)
  }

  /** Ranges of records of other positions stay where they were. */
  ghost predicate OthersStay(noted: map<string, (nat, nat)>, ranges: map<string, (nat, nat)>, records: seq<Record>, position: Position) {
    forall i :: 0 <= i < |records| && records[i].position != position && records[i].id in noted ==>
      records[i].id in ranges && ranges[records[i].id] == noted[records[i].id]
  }

  /** Where the placing of the first `n` records has got to. */
  ghost predicate PlacedUpTo(start: string, noted: map<string, (nat, nat)>, records: seq<Record>, position: Position, n: nat,
                             prompt: string, ranges: map<string, (nat, nat)>) {
    && n <= |records| && start <= prompt && RangesFit(prompt, ranges, records)
    && Noted(ranges, records, position, n) && (forall id :: id in noted ==> id in ranges)
    && (DistinctIds(records) ==>
          Within(ranges, records, position, n, |start|, |prompt|) && OthersStay(noted, ranges, records, position))
  }

  lemma RangeAdded(noted: map<string, (nat, nat)>, ranges: map<string, (nat, nat)>, records: seq<Record>, position: Position,
                   n: nat, from: nat, to: nat, range: (nat, nat))
    requires DistinctIds(records) && n < |records| && records[n].position == position
    requires Within(ranges, records, position, n, from, to) && OthersStay(noted, ranges, records, position)
    requires from <= to <= range.0 <= range.1
    ensures Within(ranges[records[n].id := range], records, position, n + 1, from, range.1)
    ensures OthersStay(noted, ranges[records[n].id := range], records, position)
  {
  }

  lemma RecordAdded(start: string, noted: map<string, (nat, nat)>, records: seq<Record>, position: Position, n: nat,
                    prompt: string, ranges: map<string, (nat, nat)>, separator: string)
    requires PlacedUpTo(start, noted, records, position, n, prompt, ranges) && n < |records| && records[n].position == position
    ensures var longer := prompt + separator + records[n].text;
            PlacedUpTo(start, noted, records, position, n + 1, longer,
                       ranges[records[n].id := (|prompt| + |separator|, |longer|)])
  {
    var r := records[n];
    var longer := prompt + separator + r.text;
    assert longer[|prompt| + |separator|..|longer|] == r.text;
    assert Selects(longer, (|prompt| + |separator|, |longer|), r);
    RangesGrow(prompt, longer, ranges, records);
    if DistinctIds(records) {
      RangeAdded(noted, ranges, records, position, n, |start|, |prompt|, (|prompt| + |separator|, |longer|));
    }
  }

  lemma RangesGrow(prompt: string, longer: string, ranges: map<string, (nat, nat)>, records: seq<Record>)
    requires RangesFit(prompt, ranges, records) && prompt <= longer
    ensures RangesFit(longer, ranges, records)
  {
    forall id | id in ranges ensures exists r :: r in records && r.id == id && Selects(longer, ranges[id], r) {
      var r :| r in records && r.id == id && Selects(prompt, ranges[id], r);
      assert longer[ranges[id].0..ranges[id].1] == prompt[ranges[id].0..ranges[id].1];
    }
  }

  lemma NothingPlaced(start: string, noted: map<string, (nat, nat)>, records: seq<Record>, position: Position)
    requires RangesFit(start, noted, records)
    ensures PlacedUpTo(start, noted, records, position, 0, start, noted)
  {
  }

  lemma WithinSkips(ranges: map<string, (nat, nat)>, records: seq<Record>, position: Position, n: nat, from: nat, to: nat)
    requires Within(ranges, records, position, n, from, to) && n < |records| && records[n].position != position
    ensures Within(ranges, records, position, n + 1, from, to)
  {
  }

  lemma NotedSkips(ranges: map<string, (nat, nat)>, records: seq<Record>, position: Position, n: nat)
    requires Noted(ranges, records, position, n) && n < |records| && records[n].position != position
    ensures Noted(ranges, records, position, n + 1)
  {
  }

  lemma RecordSkipped(start: string, noted: map<string, (nat, nat)>, records: seq<Record>, position: Position, n: nat,
                      prompt: string, ranges: map<string, (nat, nat)>)
    requires PlacedUpTo(start, noted, records, position, n, prompt, ranges) && n < |records| && records[n].position != position
    ensures PlacedUpTo(start, noted, records, position, n + 1, prompt, ranges)
  {
    NotedSkips(ranges, records, position, n);
    if DistinctIds(records) { WithinSkips(ranges, records, position, n, |start|, |prompt|); }
  }

  /** `placed` says how far the placing has got. */
  ghost function PlacedTo(start: string, noted: map<string, (nat, nat)>, records: seq<Record>, position: Position)
    : (nat, string, map<string, (nat, nat)>) -> bool
  {
    (n: nat, prompt: string, ranges: map<string, (nat, nat)>) => PlacedUpTo(start, noted, records, position, n, prompt, ranges)
  }

  /** Puts the records of one position after the prompt, each on a line of its own. */
  method Place(start: string, noted: map<string, (nat, nat)>, records: seq<Record>, position: Position)
    returns (prompt: string, ranges: map<string, (nat, nat)>)
    requires RangesFit(start, noted, records)
    ensures PlacedUpTo(start, noted, records, position, |records|, prompt, ranges)
  {
    NothingPlaced(start, noted, records, position);
    prompt, ranges := PlaceFrom(start, noted, records, position, PlacedTo(start, noted, records, position));
  }

  method PlaceFrom(start: string, noted: map<string, (nat, nat)>, records: seq<Record>, position: Position,
                   ghost placed: (nat, string, map<string, (nat, nat)>) -> bool)
    returns (prompt: string, ranges: map<string, (nat, nat)>)
    requires placed == PlacedTo(start, noted, records, position) && placed(0, start, noted)
    ensures placed(|records|, prompt, ranges)
  {
    prompt, ranges := start, noted;
    for i := 0 to |records|
      invariant placed(i, prompt, ranges)
    {
      prompt, ranges := PlaceOne(start, noted, records, position, i, prompt, ranges);
    }
  }

  method PlaceOne(ghost start: string, ghost noted: map<string, (nat, nat)>, records: seq<Record>, position: Position, n: nat,
                  prompt: string, ranges: map<string, (nat, nat)>)
    returns (longer: string, more: map<string, (nat, nat)>)
    requires PlacedUpTo(start, noted, records, position, n, prompt, ranges) && n < |records|
    ensures PlacedUpTo(start, noted, records, position, n + 1, longer, more)
  {
    var r := records[n];
    if r.position != position {
      RecordSkipped(start, noted, records, position, n, prompt, ranges);
      return prompt, ranges;
    }
    var separator := if prompt != "" then "\n" else "";
    RecordAdded(start, noted, records, position, n, prompt, ranges, separator);
    longer := prompt + separator + r.text;
    more := ranges[r.id := (|prompt| + |separator|, |longer|)];
  }

  /** Up to `n` the prompt has exactly the checkpoint's tokens, and all of the earlier prompt lies there. */
  ghost predicate Behind(start: string, prompt: string, checkpoint: nat, count: Counter, n: nat) {
    |start| <= n <= |prompt| && start <= prompt && count(prompt[..n]) == checkpoint
  }

  ghost predicate PlacedBehind(start: string, prompt: string, ranges: map<string, (nat, nat)>, records: seq<Record>, position: Position,
                               checkpoint: nat, count: Counter) {
    exists n: nat :: Behind(start, prompt, checkpoint, count, n) && Within(ranges, records, position, |records|, n, |prompt|)
  }

  /** Early, middle and late records lie behind their own checkpoints, in this order. */
  ghost predicate InPlace(prompt: string, ranges: map<string, (nat, nat)>, records: seq<Record>, early: nat, middle: nat, late: nat,
                          count: Counter) {
    exists a: nat, b: nat, c: nat, d: nat, e: nat, f: nat ::
      && a <= b <= c <= d <= e <= f <= |prompt|
      && count(prompt[..a]) == early && count(prompt[..c]) == middle && count(prompt[..e]) == late
      && Within(ranges, records, Early, |records|, a, b)
      && Within(ranges, records, Middle, |records|, c, d)
      && Within(ranges, records, Late, |records|, e, f)
  }

  lemma StillWithin(noted: map<string, (nat, nat)>, ranges: map<string, (nat, nat)>, records: seq<Record>, position: Position, other: Position,
                    from: nat, to: nat)
    requires position != other && Within(noted, records, other, |records|, from, to) && OthersStay(noted, ranges, records, position)
    ensures Within(ranges, records, other, |records|, from, to)
  {
  }

  lemma PlacedInOrder(header: string, p1: string, p2: string, p3: string, prompt: string,
                      r1: map<string, (nat, nat)>, r2: map<string, (nat, nat)>, r3: map<string, (nat, nat)>, records: seq<Record>,
                      early: nat, middle: nat, late: nat, count: Counter, a: nat, c: nat, e: nat)
    requires Behind(header, p1, early, count, a) && Within(r1, records, Early, |records|, a, |p1|)
    requires Behind(p1, p2, middle, count, c) && Within(r2, records, Middle, |records|, c, |p2|) && OthersStay(r1, r2, records, Middle)
    requires Behind(p2, p3, late, count, e) && Within(r3, records, Late, |records|, e, |p3|) && OthersStay(r2, r3, records, Late)
    requires p3 <= prompt
    ensures InPlace(prompt, r3, records, early, middle, late, count)
  {
    StillWithin(r1, r2, records, Middle, Early, a, |p1|);
    StillWithin(r2, r3, records, Late, Early, a, |p1|);
    StillWithin(r2, r3, records, Late, Middle, c, |p2|);
    assert prompt[..a] == p1[..a] && prompt[..c] == p2[..c] && prompt[..e] == p3[..e];
  }

  lemma CheckpointsInOrder(header: string, p1: string, p2: string, p3: string, prompt: string,
                           r1: map<string, (nat, nat)>, r2: map<string, (nat, nat)>, r3: map<string, (nat, nat)>, records: seq<Record>,
                           early: nat, middle: nat, late: nat, count: Counter)
    requires PlacedBehind(header, p1, r1, records, Early, early, count)
    requires PlacedBehind(p1, p2, r2, records, Middle, middle, count) && OthersStay(r1, r2, records, Middle)
    requires PlacedBehind(p2, p3, r3, records, Late, late, count) && OthersStay(r2, r3, records, Late)
    requires p3 <= prompt
    ensures InPlace(prompt, r3, records, early, middle, late, count)
  {
    var a: nat :| Behind(header, p1, early, count, a) && Within(r1, records, Early, |records|, a, |p1|);
    var c: nat :| Behind(p1, p2, middle, count, c) && Within(r2, records, Middle, |records|, c, |p2|);
    var e: nat :| Behind(p2, p3, late, count, e) && Within(r3, records, Late, |records|, e, |p3|);
    PlacedInOrder(header, p1, p2, p3, prompt, r1, r2, r3, records, early, middle, late, count, a, c, e);
  }

  /** One checkpoint: pad the prompt so far, then place the records of this position. */
  method Checkpoint(start: string, noted: map<string, (nat, nat)>, records: seq<Record>, position: Position,
                    checkpoint: nat, count: Counter, filler: Filler)
    returns (r: Result<(string, map<string, (nat, nat)>), CaseError>)
    requires RangesFit(start, noted, records)
    ensures r.Ok? ==> start <= r.value.0 && RangesFit(r.value.0, r.value.1, records)
    ensures r.Ok? ==> Noted(r.value.1, records, position, |records|) && noted.Keys <= r.value.1.Keys
    ensures r.Ok? && DistinctIds(records) ==>
              && OthersStay(noted, r.value.1, records, position)
              && PlacedBehind(start, r.value.0, r.value.1, records, position, checkpoint, count)
  {
    var padded := PadBeforeSuffix(start, "", checkpoint, count, filler);
    if padded.Err? { return Err(PaddingFailed(padded.error)); }
    var prompt, ranges := Place(padded.value, noted, records, position);
    assert prompt[..|padded.value|] == padded.value;
    assert Behind(start, prompt, checkpoint, count, |padded.value|);
    return Ok((prompt, ranges));
  }

  lemma EveryoneNoted(r1: map<string, (nat, nat)>, r2: map<string, (nat, nat)>, r3: map<string, (nat, nat)>, records: seq<Record>)
    requires Noted(r1, records, Early, |records|) && Noted(r2, records, Middle, |records|) && Noted(r3, records, Late, |records|)
    requires r1.Keys <= r2.Keys <= r3.Keys
    ensures forall i :: 0 <= i < |records| && records[i].position != Elsewhere ==> records[i].id in r3
  {
  }

  /** The finished prompt has exactly the target's tokens, starts with the header, ends with the footer,
      every noted range still selects its record's text, and early, middle and late records lie behind their
      own checkpoints. */
  method BuildPrompt(header: string, footer: string, records: seq<Record>, early: nat, middle: nat, late: nat, target: nat,
                     count: Counter, fillers: seq<Filler>)
    returns (r: Result<(string, map<string, (nat, nat)>), CaseError>)
    requires |fillers| == 4
    ensures r.Ok? ==>
              && var (prompt, ranges) := r.value;
              && count(prompt) == target
              && header <= prompt && EndsWith(prompt, footer)
              && RangesFit(prompt, ranges, records)
              && (forall i :: 0 <= i < |records| && records[i].position != Elsewhere ==> records[i].id in ranges)
              && (DistinctIds(records) ==> InPlace(prompt, ranges, records, early, middle, late, count))
  {
    var a := Checkpoint(header, map[], records, Early, early, count, fillers[0]);
    if a.Err? { return a; }
    var b := Checkpoint(a.value.0, a.value.1, records, Middle, middle, count, fillers[1]);
    if b.Err? { return b; }
    var c := Checkpoint(b.value.0, b.value.1, records, Late, late, count, fillers[2]);
    if c.Err? { return c; }
    var padded := PadBeforeSuffix(c.value.0, footer, target, count, fillers[3]);
    if padded.Err? { return Err(PaddingFailed(padded.error)); }
    RangesGrow(c.value.0, padded.value, c.value.1, records);
    EveryoneNoted(a.value.1, b.value.1, c.value.1, records);
    if DistinctIds(records) {
      CheckpointsInOrder(header, a.value.0, b.value.0, c.value.0, padded.value, a.value.1, b.value.1, c.value.1, records,
                         early, middle, late, count);
    }
    return Ok((padded.value, c.value.1));
  }
}
