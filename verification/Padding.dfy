// Exact padding: filling a prompt with neutral text until an opaque token counter says exactly the target.

module Padding {
  import opened Basics

  type Counter = string -> nat
  type Filler = (nat, nat) -> string   // requested tokens and attempt

  datatype PadError = FixedTooLong | BlankFiller | NotEnoughTokens | TargetUnreachable | TooManyRounds

  /** Parts on lines of their own; empty parts are left out. */
  function Join(a: string, b: string): (r: string)
    ensures a <= r
    ensures a != "" && b != "" ==> |r| == |a| + 1 + |b|
  {
    if a == "" then b else if b == "" then a else a + "\n" + b
  }

  predicate EndsWith(s: string, part: string) {
    |part| <= |s| && s[|s| - |part|..] == part
  }

  /** A padded text: something that starts with the prefix, then the suffix on a line of its own. */
  ghost predicate Padded(v: string, prefix: string, suffix: string) {
    exists body :: prefix <= body && v == Join(body, suffix)
  }

  /** The text with so many filler tokens requested; none leaves the fixed text. */
  function TextOf(prefix: string, suffix: string, fixed: string, requested: nat, attempt: nat, filler: Filler): string {
    if requested == 0 then fixed else Join(Join(prefix, filler(requested, attempt)), suffix)
  }

  /** The counter as a function of the request, for one attempt. */
  function Measure(prefix: string, suffix: string, fixed: string, attempt: nat, count: Counter, filler: Filler): nat -> nat {
    requested => count(TextOf(prefix, suffix, fixed, requested, attempt, filler))
  }

  /** Up to the limit, requesting more never measures less. */
  ghost predicate Monotone(measure: nat -> nat, limit: nat) {
    forall a, b :: 0 <= a <= b <= limit ==> measure(a) <= measure(b)
  }

  ghost predicate Hits(measure: nat -> nat, limit: nat, target: nat) {
    exists k: nat :: k <= limit && measure(k) == target
  }

  ghost predicate NeverBlank(filler: Filler, attempt: nat, limit: nat) {
    forall k: nat :: 0 < k <= limit ==> !Blank(filler(k, attempt))
  }

  /** Tries a number of filler tokens between the prefix and the suffix. */
  method Trial(prefix: string, suffix: string, fixed: string, requested: nat, attempt: nat, count: Counter, filler: Filler)
    returns (r: Result<(string, nat), PadError>)
    ensures r.Ok? ==> r.value.1 == count(r.value.0)
    ensures requested == 0 ==> r == Ok((fixed, count(fixed)))
    ensures requested > 0 ==> (r == Err(BlankFiller) <==> Blank(filler(requested, attempt))) && (r.Err? ==> r == Err(BlankFiller))
    ensures r.Ok? ==> r.value.0 == TextOf(prefix, suffix, fixed, requested, attempt, filler)
    ensures r.Ok? ==> r.value.1 == Measure(prefix, suffix, fixed, attempt, count, filler)(requested)
    ensures requested > 0 && r.Ok? ==>
              r.value.0 == Join(Join(prefix, filler(requested, attempt)), suffix) && filler(requested, attempt) != ""
  {
    if requested == 0 { return Ok((fixed, count(fixed))); }
    var text := filler(requested, attempt);
    if Blank(text) { return Err(BlankFiller); }
    var value := Join(Join(prefix, text), suffix);
    return Ok((value, count(value)));
  }

  datatype Outcome = Found(value: string) | Advanced(prefix: string) | Failed(error: PadError)

  /** Strictly more tokens than before, and still fewer than wanted. */
  ghost predicate Progress(count: Counter, target: nat, suffix: string, was: string, now: string) {
    was <= now && count(Join(was, suffix)) < count(Join(now, suffix)) < target
  }

  /** The best text so far is the prefix alone, or the prefix and some filler. */
  ghost predicate Best(count: Counter, target: nat, prefix: string, suffix: string, best: string, bestCount: nat) {
    && bestCount == count(best) < target
    && count(Join(prefix, suffix)) <= bestCount
    && (count(Join(prefix, suffix)) < bestCount ==> exists text :: text != "" && best == Join(Join(prefix, text), suffix))
  }

  function Doubled(n: nat, times: nat): (r: nat)
    ensures n > 0 ==> r > 0
    ensures times <= 8 ==> r <= 256 * n
  {
    match times
    case 0 => n case 1 => 2 * n case 2 => 4 * n case 3 => 8 * n case 4 => 16 * n
    case 5 => 32 * n case 6 => 64 * n case 7 => 128 * n case _ => 256 * n
  }

  /** Doubles the request until enough tokens come back; at most eight times, and no more often than needed. */
  method Expand(prefix: string, suffix: string, fixed: string, deficit: nat, attempt: nat, first: nat, target: nat,
                count: Counter, filler: Filler)
    returns (r: Result<nat, PadError>)
    requires deficit > 0 && first == Measure(prefix, suffix, fixed, attempt, count, filler)(deficit)
    ensures r.Ok? ==> Enough(Measure(prefix, suffix, fixed, attempt, count, filler), deficit, target, r.value)
    ensures r == Err(NotEnoughTokens) ==>
              forall e: nat :: e <= 8 ==> Measure(prefix, suffix, fixed, attempt, count, filler)(Doubled(deficit, e)) < target
    ensures r == Err(BlankFiller) ==> !NeverBlank(filler, attempt, 256 * deficit)
    ensures r.Err? ==> r.error in {BlankFiller, NotEnoughTokens}
  {
    ghost var measure := Measure(prefix, suffix, fixed, attempt, count, filler);
    var high, measured, expansions := deficit, first, 0;
    while measured < target && expansions < 8
      invariant 0 <= expansions <= 8 && high == Doubled(deficit, expansions) && measured == measure(high)
      invariant forall e: nat :: e < expansions ==> measure(Doubled(deficit, e)) < target
      decreases 8 - expansions
    {
      high := high * 2;
      var tried := Trial(prefix, suffix, fixed, high, attempt, count, filler);
      if tried.Err? { return Err(tried.error); }
      measured := tried.value.1;
      expansions := expansions + 1;
    }
    return if measured < target then Err(NotEnoughTokens) else Ok(high);
  }

  /** The first doubling of the deficit that measures at least the target. */
  ghost predicate Enough(measure: nat -> nat, deficit: nat, target: nat, high: nat) {
    exists e: nat :: e <= 8 && high == Doubled(deficit, e) && measure(high) >= target
                     && forall d: nat :: d < e ==> measure(Doubled(deficit, d)) < target
  }

  /** What the search leaves when it does not find the target, if more requested never measures less: nothing
      hits it, and no request below it comes nearer. */
  ghost predicate NearestBelow(measure: nat -> nat, limit: nat, target: nat, bestCount: nat) {
    Monotone(measure, limit) ==>
      forall k: nat :: k <= limit ==> measure(k) != target && (measure(k) < target ==> measure(k) <= bestCount)
  }

  /** Searches the requests up to `limit` for the target, keeping the best text that stays below it. */
  method Search(prefix: string, suffix: string, fixed: string, limit: nat, attempt: nat, target: nat,
                count: Counter, filler: Filler)
    returns (r: Result<(string, nat), PadError>)
    requires count(fixed) <= count(Join(prefix, suffix)) < target
    ensures r.Err? ==> r.error == BlankFiller && !NeverBlank(filler, attempt, limit)
    ensures r.Ok? ==> r.value.1 == count(r.value.0)
    ensures r.Ok? && r.value.1 != target ==>
              NearestBelow(Measure(prefix, suffix, fixed, attempt, count, filler), limit, target, r.value.1)
    ensures r.Ok? && r.value.1 == target ==> exists text :: r.value.0 == Join(Join(prefix, text), suffix)
    ensures r.Ok? && r.value.1 != target ==> Best(count, target, prefix, suffix, r.value.0, r.value.1)
  {
    ghost var measure := Measure(prefix, suffix, fixed, attempt, count, filler);
    var low, high: int := 0, limit;
    var best := Join(prefix, suffix);
    var bestCount: nat := count(best);
    while low <= high
      invariant 0 <= low <= high + 1 && high <= limit
      invariant Monotone(measure, limit) ==> forall k: nat :: k < low ==> measure(k) < target && measure(k) <= bestCount
      invariant Monotone(measure, limit) ==> forall k: nat :: high < k <= limit ==> measure(k) > target
      invariant Best(count, target, prefix, suffix, best, bestCount)
      decreases high - low + 1
    {
      var middle := (low + high) / 2;
      var tried := Trial(prefix, suffix, fixed, middle, attempt, count, filler);
      if tried.Err? { return Err(tried.error); }
      var (value, measured) := tried.value;
      if measured == target { return Ok((value, measured)); }
      if measured < target {
        if measured >= bestCount {
          best, bestCount := value, measured;
        }
        low := middle + 1;
      } else {
        high := middle - 1;
      }
    }
    return Ok((best, bestCount));
  }

  /** The longer prefix that the best text of a round stands for. */
  method Shorten(prefix: string, suffix: string, target: nat, count: Counter, best: string, bestCount: nat)
    returns (r: Outcome)
    requires Best(count, target, prefix, suffix, best, bestCount)
    ensures r.Advanced? ==> Progress(count, target, suffix, prefix, r.prefix)
    ensures !r.Advanced? ==> r == Failed(TargetUnreachable) && bestCount == count(Join(prefix, suffix))
  {
    if bestCount <= count(Join(prefix, suffix)) { return Failed(TargetUnreachable); }
    ghost var text :| text != "" && best == Join(Join(prefix, text), suffix);
    BeforeSuffix(prefix, text, suffix);
    // the best text always ends in the suffix, so its place cannot get lost
    return Advanced(if suffix == "" then best else best[..|best| - |suffix| - 1]);
  }

  /** One round: the target itself, or a longer prefix that is nearer to it. */
  method Round(prefix: string, suffix: string, fixed: string, attempt: nat, target: nat, count: Counter, filler: Filler)
    returns (r: Outcome)
    requires count(fixed) <= count(Join(prefix, suffix)) < target
    ensures r.Found? ==> count(r.value) == target && Padded(r.value, prefix, suffix)
    ensures r.Advanced? ==> Progress(count, target, suffix, prefix, r.prefix)
    ensures r.Failed? ==> r.error in {BlankFiller, NotEnoughTokens, TargetUnreachable}
    ensures DirectHit(prefix, suffix, attempt, target, count, filler) ==> r.Found?
    ensures InReach(prefix, suffix, fixed, attempt, target, count, filler) ==> r.Found?
  {
    var deficit := target - count(Join(prefix, suffix));
    var direct := Trial(prefix, suffix, fixed, deficit, attempt, count, filler);
    if direct.Err? { return Failed(direct.error); }
    if direct.value.1 == target {
      return Found(direct.value.0);
    }
    var high := Expand(prefix, suffix, fixed, deficit, attempt, direct.value.1, target, count, filler);
    if InReach(prefix, suffix, fixed, attempt, target, count, filler) {
      ReachedByDoubling(prefix, suffix, fixed, attempt, target, count, filler, high);
    }
    if high.Err? { return Failed(high.error); }
    var searched := Search(prefix, suffix, fixed, high.value, attempt, target, count, filler);
    if searched.Err? { return Failed(searched.error); }
    if searched.value.1 == target {
      ghost var text :| searched.value.0 == Join(Join(prefix, text), suffix);
      return Found(searched.value.0);
    }
    r := Shorten(prefix, suffix, target, count, searched.value.0, searched.value.1);
  }

  /** More requested never measures less, nothing requested is blank, and some request up to two hundred and
      fifty-six times the missing tokens measures exactly the target. */
  ghost predicate InReach(prefix: string, suffix: string, fixed: string, attempt: nat, target: nat, count: Counter, filler: Filler) {
    var base := count(Join(prefix, suffix));
    var measure := Measure(prefix, suffix, fixed, attempt, count, filler);
    && base < target && Monotone(measure, 256 * (target - base)) && NeverBlank(filler, attempt, 256 * (target - base))
    && Hits(measure, 256 * (target - base), target)
  }

  lemma ReachedByDoubling(prefix: string, suffix: string, fixed: string, attempt: nat, target: nat, count: Counter, filler: Filler,
                          high: Result<nat, PadError>)
    requires count(Join(prefix, suffix)) < target
    requires var deficit := target - count(Join(prefix, suffix));
             var measure := Measure(prefix, suffix, fixed, attempt, count, filler);
             && (high.Ok? ==> Enough(measure, deficit, target, high.value))
             && (high == Err(NotEnoughTokens) ==> forall e: nat :: e <= 8 ==> measure(Doubled(deficit, e)) < target)
             && (high == Err(BlankFiller) ==> !NeverBlank(filler, attempt, 256 * deficit))
             && (high.Err? ==> high.error in {BlankFiller, NotEnoughTokens})
    requires InReach(prefix, suffix, fixed, attempt, target, count, filler)
    ensures high.Ok? && NeverBlank(filler, attempt, high.value)
    ensures var measure := Measure(prefix, suffix, fixed, attempt, count, filler);
            Monotone(measure, high.value) && Hits(measure, high.value, target)
  {
    var deficit := target - count(Join(prefix, suffix));
    var measure := Measure(prefix, suffix, fixed, attempt, count, filler);
    var k: nat :| k <= 256 * deficit && measure(k) == target;
    assert Doubled(deficit, 8) == 256 * deficit && measure(k) <= measure(256 * deficit);
    if high.Ok? {
      if k > high.value { assert measure(high.value) <= measure(k); }
    }
  }

  predicate DirectHit(prefix: string, suffix: string, attempt: nat, target: nat, count: Counter, filler: Filler) {
    var base := count(Join(prefix, suffix));
    && base < target && !Blank(filler(target - base, attempt))
    && count(Join(Join(prefix, filler(target - base, attempt)), suffix)) == target
  }

  lemma BeforeSuffix(prefix: string, text: string, suffix: string)
    requires text != ""
    ensures var v := Join(Join(prefix, text), suffix);
            && (suffix != "" ==> |v| >= |suffix| + 1 && EndsWith(v, "\n" + suffix) && v[..|v| - |suffix| - 1] == Join(prefix, text))
            && (suffix == "" ==> v == Join(prefix, text))
  {
    var body := Join(prefix, text);
    assert body != "";
    if suffix != "" {
      var v := body + "\n" + suffix;
      assert v == body + ("\n" + suffix);
      assert v[|body|..] == "\n" + suffix;
      assert v[..|body|] == body;
    }
  }

  /** Reaches the target exactly, with the prefix first and the suffix last. */
  method PadBeforeSuffix(prefix: string, suffix: string, target: nat, count: Counter, filler: Filler)
    returns (r: Result<string, PadError>)
    ensures r.Ok? ==> count(r.value) == target && Padded(r.value, prefix, suffix)
    ensures r == Err(FixedTooLong) <==> count(Join(prefix, suffix)) > target
    ensures count(Join(prefix, suffix)) == target ==> r == Ok(Join(prefix, suffix))
    ensures DirectHit(prefix, suffix, 0, target, count, filler) ==> r.Ok?
    ensures InReach(prefix, suffix, Join(prefix, suffix), 0, target, count, filler) ==> r.Ok?
  {
    var fixed := Join(prefix, suffix);
    if count(fixed) > target { return Err(FixedTooLong); }
    if count(fixed) == target {
      assert prefix <= prefix;
      return Ok(fixed);
    }
    var current, attempt := prefix, 0;
    while attempt < 16
      invariant prefix <= current && count(fixed) <= count(Join(current, suffix)) < target
      invariant attempt == 0 ==> current == prefix
      invariant attempt > 0 ==> !DirectHit(prefix, suffix, 0, target, count, filler)
      invariant attempt > 0 ==> !InReach(prefix, suffix, fixed, 0, target, count, filler)
    {
      // neither guard at the top of a round can fire: the deficit is always positive
      var round := Round(current, suffix, fixed, attempt, target, count, filler);
      match round {
        case Found(value) =>
          ghost var body :| current <= body && value == Join(body, suffix);
          assert prefix <= body;
          return Ok(value);
        case Failed(error) => return Err(error);
        case Advanced(next) => current := next;
      }
      attempt := attempt + 1;
    }
    return Err(TooManyRounds);
  }
}
